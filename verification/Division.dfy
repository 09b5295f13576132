// Quotients and remainders, told by each other.
module Division {
  lemma DivMod(a: int, b: nat)
    requires b > 0
    ensures a == a / b * b + a % b && 0 <= a % b < b
    ensures a >= 0 ==> a / b >= 0
  {
  }

  lemma DivUnique(a: int, b: nat, q: int, r: nat)
    requires b > 0 && a == q * b + r && r < b
    ensures a / b == q && a % b == r
  {
    DivMod(a, b);
    var d := a / b - q;
    assert d * b == r - a % b;
    if d >= 1 {
      AtLeast(d, b);
    } else if d <= -1 {
      AtLeast(-d, b);
    }
  }

  lemma AtLeast(d: int, b: nat)
    requires d >= 1
    ensures d * b >= b
  {
  }
}
