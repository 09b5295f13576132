// Bytes as the C code sees them: little-endian integers and NUL-terminated
// strings read and written through a position in a byte sequence.
module Bytes {
  type Byte = x: int | 0 <= x < 256
  type Int32 = x: int | -0x8000_0000 <= x < 0x8000_0000
  type Int64 = x: int | -0x8000_0000_0000_0000 <= x < 0x8000_0000_0000_0000
  type UInt64 = x: int | 0 <= x < 0x1_0000_0000_0000_0000

  datatype Option<+T> = None | Some(value: T)

  // ----- Reading at a position -----

  // The bytes e stand in s at position p.
  predicate At(s: seq<Byte>, p: nat, e: seq<Byte>) {
    p + |e| <= |s| && s[p..p + |e|] == e
  }

  lemma AtConcat(s: seq<Byte>, p: nat, a: seq<Byte>, b: seq<Byte>)
    ensures At(s, p, a + b) <==> At(s, p, a) && At(s, p + |a|, b)
  {
    if p + |a| + |b| <= |s| {
      var w := s[p..p + |a + b|];
      assert w[..|a|] == s[p..p + |a|];
      assert w[|a|..] == s[p + |a|..p + |a| + |b|];
      assert w == w[..|a|] + w[|a|..];
      assert (a + b)[..|a|] == a && (a + b)[|a|..] == b;
    }
  }

  // ----- Little-endian integers -----

  // The four bytes a C int occupies in memory (two's complement, truncated to 32 bits).
  function Le32(v: int): (s: seq<Byte>)
    ensures |s| == 4
  {
    [v % 0x100, v / 0x100 % 0x100, v / 0x1_0000 % 0x100, v / 0x100_0000 % 0x100]
  }

  // The eight bytes of an int64_t.
  function Le64(v: int): (s: seq<Byte>)
    ensures |s| == 8
  {
    Le32(v) + Le32(v / 0x1_0000_0000)
  }

  function Unsigned32At(s: seq<Byte>, p: nat): (v: int)
    requires p + 4 <= |s|
    ensures 0 <= v < 0x1_0000_0000
  {
    s[p] as int + 0x100 * s[p + 1] as int + 0x1_0000 * s[p + 2] as int + 0x100_0000 * s[p + 3] as int
  }

  function Unsigned64At(s: seq<Byte>, p: nat): UInt64
    requires p + 8 <= |s|
  {
    Unsigned32At(s, p) + 0x1_0000_0000 * Unsigned32At(s, p + 4)
  }

  // Conversion of a 32-bit pattern to int.
  function ToInt32(v: int): (r: Int32)
    ensures (r - v) % 0x1_0000_0000 == 0
  {
    var u := v % 0x1_0000_0000;
    if u < 0x8000_0000 then u else u - 0x1_0000_0000
  }

  // Conversion of a 64-bit pattern to int64_t.
  function ToInt64(v: int): (r: Int64)
    ensures (r - v) % 0x1_0000_0000_0000_0000 == 0
  {
    var u := v % 0x1_0000_0000_0000_0000;
    if u < 0x8000_0000_0000_0000 then u else u - 0x1_0000_0000_0000_0000
  }

  function Int32At(s: seq<Byte>, p: nat): Int32
    requires p + 4 <= |s|
  {
    ToInt32(Unsigned32At(s, p))
  }

  function Int64At(s: seq<Byte>, p: nat): Int64
    requires p + 8 <= |s|
  {
    ToInt64(Unsigned64At(s, p))
  }

  // Shifting right twice is shifting right once by the sum.
  lemma ShiftTwice(v: int)
    ensures v / 0x100 / 0x100 == v / 0x1_0000
    ensures v / 0x1_0000 / 0x100 == v / 0x100_0000
    ensures v / 0x100_0000 / 0x100 == v / 0x1_0000_0000
  {
  }

  lemma Unsigned32OfLe32(s: seq<Byte>, p: nat, v: int)
    requires At(s, p, Le32(v))
    ensures Unsigned32At(s, p) == v % 0x1_0000_0000
  {
    var a, b, c, d := v / 0x100, v / 0x1_0000, v / 0x100_0000, v / 0x1_0000_0000;
    ShiftTwice(v);
    var w := s[p..p + 4];
    assert s[p] == w[0] == v - 0x100 * a;
    assert s[p + 1] == w[1] == a - 0x100 * b;
    assert s[p + 2] == w[2] == b - 0x100 * c;
    assert s[p + 3] == w[3] == c - 0x100 * d;
  }

  // A 32-bit store followed by a load yields the value truncated to an int.
  lemma Int32OfLe32(s: seq<Byte>, p: nat, v: int)
    requires At(s, p, Le32(v))
    ensures Int32At(s, p) == ToInt32(v)
  {
    Unsigned32OfLe32(s, p, v);
  }

  // A 64-bit pattern is its low half plus 2^32 times its high half.
  lemma SplitMod64(v: int)
    ensures v % 0x1_0000_0000_0000_0000
         == v % 0x1_0000_0000 + 0x1_0000_0000 * (v / 0x1_0000_0000 % 0x1_0000_0000)
  {
  }

  lemma Unsigned64OfLe64(s: seq<Byte>, p: nat, v: int)
    requires At(s, p, Le64(v))
    ensures Unsigned64At(s, p) == v % 0x1_0000_0000_0000_0000
  {
    AtConcat(s, p, Le32(v), Le32(v / 0x1_0000_0000));
    Unsigned32OfLe32(s, p, v);
    Unsigned32OfLe32(s, p + 4, v / 0x1_0000_0000);
    SplitMod64(v);
  }

  // A 64-bit store followed by a load yields the value itself.
  lemma Int64OfLe64(s: seq<Byte>, p: nat, v: Int64)
    requires At(s, p, Le64(v))
    ensures Int64At(s, p) == v
  {
    Unsigned64OfLe64(s, p, v);
    ToInt64Mod(v, v % 0x1_0000_0000_0000_0000);
  }

  lemma ToInt64Mod(v: Int64, u: UInt64)
    requires u == v % 0x1_0000_0000_0000_0000
    ensures ToInt64(u) == v
  {
  }

  // ----- C strings -----

  predicate NulFree(s: seq<Byte>) {
    0 !in s
  }

  // strchr(s + p, '\0'): the position of the first NUL at or after p, if there is one.
  function FindNul(s: seq<Byte>, p: nat): (r: Option<nat>)
    requires p <= |s|
    ensures r.Some? ==> p <= r.value < |s| && s[r.value] == 0
    ensures r.Some? ==> forall i :: p <= i < r.value ==> s[i] != 0
    ensures r.None? ==> forall i :: p <= i < |s| ==> s[i] != 0
    decreases |s| - p
  {
    if p == |s| then None
    else if s[p] == 0 then Some(p)
    else FindNul(s, p + 1)
  }

  // The characters of s that a C string function sees: everything before the first NUL.
  function CStr(s: seq<Byte>): (r: seq<Byte>)
    ensures NulFree(r)
    ensures r <= s
    ensures NulFree(s) ==> r == s
    ensures |r| < |s| ==> s[|r|] == 0
  {
    var n := FindNul(s, 0);
    if n.Some? then s[..n.value] else s
  }

  // A NUL-free string stored with its terminator is read back up to the terminator.
  lemma FindNulAt(s: seq<Byte>, p: nat, name: seq<Byte>)
    requires At(s, p, name + [0]) && NulFree(name)
    ensures FindNul(s, p) == Some(p + |name|)
    ensures s[p..p + |name|] == name
  {
    AtConcat(s, p, name, [0]);
    assert s[p + |name|] == s[p + |name|..p + |name| + 1][0] == 0;
    assert forall i :: p <= i < p + |name| ==> s[i] == name[i - p];
  }
}
