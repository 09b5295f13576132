// C text: searching for a character, cutting at it, and atoi.
module Text {
  import opened Bytes
  import opened Document
  import Decimal

  type Text = seq<Byte>

  function Ascii(s: string): Text {
    seq(|s|, i requires 0 <= i < |s| => (s[i] as int) % 256)
  }

  const COLON: Byte := ':' as int
  const SEMICOLON: Byte := ';' as int
  const SLASH: Byte := '/' as int
  const DASH: Byte := '-' as int
  const COMMA: Byte := ',' as int
  const AT_SIGN: Byte := '@' as int
  const QUESTION: Byte := '?' as int
  const EQUALS: Byte := '=' as int
  const AMPERSAND: Byte := '&' as int
  const DOT: Byte := '.' as int

  // strchr: the first occurrence of c in s, counted from p.
  function Find(s: Text, p: nat, c: Byte): (r: Option<nat>)
    requires p <= |s|
    ensures r.Some? ==> p <= r.value < |s| && s[r.value] == c
    decreases |s| - p
  {
    if p == |s| then None
    else if s[p] == c then Some(p)
    else Find(s, p + 1, c)
  }

  // The text before the first c and the text after it.
  function Cut(s: Text, c: Byte): (r: Option<(Text, Text)>)
    ensures r.Some? <==> c in s
    ensures r.Some? ==> |s| == |r.value.0| + 1 + |r.value.1| && c !in r.value.0
  {
    if s == [] then None
    else if s[0] == c then Some(([], s[1..]))
    else
      var r := Cut(s[1..], c);
      if r.None? then None else Some(([s[0]] + r.value.0, r.value.1))
  }

  lemma {:induction false} CutAt(a: Text, c: Byte, b: Text)
    requires c !in a
    ensures Cut(a + ([c] + b), c) == Some((a, b))
  {
    var s := a + ([c] + b);
    if a == [] {
      assert s == [c] + b;
    } else {
      assert s[1..] == a[1..] + ([c] + b);
      CutAt(a[1..], c, b);
      assert [a[0]] + a[1..] == a;
    }
  }

  // What follows the first c does not matter for where it is.
  lemma {:induction false} CutInside(a: Text, c: Byte, t: Text)
    requires c in a
    ensures Cut(a + t, c) == Some((Cut(a, c).value.0, Cut(a, c).value.1 + t))
  {
    if a[0] == c {
      assert (a + t)[1..] == a[1..] + t;
    } else {
      assert (a + t)[1..] == a[1..] + t;
      CutInside(a[1..], c, t);
    }
  }

  // strchr finds where Cut cuts.
  lemma {:induction false} FindIsCut(s: Text, p: nat, c: Byte)
    requires p <= |s|
    ensures var r := Find(s, p, c);
            Cut(s[p..], c) == if r.None? then None else Some((s[p..r.value], s[r.value + 1..]))
    decreases |s| - p
  {
    hide Cut, Find;
    if p == |s| {
      FindNothing(s, c);
      assert s[p..] == [];
    } else {
      CutOne(s[p], s[p + 1..], c);
      FindOne(s, p, c);
      assert s[p..] == [s[p]] + s[p + 1..];
      if s[p] != c {
        FindIsCut(s, p + 1, c);
        SliceOne(s, p, Find(s, p + 1, c));
      } else {
        assert s[p..p] == [];
      }
    }
  }

  lemma FindNothing(s: Text, c: Byte)
    ensures Find(s, |s|, c) == None && Cut([], c) == None
  {
  }

  lemma FindOne(s: Text, p: nat, c: Byte)
    requires p < |s|
    ensures Find(s, p, c) == if s[p] == c then Some(p) else Find(s, p + 1, c)
  {
  }

  lemma SliceOne(s: Text, p: nat, r: Option<nat>)
    requires p < |s| && (r.Some? ==> p < r.value <= |s|)
    ensures r.Some? ==> [s[p]] + s[p + 1..r.value] == s[p..r.value]
  {
  }

  lemma CutOne(x: Byte, t: Text, c: Byte)
    ensures Cut([x] + t, c)
         == if x == c then Some(([], t))
            else if Cut(t, c).None? then None
            else Some(([x] + Cut(t, c).value.0, Cut(t, c).value.1))
  {
    assert ([x] + t)[1..] == t;
  }

  // The text before the last c and the text after it: strrchr.
  function CutLast(s: Text, c: Byte): (r: Option<(Text, Text)>)
    ensures r.Some? <==> c in s
    ensures r.Some? ==> |s| == |r.value.0| + 1 + |r.value.1| && c !in r.value.1
  {
    if s == [] then None
    else
      var r := CutLast(s[1..], c);
      if r.Some? then Some(([s[0]] + r.value.0, r.value.1))
      else if s[0] == c then Some(([], s[1..]))
      else None
  }

  lemma {:induction false} CutLastAt(a: Text, c: Byte, b: Text)
    requires c !in b
    ensures CutLast(a + ([c] + b), c) == Some((a, b))
  {
    if a == [] {
      assert a + ([c] + b) == [c] + b;
      assert ([c] + b)[1..] == b;
    } else {
      assert (a + ([c] + b))[1..] == a[1..] + ([c] + b);
      CutLastAt(a[1..], c, b);
      assert [a[0]] + a[1..] == a;
    }
  }

  lemma {:induction false} CutLastParts(s: Text, c: Byte)
    requires c in s
    ensures s == CutLast(s, c).value.0 + ([c] + CutLast(s, c).value.1)
  {
    if CutLast(s[1..], c).Some? {
      CutLastParts(s[1..], c);
    }
  }

  // mcon_strndup(s + start, end - start): a negative length is a huge size, and
  // the copy runs to the end of the text.
  function Slice(s: Text, start: nat, end: nat): Text
    requires start <= |s| && end <= |s|
  {
    if start <= end then s[start..end] else s[start..]
  }

  // ----- Numbers -----

  predicate IsDigit(c: Byte) {
    '0' as int <= c <= '9' as int
  }

  predicate IsSpace(c: Byte) {
    c == ' ' as int || 9 <= c <= 13
  }

  function LeadingDigits(s: Text): (d: Text)
    ensures AllDigits(d)
  {
    if s == [] || !IsDigit(s[0]) then [] else [s[0]] + LeadingDigits(s[1..])
  }

  function Magnitude(s: Text): nat {
    Decimal.Value(DigitsOf(LeadingDigits(s)))
  }

  function Trimmed(s: Text): Text {
    if s != [] && IsSpace(s[0]) then Trimmed(s[1..]) else s
  }

  function Atoi(s: Text): Int32 {
    var t := Trimmed(s);
    if t != [] && t[0] == DASH then ToInt32(0 - Magnitude(t[1..]))
    else if t != [] && t[0] == '+' as int then ToInt32(Magnitude(t[1..]))
    else ToInt32(Magnitude(t))
  }

  lemma {:induction false} LeadingDigitsOf(d: Text, rest: Text)
    requires AllDigits(d) && (rest == [] || !IsDigit(rest[0]))
    ensures LeadingDigits(d + rest) == d
  {
    if d == [] {
      assert d + rest == rest;
    } else {
      assert (d + rest)[1..] == d[1..] + rest;
      LeadingDigitsOf(d[1..], rest);
    }
  }

  lemma MagnitudeOfNat(n: nat, rest: Text)
    requires rest == [] || !IsDigit(rest[0])
    ensures Magnitude(NatText(n) + rest) == n
  {
    hide Decimal.Digits, Decimal.Value, DigitBytes, DigitsOf;
    Decimal.ValueOfDigits(n);
    DigitBytesAreDigits(Decimal.Digits(n));
    LeadingDigitsOf(NatText(n), rest);
  }

  // atoi reads back what %d printed, whatever text follows it.
  lemma AtoiOfDecimal(n: Int32, rest: Text)
    requires rest == [] || !IsDigit(rest[0])
    ensures Atoi(DecimalText(n) + rest) == n
  {
    hide Magnitude, NatText, Atoi;
    if n < 0 {
      var m: nat := 0 - n as int;
      MagnitudeOfNat(m, rest);
      AtoiSigned(NatText(m) + rest);
      assert DecimalText(n) + rest == [DASH] + (NatText(m) + rest);
    } else {
      MagnitudeOfNat(n, rest);
      NatTextStart(n);
      AtoiUnsigned(NatText(n) + rest);
    }
  }

  lemma AtoiOfText(n: Int32)
    ensures Atoi(DecimalText(n)) == n
  {
    AtoiOfDecimal(n, []);
    assert DecimalText(n) + [] == DecimalText(n);
  }

  // A number that is too large wraps around.
  lemma AtoiWraps(n: nat)
    ensures Atoi(NatText(n)) == ToInt32(n)
  {
    hide Magnitude, NatText, Atoi;
    MagnitudeOfNat(n, []);
    assert NatText(n) + [] == NatText(n);
    NatTextStart(n);
    AtoiUnsigned(NatText(n));
  }

  lemma AtoiSigned(s: Text)
    ensures Atoi([DASH] + s) == ToInt32(0 - Magnitude(s))
  {
    hide Magnitude;
    assert ([DASH] + s)[1..] == s;
  }

  lemma AtoiUnsigned(s: Text)
    requires s != [] && IsDigit(s[0])
    ensures Atoi(s) == ToInt32(Magnitude(s))
  {
    hide Magnitude;
  }

  lemma NatTextStart(n: nat)
    ensures IsDigit(NatText(n)[0])
  {
  }

  // Decimal text holds digits and a sign only.
  lemma DecimalCharacters(n: int, c: Byte)
    requires !IsDigit(c) && c != DASH
    ensures c !in DecimalText(n)
  {
    var m := if n < 0 then -n else n;
    DigitBytesAreDigits(Decimal.Digits(m));
    hide Decimal.Digits, DigitBytes, DigitsOf;
  }

  // Spaces in front and a plus sign do not matter.
  lemma AtoiSkipsSpace(s: Text, c: Byte)
    requires c == ' ' as int || c == '\t' as int || c == '\n' as int
    ensures Atoi([c] + s) == Atoi(s)
  {
    hide Magnitude;
    assert ([c] + s)[1..] == s;
  }

  lemma AtoiSkipsPlus(s: Text)
    requires s != [] && IsDigit(s[0])
    ensures Atoi(['+' as int] + s) == Atoi(s)
  {
    hide Magnitude;
    assert (['+' as int] + s)[1..] == s;
  }

  // A text that does not begin like a number is 0.
  lemma AtoiOfLetters(s: Text)
    requires s == [] || s[0] > '9' as int
    ensures Atoi(s) == 0
  {
    assert Decimal.Value([]) == 0;
    hide Decimal.Value;
  }

  // What atoi cannot read ends the number: a character that is no digit, no sign
  // and no space.
  predicate EndsNumber(s: Text) {
    s == [] || (!IsDigit(s[0]) && !IsSpace(s[0]) && s[0] != DASH && s[0] != '+' as int)
  }

  lemma {:induction false} LeadingDigitsStop(a: Text, b: Text)
    requires EndsNumber(b)
    ensures LeadingDigits(a + b) == LeadingDigits(a)
  {
    if a == [] {
      assert a + b == b;
    } else {
      assert (a + b)[1..] == a[1..] + b;
      LeadingDigitsStop(a[1..], b);
    }
  }

  lemma {:induction false} AtoiStops(a: Text, b: Text)
    requires EndsNumber(b)
    ensures Atoi(a + b) == Atoi(a)
  {
    hide Decimal.Value;
    if a == [] {
      assert a + b == b;
    } else if IsSpace(a[0]) {
      assert (a + b)[1..] == a[1..] + b;
      AtoiStops(a[1..], b);
    } else {
      assert (a + b)[1..] == a[1..] + b;
      LeadingDigitsStop(a, b);
      LeadingDigitsStop(a[1..], b);
    }
  }
}
