// Hexadecimal text.
module Hex {
  import opened Bytes
  import opened Text

  function HexDigit(n: nat): (c: Byte)
    requires n < 16
    ensures c != SEMICOLON && c != SLASH
  {
    if n < 10 then '0' as int + n else 'a' as int + n - 10
  }

  function Digits(s: seq<Byte>): (r: Text)
    ensures |r| == 2 * |s|
    ensures SEMICOLON !in r && SLASH !in r
  {
    if s == [] then [] else Digits(s[..|s| - 1]) + [HexDigit(s[|s| - 1] / 16), HexDigit(s[|s| - 1] % 16)]
  }

  lemma DigitsOfByte(b: Byte)
    ensures b == 0x0f ==> Digits([b]) == Ascii("0f")
    ensures b == 0x9a ==> Digits([b]) == Ascii("9a")
  {
    assert [b][..0] == [];
  }

  // Different bytes have different texts.
  lemma {:induction false} DigitsAreInjective(s: seq<Byte>, t: seq<Byte>)
    requires Digits(s) == Digits(t)
    ensures s == t
  {
    assert |s| == |t|;
    if s != [] {
      var n := |s| - 1;
      assert Digits(s)[..2 * n] == Digits(s[..n]) && Digits(t)[..2 * n] == Digits(t[..n]);
      DigitsAreInjective(s[..n], t[..n]);
      assert Digits(s)[2 * n] == HexDigit(s[n] / 16) && Digits(t)[2 * n] == HexDigit(t[n] / 16);
      assert Digits(s)[2 * n + 1] == HexDigit(s[n] % 16) && Digits(t)[2 * n + 1] == HexDigit(t[n] % 16);
      assert s == s[..n] + [s[n]] && t == t[..n] + [t[n]];
    }
  }

  // The value of a hexadecimal digit of either case.
  function DigitValue(c: Byte): Option<nat> {
    if '0' as int <= c <= '9' as int then Some(c - '0' as int)
    else if 'a' as int <= c <= 'f' as int then Some(c - 'a' as int + 10)
    else if 'A' as int <= c <= 'F' as int then Some(c - 'A' as int + 10)
    else None
  }
}
