// The digit loop that turns a hash index into an element name.
module KeyPrinter {
  import opened Bytes
  import opened Document
  import opened Bson
  import Decimal

  // The text of n is the text of n / 10 and a last digit.
  lemma LastDigit(n: nat)
    ensures n >= 10 ==> NatText(n) == NatText(n / 10) + ['0' as int + n % 10]
    ensures n < 10 ==> NatText(n) == ['0' as int + n]
  {
  }

  lemma TextFits(n: Int64)
    requires n >= 0
    ensures |NatText(n)| <= 19
  {
    assert Decimal.Pow10(5) == 100_000;
    assert Decimal.Pow10(10) == 10_000_000_000;
    assert Decimal.Pow10(15) == 1_000_000_000_000_000;
    assert Decimal.Pow10(19) == 10_000_000_000_000_000_000;
    Decimal.DigitCount(n, 19);
  }

  // The digits of m, written backwards from name[28]. On the smallest long,
  // which stays negative when negated, the remainder is negative and the loop
  // ends after one round.
  method PrintDigits(name: array<Byte>, m: Int64) returns (pos: int)
    requires name.Length == 30 && (m >= 0 || m == INT64_MIN)
    modifies name
    ensures 0 <= pos < 28
    ensures m >= 0 ==> name[pos + 1..29] == NatText(m)
    ensures m < 0 ==> pos == 27 && name[28] == '(' as int
  {
    hide NatText;
    pos := 28;
    var current, more := m, true;
    if m >= 0 {
      TextFits(m);
    }
    while more
      invariant m < 0 ==> if more then current == m && pos == 28 else pos == 27 && name[28] == '(' as int
      invariant m >= 0 ==> 0 <= current && -1 <= pos <= 28
      invariant m >= 0 && more ==> NatText(m) == NatText(current) + name[pos + 1..29]
      invariant m >= 0 && !more ==> NatText(m) == name[pos + 1..29]
      decreases more, if current < 0 then 0 else current
    {
      if m >= 0 {
        LastDigit(current);
      }
      ghost var written := name[pos + 1..29];
      var digit := TruncRem(current, 10) + '0' as int;
      name[pos] := digit % 256;
      assert name[pos..29] == [name[pos]] + written;
      pos := pos - 1;
      current := TruncDiv(current, 10);
      more := current > 0;
    }
  }

  // apply_func_args_wrapper: the name of an index is built backwards from its
  // last digit. Negating the smallest long overflows.
  method PrintIndex(index: Int64) returns (text: seq<Byte>)
    ensures text == KeyText(IntKey(index))
  {
    hide NatText;
    var name := new Byte[30];
    name[29] := 0;
    var current, negative := index, false;
    if current < 0 {
      current := ToInt64(0 - current as int);
      negative := true;
    }
    var pos := PrintDigits(name, current);
    ghost var digits := name[pos + 1..29];
    if negative {
      name[pos] := '-' as int;
      assert name[pos..29] == ['-' as int] + digits;
      pos := pos - 1;
    }
    text := name[pos + 1..29];
  }

  // The name of a hash entry.
  method KeyName(key: Key) returns (name: seq<Byte>)
    ensures name == KeyText(key)
  {
    match key
    case IntKey(index) => name := PrintIndex(index);
    case StrKey(text) => name := CStr(text);
  }
}
