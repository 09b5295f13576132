// PHP values and the ordered hash tables that hold documents.
module Document {
  import opened Bytes
  import Decimal

  const INT64_MIN: Int64 := -0x8000_0000_0000_0000

  // A hash key: a long index, or a string of bytes.
  datatype Key = IntKey(index: Int64) | StrKey(text: seq<Byte>)

  type ObjectId = s: seq<Byte> | |s| == 12 witness [0, 0, 0, 0, 0, 0, 0, 0, 0, 0, 0, 0]

  datatype Value =
    | Null
    | Bool(b: bool)
    | Long(n: Int64)
    | Double(bits: UInt64)
    | Str(text: seq<Byte>)
    | Array(entries: Doc)
    | Object(properties: Doc)                   // an object of no driver class
    | Id(id: Option<ObjectId>)                  // MongoId, None before its constructor has run
    | Date(sec: Int64, usec: Int64)
    | Regex(pattern: seq<Byte>, flags: seq<Byte>)
    | Code(code: seq<Byte>, scope: Doc)
    | Bin(data: seq<Byte>, kind: Int64)
    | Timestamp(seconds: Int64, inc: Int64)
    | MinKey
    | MaxKey
    | Int32Object(i: Int32)
    | Int64Object(l: Int64)
    | Resource                                  // a type the encoder has no case for

  // A hash table in iteration order.
  datatype Doc = Empty | Entry(key: Key, value: Value, rest: Doc)

  function Count(d: Doc): nat {
    if d.Empty? then 0 else 1 + Count(d.rest)
  }

  predicate HasKey(d: Doc, k: Key) {
    d.Entry? && (d.key == k || HasKey(d.rest, k))
  }

  function Lookup(d: Doc, k: Key): Option<Value> {
    if d.Empty? then None
    else if d.key == k then Some(d.value)
    else Lookup(d.rest, k)
  }

  // Hash keys are unique.
  predicate Distinct(d: Doc) {
    d.Empty? || (!HasKey(d.rest, d.key) && Distinct(d.rest))
  }

  // zend_hash_update: replace in place, or append at the end.
  function Update(d: Doc, k: Key, v: Value): (r: Doc)
    ensures Lookup(r, k) == Some(v)
    ensures forall k' :: HasKey(r, k') <==> HasKey(d, k') || k' == k
    ensures Distinct(d) ==> Distinct(r)
  {
    if d.Empty? then Entry(k, v, Empty)
    else if d.key == k then Entry(k, v, d.rest)
    else Entry(d.key, d.value, Update(d.rest, k, v))
  }

  function Concat(a: Doc, b: Doc): Doc {
    if a.Empty? then b else Entry(a.key, a.value, Concat(a.rest, b))
  }

  lemma {:induction false} ConcatEmpty(a: Doc)
    ensures Concat(a, Empty) == a
  {
    if a.Entry? {
      ConcatEmpty(a.rest);
    }
  }

  // Updating with a new key appends.
  lemma {:induction false} UpdateAppends(d: Doc, k: Key, v: Value)
    requires !HasKey(d, k)
    ensures Update(d, k, v) == Concat(d, Entry(k, v, Empty))
  {
    if d.Entry? {
      UpdateAppends(d.rest, k, v);
    }
  }

  // Updating with an old key replaces its value where it stands.
  lemma {:induction false} UpdateReplaces(before: Doc, k: Key, was: Value, after: Doc, v: Value)
    requires !HasKey(before, k)
    ensures Update(Concat(before, Entry(k, was, after)), k, v) == Concat(before, Entry(k, v, after))
  {
    if before.Entry? {
      UpdateReplaces(before.rest, k, was, after, v);
    }
  }

  lemma {:induction false} ConcatAssoc(a: Doc, b: Doc, c: Doc)
    ensures Concat(Concat(a, b), c) == Concat(a, Concat(b, c))
  {
    if a.Entry? {
      ConcatAssoc(a.rest, b, c);
    }
  }

  // ----- Keys as text -----

  function DigitBytes(ds: seq<Decimal.Digit>): (s: seq<Byte>)
    ensures |s| == |ds|
  {
    seq(|ds|, i requires 0 <= i < |ds| => '0' as int + ds[i])
  }

  // The decimal text of a natural number.
  function NatText(n: nat): (s: seq<Byte>)
    ensures |s| >= 1
  {
    DigitBytes(Decimal.Digits(n))
  }

  // The decimal text of a number.
  function DecimalText(n: int): (s: seq<Byte>)
    ensures |s| >= 1
  {
    if n < 0 then ['-' as int] + NatText(-n) else NatText(n)
  }

  predicate AllDigits(s: seq<Byte>) {
    forall i :: 0 <= i < |s| ==> '0' as int <= s[i] <= '9' as int
  }

  function DigitsOf(s: seq<Byte>): (ds: seq<Decimal.Digit>)
    requires AllDigits(s)
    ensures |ds| == |s|
  {
    seq(|s|, i requires 0 <= i < |s| => s[i] as int - '0' as int)
  }

  // The number that a text of digits with an optional minus sign denotes.
  function NumberOf(s: seq<Byte>): Option<int> {
    if s == [] then None
    else if AllDigits(s) then Some(Decimal.Value(DigitsOf(s)))
    else if s[0] == '-' as int && |s| > 1 && AllDigits(s[1..]) then Some(-(Decimal.Value(DigitsOf(s[1..])) as int))
    else None
  }

  // zend_symtable_update's choice of key: the canonical decimal text of a long
  // becomes an index, every other text stays a string.
  function SymKey(s: seq<Byte>): Key {
    var n := NumberOf(s);
    if n.Some? && INT64_MIN <= n.value < 0x8000_0000_0000_0000 && DecimalText(n.value) == s
    then IntKey(n.value) else StrKey(s)
  }

  lemma DigitBytesAreDigits(ds: seq<Decimal.Digit>)
    ensures AllDigits(DigitBytes(ds)) && DigitsOf(DigitBytes(ds)) == ds
  {
  }

  lemma NumberOfDecimalText(n: int)
    ensures NumberOf(DecimalText(n)) == Some(n)
  {
    hide Decimal.Digits, Decimal.Value, DigitBytes, DigitsOf;
    var m := if n < 0 then -n else n;
    Decimal.ValueOfDigits(m);
    DigitBytesAreDigits(Decimal.Digits(m));
    if n < 0 {
      assert DecimalText(n)[1..] == DigitBytes(Decimal.Digits(m));
      assert DecimalText(n)[0] == '-' as int;
    }
  }

  lemma SymKeyOfDecimalText(n: Int64)
    ensures SymKey(DecimalText(n)) == IntKey(n)
  {
    NumberOfDecimalText(n);
  }

  // The text the encoder prints for a key. The index INT64_MIN cannot be
  // negated: the digit loop runs once on a negative number.
  function KeyText(k: Key): (s: seq<Byte>)
    ensures NulFree(s)
  {
    match k
    case IntKey(n) =>
      if n == INT64_MIN then ['-' as int, '(' as int] else DecimalText(n)
    case StrKey(text) => CStr(text)
  }

  // A key that survives being printed and read back.
  predicate StorableKey(k: Key) {
    match k
    case IntKey(n) => n != INT64_MIN
    case StrKey(text) => NulFree(text) && SymKey(text).StrKey?
  }

  // Printing a key and reading it back through the symbol table gives the same
  // key exactly when the key is storable.
  lemma KeyRoundTrip(k: Key)
    ensures SymKey(KeyText(k)) == k <==> StorableKey(k)
  {
    match k
    case IntKey(n) =>
      if n == INT64_MIN {
        MinIndexIsNotANumber();
      } else {
        SymKeyOfDecimalText(n);
      }
    case StrKey(text) =>
  }

  lemma MinIndexIsNotANumber()
    ensures SymKey(['-' as int, '(' as int]).StrKey?
  {
    var s: seq<Byte> := ['-' as int, '(' as int];
    assert !AllDigits(s) by { assert s[0] == '-' as int; }
    assert !AllDigits(s[1..]) by { assert s[1..][0] == '(' as int; }
  }
}
