// The BSON byte format: what the encoder writes for a document, and what the
// decoder reads back. Both are stated here as functions; the modules
// BsonWriter and BsonReader prove the imperative code against them.
module Bson {
  import opened Bytes
  import opened Document

  // Element types, section "element" of the BSON specification (bsonspec.org).
  const DOUBLE: Byte := 0x01
  const STRING: Byte := 0x02
  const OBJECT: Byte := 0x03
  const ARRAY: Byte := 0x04
  const BINARY: Byte := 0x05
  const UNDEFINED: Byte := 0x06
  const OID: Byte := 0x07
  const BOOL: Byte := 0x08
  const DATE: Byte := 0x09
  const NULL: Byte := 0x0A
  const REGEX: Byte := 0x0B
  const DBREF: Byte := 0x0C
  const CODE_D: Byte := 0x0D
  const SYMBOL: Byte := 0x0E
  const CODE: Byte := 0x0F
  const INT32: Byte := 0x10
  const TIMESTAMP: Byte := 0x11
  const INT64: Byte := 0x12
  const MINKEY: Byte := 0xFF
  const MAXKEY: Byte := 0x7F

  const MAX_SIZE := 16_000_000

  // ----- Encoding -----

  // How many entries continue the run of indexes i, i + 1, ... (the counter
  // that decides between array and object).
  function Ascending(d: Doc, i: nat): nat {
    if d.Empty? then 0
    else if d.key.IntKey? && d.key.index == i then 1 + Ascending(d.rest, i + 1)
    else Ascending(d.rest, i)
  }

  function TypeByte(v: Value): Byte {
    match v
    case Null => NULL
    case Bool(_) => BOOL
    case Long(_) => INT64
    case Double(_) => DOUBLE
    case Str(_) => STRING
    case Array(d) => if Ascending(d, 0) == Count(d) then ARRAY else OBJECT
    case Object(_) => OBJECT
    case Id(_) => OID
    case Date(_, _) => DATE
    case Regex(_, _) => REGEX
    case Code(_, _) => CODE
    case Bin(_, _) => BINARY
    case Timestamp(_, _) => TIMESTAMP
    case MinKey => MINKEY
    case MaxKey => MAXKEY
    case Int32Object(_) => INT32
    case Int64Object(_) => INT64
    case Resource => NULL
  }

  function LengthPrefixed(s: seq<Byte>): seq<Byte> {
    Le32(|s| + 1) + (s + [0])
  }

  function BinPayload(data: seq<Byte>, kind: Int64): seq<Byte> {
    if kind == 2 then Le32(|data| + 4) + ([2] + (Le32(|data|) + data))
    else Le32(|data|) + ([kind % 256] + data)
  }

  // Milliseconds since the epoch, with C's truncating division.
  function DateMillis(sec: Int64, usec: Int64): Int64 {
    ToInt64(sec * 1000 + TruncDiv(usec, 1000))
  }

  function TruncDiv(a: int, b: int): int
    requires b > 0
  {
    if a < 0 then -(-a / b) else a / b
  }

  // The payload of a value that holds no document.
  function ScalarPayload(v: Value): seq<Byte> {
    match v
    case Bool(b) => [if b then 1 else 0]
    case Long(n) => Le64(n)
    case Double(bits) => Le64(bits)
    case Str(text) => LengthPrefixed(text)
    case Id(id) => if id.Some? then id.value else []
    case Date(sec, usec) => Le64(DateMillis(sec, usec))
    case Regex(pattern, flags) => (pattern + [0]) + (flags + [0])
    case Bin(data, kind) => BinPayload(data, kind)
    case Timestamp(seconds, inc) => Le32(inc) + Le32(seconds)
    case Int32Object(n) => Le32(n)
    case Int64Object(n) => Le64(n)
    case _ => []
  }

  // A length slot and its content, when the whole is not too large.
  function Sized(content: Option<seq<Byte>>): Option<seq<Byte>> {
    if content.None? || 4 + |content.value| > MAX_SIZE then None
    else Some(Le32(4 + |content.value|) + content.value)
  }

  function EncodePayload(v: Value): Option<seq<Byte>>
    decreases v, 0
  {
    match v
    case Array(d) => EncodeDoc(d)
    case Object(d) => EncodeDoc(d)
    case Code(code, scope) => Sized(Prepend(LengthPrefixed(code), EncodeDoc(scope)))
    case Str(text) => if IsUtf8(text) then Some(ScalarPayload(v)) else None
    case _ => Some(ScalarPayload(v))
  }

  function Prepend(a: seq<Byte>, b: Option<seq<Byte>>): Option<seq<Byte>> {
    if b.None? then None else Some(a + b.value)
  }

  function Join(a: Option<seq<Byte>>, b: Option<seq<Byte>>): Option<seq<Byte>> {
    if a.None? || b.None? then None else Some(a.value + b.value)
  }

  function EncodeElement(name: seq<Byte>, v: Value): Option<seq<Byte>>
    decreases v, 1
  {
    if v.Resource? then Some([])
    else if name == [] then None
    else Prepend([TypeByte(v)] + (name + [0]), EncodePayload(v))
  }

  function EncodeElements(d: Doc): Option<seq<Byte>>
    decreases d, 1
  {
    if d.Empty? then Some([])
    else Join(EncodeElement(KeyText(d.key), d.value), EncodeElements(d.rest))
  }

  // A document: its own length in bytes, its elements, and a closing zero.
  function EncodeDoc(d: Doc): Option<seq<Byte>>
    decreases d, 2
  {
    Sized(Join(EncodeElements(d), Some([0])))
  }

  // "_id" as bytes.
  const ID_NAME: seq<Byte> := ['_' as int, 'i' as int, 'd' as int]
  const DOT: Byte := '.' as int

  // An element as it is written while a document is prepared for insertion:
  // "_id" has been written already, and keys may hold no dot.
  function PrepElement(name: seq<Byte>, v: Value, prep: bool): Option<seq<Byte>> {
    if prep && name == ID_NAME then Some([])
    else if prep && DOT in name && !v.Resource? then None
    else EncodeElement(name, v)
  }

  function PrepElements(d: Doc, prep: bool): Option<seq<Byte>> {
    if d.Empty? then Some([])
    else Join(PrepElement(KeyText(d.key), d.value, prep), PrepElements(d.rest, prep))
  }

  const ID: Key := StrKey(ID_NAME)

  // prep_obj_for_db: a document about to be inserted has an "_id".
  function WithId(d: Doc, newId: ObjectId): (r: Doc)
    ensures Lookup(r, ID).Some?
  {
    if Lookup(d, ID).Some? then d else Update(d, ID, Id(Some(newId)))
  }

  // The elements of a document; when it is prepared for insertion, "_id" comes first.
  function DocElements(d: Doc, prep: bool, newId: ObjectId): Option<seq<Byte>> {
    if prep && d.Entry? then
      var d' := WithId(d, newId);
      Join(EncodeElement(ID_NAME, Lookup(d', ID).value), PrepElements(d', true))
    else EncodeElements(d)
  }

  function PrepDoc(d: Doc, newId: ObjectId): Option<seq<Byte>> {
    Sized(Join(DocElements(d, true, newId), Some([0])))
  }

  lemma {:induction false} PlainElements(d: Doc)
    ensures PrepElements(d, false) == EncodeElements(d)
  {
    if d.Entry? {
      PlainElements(d.rest);
    }
  }

  // is_utf8: greedy splitting into one- to four-byte sequences by shape.
  predicate IsUtf8(s: seq<Byte>) {
    if s == [] then true
    else if Utf8Width(s) == 0 then false
    else IsUtf8(s[Utf8Width(s)..])
  }

  predicate Continuation(b: Byte) {
    0x80 <= b < 0xC0
  }

  // The width of the well-shaped sequence at the start of s, 0 if there is none.
  function Utf8Width(s: seq<Byte>): (w: nat)
    requires s != []
    ensures w <= |s|
  {
    if |s| > 3 && 0xF0 <= s[0] < 0xF8 && Continuation(s[1]) && Continuation(s[2]) && Continuation(s[3]) then 4
    else if |s| > 2 && 0xE0 <= s[0] < 0xF0 && Continuation(s[1]) && Continuation(s[2]) then 3
    else if |s| > 1 && 0xC0 <= s[0] < 0xE0 && Continuation(s[1]) then 2
    else if s[0] < 0x80 then 1
    else 0
  }

  // ----- Decoding -----

  // Malformed stands for input on which the C code would read past the end of
  // the bytes or copy a negative number of them.
  datatype Error = Malformed | BadLength | BadType

  // A parsed value and the position after it.
  datatype Parsed<+T> = Ok(value: T, next: nat) | Err(error: Error)

  predicate InvalidStringLen(len: Int32) {
    len < 0 || len > 64 * 1024 * 1024
  }

  // A 4-byte length that counts a trailing NUL, then that many bytes.
  function DecodeString(s: seq<Byte>, p: nat): (r: Parsed<seq<Byte>>)
    requires p <= |s|
    ensures r.Ok? ==> p < r.next <= |s|
  {
    if p + 4 > |s| then Err(Malformed)
    else
      var len := Int32At(s, p);
      if InvalidStringLen(len) then Err(BadLength)
      else if len == 0 || p + 4 + len > |s| then Err(Malformed)
      else Ok(s[p + 4..p + 4 + len - 1], p + 4 + len)
  }

  function DecodeBin(s: seq<Byte>, p: nat): (r: Parsed<Value>)
    requires p <= |s|
    ensures r.Ok? ==> p < r.next <= |s| && r.value.Bin? && FramedScalar(r.value)
  {
    if p + 4 > |s| then Err(Malformed)
    else
      var len := Int32At(s, p);
      if InvalidStringLen(len) then Err(BadLength)
      else if p + 5 > |s| then Err(Malformed)
      else
        var kind := s[p + 4];
        if kind != 2 then DecodeBinData(s, p + 5, len, kind)
        else if p + 9 > |s| then Err(Malformed)
        else if Int32At(s, p + 5) == len - 4 then DecodeBinData(s, p + 9, len - 4, kind)
        else DecodeBinData(s, p + 5, len, kind)
  }

  function DecodeBinData(s: seq<Byte>, p: nat, len: int, kind: Byte): (r: Parsed<Value>)
    requires p <= |s|
    ensures r.Ok? ==> p <= r.next <= |s| && r.value.Bin? && FramedScalar(r.value)
  {
    if len < 0 || p + len > |s| then Err(Malformed) else Ok(Bin(s[p..p + len], kind), p + len)
  }

  // Seconds and microseconds of a count of milliseconds, as computed in C
  // with 64-bit wrap-around.
  function DateOfMillis(d: Int64): Value {
    var usec := (TruncRem(ToInt64(d * 1000), 1_000_000) + 1_000_000) % 1_000_000;
    Date(TruncDiv(d, 1000) - (if d < 0 && usec != 0 then 1 else 0), usec)
  }

  function TruncRem(a: int, b: int): (r: int)
    requires b > 0
    ensures -b < r < b
  {
    if a < 0 then -(-a % b) else a % b
  }

  function DecodeRegex(s: seq<Byte>, p: nat): (r: Parsed<Value>)
    requires p <= |s|
    ensures r.Ok? ==> p <= r.next <= |s| && r.value.Regex? && FramedScalar(r.value)
  {
    var a := FindNul(s, p);
    if a.None? then Err(Malformed)
    else
      var b := FindNul(s, a.value + 1);
      if b.None? then Err(Malformed)
      else Ok(Regex(s[p..a.value], s[a.value + 1..b.value]), b.value + 1)
  }

  // "$ref" and "$id", the keys of a converted database reference.
  const REF_KEY: Key := StrKey(['$' as int, 'r' as int, 'e' as int, 'f' as int])
  const ID_KEY: Key := StrKey(['$' as int, 'i' as int, 'd' as int])

  function DecodeDbRef(s: seq<Byte>, p: nat): (r: Parsed<Value>)
    requires p <= |s|
    ensures r.Ok? ==> p <= r.next <= |s|
  {
    var ns := DecodeString(s, p);
    if ns.Err? then Err(ns.error)
    else if ns.next + 12 > |s| then Err(Malformed)
    else
      Ok(Array(Entry(REF_KEY, Str(ns.value),
               Entry(ID_KEY, Id(Some(s[ns.next..ns.next + 12])), Empty))), ns.next + 12)
  }

  function DecodeText(s: seq<Byte>, p: nat): (r: Parsed<Value>)
    requires p <= |s|
    ensures r.Ok? ==> p <= r.next <= |s| && r.value.Str?
  {
    var t := DecodeString(s, p);
    if t.Err? then Err(t.error) else Ok(Str(t.value), t.next)
  }

  function DecodeWord(tag: Byte, s: seq<Byte>, p: nat): (r: Parsed<Value>)
    requires p <= |s|
    ensures r.Ok? ==> p <= r.next <= |s| && (r.value.Double? || r.value.Date? || r.value.Timestamp? || r.value.Long?)
  {
    if p + 8 > |s| then Err(Malformed)
    else if tag == DOUBLE then Ok(Double(Unsigned64At(s, p)), p + 8)
    else if tag == DATE then Ok(DateOfMillis(Int64At(s, p)), p + 8)
    else if tag == TIMESTAMP then Ok(Timestamp(Int32At(s, p + 4), Int32At(s, p)), p + 8)
    else Ok(Long(Int64At(s, p)), p + 8)
  }

  // The value of an element that holds no document.
  function DecodeScalar(tag: Byte, s: seq<Byte>, p: nat): (r: Parsed<Value>)
    requires p <= |s|
    ensures r.Ok? ==> p <= r.next <= |s|
  {
    if tag == OID then
      if p + 12 > |s| then Err(Malformed) else Ok(Id(Some(s[p..p + 12])), p + 12)
    else if tag == DOUBLE || tag == INT64 || tag == DATE || tag == TIMESTAMP then DecodeWord(tag, s, p)
    else if tag == STRING || tag == SYMBOL then DecodeText(s, p)
    else if tag == BINARY then DecodeBin(s, p)
    else if tag == BOOL then
      if p + 1 > |s| then Err(Malformed) else Ok(Bool(s[p] != 0), p + 1)
    else if tag == UNDEFINED || tag == NULL then Ok(Null, p)
    else if tag == INT32 then
      if p + 4 > |s| then Err(Malformed) else Ok(Long(Int32At(s, p)), p + 4)
    else if tag == REGEX then DecodeRegex(s, p)
    else if tag == DBREF then DecodeDbRef(s, p)
    else if tag == CODE_D then
      var code := DecodeString(s, p);
      if code.Err? then Err(code.error) else Ok(Code(code.value, Empty), code.next)
    else if tag == MINKEY then Ok(MinKey, p)
    else if tag == MAXKEY then Ok(MaxKey, p)
    else Err(BadType)
  }

  function DecodeValue(tag: Byte, s: seq<Byte>, p: nat): (r: Parsed<Value>)
    requires p <= |s|
    ensures r.Ok? ==> p <= r.next <= |s|
    decreases |s| - p, 1
  {
    if tag == OBJECT || tag == ARRAY then
      var d := DecodeDoc(s, p);
      if d.Err? then Err(d.error) else Ok(Array(d.value), d.next)
    else if tag == CODE then
      if p + 4 > |s| then Err(Malformed)
      else
        var code := DecodeString(s, p + 4);
        if code.Err? then Err(code.error)
        else
          var scope := DecodeDoc(s, code.next);
          if scope.Err? then Err(scope.error) else Ok(Code(code.value, scope.value), scope.next)
    else DecodeScalar(tag, s, p)
  }

  // The elements from p up to the closing zero, added to the table acc.
  function DecodeElements(s: seq<Byte>, p: nat, acc: Doc): (r: Parsed<Doc>)
    requires p <= |s|
    ensures r.Ok? ==> p < r.next <= |s|
    decreases |s| - p
  {
    if p == |s| then Err(Malformed)
    else if s[p] == 0 then Ok(acc, p + 1)
    else
      var nul := FindNul(s, p + 1);
      if nul.None? then Err(Malformed)
      else
        var v := DecodeValue(s[p], s, nul.value + 1);
        if v.Err? then Err(v.error)
        else DecodeElements(s, v.next, Update(acc, SymKey(s[p + 1..nul.value]), v.value))
  }

  // bson_to_zval: the length prefix is skipped, not used.
  function DecodeDoc(s: seq<Byte>, p: nat): (r: Parsed<Doc>)
    requires p <= |s|
    ensures r.Ok? ==> p < r.next <= |s|
    decreases |s| - p, 0
  {
    if p + 4 > |s| then Err(Malformed) else DecodeElements(s, p + 4, Empty)
  }

  // ----- What the format can carry -----

  // Values whose encoding the decoder reads in step: no string list with an
  // embedded NUL, no unfinished id, a binary kind that fits its byte.
  predicate FramedScalar(v: Value) {
    match v
    case Regex(pattern, flags) => NulFree(pattern) && NulFree(flags)
    case Id(id) => id.Some?
    case Bin(_, kind) => 0 <= kind < 256
    case _ => true
  }
}
