// The bytes of a document in the terms of the BSON specification (bsonspec.org):
// the number that tells each type, where each field of a value stands, and what
// the types mean that are only read.
module BsonFormat {
  import opened Bytes
  import opened Document
  import opened Bson
  import opened BsonRoundTrip

  // ----- Elements -----

  // The type of an element tells the type of the value. The deprecated types 0x06,
  // 0x0C, 0x0D and 0x0E are never written.
  predicate TypeTells(tag: Byte, v: Value) {
    && (tag == 0x01 <==> v.Double?)
    && (tag == 0x02 <==> v.Str?)
    && (tag == 0x03 <==> v.Object? || (v.Array? && !IsList(v.entries, 0)))
    && (tag == 0x04 <==> v.Array? && IsList(v.entries, 0))
    && (tag == 0x05 <==> v.Bin?)
    && (tag == 0x07 <==> v.Id?)
    && (tag == 0x08 <==> v.Bool?)
    && (tag == 0x09 <==> v.Date?)
    && (tag == 0x0A <==> v.Null?)
    && (tag == 0x0B <==> v.Regex?)
    && (tag == 0x0F <==> v.Code?)
    && (tag == 0x10 <==> v.Int32Object?)
    && (tag == 0x11 <==> v.Timestamp?)
    && (tag == 0x12 <==> v.Long? || v.Int64Object?)
    && (tag == 0xFF <==> v.MinKey?)
    && (tag == 0x7F <==> v.MaxKey?)
    && tag != 0x06 && tag != 0x0C && tag != 0x0D && tag != 0x0E
  }

  lemma TypeByteTells(v: Value)
    requires !v.Resource?
    ensures TypeTells(TypeByte(v), v)
  {
    if v.Array? {
      ArrayTypeIff(v.entries);
    }
    hide Ascending, Count, IsList;
  }

  // An element is its type, its name with a NUL, and its payload. Only an empty
  // name or a value that cannot be encoded stops it.
  lemma ElementIs(name: seq<Byte>, v: Value)
    requires !v.Resource?
    ensures EncodeElement(name, v).Some? <==> name != [] && EncodePayload(v).Some?
    ensures EncodeElement(name, v).Some? ==>
              var e := EncodeElement(name, v).value;
              && |e| >= |name| + 2
              && TypeTells(e[0], v) && e[1..|name| + 1] == name && e[|name| + 1] == 0
              && e[|name| + 2..] == EncodePayload(v).value
  {
    hide EncodePayload, TypeByte, TypeTells;
    TypeByteTells(v);
  }

  // A value of no type that BSON has leaves no trace.
  lemma UnknownIsSkipped(k: Key, rest: Doc)
    ensures EncodeElements(Entry(k, Resource, rest)) == EncodeElements(rest)
  {
    hide KeyText;
    if EncodeElements(rest).Some? {
      assert [] + EncodeElements(rest).value == EncodeElements(rest).value;
    }
  }

  // A name ends at the first NUL of its key.
  lemma NameIs(k: Key)
    ensures k.StrKey? ==> KeyText(k) <= k.text && NulFree(KeyText(k))
    ensures k.StrKey? && |KeyText(k)| < |k.text| ==> k.text[|KeyText(k)|] == 0
  {
  }

  lemma IndexName()
    ensures KeyText(IntKey(-120)) == ['-' as int, '1' as int, '2' as int, '0' as int]
  {
    assert Decimal.Digits(12) == [1, 2];
    assert Decimal.Digits(120) == [1, 2, 0];
  }

  // A name is read as an index exactly when it is the decimal text of a long.
  lemma SymKeyIff(s: seq<Byte>, n: Int64)
    ensures SymKey(s) == IntKey(n) <==> s == DecimalText(n)
    ensures SymKey(s).StrKey? ==> SymKey(s).text == s
  {
    hide DecimalText, NumberOf;
    SymKeyOfDecimalText(n);
  }

  // ----- Documents -----

  // A document counts all its bytes in front and ends with a zero. It can be
  // encoded exactly when its elements can and it has at most 16,000,000 bytes.
  lemma DocIs(d: Doc)
    ensures EncodeDoc(d).Some? <==> EncodeElements(d).Some? && |EncodeElements(d).value| + 5 <= 16_000_000
    ensures EncodeDoc(d).Some? ==>
              var e := EncodeDoc(d).value;
              && |e| == |EncodeElements(d).value| + 5
              && Int32At(e, 0) == |e| && e[4..|e| - 1] == EncodeElements(d).value && e[|e| - 1] == 0
  {
    if EncodeDoc(d).Some? {
      var e := EncodeDoc(d).value;
      SizedIs(e, EncodeElements(d).value + [0]);
    }
    hide EncodeElements;
  }

  lemma SizedIs(e: seq<Byte>, content: seq<Byte>)
    requires Sized(Some(content)) == Some(e)
    ensures Int32At(e, 0) == |e| == 4 + |content| && e[4..] == content
  {
    hide Le32, Int32At;
    AtConcat(e, 0, Le32(|e|), content);
    assert e[0..|e|] == e;
    Int32RoundTrip(|e|, e, 0);
  }

  // ----- Values -----

  // Where the fields of a value stand in its payload.
  predicate PayloadTells(e: seq<Byte>, v: Value) {
    match v
    case Bool(b) => e == [if b then 1 else 0]
    case Long(n) => |e| == 8 && Int64At(e, 0) == n
    case Int64Object(n) => |e| == 8 && Int64At(e, 0) == n
    case Int32Object(n) => |e| == 4 && Int32At(e, 0) == n
    case Double(bits) => |e| == 8 && Unsigned64At(e, 0) == bits
    case Str(text) => |e| == 5 + |text| && Int32At(e, 0) == |text| + 1 && e[4..] == text + [0]
    case Array(d) => Some(e) == EncodeDoc(d)
    case Object(d) => Some(e) == EncodeDoc(d)
    case Id(id) => e == if id.Some? then id.value else []
    case Date(sec, usec) =>
      var millis: int := sec * 1000 + if usec >= 0 then usec / 1000 else -(-(usec as int) / 1000);
      |e| == 8 && (FitsLong(millis) ==> Int64At(e, 0) == millis)
    case Regex(pattern, flags) => e == pattern + [0] + flags + [0]
    case Code(code, scope) =>
      && |e| >= 9 + |code| && Int32At(e, 0) == |e| && Int32At(e, 4) == |code| + 1
      && e[8..9 + |code|] == code + [0] && EncodeDoc(scope) == Some(e[9 + |code|..])
    case Bin(data, kind) =>
      if kind == 2 then
        |e| == 9 + |data| && Int32At(e, 0) == |data| + 4 && e[4] == 2 && Int32At(e, 5) == |data| && e[9..] == data
      else |e| == 5 + |data| && Int32At(e, 0) == |data| && e[4] == kind % 256 && e[5..] == data
    case Timestamp(seconds, inc) =>
      |e| == 8 && Int32At(e, 0) == ToInt32(inc) && Int32At(e, 4) == ToInt32(seconds)
    case _ => e == []
  }

  predicate FitsLong(n: int) {
    -0x8000_0000_0000_0000 <= n < 0x8000_0000_0000_0000
  }

  // A value is encoded unless it is a string that is not UTF-8, or holds a
  // document that is not encoded or makes it too large.
  lemma PayloadIsSomeIff(v: Value)
    ensures EncodePayload(v).Some? <==>
            && (v.Str? ==> IsUtf8(v.text))
            && (v.Array? ==> EncodeDoc(v.entries).Some?)
            && (v.Object? ==> EncodeDoc(v.properties).Some?)
            && (v.Code? ==> EncodeDoc(v.scope).Some? && 9 + |v.code| + |EncodeDoc(v.scope).value| <= 16_000_000)
  {
    hide EncodeDoc, IsUtf8;
  }

  lemma PayloadIs(v: Value)
    requires EncodePayload(v).Some? && |EncodePayload(v).value| <= MAX_SIZE
    ensures PayloadTells(EncodePayload(v).value, v)
  {
    hide EncodeDoc, IsUtf8, ScalarPayload, PayloadTells;
    if v.Code? {
      CodeIs(v.code, v.scope);
    } else if v.Array? || v.Object? {
      HoldsDoc(v);
    } else {
      ScalarIs(v);
    }
  }

  lemma HoldsDoc(v: Value)
    requires v.Array? || v.Object?
    requires EncodePayload(v).Some?
    ensures PayloadTells(EncodePayload(v).value, v)
  {
    hide EncodeDoc;
  }

  lemma CodeIs(code: seq<Byte>, scope: Doc)
    requires EncodePayload(Code(code, scope)).Some?
    ensures PayloadTells(EncodePayload(Code(code, scope)).value, Code(code, scope))
  {
    var body := LengthPrefixed(code) + EncodeDoc(scope).value;
    SizedIs(EncodePayload(Code(code, scope)).value, body);
    var e := EncodePayload(Code(code, scope)).value;
    hide EncodeDoc, Le32, Int32At;
    assert e[4..][..5 + |code|] == LengthPrefixed(code);
    assert At(e, 4, Le32(|code| + 1));
    Int32RoundTrip(|code| + 1, e, 4);
  }

  lemma ScalarIs(v: Value)
    requires !v.Array? && !v.Object? && !v.Code? && |ScalarPayload(v)| <= MAX_SIZE
    ensures PayloadTells(ScalarPayload(v), v)
  {
    hide Le32, Le64, Int32At, Int64At, Unsigned64At, DateMillis, BinPayload;
    var e := ScalarPayload(v);
    match v
    case Long(n) => Int64OfLe64(e, 0, n);
    case Int64Object(n) => Int64OfLe64(e, 0, n);
    case Int32Object(n) => Int32RoundTrip(n, e, 0);
    case Double(bits) => Unsigned64OfLe64(e, 0, bits);
    case Str(text) => Int32RoundTrip(|text| + 1, e, 0);
    case Date(sec, usec) =>
      Int64OfLe64(e, 0, DateMillis(sec, usec));
      MillisAre(sec, usec);
    case Bin(data, kind) => BinIs(data, kind);
    case Timestamp(seconds, inc) =>
      Int32OfLe32(e, 0, inc);
      Int32OfLe32(e, 4, seconds);
    case _ =>
  }

  lemma MillisAre(sec: Int64, usec: Int64)
    ensures var millis: int := sec * 1000 + if usec >= 0 then usec / 1000 else -(-(usec as int) / 1000);
            FitsLong(millis) ==> DateMillis(sec, usec) == millis
  {
  }

  lemma BinIs(data: seq<Byte>, kind: Int64)
    requires |BinPayload(data, kind)| <= MAX_SIZE
    ensures PayloadTells(BinPayload(data, kind), Bin(data, kind))
  {
    hide Le32, Int32At;
    var e := BinPayload(data, kind);
    if kind == 2 {
      Int32RoundTrip(|data| + 4, e, 0);
      Int32RoundTrip(|data|, e, 5);
    } else {
      Int32RoundTrip(|data|, e, 0);
    }
  }

  // A long stands with its low byte first.
  lemma LowByteFirst(v: int)
    ensures Le64(v) == [v % 0x100, v / 0x100 % 0x100, v / 0x1_0000 % 0x100, v / 0x100_0000 % 0x100,
                        v / 0x1_0000_0000 % 0x100, v / 0x100_0000_0000 % 0x100, v / 0x1_0000_0000_0000 % 0x100,
                        v / 0x100_0000_0000_0000 % 0x100]
  {
    var high := v / 0x1_0000_0000;
    assert high / 0x100 == v / 0x100_0000_0000;
    assert high / 0x1_0000 == v / 0x1_0000_0000_0000;
    assert high / 0x100_0000 == v / 0x100_0000_0000_0000;
  }

  // ----- Types that are read -----

  // The deprecated types: a symbol is read as a string, undefined as null, a
  // database reference as an array of "$ref" and "$id", and code without a scope
  // as code with an empty one.
  lemma OldTypes(text: seq<Byte>, id: ObjectId, s: seq<Byte>, p: nat)
    requires At(s, p, LengthPrefixed(text)) && |text| <= MAX_SIZE
    ensures DecodeValue(0x0E, s, p) == Ok(Str(text), p + 5 + |text|)
    ensures DecodeValue(0x0D, s, p) == Ok(Code(text, Empty), p + 5 + |text|)
    ensures DecodeValue(0x06, s, p) == Ok(Null, p)
    ensures At(s, p + 5 + |text|, id) ==>
              DecodeValue(0x0C, s, p)
              == Ok(Array(Entry(StrKey(['$' as int, 'r' as int, 'e' as int, 'f' as int]), Str(text),
                          Entry(StrKey(['$' as int, 'i' as int, 'd' as int]), Id(Some(id)), Empty))),
                    p + 17 + |text|)
  {
    hide DecodeString;
    StringRoundTrip(text, s, p);
  }

  // A 32-bit integer is read as a long, and any byte but 0 as true.
  lemma SmallTypes(s: seq<Byte>, p: nat)
    requires p + 4 <= |s|
    ensures DecodeValue(0x10, s, p) == Ok(Long(Int32At(s, p)), p + 4)
    ensures DecodeValue(0x08, s, p) == Ok(Bool(s[p] != 0), p + 1)
  {
  }

  // No other type is read.
  lemma TypesRead(tag: Byte, s: seq<Byte>, p: nat)
    requires p <= |s| && tag > 0x12 && tag != 0x7F && tag != 0xFF
    ensures DecodeValue(tag, s, p) == Err(BadType)
  {
  }

  // A string or binary data is refused for a length below zero or above 64 MB.
  lemma LengthIsChecked(s: seq<Byte>, p: nat)
    requires p + 4 <= |s|
    ensures DecodeValue(0x02, s, p) == Err(BadLength) <==> !(0 <= Int32At(s, p) <= 67_108_864)
    ensures DecodeValue(0x05, s, p) == Err(BadLength) <==> !(0 <= Int32At(s, p) <= 67_108_864)
  {
    hide Int32At;
  }
}
