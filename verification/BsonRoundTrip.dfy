// Decoding undoes encoding: the exact set of documents that survive the trip,
// and what the trip does to the others that can be encoded.
module BsonRoundTrip {
  import opened Bytes
  import opened Document
  import opened Bson
  import opened Dates

  // ----- Arrays and objects -----

  // The keys of d are i, i + 1, ... in order.
  predicate IsList(d: Doc, i: nat) {
    d.Empty? || (d.key.IntKey? && d.key.index == i && IsList(d.rest, i + 1))
  }

  lemma {:induction false} AscendingBound(d: Doc, i: nat)
    ensures Ascending(d, i) <= Count(d)
    ensures Ascending(d, i) == Count(d) <==> IsList(d, i)
  {
    if d.Entry? {
      AscendingBound(d.rest, i);
      AscendingBound(d.rest, i + 1);
    }
  }

  // A nested PHP array is written as a BSON array exactly when its keys are
  // 0, 1, ..., n - 1 in this order.
  lemma ArrayTypeIff(d: Doc)
    ensures TypeByte(Array(d)) == ARRAY <==> IsList(d, 0)
    ensures TypeByte(Array(d)) == OBJECT <==> !IsList(d, 0)
  {
    AscendingBound(d, 0);
  }

  // ----- Documents the decoder keeps in step with -----

  predicate Framed(d: Doc) {
    d.Empty? || (FramedValue(d.value) && Framed(d.rest))
  }

  predicate FramedValue(v: Value) {
    match v
    case Array(d) => Framed(d)
    case Object(d) => Framed(d)
    case Code(_, scope) => Framed(scope)
    case _ => FramedScalar(v)
  }

  // ----- What comes back -----

  function Norm(v: Value): Value {
    match v
    case Array(d) => Array(NormInto(d, Empty))
    case Object(d) => Array(NormInto(d, Empty))
    case Code(code, scope) => Code(code, NormInto(scope, Empty))
    case Date(sec, usec) => DateOfMillis(DateMillis(sec, usec))
    case Timestamp(seconds, inc) => Timestamp(ToInt32(seconds), ToInt32(inc))
    case Int32Object(n) => Long(n)
    case Int64Object(n) => Long(n)
    case _ => v
  }

  // The table acc after the elements of d have been read into it.
  function NormInto(d: Doc, acc: Doc): Doc {
    if d.Empty? then acc
    else if d.value.Resource? then NormInto(d.rest, acc)
    else NormInto(d.rest, Update(acc, SymKey(KeyText(d.key)), Norm(d.value)))
  }

  // ----- Scalars -----

  lemma WordRoundTrip(v: Value, s: seq<Byte>, p: nat)
    requires v.Long? || v.Double? || v.Int64Object? || v.Date?
    requires At(s, p, ScalarPayload(v))
    ensures p + 8 <= |s| && DecodeWord(TypeByte(v), s, p) == Ok(Norm(v), p + 8)
  {
    hide ToInt64, ToInt32, DateOfMillis, DateMillis, NormInto, Le64, Unsigned64At, Int64At;
    match v
    case Long(n) => Int64OfLe64(s, p, n);
    case Int64Object(n) => Int64OfLe64(s, p, n);
    case Double(bits) => Unsigned64OfLe64(s, p, bits);
    case Date(sec, usec) => Int64OfLe64(s, p, DateMillis(sec, usec));
  }

  lemma TimestampRoundTrip(v: Value, s: seq<Byte>, p: nat)
    requires v.Timestamp? && At(s, p, ScalarPayload(v))
    ensures p + 8 <= |s| && DecodeWord(TypeByte(v), s, p) == Ok(Norm(v), p + 8)
  {
    hide ToInt32, Le32, Int32At;
    AtConcat(s, p, Le32(v.inc), Le32(v.seconds));
    Int32OfLe32(s, p, v.inc);
    Int32OfLe32(s, p + 4, v.seconds);
  }

  lemma Int32RoundTrip(n: Int32, s: seq<Byte>, p: nat)
    requires At(s, p, Le32(n))
    ensures Int32At(s, p) == n
  {
    Int32OfLe32(s, p, n);
  }

  // No length check of the decoder can fire on a string below the size cap.
  lemma StringRoundTrip(text: seq<Byte>, s: seq<Byte>, p: nat)
    requires At(s, p, LengthPrefixed(text)) && |text| <= MAX_SIZE
    ensures DecodeString(s, p) == Parsed<seq<Byte>>.Ok(text, p + 5 + |text|)
  {
    AtConcat(s, p, Le32(|text| + 1), text + [0]);
    Int32RoundTrip(|text| + 1, s, p);
    AtConcat(s, p + 4, text, [0]);
  }

  lemma BinDataRoundTrip(data: seq<Byte>, kind: Byte, s: seq<Byte>, p: nat)
    requires At(s, p, data)
    ensures DecodeBinData(s, p, |data|, kind) == Ok(Bin(data, kind), p + |data|)
  {
  }

  // Binary data of kind 2 carries its length twice; the decoder drops the copy.
  lemma OldBinRoundTrip(data: seq<Byte>, s: seq<Byte>, p: nat)
    requires At(s, p, BinPayload(data, 2)) && |data| <= MAX_SIZE
    ensures DecodeBin(s, p) == Ok(Bin(data, 2), p + |BinPayload(data, 2)|)
  {
    AtConcat(s, p, Le32(|data| + 4), [2] + (Le32(|data|) + data));
    AtConcat(s, p + 4, [2], Le32(|data|) + data);
    AtConcat(s, p + 5, Le32(|data|), data);
    Int32RoundTrip(|data| + 4, s, p);
    Int32RoundTrip(|data|, s, p + 5);
    assert s[p + 4] == s[p + 4..p + 5][0] == 2;
    BinDataRoundTrip(data, 2, s, p + 9);
  }

  lemma BinRoundTrip(data: seq<Byte>, kind: Int64, s: seq<Byte>, p: nat)
    requires At(s, p, BinPayload(data, kind)) && |data| <= MAX_SIZE && 0 <= kind < 256
    ensures DecodeBin(s, p) == Ok(Bin(data, kind), p + |BinPayload(data, kind)|)
  {
    if kind == 2 {
      OldBinRoundTrip(data, s, p);
    } else {
      AtConcat(s, p, Le32(|data|), [kind % 256] + data);
      AtConcat(s, p + 4, [kind % 256], data);
      Int32RoundTrip(|data|, s, p);
      assert s[p + 4] == s[p + 4..p + 5][0] == kind;
      BinDataRoundTrip(data, kind, s, p + 5);
    }
  }

  lemma RegexRoundTrip(v: Value, s: seq<Byte>, p: nat)
    requires v.Regex? && FramedScalar(v) && At(s, p, ScalarPayload(v))
    ensures DecodeRegex(s, p) == Ok(v, p + |ScalarPayload(v)|)
  {
    hide FindNul, NulFree, At, DecodeRegex;
    AtConcat(s, p, v.pattern + [0], v.flags + [0]);
    FindNulAt(s, p, v.pattern);
    FindNulAt(s, p + |v.pattern| + 1, v.flags);
    RegexBetween(v.pattern, v.flags, s, p);
  }

  lemma RegexBetween(pattern: seq<Byte>, flags: seq<Byte>, s: seq<Byte>, p: nat)
    requires var q := p + |pattern| + 1;
             && q + |flags| <= |s|
             && FindNul(s, p) == Some(p + |pattern|) && s[p..p + |pattern|] == pattern
             && FindNul(s, q) == Some(q + |flags|) && s[q..q + |flags|] == flags
    ensures DecodeRegex(s, p) == Ok(Regex(pattern, flags), p + |pattern| + 1 + |flags| + 1)
  {
    hide FindNul;
  }

  // Scalars of a fixed width.
  lemma FixedRoundTrip(v: Value, s: seq<Byte>, p: nat)
    requires v.Bool? || v.Int32Object? || v.Id? || v.Null? || v.MinKey? || v.MaxKey?
    requires FramedScalar(v) && At(s, p, ScalarPayload(v))
    ensures DecodeScalar(TypeByte(v), s, p) == Ok(Norm(v), p + |ScalarPayload(v)|)
  {
    hide DecodeWord, DecodeText, DecodeBin, DecodeRegex, DecodeDbRef, DecodeString, Le32, Int32At;
    match v
    case Int32Object(n) => Int32RoundTrip(n, s, p);
    case Bool(b) => assert s[p] == s[p..p + 1][0];
    case _ =>
  }

  lemma ScalarRoundTrip(v: Value, s: seq<Byte>, p: nat)
    requires !v.Array? && !v.Object? && !v.Code? && !v.Resource?
    requires FramedScalar(v) && |ScalarPayload(v)| <= MAX_SIZE
    requires At(s, p, ScalarPayload(v))
    ensures DecodeScalar(TypeByte(v), s, p) == Ok(Norm(v), p + |ScalarPayload(v)|)
  {
    hide DecodeWord, DecodeBin, DecodeRegex, DecodeDbRef, DecodeString, Le64, Le32, Int32At,
      DateOfMillis, DateMillis, Ascending;
    match v
    case Long(_) => WordRoundTrip(v, s, p);
    case Int64Object(_) => WordRoundTrip(v, s, p);
    case Double(_) => WordRoundTrip(v, s, p);
    case Date(_, _) => WordRoundTrip(v, s, p);
    case Timestamp(_, _) => TimestampRoundTrip(v, s, p);
    case Str(text) => StringRoundTrip(text, s, p);
    case Bin(data, kind) => BinRoundTrip(data, kind, s, p);
    case Regex(_, _) => RegexRoundTrip(v, s, p);
    case _ => FixedRoundTrip(v, s, p);
  }

  // ----- Documents -----

  // Code with scope: a size, the code as a string, and the scope document.
  lemma CodeLayout(code: seq<Byte>, scope: Doc, s: seq<Byte>, p: nat)
    requires var e := EncodePayload(Code(code, scope)); e.Some? && |e.value| <= MAX_SIZE && At(s, p, e.value)
    ensures EncodeDoc(scope).Some?
    ensures p + 4 <= |s| && DecodeString(s, p + 4) == Parsed<seq<Byte>>.Ok(code, p + 9 + |code|)
    ensures At(s, p + 9 + |code|, EncodeDoc(scope).value)
    ensures |EncodePayload(Code(code, scope)).value| == 9 + |code| + |EncodeDoc(scope).value|
  {
    hide EncodeDoc, DecodeString, Le32;
    var e := EncodePayload(Code(code, scope)).value;
    var body := EncodeDoc(scope).value;
    AtConcat(s, p, Le32(|e|), LengthPrefixed(code) + body);
    AtConcat(s, p + 4, LengthPrefixed(code), body);
    StringRoundTrip(code, s, p + 4);
  }

  // Whatever bytes stand after the encoding, decoding it yields the normal form
  // of the document and stops at its end.
  lemma {:induction false} ValueDecodes(v: Value, s: seq<Byte>, p: nat)
    requires FramedValue(v) && !v.Resource?
    requires var e := EncodePayload(v); e.Some? && |e.value| <= MAX_SIZE && At(s, p, e.value)
    ensures DecodeValue(TypeByte(v), s, p) == Ok(Norm(v), p + |EncodePayload(v).value|)
    decreases v, 0
  {
    hide DecodeElements, EncodeElements, NormInto, Framed, ScalarPayload, DecodeScalar, DecodeString, FramedScalar,
      DateOfMillis, DateMillis, Ascending, ToInt32, IsUtf8;
    match v
    case Array(d) => DocDecodes(d, s, p);
    case Object(d) => DocDecodes(d, s, p);
    case Code(code, scope) =>
      CodeLayout(code, scope, s, p);
      DocDecodes(scope, s, p + 9 + |code|);
    case _ =>
      ScalarRoundTrip(v, s, p);
      ScalarTypes(v);
  }

  lemma ScalarTypes(v: Value)
    requires !v.Array? && !v.Object? && !v.Code?
    ensures TypeByte(v) != OBJECT && TypeByte(v) != ARRAY && TypeByte(v) != CODE
  {
  }

  lemma {:induction false} ElementsDecode(d: Doc, s: seq<Byte>, p: nat, acc: Doc)
    requires Framed(d)
    requires var e := EncodeElements(d); e.Some? && |e.value| <= MAX_SIZE && At(s, p, e.value + [0])
    ensures DecodeElements(s, p, acc) == Ok(NormInto(d, acc), p + |EncodeElements(d).value| + 1)
    decreases d, 1
  {
    hide DecodeValue, Update, SymKey, FindNul, EncodeElement, KeyText, Norm, FramedValue, At;
    if d.Empty? {
      ClosingZero(s, p);
    } else {
      ElementsLayout(d, s, p);
      var first := EncodeElement(KeyText(d.key), d.value).value;
      if d.value.Resource? {
        ElementsDecode(d.rest, s, p, acc);
      } else {
        ElementDecodes(KeyText(d.key), d.value, s, p);
        ElementsStep(s, p, acc, KeyText(d.key), Norm(d.value), p + |first|);
        ElementsDecode(d.rest, s, p + |first|, Update(acc, SymKey(KeyText(d.key)), Norm(d.value)));
      }
    }
  }

  lemma ClosingZero(s: seq<Byte>, p: nat)
    requires At(s, p, [] + [0])
    ensures p < |s| && s[p] == 0
  {
    assert [] + [0] == [0];
    assert s[p] == s[p..p + 1][0];
  }

  lemma ElementsLayout(d: Doc, s: seq<Byte>, p: nat)
    requires d.Entry?
    requires var e := EncodeElements(d); e.Some? && At(s, p, e.value + [0])
    ensures var f, o := EncodeElement(KeyText(d.key), d.value), EncodeElements(d.rest);
            f.Some? && o.Some? && |EncodeElements(d).value| == |f.value| + |o.value|
            && At(s, p, f.value) && At(s, p + |f.value|, o.value + [0])
            && (d.value.Resource? ==> f.value == [])
  {
    hide EncodePayload, KeyText, TypeByte;
    var f, o := EncodeElement(KeyText(d.key), d.value).value, EncodeElements(d.rest).value;
    assert (f + o) + [0] == f + (o + [0]);
    AtConcat(s, p, f, o + [0]);
  }

  // One turn of the decoder's loop.
  lemma ElementsStep(s: seq<Byte>, p: nat, acc: Doc, name: seq<Byte>, v: Value, next: nat)
    requires p < |s| && s[p] != 0
    requires FindNul(s, p + 1) == Some(p + 1 + |name|) && s[p + 1..p + 1 + |name|] == name
    requires p + 2 + |name| <= |s| && DecodeValue(s[p], s, p + 2 + |name|) == Ok(v, next)
    ensures DecodeElements(s, p, acc) == DecodeElements(s, next, Update(acc, SymKey(name), v))
  {
    hide DecodeValue, Update, SymKey, FindNul;
  }

  // One element: its type, its name, and then its value, in the terms
  // DecodeElements reads them.
  lemma {:induction false} ElementDecodes(name: seq<Byte>, v: Value, s: seq<Byte>, p: nat)
    requires FramedValue(v) && !v.Resource? && NulFree(name)
    requires var e := EncodeElement(name, v); e.Some? && |e.value| <= MAX_SIZE && At(s, p, e.value)
    ensures p < |s| && s[p] == TypeByte(v) != 0
    ensures FindNul(s, p + 1) == Some(p + 1 + |name|) && s[p + 1..p + 1 + |name|] == name
    ensures p + 2 + |name| <= |s|
    ensures DecodeValue(TypeByte(v), s, p + 2 + |name|) == Ok(Norm(v), p + |EncodeElement(name, v).value|)
    decreases v, 1
  {
    hide DecodeValue, EncodePayload, Norm, FramedValue;
    var payload := EncodePayload(v).value;
    AtConcat(s, p, [TypeByte(v)] + (name + [0]), payload);
    AtConcat(s, p, [TypeByte(v)], name + [0]);
    assert s[p] == s[p..p + 1][0];
    FindNulAt(s, p + 1, name);
    ValueDecodes(v, s, p + 2 + |name|);
  }

  lemma {:induction false} DocDecodes(d: Doc, s: seq<Byte>, p: nat)
    requires Framed(d)
    requires var e := EncodeDoc(d); e.Some? && At(s, p, e.value)
    ensures DecodeDoc(s, p) == Ok(NormInto(d, Empty), p + |EncodeDoc(d).value|)
    decreases d, 2
  {
    var e := EncodeDoc(d).value;
    var body := EncodeElements(d).value + [0];
    AtConcat(s, p, Le32(|e|), body);
    ElementsDecode(d, s, p + 4, Empty);
  }

  // ----- The documents that survive -----

  // Each entry is carried unchanged: a storable key and a storable value.
  predicate Storable(d: Doc) {
    d.Empty? || (StorableKey(d.key) && StorableValue(d.value) && !HasKey(d.rest, d.key) && Storable(d.rest))
  }

  predicate StorableValue(v: Value) {
    match v
    case Array(d) => Storable(d)
    case Object(_) => false
    case Code(_, scope) => Storable(scope)
    case Date(sec, usec) => 0 <= usec < 1_000_000 && usec % 1000 == 0
    case Timestamp(seconds, inc) => ToInt32(seconds) == seconds && ToInt32(inc) == inc
    case Int32Object(_) => false
    case Int64Object(_) => false
    case Resource => false
    case _ => FramedScalar(v)
  }

  predicate DatesInRange(d: Doc) {
    d.Empty? || (ValueDatesInRange(d.value) && DatesInRange(d.rest))
  }

  predicate ValueDatesInRange(v: Value) {
    match v
    case Array(d) => DatesInRange(d)
    case Object(d) => DatesInRange(d)
    case Code(_, scope) => DatesInRange(scope)
    case Date(sec, usec) => DateInRange(sec, usec)
    case _ => true
  }

  lemma ScalarNormIff(v: Value)
    requires !v.Array? && !v.Object? && !v.Code? && !v.Resource? && FramedScalar(v)
    requires ValueDatesInRange(v)
    ensures Norm(v) == v <==> StorableValue(v)
  {
    hide ToInt32, DateOfMillis, DateMillis, DateInRange;
    if v.Date? {
      DateSurvivesIff(v.sec, v.usec);
    }
  }

  lemma {:induction false} NormIff(v: Value)
    requires FramedValue(v) && !v.Resource? && ValueDatesInRange(v)
    ensures Norm(v) == v <==> StorableValue(v)
    decreases v, 0
  {
    hide ToInt32, DateOfMillis, DateMillis, DateInRange, FramedScalar;
    match v
    case Array(d) => NormDocIff(d);
    case Object(_) =>
    case Code(_, scope) => NormDocIff(scope);
    case _ => ScalarNormIff(v);
  }

  // A document comes back as it went exactly when it is storable.
  lemma {:induction false} NormDocIff(d: Doc)
    requires Framed(d) && DatesInRange(d)
    ensures NormInto(d, Empty) == d <==> Storable(d)
    decreases d, 2
  {
    if Storable(d) {
      DisjointEmpty(d);
      StorableIsFixed(d, Empty);
    }
    if NormInto(d, Empty) == d {
      FixedIsStorable(d, Empty);
    }
  }

  predicate Disjoint(a: Doc, b: Doc) {
    a.Empty? || (!HasKey(b, a.key) && Disjoint(a.rest, b))
  }

  lemma {:induction false} DisjointEmpty(a: Doc)
    ensures Disjoint(a, Empty)
  {
    if a.Entry? {
      DisjointEmpty(a.rest);
    }
  }

  lemma {:induction false} DisjointUpdate(a: Doc, b: Doc, k: Key, v: Value)
    requires Disjoint(a, b) && !HasKey(a, k)
    ensures Disjoint(a, Update(b, k, v))
  {
    if a.Entry? {
      DisjointUpdate(a.rest, b, k, v);
    }
  }

  lemma {:induction false} StorableIsFixed(d: Doc, acc: Doc)
    requires Framed(d) && DatesInRange(d) && Storable(d) && Disjoint(d, acc)
    ensures NormInto(d, acc) == Concat(acc, d)
    decreases d, 1
  {
    hide KeyText, SymKey, Norm;
    if d.Empty? {
      ConcatEmpty(acc);
    } else {
      NormIff(d.value);
      KeyRoundTrip(d.key);
      var acc' := Update(acc, d.key, d.value);
      UpdateAppends(acc, d.key, d.value);
      DisjointUpdate(d.rest, acc, d.key, d.value);
      StorableIsFixed(d.rest, acc');
      ConcatAssoc(acc, Entry(d.key, d.value, Empty), d.rest);
    }
  }

  // Every element read back, entry by entry.
  function NormEach(d: Doc): Doc {
    if d.Empty? then Empty
    else Entry(SymKey(KeyText(d.key)), Norm(d.value), NormEach(d.rest))
  }

  lemma {:induction false} CountUpdate(d: Doc, k: Key, v: Value)
    ensures Count(Update(d, k, v)) == Count(d) + if HasKey(d, k) then 0 else 1
  {
    if d.Entry? {
      CountUpdate(d.rest, k, v);
    }
  }

  lemma {:induction false} CountConcat(a: Doc, b: Doc)
    ensures Count(Concat(a, b)) == Count(a) + Count(b)
  {
    if a.Entry? {
      CountConcat(a.rest, b);
    }
  }

  // No table grows by more than the entries read into it.
  lemma {:induction false} CountNorm(d: Doc, acc: Doc)
    ensures Count(NormInto(d, acc)) <= Count(acc) + Count(d)
  {
    hide KeyText, SymKey, Norm;
    if d.Entry? {
      if d.value.Resource? {
        CountNorm(d.rest, acc);
      } else {
        var acc' := Update(acc, SymKey(KeyText(d.key)), Norm(d.value));
        CountUpdate(acc, SymKey(KeyText(d.key)), Norm(d.value));
        CountNorm(d.rest, acc');
      }
    }
  }

  // When nothing is dropped and no two entries collide, reading appends.
  lemma {:induction false} FullCountAppends(d: Doc, acc: Doc)
    requires Count(NormInto(d, acc)) == Count(acc) + Count(d)
    ensures NormInto(d, acc) == Concat(acc, NormEach(d))
    ensures d.Entry? ==> !d.value.Resource? && !HasKey(acc, SymKey(KeyText(d.key)))
  {
    hide KeyText, SymKey, Norm;
    if d.Empty? {
      ConcatEmpty(acc);
    } else if d.value.Resource? {
      CountNorm(d.rest, acc);
    } else {
      var k, v := SymKey(KeyText(d.key)), Norm(d.value);
      CountUpdate(acc, k, v);
      CountNorm(d.rest, Update(acc, k, v));
      UpdateAppends(acc, k, v);
      FullCountAppends(d.rest, Update(acc, k, v));
      ConcatAssoc(acc, Entry(k, v, Empty), NormEach(d.rest));
    }
  }

  lemma {:induction false} ConcatCancel(a: Doc, b: Doc, c: Doc)
    requires Concat(a, b) == Concat(a, c)
    ensures b == c
  {
    if a.Entry? {
      ConcatCancel(a.rest, b, c);
    }
  }

  // The first entry of a document that comes back unchanged.
  lemma FixedHead(d: Doc, acc: Doc)
    requires d.Entry? && NormInto(d, acc) == Concat(acc, d)
    ensures !d.value.Resource? && !HasKey(acc, d.key)
    ensures SymKey(KeyText(d.key)) == d.key && Norm(d.value) == d.value
    ensures NormInto(d.rest, Update(acc, d.key, d.value)) == Concat(Update(acc, d.key, d.value), d.rest)
  {
    hide KeyText, SymKey, Norm;
    CountConcat(acc, d);
    FullCountAppends(d, acc);
    ConcatCancel(acc, d, NormEach(d));
    UpdateAppends(acc, d.key, d.value);
    ConcatAssoc(acc, Entry(d.key, d.value, Empty), d.rest);
  }

  lemma {:induction false} FixedIsStorable(d: Doc, acc: Doc)
    requires Framed(d) && DatesInRange(d) && NormInto(d, acc) == Concat(acc, d)
    ensures Storable(d) && Disjoint(d, acc)
    decreases d, 1
  {
    hide KeyText, SymKey, Norm;
    if d.Entry? {
      FixedHead(d, acc);
      KeyRoundTrip(d.key);
      NormIff(d.value);
      var acc' := Update(acc, d.key, d.value);
      FixedIsStorable(d.rest, acc');
      DisjointFromSmaller(d.rest, acc, d.key, d.value);
      DisjointHas(d.rest, acc', d.key);
    }
  }

  lemma {:induction false} DisjointFromSmaller(a: Doc, b: Doc, k: Key, v: Value)
    requires Disjoint(a, Update(b, k, v))
    ensures Disjoint(a, b)
  {
    if a.Entry? {
      DisjointFromSmaller(a.rest, b, k, v);
    }
  }

  lemma {:induction false} DisjointHas(a: Doc, b: Doc, k: Key)
    requires Disjoint(a, b) && HasKey(b, k)
    ensures !HasKey(a, k)
  {
    if a.Entry? {
      DisjointHas(a.rest, b, k);
    }
  }

  // ----- The decoder's range -----

  lemma {:induction false} FramedUpdate(d: Doc, k: Key, v: Value)
    requires Framed(d) && FramedValue(v)
    ensures Framed(Update(d, k, v))
  {
    if d.Entry? {
      FramedUpdate(d.rest, k, v);
    }
  }

  lemma DbRefIsFramed(ns: seq<Byte>, id: ObjectId)
    ensures Framed(Entry(REF_KEY, Str(ns), Entry(ID_KEY, Id(Some(id)), Empty)))
  {
    assert FramedValue(Id(Some(id))) && FramedValue(Str(ns));
    assert Framed(Entry(ID_KEY, Id(Some(id)), Empty));
  }

  lemma ScalarDecodesFramed(tag: Byte, s: seq<Byte>, p: nat)
    requires p <= |s| && DecodeScalar(tag, s, p).Ok?
    ensures FramedValue(DecodeScalar(tag, s, p).value)
  {
    hide DecodeString, DecodeBin, DecodeRegex, DecodeWord, DecodeText;
    if tag == DBREF {
      var ns := DecodeString(s, p);
      DbRefIsFramed(ns.value, s[ns.next..ns.next + 12]);
    }
  }

  // Whatever the bytes, the decoder builds only framed documents.
  lemma {:induction false} ValueDecodesFramed(tag: Byte, s: seq<Byte>, p: nat)
    requires p <= |s| && DecodeValue(tag, s, p).Ok?
    ensures FramedValue(DecodeValue(tag, s, p).value)
    decreases |s| - p, 1
  {
    hide DecodeString, DecodeScalar, DecodeElements;
    if tag == OBJECT || tag == ARRAY {
      DocDecodesFramed(s, p);
    } else if tag == CODE {
      DocDecodesFramed(s, DecodeString(s, p + 4).next);
    } else {
      ScalarDecodesFramed(tag, s, p);
    }
  }

  lemma {:induction false} ElementsDecodeFramed(s: seq<Byte>, p: nat, acc: Doc)
    requires p <= |s| && DecodeElements(s, p, acc).Ok? && Framed(acc)
    ensures Framed(DecodeElements(s, p, acc).value)
    decreases |s| - p
  {
    hide DecodeValue, FindNul, Update, SymKey;
    if s[p] != 0 {
      var nul := FindNul(s, p + 1).value;
      ValueDecodesFramed(s[p], s, nul + 1);
      var v := DecodeValue(s[p], s, nul + 1);
      FramedUpdate(acc, SymKey(s[p + 1..nul]), v.value);
      ElementsDecodeFramed(s, v.next, Update(acc, SymKey(s[p + 1..nul]), v.value));
    }
  }

  lemma {:induction false} DocDecodesFramed(s: seq<Byte>, p: nat)
    requires p <= |s| && DecodeDoc(s, p).Ok?
    ensures Framed(DecodeDoc(s, p).value)
    decreases |s| - p, 0
  {
    ElementsDecodeFramed(s, p + 4, Empty);
  }

  // The round trip: a document that encodes without error is decoded to itself
  // exactly when it is storable, whatever follows it; the decoder then stops
  // exactly at its end.
  lemma SurvivesIff(d: Doc, s: seq<Byte>, p: nat)
    requires EncodeDoc(d).Some? && At(s, p, EncodeDoc(d).value)
    requires DatesInRange(d)
    ensures var r := DecodeDoc(s, p);
            (r.Ok? && r.value == d) <==> Storable(d)
    ensures Storable(d) ==> DecodeDoc(s, p) == Ok(d, p + |EncodeDoc(d).value|)
  {
    hide EncodeDoc, DecodeDoc, NormInto;
    if Framed(d) {
      DocDecodes(d, s, p);
      NormDocIff(d);
    } else {
      StorableIsFramed(d);
      if DecodeDoc(s, p).Ok? {
        DocDecodesFramed(s, p);
      }
    }
  }

  lemma {:induction false} StorableIsFramed(d: Doc)
    ensures Storable(d) ==> Framed(d)
    decreases d, 1
  {
    if d.Entry? {
      StorableValueIsFramed(d.value);
      StorableIsFramed(d.rest);
    }
  }

  lemma {:induction false} StorableValueIsFramed(v: Value)
    ensures StorableValue(v) ==> FramedValue(v)
    decreases v, 0
  {
    match v
    case Array(d) => StorableIsFramed(d);
    case Code(_, scope) => StorableIsFramed(scope);
    case _ =>
  }
}
