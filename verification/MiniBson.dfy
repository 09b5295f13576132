// The second BSON scanner: it steps over elements by their length prefixes,
// looks fields up by name and type, and walks arrays of strings.
module MiniBson {
  import opened Bytes
  import opened Document
  import opened Bson
  import opened BsonRoundTrip

  // A char pointer after an operation: null, a position, the process gone
  // (code with scope is not supported), or past what the bytes can show.
  datatype Pointer = NullPtr | To(p: int) | Exit | Overrun

  // bson_skip_field_name
  function SkipName(s: seq<Byte>, p: nat): (r: Option<nat>)
    requires p <= |s|
    ensures r.Some? ==> p < r.value <= |s|
  {
    var nul := FindNul(s, p);
    if nul.None? then None else Some(nul.value + 1)
  }

  // A jump over a 4-byte length, extra bytes, and as many bytes as it says.
  function Jump(s: seq<Byte>, p: nat, extra: int): Pointer
    requires p <= |s|
  {
    if p + 4 > |s| then Overrun else To(p + extra + Int32At(s, p))
  }

  // The position after a payload of the given type.
  function SkipPayload(tag: Byte, s: seq<Byte>, p: nat): Pointer
    requires p <= |s|
  {
    if tag == DOUBLE || tag == DATE || tag == TIMESTAMP || tag == INT64 then To(p + 8)
    else if tag == STRING || tag == CODE_D || tag == SYMBOL then Jump(s, p, 4)
    else if tag == OBJECT || tag == ARRAY then Jump(s, p, 0)
    else if tag == BINARY then Jump(s, p, 5)
    else if tag == UNDEFINED || tag == NULL || tag == MINKEY || tag == MAXKEY then To(p)
    else if tag == OID then To(p + 12)
    else if tag == BOOL then To(p + 1)
    else if tag == REGEX then
      var q := SkipName(s, p);
      if q.None? then Overrun else To(q.value)
    else if tag == DBREF then Jump(s, p, 16)
    else if tag == CODE then Exit
    else if tag == INT32 then To(p + 4)
    else NullPtr
  }

  // bson_next
  function Next(s: seq<Byte>, p: nat): Pointer
    requires p < |s|
  {
    if s[p] == 0 then NullPtr
    else
      var q := SkipName(s, p + 1);
      if q.None? then Overrun else SkipPayload(s[p], s, q.value)
  }

  // ----- Agreement with the decoder -----

  // A value whose encoding the scanner can step over.
  predicate ScannableValue(v: Value) {
    !v.Regex? && !v.Code? && v != Id(None)
  }

  predicate Scannable(d: Doc) {
    d.Empty? || (ScannableValue(d.value) && Scannable(d.rest))
  }

  // Every document starts with its own length in bytes.
  lemma DocPrefix(d: Doc, s: seq<Byte>, p: nat)
    requires EncodeDoc(d).Some? && At(s, p, EncodeDoc(d).value)
    ensures |EncodeDoc(d).value| >= 5 && Int32At(s, p) == |EncodeDoc(d).value|
  {
    hide EncodeElements;
    var e := EncodeDoc(d).value;
    AtConcat(s, p, Le32(|e|), e[4..]);
    assert e == Le32(|e|) + e[4..];
    Int32RoundTrip(|e|, s, p);
  }

  lemma ScalarSkips(v: Value, s: seq<Byte>, p: nat)
    requires !v.Array? && !v.Object? && !v.Resource? && ScannableValue(v)
    requires |ScalarPayload(v)| <= MAX_SIZE && At(s, p, ScalarPayload(v))
    ensures SkipPayload(TypeByte(v), s, p) == To(p + |ScalarPayload(v)|)
  {
    hide Le64, Ascending, Int32At;
    match v
    case Str(text) =>
      AtConcat(s, p, Le32(|text| + 1), text + [0]);
      Int32RoundTrip(|text| + 1, s, p);
    case Bin(data, kind) => BinSkips(data, kind, s, p);
    case _ =>
  }

  lemma BinSkips(data: seq<Byte>, kind: Int64, s: seq<Byte>, p: nat)
    requires |BinPayload(data, kind)| <= MAX_SIZE && At(s, p, BinPayload(data, kind))
    ensures Jump(s, p, 5) == To(p + |BinPayload(data, kind)|)
  {
    hide Int32At;
    if kind == 2 {
      AtConcat(s, p, Le32(|data| + 4), [2] + (Le32(|data|) + data));
      Int32RoundTrip(|data| + 4, s, p);
    } else {
      AtConcat(s, p, Le32(|data|), [kind % 256] + data);
      Int32RoundTrip(|data|, s, p);
    }
  }

  lemma PayloadSkips(v: Value, s: seq<Byte>, p: nat)
    requires !v.Resource? && ScannableValue(v)
    requires var e := EncodePayload(v); e.Some? && |e.value| <= MAX_SIZE && At(s, p, e.value)
    ensures SkipPayload(TypeByte(v), s, p) == To(p + |EncodePayload(v).value|)
  {
    hide EncodeDoc, ScalarPayload, Int32At, Ascending;
    if v.Array? {
      DocPrefix(v.entries, s, p);
    } else if v.Object? {
      DocPrefix(v.properties, s, p);
    } else {
      ScalarSkips(v, s, p);
    }
  }

  // On the encoding of an element, bson_next lands right behind it: where the
  // decoder, which ignores length prefixes, continues.
  lemma NextLands(name: seq<Byte>, v: Value, s: seq<Byte>, p: nat)
    requires !v.Resource? && ScannableValue(v) && NulFree(name)
    requires var e := EncodeElement(name, v); e.Some? && |e.value| <= MAX_SIZE && At(s, p, e.value)
    ensures p < |s| && s[p] == TypeByte(v) != 0
    ensures SkipName(s, p) == SkipName(s, p + 1) == Some(p + 2 + |name|)
    ensures s[p + 1..p + 1 + |name|] == name && FindNul(s, p + 1) == Some(p + 1 + |name|)
    ensures EncodePayload(v).Some? && At(s, p + 2 + |name|, EncodePayload(v).value)
    ensures Next(s, p) == To(p + |EncodeElement(name, v).value|)
  {
    hide EncodePayload, SkipPayload, At, FindNul;
    HeadLayout(name, v, s, p);
    PayloadSkips(v, s, p + 2 + |name|);
  }

  lemma HeadLayout(name: seq<Byte>, v: Value, s: seq<Byte>, p: nat)
    requires !v.Resource? && NulFree(name)
    requires var e := EncodeElement(name, v); e.Some? && At(s, p, e.value)
    ensures p + 2 + |name| <= |s| && s[p] == TypeByte(v) != 0
    ensures s[p + 1..p + 1 + |name|] == name
    ensures FindNul(s, p + 1) == Some(p + 1 + |name|) && FindNul(s, p) == FindNul(s, p + 1)
    ensures EncodePayload(v).Some? && At(s, p + 2 + |name|, EncodePayload(v).value)
  {
    hide EncodePayload;
    var payload := EncodePayload(v).value;
    AtConcat(s, p, [TypeByte(v)] + (name + [0]), payload);
    AtConcat(s, p, [TypeByte(v)], name + [0]);
    assert s[p] == s[p..p + 1][0];
    FindNulAt(s, p + 1, name);
  }

  // A regular expression is stepped over by one of its two strings only: the
  // scanner lands behind the first NUL and never on the next element.
  lemma NextMissesRegex(name: seq<Byte>, v: Value, s: seq<Byte>, p: nat)
    requires v.Regex? && NulFree(name)
    requires var e := EncodeElement(name, v); e.Some? && At(s, p, e.value)
    ensures p < |s| && Next(s, p) == To(p + 2 + |name| + |CStr(v.pattern)| + 1)
    ensures p + 2 + |name| + |CStr(v.pattern)| + 1 < p + |EncodeElement(name, v).value|
  {
    hide FindNul;
    HeadLayout(name, v, s, p);
    var q := p + 2 + |name|;
    AtConcat(s, q, v.pattern + [0], v.flags + [0]);
    FirstNulAt(v.pattern, s, q);
  }

  lemma FirstNulAt(text: seq<Byte>, s: seq<Byte>, p: nat)
    requires At(s, p, text + [0])
    ensures FindNul(s, p) == Some(p + |CStr(text)|)
  {
    hide FindNul;
    var c := CStr(text);
    var rest := (text + [0])[|c| + 1..];
    assert text + [0] == c + [0] + rest;
    AtConcat(s, p, c + [0], rest);
    FindNulAt(s, p, c);
  }

  // bson_next lands right behind an element exactly when it is no regular
  // expression, no code with scope and no unfinished id.
  lemma NextLandsIff(name: seq<Byte>, v: Value, s: seq<Byte>, p: nat)
    requires !v.Resource? && NulFree(name)
    requires var e := EncodeElement(name, v); e.Some? && |e.value| <= MAX_SIZE && At(s, p, e.value)
    ensures p < |s|
    ensures Next(s, p) == To(p + |EncodeElement(name, v).value|) <==> ScannableValue(v)
  {
    hide EncodeElement, Next, At;
    if ScannableValue(v) {
      NextLands(name, v, s, p);
    } else if v.Regex? {
      NextMissesRegex(name, v, s, p);
    } else {
      NextMissesOthers(name, v, s, p);
    }
  }

  lemma NextMissesOthers(name: seq<Byte>, v: Value, s: seq<Byte>, p: nat)
    requires (v.Code? || v == Id(None)) && NulFree(name)
    requires var e := EncodeElement(name, v); e.Some? && At(s, p, e.value)
    ensures p < |s| && Next(s, p) != To(p + |EncodeElement(name, v).value|)
  {
    hide FindNul, At, EncodeDoc;
    HeadLayout(name, v, s, p);
  }

  // The deprecated types that carry a string, and a database reference with its
  // id, are stepped over whole; undefined takes no bytes, and a type that is not
  // known stops the scanner.
  lemma OldTypesLand(text: seq<Byte>, id: ObjectId, s: seq<Byte>, p: nat)
    requires At(s, p, LengthPrefixed(text)) && |text| <= MAX_SIZE
    ensures SkipPayload(0x0D, s, p) == SkipPayload(0x0E, s, p) == To(p + |LengthPrefixed(text)|)
    ensures SkipPayload(0x0C, s, p) == To(p + |LengthPrefixed(text) + id|)
    ensures SkipPayload(0x06, s, p) == To(p)
  {
    hide Int32At;
    AtConcat(s, p, Le32(|text| + 1), text + [0]);
    Int32RoundTrip(|text| + 1, s, p);
  }

  lemma UnknownStops(tag: Byte, s: seq<Byte>, p: nat)
    requires p <= |s| && tag > 0x12 && tag != 0x7F && tag != 0xFF
    ensures SkipPayload(tag, s, p) == NullPtr
  {
  }

  // ----- Field lookup -----

  // The type of an element as read through a char, which is signed.
  function SignedChar(b: Byte): int {
    if b < 0x80 then b else b - 0x100
  }

  // A type above 0x7F is never found by its number.
  lemma {:induction false} HighTypesAreNotFound(d: Doc, name: seq<Byte>, kind: Byte)
    requires kind >= 0x80
    ensures FirstField(d, name, kind) == None
  {
    hide KeyText, TypeByte;
    if d.Entry? {
      HighTypesAreNotFound(d.rest, name, kind);
    }
  }

  predicate IsField(k: Key, v: Value, name: seq<Byte>, kind: int) {
    !v.Resource? && KeyText(k) == name && SignedChar(TypeByte(v)) == kind
  }

  // The first element of d with this name and type.
  function FirstField(d: Doc, name: seq<Byte>, kind: int): Option<Value> {
    if d.Empty? then None
    else if IsField(d.key, d.value, name, kind) then Some(d.value)
    else FirstField(d.rest, name, kind)
  }

  // Every element in front of the first match, or of the end, can be stepped
  // over.
  predicate Reaches(d: Doc, name: seq<Byte>, kind: int) {
    d.Empty? || IsField(d.key, d.value, name, kind) || (ScannableValue(d.value) && Reaches(d.rest, name, kind))
  }

  // What a lookup must return: the position q of the payload of v, or nothing.
  predicate IsPayloadOf(s: seq<Byte>, r: Option<nat>, v: Option<Value>) {
    if v.None? then r.None?
    else r.Some? && r.value <= |s| && EncodePayload(v.value).Some? && At(s, r.value, EncodePayload(v.value).value)
  }

  lemma ElementsLayoutSkip(d: Doc, s: seq<Byte>, p: nat)
    requires d.Entry? && !d.value.Resource?
    requires var e := EncodeElements(d); e.Some? && |e.value| <= MAX_SIZE && At(s, p, e.value + [0])
    ensures var f, o := EncodeElement(KeyText(d.key), d.value), EncodeElements(d.rest);
            f.Some? && o.Some? && |f.value| <= MAX_SIZE && |o.value| <= MAX_SIZE
            && At(s, p, f.value) && At(s, p + |f.value|, o.value + [0])
  {
    hide EncodeElement, KeyText;
    ElementsLayout(d, s, p);
  }

  // Entries that encode to nothing do not show in the bytes.
  function SkipResources(d: Doc): (r: Doc)
    ensures r.Entry? ==> !r.value.Resource?
    ensures Scannable(d) ==> Scannable(r)
    ensures EncodeElements(d).Some? ==> EncodeElements(r) == EncodeElements(d)
    ensures forall name, kind :: FirstField(r, name, kind) == FirstField(d, name, kind)
    ensures forall name, kind :: Reaches(d, name, kind) ==> Reaches(r, name, kind)
    ensures r == d || r < d
  {
    if d.Entry? && d.value.Resource? then
      assert EncodeElements(d).Some? ==> EncodeElements(d) == Join(Some([]), EncodeElements(d.rest));
      assert EncodeElements(d).Some? ==> [] + EncodeElements(d.rest).value == EncodeElements(d.rest).value;
      SkipResources(d.rest)
    else d
  }

  // bson_find_field, on the elements of a document: the payload of the first
  // element with the given name and type, or null.
  method FindField(s: seq<Byte>, start: nat, name: seq<Byte>, kind: int, ghost d: Doc) returns (r: Option<nat>)
    requires Reaches(d, name, kind)
    requires var e := EncodeElements(d); e.Some? && |e.value| <= MAX_SIZE && At(s, start, e.value + [0])
    ensures IsPayloadOf(s, r, FirstField(d, name, kind))
  {
    hide EncodeElements, EncodeElement, At, FindNul, SkipPayload, KeyText, TypeByte, EncodePayload;
    var p := start;
    ghost var left := SkipResources(d);
    LookAt(left, s, p);
    while s[p] != 0 && !(FieldAt(s, p) == name && SignedChar(s[p]) == kind)
      invariant 0 <= p < |s| && Reaches(left, name, kind) && (left.Entry? ==> !left.value.Resource?)
      invariant EncodeElements(left).Some? && |EncodeElements(left).value| <= MAX_SIZE
      invariant At(s, p, EncodeElements(left).value + [0])
      invariant FirstField(left, name, kind) == FirstField(d, name, kind)
      invariant Shows(left, s, p)
      decreases left
    {
      ElementsLayoutSkip(left, s, p);
      NextLands(KeyText(left.key), left.value, s, p);
      p := Next(s, p).p;
      left := SkipResources(left.rest);
      LookAt(left, s, p);
    }
    if s[p] == 0 {
      return None;
    }
    return SkipName(s, p);
  }

  // The bytes at p show the first entry of d, or the end.
  ghost predicate Shows(d: Doc, s: seq<Byte>, p: nat) {
    p < |s| &&
    if d.Empty? then s[p] == 0
    else
      && s[p] == TypeByte(d.value) != 0
      && FieldAt(s, p) == KeyText(d.key)
      && SkipName(s, p) == Some(p + 2 + |KeyText(d.key)|)
      && IsPayloadOf(s, SkipName(s, p), Some(d.value))
  }

  // The name that bson_get_current returns with the element at p.
  function FieldAt(s: seq<Byte>, p: nat): seq<Byte>
    requires p < |s|
  {
    var nul := FindNul(s, p + 1);
    if nul.None? then s[p + 1..] else s[p + 1..nul.value]
  }

  lemma LookAt(d: Doc, s: seq<Byte>, p: nat)
    requires d.Entry? ==> !d.value.Resource?
    requires var e := EncodeElements(d); e.Some? && |e.value| <= MAX_SIZE && At(s, p, e.value + [0])
    ensures Shows(d, s, p)
  {
    hide EncodeElement, EncodePayload, KeyText, FindNul, SkipPayload, TypeByte;
    if d.Empty? {
      ClosingZero(s, p);
    } else {
      ElementsLayoutSkip(d, s, p);
      HeadLayout(KeyText(d.key), d.value, s, p);
    }
  }

  // ----- Lookup in the bytes against lookup in the decoded table -----

  lemma NameOfStorable(k: Key, name: seq<Byte>)
    requires StorableKey(k) && NulFree(name)
    ensures KeyText(k) == name <==> k == SymKey(name)
  {
    KeyRoundTrip(k);
  }

  lemma {:induction false} NoSuchField(d: Doc, name: seq<Byte>, kind: int)
    requires Storable(d) && NulFree(name) && !HasKey(d, SymKey(name))
    ensures FirstField(d, name, kind).None? && Lookup(d, SymKey(name)).None?
  {
    hide KeyText, SymKey, TypeByte;
    if d.Entry? {
      NameOfStorable(d.key, name);
      NoSuchField(d.rest, name, kind);
    }
  }

  lemma {:induction false} FieldIsLookup(d: Doc, name: seq<Byte>, kind: int)
    requires Storable(d) && NulFree(name)
    ensures FirstField(d, name, kind) ==
            match Lookup(d, SymKey(name))
            case None => None
            case Some(v) => if SignedChar(TypeByte(v)) == kind then Some(v) else None
  {
    hide KeyText, SymKey, TypeByte;
    if d.Entry? {
      NameOfStorable(d.key, name);
      if d.key == SymKey(name) {
        NoSuchField(d.rest, name, kind);
      } else {
        FieldIsLookup(d.rest, name, kind);
      }
    }
  }

  lemma {:induction false} LookupStorable(d: Doc, k: Key)
    requires Storable(d) && DatesInRange(d) && Lookup(d, k).Some?
    ensures StorableValue(Lookup(d, k).value) && ValueDatesInRange(Lookup(d, k).value)
  {
    if d.key != k {
      LookupStorable(d.rest, k);
    }
  }

  // The scanner and the decoder agree: a field found in the bytes of a storable
  // document is the entry of the decoded table with that name, and decoding the
  // bytes found gives that entry's value; a field not found is missing from the
  // table, or there with another type.
  lemma FoundIsDecoded(d: Doc, s: seq<Byte>, p: nat, name: seq<Byte>, kind: Byte, r: Option<nat>)
    requires Storable(d) && DatesInRange(d) && NulFree(name) && kind < 0x80
    requires EncodeDoc(d).Some? && At(s, p, EncodeDoc(d).value)
    requires IsPayloadOf(s, r, FirstField(d, name, kind))
    ensures DecodeDoc(s, p).Ok? &&
            match Lookup(DecodeDoc(s, p).value, SymKey(name))
            case None => r.None?
            case Some(v) =>
              if TypeByte(v) == kind
              then r.Some? && DecodeValue(kind, s, r.value).Ok? && DecodeValue(kind, s, r.value).value == v
              else r.None?
  {
    hide DecodeDoc, DecodeValue, EncodeDoc, TypeByte, Lookup, Storable, DatesInRange, FirstField, StorableValue, SymKey;
    SurvivesIff(d, s, p);
    FieldIsLookup(d, name, kind);
    var found := Lookup(d, SymKey(name));
    if found.Some? && TypeByte(found.value) == kind {
      LookupStorable(d, SymKey(name));
      DocFits(d);
      FieldFits(d, name, kind);
      StorableDecodes(found.value, s, r.value);
    }
  }

  lemma DocFits(d: Doc)
    requires EncodeDoc(d).Some?
    ensures EncodeElements(d).Some? && |EncodeElements(d).value| <= MAX_SIZE
  {
    hide EncodeElements;
  }

  lemma {:induction false} FieldFits(d: Doc, name: seq<Byte>, kind: int)
    requires EncodeElements(d).Some? && FirstField(d, name, kind).Some?
    ensures var e := EncodePayload(FirstField(d, name, kind).value);
            e.Some? && |e.value| <= |EncodeElements(d).value|
  {
    hide EncodePayload, KeyText, TypeByte;
    if FirstField(d.rest, name, kind) == FirstField(d, name, kind) {
      FieldFits(d.rest, name, kind);
    }
  }

  lemma StorableDecodes(v: Value, s: seq<Byte>, p: nat)
    requires StorableValue(v) && ValueDatesInRange(v)
    requires var e := EncodePayload(v); e.Some? && |e.value| <= MAX_SIZE && At(s, p, e.value)
    ensures DecodeValue(TypeByte(v), s, p).Ok? && DecodeValue(TypeByte(v), s, p).value == v
  {
    hide EncodePayload, DecodeValue, TypeByte;
    StorableValueIsFramed(v);
    NormIff(v);
    ValueDecodes(v, s, p);
  }

  // ----- Arrays of strings -----

  // What the walk over an array collects: for every element the string read
  // last, so an element of another type repeats the string before it. None
  // stands for a string pointer that was never set.
  function Collected(d: Doc, last: Option<seq<Byte>>): seq<Option<seq<Byte>>> {
    if d.Empty? then []
    else if d.value.Resource? then Collected(d.rest, last)
    else
      var current := if d.value.Str? then Some(CStr(d.value.text)) else last;
      [current] + Collected(d.rest, current)
  }

  // The strings of an array, in order.
  function Strings(d: Doc): seq<Option<seq<Byte>>> {
    if d.Empty? then []
    else if d.value.Str? then [Some(d.value.text)] + Strings(d.rest)
    else Strings(d.rest)
  }

  predicate AllStrings(d: Doc) {
    d.Empty? || (((d.value.Str? && NulFree(d.value.text)) || d.value.Resource?) && AllStrings(d.rest))
  }

  lemma {:induction false} StringsBound(d: Doc, last: Option<seq<Byte>>)
    ensures |Strings(d)| <= |Collected(d, last)|
  {
    if d.Entry? {
      StringsBound(d.rest, if d.value.Str? then Some(CStr(d.value.text)) else last);
    }
  }

  // The walk collects exactly the strings of the array, in order, if and only
  // if every element is a string without an embedded NUL.
  lemma {:induction false} CollectsIff(d: Doc, last: Option<seq<Byte>>)
    ensures Collected(d, last) == Strings(d) <==> AllStrings(d)
  {
    if d.Entry? {
      if d.value.Resource? {
        CollectsIff(d.rest, last);
      } else if d.value.Str? {
        var current := Some(CStr(d.value.text));
        CollectsIff(d.rest, current);
        assert Collected(d, last)[1..] == Collected(d.rest, current);
        assert Strings(d)[1..] == Strings(d.rest);
        assert Collected(d, last)[0] == current && Strings(d)[0] == Some(d.value.text);
      } else {
        StringsBound(d.rest, last);
      }
    }
  }

  // An array holding "a" and the number 1: the string is collected twice.
  lemma NumberRepeatsString(last: Option<seq<Byte>>)
    ensures var a := ['a' as int];
            var d := Entry(IntKey(0), Str(a), Entry(IntKey(1), Long(1), Empty));
            Storable(d) && Strings(d) == [Some(a)] && Collected(d, last) == [Some(a), Some(a)]
  {
    hide KeyText, SymKey;
    var a := ['a' as int];
    var one := Entry(IntKey(1), Long(1), Empty);
    assert CStr(a) == a;
    assert one.rest == Empty && one.value == Long(1);
    assert Strings(one) == Strings(Empty) == [];
    assert Collected(one, Some(a)) == [Some(a)] + Collected(Empty, Some(a)) == [Some(a)];
    assert Storable(one);
  }

  // bson_array_find_next_string: read the element at p if it is a string, and
  // move on; false when there is no element after it.
  method FindNextString(s: seq<Byte>, p: nat, last: Option<seq<Byte>>, ghost d: Doc)
    returns (more: bool, next: nat, current: Option<seq<Byte>>, ghost left: Doc)
    requires d.Entry? ==> !d.value.Resource? && ScannableValue(d.value)
    requires var e := EncodeElements(d); e.Some? && |e.value| <= MAX_SIZE && At(s, p, e.value + [0])
    ensures more <==> d.Entry?
    ensures more ==> current == if d.value.Str? then Some(CStr(d.value.text)) else last
    ensures more ==> left == SkipResources(d.rest)
    ensures more ==> var e := EncodeElements(left); e.Some? && |e.value| <= MAX_SIZE && At(s, next, e.value + [0])
  {
    hide EncodeElements, EncodeElement, At, FindNul, SkipPayload, KeyText, EncodePayload;
    LookAt(d, s, p);
    left, current, next := d, last, p;
    if d.Entry? {
      ElementsLayoutSkip(d, s, p);
      NextLands(KeyText(d.key), d.value, s, p);
      left := SkipResources(d.rest);
    }
    if s[p] == STRING {
      var q := SkipName(s, p).value;
      StringAt(d.value, s, q);
      current := Some(TextAt(s, q + 4));
    }
    match Next(s, p)
    case To(q) => more, next := true, q;
    case _ => more := false;
  }

  // The C string at p.
  function TextAt(s: seq<Byte>, p: nat): seq<Byte>
    requires p <= |s|
  {
    var nul := FindNul(s, p);
    if nul.None? then s[p..] else s[p..nul.value]
  }

  // A string value read through a char pointer ends at its first NUL.
  lemma StringAt(v: Value, s: seq<Byte>, p: nat)
    requires TypeByte(v) == STRING && EncodePayload(v).Some? && At(s, p, EncodePayload(v).value)
    ensures v.Str? && p + 4 <= |s| && TextAt(s, p + 4) == CStr(v.text)
  {
    hide Le32, Ascending;
    var text := v.text;
    AtConcat(s, p, Le32(|text| + 1), text + [0]);
    FirstNulAt(text, s, p + 4);
    AtConcat(s, p + 4, text, [0]);
  }

  // The loop over the hosts of an ismaster reply.
  method CollectStrings(s: seq<Byte>, start: nat, ghost d: Doc) returns (found: seq<Option<seq<Byte>>>)
    requires Scannable(d)
    requires var e := EncodeElements(d); e.Some? && |e.value| <= MAX_SIZE && At(s, start, e.value + [0])
    ensures found == Collected(d, None)
  {
    hide EncodeElements, At;
    found := [];
    ghost var left := SkipResources(d);
    CollectedSkips(d, None);
    var more, p, text, next := FindNextString(s, start, None, left);
    if more {
      CollectedSkips(left.rest, text);
      assert Collected(left, None) == [text] + Collected(next, text);
      assert found + [text] == [text];
    }
    while more
      invariant Scannable(left) && (left.Entry? ==> !left.value.Resource?)
      invariant more <==> left.Entry?
      invariant more ==> next == SkipResources(left.rest)
      invariant more ==> var e := EncodeElements(next); e.Some? && |e.value| <= MAX_SIZE && At(s, p, e.value + [0])
      invariant more ==> Collected(d, None) == found + [text] + Collected(next, text)
      invariant !more ==> Collected(d, None) == found
      decreases left
    {
      found := found + [text];
      left := next;
      ghost var was := text;
      more, p, text, next := FindNextString(s, p, text, left);
      if more {
        CollectedSkips(left.rest, text);
        assert Collected(left, was) == [text] + Collected(next, text);
        assert found + ([text] + Collected(next, text)) == found + [text] + Collected(next, text);
      }
    }
  }

  lemma {:induction false} CollectedSkips(d: Doc, last: Option<seq<Byte>>)
    ensures Collected(SkipResources(d), last) == Collected(d, last)
  {
    if d.Entry? && d.value.Resource? {
      CollectedSkips(d.rest, last);
    }
  }
}
