// The growable buffer and the serializers that write into it in place.
module BsonWriter {
  import opened Bytes
  import opened Document
  import opened Bson
  import KeyPrinter
  import Utf8

  const INITIAL_BUF_SIZE := 4096
  const GROW_SLOWLY := 1_048_576

  // ----- What a write leaves behind, on the contents of the allocation -----

  // The allocation has not shrunk and its bytes before position n are unchanged.
  ghost predicate Keeps(before: seq<Byte>, after: seq<Byte>, n: nat) {
    |before| <= |after| && forall i :: 0 <= i < n && i < |before| ==> after[i] == before[i]
  }

  // The bytes e now stand at position p, inside the allocation, and what stood
  // before p is unchanged.
  ghost predicate Wrote(before: seq<Byte>, after: seq<Byte>, p: nat, e: seq<Byte>) {
    Keeps(before, after, p) && At(after, p, e)
  }

  lemma WroteTwice(before: seq<Byte>, mid: seq<Byte>, after: seq<Byte>, p: nat, a: seq<Byte>, b: seq<Byte>)
    requires Wrote(before, mid, p, a) && Wrote(mid, after, p + |a|, b)
    ensures Wrote(before, after, p, a + b)
  {
    assert after[p..p + |a|] == mid[p..p + |a|];
    AtConcat(after, p, a, b);
  }

  lemma KeepsSelf(s: seq<Byte>, p: nat)
    ensures Keeps(s, s, p)
    ensures Wrote(s, s, |s|, [])
    ensures p <= |s| ==> Wrote(s, s, p, [])
  {
  }

  lemma WroteKeeps(before: seq<Byte>, after: seq<Byte>, p: nat, e: seq<Byte>, q: nat)
    requires Wrote(before, after, p, e) && q <= p
    ensures Keeps(before, after, q) && p + |e| <= |after|
  {
  }

  lemma WroteLater(before: seq<Byte>, mid: seq<Byte>, after: seq<Byte>, p: nat, e: seq<Byte>)
    requires Keeps(before, mid, p) && Wrote(mid, after, p, e)
    ensures Wrote(before, after, p, e)
  {
  }

  lemma KeepsTwice(before: seq<Byte>, mid: seq<Byte>, after: seq<Byte>, p: nat, q: nat)
    requires Keeps(before, mid, p) && Keeps(mid, after, q) && p <= q
    ensures Keeps(before, after, p)
  {
  }

  // Filling a reserved slot of four bytes before what was already written.
  lemma WrotePatched(before: seq<Byte>, mid: seq<Byte>, after: seq<Byte>, p: nat, slot: seq<Byte>, e: seq<Byte>)
    requires Wrote(before, mid, p + 4, e) && |slot| == 4
    requires |after| == |mid| && At(after, p, slot)
    requires forall i :: 0 <= i < |mid| && !(p <= i < p + 4) ==> after[i] == mid[i]
    ensures Wrote(before, after, p, slot + e)
  {
    assert after[p + 4..p + 4 + |e|] == mid[p + 4..p + 4 + |e|];
    AtConcat(after, p, slot, e);
  }

  class Buffer {
    var data: array<Byte>     // start .. end
    var pos: nat              // offset of the write position

    // A length slot may be reserved past the end of the allocation; the next
    // write grows the allocation over it.
    ghost predicate Valid()
      reads this
    {
      pos <= data.Length + 4
    }

    constructor (size: nat)
      ensures Valid() && pos == 0 && data.Length == size && fresh(data)
    {
      data := new Byte[size];
      pos := 0;
    }

    function Remaining(): int
      reads this
    {
      data.Length - pos
    }

    // resize_buf: grow until size bytes fit after the write position, keeping
    // every byte of the old allocation.
    method ResizeBuf(size: nat) returns (total: nat)
      requires Valid() && (size > 0 || pos <= data.Length)
      modifies this
      ensures fresh(data) && data.Length == total && pos == old(pos)
      ensures pos + size <= data.Length
      ensures old(data.Length) <= data.Length
      ensures forall i :: 0 <= i < old(data.Length) ==> data[i] == old(data[i])
    {
      total := data.Length;
      var used := pos;
      total := if total < GROW_SLOWLY then total * 2 else total + INITIAL_BUF_SIZE;
      while total - used < size
        invariant total >= data.Length
        decreases used + size - total
      {
        total := total + size;
      }
      var grown := new Byte[total];
      forall i | 0 <= i < data.Length {
        grown[i] := data[i];
      }
      data := grown;
    }

    method SerializeByte(b: Byte)
      requires Valid()
      modifies this, data
      ensures pos == old(pos) + 1 && Valid()
      ensures data == old(data) || fresh(data)
      ensures Wrote(old(data[..]), data[..], old(pos), [b])
    {
      if Remaining() <= 1 {
        var _ := ResizeBuf(1);
      }
      data[pos] := b;
      pos := pos + 1;
    }

    method SerializeBytes(str: seq<Byte>)
      requires pos <= data.Length
      modifies this, data
      ensures pos == old(pos) + |str| && Valid()
      ensures data == old(data) || fresh(data)
      ensures Wrote(old(data[..]), data[..], old(pos), str)
    {
      if Remaining() <= |str| {
        var _ := ResizeBuf(|str|);
      }
      forall i | 0 <= i < |str| {
        data[pos + i] := str[i];
      }
      pos := pos + |str|;
    }

    method SerializeString(str: seq<Byte>)
      requires Valid()
      modifies this, data
      ensures pos == old(pos) + |str| + 1 && Valid()
      ensures data == old(data) || fresh(data)
      ensures Wrote(old(data[..]), data[..], old(pos), str + [0])
    {
      if Remaining() <= |str| + 1 {
        var _ := ResizeBuf(|str| + 1);
      }
      Put(str, old(data[..]));
    }

    // The string and its NUL, for which there is room.
    method Put(str: seq<Byte>, ghost before: seq<Byte>)
      requires pos + |str| + 1 <= data.Length && Keeps(before, data[..], pos)
      modifies this`pos, data
      ensures pos == old(pos) + |str| + 1 && Valid() && Wrote(before, data[..], old(pos), str + [0])
    {
      ghost var mid := data[..];
      forall i | 0 <= i < |str| {
        data[pos + i] := str[i];
      }
      data[pos + |str|] := 0;
      assert data[pos..pos + |str|] == str;
      assert data[pos..pos + |str| + 1] == data[pos..pos + |str|] + [data[pos + |str|]];
      assert forall i :: 0 <= i < pos ==> data[..][i] == mid[i];
      pos := pos + |str| + 1;
    }

    method SerializeInt(num: int)
      requires Valid()
      modifies this, data
      ensures pos == old(pos) + 4 && Valid()
      ensures data == old(data) || fresh(data)
      ensures Wrote(old(data[..]), data[..], old(pos), Le32(num))
    {
      hide Le32;
      if Remaining() <= 4 {
        var _ := ResizeBuf(4);
      }
      var bytes := Le32(num);
      forall i | 0 <= i < 4 {
        data[pos + i] := bytes[i];
      }
      pos := pos + 4;
    }

    method SerializeLong(num: int)
      requires Valid()
      modifies this, data
      ensures pos == old(pos) + 8 && Valid()
      ensures data == old(data) || fresh(data)
      ensures Wrote(old(data[..]), data[..], old(pos), Le64(num))
    {
      hide Le64;
      if Remaining() <= 8 {
        var _ := ResizeBuf(8);
      }
      var bytes := Le64(num);
      forall i | 0 <= i < 8 {
        data[pos + i] := bytes[i];
      }
      pos := pos + 8;
    }

    // php_mongo_serialize_size: fill in a length slot. False stands for the
    // exception thrown when the content is too large.
    method SerializeSize(start: nat) returns (ok: bool)
      requires start + 4 <= pos <= data.Length
      modifies data
      ensures ok <==> pos - start <= MAX_SIZE
      ensures ok ==> At(data[..], start, Le32(pos - start))
      ensures forall i :: 0 <= i < data.Length && !(ok && start <= i < start + 4) ==> data[i] == old(data[i])
    {
      hide Le32;
      if pos - start > MAX_SIZE {
        return false;
      }
      var total := Le32(pos - start);
      forall i | 0 <= i < 4 {
        data[start + i] := total[i];
      }
      return true;
    }

    // php_mongo_serialize_key
    method SerializeKey(name: seq<Byte>, prep: bool) returns (ok: bool)
      requires Valid()
      modifies this, data
      ensures Valid() && (data == old(data) || fresh(data))
      ensures ok <==> name != [] && !(prep && DOT in name)
      ensures ok ==> pos == old(pos) + |name| + 1 && Wrote(old(data[..]), data[..], old(pos), name + [0])
      ensures !ok ==> pos == old(pos) && Keeps(old(data[..]), data[..], old(pos))
    {
      if name == [] {
        return false;
      }
      if Remaining() <= |name| + 1 {
        var _ := ResizeBuf(|name| + 1);
      }
      if prep && DOT in name {
        return false;
      }
      Put(name, old(data[..]));
      return true;
    }

    // PHP_MONGO_SERIALIZE_KEY: the type byte and the name.
    method SerializeHead(tag: Byte, name: seq<Byte>, prep: bool) returns (ok: bool)
      requires Valid()
      modifies this, data
      ensures Valid() && (data == old(data) || fresh(data))
      ensures ok <==> name != [] && !(prep && DOT in name)
      ensures ok ==> pos == old(pos) + |name| + 2 <= data.Length
                     && Wrote(old(data[..]), data[..], old(pos), [tag] + (name + [0]))
      ensures pos >= old(pos) && Keeps(old(data[..]), data[..], old(pos))
    {
      SerializeByte(tag);
      ghost var mid := data[..];
      ok := SerializeKey(name, prep);
      if ok {
        WroteTwice(old(data[..]), mid, data[..], old(pos), [tag], name + [0]);
      }
    }

    method SerializeRegex(pattern: seq<Byte>, flags: seq<Byte>)
      requires Valid()
      modifies this, data
      ensures pos == old(pos) + |pattern| + |flags| + 2 && Valid()
      ensures data == old(data) || fresh(data)
      ensures Wrote(old(data[..]), data[..], old(pos), (pattern + [0]) + (flags + [0]))
    {
      SerializeString(pattern);
      ghost var mid := data[..];
      SerializeString(flags);
      WroteTwice(old(data[..]), mid, data[..], old(pos), pattern + [0], flags + [0]);
    }

    method SerializeTimestamp(seconds: Int64, inc: Int64)
      requires Valid()
      modifies this, data
      ensures pos == old(pos) + 8 && Valid()
      ensures data == old(data) || fresh(data)
      ensures Wrote(old(data[..]), data[..], old(pos), Le32(inc) + Le32(seconds))
    {
      hide Le32;
      SerializeInt(inc);
      ghost var mid := data[..];
      SerializeInt(seconds);
      WroteTwice(old(data[..]), mid, data[..], old(pos), Le32(inc), Le32(seconds));
    }

    // A string with its length in front.
    method SerializeText(text: seq<Byte>)
      requires Valid()
      modifies this, data
      ensures pos == old(pos) + |LengthPrefixed(text)| && Valid()
      ensures data == old(data) || fresh(data)
      ensures Wrote(old(data[..]), data[..], old(pos), LengthPrefixed(text))
    {
      hide Le32;
      SerializeInt(|text| + 1);
      ghost var mid := data[..];
      SerializeString(text);
      WroteTwice(old(data[..]), mid, data[..], old(pos), Le32(|text| + 1), text + [0]);
    }

    // The length and the kind byte of binary data that is not of kind 2.
    method SerializeBinHead(len: nat, kind: Byte)
      requires Valid()
      modifies this, data
      ensures pos == old(pos) + 5 && pos <= data.Length
      ensures data == old(data) || fresh(data)
      ensures Wrote(old(data[..]), data[..], old(pos), Le32(len) + [kind])
    {
      hide Le32;
      SerializeInt(len);
      ghost var mid := data[..];
      SerializeByte(kind);
      WroteTwice(old(data[..]), mid, data[..], old(pos), Le32(len), [kind]);
    }

    // The inner length that kind 2 repeats, and the data.
    method SerializeCounted(bin: seq<Byte>)
      requires Valid()
      modifies this, data
      ensures pos == old(pos) + 4 + |bin| && Valid()
      ensures data == old(data) || fresh(data)
      ensures Wrote(old(data[..]), data[..], old(pos), Le32(|bin|) + bin)
    {
      hide Le32;
      SerializeInt(|bin|);
      ghost var mid := data[..];
      SerializeBytes(bin);
      WroteTwice(old(data[..]), mid, data[..], old(pos), Le32(|bin|), bin);
    }

    method SerializeBin(bin: seq<Byte>, kind: Int64)
      requires Valid()
      modifies this, data
      ensures pos == old(pos) + |BinPayload(bin, kind)| && Valid()
      ensures data == old(data) || fresh(data)
      ensures Wrote(old(data[..]), data[..], old(pos), BinPayload(bin, kind))
    {
      hide Le32, Wrote, Keeps, BinPayload;
      BinParts(bin, kind);
      if kind == 2 {
        SerializeBinHead(|bin| + 4, 2);
        ghost var mid := data[..];
        SerializeCounted(bin);
        WroteTwice(old(data[..]), mid, data[..], old(pos), Le32(|bin| + 4) + [2], Le32(|bin|) + bin);
      } else {
        SerializeBinHead(|bin|, kind % 256);
        ghost var mid := data[..];
        SerializeBytes(bin);
        WroteTwice(old(data[..]), mid, data[..], old(pos), Le32(|bin|) + [kind % 256], bin);
      }
    }

    static lemma BinParts(bin: seq<Byte>, kind: Int64)
      ensures BinPayload(bin, kind)
           == if kind == 2 then Le32(|bin| + 4) + [2] + (Le32(|bin|) + bin) else Le32(|bin|) + [kind % 256] + bin
    {
      hide Le32;
    }

    // The payload of a value that holds no document. False stands for the
    // exception thrown for a string that is not UTF-8.
    method SerializeScalar(v: Value) returns (ok: bool)
      requires pos <= data.Length && !v.Array? && !v.Object? && !v.Code?
      modifies this, data
      ensures Valid() && (data == old(data) || fresh(data))
      ensures ok <==> EncodePayload(v).Some?
      ensures ok ==> pos == old(pos) + |ScalarPayload(v)| && Wrote(old(data[..]), data[..], old(pos), ScalarPayload(v))
      ensures pos >= old(pos) && Keeps(old(data[..]), data[..], old(pos))
    {
      hide Le32, Le64, BinPayload, LengthPrefixed, IsUtf8, DateMillis;
      ok := true;
      match v {
      case Bool(b) => SerializeByte(if b then 1 else 0);
      case Long(n) => SerializeLong(n);
      case Double(bits) => SerializeLong(bits);
      case Str(text) =>
        var valid := Utf8.CheckUtf8(text);
        if !valid {
          return false;
        }
        SerializeText(text);
      case Id(id) =>
        if id.Some? {
          SerializeBytes(id.value);
        }
      case Date(sec, usec) => SerializeLong(DateMillis(sec, usec));
      case Regex(pattern, flags) => SerializeRegex(pattern, flags);
      case Bin(bin, kind) => SerializeBin(bin, kind);
      case Timestamp(seconds, inc) => SerializeTimestamp(seconds, inc);
      case Int32Object(n) => SerializeInt(n);
      case Int64Object(n) => SerializeLong(n);
      case _ =>
      }
    }

    // What a serializer did, given the contents and position before it: either
    // exactly the bytes e were appended, or an exception is pending.
    ghost predicate Emitted(before: seq<Byte>, from: nat, e: Option<seq<Byte>>, ok: bool)
      reads this, data
    {
      && Valid()
      && (ok <==> e.Some?)
      && (ok ==> pos == from + |e.value| <= data.Length && Wrote(before, data[..], from, e.value))
      && pos >= from
      && Keeps(before, data[..], from)
    }

    // php_mongo_serialize_element: type, name and payload of one entry, or
    // nothing for "_id" while preparing and for a value of no known type.
    method SerializeElement(name: seq<Byte>, v: Value, prep: bool) returns (ok: bool)
      requires pos <= data.Length && NulFree(name)
      modifies this, data
      ensures data == old(data) || fresh(data)
      ensures Emitted(old(data[..]), old(pos), PrepElement(name, v, prep), ok)
      decreases if prep then 1 else 0, v, 4
    {
      hide EncodePayload, TypeByte, Wrote, Keeps;
      KeepsSelf(data[..], pos);
      if prep && name == ID_NAME {
        return true;
      }
      if v.Resource? {
        return true;
      }
      if v.Array? {
        ok := SerializeArray(name, v.entries, prep);
        return;
      }
      ok := SerializeHead(TypeByte(v), name, prep);
      if ok {
        ghost var mid := data[..];
        ok := SerializePayload(v);
        KeepsTwice(old(data[..]), mid, data[..], old(pos), old(pos) + |name| + 2);
        if ok {
          WroteTwice(old(data[..]), mid, data[..], old(pos), [TypeByte(v)] + (name + [0]), EncodePayload(v).value);
        }
      }
    }

    // An array is typed BSON_ARRAY at first; once its entries have been
    // counted, the type byte is corrected in place.
    method SerializeArray(name: seq<Byte>, d: Doc, prep: bool) returns (ok: bool)
      requires pos <= data.Length && NulFree(name) && !(prep && name == ID_NAME)
      modifies this, data
      ensures data == old(data) || fresh(data)
      ensures Emitted(old(data[..]), old(pos), PrepElement(name, Array(d), prep), ok)
      decreases if prep then 1 else 0, d, 3
    {
      hide EncodeDoc, Ascending, Count, Wrote, Keeps, PrepElement;
      ArrayElement(name, d, prep);
      var typeOffset := pos;
      ok := SerializeHead(ARRAY, name, prep);
      if ok {
        ghost var mid := data[..];
        var num;
        num, ok := ZvalToBson(d, false, FRESH);
        KeepsTwice(old(data[..]), mid, data[..], old(pos), old(pos) + |name| + 2);
        if ok {
          WroteTwice(old(data[..]), mid, data[..], typeOffset, [ARRAY] + (name + [0]), EncodeDoc(d).value);
          SetType(old(data[..]), typeOffset, ARRAY, if num == Count(d) then ARRAY else OBJECT, name + [0],
                  EncodeDoc(d).value);
          ghost var e := [TypeByte(Array(d))] + (name + [0]) + EncodeDoc(d).value;
          WroteKeeps(old(data[..]), data[..], typeOffset, e, typeOffset);
        }
      }
    }

    // Overwrite the type byte of the element written at typeOffset.
    method SetType(ghost before: seq<Byte>, typeOffset: nat, ghost was: Byte, tag: Byte, ghost head: seq<Byte>,
                   ghost body: seq<Byte>)
      requires Wrote(before, data[..], typeOffset, [was] + head + body)
      modifies data
      ensures Wrote(before, data[..], typeOffset, [tag] + head + body)
    {
      ghost var mid := data[..];
      data[typeOffset] := tag;
      assert [was] + head + body == [was] + (head + body);
      WroteRetyped(before, mid, data[..], typeOffset, was, tag, head + body);
      assert [tag] + head + body == [tag] + (head + body);
    }

    method SerializePayload(v: Value) returns (ok: bool)
      requires pos <= data.Length && !v.Array?
      modifies this, data
      ensures data == old(data) || fresh(data)
      ensures Emitted(old(data[..]), old(pos), EncodePayload(v), ok)
      decreases 0, v, 3
    {
      hide EncodeDoc, ScalarPayload;
      if v.Object? {
        var _, done := ZvalToBson(v.properties, false, FRESH);
        ok := done;
      } else if v.Code? {
        ok := SerializeCode(v.code, v.scope);
      } else {
        ok := SerializeScalar(v);
      }
    }

    // Code with scope: the slot for the total size is reserved without a space
    // check and filled in at the end.
    method SerializeCode(code: seq<Byte>, scope: Doc) returns (ok: bool)
      requires pos <= data.Length
      modifies this, data
      ensures data == old(data) || fresh(data)
      ensures Emitted(old(data[..]), old(pos), Sized(Prepend(LengthPrefixed(code), EncodeDoc(scope))), ok)
      decreases 0, scope, 3
    {
      hide EncodeDoc, LengthPrefixed, Le32, Wrote, Keeps;
      var start := pos;
      pos := pos + 4;
      SerializeText(code);
      WroteKeeps(old(data[..]), data[..], start + 4, LengthPrefixed(code), start);
      ghost var mid, textEnd := data[..], pos;
      var _, done := ZvalToBson(scope, false, FRESH);
      KeepsTwice(old(data[..]), mid, data[..], start, textEnd);
      if !done {
        return false;
      }
      ghost var body := LengthPrefixed(code) + EncodeDoc(scope).value;
      WroteTwice(old(data[..]), mid, data[..], start + 4, LengthPrefixed(code), EncodeDoc(scope).value);
      ok := CloseSlot(old(data[..]), start, body);
    }

    // Fill in the length slot at start, in front of the content already written.
    method CloseSlot(ghost before: seq<Byte>, start: nat, ghost content: seq<Byte>) returns (ok: bool)
      requires pos == start + 4 + |content| && Valid()
      requires Wrote(before, data[..], start + 4, content)
      modifies data
      ensures Emitted(before, start, Sized(Some(content)), ok)
    {
      hide Le32;
      ghost var mid := data[..];
      ok := SerializeSize(start);
      if ok {
        WrotePatched(before, mid, data[..], start, Le32(4 + |content|), content);
      }
    }

    // zval_to_bson: a length slot, the entries, a closing zero. num counts the
    // entries that continue an array, and the "_id" written first.
    method ZvalToBson(d: Doc, prep: bool, newId: ObjectId) returns (num: nat, ok: bool)
      requires pos <= data.Length
      modifies this, data
      ensures data == old(data) || fresh(data)
      ensures Emitted(old(data[..]), old(pos), if prep then PrepDoc(d, newId) else EncodeDoc(d), ok)
      ensures ok && !prep ==> num == Ascending(d, 0)
      ensures ok && prep ==> (num == 0 <==> d.Empty?)
      decreases if prep then 2 else 0, d, 2
    {
      hide EncodeElements, PrepElements, EncodeElement, WithId, Lookup, Sized, Ascending, Wrote, Keeps;
      var start := pos;
      ReserveSlot();
      ghost var reserved := data[..];
      num, ok := SerializeEntries(d, prep, newId);
      ghost var content := DocElements(d, prep, newId);
      KeepsTwice(old(data[..]), reserved, data[..], start + 4, start + 4);
      if ok {
        WroteLater(old(data[..]), reserved, data[..], start + 4, content.value);
      }
      ok := CloseDoc(old(data[..]), start, content, ok);
    }

    // Leave room for a length.
    method ReserveSlot()
      requires pos <= data.Length
      modifies this
      ensures data == old(data) || fresh(data)
      ensures pos == old(pos) + 4 <= data.Length
      ensures Keeps(old(data[..]), data[..], pos)
    {
      if Remaining() <= 5 {
        var _ := ResizeBuf(5);
      }
      pos := pos + 4;
    }

    // End a document: the closing zero and its length. Both are written even
    // when an exception is pending.
    method CloseDoc(ghost before: seq<Byte>, start: nat, ghost content: Option<seq<Byte>>, wrote: bool)
      returns (ok: bool)
      requires Emitted(before, start + 4, content, wrote)
      modifies this, data
      ensures data == old(data) || fresh(data)
      ensures Emitted(before, start, Sized(Join(content, Some([0]))), ok) && (ok ==> wrote)
    {
      hide Le32;
      ghost var mid := data[..];
      SerializeByte(0);
      KeepsTwice(before, mid, data[..], start + 4, old(pos));
      if wrote {
        WroteTwice(before, mid, data[..], start + 4, content.value, [0]);
        ok := CloseSlot(before, start, content.value + [0]);
      } else {
        var _ := SerializeSize(start);
        ok := false;
      }
    }

    method SerializeEntries(d: Doc, prep: bool, newId: ObjectId) returns (num: nat, ok: bool)
      requires pos <= data.Length
      modifies this, data
      ensures data == old(data) || fresh(data)
      ensures Emitted(old(data[..]), old(pos), DocElements(d, prep, newId), ok)
      ensures ok && !prep ==> num == Ascending(d, 0)
      ensures ok && prep ==> (num == 0 <==> d.Empty?)
      decreases if prep then 2 else 0, d, 1
    {
      hide PrepElements, EncodeElements, EncodeElement, WithId;
      num, ok := 0, true;
      PlainElements(d);
      if prep && d.Entry? {
        var table := WithId(d, newId);
        ok := SerializeElement(ID_NAME, Lookup(table, ID).value, false);
        if ok {
          ghost var mid := data[..];
          num, ok := SerializeList(table, true, 1);
          if ok {
            WroteTwice(old(data[..]), mid, data[..], old(pos), EncodeElement(ID_NAME, Lookup(table, ID).value).value,
                       PrepElements(table, true).value);
          }
        }
      } else {
        num, ok := SerializeList(d, false, 0);
      }
    }

    // The walk over the hash table: each entry in order, counting those whose
    // index is the count so far.
    method SerializeList(d: Doc, prep: bool, first: nat) returns (num: nat, ok: bool)
      requires pos <= data.Length
      modifies this, data
      ensures data == old(data) || fresh(data)
      ensures Emitted(old(data[..]), old(pos), PrepElements(d, prep), ok)
      ensures num >= first && (ok ==> num == first + Ascending(d, first))
      decreases if prep then 1 else 0, d, 0
    {
      hide PrepElement, KeyText, Wrote, Keeps;
      num, ok := first, true;
      var cur := d;
      ghost var w := [];
      PrependNothing(PrepElements(d, prep));
      KeepsSelf(data[..], pos);
      while cur.Entry?
        invariant cur == d || cur < d
        invariant data == old(data) || fresh(data)
        invariant pos == old(pos) + |w| <= data.Length
        invariant Wrote(old(data[..]), data[..], old(pos), w) && Keeps(old(data[..]), data[..], old(pos))
        invariant PrepElements(d, prep) == Prepend(w, PrepElements(cur, prep))
        invariant num >= first && num + Ascending(cur, num) == first + Ascending(d, first)
        decreases cur
      {
        if cur.key.IntKey? && cur.key.index == num {
          num := num + 1;
        }
        ghost var mid, from := data[..], pos;
        var name := KeyPrinter.KeyName(cur.key);
        ok := SerializeElement(name, cur.value, prep);
        KeepsTwice(old(data[..]), mid, data[..], old(pos), from);
        if !ok {
          return;
        }
        ghost var e := PrepElement(name, cur.value, prep).value;
        WroteTwice(old(data[..]), mid, data[..], old(pos), w, e);
        PrependJoin(w, e, PrepElements(cur.rest, prep));
        w := w + e;
        cur := cur.rest;
      }
      assert w + [] == w;
    }
  }

  const FRESH: ObjectId := [0, 0, 0, 0, 0, 0, 0, 0, 0, 0, 0, 0]

  lemma ArrayElement(name: seq<Byte>, d: Doc, prep: bool)
    requires !(prep && name == ID_NAME)
    ensures PrepElement(name, Array(d), prep) ==
            if name == [] || (prep && DOT in name) then None
            else Prepend([TypeByte(Array(d))] + (name + [0]), EncodeDoc(d))
  {
    hide EncodeDoc, TypeByte, Prepend;
    assert EncodePayload(Array(d)) == EncodeDoc(d);
    var v := Array(d);
    assert !v.Resource?;
    assert name != [] ==> EncodeElement(name, v) == Prepend([TypeByte(v)] + (name + [0]), EncodePayload(v));
  }

  lemma PrependNothing(e: Option<seq<Byte>>)
    ensures Prepend([], e) == e
  {
    if e.Some? {
      assert [] + e.value == e.value;
    }
  }

  lemma PrependJoin(a: seq<Byte>, b: seq<Byte>, c: Option<seq<Byte>>)
    ensures Prepend(a, Join(Some(b), c)) == Prepend(a + b, c)
  {
    if c.Some? {
      assert a + (b + c.value) == a + b + c.value;
    }
  }

  lemma WroteRetyped(before: seq<Byte>, mid: seq<Byte>, after: seq<Byte>, p: nat, a: Byte, b: Byte, e: seq<Byte>)
    requires Wrote(before, mid, p, [a] + e)
    requires |after| == |mid| && after == mid[p := b]
    ensures Wrote(before, after, p, [b] + e)
  {
    AtConcat(mid, p, [a], e);
    assert after[p + 1..p + 1 + |e|] == mid[p + 1..p + 1 + |e|];
    AtConcat(after, p, [b], e);
  }
}
