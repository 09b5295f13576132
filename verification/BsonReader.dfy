// The decoder's loop: a position moving through the bytes, a hash table
// filled as elements are read, and a recursive call for every nested document.
module BsonReader {
  import opened Bytes
  import opened Document
  import opened Bson

  // bson_to_zval. An Err stands for the null pointer it returns with an
  // exception pending.
  method BsonToZval(s: seq<Byte>, start: nat) returns (r: Parsed<Doc>)
    requires start <= |s|
    ensures r == DecodeDoc(s, start)
    decreases |s| - start, 0
  {
    hide DecodeValue, SymKey, Update, FindNul;
    if start + 4 > |s| {
      return Err(Malformed);
    }
    var p, table := start + 4, Empty;
    while p < |s| && s[p] != 0
      invariant start + 4 <= p <= |s|
      invariant DecodeDoc(s, start) == DecodeElements(s, p, table)
      decreases |s| - p
    {
      var tag := s[p];
      var nul := FindNul(s, p + 1);
      if nul.None? {
        return Err(Malformed);
      }
      var v := ReadValue(tag, s, nul.value + 1);
      if v.Err? {
        return Err(v.error);
      }
      table := Update(table, SymKey(s[p + 1..nul.value]), v.value);
      p := v.next;
    }
    if p == |s| {
      return Err(Malformed);
    }
    return Ok(table, p + 1);
  }

  // The switch over element types.
  method ReadValue(tag: Byte, s: seq<Byte>, p: nat) returns (r: Parsed<Value>)
    requires p <= |s|
    ensures r == DecodeValue(tag, s, p)
    decreases |s| - p, 1
  {
    hide DecodeScalar, DecodeString, DecodeElements;
    if tag == OBJECT || tag == ARRAY {
      var d := BsonToZval(s, p);
      return if d.Err? then Err(d.error) else Ok(Array(d.value), d.next);
    }
    if tag == CODE {
      // the total size is skipped
      if p + 4 > |s| {
        return Err(Malformed);
      }
      var code := ReadString(s, p + 4);
      if code.Err? {
        return Err(code.error);
      }
      var scope := BsonToZval(s, code.next);
      return if scope.Err? then Err(scope.error) else Ok(Code(code.value, scope.value), scope.next);
    }
    r := ReadScalar(tag, s, p);
  }

  // The cases that hold no document.
  method ReadScalar(tag: Byte, s: seq<Byte>, p: nat) returns (r: Parsed<Value>)
    requires p <= |s|
    ensures tag != OBJECT && tag != ARRAY && tag != CODE ==> r == DecodeValue(tag, s, p)
  {
    hide DecodeString, DecodeBin, DecodeRegex, DecodeDbRef, DecodeWord, DecodeElements;
    if tag == OID {
      r := if p + 12 > |s| then Err(Malformed) else Ok(Id(Some(s[p..p + 12])), p + 12);
    } else if tag == DOUBLE || tag == INT64 || tag == DATE || tag == TIMESTAMP {
      r := ReadWord(tag, s, p);
    } else if tag == STRING || tag == SYMBOL {
      var text := ReadString(s, p);
      r := if text.Err? then Err(text.error) else Ok(Str(text.value), text.next);
    } else if tag == BINARY {
      r := ReadBin(s, p);
    } else if tag == BOOL {
      r := if p + 1 > |s| then Err(Malformed) else Ok(Bool(s[p] != 0), p + 1);
    } else if tag == UNDEFINED || tag == NULL {
      r := Ok(Null, p);
    } else if tag == INT32 {
      r := if p + 4 > |s| then Err(Malformed) else Ok(Long(Int32At(s, p)), p + 4);
    } else if tag == REGEX {
      r := ReadRegex(s, p);
    } else if tag == CODE_D {
      var code := ReadString(s, p);
      r := if code.Err? then Err(code.error) else Ok(Code(code.value, Empty), code.next);
    } else if tag == DBREF {
      r := ReadDbRef(s, p);
    } else if tag == MINKEY {
      r := Ok(MinKey, p);
    } else if tag == MAXKEY {
      r := Ok(MaxKey, p);
    } else {
      r := Err(BadType);
    }
  }

  // A string and its length, which counts the trailing NUL.
  method ReadString(s: seq<Byte>, p: nat) returns (r: Parsed<seq<Byte>>)
    requires p <= |s|
    ensures r == DecodeString(s, p)
  {
    hide Int32At;
    if p + 4 > |s| {
      return Err(Malformed);
    }
    var len := Int32At(s, p);
    if len < 0 || len > 64 * 1024 * 1024 {
      return Err(BadLength);
    }
    var buf := p + 4;
    if len == 0 || buf + len > |s| {
      return Err(Malformed);
    }
    r := Ok(s[buf..buf + len - 1], buf + len);
  }

  // Binary data. The bytes of kind 2 may have a length of their own in front.
  method ReadBin(s: seq<Byte>, p: nat) returns (r: Parsed<Value>)
    requires p <= |s|
    ensures r == DecodeBin(s, p)
  {
    hide Int32At;
    if p + 4 > |s| {
      return Err(Malformed);
    }
    var len: int := Int32At(s, p);
    if len < 0 || len > 64 * 1024 * 1024 {
      return Err(BadLength);
    }
    var buf := p + 4;
    if buf == |s| {
      return Err(Malformed);
    }
    var kind := s[buf];
    buf := buf + 1;
    if kind == 2 {
      if buf + 4 > |s| {
        return Err(Malformed);
      }
      var len2 := Int32At(s, buf);
      if len2 == len - 4 {
        len, buf := len2, buf + 4;
      }
    }
    if len < 0 || buf + len > |s| {
      return Err(Malformed);
    }
    r := Ok(Bin(s[buf..buf + len], kind), buf + len);
  }

  method ReadRegex(s: seq<Byte>, p: nat) returns (r: Parsed<Value>)
    requires p <= |s|
    ensures r == DecodeRegex(s, p)
  {
    hide FindNul;
    var nul := FindNul(s, p);
    if nul.None? {
      return Err(Malformed);
    }
    var regex := s[p..nul.value];
    var buf := nul.value + 1;
    nul := FindNul(s, buf);
    if nul.None? {
      return Err(Malformed);
    }
    r := Ok(Regex(regex, s[buf..nul.value]), nul.value + 1);
  }

  // The deprecated reference becomes an array of two entries.
  method ReadDbRef(s: seq<Byte>, p: nat) returns (r: Parsed<Value>)
    requires p <= |s|
    ensures r == DecodeDbRef(s, p)
  {
    hide DecodeString;
    var ns := ReadString(s, p);
    if ns.Err? {
      return Err(ns.error);
    }
    var buf := ns.next;
    if buf + 12 > |s| {
      return Err(Malformed);
    }
    assert |REF_KEY.text| == 4 && |ID_KEY.text| == 3;
    var table := Update(Empty, REF_KEY, Str(ns.value));
    assert table == Entry(REF_KEY, Str(ns.value), Empty);
    var id := Id(Some(s[buf..buf + 12]));
    assert Update(Empty, ID_KEY, id) == Entry(ID_KEY, id, Empty);
    table := Update(table, ID_KEY, id);
    r := Ok(Array(table), buf + 12);
  }

  // Eight bytes, as a double, a date, a timestamp or a number.
  method ReadWord(tag: Byte, s: seq<Byte>, p: nat) returns (r: Parsed<Value>)
    requires p <= |s|
    ensures r == DecodeWord(tag, s, p)
  {
    hide Int32At, Int64At, Unsigned64At, DateOfMillis;
    if p + 8 > |s| {
      return Err(Malformed);
    }
    if tag == DOUBLE {
      r := Ok(Double(Unsigned64At(s, p)), p + 8);
    } else if tag == DATE {
      r := Ok(DateOfMillis(Int64At(s, p)), p + 8);
    } else if tag == TIMESTAMP {
      var inc := Int32At(s, p);
      var sec := Int32At(s, p + 4);
      r := Ok(Timestamp(sec, inc), p + 8);
    } else {
      r := Ok(Long(Int64At(s, p)), p + 8);
    }
  }
}
