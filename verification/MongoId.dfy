// Object ids: four bytes of time, three of machine, two of process id and three
// of a counter.
module MongoId {
  import opened Bytes
  import opened Division
  import opened Document
  import opened Text
  import opened Hex

  type UInt32 = x: int | 0 <= x < 0x1_0000_0000

  const COUNTER: int := 0x100_0000

  // Time and counter with the high byte first, the others as they lie in memory.
  function IdBytes(t: UInt32, machine: int, pid: int, inc: int): (id: ObjectId) {
    var T, M, P, I := Le32(t), Le32(machine), Le32(pid), Le32(inc);
    [T[3], T[2], T[1], T[0], M[0], M[1], M[2], P[0], P[1], I[2], I[1], I[0]]
  }

  lemma IdIs(s: seq<Byte>, t: UInt32, machine: int, pid: int, inc: int)
    requires |s| == 12
    requires var T, M, P, I := Le32(t), Le32(machine), Le32(pid), Le32(inc);
             && s[0] == T[3] && s[1] == T[2] && s[2] == T[1] && s[3] == T[0]
             && s[4] == M[0] && s[5] == M[1] && s[6] == M[2] && s[7] == P[0] && s[8] == P[1]
             && s[9] == I[2] && s[10] == I[1] && s[11] == I[0]
    ensures s == IdBytes(t, machine, pid, inc)
  {
    hide Le32;
  }

  // The module globals that generate_id uses.
  class Globals {
    var inc: int
    const machine: int
    const pid: int

    constructor (inc: int, machine: int, pid: int)
      ensures this.inc == inc && this.machine == machine && this.pid == pid
    {
      this.inc, this.machine, this.pid := inc, machine, pid;
    }

    // generate_id, at the second that time(0) gives
    method GenerateId(data: array<Byte>, now: UInt32)
      requires data.Length >= 12
      modifies this, data
      ensures inc == old(inc) + 1
      ensures data[..12] == IdBytes(now, machine, pid, old(inc)) && data[12..] == old(data[12..])
    {
      hide Le32, IdBytes;
      var T, M, P, I := Le32(now), Le32(machine), Le32(pid), Le32(inc);
      inc := inc + 1;
      data[0], data[1], data[2], data[3] := T[3], T[2], T[1], T[0];
      forall i | 0 <= i < 3 {
        data[4 + i] := M[i];
      }
      forall i | 0 <= i < 2 {
        data[7 + i] := P[i];
      }
      data[9], data[10], data[11] := I[2], I[1], I[0];
      IdIs(data[..12], now, machine, pid, old(inc));
    }

    // Every id that one request generates, given the time of each call.
    method GenerateAll(times: seq<UInt32>) returns (ids: seq<ObjectId>)
      modifies this
      ensures inc == old(inc) + |times|
      ensures ids == IdsOf(times, machine, pid, old(inc))
    {
      hide IdBytes;
      ids := [];
      var data := new Byte[13](_ => 0);
      for i := 0 to |times|
        invariant inc == old(inc) + i && ids == IdsOf(times[..i], machine, pid, old(inc))
      {
        GenerateId(data, times[i]);
        ids := ids + [data[..12]];
        assert times[..i + 1][..i] == times[..i];
      }
      assert times[..|times|] == times;
    }
  }

  function IdsOf(times: seq<UInt32>, machine: int, pid: int, inc: int): (ids: seq<ObjectId>)
    ensures |ids| == |times|
    ensures forall k :: 0 <= k < |times| ==> ids[k] == IdBytes(times[k], machine, pid, inc + k)
  {
    if times == [] then []
    else
      var n := |times| - 1;
      IdsOf(times[..n], machine, pid, inc) + [IdBytes(times[n], machine, pid, inc + n)]
  }

  // ----- What an id tells -----

  // The value of bytes with the high one first.
  function BigEndian(s: seq<Byte>): nat {
    if s == [] then 0 else 256 * BigEndian(s[..|s| - 1]) + s[|s| - 1] as int
  }

  // getTimestamp: the sum overflows an int from 2038 on.
  method GetTimestamp(id: ObjectId) returns (ts: Int32)
    ensures ts == ToInt32(BigEndian(id[..4]))
  {
    var sum: int := 0;
    for i := 0 to 4
      invariant sum == BigEndian(id[..i])
    {
      assert id[..i + 1][..i] == id[..i];
      sum := sum * 256 + id[i] as int;
    }
    ts := ToInt32(sum);
  }

  // getPID
  method GetPid(id: ObjectId) returns (pid: int)
    ensures pid == id[8] as int * 256 + id[7] as int
  {
    pid := 0;
    var i := 8;
    while i > 6
      invariant 6 <= i <= 8
      invariant pid == if i == 8 then 0 else if i == 7 then id[8] as int else id[8] as int * 256 + id[7] as int
    {
      pid := pid * 256 + id[i] as int;
      i := i - 1;
    }
  }

  // getInc
  function GetInc(id: ObjectId): int {
    id[11] as int + 0x100 * id[10] as int + 0x1_0000 * id[9] as int
  }

  lemma FourBytes(s: seq<Byte>)
    requires |s| == 4
    ensures BigEndian(s) == 0x100_0000 * s[0] as int + 0x1_0000 * s[1] as int + 0x100 * s[2] as int + s[3] as int
  {
    assert s[..1][..0] == [];
    assert BigEndian(s[..1]) == s[0] as int;
    assert s[..2][..1] == s[..1];
    assert BigEndian(s[..2]) == 256 * BigEndian(s[..1]) + s[1] as int;
    assert s[..3][..2] == s[..2];
    assert BigEndian(s[..3]) == 256 * BigEndian(s[..2]) + s[2] as int;
  }

  // The low bytes of a 32-bit pattern make up its value to their width.
  lemma LowBytes(v: int)
    ensures var b := Le32(v);
            && b[0] as int + 0x100 * b[1] as int == v % 0x1_0000
            && b[0] as int + 0x100 * b[1] as int + 0x1_0000 * b[2] as int == v % COUNTER
            && b[0] as int + 0x100 * b[1] as int + 0x1_0000 * b[2] as int + 0x100_0000 * b[3] as int
               == v % 0x1_0000_0000
  {
    var b := Le32(v);
    assert At(b, 0, Le32(v));
    Unsigned32OfLe32(b, 0, v);
    DivMod(v, 0x1_0000_0000);
    LowOf(v, v / 0x1_0000_0000, b[0], b[1], b[2], b[3]);
  }

  lemma LowOf(v: int, q: int, b0: Byte, b1: Byte, b2: Byte, b3: Byte)
    requires v == q * 0x1_0000_0000 + (b0 as int + 0x100 * b1 as int + 0x1_0000 * b2 as int + 0x100_0000 * b3 as int)
    ensures b0 as int + 0x100 * b1 as int == v % 0x1_0000
    ensures b0 as int + 0x100 * b1 as int + 0x1_0000 * b2 as int == v % COUNTER
  {
    DivUnique(v, 0x1_0000, q * 0x1_0000 + b2 as int + 0x100 * b3 as int, b0 as int + 0x100 * b1 as int);
    DivUnique(v, 0x100_0000, q * 0x100 + b3 as int, b0 as int + 0x100 * b1 as int + 0x1_0000 * b2 as int);
  }

  // Time, machine, process id and counter are read back to their widths.
  lemma IdTells(t: UInt32, machine: int, pid: int, inc: int)
    ensures var id := IdBytes(t, machine, pid, inc);
            && BigEndian(id[..4]) == t
            && id[4] as int + 256 * id[5] as int + 256 * 256 * id[6] as int == machine % 0x100_0000
            && id[7] as int + 256 * id[8] as int == pid % 0x1_0000
            && id[11] as int + 256 * id[10] as int + 256 * 256 * id[9] as int == inc % 0x100_0000 == GetInc(id)
  {
    LowBytes(t);
    LowBytes(machine);
    LowBytes(pid);
    LowBytes(inc);
    var id := IdBytes(t, machine, pid, inc);
    FourBytes(id[..4]);
    hide Le32, BigEndian;
  }

  // ----- Uniqueness -----

  predicate Ascending(times: seq<UInt32>) {
    forall i, j :: 0 <= i < j < |times| ==> times[i] <= times[j]
  }

  // No second has more ids than the counter has values.
  ghost predicate NotTooMany(times: seq<UInt32>) {
    forall i, j :: 0 <= i < j < |times| && j - i == COUNTER ==> times[i] != times[j]
  }

  predicate Distinct(ids: seq<ObjectId>) {
    forall i, j :: 0 <= i < j < |ids| ==> ids[i] != ids[j]
  }

  lemma SameIdIff(t: UInt32, t': UInt32, machine: int, pid: int, inc: int, inc': int)
    ensures IdBytes(t, machine, pid, inc) == IdBytes(t', machine, pid, inc')
       <==> t == t' && inc % COUNTER == inc' % COUNTER
  {
    IdTells(t, machine, pid, inc);
    IdTells(t', machine, pid, inc');
    if t == t' && inc % COUNTER == inc' % COUNTER {
      SameLowBytes(inc, inc');
    }
  }

  lemma SameLowBytes(v: int, w: int)
    requires v % COUNTER == w % COUNTER
    ensures Le32(v)[..3] == Le32(w)[..3]
    ensures Le32(v)[0] == Le32(w)[0] && Le32(v)[1] == Le32(w)[1] && Le32(v)[2] == Le32(w)[2]
  {
    LowBytes(v);
    LowBytes(w);
    Digits3(Le32(v)[0], Le32(v)[1], Le32(v)[2], Le32(w)[0], Le32(w)[1], Le32(w)[2]);
    hide Le32;
  }

  lemma Digits3(a: Byte, b: Byte, c: Byte, a': Byte, b': Byte, c': Byte)
    requires a as int + 0x100 * b as int + 0x1_0000 * c as int == a' as int + 0x100 * b' as int + 0x1_0000 * c' as int
    ensures a == a' && b == b' && c == c'
  {
  }

  // While the clock does not go back, the ids of one request are all different
  // exactly when no second sees more than 2^24 of them.
  lemma IdsAreDistinctIff(times: seq<UInt32>, machine: int, pid: int, inc: int)
    requires Ascending(times)
    ensures Distinct(IdsOf(times, machine, pid, inc)) <==> NotTooMany(times)
  {
    var ids := IdsOf(times, machine, pid, inc);
    hide IdBytes, IdsOf;
    if NotTooMany(times) {
      forall i, j | 0 <= i < j < |ids| ensures ids[i] != ids[j] {
        SameIdIff(times[i], times[j], machine, pid, inc + i, inc + j);
        if (inc + i) % COUNTER == (inc + j) % COUNTER {
          FarApart(inc, i, j);
          LaterSecond(times, i, j);
        }
      }
    } else {
      var i, j :| 0 <= i < j < |times| && j - i == COUNTER && times[i] == times[j];
      SameIdIff(times[i], times[j], machine, pid, inc + i, inc + j);
      SameCounter(inc, i, j);
      assert ids[i] == ids[j];
    }
  }

  lemma LaterSecond(times: seq<UInt32>, i: nat, j: nat)
    requires Ascending(times) && NotTooMany(times) && i + COUNTER <= j < |times|
    ensures times[i] != times[j]
  {
    var next := i + COUNTER;
    assert times[i] != times[next];
    assert times[i] <= times[next] && (next < j ==> times[next] <= times[j]);
  }

  lemma FarApart(inc: int, i: int, j: int)
    requires i < j && (inc + i) % COUNTER == (inc + j) % COUNTER
    ensures j - i >= COUNTER
  {
  }

  lemma SameCounter(inc: int, i: int, j: int)
    requires j - i == COUNTER
    ensures (inc + i) % COUNTER == (inc + j) % COUNTER
  {
  }

  // ----- As text -----

  // __toString
  method ToString(id: ObjectId) returns (text: Text)
    ensures text == Digits(id)
  {
    var chars := new Byte[24](_ => 0);
    for i := 0 to 12
      invariant chars[..2 * i] == Digits(id[..i])
    {
      assert id[..i + 1][..i] == id[..i];
      chars[2 * i] := HexDigit(id[i] / 16);
      chars[2 * i + 1] := HexDigit(id[i] % 16);
      assert chars[..2 * (i + 1)] == chars[..2 * i] + [chars[2 * i], chars[2 * i + 1]];
    }
    assert id[..12] == id;
    text := chars[..24];
  }

  predicate IsHex(s: Text) {
    forall i :: 0 <= i < |s| ==> DigitValue(s[i]).Some?
  }

  // The byte that the digits 2i and 2i + 1 denote.
  function ByteAt(s: Text, i: nat): Byte
    requires IsHex(s) && 2 * i + 1 < |s|
  {
    DigitBound(s[2 * i]);
    DigitBound(s[2 * i + 1]);
    DigitValue(s[2 * i]).value * 16 + DigitValue(s[2 * i + 1]).value
  }

  lemma DigitBound(c: Byte)
    ensures DigitValue(c).Some? ==> DigitValue(c).value < 16
  {
  }

  // The constructor on a string. None stands for the exceptions.
  method FromString(s: Text) returns (id: Option<ObjectId>)
    ensures id.Some? <==> |s| == 24 && IsHex(s)
    ensures id.Some? ==> forall i :: 0 <= i < 12 ==> id.value[i] == ByteAt(s, i)
  {
    if |s| != 24 {
      return None;
    }
    var valid := true;
    for i := 0 to 24
      invariant valid <==> forall k :: 0 <= k < i ==> DigitValue(s[k]).Some?
    {
      valid := valid && DigitValue(s[i]).Some?;
    }
    if !valid {
      return None;
    }
    var bytes := new Byte[12](_ => 0);
    for i := 0 to 12
      invariant forall k :: 0 <= k < i ==> bytes[k] == ByteAt(s, k)
    {
      bytes[i] := ByteAt(s, i);
    }
    id := Some(bytes[..]);
  }

  lemma DigitUndone(n: nat)
    requires n < 16
    ensures DigitValue(HexDigit(n)) == Some(n)
  {
  }

  lemma {:induction false} DigitsAt(s: seq<Byte>, i: nat)
    requires i < |s|
    ensures Digits(s)[2 * i] == HexDigit(s[i] / 16) && Digits(s)[2 * i + 1] == HexDigit(s[i] % 16)
  {
    if i < |s| - 1 {
      DigitsAt(s[..|s| - 1], i);
    }
  }

  // The hexadecimal text of an id is read back as the same id.
  lemma TextRoundTrip(id: ObjectId)
    ensures |Digits(id)| == 24 && IsHex(Digits(id))
    ensures forall i :: 0 <= i < 12 ==> ByteAt(Digits(id), i) == id[i]
  {
    var s := Digits(id);
    hide Digits, HexDigit, DigitValue;
    forall k | 0 <= k < 24 ensures DigitValue(s[k]).Some? {
      DigitsAt(id, k / 2);
      DigitUndone(id[k / 2] / 16);
      DigitUndone(id[k / 2] % 16);
    }
    forall i | 0 <= i < 12 ensures ByteAt(s, i) == id[i] {
      DigitsAt(id, i);
      DigitUndone(id[i] / 16);
      DigitUndone(id[i] % 16);
    }
  }
}
