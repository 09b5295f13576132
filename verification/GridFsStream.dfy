// The seekable stream over a GridFS file, which caches one chunk.
module GridFsStream {
  import opened Bytes
  import opened GridFs

  function Min(a: int, b: int): int {
    if a > b then b else a
  }

  datatype Whence = Set | Current | End

  function Target(move: int, whence: Whence, offset: int, size: int): int {
    match whence
    case Set => move
    case Current => offset + move
    case End => size + move
  }

  class Stream {
    var chunks: map<nat, seq<Byte>>   // the chunks collection, for this file
    var offset: nat                   // position in the file
    var size: int
    var chunkSize: int
    var totalChunks: int
    var chunkId: int                  // the cached chunk, -1 before the first read
    var buffer: array<Byte>           // its bytes
    var bufferSize: int
    var bufferOffset: nat
    ghost var file: seq<Byte>

    // The collection holds the chunks of the file.
    ghost predicate Stored()
      reads this
    {
      && chunkSize > 0
      && (forall n: nat :: FindOne(n) == ChunkAt(file, chunkSize, n))
      && size == |file|
      && totalChunks == Quot(size, chunkSize)
    }

    // The buffer holds the cached chunk, and its offset agrees with the
    // position in the file modulo the chunk size.
    ghost predicate Cached()
      reads this, buffer
    {
      && chunkSize > 0
      && buffer.Length == chunkSize + 1
      && (chunkId != -1 ==>
            && chunkId >= 0 && FindOne(chunkId).Some?
            && bufferSize == |FindOne(chunkId).value| <= chunkSize
            && buffer[..bufferSize] == FindOne(chunkId).value
            && Rem(bufferOffset, chunkSize) == Rem(offset, chunkSize))
    }

    ghost predicate Valid()
      reads this, buffer
    {
      Stored() && Cached() && offset <= size
    }

    // The chunk document with this number.
    function FindOne(n: nat): Option<seq<Byte>>
      reads this
    {
      if n in chunks then Some(chunks[n]) else None
    }

    // gridfs_stream_init. The chunk count is the floor of an integer division.
    constructor (collection: map<nat, seq<Byte>>, length: int, chunk: int, ghost content: seq<Byte>)
      requires chunk > 0 && length == |content|
      requires forall n: nat :: (if n in collection then Some(collection[n]) else None) == ChunkAt(content, chunk, n)
      ensures Valid() && fresh(buffer) && offset == 0 && file == content && chunkSize == chunk
    {
      chunks, size, chunkSize, file := collection, length, chunk, content;
      offset, chunkId, bufferSize, bufferOffset := 0, -1, 0, 0;
      totalChunks := Quot(length, chunk);
      buffer := new Byte[chunk + 1];
    }

    // gridfs_read_chunk: false when there is no such chunk or it is too long.
    method ReadChunk(id: int) returns (ok: bool)
      requires Cached() && id >= -1
      modifies this`chunkId, this`bufferSize, this`bufferOffset, buffer
      ensures Cached()
      ensures var k := if id == -1 then Quot(offset, chunkSize) else id;
              ok <==> old(chunkId) == k || (FindOne(k).Some? && |FindOne(k).value| <= chunkSize)
      ensures ok ==> chunkId == (if id == -1 then Quot(offset, chunkSize) else id)
      ensures !ok ==> chunkId == old(chunkId)
    {
      hide Quot, Rem;
      var k := id;
      if k == -1 {
        k := Quot(offset, chunkSize);
      }
      if k == chunkId {
        return true;
      }
      var chunk := FindOne(k);
      if chunk.None? {
        return false;
      }
      if |chunk.value| > chunkSize {
        return false;
      }
      forall i | 0 <= i < |chunk.value| {
        buffer[i] := chunk.value[i];
      }
      bufferSize := |chunk.value|;
      chunkId := k;
      bufferOffset := Rem(offset, chunkSize);
      RemOfRem(offset, chunkSize);
      return true;
    }

    // The copy of len bytes of the buffer, from offset at, to buf at offset to.
    method CopyOut(buf: array<Byte>, to: nat, at: nat, len: nat)
      requires at + len <= buffer.Length && to + len <= buf.Length && buf != buffer
      modifies buf
      ensures buf[..to + len] == old(buf[..to]) + buffer[..][at..at + len]
    {
      forall i | 0 <= i < len {
        buf[to + i] := buffer[at + i];
      }
    }

    // The first half of gridfs_read: bytes of the chunk at the offset.
    method ReadCurrent(buf: array<Byte>, count: nat) returns (n: int)
      requires Valid() && count <= buf.Length && buf != buffer
      modifies this`chunkId, this`bufferSize, this`bufferOffset, buffer, buf
      ensures Valid()
      ensures var c := ChunkAt(file, chunkSize, Quot(offset, chunkSize));
              (c.None? ==> n == -1 && buf[..] == old(buf[..])) &&
              (c.Some? ==> n == Min(count, |c.value| - Rem(offset, chunkSize)) && 0 <= n && offset + n <= size
                           && buf[..n] == file[offset..offset + n])
    {
      hide ChunkAt, Available, Quot, Rem;
      ReadPlan(file, chunkSize, offset);
      var id := Quot(offset, chunkSize);
      var ok := ReadChunk(id);
      if !ok {
        return -1;
      }
      var at := Rem(bufferOffset, chunkSize);
      n := Min(count, bufferSize - at);
      CurrentIs(buffer[..], FindOne(id).value, file, at, n, offset);
      CopyOut(buf, 0, at, n);
      assert buf[..0 + n] == buf[..n];
    }

    static lemma CurrentIs(whole: seq<Byte>, chunk: seq<Byte>, file: seq<Byte>, at: nat, n: nat, offset: nat)
      requires at + n <= |chunk| <= |whole| && whole[..|chunk|] == chunk && offset + (|chunk| - at) <= |file|
      requires chunk[at..] == file[offset..offset + (|chunk| - at)]
      ensures whole[at..at + n] == file[offset..offset + n]
    {
      var copied, wanted, rest := whole[at..at + n], file[offset..offset + n], file[offset..offset + (|chunk| - at)];
      forall i | 0 <= i < n ensures copied[i] == wanted[i] {
        assert copied[i] == whole[at + i] == whole[..|chunk|][at + i] == chunk[at..][i] == rest[i];
      }
    }

    static lemma Glue(file: seq<Byte>, next: seq<Byte>, offset: nat, n: nat, more: nat)
      requires more <= |next| && offset + n + |next| <= |file|
      requires next == file[offset + n..offset + n + |next|]
      ensures file[offset..offset + n] + next[..more] == file[offset..offset + n + more]
    {
    }

    // The second half: bytes of the chunk after it, at position n of buf.
    method ReadNext(buf: array<Byte>, id: nat, n: nat, count: nat) returns (m: int)
      requires Valid() && n < count <= buf.Length && buf != buffer
      requires FindOne(id).Some? && |FindOne(id).value| == chunkSize && offset + n + chunkSize <= size
      requires FindOne(id).value == file[offset + n..offset + n + chunkSize]
      requires buf[..n] == file[offset..offset + n]
      modifies this`chunkId, this`bufferSize, this`bufferOffset, buffer, buf
      ensures Valid()
      ensures m == Min(count, n + chunkSize)
      ensures buf[..m] == file[offset..offset + m]
    {
      hide ChunkAt, Quot, Rem;
      var ok := ReadChunk(id);
      if !ok {
        return -1;
      }
      ghost var next := FindOne(id).value;
      var more := Min(count - n, bufferSize);
      Front(buffer[..], next, more);
      Glue(file, next, offset, n, more);
      CopyOut(buf, n, 0, more);
      m := n + more;
    }

    static lemma Front(whole: seq<Byte>, next: seq<Byte>, more: nat)
      requires more <= |next| <= |whole| && whole[..|next|] == next
      ensures whole[0..0 + more] == next[..more]
    {
    }

    // gridfs_read: the number of bytes delivered into buf, or -1.
    method Read(buf: array<Byte>, count: nat) returns (n: int)
      requires Valid() && count <= buf.Length && buf != buffer
      modifies this`chunkId, this`bufferSize, this`bufferOffset, this`offset, buffer, buf
      ensures Valid()
      ensures n == var a := Available(file, chunkSize, old(offset)); if a == -1 then -1 else Min(count, a)
      ensures n == -1 ==> offset == old(offset) && buf[..] == old(buf[..])
      ensures n >= 0 ==> offset == old(offset) + n <= size && buf[..n] == file[old(offset)..old(offset) + n]
    {
      hide ChunkAt, Available, Quot, Rem;
      ReadPlan(file, chunkSize, offset);
      n := ReadCurrent(buf, count);
      if n == -1 {
        return;
      }
      if n < count && Quot(offset, chunkSize) + 1 < totalChunks {
        n := ReadNext(buf, Quot(offset, chunkSize) + 1, n, count);
      }
      Advance(n);
    }

    // Move both offsets.
    method Advance(n: nat)
      requires Valid() && offset + n <= size
      modifies this`bufferOffset, this`offset
      ensures Valid() && offset == old(offset) + n
    {
      hide Quot, Rem;
      if chunkId != -1 {
        SameRemainder(bufferOffset, offset, n, chunkSize);
      }
      bufferOffset := bufferOffset + n;
      offset := offset + n;
    }

    // gridfs_seek: false when the target lies behind the end.
    method Seek(target: int, whence: Whence) returns (ok: bool)
      requires Valid() && Target(target, whence, offset, |file|) >= 0
      modifies this`offset, this`bufferOffset
      ensures Valid()
      ensures ok <==> Target(target, whence, old(offset), |file|) <= |file|
      ensures offset == if ok then Target(target, whence, old(offset), |file|) else old(offset)
      ensures whence == Set ==> ok == (target <= |file|) && (ok ==> offset == target)
      ensures whence == Current ==> ok == (old(offset) + target <= |file|) && (ok ==> offset == old(offset) + target)
      ensures whence == End ==> ok == (target <= 0) && (ok ==> offset == |file| + target)
    {
      hide Quot, Rem;
      var newOffset := Target(target, whence, offset, size);
      if newOffset > size {
        return false;
      }
      offset := newOffset;
      if chunkId != -1 {
        bufferOffset := Rem(newOffset, chunkSize);
        RemOfRem(newOffset, chunkSize);
      }
      return true;
    }
  }

  // ----- Whole runs against a flat file -----

  datatype Op = ReadOp(count: nat) | SeekOp(move: int, whence: Whence)
  datatype Outcome = Got(data: seq<Byte>) | Failed | Moved(ok: bool)

  // What one operation does on a flat file: the outcome and the new offset.
  function FlatOp(file: seq<Byte>, chunkSize: nat, offset: nat, op: Op): (r: (Outcome, nat))
    requires chunkSize > 0 && offset <= |file|
    requires op.SeekOp? ==> Target(op.move, op.whence, offset, |file|) >= 0
    ensures r.1 <= |file|
  {
    match op
    case ReadOp(count) =>
      AvailableBounds(file, chunkSize, offset);
      var a := Available(file, chunkSize, offset);
      if a == -1 then (Failed, offset) else (Got(file[offset..offset + Min(count, a)]), offset + Min(count, a))
    case SeekOp(move, whence) =>
      var t := Target(move, whence, offset, |file|);
      if t <= |file| then (Moved(true), t) else (Moved(false), offset)
  }

  // Where a seek inside the file leads, from the start, from the offset and from
  // the end.
  lemma SeekLeads(file: seq<Byte>, chunkSize: nat, offset: nat, move: int)
    requires chunkSize > 0 && offset <= |file|
    ensures 0 <= move <= |file| ==> FlatOp(file, chunkSize, offset, SeekOp(move, Set)) == (Moved(true), move)
    ensures 0 <= offset + move <= |file| ==>
              FlatOp(file, chunkSize, offset, SeekOp(move, Current)) == (Moved(true), offset + move)
    ensures -|file| <= move <= 0 ==>
              FlatOp(file, chunkSize, offset, SeekOp(move, End)) == (Moved(true), |file| + move)
  {
  }

  // Behind the end no seek leads anywhere.
  lemma SeekBehindEnd(file: seq<Byte>, chunkSize: nat, offset: nat, move: int)
    requires chunkSize > 0 && offset <= |file|
    ensures move > |file| ==> FlatOp(file, chunkSize, offset, SeekOp(move, Set)) == (Moved(false), offset)
    ensures offset + move > |file| ==>
              FlatOp(file, chunkSize, offset, SeekOp(move, Current)) == (Moved(false), offset)
    ensures move > 0 ==> FlatOp(file, chunkSize, offset, SeekOp(move, End)) == (Moved(false), offset)
  {
  }

  // A read inside the file gives as many bytes as were asked for and are
  // available, and moves behind them.
  lemma ReadGives(file: seq<Byte>, chunkSize: nat, offset: nat, count: nat)
    requires chunkSize > 0 && offset < |file|
    ensures var n := Available(file, chunkSize, offset);
            && (count <= n ==>
                  && offset + count <= |file|
                  && FlatOp(file, chunkSize, offset, ReadOp(count))
                     == (Got(file[offset..offset + count]), offset + count))
            && (count > n ==>
                  && 0 < n <= |file| - offset
                  && FlatOp(file, chunkSize, offset, ReadOp(count)) == (Got(file[offset..offset + n]), offset + n))
  {
    hide Available;
    AvailableBounds(file, chunkSize, offset);
  }

  // No seek of the run aims before the start of the file.
  ghost predicate Legal(file: seq<Byte>, chunkSize: nat, offset: nat, ops: seq<Op>)
    requires chunkSize > 0 && offset <= |file|
    decreases |ops|
  {
    ops == [] ||
    ((ops[0].SeekOp? ==> Target(ops[0].move, ops[0].whence, offset, |file|) >= 0)
     && Legal(file, chunkSize, FlatOp(file, chunkSize, offset, ops[0]).1, ops[1..]))
  }

  ghost function FlatRun(file: seq<Byte>, chunkSize: nat, offset: nat, ops: seq<Op>): seq<Outcome>
    requires chunkSize > 0 && offset <= |file| && Legal(file, chunkSize, offset, ops)
    decreases |ops|
  {
    if ops == [] then []
    else
      var r := FlatOp(file, chunkSize, offset, ops[0]);
      [r.0] + FlatRun(file, chunkSize, r.1, ops[1..])
  }

  method Apply(s: Stream, op: Op) returns (o: Outcome)
    requires s.Valid() && (op.SeekOp? ==> Target(op.move, op.whence, s.offset, |s.file|) >= 0)
    modifies s, s.buffer
    ensures s.Valid() && s.file == old(s.file) && s.chunkSize == old(s.chunkSize) && s.buffer == old(s.buffer)
    ensures (o, s.offset) == FlatOp(s.file, s.chunkSize, old(s.offset), op)
  {
    hide Available, ChunkAt, Quot, Rem;
    match op
    case ReadOp(count) =>
      var buf := new Byte[count];
      AvailableBounds(s.file, s.chunkSize, s.offset);
      var n := s.Read(buf, count);
      o := if n == -1 then Failed else Got(buf[..n]);
    case SeekOp(move, whence) =>
      var ok := s.Seek(move, whence);
      o := Moved(ok);
  }

  // Over every run of reads and seeks the stream behaves like the flat file:
  // the cached chunk never shows.
  method Run(s: Stream, ops: seq<Op>) returns (outcomes: seq<Outcome>)
    requires s.Valid() && Legal(s.file, s.chunkSize, s.offset, ops)
    modifies s, s.buffer
    ensures s.Valid() && outcomes == FlatRun(old(s.file), old(s.chunkSize), old(s.offset), ops)
    decreases |ops|
  {
    hide FlatOp;
    if ops == [] {
      return [];
    }
    var o := Apply(s, ops[0]);
    var rest := Run(s, ops[1..]);
    outcomes := [o] + rest;
  }
}
