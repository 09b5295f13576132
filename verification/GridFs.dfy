// How GridFS cuts a file into numbered chunks.
module GridFs {
  import opened Bytes
  import opened Division

  // The content of chunk n of a file, if the file reaches that far.
  function ChunkAt(file: seq<Byte>, chunkSize: nat, n: nat): Option<seq<Byte>>
    requires chunkSize > 0
  {
    if n * chunkSize >= |file| then None
    else
      Forward(n, chunkSize);
      var end := if (n + 1) * chunkSize <= |file| then (n + 1) * chunkSize else |file|;
      Some(file[n * chunkSize..end])
  }

  lemma Forward(n: nat, chunkSize: nat)
    ensures 0 <= n * chunkSize && n * chunkSize + chunkSize == (n + 1) * chunkSize
  {
  }

  lemma LessMul(a: nat, b: nat, c: nat)
    requires a <= b
    ensures a * c <= b * c
  {
  }

  // The chunk number of an offset, and the offset inside that chunk. DivMod is
  // all that is used of them.
  function Quot(a: nat, b: nat): nat
    requires b > 0
  {
    DivMod(a, b);
    a / b
  }

  function Rem(a: nat, b: nat): (r: nat)
    requires b > 0
    ensures r < b
  {
    a % b
  }

  lemma QuotRem(a: nat, b: nat)
    requires b > 0
    ensures a == Quot(a, b) * b + Rem(a, b)
  {
    DivMod(a, b);
  }

  lemma RemUnique(a: nat, b: nat, q: nat, r: nat)
    requires b > 0 && a == q * b + r && r < b
    ensures Quot(a, b) == q && Rem(a, b) == r
  {
    DivUnique(a, b, q, r);
  }

  lemma RemOfRem(a: nat, b: nat)
    requires b > 0
    ensures Rem(Rem(a, b), b) == Rem(a, b)
  {
    hide Quot, Rem;
    RemUnique(Rem(a, b), b, 0, Rem(a, b));
  }

  // Offsets that differ by n have remainders that differ by n.
  lemma SameRemainder(a: nat, b: nat, n: nat, m: nat)
    requires m > 0 && Rem(a, m) == Rem(b, m)
    ensures Rem(a + n, m) == Rem(b + n, m)
  {
    hide Quot, Rem;
    QuotRem(a, m);
    QuotRem(b, m);
    QuotRem(a + n, m);
    QuotRem(b + n, m);
    var d := Quot(a + n, m) - Quot(a, m) + Quot(b, m) - Quot(b + n, m);
    MultipleBelow(d, m, Rem(b + n, m) - Rem(a + n, m), Quot(a + n, m), Quot(a, m), Quot(b, m), Quot(b + n, m));
  }

  // A multiple of m that is smaller than m is none.
  lemma MultipleBelow(d: int, m: nat, r: int, q: nat, q0: nat, q1: nat, q2: nat)
    requires m > 0 && 0 - m < r < m && d == q - q0 + q1 - q2
    requires q * m - q0 * m + q1 * m - q2 * m == r
    ensures r == 0
  {
    assert d * m == r;
    if d >= 1 {
      AtLeast(d, m);
    } else if d <= -1 {
      AtLeast(-d, m);
    }
  }

  // The chunk that holds the byte at an offset inside the file.
  lemma ChunkOfOffset(file: seq<Byte>, chunkSize: nat, offset: nat)
    requires chunkSize > 0 && offset < |file|
    ensures var k := Quot(offset, chunkSize);
            var c := ChunkAt(file, chunkSize, k);
            c.Some? && Rem(offset, chunkSize) < |c.value| <= chunkSize
            && c.value[Rem(offset, chunkSize)..] == file[offset..offset - Rem(offset, chunkSize) + |c.value|]
            && offset - Rem(offset, chunkSize) + |c.value| <= |file|
  {
    var k := Quot(offset, chunkSize);
    QuotRem(offset, chunkSize);
    Forward(k, chunkSize);
  }

  // At the end of the file there is a chunk to read from only if the last one is
  // not full.
  lemma ChunkAtEnd(file: seq<Byte>, chunkSize: nat)
    requires chunkSize > 0
    ensures var k := Quot(|file|, chunkSize);
            ChunkAt(file, chunkSize, k).Some? <==> Rem(|file|, chunkSize) != 0
    ensures var k := Quot(|file|, chunkSize);
            Rem(|file|, chunkSize) != 0 ==> |ChunkAt(file, chunkSize, k).value| == Rem(|file|, chunkSize)
  {
    QuotRem(|file|, chunkSize);
    Forward(Quot(|file|, chunkSize), chunkSize);
  }

  // A chunk below the floor of size / chunkSize is a full one, and it follows
  // on the chunk before it.
  lemma NextChunkFull(file: seq<Byte>, chunkSize: nat, k: nat)
    requires chunkSize > 0 && k + 1 < Quot(|file|, chunkSize)
    ensures var a, b := ChunkAt(file, chunkSize, k), ChunkAt(file, chunkSize, k + 1);
            a.Some? && |a.value| == chunkSize && b.Some? && |b.value| == chunkSize
            && k * chunkSize + 2 * chunkSize <= |file|
            && b.value == file[k * chunkSize + chunkSize..k * chunkSize + 2 * chunkSize]
  {
    QuotRem(|file|, chunkSize);
    Forward(k, chunkSize);
    Forward(k + 1, chunkSize);
    LessMul(k + 2, Quot(|file|, chunkSize), chunkSize);
  }

  // How many bytes one read can deliver at most: the rest of the chunk at the
  // offset and, if it lies below the floor of size / chunkSize, the next chunk.
  function Available(file: seq<Byte>, chunkSize: nat, offset: nat): (n: int)
    requires chunkSize > 0
  {
    var k := Quot(offset, chunkSize);
    QuotRem(offset, chunkSize);
    var c := ChunkAt(file, chunkSize, k);
    if c.None? then -1
    else |c.value| - Rem(offset, chunkSize) + (if k + 1 < Quot(|file|, chunkSize) then chunkSize else 0)
  }

  // Before the end there is always something to deliver, and never more than
  // the file has left. At the end a read delivers nothing when the last chunk
  // is partial, and fails when the size is a multiple of the chunk size.
  lemma AvailableBounds(file: seq<Byte>, chunkSize: nat, offset: nat)
    requires chunkSize > 0 && offset <= |file|
    ensures offset < |file| ==> 1 <= Available(file, chunkSize, offset) <= |file| - offset
    ensures offset == |file| ==> Available(file, chunkSize, offset) == if Rem(|file|, chunkSize) == 0 then -1 else 0
  {
    QuotRem(offset, chunkSize);
    if offset < |file| {
      ChunkOfOffset(file, chunkSize, offset);
      if Quot(offset, chunkSize) + 1 < Quot(|file|, chunkSize) {
        NextChunkFull(file, chunkSize, Quot(offset, chunkSize));
      }
    } else {
      ChunkAtEnd(file, chunkSize);
    }
  }

  lemma ChunkEnds(file: seq<Byte>, chunkSize: nat, k: nat)
    requires chunkSize > 0 && 0 <= k * chunkSize < |file|
    ensures ChunkAt(file, chunkSize, k).Some?
    ensures k * chunkSize + |ChunkAt(file, chunkSize, k).value|
         == if (k + 1) * chunkSize <= |file| then (k + 1) * chunkSize else |file|
  {
    Forward(k, chunkSize);
  }

  lemma QuotIs(a: nat, b: nat)
    requires b > 0
    ensures Quot(a, b) == a / b
  {
  }

  // Before the end a read reaches the end of its chunk, or of the file, and one
  // chunk further when that one is full and not the last full one.
  lemma AvailableIs(file: seq<Byte>, chunkSize: nat, offset: nat)
    requires chunkSize > 0 && offset < |file|
    ensures var k, count := offset / chunkSize, |file| / chunkSize;
            offset + Available(file, chunkSize, offset)
            == if k + 1 < count then (k + 2) * chunkSize
               else if (k + 1) * chunkSize <= |file| then (k + 1) * chunkSize
               else |file|
  {
    hide Quot, Rem, ChunkAt;
    QuotIs(offset, chunkSize);
    QuotIs(|file|, chunkSize);
    QuotRem(offset, chunkSize);
    var k := Quot(offset, chunkSize);
    Forward(k, chunkSize);
    Forward(k + 1, chunkSize);
    ChunkEnds(file, chunkSize, k);
    if k + 1 < Quot(|file|, chunkSize) {
      NextChunkFull(file, chunkSize, k);
    }
  }

  // What stands in the two chunks a read may take its bytes from.
  lemma ReadPlan(file: seq<Byte>, chunkSize: nat, offset: nat)
    requires chunkSize > 0 && offset <= |file|
    ensures var k, at := Quot(offset, chunkSize), Rem(offset, chunkSize);
            var c, a := ChunkAt(file, chunkSize, k), Available(file, chunkSize, offset);
            if c.None? then a == -1
            else
              && at <= |c.value| <= chunkSize && offset + (|c.value| - at) <= |file|
              && c.value[at..] == file[offset..offset + (|c.value| - at)]
              && if k + 1 < Quot(|file|, chunkSize) then
                   var d := ChunkAt(file, chunkSize, k + 1);
                   && a == |c.value| - at + chunkSize && d.Some? && |d.value| == chunkSize
                   && offset + a <= |file| && d.value == file[offset + (|c.value| - at)..offset + a]
                 else a == |c.value| - at
  {
    QuotRem(offset, chunkSize);
    AvailableBounds(file, chunkSize, offset);
    if offset < |file| {
      ChunkOfOffset(file, chunkSize, offset);
      if Quot(offset, chunkSize) + 1 < Quot(|file|, chunkSize) {
        NextChunkFull(file, chunkSize, Quot(offset, chunkSize));
      }
    } else {
      ChunkAtEnd(file, chunkSize);
    }
  }
}
