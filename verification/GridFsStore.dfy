// Storing a string as chunks, with rollback, and loading it back.
module GridFsStore {
  import opened Bytes
  import opened GridFs
  import opened GridFsStream
  import opened Lists
  import Document

  type Id = Document.ObjectId

  datatype Chunk = Chunk(filesId: Id, n: nat, data: seq<Byte>)

  // The answers of the server during one store: which inserts fail, the _id
  // each inserted chunk gets, and whether getlasterror and the insert of the
  // file document succeed.
  datatype Server = Server(fails: nat -> bool, ids: nat -> Id, lastErrorOk: bool, fileOk: bool)

  // get_chunk_size: a missing or non-positive size gives way to the default.
  function GetChunkSize(given: Option<int>, default: int): (r: int)
    ensures default > 0 ==> r > 0
    ensures given.Some? && given.value > 0 ==> r == given.value
    ensures r != default ==> given == Some(r)
  {
    match given
    case None => default
    case Some(size) => if size > 0 then size else default
  }

  // No id that a chunk of the file gets is in use, and no two are equal.
  ghost predicate NewIds(server: Server, docs: map<Id, Chunk>, bytes: seq<Byte>, chunkSize: nat)
    requires chunkSize > 0
  {
    && (forall k: nat :: ChunkAt(bytes, chunkSize, k).Some? ==> server.ids(k) !in docs)
    && (forall j: nat, k: nat :: j < k && ChunkAt(bytes, chunkSize, k).Some? ==> server.ids(j) != server.ids(k))
  }

  // docs is was, and the chunks of the file from the front under these ids.
  ghost predicate Holds(docs: map<Id, Chunk>, was: map<Id, Chunk>, ids: seq<Id>, filesId: Id, bytes: seq<Byte>,
                        chunkSize: nat)
    requires chunkSize > 0
  {
    && (forall i :: i in docs <==> i in was || i in ids)
    && (forall i :: i in was ==> i !in ids && docs[i] == was[i])
    && (forall k :: 0 <= k < |ids| ==> docs[ids[k]].filesId == filesId && docs[ids[k]].n == k)
    && (forall k :: 0 <= k < |ids| ==> ChunkAt(bytes, chunkSize, k) == Some(docs[ids[k]].data))
  }

  // The next chunk under an id that is not in use.
  lemma HoldsNext(docs: map<Id, Chunk>, was: map<Id, Chunk>, ids: seq<Id>, filesId: Id, bytes: seq<Byte>,
                  chunkSize: nat, id: Id, data: seq<Byte>)
    requires chunkSize > 0 && Holds(docs, was, ids, filesId, bytes, chunkSize)
    requires id !in was && id !in ids && ChunkAt(bytes, chunkSize, |ids|) == Some(data)
    ensures Holds(docs[id := Chunk(filesId, |ids|, data)], was, ids + [id], filesId, bytes, chunkSize)
  {
    hide ChunkAt;
  }

  // All chunks of the file are there.
  ghost predicate Complete(ids: seq<Id>, bytes: seq<Byte>, chunkSize: nat)
    requires chunkSize > 0
  {
    forall k: nat :: ChunkAt(bytes, chunkSize, k).Some? <==> k < |ids|
  }

  class Collection {
    var docs: map<Id, Chunk>

    constructor ()
      ensures docs == map[]
    {
      docs := map[];
    }

    // insert_chunk: the id of the new chunk, or None when the insert fails.
    method InsertChunk(filesId: Id, n: nat, data: seq<Byte>, server: Server) returns (id: Option<Id>)
      modifies this
      ensures id == if server.fails(n) then None else Some(server.ids(n))
      ensures docs == if server.fails(n) then old(docs) else old(docs)[server.ids(n) := Chunk(filesId, n, data)]
    {
      if server.fails(n) {
        return None;
      }
      docs := docs[server.ids(n) := Chunk(filesId, n, data)];
      return Some(server.ids(n));
    }

    // cleanup_stale_chunks: remove every chunk that was inserted.
    method Cleanup(ids: seq<Id>, ghost was: map<Id, Chunk>, ghost filesId: Id, ghost bytes: seq<Byte>,
                   ghost chunkSize: nat)
      requires chunkSize > 0 && Holds(docs, was, ids, filesId, bytes, chunkSize)
      modifies this
      ensures docs == was
    {
      hide ChunkAt;
      for j := 0 to |ids|
        invariant forall i :: i in docs ==> i in was || i in ids[j..]
        invariant forall i :: i in was ==> i in docs && i !in ids && docs[i] == was[i]
      {
        docs := docs - {ids[j]};
      }
    }

    // storeBytes: the ids of the chunks, or None after everything stored has
    // been taken back.
    method StoreBytes(filesId: Id, bytes: seq<Byte>, given: Option<int>, default: int, server: Server)
      returns (stored: Option<seq<Id>>)
      requires default > 0 && NewIds(server, docs, bytes, GetChunkSize(given, default))
      modifies this
      ensures stored.Some? ==> Holds(docs, old(docs), stored.value, filesId, bytes, GetChunkSize(given, default))
      ensures stored.Some? ==> Complete(stored.value, bytes, GetChunkSize(given, default))
      ensures stored.None? ==> docs == old(docs)
      ensures stored.Some? <==>
              server.lastErrorOk && server.fileOk
              && forall k: nat :: ChunkAt(bytes, GetChunkSize(given, default), k).Some? ==> !server.fails(k)
    {
      hide ChunkAt, Reach, Holds;
      var globalSize := GetChunkSize(given, default);
      ReachStart(bytes, globalSize);
      HoldsNothing(docs, filesId, bytes, globalSize);
      var pos, num := 0, 0;
      var ids: seq<Id> := [];
      while pos < |bytes|
        invariant num == |ids| && 0 <= pos <= |bytes|
        invariant pos == Reach(bytes, globalSize, num)
        invariant Holds(docs, old(docs), ids, filesId, bytes, globalSize)
        invariant forall k :: 0 <= k < |ids| ==> ids[k] == server.ids(k) && !server.fails(k)
        invariant forall k :: 0 <= k < |ids| ==> ChunkAt(bytes, globalSize, k).Some?
        decreases |bytes| - pos
      {
        var chunkSize := if |bytes| - pos >= globalSize then globalSize else |bytes| - pos;
        StoreStep(bytes, globalSize, num);
        HoldsNext(docs, old(docs), ids, filesId, bytes, globalSize, server.ids(num), bytes[pos..pos + chunkSize]);
        var id := InsertChunk(filesId, num, bytes[pos..pos + chunkSize], server);
        if id.None? {
          Cleanup(ids, old(docs), filesId, bytes, globalSize);
          return None;
        }
        ids := ids + [id.value];
        pos := pos + chunkSize;
        num := num + 1;
      }
      StoreDone(bytes, globalSize, num);
      if !server.lastErrorOk || !server.fileOk {
        Cleanup(ids, old(docs), filesId, bytes, globalSize);
        return None;
      }
      return Some(ids);
    }
  }

  lemma HoldsNothing(docs: map<Id, Chunk>, filesId: Id, bytes: seq<Byte>, chunkSize: nat)
    requires chunkSize > 0
    ensures Holds(docs, docs, [], filesId, bytes, chunkSize)
  {
  }

  // How far the first k chunks of a file reach.
  function Reach(bytes: seq<Byte>, chunkSize: nat, k: nat): (n: nat)
    ensures n <= |bytes|
  {
    Forward(k, chunkSize);
    if k * chunkSize < |bytes| then k * chunkSize else |bytes|
  }

  lemma ReachStart(bytes: seq<Byte>, chunkSize: nat)
    ensures Reach(bytes, chunkSize, 0) == 0
  {
  }

  // One turn of the loop writes the next chunk.
  lemma StoreStep(bytes: seq<Byte>, chunkSize: nat, num: nat)
    requires chunkSize > 0 && Reach(bytes, chunkSize, num) < |bytes|
    ensures var pos := Reach(bytes, chunkSize, num);
            var size := if |bytes| - pos >= chunkSize then chunkSize else |bytes| - pos;
            ChunkAt(bytes, chunkSize, num) == Some(bytes[pos..pos + size])
            && pos + size == Reach(bytes, chunkSize, num + 1)
  {
    Forward(num, chunkSize);
  }

  lemma StoreDone(bytes: seq<Byte>, chunkSize: nat, num: nat)
    requires chunkSize > 0 && Reach(bytes, chunkSize, num) == |bytes|
    ensures forall k: nat :: k >= num ==> ChunkAt(bytes, chunkSize, k).None?
  {
    forall k: nat | k >= num
      ensures ChunkAt(bytes, chunkSize, k).None?
    {
      LessMul(num, k, chunkSize);
    }
  }

  // ----- Loading -----

  lemma ChunkInside(bytes: seq<Byte>, chunkSize: nat, k: nat)
    requires chunkSize > 0
    ensures ChunkAt(bytes, chunkSize, k).Some? <==> Reach(bytes, chunkSize, k) < |bytes|
  {
  }

  // The first chunks put together are the file as far as they reach.
  lemma {:induction false} ChunksConcat(parts: seq<seq<Byte>>, bytes: seq<Byte>, chunkSize: nat)
    requires chunkSize > 0
    requires forall k :: 0 <= k < |parts| ==> ChunkAt(bytes, chunkSize, k) == Some(parts[k])
    ensures Flatten(parts) == bytes[..Reach(bytes, chunkSize, |parts|)]
  {
    hide ChunkAt, Reach;
    if parts == [] {
      ReachStart(bytes, chunkSize);
    } else {
      var k := |parts| - 1;
      ChunksConcat(parts[..k], bytes, chunkSize);
      ChunkInside(bytes, chunkSize, k);
      StoreStep(bytes, chunkSize, k);
    }
  }

  lemma AllChunksConcat(parts: seq<seq<Byte>>, bytes: seq<Byte>, chunkSize: nat)
    requires chunkSize > 0
    requires forall k :: 0 <= k < |parts| ==> ChunkAt(bytes, chunkSize, k) == Some(parts[k])
    requires ChunkAt(bytes, chunkSize, |parts|).None?
    ensures Flatten(parts) == bytes
  {
    hide ChunkAt, Reach;
    ChunksConcat(parts, bytes, chunkSize);
    ChunkInside(bytes, chunkSize, |parts|);
    assert bytes[..|bytes|] == bytes;
  }

  // A cursor over the chunks of one file, sorted by number.
  ghost predicate Sorted(q: seq<Chunk>, docs: map<Id, Chunk>, filesId: Id) {
    && (forall k :: 0 <= k < |q| ==> q[k].filesId == filesId && exists i :: i in docs && docs[i] == q[k])
    && (forall i :: i in docs && docs[i].filesId == filesId ==> docs[i] in q)
    && (forall j, k :: 0 <= j < k < |q| ==> q[j].n < q[k].n)
  }

  // The sorted chunks of a stored file are its chunks 0, 1, 2, ...
  lemma StoredInOrder(q: seq<Chunk>, docs: map<Id, Chunk>, was: map<Id, Chunk>, ids: seq<Id>, filesId: Id,
                      bytes: seq<Byte>, chunkSize: nat)
    requires chunkSize > 0 && Holds(docs, was, ids, filesId, bytes, chunkSize) && Complete(ids, bytes, chunkSize)
    requires forall i :: i in was ==> was[i].filesId != filesId
    requires Sorted(q, docs, filesId)
    ensures |q| == |ids|
    ensures forall k :: 0 <= k < |q| ==> ChunkAt(bytes, chunkSize, k) == Some(q[k].data)
  {
    hide ChunkAt;
    forall k | 0 <= k < |ids|
      ensures docs[ids[k]] in q
    {
      assert ids[k] in docs;
    }
    forall k | 0 <= k < |q|
      ensures 0 <= q[k].n < |ids| && q[k] == docs[ids[q[k].n]]
    {
      var i :| i in docs && docs[i] == q[k];
      assert i in ids;
    }
    Increasing(q, docs, ids);
  }

  // Strictly increasing numbers that are exactly those below |ids| stand each
  // at its own position.
  lemma Increasing(q: seq<Chunk>, docs: map<Id, Chunk>, ids: seq<Id>)
    requires forall i :: i in ids ==> i in docs
    requires forall k :: 0 <= k < |ids| ==> docs[ids[k]].n == k && docs[ids[k]] in q
    requires forall k :: 0 <= k < |q| ==> 0 <= q[k].n < |ids| && q[k] == docs[ids[q[k].n]]
    requires forall j, k :: 0 <= j < k < |q| ==> q[j].n < q[k].n
    ensures |q| == |ids|
    ensures forall k :: 0 <= k < |q| ==> q[k] == docs[ids[k]]
  {
    for k := 0 to |ids|
      invariant k <= |q|
      invariant forall j :: 0 <= j < k ==> q[j].n == j
    {
      var j :| 0 <= j < |q| && q[j] == docs[ids[k]];
      AtLeastIndex(q, j);
      AtLeastIndex(q, k);
    }
    if |q| > |ids| {
      AtLeastIndex(q, |ids|);
    }
  }

  lemma {:induction false} AtLeastIndex(q: seq<Chunk>, k: nat)
    requires k < |q|
    requires forall i, j :: 0 <= i < j < |q| ==> q[i].n < q[j].n
    ensures q[k].n >= k
  {
    if k > 0 {
      AtLeastIndex(q, k - 1);
    }
  }

  function Contents(q: seq<Chunk>): (parts: seq<seq<Byte>>)
    ensures |parts| == |q|
  {
    seq(|q|, k requires 0 <= k < |q| => q[k].data)
  }

  lemma {:induction false} ConcatGrows(parts: seq<seq<Byte>>, k: nat)
    requires k <= |parts|
    ensures |Flatten(parts[..k])| <= |Flatten(parts)|
  {
    if k < |parts| {
      var last := |parts| - 1;
      ConcatGrows(parts[..last], k);
      assert parts[..last][..k] == parts[..k];
    } else {
      assert parts[..k] == parts;
    }
  }

  // apply_to_cursor with copy_bytes: copy chunk after chunk to str, which has
  // room for max bytes. None stands for the exception thrown when the chunks
  // hold more than that.
  method ApplyToCursor(q: seq<Chunk>, str: array<Byte>, max: nat) returns (total: Option<nat>)
    requires max <= str.Length
    modifies str
    ensures total.None? <==> |Flatten(Contents(q))| > max
    ensures total.Some? ==> total.value == |Flatten(Contents(q))| && str[..total.value] == Flatten(Contents(q))
  {
    var parts, at := Contents(q), 0;
    for k := 0 to |q|
      invariant 0 <= at <= max && str[..at] == Flatten(parts[..k])
    {
      assert parts[..k + 1][..k] == parts[..k];
      ConcatGrows(parts, k + 1);
      var data := q[k].data;
      if at + |data| > max {
        return None;
      }
      forall i | 0 <= i < |data| {
        str[at + i] := data[i];
      }
      assert str[..at + |data|] == str[..at] + data;
      at := at + |data|;
    }
    assert parts[..|q|] == parts;
    return Some(at);
  }

  // getBytes: the first length bytes of the chunks, one byte more being let
  // through by the size check. Bytes that no chunk supplies are left as they
  // were in memory.
  method GetBytes(q: seq<Chunk>, length: nat) returns (r: Option<seq<Byte>>)
    ensures r.None? <==> |Flatten(Contents(q))| > length + 1
    ensures r.Some? ==> |r.value| == length
    ensures r.Some? && |Flatten(Contents(q))| >= length ==> r.value == Flatten(Contents(q))[..length]
    ensures r.Some? && |Flatten(Contents(q))| < length ==> r.value[..|Flatten(Contents(q))|] == Flatten(Contents(q))
  {
    hide Flatten;
    var str := new Byte[length + 1];
    var total := ApplyToCursor(q, str, length + 1);
    if total.None? {
      return None;
    }
    str[length] := 0;
    return Some(str[..length]);
  }

  // ----- The file document -----

  datatype FileDoc = FileDoc(length: int, chunkSize: int)

  // The document stored for the file: a length and a chunk size that were given
  // stay as they are.
  function FileOf(bytes: seq<Byte>, givenLength: Option<int>, given: Option<int>, default: int): FileDoc {
    FileDoc(if givenLength.Some? then givenLength.value else |bytes|, if given.Some? then given.value else default)
  }

  // It names the size of the chunks that were stored exactly when a given size
  // is positive.
  lemma NamesSizeIff(bytes: seq<Byte>, givenLength: Option<int>, given: Option<int>, default: int)
    requires default > 0
    ensures FileOf(bytes, givenLength, given, default).chunkSize == GetChunkSize(given, default)
       <==> given.None? || given.value > 0
  {
  }

  // What was stored is what is loaded, whatever order the collection keeps,
  // exactly when the length in the file document is that of the bytes.
  method LoadStored(c: Collection, filesId: Id, bytes: seq<Byte>, length: nat, given: Option<int>, default: int,
                    ghost was: map<Id, Chunk>, ids: seq<Id>, q: seq<Chunk>) returns (r: Option<seq<Byte>>)
    requires default > 0 && forall i :: i in was ==> was[i].filesId != filesId
    requires Holds(c.docs, was, ids, filesId, bytes, GetChunkSize(given, default))
    requires Complete(ids, bytes, GetChunkSize(given, default))
    requires Sorted(q, c.docs, filesId)
    ensures r == Some(bytes) <==> length == |bytes|
  {
    hide ChunkAt, Flatten;
    StoredInOrder(q, c.docs, was, ids, filesId, bytes, GetChunkSize(given, default));
    AllChunksConcat(Contents(q), bytes, GetChunkSize(given, default));
    r := GetBytes(q, length);
    assert bytes[..|bytes|] == bytes;
  }

  // The answers of the collection when it is asked for a chunk of the file by
  // its number.
  ghost predicate Answers(chunks: map<nat, seq<Byte>>, docs: map<Id, Chunk>, filesId: Id) {
    && (forall i :: i in docs && docs[i].filesId == filesId ==> docs[i].n in chunks)
    && (forall n :: n in chunks ==> exists i :: i in docs && docs[i] == Chunk(filesId, n, chunks[n]))
  }

  lemma AnswersAreChunks(chunks: map<nat, seq<Byte>>, docs: map<Id, Chunk>, was: map<Id, Chunk>, ids: seq<Id>,
                         filesId: Id, bytes: seq<Byte>, chunkSize: nat, n: nat)
    requires chunkSize > 0 && Holds(docs, was, ids, filesId, bytes, chunkSize) && Complete(ids, bytes, chunkSize)
    requires forall i :: i in was ==> was[i].filesId != filesId
    requires Answers(chunks, docs, filesId)
    ensures (if n in chunks then Some(chunks[n]) else None) == ChunkAt(bytes, chunkSize, n)
  {
    hide ChunkAt;
    if n in chunks {
      var i :| i in docs && docs[i] == Chunk(filesId, n, chunks[n]);
      assert i in ids;
    }
  }

  // gridfs_stream_init on a stored file, whose length is that of its bytes: null
  // when the chunk size in its document is 0, by which the code divides, or
  // negative. The stream over the bytes is opened exactly when no chunk size was
  // given or a positive one.
  method OpenStored(c: Collection, filesId: Id, ghost bytes: seq<Byte>, given: Option<int>, default: int, file: FileDoc,
                    chunks: map<nat, seq<Byte>>, ghost was: map<Id, Chunk>, ghost ids: seq<Id>) returns (s: Stream?)
    requires default > 0 && forall i :: i in was ==> was[i].filesId != filesId
    requires Holds(c.docs, was, ids, filesId, bytes, GetChunkSize(given, default))
    requires Complete(ids, bytes, GetChunkSize(given, default))
    requires Answers(chunks, c.docs, filesId)
    requires file == FileOf(bytes, Some(|bytes|), given, default)
    ensures s != null <==> given.None? || given.value > 0
    ensures s != null ==>
              fresh(s) && s.Valid() && s.file == bytes && s.chunkSize == GetChunkSize(given, default) && s.offset == 0
  {
    ghost var size := GetChunkSize(given, default);
    NamesSizeIff(bytes, Some(|bytes|), given, default);
    forall n: nat ensures (if n in chunks then Some(chunks[n]) else None) == ChunkAt(bytes, size, n) {
      AnswersAreChunks(chunks, c.docs, was, ids, filesId, bytes, size, n);
    }
    hide ChunkAt, Holds, Complete, Answers;
    if file.chunkSize <= 0 {
      return null;
    }
    s := new Stream(chunks, file.length, file.chunkSize, bytes);
  }

  // ----- Storing, and then loading and opening -----

  // The collection's answer to a query for the chunks of the file, sorted by
  // number.
  method FindSorted(c: Collection, filesId: Id, ghost bytes: seq<Byte>, ghost chunkSize: nat, ghost was: map<Id, Chunk>,
                    ids: seq<Id>) returns (q: seq<Chunk>)
    requires chunkSize > 0 && Holds(c.docs, was, ids, filesId, bytes, chunkSize)
    requires forall i :: i in was ==> was[i].filesId != filesId
    ensures Sorted(q, c.docs, filesId)
  {
    hide ChunkAt;
    assert forall k :: 0 <= k < |ids| ==> ids[k] in ids;
    q := seq(|ids|, k requires 0 <= k < |ids| && ids[k] in c.docs reads c => c.docs[ids[k]]);
    SortedIs(q, c.docs, ids, filesId);
  }

  lemma SortedIs(q: seq<Chunk>, docs: map<Id, Chunk>, ids: seq<Id>, filesId: Id)
    requires |q| == |ids|
    requires forall k :: 0 <= k < |ids| ==>
               ids[k] in docs && docs[ids[k]] == q[k] && q[k].filesId == filesId && q[k].n == k
    requires forall i :: i in docs && docs[i].filesId == filesId ==> i in ids
    ensures Sorted(q, docs, filesId)
  {
    forall i | i in docs && docs[i].filesId == filesId ensures docs[i] in q {
      var k :| 0 <= k < |ids| && ids[k] == i;
      assert q[k] == docs[i];
    }
    forall k | 0 <= k < |q| ensures q[k].filesId == filesId && exists i :: i in docs && docs[i] == q[k] {
      assert ids[k] in docs && docs[ids[k]] == q[k];
    }
  }

  // Its answers to queries for one chunk each.
  method FindEach(c: Collection, filesId: Id, ghost bytes: seq<Byte>, ghost chunkSize: nat, ghost was: map<Id, Chunk>,
                  ids: seq<Id>) returns (chunks: map<nat, seq<Byte>>)
    requires chunkSize > 0 && Holds(c.docs, was, ids, filesId, bytes, chunkSize)
    requires forall i :: i in was ==> was[i].filesId != filesId
    ensures Answers(chunks, c.docs, filesId)
  {
    hide ChunkAt;
    assert forall k :: 0 <= k < |ids| ==> ids[k] in ids;
    chunks := map k: nat | k < |ids| :: c.docs[ids[k]].data;
    forall i | i in c.docs && c.docs[i].filesId == filesId ensures c.docs[i].n in chunks {
      assert i in ids;
    }
    forall n | n in chunks ensures exists i :: i in c.docs && c.docs[i] == Chunk(filesId, n, chunks[n]) {
      assert c.docs[ids[n]] == Chunk(filesId, n, chunks[n]);
    }
  }

  // A file stored in a new collection is loaded as it was when the length in its
  // document is true, and can then be opened; a store that fails leaves nothing.
  method StoreAndRead(filesId: Id, bytes: seq<Byte>, givenLength: Option<nat>, given: Option<int>, default: int,
                      server: Server)
    returns (loaded: Option<seq<Byte>>, stream: Stream?, left: map<Id, Chunk>)
    requires default > 0 && NewIds(server, map[], bytes, GetChunkSize(given, default))
    ensures var stores := server.lastErrorOk && server.fileOk
                          && forall k: nat ::
                               ChunkAt(bytes, GetChunkSize(given, default), k).Some? ==> !server.fails(k);
            var isTrue := givenLength.None? || givenLength.value == |bytes|;
            && (loaded == Some(bytes) <==> stores && isTrue)
            && (stream != null <==> stores && isTrue && (given.None? || given.value > 0))
            && (stream != null ==> stream.Valid() && stream.file == bytes && stream.offset == 0)
            && (!stores ==> left == map[])
  {
    hide ChunkAt, Holds, Complete, Sorted, Answers, NewIds;
    loaded, stream := None, null;
    var c := new Collection();
    var stored := c.StoreBytes(filesId, bytes, given, default, server);
    left := c.docs;
    if stored.None? {
      return;
    }
    var ids := stored.value;
    var q := FindSorted(c, filesId, bytes, GetChunkSize(given, default), map[], ids);
    var file := FileOf(bytes, givenLength, given, default);
    loaded := LoadStored(c, filesId, bytes, file.length, given, default, map[], ids, q);
    var chunks := FindEach(c, filesId, bytes, GetChunkSize(given, default), map[], ids);
    if file.length == |bytes| {
      stream := OpenStored(c, filesId, bytes, given, default, file, chunks, map[], ids);
    }
  }

  // Three bytes in chunks of two, under the ids 0 and 1.
  const THREE: seq<Byte> := [1, 2, 3]

  function Numbered(k: nat): Id {
    [k % 256, 0, 0, 0, 0, 0, 0, 0, 0, 0, 0, 0]
  }

  lemma ThreeHasTwoChunks(k: nat)
    ensures ChunkAt(THREE, 2, k).Some? <==> k < 2
  {
  }

  lemma NumberedAreNew(server: Server)
    requires forall k :: server.ids(k) == Numbered(k)
    ensures NewIds(server, map[], THREE, 2)
  {
    hide ChunkAt;
    forall j: nat, k: nat | j < k && ChunkAt(THREE, 2, k).Some? ensures server.ids(j) != server.ids(k) {
      ThreeHasTwoChunks(k);
      assert server.ids(j)[0] == 0 && server.ids(k)[0] == 1;
    }
  }

  // The store of these bytes succeeds, and fails without a trace when the second
  // insert does.
  method StoreThree() returns (loaded: Option<seq<Byte>>, left: map<Id, Chunk>)
    ensures loaded == Some(THREE) && left == map[]
  {
    hide ChunkAt, NewIds;
    var works := Server(k => false, Numbered, true, true);
    var breaks := works.(fails := k => k == 1);
    NumberedAreNew(works);
    NumberedAreNew(breaks);
    ThreeHasTwoChunks(1);
    var stream;
    loaded, stream, left := StoreAndRead(Numbered(7), THREE, None, None, 2, works);
    var nothing;
    nothing, stream, left := StoreAndRead(Numbered(7), THREE, None, None, 2, breaks);
  }
}
