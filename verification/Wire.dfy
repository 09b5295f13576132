// Messages of the MongoDB Wire Protocol: a standard message header, and the body
// of the operations OP_INSERT, OP_UPDATE, OP_DELETE, OP_QUERY, OP_GET_MORE and
// OP_KILL_CURSORS.
module Wire {
  import opened Bytes
  import opened Document
  import opened Bson
  import opened BsonWriter
  import opened Lists

  const OP_UPDATE := 2001
  const OP_INSERT := 2002
  const OP_QUERY := 2004
  const OP_GET_MORE := 2005
  const OP_DELETE := 2006
  const OP_KILL_CURSORS := 2007

  datatype Request =
    | Insert(ns: seq<Byte>, doc: Doc, newId: ObjectId, max: Int32)
    | BatchInsert(ns: seq<Byte>, flags: Int32, docs: seq<BatchEntry>, max: Int32, maxSend: Int32)
    | Update(ns: seq<Byte>, flags: Int32, criteria: Doc, newObject: Doc)
    | Delete(ns: seq<Byte>, flags: Int32, criteria: Doc)
    | Query(ns: seq<Byte>, opts: Int32, skip: Int32, limit: Int32, query: Doc, fields: Doc)
    | GetMore(ns: seq<Byte>, responseTo: Int32, limit: Int32, cursorId: Int64)
    | KillCursors(cursorId: Int64)

  // An entry of a batch: a document, or a scalar, which is passed over.
  datatype BatchEntry = Scalar | Document(doc: Doc, newId: ObjectId)

  // ----- What a message is -----

  // A message: its length, a request id, the request it responds to, the
  // operation, a flag word, and the rest.
  function Message(requestId: int, responseTo: int, op: int, opts: int, body: Option<seq<Byte>>): Option<seq<Byte>> {
    Sized(Prepend(Header(requestId, responseTo, op, opts), body))
  }

  // The header without the length.
  function Header(requestId: int, responseTo: int, op: int, opts: int): (h: seq<Byte>)
    ensures |h| == 16
  {
    Le32(requestId) + Le32(responseTo) + (Le32(op) + Le32(opts))
  }

  // insert_helper: a document that has elements and is not larger than max.
  function InsertedDoc(d: Doc, newId: ObjectId, max: Int32): Option<seq<Byte>> {
    if d.Empty? then None
    else
      var e := PrepDoc(d, newId);
      if e.Some? && |e.value| > max then None else e
  }

  function BatchDocs(docs: seq<BatchEntry>, max: Int32): Option<seq<Byte>> {
    if docs == [] then Some([])
    else if docs[|docs| - 1].Scalar? then BatchDocs(docs[..|docs| - 1], max)
    else Join(BatchDocs(docs[..|docs| - 1], max),
              InsertedDoc(docs[|docs| - 1].doc, docs[|docs| - 1].newId, max))
  }

  predicate HasDocument(docs: seq<BatchEntry>) {
    exists i :: 0 <= i < |docs| && docs[i].Document?
  }

  // Where the documents of a batch begin in a buffer that holds nothing else.
  function BatchStart(ns: seq<Byte>): nat {
    20 + |ns| + 1
  }

  // A batch has documents and fits the size the server takes in one go.
  function BatchBody(ns: seq<Byte>, docs: seq<BatchEntry>, max: Int32, maxSend: Int32): Option<seq<Byte>> {
    var all := BatchDocs(docs, max);
    if !HasDocument(docs) || all.None? || BatchStart(ns) + |all.value| >= maxSend then None
    else Some(ns + [0] + all.value)
  }

  function Body(r: Request): Option<seq<Byte>> {
    match r
    case Insert(ns, doc, newId, max) => Prepend(ns + [0], InsertedDoc(doc, newId, max))
    case BatchInsert(ns, _, docs, max, maxSend) => BatchBody(ns, docs, max, maxSend)
    case Update(ns, flags, criteria, newObject) =>
      Prepend(ns + [0] + Le32(flags), Join(EncodeDoc(criteria), EncodeDoc(newObject)))
    case Delete(ns, flags, criteria) => Prepend(ns + [0] + Le32(flags), EncodeDoc(criteria))
    case Query(ns, _, skip, limit, query, fields) =>
      Prepend(ns + [0] + Le32(skip) + Le32(limit),
              if fields.Entry? then Join(EncodeDoc(query), EncodeDoc(fields)) else EncodeDoc(query))
    case GetMore(ns, _, limit, cursorId) => Some(ns + [0] + Le32(limit) + Le64(cursorId))
    case KillCursors(cursorId) => Some(Le32(1) + Le64(cursorId))
  }

  function Op(r: Request): int {
    match r
    case Insert(_, _, _, _) => OP_INSERT
    case BatchInsert(_, _, _, _, _) => OP_INSERT
    case Update(_, _, _, _) => OP_UPDATE
    case Delete(_, _, _) => OP_DELETE
    case Query(_, _, _, _, _, _) => OP_QUERY
    case GetMore(_, _, _, _) => OP_GET_MORE
    case KillCursors(_) => OP_KILL_CURSORS
  }

  function Opts(r: Request): int {
    if r.Query? then r.opts else if r.BatchInsert? then r.flags else 0
  }

  function ResponseTo(r: Request): int {
    if r.GetMore? then r.responseTo else 0
  }

  function EncodeRequest(r: Request, requestId: int): Option<seq<Byte>> {
    Message(requestId, ResponseTo(r), Op(r), Opts(r), Body(r))
  }

  // ----- Writing one into a buffer -----

  // A message begun at start: its length slot is open, and w stands behind it.
  ghost predicate Begun(buf: Buffer, before: seq<Byte>, start: nat, w: seq<Byte>)
    reads buf, buf.data
  {
    && buf.Valid() && buf.pos == start + 4 + |w|
    && Wrote(before, buf.data[..], start + 4, w)
  }

  // An exception is pending; what stood before start is unchanged.
  ghost predicate Failed(buf: Buffer, before: seq<Byte>, start: nat)
    reads buf, buf.data
  {
    buf.Valid() && buf.pos >= start && Keeps(before, buf.data[..], start)
  }

  method PutInt(buf: Buffer, n: int, ghost before: seq<Byte>, ghost start: nat, ghost w: seq<Byte>)
    requires Begun(buf, before, start, w)
    modifies buf, buf.data
    ensures buf.data == old(buf.data) || fresh(buf.data)
    ensures Begun(buf, before, start, w + Le32(n))
  {
    hide Wrote, Le32;
    ghost var mid := buf.data[..];
    buf.SerializeInt(n);
    WroteTwice(before, mid, buf.data[..], start + 4, w, Le32(n));
  }

  method PutLong(buf: Buffer, n: int, ghost before: seq<Byte>, ghost start: nat, ghost w: seq<Byte>)
    requires Begun(buf, before, start, w)
    modifies buf, buf.data
    ensures buf.data == old(buf.data) || fresh(buf.data)
    ensures Begun(buf, before, start, w + Le64(n))
  {
    hide Wrote, Le64;
    ghost var mid := buf.data[..];
    buf.SerializeLong(n);
    WroteTwice(before, mid, buf.data[..], start + 4, w, Le64(n));
  }

  // A database and a collection, divided by a dot: without one the writer would
  // follow a null pointer.
  predicate IsNamespace(ns: seq<Byte>) {
    DOT in ns && NulFree(ns)
  }

  // php_mongo_serialize_ns: with "$" as the command character the name is
  // written as it is.
  method PutNs(buf: Buffer, ns: seq<Byte>, ghost before: seq<Byte>, ghost start: nat, ghost w: seq<Byte>)
    requires Begun(buf, before, start, w) && IsNamespace(ns)
    modifies buf, buf.data
    ensures buf.data == old(buf.data) || fresh(buf.data)
    ensures Begun(buf, before, start, w + (ns + [0]))
  {
    hide Wrote;
    ghost var mid := buf.data[..];
    buf.SerializeString(ns);
    WroteTwice(before, mid, buf.data[..], start + 4, w, ns + [0]);
  }

  method PutDoc(buf: Buffer, d: Doc, ghost before: seq<Byte>, ghost start: nat, ghost w: seq<Byte>) returns (ok: bool)
    requires Begun(buf, before, start, w)
    modifies buf, buf.data
    ensures buf.data == old(buf.data) || fresh(buf.data)
    ensures ok <==> EncodeDoc(d).Some?
    ensures ok ==> Begun(buf, before, start, w + EncodeDoc(d).value)
    ensures Failed(buf, before, start)
  {
    hide Wrote, Keeps, EncodeDoc;
    ghost var mid := buf.data[..];
    BegunFits(buf, before, start, w);
    var _, done := buf.ZvalToBson(d, false, FRESH);
    ok := done;
    KeepsTwice(before, mid, buf.data[..], start, start + 4 + |w|);
    if ok {
      WroteTwice(before, mid, buf.data[..], start + 4, w, EncodeDoc(d).value);
    }
  }

  lemma BegunFits(buf: Buffer, before: seq<Byte>, start: nat, w: seq<Byte>)
    requires Begun(buf, before, start, w)
    ensures buf.pos <= buf.data.Length
    ensures Keeps(before, buf.data[..], start)
  {
  }

  // insert_helper
  method PutInserted(buf: Buffer, d: Doc, newId: ObjectId, max: Int32,
                     ghost before: seq<Byte>, ghost start: nat, ghost w: seq<Byte>) returns (ok: bool)
    requires Begun(buf, before, start, w)
    modifies buf, buf.data
    ensures buf.data == old(buf.data) || fresh(buf.data)
    ensures ok <==> InsertedDoc(d, newId, max).Some?
    ensures ok ==> Begun(buf, before, start, w + InsertedDoc(d, newId, max).value)
    ensures Failed(buf, before, start)
  {
    hide Wrote, Keeps, PrepDoc;
    ghost var mid := buf.data[..];
    BegunFits(buf, before, start, w);
    var from := buf.pos;
    var num, done := buf.ZvalToBson(d, true, newId);
    ok := done;
    KeepsTwice(before, mid, buf.data[..], start, from);
    if !done || num == 0 {
      return false;
    }
    ghost var e := PrepDoc(d, newId).value;
    if buf.pos - from > max {
      return false;
    }
    WroteTwice(before, mid, buf.data[..], start + 4, w, e);
    ok := Resize(buf, from, before, start, w, e, d, newId);
  }

  // The size of the inserted document is written a second time.
  method Resize(buf: Buffer, from: nat, ghost before: seq<Byte>, ghost start: nat, ghost w: seq<Byte>,
                ghost e: seq<Byte>, ghost d: Doc, ghost newId: ObjectId) returns (ok: bool)
    requires Begun(buf, before, start, w + e) && from == start + 4 + |w| && PrepDoc(d, newId) == Some(e)
    modifies buf.data
    ensures ok && Begun(buf, before, start, w + e)
    ensures Failed(buf, before, start)
  {
    hide Le32, PrepDoc;
    ghost var mid := buf.data[..];
    PrepDocSize(d, newId);
    AtConcat(mid, start + 4, w, e);
    AtConcat(mid, from, Le32(|e|), e[4..]);
    assert e == Le32(|e|) + e[4..];
    ok := buf.SerializeSize(from);
    assert At(buf.data[..], from, Le32(|e|));
    Unpatched(mid, buf.data[..], from, Le32(|e|));
  }

  // Writing what stands there already changes nothing.
  lemma Unpatched(mid: seq<Byte>, after: seq<Byte>, p: nat, slot: seq<Byte>)
    requires |slot| == 4 && |after| == |mid| && At(mid, p, slot) && At(after, p, slot)
    requires forall i :: 0 <= i < |mid| && !(p <= i < p + 4) ==> after[i] == mid[i]
    ensures after == mid
  {
    forall i | p <= i < p + 4 ensures after[i] == mid[i] {
      assert after[i] == after[p..p + 4][i - p] && mid[i] == mid[p..p + 4][i - p];
    }
  }

  lemma PrepDocSize(d: Doc, newId: ObjectId)
    requires PrepDoc(d, newId).Some?
    ensures var e := PrepDoc(d, newId).value; 4 <= |e| <= MAX_SIZE && e[..4] == Le32(|e|)
  {
    hide DocElements, Le32;
  }

  // The counter MonGlo(request_id) that every message takes its id from.
  class Session {
    var requestId: int

    // The header macros: the length slot is reserved without a space check.
    method AppendHeader(buf: Buffer, responseTo: int, op: int, opts: int)
      requires buf.pos <= buf.data.Length
      modifies this, buf, buf.data
      ensures buf.data == old(buf.data) || fresh(buf.data)
      ensures requestId == old(requestId) + 1
      ensures Begun(buf, old(buf.data[..]), old(buf.pos), Header(old(requestId), responseTo, op, opts))
    {
      hide Wrote, Le32;
      ghost var before, start := buf.data[..], buf.pos;
      var id := requestId;
      requestId := requestId + 1;
      buf.pos := buf.pos + 4;
      buf.SerializeInt(id);
      PutInt(buf, responseTo, before, start, Le32(id));
      PutInt(buf, op, before, start, Le32(id) + Le32(responseTo));
      PutInt(buf, opts, before, start, Le32(id) + Le32(responseTo) + Le32(op));
      Assoc(Le32(id) + Le32(responseTo), Le32(op), Le32(opts));
    }

    // One request: header, body, and the length filled in at the end. False
    // stands for the failure, with an exception pending.
    method Write(buf: Buffer, r: Request) returns (ok: bool)
      requires buf.pos <= buf.data.Length && (!r.KillCursors? ==> IsNamespace(r.ns))
      requires r.BatchInsert? || r.KillCursors? ==> buf.pos == 0
      modifies this, buf, buf.data
      ensures buf.data == old(buf.data) || fresh(buf.data)
      ensures requestId == old(requestId) + 1
      ensures buf.Emitted(old(buf.data[..]), old(buf.pos), EncodeRequest(r, old(requestId)), ok)
    {
      hide Begun, Body, Wrote, Keeps, Header, Failed;
      var start := buf.pos;
      ghost var before := buf.data[..];
      ghost var w := Header(requestId, ResponseTo(r), Op(r), Opts(r));
      AppendHeader(buf, ResponseTo(r), Op(r), Opts(r));
      ok := WriteBody(buf, r, before, start, w);
      if ok {
        ghost var content := w + Body(r).value;
        BegunIs(buf, before, start, content);
        ok := buf.CloseSlot(before, start, content);
      } else {
        FailedIs(buf, before, start);
      }
    }
  }

  lemma BegunIs(buf: Buffer, before: seq<Byte>, start: nat, w: seq<Byte>)
    requires Begun(buf, before, start, w)
    ensures buf.pos == start + 4 + |w| && buf.Valid() && Wrote(before, buf.data[..], start + 4, w)
  {
  }

  lemma FailedIs(buf: Buffer, before: seq<Byte>, start: nat)
    requires Failed(buf, before, start)
    ensures buf.pos >= start && buf.Valid() && Keeps(before, buf.data[..], start)
  {
  }

  method WriteBody(buf: Buffer, r: Request, ghost before: seq<Byte>, ghost start: nat, ghost w: seq<Byte>)
    returns (ok: bool)
    requires Begun(buf, before, start, w) && |w| == 16 && (!r.KillCursors? ==> IsNamespace(r.ns))
    requires r.BatchInsert? ==> start == 0
    modifies buf, buf.data
    ensures buf.data == old(buf.data) || fresh(buf.data)
    ensures ok <==> Body(r).Some?
    ensures ok ==> Begun(buf, before, start, w + Body(r).value)
    ensures !ok ==> Failed(buf, before, start)
  {
    AlwaysHasBody(r);
    hide Begun, Failed, Body;
    ok := true;
    match r {
    case Insert(_, _, _, _) => ok := InsertBody(buf, r, before, start, w);
    case BatchInsert(_, _, _, _, _) => ok := BatchInsertBody(buf, r, before, w);
    case Update(_, _, _, _) => ok := UpdateBody(buf, r, before, start, w);
    case Delete(_, _, _) => ok := DeleteBody(buf, r, before, start, w);
    case Query(_, _, _, _, _, _) => ok := QueryBody(buf, r, before, start, w);
    case GetMore(_, _, _, _) => GetMoreBody(buf, r, before, start, w);
    case KillCursors(_) => KillCursorsBody(buf, r, before, start, w);
    }
  }

  lemma AlwaysHasBody(r: Request)
    ensures r.GetMore? || r.KillCursors? ==> Body(r).Some?
  {
  }

  // php_mongo_write_insert, after the header.
  method InsertBody(buf: Buffer, r: Request, ghost before: seq<Byte>, ghost start: nat, ghost w: seq<Byte>)
    returns (ok: bool)
    requires Begun(buf, before, start, w) && r.Insert? && IsNamespace(r.ns)
    modifies buf, buf.data
    ensures buf.data == old(buf.data) || fresh(buf.data)
    ensures ok <==> Body(r).Some?
    ensures ok ==> Begun(buf, before, start, w + Body(r).value)
    ensures Failed(buf, before, start)
  {
    hide Begun, InsertedDoc, Failed;
    PutNs(buf, r.ns, before, start, w);
    ok := PutInserted(buf, r.doc, r.newId, r.max, before, start, w + (r.ns + [0]));
    if ok {
      Assoc(w, r.ns + [0], InsertedDoc(r.doc, r.newId, r.max).value);
    }
  }

  // php_mongo_write_update, after the header.
  method UpdateBody(buf: Buffer, r: Request, ghost before: seq<Byte>, ghost start: nat, ghost w: seq<Byte>)
    returns (ok: bool)
    requires Begun(buf, before, start, w) && r.Update? && IsNamespace(r.ns)
    modifies buf, buf.data
    ensures buf.data == old(buf.data) || fresh(buf.data)
    ensures ok <==> Body(r).Some?
    ensures ok ==> Begun(buf, before, start, w + Body(r).value)
    ensures Failed(buf, before, start)
  {
    hide Begun, Failed, EncodeDoc, Le32;
    PutNs(buf, r.ns, before, start, w);
    PutInt(buf, r.flags, before, start, w + (r.ns + [0]));
    Assoc(w, r.ns + [0], Le32(r.flags));
    ghost var head := r.ns + [0] + Le32(r.flags);
    ok := PutDoc(buf, r.criteria, before, start, w + head);
    if !ok {
      return;
    }
    Assoc(w, head, EncodeDoc(r.criteria).value);
    ok := PutDoc(buf, r.newObject, before, start, w + head + EncodeDoc(r.criteria).value);
    if ok {
      Assoc(w + head, EncodeDoc(r.criteria).value, EncodeDoc(r.newObject).value);
      Assoc(w, head, EncodeDoc(r.criteria).value + EncodeDoc(r.newObject).value);
    }
  }

  // php_mongo_write_delete, after the header.
  method DeleteBody(buf: Buffer, r: Request, ghost before: seq<Byte>, ghost start: nat, ghost w: seq<Byte>)
    returns (ok: bool)
    requires Begun(buf, before, start, w) && r.Delete? && IsNamespace(r.ns)
    modifies buf, buf.data
    ensures buf.data == old(buf.data) || fresh(buf.data)
    ensures ok <==> Body(r).Some?
    ensures ok ==> Begun(buf, before, start, w + Body(r).value)
    ensures Failed(buf, before, start)
  {
    hide Begun, Failed, EncodeDoc, Le32;
    PutNs(buf, r.ns, before, start, w);
    PutInt(buf, r.flags, before, start, w + (r.ns + [0]));
    Assoc(w, r.ns + [0], Le32(r.flags));
    ghost var head := r.ns + [0] + Le32(r.flags);
    ok := PutDoc(buf, r.criteria, before, start, w + head);
    if ok {
      Assoc(w, head, EncodeDoc(r.criteria).value);
    }
  }

  // php_mongo_write_query, after the header.
  method QueryBody(buf: Buffer, r: Request, ghost before: seq<Byte>, ghost start: nat, ghost w: seq<Byte>)
    returns (ok: bool)
    requires Begun(buf, before, start, w) && r.Query? && IsNamespace(r.ns)
    modifies buf, buf.data
    ensures buf.data == old(buf.data) || fresh(buf.data)
    ensures ok <==> Body(r).Some?
    ensures ok ==> Begun(buf, before, start, w + Body(r).value)
    ensures Failed(buf, before, start)
  {
    hide Begun, Failed, EncodeDoc, Le32;
    PutNs(buf, r.ns, before, start, w);
    PutInt(buf, r.skip, before, start, w + (r.ns + [0]));
    Assoc(w, r.ns + [0], Le32(r.skip));
    PutInt(buf, r.limit, before, start, w + (r.ns + [0] + Le32(r.skip)));
    Assoc(w, r.ns + [0] + Le32(r.skip), Le32(r.limit));
    ghost var head := r.ns + [0] + Le32(r.skip) + Le32(r.limit);
    ok := PutDoc(buf, r.query, before, start, w + head);
    if !ok {
      return;
    }
    ghost var query := EncodeDoc(r.query).value;
    Assoc(w, head, query);
    if r.fields.Entry? {
      ok := PutDoc(buf, r.fields, before, start, w + head + query);
      if ok {
        Assoc(w + head, query, EncodeDoc(r.fields).value);
        Assoc(w, head, query + EncodeDoc(r.fields).value);
      }
    }
  }

  // php_mongo_write_get_more, after the header.
  method GetMoreBody(buf: Buffer, r: Request, ghost before: seq<Byte>, ghost start: nat, ghost w: seq<Byte>)
    requires Begun(buf, before, start, w) && r.GetMore? && IsNamespace(r.ns)
    modifies buf, buf.data
    ensures buf.data == old(buf.data) || fresh(buf.data)
    ensures Begun(buf, before, start, w + Body(r).value)
  {
    hide Begun, Le32, Le64;
    PutNs(buf, r.ns, before, start, w);
    PutInt(buf, r.limit, before, start, w + (r.ns + [0]));
    Assoc(w, r.ns + [0], Le32(r.limit));
    PutLong(buf, r.cursorId, before, start, w + (r.ns + [0] + Le32(r.limit)));
    Assoc(w, r.ns + [0] + Le32(r.limit), Le64(r.cursorId));
  }

  // php_mongo_write_kill_cursors, after the header: one cursor.
  method KillCursorsBody(buf: Buffer, r: Request, ghost before: seq<Byte>, ghost start: nat, ghost w: seq<Byte>)
    requires Begun(buf, before, start, w) && r.KillCursors?
    modifies buf, buf.data
    ensures buf.data == old(buf.data) || fresh(buf.data)
    ensures Begun(buf, before, start, w + Body(r).value)
  {
    hide Begun, Le32, Le64;
    PutInt(buf, 1, before, start, w);
    PutLong(buf, r.cursorId, before, start, w + Le32(1));
    Assoc(w, Le32(1), Le64(r.cursorId));
  }

  // More documents make a batch longer, or wrong.
  lemma {:induction false} BatchGrows(docs: seq<BatchEntry>, i: nat, max: Int32)
    requires i <= |docs|
    ensures BatchDocs(docs, max).Some? ==>
              BatchDocs(docs[..i], max).Some? && |BatchDocs(docs[..i], max).value| <= |BatchDocs(docs, max).value|
    decreases |docs|
  {
    if i < |docs| {
      assert docs[..|docs| - 1][..i] == docs[..i];
      BatchGrows(docs[..|docs| - 1], i, max);
    } else {
      assert docs[..i] == docs;
    }
  }

  // php_mongo_write_batch_insert, after the header.
  method BatchInsertBody(buf: Buffer, r: Request, ghost before: seq<Byte>, ghost w: seq<Byte>) returns (ok: bool)
    requires Begun(buf, before, 0, w) && |w| == 16 && r.BatchInsert? && IsNamespace(r.ns)
    modifies buf, buf.data
    ensures buf.data == old(buf.data) || fresh(buf.data)
    ensures ok <==> Body(r).Some?
    ensures ok ==> Begun(buf, before, 0, w + Body(r).value)
    ensures Failed(buf, before, 0)
  {
    hide InsertedDoc, BatchDocs, Wrote, Keeps;
    var docs, count := r.docs, 0;
    PutNs(buf, r.ns, before, 0, w);
    ghost var head := w + (r.ns + [0]);
    ghost var all: seq<Byte> := [];
    NoDocs(r.max);
    assert head + all == head;
    assert docs[..0] == [];
    for i := 0 to |docs|
      invariant buf.data == old(buf.data) || fresh(buf.data)
      invariant BatchDocs(docs[..i], r.max) == Some(all) && Begun(buf, before, 0, head + all)
      invariant count > 0 <==> exists j :: 0 <= j < i && docs[j].Document?
      invariant count > 0 ==> BatchStart(r.ns) + |all| < r.maxSend
    {
      BatchStep(docs, i, r.max);
      if docs[i].Scalar? {
        continue;
      }
      var wrote := PutInserted(buf, docs[i].doc, docs[i].newId, r.max, before, 0, head + all);
      BatchGrows(docs, i + 1, r.max);
      if !wrote || buf.pos >= r.maxSend {
        return false;
      }
      ghost var e := InsertedDoc(docs[i].doc, docs[i].newId, r.max).value;
      Assoc(head, all, e);
      all := all + e;
      count := count + 1;
    }
    assert docs[..|docs|] == docs;
    BegunFits(buf, before, 0, head + all);
    if count == 0 {
      return false;
    }
    Assoc(w, r.ns + [0], all);
    ok := true;
  }

  lemma NoDocs(max: Int32)
    ensures BatchDocs([], max) == Some([])
  {
  }

  lemma BatchStep(docs: seq<BatchEntry>, i: nat, max: Int32)
    requires i < |docs|
    ensures BatchDocs(docs[..i + 1], max) ==
            if docs[i].Scalar? then BatchDocs(docs[..i], max)
            else Join(BatchDocs(docs[..i], max), InsertedDoc(docs[i].doc, docs[i].newId, max))
  {
    assert docs[..i + 1][..i] == docs[..i];
  }

  // ----- Reading messages back -----

  // A message as its receiver sees it.
  datatype Received = Received(length: Int32, requestId: Int32, responseTo: Int32, op: Int32, opts: Int32,
                               body: seq<Byte>)

  // Cuts a stream of bytes at each messageLength. None for a length that does
  // not cover its own header or runs past the end.
  function Split(s: seq<Byte>): Option<seq<Received>>
    decreases |s|
  {
    if s == [] then Some([])
    else if |s| < 20 then None
    else
      var length := Int32At(s, 0);
      if length < 20 || length > |s| then None
      else
        var rest := Split(s[length..]);
        if rest.None? then None
        else Some([Received(length, Int32At(s, 4), Int32At(s, 8), Int32At(s, 12), Int32At(s, 16), s[20..length])]
                  + rest.value)
  }

  // What the receiver of a request sees.
  function Seen(r: Request, requestId: int): Received
    requires EncodeRequest(r, requestId).Some?
  {
    Received(|EncodeRequest(r, requestId).value|, ToInt32(requestId), ToInt32(ResponseTo(r)), ToInt32(Op(r)),
             ToInt32(Opts(r)), Body(r).value)
  }

  lemma MessageShape(r: Request, requestId: int)
    requires EncodeRequest(r, requestId).Some?
    ensures Body(r).Some?
    ensures var m := EncodeRequest(r, requestId).value;
            && |m| == 20 + |Body(r).value| <= MAX_SIZE
            && m == Le32(|m|) + (Header(requestId, ResponseTo(r), Op(r), Opts(r)) + Body(r).value)
  {
    hide Le32, Body, Header;
  }

  // The header fields at the start of a message.
  lemma HeaderFields(s: seq<Byte>, length: int, requestId: int, responseTo: int, op: int, opts: int, body: seq<Byte>)
    requires At(s, 0, Le32(length) + (Header(requestId, responseTo, op, opts) + body))
    ensures |s| >= 20 && Int32At(s, 0) == ToInt32(length) && Int32At(s, 4) == ToInt32(requestId)
    ensures Int32At(s, 8) == ToInt32(responseTo) && Int32At(s, 12) == ToInt32(op) && Int32At(s, 16) == ToInt32(opts)
    ensures At(s, 20, body)
  {
    var header := Header(requestId, responseTo, op, opts);
    AtConcat(s, 0, Le32(length), header + body);
    AtConcat(s, 4, header, body);
    AtConcat(s, 4, Le32(requestId) + Le32(responseTo), Le32(op) + Le32(opts));
    AtConcat(s, 4, Le32(requestId), Le32(responseTo));
    AtConcat(s, 12, Le32(op), Le32(opts));
    hide Le32, ToInt32, Header;
    Int32OfLe32(s, 0, length);
    Int32OfLe32(s, 4, requestId);
    Int32OfLe32(s, 8, responseTo);
    Int32OfLe32(s, 12, op);
    Int32OfLe32(s, 16, opts);
  }

  // A message in front of a stream is cut off whole.
  lemma SplitFirst(r: Request, requestId: int, rest: seq<Byte>)
    requires EncodeRequest(r, requestId).Some? && Split(rest).Some?
    ensures Split(EncodeRequest(r, requestId).value + rest) == Some([Seen(r, requestId)] + Split(rest).value)
  {
    hide Body, Header, Le32, At, Op, Opts, ResponseTo, Int32At, ToInt32, Split, EncodeRequest;
    var m := EncodeRequest(r, requestId).value;
    FieldsInStream(r, requestId, rest);
    assert (m + rest)[|m|..] == rest;
    SplitOnce(m + rest, |m|);
  }

  lemma FieldsInStream(r: Request, requestId: int, rest: seq<Byte>)
    requires EncodeRequest(r, requestId).Some?
    ensures var m, s := EncodeRequest(r, requestId).value, EncodeRequest(r, requestId).value + rest;
            && Body(r).Some? && 20 <= |m| <= |s| && Int32At(s, 0) == |m| && s[20..|m|] == Body(r).value
            && Int32At(s, 4) == ToInt32(requestId) && Int32At(s, 8) == ToInt32(ResponseTo(r))
            && Int32At(s, 12) == ToInt32(Op(r)) && Int32At(s, 16) == ToInt32(Opts(r))
  {
    hide Body, Header, Le32, At, Op, Opts, ResponseTo, Int32At;
    MessageShape(r, requestId);
    hide EncodeRequest;
    var m := EncodeRequest(r, requestId).value;
    PrefixAt(m, rest);
    HeaderFields(m + rest, |m|, requestId, ResponseTo(r), Op(r), Opts(r), Body(r).value);
    AtIs(m + rest, 20, Body(r).value);
    assert ToInt32(|m|) == |m|;
  }

  lemma PrefixAt(m: seq<Byte>, rest: seq<Byte>)
    ensures At(m + rest, 0, m)
  {
  }

  lemma AtIs(s: seq<Byte>, p: nat, e: seq<Byte>)
    requires At(s, p, e)
    ensures p + |e| <= |s| && s[p..p + |e|] == e
  {
  }

  lemma SplitOnce(s: seq<Byte>, length: nat)
    requires 20 <= length <= |s| && Int32At(s, 0) == length && Split(s[length..]).Some?
    ensures Split(s) == Some([Received(length, Int32At(s, 4), Int32At(s, 8), Int32At(s, 12), Int32At(s, 16),
                                       s[20..length])] + Split(s[length..]).value)
  {
    hide Int32At;
  }

  // A write followed by the query for its outcome is exactly two messages, with
  // the fields as given and ids one apart.
  lemma TwoMessages(r: Request, gle: Request, requestId: int)
    requires EncodeRequest(r, requestId).Some? && EncodeRequest(gle, requestId + 1).Some?
    ensures Split(EncodeRequest(r, requestId).value + EncodeRequest(gle, requestId + 1).value)
         == Some([Seen(r, requestId), Seen(gle, requestId + 1)])
    ensures Seen(r, requestId).requestId != Seen(gle, requestId + 1).requestId
  {
    hide Split, EncodeRequest, Seen;
    LastMessage(gle, requestId + 1);
    SplitFirst(r, requestId, EncodeRequest(gle, requestId + 1).value);
    assert [Seen(r, requestId)] + [Seen(gle, requestId + 1)] == [Seen(r, requestId), Seen(gle, requestId + 1)];
    IdsDiffer(r, gle, requestId);
  }

  lemma LastMessage(r: Request, requestId: int)
    requires EncodeRequest(r, requestId).Some?
    ensures Split(EncodeRequest(r, requestId).value) == Some([Seen(r, requestId)])
  {
    SplitNothing();
    hide Split, EncodeRequest, Seen;
    SplitFirst(r, requestId, []);
    var m := EncodeRequest(r, requestId).value;
    assert m + [] == m;
    assert [Seen(r, requestId)] + [] == [Seen(r, requestId)];
  }

  lemma IdsDiffer(r: Request, r': Request, requestId: int)
    requires EncodeRequest(r, requestId).Some? && EncodeRequest(r', requestId + 1).Some?
    ensures Seen(r, requestId).requestId != Seen(r', requestId + 1).requestId
  {
    hide Body, EncodeRequest;
  }

  lemma SplitNothing()
    ensures Split([]) == Some([])
  {
  }

  // send_message with getlasterror appended to the same buffer.
  method WriteSafely(session: Session, buf: Buffer, r: Request, cmdNs: seq<Byte>, command: Doc, opts: Int32)
    returns (ok: bool)
    requires buf.pos == 0 && (!r.KillCursors? ==> IsNamespace(r.ns)) && IsNamespace(cmdNs)
    modifies session, buf, buf.data
    ensures var gle := Query(cmdNs, opts, 0, -1, command, Empty);
            var id := old(session.requestId);
            && (ok <==> EncodeRequest(r, id).Some? && EncodeRequest(gle, id + 1).Some?)
            && (ok ==> buf.pos <= buf.data.Length
                       && Split(buf.data[..buf.pos]) == Some([Seen(r, id), Seen(gle, id + 1)]))
  {
    hide EncodeRequest, Split, Wrote, Keeps;
    var gle := Query(cmdNs, opts, 0, -1, command, Empty);
    ghost var id, before := session.requestId, buf.data[..];
    ok := session.Write(buf, r);
    if !ok {
      return;
    }
    ghost var mid := buf.data[..];
    WroteKeeps(before, mid, 0, EncodeRequest(r, id).value, 0);
    ok := session.Write(buf, gle);
    if ok {
      ghost var m, m' := EncodeRequest(r, id).value, EncodeRequest(gle, id + 1).value;
      WroteTwice(before, mid, buf.data[..], 0, m, m');
      WroteAll(before, buf.data[..], m + m');
      TwoMessages(r, gle, id);
    }
  }

  lemma WroteAll(before: seq<Byte>, after: seq<Byte>, e: seq<Byte>)
    requires Wrote(before, after, 0, e)
    ensures |e| <= |after| && after[..|e|] == e
  {
    assert after[0..|e|] == after[..|e|];
  }
}
