// What the receiver of each message reads, in the terms of the MongoDB Wire
// Protocol: the operation's number, and every field behind the header in turn.
module Received {
  import opened Bytes
  import opened Document
  import opened Bson
  import opened BsonRoundTrip
  import opened Prepared
  import opened Batches
  import opened Wire

  // Documents that come back from their bytes as they were.
  predicate Carried(d: Doc) {
    Storable(d) && DatesInRange(d)
  }

  lemma PartsBehind(head: seq<Byte>, x: seq<Byte>, y: seq<Byte>)
    ensures At(head + (x + y), |head|, x) && At(head + (x + y), |head| + |x|, y)
  {
    AtWhole(head + (x + y));
    AtConcat(head + (x + y), 0, head, x + y);
    AtConcat(head + (x + y), |head|, x, y);
  }

  lemma PartBehind(head: seq<Byte>, x: seq<Byte>)
    ensures At(head + x, |head|, x)
  {
    AtWhole(head + x);
    AtConcat(head + x, 0, head, x);
  }

  lemma AtWhole(s: seq<Byte>)
    ensures At(s, 0, s)
  {
  }

  lemma DocArrives(d: Doc, s: seq<Byte>, p: nat)
    requires Carried(d) && EncodeDoc(d).Some? && At(s, p, EncodeDoc(d).value)
    ensures p + |EncodeDoc(d).value| <= |s| && DecodeDoc(s, p) == Ok(d, p + |EncodeDoc(d).value|)
  {
    hide EncodeDoc, DecodeDoc, Storable, DatesInRange;
    SurvivesIff(d, s, p);
  }

  // A document, and then another one, behind the first bytes of a message.
  lemma DocsBehind(head: seq<Byte>, a: Doc, b: Doc, x: seq<Byte>, y: seq<Byte>)
    requires Carried(a) && Carried(b) && EncodeDoc(a) == Some(x) && EncodeDoc(b) == Some(y)
    ensures var s := head + (x + y);
            DecodeDoc(s, |head|) == Ok(a, |head| + |x|) && DecodeDoc(s, |head| + |x|) == Ok(b, |s|)
  {
    hide EncodeDoc, DecodeDoc, Carried, At;
    PartsBehind(head, x, y);
    DocArrives(a, head + (x + y), |head|);
    DocArrives(b, head + (x + y), |head| + |x|);
  }

  lemma DocBehind(head: seq<Byte>, a: Doc, x: seq<Byte>)
    requires Carried(a) && EncodeDoc(a) == Some(x)
    ensures DecodeDoc(head + x, |head|) == Ok(a, |head + x|)
  {
    hide EncodeDoc, DecodeDoc, Carried, At;
    PartBehind(head, x);
    DocArrives(a, head + x, |head|);
  }

  // A namespace and the number behind it.
  lemma NumberBehind(ns: seq<Byte>, n: Int32, rest: seq<Byte>)
    ensures var s := ns + [0] + Le32(n) + rest;
            |s| >= |ns| + 5 && s[..|ns| + 1] == ns + [0] && Int32At(s, |ns| + 1) == n
  {
    hide Le32, Int32At;
    var s := ns + [0] + Le32(n) + rest;
    assert s == ns + [0] + (Le32(n) + rest);
    PartsBehind(ns + [0], Le32(n), rest);
    Int32RoundTrip(n, s, |ns| + 1);
  }

  lemma NumbersBehind(ns: seq<Byte>, n: Int32, m: Int32, rest: seq<Byte>)
    ensures var s := ns + [0] + Le32(n) + Le32(m) + rest;
            |s| >= |ns| + 9 && s[..|ns| + 1] == ns + [0] && Int32At(s, |ns| + 1) == n && Int32At(s, |ns| + 5) == m
  {
    hide Le32, Int32At, At;
    var s := ns + [0] + Le32(n) + Le32(m) + rest;
    assert s == ns + [0] + Le32(n) + (Le32(m) + rest);
    NumberBehind(ns, n, Le32(m) + rest);
    PartsBehind(ns + [0] + Le32(n), Le32(m), rest);
    Int32RoundTrip(m, s, |ns| + 5);
  }

  // ----- The header -----

  // The receiver, who cuts messages off at their lengths, sees the operation's
  // number, the id, and whether this answers a message or carries options.
  lemma HeaderTells(r: Request, requestId: int)
    requires EncodeRequest(r, requestId).Some?
    ensures var m := Seen(r, requestId);
            && Split(EncodeRequest(r, requestId).value) == Some([m])
            && m.requestId == ToInt32(requestId) && Body(r) == Some(m.body) && m.length == 20 + |m.body|
            && (m.op == 2001 <==> r.Update?)
            && (m.op == 2002 <==> r.Insert? || r.BatchInsert?)
            && (m.op == 2004 <==> r.Query?)
            && (m.op == 2005 <==> r.GetMore?)
            && (m.op == 2006 <==> r.Delete?)
            && (m.op == 2007 <==> r.KillCursors?)
            && (r.GetMore? ==> m.responseTo == r.responseTo) && (!r.GetMore? ==> m.responseTo == 0)
            && (r.Query? ==> m.opts == r.opts) && (r.BatchInsert? ==> m.opts == r.flags)
            && (!r.Query? && !r.BatchInsert? ==> m.opts == 0)
  {
    hide Body, Header, Split;
    LastMessage(r, requestId);
    MessageShape(r, requestId);
  }

  // ----- The bodies -----

  // An update: the namespace, the flags, what is looked for, and what becomes of
  // it.
  lemma UpdateReads(r: Request)
    requires r.Update? && Body(r).Some? && Carried(r.criteria) && Carried(r.newObject)
    ensures var s, at := Body(r).value, |r.ns| + 1;
            && |s| >= at + 4 && s[..at] == r.ns + [0] && Int32At(s, at) == r.flags
            && var first := DecodeDoc(s, at + 4);
               first.Ok? && first.value == r.criteria && DecodeDoc(s, first.next) == Ok(r.newObject, |s|)
  {
    hide EncodeDoc, DecodeDoc, Le32, Int32At, Carried;
    var x, y := EncodeDoc(r.criteria).value, EncodeDoc(r.newObject).value;
    NumberBehind(r.ns, r.flags, x + y);
    DocsBehind(r.ns + [0] + Le32(r.flags), r.criteria, r.newObject, x, y);
  }

  lemma DeleteReads(r: Request)
    requires r.Delete? && Body(r).Some? && Carried(r.criteria)
    ensures var s, at := Body(r).value, |r.ns| + 1;
            && |s| >= at + 4 && s[..at] == r.ns + [0] && Int32At(s, at) == r.flags
            && DecodeDoc(s, at + 4) == Ok(r.criteria, |s|)
  {
    hide EncodeDoc, DecodeDoc, Le32, Int32At, Carried;
    NumberBehind(r.ns, r.flags, EncodeDoc(r.criteria).value);
    DocBehind(r.ns + [0] + Le32(r.flags), r.criteria, EncodeDoc(r.criteria).value);
  }

  // A query: how many results to skip and to return, the query, and the fields
  // when some are asked for.
  lemma QueryReads(r: Request)
    requires r.Query? && Body(r).Some? && Carried(r.query) && Carried(r.fields)
    ensures var s, at := Body(r).value, |r.ns| + 1;
            && |s| >= at + 8 && s[..at] == r.ns + [0]
            && Int32At(s, at) == r.skip && Int32At(s, at + 4) == r.limit
            && var first := DecodeDoc(s, at + 8);
               && first.Ok? && first.value == r.query
               && if r.fields.Empty? then first.next == |s| else DecodeDoc(s, first.next) == Ok(r.fields, |s|)
  {
    hide EncodeDoc, DecodeDoc, Le32, Int32At, Carried;
    var head, x := r.ns + [0] + Le32(r.skip) + Le32(r.limit), EncodeDoc(r.query).value;
    if r.fields.Empty? {
      NumbersBehind(r.ns, r.skip, r.limit, x);
      DocBehind(head, r.query, x);
    } else {
      NumbersBehind(r.ns, r.skip, r.limit, x + EncodeDoc(r.fields).value);
      DocsBehind(head, r.query, r.fields, x, EncodeDoc(r.fields).value);
    }
  }

  lemma GetMoreReads(r: Request)
    requires r.GetMore?
    ensures var s, at := Body(r).value, |r.ns| + 1;
            && |s| == at + 12 && s[..at] == r.ns + [0]
            && Int32At(s, at) == r.limit && Int64At(s, at + 4) == r.cursorId
  {
    hide Le32, Le64, Int32At, Int64At;
    NumberBehind(r.ns, r.limit, Le64(r.cursorId));
    PartBehind(r.ns + [0] + Le32(r.limit), Le64(r.cursorId));
    Int64OfLe64(Body(r).value, |r.ns| + 5, r.cursorId);
  }

  // One cursor is killed: the one with this id.
  lemma KillCursorsReads(r: Request)
    requires r.KillCursors?
    ensures var s := Body(r).value; |s| == 12 && Int32At(s, 0) == 1 && Int64At(s, 4) == r.cursorId
  {
    hide Le32, Le64, Int32At, Int64At, At;
    AtWhole(Body(r).value);
    AtConcat(Body(r).value, 0, Le32(1), Le64(r.cursorId));
    Int32RoundTrip(1, Body(r).value, 0);
    Int64OfLe64(Body(r).value, 4, r.cursorId);
  }

  // ----- Batches -----

  // The documents of a batch as they are inserted, in order.
  function SentDocs(docs: seq<BatchEntry>): seq<Doc> {
    if docs == [] then []
    else
      var last := docs[|docs| - 1];
      SentDocs(docs[..|docs| - 1]) + if last.Scalar? then [] else [Inserted(last.doc, last.newId)]
  }

  lemma {:induction false} EncodeAllSnoc(docs: seq<Doc>, d: Doc)
    ensures EncodeAll(docs + [d]) == Join(EncodeAll(docs), EncodeDoc(d))
    decreases |docs|
  {
    hide EncodeDoc;
    var e := EncodeDoc(d);
    if docs == [] {
      assert docs + [d] == [d] && [d][1..] == [];
      if e.Some? {
        assert e.value + [] == e.value && [] + e.value == e.value;
      }
    } else {
      assert (docs + [d])[1..] == docs[1..] + [d];
      EncodeAllSnoc(docs[1..], d);
      JoinAssoc(EncodeDoc(docs[0]), EncodeAll(docs[1..]), e);
    }
  }

  lemma JoinAssoc(a: Option<seq<Byte>>, b: Option<seq<Byte>>, c: Option<seq<Byte>>)
    ensures Join(a, Join(b, c)) == Join(Join(a, b), c)
  {
    if a.Some? && b.Some? && c.Some? {
      assert a.value + (b.value + c.value) == a.value + b.value + c.value;
    }
  }

  lemma {:induction false} BatchIsAll(docs: seq<BatchEntry>, max: Int32)
    ensures BatchDocs(docs, max).Some? ==> EncodeAll(SentDocs(docs)) == BatchDocs(docs, max)
    decreases |docs|
  {
    hide EncodeDoc, PrepDoc, Inserted, DotFree;
    if docs != [] {
      var last := docs[|docs| - 1];
      BatchIsAll(docs[..|docs| - 1], max);
      if last.Scalar? {
        assert SentDocs(docs) == SentDocs(docs[..|docs| - 1]);
      } else if last.doc.Entry? {
        PreparedIs(last.doc, last.newId);
        EncodeAllSnoc(SentDocs(docs[..|docs| - 1]), Inserted(last.doc, last.newId));
      }
    }
  }

  // A batch is read document by document, scalars left out, up to its end.
  lemma BatchReads(r: Request)
    requires r.BatchInsert? && Body(r).Some? && forall d :: d in SentDocs(r.docs) ==> Carried(d)
    ensures var s, at := Body(r).value, |r.ns| + 1;
            && |s| >= at && s[..at] == r.ns + [0]
            && DecodeAll(s, at, |SentDocs(r.docs)|) == Ok(SentDocs(r.docs), |s|)
  {
    hide EncodeDoc, DecodeAll, EncodeAll, Storable, DatesInRange, SentDocs, BatchDocs;
    var all := BatchDocs(r.docs, r.max).value;
    BatchIsAll(r.docs, r.max);
    var sent := SentDocs(r.docs);
    forall i | 0 <= i < |sent| ensures Storable(sent[i]) && DatesInRange(sent[i]) {
      assert Carried(sent[i]);
    }
    PartBehind(r.ns + [0], all);
    ReplyRoundTrip(SentDocs(r.docs), r.ns + [0] + all, |r.ns| + 1);
  }

  // ----- Which requests are sent -----

  // A message has at most 16,000,000 bytes.
  lemma SentIff(r: Request, requestId: int)
    ensures EncodeRequest(r, requestId).Some? <==> Body(r).Some? && 20 + |Body(r).value| <= 16_000_000
  {
    hide Body, Header;
  }

  // A document is inserted when it has elements and a dot in no key, and is
  // neither too large for the format nor for the server.
  predicate Insertable(d: Doc, newId: ObjectId, max: Int32) {
    && d.Entry? && DotFree(d)
    && EncodeDoc(Inserted(d, newId)).Some? && |EncodeDoc(Inserted(d, newId)).value| <= max
  }

  lemma InsertableIff(d: Doc, newId: ObjectId, max: Int32)
    ensures InsertedDoc(d, newId, max).Some? <==> Insertable(d, newId, max)
    ensures Insertable(d, newId, max) ==> InsertedDoc(d, newId, max) == EncodeDoc(Inserted(d, newId))
  {
    if d.Entry? {
      PreparedIs(d, newId);
    }
    hide EncodeDoc, PrepDoc, Inserted, DotFree;
  }

  // A batch is sent when it has a document, all its documents can be inserted,
  // and the whole message is smaller than what the server takes at once.
  lemma BatchIsSentIff(r: Request)
    requires r.BatchInsert?
    ensures Body(r).Some? <==>
            && (exists i :: 0 <= i < |r.docs| && r.docs[i].Document?)
            && (forall i :: 0 <= i < |r.docs| && r.docs[i].Document? ==>
                  Insertable(r.docs[i].doc, r.docs[i].newId, r.max))
            && EncodeAll(SentDocs(r.docs)).Some?
            && 20 + |r.ns| + 1 + |EncodeAll(SentDocs(r.docs)).value| < r.maxSend
  {
    hide EncodeAll, SentDocs, BatchDocs, Insertable;
    BatchIsAll(r.docs, r.max);
    AllInsertableIff(r.docs, r.max);
  }

  lemma {:induction false} AllInsertableIff(docs: seq<BatchEntry>, max: Int32)
    ensures BatchDocs(docs, max).Some? <==>
            forall i :: 0 <= i < |docs| && docs[i].Document? ==> Insertable(docs[i].doc, docs[i].newId, max)
    decreases |docs|
  {
    hide Insertable, InsertedDoc;
    if docs != [] {
      var init, last := docs[..|docs| - 1], docs[|docs| - 1];
      AllInsertableIff(init, max);
      assert docs == init + [last];
      if last.Document? {
        InsertableIff(last.doc, last.newId, max);
      }
      assert forall i :: 0 <= i < |init| ==> init[i] == docs[i];
    }
  }

  // The other requests are sent when their documents can be encoded.
  lemma BodyIsSomeIff(r: Request)
    ensures r.Insert? ==> (Body(r).Some? <==> Insertable(r.doc, r.newId, r.max))
    ensures r.Update? ==> (Body(r).Some? <==> EncodeDoc(r.criteria).Some? && EncodeDoc(r.newObject).Some?)
    ensures r.Delete? ==> (Body(r).Some? <==> EncodeDoc(r.criteria).Some?)
    ensures r.Query? ==>
              (Body(r).Some? <==> EncodeDoc(r.query).Some? && (r.fields.Entry? ==> EncodeDoc(r.fields).Some?))
    ensures r.GetMore? || r.KillCursors? ==> Body(r).Some?
  {
    hide EncodeDoc, Insertable, InsertedDoc;
    if r.Insert? {
      InsertableIff(r.doc, r.newId, r.max);
    }
  }
}
