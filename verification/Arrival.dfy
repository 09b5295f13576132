// A document from the client's table to the server's: prepared, encoded, sent in
// a message, cut off the stream and decoded.
module Arrival {
  import opened Bytes
  import opened Document
  import opened Bson
  import opened BsonRoundTrip
  import opened Prepared
  import opened Wire

  // The body of a received insert is the namespace and the prepared document.
  lemma InsertBodyShape(ns: seq<Byte>, doc: Doc, newId: ObjectId, max: Int32)
    requires Body(Insert(ns, doc, newId, max)).Some?
    ensures doc.Entry? && EncodeDoc(Inserted(doc, newId)).Some?
    ensures Body(Insert(ns, doc, newId, max)).value == ns + [0] + EncodeDoc(Inserted(doc, newId)).value
  {
    if doc.Entry? {
      PreparedIs(doc, newId);
    }
    hide EncodeDoc, PrepDoc, Inserted, DotFree;
  }

  // Behind the namespace the server decodes the document with "_id" in front,
  // up to the end of the message, exactly when that document is storable. The
  // "_id" that arrives is the given one, and the new one where none was given.
  lemma InsertArrivesIff(ns: seq<Byte>, doc: Doc, newId: ObjectId, max: Int32, requestId: int)
    requires EncodeRequest(Insert(ns, doc, newId, max), requestId).Some? && DatesInRange(Inserted(doc, newId))
    ensures var body, sent := Seen(Insert(ns, doc, newId, max), requestId).body, Inserted(doc, newId);
            && |ns| + 1 <= |body| && body[..|ns| + 1] == ns + [0]
            && (DecodeDoc(body, |ns| + 1) == Ok(sent, |body|) <==> Storable(sent))
    ensures var body := Seen(Insert(ns, doc, newId, max), requestId).body;
            var id := StrKey(['_' as int, 'i' as int, 'd' as int]);
            Storable(Inserted(doc, newId)) ==>
              Lookup(DecodeDoc(body, |ns| + 1).value, id)
              == if Lookup(doc, id).Some? then Lookup(doc, id) else Some(Id(Some(newId)))
  {
    IdIsKept(doc, newId);
    hide EncodeDoc, DecodeDoc, Inserted, Storable, DatesInRange, Header;
    MessageShape(Insert(ns, doc, newId, max), requestId);
    hide EncodeRequest;
    InsertBodyShape(ns, doc, newId, max);
    var e := EncodeDoc(Inserted(doc, newId)).value;
    var body := ns + [0] + e;
    assert body[|ns| + 1..|ns| + 1 + |e|] == e;
    SurvivesIff(Inserted(doc, newId), body, |ns| + 1);
    hide Body;
  }
}
