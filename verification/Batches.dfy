// The body of a reply: documents one after the other, decoded one at a time as
// a cursor steps over them.
module Batches {
  import opened Bytes
  import opened Document
  import opened Bson
  import opened BsonRoundTrip
  import BsonReader

  function EncodeAll(docs: seq<Doc>): Option<seq<Byte>> {
    if docs == [] then Some([]) else Join(EncodeDoc(docs[0]), EncodeAll(docs[1..]))
  }

  // The first n documents from position p on, and the position behind them.
  function DecodeAll(s: seq<Byte>, p: nat, n: nat): Parsed<seq<Doc>>
    requires p <= |s|
    decreases n
  {
    if n == 0 then Ok([], p)
    else
      var first := DecodeDoc(s, p);
      if first.Err? then Err(first.error)
      else
        var rest := DecodeAll(s, first.next, n - 1);
        if rest.Err? then rest else Ok([first.value] + rest.value, rest.next)
  }

  // The steps of MongoCursor::next over one reply of n documents.
  method StepOver(s: seq<Byte>, start: nat, n: nat) returns (docs: Parsed<seq<Doc>>)
    requires start <= |s|
    ensures docs == DecodeAll(s, start, n)
  {
    hide DecodeDoc;
    var pos: nat, at: nat, seen := start, 0, [];
    ShiftNothing(DecodeAll(s, start, n));
    while at < n
      invariant at <= n && pos <= |s|
      invariant DecodeAll(s, start, n) == Shift(seen, DecodeAll(s, pos, n - at))
    {
      var d := BsonReader.BsonToZval(s, pos);
      if d.Err? {
        return Err(d.error);
      }
      ShiftOne(seen, d.value, DecodeAll(s, d.next, n - at - 1));
      seen := seen + [d.value];
      pos, at := d.next, at + 1;
    }
    assert seen + [] == seen;
    docs := Ok(seen, pos);
  }

  function Shift(seen: seq<Doc>, r: Parsed<seq<Doc>>): Parsed<seq<Doc>> {
    if r.Err? then r else Ok(seen + r.value, r.next)
  }

  lemma ShiftNothing(r: Parsed<seq<Doc>>)
    ensures Shift([], r) == r
  {
    if r.Ok? {
      assert [] + r.value == r.value;
    }
  }

  lemma ShiftOne(seen: seq<Doc>, d: Doc, r: Parsed<seq<Doc>>)
    ensures Shift(seen, Shift([d], r)) == Shift(seen + [d], r)
  {
    if r.Ok? {
      assert seen + ([d] + r.value) == (seen + [d]) + r.value;
    }
  }

  // A reply gives the documents that were put into it, in order, when they are
  // storable, whatever follows it.
  lemma {:induction false} ReplyRoundTrip(docs: seq<Doc>, s: seq<Byte>, p: nat)
    requires forall i :: 0 <= i < |docs| ==> Storable(docs[i]) && DatesInRange(docs[i])
    requires EncodeAll(docs).Some? && At(s, p, EncodeAll(docs).value)
    ensures DecodeAll(s, p, |docs|) == Ok(docs, p + |EncodeAll(docs).value|)
    decreases |docs|
  {
    hide EncodeDoc, DecodeDoc, Storable, DatesInRange;
    if docs != [] {
      var first, rest := EncodeDoc(docs[0]).value, EncodeAll(docs[1..]).value;
      AtConcat(s, p, first, rest);
      SurvivesIff(docs[0], s, p);
      ReplyRoundTrip(docs[1..], s, p + |first|);
      assert docs == [docs[0]] + docs[1..];
    } else {
      assert DecodeAll(s, p, 0) == Ok([], p);
    }
  }
}
