// Iterating a query result that the server sends in batches.
module Cursor {
  import opened Bytes

  // get_limit: the number of documents to ask for next. A negative number asks
  // for a single batch.
  function GetLimit(limit: int, batchSize: int, at: int): int {
    if limit < 0 then limit
    else if batchSize < 0 then batchSize
    else
      var limAt := if limit > batchSize then limit - at else limit;
      if batchSize != 0 && (limAt == 0 || batchSize <= limAt) then batchSize
      else if limAt != 0 && (batchSize == 0 || limAt < batchSize) then limAt
      else 0
  }

  // Under a limit that has not been reached the request is positive, and it
  // stays within the limit exactly when the limit is larger than the batch size
  // or nothing has been delivered yet.
  lemma RequestWithinLimit(limit: int, batchSize: int, at: int)
    requires 0 <= at < limit && batchSize >= 0
    ensures GetLimit(limit, batchSize, at) > 0
    ensures at + GetLimit(limit, batchSize, at) <= limit <==> limit > batchSize || at == 0
  {
  }

  // A negative limit is asked for as it is, and so is a negative batch size.
  // Without a limit a whole batch is asked for; under one that is not reached
  // what is left of it, unless a batch is smaller or the limit is not larger than
  // a batch.
  lemma RequestIs(limit: int, batchSize: int, at: int)
    ensures limit < 0 ==> GetLimit(limit, batchSize, at) == limit
    ensures limit >= 0 && batchSize < 0 ==> GetLimit(limit, batchSize, at) == batchSize
    ensures limit == 0 && batchSize >= 0 ==> GetLimit(limit, batchSize, at) == batchSize
    ensures limit > 0 && batchSize == 0 ==> GetLimit(limit, batchSize, at) == limit - at
    ensures 0 < limit <= batchSize ==> GetLimit(limit, batchSize, at) == limit
    ensures 0 < batchSize < limit && batchSize <= limit - at ==> GetLimit(limit, batchSize, at) == batchSize
    ensures 0 < batchSize < limit && 0 < limit - at < batchSize ==> GetLimit(limit, batchSize, at) == limit - at
  {
  }

  // A request is within the batch size when there is one, and asks for something
  // in one batch exactly when a negative limit or batch size says so.
  ghost predicate Reasonable(limit: int, batchSize: int, request: int) {
    && (limit >= 0 && batchSize > 0 ==> 0 < request <= batchSize)
    && (limit > 0 && batchSize == 0 ==> 0 < request <= limit)
    && (limit == 0 && batchSize == 0 ==> request == 0)
    && (limit < 0 ==> request == limit)
    && (limit >= 0 && batchSize < 0 ==> request == batchSize)
  }

  lemma RequestIsReasonable(limit: int, batchSize: int, at: int)
    requires at >= 0 && (limit > 0 ==> at < limit)
    ensures Reasonable(limit, batchSize, GetLimit(limit, batchSize, at))
  {
  }

  // The requests from this one on are like that.
  ghost predicate AllAre(limit: int, batchSize: int, asked: seq<int>, start: nat) {
    start <= |asked| && forall i :: start <= i < |asked| ==> Reasonable(limit, batchSize, asked[i])
  }

  lemma OneMore(limit: int, batchSize: int, asked: seq<int>, start: nat, at: int)
    requires at >= 0 && (limit > 0 ==> at < limit) && AllAre(limit, batchSize, asked, start)
    ensures AllAre(limit, batchSize, asked + [GetLimit(limit, batchSize, at)], start)
  {
    hide Reasonable, GetLimit;
    RequestIsReasonable(limit, batchSize, at);
  }

  lemma NoneYet(limit: int, batchSize: int, asked: seq<int>)
    ensures AllAre(limit, batchSize, asked, |asked|)
  {
  }

  function Abs(x: int): nat {
    if x < 0 then -x else x
  }

  // A connection that breaks, a reply with the flag for a cursor that was not
  // found, or documents and the cursor's id.
  datatype Reply<T> = Broken | NotFound | Docs(docs: seq<T>, cursorId: Int64)

  // Any server that answers with the next documents of the result. A batch is
  // not longer than requested, and empty only when nothing is left, unless the
  // server may stall (as it may for a tailable cursor). The cursor
  // id is 0 once the server has dropped its cursor: because nothing is left,
  // because a single batch was asked for, or, for some servers, because a
  // request for one document means just that.
  class Server<T> {
    const result: seq<T>
    const isError: T -> bool     // the document has "$err", or a text "err"
    const oneIsHard: bool
    const mayStall: bool
    var sent: nat
    var open: bool
    ghost var asked: seq<int>    // how many documents each request asked for
    ghost var broken: nat        // how often the connection broke

    ghost predicate Valid()
      reads this
    {
      sent <= |result|
    }

    constructor (result: seq<T>, isError: T -> bool, oneIsHard: bool, mayStall: bool)
      ensures Valid() && sent == 0 && this.result == result && this.isError == isError
      ensures this.oneIsHard == oneIsHard && this.mayStall == mayStall
    {
      this.result, this.isError, this.oneIsHard, this.mayStall := result, isError, oneIsHard, mayStall;
      sent, open, asked, broken := 0, false, [], 0;
    }

    predicate MayClose(request: int)
      reads this
    {
      sent == |result| || request < 0 || (request == 1 && oneIsHard)
    }

    // A query starts the result anew, a get-more goes on with it, unless the
    // server does not know the cursor any more.
    method Answer(request: int, isQuery: bool) returns (reply: Reply<T>)
      requires Valid()
      modifies this
      ensures Valid()
      ensures asked == old(asked) + [request] && broken == old(broken) + if reply.Broken? then 1 else 0
      ensures !reply.Docs? ==> sent == old(sent)
      ensures isQuery ==> !reply.NotFound?
      ensures reply.Docs? ==>
                var first := if isQuery then 0 else old(sent);
                && first <= sent && reply.docs == result[first..sent]
                && (first < |result| ==> first < sent || mayStall)
                && (request != 0 ==> sent - first <= Abs(request))
                && (reply.cursorId == 0 ==> MayClose(request))
    {
      asked := asked + [request];
      var first := if isQuery then 0 else sent;
      var fails: bool, forgotten: bool := *, *;
      if fails {
        broken := broken + 1;
        return Broken;
      }
      if forgotten && !isQuery {
        return NotFound;
      }
      var n: int := *;
      if n < 0 || |result| < first + n || (first < |result| && n == 0 && !mayStall)
         || (request != 0 && Abs(request) < n)
      {
        n := if first < |result| then 1 else 0;
      }
      sent := first + n;
      open := *;
      if !MayClose(request) {
        open := true;
      }
      return Docs(result[first..sent], if open then 1 else 0);
    }
  }

  class MongoCursor<T> {
    const server: Server<T>
    var limit: int
    var batchSize: int
    var at: nat                  // documents delivered
    var num: nat                 // documents received
    var cursorId: Int64
    var startedIterating: bool
    var dead: bool
    var connected: bool          // there is a connection
    var batch: seq<T>            // the documents of the last reply
    var bufPos: nat              // the next one to decode
    var current: Option<T>
    ghost var taken: seq<T>      // every document decoded since the query
    ghost var start: nat         // how many requests the server had seen before the query
    ghost var lost: bool         // the query was not sent, or the server did not find the cursor

    // What has been taken is a prefix of the result within the limit, and what
    // is left of the last batch goes on from there.
    ghost predicate Valid()
      reads this, server
    {
      && server.Valid() && AllReasonable()
      && at <= |server.result| && taken == server.result[..at]
      && (limit > 0 ==> at <= limit)
      && (!startedIterating ==> at == 0)
      && (startedIterating && connected ==> Unsent() || (Buffered() && InStep()))
      && (lost ==> cursorId == 0)
    }

    // Every request since the query.
    ghost predicate AllReasonable()
      reads this, server
    {
      AllAre(limit, batchSize, server.asked, start)
    }

    // A connection that breaks makes the cursor dead, and nothing else does.
    ghost predicate Broke(wasDead: bool, before: nat)
      reads this, server
    {
      server.broken >= before && dead == (wasDead || server.broken > before)
    }

    // The query could not be encoded.
    ghost predicate Unsent()
      reads this
    {
      lost && at == num == 0 && cursorId == 0
    }

    ghost predicate Buffered()
      reads this, server
    {
      && at <= num == server.sent <= |server.result|
      && bufPos + (num - at) == |batch|
      && batch[bufPos..] == server.result[at..num]
    }

    ghost predicate InStep()
      reads this, server
    {
      && (num == 0 ==> server.result == [] || server.mayStall)
      && (cursorId == 0 ==>
            num == |server.result| || Single() || (limit > 0 && num >= limit) || lost || server.mayStall)
      && (limit > batchSize >= 0 ==> num <= limit)
    }

    // The server may end this cursor early: a single batch is asked for, or
    // batches of one document are and that counts as a single batch.
    predicate Single()
      reads this
    {
      limit < 0 || batchSize < 0 || (server.oneIsHard && batchSize == 1 && limit != 1)
    }

    // Nothing more is to be delivered, or the server has nothing at the moment.
    predicate Done()
      reads this
    {
      at == |server.result| || (limit > 0 && at >= limit) || Single() || server.mayStall
    }

    constructor (server: Server<T>, limit: int, batchSize: int)
      requires server.Valid()
      ensures Valid() && !startedIterating && !dead && this.server == server
      ensures this.limit == limit && this.batchSize == batchSize
    {
      this.server, this.limit, this.batchSize := server, limit, batchSize;
      at, num, cursorId, startedIterating, dead, connected := 0, 0, 0, false, false, false;
      batch, bufPos, current, taken, lost, start := [], 0, None, [], false, |server.asked|;
    }

    // mongo_util_cursor_reset
    method Reset()
      requires server.Valid()
      modifies this
      ensures start == |server.asked|
      ensures Valid() && !startedIterating && at == 0 && num == 0 && cursorId == 0 && !lost
      ensures dead == old(dead) && connected == old(connected)
      ensures limit == old(limit) && batchSize == old(batchSize) && taken == [] && current == None
    {
      hide AllAre, Server.Valid;
      NoneYet(limit, batchSize, server.asked);
      bufPos, cursorId, startedIterating, current := 0, 0, false, None;
      at, num, taken, lost, start := 0, 0, [], false, |server.asked|;
    }

    // A reply arrives: the header's counters and the body.
    method Receive(docs: seq<T>, id: Int64)
      modifies this`num, this`cursorId, this`batch, this`bufPos
      ensures num == old(num) + |docs| && cursorId == id && batch == docs && bufPos == 0
    {
      num, cursorId := num + |docs|, id;
      batch, bufPos := docs, 0;
    }

    // doQuery. Every failure throws an exception, which ends the loop of retries
    // after one attempt: false. Only a connection that breaks makes the cursor
    // dead; without one it has none, and a query that cannot be encoded leaves it
    // with a connection and nothing received. A dead cursor stays dead.
    method DoQuery() returns (ok: bool)
      requires server.Valid()
      modifies this, server
      ensures server.Valid() && AllReasonable() && start == |old(server.asked)| && Broke(old(dead), old(server.broken))
      ensures server.asked == old(server.asked) || server.asked == old(server.asked) + [GetLimit(limit, batchSize, 0)]
      ensures ok ==> |server.asked| > |old(server.asked)|
      ensures !startedIterating && at == 0 && taken == [] && current == None
      ensures ok ==> connected && !lost && server.broken == old(server.broken) && Buffered() && InStep()
      ensures !ok ==> if connected then Unsent() && dead == old(dead) && server.asked == old(server.asked) else !lost
      ensures limit == old(limit) && batchSize == old(batchSize)
    {
      hide AllAre, Valid;
      Reset();
      NoneYet(limit, batchSize, server.asked);
      OneMore(limit, batchSize, server.asked, start, at);
      var encodes: bool;
      connected, encodes := *, *;
      if !connected {
        return false;
      }
      if !encodes {
        lost := true;
        return false;
      }
      var reply := server.Answer(GetLimit(limit, batchSize, at), true);
      if !reply.Docs? {
        dead, connected := true, false;
        return false;
      }
      Receive(reply.docs, reply.cursorId);
      return true;
    }

    // Everything received has been delivered: asks for the next batch. None
    // stands for an exception.
    method GetMore() returns (r: Option<bool>)
      requires Valid() && startedIterating && connected && at == num && cursorId != 0
      requires 0 < num && (limit > 0 ==> at < limit)
      modifies this`num, this`cursorId, this`batch, this`bufPos, this`dead, this`connected, this`lost, server
      ensures Valid() && Broke(old(dead), old(server.broken))
      ensures server.asked == old(server.asked) + [GetLimit(limit, batchSize, at)]
      ensures r.Some? ==> connected && lost == old(lost) && dead == old(dead)
      ensures r.None? ==> (lost && connected && cursorId == 0 && dead == old(dead)) || (dead && !connected)
      ensures r == Some(true) ==> at < num
      ensures r == Some(false) ==> at == |server.result| || server.mayStall
    {
      hide AllAre, GetLimit;
      OneMore(limit, batchSize, server.asked, start, at);
      RequestIs(limit, batchSize, at);
      var request := GetLimit(limit, batchSize, at);
      var reply := server.Answer(request, false);
      if reply.Broken? {
        dead, connected := true, false;
        return None;
      }
      if reply.NotFound? {
        Receive([], 0);
        lost := true;
        return None;
      }
      Receive(reply.docs, reply.cursorId);
      if limit > batchSize >= 0 {
        RequestWithinLimit(limit, batchSize, at);
      }
      return Some(at < num);
    }

    // MongoCursor::hasNext. None stands for an exception.
    method HasNext() returns (r: Option<bool>)
      requires Valid()
      modifies this, server
      ensures Valid() && startedIterating && at == old(at) && taken == old(taken)
      ensures Broke(old(dead), old(server.broken))
      ensures start == if old(startedIterating) then old(start) else |old(server.asked)|
      ensures limit == old(limit) && batchSize == old(batchSize)
      ensures old(startedIterating) ==> current == old(current)
      ensures r.Some? ==> connected && dead == old(dead)
      ensures r.None? ==> !connected || lost
      ensures r == Some(true) ==> at < num && (limit > 0 ==> at < limit)
      ensures r == Some(false) ==> Done() || lost
      ensures r.Some? ==> lost ==> old(lost)
    {
      hide AllAre, GetLimit;
      if !startedIterating {
        var ok := DoQuery();
        startedIterating := true;
        if !ok {
          return None;
        }
      }
      if !connected {
        return None;
      }
      if (limit > 0 && at >= limit) || num == 0 {
        if cursorId != 0 {
          // the server's cursor is killed when the open-cursor list holds it
          var listed: bool := *;
          cursorId := if listed then 0 else cursorId;
        }
        return Some(false);
      }
      if at < num {
        return Some(true);
      } else if cursorId == 0 {
        return Some(false);
      }
      r := GetMore();
    }

    // MongoCursor::next, with the document decoded from the buffer as the
    // current one. None stands for an exception: a dead cursor, a failure on the
    // way, or an error that the server sent in place of a document.
    method Next() returns (r: Option<bool>)
      requires Valid()
      modifies this, server
      ensures Valid()
      ensures limit == old(limit) && batchSize == old(batchSize)
      ensures Broke(old(dead), old(server.broken)) && (!startedIterating ==> at == old(at))
      ensures !old(dead) ==> start == if old(startedIterating) then old(start) else |old(server.asked)|
      ensures old(dead) ==> r.None? && start == old(start)
      ensures r.Some? ==> startedIterating && connected && !dead && (lost ==> old(lost))
      ensures r == Some(true) ==>
                && at == old(at) + 1
                && taken == old(taken) + [server.result[old(at)]]
                && current == Some(server.result[old(at)]) && !server.isError(server.result[old(at)])
      ensures r == Some(false) ==> at == old(at) && taken == old(taken) && current == None && (Done() || lost)
      ensures r.None? ==>
                || dead || lost || !connected
                || (at == old(at) + 1 && taken == old(taken) + [server.result[old(at)]]
                    && current == None && server.isError(server.result[old(at)]))
    {
      hide Valid, Done, Single;
      if dead {
        return None;
      }
      if !startedIterating {
        var ok := Begin();
        if !ok {
          return None;
        }
      }
      DropCurrent();
      r := HasNext();
      if r == Some(true) {
        Take();
        if server.isError(current.value) {
          DropCurrent();
          return None;
        }
      }
    }

    // The query of next(), after which the iteration has started unless it threw.
    method Begin() returns (ok: bool)
      requires Valid() && !startedIterating
      modifies this, server
      ensures Valid() && at == old(at) && taken == old(taken) && current == None
      ensures startedIterating == ok && Broke(old(dead), old(server.broken)) && start == |old(server.asked)|
      ensures if ok then connected && !lost && dead == old(dead) else connected ==> lost && dead == old(dead)
      ensures limit == old(limit) && batchSize == old(batchSize)
    {
      ok := DoQuery();
      startedIterating := ok;
    }

    method DropCurrent()
      requires Valid()
      modifies this`current
      ensures Valid() && current == None
    {
      current := None;
    }

    // Decodes the next document of the batch.
    method Take()
      requires Valid() && startedIterating && connected && at < num && (limit > 0 ==> at < limit)
      modifies this`current, this`bufPos, this`at, this`taken
      ensures Valid() && at == old(at) + 1 && old(at) < |server.result|
      ensures current == Some(server.result[old(at)])
      ensures taken == old(taken) + [server.result[old(at)]]
    {
      assert batch[bufPos..][0] == server.result[at..num][0];
      assert batch[bufPos + 1..] == batch[bufPos..][1..] == server.result[at..num][1..] == server.result[at + 1..num];
      current := Some(batch[bufPos]);
      bufPos, at, taken := bufPos + 1, at + 1, taken + [batch[bufPos]];
    }

    // The first documents of the result, as many as the limit allows.
    function Wanted(): (w: seq<T>)
      reads this
    {
      if 0 < limit < |server.result| then server.result[..limit] else server.result
    }

    // Runs the cursor from its start to its end, the way a foreach loop does.
    // What the loop sees is a prefix of the wanted documents, none of them an
    // error. Without an exception it is all of them, unless the server may end
    // the cursor early or stall.
    method Iterate() returns (seen: seq<T>, failed: bool)
      requires server.Valid()
      modifies this, server
      ensures Valid() && seen <= server.result && forall x :: x in seen ==> !server.isError(x)
      ensures limit == old(limit) && batchSize == old(batchSize)
      ensures old(limit) > 0 ==> |seen| <= old(limit)
      ensures !failed && !Single() && !server.mayStall ==> seen == Wanted()
      ensures limit > batchSize >= 0 && !failed ==> num <= limit
      ensures forall i :: |old(server.asked)| <= i < |server.asked| ==> Reasonable(limit, batchSize, server.asked[i])
    {
      Reset();
      seen := [];
      while true
        invariant Valid() && seen == taken && !lost && forall x :: x in seen ==> !server.isError(x)
        invariant limit == old(limit) && batchSize == old(batchSize)
        invariant start == |old(server.asked)| && (!startedIterating ==> server.asked == old(server.asked))
        decreases |server.result| - at
      {
        var more := Next();
        if more.None? || !more.value {
          assert AllReasonable();
          assert server.result[..|server.result|] == server.result;
          return seen, more.None?;
        }
        seen := seen + [current.value];
      }
    }
  }
}
