// What the walk over the growing list of servers keeps, told by sets of hosts:
// those that have been polled and those that are registered.
module Walk {
  import opened Text
  import opened Manager
  import opened Network

  // Polled hosts are members, and every member that one of them lists is
  // registered or has been polled.
  ghost predicate Covered(net: Net, setName: Text, polled: set<Host>, registered: set<Host>) {
    && (forall p :: p in polled ==> Member(net, setName, p))
    && (forall p, x :: p in polled && p in net && x in net[p].hosts && Member(net, setName, x) ==>
          x in registered || x in polled)
  }

  // Every registered member is still to come, or was polled under its own name.
  ghost predicate Pending(net: Net, setName: Text, polled: set<Host>, registered: set<Host>, rest: seq<Host>) {
    forall h :: h in registered && Member(net, setName, h) ==> h in rest || (h in polled && Healthy(net, setName, h))
  }

  // A member that was registered at the start is, or has been polled.
  ghost predicate Kept(net: Net, setName: Text, polled: set<Host>, registered: set<Host>, start: set<Host>) {
    forall h :: h in start && Member(net, setName, h) ==> h in polled || h in registered
  }

  // The healthy hosts that may still be asked after the seeds, each of them once:
  // those not registered yet, and those added and not reached.
  ghost predicate Waits(net: Net, setName: Text, registered: set<Host>, rest: seq<Host>, left: set<Host>) {
    && (forall h :: Healthy(net, setName, h) && h !in registered ==> h in left)
    && (forall k :: 0 <= k < |rest| && Healthy(net, setName, rest[k]) ==> rest[k] in registered && rest[k] in left)
    && (forall k, l :: 0 <= k < l < |rest| && rest[k] == rest[l] ==> !Healthy(net, setName, rest[k]))
  }

  // The added servers from position i on.
  function Rest(server: seq<Host>, i: nat, seedCount: nat): seq<Host>
    requires seedCount <= |server| && i <= |server|
  {
    server[if i < seedCount then seedCount else i..]
  }

  // What holds when the walk is at position i.
  ghost predicate Walked(net: Net, setName: Text, polled: set<Host>, registered: set<Host>, server: seq<Host>, i: nat,
                         seedCount: nat, start: set<Host>, left: set<Host>)
  {
    && seedCount <= |server| && i <= |server|
    && Covered(net, setName, polled, registered)
    && Pending(net, setName, polled, registered, server[i..])
    && Kept(net, setName, polled, registered, start)
    && Waits(net, setName, registered, Rest(server, i, seedCount), left)
  }

  function SetOf(s: seq<Host>): set<Host> {
    set x | x in s
  }

  ghost predicate AreNew(registered: set<Host>, added: seq<Host>) {
    && (forall x :: x in added ==> x !in registered)
    && (forall k, l :: 0 <= k < l < |added| ==> added[k] != added[l])
  }

  // What asking the host h does. When it tells its state, it is a member, all
  // that it lists is registered, and its own connection stays if it goes by its
  // own name. When it does not, it is no member and its connection goes, or there
  // is none, or it told its state a moment ago.
  ghost predicate Asked(net: Net, setName: Text, polled: set<Host>, registered: set<Host>, h: Host, told: bool,
                        kept: set<Host>, added: seq<Host>)
  {
    if told then
      && Member(net, setName, h) && kept == (if Healthy(net, setName, h) then registered else registered - {h})
      && AreNew(kept, added) && forall x :: x in net[h].hosts && x in net ==> x in kept || x in added
    else
      && added == []
      && if Member(net, setName, h) && h in registered
         then kept == registered && Healthy(net, setName, h) && h in polled
         else kept == registered || kept == registered - {h}
  }

  ghost function PolledAfter(polled: set<Host>, h: Host, told: bool): set<Host> {
    if told then polled + {h} else polled
  }

  lemma CoveredStep(net: Net, setName: Text, polled: set<Host>, registered: set<Host>, h: Host,
                    told: bool, kept: set<Host>, added: seq<Host>)
    requires Asked(net, setName, polled, registered, h, told, kept, added)
    requires Covered(net, setName, polled, registered)
    ensures Covered(net, setName, PolledAfter(polled, h, told), kept + SetOf(added))
  {
    hide Healthy;
  }

  lemma PendingStep(net: Net, setName: Text, polled: set<Host>, registered: set<Host>, h: Host,
                    told: bool, kept: set<Host>, added: seq<Host>, rest: seq<Host>)
    requires Asked(net, setName, polled, registered, h, told, kept, added)
    requires rest != [] && rest[0] == h && Pending(net, setName, polled, registered, rest)
    ensures Pending(net, setName, PolledAfter(polled, h, told), kept + SetOf(added), rest[1..] + added)
  {
    hide Healthy;
    assert rest == [h] + rest[1..];
  }

  lemma KeptStep(net: Net, setName: Text, polled: set<Host>, registered: set<Host>, h: Host,
                 told: bool, kept: set<Host>, added: seq<Host>, start: set<Host>)
    requires Asked(net, setName, polled, registered, h, told, kept, added)
    requires Kept(net, setName, polled, registered, start)
    ensures Kept(net, setName, PolledAfter(polled, h, told), kept + SetOf(added), start)
  {
    hide Healthy;
  }

  lemma WaitsStep(net: Net, setName: Text, polled: set<Host>, registered: set<Host>, h: Host,
                  told: bool, kept: set<Host>, added: seq<Host>, rest: seq<Host>, left: set<Host>)
    requires Asked(net, setName, polled, registered, h, told, kept, added)
    requires Waits(net, setName, registered, rest, left)
    ensures Waits(net, setName, kept + SetOf(added), rest + added, left)
  {
    hide Member;
    var registered', rest' := kept + SetOf(added), rest + added;
    forall k | 0 <= k < |rest'| && Healthy(net, setName, rest'[k]) ensures rest'[k] in registered' && rest'[k] in left {
      if k >= |rest| {
        assert rest'[k] == added[k - |rest|] && rest'[k] in added;
        assert rest'[k] !in registered;
      }
    }
    forall k, l | 0 <= k < l < |rest'| && rest'[k] == rest'[l] ensures !Healthy(net, setName, rest'[k]) {
      if l >= |rest| {
        assert rest'[l] == added[l - |rest|] && rest'[l] in added;
      }
    }
  }

  // A healthy host that was asked after the seeds is not asked again.
  lemma WaitsLess(net: Net, setName: Text, registered: set<Host>, rest: seq<Host>, left: set<Host>)
    requires rest != [] && Waits(net, setName, registered, rest, left)
    ensures Waits(net, setName, registered, rest[1..], left)
    ensures Healthy(net, setName, rest[0]) ==>
              rest[0] in left && Waits(net, setName, registered, rest[1..], left - {rest[0]})
  {
    hide Healthy;
  }

  // The hosts that are left when h was asked at position i.
  ghost function LeftAfter(net: Net, setName: Text, h: Host, i: nat, seedCount: nat, left: set<Host>): set<Host> {
    if i >= seedCount && Healthy(net, setName, h) then left - {h} else left
  }

  lemma RestStep(server: seq<Host>, i: nat, seedCount: nat, added: seq<Host>, server': seq<Host>)
    requires seedCount <= |server| && i < |server| && |server'| == |server| + |added|
    requires server' == server[i := server'[i]] + added
    ensures server'[i + 1..] == server[i..][1..] + added
    ensures var rest := Rest(server, i, seedCount);
            && (i >= seedCount ==> rest != [] && rest[0] == server[i])
            && Rest(server', i + 1, seedCount) == (if i < seedCount then rest else rest[1..]) + added
  {
  }

  // One round keeps all this.
  lemma Step(net: Net, setName: Text, polled: set<Host>, registered: set<Host>, server: seq<Host>, i: nat,
             seedCount: nat, start: set<Host>, left: set<Host>,
             told: bool, kept: set<Host>, added: seq<Host>, server': seq<Host>)
    requires Walked(net, setName, polled, registered, server, i, seedCount, start, left) && i < |server|
    requires Asked(net, setName, polled, registered, server[i], told, kept, added)
    requires |server'| == |server| + |added| && server' == server[i := server'[i]] + added
    ensures Walked(net, setName, PolledAfter(polled, server[i], told), kept + SetOf(added), server', i + 1, seedCount,
                   start, LeftAfter(net, setName, server[i], i, seedCount, left))
    ensures i >= seedCount && Healthy(net, setName, server[i]) ==> server[i] in left
  {
    hide Covered, Pending, Kept, Waits, Rest, Asked, Healthy, SetOf;
    var h, rest := server[i], Rest(server, i, seedCount);
    RestStep(server, i, seedCount, added, server');
    CoveredStep(net, setName, polled, registered, h, told, kept, added);
    PendingStep(net, setName, polled, registered, h, told, kept, added, server[i..]);
    KeptStep(net, setName, polled, registered, h, told, kept, added, start);
    if i >= seedCount {
      WaitsLess(net, setName, registered, rest, left);
      WaitsStep(net, setName, polled, registered, h, told, kept, added, rest[1..],
                LeftAfter(net, setName, h, i, seedCount, left));
    } else {
      WaitsStep(net, setName, polled, registered, h, told, kept, added, rest, left);
    }
  }

  lemma WalkStarts(net: Net, setName: Text, polled: set<Host>, registered: set<Host>, server: seq<Host>,
                   left: set<Host>)
    requires Covered(net, setName, polled, registered) && Pending(net, setName, polled, registered, server)
    requires forall h :: Healthy(net, setName, h) ==> h in left
    ensures Walked(net, setName, polled, registered, server, 0, |server|, registered, left)
  {
    hide Covered, Healthy, Member;
    assert server[0..] == server;
  }

  lemma WalkEnds(net: Net, setName: Text, polled: set<Host>, registered: set<Host>, server: seq<Host>,
                 seedCount: nat, start: set<Host>, left: set<Host>)
    requires Walked(net, setName, polled, registered, server, |server|, seedCount, start, left)
    ensures Covered(net, setName, polled, registered) && Pending(net, setName, polled, registered, [])
    ensures forall h :: h in start && Member(net, setName, h) ==> h in polled
  {
    hide Covered, Waits, Rest, Healthy, Member;
    assert server[|server|..] == [];
  }

  // Connecting to a server of the list, or dropping its connection because it
  // is down.
  lemma Connected(net: Net, setName: Text, polled: set<Host>, registered: set<Host>, server: seq<Host>, h: Host,
                  ok: bool)
    requires Covered(net, setName, polled, registered) && Pending(net, setName, polled, registered, server)
    requires h in server && (h in net ==> ok)
    ensures var after := if ok then registered + {h} else registered - {h};
            Covered(net, setName, polled, after) && Pending(net, setName, polled, after, server)
  {
  }

  // ----- Closure -----

  // When nothing is pending, every member on a path from a polled host is polled.
  lemma {:induction false} PathIsPolled(net: Net, setName: Text, polled: set<Host>, registered: set<Host>,
                                        path: seq<Host>, k: nat)
    requires Covered(net, setName, polled, registered) && Pending(net, setName, polled, registered, [])
    requires Path(net, setName, path) && k < |path| && path[0] in polled
    ensures path[k] in polled
  {
    if k > 0 {
      PathIsPolled(net, setName, polled, registered, path, k - 1);
    }
  }

  // Every member that the servers lead to has been polled.
  ghost predicate Closed(net: Net, setName: Text, servers: seq<Host>, polled: set<Host>) {
    forall h :: Reached(net, setName, servers, h) ==> h in polled
  }

  lemma NothingPendingIsClosed(net: Net, setName: Text, servers: seq<Host>, polled: set<Host>, registered: set<Host>)
    requires Covered(net, setName, polled, registered) && Pending(net, setName, polled, registered, [])
    requires forall s :: s in servers && Member(net, setName, s) ==> s in polled
    ensures Closed(net, setName, servers, polled)
  {
    hide Covered, Pending, Member;
    forall h | Reached(net, setName, servers, h) ensures h in polled {
      var path :| LeadsTo(net, setName, servers, path, h);
      PathIsPolled(net, setName, polled, registered, path, |path| - 1);
    }
  }

  // ----- The end of the walk -----

  // The walk goes on with less to do.
  ghost predicate Progress(net: Net, setName: Text, rank: map<Host, nat>, left: set<Host>, rest: seq<Host>,
                           seedsToGo: nat, left': set<Host>, rest': seq<Host>, seedsToGo': nat)
    requires Ranked(net, setName, rank)
  {
    || |left'| < |left|
    || (|left'| == |left| && seedsToGo' < seedsToGo)
    || (|left'| == |left| && seedsToGo' == seedsToGo
        && Costs(net, setName, rank, rest') < Costs(net, setName, rank, rest))
  }

  // The members that are still to be asked are among the reached ones.
  ghost predicate Within(net: Net, setName: Text, reached: set<Host>, rest: seq<Host>) {
    forall x :: x in rest && Member(net, setName, x) ==> x in reached
  }

  lemma WithinStep(net: Net, setName: Text, reached: set<Host>, rank: map<Host, nat>, rest: seq<Host>, added: seq<Host>)
    requires Fine(net, setName, reached, rank) && rest != [] && Within(net, setName, reached, rest)
    requires added == [] || (Member(net, setName, rest[0]) && forall x :: x in added ==> x in net[rest[0]].hosts)
    ensures Within(net, setName, reached, rest[1..] + added)
  {
    hide Ranked, Alias;
    assert rest[0] in rest;
    forall x | x in rest[1..] + added && Member(net, setName, x) ensures x in reached {
      if x in added {
        assert Member(net, setName, rest[0]);
      } else {
        assert x in rest[1..];
      }
    }
  }

  lemma StepProgress(net: Net, setName: Text, reached: set<Host>, rank: map<Host, nat>, server: seq<Host>, i: nat,
                     seedCount: nat, left: set<Host>, added: seq<Host>, server': seq<Host>)
    requires Fine(net, setName, reached, rank) && seedCount <= |server| && i < |server|
    requires Within(net, setName, reached, server[i..])
    requires i >= seedCount && Healthy(net, setName, server[i]) ==> server[i] in left
    requires added == [] || (Member(net, setName, server[i]) && PickedFrom(added, net[server[i]].hosts))
    requires |server'| == |server| + |added| && server' == server[i := server'[i]] + added
    ensures Progress(net, setName, rank, left, Rest(server, i, seedCount), if i < seedCount then seedCount - i else 0,
                     LeftAfter(net, setName, server[i], i, seedCount, left), Rest(server', i + 1, seedCount),
                     if i + 1 < seedCount then seedCount - (i + 1) else 0)
  {
    hide Ranked, Costs, Rest, PickedFrom;
    RestStep(server, i, seedCount, added, server');
    if i >= seedCount && !Healthy(net, setName, server[i]) {
      assert server[i..][0] == server[i];
      CostsFall(net, setName, rank, Rest(server, i, seedCount), added);
    }
    hide Fine, Within;
  }

  // ----- Circles -----

  // Once an alias of the circle has been polled, one of them is registered.
  ghost predicate Turning(circle: set<Host>, polled: set<Host>, registered: set<Host>) {
    (exists x :: x in circle && x in polled) ==> exists y :: y in circle && y in registered
  }

  lemma ToldTurns(net: Net, setName: Text, polled: set<Host>, registered: set<Host>, h: Host,
                  kept: set<Host>, added: seq<Host>, circle: set<Host>)
    requires Asked(net, setName, polled, registered, h, true, kept, added)
    requires IsCircle(net, setName, circle) && h in circle
    ensures exists y :: y in circle && y in kept + SetOf(added)
  {
    hide Healthy;
    assert ListsOneOf(net, h, circle);
    var y :| y in net[h].hosts && y in circle;
    assert Alias(net, setName, y);
    assert y in kept + SetOf(added);
  }

  lemma AliasStays(net: Net, setName: Text, polled: set<Host>, registered: set<Host>, h: Host, told: bool,
                   kept: set<Host>, added: seq<Host>, y: Host)
    requires Asked(net, setName, polled, registered, h, told, kept, added)
    requires Alias(net, setName, y) && y in registered && !(told && y == h)
    ensures y in kept
  {
  }

  lemma TurningStep(net: Net, setName: Text, polled: set<Host>, registered: set<Host>, h: Host, told: bool,
                    kept: set<Host>, added: seq<Host>, circle: set<Host>)
    requires Asked(net, setName, polled, registered, h, told, kept, added)
    requires IsCircle(net, setName, circle) && Turning(circle, polled, registered)
    ensures Turning(circle, PolledAfter(polled, h, told), kept + SetOf(added))
  {
    hide Asked, Alias;
    if h in circle && told {
      ToldTurns(net, setName, polled, registered, h, kept, added, circle);
    } else if y :| y in circle && y in registered {
      AliasStays(net, setName, polled, registered, h, told, kept, added, y);
    }
  }

  // A walk that turns in a circle does not come to its end.
  lemma CircleNeverEnds(net: Net, setName: Text, servers: seq<Host>, circle: set<Host>, polled: set<Host>,
                        registered: set<Host>)
    requires IsCircle(net, setName, circle) && AllReached(net, setName, servers, circle)
    requires Closed(net, setName, servers, polled) && Turning(circle, polled, registered)
    ensures !Pending(net, setName, polled, registered, [])
  {
    hide Reached, Pending, ListsOneOf, Alias;
    var x :| x in circle;
    assert x in polled;
    var y :| y in circle && y in registered;
    AliasIsPending(net, setName, polled, registered, y);
  }

  lemma AliasIsPending(net: Net, setName: Text, polled: set<Host>, registered: set<Host>, y: Host)
    requires Alias(net, setName, y) && y in registered
    ensures !Pending(net, setName, polled, registered, [])
  {
  }
}
