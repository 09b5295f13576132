// The network that replica-set discovery walks: the hosts that are up, and what
// each of them answers. Where hosts are listed under names that they do not
// answer to, the walk need not end.
module Network {
  import opened Bytes
  import opened Text
  import opened Manager

  datatype Reply = Reply(me: Option<Host>, setName: Option<Text>, hosts: seq<Host>,
                         isMaster: bool, secondary: bool, arbiter: bool, tags: seq<Text>)

  type Net = map<Host, Reply>

  // The kind of server an answer tells of: a primary first, an arbiter last.
  function KindOf(r: Reply): NodeType {
    if r.isMaster then Primary else if r.secondary then Secondary else if r.arbiter then Arbiter else Invalid
  }

  // The flags of an answer, and the kind that they give a connection.
  predicate FlagsTell(r: Reply, kind: NodeType) {
    && (r.isMaster ==> kind == Primary)
    && (!r.isMaster && r.secondary ==> kind == Secondary)
    && (!r.isMaster && !r.secondary && r.arbiter ==> kind == Arbiter)
    && (!r.isMaster && !r.secondary && !r.arbiter ==> kind == Invalid)
  }

  lemma KindIsTold(r: Reply)
    ensures FlagsTell(r, KindOf(r))
  {
  }

  // A host whose ismaster answer is accepted.
  predicate Member(net: Net, setName: Text, h: Host) {
    h in net && net[h].me.Some? && net[h].setName == Some(setName)
  }

  // A member that is known by the name it gives itself.
  predicate Healthy(net: Net, setName: Text, h: Host) {
    Member(net, setName, h) && net[h].me == Some(h)
  }

  // A member under a name that it does not give itself.
  predicate Alias(net: Net, setName: Text, h: Host) {
    Member(net, setName, h) && net[h].me != Some(h)
  }

  // Members, each of which lists the next one.
  ghost predicate Path(net: Net, setName: Text, path: seq<Host>) {
    && (forall k :: 0 <= k < |path| ==> Member(net, setName, path[k]))
    && (forall k :: 0 < k < |path| ==> path[k] in net[path[k - 1]].hosts)
  }

  // A path leads from one of the servers to h.
  ghost predicate Reached(net: Net, setName: Text, servers: seq<Host>, h: Host) {
    exists path :: LeadsTo(net, setName, servers, path, h)
  }

  ghost predicate LeadsTo(net: Net, setName: Text, servers: seq<Host>, path: seq<Host>, h: Host) {
    path != [] && path[0] in servers && Path(net, setName, path) && path[|path| - 1] == h
  }

  lemma ServerReached(net: Net, setName: Text, servers: seq<Host>, h: Host)
    requires h in servers && Member(net, setName, h)
    ensures Reached(net, setName, servers, h)
  {
    assert LeadsTo(net, setName, servers, [h], h);
  }

  lemma ListedReached(net: Net, setName: Text, servers: seq<Host>, h: Host, x: Host)
    requires Reached(net, setName, servers, h) && Member(net, setName, h)
    requires x in net[h].hosts && Member(net, setName, x)
    ensures Reached(net, setName, servers, x)
  {
    hide Member;
    var path :| LeadsTo(net, setName, servers, path, h);
    assert LeadsTo(net, setName, servers, path + [x], x);
  }

  // ----- Circles of aliases -----

  predicate ListsOneOf(net: Net, h: Host, circle: set<Host>) {
    h in net && exists y :: y in net[h].hosts && y in circle
  }

  ghost predicate IsCircle(net: Net, setName: Text, circle: set<Host>) {
    circle != {} && forall x :: x in circle ==> Alias(net, setName, x) && ListsOneOf(net, x, circle)
  }

  // Aliases that the servers lead to list each other in a circle.
  ghost predicate Circular(net: Net, setName: Text, servers: seq<Host>) {
    exists circle: set<Host> :: IsCircle(net, setName, circle) && AllReached(net, setName, servers, circle)
  }

  ghost predicate AllReached(net: Net, setName: Text, servers: seq<Host>, hosts: set<Host>) {
    forall x :: x in hosts ==> Reached(net, setName, servers, x)
  }

  // Hosts that are listed under their own names make no circle.
  lemma OwnNamesAreNotCircular(net: Net, setName: Text, servers: seq<Host>)
    requires forall p, x :: p in net && x in net[p].hosts ==> !Alias(net, setName, x)
    ensures !Circular(net, setName, servers)
  {
    hide IsCircle, AllReached, Alias;
    if circle: set<Host> :| IsCircle(net, setName, circle) && AllReached(net, setName, servers, circle) {
      CircleListsAlias(net, setName, circle);
    }
  }

  lemma CircleListsAlias(net: Net, setName: Text, circle: set<Host>)
    requires IsCircle(net, setName, circle)
    ensures exists p, x :: p in net && x in net[p].hosts && Alias(net, setName, x)
  {
    hide Alias;
    var p :| p in circle;
    assert ListsOneOf(net, p, circle);
    var x :| x in net[p].hosts && x in circle;
  }

  // A server that calls itself b, and lists itself as a.
  function Misnamed(a: Host, b: Host, setName: Text): Net {
    map[a := Reply(Some(b), Some(setName), [a], true, false, false, [])]
  }

  lemma MisnamedIsCircle(a: Host, b: Host, setName: Text)
    requires a != b
    ensures IsCircle(Misnamed(a, b, setName), setName, {a})
  {
    assert Misnamed(a, b, setName)[a].hosts[0] == a;
  }

  lemma MisnamedIsCircular(a: Host, b: Host, setName: Text)
    requires a != b
    ensures Circular(Misnamed(a, b, setName), setName, [a])
  {
    MisnamedIsCircle(a, b, setName);
    ServerReached(Misnamed(a, b, setName), setName, [a], a);
    hide IsCircle, Reached, Misnamed;
    assert AllReached(Misnamed(a, b, setName), setName, [a], {a});
  }

  // A rank that falls from every alias to the aliases it lists.
  ghost predicate Ranked(net: Net, setName: Text, rank: map<Host, nat>) {
    forall x, y :: x in rank && Alias(net, setName, x) && y in net[x].hosts && Alias(net, setName, y) ==>
      y in rank && rank[y] < rank[x]
  }

  // Without a circle the aliases can be ranked.
  lemma {:induction false} RankExists(net: Net, setName: Text, aliases: set<Host>) returns (rank: map<Host, nat>)
    requires forall x :: x in aliases ==> Alias(net, setName, x)
    requires forall circle: set<Host> :: circle <= aliases ==> !IsCircle(net, setName, circle)
    ensures rank.Keys == aliases
    ensures forall x, y :: x in aliases && x in net && y in net[x].hosts && y in aliases ==> rank[y] < rank[x]
    decreases aliases
  {
    if aliases == {} {
      return map[];
    }
    assert !IsCircle(net, setName, aliases);
    var sink :| sink in aliases && !ListsOneOf(net, sink, aliases);
    var lower := RankExists(net, setName, aliases - {sink});
    rank := map x | x in aliases :: if x == sink then 0 else lower[x] + 1;
    forall x, y | x in aliases && y in net[x].hosts && y in aliases ensures rank[y] < rank[x] {
      assert ListsOneOf(net, x, aliases);
    }
  }

  // The reached members, and a rank for the aliases among them.
  ghost predicate Fine(net: Net, setName: Text, reached: set<Host>, rank: map<Host, nat>) {
    && Ranked(net, setName, rank)
    && (forall x :: x in reached && Alias(net, setName, x) ==> x in rank)
    && (forall x, y :: x in reached && Member(net, setName, x) && y in net[x].hosts && Member(net, setName, y) ==>
          y in reached)
  }

  lemma NotCircularIsFine(net: Net, setName: Text, servers: seq<Host>)
    returns (reached: set<Host>, rank: map<Host, nat>)
    requires !Circular(net, setName, servers)
    ensures Fine(net, setName, reached, rank)
    ensures forall x :: x in servers && Member(net, setName, x) ==> x in reached
  {
    hide Reached, IsCircle;
    reached := set h | h in net && Member(net, setName, h) && Reached(net, setName, servers, h);
    var aliases := set h | h in reached && Alias(net, setName, h);
    rank := RankExists(net, setName, aliases);
    forall x, y | x in reached && y in net[x].hosts && Member(net, setName, y) ensures y in reached {
      ListedReached(net, setName, servers, x, y);
    }
    forall x | x in servers && Member(net, setName, x) ensures x in reached {
      ServerReached(net, setName, servers, x);
    }
  }

  // How many servers asking one host comes to at most, until only hosts under
  // their own names are left to ask.
  ghost function Cost(net: Net, setName: Text, rank: map<Host, nat>, h: Host): (n: nat)
    requires Ranked(net, setName, rank)
    ensures n > 0
    decreases if h in rank then rank[h] + 1 else 0, 0
  {
    if Alias(net, setName, h) && h in rank then 1 + CostsBelow(net, setName, rank, net[h].hosts, rank[h]) else 1
  }

  ghost function CostsBelow(net: Net, setName: Text, rank: map<Host, nat>, hosts: seq<Host>, bound: nat): nat
    requires Ranked(net, setName, rank)
    decreases bound, |hosts|
  {
    if hosts == [] then 0
    else
      var last := hosts[|hosts| - 1];
      CostsBelow(net, setName, rank, hosts[..|hosts| - 1], bound)
      + if last in rank && rank[last] < bound then Cost(net, setName, rank, last) else 1
  }

  ghost function Costs(net: Net, setName: Text, rank: map<Host, nat>, hosts: seq<Host>): nat
    requires Ranked(net, setName, rank)
  {
    if hosts == [] then 0
    else Costs(net, setName, rank, hosts[..|hosts| - 1]) + Cost(net, setName, rank, hosts[|hosts| - 1])
  }

  lemma {:induction false} CostsBelowIs(net: Net, setName: Text, rank: map<Host, nat>, hosts: seq<Host>, bound: nat)
    requires Ranked(net, setName, rank)
    requires forall y :: y in hosts && Alias(net, setName, y) ==> y in rank && rank[y] < bound
    ensures CostsBelow(net, setName, rank, hosts, bound) == Costs(net, setName, rank, hosts)
  {
    hide Ranked, Alias;
    if hosts != [] {
      CostsBelowIs(net, setName, rank, hosts[..|hosts| - 1], bound);
      CostOfOther(net, setName, rank, hosts[|hosts| - 1]);
    }
  }

  lemma CostOfOther(net: Net, setName: Text, rank: map<Host, nat>, h: Host)
    requires Ranked(net, setName, rank)
    ensures !Alias(net, setName, h) ==> Cost(net, setName, rank, h) == 1
  {
  }

  // Asking an alias costs more than asking all that it lists.
  lemma CostOfAlias(net: Net, setName: Text, rank: map<Host, nat>, h: Host)
    requires Ranked(net, setName, rank) && Alias(net, setName, h) && h in rank
    ensures Cost(net, setName, rank, h) == 1 + Costs(net, setName, rank, net[h].hosts)
  {
    CostsBelowIs(net, setName, rank, net[h].hosts, rank[h]);
    hide Ranked, Costs, CostsBelow;
  }

  // Some of the elements, in order.
  ghost predicate PickedFrom(picked: seq<Host>, hosts: seq<Host>) {
    picked == [] || (hosts != [] && (PickedFrom(picked, hosts[..|hosts| - 1])
                                     || (picked[|picked| - 1] == hosts[|hosts| - 1]
                                         && PickedFrom(picked[..|picked| - 1], hosts[..|hosts| - 1]))))
  }

  lemma {:induction false} PickedIn(picked: seq<Host>, hosts: seq<Host>)
    requires PickedFrom(picked, hosts)
    ensures forall x :: x in picked ==> x in hosts
    decreases |hosts|
  {
    if picked != [] {
      if PickedFrom(picked, hosts[..|hosts| - 1]) {
        PickedIn(picked, hosts[..|hosts| - 1]);
      } else {
        PickedIn(picked[..|picked| - 1], hosts[..|hosts| - 1]);
        assert picked == picked[..|picked| - 1] + [picked[|picked| - 1]];
      }
    }
  }

  lemma {:induction false} PickedCosts(net: Net, setName: Text, rank: map<Host, nat>, picked: seq<Host>,
                                       hosts: seq<Host>)
    requires Ranked(net, setName, rank) && PickedFrom(picked, hosts)
    ensures Costs(net, setName, rank, picked) <= Costs(net, setName, rank, hosts)
    decreases |hosts|
  {
    hide Ranked, Cost;
    if picked != [] {
      if PickedFrom(picked, hosts[..|hosts| - 1]) {
        PickedCosts(net, setName, rank, picked, hosts[..|hosts| - 1]);
      } else {
        PickedCosts(net, setName, rank, picked[..|picked| - 1], hosts[..|hosts| - 1]);
      }
    }
  }

  lemma {:induction false} CostsConcat(net: Net, setName: Text, rank: map<Host, nat>, a: seq<Host>, b: seq<Host>)
    requires Ranked(net, setName, rank)
    ensures Costs(net, setName, rank, a + b) == Costs(net, setName, rank, a) + Costs(net, setName, rank, b)
  {
    hide Ranked, Cost;
    if b == [] {
      assert a + b == a;
    } else {
      assert (a + b)[..|a + b| - 1] == a + b[..|b| - 1];
      CostsConcat(net, setName, rank, a, b[..|b| - 1]);
    }
  }

  // Asking the first one, which adds some hosts that cost less, makes the whole
  // cheaper.
  lemma CostsFall(net: Net, setName: Text, rank: map<Host, nat>, rest: seq<Host>, added: seq<Host>)
    requires Ranked(net, setName, rank) && rest != []
    requires added == [] || (Alias(net, setName, rest[0]) && rest[0] in rank && PickedFrom(added, net[rest[0]].hosts))
    ensures Costs(net, setName, rank, rest[1..] + added) < Costs(net, setName, rank, rest)
  {
    hide Ranked, Costs, Cost, PickedFrom, Alias;
    var h := rest[0];
    CostsConcat(net, setName, rank, [h], rest[1..]);
    assert [h] + rest[1..] == rest;
    CostsConcat(net, setName, rank, rest[1..], added);
    CostsOfOne(net, setName, rank, h);
    CostsOfNone(net, setName, rank);
    if added != [] {
      AliasIsUp(net, setName, h);
      CostOfAlias(net, setName, rank, h);
      PickedCosts(net, setName, rank, added, net[h].hosts);
    }
  }

  lemma AliasIsUp(net: Net, setName: Text, h: Host)
    requires Alias(net, setName, h)
    ensures h in net
  {
  }

  lemma CostsOfNone(net: Net, setName: Text, rank: map<Host, nat>)
    requires Ranked(net, setName, rank)
    ensures Costs(net, setName, rank, []) == 0
  {
  }

  lemma CostsOfOne(net: Net, setName: Text, rank: map<Host, nat>, h: Host)
    requires Ranked(net, setName, rank)
    ensures Costs(net, setName, rank, [h]) == Cost(net, setName, rank, h)
  {
    hide Ranked, Cost;
    assert [h][..0] == [];
    CostsOfNone(net, setName, rank);
  }
}
