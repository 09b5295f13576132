// From the servers of a replica set to the connection that is used: connecting,
// discovery and selection in turn.
module GetConnection {
  import opened Bytes
  import opened Text
  import opened Manager
  import opened ServerHash
  import opened Network
  import opened Walk
  import opened Topology
  import opened ReadPreference
  import opened Selection

  // What the selection sees of the connections, in order.
  ghost function NodesOf(cons: seq<Connection>): (nodes: seq<Node>)
    reads cons
    ensures |nodes| == |cons| && forall i :: 0 <= i < |cons| ==> nodes[i] == NodeOf(cons[i])
  {
    if cons == [] then []
    else NodesOf(cons[..|cons| - 1]) + [NodeOf(cons[|cons| - 1])]
  }

  method Nodes(manager: ConManager) returns (nodes: seq<Node>)
    requires manager.Valid()
    ensures nodes == NodesOf(manager.Cons())
  {
    nodes := [];
    var ptr := manager.connections.head;
    ghost var k := 0;
    ghost var links, cons := manager.connections.nodes, manager.Cons();
    while ptr != null
      invariant k <= |links| && ptr == manager.connections.NodeAt(k)
      invariant nodes == NodesOf(cons[..k])
      decreases |links| - k
    {
      assert manager.connections.Linked(k);
      assert cons[..k + 1][..k] == cons[..k];
      nodes := nodes + [NodeOf(ptr.data)];
      ptr := ptr.next;
      k := k + 1;
    }
    assert cons[..|cons|] == cons;
  }

  // The set's name and the client's credentials can be read back from a hash.
  ghost predicate IsPlain(rs: ReplicaSet) {
    forall h: Host :: Plain(PartsOf(rs.Def(h), rs.pid))
  }

  function ClientOf(rs: ReplicaSet, servers: seq<Host>): Client {
    Client(true, Some(rs.setName), seq(|servers|, i requires 0 <= i < |servers| => rs.Def(servers[i])), rs.pid)
  }

  // A connection of the set is reachable by its kind alone, does not break the
  // search, and has the client's credentials.
  lemma OwnIsCandidate(rs: ReplicaSet, servers: seq<Host>, mode: Mode, h: Host, c: Node)
    requires IsPlain(rs) && servers != [] && c.hash == rs.HashFor(h)
    ensures var client := ClientOf(rs, servers);
            && !Breaks(client, mode, c)
            && (IsReachable(client, mode, c) <==> c.kind in Kinds(mode))
            && HasCreds(client.servers, client.pid)(c)
  {
    hide HashOf, HashedPassword, Plain, Split, Kinds, Breaks, IsReachable;
    var p, client := PartsOf(rs.Def(h), rs.pid), ClientOf(rs, servers);
    assert MadeOf(c, p);
    MadeIsRead(c, p);
    ReachableIff(client, mode, c, p);
    BreaksIff(client, mode, c, p);
  }

  // The manager holds no connections of other clients.
  ghost predicate Alone(rs: ReplicaSet, cons: seq<Connection>) {
    forall c :: c in cons ==> rs.IsOwn(c)
  }

  // So the candidates, before tags, are the connections of the right kind.
  lemma OwnAreCandidates(rs: ReplicaSet, servers: seq<Host>, mode: Mode)
    requires IsPlain(rs) && servers != [] && Alone(rs, rs.manager.Cons())
    ensures var nodes, client := NodesOf(rs.manager.Cons()), ClientOf(rs, servers);
            && (forall n :: n in nodes ==> !Breaks(client, mode, n))
            && forall n :: n in Untagged(nodes, client, mode) <==> n in nodes && n.kind in Kinds(mode)
  {
    hide IsPlain, ClientOf, Breaks, IsReachable, Kinds, HasCreds, Untagged, HashFor;
    var cons, client := rs.manager.Cons(), ClientOf(rs, servers);
    var nodes := NodesOf(cons);
    forall n | n in nodes
      ensures !Breaks(client, mode, n) && (n in Untagged(nodes, client, mode) <==> n.kind in Kinds(mode))
    {
      var i :| 0 <= i < |cons| && nodes[i] == n;
      OwnIsCandidate(rs, servers, mode, rs.HostOf(cons[i]), n);
      UntaggedHas(nodes, client, mode, n);
    }
    forall n | n in Untagged(nodes, client, mode) ensures n in nodes {
      UntaggedHas(nodes, client, mode, n);
    }
  }

  // A healthy host that was polled is connected, and known as what it said.
  lemma PolledIsKnown(rs: ReplicaSet, h: Host)
    requires rs.Consistent() && h in rs.polled && Healthy(rs.net, rs.setName, h)
    ensures exists c :: c in rs.manager.Cons() && rs.IsOwn(c) && c.address == h
                        && c.nodeType == KindOf(rs.net[h]) && FlagsTell(rs.net[h], c.nodeType)
                        && c.tags == rs.net[h].tags
  {
    KindIsTold(rs.net[h]);
    var c :| c in rs.manager.Cons() && rs.IsOwn(c) && rs.HostOf(c) == h;
    assert rs.Told(c) && rs.HasTags(c);
  }

  // A host of the set, under the name it gives itself, that says it is of a kind
  // that serves reads in this mode.
  predicate Says(net: Net, setName: Text, mode: Mode, h: Host) {
    && h in net && net[h].me == Some(h) && net[h].setName == Some(setName)
    && match mode
       case PrimaryOnly => net[h].isMaster
       case SecondaryOnly => net[h].secondary && !net[h].isMaster
       case _ => net[h].isMaster || net[h].secondary
  }

  lemma SaysIff(net: Net, setName: Text, mode: Mode, h: Host)
    ensures Says(net, setName, mode, h) <==> Healthy(net, setName, h) && KindOf(net[h]) in Kinds(mode)
  {
  }

  predicate SaysPrimary(net: Net, setName: Text, h: Host) {
    Says(net, setName, PrimaryOnly, h)
  }

  // A connection that is known as a primary or a secondary leads to a host that
  // said so.
  lemma KnownSaidSo(rs: ReplicaSet, mode: Mode, c: Connection)
    requires rs.Consistent() && c in rs.manager.Cons() && rs.IsOwn(c) && c.nodeType in Kinds(mode) && mode != Nearest
    ensures Says(rs.net, rs.setName, mode, rs.HostOf(c))
  {
    assert rs.Told(c);
    SaysIff(rs.net, rs.setName, mode, rs.HostOf(c));
  }

  // A connection that is known as a primary leads to a healthy host that said so.
  lemma PrimarySaidSo(rs: ReplicaSet, c: Connection)
    requires rs.Consistent() && c in rs.manager.Cons() && rs.IsOwn(c) && c.nodeType == Primary
    ensures SaysPrimary(rs.net, rs.setName, rs.HostOf(c))
  {
    assert rs.Told(c);
  }

  // The servers lead to a host that says it serves this mode, and whose tags
  // meet some tag set.
  ghost predicate Offers(net: Net, setName: Text, servers: seq<Host>, mode: Mode, tagsets: seq<TagSet>) {
    exists h :: Reached(net, setName, servers, h) && Says(net, setName, mode, h) && TagsMeet(tagsets, net[h].tags)
  }

  // The servers lead to this host, which is the only healthy one that says it is
  // the primary.
  ghost predicate IsThePrimary(net: Net, setName: Text, servers: seq<Host>, h: Host) {
    && Reached(net, setName, servers, h) && SaysPrimary(net, setName, h)
    && forall h' :: SaysPrimary(net, setName, h') ==> h' == h
  }

  // A connection of a kind that is asked for, whose tags meet some tag set.
  predicate Serves(c: Connection, mode: Mode, tagsets: seq<TagSet>)
    reads c
  {
    c.nodeType in Kinds(mode) && TagsMeet(tagsets, c.tags)
  }

  // What is offered is found by the search, whatever other clients have.
  lemma OfferedIsCandidate(rs: ReplicaSet, servers: seq<Host>, mode: Mode, tagsets: seq<TagSet>)
    requires IsPlain(rs) && rs.Consistent() && |rs.server| >= |servers|
    requires Closed(rs.net, rs.setName, servers, rs.polled) && Offers(rs.net, rs.setName, servers, mode, tagsets)
    ensures exists n :: n in Untagged(NodesOf(rs.manager.Cons()), ClientOf(rs, rs.server), mode)
                        && TagsMeet(tagsets, n.tags)
  {
    hide IsPlain, ClientOf, Kinds, Untagged, KindOf, TagsMeet, Reached, IsReachable, HasCreds, Breaks, HashFor;
    var h :| Reached(rs.net, rs.setName, servers, h) && Says(rs.net, rs.setName, mode, h)
             && TagsMeet(tagsets, rs.net[h].tags);
    SaysIff(rs.net, rs.setName, mode, h);
    ReachedNotEmpty(rs.net, rs.setName, servers, h);
    PolledIsKnown(rs, h);
    var cons := rs.manager.Cons();
    var i :| 0 <= i < |cons| && rs.IsOwn(cons[i]) && cons[i].address == h && cons[i].nodeType == KindOf(rs.net[h])
             && cons[i].tags == rs.net[h].tags;
    var n := NodesOf(cons)[i];
    OwnIsCandidate(rs, rs.server, mode, h, n);
    UntaggedHas(NodesOf(cons), ClientOf(rs, rs.server), mode, n);
  }

  lemma ReachedNotEmpty(net: Net, setName: Text, servers: seq<Host>, h: Host)
    requires Reached(net, setName, servers, h)
    ensures servers != []
  {
  }

  // The first half: the connections after discovery.
  method Discover(rs: ReplicaSet) returns (nodes: seq<Node>)
    requires rs.Consistent() && Steady(rs.net, rs.setName, rs.polled, rs.registered, rs.server)
    requires !Circular(rs.net, rs.setName, rs.server)
    modifies rs.manager.connections, rs.manager.connections.nodes, rs.manager.Cons(), rs
    ensures rs.Consistent() && Steady(rs.net, rs.setName, rs.polled, rs.registered, rs.server)
    ensures |rs.server| >= |old(rs.server)| && nodes == NodesOf(rs.manager.Cons())
    ensures Closed(rs.net, rs.setName, old(rs.server), rs.polled)
    ensures Alone(rs, old(rs.manager.Cons())) ==> Alone(rs, rs.manager.Cons())
  {
    hide *;
    ghost var was := rs.manager.Cons();
    rs.ConnectAll();
    AloneStays(rs, was);
    ConsistentIsValid(rs);
    nodes := Nodes(rs.manager);
  }

  lemma AloneStays(rs: ReplicaSet, was: seq<Connection>)
    requires forall c :: c in rs.manager.Cons() ==> c in was || rs.IsOwn(c)
    ensures Alone(rs, was) ==> Alone(rs, rs.manager.Cons())
  {
    hide ReplicaSet.IsOwn;
  }

  lemma ConsistentIsValid(rs: ReplicaSet)
    requires rs.Consistent()
    ensures rs.manager.Valid()
  {
  }

  // What was chosen is a connection of the list.
  lemma ChosenIsListed(rs: ReplicaSet, con: Node)
    requires con in NodesOf(rs.manager.Cons())
    ensures exists c :: c in rs.manager.Cons() && con == NodeOf(c)
  {
    var cons := rs.manager.Cons();
    var i :| 0 <= i < |cons| && NodesOf(cons)[i] == con;
    assert con == NodeOf(cons[i]);
  }

  // Without other clients' connections a connection is chosen exactly when one
  // serves.
  lemma AloneIff(rs: ReplicaSet, mode: Mode, tagsets: seq<TagSet>)
    requires IsPlain(rs) && rs.server != [] && Alone(rs, rs.manager.Cons())
    ensures var nodes, client := NodesOf(rs.manager.Cons()), ClientOf(rs, rs.server);
            && (forall n :: n in nodes ==> !Breaks(client, mode, n))
            && ((exists n :: n in Untagged(nodes, client, mode) && TagsMeet(tagsets, n.tags))
                <==> exists c :: c in rs.manager.Cons() && Serves(c, mode, tagsets))
  {
    hide IsPlain, ClientOf, Kinds, Untagged, TagsMeet, Breaks, Alone;
    OwnAreCandidates(rs, rs.server, mode);
    var cons := rs.manager.Cons();
    var nodes, client := NodesOf(cons), ClientOf(rs, rs.server);
    forall n | n in Untagged(nodes, client, mode) && TagsMeet(tagsets, n.tags)
      ensures exists c :: c in cons && Serves(c, mode, tagsets)
    {
      ChosenIsListed(rs, n);
      var c :| c in cons && n == NodeOf(c);
      assert Serves(c, mode, tagsets);
    }
    forall c | c in cons && Serves(c, mode, tagsets)
      ensures exists n :: n in Untagged(nodes, client, mode) && TagsMeet(tagsets, n.tags)
    {
      var i :| 0 <= i < |cons| && cons[i] == c;
      assert nodes[i] in nodes && nodes[i] == NodeOf(c);
    }
  }

  // The connection to the primary, and what a write gets: nothing else, and that
  // exactly when its tags meet some tag set.
  ghost predicate PrimaryDecides(rs: ReplicaSet, h: Host, cons: seq<Connection>, tagsets: seq<TagSet>, r: Outcome)
    reads cons
  {
    exists c :: c in cons && rs.IsOwn(c) && c.address == h && h in rs.net && c.tags == rs.net[h].tags
                && (r.Chosen? <==> TagsMeet(tagsets, c.tags)) && (r.Chosen? ==> r.con == NodeOf(c))
  }

  lemma PrimaryIsChosen(rs: ReplicaSet, servers: seq<Host>, h: Host, tagsets: seq<TagSet>, r: Outcome)
    requires rs.Consistent() && Alone(rs, rs.manager.Cons()) && Closed(rs.net, rs.setName, servers, rs.polled)
    requires IsThePrimary(rs.net, rs.setName, servers, h)
    requires r.Chosen? <==> exists c :: c in rs.manager.Cons() && Serves(c, PrimaryOnly, tagsets)
    requires r.Chosen? ==>
               r.con.kind in Kinds(PrimaryOnly) && exists c :: c in rs.manager.Cons() && r.con == NodeOf(c)
    ensures PrimaryDecides(rs, h, rs.manager.Cons(), tagsets, r)
  {
    hide TagsMeet, Reached, HashFor;
    PolledIsKnown(rs, h);
    var c :| c in rs.manager.Cons() && rs.IsOwn(c) && c.address == h && c.nodeType == KindOf(rs.net[h])
             && c.tags == rs.net[h].tags;
    assert c.nodeType == Primary;
    forall c' | c' in rs.manager.Cons() && c'.nodeType == Primary ensures c' == c {
      PrimarySaidSo(rs, c');
      rs.OneForHost(c);
    }
    assert Serves(c, PrimaryOnly, tagsets) <==> TagsMeet(tagsets, c.tags);
  }

  // A connection that is reachable, has the client's credentials and tags that
  // meet some tag set.
  ghost predicate Suits(client: Client, mode: Mode, tagsets: seq<TagSet>, n: Node) {
    IsReachable(client, mode, n) && HasCreds(client.servers, client.pid)(n) && TagsMeet(tagsets, n.tags)
  }

  // The search fails exactly when a connection breaks it, and else chooses one
  // that suits exactly when there is one.
  ghost predicate SuitingIsChosen(nodes: seq<Node>, client: Client, mode: Mode, tagsets: seq<TagSet>, r: Outcome) {
    && (r.NullPointer? <==> exists n :: n in nodes && Breaks(client, mode, n))
    && (r.Chosen? ==> r.con in nodes && Suits(client, mode, tagsets, r.con))
    && (!r.NullPointer? ==> (r.Chosen? <==> exists n :: n in nodes && Suits(client, mode, tagsets, n)))
  }

  lemma NoneLeftNoneSuits(nodes: seq<Node>, client: Client, mode: Mode, tagsets: seq<TagSet>, r: Outcome)
    requires r.Chosen? ==> r.con in nodes && Suits(client, mode, tagsets, r.con)
    requires r.NoCandidates? ==> forall n :: n in Untagged(nodes, client, mode) ==> !TagsMeet(tagsets, n.tags)
    requires r.NullPointer? <==> exists n :: n in nodes && Breaks(client, mode, n)
    ensures SuitingIsChosen(nodes, client, mode, tagsets, r)
  {
    hide IsReachable, HasCreds, TagsMeet, Breaks, Untagged;
    if r.NoCandidates? {
      forall n | n in nodes ensures !Suits(client, mode, tagsets, n) {
        UntaggedHas(nodes, client, mode, n);
      }
    }
  }

  // The tag set that decides: none, or the first that a candidate meets.
  ghost predicate Decides(wanted: TagSet, tagsets: seq<TagSet>, all: seq<Node>) {
    if tagsets == [] then wanted == [] else exists k: nat :: FirstMatching(all, tagsets, k) && wanted == tagsets[k]
  }

  // No connection that suits as well has a ping that is shorter by more than 15 ms.
  ghost predicate IsNearest(cons: seq<Connection>, client: Client, mode: Mode, tagsets: seq<TagSet>, r: Outcome)
    reads cons
  {
    exists own, wanted ::
      own in cons && r == Chosen(NodeOf(own)) && Decides(wanted, tagsets, Untagged(NodesOf(cons), client, mode))
      && MatchesTags(wanted)(NodeOf(own))
      && forall c :: c in cons && Suits(client, mode, [wanted], NodeOf(c)) ==> own.pingMs <= c.pingMs + 15
  }

  lemma NearestIsChosen(cons: seq<Connection>, client: Client, mode: Mode, sorting: Mode, tagsets: seq<TagSet>,
                        r: Outcome, wanted: TagSet, col: seq<Node>)
    requires r.Chosen? && (mode == PrimaryOnly || (sorting != PrimaryPreferred && sorting != SecondaryPreferred))
    requires Selectable(sorting, col, r.con) && Decides(wanted, tagsets, Untagged(NodesOf(cons), client, mode))
    requires col == Filter(Untagged(NodesOf(cons), client, mode), MatchesTags(wanted))
    ensures IsNearest(cons, client, mode, tagsets, r)
  {
    hide Selectable, Untagged, Decides, Filter, MatchesTags, NodesOf, IsReachable, HasCreds, Pairs;
    var nodes := NodesOf(cons);
    var all := Untagged(nodes, client, mode);
    SelectableIsCandidate(sorting, col, r.con);
    FilterHas(all, MatchesTags(wanted), r.con);
    UntaggedHas(nodes, client, mode, r.con);
    var i :| 0 <= i < |nodes| && nodes[i] == r.con;
    forall c | c in cons && Suits(client, mode, [wanted], NodeOf(c)) ensures cons[i].pingMs <= c.pingMs + 15 {
      var j :| 0 <= j < |cons| && cons[j] == c;
      SuitsIsIn(nodes, client, mode, wanted, nodes[j]);
      if mode == PrimaryOnly {
        forall d | d in col ensures d.kind == Primary {
          FilterHas(all, MatchesTags(wanted), d);
          UntaggedHas(nodes, client, mode, d);
          ModesReach(client, d);
        }
      }
      WithinCutoff(sorting, col, r.con, nodes[j]);
    }
  }

  lemma SuitsIsIn(nodes: seq<Node>, client: Client, mode: Mode, wanted: TagSet, n: Node)
    requires n in nodes && Suits(client, mode, [wanted], n)
    ensures n in Filter(Untagged(nodes, client, mode), MatchesTags(wanted))
  {
    hide Filter, Untagged, IsReachable, HasCreds;
    UntaggedHas(nodes, client, mode, n);
    FilterHas(Untagged(nodes, client, mode), MatchesTags(wanted), n);
  }

  lemma NearestAmong(cons: seq<Connection>, client: Client, mode: Mode, sorting: Mode, tagsets: seq<TagSet>, r: Outcome)
    requires r.Chosen?
    requires var all := Untagged(NodesOf(cons), client, mode);
             if tagsets == [] then Selectable(sorting, all, r.con)
             else exists k: nat :: FirstMatching(all, tagsets, k)
                                   && Selectable(sorting, Filter(all, MatchesTags(tagsets[k])), r.con)
    ensures mode == PrimaryOnly || (sorting != PrimaryPreferred && sorting != SecondaryPreferred) ==>
              IsNearest(cons, client, mode, tagsets, r)
  {
    hide Untagged, Selectable, Filter, MatchesTags, IsNearest;
    var all := Untagged(NodesOf(cons), client, mode);
    if mode == PrimaryOnly || (sorting != PrimaryPreferred && sorting != SecondaryPreferred) {
      if tagsets == [] {
        NothingWanted(all);
        NearestIsChosen(cons, client, mode, sorting, tagsets, r, [], all);
      } else {
        var k: nat :| FirstMatching(all, tagsets, k)
                      && Selectable(sorting, Filter(all, MatchesTags(tagsets[k])), r.con);
        NearestIsChosen(cons, client, mode, sorting, tagsets, r, tagsets[k], Filter(all, MatchesTags(tagsets[k])));
      }
    }
  }

  // Without tag sets no tag is wanted, and every candidate is left.
  lemma NothingWanted(all: seq<Node>)
    ensures Filter(all, MatchesTags([])) == all
  {
    FilterAll(all, MatchesTags([]));
  }

  // What is chosen comes from a host that says it serves this mode.
  ghost predicate ComesFromSaying(rs: ReplicaSet, mode: Mode, cons: seq<Connection>, r: Outcome)
    reads cons
  {
    exists c :: c in cons && rs.IsOwn(c) && r == Chosen(NodeOf(c)) && Says(rs.net, rs.setName, mode, c.address)
  }

  lemma ChosenSaidSo(rs: ReplicaSet, mode: Mode, r: Outcome)
    requires rs.Consistent() && Alone(rs, rs.manager.Cons()) && r.Chosen? && r.con.kind in Kinds(mode)
    requires mode != Nearest && exists c :: c in rs.manager.Cons() && r.con == NodeOf(c)
    ensures ComesFromSaying(rs, mode, rs.manager.Cons(), r)
  {
    hide ReplicaSet.Consistent, Says, Kinds, ReplicaSet.HashFor;
    var c :| c in rs.manager.Cons() && r.con == NodeOf(c);
    KnownSaidSo(rs, mode, c);
  }

  // mongo_get_read_write_connection_replicaset. Whatever connections other clients
  // have, one is chosen exactly when one suits, unless one breaks the search, and
  // what is offered is found. Without them one is chosen exactly when one serves,
  // and a write gets the primary exactly when its tags meet the client's tag sets
  // for reading.
  method GetReadWriteConnection(rs: ReplicaSet, mode: Mode, tagsets: seq<TagSet>, write: bool, rand: nat)
    returns (r: Outcome)
    requires rs.Consistent() && Steady(rs.net, rs.setName, rs.polled, rs.registered, rs.server)
    requires !Circular(rs.net, rs.setName, rs.server)
    modifies rs.manager.connections, rs.manager.connections.nodes, rs.manager.Cons(), rs
    ensures rs.Consistent() && Steady(rs.net, rs.setName, rs.polled, rs.registered, rs.server)
    ensures Closed(rs.net, rs.setName, old(rs.server), rs.polled)
    ensures Alone(rs, old(rs.manager.Cons())) ==> Alone(rs, rs.manager.Cons())
    ensures var find := if write then PrimaryOnly else mode;
            && (r.Chosen? ==>
                  TagsMeet(tagsets, r.con.tags) && exists c :: c in rs.manager.Cons() && r.con == NodeOf(c))
            && SuitingIsChosen(NodesOf(rs.manager.Cons()), ClientOf(rs, rs.server), find, tagsets, r)
            && (r.Chosen? && (write || (mode != PrimaryPreferred && mode != SecondaryPreferred)) ==>
                  IsNearest(rs.manager.Cons(), ClientOf(rs, rs.server), find, tagsets, r))
            && (IsPlain(rs) && Offers(rs.net, rs.setName, old(rs.server), find, tagsets) ==> !r.NoCandidates?)
            && (IsPlain(rs) && Alone(rs, rs.manager.Cons()) && old(rs.server) != [] ==>
                  && !r.NullPointer?
                  && (r.Chosen? <==> exists c :: c in rs.manager.Cons() && Serves(c, find, tagsets))
                  && (r.Chosen? ==> r.con.kind in Kinds(find))
                  && (r.Chosen? && find != Nearest ==> ComesFromSaying(rs, find, rs.manager.Cons(), r)))
    ensures IsPlain(rs) && Alone(rs, rs.manager.Cons()) && write ==>
              forall h :: IsThePrimary(rs.net, rs.setName, old(rs.server), h) ==>
                PrimaryDecides(rs, h, rs.manager.Cons(), tagsets, r)
  {
    hide IsPlain, Closed, Steady, Circular, Offers, Alone, Serves, TagsMeet, Kinds, IsThePrimary, PrimaryDecides;
    hide Breaks, IsReachable, HasCreds, Untagged, Selectable, ClientOf, NodesOf;
    hide ReplicaSet.Consistent, ReplicaSet.ConsistentBut, SuitingIsChosen, IsNearest, ComesFromSaying;
    ghost var servers := rs.server;
    var nodes := Discover(rs);
    var find := if write then PrimaryOnly else mode;
    r := GetReplicaSetConnection(nodes, ClientOf(rs, rs.server), mode, tagsets, write, rand);
    NoneLeftNoneSuits(nodes, ClientOf(rs, rs.server), find, tagsets, r);
    if r.Chosen? {
      ChosenIsListed(rs, r.con);
      UntaggedHas(nodes, ClientOf(rs, rs.server), find, r.con);
      NearestAmong(rs.manager.Cons(), ClientOf(rs, rs.server), find, mode, tagsets, r);
    }
    if IsPlain(rs) {
      if Offers(rs.net, rs.setName, servers, find, tagsets) {
        OfferedIsCandidate(rs, servers, find, tagsets);
      }
      if Alone(rs, rs.manager.Cons()) && servers != [] {
        AloneIff(rs, find, tagsets);
        OwnAreCandidates(rs, rs.server, find);
        if r.Chosen? && find != Nearest {
          ChosenSaidSo(rs, find, r);
        }
        if write {
          AnyPrimaryIsChosen(rs, servers, tagsets, r);
        }
      } else if servers == [] {
        NoServerNoPrimary(rs.net, rs.setName, servers);
      }
    }
  }

  lemma AnyPrimaryIsChosen(rs: ReplicaSet, servers: seq<Host>, tagsets: seq<TagSet>, r: Outcome)
    requires rs.Consistent() && Alone(rs, rs.manager.Cons()) && Closed(rs.net, rs.setName, servers, rs.polled)
    requires r.Chosen? <==> exists c :: c in rs.manager.Cons() && Serves(c, PrimaryOnly, tagsets)
    requires r.Chosen? ==>
               r.con.kind in Kinds(PrimaryOnly) && exists c :: c in rs.manager.Cons() && r.con == NodeOf(c)
    ensures forall h :: IsThePrimary(rs.net, rs.setName, servers, h) ==>
              PrimaryDecides(rs, h, rs.manager.Cons(), tagsets, r)
  {
    hide Alone, Closed, IsThePrimary, PrimaryDecides, Serves, Kinds;
    forall h | IsThePrimary(rs.net, rs.setName, servers, h)
      ensures PrimaryDecides(rs, h, rs.manager.Cons(), tagsets, r)
    {
      PrimaryIsChosen(rs, servers, h, tagsets, r);
    }
  }

  lemma NoServerNoPrimary(net: Net, setName: Text, servers: seq<Host>)
    requires servers == []
    ensures forall h :: !IsThePrimary(net, setName, servers, h)
  {
  }

  // ----- A write that fails -----

  // One host "a", the primary of the set "s", without tags.
  const SET: Text := ['s' as int]
  const A: Host := Address(HOST, 27017)
  const ONE: Net := map[A := Reply(Some(A), Some(SET), [A], true, false, false, [])]

  lemma OneIsThePrimary()
    ensures IsThePrimary(ONE, SET, [A], A) && !Circular(ONE, SET, [A])
  {
    ServerReached(ONE, SET, [A], A);
    OwnNamesAreNotCircular(ONE, SET, [A]);
    hide Reached, Circular;
  }

  lemma PlainWithoutCredentials(rs: ReplicaSet)
    requires rs.setName == SET && rs.db.None?
    ensures IsPlain(rs)
  {
  }

  lemma NewIsAlone(rs: ReplicaSet)
    ensures Alone(rs, [])
  {
  }

  lemma NoTagsMeetOne(wanted: Text)
    ensures !TagsMeet([[wanted]], [])
  {
    assert Pairs([wanted], []) == Pairs([wanted][..0], []) + Occurrences([], wanted);
  }

  // Its client reads from servers with the tag "t" only, and its write finds no
  // candidate, although the primary is up.
  method FailingWrite(mode: Mode, rand: nat) returns (r: Outcome)
    ensures r.NoCandidates?
  {
    var manager := new ConManager();
    var rs := new ReplicaSet(manager, ONE, SET, None, None, None, 1, [A]);
    OneIsThePrimary();
    NewIsSteady(ONE, SET, [A]);
    PlainWithoutCredentials(rs);
    NewIsAlone(rs);
    NoTagsMeetOne(['t' as int]);
    hide Steady, IsThePrimary, Circular, IsPlain, Alone, TagsMeet, Offers, ReplicaSet.Consistent, ReplicaSet.IsOwn,
      Serves;
    r := GetReadWriteConnection(rs, mode, [[['t' as int]]], true, rand);
  }
}
