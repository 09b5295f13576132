// Replica-set discovery: a list of servers that grows while it is walked.
module Topology {
  import opened Bytes
  import opened Text
  import opened Manager
  import opened Network
  import opened Walk
  import opened SingleConnection
  import ServerHash

  const ISMASTER_INTERVAL: nat := 15

  // What every call finds and leaves: Covered and Pending, and that circles of
  // aliases keep turning.
  ghost predicate Steady(net: Net, setName: Text, polled: set<Host>, registered: set<Host>, rest: seq<Host>) {
    && Covered(net, setName, polled, registered) && Pending(net, setName, polled, registered, rest)
    && AllTurn(net, setName, polled, registered)
  }

  ghost predicate AllTurn(net: Net, setName: Text, polled: set<Host>, registered: set<Host>) {
    forall circle: set<Host> :: IsCircle(net, setName, circle) ==> Turning(circle, polled, registered)
  }

  lemma AllTurnStep(net: Net, setName: Text, polled: set<Host>, registered: set<Host>, h: Host, told: bool,
                    kept: set<Host>, added: seq<Host>)
    requires Asked(net, setName, polled, registered, h, told, kept, added) && AllTurn(net, setName, polled, registered)
    ensures AllTurn(net, setName, PolledAfter(polled, h, told), kept + SetOf(added))
  {
    hide Asked, IsCircle, Turning;
    forall circle: set<Host> | IsCircle(net, setName, circle)
      ensures Turning(circle, PolledAfter(polled, h, told), kept + SetOf(added))
    {
      TurningStep(net, setName, polled, registered, h, told, kept, added, circle);
    }
  }

  lemma SteadyConnected(net: Net, setName: Text, polled: set<Host>, registered: set<Host>, server: seq<Host>, h: Host,
                        ok: bool)
    requires Steady(net, setName, polled, registered, server) && h in server && (h in net ==> ok)
    ensures Steady(net, setName, polled, if ok then registered + {h} else registered - {h}, server)
  {
    hide Pending, Covered;
    Connected(net, setName, polled, registered, server, h, ok);
  }

  class ReplicaSet {
    const manager: ConManager
    const net: Net
    const setName: Text
    const db: Option<Text>
    const username: Option<Text>
    const password: Option<Text>
    const pid: ServerHash.Pid
    var server: seq<Host>
    ghost var polled: set<Host>
    ghost var registered: set<Host>

    constructor (manager: ConManager, net: Net, setName: Text, db: Option<Text>, username: Option<Text>,
                 password: Option<Text>, pid: ServerHash.Pid, seeds: seq<Host>)
      requires manager.Valid() && DistinctHashes(manager.Cons())
      requires forall c, h: Host :: c in manager.Cons() ==>
                 c.hash != ServerHash.HashFor(DefOf(h, setName, db, username, password), pid)
      ensures Consistent() && this.manager == manager && this.net == net && this.setName == setName
      ensures this.db == db && this.username == username && this.password == password && this.pid == pid
      ensures server == seeds && polled == {} && registered == {}
    {
      this.manager, this.net, this.setName := manager, net, setName;
      this.db, this.username, this.password, this.pid := db, username, password, pid;
      server, polled, registered := seeds, {}, {};
    }

    static function DefOf(h: Host, setName: Text, db: Option<Text>, username: Option<Text>, password: Option<Text>)
      : ServerHash.ServerDef
    {
      ServerHash.ServerDef(h.name, h.port, Some(setName), db, username, password)
    }

    function Def(h: Host): ServerHash.ServerDef {
      DefOf(h, setName, db, username, password)
    }

    ghost function HashFor(h: Host): Text {
      ServerHash.HashFor(Def(h), pid)
    }

    lemma HashTellsHost(h: Host, h': Host)
      requires HashFor(h) == HashFor(h')
      ensures h == h'
    {
      ServerHash.AddressIsInjective(ServerHash.PartsOf(Def(h), pid), ServerHash.PartsOf(Def(h'), pid));
    }

    // A connection that this client takes for its own, and one that it never
    // finds.
    ghost predicate IsOwn(c: Connection) {
      COLON !in c.address.name && c.hash == HashFor(c.address)
    }

    ghost predicate IsForeign(c: Connection) {
      forall h: Host :: c.hash != HashFor(h)
    }

    ghost function OwnHosts(cons: seq<Connection>): set<Host> {
      set c | c in cons && IsOwn(c) :: HostOf(c)
    }

    ghost function HostOf(c: Connection): Host
      requires IsOwn(c)
    {
      c.address
    }

    // The manager holds this client's connections and those of others. What its
    // own ones have been told is what the servers said, and a healthy host that
    // was polled is connected.
    ghost predicate Consistent()
      reads this`registered, this`polled, manager.connections, manager.connections.nodes, manager.connections.elems
    {
      ConsistentBut(null)
    }

    // All this, but for a connection that is about to go.
    ghost predicate ConsistentBut(going: Connection?)
      reads this`registered, this`polled, manager.connections, manager.connections.nodes, manager.connections.elems
    {
      && manager.Valid() && DistinctHashes(manager.Cons())
      && registered == OwnHosts(manager.Cons())
      && AllTold(manager.Cons(), going)
      && (forall h :: h in polled && Healthy(net, setName, h) ==> h in registered)
    }

    ghost predicate AllTold(cons: seq<Connection>, going: Connection?)
      reads cons, this`polled
    {
      && (forall c :: c in cons ==> IsOwn(c) || IsForeign(c))
      && (forall c :: c in cons && IsOwn(c) && c != going ==> Told(c))
      && (forall c :: c in cons && IsOwn(c) ==> HasTags(c))
    }

    // The tags are those the server has.
    ghost predicate HasTags(c: Connection)
      requires IsOwn(c)
    {
      HostOf(c) in net ==> c.tags == net[HostOf(c)].tags
    }

    // A connection that knows its state was polled, under the name the server
    // gives itself, and is of the kind the server said; any other is as it was
    // made, and its host still has to be polled.
    ghost predicate Told(c: Connection)
      requires IsOwn(c)
      reads c, this`polled
    {
      ToldBy(c, polled)
    }

    ghost predicate ToldBy(c: Connection, polled: set<Host>)
      requires IsOwn(c)
      reads c
    {
      if c.lastIsmaster > 0 then
        HostOf(c) in polled && Healthy(net, setName, HostOf(c)) && c.nodeType == KindOf(net[HostOf(c)])
      else
        IsNew(c) && !(HostOf(c) in polled && Healthy(net, setName, HostOf(c)))
    }

    lemma ConsistentImplies(going: Connection)
      requires Consistent()
      ensures ConsistentBut(going)
    {
    }

    // The connection with the hash of h is the one to h.
    lemma HashedIsOwn(c: Connection, h: Host)
      requires IsOwn(c) || IsForeign(c)
      ensures c.hash == HashFor(h) <==> IsOwn(c) && c.address == h
    {
      hide HashFor;
      if c.hash == HashFor(h) {
        HashTellsHost(c.address, h);
      }
    }

    // Whatever definition a connection was made for, it is this client's own or
    // never found by it.
    lemma MadeIsOwnOrForeign(c: Connection)
      requires Made(c) && COLON !in c.address.name
      ensures IsOwn(c) || IsForeign(c)
    {
      hide ServerHash.HashOf;
      var d, pid' :| SingleConnection.IsFor(c, d, pid');
      forall h: Host | c.hash == HashFor(h) ensures IsOwn(c) {
        ServerHash.AddressIsInjective(ServerHash.PartsOf(d, pid'), ServerHash.PartsOf(Def(h), pid));
        assert c.address == h;
      }
    }

    // A connection of another set, or of another process, is foreign.
    lemma OtherIsForeign(c: Connection, d: ServerHash.ServerDef, pid': ServerHash.Pid)
      requires SingleConnection.IsFor(c, d, pid') && ServerHash.Plain(ServerHash.PartsOf(d, pid'))
      requires forall h: Host :: ServerHash.Plain(ServerHash.PartsOf(Def(h), pid))
      requires d.replSet != Some(setName) || pid' != pid
      ensures IsForeign(c)
    {
      hide ServerHash.HashOf, ServerHash.Plain;
      forall h: Host ensures c.hash != HashFor(h) {
        if c.hash == HashFor(h) {
          ServerHash.HashIsInjective(d, pid', Def(h), pid);
        }
      }
    }

    lemma RegisteredIff(h: Host)
      requires Consistent()
      ensures h in registered <==> HasHash(manager.Cons(), HashFor(h))
    {
      hide HashFor, Told, IsForeign;
      forall c | c in manager.Cons() ensures c.hash == HashFor(h) <==> IsOwn(c) && c.address == h {
        HashedIsOwn(c, h);
      }
      if h in registered {
        var c :| c in manager.Cons() && IsOwn(c) && HostOf(c) == h;
      }
      if HasHash(manager.Cons(), HashFor(h)) {
        var c :| c in manager.Cons() && c.hash == HashFor(h);
        assert HostOf(c) == h;
      }
    }

    method Find(h: Host) returns (con: Connection?)
      requires Consistent()
      ensures con == null <==> h !in registered
      ensures con != null ==> con in manager.Cons() && IsOwn(con) && con.address == h
    {
      RegisteredIff(h);
      hide HashFor, ServerHash.HashFor, IsForeign, Told, OwnHosts;
      var hash := ServerHash.CreateHash(Def(h), pid);
      assert hash == HashFor(h) by { HashForIs(h); }
      con := manager.FindByHash(hash);
      if con != null {
        HashedIsOwn(con, h);
      }
    }

    lemma HashForIs(h: Host)
      ensures HashFor(h) == ServerHash.HashFor(Def(h), pid)
    {
    }

    lemma OwnWith(cons: seq<Connection>, con: Connection, h: Host)
      requires AllTold(cons, null) && IsOwn(con) && con.address == h && Told(con) && HasTags(con)
      ensures OwnHosts(cons + [con]) == OwnHosts(cons) + {h} && AllTold(cons + [con], null)
    {
      hide HashFor, Told, HasTags;
      assert (cons + [con])[|cons|] == con;
      assert forall c :: c in cons + [con] <==> c in cons || c == con;
    }

    lemma OwnWithout(cons: seq<Connection>, cons': seq<Connection>, h: Host, going: Connection?)
      requires AllTold(cons, going) && (going != null ==> IsOwn(going) && going.address == h)
      requires forall c :: c in cons' <==> c in cons && c.hash != HashFor(h)
      ensures OwnHosts(cons') == OwnHosts(cons) - {h} && AllTold(cons', null)
    {
      forall c | c in cons ensures c.hash == HashFor(h) <==> IsOwn(c) && c.address == h {
        HashedIsOwn(c, h);
      }
      hide HashFor, IsForeign, Told, HasTags;
    }

    lemma HealthyIsUp(h: Host)
      ensures Healthy(net, setName, h) ==> h in net
    {
    }

    // A new connection is as one of an unpolled host has to be.
    lemma NewIsTold(con: Connection, h: Host)
      requires !(h in polled && Healthy(net, setName, h))
      requires SingleConnection.IsFor(con, Def(h), pid) && IsNew(con) && (h in net ==> con.tags == net[h].tags)
      ensures IsOwn(con) && con.address == h && Told(con) && HasTags(con)
    {
      hide Healthy;
    }

    // A host is up for connecting, authentication and the ping alike; a connection
    // that was pinged a moment ago is not pinged again.
    method Try(h: Host) returns (con: Connection?)
      requires Consistent()
      modifies manager.connections, manager.connections.nodes
      ensures manager.Valid() && DistinctHashes(manager.Cons())
      ensures forall n :: n in manager.connections.nodes ==> n in old(manager.connections.nodes) || fresh(n)
      ensures h in net ==> con != null
      ensures (h in registered <==> con != null) ==> manager.Cons() == old(manager.Cons())
      ensures h !in registered && con != null ==>
                && manager.Cons() == old(manager.Cons()) + [con] && fresh(con)
                && SingleConnection.IsFor(con, Def(h), pid) && IsNew(con) && (h in net ==> con.tags == net[h].tags)
      ensures h in registered && con == null ==>
                forall c :: c in manager.Cons() <==> c in old(manager.Cons()) && c.hash != HashFor(h)
    {
      RegisteredIff(h);
      HashForIs(h);
      hide HashFor, ServerHash.HashFor, DistinctHashes, Healthy, HasHash, OwnHosts, AllTold;
      var pingMs: int, mongos: bool, recent: bool := *, *, *;
      var up := h in net;
      var attempt := Attempt(up, up, up || recent, if up then net[h].tags else [], mongos, pingMs);
      con := SingleConnection.GetConnectionSingle(manager, Def(h), pid, attempt, false);
    }

    // mongo_get_connection_single for a server of the set.
    method GetConnectionSingle(h: Host) returns (ok: bool)
      requires Consistent()
      modifies manager.connections, manager.connections.nodes, this`registered
      ensures Consistent()
      ensures h in net ==> ok
      ensures registered == if ok then old(registered) + {h} else old(registered) - {h}
      ensures forall c :: c in manager.Cons() ==> c in old(manager.Cons()) || (fresh(c) && IsOwn(c))
      ensures forall n :: n in manager.connections.nodes ==> n in old(manager.connections.nodes) || fresh(n)
    {
      HealthyIsUp(h);
      hide HashFor, ServerHash.HashFor, DistinctHashes, Healthy, IsOwn, OwnHosts, Told, HasTags, AllTold;
      hide SingleConnection.IsFor;
      ghost var was := manager.Cons();
      var con := Try(h);
      ok := con != null;
      if ok && h !in registered {
        NewIsTold(con, h);
        OwnWith(was, con, h);
      } else if !ok && h in registered {
        OwnWithout(was, manager.Cons(), h, null);
      }
      registered := if ok then registered + {h} else registered - {h};
    }

    method Remove(con: Connection)
      requires ConsistentBut(con) && con in manager.Cons() && IsOwn(con) && !Healthy(net, setName, HostOf(con))
      modifies manager.connections, manager.connections.nodes, this`registered
      ensures Consistent() && registered == old(registered) - {HostOf(con)}
      ensures forall c :: c in manager.Cons() ==> c in old(manager.Cons())
      ensures forall n :: n in manager.connections.nodes ==> n in old(manager.connections.nodes)
    {
      hide HashFor, DistinctHashes, Healthy, OwnHosts, Told, HasTags, AllTold;
      ghost var was := manager.Cons();
      var found := manager.Deregister(con);
      OwnWithout(was, manager.Cons(), HostOf(con), con);
      registered := registered - {HostOf(con)};
    }

    // mongo_connection_ismaster for the server at position i, at second now: 0 for
    // an error, 2 when it was asked less than 15 s ago, 3 when the server goes by
    // another name.
    method IsMaster(con: Connection, i: nat, now: nat) returns (res: int, hosts: seq<Host>)
      requires Consistent() && con in manager.Cons() && IsOwn(con) && i < |server| && now >= ISMASTER_INTERVAL
      modifies con, this`server, this`polled
      ensures if res == 3 then ConsistentBut(con) else Consistent()
      ensures |server| == |old(server)| && server == old(server)[i := server[i]]
      ensures res == 2 <==> old(con.lastIsmaster) + 15 > now
      ensures res == 0 ==> !Member(net, setName, HostOf(con))
      ensures res == 1 ==> Healthy(net, setName, HostOf(con))
      ensures res == 2 ==> Healthy(net, setName, HostOf(con)) && HostOf(con) in polled
      ensures res == 3 ==> Alias(net, setName, HostOf(con))
      ensures res == 0 || res == 1 || res == 2 || res == 3
      ensures res == 1 || res == 3 ==> hosts == net[HostOf(con)].hosts
      ensures polled == PolledAfter(old(polled), HostOf(con), res == 1 || res == 3)
      ensures res == 1 || res == 3 ==> con.lastIsmaster > 0 && con.nodeType == KindOf(net[HostOf(con)])
    {
      Waiting(con);
      ConsistentImplies(con);
      hide HashFor, ConsistentBut, KindOf, IsOwn;
      hosts := [];
      var h: Host := con.address;
      if con.lastIsmaster + ISMASTER_INTERVAL > now {
        return 2, hosts;
      }
      if h !in net {
        return 0, hosts;
      }
      var reply := net[h];
      if reply.me.None? {
        return 0, hosts;
      }
      res := 1;
      if reply.me.value != h {
        server := server[i := reply.me.value];
        res := 3;
      }
      if reply.setName.None? || reply.setName.value != setName {
        return 0, hosts;
      }
      TakeState(con, reply, now);
      hosts := reply.hosts;
    }

    lemma Waiting(con: Connection)
      requires Consistent() && con in manager.Cons() && IsOwn(con)
      ensures con.lastIsmaster > 0 ==> HostOf(con) in polled && Healthy(net, setName, HostOf(con))
    {
      assert Told(con);
    }

    method TakeState(con: Connection, reply: Reply, now: nat)
      requires Consistent() && con in manager.Cons() && IsOwn(con) && now > 0
      requires Member(net, setName, HostOf(con)) && reply == net[HostOf(con)]
      modifies con, this`polled
      ensures if Healthy(net, setName, HostOf(con)) then Consistent() else ConsistentBut(con)
      ensures polled == old(polled) + {HostOf(con)}
      ensures con.lastIsmaster == now && con.nodeType == KindOf(reply)
    {
      OneForHost(con);
      OwnIsRegistered(con);
      hide HashFor, DistinctHashes, Healthy, OwnHosts, IsForeign, HasTags, IsOwn, KindOf, ToldBy;
      ghost var h := HostOf(con);
      ghost var before := polled;
      SetState(con, reply, now);
      polled := polled + {h};
      forall c | c in manager.Cons() && IsOwn(c) && c != con ensures Told(c) {
        assert old(Told(c)) && HostOf(c) != h;
        ToldStays(c, before, h);
      }
      NowTold(con);
    }

    lemma ToldStays(c: Connection, before: set<Host>, h: Host)
      requires IsOwn(c) && HostOf(c) != h && ToldBy(c, before)
      ensures ToldBy(c, before + {h})
    {
    }

    lemma NowTold(con: Connection)
      requires IsOwn(con) && con.lastIsmaster > 0 && HostOf(con) in polled
      requires HostOf(con) in net && con.nodeType == KindOf(net[HostOf(con)])
      ensures Healthy(net, setName, HostOf(con)) ==> Told(con)
    {
    }

    static method SetState(con: Connection, reply: Reply, now: nat)
      modifies con
      ensures con.lastIsmaster == now && con.nodeType == KindOf(reply)
    {
      if reply.isMaster {
        con.nodeType := Primary;
      } else if reply.secondary {
        con.nodeType := Secondary;
      } else if reply.arbiter {
        con.nodeType := Arbiter;
      } else {
        con.nodeType := Invalid;
      }
      con.lastIsmaster := now;
    }

    lemma OneForHost(con: Connection)
      requires Consistent() && con in manager.Cons() && IsOwn(con)
      ensures forall c :: c in manager.Cons() && IsOwn(c) && c.address == con.address ==> c == con
    {
      hide AllTold, OwnHosts, ServerHash.HashFor;
    }

    lemma OwnIsRegistered(con: Connection)
      requires Consistent() && con in manager.Cons() && IsOwn(con)
      ensures HostOf(con) in registered
    {
      hide AllTold, HashFor;
    }

    // The listed hosts that are not connected yet: those that can be are added
    // to the servers that will be asked in turn.
    method AddHosts(hosts: seq<Host>) returns (ghost added: seq<Host>)
      requires Consistent()
      modifies manager.connections, manager.connections.nodes, this`registered, this`server
      ensures Consistent()
      ensures server == old(server) + added && registered == old(registered) + SetOf(added)
      ensures AreNew(old(registered), added) && PickedFrom(added, hosts)
      ensures forall x :: x in hosts && x in net ==> x in registered
      ensures forall c :: c in manager.Cons() ==> c in old(manager.Cons()) || (fresh(c) && IsOwn(c))
      ensures forall n :: n in manager.connections.nodes ==> n in old(manager.connections.nodes) || fresh(n)
    {
      hide HashFor, Consistent, IsOwn, PickedFrom, AreNew, SetOf;
      added := [];
      NonePicked([]);
      NoneNew(registered);
      assert hosts[..0] == [];
      for j := 0 to |hosts|
        invariant Consistent()
        invariant server == old(server) + added && registered == old(registered) + SetOf(added)
        invariant AreNew(old(registered), added) && PickedFrom(added, hosts[..j])
        invariant forall l :: 0 <= l < j && hosts[l] in net ==> hosts[l] in registered
        invariant forall c :: c in manager.Cons() ==> c in old(manager.Cons()) || (fresh(c) && IsOwn(c))
        invariant forall n :: n in manager.connections.nodes ==> n in old(manager.connections.nodes) || fresh(n)
      {
        PickedNext(added, hosts, j);
        AddedSnoc(old(registered), added, hosts[j]);
        LinksIn(manager.connections.nodes);
        var isNew := AddHost(hosts[j]);
        if isNew {
          added := added + [hosts[j]];
        }
      }
      assert hosts[..|hosts|] == hosts;
    }

    method AddHost(h: Host) returns (isNew: bool)
      requires Consistent()
      modifies manager.connections, manager.connections.nodes, this`registered, this`server
      ensures Consistent() && (h in net ==> h in registered)
      ensures isNew ==> h !in old(registered) && registered == old(registered) + {h} && server == old(server) + [h]
      ensures !isNew ==> registered == old(registered) && server == old(server)
      ensures forall c :: c in manager.Cons() ==> c in old(manager.Cons()) || (fresh(c) && IsOwn(c))
      ensures forall n :: n in manager.connections.nodes ==> n in old(manager.connections.nodes) || fresh(n)
    {
      hide HashFor, Consistent, IsOwn;
      isNew := false;
      var con := Find(h);
      if con == null {
        isNew := GetConnectionSingle(h);
        if isNew {
          server := server + [h];
        }
      }
    }

    static lemma AddedSnoc(registered: set<Host>, added: seq<Host>, h: Host)
      requires AreNew(registered, added)
      ensures SetOf(added + [h]) == SetOf(added) + {h}
      ensures h !in registered + SetOf(added) ==> AreNew(registered, added + [h])
    {
    }

    static lemma NonePicked(hosts: seq<Host>)
      ensures PickedFrom([], hosts)
    {
    }

    static lemma PickedNext(picked: seq<Host>, hosts: seq<Host>, j: nat)
      requires j < |hosts| && PickedFrom(picked, hosts[..j])
      ensures PickedFrom(picked, hosts[..j + 1]) && PickedFrom(picked + [hosts[j]], hosts[..j + 1])
    {
      assert hosts[..j + 1][..j] == hosts[..j];
      assert (picked + [hosts[j]])[..|picked|] == picked;
    }

    static lemma LinksIn<T>(s: seq<T>)
      ensures forall k :: 0 <= k < |s| ==> s[k] in s
    {
    }

    // One round of the loop: asks the server at position i and takes up the
    // hosts it lists.
    method Ask(i: nat) returns (ghost told: bool, ghost kept: set<Host>, ghost added: seq<Host>)
      requires Consistent() && i < |server|
      modifies manager.connections, manager.connections.nodes, manager.Cons(), this
      ensures Consistent()
      ensures Asked(net, setName, old(polled), old(registered), old(server)[i], told, kept, added)
      ensures polled == PolledAfter(old(polled), old(server)[i], told) && registered == kept + SetOf(added)
      ensures |server| == |old(server)| + |added| && server == old(server)[i := server[i]] + added
      ensures added != [] ==> Member(net, setName, old(server)[i]) && PickedFrom(added, net[old(server)[i]].hosts)
      ensures forall c :: c in manager.Cons() ==> c in old(manager.Cons()) || (fresh(c) && IsOwn(c))
      ensures forall n :: n in manager.connections.nodes ==> n in old(manager.connections.nodes) || fresh(n)
    {
      hide Consistent, ConsistentBut, HashFor, IsOwn, PickedFrom, AreNew;
      var h := server[i];
      told, added := false, [];
      NoneNew(registered);
      kept := registered;
      var con := Find(h);
      if con == null {
        return;
      }
      var tick: int := *;
      var res, hosts := IsMaster(con, i, ISMASTER_INTERVAL + if tick < 0 then 0 else tick);
      if res == 0 {
        ConsistentImplies(con);
      }
      if res == 0 || res == 3 {
        Remove(con);
      }
      kept := registered;
      if res == 1 || res == 3 {
        told := true;
        LinksIn(manager.connections.nodes);
        added := AddHosts(hosts);
      }
    }

    static lemma NoneNew(registered: set<Host>)
      ensures AreNew(registered, []) && SetOf([]) == {}
    {
    }

    // The round keeps all that is known, and there is less to do afterwards.
    method Round(i: nat, ghost seedCount: nat, ghost start: set<Host>, ghost left: set<Host>,
                 ghost reached: set<Host>, ghost rank: map<Host, nat>) returns (ghost left': set<Host>)
      requires Consistent() && i < |server| && seedCount <= |server|
      requires Walked(net, setName, polled, registered, server, i, seedCount, start, left)
      requires AllTurn(net, setName, polled, registered)
      requires Fine(net, setName, reached, rank) && Ranked(net, setName, rank)
      requires Within(net, setName, reached, server[i..])
      modifies manager.connections, manager.connections.nodes, manager.Cons(), this
      ensures Consistent() && |server| >= |old(server)|
      ensures Walked(net, setName, polled, registered, server, i + 1, seedCount, start, left')
      ensures AllTurn(net, setName, polled, registered) && Within(net, setName, reached, server[i + 1..])
      ensures Progress(net, setName, rank,
                       left, Rest(old(server), i, seedCount), if i < seedCount then seedCount - i else 0,
                       left', Rest(server, i + 1, seedCount), if i + 1 < seedCount then seedCount - (i + 1) else 0)
      ensures forall c :: c in manager.Cons() ==> c in old(manager.Cons()) || (fresh(c) && IsOwn(c))
      ensures forall n :: n in manager.connections.nodes ==> n in old(manager.connections.nodes) || fresh(n)
    {
      hide Consistent, HashFor, IsOwn, Walked, Within, Fine, Ranked, AllTurn, Asked, Rest, PickedFrom, LeftAfter;
      hide Healthy, Member, Progress;
      ghost var server0, polled0, registered0 := server, polled, registered;
      ghost var told, kept, added := Ask(i);
      Step(net, setName, polled0, registered0, server0, i, seedCount, start, left, told, kept, added, server);
      AllTurnStep(net, setName, polled0, registered0, server0[i], told, kept, added);
      StepProgress(net, setName, reached, rank, server0, i, seedCount, left, added, server);
      WithinNext(reached, rank, server0, i, added, server);
      left' := LeftAfter(net, setName, server0[i], i, seedCount, left);
    }

    // The rounds up to the end of the list.
    method AskAll(ghost seedCount: nat, ghost start: set<Host>, ghost left0: set<Host>,
                  ghost reached: set<Host>, ghost rank: map<Host, nat>)
      requires Consistent() && seedCount <= |server|
      requires Walked(net, setName, polled, registered, server, 0, seedCount, start, left0)
      requires AllTurn(net, setName, polled, registered)
      requires Fine(net, setName, reached, rank) && Ranked(net, setName, rank)
      requires Within(net, setName, reached, server[0..])
      modifies manager.connections, manager.connections.nodes, manager.Cons(), this
      ensures Consistent() && |server| >= |old(server)| && AllTurn(net, setName, polled, registered)
      ensures exists left :: Walked(net, setName, polled, registered, server, |server|, seedCount, start, left)
      ensures forall c :: c in manager.Cons() ==> c in old(manager.Cons()) || (fresh(c) && IsOwn(c))
      ensures forall n :: n in manager.connections.nodes ==> n in old(manager.connections.nodes) || fresh(n)
    {
      hide Consistent, HashFor, IsOwn, Walked, Within, Fine, Ranked, Costs, AllTurn, Rest;
      var i := 0;
      ghost var left := left0;
      while i < |server|
        invariant Consistent() && i <= |server| && seedCount <= |server| && |old(server)| <= |server|
        invariant Walked(net, setName, polled, registered, server, i, seedCount, start, left)
        invariant AllTurn(net, setName, polled, registered)
        invariant Within(net, setName, reached, server[i..])
        invariant forall c :: c in manager.Cons() ==> c in old(manager.Cons()) || (fresh(c) && IsOwn(c))
        invariant forall n :: n in manager.connections.nodes ==> n in old(manager.connections.nodes) || fresh(n)
        decreases |left|, if i < seedCount then seedCount - i else 0,
                  Costs(net, setName, rank, Rest(server, i, seedCount))
      {
        LinksIn(manager.connections.nodes);
        LinksIn(manager.Cons());
        left := Round(i, seedCount, start, left, reached, rank);
        i := i + 1;
      }
    }

    // mongo_discover_topology: the bound of the loop grows as it runs. Without a
    // circle of aliases it ends, and every member that the servers lead to has
    // been polled.
    method DiscoverTopology()
      requires Consistent() && Steady(net, setName, polled, registered, server)
      requires forall s :: s in server && Member(net, setName, s) ==> s in registered
      requires !Circular(net, setName, server)
      modifies manager.connections, manager.connections.nodes, manager.Cons(), this
      ensures Consistent() && Steady(net, setName, polled, registered, [])
      ensures Closed(net, setName, old(server), polled) && |server| >= |old(server)|
      ensures forall c :: c in manager.Cons() ==> c in old(manager.Cons()) || (fresh(c) && IsOwn(c))
      ensures forall n :: n in manager.connections.nodes ==> n in old(manager.connections.nodes) || fresh(n)
    {
      ghost var reached, rank := NotCircularIsFine(net, setName, server);
      hide Consistent, HashFor, IsOwn, Closed, Covered, Pending, Walked, Within, Circular, Fine, Ranked, AllTurn;
      hide Member;
      ghost var seedCount, start := |server|, registered;
      ghost var left := Starts();
      FineIsRanked(reached, rank);
      WithinStarts(reached);
      AskAll(seedCount, start, left, reached, rank);
      left :| Walked(net, setName, polled, registered, server, |server|, seedCount, start, left);
      WalkEnds(net, setName, polled, registered, server, seedCount, start, left);
      NothingPendingIsClosed(net, setName, old(server), polled, registered);
    }

    lemma Starts() returns (left: set<Host>)
      requires Steady(net, setName, polled, registered, server)
      ensures Walked(net, setName, polled, registered, server, 0, |server|, registered, left)
      ensures AllTurn(net, setName, polled, registered)
    {
      left := set h | h in net && Healthy(net, setName, h);
      hide AllTurn, Covered, Pending, Walked;
      WalkStarts(net, setName, polled, registered, server, left);
    }

    lemma WithinStarts(reached: set<Host>)
      requires forall x :: x in server && Member(net, setName, x) ==> x in reached
      ensures Within(net, setName, reached, server[0..])
    {
      assert server[0..] == server;
    }

    lemma FineIsRanked(reached: set<Host>, rank: map<Host, nat>)
      requires Fine(net, setName, reached, rank)
      ensures Ranked(net, setName, rank)
    {
    }

    lemma WithinNext(reached: set<Host>, rank: map<Host, nat>, was: seq<Host>, i: nat, added: seq<Host>, now: seq<Host>)
      requires Fine(net, setName, reached, rank) && i < |was| && Within(net, setName, reached, was[i..])
      requires added != [] ==> Member(net, setName, was[i]) && PickedFrom(added, net[was[i]].hosts)
      requires |now| == |was| + |added| && now == was[i := now[i]] + added
      ensures Within(net, setName, reached, now[i + 1..])
    {
      hide Fine, Within, PickedFrom;
      if added != [] {
        PickedIn(added, net[was[i]].hosts);
      }
      WithinStep(net, setName, reached, rank, was[i..], added);
      RestStep(was, i, 0, added, now);
    }

    // Its first rounds, on any network. When it is done, every host the servers
    // lead to has been asked; with a circle of aliases it never is, however many
    // rounds there are.
    method DiscoverFor(rounds: nat) returns (done: bool)
      requires Consistent() && Steady(net, setName, polled, registered, server)
      requires forall s :: s in server && Member(net, setName, s) ==> s in registered
      modifies manager.connections, manager.connections.nodes, manager.Cons(), this
      ensures Consistent()
      ensures Circular(net, setName, old(server)) ==> !done
      ensures done ==> Closed(net, setName, old(server), polled)
    {
      hide Consistent, HashFor, IsOwn, Closed, Covered, Pending, Kept, Waits, AllTurn, Asked, Rest;
      ghost var seedCount, start := |server|, registered;
      ghost var left := Starts();
      var i := 0;
      while i < |server| && i < rounds
        invariant Consistent() && i <= |server| && seedCount <= |server|
        invariant Walked(net, setName, polled, registered, server, i, seedCount, start, left)
        invariant AllTurn(net, setName, polled, registered)
        invariant forall c :: c in manager.Cons() ==> c in old(manager.Cons()) || fresh(c)
        invariant forall n :: n in manager.connections.nodes ==> n in old(manager.connections.nodes) || fresh(n)
        decreases rounds - i
      {
        LinksIn(manager.connections.nodes);
        LinksIn(manager.Cons());
        ghost var server0, polled0, registered0 := server, polled, registered;
        ghost var told, kept, added := Ask(i);
        Step(net, setName, polled0, registered0, server0, i, seedCount, start, left, told, kept, added, server);
        AllTurnStep(net, setName, polled0, registered0, server0[i], told, kept, added);
        left := LeftAfter(net, setName, server0[i], i, seedCount, left);
        i := i + 1;
      }
      done := i == |server|;
      if done {
        WalkEnds(net, setName, polled, registered, server, seedCount, start, left);
        NothingPendingIsClosed(net, setName, old(server), polled, registered);
        if Circular(net, setName, old(server)) {
          NeverDone(old(server));
        }
      }
    }

    lemma NeverDone(servers: seq<Host>)
      requires Closed(net, setName, servers, polled) && AllTurn(net, setName, polled, registered)
      requires Circular(net, setName, servers)
      ensures !Pending(net, setName, polled, registered, [])
    {
      hide IsCircle, Closed, Pending, Turning, AllReached;
      var circle: set<Host> :| IsCircle(net, setName, circle) && AllReached(net, setName, servers, circle);
      CircleNeverEnds(net, setName, servers, circle, polled, registered);
    }

    // The start of mongo_get_read_write_connection_replicaset: connects to every
    // server in the list.
    method ConnectServers()
      requires Consistent() && Steady(net, setName, polled, registered, server)
      modifies manager.connections, manager.connections.nodes, this`registered
      ensures Consistent() && Steady(net, setName, polled, registered, server)
      ensures forall s :: s in server && Member(net, setName, s) ==> s in registered
      ensures forall c :: c in manager.Cons() ==> c in old(manager.Cons()) || (fresh(c) && IsOwn(c))
      ensures forall n :: n in manager.connections.nodes ==> n in old(manager.connections.nodes) || fresh(n)
    {
      hide Consistent, HashFor, IsOwn, Steady;
      for i := 0 to |server|
        invariant Consistent() && Steady(net, setName, polled, registered, server)
        invariant forall k :: 0 <= k < i && server[k] in net ==> server[k] in registered
        invariant forall c :: c in manager.Cons() ==> c in old(manager.Cons()) || (fresh(c) && IsOwn(c))
        invariant forall n :: n in manager.connections.nodes ==> n in old(manager.connections.nodes) || fresh(n)
      {
        LinksIn(manager.connections.nodes);
        ghost var before := registered;
        var ok := GetConnectionSingle(server[i]);
        SteadyConnected(net, setName, polled, before, server, server[i], ok);
      }
    }

    // And then discovers the rest of the set. Every member that the servers lead
    // to is polled.
    method ConnectAll()
      requires Consistent() && Steady(net, setName, polled, registered, server)
      requires !Circular(net, setName, server)
      modifies manager.connections, manager.connections.nodes, manager.Cons(), this
      ensures Consistent() && Steady(net, setName, polled, registered, server)
      ensures Closed(net, setName, old(server), polled) && |server| >= |old(server)|
      ensures forall c :: c in manager.Cons() ==> c in old(manager.Cons()) || (fresh(c) && IsOwn(c))
      ensures forall n :: n in manager.connections.nodes ==> n in old(manager.connections.nodes) || fresh(n)
    {
      hide Consistent, HashFor, IsOwn, Steady, Closed, Circular;
      ConnectServers();
      LinksIn(manager.connections.nodes);
      LinksIn(manager.Cons());
      DiscoverTopology();
      SteadyWith(server);
    }

    lemma SteadyWith(rest: seq<Host>)
      requires Steady(net, setName, polled, registered, [])
      ensures Steady(net, setName, polled, registered, rest)
    {
      hide AllTurn, Covered;
    }

    // With a circle of aliases the calls come to no end.
    method ConnectAllFor(rounds: nat) returns (done: bool)
      requires Consistent() && Steady(net, setName, polled, registered, server)
      modifies manager.connections, manager.connections.nodes, manager.Cons(), this
      ensures Consistent()
      ensures Circular(net, setName, old(server)) ==> !done
      ensures done ==> Closed(net, setName, old(server), polled)
    {
      hide Consistent, HashFor, IsOwn, Steady, Circular, Closed;
      ConnectServers();
      LinksIn(manager.connections.nodes);
      LinksIn(manager.Cons());
      done := DiscoverFor(rounds);
    }
  }

  // A new client's state is steady.
  lemma NewIsSteady(net: Net, setName: Text, server: seq<Host>)
    ensures Steady(net, setName, {}, {}, server)
  {
  }
}
