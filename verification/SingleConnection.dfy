// The connection for one server definition, taken from the process-wide list or
// made anew. The list serves every client of the process.
module SingleConnection {
  import opened Text
  import opened Manager
  import opened ServerHash

  // How a server meets an attempt to use it: whether it accepts a connection, the
  // credentials and a ping, and what it tells of itself.
  datatype Attempt = Attempt(connects: bool, authenticates: bool, pings: bool, tags: seq<Text>, mongos: bool,
                             pingMs: int)

  // A connection that was made for some definition.
  ghost predicate Made(c: Connection) {
    exists d, pid :: IsFor(c, d, pid)
  }

  ghost predicate IsFor(c: Connection, d: ServerDef, pid: Pid) {
    c.hash == HashFor(d, pid) && c.address == Address(d.host, d.port)
  }

  // mongo_connection_create: a server is taken for a standalone one, or for a
  // mongos when it says so.
  method CreateConnection(d: ServerDef, pid: Pid, hash: Text, attempt: Attempt) returns (con: Connection?)
    requires hash == HashFor(d, pid)
    ensures con == null <==> !attempt.connects
    ensures con != null ==>
              && fresh(con) && IsFor(con, d, pid) && con.tags == attempt.tags && con.pingMs == attempt.pingMs
              && IsNew(con) && con.nodeType == if attempt.mongos then Mongos else Standalone
  {
    hide HashFor;
    if !attempt.connects {
      return null;
    }
    con := new Connection(Address(d.host, d.port), hash, attempt.tags, if attempt.mongos then Mongos else Standalone,
                          attempt.pingMs);
  }

  // Not asked for its state yet.
  predicate IsNew(c: Connection)
    reads c
  {
    c.lastIsmaster == 0 && (c.nodeType == Standalone || c.nodeType == Mongos)
  }

  // mongo_get_connection_single: with the flag not to connect, only a listed
  // connection is returned, and it is not pinged.
  method GetConnectionSingle(manager: ConManager, d: ServerDef, pid: Pid, attempt: Attempt, dontConnect: bool)
    returns (con: Connection?)
    requires manager.Valid() && DistinctHashes(manager.Cons())
    modifies manager.connections, manager.connections.nodes
    ensures manager.Valid() && DistinctHashes(manager.Cons())
    ensures forall n :: n in manager.connections.nodes ==> n in old(manager.connections.nodes) || fresh(n)
    ensures con != null ==> con in manager.Cons() && con.hash == HashFor(d, pid)
    ensures forall c :: c in manager.Cons() ==> c in old(manager.Cons()) || Made(c)
    ensures var listed := HasHash(old(manager.Cons()), HashFor(d, pid));
            && (con != null <==>
                  if listed then dontConnect || attempt.pings
                  else !dontConnect && attempt.connects && attempt.pings
                       && (d.db.Some? && d.username.Some? && d.password.Some? ==> attempt.authenticates))
            && (listed == (con != null) ==> manager.Cons() == old(manager.Cons()))
            && (!listed && con != null ==>
                  && manager.Cons() == old(manager.Cons()) + [con]
                  && fresh(con) && IsFor(con, d, pid) && con.tags == attempt.tags && IsNew(con))
            && (listed && con == null ==>
                  forall c :: c in manager.Cons() <==> c in old(manager.Cons()) && c.hash != HashFor(d, pid))
  {
    hide HashFor, DistinctHashes;
    var hash := CreateHash(d, pid);
    con := manager.FindByHash(hash);
    if con == null && !dontConnect {
      con := CreateConnection(d, pid, hash, attempt);
      if con == null {
        return;
      }
      if d.db.Some? && d.username.Some? && d.password.Some? && !attempt.authenticates {
        return null;
      }
      if !attempt.pings {
        return null;
      }
      manager.Register(con);
    } else if !dontConnect && !attempt.pings {
      var found := manager.Deregister(con);
      con := null;
    }
  }

  // A client asks for a connection, or a listed one is dropped: by a cursor or a
  // write that failed on it, or by a client that is closed.
  datatype Call =
    | Get(d: ServerDef, pid: Pid, attempt: Attempt, dontConnect: bool)
    | Drop(hash: Text)

  ghost predicate Answers(call: Call, con: Connection?) {
    con != null ==> call.Get? && con.hash == HashFor(call.d, call.pid)
  }

  method ServeOne(manager: ConManager, call: Call) returns (con: Connection?)
    requires manager.Valid() && DistinctHashes(manager.Cons())
    modifies manager.connections, manager.connections.nodes
    ensures manager.Valid() && DistinctHashes(manager.Cons())
    ensures forall n :: n in manager.connections.nodes ==> n in old(manager.connections.nodes) || fresh(n)
    ensures forall c :: c in manager.Cons() ==> c in old(manager.Cons()) || Made(c)
    ensures Answers(call, con) && (con != null ==> con in manager.Cons())
    ensures call.Drop? ==> forall c :: c in manager.Cons() <==> c in old(manager.Cons()) && c.hash != call.hash
  {
    hide HashFor, DistinctHashes, Made, IsFor;
    match call {
    case Get(d, pid, attempt, dontConnect) => con := GetConnectionSingle(manager, d, pid, attempt, dontConnect);
    case Drop(hash) =>
      con := manager.FindByHash(hash);
      if con != null {
        var found := manager.Deregister(con);
        con := null;
      }
    }
  }

  // Over every run of calls, by whatever clients, the list holds one connection
  // for each hash, and each was made for a definition with this hash.
  method Serve(manager: ConManager, calls: seq<Call>) returns (given: seq<Connection?>)
    requires manager.Valid() && DistinctHashes(manager.Cons()) && forall c :: c in manager.Cons() ==> Made(c)
    modifies manager.connections, manager.connections.nodes
    ensures manager.Valid() && DistinctHashes(manager.Cons()) && forall c :: c in manager.Cons() ==> Made(c)
    ensures |given| == |calls|
    ensures forall i :: 0 <= i < |calls| ==> Answers(calls[i], given[i])
  {
    hide HashFor, DistinctHashes, Made, IsFor, HasHash, Answers;
    given := [];
    for i := 0 to |calls|
      invariant manager.Valid() && DistinctHashes(manager.Cons()) && forall c :: c in manager.Cons() ==> Made(c)
      invariant forall n :: n in manager.connections.nodes ==> n in old(manager.connections.nodes) || fresh(n)
      invariant |given| == i
      invariant forall k :: 0 <= k < i ==> Answers(calls[k], given[k])
    {
      assert forall k :: 0 <= k < |manager.connections.nodes| ==>
               manager.connections.nodes[k] in manager.connections.nodes;
      var con := ServeOne(manager, calls[i]);
      given := given + [con];
    }
  }
}
