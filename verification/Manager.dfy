// The connection manager's list: one connection for each hash.
module Manager {
  import opened Bytes
  import opened Chains
  import opened Text

  // The name of a server ends at its first colon, so it holds none.
  type Host = h: Address | COLON !in h.name witness Address([], 0)

  datatype Address = Address(name: Text, port: Int32)

  datatype NodeType = Invalid | Standalone | Primary | Secondary | Arbiter | Mongos

  class Connection {
    const address: Address       // where the socket leads
    const hash: Text
    const tags: seq<Text>
    var lastIsmaster: nat        // 0 until the server has told its state
    var nodeType: NodeType
    var pingMs: int

    constructor (address: Address, hash: Text, tags: seq<Text>, nodeType: NodeType, pingMs: int)
      ensures this.address == address && this.hash == hash && this.tags == tags
      ensures lastIsmaster == 0 && this.nodeType == nodeType && this.pingMs == pingMs
    {
      this.address, this.hash, this.tags := address, hash, tags;
      lastIsmaster, this.nodeType, this.pingMs := 0, nodeType, pingMs;
    }
  }

  predicate HasHash(cons: seq<Connection>, hash: Text) {
    exists c :: c in cons && c.hash == hash
  }

  predicate DistinctHashes(cons: seq<Connection>) {
    forall i, j :: 0 <= i < j < |cons| ==> cons[i].hash != cons[j].hash
  }

  // One connection for each hash stays so exactly when the new one has a hash
  // of its own.
  lemma RegisteredDistinctIff(cons: seq<Connection>, con: Connection)
    ensures DistinctHashes(cons + [con]) <==> DistinctHashes(cons) && !HasHash(cons, con.hash)
  {
    var t := cons + [con];
    assert t[|cons|] == con;
    if DistinctHashes(t) {
      forall i, j | 0 <= i < j < |cons| ensures cons[i].hash != cons[j].hash {
        assert t[i].hash != t[j].hash;
      }
      forall i | 0 <= i < |cons| ensures cons[i].hash != con.hash {
        assert t[i].hash != t[|cons|].hash;
      }
    }
  }

  // Where hashes are distinct, taking out position k is dropping its hash.
  lemma DroppedHash(cons: seq<Connection>, k: nat)
    requires k < |cons| && DistinctHashes(cons)
    ensures DistinctHashes(cons[..k] + cons[k + 1..])
    ensures forall c :: c in cons[..k] + cons[k + 1..] <==> c in cons && c.hash != cons[k].hash
  {
    var rest := cons[..k] + cons[k + 1..];
    forall i, j | 0 <= i < j < |rest| ensures rest[i].hash != rest[j].hash {
      assert rest[i] == cons[if i < k then i else i + 1] && rest[j] == cons[if j < k then j else j + 1];
    }
    forall c | c in cons && c.hash != cons[k].hash ensures c in rest {
      var i :| 0 <= i < |cons| && cons[i] == c;
      assert rest[if i < k then i else i - 1] == c;
    }
  }

  // The first connection with this hash.
  predicate FirstWith(cons: seq<Connection>, hash: Text, k: nat) {
    k < |cons| && cons[k].hash == hash && forall i :: 0 <= i < k ==> cons[i].hash != hash
  }

  class ConManager {
    const connections: Chain<Connection>

    ghost predicate Valid()
      reads connections, connections.nodes
    {
      connections.Valid()
    }

    ghost function Cons(): seq<Connection>
      reads connections`elems
    {
      connections.elems
    }

    constructor ()
      ensures Valid() && Cons() == [] && connections.nodes == [] && fresh(connections)
    {
      connections := new Chain();
    }

    // mongo_manager_connection_find_by_hash
    method FindByHash(hash: Text) returns (con: Connection?)
      requires Valid()
      ensures con == null <==> !HasHash(Cons(), hash)
      ensures con != null ==> con in Cons() && con.hash == hash
    {
      var ptr := connections.head;
      ghost var k := 0;
      while ptr != null
        invariant k <= |connections.nodes| && ptr == connections.NodeAt(k)
        invariant forall i :: 0 <= i < k ==> Cons()[i].hash != hash
        decreases |connections.nodes| - k
      {
        if ptr.data.hash == hash {
          return ptr.data;
        }
        assert connections.Linked(k);
        ptr := ptr.next;
        k := k + 1;
      }
      return null;
    }

    // mongo_manager_connection_register: appends, and does not look for an
    // earlier connection of the same hash.
    method Register(con: Connection)
      requires Valid()
      modifies connections, connections.nodes
      ensures Valid() && forall n :: n in connections.nodes ==> n in old(connections.nodes) || fresh(n)
      ensures Cons() == old(Cons()) + [con]
      ensures DistinctHashes(Cons()) <==> DistinctHashes(old(Cons())) && !HasHash(old(Cons()), con.hash)
    {
      RegisteredDistinctIff(Cons(), con);
      hide DistinctHashes;
      connections.Append(con);
    }

    // mongo_manager_connection_deregister: takes out the first connection with
    // this hash.
    method Deregister(con: Connection) returns (found: bool)
      requires Valid()
      modifies connections, connections.nodes
      ensures Valid() && forall n :: n in connections.nodes ==> n in old(connections.nodes)
      ensures found == HasHash(old(Cons()), con.hash)
      ensures !found ==> Cons() == old(Cons())
      ensures found ==>
                exists k: nat ::
                  FirstWith(old(Cons()), con.hash, k) && Cons() == old(Cons())[..k] + old(Cons())[k + 1..]
      ensures DistinctHashes(old(Cons())) ==>
                DistinctHashes(Cons()) && forall c :: c in Cons() <==> c in old(Cons()) && c.hash != con.hash
    {
      var ptr, prev := connections.head, null;
      ghost var k := 0;
      while ptr != null
        invariant k <= |connections.nodes| && ptr == connections.NodeAt(k)
        invariant prev == if k > 0 then connections.nodes[k - 1] else null
        invariant forall i :: 0 <= i < k ==> Cons()[i].hash != con.hash
        decreases |connections.nodes| - k
      {
        assert connections.Linked(k);
        if ptr.data.hash == con.hash {
          assert Cons()[k] in Cons() && FirstWith(Cons(), con.hash, k);
          if DistinctHashes(Cons()) {
            DroppedHash(Cons(), k);
          }
          hide DistinctHashes, FirstWith;
          connections.Unlink(prev, ptr, k);
          return true;
        }
        prev := ptr;
        ptr := ptr.next;
        k := k + 1;
      }
      return false;
    }
  }
}
