// Singly linked lists edited in place: the manager's connections, and the
// callbacks of a connection.
module Chains {
  class Link<T> {
    const data: T
    ghost const home: Chain<T>       // the chain the link was made for
    var next: Link?<T>

    constructor (data: T, ghost home: Chain<T>)
      ensures this.data == data && this.home == home && next == null
    {
      this.data, this.home, next := data, home, null;
    }
  }

  class Chain<T> {
    var head: Link?<T>
    ghost var nodes: seq<Link<T>>
    ghost var elems: seq<T>

    // A list without cycles that ends.
    ghost predicate Valid()
      reads this, nodes
    {
      && head == NodeAt(0)
      && (forall i, j :: 0 <= i < j < |nodes| ==> nodes[i] != nodes[j])
      && (forall i :: 0 <= i < |nodes| ==> Linked(i))
      && (forall i :: 0 <= i < |nodes| ==> nodes[i].home == this)
      && |nodes| == |elems| && forall i :: 0 <= i < |nodes| ==> nodes[i].data == elems[i]
    }

    ghost predicate Linked(i: nat)
      requires i < |nodes|
      reads this`nodes, nodes
    {
      nodes[i].next == NodeAt(i + 1)
    }

    ghost function NodeAt(i: nat): Link?<T>
      reads this`nodes
    {
      if i < |nodes| then nodes[i] else null
    }

    constructor ()
      ensures Valid() && elems == [] && nodes == []
    {
      head, nodes, elems := null, [], [];
    }

    // The walk to the last link, and a new one behind it.
    method Append(data: T)
      requires Valid()
      modifies this, nodes
      ensures Valid() && forall n :: n in nodes ==> n in old(nodes) || fresh(n)
      ensures elems == old(elems) + [data]
    {
      var link := new Link(data, this);
      if head == null {
        head := link;
      } else {
        var ptr := head;
        ghost var k := 0;
        while ptr.next != null
          invariant k < |nodes| && ptr == nodes[k]
          decreases |nodes| - k
        {
          assert Linked(k);
          ptr := ptr.next;
          k := k + 1;
        }
        assert Linked(k);
        ptr.next := link;
      }
      nodes, elems := nodes + [link], elems + [data];
      forall i | 0 <= i < |nodes| ensures Linked(i) {
        assert i < |nodes| - 1 ==> old(Linked(i));
      }
    }

    // The link at position k, behind prev, is taken out.
    method Unlink(prev: Link?<T>, ptr: Link<T>, ghost k: nat)
      requires Valid() && k < |nodes| && ptr == nodes[k] && prev == if k == 0 then null else nodes[k - 1]
      modifies this, nodes
      ensures Valid() && forall n :: n in nodes ==> n in old(nodes)
      ensures elems == old(elems)[..k] + old(elems)[k + 1..]
    {
      assert Linked(k);
      if prev == null {
        head := ptr.next;
      } else {
        prev.next := ptr.next;
      }
      nodes, elems := nodes[..k] + nodes[k + 1..], elems[..k] + elems[k + 1..];
      forall i | 0 <= i < |nodes| ensures Linked(i) {
        assert old(Linked(if i < k then i else i + 1));
      }
    }

    method Clear()
      modifies this
      ensures Valid() && elems == [] && nodes == []
    {
      head, nodes, elems := null, [], [];
    }
  }
}
