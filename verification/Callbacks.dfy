// The callbacks a connection keeps for the cursors that read from it, so that
// they learn when it is destroyed. The lists are edited in place, and the steps
// are those of CallbackRuns.
module Callbacks {
  import opened Bytes
  import opened Lists
  import opened Chains
  import opened CallbackRuns

  class Cursor {
    var connection: Connection?
    var dead: bool
    ghost var picking: bool      // between the halves of a query

    constructor ()
      ensures View() == Reader(None, false, false)
    {
      connection, dead, picking := null, false, false;
    }

    ghost function View(): Reader<Connection>
      reads this
    {
      var on: Option<Connection> := if connection == null then None else Some(connection);
      Reader(on, dead, picking)
    }

    // mongo_cursor_mark_dead
    method MarkDead()
      modifies this`connection, this`dead
      ensures View() == Marked(old(View()))
    {
      dead, connection := true, null;
    }
  }

  class Connection {
    const pid: Int32
    const cleanupList: Chain<Cursor>

    ghost predicate Valid()
      reads cleanupList, cleanupList.nodes
    {
      cleanupList.Valid()
    }

    ghost function Cursors(): seq<Cursor>
      reads cleanupList`elems
    {
      cleanupList.elems
    }

    constructor (pid: Int32)
      ensures Valid() && fresh(cleanupList) && this.pid == pid && Cursors() == [] && cleanupList.nodes == []
    {
      this.pid := pid;
      cleanupList := new Chain();
    }

    // The end of mongo_get_read_write_connection_with_callback.
    method Register(cursor: Cursor)
      requires Valid()
      modifies cleanupList, cleanupList.nodes
      ensures Valid() && forall n :: n in cleanupList.nodes ==> n in old(cleanupList.nodes) || fresh(n)
      ensures Cursors() == old(Cursors()) + [cursor]
    {
      cleanupList.Append(cursor);
    }

    // mongo_deregister_callback_from_connection
    method Deregister(cursor: Cursor)
      requires Valid()
      modifies cleanupList, cleanupList.nodes
      ensures Valid() && forall n :: n in cleanupList.nodes ==> n in old(cleanupList.nodes)
      ensures Cursors() == RemoveFirst(old(Cursors()), cursor)
    {
      hide RemoveFirst;
      var ptr, prev := cleanupList.head, null;
      ghost var k := 0;
      while ptr != null
        invariant k <= |cleanupList.nodes| && ptr == cleanupList.NodeAt(k)
        invariant prev == if k > 0 then cleanupList.nodes[k - 1] else null
        invariant cursor !in Cursors()[..k]
        decreases |cleanupList.nodes| - k
      {
        assert cleanupList.Linked(k);
        if ptr.data == cursor {
          RemoveFirstAt(Cursors(), k);
          cleanupList.Unlink(prev, ptr, k);
          return;
        }
        prev := ptr;
        ptr := ptr.next;
        k := k + 1;
      }
      RemoveFirstNone(Cursors(), cursor);
    }

    // mongo_connection_destroy: only the process that made the connection closes
    // it, and then the registered cursors are told.
    method Destroy(currentPid: Int32)
      requires Valid()
      modifies cleanupList, Cursors()
      ensures Valid() && forall n :: n in cleanupList.nodes ==> n in old(cleanupList.nodes)
      ensures currentPid == pid ==>
                Cursors() == [] && forall c :: c in old(Cursors()) ==> c.View() == Marked(old(c.View()))
      ensures currentPid != pid ==> Cursors() == old(Cursors()) && forall c :: c in Cursors() ==> unchanged(c)
    {
      if currentPid != pid {
        return;
      }
      var ptr := cleanupList.head;
      ghost var k := 0;
      while ptr != null
        invariant k <= |cleanupList.nodes| && ptr == cleanupList.NodeAt(k) && Valid()
        invariant cleanupList.nodes == old(cleanupList.nodes) && Cursors() == old(Cursors())
        invariant forall i :: 0 <= i < k ==> Cursors()[i].View() == Marked(old(Cursors()[i].View()))
        invariant forall i :: k <= i < |Cursors()| ==>
                    unchanged(Cursors()[i]) || Cursors()[i].View() == Marked(old(Cursors()[i].View()))
        decreases |cleanupList.nodes| - k
      {
        assert cleanupList.Linked(k);
        assert Cursors()[k] in Cursors();
        ptr.data.MarkDead();
        ptr := ptr.next;
        k := k + 1;
      }
      cleanupList.Clear();
    }
  }

  // One process with its connections and cursors.
  class Process {
    const pid: Int32
    ghost var connections: set<Connection>   // not destroyed yet
    ghost var cursors: set<Cursor>           // not freed yet
    ghost var lists: set<Chain<Cursor>>
    ghost var links: set<Link<Cursor>>

    ghost function Lists(): (r: map<Connection, seq<Cursor>>)
      reads this`connections, this`lists, lists, (set k | k in connections :: k.cleanupList)
      ensures r.Keys == connections
    {
      map k | k in connections :: k.Cursors()
    }

    ghost function Readers(): (r: map<Cursor, Reader<Connection>>)
      reads this`cursors, cursors
      ensures r.Keys == cursors
    {
      map c | c in cursors :: c.View()
    }

    ghost function View(): State<Cursor, Connection>
      reads this, lists, (set k | k in connections :: k.cleanupList), cursors
    {
      State(Lists(), Readers())
    }

    constructor (pid: Int32)
      ensures Valid() && this.pid == pid && View() == State(map[], map[])
    {
      this.pid, connections, cursors, lists, links := pid, {}, {}, {}, {};
    }

    ghost predicate Owns(k: Connection)
      reads this`lists, this`links, lists, links
    {
      k.cleanupList in lists && (forall n :: n in k.cleanupList.nodes ==> n in links) && k.Valid()
    }

    // The lists are apart.
    ghost predicate Wired()
      reads this`connections, this`lists, this`links, lists, links
    {
      && (forall k :: k in connections ==> Owns(k))
      && forall k, k' :: k in connections && k' in connections && k.cleanupList == k'.cleanupList ==> k == k'
    }

    lemma Apart(k: Connection)
      requires Wired() && k in connections
      ensures forall k', n :: k' in connections && k' != k && n in k'.cleanupList.nodes ==> n !in k.cleanupList.nodes
    {
    }

    // The callback of a cursor, if it has one, is taken out.
    method Unregister(c: Cursor)
      requires Wired() && IsIdle(View(), c) && CallbackRuns.Leads(View(), c)
      modifies lists, links
      ensures Wired() && Lists() == CallbackRuns.Unregister(old(View()), c).lists
    {
      hide RemoveFirst;
      if c.connection != null {
        Apart(c.connection);
        c.connection.Deregister(c);
      }
    }

    twostate lemma ReadersAfter(c: Cursor)
      requires c in old(cursors) && cursors == old(cursors)
      requires forall x :: x in cursors && x != c ==> unchanged(x)
      ensures Readers() == old(Readers())[c := c.View()]
    {
    }

    lemma ListsAfter(was: map<Connection, seq<Cursor>>, k: Connection, s: seq<Cursor>)
      requires was.Keys == connections && k in connections && k.Cursors() == s
      requires forall k' :: k' in connections && k' != k ==> k'.Cursors() == was[k']
      ensures Lists() == was[k := s]
    {
    }

    lemma ListsWithout(was: map<Connection, seq<Cursor>>, k: Connection)
      requires was.Keys - {k} == connections
      requires forall k' :: k' in connections ==> k'.Cursors() == was[k']
      ensures Lists() == was - {k}
    {
    }

    lemma ListsWith(was: map<Connection, seq<Cursor>>, k: Connection)
      requires was.Keys + {k} == connections && k.Cursors() == []
      requires forall k' :: k' in connections && k' != k ==> k'.Cursors() == was[k']
      ensures Lists() == was[k := []]
    {
    }

    ghost predicate Valid()
      reads this, lists, links, (set k | k in connections :: k.cleanupList), cursors
    {
      Wired() && Inv(View())
    }

    // mongo_cursor__do_query, up to the search for a connection.
    method BeginQuery(c: Cursor)
      requires Valid() && Enabled(View(), Step.BeginQuery(c))
      modifies c, lists, links
      ensures Valid() && View() == Next(old(View()), Step.BeginQuery(c))
    {
      hide Inv, RemoveFirst, Wired, Owns, Next, Lists, Readers;
      ghost var st := View();
      StepKeepsInv(st, Step.BeginQuery(c));
      Unregister(c);
      StartPicking(c);
      QueryBegun(st, c, View());
    }

    ghost method StartPicking(c: Cursor)
      requires Wired() && c in cursors
      modifies c
      ensures Wired() && Lists() == old(Lists())
      ensures Readers() == old(Readers())[c := old(Readers())[c].(picking := true)]
    {
      c.picking := true;
      ReadersAfter(c);
    }

    lemma QueryBegun(st: State<Cursor, Connection>, c: Cursor, st': State<Cursor, Connection>)
      requires Enabled(st, Step.BeginQuery(c))
      requires st'.lists == CallbackRuns.Unregister(st, c).lists
      requires st'.readers == st.readers[c := st.readers[c].(picking := true)]
      ensures st' == Next(st, Step.BeginQuery(c))
    {
    }

    // Its end, with the connection that was picked, if there is one: the callback
    // is added before the cursor points to the connection.
    method EndQuery(c: Cursor, on: Connection?)
      requires Valid() && Enabled(View(), EndingWith(c, on))
      modifies c, lists, links, this`links
      ensures Valid() && View() == Next(old(View()), EndingWith(c, on))
      ensures forall n :: n in links ==> n in old(links) || fresh(n)
    {
      hide Inv, RemoveFirst, Wired, Owns, Next, Lists, Readers;
      ghost var st := View();
      StepKeepsInv(st, EndingWith(c, on));
      assert on != null ==> on in connections;
      if on != null {
        RegisterOn(c, on);
      }
      PointTo(c, on);
      QueryEnded(st, c, on, View());
    }

    lemma QueryEnded(st: State<Cursor, Connection>, c: Cursor, on: Connection?, st': State<Cursor, Connection>)
      requires Enabled(st, EndingWith(c, on))
      requires st'.lists == if on == null then st.lists else st.lists[on := st.lists[on] + [c]]
      requires st'.readers == st.readers[c := st.readers[c].(connection := EndingWith(c, on).on, picking := false)]
      ensures st' == Next(st, EndingWith(c, on))
    {
    }

    method PointTo(c: Cursor, on: Connection?)
      requires Wired() && c in cursors
      modifies c
      ensures Wired() && Lists() == old(Lists())
      ensures Readers()
           == old(Readers())[c := old(Readers())[c].(connection := EndingWith(c, on).on, picking := false)]
    {
      c.connection, c.picking := on, false;
      ReadersAfter(c);
    }

    function EndingWith(c: Cursor, on: Connection?): Step<Cursor, Connection> {
      var given: Option<Connection> := if on == null then None else Some(on);
      Step.EndQuery(c, given)
    }

    method RegisterOn(c: Cursor, on: Connection)
      requires Wired() && on in connections
      modifies lists, links, this`links
      ensures Wired() && Lists() == old(Lists())[on := old(Lists())[on] + [c]]
      ensures forall n :: n in links ==> n in old(links) || fresh(n)
    {
      hide Wired, Owns, Lists;
      ghost var was := Lists();
      AppendOn(c, on);
      ListsAfter(was, on, was[on] + [c]);
    }

    method AppendOn(c: Cursor, on: Connection)
      requires Wired() && on in connections
      modifies lists, links, this`links
      ensures Wired() && forall n :: n in links ==> n in old(links) || fresh(n)
      ensures on.Cursors() == old(Lists())[on] + [c]
      ensures forall k :: k in connections && k != on ==> k.Cursors() == old(Lists())[k]
    {
      Apart(on);
      on.Register(c);
      links := links + set n | n in on.cleanupList.nodes;
      forall k | k in connections && k != on ensures Owns(k) && k.Cursors() == old(k.Cursors()) {
        assert old(Owns(k));
      }
      hide Owns;
    }

    // mongo_cursor_free_le: the walk over the open cursors takes the callback out
    // at their first node, if there is one. The cursor keeps its pointer.
    method Release(c: Cursor, noneOpen: bool)
      requires Valid() && Enabled(View(), Step.Release(c))
      modifies lists, links
      ensures Valid() && View() == if noneOpen then old(View()) else Next(old(View()), Step.Release(c))
    {
      hide Inv, RemoveFirst, Owns;
      if noneOpen {
        return;
      }
      StepKeepsInv(View(), Step.Release(c));
      Unregister(c);
    }

    // php_mongo_cursor_free
    method Free(c: Cursor)
      requires Valid() && Enabled(View(), Step.Free(c))
      modifies lists, links, this`cursors
      ensures Valid() && View() == Next(old(View()), Step.Free(c))
    {
      hide Inv, RemoveFirst, Wired, Owns, Next, Lists, Readers;
      ghost var st := View();
      StepKeepsInv(st, Step.Free(c));
      Unregister(c);
      Forget(c);
      Freed(st, c, View());
    }

    ghost method Forget(c: Cursor)
      requires Wired() && c in cursors
      modifies this`cursors
      ensures Wired() && Lists() == old(Lists()) && Readers() == old(Readers()) - {c}
    {
      cursors := cursors - {c};
      assert Readers() == old(Readers()) - {c};
    }

    lemma Freed(st: State<Cursor, Connection>, c: Cursor, st': State<Cursor, Connection>)
      requires Enabled(st, Step.Free(c))
      requires st'.lists == CallbackRuns.Unregister(st, c).lists && st'.readers == st.readers - {c}
      ensures st' == Next(st, Step.Free(c))
    {
    }

    method NewCursor() returns (c: Cursor)
      requires Valid()
      modifies this`cursors
      ensures fresh(c) && Valid() && View() == Next(old(View()), Step.NewCursor(c))
    {
      hide Inv, Owns;
      c := new Cursor();
      StepKeepsInv(View(), Step.NewCursor(c));
      cursors := cursors + {c};
      assert Readers() == old(Readers())[c := c.View()];
    }

    // mongo_connection_create
    method Connect() returns (k: Connection)
      requires Valid()
      modifies this`connections, this`lists
      ensures fresh(k) && fresh(k.cleanupList) && lists == old(lists) + {k.cleanupList}
      ensures Valid() && k.pid == pid && View() == Next(old(View()), Step.Connect(k))
    {
      hide Inv, Wired, Owns, Next, Lists, Readers;
      ghost var st := View();
      k := new Connection(pid);
      StepKeepsInv(st, Step.Connect(k));
      AddConnection(k);
      Connected(st, k, View());
    }

    lemma Connected(st: State<Cursor, Connection>, k: Connection, st': State<Cursor, Connection>)
      requires k !in st.lists && st' == State(st.lists[k := []], st.readers)
      ensures st' == Next(st, Step.Connect(k))
    {
    }

    ghost method AddConnection(k: Connection)
      requires Wired() && k !in connections && k.cleanupList !in lists && k.Valid()
      requires k.Cursors() == [] && k.cleanupList.nodes == []
      modifies this`connections, this`lists
      ensures connections == old(connections) + {k} && lists == old(lists) + {k.cleanupList}
      ensures Wired() && Lists() == old(Lists())[k := []] && Readers() == old(Readers())
    {
      ghost var was := Lists();
      connections, lists := connections + {k}, lists + {k.cleanupList};
      forall k' | k' in connections ensures Owns(k') {
        assert k' != k ==> old(Owns(k'));
      }
      hide Owns;
      ListsWith(was, k);
    }

    // mongo_connection_destroy by this process, or by one that was forked off it:
    // only this one closes the connection.
    method Destroy(k: Connection, currentPid: Int32)
      requires Valid() && Enabled(View(), Step.Destroy(k)) && k.pid == pid
      modifies lists, cursors, this`connections
      ensures Valid() && View() == if currentPid == pid then Next(old(View()), Step.Destroy(k)) else old(View())
    {
      ghost var st := View();
      StepKeepsInv(st, Step.Destroy(k));
      RegisteredAreLive(k);
      hide Inv, Wired, Owns, Next, Readers, Lists;
      DestroyList(k, currentPid);
      if currentPid == pid {
        Drop(k, st.lists);
        Destroyed(st, k, View());
      }
    }

    ghost method Drop(k: Connection, was: map<Connection, seq<Cursor>>)
      requires Wired() && was.Keys == connections
      requires forall k' :: k' in connections && k' != k ==> k'.Cursors() == was[k']
      modifies this`connections
      ensures Wired() && Lists() == was - {k} && Readers() == old(Readers())
    {
      connections := connections - {k};
      ListsWithout(was, k);
    }

    lemma Destroyed(st: State<Cursor, Connection>, k: Connection, st': State<Cursor, Connection>)
      requires k in st.lists && st'.lists == st.lists - {k}
      requires st'.readers
            == map c | c in st.readers :: if c in st.lists[k] then Marked(st.readers[c]) else st.readers[c]
      ensures st' == Next(st, Step.Destroy(k))
    {
    }

    lemma RegisteredAreLive(k: Connection)
      requires Valid() && k in connections
      ensures forall c :: c in k.Cursors() ==> c in cursors
    {
      assert k.Cursors() == View().lists[k];
      forall c | c in k.Cursors() ensures c in cursors {
        assert PointsBack(View(), k, c);
      }
    }

    method DestroyList(k: Connection, currentPid: Int32)
      requires Wired() && k in connections && k.pid == pid
      requires forall c :: c in k.Cursors() ==> c in cursors
      modifies lists, cursors
      ensures Wired() && forall k' :: k' in connections && k' != k ==> k'.Cursors() == old(Lists())[k']
      ensures currentPid != pid ==> Lists() == old(Lists()) && Readers() == old(Readers())
      ensures currentPid == pid ==>
                (Readers()
                 == map c | c in old(Readers()) ::
                      if c in old(Lists())[k] then Marked(old(Readers())[c]) else old(Readers())[c])
    {
      Apart(k);
      k.Destroy(currentPid);
      if currentPid != pid {
        forall c | c in cursors ensures c.View() == old(c.View()) {
          assert c in k.Cursors() ==> unchanged(c);
        }
        assert Readers() == old(Readers());
      }
    }
  }
}
