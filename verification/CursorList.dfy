// The process-wide list of cursors open on a server: a doubly linked list of
// (cursor id, socket) nodes, edited in place.
module CursorList {
  import opened Bytes
  import opened Lists

  datatype Entry = Entry(cursorId: Int64, socket: int)

  // ----- What opening and freeing cursors does to the list -----

  datatype Step = Open(e: Entry) | Free(e: Entry)

  // The listed cursors and the kill messages sent.
  datatype State = State(entries: seq<Entry>, killed: seq<Entry>)

  function Next(st: State, step: Step): State {
    match step
    case Open(e) => if e in st.entries then st else st.(entries := st.entries + [e])
    case Free(e) =>
      if e !in st.entries then st
      else State(RemoveFirst(st.entries, e), st.killed + if e.cursorId == 0 then [] else [e])
  }

  function Run(st: State, steps: seq<Step>): State
    decreases |steps|
  {
    if steps == [] then st else Run(Next(st, steps[0]), steps[1..])
  }

  function Opened(steps: seq<Step>, e: Entry): nat {
    if steps == [] then 0 else (if steps[0] == Open(e) then 1 else 0) + Opened(steps[1..], e)
  }

  // Whether a step opens a cursor that is not listed yet.
  predicate OpensAnew(st: State, step: Step, e: Entry) {
    step == Open(e) && e !in st.entries
  }

  function OpenedAnew(st: State, steps: seq<Step>, e: Entry): nat
    decreases |steps|
  {
    if steps == [] then 0
    else (if OpensAnew(st, steps[0], e) then 1 else 0) + OpenedAnew(Next(st, steps[0]), steps[1..], e)
  }

  // Freeing a listed cursor takes it off the list and sends one kill for it,
  // unless its id is 0; no other cursor is touched.
  lemma FreeKillsOnce(st: State, e: Entry, other: Entry)
    requires e in st.entries && Count(st.entries, e) <= 1 && other != e
    ensures var st' := Next(st, Free(e));
            && e !in st'.entries
            && Count(st'.killed, e) == Count(st.killed, e) + (if e.cursorId == 0 then 0 else 1)
            && Count(st'.killed, other) == Count(st.killed, other)
            && Count(st'.entries, other) == Count(st.entries, other)
  {
    var st' := Next(st, Free(e));
    CountIn(st.entries, e);
    CountRemoved(st.entries, e, e);
    CountRemoved(st.entries, e, other);
    CountIn(st'.entries, e);
    CountConcat(st.killed, [e], e);
    CountConcat(st.killed, [e], other);
    CountOne(e, e);
    CountOne(e, other);
    assert st.killed + [] == st.killed;
    hide RemoveFirst, Count;
  }

  lemma CountOne(x: Entry, e: Entry)
    ensures Count([x], e) == if x == e then 1 else 0
  {
    assert [x][1..] == [];
  }

  // One step: every cursor with an id that was opened anew is listed or killed,
  // and nothing else is.
  lemma NextConserves(st: State, step: Step, e: Entry)
    requires e.cursorId != 0
    ensures Count(Next(st, step).killed, e) + Count(Next(st, step).entries, e)
         == Count(st.killed, e) + Count(st.entries, e) + if OpensAnew(st, step, e) then 1 else 0
  {
    CountConcat(st.entries, [step.e], e);
    CountConcat(st.killed, [step.e], e);
    CountOne(step.e, e);
    if step.e in st.entries {
      CountIn(st.entries, step.e);
      CountRemoved(st.entries, step.e, e);
    }
    assert st.killed + [] == st.killed;
    hide RemoveFirst, Count;
  }

  // Over every run: each time a cursor with an id was opened anew it is listed
  // still, or one kill was sent for it.
  lemma {:induction false} OpenedAreListedOrKilled(st: State, steps: seq<Step>, e: Entry)
    requires e.cursorId != 0
    ensures Count(Run(st, steps).killed, e) + Count(Run(st, steps).entries, e)
         == Count(st.killed, e) + Count(st.entries, e) + OpenedAnew(st, steps, e)
    decreases |steps|
  {
    hide Next, Count, OpensAnew;
    if steps != [] {
      NextConserves(st, steps[0], e);
      OpenedAreListedOrKilled(Next(st, steps[0]), steps[1..], e);
    }
  }

  // One step: an entry stays listed at most once; a kill is for a listed entry
  // with a non-zero id, which it takes off the list.
  lemma NextCounts(st: State, step: Step, e: Entry)
    ensures Count(st.entries, e) <= 1 ==> Count(Next(st, step).entries, e) <= 1
    ensures Count(Next(st, step).killed, e) + Count(Next(st, step).entries, e)
         <= Count(st.killed, e) + Count(st.entries, e) + if step == Open(e) then 1 else 0
    ensures e.cursorId == 0 ==> Count(Next(st, step).killed, e) == Count(st.killed, e)
  {
    CountIn(st.entries, e);
    CountConcat(st.entries, [step.e], e);
    CountConcat(st.killed, [step.e], e);
    CountIn(st.entries, step.e);
    if step.e in st.entries {
      CountRemoved(st.entries, step.e, e);
    }
    assert Count([step.e], e) == (if step.e == e then 1 else 0) by {
      assert [step.e][1..] == [];
    }
    assert st.killed + [] == st.killed;
    hide RemoveFirst, Count;
  }

  // Over every run: no cursor is killed or listed more often than it was
  // opened, so none is killed twice without being opened again in between, and
  // none is listed twice.
  lemma {:induction false} KillsAreOpened(st: State, steps: seq<Step>, e: Entry)
    ensures Count(Run(st, steps).killed, e) + Count(Run(st, steps).entries, e)
         <= Count(st.killed, e) + Count(st.entries, e) + Opened(steps, e)
    ensures Count(st.entries, e) <= 1 ==> Count(Run(st, steps).entries, e) <= 1
    ensures e.cursorId == 0 ==> Count(Run(st, steps).killed, e) == Count(st.killed, e)
    decreases |steps|
  {
    hide Next, Count;
    if steps != [] {
      NextCounts(st, steps[0], e);
      KillsAreOpened(Next(st, steps[0]), steps[1..], e);
    }
  }

  class Node {
    const entry: Entry
    var prev: Node?
    var next: Node?

    constructor (entry: Entry)
      ensures this.entry == entry && prev == null && next == null
    {
      this.entry, prev, next := entry, null, null;
    }
  }

  // What the list needs of a cursor: its id and the socket of its connection.
  class Handle {
    var cursorId: Int64
    const socket: Option<int>

    constructor (cursorId: Int64, socket: Option<int>)
      ensures this.cursorId == cursorId && this.socket == socket
    {
      this.cursorId, this.socket := cursorId, socket;
    }

    function Key(): Entry
      reads this
    {
      Entry(cursorId, if socket.Some? then socket.value else 0)
    }
  }

  class OpenCursors {
    var head: Node?
    var killed: seq<Entry>       // the kill messages sent: which id on which socket
    ghost var nodes: seq<Node>
    ghost var entries: seq<Entry>

    // A well-formed doubly linked list without cycles, and no two nodes alike.
    ghost predicate Valid()
      reads this, nodes
    {
      && Linked()
      && |nodes| == |entries| && (forall i :: 0 <= i < |nodes| ==> nodes[i].entry == entries[i])
      && Once(entries)
    }

    ghost predicate Linked()
      reads this`head, this`nodes, nodes
    {
      && head == NodeAt(0)
      && (forall i, j :: 0 <= i < j < |nodes| ==> nodes[i] != nodes[j])
      && (forall i :: 0 <= i < |nodes| ==> LinkedAt(i))
    }

    ghost predicate LinkedAt(i: nat)
      requires i < |nodes|
      reads this`nodes, nodes
    {
      nodes[i].next == NodeAt(i + 1) && nodes[i].prev == NodeAt(i - 1)
    }

    ghost function NodeAt(i: int): Node?
      reads this`nodes
    {
      if 0 <= i < |nodes| then nodes[i] else null
    }

    ghost function View(): State
      reads this
    {
      State(entries, killed)
    }

    constructor ()
      ensures Valid() && entries == [] && killed == []
    {
      head, killed, nodes, entries := null, [], [], [];
    }

    // php_mongo_create_le. It would follow a null pointer, ok being false, for a
    // cursor without a connection that has the id of a listed one; its caller has
    // used the connection before.
    method CreateLe(cursor: Handle) returns (ok: bool)
      requires Valid()
      modifies this, nodes
      ensures Valid() && forall n :: n in nodes ==> n in old(nodes) || fresh(n)
      ensures ok <==> cursor.socket.Some? || forall e :: e in old(entries) ==> e.cursorId != cursor.cursorId
      ensures View() == if ok then Next(old(View()), Open(cursor.Key())) else old(View())
    {
      var node := new Node(cursor.Key());
      if head == null {
        head := node;
        nodes, entries := [node], [node.entry];
        return true;
      }
      var current: Node? := head;
      var prev := current;
      ghost var k := 0;
      while current != null
        invariant k <= |nodes| && current == NodeAt(k)
        invariant k > 0 ==> prev == nodes[k - 1]
        invariant node.entry !in entries[..k]
        invariant cursor.socket.None? ==> forall i :: 0 <= i < k ==> entries[i].cursorId != cursor.cursorId
        decreases |nodes| - k
      {
        assert LinkedAt(k);
        if current.entry.cursorId == cursor.cursorId {
          assert entries[k] in entries;
          if cursor.socket.None? {
            return false;
          }
          if current.entry.socket == cursor.socket.value {
            return true;
          }
        }
        prev := current;
        current := current.next;
        k := k + 1;
      }
      Append(prev, node);
      ok := true;
    }

    method Append(last: Node, node: Node)
      requires Valid() && nodes != [] && last == nodes[|nodes| - 1]
      requires node !in nodes && node.next == null && node.entry !in entries
      modifies this`nodes, this`entries, last`next, node`prev
      ensures Valid() && nodes == old(nodes) + [node] && entries == old(entries) + [node.entry]
    {
      ghost var n := |nodes|;
      assert forall i :: 0 <= i < n ==> LinkedAt(i);
      last.next := node;
      node.prev := last;
      nodes, entries := nodes + [node], entries + [node.entry];
      forall i | 0 <= i < n + 1 ensures LinkedAt(i) {
        assert i < n ==> old(LinkedAt(i));
      }
    }

    // php_mongo_free_cursor_node
    method FreeNode(node: Node, ghost k: nat)
      requires Valid() && k < |nodes| && nodes[k] == node
      modifies this, nodes
      ensures Valid() && killed == old(killed)
      ensures nodes == old(nodes[..k] + nodes[k + 1..])
      ensures entries == RemoveFirst(old(entries), node.entry)
    {
      OnceBefore(entries, k);
      RemoveFirstAt(entries, k);
      RemovedOnce(entries, node.entry);
      hide RemoveFirst, Once;
      Unlink(node, k);
      entries := entries[..k] + entries[k + 1..];
    }

    method Unlink(node: Node, ghost k: nat)
      requires Linked() && k < |nodes| && nodes[k] == node
      modifies this`head, this`nodes, nodes
      ensures Linked() && nodes == old(nodes[..k] + nodes[k + 1..])
    {
      assert LinkedAt(k);
      if node.prev != null {
        node.prev.next := node.next;
        if node.next != null {
          node.next.prev := node.prev;
        }
      } else {
        head := node.next;
        if node.next != null {
          node.next.prev := null;
        }
      }
      nodes := nodes[..k] + nodes[k + 1..];
      forall i | 0 <= i < |nodes| ensures LinkedAt(i) {
        assert old(LinkedAt(if i < k then i else i + 1));
      }
    }

    // mongo_cursor_free_le for a cursor: takes out the one node with its id and
    // socket, killing the server's cursor unless the id says it is gone.
    method FreeLe(cursor: Handle)
      requires Valid()
      modifies this, nodes, cursor`cursorId
      ensures Valid() && forall n :: n in nodes ==> n in old(nodes)
      ensures View() == if cursor.socket.Some? then Next(old(View()), Free(old(cursor.Key()))) else old(View())
      ensures cursor.cursorId == if View() != old(View()) then 0 else old(cursor.cursorId)
      ensures var e := old(cursor.Key());
              if cursor.socket.Some? && e in old(entries)
              then e !in entries && killed == old(killed) + if e.cursorId != 0 then [e] else []
              else entries == old(entries) && killed == old(killed)
    {
      ghost var e := cursor.Key();
      var current := head;
      ghost var k := 0;
      while current != null
        invariant k <= |nodes| && current == NodeAt(k)
        invariant cursor.socket.Some? ==> e !in entries[..k]
        decreases |nodes| - k
      {
        assert LinkedAt(k);
        var next := current.next;
        if current.entry.cursorId == cursor.cursorId && cursor.socket == Some(current.entry.socket) {
          assert entries[k] == e;
          if current.entry.cursorId == 0 {
            FreeNode(current, k);
          } else {
            KillCursor(current, k);
            cursor.cursorId := 0;
          }
          return;
        }
        current := next;
        k := k + 1;
      }
    }

    // kill_cursor
    method KillCursor(node: Node, ghost k: nat)
      requires Valid() && k < |nodes| && nodes[k] == node
      modifies this, nodes
      ensures Valid() && nodes == old(nodes[..k] + nodes[k + 1..])
      ensures entries == RemoveFirst(old(entries), node.entry)
      ensures killed == old(killed) + if node.entry.cursorId == 0 then [] else [node.entry]
    {
      if node.entry.cursorId == 0 {
        FreeNode(node, k);
        return;
      }
      killed := killed + [node.entry];
      FreeNode(node, k);
    }
  }
}
