// Every run of queries, releases, frees and destroyed connections. Callbacks
// takes these steps in place.
module CallbackRuns {
  import opened Bytes
  import opened Lists

  // A cursor: the connection it points to, whether it was marked dead, and
  // whether a query is picking a connection for it.
  datatype Reader<K> = Reader(connection: Option<K>, dead: bool, picking: bool)

  // The callback list of each live connection, and the live cursors.
  datatype State<C(==), K(==)> = State(lists: map<K, seq<C>>, readers: map<C, Reader<K>>)

  datatype Step<C, K> =
    | NewCursor(c: C)
    | Connect(k: K)
    | BeginQuery(c: C)                // mongo_cursor__do_query, until a connection is picked
    | EndQuery(c: C, on: Option<K>)   // what it was given
    | Release(c: C)                   // mongo_cursor_free_le: the callback goes, the pointer stays
    | Free(c: C)                      // php_mongo_cursor_free
    | Destroy(k: K)                   // mongo_connection_destroy, by the process that connected

  // A step that takes a callback out follows the cursor's pointer, which must
  // not lead to a destroyed connection. While a cursor's connection is picked,
  // others come and go.
  predicate Enabled<C(==), K(==)>(st: State<C, K>, step: Step<C, K>) {
    match step
    case NewCursor(c) => c !in st.readers
    case Connect(k) => k !in st.lists
    case BeginQuery(c) => IsIdle(st, c) && Leads(st, c)
    case EndQuery(c, on) =>
      c in st.readers && st.readers[c].picking && (on.Some? ==> on.value in st.lists)
    case Release(c) => IsIdle(st, c) && Leads(st, c)
    case Free(c) => IsIdle(st, c) && Leads(st, c)
    case Destroy(k) => k in st.lists
  }

  predicate IsIdle<C(==), K(==)>(st: State<C, K>, c: C) {
    c in st.readers && !st.readers[c].picking
  }

  predicate Leads<C(==), K(==)>(st: State<C, K>, c: C)
    requires c in st.readers
  {
    st.readers[c].connection.Some? ==> st.readers[c].connection.value in st.lists
  }

  function Unregister<C(==), K(==)>(st: State<C, K>, c: C): State<C, K>
    requires c in st.readers && Leads(st, c)
  {
    var on := st.readers[c].connection;
    if on.None? then st else st.(lists := st.lists[on.value := RemoveFirst(st.lists[on.value], c)])
  }

  function Next<C(==), K(==)>(st: State<C, K>, step: Step<C, K>): State<C, K>
    requires Enabled(st, step)
  {
    match step
    case NewCursor(c) => st.(readers := st.readers[c := Reader(None, false, false)])
    case Connect(k) => st.(lists := st.lists[k := []])
    case BeginQuery(c) => Unregister(st, c).(readers := st.readers[c := st.readers[c].(picking := true)])
    case EndQuery(c, on) =>
      State(if on.None? then st.lists else st.lists[on.value := st.lists[on.value] + [c]],
            st.readers[c := st.readers[c].(connection := on, picking := false)])
    case Release(c) => Unregister(st, c)
    case Free(c) => Unregister(st, c).(readers := st.readers - {c})
    case Destroy(k) =>
      State(st.lists - {k},
            map c | c in st.readers :: if c in st.lists[k] then Marked(st.readers[c]) else st.readers[c])
  }

  // A cursor after it was told that its connection goes.
  function Marked<K>(r: Reader<K>): Reader<K> {
    r.(connection := None, dead := true)
  }

  predicate PointsTo<K(==)>(r: Reader<K>, k: K) {
    r.connection.Some? && r.connection.value == k
  }

  // A cursor is registered at most once, only where it points to, and not while
  // its connection is picked.
  ghost predicate Inv<C, K>(st: State<C, K>) {
    && (forall k :: k in st.lists ==> Once(st.lists[k]))
    && (forall k, c :: k in st.lists && c in st.lists[k] ==> PointsBack(st, k, c))
  }

  predicate PointsBack<C(==), K(==)>(st: State<C, K>, k: K, c: C) {
    IsIdle(st, c) && PointsTo(st.readers[c], k)
  }

  lemma UnregisterKeepsInv<C, K>(st: State<C, K>, c: C)
    requires Inv(st) && IsIdle(st, c) && Leads(st, c)
    ensures Inv(Unregister(st, c))
    ensures forall k :: k in st.lists ==> c !in Unregister(st, c).lists[k]
  {
    hide Once;
    if st.readers[c].connection.Some? {
      var on := st.readers[c].connection.value;
      RemovedOnce(st.lists[on], c);
      RemovedKeepsBack(st, on, c, RemoveFirst(st.lists[on], c));
    }
    assert forall k :: k in st.lists ==> c in st.lists[k] ==> PointsBack(st, k, c);
  }

  lemma RemovedKeepsBack<C, K>(st: State<C, K>, on: K, c: C, rest: seq<C>)
    requires Inv(st) && on in st.lists && Once(rest) && forall x :: x in rest <==> x in st.lists[on] && x != c
    ensures Inv(st.(lists := st.lists[on := rest]))
  {
    hide Once;
    var st' := st.(lists := st.lists[on := rest]);
    forall k, x | k in st'.lists && x in st'.lists[k] ensures PointsBack(st', k, x) {
      assert x in st.lists[k] && PointsBack(st, k, x);
    }
  }

  lemma AppendedOnce<C>(s: seq<C>, c: C)
    requires Once(s) && c !in s
    ensures Once(s + [c])
  {
  }

  lemma NoneOnce<C>()
    ensures Once<C>([])
  {
  }

  lemma EndQueryKeepsInv<C, K>(st: State<C, K>, c: C, on: Option<K>)
    requires Inv(st) && Enabled(st, EndQuery(c, on))
    ensures Inv(Next(st, EndQuery(c, on)))
  {
    hide Once;
    if on.Some? {
      AppendedOnce(st.lists[on.value], c);
    }
  }

  lemma FreeKeepsInv<C, K>(st: State<C, K>, c: C)
    requires Inv(st) && Enabled(st, Step<C, K>.Free(c))
    ensures Inv(Next(st, Step<C, K>.Free(c)))
  {
    UnregisterKeepsInv(st, c);
    var st' := Unregister(st, c);
    assert forall k, x :: k in st'.lists && x in st'.lists[k] ==> IsIdle(st', x) && x != c;
    hide Once, Unregister;
  }

  lemma DestroyKeepsInv<C, K>(st: State<C, K>, k: K)
    requires Inv(st) && k in st.lists
    ensures Inv(Next(st, Destroy(k)))
  {
    hide Once;
    var st' := Next(st, Destroy(k));
    forall k', c | k' in st'.lists && c in st'.lists[k']
      ensures PointsBack(st', k', c)
    {
      assert PointsBack(st, k', c);
      assert c in st.lists[k] ==> PointsBack(st, k, c);
    }
  }

  lemma StepKeepsInv<C, K>(st: State<C, K>, step: Step<C, K>)
    requires Inv(st) && Enabled(st, step)
    ensures Inv(Next(st, step))
  {
    hide Once;
    match step
    case NewCursor(c) =>
    case Connect(k) => NoneOnce<C>();
    case BeginQuery(c) => UnregisterKeepsInv(st, c);
    case EndQuery(c, on) => EndQueryKeepsInv(st, c, on);
    case Release(c) => UnregisterKeepsInv(st, c);
    case Free(c) => FreeKeepsInv(st, c);
    case Destroy(k) => DestroyKeepsInv(st, k);
  }

  predicate AllEnabled<C(==), K(==)>(st: State<C, K>, steps: seq<Step<C, K>>)
    decreases |steps|
  {
    steps == [] || (Enabled(st, steps[0]) && AllEnabled(Next(st, steps[0]), steps[1..]))
  }

  function Run<C(==), K(==)>(st: State<C, K>, steps: seq<Step<C, K>>): State<C, K>
    requires AllEnabled(st, steps)
    decreases |steps|
  {
    if steps == [] then st else Run(Next(st, steps[0]), steps[1..])
  }

  // Over every run each cursor has at most one callback, on the connection it
  // points to, and none while its connection is picked.
  lemma {:induction false} RunKeepsInv<C, K>(st: State<C, K>, steps: seq<Step<C, K>>)
    requires Inv(st) && AllEnabled(st, steps)
    ensures Inv(Run(st, steps))
    decreases |steps|
  {
    hide Inv, Next;
    if steps != [] {
      StepKeepsInv(st, steps[0]);
      RunKeepsInv(Next(st, steps[0]), steps[1..]);
    }
  }

  // ----- Pointers to live connections -----

  // Every cursor that points somewhere, and is not having its connection picked,
  // is registered there.
  ghost predicate Registered<C, K>(st: State<C, K>) {
    forall c :: c in st.readers && IsIdle(st, c) && st.readers[c].connection.Some? ==>
      st.readers[c].connection.value in st.lists && c in st.lists[st.readers[c].connection.value]
  }

  ghost predicate AllLead<C, K>(st: State<C, K>) {
    forall c :: c in st.readers && IsIdle(st, c) ==> Leads(st, c)
  }

  // After a connection is destroyed no cursor points to it exactly when every
  // cursor that did was registered on it.
  lemma DestroyLeavesNoPointerIff<C, K>(st: State<C, K>, k: K)
    requires Inv(st) && AllLead(st) && k in st.lists
    ensures AllLead(Next(st, Destroy(k)))
       <==> forall c :: c in st.readers && IsIdle(st, c) && PointsTo(st.readers[c], k) ==> c in st.lists[k]
  {
    var st' := Next(st, Destroy(k));
    if AllLead(st') {
      forall c | c in st.readers && IsIdle(st, c) && PointsTo(st.readers[c], k) ensures c in st.lists[k] {
        assert IsIdle(st', c) ==> Leads(st', c);
      }
    } else {
      var c :| c in st'.readers && IsIdle(st', c) && !Leads(st', c);
      assert Leads(st, c);
    }
  }

  lemma StepKeepsRegistered<C, K>(st: State<C, K>, step: Step<C, K>)
    requires Inv(st) && Registered(st) && Enabled(st, step) && !step.Release?
    ensures Registered(Next(st, step))
  {
    hide RemoveFirst, Once;
    match step
    case NewCursor(c) =>
    case Connect(k) =>
    case BeginQuery(c) => OthersStay(st, c);
    case EndQuery(c, on) =>
    case Free(c) => OthersStay(st, c);
    case Destroy(k) => DestroyKeepsRegistered(st, k);
  }

  lemma DestroyKeepsRegistered<C, K>(st: State<C, K>, k: K)
    requires Inv(st) && Registered(st) && k in st.lists
    ensures Registered(Next(st, Destroy(k)))
  {
    hide Once;
    var st' := Next(st, Destroy(k));
    forall c | c in st.readers && IsIdle(st', c) && st'.readers[c].connection.Some?
      ensures st'.readers[c].connection.value in st'.lists && c in st'.lists[st'.readers[c].connection.value]
    {
      assert IsIdle(st, c);
    }
  }

  lemma OthersStay<C, K>(st: State<C, K>, c: C)
    requires Inv(st) && IsIdle(st, c) && Leads(st, c)
    ensures forall k, x :: k in st.lists && x in st.lists[k] && x != c ==> x in Unregister(st, c).lists[k]
  {
    if st.readers[c].connection.Some? {
      RemovedOnce(st.lists[st.readers[c].connection.value], c);
    }
  }

  predicate NoRelease<C, K>(steps: seq<Step<C, K>>) {
    forall i :: 0 <= i < |steps| ==> !steps[i].Release?
  }

  // Without a release between two queries, no cursor ever points to a destroyed
  // connection, but for one whose next connection is being picked.
  lemma {:induction false} RunKeepsPointers<C, K>(st: State<C, K>, steps: seq<Step<C, K>>)
    requires Inv(st) && Registered(st) && AllEnabled(st, steps) && NoRelease(steps)
    ensures Registered(Run(st, steps)) && AllLead(Run(st, steps))
    decreases |steps|
  {
    hide Inv, Next;
    if steps != [] {
      StepKeepsInv(st, steps[0]);
      StepKeepsRegistered(st, steps[0]);
      RunKeepsPointers(Next(st, steps[0]), steps[1..]);
    }
  }

  // A dead cursor stays dead until it is freed, whatever is queried with it, and
  // only the destruction of a connection makes one dead.
  lemma {:induction false} DeadStaysDead<C, K>(st: State<C, K>, steps: seq<Step<C, K>>, c: C)
    requires AllEnabled(st, steps) && c in st.readers && forall i :: 0 <= i < |steps| ==> steps[i] != Free(c)
    ensures c in Run(st, steps).readers
    ensures st.readers[c].dead ==> Run(st, steps).readers[c].dead
    ensures (forall i :: 0 <= i < |steps| ==> !steps[i].Destroy?) ==>
              Run(st, steps).readers[c].dead == st.readers[c].dead
    decreases |steps|
  {
    if steps != [] {
      DeadStep(st, steps[0], c);
      hide Next;
      DeadStaysDead(Next(st, steps[0]), steps[1..], c);
    }
  }

  lemma DeadStep<C, K>(st: State<C, K>, step: Step<C, K>, c: C)
    requires Enabled(st, step) && c in st.readers && step != Free(c)
    ensures var r := Next(st, step).readers;
            && c in r && (st.readers[c].dead ==> r[c].dead)
            && (!step.Destroy? ==> r[c].dead == st.readers[c].dead)
  {
  }

  // So after such a run a destroyed connection marks as dead exactly the cursors
  // that point to it, and every other one keeps its state.
  lemma DestroyMarksPointers<C, K>(st: State<C, K>, steps: seq<Step<C, K>>, k: K, c: C)
    requires Inv(st) && Registered(st) && AllEnabled(st, steps) && NoRelease(steps)
    requires k in Run(st, steps).lists && c in Run(st, steps).readers
    ensures var before, after := Run(st, steps).readers, Next(Run(st, steps), Destroy(k)).readers;
            && c in after
            && after[c] == if !before[c].picking && PointsTo(before[c], k) then Reader(None, true, false) else before[c]
  {
    hide Run, AllEnabled;
    RunKeepsInv(st, steps);
    RunKeepsPointers(st, steps);
    var st' := Run(st, steps);
    assert c in st'.lists[k] ==> PointsBack(st', k, c);
  }

  lemma RunStep<C, K>(st: State<C, K>, step: Step<C, K>, rest: seq<Step<C, K>>)
    requires Enabled(st, step) && AllEnabled(Next(st, step), rest)
    ensures AllEnabled(st, [step] + rest) && Run(st, [step] + rest) == Run(Next(st, step), rest)
  {
    assert ([step] + rest)[1..] == rest;
  }

  // With one there is: a cursor that was queried and released keeps its pointer
  // when the connection goes.
  lemma ReleasedCursorKeepsPointer<C, K>(c: C, k: K)
    ensures var steps := [BeginQuery(c)] + ([EndQuery(c, Some(k))] + ([Release(c)] + ([Destroy(k)] + [])));
            var st := State(map[k := []], map[c := Reader(None, false, false)]);
            && Inv(st) && Registered(st) && AllEnabled(st, steps) && !AllLead(Run(st, steps))
  {
    hide Inv, Registered;
    var st0 := State(map[k := []], map[c := Reader(None, false, false)]);
    var st1 := Next(st0, BeginQuery(c));
    var st2 := Next(st1, EndQuery(c, Some(k)));
    var st3 := Next(st2, Release(c));
    var st4 := Next(st3, Destroy(k));
    assert IsIdle(st4, c) && !Leads(st4, c);
    RunStep(st3, Destroy(k), []);
    RunStep(st2, Release(c), [Destroy(k)] + []);
    RunStep(st1, EndQuery(c, Some(k)), [Release(c)] + ([Destroy(k)] + []));
    RunStep(st0, BeginQuery(c), [EndQuery(c, Some(k))] + ([Release(c)] + ([Destroy(k)] + [])));
    BeforeQuery(c, k);
  }

  lemma BeforeQuery<C, K>(c: C, k: K)
    ensures var st := State(map[k := []], map[c := Reader(None, false, false)]);
            Inv(st) && Registered(st)
  {
  }
}
