// Picking one of the candidate servers: sort, keep the near ones, take one at
// random.
module Selection {
  import opened Bytes
  import opened Manager
  import opened ReadPreference
  import opened Text
  import opened ServerHash

  // The constants of the connection types.
  function KindValue(t: NodeType): int {
    match t
    case Invalid => 0
    case Standalone => 1
    case Primary => 2
    case Secondary => 4
    case Arbiter => 8
    case Mongos => 16
  }

  // The comparators: by kind for the two preferred modes, then by ping.
  function Compare(mode: Mode, a: Node, b: Node): int {
    if mode == PrimaryPreferred && KindValue(a.kind) != KindValue(b.kind) then
      if KindValue(a.kind) > KindValue(b.kind) then 1 else -1
    else if mode == SecondaryPreferred && KindValue(a.kind) != KindValue(b.kind) then
      if KindValue(a.kind) < KindValue(b.kind) then 1 else -1
    else if a.ping > b.ping then 1
    else if a.ping < b.ping then -1
    else 0
  }

  // qsort needs a total preorder.
  lemma ComparePreorder(mode: Mode, a: Node, b: Node, c: Node)
    ensures Compare(mode, a, a) == 0
    ensures Compare(mode, a, b) == -Compare(mode, b, a)
    ensures Compare(mode, a, b) <= 0 && Compare(mode, b, c) <= 0 ==> Compare(mode, a, c) <= 0
  {
  }

  predicate SortedBy(mode: Mode, s: seq<Node>) {
    forall i, j :: 0 <= i < j < |s| ==> Compare(mode, s[i], s[j]) <= 0
  }

  // The results qsort may have: it need not be stable.
  ghost predicate SortOf(mode: Mode, sorted: seq<Node>, s: seq<Node>) {
    multiset(sorted) == multiset(s) && SortedBy(mode, sorted)
  }

  lemma SortOfHas(mode: Mode, sorted: seq<Node>, s: seq<Node>, c: Node)
    requires SortOf(mode, sorted, s)
    ensures c in sorted <==> c in s
    ensures |sorted| == |s|
  {
    assert c in sorted <==> c in multiset(sorted);
    assert |sorted| == |multiset(sorted)| == |multiset(s)| == |s|;
  }

  function Insert(mode: Mode, s: seq<Node>, x: Node): (r: seq<Node>)
    ensures multiset(r) == multiset(s) + multiset{x}
  {
    if s == [] || Compare(mode, x, s[0]) <= 0 then [x] + s
    else
      var r := [s[0]] + Insert(mode, s[1..], x);
      assert s == [s[0]] + s[1..];
      r
  }

  lemma {:induction false} InsertSorts(mode: Mode, s: seq<Node>, x: Node)
    requires SortedBy(mode, s)
    ensures SortedBy(mode, Insert(mode, s, x))
  {
    hide Compare, SortedBy;
    if s == [] {
      Prepend(mode, x, []);
    } else if Compare(mode, x, s[0]) <= 0 {
      FirstIsLeast(mode, s, x);
      Prepend(mode, x, s);
    } else {
      SortedTail(mode, s);
      InsertSorts(mode, s[1..], x);
      FirstStays(mode, s, x, Insert(mode, s[1..], x));
      Prepend(mode, s[0], Insert(mode, s[1..], x));
    }
  }

  lemma SortedTail(mode: Mode, s: seq<Node>)
    requires s != [] && SortedBy(mode, s)
    ensures SortedBy(mode, s[1..])
    ensures forall j :: 0 <= j < |s| ==> Compare(mode, s[0], s[j]) <= 0
  {
    hide Compare;
    ComparePreorder(mode, s[0], s[0], s[0]);
  }

  lemma Prepend(mode: Mode, x: Node, s: seq<Node>)
    requires SortedBy(mode, s) && forall j :: 0 <= j < |s| ==> Compare(mode, x, s[j]) <= 0
    ensures SortedBy(mode, [x] + s)
  {
    hide Compare;
  }

  lemma FirstIsLeast(mode: Mode, s: seq<Node>, x: Node)
    requires SortedBy(mode, s) && s != [] && Compare(mode, x, s[0]) <= 0
    ensures forall j :: 0 <= j < |s| ==> Compare(mode, x, s[j]) <= 0
  {
    hide Compare;
    SortedTail(mode, s);
    forall j | 0 <= j < |s| ensures Compare(mode, x, s[j]) <= 0 {
      ComparePreorder(mode, x, s[0], s[j]);
    }
  }

  lemma FirstStays(mode: Mode, s: seq<Node>, x: Node, rest: seq<Node>)
    requires SortedBy(mode, s) && s != [] && Compare(mode, x, s[0]) > 0
    requires multiset(rest) == multiset(s[1..]) + multiset{x}
    ensures forall j :: 0 <= j < |rest| ==> Compare(mode, s[0], rest[j]) <= 0
  {
    hide Compare, SortedBy;
    ComparePreorder(mode, s[0], x, s[0]);
    SortedTail(mode, s);
    forall j | 0 <= j < |rest| ensures Compare(mode, s[0], rest[j]) <= 0 {
      assert rest[j] in multiset(rest);
      assert rest[j] in s[1..] || rest[j] == x;
    }
  }

  // mongo_sort_servers, by a sort that keeps no more than qsort's promise.
  method SortServers(col: seq<Node>, mode: Mode) returns (sorted: seq<Node>)
    ensures SortOf(mode, sorted, col)
  {
    hide Insert, Compare, SortOf;
    sorted := [];
    NothingSorted(mode);
    assert col[..0] == [];
    for i := 0 to |col|
      invariant SortOf(mode, sorted, col[..i])
    {
      SortOneMore(mode, sorted, col[..i], col[i]);
      sorted := Insert(mode, sorted, col[i]);
      assert col[..i + 1] == col[..i] + [col[i]];
    }
    assert col[..|col|] == col;
  }

  lemma NothingSorted(mode: Mode)
    ensures SortOf(mode, [], [])
  {
  }

  lemma SortOneMore(mode: Mode, sorted: seq<Node>, s: seq<Node>, x: Node)
    requires SortOf(mode, sorted, s)
    ensures SortOf(mode, Insert(mode, sorted, x), s + [x])
  {
    hide Insert, Compare, SortedBy;
    InsertSorts(mode, sorted, x);
  }

  const CUTOFF: int := 15

  function IsNear(ping: int): Node -> bool {
    (c: Node) => c.ping <= ping + CUTOFF
  }

  // mongo_select_nearest_servers: near to the first, which the sort has made the
  // nearest of its kind.
  method SelectNearest(col: seq<Node>) returns (filtered: seq<Node>)
    requires col != []
    ensures filtered == Filter(col, IsNear(col[0].ping))
  {
    filtered := [];
    var nearestPing := col[0].ping;
    for i := 0 to |col|
      invariant filtered == Filter(col[..i], IsNear(nearestPing))
    {
      FilterStep(col, i, IsNear(nearestPing));
      if col[i].ping <= nearestPing + CUTOFF {
        filtered := filtered + [col[i]];
      }
    }
    assert col[..|col|] == col;
  }

  // The servers among which the random index chooses.
  function Eligible(col: seq<Node>, mode: Mode): (e: seq<Node>)
    requires col != []
    ensures e != []
  {
    if mode == PrimaryPreferred && col[0].kind == Primary then [col[0]]
    else if mode == SecondaryPreferred && |col| > 1 && col[|col| - 1].kind == Primary then col[..|col| - 1]
    else col
  }

  // mongo_pick_server_from_set, for any value of rand().
  method Pick(col: seq<Node>, mode: Mode, rand: nat) returns (con: Node)
    requires col != []
    ensures con in Eligible(col, mode)
    ensures mode != PrimaryPreferred || col[0].kind != Primary ==>
              con == Eligible(col, mode)[rand % |Eligible(col, mode)|]
  {
    if mode == PrimaryPreferred {
      if col[0].kind == Primary {
        return col[0];
      }
    }
    if mode == SecondaryPreferred {
      if |col| > 1 && col[|col| - 1].kind == Primary {
        var entry := rand % (|col| - 1);
        return col[entry];
      }
    }
    var entry := rand % |col|;
    con := col[entry];
  }

  // Any server the three steps may return.
  ghost predicate Selectable(mode: Mode, cands: seq<Node>, r: Node) {
    exists sorted :: SortOf(mode, sorted, cands) && ChosenFrom(mode, sorted, r)
  }

  predicate ChosenFrom(mode: Mode, sorted: seq<Node>, r: Node) {
    && sorted != []
    && var near := Filter(sorted, IsNear(sorted[0].ping));
       near != [] && r in Eligible(near, mode)
  }

  // The steps never index an empty list.
  method Select(cands: seq<Node>, mode: Mode, rand: nat) returns (con: Node)
    requires cands != []
    ensures Selectable(mode, cands, con)
  {
    hide SortedBy, Filter, Eligible;
    var sorted := SortServers(cands, mode);
    SortOfHas(mode, sorted, cands, cands[0]);
    var near := SelectNearest(sorted);
    FilterHas(sorted, IsNear(sorted[0].ping), sorted[0]);
    con := Pick(near, mode, rand);
    assert ChosenFrom(mode, sorted, con);
  }

  // ----- What is selected -----

  lemma FirstIsBest(mode: Mode, sorted: seq<Node>, cands: seq<Node>, c: Node)
    requires SortOf(mode, sorted, cands) && c in cands
    ensures sorted != [] && sorted[0] in cands && Compare(mode, sorted[0], c) <= 0
  {
    hide Compare;
    SortOfHas(mode, sorted, cands, c);
    SortOfHas(mode, sorted, cands, sorted[0]);
    ComparePreorder(mode, c, c, c);
  }

  // A selected server is near the best one, and so is the best one.
  lemma ChosenIsNear(mode: Mode, sorted: seq<Node>, r: Node)
    requires sorted != [] && ChosenFrom(mode, sorted, r)
    ensures r in sorted && IsNear(sorted[0].ping)(r)
  {
    var near := Filter(sorted, IsNear(sorted[0].ping));
    assert r in near;
    FilterHas(sorted, IsNear(sorted[0].ping), r);
  }

  lemma SelectableIsCandidate(mode: Mode, cands: seq<Node>, r: Node)
    requires Selectable(mode, cands, r)
    ensures r in cands
  {
    hide SortOf, ChosenFrom;
    var sorted :| SortOf(mode, sorted, cands) && ChosenFrom(mode, sorted, r);
    assert sorted != [] by { ChosenNotEmpty(mode, sorted, r); }
    ChosenIsNear(mode, sorted, r);
    SortOfHas(mode, sorted, cands, r);
  }

  lemma ChosenNotEmpty(mode: Mode, sorted: seq<Node>, r: Node)
    requires ChosenFrom(mode, sorted, r)
    ensures sorted != []
  {
  }

  // Sorted by ping alone, or with one kind only, a selected server's ping is
  // within 15 ms of every candidate's.
  lemma WithinCutoff(mode: Mode, cands: seq<Node>, r: Node, c: Node)
    requires Selectable(mode, cands, r) && c in cands
    requires (mode != PrimaryPreferred && mode != SecondaryPreferred) || forall d :: d in cands ==> d.kind == c.kind
    ensures r.ping <= c.ping + 15
  {
    hide SortOf, ChosenFrom;
    var sorted :| SortOf(mode, sorted, cands) && ChosenFrom(mode, sorted, r);
    FirstIsBest(mode, sorted, cands, c);
    ChosenIsNear(mode, sorted, r);
  }

  // Sorted by ping alone, or with secondaries only, any server may be selected
  // whose ping is within 15 ms of every candidate's, and no other.
  lemma SelectableIff(mode: Mode, cands: seq<Node>, r: Node)
    requires (mode != PrimaryPreferred && mode != SecondaryPreferred) || forall d :: d in cands ==> d.kind == Secondary
    ensures Selectable(mode, cands, r) <==> r in cands && forall c :: c in cands ==> r.ping <= c.ping + 15
  {
    hide SortOf, ChosenFrom;
    if Selectable(mode, cands, r) {
      SelectableIsCandidate(mode, cands, r);
      forall c | c in cands ensures r.ping <= c.ping + 15 {
        assert r.kind == c.kind || (mode != PrimaryPreferred && mode != SecondaryPreferred);
        WithinCutoff(mode, cands, r, c);
      }
    }
    if r in cands && forall c :: c in cands ==> r.ping <= c.ping + 15 {
      var sorted := SortExists(mode, cands);
      FirstIsBest(mode, sorted, cands, r);
      SortOfHas(mode, sorted, cands, r);
      NearIsChosen(mode, sorted, r);
    }
  }

  // What is near the first one is chosen, but for a primary that is not
  // preferred.
  lemma NearIsChosen(mode: Mode, sorted: seq<Node>, r: Node)
    requires sorted != [] && r in sorted && r.ping <= sorted[0].ping + 15
    requires mode == PrimaryPreferred ==> sorted[0].kind != Primary
    requires mode == SecondaryPreferred ==> r.kind != Primary
    ensures ChosenFrom(mode, sorted, r)
  {
    FirstOfNear(sorted);
    FilterHas(sorted, IsNear(sorted[0].ping), r);
    hide Filter;
    var near := Filter(sorted, IsNear(sorted[0].ping));
    assert r in near;
    assert r in Eligible(near, mode);
  }

  // secondaryPreferred: any secondary near the nearest one may be selected.
  lemma NearSecondary(cands: seq<Node>, best: Node, r: Node)
    requires forall c :: c in cands ==> c.kind in Kinds(SecondaryPreferred)
    requires best in cands && best.kind == Secondary
    requires r in cands && r.kind == Secondary && r.ping <= best.ping + 15
    requires forall c :: c in cands && c.kind == Secondary ==> best.ping <= c.ping
    ensures Selectable(SecondaryPreferred, cands, r)
  {
    hide SortOf, ChosenFrom;
    var sorted := SortExists(SecondaryPreferred, cands);
    FirstIsBest(SecondaryPreferred, sorted, cands, best);
    SortOfHas(SecondaryPreferred, sorted, cands, r);
    NearIsChosen(SecondaryPreferred, sorted, r);
  }

  // primaryPreferred: the primary when there is one.
  lemma PrimaryIsPreferred(cands: seq<Node>, r: Node, p: Node)
    requires Selectable(PrimaryPreferred, cands, r) && p in cands && p.kind == Primary
    requires forall c :: c in cands ==> c.kind in Kinds(PrimaryPreferred)
    ensures r.kind == Primary && r.ping <= p.ping
  {
    hide SortOf, Filter;
    var sorted :| SortOf(PrimaryPreferred, sorted, cands) && ChosenFrom(PrimaryPreferred, sorted, r);
    FirstIsBest(PrimaryPreferred, sorted, cands, p);
    FirstOfNear(sorted);
  }

  // The first one is near itself.
  lemma {:induction false} FirstKept(s: seq<Node>, keep: Node -> bool)
    requires s != [] && keep(s[0])
    ensures Filter(s, keep) != [] && Filter(s, keep)[0] == s[0]
  {
    if |s| > 1 {
      FirstKept(s[..|s| - 1], keep);
    } else {
      assert Filter(s, keep) == Filter([], keep) + [s[0]];
    }
  }

  lemma FirstOfNear(sorted: seq<Node>)
    requires sorted != []
    ensures var near := Filter(sorted, IsNear(sorted[0].ping)); near != [] && near[0] == sorted[0]
  {
    FirstKept(sorted, IsNear(sorted[0].ping));
  }

  // ----- secondaryPreferred -----

  function IsPrimary(): Node -> bool {
    (c: Node) => c.kind == Primary
  }

  function IsNearPrimary(ping: int): Node -> bool {
    (c: Node) => c.kind == Primary && c.ping <= ping + CUTOFF
  }

  lemma FilterSnoc(s: seq<Node>, x: Node, keep: Node -> bool)
    ensures Filter(s + [x], keep) == if keep(x) then Filter(s, keep) + [x] else Filter(s, keep)
  {
    assert (s + [x])[..|s|] == s;
  }

  lemma {:induction false} NearPrimaries(s: seq<Node>, ping: int)
    ensures Filter(Filter(s, IsNear(ping)), IsPrimary()) == Filter(s, IsNearPrimary(ping))
  {
    if s != [] {
      hide Filter;
      var init, last := s[..|s| - 1], s[|s| - 1];
      NearPrimaries(init, ping);
      assert s == init + [last];
      FilterSnoc(init, last, IsNear(ping));
      FilterSnoc(init, last, IsNearPrimary(ping));
      FilterSnoc(Filter(init, IsNear(ping)), last, IsPrimary());
    }
  }

  lemma {:induction false} FilterConcat(a: seq<Node>, b: seq<Node>, keep: Node -> bool)
    ensures Filter(a + b, keep) == Filter(a, keep) + Filter(b, keep)
  {
    if b == [] {
      assert a + b == a;
    } else {
      var init := b[..|b| - 1];
      assert (a + b)[..|a + b| - 1] == a + init;
      FilterConcat(a, init, keep);
    }
  }

  // How many are kept does not depend on the order.
  lemma {:induction false} FilterPermuted(a: seq<Node>, b: seq<Node>, keep: Node -> bool)
    requires multiset(a) == multiset(b)
    ensures |Filter(a, keep)| == |Filter(b, keep)|
    decreases |a|
  {
    hide Filter;
    if a == [] {
      assert |b| == |multiset(b)| == 0;
    } else {
      var init, last := a[..|a| - 1], a[|a| - 1];
      var before, after := WithoutLast(a, b);
      FilterPermuted(init, before + after, keep);
      FilterSplit(before, last, after, keep);
      FilterSplit(init, last, [], keep);
      assert init + ([last] + []) == a && init + [] == init;
    }
  }

  lemma WithoutLast(a: seq<Node>, b: seq<Node>) returns (before: seq<Node>, after: seq<Node>)
    requires a != [] && multiset(a) == multiset(b)
    ensures b == before + ([a[|a| - 1]] + after)
    ensures multiset(a[..|a| - 1]) == multiset(before + after)
  {
    var last := a[|a| - 1];
    InitHasOneLess(a);
    before, after := SplitAt(b, last);
    OneMore(before, last, after);
  }

  lemma SplitAt(s: seq<Node>, x: Node) returns (before: seq<Node>, after: seq<Node>)
    requires x in multiset(s)
    ensures s == before + ([x] + after)
  {
    var i :| 0 <= i < |s| && s[i] == x;
    before, after := s[..i], s[i + 1..];
  }

  lemma OneMore(before: seq<Node>, x: Node, after: seq<Node>)
    ensures multiset(before + after) == multiset(before + ([x] + after)) - multiset{x}
  {
    assert multiset(before + ([x] + after)) == multiset(before) + (multiset{x} + multiset(after));
    assert multiset(before + after) == multiset(before) + multiset(after);
  }

  lemma InitHasOneLess(s: seq<Node>)
    requires s != []
    ensures s[|s| - 1] in multiset(s) && multiset(s[..|s| - 1]) == multiset(s) - multiset{s[|s| - 1]}
  {
    assert s == s[..|s| - 1] + [s[|s| - 1]];
  }

  lemma FilterSplit(before: seq<Node>, x: Node, after: seq<Node>, keep: Node -> bool)
    ensures |Filter(before + ([x] + after), keep)| == |Filter(before + after, keep)| + if keep(x) then 1 else 0
  {
    FilterConcat(before, [x] + after, keep);
    FilterConcat([x], after, keep);
    FilterConcat(before, after, keep);
    assert Filter([x], keep) == Filter([], keep) + if keep(x) then [x] else [];
  }

  // A filtered list is still sorted.
  lemma {:induction false} FilterSorted(mode: Mode, s: seq<Node>, keep: Node -> bool)
    requires SortedBy(mode, s)
    ensures SortedBy(mode, Filter(s, keep))
  {
    hide Compare;
    if s != [] {
      var init, last := s[..|s| - 1], s[|s| - 1];
      FilterSorted(mode, init, keep);
      var kept := Filter(init, keep);
      forall i | 0 <= i < |kept| ensures Compare(mode, kept[i], last) <= 0 {
        FilterHas(init, keep, kept[i]);
        assert kept[i] in kept;
      }
    }
  }

  lemma SomeKept(s: seq<Node>, keep: Node -> bool)
    ensures Filter(s, keep) != [] <==> exists c :: c in s && keep(c)
  {
    if Filter(s, keep) != [] {
      FilterHas(s, keep, Filter(s, keep)[0]);
      assert Filter(s, keep)[0] in Filter(s, keep);
    }
    if c :| c in s && keep(c) {
      FilterHas(s, keep, c);
    }
  }

  // Behind secondaries, in a list that starts with one, a primary is eligible
  // exactly when there are two.
  lemma EligiblePrimary(near: seq<Node>)
    requires near != [] && SortedBy(SecondaryPreferred, near) && near[0].kind == Secondary
    requires forall i :: 0 <= i < |near| ==> near[i].kind == Primary || near[i].kind == Secondary
    ensures (exists r :: r in Eligible(near, SecondaryPreferred) && r.kind == Primary)
       <==> |Filter(near, IsPrimary())| >= 2
  {
    var init, last := near[..|near| - 1], near[|near| - 1];
    SomeKept(init, IsPrimary());
    assert Filter(near, IsPrimary()) == Filter(init, IsPrimary()) + if last.kind == Primary then [last] else [];
    hide Filter;
    if last.kind == Primary {
      assert Eligible(near, SecondaryPreferred) == init;
      assert forall c :: IsPrimary()(c) <==> c.kind == Primary;
    } else {
      NoPrimaries(near);
      FilterNothing(near, IsPrimary());
    }
  }

  lemma NoPrimaries(near: seq<Node>)
    requires near != [] && SortedBy(SecondaryPreferred, near) && near[|near| - 1].kind == Secondary
    requires forall i :: 0 <= i < |near| ==> near[i].kind == Primary || near[i].kind == Secondary
    ensures forall i :: 0 <= i < |near| ==> near[i].kind != Primary
  {
    forall i | 0 <= i < |near| - 1 ensures near[i].kind != Primary {
      assert Compare(SecondaryPreferred, near[i], near[|near| - 1]) <= 0;
    }
  }

  lemma {:induction false} FilterNothing(s: seq<Node>, keep: Node -> bool)
    requires forall i :: 0 <= i < |s| ==> !keep(s[i])
    ensures Filter(s, keep) == []
  {
    if s != [] {
      FilterNothing(s[..|s| - 1], keep);
    }
  }

  lemma {:induction false} SortExists(mode: Mode, s: seq<Node>) returns (sorted: seq<Node>)
    ensures SortOf(mode, sorted, s)
  {
    if s == [] {
      sorted := [];
    } else {
      var init, last := s[..|s| - 1], s[|s| - 1];
      sorted := SortExists(mode, init);
      InsertSorts(mode, sorted, last);
      sorted := Insert(mode, sorted, last);
      assert s == init + [last];
    }
  }

  // secondaryPreferred with a secondary among the candidates: a primary may be
  // selected exactly when two primaries are near the nearest secondary. With at
  // most one primary it never is.
  lemma PrimaryDespiteSecondaryIff(cands: seq<Node>, best: Node)
    requires forall c :: c in cands ==> c.kind in Kinds(SecondaryPreferred)
    requires best in cands && best.kind == Secondary
    requires forall c :: c in cands && c.kind == Secondary ==> best.ping <= c.ping
    ensures (exists r :: Selectable(SecondaryPreferred, cands, r) && r.kind == Primary)
       <==> |Filter(cands, IsNearPrimary(best.ping))| >= 2
  {
    var many := |Filter(cands, IsNearPrimary(best.ping))| >= 2;
    var sorted := SortExists(SecondaryPreferred, cands);
    ChosenPrimary(cands, best, sorted);
    forall r | Selectable(SecondaryPreferred, cands, r) && r.kind == Primary ensures many {
      var other :| SortOf(SecondaryPreferred, other, cands) && ChosenFrom(SecondaryPreferred, other, r);
      ChosenPrimary(cands, best, other);
    }
  }

  // Such a list: the secondary is the nearest of the three.
  lemma PrimaryDespiteSecondary()
    ensures var cands := [Node(HOST, Primary, 5, []), Node(HOST, Primary, 10, []), Node(HOST, Secondary, 0, [])];
            exists r :: Selectable(SecondaryPreferred, cands, r) && r.kind == Primary
  {
    hide Selectable;
    var a, b, best := Node(HOST, Primary, 5, []), Node(HOST, Primary, 10, []), Node(HOST, Secondary, 0, []);
    var near := IsNearPrimary(best.ping);
    assert [a, b, best] == [a] + [b] + [best];
    FilterConcat([a] + [b], [best], near);
    FilterConcat([a], [b], near);
    PrimaryDespiteSecondaryIff([a, b, best], best);
  }

  lemma ChosenPrimary(cands: seq<Node>, best: Node, sorted: seq<Node>)
    requires forall c :: c in cands ==> c.kind in Kinds(SecondaryPreferred)
    requires best in cands && best.kind == Secondary
    requires forall c :: c in cands && c.kind == Secondary ==> best.ping <= c.ping
    requires SortOf(SecondaryPreferred, sorted, cands)
    ensures (exists r :: ChosenFrom(SecondaryPreferred, sorted, r) && r.kind == Primary)
       <==> |Filter(cands, IsNearPrimary(best.ping))| >= 2
  {
    FirstIsBest(SecondaryPreferred, sorted, cands, best);
    assert sorted[0].kind == Secondary && sorted[0].ping == best.ping;
    var near := Filter(sorted, IsNear(best.ping));
    FirstOfNear(sorted);
    FilterSorted(SecondaryPreferred, sorted, IsNear(best.ping));
    forall i | 0 <= i < |near| ensures near[i].kind == Primary || near[i].kind == Secondary {
      FilterHas(sorted, IsNear(best.ping), near[i]);
      SortOfHas(SecondaryPreferred, sorted, cands, near[i]);
      assert near[i] in near;
    }
    EligiblePrimary(near);
    NearPrimaries(sorted, best.ping);
    FilterPermuted(sorted, cands, IsNearPrimary(best.ping));
  }

  lemma SecondaryIsNear(cands: seq<Node>, best: Node, r: Node)
    requires Selectable(SecondaryPreferred, cands, r)
    requires best in cands && best.kind == Secondary && forall c :: c in cands ==> c.kind in Kinds(SecondaryPreferred)
    ensures r.ping <= best.ping + 15
  {
    hide SortOf, ChosenFrom;
    var sorted :| SortOf(SecondaryPreferred, sorted, cands) && ChosenFrom(SecondaryPreferred, sorted, r);
    FirstIsBest(SecondaryPreferred, sorted, cands, best);
    ChosenIsNear(SecondaryPreferred, sorted, r);
  }

  lemma {:induction false} FilterAll(s: seq<Node>, keep: Node -> bool)
    requires forall i :: 0 <= i < |s| ==> keep(s[i])
    ensures Filter(s, keep) == s
  {
    if s != [] {
      FilterAll(s[..|s| - 1], keep);
      assert s == s[..|s| - 1] + [s[|s| - 1]];
    }
  }

  lemma FirstOfPair(mode: Mode, far: Node, next: Node)
    requires Compare(mode, far, next) <= 0 && next.ping <= far.ping && next.kind != Primary
    ensures Selectable(mode, [far, next], far)
  {
    PairIsSorted(mode, far, next);
    FirstIsChosen(mode, [far, next]);
  }

  lemma PairIsSorted(mode: Mode, a: Node, b: Node)
    requires Compare(mode, a, b) <= 0
    ensures SortOf(mode, [a, b], [a, b])
  {
    hide Compare;
  }

  lemma FirstIsChosen(mode: Mode, sorted: seq<Node>)
    requires sorted != [] && sorted[|sorted| - 1].kind != Primary
    requires forall i :: 0 <= i < |sorted| ==> sorted[i].ping <= sorted[0].ping
    ensures ChosenFrom(mode, sorted, sorted[0])
  {
    FilterAll(sorted, IsNear(sorted[0].ping));
    hide Filter;
    assert sorted[0] in Eligible(sorted, mode);
  }

  // ----- The whole of it -----

  datatype Outcome = Chosen(con: Node) | NoCandidates | NullPointer

  // mongo_get_read_write_connection_replicaset after discovery: a write asks for
  // the primary, yet sorts by the client's preference.
  method GetReplicaSetConnection(cons: seq<Node>, client: Client, mode: Mode, tagsets: seq<TagSet>, write: bool,
                                 rand: nat) returns (r: Outcome)
    ensures var find := if write then PrimaryOnly else mode;
            var all := Untagged(cons, client, find);
            && (r.NullPointer? <==> exists c :: c in cons && Breaks(client, find, c))
            && (r.Chosen? ==>
                  && r.con in cons && IsReachable(client, find, r.con) && HasCreds(client.servers, client.pid)(r.con)
                  && TagsMeet(tagsets, r.con.tags)
                  && if tagsets == [] then Selectable(mode, all, r.con)
                     else exists k: nat :: FirstMatching(all, tagsets, k)
                                           && Selectable(mode, Filter(all, MatchesTags(tagsets[k])), r.con))
            && (r.NoCandidates? ==> forall c :: c in all ==> !TagsMeet(tagsets, c.tags))
  {
    hide Untagged, Selectable, IsReachable, Breaks, HasCreds;
    var find := if write then PrimaryOnly else mode;
    var cands := FindCandidates(cons, client, find, tagsets);
    if cands.NullPointer? {
      return Outcome.NullPointer;
    }
    if cands.NoMatch? || cands.col == [] {
      NoneIsLeft(Untagged(cons, client, find), tagsets, cands);
      return NoCandidates;
    }
    var con := Select(cands.col, mode, rand);
    SelectableIsCandidate(mode, cands.col, con);
    if tagsets != [] {
      ghost var k: nat :| FirstMatching(Untagged(cons, client, find), tagsets, k)
                    && cands.col == Filter(Untagged(cons, client, find), MatchesTags(tagsets[k]));
      FilterHas(Untagged(cons, client, find), MatchesTags(tagsets[k]), con);
    }
    UntaggedHas(cons, client, find, con);
    r := Chosen(con);
  }

  lemma NoneIsLeft(all: seq<Node>, tagsets: seq<TagSet>, cands: Found)
    requires cands.NoMatch? ==> tagsets != [] && NoneMatches(all, tagsets)
    requires cands.Candidates? ==>
               cands.col == []
               && if tagsets == [] then all == []
                  else exists k: nat :: FirstMatching(all, tagsets, k)
                                        && cands.col == Filter(all, MatchesTags(tagsets[k]))
    requires !cands.NullPointer?
    ensures forall c :: c in all ==> !TagsMeet(tagsets, c.tags)
  {
    hide Filter, TagsMeet;
    if cands.NoMatch? {
      NoneMatchesIff(all, tagsets);
    }
  }

  // ----- Several servers -----

  // mongo_get_connection_multiple after connecting: collects candidates of every
  // kind, and sorts them by the client's own preference.
  method GetConnectionMultiple(cons: seq<Node>, client: Client, mode: Mode, rand: nat) returns (r: Outcome)
    ensures r.NullPointer? <==> exists c :: c in cons && Breaks(client, Nearest, c)
    ensures r.NoCandidates? ==> Untagged(cons, client, Nearest) == []
    ensures r.Chosen? ==> Selectable(mode, Untagged(cons, client, Nearest), r.con)
  {
    hide Untagged, Selectable, Breaks;
    var cands := FindCandidates(cons, client, Nearest, []);
    if cands.NullPointer? {
      return Outcome.NullPointer;
    }
    if cands.NoMatch? || cands.col == [] {
      return NoCandidates;
    }
    var con := Select(cands.col, mode, rand);
    r := Chosen(con);
  }

  // The manager's connections have a hash of their own each.
  ghost predicate DistinctNodes(cons: seq<Node>) {
    forall i, j :: 0 <= i < j < |cons| ==> cons[i].hash != cons[j].hash
  }

  // Whatever the connections and the client's servers, no candidate is nearer
  // than the picked one by more than 15 ms.
  ghost predicate AlwaysNear(mode: Mode) {
    forall cons, client: Client, r, c: Node ::
      DistinctNodes(cons) && !client.isReplSet && Selectable(mode, Untagged(cons, client, Nearest), r)
      && c in Untagged(cons, client, Nearest)
      ==> r.ping <= c.ping + 15
  }

  // It picks a near server exactly when that preference is not one of the
  // preferred modes.
  lemma AlwaysNearIff(mode: Mode)
    ensures AlwaysNear(mode) <==> mode != PrimaryPreferred && mode != SecondaryPreferred
  {
    hide Selectable, Untagged;
    if mode == PrimaryPreferred || mode == SecondaryPreferred {
      var cons, client := FarServer(mode);
      assert !AlwaysNear(mode);
    } else {
      forall cons, client: Client, r, c: Node
        | Selectable(mode, Untagged(cons, client, Nearest), r) && c in Untagged(cons, client, Nearest)
        ensures r.ping <= c.ping + 15
      {
        WithinCutoff(mode, Untagged(cons, client, Nearest), r, c);
      }
    }
  }

  // A host named "a".
  const HOST: Text := ['a' as int]

  // A server 100 ms away is picked although another is next door: the kinds
  // decide the order.
  lemma FarServer(mode: Mode) returns (cons: seq<Node>, client: Client)
    requires mode == PrimaryPreferred || mode == SecondaryPreferred
    ensures DistinctNodes(cons) && !client.isReplSet
    ensures var all := Untagged(cons, client, Nearest);
            exists r, c :: Selectable(mode, all, r) && c in all && r.ping == c.ping + 100
  {
    hide HashFor, Untagged, Selectable, PartsOf, Plain;
    var d1, d2 := ServerDef(HOST, 1, None, None, None, None), ServerDef(HOST, 2, None, None, None, None);
    PlainAddress(1, 1);
    PlainAddress(2, 1);
    var far := Node(HashFor(d1, 1), if mode == PrimaryPreferred then Standalone else Mongos, 100, []);
    var next := Node(HashFor(d2, 1), if mode == PrimaryPreferred then Mongos else Standalone, 0, []);
    cons, client := [far, next], Client(false, None, [d1, d2], 1);
    TwoSeeds(d1, d2, 1, far, next);
    FirstOfPair(mode, far, next);
    assert next in cons;
  }

  lemma PlainAddress(port: Int32, pid: Pid)
    ensures Plain(PartsOf(ServerDef(HOST, port, None, None, None, None), pid))
  {
  }

  // Two servers without credentials are both candidates.
  lemma TwoSeeds(d1: ServerDef, d2: ServerDef, pid: Pid, a: Node, b: Node)
    requires a.hash == HashFor(d1, pid) && b.hash == HashFor(d2, pid)
    requires Plain(PartsOf(d1, pid)) && Plain(PartsOf(d2, pid)) && d1.port != d2.port
    requires !HasCredentials(d1) && a.kind in Kinds(Nearest) && b.kind in Kinds(Nearest)
    ensures a.hash != b.hash
    ensures Untagged([a, b], Client(false, None, [d1, d2], pid), Nearest) == [a, b]
  {
    hide HashOf, Plain, HashToPid, Split, SplitFront, Untagged, OfSeeds, Filter, Kinds;
    MadeIsRead(a, PartsOf(d1, pid));
    MadeIsRead(b, PartsOf(d2, pid));
    assert a.hash != b.hash by {
      if a.hash == b.hash {
        SameAddress(d1, d2, pid);
      }
    }
    OfTwoSeeds([a, b], d1, d2, pid);
    AllKept([a, b], Client(false, None, [d1, d2], pid));
  }

  lemma SameAddress(d1: ServerDef, d2: ServerDef, pid: Pid)
    requires Plain(PartsOf(d1, pid)) && Plain(PartsOf(d2, pid)) && HashFor(d1, pid) == HashFor(d2, pid)
    ensures d1.port == d2.port
  {
    hide HashOf;
    AddressIsInjective(PartsOf(d1, pid), PartsOf(d2, pid));
  }

  lemma AllKept(cons: seq<Node>, client: Client)
    requires !client.isReplSet && client.servers != [] && !HasCredentials(client.servers[0])
    requires OfSeeds(cons, client.servers, client.pid) == cons
    requires forall c :: c in cons ==>
               HashToPid(c.hash) == Some(client.pid) && Split(c.hash).Some? && c.kind in Kinds(Nearest)
    ensures Untagged(cons, client, Nearest) == cons
  {
    hide HashToPid, Split, OfSeeds, Filter, Kinds;
    FilterAll(cons, IsOfKind(Kinds(Nearest), client.pid));
    FilterAll(cons, HasCreds(client.servers, client.pid));
  }

  lemma OfTwoSeeds(cons: seq<Node>, d1: ServerDef, d2: ServerDef, pid: Pid)
    requires |cons| == 2 && cons[0].hash != cons[1].hash
    requires cons[0].hash == HashFor(d1, pid) && cons[1].hash == HashFor(d2, pid)
    ensures OfSeeds(cons, [d1, d2], pid) == cons
  {
    hide HashFor;
    FilterPair(cons, HasHashText(HashFor(d1, pid)));
    FilterPair(cons, HasHashText(HashFor(d2, pid)));
    assert [d1, d2][..1] == [d1] && [d1][..0] == [];
    assert OfSeeds(cons, [d1], pid) == [cons[0]];
  }

  lemma FilterPair(s: seq<Node>, keep: Node -> bool)
    requires |s| == 2
    ensures Filter(s, keep) == (if keep(s[0]) then [s[0]] else []) + (if keep(s[1]) then [s[1]] else [])
  {
    assert s[..0] == [];
    FilterStep(s, 0, keep);
    FilterStep(s, 1, keep);
    assert s[..2] == s;
  }
}
