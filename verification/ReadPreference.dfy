// Which connections are candidates for a read preference: filtered by kind, by
// set name or seed, by credentials and by tags. The filters read all they know
// of a connection from the text of its hash.
module ReadPreference {
  import opened Bytes
  import opened Text
  import opened Manager
  import opened ServerHash

  // A connection as the selection sees it: its hash, the state the server told,
  // the last ping in milliseconds and the server's tags.
  datatype Node = Node(hash: Text, kind: NodeType, ping: int, tags: seq<Text>)

  function NodeOf(c: Connection): Node
    reads c
  {
    Node(c.hash, c.nodeType, c.pingMs, c.tags)
  }

  datatype Mode = PrimaryOnly | PrimaryPreferred | SecondaryOnly | SecondaryPreferred | Nearest

  type TagSet = seq<Text>

  // The client: of a replica set or not, its set name and its servers.
  datatype Client = Client(isReplSet: bool, setName: Option<Text>, servers: seq<ServerDef>, pid: Pid)

  // The elements that are kept, in order.
  function Filter(s: seq<Node>, keep: Node -> bool): seq<Node> {
    if s == [] then [] else Filter(s[..|s| - 1], keep) + if keep(s[|s| - 1]) then [s[|s| - 1]] else []
  }

  lemma {:induction false} FilterHas(s: seq<Node>, keep: Node -> bool, c: Node)
    ensures c in Filter(s, keep) <==> c in s && keep(c)
  {
    if s != [] {
      FilterHas(s[..|s| - 1], keep, c);
      assert s == s[..|s| - 1] + [s[|s| - 1]];
    }
  }

  lemma FilterStep(s: seq<Node>, i: nat, keep: Node -> bool)
    requires i < |s|
    ensures Filter(s[..i + 1], keep) == Filter(s[..i], keep) + if keep(s[i]) then [s[i]] else []
  {
    assert s[..i + 1][..i] == s[..i];
  }

  // ----- By kind and process -----

  function Kinds(mode: Mode): set<NodeType> {
    match mode
    case PrimaryOnly => {Primary}
    case PrimaryPreferred => {Primary, Secondary}
    case SecondaryOnly => {Secondary}
    case SecondaryPreferred => {Primary, Secondary}
    case Nearest => {Standalone, Primary, Secondary, Mongos}
  }

  function IsOfKind(kinds: set<NodeType>, pid: Int32): Node -> bool {
    (c: Node) => HashToPid(c.hash) == Some(pid) && c.kind in kinds
  }

  // Each filter that reads hashes follows a null pointer, the result None, when
  // there is one that it cannot read.
  method FilterConnections(cons: seq<Node>, kinds: set<NodeType>, pid: Int32) returns (col: Option<seq<Node>>)
    ensures col.None? <==> exists c :: c in cons && HashToPid(c.hash).None?
    ensures col.Some? ==> col.value == Filter(cons, IsOfKind(kinds, pid))
  {
    hide HashToPid;
    var kept := [];
    for i := 0 to |cons|
      invariant kept == Filter(cons[..i], IsOfKind(kinds, pid))
      invariant forall k :: 0 <= k < i ==> HashToPid(cons[k].hash).Some?
    {
      FilterStep(cons, i, IsOfKind(kinds, pid));
      var conPid := HashToPid(cons[i].hash);
      if conPid.None? {
        assert cons[i] in cons;
        return None;
      }
      if conPid.value == pid && cons[i].kind in kinds {
        kept := kept + [cons[i]];
      }
    }
    assert cons[..|cons|] == cons;
    col := Some(kept);
  }

  // ----- By set name or seed -----

  // A connection that knows no set is dropped; a client without a set name takes
  // every set.
  function IsInSet(setName: Option<Text>): Node -> bool {
    (c: Node) =>
      var front := SplitFront(c.hash);
      front.Some? && front.value.replSet.Some? && (setName.None? || front.value.replSet == setName)
  }

  method FilterBySetName(cons: seq<Node>, setName: Option<Text>) returns (col: Option<seq<Node>>)
    ensures col.None? <==> exists c :: c in cons && SplitFront(c.hash).None?
    ensures col.Some? ==> col.value == Filter(cons, IsInSet(setName))
  {
    hide SplitFront;
    var kept := [];
    for i := 0 to |cons|
      invariant kept == Filter(cons[..i], IsInSet(setName))
      invariant forall k :: 0 <= k < i ==> SplitFront(cons[k].hash).Some?
    {
      FilterStep(cons, i, IsInSet(setName));
      var front, _ := FindFront(cons[i].hash);
      if front.None? {
        assert cons[i] in cons;
        return None;
      }
      if front.value.replSet.Some? && (setName.None? || front.value.replSet.value == setName.value) {
        kept := kept + [cons[i]];
      }
    }
    assert cons[..|cons|] == cons;
    col := Some(kept);
  }

  function HasHashText(hash: Text): Node -> bool {
    (c: Node) => c.hash == hash
  }

  ghost function OfSeeds(cons: seq<Node>, servers: seq<ServerDef>, pid: Pid): seq<Node> {
    if servers == [] then []
    else OfSeeds(cons, servers[..|servers| - 1], pid) + Filter(cons, HasHashText(HashFor(servers[|servers| - 1], pid)))
  }

  lemma {:induction false} OfSeedsHas(cons: seq<Node>, servers: seq<ServerDef>, pid: Pid, c: Node)
    ensures c in OfSeeds(cons, servers, pid) <==> c in cons && exists d :: d in servers && c.hash == HashFor(d, pid)
  {
    hide HashFor;
    if servers != [] {
      var last := servers[|servers| - 1];
      OfSeedsHas(cons, servers[..|servers| - 1], pid, c);
      FilterHas(cons, HasHashText(HashFor(last, pid)), c);
      assert servers == servers[..|servers| - 1] + [last];
    }
  }

  method FilterBySeed(cons: seq<Node>, servers: seq<ServerDef>, pid: Pid) returns (col: seq<Node>)
    ensures col == OfSeeds(cons, servers, pid)
  {
    hide HashOf, PartsOf;
    col := [];
    for j := 0 to |servers|
      invariant col == OfSeeds(cons, servers[..j], pid)
    {
      var hash := CreateHash(servers[j], pid);
      ghost var before := col;
      for i := 0 to |cons|
        invariant col == before + Filter(cons[..i], HasHashText(hash))
      {
        FilterStep(cons, i, HasHashText(hash));
        if cons[i].hash == hash {
          col := col + [cons[i]];
        }
      }
      assert cons[..|cons|] == cons;
      assert servers[..j + 1][..j] == servers[..j];
    }
    assert servers[..|servers|] == servers;
  }

  // ----- By credentials -----

  // Only the client's first server is asked for credentials.
  ghost function HasCreds(servers: seq<ServerDef>, pid: Pid): Node -> bool {
    (c: Node) =>
      var parts := Split(c.hash);
      && parts.Some? && servers != []
      && (HasCredentials(servers[0]) ==> parts.value.creds == PartsOf(servers[0], pid).creds)
  }

  // The hash cannot be read, the client has no server, or the null database name
  // of a connection without credentials is compared.
  predicate CredsBreak(servers: seq<ServerDef>, c: Node) {
    var parts := Split(c.hash);
    parts.None? || servers == [] || (HasCredentials(servers[0]) && parts.value.creds.None?)
  }

  method FilterByCredentials(cons: seq<Node>, servers: seq<ServerDef>, pid: Pid) returns (col: Option<seq<Node>>)
    ensures col.None? <==> exists c :: c in cons && CredsBreak(servers, c)
    ensures col.Some? ==> col.value == Filter(cons, HasCreds(servers, pid))
  {
    hide Split, HashedPassword;
    var kept := [];
    for i := 0 to |cons|
      invariant kept == Filter(cons[..i], HasCreds(servers, pid))
      invariant forall k :: 0 <= k < i ==> !CredsBreak(servers, cons[k])
    {
      FilterStep(cons, i, HasCreds(servers, pid));
      var parts := SplitHash(cons[i].hash);
      if parts.None? || servers == [] {
        assert cons[i] in cons && CredsBreak(servers, cons[i]);
        return None;
      }
      if HasCredentials(servers[0]) {
        if parts.value.creds.None? {
          assert cons[i] in cons && CredsBreak(servers, cons[i]);
          return None;
        }
        var own := parts.value.creds.value;
        if own.database != servers[0].db.value || own.username != servers[0].username.value {
          continue;
        }
        var hashed := CreateHashedPassword(own.username, servers[0].password.value, pid);
        if own.authHash != hashed {
          continue;
        }
      }
      kept := kept + [cons[i]];
    }
    assert cons[..|cons|] == cons;
    col := Some(kept);
  }

  // ----- By tags -----

  // How many of the tags are t.
  function Occurrences(tags: seq<Text>, t: Text): nat {
    if tags == [] then 0 else Occurrences(tags[..|tags| - 1], t) + if tags[|tags| - 1] == t then 1 else 0
  }

  // Pairs of a wanted tag and an equal one of the connection.
  function Pairs(wanted: TagSet, tags: seq<Text>): nat {
    if wanted == [] then 0 else Pairs(wanted[..|wanted| - 1], tags) + Occurrences(tags, wanted[|wanted| - 1])
  }

  method CandidateMatchesTags(c: Node, wanted: TagSet) returns (matches: bool)
    ensures matches == MatchesTags(wanted)(c)
  {
    var found := 0;
    for i := 0 to |wanted|
      invariant found == Pairs(wanted[..i], c.tags)
    {
      ghost var before := found;
      for j := 0 to |c.tags|
        invariant found == before + Occurrences(c.tags[..j], wanted[i])
      {
        assert c.tags[..j + 1][..j] == c.tags[..j];
        if wanted[i] == c.tags[j] {
          found := found + 1;
        }
      }
      assert c.tags[..|c.tags|] == c.tags;
      assert wanted[..i + 1][..i] == wanted[..i];
    }
    assert wanted[..|wanted|] == wanted;
    matches := found == |wanted|;
  }

  function MatchesTags(wanted: TagSet): Node -> bool {
    (c: Node) => Pairs(wanted, c.tags) == |wanted|
  }

  predicate DistinctTags(tags: seq<Text>) {
    forall i, j :: 0 <= i < j < |tags| ==> tags[i] != tags[j]
  }

  lemma {:induction false} OccursIn(tags: seq<Text>, t: Text)
    ensures Occurrences(tags, t) > 0 <==> t in tags
    ensures DistinctTags(tags) ==> Occurrences(tags, t) <= 1
  {
    if tags != [] {
      var init, last := tags[..|tags| - 1], tags[|tags| - 1];
      OccursIn(init, t);
      assert tags == init + [last];
      assert DistinctTags(tags) ==> last !in init;
    }
  }

  // With distinct tags the count is right: all wanted tags are there.
  lemma {:induction false} CountIsSubset(wanted: TagSet, tags: seq<Text>)
    requires DistinctTags(tags)
    ensures Pairs(wanted, tags) <= |wanted|
    ensures Pairs(wanted, tags) == |wanted| <==> forall t :: t in wanted ==> t in tags
  {
    if wanted != [] {
      var init, last := wanted[..|wanted| - 1], wanted[|wanted| - 1];
      CountIsSubset(init, tags);
      OccursIn(tags, last);
      assert wanted == init + [last];
      hide DistinctTags, Occurrences;
    }
  }

  ghost predicate CountsRight(tags: seq<Text>) {
    forall wanted: TagSet :: Pairs(wanted, tags) == |wanted| <==> forall t :: t in wanted ==> t in tags
  }

  // Counting finds the connections that carry every wanted tag, whatever is
  // wanted, exactly when no tag of the connection is repeated.
  lemma CountsRightIff(tags: seq<Text>)
    ensures CountsRight(tags) <==> DistinctTags(tags)
  {
    if DistinctTags(tags) {
      forall wanted: TagSet
        ensures Pairs(wanted, tags) == |wanted| <==> forall t :: t in wanted ==> t in tags
      {
        CountIsSubset(wanted, tags);
      }
    } else {
      var i, j :| 0 <= i < j < |tags| && tags[i] == tags[j];
      var wanted := [tags[i]];
      TwiceCounted(tags, i, j);
      assert wanted[..0] == [];
      assert Pairs(wanted, tags) == Occurrences(tags, tags[i]);
      hide Occurrences, Pairs, DistinctTags;
      assert Pairs(wanted, tags) != |wanted|;
    }
  }

  lemma {:induction false} TwiceCounted(tags: seq<Text>, i: nat, j: nat)
    requires i < j < |tags| && tags[i] == tags[j]
    ensures Occurrences(tags, tags[i]) >= 2
  {
    var init := tags[..|tags| - 1];
    if j < |init| {
      TwiceCounted(init, i, j);
    } else {
      OccursIn(init, tags[i]);
      assert init[i] in init;
    }
  }

  method FilterByTagSet(cons: seq<Node>, wanted: TagSet) returns (col: seq<Node>)
    ensures col == Filter(cons, MatchesTags(wanted))
  {
    hide Pairs, Occurrences;
    col := [];
    for i := 0 to |cons|
      invariant col == Filter(cons[..i], MatchesTags(wanted))
    {
      FilterStep(cons, i, MatchesTags(wanted));
      var matches := CandidateMatchesTags(cons[i], wanted);
      if matches {
        col := col + [cons[i]];
      }
    }
    assert cons[..|cons|] == cons;
  }

  // The first tag set that any connection matches, if there is one.
  ghost predicate FirstMatching(cons: seq<Node>, tagsets: seq<TagSet>, k: nat) {
    && k < |tagsets|
    && Filter(cons, MatchesTags(tagsets[k])) != []
    && forall i :: 0 <= i < k ==> Filter(cons, MatchesTags(tagsets[i])) == []
  }

  ghost predicate NoneMatches(cons: seq<Node>, tagsets: seq<TagSet>) {
    forall i :: 0 <= i < |tagsets| ==> Filter(cons, MatchesTags(tagsets[i])) == []
  }

  // Some tag set is met, or there is none.
  predicate TagsMeet(tagsets: seq<TagSet>, tags: seq<Text>) {
    tagsets == [] || exists k :: 0 <= k < |tagsets| && Pairs(tagsets[k], tags) == |tagsets[k]|
  }

  lemma NoneMatchesIff(cons: seq<Node>, tagsets: seq<TagSet>)
    requires tagsets != []
    ensures NoneMatches(cons, tagsets) <==> forall c :: c in cons ==> !TagsMeet(tagsets, c.tags)
  {
    hide Pairs, Filter;
    if NoneMatches(cons, tagsets) {
      forall c | c in cons ensures !TagsMeet(tagsets, c.tags) {
        if k :| 0 <= k < |tagsets| && Pairs(tagsets[k], c.tags) == |tagsets[k]| {
          FilterHas(cons, MatchesTags(tagsets[k]), c);
        }
      }
    } else {
      var k :| 0 <= k < |tagsets| && Filter(cons, MatchesTags(tagsets[k])) != [];
      var c := Filter(cons, MatchesTags(tagsets[k]))[0];
      FilterHas(cons, MatchesTags(tagsets[k]), c);
    }
  }

  // ----- Together -----

  ghost predicate IsSeed(client: Client, c: Node) {
    exists d :: d in client.servers && c.hash == HashFor(d, client.pid)
  }

  // What a connection must meet before its credentials are compared.
  ghost predicate IsReachable(client: Client, mode: Mode, c: Node) {
    && IsOfKind(Kinds(mode), client.pid)(c)
    && if client.isReplSet then IsInSet(client.setName)(c) else IsSeed(client, c)
  }

  // A connection of this process, and of the client's set or one of its seeds.
  ghost predicate IsKnown(client: Client, c: Node) {
    && HashToPid(c.hash) == Some(client.pid)
    && if client.isReplSet then IsInSet(client.setName)(c) else IsSeed(client, c)
  }

  // What each mode reaches.
  lemma ModesReach(client: Client, c: Node)
    ensures IsReachable(client, PrimaryOnly, c) <==> IsKnown(client, c) && c.kind == Primary
    ensures IsReachable(client, SecondaryOnly, c) <==> IsKnown(client, c) && c.kind == Secondary
    ensures IsReachable(client, PrimaryPreferred, c)
       <==> IsReachable(client, PrimaryOnly, c) || IsReachable(client, SecondaryOnly, c)
    ensures IsReachable(client, SecondaryPreferred, c)
       <==> IsReachable(client, PrimaryOnly, c) || IsReachable(client, SecondaryOnly, c)
    ensures IsReachable(client, Nearest, c)
       <==> IsKnown(client, c) && (c.kind == Standalone || c.kind == Primary || c.kind == Secondary || c.kind == Mongos)
  {
    hide HashToPid, IsSeed, IsInSet;
  }

  // A connection that makes the search follow a null pointer.
  ghost predicate Breaks(client: Client, mode: Mode, c: Node) {
    || HashToPid(c.hash).None?
    || (client.isReplSet && IsOfKind(Kinds(mode), client.pid)(c) && SplitFront(c.hash).None?)
    || (IsReachable(client, mode, c) && CredsBreak(client.servers, c))
  }

  // The connections left before tags are looked at.
  ghost function Untagged(cons: seq<Node>, client: Client, mode: Mode): seq<Node> {
    Filter(Named(cons, client, mode), HasCreds(client.servers, client.pid))
  }

  ghost function Named(cons: seq<Node>, client: Client, mode: Mode): seq<Node> {
    var all := Filter(cons, IsOfKind(Kinds(mode), client.pid));
    if client.isReplSet then Filter(all, IsInSet(client.setName)) else OfSeeds(all, client.servers, client.pid)
  }

  lemma NamedHas(cons: seq<Node>, client: Client, mode: Mode, c: Node)
    ensures c in Named(cons, client, mode) <==> c in cons && IsReachable(client, mode, c)
  {
    hide Filter, OfSeeds, HashFor, SplitFront, HashToPid, Kinds;
    var all := Filter(cons, IsOfKind(Kinds(mode), client.pid));
    FilterHas(cons, IsOfKind(Kinds(mode), client.pid), c);
    FilterHas(all, IsInSet(client.setName), c);
    OfSeedsHas(all, client.servers, client.pid, c);
  }

  // They are those that meet every condition.
  lemma UntaggedHas(cons: seq<Node>, client: Client, mode: Mode, c: Node)
    ensures c in Untagged(cons, client, mode)
       <==> c in cons && IsReachable(client, mode, c) && HasCreds(client.servers, client.pid)(c)
  {
    hide Filter, Named, IsReachable, Split, PartsOf;
    NamedHas(cons, client, mode, c);
    FilterHas(Named(cons, client, mode), HasCreds(client.servers, client.pid), c);
  }

  // NoMatch when there are tag sets and none matches.
  datatype Found = Candidates(col: seq<Node>) | NoMatch | NullPointer

  // The part of mongo_find_candidate_servers that reads hashes.
  method FindUntagged(cons: seq<Node>, client: Client, mode: Mode) returns (r: Option<seq<Node>>)
    ensures r.None? <==> exists c :: c in cons && Breaks(client, mode, c)
    ensures r.Some? ==> r.value == Untagged(cons, client, mode)
  {
    hide Filter, OfSeeds, HashFor, SplitFront, HashToPid, Kinds, CredsBreak, HasCreds;
    var all := FilterConnections(cons, Kinds(mode), client.pid);
    if all.None? {
      return None;
    }
    ghost var kept := all.value;
    if client.isReplSet {
      all := FilterBySetName(all.value, client.setName);
      if all.None? {
        forall c | c in kept && SplitFront(c.hash).None? ensures c in cons && Breaks(client, mode, c) {
          FilterHas(cons, IsOfKind(Kinds(mode), client.pid), c);
        }
        return None;
      }
    } else {
      var ofSeeds := FilterBySeed(all.value, client.servers, client.pid);
      all := Some(ofSeeds);
    }
    ghost var named := all.value;
    forall c ensures c in named <==> c in cons && IsReachable(client, mode, c) {
      NamedHas(cons, client, mode, c);
    }
    forall c | c in cons && IsOfKind(Kinds(mode), client.pid)(c) ensures c in kept {
      FilterHas(cons, IsOfKind(Kinds(mode), client.pid), c);
    }
    hide IsReachable, Untagged;
    r := FilterByCredentials(all.value, client.servers, client.pid);
  }

  // mongo_find_candidate_servers
  method FindCandidates(cons: seq<Node>, client: Client, mode: Mode, tagsets: seq<TagSet>) returns (r: Found)
    ensures r.NullPointer? <==> exists c :: c in cons && Breaks(client, mode, c)
    ensures r.NoMatch? ==> tagsets != [] && NoneMatches(Untagged(cons, client, mode), tagsets)
    ensures r.Candidates? ==>
              var all := Untagged(cons, client, mode);
              if tagsets == [] then r.col == all
              else exists k: nat :: FirstMatching(all, tagsets, k) && r.col == Filter(all, MatchesTags(tagsets[k]))
  {
    hide Filter, Untagged, Breaks;
    var all := FindUntagged(cons, client, mode);
    if all.None? {
      return NullPointer;
    }
    if tagsets == [] {
      return Candidates(all.value);
    }
    for i := 0 to |tagsets|
      invariant forall k :: 0 <= k < i ==> Filter(all.value, MatchesTags(tagsets[k])) == []
    {
      var filtered := FilterByTagSet(all.value, tagsets[i]);
      if filtered != [] {
        assert FirstMatching(all.value, tagsets, i);
        return Candidates(filtered);
      }
    }
    r := NoMatch;
  }

  // ----- Connections with readable hashes -----

  // A connection whose hash was printed from these parts.
  predicate MadeOf(c: Node, p: Parts) {
    c.hash == HashOf(p) && Printed(p) && Plain(p)
  }

  lemma MadeIsRead(c: Node, p: Parts)
    requires MadeOf(c, p)
    ensures HashToPid(c.hash) == Some(p.pid) && Split(c.hash) == Some(p)
    ensures SplitFront(c.hash).Some? && SplitFront(c.hash).value.replSet == p.replSet
  {
    hide HashOf, Plain, HashToPid, SplitFront, SplitCreds;
    HashToPidOfHash(p);
    SplitUndoesCreate(p);
  }

  // The search over such connections breaks exactly when the client has
  // credentials and meets one of its set, or of its seeds, without them.
  lemma BreaksIff(client: Client, mode: Mode, c: Node, p: Parts)
    requires MadeOf(c, p) && client.servers != []
    ensures Breaks(client, mode, c)
       <==> IsReachable(client, mode, c) && HasCredentials(client.servers[0]) && p.creds.None?
  {
    MadeIsRead(c, p);
    hide MadeOf, HashToPid, Split, SplitFront, IsReachable;
  }

  lemma ReachableIff(client: Client, mode: Mode, c: Node, p: Parts)
    requires MadeOf(c, p)
    ensures IsReachable(client, mode, c)
       <==> && p.pid == client.pid && c.kind in Kinds(mode)
            && if client.isReplSet then p.replSet.Some? && (client.setName.None? || p.replSet == client.setName)
               else IsSeed(client, c)
  {
    MadeIsRead(c, p);
    hide MadeOf, HashToPid, Split, SplitFront, IsSeed, Kinds;
  }

  // A client with credentials takes the connections made with the same database,
  // user and password digest; one without takes all.
  lemma HasCredsIff(servers: seq<ServerDef>, pid: Pid, c: Node, p: Parts)
    requires MadeOf(c, p) && servers != []
    ensures HasCreds(servers, pid)(c)
       <==> (HasCredentials(servers[0]) ==>
               && p.creds.Some?
               && p.creds.value.database == servers[0].db.value
               && p.creds.value.username == servers[0].username.value
               && p.creds.value.authHash
                  == HashedPassword(servers[0].username.value, servers[0].password.value, pid))
  {
    MadeIsRead(c, p);
    hide MadeOf, HashToPid, Split, SplitFront, HashedPassword;
  }

  // So FindCandidates follows a null pointer over such connections exactly when
  // the client has credentials and some reachable connection has none.
  lemma SomeBreaksIff(cons: seq<Node>, parts: seq<Parts>, client: Client, mode: Mode)
    requires |cons| == |parts| && client.servers != [] && forall i :: 0 <= i < |cons| ==> MadeOf(cons[i], parts[i])
    ensures (exists c :: c in cons && Breaks(client, mode, c))
       <==> && HasCredentials(client.servers[0])
            && exists i :: 0 <= i < |cons| && IsReachable(client, mode, cons[i]) && parts[i].creds.None?
  {
    hide Breaks, IsReachable, MadeOf;
    forall i | 0 <= i < |cons|
      ensures Breaks(client, mode, cons[i])
         <==> IsReachable(client, mode, cons[i]) && HasCredentials(client.servers[0]) && parts[i].creds.None?
    {
      BreaksIff(client, mode, cons[i], parts[i]);
    }
    forall c | c in cons && Breaks(client, mode, c)
      ensures exists i :: 0 <= i < |cons| && IsReachable(client, mode, cons[i]) && parts[i].creds.None?
    {
      var i :| 0 <= i < |cons| && cons[i] == c;
      assert IsReachable(client, mode, cons[i]) && parts[i].creds.None?;
    }
    forall i | 0 <= i < |cons| && Breaks(client, mode, cons[i]) ensures cons[i] in cons {
    }
  }

  // The server a:27017 of the set "s", as a client with credentials knows it and
  // as one without them does.
  function Server(creds: bool): ServerDef {
    var given := if creds then Some(['u' as int]) else None;
    ServerDef(['a' as int], 27017, Some(['s' as int]), given, given, given)
  }

  lemma ServerIsPlain(creds: bool)
    ensures Plain(PartsOf(Server(creds), 1)) && Printed(PartsOf(Server(creds), 1))
  {
    hide HashedPassword;
  }

  // The connection of the one client breaks the search of the other.
  lemma OtherClientBreaks(c: Node)
    requires c.hash == HashFor(Server(false), 1) && c.kind == Primary
    ensures Breaks(Client(true, Some(['s' as int]), [Server(true)], 1), PrimaryOnly, c)
  {
    hide HashOf, Plain, Printed, Breaks, IsReachable, HashToPid, Split, SplitFront;
    var client, p := Client(true, Some(['s' as int]), [Server(true)], 1), PartsOf(Server(false), 1);
    ServerIsPlain(false);
    assert MadeOf(c, p);
    ReachableIff(client, PrimaryOnly, c, p);
    BreaksIff(client, PrimaryOnly, c, p);
  }
}
