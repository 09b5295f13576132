// What the settings of a connection string come to: which of them decide the
// set name and the kind of client, and which never matter.
module UriSettings {
  import opened Bytes
  import opened Text
  import opened ServerHash
  import opened Options
  import opened ConnString

  predicate IsReplicaSet(o: Setting) {
    SameIgnoringCase(o.name, "replicaSet")
  }

  predicate GivesName(o: Setting) {
    IsReplicaSet(o) && o.value != [] && o.value != Ascii("1")
  }

  // The last set name that is given.
  function LastName(options: seq<Setting>): Option<Text> {
    if options == [] then None
    else
      var last := options[|options| - 1];
      if GivesName(last) then Some(last.value) else LastName(options[..|options| - 1])
  }

  // The set name when the last replicaSet setting gives one.
  function CurrentName(options: seq<Setting>): Option<Text> {
    if options == [] then None
    else
      var last := options[|options| - 1];
      if GivesName(last) then Some(last.value)
      else if IsReplicaSet(last) then None
      else CurrentName(options[..|options| - 1])
  }

  predicate AsksForSet(options: seq<Setting>) {
    exists o :: o in options && IsReplicaSet(o) && o.value != []
  }

  lemma {:induction false} FoldSnoc(c: Config, options: seq<Setting>, o: Setting)
    ensures Fold(c, options + [o])
         == var r := Fold(c, options); if r.Stored? then StoreOption(r.config, o.name, o.value) else r
    decreases |options|
  {
    hide StoreOption;
    if options == [] {
      assert options + [o] == [o] && [o][1..] == [];
    } else {
      assert (options + [o])[1..] == options[1..] + [o];
      var r := StoreOption(c, options[0].name, options[0].value);
      if r.Stored? {
        FoldSnoc(r.config, options[1..], o);
      }
    }
  }

  // The servers are those of before, with this set name.
  predicate Named(before: seq<ServerDef>, after: seq<ServerDef>, setName: Option<Text>) {
    SameAddresses(before, after) && forall i :: 0 <= i < |after| ==> after[i].replSet == setName
  }

  // What one option does to the set name and the kind of client.
  lemma StoreNames(c: Config, o: Setting)
    requires StoreOption(c, o.name, o.value).Stored?
    ensures var r := StoreOption(c, o.name, o.value).config;
            && SameAddresses(c.servers, r.servers)
            && (forall i :: 0 <= i < |r.servers| ==>
                  r.servers[i].replSet == if GivesName(o) then Some(o.value) else c.servers[i].replSet)
            && r.setName == (if GivesName(o) then Some(o.value) else if IsReplicaSet(o) then None else c.setName)
            && r.conType == (if IsReplicaSet(o) && o.value != [] then ReplSet else c.conType)
  {
    hide SameIgnoringCase, ParseMode, ParseTags, Atoi;
  }

  lemma {:induction false} FoldNames(c: Config, options: seq<Setting>)
    requires Fold(c, options).Stored? && c.setName == None
    requires forall i :: 0 <= i < |c.servers| ==> c.servers[i].replSet == None
    ensures var r := Fold(c, options).config;
            && Named(c.servers, r.servers, LastName(options))
            && r.setName == CurrentName(options)
            && r.conType == if AsksForSet(options) then ReplSet else c.conType
    decreases |options|
  {
    hide StoreOption, GivesName, IsReplicaSet;
    if options != [] {
      var init, last := options[..|options| - 1], options[|options| - 1];
      assert options == init + [last];
      FoldSnoc(c, init, last);
      FoldNames(c, init);
      hide Fold;
      StoreNames(Fold(c, init).config, last);
    }
  }

  // The database of the string, or "admin" for credentials without one.
  function Database(u: Uri): Option<Text> {
    if u.db != [] then Some(u.db) else if u.creds.Some? then Some(Ascii("admin")) else None
  }

  // The servers of a client, whatever the settings: addresses, credentials and
  // database come from the string in front of them, and the set name is the last
  // one given. The client's own set name is that of the last replicaSet setting.
  lemma ServersOfUri(u: Uri)
    requires Meaning(u).Stored?
    ensures var c := Meaning(u).config;
            && |c.servers| == |u.hosts|
            && (forall i :: 0 <= i < |u.hosts| ==>
                  c.servers[i] == ServerDef(SeedOf(u.hosts[i]).host, SeedOf(u.hosts[i]).port, LastName(u.options),
                                            Database(u), if u.creds.Some? then Some(u.creds.value.0) else None,
                                            if u.creds.Some? then Some(u.creds.value.1) else None))
            && c.setName == CurrentName(u.options)
            && c.conType == if AsksForSet(u.options) then ReplSet else if |u.hosts| == 1 then Standalone else Multiple
  {
    hide LastName, CurrentName, AsksForSet, Fold;
    var c := INITIAL.(servers := Defs(SeedsOf(u.hosts)), conType := if |u.hosts| == 1 then Standalone else Multiple);
    FoldNames(c, u.options);
  }

  // ----- When the client and its servers agree on the set name -----

  // Behind the last setting that gives a name stands one that gives none: "1", or
  // nothing.
  ghost predicate IsCleared(options: seq<Setting>) {
    exists i, j :: ClearsAt(options, i, j)
  }

  ghost predicate ClearsAt(options: seq<Setting>, i: int, j: int) {
    0 <= i < j < |options| && GivesName(options[i]) && IsReplicaSet(options[j])
    && forall k :: i < k < |options| ==> !GivesName(options[k])
  }

  lemma {:induction false} LastNameIff(options: seq<Setting>)
    ensures LastName(options).Some? <==> exists i :: IsLastNaming(options, i)
    ensures forall i :: IsLastNaming(options, i) ==> LastName(options) == Some(options[i].value)
  {
    hide GivesName;
    if options != [] {
      var init, last := options[..|options| - 1], options[|options| - 1];
      LastNameIff(init);
      if GivesName(last) {
        assert IsLastNaming(options, |options| - 1);
      } else {
        forall i ensures IsLastNaming(options, i) <==> IsLastNaming(init, i) {
        }
      }
    }
  }

  ghost predicate IsLastNaming(options: seq<Setting>, i: int) {
    0 <= i < |options| && GivesName(options[i]) && forall k :: i < k < |options| ==> !GivesName(options[k])
  }

  lemma {:induction false} NamesDifferIff(options: seq<Setting>)
    ensures CurrentName(options) != LastName(options) <==> IsCleared(options)
    ensures CurrentName(options) == LastName(options) || CurrentName(options) == None
  {
    hide GivesName, IsReplicaSet, LastName;
    LastNameIff(options);
    if options != [] {
      var init, last := options[..|options| - 1], options[|options| - 1];
      NamesDifferIff(init);
      LastOfSettings(options);
      if GivesName(last) {
        assert !IsCleared(options);
      } else if IsReplicaSet(last) {
        if i :| IsLastNaming(options, i) {
          assert ClearsAt(options, i, |options| - 1);
        }
      } else {
        forall i, j ensures ClearsAt(options, i, j) <==> ClearsAt(init, i, j) {
        }
      }
    }
  }

  lemma LastOfSettings(options: seq<Setting>)
    requires options != []
    ensures var init, last := options[..|options| - 1], options[|options| - 1];
            LastName(options) == if GivesName(last) then Some(last.value) else LastName(init)
  {
  }

  // All servers carry the client's own set name exactly when it was not cleared.
  lemma ServersAgreeIff(u: Uri)
    requires Meaning(u).Stored? && u.hosts != []
    ensures var c := Meaning(u).config;
            (forall d :: d in c.servers ==> d.replSet == c.setName) <==> !IsCleared(u.options)
  {
    hide Fold, LastName, CurrentName, AsksForSet, IsCleared, Meaning;
    ServersOfUri(u);
    NamesDifferIff(u.options);
    var c := Meaning(u).config;
    assert c.servers[0] in c.servers && c.servers[0].replSet == LastName(u.options);
  }

  // mongodb://a/d?replicaSet=s&replicaSet=1, or with nothing in place of the 1.
  function Clearing(cleared: Text): Uri {
    Uri(None, [HostPort(Ascii("a"), None)], Ascii("d"),
        [Setting(Ascii("replicaSet"), Ascii("s")), Setting(Ascii("replicaSet"), cleared)])
  }

  lemma SpeltTheSame(t: string)
    ensures SameIgnoringCase(Ascii(t), t)
  {
  }

  lemma ClearingGives(cleared: Text)
    requires cleared == Ascii("1") || cleared == []
    ensures var options := Clearing(cleared).options;
            && GivesName(options[0]) && IsReplicaSet(options[1]) && !GivesName(options[1])
            && PlainSetting(options[0]) && PlainSetting(options[1])
  {
    SpeltTheSame("replicaSet");
    hide SameIgnoringCase;
    assert Ascii("s")[0] != Ascii("1")[0];
  }

  lemma ClearingNames(cleared: Text)
    requires cleared == Ascii("1") || cleared == []
    ensures LastName(Clearing(cleared).options) == Some(Ascii("s")) && CurrentName(Clearing(cleared).options) == None
  {
    ClearingGives(cleared);
    var options := Clearing(cleared).options;
    hide GivesName, IsReplicaSet, PlainSetting;
    assert options[..1] == [options[0]] && [options[0]][..0] == [];
    assert LastName([options[0]]) == Some(Ascii("s"));
  }

  lemma {:induction false} ReplicaSetsStored(c: Config, options: seq<Setting>)
    requires forall i :: 0 <= i < |options| ==> IsReplicaSet(options[i])
    ensures Fold(c, options).Stored?
    decreases |options|
  {
    hide SameIgnoringCase, Ascii;
    if options != [] {
      ReplicaSetsStored(StoreOption(c, options[0].name, options[0].value).config, options[1..]);
    }
  }

  lemma ClearingIsPlain(cleared: Text)
    requires cleared == Ascii("1") || cleared == []
    ensures PlainUri(Clearing(cleared))
  {
    ClearingGives(cleared);
    hide GivesName, IsReplicaSet, PlainSetting, PlainHost;
    ExampleParts();
    var u := Clearing(cleared);
    assert u.hosts == Example().hosts && u.db == Example().db;
    NoAtSign(cleared);
  }

  lemma NoAtSign(cleared: Text)
    requires cleared == Ascii("1") || cleared == []
    ensures AT_SIGN !in PrintHosts(Clearing(cleared).hosts) + PrintTail(Clearing(cleared))
  {
    var u := Clearing(cleared);
    assert AT_SIGN !in Ascii("replicaSet") && AT_SIGN !in Ascii("s") && AT_SIGN !in cleared;
    assert AT_SIGN !in Ascii("a") && AT_SIGN !in Ascii("d");
    hide Ascii;
    assert PrintHosts(u.hosts) == Ascii("a");
    assert AT_SIGN !in PrintSetting(u.options[0]) && AT_SIGN !in PrintSetting(u.options[1]);
    OptionsOfTwo(u.options);
    hide PrintOptions, PrintHosts, PrintSetting;
  }

  lemma OptionsOfTwo(options: seq<Setting>)
    requires |options| == 2
    ensures PrintOptions(options) == PrintSetting(options[0]) + ([AMPERSAND] + PrintSetting(options[1]))
  {
    assert options[1..] == [options[1]];
  }

  // The client has no set name, and its server has one.
  lemma ClearedName(cleared: Text)
    requires cleared == Ascii("1") || cleared == []
    ensures var r := Parse(Print(Clearing(cleared)));
            r.Stored? && r.config.setName == None && |r.config.servers| == 1
            && r.config.servers[0].replSet == Some(Ascii("s"))
  {
    hide Parse, Print, PlainUri, LastName, CurrentName, AsksForSet, Ascii, GivesName, IsReplicaSet, PlainSetting, Fold;
    var u := Clearing(cleared);
    ClearingGives(cleared);
    ClearingNames(cleared);
    ClearingIsPlain(cleared);
    ParseUndoesPrint(u);
    GivingIsReplicaSet(u.options[0]);
    ReplicaSetsStored(INITIAL.(servers := Defs(SeedsOf(u.hosts)), conType := Standalone), u.options);
    ServersOfUri(u);
  }

  lemma GivingIsReplicaSet(o: Setting)
    ensures GivesName(o) ==> IsReplicaSet(o)
  {
  }

  // ----- Settings that never matter -----

  // Alike but for the credentials and databases of their servers.
  predicate Alike(c: Config, c': Config) {
    && c == c'.(servers := c.servers) && |c.servers| == |c'.servers|
    && forall i :: 0 <= i < |c.servers| ==>
         c.servers[i] == c'.servers[i].(db := c.servers[i].db, username := c.servers[i].username,
                                        password := c.servers[i].password)
  }

  predicate AlikeOutcomes(r: Outcome, r': Outcome) {
    if r.Stored? then r'.Stored? && Alike(r.config, r'.config) else r == r'
  }

  lemma StoreAlike(c: Config, c': Config, o: Setting)
    requires Alike(c, c')
    ensures AlikeOutcomes(StoreOption(c, o.name, o.value), StoreOption(c', o.name, o.value))
  {
    hide SameIgnoringCase, ParseMode, ParseTags, Atoi;
  }

  lemma {:induction false} FoldAlike(c: Config, c': Config, options: seq<Setting>)
    requires Alike(c, c')
    ensures AlikeOutcomes(Fold(c, options), Fold(c', options))
    decreases |options|
  {
    hide StoreOption, Alike;
    if options != [] {
      StoreAlike(c, c', options[0]);
      var r := StoreOption(c, options[0].name, options[0].value);
      var r' := StoreOption(c', options[0].name, options[0].value);
      if r.Stored? {
        FoldAlike(r.config, r'.config, options[1..]);
      }
    }
  }

  predicate IsCredential(o: Setting) {
    SameIgnoringCase(o.name, "username") || SameIgnoringCase(o.name, "password") || SameIgnoringCase(o.name, "db")
  }

  lemma CredentialStored(c: Config, o: Setting)
    requires IsCredential(o)
    ensures var r := StoreOption(c, o.name, o.value); r.Stored? && Alike(r.config, c)
  {
    NotReplicaSet(o);
    hide SameIgnoringCase;
  }

  lemma NotReplicaSet(o: Setting)
    requires IsCredential(o)
    ensures !SameIgnoringCase(o.name, "replicaSet")
  {
  }

  lemma {:induction false} CredentialFolded(c: Config, before: seq<Setting>, o: Setting, after: seq<Setting>)
    requires IsCredential(o)
    ensures AlikeOutcomes(Fold(c, before + ([o] + after)), Fold(c, before + after))
    decreases |before|
  {
    hide StoreOption, Alike, IsCredential;
    if before == [] {
      assert before + ([o] + after) == [o] + after && before + after == after && ([o] + after)[1..] == after;
      CredentialStored(c, o);
      FoldAlike(StoreOption(c, o.name, o.value).config, c, after);
    } else {
      assert (before + ([o] + after))[1..] == before[1..] + ([o] + after);
      assert (before + after)[1..] == before[1..] + after;
      var r := StoreOption(c, before[0].name, before[0].value);
      if r.Stored? {
        CredentialFolded(r.config, before[1..], o, after);
      }
    }
  }

  lemma FinishAlike(c: Config, c': Config, creds: Option<(Text, Text)>, db: Text)
    requires Alike(c, c')
    ensures Finish(c, creds, db) == Finish(c', creds, db)
  {
  }

  // A username, password or db setting, wherever it stands, changes nothing.
  lemma CredentialSettingIsLost(u: Uri, before: seq<Setting>, o: Setting, after: seq<Setting>)
    requires IsCredential(o)
    ensures Meaning(u.(options := before + ([o] + after))) == Meaning(u.(options := before + after))
  {
    hide Fold, IsCredential, Finish, Alike;
    var c := INITIAL.(servers := Defs(SeedsOf(u.hosts)), conType := if |u.hosts| == 1 then Standalone else Multiple);
    CredentialFolded(c, before, o, after);
    var r, r' := Fold(c, before + ([o] + after)), Fold(c, before + after);
    if r.Stored? {
      FinishAlike(r.config, r'.config, u.creds, u.db);
    }
  }

  // mongodb://a/d?username=x
  function Example(): Uri {
    Uri(None, [HostPort(Ascii("a"), None)], Ascii("d"), [Setting(Ascii("username"), Ascii("x"))])
  }

  lemma ExampleTail()
    ensures PrintHosts(Example().hosts) == Ascii("a") && PrintTail(Example()) == Ascii("/d?username=x")
  {
    assert PrintOptions(Example().options) == Ascii("username=x");
    hide PrintOptions;
  }

  lemma ExamplePrints()
    ensures Print(Example()) == Ascii("mongodb://a/d?username=x")
  {
    hide PrintHosts, PrintTail;
    ExampleTail();
  }

  lemma ExampleParts()
    ensures PlainHost(Example().hosts[0]) && PlainSetting(Example().options[0]) && IsCredential(Example().options[0])
    ensures QUESTION !in Example().db && Example().db != []
  {
  }

  lemma ExampleIsPlain()
    ensures PlainUri(Example())
  {
    hide PlainHost, PlainSetting, PrintHosts, PrintTail, IsCredential;
    ExampleParts();
    ExampleTail();
    assert AT_SIGN !in Ascii("a") + Ascii("/d?username=x");
  }

  // A user name among the settings is parsed, and no server has it.
  lemma LostUsername()
    ensures var r := Parse(Ascii("mongodb://a/d?username=x"));
            r.Stored? && |r.config.servers| == 1
            && r.config.servers[0] == ServerDef(Ascii("a"), 27017, None, Some(Ascii("d")), None, None)
  {
    hide Ascii, Parse, Print, PlainUri, IsCredential, StoreOption, PlainHost, PlainSetting;
    var u := Example();
    ExamplePrints();
    ExampleIsPlain();
    ParseUndoesPrint(u);
    ExampleParts();
    CredentialSettingIsLost(u, [], u.options[0], []);
    assert [] + ([u.options[0]] + []) == u.options;
    ServersOfUri(u.(options := []));
  }
}
