// What the options of a connection string come to: the preference for reading,
// the tag sets, the timeouts and the write concern.
module UriOptions {
  import opened Bytes
  import opened Text
  import opened ReadPreference
  import opened Options
  import opened ConnString
  import opened ServerHash
  import opened Document
  import opened UriSettings

  predicate Is(o: Setting, name: string) {
    SameIgnoringCase(o.name, name)
  }

  // ----- Names and values -----

  lemma ModeNames()
    ensures ParseMode(Ascii("primary")) == Some(PrimaryOnly)
    ensures ParseMode(Ascii("primaryPreferred")) == Some(PrimaryPreferred)
    ensures ParseMode(Ascii("secondary")) == Some(SecondaryOnly)
    ensures ParseMode(Ascii("secondaryPreferred")) == Some(SecondaryPreferred)
    ensures ParseMode(Ascii("nearest")) == Some(Nearest)
  {
    assert Ascii("nearest")[0] == 'n' as int;
  }

  // Capitals do not matter, other characters do.
  lemma CaseIsIgnored()
    ensures SameIgnoringCase(Ascii("AZ"), "az") && SameIgnoringCase(Ascii("az"), "AZ")
    ensures !SameIgnoringCase(Ascii("a["), "a{") && !SameIgnoringCase(Ascii("a"), "az")
  {
    assert Ascii("a[")[1] == '[' as int;
  }

  // ----- Each setting of a kind -----

  // The value of the last setting with one of two names.
  function Last(options: seq<Setting>, name: string, other: string): Option<Text> {
    if options == [] then None
    else
      var last := options[|options| - 1];
      if Is(last, name) || Is(last, other) then Some(last.value) else Last(options[..|options| - 1], name, other)
  }

  // A number is that of the last such setting, or the default.
  function NumberOf(options: seq<Setting>, name: string, other: string, default: int): int {
    var last := Last(options, name, other);
    if last.Some? then Atoi(last.value) else default
  }

  predicate IsTrue(value: Text) {
    SameIgnoringCase(value, "true") || (value != [] && value[0] == '1' as int)
  }

  // The preference of the last setting that gives one. To allow reading from a
  // slave is to prefer secondaries.
  function ModeOf(options: seq<Setting>): Mode {
    if options == [] then PrimaryOnly
    else
      var last := options[|options| - 1];
      if Is(last, "readPreference") && ParseMode(last.value).Some? then ParseMode(last.value).value
      else if Is(last, "slaveOkay") && IsTrue(last.value) then SecondaryPreferred
      else ModeOf(options[..|options| - 1])
  }

  // All tag sets, in order.
  function TagSetsOf(options: seq<Setting>): seq<TagSet> {
    if options == [] then []
    else
      var last := options[|options| - 1];
      TagSetsOf(options[..|options| - 1])
      + if Is(last, "readPreferenceTags") && ParseTags(last.value).Some? then [ParseTags(last.value).value] else []
  }

  // How many servers a write waits for: a number, or 1 with a name for the rest.
  predicate IsNumber(value: Text) {
    value != [] && ('0' as int <= value[0] <= '9' as int || value[0] == '-' as int)
  }

  function WOf(options: seq<Setting>): int {
    var last := Last(options, "w", "w");
    if last.None? then -1 else if IsNumber(last.value) then Atoi(last.value) else 1
  }

  function WStringOf(options: seq<Setting>): Option<Text> {
    if options == [] then None
    else
      var last := options[|options| - 1];
      if Is(last, "w") && !IsNumber(last.value) then Some(last.value) else WStringOf(options[..|options| - 1])
  }

  predicate MeansOptions(c: Config, options: seq<Setting>) {
    && c.connectTimeoutMS == NumberOf(options, "timeout", "connectTimeoutMS", 0)
    && c.socketTimeoutMS == NumberOf(options, "socketTimeoutMS", "socketTimeoutMS", -1)
    && c.wTimeout == NumberOf(options, "wTimeout", "wTimeoutMS", -1)
    && c.w == WOf(options) && c.wString == WStringOf(options)
    && c.mode == ModeOf(options) && c.tagsets == TagSetsOf(options)
  }

  // Length and first letter tell the names apart.
  lemma NameTells(o: Setting, name: string, first: char)
    requires name != "" && LowerCase((name[0] as int) % 256) == first as int
    ensures Is(o, name) ==> HasShape(o, |name|, first)
  {
  }

  predicate HasShape(o: Setting, length: nat, first: char) {
    |o.name| == length > 0 && LowerCase(o.name[0]) == first as int
  }

  lemma NamesDiffer(o: Setting)
    ensures Is(o, "replicaSet") ==> HasShape(o, 10, 'r')
    ensures Is(o, "username") ==> HasShape(o, 8, 'u')
    ensures Is(o, "password") ==> HasShape(o, 8, 'p')
    ensures Is(o, "db") ==> HasShape(o, 2, 'd')
    ensures Is(o, "slaveOkay") ==> HasShape(o, 9, 's')
    ensures Is(o, "readPreference") ==> HasShape(o, 14, 'r')
    ensures Is(o, "readPreferenceTags") ==> HasShape(o, 18, 'r')
    ensures Is(o, "timeout") ==> HasShape(o, 7, 't')
    ensures Is(o, "connectTimeoutMS") ==> HasShape(o, 16, 'c')
    ensures Is(o, "socketTimeoutMS") ==> HasShape(o, 15, 's')
    ensures Is(o, "w") ==> HasShape(o, 1, 'w')
    ensures Is(o, "wTimeout") ==> HasShape(o, 8, 'w')
    ensures Is(o, "wTimeoutMS") ==> HasShape(o, 10, 'w')
  {
    hide SameIgnoringCase, HasShape;
    NameTells(o, "replicaSet", 'r');
    NameTells(o, "username", 'u');
    NameTells(o, "password", 'p');
    NameTells(o, "db", 'd');
    NameTells(o, "slaveOkay", 's');
    NameTells(o, "readPreference", 'r');
    NameTells(o, "readPreferenceTags", 'r');
    NameTells(o, "timeout", 't');
    NameTells(o, "connectTimeoutMS", 'c');
    NameTells(o, "socketTimeoutMS", 's');
    NameTells(o, "w", 'w');
    NameTells(o, "wTimeout", 'w');
    NameTells(o, "wTimeoutMS", 'w');
  }

  // What one setting does.
  lemma StoreSets(c: Config, o: Setting)
    requires StoreOption(c, o.name, o.value).Stored?
    ensures var r := StoreOption(c, o.name, o.value).config;
            && r.connectTimeoutMS == (if Is(o, "timeout") || Is(o, "connectTimeoutMS") then Atoi(o.value)
                                      else c.connectTimeoutMS)
            && r.socketTimeoutMS == (if Is(o, "socketTimeoutMS") then Atoi(o.value) else c.socketTimeoutMS)
            && r.wTimeout == (if Is(o, "wTimeout") || Is(o, "wTimeoutMS") then Atoi(o.value) else c.wTimeout)
            && r.w == (if !Is(o, "w") then c.w else if IsNumber(o.value) then Atoi(o.value) else 1)
            && r.wString == (if Is(o, "w") && !IsNumber(o.value) then Some(o.value) else c.wString)
  {
    NamesDiffer(o);
    hide SameIgnoringCase, ParseMode, ParseTags, Atoi, LowerCase;
  }

  lemma StorePrefers(c: Config, o: Setting)
    requires StoreOption(c, o.name, o.value).Stored?
    ensures var r := StoreOption(c, o.name, o.value).config;
            && (Is(o, "readPreference") ==> ParseMode(o.value) == Some(r.mode))
            && (Is(o, "slaveOkay") && IsTrue(o.value) ==> r.mode == SecondaryPreferred)
            && (!Is(o, "readPreference") && !(Is(o, "slaveOkay") && IsTrue(o.value)) ==> r.mode == c.mode)
            && (Is(o, "readPreferenceTags") ==>
                  ParseTags(o.value).Some? && r.tagsets == c.tagsets + [ParseTags(o.value).value])
            && (!Is(o, "readPreferenceTags") ==> r.tagsets == c.tagsets)
  {
    NamesDiffer(o);
    hide SameIgnoringCase, ParseMode, ParseTags, Atoi, LowerCase;
  }

  lemma {:induction false} FoldSets(c: Config, options: seq<Setting>)
    requires Fold(c, options).Stored? && MeansOptions(c, [])
    ensures MeansOptions(Fold(c, options).config, options)
    decreases |options|
  {
    hide StoreOption, SameIgnoringCase, ParseMode, ParseTags, Atoi, IsTrue, IsNumber;
    if options != [] {
      var init, last := options[..|options| - 1], options[|options| - 1];
      assert options == init + [last];
      FoldSnoc(c, init, last);
      FoldSets(c, init);
      hide Fold;
      StoreSets(Fold(c, init).config, last);
      StorePrefers(Fold(c, init).config, last);
    }
  }

  // Preference, tag sets, timeouts and write concern of a client come from the
  // settings like this.
  lemma OptionsOfUri(u: Uri)
    requires Meaning(u).Stored?
    ensures MeansOptions(Meaning(u).config, u.options)
  {
    hide Fold, MeansOptions;
    var c := INITIAL.(servers := Defs(SeedsOf(u.hosts)), conType := if |u.hosts| == 1 then Standalone else Multiple);
    Initially(c);
    FoldSets(c, u.options);
    FinishKeeps(Fold(c, u.options).config, u);
  }

  lemma Initially(c: Config)
    requires c == INITIAL.(servers := c.servers, conType := c.conType)
    ensures MeansOptions(c, [])
  {
  }

  lemma FinishKeeps(c: Config, u: Uri)
    requires MeansOptions(c, u.options)
    ensures MeansOptions(Finish(c, u.creds, u.db), u.options)
  {
    hide ModeOf, TagSetsOf, WOf, WStringOf, NumberOf;
  }

  // ----- Which settings are refused -----

  predicate IsOption(o: Setting) {
    || Is(o, "replicaSet") || Is(o, "username") || Is(o, "password") || Is(o, "db")
    || Is(o, "slaveOkay") || Is(o, "readPreference") || Is(o, "readPreferenceTags") || Is(o, "timeout")
    || Is(o, "connectTimeoutMS") || Is(o, "socketTimeoutMS") || Is(o, "w") || Is(o, "wTimeout")
    || Is(o, "wTimeoutMS")
  }

  // Error 2 is for an unknown name; error 3 for an unknown preference, a negative
  // number of servers, tags without a colon, and reading from a slave after a
  // preference was given.
  lemma RefusedIff(c: Config, o: Setting)
    ensures StoreOption(c, o.name, o.value) == Error(2) <==> !IsOption(o)
    ensures StoreOption(c, o.name, o.value) == Error(3) <==>
            || (Is(o, "readPreference") && ParseMode(o.value).None?)
            || (Is(o, "w") && IsNumber(o.value) && Atoi(o.value) < 0)
            || (Is(o, "readPreferenceTags") && ParseTags(o.value).None?)
            || (Is(o, "slaveOkay") && IsTrue(o.value) && (c.mode != PrimaryOnly || c.tagsets != []))
    ensures StoreOption(c, o.name, o.value).Error? ==> StoreOption(c, o.name, o.value).code in {2, 3}
    ensures !StoreOption(c, o.name, o.value).Overrun?
  {
    NamesDiffer(o);
    hide SameIgnoringCase, ParseMode, ParseTags, Atoi, LowerCase;
  }

  // ----- Tag sets -----

  datatype Tag = Tag(name: Text, value: Text)

  function PrintTag(t: Tag): Text {
    t.name + ([COLON] + t.value)
  }

  function PrintTags(tags: seq<Tag>): Text
    requires tags != []
  {
    if |tags| == 1 then PrintTag(tags[0]) else PrintTag(tags[0]) + ([COMMA] + PrintTags(tags[1..]))
  }

  predicate PlainTag(t: Tag) {
    COLON !in t.name && COMMA !in t.name && COMMA !in t.value
  }

  function TextsOf(tags: seq<Tag>): TagSet {
    seq(|tags|, i requires 0 <= i < |tags| => PrintTag(tags[i]))
  }

  // A printed tag set is read as its tags, in order.
  lemma {:induction false} TagsUndone(tags: seq<Tag>)
    requires tags != [] && forall i :: 0 <= i < |tags| ==> PlainTag(tags[i])
    ensures PrintTags(tags) != [] && ParseTags(PrintTags(tags)) == Some(TextsOf(tags))
    decreases |tags|
  {
    hide ParseTagList, PrintTag, PlainTag;
    var t := tags[0];
    PrintedTag(t);
    ParsedList(PrintTags(tags));
    if |tags| == 1 {
      OneTag(t);
      assert TextsOf(tags) == [PrintTag(t)];
    } else {
      var rest := PrintTags(tags[1..]);
      TagsUndone(tags[1..]);
      ParsedList(rest);
      TagBefore(t, rest);
      assert TextsOf(tags) == [PrintTag(t)] + TextsOf(tags[1..]);
    }
  }

  lemma PrintedTag(t: Tag)
    ensures PrintTag(t) != []
  {
  }

  lemma OneTag(t: Tag)
    requires PlainTag(t)
    ensures ParseTagList(PrintTag(t)) == Some([PrintTag(t)])
  {
    CutAt(t.name, COLON, t.value);
    CutNone(PrintTag(t), COMMA);
    hide Cut;
    assert t.name + [COLON] + t.value == PrintTag(t);
  }

  lemma TagBefore(t: Tag, rest: Text)
    requires PlainTag(t)
    ensures var s := PrintTag(t) + ([COMMA] + rest);
            ParseTagList(s) == if ParseTagList(rest).None? then None
                               else Some([PrintTag(t)] + ParseTagList(rest).value)
  {
    hide Cut, ParseTagList;
    var s := PrintTag(t) + ([COMMA] + rest);
    var behind := t.value + ([COMMA] + rest);
    assert s == t.name + ([COLON] + behind);
    CutAt(t.name, COLON, behind);
    CutAt(PrintTag(t), COMMA, rest);
    TagWithin(s, t, behind, rest);
  }

  lemma TagWithin(s: Text, t: Tag, behind: Text, rest: Text)
    requires s == PrintTag(t) + ([COMMA] + rest)
    requires Cut(s, COLON) == Some((t.name, behind)) && Cut(s, COMMA) == Some((PrintTag(t), rest))
    ensures ParseTagList(s) == if ParseTagList(rest).None? then None
                               else Some([PrintTag(t)] + ParseTagList(rest).value)
  {
    hide Cut;
    assert s[|t.name| + 1..|PrintTag(t)|] == t.value;
    assert t.name + [COLON] + t.value == PrintTag(t);
  }

  // A colon behind the comma is taken all the same, and the second tag is read
  // twice.
  lemma ColonBehindComma(a: Text, b: Text, c: Text)
    requires COLON !in a && COMMA !in a && COLON !in b && COMMA !in b && COMMA !in c
    ensures ParseTagList(a + ([COMMA] + (b + ([COLON] + c))))
         == Some([a + [COMMA] + b + [COLON] + c, b + [COLON] + c])
  {
    hide Cut, ParseTagList;
    var name := a + [COMMA] + b;
    var rest := b + ([COLON] + c);
    var s := name + ([COLON] + c);
    assert a + ([COMMA] + rest) == s;
    CutAt(a, COMMA, rest);
    CutAt(name, COLON, c);
    TagBeyond(s, name, c, a, rest);
    TagsUndone([Tag(b, c)]);
    assert PrintTags([Tag(b, c)]) == rest && TextsOf([Tag(b, c)]) == [rest];
    assert rest == b + [COLON] + c;
    ParsedList(rest);
    var first, second := name + [COLON] + c, b + [COLON] + c;
    assert [first] + [second] == [first, second];
  }

  lemma ParsedList(s: Text)
    requires s != []
    ensures ParseTags(s) == ParseTagList(s)
  {
  }

  lemma TagBeyond(s: Text, name: Text, value: Text, before: Text, rest: Text)
    requires s == name + ([COLON] + value) && |before| <= |name|
    requires Cut(s, COLON) == Some((name, value)) && Cut(s, COMMA) == Some((before, rest))
    ensures ParseTagList(s) == if ParseTagList(rest).None? then None
                               else Some([name + [COLON] + value] + ParseTagList(rest).value)
  {
    hide Cut;
    assert s[|name| + 1..] == value;
  }

  lemma EmptyTags()
    ensures ParseTags([]) == Some([])
  {
  }

  // ----- A whole string -----

  // mongodb://u:p@a,b:1/?w=2&w=3
  function Example(): Uri {
    Uri(Some((Ascii("u"), Ascii("p"))), [HostPort(Ascii("a"), None), HostPort(Ascii("b"), Some(1))], [],
        [Setting(Ascii("w"), Ascii("2")), Setting(Ascii("w"), Ascii("3"))])
  }

  lemma ExampleHosts()
    ensures PrintHosts(Example().hosts) == Ascii("a,b:1")
  {
    assert Decimal.Digits(1) == [1];
    var hosts := Example().hosts;
    assert hosts[1..] == [hosts[1]];
    assert PrintHosts([hosts[1]]) == Ascii("b:1");
  }

  lemma ExampleSettings()
    ensures PrintSetting(Example().options[0]) == Ascii("w=2")
    ensures PrintSetting(Example().options[1]) == Ascii("w=3")
  {
  }

  lemma ExampleOptions()
    ensures PrintOptions(Example().options) == Ascii("w=2&w=3")
  {
    hide PrintSetting;
    var o := Example().options;
    ExampleSettings();
    assert o[1..] == [o[1]];
    assert PrintOptions([o[1]]) == PrintSetting(o[1]);
  }

  lemma ExampleTail()
    ensures PrintTail(Example()) == Ascii("/?w=2&w=3")
  {
    hide PrintOptions;
    ExampleOptions();
  }

  lemma ExamplePrints()
    ensures Print(Example()) == Ascii("mongodb://u:p@a,b:1/?w=2&w=3")
  {
    hide PrintHosts, PrintTail;
    ExampleHosts();
    ExampleTail();
    assert Ascii("a,b:1") + Ascii("/?w=2&w=3") == Ascii("a,b:1/?w=2&w=3");
  }

  lemma ExampleParts()
    ensures forall i :: 0 <= i < 2 ==> PlainHost(Example().hosts[i]) && PlainSetting(Example().options[i])
  {
    ExampleHostsArePlain();
    hide PlainHost;
  }

  lemma ExampleHostsArePlain()
    ensures PlainHost(Example().hosts[0]) && PlainHost(Example().hosts[1])
  {
  }

  lemma ExampleIsPlain()
    ensures PlainUri(Example())
  {
    hide PrintHosts, PrintTail, PlainHost, PlainSetting;
    ExampleParts();
  }

  lemma ExampleValues()
    ensures Is(Example().options[0], "w") && IsNumber(Example().options[0].value)
    ensures Is(Example().options[1], "w") && IsNumber(Example().options[1].value)
    ensures Atoi(Example().options[0].value) == 2 && Atoi(Example().options[1].value) == 3
  {
    assert Decimal.Digits(2) == [2] && Decimal.Digits(3) == [3];
    assert DecimalText(2) == Ascii("2") && DecimalText(3) == Ascii("3");
    AtoiOfText(2);
    AtoiOfText(3);
    hide Atoi;
  }

  lemma ExampleMeans()
    ensures WOf(Example().options) == 3 && LastName(Example().options) == None
  {
    var o := Example().options;
    ExampleValues();
    NamesDiffer(o[0]);
    NamesDiffer(o[1]);
    hide Is, IsNumber, Atoi;
    assert o[..1] == [o[0]] && [o[0]][..0] == [];
  }

  lemma ExampleIsStored(c: Config)
    ensures Fold(c, Example().options).Stored?
  {
    var o := Example().options;
    ExampleValues();
    NamesDiffer(o[0]);
    NamesDiffer(o[1]);
    RefusedIff(c, o[0]);
    hide Is, IsNumber, ParseMode, Atoi, StoreOption, HasShape, IsTrue;
    var r := StoreOption(c, o[0].name, o[0].value);
    RefusedIff(r.config, o[1]);
    assert o[1..] == [o[1]] && [o[1]][1..] == [];
  }

  lemma ExampleIsRead()
    ensures var r := Parse(Ascii("mongodb://u:p@a,b:1/?w=2&w=3"));
            && r.Stored? && r.config.w == 3
            && r.config.servers
               == [ServerDef(Ascii("a"), 27017, None, Some(Ascii("admin")), Some(Ascii("u")), Some(Ascii("p"))),
                   ServerDef(Ascii("b"), 1, None, Some(Ascii("admin")), Some(Ascii("u")), Some(Ascii("p")))]
  {
    hide Fold, Parse, Print, PlainUri, Is, ParseMode, Atoi, SameIgnoringCase, ModeOf, WOf, Last, LastName, Ascii;
    hide CurrentName, AsksForSet, TagSetsOf, WStringOf, NumberOf;
    var u := Example();
    ExamplePrints();
    ExampleIsPlain();
    ParseUndoesPrint(u);
    ExampleIsStored(INITIAL.(servers := Defs(SeedsOf(u.hosts)), conType := Multiple));
    OptionsOfUri(u);
    ServersOfUri(u);
    ExampleMeans();
  }
}
