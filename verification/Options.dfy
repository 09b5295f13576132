// The options of a connection string, stored one by one.
module Options {
  import opened Bytes
  import opened Text
  import opened ReadPreference
  import opened ServerHash

  datatype ConType = Standalone | Multiple | ReplSet

  // mongo_servers: the seeds and the settings of a client.
  datatype Config = Config(servers: seq<ServerDef>, conType: ConType, setName: Option<Text>,
                           connectTimeoutMS: int, socketTimeoutMS: int, w: int, wString: Option<Text>, wTimeout: int,
                           mode: Mode, tagsets: seq<TagSet>)

  // mongo_parse_init
  const INITIAL := Config([], Standalone, None, 0, -1, -1, None, -1, PrimaryOnly, [])

  // The new settings, an error code, or a string that the code would read past
  // its end.
  datatype Outcome = Stored(config: Config) | Error(code: int) | Overrun

  function LowerCase(c: Byte): Byte {
    if 'A' as int <= c <= 'Z' as int then c + 32 else c
  }

  // strcasecmp
  predicate SameIgnoringCase(s: Text, t: string) {
    |s| == |t| && forall i :: 0 <= i < |s| ==> LowerCase(s[i]) == LowerCase((t[i] as int) % 256)
  }

  function ForAll(servers: seq<ServerDef>, f: ServerDef -> ServerDef): seq<ServerDef> {
    seq(|servers|, i requires 0 <= i < |servers| => f(servers[i]))
  }

  // parse_read_preference_tags: "name:value" pairs, divided by commas. A colon
  // that comes after the comma is taken all the same.
  function ParseTags(value: Text): Option<TagSet> {
    if value == [] then Some([]) else ParseTagList(value)
  }

  function ParseTagList(start: Text): Option<TagSet>
    decreases |start|
  {
    var colon := Cut(start, COLON);
    var end := Cut(start, COMMA);
    if colon.None? then None
    else if end.None? then Some([colon.value.0 + [COLON] + colon.value.1])
    else
      var value := Slice(start, |colon.value.0| + 1, |end.value.0|);
      var rest := ParseTagList(end.value.1);
      if rest.None? then None else Some([colon.value.0 + [COLON] + value] + rest.value)
  }

  function ParseMode(value: Text): Option<Mode> {
    if SameIgnoringCase(value, "primary") then Some(PrimaryOnly)
    else if SameIgnoringCase(value, "primaryPreferred") then Some(PrimaryPreferred)
    else if SameIgnoringCase(value, "secondary") then Some(SecondaryOnly)
    else if SameIgnoringCase(value, "secondaryPreferred") then Some(SecondaryPreferred)
    else if SameIgnoringCase(value, "nearest") then Some(Nearest)
    else None
  }

  function StoreReplicaSet(c: Config, value: Text): Config {
    if value == [] then c.(setName := None)
    else if value == Ascii("1") then c.(setName := None, conType := ReplSet)
    else c.(setName := Some(value), conType := ReplSet,
            servers := ForAll(c.servers, (d: ServerDef) => d.(replSet := Some(value))))
  }

  function StoreSlaveOkay(c: Config, value: Text): Outcome {
    if SameIgnoringCase(value, "true") || (value != [] && value[0] == '1' as int) then
      if c.mode != PrimaryOnly || c.tagsets != [] then Error(3) else Stored(c.(mode := SecondaryPreferred))
    else Stored(c)
  }

  function StoreW(c: Config, value: Text): Outcome {
    if value != [] && (IsDigit(value[0]) || value[0] == DASH) then
      if Atoi(value) < 0 then Error(3) else Stored(c.(w := Atoi(value)))
    else Stored(c.(w := 1, wString := Some(value)))
  }

  // mongo_store_option: error 2 for an unknown option, 3 for a value that is not
  // allowed.
  function StoreOption(c: Config, name: Text, value: Text): Outcome {
    if SameIgnoringCase(name, "replicaSet") then Stored(StoreReplicaSet(c, value))
    else if SameIgnoringCase(name, "username") then
      Stored(c.(servers := ForAll(c.servers, (d: ServerDef) =>
        d.(username := Some(value), db := if d.db.None? then Some(Ascii("admin")) else d.db))))
    else if SameIgnoringCase(name, "password") then
      Stored(c.(servers := ForAll(c.servers, (d: ServerDef) => d.(password := Some(value)))))
    else if SameIgnoringCase(name, "db") then
      Stored(c.(servers := ForAll(c.servers, (d: ServerDef) => d.(db := Some(value)))))
    else if SameIgnoringCase(name, "slaveOkay") then StoreSlaveOkay(c, value)
    else if SameIgnoringCase(name, "readPreference") then
      var mode := ParseMode(value);
      if mode.None? then Error(3) else Stored(c.(mode := mode.value))
    else if SameIgnoringCase(name, "readPreferenceTags") then
      var tags := ParseTags(value);
      if tags.None? then Error(3) else Stored(c.(tagsets := c.tagsets + [tags.value]))
    else if SameIgnoringCase(name, "timeout") || SameIgnoringCase(name, "connectTimeoutMS") then
      Stored(c.(connectTimeoutMS := Atoi(value)))
    else if SameIgnoringCase(name, "socketTimeoutMS") then Stored(c.(socketTimeoutMS := Atoi(value)))
    else if SameIgnoringCase(name, "w") then StoreW(c, value)
    else if SameIgnoringCase(name, "wTimeout") || SameIgnoringCase(name, "wTimeoutMS") then
      Stored(c.(wTimeout := Atoi(value)))
    else Error(2)
  }

  // Options change no address and no number of servers.
  lemma StoreKeepsAddresses(c: Config, name: Text, value: Text)
    requires StoreOption(c, name, value).Stored?
    ensures SameAddresses(c.servers, StoreOption(c, name, value).config.servers)
  {
    hide SameIgnoringCase, ParseMode, ParseTags, Atoi;
  }

  predicate SameAddresses(a: seq<ServerDef>, b: seq<ServerDef>) {
    |a| == |b| && forall i :: 0 <= i < |a| ==> a[i].host == b[i].host && a[i].port == b[i].port
  }
}
