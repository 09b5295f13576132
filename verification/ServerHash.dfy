// The text that identifies a connection: HOST:PORT;SET;CREDENTIALS;PID.
module ServerHash {
  import opened Bytes
  import opened Document
  import opened Text
  import opened Hex
  import opened Lists
  import Md5

  type Pid = p: Int32 | 0 < p witness 1

  datatype ServerDef = ServerDef(host: Text, port: Int32, replSet: Option<Text>,
                                 db: Option<Text>, username: Option<Text>, password: Option<Text>)

  // What can be read back from a hash.
  datatype Parts = Parts(host: Text, port: Int32, replSet: Option<Text>, creds: Option<Creds>, pid: Int32)

  datatype Creds = Creds(database: Text, username: Text, authHash: Text)

  const NO_CREDENTIALS: Byte := 'X' as int

  // ----- Hashed passwords -----

  // mongo_util_md5_hex
  method Md5Hex(s: seq<Byte>) returns (r: Text)
    ensures r == Digits(Md5.Hash(s))
  {
    hide Md5.Hash;
    var digest := Md5.HashPieces([s]);
    assert Flatten([s]) == s by {
      assert [s][1..] == [];
    }
    r := [];
    for i := 0 to |digest|
      invariant r == Digits(digest[..i])
    {
      assert digest[..i + 1][..i] == digest[..i];
      r := r + [HexDigit(digest[i] / 16), HexDigit(digest[i] % 16)];
    }
    assert digest[..|digest|] == digest;
  }

  ghost function HashedPassword(username: Text, password: Text, pid: Pid): (r: Text)
    ensures SEMICOLON !in r && SLASH !in r
  {
    Digits(Md5.Hash(DecimalText(pid) + password + username))
  }

  // mongo_server_create_hashed_password
  method CreateHashedPassword(username: Text, password: Text, pid: Pid) returns (r: Text)
    ensures r == HashedPassword(username, password, pid)
  {
    r := Md5Hex(DecimalText(pid) + password + username);
  }

  // ----- Printing -----

  predicate HasCredentials(d: ServerDef) {
    d.db.Some? && d.username.Some? && d.password.Some?
  }

  ghost function PartsOf(d: ServerDef, pid: Pid): Parts {
    Parts(d.host, d.port, d.replSet,
          if HasCredentials(d)
          then Some(Creds(d.db.value, d.username.value, HashedPassword(d.username.value, d.password.value, pid)))
          else None,
          pid)
  }

  function SetText(replSet: Option<Text>): Text {
    if replSet.Some? then replSet.value else [DASH]
  }

  function CredsText(creds: Option<Creds>, rest: Text): Text {
    if creds.None? then [NO_CREDENTIALS] + rest
    else creds.value.database + ([SLASH] + (creds.value.username + ([SLASH] + (creds.value.authHash + rest))))
  }

  function HashOf(p: Parts): Text {
    p.host + ([COLON] + (DecimalText(p.port) + ([SEMICOLON] + (SetText(p.replSet) + ([SEMICOLON]
    + CredsText(p.creds, [SEMICOLON] + DecimalText(p.pid)))))))
  }

  // The hash of a server definition in this process.
  ghost function HashFor(d: ServerDef, pid: Pid): Text {
    HashOf(PartsOf(d, pid))
  }

  lemma Regroup(host: Text, port: Text, replSet: Text, rest: Text)
    ensures (host + [COLON] + port + [SEMICOLON]) + replSet + [SEMICOLON] + rest
         == host + ([COLON] + (port + ([SEMICOLON] + (replSet + ([SEMICOLON] + rest)))))
  {
    Assoc(host + [COLON] + port + [SEMICOLON] + replSet, [SEMICOLON], rest);
    Assoc(host + [COLON] + port + [SEMICOLON], replSet, [SEMICOLON] + rest);
    Assoc(host + [COLON] + port, [SEMICOLON], replSet + ([SEMICOLON] + rest));
    Assoc(host + [COLON], port, [SEMICOLON] + (replSet + ([SEMICOLON] + rest)));
    Assoc(host, [COLON], port + ([SEMICOLON] + (replSet + ([SEMICOLON] + rest))));
  }

  lemma RegroupCreds(before: Text, db: Text, username: Text, hash: Text, rest: Text)
    ensures before + db + [SLASH] + username + [SLASH] + hash + [SEMICOLON] + rest
         == before + (db + ([SLASH] + (username + ([SLASH] + (hash + ([SEMICOLON] + rest))))))
  {
    var r1 := [SEMICOLON] + rest;
    var r2 := [SLASH] + (hash + r1);
    Assoc(before + db + [SLASH] + username + [SLASH] + hash, [SEMICOLON], rest);
    Assoc(before + db + [SLASH] + username + [SLASH], hash, r1);
    Assoc(before + db + [SLASH] + username, [SLASH], hash + r1);
    Assoc(before + db + [SLASH], username, r2);
    Assoc(before + db, [SLASH], username + r2);
    Assoc(before, db, [SLASH] + (username + r2));
  }

  // mongo_server_create_hash
  method CreateHash(d: ServerDef, pid: Pid) returns (tmp: Text)
    ensures tmp == HashFor(d, pid)
  {
    hide Digits, DecimalText, Md5.Hash;
    tmp := d.host + [COLON] + DecimalText(d.port) + [SEMICOLON];
    if d.replSet.Some? {
      tmp := tmp + d.replSet.value + [SEMICOLON];
    } else {
      tmp := tmp + [DASH] + [SEMICOLON];
    }
    ghost var creds := CredsText(PartsOf(d, pid).creds, [SEMICOLON] + DecimalText(pid));
    Regroup(d.host, DecimalText(d.port), SetText(d.replSet), creds);
    ghost var before := tmp;
    assert before + creds == HashOf(PartsOf(d, pid));
    if d.db.Some? && d.username.Some? && d.password.Some? {
      var hash := CreateHashedPassword(d.username.value, d.password.value, pid);
      tmp := tmp + d.db.value + [SLASH] + d.username.value + [SLASH] + hash + [SEMICOLON];
      RegroupCreds(before, d.db.value, d.username.value, hash, DecimalText(pid));
    } else {
      tmp := tmp + [NO_CREDENTIALS] + [SEMICOLON];
      Assoc(before + [NO_CREDENTIALS], [SEMICOLON], DecimalText(pid));
      Assoc(before, [NO_CREDENTIALS], [SEMICOLON] + DecimalText(pid));
    }
    tmp := tmp + DecimalText(pid);
  }

  // ----- Reading back -----

  // The last fields of a hash. None where the code would follow a null pointer.
  function SplitCreds(s: Text): Option<(Option<Creds>, Int32)> {
    var semicolon := Cut(s, SEMICOLON);
    if semicolon.None? then None
    else if s[0] == NO_CREDENTIALS then Some((None, Atoi(semicolon.value.1)))
    else
      var first := Cut(s, SLASH);
      if first.None? then None else
      var second := Cut(first.value.1, SLASH);
      if second.None? then None else
      var start, end := |first.value.0| + 1 + |second.value.0| + 1, |semicolon.value.0|;
      Some((Some(Creds(first.value.0, second.value.0, Slice(s, start, end))), Atoi(semicolon.value.1)))
  }

  // The fields in front of the credentials, and the rest of the hash.
  datatype Front = Front(host: Text, port: Int32, replSet: Option<Text>, rest: Text)

  // The set name and the rest, behind the host.
  function SplitSet(s: Text): Option<(Option<Text>, Text)> {
    var port := Cut(s, SEMICOLON);
    if port.None? then None else
    var replSet := Cut(port.value.1, SEMICOLON);
    if replSet.None? then None else
    Some((if port.value.1[0] == DASH then None else Some(replSet.value.0), replSet.value.1))
  }

  // None where the code would follow a null pointer before it reaches the
  // credentials.
  function SplitFront(hash: Text): Option<Front> {
    var colon := Cut(hash, COLON);
    if colon.None? then None else
    var replSet := SplitSet(colon.value.1);
    if replSet.None? then None else
    Some(Front(colon.value.0, Atoi(colon.value.1), replSet.value.0, replSet.value.1))
  }

  function Split(hash: Text): Option<Parts> {
    var front := SplitFront(hash);
    if front.None? then None else
    var creds := SplitCreds(front.value.rest);
    if creds.None? then None else
    Some(Parts(front.value.host, front.value.port, front.value.replSet, creds.value.0, creds.value.1))
  }

  // mongo_server_split_hash, with a pointer moving over the text.
  method SplitHash(hash: Text) returns (r: Option<Parts>)
    ensures r == Split(hash)
  {
    hide SplitFront, SplitCreds;
    var front, ptr := FindFront(hash);
    if front.None? {
      return None;
    }
    var creds := SplitLast(hash, ptr);
    if creds.None? {
      return None;
    }
    r := Some(Parts(front.value.host, front.value.port, front.value.replSet, creds.value.0, creds.value.1));
  }

  // Its first half, all that a caller reaches who asks for the set name alone.
  method FindFront(hash: Text) returns (r: Option<Front>, rest: nat)
    ensures r == SplitFront(hash)
    ensures rest <= |hash| && (r.Some? ==> r.value.rest == hash[rest..])
  {
    hide Cut, Find, Atoi, SplitSet;
    rest := 0;
    var colon := Find(hash, 0, COLON);
    FindIsCut(hash, 0, COLON);
    assert hash[0..] == hash;
    if colon.None? {
      return None, rest;
    }
    var host, port := hash[..colon.value], Atoi(hash[colon.value + 1..]);
    var replSet := FindSet(hash, colon.value);
    if replSet.None? {
      return None, rest;
    }
    rest := replSet.value.1;
    r := Some(Front(host, port, replSet.value.0, hash[rest..]));
  }

  method FindSet(hash: Text, colon: nat) returns (r: Option<(Option<Text>, nat)>)
    requires colon < |hash| && hash[colon] == COLON
    ensures r.Some? ==> r.value.1 <= |hash|
    ensures SplitSet(hash[colon + 1..]) == if r.None? then None else Some((r.value.0, hash[r.value.1..]))
  {
    hide Cut, Find;
    FindPast(hash, colon, SEMICOLON);
    FindIsCut(hash, colon + 1, SEMICOLON);
    var ptr := Find(hash, colon, SEMICOLON);
    if ptr.None? {
      return None;
    }
    var start := ptr.value + 1;
    var end := Find(hash, start, SEMICOLON);
    FindIsCut(hash, start, SEMICOLON);
    if end.None? {
      return None;
    }
    r := Some((if hash[start] == DASH then None else Some(hash[start..end.value]), end.value + 1));
  }

  lemma FindPast(s: Text, p: nat, c: Byte)
    requires p < |s| && s[p] != c
    ensures Find(s, p, c) == Find(s, p + 1, c)
  {
  }

  lemma SliceFrom(s: Text, p: nat, start: nat, end: nat)
    requires p <= start <= |s| && p <= end <= |s|
    ensures Slice(s, start, end) == Slice(s[p..], start - p, end - p)
  {
  }

  method SplitLast(hash: Text, ptr: nat) returns (r: Option<(Option<Creds>, Int32)>)
    requires ptr <= |hash|
    ensures r == SplitCreds(hash[ptr..])
  {
    hide Cut, Find, Atoi, Slice;
    var semicolon := Find(hash, ptr, SEMICOLON);
    FindIsCut(hash, ptr, SEMICOLON);
    if semicolon.None? {
      return None;
    }
    var pid := Atoi(hash[semicolon.value + 1..]);
    if hash[ptr] == NO_CREDENTIALS {
      return Some((None, pid));
    }
    var creds := SplitNames(hash, ptr, semicolon.value, pid);
    r := if creds.None? then None else Some((creds, pid));
  }

  method SplitNames(hash: Text, ptr: nat, semicolon: nat, ghost pid: Int32) returns (r: Option<Creds>)
    requires ptr <= semicolon < |hash| && hash[ptr] != NO_CREDENTIALS
    requires Cut(hash[ptr..], SEMICOLON) == Some((hash[ptr..semicolon], hash[semicolon + 1..]))
    requires pid == Atoi(hash[semicolon + 1..])
    ensures SplitCreds(hash[ptr..]) == if r.None? then None else Some((r, pid))
  {
    hide Cut, Find, Atoi, Slice, SplitCreds;
    var slash := Find(hash, ptr, SLASH);
    if slash.None? {
      NoNamesFound(hash, ptr);
      return None;
    }
    var next := Find(hash, slash.value + 1, SLASH);
    if next.None? {
      NoNamesFound(hash, ptr);
      return None;
    }
    NamesFound(hash, ptr, slash.value, next.value, semicolon);
    r := Some(Creds(hash[ptr..slash.value], hash[slash.value + 1..next.value], Slice(hash, next.value + 1, semicolon)));
  }

  lemma NoNames(s: Text)
    requires s != [] && s[0] != NO_CREDENTIALS
    requires Cut(s, SLASH).None? || Cut(Cut(s, SLASH).value.1, SLASH).None?
    ensures SplitCreds(s) == None
  {
    hide Cut, Atoi, Slice;
  }

  lemma NoNamesFound(hash: Text, ptr: nat)
    requires ptr < |hash| && hash[ptr] != NO_CREDENTIALS
    requires var slash := Find(hash, ptr, SLASH); slash.None? || Find(hash, slash.value + 1, SLASH).None?
    ensures SplitCreds(hash[ptr..]) == None
  {
    hide Cut, Find, SplitCreds;
    FindIsCut(hash, ptr, SLASH);
    var slash := Find(hash, ptr, SLASH);
    if slash.Some? {
      FindIsCut(hash, slash.value + 1, SLASH);
    }
    NoNames(hash[ptr..]);
  }

  lemma CutFound(hash: Text, p: nat, slash: nat)
    requires p <= |hash| && Find(hash, p, SLASH) == Some(slash)
    ensures p <= slash < |hash| && Cut(hash[p..], SLASH) == Some((hash[p..slash], hash[slash + 1..]))
  {
    hide Cut;
    FindIsCut(hash, p, SLASH);
  }

  lemma NamesFound(hash: Text, ptr: nat, slash: nat, next: nat, semicolon: nat)
    requires ptr <= semicolon < |hash| && ptr <= slash < next < |hash| && hash[ptr] != NO_CREDENTIALS
    requires Cut(hash[ptr..], SEMICOLON) == Some((hash[ptr..semicolon], hash[semicolon + 1..]))
    requires Find(hash, ptr, SLASH) == Some(slash) && Find(hash, slash + 1, SLASH) == Some(next)
    ensures SplitCreds(hash[ptr..])
         == Some((Some(Creds(hash[ptr..slash], hash[slash + 1..next], Slice(hash, next + 1, semicolon))),
                  Atoi(hash[semicolon + 1..])))
  {
    hide Cut, Find, Atoi, Slice, SplitCreds;
    CutFound(hash, ptr, slash);
    CutFound(hash, slash + 1, next);
    NamesAt(hash, ptr, slash, next, semicolon);
  }

  lemma NamesAt(hash: Text, ptr: nat, slash: nat, next: nat, semicolon: nat)
    requires ptr <= semicolon < |hash| && ptr <= slash < next < |hash| && hash[ptr] != NO_CREDENTIALS
    requires Cut(hash[ptr..], SEMICOLON) == Some((hash[ptr..semicolon], hash[semicolon + 1..]))
    requires Cut(hash[ptr..], SLASH) == Some((hash[ptr..slash], hash[slash + 1..]))
    requires Cut(hash[slash + 1..], SLASH) == Some((hash[slash + 1..next], hash[next + 1..]))
    ensures SplitCreds(hash[ptr..])
         == Some((Some(Creds(hash[ptr..slash], hash[slash + 1..next], Slice(hash, next + 1, semicolon))),
                  Atoi(hash[semicolon + 1..])))
  {
    hide Cut, Atoi, Slice, SplitCreds;
    SliceFrom(hash, ptr, next + 1, semicolon);
    SplitCredsAt(hash[ptr..], hash[ptr..slash], hash[slash + 1..], hash[semicolon + 1..]);
  }

  // ----- When the parts survive -----

  // The fields that may hold delimiters do not hold those that end them.
  predicate PlainCreds(c: Creds) {
    && SLASH !in c.database && SEMICOLON !in c.database
    && SLASH !in c.username && SEMICOLON !in c.username
    && (c.database == [] || c.database[0] != NO_CREDENTIALS)
  }

  predicate Plain(p: Parts) {
    && COLON !in p.host
    && (p.replSet.Some? ==>
          SEMICOLON !in p.replSet.value && (p.replSet.value == [] || p.replSet.value[0] != DASH))
    && (p.creds.Some? ==> PlainCreds(p.creds.value))
  }

  // What create_hash puts into the last fields: a hexadecimal digest.
  predicate Printed(p: Parts) {
    p.creds.Some? ==> SEMICOLON !in p.creds.value.authHash
  }

  lemma DecimalHasNo(n: int, rest: Text)
    ensures SEMICOLON !in DecimalText(n)
    ensures ([SEMICOLON] + rest)[0] == SEMICOLON && !IsDigit(SEMICOLON)
  {
    DecimalCharacters(n, SEMICOLON);
  }

  // Text that survives a cut at its end is text without the delimiter.
  lemma CutIff(a: Text, c: Byte, b: Text)
    ensures c !in a ==> Cut(a + ([c] + b), c) == Some((a, b))
    ensures c in a ==> Cut(a + ([c] + b), c).Some? && Cut(a + ([c] + b), c).value.0 != a
  {
    if c in a {
      CutInside(a, c, [c] + b);
      assert c !in Cut(a, c).value.0;
    } else {
      CutAt(a, c, b);
    }
  }

  lemma CredsAbsent(pid: Int32)
    ensures SplitCreds(CredsText(None, [SEMICOLON] + DecimalText(pid))) == Some((None, pid))
  {
    var s := [NO_CREDENTIALS] + ([SEMICOLON] + DecimalText(pid));
    CutAt([NO_CREDENTIALS], SEMICOLON, DecimalText(pid));
    AtoiOfText(pid);
    hide Cut, Atoi, DecimalText;
  }

  // Splitting the last fields, told by where the delimiters are.
  lemma SplitCredsAt(s: Text, db: Text, rest: Text, pid: Text)
    requires Cut(s, SLASH) == Some((db, rest)) && Cut(s, SEMICOLON).Some? && Cut(s, SEMICOLON).value.1 == pid
    requires s != [] && s[0] != NO_CREDENTIALS && Cut(rest, SLASH).Some?
    requires |db| + 1 + |Cut(rest, SLASH).value.0| + 1 <= |s|
    ensures var username := Cut(rest, SLASH).value.0;
            SplitCreds(s) == Some((Some(Creds(db, username, Slice(s, |db| + 1 + |username| + 1,
                                                                  |Cut(s, SEMICOLON).value.0|))), Atoi(pid)))
  {
    hide Cut, Atoi, Slice;
  }

  // Whatever is read for the names comes from the first two cuts.
  lemma SplitCredsNames(s: Text)
    requires SplitCreds(s).Some? && SplitCreds(s).value.0.Some?
    ensures Cut(s, SLASH).Some? && Cut(Cut(s, SLASH).value.1, SLASH).Some?
    ensures SplitCreds(s).value.0.value.database == Cut(s, SLASH).value.0
    ensures SplitCreds(s).value.0.value.username == Cut(Cut(s, SLASH).value.1, SLASH).value.0
    ensures s[0] != NO_CREDENTIALS
  {
    hide Cut, Atoi;
  }

  lemma CredsLost(s: Text, c: Creds, pid: Int32)
    requires s != [] && Cut(s, SLASH).Some?
    requires s[0] == NO_CREDENTIALS || Cut(s, SLASH).value.0 != c.database
          || Cut(Cut(s, SLASH).value.1, SLASH).None?
          || Cut(Cut(s, SLASH).value.1, SLASH).value.0 != c.username
    ensures SplitCreds(s) != Some((Some(c), pid))
  {
    hide Cut, Atoi, SplitCreds;
    if SplitCreds(s).Some? && SplitCreds(s).value.0.Some? {
      SplitCredsNames(s);
    }
  }

  // The line of credentials in a hash.
  lemma CredsLine(c: Creds, end: Text)
    ensures CredsText(Some(c), end) == c.database + ([SLASH] + (c.username + ([SLASH] + (c.authHash + end))))
  {
  }

  lemma CredsSurvive(c: Creds, pid: Int32)
    requires SEMICOLON !in c.authHash
    ensures SplitCreds(CredsText(Some(c), [SEMICOLON] + DecimalText(pid))) == Some((Some(c), pid))
       <==> PlainCreds(c)
  {
    var end := [SEMICOLON] + DecimalText(pid);
    hide Cut, Atoi, DecimalText, CredsText, SplitCreds;
    var tail := [SLASH] + (c.authHash + end);
    var rest := c.username + tail;
    var s := CredsText(Some(c), end);
    CredsLine(c, end);
    StartOf(c.database, rest);
    CutIff(c.database, SLASH, rest);
    CutIff(c.username, SLASH, c.authHash + end);
    if SLASH in c.database || SLASH in c.username || s[0] == NO_CREDENTIALS {
      CredsLost(s, c, pid);
    } else {
      CredsKept(c, s, rest, tail, pid);
    }
  }

  lemma CredsKept(c: Creds, s: Text, rest: Text, tail: Text, pid: Int32)
    requires SEMICOLON !in c.authHash
    requires s == CredsText(Some(c), [SEMICOLON] + DecimalText(pid)) && s != [] && s[0] != NO_CREDENTIALS
    requires Cut(s, SLASH) == Some((c.database, rest)) && Cut(rest, SLASH).Some?
    requires Cut(rest, SLASH).value.0 == c.username
    ensures SplitCreds(s) == Some((Some(c), pid)) <==> SEMICOLON !in c.database && SEMICOLON !in c.username
  {
    hide Cut, Atoi, DecimalText, CredsText, SplitCreds, Slice;
    AuthHashSurvives(c, pid);
    SplitCredsAt(s, c.database, rest, Cut(s, SEMICOLON).value.1);
  }

  lemma StartOf(db: Text, rest: Text)
    ensures (db + ([SLASH] + rest))[0] == if db == [] then SLASH else db[0]
  {
  }

  // The semicolon that ends the digest is found unless an earlier field has one.
  lemma AuthHashSurvives(c: Creds, pid: Int32)
    requires SEMICOLON !in c.authHash
    ensures var s := CredsText(Some(c), [SEMICOLON] + DecimalText(pid));
            var semicolon := Cut(s, SEMICOLON);
            var start := |c.database| + 1 + |c.username| + 1;
            && start <= |s|
            && semicolon.Some?
            && if SEMICOLON in c.database || SEMICOLON in c.username
               then Slice(s, start, |semicolon.value.0|) != c.authHash
               else Slice(s, start, |semicolon.value.0|) == c.authHash && Atoi(semicolon.value.1) == pid
  {
    var names := c.database + ([SLASH] + (c.username + [SLASH]));
    AtoiOfText(pid);
    var text := DecimalText(pid);
    NamesThenHash(c, [SEMICOLON] + text);
    hide Atoi, DecimalText, CredsText, Cut, Slice;
    EndOfHash(names, c.authHash, text);
    assert SEMICOLON in names <==> SEMICOLON in c.database || SEMICOLON in c.username;
  }

  lemma NamesThenHash(c: Creds, tail: Text)
    ensures CredsText(Some(c), tail) == (c.database + ([SLASH] + (c.username + [SLASH]))) + (c.authHash + tail)
  {
    Assoc(c.database, [SLASH] + (c.username + [SLASH]), c.authHash + tail);
    Assoc([SLASH], c.username + [SLASH], c.authHash + tail);
    Assoc(c.username, [SLASH], c.authHash + tail);
  }

  lemma EndOfHash(names: Text, authHash: Text, pid: Text)
    requires SEMICOLON !in authHash
    ensures var s := names + (authHash + ([SEMICOLON] + pid));
            var semicolon := Cut(s, SEMICOLON);
            && semicolon.Some?
            && var end := |semicolon.value.0|;
               if SEMICOLON in names
               then Slice(s, |names|, end) != authHash
               else Slice(s, |names|, end) == authHash && semicolon.value.1 == pid
  {
    var tail := [SEMICOLON] + pid;
    var s := names + (authHash + tail);
    if SEMICOLON in names {
      CutInside(names, SEMICOLON, authHash + tail);
      assert s[|names|..] == authHash + tail;
      assert |authHash + tail| > |authHash|;
    } else {
      Assoc(names, authHash, tail);
      CutAt(names + authHash, SEMICOLON, pid);
    }
  }

  // Splitting a hash, told by its cuts.
  lemma SplitAt(hash: Text, host: Text, portRest: Text, port: Text, setRest: Text, replSet: Text, rest: Text)
    requires Cut(hash, COLON) == Some((host, portRest)) && Cut(portRest, SEMICOLON) == Some((port, setRest))
    requires setRest != [] && Cut(setRest, SEMICOLON) == Some((replSet, rest))
    ensures Split(hash)
         == if SplitCreds(rest).None? then None
            else Some(Parts(host, Atoi(portRest), if setRest[0] == DASH then None else Some(replSet),
                            SplitCreds(rest).value.0, SplitCreds(rest).value.1))
  {
    hide Cut, Atoi, SplitCreds;
  }

  lemma SplitNothing(hash: Text)
    requires Cut(hash, COLON).Some?
    ensures Split(hash).Some? ==> Split(hash).value.host == Cut(hash, COLON).value.0
  {
    hide Cut, Atoi, SplitCreds;
  }

  lemma StartOfSet(replSet: Option<Text>, rest: Text)
    ensures var s := SetText(replSet) + ([SEMICOLON] + rest);
            && s != []
            && (s[0] == DASH <==> replSet.None? || (replSet.value != [] && replSet.value[0] == DASH))
  {
  }

  // split_hash undoes create_hash exactly for plain fields.
  lemma SplitUndoesCreate(p: Parts)
    requires Printed(p)
    ensures Split(HashOf(p)) == Some(p) <==> Plain(p)
  {
    var end := [SEMICOLON] + DecimalText(p.pid);
    var rest := CredsText(p.creds, end);
    var setRest := SetText(p.replSet) + ([SEMICOLON] + rest);
    var portRest := DecimalText(p.port) + ([SEMICOLON] + setRest);
    CutIff(p.host, COLON, portRest);
    DecimalHasNo(p.port, setRest);
    CutIff(DecimalText(p.port), SEMICOLON, setRest);
    AtoiOfDecimal(p.port, [SEMICOLON] + setRest);
    CutIff(SetText(p.replSet), SEMICOLON, rest);
    StartOfSet(p.replSet, rest);
    var hash := HashOf(p);
    assert hash == p.host + ([COLON] + portRest);
    CredsOptional(p.creds, p.pid);
    hide Cut, Atoi, DecimalText, CredsText, SplitCreds, PlainCreds, Split, HashOf;
    if COLON in p.host {
      SplitNothing(hash);
    } else {
      var replSet := Cut(setRest, SEMICOLON).value;
      SplitAt(hash, p.host, portRest, DecimalText(p.port), setRest, replSet.0, replSet.1);
      SetSurvives(p.replSet, replSet.0, setRest);
    }
  }

  lemma SetSurvives(replSet: Option<Text>, cut: Text, setRest: Text)
    requires setRest != []
    requires setRest[0] == DASH <==> replSet.None? || (replSet.value != [] && replSet.value[0] == DASH)
    requires SEMICOLON in SetText(replSet) ==> cut != SetText(replSet)
    requires SEMICOLON !in SetText(replSet) ==> cut == SetText(replSet)
    ensures (if setRest[0] == DASH then None else Some(cut)) == replSet
       <==> (replSet.Some? ==> SEMICOLON !in replSet.value && (replSet.value == [] || replSet.value[0] != DASH))
  {
  }

  lemma CredsOptional(creds: Option<Creds>, pid: Int32)
    requires creds.Some? ==> SEMICOLON !in creds.value.authHash
    ensures SplitCreds(CredsText(creds, [SEMICOLON] + DecimalText(pid))) == Some((creds, pid))
       <==> (creds.Some? ==> PlainCreds(creds.value))
  {
    if creds.Some? {
      CredsSurvive(creds.value, pid);
    } else {
      CredsAbsent(pid);
    }
  }

  // The hash of a server definition gives back its fields exactly when they
  // hold no delimiter, the set name does not start with a dash and the database
  // not with the placeholder for credentials.
  lemma HashRoundTrip(d: ServerDef, pid: Pid)
    ensures Split(HashOf(PartsOf(d, pid))) == Some(PartsOf(d, pid)) <==> Plain(PartsOf(d, pid))
  {
    SplitUndoesCreate(PartsOf(d, pid));
  }

  // Two definitions with the same hash agree on all that can be read back.
  lemma HashIsInjective(d: ServerDef, pid: Pid, d': ServerDef, pid': Pid)
    requires Plain(PartsOf(d, pid)) && Plain(PartsOf(d', pid'))
    requires HashOf(PartsOf(d, pid)) == HashOf(PartsOf(d', pid'))
    ensures PartsOf(d, pid) == PartsOf(d', pid')
  {
    HashRoundTrip(d, pid);
    HashRoundTrip(d', pid');
    hide PartsOf, HashOf, Split, Plain;
  }

  // So their passwords have the same digest, together with the process id in front
  // and the user behind.
  lemma HashTellsPassword(d: ServerDef, pid: Pid, d': ServerDef, pid': Pid)
    requires Plain(PartsOf(d, pid)) && Plain(PartsOf(d', pid'))
    requires HashFor(d, pid) == HashFor(d', pid') && HasCredentials(d)
    ensures HasCredentials(d') && d'.username == d.username && pid' == pid
    ensures Md5.Hash(DecimalText(pid) + d.password.value + d.username.value)
         == Md5.Hash(DecimalText(pid) + d'.password.value + d.username.value)
  {
    HashIsInjective(d, pid, d', pid');
    hide HashOf, Plain, Md5.Hash, DecimalText, Digits;
    DigitsAreInjective(Md5.Hash(DecimalText(pid) + d.password.value + d.username.value),
                       Md5.Hash(DecimalText(pid) + d'.password.value + d.username.value));
  }

  lemma NumberTexts()
    ensures DecimalText(27017) == Ascii("27017") && DecimalText(7) == Ascii("7")
  {
    assert Decimal.Digits(27) == [2, 7];
    assert Decimal.Digits(270) == [2, 7, 0];
    assert Decimal.Digits(2701) == [2, 7, 0, 1];
    assert Decimal.Digits(27017) == [2, 7, 0, 1, 7];
  }

  // The text of a hash: bare, with a set name, and with credentials.
  lemma BareText()
    ensures HashFor(ServerDef(Ascii("a"), 27017, None, None, None, None), 7) == Ascii("a:27017;-;X;7")
  {
    NumberTexts();
    hide DecimalText;
  }

  lemma SetNameText()
    ensures HashFor(ServerDef(Ascii("a"), 27017, Some(Ascii("rs")), None, None, None), 7) == Ascii("a:27017;rs;X;7")
  {
    NumberTexts();
    hide DecimalText;
  }

  lemma CredentialsText()
    ensures HashFor(ServerDef(Ascii("a"), 27017, None, Some(Ascii("db")), Some(Ascii("me")), Some(Ascii("pw"))), 7)
         == Ascii("a:27017;-;db/me/") + Digits(Md5.Hash(Ascii("7pwme"))) + Ascii(";7")
  {
    hide Md5.Hash, Digits;
    NumberTexts();
    hide DecimalText;
    assert Ascii("7pwme") == Ascii("7") + Ascii("pw") + Ascii("me");
    Joined(Digits(Md5.Hash(Ascii("7pwme"))));
  }

  lemma Joined(digest: Text)
    ensures Ascii("a") + ([COLON] + (Ascii("27017") + ([SEMICOLON] + ([DASH] + ([SEMICOLON]
            + (Ascii("db") + ([SLASH] + (Ascii("me") + ([SLASH] + (digest + ([SEMICOLON] + Ascii("7"))))))))))))
         == Ascii("a:27017;-;db/me/") + digest + Ascii(";7")
  {
    var front := Ascii("a") + [COLON] + Ascii("27017") + [SEMICOLON] + [DASH] + [SEMICOLON] + Ascii("db") + [SLASH]
                 + Ascii("me") + [SLASH];
    assert front == Ascii("a:27017;-;db/me/");
    assert [SEMICOLON] + Ascii("7") == Ascii(";7");
  }

  // The address alone needs no more than host names without a colon.
  lemma AddressIsInjective(p: Parts, p': Parts)
    requires COLON !in p.host && COLON !in p'.host && HashOf(p) == HashOf(p')
    ensures p.host == p'.host && p.port == p'.port
  {
    AddressOf(p);
    AddressOf(p');
  }

  lemma AddressOf(p: Parts)
    requires COLON !in p.host
    ensures var colon := Cut(HashOf(p), COLON);
            colon.Some? && colon.value.0 == p.host && Atoi(colon.value.1) == p.port
  {
    var rest := SetText(p.replSet) + ([SEMICOLON] + CredsText(p.creds, [SEMICOLON] + DecimalText(p.pid)));
    CutAt(p.host, COLON, DecimalText(p.port) + ([SEMICOLON] + rest));
    DecimalHasNo(p.port, rest);
    AtoiOfDecimal(p.port, [SEMICOLON] + rest);
    hide Cut, Atoi, DecimalText, CredsText;
  }

  // ----- The pieces read straight from the text -----

  // mongo_server_hash_to_server
  function HashToServer(hash: Text): Option<Text> {
    var cut := Cut(hash, SEMICOLON);
    if cut.None? then None else Some(cut.value.0)
  }

  lemma HashToServerIff(p: Parts)
    ensures HashToServer(HashOf(p)) == Some(p.host + ([COLON] + DecimalText(p.port))) <==> SEMICOLON !in p.host
  {
    var rest := SetText(p.replSet) + ([SEMICOLON] + CredsText(p.creds, [SEMICOLON] + DecimalText(p.pid)));
    var address := p.host + ([COLON] + DecimalText(p.port));
    DecimalHasNo(p.port, rest);
    hide DecimalText, CredsText;
    assert HashOf(p) == address + ([SEMICOLON] + rest);
    CutIff(address, SEMICOLON, rest);
  }

  // mongo_server_hash_to_pid
  function HashToPid(hash: Text): Option<Int32> {
    var last := CutLast(hash, SEMICOLON);
    if last.None? then None else Some(Atoi(last.value.1))
  }

  lemma CredsEnd(creds: Option<Creds>, tail: Text) returns (names: Text)
    ensures CredsText(creds, tail) == names + tail
  {
    if creds.None? {
      names := [NO_CREDENTIALS];
    } else {
      var c := creds.value;
      NamesThenHash(c, tail);
      names := c.database + ([SLASH] + (c.username + [SLASH]));
      Assoc(names, c.authHash, tail);
      names := names + c.authHash;
    }
  }

  lemma HashEnd(p: Parts) returns (before: Text)
    ensures HashOf(p) == before + ([SEMICOLON] + DecimalText(p.pid))
  {
    var tail := [SEMICOLON] + DecimalText(p.pid);
    var names := CredsEnd(p.creds, tail);
    hide CredsText, DecimalText;
    before := p.host + [COLON] + DecimalText(p.port) + [SEMICOLON] + SetText(p.replSet) + [SEMICOLON];
    Regroup(p.host, DecimalText(p.port), SetText(p.replSet), names + tail);
    Assoc(before, names, tail);
    before := before + names;
  }

  // The process id is read back whatever the other fields hold.
  lemma HashToPidOfHash(p: Parts)
    ensures HashToPid(HashOf(p)) == Some(p.pid)
  {
    hide DecimalText, CredsText, Atoi, CutLast, HashOf;
    DecimalHasNo(p.pid, []);
    AtoiOfText(p.pid);
    var before := HashEnd(p);
    CutLastAt(before, SEMICOLON, DecimalText(p.pid));
  }
}
