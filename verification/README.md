# A Dafny model of the MongoDB PHP driver's core

This project models five parts of the driver in Dafny and proves properties of the model. A part that the driver
codes as loops and in-place updates is coded the same way here (classes with `modifies` clauses, linked nodes,
buffers), and proved against functions that say what it means; the laws are then lemmas about those functions.

1. **BSON codec.** `Document` (PHP values and ordered hash tables), `Bson` (the byte format as functions),
   `BsonWriter` and `KeyPrinter` (the growing buffer and its serializers), `BsonReader` (the decoder loop),
   `BsonRoundTrip` and `Dates` (which documents survive), `BsonFormat` (the bytes in the terms of the specification),
   `MiniBson` (the second scanner, which follows length prefixes), `Utf8` (the shape test for strings), `Wire`,
   `Prepared`, `Received` and `Arrival` (wire messages, inserted documents and what becomes of them at the server),
   `Batches` (the documents of a reply).
2. **Connection manager.** `Manager` (the keyed list of connections), `SingleConnection` (one connection, for any
   client), `Network`, `Walk` and `Topology` (what hosts tell, what the walk over them keeps, replica-set discovery),
   `ReadPreference` and `Selection` (candidates, sorting, nearness, the random pick), `GetConnection` (discovery and
   selection in turn), `Callbacks` and `CallbackRuns` (the callbacks of a connection, in place and over whole runs),
   `ServerHash` (connection hashes), `Options`, `ConnString`, `UriSettings` and `UriOptions` (connection strings and
   what their settings come to).
3. **MD5.** `Md5Mix`, `Md5Block`, `Md5`: all sixty-four steps against the tables of RFC 1321, and the streaming
   context; `Md5Vector` computes a published digest.
4. **Cursors.** `Cursor` (iteration against any server that answers in batches) and `CursorList` (the shared list of
   open server cursors).
5. **GridFS.** `GridFs` (chunk arithmetic), `GridFsStore` (storing with rollback, loading) and `GridFsStream` (the
   seekable stream).

`MongoId` models object ids. `Bytes`, `Decimal`, `Division`, `Hex` and `Text` hold bytes, numbers, digits and C strings,
`Lists` the removal of one element from a list, and `Chains` the linked list that the manager and the callbacks share.

## How to read it

- Fixed settings: 8-byte longs, `native_long` on, `long_as_object` off, `cmd_char` `$`, `utf8` on, empty keys not
  allowed, little-endian machine. Doubles are opaque 64-bit patterns.
- An exception is a `None`, an error value or a false result. Where the C code would read past the end of its input or
  follow a null pointer, the result says so with a value of its own (`Malformed`, `Overrun`, `NullPointer`, `None`).
- The network, the server and `rand()` are parameters or nondeterministic choices. Allocation does not fail.
- What a definition that code and laws share means is stated once more in literal values: type numbers, field positions
  and operation numbers (`BsonFormat`, `Received`), kinds and flags (`ReadPreference.ModesReach`, `Network.KindIsTold`),
  option names (`UriOptions`), whole texts (`ServerHash`, `UriOptions.ExampleIsRead`) and a digest (`Md5Vector`).
- `hide` statements keep definitions out of proofs that do not need them.

## Where the code does not do what one might expect

- The index -2^63 is printed as `-(`, because it cannot be negated (`Document.KeyRoundTrip`).
- The scanner does not land behind an element that is a regular expression, which it steps over by only one of its two
  strings, code with scope or an unfinished id; behind every other one it does (`MiniBson.NextLandsIff`).
- An array element that is not a string repeats the string before it in the list of hosts (`MiniBson.CollectsIff`,
  `MiniBson.NumberRepeatsString`).
- Tags are matched by counting, which fails a connection with a repeated tag (`ReadPreference.CountsRightIff`).
- For a connection to several servers the comment at `mcon/manager.c:294-297` promises the nearest one; the sort
  still follows the client's own preference (`Selection.AlwaysNearIff`, `Selection.FarServer`).
- A client with credentials that meets a connection of its set made without them compares a null database name
  (`ReadPreference.SomeBreaksIff`, `ReadPreference.OtherClientBreaks`).
- A write is filtered by the client's tag sets for reading. It gets the primary exactly when the primary's tags meet one
  of them, or there is none (`GetConnection.GetReadWriteConnection`, `GetConnection.FailingWrite`).
- Discovery ends exactly when the servers do not lead to a circle of members that are listed under other names than
  their own (`Topology.ReplicaSet.ConnectAll`, `Topology.ReplicaSet.ConnectAllFor`, `Network.MisnamedIsCircular`); in
  such a circle it runs past the end of its array of 16 servers.
- With two primaries in reach, `secondaryPreferred` may pick one of them (`Selection.PrimaryDespiteSecondaryIff`,
  `Selection.PrimaryDespiteSecondary`).
- A cursor that was released from its connection keeps the pointer, so it can outlive the connection
  (`CallbackRuns.ReleasedCursorKeepsPointer`).
- A stream's chunk count is the floor of size by chunk size, not the ceiling its call to `ceil` suggests; a read at the
  very end then fails or returns 0 depending on the size (`GridFs.AvailableBounds`).
- Options named `username`, `password` and `db` in a connection string never take effect
  (`UriSettings.CredentialSettingIsLost`, `UriSettings.LostUsername`).
- `replicaSet=1` or an empty `replicaSet=` behind `replicaSet=name` clears the client's set name and leaves the name on
  its servers (`UriSettings.ServersAgreeIff`, `UriSettings.ClearedName`).
- In a set of tags a colon behind the first comma is taken for the first tag (`UriOptions.ColonBehindComma`).
- The scanner never finds a field of a type above 0x7F (`MiniBson.HighTypesAreNotFound`).
- A chunk size that is not positive stays in the file document, although the chunks have the default size, so that the
  file cannot be opened as a stream (`GridFsStore.OpenStored`).

## Model

| member | source | states |
|---|---|---|
| Document.KeyRoundTrip | bson.c:132-166 | a hash key printed as an element name and read back through the symbol table is the same key exactly when it is an index other than -2^63, or a NUL-free text that is not the decimal text of a long |
| Document.Update | bson.c:1247 | after a hash update the key holds the new value, the keys are the old ones and this one, and keys stay unique |
| Document.UpdateReplaces | bson.c:1247 | an update with an old key replaces its value where it stands |
| KeyPrinter.PrintDigits | bson.c:153-159 | the backward digit loop leaves the decimal text of a non-negative long in the 30-byte buffer without leaving it, and one wrong character for -2^63 |
| KeyPrinter.PrintIndex | bson.c:135-165 | the name built for an index is its decimal text, sign included |
| KeyPrinter.KeyName | bson.c:132-166 | every entry gets the name of its key |
| BsonWriter.Buffer.ResizeBuf | bson.c:327-341 | the requested bytes fit behind the write position, the allocation has not shrunk and holds every old byte |
| BsonWriter.Buffer.SerializeByte | bson.c:510-517 | one byte appended inside the allocation, nothing before it changed |
| BsonWriter.Buffer.SerializeBytes | bson.c:519-526 | the bytes appended inside the allocation, nothing before them changed |
| BsonWriter.Buffer.SerializeString | bson.c:528-538 | the string and its NUL appended, nothing before changed |
| BsonWriter.Buffer.SerializeInt | bson.c:540-550 | four little-endian bytes appended, even over a slot that was reserved past the end |
| BsonWriter.Buffer.SerializeLong | bson.c:552-578 | eight little-endian bytes appended; a double is written the same way |
| BsonWriter.Buffer.SerializeSize | bson.c:644-654 | the slot holds the byte count unless it is over 16,000,000, and no other byte changes |
| BsonWriter.Buffer.SerializeKey | bson.c:584-611 | fails exactly for an empty name, or a dotted one while preparing; else the name and its NUL |
| BsonWriter.Buffer.SerializeRegex | bson.c:400-408 | pattern and flags as two C strings |
| BsonWriter.Buffer.SerializeTimestamp | bson.c:499-508 | increment, then seconds |
| BsonWriter.Buffer.SerializeBin | bson.c:451-497 | length, kind and data, with the second length of kind 2 |
| BsonWriter.Buffer.SerializeScalar | bson.c:177-307 | the payload of a value that holds no document; fails exactly for a string that is not UTF-8 by shape |
| BsonWriter.Buffer.SerializeElement | bson.c:169-325 | appends exactly the bytes of the element as the pure encoder has them, or fails when it does; earlier bytes survive every reallocation |
| BsonWriter.Buffer.SerializeArray | bson.c:225-245 | the type byte corrected in place after counting makes the element the one of the pure encoder |
| BsonWriter.Buffer.SerializeCode | bson.c:419-441 | total size, code and scope, though the size slot is reserved without a space check |
| BsonWriter.Buffer.ReserveSlot | bson.c:90-99 | the length slot of a document lies inside the allocation |
| BsonWriter.Buffer.CloseSlot | bson.c:115 | the back-patched length is the number of bytes from the slot on |
| BsonWriter.Buffer.CloseDoc | bson.c:114-116 | closing zero and length, or a failure when a part failed or the whole is too large |
| BsonWriter.Buffer.SerializeList | bson.c:108 | the entries of a table in order, and how many of them continue the run of indexes |
| BsonWriter.Buffer.SerializeEntries | bson.c:101-112 | "_id" first while preparing, then the entries |
| BsonWriter.Buffer.ZvalToBson | bson.c:84-117 | the imperative encoder appends exactly what the pure encoder gives, or fails exactly when it does, and counts the list entries |
| BsonReader.BsonToZval | bson.c:865-1251 | the decoder loop computes the decoding function, errors included |
| BsonReader.ReadValue | bson.c:897-1245 | the switch over element types computes the decoding of one value |
| BsonReader.ReadScalar | bson.c:898-1212 | the cases that hold no document, each with its own reads and length checks, decode the value |
| BsonReader.ReadBin | bson.c:959-998 | binary data, with the second length of kind 2 taken when it is four less than the first |
| BsonRoundTrip.ArrayTypeIff | bson.c:237-242 | a nested array is typed 0x04 exactly when its keys are 0 to n-1 in order, else 0x03 |
| BsonFormat.ElementIs | bson.c:169-325 | an element is its type, its name with a NUL and its payload; the type's number tells the kind of value (0x03 an object, or an array that is no list; 0x04 a list), and no deprecated type is written |
| BsonFormat.PayloadIs | bson.c:177-307 | where each field of a value stands in its payload: lengths, increment before seconds, code before scope, the kind of binary data, milliseconds |
| BsonFormat.PayloadIsSomeIff | bson.c:177-307 | a value is encoded unless it is a string that is not UTF-8, or holds a document that is not encoded or makes it too large |
| BsonFormat.DocIs | bson.c:84-117 | a document counts its bytes in front and ends with a zero; it is encoded exactly when its elements are and it has at most 16,000,000 bytes |
| BsonFormat.UnknownIsSkipped | bson.c:309-325 | a value of no known type leaves no trace |
| BsonFormat.LowByteFirst | bson.c:552-578 | the eight bytes of a long, low byte first |
| BsonFormat.NameIs | bson.c:132-166 | the name of a text key is the key up to its first NUL |
| BsonFormat.SymKeyIff | bson.c:1247 | a name is read as an index exactly when it is the decimal text of a long |
| BsonFormat.OldTypes | bson.c:897-1245 | a symbol is read as a string, undefined as null, a database reference as "$ref" and "$id", code without a scope as code with an empty one |
| BsonFormat.SmallTypes | bson.c:897-1245 | a 32-bit integer is read as a long, and any byte but 0 as true |
| BsonFormat.TypesRead | bson.c:897-1245 | a type behind 0x12 other than the two extreme keys is refused |
| BsonFormat.LengthIsChecked | bson.c:897-998 | a string or binary data is refused for a length below zero or above 64 MB |
| BsonRoundTrip.DocDecodes | bson.c:865-1251 | a document the decoder can keep in step with decodes to its normal form and stops at its end, whatever follows |
| BsonRoundTrip.ValueDecodes | bson.c:897-1245 | the same for one value at any depth |
| BsonRoundTrip.NormDocIff | bson.c:865-1251 | the normal form of a document is the document itself exactly when it is storable |
| BsonRoundTrip.SurvivesIff | bson.c:84-1251 | an encodable document decodes to itself exactly when it is storable (unique printable keys, no plain objects, whole-millisecond dates, 32-bit timestamps, one-byte binary kinds), and then stops at the tail |
| BsonRoundTrip.OldBinRoundTrip | bson.c:980-989 | binary data of kind 2 comes back through its doubled length |
| Dates.DateRoundTrip | bson.c:1053-1067 | a millisecond count whose thousandfold fits 64 bits decodes to its floor second and the microseconds after it, and encodes back to itself |
| Dates.DateSurvivesIff | bson.c:349-357 | a date comes back exactly when its microseconds are normalised whole milliseconds, before the epoch as well |
| Utf8.CheckUtf8 | bson.c:1253-1269 | the one-pass test is the recursive one |
| Utf8.IsUtf8Iff | bson.c:1253-1269 | the test accepts exactly the strings that divide into well-shaped sequences of one to four bytes |
| Prepared.PreparedIs | bson.c:56-80 | preparing a non-empty document encodes the document with "_id" moved or added to the front, and fails exactly when a written key has a dot or that encoding fails |
| Prepared.IdIsKept | bson.c:56-80 | the "_id" that is inserted is the given one, and the new one only where none was given |
| Prepared.DotFreeIff | bson.c:584-611 | what PreparedIs calls free of dots: no entry that is written has a dot in its name |
| Prepared.OthersConcat | bson.c:173-175 | the other entries keep their order |
| Prepared.IdOnce | bson.c:173-175 | "_id" is not among the entries written after it |
| Prepared.OthersHas | bson.c:173-175 | every other key is there with its value |
| Arrival.InsertArrivesIff | bson.c:656-691 | the body received for an insert is the namespace and bytes that decode, up to the end of the message, to the document with "_id" in front exactly when that document is storable; the "_id" that arrives is the given one, and the new one where none was given |
| Batches.StepOver | cursor.c:1189-1202 | stepping over a reply decodes its documents one after the other |
| Batches.ReplyRoundTrip | cursor.c:1189-1202 | a reply of storable documents gives these documents in order and ends at the tail |
| MiniBson.DocPrefix | mcon/mini_bson.c:234-237 | an encoded document begins with its own byte count |
| MiniBson.NextLands | mcon/mini_bson.c:193-265 | on an element it can step over the scanner finds name, type and payload, and lands right behind |
| MiniBson.NextLandsIff | mcon/mini_bson.c:193-265 | on any encoded element the scanner lands right behind it exactly when it is no regular expression, no code with scope and no unfinished id |
| MiniBson.NextMissesRegex | mcon/mini_bson.c:254-255 | on a regular expression it lands behind the first NUL of the pattern, short of the next element |
| MiniBson.OldTypesLand | mcon/mini_bson.c:193-265 | symbols, code without a scope and database references are stepped over whole, and undefined takes no bytes |
| MiniBson.UnknownStops | mcon/mini_bson.c:193-265 | a type that is not known stops the scanner |
| MiniBson.FindField | mcon/mini_bson.c:279-299 | the payload of the first element with that name and type, or null when there is none, as long as the elements in front of it can be stepped over |
| MiniBson.FieldIsLookup | mcon/mini_bson.c:279-299 | in a storable document that is the entry of the table with that key, if its type matches |
| MiniBson.HighTypesAreNotFound | mcon/mini_bson.c:279-299 | a type above 0x7F is never found, because the type of an element is read through a signed char |
| MiniBson.FoundIsDecoded | mcon/mini_bson.c:279-299 | the scanner and the decoder agree: the bytes found decode to the entry of the decoded table, and nothing is found only when the entry is missing or of another type |
| MiniBson.FindNextString | mcon/mini_bson.c:368-383 | the text of the current element if it is a string, else the one before, and the position of the next element |
| MiniBson.CollectStrings | mcon/connections.c:552-559 | the loop over the hosts collects one string for every element |
| MiniBson.CollectsIff | mcon/mini_bson.c:368-383 | these are exactly the strings of the array in order if and only if all elements are NUL-free strings |
| MiniBson.NumberRepeatsString | mcon/mini_bson.c:368-383 | an array of "a" and the number 1, which is storable: "a" is collected twice |
| Wire.Session.AppendHeader | php_mongo.h:285-305 | the four header words behind an open length slot, and a request id that is used up |
| Wire.PutInserted | bson.c:656-677 | fails exactly for an empty, unencodable or too large document, else appends it |
| Wire.InsertBody | bson.c:679-691 | namespace and prepared document |
| Wire.BatchInsertBody | bson.c:693-731 | namespace and every prepared document, scalars passed over; fails for none, a bad one, or too much to send |
| Wire.UpdateBody | bson.c:733-752 | namespace, flags, criteria and new object |
| Wire.DeleteBody | bson.c:754-768 | namespace, flags and criteria |
| Wire.QueryBody | bson.c:782-803 | namespace, skip, limit, query, and fields only when there are some |
| Wire.GetMoreBody | bson.c:828-840 | namespace, limit and cursor id |
| Wire.KillCursorsBody | bson.c:805-817 | the count one and the cursor id |
| Wire.Session.Write | bson.c:679-840 | the buffer grows by exactly the message of the request, with its length in front, or the request fails when its encoding does |
| Wire.SplitFirst | php_mongo.h:269-305 | cut at its messageLength, a written request gives back its header fields and body |
| Wire.TwoMessages | collection.c:388 | a write with getlasterror behind it is exactly two messages, with ids that differ |
| Received.HeaderTells | php_mongo.h:269-305 | the receiver of a message sees the number of its operation (2001 to 2007), its id, and whether it answers one or carries options |
| Received.UpdateReads | bson.c:733-752 | the body of an update gives the namespace, the flags, the criteria and then the new object |
| Received.DeleteReads | bson.c:754-768 | namespace, flags and criteria |
| Received.QueryReads | bson.c:782-803 | namespace, skip, limit, the query, and the fields exactly when some are asked for |
| Received.GetMoreReads | bson.c:828-840 | namespace, limit and cursor id |
| Received.KillCursorsReads | bson.c:805-817 | one cursor, with this id |
| Received.BatchReads | bson.c:693-731 | the namespace and the documents of the batch as they are inserted, in order, scalars left out, up to the end |
| Received.SentIff | bson.c:679-840 | a message is sent when its body is there and it has at most 16,000,000 bytes |
| Received.BodyIsSomeIff | bson.c:679-840 | the body is there when the documents can be encoded; for an insert, when the document has elements, no dot in a key, and is not larger than the server's maximum |
| Received.BatchIsSentIff | bson.c:693-731 | a batch is sent exactly when it has a document, all of them can be inserted, and the whole is smaller than what the server takes at once |
| Wire.WriteSafely | collection.c:427-462 | appending getlasterror to a write leaves exactly these two messages in the buffer, or fails when one of them does |
| Manager.ConManager.FindByHash | mcon/manager.c:410-422 | a connection with this hash, null exactly when there is none |
| Manager.ConManager.Register | mcon/manager.c:448-471 | the connection goes to the end of the list; hashes are distinct afterwards exactly when they were and this one is new |
| Manager.ConManager.Deregister | mcon/manager.c:473-506 | the first connection with this hash is taken out, the order of the others is kept, and the answer says whether there was one; where hashes are distinct, the hash is gone |
| SingleConnection.CreateConnection | mcon/connections.c:243-266 | a server that accepts a connection gives a new one, a mongos when it says so and else standalone, with its tags and ping time; any other gives none |
| SingleConnection.GetConnectionSingle | mcon/manager.c:51-92 | for any client's definition: the listed connection with its hash, or a new one exactly when the server connects, authenticates and answers; hashes stay distinct, and a listed one that does not answer is gone |
| SingleConnection.ServeOne | mcon/manager.c:473-506 | a client asks for a connection, or one is dropped (cursor.c:1074, mongoclient.c:532, collection.c:537): exactly the dropped hash is gone, and hashes stay distinct |
| SingleConnection.Serve | mcon/manager.c:51-92 | over every run of calls by whatever clients, and of connections dropped by failed cursors, failed writes and closed clients, the list holds one connection for each hash, made for a definition with that hash |
| Chains.Chain.Append | mcon/manager.c:454-470 | the walk to the end of a linked list adds one element and keeps it free of cycles |
| Chains.Chain.Unlink | mcon/manager.c:486-492 | relinking around one node takes exactly its element out |
| Topology.ReplicaSet.HashTellsHost | mcon/manager.c:51-92 | connections of one client with the same hash lead to the same host |
| Topology.ReplicaSet.MadeIsOwnOrForeign | mcon/utils.c:51-90 | a connection made for whatever definition is the client's own, at the host its hash tells, or is never found by it |
| Topology.ReplicaSet.OtherIsForeign | mcon/utils.c:51-90 | one of another set, or of another process, never is |
| Topology.ReplicaSet.GetConnectionSingle | mcon/manager.c:51-92 | a host that is up is registered afterwards, one whose ping failed is not; what is known of the connections stays true, whatever other clients hold |
| Topology.ReplicaSet.IsMaster | mcon/connections.c:442-578 | the four result codes: not a member, healthy, asked less than 15 s ago, a member under another name; only the server entry at hand is renamed |
| Topology.ReplicaSet.TakeState | mcon/connections.c:561-576 | the connection has the kind the server told, and every healthy host that was polled is connected and known by that kind |
| Topology.ReplicaSet.AddHosts | mcon/manager.c:147-185 | every listed host that is up is registered, and the new ones are appended once each, in order |
| Topology.ReplicaSet.Ask | mcon/manager.c:109-194 | one round on any network: a member's listed hosts are registered and its own connection stays only under its own name; a host that is no member loses its connection |
| Walk.Step | mcon/manager.c:109-194 | such a round keeps the invariant of the walk |
| Walk.StepProgress | mcon/manager.c:109-194 | and leaves less to do: fewer healthy hosts, fewer seeds, or less cost of the aliases still listed |
| Topology.ReplicaSet.DiscoverTopology | mcon/manager.c:97-198 | without a circle of aliases the loop whose bound grows ends, and every member on a path of host lists from the servers was polled |
| Topology.ReplicaSet.DiscoverFor | mcon/manager.c:97-198 | on any network, with a bound on the rounds: once it is done, every such member was polled, and with a circle it is not done after any number of rounds |
| Topology.ReplicaSet.ConnectAll | mcon/manager.c:200-228 | the same from the server list alone, beside other clients' connections |
| Topology.ReplicaSet.ConnectAllFor | mcon/manager.c:200-228 | on any network: with a circle of aliases that the servers lead to, connecting and discovering never ends, and when it ends all was polled |
| Network.OwnNamesAreNotCircular | mcon/connections.c:479-494 | where hosts are listed under the names they give themselves there is no circle |
| Network.MisnamedIsCircular | mcon/connections.c:479-494 | a server that lists itself under another name than its own makes one |
| Network.RankExists | mcon/manager.c:97-198 | aliases without a circle have ranks that fall from each to those it lists |
| Network.CostsFall | mcon/manager.c:97-198 | asking an alias costs more than asking all it adds |
| Network.KindIsTold | mcon/connections.c:561-573 | the kind of a connection by the flags of the reply: primary before secondary before arbiter |
| Walk.PathIsPolled | mcon/manager.c:97-198 | when nothing is pending, every member on a path from a polled host is polled |
| Walk.CircleNeverEnds | mcon/manager.c:97-198 | once an alias of a circle was polled, something is pending |
| ReadPreference.FilterConnections | mcon/read_preference.c:82-106 | the connections of this process and these kinds, in order; a null pointer exactly when some hash has no process id |
| ReadPreference.FilterBySetName | mcon/read_preference.c:206-238 | those that know a set, and the client's if it has one; a null pointer exactly when some hash has no set name to read |
| ReadPreference.FilterBySeed | mcon/read_preference.c:240-263 | those with the hash of each server in turn |
| ReadPreference.FilterByCredentials | mcon/read_preference.c:265-312 | those with the credentials of the client's first server, if it has any; a null pointer exactly when a connection cannot be compared |
| ReadPreference.UntaggedHas | mcon/read_preference.c:313-328 | a connection is left after the filters exactly when it meets every one |
| ReadPreference.CandidateMatchesTags | mcon/read_preference.c:156-176 | the double loop compares the number of equal pairs with the number of wanted tags |
| ReadPreference.CountsRightIff | mcon/read_preference.c:156-176 | that is the subset test, whatever is wanted, exactly when the connection's tags are distinct |
| ReadPreference.FilterByTagSet | mcon/read_preference.c:178-190 | those that match, in order |
| ReadPreference.FindCandidates | mcon/read_preference.c:313-356 | without tag sets all that are left; else those of the first tag set with a match, and nothing when none has; a null pointer exactly when some connection breaks the search |
| ReadPreference.BreaksIff | mcon/read_preference.c:265-312 | a connection whose hash can be read breaks the search exactly when it is reachable, the client has credentials and it has none |
| ReadPreference.SomeBreaksIff | mcon/read_preference.c:265-312 | over such connections the search follows a null pointer exactly when the client has credentials and some reachable connection has none |
| ReadPreference.OtherClientBreaks | mcon/read_preference.c:276 | a connection of another client to the same server of the same set, made without credentials, that does it |
| ReadPreference.ReachableIff | mcon/read_preference.c:206-263 | such a connection is reachable exactly when process, kind and set name or seed match its parts |
| ReadPreference.ModesReach | mcon/read_preference.c:109-154 | the kinds of connections that each mode reaches: primary only primaries, secondary only secondaries, the preferred modes both, nearest mongos and standalone servers as well |
| ReadPreference.HasCredsIff | mcon/read_preference.c:265-312 | a client with credentials takes exactly the connections made with the same database, user and password digest |
| Selection.ComparePreorder | mcon/read_preference.c:359-414 | each comparator is reflexive, antisymmetric in sign and transitive |
| Selection.SortServers | mcon/read_preference.c:418-453 | a permutation that is sorted by the mode's comparator |
| Selection.SelectNearest | mcon/read_preference.c:455-492 | those within 15 ms of the first, in order |
| Selection.Pick | mcon/read_preference.c:504-543 | one of the eligible servers, by rand modulo their number, never from an empty list |
| Selection.Select | mcon/manager.c:246-254 | the three steps together always give a server when there are candidates |
| Selection.SelectableIsCandidate | mcon/read_preference.c:418-543 | whatever may be selected is a candidate |
| Selection.WithinCutoff | mcon/read_preference.c:455-492 | sorted by ping, or with one kind of candidate, the selected ping is within 15 ms of every candidate's |
| Selection.SelectableIff | mcon/read_preference.c:418-543 | sorted by ping, or with secondaries only, the servers that may be selected are exactly those within 15 ms of every candidate |
| Selection.NearSecondary | mcon/read_preference.c:523-536 | secondaryPreferred may select every secondary within 15 ms of the nearest one |
| Selection.PrimaryIsPreferred | mcon/read_preference.c:513-520 | primaryPreferred selects a primary when there is one, the nearest of them |
| Selection.PrimaryDespiteSecondaryIff | mcon/read_preference.c:525-536 | with a secondary among the candidates, secondaryPreferred may select a primary exactly when two primaries are near the nearest secondary |
| Selection.PrimaryDespiteSecondary | mcon/read_preference.c:525-536 | two primaries at 5 and 10 ms and a secondary at 0 ms, where secondaryPreferred may select a primary |
| Selection.SecondaryIsNear | mcon/read_preference.c:455-543 | with a secondary among the candidates, the selected ping is within 15 ms of any secondary's |
| Selection.GetConnectionMultiple | mcon/manager.c:298-311 | candidates of every kind, one of which is picked by the client's own mode; no result exactly when there is none, or a null pointer is followed |
| Selection.AlwaysNearIff | mcon/manager.c:294-311 | whatever connections with distinct hashes the manager holds, what is picked from several servers is near for all candidates exactly when the client's mode is not a preferred one |
| Selection.FarServer | mcon/manager.c:310-311 | two servers of a client, on different ports, of which the one 100 ms away may be picked |
| Selection.GetReplicaSetConnection | mcon/manager.c:231-254 | a connection that may be selected among those that meet every filter and the first tag set with a match; none when nothing is left, and a null pointer exactly when some connection breaks the search |
| GetConnection.OwnAreCandidates | mcon/read_preference.c:206-329 | for a client whose hashes can be read, and without others, no connection breaks the search, and the candidates are those of the right kinds |
| GetConnection.PolledIsKnown | mcon/connections.c:442-578 | a healthy host that was polled has a connection of the kind that the flags of its reply give, with its tags |
| GetConnection.KnownSaidSo | mcon/connections.c:442-578 | a connection of a kind that a mode asks for leads to a host of the set, under its own name, that said it is of that kind |
| GetConnection.GetReadWriteConnection | mcon/manager.c:200-256 | whatever connections other clients have, a null pointer is followed exactly when one breaks the search, and else one is chosen exactly when a reachable one has the credentials and tags that meet a tag set; what the servers lead to, of a wanted kind and with such tags, is found; without other clients a connection is chosen exactly when one of a wanted kind meets the tag sets, and a write gets the only primary exactly when that one's tags do; what it chooses comes from a host that says it serves the mode (a read in mode secondary from one that says it is a secondary and not the primary), and unless the mode is a preferred one no connection that suits as well has a ping shorter by more than 15 ms |
| GetConnection.PrimaryIsChosen | mcon/manager.c:231-254 | the connection to the only primary decides what a write gets |
| GetConnection.FailingWrite | mcon/manager.c:231-254 | a client with a tag set, and a primary that is up and has no tags: the write finds no candidate |
| Callbacks.Connection.Register | mcon/manager.c:385-403 | the cursor is added at the end of the list |
| Callbacks.Connection.Deregister | mcon/manager.c:324-346 | the first callback of the cursor goes, the others keep their order |
| Callbacks.Connection.Destroy | mcon/connections.c:268-317 | in the process that connected, exactly the registered cursors become dead and lose their connection; elsewhere nothing changes |
| Callbacks.Process.BeginQuery | cursor.c:990-995 | over all lists edited in place: the step that takes the cursor's callback out of its connection |
| Callbacks.Process.EndQuery | cursor.c:1013 | the step that adds the callback to the picked connection, and then the pointer |
| Callbacks.Process.Release | cursor.c:1551-1605 | the step that takes the callback out and keeps the pointer, unless no cursor is listed as open |
| Callbacks.Process.Free | cursor.c:1773-1783 | the step that takes the callback out with the cursor |
| Callbacks.Process.Destroy | mcon/connections.c:268-317 | the step that marks the registered cursors, in the process that connected |
| CallbackRuns.RunKeepsInv | cursor.c:990-1013 | over every run, connections being destroyed in the middle of queries, each cursor has at most one callback, on the connection it points to, and none while its connection is picked |
| CallbackRuns.DestroyMarksPointers | mcon/connections.c:290-311 | after every run without a release, a destroyed connection marks exactly the cursors that point to it, and changes no other |
| CallbackRuns.DestroyLeavesNoPointerIff | mcon/connections.c:268-317 | no cursor points to it afterwards exactly when every cursor that did was registered on it |
| CallbackRuns.RunKeepsPointers | cursor.c:990-1013 | over every run without a release, cursors point to live connections only, but for one whose next connection is being picked |
| CallbackRuns.DeadStaysDead | cursor.c:923-931 | a dead cursor stays dead over every run until it is freed, and only the destruction of a connection makes one dead |
| CallbackRuns.ReleasedCursorKeepsPointer | cursor.c:1569-1571 | a run with a release after which a cursor points to a destroyed connection |
| ServerHash.Md5Hex | mcon/utils.c:191-212 | the hexadecimal text of the RFC 1321 digest |
| ServerHash.CreateHash | mcon/utils.c:51-90 | the hash text of the definition's parts, with the digest of process id, password and user in place of the password |
| ServerHash.CreateHashedPassword | mcon/utils.c:28-41 | the hexadecimal digest of process id, password and user |
| ServerHash.FindFront | mcon/utils.c:93-119 | host, port and set name at the first delimiters, as the callers that ask for no more reach them |
| ServerHash.SplitHash | mcon/utils.c:93-155 | the walk with a moving pointer reads the parts at the first delimiters, and stops where a delimiter is missing |
| ServerHash.HashRoundTrip | mcon/utils.c:51-155 | splitting gives the parts back exactly when no field holds a delimiter that ends it, the set name does not start with a dash and the database not with X |
| ServerHash.HashIsInjective | mcon/utils.c:51-90 | such definitions with equal hashes agree on everything up to the password's digest |
| ServerHash.HashTellsPassword | mcon/utils.c:28-41 | such definitions with equal hashes have passwords with the same digest, together with process id and user |
| ServerHash.BareText | mcon/utils.c:51-90 | the text of a hash without set name and credentials |
| ServerHash.SetNameText | mcon/utils.c:51-90 | the text of a hash with a set name |
| ServerHash.CredentialsText | mcon/utils.c:28-90 | the text of a hash with credentials |
| ServerHash.AddressIsInjective | mcon/utils.c:74-76 | equal hashes mean equal hosts and ports as soon as the names have no colon |
| ServerHash.HashToServerIff | mcon/utils.c:158-165 | host and port are read back exactly when the host has no semicolon |
| ServerHash.HashToPidOfHash | mcon/utils.c:168-174 | the process id is read back whatever the other fields hold |
| Options.StoreKeepsAddresses | mcon/parse.c:319-507 | no option changes the hosts and ports of the servers, or how many there are |
| ConnString.ParseHostList | mcon/parse.c:104-135 | the character loop adds the hosts between commas, with the port behind the last colon or 27017 |
| ConnString.ProcessOption | mcon/parse.c:245-271 | error 1 for a missing name or value, else the option is stored |
| ConnString.ParseOptionList | mcon/parse.c:512-537 | the character loop stores the options one by one and stops at the first error |
| ConnString.ParseServerSpec | mcon/parse.c:51-221 | the whole parse: credentials, hosts or socket, database, options |
| ConnString.ParseUndoesPrint | mcon/parse.c:51-221 | parsing a printed connection string gives its servers in order, default port 27017, "admin" for credentials without a database, and the options applied in order |
| ConnString.EitherDivides | mcon/parse.c:512-537 | semicolon and ampersand divide options alike |
| ConnString.LastColonDivides | mcon/parse.c:104-135 | the last colon divides a host from its port |
| ConnString.BadSetting | mcon/parse.c:245-271 | a setting without a name or an equals sign is error 1 |
| ConnString.PrefixIsOptional | mcon/parse.c:63-84 | without credentials the prefix may be left out |
| ConnString.SocketIsParsed | mcon/parse.c:130-153 | a path whose last part has a dot is a socket, with port 0 |
| ConnString.SocketWithDatabase | mcon/parse.c:130-153 | a last part without a dot is the database behind the socket |
| UriSettings.ServersOfUri | mcon/parse.c:161-219 | every server has the address, credentials and database that stand in front of the settings and the last set name given, the client's own set name is that of the last replicaSet setting, and the kind of client follows |
| UriSettings.ServersAgreeIff | mcon/parse.c:323-350 | all servers have the client's own set name exactly when no replicaSet setting that gives none stands behind the last one that gives one |
| UriSettings.ClearedName | mcon/parse.c:323-350 | two connection strings whose client has no set name and whose server has one |
| UriSettings.CredentialSettingIsLost | mcon/parse.c:209-214 | a username, password or db setting, wherever it stands, changes nothing of the result, errors included |
| UriSettings.LostUsername | mcon/parse.c:209-214 | a connection string with a user name among its settings, whose server has none |
| UriOptions.OptionsOfUri | mcon/parse.c:319-507 | preference, tag sets, timeouts and write concern of a client are those of the last setting of each kind, all tag sets in order, or the defaults |
| UriOptions.RefusedIff | mcon/parse.c:319-507 | error 2 for an unknown name; error 3 exactly for an unknown preference, a negative number of servers, tags without a colon, and reading from a slave after a preference was given |
| UriOptions.ModeNames | mcon/parse.c:408-426 | the five names of the preferences |
| UriOptions.CaseIsIgnored | mcon/parse.c:323 | names are compared without regard to case |
| UriOptions.TagsUndone | mcon/parse.c:273-317 | a printed tag set is read as its tags in order |
| UriOptions.ColonBehindComma | mcon/parse.c:273-317 | a colon behind the first comma is taken for the first tag, and the second tag is read twice |
| UriOptions.ExampleIsRead | mcon/parse.c:51-221 | a whole string with credentials, two hosts and two settings, and what it gives |
| Md5Mix.FastFIsF | mcon/utils.c:257 | the shortened F is the F of RFC 1321 section 3.4 |
| Md5Mix.FastGIsG | mcon/utils.c:258 | the shortened G is the G of RFC 1321 section 3.4 |
| Md5Block.StepIsOperation | mcon/utils.c:265-268 | a STEP is one operation of the table in RFC 1321 section 3.4 |
| Md5Block.AllSteps | mcon/utils.c:317-387 | the sixty-four unrolled steps are the sixteen rows of the table |
| Md5Block.TransformBlock | mcon/utils.c:311-395 | one turn of the loop transforms the state by one block |
| Md5.Context.Body | mcon/utils.c:298-403 | the state is folded over the blocks in order |
| Md5.Context.Count | mcon/utils.c:421-424 | the split counter holds the byte count modulo 2^61 |
| Md5.Context.Update | mcon/utils.c:416-448 | the context has consumed the old message and the new bytes: whole blocks folded, the rest at the front of the buffer |
| Md5.Context.Final | mcon/utils.c:450-499 | the RFC 1321 digest of the whole message, padding in one or two blocks, and a cleared context |
| Md5.HashPieces | mcon/utils.c:405-499 | however a message is cut into updates, the digest is that of the whole |
| Md5Vector.LettersDigest | mcon/utils.c:231-499 | the digest of the letters a to z is the one published in RFC 1321 |
| Cursor.RequestWithinLimit | bson.c:843-862 | under a limit not yet reached the request is positive, and stays within the limit exactly when the limit is larger than the batch size or nothing was delivered |
| Cursor.RequestIs | bson.c:843-862 | the number of documents asked for, for every limit and batch size |
| Cursor.RequestIsReasonable | bson.c:843-862 | a request is positive and within a positive batch size, and negative exactly when limit or batch size is |
| Cursor.MongoCursor.Reset | cursor.c:1279-1296 | a cursor that has delivered and received nothing |
| Cursor.MongoCursor.DoQuery | cursor.c:899-920 | a cursor in step with the server, or one of three failures, each with an exception, so that the loop makes one attempt: no connection, a query that cannot be encoded (connected, nothing received, not dead), or a connection that breaks; the cursor is dead afterwards exactly when it was or the connection broke |
| Cursor.MongoCursor.GetMore | cursor.c:388-438 | the next batch goes on where the last one ended; false only at the end of the result, or when the server stalls; an exception for a broken connection, or for a cursor the server does not find |
| Cursor.MongoCursor.HasNext | cursor.c:357-438 | true only for a document within the limit, false only when nothing more is to come, the server stalls or has lost the cursor, or the query was never sent; an exception without a connection |
| Cursor.MongoCursor.Next | cursor.c:1155-1246 | the next document of the result becomes current, nothing is skipped or repeated; an exception for a dead cursor, a failure, or an error that came in place of a document |
| Cursor.MongoCursor.Iterate | cursor.c:1155-1257 | against any such server a run sees a prefix of the result within the limit, without errors among it; without exceptions it sees the first min(limit, total) documents unless the server may end the cursor early or stall with an empty batch, and receives no more than a limit above the batch size; every request it sends is within limit and batch size |
| CursorList.OpenCursors.CreateLe | cursor.c:1608-1674 | a cursor that is listed changes nothing, a new one goes to the end, and the list stays doubly linked without cycles or equal nodes; a cursor without a connection must not have a listed id |
| CursorList.OpenCursors.FreeLe | cursor.c:1551-1605 | the one node with this id and socket goes, a kill for it is sent when the id is not 0, and the cursor's id becomes 0; else nothing changes |
| CursorList.OpenCursors.FreeNode | cursor.c:1704-1735 | exactly this node is unlinked, the order of the rest is kept |
| CursorList.OpenCursors.KillCursor | cursor.c:1738-1765 | one kill for this id, unless it is 0, and the node unlinked |
| CursorList.KillsAreOpened | cursor.c:1551-1674 | over every run a cursor is killed and listed no more often than it was opened, listed once at most, and never killed with id 0 |
| CursorList.FreeKillsOnce | cursor.c:1551-1605 | freeing a listed cursor takes it off the list and sends exactly one kill for it, unless its id is 0 |
| CursorList.OpenedAreListedOrKilled | cursor.c:1551-1674 | over every run, each time a cursor with an id was opened anew it is listed still, or one kill was sent for it |
| Lists.RemoveFirstAt | cursor.c:1704-1735 | unlinking a node at the first position of its entry takes out that entry and keeps the order of the rest |
| Lists.RemovedOnce | mcon/manager.c:324-346 | in a list without repetition the entry is gone, and every other one stays |
| GridFs.ChunkOfOffset | gridfs/gridfs_stream.c:200-203 | the chunk of an offset inside the file holds the file's bytes from there on |
| GridFs.NextChunkFull | gridfs/gridfs_stream.c:267 | below the floor of size by chunk size the next chunk is full and follows on |
| GridFs.AvailableBounds | gridfs/gridfs_stream.c:253-285 | before the end a read has at least one byte and no more than the rest of the file; at the end none, or a failure when the size is a multiple of the chunk size |
| GridFs.AvailableIs | gridfs/gridfs_stream.c:253-285 | before the end a read reaches to the end of its chunk, or of the file, and one chunk further when that one is full and not the last full one |
| GridFsStream.Stream.constructor | gridfs/gridfs_stream.c:141-181 | a stream at the start of the file, with the floor as its chunk count |
| GridFsStream.Stream.ReadChunk | gridfs/gridfs_stream.c:196-249 | the chunk is cached, and the buffer offset agrees with the file offset modulo the chunk size |
| GridFsStream.Stream.Read | gridfs/gridfs_stream.c:253-285 | the bytes of the file from the offset on, across two chunks if need be, and how many |
| GridFsStream.Stream.Seek | gridfs/gridfs_stream.c:289-324 | the new offset from the start, from the offset or back from the end, or a failure behind the end that moves nothing |
| GridFsStream.Apply | gridfs/gridfs_stream.c:253-324 | one operation has the outcome and the new offset it has on a flat file |
| GridFsStream.SeekLeads | gridfs/gridfs_stream.c:289-324 | on the flat file a seek leads to its number of bytes behind the start, behind the offset, or in front of the end |
| GridFsStream.SeekBehindEnd | gridfs/gridfs_stream.c:289-324 | behind the end it leads nowhere |
| GridFsStream.ReadGives | gridfs/gridfs_stream.c:253-285 | a read gives as many bytes of the file as were asked for and are available, and moves behind them |
| GridFsStream.Run | gridfs/gridfs_stream.c:253-324 | over every run of reads and non-negative seeks the outcomes are those of a flat file |
| GridFsStore.Collection.Cleanup | gridfs/gridfs.c:356-393 | the collection is as it was before the chunks were inserted |
| GridFsStore.Collection.StoreBytes | gridfs/gridfs.c:402-530 | succeeds exactly when every insert and both checks do; then chunk n holds its slice of the bytes and no chunk is missing, else the collection is as before |
| GridFsStore.AllChunksConcat | gridfs/gridfs.c:454-472 | the chunks put together are the file |
| GridFsStore.StoredInOrder | gridfs/gridfs_file.c:179-266 | a cursor sorted by chunk number gives chunk 0, 1, 2 and so on |
| GridFsStore.ApplyToCursor | gridfs/gridfs_file.c:289-361 | the chunks copied one after the other, or an exception when they hold more than there is room for |
| GridFsStore.GetBytes | gridfs/gridfs_file.c:179-266 | the first bytes of the chunks as the file's length says |
| GridFsStore.LoadStored | gridfs/gridfs_file.c:179-266 | what was stored is what is loaded exactly when the length in the file document is that of the bytes |
| GridFsStore.OpenStored | gridfs/gridfs_stream.c:141-181 | a stored file opens as a stream over its bytes exactly when no chunk size was given or a positive one |
| GridFsStore.StoreAndRead | gridfs/gridfs.c:402-530 | stored into a new collection, the same bytes are loaded exactly when every insert and both checks succeed and a length that was given is theirs, and the file opens as a stream exactly when also no chunk size was given or a positive one |
| GridFsStore.StoreThree | gridfs/gridfs.c:402-530 | three bytes in two chunks, with different ids: loaded again from a server that works, and nothing left by one whose second insert fails |
| MongoId.Globals.GenerateId | types/id.c:29-83 | the twelve bytes of time, machine, process and counter, and the counter one higher |
| MongoId.Globals.GenerateAll | types/id.c:29-83 | the ids of a whole request |
| MongoId.IdsAreDistinctIff | types/id.c:29-83 | while the clock does not go back, all ids of a request are different exactly when no second has more than 2^24 of them |
| MongoId.IdTells | types/id.c:264-311 | time, machine, process id and counter are read back to their widths |
| MongoId.GetTimestamp | types/id.c:264-276 | the first four bytes as a number, as an int |
| MongoId.GetPid | types/id.c:281-296 | the two bytes of the process id |
| MongoId.ToString | types/id.c:144-178 | the hexadecimal text of the id |
| MongoId.FromString | types/id.c:196-217 | accepts exactly 24 hexadecimal digits of either case, and gives the bytes they denote |
| MongoId.TextRoundTrip | types/id.c:144-217 | the text of an id is accepted and denotes the same bytes |

## Left out

- The Zend API: reference counting, exceptions as objects, method wrappers, property access, resources.
- Sockets, timeouts, sleeping, authentication, host lookup; the network is an oracle.
- Logging, allocation failure, buffers of 2 GB and more, Windows, 32-bit and big-endian branches.
- `long_as_object`, a `cmd_char` other than `$`, `allow_empty_keys`, `native_long` off and `utf8` off.
- The text held by MongoInt32 and MongoInt64 objects; the model holds the number it denotes.
- Signed overflow is modelled as wrap-around where it can happen (the index -2^63, dates out of range, `getTimestamp`).
- Dates: the round trip of documents is stated for dates whose millisecond count times 1000 fits 64 bits.
- BsonWriter.Buffer.ZvalToBson: after a failure only the bytes before the document are described, not what was still
  written behind them.
- MiniBson: the packet builders.
- MiniBson.FindField: what is found behind an element that cannot be stepped over is not described.
- MiniBson.FindNextString: the current element can be stepped over; behind one that cannot, nothing is described.
- MiniBson.CollectStrings: arrays whose elements can all be stepped over.
- MiniBson.FoundIsDecoded: storable documents with dates in range, for which the decoded table has one entry a name.
- Cursor.MongoCursor.HasNext: whether the open-cursor list holds the cursor is a free choice.
- Wire.Session.Write: a batch insert, and a kill of cursors, begin at the start of the buffer, as their callers have it.
- Wire.BatchInsertBody: the batch begins at the start of the buffer.
- CursorList: that only live cursors are listed is not stated; after a get-more reply the id is already 0 when the
  node is looked up.
- CursorList.OpenCursors.FreeLe: the callback it takes out on the way is Callbacks.Process.Release.
- Topology: a client without a set name, and the fixed array of 16 servers, which the model lets grow. Clients with the
  same definitions share one ReplicaSet.
- Network: names of hosts are compared as addresses; mcon/connections.c:488 compares the texts, so that a server that
  calls itself "a:027017" is another name there and the same here.
- Topology.ReplicaSet.DiscoverTopology: networks with a circle, for which see Topology.ReplicaSet.DiscoverFor.
- Topology.ReplicaSet.ConnectAll: networks with a circle, for which see Topology.ReplicaSet.ConnectAllFor.
- Topology.ReplicaSet.GetConnectionSingle: connecting, authentication and the ping succeed together, exactly for hosts
  that are up, and the client wants to connect; SingleConnection has them apart.
- SingleConnection.GetConnectionSingle: a later ping keeps the measured time.
- Topology.ReplicaSet.IsMaster: the client has a set name, which is not taken from the reply.
- Manager.ConManager.Deregister: taking a connection out also destroys it; the destruction is modelled in Callbacks,
  whose class Connection holds the other half of the connection's fields.
- Selection.SortServers: stands for qsort; only its promise is used.
- Callbacks.Process.Free: a cursor with an id is taken to have its node in the list of open cursors; were that list
  empty, its callback would stay.
- Callbacks: commands and safe writes, which set a cursor's connection for one call without a callback.
- ServerHash: the fixed size of the hash buffer.
- Text.Atoi: numbers of more than 64 bits.
- ConnString: an empty host part or empty options, where the character loops read past the end.
- GridFsStream.Stream.constructor: chunk sizes that are not positive, and lengths that are not those of the bytes.
- GridFsStream.Stream.Seek: targets before the start of the file, from where a read would leave the buffer.
- GridFsStream.Apply: no seek before the start of the file.
- GridFsStream.Run: no seek before the start of the file.
- GridFs: streams whose size does not fit the chunks, chunks without data (the loop at gridfs/gridfs_file.c:311 would
  not end) and data stored as something else than bytes.
- GridFsStore.GetChunkSize: a size of more than 32 bits, which the source cuts off.
- GridFsStore.LoadStored: a length below zero in the file document.
- GridFsStore.Collection.StoreBytes: inserts that take effect although they report a failure, and removes that fail.
- MongoId: the counter after 2^31 ids.
- Commands built by the other methods of the PHP classes, indexes, references and the rest of the API.
