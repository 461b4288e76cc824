# fluxdb block preprocessing, modelled in Dafny

This project models `PreprocessBlock`, the reducer at the front of fluxdb's
write path. It takes the events one EOSIO block produced and reduces them to
the `WriteRequest` committed at that block's height. A block is an ordered
list of transaction traces. Each trace holds three ordered lists of events:

- table-scope events;
- row (`DBOp`) events;
- permission events.

The reducer folds each kind of event into one collection of the request.

- **TableScopes** (`scopes.dfy`, module `TableScopes`). The key is (code,
  scope, table, payer). Every touched key is written once. Its `deleted` flag
  is set exactly when the last event on that key was REMOVE. Nothing cancels:
  a scope inserted and then removed in the same block is still written, as a
  deletion.
- **TableDatas** (`rows.dfy`, module `TableDatas`). The key is (code, scope,
  table, primary key). The fold keeps two things per key:
  - the first event's operation and old payer/data;
  - the last event's operation and new payer/data.

  A key then produces one of three results, decided in this order:
  - a tombstone (empty payer, no data) when it ends removed and its first
    event was not INSERT (UPDATE or REMOVE in the tests);
  - nothing when it ends removed and its first event was INSERT, or when it
    is not removed and ends where it started;
  - otherwise a live row with the last payer and data.
- **KeyAccounts** (`perms.dfy`, module `KeyAccounts`). Each permission event
  compares the links its old snapshot grants with the links its new snapshot
  grants. A link is (public key, account, permission).
  - A link only in the old snapshot becomes an unlink intent.
  - A link only in the new snapshot becomes a link intent.

  Across the block, the last intent on each link wins.

`preproc.dfy` puts the three folds together as `Preproc.Reduce`. The reducer
itself is the method `Preproc.PreprocessBlock`.

Each fold is modelled as a pure specification function and an imperative
method over it:

- The specification is `Scan`, a recursive fold to an order of keys and a map
  of per-key state, followed by `Emit…`, which writes one row per key.
- The method (`Reduce…`) loops over the traces, then over each trace's
  events. It updates a key order and a map in place. Its loop invariant is
  "the state equals `Scan` of the events seen so far".

Lemmas state what the folds mean:

- first-seen order and last-write-wins, in module `Keyed`;
- the exact rows written for any one key;
- the general rules behind each test case.

`fixtures.dfy` models the test fixtures:

- `testDBOp`, including Go's `strings.SplitN` and the UTF-8 bytes of
  `[]byte(s)`;
- `newPermOp`;
- `newPermOpData`, as a method that fills an array in a loop.

`scenarios.dfy` states each test of `fluxdb/preproc_test.go` as a lemma or
a method about the model.

The implementation file of `PreprocessBlock` is not part of this model. Its
behaviour is taken from the test file, which fixes it case by case.

## Model

| member | source | states |
|---|---|---|
| Preproc.Reduce | fluxdb/preproc_test.go:45-48 | The request a block reduces to: TableScopes, TableDatas and KeyAccounts are the three folds over the block's events of each kind, in block order (no contract; `PreprocessBlock` and the lemmas on each fold give its meaning) |
| TableScopes.Scan | fluxdb/preproc_test.go:33-41 | The table-scope fold: touched keys in first-seen order and the last operation on each (no contract; `TableScopes.ScanMeaning` states it against `FirstSeen`/`LastWins`) |
| TableScopes.TableScopeRows | fluxdb/preproc_test.go:48-66 | The TableScopes collection: one row per key of the fold (no contract; `TableScopes.TableScopeRowsOn` and `TableScopes.TableScopeRowsOrdered` state which rows and in what order) |
| TableDatas.LiveRow | fluxdb/preproc_test.go:89-90 | A live row for a key, carrying a payer and data, not deleted (no contract; the rows of :89-90 and :100 are stated with it in `TableDatas.LastValueWins` and the scenarios) |
| TableDatas.Tombstone | fluxdb/preproc_test.go:109 | A deletion of a key: deleted, empty payer, no data, as at :109, :120 and :132 (no contract; used by `TableDatas.RemovedExistingRowTombstones`) |
| TableDatas.Scan | fluxdb/preproc_test.go:113-134 | The row fold: touched keys in first-seen order and per key the first event's operation and old payload with the last event's operation and new payload (no contract; `TableDatas.ScanStateOn` states it) |
| TableDatas.TableDataRows | fluxdb/preproc_test.go:177-179 | The TableDatas collection: each key's decided write, in first-seen order (no contract; `TableDatas.TableDataRowsOn` states the rows on each key, `TableDatas.TableDataRowsOrdered` their order) |
| KeyAccounts.IntentsOf | fluxdb/preproc_test.go:215-223 | The intents of one permission event: unlinks for links only its old snapshot grants, links for those only its new one grants (no contract; `KeyAccounts.IntentsMeaning` states it) |
| KeyAccounts.AllIntents | fluxdb/preproc_test.go:215-223 | The intents of all events, in block order (no contract; `KeyAccounts.AllIntentsAppend` states how it splits across traces) |
| KeyAccounts.Scan | fluxdb/preproc_test.go:227-230 | The permission fold: links in first-seen order and the last intent on each (no contract; `KeyAccounts.ScanMeaning` states it) |
| KeyAccounts.KeyAccountRows | fluxdb/preproc_test.go:239-244 | The KeyAccounts collection: the last intent of each link, in first-seen order (no contract; `KeyAccounts.KeyAccountRowsOn` states the rows on each link) |
| Preproc.PreprocessBlock | fluxdb/preproc_test.go:43-48 | The reducer's request is the three folds of the block's events, each taken over all traces in block order |
| TableScopes.ScanMeaning | fluxdb/preproc_test.go:33-41 | The table-scope fold lists each touched key once, in first-seen order, and maps it to the operation of the last event on it |
| TableScopes.TableScopeRowsOn | fluxdb/preproc_test.go:33-66 | For any key: exactly one row when some event touched it, deleted iff that key's last event was REMOVE; no row otherwise |
| TableScopes.TableScopeRowsOrdered | fluxdb/preproc_test.go:48-66 | Every row's key was touched, and rows appear in strictly increasing order of their key's first event |
| TableScopes.RowKeysFirstSeen | fluxdb/preproc_test.go:48-66 | The rows' keys are exactly the touched keys in first-seen order |
| TableScopes.ScanTableScopes | fluxdb/preproc_test.go:33-45 | The loop over traces leaves the key order and last-operation map equal to the fold over all table-scope events |
| TableScopes.ScanTrace | fluxdb/preproc_test.go:33-37 | Folding one trace's events in place extends the fold state of the earlier events by those events |
| TableScopes.EmitTableScopes | fluxdb/preproc_test.go:48 | The emitting loop writes one row per key of the order, carrying that key's last operation |
| TableScopes.ReduceTableScopes | fluxdb/preproc_test.go:45-48 | The reducer's table-scope pass yields the TableScopes collection of the block |
| TableDatas.Decide | fluxdb/preproc_test.go:69-162 | A decided write is about its key, and is a deletion exactly when the key's last operation is REMOVE |
| TableDatas.ScanStateOn | fluxdb/preproc_test.go:113-134 | The row fold keeps, for every touched key, the first event's operation and old payer/data and the last event's operation and new payer/data |
| TableDatas.TableDataRowsOn | fluxdb/preproc_test.go:76-162 | The rows about any key, from its first and last events alone: none if untouched; tombstone if it ends removed after a first UPDATE/REMOVE; none if it ends removed after a first INSERT; none if unchanged; else one live row with the last payer and data |
| TableDatas.EmitRowsRanked | fluxdb/preproc_test.go:177-179 | Over distinct keys, every emitted row is about a key of the order, and rows appear in strictly increasing position of their keys in the order |
| TableDatas.TableDataRowsOrdered | fluxdb/preproc_test.go:177-179 | Every row's key was touched by some row event, and rows appear in strictly increasing order of their key's first event |
| TableDatas.NoNetChangeWritesNothing | fluxdb/preproc_test.go:76-81 | A key left with the payer and data its first event found writes nothing |
| TableDatas.LastValueWins | fluxdb/preproc_test.go:94-101 | A key left changed and not removed gets exactly one live row with the last event's new payer and data |
| TableDatas.RemovedExistingRowTombstones | fluxdb/preproc_test.go:104-134 | A key whose first event is UPDATE or REMOVE and whose last is REMOVE gets exactly one tombstone, whatever happens in between |
| TableDatas.InsertThenRemoveCancels | fluxdb/preproc_test.go:136-162 | A key whose first event is INSERT and whose last is REMOVE gets no row, whatever happens in between |
| TableDatas.OneKeyRows | fluxdb/preproc_test.go:165-179 | When all events are on one key, the block's rows are exactly the rows about that key |
| TableDatas.OneKeyDecision | fluxdb/preproc_test.go:165-179 | When all events are on one key, the block writes exactly what the first and last events decide |
| TableDatas.EmitRowsAllWritten | fluxdb/preproc_test.go:88-90 | When every key of the order is decided to be written, the rows are those writes, one per key, in order |
| TableDatas.DistinctInsertsWriteInOrder | fluxdb/preproc_test.go:83-91 | Inserts on distinct keys that each change something give one live row per event, in event order, with that event's new payer and data |
| TableDatas.FreshInsertsDecided | fluxdb/preproc_test.go:83-91 | Each such insert leaves its key's state deciding a live row with that insert's payer and data |
| TableDatas.ScanTableDatas | fluxdb/preproc_test.go:168-174 | The loop over traces leaves the key order and per-key states equal to the fold over all row events |
| TableDatas.ScanTrace | fluxdb/preproc_test.go:169 | Folding one trace's row events in place starts a key's state at its first event and updates only its last operation and new payer/data afterwards |
| TableDatas.EmitTableDatas | fluxdb/preproc_test.go:177 | The emitting loop writes each key's decided write, in first-seen order |
| TableDatas.ReduceTableDatas | fluxdb/preproc_test.go:174-177 | The reducer's row pass yields the TableDatas collection of the block |
| KeyAccounts.LinksOf | fluxdb/preproc_test.go:284-297 | A snapshot grants one link per authorized key, in key order, on its own account and permission |
| KeyAccounts.Diff | fluxdb/preproc_test.go:215-223 | An intent is in the diff exactly when its link is granted by the first snapshot, not by the second, and it carries the given flag |
| KeyAccounts.IntentsMeaning | fluxdb/preproc_test.go:215-223 | An event intends to unlink exactly the links only its old snapshot grants, and to link exactly those only its new one grants |
| KeyAccounts.IntentFlag | fluxdb/preproc_test.go:216-218 | Every intent of an event on a link is unlinked exactly when the new snapshot lacks that link |
| KeyAccounts.LinksOfKeys | fluxdb/preproc_test.go:215-223 | A snapshot links a key to its own permission exactly when its authority lists that key, and links nothing else |
| KeyAccounts.SamePermissionKeyDiff | fluxdb/preproc_test.go:215-223 | When both snapshots are of the same permission, the intents are that permission's key-set diff: keys only the old authority lists are unlinked, keys only the new one lists are linked |
| KeyAccounts.OneSnapshotIntents | fluxdb/preproc_test.go:216-218 | With one snapshot absent, the intents are one per key of the present snapshot on its permission: linked when only the new snapshot is there, unlinked when only the old one is |
| KeyAccounts.RenamedPermissionRelinks | fluxdb/preproc_test.go:215-223 | When the two snapshots are of different permissions, every key of the old authority is unlinked from the old permission and every key of the new one is linked to the new permission, even keys both list; so the link diff is not the key-set diff |
| KeyAccounts.AllIntentsAppend | fluxdb/preproc_test.go:215-223 | The intents of two runs of events are the intents of the first followed by those of the second |
| KeyAccounts.ScanMeaning | fluxdb/preproc_test.go:227-230 | The permission fold lists each link once, in first-seen order, with the last intent on it |
| KeyAccounts.KeyAccountRowsOn | fluxdb/preproc_test.go:239-244 | For any link: exactly one row, the last intent on it, when some event had an intent on it; none otherwise |
| KeyAccounts.LaterEventOverrides | fluxdb/preproc_test.go:216-218 | Once an event has an intent on a link, the block's row for that link is the one that event decides, whatever came before |
| KeyAccounts.UntouchedLinkKeepsIntent | fluxdb/preproc_test.go:216-217 | An event with no intent on a link leaves the block's row for that link unchanged |
| KeyAccounts.ScanKeyAccounts | fluxdb/preproc_test.go:215-227 | The loop over traces leaves the link order and last-intent map equal to the fold over all intents of the block |
| KeyAccounts.ScanTrace | fluxdb/preproc_test.go:215-219 | Folding one trace's events in place extends the fold state by the intents of those events, event by event |
| KeyAccounts.ApplyIntents | fluxdb/preproc_test.go:216 | Recording one event's intents in place extends the fold state by those intents |
| KeyAccounts.EmitKeyAccounts | fluxdb/preproc_test.go:230 | The emitting loop writes each link's last intent, in first-seen order |
| KeyAccounts.ReduceKeyAccounts | fluxdb/preproc_test.go:227-230 | The reducer's permission pass yields the KeyAccounts collection of the block |
| Fixtures.Occurrences | fluxdb/preproc_test.go:186-188 | The separator count is zero exactly when the separator does not occur |
| Fixtures.Find | fluxdb/preproc_test.go:186-188 | Finds the first separator: absent exactly when none occurs, and otherwise a position holding it with none before |
| Fixtures.SplitN | fluxdb/preproc_test.go:186-188 | SplitN gives no parts for n = 0, and between one and n parts otherwise |
| Fixtures.SplitNJoins | fluxdb/preproc_test.go:186-188 | The parts of a split rejoin, with the separator between them, to the string split |
| Fixtures.SplitNSeparators | fluxdb/preproc_test.go:186-188 | Only the last part may hold the separator, and not even that one when the split stopped short of n parts |
| Fixtures.SplitNCount | fluxdb/preproc_test.go:186-188 | A split has one part more than there are separators, capped at n |
| Fixtures.SplitNJoin | fluxdb/preproc_test.go:186-188 | SplitN undoes Join for parts of which only the last may hold the separator |
| Fixtures.ParseOperation | fluxdb/preproc_test.go:200-209 | A mnemonic that parses names a known operation whose mnemonic it is |
| Fixtures.ParseOpCode | fluxdb/preproc_test.go:200-206 | INS, UPD and REM parse back to the operations they name |
| Fixtures.ParseOperationKnown | fluxdb/preproc_test.go:200-209 | A string parses exactly when it is INS, UPD or REM; anything else is the panicking default |
| Fixtures.EncodeChar | fluxdb/preproc_test.go:197-198 | A character encodes to one to four UTF-8 bytes, one byte exactly for ASCII, that byte being the code |
| Fixtures.Utf8 | fluxdb/preproc_test.go:197-198 | A string's UTF-8 encoding takes between one and four bytes per character |
| Fixtures.Utf8Ascii | fluxdb/preproc_test.go:197-198 | An ASCII string encodes to one byte per character, each the character's code |
| Fixtures.DecodeEncodeChar | fluxdb/preproc_test.go:197-198 | Decoding a character's encoding, whatever follows, gives the character and its length back |
| Fixtures.Utf8Append | fluxdb/preproc_test.go:197-198 | Encoding distributes over concatenation |
| Fixtures.TestDbOp | fluxdb/preproc_test.go:185-211 | testDBOp yields an event exactly when the mnemonic is known and the path has three separators and the payers and data one each; the event's operation is the one named |
| Fixtures.TestDbOpFields | fluxdb/preproc_test.go:185-199 | Written with names free of '/', testDBOp reads back exactly the event's fields, with data as UTF-8 bytes |
| Fixtures.PathParts | fluxdb/preproc_test.go:186 | "code/scope/table/key" splits into its four names when the first three hold no '/' |
| Fixtures.PairParts | fluxdb/preproc_test.go:187-188 | "old/new" splits into its two strings when the first holds no '/' |
| Fixtures.PermOperation | fluxdb/preproc_test.go:266-274 | The operation is UNKNOWN exactly when the mnemonic is not INS, UPD or REM |
| Fixtures.NewPermOp | fluxdb/preproc_test.go:265-282 | newPermOp keeps both snapshots, names the operation its mnemonic parses to, and UNKNOWN for any other mnemonic |
| Fixtures.NewPermOpData | fluxdb/preproc_test.go:284-297 | newPermOpData's snapshot is of the given account and permission, with one key per public key, in order |
| Scenarios.FixtureBuildsEv | fluxdb/preproc_test.go:78-159 | The row fixture turns each case's strings into exactly the event the scenarios use |
| Scenarios.UnchangedUpdate | fluxdb/preproc_test.go:76-81 | An update that changes nothing writes no row |
| Scenarios.TwoKeysTwoWrites | fluxdb/preproc_test.go:83-91 | Two inserts on different keys write two live rows, in event order |
| Scenarios.TwoUpdatesOneSticks | fluxdb/preproc_test.go:94-101 | Of two updates the second one's payer and data stick |
| Scenarios.RemoveTakesItOut | fluxdb/preproc_test.go:104-111 | Removing a pre-existing row writes a tombstone |
| Scenarios.UpdateUpdateRemove | fluxdb/preproc_test.go:113-122 | Updates followed by a removal keep the removal |
| Scenarios.UpdateRemoveInsertRemove | fluxdb/preproc_test.go:124-134 | Update, remove, insert, remove keeps the removal |
| Scenarios.InsertRemoveGobbled | fluxdb/preproc_test.go:136-142 | An insert and its removal write nothing |
| Scenarios.RepeatedInsertRemoveGobbled | fluxdb/preproc_test.go:144-152 | Repeated insert/remove pairs write nothing |
| Scenarios.InsertUpdatesRemoveGobbled | fluxdb/preproc_test.go:154-162 | Insert, updates and removal write nothing |
| Scenarios.FirstTraceRows | fluxdb/preproc_test.go:168-177 | Row events in the first of two transactions reduce to the row fold of those events |
| Scenarios.DbOpsBlock | fluxdb/preproc_test.go:165-179 | Running the reducer on such a block returns the row fold of the case's events |
| TableOpsScenario.ScanRepeatedFirstKey | fluxdb/preproc_test.go:33-41 | Four events on keys a, b, a, c leave order a, b, c, with a mapped to its second event's operation |
| TableOpsScenario.RepeatedFirstKey | fluxdb/preproc_test.go:33-41 | Such events write a with its second event's operation, then b, then c |
| TableOpsScenario.TableOpsRows | fluxdb/preproc_test.go:33-66 | The test's table-scope events write eosio deleted, john live, another deleted |
| TableOpsScenario.TableOpsOfTwo | fluxdb/preproc_test.go:33-41 | A block of two traces carries the first trace's table-scope events, then the second's |
| TableOpsScenario.TableOpsBlock | fluxdb/preproc_test.go:31-67 | The reducer on the test's block writes those three rows, and they are the test's sorted expectation up to order |
| PermOpsScenario.CreateTwo | fluxdb/preproc_test.go:216 | Creating a permission with keys k1, k2 intends to link both, in order |
| PermOpsScenario.CreateOne | fluxdb/preproc_test.go:217 | Creating a permission with one key intends to link it |
| PermOpsScenario.RemoveOne | fluxdb/preproc_test.go:218 | Removing a permission holding one key intends to unlink it |
| PermOpsScenario.AllIntentsFour | fluxdb/preproc_test.go:215-223 | The intents of four events are theirs, concatenated in order |
| PermOpsScenario.ScanThreeFresh | fluxdb/preproc_test.go:216-217 | Three intents on distinct links are all kept, in order |
| PermOpsScenario.ScanRepeatedSecondLink | fluxdb/preproc_test.go:215-223 | Five intents on links a, b, c, b, d leave order a, b, c, d with b mapped to its later intent |
| PermOpsScenario.ScenarioRows | fluxdb/preproc_test.go:215-244 | The test's four permission events write k1/owner linked, k2/owner unlinked, k2/active linked, k3/owner linked |
| PermOpsScenario.PermOpsOfTwo | fluxdb/preproc_test.go:215-223 | A block of two traces carries the first trace's permission events, then the second's |
| PermOpsScenario.BlockRows | fluxdb/preproc_test.go:213-245 | The block with those events in two transactions reduces to the same rows |
| PermOpsScenario.ScenarioEvents | fluxdb/preproc_test.go:215-223 | The fixtures build the four events with exactly the test's snapshots |
| PermOpsScenario.PermOpsBlock | fluxdb/preproc_test.go:213-245 | The reducer on the test's block writes those four rows, and they are the test's sorted expectation up to order |

## Left out

- The implementation file of `PreprocessBlock` is not part of this model. The reducer's behaviour is the one the test file fixes case by case, stated as three folds.
- Protobuf blocks, `newBlock`, `codec.BlockFromProto`, block and transaction ids and header timestamps. A block is modelled as its list of traces.
- EOS name encoding (`N(...)`, `eos.NameToString`). Names are opaque strings. The base-32 codec is a foreign library.
- `ActionIndex` on events and `Weight` on keys. Neither reaches an output row.
- TableScopes.TableScopeRowsOrdered: rows come out in first-seen key order. The tests sort rows by a string key before comparing. `TableOpsBlock` and `PermOpsBlock` prove that the rows equal the sorted expectation as multisets. The string sort itself is not modelled.
- Go's `nil` and empty slices are not distinguished. A tombstone carries empty data, and a block that writes no rows has an empty TableDatas collection where the tests expect `nil` (fluxdb/preproc_test.go:80, :141, :151, :161).
- Preproc.PreprocessBlock: the reducer's error result (fluxdb/preproc_test.go:45, :174, :227) is not modelled, and neither is failing fast on a malformed event. The model returns a request for every block. An event whose operation is `Unknown` is folded like any other event that is not REMOVE: a table-scope key whose last event is `Unknown` is written with `deleted = false`; a row key whose last event is `Unknown` gets a live row with the last payer and data when they differ from where the key started, and nothing otherwise; a row key whose first event is `Unknown` and last is REMOVE gets a tombstone; a permission event's operation is never consulted, only its snapshots.
- The reducer is modelled as three passes, one per event kind, rather than one interleaved pass. The collections do not depend on the interleaving.
- TableDatas.Decide: a removal's outcome is keyed on the first event being INSERT, which is how the tests describe a row born within the block. It is not keyed on the first old payload being empty. The two differ only for malformed events, such as an INSERT that carries an old payload.
- KeyAccounts.IntentsOf: the diff is taken over (public key, account, permission) links. No test event carries both snapshots. With one snapshot absent, the link diff is that snapshot's links, which is the key-set diff (`KeyAccounts.OneSnapshotIntents`). With both present and naming the same permission, it is again the key-set diff (`KeyAccounts.SamePermissionKeyDiff`). With both present and naming different permissions the two differ: every old key is unlinked and every new key linked, even keys both list (`KeyAccounts.RenamedPermissionRelinks`).
- Fixtures.SplitN: only non-negative `n` is modelled. The fixture always uses 4 or 2, and Go's "no limit" for negative `n` is never used.
- Fixtures.TestDbOp: the fixture's panic is modelled as `None`. This covers an unknown mnemonic and an index out of range on too few parts.
- testify assertions and `t.Run` harnessing.
