# Verified models of the SPD decap tools' symbolic core

The repository analyses power delivery networks. Most of it is numerical; this project models the parts
that do exact symbolic work and proves what they promise, for all inputs.

- **Streaming JSON scanners.** `ScenarioMachine`, `ScenarioProof` and `ScenarioScanner` model the frame-stack
  scanner that cuts four fragments out of a document it never parses; `DecapsMachine`, `DecapsProof` and
  `DecapsScanner` model the simpler depth-one scanner. `JsonText` is the grammar of sections 2 to 7 of RFC 8259 as
  a tree that keeps every byte, whitespace included. Both scanners are classes whose methods update their fields
  byte by byte; their answers are proved to be those of the tree. `JsonGrammar` and `Utf8Texts` say independently what a
  well-formed document and a valid text are. `JsonKeys` decodes keys as JSON does, `KeyReadings` states the answers in
  decoded keys, and `ScannerWitnesses` holds the documents on which the scanners go wrong. `ScannerSafety` and
  `DecapsSafety` hold for any input at all, well formed or not. `SavedScenarios` joins the writer to both scanners.
- **Canonical JSON.** `KeyOrder` and `CanonicalJson` define the encoding and prove that it identifies JSON values;
  `GraphEmit` and `CanonicalEmitter` model the recursive encoder with its set of open containers, over graphs that
  may share containers or loop; `ViewBytes` models the bounded encoder, the comparison in place and the strict reader,
  over values whose numbers are spelled as the encoder prints them (`NumberSpelling`). `CanonicalText` proves the bytes to
  be JSON text that denotes the value, with keys in ascending order.
- **The compiled-topology store.** `LogicalRows` is the stream that is hashed; `RowTables`, `MergeJoin` and `RowStore`
  are the loader with its single-pass merge-join of links and owners; `LinkTables` and `TableRules` write out what it
  accepts, and `SampleStore` is a small store that loads; `RowWriter`, `LandingOrder`, `RowRoundTrip`,
  `StoreRoundTrip`, `LinkConstructor` and `ConstructedLinks` are the builder's rows and the round trip; `MultisetSort` and
  `ProjectBinding` the payload that binds a store to a project; `JsonObjects`, `CompactViews`, `CertificateViews`,
  `ViewSpelling` and `ViewRoundTrip` the three compact certificate views, as built and as validated, with the code that
  builds and checks them in `ViewChecks`; `ViewNames` and `BindingNames` give views and payload name by name.
- **Routed copper.** `UnionFind` is the imperative union-find; `EscapeRoutes` the grouping of seeds and Vias and the
  eligibility of donor sites built on it.
- **Board-solve reuse.** `BoardReuse` is the identity-keyed group cache; `ModeReuse` solves a mode, captures its rails
  and reuses them for another mode; `ModeRuns` is the parity check, `ModeAccounts` the mode runner and its accounts, and
  `ModeBatches` puts the four together: what parity makes of the runner's own runs. `CaptureRules` and `ParityRules` write
  out when a rail is captured and when a run passes.
- **Three smaller algorithms.** `Artwork` (ordered booleans batched by polarity), `ViaOwnership` (counting whose a Via
  is) and `Elimination` (greedy backward elimination against a mask).

Text is a sequence of UTF-8 bytes throughout, and ordered byte by byte, which is the order of code points. Where the
source calls something outside this model, a parameter stands for it: the strict JSON decoder, SHA-256, `casefold`,
`strip`, `str`, the JSON reader, the impedance margin, what evaluating a rail yields. What is assumed of a parameter is
a named predicate (`Reads`, `Faithful`, `Sensible`, `Strips`, `Digests`, `CollisionFree`, `TestsEmptiness`) or nothing at all.

Four promises do not hold as they stand. For each there is an input that breaks it and the condition under which it holds:

- **Keys.** A scanner's key token drops every escape, both its bytes. So a document with the one decaps key spelled
  `"\u0064ecaps"` is refused, one with `"\ndecaps"` in its place is accepted, and one that holds the key twice, once with an
  escape, is accepted (`ScannerWitnesses`). Tokens find exactly the members that JSON finds under a key if and only if
  for every member the token is the key exactly when the decoded key is (`JsonKeys.TokenReadingIsExact`); on documents
  whose root and project meet that, both scanners answer as JSON does (`KeyReadings.VerdictMeetsJson`,
  `KeyReadings.DecapsVerdictMeetsJson`). Keys without a backslash always do. On all other documents the answers are still
  determined, in tokens (`ScenarioProof.ScanMeetsTree`).
- **Two scanners.** The depth-one scanner also requires every entry of the decaps list to be an object, the other one does
  not: they part on `"decaps":[1]` (`ScannerWitnesses.NumberedDecapsDivide`). On a document that the frame-stack scanner
  accepts they agree exactly when the entries are objects (`DecapsScanner.VerdictsAgree`).
- **Receivers.** The receiver table is built from rail ids as requested and indexed with folded ones. The run stops on a
  missing key exactly when some request's folded form is not itself requested and a seed reaches its rail
  (`EscapeRoutes.UnlistedIsMisspelled`).
- **Accounts.** The reuse accounts add up exactly when no mode is requested twice or there are no rails
  (`ModeAccounts.Accounting`); the modes 6, 12, 12 pass parity and break them (`ModeBatches.RepeatedModeMiscounts`). The
  program itself removes repeats before it calls the runner, so its own accounts always add up
  (`ModeBatches.RunRequested`). No identity covers a report's two numerical diagnostics; if they change between a mode and
  its reuse, parity refuses a batch that the reuse itself accepted (`ModeBatches.PassesIff`, `ModeBatches.DriftIsReused`).

## Model

| member | source | states |
|---|---|---|
| JsonKeys.TokenReadingIsExact | scripts/audit_terminal_via_vs_spatial.py:265-279 | reading members by token finds exactly the members that JSON finds under a key, if and only if no member passes for the key and none is it in disguise; then the values are the same |
| JsonKeys.PlainKeysReadAlike | scripts/audit_terminal_via_vs_spatial.py:265-279 | keys without a backslash are read as JSON reads them, whatever key is looked for |
| JsonGrammar.WellFormedByLeaves | scripts/audit_terminal_via_vs_spatial.py:234-320 | a document is well formed exactly if what stands between its tokens is spaces, tabs, line feeds and carriage returns, its strings are string bodies, and its scalars hold no byte that ends one |
| JsonGrammar.BodyIsPieces | scripts/audit_terminal_via_vs_spatial.py:265-279 | string bodies are the rows of characters and two-byte escapes, so every JSON string is one |
| Utf8Texts.ValidIsEncoded | scripts/audit_terminal_via_vs_spatial.py:272-276 | a key is accepted as UTF-8 exactly if it encodes some code points |
| KeyReadings.ScanMeetsJson | scripts/audit_terminal_via_vs_spatial.py:160-326 | where the target keys are read alike, the frame-stack scanner completes exactly on documents that JSON reads as holding each target once, and with those values' bytes |
| KeyReadings.VerdictMeetsJson | scripts/audit_terminal_via_vs_spatial.py:322-326 | the same for the answer with size and digest |
| KeyReadings.DecapsVerdictMeetsJson | scripts/audit_mounted_path.py:103-207 | where the decaps key is read alike at the root, the depth-one scanner returns the bytes of the one decaps list that JSON finds |
| KeyReadings.PlainDocumentsAreRead | scripts/audit_terminal_via_vs_spatial.py:160-326 | without escapes in the keys both scanners answer as JSON does |
| ScannerWitnesses.PrefixedKeyPasses | scripts/audit_terminal_via_vs_spatial.py:265-279 | a document without a decaps key, but with one that starts with an escaped line feed, is accepted by both scanners |
| ScannerWitnesses.EscapedKeyIsRefused | scripts/audit_terminal_via_vs_spatial.py:265-279 | a document that holds every target once, the decaps key spelled with an escape, is refused by both scanners |
| ScannerWitnesses.RepeatedKeyPasses | scripts/audit_terminal_via_vs_spatial.py:289-294 | a document that holds the decaps key twice, once spelled with an escape, is accepted by both scanners with the first list |
| ScannerWitnesses.NumberedDecapsDivide | scripts/audit_mounted_path.py:117-124 | with a decap that is no object the frame-stack scanner accepts and the depth-one scanner refuses |
| Utf8Texts.CodeIsRead | scripts/audit_terminal_via_vs_spatial.py:265-276 | JSON reads a code point escaped by number, surrogate pairs included, as its UTF-8 form; which the scanners do not decode |
| ScannerSafety.RunsAreSafe | scripts/audit_terminal_via_vs_spatial.py:208-320 | every state reached on any input: the frames and the capture are the brackets open in the input, and what is filed is a slice of it |
| ScannerSafety.CompletedRuns | scripts/audit_terminal_via_vs_spatial.py:160-326 | on any input, well formed or not: if the scanner completes, the input's brackets match, and exactly the four targets are filed, each within its size, of its type, with matching brackets |
| ScannerSafety.SpaceAround | scripts/audit_terminal_via_vs_spatial.py:234-260 | spaces, tabs, line feeds and carriage returns before and after any input change neither completion nor fragments |
| DecapsSafety.FinishedRuns | scripts/audit_mounted_path.py:103-207 | on any input: what the depth-one scanner returns is a slice of it with matching brackets, a list of objects within 256 MiB |
| DecapsSafety.SpaceAround | scripts/audit_mounted_path.py:131-202 | space around any input does not change what the depth-one scanner returns |
| SavedScenarios.SavedScenarioIsRead | src/spd_decap_pi/scenario_io.py:71-81 | a scenario saved canonically, with its final line feed, is accepted exactly if it has the four targets within their sizes, and what is cut out are the targets' own canonical bytes |
| SavedScenarios.SavedDecapsAreRead | src/spd_decap_pi/scenario_io.py:71-81 | from a saved scenario the depth-one scanner returns the decaps' canonical bytes, exactly if they are a list of objects within its size |
| ScenarioProof.SkipValue | scripts/audit_terminal_via_vs_spatial.py:265-320 | any value below an untracked path, however nested and whatever keys it repeats, leaves no trace but its frame's key |
| ScenarioProof.CaptureValue | scripts/audit_terminal_via_vs_spatial.py:213-233 | inside a fragment every value's text is copied byte for byte and its brackets close, or the limit error is raised |
| ScenarioProof.WalkMembers | scripts/audit_terminal_via_vs_spatial.py:235-320 | the machine's run over the root's or the project's members is the walk of the tree: fragments found, duplicates and wrong openings refused |
| ScenarioProof.WalkFindsTargets | scripts/audit_terminal_via_vs_spatial.py:322-326 | a root object's walk ends with all four targets exactly when each occurs once in an admissible form |
| ScenarioProof.ScanMeetsTree | scripts/audit_terminal_via_vs_spatial.py:160-326 | on every well-formed document the scanner completes exactly when each target is held once, right in type and size, and its fragments are the values' own bytes |
| ScenarioScanner.Scanner.FinishFragment | scripts/audit_terminal_via_vs_spatial.py:184-195 | a finished fragment is decoded, checked and filed under its path, or refused |
| ScenarioScanner.Scanner.FeedCapture | scripts/audit_terminal_via_vs_spatial.py:213-233 | one captured byte changes the fields as the machine's capture step does |
| ScenarioScanner.Scanner.FeedStructure | scripts/audit_terminal_via_vs_spatial.py:285-320 | one structural byte: colon, brackets and comma against the frame stack |
| ScenarioScanner.Scanner.Feed | scripts/audit_terminal_via_vs_spatial.py:212-320 | one byte of any kind takes the whole state to the machine's next state or to the error |
| ScenarioScanner.VerdictMeetsTree | scripts/audit_terminal_via_vs_spatial.py:322-326 | the answer for a document's text, with size and digest, read off the tree |
| ScenarioScanner.ReadScenarioOnce | scripts/audit_terminal_via_vs_spatial.py:160-326 | whatever the block boundaries, the answer depends on the received bytes only; for a well-formed document it is the targets' bytes exactly when each is held once; for any input at all, fragments come with matching brackets, sizes, types, size and digest |
| DecapsProof.ScanMeetsTree | scripts/audit_mounted_path.py:103-207 | the depth-one scanner finishes exactly on documents with one admissible decaps list, and with that list's bytes |
| DecapsProof.ScannersAgree | scripts/audit_mounted_path.py:103-207 | on a document the frame-stack scanner completes, the depth-one scanner finishes with the same bytes, exactly if all decaps are objects |
| DecapsScanner.Reader.Feed | scripts/audit_mounted_path.py:131-202 | one byte takes the reader's fields to the depth-one machine's next state or to the error |
| DecapsScanner.ReadScenario | scripts/audit_mounted_path.py:103-207 | the reader's answer depends on the received bytes only, not on the blocks; what it returns is a slice of them, within its size, a list of objects |
| DecapsScanner.DecapsVerdictMeetsTree | scripts/audit_mounted_path.py:103-207 | the decaps bytes are returned exactly when the tree holds one admissible list and size and digest match |
| DecapsScanner.VerdictsAgree | scripts/audit_mounted_path.py:103-207 | two scanners, one stream: the same decaps bytes, unless some decap is no object |
| KeyOrder.SortIsUnique | src/spd_decap_pi/canonical_json.py:48-51 | sorting a mapping's distinct keys forgets their insertion order |
| KeyOrder.BeforeIs | src/spd_decap_pi/canonical_json.py:51 | keys are ordered by the first byte that differs, the smaller first, a key before its extensions |
| CanonicalJson.PrintIsReadable | src/spd_decap_pi/canonical_json.py:89-114 | a text determines the value it starts with and what follows it |
| CanonicalJson.EncodeIsCanonical | src/spd_decap_pi/canonical_json.py:30-86 | two values encode alike exactly if they are the same JSON value, whatever the order of their fields |
| CanonicalJson.NormalIsFixed | src/spd_decap_pi/canonical_json.py:48-51 | normalising twice is normalising once and does not change the encoding |
| CanonicalJson.NormalIsInOrder | src/spd_decap_pi/canonical_json.py:48-51 | in what is printed every object's keys ascend in that order, at every depth |
| CanonicalText.UnescapeAll | src/spd_decap_pi/canonical_json.py:30-66 | decoding an escaped text as JSON gives the text |
| CanonicalText.EscapesAreShort | src/spd_decap_pi/canonical_json.py:20-27 | only quotes, backslashes and control characters are escaped, in two bytes where JSON can, else in lower-case hexadecimal |
| CanonicalText.CanonicalBytesAreJson | src/spd_decap_pi/canonical_json.py:30-86 | the canonical bytes are a JSON text without a byte of space that denotes the value with its fields in ascending order |
| GraphEmit.UnfoldFailsOnCycles | src/spd_decap_pi/canonical_json.py:39-86 | the circular error arises exactly if a reachable container lies on a cycle, which is exactly if the item unfolds to no finite tree |
| GraphEmit.UnfoldingIsUnique | src/spd_decap_pi/canonical_json.py:41-86 | an item unfolds to at most one tree |
| CanonicalEmitter.Emitter.Emit | src/spd_decap_pi/canonical_json.py:41-86 | a visit terminates, restores the set of open containers on every exit, and appends the encoding of the unfolded tree |
| CanonicalEmitter.CanonicalBytes | src/spd_decap_pi/canonical_json.py:117-120 | for any finite graph: an error exactly on reachable cycles, else the bytes of the unfolded tree with every object's keys in ascending order |
| LogicalRows.EncodeIsPrintable | src/spd_decap_pi/compiled_topology_asset.py:1107-1116 | an encoded row never contains a raw NUL or newline, nor any other control byte |
| LogicalRows.StreamIsInjective | src/spd_decap_pi/compiled_topology_asset.py:1072-1116 | equal hashed streams come from equal rows in all nine sections, and only from them |
| LogicalRows.LogicalRowsDigest | src/spd_decap_pi/compiled_topology_asset.py:1107-1116 | the loop hashes exactly that stream, the nine sections by name |
| LogicalRows.StreamIsSections | src/spd_decap_pi/compiled_topology_asset.py:1072-1116 | the stream is the nine sections by name and in order: the name, a NUL, and each row with a line feed |
| ViewBytes.BoundedViewBytes | src/spd_decap_pi/compiled_topology_asset.py:1119-1185 | all chunks in order, or the bound error exactly if their total passes the bound |
| ViewBytes.MatchesRaw | src/spd_decap_pi/compiled_topology_asset.py:1920-1956 | the comparison in place succeeds exactly if the chunks joined are the raw bytes |
| ViewBytes.ReadStrictView | src/spd_decap_pi/compiled_topology_asset.py:1959-1986 | the strict reader accepts an object whose canonical encoding the bytes are, and nothing else |
| ViewBytes.StrictViewInvertsEncode | src/spd_decap_pi/compiled_topology_asset.py:1959-1986 | reading the canonical bytes of an object with numbers as the encoder spells them gives the same object in key order |
| ViewBytes.StrictViewAcceptsOnlyCanonical | src/spd_decap_pi/compiled_topology_asset.py:1959-1986 | bytes are accepted exactly if they are the canonical encoding of some such object, and that object is returned |
| RowTables.Collect | src/spd_decap_pi/compiled_topology_asset.py:2194-2213 | rows are gathered into lists by group exactly if every group is allowed, every ordinal counts up inside it and every value is valid |
| RowTables.GroupOfNumbered | src/spd_decap_pi/compiled_topology_asset.py:1467-1473 | a list written as numbered rows is found again under its own group and under no other |
| MergeJoin.TakeOwners | src/spd_decap_pi/compiled_topology_asset.py:2132-2150 | the inner loop takes the whole run of one link's owners, or fails only if the owner table is inconsistent |
| MergeJoin.NothingTaken | src/spd_decap_pi/compiled_topology_asset.py:2151-2152 | when the owner pointer finds nothing for a link, the link has no owner or an owner row belongs to no link |
| MergeJoin.TakenIsGroup | src/spd_decap_pi/compiled_topology_asset.py:2132-2150 | over sorted rows, the owners taken are all the owners of the link anywhere in the table |
| MergeJoin.JoinOne | src/spd_decap_pi/compiled_topology_asset.py:2101-2188 | one link row is accepted with precisely its owners, or the tables are inconsistent |
| MergeJoin.JoinEnds | src/spd_decap_pi/compiled_topology_asset.py:2191-2192 | after the last link the tables are consistent exactly if no owner row is left |
| MergeJoin.JoinLinks | src/spd_decap_pi/compiled_topology_asset.py:2089-2192 | the merge-join accepts exactly the consistent pairs of tables and gives each link its own owners in order |
| LinkTables.ConsistentIs | src/spd_decap_pi/compiled_topology_asset.py:2089-2192 | the accepted tables written out, column by column: kinds, ordinals, nodes that differ, texts that are not blank, counts, Via owners, passive values, no name used twice |
| LinkTables.CollectedIs | src/spd_decap_pi/compiled_topology_asset.py:2174-2187 | each row's link stands at its ordinal: two different nodes, the row's count and impedance, exactly its own owners in ascending order |
| LinkConstructor.SortedSetIs | src/spd_decap_pi/_core/solver/layer_surface_network.py:351-356 | a link's owners are exactly the given texts, stripped, without repeats, ascending |
| LinkConstructor.ConstructorIsIdempotent | src/spd_decap_pi/_core/solver/layer_surface_network.py:324-358 | building a link from a link's own fields gives that link, the default owner included |
| LinkConstructor.OwnersAre | src/spd_decap_pi/_core/solver/layer_surface_network.py:351-356 | a link is never without owners; they are stripped and ascending, and the given ones if any are given |
| RowStore.LoadNodes | src/spd_decap_pi/compiled_topology_asset.py:2065-2087 | node rows are accepted exactly if kinds, ordinals, texts and case-insensitive uniqueness hold and the artwork nodes are the project's |
| RowStore.ArtworkIgnoresOrder | src/spd_decap_pi/compiled_topology_asset.py:2085-2087 | the expected artwork nodes do not depend on the order of the ids passed |
| RowStore.LoadPorts | src/spd_decap_pi/compiled_topology_asset.py:2194-2261 | ports and their four member lists are accepted exactly if complete, in range, anchored at known nodes and distinct by rail |
| RowStore.LoadOmitted | src/spd_decap_pi/compiled_topology_asset.py:2263-2271 | omitted rails are accepted exactly if numbered in order and valid |
| RowStore.LoadLandings | src/spd_decap_pi/compiled_topology_asset.py:2273-2291 | landing rows become two dictionaries exactly if numbered, unbound before, and bound to known nodes or links |
| RowStore.Load | src/spd_decap_pi/compiled_topology_asset.py:2065-2291 | loading accepts exactly the acceptable tables and returns the topology they stand for |
| TableRules.NodesAre | src/spd_decap_pi/compiled_topology_asset.py:2065-2087 | the accepted node rows written out |
| TableRules.MembersAre | src/spd_decap_pi/compiled_topology_asset.py:2194-2213 | the accepted member rows written out |
| TableRules.ArtworkIs | src/spd_decap_pi/compiled_topology_asset.py:2085-2087 | the expected artwork nodes are the stripped ids in ascending order |
| SampleStore.SampleLoads | src/spd_decap_pi/compiled_topology_asset.py:2065-2291 | a store of ten rows, with a finite link between two nodes owned by the Via 1, loads as the topology it says |
| LandingOrder.SortAscends | src/spd_decap_pi/compiled_topology_asset.py:1545-1555 | landing items are written in strictly ascending key order |
| LandingOrder.RowsFollowBindings | src/spd_decap_pi/compiled_topology_asset.py:1545-1555 | two dictionaries are written as the same rows exactly if they are equal, whatever their insertion order |
| RowRoundTrip.NodesRoundTrip | src/spd_decap_pi/compiled_topology_asset.py:1467-1473 | written nodes load exactly if valid and distinct, and the flat list is the builder's |
| RowRoundTrip.LinkRoundTrip | src/spd_decap_pi/compiled_topology_asset.py:1474-1502 | a link row with its owners is accepted and rebuilt as the same link exactly if the link is storable |
| RowRoundTrip.LinksRoundTrip | src/spd_decap_pi/compiled_topology_asset.py:1474-1502 | all links and owner lists of both kinds come back unchanged exactly if they are storable, and the rows are in query order |
| StoreRoundTrip.MembersOf | src/spd_decap_pi/compiled_topology_asset.py:1520-1538 | each port's four member lists are found again under its ordinal, and nothing else |
| StoreRoundTrip.PortsRoundTrip | src/spd_decap_pi/compiled_topology_asset.py:1504-1538 | ports come back unchanged exactly if they are storable |
| StoreRoundTrip.LandingsRoundTrip | src/spd_decap_pi/compiled_topology_asset.py:1545-1555 | landing dictionaries come back equal, exactly if every binding is storable |
| StoreRoundTrip.IndicesResolve | src/spd_decap_pi/compiled_topology_asset.py:1400 | flat node indices resolve to the endpoints they were written for |
| StoreRoundTrip.RoundTrip | src/spd_decap_pi/compiled_topology_asset.py:1392-1555 | written rows load back to the same topology exactly if it meets the loader's rules |
| ConstructedLinks.ConstructedRoundTrip | src/spd_decap_pi/compiled_topology_asset.py:1392-1555 | a topology whose links came from the constructor comes back unchanged exactly if it meets the loader's rules, nothing assumed of its links' fields |
| MultisetSort.SortByIsCanonical | src/spd_decap_pi/compiled_topology_asset.py:488-491 | sorted lists are equal exactly if the lists agree as multisets |
| ProjectBinding.GeometryRowIs | src/spd_decap_pi/compiled_topology_asset.py:390-408 | a geometry row identifies its four normalised texts and its islands as a multiset |
| ProjectBinding.StackupSame | src/spd_decap_pi/compiled_topology_asset.py:424-479 | encoded stackups agree exactly if the layers agree in order, field by field |
| ProjectBinding.BindingIsNormalForm | src/spd_decap_pi/compiled_topology_asset.py:385-494 | two projects give the same hashed bytes exactly if source, evidence, geometry, rails and aliases (as multisets) and stackup (in order) agree |
| BindingNames.DecimalIs | src/spd_decap_pi/compiled_topology_asset.py:454-479 | an ordinal is written in decimal without a leading zero |
| BindingNames.PayloadIs | src/spd_decap_pi/compiled_topology_asset.py:480-494 | the nine fields of the payload by name |
| BindingNames.LayerIs | src/spd_decap_pi/compiled_topology_asset.py:454-479 | a layer's nine fields by name, numbers and material carried over as they are |
| BindingNames.RecordIsThere | src/spd_decap_pi/compiled_topology_asset.py:390-408 | every geometry record is in the payload: layer, net and digest folded, asset and islands stripped |
| CertificateViews.CompactLandings | src/spd_decap_pi/compiled_topology_asset.py:507-540 | landing ownership rows are compacted exactly if each names a Via and a known owner and no Via repeats up to case |
| CertificateViews.CompactionIsIdempotent | src/spd_decap_pi/compiled_topology_asset.py:507-540 | compacting the compacted rows is allowed and changes nothing |
| ViewNames.LandingIs | src/spd_decap_pi/compiled_topology_asset.py:507-540 | a landing is accepted exactly if its Via is named within 16 KiB and its owner is device, decap or unknown |
| ViewNames.LandingKeeps | src/spd_decap_pi/compiled_topology_asset.py:533-538 | a compacted landing holds the Via, stripped, and the owner, stripped and folded |
| CompactViews.CompactFields | src/spd_decap_pi/compiled_topology_asset.py:617-649 | a projected binding keeps exactly the allowed fields of its row and two digests |
| CompactViews.CompactPasses | src/spd_decap_pi/compiled_topology_asset.py:583-715 | a row the builder accepts passes the loader's row check, fresh or after encoding and decoding |
| CompactViews.ProjectedRowOfNormal | src/spd_decap_pi/compiled_topology_asset.py:672-715 | the loader's row check does not depend on the order of fields |
| ViewNames.ProjectionIs | src/spd_decap_pi/compiled_topology_asset.py:543-567 | the projection digest is taken over schema, source, certificate and row under those names |
| ViewChecks.ProjectRow | src/spd_decap_pi/compiled_topology_asset.py:583-633 | a full row is projected exactly if status, issues, digest and route are in order |
| ViewChecks.CheckRow | src/spd_decap_pi/compiled_topology_asset.py:672-715 | one persisted row, check by check |
| CertificateViews.ValidatedOfNormal | src/spd_decap_pi/compiled_topology_asset.py:837-890 | a view passes validation exactly if it passes after encoding and decoding |
| ViewRoundTrip.SignedFits | src/spd_decap_pi/compiled_topology_asset.py:864-882 | a view's own digest recomputes to the stored value, and its header fits the manifest |
| ViewRoundTrip.ScenarioPasses | src/spd_decap_pi/compiled_topology_asset.py:757-807 | a scenario view built from a complete certificate passes, each projection digest included |
| ViewRoundTrip.BuiltViewsPass | src/spd_decap_pi/compiled_topology_asset.py:718-834 | whatever view is built from a complete certificate is read back strictly and passes the loader's validation |
| ViewNames.SignedKeys | src/spd_decap_pi/compiled_topology_asset.py:723-834 | a view's fields in order: five copied from the certificate, schema, integrity mark, the view's own values, and the digest of all that, with a line feed for the external view |
| ViewChecks.BuildSurface | src/spd_decap_pi/compiled_topology_asset.py:741-762 | the surface view step by step |
| ViewChecks.BuildScenario | src/spd_decap_pi/compiled_topology_asset.py:763-807 | the scenario view step by step, topology rows before quotient rows |
| ViewChecks.BuildExternal | src/spd_decap_pi/compiled_topology_asset.py:808-834 | the external proof step by step; the contacts kept have to cover the anchors' pins |
| ViewChecks.CheckScenario | src/spd_decap_pi/compiled_topology_asset.py:648-715 | the scenario view's topology and quotient, check by check |
| ViewChecks.Validate | src/spd_decap_pi/compiled_topology_asset.py:837-890 | the loader's validation, check by check |
| UnionFind.CompressOne | scripts/diagnose_pwr_escape_routes.py:79-85 | compressing a path changes no representative |
| UnionFind.SameRootIffConnected | scripts/diagnose_pwr_escape_routes.py:69-96 | two items share a root exactly if the unioned edges connect them |
| UnionFind.Forest.Add | scripts/diagnose_pwr_escape_routes.py:74-77 | a new item is its own class; an old one is left alone |
| UnionFind.Forest.Find | scripts/diagnose_pwr_escape_routes.py:79-85 | find terminates, returns the representative, hangs the item below it, and moves no other |
| UnionFind.Forest.Union | scripts/diagnose_pwr_escape_routes.py:87-96 | the edge is added; ranks stay strictly increasing and classes large |
| UnionFind.Forest.SameClassIffConnected | scripts/diagnose_pwr_escape_routes.py:69-96 | in any reachable state, sharing a representative is being connected |
| UnionFind.Forest.RankIsLogarithmic | scripts/diagnose_pwr_escape_routes.py:92-96 | a root of rank r heads at least 2^r items |
| EscapeRoutes.UniteTraces | scripts/diagnose_pwr_escape_routes.py:266-274 | exactly the traces between known nodes of one layer are unioned |
| EscapeRoutes.UniteVias | scripts/diagnose_pwr_escape_routes.py:276-294 | exactly the valid Vias are unioned and kept |
| EscapeRoutes.FileSeeds | scripts/diagnose_pwr_escape_routes.py:296-299 | each known seed's decaps are filed under its representative and nothing else is |
| EscapeRoutes.ReceiverSites | scripts/diagnose_pwr_escape_routes.py:266-330 | a rail's sites are exactly the decaps of seeds with a route along traces and copper barrels to one of its planes; the run stops exactly on an unlisted rail with such a route |
| EscapeRoutes.EscapingIs | scripts/diagnose_pwr_escape_routes.py:266-330 | a seed is eligible exactly if a route of traces and copper barrels, written out hop by hop, leads from it to a barrel that passes through one of the planes inside its copper |
| EscapeRoutes.UnlistedIsMisspelled | scripts/diagnose_pwr_escape_routes.py:306-315 | on every board the run stops exactly if some request's folded form is no request and a seed reaches its rail |
| EscapeRoutes.FoldedRequestsAreListed | scripts/diagnose_pwr_escape_routes.py:306-315 | if every request's folded form is requested too, the run never stops |
| EscapeRoutes.CapitalRequestIsUnlisted | scripts/diagnose_pwr_escape_routes.py:306-315 | an example: a served rail requested with a capital letter stops the run |
| BoardReuse.RebindingSucceeds | scripts/benchmark_raw_spd_powersi_correlation.py:460-483 | validation after the substitution never fails |
| BoardReuse.Reuse.Bind | scripts/benchmark_raw_spd_powersi_correlation.py:460-485 | a call is refused without effect, or returns the unique equivalent group's index and a source that carries its substrate, and counts once |
| BoardReuse.BindAll | scripts/benchmark_raw_spd_powersi_correlation.py:460-485 | any sequence of calls is a history of such steps over valid states; a call succeeds exactly if its source can be bound |
| BoardReuse.CountsAreConserved | scripts/benchmark_raw_spd_powersi_correlation.py:460-485 | at every point groups plus reuses are the successful calls |
| BoardReuse.SharingIsExact | scripts/benchmark_raw_spd_powersi_correlation.py:437-485 | over any history two calls get one index exactly if they agree in three objects and eight identities, and then one substrate |
| BoardReuse.CandidateIs | scripts/benchmark_raw_spd_powersi_correlation.py:347-435 | a source can be bound exactly if its objects are frozen and identical where they have to be and its seven identities are consistent SHA-256 digests |
| BoardReuse.SameIs | scripts/benchmark_raw_spd_powersi_correlation.py:437-458 | two bindings share a group exactly if binding, network and manifest are the same objects and eight identities agree |
| BoardReuse.FirstFounds | scripts/benchmark_raw_spd_powersi_correlation.py:460-485 | the first call with an index founded the group, unchanged, and its substrate is the one shared |
| ModeRuns.CompareRun | scripts/benchmark_raw_spd_powersi_correlation.py:2773-3024 | one run passes exactly if its header and every rail fit, and adds its rails to the counters |
| ModeRuns.Parity | scripts/benchmark_raw_spd_powersi_correlation.py:2746-3030 | parity passes exactly if every run fits; the counters are reused runs times completed rails and other runs times blocked ones |
| ParityRules.PassesIs | scripts/benchmark_raw_spd_powersi_correlation.py:2746-3030 | when parity passes, written out run by run and rail by rail for any runs |
| ModeRuns.ReusedRunsRepeatTheSource | scripts/benchmark_raw_spd_powersi_correlation.py:2920-3015 | what passing parity means for a reused run: completed rails carry the source's metrics, provenance, identities and board evidence, blocked ones its blocker |
| ModeReuse.RunOne | scripts/benchmark_raw_spd_powersi_correlation.py:2494-2646 | one pass over the rails: an unsolved rail is blocked with its own error and reason, a captured one reports its outcome at this mode without any claim of reuse; the pass is given up exactly if the ceiling is below the mode or a capture is refused |
| ModeReuse.RunReused | scripts/benchmark_raw_spd_powersi_correlation.py:2649-2742 | the reused run: blockers carried over with error and reason, retained outcomes reported at the new mode with every claim of exact reuse; None exactly if the ceiling is below the mode or a rail has no matching capture |
| CaptureRules.AuditIs | scripts/benchmark_raw_spd_powersi_correlation.py:487-548 | a source is audited exactly against a known group whose objects it has and which selects its rail, and what the audit lists |
| CaptureRules.CaptureIs | scripts/benchmark_raw_spd_powersi_correlation.py:2159-2326 | a solved rail is captured exactly if outcome, source and board result prove it, written out field by field, and what is kept of it |
| CaptureRules.MatchIs | scripts/benchmark_raw_spd_powersi_correlation.py:2329-2393 | a captured rail may be reused exactly if everything identified is as captured and it can still be proved |
| CaptureRules.SolvedIf | scripts/benchmark_raw_spd_powersi_correlation.py:2494-2646 | what becomes of a rail in a pass: its own error and reason, the audit's refusal, a completed report, or the end of the pass |
| ModeBatches.AuditsAreSound | scripts/benchmark_raw_spd_powersi_correlation.py:487-548 | an audit names its port in full and carries seven valid digests |
| ModeBatches.MatchesUnchanged | scripts/benchmark_raw_spd_powersi_correlation.py:2329-2393 | a captured rail is matched exactly if audit, evidence, vectors, provenance and board evidence are those captured and it could be captured again |
| ModeBatches.SettledCellFits | scripts/benchmark_raw_spd_powersi_correlation.py:2494-2646 | whatever a pass completes or blocks passes parity's checks of a source run, and its evidence those of a recomputed one |
| ModeBatches.ReusedCellFits | scripts/benchmark_raw_spd_powersi_correlation.py:2649-2742 | a reused blocker always passes parity, a reused report exactly if its numerical diagnostics are the source's |
| ModeBatches.DriftIsReused | scripts/benchmark_raw_spd_powersi_correlation.py:2649-2742 | a completed rail whose numerical diagnostics alone have changed is reused all the same, and its cell fails parity |
| ModeBatches.RecomputedCellFits | scripts/benchmark_raw_spd_powersi_correlation.py:3084-3122 | a recomputed rail passes parity exactly if it completes as the source did or is blocked with the same error and reason |
| ModeBatches.ReusesIff | scripts/benchmark_raw_spd_powersi_correlation.py:2649-2742 | the runner gives a reuse up exactly if the ceiling is below the mode or something identified of a completed rail has moved |
| ModeAccounts.RunModes | scripts/benchmark_raw_spd_powersi_correlation.py:3060-3150 | the runs dictionary and the requested, executed, reused and fallback counts of a batch, or an error exactly if a mode is neither reused nor recomputed |
| ModeAccounts.RepeatedSourceFails | scripts/benchmark_raw_spd_powersi_correlation.py:3084-3150 | requesting the first mode again always fails parity |
| ModeAccounts.TallyOfRuns | scripts/benchmark_raw_spd_powersi_correlation.py:3084-3150 | there is one run per distinct mode: one source, the fallbacks recomputed, the rest reused |
| ModeAccounts.Accounting | scripts/benchmark_raw_spd_powersi_correlation.py:3123-3150 | reused rails plus retained blockers are reused results plus blocked rails per fallback, exactly if no mode repeats or there are no rails |
| ModeAccounts.FirstOccurrences | scripts/benchmark_raw_spd_powersi_correlation.py:3525 | the requested modes without repeats: none lost, the first mode stays first |
| ModeBatches.PassesIff | scripts/benchmark_raw_spd_powersi_correlation.py:3033-3150 | the runner's own runs pass parity exactly if the first mode is not repeated, reused modes find the diagnostics unchanged, and recomputed ones repeat every rail's fate |
| ModeBatches.UnchangedBatchPasses | scripts/benchmark_raw_spd_powersi_correlation.py:3033-3150 | if nothing changes between modes, every mode is reused, none recomputed, and parity passes |
| ModeBatches.RunBatch | scripts/benchmark_raw_spd_powersi_correlation.py:3033-3150 | a whole batch: its runs, when it passes, and its counters |
| ModeBatches.RepeatedModeMiscounts | scripts/benchmark_raw_spd_powersi_correlation.py:3123-3150 | the modes 6, 12, 12 with one blocked rail pass parity, retain one blocker and report two reused results |
| ModeBatches.RunRequested | scripts/benchmark_raw_spd_powersi_correlation.py:3525-3560 | with the repeats removed, as the program does, the accounts of every batch that passes add up; if nothing changes, one pass is executed and the rest reused |
| Artwork.CopperIsLastCover | scripts/validate_real_distribution_replay.py:347-356 | a point is copper exactly if the last primitive covering it is positive |
| Artwork.CopperByPosition | scripts/validate_real_distribution_replay.py:347-356 | the same by position: some positive primitive covers it and no later one does |
| Artwork.BatchDrawsRun | scripts/validate_real_distribution_replay.py:347-356 | one union or difference of a batch is drawing its primitives one by one |
| Artwork.Batch | scripts/validate_real_distribution_replay.py:324-346 | the first loop fails exactly on a bad reference, and else groups the primitives into nonempty runs of alternating polarity that spell them out in order |
| Artwork.Compose | scripts/validate_real_distribution_replay.py:326-359 | the composition is refused for a bad reference, for a negative first primitive, or for no copper, and else is copper exactly where the last covering entry is positive |
| Artwork.ComposedIs | scripts/validate_real_distribution_replay.py:326-359 | each outcome read off the order and the four collections: copper exactly where some positive entry's own shape covers the point and no later entry's does |
| ViaOwnership.CollectDevices | scripts/validate_island_finite_via_gate.py:294-326 | the dictionaries hold what the rows say, exactly if no Via is claimed for two owners |
| ViaOwnership.Certified | scripts/validate_island_finite_via_gate.py:280-416 | the certificate as the rows say, or the error exactly on a Via claimed for two owners; each group is balanced, the endpoints are covered, and a complete certificate's counted Vias are its owned and substrate ones |
| ViaOwnership.CertificateReports | scripts/validate_island_finite_via_gate.py:294-411 | the certificate read off the rows: owned and incomplete counts, issues and substrate of each group, total, endpoints and status |
| ViaOwnership.TotalIsOfIds | scripts/validate_island_finite_via_gate.py:328-361 | the owned total is the owned ids counted group by group |
| ViaOwnership.KeysShareNoVia | scripts/validate_island_finite_via_gate.py:307-322 | with one owner per Via no Via id lies under two keys |
| ViaOwnership.DeviceIdsAreConserved | scripts/validate_island_finite_via_gate.py:321-322 | the Device Via ids counted key by key add up to the reported total |
| ViaOwnership.GroupsAreConserved | scripts/validate_island_finite_via_gate.py:328-361 | a group is resolved exactly if it is not over-claimed and has no open endpoint; then owned and substrate Vias are its counted ones, neither negative |
| ViaOwnership.EndpointsAreCovered | scripts/validate_island_finite_via_gate.py:363-374 | affecting and nonaffecting endpoints together are the identified incomplete ones |
| ViaOwnership.CompleteHasNoAffecting | scripts/validate_island_finite_via_gate.py:375-411 | a complete certificate has no affecting endpoint |
| ViaOwnership.TotalsAreConserved | scripts/validate_island_finite_via_gate.py:328-361 | over resolved groups, all counted Vias are all owned plus all substrate ones |
| ViaOwnership.DeviceTotalSplits | scripts/validate_island_finite_via_gate.py:321-361 | the Device total is the ids under the groups' keys, key by key, plus those under keys of no group |
| Elimination.BackwardEliminate | apps/decap_search/search.py:45-86 | ranks, log, result and final margin of the walk, with the margin evaluated exactly 2N+2 times; the log reads as a walk over all sites by rank |
| Elimination.LogIs | apps/decap_search/search.py:59-79 | the log read off itself: each site once, on top of what was dropped before it, dropped exactly at a margin of one, by falling solo margin and then by name |
| Elimination.RanksAreOrdered | apps/decap_search/search.py:67 | candidates are walked by falling solo margin, ties by name, each once |
| Elimination.MaskHolds | apps/decap_search/search.py:70-79 | the final margin is at least one exactly if the start's was or something was removed |
| Elimination.ResultIsMinimal | apps/decap_search/search.py:70-79 | if a broken mask stays broken when more is removed, no remaining site can be removed from the result |
| Elimination.ReboundLeavesARemovableSite | apps/decap_search/search.py:70-79 | a margin that recovers when more is removed can leave a removable site mounted |

## Left out

- ScenarioScanner.ReadScenarioOnce: the fragment's decoded JSON value is not returned, only its bytes; the strict decoder is a parameter that says list, object, other or error.
- DecapsScanner.ReadScenario: likewise for the decoded decaps list.
- CanonicalJson.EncodeIsCanonical: number tokens are given; how a float or integer is formatted, and which floats are refused, is not modelled.
- GraphEmit.UnfoldFailsOnCycles: identities are stable; reuse of an object id after collection, non-string keys and unencodable scalars are not modelled.
- ViewBytes.ReadStrictView: the JSON reader is a parameter assumed to invert printing on values whose numbers are spelled as the encoder prints them; UTF-8 decoding errors are part of it.
- LogicalRows.StreamIsInjective: that equal digests come from equal streams is a matter of SHA-256 and is not claimed.
- SavedScenarios.SavedScenarioIsRead: names at the root and in the project are taken to hold no control character, quote or backslash; for others the answer is that of KeyReadings and its witnesses.
- RowStore.Load: SQLite, its schema and cell bounds, the metadata and views tables, the two identity digests, the maximum row counts and cancellation are left out, as is the dictionary from owners to links, which repeats the link rows.
- StoreRoundTrip.RoundTrip: the maximum row counts, which the builder checks before writing, are left out.
- ConstructedLinks.ConstructedRoundTrip: stripping is assumed to be idempotent and to leave a link's own owner name alone, as it does.
- MergeJoin.JoinLinks: resistances and inductances are reals; a number column that is no number counts as not finite.
- ProjectBinding.BindingIsNormalForm: the three schema texts are parameters; the errors for a project whose manifests are of the wrong kind are left out; attribute access and mapping access are not distinguished.
- ViewRoundTrip.BuiltViewsPass: `str` of a value that is no text is taken to depend on the JSON value alone; scenario views of the first schema, which skip the row check, are left out.
- EscapeRoutes.ReceiverSites: the plane test is a parameter; scanning the SPD text, the proofs per component, the histogram and the sorted report are left out.
- BoardReuse.Reuse.Bind: binding a source to its termination manifest, and the checks behind the port selector identity, are given with the input.
- ModeRuns.Parity: each record is reduced to the fields the check reads; the eleven digests are one list and the four object flags another. Metrics are compared as texts, so a metric that is not a number, which differs from itself, is not modelled.
- ModeAccounts.RunModes: the option that turns a fallback into an error, the other solver profiles and the blocked-rails summary are left out.
- ModeReuse.RunOne: building and evaluating a project is a parameter that says for each rail what came of it; a board result without the rail's port, which ends the program with a key error, is not modelled; the counters of board groups are those of BoardReuse.
- ModeBatches.PassesIff: digests are assumed to be well formed and without collisions; what is found of a rail at a later mode may be anything.
- KeyReadings.ScanMeetsJson: keys are compared as UTF-8 texts; an unpaired surrogate keeps its three bytes and so equals no target.
- Artwork.Compose: regions are point sets with exact union and difference; validity of the final geometry, boundary tolerance and interior tests are left out.
- ViaOwnership.Certified: the digests inside the certificate and the copied fields are left out.
- Elimination.BackwardEliminate: margins are reals, so a margin that is not a number is not modelled; progress messages, timings and the comparison of frequencies are left out.
- Electrical numerics, interpolation, Touchstone conversion, decap models, geometry libraries, compression, archives, SHA-256 and Unicode tables are not part of this model.
- Command lines, subprocesses, file handling, progress callbacks, the graphical launcher and the field-by-field report validators are left out: they would add only easy members.
- The compiler that derives a topology from a certificate, the Distribution planner and the shared-pad derivation are called but not modelled; their results are inputs.
