# Dafny model of the Albedo runtime

This project models seven parts of the repository whose point is that a clever procedure agrees with a plain one, and proves that it does. Where the code does not meet a promise on every input, the model keeps the code as it is, gives an input that shows it, and states exactly when the promise holds.

| part | source | modules |
|---|---|---|
| client reconciler and hydration | `assets/albedo-client.js` | `Dom`, `VTree`, `Placement`, `ClientRuntime`, `PlacementLaws`, `Adoption`, `Depth`, `Siting`, `Fallback`, `FallbackRows`, `Hydration`, `Session` |
| keyed lists and the reactive driver | `assets/albedo-runtime.js`, `assets/albedo-reactive.js` | `ListSink`, `ListLaws`, `ListDelta`, `ListBare`, `ListTwins`, `ListSeed`, `ListShown`, `ListReplays`, `ListRuntime`, `ListRuns`, `ListThrows`, `ListDelivery`, `BakaboxRuntime`, `Reactive` |
| trunk election between tabs | `assets/phosphor.js` | `Phosphor`, `PhosphorTab`, `PhosphorRuns`, `PhosphorCensus`, `PhosphorEffects`, `PhosphorOwner` |
| render scheduling | `src/graph.rs`, `src/analysis/*`, `src/lib.rs` | `ComponentGraphs`, `Levels`, `Critical`, `Schedule` |
| response cache, single flight, journal | `src/aperture/*` | `ApertureCache`, `ApertureClient`, `ApertureFlight`, `Journal` |
| incremental invalidation | `src/incremental.rs` | `Invalidation` |
| wire codec | `assets/bincode.js` | `Wire`, `WireLaws`, `WireBytes`, `WireText`, `WireReader`, `WireEnvelope` |

How each part is set up:

- **Client.** A document is a map from node ids to labels and child lists. Components are pure renders, so a virtual tree is finite. The methods of `ClientRuntime.Client` change the document in place. `Settles`, computed from the old instance tree and the new virtual tree alone, says when an update lands in place. `Client.Reconcile` proves that the result is the freshly mounted tree, in the old tree's position, if and only if `Settles` holds; `TameSettles` and the two counterexamples say which trees those are. Hydration creates no node if and only if the document is `Adoptable`, and then the tree is ready for later updates if and only if it is also `Snug`; `Session.Revive` joins the two halves: what a mount leaves, a hydration takes over whole. When the markup does not line up, `Layout` says which server nodes stay and where the new ones go, and `Smooth` says exactly when every container then holds the nodes of its row in order.
- **Lists.** One anchor's rows are a value `List`. `Outcomes` says what a desired row list should show, with the identity of every untouched row; the delta, the positioned insert and the full rebuild are each proved to give it. `ListRuns` adds slots, several anchors per slot and the operations that wait for an anchor; `ListThrows` says where a run stops when an insert throws, and what it leaves. `ListDelivery` states what a delivery and a binding do to each list without going through their definitions.
- **Election.** `Phosphor.Happen` is what one event does to one tab; the class `PhosphorTab.Lane` does the same in place. `PhosphorRuns` runs any number of tabs over messages that may be delayed, reordered, repeated or lost. A lock may be granted to any tab at any time, which covers stealing and frozen owners. Handlers deliver to their own tab before they post, so one runs inside another; `PhosphorEffects` and `PhosphorOwner` say what is left once all have run: what the page is shown, what is posted, which claims stand and which trunk is open.
- **Scheduling.** The depth-first search carries the finishing order as its certificate of acyclicity. Times are non-negative reals.
- **Response cache.** An upstream is a function from a resource and a time to its representation. `Reply`, `Sent` and `Leaves` say what a call answers, what it puts on the wire and what it leaves in the cache; `Conforms` is what the cache promises of an answer, and `CallSound` says exactly when a call keeps it. The single-flight coalescer is a state machine over its interleavings.
- **Wire.** Text is modelled by its UTF-8 bytes. Parsers return what is left, so a round trip is stated for any bytes that follow. `WireBytes` fixes the bytes themselves, and `WireText` which bytes are text.

Where the code and its own comments or documentation differ, the model follows the code:

- `src/lib.rs:207-212` says that adding a dependency fails when it would close a cycle; `src/graph.rs:50-62` adds it, and `validate` reports it later. An edge closes a cycle exactly when its far end already reaches its near end: `ComponentGraphs.LinkAcyclic`; any component accepts an edge to itself: `ComponentGraphs.SelfEdge`.
- `src/aperture/cache.rs:76-81` says that no combination of inputs can forge another key. The key is built from the raw address. While methods hold no separator, two different requests share a key exactly when one address has drawn the start of the other's audience tag into it, which takes a principal whose id holds the separator: `ApertureCache.KeysEqual`, `ApertureCache.AbsorbsIds` and, for an input, `ApertureCache.KeysMeet`.
- `src/aperture/client.rs:188-200` lets a caller send headers of its own, and `src/aperture/client.rs:653-671` adds the client's condition to them. A condition of the caller's own makes an honest 304 speak of the caller's copy: a stale body is then served as not modified, or the call fails though the round trip did not: `ApertureClient.OwnConditionMisleads`. A request can be trusted with every honest upstream exactly when it is a write or carries no such header: `ApertureClient.TrustedIff`; `ApertureClient.MisledIff` is the condition at one call.
- `assets/phosphor.js:623-624` says that an accession's epoch beats everything already seen. It beats what its own tab has seen, and everything minted exactly when that tab has seen the newest epoch or its clock has passed it: `PhosphorRuns.BeatsIffSeenOrPassed`. Two tabs can mint the same epoch, and both stay owners: `PhosphorRuns.TiedOwners`. At most one owner is left exactly when at most one of the tabs that minted the newest epoch has kept its lock and stayed visible since: `PhosphorRuns.OneOwnerIffOneStands`.
- `assets/albedo-runtime.js:1157-1160` says that a redelivered insert is idempotent. An insert throws instead exactly when it rebuilds the very row it is to land ahead of: `ListTwins.ThrowsIffRebuilt`, with `ListTwins.OwnRowThrows` for an input. That row is then registered to a node the anchor does not have, and every other row is intact: `ListTwins.ThrowLoses`, `ListThrows.ReachSound`.
- `assets/albedo-runtime.js:902-913` replays whatever arrived before the first anchor. A full rebuild is not buffered and is lost: `ListRuns.LateBinding` and `ListRuns.EarlyRebuildLost`.
- The header of `assets/bincode.js` promises to mirror the encoder; its text decoder drops a leading byte order mark, so a frame comes back unchanged if and only if no text in it starts with one: `WireLaws.FrameRoundTrip`. Two rows with different keys can come back under one: `WireLaws.MarkedKeysMeet`.
- `assets/albedo-runtime.js:1104-1141` brings an anchor to match the desired rows. Children without a key end up ahead of all rows, so a delta and the rebuild it agrees with on rows place them alike exactly when no row that stays stands ahead of one: `ListBare.DeltaWhole`, `ListBare.InsertWhole` and, for an input, `ListBare.BareBehind`.
- `assets/albedo-client.js:791-793` promises a clean mount wherever the server markup does not line up. The cursor is lost with the node that is replaced, so the rest of a nested group goes to the end of the container, and the siblings of the group are hydrated from among other nodes: `Siting.NestedGroupAstray`. Every container holds its row in order if and only if nothing that renders a node is hydrated from such a cursor: `Hydration.HydratedLeaves`; trees whose groups come last never are: `Siting.TameSmooth`.
- Components may be added again under an id the graph already has; the graph is then no longer consistent: `ComponentGraphs.ComponentGraph.AddComponent`.

## Model

| member | source | states |
|---|---|---|
| Dom.AttachConsistent | assets/albedo-client.js:600-610 | inserting a node of any placement keeps parent links and child lists describing one tree |
| VTree.MountedShows | assets/albedo-client.js:698-742 | an instance tree the document agrees with shows exactly the markup a fresh mount of its virtual tree paints |
| VTree.NodesRendered | assets/albedo-client.js:566-590 | an instance occupies as many nodes as its virtual tree renders |
| VTree.NodesOwned | assets/albedo-client.js:566-590 | collected nodes belong to the instance and, when no node is owned twice, are distinct |
| ClientRuntime.CollectInstanceNodes | assets/albedo-client.js:566-590 | appends exactly the nodes an instance occupies, in document order |
| ClientRuntime.FirstInstanceNode | assets/albedo-client.js:592-596 | the first of those nodes, if there is any |
| ClientRuntime.UpdatedProps | assets/albedo-client.js:966-986 | an element that carried the old properties ends with exactly the new ones |
| ClientRuntime.Client.InsertInstance | assets/albedo-client.js:600-610 | all nodes of an instance move as one run to just ahead of the reference node; nothing else in the document moves |
| ClientRuntime.Client.RemoveInstance | assets/albedo-client.js:613-630 | exactly the instance's nodes leave the container, the rest keep their order |
| ClientRuntime.Client.MountChildren | assets/albedo-client.js:635-643 | children are built from new nodes and appended in order; every old node but the container is untouched |
| ClientRuntime.Client.Instantiate | assets/albedo-client.js:698-742 | the built tree shows the virtual tree, owns only new nodes, none twice, and old nodes keep labels and children |
| ClientRuntime.Client.NextAnchor | assets/albedo-client.js:670-694 | the anchor of a slot is the first node of any later sibling that has one |
| ClientRuntime.Client.ReconcileChildList | assets/albedo-client.js:670-694 | index-by-index diff: nodes kept in place and nodes appended at the end are split as predicted from the old instances and the new children |
| ClientRuntime.Client.Reconcile | assets/albedo-client.js:812-915 | old tree replaced in place by what a fresh mount produces, the rest of the container unchanged, if and only if the placement settles; at every depth texts and elements under the same type keep their node, and under another type no old node is taken over; dropping removes exactly the old nodes |
| ClientRuntime.Client.Append | assets/albedo-client.js:812-830 | a tree with no predecessor lands ahead of the anchor, or last |
| ClientRuntime.Client.Replace | assets/albedo-client.js:831-846 | a tree of another type takes the old tree's place before the old one is removed |
| ClientRuntime.Client.Patch | assets/albedo-client.js:847-915 | a tree of the same type is updated in place by kind, on the nodes it has |
| ClientRuntime.Client.PatchHost | assets/albedo-client.js:890-915 | an element keeps its node and position; its properties and children become the new ones |
| ClientRuntime.Client.Flush | assets/albedo-client.js:538-551 | an update without an anchor settles under the same condition with no anchor |
| ClientRuntime.OneRun | assets/albedo-client.js:670-694 | nodes kept and nodes appended form one run in order exactly when nothing appended has to pass what follows |
| ClientRuntime.PlacedIffSettles | assets/albedo-client.js:812-915 | the document holds the fresh tree in place if and only if the placement settles, and then shows its markup |
| Placement.StrayBound | assets/albedo-client.js:847-888 | never more nodes stray than the new tree renders |
| Placement.SplitOrder | assets/albedo-client.js:670-694 | joining two slots keeps tree order exactly when each does and nothing is kept after a stray |
| PlacementLaws.TameSettles | assets/albedo-client.js:847-888 | trees whose fragments and providers stand only last in a host element settle, from every old tree of the same kind |
| PlacementLaws.AnchoredStays | assets/albedo-client.js:812-846 | an anchored slot that is not a group never strays |
| PlacementLaws.AllStray | assets/albedo-client.js:847-852 | a slot with no anchor and no node of its own sends everything it creates to the end |
| PlacementLaws.GrowingFragmentStrays | assets/albedo-client.js:882-888 | a fragment that gains a child ahead of a sibling does not settle: a concrete tree |
| PlacementLaws.FlushedEmptyStrays | assets/albedo-client.js:538-551 | a component that rendered nothing and then something, updated on its own, does not settle: a concrete tree |
| Adoption.MountedAdoptable | assets/albedo-client.js:746-797 | the nodes a mount produces are adoptable for the tree they were mounted from |
| Adoption.AdoptableFits | assets/albedo-client.js:650-663 | adoptable nodes are at least as many as the tree renders |
| Hydration.Advance | assets/albedo-client.js:650-663 | the cursor moves exactly as many siblings along as asked |
| Hydration.MountReplace | assets/albedo-client.js:799-808 | a clean mount: the new tree is built and mounted, and its nodes stand where the node that does not line up stood, which is detached; without one in the container they come last |
| Hydration.HydrateChildren | assets/albedo-client.js:650-663 | children adopt consecutive siblings, each starting where the one before ended; where some do not line up, their nodes end in order in the container if and only if the row is smooth |
| Hydration.HydrateInstance | assets/albedo-client.js:746-797 | a node is created exactly when the markup is not adoptable; otherwise the instance stands for the first siblings in order; a tree that begins with a text or an element the cursor's node is not is mounted clean in that node's place, which is detached |
| Hydration.Hydrate | assets/albedo-client.js:1319-1324 | no node is created if and only if the server markup is adoptable; then nothing moves and every demand of a later reconcile is met if and only if elements hold nothing extra; adopted or not, every container holds its row in order if and only if the tree is smooth over the markup |
| Hydration.HydratedLeaves | assets/albedo-client.js:746-808 | over smooth markup the first nodes stand where the siblings they took over or replaced stood, the siblings not reached follow, the other nodes come last, and all show their text or attributes; no server node is left exactly when all were reached |
| Fallback.ReplaceSites | assets/albedo-client.js:799-808 | a node that does not line up makes way for the fresh tree, nodes elsewhere keep their labels, parents and order |
| FallbackRows.RowGoesOn | assets/albedo-client.js:650-663 | one more tree of a row, from wherever the cursor stands after the ones before: on the next sibling, past the last, or among other nodes |
| Siting.TameSmooth | assets/albedo-client.js:650-663 | trees whose fragments and providers come last in their row are smooth over any server markup |
| Siting.NestedGroupAstray | assets/albedo-client.js:650-663 | a nested fragment that loses its cursor ahead of a sibling is not smooth, and the same fragment last is: concrete trees |
| Siting.NoneLeft | assets/albedo-client.js:799-808 | over no server node every tree is smooth and all its nodes are mounted at the end |
| Siting.LayoutCounts | assets/albedo-client.js:746-808 | nodes in place and nodes at the end are as many as the tree renders |
| Siting.SeatedBefore | assets/albedo-client.js:746-808 | nodes out of their order never come back into it while nodes only leave or are new |
| Depth.AttachedApart | assets/albedo-client.js:746-797 | an instance tree that agrees with a document tree owns no node twice |
| Depth.AdoptedReady | assets/albedo-client.js:1319-1324 | an adopted tree meets the preconditions of reconcile, so hydrated and mounted trees are updated alike |
| Depth.LiveRanked | assets/albedo-client.js:698-742 | a container that holds a mounted tree and nothing else is the root of a tree of nodes, which is what adoption asks for |
| Session.StaysLive | assets/albedo-client.js:538-551 | a settled update leaves the tree ready for the next one |
| Session.MountLive | assets/albedo-client.js:698-742 | a tree mounted into an empty container is live |
| Session.Revive | assets/albedo-client.js:1319-1324 | hydrating the page a mount of the same tree left makes and moves no node and takes it over live |
| Session.Rerender | assets/albedo-client.js:538-551 | after any run of updates to trees of that kind the container shows the last one as if freshly mounted |
| ListSink.DropValid | assets/albedo-runtime.js:1058-1061 | removing a row keeps the key map a bijection onto the keyed children and every other row its node |
| ListSink.SwapValid | assets/albedo-runtime.js:1062-1076 | replacing a row's node keeps the bijection |
| ListSink.UpsertFacts | assets/albedo-runtime.js:1189-1211 | one upserted row lands ahead of the marker, every other row keeps its node, and the marker stays |
| ListSink.FoldLaw | assets/albedo-runtime.js:1189-1211 | any run of distinct rows lands as one block ahead of the marker, with the expected node for each |
| ListSink.KeepFacts | assets/albedo-runtime.js:1109-1116 | exactly the rows that are not wanted any more are dropped |
| ListSink.ReconcileLaw | assets/albedo-runtime.js:1104-1141 | a full rebuild shows exactly the desired rows in order and keeps the node of every row whose markup did not change |
| ListSink.ViewIs | assets/albedo-runtime.js:1104-1141 | keys in order and one right row per key determine what a list shows |
| ListDelivery.OpShows | assets/albedo-runtime.js:1041-1212 | a batch, an insert or a rebuild that names no row twice leaves the list showing the rows it asks for, in order, with the node of every row whose markup did not change |
| ListReplays.RebuildReplays | assets/albedo-runtime.js:1097-1141 | delivering the same rebuild twice is delivering it once, node for node |
| ListReplays.DeltaReplays | assets/albedo-runtime.js:1027-1080 | delivering the same batch twice is delivering it once, node for node |
| ListLaws.InsertIsReconcile | assets/albedo-runtime.js:1162-1212 | a positioned insert shows what rebuilding from the spliced row list shows, with the same surviving nodes; a missing position means the tail |
| ListLaws.InsertReplays | assets/albedo-runtime.js:1157-1212 | delivering the same insert twice is delivering it once, node for node |
| ListBare.InsertWhole | assets/albedo-runtime.js:1162-1212 | a positioned insert leaves every child, keyed or not, where the rebuild leaves it if and only if, inserted rows aside, no unkeyed child stands behind a row |
| ListLaws.Rotate | assets/albedo-runtime.js:1189-1211 | rows already in place are moved without changing anything but their position |
| ListDelta.ReconcileSlotDelta | assets/albedo-runtime.js:374-402 | the loops compute the plan: first-named order, last positive payload, retraction |
| ListDelta.OrderFacts | assets/albedo-runtime.js:374-387 | every key a batch names is planned once, and no other |
| ListDelta.PlanSteps | assets/albedo-runtime.js:389-401 | each key's one step: patch or insert by whether it is held, removal only of a held key without an insert |
| ListDelta.PlanLaw | assets/albedo-runtime.js:1045-1080 | running a plan drops, appends and repaints exactly what it says and leaves every other row its node |
| ListDelta.DeltaIsReconcile | assets/albedo-runtime.js:1045-1141 | a batch of changes shows what rebuilding from the updated row list shows, in order, markup and surviving node identity |
| ListBare.DeltaWhole | assets/albedo-runtime.js:1045-1141 | a batch of changes leaves every child, keyed or not, where the rebuild leaves it if and only if, retracted rows aside, no unkeyed child stands behind a row |
| ListBare.RebuildFirst | assets/albedo-runtime.js:1104-1141 | a rebuild leaves the unkeyed children, in order, ahead of all rows |
| ListBare.BareBehind | assets/albedo-runtime.js:1104-1141 | a row with an unkeyed child behind it is turned round by a rebuild and left by an empty batch: a concrete list |
| ListShown.RebuildShows | assets/albedo-runtime.js:1104-1141 | a rebuild makes an anchor show exactly the rows it was handed if and only if their keys are distinct and none is blank, whatever it showed before |
| ListTwins.OpValid | assets/albedo-runtime.js:1027-1212 | every operation keeps the bijection, and only a positioned insert can throw |
| ListTwins.ThrowsIffRebuilt | assets/albedo-runtime.js:1181-1211 | an insert throws if and only if the position is held and one of its rows rebuilds that very row |
| ListTwins.OwnRowThrows | assets/albedo-runtime.js:1198-1211 | a one-row list and an insert ahead of that row that repaints it: the throw, and the list it leaves |
| ListTwins.ThrowLoses | assets/albedo-runtime.js:1198-1211 | a throw leaves the marker's key registered to a detached node, and the rest of the list a bijection |
| ListTwins.FoldTornAfter | assets/albedo-runtime.js:1189-1211 | the rows ahead of the one that throws are in place, that one is registered to a node the anchor does not have, and the ones behind it are untouched |
| ListTwins.TwinOp | assets/albedo-runtime.js:1041-1044 | two lists that show the same rows still do after any operation, or both throw |
| ListSeed.SeedRowsByKey | assets/albedo-runtime.js:925-944 | one pass over rendered children gives a valid list |
| ListSeed.SeededValid | assets/albedo-runtime.js:925-944 | the seeded key map is a bijection, whatever keys repeat |
| ListSeed.SeededHolds | assets/albedo-runtime.js:925-944 | every rendered child stays in its place with its identity and markup, and a key belongs to the last child that carries it, and to no other |
| ListRuntime.KeyedList.ApplySlotDelta | assets/albedo-runtime.js:1045-1080 | the in-place loop over the plan is the specified fold, and keeps the bijection |
| ListRuntime.KeyedList.ApplyStep | assets/albedo-runtime.js:1050-1077 | one planned step in place |
| ListRuntime.KeyedList.ApplyReconcileList | assets/albedo-runtime.js:1104-1141 | the in-place rebuild is the specified one, in whatever order the map yields its keys |
| ListRuntime.KeyedList.DropOthers | assets/albedo-runtime.js:1109-1116 | the removal pass in any order drops exactly the unwanted rows |
| ListRuntime.KeyedList.ApplySlotInsert | assets/albedo-runtime.js:1176-1212 | the in-place insert is the specified one; it throws exactly when the specification says so, which is exactly when the list is no bijection afterwards, and leaves the specified list |
| ListRuntime.KeyedList.UpsertRow | assets/albedo-runtime.js:1193-1211 | find, rebuild, stamp, register and place one row; when the marker was just detached it throws and leaves the new node registered and nowhere |
| ListRuns.RunSound | assets/albedo-runtime.js:876-943 | over every run that ends, key maps stay bijections and operations wait only for slots without an anchor |
| ListDelivery.DeliverReaches | assets/albedo-runtime.js:1027-1044 | after a delivery every anchor of the slot has its operation, in its place; without an anchor it waits last, unless it is a rebuild; no other slot changes |
| ListDelivery.BindJoins | assets/albedo-runtime.js:876-914 | a second, different anchor joins the ones there are, which keep their lists; the first one has taken all that waited, in order |
| ListDelivery.RunFolds | assets/albedo-runtime.js:876-1044 | over any run that ends a bound list is what the operations of its own slot make of it, in the order they arrived |
| ListThrows.RunThrows | assets/albedo-runtime.js:1176-1212 | a run throws if and only if it gets to an event that rebuilds the marker of its own insert at some bound anchor, drained operations included |
| ListThrows.ReachSound | assets/albedo-runtime.js:876-1212 | over every run all key maps are bijections afterwards if and only if nothing threw; a throw costs one row of one list and no other |
| ListThrows.StopLoses | assets/albedo-runtime.js:1162-1212 | the list at which a delivery throws loses the row named as its position; lists ahead of it have the operation, those behind it have not |
| ListThrows.StopBreaks | assets/albedo-runtime.js:1041-1044 | a delivery that throws leaves the anchors ahead with the operation, one torn, those behind and every other slot as they were |
| ListRuns.LateBinding | assets/albedo-runtime.js:876-914 | binding the first anchor after a stream of operations gives what binding it before gives, full rebuilds excepted |
| ListRuns.EarlyRebuildLost | assets/albedo-runtime.js:1097-1101 | a full rebuild that arrives before its anchor is lost: a concrete run |
| ListRuns.TwinRun | assets/albedo-runtime.js:879-892 | two renderings of one topic that agree keep agreeing over every run that ends |
| ListThrows.TwinStop | assets/albedo-runtime.js:879-892 | two renderings of one topic that agree keep agreeing up to the delivery that throws |
| ListThrows.TwinsPart | assets/albedo-runtime.js:1041-1044 | a throw at the first of two such renderings parts them; one ahead of both or behind both does not; the second never throws first |
| BakaboxRuntime.ApplyToAll | assets/albedo-runtime.js:1041-1044 | every bound anchor gets the operation, up to the first one at which it throws |
| BakaboxRuntime.Bakabox.DeliverOp | assets/albedo-runtime.js:1027-1044 | every anchor of the slot takes the operation, or it waits when there is none and it is not a full rebuild, and nothing else changes; on a throw, exactly the lists the specification leaves |
| BakaboxRuntime.Bakabox.RegisterListAnchor | assets/albedo-runtime.js:876-914 | a second binding of one element changes nothing; another anchor is added behind the ones there are; the first anchor of a slot drains what waited, in order, up to the first throw |
| Reactive.NameInjective | assets/albedo-reactive.js:160-169 | slot names never collide, within an install or across installs |
| Reactive.BuildIndex | assets/albedo-reactive.js:192-243 | the dependency map holds exactly the declared dependencies |
| Reactive.Pending | assets/albedo-reactive.js:270-291 | the bindings to recompute are exactly those a written slot reaches |
| Reactive.CleanDerived | assets/albedo-reactive.js:270-282 | a binding no written slot reaches already shows its value on the new state |
| Reactive.Island.constructor | assets/albedo-reactive.js:143-333 | after install every derived slot shows its thunk on the state, and every list, rebuilt through the sink over its rendered anchor, shows its rows exactly when they have distinct keys and none is blank; other installs' slots are untouched |
| Reactive.Island.Emit | assets/albedo-reactive.js:260-269 | each write lands in the state and in its own slot |
| Reactive.LastWriteStays | assets/albedo-reactive.js:260-269 | of the writes to one slot the last stays |
| Reactive.Island.Relist | assets/albedo-reactive.js:224-233 | each list that is asked and whose thunk gives rows is rebuilt to them, every other list is as it was |
| Reactive.ReadersAre | assets/albedo-reactive.js:284-291 | the lists asked are exactly those that read a written slot |
| Reactive.Island.Dispatch | assets/albedo-reactive.js:254-292 | after a handled event every derived slot and, in the same sense, every list shows its thunk on the new state, as if all had been recomputed; slots not written and lists that read no written slot, or whose thunk gives no rows, are as they were |
| Reactive.Vm.ReconcileList | assets/albedo-runtime.js:1097-1141 | the named list is rebuilt in place and no other changes |
| Reactive.OthersUndisturbed | assets/albedo-reactive.js:160-169 | one install's dispatch leaves every other install's derived slots current |
| Phosphor.HappenSound | assets/phosphor.js:112-356 | every event keeps an active owner's epoch equal to the newest its tab has seen, never lowers that, and posts only messages stamped with it |
| Phosphor.AccedeSound | assets/phosphor.js:336-363 | an accession mints an epoch above everything its tab has seen, announces it and is active |
| Phosphor.EpochsAscend | assets/phosphor.js:159-171 | the epochs a tab acts on never decrease, over any events |
| Phosphor.StaleIgnored | assets/phosphor.js:165-166 | a message stamped below the newest epoch changes nothing |
| PhosphorEffects.PageIs | assets/phosphor.js:248-264 | an event shows the page exactly the frame it brings that is no older than the newest epoch seen, of the route the tab is on, and for every tab there or for it alone |
| PhosphorEffects.RunShows | assets/phosphor.js:159-264 | over any events the page is shown exactly those frames, in the order they come, delivered or the tab's own |
| PhosphorEffects.PostsAre | assets/phosphor.js:148-610 | what each event posts: what came over an owner's trunk under its epoch with the same route, nonce and data, an acknowledgement for a claim once there is a lane, a claim of its own from a deposed owner |
| PhosphorEffects.FlightIs | assets/phosphor.js:147-157 | over any run of any tabs, what a move posts is on its way to every other tab, and nothing else comes or goes |
| PhosphorOwner.HappenGoverns | assets/phosphor.js:159-610 | what each event does to the ownership and the epochs, to every single claim, and to the trunk and the lane |
| PhosphorOwner.StaysTuned | assets/phosphor.js:437-508 | over any events an open trunk carries dev events exactly when a dev tab has asked |
| PhosphorOwner.PristineIs | assets/phosphor.js:187-264 | a page stops being as rendered exactly when a frame is shown or its claim is acknowledged |
| PhosphorTab.Lane.HandleMessage | assets/phosphor.js:159-210 | the handler's in-place effect on the tab, nested deliveries included; a frame is shown exactly when it is meant for the tab |
| PhosphorTab.Lane.PublishMsg | assets/phosphor.js:148-157 | local delivery first, then the channel |
| PhosphorTab.Lane.Demote | assets/phosphor.js:386-400 | a demoted owner has no trunk, lane or census |
| PhosphorTab.Lane.AccedeAt | assets/phosphor.js:337-363 | accession in place |
| PhosphorTab.Lane.OnAttach | assets/phosphor.js:402-425 | a claim is recorded, is no ghost any more, opens the trunk and is acknowledged once there is a lane |
| PhosphorTab.Lane.OnDetach | assets/phosphor.js:427-435 | a claim is dropped, and its route with the last one |
| PhosphorTab.Lane.FlushClaims | assets/phosphor.js:525-546 | every claim is acknowledged, in whatever order the map yields them |
| PhosphorTab.Lane.RunCensus | assets/phosphor.js:572-585 | a census asks about every claim but the owner's own |
| PhosphorTab.Lane.EndCensus | assets/phosphor.js:586-595 | the nested eviction loops drop exactly the remaining ghosts of that round |
| PhosphorTab.EvictedOne | assets/phosphor.js:427-435 | detaching one more ghost extends the eviction by it |
| PhosphorCensus.CensusEvicts | assets/phosphor.js:572-595 | over any events in between, a census evicts exactly the claims of other tabs that stood when it began and were not made again |
| PhosphorRuns.NextInv | assets/phosphor.js:157-363 | every move of every tab keeps: epochs at most the newest, and whoever has not seen the newest has its announcement coming |
| PhosphorRuns.OwnersHoldNewest | assets/phosphor.js:336-363 | once all announcements have arrived, every active owner holds the newest epoch ever minted, by its own accession |
| PhosphorRuns.OwnersAreStanding | assets/phosphor.js:157-400 | in every run, once all announcements have arrived, a tab is an active owner if and only if it minted the newest epoch and has neither lost its lock nor been hidden since |
| PhosphorRuns.OneOwnerIffOneStands | assets/phosphor.js:157-400 | so at most one tab is then an active owner if and only if at most one such tab is left |
| PhosphorRuns.UntiedOneOwner | assets/phosphor.js:157-363 | in particular when no accession ties with the newest epoch |
| PhosphorRuns.BeatsIffSeenOrPassed | assets/phosphor.js:623-627 | an accession beats everything minted so far if and only if its tab has seen the newest epoch or its clock has passed it |
| PhosphorRuns.TiedOwners | assets/phosphor.js:623-627 | two tabs on the same clock reading that have not heard each other both stay owners: a concrete run for every reading |
| PhosphorRuns.EpochMinted | assets/phosphor.js:336-363 | no event but its own accession makes a tab an owner or changes its epoch |
| ComponentGraphs.ComponentGraph.AddComponent | src/graph.rs:30-48 | the component is stored and indexed; the graph stays consistent exactly when the id is new |
| ComponentGraphs.ComponentGraph.AddDependency | src/graph.rs:50-62 | an unknown end is reported; otherwise exactly one edge is added, in both directions, and the graph is acyclic after it if and only if it was and the far end did not reach the near end |
| ComponentGraphs.LinkAcyclic | src/graph.rs:50-62 | an edge keeps a graph acyclic if and only if it was and the edge's far end does not reach its near end |
| ComponentGraphs.SelfEdge | src/graph.rs:50-62 | every component accepts an edge to itself, which is a cycle |
| ComponentGraphs.DetectCycleDfs | src/graph.rs:115-138 | no cycle found means all visited nodes are finished in dependency order; a found pair is a back edge; the unvisited set shrinks |
| ComponentGraphs.Validate | src/graph.rs:100-113 | succeeds if and only if the graph has no cycle; an error pair is an edge whose far end reaches back |
| ComponentGraphs.OrderedAcyclic | src/graph.rs:100-138 | a graph whose components can be put in dependency order has no cycle |
| Levels.CalculateOutDegrees | src/graph.rs:145-157 | each component's number of dependencies |
| Levels.SerialNextLevel | src/analysis/parallel_topo.rs:87-110 | on any input, the touched unprocessed components whose degree reaches zero, and all degrees after it |
| Levels.ParallelNextLevel | src/analysis/parallel_topo.rs:60-85 | the same specification, counting first and lowering after |
| Levels.StepsAgree | src/analysis/parallel_topo.rs:60-110 | serial and parallel step give the same degrees and the same components on any input |
| Levels.LevelStep | src/analysis/topological.rs:32-55 | from level k the next one is exactly level k + 1 |
| Levels.DegreesStep | src/analysis/topological.rs:32-55 | degrees keep counting what a component still waits for |
| Levels.EmptyLevelLast | src/analysis/topological.rs:57-64 | in an acyclic graph the first empty level comes after every component |
| Levels.Sort | src/analysis/parallel_topo.rs:18-57 | succeeds if and only if the graph is acyclic and its insertion count is its size; level k is then exactly the components whose longest dependency chain has length k, and all components are levelled |
| Critical.NoReturn | src/analysis/parallel_topo.rs:235-245 | in an acyclic graph a chain of dependents never returns |
| Critical.LongestTimeFrom | src/analysis/parallel_topo.rs:235-263 | every recorded total is the heaviest chain's and every recorded successor attains it |
| Critical.PathFrom | src/analysis/parallel_topo.rs:265-282 | the walked path is a real chain of that weight that ends where no dependent is left: the length guard never cuts it |
| Critical.FindLongestPath | src/analysis/parallel_topo.rs:284-293 | a real chain, its weight, and no chain from that component is heavier |
| Critical.FindLongestPathFrom | src/analysis/topological.rs:135-172 | the backtracking walk returns a heaviest chain too |
| Critical.HeaviestUnique | src/analysis/topological.rs:135-172 | two walks that each return the heaviest total return the same total |
| Critical.FromRoot | src/analysis/parallel_topo.rs:170-202 | every chain can be started at a component that needs nothing |
| Critical.FindCriticalPathParallel | src/analysis/parallel_topo.rs:170-202 | a chain from a component that needs nothing to one that nothing needs, at least as heavy as every chain of the acyclic graph, and empty only for an empty graph |
| Critical.FindCriticalPath | src/analysis/topological.rs:112-134 | the sequential search is at least as heavy as every chain as well |
| Schedule.MakeBatch | src/analysis/parallel_topo.rs:149-168 | a batch lasts as long as the slowest of its components: one of them takes that time, unless none takes any, and none takes longer |
| Schedule.CreateBatches | src/analysis/parallel_topo.rs:129-147 | one batch per level, in order, deferrable after the first |
| Schedule.LevelsScheduled | src/analysis/parallel_topo.rs:129-168 | batch i holds exactly the components of level i and is deferrable exactly after the first; every component is in exactly one batch |
| Schedule.ChainWithinLevels | src/analysis/parallel_topo.rs:170-202 | a chain costs no more than the longest of each level from its own on |
| Schedule.FlatDistinct | src/analysis/parallel_topo.rs:18-57 | no component is in two levels |
| Schedule.ScheduleBounds | src/lib.rs:231-245 | critical path <= sum of batch maxima <= sum of all times, in any order of summing |
| Schedule.Optimize | src/lib.rs:220-262 | succeeds if and only if the graph is acyclic and its count right; then the path is a complete chain none is heavier than, the batches are the levels with the time of their slowest, and the batched cost, their sum, lies between the path and the sequential cost, whose difference to it is the improvement |
| ApertureCache.KeysEqual | src/aperture/cache.rs:57-94 | while methods hold no separator, two requests share a key if and only if the upper-cased methods agree and either address and audience do or one address absorbs the start of the other's tag |
| ApertureCache.AbsorbsIds | src/aperture/cache.rs:57-94 | which takes a principal whose id holds the separator, and an address that holds it too |
| ApertureCache.KeysMeet | src/aperture/cache.rs:73-94 | such a principal and such an address, for every method and address |
| ApertureCache.TagInjective | src/aperture/cache.rs:57-69 | audiences have distinct tags |
| ApertureCache.UpperRaised | src/aperture/cache.rs:82-94 | exactly the letters a to z are raised |
| ApertureCache.ResponseCache.Get | src/aperture/cache.rs:218-236 | a read makes the entry the most recent and is fresh exactly within the caller's window |
| ApertureCache.ResponseCache.Insert | src/aperture/cache.rs:248-258 | the response is stored as verified now and most recent; ticks stay distinct and behind the clock |
| ApertureCache.ResponseCache.MarkRevalidated | src/aperture/cache.rs:267-279 | only recency and the verification time change |
| ApertureCache.ResponseCache.ResidentBytes | src/aperture/cache.rs:300-302 | the sum of the footprints, whatever the order |
| ApertureCache.ResponseCache.EnforceByteBudget | src/aperture/cache.rs:310-340 | ends within budget, dropping exactly the shortest least-recently-used prefix that achieves it |
| ApertureCache.EvictsUnique | src/aperture/cache.rs:310-340 | that set is the only one with this property |
| ApertureCache.NewestKept | src/aperture/cache.rs:310-340 | the most recent entry is dropped exactly when it does not fit by itself |
| ApertureClient.ReadsAre | src/aperture/client.rs:223-225 | a read is a GET or a HEAD, in any case |
| ApertureClient.RequestsShare | src/aperture/client.rs:408-410 | two requests share what is stored exactly when their methods agree but for case and their address and audience do, or one address absorbs |
| ApertureClient.WireIs | src/aperture/client.rs:650-671 | what goes out is the request, its method raised, its own headers and then one condition: a read's stored entity tag, or with a date alone the date, and for anything else none |
| ApertureClient.MayConfirm | src/aperture/client.rs:650-671 | a stale read may honestly be answered with a 304 exactly when the representation still has the stored validator, or one the caller's own headers name; the stored response is then served |
| ApertureClient.InsertedStays | src/aperture/client.rs:506-531 | a full response is kept exactly when it fits by itself, and while everything fits nothing else goes |
| ApertureClient.MatchConfirms | src/aperture/client.rs:653-671 | a match that none of the caller's own headers makes means the stored body is the upstream's current one |
| ApertureClient.Client.OnNotModified | src/aperture/client.rs:489-505 | a 304 renews and serves the stored body, and fails when there is none |
| ApertureClient.Client.OnResponse | src/aperture/client.rs:506-531 | a full response is compared with the last one, stored as the most recent and returned, and the budget holds after it |
| ApertureClient.Client.OnFailure | src/aperture/client.rs:532-546 | a failure serves the last stored response if there is one, and is reported otherwise |
| ApertureClient.Client.Perform | src/aperture/client.rs:477-546 | the wire request that is sent, with the stored entity tag or else the stored date for a read, the answer that is given and what is left in the cache, for every answer of the transport |
| ApertureClient.Client.Fetch | src/aperture/client.rs:395-420 | for every request: nothing is sent exactly for refusals and for a stored response within the caller's window, which is the answer; effects are sent without a condition and touch no entry; the rest is one round trip, after which a full response that fits is held |
| ApertureClient.CallSound | src/aperture/client.rs:395-546 | with an honest upstream and genuine entries a call keeps every promise if and only if it is not misled, and leaves the entries genuine if and only if it is not misled over a stored body |
| ApertureClient.MisledIff | src/aperture/client.rs:477-505 | some honest answer misleads a call if and only if the caller's own header confirms the upstream's representation and the stored body is another, or there is none |
| ApertureClient.OwnConditionMisleads | src/aperture/client.rs:653-671 | for every read with a condition of its own: an honest upstream and a stored body that is served stale as not modified, and an empty cache over which the call fails |
| ApertureClient.TrustedIff | src/aperture/client.rs:188-200 | no honest upstream with identifying validators can mislead a request, whatever is stored, if and only if it is a write or carries no condition of its own |
| ApertureClient.RunSound | src/aperture/client.rs:395-546 | over every sequence of calls at growing times every answer keeps the promises if and only if no call is misled |
| ApertureClient.RunKept | src/aperture/client.rs:395-546 | every answer of every run keeps the promises while callers of reads send no conditions of their own |
| ApertureFlight.NextInv | src/aperture/client.rs:424-473 | every step keeps: the slot of a resource is taken exactly while its leader works, and answers are published ones |
| ApertureFlight.SingleFlight | src/aperture/client.rs:424-473 | while leaders finish, in every interleaving: one round trip per resource at a time, and every caller gets the outcome of a leader of the same resource |
| ApertureFlight.NobodyStuck | src/aperture/client.rs:430-473 | while leaders finish, a caller without an answer has a step to take, or the leader it follows has |
| ApertureFlight.RunEnds | src/aperture/client.rs:430-473 | and without newcomers the callers take no more steps than a bound their state gives, so all are answered |
| ApertureFlight.AbandonStrands | src/aperture/client.rs:448-455 | a leader dropped mid-request leaves the slot taken |
| ApertureFlight.StrandedForever | src/aperture/client.rs:448-455 | after which it is never given back |
| ApertureFlight.TwoAtOnce | src/aperture/client.rs:430-473 | and two round trips for the resource can be under way at once: a run from every such state |
| Journal.Log.Append | src/aperture/journal.rs:222-246 | accepted exactly at the next index below the cap; earlier steps are untouched |
| Journal.Log.Settle | src/aperture/journal.rs:272-301 | accepted exactly for a held, unanswered step with the same digest; only its outcome changes |
| Journal.RunStable | src/aperture/journal.rs:222-352 | over every run of appends and settles, accepted or refused, steps keep their positions and requests, and a script that replays finds every answer it was given, at the same place |
| Journal.AnsweredOnce | src/aperture/journal.rs:272-301 | once a step is answered, no later operation on it is accepted, whatever happens in between |
| Journal.ScriptSees | src/aperture/journal.rs:331-352 | a script sees a completed step answered with its value, a failed one refused with its message, and an unknown one as null, under the step's own request |
| Journal.AnswerReaches | src/aperture/journal.rs:222-352 | the answer of an accepted operation is what every later pass of the script sees at its step, whatever happens in between |
| Journal.ScriptStable | src/aperture/journal.rs:331-352 | whatever a script has been answered, every later pass answers at the same place |
| Journal.KeyInjective | src/aperture/journal.rs:317-319 | the idempotency key names one step of one workflow, whatever the workflow id holds |
| Invalidation.IncrementalCache.GetDependents | src/incremental.rs:294-308 | exactly the components that list this one |
| Invalidation.IncrementalCache.InvalidateComponent | src/incremental.rs:283-293 | what is reached through valid components becomes invalid, for the given reasons, and leaves the cache; terminates on cycles |
| Invalidation.SpreadExact | src/incremental.rs:283-293 | from any state the invalid set after is exactly the one before and what is reached outside it |
| Invalidation.IncrementalCache.InvalidateChangedFiles | src/incremental.rs:310-331 | exactly what some component of a changed or deleted file reaches, each with its reason; everything else, cached entries included, is untouched |
| Invalidation.FromNothing | src/incremental.rs:310-331 | from nothing invalid: exactly the components that need a changed or deleted one, directly or not, and none of them is left in the cache |
| Invalidation.IncrementalCache.GetCachedAnalysis | src/incremental.rs:336-341 | an invalid component is never served |
| WireLaws.VarintReads | assets/bincode.js:248-288 | every varint width reads back, whatever follows |
| WireLaws.I32Reads | assets/bincode.js:235-245 | zig-zag weights read back over the whole 32-bit range |
| WireLaws.TextReads | assets/bincode.js:347-358 | text reads back, without a leading byte order mark |
| WireLaws.InstructionReads | assets/bincode.js:458-600 | all 18 instruction variants read back, whatever follows |
| WireLaws.FrameReads | assets/bincode.js:620-631 | any frame followed by anything reads back and leaves what followed |
| WireLaws.FrameRoundTrip | assets/bincode.js:347-358 | it comes back unchanged if and only if none of its texts starts with a byte order mark |
| WireLaws.MarkedKeysMeet | assets/bincode.js:347-358 | two rows whose keys differ by the mark alone come back under one key |
| WireLaws.NoPrefixDecodes | assets/bincode.js:620-631 | no strict prefix of an encoded frame decodes |
| WireBytes.VarintBytes | assets/bincode.js:730-774 | the bytes of every number: itself up to 250, then the marker 251, 252 or 253 and two, four or eight bytes, least significant first |
| WireBytes.MarkersRead | assets/bincode.js:248-288 | what every marker reads as, shortest form or not; 254 and 255 are refused |
| WireBytes.WeightBytes | assets/bincode.js:229-245 | weights from -125 to 124 take one byte, in the order 0, -1, 1, -2 |
| WireBytes.TableBytes | assets/bincode.js:72-91 | variants 0 and 1 byte by byte, the table kinds and the patch kinds by number |
| WireBytes.MadeBytes | assets/bincode.js:72-91 | variants 2, 5 and 6 byte by byte |
| WireBytes.PaintBytes | assets/bincode.js:72-91 | variants 3 and 4 byte by byte |
| WireBytes.BindBytes | assets/bincode.js:72-91 | variants 7, 8 and 9 byte by byte |
| WireBytes.RefBytes | assets/bincode.js:72-91 | variants 10, 11 and 12 byte by byte |
| WireBytes.SlotBytes | assets/bincode.js:72-91 | variants 13 and 14 byte by byte |
| WireBytes.DeltaBytes | assets/bincode.js:72-91 | variant 15 byte by byte |
| WireBytes.RebuildBytes | assets/bincode.js:72-91 | variant 16 byte by byte |
| WireBytes.InsertBytes | assets/bincode.js:72-91 | variant 17 byte by byte, with and without a position |
| WireBytes.FrameBytes | assets/bincode.js:620-631 | a frame's number, its optional component and its counted instructions byte by byte; variant 99 is refused |
| WireText.TextIff | assets/bincode.js:347-358 | the reader takes for text exactly the UTF-8 encodings of sequences of scalar values |
| WireReader.BincodeReader.ReadVarint | assets/bincode.js:248-288 | the cursor's varint is the specified one, errors included |
| WireReader.BincodeReader.ReadByteSlice | assets/bincode.js:328-341 | a slice within the bytes left, or an error |
| WireReader.BincodeReader.ReadString | assets/bincode.js:347-358 | valid UTF-8 or an error |
| WireReader.BincodeReader.FillRows | assets/bincode.js:304-322 | the loop of a vector read is the specified sequence of element reads, failing where they fail |
| WireReader.BincodeReader.ReadInstruction | assets/bincode.js:458-600 | the cursor reads each variant's fields in order |
| WireReader.DecodeFrame | assets/bincode.js:620-631 | the frame and the number of bytes it took |
| WireReader.ConsumedIsLength | assets/bincode.js:620-631 | for an encoded frame followed by anything that number is the encoding's length |
| WireEnvelope.EncodeActionEnvelope | assets/bincode.js:689-774 | the three segments at their moving offsets, refused exactly for a negative id or a kind outside a byte |
| WireEnvelope.EnvelopeReads | assets/bincode.js:689-774 | the envelope reads back field by field, exactly if and only if the id fits 32 bits |
| WireBytes.EnvelopeBytes | assets/bincode.js:689-774 | an envelope of one-byte fields byte by byte: id, kind, length, payload |

## Left out

Client runtime:

- Portals, hooks, effects, refs, context values, errors thrown by a render, and the unmount callbacks of removed instances: a component is the tree its body returned.
- Aliasing between instances: instance trees are values that each update returns anew, while the document is changed in place; the source updates instance objects in place.
- Property details: names, styles, boolean attributes, listeners; a property set is a map from names to text.
- An update that follows one that did not settle; `Session.Rerender` therefore ranges over trees that settle.
- Element names that differ only in case, and errors the document raises for an illegal insertion.
- `Client.Reconcile` is stated for documents without portals; the candidate containers are ordinary elements.

Lists and the reactive driver:

- `ListThrows.ReachSound`: a run stops at the throw; what later operations do to the list that lost a row is not followed.
- List objects are opened from the binding and stored back by value, as no two bindings share one.
- Markup is opaque text: an empty payload builds no node, any other builds one; parsing it is not modelled. Row keys are stamped by the driver before they arrive. Every list of an island has an anchor in the page.
- Scalar slot painting, intern tables, suspense opcodes, and text encoding of values; thunks that throw.
- A handler is the sequence of writes it emits; that it computes them from the state is not needed.

Election:

- Timers and the decision to steal: an accession may happen at any time, to any tab.
- The subscribe requests to the server and their `resync` flags; a failing `EventSource` constructor; base64 and frame contents.
- The set of tabs is fixed for a run; a tab that opens later is one that has had nothing delivered yet.

Scheduling:

- Concurrency of the parallel steps: the concurrent counting is modelled as one loop over the level.
- Priority order inside a level, which changes neither the level's components nor its longest time.
- Floating-point rounding (times are reals) and the upper bound of the weight counter.
- `add_component` on a graph that already lost consistency, and the 64-bit wrap of generated ids.

Response cache, client and journal:

- Credentials, egress policy and address parsing: a refusal arrives as a parameter. Time limits and throttling arrive as failed answers.
- Metrics, except that no counter influences an answer.
- The single-flight machine does not model the cache inside a round trip; `ApertureClient` covers one caller at a time. A round trip that interleaves with an eviction may answer `DanglingRevalidation`.
- `Journal.Log.constructor`: caps above 2^32 are not modelled; from there the source stops distinguishing positions.

Incremental invalidation:

- File hashing, change detection, loading and saving. The lazily loaded snapshot is always absent in the source and is left out.
- The dependency graph is arbitrary; in the source it is filled from `component.dependencies`, which adding an edge to the graph does not write.

Wire codec:

- Byte offsets and messages of errors: which error is raised is modelled, where is not.
- `encodeFormDataPayload`, and the type checks on JavaScript values that the model's types already give.
- `WireEnvelope.EnvelopeReads`: payloads longer than 2^64 bytes are excluded.

Whole files: tier decisions, parsing of components and Markdown, webhooks, egress tables, configuration checks, Node bindings, scaffolding, benchmarks and development overlays.
