# A verified model of loro-go's document algorithms

loro-go is a full peer of the Loro CRDT: it keeps a document's history, exchanges it with other peers, and shows the
state every peer agrees on. This project models the algorithms that decide what a document is and proves what they are
for. Each module stands beside one part of the repository.

- **Sequence merge** (`KeyOrder`, `SeqTypes` to `SeqMerge`, `CausalHistory`, `CausalIndex`, `IdLists`, `MergeState`).
  Text, List and MovableList ops are replayed in (lamport, peer, counter) order, each position resolved against its
  author's causal past, concurrent runs placed by a scan. `SeqReference` resolves every op by scanning the whole view.
  Every element gets a key from its origins and authors; the scan inserts in key order, so any two causal orders converge.
  The class `SeqState` with cursor, live count and shortcuts, and the class `Merger` with run splitting and version
  cache, are proved equal to the reference.
- **Merged content** (`SeqContent`, `ReplayContent`, `MergedContent`, `MarkSpan`, `ElemWinner`, `OpSplit`). What a merged
  container holds, said without the merge: each insert's items at their place in its author's view, each delete's
  elements, each mark around its characters, each element's latest value and place; cut and folded ops merge the same.
- **Kept state** (`MergedStates`, `LocalEdits`, `SeqRecorded`). What every merged container is like, and that applying a
  local op to kept state is the same as merging everything anew.
- **Op log, store and sync** (`Folding`, `Changes`, `Blocks`, `BlockSearch`, `ChangeStores`, `Transactions`,
  `LogHistory`, `Frontiers`, `OpLogFacts`, `OpLog`, `Sync`). The abstract state is a peer's log of atoms, each with its
  lamport and deps; the store may merge, fold, split and slice as it likes. Imports apply the largest causally complete
  part of what has been received.
- **Gathering** (`Ranges`, `Collect`). Overlapping copies of changes are cut so that each atom is kept once.
- **Hash table** (`Triangle`, `FxProbe`, `FxState`, `FxMoves`, `FxTable`). Open addressing with mirrored control bytes,
  tombstones, growth and rehashing in place, proved to be a finite map.
- **Movable tree** (`FracIndex`, `OpSort`, `TreeShape`, `TreeKids`, `TreeIndex`, `TreeTurn`, `TreeBuild`, `TreeSplice`, `TreeEdits`).
- **Views** (`MovRanks`, `MovState`, `MovValues`, `MovIndex`, `RichText`, `Rendered`, `Delta`, `ContainerGraph`, `Resolve`, `MapState`).
- **Sort and codecs** (`SortOrder` to `RustSort`, `LamportSort`, `Varints`, `RleColumns`, `BitStreams`, `DeltaColumns`,
  `WholeColumns`, `ChangeBlobs`, `HeaderLoss`, `WireFormat`).

`dafny verify dfyconfig.toml` checks the whole project.

## Assumptions

- **Honest histories.** One atom exists per id. An author's own previous atom lies in the causal past of each of its
  atoms. Lamports rise along deps, so no two ops share a lamport and a peer. Ops have the shape `checkOp` demands
  (`loro/encode_updates.go:467-566`): as many ids as atoms, no empty delete, a mark starting at its op's
  position, no position below 0 (`loro/encode_updates.go:601-638`). `CausalHistory.Complete`,
  `SeqHistory.HonestOps` and `LogHistory.Honest` say this.
- **Complete histories for positions.** Theorems about whole merges take every dep to be present. That is when the merge
  reads deletes by position; `SeqRecorded` relates this to reading them by recorded ids.
- **What an import is given.** Changes that tell the history as it is (`LogHistory.Told`): in particular a lamport is one
  past the highest among the deps. `CheckKnown`, which guards an import, is stated for any well-shaped changes. A peer
  does not have changes pending under its own future counters.
- **At most 1023 deps a change.** With more, splitting a change leaves no room for an atom in a block
  (`loro/oplog.go:355-415`).
- **Abstractions.** Text is a sequence of code points, values and map keys are only compared, and the hash function is
  used only for its range.

## Model

| member | source | states |
|---|---|---|
| SeqScan.ScanPlacesFrom | loro/seqmerge.go:623-687 | The integration scan always ends at the one place where the new run keeps the order given by origins and authors: everything before it sorts before the run, everything after it after. |
| SeqSiblings.FamiliesApart | loro/seqmerge.go:623-687 | Elements inserted with the same two origins stand in author order, each followed by all that descends from it before the next one begins. |
| SeqSiblings.FamilyTogether | loro/seqmerge.go:623-687 | Between an element and one of its descendants there is nothing but its descendants. |
| SeqFits.InsertAfterOrdered | loro/seqmerge.go:551-613 | An insert keeps every element strictly between its left and right origin, and the sequence ordered. |
| SeqEdits.InsertEdits | loro/seqmerge.go:551-613 | In its author's view an insert splices its run in at its position; a strict merge refuses exactly the positions past the view. |
| SeqEdits.RemoveAtEdits | loro/seqmerge.go:712-784 | A positional delete takes exactly the elements from its lowest position on out of the author's view, and no other. |
| SeqEdits.RemoveAtAtom | loro/seqmerge.go:770-782 | Atom k of a delete is recorded on the k-th of those elements, from the lowest up or from the highest down. |
| SeqEdits.MoveEdits | loro/seqmerge.go:386-425 | In its author's view a move is a delete followed by a splice. |
| SeqSwap.Swap | loro/seqmerge.go:310-379 | Two concurrent ops merge to the same state in either order, refusals included, whatever kinds they are. |
| SeqConverge.ReplayHolds | loro/seqmerge.go:873-958 | After any causal replay the sequence is ordered, every element lies strictly between its origins, and every element and deleter comes from an op. |
| SeqConverge.Converge | loro/seqmerge.go:873-958 | Any two orders of the same honest ops that respect causality merge to the same sequence and the same deleters. |
| SeqMachine.SeqState.WalkLive | loro/seqmerge.go:509-533 | Walking either way from a known live count ends at the live element of the rank asked for. |
| SeqMachine.SeqState.LocateIn | loro/seqmerge.go:465-504 | With the cursor and the live count, or by scanning the author's view, a position resolves to the same element. |
| SeqMachine.SeqState.FindRightParent | loro/seqmerge.go:623-687 | The remembered search for a right origin finds its place and never falls through. |
| SeqMachine.SeqState.Integrate | loro/seqmerge.go:623-687 | The scan as it runs computes the reference scan. |
| SeqMachine.SeqState.InsertRun | loro/seqmerge.go:551-613 | An insert with shortcut and cursor makes the reference insert and keeps live count and cursor exact. |
| SeqMachine.SeqState.RemoveByPosition | loro/seqmerge.go:712-784 | A positional delete makes the reference delete, refused in exactly the same cases. |
| SeqMachine.SeqState.RemoveRecorded | loro/seqmerge.go:789-824 | A delete read by recorded ids marks each covered element with the atom that removed it. |
| SeqMachine.SeqState.Move | loro/seqmerge.go:386-425 | A MovableList move makes the reference move; the element follows its latest writer. |
| SeqMachine.SeqState.MergeOp | loro/seqmerge.go:310-379 | Merging any op with the everything-in-view shortcut, the cursor and the live count gives the reference result, refusals included. |
| CausalIndices.CausalIndex.Find | loro/seqmerge.go:128-140 | Finds a change that holds an id whenever one does, also among overlapping copies. |
| CausalIndices.CausalIndex.CheckAll | loro/seqmerge.go:73-123 | Detects exactly the histories with a missing dep; a refusal names a change that depends on one no earlier than itself, which no honest history has. |
| CausalIndices.CausalIndex.VersionOf | loro/seqmerge.go:146-194 | The cached version of a change is exactly its causal closure, one entry a peer. |
| SeqViews.ViewIsPast | loro/seqmerge.go:204-206 | The version an op is resolved against has an atom exactly when that atom lies in its causal past. |
| SeqViews.ApplySame | loro/seqmerge.go:310-379 | Merging an op depends on which atoms its author had, not on how its version is written. |
| SeqHistory.SortedInOrder | loro/seqmerge.go:897-906 | Ops sorted by (lamport, peer, counter) come after everything their authors had seen. |
| SeqHistory.SameMerge | loro/seqmerge.go:873-958 | For every complete honest history, resolving each op against exactly its causal past gives one result, whatever causal order the ops come in. |
| SeqRecorded.SameDelete | loro/causal_ref_test.go:72-106 | Where a delete recorded the ids of the elements at its positions, reading it by position and by recorded ids marks the same elements with the same atoms. |
| SeqRecorded.RecordedMerge | loro/causal_ref_test.go:108-279 | When every delete recorded what it removed, the merge by position equals the reference that scans each op's causal past and reads deletes by recorded ids. |
| SeqMerge.RunsInOrder | loro/seqmerge.go:887-906 | Merging whole runs by their first (lamport, peer, counter) still respects causality op by op. |
| SeqMerge.FrontierSeen | loro/seqmerge.go:908-931 | An op whose deps are exactly the merge frontier was one whose author had every merged atom. |
| SeqMerge.FrontierMoves | loro/seqmerge.go:943-954 | The merge frontier stays such that every merged atom lies at or before one of it. |
| SeqMerge.MergeSequences | loro/seqmerge.go:873-958 | The merge with frontier shortcut, version cache, run splitting, cursor and live count gives for each container exactly what resolving every op against its causal past gives, and is refused exactly when that is. |
| MergedStates.ReplayHoused | loro/seqmerge.go:351-380 | Replaying any ops of a MovableList leaves every element at a position made for it, also where concurrent moves competed. |
| MergedStates.MergedHoused | loro/seqmerge.go:873-958 | A merged MovableList has distinct positions and every element at one made for it, which is what its index relies on. |
| MergedStates.MergedText | loro/seqmerge.go:873-958 | A merged Text is made of characters and anchors with ids and mark writers of their own, which is what rendering it relies on. |
| ReplayContents.ElementsAre | loro/seqmerge.go:310-379 | The elements of a merged sequence are those its ops put in and no others: each inserted item under its own id, each mark's two anchors, each move's new position. |
| ReplayContents.DeletersAre | loro/seqmerge.go:712-824 | The deleters of an element are exactly the atoms of the deletes and moves that take it, by position in their author's view or by recorded id. |
| MergedContents.MergedItems | loro/seqmerge.go:345-380 | Item k of every insert of the history is in its merged container under the insert's k-th id: the item itself in a Text or List, the position of its element in a MovableList. |
| MergedContents.MergedOnlyItems | loro/seqmerge.go:345-380 | Every character or list item of a merged container is an item of some insert to it, under that item's id. |
| MergedContents.MergedInsert | loro/seqmerge.go:551-613 | In the merged Text or List, what an insert's author had in view with its insert is what it had in view before, with the items spliced in, in order, at the position. |
| MergedContents.MergedDelete | loro/seqmerge.go:712-824 | In a merged container of any kind, atom k of a delete is a deleter of exactly one element: the k-th of its author's view from its position, up or down by the sign of the length, in a MovableList the k-th it recorded. |
| MarkSpans.AnchorsAround | loro/seqmerge.go:319-343 | However much is merged after, the elements of the author's view between a mark's two anchors are exactly the marked ones: those of the marked ranks. |
| MarkSpans.MarkCovers | loro/delta.go:78-125 | A mark is open at an element its author saw exactly when neither of its anchors is deleted and the element is of a marked rank. |
| MarkSpans.MergedMark | loro/seqmerge.go:319-343 | In the merged document a mark stands with its key, value, lamport and peer, its anchors around exactly the marked characters of its author's view. |
| LocalEdits.EventsStay | loro/docstate.go:97-143 | Atoms added to a history change nothing of what the authors of the older ones had seen. |
| LocalEdits.LocalIsRebuild | loro/docstate.go:97-124 | Applying a local sequence op to the kept state gives the state rebuilt from all ops in any causal order, refusals included. |
| LocalEdits.LocalHolds | loro/docstate.go:97-124 | A local op finds everything in view, and its lamport is past every element's name and writer. |
| LocalEdits.ApplyLocal | loro/docstate.go:97-124 | After a local op the kept sequence, live count, cursor and MovableList index are those a rebuild would give; ops made by index never drop the index. |
| LocalEdits.TextDelta | loro/delta.go:59-73 | Gathered copies merged and rendered: the runs are the merged Text's characters, in whatever causal order the merge is taken, each with the values of the latest marks around it. |
| MergeStates.MergeGathered | loro/merge.go:215-245 | Merging what was gathered from overlapping copies gives the merge of the whole history. |
| MovIndices.MovIndex.constructor | loro/movablelist.go:68-82 | A new index lists the live positions that are home to an element, and ranks each other live position among them. |
| MovIndices.MovIndex.LostBefore | loro/movablelist.go:86-88 | Counts exactly the lost positions before an op index. |
| MovIndices.MovIndex.OpIndex | loro/movablelist.go:92-100 | Translates a user index: the result is the live rank of the position showing that item, or the end of the list. |
| MovIndices.MovIndex.InsertAt | loro/movablelist.go:111-119 | Putting slots in keeps the index that of the list with them spliced in. |
| MovIndices.MovIndex.RemoveAt | loro/movablelist.go:121-133 | Takes a slot out exactly when the op index shows a fitting one, and keeps the index that of the list without it. |
| MovIndices.MovIndex.NoteLocal | loro/movablelist.go:106-171 | After any local insert, delete, move or set the kept index is the one built anew, lost positions included; ops made by index are always followed. |
| MovStates.MoveLocal | loro/movablelist.go:309-333 | A local move takes the element's position out of the live ones and puts its new one in. |
| MovIndices.InsertShows | loro/movablelist.go:249-265 | Inserting at user index i puts the items there, in order, in the list of values shown, each under its own id, and moves nothing else. |
| MovIndices.DeleteShows | loro/movablelist.go:270-304 | Deleting the item at user index i takes just that value out of the list shown. |
| MovIndices.NextDelete | loro/movablelist.go:290-302 | The op index a multi-item delete records for a later item is its index once the earlier ones are gone. |
| MovIndices.MoveShows | loro/movablelist.go:309-333 | Moving an item to user index `to` leaves it and its value at exactly that index, the others in order. |
| MovIndices.SetShows | loro/movablelist.go:366-384 | Setting the item at user index i replaces that value in the list shown and no other. |
| MovStates.SetLocal | loro/movablelist.go:366-384 | Setting an item moves nothing, gives the element the value and leaves every other element. |
| ElemWinners.MergedMade | loro/seqmerge.go:366-380 | A merged MovableList has exactly the elements its inserts made, each of one item. |
| ElemWinners.UnsetValue | loro/seqmerge.go:366-380 | An element no merged op sets has the value of the item it was made of, and that item's id as its value id. |
| ElemWinners.SetValue | loro/seqmerge.go:355-365 | An element with merged sets has the value and the id of the set with the highest lamport, and of those the highest peer. |
| ElemWinners.MergedPlace | loro/seqmerge.go:386-425 | An element is at the position of the move of it with the highest lamport, and of those the highest peer, or at the one it was made with when no move is later. |
| Folding.FoldJoins | loro/txn.go:149-201 | Folding two ops joins their atoms in order, in all cases of forward and backward deletes. |
| Folding.FoldsExactly | loro/txn.go:270-300 | Two ops in a row may be folded exactly when some single op has the atoms of both in order, whatever kinds they are and whichever way they delete. |
| Folding.MergedSpan | loro/txn.go:305-321 | The span of two merged deletes runs over the elements of both in turn. |
| Folding.ClipKeeps | loro/merge.go:511-560 | Clipping an op always succeeds inside it and carries exactly the atoms kept. |
| Transactions.Txn.Apply | loro/txn.go:48-67 | A local op takes the next ids and lamports, and its atoms follow those before, folded or not. |
| Transactions.FoldDecoded | loro/docimport.go:198-213 | Folding the ops of a decoded change keeps each atom, its lamport and its deps. |
| OpSplits.SplitApplies | loro/merge.go:511-560 | Merging an op in two clipped parts, one after the other, is merging it whole: inserts and deletes in all directions. |
| OpSplits.FoldApplies | loro/txn.go:149-201 | Merging two ops folded into one is merging them in turn. |
| OpSplits.SplitMerge | loro/merge.go:511-560 | Cutting an op of a history in two leaves every container's merge as it is. |
| Changes.SliceKeeps | loro/oplog.go:149-173 | A slice of a change holds exactly the atoms asked for, each with the lamport and deps it had. |
| Changes.MergeJoins | loro/oplog.go:298-350 | Merging a change into the one it continues joins their atoms, however their ops fold. |
| Blocks.PushInto | loro/oplog.go:298-317 | A block with room always takes the change, merged into its last one or put after it; a full one takes it only by folding a single op; otherwise nothing changes. |
| ChangeStores.ChangeStore.Insert | loro/oplog.go:276-290 | Inserting a change, merged, folded or split, makes its peer's log longer by exactly its atoms with their lamports and deps, and no other log changes. |
| ChangeStores.ChangeStore.SplitThenInsert | loro/oplog.go:355-415 | A change too big for a block goes in piece by piece, ops cut where the room runs out, and its atoms are the same. |
| ChangeStores.ChangeStore.Find | loro/oplog.go:456-478 | Finds the stored change that holds an atom, whatever the grouping, and none only when the log does not reach it. |
| Frontiers.UpdateOnNewChange | loro/frontiers.go:109-118 | Of the frontiers exactly the deps go, and the last atom of the change comes. |
| Frontiers.FrontierKept | loro/frontiers.go:109-118 | Applying a change keeps the frontiers exactly the causally maximal applied atoms. |
| OpLogs.OpLog.LamportOf | loro/oplog.go:563-569 | The lamport of an applied atom, none when it is not applied. |
| OpLogs.OpLog.LamportFromDeps | loro/oplog.go:598-608 | The least lamport above all of the deps, if the log holds every one of them. |
| OpLogs.OpLog.TrimKnown | loro/oplog.go:650-662 | Cuts off exactly the part of a change that is applied already. |
| OpLogs.OpLog.WaitsForAtom | loro/oplog.go:712-727 | Tells a change that is applied, one that can be applied, and one that waits, with an atom it waits for. |
| OpLogs.OpLog.ApplyRemote | loro/oplog.go:810-822 | An honest change whose deps are applied goes in, its lamport unchanged. |
| OpLogs.OpLog.Settle | loro/oplog.go:741-760 | A change is parked, dropped as applied, or applied and queued; no atom received is lost. |
| OpLogs.OpLog.ApplyPending | loro/oplog.go:765-805 | The release loop ends, with nothing pending whose missing atom has arrived. |
| OpLogs.OpLog.FirstPass | loro/oplog.go:670-699 | One pass in lamport order; when each change has its deps in the log or earlier in the blob, every change goes in and none is left over. |
| OpLogs.OpLog.ImportChanges | loro/oplog.go:670-699 | An import of honest changes succeeds, loses no atom and says whether it applied any; when every dep is in the log or in the blob at a lower lamport, all of the changes are applied and no change is pending that was not before. |
| OpLogFacts.ToldNeverSkips | loro/oplog.go:884-914 | Honest changes never skip counters in a pass that counts only ends, whatever their order and whatever is missing. |
| OpLogs.OpLog.SkipsCounters | loro/oplog.go:884-914 | Finds a change that is due by counted deps but starts past the end of its peer, exactly when there is one. |
| OpLogs.OpLog.CheckKnownPart | loro/oplog.go:919-945 | The known part of an imported change passes exactly when each of its atoms is the one the document has, deps included. |
| OpLogs.OpLog.CheckKnown | loro/oplog.go:866-915 | An import passes exactly when it brings nothing new or all its known atoms are the ones the document has, and no change skips counters of its peer; honest changes pass. |
| OpLogs.OpLog.Import | loro/oplog.go:670-699 | Sorted, checked and applied: an import of honest changes succeeds, with all applied and nothing newly pending when their deps are there or come at lower lamports. |
| OpLogs.OpLog.Begin | loro/txn.go:25-43 | A local change starts at the next counter, depends on exactly the maximal applied atoms, and its lamport exceeds every applied one. |
| OpLogs.OpLog.Commit | loro/txn.go:73-100 | A local change is added and becomes the only frontier. |
| OpLogFacts.LargestPart | loro/oplog.go:741-805 | With nothing queued, every causally complete part of what was received is applied. |
| Sync.LargestApplied | loro/oplog.go:670-822 | After any run of imports what is applied is the largest causally complete subset of everything received. |
| Sync.SameReceived | loro/oplog.go:276-415 | Two logs that received the same atoms, in any order and any grouping into blobs, have the same version, frontiers and log of every peer. |
| Sync.ExportBlocksFrom | loro/export_from.go:40-79 | The export holds exactly the sender's atoms at or past the receiver's version, each once, with lamports and deps. |
| Sync.ExportAhead | loro/export_from.go:40-97 | Every dep of an exported change is already at the receiver or exported at a lower lamport. |
| Sync.SyncRound | loro/export_from.go:40-97 | One round applies every atom exported, leaves no change pending that was not before, and ends, with nothing pending before, at the pointwise maximum of the two versions. |
| Ranges.Uncovered | loro/merge.go:457-481 | The parts returned are exactly the set difference, in ascending order. |
| Ranges.AddRange | loro/merge.go:484-506 | The ranges returned are exactly the union, sorted, disjoint and not touching. |
| Collect.Gather | loro/merge.go:156-211 | However copies of changes overlap, repeat or arrive out of order, each atom of the input is kept exactly once, as the history has it. |
| Triangle.Reaches | loro/frontiers.go:223-246 | Triangular probing reaches every place of a power-of-two table within as many steps as there are places. |
| FxProbe.Covered | loro/frontiers.go:223-246 | Every bucket is in one of the first groups of every probe. |
| FxState.ProbeEnds | loro/frontiers.go:223-246 | A probe cannot pass all groups without meeting an empty byte. |
| FxState.FoundNone | loro/frontiers.go:223-246 | A probe that has met an empty byte but not the key has passed every place the key could be. |
| FxTables.FxTable.WithCapacity | loro/version.go:229-240 | A table made for a capacity has room for that many entries. |
| FxTables.FxTable.Find | loro/frontiers.go:223-246 | Returns the bucket of the key, or -1 exactly when the map does not hold it; it always ends. |
| FxTables.FxTable.Get | loro/frontiers.go:248-253 | Reads the map. |
| FxTables.FxTable.InsertSlot | loro/frontiers.go:259-278 | Ends at a free bucket that the probe meets before any other free byte, small tables with wrapped bytes included. |
| FxTables.FxTable.InsertMax | loro/frontiers.go:283-299 | The map gets the higher of the two counters for the peer, and nothing else changes. |
| FxTables.FxTable.InsertAlways | loro/version.go:248-264 | The map gets the counter for the peer, and nothing else changes. |
| FxTables.FxTable.Remove | loro/frontiers.go:304-328 | The entry goes exactly if its counter is the one given; all other entries stay findable. |
| FxTables.FxTable.RemoveKey | loro/version.go:267-271 | The entry goes, whatever its counter. |
| FxTables.FxTable.ReserveRehash | loro/frontiers.go:332-340 | Room for one more entry is made, in place or in a bigger table, and the map stays the same. |
| FxTables.FxTable.Resize | loro/frontiers.go:343-365 | A bigger table with exactly the same entries. |
| FxTables.FxTable.RehashInPlace | loro/frontiers.go:370-406 | Rehashing in place keeps exactly the same entries, frees all tombstones and ends. |
| FxTables.FxTable.Ids | loro/frontiers.go:409-417 | Lists each entry once. |
| FracIndices.Before | loro/tree.go:51-63 | Computes an index before the one given, its terminator left off. |
| FracIndices.After | loro/tree.go:65-77 | Computes an index after the one given, its terminator left off. |
| FracIndices.Between | loro/tree.go:79-115 | Computes an index between the two given, its terminator left off. |
| FracIndices.New | loro/tree.go:126-151 | An index made from bounds, either of which may be absent, lies strictly between them, and there is one whenever they are well-formed and in order. |
| FracIndices.NewBetween | loro/tree.go:126-151 | A new index lies strictly between its bounds and ends in the terminator; between indexes that do there always is one. |
| FracIndices.Evenly | loro/tree.go:155-180 | n strictly rising indexes strictly between the bounds; none when the bounds are not in order. |
| FracIndices.SpreadRises | loro/tree.go:155-180 | There are n of them, strictly rising, strictly between the bounds, and always found between well-formed bounds. |
| TreeShapes.MoveAcyclic | loro/tree.go:255-265 | A move that does not put a node under itself closes no cycle. |
| TreeShapes.ReplayAcyclic | loro/merge.go:288-361 | Whatever moves are replayed, and in whatever order, no node is ever its own ancestor. |
| TreeShapes.SkipWalk | loro/merge.go:314-335 | Testing only nodes that have children decides exactly whether a node is above the new parent. |
| TreeShapes.RecountRight | loro/tree.go:266-270 | The kept child counts are exact after every move. |
| TreeShapes.SameTree | loro/merge.go:337-361 | Peers that hold the same moves hold the same tree, and it is acyclic. |
| TreeBuilds.WouldCycle | loro/merge.go:314-335 | The walk ends and finds a cycle exactly when there would be one. |
| TreeBuilds.BuildTree | loro/merge.go:288-361 | The whole-document replay takes the ops by ascending lamport, then peer, and leaves each node where the last of its moves that closed no cycle in its turn put it. |
| TreeTurns.ReplayPlaces | loro/merge.go:337-361 | A node is where the last of its moves that closed no cycle when its turn came put it, and a node with no such move is not in the tree. |
| TreeTurns.CrossingMoves | loro/merge.go:337-361 | Of two moves at one lamport that put two nodes under each other, the lower peer's stands and the other is dropped. |
| TreeTurns.SiblingsInOrder | loro/tree.go:211-219 | Siblings stand by fractional index; those with equal ones by ascending lamport, then by ascending peer. |
| TreeIndices.TreeIndex.constructor | loro/tree.go:236-283 | The built index has the replayed placements, exact counts, and ordered lists of children. |
| TreeIndices.TreeIndex.IsAncestor | loro/tree.go:338-351 | Decides exactly whether a node is the parent or above it. |
| TreeIndices.TreeIndex.Alive | loro/tree.go:355-371 | True exactly when the node's ancestors end at the top level. |
| TreeIndices.TreeIndex.IndexOf | loro/tree.go:375-387 | The place among the siblings, -1 exactly for a deleted or missing node. |
| TreeIndices.TreeIndex.Unlink | loro/tree.go:325-335 | Takes exactly the node out of its parent's list. |
| TreeIndices.TreeIndex.ApplyLocal | loro/tree.go:298-322 | After every local op the index is what building it from all ops would give: placements, counts and children order. |
| TreeKids.OneIndex | loro/tree.go:272-322 | The children lists are a function of the placements, so a kept list and a rebuilt one are equal. |
| TreeEdits.Tree.Positions | loro/tree.go:480-538 | The indexes chosen for a node and the siblings rearranged with it rise strictly between the neighbours that stay; between well-formed indexes there always are some. |
| TreeSplices.SpliceRanked | loro/tree.go:480-550 | With those indexes the siblings before, the nodes placed and the siblings after stand in that order. |
| TreeEdits.Tree.CreateAt | loro/tree.go:430-473 | The children list is the old one with the new node at the index asked for, all other lists are unchanged, and the errors are exactly those for a bad index or parent. |
| TreeEdits.Tree.Move | loro/tree.go:556-602 | The children list is the old one without the node and with it spliced in at the index asked for, equal neighbours included; a refused move changes nothing. |
| TreeEdits.Tree.Delete | loro/tree.go:607-626 | Exactly what hangs under the deleted node stops being alive, and well-formed indexes stay so. |
| Deltas.FindComplete | loro/delta.go:81-95 | The marks with both anchors in, the start first, neither deleted. |
| Deltas.DeltaBuilder.Settle | loro/delta.go:104-120 | The mark kept for a key is the open one with the latest writer. |
| Deltas.Delta | loro/delta.go:78-198 | The runs are the characters shown, in order, cut exactly where styles change; a run has a key with a value exactly when the latest mark of that key around its characters, by lamport and then peer, has that value, and no key whose latest mark takes it away. |
| RichTexts.StyledBy | loro/delta.go:104-120 | A key is styled by the mark of that key with the latest writer among those around the character. |
| RichTexts.SomeDecides | loro/delta.go:104-120 | Every key with a mark around the character has such a mark. |
| RichTexts.GroupedSpells | loro/delta.go:127-168 | The runs spell out the characters under their own styles, none is empty, and neighbouring runs differ in styles. |
| RichTexts.RunsText | loro/delta.go:144-168 | The texts of the runs, joined, are the container's visible text. |
| RenderedTexts.GroupedRendered | loro/delta.go:78-198 | Grouping by style gives the characters shown, in order, cut exactly where the deciding marks around them change. |
| Resolvers.Resolver.Visit | loro/nested.go:104-114 | A container is laid out once, with a slot for each child. |
| Resolvers.Resolver.Turn | loro/nested.go:115-141 | Each turn of the walk makes progress, or names a container that holds itself or cannot be shown. |
| Resolvers.Resolver.Fill | loro/nested.go:142-149 | Every slot gets the value built for its child. |
| Resolvers.Resolver.Resolve | loro/nested.go:97-150 | The walk ends for every container graph; it fails exactly when the roots reach a cycle or an unknown kind, and otherwise builds each reachable container once with every child slot filled. |
| ContainerGraphs.NoCycleIn | loro/nested.go:97-141 | A container finished after all its children holds itself at no depth. |
| MapStates.DocMap.ApplyLocal | loro/docstate.go:125-133 | A local write keeps the kept winners those of all writes. |
| MapStates.DocMap.Entry | loro/docstate.go:150-166 | The entry is the key's write with the highest lamport, of those the highest peer, of those the highest counter; absent exactly when that is a deletion or there is none. |
| MapStates.Shape | loro/nested.go:164-172 | The values shown are those of the same winning writes. |
| MapStates.SameWinners | loro/docstate.go:52-72 | Kept or rebuilt, in whatever order the writes are listed, the winners are the same. |
| RustParts.InsertionSort | loro/rustsort.go:51-64 | Sorts a stretch whose first part is sorted, and rearranges nothing else. |
| RustParts.ExistingRun | loro/rustsort.go:68-81 | The longest run at the start, and whether it is strictly descending. |
| RustPartition.HoareCyclic | loro/rustsort.go:160-190 | Afterwards exactly the elements less than the pivot come first, the gap filled again. |
| RustHeap.Heapsort | loro/rustsort.go:193-218 | Sorts a stretch, a permutation of what it was. |
| RustSort.Quicksort | loro/rustsort.go:85-111 | Sorts the stretch through pivots, the equal-to-ancestor branch and the heapsort fallback. |
| RustSort.Sort | loro/rustsort.go:27-46 | A sorted permutation for every strict weak order and length; a sorted slice stays exactly as it was. |
| LamportSort.SortByLamport | loro/rustsort.go:222-228 | Changes in lamport order; a list in that order already is left alone. |
| Varints.ReadUvarint | encoding/postcard/varint.go:18-35 | The value at the front of the buffer and its length, with an error for a cut or overlong one. |
| Varints.VarintBack | encoding/postcard/varint.go:38-62 | Every unsigned and every signed 64-bit value is read back from in front of any bytes. |
| RleColumns.EncodeRle | encoding/columnar/encode.go:12-45 | Maximal runs of two or more as repeats, the values between them as literals. |
| RleColumns.AnyRleNU64 | encoding/columnar/concat.go:11-52 | Reads exactly the rows asked for, refusing runs that pass them. |
| RleColumns.RleBack | encoding/columnar/encode.go:12-45 | A run-length column followed by any bytes is read back, and reading stops exactly at its end. |
| RleColumns.BoolRleN | encoding/columnar/concat.go:55-78 | Reads exactly the booleans asked for. |
| RleColumns.BoolsBack | encoding/columnar/encode.go:62-76 | A boolean column followed by any bytes is read back, a leading true included. |
| BitStreams.BitWriter.WriteBit | encoding/columnar/encode.go:96-104 | One bit more in the stream packed. |
| BitStreams.PackBack | encoding/columnar/columnar.go:124-132 | Each packed bit is read back at its place, whatever bytes follow. |
| DeltaColumns.DodBack | encoding/columnar/columnar.go:134-160 | A difference of any width class, up to all 64 bits, is read back, and reading stops at its last bit. |
| DeltaColumns.EncodeDeltaOfDelta | encoding/columnar/encode.go:147-173 | The first value, the used-bits byte and the packed differences of differences. |
| DeltaColumns.DeltaOfDeltaN | encoding/columnar/concat.go:82-132 | Reads exactly the rows asked for, refusing an inconsistent used-bits byte. |
| DeltaColumns.DeltaBack | encoding/columnar/encode.go:147-173 | Every sequence of 64-bit values, however its differences wrap, is read back from in front of any bytes. |
| WireFormats.UvarintForm | encoding/postcard/varint.go:38-47 | A number is written as the one shortest row of seven-bit groups that stands for it, the lowest first. |
| WireFormats.FixedForm | encoding/change/header.go:83-99 | A peer is written as the eight bytes, the low one first, that stand for it. |
| WireFormats.DifferenceForm | encoding/columnar/encode.go:80-88 | A row of a difference column is how far its value is past the one before, the first's past 0, in 64 bits. |
| WireFormats.DifferenceVector | testdata/columnar_golden.txt:9-10 | A published difference column comes out byte for byte. |
| WireFormats.DodForm | encoding/columnar/encode.go:106-143 | A difference of differences goes into the least class with room for it: as many set bits as the class says, a clear one but for the last, then the distance from the least difference of the class. |
| WireFormats.RunVectors | testdata/columnar_golden.txt:1-4 | The published run-length vectors come out byte for byte. |
| WireFormats.ZigzagOrder | encoding/postcard/varint.go:47-47 | Signed numbers are written alternating: 0, -1, 1, -2, 2 as 0, 1, 2, 3, 4. |
| WireFormats.BoolVectors | testdata/columnar_golden.txt:6-7 | The published boolean vectors come out byte for byte. |
| WireFormats.DeltaVectors | testdata/columnar_golden.txt:12-14 | The published columns of no value and of one come out byte for byte. |
| WireFormats.EvenVector | testdata/columnar_golden.txt:11-14 | So does the published column of even steps, its class, packing and used bits included. |
| WholeColumns.DecodeAnyRle | encoding/columnar/columnar.go:30-67 | Reads a column to the end of its buffer. |
| WholeColumns.EncodeDeltaRle | encoding/columnar/encode.go:80-88 | First-order differences from 0, run-length encoded. |
| WholeColumns.DecodeDeltaRle | encoding/columnar/columnar.go:103-115 | The running sums of the differences read. |
| WholeColumns.DeltaRleBack | encoding/columnar/columnar.go:103-115 | A delta column of up to 2^20 rows decodes to the values encoded, wrapping or not. |
| ChangeBlobs.DecodeHeader | encoding/change/header.go:23-80 | Reads peers, lengths and columns by their counts, to the very end of the blob. |
| ChangeBlobs.EncodeHeader | encoding/change/header.go:83-99 | Peers, lengths and columns one after another. |
| ChangeBlobs.HeaderBack | encoding/change/header.go:23-99 | A header decodes to itself exactly when its dependencies are no more than the bytes of the columns after them; otherwise it is refused. |
| HeaderLosses.HeaderLost | encoding/change/header.go:55-66 | Two honest peers answering each other forty times make a block that is written and then refused when read: its forty dependencies take fewer bytes. |
| ChangeBlobs.EncodeMeta | encoding/change/header.go:137-148 | Timestamps, message lengths and messages one after another. |
| ChangeBlobs.DecodeMeta | encoding/change/header.go:108-134 | Reads timestamps and messages by their counts, to the very end of the blob. |
| ChangeBlobs.MetaBack | encoding/change/header.go:108-148 | Change metadata decodes to itself. |

## Left out

- SeqMerge.MergeSequences: histories with missing deps, and merges that read deletes by ids throughout, are covered op by op (`SeqMachine.SeqState.MergeOp`) and by `SeqConverge.Converge`, not as a whole run.
- CausalIndices.CausalIndex.VersionOf: exact for honest complete histories; for others only that it ends.
- OpLogs.OpLog.Import: imports of dishonest changes that pass the guard are not modelled further, nor the lamports an import raises for them.
- ChangeStores.ChangeStore.SplitThenInsert: no bound on a block's bytes, because text is cut by characters and sized in bytes.
- ChangeStores.ChangeStore.Insert: the byte estimates decide where changes are grouped and ops cut; nothing is promised of them but that the log is the same.
- Blocks.PushInto: whether two changes merge or two ops fold also depends on timestamps, messages and where values lie in memory; these decisions are taken either way.
- ElemWinners.MergedPlace: strict merges; a lenient one drops a move from an index past its author's view.
- MarkSpans.MergedMark: marks whose end follows with no dep but the start, as a transaction makes them.
- TreeEdits.Tree.CreateAt: fractional indexes are byte strings rather than the hex text that stores them, which orders the same.
- TreeBuilds.BuildTree: the placements, not the nested JSON value built from them.
- Deltas.Delta: style values are compared for equality rather than by content.
- Resolvers.Resolver.Resolve: which children a container's value has is given; reading them off the ops is modelled for Maps only (`MapStates.Shape`).
- Step budgets: every loop runs to its end; the limits that refuse hostile input are not modelled.
- Snapshots: installed frontiers need not name the last op of a change, so they fall outside honest histories.
- Timestamps and commit messages of merged changes: only the first is kept, by design.
- Pointer-linked lookups: elements are found by id, left origins by a map, atoms by index instead of a moving cursor; deleters are sets, since only membership matters.
- Text positions: translating between positions with and without style anchors, and where typed text lands among anchors.
- Ranged exports: `exportBlocksInRange`, which copies given counter spans by the same slicing.
- Float counters: addition depends on order.
- Network framing, checksums, compression, container deletion and the handles of the public interface.
