# Event aggregation pipeline of p2p-sync/aggregator, in Dafny

This project models the event aggregation pipeline of the Java library
`org.rmatil.sync.event.aggregator`. A path watcher reports creations,
modifications and deletions of files below a synchronised folder. The
`PathEventListener` collects them in a bag. On every tick of a scheduler it
hands the bag, sorted by timestamp, to the `EventAggregator`. The aggregator
passes the batch through a chain of **modifiers**, then a chain of
**aggregators**, and notifies its own listeners of a non-empty result.

- **Modifiers** filter or rewrite a batch:
  - `FixFileSystemCreationModifier` drops the spurious empty-content modification some file systems emit after a creation;
  - `IgnoreSameHashModifier` drops modifications that change nothing;
  - `IgnorePathsModifier` drops events under ignored paths or matching ignored glob patterns;
  - `RelativePathModifier` makes every path relative to the synchronised folder.
- **Aggregators** fuse events:
  - `MoveAggregator` turns a deletion and a later creation with the same content hash into one move;
  - `HistoryMoveAggregator` does the same, after filling in a deletion's missing hash from the version history;
  - `EmptyHashAggregator` gives a creation with the empty-content hash the hash of another modification of the same path, found anywhere in the batch (earlier or later).

An event is a value of `Events.Event`: `Create`, `Modify`, `Delete` or
`Move`. It has a path (a sequence of name components), a name, a hash
(`None` where Java holds `null`) and a millisecond timestamp. A move also has
its new path. Java's stable `Collections.sort` on timestamps is
`Sorting.SortByTime`.

Each stage is modelled in the form of its source:
- A specification function on sequences says what the stage computes.
- A method with loops and invariants follows the Java code step by step, and is proved to compute that function.
- Lemmas state what the stage promises.

The rules for the Java `HashMap` and `HashSet` stages:
- Iteration order is unspecified. The methods pick entries in an arbitrary order (`:|`). Their contracts give the result as a sorted sequence with a fixed multiset of events.
- Java object identity (a `HashSet` of events, `removeAll`, `==`) is modelled by tagging each event with its position in the sorted batch (`Objects.Obj`, `EmptyHashAggregator.Obj`).
- Where the code calls `getHash().equals(..)` on an event whose hash may be `null`, the method's `requires` states exactly which events must carry a hash: `NoNullDereference` and `SafeUpTo`.

The outside world is passed in as parameters:
- the version history of `IObjectManager`, as `VersionHistory.History`: a map from path to the version hashes, where an absent path stands for a lookup that failed with an `InputOutputException`;
- the glob matcher, as `IgnorePathsModifier.Glob`;
- whether a path is a regular file and what its content hashes to;
- the clock.

`EventAggregator` and `PathEventListener` are classes whose methods update
their fields in place. Their listeners' reactions are recorded in a ghost log
of deliveries (`Listeners.Delivery`). Registered modifiers and aggregators
are `Aggregation.Stage` values: a function from batch to batch with an
identity.

Three behaviours of the code worth knowing before reading the model:
- **No move tolerance.** Move detection compares `delete.timestamp < create.timestamp` strictly, with no tolerance window (MoveAggregator.java:93, HistoryMoveAggregator.java:138).
- **A modification can repair several creations.** `EmptyHashAggregator` searches all events afresh for every empty creation, so one modification can repair several empty creations of its path (`EmptyHashAggregator.ModificationShared`).
- **`"__empty_key"` collision.** `HistoryMoveAggregator` groups `null` hashes under the key `"__empty_key"`, so a real hash equal to that string joins their group (`HistoryMoveAggregator.EmptyKey`). `HistoryMoveAggregator.WithoutHistoryIsMoveAggregation` shows that this key is the only difference from `MoveAggregator` when the history enriches nothing.

## Model

| member | source | states |
|---|---|---|
| Sorting.SortByTime | src/main/java/org/rmatil/sync/event/aggregator/core/aggregator/MoveAggregator.java:38 | the result is in ascending timestamp order and holds exactly the events of the input |
| Sorting.SortIsStable | src/main/java/org/rmatil/sync/event/aggregator/core/aggregator/MoveAggregator.java:38 | the sort is stable: for every timestamp, the events with that timestamp keep their relative order |
| Sorting.SortSortedIsIdentity | src/main/java/org/rmatil/sync/event/aggregator/core/aggregator/MoveAggregator.java:106 | sorting a batch already in timestamp order changes nothing |
| Sorting.FilterSorted | src/main/java/org/rmatil/sync/event/aggregator/core/modifier/IgnorePathsModifier.java:92-97 | keeping some events of a sorted batch, in order, leaves it sorted |
| MoveAggregator.GetInstances | src/main/java/org/rmatil/sync/event/aggregator/core/aggregator/MoveAggregator.java:121-131 | the hits are exactly the list's elements of the requested kind, in list order |
| MoveAggregator.GroupByKey | src/main/java/org/rmatil/sync/event/aggregator/core/aggregator/MoveAggregator.java:40-50 | the map has one entry per hash of the batch, holding that hash's events in batch order |
| MoveAggregator.AddToGroup | src/main/java/org/rmatil/sync/event/aggregator/core/aggregator/MoveAggregator.java:44-49 | one turn of the grouping loop: after adding an event to the list of its key (creating the list for a new key) the map groups the batch extended by that event |
| HashGrouping.Group | src/main/java/org/rmatil/sync/event/aggregator/core/aggregator/MoveAggregator.java:40-50 | an event is in a key's group exactly when it is in the batch with that key |
| HashGrouping.GroupSnoc | src/main/java/org/rmatil/sync/event/aggregator/core/aggregator/MoveAggregator.java:48-49 | adding an event to the batch appends it to its own key's group and leaves the other groups alone |
| HashGrouping.KeyOrderIrrelevant | src/main/java/org/rmatil/sync/event/aggregator/core/aggregator/MoveAggregator.java:55 | visiting the map entries in any order gives the same multiset of events |
| HashGrouping.FuseAllCount | src/main/java/org/rmatil/sync/event/aggregator/core/aggregator/MoveAggregator.java:55-104 | an event occurs in the union of all groups' outputs as often as in its own group's output |
| HashGrouping.FuseKeysNoLonger | src/main/java/org/rmatil/sync/event/aggregator/core/aggregator/MoveAggregator.java:55-104 | when no group's output is longer than the group, the outputs together are no longer than the groups together |
| HashGrouping.GroupsNoLonger | src/main/java/org/rmatil/sync/event/aggregator/core/aggregator/MoveAggregator.java:40-50 | the lists of the map, one per distinct key, hold together no more events than the batch |
| MoveAggregator.SmallGroupNotFusable | src/main/java/org/rmatil/sync/event/aggregator/core/aggregator/MoveAggregator.java:56-59 | a group of one event is never turned into a move |
| MoveAggregator.PairMultiset | src/main/java/org/rmatil/sync/event/aggregator/core/aggregator/MoveAggregator.java:70-101 | with deletions and creations present: one deletion strictly before one creation becomes their move; every other combination passes through unchanged |
| MoveAggregator.GroupCorrectedMultiset | src/main/java/org/rmatil/sync/event/aggregator/core/aggregator/MoveAggregator.java:55-103 | with unpaired events passed through, a group's output is the group itself, except that a fusable deletion and creation are replaced by their move |
| MoveAggregator.GroupAsWrittenMultiset | src/main/java/org/rmatil/sync/event/aggregator/core/aggregator/MoveAggregator.java:55-103 | as written, a group's output differs from that only when the group is one-sided (two or more events, deletions or creations but not both); then only its modifications and moves remain |
| MoveAggregator.GroupProvenance | src/main/java/org/rmatil/sync/event/aggregator/core/aggregator/MoveAggregator.java:59-99 | each event a group outputs is one of its own events or the move of its fusable pair |
| MoveAggregator.GroupNoLonger | src/main/java/org/rmatil/sync/event/aggregator/core/aggregator/MoveAggregator.java:55-103 | a group's output, as written or corrected, is never longer than the group: a fused pair becomes one move |
| MoveAggregator.AggregateGroup | src/main/java/org/rmatil/sync/event/aggregator/core/aggregator/MoveAggregator.java:56-103 | the per-entry branch computes the group's output |
| MoveAggregator.AggregateSorted | src/main/java/org/rmatil/sync/event/aggregator/core/aggregator/MoveAggregator.java:40-106 | whatever order the map yields its entries in, the result is sorted and has the multiset of the specified aggregation |
| MoveAggregator.Aggregate | src/main/java/org/rmatil/sync/event/aggregator/core/aggregator/MoveAggregator.java:37-109 | `aggregate` returns a sorted batch with the multiset of `MoveAggregator.Aggregated`, no longer than the input |
| MoveAggregator.AggregateCorrected | src/main/java/org/rmatil/sync/event/aggregator/core/aggregator/MoveAggregator.java:37-109 | the same for the corrected aggregation, which passes unpaired deletions and creations through; no longer than the input either |
| MoveAggregator.AggregatedNoLonger | src/main/java/org/rmatil/sync/event/aggregator/core/aggregator/MoveAggregator.java:37-109 | the aggregation, as written and corrected, never has more events than the batch |
| MoveAggregator.AggregatedCount | src/main/java/org/rmatil/sync/event/aggregator/core/aggregator/MoveAggregator.java:55-104 | an event occurs in the result as often as in its own group's output |
| MoveAggregator.CorrectedCount | src/main/java/org/rmatil/sync/event/aggregator/core/aggregator/MoveAggregator.java:55-104 | corrected, every event occurs as often as in the batch, except that a fused deletion and creation are gone and their move is added |
| MoveAggregator.AsWrittenCount | src/main/java/org/rmatil/sync/event/aggregator/core/aggregator/MoveAggregator.java:70 | as written, the count differs from that only for the deletions and creations of one-sided groups, which are lost |
| MoveAggregator.Provenance | src/main/java/org/rmatil/sync/event/aggregator/core/aggregator/MoveAggregator.java:55-104 | every event of the result is an event of the batch or a move fused from the batch |
| MoveAggregator.FusedFromBatch | src/main/java/org/rmatil/sync/event/aggregator/core/aggregator/MoveAggregator.java:89-95 | a fused move joins a deletion and a strictly later creation of the batch with the same hash, taking path from the one and new path, name, hash and timestamp from the other |
| MoveAggregator.MoveDetectedBy | src/main/java/org/rmatil/sync/event/aggregator/core/aggregator/MoveAggregator.java:89-95 | the only deletion and the only creation of a key, the deletion strictly earlier, become one move and neither survives |
| MoveAggregator.MoveDetected | src/main/java/org/rmatil/sync/event/aggregator/core/aggregator/MoveAggregator.java:89-95 | the same for grouping by hash: the move goes from the deleted path to the created path |
| MoveAggregator.OneSidedDroppedBy | src/main/java/org/rmatil/sync/event/aggregator/core/aggregator/MoveAggregator.java:70 | as written, a deletion (or creation) that shares its key with another event, where the batch holds no creation (or deletion) of that key, is lost |
| MoveAggregator.SameKeyCreationsLost | src/main/java/org/rmatil/sync/event/aggregator/core/aggregator/MoveAggregator.java:56-70 | as written, two or more creations of one key, equal or not, and nothing else aggregate to the empty batch |
| MoveAggregator.DirectoryCreationsLost | src/main/java/org/rmatil/sync/event/aggregator/core/aggregator/MoveAggregator.java:44-70 | as written, two or more creations without a hash (directories), equal or not, aggregate to the empty batch |
| MoveAggregator.DirectoryCreationsKept | src/main/java/org/rmatil/sync/event/aggregator/core/aggregator/MoveAggregator.java:55-104 | corrected, a batch of creations comes back whole |
| MoveAggregator.NoDeletionsNothingLost | src/main/java/org/rmatil/sync/event/aggregator/core/aggregator/MoveAggregator.java:55-104 | corrected, a batch without deletions comes back whole |
| HistoryMoveAggregator.Enrich | src/main/java/org/rmatil/sync/event/aggregator/core/aggregator/HistoryMoveAggregator.java:64-80 | a deletion without a hash whose path has versions gets the last version's hash; every other event, and every other field, is unchanged |
| HistoryMoveAggregator.EnrichIdempotent | src/main/java/org/rmatil/sync/event/aggregator/core/aggregator/HistoryMoveAggregator.java:64-80 | enriching twice is enriching once |
| HistoryMoveAggregator.EnrichAllSorted | src/main/java/org/rmatil/sync/event/aggregator/core/aggregator/HistoryMoveAggregator.java:56-80 | enrichment keeps a sorted batch sorted |
| HistoryMoveAggregator.EnrichedFrom | src/main/java/org/rmatil/sync/event/aggregator/core/aggregator/HistoryMoveAggregator.java:61-80 | every enriched event is the enrichment of an event of the batch |
| HistoryMoveAggregator.EnrichEach | src/main/java/org/rmatil/sync/event/aggregator/core/aggregator/HistoryMoveAggregator.java:61-80 | the loop enriches each event of the batch in order |
| HistoryMoveAggregator.EmptyKey | src/main/java/org/rmatil/sync/event/aggregator/core/aggregator/HistoryMoveAggregator.java:82-94 | an event with a hash is grouped under that hash, one without under `"__empty_key"` |
| HistoryMoveAggregator.Aggregate | src/main/java/org/rmatil/sync/event/aggregator/core/aggregator/HistoryMoveAggregator.java:55-155 | `aggregate` returns a sorted batch with the multiset of `HistoryMoveAggregator.Aggregated`, no longer than the input |
| HistoryMoveAggregator.AggregateCorrected | src/main/java/org/rmatil/sync/event/aggregator/core/aggregator/HistoryMoveAggregator.java:55-155 | the same for the corrected aggregation, also no longer than the input |
| HistoryMoveAggregator.AggregatedNoLonger | src/main/java/org/rmatil/sync/event/aggregator/core/aggregator/HistoryMoveAggregator.java:55-155 | the history variant, as written and corrected, never has more events than the batch |
| HistoryMoveAggregator.MoveDetectedWithHistory | src/main/java/org/rmatil/sync/event/aggregator/core/aggregator/HistoryMoveAggregator.java:64-76 | a deletion without a hash, whose path's last version hash equals a strictly later creation's, becomes a move to the created path; neither the creation nor the deletion, with or without the hash the history gave it, survives |
| HistoryMoveAggregator.DirectoryCreationsLost | src/main/java/org/rmatil/sync/event/aggregator/core/aggregator/HistoryMoveAggregator.java:82-115 | as written, two or more creations without a hash, equal or not, share the `"__empty_key"` group and are all lost |
| HistoryMoveAggregator.DirectoryCreationsKept | src/main/java/org/rmatil/sync/event/aggregator/core/aggregator/HistoryMoveAggregator.java:100-150 | corrected, a batch of creations comes back whole |
| HistoryMoveAggregator.WithoutHistoryIsMoveAggregation | src/main/java/org/rmatil/sync/event/aggregator/core/aggregator/HistoryMoveAggregator.java:55-155 | when the history enriches nothing and no hash equals `"__empty_key"`, the result has the multiset of `MoveAggregator`'s |
| EmptyHashAggregator.MatchFrom | src/main/java/org/rmatil/sync/event/aggregator/core/aggregator/EmptyHashAggregator.java:27-47 | the search finds the first modification of the path with a non-empty hash, or reports that there is none |
| EmptyHashAggregator.FindCandidate | src/main/java/org/rmatil/sync/event/aggregator/core/aggregator/EmptyHashAggregator.java:27-47 | the inner loop with its `break` finds that same modification |
| EmptyHashAggregator.Repair | src/main/java/org/rmatil/sync/event/aggregator/core/aggregator/EmptyHashAggregator.java:32-39 | the repaired creation keeps path, name and timestamp and takes the modification's hash |
| EmptyHashAggregator.Added | src/main/java/org/rmatil/sync/event/aggregator/core/aggregator/EmptyHashAggregator.java:24-51 | the set being filled holds only objects of the batch already visited, each once |
| EmptyHashAggregator.Aggregate | src/main/java/org/rmatil/sync/event/aggregator/core/aggregator/EmptyHashAggregator.java:18-59 | `aggregate` returns a sorted batch with the multiset of `EmptyHashAggregator.Aggregated` |
| EmptyHashAggregator.ScanStep | src/main/java/org/rmatil/sync/event/aggregator/core/aggregator/EmptyHashAggregator.java:24-51 | one turn of the outer loop: the set of added objects and the ignore list after event `i` are those of the first `i + 1` events |
| EmptyHashAggregator.RemoveIgnored | src/main/java/org/rmatil/sync/event/aggregator/core/aggregator/EmptyHashAggregator.java:53-55 | removing every ignored object from the added set leaves exactly the survivors, as a multiset of events |
| EmptyHashAggregator.SurvivorsExactly | src/main/java/org/rmatil/sync/event/aggregator/core/aggregator/EmptyHashAggregator.java:21-53 | an object survives exactly when it is a repaired creation, or an original that is neither a matched empty creation nor a consumed modification (or, corrected, an unmatched empty creation) |
| EmptyHashAggregator.IgnoredIsConsumedOrEmpty | src/main/java/org/rmatil/sync/event/aggregator/core/aggregator/EmptyHashAggregator.java:41-53 | the objects removed are exactly the matched empty creations and the modifications they consumed |
| EmptyHashAggregator.CreationNotConsumed | src/main/java/org/rmatil/sync/event/aggregator/core/aggregator/EmptyHashAggregator.java:28-30 | a creation is never consumed as a modification |
| EmptyHashAggregator.CreationRepaired | src/main/java/org/rmatil/sync/event/aggregator/core/aggregator/EmptyHashAggregator.java:25-42 | an empty creation with a match is replaced by its repair, and the original creation and the modification are both gone |
| EmptyHashAggregator.ModificationShared | src/main/java/org/rmatil/sync/event/aggregator/core/aggregator/EmptyHashAggregator.java:27-45 | two empty creations of one path are both repaired from the same modification |
| EmptyHashAggregator.OthersKept | src/main/java/org/rmatil/sync/event/aggregator/core/aggregator/EmptyHashAggregator.java:48-50 | an event that is not an empty creation and not consumed survives unchanged |
| EmptyHashAggregator.UnmatchedCreationLost | src/main/java/org/rmatil/sync/event/aggregator/core/aggregator/EmptyHashAggregator.java:25-47 | as written, an empty creation without a match leaves nothing in the result |
| EmptyHashAggregator.UnmatchedCreationKept | src/main/java/org/rmatil/sync/event/aggregator/core/aggregator/EmptyHashAggregator.java:25-50 | corrected, an empty creation without a match survives unchanged |
| EmptyHashAggregator.SurvivorsUnique | src/main/java/org/rmatil/sync/event/aggregator/core/aggregator/EmptyHashAggregator.java:21-55 | the result holds each surviving object once and is no longer than the batch |
| EmptyHashAggregator.LoneEmptyCreation | src/main/java/org/rmatil/sync/event/aggregator/core/aggregator/EmptyHashAggregator.java:25-47 | a batch of a single empty creation aggregates to the empty batch as written, and to itself corrected |
| EmptyHashAggregator.CreationThenModification | src/test/java/org/rmatil/sync/event/aggregator/test/core/aggregator/EmptyHashAggregatorTest.java:80-89 | an empty creation at 123 and a modification at 1234 become one creation at 123 with the modification's hash |
| EmptyHashAggregator.HashedCreationKept | src/test/java/org/rmatil/sync/event/aggregator/test/core/aggregator/EmptyHashAggregatorTest.java:91-102 | a creation with a real hash and its modification both pass unchanged |
| FixCreationModifier.LastEmpty | src/main/java/org/rmatil/sync/event/aggregator/core/modifier/FixFileSystemCreationModifier.java:61-65 | the scan keeps the last modification of the path with the empty hash |
| FixCreationModifier.LastCorrect | src/main/java/org/rmatil/sync/event/aggregator/core/modifier/FixFileSystemCreationModifier.java:66-69 | the scan keeps the last modification of the path with the creation's hash, and finds none only when the batch holds none |
| FixCreationModifier.ScanModifications | src/main/java/org/rmatil/sync/event/aggregator/core/modifier/FixFileSystemCreationModifier.java:61-71 | the loop finds both of them |
| FixCreationModifier.Visit | src/main/java/org/rmatil/sync/event/aggregator/core/modifier/FixFileSystemCreationModifier.java:47-85 | visiting one event adds it to the result set and queues exactly the events its case ignores |
| FixCreationModifier.VisitAll | src/main/java/org/rmatil/sync/event/aggregator/core/modifier/FixFileSystemCreationModifier.java:46-86 | after all entries, the set holds every event of the batch and the ignore list exactly the events some creation ignores |
| FixCreationModifier.ModifyEvents | src/main/java/org/rmatil/sync/event/aggregator/core/modifier/FixFileSystemCreationModifier.java:27-95 | `modify` returns a sorted batch with the multiset of `FixCreationModifier.Modified` |
| FixCreationModifier.DroppedIff | src/main/java/org/rmatil/sync/event/aggregator/core/modifier/FixFileSystemCreationModifier.java:74-89 | an event is dropped exactly when it is the last empty-hash modification of a path that has a creation with a real hash and a modification back to that hash |
| FixCreationModifier.KeptUnlessEmptyModification | src/main/java/org/rmatil/sync/event/aggregator/core/modifier/FixFileSystemCreationModifier.java:43-89 | only empty-hash modifications are ever dropped |
| FixCreationModifier.EmptyModificationDropped | src/main/java/org/rmatil/sync/event/aggregator/core/modifier/FixFileSystemCreationModifier.java:77-80 | with a real creation and its same-hash modification, the last empty-hash modification is dropped and the same-hash one kept |
| FixCreationModifier.EarlierEmptyModificationKept | src/main/java/org/rmatil/sync/event/aggregator/core/modifier/FixFileSystemCreationModifier.java:61-65 | an empty-hash modification followed by another of the same path is kept |
| FixCreationModifier.UnrepairedPathKept | src/main/java/org/rmatil/sync/event/aggregator/core/modifier/FixFileSystemCreationModifier.java:74-76 | without the creation and its same-hash modification, every event of the path is kept, the empty-hash modification included |
| FixCreationModifier.SurvivorsDistinct | src/main/java/org/rmatil/sync/event/aggregator/core/modifier/FixFileSystemCreationModifier.java:43-91 | the survivors are distinct objects of the batch |
| FixCreationModifier.OnlyRemoves | src/main/java/org/rmatil/sync/event/aggregator/core/modifier/FixFileSystemCreationModifier.java:43-94 | the result is a sub-multiset of the batch: the modifier never invents events |
| FixCreationModifier.CreationFixed | src/test/java/org/rmatil/sync/event/aggregator/test/core/modifier/FixFileSystemCreationModifierTest.java:81-90 | creation, empty modification and modification back become creation and modification |
| IgnoreSameHashModifier.FindCreate | src/main/java/org/rmatil/sync/event/aggregator/core/modifier/IgnoreSameHashModifier.java:48-58 | the loop reports whether a creation of the batch has the modification's path and hash |
| IgnoreSameHashModifier.RemoveDuplicates | src/main/java/org/rmatil/sync/event/aggregator/core/modifier/IgnoreSameHashModifier.java:61-80 | the iterator pass removes from the clone every other modification with the same path and hash, and reports whether it removed any |
| IgnoreSameHashModifier.ModifyEvents | src/main/java/org/rmatil/sync/event/aggregator/core/modifier/IgnoreSameHashModifier.java:34-112 | `modify` returns `IgnoreSameHashModifier.Modified` |
| IgnoreSameHashModifier.DecideAll | src/main/java/org/rmatil/sync/event/aggregator/core/modifier/IgnoreSameHashModifier.java:41-109 | the loop over the sorted batch outputs the events of the objects the step-by-step run keeps, in order |
| IgnoreSameHashModifier.Turn | src/main/java/org/rmatil/sync/event/aggregator/core/modifier/IgnoreSameHashModifier.java:41-108 | one turn keeps the clone, the kept objects and the output in step with the run over the first `i + 1` events |
| IgnoreSameHashModifier.Decide | src/main/java/org/rmatil/sync/event/aggregator/core/modifier/IgnoreSameHashModifier.java:42-106 | the decision for event `i` and the clone it leaves are those of one step of the run |
| IgnoreSameHashModifier.KeptIsSelection | src/main/java/org/rmatil/sync/event/aggregator/core/modifier/IgnoreSameHashModifier.java:41-109 | the kept events are the events of the batch whose own decision keeps them, in batch order |
| IgnoreSameHashModifier.KeptIff | src/main/java/org/rmatil/sync/event/aggregator/core/modifier/IgnoreSameHashModifier.java:41-109 | an event is kept exactly when its step decides to keep it |
| IgnoreSameHashModifier.ModifiedIsSubsequence | src/main/java/org/rmatil/sync/event/aggregator/core/modifier/IgnoreSameHashModifier.java:35-111 | the result is a subsequence of the sorted batch, hence sorted |
| IgnoreSameHashModifier.NonModificationsKept | src/main/java/org/rmatil/sync/event/aggregator/core/modifier/IgnoreSameHashModifier.java:105-107 | creations, deletions and moves are all kept, as often as they occur |
| IgnoreSameHashModifier.SameHashCreateDrops | src/main/java/org/rmatil/sync/event/aggregator/core/modifier/IgnoreSameHashModifier.java:48-58 | a modification with the path and hash of a creation in the batch is dropped |
| IgnoreSameHashModifier.DuplicateDrops | src/main/java/org/rmatil/sync/event/aggregator/core/modifier/IgnoreSameHashModifier.java:61-80 | a modification with an equal other modification still in the clone is dropped, and that other one leaves the clone |
| IgnoreSameHashModifier.HistoryDecides | src/main/java/org/rmatil/sync/event/aggregator/core/modifier/IgnoreSameHashModifier.java:86-103 | otherwise the modification is kept exactly unless the path's last version has its hash; a failed lookup keeps it |
| IgnoreSameHashModifier.SameChangeTwiceLost | src/main/java/org/rmatil/sync/event/aggregator/core/modifier/IgnoreSameHashModifier.java:61-80 | as written, two modifications of one path to one hash are both dropped |
| IgnoreSameHashModifier.NotIdempotent | src/main/java/org/rmatil/sync/event/aggregator/core/modifier/IgnoreSameHashModifier.java:61-80 | as written, four equal modifications leave two, and a second application leaves none |
| IgnoreSameHashModifier.Dedup | src/main/java/org/rmatil/sync/event/aggregator/core/modifier/IgnoreSameHashModifier.java:70-77 | the corrected decision keeps only events of the batch, and every event that is not a modification |
| IgnoreSameHashModifier.DedupSorted | src/main/java/org/rmatil/sync/event/aggregator/core/modifier/IgnoreSameHashModifier.java:70-77 | the corrected decision keeps a sorted batch sorted |
| IgnoreSameHashModifier.DedupIdempotent | src/main/java/org/rmatil/sync/event/aggregator/core/modifier/IgnoreSameHashModifier.java:70-77 | the corrected decision applied to its own result changes nothing |
| IgnoreSameHashModifier.CorrectedIdempotent | src/main/java/org/rmatil/sync/event/aggregator/core/modifier/IgnoreSameHashModifier.java:70-77 | corrected, applying the modifier twice equals applying it once |
| IgnoreSameHashModifier.SameChangeTwiceKeptOnce | src/main/java/org/rmatil/sync/event/aggregator/core/modifier/IgnoreSameHashModifier.java:70-77 | corrected, of two modifications of one path to one hash the later is kept |
| IgnoreSameHashModifier.FiveEventBatch | src/test/java/org/rmatil/sync/event/aggregator/test/core/modifier/IgnoreSameHashModifierTest.java:127-137 | creation, modification to its hash, modification to a new hash, a modification the history already has and one of an unknown path leave the creation, the new hash and the unknown path |
| IgnorePathsModifier.PathsOnly | src/main/java/org/rmatil/sync/event/aggregator/core/modifier/IgnorePathsModifier.java:28-30 | the one-argument constructor ignores no pattern |
| IgnorePathsModifier.UnderSome | src/main/java/org/rmatil/sync/event/aggregator/core/modifier/IgnorePathsModifier.java:49-66 | the loop reports whether the event's path, or a move's old or new path, starts with some ignored path |
| IgnorePathsModifier.MatchesSome | src/main/java/org/rmatil/sync/event/aggregator/core/modifier/IgnorePathsModifier.java:68-90 | the loop reports whether the event's path, or a move's old or new path, matches some ignored pattern |
| IgnorePathsModifier.ModifyEvents | src/main/java/org/rmatil/sync/event/aggregator/core/modifier/IgnorePathsModifier.java:42-99 | `modify` returns `IgnorePathsModifier.Modified` |
| IgnorePathsModifier.IsIgnored | src/main/java/org/rmatil/sync/event/aggregator/core/modifier/IgnorePathsModifier.java:47-90 | an event is flagged exactly when it lies under an ignored path or, failing that, matches an ignored pattern |
| IgnorePathsModifier.KeptIff | src/main/java/org/rmatil/sync/event/aggregator/core/modifier/IgnorePathsModifier.java:46-95 | an event is kept, with all its copies, exactly when it is neither under an ignored path nor matching a pattern |
| IgnorePathsModifier.ModifiedIsSubsequence | src/main/java/org/rmatil/sync/event/aggregator/core/modifier/IgnorePathsModifier.java:43-98 | the result is the kept events in the order of the sorted batch, and sorted |
| IgnorePathsModifier.NothingIgnored | src/main/java/org/rmatil/sync/event/aggregator/core/modifier/IgnorePathsModifier.java:49-94 | with no ignored path and no pattern, the batch comes back sorted and whole |
| IgnorePathsModifier.Idempotent | src/main/java/org/rmatil/sync/event/aggregator/core/modifier/IgnorePathsModifier.java:46-95 | applying the modifier twice equals applying it once |
| IgnorePathsModifier.IgnoredDirectory | src/test/java/org/rmatil/sync/event/aggregator/test/core/modifier/IgnorePathsModifierTest.java:33-55 | with a directory ignored, its creation, its modification and the moves out of and into it are dropped; the deletion and the move beside it are kept, in order |
| RelativePathModifier.CommonPrefix | src/main/java/org/rmatil/sync/event/aggregator/core/modifier/RelativePathModifier.java:36 | the count of leading components the root and the path share, maximal |
| RelativePathModifier.RelativizeUnderRoot | src/main/java/org/rmatil/sync/event/aggregator/core/modifier/RelativePathModifier.java:36 | a path under the root becomes the components after the root: root followed by the result is the path |
| RelativePathModifier.ResolveRelativize | src/main/java/org/rmatil/sync/event/aggregator/core/modifier/RelativePathModifier.java:36 | resolving the relative path against the root gives back every path without `..` components |
| RelativePathModifier.ModifyEvents | src/main/java/org/rmatil/sync/event/aggregator/core/modifier/RelativePathModifier.java:31-62 | `modify` returns `RelativePathModifier.Modified` |
| RelativePathModifier.RelativizeEvent | src/main/java/org/rmatil/sync/event/aggregator/core/modifier/RelativePathModifier.java:36-57 | the new event has the kind, name, hash and timestamp of the old one and its path (and new path) relativised |
| RelativePathModifier.ModifiedIsMap | src/main/java/org/rmatil/sync/event/aggregator/core/modifier/RelativePathModifier.java:35-61 | the result is sorted, as long as the batch, and a permutation of the batch with every event rewritten |
| RelativePathModifier.ModifiedEvent | src/main/java/org/rmatil/sync/event/aggregator/core/modifier/RelativePathModifier.java:41-55 | each result event has the kind, name, hash and timestamp of its input event and the relativised path, and for a move the relativised new path |
| RelativePathModifier.ModifiedUnderRoot | src/main/java/org/rmatil/sync/event/aggregator/core/modifier/RelativePathModifier.java:51-54 | for events under the root, the root followed by each rewritten path is the original path, for both paths of a move |
| RelativePathModifier.RelativizeExamples | src/test/java/org/rmatil/sync/event/aggregator/test/core/modifier/RelativePathModifierTest.java:28-94 | `/tmp/dir/myDir/someFile.txt` relative to `/tmp/dir` is `myDir/someFile.txt`; a sibling of the root starts with `..`; the root itself becomes the empty path |
| Listeners.DeliveredOncePerRegistration | src/main/java/org/rmatil/sync/event/aggregator/core/EventAggregator.java:207-209 | notifying the listeners makes one call per registration, in registration order, each with the same batch |
| Aggregation.ApplyAppend | src/main/java/org/rmatil/sync/event/aggregator/core/EventAggregator.java:189-198 | running two chains of stages one after the other is running their concatenation |
| Aggregation.ApplyLast | src/main/java/org/rmatil/sync/event/aggregator/core/EventAggregator.java:189-192 | the stage registered last runs last, on the output of all the others |
| Aggregation.PipelineIsOneChain | src/main/java/org/rmatil/sync/event/aggregator/core/EventAggregator.java:184-198 | the modifiers and then the aggregators form one chain on the sorted batch |
| Aggregation.NoStages | src/main/java/org/rmatil/sync/event/aggregator/core/EventAggregator.java:186 | with nothing registered, the listeners receive the batch sorted and otherwise unchanged |
| Aggregation.Notifications | src/main/java/org/rmatil/sync/event/aggregator/core/EventAggregator.java:200-209 | an empty result notifies nobody; otherwise the i-th call goes to the i-th registered listener with the result |
| Aggregation.EventAggregator.constructor | src/main/java/org/rmatil/sync/event/aggregator/core/EventAggregator.java:90-98 | the registries start empty, the interval at 5000 ms, and the root path is the given one; it is a `const`, so no later call can change it |
| Aggregation.EventAggregator.AddListener | src/main/java/org/rmatil/sync/event/aggregator/core/EventAggregator.java:109-111 | the listener is appended; nothing else changes |
| Aggregation.EventAggregator.RemoveListener | src/main/java/org/rmatil/sync/event/aggregator/core/EventAggregator.java:113-115 | the first registration of the listener is removed; nothing else changes |
| Aggregation.EventAggregator.AddAggregator | src/main/java/org/rmatil/sync/event/aggregator/core/EventAggregator.java:121-123 | the aggregator is appended; nothing else changes |
| Aggregation.EventAggregator.RemoveAggregator | src/main/java/org/rmatil/sync/event/aggregator/core/EventAggregator.java:125-127 | the first registration of the aggregator is removed; nothing else changes |
| Aggregation.EventAggregator.AddModifier | src/main/java/org/rmatil/sync/event/aggregator/core/EventAggregator.java:133-135 | the modifier is appended; nothing else changes |
| Aggregation.EventAggregator.RemoveModifier | src/main/java/org/rmatil/sync/event/aggregator/core/EventAggregator.java:137-139 | the first registration of the modifier is removed; nothing else changes |
| Aggregation.EventAggregator.SetAggregationInterval | src/main/java/org/rmatil/sync/event/aggregator/core/EventAggregator.java:145-151 | the interval becomes the value set, which the getter returns; nothing else changes |
| Aggregation.EventAggregator.OnChange | src/main/java/org/rmatil/sync/event/aggregator/core/EventAggregator.java:184-211 | the delivery log grows by the notifications for the pipeline's result, and the registries are unchanged |
| Aggregation.RunStages | src/main/java/org/rmatil/sync/event/aggregator/core/EventAggregator.java:189-198 | running the stages in registration order, each on the previous output, gives `Apply` of the stages |
| Aggregation.EventAggregator.Notify | src/main/java/org/rmatil/sync/event/aggregator/core/EventAggregator.java:206-209 | the delivery log grows by one delivery per registered listener, in registration order, and the registries are unchanged |
| Aggregation.AddThenRemoveStage | src/main/java/org/rmatil/sync/event/aggregator/core/EventAggregator.java:121-139 | registering a stage and withdrawing it restores a registry without that identity |
| Aggregation.AddThenRemoveListener | src/main/java/org/rmatil/sync/event/aggregator/core/EventAggregator.java:109-115 | registering a listener and withdrawing it restores a registry it was not in |
| Seqs.RemoveFirst | src/main/java/org/rmatil/sync/event/aggregator/core/EventAggregator.java:113-115 | with no matching element the list is unchanged; otherwise exactly the first matching element is removed |
| PathEvents.HashOf | src/main/java/org/rmatil/sync/event/aggregator/core/PathEventListener.java:45-52 | a path gets a hash only when it is a regular file and hashing succeeded |
| PathEvents.PathEventListener.constructor | src/main/java/org/rmatil/sync/event/aggregator/core/PathEventListener.java:37-40 | bag and listeners start empty |
| PathEvents.PathEventListener.OnPathCreated | src/main/java/org/rmatil/sync/event/aggregator/core/PathEventListener.java:42-55 | exactly one creation with the path's name, hash and the current time is appended; earlier entries are unchanged |
| PathEvents.PathEventListener.OnPathModified | src/main/java/org/rmatil/sync/event/aggregator/core/PathEventListener.java:57-70 | exactly one modification is appended in the same way |
| PathEvents.PathEventListener.OnPathDeleted | src/main/java/org/rmatil/sync/event/aggregator/core/PathEventListener.java:72-76 | exactly one deletion without a hash is appended |
| PathEvents.PathEventListener.Run | src/main/java/org/rmatil/sync/event/aggregator/core/PathEventListener.java:79-113 | an empty bag notifies nobody and changes nothing; otherwise the bag is emptied and every registered listener receives the bag's events in timestamp order, once per registration |
| PathEvents.PathEventListener.AddListener | src/main/java/org/rmatil/sync/event/aggregator/core/PathEventListener.java:120-122 | the listener is appended; bag and log unchanged |
| PathEvents.PathEventListener.RemoveListener | src/main/java/org/rmatil/sync/event/aggregator/core/PathEventListener.java:129-131 | the first registration of the listener is removed; bag and log unchanged |

## Left out

- `EventAggregator.start` and `stop` are left out: the path watcher, the thread pools, `Thread.sleep` and the scheduling at a fixed rate (EventAggregator.java:153-182). The model has no threads. The bag is accessed sequentially, although the Java `ArrayList` is shared unsynchronised between the watcher thread and the scheduler.
- The wiring in which the `EventAggregator` registers itself as the bag's listener is left out. Listeners of both classes are identities with a delivery log; what a listener does with a batch is not modelled.
- Exceptions thrown by a stage or a listener are left out: `run` catches them and stops notifying. Listeners and stages are total functions in the model.
- `EventAggregator.onChange` and every stage sort the caller's list in place. The model works on values, so the caller never sees that reordering.
- File hashing (`Hash.hash`), `isFile`, the clock and the glob matcher are parameters. Their behaviour is not modelled.
- The version history is looked up by the path in the model; the code looks it up by a hash of the path string.
- `AddDirectoryContentModifier` and `IgnoreDirectoryModifier` are not part of this model: both inspect the file system.
- Timestamps are unbounded integers. Java's `long` never overflows for real clock values.
- MoveAggregator.Aggregate: the order of events with equal timestamps depends on `HashMap` iteration. The contract fixes the multiset and sortedness, not that order. The same holds for `HistoryMoveAggregator.Aggregate`, `EmptyHashAggregator.Aggregate` and `FixCreationModifier.ModifyEvents`.
- EmptyHashAggregator.Aggregate requires that every creation carries a hash (so the model covers no directory creation, whose hash is null), and so does every modification it compares; the code throws a `NullPointerException` otherwise. The same holds for `FixCreationModifier.ModifyEvents` (`NoNullDereference`) and `IgnoreSameHashModifier.ModifyEvents` (`SafeUpTo`). The exception path is not modelled.
- IgnoreSameHashModifier.ModifyEvents: a `PathObject` that the object manager returns as `null` leads to a `NullPointerException` outside the `catch`; the model has no such case, and an absent history entry stands for the caught `InputOutputException`.
- RelativePathModifier.Relativize covers two normalised paths of the same kind. `Path.relativize` throws when one path is absolute and the other relative, and its handling of `.` and `..` inside the paths is not modelled.
- Aggregation.EventAggregator.RemoveModifier and `RemoveAggregator` compare stages by `id`, which stands for Java object identity. Dafny cannot compare function values.
- Log output (`logger.trace`, `logger.info`, `logger.error`) is left out.

## Findings

| source | as written | input that shows it | evidently intended | confidence | as-written member | corrected member |
|---|---|---|---|---|---|---|
| src/main/java/org/rmatil/sync/event/aggregator/core/aggregator/MoveAggregator.java:70 | a hash group of two or more events with deletions but no creations, or creations but no deletions, is skipped, and those deletions or creations vanish (the same at HistoryMoveAggregator.java:115) | two creations of directories, both without a hash, in one batch: the result is empty | unpaired deletions and creations pass through unchanged, as the comments at lines 76 and 85 ("add these too, otherwise they get lost") and the aggregator interface promise | high, not executed | MoveAggregator.DirectoryCreationsLost | MoveAggregator.DirectoryCreationsKept |
| src/main/java/org/rmatil/sync/event/aggregator/core/aggregator/EmptyHashAggregator.java:25-47 | an empty-hash creation without a same-path modification of another hash is added neither as repaired nor unchanged, so it vanishes | a batch holding only one creation with the empty-content hash: the result is empty | the creation of an empty file passes unchanged, as every event the aggregator does not repair does | medium, not executed | EmptyHashAggregator.UnmatchedCreationLost | EmptyHashAggregator.UnmatchedCreationKept |
| src/main/java/org/rmatil/sync/event/aggregator/core/modifier/IgnoreSameHashModifier.java:61-80 | each of two equal modifications (same path and hash) finds the other in the clone, so both are dropped; with four, the first two remove all others from the clone and the last two are kept | two modifications of one path to the same new hash: the result is empty; four such modifications give two, which give none on a second pass | one modification per change survives, as the comment at lines 73-74 ("avoid wrong ignores") intends, and the modifier is idempotent | high, not executed | IgnoreSameHashModifier.SameChangeTwiceLost | IgnoreSameHashModifier.SameChangeTwiceKeptOnce |
