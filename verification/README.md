# Verified core of a collaborative document store

A Dafny model of the parts of Yorkie that are hardest to get right, and proofs about them. To
check it, use Dafny 4.11: `dafny verify dfyconfig.toml`.

The modules follow the program:

| module | models |
|---|---|
| `RedBlack` | left-leaning red-black trees as values: insertion and deletion by position, balance, height |
| `TreeList` | `pkg/treelist`: the order-statistic list of linked nodes under the list type, refining `RedBlack` |
| `LlrbMap` | `pkg/llrb`: the ordered map, refining `RedBlack` and a finite map |
| `Splay` | `pkg/splay`: the self-adjusting sequence under text and arrays, stale weights included |
| `ClientProtocol` | `client/client.go`, `client/attachment.go`: attachments and their watch pipelines as a step system of goroutines |
| `IndexTree` | `pkg/index/tree.go`: positions, indexes and token ranges in a tree with tombstones |
| `IndexTreeEdits` | `pkg/index/tree.go`: insertions, purges and moves that keep two cached lengths right at every node |
| `TreeCodec` | the depth-annotated post-order list that carries a tree over the wire |
| `Presence` | `pkg/document`: the stream of presence events beside the state it reports |
| `Limiter` | `pkg/limit`: the debouncing rate limiter |
| `Locker` | `pkg/locker`: locks by name with counted entries |
| `WatchBuffer` | `client/watch_buffer.go`: the queue with a capacity-one signal |
| `StoredOps` | `api/converter/normalize.go` and the strict operation decoder it repairs input for |

Linked structures are classes whose methods rewire them in place. Each contract relates the new
links to the old ones through a value: the shape of the tree, or the sequence of its nodes.
Mutexes and goroutines are step systems; a theorem about them holds in every state of every run.

Some results say that the code does not do what one might expect of it, and exactly when it does:

* A pack of changes that fails part of the way keeps the presences it has already applied but
  drops their events, so the event stream stops telling the truth about the clients concerned.
  `Presence.LostWatch` gives such a run. `Presence.HonestIffNothingLost`: stream and state agree in
  every state of a run if and only if every failing pack of it is harmless, a condition read off
  the pack and the presences before it.
* Two grants of one key can fall into one throttle window when the debouncing time is negative:
  the entry then expires inside the window it guards. `Limiter.SpacedIffGuarded` says for which
  configurations the spacing holds.
* A list of tree nodes can decode without an error although no tree is encoded so, because the
  depth table keeps entries of subtrees that have ended: `TreeCodec.StaleParent`.
  `TreeCodec.EncodeDecode` says which lists are reproduced.
* A locker entry on which a `TryLock` has failed is never deleted, against what the package comment
  says about cleaning up: `Locker.LeftoverEntry`, `Locker.LeakIsForever`. `Locker.EntryIffWanted`
  says which names have an entry after a run. Exclusion is not affected.
* A token range leaves out an empty text at the very start or end of an element that it covers:
  `IndexTree.EmptyTextLost`. `IndexTree.StreamedIffNoneDull` says for which trees the ranges are
  those of the flattened stream.
* Without the preference for text, an index strictly inside text comes back from its position one
  lower: `IndexTree.MiddleSlips`. `IndexTree.IndexRoundTrip` says that every other index comes back
  unchanged.

## Model

| member | source | states |
|---|---|---|
| `RedBlack.InsertKeepsInvariants` | pkg/treelist/treelist.go:96-131 | inserting at any position and blackening the root keeps all tree invariants: no red right link, no two reds in a row, equal black height |
| `RedBlack.InsertSequence` | pkg/treelist/treelist.go:117-131 | the in-order sequence afterwards is the old one with the new element at exactly that position |
| `RedBlack.DeleteKeepsInvariants` | pkg/treelist/treelist.go:165-239 | opening the root, deleting at any position and blackening keeps all tree invariants, and every borrowing step on the way finds what it needs |
| `RedBlack.DeleteSequence` | pkg/treelist/treelist.go:187-239 | the in-order sequence afterwards is the old one without exactly that position |
| `RedBlack.RemoveMinSequence` | pkg/treelist/treelist.go:402-417 | removing the minimum takes away the first element and nothing else |
| `RedBlack.FixUpAgrees` | pkg/llrb/llrb.go:276-290 | the repair of the map, which leans left even when the left child is red too, gives the same tree as that of the list, which does not |
| `RedBlack.BlackHeightBounds` | pkg/treelist/treelist.go:18-19 | a tree of black height b has at least 2^b - 1 elements and height at most 2b, plus one under a red root |
| `RedBlack.HeightIsLogarithmic` | pkg/treelist/treelist.go:18-19 | the height is at most 2 log2(n + 1) |
| `TreeList.RotateLeft` | pkg/treelist/treelist.go:322-340 | links, parents, colours and both aggregates of the rotated nodes, with every other node as it was |
| `TreeList.RotateRight` | pkg/treelist/treelist.go:345-363 | the mirror image |
| `TreeList.FixUp` | pkg/treelist/treelist.go:431-443 | the nodes end up linked as the repaired shape, aggregates recomputed |
| `TreeList.MoveRedLeft` | pkg/treelist/treelist.go:376-385 | the nodes end up linked as the shape with a red moved left |
| `TreeList.MoveRedRight` | pkg/treelist/treelist.go:390-397 | the nodes end up linked as the shape with a red moved right |
| `TreeList.InsertByCount` | pkg/treelist/treelist.go:117-131 | the linked subtree becomes the one insertion at that rank builds, with no other node touched |
| `TreeList.RemoveMinNode` | pkg/treelist/treelist.go:402-417 | the linked subtree loses exactly its first node |
| `TreeList.DeleteByCount` | pkg/treelist/treelist.go:187-239 | the linked subtree loses exactly the node at that rank; the successor is relinked in its place and stays the same object |
| `TreeList.StructuralIndexOf` | pkg/treelist/treelist.go:261-269 | the walk to the root returns the position of the node in list order, tombstones counted |
| `TreeList.Tree.InsertAfter` | pkg/treelist/treelist.go:96-112 | keeps every invariant and puts the target right after the given node; no other node moves or changes its liveness |
| `TreeList.Tree.Delete` | pkg/treelist/treelist.go:165-181 | keeps every invariant and removes exactly the given node; every survivor stays the object it was, in the same order |
| `TreeList.Tree.UpdateWeight` | pkg/treelist/treelist.go:243-247 | repairs a tree that is right but for the weights from one node upwards |
| `TreeList.Tree.SetRemoved` | pkg/treelist/treelist.go:243-247 | flipping a tombstone and updating the weights keeps every invariant and the order |
| `TreeList.Tree.Find` | pkg/treelist/treelist.go:142-159 | returns the i-th live node in order, an error exactly outside 0 <= i < live nodes, in at most 2 log2(n + 1) steps |
| `TreeList.Tree.LenIsLive` | pkg/treelist/treelist.go:134-139 | the root's weight is the number of live nodes |
| `LlrbMap.Tree.Put` | pkg/llrb/llrb.go:74-78 | keeps the tree legal and updates the finite map it stands for at one key; returns the value |
| `LlrbMap.Tree.Remove` | pkg/llrb/llrb.go:89-98 | for a present key, keeps the tree legal and removes that key from the map |
| `LlrbMap.Tree.Len` | pkg/llrb/llrb.go:143-145 | the counter equals the size of the map |
| `LlrbMap.Tree.Floor` | pkg/llrb/llrb.go:101-119 | the entry with the greatest key not above the given one, or none if there is none |
| `LlrbMap.Tree.Ceiling` | pkg/llrb/llrb.go:122-140 | the entry with the least key not below the given one, or none if there is none |
| `LlrbMap.PutLegal` | pkg/llrb/llrb.go:147-175 | placing a key keeps search order and all three tree invariants and is map update |
| `LlrbMap.RemoveLegal` | pkg/llrb/llrb.go:177-209 | taking out a present key, by overwriting with its successor, keeps search order and all three invariants and is map removal |
| `LlrbMap.EraseFixUp` | pkg/llrb/llrb.go:276-290 | repair depends on colours and entries only, not on which node object holds which entry |
| `Splay.Laminar` | pkg/splay/splay.go:351-400 | in a well-linked tree the stretches covered by two subtrees are nested or disjoint |
| `Splay.WeightsAddUp` | pkg/splay/splay.go:261-272 | the local weight equations hold everywhere exactly when every weight is the total length of the node's stretch |
| `Splay.Tree.RotateLeft` | pkg/splay/splay.go:351-375 | keeps the sequence and keeps the weight promise under any set of changed nodes |
| `Splay.Tree.RotateRight` | pkg/splay/splay.go:377-400 | the mirror image |
| `Splay.Tree.Splay` | pkg/splay/splay.go:134-167 | terminates with the node at the root, the sequence and all lengths as before, and a right weight wherever nothing below has changed |
| `Splay.NewTree` | pkg/splay/splay.go:99-103 | a tree of one unlinked node, or of none, is well formed |
| `Splay.Tree.InsertAfter` | pkg/splay/splay.go:116-131 | inserts exactly after the given node and splays to the new one; weights right |
| `Splay.Tree.Insert` | pkg/splay/splay.go:106-113 | inserts after the current root, or as the only node |
| `Splay.Tree.Delete` | pkg/splay/splay.go:295-324 | removes exactly the given node, unlinks it and leaves every weight right |
| `Splay.Tree.CutOffRight` | pkg/splay/splay.go:346-349 | recomputes a cut-off subtree so that every weight of the tree is right again |
| `Splay.Tree.DeleteRange` | pkg/splay/splay.go:332-344 | when exactly the nodes between the boundaries were emptied and all weights above them are stale, every weight is right again and the sequence is unchanged |
| `Splay.Tree.UpdateTreeWeight` | pkg/splay/splay.go:287-292 | the walk to the root settles the weights owed to one changed node |
| `Splay.Tree.IndexOf` | pkg/splay/splay.go:170-177 | the total length before the node, -1 for an unlinked one |
| `Splay.Tree.FindForText` | pkg/splay/splay.go:181-206 | the first node whose end is at or after the index, with the offset that makes start + offset equal it; an error exactly above the length |
| `Splay.Tree.FindForArray` | pkg/splay/splay.go:210-232 | the node whose stretch contains the index; an error exactly outside the length |
| `Splay.Tree.Len` | pkg/splay/splay.go:411-417 | the total length |
| `Splay.Tree.InOrder` | pkg/splay/splay.go:419-427 | the traversal visits the sequence in order |
| `ClientProtocol.StepKeepsInv` | client/client.go:591-609 | every step of every goroutine keeps the protocol invariant |
| `ClientProtocol.RunKeepsInv` | client/client.go:591-609 | it holds in every state of every run of Attach, Detach, Remove, Sync, Activate, Deactivate, Close and reconnects |
| `ClientProtocol.LiveUntilItMoves` | client/client.go:610-623 | a thread past lockLiveAttachment keeps syncMu and a running pump until it moves itself, whatever the others do |
| `ClientProtocol.RetiredOnlyWhenOutOfUse` | client/client.go:1737-1750 | a published pipeline starts to stop only by the holder of its syncMu, and only once unregistered or after the status left activated |
| `ClientProtocol.PublisherHasPump` | client/client.go:1836-2003 | whoever is about to publish on a document's event channel finds the pump draining it |
| `ClientProtocol.PumpOutlivesReaders` | client/attachment.go:55-80 | a pump is asked to stop only after the last reader slot is gone, and no slot appears again |
| `ClientProtocol.RegistryIsCurrent` | client/client.go:571-581 | every registered attachment is of the current generation and live while activated; the registry is empty when deactivated |
| `ClientProtocol.NoPipelineForgotten` | client/client.go:522-559 | every attachment ever published is registered, retired, or owed a retirement by a thread |
| `ClientProtocol.NeverStuck` | client/client.go:379-942 | no deadlock: in every state of every run with a goroutine at work, one of them or a pump asked to stop can take a step that changes the state |
| `ClientProtocol.NothingLeftBehind` | client/client.go:591-623 | when no goroutine is at work, whatever failed on the way, every mutex is free, no key is marked as being attached, no reader slot is taken, and every attachment ever made, published or not, is registered or torn down with its pump gone |
| `ClientProtocol.RunHeld` | client/client.go:591-623 | in every state of every run a mutex that is taken is held by a goroutine that stands where it holds it |
| `ClientProtocol.RunTraced` | client/client.go:898-942 | in every state of every run a key marked as being attached, and an attachment that is neither published nor torn down, is the business of a goroutine at work |
| `ClientProtocol.OnlyRetireStops` | client/client.go:1737-1750 | only a thread in stopWatchPipeline of that attachment changes its stop-once |
| `ClientProtocol.MoveEvolves` | client/client.go:1671-1750 | what one step may do to generations, publication, stop-once and pumps, which only go forward |
| `ClientProtocol.ActivateSucceeds` | client/client.go:379-425 | Activate of a deactivated client can run through: activated, one generation on, nothing else changed |
| `ClientProtocol.AttachSucceeds` | client/client.go:978-1180 | Attach of a free key of an activated client can run through by its own steps: a published, live attachment of the current generation is registered, with one reader at its stream, and nothing else has changed |
| `ClientProtocol.AttachReplaces` | client/client.go:898-942 | Attach of a key with a stale attachment can run through: the old one is torn down with its readers, the new one registered in its place |
| `ClientProtocol.UseGoesLive` | client/client.go:610-623 | a registered attachment whose lock is free can be taken: the goroutine holds syncMu and stands past lockLiveAttachment |
| `ClientProtocol.SyncSucceeds` | client/client.go:670-736 | a Sync can run through and leaves everything as it found it |
| `ClientProtocol.DetachSucceeds` | client/client.go:833-893 | Detach of a registered attachment can run through: out of the registry and torn down, all its readers gone |
| `ClientProtocol.TeardownEnds` | client/client.go:1737-1750 | a teardown cancels the streams, all readers leave, the pump exits and the stop-once is finished |
| `ClientProtocol.ReconnectSucceeds` | client/client.go:2021-2047 | a reader that loses its stream can reconnect: a new reader takes over, the slots as many as before |
| `ClientProtocol.DeactivateSucceeds` | client/client.go:428-475 | from every state of a run in which only readers are at work, Deactivate can run through: deactivated, the registry empty, every attachment that was registered torn down with its readers |
| `IndexTree.LaidTiles` | pkg/index/tree.go:406-419 | the tokens of a tree laid out one after the other fill its padded length without gap or overlap |
| `IndexTree.StreamSpells` | pkg/index/tree.go:153-236 | the flattened stream is well nested and spells what the view shows: reading it back, with each end tag where its start tag announced it, gives the nested shape |
| `IndexTree.TokensBetween` | pkg/index/tree.go:162-236 | fails exactly for a bad range at the outer call; else yields, in order, exactly the tokens that meet the range, but for empty texts at the edges of an element, with and without tombstones |
| `IndexTree.StreamedIffNoneDull` | pkg/index/tree.go:162-236 | all ranges yield exactly the tokens of the flattened stream that they meet if and only if no element below the root has an empty text at the edge of its content |
| `IndexTree.EmptyTextLost` | pkg/index/tree.go:206-211 | a concrete tree and range for which an empty text inside the range is left out |
| `IndexTree.FindTreePos` | pkg/index/tree.go:890-945 | fails exactly above the visible length; else returns, level by level, the first live text touched if text is preferred, the inside of the child enclosing the index, or the first gap; it has the index, one lower strictly inside text without the preference; a negative index leads to the leftmost position |
| `IndexTree.OneChoice` | pkg/index/tree.go:890-945 | that description fits exactly one position |
| `IndexTree.IndexOf` | pkg/index/tree.go:1167-1217 | in either view and for any node, live or not, walking up from a position computes the same index as counting down from the root |
| `IndexTree.IndexRoundTrip` | pkg/index/tree.go:881-945 | index to position and back is the identity on 0..visible length, whatever the tombstones; without the preference for text exactly the indexes strictly inside text come back one lower |
| `IndexTree.MiddleSlips` | pkg/index/tree.go:930-934 | a concrete tree and index for which the position found without the preference for text has another index |
| `IndexTree.LeftSiblingsSize` | pkg/index/tree.go:1007-1024 | the padded lengths of the children shown before the offset, in either view |
| `IndexTree.FindOffset` | pkg/index/tree.go:484-502 | the number of children shown before a child, in either view, the child itself shown or not |
| `IndexTreeEdits.UpdateAncestorsLength` | pkg/index/tree.go:358-377 | if the parent's equation is off by the given amount, one walk makes that equation exact at every node |
| `IndexTreeEdits.InsertAt` | pkg/index/tree.go:547-560 | the tree with the node at that place, total lengths exact; visible lengths exact if and only if the node is live or contributes nothing; text refuses |
| `IndexTreeEdits.InsertBefore` | pkg/index/tree.go:755-773 | as InsertAt, before the reference; an unknown reference changes nothing |
| `IndexTreeEdits.InsertAfter` | pkg/index/tree.go:776-794 | as InsertAt, after the reference; an unknown reference changes nothing |
| `IndexTreeEdits.RemoveChild` | pkg/index/tree.go:598-622 | the tree without that child, total lengths exact; visible lengths exact if and only if the child was a tombstone or contributed nothing |
| `IndexTreeEdits.DetachForMove` | pkg/index/tree.go:721-743 | takes out a live or tombstoned child with both equations exact everywhere, and the root loses its padded length |
| `IndexTreeEdits.MoveChild` | pkg/index/tree.go:660-675 | the child becomes the last one of its new parent and leaves its old place, both equations exact everywhere; a move within one tree conserves the root's total length |
| `IndexTreeEdits.MoveChildBefore` | pkg/index/tree.go:686-710 | the same to the place before a reference; moving before itself changes nothing |
| `IndexTreeEdits.ForestSized` | pkg/index/tree.go:406-419 | a forest of linked nodes with both equations exact, read as a tree value from any of its nodes, meets the length invariant the queries of `IndexTree` rely on |
| `IndexTreeEdits.AttachedMeans` | pkg/index/tree.go:564-579 | linking a child puts it at that place among its siblings, sets its parent and changes no other link |
| `IndexTreeEdits.TakenOutMeans` | pkg/index/tree.go:598-622 | unlinking a child takes it from that place, clears its parent and changes no other link |
| `TreeCodec.ToTreeNodes` | api/converter/to_bytes.go:305-315 | the traversal callback collects the post-order list with depths |
| `TreeCodec.Link` | api/converter/from_pb.go:996-1009 | the depth table finds, for each entry, the nearest later entry one level up; it fails exactly when some entry has none or a text one |
| `TreeCodec.FromTreeNodes` | api/converter/from_pb.go:979-1017 | fails exactly when a node is absent, faulty or without a parent that may have it; else returns the tree described with both lengths counted |
| `TreeCodec.UpdateDescendantsLength` | pkg/index/tree.go:382-402 | adds up the children shown, bottom up |
| `TreeCodec.CountedSized` | pkg/index/tree.go:382-402 | counting twice over fresh nodes establishes both length equations at every node |
| `TreeCodec.DecodeEncode` | api/converter/from_pb.go:979-1017 | decoding the encoding of any tree rebuilds it: same nodes, child order and tombstones, and the identical tree if its lengths were right |
| `TreeCodec.LegalRoundTrip` | api/converter/to_bytes.go:305-315 | a list whose depths step legally is spelled by the tree built from it |
| `TreeCodec.EncodeDecode` | api/converter/from_pb.go:979-1017 | a list is decodable and reproduced by encoding if and only if its depths step legally and no text node has children |
| `TreeCodec.StaleParent` | api/converter/from_pb.go:999-1009 | a concrete list that decodes although no tree, with childless texts as trees have, is encoded so |
| `TreeCodec.OneReading` | api/converter/to_bytes.go:305-315 | no two different trees have the same encoding |
| `TreeCodec.PostLegal` | pkg/index/tree.go:105-119 | every encoding steps legally |
| `Presence.ProducedTells` | pkg/document/internal_document.go:485-530 | the events of any sequence of changes tell every client's transitions: replaying them gives the state after |
| `Presence.ReconcileTells` | pkg/document/internal_document.go:604-643 | the event of one transition takes a reader from the state before to the state after: Watched when shown first, Unwatched with the old presence when no longer shown, PresenceChanged when shown otherwise, none when nothing changed |
| `Presence.AppliedSettles` | pkg/document/internal_document.go:485-530 | after any sequence of changes a client has its edits since its last Clear, made on nothing, or on what it had if it never cleared; it is online if it was and never cleared |
| `Presence.ClearThenWatch` | pkg/document/presence/inner/change.go:51-63 | a watch notice after a Clear has no event and shows nothing |
| `Presence.HarmlessIffSilent` | pkg/document/document.go:807-881 | a failing pack changes nothing visible if and only if, by the changes before the failing one, no visible client clears or edits itself into another presence and no online client without one edits without clearing |
| `Presence.BystandersHarmless` | pkg/document/document.go:807-881 | that is so if before the failing change only offline clients and the local one touch their presences |
| `Presence.HonestIffNothingLost` | pkg/document/document.go:686-698 | in every interleaving between resets, replay and alternation are right for every other client in every state of the run if and only if each failing pack of the run is harmless |
| `Presence.ReplayShows` | pkg/document/document.go:686-698 | in every such run, replaying received, buffered and unsent events gives every other client's presence exactly as shown |
| `Presence.EventsInRounds` | pkg/document/document.go:799-803 | in every such run, what the application receives of another client is a prefix of (Watched PresenceChanged* Unwatched)* |
| `Presence.LostWatch` | pkg/document/document.go:807-881 | a concrete run in which a pack that is not harmless loses a Watched event and a PresenceChanged comes first |
| `Presence.Document.ApplyChanges` | pkg/document/document.go:807-881 | the state of the changes before the first failure, with every client as its last Clear and its edits since then say; all events, or none after a failure |
| `Presence.Document.AddOnlineClientAndReconcile` | pkg/document/document.go:1405-1429 | the client joins the online ones and presences stay; the event tells the transition of every client |
| `Presence.Document.RemoveOnlineClientAndReconcile` | pkg/document/document.go:1435-1459 | the client leaves the online ones and presences stay; the event tells the transition of every client |
| `Presence.Document.Presences` | pkg/document/internal_document.go:558-568 | exactly the clients that are online and have a presence, with it |
| `Limiter.StepKeepsInv` | pkg/limit/limiter.go:77-175 | every step, in any configuration, keeps list and table in bijection and sorted, and every callback accounted for |
| `Limiter.GrantsSpaced` | pkg/limit/limiter.go:77-106 | before Close, two grants of one key are at least the window apart, also across eviction and re-creation |
| `Limiter.SpacedIffGuarded` | pkg/limit/bucket.go:37-44 | that holds on every run if and only if the debouncing time is not negative, or the window is not positive, or nothing is ever evicted |
| `Limiter.DeniedForAGrant` | pkg/limit/bucket.go:37-44 | in every reachable state, in any configuration, a denied call comes less than a window after an earlier granted call of its key |
| `Limiter.GrantedIff` | pkg/limit/limiter.go:77-106 | before Close, in the configurations of `SpacedIffGuarded`, a call is granted if and only if every earlier grant of its key is at least a window old |
| `Limiter.ExpiresAfterLatest` | pkg/limit/limiter.go:77-106 | in every reachable state an entry expires a window and the debouncing time after the latest call of its key, granted or not |
| `Limiter.ListIsSorted` | pkg/limit/limiter.go:37-40 | in every reachable state list and map hold the same keys, each once, latest expiry first |
| `Limiter.CollectsExpired` | pkg/limit/limiter.go:125-151 | a collection takes expired entries only, from the back, and unless the batch is full leaves none that is expired |
| `Limiter.DrainTakes` | pkg/limit/limiter.go:163-175 | one turn of Close takes a full batch or everything, and with batch size zero nothing |
| `Limiter.DrainsBounded` | pkg/limit/limiter.go:163-175 | with calls coming in meanwhile, Close goes round at most once per entry at its start and per call since, for every positive batch size |
| `Limiter.CallbackFate` | pkg/limit/limiter.go:77-106 | a denied callback lost its place to a later call of its key, or is in exactly one place: entry, goroutine, or run |
| `Limiter.SettledForever` | pkg/limit/limiter.go:154-160 | one that ran never runs again, and one that lost its place never runs |
| `Limiter.AllSettled` | pkg/limit/limiter.go:163-175 | once nothing is left, every denied callback was replaced or ran exactly once |
| `Limiter.Limiter.Allow` | pkg/limit/limiter.go:77-106 | the answer and the whole new state of one call |
| `Limiter.Limiter.CollectEntries` | pkg/limit/limiter.go:125-151 | the loop computes the collection and returns the callbacks of the entries it took |
| `Limiter.Limiter.Close` | pkg/limit/limiter.go:163-175 | ends for every positive batch size with no entry left and every owed callback run exactly once |
| `Locker.StepKeepsInv` | pkg/locker/locker.go:107-218 | every step keeps the table, its counters and the claims in agreement |
| `Locker.OneLockPerName` | pkg/locker/locker.go:107-126 | in every reachable state all claims on a name, waiting or holding, are on the one lock object the table holds for it |
| `Locker.Exclusion` | pkg/locker/locker.go:107-218 | while one claim holds a name for writing no other holds it in either mode, through any deletions and re-creations |
| `Locker.AcquireIff` | pkg/locker/locker.go:107-196 | after any run a waiting claim can be granted if and only if nobody holds the name, or all who hold it read and it reads too |
| `Locker.ReleaseFindsItsLock` | pkg/locker/locker.go:154-173 | a holder's release finds its entry, that entry is the lock it took, and it is locked in the holder's mode |
| `Locker.WaitersCount` | pkg/locker/locker.go:52-72 | the count of an entry is waiting plus holding plus failed attempts |
| `Locker.EntryIffWanted` | pkg/locker/locker.go:107-218 | after any run a name has an entry if and only if somebody claims it or some attempt of the run on it was given up |
| `Locker.LeaksIffGaveUp` | pkg/locker/locker.go:129-150 | an entry counts a failed attempt exactly after a given-up attempt on its name |
| `Locker.LeftoverEntry` | pkg/locker/locker.go:129-150 | a concrete run after which nobody claims the name and its entry is still there |
| `Locker.CleanedUp` | pkg/locker/locker.go:154-173 | without failed attempts the table is exactly the claimed names |
| `Locker.LeakIsForever` | pkg/locker/locker.go:129-150 | after one failed TryLock no continuation ever deletes that entry |
| `Locker.Table.Enter` | pkg/locker/locker.go:107-126 | the critical section of taking: the entry found or created, counted once more |
| `Locker.Table.Leave` | pkg/locker/locker.go:154-173 | the critical section of releasing: no such lock exactly for an absent name; the entry goes exactly when nobody is left on it |
| `WatchBuffer.NeverSleepsOnWork` | client/watch_buffer.go:77-98 | a consumer parked while there is work has a signal waiting or a producer about to deposit one |
| `WatchBuffer.DueStepsDeliver` | client/watch_buffer.go:46-98 | such a consumer delivers the oldest item by at most three steps that are already due |
| `WatchBuffer.DeliveredInOrder` | client/watch_buffer.go:46-98 | deliveries are a prefix of the accepted pushes and the rest is queued in order |
| `WatchBuffer.ClosedAccepts` | client/watch_buffer.go:63-72 | a closed buffer accepts nothing more |
| `WatchBuffer.OpenAccepts` | client/watch_buffer.go:46-59 | after any run exactly the items pushed before the first close are accepted, in order |
| `WatchBuffer.EndIsFinal` | client/watch_buffer.go:74-98 | once pop has reported the end, everything accepted was delivered, for good |
| `StoredOps.StoredIsFiltered` | api/converter/normalize.go:45-57 | the two-pass decoding with its shortcut equals repairing, dropping and decoding in that order |
| `StoredOps.SanitizedAgrees` | api/converter/normalize.go:71-82 | strict decoding of the sanitized operations equals stored decoding of the originals; the two functions share their passes, and what carries it is `StoredIsFiltered` and the methods below |
| `StoredOps.NeverMissing` | api/converter/normalize.go:45-57 | stored decoding never fails for a missing ticket |
| `StoredOps.LoadsIff` | api/converter/normalize.go:45-101 | a stored list loads exactly when no repaired operation fails for another reason than a missing ticket |
| `StoredOps.SanitizedSubsequence` | api/converter/normalize.go:90-101 | sanitizing keeps a subsequence of the repaired operations, in order, with every one that has its tickets |
| `StoredOps.SanitizedTwice` | api/converter/normalize.go:71-82 | sanitizing is idempotent |
| `StoredOps.RepairPreserves` | api/converter/normalize.go:123-150 | repairing changes the decoded meaning of no operation the strict decoder accepts |
| `StoredOps.WellFormedUnchanged` | api/converter/normalize.go:45-82 | a strictly decodable list loads and is forwarded with the same meaning, nothing dropped |
| `StoredOps.RepairHolds` | api/converter/normalize.go:123-256 | a repaired operation is never rejected for a non-finite delta, a negative split level, an empty content group or an attribute without a ticket |
| `StoredOps.StoredNeverRejects` | api/converter/normalize.go:45-57 | so no stored list fails for any of those or for a missing ticket |
| `StoredOps.FromOperations` | api/converter/from_pb.go:332-343 | the loop decodes in order and stops at the first failure |
| `StoredOps.DecodesWhatIsWritten` | api/converter/to_pb.go:307-581 | decoding what the encoder writes gives back the operation, field by field, for every operation a decoding can give |
| `StoredOps.DecodedSurvives` | api/converter/from_pb.go:348-377 | whatever decodes survives being written and decoded again |
| `StoredOps.DecodesIff` | api/converter/from_pb.go:348-377 | an operation decodes if and only if every field meets the demands of its kind |
| `StoredOps.UndatedIsMissing` | api/converter/from_pb.go:1357-1366 | an operation that would decode if its absent tickets were there fails for a missing ticket, so the filter drops it |
| `StoredOps.IncreaseRepairMeans` | api/converter/normalize.go:123-180 | a repaired increase that decodes keeps its fields, and a non-finite delta has become the double zero |
| `StoredOps.TreeEditRepairMeans` | api/converter/normalize.go:123-203 | a repaired tree edit that decodes keeps its range and tickets; a negative level has become 0, empty groups are gone, and split tickets of which one is absent are none |
| `StoredOps.WithoutUndatedOperations` | api/converter/normalize.go:90-101 | keeps exactly the operations that do not fail for a missing ticket, in order |
| `StoredOps.WithoutEmptyContents` | api/converter/normalize.go:218-233 | keeps exactly the groups that hold a node, in order |
| `StoredOps.SplitTicketsUnlessUndated` | api/converter/normalize.go:195-203 | all split tickets, or none if one is absent |
| `StoredOps.NormalizeStoredOperations` | api/converter/normalize.go:123-150 | repairs every operation of the slice in place and nothing else |
| `StoredOps.FromStoredOperations` | api/converter/normalize.go:45-57 | leaves the slice repaired and returns the stored decoding |
| `StoredOps.SanitizeStoredOperations` | api/converter/normalize.go:71-82 | leaves the slice repaired and returns the sanitized operations |

## Left out

- Values: CRDT elements, operations, tickets and presence data are opaque; convergence, undo and redo are not modelled.
- Integers are unbounded; overflow of 32-bit depths, offsets and counters is not modelled.
- Debug functions (`String`, `ToTestString`, `CheckWeight` as code, `ToXML`) only print or re-check.
- `LlrbMap.Tree.Remove`: asks for a present key, as the source does; keys are integers standing for any linear order.
- `TreeList.Tree.Delete`: asks for a node of the tree, as the source does.
- `Splay.Tree.Insert`: states insertion after the current root, which is what the code does; its comment says at the last, but the root need not be the last node.
- Index tree paths (`TreePosToPath`, `PathToTreePos`, common ancestors), the list forms of `Append` and `Prepend`, and `DetachChild` are not part of this model.
- The queries of `IndexTree` and the decoder of `TreeCodec` work on trees as values: nodes are addressed by path, and node identity is modelled in `IndexTreeEdits` only.
- `TreeCodec.FromTreeNodes`: a node whose own fields fail to decode is represented by the failure.
- `IndexTree.FindOffset`: takes the child by its place, so the error for a node that is no child does not occur.
- The client model covers realtime documents: manual attachments have no pump, and channels are not documents. Remote calls succeed or fail freely; backoff, idle timeouts, heartbeats and the wait of the sync loop are not modelled. The absence of deadlock is not a guarantee that every goroutine gets on, and `ClientProtocol.AttachSucceeds` and its like show a run that gets there, not that every run does. A user of an attachment may pick any published one, and Close is a failed Deactivate followed by one that needs no reply.
- `ClientProtocol.DeactivateSucceeds`: starts where only readers with a stream are at work; operations under way at that moment are covered by `ClientProtocol.NeverStuck` and `ClientProtocol.NothingLeftBehind`.
- The registry of the client is one atomic map; its sharding is not modelled.
- `Presence.ReplayShows`: covers runs between resets (a snapshot or a stream initialisation) that begin with no event on its way; it assumes that failing packs are harmless, which `Presence.HonestIffNothingLost` shows to be exactly what it takes, and speaks of clients other than the local one, whose own edits have no event.
- `Presence.EventsInRounds`: the same.
- Presence values appear undecoded, and a presence stored without data, which only a snapshot can bring, is not modelled.
- `Limiter.GrantsSpaced`: stops at Close, which evicts entries early; calls made while Close drains are covered by the accounting of callbacks only. Callbacks handed to one goroutine may run in any order in the model.
- `Limiter.Limiter.Close`: the method drains with no call between its turns; `Limiter.DrainsBounded` covers calls that come in.
- `Locker.Exclusion`: assumes that callers release only what they hold; the reader/writer mutex is modelled by its exclusion, not by its fairness.
- `WatchBuffer.DueStepsDeliver`: shows that delivery is due, not that a scheduler gets there.
- `StoredOps.DecodesWhatIsWritten`: an empty object or array is written in its bare form; the source writes its bytes, which are not modelled.
- `StoredOps.RepairPreserves`: payloads decoded by other components (element bytes, content trees) are represented by how that decoding ends; protobuf bytes are not modelled.
- Server, command line, configuration, webhooks, authentication, TLS and database access are not part of this model; `pkg/cache`, `pkg/heap`, `pkg/cmap`, `pkg/trie` and `pkg/channel` would only add easy members.
