# Firewood: a model of its concurrent core, proved in Dafny

Firewood is a copy-on-write Merkle-trie database written in Rust, with Go bindings. This
project models four of its parts and proves what they promise, for all inputs and, where the
code is concurrent, for all runs.

| files | what they model |
|---|---|
| `Sequences.dfy`, `Nibbles.dfy`, `Trie.dfy` | facts about sequences; keys as nibble paths, their order; the trie as a value |
| `NodeIter.dfy`, `KeyRange.dfy`, `PathIter.dfy` | the iterators of `firewood/src/iter.rs` against the sorted map |
| `EthProof.dfy`, `EthExport.dfy` | which nodes and values `eth_getProof` exports (EIP-1186), entry by entry |
| `PreOrder.dfy`, `Diff.dfy`, `DiffMap.dfy` | the difference stream of two tries and what replaying it does |
| `Persist.dfy` | the permit channel and the background thread of `firewood/src/persist_worker.rs` |
| `Lifecycle.dfy` | the revision queue and the worker together: when a revision is reaped |
| `Manager.dfy` | proposals, commits, queue and index of `firewood/src/manager.rs` as a state machine |
| `Updates.dfy`, `Ledger.dfy`, `NodeLife.dfy`, `Leaks.dfy`, `HashIndex.dfy`, `View.dfy`, `IndexGap.dfy` | what every run of that machine keeps, what a commit does to the index, and which nodes it loses |
| `Database.dfy`, `Reclaim.dfy` | manager, worker and readers running together: freed nodes are unreachable, and every other committed node is accounted for |
| `Commits.dfy`, `Rebase.dfy` | `RevisionManager` as an object, `commit_with_rebase` on top of it |
| `Registry.dfy`, `KeepAlive.dfy`, `Handles.dfy` | keep-alive leases and `Database.Close` of the Go bindings |
| `Cursor.dfy` | the batched Go cursor over the Rust iterator |

How the model is built:

- A concurrent protocol is a state machine. Its events are the steps that other threads can
  see, its runs are all interleavings of enabled events, and an invariant is proved event by
  event. `Database.dfy` runs two such machines side by side.
- Code that updates an object in place is a class. Its methods are proved against functions
  on values, and the theorems are about those functions. `Commits.RevisionManager` carries a
  ghost copy of the manager's state machine, so each of its calls is a run of that machine.
- A few variables of the manager's machine only record history: what was committed, which
  commits were absorbed, which nodes they took out. `Ledger.HistoryIsTrue` ties them to the
  events of the run.
- A root hash is free of collisions: it is the contents it is the hash of. A trie node is
  named by the proposal that made it. Reaping a revision frees the nodes that were taken out
  to make that revision, as the top-level README of the repository says.
- What the persist worker answers, which reference counts are shared, whether a context has
  fired and what a C call returns are parameters.

Four things the proofs brought out:

- `max_revisions > max_persistence_gap` is not only enough to keep reaping behind the disk, it
  is exactly what is needed, with one exception: a single revision with a gap of one is safe
  too, since the only revision that may be missing on disk is then still referenced
  (`Lifecycle.BoundIsExact`).
- A reap takes the oldest revision's hash out of the index without looking which revision the
  entry names, and before it knows whether the reap succeeds. So a queued revision can become
  impossible to find by its hash in a run where nothing fails (`IndexGap.LostFromIndex`). A
  commit keeps every queued revision findable exactly when none left in the queue has the
  hash of one that was reaped or tried, other than the new revision's own hash
  (`IndexGap.CommitKeepsFindable`, and `HashIndex.ReapKeepsComplete` for a single reap).
- A commit whose contents are the latest already makes no revision, so nothing ever frees the
  nodes it took out. They go on belonging to the latest revision until a child of the absorbed
  proposal is committed; then they belong to no revision and are on no delete list
  (`Leaks.NodeIsLost` is such a run). What a commit loses is exactly what the absorbed proposals
  below it took out of the previous revision (`Leaks.LossIsExact`); every other committed node
  is in a queued revision or is freed in its turn (`Reclaim.EveryNodeIsAccounted`).
- `eth_get_proof` takes the last proof node as the account's if it is at account depth and
  has a value, without comparing keys. The comment beside it says anything else is exclusion;
  the code also lets the node of another account through when the descent diverges there. The
  report is right exactly when that does not happen (`EthProof.ReportIsLookupExactly`, with
  the input in `EthProof.AbsentAccountReported`).

## Model

| member | source | states |
|---|---|---|
| Nibbles.KeyFromNibbles | firewood/src/iter.rs:599-611 | the loop packs nibble pairs into bytes and drops an odd last nibble |
| Nibbles.PackToNibbles | firewood/src/iter.rs:599-611 | packing undoes splitting a key into nibbles |
| Nibbles.ToNibblesPack | firewood/src/iter.rs:599-611 | splitting undoes packing for every path of even length |
| Nibbles.NibbleOrder | firewood/src/iter.rs:564-585 | nibble order of two keys is their byte order, both ways |
| Trie.NodesSorted | firewood/src/iter.rs:98-187 | pre-order of a trie is strictly increasing order of full keys |
| Trie.NodesAreLookups | firewood/src/iter.rs:98-187 | a node is in the pre-order list exactly when lookup finds it at its key |
| NodeIter.ComparePartialPath | firewood/src/iter.rs:564-585 | less, equal or greater is decided as the order of paths, and the rest returned is what is left to match |
| NodeIter.InitialState | firewood/src/iter.rs:192-289 | after the seek the stack holds exactly the nodes from the start key on, and the seek ends |
| NodeIter.MerkleNodeIter.Next | firewood/src/iter.rs:98-187 | yields the first pending node and leaves the others, or nothing, for good, when none is left |
| NodeIter.Advance | firewood/src/iter.rs:111-187 | one turn of the stack loop gives the first node of the stack's pre-order and leaves the rest in order |
| NodeIter.MerkleKeyValueIter.Next | firewood/src/iter.rs:321-357 | yields the first pending pair, skipping nodes without a value |
| NodeIter.FilteredKeyRangeIter.Next | firewood/src/iter.rs:616-654 | yields the first pending pair up to the last key, and nothing ever after one beyond it |
| KeyRange.RangeIsSortedMap | firewood/src/iter.rs:98-289 | for every trie and range: exactly the pairs of the map with start <= key <= last, in strictly increasing byte order |
| KeyRange.RangeIsUnique | firewood/src/iter.rs:98-289 | that determines the yielded sequence completely |
| KeyRange.FirstOfRange | firewood/src/iter.rs:321-357 | started at a key, the iterator yields that key first exactly when the map holds it |
| PathIter.PathIterator.Next | firewood/src/iter.rs:432-553 | yields the next item of the walk toward the key, and nothing, for good, after the last |
| PathIter.WalkIsChain | firewood/src/iter.rs:432-553 | every item but the last is a branch at a proper prefix of the key whose next nibble leads to the next item |
| PathIter.WalkEndsAtNode | firewood/src/iter.rs:432-553 | the last item is the node at the key exactly when the trie has one there |
| PathIter.WalkIsMaximal | firewood/src/iter.rs:432-553 | the walk stops only where it has to: at the key, off the node's path, at a leaf or at an empty slot |
| PathIter.PathIteratorFindsKey | firewood/src/iter.rs:412-553 | a chain from the root down that goes on as far as it can, ends at the key with its value exactly when the map holds it, and agrees with the key/value iterator |
| EthProof.SlotValueIsLookup | firewood/src/eth_proof.rs:241-281 | the reported slot value is the one the trie maps account and slot to, or none, for any number of storage children |
| EthProof.LoneChildIsRoot | firewood/src/eth_proof.rs:296-411 | with one storage child the first emitted node is that child, encoded from account depth on, whether the descent meets it or the synthetic key fetches it |
| EthExport.SlotProofIsWalk | firewood/src/eth_proof.rs:241-411 | the whole slot proof of a present account: empty without storage children, the lone child first with one, the branch of the account's children first with more; then all items of the slot's walk below account depth, in order, with keys, partial paths, values and children; the slot is echoed |
| EthExport.ExportIsRight | firewood/src/eth_proof.rs:150-212 | when the descent does not end on another account: the account value is the trie's, the account proof is the walk to the account, and slot by slot in the order asked for the key is the slot and the value the trie's, or all are empty for an absent account |
| EthProof.ReportIsLookupExactly | firewood/src/eth_proof.rs:179-186 | the reported account value is the trie's exactly when the descent does not end on another account at account depth |
| EthProof.AbsentAccountReported | firewood/src/eth_proof.rs:179-186 | an input where an absent account gets another one's value |
| PreOrder.PushChildren | firewood/src/merkle/changes.rs:433-465 | children go on the stack last first, so that they are popped in key order |
| PreOrder.PushChildrenFrom | firewood/src/merkle/changes.rs:476-568 | either all children are pushed or none of them reaches the start key |
| PreOrder.IterateToKey | firewood/src/merkle/changes.rs:476-568 | leaves exactly the nodes from the start key on, in order |
| PreOrder.PreOrderIterator.NextNodeInfo | firewood/src/merkle/changes.rs:433-465 | the next node in pre-order |
| PreOrder.PreOrderIterator.SkipChildren | firewood/src/merkle/changes.rs:471-473 | leaves out the subtree below the current node and nothing else |
| Diff.OneStepIsDelta | firewood/src/merkle/changes.rs:111-226 | one comparison of two heads, subtrees of equal hash skipped, emits what the full difference has next |
| Diff.SkipsExactly | firewood/src/merkle/changes.rs:111-130 | children are skipped exactly when both nodes have hashes and path, value and children are the same |
| Diff.DeltaCommonFront | firewood/src/merkle/changes.rs:111-130 | equal stretches contribute nothing, which is why equal hashes may be skipped |
| Diff.DiffMerkleNodeStream.NextNodeFromBoth | firewood/src/merkle/changes.rs:246-270 | emits the next operation of the difference and keeps the rest |
| Diff.DiffMerkleNodeStream.Step | firewood/src/merkle/changes.rs:272-355 | every state of the stream keeps the remaining difference and makes progress |
| Diff.DiffMerkleNodeStream.Next | firewood/src/merkle/changes.rs:272-372 | emits the first remaining operation, or nothing, for good, at the end |
| DiffMap.DiffIsDifference | firewood/src/merkle/changes.rs:80-372 | a put for exactly the keys new or changed on the right, a delete for exactly those missing there, in increasing key order |
| DiffMap.ApplyDiffMerges | firewood/src/manager.rs:725-746 | applied to any contents: keys on which the tries differ take the right one's value or absence, the rest stay |
| DiffMap.ApplyDiffReaches | firewood/src/manager.rs:725-746 | applied to the left trie's contents the difference gives the right trie's |
| DiffMap.LastTouchDecides | firewood/src/manager.rs:725-746 | any mix of puts, deletes and prefix deletes: the last operation that touches a key decides it, and a key that none touches stays |
| DiffMap.ApplyDistinct | firewood/src/manager.rs:725-746 | with one operation per key and no prefix delete each key ends up as its operation says |
| Persist.PersistChannel.constructor | firewood/src/persist_worker.rs:137-156 | all permits available, and persistence due at half of them |
| Persist.EmptyMeansPersisted | firewood/src/persist_worker.rs:315-318 | when the thread leaves its loop for a shutdown, all permits are back exactly when the latest revision is on disk, so the test decides whether something is left to persist |
| Persist.PersistChannel.Reap | firewood/src/persist_worker.rs:325-334 | queues the revision and wakes the thread, or refuses when shut |
| Persist.PersistChannel.Push | firewood/src/persist_worker.rs:342-368 | parks exactly when no permit is left and the channel is open; otherwise refuses, or takes a permit and wakes the thread at the threshold |
| Persist.PersistChannel.Pop | firewood/src/persist_worker.rs:376-417 | parks exactly when nothing is pending; takes all reaps; takes the revision and all spent permits exactly when the available ones are at the threshold or below |
| Persist.PersistChannel.Release | firewood/src/persist_worker.rs:491-506 | gives permits back and wakes committers exactly when there are some |
| Persist.PersistChannel.Close | firewood/src/persist_worker.rs:421-426 | shuts the channel, changes nothing else and wakes both sides |
| Persist.WorkerKeeps | firewood/src/persist_worker.rs:325-580 | every step of committer and thread keeps the invariants below |
| Persist.PermitsConserved | firewood/src/persist_worker.rs:342-506 | in every run: available, held and spent permits make up the gap, so the wrapping, saturating and capped arithmetic never bites |
| Persist.GapBounded | firewood/src/persist_worker.rs:342-417 | until a failure the latest commit is at most the gap ahead of the disk, consecutive persisted revisions are at most the gap apart, and every commit is at most the gap after a persisted one |
| Persist.PersistsAtInterval | firewood/src/persist_worker.rs:376-417 | in every run the thread takes a revision exactly when it pops an open channel with at least half the gap, rounded up, waiting, and then takes all; it sleeps with fewer, and a commit wakes it exactly when it makes them that many |
| Persist.CycleInOrder | firewood/src/persist_worker.rs:553-579 | a cycle reaps, then persists, then gives its permits back |
| Persist.CloseLeavesLatestOnDisk | firewood/src/persist_worker.rs:242-254 | a close without error leaves the latest commit on disk, wherever it was when shutdown came |
| Persist.ShutMeansError | firewood/src/persist_worker.rs:180-218 | a committer that finds the channel shut, though nobody closed it, finds the error |
| Persist.ParkedIsServed | firewood/src/persist_worker.rs:342-417 | while a committer is parked the thread can move, and every move wakes it or brings that closer |
| Persist.ParkedIsReleased | firewood/src/persist_worker.rs:342-417 | a parked committer is released within a bounded number of steps of the thread |
| Persist.NeverSleepsOnWork | firewood/src/persist_worker.rs:376-426 | the thread sleeps only with nothing pending and can otherwise go on |
| Lifecycle.OldestIsOnDisk | firewood/src/manager.rs:440-464 | an unreferenced revision about to be reaped is not newer than the one on disk |
| Lifecycle.ReapedIsBehind | firewood/src/persist_worker.rs:553-579 | in every run of a safe configuration, as all accepted ones are: reaped revisions have left the queue, are reaped once, are held by no reader and are no newer than the disk |
| Lifecycle.GapTooLarge | firewood/src/manager.rs:205-211 | with a gap as large as the queue some run reaps a revision newer than the disk |
| Lifecycle.OneKept | firewood/src/manager.rs:205-211 | with a single revision kept and a gap of two or more some run reaps a revision newer than the disk |
| Lifecycle.BoundIsExact | firewood/src/manager.rs:205-211 | reaping never runs ahead of the disk if and only if the queue is longer than the gap or the gap is one, which the check in the source turns away only for a single revision |
| Lifecycle.NothingIsMissed | firewood/src/manager.rs:440-464 | in every run an archival database reaps nothing; any other, unless something failed, has reaped or has in hand exactly the revisions that left the queue, oldest first, and all are reaped when the thread sleeps |
| Lifecycle.SentGetsReaped | firewood/src/persist_worker.rs:553-579 | left to itself the thread stops within a bounded number of steps, with everything it was sent reaped unless the channel was shut |
| Lifecycle.CommitMoves | firewood/src/manager.rs:440-479 | a commit that is not parked can go on, and each of its steps parks it, ends it or brings its end nearer; one that finds the channel shut ends |
| Lifecycle.ErrorStopsCommits | firewood/src/manager.rs:413-416 | once an error is recorded and no commit is under way, no run begins another |
| Lifecycle.HeldIsCounted | firewood/src/manager.rs:440-464 | a revision is held as often as readers took it and did not give it back |
| Manager.QueueKept | firewood/src/manager.rs:440-477 | the queue is the newest part of the history and never empty |
| Manager.IdsKept | firewood/src/manager.rs:383-490 | committed ids increase with commit order |
| Updates.ContentsKept | firewood/src/manager.rs:331-549 | every event keeps each proposal equal to its batch applied to what its parent holds, also after reparenting |
| Updates.NoLostUpdates | firewood/src/manager.rs:331-549 | in every run the latest contents are the opening contents with the committed batches applied in commit order, and a commit under way builds on the latest |
| Updates.CommitBuildsOnLatest | firewood/src/manager.rs:415-430 | a commit is taken up exactly when its parent is the latest revision; a refused one changes nothing, a trivial one leaves queue and index |
| Updates.ChildFollowsParent | firewood/src/manager.rs:497-539 | a tracked child of a committed proposal is moved onto the revision the proposal lives in, and can be committed next if that is the latest |
| Ledger.HistoryIsTrue | firewood/src/manager.rs:331-549 | in every run the committed batches are those of the proposals whose commits succeed, in that order, and make the latest contents; revisions come from those not absorbed; failures, blocked reaps, withdrawals and removed hashes are recorded exactly when they happened |
| Ledger.HandlesAreTrue | firewood/src/manager.rs:511-524 | a proposal is held exactly if it was made and its handle not dropped |
| NodeLife.NodesKept | firewood/src/manager.rs:383-549 | every event keeps: no revision reaches a node taken out by it or an earlier commit, and no node is taken out twice |
| Leaks.RevisionsAreProposals | firewood/src/manager.rs:466-486 | in every run each revision has the contents, nodes and delete list of the proposal it was made from, which was made on the revision before; no proposal makes two |
| Leaks.LossIsExact | firewood/src/manager.rs:425-430 | what a commit neither keeps nor has on its delete list is exactly what absorbed proposals below it took out of the previous revision; nothing is lost where these took out nothing |
| Leaks.NodeIsLost | firewood/src/manager.rs:425-430 | a run without failures in which a node ends up in no revision and on no delete list |
| Leaks.LeaksKept | firewood/src/manager.rs:383-549 | every event keeps: what a proposal's base has is kept, on its delete list, or was taken out by absorbed proposals in between |
| HashIndex.IndexKept | firewood/src/manager.rs:440-487 | every event keeps each index entry on the newest queued revision with its hash |
| HashIndex.IndexIsSound | firewood/src/manager.rs:266-281 | in every run: queue not empty, entries newest, the latest revision indexed when nobody commits and nothing failed, and the index complete while no hash repeats and no reap is blocked |
| HashIndex.EmptyIsIndexed | firewood/src/manager.rs:266-281 | an entry has the contents of its hash, and an empty revision is indexed exactly under Ethereum hashing |
| HashIndex.ReapKeepsComplete | firewood/src/manager.rs:440-464 | one reap keeps every queued revision findable exactly when the oldest is really removed and no other has its hash |
| IndexGap.CommitKeepsFindable | firewood/src/manager.rs:383-490 | a whole commit keeps every queued revision findable exactly when none left in the queue has the hash of a reaped or tried one, other than the new revision's hash |
| IndexGap.CommitIndex | firewood/src/manager.rs:440-487 | which hashes the index has after a commit |
| IndexGap.LostFromIndex | firewood/src/manager.rs:440-487 | a run without failures and holders that leaves a queued revision out of the index |
| IndexGap.NextAppends | firewood/src/manager.rs:383-490 | what one commit does to queue and index, with room and without |
| View.ViewFindsCommitted | firewood/src/manager.rs:555-572 | a held or committed non-empty proposal is found by a view that scans the list at one moment and reads the index at any later one, unless a later commit removed its hash |
| View.ViewKept | firewood/src/manager.rs:477-524 | every event keeps a held proposal listed or committed, and a committed one indexed until its hash is removed |
| Database.FreedIsUnreachable | firewood/src/manager.rs:205-211 | in every run of an accepted configuration no freed node is reachable from a queued revision, a held one, the root on disk or a proposal made on a queued revision, directly or through other proposals |
| Reclaim.EveryNodeIsAccounted | firewood/src/persist_worker.rs:553-579 | in every run of a database that is not archival and in which nothing failed: every node ever committed is in a queued revision, on the delete list of the oldest queued one, freed or about to be, or lost to an absorbed proposal; none is lost if those took out nothing |
| Reclaim.ArchivalFreesNothing | firewood/src/manager.rs:440-464 | in every run an archival database frees nothing |
| Database.FreedOnce | firewood/src/persist_worker.rs:553-579 | no node is freed twice |
| Database.LinkedKept | firewood/src/manager.rs:440-486 | manager and worker agree on the queue after every event |
| Commits.Reapable | firewood/src/manager.rs:440-464 | how many revisions go: only unreferenced ones, down to one below the maximum or to a referenced one, and no further |
| Commits.ReapsShorten | firewood/src/manager.rs:440-464 | the reaping loop removes exactly those, or stops right after the last reap that was accepted |
| Commits.CriticalDecides | firewood/src/manager.rs:383-490 | the answer and the queue after a critical section, for every combination of worker answers |
| Commits.AnswerIsExact | firewood/src/manager.rs:413-430 | the worker's error first; then a proposal not made on the latest revision is refused with its own and the latest hash; one that changes nothing succeeds with the latest id; any other succeeds exactly if there is room, and is then the last of the queue |
| Commits.CriticalRuns | firewood/src/manager.rs:383-490 | every critical section is a run of the state machine |
| Commits.CommitIsLatest | firewood/src/manager.rs:415-430 | a successful commit makes the proposal's contents the latest, and the proposal was made on what was latest |
| Commits.RevisionManager.constructor | firewood/src/manager.rs:266-287 | one revision, indexed if it has a hash |
| Commits.RevisionManager.PopOldest | firewood/src/manager.rs:441-463 | takes the oldest off the queue and its hash out of the index; a referenced revision goes back, its hash does not |
| Commits.RevisionManager.ReapOld | firewood/src/manager.rs:440-464 | the while loop is the reaping of the state machine |
| Commits.RevisionManager.Install | firewood/src/manager.rs:481-487 | pushes the revision and indexes it |
| Commits.RevisionManager.CommitCriticalSection | firewood/src/manager.rs:383-490 | answers and leaves the queue as decided, keeping all invariants |
| Commits.RevisionManager.RetainProposals | firewood/src/manager.rs:511-524 | keeps exactly the listed proposals to keep, in order |
| Commits.RevisionManager.ReparentAll | firewood/src/manager.rs:536-538 | moves exactly the surviving children of the committed proposal |
| Commits.RevisionManager.CommitCleanup | firewood/src/manager.rs:497-549 | lists exactly the proposals still held, without the committed one, moves its listed children onto its revision and changes nothing else |
| Commits.DroppedIsDiscarded | firewood/src/manager.rs:511-524 | a proposal whose handle is dropped leaves the list at the next cleanup, the others that are held stay |
| Commits.RevisionManager.Commit | firewood/src/manager.rs:331-355 | a run of the machine; on success the latest contents are the batch applied to what was latest, exactly the other held proposals are listed and the children are moved; on failure the list is as it was |
| Commits.RevisionManager.RemoveProposal | firewood/src/manager.rs:576-583 | takes this proposal off the list and no other |
| Commits.RevisionManager.Track | firewood/src/manager.rs:585-595 | adds the proposal at the end of the list |
| Commits.RevisionManager.ProposeOnCommitted | firewood/src/db.rs:393-415 | a new proposal holds the batch applied to its parent's contents; an earlier worker error is returned and changes nothing |
| Commits.RevisionManager.ProposeOnProposed | firewood/src/db.rs:891-896 | the same on another proposal |
| Commits.RevisionManager.FindRevision | firewood/src/manager.rs:603-652 | the contents with this hash if it is indexed, the default empty one or stored, and not found otherwise |
| Commits.RevisionManager.ViewOf | firewood/src/manager.rs:555-572 | contents with this hash exactly when a listed proposal or a findable revision has it |
| Rebase.ReplayIsMerge | firewood/src/db.rs:853-879 | replaying the difference between old parent and proposal on the latest contents is the three-way merge |
| Rebase.MergeOrder | firewood/src/db.rs:844-889 | two proposals on one parent give the same result in either order exactly when they change alike every key both change |
| Rebase.Difference | firewood/src/db.rs:853-876 | the collected batch, applied to any contents, is the merge of old parent, proposal and those contents |
| Rebase.Collect | firewood/src/db.rs:874-876 | collecting the stream gives the whole difference |
| Rebase.FindOldParent | firewood/src/db.rs:853-859 | finds exactly what the proposal was made on, or says what is in the way: a proposal for a parent, or a parent that cannot be found |
| Rebase.Replay | firewood/src/db.rs:851-880 | the new proposal holds the merge and stands on the latest revision; an obstacle leaves queue and index alone |
| Rebase.CommitWithRebase | firewood/src/db.rs:844-889 | in both branches success leaves the three-way merge as the latest contents and answers its hash; failures are the stale-parent obstacles, which leave queue and list alone, or the worker's, never being late; otherwise the proposal is off the list |
| Registry.KeepAliveRegistry.AttachLease | ffi/keepalive.go:298-322 | counts and registers the lease, or refuses on a closed registry |
| Registry.KeepAliveRegistry.RemoveLease | ffi/keepalive.go:151-175 | takes the lease out and counts down, never below zero; at zero every waiter's channel is closed, in order |
| Registry.KeepAliveRegistry.EnrollWaiter | ffi/keepalive.go:184-192 | drained already, or the waiter is enrolled |
| Registry.KeepAliveRegistry.LeaveWaiters | ffi/keepalive.go:197-210 | takes the waiter out if it is still there and leaves the others in order |
| Registry.KeepAliveRegistry.CloseAndSnapshot | ffi/keepalive.go:240-247 | closes the registry and lists each registered lease once |
| Registry.StepKeeps | ffi/keepalive.go:151-211 | every step keeps count, drop map and waiters consistent |
| Registry.RegistryIsSound | ffi/keepalive.go:151-211 | in every run: count is the size of the drop map, waiters only while it is positive, no channel closed twice, nobody uncancelled misses zero |
| Registry.RungAtZero | ffi/keepalive.go:160-175 | a channel is closed only by the release that brings the count to zero |
| Registry.ClosedShrinks | ffi/keepalive.go:298-308 | once closed no lease is ever added |
| KeepAlive.CloseIsSafe | ffi/firewood.go:539-578 | fwd_close_db is reached, and the database stays closed, only with no lease, no constructor in flight and every leased pointer freed or consumed |
| KeepAlive.ZeroStays | ffi/proposal.go:94-129 | once the count is zero under the handle lock no constructor on any goroutine raises it |
| KeepAlive.WakesAtZero | ffi/keepalive.go:184-211 | a waiting close can go on exactly when the count is zero, and then closes the database |
| KeepAlive.ForceDrains | ffi/keepalive.go:240-263 | a forced close whose context does not fire ends with an empty registry despite concurrent drops, and a closed registry only shrinks |
| KeepAlive.ForceCanEnd | ffi/keepalive.go:240-263 | from every state of a forced close, what has begun can be carried to the end of the close with nothing new begun, so no lock stands in its way |
| KeepAlive.ForceCloses | ffi/firewood.go:539-578 | and then the database can be closed |
| KeepAlive.OnlyForceRefuses | ffi/firewood.go:550-553 | the registry is closed exactly if a forced close was begun; a new object is refused and freed exactly if it is closed, and otherwise leased and counted |
| KeepAlive.CloseTargets | ffi/keepalive.go:240-263 | a forced close goes after every lease, one that is not forced after none; a bound proof is leased |
| KeepAlive.CancelReopens | ffi/keepalive.go:197-210 | a close that gives up leaves the database open for constructors and its waiter off the list |
| KeepAlive.ConstructorGoesThrough | ffi/proposal.go:94-129 | a constructor on an open database can end with a leased handle |
| KeepAlive.PointersGoOnce | ffi/keepalive.go:87-105 | no C pointer goes to two freeing or consuming calls, and all a handle ever held have gone to one once it is dropped |
| KeepAlive.NoneInFlight | ffi/keepalive.go:184-211 | with a count of zero no derived constructor can be in flight |
| KeepAlive.SettledKept | ffi/keepalive.go:298-401 | every event keeps leases, locks and constructors consistent |
| KeepAlive.PointersKept | ffi/reconstructed.go:137-173 | every event keeps each pointer with exactly one owner or gone |
| Handles.Handle.AttachTo | ffi/keepalive.go:298-322 | attached, or on a closed registry dropped on the spot with its pointer freed |
| Handles.Handle.ReleaseLocked | ffi/keepalive.go:395-401 | releases the lease if there is one, once |
| Handles.Handle.Drop | ffi/keepalive.go:87-105 | spends the pointer if it has not been and releases the lease; a second call does nothing |
| Handles.Handle.Reconstruct | ffi/reconstructed.go:137-173 | consumes the old pointer in any case; on failure the handle is dropped and the lease released |
| Handles.CloseAndForceDrop | ffi/keepalive.go:240-263 | each dropped handle is dropped once and deregistered, the others are untouched and still registered; nothing is left if the context does not fire |
| Cursor.CursorHandsOut | ffi/iterator.go:143-234 | if no call fails, any sequence of calls hands out the Rust iterator's pairs in order, each once |
| Cursor.FaultsKeepOrder | ffi/iterator.go:143-234 | whatever fails, what is handed out is in order and nothing twice |
| Cursor.CursorStaysOnMap | ffi/iterator.go:143-234 | on every trie the cursor hands out pairs of the map from the start key on, in strictly increasing key order, whatever fails |
| Cursor.CursorWalksMap | ffi/iterator.go:143-234 | if no call fails and there are enough of them, exactly the map from the start key on |
| Cursor.BatchingIsInvisible | ffi/iterator.go:143-183 | if no call fails, batch sizes and changing them midway cannot be told from the outside |
| Cursor.ShownIsReadable | ffi/iterator.go:195-234 | what Next shows stays readable for good; what NextBorrowed shows stays readable exactly while its allocation is the current one |
| Cursor.FetchTakesBatch | ffi/iterator.go:143-176 | a fetch takes one pair without batching and otherwise a whole batch, or all that is left |
| Cursor.MemoryIsSafe | ffi/iterator.go:55-90 | whatever fails: no allocation is freed twice, a borrowed one not before the next advance or drop, and all of them by then |
| Cursor.IteratorHandle.Next | ffi/src/iterator.rs:52-60 | the next pair; the iterator is let go once exhausted |
| Cursor.IteratorHandle.NextN | ffi/src/iterator.rs:67-69 | the next n pairs, or all that are left |
| Cursor.IteratorHandle.Fail | ffi/src/iterator.rs:67-69 | a failing call may use up pairs and leaves the rest in order |
| Cursor.Iterator.NextInternal | ffi/iterator.go:143-176 | takes a loaded pair, or gives up the current allocation and fetches; a failing free or fetch is reported and leaves the current pair |
| Cursor.Iterator.Move | ffi/iterator.go:195-234 | Next and NextBorrowed: true exactly when a pair is handed out, as a copy by the one and borrowed from the current allocation by the other; an error recorded exactly when the call failed or the cursor is dropped |
| Cursor.Iterator.Drop | ffi/iterator.go:71-90 | frees the current allocation, spends the iterator's own pointer once and releases the lease |

## Left out

- Node storage, free-list layout, the on-disk header and crash recovery: a revision is its contents and a set of node names.
- Hashing, RLP and the encoding of proof nodes: hashes are collision-free by construction and an encoded node is the node.
- `Merkle::insert`, `remove` and `remove_prefix`, parallel batch application: a batch acts on the key/value map, not on the trie.
- Range and change proofs, `merge_key_value_range`, next-key computation, block replay, metrics, logging and the command line.
- The refusal of `eth_get_proof` in other hash modes, and the decoding of account fields.
- `fix_account_value`: reads are modelled with the recomputation of account values off.
- I/O errors inside the Rust iterators and in the difference stream, and panics of any thread.
- Saving a root to the root store after a persist, and its errors: the store is a given map.
- Lifecycle.BoundIsExact: says nothing about keeping no revision at all, where the source panics, or about archival mode, which reaps nothing (`Lifecycle.NothingIsMissed`).
- Lifecycle.SentGetsReaped: promises nothing once the channel is shut: what is still queued then is not reaped, as in the source.
- Reclaim.EveryNodeIsAccounted: says nothing after a failed persist or reap, which drops the reaps of its cycle, and nothing about nodes of proposals that were never committed.
- Updates.NoLostUpdates: needs at least two revisions to be kept, which every accepted configuration has.
- View.ViewFindsCommitted: speaks of one proposal until its hash is taken out of the index; afterwards `IndexGap.LostFromIndex` shows that nothing can be promised.
- KeepAlive.CloseIsSafe: a range proof that never took a lease may keep its pointer; `ensureAttached` is modelled on an open registry only, since its other branch would take a lock it already holds.
- KeepAlive.ForceDrains: says what holds when the call ends; that it can always end is `KeepAlive.ForceCanEnd`, and that a scheduler lets it end, or the nested read lock in `LatestRevision`, is not modelled.
- Handles.CloseAndForceDrop: one goroutine drops everything; what others do meanwhile is in `KeepAlive.ForceDrains`.
- Rebase.CommitWithRebase: the tries of stores are given, each with the contents it holds; the model does not build them from batches.
- Cursor.MemoryIsSafe: a slice borrowed before a drop by another goroutine is invalid afterwards, as the source says.
- `RevisionManager::new` beyond its bound check, advisory file locks, caches and configuration.
