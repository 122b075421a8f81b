# grok-pi: the stateful cores

grok-pi connects the Pi coding agent to the Grok terminal client. Most of it copies fields from
one shape to another; this project models the parts that keep state and whose correctness depends
on more than one function, and proves what they are for. Each `.dfy` file is one component.

| file | what it models |
|---|---|
| `RollbackJournal`, `RollbackPlan` | what a journal of snapshots means, and the rollback that undoes many mutations at once |
| `RollbackTools`, `RollbackRuns`, `RollbackRaces`, `RollbackOrigins`, `RollbackExtension` | the file tools and the binding of records, interleaved at their awaits; what every interleaving records, and what some of them lose; the extension object |
| `RemoteQueue`, `RemoteIds`, `Reservations`, `LocalQueue`, `Mirror` | the prompt queue: identities for a remote queue that reports only texts, and the editable local queue |
| `ParentWalks`, `SessionTree`, `ReplayCache` | the session log: four walks along parent links, the tree view, the incremental cache |
| `BashTask`, `BoundedTail` | a Bash call that may move to the background, and the buffers that keep the end of the output |
| `RpcMultiplexer` | many requests over one child process |
| `PlanMode` | the plan-mode tracker and its reminders |
| `Scheduler`, `Reporter` | the background scheduler and the coalescing state reporter |
| `TokenScaling`, `Bisect`, `ThinkingLevels` | three algorithms: proportional rounding, finding a crashing extension, levels and efforts |
| `Options`, `Text`, `Decimal`, `History` | shared vocabulary: optional values, trimming and ASCII case, numbered ids, flags told from the moments that set and cleared them |

Conventions. An object that the program updates in place is a class; each of its methods is tied to
a step function on values (`View() == Step(old(View()), event)`), and the theorems about runs are
proved about that step function for every sequence of events. An asynchronous operation is split at
its `await` points into separate events, so every interleaving is a run; a rollback request is the one
exception (see "Left out"). Tool calls on the same file are serialised by the mutation queue in which
the program runs them; calls on different files interleave freely. The disk is a map from paths
to contents and the blob store a map from digests to contents; the digest is a parameter without
collisions. Clocks, process events, the order of a hash map and the probe of the bisection are
arbitrary inputs. Counters are unbounded, and quotients are exact.

## Where the code differs from what it says

* **Rollback selects too much.** The comment at `extensions/pi-grok-rollback/index.ts:412` speaks of
  strict descendants of the target; the filter below it keeps every branch entry except the target.
  `RollbackJournal.RollbackReachesTargetIff` gives the exact condition under which the result is
  nevertheless the disk at the target, and `RollbackJournal.MutationsAboveTheTargetAreUndone` a run
  in which it is not.
* **Overlapping edits lose a snapshot.** The edit tool keeps the last file it read in one slot, and
  every edit clears it when its capture is over. `RollbackRaces.EditRecordsTrueBeforeIff` says exactly
  when the recorded state is the true one; `RollbackRaces.OverlappingEditsLoseTheSnapshot` and
  `RollbackRaces.ClearingLosesTheSnapshot` are two ways in which it is not.
* **Binding can lose a record.** The binding of tree entries reads the journal and later writes all of it
  back. `RollbackRaces.NothingIsLostIff`: every record survives exactly when none was appended in between;
  `RollbackRaces.LateRecordIsLost` is a run in which one is lost.
* **Repeated follow-up texts defeat the dequeue tracking.** `RemoteQueue.HeadDequeueIff` gives the exact
  condition, `RemoteQueue.RepeatedHeadIsMistaken` the smallest failing queue.
* **A reservation can go to another text.** A listed text that is not known takes any reservation of its
  lane, so that a reserved text listed after it is treated as new
  (`Reservations.EarlierTextTakesTheReservation`); `Reservations.ReservedIsListedIff` gives the exact
  condition.
* **Some totals are not preserved by token scaling.** The comment at
  `crates/codegen/pi-grok-adapter/src/context_projection.rs:255` promises that the parts add up to the
  total. `TokenScaling.ExactIff` gives the exact condition; four equal parts of two tokens become
  three (`TokenScaling.SmallTotalsCanMiss`). That is also the only case in which the bar shows more
  than the total (`TokenScaling.BarOverflowsIff`).
* **Approved plan exits are silent.** The comment at
  `crates/codegen/pi-grok-adapter/src/plan_mode.rs:287` announces an exit reminder after approval too;
  `PlanMode.ApprovedExitIsSilent` shows that none is sent.
* **A first payload with repeated ids is not merged.** The replay cache skips known ids only when it
  appends, so it agrees with a rebuild exactly when the first payload has distinct ids
  (`ReplayCache.IncrementalAgreesWithRebuildIff`).
* **The rollback walk has no guard against cycles.** The three other walks terminate on any links.
  `ParentWalks.WalkEndsIff` says exactly when this one does, and `ParentWalks.TwoEntryCycleNeverEnds` is a
  log of two entries on which it does not.

## Model

| member | source | states |
|---|---|---|
| RollbackJournal.RollbackInverts | extensions/pi-grok-rollback/index.ts:418-480 | Restoring the `before` of the first mutation of every path takes the disk after a recorded run back to the disk it started from, for every run and path. |
| RollbackJournal.ReplayedEndsAtLast | extensions/pi-grok-rollback/index.ts:278-326 | After a recorded run, a path holds the `after` of its last mutation, and its original state if it has none. |
| RollbackJournal.RollbackReachesTargetIff | extensions/pi-grok-rollback/index.ts:401-420 | With the filter as written, whatever is bound, a rollback takes a path to its state at the target exactly when the first selected mutation, above or below the target, starts from that state, or, with none selected, the mutations after the target cancel out. |
| RollbackJournal.RollbackReachesTarget | extensions/pi-grok-rollback/index.ts:401-489 | If the selected mutations are exactly those after the target, the rollback reaches the disk at the target. |
| RollbackJournal.MutationsAboveTheTargetAreUndone | extensions/pi-grok-rollback/index.ts:411-416 | A file written above the target and untouched since is deleted by a rollback to the target. |
| RollbackJournal.SelectedContents | extensions/pi-grok-rollback/index.ts:411-416 | The selection holds the records that the filter keeps, and no others. |
| RollbackJournal.SelectedIff | extensions/pi-grok-rollback/index.ts:411-416 | A record is selected exactly when some entry of the branch other than the target has it. |
| RollbackJournal.FirstSelected | extensions/pi-grok-rollback/index.ts:417-426 | The first selected record of a path is the first one in the journal that belongs to such an entry. |
| RollbackJournal.LastSelected | extensions/pi-grok-rollback/index.ts:417-426 | The last selected record of a path is the last one in the journal that belongs to such an entry. |
| RollbackJournal.RefsAreFaithful | extensions/pi-grok-rollback/index.ts:148-202 | A stored reference equals the reference of a state exactly when it dereferences to that state: content addressing loses nothing. |
| RollbackRuns.JournalIsCompleteIff | extensions/pi-grok-rollback/index.ts:278-374 | Over every interleaving of write calls, edit calls and bindings, each split at its awaits, in which every write is captured and no rewrite is overtaken: once no call is under way, the journal is a complete record of how the disk got from the start to now exactly when each edit call took the slot while it held its own path. |
| RollbackRuns.RunsFit | extensions/pi-grok-rollback/index.ts:278-374 | The invariant behind it, for every path at every moment: the linked records of the path lead to the state that the call under way found. |
| RollbackRuns.RecordsIffAllChained | extensions/pi-grok-rollback/index.ts:278-326 | A journal is a true record exactly when the records of each path are linked; the order between paths is irrelevant. |
| RollbackRuns.RewriteKeepsPath | extensions/pi-grok-rollback/index.ts:362-374 | Rewriting may reorder the journal, but keeps the records of every path, their snapshots and their order. |
| RollbackRuns.RunsAreStored | extensions/pi-grok-rollback/index.ts:185-202 | In every run each blob that a record refers to, in the journal or on its way there, is in the store. |
| RollbackRaces.EditRecordsTrueBeforeIff | extensions/pi-grok-rollback/index.ts:684-711 | Over every interleaving, the state that an edit is about to record as the previous one is the true one exactly when its own read was the last to touch the slot, by a read or by a clearing. |
| RollbackRaces.OverlappingEditsLoseTheSnapshot | extensions/pi-grok-rollback/index.ts:684-711 | Two reads before the first write: that write looks like the creation of the file. |
| RollbackRaces.ClearingLosesTheSnapshot | extensions/pi-grok-rollback/index.ts:697-711 | A read during the capture of another edit is cleared with it, so the next write looks like a creation although its read was the last one. |
| RollbackRaces.OneEditIsRecorded | extensions/pi-grok-rollback/index.ts:684-711 | A single edit reaches the moment at which that happens. |
| RollbackRaces.NothingIsLostIff | extensions/pi-grok-rollback/index.ts:332-374 | Over every interleaving, the journal holds every record ever appended exactly when no rewrite was overtaken by an append. |
| RollbackRaces.LateRecordIsLost | extensions/pi-grok-rollback/index.ts:332-374 | Two written files and one binding in between that lose the second record. |
| RollbackOrigins.RecordsAreExplained | extensions/pi-grok-rollback/index.ts:278-374 | In every run each record of the journal comes from one capture, whose number, path, call, tool and snapshots it carries, and a bound one is bound to the entry that some binding was given for its call. |
| RollbackOrigins.BindingBinds | extensions/pi-grok-rollback/index.ts:332-374 | An undisturbed binding binds every unbound record whose call has an entry to just that entry, and leaves all others as they are. |
| RollbackOrigins.NumberedIff | extensions/pi-grok-rollback/index.ts:278-326 | A capture is recorded exactly if its path is no link, both states fit ten mebibytes, and they differ. |
| RollbackOrigins.WhatIsStored | extensions/pi-grok-rollback/index.ts:185-202 | Which blobs a capture stores, also when it is refused. |
| RollbackOrigins.BusyIff | extensions/pi-grok-rollback/index.ts:656-711 | In every run a path is busy from the event that opens a call on it to the one that ends it. |
| RollbackPlan.PlanPathFits | extensions/pi-grok-rollback/index.ts:430-486 | What the planning loop adds for one path keeps the plan right: drifted paths are reported, others get an entry that acts only where needed. |
| RollbackPlan.PlanPathAlone | extensions/pi-grok-rollback/index.ts:430-480 | For one path: one conflict that says how it drifted, or its entries with the action, the present and the target digest, and a placeholder first if the path should be, and is, absent. |
| RollbackPlan.PlanPathCounts | extensions/pi-grok-rollback/index.ts:427-480 | Every touched path is reported once or planned once. |
| RollbackPlan.EligibleIff | extensions/pi-grok-rollback/index.ts:427-486 | A plan is eligible exactly when no touched path has drifted from its last selected `after` and some path is not yet in its target state. |
| RollbackPlan.PlanRestores | extensions/pi-grok-rollback/index.ts:491-528 | Carrying an unconflicted plan out leaves every touched path in the `before` of its first selected mutation and every other path unchanged, and no blob is missing. |
| RollbackPlan.RecordedRunNeverDrifts | extensions/pi-grok-rollback/index.ts:278-326 | After a fully recorded run no path counts as drifted: only unrecorded changes make a rollback refuse. |
| RollbackExtension.CapturedRunRollsBack | extensions/pi-grok-rollback/index.ts:278-528 | End to end: after every such run that came to rest, with every edit in time and no record lost, a plan over the whole journal has no conflict, and carrying it out gives back the disk on which the run began. |
| RollbackExtension.Extension.WriteBlob | extensions/pi-grok-rollback/index.ts:185-202 | Content above ten mebibytes is refused; otherwise the store holds the content under its digest and stays content-addressed. |
| RollbackExtension.Extension.CaptureMutation | extensions/pi-grok-rollback/index.ts:278-326 | A capture is refused for symlinks and oversized content, records nothing for an unchanged file, and otherwise gets the next number after its blobs are stored. |
| RollbackExtension.Extension.LookAtFile | extensions/pi-grok-rollback/index.ts:656-661 | The write tool holds what it read before the write. |
| RollbackExtension.Extension.RememberRead | extensions/pi-grok-rollback/index.ts:690-696 | A read of the edit tool goes into the slot after its await. |
| RollbackExtension.Extension.LandWrite | extensions/pi-grok-rollback/index.ts:663-664 | The write replaces one file and nothing else. |
| RollbackExtension.Extension.TakeSnapshot | extensions/pi-grok-rollback/index.ts:697-708 | After the write, a tracked call captures what it read, or what the slot holds of its path; an untracked one is over. |
| RollbackExtension.Extension.ClearSlot | extensions/pi-grok-rollback/index.ts:708-710 | The slot is cleared only after the capture has been awaited. |
| RollbackExtension.Extension.PickUnbound | extensions/pi-grok-rollback/index.ts:332-360 | A binding picks the unbound records whose call has a tree entry, and ends if there is none. |
| RollbackExtension.Extension.RewriteJournal | extensions/pi-grok-rollback/index.ts:361-374 | The journal becomes the records that were read again, bound and sorted, whatever was appended since. |
| RollbackExtension.RewrittenJournal | extensions/pi-grok-rollback/index.ts:362-370 | Sorting the file sorts the mutations among the records, and keeps all of them and all transactions in their order. |
| RollbackExtension.Extension.GroupByPath | extensions/pi-grok-rollback/index.ts:417-426 | Grouping finds every touched path once, with its first and its last mutation. |
| RollbackExtension.Extension.ComputeRollbackPlan | extensions/pi-grok-rollback/index.ts:401-487 | The result is a right plan for the selected mutations, or the one conflict for a target off the branch. |
| RollbackExtension.PlanOutcome | extensions/pi-grok-rollback/index.ts:427-528 | A right plan is eligible exactly when nothing drifted and something needs work, and then every blob is there and the outcome is the restored disk. |
| RollbackExtension.Extension.ApplyPaths | extensions/pi-grok-rollback/index.ts:503-521 | Entries are applied in order up to the first whose blob is missing, and success means that there is none. |
| RollbackExtension.Extension.ExecuteRollback | extensions/pi-grok-rollback/index.ts:491-528 | The transaction is journaled as prepared and then as committed or failed, and no mutation is touched. |
| RollbackExtension.Extension.Execute | extensions/pi-grok-rollback/index.ts:548-595 | Told from the journal alone: a request rolls back exactly when the target is on the branch, every path with a record of another branch entry is as its last one left it, and one of them is not as it was before its first one. Then each such path is back in the state before its first one, every other path is untouched, and the transaction names target and leaf; otherwise no file and no journal line changes. It needs of the log only that the walk along it ends. |
| RemoteQueue.NewListIsTheRemoteList | crates/codegen/pi-grok-adapter/src/queue_bridge.rs:227-298 | After an update the texts and lanes are the remote steering list followed by the follow-up list. |
| RemoteQueue.CarriesAsManyAsPossible | crates/codegen/pi-grok-adapter/src/queue_bridge.rs:244-286 | For every text and lane, the number of entries carried over is the minimum of the old and the new count. |
| RemoteQueue.NothingIsUsedTwice | crates/codegen/pi-grok-adapter/src/queue_bridge.rs:244-289 | No previous entry is carried twice, every reservation is either claimed once or kept, and generated numbers are new. A claimed entry has the id, display text, images and origin of its reservation, a new one its own text to display, no images, and an id from the counter; both have version zero. |
| RemoteQueue.EqualTextsAreCarriedInOrder | crates/codegen/pi-grok-adapter/src/queue_bridge.rs:248-255 | Entries of the same text and lane are carried over front to back. |
| RemoteQueue.RunningIsTheFirstLost | crates/codegen/pi-grok-adapter/src/queue_bridge.rs:291-295 | The new running entry is the first previous follow-up that is not carried over. |
| RemoteQueue.CounterCountsTheFresh | crates/codegen/pi-grok-adapter/src/queue_bridge.rs:276-285 | The counter advances by one for every new entry, and only for those. |
| RemoteQueue.SurvivorsKeepTheirOrder | crates/codegen/pi-grok-adapter/src/queue_bridge.rs:288-289 | Reservations that survive keep their order. |
| RemoteQueue.NoReservationSharesAnId | crates/codegen/pi-grok-adapter/src/queue_bridge.rs:288-289 | A reservation that survives was there before and shares its id with no listed entry. |
| RemoteQueue.ReconcileIsIdempotent | crates/codegen/pi-grok-adapter/src/queue_bridge.rs:227-298 | Applying the same lists twice changes neither entries, reservations, the running entry nor the counter. |
| RemoteQueue.RunningReplacedIff | crates/codegen/pi-grok-adapter/src/queue_bridge.rs:291-295 | The running entry is replaced, by a follow-up of the previous list, exactly when some follow-up text became rarer; losing steering entries never replaces it. |
| RemoteQueue.HeadDequeueIff | crates/codegen/pi-grok-adapter/src/queue_bridge.rs:244-298 | Dropping the head follow-up makes that entry the running one exactly when its text does not occur again in the rest of the list. |
| RemoteQueue.HeadDequeueKeepsTheRest | crates/codegen/pi-grok-adapter/src/queue_bridge.rs:244-298 | With distinct texts per lane, dropping the head follow-up makes it run and leaves all other entries as they were. |
| RemoteQueue.RepeatedHeadIsMistaken | crates/codegen/pi-grok-adapter/src/queue_bridge.rs:244-295 | Of two equal follow-ups, the second is reported as running when the first is dequeued. |
| RemoteQueue.SurvivorsKeepTheirIdentity | crates/codegen/pi-grok-adapter/src/queue_bridge.rs:244-255 | With distinct texts per lane every entry whose text is listed again keeps its identity, wherever it moved. |
| RemoteQueue.PickReservation | crates/codegen/pi-grok-adapter/src/queue_bridge.rs:257-262 | The first reservation of the same text and lane wins, else the first of the same lane, and none is found only if the lane has none. |
| RemoteIds.ReconcileKeepsIdsApart | crates/codegen/pi-grok-adapter/src/queue_bridge.rs:227-298 | If no two entries or reservations share an id and none has an id that the counter is still to generate, an update keeps it so, whatever the remote side reports. |
| RemoteIds.ReservingKeepsIdsApartIff | crates/codegen/pi-grok-adapter/src/queue_bridge.rs:165-186 | A new reservation keeps it so exactly when no listed entry has its id and the counter will not generate it. |
| Reservations.ReservedIsListed | crates/codegen/pi-grok-adapter/src/queue_bridge.rs:165-286 | A reserved text that no previous entry has is listed with exactly what was reserved, if the texts of its lane listed before it are known ones. |
| Reservations.ReservedIsListedIff | crates/codegen/pi-grok-adapter/src/queue_bridge.rs:165-286 | If it is the only reservation of its lane: exactly if no text of the lane was listed before it more often than previous entries have it. Otherwise it gets a new id. |
| Reservations.EarlierTextTakesTheReservation | crates/codegen/pi-grok-adapter/src/queue_bridge.rs:257-274 | An unknown text listed first takes the reservation of another one, which is then listed as new. |
| Mirror.QueueMirror.ApplyQueueUpdate | crates/codegen/pi-grok-adapter/src/queue_bridge.rs:227-298 | The update in place equals the reconciliation function and leaves the local queue alone. |
| Mirror.QueueMirror.EnqueueLocal | crates/codegen/pi-grok-adapter/src/queue_bridge.rs:68-103 | A blank or missing id is replaced by a generated one, a known id is overwritten in place with its version, and ids stay distinct. |
| Mirror.QueueMirror.TakeLocal | crates/codegen/pi-grok-adapter/src/queue_bridge.rs:109-118 | The first entry with this id, and version if one is asked for, is removed and returned; otherwise nothing changes. |
| Mirror.QueueMirror.PushFrontLocal | crates/codegen/pi-grok-adapter/src/queue_bridge.rs:124-127 | The entry comes first, any other entry with its id goes, and ids stay distinct. |
| Mirror.QueueMirror.EditLocal | crates/codegen/pi-grok-adapter/src/queue_bridge.rs:129-137 | An edit changes both texts and the version of the entry with this id and nothing else, and reports whether there was one. |
| Mirror.QueueMirror.ReorderLocal | crates/codegen/pi-grok-adapter/src/queue_bridge.rs:139-159 | The loop computes the reordering, reports true exactly when the queue changed, and keeps ids distinct. |
| Mirror.QueueMirror.Reserve | crates/codegen/pi-grok-adapter/src/queue_bridge.rs:165-186 | A blank id is ignored; otherwise the reservation replaces all others with its id. |
| LocalQueue.EnqueuedKeepsIdsDistinct | crates/codegen/pi-grok-adapter/src/queue_bridge.rs:68-103 | Enqueueing never repeats an id, adds an entry only for a new one, and keeps all others. |
| LocalQueue.EnqueuedIs | crates/codegen/pi-grok-adapter/src/queue_bridge.rs:80-103 | A known id is overwritten where it stands, all but its version; an unknown one comes last. |
| LocalQueue.EditedIs | crates/codegen/pi-grok-adapter/src/queue_bridge.rs:129-137 | An edit sets both texts and raises the version by one, and touches no other entry. |
| LocalQueue.PushedFrontIs | crates/codegen/pi-grok-adapter/src/queue_bridge.rs:124-127 | An entry pushed to the front leaves its old place; the others keep theirs. |
| LocalQueue.ReorderPermutes | crates/codegen/pi-grok-adapter/src/queue_bridge.rs:139-159 | Reordering neither loses nor invents an entry. |
| LocalQueue.ReorderIsRequestedThenRest | crates/codegen/pi-grok-adapter/src/queue_bridge.rs:139-159 | The requested ids that are present come first, in request order; the others follow in their old order. |
| LocalQueue.ReorderIsIdempotent | crates/codegen/pi-grok-adapter/src/queue_bridge.rs:139-159 | The same request a second time changes nothing. |
| LocalQueue.PermutationKeepsDistinct | crates/codegen/pi-grok-adapter/src/queue_bridge.rs:139-159 | A rearrangement keeps ids distinct. |
| LocalQueue.IdsShowTheOrder | crates/codegen/pi-grok-adapter/src/queue_bridge.rs:155-158 | Comparing id lists, as the return value does, detects every change of order. |
| LocalQueue.PopThenPushFrontRestores | crates/codegen/pi-grok-adapter/src/queue_bridge.rs:120-127 | Popping the head and pushing it back restores the queue. |
| LocalQueue.EditDefeatsStaleTake | crates/codegen/pi-grok-adapter/src/queue_bridge.rs:109-137 | After an edit, a take with the old version finds nothing, and one with the new version, or none, finds the entry. |
| Decimal.IdInjective | crates/codegen/pi-grok-adapter/src/queue_bridge.rs:63-66 | Ids of one prefix are equal only for equal numbers. |
| Decimal.NumeralReadsBack | crates/codegen/pi-grok-adapter/src/queue_bridge.rs:63-66 | The number in an id reads back. |
| Mirror.GeneratedIdsDiffer | crates/codegen/pi-grok-adapter/src/queue_bridge.rs:77-83 | Ids generated for different origins, or under different numbers, differ. |
| ParentWalks.BranchIsLeastClosed | crates/codegen/pi-grok-adapter/src/cache_metrics.rs:320-349 | The ids met by climbing are the least set that holds the leaf and is closed under parent links, cycles or not. |
| ParentWalks.ActiveBranchIdSet | crates/codegen/pi-grok-adapter/src/cache_metrics.rs:320-349 | The metrics walk terminates on any links and yields exactly the branch, or all ids without a leaf. |
| ParentWalks.MarkActivePath | crates/codegen/pi-grok-adapter/src/model.rs:97-113 | The tree view marks exactly the first row of every id on the branch. |
| ParentWalks.ReplayPath | crates/codegen/pi-grok-adapter/src/model.rs:982-1008 | The replay walk yields a chain from leaf to root without repetition, in which each entry names the next, and it yields one exactly when the branch consists of known ids and reaches a root. |
| ParentWalks.GetBranchEntryIds | extensions/pi-grok-rollback/index.ts:391-399 | The rollback walk yields the id of the first leaf and the known ids above it, on every log on which it ends, repeated ids included. |
| ParentWalks.WalkEndsIff | extensions/pi-grok-rollback/index.ts:391-399 | The unguarded walk ends exactly when the leaf has no parent or some id above it has no parent entry. |
| ParentWalks.TwoEntryCycleNeverEnds | extensions/pi-grok-rollback/index.ts:391-399 | Two entries that name each other keep it going forever. |
| ParentWalks.FirstLeafIs | extensions/pi-grok-rollback/index.ts:393 | The walk starts at the first entry that is flagged. |
| ParentWalks.FindIs | extensions/pi-grok-rollback/index.ts:396 | A search finds the first entry with an id. |
| ParentWalks.AllWalksAgree | crates/codegen/pi-grok-adapter/src/model.rs:97-113 | On a log with unique ids the metrics and the marking walk see the whole branch, the rollback walk its known ids, and the replay walk the branch or nothing; all of them agree exactly when every id on the branch is known. |
| ParentWalks.WellFormedBranch | crates/codegen/pi-grok-adapter/src/model.rs:982-1008 | On a log without cycles or missing parents the branch of a present leaf is known and reaches a root, and the unguarded walk ends. |
| SessionTree.FlattenTreeNode | crates/codegen/pi-grok-adapter/src/model.rs:117-187 | The loop over an explicit stack terminates and yields the rows of recursive preorder with a threaded visited set. |
| SessionTree.PreorderShape | crates/codegen/pi-grok-adapter/src/model.rs:117-187 | Ids are distinct, the first row is the root, and every other row follows its parent and is one level deeper. |
| SessionTree.PreorderListsEverything | crates/codegen/pi-grok-adapter/src/model.rs:117-187 | If all ids are present and distinct, the rows list every node of the tree in preorder. |
| SessionTree.RowsDescribeNodes | crates/codegen/pi-grok-adapter/src/model.rs:149-181 | Every row describes a node of the tree: its id, whether it has children, whether it is the current leaf, and the ids of its children in their order. |
| SessionTree.UnwindPushed | crates/codegen/pi-grok-adapter/src/model.rs:182-185 | Pushing children in reverse order makes the stack produce them in order, before the rest. |
| SessionTree.ParseSessionTree | crates/codegen/pi-grok-adapter/src/model.rs:86-115 | The rows of all roots in turn, changed only in the mark of the active path, which is on exactly the first row of every id on the branch of the leaf. |
| ReplayCache.IncrementalAgreesWithRebuildIff | crates/codegen/pi-grok-adapter/src/model.rs:925-980 | After any sequence of overlapping appends the cache equals, in every field, a rebuild from the merged log, exactly when the first payload has distinct ids. |
| ReplayCache.AppendsFacts | crates/codegen/pi-grok-adapter/src/model.rs:925-980 | After any appends the entries are the first payload followed by what merging adds, the index and the last known id belong to them, and the leaf is that of the last payload with a leaf field. |
| ReplayCache.LeafIsTheLastNamed | crates/codegen/pi-grok-adapter/src/model.rs:960-963 | The leaf is the one that the last payload with a leaf field names, a null included. |
| ReplayCache.NoLeafIsKnown | crates/codegen/pi-grok-adapter/src/model.rs:960-963 | As long as no payload has one, no leaf is known. |
| ReplayCache.ActiveAfterAppends | crates/codegen/pi-grok-adapter/src/model.rs:982-1008 | After any appends the active branch is that of this leaf. |
| ReplayCache.MergedIsTheKept | crates/codegen/pi-grok-adapter/src/model.rs:968-979 | Merging adds, in their order, the entries without an id and the first one of each new id, and nothing else. |
| ReplayCache.EntriesAreThoseGiven | crates/codegen/pi-grok-adapter/src/model.rs:964-979 | The cache holds only what some payload lists, all of the first one and all without an id, and of each id at least one. |
| ReplayCache.ReappendIsNoOp | crates/codegen/pi-grok-adapter/src/model.rs:959-980 | Appending known entries again without a leaf field changes nothing. |
| ReplayCache.AppendTwiceIsAppendOnce | crates/codegen/pi-grok-adapter/src/model.rs:959-980 | Appending a payload whose entries carry ids a second time changes nothing. |
| ReplayCache.IndexIsSound | crates/codegen/pi-grok-adapter/src/model.rs:968-979 | The index knows exactly the ids in the log and points at the last entry of each. |
| ReplayCache.DedupIffDistinct | crates/codegen/pi-grok-adapter/src/model.rs:968-979 | Keeping first occurrences changes nothing exactly when ids are distinct. |
| ReplayCache.EntryReplayCache.ApplyPayload | crates/codegen/pi-grok-adapter/src/model.rs:959-980 | The loop in place equals the specification and keeps the index coherent. |
| ReplayCache.EntryReplayCache.ActiveBranchEntries | crates/codegen/pi-grok-adapter/src/model.rs:982-1008 | Without a leaf field all entries, with a null leaf none, otherwise the indexed entries of exactly the ids on the branch, from root to leaf, or nothing exactly when the branch is broken. |
| BashTask.SettlesExactlyOnce | extensions/pi-grok-bash/index.ts:921-955 | In every run a foreground call is answered at most once, exactly once after the flush, and a background start never. |
| BashTask.BackgroundedIffPromotedInTime | extensions/pi-grok-bash/index.ts:921-955 | In every run the answer is "backgrounded" exactly when a promotion came while the call waited and before the process ended. |
| BashTask.WhichAnswer | extensions/pi-grok-bash/index.ts:922-939 | An answer other than "backgrounded" is "aborted" exactly if an abort came before it, else "timed out" exactly if the deadline passed while the process ran, else the code with which the process first ended. |
| BashTask.AnsweredIff | extensions/pi-grok-bash/index.ts:921-955 | The call has its answer exactly if it was promoted in time, or the process has ended and the call registered before that and the log was flushed, or registered only then. |
| BashTask.RunsKnow | extensions/pi-grok-bash/index.ts:567-583 | Whether the process has ended and with what code, and what hit it while it ran, told from the events. |
| BashTask.MessageExactlyForBackground | extensions/pi-grok-bash/index.ts:541-583 | In every run the completion message is sent once, at the flush, and only for background runs. |
| BashTask.CompletionIsFinal | extensions/pi-grok-bash/index.ts:567-583 | Once the process has ended, whatever follows changes neither the background flag nor the exit code, and keeps an answer once given. |
| BashTask.WaitersAreAnswered | extensions/pi-grok-bash/index.ts:516-539 | Whoever waits is waiting or answered, never both, and is answered after the flush. |
| BashTask.ToldIff | extensions/pi-grok-bash/index.ts:516-539 | A waiter is rejected exactly by an abort before or while it waits, and resolved exactly by the end of the process before it asks, its own deadline, or the flush while it waits. |
| BashTask.AnswersNeverChange | extensions/pi-grok-bash/index.ts:516-539 | A waiter's answer never changes. |
| BashTask.RunsAreConsistent | extensions/pi-grok-bash/index.ts:516-583 | The invariant behind these, for every interleaving of promotion, kill, deadline, abort, end, flush and waits. |
| BashTask.BackgroundTask.SettleForeground | extensions/pi-grok-bash/index.ts:922-939 | Settling clears the handler and answers background, abort, deadline or exit, in this order of precedence. |
| BashTask.BackgroundTask.PromoteToBackground | extensions/pi-grok-bash/index.ts:942-947 | Promotion acts only on a waiting call whose process still runs. |
| BashTask.BackgroundTask.LogFlushed | extensions/pi-grok-bash/index.ts:567-583 | The flush sends the message, settles a waiting call and answers every waiter. |
| BashTask.BackgroundTask.WaitForCompletion | extensions/pi-grok-bash/index.ts:516-539 | A wait is answered at once if the process has ended or the signal has already fired, and registered otherwise. |
| BoundedTail.TailIgnoresChunking | extensions/pi-grok-bash/index.ts:483-492 | However the output is cut into chunks, the buffer holds its last 51200 bytes, the counter its length, and the flag says whether it was longer. |
| BoundedTail.OutputBuffer.AppendOutput | extensions/pi-grok-bash/index.ts:483-492 | Appending in place equals the specification. |
| BoundedTail.LineRing.Push | crates/codegen/pi-grok-adapter/src/pi_rpc.rs:395-418 | The ring of error lines keeps the last lines of all that were pushed. |
| RpcMultiplexer.IdsAreNeverReused | crates/codegen/pi-grok-adapter/src/pi_rpc.rs:240-262 | In every run the next request id is one that no request ever had. |
| RpcMultiplexer.AnswersReachTheirRequest | crates/codegen/pi-grok-adapter/src/pi_rpc.rs:121-167 | What is put into a request's channel is a response with that request's id or the exit error. |
| RpcMultiplexer.CallersGetTheirOwnReply | crates/codegen/pi-grok-adapter/src/pi_rpc.rs:240-293 | A caller that is answered gets the reply to its own request or the exit error. |
| RpcMultiplexer.OutcomesAreFinal | crates/codegen/pi-grok-adapter/src/pi_rpc.rs:240-293 | An outcome, and the content of a channel, never changes, and a request that left the table never returns. |
| RpcMultiplexer.EveryLineIsRoutedOnce | crates/codegen/pi-grok-adapter/src/pi_rpc.rs:121-167 | In every run, as multisets, the lines read are those that sit in the channels of requests plus those emitted as events. |
| RpcMultiplexer.DeliveredIffAddressed | crates/codegen/pi-grok-adapter/src/pi_rpc.rs:133-148 | At the end of every run a request's channel holds a line exactly when that line was read, at some point of the run, is a response that names the request, and the request was pending. |
| RpcMultiplexer.EmittedIffStray | crates/codegen/pi-grok-adapter/src/pi_rpc.rs:133-162 | A line becomes an event exactly when it was read while it was a response to no pending request. |
| RpcMultiplexer.StreamsOnlyGrow | crates/codegen/pi-grok-adapter/src/pi_rpc.rs:121-167 | What was read or emitted stays in place; later events only add to it. |
| RpcMultiplexer.ShownIffHappened | crates/codegen/pi-grok-adapter/src/pi_rpc.rs:240-285 | A request is known if it was sent, refused if the writer was closed when it came, timed out if it had a deadline that passed on an empty channel, and answered with what its channel held; and only then. |
| RpcMultiplexer.PendingIff | crates/codegen/pi-grok-adapter/src/pi_rpc.rs:253-277 | A request is pending exactly from its sending until its channel is filled or it fails. |
| RpcMultiplexer.ExitDrainsThePending | crates/codegen/pi-grok-adapter/src/pi_rpc.rs:197-227 | At the end of every run a request's channel holds the exit error exactly when the request was pending at the first exit. |
| RpcMultiplexer.NoRequestIsLost | crates/codegen/pi-grok-adapter/src/pi_rpc.rs:240-293 | In every run each request ever sent is pending, has its answer in its channel, or ended with a closed writer or a timeout. |
| RpcMultiplexer.PiRpc.FailPending | crates/codegen/pi-grok-adapter/src/pi_rpc.rs:488-501 | The drain empties the table and fills each channel with the error. |
| PlanMode.RunsAreLinked | crates/codegen/pi-grok-adapter/src/plan_mode.rs:87-297 | In every run, restarts included, the first activation sends the full text and every later one the re-entry text, and a reminder is sparse exactly when an odd number was sent since the last activation or compaction. |
| PlanMode.ModeIff | crates/codegen/pi-grok-adapter/src/plan_mode.rs:162-228 | The tracker is in a mode exactly if the last event that led anywhere led there, which each of them does from the modes that the source names. |
| PlanMode.NoteIsDueIff | crates/codegen/pi-grok-adapter/src/plan_mode.rs:162-217 | An exit note is due exactly if the last event that bears on it was an exit outside a turn, the end of the turn of a deferred exit, or a restart before that. |
| PlanMode.AwaitingIff | crates/codegen/pi-grok-adapter/src/plan_mode.rs:150-228 | Approval is awaited from the event that says so to one that says not, or to an exit. |
| PlanMode.CountIsOfTheLastStretch | crates/codegen/pi-grok-adapter/src/plan_mode.rs:180-248 | The reminder count is the number of activation and per-turn reminders since the last activation, approved exit or compaction. |
| PlanMode.WhatIsSent | crates/codegen/pi-grok-adapter/src/plan_mode.rs:259-297 | A prompt activates a pending mode, reminds an active one, tells a due exit, and is silent otherwise. |
| PlanMode.PendingExitNoteMeansInactive | crates/codegen/pi-grok-adapter/src/plan_mode.rs:162-256 | A pending exit note implies the inactive mode; an active or exiting mode implies an earlier activation. |
| PlanMode.ExitNotesAreSeparated | crates/codegen/pi-grok-adapter/src/plan_mode.rs:259-297 | Between two exit notes lies an activation. |
| PlanMode.ExitNotesNeverOutnumberActivations | crates/codegen/pi-grok-adapter/src/plan_mode.rs:259-297 | In every run there are at most as many exit notes as activations. |
| PlanMode.ApprovedExitIsSilent | crates/codegen/pi-grok-adapter/src/plan_mode.rs:219-228 | After an approved exit the next prompt carries no reminder. |
| PlanMode.PiPlanTracker.FromSnapshot | crates/codegen/pi-grok-adapter/src/plan_mode.rs:87-110 | Restoring drops a pending entry and turns a pending exit into an exit with its note still due. |
| PlanMode.PiPlanTracker.BuildReminderForPrompt | crates/codegen/pi-grok-adapter/src/plan_mode.rs:259-297 | The reminder and the state it leaves are those of the step relation. |
| Scheduler.RunsAreWellScheduled | extensions/pi-grok-subagents/index.ts:1159-1172 | In every run at most four jobs are active, and jobs wait only while four are. |
| Scheduler.StartOrderIsScheduleOrder | extensions/pi-grok-subagents/index.ts:1159-1172 | Jobs start in the order in which they were scheduled. |
| Scheduler.EveryJobIsAccountedFor | extensions/pi-grok-subagents/index.ts:1159-1172 | Every scheduled job is running, waiting or finished, and only one of them. |
| Scheduler.RunsAreDetermined | extensions/pi-grok-subagents/index.ts:1159-1172 | Every run, told from its events: the first jobs that were scheduled have started, four more than have ended, and the slot of each ended job is free. |
| Scheduler.BackgroundScheduler.ScheduleBackground | extensions/pi-grok-subagents/index.ts:1159-1165 | A job starts at once exactly when fewer than four run. |
| Scheduler.BackgroundScheduler.RunEnded | extensions/pi-grok-subagents/index.ts:1166-1171 | A finished run hands its slot to the job that waited longest. |
| Reporter.RunsCoalesce | extensions/pi-grok-herdr/index.ts:121-206 | In every run at most one delivery is under way, a waiting report implies one, and the newest report is the one waiting or the last one sent. |
| Reporter.DeliveriesAreOneAtATime | extensions/pi-grok-herdr/index.ts:124-142 | In every run each report that was sent has been delivered, but for the one that is under way. |
| Reporter.ReportsAreOrdered | extensions/pi-grok-herdr/index.ts:121-142 | Sent reports are a subsequence of the enqueued ones under strictly increasing numbers. |
| Reporter.AtRestTheLatestStateIsReported | extensions/pi-grok-herdr/index.ts:124-165 | At rest the last report sent is the last one enqueued and describes the present state. |
| Reporter.WhatIsReportedAtRest | extensions/pi-grok-herdr/index.ts:154-205 | Told from the events: at rest the last report says blocked, with the caption of the last opening, if some last stretch of the run opened more than it closed, else working if the last event that bears on it says so, else idle. |
| Reporter.DepthIsTheLargestSurplus | extensions/pi-grok-herdr/index.ts:167-178 | The nesting depth is the largest surplus of openings over closings in any last stretch of the run. |
| Reporter.WhatIsEnqueued | extensions/pi-grok-herdr/index.ts:159-165 | Only the end of a session start reports the same status twice in a row, and it always reports. |
| Reporter.NumbersAreUsedOnce | extensions/pi-grok-herdr/index.ts:52-59 | Every number goes to one report of a state or of a session. |
| Reporter.TwoDeliveriesBringRest | extensions/pi-grok-herdr/index.ts:124-142 | From any reachable state, the end of two deliveries brings rest with the present state reported. |
| Reporter.HerdrReporter.OnBlocked | extensions/pi-grok-herdr/index.ts:167-178 | The nesting depth never falls below zero, the caption goes at depth zero, and only a changed state is published. |
| TokenScaling.ExactAboveBound | crates/codegen/pi-grok-adapter/src/context_projection.rs:257-279 | The repaired buckets of n parts, not all zero, add up to the total whenever twice the total exceeds n(n - 3). |
| TokenScaling.BoundIsSharp | crates/codegen/pi-grok-adapter/src/context_projection.rs:257-279 | That bound is sharp: for every even n from four on, equal parts miss the total that just fails it. |
| TokenScaling.ExactIff | crates/codegen/pi-grok-adapter/src/context_projection.rs:257-279 | For all inputs: they do so exactly when the total is zero, or some part is positive and the largest rounded share can absorb what rounding added. |
| TokenScaling.DriftIsBounded | crates/codegen/pi-grok-adapter/src/context_projection.rs:258-268 | Before the repair the sum is off by at most half the number of buckets. |
| TokenScaling.OneBucketTakesTheDrift | crates/codegen/pi-grok-adapter/src/context_projection.rs:262-278 | Every bucket but the largest is within one half of its exact share. |
| TokenScaling.LargestTakesTheRest | crates/codegen/pi-grok-adapter/src/context_projection.rs:268-277 | The largest bucket takes what rounding added or lost, down to zero. |
| TokenScaling.SmallTotalsCanMiss | crates/codegen/pi-grok-adapter/src/context_projection.rs:257-279 | Four equal parts of two tokens, however large, add up to three. |
| TokenScaling.BarOverflowsIff | crates/codegen/pi-grok-adapter/src/context_projection.rs:307-331 | System, tool and message tokens exceed the total exactly when it is two and the four raw parts are equal and positive. |
| TokenScaling.BarShowsTheShares | crates/codegen/pi-grok-adapter/src/context_projection.rs:311-331 | Which bucket each part of the bar shows, and that messages take all tokens when nothing was estimated. |
| Bisect.BisectCulprit | tools/ext-crash-telemetry/src/bisect.ts:20-74 | For any deterministic probe the verdict is a crash exactly when the whole set fails and some path fails alone, and names such a path; a combination exactly when none does; with the first bad path and the two bounds on probes. |
| Bisect.CutOfMock | tools/ext-crash-telemetry/src/bisect.ts:39-51 | For a probe that fails on bad paths, the cut found by halving is the first bad path. |
| Bisect.MockNeverCombines | tools/ext-crash-telemetry/src/bisect.ts:77-80 | For such a probe every failing set has a culprit. |
| Bisect.CeilLog2IsLeast | tools/ext-crash-telemetry/src/bisect.ts:39-49 | The bound on halvings is the least exponent whose power of two reaches the size. |
| ThinkingLevels.SupportedThinkingLevels | crates/codegen/pi-grok-adapter/src/model.rs:1175-1235 | The loops yield the specified levels, and give each level and nothing else its effort. |
| ThinkingLevels.LevelsAreDistinct | crates/codegen/pi-grok-adapter/src/model.rs:1175-1235 | No two levels of a model differ in case alone. |
| ThinkingLevels.OfferedIff | crates/codegen/pi-grok-adapter/src/model.rs:1189-1229 | A level is offered exactly when it is an enabled standard level, or the first entry of its spelling that maps to an effort and spells no enabled standard level. |
| ThinkingLevels.NamedLevelOfferedIff | crates/codegen/pi-grok-adapter/src/model.rs:1189-1211 | Each of the five standard levels is offered unless the map disables it with a null, each of the two higher ones only if the map names it with something else. |
| ThinkingLevels.MappedEffortIff | crates/codegen/pi-grok-adapter/src/model.rs:1237-1249 | A level has the effort that its mapping names, as a text or as a field in either spelling, and if that names none, the one that the level itself names. |
| ThinkingLevels.RoundTrip | crates/codegen/pi-grok-adapter/src/model.rs:778-817 | The effort of an offered level selects a level with that effort, and the level itself if no other has it. |
| ThinkingLevels.ParsedRoundTrip | crates/codegen/pi-grok-adapter/src/model.rs:1154-1235 | So it does for every model as parsed, with whatever level map: of the levels and efforts that the loops build, each round trips. |
| ThinkingLevels.SelectedLevelIff | crates/codegen/pi-grok-adapter/src/model.rs:794-816 | An effort selects a level that carries it, else one that carries its fallback, and nothing exactly when neither exists. |
| ThinkingLevels.FallbackIs | crates/codegen/pi-grok-adapter/src/model.rs:804-816 | None and minimal fall back to low, the two highest efforts to each other, and the three in the middle to nothing. |
| ThinkingLevels.OrderAndCaseAreIrrelevant | crates/codegen/pi-grok-adapter/src/model.rs:778-789 | The effort of a level depends neither on the order of the hash map nor on how the level is spelled. |
| ThinkingLevels.SelectionIgnoresOrder | crates/codegen/pi-grok-adapter/src/model.rs:794-816 | The selected level does not depend on the order of the hash map. |
| ThinkingLevels.TrimCommutes | crates/codegen/pi-grok-adapter/src/model.rs:819-830 | Trimming respects ASCII case, so canonical efforts do too. |
| ThinkingLevels.NameIsCanonical | crates/codegen/pi-grok-adapter/src/model.rs:819-830 | The canonical name of an effort reads back as that effort. |
| ThinkingLevels.CanonicalIff | crates/codegen/pi-grok-adapter/src/model.rs:819-830 | Which words name which effort, whatever their case and the white space around them. |
| Text.LowerIs | crates/codegen/pi-grok-adapter/src/model.rs:820 | Lowering maps the upper-case letters of ASCII and no other character. |
| Text.TrimIs | crates/codegen/pi-grok-adapter/src/model.rs:820 | Trimming takes white space off both ends, all of it, and nothing else. |

## Left out

- Wrap-around of 32-bit and 64-bit counters (versions, sequence numbers, byte counts) and floating-point error: counters are unbounded and token shares exact fractions.
- Real files, processes, sockets and SHA-256: the disk and the blob store are maps, the digest is collision-free, and a failing file operation in the middle of a rollback is not modelled because the code does not compensate for it.
- Changes to files from outside the tools, except as drift that a plan detects.
- Resuming a journal at session start (header check, next number), the bridge files that carry rollback requests, and request ids.
- Path canonicalisation in the rollback extension: paths are opaque, and symlinks are a fixed set.
- The JSON projection of the queue snapshot, `set_running`, `release_reservation` and `clear` of the queue mirror: they set or copy fields.
- Text previews of tree rows, tool-call formatting and the editor text of an entry: pure text projection.
- Sums of token usage in the cache metrics: plain accumulation over the branch that `ParentWalks.ActiveBranchIdSet` computes.
- Kill signals, log files and their error texts, and the wording of Bash results; a session shutdown is a kill of every run.
- Deadlines of RPC requests as times: a deadline may pass at any moment. That every request is eventually answered is not claimed.
- Progress records, persistence and the sequence counter of subagents; only their scheduling is modelled.
- The socket protocol of the reporter and its retry: a delivery under way ends at some point, whether it went well or not.
- The texts of plan-mode reminders and the plan file path.
- ParentWalks.GetBranchEntryIds: requires that the walk ends, because the method it models does not return otherwise; `ParentWalks.WalkEndsIff` says when.
- A rollback request that overlaps tool calls, bindings or other requests: its plan and its execution are one step, and a transaction record that a binding overwrites is not followed. Overlapping bindings: there is one at a time.
- JSON parsing, ACP message shapes, terminal UI, authentication and build scripts.
