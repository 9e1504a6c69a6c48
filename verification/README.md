# object-log: a verified model

`object-log` keeps a linearizable log in conditional object storage. One mutable head is replaced by
compare-and-swap; commits, checkpoints, collection plans and payload objects are immutable. The hard
part is what happens around the head: replies get lost, requests land late, writers race, readers hold
retentions, and a collector deletes objects while all of that goes on.

The project has six parts.

1. **Publication and collection.** `Heads` is the head, its validation and the five ways to change it.
   `HeadChain` and `HeadOrder` are about sequences of published heads. `Protocol` is a step system over
   the shared storage: twenty kinds of event, any number of handles, head updates and deletes that stay
   in flight for ever. `Invariants`, `InvariantSteps` and `SwapStep` prove one invariant for every run.
   `CollectionSafety`, `Completion` and `Outcomes` draw the consequences. `Publication`, `Verification`,
   `Calls`, `CheckpointCalls`, `RetentionCalls`, `CollectionCalls` and `Recovery` are the public calls as
   methods that interleave with all other handles; each request they issue is an event of the protocol.
   `Drain` runs a collector alone until no garbage is left.
2. **The live graph.** `GraphWalk` is the worklist with out-of-order reads and a byte budget;
   `CollectionScan` marks what is live and selects candidates. `LiveGraph` joins them to
   part 1: what a walk over the objects of a log finds, and when it must succeed.
3. **The node codec.** `Cbor` and `NodeCodec`: exact sizes, a writer that fills one buffer, and a reader
   that re-encodes as it goes. `WireFormat` says which bytes that makes.
4. **Byte streams.** `BlobStore`, `ByteGeometry` and `ByteStream`: a chunking writer and a caching reader
   on top of the node codec.
5. **History.** `HistoryCursor`: the ordered cursor with read-ahead, and the proofs of a verified tail,
   reading the storage of part 1 while other handles act.
6. **The Git example.** `Radix`, `RadixUpdate` and `RadixFilter` are its persistent index;
   `FetchPolicy` is its visibility search.

## Assumptions

They are the storage contract of the system and the properties of its identities.

- A digest determines its content. In parts 1 and 2 a key simply carries the content. In parts 3 and 4 the
  digest is an arbitrary function to 32 bytes and nothing is assumed about collisions.
- A new storage identity was never drawn before. Only a prepared commit keeps its identity, so only a
  commit object can be created more than once.
- Each create request takes effect at most once. Every key is linearizable with read-after-write, as
  section 13.1.1 and section 13.1.2 of RFC 9110 describe conditional requests.
- A head update is reported as successful only if it took effect after it was requested.
- Only deletes issued by the log remove objects. A delete may land at any later time and any number of
  times. A head update may land and still be reported as rejected or failed.
- In part 4 the collector removes nothing that a view relies on before the next epoch begins, which
  `CollectionSafety.ViewIsReadable` and `CollectionSafety.ProofReplacesWalk` prove of part 1.

Clocks, randomness, the network and the executor are replaced by nondeterministic choices inside the
methods and by the events of the protocol. `hash` is a parameter, and so is `size`, the lengths of
objects. A field `faults` counts failed requests. With it a contract can say why a call ends without an
answer: storage failed it; or a limit was exceeded; or the evidence lapsed; or the collection has moved
on, that is the fence of the view was cleared or a later epoch has begun. In part 1 there is no other
reason.

## Where the code and its documentation differ

`CollectionFinish::Complete` is documented as "every candidate is absent" (src/log.rs:227). The code does
not give that: a stalled or repeated publication call may create its commit object again after the delete
landed. `Completion.CompleteWithCandidatePresent` is such a run from an empty log, and
`Completion.CompleteMeansAbsent` gives the exact condition, which can be checked before the call: the
plan lists no commit.

## Model

| member | source | states |
|---|---|---|
| Heads.ValidateCommitSequence | src/format.rs:251-270 | the loop accepts a run of commits exactly when its sequences count up from the start and no transaction repeats, within the run or against those already seen |
| Heads.ValidateCollectionState | src/format.rs:168-193 | accepts exactly the collection states the format allows |
| Heads.Validate | src/format.rs:98-166 | accepts a head exactly when it is a contiguous, duplicate-free window with a consistent base and collection state |
| HeadChain.WindowIsValid | src/format.rs:98-166 | a bounded window on a well-formed history always passes validation |
| HeadChain.WindowAfter | src/log.rs:2149-2181 | every allowed change turns a window on the commit history into a window on the history it then is |
| HeadChain.WindowAfterAppend | src/log.rs:2149-2158 | appending a commit keeps the window |
| HeadChain.WindowAfterCompact | src/log.rs:2160-2181 | a checkpoint keeps the window: the tail stays the suffix after it and the outcomes stay the last entries before it |
| HeadChain.LastOfLast | src/log.rs:2168-2176 | trimming the outcome window at each checkpoint equals trimming the whole history once |
| HeadChain.BoundedAfter | src/format.rs:98-193 | every allowed change keeps the numeric bounds and the collection state valid |
| HeadChain.ChainWindow | src/format.rs:98-193 | every published head is a bounded window on the ghost history of all commits |
| HeadChain.ChainGeneration | src/format.rs:90-96 | the n-th published head has generation n |
| HeadChain.ChainValid | src/format.rs:98-193 | every published head passes validation |
| HeadOrder.RankStep | src/format.rs:61-71 | every update but a retention change moves the publication base strictly forward |
| HeadOrder.BaseRankOrder | src/format.rs:61-71 | the rank of the publication base never goes down, and equal ranks mean an equal base |
| HeadOrder.BaseNeverReturns | src/log.rs:2121-2147 | once the head has left a publication base no later head has it again |
| HeadOrder.AppendBaseNeverReturns | src/format.rs:73-88 | once the head has left a checkpoint append base no later head has it again |
| HeadOrder.AppendBaseNarrows | src/log.rs:2125-2147 | of two heads compatible with an older one, the later is compatible with the earlier |
| HeadOrder.CompatibleChanges | src/log.rs:2125-2147 | heads of one publication base are separated only by retention changes, and heads of one append base by these and commits |
| HeadOrder.EpochOrder | src/log.rs:791-794 | the collection epoch never goes down, and within one epoch the fence can only go away |
| HeadOrder.PlanIsContinuous | src/log.rs:878-930 | a plan that is active at two heads is active at every head between them |
| HeadOrder.RetainedExactly | src/log.rs:280-289 | a head has a retention exactly if it was acquired and neither its release nor a clearing followed, whatever else was updated |
| HeadOrder.RetentionStays | src/log.rs:280-289 | a retention stays in every later head until its release or a clearing lands |
| HeadOrder.RetentionHoldsEpoch | src/log.rs:563-566 | while an id is retained the collection epoch does not change |
| HeadOrder.ReachAfter | src/log.rs:2149-2181 | an update makes nothing reachable but the graph of the record it publishes |
| InvariantSteps.KeepsInvQuiet | src/log.rs:2316-2344 | every step that does not publish a head keeps the invariant of the shared storage |
| InvariantSteps.VerifiedIsProved | src/log.rs:2316-2350 | a complete graph walk yields a proof that no plan of its epoch or before can break |
| InvariantSteps.AcknowledgedIsProved | src/log.rs:944-1016 | a created blob or node over proved children is a proved graph |
| InvariantSteps.ChildIsProved | src/log.rs:1103-1117 | a child of a proved node is proved for the same epoch |
| InvariantSteps.HistoryIsProved | src/history.rs:174-180 | an object listed by a record of a view is proved for the epoch of that view |
| InvariantSteps.RecordObjects | src/log.rs:1181-1206 | the objects of every published record were proved for the epoch of the head it was prepared on, and everything below them is a dependency |
| SwapStep.KeepsInvSwap | src/log.rs:1980-1988 | a head update that lands, however late, keeps the invariant |
| SwapStep.KeepsInv | README.md:44-54 | every step of the protocol keeps the invariant |
| SwapStep.ReachableInv | README.md:74-78 | the invariant holds after every run from an empty log |
| CollectionSafety.CollectionIsSafe | src/log.rs:739-816 | no key reachable from the current head is ever a candidate of any plan installed so far, is ever requested to be deleted, or is ever absent |
| CollectionSafety.ViewIsReadable | src/log.rs:1853-1862 | everything reachable from a view of the current epoch is present and will not be deleted |
| CollectionSafety.ProofReplacesWalk | src/log.rs:1945-1970 | everything below an object with a proof of the current epoch is present, will not be deleted and is no candidate in any view of the epoch |
| CollectionSafety.MissMeansExpired | src/log.rs:1853-1862 | a read that misses reports expiry, never corruption |
| CollectionSafety.RetainedViewIsReadable | src/log.rs:563-566 | a view that has a retention stays readable as long as no release of it and no clearing landed |
| CollectionSafety.ContentVersionIsCounter | src/log.rs:2099-2108 | comparing head contents is comparing generations, and no head content repeats |
| CollectionSafety.FencePlanIsPresent | src/log.rs:789-816 | the plan object of the current fence is present and nobody deletes it, whatever racing collectors list, abandon and clean up |
| CollectionSafety.PlanExpiryIsExact | src/log.rs:2570-2608 | a missing plan is reported as expired exactly when the current head no longer has that fence |
| CollectionSafety.MissingPlanMeansExpired | src/log.rs:2570-2608 | a plan object that is missing belongs to a fence that is gone |
| CollectionSafety.ClearedAfterDeletes | src/log.rs:850-930 | a fence is cleared only after every candidate was deleted under it, and no candidate but a commit is ever present again |
| Completion.DeleteEach | src/log.rs:850-871 | a collector can always delete all candidates of a standing fence |
| Completion.CommitReturns | src/log.rs:2636-2647 | whenever a fence lists a prepared commit there is a run that clears the fence with that commit present |
| Completion.ClearedWithoutCommits | src/log.rs:223-233 | a cleared fence that listed no commit leaves all candidates absent for good |
| Completion.CompleteMeansAbsent | src/log.rs:223-233 | clearing a fence always leaves every candidate absent if and only if the plan lists no commit |
| Completion.CompleteWithCandidatePresent | src/log.rs:223-233 | a concrete run from an empty log in which a fence is cleared and its only candidate is present |
| Outcomes.PublishedOnce | src/log.rs:1220-1268 | no storage identity enters the history twice, whatever commit it belongs to |
| Outcomes.CommittedWasPrepared | src/log.rs:1181-1206 | every commit of the history was prepared |
| Outcomes.NotYetCommitted | src/log.rs:2121-2147 | while the head has the publication base of a candidate, the candidate is not in the history |
| Outcomes.LostForGood | src/log.rs:2183-2205 | a candidate that is not in the history when the head has left its base never enters it |
| Outcomes.PublishedOnBase | src/log.rs:2060-2067 | a candidate is published only on the base it was prepared for |
| Outcomes.DeadNeverLands | src/log.rs:2078-2119 | an update that expects an older head never lands |
| Outcomes.ClassificationIsExact | src/log.rs:2183-2205 | a candidate is reported committed exactly if it is in the history, not committed exactly if it is not, as long as its position is retained, and expired exactly if it is not; the head never precedes it |
| Outcomes.InstalledOnBase | src/log.rs:2069-2076 | a checkpoint is installed only on an append base of its view |
| Outcomes.NotYetInstalled | src/log.rs:2219-2237 | while the head has its append base a checkpoint has not been installed |
| Outcomes.CheckpointLostForGood | src/log.rs:2219-2237 | a checkpoint that was not installed when the head left its base never is |
| Outcomes.CheckpointEvidenceIsExact | src/log.rs:2219-2237 | published exactly if the checkpoint was installed and no other after it; not published exactly if a single update followed the last known compatible head and it was another, and then the checkpoint is lost for good; lapsed exactly otherwise; the head never precedes the evidence |
| Outcomes.NamedIsLast | src/log.rs:2224-2226 | the head names the pending checkpoint exactly if its update was the last one that installed any |
| Publication.LandedIsPublished | src/log.rs:1980-1988 | an update that took effect published exactly the head it asked for |
| Publication.World.Load | src/log.rs:520-533 | a successful load returns the current head |
| Publication.World.UpdateHead | src/log.rs:1980-1988 | success is reported only for an update that took effect since it was requested |
| Publication.MissingRead | src/log.rs:1853-1862 | a missing object of a published view is expiry exactly if a later epoch has begun, and corruption otherwise; the error branch is unreachable |
| Publication.ReadPlan | src/log.rs:2352-2375 | the candidates of the fence of a view, read or remembered; without a storage failure it fails only by expiry, and only after that fence was cleared |
| Publication.MissingIsOutdated | src/log.rs:1853-1862 | what a view reaches is missing only if a later epoch has begun |
| Publication.DeletedIsOutdated | src/log.rs:2636-2647 | a commit object that was created and is missing belongs to an earlier epoch |
| Publication.World.EnsureCommit | src/log.rs:2636-2647 | success means that the commit object was created; without a storage failure it fails only for an object that was deleted again, and then a later epoch than that of the candidate has begun |
| Publication.PublishOnce | src/log.rs:2089-2113 | one attempt either settles, stays unresolved, or finds a newer compatible head |
| Publication.Reload | src/log.rs:2093-2112 | after a rejection the head decides; a compatible head that did not move forward is impossible |
| Publication.PublishHeadCompatible | src/log.rs:2078-2119 | success means landed; a changed head lost compatibility after the last attempt, whose generation is reported; contention means that none of the sixteen attempts can still land |
| Verification.ReliedLasts | src/log.rs:2316-2350 | what a proof or a view of the epoch covers stays, as long as the epoch is current |
| Verification.WalkGraph | src/log.rs:2334-2350 | the walk of a verification while other handles act: success means that everything below the roots was created and is not condemned; failure needs a storage failure, a later epoch or an object that is too long |
| Verification.VerifyPublication | src/log.rs:2316-2344 | before a publication: on a handle without the proofs success means that everything below the objects was created and is not condemned; refused only by storage, for a fence that was cleared, or on such a handle in a later epoch or for an object that is too long; the new key is never condemned |
| Verification.VerifyPublished | src/log.rs:2311-2314 | a record of a published head and its graph fail verification only by storage, in a later epoch or for an object that is too long |
| Calls.ClassifyCommit | src/log.rs:2183-2205 | the outcome read off an incompatible head is sound and never an error; committed comes with that head |
| Calls.SettleCommit | src/log.rs:1236-1267 | the end of the publication loop becomes a sound outcome; committed comes with a published head that shows the commit and is later than the one it was prepared on |
| Calls.Commit | src/log.rs:1220-1268 | committed implies in the history, and the view returned is a published head that shows the commit, later than the one it was prepared on; conflict implies not in it, for good off the base and otherwise for every attempt of the call after sixteen updates got in the way; pending only when storage failed or the window closed; an error only when storage failed, generations ran out, the fence of the view was cleared, a later epoch has begun or an object is too long; a handle without the proofs updates the head only after everything below the commit was found |
| Calls.Resolve | src/log.rs:1280-1352 | the same for evidence of a lost reply, and for all attempts issued before; still pending only when storage failed; an error only as in `Commit`; the other error branches are unreachable |
| Calls.ResolveFrom | src/log.rs:1280-1352 | the same for a candidate whose source is a later head of its publication base |
| Calls.RebasedChoice | src/log.rs:1387-1409 | rebasing the candidate on the head it found changes no later choice |
| Calls.RetryCommit | src/log.rs:1306-1351 | a retry on a compatible head verifies and creates the candidate again and keeps those promises |
| Calls.ClassifyVerified | src/log.rs:1294-1306 | a cold handle also verifies a commit that the tail shows; it keeps those promises |
| Calls.CandidateStands | src/log.rs:1181-1206 | on every head of its publication base a candidate is admitted, its objects are proved and its key is not condemned |
| Calls.RefusedHasLeft | src/log.rs:2316-2344 | a candidate that is refused although its objects are short enough has lost its publication base |
| Calls.OutcomeIsFinal | src/log.rs:2183-2205 | a definite outcome stays true in every later state: committed for good, and not committed for good or against every attempt of the caller |
| Calls.LoadedAfter | src/log.rs:2129-2147 | a head loaded later never makes the comparison with the evidence go back |
| Calls.ShownLater | src/log.rs:2183-2205 | a published head that shows a commit is later than the one it was prepared on |
| CheckpointCalls.ClassifyInstall | src/log.rs:2219-2237 | published exactly if the checkpoint is the last one installed, and then with the head that names it; not published exactly if one other update followed the last known compatible head; lapsed exactly otherwise |
| CheckpointCalls.SettleCheckpoint | src/log.rs:1647-1672 | the end of the publication loop becomes a sound checkpoint outcome; after a change it is as exact as the generation of the last attempt allows |
| CheckpointCalls.PublishCheckpoint | src/log.rs:1601-1673 | objects beyond the limits are refused before anything is read; published implies the exact checkpoint is in the chain, and the view returned is a published head that names it; conflict implies that it is not in the chain and that no attempt of the call can still land; pending only when storage failed or the evidence lapsed; an error only when storage failed, generations ran out, the fence of the view was cleared or a later epoch has begun; the head is updated only after the tail was verified |
| CheckpointCalls.ResolveCheckpoint | src/log.rs:1684-1759 | the same for pending evidence, and for all attempts issued before; lapsed only after two updates and only if the checkpoint is not the last one installed; still pending only when storage failed; on a handle without the proofs an object that is too long is one more reason for an error, and the head is updated only after everything below the checkpoint was found |
| CheckpointCalls.VerifyTailAndFence | src/log.rs:1611-1628 | a view fails these checks only by storage, by expiry in a later epoch, or after its fence was cleared |
| CheckpointCalls.StoreCheckpoint | src/log.rs:1628-1647 | the checkpoint object gets an identity that nobody has used, and only storage can refuse it |
| CheckpointCalls.RetryCheckpoint | src/log.rs:1728-1757 | a retry on a compatible head verifies the tail and the checkpoint again and keeps those promises |
| CheckpointCalls.VerifyEvidence | src/log.rs:1790-1812 | pending evidence is refused only for the reasons above |
| CheckpointCalls.ClassifyInstalled | src/log.rs:1705-1726 | a cold handle also verifies a checkpoint that the head shows; it keeps those promises |
| CheckpointCalls.CheckpointOutcomeIsFinal | src/log.rs:2219-2237 | a definite checkpoint outcome stays true in every later state |
| RetentionCalls.ChangeRetention | src/log.rs:608-677 | applied names a published head that has the retention acquired, released or cleared and, for an acquisition, the epoch of the view; every head named was current during the call; an open acquisition gives up only after sixteen updates; pending only when storage failed; refused by limit only for a head that it tried and that is at the limit; the non-monotonic branch is unreachable |
| RetentionCalls.TryRetention | src/log.rs:631-672 | one attempt settles soundly or goes on with a newer head of the same epoch |
| RetentionCalls.AfterRejection | src/log.rs:644-669 | a rejected change is judged by the reloaded head |
| RetentionCalls.ClassifiedExactly | src/log.rs:268-279 | applied exactly if the head has what the change asks for, active exactly for an acquisition that a fence forbids, conflict exactly if it is still to be made |
| RetentionCalls.RetentionProtects | src/log.rs:563-574 | until a release of the id or a clearing lands, the id is in the head, everything reachable from the acquired view is present and its epoch is current |
| CollectionCalls.MarkReachable | src/log.rs:2377-2411 | marking while other handles act: success marks exactly what the view reaches; failure needs a storage failure, a view beyond the limits, or a later epoch |
| CollectionCalls.FindCandidates | src/log.rs:739-773 | the bounded scan of a listing in any order: candidates were listed at or after the view, are not reachable from it and number at most the limit; fewer than the limit are everything dead that escaped deletion, as far as the rest of the limit covers the unclassified entries; none are found only if nothing dead escaped deletion; the limit error means that more unclassified entries than candidates were allowed are listed |
| CollectionCalls.ListObjects | src/log.rs:747-753 | whatever is listed was there, and whatever was there all along is listed |
| CollectionCalls.CreatePlan | src/log.rs:778-789 | a created plan is durable and allowed on the view |
| CollectionCalls.StartCollection | src/log.rs:723-817 | marks what is live and scans for the rest; installed names a published head whose fence condemns only keys that the view cannot reach, at the limit or everything dead that escaped deletion; a view with a fence or a retention is left alone; empty means that nothing dead escaped deletion; the object of an abandoned plan is to be deleted; other endings need a storage failure, a later epoch or a limit |
| CollectionCalls.Install | src/log.rs:789-817 | a conflict means that the install can no longer land |
| CollectionCalls.AfterInstallRejected | src/log.rs:797-811 | a rejected install is judged by the reloaded head; an abandoned plan is cleaned up, and whether that succeeds changes nothing |
| CollectionCalls.DeleteBatch | src/store.rs:542-585 | every key of the batch is submitted, also after one failed; success means that every key was deleted |
| CollectionCalls.DeleteAll | src/log.rs:855-871 | success means that every candidate was deleted under the fence |
| CollectionCalls.ClearOnce | src/log.rs:885-926 | one attempt ends with the fence gone, another fence, or a newer head with the same fence |
| CollectionCalls.ClearPlan | src/log.rs:878-930 | sixteen attempts at most, each sound |
| CollectionCalls.ResumeCollection | src/log.rs:830-876 | complete names a published head without the fence, which was cleared after all its deletes and whose plan object is to be deleted; conflict names another fence, or the same one after sixteen updates; both heads were current during the call; pending only when storage failed; an error only when storage failed, generations ran out, or the plan is gone because another collector cleared the fence first |
| CollectionCalls.CompleteIsAbsent | src/log.rs:819-829 | after complete, and ever after, no candidate but a commit is present |
| Recovery.NormalisedIsValid | src/format.rs:1114-1119 | the normalised head of a valid head can always be encoded |
| Recovery.BaseDigestIsExact | src/format.rs:1114-1119 | base digests of valid heads are equal exactly for equal publication bases |
| Recovery.ColdIsWarm | src/log.rs:1375-1416 | the token path chooses retry, classify or error exactly as the path in memory does |
| Recovery.TokenChoosesWarm | src/log.rs:1375-1416 | for a token of a prepared candidate, in every reachable state; then neither error can arise |
| Recovery.TokenKeepsCandidate | src/format.rs:1093-1112 | the token of a prepared candidate keeps exactly that candidate |
| Recovery.Resume | src/log.rs:1364-1425 | takes the candidate from the token, compares the loaded head with its digests, goes on from that head, and keeps the promises of resolving in memory; still pending only when storage failed; an error only as in `Calls.Resolve` on a handle without the proofs |
| GraphWalk.FoldCounts | src/format.rs:937-946 | the checked fold is the sum of the counts, or fails for a bad count or an overflow |
| GraphWalk.Enqueue | src/log.rs:2464-2497 | queues a new sound reference, passes over a known agreeing one and refuses exactly the rest |
| GraphWalk.EnqueueAll | src/log.rs:2456-2459 | looks at all references of a read; a refusal rules out every sound closed set |
| GraphWalk.Fill | src/log.rs:2429-2451 | starts reads as far as the read limit and the byte budget allow, and never stalls on a nonempty queue |
| GraphWalk.CompleteRead | src/log.rs:2452-2459 | any read in flight may complete next; the walk stays sound, and a read that fails rules out every sound closed set |
| GraphWalk.MarkObjectGraph | src/log.rs:2413-2462 | for every completion order: succeeds exactly when a sound closed set within the limit exists, and then visits exactly the least one, reading each object once |
| GraphWalk.EdgesDecrease | src/format.rs:937-946 | every edge of a readable graph leads to a smaller declared count |
| GraphWalk.AcceptedIsAcyclic | src/log.rs:1075-1085 | a graph that the walk accepts has no cycle |
| GraphWalk.CountsBoundGraph | src/log.rs:1934-1943 | the declared counts of the roots bound the number of distinct objects below them |
| CollectionScan.InsertLive | src/log.rs:2499-2515 | adds one entry, refusing a conflicting one or one beyond the limit |
| CollectionScan.MarkTail | src/log.rs:2377-2395 | marks every tail record and collects its roots |
| CollectionScan.MarkRecords | src/log.rs:2377-2405 | marks the tail and the checkpoint, and nothing else, exactly when they agree and fit the limit |
| CollectionScan.MarkLive | src/log.rs:2377-2411 | succeeds exactly when the records agree and the graph below them is sound and within the limit, and then marks exactly those; a full-tail checkpoint that passed admission never exceeds the object limit |
| CollectionScan.CheckpointFits | src/log.rs:1597-1600 | the graph of an admitted checkpoint together with the checkpoint is within the limit |
| CollectionScan.SelectCandidates | src/log.rs:739-773 | the bounded loop computes the scan function |
| CollectionScan.ScanIsSafe | src/log.rs:748-767 | whatever the listing says, only listed keys that are not live are selected, within the limit |
| CollectionScan.EmptyIsComplete | src/log.rs:747-773 | an empty answer means that the whole listing was examined and nothing in it was dead |
| CollectionScan.FailsWhenFlooded | src/log.rs:690-692 | without repeats the scan fails only by its limit, and only if more entries are unclassified than candidates were allowed |
| CollectionScan.PassIsExact | src/log.rs:739-773 | over a quiet namespace a pass selects exactly min(dead, limit) keys and the scan limit never fires |
| CollectionScan.ScanMissesNothing | src/log.rs:748-767 | a plan below its limit has everything dead in the listing, as long as the rest of the limit covers the unclassified entries |
| CollectionScan.BacklogDrains | tests/collection_limits.rs:159-188 | D dead objects are gone after ceil(D / limit) passes and not before, and live ones stay |
| CollectionScan.DrainedExactlyThen | tests/collection_limits.rs:159-188 | nothing remains exactly from the ceil(D / limit)-th pass on |
| Drain.PassRun | src/log.rs:739-930 | listing, uploading, installing, deleting, clearing and cleaning up are a run of the protocol that removes exactly the planned keys, leaves the log as it was one epoch later, and leaves no plan object behind |
| Drain.OnePass | src/log.rs:723-930 | from every reachable state without a fence or a retention, and for every listing order, such a run exists whose plan is what the bounded scan selects |
| Drain.Drains | tests/collection_limits.rs:159-188 | such runs of start and finish remove min(dead, limit) objects each: nothing but what the head reaches is left exactly from the ceil(D / limit)-th on, and all of that stays |
| LiveGraph.CountsAddUp | src/format.rs:937-946 | a reference to an object of the log declares one more than its children do, unless that overflows |
| LiveGraph.ExpandsToNamed | src/log.rs:2523-2540 | reading an object of the log yields the references to what it names, exactly when it is a dependency, can be read and its count fits |
| LiveGraph.WalkSucceeds | src/log.rs:2413-2462 | the walk succeeds when everything below the roots can be read, is within the limits and is not fenced |
| LiveGraph.WalkIsClosure | src/log.rs:2413-2462 | a walk that succeeds visited exactly what is below the roots, and all of it was sound |
| LiveGraph.VerifyDependencies | src/log.rs:2335-2346 | the walk of a publication succeeds exactly when every object below its roots is there, is no candidate and fits the limits |
| LiveGraph.FoundIsVerified | src/log.rs:2335-2346 | such a walk over objects met since the view is the verification step of the protocol |
| LiveGraph.VerifyProved | src/log.rs:2316-2333 | in every reachable state the walk that a proof of the current epoch replaces succeeds, whatever the fence, unless it exceeds the limits |
| LiveGraph.ViewReach | src/log.rs:2377-2411 | a view reaches its records and the graphs below the objects they name |
| LiveGraph.PublishedIsTyped | src/log.rs:2464-2474 | in every published head records sit under record keys and everything below them is a blob or a node |
| LiveGraph.ViewIsMarkable | src/log.rs:2377-2411 | a view within the limits whose records and nodes can be read can be marked |
| LiveGraph.MarkedIsReach | src/log.rs:2377-2411 | whatever marking returns is exactly what the view reaches, and was within the limits |
| LiveGraph.MarkView | src/log.rs:2377-2411 | marking succeeds exactly when every record and the whole view are within the limits and all it reaches but blobs can be read, and then returns exactly what it reaches |
| LiveGraph.MarkCurrent | src/log.rs:2377-2411 | in every reachable state a view of the current epoch is marked exactly, unless it exceeds the limits |
| LiveGraph.PublishedIsAdmitted | src/log.rs:1922-1943 | every record of every published head was within the reference and object limits of its log, so reading it back never fails that check |
| LiveGraph.AdmittedFits | src/log.rs:1922-1943 | the graph below admitted objects fits the walk exactly if no object is too long |
| LiveGraph.PublishedFits | src/log.rs:2377-2411 | a published head exceeds the limits of marking only by naming too many objects in all its records together, or by an object that is too long |
| LiveGraph.FullCheckpointFits | src/log.rs:1597-1600 | a published head with an empty tail can always be marked, however the counts of its objects overlap, unless an object is too long |
| Cbor.HeadLength | src/format.rs:948-956 | the length table is the length of the shortest head |
| Cbor.ReadsOwnHead | src/format.rs:968-993 | reading a written head gives back its value and length |
| Cbor.MatchedHead | src/format.rs:968-993 | a head that matches its own encoding is the shortest one |
| Cbor.ExactHead | src/format.rs:968-993 | an accepted value is followed by exactly the rest of the input |
| Cbor.ExactBytes | src/format.rs:968-993 | the same for byte strings |
| Cbor.Cursor.Write | src/format.rs:1071-1083 | the matcher consumes its input exactly when it starts with the bytes written |
| Cbor.Cursor.Take | src/format.rs:968-993 | decoding and re-encoding one number accepts exactly its shortest form |
| Cbor.Cursor.TakeBytes | src/format.rs:968-980 | decoding and re-encoding one byte string accepts exactly its shortest form |
| WireFormat.BigEndianDigit | src/byte_stream.rs:197-198 | numbers are written in network byte order, for every value and width |
| WireFormat.HeadIsWire | src/format.rs:948-956 | the exact bytes of every head of every major type |
| NodeCodec.NodeSize | src/format.rs:886-929 | succeeds exactly when the child count and the size fit, and returns the size; no sum overflows unnoticed |
| NodeCodec.CheckedSum | src/format.rs:931-934 | a chain of checked additions is the sum, or nothing when it does not fit |
| NodeCodec.SizeIsExact | src/format.rs:878-929 | the size computed beforehand is the length of the encoding, for all payload and child lengths |
| NodeCodec.EncodeNode | src/format.rs:828-876 | produces the encoding exactly when the node fits |
| WireFormat.EncodeIsWire | src/format.rs:844-876 | every node is written byte by byte as a layout with all its fixed bytes spelt out |
| WireFormat.SampleBytes | src/format.rs:844-876 | the bytes of one node with a payload over 255 bytes and a child of each kind, in literals |
| NodeCodec.EncodeBody | src/format.rs:849-864 | the loop writes the payload encoding |
| NodeCodec.OpenEnvelope | src/format.rs:995-1009 | computes the envelope part of the reader function; corruption means a wrong digest |
| NodeCodec.TakeChild | src/format.rs:1034-1065 | reads one child reference exactly as the reader function does, with the same error |
| NodeCodec.TakeChildren | src/format.rs:1033-1066 | the loop reads the declared number of children |
| NodeCodec.DecodeNode | src/format.rs:958-1069 | the streaming reader returns exactly what the reader function returns, node or error |
| NodeCodec.DecodeVerdict | src/format.rs:1028-1066 | a written node is read back, or refused by limit for too many children, or for its first bad child: by limit if too long, as corrupt if its count is wrong; the 60-byte check never refuses one |
| NodeCodec.DecodeIsExact | src/format.rs:958-1069 | bytes decode to a node if and only if the node is good and the bytes are its encoding |
| BlobStore.Store.PutObject | src/log.rs:944-955 | a stored blob denotes its bytes; only an oversized one is refused by limit; expiry means that the fence of the view was cleared |
| BlobStore.Store.PutNode | src/log.rs:992-1016 | a stored node denotes its encoding and its count; a node that fits is refused only by storage, or by expiry after the fence of the view was cleared |
| BlobStore.Store.ReadFence | src/log.rs:2352-2375 | the plan of the fence is read once, and is missing only after the fence was cleared |
| BlobStore.CountObjects | src/format.rs:937-946 | the checked loop is the subtree count |
| BlobStore.Store.Read | src/log.rs:1130-1145 | bytes that come back are the ones stored, of the declared length; expiry means that the object is gone and a later epoch has begun; corruption means that it has another length or was not there in the epoch of the view |
| BlobStore.Store.MissingReadError | src/log.rs:1853-1862 | a miss is expiry exactly if a later epoch has begun, otherwise corruption; the head never precedes the view |
| BlobStore.Store.ReadNode | src/log.rs:1062-1085 | a node that was there in the epoch of the view is read back exactly, or storage failed, or the view has expired |
| ByteGeometry.LargestFit | src/byte_stream.rs:44-64 | the binary search finds the largest number of full chunks that one descriptor holds |
| ByteGeometry.FitsBelow | src/byte_stream.rs:51-64 | a smaller number of chunks fits wherever a larger one does |
| ByteGeometry.FitsBound | src/byte_stream.rs:46-50 | the search bound never cuts off a number that fits |
| ByteGeometry.ShorterFits | src/byte_stream.rs:177-202 | a short last chunk fits wherever a full one does |
| ByteGeometry.JoinedLength | src/byte_stream.rs:111-128 | checked geometry makes the chunks add up to the declared length |
| ByteGeometry.ChunkAt | src/byte_stream.rs:226-255 | chunk i is the slice of the stream that starts at i times the chunk size |
| ByteGeometry.ReadSlice | src/byte_stream.rs:218-230 | a read is a prefix of what follows the offset, and empty exactly at the end or for an empty request |
| ByteGeometry.DrainFollows | src/byte_stream.rs:218-255 | successive reads of any sizes follow the stream, and enough of them reach its end |
| ByteStream.NewWriter | src/byte_stream.rs:41-77 | a writer is refused only when no descriptor fits or the capacity overflows |
| ByteStream.ByteWriter.Write | src/byte_stream.rs:148-174 | success appends all of the data; any failure makes the writer unusable; the limit error fires exactly beyond the capacity; expiry means that the fence of the view was cleared |
| ByteStream.ByteWriter.Absorb | src/byte_stream.rs:160-171 | buffering a piece appends it, whether or not a chunk is stored |
| ByteStream.ByteWriter.Finish | src/byte_stream.rs:176-203 | the root holds exactly the accepted bytes, and is a plain blob exactly for one chunk; within capacity only storage can fail, or expiry after the fence of the view was cleared |
| ByteStream.DescriptorFits | src/byte_stream.rs:189-202 | a stream within capacity has a descriptor that can be stored and read back |
| WireFormat.DescriptorBytes | src/byte_stream.rs:195-198 | the exact bytes of every stream descriptor |
| WireFormat.SampleDescriptor | src/byte_stream.rs:195-198 | the bytes of one descriptor, in literals |
| ByteStream.OpenBytes | src/byte_stream.rs:85-137 | opens exactly the roots that are streams, up to storage failure and removal |
| ByteStream.CheckGeometry | src/byte_stream.rs:116-127 | the loop accepts exactly the geometry of a stream |
| ByteStream.StreamIsUnique | src/byte_stream.rs:102-128 | a root is a stream in at most one way |
| ByteStream.ByteReader.ReadAt | src/byte_stream.rs:226-255 | returns exactly the bytes from the offset to the end of the request, the chunk or the stream; a cached chunk needs no storage; a failure loses at most the older chunk and needs a storage fault or a chunk that was collected in a later epoch |
| ByteStream.ByteReader.Fetch | src/byte_stream.rs:231-250 | the fetched chunk becomes the newest of two, and cached chunks are what their references denote |
| ByteStream.SliceAt | src/byte_stream.rs:251-254 | a slice of a chunk is the slice of the stream |
| ByteStream.RoundTrip | src/byte_stream.rs:85-203 | opening a finished stream gives back its content, whatever was stored meanwhile |
| ByteStream.WriteAndReopen | src/byte_stream.rs:148-255 | however the bytes are split into writes, the reopened stream has exactly them, and bytes that fit fail only through storage, after the fence of the view was cleared, or in a later epoch |
| HistoryCursor.PublishedTailIsLinked | src/log.rs:2034-2058 | in every published head each tail commit names its predecessor, or the checkpoint |
| HistoryCursor.ReadTailRecord | src/log.rs:1489-1513 | a record is returned only in its place in the parent chain; it is reported missing only if it is; it is refused only for a failed read, a broken link or an index beyond the tail |
| HistoryCursor.ReadCommit | src/log.rs:2265-2309 | a commit that is read back is the one that its reference names |
| HistoryCursor.PublishedRecord | src/log.rs:1489-1513 | a record of a published view is always linked, and is missing only in a later epoch |
| HistoryCursor.ReadTail | src/log.rs:1544-1570 | success means that the whole tail is linked; for a published view the only failures are storage and expiry in a later epoch |
| HistoryCursor.WindowIsLargest | src/log.rs:508-512 | more than one commit are read together only if they fit one object, and then as many as do, up to the cap |
| HistoryCursor.Handle.VerifyTail | src/log.rs:1531-1542 | a verified view is not read again; success means that the whole tail is linked, and is remembered; for a published view the only failures are storage and expiry in a later epoch |
| HistoryCursor.Handle.AfterCommit | src/log.rs:1240-1244 | a verified view hands its proof to the view of a local commit |
| HistoryCursor.Handle.AfterCheckpoint | src/log.rs:1653-1659 | and to the view of a local checkpoint exactly when no commit was appended meanwhile |
| HistoryCursor.AppendInherits | src/log.rs:1240-1244 | the new tail is linked if the old one was |
| HistoryCursor.CheckpointInherits | src/log.rs:1653-1659 | what is left of the tail is linked to the checkpoint |
| HistoryCursor.Cursor.constructor | src/history.rs:144-156 | a new cursor has returned nothing |
| HistoryCursor.Cursor.Clone | src/history.rs:56-67 | a copy continues from the same place without the records read ahead |
| HistoryCursor.Cursor.Next | src/history.rs:89-132 | checkpoint, then each commit once and in order, across errors; the end only after everything was returned from a linked tail; an error means that a read failed in this call or in the read-ahead that the call drops, or expiry, and then a later epoch has begun |
| HistoryCursor.Cursor.NextRecord | src/history.rs:104-130 | the next commit, or an error that drops what was read ahead: a read failed in this call or in that read-ahead, or a later epoch has begun |
| HistoryCursor.Cursor.ReadCheckpoint | src/log.rs:1770-1783 | fails only by storage, or by expiry in a later epoch |
| HistoryCursor.Cursor.ReadAhead | src/history.rs:104-113 | a whole window, or the rest of the tail; what is read ahead belongs to the next places, and what is missing there belongs to an earlier epoch |
| Radix.Lookup | examples/git/index.go:69-90 | finds exactly the value that some leaf maps the identity to; it fails exactly when a node on the path of the identity cannot be loaded |
| Radix.OneValue | examples/git/index.go:15-18 | an identity has at most one value |
| Radix.Walk | examples/git/index.go:92-106 | visits every mapped identity exactly once, in any map order; it fails exactly when some node of the tree cannot be loaded |
| Radix.AtMostSixteen | examples/git/index.go:8-10 | a branch over hexadecimal identities and without empty nodes has at most sixteen children |
| RadixUpdate.Partition | examples/git/index.go:20-33 | groups by prefix, and fails exactly for an identity that is too short |
| RadixUpdate.Update | examples/git/index.go:35-67 | the new root maps the old content overridden by the updates; old roots are unchanged and children without updates are shared; the root is a leaf exactly if a leaf was merged to at most 128 items, and no new leaf has more; the result has no empty node exactly when there was something to merge; it fails only if a save fails or a node on the path of an updated identity cannot be loaded |
| RadixUpdate.UpdateBranch | examples/git/index.go:46-66 | the same below a branch, for every order of the groups |
| RadixUpdate.ManyDiffer | examples/git/index.go:41-46 | more than one identity always leaves a digit to split on |
| RadixFilter.Filter | examples/git/index.go:110-174 | the result maps exactly the kept identities; the same root and no write when all are kept; no root exactly when nothing is kept and every node lost something; no new empty node; a subtree that stays whole is shared, at every level; it fails only if a save fails or some node cannot be loaded |
| RadixFilter.FilledDrops | examples/git/index.go:138-171 | without empty nodes there is no root exactly when nothing is kept |
| RadixFilter.NoRootExactly | examples/git/index.go:138-171 | there is no root whenever nothing is kept, if and only if the index has no empty node |
| RadixFilter.EmptyIndex | examples/git/index.go:138-140 | the empty index keeps nothing and still has a root, as has a branch over it |
| RadixFilter.FilterItems | examples/git/index.go:117-137 | the lazily copied map is the kept part, for every order |
| RadixFilter.FilterBranch | examples/git/index.go:148-173 | the same below a branch, for every order of the children: a child that stays whole is shared, one that loses everything is dropped |
| FetchPolicy.Classify | examples/git/fetch_policy.go:88-109 | the kind of walk and the objects to find, wants before haves; it fails exactly for a want or have outside the tips that cannot be read |
| FetchPolicy.EnqueueParents | examples/git/fetch_policy.go:174-180 | queues the collected parents, each at most once and in any order, and forgets them |
| FetchPolicy.Expand | examples/git/fetch_policy.go:136-173 | follows an object: trees only in a full walk, submodules never; unseen parents are collected and not queued |
| FetchPolicy.StageReadAll | examples/git/fetch_policy.go:174-180 | when the queue runs empty the whole generation of the tips has been read, so an older one is read only if that was not enough |
| FetchPolicy.RunWalk | examples/git/fetch_policy.go:110-181 | terminates; what it marks is visible; it has found all that was asked for or all there is; it fails only at a missing or unreadable object on the way, and only at one of the generation of the tips if that generation shows all that was asked for |
| FetchPolicy.OnlyCommits | examples/git/fetch_policy.go:129-132 | without a full walk only tips and commits are visible |
| FetchPolicy.VisibleFetch | examples/git/fetch_policy.go:83-194 | grants only if every want is published, then keeps exactly the stored haves that are; refuses only for a want that is not published or not stored; fails only for an unreadable want or have or for a missing or unreadable object on the way |
| FetchPolicy.FetchIntact | examples/git/fetch_policy.go:83-194 | over an intact, readable graph: never fails, grants exactly when every want is published, and keeps exactly the published haves |
| FetchPolicy.IntactHasNoHole | examples/git/fetch_policy.go:125-128 | over an intact graph the walk never meets a missing object |

## Left out

- Head, commit, checkpoint, plan and token encodings: the node codec is the one with a hand-written reader and writer; a head counts as encodable when it passes validation.
- Encoded size limits of heads, commits and checkpoints, and `RequestDenied`: one more refused request for the caller.
- `CollectionPlan::validate`: a plan object is its candidate set.
- Staging proofs as values: an object that a caller passes on has been proved for the epoch of the view, which `validate_staged_object` checks.
- CheckpointCalls.PublishCheckpoint: a checkpoint through a commit that is not in the tail of its view is not modelled; the code stores it, nothing names it, and the call ends in an error.
- Verification.WalkGraph: which error ends a walk that fails is not part of its contract, apart from a failure of storage.
- Drain.Drains: speaks of one run for each listing order, that in which every request of the collector lands at once; what the calls promise when others act or storage fails is in `CollectionCalls`.
- Opening a log, loading a view and validating that a view belongs to a log and its incarnation: there is one log and every handle has it open.
- Backend capability probing, safe-read retries, request guards and key paths of the store: refusal is one more failed request.
- The component transport, credentials, the Git wiring, pack handling and JSON bucket encoding: `load` and `save` of the radix index are an abstract inverse pair over an append-only list of nodes.
- Update in place of the walk variables: `GraphWalk` and `FetchPolicy` pass them as values from step to step.
- CollectionCalls.MarkReachable: which error ends a marking that fails is not part of its contract.
- BlobStore.Store.Read: an object that is already condemned when the epoch of the view begins counts as gone from then on.
- ByteStream.ByteWriter.Write: a cancelled write is a failed one; both leave the writer unusable.
- ByteStream.ByteReader.ReadAt: a cancelled read is a failed one; both lose at most the older cached chunk.
- FetchPolicy.VisibleFetch: an object that is not stored but is listed by a stored tree may or may not be found before the walk stops, so nothing is promised for it beyond soundness.
- Memory bounds other than the byte budget of the walk, the read window of the cursor and the cache of the reader.
