/**
What holds of the shared storage after every run, and why each step keeps it.
*/
module Invariants {
  import opened Wrappers
  import opened Heads
  import opened HeadChain
  import opened HeadOrder
  import opened Protocol

  // ---- The invariant ----

  /** No plan of this epoch or an earlier one lists any of these keys. */
  ghost predicate Clean(heads: seq<Head>, epoch: nat, keys: set<Key>) {
    forall g | 0 <= g < |heads| && heads[g].collectionEpoch <= epoch :: keys !! Candidates(heads[g])
  }

  ghost predicate NoPlans(keys: set<Key>) {
    forall k | k in keys :: !k.body.Plan?
  }

  ghost predicate OnlyDependencies(keys: set<Key>) {
    forall k | k in keys :: IsDependency(k)
  }

  /** Head updates are built on published heads and pass their checks. */
  ghost predicate CasFollow(heads: seq<Head>, cas: set<Cas>) {
    forall q | q in cas ::
      && q.expected.generation < |heads|
      && heads[q.expected.generation] == q.expected
      && Allowed(q.expected, q.change)
  }

  ghost predicate IdsIssued(issued: set<StorageId>, born: set<Key>, creates: multiset<Key>) {
    && (forall k | k in born :: k.id in issued)
    && (forall k | k in creates :: k.id in issued)
  }

  /** Only a commit has more than one create request, so nothing else is ever created twice. */
  ghost predicate CreatedOnce(born: set<Key>, creates: multiset<Key>) {
    forall k | k in creates && !k.body.Commit? :: creates[k] == 1 && k !in born
  }

  /** An object that was created and not deleted is present. */
  ghost predicate Durable(store: set<Key>, born: set<Key>, deletes: set<Key>) {
    store <= born <= store + deletes && deletes <= born
  }

  ghost predicate SeenBorn(heads: seq<Head>, seen: set<Sighting>, born: set<Key>) {
    forall w | w in seen :: w.key in born && w.generation < |heads|
  }

  ghost predicate CandidatesBorn(heads: seq<Head>, born: set<Key>) {
    forall g | 0 <= g < |heads| :: Candidates(heads[g]) <= born
  }

  ghost predicate UploadOk(heads: seq<Head>, u: Upload, born: set<Key>, issued: set<StorageId>) {
    && u.view < |heads|
    && AllowedInstall(heads[u.view], u.plan)
    && u.plan.key.id in issued
    && u.plan.key.body.candidates <= born
    && u.plan.key !in u.plan.key.body.candidates
  }

  ghost predicate UploadsOk(heads: seq<Head>, uploads: set<Upload>, born: set<Key>, issued: set<StorageId>) {
    && (forall u | u in uploads :: UploadOk(heads, u, born, issued))
    && (forall u, v | u in uploads && v in uploads :: u.plan.key.id == v.plan.key.id ==> u == v)
  }

  /** A plan is installed only on the head its upload was computed for. */
  ghost predicate InstallsUploaded(changes: seq<Change>, cas: set<Cas>, uploads: set<Upload>, born: set<Key>) {
    && (forall i | 0 <= i < |changes| && changes[i].Install? ::
          Upload(i, changes[i].plan) in uploads && changes[i].plan.key in born)
    && (forall q | q in cas && q.change.Install? ::
          Upload(q.expected.generation, q.change.plan) in uploads && q.change.plan.key in born)
  }

  /** A plan listed by an installed plan was uploaded for a head no newer than that plan's own. */
  ghost predicate ListedPlansOld(changes: seq<Change>, uploads: set<Upload>) {
    forall i, u | 0 <= i < |changes| && changes[i].Install? && u in uploads ::
      changes[i].plan.key.body.Plan? && u.plan.key in changes[i].plan.key.body.candidates ==> u.view <= i
  }

  ghost predicate Abandoned(heads: seq<Head>, u: Upload) {
    exists j | u.view < j < |heads| :: heads[j].activePlan != Some(u.plan)
  }

  /** A delete names a candidate of an installed plan, or a plan that can no longer be a fence. */
  ghost predicate DeleteJustified(heads: seq<Head>, uploads: set<Upload>, k: Key) {
    || (exists g | 0 <= g < |heads| :: k in Candidates(heads[g]))
    || (exists u | u in uploads :: u.plan.key == k && Abandoned(heads, u))
  }

  ghost predicate DeletesJustified(heads: seq<Head>, uploads: set<Upload>, deletes: set<Key>) {
    forall k | k in deletes :: DeleteJustified(heads, uploads, k)
  }

  ghost predicate Sound(heads: seq<Head>, epoch: nat, keys: set<Key>, born: set<Key>) {
    keys <= born && Clean(heads, epoch, keys)
  }

  ghost predicate EpochReached(heads: seq<Head>, epoch: nat) {
    heads != [] && epoch <= heads[|heads| - 1].collectionEpoch
  }

  ghost predicate ProofOk(heads: seq<Head>, p: Proof, born: set<Key>) {
    && EpochReached(heads, p.epoch)
    && OnlyDependencies(Closure(p.key))
    && Sound(heads, p.epoch, Closure(p.key), born)
  }

  ghost predicate ProofsOk(heads: seq<Head>, proofs: set<Proof>, born: set<Key>) {
    forall p | p in proofs :: ProofOk(heads, p, born)
  }

  /** A newly named object: no plan of its epoch or before can list it. */
  ghost predicate FreshFor(heads: seq<Head>, view: nat, key: Key, issued: set<StorageId>) {
    && view < |heads|
    && EpochReached(heads, heads[view].collectionEpoch)
    && key.id in issued
    && Clean(heads, heads[view].collectionEpoch, {key})
  }

  ghost predicate PutOk(heads: seq<Head>, p: Put, proofs: set<Proof>, issued: set<StorageId>) {
    && FreshFor(heads, p.view, p.key, issued)
    && IsDependency(p.key)
    && (p.key.body.Node? ==> Proved(proofs, heads[p.view].collectionEpoch, p.key.body.children))
  }

  ghost predicate PutsOk(heads: seq<Head>, puts: set<Put>, proofs: set<Proof>, issued: set<StorageId>) {
    forall p | p in puts :: PutOk(heads, p, proofs, issued)
  }

  ghost predicate CandidateOk(heads: seq<Head>, p: Prepared, proofs: set<Proof>, issued: set<StorageId>) {
    && FreshFor(heads, p.view, p.commit.key, issued)
    && AllowedAppend(heads[p.view], p.commit)
    && Proved(proofs, heads[p.view].collectionEpoch, p.commit.key.body.objects)
  }

  ghost predicate PreparedOk(heads: seq<Head>, prepared: set<Prepared>, proofs: set<Proof>, issued: set<StorageId>) {
    && (forall p | p in prepared :: CandidateOk(heads, p, proofs, issued))
    && (forall p, q | p in prepared && q in prepared :: p.commit.key.id == q.commit.key.id ==> p == q)
  }

  ghost predicate PendingOk(heads: seq<Head>, p: PendingCheckpoint, proofs: set<Proof>, issued: set<StorageId>) {
    && FreshFor(heads, p.view, p.key, issued)
    && AllowedCompact(heads[p.view], p.through, p.key)
    && Proved(proofs, heads[p.view].collectionEpoch, p.key.body.objects)
  }

  ghost predicate CheckpointsOk(
    heads: seq<Head>, checkpoints: set<PendingCheckpoint>, proofs: set<Proof>, issued: set<StorageId>)
  {
    && (forall p | p in checkpoints :: PendingOk(heads, p, proofs, issued))
    && (forall p, q | p in checkpoints && q in checkpoints :: p.key.id == q.key.id ==> p == q)
  }

  /** Whatever an update makes reachable was created and is not condemned. */
  ghost predicate CasOk(heads: seq<Head>, q: Cas, born: set<Key>) {
    && NoPlans(Added(q.change))
    && EpochReached(heads, q.expected.collectionEpoch)
    && Sound(heads, q.expected.collectionEpoch, Added(q.change), born)
  }

  ghost predicate CasSound(heads: seq<Head>, cas: set<Cas>, born: set<Key>) {
    forall q | q in cas :: CasOk(heads, q, born)
  }

  ghost predicate HeadOk(heads: seq<Head>, h: Head, born: set<Key>) {
    && NoPlans(Reach(h))
    && EpochReached(heads, h.collectionEpoch)
    && Sound(heads, h.collectionEpoch, Reach(h), born)
  }

  ghost predicate HeadsSound(heads: seq<Head>, born: set<Key>) {
    forall i | 0 <= i < |heads| :: HeadOk(heads, heads[i], born)
  }

  /** The publication that `change` carries was prepared for a compatible head. */
  ghost predicate Originates(
    heads: seq<Head>, base: Head, change: Change, prepared: set<Prepared>, checkpoints: set<PendingCheckpoint>)
  {
    && (change.Append? ==> exists p | p in prepared ::
          p.commit == change.commit && p.view < |heads| && SamePublicationBase(heads[p.view], base))
    && (change.Compact? ==> exists p | p in checkpoints ::
          && p.through == change.through && p.key == change.key
          && p.view < |heads| && CheckpointAppendBase(heads[p.view], base))
  }

  ghost predicate Origins(
    heads: seq<Head>, changes: seq<Change>, cas: set<Cas>,
    prepared: set<Prepared>, checkpoints: set<PendingCheckpoint>)
  {
    && |heads| == |changes| + 1
    && (forall i | 0 <= i < |changes| :: Originates(heads, heads[i], changes[i], prepared, checkpoints))
    && (forall q | q in cas :: Originates(heads, q.expected, q.change, prepared, checkpoints))
  }

  /** Apart from commits, which recovery may create again, these keys are absent. */
  ghost predicate Absent(keys: set<Key>, store: set<Key>) {
    forall k | k in keys && !k.body.Commit? :: k !in store
  }

  ghost predicate ClearedAbsent(heads: seq<Head>, changes: seq<Change>, cas: set<Cas>, store: set<Key>) {
    && |heads| == |changes| + 1
    && (forall i | 0 <= i < |changes| && changes[i].Unfence? :: Absent(Candidates(heads[i]), store))
    && (forall q | q in cas && q.change.Unfence? :: Absent(Candidates(q.expected), store))
  }

  ghost predicate GoneAbsent(gone: set<Sighting>, store: set<Key>, born: set<Key>) {
    forall w | w in gone && !w.key.body.Commit? :: w.key in born && w.key !in store
  }

  /** A key met after a fence was cleared was no candidate of that fence. */
  ghost predicate SeenSpared(heads: seq<Head>, changes: seq<Change>, seen: set<Sighting>) {
    && |heads| == |changes| + 1
    && (forall i, w | 0 <= i < |changes| && changes[i].Unfence? && w in seen ::
          i < w.generation && !w.key.body.Commit? ==> w.key !in Candidates(heads[i]))
  }

  /** A delete of `k` landed while `plan` was, or had been, the fence. */
  ghost predicate ErasedUnder(heads: seq<Head>, plan: Option<PlanRef>, k: Key, gone: set<Sighting>) {
    exists w | w in gone :: w.key == k && exists j | 0 <= j < |heads| :: j <= w.generation && heads[j].activePlan == plan
  }

  ghost predicate AllErasedUnder(heads: seq<Head>, h: Head, gone: set<Sighting>) {
    forall k | k in Candidates(h) :: ErasedUnder(heads, h.activePlan, k, gone)
  }

  /** A fence is cleared, or asked to be cleared, only after each candidate was deleted under it. */
  ghost predicate ErasedFirst(heads: seq<Head>, changes: seq<Change>, cas: set<Cas>, gone: set<Sighting>) {
    && |heads| == |changes| + 1
    && (forall i | 0 <= i < |changes| && changes[i].Unfence? :: AllErasedUnder(heads, heads[i], gone))
    && (forall q | q in cas && q.change.Unfence? :: AllErasedUnder(heads, q.expected, gone))
  }

  /** Every commit object belongs to a prepared candidate. */
  ghost predicate CommitsPrepared(creates: multiset<Key>, born: set<Key>, prepared: set<Prepared>) {
    forall k | (k in creates || k in born) && k.body.Commit? :: exists p | p in prepared :: p.commit.key == k
  }

  ghost predicate Inv(s: State) {
    && Chain(s.heads, s.changes)
    && CasFollow(s.heads, s.cas)
    && IdsIssued(s.issued, s.born, s.creates)
    && CreatedOnce(s.born, s.creates)
    && Durable(s.store, s.born, s.deletes)
    && SeenBorn(s.heads, s.seen, s.born)
    && CandidatesBorn(s.heads, s.born)
    && UploadsOk(s.heads, s.uploads, s.born, s.issued)
    && InstallsUploaded(s.changes, s.cas, s.uploads, s.born)
    && ListedPlansOld(s.changes, s.uploads)
    && DeletesJustified(s.heads, s.uploads, s.deletes)
    && ProofsOk(s.heads, s.proofs, s.born)
    && PutsOk(s.heads, s.puts, s.proofs, s.issued)
    && PreparedOk(s.heads, s.prepared, s.proofs, s.issued)
    && CheckpointsOk(s.heads, s.checkpoints, s.proofs, s.issued)
    && CasSound(s.heads, s.cas, s.born)
    && HeadsSound(s.heads, s.born)
    && Origins(s.heads, s.changes, s.cas, s.prepared, s.checkpoints)
    && ClearedAbsent(s.heads, s.changes, s.cas, s.store)
    && GoneAbsent(s.gone, s.store, s.born)
    && SeenSpared(s.heads, s.changes, s.seen)
    && ErasedFirst(s.heads, s.changes, s.cas, s.gone)
    && CommitsPrepared(s.creates, s.born, s.prepared)
  }
}
