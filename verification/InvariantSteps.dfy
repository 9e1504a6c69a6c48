/**
Each step that leaves the chain of heads alone keeps the invariant: one lemma for
each part of the invariant that it touches.
*/
module InvariantSteps {
  import opened Heads
  import opened HeadChain
  import opened HeadOrder
  import opened Protocol
  import opened Invariants

  // ---- Identities and storage ----

  lemma {:induction false} KeepsStorage(s: State, e: Event)
    requires s.heads != [] && Enabled(s, e)
    requires IdsIssued(s.issued, s.born, s.creates) && CreatedOnce(s.born, s.creates)
    requires forall p | p in s.prepared :: p.commit.key.id in s.issued && p.commit.key.body.Commit?
    ensures IdsIssued(Apply(s, e).issued, Apply(s, e).born, Apply(s, e).creates)
    ensures CreatedOnce(Apply(s, e).born, Apply(s, e).creates)
  {
  }

  lemma {:induction false} KeepsDurable(s: State, e: Event)
    requires s.heads != [] && Enabled(s, e)
    requires Durable(s.store, s.born, s.deletes) && CandidatesBorn(s.heads, s.born)
    ensures Durable(Apply(s, e).store, Apply(s, e).born, Apply(s, e).deletes)
  {
  }

  lemma {:induction false} KeepsSeen(s: State, e: Event)
    requires s.heads != [] && Enabled(s, e)
    requires Durable(s.store, s.born, s.deletes) && SeenBorn(s.heads, s.seen, s.born)
    ensures SeenBorn(Apply(s, e).heads, Apply(s, e).seen, Apply(s, e).born)
  {
  }

  lemma {:induction false} KeepsGone(s: State, e: Event)
    requires s.heads != [] && Enabled(s, e)
    requires GoneAbsent(s.gone, s.store, s.born) && CreatedOnce(s.born, s.creates)
    requires Durable(s.store, s.born, s.deletes)
    ensures GoneAbsent(Apply(s, e).gone, Apply(s, e).store, Apply(s, e).born)
  {
  }

  // ---- Plans ----

  lemma {:induction false} KeepsUploads(s: State, e: Event)
    requires s.heads != [] && Enabled(s, e) && !e.Swap?
    requires UploadsOk(s.heads, s.uploads, s.born, s.issued)
    requires SeenBorn(s.heads, s.seen, s.born) && IdsIssued(s.issued, s.born, s.creates)
    ensures UploadsOk(Apply(s, e).heads, Apply(s, e).uploads, Apply(s, e).born, Apply(s, e).issued)
  {
    hide Reach, AllowedInstall;
    QuietStep(s, e);
    if e.UploadPlan? {
      NewUpload(s, e.view, e.plan);
    } else {
      UploadsStay(s.heads, s.uploads, s.born, s.issued, Apply(s, e).born, Apply(s, e).issued);
    }
  }

  lemma {:induction false} UploadsStay(
    heads: seq<Head>, uploads: set<Upload>, born: set<Key>, issued: set<StorageId>, born': set<Key>, issued': set<StorageId>)
    requires UploadsOk(heads, uploads, born, issued) && born <= born' && issued <= issued'
    ensures UploadsOk(heads, uploads, born', issued')
  {
    hide AllowedInstall;
    forall u | u in uploads ensures UploadOk(heads, u, born', issued') {
      assert UploadOk(heads, u, born, issued);
    }
  }

  lemma {:induction false} NewUpload(s: State, view: nat, plan: PlanRef)
    requires s.heads != [] && Enabled(s, UploadPlan(view, plan))
    requires UploadsOk(s.heads, s.uploads, s.born, s.issued)
    requires SeenBorn(s.heads, s.seen, s.born) && IdsIssued(s.issued, s.born, s.creates)
    ensures UploadsOk(s.heads, s.uploads + {Upload(view, plan)}, s.born, s.issued + {plan.key.id})
  {
    UploadsStay(s.heads, s.uploads, s.born, s.issued, s.born, s.issued + {plan.key.id});
    assert UploadOk(s.heads, Upload(view, plan), s.born, s.issued + {plan.key.id});
    forall u | u in s.uploads ensures u.plan.key.id != plan.key.id {
      assert UploadOk(s.heads, u, s.born, s.issued);
    }
  }

  lemma {:induction false} KeepsInstalls(s: State, e: Event)
    requires s.heads != [] && Enabled(s, e) && !e.Swap?
    requires Chain(s.heads, s.changes)
    requires InstallsUploaded(s.changes, s.cas, s.uploads, s.born)
    ensures InstallsUploaded(Apply(s, e).changes, Apply(s, e).cas, Apply(s, e).uploads, Apply(s, e).born)
  {
    if e.AttemptInstall? {
      ChainGeneration(s.heads, s.changes, e.upload.view);
    }
  }

  lemma {:induction false} KeepsListed(s: State, e: Event)
    requires s.heads != [] && Enabled(s, e) && !e.Swap?
    requires Chain(s.heads, s.changes) && CandidatesBorn(s.heads, s.born)
    requires IdsIssued(s.issued, s.born, s.creates)
    requires ListedPlansOld(s.changes, s.uploads)
    ensures ListedPlansOld(Apply(s, e).changes, Apply(s, e).uploads)
  {
    if e.UploadPlan? {
      forall i | 0 <= i < |s.changes| && s.changes[i].Install?
        ensures s.changes[i].plan.key.body.Plan?
        ensures e.plan.key !in s.changes[i].plan.key.body.candidates
      {
        assert Link(s.heads, s.changes, i);
        assert Candidates(s.heads[i + 1]) == s.changes[i].plan.key.body.candidates;
      }
    }
  }

  lemma {:induction false} KeepsDeletes(s: State, e: Event)
    requires s.heads != [] && Enabled(s, e) && !e.Swap?
    requires DeletesJustified(s.heads, s.uploads, s.deletes)
    ensures DeletesJustified(Apply(s, e).heads, Apply(s, e).uploads, Apply(s, e).deletes)
  {
    var s' := Apply(s, e);
    forall k | k in s'.deletes ensures DeleteJustified(s'.heads, s'.uploads, k) {
      if k in s.deletes {
        assert DeleteJustified(s.heads, s.uploads, k);
      } else if e.CleanUp? {
        assert Abandoned(s.heads, e.upload);
      }
    }
  }

  // ---- Proofs ----

  /** The graphs below proved roots are sound. */
  lemma {:induction false} ProvedGraphs(
    heads: seq<Head>, proofs: set<Proof>, born: set<Key>, epoch: nat, ks: seq<Key>)
    requires ProofsOk(heads, proofs, born) && Proved(proofs, epoch, ks)
    ensures OnlyDependencies(ClosureAll(ks))
    ensures Sound(heads, epoch, ClosureAll(ks), born)
  {
    forall x | x in ClosureAll(ks)
      ensures IsDependency(x) && x in born
      ensures forall g | 0 <= g < |heads| && heads[g].collectionEpoch <= epoch :: x !in Candidates(heads[g])
    {
      ClosureAllOnly(ks, x);
      var k :| k in ks && x in Closure(k);
      assert ProofOk(heads, Proof(epoch, k), born);
    }
  }

  lemma {:induction false} SoundUnion(heads: seq<Head>, epoch: nat, a: set<Key>, b: set<Key>, born: set<Key>)
    requires Sound(heads, epoch, a, born) && Sound(heads, epoch, b, born)
    ensures Sound(heads, epoch, a + b, born)
  {
  }

  lemma {:induction false} AcknowledgedIsProved(s: State, put: Put)
    requires Inv(s) && Enabled(s, AcknowledgePut(put))
    ensures ProofOk(s.heads, Proof(s.heads[put.view].collectionEpoch, put.key), s.born)
  {
    var epoch := s.heads[put.view].collectionEpoch;
    assert PutOk(s.heads, put, s.proofs, s.issued);
    if put.key.body.Node? {
      ProvedGraphs(s.heads, s.proofs, s.born, epoch, put.key.body.children);
      SoundUnion(s.heads, epoch, {put.key}, ClosureAll(put.key.body.children), s.born);
    }
  }

  /** What a graph walk met after `view`, and the fence of `view` does not list, no plan so far lists. */
  lemma {:induction false} WalkedIsSpared(s: State, view: nat, x: Key, g: nat)
    requires Chain(s.heads, s.changes) && SeenSpared(s.heads, s.changes, s.seen)
    requires view < |s.heads| && g < |s.heads|
    requires s.heads[g].collectionEpoch <= s.heads[view].collectionEpoch
    requires !x.body.Commit? && SeenSince(s, x, view) && x !in Candidates(s.heads[view])
    ensures x !in Candidates(s.heads[g])
  {
    if x in Candidates(s.heads[g]) {
      if g <= view {
        var i := ClearedBetween(s.heads, s.changes, g, view);
      } else {
        EpochOrder(s.heads, s.changes, view, g);
      }
    }
  }

  lemma {:induction false} VerifiedIsProved(s: State, view: nat, key: Key)
    requires Inv(s) && Enabled(s, Verify(view, key))
    ensures ProofOk(s.heads, Proof(s.heads[view].collectionEpoch, key), s.born)
  {
    var epoch := s.heads[view].collectionEpoch;
    EpochOrder(s.heads, s.changes, view, |s.heads| - 1);
    forall g, x | 0 <= g < |s.heads| && s.heads[g].collectionEpoch <= epoch && x in Closure(key)
      ensures x !in Candidates(s.heads[g])
    {
      WalkedIsSpared(s, view, x, g);
    }
    assert Clean(s.heads, epoch, Closure(key));
  }

  lemma {:induction false} ChildIsProved(s: State, epoch: nat, parent: Key, child: Key)
    requires Inv(s) && Enabled(s, DeriveChild(epoch, parent, child))
    ensures ProofOk(s.heads, Proof(epoch, child), s.born)
  {
    assert ProofOk(s.heads, Proof(epoch, parent), s.born);
    ClosureAllCovers(parent.body.children, child);
    assert Closure(child) <= Closure(parent);
  }

  /** The checkpoint of a head was put there by an earlier update. */
  lemma {:induction false} CheckpointChange(heads: seq<Head>, changes: seq<Change>, i: nat) returns (j: nat)
    requires Chain(heads, changes) && i < |heads| && heads[i].checkpoint.Some?
    ensures j < i && changes[j].Compact? && changes[j].key == heads[i].checkpoint.value.key
  {
    assert Link(heads, changes, i - 1);
    if changes[i - 1].Compact? {
      j := i - 1;
    } else {
      j := CheckpointChange(heads, changes, i - 1);
    }
  }

  /** A tail entry was appended by an earlier update. */
  lemma {:induction false} TailChange(heads: seq<Head>, changes: seq<Change>, i: nat, e: CommitRef) returns (j: nat)
    requires Chain(heads, changes) && i < |heads| && e in heads[i].tail
    ensures j < i && changes[j] == Append(e)
  {
    ChainWindow(heads, changes, i);
    assert e in History(changes[..i]);
    HistoryIsAppended(changes[..i], e);
    j :| 0 <= j < i && changes[..i][j] == Append(e);
  }

  /** The part of the invariant that explains where published records come from. */
  ghost predicate Traceable(s: State) {
    && Chain(s.heads, s.changes)
    && ProofsOk(s.heads, s.proofs, s.born)
    && PreparedOk(s.heads, s.prepared, s.proofs, s.issued)
    && CheckpointsOk(s.heads, s.checkpoints, s.proofs, s.issued)
    && Origins(s.heads, s.changes, s.cas, s.prepared, s.checkpoints)
  }

  /** The objects were proved for the epoch of a head that the record was prepared on. */
  ghost predicate ProvedFor(s: State, view: nat, ks: seq<Key>) {
    view < |s.heads| && Proved(s.proofs, s.heads[view].collectionEpoch, ks)
  }

  /** The objects of a published record were proved when it was prepared, and are dependencies throughout. */
  lemma {:induction false} RecordObjects(s: State, j: nat)
    requires Traceable(s) && j < |s.changes|
    ensures s.changes[j].Append? ==>
              s.changes[j].commit.key.body.Commit? && OnlyDependencies(ClosureAll(s.changes[j].commit.key.body.objects))
    ensures s.changes[j].Append? ==>
              exists p | p in s.prepared && p.commit == s.changes[j].commit :: ProvedFor(s, p.view, p.commit.key.body.objects)
    ensures s.changes[j].Compact? ==>
              s.changes[j].key.body.Checkpoint? && OnlyDependencies(ClosureAll(s.changes[j].key.body.objects))
    ensures s.changes[j].Compact? ==>
              exists p | p in s.checkpoints && p.key == s.changes[j].key :: ProvedFor(s, p.view, p.key.body.objects)
  {
    assert Originates(s.heads, s.heads[j], s.changes[j], s.prepared, s.checkpoints);
    if s.changes[j].Append? {
      var p :| p in s.prepared && p.commit == s.changes[j].commit;
      assert CandidateOk(s.heads, p, s.proofs, s.issued);
      ProvedGraphs(s.heads, s.proofs, s.born, s.heads[p.view].collectionEpoch, p.commit.key.body.objects);
    }
    if s.changes[j].Compact? {
      var p :| p in s.checkpoints && p.key == s.changes[j].key;
      assert PendingOk(s.heads, p, s.proofs, s.issued);
      ProvedGraphs(s.heads, s.proofs, s.born, s.heads[p.view].collectionEpoch, p.key.body.objects);
    }
  }

  lemma {:induction false} DirectIsReached(s: State, view: nat, key: Key)
    requires Traceable(s) && view < |s.heads| && DirectDependency(s.heads[view], key)
    ensures Closure(key) <= Reach(s.heads[view])
    ensures OnlyDependencies(Closure(key))
  {
    var h := s.heads[view];
    if exists e :: e in h.tail && e.key.body.Commit? && key in e.key.body.objects {
      var e :| e in h.tail && e.key.body.Commit? && key in e.key.body.objects;
      var i :| 0 <= i < |h.tail| && h.tail[i] == e;
      ReachTailCovers(h.tail, i);
      ClosureAllCovers(e.key.body.objects, key);
      var j := TailChange(s.heads, s.changes, view, e);
      RecordObjects(s, j);
    } else {
      ClosureAllCovers(h.checkpoint.value.key.body.objects, key);
      var j := CheckpointChange(s.heads, s.changes, view);
      RecordObjects(s, j);
    }
  }

  lemma {:induction false} HistoryIsProved(s: State, view: nat, key: Key)
    requires Inv(s) && Enabled(s, FromHistory(view, key))
    ensures ProofOk(s.heads, Proof(s.heads[view].collectionEpoch, key), s.born)
  {
    DirectIsReached(s, view, key);
    assert HeadOk(s.heads, s.heads[view], s.born);
  }

  lemma {:induction false} NewProof(s: State, e: Event, p: Proof)
    requires Inv(s) && Enabled(s, e) && !e.Swap? && p in Apply(s, e).proofs && p !in s.proofs
    ensures ProofOk(s.heads, p, s.born)
  {
    match e {
      case AcknowledgePut(put) => AcknowledgedIsProved(s, put);
      case Verify(view, key) => VerifiedIsProved(s, view, key);
      case DeriveChild(epoch, parent, child) => ChildIsProved(s, epoch, parent, child);
      case FromHistory(view, key) => HistoryIsProved(s, view, key);
      case _ =>
    }
  }

  ghost predicate NewProofsOk(s: State, e: Event)
    requires s.heads != [] && Enabled(s, e)
  {
    forall p | p in Apply(s, e).proofs && p !in s.proofs :: ProofOk(s.heads, p, s.born)
  }

  lemma {:induction false} KeepsProofs(s: State, e: Event)
    requires s.heads != [] && Enabled(s, e) && !e.Swap?
    requires ProofsOk(s.heads, s.proofs, s.born) && NewProofsOk(s, e)
    ensures ProofsOk(Apply(s, e).heads, Apply(s, e).proofs, Apply(s, e).born)
  {
    var s' := Apply(s, e);
    forall p | p in s'.proofs ensures ProofOk(s'.heads, p, s'.born) {
      assert ProofOk(s.heads, p, s.born);
    }
  }

  // ---- Requests that name new objects ----

  /** No plan installed so far can list a key whose identity was not drawn yet. */
  lemma {:induction false} NewIdIsFresh(s: State, view: nat, key: Key)
    requires Chain(s.heads, s.changes) && view < |s.heads| && key.id !in s.issued
    requires IdsIssued(s.issued, s.born, s.creates) && CandidatesBorn(s.heads, s.born)
    ensures FreshFor(s.heads, view, key, s.issued + {key.id})
  {
    EpochOrder(s.heads, s.changes, view, |s.heads| - 1);
  }

  lemma {:induction false} KeepsPuts(s: State, e: Event)
    requires Chain(s.heads, s.changes) && Enabled(s, e) && !e.Swap?
    requires IdsIssued(s.issued, s.born, s.creates) && CandidatesBorn(s.heads, s.born)
    requires PutsOk(s.heads, s.puts, s.proofs, s.issued)
    ensures PutsOk(Apply(s, e).heads, Apply(s, e).puts, Apply(s, e).proofs, Apply(s, e).issued)
  {
    var s' := Apply(s, e);
    forall p | p in s'.puts ensures PutOk(s'.heads, p, s'.proofs, s'.issued) {
      if p in s.puts {
        assert PutOk(s.heads, p, s.proofs, s.issued);
      } else {
        NewIdIsFresh(s, p.view, p.key);
      }
    }
  }

  lemma {:induction false} KeepsPrepared(s: State, e: Event)
    requires Chain(s.heads, s.changes) && Enabled(s, e) && !e.Swap?
    requires IdsIssued(s.issued, s.born, s.creates) && CandidatesBorn(s.heads, s.born)
    requires PreparedOk(s.heads, s.prepared, s.proofs, s.issued)
    ensures PreparedOk(Apply(s, e).heads, Apply(s, e).prepared, Apply(s, e).proofs, Apply(s, e).issued)
  {
    var s' := Apply(s, e);
    forall p | p in s'.prepared ensures CandidateOk(s'.heads, p, s'.proofs, s'.issued) {
      if p in s.prepared {
        assert CandidateOk(s.heads, p, s.proofs, s.issued);
      } else {
        NewIdIsFresh(s, p.view, p.commit.key);
      }
    }
    forall p, q | p in s'.prepared && q in s'.prepared && p.commit.key.id == q.commit.key.id ensures p == q {
      assert p in s.prepared ==> CandidateOk(s.heads, p, s.proofs, s.issued);
      assert q in s.prepared ==> CandidateOk(s.heads, q, s.proofs, s.issued);
    }
  }

  lemma {:induction false} KeepsCheckpoints(s: State, e: Event)
    requires Chain(s.heads, s.changes) && Enabled(s, e) && !e.Swap?
    requires IdsIssued(s.issued, s.born, s.creates) && CandidatesBorn(s.heads, s.born)
    requires CheckpointsOk(s.heads, s.checkpoints, s.proofs, s.issued)
    ensures CheckpointsOk(Apply(s, e).heads, Apply(s, e).checkpoints, Apply(s, e).proofs, Apply(s, e).issued)
  {
    var s' := Apply(s, e);
    forall p | p in s'.checkpoints ensures PendingOk(s'.heads, p, s'.proofs, s'.issued) {
      if p in s.checkpoints {
        assert PendingOk(s.heads, p, s.proofs, s.issued);
      } else {
        NewIdIsFresh(s, p.view, p.key);
      }
    }
    forall p, q | p in s'.checkpoints && q in s'.checkpoints && p.key.id == q.key.id ensures p == q {
      assert p in s.checkpoints ==> PendingOk(s.heads, p, s.proofs, s.issued);
      assert q in s.checkpoints ==> PendingOk(s.heads, q, s.proofs, s.issued);
    }
  }

  // ---- Head updates ----

  ghost predicate CasFine(s: State, q: Cas) {
    && q.expected.generation < |s.heads|
    && s.heads[q.expected.generation] == q.expected
    && Allowed(q.expected, q.change)
    && CasOk(s.heads, q, s.born)
    && Originates(s.heads, q.expected, q.change, s.prepared, s.checkpoints)
  }

  lemma {:induction false} CommitAttemptFine(s: State, prepared: Prepared, view: nat)
    requires Chain(s.heads, s.changes) && ProofsOk(s.heads, s.proofs, s.born)
    requires PreparedOk(s.heads, s.prepared, s.proofs, s.issued)
    requires Enabled(s, AttemptCommit(prepared, view))
    ensures CasFine(s, Cas(s.heads[view], Append(prepared.commit)))
  {
    var h, key := s.heads[view], prepared.commit.key;
    assert CandidateOk(s.heads, prepared, s.proofs, s.issued);
    ChainGeneration(s.heads, s.changes, view);
    EpochOrder(s.heads, s.changes, view, |s.heads| - 1);
    ProvedGraphs(s.heads, s.proofs, s.born, h.collectionEpoch, key.body.objects);
    SoundUnion(s.heads, h.collectionEpoch, {key}, ClosureAll(key.body.objects), s.born);
    assert Closure(key) == {key} + ClosureAll(key.body.objects);
  }

  lemma {:induction false} CheckpointAttemptFine(s: State, pending: PendingCheckpoint, view: nat)
    requires Chain(s.heads, s.changes) && ProofsOk(s.heads, s.proofs, s.born)
    requires CheckpointsOk(s.heads, s.checkpoints, s.proofs, s.issued)
    requires Enabled(s, AttemptCheckpoint(pending, view))
    ensures CasFine(s, Cas(s.heads[view], Compact(pending.through, pending.key)))
  {
    var h, key := s.heads[view], pending.key;
    assert PendingOk(s.heads, pending, s.proofs, s.issued);
    ChainGeneration(s.heads, s.changes, view);
    EpochOrder(s.heads, s.changes, view, |s.heads| - 1);
    ProvedGraphs(s.heads, s.proofs, s.born, h.collectionEpoch, key.body.objects);
    SoundUnion(s.heads, h.collectionEpoch, {key}, ClosureAll(key.body.objects), s.born);
    assert Closure(key) == {key} + ClosureAll(key.body.objects);
  }

  lemma {:induction false} PlainAttemptFine(s: State, view: nat, c: Change)
    requires Chain(s.heads, s.changes) && view < |s.heads| && Allowed(s.heads[view], c)
    requires c.Retention? || c.Install? || c.Unfence?
    ensures CasFine(s, Cas(s.heads[view], c))
  {
    ChainGeneration(s.heads, s.changes, view);
    EpochOrder(s.heads, s.changes, view, |s.heads| - 1);
  }

  lemma {:induction false} NewCas(s: State, e: Event, q: Cas)
    requires Traceable(s) && UploadsOk(s.heads, s.uploads, s.born, s.issued)
    requires Enabled(s, e) && !e.Swap? && q in Apply(s, e).cas && q !in s.cas
    ensures CasFine(s, q)
  {
    match e {
      case AttemptCommit(prepared, view) => CommitAttemptFine(s, prepared, view);
      case AttemptCheckpoint(pending, view) => CheckpointAttemptFine(s, pending, view);
      case AttemptRetention(view, retention) => PlainAttemptFine(s, view, Retention(retention));
      case AttemptInstall(upload) =>
        assert UploadOk(s.heads, upload, s.born, s.issued);
        PlainAttemptFine(s, upload.view, Install(upload.plan));
      case AttemptUnfence(_, view) => PlainAttemptFine(s, view, Unfence);
      case _ =>
    }
  }

  ghost predicate NewCasOk(s: State, e: Event)
    requires s.heads != [] && Enabled(s, e)
  {
    forall q | q in Apply(s, e).cas && q !in s.cas :: CasFine(s, q)
  }

  lemma {:induction false} KeepsCas(s: State, e: Event)
    requires s.heads != [] && Enabled(s, e) && !e.Swap?
    requires CasFollow(s.heads, s.cas) && CasSound(s.heads, s.cas, s.born) && NewCasOk(s, e)
    ensures CasFollow(Apply(s, e).heads, Apply(s, e).cas)
    ensures CasSound(Apply(s, e).heads, Apply(s, e).cas, Apply(s, e).born)
  {
    var s' := Apply(s, e);
    forall q | q in s'.cas
      ensures q.expected.generation < |s'.heads|
      ensures s'.heads[q.expected.generation] == q.expected
      ensures Allowed(q.expected, q.change)
      ensures CasOk(s'.heads, q, s'.born)
    {
      assert CasOk(s.heads, q, s.born);
    }
  }

  lemma {:induction false} OriginatesMore(
    heads: seq<Head>, base: Head, change: Change,
    prepared: set<Prepared>, checkpoints: set<PendingCheckpoint>,
    heads': seq<Head>, prepared': set<Prepared>, checkpoints': set<PendingCheckpoint>)
    requires Originates(heads, base, change, prepared, checkpoints)
    requires heads <= heads' && prepared <= prepared' && checkpoints <= checkpoints'
    ensures Originates(heads', base, change, prepared', checkpoints')
  {
  }

  lemma {:induction false} KeepsOrigins(s: State, e: Event)
    requires s.heads != [] && Enabled(s, e) && !e.Swap?
    requires Origins(s.heads, s.changes, s.cas, s.prepared, s.checkpoints) && NewCasOk(s, e)
    ensures Origins(Apply(s, e).heads, Apply(s, e).changes, Apply(s, e).cas,
                    Apply(s, e).prepared, Apply(s, e).checkpoints)
  {
    var s' := Apply(s, e);
    forall i | 0 <= i < |s.changes|
      ensures Originates(s'.heads, s'.heads[i], s'.changes[i], s'.prepared, s'.checkpoints)
    {
      OriginatesMore(s.heads, s.heads[i], s.changes[i], s.prepared, s.checkpoints,
                     s'.heads, s'.prepared, s'.checkpoints);
    }
    forall q | q in s'.cas ensures Originates(s'.heads, q.expected, q.change, s'.prepared, s'.checkpoints) {
      OriginatesMore(s.heads, q.expected, q.change, s.prepared, s.checkpoints,
                     s'.heads, s'.prepared, s'.checkpoints);
    }
  }

  /** A cleared fence leaves nothing behind except commits that recovery creates again. */
  lemma {:induction false} KeepsCleared(s: State, e: Event)
    requires Chain(s.heads, s.changes) && Enabled(s, e) && !e.Swap?
    requires CasFollow(s.heads, s.cas) && CandidatesBorn(s.heads, s.born) && CreatedOnce(s.born, s.creates)
    requires GoneAbsent(s.gone, s.store, s.born)
    requires ClearedAbsent(s.heads, s.changes, s.cas, s.store)
    ensures ClearedAbsent(Apply(s, e).heads, Apply(s, e).changes, Apply(s, e).cas, Apply(s, e).store)
  {
    var s' := Apply(s, e);
    forall i | 0 <= i < |s.changes| && s.changes[i].Unfence? ensures Absent(Candidates(s.heads[i]), s'.store) {
      assert Absent(Candidates(s.heads[i]), s.store);
    }
    forall q | q in s'.cas && q.change.Unfence? ensures Absent(Candidates(q.expected), s'.store) {
      if q in s.cas {
        assert Absent(Candidates(q.expected), s.store);
        assert Candidates(s.heads[q.expected.generation]) <= s.born;
      } else {
        forall k | k in Candidates(q.expected) && !k.body.Commit? ensures k !in s.store {
          assert ErasedSince(s, k, e.loaded);
        }
      }
    }
  }

  lemma {:induction false} KeepsSpared(s: State, e: Event)
    requires Chain(s.heads, s.changes) && Enabled(s, e) && !e.Swap?
    requires CandidatesBorn(s.heads, s.born) && CreatedOnce(s.born, s.creates)
    requires ClearedAbsent(s.heads, s.changes, s.cas, s.store)
    requires SeenSpared(s.heads, s.changes, s.seen)
    ensures SeenSpared(Apply(s, e).heads, Apply(s, e).changes, Apply(s, e).seen)
  {
    var s' := Apply(s, e);
    forall i, w | 0 <= i < |s.changes| && s.changes[i].Unfence? && w in s'.seen
        && i < w.generation && !w.key.body.Commit?
      ensures w.key !in Candidates(s.heads[i])
    {
      assert Absent(Candidates(s.heads[i]), s.store);
    }
  }

  /** Only a landing head update changes the chain, and nothing is unborn. */
  lemma {:induction false} QuietStep(s: State, e: Event)
    requires s.heads != [] && Enabled(s, e) && !e.Swap?
    ensures Apply(s, e).heads == s.heads && Apply(s, e).changes == s.changes
    ensures s.born <= Apply(s, e).born && s.issued <= Apply(s, e).issued
  {
  }

  lemma {:induction false} KeepsHeads(s: State, e: Event)
    requires s.heads != [] && Enabled(s, e) && !e.Swap?
    requires CandidatesBorn(s.heads, s.born) && HeadsSound(s.heads, s.born)
    ensures CandidatesBorn(Apply(s, e).heads, Apply(s, e).born)
    ensures HeadsSound(Apply(s, e).heads, Apply(s, e).born)
  {
    hide Enabled, Apply;
    QuietStep(s, e);
    var s' := Apply(s, e);
    forall i | 0 <= i < |s.heads| ensures HeadOk(s'.heads, s'.heads[i], s'.born) {
      assert HeadOk(s.heads, s.heads[i], s.born);
    }
  }

  lemma {:induction false} MoreErased(heads: seq<Head>, heads': seq<Head>, h: Head, gone: set<Sighting>, gone': set<Sighting>)
    requires AllErasedUnder(heads, h, gone) && heads <= heads' && gone <= gone'
    ensures AllErasedUnder(heads', h, gone')
  {
    forall k | k in Candidates(h) ensures ErasedUnder(heads', h.activePlan, k, gone') {
      assert ErasedUnder(heads, h.activePlan, k, gone);
      var w :| w in gone && w.key == k && exists j | 0 <= j < |heads| :: j <= w.generation && heads[j].activePlan == h.activePlan;
      var j :| 0 <= j < |heads| && j <= w.generation && heads[j].activePlan == h.activePlan;
      assert heads'[j] == heads[j];
    }
  }

  lemma {:induction false} KeepsErased(s: State, e: Event)
    requires Chain(s.heads, s.changes) && Enabled(s, e) && !e.Swap?
    requires ErasedFirst(s.heads, s.changes, s.cas, s.gone)
    ensures ErasedFirst(Apply(s, e).heads, Apply(s, e).changes, Apply(s, e).cas, Apply(s, e).gone)
  {
    var s' := Apply(s, e);
    forall i | 0 <= i < |s.changes| && s.changes[i].Unfence? ensures AllErasedUnder(s'.heads, s'.heads[i], s'.gone) {
      MoreErased(s.heads, s'.heads, s.heads[i], s.gone, s'.gone);
    }
    forall q | q in s'.cas && q.change.Unfence? ensures AllErasedUnder(s'.heads, q.expected, s'.gone) {
      if q in s.cas {
        MoreErased(s.heads, s'.heads, q.expected, s.gone, s'.gone);
      } else {
        forall k | k in Candidates(q.expected) ensures ErasedUnder(s'.heads, q.expected.activePlan, k, s'.gone) {
          assert ErasedSince(s, k, e.loaded);
        }
      }
    }
  }

  lemma {:induction false} KeepsCommits(s: State, e: Event)
    requires s.heads != [] && Enabled(s, e)
    requires CommitsPrepared(s.creates, s.born, s.prepared)
    ensures CommitsPrepared(Apply(s, e).creates, Apply(s, e).born, Apply(s, e).prepared)
  {
    var s' := Apply(s, e);
    forall k | (k in s'.creates || k in s'.born) && k.body.Commit? ensures exists p | p in s'.prepared :: p.commit.key == k {
      if k in s.creates || k in s.born {
        var p :| p in s.prepared && p.commit.key == k;
        assert p in s'.prepared;
      } else {
        assert e.CreateCommit? && e.prepared in s'.prepared;
      }
    }
  }

  lemma {:induction false} NewRequests(s: State, e: Event)
    requires Inv(s) && Enabled(s, e) && !e.Swap?
    ensures NewProofsOk(s, e) && NewCasOk(s, e)
    ensures forall p | p in s.prepared :: p.commit.key.id in s.issued && p.commit.key.body.Commit?
  {
    forall p | p in Apply(s, e).proofs && p !in s.proofs ensures ProofOk(s.heads, p, s.born) {
      NewProof(s, e, p);
    }
    forall q | q in Apply(s, e).cas && q !in s.cas ensures CasFine(s, q) {
      NewCas(s, e, q);
    }
    forall p | p in s.prepared ensures p.commit.key.id in s.issued && p.commit.key.body.Commit? {
      assert CandidateOk(s.heads, p, s.proofs, s.issued);
    }
  }

  lemma {:induction false} KeepsInvQuiet(s: State, e: Event)
    requires Inv(s) && Enabled(s, e) && !e.Swap?
    ensures Inv(Apply(s, e))
  {
    NewRequests(s, e);
    KeepsStorage(s, e);
    KeepsDurable(s, e);
    KeepsSeen(s, e);
    KeepsGone(s, e);
    KeepsUploads(s, e);
    KeepsInstalls(s, e);
    KeepsListed(s, e);
    KeepsDeletes(s, e);
    KeepsProofs(s, e);
    KeepsPuts(s, e);
    KeepsPrepared(s, e);
    KeepsCheckpoints(s, e);
    KeepsCas(s, e);
    KeepsOrigins(s, e);
    KeepsCleared(s, e);
    KeepsSpared(s, e);
    KeepsHeads(s, e);
    KeepsErased(s, e);
    KeepsCommits(s, e);
  }
}
