/** The one step that publishes a head keeps the invariant. */
module SwapStep {
  import opened Wrappers
  import opened Heads
  import opened HeadChain
  import opened HeadOrder
  import opened Protocol
  import opened Invariants
  import opened InvariantSteps

  /** A new head condemns nothing in its own epoch that was not condemned before. */
  lemma {:induction false} CleanExtends(heads: seq<Head>, c: Change, epoch: nat, keys: set<Key>)
    requires EpochReached(heads, epoch) && Allowed(heads[|heads| - 1], c)
    requires Clean(heads, epoch, keys)
    ensures Clean(heads + [After(heads[|heads| - 1], c)], epoch, keys)
    ensures EpochReached(heads + [After(heads[|heads| - 1], c)], epoch)
  {
    var heads' := heads + [After(heads[|heads| - 1], c)];
    forall g | 0 <= g < |heads'| && heads'[g].collectionEpoch <= epoch ensures keys !! Candidates(heads'[g]) {
      if g == |heads| {
        assert keys !! Candidates(heads[|heads| - 1]);
      } else {
        assert keys !! Candidates(heads[g]);
      }
    }
  }

  lemma {:induction false} FreshExtends(heads: seq<Head>, c: Change, view: nat, key: Key, issued: set<StorageId>)
    requires FreshFor(heads, view, key, issued) && Allowed(heads[|heads| - 1], c)
    ensures FreshFor(heads + [After(heads[|heads| - 1], c)], view, key, issued)
  {
    CleanExtends(heads, c, heads[view].collectionEpoch, {key});
  }

  lemma {:induction false} ProofsExtend(heads: seq<Head>, c: Change, proofs: set<Proof>, born: set<Key>)
    requires heads != [] && Allowed(heads[|heads| - 1], c) && ProofsOk(heads, proofs, born)
    ensures ProofsOk(heads + [After(heads[|heads| - 1], c)], proofs, born)
  {
    var heads' := heads + [After(heads[|heads| - 1], c)];
    forall p | p in proofs ensures ProofOk(heads', p, born) {
      assert ProofOk(heads, p, born);
      CleanExtends(heads, c, p.epoch, Closure(p.key));
    }
  }

  lemma {:induction false} PutsExtend(
    heads: seq<Head>, c: Change, puts: set<Put>, proofs: set<Proof>, issued: set<StorageId>)
    requires heads != [] && Allowed(heads[|heads| - 1], c) && PutsOk(heads, puts, proofs, issued)
    ensures PutsOk(heads + [After(heads[|heads| - 1], c)], puts, proofs, issued)
  {
    var heads' := heads + [After(heads[|heads| - 1], c)];
    forall p | p in puts ensures PutOk(heads', p, proofs, issued) {
      assert PutOk(heads, p, proofs, issued);
      FreshExtends(heads, c, p.view, p.key, issued);
    }
  }

  lemma {:induction false} PreparedExtend(
    heads: seq<Head>, c: Change, prepared: set<Prepared>, proofs: set<Proof>, issued: set<StorageId>)
    requires heads != [] && Allowed(heads[|heads| - 1], c) && PreparedOk(heads, prepared, proofs, issued)
    ensures PreparedOk(heads + [After(heads[|heads| - 1], c)], prepared, proofs, issued)
  {
    var heads' := heads + [After(heads[|heads| - 1], c)];
    forall p | p in prepared ensures CandidateOk(heads', p, proofs, issued) {
      assert CandidateOk(heads, p, proofs, issued);
      FreshExtends(heads, c, p.view, p.commit.key, issued);
    }
  }

  lemma {:induction false} CheckpointsExtend(
    heads: seq<Head>, c: Change, checkpoints: set<PendingCheckpoint>, proofs: set<Proof>, issued: set<StorageId>)
    requires heads != [] && Allowed(heads[|heads| - 1], c) && CheckpointsOk(heads, checkpoints, proofs, issued)
    ensures CheckpointsOk(heads + [After(heads[|heads| - 1], c)], checkpoints, proofs, issued)
  {
    var heads' := heads + [After(heads[|heads| - 1], c)];
    forall p | p in checkpoints ensures PendingOk(heads', p, proofs, issued) {
      assert PendingOk(heads, p, proofs, issued);
      FreshExtends(heads, c, p.view, p.key, issued);
    }
  }

  lemma {:induction false} CasExtend(heads: seq<Head>, c: Change, cas: set<Cas>, born: set<Key>)
    requires heads != [] && Allowed(heads[|heads| - 1], c) && CasSound(heads, cas, born)
    ensures CasSound(heads + [After(heads[|heads| - 1], c)], cas, born)
  {
    var heads' := heads + [After(heads[|heads| - 1], c)];
    forall q | q in cas ensures CasOk(heads', q, born) {
      assert CasOk(heads, q, born);
      CleanExtends(heads, c, q.expected.collectionEpoch, Added(q.change));
    }
  }

  /** The new head reaches only created objects that no plan so far, nor its own, lists. */
  lemma {:induction false} NewHeadOk(heads: seq<Head>, changes: seq<Change>, c: Change, born: set<Key>)
    requires Chain(heads, changes) && Allowed(heads[|heads| - 1], c)
    requires HeadsSound(heads, born) && CasOk(heads, Cas(heads[|heads| - 1], c), born)
    ensures HeadOk(heads + [After(heads[|heads| - 1], c)], After(heads[|heads| - 1], c), born)
  {
    var h, h' := heads[|heads| - 1], After(heads[|heads| - 1], c);
    var heads' := heads + [h'];
    ReachAfter(h, c);
    assert HeadOk(heads, h, born);
    forall g | 0 <= g < |heads'| ensures Reach(h') !! Candidates(heads'[g]) {
      if g < |heads| {
        EpochOrder(heads, changes, g, |heads| - 1);
      } else {
        assert Reach(h) !! Candidates(h) && Added(c) !! Candidates(h);
      }
    }
    assert Clean(heads', h'.collectionEpoch, Reach(h'));
  }

  lemma {:induction false} HeadsExtend(heads: seq<Head>, changes: seq<Change>, c: Change, born: set<Key>)
    requires Chain(heads, changes) && Allowed(heads[|heads| - 1], c)
    requires HeadsSound(heads, born) && CasOk(heads, Cas(heads[|heads| - 1], c), born)
    ensures HeadsSound(heads + [After(heads[|heads| - 1], c)], born)
  {
    var heads' := heads + [After(heads[|heads| - 1], c)];
    forall i | 0 <= i < |heads'| ensures HeadOk(heads', heads'[i], born) {
      if i < |heads| {
        assert HeadOk(heads, heads[i], born);
        CleanExtends(heads, c, heads[i].collectionEpoch, Reach(heads[i]));
      } else {
        NewHeadOk(heads, changes, c, born);
      }
    }
  }

  lemma {:induction false} PlansExtend(s: State, q: Cas)
    requires Chain(s.heads, s.changes) && Enabled(s, Swap(q)) && CasFollow(s.heads, s.cas)
    requires CandidatesBorn(s.heads, s.born) && UploadsOk(s.heads, s.uploads, s.born, s.issued)
    requires InstallsUploaded(s.changes, s.cas, s.uploads, s.born) && ListedPlansOld(s.changes, s.uploads)
    ensures CandidatesBorn(Apply(s, Swap(q)).heads, s.born)
    ensures InstallsUploaded(Apply(s, Swap(q)).changes, s.cas, s.uploads, s.born)
    ensures ListedPlansOld(Apply(s, Swap(q)).changes, s.uploads)
  {
    ChainGeneration(s.heads, s.changes, |s.heads| - 1);
    if q.change.Install? {
      assert UploadOk(s.heads, Upload(q.expected.generation, q.change.plan), s.born, s.issued);
    }
    forall u | u in s.uploads ensures u.view <= |s.changes| {
      assert UploadOk(s.heads, u, s.born, s.issued);
    }
  }

  lemma {:induction false} UploadsExtend(
    heads: seq<Head>, h: Head, uploads: set<Upload>, born: set<Key>, issued: set<StorageId>, deletes: set<Key>)
    requires UploadsOk(heads, uploads, born, issued) && DeletesJustified(heads, uploads, deletes)
    ensures UploadsOk(heads + [h], uploads, born, issued)
    ensures DeletesJustified(heads + [h], uploads, deletes)
  {
    var heads' := heads + [h];
    forall u | u in uploads ensures UploadOk(heads', u, born, issued) {
      assert UploadOk(heads, u, born, issued);
    }
    forall k | k in deletes ensures DeleteJustified(heads', uploads, k) {
      DeleteStaysJustified(heads, h, uploads, k);
    }
  }

  lemma {:induction false} DeleteStaysJustified(heads: seq<Head>, h: Head, uploads: set<Upload>, k: Key)
    requires DeleteJustified(heads, uploads, k)
    ensures DeleteJustified(heads + [h], uploads, k)
  {
    var heads' := heads + [h];
    if exists g | 0 <= g < |heads| :: k in Candidates(heads[g]) {
      var g :| 0 <= g < |heads| && k in Candidates(heads[g]);
      assert heads'[g] == heads[g];
    } else {
      var u :| u in uploads && u.plan.key == k && Abandoned(heads, u);
      var j :| u.view < j < |heads| && heads[j].activePlan != Some(u.plan);
      assert heads'[j] == heads[j];
      assert Abandoned(heads', u);
    }
  }

  lemma {:induction false} OriginsExtend(s: State, q: Cas)
    requires Chain(s.heads, s.changes) && Enabled(s, Swap(q))
    requires Origins(s.heads, s.changes, s.cas, s.prepared, s.checkpoints)
    ensures Origins(Apply(s, Swap(q)).heads, Apply(s, Swap(q)).changes, s.cas, s.prepared, s.checkpoints)
  {
    var s' := Apply(s, Swap(q));
    forall i | 0 <= i < |s'.changes|
      ensures Originates(s'.heads, s'.heads[i], s'.changes[i], s.prepared, s.checkpoints)
    {
      OriginatesMore(s.heads, s'.heads[i], s'.changes[i], s.prepared, s.checkpoints,
                     s'.heads, s.prepared, s.checkpoints);
    }
    forall p | p in s.cas ensures Originates(s'.heads, p.expected, p.change, s.prepared, s.checkpoints) {
      OriginatesMore(s.heads, p.expected, p.change, s.prepared, s.checkpoints,
                     s'.heads, s.prepared, s.checkpoints);
    }
  }

  lemma {:induction false} ClearedExtends(s: State, q: Cas)
    requires Chain(s.heads, s.changes) && Enabled(s, Swap(q))
    requires SeenBorn(s.heads, s.seen, s.born)
    requires ClearedAbsent(s.heads, s.changes, s.cas, s.store) && SeenSpared(s.heads, s.changes, s.seen)
    ensures ClearedAbsent(Apply(s, Swap(q)).heads, Apply(s, Swap(q)).changes, s.cas, s.store)
    ensures SeenSpared(Apply(s, Swap(q)).heads, Apply(s, Swap(q)).changes, s.seen)
    ensures SeenBorn(Apply(s, Swap(q)).heads, s.seen, s.born)
  {
  }

  lemma {:induction false} ErasedExtends(s: State, q: Cas)
    requires Chain(s.heads, s.changes) && Enabled(s, Swap(q))
    requires ErasedFirst(s.heads, s.changes, s.cas, s.gone)
    ensures ErasedFirst(Apply(s, Swap(q)).heads, Apply(s, Swap(q)).changes, s.cas, s.gone)
  {
    var s' := Apply(s, Swap(q));
    forall i | 0 <= i < |s'.changes| && s'.changes[i].Unfence? ensures AllErasedUnder(s'.heads, s'.heads[i], s.gone) {
      MoreErased(s.heads, s'.heads, s.heads[i], s.gone, s.gone);
    }
    forall p | p in s.cas && p.change.Unfence? ensures AllErasedUnder(s'.heads, p.expected, s.gone) {
      MoreErased(s.heads, s'.heads, p.expected, s.gone, s.gone);
    }
  }

  lemma {:induction false} KeepsInvSwap(s: State, q: Cas)
    requires Inv(s) && Enabled(s, Swap(q))
    ensures Inv(Apply(s, Swap(q)))
  {
    assert CasOk(s.heads, q, s.born);
    ChainExtends(s.heads, s.changes, q.change);
    ProofsExtend(s.heads, q.change, s.proofs, s.born);
    PutsExtend(s.heads, q.change, s.puts, s.proofs, s.issued);
    PreparedExtend(s.heads, q.change, s.prepared, s.proofs, s.issued);
    CheckpointsExtend(s.heads, q.change, s.checkpoints, s.proofs, s.issued);
    CasExtend(s.heads, q.change, s.cas, s.born);
    HeadsExtend(s.heads, s.changes, q.change, s.born);
    PlansExtend(s, q);
    UploadsExtend(s.heads, After(q.expected, q.change), s.uploads, s.born, s.issued, s.deletes);
    OriginsExtend(s, q);
    ClearedExtends(s, q);
    ErasedExtends(s, q);
  }

  // ---- Runs ----

  lemma {:induction false} KeepsInv(s: State, e: Event)
    requires Inv(s) && Enabled(s, e)
    ensures Inv(Apply(s, e))
  {
    if e.Swap? {
      KeepsInvSwap(s, e.cas);
    } else {
      KeepsInvQuiet(s, e);
    }
  }

  lemma {:induction false} InitialInv(logId: nat, incarnation: nat, options: Options)
    ensures Inv(Initial(logId, incarnation, options))
  {
  }

  /** The invariant holds after every run, whatever the handles and the storage service do. */
  lemma {:induction false} RunInv(s: State, events: seq<Event>)
    requires Inv(s) && Legal(s, events)
    ensures Inv(Run(s, events))
    decreases |events|
  {
    if events != [] {
      KeepsInv(s, events[0]);
      RunInv(Apply(s, events[0]), events[1..]);
    }
  }

  lemma {:induction false} ReachableInv(s: State)
    requires Reachable(s)
    ensures Inv(s)
  {
    var logId, incarnation, options, events :| IsRun(Initial(logId, incarnation, options), events, s);
    InitialInv(logId, incarnation, options);
    RunInv(Initial(logId, incarnation, options), events);
  }

  lemma {:induction false} ReachableChain(s: State)
    requires Reachable(s)
    ensures Chain(s.heads, s.changes)
  {
    ReachableInv(s);
  }
}
