/**
What readers and writers of a log may rely on while collectors run, for every
reachable state of the shared storage.
*/
module CollectionSafety {
  import opened Wrappers
  import opened Heads
  import opened HeadChain
  import opened HeadOrder
  import opened Protocol
  import opened Invariants
  import opened SwapStep

  /** The part of the invariant that explains deletes. */
  ghost predicate Guarded(s: State) {
    && Chain(s.heads, s.changes)
    && Durable(s.store, s.born, s.deletes)
    && UploadsOk(s.heads, s.uploads, s.born, s.issued)
    && InstallsUploaded(s.changes, s.cas, s.uploads, s.born)
    && ListedPlansOld(s.changes, s.uploads)
    && DeletesJustified(s.heads, s.uploads, s.deletes)
  }

  /** A delete names a plan object or a candidate of an installed plan. */
  lemma {:induction false} DeleteTarget(s: State, k: Key)
    requires Guarded(s) && k in s.deletes
    ensures k.body.Plan? || exists g :: 0 <= g < |s.heads| && k in Candidates(s.heads[g])
  {
    assert DeleteJustified(s.heads, s.uploads, k);
    if !(exists g :: 0 <= g < |s.heads| && k in Candidates(s.heads[g])) {
      var u :| u in s.uploads && u.plan.key == k;
      assert UploadOk(s.heads, u, s.born, s.issued);
    }
  }

  /** Created, spared by every plan up to now and no plan object: such a key is present. */
  lemma {:induction false} SparedIsPresent(s: State, epoch: nat, keys: set<Key>)
    requires Guarded(s)
    requires Sound(s.heads, epoch, keys, s.born) && NoPlans(keys)
    requires epoch == Current(s).collectionEpoch
    ensures keys <= s.store && keys !! s.deletes
  {
    forall k | k in keys ensures k !in s.deletes {
      if k in s.deletes {
        DeleteTarget(s, k);
        var g :| 0 <= g < |s.heads| && k in Candidates(s.heads[g]);
        EpochOrder(s.heads, s.changes, g, |s.heads| - 1);
      }
    }
  }

  /**
  Collection safety. In every reachable state, no delete that was ever requested, for any plan
  ever installed, names a key that the current head reaches, and all those keys are present.
  */
  lemma {:induction false} CollectionIsSafe(s: State)
    requires Reachable(s)
    ensures s.heads != []
    ensures Reach(Current(s)) !! s.deletes
    ensures Reach(Current(s)) <= s.store
    ensures forall h | h in s.heads :: Reach(Current(s)) !! Candidates(h)
  {
    ReachableInv(s);
    var n := |s.heads| - 1;
    assert HeadOk(s.heads, s.heads[n], s.born);
    SparedIsPresent(s, Current(s).collectionEpoch, Reach(Current(s)));
    forall h | h in s.heads ensures Reach(Current(s)) !! Candidates(h) {
      var g :| 0 <= g < |s.heads| && s.heads[g] == h;
      EpochOrder(s.heads, s.changes, g, n);
    }
  }

  // ---- Presence within an epoch ----

  /** Every view of the current epoch can still be read completely. */
  lemma {:induction false} ViewIsReadable(s: State, view: nat)
    requires Reachable(s) && view < |s.heads|
    requires s.heads[view].collectionEpoch == Current(s).collectionEpoch
    ensures Reach(s.heads[view]) <= s.store
    ensures Reach(s.heads[view]) !! s.deletes && Reach(s.heads[view]) !! Candidates(s.heads[view])
  {
    hide Reachable;
    ReachableInv(s);
    assert HeadOk(s.heads, s.heads[view], s.born);
    SparedIsPresent(s, s.heads[view].collectionEpoch, Reach(s.heads[view]));
  }

  /**
  Publishing on a proof skips the walk over the graph. While the proof's epoch is current,
  that walk would find every object present and none of them fenced, in any view of the epoch.
  */
  lemma {:induction false} ProofReplacesWalk(s: State, proof: Proof, view: nat)
    requires Reachable(s) && proof in s.proofs && view < |s.heads|
    requires proof.epoch == Current(s).collectionEpoch == s.heads[view].collectionEpoch
    ensures forall k | k in Closure(proof.key) ::
              IsDependency(k) && k in s.store && k !in s.deletes && k !in Candidates(s.heads[view])
  {
    hide Reachable;
    ReachableInv(s);
    assert ProofOk(s.heads, proof, s.born);
    SparedIsPresent(s, proof.epoch, Closure(proof.key));
  }

  /** How a reader reports a key it did not find. */
  function MissingReadError(view: Head, current: Head): Error {
    if current.collectionEpoch > view.collectionEpoch then ViewExpired
    else if current.collectionEpoch == view.collectionEpoch then CorruptObject
    else InvalidFormat
  }

  /**
  A key of a view was missing, and the head was loaded some time later: the report is always
  expiry. Neither corruption nor a head that went back is ever reported.
  */
  lemma {:induction false} MissMeansExpired(s: State, s': State, view: nat, k: Key)
    requires Reachable(s) && Leads(s, s') && view < |s.heads|
    requires k in Reach(s.heads[view]) && k !in s.store
    ensures s'.heads != [] && MissingReadError(s.heads[view], Current(s')) == ViewExpired
  {
    hide Reachable, Leads;
    ReachableLater(s, s');
    ReachableChain(s);
    ReachableChain(s');
    LeadsExtends(s, s');
    EpochOrder(s.heads, s.changes, view, |s.heads| - 1);
    if s.heads[view].collectionEpoch == Current(s).collectionEpoch {
      ViewIsReadable(s, view);
    }
    assert s'.heads[|s.heads| - 1] == Current(s);
    EpochOrder(s'.heads, s'.changes, |s.heads| - 1, |s'.heads| - 1);
  }

  /** A view that has a retention stays readable until an update has ended it, and until the next one then. */
  lemma {:induction false} RetainedViewIsReadable(s: State, view: nat, id: RetentionId)
    requires Reachable(s) && view < |s.heads| && id in s.heads[view].retentionIds
    requires forall k | view <= k < |s.changes| - 1 :: !Ends(s.changes[k], id)
    ensures s.heads[view].collectionEpoch == Current(s).collectionEpoch
    ensures Reach(s.heads[view]) <= s.store
  {
    hide Reachable;
    ReachableChain(s);
    forall k | view <= k < |s.heads| - 1 ensures id in s.heads[k].retentionIds {
      RetentionStays(s.heads, s.changes, id, view, k);
    }
    RetentionHoldsEpoch(s.heads, s.changes, id, view, |s.heads| - 1);
    ViewIsReadable(s, view);
  }

  // ---- Later states ----

  /** What no step takes back. */
  ghost predicate Extends(a: State, b: State) {
    && a.heads <= b.heads
    && a.changes <= b.changes
    && a.cas <= b.cas
    && a.proofs <= b.proofs
    && a.prepared <= b.prepared
    && a.checkpoints <= b.checkpoints
    && a.uploads <= b.uploads
    && a.born <= b.born
    && a.seen <= b.seen
    && a.gone <= b.gone
    && a.deletes <= b.deletes
  }

  lemma {:induction false} StepExtends(s: State, e: Event)
    requires s.heads != [] && Enabled(s, e)
    ensures Extends(s, Apply(s, e))
  {
  }

  lemma {:induction false} ExtendsTransitive(a: State, b: State, c: State)
    requires Extends(a, b) && Extends(b, c)
    ensures Extends(a, c)
  {
  }

  lemma {:induction false} RunExtends(s: State, events: seq<Event>)
    requires s.heads != [] && Legal(s, events)
    ensures Extends(s, Run(s, events))
    decreases |events|
  {
    if events != [] {
      StepExtends(s, events[0]);
      RunExtends(Apply(s, events[0]), events[1..]);
      ExtendsTransitive(s, Apply(s, events[0]), Run(s, events));
    }
  }

  lemma {:induction false} LeadsExtends(a: State, b: State)
    requires Leads(a, b)
    ensures Extends(a, b)
  {
    var events :| IsRun(a, events, b);
    RunExtends(a, events);
  }

  // ---- Versions ----

  /**
  No head content is published twice, so a version derived from the content behaves like a
  fresh counter: an issued update can land exactly while its generation is the current one.
  */
  lemma {:induction false} ContentVersionIsCounter(s: State, q: Cas)
    requires Reachable(s) && s.heads != [] && q in s.cas
    ensures q.expected == Current(s) <==> q.expected.generation == Now(s)
    ensures forall i, j | 0 <= i < j < |s.heads| :: s.heads[i] != s.heads[j]
  {
    hide Reachable;
    ReachableInv(s);
    forall i | 0 <= i < |s.heads| ensures s.heads[i].generation == i {
      ChainGeneration(s.heads, s.changes, i);
    }
  }

  // ---- Plan fences ----

  /** The plan that fences the current head can always be read. */
  lemma {:induction false} FencePlanIsPresent(s: State)
    requires Reachable(s) && s.heads != [] && Current(s).activePlan.Some?
    ensures Current(s).activePlan.value.key in s.store
    ensures Current(s).activePlan.value.key !in s.deletes
  {
    hide Reachable;
    ReachableGuarded(s);
    GuardedPlan(s);
  }

  lemma {:induction false} ReachableGuarded(s: State)
    requires Reachable(s)
    ensures Guarded(s)
  {
    ReachableInv(s);
  }

  lemma {:induction false} GuardedPlan(s: State)
    requires Guarded(s) && Current(s).activePlan.Some?
    ensures Current(s).activePlan.value.key in s.store
    ensures Current(s).activePlan.value.key !in s.deletes
  {
    hide Candidates;
    var n, plan := |s.heads| - 1, Current(s).activePlan.value;
    var i := InstalledAt(s.heads, s.changes, n);
    assert Upload(i, plan) in s.uploads && plan.key in s.born;
    if plan.key in s.deletes {
      assert DeleteJustified(s.heads, s.uploads, plan.key);
      if exists g | 0 <= g < |s.heads| :: plan.key in Candidates(s.heads[g]) {
        var g :| 0 <= g < |s.heads| && plan.key in Candidates(s.heads[g]);
        ListedPlanIsNoFence(s, i, n, g);
      } else {
        var u :| u in s.uploads && u.plan.key == plan.key && Abandoned(s.heads, u);
        var j :| u.view < j < |s.heads| && s.heads[j].activePlan != Some(u.plan);
        assert u == Upload(i, plan);
        PlanIsContinuous(s.heads, s.changes, i + 1, j, n);
      }
    }
  }

  /** The update that installed the plan active at `n`. */
  lemma {:induction false} InstalledAt(heads: seq<Head>, changes: seq<Change>, n: nat) returns (i: nat)
    requires Chain(heads, changes) && n < |heads| && heads[n].activePlan.Some?
    ensures i < n && changes[i] == Install(heads[n].activePlan.value)
    ensures heads[i + 1].activePlan == heads[n].activePlan && heads[i].activePlan.None?
  {
    assert Link(heads, changes, n - 1);
    if changes[n - 1].Install? {
      i := n - 1;
    } else {
      i := InstalledAt(heads, changes, n - 1);
    }
  }

  /** A plan listed by another installed plan is not the current fence. */
  lemma {:induction false} ListedPlanIsNoFence(s: State, i: nat, n: nat, g: nat)
    requires Guarded(s) && i < n == |s.heads| - 1 && g < |s.heads|
    requires s.heads[n].activePlan.Some? && s.changes[i] == Install(s.heads[n].activePlan.value)
    requires s.heads[i + 1].activePlan == s.heads[n].activePlan
    requires Upload(i, s.heads[n].activePlan.value) in s.uploads
    ensures s.heads[n].activePlan.value.key !in Candidates(s.heads[g])
  {
    assert Chain(s.heads, s.changes) && |s.heads| == |s.changes| + 1;
    hide Guarded, Chain, Allowed, After;
    var plan := s.heads[n].activePlan.value;
    if plan.key in Candidates(s.heads[g]) {
      var j := InstalledAt(s.heads, s.changes, g);
      ListedLater(s, Upload(i, plan), j);
      if i < j {
        PlanIsContinuous(s.heads, s.changes, i + 1, j, n);
      }
    }
  }

  /** A plan lists only plans that were uploaded for an older head. */
  lemma {:induction false} ListedLater(s: State, u: Upload, j: nat)
    requires Guarded(s) && u in s.uploads && j < |s.changes| && s.changes[j].Install?
    requires s.changes[j].plan.key.body.Plan? && u.plan.key in s.changes[j].plan.key.body.candidates
    ensures u.view <= j && s.changes[j].plan != u.plan
  {
    assert UploadOk(s.heads, u, s.born, s.issued);
  }

  /** How a reader of `view` reports that the plan it names is missing. */
  function MissingPlanError(view: Head, plan: PlanRef, current: Head): Error {
    if
      && current.generation > view.generation
      && current.activePlan != Some(plan)
      && (|| current.collectionEpoch > view.collectionEpoch
          || (current.collectionEpoch == view.collectionEpoch && current.activePlan.None?))
    then ViewExpired
    else InvalidFormat
  }

  /** Expiry is reported exactly when the current head no longer needs the plan. */
  lemma {:induction false} PlanExpiryIsExact(s: State, view: nat)
    requires Chain(s.heads, s.changes) && view < |s.heads| && s.heads[view].activePlan.Some?
    ensures MissingPlanError(s.heads[view], s.heads[view].activePlan.value, Current(s)) == ViewExpired
            <==> Current(s).activePlan != s.heads[view].activePlan
  {
    ChainGeneration(s.heads, s.changes, view);
    ChainGeneration(s.heads, s.changes, |s.heads| - 1);
    EpochOrder(s.heads, s.changes, view, |s.heads| - 1);
  }

  /** A plan that was missing when it was read is always reported as expiry, never as corruption. */
  lemma {:induction false} MissingPlanMeansExpired(s: State, s': State, view: nat)
    requires Reachable(s) && Leads(s, s') && view < |s.heads| && s.heads[view].activePlan.Some?
    requires s.heads[view].activePlan.value.key !in s.store
    ensures s'.heads != []
    ensures MissingPlanError(s.heads[view], s.heads[view].activePlan.value, Current(s')) == ViewExpired
  {
    hide Reachable, Leads;
    ReachableLater(s, s');
    ReachableChain(s');
    LeadsExtends(s, s');
    if Current(s').activePlan == s.heads[view].activePlan {
      FenceWasCurrent(s, s', view);
      FencePlanIsPresent(s);
    }
    PlanExpiryIsExact(s', view);
  }

  /** A fence seen before and found again later was the current one in between. */
  lemma {:induction false} FenceWasCurrent(s: State, s': State, view: nat)
    requires s.heads != [] && Chain(s'.heads, s'.changes) && Extends(s, s')
    requires view < |s.heads| && s.heads[view].activePlan.Some?
    requires Current(s').activePlan == s.heads[view].activePlan
    ensures Current(s).activePlan == s.heads[view].activePlan
  {
    PlanIsContinuous(s'.heads, s'.changes, view, |s.heads| - 1, |s'.heads| - 1);
  }

  /**
  A fence is cleared only after every candidate was deleted under it. From then on, in every
  later state, no candidate is present again unless it is a commit.
  */
  lemma {:induction false} ClearedAfterDeletes(s: State, i: nat, s': State)
    requires Reachable(s) && i < |s.changes| && i < |s.heads| && s.changes[i].Unfence? && Leads(s, s')
    ensures forall k | k in Candidates(s.heads[i]) :: ErasedUnder(s.heads, s.heads[i].activePlan, k, s.gone)
    ensures forall k | k in Candidates(s.heads[i]) && !k.body.Commit? :: k !in s'.store
  {
    hide Reachable, Leads;
    ReachableErased(s);
    assert AllErasedUnder(s.heads, s.heads[i], s.gone);
    ReachableLater(s, s');
    ReachableErased(s');
    LeadsExtends(s, s');
    assert s'.changes[i].Unfence? && s'.heads[i] == s.heads[i];
    assert Absent(Candidates(s'.heads[i]), s'.store);
  }

  lemma {:induction false} ReachableErased(s: State)
    requires Reachable(s)
    ensures ErasedFirst(s.heads, s.changes, s.cas, s.gone) && ClearedAbsent(s.heads, s.changes, s.cas, s.store)
  {
    ReachableInv(s);
  }
}
