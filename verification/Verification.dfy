/** The checks that a publication makes before it creates its record and updates the head. */
module Verification {
  import opened Wrappers
  import opened Heads
  import opened HeadOrder
  import opened Protocol
  import opened SwapStep
  import opened CollectionSafety
  import opened Publication
  import opened LiveGraph

  // ---- Walking a graph while other handles act ----

  /** While the epoch of the view is current, everything below `ks` is there. */
  ghost predicate Relied(s: State, view: Head, ks: seq<Key>) {
    || Proved(s.proofs, view.collectionEpoch, ks)
    || (ClosureAll(ks) <= Reach(view) && forall k | k in ClosureAll(ks) :: IsDependency(k))
  }

  /** Everything below `ks` is a dependency that was there all along and is not condemned. */
  ghost predicate Lasting(a: State, b: State, view: Head, ks: seq<Key>) {
    forall k | k in ClosureAll(ks) :: IsDependency(k) && k in a.store && k !in b.deletes && k !in Candidates(view)
  }

  lemma {:induction false} ReliedLasts(a: State, b: State, view: Head, ks: seq<Key>)
    requires Reachable(a) && Leads(a, b) && Observed(a, view) && Relied(a, view, ks)
    requires b.heads != [] && !Outdated(b, view)
    ensures Lasting(a, b, view, ks)
  {
    hide Reachable, Leads, Reach, Closure, ClosureAll;
    ReachableLater(a, b);
    ReachableChain(a);
    ReachableChain(b);
    LeadsExtends(a, b);
    EpochOrder(b.heads, b.changes, view.generation, |a.heads| - 1);
    EpochOrder(b.heads, b.changes, |a.heads| - 1, |b.heads| - 1);
    if Proved(a.proofs, view.collectionEpoch, ks) {
      forall k | k in ClosureAll(ks)
        ensures IsDependency(k) && k in a.store && k !in b.deletes && k !in Candidates(view)
      {
        ClosureAllOnly(ks, k);
        var root :| root in ks && k in Closure(root);
        ProofReplacesWalk(a, Proof(view.collectionEpoch, root), view.generation);
        ProofReplacesWalk(b, Proof(view.collectionEpoch, root), view.generation);
      }
    } else {
      ViewIsReadable(a, view.generation);
      ViewIsReadable(b, view.generation);
    }
  }

  /**
  The walk of a verification. Objects that stay are read, ones whose deletion was requested may be
  missed. It fails only with storage, in a later epoch, or at an object that is too long.
  */
  method WalkGraph(w: World, view: Head, ks: seq<Key>, blocked: set<Key>, size: Key -> nat) returns (r: Result<()>)
    requires w.Valid() && Observed(w.s, view) && Relied(w.s, view, ks)
    requires blocked <= Candidates(view) && Admits(view.options, ks)
    modifies w
    ensures w.Valid() && Leads(old(w.s), w.s) && w.faults >= old(w.faults)
    ensures r.Ok? ==> ClosureAll(ks) <= w.s.born && ClosureAll(ks) !! blocked
    ensures r == Err(StoreFailure) ==> w.faults > old(w.faults)
    ensures r.Err? ==>
              w.faults > old(w.faults) || Outdated(w.s, view) || TooLong(ClosureAll(ks), size, view.options)
  {
    hide Reachable, Leads, Reach, ClosureAll, Relied, Candidates, Admits, GraphFits;
    var first := w.s.store;
    w.Interfere();
    LeadsExtends(old(w.s), w.s);
    var fails := w.Fails();
    if fails {
      return Err(StoreFailure);
    }
    var lucky: set<Key> := *;
    var readable := lucky * w.s.born + (first - w.s.deletes);
    var walked := VerifyDependencies(readable, blocked, ks, size, view.options);
    if walked.Err? {
      AdmittedFits(ks, size, view.options);
      if !Outdated(w.s, view) { ReliedLasts(old(w.s), w.s, view, ks); }
      return Err(walked.error);
    }
    StoredIsBorn(old(w.s));
    r := Ok(());
  }

  lemma {:induction false} StoredIsBorn(s: State)
    requires Reachable(s)
    ensures s.store <= s.born
  {
    ReachableInv(s);
  }

  /** Everything below the record was created. */
  ghost predicate Stored(s: State, record: Key) {
    ClosureAll(Named(record)) <= s.born
  }

  lemma {:induction false} StaysStored(a: State, b: State, record: Key)
    requires Extends(a, b) && Stored(a, record)
    ensures Stored(b, record)
  {
    hide ClosureAll;
  }

  // ---- Before a publication ----

  /** The fence of the view was cleared. */
  ghost predicate FenceGone(s: State, view: Head) {
    view.activePlan.Some? && FenceWasCleared(s, view)
  }

  /**
  Why a verification may refuse without a fault of storage: the fence of the view was cleared and
  its plan is gone; or the graph was walked, and a later epoch has begun or an object is too long.
  */
  ghost predicate VerifyRefused(s: State, view: Head, objects: seq<Key>, size: Key -> nat, warm: bool, error: Error)
    requires s.heads != []
  {
    || (error == ViewExpired && FenceGone(s, view))
    || (!warm && (Outdated(s, view) || TooLong(ClosureAll(objects), size, view.options)))
  }

  /**
  Reads the fence of the view and, unless this handle has the proofs itself, walks the graph. A new
  key is never condemned.
  */
  method VerifyPublication(w: World, view: Head, key: Key, objects: seq<Key>, warm: bool, size: Key -> nat)
    returns (r: Result<()>)
    requires w.Valid() && Observed(w.s, view) && key !in Candidates(view)
    requires Proved(w.s.proofs, view.collectionEpoch, objects) && Admits(view.options, objects)
    modifies w
    ensures w.Valid() && Leads(old(w.s), w.s) && w.faults >= old(w.faults)
    ensures r.Ok? && !warm ==> ClosureAll(objects) <= w.s.born && ClosureAll(objects) !! Candidates(view)
    ensures r == Err(StoreFailure) ==> w.faults > old(w.faults)
    ensures r.Err? ==> w.faults > old(w.faults) || VerifyRefused(w.s, view, objects, size, warm, r.error)
  {
    hide Reachable, Leads, Candidates, Admits, ClosureAll, Outdated, FenceWasCleared, TooLong;
    LeadsNowhere(w.s);
    NoFence(view);
    var blocked: set<Key> := {};
    if view.activePlan.Some? {
      var cached: bool := *;
      var plan := ReadPlan(w, view, cached);
      if plan.Err? {
        return Err(plan.error);
      }
      blocked := plan.value;
    }
    if !warm {
      ghost var read := w.s;
      LeadsExtends(old(w.s), w.s);
      var walked := WalkGraph(w, view, objects, blocked, size);
      LeadsOn(old(w.s), read, w.s);
      if walked.Err? {
        return Err(walked.error);
      }
    }
    if key in blocked {
      assert false; // the new key is a candidate of the fence
    }
    r := Ok(());
  }

  lemma {:induction false} NoFence(view: Head)
    ensures view.activePlan.None? ==> Candidates(view) == {}
  {
  }

  // ---- After a publication ----

  /** Why the verification of a published record may fail without a fault of storage. */
  ghost predicate PublishedRefused(s: State, view: Head, key: Key, size: Key -> nat)
    requires s.heads != []
  {
    Outdated(s, view) || TooLong(ClosureAll(Named(key)), size, view.options)
  }

  /** Reads a record that the view names, and walks what it names. */
  method VerifyPublished(w: World, view: Head, key: Key, size: Key -> nat) returns (r: Result<()>)
    requires w.Valid() && Observed(w.s, view) && key in RecordKeys(view)
    modifies w
    ensures w.Valid() && Leads(old(w.s), w.s) && w.faults >= old(w.faults)
    ensures r.Ok? ==> ClosureAll(Named(key)) <= w.s.born
    ensures r == Err(StoreFailure) ==> w.faults > old(w.faults)
    ensures r.Err? ==> w.faults > old(w.faults) || PublishedRefused(w.s, view, key, size)
  {
    hide Reachable, Leads, ClosureAll, Relied, Reach, TooLong, RecordKeys, Admits;
    var present := w.Read(key);
    LeadsExtends(old(w.s), w.s);
    RecordGraph(w.s, view, key);
    if present.Err? {
      return Err(present.error);
    }
    if !present.value {
      MissingIsOutdated(w.s, view, key);
      return Err(InvalidFormat);
    }
    ghost var read := w.s;
    r := WalkGraph(w, view, Named(key), {}, size);
    LeadsOn(old(w.s), read, w.s);
  }

  lemma {:induction false} RecordGraph(s: State, view: Head, key: Key)
    requires Reachable(s) && Observed(s, view) && key in RecordKeys(view)
    ensures key in Reach(view) && Relied(s, view, Named(key)) && Admits(view.options, Named(key))
  {
    hide Reachable, Reach, Closure, ClosureAll, Admits;
    PublishedIsTyped(s, view.generation);
    PublishedIsAdmitted(s, view.generation);
    ViewReach(view);
    RecordNamed(view, key);
  }

  lemma {:induction false} RecordNamed(h: Head, key: Key)
    requires key in RecordKeys(h)
    ensures ClosureAll(Named(key)) <= ClosureAll(RootKeys(h))
    ensures RecordsAdmitted(h) ==> Admits(h.options, Named(key))
  {
    hide ClosureAll, Admits;
    ClosureAllConcat(TailNamed(h.tail), if h.checkpoint.Some? then Named(h.checkpoint.value.key) else []);
    if key in TailKeys(h.tail) {
      var e :| e in h.tail && e.key == key;
      TailNames(h.tail, e);
    }
  }

  lemma {:induction false} TailNames(tail: seq<CommitRef>, e: CommitRef)
    requires e in tail
    ensures ClosureAll(Named(e.key)) <= ClosureAll(TailNamed(tail))
  {
    hide ClosureAll;
    var init, last := tail[..|tail| - 1], tail[|tail| - 1];
    ClosureAllConcat(TailNamed(init), Named(last.key));
    if e != last { TailNames(init, e); }
  }
}
