/** Starting, resuming and finishing one collection. */
module CollectionCalls {
  import opened Wrappers
  import opened Words
  import opened Heads
  import opened HeadOrder
  import opened Protocol
  import opened SwapStep
  import opened CollectionSafety
  import opened Publication
  import opened CollectionScan
  import opened LiveGraph

  // ---- Starting ----

  datatype CollectionStart =
    | Installed(view: Head, plan: PlanRef)
    | AlreadyActive(view: Head)
    | Retained(view: Head)
    | Empty
    | StartConflict(view: Head, plan: PlanRef)
    | StartPending
    | StartRefused(error: Error)

  /** The install request on `view` can no longer land. */
  ghost predicate Settled(s: State, view: Head) {
    s.heads != [] && view.generation < Now(s)
  }

  /**
  A head that is named was current at `first` or later. An installed plan condemns nothing that the
  view reaches, and the object of an abandoned one is to be deleted.
  */
  ghost predicate StartSound(s: State, first: nat, view: Head, out: CollectionStart) {
    match out
    case Installed(v, plan) =>
      && first <= v.generation && Observed(s, v) && v.activePlan == Some(plan) && plan.key.body.Plan?
      && plan.key.body.candidates !! Reach(view) && view.generation < v.generation
    case AlreadyActive(v) => v == view && view.activePlan.Some?
    case Retained(v) => v == view && view.retentionIds != {}
    case StartConflict(v, plan) =>
      && first <= v.generation && Observed(s, v) && v.activePlan != Some(plan) && Settled(s, view)
      && plan.key in s.deletes
    case _ => true
  }

  /** What an answer of the scan is worth: an empty one means that nothing dead escaped deletion. */
  ghost predicate Scanned(first: State, s: State, view: Head, found: set<Key>) {
    && found !! Reach(view)
    && (forall k | k in found :: SeenSince(s, k, view.generation))
    && (found == {} ==> first.store <= Reach(view) + s.deletes)
  }

  /**
  The scan missed nothing dead: always when it found less than its limit, as far as the rest of the
  limit covers the entries that are no immutable objects. One such entry, the head, is expected.
  */
  ghost predicate Exhaustive(first: State, s: State, view: Head, found: set<Key>, limit: nat, unknown: nat) {
    |found| < limit && |found| + unknown <= limit ==> first.store <= Reach(view) + found + s.deletes
  }

  /**
  Marks what the view reaches while other handles act. An object that stays is read, one whose
  deletion was requested may be missed. While the epoch of the view is current nothing is missed.
  */
  method MarkReachable(w: World, view: Head, size: Key -> nat) returns (r: Result<set<Key>>)
    requires w.Valid() && Observed(w.s, view)
    modifies w
    ensures w.Valid() && Leads(old(w.s), w.s) && w.faults >= old(w.faults)
    ensures r.Ok? ==> r.value == Reach(view)
    ensures r.Err? ==> w.faults > old(w.faults) || !MarkFits(view, size) || Outdated(w.s, view)
  {
    hide Reach, Reachable, Leads, WellTyped, MarkFits;
    var first := w.s.store;
    w.Interfere();
    LeadsExtends(old(w.s), w.s);
    var fails := w.Fails();
    if fails {
      return Err(StoreFailure);
    }
    var lucky: set<Key> := *;
    var readable := lucky * w.s.born + (first - w.s.deletes);
    PublishedIsTyped(w.s, view.generation);
    r := MarkView(view, readable, size);
    if r.Err? && !Outdated(w.s, view) {
      StaysReadable(old(w.s), w.s, view);
    }
  }

  /** Within its epoch a view was readable all along. */
  lemma {:induction false} StaysReadable(a: State, b: State, view: Head)
    requires Reachable(a) && Leads(a, b) && Observed(a, view) && b.heads != [] && !Outdated(b, view)
    ensures Reach(view) <= a.store && Reach(view) !! b.deletes
  {
    hide Reachable, Leads, Reach;
    ReachableLater(a, b);
    ReachableChain(a);
    ReachableChain(b);
    LeadsExtends(a, b);
    EpochOrder(b.heads, b.changes, view.generation, |a.heads| - 1);
    EpochOrder(b.heads, b.changes, |a.heads| - 1, |b.heads| - 1);
    ViewIsReadable(a, view.generation);
    ViewIsReadable(b, view.generation);
  }

  /**
  Lists the log's objects while other handles act, and scans for at most `limit` of those that
  are not live. `unknown` is the number of listed entries that are no immutable objects.
  */
  method FindCandidates(w: World, view: Head, live: set<Key>, limit: nat, unknown: nat, size: Key -> nat)
    returns (r: Result<set<Key>>)
    requires w.Valid() && Observed(w.s, view) && live == Reach(view) && limit > 0
    modifies w
    ensures w.Valid() && Leads(old(w.s), w.s) && w.faults >= old(w.faults)
    ensures r.Ok? ==> |r.value| <= limit && Scanned(old(w.s), w.s, view, r.value)
    ensures r.Ok? ==> Exhaustive(old(w.s), w.s, view, r.value, limit, unknown)
    ensures r.Err? ==> w.faults > old(w.faults) || (r.error == LimitExceeded && unknown > limit)
  {
    hide Reach, Reachable, Leads, SeenSince, Scan;
    var objects := ListObjects(w, view);
    var fails := w.Fails();
    if fails {
      return Err(StoreFailure);
    }
    var listed := Arrange(objects, unknown, size);
    var found := SelectCandidates(listed, live, limit);
    if found.Err? {
      FailsWhenFlooded(listed, live, limit);
      return Err(found.error);
    }
    FoundIsDead(listed, live, limit, objects);
    r := Ok(found.value.Keys);
  }

  lemma {:induction false} FoundIsDead(listed: seq<Listed>, live: set<Key>, limit: nat, objects: set<Key>)
    requires limit > 0 && Scan(listed, live, limit).Ok? && KeysOf(listed) == objects && DistinctKeys(listed)
    ensures var found := Scan(listed, live, limit).value;
      && |found.Keys| <= limit && found.Keys <= objects - live && (found.Keys == {} ==> objects <= live)
      && (|found.Keys| < limit && |found.Keys| + Unclassified(listed) <= limit ==> objects <= live + found.Keys)
  {
    ScanMissesNothing(listed, live, limit);
    var found := Scan(listed, live, limit).value;
    ScanIsSafe(listed, live, limit, |live| + limit + 1, map[]);
    forall k | k in found ensures k in objects && k !in live {
      assert Listed(Some(k), found[k]) in listed;
    }
    if found.Keys == {} {
      assert found == map[];
      EmptyIsComplete(listed, live, limit, |live| + limit + 1);
      forall k | k in objects ensures k in live {
        var item :| item in listed && item.key == Some(k);
        assert !IsDead(live, item);
      }
    }
  }

  /** The order in which a listing shows objects and unknown entries is arbitrary. */
  method Arrange(objects: set<Key>, unknown: nat, size: Key -> nat) returns (listed: seq<Listed>)
    ensures DistinctKeys(listed) && KeysOf(listed) == objects && Unclassified(listed) == unknown
    ensures forall item | item in listed && item.key.Some? :: item.size == size(item.key.value)
  {
    hide DistinctKeys, KeysOf, Unclassified;
    listed := [];
    NothingListed();
    var todo: set<Key>, left: nat := objects, unknown;
    while todo != {} || left > 0
      invariant todo <= objects && left <= unknown
      invariant DistinctKeys(listed) && KeysOf(listed) == objects - todo && Unclassified(listed) == unknown - left
      invariant forall item | item in listed && item.key.Some? :: item.size == size(item.key.value)
      decreases left, todo
    {
      var choice: bool := *;
      if todo != {} && (choice || left == 0) {
        var k :| k in todo;
        OneMoreListed(listed, Listed(Some(k), size(k)));
        listed, todo := [Listed(Some(k), size(k))] + listed, todo - {k};
      } else {
        OneMoreListed(listed, Listed(None, 0));
        listed, left := [Listed(None, 0)] + listed, left - 1;
      }
    }
  }

  lemma {:induction false} NothingListed()
    ensures DistinctKeys([]) && KeysOf([]) == {} && Unclassified([]) == 0
  {
  }

  lemma {:induction false} OneMoreListed(listed: seq<Listed>, item: Listed)
    requires DistinctKeys(listed) && (item.key.Some? ==> item.key.value !in KeysOf(listed))
    ensures DistinctKeys([item] + listed)
    ensures KeysOf([item] + listed) == KeysOf(listed) + if item.key.Some? then {item.key.value} else {}
    ensures Unclassified([item] + listed) == Unclassified(listed) + if item.key.None? then 1 else 0
  {
    var more := [item] + listed;
    assert more[1..] == listed;
    forall i, j | 0 <= i < j < |more| && more[i].key.Some? && more[j].key.Some? ensures more[i].key != more[j].key {
      assert more[j] == listed[j - 1];
      if i > 0 {
        assert more[i] == listed[i - 1];
      } else {
        assert more[j].key.value in KeysOf(listed);
      }
    }
  }

  /** Everything that was there all along is listed, and whatever is listed was there. */
  method ListObjects(w: World, view: Head) returns (listed: set<Key>)
    requires w.Valid() && Observed(w.s, view)
    modifies w
    ensures w.Valid() && Leads(old(w.s), w.s) && w.faults == old(w.faults)
    ensures forall k | k in listed :: SeenSince(w.s, k, view.generation)
    ensures old(w.s).store <= listed + w.s.deletes
  {
    hide Reachable, Leads, SeenSince;
    listed := {};
    LeadsNowhere(w.s);
    var more: nat := *;
    while more > 0
      invariant w.Valid() && Leads(old(w.s), w.s) && Observed(w.s, view) && w.faults == old(w.faults)
      invariant forall k | k in listed :: SeenSince(w.s, k, view.generation)
    {
      ghost var before := w.s;
      var k := NextListed(w, view);
      StillSeen(before, w.s, listed, view.generation);
      LeadsOn(old(w.s), before, w.s);
      if k.Some? {
        listed := listed + {k.value};
      }
      more := more - 1;
    }
    ghost var middle := w.s;
    var rest := ListRest(w, view);
    StillSeen(middle, w.s, listed, view.generation);
    LeadsOn(old(w.s), middle, w.s);
    NothingVanishes(old(w.s), w.s);
    listed := listed + rest;
  }

  /** What is there now. */
  method ListRest(w: World, view: Head) returns (listed: set<Key>)
    requires w.Valid() && Observed(w.s, view)
    modifies w
    ensures w.Valid() && Leads(old(w.s), w.s) && w.faults == old(w.faults)
    ensures listed == w.s.store && forall k | k in listed :: SeenSince(w.s, k, view.generation)
  {
    hide Reachable, Leads;
    listed := {};
    LeadsNowhere(w.s);
    var todo := w.s.store;
    while todo != {}
      invariant w.Valid() && Leads(old(w.s), w.s) && Observed(w.s, view) && w.faults == old(w.faults)
      invariant todo <= w.s.store && listed == w.s.store - todo
      invariant forall k | k in listed :: SeenSince(w.s, k, view.generation)
      decreases todo
    {
      var k :| k in todo;
      ghost var before := w.s;
      w.Perform(Observe(k));
      LeadsOn(old(w.s), before, w.s);
      StillSeen(before, w.s, listed, view.generation);
      assert Sighting(k, Now(before)) in w.s.seen;
      listed, todo := listed + {k}, todo - {k};
    }
  }

  /** An object that was present is present, or its deletion was requested. */
  lemma {:induction false} NothingVanishes(a: State, b: State)
    requires Reachable(a) && Leads(a, b)
    ensures a.store <= b.store + b.deletes
  {
    hide Reachable, Leads;
    ReachableLater(a, b);
    ReachableGuarded(a);
    ReachableGuarded(b);
    LeadsExtends(a, b);
  }

  /** One entry of a listing that goes on while other handles act. */
  method NextListed(w: World, ghost view: Head) returns (r: Option<Key>)
    requires w.Valid() && Observed(w.s, view)
    modifies w
    ensures w.Valid() && Leads(old(w.s), w.s) && w.faults == old(w.faults)
    ensures Observed(w.s, view) && (r.Some? ==> SeenSince(w.s, r.value, view.generation))
  {
    hide Reachable, Leads;
    w.Interfere();
    LeadsExtends(old(w.s), w.s);
    if w.s.store == {} {
      return None;
    }
    var k: Key :| k in w.s.store;
    ghost var before := w.s;
    w.Perform(Observe(k));
    LeadsOn(old(w.s), before, w.s);
    assert Sighting(k, Now(before)) in w.s.seen;
    r := Some(k);
  }

  method TakeSome(todo: set<Key>, limit: nat) returns (batch: set<Key>)
    ensures batch <= todo && |batch| <= limit && (|batch| == limit || batch == todo)
  {
    batch := {};
    var rest := todo;
    while rest != {} && |batch| < limit
      invariant rest <= todo && batch == todo - rest && |batch| <= limit
      decreases rest
    {
      var k :| k in rest;
      batch, rest := batch + {k}, rest - {k};
    }
  }

  lemma {:induction false} StillSeen(a: State, b: State, ks: set<Key>, generation: nat)
    requires Leads(a, b) && forall k | k in ks :: SeenSince(a, k, generation)
    ensures forall k | k in ks :: SeenSince(b, k, generation)
  {
    LeadsExtends(a, b);
  }

  /** A plan object under a fresh identity; `size` is the length of an encoded plan. */
  method CreatePlan(w: World, view: Head, candidates: set<Key>, size: set<Key> -> nat) returns (r: Result<PlanRef>)
    requires w.Valid() && Observed(w.s, view) && view.activePlan.None? && view.retentionIds == {}
    requires view.collectionEpoch < U64_MAX && candidates != {} && |candidates| <= view.options.maxCollectionObjects
    requires candidates !! Reach(view) && forall k | k in candidates :: SeenSince(w.s, k, view.generation)
    modifies w
    ensures w.Valid() && Leads(old(w.s), w.s) && w.faults >= old(w.faults)
    ensures r.Ok? ==> Upload(view.generation, r.value) in w.s.uploads && r.value.key in w.s.born
    ensures r.Ok? ==> AllowedInstall(view, r.value) && r.value.key.body.candidates == candidates
    ensures r.Err? ==> w.faults > old(w.faults) || (r.error == LimitExceeded && size(candidates) > view.options.maxCollectionPlanBytes)
  {
    hide Reach, Reachable, Leads;
    LeadsNowhere(w.s);
    if size(candidates) > view.options.maxCollectionPlanBytes {
      return Err(LimitExceeded);
    }
    assert Above(w.s.issued) !in w.s.issued;
    var id: StorageId :| id !in w.s.issued;
    var plan := PlanRef(Key(id, Plan(view.collectionEpoch + 1, candidates)), size(candidates));
    w.Perform(UploadPlan(view.generation, plan));
    ghost var issued := w.s;
    w.Interfere();
    LeadsOn(old(w.s), issued, w.s);
    LeadsExtends(issued, w.s);
    var ok := w.AwaitCreate(plan.key);
    r := if ok then Ok(plan) else Err(StoreFailure);
  }

  /**
  Why a collection may not start: storage failed it, the view cannot be marked within the
  limits or is out of date, or another limit was reached.
  */
  ghost predicate StartExcused(
    s: State, view: Head, maxCandidates: nat, unknown: nat, size: Key -> nat, planSize: set<Key> -> nat,
    faulted: bool, out: CollectionStart)
    requires s.heads != []
  {
    match out
    case StartPending => faulted
    case StartRefused(error) =>
      || faulted || !MarkFits(view, size) || Outdated(s, view)
      || (error == LimitExceeded
          && (|| maxCandidates == 0 || maxCandidates > view.options.maxCollectionObjects
              || unknown > maxCandidates
              || view.collectionEpoch >= U64_MAX || view.generation >= U64_MAX
              || PlanTooLong(view, maxCandidates, planSize)))
    case _ => true
  }

  /** Some plan that the scan may come up with is too long. */
  ghost predicate PlanTooLong(view: Head, maxCandidates: nat, planSize: set<Key> -> nat) {
    exists ks: set<Key> ::
      |ks| <= maxCandidates && ks !! Reach(view) && planSize(ks) > view.options.maxCollectionPlanBytes
  }

  /** Condemns what the view cannot reach, in one fence. */
  method StartCollection(
    w: World, view: Head, maxCandidates: nat, unknown: nat, size: Key -> nat, planSize: set<Key> -> nat)
    returns (out: CollectionStart)
    requires w.Valid() && Observed(w.s, view)
    modifies w
    ensures w.Valid() && Leads(old(w.s), w.s)
    ensures StartSound(w.s, Now(old(w.s)), view, out)
    ensures out.Installed? ==>
              var candidates := out.plan.key.body.candidates;
              |candidates| <= maxCandidates && Exhaustive(old(w.s), w.s, view, candidates, maxCandidates, unknown)
    ensures out.Empty? ==> view.activePlan.None? && view.retentionIds == {} && old(w.s).store <= Reach(view) + w.s.deletes
    ensures StartExcused(w.s, view, maxCandidates, unknown, size, planSize, w.faults > old(w.faults), out)
  {
    hide Reach, AllowedInstall, Reachable, Leads, SeenSince, MarkFits, Outdated, Exhaustive;
    LeadsNowhere(w.s);
    if maxCandidates == 0 || maxCandidates > view.options.maxCollectionObjects {
      return StartRefused(LimitExceeded);
    }
    if view.activePlan.Some? {
      return AlreadyActive(view);
    }
    if view.retentionIds != {} {
      return Retained(view);
    }
    var live := MarkReachable(w, view, size);
    if live.Err? {
      return StartRefused(live.error);
    }
    ghost var marked := w.s;
    LeadsExtends(old(w.s), w.s);
    NothingVanishes(old(w.s), w.s);
    var candidates := FindCandidates(w, view, live.value, maxCandidates, unknown, size);
    LeadsOn(old(w.s), marked, w.s);
    LeadsExtends(marked, w.s);
    if candidates.Err? {
      return StartRefused(candidates.error);
    }
    if candidates.value == {} {
      return Empty;
    }
    if view.collectionEpoch >= U64_MAX {
      return StartRefused(LimitExceeded);
    }
    ghost var found := w.s;
    var plan := CreatePlan(w, view, candidates.value, planSize);
    LeadsOn(old(w.s), found, w.s);
    if plan.Err? {
      return StartRefused(plan.error);
    }
    if view.generation >= U64_MAX {
      return StartRefused(LimitExceeded);
    }
    ghost var created := w.s;
    LeadsExtends(found, w.s);
    PlanBody(view, plan.value);
    out := Install(w, view, plan.value);
    LeadsOn(old(w.s), created, w.s);
    LeadsExtends(created, w.s);
    StaysExhaustive(old(w.s), marked, found, w.s, view, candidates.value, maxCandidates, unknown);
  }

  /** What a scan missed was not there before it, nor is it deleted later without a request. */
  lemma {:induction false} StaysExhaustive(
    first: State, marked: State, scanned: State, last: State, view: Head, found: set<Key>, limit: nat, unknown: nat)
    requires Exhaustive(marked, scanned, view, found, limit, unknown)
    requires first.store <= marked.store + marked.deletes && marked.deletes <= scanned.deletes <= last.deletes
    ensures Exhaustive(first, last, view, found, limit, unknown)
  {
    hide Reach;
  }

  lemma {:induction false} PlanBody(view: Head, plan: PlanRef)
    requires AllowedInstall(view, plan)
    ensures plan.key.body.Plan? && plan.key.body.candidates !! Reach(view)
  {
  }

  method Install(w: World, view: Head, plan: PlanRef) returns (out: CollectionStart)
    requires w.Valid() && Observed(w.s, view) && view.generation < U64_MAX && view.activePlan.None?
    requires Upload(view.generation, plan) in w.s.uploads && plan.key in w.s.born
    requires plan.key.body.Plan? && plan.key.body.candidates !! Reach(view)
    modifies w
    ensures w.Valid() && Leads(old(w.s), w.s)
    ensures StartSound(w.s, Now(old(w.s)), view, out) && (out.Installed? ==> out.plan == plan)
    ensures !out.Empty? && w.faults >= old(w.faults)
    ensures !out.StartRefused? && (out.StartPending? ==> w.faults > old(w.faults))
  {
    hide Reach, Reachable, Leads;
    var reply := w.UpdateHead(AttemptInstall(Upload(view.generation, plan)), Cas(view, Change.Install(plan)));
    LeadsExtends(old(w.s), w.s);
    match reply {
      case Updated =>
        LandedIsPublished(w.s, Cas(view, Change.Install(plan)));
        out := Installed(After(view, Change.Install(plan)), plan);
      case Failed =>
        out := StartPending;
      case Rejected =>
        ghost var replied := w.s;
        out := AfterInstallRejected(w, view, plan, old(w.faults));
        LeadsOn(old(w.s), replied, w.s);
    }
  }

  method AfterInstallRejected(w: World, view: Head, plan: PlanRef, ghost before: nat) returns (out: CollectionStart)
    requires w.Valid() && Observed(w.s, view)
    requires w.faults >= before && (Current(w.s) == view ==> w.faults > before)
    requires Upload(view.generation, plan) in w.s.uploads && plan.key in w.s.born
    requires plan.key.body.Plan? && plan.key.body.candidates !! Reach(view) && view.activePlan != Some(plan)
    modifies w
    ensures w.Valid() && Leads(old(w.s), w.s)
    ensures StartSound(w.s, Now(old(w.s)), view, out) && (out.Installed? ==> out.plan == plan)
    ensures !out.Empty? && w.faults >= old(w.faults)
    ensures !out.StartRefused? && (out.StartPending? ==> w.faults > before)
  {
    hide Reach, Reachable, Leads;
    var loaded := w.Load();
    LeadsExtends(old(w.s), w.s);
    if loaded.None? {
      return StartPending;
    }
    var current := loaded.value;
    if current.activePlan == Some(plan) {
      return Installed(current, plan);
    }
    if current == view {
      StillCurrent(old(w.s), w.s, view);
      return StartPending;
    }
    ghost var read := w.s;
    CleanUpPlan(w, Upload(view.generation, plan), current);
    LeadsOn(old(w.s), read, w.s);
    LeadsExtends(read, w.s);
    out := StartConflict(current, plan);
  }

  /** Asks to delete a plan object that some later head does not need; whether that succeeds does not matter. */
  method CleanUpPlan(w: World, upload: Upload, current: Head)
    requires w.Valid() && Observed(w.s, current) && upload in w.s.uploads && upload.plan.key in w.s.born
    requires upload.view < current.generation && current.activePlan != Some(upload.plan)
    modifies w
    ensures w.Valid() && Leads(old(w.s), w.s)
    ensures w.faults == old(w.faults) && upload.plan.key in w.s.deletes
  {
    hide Reachable, Leads;
    w.Perform(CleanUp(upload, current.generation));
    ghost var issued := w.s;
    w.Interfere();
    LeadsOn(old(w.s), issued, w.s);
    LeadsExtends(issued, w.s);
  }

  // ---- Finishing ----

  datatype CollectionFinish =
    | Complete(view: Head)
    | FinishConflict(view: Head)
    | FinishPending
    | FinishRefused(error: Error)

  /** Every candidate of the fence at `loaded` was deleted while that fence stood or later. */
  ghost predicate AllErased(s: State, loaded: Head) {
    forall k | k in Candidates(loaded) :: ErasedSince(s, k, loaded.generation)
  }

  /**
  `Complete` names a published head without the fence of the view, and every candidate of that
  fence, if there was one, was deleted first and the plan object is to follow. `Conflict` names a
  head with another fence, or with the same one after the attempts ran out. Either head was current
  at `first` or later.
  */
  ghost predicate FinishSound(s: State, first: nat, view: Head, out: CollectionFinish) {
    match out
    case Complete(v) =>
      && first <= v.generation && Observed(s, v) && v.activePlan.None? && view.generation <= v.generation
      && (view.activePlan.Some? ==> FenceWasCleared(s, view) && view.activePlan.value.key in s.deletes)
    case FinishConflict(v) =>
      && first <= v.generation && Observed(s, v) && v.activePlan.Some?
      && (v.activePlan != view.activePlan || view.generation + MAX_HEAD_PUBLICATION_ATTEMPTS <= v.generation)
    case _ => true
  }

  /**
  Why a collection may not finish: storage failed it, generations ran out, or another collector
  cleared the fence first and its plan is gone.
  */
  ghost predicate FinishExcused(s: State, view: Head, faulted: bool, out: CollectionFinish)
    requires s.heads != []
  {
    match out
    case FinishPending => faulted
    case FinishRefused(error) =>
      || faulted || (error == LimitExceeded && Now(s) >= U64_MAX)
      || (error == ViewExpired && view.activePlan.Some? && FenceWasCleared(s, view))
    case _ => true
  }

  /** The object of a plan that was ever a fence. */
  lemma {:induction false} FenceUpload(s: State, view: Head) returns (upload: Upload)
    requires Reachable(s) && Observed(s, view) && view.activePlan.Some?
    ensures upload in s.uploads && upload.plan == view.activePlan.value && upload.plan.key in s.born
    ensures upload.view < view.generation
  {
    hide Reachable;
    ReachableGuarded(s);
    var i := InstalledAt(s.heads, s.changes, view.generation);
    upload := Upload(i, view.activePlan.value);
    assert Upload(i, view.activePlan.value) in s.uploads && view.activePlan.value.key in s.born;
  }

  lemma {:induction false} StillErased(a: State, b: State, ks: set<Key>, generation: nat)
    requires Leads(a, b) && forall k | k in ks :: ErasedSince(a, k, generation)
    ensures forall k | k in ks :: ErasedSince(b, k, generation)
  {
    LeadsExtends(a, b);
  }

  lemma {:induction false} StaysObserved(a: State, b: State, h: Head)
    requires Leads(a, b) && Observed(a, h)
    ensures Observed(b, h)
  {
    LeadsExtends(a, b);
  }

  /** One delete request; a confirmed one has landed, and a missing object counts as deleted. */
  method DeleteOne(w: World, loaded: Head, k: Key) returns (ok: bool)
    requires w.Valid() && Observed(w.s, loaded) && k in Candidates(loaded)
    modifies w
    ensures w.Valid() && Leads(old(w.s), w.s) && Observed(w.s, loaded)
    ensures k in w.s.deletes && (ok ==> ErasedSince(w.s, k, loaded.generation))
    ensures w.faults >= old(w.faults) && (!ok ==> w.faults > old(w.faults))
  {
    hide Candidates, Reachable, Leads;
    w.Perform(DeleteCandidate(loaded.generation, k));
    ghost var issued := w.s;
    w.Interfere();
    LeadsOn(old(w.s), issued, w.s);
    LeadsExtends(issued, w.s);
    var fails := w.Fails();
    ok := !fails;
    if ok {
      ghost var waiting := w.s;
      w.Perform(Erase(k));
      LeadsOn(old(w.s), waiting, w.s);
      assert Sighting(k, Now(waiting)) in w.s.gone;
    }
  }

  /** Submits every key of a batch, also after one of them failed. */
  method DeleteBatch(w: World, loaded: Head, batch: set<Key>) returns (ok: bool)
    requires w.Valid() && Observed(w.s, loaded) && batch <= Candidates(loaded)
    modifies w
    ensures w.Valid() && Leads(old(w.s), w.s) && Observed(w.s, loaded)
    ensures batch <= w.s.deletes
    ensures ok ==> forall k | k in batch :: ErasedSince(w.s, k, loaded.generation)
    ensures w.faults >= old(w.faults) && (!ok ==> w.faults > old(w.faults))
  {
    hide Candidates, ErasedSince, Reachable, Leads;
    ok := true;
    LeadsNowhere(w.s);
    var todo := batch;
    while todo != {}
      invariant todo <= batch && w.Valid() && Leads(old(w.s), w.s) && Observed(w.s, loaded)
      invariant batch - todo <= w.s.deletes
      invariant ok ==> forall k | k in batch - todo :: ErasedSince(w.s, k, loaded.generation)
      invariant w.faults >= old(w.faults) && (!ok ==> w.faults > old(w.faults))
      decreases todo
    {
      var k :| k in todo;
      ghost var before := w.s;
      var deleted := DeleteOne(w, loaded, k);
      LeadsOn(old(w.s), before, w.s);
      LeadsExtends(before, w.s);
      if ok { StillErased(before, w.s, batch - todo, loaded.generation); }
      ok, todo := ok && deleted, todo - {k};
    }
  }

  /** Deletes the whole plan, batch after batch, or stops at a batch that failed. */
  method DeleteAll(w: World, loaded: Head) returns (ok: bool)
    requires w.Valid() && Observed(w.s, loaded)
    modifies w
    ensures w.Valid() && Leads(old(w.s), w.s) && Observed(w.s, loaded)
    ensures ok ==> AllErased(w.s, loaded)
    ensures w.faults >= old(w.faults) && (!ok ==> w.faults > old(w.faults))
  {
    hide ErasedSince, Reachable, Leads;
    LeadsNowhere(w.s);
    var all := Candidates(loaded);
    var todo := all;
    while todo != {}
      invariant todo <= all && w.Valid() && Leads(old(w.s), w.s) && Observed(w.s, loaded)
      invariant forall k | k in all - todo :: ErasedSince(w.s, k, loaded.generation)
      invariant w.faults >= old(w.faults)
      decreases todo
    {
      var batch := TakeSome(todo, MAX_DELETE_BATCH);
      ghost var before := w.s;
      var deleted := DeleteBatch(w, loaded, batch);
      LeadsOn(old(w.s), before, w.s);
      if !deleted {
        return false;
      }
      StillErased(before, w.s, all - todo, loaded.generation);
      todo := todo - batch;
    }
    ok := true;
  }

  /** The object of a former fence is deleted once a later head does not need it. */
  method CleanUpFence(w: World, view: Head, current: Head)
    requires w.Valid() && Observed(w.s, view) && Observed(w.s, current) && view.activePlan.Some?
    requires view.generation <= current.generation && current.activePlan != view.activePlan
    modifies w
    ensures w.Valid() && Leads(old(w.s), w.s)
    ensures w.faults == old(w.faults) && view.activePlan.value.key in w.s.deletes
  {
    hide Reachable, Leads;
    ghost var known := FenceUpload(w.s, view);
    var upload :| upload in w.s.uploads && upload.plan == view.activePlan.value
                  && upload.plan.key in w.s.born && upload.view < view.generation;
    CleanUpPlan(w, upload, current);
  }

  datatype ClearRound = Cleared(out: CollectionFinish) | Again(current: Head)

  /** The fence of the view still stands at `current`, and its candidates are gone. */
  ghost predicate Clearing(s: State, view: Head, loaded: Head, current: Head) {
    && Observed(s, view) && Observed(s, loaded) && Observed(s, current)
    && view.generation <= loaded.generation <= current.generation
    && view.activePlan.Some? && view.activePlan == loaded.activePlan == current.activePlan
    && AllErased(s, loaded)
  }

  lemma {:induction false} StaysClearing(a: State, b: State, view: Head, loaded: Head, current: Head)
    requires Leads(a, b) && Clearing(a, view, loaded, current)
    ensures Clearing(b, view, loaded, current)
  {
    hide Candidates, Leads;
    LeadsExtends(a, b);
    StillErased(a, b, Candidates(loaded), loaded.generation);
  }

  method ClearOnce(w: World, view: Head, loaded: Head, current: Head) returns (round: ClearRound)
    requires w.Valid() && Clearing(w.s, view, loaded, current)
    modifies w
    ensures w.Valid() && Leads(old(w.s), w.s)
    ensures round.Cleared? ==> FinishSound(w.s, loaded.generation, view, round.out)
    ensures round.Again? ==> Clearing(w.s, view, loaded, round.current) && round.current.generation > current.generation
    ensures w.faults >= old(w.faults)
    ensures round.Cleared? ==> FinishExcused(w.s, view, w.faults > old(w.faults), round.out)
  {
    hide Reachable, Leads;
    LeadsNowhere(w.s);
    if current.generation >= U64_MAX {
      return Cleared(FinishRefused(LimitExceeded));
    }
    var reply := w.UpdateHead(AttemptUnfence(loaded.generation, current.generation), Cas(current, Unfence));
    StaysClearing(old(w.s), w.s, view, loaded, current);
    ghost var replied := w.s;
    match reply {
      case Updated =>
        LandedIsPublished(w.s, Cas(current, Unfence));
        var next := After(current, Unfence);
        round := FinishWith(w, view, next);
        LeadsOn(old(w.s), replied, w.s);
      case Failed =>
        round := Cleared(FinishPending);
      case Rejected =>
        round := ReloadFence(w, view, loaded, current, old(w.faults));
        LeadsOn(old(w.s), replied, w.s);
    }
  }

  /** The fence is gone from `next`: its object can go, and the collection is complete. */
  method FinishWith(w: World, view: Head, next: Head) returns (round: ClearRound)
    requires w.Valid() && Observed(w.s, view) && Observed(w.s, next) && view.generation <= next.generation
    requires view.activePlan.Some? && next.activePlan.None?
    modifies w
    ensures w.Valid() && Leads(old(w.s), w.s)
    ensures round == Cleared(Complete(next)) && FinishSound(w.s, next.generation, view, round.out) && w.faults == old(w.faults)
  {
    hide Reachable, Leads;
    CleanUpFence(w, view, next);
    StaysObserved(old(w.s), w.s, view);
    StaysObserved(old(w.s), w.s, next);
    FenceLeft(w.s, view, next);
    round := Cleared(Complete(next));
  }

  method ReloadFence(w: World, view: Head, loaded: Head, current: Head, ghost before: nat) returns (round: ClearRound)
    requires w.Valid() && Clearing(w.s, view, loaded, current)
    requires w.faults >= before && (Current(w.s) == current ==> w.faults > before)
    modifies w
    ensures w.Valid() && Leads(old(w.s), w.s)
    ensures round.Cleared? ==> FinishSound(w.s, loaded.generation, view, round.out)
    ensures round.Again? ==> Clearing(w.s, view, loaded, round.current) && round.current.generation > current.generation
    ensures w.faults >= old(w.faults)
    ensures round.Cleared? ==> FinishExcused(w.s, view, w.faults > before, round.out)
  {
    hide Reachable, Leads, AllErased;
    var reloaded := w.Load();
    StaysClearing(old(w.s), w.s, view, loaded, current);
    if reloaded.None? || reloaded.value == current {
      if reloaded.Some? { StillCurrent(old(w.s), w.s, current); }
      return Cleared(FinishPending);
    }
    var next := reloaded.value;
    if next.activePlan.None? {
      ghost var read := w.s;
      round := FinishWith(w, view, next);
      LeadsOn(old(w.s), read, w.s);
      return;
    }
    if next.activePlan != loaded.activePlan {
      return Cleared(FinishConflict(next));
    }
    if next.generation <= current.generation {
      assert false; // "head version changed without a monotonic head change"
    }
    round := ClearRound.Again(next);
  }

  /** Clears the exact fence, on newer heads while they still have it. */
  method ClearPlan(w: World, view: Head, loaded: Head) returns (out: CollectionFinish)
    requires w.Valid() && Clearing(w.s, view, loaded, loaded)
    modifies w
    ensures w.Valid() && Leads(old(w.s), w.s)
    ensures FinishSound(w.s, loaded.generation, view, out)
    ensures w.faults >= old(w.faults) && FinishExcused(w.s, view, w.faults > old(w.faults), out)
  {
    hide Reachable, Leads, AllErased;
    LeadsNowhere(w.s);
    var current, attempt := loaded, 0;
    while true
      invariant attempt < MAX_HEAD_PUBLICATION_ATTEMPTS && w.Valid() && Leads(old(w.s), w.s)
      invariant Clearing(w.s, view, loaded, current)
      invariant w.faults >= old(w.faults) && loaded.generation + attempt <= current.generation
      decreases MAX_HEAD_PUBLICATION_ATTEMPTS - attempt
    {
      ghost var before := w.s;
      var round := ClearOnce(w, view, loaded, current);
      LeadsOn(old(w.s), before, w.s);
      if round.Cleared? {
        return round.out;
      }
      if attempt + 1 == MAX_HEAD_PUBLICATION_ATTEMPTS {
        return FinishConflict(round.current);
      }
      current, attempt := round.current, attempt + 1;
    }
  }

  /** Deletes what the fence of the view condemned and then clears that fence. */
  method ResumeCollection(w: World, view: Head) returns (out: CollectionFinish)
    requires w.Valid() && Observed(w.s, view)
    modifies w
    ensures w.Valid() && Leads(old(w.s), w.s)
    ensures FinishSound(w.s, Now(old(w.s)), view, out)
    ensures FinishExcused(w.s, view, w.faults > old(w.faults), out)
  {
    hide Reachable, Leads, AllErased;
    var loaded := w.Load();
    LeadsExtends(old(w.s), w.s);
    if loaded.None? {
      return FinishRefused(StoreFailure);
    }
    var current := loaded.value;
    ghost var read := w.s;
    if current.activePlan.None? {
      if view.activePlan.Some? {
        var round := FinishWith(w, view, current);
        LeadsOn(old(w.s), read, w.s);
        return round.out;
      }
      return Complete(current);
    }
    if view.activePlan != current.activePlan {
      return FinishConflict(current);
    }
    var plan := ReadPlan(w, current, false);
    LeadsOn(old(w.s), read, w.s);
    StaysObserved(read, w.s, view);
    StaysObserved(read, w.s, current);
    if plan.Err? {
      return FinishRefused(plan.error);
    }
    ghost var planned := w.s;
    var deleted := DeleteAll(w, current);
    LeadsOn(old(w.s), planned, w.s);
    StaysObserved(planned, w.s, view);
    if !deleted {
      return FinishPending;
    }
    ghost var erased := w.s;
    out := ClearPlan(w, view, current);
    LeadsOn(old(w.s), erased, w.s);
  }

  /** After `Complete`, and ever after, no candidate of the view's fence is present except commits. */
  lemma {:induction false} CompleteIsAbsent(s: State, s': State, first: nat, view: Head, v: Head)
    requires Reachable(s) && s.heads != [] && FinishSound(s, first, view, Complete(v)) && view.activePlan.Some?
    requires Leads(s, s')
    ensures forall k | k in Candidates(view) && !k.body.Commit? :: k !in s'.store
  {
    hide Reachable, Leads;
    var i :| 0 <= i < |s.changes| && s.changes[i].Unfence? && s.heads[i].activePlan == view.activePlan;
    ClearedAfterDeletes(s, i, s');
  }
}
