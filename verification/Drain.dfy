/**
Collection passes of one collector while nobody else acts: the events that starting and finishing
a collection issue, in the order in which they take effect.
*/
module Drain {
  import opened Wrappers
  import opened Words
  import opened Heads
  import opened Protocol
  import opened SwapStep
  import opened Publication
  import opened Completion
  import opened CollectionScan

  /** A state in which a collection can start. */
  ghost predicate Idle(s: State) {
    |s.heads| == |s.changes| + 1 && Current(s).activePlan.None? && Current(s).retentionIds == {}
  }

  // ---- The parts of a pass ----

  /** A listing meets what is there. */
  lemma {:induction false} ListEach(s: State, ks: set<Key>) returns (events: seq<Event>)
    requires s.heads != [] && ks <= s.store
    ensures Legal(s, events)
    ensures var t := Run(s, events);
      t == s.(seen := t.seen) && s.seen <= t.seen && forall k | k in ks :: Sighting(k, Now(s)) in t.seen
    decreases |ks|
  {
    if ks == {} {
      events := [];
    } else {
      var k :| k in ks;
      var e := Observe(k);
      var rest := ListEach(Apply(s, e), ks - {k});
      RunCons(s, e, rest);
      events := [e] + rest;
    }
  }

  /** The plan is uploaded. */
  lemma {:induction false} UploadRun(s: State, plan: PlanRef) returns (events: seq<Event>)
    requires s.heads != [] && Enabled(s, UploadPlan(Now(s), plan))
    ensures Legal(s, events)
    ensures var t := Run(s, events);
      && t.heads == s.heads && t.changes == s.changes
      && t.store == s.store + {plan.key} && plan.key in t.born && Upload(Now(s), plan) in t.uploads
  {
    var e1, e2 := UploadPlan(Now(s), plan), Land(plan.key);
    var s1 := Apply(s, e1);
    RunCons(s1, e2, []);
    RunCons(s, e1, [e2] + []);
    events := [e1] + ([e2] + []);
  }

  /** An uploaded plan is installed. */
  lemma {:induction false} InstallRun(s: State, plan: PlanRef) returns (events: seq<Event>)
    requires s.heads != [] && Enabled(s, AttemptInstall(Upload(Now(s), plan)))
    ensures Legal(s, events)
    ensures var t := Run(s, events);
      && t.heads == s.heads + [AfterInstall(Current(s), plan)] && t.changes == s.changes + [Install(plan)]
      && t.store == s.store && t.born == s.born && t.uploads == s.uploads
  {
    var e1, e2 := AttemptInstall(Upload(Now(s), plan)), Swap(Cas(Current(s), Install(plan)));
    var s1 := Apply(s, e1);
    RunCons(s1, e2, []);
    RunCons(s, e1, [e2] + []);
    events := [e1] + ([e2] + []);
  }

  /** The fence is cleared. */
  lemma {:induction false} UnfenceRun(s: State) returns (events: seq<Event>)
    requires s.heads != [] && Enabled(s, AttemptUnfence(Now(s), Now(s)))
    ensures Legal(s, events)
    ensures var t := Run(s, events);
      && t.heads == s.heads + [AfterUnfence(Current(s))] && t.changes == s.changes + [Unfence]
      && t.store == s.store && t.born == s.born && t.uploads == s.uploads
  {
    var e1, e2 := AttemptUnfence(Now(s), Now(s)), Swap(Cas(Current(s), Unfence));
    var s1 := Apply(s, e1);
    RunCons(s1, e2, []);
    RunCons(s, e1, [e2] + []);
    events := [e1] + ([e2] + []);
  }

  /** The plan object is removed. */
  lemma {:induction false} CleanRun(s: State, upload: Upload) returns (events: seq<Event>)
    requires s.heads != [] && Enabled(s, CleanUp(upload, Now(s)))
    ensures Legal(s, events)
    ensures var t := Run(s, events);
      t.heads == s.heads && t.changes == s.changes && t.store == s.store - {upload.plan.key}
  {
    var e1, e2 := CleanUp(upload, Now(s)), Erase(upload.plan.key);
    var s1 := Apply(s, e1);
    RunCons(s1, e2, []);
    RunCons(s, e1, [e2] + []);
    events := [e1] + ([e2] + []);
  }

  // ---- One pass ----

  /** The collector deletes exactly `ks` and leaves the log as it was, one epoch later. */
  lemma {:induction false} PassRun(s: State, ks: set<Key>, plan: PlanRef) returns (events: seq<Event>)
    requires Idle(s) && ks <= s.store && AllowedInstall(Current(s), plan) && plan.key.body.candidates == ks
    requires plan.key.id !in s.issued && plan.key !in s.store && Current(s).generation + 1 < U64_MAX
    ensures Legal(s, events)
    ensures var t := Run(s, events);
      && Idle(t) && t.store == s.store - ks
      && Current(t) == AfterUnfence(AfterInstall(Current(s), plan))
  {
    assert plan.key.body.Plan?;
    hide Legal, Run, Reach, Enabled, AllowedInstall;
    var start := StartRun(s, plan);
    var finish := FinishRun(Run(s, start), Upload(Now(s), plan));
    RunAppend(s, start, finish);
    events := start + finish;
    assert s.store + {plan.key} - ks - {plan.key} == s.store - ks;
  }

  lemma {:induction false} StartRun(s: State, plan: PlanRef) returns (events: seq<Event>)
    requires Idle(s) && AllowedInstall(Current(s), plan) && plan.key.body.candidates <= s.store
    requires plan.key.id !in s.issued && Current(s).generation < U64_MAX
    ensures Legal(s, events)
    ensures var t := Run(s, events);
      && t.heads == s.heads + [AfterInstall(Current(s), plan)] && t.changes == s.changes + [Install(plan)]
      && t.store == s.store + {plan.key} && plan.key in t.born && Upload(Now(s), plan) in t.uploads
  {
    assert plan.key.body.Plan?;
    hide Legal, Run, Enabled, AllowedInstall;
    var listing := ListEach(s, plan.key.body.candidates);
    MayUpload(s, Run(s, listing), plan);
    var a := Run(s, listing);
    var upload := UploadRun(a, plan);
    MayInstall(Run(a, upload), plan);
    var install := InstallRun(Run(a, upload), plan);
    RunAppend(a, upload, install);
    RunAppend(s, listing, upload + install);
    events := listing + (upload + install);
  }

  lemma {:induction false} FinishRun(s: State, upload: Upload) returns (events: seq<Event>)
    requires |s.heads| == |s.changes| + 1 && Current(s).activePlan == Some(upload.plan) && Current(s).generation < U64_MAX
    requires upload.plan.key.body.Plan? && upload in s.uploads && upload.plan.key in s.born && upload.view <= Now(s)
    ensures Legal(s, events)
    ensures var t := Run(s, events);
      && t.heads == s.heads + [AfterUnfence(Current(s))] && t.changes == s.changes + [Unfence]
      && t.store == s.store - upload.plan.key.body.candidates - {upload.plan.key}
  {
    hide Legal, Run, Enabled;
    var delete, c := ErasedRun(s, upload.plan);
    var clear := UnfenceRun(c);
    var d := Run(c, clear);
    MayCleanUp(d, upload);
    var clean := CleanRun(d, upload);
    RunAppend(c, clear, clean);
    RunAppend(s, delete, clear + clean);
    events := delete + (clear + clean);
  }

  lemma {:induction false} MayUpload(s: State, a: State, plan: PlanRef)
    requires Idle(s) && a == s.(seen := a.seen) && AllowedInstall(Current(s), plan) && plan.key.id !in s.issued
    requires forall k | k in plan.key.body.candidates :: Sighting(k, Now(s)) in a.seen
    ensures Enabled(a, UploadPlan(Now(s), plan))
  {
    hide AllowedInstall;
  }

  lemma {:induction false} MayInstall(s: State, plan: PlanRef)
    requires s.heads != [] && Upload(Now(s), plan) in s.uploads && plan.key in s.born && Current(s).generation < U64_MAX
    ensures Enabled(s, AttemptInstall(Upload(Now(s), plan)))
  {
  }

  lemma {:induction false} ErasedRun(b: State, plan: PlanRef) returns (events: seq<Event>, c: State)
    requires |b.heads| == |b.changes| + 1 && Current(b).activePlan == Some(plan) && Current(b).generation < U64_MAX
    requires plan.key.body.Plan?
    ensures Legal(b, events) && c == Run(b, events)
    ensures c.heads == b.heads && c.changes == b.changes && c.store == b.store - plan.key.body.candidates
    ensures c.uploads == b.uploads && c.born == b.born
    ensures Enabled(c, AttemptUnfence(Now(c), Now(c)))
  {
    hide Legal, Run;
    events := DeleteEach(b, Candidates(Current(b)));
    c := Run(b, events);
    assert forall k | k in Candidates(Current(c)) :: Sighting(k, Now(b)) in c.gone;
  }

  lemma {:induction false} MayCleanUp(d: State, upload: Upload)
    requires d.heads != [] && upload in d.uploads && upload.plan.key in d.born && upload.view < Now(d)
    requires Current(d).activePlan.None?
    ensures Enabled(d, CleanUp(upload, Now(d)))
  {
  }

  // ---- Many passes ----

  /** The order in which storage lists each namespace, with the sizes of its objects. */
  ghost predicate Lister(listing: set<Key> -> seq<Listed>, size: Key -> nat) {
    forall ks: set<Key> :: Shows(listing(ks), map k | k in ks :: size(k))
  }

  /** Plans of up to `limit` candidates are short enough, and there are epochs and generations for `n` more. */
  ghost predicate Affordable(h: Head, limit: nat, planSize: set<Key> -> nat, n: nat) {
    && 0 < limit <= h.options.maxCollectionObjects
    && (forall ks: set<Key> | |ks| <= limit :: planSize(ks) <= h.options.maxCollectionPlanBytes)
    && h.generation + 2 * n < U64_MAX && h.collectionEpoch + n <= U64_MAX
  }

  ghost predicate Spent(before: Head, after: Head, n: nat) {
    && after.options == before.options
    && after.generation <= before.generation + 2 * n && after.collectionEpoch <= before.collectionEpoch + n
  }

  /** A pass plans what the bounded scan selects, and deletes exactly that. */
  lemma {:induction false} OnePass(
    s: State, limit: nat, listing: set<Key> -> seq<Listed>, size: Key -> nat, planSize: set<Key> -> nat)
    returns (events: seq<Event>)
    requires Reachable(s) && Idle(s) && Lister(listing, size) && Affordable(Current(s), limit, planSize, 1)
    ensures Legal(s, events)
    ensures
      var t, live := Run(s, events), Reach(Current(s));
      && Idle(t) && Scan(listing(s.store), live, limit).Ok?
      && t.store == s.store - Scan(listing(s.store), live, limit).value.Keys
      && Reach(Current(t)) == live && Spent(Current(s), Current(t), 1)
  {
    hide Reachable, Reach, Legal, Run, Scan, Shows;
    var h, live := Current(s), Reach(Current(s));
    PassIsExact(listing(s.store), map k | k in s.store :: size(k), live, limit);
    var ks := Scan(listing(s.store), live, limit).value.Keys;
    if ks == {} {
      events := [];
      NoEvents(s);
      assert s.store - ks == s.store;
    } else {
      var plan := PlanRef(Key(Above(s.issued), Plan(h.collectionEpoch + 1, ks)), planSize(ks));
      FreshKey(s, plan.key);
      events := PassRun(s, ks, plan);
      SameReach(h, plan);
    }
  }

  lemma {:induction false} FreshKey(s: State, k: Key)
    requires Reachable(s) && k.id !in s.issued
    ensures k !in s.store
  {
    ReachableInv(s);
  }

  lemma {:induction false} SameReach(h: Head, plan: PlanRef)
    ensures Reach(AfterUnfence(AfterInstall(h, plan))) == Reach(h)
  {
  }

  /**
  The backlog drains: after `n` passes `limit` dead objects fewer remain for each of them, none
  exactly from the ceil(D / limit)-th pass on, and every live object is still there.
  */
  lemma {:induction false} Drains(
    s: State, limit: nat, listing: set<Key> -> seq<Listed>, size: Key -> nat, planSize: set<Key> -> nat, n: nat)
    returns (events: seq<Event>)
    requires Reachable(s) && Idle(s) && Lister(listing, size) && Affordable(Current(s), limit, planSize, n)
    ensures Legal(s, events)
    ensures
      var t, live := Run(s, events), Reach(Current(s));
      && Idle(t) && Reach(Current(t)) == live && t.store * live == s.store * live
      && |Dead(t.store, live)| == Remaining(|Dead(s.store, live)|, limit, n)
      && (t.store <= live <==> n >= PassesNeeded(|Dead(s.store, live)|, limit))
      && Spent(Current(s), Current(t), n)
    decreases n
  {
    hide Reachable, Reach, Legal, Run, Lister, PassesNeeded;
    var live := Reach(Current(s));
    DrainedExactlyThen(|Dead(s.store, live)|, limit, n);
    if n == 0 {
      events := [];
      NoEvents(s);
    } else {
      var earlier := Drains(s, limit, listing, size, planSize, n - 1);
      var t := Run(s, earlier);
      RunIsReachable(s, earlier);
      var pass := OnePass(t, limit, listing, size, planSize);
      RunAppend(s, earlier, pass);
      events := earlier + pass;
      StoreAfter(t.store, listing, size, live, limit, Run(t, pass).store);
    }
    NoneDead(Run(s, events).store, live);
  }

  lemma {:induction false} NoneDead(store: set<Key>, live: set<Key>)
    ensures store <= live <==> |Dead(store, live)| == 0
  {
    assert store <= live <==> forall k | k in store :: k !in Dead(store, live);
  }

  lemma {:induction false} RunIsReachable(s: State, events: seq<Event>)
    requires Reachable(s) && s.heads != [] && Legal(s, events)
    ensures Reachable(Run(s, events))
  {
    hide Reachable, Legal, Run;
    assert IsRun(s, events, Run(s, events));
    ReachableLater(s, Run(s, events));
  }

  lemma {:induction false} StoreAfter(
    before: set<Key>, listing: set<Key> -> seq<Listed>, size: Key -> nat, live: set<Key>, limit: nat, after: set<Key>)
    requires limit > 0 && Lister(listing, size) && Scan(listing(before), live, limit).Ok?
    requires after == before - Scan(listing(before), live, limit).value.Keys
    ensures |Dead(after, live)| == |Dead(before, live)| - Min(|Dead(before, live)|, limit)
    ensures after * live == before * live
  {
    hide Scan, Shows;
    var namespace, plan := map k | k in before :: size(k), Scan(listing(before), live, limit).value.Keys;
    assert forall k :: k in (namespace - plan).Keys <==> k in namespace && k !in plan;
    assert namespace.Keys == before && (namespace - plan).Keys == after;
    PassLeaves(namespace, listing(before), namespace - plan, live, limit);
  }
}
