/**
What a cleared fence says about the objects it condemned. The collection report
`Complete` is documented as "every candidate is absent"; that is so exactly for
plans that list no commit, because a stalled or repeated publication call may
create its commit object again under the same key.
*/
module Completion {
  import opened Wrappers
  import opened Words
  import opened Heads
  import opened Protocol
  import opened Invariants
  import opened SwapStep
  import opened CollectionSafety

  /** The fence that is current in `s` has been cleared in `t`. */
  ghost predicate FenceCleared(s: State, t: State)
    requires s.heads != []
  {
    && |t.heads| == |t.changes| + 1
    && exists i :: |s.changes| <= i < |t.changes| && t.changes[i].Unfence? && t.heads[i].activePlan == Current(s).activePlan
  }

  /** A candidate is deleted while the fence stands. */
  lemma {:induction false} DeleteOne(s: State, k: Key) returns (events: seq<Event>)
    requires s.heads != [] && k in Candidates(Current(s))
    ensures Legal(s, events)
    ensures
      var t := Run(s, events);
      && t.heads == s.heads && t.changes == s.changes && t.prepared == s.prepared && t.gone == s.gone + {Sighting(k, Now(s))}
      && t.store == s.store - {k} && t.born == s.born && t.uploads == s.uploads
  {
    var e1, e2 := DeleteCandidate(Now(s), k), Erase(k);
    var s1 := Apply(s, e1);
    RunCons(s1, e2, []);
    RunCons(s, e1, [e2] + []);
    events := [e1] + ([e2] + []);
  }

  /** One candidate after the other is deleted while the fence stands. */
  lemma {:induction false} DeleteEach(s: State, ks: set<Key>) returns (events: seq<Event>)
    requires s.heads != [] && ks <= Candidates(Current(s))
    ensures Legal(s, events)
    ensures
      var t := Run(s, events);
      && t.heads == s.heads && t.changes == s.changes && t.prepared == s.prepared && s.gone <= t.gone
      && t.store == s.store - ks && t.born == s.born && t.uploads == s.uploads
      && (forall k | k in ks :: Sighting(k, Now(s)) in t.gone)
    decreases |ks|
  {
    hide Legal, Run, Candidates;
    if ks == {} {
      events := [];
      NoEvents(s);
    } else {
      var k :| k in ks;
      var first := DeleteOne(s, k);
      var rest := DeleteEach(Run(s, first), ks - {k});
      RunAppend(s, first, rest);
      events := first + rest;
      assert s.store - {k} - (ks - {k}) == s.store - ks;
    }
  }

  /** The fence is cleared and the prepared commit `p`, which it lists, is present all the same. */
  lemma {:induction false} CommitReturns(s: State, p: Prepared) returns (events: seq<Event>)
    requires |s.heads| == |s.changes| + 1 && Current(s).activePlan.Some? && Current(s).generation < U64_MAX
    requires p in s.prepared && p.commit.key in Candidates(Current(s))
    ensures Legal(s, events)
    ensures FenceCleared(s, Run(s, events)) && p.commit.key in Run(s, events).store
  {
    hide Legal, Run, Candidates;
    var deletes := DeleteEach(s, Candidates(Current(s)));
    var t := Run(s, deletes);
    var n := Now(s);
    assert forall k | k in Candidates(Current(s)) :: ErasedSince(t, k, n);
    var request := RequestBoth(t, p);
    var u := Run(t, request);
    var land := LandBoth(u, p.commit.key, Cas(Current(u), Unfence));
    RunAppend(t, request, land);
    RunAppend(s, deletes, request + land);
    events := deletes + (request + land);
    var v := Run(s, events);
    assert v.changes[|s.changes|].Unfence? && v.heads[|s.changes|] == Current(s);
  }

  /** The collector asks to clear the fence while a publication call creates its commit again. */
  lemma {:induction false} RequestBoth(t: State, p: Prepared) returns (events: seq<Event>)
    requires t.heads != [] && Enabled(t, AttemptUnfence(Now(t), Now(t))) && p in t.prepared
    ensures Legal(t, events)
    ensures Run(t, events).heads == t.heads && Run(t, events).changes == t.changes
    ensures Cas(Current(t), Unfence) in Run(t, events).cas && p.commit.key in Run(t, events).creates
  {
    var e1, e2 := AttemptUnfence(Now(t), Now(t)), CreateCommit(p);
    var t1 := Apply(t, e1);
    RunCons(t1, e2, []);
    RunCons(t, e1, [e2] + []);
    events := [e1] + ([e2] + []);
  }

  lemma {:induction false} LandBoth(t: State, key: Key, cas: Cas) returns (events: seq<Event>)
    requires t.heads != [] && key in t.creates && cas in t.cas && cas.expected == Current(t)
    ensures Legal(t, events)
    ensures Run(t, events).heads == t.heads + [After(cas.expected, cas.change)]
    ensures Run(t, events).changes == t.changes + [cas.change]
    ensures key in Run(t, events).store
  {
    var e1, e2 := Land(key), Swap(cas);
    var t1 := Apply(t, e1);
    RunCons(t1, e2, []);
    RunCons(t, e1, [e2] + []);
    events := [e1] + ([e2] + []);
  }

  lemma {:induction false} ClearedWithoutCommits(s: State, events: seq<Event>)
    requires Reachable(s) && s.heads != [] && Legal(s, events) && FenceCleared(s, Run(s, events))
    requires forall k | k in Candidates(Current(s)) :: !k.body.Commit?
    ensures forall k | k in Candidates(Current(s)) :: k !in Run(s, events).store
  {
    hide Reachable, Run;
    var t := Run(s, events);
    assert IsRun(s, events, t);
    ReachableLater(s, t);
    ReachableErased(t);
    var i :| |s.changes| <= i < |t.changes| && t.changes[i].Unfence? && t.heads[i].activePlan == Current(s).activePlan;
    assert Absent(Candidates(t.heads[i]), t.store);
  }

  /** A commit object that a fence lists was prepared by someone. */
  lemma {:induction false} ListedIsPrepared(s: State, k: Key)
    requires Reachable(s) && s.heads != [] && k in Candidates(Current(s)) && k.body.Commit?
    ensures exists p :: p in s.prepared && p.commit.key == k
  {
    hide Reachable;
    ReachableInv(s);
    assert k in s.born;
  }

  /**
  Whenever a fence is current: every way of clearing it leaves all its candidates absent, for
  good, if and only if the plan lists no commit.
  */
  lemma {:induction false} CompleteMeansAbsent(s: State)
    requires Reachable(s) && s.heads != [] && Current(s).activePlan.Some? && Current(s).generation < U64_MAX
    ensures
      (forall events | Legal(s, events) && FenceCleared(s, Run(s, events)) ::
         forall k | k in Candidates(Current(s)) :: k !in Run(s, events).store)
      <==> (forall k | k in Candidates(Current(s)) :: !k.body.Commit?)
  {
    hide Reachable, Legal, Run, FenceCleared;
    ReachableChain(s);
    if k :| k in Candidates(Current(s)) && k.body.Commit? {
      ListedIsPrepared(s, k);
      var p :| p in s.prepared && p.commit.key == k;
      var events := CommitReturns(s, p);
      assert Legal(s, events) && FenceCleared(s, Run(s, events)) && k in Run(s, events).store;
    } else {
      forall events | Legal(s, events) && FenceCleared(s, Run(s, events))
        ensures forall k | k in Candidates(Current(s)) :: k !in Run(s, events).store
      {
        ClearedWithoutCommits(s, events);
      }
    }
  }

  // ---- A concrete run ----

  const SMALL: Options := Options(1, 1, 1, 1, 1, 1, 1)
  const LATE: CommitRef := CommitRef(0, 7, Key(1, Body.Commit(7, None, [], [])))
  const FENCE: PlanRef := PlanRef(Key(2, Body.Plan(1, {LATE.key})), 1)

  /** A commit is prepared and its object created, but it is not published. */
  lemma {:induction false} PreparedAndCreated() returns (events: seq<Event>)
    ensures Legal(Initial(0, 0, SMALL), events)
    ensures
      var s := Run(Initial(0, 0, SMALL), events);
      && s.heads == [EmptyHead(0, 0, SMALL)] && s.changes == [] && s.creates == multiset{} && s.issued == {1}
      && Prepared(0, LATE) in s.prepared && SeenSince(s, LATE.key, 0) && s.uploads == {} && s.cas == {}
  {
    var e := [Event.Prepare(0, LATE), CreateCommit(Prepared(0, LATE)), Land(LATE.key)];
    var s0 := Initial(0, 0, SMALL);
    var s1 := Apply(s0, e[0]);
    var s2 := Apply(s1, e[1]);
    var s3 := Apply(s2, e[2]);
    assert Sighting(LATE.key, 0) in s3.seen;
    RunCons(s2, e[2], []);
    RunCons(s1, e[1], [e[2]] + []);
    RunCons(s0, e[0], [e[1]] + ([e[2]] + []));
    events := [e[0]] + ([e[1]] + ([e[2]] + []));
  }

  /** A collector lists the unpublished commit object and uploads a plan against it. */
  lemma {:induction false} Planned(s: State) returns (events: seq<Event>)
    requires s.heads == [EmptyHead(0, 0, SMALL)] && s.issued == {1} && SeenSince(s, LATE.key, 0)
    ensures Legal(s, events)
    ensures
      var t := Run(s, events);
      && t.heads == s.heads && t.changes == s.changes && t.prepared == s.prepared
      && Upload(0, FENCE) in t.uploads && FENCE.key in t.born
  {
    var e1, e2 := UploadPlan(0, FENCE), Land(FENCE.key);
    assert Reach(s.heads[0]) == {};
    var s1 := Apply(s, e1);
    RunCons(s1, e2, []);
    RunCons(s, e1, [e2] + []);
    events := [e1] + ([e2] + []);
  }

  lemma {:induction false} Condemned(s: State) returns (events: seq<Event>)
    requires s.heads == [EmptyHead(0, 0, SMALL)] && Upload(0, FENCE) in s.uploads && FENCE.key in s.born
    ensures Legal(s, events)
    ensures
      var t := Run(s, events);
      t.heads == s.heads + [AfterInstall(s.heads[0], FENCE)] && t.prepared == s.prepared
  {
    var e1, e2 := AttemptInstall(Upload(0, FENCE)), Swap(Cas(s.heads[0], Install(FENCE)));
    var s1 := Apply(s, e1);
    RunCons(s1, e2, []);
    RunCons(s, e1, [e2] + []);
    events := [e1] + ([e2] + []);
  }

  /** From an empty log: the fence is cleared, and its only candidate is present. */
  lemma {:induction false} CompleteWithCandidatePresent() returns (s: State, events: seq<Event>)
    ensures Reachable(s) && s.heads != [] && Candidates(Current(s)) == {LATE.key} && Legal(s, events)
    ensures FenceCleared(s, Run(s, events)) && LATE.key in Run(s, events).store
  {
    hide Legal, Run, Reach;
    var start := Initial(0, 0, SMALL);
    var first := PreparedAndCreated();
    var mid := Run(start, first);
    var second := Planned(mid);
    var third := Condemned(Run(mid, second));
    RunAppend(mid, second, third);
    s := Run(mid, second + third);
    RunAppend(start, first, second + third);
    assert IsRun(start, first + (second + third), s);
    ReachableChain(s);
    events := CommitReturns(s, Prepared(0, LATE));
  }
}
