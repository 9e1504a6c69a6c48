/**
The calls a handle makes, as they run against storage that other handles change
at the same time. Every request a call issues is an event of the protocol, so
each call is also shown to stay within the protocol.
*/
module Publication {
  import opened Wrappers
  import opened Words
  import opened Heads
  import opened HeadChain
  import opened HeadOrder
  import opened Protocol
  import opened SwapStep
  import opened Invariants
  import opened CollectionSafety

  const MAX_HEAD_PUBLICATION_ATTEMPTS: nat := 16
  const MAX_DELETE_BATCH: nat := 1000

  /** What the caller learns about one conditional head update. A rejection proves nothing. */
  datatype Reply = Updated | Rejected | Failed

  /** The update took effect: it led from its expected head to the next one. */
  ghost predicate Landed(s: State, q: Cas) {
    && |s.heads| == |s.changes| + 1
    && q.expected.generation < |s.changes|
    && s.heads[q.expected.generation] == q.expected
    && s.changes[q.expected.generation] == q.change
  }

  /** What a caller may use about any reachable state. */
  lemma {:induction false} Generations(s: State)
    requires Reachable(s)
    ensures |s.heads| == |s.changes| + 1
    ensures forall i | 0 <= i < |s.heads| :: s.heads[i].generation == i
  {
    ReachableInv(s);
    forall i | 0 <= i < |s.heads| ensures s.heads[i].generation == i {
      ChainGeneration(s.heads, s.changes, i);
    }
  }

  /** An update that took effect published the head that it asked for. */
  lemma {:induction false} LandedIsPublished(s: State, q: Cas)
    requires Reachable(s) && Landed(s, q)
    ensures Observed(s, After(q.expected, q.change))
    ensures After(q.expected, q.change).generation == q.expected.generation + 1
  {
    hide Reachable, Allowed, After;
    ReachableChain(s);
    assert Link(s.heads, s.changes, q.expected.generation);
    ChainGeneration(s.heads, s.changes, q.expected.generation + 1);
  }

  /** `h` is a published head. */
  ghost predicate Observed(s: State, h: Head) {
    h.generation < |s.heads| && s.heads[h.generation] == h
  }

  /** Every member is below this, so a fresh identity can always be drawn. */
  ghost function Above(s: set<nat>): (n: nat)
    ensures forall x | x in s :: x < n
    decreases |s|
  {
    if s == {} then 0
    else
      var x :| x in s;
      var n := Above(s - {x});
      assert forall y | y in s :: y == x || y in s - {x};
      if x < n then n else x + 1
  }

  // ---- What became of a view ----

  /** A later epoch has begun. */
  ghost predicate Outdated(s: State, view: Head)
    requires s.heads != []
  {
    view.collectionEpoch < Current(s).collectionEpoch
  }

  /** The fence of the view has been cleared by an update that waited for all its deletes. */
  ghost predicate FenceWasCleared(s: State, view: Head) {
    && |s.heads| == |s.changes| + 1
    && exists i :: 0 <= i < |s.changes| && s.changes[i].Unfence? && s.heads[i].activePlan == view.activePlan
  }

  /** A head without the fence of an older one: the fence was cleared in between. */
  lemma {:induction false} FenceLeft(s: State, view: Head, current: Head)
    requires Reachable(s) && Observed(s, view) && Observed(s, current) && view.generation <= current.generation
    requires view.activePlan.Some? && current.activePlan != view.activePlan
    ensures FenceWasCleared(s, view)
    decreases current.generation - view.generation
  {
    hide Reachable;
    ReachableChain(s);
    var i := ClearedBetween(s.heads, s.changes, view.generation, current.generation);
    assert s.changes[i].Unfence?;
  }

  lemma {:induction false} StaysOutdated(a: State, b: State, view: Head)
    requires Reachable(a) && Leads(a, b) && a.heads != [] && b.heads != [] && Outdated(a, view)
    ensures Outdated(b, view)
  {
    hide Reachable, Leads;
    ReachableLater(a, b);
    ReachableChain(b);
    LeadsExtends(a, b);
    EpochOrder(b.heads, b.changes, |a.heads| - 1, |b.heads| - 1);
  }

  /** What a view reaches is missing only if a later epoch has begun. */
  lemma {:induction false} MissingIsOutdated(s: State, view: Head, k: Key)
    requires Reachable(s) && s.heads != [] && Observed(s, view) && k in Reach(view) && k !in s.store
    ensures Outdated(s, view)
  {
    hide Reachable, Reach;
    ReachableChain(s);
    EpochOrder(s.heads, s.changes, view.generation, |s.heads| - 1);
    if !Outdated(s, view) { ViewIsReadable(s, view.generation); }
  }

  /** So is a record that was created for a head and has been deleted. */
  lemma {:induction false} ErasedIsOutdated(s: State, view: nat, k: Key)
    requires Reachable(s) && s.heads != [] && k in s.born && k !in s.store && !k.body.Plan?
    requires view < |s.heads| && Clean(s.heads, s.heads[view].collectionEpoch, {k})
    ensures Outdated(s, s.heads[view])
  {
    hide Reachable;
    ReachableGuarded(s);
    DeleteTarget(s, k);
    var g :| 0 <= g < |s.heads| && k in Candidates(s.heads[g]);
    assert s.heads[g].collectionEpoch > s.heads[view].collectionEpoch;
    EpochOrder(s.heads, s.changes, g, |s.heads| - 1);
  }

  lemma {:induction false} DeletedIsOutdated(s: State, p: Prepared)
    requires Reachable(s) && s.heads != [] && p in s.prepared && p.commit.key in s.born && p.commit.key !in s.store
    ensures p.view < |s.heads| && Outdated(s, s.heads[p.view])
  {
    hide Reachable;
    ReachableInv(s);
    assert CandidateOk(s.heads, p, s.proofs, s.issued);
    ErasedIsOutdated(s, p.view, p.commit.key);
  }

  /** The shared storage together with all the other handles. */
  class World {
    var s: State
    /** How often a read or a request failed this handle, or an update was rejected for no reason. */
    var faults: nat

    ghost predicate Valid()
      reads this
    {
      Reachable(s) && s.heads != []
    }

    method Perform(e: Event)
      requires Valid() && Enabled(s, e)
      modifies this
      ensures Valid() && s == Apply(old(s), e) && Leads(old(s), s) && faults == old(faults)
    {
      LeadsStep(s, e);
      ReachableLater(s, Apply(s, e));
      s := Apply(s, e);
    }

    /** Other handles act and requests land, any number of times. */
    method Interfere()
      requires Valid()
      modifies this
      ensures Valid() && Leads(old(s), s) && faults == old(faults)
    {
      LeadsNowhere(s);
      var steps: nat := *;
      while steps > 0
        invariant Valid() && Leads(old(s), s) && faults == old(faults)
      {
        var e: Event := *;
        if Enabled(s, e) {
          ghost var before := s;
          Perform(e);
          LeadsOn(old(s), before, s);
        }
        steps := steps - 1;
      }
    }

    /** A request or a read fails now and then. */
    method Fails() returns (fails: bool)
      modifies this`faults
      ensures faults == if fails then old(faults) + 1 else old(faults)
    {
      fails := *;
      if fails {
        faults := faults + 1;
      }
    }

    /** Reads the head, or fails. */
    method Load() returns (r: Option<Head>)
      requires Valid()
      modifies this
      ensures Valid() && Leads(old(s), s)
      ensures r.Some? ==> r.value == Current(s) && r.value.generation == Now(s) && faults == old(faults)
      ensures r.None? ==> faults > old(faults)
    {
      Interfere();
      Generations(s);
      var fails := Fails();
      r := if fails then None else Some(Current(s));
    }

    /** Issues a head update and waits for a reply; success is reported only for an update that landed since. */
    method UpdateHead(e: Event, q: Cas) returns (reply: Reply)
      requires Valid() && Enabled(s, e) && Apply(s, e) == s.(cas := s.cas + {q})
      modifies this
      ensures Valid() && Leads(old(s), s) && q in s.cas
      ensures reply.Updated? ==> Landed(s, q) && Now(old(s)) <= q.expected.generation
      ensures faults >= old(faults) && (reply.Failed? ==> faults > old(faults))
      ensures reply.Rejected? && Current(s) == q.expected ==> faults > old(faults)
    {
      hide Reachable, Leads, Enabled;
      var first := Now(s);
      Perform(e);
      ghost var issued := s;
      Interfere();
      LeadsOn(old(s), issued, s);
      LeadsExtends(issued, s);
      Generations(s);
      reply := *;
      var i := q.expected.generation;
      if reply.Updated? && !(first <= i < |s.changes| && s.heads[i] == q.expected && s.changes[i] == q.change) {
        reply := Failed;
      }
      if reply.Failed? || (reply.Rejected? && Current(s) == q.expected) {
        faults := faults + 1;
      }
    }

    /** Reads an immutable object: it is there, or it is missing. */
    method Read(key: Key) returns (r: Result<bool>)
      requires Valid()
      modifies this
      ensures Valid() && Leads(old(s), s)
      ensures r.Ok? ==> r.value == (key in s.store) && faults == old(faults)
      ensures r.Err? ==> r.error == StoreFailure && faults > old(faults)
    {
      Interfere();
      var fails := Fails();
      r := if fails then Err(StoreFailure) else Ok(key in s.store);
    }

    /**
    Creates the commit object, or finds it already there. When the key is in use and the object
    is deleted before it is read, a later epoch has begun.
    */
    method EnsureCommit(p: Prepared) returns (r: Result<()>)
      requires Valid() && p in s.prepared && p.view < |s.heads|
      modifies this
      ensures Valid() && Leads(old(s), s) && p.view < |s.heads| && s.heads[p.view] == old(s).heads[p.view]
      ensures r.Ok? ==> p.commit.key in s.born
      ensures faults >= old(faults)
      ensures r.Err? ==> faults > old(faults) || (r.error == InvalidFormat && Outdated(s, s.heads[p.view]))
    {
      hide Reachable, Leads;
      Perform(CreateCommit(p));
      ghost var issued := s;
      Interfere();
      LeadsOn(old(s), issued, s);
      LeadsExtends(old(s), s);
      var created: bool := *;
      if created && p.commit.key in s.born {
        return Ok(());
      }
      var inUse: bool := *;
      var refused := inUse && p.commit.key in s.born;
      if !refused {
        faults := faults + 1;
      }
      ghost var replied := s;
      var found := Read(p.commit.key);
      LeadsOn(old(s), replied, s);
      LeadsExtends(replied, s);
      if found.Err? {
        return Err(found.error);
      }
      if found.value {
        PresentIsBorn(s, p.commit.key);
        return Ok(());
      }
      if refused { DeletedIsOutdated(s, p); }
      r := Err(if refused then InvalidFormat else StoreFailure);
    }

    /** The reply to a create request, or to the read that follows it. */
    method AwaitCreate(key: Key) returns (ok: bool)
      modifies this`faults
      ensures ok ==> key in s.born
      ensures faults >= old(faults) && (!ok ==> faults > old(faults))
    {
      var fails := Fails();
      ok := !fails && key in s.born;
      if !fails && !ok {
        faults := faults + 1;
      }
    }
  }

  lemma {:induction false} PresentIsBorn(s: State, k: Key)
    requires Reachable(s) && k in s.store
    ensures k in s.born
  {
    ReachableInv(s);
  }

  /** Tells an expired view from a corrupt one by the current head. */
  method MissingRead(w: World, view: Head) returns (error: Error)
    requires w.Valid()
    modifies w
    ensures w.Valid() && Leads(old(w.s), w.s) && w.faults >= old(w.faults)
    ensures error == StoreFailure ==> w.faults > old(w.faults)
    ensures error != StoreFailure ==> error == MissingReadError(view, Current(w.s))
    ensures error != StoreFailure && Observed(old(w.s), view) ==>
              error == if Outdated(w.s, view) then ViewExpired else CorruptObject
    ensures old(Outdated(w.s, view)) ==> Outdated(w.s, view)
  {
    hide Reachable, Leads;
    var loaded := w.Load();
    if Outdated(old(w.s), view) { StaysOutdated(old(w.s), w.s, view); }
    if loaded.None? {
      return StoreFailure;
    }
    LeadsExtends(old(w.s), w.s);
    if Observed(old(w.s), view) { EpochsGrow(w.s, view); }
    error := MissingReadError(view, loaded.value);
  }

  lemma {:induction false} EpochsGrow(s: State, view: Head)
    requires Reachable(s) && s.heads != [] && Observed(s, view)
    ensures view.collectionEpoch <= Current(s).collectionEpoch
  {
    hide Reachable;
    ReachableChain(s);
    EpochOrder(s.heads, s.changes, view.generation, |s.heads| - 1);
  }

  /**
  The candidates of the fence of a view, read unless the view already has them. A plan object that
  is missing belonged to a fence that was cleared.
  */
  method ReadPlan(w: World, view: Head, cached: bool) returns (r: Result<set<Key>>)
    requires w.Valid() && Observed(w.s, view) && view.activePlan.Some?
    modifies w
    ensures w.Valid() && Leads(old(w.s), w.s) && w.faults >= old(w.faults)
    ensures r.Ok? ==> r.value == Candidates(view)
    ensures r.Err? ==> w.faults > old(w.faults) || (r.error == ViewExpired && FenceWasCleared(w.s, view))
  {
    hide Reachable, Leads, Candidates;
    LeadsNowhere(w.s);
    if cached {
      return Ok(Candidates(view));
    }
    var plan := view.activePlan.value;
    var present := w.Read(plan.key);
    LeadsExtends(old(w.s), w.s);
    if present.Err? {
      return Err(present.error);
    }
    if present.value {
      return Ok(Candidates(view));
    }
    ghost var missed := w.s;
    var loaded := w.Load();
    LeadsOn(old(w.s), missed, w.s);
    LeadsExtends(missed, w.s);
    if loaded.None? {
      return Err(StoreFailure);
    }
    MissingPlanMeansExpired(missed, w.s, view.generation);
    ExpiredFence(w.s, view, loaded.value);
    r := Err(MissingPlanError(view, plan, loaded.value));
  }

  lemma {:induction false} ExpiredFence(s: State, view: Head, current: Head)
    requires Reachable(s) && Observed(s, view) && Observed(s, current) && view.activePlan.Some?
    requires MissingPlanError(view, view.activePlan.value, current) == ViewExpired
    ensures FenceWasCleared(s, view)
  {
    hide Reachable;
    FenceLeft(s, view, current);
  }

  // ---- The publication loop ----

  /** What is being published, with the head it was prepared for. */
  datatype Job = CommitJob(prepared: Prepared) | CheckpointJob(pending: PendingCheckpoint)

  function View(job: Job): nat {
    match job case CommitJob(p) => p.view case CheckpointJob(p) => p.view
  }

  function ChangeOf(job: Job): Change {
    match job case CommitJob(p) => Append(p.commit) case CheckpointJob(p) => Compact(p.through, p.key)
  }

  function Attempt(job: Job, view: nat): Event {
    match job case CommitJob(p) => AttemptCommit(p, view) case CheckpointJob(p) => AttemptCheckpoint(p, view)
  }

  predicate Compatible(job: Job, a: Head, b: Head) {
    match job
    case CommitJob(_) => SamePublicationBase(a, b)
    case CheckpointJob(_) => CheckpointAppendBase(a, b)
  }

  /** The immutable object is durable and the evidence is known to the protocol. */
  ghost predicate Ready(s: State, job: Job) {
    && View(job) < |s.heads|
    && match job
       case CommitJob(p) => p in s.prepared && p.commit.key in s.born
       case CheckpointJob(p) => p in s.checkpoints && p.key in s.born
  }

  /** The job, a source and a later head that the job may be published on. */
  ghost predicate Standing(s: State, job: Job, source: Head, view: Head) {
    && Ready(s, job)
    && Observed(s, source) && Observed(s, view)
    && source.generation <= view.generation
    && Compatible(job, s.heads[View(job)], source)
    && Compatible(job, source, view)
  }

  lemma {:induction false} StaysStanding(a: State, b: State, job: Job, source: Head, view: Head)
    requires Leads(a, b) && Standing(a, job, source, view)
    ensures Standing(b, job, source, view)
  {
    LeadsExtends(a, b);
  }

  lemma {:induction false} MovesOn(s: State, job: Job, source: Head, view: Head, current: Head)
    requires s.heads != [] && Standing(s, job, source, view)
    requires current == Current(s) && current.generation == Now(s) && Compatible(job, source, current)
    requires source.generation <= current.generation
    ensures Standing(s, job, source, current)
  {
  }

  lemma {:induction false} CompatibleTransitive(job: Job, a: Head, b: Head, c: Head)
    requires Compatible(job, a, b) && Compatible(job, b, c)
    ensures Compatible(job, a, c)
  {
    if job.CheckpointJob? { AppendBaseTransitive(a, b, c); }
  }

  datatype HeadPublication =
    | Done(view: Head)
    | Changed(current: Head, attemptedGeneration: nat)
    | Contended(current: Head)
    | Unresolved
    | Refused(error: Error)

  /** The attempts made so far, all for this job and all on heads older than `generation`. */
  ghost predicate Tried(s: State, job: Job, mine: set<Cas>, generation: nat) {
    && mine <= s.cas
    && forall q | q in mine :: q.change == ChangeOf(job) && q.expected.generation < generation
  }

  /** What each outcome promises about the shared state and the attempts that led to it. */
  ghost predicate Promised(s: State, job: Job, source: Head, mine: set<Cas>, out: HeadPublication)
    requires s.heads != []
  {
    && mine <= s.cas
    && match out
       case Done(view) => exists q :: q in mine && q.change == ChangeOf(job) && Landed(s, q) && view == After(q.expected, q.change)
       case Changed(current, g) =>
         && current == Current(s) && !Compatible(job, source, current)
         && source.generation <= g < Now(s) && Compatible(job, source, s.heads[g])
         && Tried(s, job, mine, g + 1) && exists q :: q in mine && q.expected.generation == g
       case Contended(current) =>
         && current == Current(s) && Compatible(job, source, current)
         && source.generation + MAX_HEAD_PUBLICATION_ATTEMPTS <= Now(s)
         && Tried(s, job, mine, Now(s))
       case Refused(error) => error == LimitExceeded && Now(s) >= U64_MAX
       case Unresolved => true
  }

  datatype Round = Stop(out: HeadPublication) | Again(current: Head)

  /** One conditional update, and the reload that follows a rejection. */
  method PublishOnce(w: World, source: Head, view: Head, job: Job, ghost tried: set<Cas>)
    returns (round: Round, ghost mine: set<Cas>)
    requires w.Valid() && Standing(w.s, job, source, view)
    requires Tried(w.s, job, tried, view.generation)
    modifies w
    ensures w.Valid() && Leads(old(w.s), w.s)
    ensures round.Stop? ==> !round.out.Contended? && Promised(w.s, job, source, mine, round.out)
    ensures round.Again? ==> Newer(w.s, job, source, view, mine, round.current)
    ensures w.faults >= old(w.faults) && (round.Stop? && round.out.Unresolved? ==> w.faults > old(w.faults))
  {
    hide Reachable, Leads, SamePublicationBase, CheckpointAppendBase;
    mine := tried;
    LeadsNowhere(w.s);
    if view.generation >= U64_MAX {
      return Stop(Refused(LimitExceeded)), mine;
    }
    var q := Cas(view, ChangeOf(job));
    AttemptEnabled(w.s, job, source, view);
    var reply := w.UpdateHead(Attempt(job, view.generation), q);
    mine := mine + {q};
    StillTried(old(w.s), w.s, job, tried, q);
    match reply {
      case Updated =>
        round := Stop(Done(After(view, ChangeOf(job))));
      case Failed =>
        round := Stop(Unresolved);
      case Rejected =>
        ghost var replied := w.s;
        StaysStanding(old(w.s), w.s, job, source, view);
        round := Reload(w, source, view, job, mine, old(w.faults));
        LeadsOn(old(w.s), replied, w.s);
    }
  }

  /** A compatible head, newer than `view` and than every attempt. */
  ghost predicate Newer(s: State, job: Job, source: Head, view: Head, mine: set<Cas>, current: Head)
    requires s.heads != []
  {
    && current == Current(s) && current.generation == Now(s) > view.generation
    && Compatible(job, source, current)
    && Tried(s, job, mine, Now(s))
  }

  /** After a rejection the head decides: give up, leave it open, or try again on it. */
  method Reload(w: World, source: Head, view: Head, job: Job, ghost mine: set<Cas>, ghost before: nat)
    returns (round: Round)
    requires w.Valid() && Standing(w.s, job, source, view)
    requires Tried(w.s, job, mine, view.generation + 1) && Cas(view, ChangeOf(job)) in mine
    requires w.faults >= before && (Current(w.s) == view ==> w.faults > before)
    modifies w
    ensures w.Valid() && Leads(old(w.s), w.s)
    ensures round.Stop? ==> !round.out.Contended? && Promised(w.s, job, source, mine, round.out)
    ensures round.Again? ==> Newer(w.s, job, source, view, mine, round.current)
    ensures w.faults >= old(w.faults) && (round.Stop? && round.out.Unresolved? ==> w.faults > before)
  {
    hide Reachable, Leads, SamePublicationBase, CheckpointAppendBase;
    var reloaded := w.Load();
    LeadsExtends(old(w.s), w.s);
    if reloaded.None? {
      return Stop(Unresolved);
    }
    var current := reloaded.value;
    if !Compatible(job, source, current) {
      ViewIsOlder(w.s, job, source, view);
      assert Cas(view, ChangeOf(job)).expected.generation == view.generation;
      return Stop(Changed(current, view.generation));
    }
    if current == view {
      StillCurrent(old(w.s), w.s, view);
      return Stop(Unresolved);
    }
    if current.generation <= view.generation {
      assert false; // "head version changed without a monotonic head change"
    }
    round := Again(current);
  }

  /** A head that is current was current ever since it was published. */
  lemma {:induction false} StillCurrent(a: State, b: State, h: Head)
    requires Leads(a, b) && Observed(a, h) && b.heads != [] && h == Current(b) && h.generation == Now(b)
    ensures a.heads != [] && Current(a) == h
  {
    LeadsExtends(a, b);
  }

  lemma {:induction false} AttemptEnabled(s: State, job: Job, source: Head, view: Head)
    requires s.heads != [] && Standing(s, job, source, view) && view.generation < U64_MAX
    ensures Enabled(s, Attempt(job, view.generation))
    ensures Apply(s, Attempt(job, view.generation)) == s.(cas := s.cas + {Cas(view, ChangeOf(job))})
  {
    CompatibleTransitive(job, s.heads[View(job)], source, view);
  }

  lemma {:induction false} StillTried(a: State, b: State, job: Job, tried: set<Cas>, q: Cas)
    requires Leads(a, b) && q in b.cas && q.change == ChangeOf(job)
    requires Tried(a, job, tried, q.expected.generation)
    ensures Tried(b, job, tried + {q}, q.expected.generation + 1)
  {
    LeadsExtends(a, b);
  }

  lemma {:induction false} ViewIsOlder(s: State, job: Job, source: Head, view: Head)
    requires s.heads != [] && Observed(s, view)
    requires Compatible(job, source, view) && !Compatible(job, source, Current(s))
    ensures view.generation < Now(s)
  {
  }

  /** Publishes on the source head and, while the head stays compatible, on newer ones. */
  method PublishHeadCompatible(w: World, source: Head, job: Job) returns (out: HeadPublication, ghost mine: set<Cas>)
    requires w.Valid() && Standing(w.s, job, source, source)
    modifies w
    ensures w.Valid() && Leads(old(w.s), w.s)
    ensures Promised(w.s, job, source, mine, out)
    ensures w.faults >= old(w.faults) && (out.Unresolved? ==> w.faults > old(w.faults))
  {
    hide Reachable, Leads;
    mine := {};
    LeadsNowhere(w.s);
    var view := source;
    var attempt := 0;
    while true
      invariant attempt < MAX_HEAD_PUBLICATION_ATTEMPTS
      invariant w.Valid() && Leads(old(w.s), w.s)
      invariant Standing(w.s, job, source, view)
      invariant Tried(w.s, job, mine, view.generation)
      invariant w.faults >= old(w.faults) && view.generation >= source.generation + attempt
      decreases MAX_HEAD_PUBLICATION_ATTEMPTS - attempt
    {
      ghost var before := w.s;
      var round;
      round, mine := PublishOnce(w, source, view, job, mine);
      LeadsOn(old(w.s), before, w.s);
      if round.Stop? {
        return round.out, mine;
      }
      if attempt + 1 == MAX_HEAD_PUBLICATION_ATTEMPTS {
        return Contended(round.current), mine;
      }
      StaysStanding(before, w.s, job, source, view);
      MovesOn(w.s, job, source, view, round.current);
      view := round.current;
      attempt := attempt + 1;
    }
  }
}
