/**
The public publication calls. Each outcome is tied to the commit history or to
the chain of checkpoints, now and for ever after.
*/
module Calls {
  import opened Wrappers
  import opened Words
  import opened Heads
  import opened HeadChain
  import opened HeadOrder
  import opened Protocol
  import opened Invariants
  import opened SwapStep
  import opened CollectionSafety
  import opened Outcomes
  import opened Publication
  import opened LiveGraph
  import opened Verification
  import InvariantSteps

  // ---- Starting points ----

  ghost predicate Known(s: State, job: Job) {
    match job
    case CommitJob(p) => p in s.prepared
    case CheckpointJob(p) => p in s.checkpoints
  }

  ghost predicate Created(s: State, job: Job) {
    match job
    case CommitJob(p) => p.commit.key in s.born
    case CheckpointJob(p) => p.key in s.born
  }

  /** Evidence names a published head. */
  lemma {:induction false} EvidenceView(s: State, job: Job)
    requires Reachable(s) && Known(s, job)
    ensures View(job) < |s.heads| && s.heads[View(job)].generation == View(job)
    ensures s.heads[View(job)].nextSequence <= U64_MAX
  {
    ReachableInv(s);
    match job {
      case CommitJob(p) => assert CandidateOk(s.heads, p, s.proofs, s.issued);
      case CheckpointJob(p) => assert PendingOk(s.heads, p, s.proofs, s.issued);
    }
    ChainWindow(s.heads, s.changes, View(job));
    ChainGeneration(s.heads, s.changes, View(job));
  }

  /** A prepared job stands on the head it was prepared for. */
  lemma {:induction false} SourceStands(s: State, job: Job)
    requires Reachable(s) && Known(s, job) && Created(s, job)
    ensures View(job) < |s.heads| && Standing(s, job, s.heads[View(job)], s.heads[View(job)])
    ensures s.heads[View(job)].generation == View(job)
  {
    EvidenceView(s, job);
  }

  /** So it does on any later compatible head. */
  lemma {:induction false} LaterStands(s: State, job: Job, source: Head, current: Head)
    requires Reachable(s) && Standing(s, job, source, source)
    requires Observed(s, current) && source.generation <= current.generation && Compatible(job, source, current)
    ensures Standing(s, job, current, current)
  {
    ReachableInv(s);
    CompatibleTransitive(job, s.heads[View(job)], source, current);
    ChainWindow(s.heads, s.changes, current.generation);
  }

  datatype ViewChoice = Retry(current: Head) | Classify | WentBack

  /** Whether evidence from `source` may be published again on `current`. */
  function CompatiblePublicationView(job: Job, source: Head, current: Head): ViewChoice {
    if current == source then Retry(current)
    else if !Compatible(job, source, current) then Classify
    else if current.generation <= source.generation then WentBack
    else Retry(current)
  }

  // ---- Commits ----

  datatype CommitOutcome =
    | IsDurable(view: Head)
    | NotDurable(view: Head)
    | StillOpen
    | OutcomeExpired(view: Head)
    | CommitError(error: Error)

  /** At least as many updates were published since `view` as a call makes attempts. */
  ghost predicate Outrun(s: State, view: nat)
    requires s.heads != []
  {
    view + MAX_HEAD_PUBLICATION_ATTEMPTS <= Now(s)
  }

  /**
  Why a commit may be refused without a fault of storage. The collection has moved on: the fence of
  its view was cleared and the plan is gone, or a later epoch has begun and the commit object, or
  something that had to be walked, was deleted. Or an object that had to be walked is too long.
  */
  ghost predicate CommitRefused(s: State, view: Head, objects: seq<Key>, size: Key -> nat, warm: bool, error: Error)
    requires s.heads != []
  {
    (error == InvalidFormat && Outdated(s, view)) || VerifyRefused(s, view, objects, size, warm, error)
  }

  /** Why a call may end without an answer: storage failed it, the window closed, or it was refused for a reason. */
  ghost predicate CommitExcused(s: State, p: Prepared, size: Key -> nat, warm: bool, faulted: bool, out: CommitOutcome)
    requires s.heads != []
  {
    match out
    case StillOpen => faulted || p.commit.sequence < RetainedFrom(Current(s))
    case CommitError(error) =>
      || faulted || (error == LimitExceeded && Now(s) >= U64_MAX)
      || (p.view < |s.heads| && CommitRefused(s, s.heads[p.view], Named(p.commit.key), size, warm, error))
    case _ => true
  }

  /** What a candidate brings to the verification on any head of its publication base. */
  lemma {:induction false} CandidateStands(s: State, p: Prepared, source: Head)
    requires Reachable(s) && p in s.prepared && p.view < |s.heads| && Observed(s, source)
    requires SamePublicationBase(s.heads[p.view], source)
    ensures p.commit.key !in Candidates(source) && Admits(source.options, Named(p.commit.key))
    ensures Proved(s.proofs, source.collectionEpoch, Named(p.commit.key))
  {
    hide Reachable, Admits;
    ReachableInv(s);
    assert CandidateOk(s.heads, p, s.proofs, s.issued);
    assert {p.commit.key} !! Candidates(s.heads[source.generation]);
  }

  /** A commit that was refused, and whose objects are short enough, cannot be published any more. */
  lemma {:induction false} RefusedHasLeft(
    s: State, p: Prepared, size: Key -> nat, warm: bool, error: Error)
    requires Reachable(s) && s.heads != [] && p in s.prepared && p.view < |s.heads|
    requires CommitRefused(s, s.heads[p.view], Named(p.commit.key), size, warm, error)
    requires !TooLong(ClosureAll(Named(p.commit.key)), size, s.heads[p.view].options)
    ensures !SamePublicationBase(s.heads[p.view], Current(s))
  {
    hide Reachable, TooLong, ClosureAll;
    var view := s.heads[p.view];
    ReachableChain(s);
    if !Outdated(s, view) {
      var i :| 0 <= i < |s.changes| && s.changes[i].Unfence? && s.heads[i].activePlan == view.activePlan;
      assert Link(s.heads, s.changes, i);
      if Current(s).activePlan == view.activePlan {
        PlanIsContinuous(s.heads, s.changes, i, i + 1, |s.heads| - 1);
      }
    }
  }

  /** A refusal says the same of every head of one publication base. */
  lemma {:induction false} RefusedAlike(
    s: State, a: Head, b: Head, objects: seq<Key>, size: Key -> nat, warm: bool, error: Error)
    requires s.heads != [] && SamePublicationBase(a, b) && CommitRefused(s, b, objects, size, warm, error)
    ensures CommitRefused(s, a, objects, size, warm, error)
  {
    hide TooLong, ClosureAll;
  }

  /** A commit that a later head shows is refused verification only in a later epoch, or for an object that is too long. */
  lemma {:induction false} RefusedLater(
    s: State, p: Prepared, current: Head, size: Key -> nat, error: Error)
    requires Reachable(s) && s.heads != [] && p.view < |s.heads| && Observed(s, current) && p.view <= current.generation
    requires PublishedRefused(s, current, p.commit.key, size)
    ensures CommitRefused(s, s.heads[p.view], Named(p.commit.key), size, false, error)
  {
    hide Reachable, ClosureAll;
    ReachableChain(s);
    EpochOrder(s.heads, s.changes, p.view, current.generation);
    ChainOptions(s.heads, s.changes, p.view, current.generation);
  }

  /** `v` was published with the commit, after the head that the commit was prepared for. */
  ghost predicate ShowsCommit(s: State, p: Prepared, v: Head) {
    Observed(s, v) && p.commit in Retains(v) && p.view < v.generation
  }

  /** A head that shows a commit is later than the one it was prepared for. */
  lemma {:induction false} ShownLater(s: State, p: Prepared, v: Head)
    requires Reachable(s) && p in s.prepared && Observed(s, v) && p.commit in Retains(v)
    ensures ShowsCommit(s, p, v)
  {
    hide Reachable, History, Contiguous, LastEntries;
    ReachableInv(s);
    assert CandidateOk(s.heads, p, s.proofs, s.issued);
    var n, history := v.generation, History(s.changes[..v.generation]);
    ChainWindow(s.heads, s.changes, n);
    ShowsRetained(v, history);
    ContiguousEntry(history, p.commit);
    if n <= p.view { BaseRankOrder(s.heads, s.changes, n, p.view); }
  }

  lemma {:induction false} ContiguousEntry(history: seq<CommitRef>, commit: CommitRef)
    requires Contiguous(history, 0) && commit in history
    ensures commit.sequence < |history|
  {
    var i :| 0 <= i < |history| && history[i] == commit;
  }

  /**
  A definite outcome is true of the history. A positive one comes with a published head that shows
  the commit, later than the head it was prepared for. A negative one is final when the head has left
  the candidate's base; otherwise it is definite for every attempt in `attempts`, and sixteen
  updates got in the way.
  */
  ghost predicate CommitSound(s: State, p: Prepared, attempts: set<Cas>, out: CommitOutcome)
    requires s.heads != []
  {
    match out
    case IsDurable(v) => p.commit in Committed(s) && ShowsCommit(s, p, v)
    case NotDurable(view) =>
      && view == Current(s)
      && p.commit !in Committed(s)
      && (Lost(s, p) || (Outrun(s, p.view) && forall q | q in attempts && q.change == Append(p.commit) :: Dead(s, q)))
    case OutcomeExpired(view) =>
      view == Current(s) && p.commit.sequence < RetainedFrom(view)
    case _ => true
  }

  /** Reads the outcome off a head that no longer has the candidate's base. */
  method ClassifyCommit(w: World, p: Prepared, current: Head, ghost attempts: set<Cas>) returns (out: CommitOutcome)
    requires w.Valid() && p in w.s.prepared && p.view < |w.s.heads|
    requires current == Current(w.s) && !SamePublicationBase(w.s.heads[p.view], current)
    ensures CommitSound(w.s, p, attempts, out)
    ensures !out.CommitError? && !out.StillOpen? && (out.IsDurable? ==> out.view == current)
  {
    ReachableInv(w.s);
    ClassificationIsExact(w.s, p);
    match ClassifyResolution(p.commit, current) {
      case IsCommitted =>
        Generations(w.s);
        ShownLater(w.s, p, current);
        out := IsDurable(current);
      case IsNotCommitted => out := NotDurable(current);
      case IsExpired => out := OutcomeExpired(current);
      case HeadPrecedes => assert false; // "the head precedes the pending commit position"
    }
  }

  /** Turns the end of the publication loop into an outcome. */
  method SettleCommit(w: World, p: Prepared, source: Head, published: HeadPublication, ghost mine: set<Cas>, ghost older: set<Cas>)
    returns (out: CommitOutcome)
    requires w.Valid() && p in w.s.prepared && p.view <= source.generation
    requires Standing(w.s, CommitJob(p), source, source)
    requires Promised(w.s, CommitJob(p), source, mine, published)
    requires forall q | q in older :: q.expected.generation <= source.generation
    ensures CommitSound(w.s, p, older + mine, out)
    ensures out.StillOpen? <==> published.Unresolved?
    ensures out.IsDurable? ==> published.Done? || published.Changed?
    ensures out.CommitError? ==> out.error == LimitExceeded && Now(w.s) >= U64_MAX
  {
    match published {
      case Done(view) =>
        LandedIsCommitted(w.s, p, mine, view);
        out := IsDurable(view);
      case Changed(current, _) =>
        out := ClassifyCommit(w, p, current, older + mine);
      case Contended(current) =>
        NotYetCommitted(w.s, p);
        out := NotDurable(current);
      case Unresolved =>
        out := StillOpen;
      case Refused(error) =>
        out := CommitError(error);
    }
  }

  lemma {:induction false} LandedIsCommitted(s: State, p: Prepared, mine: set<Cas>, view: Head)
    requires exists q :: q in mine && q.change == Append(p.commit) && Landed(s, q) && view == After(q.expected, q.change)
    requires Reachable(s) && p in s.prepared
    ensures p.commit in Committed(s) && ShowsCommit(s, p, view)
  {
    hide Reachable;
    var q :| q in mine && q.change == Append(p.commit) && Landed(s, q) && view == After(q.expected, q.change);
    AppendedIsInHistory(s.changes, q.expected.generation);
    LandedIsPublished(s, q);
    assert view.tail[|view.tail| - 1] == p.commit;
    ShownLater(s, p, view);
  }

  /**
  Verifies the candidate, creates the commit object and publishes it on the head it was prepared
  for. `warm` says that this handle has the proofs of its objects.
  */
  method Commit(w: World, p: Prepared, warm: bool, size: Key -> nat) returns (out: CommitOutcome, ghost mine: set<Cas>)
    requires w.Valid() && p in w.s.prepared
    modifies w
    ensures w.Valid() && Leads(old(w.s), w.s)
    ensures CommitSound(w.s, p, mine, out)
    ensures CommitExcused(w.s, p, size, warm, w.faults > old(w.faults), out)
    ensures warm || mine == {} || Stored(w.s, p.commit.key)
  {
    hide Reachable, Leads, Enabled, SamePublicationBase, VerifyRefused, Outdated, Stored;
    mine := {};
    EvidenceView(w.s, CommitJob(p));
    SameBase(w.s.heads[p.view]);
    CandidateStands(w.s, p, w.s.heads[p.view]);
    var verified := VerifyPublication(w, w.s.heads[p.view], p.commit.key, Named(p.commit.key), warm, size);
    LeadsExtends(old(w.s), w.s);
    if verified.Err? {
      return CommitError(verified.error), mine;
    }
    ghost var checked := w.s;
    var created := w.EnsureCommit(p);
    LeadsOn(old(w.s), checked, w.s);
    LeadsExtends(checked, w.s);
    if created.Err? {
      return CommitError(created.error), mine;
    }
    SourceStands(w.s, CommitJob(p));
    var source := w.s.heads[p.view];
    ghost var before := w.s;
    var published;
    published, mine := PublishHeadCompatible(w, source, CommitJob(p));
    LeadsOn(old(w.s), before, w.s);
    LeadsExtends(before, w.s);
    if !warm {
      VerifiedIsStored(checked, p.commit.key);
      StaysStored(checked, w.s, p.commit.key);
    }
    StaysStanding(before, w.s, CommitJob(p), source, source);
    out := SettleCommit(w, p, source, published, mine, {});
    if out.OutcomeExpired? {
      out := StillOpen;
    }
  }

  lemma {:induction false} VerifiedIsStored(s: State, record: Key)
    requires ClosureAll(Named(record)) <= s.born
    ensures Stored(s, record)
  {
  }

  lemma {:induction false} SameBase(h: Head)
    ensures SamePublicationBase(h, h)
  {
  }

  /** Whatever was issued before expects a head no newer than the one then current. */
  lemma {:induction false} OlderAttempts(s: State)
    requires Reachable(s)
    ensures s.heads != [] && forall q | q in s.cas :: q.expected.generation <= Now(s)
  {
    ReachableInv(s);
  }

  /** The head loaded after `first` can be compared with the evidence. */
  lemma {:induction false} LoadedAfter(first: State, s: State, job: Job)
    requires Reachable(first) && Reachable(s) && Leads(first, s) && s.heads != [] && Known(first, job)
    ensures Known(s, job) && View(job) < |s.heads|
    ensures !CompatiblePublicationView(job, s.heads[View(job)], Current(s)).WentBack?
    ensures forall q | q in first.cas :: q.expected.generation <= Now(s)
  {
    LeadsExtends(first, s);
    OlderAttempts(first);
    EvidenceView(s, job);
    Generations(s);
  }

  /** A head that was found compatible can still be published on after more has happened. */
  lemma {:induction false} RetryStands(loaded: State, s: State, job: Job, current: Head)
    requires Reachable(loaded) && Reachable(s) && Leads(loaded, s) && loaded.heads != [] && View(job) < |loaded.heads|
    requires Known(s, job) && Created(s, job)
    requires current == Current(loaded) && current.generation == Now(loaded)
    requires CompatiblePublicationView(job, loaded.heads[View(job)], current).Retry?
    ensures Standing(s, job, current, current)
  {
    LeadsExtends(loaded, s);
    SourceStands(s, job);
    LaterStands(s, job, s.heads[View(job)], current);
  }

  /**
  Comparing a head with the one that a candidate was prepared for, or with a later one of the
  same publication base, comes to the same.
  */
  lemma {:induction false} RebasedChoice(p: Prepared, source: Head, current: Head, later: Head)
    requires SamePublicationBase(source, current) && source.generation <= current.generation <= later.generation
    requires source.generation == current.generation ==> source == current
    requires current.generation == later.generation ==> current == later
    ensures CompatiblePublicationView(CommitJob(p), current, later)
            == CompatiblePublicationView(CommitJob(p), source, later)
  {
    assert SamePublicationBase(current, later) <==> SamePublicationBase(source, later);
  }

  /** Nothing was published again, and the answer does not rest on a commit that the tail shows. */
  ghost predicate Unsupported(p: Prepared, mine: set<Cas>, out: CommitOutcome) {
    mine == {} && (out.IsDurable? ==> p.commit !in out.view.tail)
  }

  /**
  Settles or retries a publication whose outcome was lost. Only a fault leaves it open. Evidence
  that this handle made itself is warm, and its commit object was created.
  */
  method Resolve(w: World, p: Prepared, warm: bool, size: Key -> nat) returns (out: CommitOutcome, ghost mine: set<Cas>)
    requires w.Valid() && p in w.s.prepared && (warm ==> p.commit.key in w.s.born)
    modifies w
    ensures w.Valid() && Leads(old(w.s), w.s)
    ensures CommitSound(w.s, p, old(w.s).cas + mine, out)
    ensures w.faults >= old(w.faults) && CommitExcused(w.s, p, size, warm, w.faults > old(w.faults), out)
    ensures out.StillOpen? ==> w.faults > old(w.faults)
    ensures warm || Unsupported(p, mine, out) || Stored(w.s, p.commit.key)
  {
    EvidenceView(w.s, CommitJob(p));
    out, mine := ResolveFrom(w, p, w.s.heads[p.view], warm, size);
  }

  /** The same for a candidate whose source is a later head of the same publication base. */
  method ResolveFrom(w: World, p: Prepared, source: Head, warm: bool, size: Key -> nat)
    returns (out: CommitOutcome, ghost mine: set<Cas>)
    requires w.Valid() && p in w.s.prepared && p.view < |w.s.heads| && Observed(w.s, source)
    requires p.view <= source.generation && SamePublicationBase(w.s.heads[p.view], source)
    requires warm ==> p.commit.key in w.s.born
    modifies w
    ensures w.Valid() && Leads(old(w.s), w.s)
    ensures CommitSound(w.s, p, old(w.s).cas + mine, out)
    ensures w.faults >= old(w.faults) && CommitExcused(w.s, p, size, warm, w.faults > old(w.faults), out)
    ensures out.StillOpen? ==> w.faults > old(w.faults)
    ensures warm || Unsupported(p, mine, out) || Stored(w.s, p.commit.key)
  {
    hide Reachable, Leads, Enabled, SamePublicationBase, CommitExcused, Stored;
    mine := {};
    var loaded := w.Load();
    LeadsExtends(old(w.s), w.s);
    if loaded.None? {
      OpenByFault(w.s, p, size, warm);
      return StillOpen, mine;
    }
    var current := loaded.value;
    LoadedAfter(old(w.s), w.s, CommitJob(p));
    EvidenceView(w.s, CommitJob(p));
    RebasedChoice(p, w.s.heads[p.view], source, current);
    ghost var before := w.s;
    match CompatiblePublicationView(CommitJob(p), source, current) {
      case WentBack =>
        assert false; // "head version changed without a monotonic head change"
      case Classify =>
        out := ClassifyVerified(w, p, current, warm, size, old(w.s).cas);
        LeadsOn(old(w.s), before, w.s);
      case Retry(_) =>
        out, mine := RetryCommit(w, p, source, current, warm, size, old(w.s).cas);
        LeadsOn(old(w.s), before, w.s);
    }
  }

  lemma {:induction false} OpenByFault(s: State, p: Prepared, size: Key -> nat, warm: bool)
    requires s.heads != []
    ensures CommitExcused(s, p, size, warm, true, StillOpen)
  {
  }

  /** Reads the outcome off the head; a cold handle also verifies a commit that the tail shows. */
  method ClassifyVerified(w: World, p: Prepared, current: Head, warm: bool, size: Key -> nat, ghost attempts: set<Cas>)
    returns (out: CommitOutcome)
    requires w.Valid() && p in w.s.prepared && p.view < |w.s.heads|
    requires current == Current(w.s) && current.generation == Now(w.s)
    requires !SamePublicationBase(w.s.heads[p.view], current)
    modifies w
    ensures w.Valid() && Leads(old(w.s), w.s)
    ensures CommitSound(w.s, p, attempts, out)
    ensures w.faults >= old(w.faults) && CommitExcused(w.s, p, size, warm, w.faults > old(w.faults), out)
    ensures out.StillOpen? ==> w.faults > old(w.faults)
    ensures warm || Unsupported(p, {}, out) || Stored(w.s, p.commit.key)
  {
    hide Reachable, Leads, Enabled, SamePublicationBase, CommitRefused, History, PublishedRefused;
    LeadsNowhere(w.s);
    out := ClassifyCommit(w, p, current, attempts);
    if warm || !out.IsDurable? || p.commit !in current.tail {
      return;
    }
    var verified := VerifyPublished(w, current, p.commit.key, size);
    LeadsExtends(old(w.s), w.s);
    StaysCommitted(old(w.s), w.s, p.commit);
    if verified.Ok? {
      return;
    }
    if verified.error == StoreFailure {
      return StillOpen;
    }
    if w.faults == old(w.faults) { RefusedLater(w.s, p, current, size, verified.error); }
    out := CommitError(verified.error);
  }

  lemma {:induction false} StaysCommitted(a: State, b: State, commit: CommitRef)
    requires Extends(a, b) && commit in Committed(a)
    ensures commit in Committed(b)
  {
    hide History;
    HistoryPrefix(b.changes, |a.changes|);
    assert b.changes[..|a.changes|] == a.changes;
  }

  /** Verifies the candidate again on its source, and publishes it on the head that was found. */
  method RetryCommit(
    w: World, p: Prepared, source: Head, current: Head, warm: bool, size: Key -> nat, ghost older: set<Cas>)
    returns (out: CommitOutcome, ghost mine: set<Cas>)
    requires w.Valid() && p in w.s.prepared && p.view < |w.s.heads| && Observed(w.s, source)
    requires SamePublicationBase(w.s.heads[p.view], source) && (warm ==> p.commit.key in w.s.born)
    requires current == Current(w.s) && current.generation == Now(w.s)
    requires CompatiblePublicationView(CommitJob(p), w.s.heads[p.view], current).Retry?
    requires forall q | q in older :: q.expected.generation <= Now(w.s)
    modifies w
    ensures w.Valid() && Leads(old(w.s), w.s)
    ensures CommitSound(w.s, p, older + mine, out)
    ensures w.faults >= old(w.faults) && CommitExcused(w.s, p, size, warm, w.faults > old(w.faults), out)
    ensures out.StillOpen? ==> w.faults > old(w.faults)
    ensures warm || mine == {} || Stored(w.s, p.commit.key)
    ensures mine == {} ==> !out.IsDurable?
  {
    hide Reachable, Leads, Enabled, SamePublicationBase, VerifyRefused, Outdated, Stored;
    mine := {};
    CandidateStands(w.s, p, source);
    var verified := VerifyPublication(w, source, p.commit.key, Named(p.commit.key), warm, size);
    LeadsExtends(old(w.s), w.s);
    if verified.Err? {
      if verified.error == StoreFailure {
        return StillOpen, mine;
      }
      if w.faults == old(w.faults) {
        RefusedAlike(w.s, w.s.heads[p.view], source, Named(p.commit.key), size, warm, verified.error);
      }
      return CommitError(verified.error), mine;
    }
    ghost var checked := w.s;
    if !warm {
      var created := w.EnsureCommit(p);
      LeadsOn(old(w.s), checked, w.s);
      LeadsExtends(checked, w.s);
      if created.Err? {
        return if created.error == StoreFailure then StillOpen else CommitError(created.error), mine;
      }
    }
    RetryStands(old(w.s), w.s, CommitJob(p), current);
    ghost var before := w.s;
    var published;
    published, mine := PublishHeadCompatible(w, current, CommitJob(p));
    LeadsOn(old(w.s), before, w.s);
    LeadsExtends(before, w.s);
    if !warm {
      VerifiedIsStored(checked, p.commit.key);
      StaysStored(checked, w.s, p.commit.key);
    }
    StaysStanding(before, w.s, CommitJob(p), current, current);
    out := SettleCommit(w, p, current, published, mine, older);
  }

  /** No update that landed after `a` was one of these attempts. */
  ghost predicate NoneLands(a: State, b: State, attempts: set<Cas>, c: Change) {
    forall i | |a.changes| <= i < |b.changes| && i < |b.heads| ::
      b.changes[i] == c ==> Cas(b.heads[i], c) !in attempts
  }

  /** A definite outcome stays true in every later state, whoever retries and however late requests land. */
  lemma {:induction false} OutcomeIsFinal(a: State, b: State, p: Prepared, attempts: set<Cas>, out: CommitOutcome)
    requires Reachable(a) && a.heads != [] && Leads(a, b) && CommitSound(a, p, attempts, out)
    ensures out.IsDurable? ==> p.commit in Committed(b)
    ensures out.NotDurable? ==> p.commit !in Committed(b) || NoneLands(a, b, attempts, Append(p.commit))
    ensures out.NotDurable? && Lost(a, p) ==> p.commit !in Committed(b)
  {
    hide Reachable, Leads, History, Enabled, SamePublicationBase;
    Later(a, b);
    match out {
      case IsDurable(_) =>
        HistoryPrefix(b.changes, |a.changes|);
        assert b.changes[..|a.changes|] == a.changes;
      case NotDurable(_) =>
        if Lost(a, p) {
          LostForGood(a, b, p);
        } else {
          AttemptsStayDead(a, b, attempts, Append(p.commit));
        }
      case _ =>
    }
  }

  lemma {:induction false} Later(a: State, b: State)
    requires Reachable(a) && Leads(a, b)
    ensures Reachable(b) && Extends(a, b) && InvariantSteps.Traceable(b) && |a.heads| == |a.changes| + 1
  {
    LeadsExtends(a, b);
    ReachableLater(a, b);
    ReachableTraceable(b);
    Generations(a);
  }

  lemma {:induction false} ReachableTraceable(s: State)
    requires Reachable(s)
    ensures InvariantSteps.Traceable(s)
  {
    ReachableInv(s);
  }

  lemma {:induction false} AttemptsStayDead(a: State, b: State, attempts: set<Cas>, c: Change)
    requires Chain(b.heads, b.changes) && |a.heads| == |a.changes| + 1 && Extends(a, b)
    requires forall q | q in attempts && q.change == c :: Dead(a, q)
    ensures NoneLands(a, b, attempts, c)
  {
    forall i | |a.changes| <= i < |b.changes| && b.changes[i] == c ensures Cas(b.heads[i], c) !in attempts {
      if Cas(b.heads[i], c) in attempts {
        DeadNeverLands(a, b, Cas(b.heads[i], c), i);
      }
    }
  }
}
