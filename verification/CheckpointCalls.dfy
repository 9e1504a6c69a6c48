/** Publishing a checkpoint, and settling one whose outcome was lost. */
module CheckpointCalls {
  import opened Wrappers
  import opened Words
  import opened Heads
  import opened HeadChain
  import opened HeadOrder
  import opened Invariants
  import opened Protocol
  import opened SwapStep
  import opened CollectionSafety
  import opened Outcomes
  import opened Publication
  import opened LiveGraph
  import opened HistoryCursor
  import opened Verification
  import opened Calls
  import InvariantSteps

  datatype CheckpointOutcome =
    | Installed(view: Head)
    | NotInstalled(view: Head)
    | InstallOpen
    | EvidenceLapsed(view: Head)
    | InstallError(error: Error)

  /** `v` was published with the checkpoint, after the head that the checkpoint was made for. */
  ghost predicate ShowsCheckpoint(s: State, p: PendingCheckpoint, v: Head) {
    Observed(s, v) && v.checkpoint == Some(InstalledRef(p)) && p.view < v.generation
  }

  /**
  A definite outcome is true of the chain. A positive one comes with a published head that has the
  checkpoint, and a negative one holds against every issued attempt. Evidence lapses only when two
  updates came since, and then the checkpoint is not the last one installed.
  */
  ghost predicate CheckpointSound(s: State, p: PendingCheckpoint, attempts: set<Cas>, out: CheckpointOutcome)
    requires s.heads != []
  {
    match out
    case Installed(v) => InChain(s, p) && ShowsCheckpoint(s, p, v)
    case NotInstalled(view) =>
      && view == Current(s)
      && !InChain(s, p)
      && (CheckpointLost(s, p)
          || (Outrun(s, p.view)
              && forall q | q in attempts && q.change == Compact(p.through, p.key) :: Dead(s, q)))
    case EvidenceLapsed(view) =>
      && view == Current(s) && p.view + 2 <= Now(s) && !CheckpointAppendBase(s.heads[p.view], view)
      && !InstalledLast(s, p)
    case _ => true
  }

  /**
  Why a checkpoint may be refused without a fault of storage: the tail of its view has expired, or
  the verification refused it.
  */
  ghost predicate InstallRefused(s: State, view: Head, objects: seq<Key>, size: Key -> nat, warm: bool, error: Error)
    requires s.heads != []
  {
    Expired(s, view, error) || VerifyRefused(s, view, objects, size, warm, error)
  }

  /** Why a call may end without an answer: storage failed it, the evidence lapsed, or it was refused for a reason. */
  ghost predicate CheckpointExcused(
    s: State, view: Head, objects: seq<Key>, size: Key -> nat, warm: bool, faulted: bool, out: CheckpointOutcome)
    requires s.heads != []
  {
    match out
    case InstallOpen => faulted || (!CheckpointAppendBase(view, Current(s)) && view.generation + 2 <= Now(s))
    case InstallError(error) =>
      || faulted || (error == LimitExceeded && Now(s) >= U64_MAX)
      || InstallRefused(s, view, objects, size, warm, error)
    case _ => true
  }

  /** While the current head has the checkpoint's base, the checkpoint was never installed. */
  lemma {:induction false} OpenIsNotInstalled(s: State, p: PendingCheckpoint)
    requires Reachable(s) && s.heads != [] && p in s.checkpoints && p.view < |s.heads|
    requires CheckpointAppendBase(s.heads[p.view], Current(s))
    ensures !InChain(s, p)
  {
    ReachableInv(s);
    forall j | 0 <= j < |s.changes| ensures s.changes[j] != Compact(p.through, p.key) {
      NotYetInstalled(s, p, |s.heads| - 1, j);
    }
  }

  /** Compatibility with the evidence follows from compatibility with a compatible head. */
  lemma {:induction false} LeftFromLater(s: State, p: PendingCheckpoint, source: nat)
    requires Reachable(s) && s.heads != [] && p.view <= source < |s.heads|
    requires CheckpointAppendBase(s.heads[p.view], s.heads[source])
    requires !CheckpointAppendBase(s.heads[source], Current(s))
    ensures !CheckpointAppendBase(s.heads[p.view], Current(s))
  {
    ReachableChain(s);
    if CheckpointAppendBase(s.heads[p.view], Current(s)) {
      AppendBaseNarrows(s.heads, s.changes, p.view, source, |s.heads| - 1);
    }
  }

  /** Reads the outcome off a head that is no longer compatible; `g` was the last compatible one. */
  method ClassifyInstall(w: World, p: PendingCheckpoint, current: Head, g: nat, ghost attempts: set<Cas>)
    returns (out: CheckpointOutcome)
    requires w.Valid() && p in w.s.checkpoints && p.view <= g < |w.s.heads|
    requires current == Current(w.s)
    requires CheckpointAppendBase(w.s.heads[p.view], w.s.heads[g])
    requires !CheckpointAppendBase(w.s.heads[p.view], current)
    ensures CheckpointSound(w.s, p, attempts, out)
    ensures !out.InstallOpen? && !out.InstallError?
    ensures out.Installed? <==> InstalledLast(w.s, p)
    ensures out.Installed? ==> out.view == current
    ensures out.NotInstalled? <==> OnlyOther(w.s, p, g)
    ensures out.EvidenceLapsed? <==> Now(w.s) > g + 1 && !InstalledLast(w.s, p)
  {
    hide InstalledLast, OnlyOther, InChain, ClassifyCheckpoint;
    EvidenceIsExact(w.s, p, g);
    match ClassifyCheckpoint(p, current, g) {
      case IsPublished => out := Installed(current);
      case IsNotPublished => out := NotInstalled(current);
      case IsLapsed => out := EvidenceLapsed(current);
      case HeadTooOld => assert false; // "the head precedes pending checkpoint evidence"
    }
  }

  lemma {:induction false} EvidenceIsExact(s: State, p: PendingCheckpoint, g: nat)
    requires Reachable(s) && s.heads != [] && p in s.checkpoints && p.view <= g < |s.heads|
    requires CheckpointAppendBase(s.heads[p.view], s.heads[g])
    requires !CheckpointAppendBase(s.heads[p.view], Current(s))
    ensures
      var verdict := ClassifyCheckpoint(p, Current(s), g);
      && (verdict == IsPublished <==> InstalledLast(s, p))
      && (verdict == IsNotPublished <==> OnlyOther(s, p, g))
      && (verdict == IsLapsed <==> Now(s) > g + 1 && !InstalledLast(s, p))
      && (verdict == IsNotPublished ==> CheckpointLost(s, p))
      && verdict != HeadTooOld
    ensures InstalledLast(s, p) ==> InChain(s, p) && ShowsCheckpoint(s, p, Current(s))
  {
    hide Reachable, CheckpointAppendBase, ClassifyCheckpoint, OnlyOther;
    HasMovedOn(s, p, g);
    CheckpointEvidenceIsExact(s, p, g);
    NamedIsLast(s, p);
  }

  lemma {:induction false} HasMovedOn(s: State, p: PendingCheckpoint, g: nat)
    requires Reachable(s) && s.heads != [] && p.view <= g < |s.heads|
    requires CheckpointAppendBase(s.heads[p.view], s.heads[g]) && !CheckpointAppendBase(s.heads[p.view], Current(s))
    ensures InvariantSteps.Traceable(s) && g < Now(s) == Current(s).generation
  {
    hide Reachable, InvariantSteps.Traceable;
    ReachableTraceable(s);
    Generations(s);
    CompatibleIsOlder(s.heads, p.view, g);
  }

  method SettleCheckpoint(
    w: World, p: PendingCheckpoint, source: Head, published: HeadPublication, ghost mine: set<Cas>, ghost older: set<Cas>)
    returns (out: CheckpointOutcome)
    requires w.Valid() && p in w.s.checkpoints && p.view <= source.generation
    requires Standing(w.s, CheckpointJob(p), source, source)
    requires Promised(w.s, CheckpointJob(p), source, mine, published)
    requires forall q | q in older :: q.expected.generation <= source.generation
    ensures CheckpointSound(w.s, p, older + mine, out)
    ensures out.InstallOpen? <==> published.Unresolved?
    ensures published.Changed? ==> (out.Installed? <==> InstalledLast(w.s, p))
    ensures published.Changed? && !InstalledLast(w.s, p) ==>
              (out.NotInstalled? <==> Now(w.s) == published.attemptedGeneration + 1)
    ensures out.InstallError? ==> out.error == LimitExceeded && Now(w.s) >= U64_MAX
  {
    match published {
      case Done(view) =>
        LandedIsInstalled(w.s, p, mine, view);
        out := Installed(view);
      case Changed(current, g) =>
        CompatibleTransitive(CheckpointJob(p), w.s.heads[p.view], source, w.s.heads[g]);
        LeftFromLater(w.s, p, source.generation);
        out := ClassifyInstall(w, p, current, g, older + mine);
      case Contended(current) =>
        CompatibleTransitive(CheckpointJob(p), w.s.heads[p.view], source, current);
        OpenIsNotInstalled(w.s, p);
        out := NotInstalled(current);
      case Unresolved =>
        out := InstallOpen;
      case Refused(error) =>
        out := InstallError(error);
    }
  }

  lemma {:induction false} LandedIsInstalled(s: State, p: PendingCheckpoint, mine: set<Cas>, view: Head)
    requires exists q :: q in mine && q.change == Compact(p.through, p.key) && Landed(s, q) && view == After(q.expected, q.change)
    requires Reachable(s) && p in s.checkpoints && p.view < |s.heads|
    ensures InChain(s, p) && ShowsCheckpoint(s, p, view)
  {
    hide Reachable, CheckpointAppendBase;
    var q :| q in mine && q.change == Compact(p.through, p.key) && Landed(s, q) && view == After(q.expected, q.change);
    var i := q.expected.generation;
    assert s.changes[i] == Compact(p.through, p.key);
    LandedIsPublished(s, q);
    ReachableInv(s);
    InstalledOnBase(s, p, i);
    InstalledLater(s, p, i);
  }

  lemma {:induction false} InstalledLater(s: State, p: PendingCheckpoint, i: nat)
    requires Chain(s.heads, s.changes) && i < |s.changes| && s.changes[i].Compact? && p.view < |s.heads|
    requires CheckpointAppendBase(s.heads[p.view], s.heads[i])
    ensures p.view <= i
  {
    if i < p.view {
      RankStep(s.heads, s.changes, i);
      BaseRankOrder(s.heads, s.changes, i + 1, p.view);
    }
  }

  /** The checkpoint that a call asks for, whatever identity it gets. */
  function CheckpointBody(through: CommitRef, snapshot: seq<byte>, objects: seq<Key>): Body {
    Checkpoint(through.sequence, through.key.body, snapshot, objects)
  }

  /**
  Admits the objects, verifies the tail and reads the fence, stores the checkpoint object under a
  fresh identity and publishes it. Objects beyond the limits are refused before anything is read.
  */
  method PublishCheckpoint(
    w: World, view: Head, through: CommitRef, snapshot: seq<byte>, objects: seq<Key>, tailVerified: bool, size: Key -> nat)
    returns (out: CheckpointOutcome, p: PendingCheckpoint, ghost mine: set<Cas>)
    requires w.Valid() && Observed(w.s, view) && through in view.tail
    requires Proved(w.s.proofs, view.collectionEpoch, objects)
    modifies w
    ensures w.Valid() && Leads(old(w.s), w.s) && w.faults >= old(w.faults)
    ensures p.view == view.generation && p.through == through && p.key.body == CheckpointBody(through, snapshot, objects)
    ensures CheckpointSound(w.s, p, mine, out)
    ensures if Admits(view.options, objects)
            then CheckpointExcused(w.s, view, objects, size, true, w.faults > old(w.faults), out)
            else out == InstallError(LimitExceeded) && w.s == old(w.s)
    ensures mine == {} || tailVerified || TailLinked(view)
  {
    hide Reachable, Leads, CheckpointAppendBase, InstallRefused, Admits;
    mine := {};
    p := PendingCheckpoint(view.generation, through, Key(0, CheckpointBody(through, snapshot, objects)));
    if !Admits(view.options, objects) {
      LeadsNowhere(w.s);
      return InstallError(LimitExceeded), p, mine;
    }
    var verified := VerifyTailAndFence(w, view, objects, tailVerified, size);
    if verified.Err? {
      return InstallError(verified.error), p, mine;
    }
    LeadsExtends(old(w.s), w.s);
    ghost var fenced := w.s;
    var created;
    created, p := StoreCheckpoint(w, view, through, snapshot, objects);
    LeadsOn(old(w.s), fenced, w.s);
    if !created {
      return InstallError(StoreFailure), p, mine;
    }
    ghost var before := w.s;
    var published;
    published, mine := PublishHeadCompatible(w, view, CheckpointJob(p));
    LeadsOn(old(w.s), before, w.s);
    LeadsExtends(before, w.s);
    StaysStanding(before, w.s, CheckpointJob(p), view, view);
    out := SettleCheckpoint(w, p, view, published, mine, {});
    if out.EvidenceLapsed? {
      out := InstallOpen;
    }
  }

  /** Reads the tail unless this handle has, and the fence. */
  method VerifyTailAndFence(w: World, view: Head, ghost objects: seq<Key>, tailVerified: bool, ghost size: Key -> nat)
    returns (r: Result<()>)
    requires w.Valid() && Observed(w.s, view)
    modifies w
    ensures w.Valid() && Leads(old(w.s), w.s) && w.faults >= old(w.faults)
    ensures r.Ok? ==> tailVerified || TailLinked(view)
    ensures r.Err? ==> w.faults > old(w.faults) || InstallRefused(w.s, view, objects, size, true, r.error)
  {
    hide Reachable, Leads, Expired, FenceWasCleared;
    LeadsNowhere(w.s);
    if !tailVerified {
      var verified := ReadTail(w, view);
      if verified.Err? {
        return Err(verified.error);
      }
    }
    LeadsExtends(old(w.s), w.s);
    ghost var read := w.s;
    if view.activePlan.Some? {
      var cached: bool := *;
      var plan := ReadPlan(w, view, cached);
      LeadsOn(old(w.s), read, w.s);
      if plan.Err? {
        return Err(plan.error);
      }
    }
    r := Ok(());
  }

  /** Creates the checkpoint object under an identity that nobody has used. */
  method StoreCheckpoint(w: World, view: Head, through: CommitRef, snapshot: seq<byte>, objects: seq<Key>)
    returns (created: bool, p: PendingCheckpoint)
    requires w.Valid() && Observed(w.s, view) && through in view.tail
    requires Proved(w.s.proofs, view.collectionEpoch, objects) && Admits(view.options, objects)
    modifies w
    ensures w.Valid() && Leads(old(w.s), w.s) && w.faults >= old(w.faults) && (!created ==> w.faults > old(w.faults))
    ensures p.view == view.generation && p.through == through && p.key.body == CheckpointBody(through, snapshot, objects)
    ensures created ==> p in w.s.checkpoints && Standing(w.s, CheckpointJob(p), view, view) && Observed(w.s, view)
  {
    hide Reachable, Leads, CheckpointAppendBase, Admits;
    assert Above(w.s.issued) !in w.s.issued;
    var id: StorageId :| id !in w.s.issued;
    var key := Key(id, CheckpointBody(through, snapshot, objects));
    p := PendingCheckpoint(view.generation, through, key);
    w.Perform(StageCheckpoint(view.generation, through, key));
    ghost var staged := w.s;
    w.Interfere();
    LeadsOn(old(w.s), staged, w.s);
    LeadsExtends(staged, w.s);
    created := w.AwaitCreate(key);
    if created { SourceStands(w.s, CheckpointJob(p)); }
  }

  /** Settles or retries a checkpoint publication whose outcome was lost. */
  method ResolveCheckpoint(w: World, p: PendingCheckpoint, tailVerified: bool, warm: bool, size: Key -> nat)
    returns (out: CheckpointOutcome, ghost mine: set<Cas>)
    requires w.Valid() && p in w.s.checkpoints && p.key in w.s.born && p.view < |w.s.heads|
    modifies w
    ensures w.Valid() && Leads(old(w.s), w.s)
    ensures CheckpointSound(w.s, p, old(w.s).cas + mine, out)
    ensures w.faults >= old(w.faults)
    ensures CheckpointExcused(w.s, old(w.s).heads[p.view], Named(p.key), size, warm, w.faults > old(w.faults), out)
    ensures out.InstallOpen? ==> w.faults > old(w.faults)
    ensures mine == {} || tailVerified || TailLinked(old(w.s).heads[p.view])
    ensures warm || (mine == {} && !out.Installed?) || Stored(w.s, p.key)
  {
    hide Reachable, Leads, Enabled, CheckpointAppendBase, InstallRefused, Stored;
    mine := {};
    var loaded := w.Load();
    LeadsExtends(old(w.s), w.s);
    if loaded.None? {
      return InstallOpen, mine;
    }
    var current := loaded.value;
    LoadedAfter(old(w.s), w.s, CheckpointJob(p));
    ghost var before := w.s;
    match CompatiblePublicationView(CheckpointJob(p), w.s.heads[p.view], current) {
      case WentBack =>
        assert false; // "head version changed without a monotonic head change"
      case Classify =>
        SourceStands(w.s, CheckpointJob(p));
        out := ClassifyInstalled(w, p, current, warm, size, old(w.s).cas + mine);
        LeadsOn(old(w.s), before, w.s);
      case Retry(_) =>
        out, mine := RetryCheckpoint(w, p, current, tailVerified, warm, size, old(w.s).cas);
        LeadsOn(old(w.s), before, w.s);
    }
  }

  /** Reads the outcome off the head; a cold handle also verifies a checkpoint that the head names. */
  method ClassifyInstalled(
    w: World, p: PendingCheckpoint, current: Head, warm: bool, size: Key -> nat, ghost attempts: set<Cas>)
    returns (out: CheckpointOutcome)
    requires w.Valid() && p in w.s.checkpoints && p.view < |w.s.heads|
    requires current == Current(w.s) && current.generation == Now(w.s)
    requires CheckpointAppendBase(w.s.heads[p.view], w.s.heads[p.view])
    requires !CheckpointAppendBase(w.s.heads[p.view], current)
    modifies w
    ensures w.Valid() && Leads(old(w.s), w.s)
    ensures CheckpointSound(w.s, p, attempts, out)
    ensures w.faults >= old(w.faults)
    ensures CheckpointExcused(w.s, old(w.s).heads[p.view], Named(p.key), size, warm, w.faults > old(w.faults), out)
    ensures out.InstallOpen? ==> w.faults > old(w.faults)
    ensures warm || !out.Installed? || Stored(w.s, p.key)
  {
    hide Reachable, Leads, Enabled, CheckpointAppendBase, InstallRefused, PublishedRefused, Admits;
    LeadsNowhere(w.s);
    out := ClassifyInstall(w, p, current, p.view, attempts);
    if warm || !out.Installed? {
      return;
    }
    ShownIsNamed(p, current);
    var verified := VerifyPublished(w, current, p.key, size);
    LeadsExtends(old(w.s), w.s);
    StaysInChain(old(w.s), w.s, p);
    if verified.Ok? {
      return;
    }
    if verified.error == StoreFailure {
      return InstallOpen;
    }
    if w.faults == old(w.faults) { InstalledRefused(w.s, p, current, size, verified.error); }
    out := InstallError(verified.error);
  }

  lemma {:induction false} ShownIsNamed(p: PendingCheckpoint, current: Head)
    requires current.checkpoint == Some(InstalledRef(p))
    ensures p.key in RecordKeys(current)
  {
  }

  lemma {:induction false} StaysInChain(a: State, b: State, p: PendingCheckpoint)
    requires Extends(a, b) && InChain(a, p)
    ensures InChain(b, p)
  {
    var i :| 0 <= i < |a.changes| && a.changes[i] == Compact(p.through, p.key);
    assert b.changes[i] == a.changes[i];
  }

  lemma {:induction false} InstalledRefused(s: State, p: PendingCheckpoint, current: Head, size: Key -> nat, error: Error)
    requires Reachable(s) && s.heads != [] && p.view < |s.heads| && Observed(s, current) && p.view <= current.generation
    requires PublishedRefused(s, current, p.key, size)
    ensures InstallRefused(s, s.heads[p.view], Named(p.key), size, false, error)
  {
    hide Reachable, ClosureAll;
    ReachableChain(s);
    EpochOrder(s.heads, s.changes, p.view, current.generation);
    ChainOptions(s.heads, s.changes, p.view, current.generation);
  }

  /** Verifies the tail and the checkpoint again, and publishes it on the head that was found. */
  method RetryCheckpoint(
    w: World, p: PendingCheckpoint, current: Head, tailVerified: bool, warm: bool, size: Key -> nat, ghost older: set<Cas>)
    returns (out: CheckpointOutcome, ghost mine: set<Cas>)
    requires w.Valid() && p in w.s.checkpoints && p.key in w.s.born && p.view < |w.s.heads|
    requires current == Current(w.s) && current.generation == Now(w.s)
    requires CompatiblePublicationView(CheckpointJob(p), w.s.heads[p.view], current).Retry?
    requires forall q | q in older :: q.expected.generation <= Now(w.s)
    modifies w
    ensures w.Valid() && Leads(old(w.s), w.s)
    ensures CheckpointSound(w.s, p, older + mine, out)
    ensures w.faults >= old(w.faults)
    ensures CheckpointExcused(w.s, old(w.s).heads[p.view], Named(p.key), size, warm, w.faults > old(w.faults), out)
    ensures out.InstallOpen? ==> w.faults > old(w.faults)
    ensures mine == {} || tailVerified || TailLinked(old(w.s).heads[p.view])
    ensures warm || (mine == {} && !out.Installed?) || Stored(w.s, p.key)
  {
    hide Reachable, Leads, Enabled, CheckpointAppendBase, InstallRefused, Stored, TailLinked;
    mine := {};
    var verified := VerifyEvidence(w, p, tailVerified, warm, size);
    LeadsExtends(old(w.s), w.s);
    if verified.Err? {
      return if verified.error == StoreFailure then InstallOpen else InstallError(verified.error), mine;
    }
    ghost var before := w.s;
    RetryStands(old(w.s), w.s, CheckpointJob(p), current);
    var published;
    published, mine := PublishHeadCompatible(w, current, CheckpointJob(p));
    LeadsOn(old(w.s), before, w.s);
    StaysStanding(before, w.s, CheckpointJob(p), current, current);
    LeadsExtends(before, w.s);
    if !warm { StaysStored(before, w.s, p.key); }
    out := SettleCheckpoint(w, p, current, published, mine, older);
  }

  /** Reads the tail, the checkpoint unless this handle made it, the fence, and walks the graph likewise. */
  method VerifyEvidence(w: World, p: PendingCheckpoint, tailVerified: bool, warm: bool, size: Key -> nat)
    returns (r: Result<()>)
    requires w.Valid() && p in w.s.checkpoints && p.key in w.s.born && p.view < |w.s.heads|
    modifies w
    ensures w.Valid() && Leads(old(w.s), w.s) && w.faults >= old(w.faults)
    ensures r == Err(StoreFailure) ==> w.faults > old(w.faults)
    ensures r.Err? ==>
              || w.faults > old(w.faults)
              || InstallRefused(w.s, old(w.s).heads[p.view], Named(p.key), size, warm, r.error)
    ensures r.Ok? ==> (warm || Stored(w.s, p.key)) && (tailVerified || TailLinked(old(w.s).heads[p.view]))
  {
    hide Reachable, Leads, Enabled, Expired, VerifyRefused, Outdated, Admits;
    EvidenceView(w.s, CheckpointJob(p));
    var view := w.s.heads[p.view];
    LeadsNowhere(w.s);
    if !tailVerified {
      var tail := ReadTail(w, view);
      if tail.Err? {
        TailRefused(w.s, view, tail.error);
        return Err(tail.error);
      }
    }
    LeadsExtends(old(w.s), w.s);
    ghost var read := w.s;
    if !warm {
      var present := w.Read(p.key);
      LeadsOn(old(w.s), read, w.s);
      LeadsExtends(read, w.s);
      if present.Err? {
        return Err(present.error);
      }
      if !present.value {
        CheckpointGone(w.s, p, size);
        return Err(InvalidFormat);
      }
    }
    ghost var found := w.s;
    PendingStands(w.s, p);
    r := VerifyPublication(w, view, p.key, if warm then [] else Named(p.key), warm, size);
    LeadsOn(old(w.s), found, w.s);
    if r.Err? && w.faults == old(w.faults) && warm { WarmRefused(w.s, view, Named(p.key), size, r.error); }
  }

  lemma {:induction false} TailRefused(s: State, view: Head, error: Error)
    requires s.heads != []
    ensures Expired(s, view, error) ==> error != StoreFailure
  {
  }

  /** The checkpoint object of the evidence is missing only in a later epoch. */
  lemma {:induction false} CheckpointGone(s: State, p: PendingCheckpoint, size: Key -> nat)
    requires Reachable(s) && s.heads != [] && p in s.checkpoints && p.view < |s.heads|
    requires p.key in s.born && p.key !in s.store
    ensures InstallRefused(s, s.heads[p.view], Named(p.key), size, false, InvalidFormat)
  {
    hide Reachable, TooLong, ClosureAll;
    ReachableInv(s);
    assert PendingOk(s.heads, p, s.proofs, s.issued);
    ErasedIsOutdated(s, p.view, p.key);
  }

  lemma {:induction false} PendingStands(s: State, p: PendingCheckpoint)
    requires Reachable(s) && p in s.checkpoints && p.view < |s.heads|
    ensures p.key !in Candidates(s.heads[p.view]) && Observed(s, s.heads[p.view])
    ensures Admits(s.heads[p.view].options, Named(p.key)) && Admits(s.heads[p.view].options, [])
    ensures Proved(s.proofs, s.heads[p.view].collectionEpoch, Named(p.key))
  {
    hide Reachable;
    ReachableInv(s);
    assert PendingOk(s.heads, p, s.proofs, s.issued);
    assert {p.key} !! Candidates(s.heads[p.view]);
    ChainGeneration(s.heads, s.changes, p.view);
  }

  lemma {:induction false} WarmRefused(s: State, view: Head, objects: seq<Key>, size: Key -> nat, error: Error)
    requires s.heads != [] && VerifyRefused(s, view, [], size, true, error)
    ensures VerifyRefused(s, view, objects, size, true, error)
  {
  }

  /** A definite checkpoint outcome stays true in every later state. */
  lemma {:induction false} CheckpointOutcomeIsFinal(
    a: State, b: State, p: PendingCheckpoint, attempts: set<Cas>, out: CheckpointOutcome)
    requires Reachable(a) && a.heads != [] && Leads(a, b) && CheckpointSound(a, p, attempts, out)
    ensures out.Installed? ==> InChain(b, p)
    ensures out.NotInstalled? ==> !InChain(b, p) || NoneLands(a, b, attempts, Compact(p.through, p.key))
    ensures out.NotInstalled? && CheckpointLost(a, p) ==> !InChain(b, p)
  {
    hide Reachable, Leads, Enabled, CheckpointAppendBase;
    Later(a, b);
    match out {
      case Installed(_) =>
        var i :| 0 <= i < |a.changes| && a.changes[i] == Compact(p.through, p.key);
        assert b.changes[i] == a.changes[i];
      case NotInstalled(_) =>
        if CheckpointLost(a, p) {
          CheckpointLostForGood(a, b, p);
        } else {
          AttemptsStayDead(a, b, attempts, Compact(p.through, p.key));
        }
      case _ =>
    }
  }
}
