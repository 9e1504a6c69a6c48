/** Acquiring, releasing and clearing reader retentions. */
module RetentionCalls {
  import opened Wrappers
  import opened Words
  import opened Heads
  import opened HeadOrder
  import opened Protocol
  import opened SwapStep
  import opened CollectionSafety
  import opened Publication

  datatype RetentionStatus =
    | RetentionApplied(view: Head)
    | CollectionActive(view: Head)
    | RetentionConflict(view: Head)
    | RetentionPending
    | RetentionRefused(error: Error)

  function StatusOf(state: RetentionState, view: Head): RetentionStatus {
    match state
    case Applied => RetentionApplied(view)
    case ActiveCollection => CollectionActive(view)
    case Conflict => RetentionConflict(view)
  }

  /** The head has what the change asks for. */
  ghost predicate Holds(change: RetentionChange, h: Head) {
    match change
    case Acquire(id) => id in h.retentionIds
    case Release(id) => id !in h.retentionIds
    case ClearAfterDrain => h.retentionIds == {}
  }

  /** The change is still to be made, and no collection forbids it. */
  ghost predicate Open(change: RetentionChange, h: Head) {
    !Holds(change, h) && (change.Acquire? ==> h.activePlan.None?)
  }

  lemma {:induction false} ClassifiedExactly(change: RetentionChange, h: Head)
    ensures ClassifyRetention(change, h) == Applied <==> Holds(change, h)
    ensures ClassifyRetention(change, h) == Conflict <==> Open(change, h)
    ensures ClassifyRetention(change, h) == ActiveCollection <==> change.Acquire? && !Holds(change, h) && h.activePlan.Some?
  {
  }

  /** A published head in the epoch that an acquisition is for. */
  ghost predicate InEpoch(s: State, view: Head, change: RetentionChange, current: Head) {
    Observed(s, current) && (change.Acquire? ==> current.collectionEpoch == view.collectionEpoch)
  }

  /**
  Success names a published head that has the change and, for an acquisition, the epoch of the view.
  Whatever head is named was current at `first` or later.
  */
  ghost predicate RetentionSound(s: State, first: nat, view: Head, change: RetentionChange, out: RetentionStatus) {
    match out
    case RetentionApplied(v) => first <= v.generation && InEpoch(s, view, change, v) && Holds(change, v)
    case CollectionActive(v) =>
      && first <= v.generation && InEpoch(s, view, change, v)
      && change.Acquire? && !Holds(change, v) && v.activePlan.Some?
    case RetentionConflict(v) =>
      && first <= v.generation && Observed(s, v) && view.generation < v.generation
      && ((change.Acquire? && v.collectionEpoch != view.collectionEpoch)
          || (Open(change, v) && TriedEnough(view, change, v)))
    case _ => true
  }

  /** An acquisition that was open on the view gives up only after all its attempts. */
  ghost predicate TriedEnough(view: Head, change: RetentionChange, v: Head) {
    change.Acquire? && Open(change, view) ==>
      view.generation + MAX_HEAD_PUBLICATION_ATTEMPTS <= v.generation
  }

  /** Why a call may end without an answer: storage failed it, or the head it tried is at a limit. */
  ghost predicate RetentionExcused(s: State, view: Head, change: RetentionChange, faulted: bool, out: RetentionStatus) {
    match out
    case RetentionPending => faulted
    case RetentionRefused(error) =>
      faulted || (error == LimitExceeded && exists h :: OpenOn(s, view, change, h) && Exhausted(h, change))
    case _ => true
  }

  /** A head that the call may try to change: the view or a later one on which the change is still open. */
  ghost predicate OpenOn(s: State, view: Head, change: RetentionChange, h: Head) {
    && InEpoch(s, view, change, h) && Open(change, h)
    && (h == view || (change.Acquire? && view.generation < h.generation))
  }

  /** The head cannot take the change. */
  ghost predicate Exhausted(h: Head, change: RetentionChange) {
    h.generation >= U64_MAX || (change.Acquire? && |h.retentionIds| >= h.options.maxRetentionIds)
  }

  lemma {:induction false} StatusIsSound(s: State, first: nat, view: Head, change: RetentionChange, v: Head)
    requires InEpoch(s, view, change, v) && first <= v.generation
    requires Open(change, v) ==> view.generation < v.generation && TriedEnough(view, change, v)
    ensures RetentionSound(s, first, view, change, StatusOf(ClassifyRetention(change, v), v))
  {
    ClassifiedExactly(change, v);
  }

  lemma {:induction false} StaysInEpoch(a: State, b: State, view: Head, change: RetentionChange, v: Head)
    requires Leads(a, b) && InEpoch(a, view, change, v)
    ensures InEpoch(b, view, change, v) && Now(a) <= Now(b)
  {
    LeadsExtends(a, b);
  }

  /** What a successful update published. */
  lemma {:induction false} RetentionLanded(s: State, first: nat, view: Head, change: RetentionChange, current: Head)
    requires Reachable(s) && Landed(s, Cas(current, Retention(change))) && InEpoch(s, view, change, current)
    requires first <= current.generation
    ensures RetentionSound(s, first, view, change, RetentionApplied(After(current, Retention(change))))
  {
    hide Reachable;
    LandedIsPublished(s, Cas(current, Retention(change)));
  }

  /** The head is unchanged since `view`, or this is what it is now. */
  method Refresh(w: World, view: Head) returns (r: Option<Head>)
    requires w.Valid() && Observed(w.s, view)
    modifies w
    ensures w.Valid() && Leads(old(w.s), w.s)
    ensures r.Some? ==> r.value == Current(w.s) && Observed(w.s, r.value) && view.generation <= r.value.generation
    ensures r.Some? ==> Now(old(w.s)) <= r.value.generation
    ensures Observed(w.s, view)
    ensures w.faults >= old(w.faults) && (r.None? ==> w.faults > old(w.faults))
  {
    hide Reachable, Leads;
    r := w.Load();
    LeadsExtends(old(w.s), w.s);
  }

  method ChangeRetention(w: World, view: Head, change: RetentionChange) returns (out: RetentionStatus)
    requires w.Valid() && Observed(w.s, view)
    modifies w
    ensures w.Valid() && Leads(old(w.s), w.s)
    ensures RetentionSound(w.s, Now(old(w.s)), view, change, out)
    ensures RetentionExcused(w.s, view, change, w.faults > old(w.faults), out)
  {
    hide ClassifyRetention, Reachable, Leads, Holds;
    LeadsNowhere(w.s);
    ClassifiedExactly(change, view);
    if ClassifyRetention(change, view) != Conflict {
      var refreshed := Refresh(w, view);
      if refreshed.None? {
        return RetentionRefused(StoreFailure);
      }
      var current := refreshed.value;
      if current != view && change.Acquire? && current.collectionEpoch != view.collectionEpoch {
        return RetentionConflict(current);
      }
      StatusIsSound(w.s, Now(old(w.s)), view, change, current);
      return StatusOf(ClassifyRetention(change, current), current);
    }
    var current := view;
    var attempt := 0;
    while true
      invariant attempt < MAX_HEAD_PUBLICATION_ATTEMPTS
      invariant w.Valid() && Leads(old(w.s), w.s)
      invariant InEpoch(w.s, view, change, current)
      invariant w.faults >= old(w.faults) && view.generation + attempt <= current.generation
      invariant OpenOn(w.s, view, change, current)
      decreases MAX_HEAD_PUBLICATION_ATTEMPTS - attempt
    {
      ghost var before := w.s;
      LeadsExtends(old(w.s), w.s);
      var round := TryRetention(w, Now(old(w.s)), view, current, change, attempt);
      LeadsOn(old(w.s), before, w.s);
      if round.Settled? {
        return round.out;
      }
      current, attempt := round.current, attempt + 1;
    }
  }

  datatype RetentionRound = Settled(out: RetentionStatus) | Retry(current: Head)

  /** One conditional update; only an acquisition that still applies tries again, on a newer head. */
  method TryRetention(w: World, ghost first: nat, view: Head, current: Head, change: RetentionChange, attempt: nat)
    returns (round: RetentionRound)
    requires w.Valid() && InEpoch(w.s, view, change, current) && first <= Now(w.s)
    requires attempt < MAX_HEAD_PUBLICATION_ATTEMPTS && view.generation + attempt <= current.generation
    requires OpenOn(w.s, view, change, current)
    modifies w
    ensures w.Valid() && Leads(old(w.s), w.s)
    ensures round.Settled? ==> RetentionSound(w.s, first, view, change, round.out)
    ensures w.faults >= old(w.faults)
    ensures round.Settled? ==> RetentionExcused(w.s, view, change, w.faults > old(w.faults), round.out)
    ensures round.Retry? ==>
              && change.Acquire?
              && attempt + 1 < MAX_HEAD_PUBLICATION_ATTEMPTS && InEpoch(w.s, view, change, round.current)
              && round.current.generation > current.generation && Open(change, round.current)
  {
    hide ClassifyRetention, Reachable, Leads, Holds;
    LeadsNowhere(w.s);
    ClassifiedExactly(change, current);
    if change.Acquire? && |current.retentionIds| >= current.options.maxRetentionIds {
      return Settled(RetentionRefused(LimitExceeded));
    }
    if current.generation >= U64_MAX {
      return Settled(RetentionRefused(LimitExceeded));
    }
    var q := Cas(current, Retention(change));
    var reply := w.UpdateHead(AttemptRetention(current.generation, change), q);
    StaysInEpoch(old(w.s), w.s, view, change, current);
    match reply {
      case Updated =>
        RetentionLanded(w.s, first, view, change, current);
        round := Settled(RetentionApplied(After(current, Retention(change))));
      case Failed =>
        round := Settled(RetentionPending);
      case Rejected =>
        ghost var replied := w.s;
        round := AfterRejection(w, first, view, current, change, attempt, old(w.faults));
        LeadsOn(old(w.s), replied, w.s);
    }
  }

  method AfterRejection(
    w: World, ghost first: nat, view: Head, current: Head, change: RetentionChange, attempt: nat, ghost before: nat)
    returns (round: RetentionRound)
    requires w.Valid() && InEpoch(w.s, view, change, current) && first <= Now(w.s)
    requires attempt < MAX_HEAD_PUBLICATION_ATTEMPTS && view.generation + attempt <= current.generation
    requires w.faults >= before && (Current(w.s) == current ==> w.faults > before)
    modifies w
    ensures w.Valid() && Leads(old(w.s), w.s)
    ensures round.Settled? ==> RetentionSound(w.s, first, view, change, round.out)
    ensures w.faults >= old(w.faults)
    ensures round.Settled? ==> RetentionExcused(w.s, view, change, w.faults > before, round.out)
    ensures round.Retry? ==>
              && change.Acquire?
              && attempt + 1 < MAX_HEAD_PUBLICATION_ATTEMPTS && InEpoch(w.s, view, change, round.current)
              && round.current.generation > current.generation && Open(change, round.current)
  {
    hide ClassifyRetention, Reachable, Leads, Holds;
    var reloaded := w.Load();
    StaysInEpoch(old(w.s), w.s, view, change, current);
    if reloaded.None? || reloaded.value == current {
      if reloaded.Some? { StillCurrent(old(w.s), w.s, current); }
      return Settled(RetentionPending);
    }
    var next := reloaded.value;
    if change.Acquire? && next.collectionEpoch != view.collectionEpoch {
      return Settled(RetentionConflict(next));
    }
    var state := ClassifyRetention(change, next);
    ClassifiedExactly(change, next);
    if change.Acquire? && state == Conflict && attempt + 1 < MAX_HEAD_PUBLICATION_ATTEMPTS {
      if next.generation <= current.generation {
        assert false; // "head version changed without a monotonic head change"
      }
      return Retry(next);
    }
    StatusIsSound(w.s, first, view, change, next);
    round := Settled(StatusOf(state, next));
  }

  /**
  What an applied acquisition is for: as long as no update has ended it, everything the view can
  reach is present and its epoch is current.
  */
  lemma {:induction false} RetentionProtects(s: State, first: nat, view: Head, id: RetentionId, applied: Head)
    requires Reachable(s) && s.heads != [] && Observed(s, view)
    requires RetentionSound(s, first, view, Acquire(id), RetentionApplied(applied))
    requires forall k | applied.generation <= k < |s.changes| :: !Ends(s.changes[k], id)
    ensures id in Current(s).retentionIds
    ensures view.collectionEpoch == Current(s).collectionEpoch
    ensures Reach(view) <= s.store
  {
    hide Reach, Reachable;
    ReachableChain(s);
    RetentionStays(s.heads, s.changes, id, applied.generation, |s.heads| - 1);
    RetainedViewIsReadable(s, applied.generation, id);
    ViewIsReadable(s, view.generation);
  }
}
