/**
What the outcome of a publication means, now and in every later state.
*/
module Outcomes {
  import opened Wrappers
  import opened Heads
  import opened HeadChain
  import opened HeadOrder
  import opened Protocol
  import opened Invariants
  import opened SwapStep
  import opened CollectionSafety
  import InvariantSteps

  // ---- Commits ----

  ghost function Committed(s: State): seq<CommitRef> { History(s.changes) }

  /** No storage identity is published twice, whatever it is published with. */
  lemma {:induction false} PublishedOnce(s: State, i: nat, j: nat)
    requires Reachable(s) && i < |Committed(s)| && j < |Committed(s)|
    requires Committed(s)[i].key.id == Committed(s)[j].key.id
    ensures i == j
  {
    hide Reachable, History;
    ReachableInv(s);
    CurrentWindow(s);
    var p := CommittedWasPrepared(s, Committed(s)[i]);
    var q := CommittedWasPrepared(s, Committed(s)[j]);
    assert p == q;
  }

  /** Whatever is in the history was prepared, by exactly one call. */
  lemma {:induction false} CommittedWasPrepared(s: State, commit: CommitRef) returns (p: Prepared)
    requires Origins(s.heads, s.changes, s.cas, s.prepared, s.checkpoints) && commit in Committed(s)
    ensures p in s.prepared && p.commit == commit
  {
    HistoryIsAppended(s.changes, commit);
    var n :| 0 <= n < |s.changes| && s.changes[n] == Append(commit);
    assert Originates(s.heads, s.heads[n], s.changes[n], s.prepared, s.checkpoints);
    p :| p in s.prepared && p.commit == commit;
  }

  lemma {:induction false} CurrentWindow(s: State)
    requires Chain(s.heads, s.changes)
    ensures s.heads != [] && Window(Current(s), Committed(s)) && WellFormed(Committed(s))
    ensures Current(s).generation == Now(s)
  {
    ChainWindow(s.heads, s.changes, |s.heads| - 1);
    ChainGeneration(s.heads, s.changes, |s.heads| - 1);
    assert s.changes[..|s.heads| - 1] == s.changes;
  }

  /** While the head still has the candidate's base, the candidate was not published. */
  lemma {:induction false} NotYetCommitted(s: State, p: Prepared)
    requires Reachable(s) && s.heads != [] && p in s.prepared && p.view < |s.heads|
    requires SamePublicationBase(s.heads[p.view], Current(s))
    ensures p.commit !in Committed(s)
  {
    hide Reachable, History;
    ReachableInv(s);
    assert CandidateOk(s.heads, p, s.proofs, s.issued);
    CurrentWindow(s);
  }

  /** The head has left the candidate's base without publishing the candidate. */
  ghost predicate Lost(s: State, p: Prepared) {
    && s.heads != [] && p in s.prepared && p.view < |s.heads|
    && !SamePublicationBase(s.heads[p.view], Current(s))
    && p.commit !in Committed(s)
  }

  /** A lost candidate is never published, whoever resumes it and however late a request lands. */
  lemma {:induction false} LostForGood(a: State, b: State, p: Prepared)
    requires InvariantSteps.Traceable(b) && |a.heads| == |a.changes| + 1 && Extends(a, b) && Lost(a, p)
    ensures Lost(b, p)
  {
    hide SamePublicationBase, History;
    if p.commit in Committed(b) {
      HistoryIsAppended(b.changes, p.commit);
      var i :| 0 <= i < |b.changes| && b.changes[i] == Append(p.commit);
      if i < |a.changes| {
        AppendedIsInHistory(a.changes, i);
      } else {
        PublishedOnBase(b, p, i);
        BaseNeverReturns(b.heads, b.changes, p.view, |a.heads| - 1, i);
      }
    }
    if SamePublicationBase(b.heads[p.view], Current(b)) {
      BaseNeverReturns(b.heads, b.changes, p.view, |a.heads| - 1, |b.heads| - 1);
    }
  }

  /** A candidate is published only on the base it was prepared for. */
  lemma {:induction false} PublishedOnBase(s: State, p: Prepared, i: nat)
    requires InvariantSteps.Traceable(s) && p in s.prepared && i < |s.changes| && s.changes[i] == Append(p.commit)
    ensures SamePublicationBase(s.heads[p.view], s.heads[i])
  {
    assert Originates(s.heads, s.heads[i], s.changes[i], s.prepared, s.checkpoints);
    var q :| q in s.prepared && q.commit == p.commit && q.view < |s.heads|
      && SamePublicationBase(s.heads[q.view], s.heads[i]);
    assert q == p;
  }

  /** `q` did not land up to now and cannot land any more. */
  ghost predicate Dead(s: State, q: Cas) {
    s.heads != [] && q.expected.generation < Now(s)
  }

  /** No update made after `a` was the landing of an update that was dead in `a`. */
  lemma {:induction false} DeadNeverLands(a: State, b: State, q: Cas, i: nat)
    requires Chain(b.heads, b.changes) && |a.heads| == |a.changes| + 1 && Extends(a, b) && Dead(a, q)
    requires |a.changes| <= i < |b.changes|
    ensures Cas(b.heads[i], b.changes[i]) != q
    ensures Dead(b, q)
  {
    ChainGeneration(b.heads, b.changes, i);
  }

  // ---- Resolution ----

  datatype Classification = IsCommitted | IsNotCommitted | IsExpired | HeadPrecedes

  function ClassifyResolution(target: CommitRef, h: Head): Classification {
    if target in h.tail + h.recentOutcomes then IsCommitted
    else if h.nextSequence > target.sequence then
      if exists e | e in h.tail + h.recentOutcomes :: e.sequence == target.sequence then IsNotCommitted
      else IsExpired
    else if h.nextSequence < target.sequence then HeadPrecedes
    else IsNotCommitted
  }

  /** The first sequence number that `h` can still answer for. */
  function RetainedFrom(h: Head): int { Checkpointed(h) - |h.recentOutcomes| }

  /**
  A head answers for a candidate exactly: committed when the history holds it, not committed
  when it does not, expired exactly when the candidate's position left the retained window
  (so that neither can be said), and never an error.
  */
  lemma {:induction false} ClassificationIsExact(s: State, p: Prepared)
    requires Reachable(s) && s.heads != [] && p in s.prepared
    ensures
      var verdict := ClassifyResolution(p.commit, Current(s));
      && (verdict == IsExpired <==> p.commit.sequence < RetainedFrom(Current(s)))
      && (verdict == IsCommitted <==> p.commit in Committed(s) && p.commit.sequence >= RetainedFrom(Current(s)))
      && (verdict == IsNotCommitted <==> p.commit !in Committed(s) && p.commit.sequence >= RetainedFrom(Current(s)))
      && verdict != HeadPrecedes
  {
    hide Reachable, History;
    ReachableInv(s);
    assert CandidateOk(s.heads, p, s.proofs, s.issued);
    CurrentWindow(s);
    BaseRankOrder(s.heads, s.changes, p.view, |s.heads| - 1);
    WindowClassifies(Current(s), Committed(s), p.commit);
  }

  lemma {:induction false} WindowClassifies(h: Head, history: seq<CommitRef>, target: CommitRef)
    requires Window(h, history) && Contiguous(history, 0) && target.sequence <= |history|
    ensures
      var verdict := ClassifyResolution(target, h);
      && (verdict == IsExpired <==> target.sequence < RetainedFrom(h))
      && (verdict == IsCommitted <==> target in history && target.sequence >= RetainedFrom(h))
      && (verdict == IsNotCommitted <==> target !in history && target.sequence >= RetainedFrom(h))
      && verdict != HeadPrecedes
  {
    RetainedEntries(h, history, target);
  }

  /** What the retained entries say about a position of the history. */
  lemma {:induction false} RetainedEntries(h: Head, history: seq<CommitRef>, target: CommitRef)
    requires Window(h, history) && Contiguous(history, 0)
    ensures target in h.tail + h.recentOutcomes <==> target in history && target.sequence >= RetainedFrom(h)
    ensures (exists e | e in h.tail + h.recentOutcomes :: e.sequence == target.sequence)
            <==> RetainedFrom(h) <= target.sequence < |history|
  {
    hide Contiguous, LastEntries, DistinctTransactions;
    ShowsRetained(h, history);
    SuffixEntries(history, Checkpointed(h) - |h.recentOutcomes|, target);
    assert forall e :: e in h.tail + h.recentOutcomes <==> e in Retains(h);
  }

  lemma {:induction false} SuffixEntries(history: seq<CommitRef>, from: nat, target: CommitRef)
    requires Contiguous(history, 0) && from <= |history|
    ensures target in history[from..] <==> target in history && target.sequence >= from
    ensures (exists e | e in history[from..] :: e.sequence == target.sequence) <==> from <= target.sequence < |history|
  {
    var suffix := history[from..];
    forall e | e in suffix ensures e in history && from <= e.sequence < |history| {
      var i :| 0 <= i < |suffix| && suffix[i] == e;
      assert history[from + i] == e;
    }
    if target in history && target.sequence >= from {
      var i :| 0 <= i < |history| && history[i] == target;
      assert suffix[i - from] == target;
    }
    if from <= target.sequence < |history| {
      assert suffix[target.sequence - from] == history[target.sequence];
    }
  }

  // ---- Checkpoints ----

  /** The checkpoint was installed by some published head. */
  ghost predicate InChain(s: State, p: PendingCheckpoint) {
    exists i :: 0 <= i < |s.changes| && s.changes[i] == Compact(p.through, p.key)
  }

  lemma {:induction false} InstalledOnBase(s: State, p: PendingCheckpoint, i: nat)
    requires InvariantSteps.Traceable(s) && p in s.checkpoints && i < |s.changes| && s.changes[i] == Compact(p.through, p.key)
    ensures CheckpointAppendBase(s.heads[p.view], s.heads[i])
  {
    assert Originates(s.heads, s.heads[i], s.changes[i], s.prepared, s.checkpoints);
    var q :| q in s.checkpoints && q.key == p.key && q.view < |s.heads|
      && CheckpointAppendBase(s.heads[q.view], s.heads[i]);
    assert q == p;
  }

  /** While a head has the checkpoint's base, the checkpoint was not installed before it. */
  lemma {:induction false} NotYetInstalled(s: State, p: PendingCheckpoint, i: nat, j: nat)
    requires InvariantSteps.Traceable(s) && p in s.checkpoints && p.view <= i < |s.heads|
    requires CheckpointAppendBase(s.heads[p.view], s.heads[i])
    requires j < i
    ensures s.changes[j] != Compact(p.through, p.key)
  {
    if s.changes[j] == Compact(p.through, p.key) {
      if j < p.view {
        InstalledOnBase(s, p, j);
        RankStep(s.heads, s.changes, j);
        BaseRankOrder(s.heads, s.changes, j + 1, p.view);
      } else {
        CompatibleChanges(s.heads, s.changes, p.view, i, j);
      }
    }
  }

  ghost predicate CheckpointLost(s: State, p: PendingCheckpoint) {
    && s.heads != [] && p in s.checkpoints && p.view < |s.heads|
    && !CheckpointAppendBase(s.heads[p.view], Current(s))
    && !InChain(s, p)
  }

  lemma {:induction false} CheckpointLostForGood(a: State, b: State, p: PendingCheckpoint)
    requires InvariantSteps.Traceable(b) && |a.heads| == |a.changes| + 1 && Extends(a, b) && CheckpointLost(a, p)
    ensures CheckpointLost(b, p)
  {
    hide CheckpointAppendBase;
    if InChain(b, p) {
      var i :| 0 <= i < |b.changes| && b.changes[i] == Compact(p.through, p.key);
      assert i >= |a.changes|;
      InstalledOnBase(b, p, i);
      LeftAppendBase(a, b, p, i);
    }
    LeftAppendBase(a, b, p, |b.heads| - 1);
  }

  lemma {:induction false} LeftAppendBase(a: State, b: State, p: PendingCheckpoint, i: nat)
    requires Chain(b.heads, b.changes) && Extends(a, b)
    requires p.view < |a.heads| && |a.heads| - 1 <= i < |b.heads|
    requires !CheckpointAppendBase(a.heads[p.view], Current(a))
    ensures !CheckpointAppendBase(b.heads[p.view], b.heads[i])
  {
    if CheckpointAppendBase(b.heads[p.view], b.heads[i]) {
      AppendBaseNeverReturns(b.heads, b.changes, p.view, |a.heads| - 1, i);
    }
  }

  /** What a head shows of the checkpoint once it is installed. */
  function InstalledRef(p: PendingCheckpoint): CheckpointRef {
    CheckpointRef(p.through.sequence, p.through.key.body, p.key)
  }

  /** The checkpoint was installed, and no other one after it. */
  ghost predicate InstalledLast(s: State, p: PendingCheckpoint) {
    exists i :: LastCompact(s.changes, i) && s.changes[i] == Compact(p.through, p.key)
  }

  ghost predicate LastCompact(changes: seq<Change>, i: int) {
    0 <= i < |changes| && changes[i].Compact? && forall j | i < j < |changes| :: !changes[j].Compact?
  }

  /** A single update followed the head at `g`, and it was not this checkpoint's. */
  ghost predicate OnlyOther(s: State, p: PendingCheckpoint, g: nat) {
    |s.changes| == g + 1 && s.changes[g] != Compact(p.through, p.key)
  }

  /** A head shows the checkpoint that was installed last. */
  lemma {:induction false} ShowsLast(heads: seq<Head>, changes: seq<Change>, i: nat, n: nat)
    requires Chain(heads, changes) && i < n < |heads| && changes[i].Compact?
    requires forall j | i < j < n :: !changes[j].Compact?
    ensures heads[n].checkpoint
            == Some(CheckpointRef(changes[i].through.sequence, changes[i].through.key.body, changes[i].key))
    decreases n
  {
    assert Link(heads, changes, n - 1);
    if i < n - 1 { ShowsLast(heads, changes, i, n - 1); }
  }

  lemma {:induction false} ShownWasLast(heads: seq<Head>, changes: seq<Change>, n: nat) returns (i: nat)
    requires Chain(heads, changes) && n < |heads| && heads[n].checkpoint.Some?
    ensures i < n && changes[i].Compact? && forall j | i < j < n :: !changes[j].Compact?
    decreases n
  {
    assert Link(heads, changes, n - 1);
    if changes[n - 1].Compact? {
      i := n - 1;
    } else {
      i := ShownWasLast(heads, changes, n - 1);
    }
  }

  /** The current head names a pending checkpoint exactly if it was installed last. */
  lemma {:induction false} NamedIsLast(s: State, p: PendingCheckpoint)
    requires InvariantSteps.Traceable(s) && s.heads != [] && p in s.checkpoints
    ensures Current(s).checkpoint == Some(InstalledRef(p)) <==> InstalledLast(s, p)
  {
    hide CheckpointAppendBase;
    var n := |s.heads| - 1;
    if Current(s).checkpoint == Some(InstalledRef(p)) {
      var i := ShownWasLast(s.heads, s.changes, n);
      ShowsLast(s.heads, s.changes, i, n);
      assert Originates(s.heads, s.heads[i], s.changes[i], s.prepared, s.checkpoints);
      var q :| q in s.checkpoints && q.key == s.changes[i].key && q.through == s.changes[i].through;
      assert q == p && LastCompact(s.changes, i);
    }
    if InstalledLast(s, p) {
      var i :| LastCompact(s.changes, i) && s.changes[i] == Compact(p.through, p.key);
      ShowsLast(s.heads, s.changes, i, n);
    }
  }

  datatype CheckpointEvidence = IsPublished | IsNotPublished | IsLapsed | HeadTooOld

  function ClassifyCheckpoint(p: PendingCheckpoint, current: Head, attemptedGeneration: nat): CheckpointEvidence {
    if current.checkpoint == Some(InstalledRef(p)) then IsPublished
    else if current.generation < attemptedGeneration + 1 then HeadTooOld
    else if current.generation == attemptedGeneration + 1 then IsNotPublished
    else IsLapsed
  }

  /**
  The last known compatible head was at generation `g`, and the current one is not compatible. Then
  the evidence is exact: published if the checkpoint was installed last; not published if a single
  update followed and it was another, and then the checkpoint is lost for good; lapsed otherwise.
  */
  lemma {:induction false} CheckpointEvidenceIsExact(s: State, p: PendingCheckpoint, g: nat)
    requires InvariantSteps.Traceable(s) && p in s.checkpoints && p.view <= g < |s.heads|
    requires CheckpointAppendBase(s.heads[p.view], s.heads[g])
    requires !CheckpointAppendBase(s.heads[p.view], Current(s))
    ensures
      var verdict := ClassifyCheckpoint(p, Current(s), g);
      && (verdict == IsPublished <==> InstalledLast(s, p))
      && (verdict == IsNotPublished <==> OnlyOther(s, p, g))
      && (verdict == IsLapsed <==> Now(s) > g + 1 && !InstalledLast(s, p))
      && (verdict == IsNotPublished ==> CheckpointLost(s, p))
      && verdict != HeadTooOld
  {
    hide CheckpointAppendBase, InChain, InstalledLast;
    ChainGeneration(s.heads, s.changes, |s.heads| - 1);
    CompatibleIsOlder(s.heads, p.view, g);
    NamedIsLast(s, p);
    if Now(s) == g + 1 {
      LastOfTwo(s, p, g);
      if s.changes[g] != Compact(p.through, p.key) { NotInstalledNext(s, p, g); }
    }
  }

  /** When one update followed a compatible head, the checkpoint is the last one only if that was its update. */
  lemma {:induction false} LastOfTwo(s: State, p: PendingCheckpoint, g: nat)
    requires InvariantSteps.Traceable(s) && p in s.checkpoints && p.view <= g == |s.heads| - 2
    requires CheckpointAppendBase(s.heads[p.view], s.heads[g])
    ensures InstalledLast(s, p) <==> s.changes[g] == Compact(p.through, p.key)
  {
    hide CheckpointAppendBase;
    if InstalledLast(s, p) {
      var i :| LastCompact(s.changes, i) && s.changes[i] == Compact(p.through, p.key);
      if i < g { NotYetInstalled(s, p, g, i); }
    }
    if s.changes[g] == Compact(p.through, p.key) {
      assert LastCompact(s.changes, g);
    }
  }

  lemma {:induction false} CompatibleIsOlder(heads: seq<Head>, view: nat, g: nat)
    requires view < |heads| && g < |heads|
    requires CheckpointAppendBase(heads[view], heads[g])
    requires !CheckpointAppendBase(heads[view], heads[|heads| - 1])
    ensures g < |heads| - 1
  {
  }

  lemma {:induction false} NotInstalledNext(s: State, p: PendingCheckpoint, g: nat)
    requires InvariantSteps.Traceable(s) && p in s.checkpoints && p.view <= g == |s.heads| - 2
    requires CheckpointAppendBase(s.heads[p.view], s.heads[g])
    requires s.changes[g] != Compact(p.through, p.key)
    ensures !InChain(s, p)
  {
    if InChain(s, p) {
      var i :| 0 <= i < |s.changes| && s.changes[i] == Compact(p.through, p.key);
      if i < g { NotYetInstalled(s, p, g, i); }
    }
  }
}
