/**
Orders on a chain of heads: what never goes back. A publication base that has
been left is never met again, a checkpoint is never replaced by an older one,
and a collection epoch has at most one plan.
*/
module HeadOrder {
  import opened Heads
  import opened HeadChain

  function FenceRank(h: Head): nat {
    2 * h.collectionEpoch + if h.activePlan.None? then 1 else 0
  }

  /** Grows with every update that is not retention bookkeeping. */
  function BaseRank(h: Head): nat {
    h.nextSequence + Checkpointed(h) + FenceRank(h)
  }

  /** Grows with every update that is neither an append nor retention bookkeeping. */
  function AppendRank(h: Head): nat {
    Checkpointed(h) + FenceRank(h)
  }

  lemma {:induction false} TailIsUncovered(h: Head, history: seq<CommitRef>, through: CommitRef)
    requires Window(h, history) && Contiguous(history, 0) && through in h.tail
    ensures through.sequence >= Checkpointed(h)
  {
    var i :| 0 <= i < |h.tail| && h.tail[i] == through;
    assert history[Checkpointed(h) + i] == through;
  }

  lemma {:induction false} RankStep(heads: seq<Head>, changes: seq<Change>, i: nat)
    requires Chain(heads, changes) && i < |changes|
    ensures Checkpointed(heads[i]) <= Checkpointed(heads[i + 1])
    ensures heads[i].nextSequence <= heads[i + 1].nextSequence
    ensures changes[i].Compact? ==> Checkpointed(heads[i]) < Checkpointed(heads[i + 1])
    ensures if changes[i].Retention?
            then BaseRank(heads[i]) == BaseRank(heads[i + 1]) && SamePublicationBase(heads[i], heads[i + 1])
            else BaseRank(heads[i]) < BaseRank(heads[i + 1])
    ensures if changes[i].Retention? || changes[i].Append?
            then AppendRank(heads[i]) == AppendRank(heads[i + 1])
            else AppendRank(heads[i]) < AppendRank(heads[i + 1])
  {
    assert Link(heads, changes, i);
    if changes[i].Compact? {
      ChainWindow(heads, changes, i);
      TailIsUncovered(heads[i], History(changes[..i]), changes[i].through);
    }
  }

  lemma {:induction false} AppendStep(heads: seq<Head>, changes: seq<Change>, i: nat)
    requires Chain(heads, changes) && i < |changes|
    requires changes[i].Retention? || changes[i].Append?
    ensures CheckpointAppendBase(heads[i], heads[i + 1])
  {
    assert Link(heads, changes, i);
    ChainWindow(heads, changes, i);
  }

  lemma {:induction false} AppendBaseTransitive(a: Head, b: Head, c: Head)
    requires CheckpointAppendBase(a, b) && CheckpointAppendBase(b, c)
    ensures CheckpointAppendBase(a, c)
  {
  }

  /** Two heads of one rank have the same publication base, and so has every head between. */
  lemma {:induction false} BaseRankOrder(heads: seq<Head>, changes: seq<Change>, i: nat, j: nat)
    requires Chain(heads, changes) && i <= j < |heads|
    ensures Checkpointed(heads[i]) <= Checkpointed(heads[j])
    ensures heads[i].nextSequence <= heads[j].nextSequence
    ensures BaseRank(heads[i]) <= BaseRank(heads[j])
    ensures BaseRank(heads[i]) == BaseRank(heads[j]) ==> SamePublicationBase(heads[i], heads[j])
    decreases j - i
  {
    if i < j {
      BaseRankOrder(heads, changes, i, j - 1);
      RankStep(heads, changes, j - 1);
    }
  }

  lemma {:induction false} AppendRankOrder(heads: seq<Head>, changes: seq<Change>, i: nat, j: nat)
    requires Chain(heads, changes) && i <= j < |heads|
    ensures AppendRank(heads[i]) <= AppendRank(heads[j])
    ensures AppendRank(heads[i]) == AppendRank(heads[j]) ==> CheckpointAppendBase(heads[i], heads[j])
    decreases j - i
  {
    if i < j {
      AppendRankOrder(heads, changes, i, j - 1);
      RankStep(heads, changes, j - 1);
      if AppendRank(heads[i]) == AppendRank(heads[j]) {
        AppendStep(heads, changes, j - 1);
        AppendBaseTransitive(heads[i], heads[j - 1], heads[j]);
      }
    } else {
      ChainWindow(heads, changes, i);
    }
  }

  /** A publication base that has been left is never met again. */
  lemma {:induction false} BaseNeverReturns(heads: seq<Head>, changes: seq<Change>, i: nat, j: nat, k: nat)
    requires Chain(heads, changes) && i <= j <= k < |heads|
    requires SamePublicationBase(heads[i], heads[k])
    ensures SamePublicationBase(heads[i], heads[j])
  {
    BaseRankOrder(heads, changes, i, j);
    BaseRankOrder(heads, changes, j, k);
  }

  /** The same for the weaker base a checkpoint needs. */
  lemma {:induction false} AppendBaseNeverReturns(heads: seq<Head>, changes: seq<Change>, i: nat, j: nat, k: nat)
    requires Chain(heads, changes) && i <= j <= k < |heads|
    requires CheckpointAppendBase(heads[i], heads[k])
    ensures CheckpointAppendBase(heads[i], heads[j])
  {
    AppendRankOrder(heads, changes, i, j);
    AppendRankOrder(heads, changes, j, k);
  }

  /** Of two heads compatible with an older one, the later is compatible with the earlier. */
  lemma {:induction false} AppendBaseNarrows(heads: seq<Head>, changes: seq<Change>, i: nat, j: nat, k: nat)
    requires Chain(heads, changes) && i <= j <= k < |heads|
    requires CheckpointAppendBase(heads[i], heads[j]) && CheckpointAppendBase(heads[i], heads[k])
    ensures CheckpointAppendBase(heads[j], heads[k])
  {
    AppendRankOrder(heads, changes, j, k);
  }

  /** Compatible heads are separated only by retention updates, or by these and appends. */
  lemma {:induction false} CompatibleChanges(heads: seq<Head>, changes: seq<Change>, i: nat, j: nat, k: nat)
    requires Chain(heads, changes) && i <= k < j < |heads|
    ensures SamePublicationBase(heads[i], heads[j]) ==> changes[k].Retention?
    ensures CheckpointAppendBase(heads[i], heads[j]) ==> changes[k].Retention? || changes[k].Append?
  {
    BaseRankOrder(heads, changes, i, k);
    BaseRankOrder(heads, changes, k + 1, j);
    AppendRankOrder(heads, changes, i, k);
    AppendRankOrder(heads, changes, k + 1, j);
    RankStep(heads, changes, k);
  }

  // ---- Collection epochs ----

  /** Epochs only grow, and one epoch never changes its plan except to drop it. */
  lemma {:induction false} EpochOrder(heads: seq<Head>, changes: seq<Change>, i: nat, j: nat)
    requires Chain(heads, changes) && i <= j < |heads|
    ensures heads[i].collectionEpoch <= heads[j].collectionEpoch
    ensures heads[i].collectionEpoch == heads[j].collectionEpoch ==>
              heads[j].activePlan == heads[i].activePlan || heads[j].activePlan.None?
    decreases j - i
  {
    if i < j {
      EpochOrder(heads, changes, i, j - 1);
      assert Link(heads, changes, j - 1);
    }
  }

  /** A plan active in two heads is active in every head between them. */
  lemma {:induction false} PlanIsContinuous(heads: seq<Head>, changes: seq<Change>, i: nat, j: nat, k: nat)
    requires Chain(heads, changes) && i <= j <= k < |heads|
    requires heads[i].activePlan.Some? && heads[i].activePlan == heads[k].activePlan
    ensures heads[j].activePlan == heads[i].activePlan
    ensures heads[j].collectionEpoch == heads[i].collectionEpoch
  {
    ChainWindow(heads, changes, i);
    ChainWindow(heads, changes, k);
    EpochOrder(heads, changes, i, j);
    EpochOrder(heads, changes, j, k);
  }

  /** The updates that end a retention: its own release, or the clearing of all. */
  predicate Ends(c: Change, id: RetentionId) {
    c == Retention(Release(id)) || c == Retention(ClearAfterDrain)
  }

  /** A head has a retention exactly if it was acquired and nothing has ended it since, whatever else was updated. */
  lemma {:induction false} RetainedExactly(heads: seq<Head>, changes: seq<Change>, id: RetentionId, n: nat)
    requires Chain(heads, changes) && n < |heads|
    ensures id in heads[n].retentionIds <==>
            exists i :: 0 <= i < n && changes[i] == Retention(Acquire(id)) && forall k | i < k < n :: !Ends(changes[k], id)
    decreases n
  {
    if n > 0 {
      RetainedExactly(heads, changes, id, n - 1);
      assert Link(heads, changes, n - 1);
      if id in heads[n].retentionIds {
        if id in heads[n - 1].retentionIds {
          var i :| 0 <= i < n - 1 && changes[i] == Retention(Acquire(id)) && forall k | i < k < n - 1 :: !Ends(changes[k], id);
          assert !Ends(changes[n - 1], id);
        } else {
          assert changes[n - 1] == Retention(Acquire(id));
        }
      }
    }
  }

  /** A retention stays until it is ended. */
  lemma {:induction false} RetentionStays(
    heads: seq<Head>, changes: seq<Change>, id: RetentionId, i: nat, j: nat)
    requires Chain(heads, changes) && i <= j < |heads| && id in heads[i].retentionIds
    requires forall k | i <= k < j :: !Ends(changes[k], id)
    ensures id in heads[j].retentionIds
    decreases j - i
  {
    if i < j {
      RetentionStays(heads, changes, id, i, j - 1);
      assert Link(heads, changes, j - 1);
    }
  }

  /** While one retention stays in the head, no plan is installed. */
  lemma {:induction false} RetentionHoldsEpoch(
    heads: seq<Head>, changes: seq<Change>, id: RetentionId, i: nat, j: nat)
    requires Chain(heads, changes) && i <= j < |heads|
    requires forall k | i <= k < j :: id in heads[k].retentionIds
    ensures heads[i].collectionEpoch == heads[j].collectionEpoch
    decreases j - i
  {
    if i < j {
      RetentionHoldsEpoch(heads, changes, id, i, j - 1);
      assert id in heads[j - 1].retentionIds;
      assert Link(heads, changes, j - 1);
    }
  }

  // ---- What a change adds to the reachable keys ----

  function Added(c: Change): set<Key> {
    match c
    case Append(commit) => Closure(commit.key)
    case Compact(_, key) => Closure(key)
    case _ => {}
  }

  lemma {:induction false} ReachAfter(h: Head, c: Change)
    requires Allowed(h, c)
    ensures Reach(After(h, c)) <= Reach(h) + Added(c)
  {
    match c {
      case Append(commit) =>
        assert (h.tail + [commit])[..|h.tail|] == h.tail;
      case Compact(through, key) =>
        ReachTailSuffix(h.tail, Position(h.tail, through) + 1);
      case _ =>
    }
  }

  /** A plan active at `g` and not at `view` was cleared in between. */
  lemma {:induction false} ClearedBetween(heads: seq<Head>, changes: seq<Change>, g: nat, view: nat) returns (i: nat)
    requires Chain(heads, changes) && g <= view < |heads|
    requires heads[g].activePlan.Some? && heads[g].activePlan != heads[view].activePlan
    ensures g <= i < view && changes[i].Unfence? && heads[i].activePlan == heads[g].activePlan
    decreases view - g
  {
    assert Link(heads, changes, g);
    if heads[g + 1].activePlan == heads[g].activePlan {
      i := ClearedBetween(heads, changes, g + 1, view);
    } else {
      i := g;
    }
  }
}
