/**
The chain of heads published over the life of a log, and the commit history it
writes. Everything here holds for any chain of allowed head updates.
*/
module HeadChain {
  import opened Wrappers
  import opened Words
  import opened Heads

  /** Each head is the previous one after one allowed change. */
  predicate Chain(heads: seq<Head>, changes: seq<Change>) {
    && |heads| == |changes| + 1
    && heads[0] == EmptyHead(heads[0].logId, heads[0].incarnation, heads[0].options)
    && (forall i | 0 <= i < |changes| :: Link(heads, changes, i))
  }

  predicate Link(heads: seq<Head>, changes: seq<Change>, i: nat)
    requires i < |changes| && |heads| == |changes| + 1
  {
    && Allowed(heads[i], changes[i])
    && heads[i + 1] == After(heads[i], changes[i])
  }

  lemma {:induction false} ChainExtends(heads: seq<Head>, changes: seq<Change>, c: Change)
    requires Chain(heads, changes)
    requires Allowed(heads[|changes|], c)
    ensures Chain(heads + [After(heads[|changes|], c)], changes + [c])
  {
    var heads', changes' := heads + [After(heads[|changes|], c)], changes + [c];
    forall k | 0 <= k < |changes'| ensures Link(heads', changes', k) {
      if k < |changes| { assert Link(heads, changes, k); }
    }
  }

  /** Every commit ever published, in order. */
  function History(changes: seq<Change>): seq<CommitRef> {
    if changes == [] then []
    else History(changes[..|changes| - 1]) + Published(changes[|changes| - 1])
  }

  function Published(c: Change): seq<CommitRef> {
    if c.Append? then [c.commit] else []
  }

  lemma {:induction false} HistoryExtends(changes: seq<Change>, c: Change)
    ensures History(changes + [c]) == History(changes) + Published(c)
  {
    assert (changes + [c])[..|changes|] == changes;
  }

  lemma {:induction false} HistoryPrefix(changes: seq<Change>, i: nat)
    requires i <= |changes|
    ensures History(changes[..i]) <= History(changes)
  {
    if i == |changes| {
      assert changes[..i] == changes;
    } else {
      var init := changes[..|changes| - 1];
      assert init[..i] == changes[..i];
      HistoryPrefix(init, i);
    }
  }

  lemma {:induction false} AppendedIsInHistory(changes: seq<Change>, i: nat)
    requires i < |changes| && changes[i].Append?
    ensures changes[i].commit in History(changes)
  {
    HistoryExtends(changes[..i], changes[i]);
    assert changes[..i + 1] == changes[..i] + [changes[i]];
    HistoryPrefix(changes, i + 1);
    assert changes[i].commit in History(changes[..i + 1]);
  }

  lemma {:induction false} HistoryIsAppended(changes: seq<Change>, c: CommitRef)
    requires c in History(changes)
    ensures exists i :: 0 <= i < |changes| && changes[i] == Append(c)
  {
    var n := |changes| - 1;
    if changes[n] != Append(c) {
      HistoryIsAppended(changes[..n], c);
      var i :| 0 <= i < n && changes[..n][i] == Append(c);
      assert changes[i] == Append(c);
    }
  }

  // ---- A head is a window on the history ----

  /** The digest on which the commit at position `i` must have been prepared. */
  function TipBefore(history: seq<CommitRef>, i: nat): Option<Body>
    requires i <= |history|
  {
    if i == 0 then None else Some(history[i - 1].key.body)
  }

  /** `commit` names `tip` as its predecessor and carries its own transaction. */
  predicate Follows(commit: CommitRef, tip: Option<Body>) {
    && commit.key.body.Commit?
    && commit.key.body.transaction == commit.transaction
    && commit.key.body.expectedTip == tip
  }

  predicate Linked(history: seq<CommitRef>) {
    forall i | 0 <= i < |history| :: Follows(history[i], TipBefore(history, i))
  }

  /** The commits a head can still name: the outcome window and the tail. */
  function Retains(h: Head): seq<CommitRef> { h.recentOutcomes + h.tail }

  /** The tail and the outcome window of `h` are the end of `history`. */
  predicate Shows(h: Head, history: seq<CommitRef>) {
    && h.nextSequence == |history|
    && Checkpointed(h) <= |history|
    && h.tail == history[Checkpointed(h)..]
    && h.recentOutcomes == LastEntries(history[..Checkpointed(h)], h.options.resolutionWindow)
  }

  /** The checkpoint names the last commit it covers, and so does its object. */
  predicate NamesCovered(h: Head, history: seq<CommitRef>)
    requires Checkpointed(h) <= |history|
  {
    h.checkpoint.Some? ==>
      && h.checkpoint.value.throughCommit == history[Checkpointed(h) - 1].key.body
      && h.checkpoint.value.key.body.Checkpoint?
      && h.checkpoint.value.key.body.throughSequence == h.checkpoint.value.throughSequence
      && h.checkpoint.value.key.body.throughCommit == h.checkpoint.value.throughCommit
  }

  /** `h` shows the end of `history` and repeats no transaction. */
  predicate Window(h: Head, history: seq<CommitRef>) {
    && Shows(h, history)
    && NamesCovered(h, history)
    && DistinctTransactions(Retains(h))
  }

  /** The history is numbered from zero and linked by parent digests without a gap. */
  predicate WellFormed(history: seq<CommitRef>) {
    && Contiguous(history, 0)
    && Linked(history)
  }

  predicate Bounded(h: Head) {
    && |h.tail| <= h.options.maxTailEntries
    && h.nextSequence <= h.generation <= U64_MAX
    && ValidCollectionState(h)
    && (h.activePlan.Some? ==>
          && h.activePlan.value.key.body.Plan?
          && h.activePlan.value.key.body.epoch == h.collectionEpoch)
  }

  lemma {:induction false} ShowsRetained(h: Head, history: seq<CommitRef>)
    requires Shows(h, history)
    ensures |h.recentOutcomes| == Retained(h, Checkpointed(h))
    ensures Retains(h) == history[Checkpointed(h) - |h.recentOutcomes|..]
  {
    var n, r := Checkpointed(h), |h.recentOutcomes|;
    assert h.recentOutcomes == history[..n][n - r..] == history[n - r..n];
    assert history[n - r..] == history[n - r..n] + history[n..];
  }

  lemma {:induction false} ContiguousSlice(history: seq<CommitRef>, from: nat, to: nat)
    requires Contiguous(history, 0) && from <= to <= |history|
    ensures Contiguous(history[from..to], from)
  {
  }

  lemma {:induction false} DistinctSuffix(s: seq<CommitRef>, from: nat)
    requires from <= |s| && DistinctTransactions(s)
    ensures DistinctTransactions(s[from..])
  {
    assert s == s[..from] + s[from..];
    DistinctAcross(s[..from], s[from..]);
  }

  /** A bounded window on a well-formed history passes `Validate`. */
  lemma {:induction false} WindowIsValid(h: Head, history: seq<CommitRef>)
    requires Window(h, history) && Bounded(h) && Contiguous(history, 0)
    ensures ValidHead(h)
  {
    hide Contiguous, DistinctTransactions;
    var n, r := Checkpointed(h), |h.recentOutcomes|;
    assert |h.recentOutcomes| == Retained(h, n) && Contiguous(h.recentOutcomes, n - r)
        && Contiguous(h.tail, n) && (r > 0 ==> Last(h.recentOutcomes) == history[n - 1])
    by {
      ShowsRetained(h, history);
      assert h.recentOutcomes == history[n - r..n];
      assert h.tail == history[n..|history|];
      ContiguousSlice(history, n - r, n);
      ContiguousSlice(history, n, |history|);
    }
    assert DistinctTransactions(h.tail + h.recentOutcomes) by {
      DistinctAcross(h.recentOutcomes, h.tail);
      DistinctAcross(h.tail, h.recentOutcomes);
    }
  }

  lemma {:induction false} ShowsTip(h: Head, history: seq<CommitRef>)
    requires Shows(h, history) && NamesCovered(h, history)
    ensures Tip(h) == TipBefore(history, |history|)
  {
  }

  /** Every allowed change turns a window on the history into a window on what it then is. */
  lemma {:induction false} WindowAfter(h: Head, history: seq<CommitRef>, c: Change)
    requires Window(h, history) && Contiguous(history, 0) && Allowed(h, c)
    ensures Window(After(h, c), history + Published(c))
  {
    if c.Append? {
      WindowAfterAppend(h, history, c.commit);
    } else {
      assert history + Published(c) == history;
      if c.Compact? {
        WindowAfterCompact(h, history, c.through, c.key);
      } else {
        SameWindow(h, After(h, c), history);
      }
    }
  }

  lemma {:induction false} SameWindow(h: Head, h': Head, history: seq<CommitRef>)
    requires Window(h, history)
    requires h'.options == h.options && h'.nextSequence == h.nextSequence && h'.checkpoint == h.checkpoint
    requires h'.tail == h.tail && h'.recentOutcomes == h.recentOutcomes
    ensures Window(h', history)
  {
  }

  lemma {:induction false} BoundedAfter(h: Head, c: Change)
    requires Bounded(h) && Allowed(h, c)
    ensures Bounded(After(h, c))
  {
    match c {
      case Append(_) =>
      case Compact(_, _) =>
      case Retention(change) => BoundedAfterRetention(h, change);
      case Install(_) =>
      case Unfence =>
    }
  }

  lemma {:induction false} BoundedAfterRetention(h: Head, change: RetentionChange)
    requires h.generation < U64_MAX && Bounded(h) && AllowedRetention(h, change)
    ensures Bounded(AfterRetention(h, change))
  {
    if change.Release? {
      assert h.retentionIds == h.retentionIds - {change.id} + {change.id};
    }
  }

  /** Publishing on top of the current tip keeps the history well formed. */
  lemma {:induction false} HistoryAppend(history: seq<CommitRef>, commit: CommitRef)
    requires WellFormed(history)
    requires commit.sequence == |history|
    requires Follows(commit, TipBefore(history, |history|))
    ensures WellFormed(history + [commit])
  {
    hide Follows;
    var s := history + [commit];
    forall i | 0 <= i < |s| ensures Follows(s[i], TipBefore(s, i)) {
      assert TipBefore(s, i) == TipBefore(history, i);
      if i < |history| { assert s[i] == history[i]; }
    }
  }

  lemma {:induction false} WindowAfterAppend(h: Head, history: seq<CommitRef>, commit: CommitRef)
    requires Window(h, history) && AllowedAppend(h, commit)
    ensures Window(AfterAppend(h, commit), history + [commit])
  {
    var h', history', n := AfterAppend(h, commit), history + [commit], Checkpointed(h);
    assert history'[n..] == history[n..] + [commit] && history'[..n] == history[..n];
    assert DistinctTransactions(Retains(h')) by {
      assert Retains(h') == Retains(h) + [commit];
      DistinctAcross(Retains(h), [commit]);
    }
  }

  lemma {:induction false} WindowAfterCompact(h: Head, history: seq<CommitRef>, through: CommitRef, key: Key)
    requires Window(h, history) && Contiguous(history, 0) && AllowedCompact(h, through, key)
    ensures Window(AfterCompact(h, through, key), history)
  {
    var h' := AfterCompact(h, through, key);
    ShowsAfterCompact(h, history, through, key);
    RetainsLess(h, h', history);
  }

  /** A later checkpoint retains a suffix of what an earlier one did. */
  lemma {:induction false} RetainsLess(h: Head, h': Head, history: seq<CommitRef>)
    requires Shows(h, history) && Shows(h', history) && DistinctTransactions(Retains(h))
    requires h'.options == h.options && Checkpointed(h) <= Checkpointed(h')
    ensures DistinctTransactions(Retains(h'))
  {
    ShowsRetained(h, history);
    ShowsRetained(h', history);
    var from := |Retains(h)| - |Retains(h')|;
    assert Retains(h') == Retains(h)[from..];
    DistinctSuffix(Retains(h), from);
  }

  lemma {:induction false} ShowsAfterCompact(h: Head, history: seq<CommitRef>, through: CommitRef, key: Key)
    requires Shows(h, history) && Contiguous(history, 0) && AllowedCompact(h, through, key)
    ensures Shows(AfterCompact(h, through, key), history)
    ensures NamesCovered(AfterCompact(h, through, key), history)
  {
    hide LastEntries;
    var n, i := Checkpointed(h), Position(h.tail, through);
    assert through == history[n + i];
    CompactedSlices(history, n, i, h.options.resolutionWindow);
    assert Checkpointed(AfterCompact(h, through, key)) == n + i + 1;
  }

  lemma {:induction false} CompactedSlices(history: seq<CommitRef>, n: nat, i: nat, window: nat)
    requires n + i < |history|
    ensures history[n..][i + 1..] == history[n + i + 1..]
    ensures LastEntries(LastEntries(history[..n], window) + history[n..][..i + 1], window)
            == LastEntries(history[..n + i + 1], window)
  {
    assert history[..n + i + 1] == history[..n] + history[n..][..i + 1];
    LastOfLast(history[..n], history[n..][..i + 1], window);
  }

  /** Trimming twice is trimming once. */
  lemma {:induction false} LastOfLast(a: seq<CommitRef>, b: seq<CommitRef>, window: nat)
    ensures LastEntries(LastEntries(a, window) + b, window) == LastEntries(a + b, window)
  {
    var x, y := LastEntries(LastEntries(a, window) + b, window), LastEntries(a + b, window);
    forall i | 0 <= i < |x| ensures x[i] == y[i] {
    }
  }

  lemma {:induction false} PrefixStep(changes: seq<Change>, i: nat)
    requires i < |changes|
    ensures changes[..i + 1] == changes[..i] + [changes[i]]
  {
  }

  /** Every published head is a valid window on the commits published before it. */
  lemma {:induction false} ChainWindow(heads: seq<Head>, changes: seq<Change>, i: nat)
    requires Chain(heads, changes) && i < |heads|
    ensures Window(heads[i], History(changes[..i]))
    ensures WellFormed(History(changes[..i]))
    ensures Bounded(heads[i])
  {
    if i > 0 {
      ChainWindow(heads, changes, i - 1);
      PrefixStep(changes, i - 1);
      assert Link(heads, changes, i - 1);
      WindowStep(heads[i - 1], changes[..i - 1], changes[i - 1]);
    }
  }

  /** The generation counts head updates, so no head content is ever published twice. */
  lemma {:induction false} ChainGeneration(heads: seq<Head>, changes: seq<Change>, i: nat)
    requires Chain(heads, changes) && i < |heads|
    ensures heads[i].generation == i
  {
    if i > 0 {
      ChainGeneration(heads, changes, i - 1);
      assert Link(heads, changes, i - 1);
    }
  }

  lemma {:induction false} WindowStep(h: Head, changes: seq<Change>, c: Change)
    requires Window(h, History(changes)) && WellFormed(History(changes)) && Bounded(h) && Allowed(h, c)
    ensures Window(After(h, c), History(changes + [c]))
    ensures WellFormed(History(changes + [c]))
    ensures Bounded(After(h, c))
  {
    HistoryExtends(changes, c);
    WindowAfter(h, History(changes), c);
    BoundedAfter(h, c);
    if c.Append? {
      ShowsTip(h, History(changes));
      HistoryAppend(History(changes), c.commit);
    } else {
      assert History(changes) + Published(c) == History(changes);
    }
  }

  lemma {:induction false} ChainValid(heads: seq<Head>, changes: seq<Change>, i: nat)
    requires Chain(heads, changes) && i < |heads|
    ensures ValidHead(heads[i])
  {
    ChainWindow(heads, changes, i);
    WindowIsValid(heads[i], History(changes[..i]));
  }
}
