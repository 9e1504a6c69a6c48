/**
The mutable head of a log, the immutable objects it names, and the five ways a
head update may change it.

A digest is modelled by the content it was computed from, so equal digests mean
equal contents. A `Key` is a physical storage identity together with a digest.
*/
module Heads {
  import opened Wrappers
  import opened Words

  type StorageId = nat
  type TransactionId = nat
  type RetentionId = nat

  /** Durable limits recorded in the head. */
  datatype Options = Options(
    maxTailEntries: nat,
    resolutionWindow: nat,
    maxObjectRefs: nat,
    maxObjectBytes: nat,
    maxRetentionIds: nat,
    maxCollectionObjects: nat,
    maxCollectionPlanBytes: nat)

  /** The content of one immutable object. */
  datatype Body =
    | Blob(bytes: seq<byte>)
    | Node(payload: seq<byte>, children: seq<Key>)
    | Commit(transaction: TransactionId, expectedTip: Option<Body>, operation: seq<byte>, objects: seq<Key>)
    | Checkpoint(throughSequence: nat, throughCommit: Body, snapshot: seq<byte>, objects: seq<Key>)
    | Plan(epoch: nat, candidates: set<Key>)

  datatype Key = Key(id: StorageId, body: Body)

  datatype CommitRef = CommitRef(sequence: nat, transaction: TransactionId, key: Key)

  datatype CheckpointRef = CheckpointRef(throughSequence: nat, throughCommit: Body, key: Key)

  datatype PlanRef = PlanRef(key: Key, len: nat)

  datatype Head = Head(
    logId: nat,
    incarnation: nat,
    options: Options,
    generation: nat,
    nextSequence: nat,
    checkpoint: Option<CheckpointRef>,
    tail: seq<CommitRef>,
    recentOutcomes: seq<CommitRef>,
    collectionEpoch: nat,
    activePlan: Option<PlanRef>,
    retentionIds: set<RetentionId>)

  function EmptyHead(logId: nat, incarnation: nat, options: Options): Head {
    Head(logId, incarnation, options, 0, 0, None, [], [], 0, None, {})
  }

  function Tip(h: Head): Option<Body> {
    if h.tail != [] then Some(Last(h.tail).key.body)
    else if h.checkpoint.Some? then Some(h.checkpoint.value.throughCommit)
    else None
  }

  /** The number of commits covered by the checkpoint. */
  function Checkpointed(h: Head): nat {
    if h.checkpoint.Some? then h.checkpoint.value.throughSequence + 1 else 0
  }

  // ---- Reachability ----

  /** Everything that must stay durable while `k` is referenced. */
  function Closure(k: Key): set<Key>
    decreases k, 1
  {
    {k} + (match k.body
           case Node(_, children) => ClosureAll(children)
           case Commit(_, _, _, objects) => ClosureAll(objects)
           case Checkpoint(_, _, _, objects) => ClosureAll(objects)
           case _ => {})
  }

  function ClosureAll(ks: seq<Key>): set<Key>
    decreases ks, 0
  {
    if ks == [] then {} else Closure(ks[0]) + ClosureAll(ks[1..])
  }

  function ReachTail(tail: seq<CommitRef>): set<Key> {
    if tail == [] then {} else ReachTail(tail[..|tail| - 1]) + Closure(tail[|tail| - 1].key)
  }

  /** The keys a reader of this head may need: its tail, its checkpoint and their graphs. */
  function Reach(h: Head): set<Key> {
    ReachTail(h.tail) + (if h.checkpoint.Some? then Closure(h.checkpoint.value.key) else {})
  }

  /** The objects that `k` names. */
  function Named(k: Key): seq<Key> {
    match k.body
    case Node(_, children) => children
    case Commit(_, _, _, objects) => objects
    case Checkpoint(_, _, _, objects) => objects
    case _ => []
  }

  /** What a reference to `k` has to declare: a shared object counts every time it is named. */
  function Count(k: Key): (n: nat)
    ensures n > 0
    decreases k, 1
  {
    1 + match k.body
        case Node(_, children) => CountAll(children)
        case Commit(_, _, _, objects) => CountAll(objects)
        case Checkpoint(_, _, _, objects) => CountAll(objects)
        case _ => 0
  }

  function CountAll(ks: seq<Key>): nat
    decreases ks, 0
  {
    if ks == [] then 0 else Count(ks[0]) + CountAll(ks[1..])
  }

  /** What a record may name: a limited number of objects, and with all below them a limited count. */
  predicate Admits(o: Options, objects: seq<Key>) {
    && |objects| <= o.maxObjectRefs
    && 1 + CountAll(objects) <= o.maxCollectionObjects
    && 1 + CountAll(objects) <= U64_MAX
  }

  lemma {:induction false} ClosureAllCovers(ks: seq<Key>, k: Key)
    requires k in ks
    ensures Closure(k) <= ClosureAll(ks)
  {
    if ks[0] != k { ClosureAllCovers(ks[1..], k); }
  }

  lemma {:induction false} ClosureAllOnly(ks: seq<Key>, x: Key)
    requires x in ClosureAll(ks)
    ensures exists k :: k in ks && x in Closure(k)
  {
    if x in Closure(ks[0]) {
      assert ks[0] in ks;
    } else {
      ClosureAllOnly(ks[1..], x);
    }
  }

  /** Dropping a prefix of the tail can only shrink what it reaches. */
  lemma {:induction false} ReachTailSuffix(tail: seq<CommitRef>, from: nat)
    requires from <= |tail|
    ensures ReachTail(tail[from..]) <= ReachTail(tail)
  {
    if from < |tail| {
      var init := tail[..|tail| - 1];
      assert tail[from..][..|tail[from..]| - 1] == init[from..];
      ReachTailSuffix(init, from);
    }
  }

  lemma {:induction false} ReachTailCovers(tail: seq<CommitRef>, i: nat)
    requires i < |tail|
    ensures Closure(tail[i].key) <= ReachTail(tail)
  {
    if i < |tail| - 1 { ReachTailCovers(tail[..|tail| - 1], i); }
  }

  lemma {:induction false} ReachTailOnly(tail: seq<CommitRef>, x: Key)
    requires x in ReachTail(tail)
    ensures exists i :: 0 <= i < |tail| && x in Closure(tail[i].key)
  {
    if x !in Closure(tail[|tail| - 1].key) {
      ReachTailOnly(tail[..|tail| - 1], x);
      var i :| 0 <= i < |tail| - 1 && x in Closure(tail[..|tail| - 1][i].key);
      assert x in Closure(tail[i].key);
    }
  }

  // ---- Base comparisons ----

  /** The heads differ at most in generation and retention bookkeeping. */
  predicate SamePublicationBase(a: Head, b: Head) {
    && a.logId == b.logId
    && a.incarnation == b.incarnation
    && a.options == b.options
    && a.nextSequence == b.nextSequence
    && a.checkpoint == b.checkpoint
    && a.tail == b.tail
    && a.recentOutcomes == b.recentOutcomes
    && a.collectionEpoch == b.collectionEpoch
    && a.activePlan == b.activePlan
  }

  /** `b` is `a` with commits appended and retention bookkeeping moved. */
  predicate CheckpointAppendBase(a: Head, b: Head) {
    && a.tail <= b.tail
    && a.logId == b.logId
    && a.incarnation == b.incarnation
    && a.options == b.options
    && a.checkpoint == b.checkpoint
    && a.recentOutcomes == b.recentOutcomes
    && a.collectionEpoch == b.collectionEpoch
    && a.activePlan == b.activePlan
    && a.nextSequence + (|b.tail| - |a.tail|) <= U64_MAX
    && a.nextSequence + (|b.tail| - |a.tail|) == b.nextSequence
  }

  // ---- Head updates ----

  datatype RetentionChange = Acquire(id: RetentionId) | Release(id: RetentionId) | ClearAfterDrain

  datatype RetentionState = Applied | ActiveCollection | Conflict

  function ClassifyRetention(change: RetentionChange, h: Head): RetentionState {
    match change
    case Acquire(id) =>
      if id in h.retentionIds then Applied
      else if h.activePlan.Some? then ActiveCollection
      else Conflict
    case Release(id) => if id !in h.retentionIds then Applied else Conflict
    case ClearAfterDrain => if h.retentionIds == {} then Applied else Conflict
  }

  function ApplyRetention(change: RetentionChange, ids: set<RetentionId>): set<RetentionId> {
    match change
    case Acquire(id) => ids + {id}
    case Release(id) => ids - {id}
    case ClearAfterDrain => {}
  }

  /** What one conditional head update asks for. */
  datatype Change =
    | Append(commit: CommitRef)
    | Compact(through: CommitRef, key: Key)
    | Retention(change: RetentionChange)
    | Install(plan: PlanRef)
    | Unfence

  /** The first position of `entry`, or the length when it is absent. */
  function Position(tail: seq<CommitRef>, entry: CommitRef): (i: nat)
    ensures i <= |tail|
    ensures i < |tail| ==> tail[i] == entry
    ensures i < |tail| <==> entry in tail
  {
    if tail == [] then 0
    else if tail[0] == entry then 0
    else Position(tail[1..], entry) + 1
  }

  function LastEntries(s: seq<CommitRef>, window: nat): (r: seq<CommitRef>)
    ensures |r| == if |s| < window then |s| else window
  {
    if |s| > window then s[|s| - window..] else s
  }

  function AfterAppend(h: Head, commit: CommitRef): Head {
    h.(generation := h.generation + 1, nextSequence := h.nextSequence + 1, tail := h.tail + [commit])
  }

  /** Moves the covered prefix of the tail into the outcome window. */
  function AfterCompact(h: Head, through: CommitRef, key: Key): Head {
    var covered := if through in h.tail then Position(h.tail, through) + 1 else 0;
    h.(generation := h.generation + 1,
    tail := h.tail[covered..],
    recentOutcomes := LastEntries(h.recentOutcomes + h.tail[..covered], h.options.resolutionWindow),
    checkpoint := Some(CheckpointRef(through.sequence, through.key.body, key)))
  }

  function AfterRetention(h: Head, change: RetentionChange): Head {
    h.(generation := h.generation + 1, retentionIds := ApplyRetention(change, h.retentionIds))
  }

  function AfterInstall(h: Head, plan: PlanRef): Head {
    h.(generation := h.generation + 1, collectionEpoch := h.collectionEpoch + 1, activePlan := Some(plan))
  }

  function AfterUnfence(h: Head): Head {
    h.(generation := h.generation + 1, activePlan := None)
  }

  predicate FreshTransaction(h: Head, transaction: TransactionId) {
    forall e | e in h.recentOutcomes + h.tail :: e.transaction != transaction
  }

  predicate AllowedAppend(h: Head, commit: CommitRef) {
    && |h.tail| < h.options.maxTailEntries
    && commit.sequence == h.nextSequence
    && FreshTransaction(h, commit.transaction)
    && commit.key.body.Commit?
    && commit.key.body.transaction == commit.transaction
    && commit.key.body.expectedTip == Tip(h)
    && Admits(h.options, commit.key.body.objects)
  }

  predicate AllowedCompact(h: Head, through: CommitRef, key: Key) {
    && through in h.tail
    && key.body.Checkpoint?
    && key.body.throughSequence == through.sequence
    && key.body.throughCommit == through.key.body
    && Admits(h.options, key.body.objects)
  }

  predicate AllowedRetention(h: Head, change: RetentionChange) {
    && ClassifyRetention(change, h) == Conflict
    && (change.Acquire? ==> |h.retentionIds| < h.options.maxRetentionIds)
  }

  predicate AllowedInstall(h: Head, plan: PlanRef) {
    && h.activePlan.None?
    && h.retentionIds == {}
    && h.collectionEpoch < U64_MAX
    && plan.len <= h.options.maxCollectionPlanBytes
    && plan.key.body.Plan?
    && plan.key.body.epoch == h.collectionEpoch + 1
    && plan.key.body.candidates != {}
    && |plan.key.body.candidates| <= h.options.maxCollectionObjects
    && plan.key.body.candidates !! Reach(h)
  }

  /** The checks a writer makes before it builds `After(h, c)`. */
  predicate Allowed(h: Head, c: Change) {
    && h.generation < U64_MAX
    && match c
       case Append(commit) => AllowedAppend(h, commit)
       case Compact(through, key) => AllowedCompact(h, through, key)
       case Retention(change) => AllowedRetention(h, change)
       case Install(plan) => AllowedInstall(h, plan)
       case Unfence => h.activePlan.Some?
  }

  /** The head a writer builds for `c` on top of `h`. */
  function After(h: Head, c: Change): Head {
    match c
    case Append(commit) => AfterAppend(h, commit)
    case Compact(through, key) => AfterCompact(h, through, key)
    case Retention(change) => AfterRetention(h, change)
    case Install(plan) => AfterInstall(h, plan)
    case Unfence => AfterUnfence(h)
  }

  /** The deletion set of the fence, empty when no fence is active. */
  function Candidates(h: Head): set<Key> {
    if h.activePlan.Some? && h.activePlan.value.key.body.Plan?
    then h.activePlan.value.key.body.candidates else {}
  }

  // ---- Validation ----

  predicate Contiguous(commits: seq<CommitRef>, start: nat) {
    forall i | 0 <= i < |commits| :: commits[i].sequence == start + i
  }

  predicate DistinctTransactions(commits: seq<CommitRef>) {
    forall i, j | 0 <= i < j < |commits| :: commits[i].transaction != commits[j].transaction
  }

  predicate ValidCollectionState(h: Head) {
    && h.collectionEpoch <= h.generation
    && |h.retentionIds| <= h.options.maxRetentionIds
    && (h.activePlan.Some? ==>
          && h.retentionIds == {}
          && h.collectionEpoch > 0
          && h.activePlan.value.len <= h.options.maxCollectionPlanBytes)
  }

  /** How many of `available` compacted outcomes a head keeps. */
  function Retained(h: Head, available: nat): (n: nat)
    ensures n <= available && n <= h.options.resolutionWindow
  {
    if available < h.options.resolutionWindow then available else h.options.resolutionWindow
  }

  function Last(commits: seq<CommitRef>): CommitRef
    requires commits != []
  {
    commits[|commits| - 1]
  }

  /** What `Validate` accepts, said without its order of checks. */
  predicate ValidHead(h: Head) {
    && |h.tail| <= h.options.maxTailEntries
    && |h.recentOutcomes| <= h.options.resolutionWindow
    && h.nextSequence <= h.generation
    && ValidCollectionState(h)
    && (h.checkpoint.Some? ==> h.checkpoint.value.key.body.Checkpoint?)
    && Checkpointed(h) + |h.tail| <= U64_MAX
    && h.nextSequence == Checkpointed(h) + |h.tail|
    && |h.recentOutcomes| == Retained(h, Checkpointed(h))
    && Contiguous(h.recentOutcomes, Checkpointed(h) - |h.recentOutcomes|)
    && Contiguous(h.tail, Checkpointed(h))
    && DistinctTransactions(h.tail + h.recentOutcomes)
    && (h.recentOutcomes != [] && h.checkpoint.Some? ==>
          Last(h.recentOutcomes).key.body == h.checkpoint.value.throughCommit)
  }

  function Transactions(commits: seq<CommitRef>): set<TransactionId> {
    set e | e in commits :: e.transaction
  }

  /** Checks one contiguous run of commits and adds its transactions to `ids`. */
  method ValidateCommitSequence(commits: seq<CommitRef>, start: nat, ids: set<TransactionId>)
    returns (r: Result<set<TransactionId>>)
    ensures r.Ok? <==>
      && (commits != [] ==> start + |commits| - 1 <= U64_MAX)
      && Contiguous(commits, start)
      && DistinctTransactions(commits)
      && Transactions(commits) !! ids
    ensures r.Ok? ==> r.value == ids + Transactions(commits)
  {
    var seen := ids;
    var offset := 0;
    while offset < |commits|
      invariant offset <= |commits|
      invariant offset > 0 ==> start + offset - 1 <= U64_MAX
      invariant Contiguous(commits[..offset], start)
      invariant DistinctTransactions(commits[..offset])
      invariant Transactions(commits[..offset]) !! ids
      invariant seen == ids + Transactions(commits[..offset])
    {
      assert commits[..offset + 1] == commits[..offset] + [commits[offset]];
      if start + offset > U64_MAX {
        return Err(InvalidFormat);
      }
      if commits[offset].sequence != start + offset {
        return Err(InvalidFormat);
      }
      if commits[offset].transaction in seen {
        RepeatedTransaction(commits, offset, ids);
        return Err(InvalidFormat);
      }
      seen := seen + {commits[offset].transaction};
      offset := offset + 1;
    }
    assert commits[..offset] == commits;
    r := Ok(seen);
  }

  lemma {:induction false} RepeatedTransaction(commits: seq<CommitRef>, n: nat, ids: set<TransactionId>)
    requires n < |commits|
    requires commits[n].transaction in ids + Transactions(commits[..n])
    ensures !DistinctTransactions(commits) || !(Transactions(commits) !! ids)
  {
    if commits[n].transaction in ids {
      assert commits[n] in commits;
    } else {
      var e :| e in commits[..n] && e.transaction == commits[n].transaction;
      var i :| 0 <= i < n && commits[..n][i] == e;
      assert commits[i].transaction == commits[n].transaction;
    }
  }

  method ValidateCollectionState(h: Head) returns (r: Result<()>)
    ensures r.Ok? <==> ValidCollectionState(h)
  {
    if h.collectionEpoch > h.generation
      || |h.retentionIds| > h.options.maxRetentionIds
      || (h.activePlan.Some? && h.retentionIds != {})
    {
      return Err(InvalidFormat);
    }
    if h.activePlan.Some? {
      if h.collectionEpoch == 0 || h.activePlan.value.len > h.options.maxCollectionPlanBytes {
        return Err(InvalidFormat);
      }
    }
    r := Ok(());
  }

  /** Accepts exactly the heads described by `ValidHead`. */
  method Validate(h: Head) returns (r: Result<()>)
    ensures r.Ok? <==> ValidHead(h)
  {
    if |h.tail| > h.options.maxTailEntries
      || |h.recentOutcomes| > h.options.resolutionWindow
      || h.generation < h.nextSequence
    {
      return Err(InvalidFormat);
    }
    var collection := ValidateCollectionState(h);
    if collection.Err? {
      return collection;
    }
    var start := 0;
    if h.checkpoint.Some? {
      if !h.checkpoint.value.key.body.Checkpoint? || h.checkpoint.value.throughSequence + 1 > U64_MAX {
        return Err(InvalidFormat);
      }
      start := h.checkpoint.value.throughSequence + 1;
    }
    DistinctAcross(h.tail, h.recentOutcomes);
    var tailIds := ValidateCommitSequence(h.tail, start, {});
    if tailIds.Err? {
      return Err(InvalidFormat);
    }
    if start + |h.tail| > U64_MAX || h.nextSequence != start + |h.tail| {
      return Err(InvalidFormat);
    }
    if h.checkpoint.None? && h.recentOutcomes != [] {
      return Err(InvalidFormat);
    }
    if h.checkpoint.Some? {
      if |h.recentOutcomes| != Retained(h, start) {
        return Err(InvalidFormat);
      }
      if h.recentOutcomes != [] && Last(h.recentOutcomes).key.body != h.checkpoint.value.throughCommit {
        return Err(InvalidFormat);
      }
    }
    var allIds := ValidateCommitSequence(h.recentOutcomes, start - |h.recentOutcomes|, tailIds.value);
    if allIds.Err? {
      return Err(InvalidFormat);
    }
    r := Ok(());
  }

  /** Two runs of commits are free of repeats together when each is and they share none. */
  lemma {:induction false} DistinctAcross(a: seq<CommitRef>, b: seq<CommitRef>)
    ensures DistinctTransactions(a + b) <==>
              && DistinctTransactions(a)
              && DistinctTransactions(b)
              && Transactions(a) !! Transactions(b)
  {
    var s := a + b;
    if DistinctTransactions(s) {
      forall i, j | 0 <= i < |a| && 0 <= j < |b| ensures a[i].transaction != b[j].transaction {
        assert s[i] == a[i] && s[|a| + j] == b[j];
      }
      forall i, j | 0 <= i < j < |b| ensures b[i].transaction != b[j].transaction {
        assert s[|a| + i] == b[i] && s[|a| + j] == b[j];
      }
      forall i, j | 0 <= i < j < |a| ensures a[i].transaction != a[j].transaction {
        assert s[i] == a[i] && s[j] == a[j];
      }
    } else {
      var i, j :| 0 <= i < j < |s| && s[i].transaction == s[j].transaction;
      if i < |a| <= j {
        assert a[i] in a && b[j - |a|] in b;
        assert s[i].transaction in Transactions(a) && s[j].transaction in Transactions(b);
      }
    }
  }
}
