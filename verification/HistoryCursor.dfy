/**
Reading a view back: an ordered cursor over its checkpoint and tail with bounded
read-ahead, and the proofs of a complete tail that one handle keeps and hands on.
*/
module HistoryCursor {
  import opened Wrappers
  import opened Heads
  import opened HeadChain
  import opened Protocol
  import opened SwapStep
  import opened CollectionSafety
  import opened Publication

  const READ_AHEAD: nat := 8

  // ---- The parent chain of a tail ----

  /** The predecessor that the commit at `i` has to name. */
  function ExpectedTip(view: Head, i: nat): Option<Body>
    requires i < |view.tail|
  {
    if i > 0 then Some(view.tail[i - 1].key.body)
    else if view.checkpoint.Some? then Some(view.checkpoint.value.throughCommit)
    else None
  }

  predicate LinkedAt(view: Head, i: nat)
    requires i < |view.tail|
  {
    view.tail[i].key.body.Commit? && view.tail[i].key.body.expectedTip == ExpectedTip(view, i)
  }

  predicate TailLinked(view: Head) {
    forall i | 0 <= i < |view.tail| :: LinkedAt(view, i)
  }

  /** No published head has a broken tail, so the check never refuses one. */
  lemma {:induction false} PublishedTailIsLinked(heads: seq<Head>, changes: seq<Change>, n: nat)
    requires Chain(heads, changes) && n < |heads|
    ensures TailLinked(heads[n])
  {
    ChainWindow(heads, changes, n);
    WindowIsLinked(heads[n], History(changes[..n]));
  }

  lemma {:induction false} WindowIsLinked(h: Head, history: seq<CommitRef>)
    requires Shows(h, history) && NamesCovered(h, history) && Linked(history)
    ensures TailLinked(h)
  {
    hide LastEntries;
    forall i | 0 <= i < |h.tail| ensures LinkedAt(h, i) {
      var j := Checkpointed(h) + i;
      assert h.tail[i] == history[j] && Follows(history[j], TipBefore(history, j));
      assert i > 0 ==> h.tail[i - 1] == history[j - 1];
    }
  }

  /** A local append on a verified view, possibly past retention updates, yields a verified view. */
  lemma {:induction false} AppendInherits(view: Head, current: Head, commit: CommitRef)
    requires TailLinked(view) && SamePublicationBase(view, current)
    requires commit.key.body.Commit? && commit.key.body.expectedTip == Tip(view)
    ensures TailLinked(AfterAppend(current, commit))
  {
    var next := AfterAppend(current, commit);
    forall i | 0 <= i < |next.tail| ensures LinkedAt(next, i) {
      if i < |view.tail| { assert LinkedAt(view, i); }
    }
  }

  /** A checkpoint over a verified view inherits the proof when no commit was appended meanwhile. */
  lemma {:induction false} CheckpointInherits(view: Head, current: Head, through: CommitRef, key: Key)
    requires TailLinked(view) && CheckpointAppendBase(view, current) && through in view.tail
    requires AfterCompact(current, through, key).nextSequence == view.nextSequence
    ensures TailLinked(AfterCompact(current, through, key))
  {
    var next, covered := AfterCompact(current, through, key), Position(view.tail, through) + 1;
    assert current.tail == view.tail && next.tail == view.tail[covered..];
    forall i | 0 <= i < |next.tail| ensures LinkedAt(next, i) {
      assert LinkedAt(view, covered + i);
    }
  }

  // ---- Reads ----

  /** Encoded commits read together stay within one object, or one commit. */
  function CommitReadWindow(cap: nat, maxObjectBytes: nat, maxCommitBytes: nat): (n: nat)
    ensures cap > 0 ==> 1 <= n <= cap
  {
    var fit := maxObjectBytes / AtLeastOne(maxCommitBytes);
    if cap <= AtLeastOne(fit) then cap else AtLeastOne(fit)
  }

  function AtLeastOne(n: nat): nat { if n == 0 then 1 else n }

  /** More than one commit are read together only if they fit, and then as many as do. */
  lemma {:induction false} WindowIsLargest(cap: nat, maxObjectBytes: nat, maxCommitBytes: nat)
    ensures
      var n, each := CommitReadWindow(cap, maxObjectBytes, maxCommitBytes), AtLeastOne(maxCommitBytes);
      (n > 1 ==> n * each <= maxObjectBytes) && (n < cap ==> (n + 1) * each > maxObjectBytes)
  {
    var n, each := CommitReadWindow(cap, maxObjectBytes, maxCommitBytes), AtLeastOne(maxCommitBytes);
    var fit := maxObjectBytes / each;
    Quotient(maxObjectBytes, each, fit);
    if n <= fit { Product(n, fit, each); }
    if n >= fit { Product(fit + 1, n + 1, each); }
  }

  /** Whole portions fit, and one more does not. */
  lemma {:induction false} Quotient(total: nat, each: nat, n: nat)
    requires each > 0 && n == total / each
    ensures n * each <= total < (n + 1) * each
  {
    assert total == total / each * each + total % each;
    assert (n + 1) * each == n * each + each;
  }

  lemma {:induction false} Product(a: nat, b: nat, each: nat)
    requires a <= b
    ensures a * each <= b * each
  {
    assert b * each == a * each + (b - a) * each;
  }

  /** The record of a head is reachable from it. */
  lemma {:induction false} RecordIsReached(view: Head, i: nat)
    requires i < |view.tail|
    ensures view.tail[i].key in Reach(view)
  {
    ReachTailCovers(view.tail, i);
  }

  /** Reads a commit by its reference: it may be missing or unreadable; its content is authenticated. */
  method ReadCommit(w: World, reference: CommitRef) returns (r: Result<Option<Body>>)
    requires w.Valid()
    modifies w
    ensures w.Valid() && Leads(old(w.s), w.s) && w.faults >= old(w.faults)
    ensures r.Ok? && r.value.Some? ==> r.value.value == reference.key.body && r.value.value.Commit?
    ensures r.Ok? && r.value.None? ==> reference.key !in w.s.store
    ensures r.Err? ==> w.faults > old(w.faults) || !reference.key.body.Commit?
  {
    var present := w.Read(reference.key);
    if present.Err? {
      return Err(present.error);
    }
    if !present.value {
      return Ok(None);
    }
    if !reference.key.body.Commit? {
      return Err(InvalidFormat);
    }
    r := Ok(Some(reference.key.body));
  }

  /** A record is returned only in its place in the parent chain, and refused only for a reason. */
  method ReadTailRecord(w: World, view: Head, index: nat) returns (r: Result<Option<CommitRef>>)
    requires w.Valid()
    modifies w
    ensures w.Valid() && Leads(old(w.s), w.s) && w.faults >= old(w.faults)
    ensures r.Ok? ==> index < |view.tail|
    ensures r.Ok? && r.value.Some? ==> r.value.value == view.tail[index] && LinkedAt(view, index)
    ensures r.Ok? && r.value.None? ==> view.tail[index].key !in w.s.store
    ensures r.Err? ==> w.faults > old(w.faults) || index >= |view.tail| || !LinkedAt(view, index)
  {
    hide Reachable, Leads;
    LeadsNowhere(w.s);
    if index >= |view.tail| {
      return Err(InvalidFormat);
    }
    var record := ReadCommit(w, view.tail[index]);
    if record.Err? {
      return Err(record.error);
    }
    if record.value.None? {
      return Ok(None);
    }
    if record.value.value.expectedTip != ExpectedTip(view, index) {
      return Err(InvalidFormat);
    }
    r := Ok(Some(view.tail[index]));
  }

  /** A published view cannot be read any more because a later epoch has begun. */
  ghost predicate Expired(s: State, view: Head, error: Error)
    requires s.heads != []
  {
    error == ViewExpired && Outdated(s, view)
  }

  /** A record of a published view is linked, and missing only if a later epoch has begun. */
  lemma {:induction false} PublishedRecord(s: State, view: Head, i: nat)
    requires Reachable(s) && s.heads != [] && Observed(s, view) && i < |view.tail|
    ensures LinkedAt(view, i) && (view.tail[i].key !in s.store ==> Outdated(s, view))
  {
    hide Reachable, Reach;
    ReachableChain(s);
    PublishedTailIsLinked(s.heads, s.changes, view.generation);
    RecordIsReached(view, i);
    if view.tail[i].key !in s.store { MissingIsOutdated(s, view, view.tail[i].key); }
  }

  /** Reads the whole tail in order. A published view of the current epoch fails only with storage. */
  method ReadTail(w: World, view: Head) returns (r: Result<()>)
    requires w.Valid()
    modifies w
    ensures w.Valid() && Leads(old(w.s), w.s) && w.faults >= old(w.faults)
    ensures r.Ok? ==> TailLinked(view)
    ensures r.Err? && Observed(old(w.s), view) ==> w.faults > old(w.faults) || Expired(w.s, view, r.error)
  {
    hide Reachable, Leads, LinkedAt;
    LeadsNowhere(w.s);
    var expected := if view.checkpoint.Some? then Some(view.checkpoint.value.throughCommit) else None;
    var i := 0;
    while i < |view.tail|
      invariant i <= |view.tail| && forall j | 0 <= j < i :: LinkedAt(view, j)
      invariant i < |view.tail| ==> expected == ExpectedTip(view, i)
      invariant w.Valid() && Leads(old(w.s), w.s) && w.faults >= old(w.faults)
      invariant Observed(old(w.s), view) ==> Observed(w.s, view)
    {
      ghost var before := w.s;
      var record := ReadCommit(w, view.tail[i]);
      LeadsOn(old(w.s), before, w.s);
      LeadsExtends(before, w.s);
      if Observed(w.s, view) { PublishedRecord(w.s, view, i); }
      LinkedIs(view, i);
      if record.Err? {
        return Err(record.error);
      }
      if record.value.None? {
        ghost var missed := w.s;
        var error := MissingRead(w, view);
        LeadsOn(old(w.s), missed, w.s);
        return Err(error);
      }
      if record.value.value.expectedTip != expected {
        return Err(InvalidFormat);
      }
      expected := Some(record.value.value);
      i := i + 1;
    }
    r := Ok(());
  }

  lemma {:induction false} LinkedIs(view: Head, i: nat)
    requires i < |view.tail|
    ensures LinkedAt(view, i) <==> view.tail[i].key.body.Commit? && view.tail[i].key.body.expectedTip == ExpectedTip(view, i)
  {
  }

  // ---- Proofs kept by a handle ----

  /** Views whose whole tail this handle has authenticated. */
  class Handle {
    const w: World
    var verified: set<Head>

    ghost predicate Valid()
      reads this
    {
      forall view | view in verified :: TailLinked(view)
    }

    constructor (w: World)
      ensures Valid() && verified == {} && this.w == w
    {
      this.w := w;
      verified := {};
    }

    method RememberTail(view: Head)
      requires Valid() && TailLinked(view)
      modifies this`verified
      ensures Valid() && verified == old(verified) + {view}
    {
      verified := verified + {view};
    }

    /** Reads the whole tail unless it was read before; a view of the current epoch fails only with storage. */
    method VerifyTail(view: Head) returns (r: Result<()>)
      requires Valid() && w.Valid()
      modifies this, w
      ensures Valid() && w.Valid() && Leads(old(w.s), w.s) && w.faults >= old(w.faults)
      ensures r.Ok? ==> TailLinked(view) && verified == old(verified) + {view}
      ensures view in old(verified) ==> r.Ok? && w.s == old(w.s)
      ensures r.Err? ==> verified == old(verified)
      ensures r.Err? && Observed(old(w.s), view) ==> w.faults > old(w.faults) || Expired(w.s, view, r.error)
    {
      LeadsNowhere(w.s);
      if view in verified {
        return Ok(());
      }
      r := ReadTail(w, view);
      if r.Ok? {
        RememberTail(view);
      }
    }

    /** After a local commit: the new view is verified if the old one was. */
    method AfterCommit(view: Head, current: Head, commit: CommitRef)
      requires Valid() && SamePublicationBase(view, current)
      requires commit.key.body.Commit? && commit.key.body.expectedTip == Tip(view)
      modifies this`verified
      ensures Valid()
      ensures verified == if view in old(verified) then old(verified) + {AfterAppend(current, commit)} else old(verified)
    {
      if view in verified {
        AppendInherits(view, current, commit);
        RememberTail(AfterAppend(current, commit));
      }
    }

    /** After a local checkpoint over a view that was just verified. */
    method AfterCheckpoint(view: Head, current: Head, through: CommitRef, key: Key)
      requires Valid() && view in verified && CheckpointAppendBase(view, current) && through in view.tail
      modifies this`verified
      ensures Valid()
      ensures verified == if AfterCompact(current, through, key).nextSequence == view.nextSequence
                          then old(verified) + {AfterCompact(current, through, key)} else old(verified)
    {
      if AfterCompact(current, through, key).nextSequence == view.nextSequence {
        CheckpointInherits(view, current, through, key);
        RememberTail(AfterCompact(current, through, key));
      }
    }
  }

  // ---- The cursor ----

  datatype Item = Base(checkpoint: CheckpointRef) | Record(commit: CommitRef)

  /** The recovery history of a view: its checkpoint, then its tail in order. */
  function Bases(view: Head): seq<Item> {
    if view.checkpoint.Some? then [Base(view.checkpoint.value)] else []
  }

  function Items(view: Head): seq<Item> {
    Bases(view) + seq(|view.tail|, i requires 0 <= i < |view.tail| => Record(view.tail[i]))
  }

  lemma {:induction false} OneMoreItem(view: Head, n: nat)
    requires n < |view.tail|
    ensures |Bases(view)| + n < |Items(view)|
    ensures Items(view)[..|Bases(view)| + n] + [Record(view.tail[n])] == Items(view)[..|Bases(view)| + (n + 1)]
  {
    assert Items(view)[|Bases(view)| + n] == Record(view.tail[n]);
  }

  lemma {:induction false} AllItems(view: Head)
    ensures |Items(view)| == |Bases(view)| + |view.tail| && Items(view)[..|Bases(view)|] == Bases(view)
    ensures Items(view)[..0] == [] && Items(view)[..|Bases(view)| + |view.tail|] == Items(view)
  {
  }

  class Cursor {
    const handle: Handle
    const view: Head
    const window: nat
    var checkpointRead: bool
    var nextCommit: nat
    var ready: seq<Result<Option<CommitRef>>>
    var complete: bool
    /** How many reads had failed when the last read-ahead began. */
    ghost var since: nat

    ghost predicate Valid()
      reads this, handle, handle.w
    {
      && handle.Valid() && handle.w.Valid() && Observed(handle.w.s, view) && 1 <= window <= READ_AHEAD
      && nextCommit + |ready| <= |view.tail| && |ready| <= window && since <= handle.w.faults
      && (!checkpointRead ==> nextCommit == 0 && ready == [] && !complete)
      && (forall i | 0 <= i < nextCommit :: LinkedAt(view, i))
      && (forall i | 0 <= i < |ready| :: Promises(nextCommit + i, ready[i]))
      && (complete ==> nextCommit == |view.tail| && view in handle.verified)
    }

    /** A record read ahead belongs to its place; one that is missing belongs to an earlier epoch. */
    ghost predicate Promises(i: nat, read: Result<Option<CommitRef>>)
      reads this, handle, handle.w
      requires i < |view.tail| && handle.w.s.heads != []
    {
      match read
      case Ok(Some(record)) => record == view.tail[i] && LinkedAt(view, i)
      case Ok(None) => Outdated(handle.w.s, view)
      case Err(_) => handle.w.faults > since
    }

    /** The failed reads that the next item does not depend on. */
    ghost function Before(): nat
      reads this, handle.w
    {
      if ready == [] then handle.w.faults else since
    }

    /** What has been returned so far. */
    ghost function Returned(): seq<Item>
      reads this, handle, handle.w
      requires Valid()
    {
      Items(view)[..(if checkpointRead then |Bases(view)| else 0) + nextCommit]
    }

    constructor (handle: Handle, view: Head, maxObjectBytes: nat, maxCommitBytes: nat)
      requires handle.Valid() && handle.w.Valid() && Observed(handle.w.s, view)
      ensures Valid() && this.handle == handle && this.view == view && Returned() == [] && !complete
    {
      this.handle, this.view := handle, view;
      window := CommitReadWindow(READ_AHEAD, maxObjectBytes, maxCommitBytes);
      checkpointRead, nextCommit, ready, complete := false, 0, [], false;
      since := handle.w.faults;
    }

    /** A copy continues from the same place without the records read ahead. */
    constructor Clone(other: Cursor)
      requires other.Valid()
      ensures Valid() && handle == other.handle && view == other.view && complete == other.complete
      ensures Returned() == other.Returned() && ready == []
    {
      handle, view, window := other.handle, other.view, other.window;
      checkpointRead, nextCommit, complete := other.checkpointRead, other.nextCommit, other.complete;
      ready, since := [], other.handle.w.faults;
    }

    /**
    Items come in order and exactly once. An error changes nothing that was returned, drops what
    was read ahead, and a later call tries the same item again. It has a reason: a read of this
    call failed, or one of the read-ahead that it drops, or the view has expired. The end is
    reported exactly when every item was returned and the whole tail is linked.
    */
    method Next() returns (r: Result<Option<Item>>)
      requires Valid()
      modifies this, handle, handle.w
      ensures Valid() && Leads(old(handle.w.s), handle.w.s)
      ensures r.Ok? && r.value.Some? ==> Returned() == old(Returned()) + [r.value.value] && !complete
      ensures r == Ok(None) ==> complete && Returned() == old(Returned()) == Items(view) && TailLinked(view)
      ensures r.Err? ==> Returned() == old(Returned()) && !complete && ready == []
      ensures old(complete) ==> r == Ok(None)
      ensures r.Err? ==> handle.w.faults > old(Before()) || Expired(handle.w.s, view, r.error)
    {
      hide LinkedAt, Items, Reachable, Leads, Expired;
      AllItems(view);
      if nextCommit < |view.tail| { OneMoreItem(view, nextCommit); }
      LeadsNowhere(handle.w.s);
      if complete {
        return Ok(None);
      }
      ghost var start := handle.w.s;
      if !checkpointRead {
        var checkpoint := ReadCheckpoint();
        if checkpoint.Err? {
          return Err(checkpoint.error);
        }
        checkpointRead := true;
        if view.checkpoint.Some? {
          return Ok(Some(Base(view.checkpoint.value)));
        }
      }
      if nextCommit < |view.tail| {
        ghost var before := handle.w.s;
        r := NextRecord();
        LeadsOn(start, before, handle.w.s);
        return;
      }
      handle.RememberTail(view);
      complete := true;
      r := Ok(None);
    }

    /** Reads the checkpoint of the view, if it has one. */
    method ReadCheckpoint() returns (r: Result<()>)
      requires Valid() && ready == []
      modifies handle.w
      ensures Valid() && Leads(old(handle.w.s), handle.w.s) && handle.w.faults >= old(handle.w.faults)
      ensures r.Err? ==> handle.w.faults > old(handle.w.faults) || Expired(handle.w.s, view, r.error)
    {
      hide Reachable, Leads, LinkedAt, Reach;
      var w := handle.w;
      LeadsNowhere(w.s);
      if view.checkpoint.None? {
        return Ok(());
      }
      var key := view.checkpoint.value.key;
      var present := w.Read(key);
      LeadsExtends(old(w.s), w.s);
      if present.Err? {
        return Err(present.error);
      }
      if !present.value {
        CheckpointIsReached(view);
        MissingIsOutdated(w.s, view, key);
        ghost var missed := w.s;
        var error := MissingRead(w, view);
        LeadsOn(old(w.s), missed, w.s);
        LeadsExtends(missed, w.s);
        return Err(error);
      }
      r := Ok(());
    }

    /** The next commit of the tail, from what was read ahead or after reading ahead. */
    method NextRecord() returns (r: Result<Option<Item>>)
      requires Valid() && checkpointRead && nextCommit < |view.tail| && !complete
      modifies this`ready, this`nextCommit, this`since, handle.w
      ensures Valid() && !complete && Leads(old(handle.w.s), handle.w.s)
      ensures r.Ok? ==> r.value == Some(Record(view.tail[old(nextCommit)])) && nextCommit == old(nextCommit) + 1
      ensures r.Err? ==> nextCommit == old(nextCommit) && ready == []
      ensures r.Err? ==> handle.w.faults > old(Before()) || Expired(handle.w.s, view, r.error)
    {
      hide Reachable, Leads, LinkedAt;
      LeadsNowhere(handle.w.s);
      if ready == [] {
        ReadAhead();
      }
      var front := ready[0];
      assert Promises(nextCommit, front);
      if front.Ok? && front.value.Some? {
        ready, nextCommit := ready[1..], nextCommit + 1;
        return Ok(Some(Record(front.value.value)));
      }
      ready := [];
      if front.Err? {
        return Err(front.error);
      }
      ghost var missed := handle.w.s;
      var error := MissingRead(handle.w, view);
      LeadsOn(old(handle.w.s), missed, handle.w.s);
      LeadsExtends(missed, handle.w.s);
      r := Err(error);
    }

    /** Reads the next window of the tail. */
    method ReadAhead()
      requires Valid() && checkpointRead && ready == [] && nextCommit < |view.tail|
      modifies this`ready, this`since, handle.w
      ensures |ready| == window || nextCommit + |ready| == |view.tail|
      ensures Valid() && ready != [] && since == old(handle.w.faults) && Leads(old(handle.w.s), handle.w.s)
    {
      hide Reachable, Leads, LinkedAt;
      since := handle.w.faults;
      LeadsNowhere(handle.w.s);
      var end := if |view.tail| <= nextCommit + window then |view.tail| else nextCommit + window;
      var batch: seq<Result<Option<CommitRef>>> := [];
      while |batch| < end - nextCommit
        invariant |batch| <= end - nextCommit
        invariant handle.w.Valid() && Observed(handle.w.s, view) && Leads(old(handle.w.s), handle.w.s)
        invariant since == old(handle.w.faults) <= handle.w.faults
        invariant forall i | 0 <= i < |batch| :: Promises(nextCommit + i, batch[i])
      {
        ghost var before := handle.w.s;
        var index := nextCommit + |batch|;
        var read := ReadTailRecord(handle.w, view, index);
        LeadsOn(old(handle.w.s), before, handle.w.s);
        LeadsExtends(before, handle.w.s);
        PublishedRecord(handle.w.s, view, index);
        if Outdated(before, view) { StaysOutdated(before, handle.w.s, view); }
        batch := batch + [read];
      }
      ready := batch;
    }
  }

  lemma {:induction false} CheckpointIsReached(view: Head)
    requires view.checkpoint.Some?
    ensures view.checkpoint.value.key in Reach(view)
  {
  }
}
