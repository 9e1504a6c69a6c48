/**
Graph walks over the shared storage: what marking and verification find when the
objects they read are those of a log, and when they must succeed.

A reference is determined by its key: `size` is the encoded length of an object, and
its count is one more than the counts of the objects it names.
*/
module LiveGraph {
  import opened Wrappers
  import opened Words
  import opened Heads
  import opened Protocol
  import opened HeadChain
  import opened SwapStep
  import opened CollectionSafety
  import opened GraphWalk
  import opened CollectionScan
  import InvariantSteps

  // ---- Objects as a walk reads them ----

  function RefOf(k: Key, size: Key -> nat): Ref { Ref(k, size(k), Count(k)) }

  function RefsOf(ks: seq<Key>, size: Key -> nat): seq<Ref> {
    if ks == [] then [] else [RefOf(ks[0], size)] + RefsOf(ks[1..], size)
  }

  ghost function Refs(ks: set<Key>, size: Key -> nat): set<Ref> { set k | k in ks :: RefOf(k, size) }

  /** What reads of the keys in `readable` return. */
  function Reading(readable: set<Key>, size: Key -> nat): map<Key, Stored> {
    map k | k in readable :: Stored(size(k), true, if k.body.Node? then Some(RefsOf(k.body.children, size)) else None)
  }

  lemma {:induction false} RefsOfMember(ks: seq<Key>, size: Key -> nat, r: Ref)
    ensures r in RefsOf(ks, size) <==> exists k :: k in ks && r == RefOf(k, size)
  {
    if ks != [] {
      RefsOfMember(ks[1..], size, r);
      assert ks == [ks[0]] + ks[1..];
    }
  }

  lemma {:induction false} RefsOfSum(ks: seq<Key>, size: Key -> nat)
    ensures Sum(RefsOf(ks, size)) == CountAll(ks) && |RefsOf(ks, size)| == |ks|
  {
    if ks != [] { RefsOfSum(ks[1..], size); }
  }

  lemma {:induction false} RefsOfConcat(a: seq<Key>, b: seq<Key>, size: Key -> nat)
    ensures RefsOf(a + b, size) == RefsOf(a, size) + RefsOf(b, size)
  {
    if a == [] {
      assert a + b == b;
    } else {
      RefsOfConcat(a[1..], b, size);
      assert (a + b)[1..] == a[1..] + b && (a + b)[0] == a[0];
      assert RefsOf(a, size) + RefsOf(b, size) == [RefOf(a[0], size)] + (RefsOf(a[1..], size) + RefsOf(b, size));
    }
  }

  /** A reference to a whole object declares the count that its children add up to. */
  lemma {:induction false} CountsAddUp(ks: seq<Key>, size: Key -> nat)
    ensures SubtreeObjects(RefsOf(ks, size)).Ok? <==> 1 + CountAll(ks) <= U64_MAX
    ensures SubtreeObjects(RefsOf(ks, size)).Ok? ==> SubtreeObjects(RefsOf(ks, size)).value == 1 + CountAll(ks)
  {
    hide FoldCounts, Sum;
    RefsOfSum(ks, size);
    forall r | r in RefsOf(ks, size) ensures ValidCount(r) {
      RefsOfMember(ks, size, r);
    }
  }

  // ---- Closures ----

  lemma {:induction false} ClosureOf(k: Key)
    ensures Closure(k) == {k} + ClosureAll(Named(k))
  {
  }

  /** Whatever a member of a graph names is in the graph. */
  lemma {:induction false} ClosureIsClosed(k: Key, x: Key, c: Key)
    requires x in Closure(k) && c in Named(x)
    ensures c in Closure(k)
    decreases k, 1
  {
    ClosureOf(k);
    if x == k {
      ClosureAllCovers(Named(k), c);
      ClosureOf(c);
    } else {
      match k.body
      case Node(_, children) => ClosureAllIsClosed(children, x, c);
      case Commit(_, _, _, objects) => ClosureAllIsClosed(objects, x, c);
      case Checkpoint(_, _, _, objects) => ClosureAllIsClosed(objects, x, c);
      case _ =>
    }
  }

  lemma {:induction false} ClosureAllIsClosed(ks: seq<Key>, x: Key, c: Key)
    requires x in ClosureAll(ks) && c in Named(x)
    ensures c in ClosureAll(ks)
    decreases ks, 0
  {
    if x in Closure(ks[0]) {
      ClosureIsClosed(ks[0], x, c);
    } else {
      ClosureAllIsClosed(ks[1..], x, c);
    }
  }

  // ---- One walk ----

  /** The walk can read `k`, or takes it on trust. */
  ghost predicate Readable(cfg: Config, readable: set<Key>, k: Key) {
    k in readable || Skipped(cfg, RefOf(k, _ => 0))
  }

  /** What a walk needs of every object it meets. */
  ghost predicate Walkable(cfg: Config, readable: set<Key>, size: Key -> nat, k: Key) {
    && IsDependency(k)
    && Readable(cfg, readable, k)
    && k !in cfg.blocked
    && size(k) <= cfg.maxBytes
    && Count(k) <= U64_MAX
  }

  /** Expanding a reference of the log either fails or yields the references of what it names. */
  lemma {:induction false} ExpandsToNamed(cfg: Config, readable: set<Key>, size: Key -> nat, k: Key)
    requires cfg.store == Reading(readable, size)
    ensures
      var refs := Expand(cfg, RefOf(k, size));
      && (refs.Ok? <==> IsDependency(k) && Readable(cfg, readable, k) && Count(k) <= U64_MAX)
      && (refs.Ok? ==> refs.value == RefsOf(Named(k), size))
  {
    CountsAddUp(Named(k), size);
  }

  /** The walk below `ks` succeeds, and finds their closures, exactly when every object there is walkable. */
  lemma {:induction false} WalkSucceeds(
    cfg: Config, readable: set<Key>, size: Key -> nat, ks: seq<Key>, before: map<Key, Meta>)
    requires cfg.store == Reading(readable, size)
    requires forall k | k in ClosureAll(ks) :: Walkable(cfg, readable, size, k)
    requires |before.Keys + ClosureAll(ks)| <= cfg.maxObjects
    ensures Certificate(cfg, RefsOf(ks, size), before, Refs(ClosureAll(ks), size))
  {
    hide Readable, Expand;
    var all := ClosureAll(ks);
    ClosureGraph(cfg, readable, size, ks);
    KeysOfRefs(all, size);
    forall r | r in Refs(all, size) ensures Admissible(cfg, r) && Expand(cfg, r).Ok? {
      var k :| k in all && r == RefOf(k, size);
      assert Walkable(cfg, readable, size, k);
      ExpandsToNamed(cfg, readable, size, k);
    }
  }

  lemma {:induction false} KeysOfRefs(ks: set<Key>, size: Key -> nat)
    ensures Keys(Refs(ks, size)) == ks
  {
    forall k | k in ks ensures k in Keys(Refs(ks, size)) {
      assert RefOf(k, size) in Refs(ks, size);
    }
  }

  lemma {:induction false} ClosureGraph(cfg: Config, readable: set<Key>, size: Key -> nat, ks: seq<Key>)
    requires cfg.store == Reading(readable, size)
    ensures Closed(cfg, RefsOf(ks, size), Refs(ClosureAll(ks), size))
  {
    hide Expand, Closure, ClosureAll, RefsOf;
    var all := ClosureAll(ks);
    forall r | r in RefsOf(ks, size) ensures r in Refs(all, size) {
      RefsOfMember(ks, size, r);
      var k :| k in ks && r == RefOf(k, size);
      ClosureAllCovers(ks, k);
      ClosureOf(k);
    }
    forall r, c | r in Refs(all, size) && Expand(cfg, r).Ok? && c in Expand(cfg, r).value ensures c in Refs(all, size) {
      var k :| k in all && r == RefOf(k, size);
      ExpandsToNamed(cfg, readable, size, k);
      RefsOfMember(Named(k), size, c);
      var x :| x in Named(k) && c == RefOf(x, size);
      ClosureAllIsClosed(ks, k, x);
    }
  }

  /** A walk that succeeded visited exactly the closures, and all of it was walkable. */
  lemma {:induction false} WalkIsClosure(
    cfg: Config, readable: set<Key>, size: Key -> nat, ks: seq<Key>, before: map<Key, Meta>, met: set<Ref>)
    requires cfg.store == Reading(readable, size)
    requires Certificate(cfg, RefsOf(ks, size), before, met) && Forced(cfg, RefsOf(ks, size), met, [])
    ensures met == Refs(ClosureAll(ks), size)
    ensures forall k | k in ClosureAll(ks) :: Walkable(cfg, readable, size, k)
  {
    hide Certificate, Expand, Readable, Closure, ClosureAll, RefsOf;
    ClosureGraph(cfg, readable, size, ks);
    forall k | k in ClosureAll(ks) ensures RefOf(k, size) in met && Walkable(cfg, readable, size, k) {
      ClosureAllOnly(ks, k);
      var root :| root in ks && k in Closure(root);
      RefsOfMember(ks, size, RefOf(root, size));
      RootIsMet(cfg, RefsOf(ks, size), before, met, RefOf(root, size));
      MetIsClosed(cfg, readable, size, RefsOf(ks, size), before, met, root, k);
      MetIsWalkable(cfg, readable, size, RefsOf(ks, size), before, met, k);
    }
  }

  lemma {:induction false} RootIsMet(cfg: Config, roots: seq<Ref>, before: map<Key, Meta>, met: set<Ref>, r: Ref)
    requires Certificate(cfg, roots, before, met) && r in roots
    ensures r in met
  {
  }

  lemma {:induction false} MetIsWalkable(
    cfg: Config, readable: set<Key>, size: Key -> nat, roots: seq<Ref>, before: map<Key, Meta>, met: set<Ref>, k: Key)
    requires cfg.store == Reading(readable, size) && Certificate(cfg, roots, before, met) && RefOf(k, size) in met
    ensures Walkable(cfg, readable, size, k)
    ensures forall x | x in Named(k) :: RefOf(x, size) in met
  {
    hide Expand, Readable;
    var r := RefOf(k, size);
    assert Admissible(cfg, r) && Expand(cfg, r).Ok?;
    ExpandsToNamed(cfg, readable, size, k);
    forall x | x in Named(k) ensures RefOf(x, size) in met {
      RefsOfMember(Named(k), size, RefOf(x, size));
    }
  }

  lemma {:induction false} MetIsClosed(
    cfg: Config, readable: set<Key>, size: Key -> nat, roots: seq<Ref>, before: map<Key, Meta>, met: set<Ref>, k: Key, x: Key)
    requires cfg.store == Reading(readable, size) && Certificate(cfg, roots, before, met)
    requires RefOf(k, size) in met && x in Closure(k)
    ensures RefOf(x, size) in met
    decreases k, 1
  {
    hide Certificate, RefOf;
    MetIsWalkable(cfg, readable, size, roots, before, met, k);
    if x != k {
      MetAllIsClosed(cfg, readable, size, roots, before, met, k.body.children, x);
    }
  }

  lemma {:induction false} MetAllIsClosed(
    cfg: Config, readable: set<Key>, size: Key -> nat, roots: seq<Ref>, before: map<Key, Meta>, met: set<Ref>,
    ks: seq<Key>, x: Key)
    requires cfg.store == Reading(readable, size) && Certificate(cfg, roots, before, met)
    requires (forall k | k in ks :: RefOf(k, size) in met) && x in ClosureAll(ks)
    ensures RefOf(x, size) in met
    decreases ks, 0
  {
    hide Certificate, RefOf;
    if x in Closure(ks[0]) {
      MetIsClosed(cfg, readable, size, roots, before, met, ks[0], x);
    } else {
      MetAllIsClosed(cfg, readable, size, roots, before, met, ks[1..], x);
    }
  }

  // ---- Verifying a publication ----

  /** The limits that a walk over these objects has to keep. */
  ghost predicate GraphFits(ks: set<Key>, size: Key -> nat, o: Options) {
    && |ks| <= o.maxCollectionObjects
    && forall k | k in ks :: size(k) <= o.maxObjectBytes && Count(k) <= U64_MAX
  }

  /** Every object below `ks` is a dependency that can be read and is not condemned. */
  ghost predicate AllFound(ks: seq<Key>, readable: set<Key>, blocked: set<Key>) {
    forall k | k in ClosureAll(ks) :: IsDependency(k) && k in readable && k !in blocked
  }

  /** The walk of a publication says exactly whether all its dependencies are there. */
  method VerifyDependencies(readable: set<Key>, blocked: set<Key>, ks: seq<Key>, size: Key -> nat, o: Options)
    returns (r: Result<map<Key, Meta>>)
    ensures r.Ok? <==> GraphFits(ClosureAll(ks), size, o) && AllFound(ks, readable, blocked)
    ensures r.Err? ==> r.error != StoreFailure
    ensures r.Ok? ==> r.value.Keys == ClosureAll(ks)
  {
    hide Certificate, Forced, Closure, ClosureAll, RefsOf, Reading;
    var cfg := Config(Reading(readable, size), VerifyBlobs, blocked, o.maxCollectionObjects, o.maxObjectBytes);
    ghost var log;
    r, log := MarkObjectGraph(cfg, RefsOf(ks, size), map[]);
    ghost var none: map<Key, Meta> := map[];
    assert none.Keys + ClosureAll(ks) == ClosureAll(ks);
    if r.Ok? {
      var met := Met(map[], r.value);
      WalkIsClosure(cfg, readable, size, ks, map[], met);
      VisitedIsMet(r.value, ClosureAll(ks), size);
      CertifiedFits(cfg, RefsOf(ks, size), met, ClosureAll(ks), size);
    } else if GraphFits(ClosureAll(ks), size, o) && AllFound(ks, readable, blocked) {
      WalkSucceeds(cfg, readable, size, ks, map[]);
    }
  }

  lemma {:induction false} VisitedIsMet(visited: map<Key, Meta>, ks: set<Key>, size: Key -> nat)
    requires Met(map[], visited) == Refs(ks, size)
    ensures visited.Keys == ks
  {
    forall k | k in visited ensures k in ks {
      assert Ref(k, visited[k].len, visited[k].count) in Refs(ks, size);
    }
    forall k | k in ks ensures k in visited {
      assert RefOf(k, size) in Met(map[], visited);
    }
  }

  lemma {:induction false} CertifiedFits(cfg: Config, roots: seq<Ref>, met: set<Ref>, ks: set<Key>, size: Key -> nat)
    requires Certificate(cfg, roots, map[], met) && met == Refs(ks, size)
    ensures |ks| <= cfg.maxObjects
  {
    KeysOfRefs(ks, size);
    var none: map<Key, Meta> := map[];
    assert none.Keys + Keys(met) == ks;
  }

  /** What a walk over objects met since the view allows the protocol to take for proved. */
  lemma {:induction false} FoundIsVerified(s: State, view: nat, ks: seq<Key>, readable: set<Key>, k: Key)
    requires view < |s.heads| && k in ks && AllFound(ks, readable, Candidates(s.heads[view]))
    requires forall x | x in readable :: SeenSince(s, x, view)
    ensures Enabled(s, Verify(view, k))
  {
    hide SeenSince;
    ClosureAllCovers(ks, k);
  }

  /** A publication whose objects have proofs of the current epoch would pass the walk that it skips. */
  method VerifyProved(s: State, view: nat, ks: seq<Key>, size: Key -> nat) returns (r: Result<map<Key, Meta>>)
    requires Reachable(s) && view < |s.heads| && Proved(s.proofs, s.heads[view].collectionEpoch, ks)
    requires s.heads[view].collectionEpoch == Current(s).collectionEpoch
    ensures r.Ok? <==> GraphFits(ClosureAll(ks), size, s.heads[view].options)
    ensures r.Ok? ==> r.value.Keys == ClosureAll(ks)
  {
    hide Reachable, ClosureAll;
    var h := s.heads[view];
    forall k | k in ClosureAll(ks) ensures IsDependency(k) && k in s.store && k !in Candidates(h) {
      ClosureAllOnly(ks, k);
      var root :| root in ks && k in Closure(root);
      ProofReplacesWalk(s, Proof(h.collectionEpoch, root), view);
    }
    r := VerifyDependencies(s.store, Candidates(h), ks, size, h.options);
  }

  // ---- Marking a view ----

  function RecordsOf(tail: seq<CommitRef>, size: Key -> nat): seq<Record> {
    if tail == [] then []
    else
      var last := tail[|tail| - 1].key;
      RecordsOf(tail[..|tail| - 1], size) + [Record(last, size(last), RefsOf(Named(last), size))]
  }

  function SnapshotOf(h: Head, size: Key -> nat): Option<Snapshot> {
    if h.checkpoint.None? then None
    else
      var key := h.checkpoint.value.key;
      Some(Snapshot(RefOf(key, size), RefsOf(Named(key), size)))
  }

  /** The objects that the tail names. */
  function TailNamed(tail: seq<CommitRef>): seq<Key> {
    if tail == [] then [] else TailNamed(tail[..|tail| - 1]) + Named(tail[|tail| - 1].key)
  }

  /** The roots of the walk: what the records of a view name. */
  function RootKeys(h: Head): seq<Key> {
    TailNamed(h.tail) + if h.checkpoint.Some? then Named(h.checkpoint.value.key) else []
  }

  function TailKeys(tail: seq<CommitRef>): set<Key> { set e | e in tail :: e.key }

  /** The records of a view. */
  function RecordKeys(h: Head): set<Key> {
    TailKeys(h.tail) + if h.checkpoint.Some? then {h.checkpoint.value.key} else {}
  }

  lemma {:induction false} ClosureAllConcat(a: seq<Key>, b: seq<Key>)
    ensures ClosureAll(a + b) == ClosureAll(a) + ClosureAll(b)
  {
    hide Closure;
    if a == [] {
      assert a + b == b;
    } else {
      ClosureAllConcat(a[1..], b);
      assert (a + b)[1..] == a[1..] + b && (a + b)[0] == a[0];
    }
  }

  lemma {:induction false} TailReach(tail: seq<CommitRef>)
    ensures ReachTail(tail) == TailKeys(tail) + ClosureAll(TailNamed(tail))
  {
    hide Closure, ClosureAll;
    if tail == [] {
      assert ClosureAll([]) == {} by { ClosureAllConcat([], []); NoClosure(); }
    } else {
      var init, last := tail[..|tail| - 1], tail[|tail| - 1];
      TailReach(init);
      ClosureAllConcat(TailNamed(init), Named(last.key));
      ClosureOf(last.key);
      assert tail == init + [last];
      assert TailKeys(tail) == TailKeys(init) + {last.key};
    }
  }

  lemma {:induction false} NoClosure()
    ensures ClosureAll([]) == {}
  {
  }

  /** A view reaches its records and the graphs below them. */
  lemma {:induction false} ViewReach(h: Head)
    ensures Reach(h) == RecordKeys(h) + ClosureAll(RootKeys(h))
  {
    hide Closure, ClosureAll;
    TailReach(h.tail);
    NoClosure();
    if h.checkpoint.Some? {
      ClosureAllConcat(TailNamed(h.tail), Named(h.checkpoint.value.key));
      ClosureOf(h.checkpoint.value.key);
    } else {
      assert RootKeys(h) == TailNamed(h.tail);
    }
  }

  lemma {:induction false} TailRefs(tail: seq<CommitRef>, size: Key -> nat)
    ensures TailRoots(RecordsOf(tail, size)) == RefsOf(TailNamed(tail), size)
  {
    hide RefsOf;
    if tail == [] {
      NoRefs(size);
    } else {
      var init, last := tail[..|tail| - 1], tail[|tail| - 1].key;
      TailRefs(init, size);
      RefsOfConcat(TailNamed(init), Named(last), size);
      var records := RecordsOf(tail, size);
      assert records[..|records| - 1] == RecordsOf(init, size);
    }
  }

  lemma {:induction false} NoRefs(size: Key -> nat)
    ensures RefsOf([], size) == []
  {
  }

  lemma {:induction false} ViewRefs(h: Head, size: Key -> nat)
    ensures Roots(RecordsOf(h.tail, size), SnapshotOf(h, size)) == RefsOf(RootKeys(h), size)
  {
    hide RefsOf;
    TailRefs(h.tail, size);
    NoRefs(size);
    RefsOfConcat(TailNamed(h.tail), if h.checkpoint.Some? then Named(h.checkpoint.value.key) else [], size);
  }

  /** Records sit under commit and checkpoint keys, and name dependencies only. */
  ghost predicate WellTyped(h: Head) {
    && (forall e | e in h.tail :: e.key.body.Commit?)
    && (h.checkpoint.Some? ==> h.checkpoint.value.key.body.Checkpoint?)
    && (forall k | k in ClosureAll(RootKeys(h)) :: IsDependency(k))
  }

  /** Every published head is well typed. */
  lemma {:induction false} PublishedIsTyped(s: State, view: nat)
    requires Reachable(s) && view < |s.heads|
    ensures WellTyped(s.heads[view])
  {
    hide Reachable, ClosureAll, Closure;
    ReachableInv(s);
    var h := s.heads[view];
    forall e | e in h.tail ensures e.key.body.Commit? {
      var j := InvariantSteps.TailChange(s.heads, s.changes, view, e);
      InvariantSteps.RecordObjects(s, j);
    }
    if h.checkpoint.Some? {
      var j := InvariantSteps.CheckpointChange(s.heads, s.changes, view);
      InvariantSteps.RecordObjects(s, j);
    }
    forall k | k in ClosureAll(RootKeys(h)) ensures IsDependency(k) {
      ClosureAllOnly(RootKeys(h), k);
      var root :| root in RootKeys(h) && k in Closure(root);
      RootIsDirect(h, root);
      InvariantSteps.DirectIsReached(s, view, root);
    }
  }

  lemma {:induction false} RootIsDirect(h: Head, k: Key)
    requires k in RootKeys(h) && (forall e | e in h.tail :: e.key.body.Commit?)
    requires h.checkpoint.Some? ==> h.checkpoint.value.key.body.Checkpoint?
    ensures DirectDependency(h, k)
  {
    if k in TailNamed(h.tail) { NamedByTail(h.tail, k); }
  }

  lemma {:induction false} NamedByTail(tail: seq<CommitRef>, k: Key)
    requires k in TailNamed(tail)
    ensures exists e :: e in tail && k in Named(e.key)
  {
    var last := tail[|tail| - 1];
    assert last in tail;
    if k !in Named(last.key) { NamedByTail(tail[..|tail| - 1], k); }
  }

  /** Every record of the view passes the check that a read of it makes. */
  predicate RecordsAdmitted(h: Head) {
    && (forall e | e in h.tail :: Admits(h.options, Named(e.key)))
    && (h.checkpoint.Some? ==> Admits(h.options, Named(h.checkpoint.value.key)))
  }

  /** The limits within which a view can be marked. */
  ghost predicate MarkFits(h: Head, size: Key -> nat) {
    && RecordsAdmitted(h)
    && |RootKeys(h)| <= h.options.maxCollectionObjects
    && |Reach(h)| <= h.options.maxCollectionObjects
    && (forall k | k in ClosureAll(RootKeys(h)) :: size(k) <= h.options.maxObjectBytes && Count(k) <= U64_MAX)
    && (h.checkpoint.Some? ==>
          Count(h.checkpoint.value.key) <= h.options.maxCollectionObjects && Count(h.checkpoint.value.key) <= U64_MAX)
  }

  /** Marking reads everything that a view reaches except blobs. */
  ghost predicate MarkReads(h: Head, readable: set<Key>) {
    forall k | k in Reach(h) && !k.body.Blob? :: k in readable
  }

  ghost function ViewConfig(h: Head, readable: set<Key>, size: Key -> nat): Config {
    LiveConfig(Reading(readable, size), h.options.maxCollectionObjects, h.options.maxObjectBytes)
  }

  ghost predicate Heading(h: Head, size: Key -> nat, heads: map<Key, Meta>) {
    Lists(heads, Entries(RecordsOf(h.tail, size), SnapshotOf(h, size)))
  }

  lemma {:induction false} TailEntryKeys(tail: seq<CommitRef>, size: Key -> nat)
    ensures forall e | e in TailEntries(RecordsOf(tail, size)) :: e.key in TailKeys(tail) && e.meta == Meta(size(e.key), 0)
    ensures forall k | k in TailKeys(tail) :: Entry(k, Meta(size(k), 0)) in TailEntries(RecordsOf(tail, size))
  {
    hide RefsOf;
    if tail != [] {
      var init, last := tail[..|tail| - 1], tail[|tail| - 1];
      TailEntryKeys(init, size);
      var records := RecordsOf(tail, size);
      assert records[..|records| - 1] == RecordsOf(init, size);
      assert tail == init + [last];
      assert TailKeys(tail) == TailKeys(init) + {last.key};
    }
  }

  /** The entries that marking starts from are the records. */
  lemma {:induction false} HeadingKeys(h: Head, size: Key -> nat, heads: map<Key, Meta>)
    requires Heading(h, size, heads)
    ensures heads.Keys == RecordKeys(h)
  {
    hide RecordsOf, TailEntries, RefsOf, Count, TailKeys;
    TailEntryKeys(h.tail, size);
    var entries := Entries(RecordsOf(h.tail, size), SnapshotOf(h, size));
    forall k | k in heads ensures k in RecordKeys(h) {
      var e :| e in entries && e.key == k;
    }
    forall k | k in RecordKeys(h) ensures k in heads {
      if k in TailKeys(h.tail) {
        assert Entry(k, Meta(size(k), 0)) in entries;
      } else {
        assert SnapshotEntry(SnapshotOf(h, size).value) in entries;
      }
    }
  }

  /** Records of a well-typed view never contradict each other. */
  lemma {:induction false} ViewIsListable(h: Head, size: Key -> nat)
    requires WellTyped(h) && |RecordKeys(h)| <= h.options.maxCollectionObjects
    ensures exists all ::
              Covers(all, Entries(RecordsOf(h.tail, size), SnapshotOf(h, size))) && |all| <= h.options.maxCollectionObjects
  {
    hide RecordsOf, TailEntries, RefsOf, Count, ClosureAll;
    var all := map k | k in RecordKeys(h) :: if k.body.Commit? then Meta(size(k), 0) else Meta(size(k), Count(k));
    TailEntryKeys(h.tail, size);
    assert all.Keys == RecordKeys(h);
    assert Covers(all, Entries(RecordsOf(h.tail, size), SnapshotOf(h, size)));
  }

  lemma {:induction false} SnapshotIsAdmitted(h: Head, size: Key -> nat)
    requires WellTyped(h) && h.checkpoint.Some?
    ensures Admitted(SnapshotOf(h, size).value, h.options.maxCollectionObjects) <==>
            Count(h.checkpoint.value.key) <= h.options.maxCollectionObjects && Count(h.checkpoint.value.key) <= U64_MAX
  {
    hide ClosureAll, FoldCounts;
    var key := h.checkpoint.value.key;
    CountsAddUp(Named(key), size);
    forall r | r in RefsOf(Named(key), size) ensures !r.key.body.Checkpoint? {
      RefsOfMember(Named(key), size, r);
      var k :| k in Named(key) && r == RefOf(k, size);
      assert k in RootKeys(h);
      ClosureAllCovers(RootKeys(h), k);
      ClosureOf(k);
    }
  }

  /** A view within the limits whose graph can be read is marked. */
  lemma {:induction false} ViewIsMarkable(h: Head, readable: set<Key>, size: Key -> nat, heads: map<Key, Meta>)
    requires WellTyped(h) && MarkFits(h, size) && MarkReads(h, readable)
    ensures Listable(RecordsOf(h.tail, size), SnapshotOf(h, size), h.options.maxCollectionObjects)
    ensures Heading(h, size, heads) ==>
              Markable(ViewConfig(h, readable, size), RecordsOf(h.tail, size), SnapshotOf(h, size), heads)
  {
    hide RecordsOf, RefsOf, ClosureAll, Reach, Certificate, Heading, Admitted, Covers, SnapshotOf, Entries, Reading;
    hide RootKeys, Roots;
    ViewReach(h);
    ViewRefs(h, size);
    RefsOfSum(RootKeys(h), size);
    Fits(RecordKeys(h), Reach(h));
    ViewIsListable(h, size);
    if h.checkpoint.Some? { SnapshotIsAdmitted(h, size); }
    NoSnapshot(h, size);
    if Heading(h, size, heads) {
      HeadingKeys(h, size, heads);
      var cfg := ViewConfig(h, readable, size);
      WalkSucceeds(cfg, readable, size, RootKeys(h), heads);
    }
  }

  lemma {:induction false} NoSnapshot(h: Head, size: Key -> nat)
    ensures SnapshotOf(h, size).Some? <==> h.checkpoint.Some?
  {
  }

  lemma {:induction false} MarkedGraph(
    h: Head, readable: set<Key>, size: Key -> nat, heads: map<Key, Meta>, live: map<Key, Meta>)
    requires Marked(ViewConfig(h, readable, size), RecordsOf(h.tail, size), SnapshotOf(h, size), heads, live)
    ensures live.Keys == Reach(h)
    ensures forall k | k in ClosureAll(RootKeys(h)) :: Walkable(ViewConfig(h, readable, size), readable, size, k)
  {
    hide RecordsOf, RefsOf, ClosureAll, Reach, Certificate, Forced, Lists, Entries, SnapshotOf, Reading, RootKeys, Roots;
    hide Walkable, RecordKeys;
    ViewReach(h);
    ViewRefs(h, size);
    HeadingKeys(h, size, heads);
    WalkIsClosure(ViewConfig(h, readable, size), readable, size, RootKeys(h), heads, Met(heads, live));
    KeysOfRefs(ClosureAll(RootKeys(h)), size);
  }

  /** Whatever was marked is exactly what the view reaches, and was within the limits. */
  lemma {:induction false} MarkedIsReach(
    h: Head, readable: set<Key>, size: Key -> nat, heads: map<Key, Meta>, live: map<Key, Meta>)
    requires WellTyped(h) && Marked(ViewConfig(h, readable, size), RecordsOf(h.tail, size), SnapshotOf(h, size), heads, live)
    requires Listable(RecordsOf(h.tail, size), SnapshotOf(h, size), h.options.maxCollectionObjects)
    requires |live| <= h.options.maxCollectionObjects && RecordsAdmitted(h)
    ensures live.Keys == Reach(h) && MarkFits(h, size)
    ensures forall k | k in ClosureAll(RootKeys(h)) && !k.body.Blob? :: k in readable
  {
    hide RecordsOf, RefsOf, ClosureAll, Reach, Marked, Entries, Admitted, Covers, SnapshotOf, Reading, RootKeys, Roots;
    MarkedGraph(h, readable, size, heads, live);
    ViewRefs(h, size);
    RefsOfSum(RootKeys(h), size);
    NoSnapshot(h, size);
    if h.checkpoint.Some? { SnapshotIsAdmitted(h, size); }
    assert forall k | k in ClosureAll(RootKeys(h)) :: Walkable(ViewConfig(h, readable, size), readable, size, k);
  }

  /**
  Marks a view from what can be read. It succeeds exactly when the view is within the limits
  and everything it reaches, apart from blobs, can be read; and then it marks exactly that.
  */
  method MarkView(h: Head, readable: set<Key>, size: Key -> nat) returns (r: Result<set<Key>>)
    requires WellTyped(h)
    ensures r.Ok? <==> MarkFits(h, size) && MarkReads(h, readable)
    ensures r.Ok? ==> r.value == Reach(h)
  {
    hide RecordsOf, RefsOf, Reach, Reading, ClosureAll, Marked, Markable, Lists, SnapshotOf, MarkFits, Heading, Listable;
    hide Entries, RootKeys;
    ViewReach(h);
    RecordsAreNoBlobs(h);
    if !(RecordKeys(h) <= readable) {
      return Err(ViewExpired);
    }
    if !RecordsAdmitted(h) {
      AdmittedFirst(h, size);
      return Err(LimitExceeded);
    }
    var tail, snapshot := RecordsOf(h.tail, size), SnapshotOf(h, size);
    TypedRecords(h, size);
    ghost var heads;
    var live;
    live, heads := MarkLive(
      Reading(readable, size), tail, snapshot, h.options.maxCollectionObjects, h.options.maxObjectBytes);
    if live.Err? {
      if MarkFits(h, size) && MarkReads(h, readable) {
        ViewIsMarkable(h, readable, size, heads);
        Headed(h, size, heads);
      }
      return Err(live.error);
    }
    MarkableIsListable(ViewConfig(h, readable, size), tail, snapshot, heads);
    MarkedIsReach(h, readable, size, heads, live.value);
    r := Ok(live.value.Keys);
  }

  lemma {:induction false} MarkableIsListable(
    cfg: Config, tail: seq<Record>, checkpoint: Option<Snapshot>, heads: map<Key, Meta>)
    requires Markable(cfg, tail, checkpoint, heads)
    ensures Listable(tail, checkpoint, cfg.maxObjects)
  {
  }

  lemma {:induction false} AdmittedFirst(h: Head, size: Key -> nat)
    ensures MarkFits(h, size) ==> RecordsAdmitted(h)
  {
  }

  lemma {:induction false} Headed(h: Head, size: Key -> nat, heads: map<Key, Meta>)
    requires Lists(heads, Entries(RecordsOf(h.tail, size), SnapshotOf(h, size)))
    ensures Heading(h, size, heads)
  {
  }

  lemma {:induction false} RecordsAreNoBlobs(h: Head)
    requires WellTyped(h)
    ensures forall k | k in RecordKeys(h) :: !k.body.Blob?
  {
    hide ClosureAll;
  }

  lemma {:induction false} TypedRecords(h: Head, size: Key -> nat)
    requires WellTyped(h)
    ensures Typed(RecordsOf(h.tail, size), SnapshotOf(h, size))
  {
    hide ClosureAll, RefsOf, Count;
    TypedTail(h.tail, size);
  }

  lemma {:induction false} TypedTail(tail: seq<CommitRef>, size: Key -> nat)
    requires forall e | e in tail :: e.key.body.Commit?
    ensures forall r | r in RecordsOf(tail, size) :: r.key.body.Commit?
  {
    hide RefsOf;
    if tail != [] { TypedTail(tail[..|tail| - 1], size); }
  }

  /** In every reachable state a view of the current epoch is marked, unless it exceeds the limits. */
  method MarkCurrent(s: State, view: nat, size: Key -> nat) returns (r: Result<set<Key>>)
    requires Reachable(s) && view < |s.heads| && s.heads[view].collectionEpoch == Current(s).collectionEpoch
    ensures r.Ok? <==> MarkFits(s.heads[view], size)
    ensures r.Ok? ==> r.value == Reach(s.heads[view])
  {
    hide Reachable, Reach, WellTyped, MarkFits;
    PublishedIsTyped(s, view);
    ViewIsReadable(s, view);
    r := MarkView(s.heads[view], s.store, size);
  }

  // ---- What admission is worth ----

  /** Declared counts bound the graph below a record, and every count in it. */
  lemma {:induction false} CountBounds(k: Key, x: Key)
    requires x in Closure(k)
    ensures |Closure(k)| <= Count(k) && Count(x) <= Count(k)
    decreases k, 1
  {
    ClosureOf(k);
    match k.body
    case Node(_, children) => CountAllBounds(children, x, x != k);
    case Commit(_, _, _, objects) => CountAllBounds(objects, x, x != k);
    case Checkpoint(_, _, _, objects) => CountAllBounds(objects, x, x != k);
    case _ =>
  }

  lemma {:induction false} CountAllBounds(ks: seq<Key>, x: Key, inside: bool)
    requires inside ==> x in ClosureAll(ks)
    ensures |ClosureAll(ks)| <= CountAll(ks) && |ks| <= CountAll(ks) && (inside ==> Count(x) <= CountAll(ks))
    decreases ks, 0
  {
    if ks != [] {
      ClosureOf(ks[0]);
      CountBounds(ks[0], if inside && x in Closure(ks[0]) then x else ks[0]);
      CountAllBounds(ks[1..], x, inside && x in ClosureAll(ks[1..]));
    }
  }

  /** Objects that were admitted fit the walk, unless one of them is too long. */
  lemma {:induction false} AdmittedFits(ks: seq<Key>, size: Key -> nat, o: Options)
    requires Admits(o, ks)
    ensures GraphFits(ClosureAll(ks), size, o) <==> forall k | k in ClosureAll(ks) :: size(k) <= o.maxObjectBytes
  {
    hide ClosureAll, CountAll, Count;
    EmptyBounds(ks);
    forall k | k in ClosureAll(ks) ensures Count(k) <= U64_MAX {
      CountAllBounds(ks, k, true);
    }
  }

  lemma {:induction false} EmptyBounds(ks: seq<Key>)
    ensures |ClosureAll(ks)| <= CountAll(ks) && |ks| <= CountAll(ks)
  {
    CountAllBounds(ks, Key(0, Blob([])), false);
  }

  lemma {:induction false} ChainOptions(heads: seq<Head>, changes: seq<Change>, i: nat, j: nat)
    requires Chain(heads, changes) && i <= j < |heads|
    ensures heads[i].options == heads[j].options
    decreases j - i
  {
    if i < j {
      assert Link(heads, changes, i);
      ChainOptions(heads, changes, i + 1, j);
    }
  }

  /** Whatever is published was admitted, so no read of a published record ever fails that check. */
  lemma {:induction false} PublishedIsAdmitted(s: State, view: nat)
    requires Reachable(s) && view < |s.heads|
    ensures RecordsAdmitted(s.heads[view])
  {
    hide Reachable, Admits;
    ReachableChain(s);
    var h := s.heads[view];
    forall e | e in h.tail ensures Admits(h.options, Named(e.key)) {
      var j := InvariantSteps.TailChange(s.heads, s.changes, view, e);
      assert Link(s.heads, s.changes, j);
      ChainOptions(s.heads, s.changes, j, view);
    }
    if h.checkpoint.Some? {
      var j := InvariantSteps.CheckpointChange(s.heads, s.changes, view);
      assert Link(s.heads, s.changes, j);
      ChainOptions(s.heads, s.changes, j, view);
    }
  }

  /** Some object of the graph exceeds the byte limit. */
  ghost predicate TooLong(ks: set<Key>, size: Key -> nat, o: Options) {
    exists k :: k in ks && size(k) > o.maxObjectBytes
  }

  /**
  A published view exceeds the limits of marking only if its records name too many objects
  together, or an object is too long.
  */
  lemma {:induction false} PublishedFits(s: State, view: nat, size: Key -> nat)
    requires Reachable(s) && view < |s.heads|
    ensures
      var h := s.heads[view];
      MarkFits(h, size) <==>
      && |RootKeys(h)| <= h.options.maxCollectionObjects && |Reach(h)| <= h.options.maxCollectionObjects
      && !TooLong(ClosureAll(RootKeys(h)), size, h.options)
  {
    hide Reachable, ClosureAll, Reach, Count, RootKeys;
    var h := s.heads[view];
    PublishedIsAdmitted(s, view);
    AdmittedCounts(h);
    forall k | k in ClosureAll(RootKeys(h)) ensures Count(k) <= U64_MAX {
      RootCounts(h, k);
    }
  }

  lemma {:induction false} AdmittedCounts(h: Head)
    requires RecordsAdmitted(h)
    ensures h.checkpoint.Some? ==>
              var n := Count(h.checkpoint.value.key); n <= h.options.maxCollectionObjects && n <= U64_MAX
  {
  }

  lemma {:induction false} RootCounts(h: Head, k: Key)
    requires RecordsAdmitted(h) && k in ClosureAll(RootKeys(h))
    ensures Count(k) <= U64_MAX
  {
    hide ClosureAll, Closure, Count, CountAll;
    ClosureAllOnly(RootKeys(h), k);
    var root :| root in RootKeys(h) && k in Closure(root);
    var record: Key;
    if root in TailNamed(h.tail) {
      NamedByTail(h.tail, root);
      var e :| e in h.tail && root in Named(e.key);
      record := e.key;
    } else {
      record := h.checkpoint.value.key;
    }
    assert root in Named(record) && Admits(h.options, Named(record));
    ClosureAllCovers(Named(record), root);
    CountAllBounds(Named(record), k, true);
  }

  /**
  The admission promise for published heads: a checkpoint that covers the whole tail can always be
  marked, however the counts of its objects overlap, unless an object is too long.
  */
  lemma {:induction false} FullCheckpointFits(s: State, view: nat, size: Key -> nat)
    requires Reachable(s) && view < |s.heads| && s.heads[view].tail == []
    ensures MarkFits(s.heads[view], size) <==> !TooLong(ClosureAll(RootKeys(s.heads[view])), size, s.heads[view].options)
  {
    hide Reachable, MarkFits, TooLong;
    var h := s.heads[view];
    PublishedIsAdmitted(s, view);
    PublishedFits(s, view, size);
    NoTailReach(h);
    if h.checkpoint.Some? {
      var key := h.checkpoint.value.key;
      CountBounds(key, key);
      EmptyBounds(Named(key));
    }
  }

  lemma {:induction false} NoTailReach(h: Head)
    requires h.tail == []
    ensures Reach(h) == if h.checkpoint.Some? then Closure(h.checkpoint.value.key) else {}
    ensures RootKeys(h) == if h.checkpoint.Some? then Named(h.checkpoint.value.key) else []
  {
  }
}
