/**
How a collection decides what to delete: it marks everything live, then scans a
bounded part of the namespace for keys that are not.
*/
module CollectionScan {
  import opened Wrappers
  import opened Heads
  import opened GraphWalk

  // ---- Marking ----

  /** One commit of the active tail, as read. */
  datatype Record = Record(key: Key, len: nat, objects: seq<Ref>)

  /** The checkpoint, as read. */
  datatype Snapshot = Snapshot(root: Ref, objects: seq<Ref>)

  /** A record sits under a commit key and the snapshot under a checkpoint key. */
  predicate Typed(tail: seq<Record>, checkpoint: Option<Snapshot>) {
    && (forall r | r in tail :: r.key.body.Commit?)
    && (checkpoint.Some? ==> checkpoint.value.root.key.body.Checkpoint?)
  }

  datatype Entry = Entry(key: Key, meta: Meta)

  function Entries(tail: seq<Record>, checkpoint: Option<Snapshot>): seq<Entry> {
    TailEntries(tail) + if checkpoint.Some? then [SnapshotEntry(checkpoint.value)] else []
  }

  function TailEntries(tail: seq<Record>): seq<Entry> {
    if tail == [] then []
    else TailEntries(tail[..|tail| - 1]) + [CommitEntry(tail[|tail| - 1])]
  }

  function CommitEntry(r: Record): Entry { Entry(r.key, Meta(r.len, 0)) }

  function SnapshotEntry(s: Snapshot): Entry { Entry(s.root.key, Meta(s.root.len, s.root.count)) }

  function TailRoots(tail: seq<Record>): seq<Ref> {
    if tail == [] then [] else TailRoots(tail[..|tail| - 1]) + tail[|tail| - 1].objects
  }

  function Roots(tail: seq<Record>, checkpoint: Option<Snapshot>): seq<Ref> {
    TailRoots(tail) + if checkpoint.Some? then checkpoint.value.objects else []
  }

  /** The live map before the walk: one entry for each record. */
  ghost predicate Lists(live: map<Key, Meta>, entries: seq<Entry>) {
    && (forall e | e in entries :: e.key in live && live[e.key] == e.meta)
    && (forall k | k in live :: exists e | e in entries :: e.key == k)
  }

  /** A checkpoint loads when its reference declares the count of its dependencies within the limit. */
  predicate Admitted(s: Snapshot, maxObjects: nat) {
    && (forall r | r in s.objects :: !r.key.body.Checkpoint?)
    && SubtreeObjects(s.objects) == Ok(s.root.count)
    && s.root.count <= maxObjects
  }

  function LiveConfig(store: map<Key, Stored>, maxObjects: nat, maxBytes: nat): Config {
    Config(store, Reachability, {}, maxObjects, maxBytes)
  }

  method InsertLive(live: map<Key, Meta>, e: Entry, maxObjects: nat) returns (r: Result<map<Key, Meta>>)
    ensures r.Ok? <==> (e.key in live ==> live[e.key] == e.meta) && |live[e.key := e.meta]| <= maxObjects
    ensures r.Ok? ==> r.value == live[e.key := e.meta]
  {
    if e.key in live && live[e.key] != e.meta {
      return Err(CorruptObject);
    }
    var next := live[e.key := e.meta];
    if |next| > maxObjects {
      return Err(LimitExceeded);
    }
    r := Ok(next);
  }

  lemma {:induction false} ListsMore(live: map<Key, Meta>, entries: seq<Entry>, e: Entry)
    requires Lists(live, entries) && (e.key in live ==> live[e.key] == e.meta)
    ensures Lists(live[e.key := e.meta], entries + [e])
    ensures |live| <= |live[e.key := e.meta]|
  {
    var live' := live[e.key := e.meta];
    Fits(live.Keys, live'.Keys);
    forall k | k in live' ensures exists x | x in entries + [e] :: x.key == k {
      if k in live {
        var x :| x in entries && x.key == k;
        assert x in entries + [e];
      } else {
        assert e in entries + [e];
      }
    }
  }

  /** The map has every entry. */
  ghost predicate Covers(all: map<Key, Meta>, entries: seq<Entry>) {
    forall e | e in entries :: e.key in all && all[e.key] == e.meta
  }

  lemma {:induction false} TailPrefix(tail: seq<Record>, n: nat)
    requires n <= |tail|
    ensures forall e | e in TailEntries(tail[..n]) :: e in TailEntries(tail)
    ensures |TailRoots(tail[..n])| <= |TailRoots(tail)|
  {
    if n < |tail| {
      TailPrefix(tail[..|tail| - 1], n);
      assert tail[..|tail| - 1][..n] == tail[..n];
    } else {
      assert tail[..n] == tail;
    }
  }

  /** If all entries fit one map, the next one can be inserted. */
  lemma {:induction false} InsertFits(
    live: map<Key, Meta>, entries: seq<Entry>, e: Entry, all: map<Key, Meta>, allEntries: seq<Entry>)
    requires Lists(live, entries) && Covers(all, allEntries) && e in allEntries
    requires forall x | x in entries :: x in allEntries
    ensures (e.key in live ==> live[e.key] == e.meta) && |live[e.key := e.meta]| <= |all|
  {
    var next := live[e.key := e.meta];
    assert next.Keys <= all.Keys by {
      forall k | k in next ensures k in all {
        if k in live {
          var x :| x in entries && x.key == k;
        }
      }
    }
    Fits(next.Keys, all.Keys);
    if e.key in live {
      var x :| x in entries && x.key == e.key;
    }
  }

  /** Marks the tail, one record after the other. */
  method MarkTail(tail: seq<Record>, maxObjects: nat) returns (r: Result<(map<Key, Meta>, seq<Ref>)>)
    ensures r.Ok? ==>
      && Lists(r.value.0, TailEntries(tail)) && |r.value.0| <= maxObjects
      && r.value.1 == TailRoots(tail) && |r.value.1| <= maxObjects
    ensures r.Err? ==> tail != [] && forall all :: Covers(all, TailEntries(tail)) && |all| <= maxObjects ==>
                                        |TailRoots(tail)| > maxObjects
  {
    var live: map<Key, Meta>, roots: seq<Ref> := map[], [];
    var i := 0;
    while i < |tail|
      invariant i <= |tail|
      invariant Lists(live, TailEntries(tail[..i])) && |live| <= maxObjects
      invariant roots == TailRoots(tail[..i]) && |roots| <= maxObjects
    {
      var e := CommitEntry(tail[i]);
      var inserted := InsertLive(live, e, maxObjects);
      assert tail[..i + 1][..i] == tail[..i];
      TailPrefix(tail, i + 1);
      if inserted.Err? {
        forall all | Covers(all, TailEntries(tail)) && |all| <= maxObjects ensures false {
          InsertFits(live, TailEntries(tail[..i]), e, all, TailEntries(tail));
        }
        return Err(inserted.error);
      }
      if |tail[i].objects| > maxObjects - |roots| {
        return Err(LimitExceeded);
      }
      ListsMore(live, TailEntries(tail[..i]), e);
      live := inserted.value;
      roots := roots + tail[i].objects;
      i := i + 1;
    }
    assert tail[..i] == tail;
    r := Ok((live, roots));
  }

  /** What marking achieves: exactly the records and the graph below them, all of it sound. */
  ghost predicate Marked(
    cfg: Config, tail: seq<Record>, checkpoint: Option<Snapshot>, heads: map<Key, Meta>, live: map<Key, Meta>)
  {
    && Lists(heads, Entries(tail, checkpoint))
    && Certificate(cfg, Roots(tail, checkpoint), heads, Met(heads, live))
    && Forced(cfg, Roots(tail, checkpoint), Met(heads, live), [])
    && live.Keys == heads.Keys + Keys(Met(heads, live))
  }

  /** Every object below the checkpoint can be read and agrees with its references. */
  ghost predicate Intact(cfg: Config, roots: seq<Ref>, rs: set<Ref>) {
    && Closed(cfg, roots, rs)
    && (forall r | r in rs :: Admissible(cfg, r) && Expand(cfg, r).Ok?)
    && (forall a, b | a in rs && b in rs :: a.key == b.key ==> a == b)
  }

  /** The records agree with each other, the checkpoint was admitted, and records and roots are within the limit. */
  ghost predicate Listable(tail: seq<Record>, checkpoint: Option<Snapshot>, maxObjects: nat) {
    && (checkpoint.Some? ==> Admitted(checkpoint.value, maxObjects))
    && |Roots(tail, checkpoint)| <= maxObjects
    && exists all :: Covers(all, Entries(tail, checkpoint)) && |all| <= maxObjects
  }

  /** Marks the records themselves and collects the roots of the walk. */
  method MarkRecords(tail: seq<Record>, checkpoint: Option<Snapshot>, maxObjects: nat)
    returns (r: Result<(map<Key, Meta>, seq<Ref>)>)
    ensures r.Ok? ==>
      && Lists(r.value.0, Entries(tail, checkpoint)) && |r.value.0| <= maxObjects
      && r.value.1 == Roots(tail, checkpoint)
    ensures r.Ok? <==> Listable(tail, checkpoint, maxObjects)
  {
    var marked := MarkTail(tail, maxObjects);
    if marked.Err? {
      return Err(marked.error);
    }
    var live, roots := marked.value.0, marked.value.1;
    if checkpoint.None? {
      assert TailEntries(tail) + [] == TailEntries(tail) && roots + [] == roots;
      return Ok((live, roots));
    }
    var snapshot := checkpoint.value;
    var inserted := InsertLive(live, SnapshotEntry(snapshot), maxObjects);
    if inserted.Err? {
      forall all | Covers(all, Entries(tail, checkpoint)) && |all| <= maxObjects ensures false {
        InsertFits(live, TailEntries(tail), SnapshotEntry(snapshot), all, Entries(tail, checkpoint));
      }
      return Err(inserted.error);
    }
    if !Admitted(snapshot, maxObjects) {
      return Err(InvalidFormat);
    }
    if |snapshot.objects| > maxObjects - |roots| {
      return Err(LimitExceeded);
    }
    ListsMore(live, TailEntries(tail), SnapshotEntry(snapshot));
    r := Ok((inserted.value, roots + snapshot.objects));
  }

  /**
  Marks everything live. When a checkpoint covers the whole tail, the checkpoint was admitted
  and its graph is intact, marking never exceeds the object limit.
  */
  method MarkLive(store: map<Key, Stored>, tail: seq<Record>, checkpoint: Option<Snapshot>, maxObjects: nat, maxBytes: nat)
    returns (r: Result<map<Key, Meta>>, ghost heads: map<Key, Meta>)
    requires Typed(tail, checkpoint)
    ensures r.Ok? ==> Marked(LiveConfig(store, maxObjects, maxBytes), tail, checkpoint, heads, r.value)
    ensures r.Ok? ==> |r.value| <= maxObjects
    ensures r.Ok? <==> Markable(LiveConfig(store, maxObjects, maxBytes), tail, checkpoint, heads)
    ensures Listable(tail, checkpoint, maxObjects) ==> Lists(heads, Entries(tail, checkpoint))
    ensures FullCheckpoint(LiveConfig(store, maxObjects, maxBytes), tail, checkpoint) ==> r.Ok?
  {
    heads := map[];
    var cfg := LiveConfig(store, maxObjects, maxBytes);
    var records := MarkRecords(tail, checkpoint, maxObjects);
    if FullCheckpoint(cfg, tail, checkpoint) { FullIsListable(checkpoint.value, maxObjects); }
    if records.Err? {
      return Err(records.error), heads;
    }
    heads := records.value.0;
    FreshHeads(tail, checkpoint, heads);
    ghost var log;
    r, log := MarkObjectGraph(cfg, records.value.1, records.value.0);
    if r.Ok? {
      MetKeys(heads, r.value, Met(heads, r.value));
      assert r.value.Keys == heads.Keys + Keys(Met(heads, r.value));
    } else if FullCheckpoint(cfg, tail, checkpoint) {
      assert Roots(tail, checkpoint) == checkpoint.value.objects;
      CheckpointFits(cfg, checkpoint.value, heads);
    }
  }

  /** Marking must succeed: the records can be listed, and the graph below them is sound and within the limit. */
  ghost predicate Markable(cfg: Config, tail: seq<Record>, checkpoint: Option<Snapshot>, heads: map<Key, Meta>) {
    && Listable(tail, checkpoint, cfg.maxObjects)
    && exists rs :: Certificate(cfg, Roots(tail, checkpoint), heads, rs)
  }

  lemma {:induction false} FullIsListable(s: Snapshot, maxObjects: nat)
    requires Admitted(s, maxObjects)
    ensures Listable([], Some(s), maxObjects)
  {
    var e := SnapshotEntry(s);
    var all: map<Key, Meta> := map[e.key := e.meta];
    assert Entries([], Some(s)) == [e];
    assert Covers(all, [e]);
    ManyRefs(s.objects);
    assert Roots([], Some(s)) == s.objects;
  }

  /** A checkpoint that covers the whole tail, was admitted and has an intact graph. */
  ghost predicate FullCheckpoint(cfg: Config, tail: seq<Record>, checkpoint: Option<Snapshot>) {
    && tail == [] && checkpoint.Some? && Admitted(checkpoint.value, cfg.maxObjects)
    && exists rs :: Intact(cfg, checkpoint.value.objects, rs)
  }

  lemma {:induction false} ManyRefs(rs: seq<Ref>)
    requires forall r | r in rs :: r.count > 0
    ensures |rs| <= Sum(rs)
  {
    if rs != [] { ManyRefs(rs[1..]); }
  }

  lemma {:induction false} FreshHeads(tail: seq<Record>, checkpoint: Option<Snapshot>, heads: map<Key, Meta>)
    requires Lists(heads, Entries(tail, checkpoint))
    requires Typed(tail, checkpoint)
    ensures Fresh(heads)
  {
    forall e | e in TailEntries(tail) ensures e.key.body.Commit? {
      EntryIsRecord(tail, e);
    }
  }

  lemma {:induction false} EntryIsRecord(tail: seq<Record>, e: Entry)
    requires e in TailEntries(tail)
    ensures exists r :: r in tail && e == CommitEntry(r)
  {
    var last := tail[|tail| - 1];
    assert last in tail;
    if e != CommitEntry(last) { EntryIsRecord(tail[..|tail| - 1], e); }
  }

  /** The graph of an admitted checkpoint, together with the checkpoint, is within the limit. */
  lemma {:induction false} CheckpointFits(cfg: Config, s: Snapshot, heads: map<Key, Meta>)
    requires Admitted(s, cfg.maxObjects) && Lists(heads, Entries([], Some(s)))
    ensures forall rs :: Intact(cfg, s.objects, rs) ==> exists least :: Certificate(cfg, s.objects, heads, least)
  {
    hide UnderAll, Closed, Lists, Admissible, Expand;
    forall rs | Intact(cfg, s.objects, rs) ensures exists least :: Certificate(cfg, s.objects, heads, least) {
      var least := rs * UnderAll(cfg, s.objects);
      UnderIsClosed(cfg, s.objects);
      LeastFits(cfg, s, heads, least);
      LeastIsIntact(cfg, s.objects, rs, UnderAll(cfg, s.objects));
      assert Certificate(cfg, s.objects, heads, least);
    }
  }

  lemma {:induction false} LeastFits(cfg: Config, s: Snapshot, heads: map<Key, Meta>, least: set<Ref>)
    requires Admitted(s, cfg.maxObjects) && Lists(heads, Entries([], Some(s))) && least <= UnderAll(cfg, s.objects)
    ensures |heads.Keys + Keys(least)| <= cfg.maxObjects
  {
    hide UnderAll;
    UnderAllSize(cfg, s.objects);
    Fits(least, UnderAll(cfg, s.objects));
    KeysFit(least);
    assert heads.Keys <= {s.root.key};
    Fits(heads.Keys, {s.root.key});
    SumOfSizes(heads.Keys, Keys(least));
  }

  lemma {:induction false} LeastIsIntact(cfg: Config, roots: seq<Ref>, a: set<Ref>, b: set<Ref>)
    requires Intact(cfg, roots, a) && Closed(cfg, roots, b)
    ensures Intact(cfg, roots, a * b)
  {
  }

  lemma {:induction false} SumOfSizes<T>(a: set<T>, b: set<T>)
    ensures |a + b| <= |a| + |b|
  {
  }

  // ---- Scanning ----

  /** A listed object; only canonical immutable paths have a key. */
  datatype Listed = Listed(key: Option<Key>, size: nat)

  predicate IsDead(live: set<Key>, item: Listed) { item.key.Some? && item.key.value !in live }

  function Finish(found: map<Key, nat>, complete: bool): Result<map<Key, nat>> {
    if found == map[] && !complete then Err(LimitExceeded) else Ok(found)
  }

  /** Examines at most `budget` entries and stops at `limit` candidates. */
  function ScanFrom(listed: seq<Listed>, live: set<Key>, limit: nat, budget: nat, found: map<Key, nat>): Result<map<Key, nat>>
    decreases budget
  {
    if budget == 0 then Finish(found, false)
    else if listed == [] then Finish(found, true)
    else if !IsDead(live, listed[0]) then ScanFrom(listed[1..], live, limit, budget - 1, found)
    else
      var key, size := listed[0].key.value, listed[0].size;
      if key in found && found[key] != size then Err(CorruptObject)
      else if |found[key := size]| == limit then Ok(found[key := size])
      else ScanFrom(listed[1..], live, limit, budget - 1, found[key := size])
  }

  function Scan(listed: seq<Listed>, live: set<Key>, limit: nat): Result<map<Key, nat>> {
    ScanFrom(listed, live, limit, |live| + limit + 1, map[])
  }

  /** The bounded scan as a collection runs it. */
  method SelectCandidates(listed: seq<Listed>, live: set<Key>, limit: nat) returns (r: Result<map<Key, nat>>)
    requires limit > 0
    ensures r == Scan(listed, live, limit)
  {
    var candidates: map<Key, nat> := map[];
    var complete := false;
    var scanLimit := |live| + limit + 1;
    var i := 0;
    while i < scanLimit
      invariant i <= scanLimit && i <= |listed| && !complete
      invariant |candidates| < limit
      invariant ScanFrom(listed[i..], live, limit, scanLimit - i, candidates) == Scan(listed, live, limit)
    {
      if i == |listed| {
        complete := true;
        break;
      }
      assert listed[i..][1..] == listed[i + 1..];
      if IsDead(live, listed[i]) {
        var key, size := listed[i].key.value, listed[i].size;
        if key in candidates && candidates[key] != size {
          return Err(CorruptObject);
        }
        candidates := candidates[key := size];
        if |candidates| == limit {
          return Ok(candidates);
        }
      }
      i := i + 1;
    }
    r := Finish(candidates, complete);
  }

  /** Whatever the listing says, a plan names only listed keys that are not live, within its limit. */
  lemma {:induction false} ScanIsSafe(listed: seq<Listed>, live: set<Key>, limit: nat, budget: nat, found: map<Key, nat>)
    requires |found| < limit
    requires ScanFrom(listed, live, limit, budget, found).Ok?
    ensures
      var plan := ScanFrom(listed, live, limit, budget, found).value;
      && |plan| <= limit
      && (forall k | k in plan && k !in found :: k !in live && Listed(Some(k), plan[k]) in listed)
      && (forall k | k in found :: k in plan && plan[k] == found[k])
    decreases budget
  {
    if budget > 0 && listed != [] {
      if !IsDead(live, listed[0]) {
        ScanIsSafe(listed[1..], live, limit, budget - 1, found);
      } else {
        var key, size := listed[0].key.value, listed[0].size;
        assert listed[0] == Listed(Some(key), size);
        var found' := found[key := size];
        assert found'.Keys == found.Keys + {key};
        if |found'| != limit {
          ScanIsSafe(listed[1..], live, limit, budget - 1, found');
        }
      }
    }
  }

  /** An empty answer means that the whole listing was examined and nothing in it was dead. */
  lemma {:induction false} EmptyIsComplete(listed: seq<Listed>, live: set<Key>, limit: nat, budget: nat)
    requires limit > 0 && ScanFrom(listed, live, limit, budget, map[]) == Ok(map[])
    ensures forall item | item in listed :: !IsDead(live, item)
    decreases budget
  {
    if listed != [] {
      if IsDead(live, listed[0]) {
        var key, size := listed[0].key.value, listed[0].size;
        var found: map<Key, nat> := map[key := size];
        if |found| != limit { ScanIsSafe(listed[1..], live, limit, budget - 1, found); }
      } else {
        EmptyIsComplete(listed[1..], live, limit, budget - 1);
      }
    }
  }

  // ---- Progress in a quiet namespace ----

  ghost predicate DistinctKeys(listed: seq<Listed>) {
    forall i, j | 0 <= i < j < |listed| && listed[i].key.Some? && listed[j].key.Some? ::
      listed[i].key != listed[j].key
  }

  ghost function KeysOf(listed: seq<Listed>): set<Key> {
    set item | item in listed && item.key.Some? :: item.key.value
  }

  function Unclassified(listed: seq<Listed>): nat {
    if listed == [] then 0 else (if listed[0].key.None? then 1 else 0) + Unclassified(listed[1..])
  }

  function Spared(listed: seq<Listed>, live: set<Key>): nat {
    if listed == [] then 0 else (if IsDead(live, listed[0]) then 0 else 1) + Spared(listed[1..], live)
  }

  function Deads(listed: seq<Listed>, live: set<Key>): nat {
    if listed == [] then 0 else (if IsDead(live, listed[0]) then 1 else 0) + Deads(listed[1..], live)
  }

  ghost function Dead(keys: set<Key>, live: set<Key>): set<Key> { set k | k in keys && k !in live }

  /** A complete listing without repeats whose only unclassified entry is the head. */
  ghost predicate Shows(listed: seq<Listed>, namespace: map<Key, nat>) {
    && DistinctKeys(listed)
    && KeysOf(listed) == namespace.Keys
    && (forall item | item in listed && item.key.Some? :: item.size == namespace[item.key.value])
    && Unclassified(listed) == 1
  }

  lemma {:induction false} HeadIsDistinct(listed: seq<Listed>)
    requires listed != [] && DistinctKeys(listed)
    ensures DistinctKeys(listed[1..])
    ensures listed[0].key.Some? ==>
      listed[0].key.value !in KeysOf(listed[1..]) && (forall k :: k in KeysOf(listed) <==> k == listed[0].key.value || k in KeysOf(listed[1..]))
    ensures listed[0].key.None? ==> KeysOf(listed) == KeysOf(listed[1..])
  {
    var rest := listed[1..];
    assert listed == [listed[0]] + rest;
    forall i, j | 0 <= i < j < |rest| && rest[i].key.Some? && rest[j].key.Some? ensures rest[i].key != rest[j].key {
      assert listed[i + 1] == rest[i] && listed[j + 1] == rest[j];
    }
    if listed[0].key.Some? {
      forall item | item in rest && item.key.Some? ensures item.key != listed[0].key {
        var j :| 0 <= j < |rest| && rest[j] == item;
        assert listed[j + 1] == item;
      }
    }
    forall item | item in listed ensures item == listed[0] || item in rest {
    }
  }

  lemma {:induction false} OneMore<T>(a: set<T>, b: set<T>, x: T)
    requires x in a && x !in b && (forall y | y in b :: y in a) && (forall y | y in a && y != x :: y in b)
    ensures |a| == |b| + 1
  {
    assert a == b + {x};
  }

  /** Live keys and the head are all that a scan passes over. */
  lemma {:induction false} SparedBound(listed: seq<Listed>, live: set<Key>)
    requires DistinctKeys(listed)
    ensures Spared(listed, live) == |KeysOf(listed) * live| + Unclassified(listed)
  {
    if listed != [] {
      HeadIsDistinct(listed);
      SparedBound(listed[1..], live);
      var a, b := KeysOf(listed) * live, KeysOf(listed[1..]) * live;
      if listed[0].key.Some? && listed[0].key.value in live {
        OneMore(a, b, listed[0].key.value);
      } else {
        assert a == b;
      }
    }
  }

  lemma {:induction false} SparedFits(listed: seq<Listed>, live: set<Key>)
    requires DistinctKeys(listed)
    ensures Spared(listed, live) <= |live| + Unclassified(listed)
  {
    SparedBound(listed, live);
    Fits(KeysOf(listed) * live, live);
  }

  lemma {:induction false} DeadsCount(listed: seq<Listed>, live: set<Key>)
    requires DistinctKeys(listed)
    ensures Deads(listed, live) == |Dead(KeysOf(listed), live)|
  {
    if listed != [] {
      HeadIsDistinct(listed);
      DeadsCount(listed[1..], live);
      var a, b := Dead(KeysOf(listed), live), Dead(KeysOf(listed[1..]), live);
      if IsDead(live, listed[0]) {
        OneMore(a, b, listed[0].key.value);
      } else {
        assert a == b;
      }
    }
  }

  function Min(a: nat, b: nat): nat { if a < b then a else b }

  /** With budget for everything it passes over, a scan finds as many dead keys as it may. */
  lemma {:induction false} ScanFindsDead(listed: seq<Listed>, live: set<Key>, limit: nat, budget: nat, found: map<Key, nat>)
    requires DistinctKeys(listed) && KeysOf(listed) !! found.Keys
    requires |found| < limit && budget >= Spared(listed, live) + (limit - |found|)
    ensures ScanFrom(listed, live, limit, budget, found).Ok?
    ensures |ScanFrom(listed, live, limit, budget, found).value| == Min(|found| + Deads(listed, live), limit)
    decreases budget
  {
    if listed != [] {
      HeadIsDistinct(listed);
      if !IsDead(live, listed[0]) {
        ScanFindsDead(listed[1..], live, limit, budget - 1, found);
      } else {
        var key := listed[0].key.value;
        var found' := found[key := listed[0].size];
        assert key in KeysOf(listed);
        OneMore(found'.Keys, found.Keys, key);
        if |found'| != limit {
          ScanFindsDead(listed[1..], live, limit, budget - 1, found');
        }
      }
    }
  }

  /** A scan that succeeds found as much as it may, or all there is, or spent its budget on other entries. */
  lemma {:induction false} ScanIsFull(listed: seq<Listed>, live: set<Key>, limit: nat, budget: nat, found: map<Key, nat>)
    requires DistinctKeys(listed) && KeysOf(listed) !! found.Keys && |found| < limit
    requires ScanFrom(listed, live, limit, budget, found).Ok?
    ensures
      var plan := ScanFrom(listed, live, limit, budget, found).value;
      || |plan| == limit
      || |plan| == |found| + Deads(listed, live)
      || |plan| + Spared(listed, live) >= |found| + budget
    decreases budget
  {
    if budget > 0 && listed != [] {
      HeadIsDistinct(listed);
      if !IsDead(live, listed[0]) {
        ScanIsFull(listed[1..], live, limit, budget - 1, found);
      } else {
        var key := listed[0].key.value;
        var found' := found[key := listed[0].size];
        assert key in KeysOf(listed);
        OneMore(found'.Keys, found.Keys, key);
        if |found'| != limit {
          ScanIsFull(listed[1..], live, limit, budget - 1, found');
        }
      }
    }
  }

  /** A plan below its limit has everything dead, as long as the rest of the limit covers the unclassified entries. */
  lemma {:induction false} ScanMissesNothing(listed: seq<Listed>, live: set<Key>, limit: nat)
    requires DistinctKeys(listed) && Scan(listed, live, limit).Ok? && limit > 0
    ensures
      var plan := Scan(listed, live, limit).value;
      |plan| < limit && |plan| + Unclassified(listed) <= limit ==> plan.Keys == Dead(KeysOf(listed), live)
  {
    hide DistinctKeys, ScanFrom;
    var budget := |live| + limit + 1;
    var plan := Scan(listed, live, limit).value;
    if |plan| < limit && |plan| + Unclassified(listed) <= limit {
      ScanIsFull(listed, live, limit, budget, map[]);
      SparedFits(listed, live);
      DeadsCount(listed, live);
      ScanIsSafe(listed, live, limit, budget, map[]);
      forall k | k in plan ensures k in Dead(KeysOf(listed), live) {
        assert Listed(Some(k), plan[k]) in listed;
      }
      AllOfThem(plan.Keys, Dead(KeysOf(listed), live));
    }
  }

  lemma {:induction false} AllOfThem<T>(a: set<T>, b: set<T>)
    requires a <= b && |a| == |b|
    ensures a == b
  {
    assert b == a + (b - a);
  }

  /** A scan that has found something goes on without failing. */
  lemma {:induction false} FoundNeverFails(listed: seq<Listed>, live: set<Key>, limit: nat, budget: nat, found: map<Key, nat>)
    requires DistinctKeys(listed) && KeysOf(listed) !! found.Keys && found != map[]
    ensures ScanFrom(listed, live, limit, budget, found).Ok?
    decreases budget
  {
    if budget > 0 && listed != [] {
      HeadIsDistinct(listed);
      if IsDead(live, listed[0]) {
        var key := listed[0].key.value;
        assert key in KeysOf(listed);
        FoundNeverFails(listed[1..], live, limit, budget - 1, found[key := listed[0].size]);
      } else {
        FoundNeverFails(listed[1..], live, limit, budget - 1, found);
      }
    }
  }

  lemma {:induction false} FailsWhenSpent(listed: seq<Listed>, live: set<Key>, limit: nat, budget: nat)
    requires DistinctKeys(listed) && ScanFrom(listed, live, limit, budget, map[]).Err?
    ensures ScanFrom(listed, live, limit, budget, map[]) == Err(LimitExceeded) && Spared(listed, live) >= budget
    decreases budget
  {
    if budget > 0 && listed != [] {
      HeadIsDistinct(listed);
      if IsDead(live, listed[0]) {
        FoundNeverFails(listed[1..], live, limit, budget - 1, map[listed[0].key.value := listed[0].size]);
      } else {
        FailsWhenSpent(listed[1..], live, limit, budget - 1);
      }
    }
  }

  /** Without repeats a scan fails only when more unclassified entries than candidates were allowed are listed. */
  lemma {:induction false} FailsWhenFlooded(listed: seq<Listed>, live: set<Key>, limit: nat)
    requires DistinctKeys(listed) && Scan(listed, live, limit).Err?
    ensures Scan(listed, live, limit) == Err(LimitExceeded) && Unclassified(listed) > limit
  {
    FailsWhenSpent(listed, live, limit, |live| + limit + 1);
    SparedFits(listed, live);
  }

  /** One pass over a quiet namespace plans exactly min(dead, limit) keys; the scan limit never fires. */
  lemma {:induction false} PassIsExact(listed: seq<Listed>, namespace: map<Key, nat>, live: set<Key>, limit: nat)
    requires Shows(listed, namespace) && limit > 0
    ensures Scan(listed, live, limit).Ok?
    ensures |Scan(listed, live, limit).value| == Min(|Dead(namespace.Keys, live)|, limit)
    ensures Scan(listed, live, limit).value.Keys <= Dead(namespace.Keys, live)
  {
    SparedFits(listed, live);
    ScanFindsDead(listed, live, limit, |live| + limit + 1, map[]);
    DeadsCount(listed, live);
    ScanIsSafe(listed, live, limit, |live| + limit + 1, map[]);
    forall k | k in Scan(listed, live, limit).value ensures k in Dead(namespace.Keys, live) {
      assert Listed(Some(k), Scan(listed, live, limit).value[k]) in listed;
    }
  }

  /** Each pass deletes what it planned; nothing else changes. */
  ghost predicate Passes(namespaces: seq<map<Key, nat>>, listings: seq<seq<Listed>>, live: set<Key>, limit: nat) {
    && |namespaces| == |listings| + 1
    && (forall i | 0 <= i < |listings| :: Pass(namespaces[i], listings[i], namespaces[i + 1], live, limit))
  }

  ghost predicate Pass(before: map<Key, nat>, listed: seq<Listed>, after: map<Key, nat>, live: set<Key>, limit: nat) {
    && Shows(listed, before)
    && Scan(listed, live, limit).Ok?
    && after == before - Scan(listed, live, limit).value.Keys
  }

  lemma {:induction false} PassLeaves(before: map<Key, nat>, listed: seq<Listed>, after: map<Key, nat>, live: set<Key>, limit: nat)
    requires limit > 0 && Pass(before, listed, after, live, limit)
    ensures |Dead(after.Keys, live)| == |Dead(before.Keys, live)| - Min(|Dead(before.Keys, live)|, limit)
    ensures after.Keys * live == before.Keys * live
  {
    PassIsExact(listed, before, live, limit);
    var plan := Scan(listed, live, limit).value.Keys;
    SizeOfDifference(Dead(before.Keys, live), plan, Dead(after.Keys, live));
  }

  /** `D` dead keys are gone after ceil(D / limit) passes and not before; live keys all stay. */
  lemma {:induction false} BacklogDrains(
    namespaces: seq<map<Key, nat>>, listings: seq<seq<Listed>>, live: set<Key>, limit: nat, i: nat)
    requires limit > 0 && Passes(namespaces, listings, live, limit) && i < |namespaces|
    ensures |Dead(namespaces[i].Keys, live)| == Remaining(|Dead(namespaces[0].Keys, live)|, limit, i)
    ensures namespaces[i].Keys * live == namespaces[0].Keys * live
    ensures |Dead(namespaces[i].Keys, live)| == 0 <==> i >= PassesNeeded(|Dead(namespaces[0].Keys, live)|, limit)
  {
    DrainedExactlyThen(|Dead(namespaces[0].Keys, live)|, limit, i);
    if i > 0 {
      BacklogDrains(namespaces, listings, live, limit, i - 1);
      assert Pass(namespaces[i - 1], listings[i - 1], namespaces[i], live, limit);
      PassLeaves(namespaces[i - 1], listings[i - 1], namespaces[i], live, limit);
    }
  }

  lemma {:induction false} SizeOfDifference<T>(a: set<T>, b: set<T>, c: set<T>)
    requires b <= a && (forall x | x in c :: x in a && x !in b) && (forall x | x in a && x !in b :: x in c)
    ensures |c| == |a| - |b|
  {
    assert a == b + c;
  }

  function Remaining(dead: nat, limit: nat, passes: nat): nat {
    if passes == 0 then dead
    else var left := Remaining(dead, limit, passes - 1); left - Min(left, limit)
  }

  /** ceil(dead / limit) */
  function PassesNeeded(dead: nat, limit: nat): nat
    requires limit > 0
  {
    (dead + limit - 1) / limit
  }

  lemma {:induction false} RemainingClosed(dead: nat, limit: nat, passes: nat)
    ensures Remaining(dead, limit, passes) == if passes * limit < dead then dead - passes * limit else 0
  {
    if passes > 0 {
      RemainingClosed(dead, limit, passes - 1);
      assert passes * limit == (passes - 1) * limit + limit;
    }
  }

  lemma {:induction false} MulOrder(a: nat, b: nat, limit: nat)
    requires a <= b
    ensures a * limit <= b * limit
  {
    assert b * limit == a * limit + (b - a) * limit;
  }

  lemma {:induction false} DrainedExactlyThen(dead: nat, limit: nat, passes: nat)
    requires limit > 0
    ensures Remaining(dead, limit, passes) == 0 <==> passes >= PassesNeeded(dead, limit)
  {
    RemainingClosed(dead, limit, passes);
    var n, q := dead + limit - 1, PassesNeeded(dead, limit);
    assert n == q * limit + n % limit;
    if passes >= q {
      MulOrder(q, passes, limit);
    } else {
      MulOrder(passes + 1, q, limit);
      assert (passes + 1) * limit == passes * limit + limit;
    }
  }
}
