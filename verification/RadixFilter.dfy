/** Dropping identities from a persistent radix index, sharing every subtree that stays whole. */
module RadixFilter {
  import opened Wrappers
  import opened Radix

  // ---- What is kept ----

  ghost predicate NoneKept<V(!new)>(nodes: seq<Entry<V>>, h: Handle, keep: string -> bool) {
    forall id, v :: Maps(nodes, h, id, v) ==> !keep(id)
  }

  ghost predicate AllKept<V(!new)>(nodes: seq<Entry<V>>, h: Handle, keep: string -> bool) {
    forall id, v :: Maps(nodes, h, id, v) ==> keep(id)
  }

  /** A result means exactly the kept part of the input; no result means that nothing is kept. */
  ghost predicate Filtered<V(!new)>(
    before: seq<Entry<V>>, h: Handle, keep: string -> bool, after: seq<Entry<V>>, result: Option<Handle>)
  {
    match result
    case None => NoneKept(before, h, keep)
    case Some(h') => forall id, v :: Maps(after, h', id, v) <==> keep(id) && Maps(before, h, id, v)
  }

  /** When the filter leaves no root: nothing is kept, and every node lost something. */
  ghost predicate Drops<V>(nodes: seq<Entry<V>>, h: Handle, keep: string -> bool)
    decreases h
  {
    && h < |nodes|
    && match nodes[h]
       case Leaf(items) => items.Keys != {} && forall id | id in items :: !keep(id)
       case Branch(children) =>
         children.Keys != {} && forall k | k in children :: children[k] < h && Drops(nodes, children[k], keep)
  }

  /** A subtree of which everything is kept is the old one, at every level. */
  ghost predicate Shared<V(!new)>(
    before: seq<Entry<V>>, h: Handle, keep: string -> bool, after: seq<Entry<V>>, h': Handle)
    decreases h
  {
    && (AllKept(before, h, keep) ==> h' == h)
    && (h < |before| && before[h].Branch? ==>
          var base := before[h].children;
          && h' < |after| && after[h'].Branch? && after[h'].children.Keys <= base.Keys
          && forall k | k in after[h'].children && base[k] < h :: Shared(before, base[k], keep, after, after[h'].children[k]))
  }

  /** When there is a result, that it has no new empty node, and what it shares with the input. */
  ghost predicate Exact<V(!new)>(
    before: seq<Entry<V>>, h: Handle, keep: string -> bool, after: seq<Entry<V>>, result: Option<Handle>)
  {
    match result
    case None => Drops(before, h, keep)
    case Some(h') =>
      && !Drops(before, h, keep)
      && (Filled(before, h) ==> Filled(after, h'))
      && Shared(before, h, keep, after, h')
  }

  // ---- When there is no root ----

  lemma {:induction false} DropsStays<V>(a: seq<Entry<V>>, b: seq<Entry<V>>, h: Handle, keep: string -> bool)
    requires a <= b && h < |a|
    ensures Drops(a, h, keep) <==> Drops(b, h, keep)
    decreases h
  {
    if a[h].Branch? {
      var children := a[h].children;
      forall k | k in children && children[k] < h ensures Drops(a, children[k], keep) <==> Drops(b, children[k], keep) {
        DropsStays(a, b, children[k], keep);
      }
    }
  }

  /** Without empty nodes there is no root exactly when nothing is kept. */
  lemma {:induction false} FilledDrops<V(!new)>(nodes: seq<Entry<V>>, h: Handle, keep: string -> bool)
    requires Filled(nodes, h)
    ensures Drops(nodes, h, keep) <==> NoneKept(nodes, h, keep)
    decreases h
  {
    match nodes[h]
    case Leaf(items) =>
      LeafKeeps(nodes, h, keep);
    case Branch(children) =>
      forall k | k in children ensures Drops(nodes, children[k], keep) <==> NoneKept(nodes, children[k], keep) {
        FilledDrops(nodes, children[k], keep);
      }
      BranchKeepsNone(nodes, h, keep);
  }

  lemma {:induction false} BranchKeepsNone<V(!new)>(nodes: seq<Entry<V>>, h: Handle, keep: string -> bool)
    requires Filled(nodes, h) && nodes[h].Branch?
    ensures NoneKept(nodes, h, keep) <==> forall k | k in nodes[h].children :: NoneKept(nodes, nodes[h].children[k], keep)
  {
    var children := nodes[h].children;
    if NoneKept(nodes, h, keep) {
      forall k | k in children ensures NoneKept(nodes, children[k], keep) {
        forall id, v | Maps(nodes, children[k], id, v) ensures !keep(id) {
          assert Maps(nodes, h, id, v);
        }
      }
    }
    if forall k | k in children :: NoneKept(nodes, children[k], keep) {
      forall id, v | Maps(nodes, h, id, v) ensures !keep(id) {
        var k :| k in children && Maps(nodes, children[k], id, v);
        assert NoneKept(nodes, children[k], keep);
      }
    }
  }

  /** With an empty node somewhere the filter that keeps nothing still returns a root. */
  lemma {:induction false} NothingKept<V(!new)>(nodes: seq<Entry<V>>, h: Handle)
    ensures NoneKept(nodes, h, _ => false)
    ensures Drops(nodes, h, _ => false) <==> Filled(nodes, h)
    decreases h
  {
    if h < |nodes| && nodes[h].Branch? {
      var children := nodes[h].children;
      forall k | k in children && children[k] < h
        ensures Drops(nodes, children[k], _ => false) <==> Filled(nodes, children[k])
      {
        NothingKept(nodes, children[k]);
      }
    }
  }

  /** The exact condition: no root whenever nothing is kept, if and only if no node is empty. */
  lemma {:induction false} NoRootExactly<V(!new)>(nodes: seq<Entry<V>>, h: Handle)
    ensures Filled(nodes, h) <==>
            forall keep: string -> bool | NoneKept(nodes, h, keep) :: Drops(nodes, h, keep)
  {
    if Filled(nodes, h) {
      forall keep: string -> bool | NoneKept(nodes, h, keep) ensures Drops(nodes, h, keep) {
        FilledDrops(nodes, h, keep);
      }
    } else {
      NothingKept(nodes, h);
    }
  }

  /** The empty index keeps nothing and still has a root, as has a branch over it. */
  lemma {:induction false} EmptyIndex(keep: string -> bool)
    ensures
      var nodes: seq<Entry<nat>> := [Leaf(map[]), Branch(map["0" := 0])];
      && Ordered(nodes, 0, "0", 1) && NoneKept(nodes, 0, keep) && !Drops(nodes, 0, keep)
      && Ordered(nodes, 1, "", 1) && NoneKept(nodes, 1, keep) && !Drops(nodes, 1, keep)
  {
    var nodes: seq<Entry<nat>> := [Leaf(map[]), Branch(map["0" := 0])];
    assert nodes[1].children["0"] == 0;
  }

  // ---- Filter ----

  /**
  Keeps the chosen identities. When all are kept the root itself comes back and nothing is
  written; `Drops` is exactly when there is no root. Every node of the tree is loaded.
  */
  method Filter<V(!new)>(db: Nodes<V>, prefix: string, root: Handle, keep: string -> bool, ghost width: nat)
    returns (r: Result<Option<Handle>>)
    requires Ordered(db.nodes, root, prefix, width)
    modifies db
    ensures old(db.nodes) <= db.nodes
    ensures r.Ok? ==> Filtered(old(db.nodes), root, keep, db.nodes, r.value)
    ensures r.Ok? && r.value.Some? ==> Ordered(db.nodes, r.value.value, prefix, width)
    ensures r.Ok? ==> Exact(old(db.nodes), root, keep, db.nodes, r.value)
    ensures r.Ok? && AllKept(old(db.nodes), root, keep) ==> r.value == Some(root) && db.nodes == old(db.nodes)
    ensures r.Ok? ==> Readable(old(db.nodes), db.broken, root)
    ensures r.Err? ==> db.quota == 0 || !Readable(old(db.nodes), db.broken, root)
    decreases root
  {
    var node := db.Load(root);
    if node.Err? {
      return Err(node.error);
    }
    if node.value.Leaf? {
      r := FilterLeaf(db, prefix, root, keep, width);
    } else {
      r := FilterBranch(db, prefix, root, keep, width);
    }
  }

  /** The kept items, sharing the original map while nothing is dropped. */
  method FilterItems<V>(all: map<string, V>, keep: string -> bool) returns (changed: bool, items: map<string, V>)
    ensures changed <==> exists id :: id in all && !keep(id)
    ensures changed ==> items == map id | id in all && keep(id) :: all[id]
  {
    changed, items := false, map[];
    var kept, todo := false, all.Keys;
    ghost var cloned := false;
    while todo != {}
      invariant todo <= all.Keys
      invariant changed ==> exists id :: id in all && id !in todo && !keep(id)
      invariant !changed ==> !cloned && forall id | id in all && id !in todo :: keep(id)
      invariant !kept ==> forall id | id in all && id !in todo :: !keep(id)
      invariant forall id | id in items :: id in all && items[id] == all[id]
      invariant changed ==> forall id | id in all :: id in items <==> if id in todo then cloned else keep(id)
      decreases |todo|
    {
      var id :| id in todo;
      todo := todo - {id};
      if keep(id) {
        kept := true;
        if changed {
          items := items[id := all[id]];
        }
      } else {
        if !changed {
          changed := true;
          if kept {
            items, cloned := all, true;
          } else {
            items := map[];
          }
        }
        items := items - {id};
      }
    }
  }

  method FilterLeaf<V(!new)>(db: Nodes<V>, prefix: string, root: Handle, keep: string -> bool, ghost width: nat)
    returns (r: Result<Option<Handle>>)
    requires Ordered(db.nodes, root, prefix, width) && db.nodes[root].Leaf? && root !in db.broken
    modifies db
    ensures old(db.nodes) <= db.nodes
    ensures r.Ok? ==> Filtered(old(db.nodes), root, keep, db.nodes, r.value)
    ensures r.Ok? && r.value.Some? ==> Ordered(db.nodes, r.value.value, prefix, width)
    ensures r.Ok? ==> Exact(old(db.nodes), root, keep, db.nodes, r.value)
    ensures r.Ok? && AllKept(old(db.nodes), root, keep) ==> r.value == Some(root) && db.nodes == old(db.nodes)
    ensures r.Ok? ==> Readable(old(db.nodes), db.broken, root)
    ensures r.Err? ==> db.quota == 0 || !Readable(old(db.nodes), db.broken, root)
  {
    var all := db.nodes[root].items;
    var changed, items := FilterItems(all, keep);
    LeafKeeps(db.nodes, root, keep);
    if !changed {
      return Ok(Some(root));
    }
    if items == map[] {
      assert forall id | id in all && keep(id) :: id in items;
      return Ok(None);
    }
    Saved(db.nodes, Leaf(items), prefix, width);
    var saved := db.Save(Leaf(items));
    if saved.Err? {
      return Err(saved.error);
    }
    var id :| id in items;
    assert Maps(old(db.nodes), root, id, all[id]);
    r := Ok(Some(saved.value));
  }

  lemma {:induction false} LeafKeeps<V(!new)>(nodes: seq<Entry<V>>, h: Handle, keep: string -> bool)
    requires h < |nodes| && nodes[h].Leaf?
    ensures AllKept(nodes, h, keep) <==> forall id | id in nodes[h].items :: keep(id)
    ensures NoneKept(nodes, h, keep) <==> forall id | id in nodes[h].items :: !keep(id)
  {
    forall id | id in nodes[h].items ensures Maps(nodes, h, id, nodes[h].items[id]) {
    }
  }

  // ---- Filter of a branch ----

  /** Children outside `todo` have been filtered, the others are as before. */
  ghost predicate Filtering<V(!new)>(
    before: seq<Entry<V>>, base: map<string, Handle>, keep: string -> bool, todo: set<string>,
    after: seq<Entry<V>>, children: map<string, Handle>)
  {
    && children.Keys <= base.Keys
    && (forall k | k in base && k in todo :: k in children && children[k] == base[k])
    && (forall k | k in base && k !in todo ::
          var result := if k in children then Some(children[k]) else None;
          Filtered(before, base[k], keep, after, result) && Exact(before, base[k], keep, after, result))
  }

  lemma {:induction false} FilteringStays<V(!new)>(
    before: seq<Entry<V>>, base: map<string, Handle>, keep: string -> bool, todo: set<string>,
    a: seq<Entry<V>>, b: seq<Entry<V>>, children: map<string, Handle>)
    requires Filtering(before, base, keep, todo, a, children) && a <= b
    requires forall k | k in children :: children[k] < |a|
    ensures Filtering(before, base, keep, todo, b, children)
  {
    forall k | k in base && k !in todo
      ensures
        var result := if k in children then Some(children[k]) else None;
        Filtered(before, base[k], keep, b, result) && Exact(before, base[k], keep, b, result)
    {
      var result := if k in children then Some(children[k]) else None;
      assert Filtered(before, base[k], keep, a, result) && Exact(before, base[k], keep, a, result);
      ResultStays(before, base[k], keep, a, b, result);
    }
  }

  lemma {:induction false} ResultStays<V(!new)>(
    before: seq<Entry<V>>, h: Handle, keep: string -> bool, a: seq<Entry<V>>, b: seq<Entry<V>>, result: Option<Handle>)
    requires a <= b && Filtered(before, h, keep, a, result) && Exact(before, h, keep, a, result)
    requires result.Some? ==> result.value < |a|
    ensures Filtered(before, h, keep, b, result) && Exact(before, h, keep, b, result)
  {
    if result.Some? {
      forall id, v ensures Maps(a, result.value, id, v) <==> Maps(b, result.value, id, v) {
        MapsStays(a, b, result.value, id, v);
      }
      FilledStays(a, b, result.value);
      SharedStays(before, h, keep, a, b, result.value);
    }
  }

  lemma {:induction false} SharedStays<V(!new)>(
    before: seq<Entry<V>>, h: Handle, keep: string -> bool, a: seq<Entry<V>>, b: seq<Entry<V>>, h': Handle)
    requires a <= b && Shared(before, h, keep, a, h')
    ensures Shared(before, h, keep, b, h')
    decreases h
  {
    hide AllKept;
    if h < |before| && before[h].Branch? {
      var base, children := before[h].children, a[h'].children;
      forall k | k in children && base[k] < h ensures Shared(before, base[k], keep, b, children[k]) {
        SharedStays(before, base[k], keep, a, b, children[k]);
      }
    }
  }

  /** Filtering may start later than the meaning it is compared with. */
  lemma {:induction false} FilteredEarlier<V(!new)>(
    before: seq<Entry<V>>, middle: seq<Entry<V>>, h: Handle, keep: string -> bool,
    after: seq<Entry<V>>, result: Option<Handle>)
    requires before <= middle && h < |before|
    requires Filtered(middle, h, keep, after, result) && Exact(middle, h, keep, after, result)
    ensures Filtered(before, h, keep, after, result) && Exact(before, h, keep, after, result)
    ensures AllKept(before, h, keep) ==> AllKept(middle, h, keep)
  {
    forall id, v ensures Maps(before, h, id, v) <==> Maps(middle, h, id, v) {
      MapsStays(before, middle, h, id, v);
    }
    FilledStays(before, middle, h);
    DropsStays(before, middle, h, keep);
    if result.Some? { SharedEarlier(before, middle, h, keep, after, result.value); }
  }

  lemma {:induction false} SharedEarlier<V(!new)>(
    before: seq<Entry<V>>, middle: seq<Entry<V>>, h: Handle, keep: string -> bool, after: seq<Entry<V>>, h': Handle)
    requires before <= middle && h < |before| && Shared(middle, h, keep, after, h')
    ensures Shared(before, h, keep, after, h')
    decreases h
  {
    forall id, v ensures Maps(before, h, id, v) <==> Maps(middle, h, id, v) {
      MapsStays(before, middle, h, id, v);
    }
    assert AllKept(before, h, keep) ==> AllKept(middle, h, keep);
    if before[h].Branch? {
      var base, children := before[h].children, after[h'].children;
      forall k | k in children && base[k] < h ensures Shared(before, base[k], keep, after, children[k]) {
        SharedEarlier(before, middle, base[k], keep, after, children[k]);
      }
    }
  }

  function Put(children: map<string, Handle>, key: string, result: Option<Handle>): map<string, Handle> {
    if result.Some? then children[key := result.value] else children - {key}
  }

  lemma {:induction false} Untouched<V(!new)>(
    before: seq<Entry<V>>, base: map<string, Handle>, keep: string -> bool, todo: set<string>,
    after: seq<Entry<V>>, children: map<string, Handle>, key: string)
    requires Filtering(before, base, keep, todo, after, children) && key in todo && key in base
    ensures Put(children, key, Some(base[key])) == children
  {
  }

  lemma {:induction false} FilteringStep<V(!new)>(
    before: seq<Entry<V>>, base: map<string, Handle>, keep: string -> bool, todo: set<string>,
    after: seq<Entry<V>>, children: map<string, Handle>, key: string, result: Option<Handle>)
    requires Filtering(before, base, keep, todo, after, children) && key in todo && key in base
    requires Filtered(before, base[key], keep, after, result) && Exact(before, base[key], keep, after, result)
    ensures Filtering(before, base, keep, todo - {key}, after, Put(children, key, result))
  {
    hide Filtered, Exact;
  }

  method FilterBranch<V(!new)>(db: Nodes<V>, prefix: string, root: Handle, keep: string -> bool, ghost width: nat)
    returns (r: Result<Option<Handle>>)
    requires Ordered(db.nodes, root, prefix, width) && db.nodes[root].Branch? && root !in db.broken
    modifies db
    ensures old(db.nodes) <= db.nodes
    ensures r.Ok? ==> Filtered(old(db.nodes), root, keep, db.nodes, r.value)
    ensures r.Ok? && r.value.Some? ==> Ordered(db.nodes, r.value.value, prefix, width)
    ensures r.Ok? ==> Exact(old(db.nodes), root, keep, db.nodes, r.value)
    ensures r.Ok? && AllKept(old(db.nodes), root, keep) ==> r.value == Some(root) && db.nodes == old(db.nodes)
    ensures r.Ok? ==> Readable(old(db.nodes), db.broken, root)
    ensures r.Err? ==> db.quota == 0 || !Readable(old(db.nodes), db.broken, root)
    decreases root, 0
  {
    hide Filtering, EntryOrdered, Filtered, Exact, AllKept, Filled;
    ghost var before := db.nodes;
    var base := db.nodes[root].children;
    Loaded(db.nodes, root, prefix, width);
    StartFiltering(before, base, keep);
    var replaced: Option<map<string, Handle>>, todo := None, base.Keys;
    while todo != {}
      invariant todo <= base.Keys && before <= db.nodes
      invariant EntryOrdered(db.nodes, Branch(Current(base, replaced)), prefix, width)
      invariant Filtering(before, base, keep, todo, db.nodes, Current(base, replaced))
      invariant AllKept(before, root, keep) ==> replaced.None? && db.nodes == before
      invariant replaced.Some? ==> base.Keys != {}
      invariant forall k | k in base && k !in todo :: Readable(before, db.broken, base[k])
      decreases |todo|
    {
      var key :| key in todo;
      Untouched(before, base, keep, todo, db.nodes, Current(base, replaced), key);
      var result := FilterChild(db, prefix, root, base, Current(base, replaced), keep, todo, key, width, before);
      if result.Err? {
        return Err(result.error);
      }
      if result.value != Some(base[key]) {
        replaced := Some(Put(Current(base, replaced), key, result.value));
      }
      todo := todo - {key};
    }
    var children := Current(base, replaced);
    if replaced.None? {
      SameRoot(before, root, keep, db.nodes, prefix, width);
      return Ok(Some(root));
    }
    if children == map[] {
      NoRoot(before, root, keep, db.nodes, prefix, width);
      return Ok(None);
    }
    NewRoot(before, root, keep, db.nodes, children, prefix, width);
    var saved := db.Save(Branch(children));
    if saved.Err? {
      return Err(saved.error);
    }
    r := Ok(Some(saved.value));
  }

  function Current(base: map<string, Handle>, replaced: Option<map<string, Handle>>): map<string, Handle> {
    if replaced.Some? then replaced.value else base
  }

  lemma {:induction false} StartFiltering<V(!new)>(before: seq<Entry<V>>, base: map<string, Handle>, keep: string -> bool)
    ensures Filtering(before, base, keep, base.Keys, before, base)
  {
  }

  /** Filters one child; where everything is kept it stays and nothing is written. */
  method FilterChild<V(!new)>(
    db: Nodes<V>, prefix: string, ghost root: Handle, base: map<string, Handle>, ghost children: map<string, Handle>,
    keep: string -> bool, ghost todo: set<string>, key: string, ghost width: nat, ghost before: seq<Entry<V>>)
    returns (r: Result<Option<Handle>>)
    requires key in todo && todo <= base.Keys && before <= db.nodes
    requires Ordered(before, root, prefix, width) && before[root] == Branch(base)
    requires EntryOrdered(db.nodes, Branch(children), prefix, width)
    requires Filtering(before, base, keep, todo, db.nodes, children)
    modifies db
    ensures before <= db.nodes
    ensures r.Ok? ==> EntryOrdered(db.nodes, Branch(Put(children, key, r.value)), prefix, width)
    ensures r.Ok? ==> Filtering(before, base, keep, todo - {key}, db.nodes, Put(children, key, r.value))
    ensures r.Ok? ==> Readable(before, db.broken, base[key])
    ensures r.Err? ==> db.quota == 0 || !Readable(before, db.broken, base[key])
    ensures r.Ok? && AllKept(before, root, keep) && old(db.nodes) == before ==>
              r.value == Some(base[key]) && db.nodes == before
    decreases root, 0, 0
  {
    hide Filtering, EntryOrdered, Filtered, Exact, AllKept;
    ghost var middle := db.nodes;
    OrderedStays(before, middle, base[key], key, width);
    ReadableStays(before, middle, db.broken, base[key]);
    if AllKept(before, root, keep) { ChildAllKept(before, root, keep, key); }
    r := Filter(db, key, base[key], keep, width);
    if r.Ok? {
      FilteredEarlier(before, middle, base[key], keep, db.nodes, r.value);
      OldHandles(middle, children, prefix, width);
      FilteringStays(before, base, keep, todo, middle, db.nodes, children);
      FilteringStep(before, base, keep, todo, db.nodes, children, key, r.value);
      EntryStays(middle, db.nodes, Branch(children), prefix, width);
      PutOrdered(db.nodes, children, prefix, width, key, r.value);
    }
  }

  lemma {:induction false} ChildAllKept<V(!new)>(nodes: seq<Entry<V>>, h: Handle, keep: string -> bool, key: string)
    requires AllKept(nodes, h, keep) && h < |nodes| && nodes[h].Branch?
    requires key in nodes[h].children && nodes[h].children[key] < h
    ensures AllKept(nodes, nodes[h].children[key], keep)
  {
    forall id, v | Maps(nodes, nodes[h].children[key], id, v) ensures keep(id) {
      assert Maps(nodes, h, id, v);
    }
  }

  lemma {:induction false} OldHandles<V>(nodes: seq<Entry<V>>, children: map<string, Handle>, prefix: string, width: nat)
    requires EntryOrdered(nodes, Branch(children), prefix, width)
    ensures forall k | k in children :: children[k] < |nodes|
  {
  }

  lemma {:induction false} PutOrdered<V>(
    nodes: seq<Entry<V>>, children: map<string, Handle>, prefix: string, width: nat, key: string, result: Option<Handle>)
    requires EntryOrdered(nodes, Branch(children), prefix, width) && |key| == |prefix| + 1 && prefix <= key
    requires result.Some? ==> Ordered(nodes, result.value, key, width)
    ensures EntryOrdered(nodes, Branch(Put(children, key, result)), prefix, width)
  {
  }

  /** All children filtered: the branch means the kept part. */
  lemma {:induction false} BranchFiltered<V(!new)>(
    before: seq<Entry<V>>, root: Handle, keep: string -> bool, after: seq<Entry<V>>, children: map<string, Handle>,
    prefix: string, width: nat, id: string, v: V)
    requires Ordered(before, root, prefix, width) && before[root].Branch?
    requires Filtering(before, before[root].children, keep, {}, after, children)
    ensures EntryMaps(after, Branch(children), id, v) <==> keep(id) && Maps(before, root, id, v)
  {
    var base := before[root].children;
    forall k | k in base
      ensures (k in children && Maps(after, children[k], id, v)) <==> keep(id) && Maps(before, base[k], id, v)
    {
      var result := if k in children then Some(children[k]) else None;
      assert Filtered(before, base[k], keep, after, result);
    }
  }

  /** All children filtered: a node over the kept ones is what the filter has to return. */
  lemma {:induction false} BranchExact<V(!new)>(
    before: seq<Entry<V>>, root: Handle, keep: string -> bool, after: seq<Entry<V>>, children: map<string, Handle>,
    prefix: string, width: nat, h: Handle)
    requires Ordered(before, root, prefix, width) && before[root].Branch?
    requires Filtering(before, before[root].children, keep, {}, after, children)
    requires h < |after| && after[h] == Branch(children) && forall k | k in children :: children[k] < h
    requires children.Keys == {} ==> before[root].children.Keys == {}
    requires AllKept(before, root, keep) ==> h == root
    ensures Exact(before, root, keep, after, Some(h))
  {
    hide AllKept, Filtered;
    var base := before[root].children;
    forall k | k in children
      ensures !Drops(before, base[k], keep) && Shared(before, base[k], keep, after, children[k])
      ensures Filled(before, base[k]) ==> Filled(after, children[k])
    {
      assert Exact(before, base[k], keep, after, Some(children[k]));
    }
    if k :| k in children.Keys {
      assert !Drops(before, base[k], keep);
    }
  }

  lemma {:induction false} SameRoot<V(!new)>(
    before: seq<Entry<V>>, root: Handle, keep: string -> bool, after: seq<Entry<V>>, prefix: string, width: nat)
    requires Ordered(before, root, prefix, width) && before[root].Branch? && before <= after
    requires Filtering(before, before[root].children, keep, {}, after, before[root].children)
    ensures Filtered(before, root, keep, after, Some(root)) && Exact(before, root, keep, after, Some(root))
    ensures Ordered(after, root, prefix, width)
  {
    hide Filtering, Exact;
    OrderedStays(before, after, root, prefix, width);
    Loaded(after, root, prefix, width);
    forall id, v ensures Maps(after, root, id, v) <==> keep(id) && Maps(before, root, id, v) {
      BranchFiltered(before, root, keep, after, before[root].children, prefix, width, id, v);
    }
    BranchExact(before, root, keep, after, before[root].children, prefix, width, root);
  }

  lemma {:induction false} NoRoot<V(!new)>(
    before: seq<Entry<V>>, root: Handle, keep: string -> bool, after: seq<Entry<V>>, prefix: string, width: nat)
    requires Ordered(before, root, prefix, width) && before[root].Branch? && before[root].children.Keys != {}
    requires Filtering(before, before[root].children, keep, {}, after, map[])
    ensures Filtered(before, root, keep, after, None) && Exact(before, root, keep, after, None)
  {
    forall id, v | Maps(before, root, id, v) ensures !keep(id) {
      BranchFiltered(before, root, keep, after, map[], prefix, width, id, v);
    }
    var base := before[root].children;
    forall k | k in base ensures Drops(before, base[k], keep) {
      assert Exact(before, base[k], keep, after, None);
    }
  }

  lemma {:induction false} NewRoot<V(!new)>(
    before: seq<Entry<V>>, root: Handle, keep: string -> bool, after: seq<Entry<V>>, children: map<string, Handle>,
    prefix: string, width: nat)
    requires Ordered(before, root, prefix, width) && before[root].Branch? && children != map[]
    requires EntryOrdered(after, Branch(children), prefix, width) && !AllKept(before, root, keep)
    requires Filtering(before, before[root].children, keep, {}, after, children)
    ensures var saved := after + [Branch(children)];
      && Filtered(before, root, keep, saved, Some(|after|)) && Exact(before, root, keep, saved, Some(|after|))
      && Ordered(saved, |after|, prefix, width)
  {
    hide Filtering, Exact;
    var saved := after + [Branch(children)];
    Saved(after, Branch(children), prefix, width);
    forall id, v ensures Maps(saved, |after|, id, v) <==> keep(id) && Maps(before, root, id, v) {
      BranchFiltered(before, root, keep, after, children, prefix, width, id, v);
    }
    OldHandles(after, children, prefix, width);
    FilteringStays(before, before[root].children, keep, {}, after, saved, children);
    BranchExact(before, root, keep, saved, children, prefix, width, |after|);
  }
}
