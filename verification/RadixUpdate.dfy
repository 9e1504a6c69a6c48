/** Merging new values into a persistent radix index, splitting leaves that grow too large. */
module RadixUpdate {
  import opened Wrappers
  import opened Radix

  const INDEX_LEAF_TARGET: nat := 128

  // ---- Grouping by the next digit ----

  /** The group of `id` holds its item. */
  ghost predicate Placed<V>(groups: map<string, map<string, V>>, items: map<string, V>, width: nat, id: string)
    requires id in items
  {
    |id| >= width && id[..width] in groups && id in groups[id[..width]] && groups[id[..width]][id] == items[id]
  }

  /** The group at `k` is not empty and holds only items that belong there. */
  ghost predicate Grouped<V>(group: map<string, V>, items: map<string, V>, width: nat, k: string) {
    && group.Keys != {}
    && forall id | id in group :: id in items && |id| >= width && id[..width] == k && group[id] == items[id]
  }

  ghost predicate IsPartition<V>(groups: map<string, map<string, V>>, items: map<string, V>, width: nat) {
    && (forall id | id in items :: Placed(groups, items, width, id))
    && (forall k | k in groups :: Grouped(groups[k], items, width, k))
  }

  /** Fails exactly when some identity is too short. */
  method Partition<V>(items: map<string, V>, width: nat) returns (r: Result<map<string, map<string, V>>>)
    ensures r.Ok? <==> forall id | id in items :: |id| >= width
    ensures r.Ok? ==> IsPartition(r.value, items, width)
  {
    hide IsPartition;
    EmptyPartition<V>(width);
    var groups: map<string, map<string, V>> := map[];
    var done: map<string, V>, todo := map[], items.Keys;
    while todo != {}
      invariant forall id :: id in items <==> id in done || id in todo
      invariant forall id | id in done :: id in items && id !in todo && done[id] == items[id]
      invariant IsPartition(groups, done, width)
      decreases |todo|
    {
      var id :| id in todo;
      if |id| < width {
        return Err(InvalidFormat);
      }
      PartitionStep(groups, done, width, id, items[id]);
      var prefix := id[..width];
      ghost var was := groups;
      if prefix !in groups {
        groups := groups[prefix := map[]];
      }
      groups := groups[prefix := groups[prefix][id := items[id]]];
      assert groups == was[prefix := (if prefix in was then was[prefix] else map[])[id := items[id]]];
      done, todo := done[id := items[id]], todo - {id};
    }
    assert done == items;
    PartitionLengths(groups, items, width);
    r := Ok(groups);
  }

  lemma {:induction false} EmptyPartition<V>(width: nat)
    ensures IsPartition<V>(map[], map[], width)
  {
  }

  lemma {:induction false} PartitionLengths<V>(groups: map<string, map<string, V>>, items: map<string, V>, width: nat)
    requires IsPartition(groups, items, width)
    ensures forall id | id in items :: |id| >= width
  {
  }

  lemma {:induction false} PartitionStep<V>(
    groups: map<string, map<string, V>>, items: map<string, V>, width: nat, id: string, v: V)
    requires IsPartition(groups, items, width) && id !in items && |id| >= width
    ensures
      var k := id[..width];
      var group := if k in groups then groups[k] else map[];
      IsPartition(groups[k := group[id := v]], items[id := v], width)
  {
    var k := id[..width];
    var group := (if k in groups then groups[k] else map[])[id := v];
    var groups', items' := groups[k := group], items[id := v];
    assert id in group.Keys;
    forall x | x in items' ensures Placed(groups', items', width, x) {
      if x != id { assert Placed(groups, items, width, x); }
    }
    forall g | g in groups' ensures Grouped(groups'[g], items', width, g) {
      if g in groups { assert Grouped(groups[g], items, width, g); }
    }
  }

  // ---- Update ----

  ghost predicate Keyed<V>(items: map<string, V>, prefix: string, width: nat) {
    forall id | id in items :: |id| == width && prefix <= id
  }

  /** The root `h` maps what `node` did, overridden by `updates`. */
  ghost predicate Overridden<V(!new)>(
    before: seq<Entry<V>>, node: Entry<V>, updates: map<string, V>, after: seq<Entry<V>>, h: Handle)
  {
    forall id, v :: Maps(after, h, id, v) <==>
                    if id in updates then updates[id] == v else EntryMaps(before, node, id, v)
  }

  /** Leaves written since there were `from` nodes are packed to the target. */
  ghost predicate SmallLeaves<V>(nodes: seq<Entry<V>>, from: nat) {
    forall h | from <= h < |nodes| && nodes[h].Leaf? :: |nodes[h].items| <= INDEX_LEAF_TARGET
  }

  /** The branch keeps every child that no update belongs to, as it was. */
  ghost predicate SharesOthers<V>(children: map<string, Handle>, updates: map<string, V>, branch: Entry<V>, at: nat) {
    && branch.Branch?
    && forall k | k in children && (forall id | id in updates :: |id| >= at && id[..at] != k) ::
         k in branch.children && branch.children[k] == children[k]
  }

  /** Nothing below `node` is empty. */
  ghost predicate Solid<V>(nodes: seq<Entry<V>>, node: Entry<V>) {
    node.Branch? ==> forall k | k in node.children :: Filled(nodes, node.children[k])
  }

  ghost predicate Something<V>(node: Entry<V>, updates: map<string, V>) {
    updates.Keys != {} || if node.Leaf? then node.items.Keys != {} else node.children.Keys != {}
  }

  /** Below `node`, which `at` digits lead to, the paths of the updated identities can be loaded. */
  ghost predicate PathsReadable<V>(
    nodes: seq<Entry<V>>, broken: set<Handle>, node: Entry<V>, at: nat, updates: map<string, V>)
  {
    forall id | id in updates && node.Branch? && at < |id| && id[..at + 1] in node.children ::
      PathReadable(nodes, broken, node.children[id[..at + 1]], at + 1, id)
  }

  /** Identities that agree on all their digits are one identity. */
  lemma {:induction false} ManyDiffer<V>(items: map<string, V>, prefix: string, width: nat)
    requires Keyed(items, prefix, width) && |items| > 1
    ensures |prefix| < width
  {
    if |prefix| >= width { AllEqual(items, prefix, width); }
  }

  lemma {:induction false} AllEqual<V>(items: map<string, V>, prefix: string, width: nat)
    requires Keyed(items, prefix, width) && |prefix| >= width
    ensures |items| <= 1
  {
    if items.Keys != {} {
      var a :| a in items.Keys;
      assert items.Keys == {a} by {
        assert forall id | id in items :: id == prefix;
      }
    }
  }

  /**
  Merges `updates` into `node` and returns the new root, which has no empty node unless there
  was nothing to merge. Only storage can fail, at a save or on the path of an updated identity:
  partitioning never meets an identity without a next digit.
  */
  method Update<V(!new)>(db: Nodes<V>, prefix: string, node: Entry<V>, updates: map<string, V>, ghost width: nat)
    returns (r: Result<Handle>)
    requires |prefix| <= width && EntryOrdered(db.nodes, node, prefix, width) && Keyed(updates, prefix, width)
    modifies db
    ensures old(db.nodes) <= db.nodes && SmallLeaves(db.nodes, |old(db.nodes)|)
    ensures r.Err? ==> r.error == StoreFailure
    ensures r.Err? ==> db.quota == 0 || !PathsReadable(old(db.nodes), db.broken, node, |prefix|, updates)
    ensures r.Ok? ==> PathsReadable(old(db.nodes), db.broken, node, |prefix|, updates)
    ensures r.Ok? ==> Ordered(db.nodes, r.value, prefix, width)
    ensures r.Ok? ==> Overridden(old(db.nodes), node, updates, db.nodes, r.value)
    ensures r.Ok? ==> (db.nodes[r.value].Leaf? <==> node.Leaf? && |node.items + updates| <= INDEX_LEAF_TARGET)
    ensures r.Ok? && node.Branch? ==> SharesOthers(node.children, updates, db.nodes[r.value], |prefix| + 1)
    ensures r.Ok? && Solid(old(db.nodes), node) ==> (Filled(db.nodes, r.value) <==> Something(node, updates))
    decreases width - |prefix|, 1
  {
    if node.Branch? {
      r := UpdateBranch(db, prefix, node.children, updates, width);
      return;
    }
    var items := node.items + updates;
    LeafMerge(db.nodes, node.items, updates);
    if |items| <= INDEX_LEAF_TARGET {
      Saved(db.nodes, Leaf(items), prefix, width);
      r := db.Save(Leaf(items));
      assert items.Keys == node.items.Keys + updates.Keys;
      return;
    }
    ManyDiffer(items, prefix, width);
    r := UpdateBranch(db, prefix, map[], items, width);
    if r.Ok? {
      assert items.Keys == node.items.Keys + updates.Keys;
      LeafSplit(old(db.nodes), node.items, updates, db.nodes, r.value);
    }
  }

  lemma {:induction false} LeafMerge<V(!new)>(nodes: seq<Entry<V>>, items: map<string, V>, updates: map<string, V>)
    ensures forall id, v :: EntryMaps(nodes, Leaf(items + updates), id, v) <==>
                            if id in updates then updates[id] == v else EntryMaps(nodes, Leaf(items), id, v)
  {
  }

  lemma {:induction false} LeafSplit<V(!new)>(
    before: seq<Entry<V>>, items: map<string, V>, updates: map<string, V>, after: seq<Entry<V>>, h: Handle)
    requires Overridden(before, Branch(map[]), items + updates, after, h)
    ensures Overridden(before, Leaf(items), updates, after, h)
  {
    var all := items + updates;
    forall id, v
      ensures Maps(after, h, id, v) <==>
              if id in updates then updates[id] == v else EntryMaps(before, Leaf(items), id, v)
    {
      assert Maps(after, h, id, v) <==> if id in all then all[id] == v else EntryMaps(before, Branch(map[]), id, v);
    }
  }

  // ---- Update of a branch ----

  /** What the child at `key` has to map once its group is merged. */
  ghost predicate ChildDone<V(!new)>(
    before: seq<Entry<V>>, children: map<string, Handle>, group: map<string, V>, key: string,
    after: seq<Entry<V>>, h: Handle)
  {
    forall id, v :: Maps(after, h, id, v) <==>
                    if id in group then group[id] == v else key in children && Maps(before, children[key], id, v)
  }

  /** Groups outside `todo` have been merged, all other children are as before. */
  ghost predicate Merging<V(!new)>(
    before: seq<Entry<V>>, children: map<string, Handle>, groups: map<string, map<string, V>>, todo: set<string>,
    after: seq<Entry<V>>, children': map<string, Handle>)
  {
    && (forall k | k in groups && k !in todo ::
          k in children' && ChildDone(before, children, groups[k], k, after, children'[k]))
    && (forall k | k !in groups || k in todo :: k in children <==> k in children')
    && (forall k | k in children && (k !in groups || k in todo) :: children'[k] == children[k])
  }

  lemma {:induction false} OthersShared<V(!new)>(
    before: seq<Entry<V>>, base: map<string, Handle>, updates: map<string, V>, groups: map<string, map<string, V>>,
    after: seq<Entry<V>>, children: map<string, Handle>, at: nat)
    requires IsPartition(groups, updates, at) && Merging(before, base, groups, {}, after, children)
    ensures SharesOthers(base, updates, Branch(children), at)
  {
  }

  lemma {:induction false} MergingStays<V(!new)>(
    before: seq<Entry<V>>, children: map<string, Handle>, groups: map<string, map<string, V>>, todo: set<string>,
    a: seq<Entry<V>>, b: seq<Entry<V>>, children': map<string, Handle>)
    requires Merging(before, children, groups, todo, a, children') && a <= b
    requires forall k | k in children' :: children'[k] < |a|
    ensures Merging(before, children, groups, todo, b, children')
  {
    forall k | k in groups && k !in todo ensures ChildDone(before, children, groups[k], k, b, children'[k]) {
      assert ChildDone(before, children, groups[k], k, a, children'[k]);
      forall id, v ensures Maps(a, children'[k], id, v) <==> Maps(b, children'[k], id, v) {
        MapsStays(a, b, children'[k], id, v);
      }
    }
  }

  lemma {:induction false} MergingStep<V(!new)>(
    before: seq<Entry<V>>, children: map<string, Handle>, groups: map<string, map<string, V>>, todo: set<string>,
    after: seq<Entry<V>>, children': map<string, Handle>, key: string, h: Handle)
    requires Merging(before, children, groups, todo, after, children') && key in groups && key in todo
    requires ChildDone(before, children, groups[key], key, after, h)
    ensures Merging(before, children, groups, todo - {key}, after, children'[key := h])
  {
  }

  /** All groups merged: the branch maps the updates over what it mapped. */
  lemma {:induction false} Merged<V(!new)>(
    before: seq<Entry<V>>, children: map<string, Handle>, updates: map<string, V>,
    groups: map<string, map<string, V>>, after: seq<Entry<V>>, children': map<string, Handle>,
    prefix: string, width: nat, id: string, v: V)
    requires Merging(before, children, groups, {}, after, children') && before <= after
    requires IsPartition(groups, updates, |prefix| + 1)
    requires EntryOrdered(before, Branch(children), prefix, width)
    requires EntryOrdered(after, Branch(children'), prefix, width)
    ensures EntryMaps(after, Branch(children'), id, v) <==>
            if id in updates then updates[id] == v else EntryMaps(before, Branch(children), id, v)
  {
    hide Merging, IsPartition, EntryMaps;
    OnPath(before, children, prefix, width, id, v);
    OnPath(after, children', prefix, width, id, v);
    if |id| > |prefix| {
      AtKey(before, children, updates, groups, after, children', |prefix| + 1, id, v);
    } else {
      PartitionLengths(groups, updates, |prefix| + 1);
    }
  }

  /** A branch maps `id` exactly when the child on its path does. */
  lemma {:induction false} OnPath<V(!new)>(
    nodes: seq<Entry<V>>, children: map<string, Handle>, prefix: string, width: nat, id: string, v: V)
    requires EntryOrdered(nodes, Branch(children), prefix, width)
    ensures EntryMaps(nodes, Branch(children), id, v) <==>
            |id| > |prefix| && id[..|prefix| + 1] in children && Maps(nodes, children[id[..|prefix| + 1]], id, v)
    ensures forall k | k in children :: children[k] < |nodes|
  {
    if EntryMaps(nodes, Branch(children), id, v) {
      var k :| k in children && Maps(nodes, children[k], id, v);
      Below(nodes, children[k], k, width, id, v);
      assert k == id[..|prefix| + 1];
    }
  }

  /** On the path of `id` the merged child is right. */
  lemma {:induction false} AtKey<V(!new)>(
    before: seq<Entry<V>>, children: map<string, Handle>, updates: map<string, V>,
    groups: map<string, map<string, V>>, after: seq<Entry<V>>, children': map<string, Handle>,
    width: nat, id: string, v: V)
    requires Merging(before, children, groups, {}, after, children') && before <= after && |id| >= width
    requires IsPartition(groups, updates, width)
    requires forall k | k in children :: children[k] < |before|
    ensures
      var k := id[..width];
      (k in children' && Maps(after, children'[k], id, v)) <==>
      if id in updates then updates[id] == v else k in children && Maps(before, children[k], id, v)
  {
    var k := id[..width];
    if k in groups {
      assert ChildDone(before, children, groups[k], k, after, children'[k]);
    } else if k in children {
      MapsStays(before, after, children[k], id, v);
    }
  }

  lemma {:induction false} GroupIsKeyed<V>(
    groups: map<string, map<string, V>>, updates: map<string, V>, prefix: string, width: nat, key: string)
    requires IsPartition(groups, updates, |prefix| + 1) && Keyed(updates, prefix, width) && key in groups
    ensures |key| == |prefix| + 1 && prefix <= key && Keyed(groups[key], key, width) && groups[key].Keys != {}
  {
    var id :| id in groups[key].Keys;
    assert id in updates && id[..|prefix| + 1] == key;
    forall id | id in groups[key] ensures |id| == width && key <= id {
      assert id in updates && id[..|prefix| + 1] == key;
    }
  }

  /** The updated child, whether it existed or not, has its group merged. */
  lemma {:induction false} ChildIsDone<V(!new)>(
    before: seq<Entry<V>>, base: map<string, Handle>, key: string, child: Entry<V>, group: map<string, V>,
    middle: seq<Entry<V>>, after: seq<Entry<V>>, h: Handle)
    requires before <= middle && Overridden(middle, child, group, after, h)
    requires if key in base then base[key] < |before| && child == middle[base[key]] else child == Leaf(map[])
    requires forall id, v | key in base :: Maps(middle, base[key], id, v) <==> EntryMaps(middle, child, id, v)
    ensures ChildDone(before, base, group, key, after, h)
  {
    forall id, v
      ensures Maps(after, h, id, v) <==>
              if id in group then group[id] == v else key in base && Maps(before, base[key], id, v)
    {
      assert Maps(after, h, id, v) <==> if id in group then group[id] == v else EntryMaps(middle, child, id, v);
      if key in base { MapsStays(before, middle, base[key], id, v); }
    }
  }

  lemma {:induction false} LongEnough<V>(
    nodes: seq<Entry<V>>, base: map<string, Handle>, updates: map<string, V>, prefix: string, width: nat)
    requires EntryOrdered(nodes, Branch(base), prefix, width) && Keyed(updates, prefix, width)
    ensures |prefix| < width && forall id | id in updates :: |id| >= |prefix| + 1
    ensures SmallLeaves(nodes, |nodes|)
  {
  }

  lemma {:induction false} StartMerging<V(!new)>(
    before: seq<Entry<V>>, base: map<string, Handle>, groups: map<string, map<string, V>>)
    ensures Merging(before, base, groups, groups.Keys, before, base)
  {
  }

  method UpdateBranch<V(!new)>(
    db: Nodes<V>, prefix: string, base: map<string, Handle>, updates: map<string, V>, ghost width: nat)
    returns (r: Result<Handle>)
    requires EntryOrdered(db.nodes, Branch(base), prefix, width) && Keyed(updates, prefix, width)
    modifies db
    ensures old(db.nodes) <= db.nodes && SmallLeaves(db.nodes, |old(db.nodes)|)
    ensures r.Err? ==> r.error == StoreFailure
    ensures r.Err? ==> db.quota == 0 || !PathsReadable(old(db.nodes), db.broken, Branch(base), |prefix|, updates)
    ensures r.Ok? ==> PathsReadable(old(db.nodes), db.broken, Branch(base), |prefix|, updates)
    ensures r.Ok? ==> Ordered(db.nodes, r.value, prefix, width)
    ensures r.Ok? ==> Overridden(old(db.nodes), Branch(base), updates, db.nodes, r.value)
    ensures r.Ok? ==> SharesOthers(base, updates, db.nodes[r.value], |prefix| + 1)
    ensures r.Ok? && Solid(old(db.nodes), Branch(base)) ==>
              (Filled(db.nodes, r.value) <==> Something(Branch(base), updates))
    decreases width - |prefix|, 0
  {
    hide Merging, EntryOrdered, EntryMaps, IsPartition, Keyed, Solid, Something, PathsReadable, SharesOthers;
    ghost var before := db.nodes;
    LongEnough(db.nodes, base, updates, prefix, width);
    var split := Partition(updates, |prefix| + 1);
    if split.Err? {
      assert false;
    }
    var groups := split.value;
    StartMerging(before, base, groups);
    var children: map<string, Handle>, todo := base, groups.Keys;
    while todo != {}
      invariant todo <= groups.Keys && before <= db.nodes && SmallLeaves(db.nodes, |before|)
      invariant EntryOrdered(db.nodes, Branch(children), prefix, width)
      invariant Merging(before, base, groups, todo, db.nodes, children)
      invariant Solid(before, Branch(base)) ==> Solid(db.nodes, Branch(children))
      invariant forall k | k in groups && k !in todo :: PathsReadable(before, db.broken, Branch(base), |prefix|, groups[k])
      decreases |todo|
    {
      var key :| key in todo;
      var root := UpdateChild(db, prefix, base, children, groups, key, todo, updates, width, before);
      if root.Err? {
        GroupPaths(before, db.broken, Branch(base), |prefix|, updates, groups);
        return Err(root.error);
      }
      children, todo := children[key := root.value], todo - {key};
    }
    forall id, v
      ensures EntryMaps(db.nodes, Branch(children), id, v) <==>
              if id in updates then updates[id] == v else EntryMaps(before, Branch(base), id, v)
    {
      Merged(before, base, updates, groups, db.nodes, children, prefix, width, id, v);
    }
    Saved(db.nodes, Branch(children), prefix, width);
    OthersShared(before, base, updates, groups, db.nodes, children, |prefix| + 1);
    GroupPaths(before, db.broken, Branch(base), |prefix|, updates, groups);
    MergedKeys(before, base, updates, groups, db.nodes, children, |prefix| + 1);
    if Solid(before, Branch(base)) { BranchFilled(db.nodes, children, prefix, width); }
    r := db.Save(Branch(children));
  }

  /** The paths of all groups are the paths of the updates. */
  lemma {:induction false} GroupPaths<V>(
    nodes: seq<Entry<V>>, broken: set<Handle>, node: Entry<V>, at: nat, updates: map<string, V>,
    groups: map<string, map<string, V>>)
    requires IsPartition(groups, updates, at + 1)
    ensures PathsReadable(nodes, broken, node, at, updates) <==>
            forall k | k in groups :: PathsReadable(nodes, broken, node, at, groups[k])
  {
  }

  /** A merged branch has a child for each old child and for each group. */
  lemma {:induction false} MergedKeys<V(!new)>(
    before: seq<Entry<V>>, base: map<string, Handle>, updates: map<string, V>, groups: map<string, map<string, V>>,
    after: seq<Entry<V>>, children: map<string, Handle>, width: nat)
    requires Merging(before, base, groups, {}, after, children) && IsPartition(groups, updates, width)
    ensures children.Keys != {} <==> Something(Branch(base), updates)
  {
    hide ChildDone;
    assert children.Keys == base.Keys + groups.Keys;
    if k :| k in groups.Keys {
      var id :| id in groups[k].Keys;
      assert id in updates.Keys;
    }
  }

  lemma {:induction false} BranchFilled<V>(
    nodes: seq<Entry<V>>, children: map<string, Handle>, prefix: string, width: nat)
    requires EntryOrdered(nodes, Branch(children), prefix, width) && Solid(nodes, Branch(children))
    ensures Filled(nodes + [Branch(children)], |nodes|) <==> children.Keys != {}
  {
    var saved := nodes + [Branch(children)];
    forall k | k in children ensures children[k] < |nodes| && Filled(saved, children[k]) {
      FilledStays(nodes, saved, children[k]);
    }
  }

  /** Merges one group into the child on its path. */
  method UpdateChild<V(!new)>(
    db: Nodes<V>, prefix: string, ghost base: map<string, Handle>, children: map<string, Handle>,
    groups: map<string, map<string, V>>, key: string, ghost todo: set<string>, ghost updates: map<string, V>,
    ghost width: nat, ghost before: seq<Entry<V>>)
    returns (r: Result<Handle>)
    requires key in todo && todo <= groups.Keys && before <= db.nodes && SmallLeaves(db.nodes, |before|)
    requires EntryOrdered(before, Branch(base), prefix, width)
    requires EntryOrdered(db.nodes, Branch(children), prefix, width) && |prefix| < width
    requires Merging(before, base, groups, todo, db.nodes, children)
    requires IsPartition(groups, updates, |prefix| + 1) && Keyed(updates, prefix, width)
    modifies db
    ensures before <= db.nodes && SmallLeaves(db.nodes, |before|)
    ensures r.Err? ==> r.error == StoreFailure
    ensures r.Err? ==> db.quota == 0 || !PathsReadable(before, db.broken, Branch(base), |prefix|, groups[key])
    ensures r.Ok? ==> PathsReadable(before, db.broken, Branch(base), |prefix|, groups[key])
    ensures r.Ok? && Solid(old(db.nodes), Branch(children)) ==> Solid(db.nodes, Branch(children[key := r.value]))
    ensures r.Ok? ==> EntryOrdered(db.nodes, Branch(children[key := r.value]), prefix, width)
    ensures r.Ok? ==> Merging(before, base, groups, todo - {key}, db.nodes, children[key := r.value])
    decreases width - |prefix|, 0, 0
  {
    hide Merging, EntryOrdered, EntryMaps, IsPartition, SmallLeaves, Overridden, ChildDone, Keyed;
    hide Solid, Something, PathsReadable;
    ghost var middle := db.nodes;
    var child: Entry<V> := Leaf(map[]);
    GroupIsKeyed(groups, updates, prefix, width, key);
    ChildAt(before, base, groups, todo, middle, children, prefix, width, key);
    ChildPaths(before, middle, db.broken, base, groups, updates, prefix, width, key);
    if key in children {
      var loaded := db.Load(children[key]);
      if loaded.Err? {
        return Err(loaded.error);
      }
      child := loaded.value;
      Loaded(db.nodes, children[key], key, width);
    } else {
      EmptyLeaf(db.nodes, key, width);
    }
    ChildSolid(middle, children, key, child, groups[key]);
    r := Update(db, key, child, groups[key], width);
    MoreLeaves(before, middle, db.nodes);
    if r.Ok? {
      ChildIsDone(before, base, key, child, groups[key], middle, db.nodes, r.value);
      MergingStays(before, base, groups, todo, middle, db.nodes, children);
      MergingStep(before, base, groups, todo, db.nodes, children, key, r.value);
      EntryStays(middle, db.nodes, Branch(children), prefix, width);
      BranchWith(db.nodes, children, prefix, width, key, r.value);
      SolidWith(middle, db.nodes, children, key, r.value);
    }
  }

  /** The paths of a group go through the child they share. */
  lemma {:induction false} ChildPaths<V>(
    before: seq<Entry<V>>, middle: seq<Entry<V>>, broken: set<Handle>, base: map<string, Handle>,
    groups: map<string, map<string, V>>, updates: map<string, V>, prefix: string, width: nat, key: string)
    requires before <= middle && IsPartition(groups, updates, |prefix| + 1) && key in groups && |key| == |prefix| + 1
    requires key in base ==> Ordered(middle, base[key], key, width) && base[key] < |before|
    ensures PathsReadable(middle, broken, Leaf(map[]), |key|, groups[key])
    ensures key !in base ==> PathsReadable(before, broken, Branch(base), |prefix|, groups[key])
    ensures key in base && base[key] in broken ==> !PathsReadable(before, broken, Branch(base), |prefix|, groups[key])
    ensures key in base && base[key] !in broken ==>
              (PathsReadable(before, broken, Branch(base), |prefix|, groups[key]) <==>
               PathsReadable(middle, broken, middle[base[key]], |key|, groups[key]))
  {
    var some :| some in groups[key].Keys;
    forall id | id in groups[key]
      ensures id[..|prefix| + 1] == key
      ensures key in base ==>
                (PathReadable(before, broken, base[key], |key|, id) <==> PathReadable(middle, broken, base[key], |key|, id))
    {
      if key in base { PathReadableStays(before, middle, broken, base[key], |key|, id); }
    }
  }

  lemma {:induction false} ChildSolid<V>(
    nodes: seq<Entry<V>>, children: map<string, Handle>, key: string, child: Entry<V>, group: map<string, V>)
    requires if key in children then children[key] < |nodes| && child == nodes[children[key]] else child == Leaf(map[])
    ensures Solid(nodes, Branch(children)) ==> Solid(nodes, child)
    ensures group.Keys != {} ==> Something(child, group)
  {
  }

  lemma {:induction false} SolidWith<V>(
    a: seq<Entry<V>>, b: seq<Entry<V>>, children: map<string, Handle>, key: string, h: Handle)
    requires a <= b && forall k | k in children :: children[k] < |a|
    ensures Solid(a, Branch(children)) && Filled(b, h) ==> Solid(b, Branch(children[key := h]))
  {
    forall k | k in children ensures Filled(a, children[k]) <==> Filled(b, children[k]) {
      FilledStays(a, b, children[k]);
    }
  }

  lemma {:induction false} EmptyLeaf<V>(nodes: seq<Entry<V>>, prefix: string, width: nat)
    ensures EntryOrdered(nodes, Leaf(map[]), prefix, width)
  {
  }

  lemma {:induction false} MoreLeaves<V>(a: seq<Entry<V>>, b: seq<Entry<V>>, c: seq<Entry<V>>)
    requires a <= b <= c && SmallLeaves(b, |a|) && SmallLeaves(c, |b|)
    ensures SmallLeaves(c, |a|)
  {
  }

  lemma {:induction false} BranchWith<V>(
    nodes: seq<Entry<V>>, children: map<string, Handle>, prefix: string, width: nat, key: string, h: Handle)
    requires EntryOrdered(nodes, Branch(children), prefix, width)
    requires |key| == |prefix| + 1 && prefix <= key && Ordered(nodes, h, key, width)
    ensures EntryOrdered(nodes, Branch(children[key := h]), prefix, width)
  {
  }

  /** A child whose group is not merged yet is the original one. */
  lemma {:induction false} ChildAt<V(!new)>(
    before: seq<Entry<V>>, base: map<string, Handle>, groups: map<string, map<string, V>>, todo: set<string>,
    middle: seq<Entry<V>>, children: map<string, Handle>, prefix: string, width: nat, key: string)
    requires Merging(before, base, groups, todo, middle, children) && key in todo
    requires EntryOrdered(before, Branch(base), prefix, width) && EntryOrdered(middle, Branch(children), prefix, width)
    ensures key in children <==> key in base
    ensures key in base ==> children[key] == base[key] < |before| && Ordered(middle, children[key], key, width)
    ensures forall k | k in children :: children[k] < |middle|
  {
  }
}
