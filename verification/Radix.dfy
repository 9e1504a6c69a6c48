/**
A persistent radix index: immutable nodes addressed by handles, split one digit at a
time. Nodes are only ever added, so an old root keeps its meaning.
*/
module Radix {
  import opened Wrappers

  type Handle = nat

  datatype Entry<V> = Leaf(items: map<string, V>) | Branch(children: map<string, Handle>)

  // ---- Meaning ----

  /** Some leaf below `h` maps `id` to `v`. */
  ghost predicate Maps<V>(nodes: seq<Entry<V>>, h: Handle, id: string, v: V)
    decreases h
  {
    && h < |nodes|
    && match nodes[h]
       case Leaf(items) => id in items && items[id] == v
       case Branch(children) => exists k :: k in children && children[k] < h && Maps(nodes, children[k], id, v)
  }

  /** Identities are `width` long and sit below their own prefixes; children are older than parents. */
  ghost predicate Ordered<V>(nodes: seq<Entry<V>>, h: Handle, prefix: string, width: nat)
    decreases h
  {
    && h < |nodes|
    && match nodes[h]
       case Leaf(items) => forall id | id in items :: |id| == width && prefix <= id
       case Branch(children) =>
         && |prefix| < width
         && forall k | k in children ::
           |k| == |prefix| + 1 && prefix <= k && children[k] < h && Ordered(nodes, children[k], k, width)
  }

  // The same of a node that has not been saved.

  ghost predicate EntryMaps<V>(nodes: seq<Entry<V>>, node: Entry<V>, id: string, v: V) {
    match node
    case Leaf(items) => id in items && items[id] == v
    case Branch(children) => exists k :: k in children && Maps(nodes, children[k], id, v)
  }

  ghost predicate EntryOrdered<V>(nodes: seq<Entry<V>>, node: Entry<V>, prefix: string, width: nat) {
    match node
    case Leaf(items) => forall id | id in items :: |id| == width && prefix <= id
    case Branch(children) =>
      && |prefix| < width
      && forall k | k in children ::
        |k| == |prefix| + 1 && prefix <= k && Ordered(nodes, children[k], k, width)
  }

  /** No leaf and no branch at or below `h` is empty. */
  ghost predicate Filled<V>(nodes: seq<Entry<V>>, h: Handle)
    decreases h
  {
    && h < |nodes|
    && match nodes[h]
       case Leaf(items) => items.Keys != {}
       case Branch(children) =>
         children.Keys != {} && forall k | k in children :: children[k] < h && Filled(nodes, children[k])
  }

  // ---- Adding nodes ----

  lemma {:induction false} FilledStays<V>(a: seq<Entry<V>>, b: seq<Entry<V>>, h: Handle)
    requires a <= b && h < |a|
    ensures Filled(a, h) <==> Filled(b, h)
    decreases h
  {
    if a[h].Branch? {
      var children := a[h].children;
      forall k | k in children && children[k] < h ensures Filled(a, children[k]) <==> Filled(b, children[k]) {
        FilledStays(a, b, children[k]);
      }
    }
  }

  lemma {:induction false} MapsStays<V>(a: seq<Entry<V>>, b: seq<Entry<V>>, h: Handle, id: string, v: V)
    requires a <= b && h < |a|
    ensures Maps(a, h, id, v) <==> Maps(b, h, id, v)
    decreases h
  {
    if a[h].Branch? {
      var children := a[h].children;
      forall k | k in children && children[k] < h
        ensures Maps(a, children[k], id, v) <==> Maps(b, children[k], id, v)
      {
        MapsStays(a, b, children[k], id, v);
      }
    }
  }

  lemma {:induction false} OrderedStays<V>(a: seq<Entry<V>>, b: seq<Entry<V>>, h: Handle, prefix: string, width: nat)
    requires a <= b && Ordered(a, h, prefix, width)
    ensures Ordered(b, h, prefix, width)
    decreases h
  {
    if a[h].Branch? {
      var children := a[h].children;
      forall k | k in children ensures Ordered(b, children[k], k, width) {
        OrderedStays(a, b, children[k], k, width);
      }
    }
  }

  lemma {:induction false} EntryStays<V(!new)>(
    a: seq<Entry<V>>, b: seq<Entry<V>>, node: Entry<V>, prefix: string, width: nat)
    requires a <= b && EntryOrdered(a, node, prefix, width)
    ensures EntryOrdered(b, node, prefix, width)
    ensures forall id, v :: EntryMaps(a, node, id, v) <==> EntryMaps(b, node, id, v)
  {
    if node.Branch? {
      forall k | k in node.children ensures Ordered(b, node.children[k], k, width) {
        OrderedStays(a, b, node.children[k], k, width);
      }
      forall id, v ensures EntryMaps(a, node, id, v) <==> EntryMaps(b, node, id, v) {
        forall k | k in node.children ensures Maps(a, node.children[k], id, v) <==> Maps(b, node.children[k], id, v) {
          MapsStays(a, b, node.children[k], id, v);
        }
      }
    }
  }

  /** A saved node means what it meant before. */
  lemma {:induction false} Saved<V(!new)>(nodes: seq<Entry<V>>, node: Entry<V>, prefix: string, width: nat)
    requires EntryOrdered(nodes, node, prefix, width)
    ensures Ordered(nodes + [node], |nodes|, prefix, width)
    ensures forall id, v :: Maps(nodes + [node], |nodes|, id, v) <==> EntryMaps(nodes, node, id, v)
  {
    EntryStays(nodes, nodes + [node], node, prefix, width);
    if node.Branch? {
      forall id, v ensures Maps(nodes + [node], |nodes|, id, v) <==> EntryMaps(nodes + [node], node, id, v) {
      }
    }
  }

  lemma {:induction false} Loaded<V(!new)>(nodes: seq<Entry<V>>, h: Handle, prefix: string, width: nat)
    requires Ordered(nodes, h, prefix, width)
    ensures EntryOrdered(nodes, nodes[h], prefix, width)
    ensures forall id, v :: Maps(nodes, h, id, v) <==> EntryMaps(nodes, nodes[h], id, v)
  {
  }

  /** Everything below a prefix starts with it. */
  lemma {:induction false} Below<V>(nodes: seq<Entry<V>>, h: Handle, prefix: string, width: nat, id: string, v: V)
    requires Ordered(nodes, h, prefix, width) && Maps(nodes, h, id, v)
    ensures |id| == width && prefix <= id
    decreases h
  {
    if nodes[h].Branch? {
      var children := nodes[h].children;
      var k :| k in children && children[k] < h && Maps(nodes, children[k], id, v);
      Below(nodes, children[k], k, width, id, v);
    }
  }

  /** An identity has at most one value. */
  lemma {:induction false} OneValue<V>(
    nodes: seq<Entry<V>>, h: Handle, prefix: string, width: nat, id: string, v: V, v': V)
    requires Ordered(nodes, h, prefix, width) && Maps(nodes, h, id, v) && Maps(nodes, h, id, v')
    ensures v == v'
    decreases h
  {
    if nodes[h].Branch? {
      var children := nodes[h].children;
      var k :| k in children && children[k] < h && Maps(nodes, children[k], id, v);
      var k' :| k' in children && children[k'] < h && Maps(nodes, children[k'], id, v');
      Below(nodes, children[k], k, width, id, v);
      Below(nodes, children[k'], k', width, id, v');
      assert k == id[..|prefix| + 1] == k';
      OneValue(nodes, children[k], k, width, id, v, v');
    }
  }

  // ---- Fan-out ----

  const HEX: string := "0123456789abcdef"

  /** An index without empty nodes maps something. */
  lemma {:induction false} FilledMaps<V>(nodes: seq<Entry<V>>, h: Handle) returns (id: string, v: V)
    requires Filled(nodes, h)
    ensures Maps(nodes, h, id, v)
    decreases h
  {
    match nodes[h]
    case Leaf(items) =>
      id :| id in items.Keys;
      v := items[id];
    case Branch(children) =>
      var k :| k in children.Keys;
      id, v := FilledMaps(nodes, children[k]);
  }

  ghost function Extensions(prefix: string, digits: string): set<string> {
    if digits == [] then {} else {prefix + [digits[0]]} + Extensions(prefix, digits[1..])
  }

  lemma {:induction false} FewExtensions(prefix: string, digits: string)
    ensures |Extensions(prefix, digits)| <= |digits|
    ensures forall d | d in digits :: prefix + [d] in Extensions(prefix, digits)
  {
    if digits != [] {
      FewExtensions(prefix, digits[1..]);
      assert digits == [digits[0]] + digits[1..];
    }
  }

  /** The digit after `prefix` of everything below `h` is one of these. */
  ghost predicate Digits<V(!new)>(nodes: seq<Entry<V>>, h: Handle, prefix: string, digits: string) {
    forall id, v | Maps(nodes, h, id, v) && |id| > |prefix| :: id[|prefix|] in digits
  }

  lemma {:induction false} ChildDigit<V(!new)>(
    nodes: seq<Entry<V>>, h: Handle, prefix: string, width: nat, digits: string, k: string)
    requires Ordered(nodes, h, prefix, width) && Filled(nodes, h) && nodes[h].Branch? && k in nodes[h].children
    requires Digits(nodes, h, prefix, digits)
    ensures exists d :: d in digits && k == prefix + [d]
  {
    var child := nodes[h].children[k];
    var id, v := FilledMaps(nodes, child);
    Below(nodes, child, k, width, id, v);
    assert Maps(nodes, h, id, v);
    assert k == prefix + [id[|prefix|]];
  }

  /** A branch has at most one child for each digit. */
  lemma {:induction false} FanOut<V(!new)>(nodes: seq<Entry<V>>, h: Handle, prefix: string, width: nat, digits: string)
    requires Ordered(nodes, h, prefix, width) && Filled(nodes, h) && nodes[h].Branch?
    requires Digits(nodes, h, prefix, digits)
    ensures |nodes[h].children| <= |digits|
  {
    hide Extensions, Digits, Ordered;
    var keys, all := nodes[h].children.Keys, Extensions(prefix, digits);
    FewExtensions(prefix, digits);
    forall k | k in keys ensures k in all {
      ChildDigit(nodes, h, prefix, width, digits, k);
    }
    assert all == keys + (all - keys);
  }

  /** Below hexadecimal identities, at most sixteen. */
  lemma {:induction false} AtMostSixteen<V(!new)>(nodes: seq<Entry<V>>, h: Handle, prefix: string, width: nat)
    requires Ordered(nodes, h, prefix, width) && Filled(nodes, h) && nodes[h].Branch?
    requires Digits(nodes, h, prefix, HEX)
    ensures |nodes[h].children| <= 16
  {
    hide Digits, Ordered, Filled;
    FanOut(nodes, h, prefix, width, HEX);
  }

  // ---- The store of nodes ----

  /** Nodes in the order in which they were saved. Some cannot be loaded, and saving stops working some day. */
  class Nodes<V> {
    const broken: set<Handle>
    var nodes: seq<Entry<V>>
    var quota: nat

    method Load(h: Handle) returns (r: Result<Entry<V>>)
      ensures r.Ok? <==> h < |nodes| && h !in broken
      ensures r.Ok? ==> r.value == nodes[h]
      ensures r.Err? ==> r.error == StoreFailure
    {
      if h >= |nodes| || h in broken {
        return Err(StoreFailure);
      }
      r := Ok(nodes[h]);
    }

    method Save(node: Entry<V>) returns (r: Result<Handle>)
      modifies this
      ensures r.Ok? <==> old(quota) > 0
      ensures r.Ok? ==> r.value == |old(nodes)| && nodes == old(nodes) + [node]
      ensures r.Err? ==> nodes == old(nodes) && quota == 0 && r.error == StoreFailure
    {
      if quota == 0 {
        return Err(StoreFailure);
      }
      r := Ok(|nodes|);
      nodes, quota := nodes + [node], quota - 1;
    }
  }

  // Loads fail at broken nodes only, so an operation can fail only at one that it reaches.

  /** Every node at or below `h` can be loaded. */
  ghost predicate Readable<V>(nodes: seq<Entry<V>>, broken: set<Handle>, h: Handle)
    decreases h
  {
    && h < |nodes|
    && h !in broken
    && (nodes[h].Branch? ==>
          forall k | k in nodes[h].children && nodes[h].children[k] < h :: Readable(nodes, broken, nodes[h].children[k]))
  }

  /** Every node on the path of `id` from `h` can be loaded, where `at` digits lead to `h`. */
  ghost predicate PathReadable<V>(nodes: seq<Entry<V>>, broken: set<Handle>, h: Handle, at: nat, id: string)
    decreases h
  {
    && h < |nodes|
    && h !in broken
    && (nodes[h].Branch? && at < |id| && id[..at + 1] in nodes[h].children && nodes[h].children[id[..at + 1]] < h ==>
          PathReadable(nodes, broken, nodes[h].children[id[..at + 1]], at + 1, id))
  }

  lemma {:induction false} ReadableStays<V>(a: seq<Entry<V>>, b: seq<Entry<V>>, broken: set<Handle>, h: Handle)
    requires a <= b && h < |a|
    ensures Readable(a, broken, h) <==> Readable(b, broken, h)
    decreases h
  {
    if a[h].Branch? {
      var children := a[h].children;
      forall k | k in children && children[k] < h
        ensures Readable(a, broken, children[k]) <==> Readable(b, broken, children[k])
      {
        ReadableStays(a, b, broken, children[k]);
      }
    }
  }

  lemma {:induction false} PathReadableStays<V>(
    a: seq<Entry<V>>, b: seq<Entry<V>>, broken: set<Handle>, h: Handle, at: nat, id: string)
    requires a <= b && h < |a|
    ensures PathReadable(a, broken, h, at, id) <==> PathReadable(b, broken, h, at, id)
    decreases h
  {
    if a[h].Branch? && at < |id| && id[..at + 1] in a[h].children && a[h].children[id[..at + 1]] < h {
      PathReadableStays(a, b, broken, a[h].children[id[..at + 1]], at + 1, id);
    }
  }

  // ---- Lookup ----

  ghost predicate Absent<V(!new)>(nodes: seq<Entry<V>>, h: Handle, id: string) {
    forall v :: !Maps(nodes, h, id, v)
  }

  ghost predicate SameValue<V(!new)>(nodes: seq<Entry<V>>, a: Handle, b: Handle, id: string) {
    forall v :: Maps(nodes, a, id, v) <==> Maps(nodes, b, id, v)
  }

  /** Follows the digits of `id` to a leaf, and loads nothing off that path. */
  method Lookup<V(!new)>(db: Nodes<V>, id: string, prefix: string, root: Handle, ghost width: nat) returns (r: Result<Option<V>>)
    requires Ordered(db.nodes, root, prefix, width)
    ensures r.Ok? && r.value.Some? ==> Maps(db.nodes, root, id, r.value.value)
    ensures r.Ok? && r.value.None? ==> Absent(db.nodes, root, id)
    ensures r.Ok? <==> PathReadable(db.nodes, db.broken, root, |prefix|, id)
  {
    var at, h := prefix, root;
    while true
      invariant Ordered(db.nodes, h, at, width)
      invariant PathReadable(db.nodes, db.broken, root, |prefix|, id) <==> PathReadable(db.nodes, db.broken, h, |at|, id)
      invariant SameValue(db.nodes, h, root, id)
      decreases h
    {
      var node := db.Load(h);
      if node.Err? {
        return Err(node.error);
      }
      if node.value.Leaf? {
        LeafLookup(db.nodes, h, root, id);
        return Ok(if id in node.value.items then Some(node.value.items[id]) else None);
      }
      var children := node.value.children;
      if |id| <= |at| {
        NotBelow(db.nodes, h, root, at, width, id);
        return Ok(None);
      }
      var next := id[..|at| + 1];
      OneBranch(db.nodes, h, root, at, width, id);
      if next !in children {
        return Ok(None);
      }
      at, h := next, children[next];
    }
  }

  lemma {:induction false} LeafLookup<V(!new)>(nodes: seq<Entry<V>>, h: Handle, root: Handle, id: string)
    requires h < |nodes| && nodes[h].Leaf? && SameValue(nodes, h, root, id)
    ensures id in nodes[h].items ==> Maps(nodes, root, id, nodes[h].items[id])
    ensures id !in nodes[h].items ==> Absent(nodes, root, id)
  {
    if id in nodes[h].items {
      assert Maps(nodes, h, id, nodes[h].items[id]);
    } else {
      forall v ensures !Maps(nodes, root, id, v) {
        assert !Maps(nodes, h, id, v);
      }
    }
  }

  lemma {:induction false} NotBelow<V(!new)>(
    nodes: seq<Entry<V>>, h: Handle, root: Handle, prefix: string, width: nat, id: string)
    requires Ordered(nodes, h, prefix, width) && nodes[h].Branch? && |id| <= |prefix| && SameValue(nodes, h, root, id)
    ensures Absent(nodes, root, id)
  {
    forall v ensures !Maps(nodes, root, id, v) {
      if Maps(nodes, h, id, v) { Below(nodes, h, prefix, width, id, v); }
    }
  }

  /** Only the child on the path of `id` can map it. */
  lemma {:induction false} OneBranch<V(!new)>(
    nodes: seq<Entry<V>>, h: Handle, root: Handle, prefix: string, width: nat, id: string)
    requires Ordered(nodes, h, prefix, width) && nodes[h].Branch? && |id| > |prefix| && SameValue(nodes, h, root, id)
    ensures
      var key, children := id[..|prefix| + 1], nodes[h].children;
      if key in children then SameValue(nodes, children[key], root, id) else Absent(nodes, root, id)
  {
    var key, children := id[..|prefix| + 1], nodes[h].children;
    forall v ensures Maps(nodes, root, id, v) <==> key in children && Maps(nodes, children[key], id, v) {
      assert Maps(nodes, root, id, v) <==> Maps(nodes, h, id, v);
      if Maps(nodes, h, id, v) {
        var k :| k in children && children[k] < h && Maps(nodes, children[k], id, v);
        Below(nodes, children[k], k, width, id, v);
        assert k == key;
      }
    }
  }

  // ---- Walk ----

  ghost predicate Visits<V>(visits: seq<(string, V)>, id: string) {
    exists i :: 0 <= i < |visits| && visits[i].0 == id
  }

  ghost predicate Once<V>(visits: seq<(string, V)>) {
    forall i, j | 0 <= i < j < |visits| :: visits[i].0 != visits[j].0
  }

  lemma {:induction false} OnceMore<V>(a: seq<(string, V)>, b: seq<(string, V)>)
    requires Once(a) && Once(b) && forall id :: !(Visits(a, id) && Visits(b, id))
    ensures Once(a + b)
  {
    forall i, j | 0 <= i < j < |a + b| ensures (a + b)[i].0 != (a + b)[j].0 {
      if i < |a| <= j {
        assert Visits(a, a[i].0) && Visits(b, b[j - |a|].0);
      }
    }
  }

  /** Visits every mapped identity exactly once, with its value. */
  method Walk<V(!new)>(db: Nodes<V>, prefix: string, root: Handle, ghost width: nat)
    returns (r: Result<seq<(string, V)>>)
    requires Ordered(db.nodes, root, prefix, width)
    ensures r.Ok? ==> Once(r.value) && forall id, v :: (id, v) in r.value <==> Maps(db.nodes, root, id, v)
    ensures r.Ok? <==> Readable(db.nodes, db.broken, root)
    decreases root
  {
    var node := db.Load(root);
    if node.Err? {
      return Err(node.error);
    }
    if node.value.Leaf? {
      var visits := WalkLeaf(node.value.items);
      return Ok(visits);
    }
    var children := node.value.children;
    var visits: seq<(string, V)>, todo := [], children.Keys;
    while todo != {}
      invariant todo <= children.Keys && Once(visits)
      invariant forall id, v :: (id, v) in visits <==> Through(db.nodes, children, todo, id, v)
      invariant forall k | k in children && k !in todo :: Readable(db.nodes, db.broken, children[k])
      decreases |todo|
    {
      var key :| key in todo;
      var below := Walk(db, key, children[key], width);
      if below.Err? {
        return Err(below.error);
      }
      Apart(db.nodes, children, todo, prefix, width, key, visits, below.value);
      OnceMore(visits, below.value);
      forall id, v ensures (id, v) in visits + below.value <==> Through(db.nodes, children, todo - {key}, id, v) {
        assert (id, v) in visits <==> Through(db.nodes, children, todo, id, v);
        assert (id, v) in below.value <==> Maps(db.nodes, children[key], id, v);
      }
      visits, todo := visits + below.value, todo - {key};
    }
    forall id, v ensures (id, v) in visits <==> Maps(db.nodes, root, id, v) {
      assert (id, v) in visits <==> Through(db.nodes, children, {}, id, v);
    }
    r := Ok(visits);
  }

  /** Some child outside `todo` maps `id`. */
  ghost predicate Through<V>(nodes: seq<Entry<V>>, children: map<string, Handle>, todo: set<string>, id: string, v: V) {
    exists k :: k in children && k !in todo && Maps(nodes, children[k], id, v)
  }

  /** Different children map different identities. */
  lemma {:induction false} Apart<V(!new)>(
    nodes: seq<Entry<V>>, children: map<string, Handle>, todo: set<string>, prefix: string, width: nat, key: string,
    a: seq<(string, V)>, b: seq<(string, V)>)
    requires EntryOrdered(nodes, Branch(children), prefix, width) && key in todo && key in children
    requires forall id, v :: (id, v) in a <==> Through(nodes, children, todo, id, v)
    requires forall id, v :: (id, v) in b <==> Maps(nodes, children[key], id, v)
    ensures forall id :: !(Visits(a, id) && Visits(b, id))
  {
    forall id ensures !(Visits(a, id) && Visits(b, id)) {
      if Visits(a, id) && Visits(b, id) {
        var i :| 0 <= i < |a| && a[i].0 == id;
        var j :| 0 <= j < |b| && b[j].0 == id;
        assert (id, a[i].1) in a && (id, b[j].1) in b;
        var k :| k in children && k !in todo && Maps(nodes, children[k], id, a[i].1);
        Below(nodes, children[k], k, width, id, a[i].1);
        Below(nodes, children[key], key, width, id, b[j].1);
        SamePrefix(k, key, id);
      }
    }
  }

  lemma {:induction false} SamePrefix(a: string, b: string, id: string)
    requires a <= id && b <= id && |a| == |b|
    ensures a == b
  {
    assert a == id[..|a|] && b == id[..|b|];
  }

  method WalkLeaf<V(!new)>(items: map<string, V>) returns (visits: seq<(string, V)>)
    ensures Once(visits) && forall id, v :: (id, v) in visits <==> id in items && items[id] == v
  {
    visits := [];
    var todo := items.Keys;
    while todo != {}
      invariant todo <= items.Keys && Once(visits) && forall i | 0 <= i < |visits| :: visits[i].0 !in todo
      invariant forall id, v :: (id, v) in visits <==> id in items && id !in todo && items[id] == v
      decreases |todo|
    {
      var id :| id in todo;
      visits, todo := visits + [(id, items[id])], todo - {id};
    }
  }
}
