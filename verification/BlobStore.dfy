/**
Immutable objects as one log handle writes and reads them under one view. A key carries a
random identity that is never drawn twice, so it denotes one content for ever. The collector
removes nothing that was there in the epoch of the view before the next epoch has begun;
after that it may remove anything, and any call may fail.
*/
module BlobStore {
  import opened Wrappers
  import opened Words
  import opened Cbor
  import opened NodeCodec

  datatype Key = Key(kind: Kind, storage: Bytes, digest: Bytes)

  function KeyOf(r: Ref): Key { Key(r.kind, r.storage, r.digest) }

  type Objects = map<Key, Bytes>

  ghost predicate Extends(a: Objects, b: Objects) {
    forall k | k in a :: k in b && b[k] == a[k]
  }

  /** A node and the objects below it, counted once per path. */
  function SubtreeCount(children: seq<Ref>): nat {
    if children == [] then 1 else SubtreeCount(children[..|children| - 1]) + children[|children| - 1].count
  }

  /** What a reference stands for. */
  ghost predicate Denotes(made: Objects, r: Ref, content: Bytes) {
    KeyOf(r) in made && made[KeyOf(r)] == content && r.len == |content|
  }

  /** A reference that some handle got back from a successful creation. */
  ghost predicate Proven(made: Objects, r: Ref, kind: Kind, content: Bytes, count: nat) {
    Typed(r) && r.kind == kind && r.count == count && Denotes(made, r, content)
  }

  /** The length that a reference declares is the length of what is stored under its key, if anything is. */
  ghost predicate Honest(made: Objects, r: Ref) {
    KeyOf(r) in made ==> |made[KeyOf(r)]| == r.len
  }

  class Store {
    const o: Limits
    const hash: Bytes -> Bytes
    /** The collection epoch of the view that is read. */
    const view: nat
    /** Whether that view has a fence. */
    const fenced: bool
    /** Whether the fence of the view was cleared, and whether this handle has read its plan. */
    var cleared: bool
    var planRead: bool
    /** The collection epoch of the current head. */
    var epoch: nat
    /** What is stored now. */
    var objects: Objects
    /** What was ever stored since the epoch of the view began. */
    var made: Objects
    /** How often a request or a read failed. */
    var faults: nat

    ghost predicate Valid()
      reads this
    {
      && ValidLimits(o)
      && (forall b :: |hash(b)| == DIGEST_LEN)
      && Extends(objects, made)
      && view <= epoch && (epoch == view ==> Extends(made, objects))
      && (view < epoch && fenced ==> cleared)
      && (forall k | k in made :: k.digest == hash(made[k]) && |made[k]| <= o.maxObjectBytes)
    }

    /** A request or a read fails now and then. */
    method Fails() returns (fails: bool)
      modifies this`faults
      ensures faults == if fails then old(faults) + 1 else old(faults)
    {
      fails := *;
      if fails {
        faults := faults + 1;
      }
    }

    /** Collectors clear the fence; later epochs begin only after that. */
    method NextEpoch()
      requires Valid()
      modifies this`epoch, this`cleared
      ensures Valid() && epoch >= old(epoch) && (old(cleared) ==> cleared)
    {
      var done: bool := *;
      cleared := cleared || done;
      var next: nat := *;
      if next > epoch {
        epoch, cleared := next, true;
      }
    }

    /** The view has a fence that was cleared. */
    ghost predicate FenceGone()
      reads this
    {
      fenced && cleared
    }

    /** Reads the plan of the fence once. It is missing only after the fence was cleared. */
    method ReadFence() returns (r: Result<()>)
      requires Valid()
      modifies this`epoch, this`cleared, this`planRead, this`faults
      ensures Valid() && faults >= old(faults)
      ensures r.Err? ==> (r.error == StoreFailure && faults > old(faults)) || (r.error == ViewExpired && FenceGone())
    {
      if !fenced || planRead {
        return Ok(());
      }
      NextEpoch();
      var fails := Fails();
      if fails {
        return Err(StoreFailure);
      }
      var missing: bool := *;
      if missing && cleared {
        NextEpoch();
        fails := Fails();
        return Err(if fails then StoreFailure else ViewExpired);
      }
      planRead := true;
      r := Ok(());
    }

    /** Other handles store objects, epochs begin and the collector removes some objects. */
    method Interfere()
      requires Valid()
      modifies this`objects, this`made, this`epoch, this`cleared
      ensures Valid() && Extends(old(made), made) && epoch >= old(epoch)
    {
      NextEpoch();
      if epoch > view {
        var keep: set<Key> := *;
        objects := map k | k in objects && k in keep :: objects[k];
      }
      var more: nat := *;
      while more > 0
        invariant Valid() && Extends(old(made), made) && epoch >= old(epoch)
      {
        var kind: Kind := *;
        var storage: Bytes := *;
        var bytes: Bytes := *;
        Add(kind, storage, bytes);
        more := more - 1;
      }
    }

    /** One conditional creation, which a key in use refuses. */
    method Add(kind: Kind, storage: Bytes, bytes: Bytes)
      requires Valid()
      modifies this`objects, this`made
      ensures Valid() && Extends(old(made), made)
      ensures var k := Key(kind, storage, hash(bytes));
        k !in old(made) && |bytes| <= o.maxObjectBytes ==> k in made && made[k] == bytes
    {
      var key := Key(kind, storage, hash(bytes));
      if key !in made && |bytes| <= o.maxObjectBytes {
        objects, made := objects[key := bytes], made[key := bytes];
      }
    }

    /** Creates an object under a fresh identity; a failure may still have created it. */
    method Create(kind: Kind, bytes: Bytes, count: nat) returns (r: Result<Ref>)
      requires Valid() && |bytes| <= o.maxObjectBytes && count <= U64_MAX
      modifies this
      ensures Valid() && Extends(old(made), made)
      ensures r.Ok? ==> Proven(made, r.value, kind, bytes, count)
      ensures r.Err? ==> r.error == StoreFailure
      ensures faults >= old(faults) && (r.Err? ==> faults > old(faults))
    {
      Interfere();
      var storage: Bytes := *;
      var key := Key(kind, storage, hash(bytes));
      if |storage| != UUID_LEN || key in made {
        faults := faults + 1;
        return Err(StoreFailure);
      }
      var lost := Fails();
      if !lost {
        Add(kind, storage, bytes);
      }
      var unheard := Fails();
      r := if lost || unheard then Err(StoreFailure) else Ok(Ref(kind, hash(bytes), |bytes|, storage, count));
    }

    method PutObject(bytes: Bytes) returns (r: Result<Ref>)
      requires Valid()
      modifies this
      ensures Valid() && Extends(old(made), made)
      ensures r.Ok? ==> Proven(made, r.value, Blob, bytes, 1)
      ensures r.Err? ==> if |bytes| > o.maxObjectBytes then r.error == LimitExceeded else Unstored(r.error)
      ensures faults >= old(faults) && (r == Err(StoreFailure) ==> faults > old(faults))
      ensures r == Err(ViewExpired) ==> FenceGone()
    {
      if |bytes| > o.maxObjectBytes {
        return Err(LimitExceeded);
      }
      var fence := ReadFence();
      if fence.Err? {
        return Err(fence.error);
      }
      r := Create(Blob, bytes, 1);
    }

    /** Stores a node over children that were created before. */
    method PutNode(n: NodeValue) returns (r: Result<Ref>)
      requires Valid() && (forall c | c in n.children :: Typed(c))
      modifies this
      ensures Valid() && Extends(old(made), made)
      ensures r.Ok? ==> Proven(made, r.value, Node, Encode(n, hash), SubtreeCount(n.children))
      ensures r.Err? ==> (Unstored(r.error) <==> Storable(n, o))
      ensures faults >= old(faults) && (r == Err(StoreFailure) ==> faults > old(faults))
      ensures r == Err(ViewExpired) ==> FenceGone()
    {
      hide Encode, EncodedSize;
      var count := CountObjects(n.children);
      if count.Err? {
        return Err(count.error);
      }
      var bytes := EncodeNode(n, o, hash);
      if bytes.Err? {
        return Err(LimitExceeded);
      }
      var fence := ReadFence();
      if fence.Err? {
        return Err(fence.error);
      }
      r := Create(Node, bytes.value, count.value);
    }

    /** Failure is reported only for a fault, and expiry only for an object that is gone in a later epoch. */
    ghost predicate Missed<T>(target: Ref, before: nat, r: Result<T>)
      reads this
    {
      && faults >= before
      && (r.Err? && r.error == StoreFailure ==> faults > before)
      && (r.Err? && r.error == ViewExpired ==> KeyOf(target) !in objects && view < epoch)
    }

    /** Tells expiry from corruption by the epoch of the current head. */
    method MissingReadError() returns (error: Error)
      requires Valid()
      modifies this`epoch, this`cleared, this`faults
      ensures Valid() && epoch >= old(epoch)
      ensures faults == if error == StoreFailure then old(faults) + 1 else old(faults)
      ensures error != StoreFailure ==> error == if view < epoch then ViewExpired else CorruptObject
    {
      NextEpoch();
      var fails := Fails();
      if fails {
        return StoreFailure;
      }
      if epoch < view {
        assert false; // "the durable collection epoch precedes the supplied view"
      }
      error := if epoch > view then ViewExpired else CorruptObject;
    }

    /** Reads one object and checks it against its reference. */
    method Read(target: Ref) returns (r: Result<Bytes>)
      requires Valid()
      modifies this
      ensures Valid() && Extends(old(made), made)
      ensures r.Ok? ==> Denotes(made, target, r.value) && target.len <= o.maxObjectBytes
      ensures r == Err(CorruptObject) ==> KeyOf(target) in made ==> |made[KeyOf(target)]| != target.len
      ensures r.Err? ==> r.error in {LimitExceeded, ViewExpired, StoreFailure, CorruptObject}
      ensures r == Err(LimitExceeded) ==> target.len > o.maxObjectBytes
      ensures Missed(target, old(faults), r)
    {
      if target.len > o.maxObjectBytes {
        return Err(LimitExceeded);
      }
      Interfere();
      var fails := Fails();
      if fails {
        return Err(StoreFailure);
      }
      var key := KeyOf(target);
      if key !in objects {
        var missing := MissingReadError();
        return Err(missing);
      }
      var bytes := objects[key];
      if |bytes| != target.len || hash(bytes) != target.digest {
        return Err(CorruptObject);
      }
      r := Ok(bytes);
    }

    method ReadObject(target: Ref) returns (r: Result<Bytes>)
      requires Valid()
      modifies this
      ensures Valid() && Extends(old(made), made)
      ensures r.Ok? ==> Denotes(made, target, r.value)
      ensures target.kind == Blob && target.len <= o.maxObjectBytes && Honest(made, target) ==>
                r.Ok? || r == Err(StoreFailure) || KeyOf(target) !in objects
      ensures r == Err(CorruptObject) ==> KeyOf(target) in made ==> !Honest(made, target)
      ensures r.Err? && target.kind == Blob && target.len <= o.maxObjectBytes ==>
                r.error in {ViewExpired, StoreFailure, CorruptObject}
      ensures Missed(target, old(faults), r)
    {
      if target.kind != Blob {
        return Err(InvalidFormat);
      }
      r := Read(target);
    }

    /** Reads a node; its declared count must be the count of its children. */
    method ReadNode(target: Ref) returns (r: Result<NodeValue>)
      requires Valid()
      modifies this
      ensures Valid() && Extends(old(made), made)
      ensures r.Ok? ==> Denotes(made, target, Encode(r.value, hash)) && target.kind == Node
      ensures r.Ok? ==> GoodNode(r.value, o) && target.count == SubtreeCount(r.value.children) <= U64_MAX
      ensures forall n | Denotes(made, target, Encode(n, hash)) && Readable(target, n, o) ::
        r == Ok(n) || r == Err(ViewExpired) || r == Err(StoreFailure)
      ensures Missed(target, old(faults), r)
    {
      hide Encode, Decode, GoodNode;
      if target.kind != Node {
        return Err(InvalidFormat);
      }
      var bytes := Read(target);
      if bytes.Err? {
        return Err(bytes.error);
      }
      var node := DecodeNode(bytes.value, o, hash);
      forall n | Denotes(made, target, Encode(n, hash)) && Readable(target, n, o)
        ensures node == Ok(n)
      {
        DecodeIsExact(bytes.value, n, o, hash);
      }
      if node.Err? {
        return Err(node.error);
      }
      DecodeIsExact(bytes.value, node.value, o, hash);
      var count := SubtreeCount(node.value.children);
      if count > U64_MAX || count != target.count {
        return Err(CorruptObject);
      }
      r := Ok(node.value);
    }
  }

  /** Adds up the declared counts, on machine words, refusing one that cannot be right. */
  method CountObjects(children: seq<Ref>) returns (r: Result<nat>)
    ensures r.Ok? <==> Counted(children) && SubtreeCount(children) <= U64_MAX
    ensures r.Ok? ==> r.value == SubtreeCount(children)
    ensures r.Err? ==> r.error == LimitExceeded || r.error == CorruptObject
  {
    var count, i := 1, 0;
    while i < |children|
      invariant i <= |children| && count == SubtreeCount(children[..i]) <= U64_MAX
      invariant forall c | c in children[..i] :: ValidCount(c)
    {
      assert children[..i + 1][..i] == children[..i];
      CountPrefix(children, i + 1);
      if !ValidCount(children[i]) {
        return Err(CorruptObject);
      }
      var sum := CheckedAdd(count, children[i].count);
      if sum.None? {
        return Err(LimitExceeded);
      }
      count := sum.value;
      i := i + 1;
    }
    assert children[..i] == children;
    r := Ok(count);
  }

  /** Storage failed, or the view has expired. */
  predicate Unstored(e: Error) { e == StoreFailure || e == ViewExpired }

  ghost predicate Counted(children: seq<Ref>) { forall c | c in children :: ValidCount(c) }

  /** Nothing but storage stands in the way of storing the node. */
  ghost predicate Storable(n: NodeValue, o: Limits) {
    && Counted(n.children) && SubtreeCount(n.children) <= U64_MAX
    && |n.children| <= o.maxObjectRefs
    && EncodedSize(|n.payload|, DimsOf(n.children)) <= o.maxObjectBytes
  }

  ghost predicate Readable(r: Ref, n: NodeValue, o: Limits) {
    && r.kind == Node
    && GoodNode(n, o)
    && r.len <= o.maxObjectBytes
    && r.count == SubtreeCount(n.children) <= U64_MAX
  }

  lemma {:induction false} CountPrefix(children: seq<Ref>, n: nat)
    requires n <= |children|
    ensures SubtreeCount(children[..n]) <= SubtreeCount(children)
  {
    if n < |children| {
      CountPrefix(children[..|children| - 1], n);
      assert children[..|children| - 1][..n] == children[..n];
    } else {
      assert children[..n] == children;
    }
  }
}
