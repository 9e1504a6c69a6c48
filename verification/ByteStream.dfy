/**
Byte streams over immutable chunks: a writer that accepts bytes in pieces of any size,
and a reader with a two-chunk cache.
*/
module ByteStream {
  import opened Wrappers
  import opened Words
  import opened Cbor
  import opened NodeCodec
  import opened BlobStore
  import opened ByteGeometry

  // ---- Streams in the store ----

  /** What opening `root` accepts. */
  ghost predicate Stream(
    made: Objects, root: Ref, o: Limits, hash: Bytes -> Bytes, len: nat, chunk: nat, children: seq<Ref>)
  {
    if root.kind == Blob then
      && chunk == ChunkLimit(o) && len == root.len <= chunk && children == [root] && root.count == 1
      && KeyOf(root) in made && |made[KeyOf(root)]| == root.len
    else
      var n := NodeValue(Descriptor(len, chunk), children);
      && 0 < chunk <= ChunkLimit(o) && len <= U64_MAX && Geometry(children, len, chunk)
      && Readable(root, n, o) && Denotes(made, root, Encode(n, hash))
  }

  /** A root from which the whole of `content` can be read. */
  ghost predicate Holds(made: Objects, root: Ref, o: Limits, hash: Bytes -> Bytes, content: Bytes) {
    exists chunk, children ::
      && Stream(made, root, o, hash, |content|, chunk, children)
      && AllMade(made, children) && Joined(made, children) == content
  }

  lemma {:induction false} BigEndianOfValue(s: Bytes)
    ensures BigEndian(Value(s), |s|) == s
  {
    if s != [] {
      BigEndianOfValue(s[..|s| - 1]);
      assert s == s[..|s| - 1] + [s[|s| - 1]];
    }
  }

  lemma {:induction false} DescriptorReads(len: nat, chunk: nat)
    requires len <= U64_MAX && chunk <= U64_MAX
    ensures
      var d := Descriptor(len, chunk);
      |d| == DESCRIPTOR_BYTES && d[..8] == TAG && Value(d[8..16]) == len && Value(d[16..24]) == chunk
  {
    var d := Descriptor(len, chunk);
    WidthBound(8);
    PowEight();
    ValueOfBigEndian(len, 8);
    ValueOfBigEndian(chunk, 8);
    assert d[8..16] == BigEndian(len, 8) && d[16..24] == BigEndian(chunk, 8);
  }

  lemma {:induction false} PowEight()
    ensures Pow256(8) == U64_MAX + 1
  {
    assert Pow256(2) == 65536;
    assert Pow256(4) == 256 * (256 * Pow256(2));
    assert Pow256(8) == 256 * (256 * (256 * (256 * Pow256(4))));
  }

  lemma {:induction false} ReadsDescriptor(d: Bytes)
    requires |d| == DESCRIPTOR_BYTES && d[..8] == TAG
    ensures d == Descriptor(Value(d[8..16]), Value(d[16..24]))
    ensures Value(d[8..16]) <= U64_MAX
  {
    BigEndianOfValue(d[8..16]);
    BigEndianOfValue(d[16..24]);
    ValueBound(d[8..16]);
    PowEight();
    assert d == d[..8] + d[8..16] + d[16..24];
  }

  /** A root is a stream in at most one way. */
  lemma {:induction false} StreamIsUnique(
    made: Objects, root: Ref, o: Limits, hash: Bytes -> Bytes,
    len: nat, chunk: nat, children: seq<Ref>, len': nat, chunk': nat, children': seq<Ref>)
    requires ValidLimits(o) && forall b :: |hash(b)| == DIGEST_LEN
    requires Stream(made, root, o, hash, len, chunk, children)
    requires Stream(made, root, o, hash, len', chunk', children')
    ensures len == len' && chunk == chunk' && children == children'
  {
    hide Geometry, Encode, Descriptor;
    if root.kind != Blob {
      var n, n' := NodeValue(Descriptor(len, chunk), children), NodeValue(Descriptor(len', chunk'), children');
      SameEncoding(n, n', o, hash, made[KeyOf(root)]);
      DescriptorReads(len, chunk);
      DescriptorReads(len', chunk');
    }
  }

  lemma {:induction false} SameEncoding(n: NodeValue, n': NodeValue, o: Limits, hash: Bytes -> Bytes, bytes: Bytes)
    requires ValidLimits(o) && forall b :: |hash(b)| == DIGEST_LEN
    requires GoodNode(n, o) && GoodNode(n', o) && |bytes| <= U64_MAX
    requires bytes == Encode(n, hash) && bytes == Encode(n', hash)
    ensures n == n'
  {
    hide Encode, Decode, GoodNode;
    DecodeIsExact(bytes, n, o, hash);
    DecodeIsExact(bytes, n', o, hash);
  }

  // ---- Finished streams ----

  /** Chunks that a writer stored. */
  ghost predicate Stored(made: Objects, children: seq<Ref>) {
    AllMade(made, children) && forall r | r in children :: Typed(r) && r.count == 1
  }

  lemma {:induction false} FullGeometry(children: seq<Ref>, chunk: nat)
    requires chunk > 0 && Full(children, chunk)
    ensures Geometry(children, Times(|children|, chunk), chunk)
  {
    hide Times, CeilDiv;
    CeilIs(|children|, Times(|children|, chunk), chunk);
    forall i | 0 <= i < |children| ensures ChunkRef(children[i], i, Times(|children|, chunk), chunk) {
      TimesOrder(i, |children|, chunk);
    }
  }

  lemma {:induction false} LastGeometry(children: seq<Ref>, r: Ref, chunk: nat)
    requires chunk > 0 && Full(children, chunk) && r.kind == Blob && 0 < r.len < chunk
    ensures Geometry(children + [r], Times(|children|, chunk) + r.len, chunk)
  {
    hide Times, CeilDiv;
    var all, len := children + [r], Times(|children|, chunk) + r.len;
    TimesOrder(|children|, |all|, chunk);
    CeilIs(|all|, len, chunk);
    forall i | 0 <= i < |all| ensures ChunkRef(all[i], i, len, chunk) {
      TimesOrder(i, |children|, chunk);
    }
  }

  lemma {:induction false} WithinCapacity(len: nat, chunk: nat, best: nat)
    requires chunk > 0 && len <= Times(best, chunk)
    ensures CeilDiv(len, chunk) <= best
  {
    hide Times, CeilDiv;
    CeilBounds(len, chunk);
    if CeilDiv(len, chunk) > best { TimesOrder(best, CeilDiv(len, chunk), chunk); }
  }

  lemma {:induction false} OnePerChunk(children: seq<Ref>)
    requires forall r | r in children :: r.count == 1
    ensures SubtreeCount(children) == 1 + |children|
  {
    if children != [] { OnePerChunk(children[..|children| - 1]); }
  }

  lemma {:induction false} ChunkLengths(children: seq<Ref>, len: nat, chunk: nat)
    requires Geometry(children, len, chunk)
    ensures forall r | r in children :: r.kind == Blob && r.len <= chunk
  {
    forall r | r in children ensures r.kind == Blob && r.len <= chunk {
      var i :| 0 <= i < |children| && children[i] == r;
      assert ChunkRef(children[i], i, len, chunk);
    }
  }

  /** A stream within capacity has a descriptor that can be stored and read back. */
  lemma {:induction false} DescriptorFits(children: seq<Ref>, len: nat, o: Limits, best: nat)
    requires ValidLimits(o) && Fits(o, best) && Geometry(children, len, ChunkLimit(o)) && len <= Times(best, ChunkLimit(o))
    requires forall r | r in children :: Typed(r) && r.count == 1
    ensures var n := NodeValue(Descriptor(len, ChunkLimit(o)), children);
      Storable(n, o) && GoodNode(n, o) && SubtreeCount(n.children) <= U64_MAX
  {
    hide Fits, Times, CeilDiv;
    var chunk := ChunkLimit(o);
    WithinCapacity(len, chunk, best);
    FitsBelow(o, |children|, best);
    FitsBound(o, |children|);
    ChunkLengths(children, len, chunk);
    ShorterFits(children, o);
    OnePerChunk(children);
  }

  // ---- The writer ----

  /** A single chunk is the stream. */
  lemma {:induction false} OneChunk(
    made: Objects, children: seq<Ref>, o: Limits, hash: Bytes -> Bytes, content: Bytes)
    requires Stored(made, children) && |children| == 1 && Joined(made, children) == content
    requires children[0].kind == Blob && children[0].len <= ChunkLimit(o)
    ensures Holds(made, children[0], o, hash, content)
  {
    assert children[..0] == [] && [] + made[KeyOf(children[0])] == made[KeyOf(children[0])];
    assert children == [children[0]];
    assert Stream(made, children[0], o, hash, |content|, ChunkLimit(o), children);
  }

  lemma {:induction false} LargestFits(o: Limits, best: nat)
    requires Largest(o, best)
    ensures Fits(o, best)
  {
  }

  /** Storing a chunk moves its bytes from the buffer to the children. */
  lemma {:induction false} Flushed(made: Objects, made': Objects, children: seq<Ref>, child: Ref, bytes: Bytes)
    requires Stored(made, children) && Extends(made, made') && Proven(made', child, Blob, bytes, 1)
    ensures Stored(made', children + [child])
    ensures Joined(made', children + [child]) == Joined(made, children) + bytes
  {
    hide Joined, Typed;
    JoinedExtends(made, made', children);
    JoinedOneMore(made', children, child);
  }

  /** The capacity is the largest number of full chunks that one descriptor holds. */
  ghost predicate Room(o: Limits, chunk: nat, capacity: nat) {
    capacity <= U64_MAX && exists best: nat :: Largest(o, best) && capacity == Times(best, chunk)
  }

  ghost predicate Largest(o: Limits, best: nat) {
    Fits(o, best) && forall n: nat | Fits(o, n) :: n <= best
  }

  /** What a writer reports: that it is unusable, that the stream is full, or that nothing could be stored. */
  predicate WriteError(failed: bool, full: bool, error: Error) {
    if failed then error == InvalidFormat else if full then error == LimitExceeded else Unstored(error)
  }

  class ByteWriter {
    const store: Store
    const chunk: nat
    const capacity: nat
    var len: nat
    var buffer: Bytes
    var children: seq<Ref>
    var failed: bool

    ghost predicate Valid()
      reads this, store
    {
      && store.Valid()
      && chunk == ChunkLimit(store.o) > 0
      && Room(store.o, chunk, capacity)
      && (!failed ==> Holding() && len == |Content()| <= capacity)
    }

    ghost predicate Holding()
      reads this, store
    {
      Stored(store.made, children) && Full(children, chunk) && |buffer| < chunk
    }

    /** The bytes accepted so far. */
    ghost function Content(): Bytes
      reads this, store
      requires Holding()
    {
      Joined(store.made, children) + buffer
    }

    constructor (store: Store, chunk: nat, capacity: nat)
      requires store.Valid() && chunk == ChunkLimit(store.o) > 0
      requires Room(store.o, chunk, capacity)
      ensures Valid() && !failed && Content() == [] && this.store == store && this.capacity == capacity
    {
      this.store, this.chunk, this.capacity := store, chunk, capacity;
      len, buffer, children, failed := 0, [], [], false;
    }

    /** Accepts all of `data`, or fails for good. */
    method Write(data: Bytes) returns (r: Result<()>)
      requires Valid()
      modifies this, store
      ensures Valid() && Extends(old(store.made), store.made)
      ensures r.Ok? ==> !old(failed) && !failed && Content() == old(Content()) + data
      ensures r.Err? ==> failed
      ensures r.Err? ==> WriteError(old(failed), old(len) + |data| > capacity, r.error)
      ensures r.Ok? ==> old(len) + |data| <= capacity
      ensures store.faults >= old(store.faults) && (r == Err(StoreFailure) ==> store.faults > old(store.faults))
      ensures r == Err(ViewExpired) ==> store.FenceGone()
    {
      hide Stored, Joined, Full, Room;
      if failed {
        return Err(InvalidFormat);
      }
      failed := true;
      if len + |data| > capacity {
        return Err(LimitExceeded);
      }
      ghost var content := Content();
      var rest := data;
      while rest != []
        invariant store.Valid() && Extends(old(store.made), store.made) && failed && len == old(len)
        invariant store.faults >= old(store.faults)
        invariant Holding() && |rest| <= |data| && rest == data[|data| - |rest|..]
        invariant Content() == content + data[..|data| - |rest|]
        decreases |rest|
      {
        var n, at := Min(|rest|, chunk - |buffer|), |data| - |rest|;
        var added := Absorb(rest[..n]);
        if added.Err? {
          return Err(added.error);
        }
        assert data[..at] + rest[..n] == data[..at + n];
        rest := rest[n..];
      }
      assert data[..|data|] == data;
      len := len + |data|;
      failed := false;
      r := Ok(());
    }

    /** Buffers a piece of a chunk, and stores the chunk when it is full. */
    method Absorb(piece: Bytes) returns (r: Result<()>)
      requires store.Valid() && Holding() && |buffer| + |piece| <= chunk <= store.o.maxObjectBytes && chunk > 0
      modifies this`buffer, this`children, store
      ensures store.Valid() && Extends(old(store.made), store.made)
      ensures r.Ok? ==> Holding() && Content() == old(Content()) + piece
      ensures r.Err? ==> Unstored(r.error)
      ensures store.faults >= old(store.faults) && (r == Err(StoreFailure) ==> store.faults > old(store.faults))
      ensures r == Err(ViewExpired) ==> store.FenceGone()
    {
      hide Joined;
      assert Joined(store.made, children) + buffer + piece == Joined(store.made, children) + (buffer + piece);
      buffer := buffer + piece;
      if |buffer| == chunk {
        ghost var made := store.made;
        var full := buffer;
        buffer := [];
        var child := store.PutObject(full);
        if child.Err? {
          return Err(child.error);
        }
        Flushed(made, store.made, children, child.value, full);
        children := children + [child.value];
      }
      r := Ok(());
    }

    /** Within capacity only storage can fail; the root then holds exactly the accepted bytes. */
    method Finish() returns (r: Result<Ref>)
      requires Valid()
      modifies this, store
      ensures store.Valid() && Extends(old(store.made), store.made)
      ensures r.Err? ==> WriteError(old(failed), false, r.error)
      ensures r.Ok? ==> !old(failed) && Holds(store.made, r.value, store.o, store.hash, old(Content()))
      ensures r.Ok? ==> (r.value.kind == Blob <==> 0 < |old(Content())| <= chunk)
      ensures store.faults >= old(store.faults) && (r == Err(StoreFailure) ==> store.faults > old(store.faults))
      ensures r == Err(ViewExpired) ==> store.FenceGone()
    {
      if failed {
        return Err(InvalidFormat);
      }
      hide Joined, Room, Stored, Full, Geometry;
      ghost var content := Content();
      var last := PutLast();
      if last.Err? {
        return Err(last.error);
      }
      ChunkCount(len, chunk, |children|);
      if |children| == 1 {
        ChunkLengths(children, len, chunk);
        OneChunk(store.made, children, store.o, store.hash, content);
        return Ok(children[0]);
      }
      r := PutDescriptor(content);
    }

    /** Stores what is left in the buffer. */
    method PutLast() returns (r: Result<()>)
      requires Valid() && !failed
      modifies this`children, store
      ensures store.Valid() && Extends(old(store.made), store.made)
      ensures r.Err? ==> Unstored(r.error)
      ensures store.faults >= old(store.faults) && (r == Err(StoreFailure) ==> store.faults > old(store.faults))
      ensures r == Err(ViewExpired) ==> store.FenceGone()
      ensures r.Ok? ==> Stored(store.made, children) && Geometry(children, len, chunk)
      ensures r.Ok? ==> Joined(store.made, children) == old(Content())
    {
      hide Joined, Geometry, Room, Times;
      JoinedFull(store.made, children, chunk);
      if buffer == [] {
        FullGeometry(children, chunk);
      } else {
        ghost var made := store.made;
        var child := store.PutObject(buffer);
        if child.Err? {
          return Err(child.error);
        }
        Flushed(made, store.made, children, child.value, buffer);
        LastGeometry(children, child.value, chunk);
        children := children + [child.value];
      }
      r := Ok(());
    }

    method PutDescriptor(ghost content: Bytes) returns (r: Result<Ref>)
      requires store.Valid() && chunk == ChunkLimit(store.o) > 0
      requires Room(store.o, chunk, capacity)
      requires Stored(store.made, children) && Geometry(children, len, chunk) && len <= capacity
      requires Joined(store.made, children) == content && |content| == len
      modifies store
      ensures store.Valid() && Extends(old(store.made), store.made)
      ensures r.Err? ==> Unstored(r.error)
      ensures store.faults >= old(store.faults) && (r == Err(StoreFailure) ==> store.faults > old(store.faults))
      ensures r == Err(ViewExpired) ==> store.FenceGone()
      ensures r.Ok? ==> Holds(store.made, r.value, store.o, store.hash, content) && r.value.kind == Node
    {
      hide Joined, Geometry, Descriptor, Encode, Largest, Times, Storable, GoodNode, SubtreeCount;
      ghost var made := store.made;
      ghost var best: nat :| Largest(store.o, best) && capacity == Times(best, chunk);
      var node := NodeValue(Descriptor(len, chunk), children);
      assert Fits(store.o, best) by { LargestFits(store.o, best); }
      DescriptorFits(children, len, store.o, best);
      r := store.PutNode(node);
      if r.Ok? {
        JoinedExtends(made, store.made, children);
        assert Stream(store.made, r.value, store.o, store.hash, |content|, chunk, children);
      }
    }
  }

  /** A stream of one chunk has something in it, and no more than that. */
  lemma {:induction false} ChunkCount(len: nat, chunk: nat, n: nat)
    requires chunk > 0 && n == CeilDiv(len, chunk)
    ensures n == 1 <==> 0 < len <= chunk
  {
  }

  /** Begins a stream; refused exactly when no descriptor fits or the capacity overflows. */
  method NewWriter(store: Store) returns (r: Result<ByteWriter>)
    requires store.Valid()
    ensures r.Ok? ==> fresh(r.value) && r.value.store == store && r.value.Valid()
    ensures r.Ok? ==> !r.value.failed && r.value.Content() == []
    ensures r.Err? ==> r.error == LimitExceeded
    ensures r.Err? ==> !Fits(store.o, 0) || exists best: nat :: Largest(store.o, best) && Times(best, ChunkLimit(store.o)) > U64_MAX
  {
    var chunk := ChunkLimit(store.o);
    var size := NodeSize(DESCRIPTOR_BYTES, [], store.o);
    assert Repeat(Dims(chunk, 1), 0) == [];
    if size.Err? {
      return Err(LimitExceeded);
    }
    var best := LargestFit(store.o);
    assert Largest(store.o, best);
    if Times(best, chunk) > U64_MAX {
      return Err(LimitExceeded);
    }
    var writer := new ByteWriter(store, chunk, Times(best, chunk));
    r := Ok(writer);
  }

  // ---- The reader ----

  /** The chunk that holds an offset, and the place in it. */
  function Index(offset: nat, chunk: nat): nat { if chunk == 0 then 0 else offset / chunk }

  function Start(offset: nat, chunk: nat): nat { if chunk == 0 then 0 else offset % chunk }

  /** Any slice of a chunk is a slice of the stream. */
  lemma {:induction false} SliceAt(made: Objects, children: seq<Ref>, len: nat, chunk: nat, offset: nat, max: nat)
    requires AllMade(made, children) && Geometry(children, len, chunk) && offset < len && max > 0
    ensures Index(offset, chunk) < |children| && Start(offset, chunk) < children[Index(offset, chunk)].len
    ensures
      var bytes, start := made[KeyOf(children[Index(offset, chunk)])], Start(offset, chunk);
      bytes[start..start + Min(max, |bytes| - start)] == ReadSlice(Joined(made, children), chunk, offset, max)
  {
    hide Times, CeilDiv, Joined;
    var i, start := Index(offset, chunk), Start(offset, chunk);
    StartInside(children, len, chunk, offset);
    OffsetSplits(offset, chunk);
    ChunkAt(made, children, len, chunk, i);
    assert ChunkRef(children[i], i, len, chunk);
    var content, bytes, base := Joined(made, children), made[KeyOf(children[i])], Times(i, chunk);
    var n := Min(max, |bytes| - start);
    assert bytes[start..start + n] == content[base..base + |bytes|][start..start + n];
    SubSlice(content, base, base + |bytes|, start, start + n);
  }

  lemma {:induction false} SubSlice(s: Bytes, a: nat, b: nat, c: nat, d: nat)
    requires a <= b <= |s| && c <= d <= b - a
    ensures s[a..b][c..d] == s[a + c..a + d]
  {
    assert forall i | 0 <= i < d - c :: s[a..b][c..d][i] == s[a..b][c + i] == s[a + c..a + d][i];
  }

  lemma {:induction false} StartInside(children: seq<Ref>, len: nat, chunk: nat, offset: nat)
    requires Geometry(children, len, chunk) && offset < len
    ensures Index(offset, chunk) < |children| && Start(offset, chunk) < children[Index(offset, chunk)].len
  {
    hide Times, CeilDiv;
    var i := Index(offset, chunk);
    OffsetSplits(offset, chunk);
    CeilBounds(len, chunk);
    if i >= |children| { TimesOrder(|children|, i, chunk); }
    assert ChunkRef(children[i], i, len, chunk);
  }

  class ByteReader {
    const store: Store
    const chunk: nat
    const len: nat
    const children: seq<Ref>
    var newer: Option<(nat, Bytes)>
    var older: Option<(nat, Bytes)>

    ghost predicate Valid()
      reads this, store
    {
      && store.Valid() && chunk <= store.o.maxObjectBytes
      && (len > 0 ==> Geometry(children, len, chunk))
      && Slot(newer) && Slot(older)
    }

    /** A cached chunk is what its reference denotes. */
    ghost predicate Slot(slot: Option<(nat, Bytes)>)
      reads this, store
    {
      slot.Some? ==> slot.value.0 < |children| && Denotes(store.made, children[slot.value.0], slot.value.1)
    }

    /** The chunk has been collected. */
    ghost predicate Gone(index: nat)
      reads this, store
    {
      index < |children| && KeyOf(children[index]) !in store.objects
    }

    predicate Cached(index: nat)
      reads this
    {
      (newer.Some? && newer.value.0 == index) || (older.Some? && older.value.0 == index)
    }

    constructor (store: Store, chunk: nat, len: nat, children: seq<Ref>, first: Option<(nat, Bytes)>)
      requires store.Valid() && chunk <= store.o.maxObjectBytes
      requires len > 0 ==> Geometry(children, len, chunk)
      requires first.Some? ==> first.value.0 < |children| && Denotes(store.made, children[first.value.0], first.value.1)
      ensures Valid() && this.store == store && this.chunk == chunk && this.len == len && this.children == children
    {
      this.store, this.chunk, this.len, this.children := store, chunk, len, children;
      newer, older := first, None;
    }

    /** A cached chunk needs no storage; a failed read loses at most the older chunk. */
    method ReadAt(offset: nat, max: nat) returns (r: Result<Bytes>)
      requires Valid()
      modifies this, store
      ensures Valid() && Extends(old(store.made), store.made)
      ensures r.Ok? && AllMade(store.made, children) && (len == 0 ==> Joined(store.made, children) == []) ==>
                r.value == ReadSlice(Joined(store.made, children), chunk, offset, max)
      ensures r.Err? ==> max > 0 && offset < len && !old(Cached(Index(offset, chunk)))
      ensures r.Err? ==> newer == old(newer)
      ensures store.faults >= old(store.faults)
      ensures r.Err? && AllMade(store.made, children) ==>
                store.faults > old(store.faults) || (Gone(Index(offset, chunk)) && store.view < store.epoch)
      ensures r.Ok? && max > 0 && offset < len ==> newer.Some? && newer.value.0 == Index(offset, chunk)
      ensures old(Cached(Index(offset, chunk))) ==> store.objects == old(store.objects)
    {
      hide Joined, Geometry, AllMade, ReadSlice, Index, Start, Honest;
      EmptyRead(store.made, children, len, chunk, offset, max);
      if max == 0 || offset >= len {
        return Ok([]);
      }
      var index, start := Index(offset, chunk), Start(offset, chunk);
      StartInside(children, len, chunk, offset);
      ChunkLengths(children, len, chunk);
      var fetched := Fetch(index);
      if fetched.Err? {
        MadeIsHonest(store.made, children, index);
        return Err(fetched.error);
      }
      var bytes := newer.value.1;
      SliceOf(store.made, children, len, chunk, offset, max, bytes);
      r := Ok(bytes[start..start + Min(max, |bytes| - start)]);
    }

    /** Makes a chunk the newest one in the cache. */
    method Fetch(index: nat) returns (r: Result<()>)
      requires Valid() && index < |children|
      modifies this, store
      ensures Valid() && Extends(old(store.made), store.made)
      ensures r.Ok? ==> newer.Some? && newer.value.0 == index
      ensures r.Err? ==> newer == old(newer) && !old(Cached(index))
      ensures store.faults >= old(store.faults)
      ensures r.Err? && Honest(store.made, children[index]) && children[index].kind == Blob && children[index].len <= chunk ==>
                store.faults > old(store.faults) || Gone(index)
      ensures old(Cached(index)) ==> store.objects == old(store.objects)
    {
      hide Geometry;
      if newer.None? || newer.value.0 != index {
        if older.Some? && older.value.0 == index {
          newer, older := older, newer;
        } else {
          older := None;
          var bytes := store.ReadObject(children[index]);
          if bytes.Err? {
            return Err(bytes.error);
          }
          older := newer;
          newer := Some((index, bytes.value));
        }
      }
      r := Ok(());
    }
  }

  lemma {:induction false} MadeIsHonest(made: Objects, children: seq<Ref>, i: nat)
    requires i < |children|
    ensures AllMade(made, children) ==> Honest(made, children[i]) && KeyOf(children[i]) in made
  {
    assert children[i] in children;
  }

  lemma {:induction false} SliceOf(
    made: Objects, children: seq<Ref>, len: nat, chunk: nat, offset: nat, max: nat, bytes: Bytes)
    requires Geometry(children, len, chunk) && offset < len && max > 0
    requires Index(offset, chunk) < |children| && Denotes(made, children[Index(offset, chunk)], bytes)
    ensures Start(offset, chunk) < |bytes|
    ensures AllMade(made, children) ==>
              var start := Start(offset, chunk);
              bytes[start..start + Min(max, |bytes| - start)] == ReadSlice(Joined(made, children), chunk, offset, max)
  {
    hide Geometry, Joined, ReadSlice;
    StartInside(children, len, chunk, offset);
    if AllMade(made, children) {
      SliceAt(made, children, len, chunk, offset, max);
    }
  }

  lemma {:induction false} EmptyRead(made: Objects, children: seq<Ref>, len: nat, chunk: nat, offset: nat, max: nat)
    requires len > 0 ==> Geometry(children, len, chunk)
    ensures AllMade(made, children) && (len == 0 ==> Joined(made, children) == []) && (max == 0 || offset >= len) ==>
              ReadSlice(Joined(made, children), chunk, offset, max) == []
  {
    if AllMade(made, children) && len > 0 {
      JoinedLength(made, children, len, chunk);
    }
  }

  /** Checks a descriptor's geometry. */
  method CheckGeometry(children: seq<Ref>, len: nat, chunk: nat, o: Limits) returns (ok: bool)
    ensures ok <==> 0 < chunk <= ChunkLimit(o) && Geometry(children, len, chunk)
  {
    if chunk == 0 || chunk > ChunkLimit(o) || CeilDiv(len, chunk) != |children| {
      return false;
    }
    hide Times, CeilDiv;
    CeilBounds(len, chunk);
    var i := 0;
    while i < |children|
      invariant i <= |children| && forall j | 0 <= j < i :: ChunkRef(children[j], j, len, chunk)
    {
      TimesOrder(i, |children|, chunk);
      var expected := Min(len - Times(i, chunk), chunk);
      if children[i].kind != Blob || children[i].len != expected {
        assert !ChunkRef(children[i], i, len, chunk);
        return false;
      }
      i := i + 1;
    }
    ok := true;
  }

  /** Opens exactly the streams, up to storage failure and removal. */
  method OpenBytes(store: Store, root: Ref) returns (r: Result<ByteReader>)
    requires store.Valid()
    modifies store
    ensures store.Valid() && Extends(old(store.made), store.made)
    ensures r.Ok? ==> fresh(r.value) && r.value.store == store && r.value.Valid()
    ensures r.Ok? ==> Stream(store.made, root, store.o, store.hash, r.value.len, r.value.chunk, r.value.children)
    ensures forall len, chunk, children | Stream(store.made, root, store.o, store.hash, len, chunk, children) && r.Err? ::
      r.error == ViewExpired || r.error == StoreFailure
    ensures store.Missed(root, old(store.faults), r)
  {
    if root.kind == Blob {
      r := OpenBlob(store, root);
    } else {
      r := OpenNode(store, root);
    }
  }

  lemma {:induction false} SingleGeometry(root: Ref, chunk: nat)
    requires root.kind == Blob && 0 < root.len <= chunk
    ensures Geometry([root], root.len, chunk)
  {
    hide CeilDiv, Times;
    TimesZero(chunk);
    TimesOrder(0, 1, chunk);
    CeilIs(1, root.len, chunk);
    assert ChunkRef(root, 0, root.len, chunk);
  }

  method OpenBlob(store: Store, root: Ref) returns (r: Result<ByteReader>)
    requires store.Valid() && root.kind == Blob
    modifies store
    ensures store.Valid() && Extends(old(store.made), store.made)
    ensures r.Ok? ==> fresh(r.value) && r.value.store == store && r.value.Valid()
    ensures r.Ok? ==> Stream(store.made, root, store.o, store.hash, r.value.len, r.value.chunk, r.value.children)
    ensures forall len, chunk, children | Stream(store.made, root, store.o, store.hash, len, chunk, children) && r.Err? ::
      r.error == ViewExpired || r.error == StoreFailure
    ensures store.Missed(root, old(store.faults), r)
  {
    hide Geometry;
    if !ValidCount(root) {
      return Err(CorruptObject);
    }
    var chunk := ChunkLimit(store.o);
    if root.len > chunk {
      return Err(LimitExceeded);
    }
    var bytes := store.ReadObject(root);
    if bytes.Err? {
      return Err(bytes.error);
    }
    if root.len > 0 { SingleGeometry(root, chunk); }
    var reader := new ByteReader(store, chunk, root.len, [root], Some((0, bytes.value)));
    r := Ok(reader);
  }

  method OpenNode(store: Store, root: Ref) returns (r: Result<ByteReader>)
    requires store.Valid() && root.kind != Blob
    modifies store
    ensures store.Valid() && Extends(old(store.made), store.made)
    ensures r.Ok? ==> fresh(r.value) && r.value.store == store && r.value.Valid()
    ensures r.Ok? ==> Stream(store.made, root, store.o, store.hash, r.value.len, r.value.chunk, r.value.children)
    ensures forall len, chunk, children | Stream(store.made, root, store.o, store.hash, len, chunk, children) && r.Err? ::
      r.error == ViewExpired || r.error == StoreFailure
    ensures store.Missed(root, old(store.faults), r)
  {
    hide Geometry, Encode, Descriptor, GoodNode;
    var node := store.ReadNode(root);
    if node.Err? {
      return Err(node.error);
    }
    var d := node.value.payload;
    forall len, chunk, children | Stream(store.made, root, store.o, store.hash, len, chunk, children)
      ensures d == Descriptor(len, chunk) && node.value.children == children
      ensures |d| == DESCRIPTOR_BYTES && d[..8] == TAG && Value(d[8..16]) == len && Value(d[16..24]) == chunk
    {
      DescriptorReads(len, chunk);
    }
    if |d| != DESCRIPTOR_BYTES || d[..8] != TAG {
      return Err(InvalidFormat);
    }
    var len, chunk := Value(d[8..16]), Value(d[16..24]);
    ReadsDescriptor(d);
    var ok := CheckGeometry(node.value.children, len, chunk, store.o);
    if !ok {
      return Err(InvalidFormat);
    }
    var reader := new ByteReader(store, chunk, len, node.value.children, None);
    r := Ok(reader);
  }

  // ---- The round trip ----

  /** Opening a finished stream and reading it gives back exactly what was written. */
  lemma {:induction false} RoundTrip(
    made: Objects, made': Objects, root: Ref, o: Limits, hash: Bytes -> Bytes, content: Bytes,
    len: nat, chunk: nat, children: seq<Ref>)
    requires ValidLimits(o) && (forall b :: |hash(b)| == DIGEST_LEN) && Extends(made, made')
    requires Holds(made, root, o, hash, content) && Stream(made', root, o, hash, len, chunk, children)
    ensures len == |content| && AllMade(made', children) && Joined(made', children) == content
  {
    var c, cs :| Stream(made, root, o, hash, |content|, c, cs) && AllMade(made, cs) && Joined(made, cs) == content;
    JoinedExtends(made, made', cs);
    StreamStays(made, made', root, o, hash, |content|, c, cs);
    StreamIsUnique(made', root, o, hash, len, chunk, children, |content|, c, cs);
  }

  lemma {:induction false} StreamStays(
    made: Objects, made': Objects, root: Ref, o: Limits, hash: Bytes -> Bytes, len: nat, chunk: nat, children: seq<Ref>)
    requires Extends(made, made') && Stream(made, root, o, hash, len, chunk, children)
    ensures Stream(made', root, o, hash, len, chunk, children)
  {
    hide Encode, Geometry, Readable;
  }

  function Concat(pieces: seq<Bytes>): Bytes {
    if pieces == [] then [] else Concat(pieces[..|pieces| - 1]) + pieces[|pieces| - 1]
  }

  /** The room a new writer has, if one can be opened at all. */
  ghost predicate Affords(o: Limits, n: nat) {
    Fits(o, 0) && forall best: nat | Largest(o, best) :: n <= Times(best, ChunkLimit(o)) <= U64_MAX
  }

  lemma {:induction false} RoomAffords(o: Limits, capacity: nat, n: nat)
    requires Room(o, ChunkLimit(o), capacity) && Affords(o, n)
    ensures n <= capacity
  {
    hide Largest, Times;
    var best: nat :| Largest(o, best) && capacity == Times(best, ChunkLimit(o));
  }

  lemma {:induction false} ConcatPrefix(pieces: seq<Bytes>, n: nat)
    requires n <= |pieces|
    ensures |Concat(pieces[..n])| <= |Concat(pieces)|
  {
    if n < |pieces| {
      ConcatPrefix(pieces[..|pieces| - 1], n);
      assert pieces[..|pieces| - 1][..n] == pieces[..n];
    } else {
      assert pieces[..n] == pieces;
    }
  }

  /**
  However the bytes are split into writes, the reopened stream has exactly those bytes; and bytes
  that fit fail only through storage.
  */
  method WriteAndReopen(store: Store, pieces: seq<Bytes>) returns (r: Result<ByteReader>)
    requires store.Valid()
    modifies store
    ensures store.Valid() && Extends(old(store.made), store.made)
    ensures r.Ok? ==> fresh(r.value) && r.value.store == store && r.value.Valid() && r.value.len == |Concat(pieces)|
    ensures r.Ok? ==> AllMade(store.made, r.value.children)
    ensures r.Ok? ==> Joined(store.made, r.value.children) == Concat(pieces)
    ensures Affords(store.o, |Concat(pieces)|) ==> r.Ok? || r == Err(StoreFailure) || r == Err(ViewExpired)
    ensures r == Err(StoreFailure) ==> store.faults > old(store.faults)
    ensures r == Err(ViewExpired) ==> store.FenceGone() || store.view < store.epoch
  {
    hide Room, Fits, Times, Joined, AllMade, Stored, Largest;
    var begun := NewWriter(store);
    if begun.Err? {
      return Err(begun.error);
    }
    var w, i := begun.value, 0;
    while i < |pieces|
      invariant i <= |pieces| && fresh(w) && w.store == store && w.Valid() && !w.failed
      invariant store.Valid() && Extends(old(store.made), store.made) && store.faults >= old(store.faults)
      invariant w.Content() == Concat(pieces[..i])
    {
      assert pieces[..i + 1][..i] == pieces[..i];
      ConcatPrefix(pieces, i + 1);
      if Affords(store.o, |Concat(pieces)|) { RoomAffords(store.o, w.capacity, |Concat(pieces)|); }
      var written := w.Write(pieces[i]);
      if written.Err? {
        return Err(written.error);
      }
      i := i + 1;
    }
    assert pieces[..i] == pieces;
    var root := w.Finish();
    if root.Err? {
      return Err(root.error);
    }
    r := Reopen(store, root.value, Concat(pieces));
  }

  method Reopen(store: Store, root: Ref, ghost content: Bytes) returns (r: Result<ByteReader>)
    requires store.Valid() && Holds(store.made, root, store.o, store.hash, content)
    modifies store
    ensures store.Valid() && Extends(old(store.made), store.made)
    ensures r.Ok? ==> fresh(r.value) && r.value.store == store && r.value.Valid() && r.value.len == |content|
    ensures r.Ok? ==> AllMade(store.made, r.value.children) && Joined(store.made, r.value.children) == content
    ensures r.Err? ==> r.error == ViewExpired || r.error == StoreFailure
    ensures store.Missed(root, old(store.faults), r)
  {
    hide Stream, AllMade, Joined;
    ghost var made := store.made;
    r := OpenBytes(store, root);
    if r.Ok? {
      RoundTrip(made, store.made, root, store.o, store.hash, content, r.value.len, r.value.chunk, r.value.children);
    } else {
      StillHolds(made, store.made, root, store.o, store.hash, content);
    }
  }

  lemma {:induction false} StillHolds(
    made: Objects, made': Objects, root: Ref, o: Limits, hash: Bytes -> Bytes, content: Bytes)
    requires Extends(made, made') && Holds(made, root, o, hash, content)
    ensures exists chunk, children :: Stream(made', root, o, hash, |content|, chunk, children)
  {
    hide Stream, Joined, AllMade;
    var c, cs :| Stream(made, root, o, hash, |content|, c, cs) && AllMade(made, cs) && Joined(made, cs) == content;
    StreamStays(made, made', root, o, hash, |content|, c, cs);
  }
}
