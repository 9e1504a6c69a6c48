/**
The shape of a byte stream: how many chunks one descriptor holds, where each chunk lies in
the stream, and what successive reads return.
*/
module ByteGeometry {
  import opened Cbor
  import opened NodeCodec
  import opened BlobStore

  const TAG: Bytes := [79, 76, 66, 83, 0, 0, 0, 1]
  const DESCRIPTOR_BYTES: nat := 24
  const MAX_CHUNK_BYTES: nat := 2 * 1024 * 1024

  function Min(a: nat, b: nat): nat { if a <= b then a else b }

  function ChunkLimit(o: Limits): nat { Min(o.maxObjectBytes, MAX_CHUNK_BYTES) }

  // ---- Capacity ----

  function Repeat(d: Dims, n: nat): (r: seq<Dims>)
    ensures |r| == n
  {
    seq(n, _ => d)
  }

  /** A descriptor with `n` full chunks can be stored. */
  ghost predicate Fits(o: Limits, n: nat) {
    n <= o.maxObjectRefs && EncodedSize(DESCRIPTOR_BYTES, Repeat(Dims(ChunkLimit(o), 1), n)) <= o.maxObjectBytes
  }

  lemma {:induction false} RepeatSize(d: Dims, n: nat)
    ensures ChildrenSize(Repeat(d, n)) == Times(n, ChildSize(d))
  {
    hide ChildSize;
    if n > 0 {
      RepeatSize(d, n - 1);
      assert Repeat(d, n)[..n - 1] == Repeat(d, n - 1);
      TimesOrder(n - 1, n, ChildSize(d));
    }
  }

  /** The size grows with the number of children and with their lengths. */
  lemma {:induction false} SizeGrows(payload: nat, a: seq<Dims>, b: seq<Dims>)
    requires |a| <= |b| && ChildrenSize(a) <= ChildrenSize(b)
    ensures EncodedSize(payload, a) <= EncodedSize(payload, b)
  {
    HeadGrows(|a|, |b|);
    HeadGrows(InnerSize(payload, a), InnerSize(payload, b));
  }

  lemma {:induction false} HeadGrows(a: nat, b: nat)
    requires a <= b
    ensures CborHeadLen(a) <= CborHeadLen(b)
  {
  }

  lemma {:induction false} ChildGrows(a: Dims, b: Dims)
    requires a.len <= b.len && a.count == b.count
    ensures ChildSize(a) <= ChildSize(b)
  {
    HeadGrows(a.len, b.len);
  }

  lemma {:induction false} FitsBelow(o: Limits, m: nat, n: nat)
    requires m <= n && Fits(o, n)
    ensures Fits(o, m)
  {
    var d := Dims(ChunkLimit(o), 1);
    RepeatSize(d, m);
    RepeatSize(d, n);
    TimesOrder(m, n, ChildSize(d));
    SizeGrows(DESCRIPTOR_BYTES, Repeat(d, m), Repeat(d, n));
  }

  /** The search bound never cuts off a count that fits. */
  lemma {:induction false} FitsBound(o: Limits, n: nat)
    requires Fits(o, n)
    ensures n <= Min(o.maxObjectRefs, o.maxObjectBytes / 32)
  {
    var d := Dims(ChunkLimit(o), 1);
    RepeatSize(d, n);
    assert n * 60 <= n * ChildSize(d);
  }

  /** Chunks no longer than a full one fit wherever full ones do. */
  lemma {:induction false} ShorterFits(rs: seq<Ref>, o: Limits)
    requires Fits(o, |rs|)
    requires forall r | r in rs :: r.len <= ChunkLimit(o) && r.count == 1
    ensures |DimsOf(rs)| == |rs| && EncodedSize(DESCRIPTOR_BYTES, DimsOf(rs)) <= o.maxObjectBytes
  {
    var d := Dims(ChunkLimit(o), 1);
    RepeatSize(d, |rs|);
    ShorterSize(rs, d);
    SizeGrows(DESCRIPTOR_BYTES, DimsOf(rs), Repeat(d, |rs|));
  }

  lemma {:induction false} ShorterSize(rs: seq<Ref>, d: Dims)
    requires forall r | r in rs :: r.len <= d.len && r.count == d.count
    ensures |DimsOf(rs)| == |rs| && ChildrenSize(DimsOf(rs)) <= Times(|rs|, ChildSize(d))
  {
    hide ChildSize, Times;
    if rs == [] { TimesZero(ChildSize(d)); }
    if rs != [] {
      var init, last := rs[..|rs| - 1], rs[|rs| - 1];
      ShorterSize(init, d);
      assert DimsOf(rs)[..|init|] == DimsOf(init);
      ChildGrows(Dims(last.len, last.count), d);
      TimesOrder(|init|, |rs|, ChildSize(d));
    }
  }

  /** The largest number of full chunks that one descriptor can hold. */
  method LargestFit(o: Limits) returns (best: nat)
    requires ValidLimits(o) && Fits(o, 0)
    ensures Fits(o, best) && forall n: nat | Fits(o, n) :: n <= best
  {
    var low, high := 0, Min(o.maxObjectRefs, o.maxObjectBytes / 32);
    forall n: nat | Fits(o, n) ensures n <= high { FitsBound(o, n); }
    while low < high
      invariant low <= high && Fits(o, low)
      invariant forall n: nat | Fits(o, n) :: n <= high
      decreases high - low
    {
      var mid := low + (high - low + 1) / 2;
      var size := NodeSize(DESCRIPTOR_BYTES, Repeat(Dims(ChunkLimit(o), 1), mid), o);
      if size.Ok? {
        low := mid;
      } else {
        forall n: nat | Fits(o, n) ensures n <= mid - 1 {
          if n >= mid { FitsBelow(o, mid, n); }
        }
        high := mid - 1;
      }
    }
    best := low;
  }

  // ---- Geometry ----

  /** Where chunk `i` starts. */
  function Times(i: nat, chunk: nat): nat { i * chunk }

  function CeilDiv(a: nat, b: nat): nat
    requires b > 0
  {
    (a + b - 1) / b
  }

  lemma {:induction false} TimesOrder(i: nat, j: nat, chunk: nat)
    requires i <= j
    ensures Times(i, chunk) <= Times(j, chunk)
    ensures i < j ==> Times(i, chunk) + chunk <= Times(j, chunk)
    ensures Times(i + 1, chunk) == Times(i, chunk) + chunk
  {
    if i < j { TimesOrder(i, j - 1, chunk); }
  }

  lemma {:induction false} TimesZero(chunk: nat)
    ensures Times(0, chunk) == 0
  {
  }

  lemma {:induction false} CeilBounds(len: nat, chunk: nat)
    requires chunk > 0
    ensures len <= Times(CeilDiv(len, chunk), chunk) < len + chunk
  {
    var q := (len + chunk - 1) / chunk;
    assert len + chunk - 1 == chunk * q + (len + chunk - 1) % chunk;
  }

  lemma {:induction false} CeilIs(n: nat, len: nat, chunk: nat)
    requires chunk > 0 && len <= Times(n, chunk) < len + chunk
    ensures CeilDiv(len, chunk) == n
  {
    hide Times, CeilDiv;
    CeilBounds(len, chunk);
    if CeilDiv(len, chunk) < n {
      TimesOrder(CeilDiv(len, chunk), n, chunk);
    } else {
      TimesOrder(n, CeilDiv(len, chunk), chunk);
    }
  }

  lemma {:induction false} OffsetSplits(offset: nat, chunk: nat)
    requires chunk > 0
    ensures offset == Times(offset / chunk, chunk) + offset % chunk
    ensures offset % chunk < chunk
  {
  }

  function Descriptor(len: nat, chunk: nat): Bytes {
    TAG + BigEndian(len, 8) + BigEndian(chunk, 8)
  }

  /** Child `i` of a stream of `len` bytes. */
  ghost predicate ChunkRef(r: Ref, i: nat, len: nat, chunk: nat) {
    r.kind == Blob && Times(i, chunk) <= len && r.len == Min(len - Times(i, chunk), chunk)
  }

  ghost predicate Geometry(children: seq<Ref>, len: nat, chunk: nat) {
    && chunk > 0
    && CeilDiv(len, chunk) == |children|
    && forall i | 0 <= i < |children| :: ChunkRef(children[i], i, len, chunk)
  }

  ghost predicate AllMade(made: Objects, children: seq<Ref>) {
    forall r | r in children :: KeyOf(r) in made && |made[KeyOf(r)]| == r.len
  }

  /** The bytes of a list of chunks. */
  ghost function Joined(made: Objects, children: seq<Ref>): Bytes
    requires AllMade(made, children)
  {
    if children == [] then []
    else Joined(made, children[..|children| - 1]) + made[KeyOf(children[|children| - 1])]
  }

  lemma {:induction false} JoinedExtends(a: Objects, b: Objects, children: seq<Ref>)
    requires Extends(a, b) && AllMade(a, children)
    ensures AllMade(b, children) && Joined(a, children) == Joined(b, children)
  {
    if children != [] {
      JoinedExtends(a, b, children[..|children| - 1]);
    }
  }

  lemma {:induction false} JoinedOneMore(made: Objects, children: seq<Ref>, r: Ref)
    requires AllMade(made, children) && KeyOf(r) in made && |made[KeyOf(r)]| == r.len
    ensures AllMade(made, children + [r])
    ensures Joined(made, children + [r]) == Joined(made, children) + made[KeyOf(r)]
  {
    assert (children + [r])[..|children|] == children;
  }

  /** Full chunks only. */
  ghost predicate Full(children: seq<Ref>, chunk: nat) {
    forall r | r in children :: r.kind == Blob && r.len == chunk
  }

  lemma {:induction false} JoinedFull(made: Objects, children: seq<Ref>, chunk: nat)
    requires AllMade(made, children) && Full(children, chunk)
    ensures |Joined(made, children)| == Times(|children|, chunk)
  {
    if children != [] {
      var init := children[..|children| - 1];
      JoinedFull(made, init, chunk);
      TimesOrder(|init|, |init|, chunk);
    }
  }

  lemma {:induction false} JoinedPrefix(made: Objects, children: seq<Ref>, n: nat)
    requires AllMade(made, children) && n <= |children|
    ensures Joined(made, children[..n]) <= Joined(made, children)
  {
    if n < |children| {
      var init := children[..|children| - 1];
      JoinedPrefix(made, init, n);
      assert init[..n] == children[..n];
    } else {
      assert children[..n] == children;
    }
  }

  /** Every chunk but the last is full. */
  lemma {:induction false} ChunksBefore(children: seq<Ref>, len: nat, chunk: nat, i: nat)
    requires Geometry(children, len, chunk) && i < |children|
    ensures Times(i, chunk) < len && Full(children[..i], chunk)
    ensures i == |children| - 1 ==> len - Times(i, chunk) <= chunk
  {
    hide Times, CeilDiv;
    CeilBounds(len, chunk);
    TimesOrder(i, |children|, chunk);
    forall r | r in children[..i] ensures r.kind == Blob && r.len == chunk {
      var j :| 0 <= j < i && children[j] == r;
      assert ChunkRef(children[j], j, len, chunk);
      TimesOrder(j, i, chunk);
    }
    TimesOrder(|children| - 1, |children|, chunk);
  }

  /** The chunk that holds an offset, and where its bytes are in the stream. */
  lemma {:induction false} ChunkAt(made: Objects, children: seq<Ref>, len: nat, chunk: nat, i: nat)
    requires AllMade(made, children) && Geometry(children, len, chunk) && i < |children|
    ensures |Joined(made, children)| == len
    ensures Times(i, chunk) + children[i].len <= len
    ensures Joined(made, children)[Times(i, chunk)..Times(i, chunk) + children[i].len] == made[KeyOf(children[i])]
  {
    hide Times, CeilDiv;
    JoinedLength(made, children, len, chunk);
    ChunksBefore(children, len, chunk, i);
    JoinedFull(made, children[..i], chunk);
    JoinedOneMore(made, children[..i], children[i]);
    assert children[..i] + [children[i]] == children[..i + 1];
    JoinedPrefix(made, children, i + 1);
    assert ChunkRef(children[i], i, len, chunk);
  }

  lemma {:induction false} JoinedLength(made: Objects, children: seq<Ref>, len: nat, chunk: nat)
    requires AllMade(made, children) && Geometry(children, len, chunk)
    ensures |Joined(made, children)| == len
  {
    hide Times, CeilDiv;
    CeilBounds(len, chunk);
    if children == [] { TimesZero(chunk); }
    if children != [] {
      var i := |children| - 1;
      ChunksBefore(children, len, chunk, i);
      JoinedFull(made, children[..i], chunk);
      assert ChunkRef(children[i], i, len, chunk);
    }
  }

  // ---- Reading a stream, as a function ----

  /** At most `max` bytes from `offset`, no further than the next chunk boundary. */
  function ReadSlice(content: Bytes, chunk: nat, offset: nat, max: nat): (r: Bytes)
    ensures offset <= |content| ==> r <= content[offset..]
    ensures chunk > 0 ==> (max > 0 && offset < |content| <==> r != [])
  {
    if max == 0 || offset >= |content| || chunk == 0 then []
    else
      var end := Min(offset + max, Min(offset - offset % chunk + chunk, |content|));
      assert content[offset..end] <= content[offset..];
      content[offset..end]
  }

  /** Successive reads, each starting where the previous one stopped. */
  function Drain(content: Bytes, chunk: nat, offset: nat, sizes: seq<nat>): Bytes
    decreases |sizes|
  {
    if sizes == [] then []
    else
      var r := ReadSlice(content, chunk, offset, sizes[0]);
      r + Drain(content, chunk, offset + |r|, sizes[1..])
  }

  /** Whatever sizes are asked for, successive reads follow the stream, and enough of them reach its end. */
  lemma {:induction false} DrainFollows(content: Bytes, chunk: nat, offset: nat, sizes: seq<nat>)
    requires chunk > 0 && offset <= |content|
    ensures Drain(content, chunk, offset, sizes) <= content[offset..]
    ensures (forall n | n in sizes :: n > 0) && |sizes| >= |content| - offset ==>
      Drain(content, chunk, offset, sizes) == content[offset..]
    decreases |sizes|
  {
    if sizes != [] {
      var r := ReadSlice(content, chunk, offset, sizes[0]);
      DrainFollows(content, chunk, offset + |r|, sizes[1..]);
      assert content[offset..] == r + content[offset + |r|..];
      if forall n | n in sizes :: n > 0 {
        assert sizes[0] in sizes;
        assert forall n | n in sizes[1..] :: n in sizes;
      }
    }
  }
}
