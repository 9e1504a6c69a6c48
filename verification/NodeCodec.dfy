/**
The durable encoding of a reference node: exact size arithmetic, a writer that
fills one buffer, and a reader that accepts exactly what the writer writes.
*/
module NodeCodec {
  import opened Wrappers
  import opened Words
  import opened Cbor

  const FORMAT_VERSION: nat := 1
  const DIGEST_LEN: nat := 32
  const UUID_LEN: nat := 16

  datatype Kind = Blob | Checkpoint | Node

  datatype Ref = Ref(kind: Kind, digest: Bytes, len: nat, storage: Bytes, count: nat)

  datatype NodeValue = NodeValue(payload: Bytes, children: seq<Ref>)

  /** Limits are machine words. */
  datatype Limits = Limits(maxObjectRefs: nat, maxObjectBytes: nat)

  ghost predicate ValidLimits(o: Limits) { o.maxObjectRefs <= U64_MAX && o.maxObjectBytes <= U64_MAX }

  function KindCode(kind: Kind): nat {
    match kind case Blob => 1 case Checkpoint => 2 case Node => 3
  }

  /** A digest, a storage identity and two 64-bit numbers. */
  ghost predicate Typed(r: Ref) {
    |r.digest| == DIGEST_LEN && |r.storage| == UUID_LEN && r.len <= U64_MAX && r.count <= U64_MAX
  }

  predicate ValidCount(r: Ref) {
    Countable(r.kind.Blob?, r.count)
  }

  /** What a reader demands of a child reference. */
  ghost predicate GoodChild(r: Ref, o: Limits) {
    Typed(r) && !r.kind.Checkpoint? && r.len <= o.maxObjectBytes && ValidCount(r)
  }

  ghost predicate GoodNode(n: NodeValue, o: Limits) {
    && |n.payload| <= U64_MAX
    && |n.children| <= o.maxObjectRefs
    && (forall r | r in n.children :: GoodChild(r, o))
  }

  // ---- The encoding ----

  /** One map field: its number, then an integer or a byte string. */
  function PutField(field: nat, v: nat, t: Bytes): Bytes { Put(Unsigned, field, Put(Unsigned, v, t)) }

  function PutBytesField(field: nat, b: Bytes, t: Bytes): Bytes { Put(Unsigned, field, PutBytes(b, t)) }

  function PutChild(r: Ref, t: Bytes): Bytes {
    Put(Map, 5, PutField(1, KindCode(r.kind), PutBytesField(2, r.digest, PutPlace(r.len, r.storage, r.count, t))))
  }

  /** The last three fields of a child: its length, where it is stored, and what it holds. */
  function PutPlace(len: nat, storage: Bytes, count: nat, t: Bytes): Bytes {
    PutField(3, len, PutBytesField(4, storage, PutField(5, count, t)))
  }

  function PutChildren(rs: seq<Ref>, t: Bytes): Bytes {
    if rs == [] then t else PutChild(rs[0], PutChildren(rs[1..], t))
  }

  /** The inner payload: format version, opaque bytes, children. */
  function EncodePayload(n: NodeValue): Bytes {
    PutFront(n.payload, |n.children|, PutChildren(n.children, []))
  }

  function PutFront(payload: Bytes, count: nat, t: Bytes): Bytes {
    Put(Map, 3,
        PutField(1, FORMAT_VERSION,
        PutBytesField(2, payload,
        Put(Unsigned, 3, Put(Array, count, t)))))
  }

  /** An envelope carries its content and the digest of the content. */
  function Seal(payload: Bytes, digest: Bytes): Bytes {
    Put(Map, 2, PutBytesField(1, payload, PutBytesField(2, digest, [])))
  }

  function Encode(n: NodeValue, hash: Bytes -> Bytes): Bytes {
    Seal(EncodePayload(n), hash(EncodePayload(n)))
  }

  // ---- Sizes ----

  datatype Dims = Dims(len: nat, count: nat)

  function ChildSize(d: Dims): nat { 58 + CborHeadLen(d.len) + CborHeadLen(d.count) }

  function ChildrenSize(ds: seq<Dims>): nat {
    if ds == [] then 0 else ChildrenSize(ds[..|ds| - 1]) + ChildSize(ds[|ds| - 1])
  }

  function InnerSize(payloadBytes: nat, ds: seq<Dims>): nat {
    5 + CborHeadLen(payloadBytes) + payloadBytes + CborHeadLen(|ds|) + ChildrenSize(ds)
  }

  function EncodedSize(payloadBytes: nat, ds: seq<Dims>): nat {
    37 + CborHeadLen(InnerSize(payloadBytes, ds)) + InnerSize(payloadBytes, ds)
  }

  function DimsOf(rs: seq<Ref>): seq<Dims> {
    if rs == [] then [] else DimsOf(rs[..|rs| - 1]) + [Dims(rs[|rs| - 1].len, rs[|rs| - 1].count)]
  }

  /** Addition on machine words. */
  function CheckedAdd(a: nat, b: nat): Option<nat> {
    if a + b <= U64_MAX then Some(a + b) else None
  }

  /** The size of a node before it is encoded, with every sum checked for overflow. */
  method NodeSize(payloadBytes: nat, children: seq<Dims>, o: Limits) returns (r: Result<nat>)
    requires ValidLimits(o)
    ensures r.Ok? <==> |children| <= o.maxObjectRefs && EncodedSize(payloadBytes, children) <= o.maxObjectBytes
    ensures r.Ok? ==> r.value == EncodedSize(payloadBytes, children)
  {
    var count, childrenLen := 0, 0;
    while count < |children|
      invariant count <= |children| && count <= o.maxObjectRefs
      invariant childrenLen == ChildrenSize(children[..count]) <= U64_MAX
    {
      assert children[..count + 1][..count] == children[..count];
      SizePrefix(children, count + 1);
      if count + 1 > o.maxObjectRefs {
        return Err(LimitExceeded);
      }
      var child := children[count];
      var sum := CheckedAdd(childrenLen, 58 + CborHeadLen(child.len) + CborHeadLen(child.count));
      if sum.None? {
        return Err(LimitExceeded);
      }
      childrenLen := sum.value;
      count := count + 1;
    }
    assert children[..count] == children;
    TotalOfFive(5, CborHeadLen(payloadBytes), payloadBytes, CborHeadLen(count), childrenLen);
    var inner := CheckedSum([5, CborHeadLen(payloadBytes), payloadBytes, CborHeadLen(count), childrenLen]);
    if inner.None? {
      return Err(LimitExceeded);
    }
    TotalOfFive(37, CborHeadLen(inner.value), inner.value, 0, 0);
    var encoded := CheckedSum([37, CborHeadLen(inner.value), inner.value]);
    if encoded.None? || encoded.value > o.maxObjectBytes {
      return Err(LimitExceeded);
    }
    r := Ok(encoded.value);
  }

  lemma {:induction false} SizePrefix(ds: seq<Dims>, n: nat)
    requires n <= |ds|
    ensures ChildrenSize(ds[..n]) <= ChildrenSize(ds)
  {
    if n < |ds| {
      SizePrefix(ds[..|ds| - 1], n);
      assert ds[..|ds| - 1][..n] == ds[..n];
    } else {
      assert ds[..n] == ds;
    }
  }

  /** Adds left to right from zero, as long as every partial sum fits. */
  function CheckedSum(xs: seq<nat>): (r: Option<nat>)
    ensures r == if Total(xs) <= U64_MAX then Some(Total(xs)) else None
  {
    if xs == [] then Some(0)
    else
      var sum :- CheckedSum(xs[..|xs| - 1]);
      CheckedAdd(sum, xs[|xs| - 1])
  }

  function Total(xs: seq<nat>): nat {
    if xs == [] then 0 else Total(xs[..|xs| - 1]) + xs[|xs| - 1]
  }

  lemma {:induction false} TotalMore(xs: seq<nat>, x: nat)
    ensures Total(xs + [x]) == Total(xs) + x
  {
    assert (xs + [x])[..|xs|] == xs;
  }

  lemma {:induction false} TotalOfFive(a: nat, b: nat, c: nat, d: nat, e: nat)
    ensures Total([a, b, c]) == a + b + c
    ensures Total([a, b, c, d, e]) == a + b + c + d + e
  {
    TotalMore([], a);
    assert [] + [a] == [a] && [a] + [b] == [a, b];
    TotalMore([a], b);
    assert [a, b] + [c] == [a, b, c];
    TotalMore([a, b], c);
    assert [a, b, c] + [d] == [a, b, c, d];
    TotalMore([a, b, c], d);
    assert [a, b, c, d] + [e] == [a, b, c, d, e];
    TotalMore([a, b, c, d], e);
  }

  // ---- Size lemmas ----

  lemma {:induction false} PutChildAppends(r: Ref, t: Bytes)
    ensures PutChild(r, t) == PutChild(r, []) + t
  {
    var a := PutField(5, r.count, []);
    assert PutField(5, r.count, t) == a + t;
    var b := PutBytesField(4, r.storage, a);
    assert PutBytesField(4, r.storage, a + t) == b + t;
    var c := PutField(3, r.len, b);
    assert PutField(3, r.len, b + t) == c + t;
    var d := PutBytesField(2, r.digest, c);
    assert PutBytesField(2, r.digest, c + t) == d + t;
  }

  lemma {:induction false} PutChildLength(r: Ref, t: Bytes)
    requires |r.digest| == DIGEST_LEN && |r.storage| == UUID_LEN
    ensures |PutChild(r, t)| == ChildSize(Dims(r.len, r.count)) + |t|
  {
  }

  lemma {:induction false} Assoc(a: Bytes, b: Bytes, c: Bytes)
    ensures a + (b + c) == (a + b) + c
  {
  }

  /** Writing one child in front of a longer remainder. */
  lemma {:induction false} PutChildSplits(r: Ref, a: Bytes, b: Bytes)
    ensures PutChild(r, a + b) == PutChild(r, a) + b
  {
    PutChildAppends(r, a + b);
    PutChildAppends(r, a);
    Assoc(PutChild(r, []), a, b);
  }

  lemma {:induction false} PutChildrenAppends(rs: seq<Ref>, t: Bytes)
    ensures PutChildren(rs, t) == PutChildren(rs, []) + t
  {
    if rs == [] {
      assert [] + t == t;
    } else {
      PutChildrenAppends(rs[1..], t);
      PutChildSplits(rs[0], PutChildren(rs[1..], []), t);
    }
  }

  /** Writing one more child appends its encoding. */
  lemma {:induction false} OneMoreChild(rs: seq<Ref>, r: Ref)
    ensures PutChildren(rs + [r], []) == PutChildren(rs, []) + PutChild(r, [])
  {
    if rs == [] {
      assert rs + [r] == [r] && [r][1..] == [];
    } else {
      assert (rs + [r])[1..] == rs[1..] + [r];
      OneMoreChild(rs[1..], r);
      PutChildSplits(rs[0], PutChildren(rs[1..], []), PutChild(r, []));
    }
  }

  lemma {:induction false} ChildrenLength(rs: seq<Ref>)
    requires forall r | r in rs :: Typed(r)
    ensures |PutChildren(rs, [])| == ChildrenSize(DimsOf(rs)) && |DimsOf(rs)| == |rs|
  {
    if rs != [] {
      var init, r := rs[..|rs| - 1], rs[|rs| - 1];
      assert rs == init + [r] && r in rs && Typed(r);
      ChildrenLength(init);
      OneMoreChild(init, r);
      PutChildLength(r, []);
      assert DimsOf(rs)[..|init|] == DimsOf(init);
    }
  }

  /** The declared size is the length of the encoding, for every node. */
  lemma {:induction false} SizeIsExact(n: NodeValue, hash: Bytes -> Bytes)
    requires (forall r | r in n.children :: Typed(r)) && |hash(EncodePayload(n))| == DIGEST_LEN
    ensures |EncodePayload(n)| == InnerSize(|n.payload|, DimsOf(n.children))
    ensures |Encode(n, hash)| == EncodedSize(|n.payload|, DimsOf(n.children))
  {
    ChildrenLength(n.children);
  }

  // ---- Writing ----

  /** Fills one buffer; fails exactly when the node has too many children or is too large. */
  method EncodeNode(n: NodeValue, o: Limits, hash: Bytes -> Bytes) returns (r: Result<Bytes>)
    requires ValidLimits(o) && (forall c | c in n.children :: Typed(c))
    requires |hash(EncodePayload(n))| == DIGEST_LEN
    ensures r.Ok? <==>
      |n.children| <= o.maxObjectRefs && EncodedSize(|n.payload|, DimsOf(n.children)) <= o.maxObjectBytes
    ensures r.Ok? ==> r.value == Encode(n, hash) && |r.value| == EncodedSize(|n.payload|, DimsOf(n.children))
  {
    SizeIsExact(n, hash);
    ChildrenLength(n.children);
    var size := NodeSize(|n.payload|, DimsOf(n.children), o);
    if size.Err? {
      return Err(size.error);
    }
    var inner := InnerSize(|n.payload|, DimsOf(n.children));
    var start := Head(Map, 2) + Head(Unsigned, 1) + Head(ByteString, inner);
    var body := EncodeBody(n);
    var digest := hash(body);
    var buffer := start + body + Head(Unsigned, 2) + Head(ByteString, |digest|) + digest;
    SealAppends(body, digest);
    r := Ok(buffer);
  }

  lemma {:induction false} SealAppends(payload: Bytes, digest: Bytes)
    ensures Head(Map, 2) + Head(Unsigned, 1) + Head(ByteString, |payload|) + payload
            + Head(Unsigned, 2) + Head(ByteString, |digest|) + digest == Seal(payload, digest)
  {
    var end := PutBytesField(2, digest, []);
    assert end == Head(Unsigned, 2) + Head(ByteString, |digest|) + digest;
    assert Seal(payload, digest) == Head(Map, 2) + Head(Unsigned, 1) + Head(ByteString, |payload|) + payload + end;
  }

  method EncodeBody(n: NodeValue) returns (buffer: Bytes)
    ensures buffer == EncodePayload(n)
  {
    hide PutChild, PutFront, Head;
    buffer := Head(Map, 3) + Head(Unsigned, 1) + Head(Unsigned, FORMAT_VERSION);
    buffer := buffer + Head(Unsigned, 2) + Head(ByteString, |n.payload|) + n.payload;
    buffer := buffer + Head(Unsigned, 3) + Head(Array, |n.children|);
    var start := buffer;
    var i := 0;
    while i < |n.children|
      invariant i <= |n.children|
      invariant buffer == start + PutChildren(n.children[..i], [])
    {
      OneMoreChild(n.children[..i], n.children[i]);
      assert n.children[..i] + [n.children[i]] == n.children[..i + 1];
      Assoc(start, PutChildren(n.children[..i], []), PutChild(n.children[i], []));
      buffer := buffer + PutChild(n.children[i], []);
      i := i + 1;
    }
    assert n.children[..i] == n.children;
    PayloadAppends(n.payload, |n.children|, PutChildren(n.children, []));
  }

  lemma {:induction false} PayloadAppends(payload: Bytes, count: nat, t: Bytes)
    ensures Head(Map, 3) + Head(Unsigned, 1) + Head(Unsigned, FORMAT_VERSION)
            + Head(Unsigned, 2) + Head(ByteString, |payload|) + payload
            + Head(Unsigned, 3) + Head(Array, count) + t
            == PutFront(payload, count, t)
  {
    var end := Put(Unsigned, 3, Put(Array, count, t));
    assert end == Head(Unsigned, 3) + Head(Array, count) + t;
    var mid := PutBytesField(2, payload, end);
    assert mid == Head(Unsigned, 2) + Head(ByteString, |payload|) + payload + end;
  }

  // ---- Reading ----

  /** What a malformed node may be reported as. */
  predicate ReadError(e: Error) { e == InvalidFormat || e == LimitExceeded || e == CorruptObject }

  function OrInvalid<T>(o: Option<T>): Result<T> {
    match o case Some(x) => Ok(x) case None => Err(InvalidFormat)
  }

  /** Reads a head that must carry one particular value. */
  function Expect(s: Bytes, major: Major, v: nat): (r: Result<Bytes>)
    ensures r.Err? ==> r.error == InvalidFormat
    ensures r.Ok? ==> s == Put(major, v, r.value)
  {
    var (x, t) :- OrInvalid(ExactHead(s, major, U64_MAX));
    if x == v then Ok(t) else Err(InvalidFormat)
  }

  lemma {:induction false} ExpectReads(major: Major, v: nat, t: Bytes)
    requires v <= U64_MAX
    ensures Expect(Put(major, v, t), major, v) == Ok(t)
  {
    ExactHeadReads(major, v, U64_MAX, t);
  }

  function KindOf(code: nat): Result<Kind> {
    if code == 1 then Ok(Blob) else if code == 3 then Ok(Node) else Err(InvalidFormat)
  }

  function ParseField(s: Bytes, field: nat, max: nat): (r: Result<(nat, Bytes)>)
    ensures r.Err? ==> r.error == InvalidFormat
    ensures r.Ok? ==> s == PutField(field, r.value.0, r.value.1) && r.value.0 <= max
  {
    var t :- Expect(s, Unsigned, field);
    OrInvalid(ExactHead(t, Unsigned, max))
  }

  function ParseBytesField(s: Bytes, field: nat): (r: Result<(Bytes, Bytes)>)
    ensures r.Err? ==> r.error == InvalidFormat
    ensures r.Ok? ==> s == PutBytesField(field, r.value.0, r.value.1)
  {
    var t :- Expect(s, Unsigned, field);
    OrInvalid(ExactBytes(t))
  }

  lemma {:induction false} FieldReads(field: nat, v: nat, max: nat, t: Bytes)
    requires field <= U64_MAX && v <= max <= U64_MAX
    ensures ParseField(PutField(field, v, t), field, max) == Ok((v, t))
  {
    ExpectReads(Unsigned, field, Put(Unsigned, v, t));
    ExactHeadReads(Unsigned, v, max, t);
  }

  lemma {:induction false} BytesFieldReads(field: nat, b: Bytes, t: Bytes)
    requires field <= U64_MAX && |b| <= U64_MAX
    ensures ParseBytesField(PutBytesField(field, b, t), field) == Ok((b, t))
  {
    ExpectReads(Unsigned, field, PutBytes(b, t));
    ExactBytesReads(b, t);
  }

  function ParsePlace(s: Bytes, o: Limits): (r: Result<(nat, Bytes, nat, Bytes)>)
    ensures r.Err? ==> ReadError(r.error)
    ensures r.Ok? ==> s == PutPlace(r.value.0, r.value.1, r.value.2, r.value.3)
    ensures r.Ok? ==> r.value.0 <= o.maxObjectBytes && r.value.0 <= U64_MAX && r.value.2 <= U64_MAX
  {
    var (len, s1) :- ParseField(s, 3, U64_MAX);
    if len > o.maxObjectBytes then Err(LimitExceeded) else
    var (storage, s2) :- ParseBytesField(s1, 4);
    var (count, s3) :- ParseField(s2, 5, U64_MAX);
    Ok((len, storage, count, s3))
  }

  lemma {:induction false} PlaceReads(len: nat, storage: Bytes, count: nat, o: Limits, t: Bytes)
    requires len <= o.maxObjectBytes && len <= U64_MAX && |storage| <= U64_MAX && count <= U64_MAX
    ensures ParsePlace(PutPlace(len, storage, count, t), o) == Ok((len, storage, count, t))
  {
    FieldReads(3, len, U64_MAX, PutBytesField(4, storage, PutField(5, count, t)));
    BytesFieldReads(4, storage, PutField(5, count, t));
    FieldReads(5, count, U64_MAX, t);
  }

  function ParseSort(s: Bytes): (r: Result<(Kind, Bytes, Bytes)>)
    ensures r.Err? ==> r.error == InvalidFormat
    ensures r.Ok? ==>
      s == Put(Map, 5, PutField(1, KindCode(r.value.0), PutBytesField(2, r.value.1, r.value.2)))
      && !r.value.0.Checkpoint?
  {
    var s1 :- Expect(s, Map, 5);
    var (code, s2) :- ParseField(s1, 1, 0xff);
    var kind :- KindOf(code);
    var (digest, s3) :- ParseBytesField(s2, 2);
    Ok((kind, digest, s3))
  }

  lemma {:induction false} SortReads(kind: Kind, digest: Bytes, t: Bytes)
    requires !kind.Checkpoint? && |digest| <= U64_MAX
    ensures ParseSort(Put(Map, 5, PutField(1, KindCode(kind), PutBytesField(2, digest, t)))) == Ok((kind, digest, t))
  {
    ExpectReads(Map, 5, PutField(1, KindCode(kind), PutBytesField(2, digest, t)));
    FieldReads(1, KindCode(kind), 0xff, PutBytesField(2, digest, t));
    BytesFieldReads(2, digest, t);
  }

  function ParseChild(s: Bytes, o: Limits): (r: Result<(Ref, Bytes)>)
    ensures r.Err? ==> ReadError(r.error)
    ensures r.Ok? ==> s == PutChild(r.value.0, r.value.1) && GoodChild(r.value.0, o)
  {
    var (kind, digest, s1) :- ParseSort(s);
    var (len, storage, count, s2) :- ParsePlace(s1, o);
    var child := Ref(kind, digest, len, storage, count);
    if |storage| != UUID_LEN || |digest| != DIGEST_LEN then Err(InvalidFormat)
    else if !ValidCount(child) then Err(CorruptObject)
    else Ok((child, s2))
  }

  function ParseChildren(s: Bytes, count: nat, o: Limits): (r: Result<(seq<Ref>, Bytes)>)
    ensures r.Err? ==> ReadError(r.error)
    ensures r.Ok? ==> s == PutChildren(r.value.0, r.value.1) && |r.value.0| == count
    ensures r.Ok? ==> forall c | c in r.value.0 :: GoodChild(c, o)
    decreases count
  {
    if count == 0 then Ok(([], s))
    else
      var (child, t) :- ParseChild(s, o);
      var (rest, u) :- ParseChildren(t, count - 1, o);
      assert ([child] + rest)[1..] == rest;
      Ok(([child] + rest, u))
  }

  /** Everything before the children. */
  function ParseFront(s: Bytes): (r: Result<(Bytes, nat, Bytes)>)
    ensures r.Err? ==> r.error == InvalidFormat
    ensures r.Ok? ==> s == PutFront(r.value.0, r.value.1, r.value.2)
  {
    var s1 :- Expect(s, Map, 3);
    var (version, s2) :- ParseField(s1, 1, 0xffff_ffff);
    if version != FORMAT_VERSION then Err(InvalidFormat) else
    var (payload, s3) :- ParseBytesField(s2, 2);
    var s4 :- Expect(s3, Unsigned, 3);
    var (count, s5) :- OrInvalid(ExactHead(s4, Array, U64_MAX));
    Ok((payload, count, s5))
  }

  function ParsePayload(s: Bytes, o: Limits): (r: Result<NodeValue>)
    ensures r.Err? ==> ReadError(r.error)
    ensures r.Ok? ==> s == EncodePayload(r.value) && |r.value.children| <= o.maxObjectRefs
    ensures r.Ok? ==> forall c | c in r.value.children :: GoodChild(c, o)
  {
    var (payload, count, t) :- ParseFront(s);
    if count > o.maxObjectRefs then Err(LimitExceeded) else
    if count > |t| / 60 then Err(InvalidFormat) else
    var (children, rest) :- ParseChildren(t, count, o);
    if rest != [] then Err(InvalidFormat) else Ok(NodeValue(payload, children))
  }

  lemma {:induction false} ParseFrontReads(payload: Bytes, count: nat, t: Bytes)
    requires |payload| <= U64_MAX && count <= U64_MAX
    ensures ParseFront(PutFront(payload, count, t)) == Ok((payload, count, t))
  {
    var s3 := Put(Unsigned, 3, Put(Array, count, t));
    var s2 := PutBytesField(2, payload, s3);
    ExpectReads(Map, 3, PutField(1, FORMAT_VERSION, s2));
    FieldReads(1, FORMAT_VERSION, 0xffff_ffff, s2);
    BytesFieldReads(2, payload, s3);
    ExpectReads(Unsigned, 3, Put(Array, count, t));
    ExactHeadReads(Array, count, U64_MAX, t);
  }

  /** Every canonical child takes at least 60 bytes. */
  lemma {:induction false} ChildrenNeed60(ds: seq<Dims>)
    ensures ChildrenSize(ds) >= 60 * |ds|
  {
    if ds != [] { ChildrenNeed60(ds[..|ds| - 1]); }
  }

  function ParseEnvelope(s: Bytes, hash: Bytes -> Bytes): (r: Result<Bytes>)
    ensures r.Err? ==> ReadError(r.error)
    ensures r.Ok? ==> s == Seal(r.value, hash(r.value))
  {
    var s1 :- Expect(s, Map, 2);
    var (payload, s2) :- ParseBytesField(s1, 1);
    var (digest, s3) :- ParseBytesField(s2, 2);
    if s3 != [] || |digest| != DIGEST_LEN then Err(InvalidFormat)
    else if digest != hash(payload) then Err(CorruptObject)
    else Ok(payload)
  }

  lemma {:induction false} ParseEnvelopeReads(payload: Bytes, hash: Bytes -> Bytes)
    requires |payload| <= U64_MAX && |hash(payload)| == DIGEST_LEN
    ensures ParseEnvelope(Seal(payload, hash(payload)), hash) == Ok(payload)
  {
    var s2 := PutBytesField(2, hash(payload), []);
    ExpectReads(Map, 2, PutBytesField(1, payload, s2));
    BytesFieldReads(1, payload, s2);
    BytesFieldReads(2, hash(payload), []);
  }

  /** The whole reader as a function. */
  function Decode(s: Bytes, o: Limits, hash: Bytes -> Bytes): (r: Result<NodeValue>)
    ensures r.Err? ==> ReadError(r.error)
  {
    var payload :- ParseEnvelope(s, hash);
    ParsePayload(payload, o)
  }

  lemma {:induction false} SealIsLonger(payload: Bytes, digest: Bytes)
    ensures |payload| <= |Seal(payload, digest)|
  {
  }

  lemma {:induction false} PayloadIsLonger(n: NodeValue)
    ensures |n.payload| <= |EncodePayload(n)|
  {
  }

  // ---- Which error a written node meets ----

  /** The first child that a reader refuses decides. */
  function Refusal(rs: seq<Ref>, o: Limits): Option<Error> {
    if rs == [] then None
    else if rs[0].len > o.maxObjectBytes then Some(LimitExceeded)
    else if !ValidCount(rs[0]) then Some(CorruptObject)
    else Refusal(rs[1..], o)
  }

  ghost predicate Written(rs: seq<Ref>) {
    forall r | r in rs :: Typed(r) && !r.kind.Checkpoint?
  }

  lemma {:induction false} ChildVerdict(r: Ref, o: Limits, t: Bytes)
    requires Typed(r) && !r.kind.Checkpoint?
    ensures ParseChild(PutChild(r, t), o) ==
            if r.len > o.maxObjectBytes then Err(LimitExceeded)
            else if !ValidCount(r) then Err(CorruptObject)
            else Ok((r, t))
  {
    SortReads(r.kind, r.digest, PutPlace(r.len, r.storage, r.count, t));
    FieldReads(3, r.len, U64_MAX, PutBytesField(4, r.storage, PutField(5, r.count, t)));
    if r.len <= o.maxObjectBytes { PlaceReads(r.len, r.storage, r.count, o, t); }
  }

  lemma {:induction false} ChildrenVerdict(rs: seq<Ref>, o: Limits, t: Bytes)
    requires Written(rs)
    ensures ParseChildren(PutChildren(rs, t), |rs|, o) ==
            match Refusal(rs, o) case None => Ok((rs, t)) case Some(e) => Err(e)
  {
    hide ParseChild, PutChild;
    if rs != [] {
      assert rs[0] in rs;
      ChildVerdict(rs[0], o, PutChildren(rs[1..], t));
      ChildrenVerdict(rs[1..], o, t);
      assert rs == [rs[0]] + rs[1..];
    }
  }

  /**
  A written node is read back, or refused for too many children or for its first bad child;
  in particular the 60-byte check never refuses one.
  */
  lemma {:induction false} DecodeVerdict(n: NodeValue, o: Limits, hash: Bytes -> Bytes)
    requires Written(n.children) && |hash(EncodePayload(n))| == DIGEST_LEN && |Encode(n, hash)| <= U64_MAX
    ensures Decode(Encode(n, hash), o, hash) ==
            if |n.children| > o.maxObjectRefs then Err(LimitExceeded)
            else match Refusal(n.children, o) case None => Ok(n) case Some(e) => Err(e)
  {
    hide ParseFront, ParseChildren, PutFront, PutChildren, ParseEnvelope, Refusal;
    var t := PutChildren(n.children, []);
    SealIsLonger(EncodePayload(n), hash(EncodePayload(n)));
    PayloadIsLonger(n);
    ParseEnvelopeReads(EncodePayload(n), hash);
    ChildrenLength(n.children);
    ChildrenNeed60(DimsOf(n.children));
    FrontIsLonger(n.payload, |n.children|, t);
    ParseFrontReads(n.payload, |n.children|, t);
    ChildrenVerdict(n.children, o, []);
  }

  lemma {:induction false} FrontIsLonger(payload: Bytes, count: nat, t: Bytes)
    ensures |t| <= |PutFront(payload, count, t)|
  {
  }

  /**
  Reading and writing are inverse, and a node has exactly one accepted encoding: the reader
  returns `n` for `s` if and only if `n` is good and `s` is its encoding.
  */
  lemma {:induction false} DecodeIsExact(s: Bytes, n: NodeValue, o: Limits, hash: Bytes -> Bytes)
    requires ValidLimits(o) && |s| <= U64_MAX && |hash(EncodePayload(n))| == DIGEST_LEN
    ensures Decode(s, o, hash) == Ok(n) <==> GoodNode(n, o) && s == Encode(n, hash)
  {
    if Decode(s, o, hash) == Ok(n) {
      SealIsLonger(EncodePayload(n), hash(EncodePayload(n)));
      PayloadIsLonger(n);
    }
    if GoodNode(n, o) && s == Encode(n, hash) {
      DecodeVerdict(n, o, hash);
      GoodIsNotRefused(n.children, o);
    }
  }

  lemma {:induction false} GoodIsNotRefused(rs: seq<Ref>, o: Limits)
    requires forall r | r in rs :: GoodChild(r, o)
    ensures Refusal(rs, o).None?
  {
    if rs != [] {
      assert GoodChild(rs[0], o);
      GoodIsNotRefused(rs[1..], o);
    }
  }

  // ---- Reading in place ----

  method TakeExpected(c: Cursor, major: Major, v: nat) returns (ok: bool)
    requires c.Valid()
    modifies c
    ensures if ok then c.Valid() && Expect(old(c.rest), major, v) == Ok(c.rest)
            else Expect(old(c.rest), major, v) == Err(InvalidFormat)
  {
    var x := c.Take(major, U64_MAX);
    ok := x == Some(v);
  }

  method TakeField(c: Cursor, field: nat, max: nat) returns (r: Option<nat>)
    requires c.Valid()
    modifies c
    ensures r.Some? ==> c.Valid() && ParseField(old(c.rest), field, max) == Ok((r.value, c.rest))
    ensures r.None? ==> ParseField(old(c.rest), field, max) == Err(InvalidFormat)
  {
    var ok := TakeExpected(c, Unsigned, field);
    if !ok {
      return None;
    }
    r := c.Take(Unsigned, max);
  }

  method TakeBytesField(c: Cursor, field: nat) returns (r: Option<Bytes>)
    requires c.Valid()
    modifies c
    ensures r.Some? ==> c.Valid() && ParseBytesField(old(c.rest), field) == Ok((r.value, c.rest))
    ensures r.None? ==> ParseBytesField(old(c.rest), field) == Err(InvalidFormat)
  {
    var ok := TakeExpected(c, Unsigned, field);
    if !ok {
      return None;
    }
    r := c.TakeBytes();
  }

  method TakeSort(c: Cursor) returns (r: Option<(Kind, Bytes)>)
    requires c.Valid()
    modifies c
    ensures r.Some? ==> c.Valid() && ParseSort(old(c.rest)) == Ok((r.value.0, r.value.1, c.rest))
    ensures r.None? ==> ParseSort(old(c.rest)) == Err(InvalidFormat)
  {
    var ok := TakeExpected(c, Map, 5);
    if !ok {
      return None;
    }
    var code := TakeField(c, 1, 0xff);
    if code.None? || KindOf(code.value).Err? {
      return None;
    }
    var digest := TakeBytesField(c, 2);
    if digest.None? {
      return None;
    }
    r := Some((KindOf(code.value).value, digest.value));
  }

  method TakePlace(c: Cursor, o: Limits) returns (r: Result<(nat, Bytes, nat)>)
    requires c.Valid()
    modifies c
    ensures r.Ok? ==> c.Valid() && ParsePlace(old(c.rest), o) == Ok((r.value.0, r.value.1, r.value.2, c.rest))
    ensures r.Err? ==> ParsePlace(old(c.rest), o) == Err(r.error)
  {
    var len := TakeField(c, 3, U64_MAX);
    if len.None? {
      return Err(InvalidFormat);
    }
    if len.value > o.maxObjectBytes {
      return Err(LimitExceeded);
    }
    var storage := TakeBytesField(c, 4);
    if storage.None? {
      return Err(InvalidFormat);
    }
    var count := TakeField(c, 5, U64_MAX);
    if count.None? {
      return Err(InvalidFormat);
    }
    r := Ok((len.value, storage.value, count.value));
  }

  method TakeChild(c: Cursor, o: Limits) returns (r: Result<Ref>)
    requires c.Valid()
    modifies c
    ensures r.Ok? ==> c.Valid() && ParseChild(old(c.rest), o) == Ok((r.value, c.rest))
    ensures r.Err? ==> ParseChild(old(c.rest), o) == Err(r.error)
  {
    var sort := TakeSort(c);
    if sort.None? {
      return Err(InvalidFormat);
    }
    var place := TakePlace(c, o);
    if place.Err? {
      return Err(place.error);
    }
    var child := Ref(sort.value.0, sort.value.1, place.value.0, place.value.1, place.value.2);
    if |child.storage| != UUID_LEN || |child.digest| != DIGEST_LEN {
      return Err(InvalidFormat);
    }
    if !ValidCount(child) {
      return Err(CorruptObject);
    }
    r := Ok(child);
  }

  /** What remains to be read once `done` has been read. */
  function Resumed(done: seq<Ref>, rest: Bytes, left: nat, o: Limits): Result<(seq<Ref>, Bytes)> {
    var (more, t) :- ParseChildren(rest, left, o);
    Ok((done + more, t))
  }

  lemma {:induction false} ResumedStep(done: seq<Ref>, rest: Bytes, left: nat, o: Limits)
    requires left > 0
    ensures ParseChild(rest, o).Err? ==> Resumed(done, rest, left, o) == Err(ParseChild(rest, o).error)
    ensures ParseChild(rest, o).Ok? ==>
      var (child, t) := ParseChild(rest, o).value;
      Resumed(done, rest, left, o) == Resumed(done + [child], t, left - 1, o)
  {
    hide ParseChild;
    if ParseChild(rest, o).Ok? {
      var (child, t) := ParseChild(rest, o).value;
      var more := ParseChildren(t, left - 1, o);
      if more.Ok? {
        assert done + ([child] + more.value.0) == (done + [child]) + more.value.0;
      }
    }
  }

  method TakeChildren(c: Cursor, count: nat, o: Limits) returns (r: Result<seq<Ref>>)
    requires c.Valid()
    modifies c
    ensures r.Ok? ==> c.Valid() && ParseChildren(old(c.rest), count, o) == Ok((r.value, c.rest))
    ensures r.Err? ==> ParseChildren(old(c.rest), count, o) == Err(r.error)
  {
    hide ParseChild;
    var children: seq<Ref> := [];
    assert Resumed([], c.rest, count, o) == ParseChildren(c.rest, count, o) by {
      assert forall s: seq<Ref> :: [] + s == s;
    }
    for i := 0 to count
      invariant c.Valid()
      invariant Resumed(children, c.rest, count - i, o) == ParseChildren(old(c.rest), count, o)
    {
      ResumedStep(children, c.rest, count - i, o);
      var child := TakeChild(c, o);
      if child.Err? {
        return Err(child.error);
      }
      children := children + [child.value];
    }
    assert children + [] == children;
    r := Ok(children);
  }

  method TakeFront(c: Cursor) returns (r: Option<(Bytes, nat)>)
    requires c.Valid()
    modifies c
    ensures r.Some? ==> c.Valid() && ParseFront(old(c.rest)) == Ok((r.value.0, r.value.1, c.rest))
    ensures r.None? ==> ParseFront(old(c.rest)) == Err(InvalidFormat)
  {
    var ok := TakeExpected(c, Map, 3);
    if !ok {
      return None;
    }
    var version := TakeField(c, 1, 0xffff_ffff);
    if version != Some(FORMAT_VERSION) {
      return None;
    }
    var payload := TakeBytesField(c, 2);
    if payload.None? {
      return None;
    }
    ok := TakeExpected(c, Unsigned, 3);
    if !ok {
      return None;
    }
    var count := c.Take(Array, U64_MAX);
    if count.None? {
      return None;
    }
    r := Some((payload.value, count.value));
  }

  /** The checked content of an envelope; a wrong digest is corruption, anything else a format error. */
  method OpenEnvelope(bytes: Bytes, hash: Bytes -> Bytes) returns (r: Result<Bytes>)
    ensures r == ParseEnvelope(bytes, hash)
    ensures r == Err(CorruptObject) ==> exists p, d :: bytes == Seal(p, d) && |d| == DIGEST_LEN && d != hash(p)
  {
    var c := new Cursor(bytes);
    var ok := TakeExpected(c, Map, 2);
    if !ok {
      return Err(InvalidFormat);
    }
    var payload := TakeBytesField(c, 1);
    if payload.None? {
      return Err(InvalidFormat);
    }
    var digest := TakeBytesField(c, 2);
    if digest.None? || c.pos != |bytes| || |digest.value| != DIGEST_LEN {
      return Err(InvalidFormat);
    }
    assert c.rest == [];
    if digest.value != hash(payload.value) {
      assert bytes == Seal(payload.value, digest.value);
      return Err(CorruptObject);
    }
    r := Ok(payload.value);
  }

  /** The streaming reader computes exactly the reader function, with its errors. */
  method DecodeNode(bytes: Bytes, o: Limits, hash: Bytes -> Bytes) returns (r: Result<NodeValue>)
    ensures r == Decode(bytes, o, hash)
  {
    hide ParseEnvelope, ParseFront, ParseChildren;
    var inner := OpenEnvelope(bytes, hash);
    if inner.Err? {
      return Err(inner.error);
    }
    var c := new Cursor(inner.value);
    var front := TakeFront(c);
    if front.None? {
      return Err(InvalidFormat);
    }
    var (payload, count) := front.value;
    if count > o.maxObjectRefs {
      return Err(LimitExceeded);
    }
    if count > (|inner.value| - c.pos) / 60 {
      return Err(InvalidFormat);
    }
    var children := TakeChildren(c, count, o);
    if children.Err? {
      return Err(children.error);
    }
    if c.pos != |inner.value| {
      return Err(InvalidFormat);
    }
    r := Ok(NodeValue(payload, children.value));
  }
}
