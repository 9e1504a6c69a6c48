/**
Which bytes are written. Round trips leave that open, so here the encodings are compared with a
layout that spells out every fixed byte, for all values, and with one node and one descriptor in
full.
*/
module WireFormat {
  import opened Words
  import opened Cbor
  import opened NodeCodec
  import opened ByteGeometry

  // ---- Numbers ----

  lemma {:induction false} DivTwice(v: nat, d: nat)
    requires d > 0
    ensures v / 256 / d == v / (256 * d)
  {
    var q, r := v / 256 / d, v / 256 % d;
    assert v / 256 == q * d + r;
    assert 256 * (q * d) == q * (256 * d);
    QuotientIs(v, 256 * d, q, 256 * r + v % 256);
  }

  lemma {:induction false} QuotientIs(v: nat, d: nat, q: nat, r: nat)
    requires r < d && v == q * d + r
    ensures v / d == q
  {
    assert v == v / d * d + v % d;
    if v / d < q {
      Products(v / d, q, d);
    } else if q < v / d {
      Products(q, v / d, d);
    }
  }

  lemma {:induction false} Products(a: nat, b: nat, d: nat)
    requires a < b
    ensures a * d + d <= b * d
  {
    assert b * d == a * d + d + (b - a - 1) * d;
  }

  /** Numbers are in network byte order: byte `i` is the digit of the power that belongs there. */
  lemma {:induction false} BigEndianDigit(v: nat, width: nat, i: nat)
    requires i < width
    ensures Pow256(width - 1 - i) > 0 && BigEndian(v, width)[i] as nat == v / Pow256(width - 1 - i) % 256
    decreases width
  {
    PowOrder(0, width - 1 - i);
    if i < width - 1 {
      BigEndianDigit(v / 256, width - 1, i);
      DivTwice(v, Pow256(width - 2 - i));
    }
  }

  lemma {:induction false} SmallPowers()
    ensures Pow256(0) == 1 && Pow256(1) == 0x100 && Pow256(2) == 0x1_0000 && Pow256(3) == 0x100_0000
    ensures Pow256(4) == 0x1_0000_0000 && Pow256(5) == 0x100_0000_0000 && Pow256(6) == 0x1_0000_0000_0000
    ensures Pow256(7) == 0x100_0000_0000_0000
  {
    assert Pow256(2) == 0x1_0000;
    assert Pow256(4) == 256 * (256 * Pow256(2));
    assert Pow256(6) == 256 * (256 * Pow256(4));
  }

  function Digit(v: nat, d: nat): byte
    requires d > 0
  {
    (v / d % 256) as byte
  }

  function TwoBytes(v: nat): Bytes { [Digit(v, 0x100), Digit(v, 1)] }

  function FourBytes(v: nat): Bytes { [Digit(v, 0x100_0000), Digit(v, 0x1_0000), Digit(v, 0x100), Digit(v, 1)] }

  function EightBytes(v: nat): Bytes {
    [Digit(v, 0x100_0000_0000_0000), Digit(v, 0x1_0000_0000_0000), Digit(v, 0x100_0000_0000), Digit(v, 0x1_0000_0000)]
    + FourBytes(v)
  }

  lemma {:induction false} WordBytes(v: nat)
    ensures BigEndian(v, 1) == [Digit(v, 1)]
    ensures BigEndian(v, 2) == TwoBytes(v)
    ensures BigEndian(v, 4) == FourBytes(v)
    ensures BigEndian(v, 8) == EightBytes(v)
  {
    hide BigEndian, Pow256;
    SmallPowers();
    forall width, i | 0 <= i < width
      ensures Pow256(width - 1 - i) > 0 && BigEndian(v, width)[i] == Digit(v, Pow256(width - 1 - i))
    {
      BigEndianDigit(v, width, i);
    }
  }

  /** The head of RFC 8949 section 3 whose major type is `code` in its first byte. */
  function WireHead(code: nat, v: nat): Bytes
    requires code <= 0xe0
  {
    if v < 24 then [(code + v) as byte]
    else if v < 0x100 then [(code + 24) as byte, v as byte]
    else if v < 0x1_0000 then [(code + 25) as byte] + TwoBytes(v)
    else if v < 0x1_0000_0000 then [(code + 26) as byte] + FourBytes(v)
    else [(code + 27) as byte] + EightBytes(v)
  }

  lemma {:induction false} HeadIsWire(v: nat)
    ensures Head(Unsigned, v) == WireHead(0x00, v)
    ensures Head(ByteString, v) == WireHead(0x40, v)
    ensures Head(Array, v) == WireHead(0x80, v)
    ensures Head(Map, v) == WireHead(0xa0, v)
  {
    hide EightBytes, FourBytes, TwoBytes;
    WordBytes(v);
    assert BigEndian(0, 0) == [];
  }

  // ---- Nodes ----

  function WireKind(kind: Kind): byte {
    match kind case Blob => 0x01 case Checkpoint => 0x02 case Node => 0x03
  }

  function WireChild(r: Ref): Bytes {
    [0xa5, 0x01, WireKind(r.kind), 0x02, 0x58, 0x20] + r.digest + WirePlace(r.len, r.storage, r.count)
  }

  function WireChildren(rs: seq<Ref>): Bytes {
    if rs == [] then [] else WireChild(rs[0]) + WireChildren(rs[1..])
  }

  function WireInner(n: NodeValue): Bytes {
    [0xa3, 0x01, 0x01, 0x02] + WireHead(0x40, |n.payload|) + n.payload
    + [0x03] + WireHead(0x80, |n.children|) + WireChildren(n.children)
  }

  function WireNode(inner: Bytes, digest: Bytes): Bytes {
    [0xa2, 0x01] + WireHead(0x40, |inner|) + inner + [0x02, 0x58, 0x20] + digest
  }

  function WirePlace(len: nat, storage: Bytes, count: nat): Bytes {
    [0x03] + WireHead(0x00, len) + [0x04, 0x50] + storage + [0x05] + WireHead(0x00, count)
  }

  lemma {:induction false} PlaceIsWire(len: nat, storage: Bytes, count: nat, t: Bytes)
    requires |storage| == UUID_LEN
    ensures PutPlace(len, storage, count, t) == WirePlace(len, storage, count) + t
  {
    hide Head, WireHead;
    HeadIsWire(len);
    HeadIsWire(count);
    FixedHeads();
  }

  lemma {:induction false} ChildIsWire(r: Ref, t: Bytes)
    requires |r.digest| == DIGEST_LEN && |r.storage| == UUID_LEN
    ensures PutChild(r, t) == WireChild(r) + t
  {
    hide Head, PutPlace, WirePlace;
    PlaceIsWire(r.len, r.storage, r.count, t);
    FixedHeads();
  }

  /** Every number that is the same in all nodes. */
  lemma {:induction false} FixedHeads()
    ensures Head(Unsigned, 1) == [0x01] && Head(Unsigned, 2) == [0x02] && Head(Unsigned, 3) == [0x03]
    ensures Head(Unsigned, 4) == [0x04] && Head(Unsigned, 5) == [0x05]
    ensures Head(Map, 2) == [0xa2] && Head(Map, 3) == [0xa3] && Head(Map, 5) == [0xa5]
    ensures Head(ByteString, 16) == [0x50] && Head(ByteString, 32) == [0x58, 0x20]
  {
    HeadIsWire(1);
    HeadIsWire(2);
    HeadIsWire(3);
    HeadIsWire(4);
    HeadIsWire(5);
    HeadIsWire(16);
    HeadIsWire(32);
  }

  ghost predicate Sized(rs: seq<Ref>) {
    forall r | r in rs :: |r.digest| == DIGEST_LEN && |r.storage| == UUID_LEN
  }

  lemma {:induction false} ChildrenAreWire(rs: seq<Ref>, t: Bytes)
    requires Sized(rs)
    ensures PutChildren(rs, t) == WireChildren(rs) + t
  {
    hide PutChild, WireChild;
    if rs != [] {
      assert rs[0] in rs;
      var child, rest := WireChild(rs[0]), rs[1..];
      ChildrenAreWire(rest, t);
      ChildIsWire(rs[0], PutChildren(rest, t));
      assert child + (WireChildren(rest) + t) == (child + WireChildren(rest)) + t;
    }
  }

  lemma {:induction false} InnerIsWire(n: NodeValue)
    requires Sized(n.children)
    ensures EncodePayload(n) == WireInner(n)
  {
    hide Head, WireHead, PutChildren, WireChildren;
    HeadIsWire(|n.payload|);
    HeadIsWire(|n.children|);
    FixedHeads();
    ChildrenAreWire(n.children, []);
    assert WireChildren(n.children) + [] == WireChildren(n.children);
  }

  /** Every node is written byte by byte as the layout says. */
  lemma {:induction false} EncodeIsWire(n: NodeValue, hash: Bytes -> Bytes)
    requires Sized(n.children) && |hash(WireInner(n))| == DIGEST_LEN
    ensures Encode(n, hash) == WireNode(WireInner(n), hash(WireInner(n)))
  {
    hide Head, WireHead, EncodePayload, WireInner;
    InnerIsWire(n);
    HeadIsWire(|WireInner(n)|);
    FixedHeads();
  }

  // ---- One node and one descriptor in full ----

  function Filled(n: nat, b: byte): (r: Bytes)
    ensures |r| == n
  {
    seq(n, _ => b)
  }

  /** A payload of 300 bytes and a child of each kind. */
  function Sample(): NodeValue {
    NodeValue(Filled(300, 0x77),
              [Ref(Blob, Filled(32, 0x11), 300, Filled(16, 0x21), 1),
               Ref(Checkpoint, Filled(32, 0x12), 100, Filled(16, 0x22), 2),
               Ref(Node, Filled(32, 0x13), 0x1_0203, Filled(16, 0x23), 3)])
  }

  function SampleInner(): Bytes {
    [0xa3, 0x01, 0x01, 0x02, 0x59, 0x01, 0x2c] + Filled(300, 0x77) + [0x03, 0x83]
    + (SampleBlob() + SampleCheckpoint() + SampleNode())
  }

  function SampleBlob(): Bytes {
    [0xa5, 0x01, 0x01, 0x02, 0x58, 0x20] + Filled(32, 0x11)
    + [0x03, 0x19, 0x01, 0x2c, 0x04, 0x50] + Filled(16, 0x21) + [0x05, 0x01]
  }

  function SampleCheckpoint(): Bytes {
    [0xa5, 0x01, 0x02, 0x02, 0x58, 0x20] + Filled(32, 0x12)
    + [0x03, 0x18, 0x64, 0x04, 0x50] + Filled(16, 0x22) + [0x05, 0x02]
  }

  function SampleNode(): Bytes {
    [0xa5, 0x01, 0x03, 0x02, 0x58, 0x20] + Filled(32, 0x13)
    + [0x03, 0x1a, 0x00, 0x01, 0x02, 0x03, 0x04, 0x50] + Filled(16, 0x23) + [0x05, 0x03]
  }

  lemma {:induction false} SampleHeads()
    ensures WireHead(0x00, 1) == [0x01] && WireHead(0x00, 2) == [0x02] && WireHead(0x00, 3) == [0x03]
    ensures WireHead(0x00, 300) == [0x19, 0x01, 0x2c] && WireHead(0x00, 100) == [0x18, 0x64]
    ensures WireHead(0x00, 0x1_0203) == [0x1a, 0x00, 0x01, 0x02, 0x03]
    ensures WireHead(0x40, 300) == [0x59, 0x01, 0x2c] && WireHead(0x40, 496) == [0x59, 0x01, 0xf0]
    ensures WireHead(0x80, 3) == [0x83]
  {
  }

  lemma {:induction false} SampleIsWire()
    ensures WireInner(Sample()) == SampleInner() && |SampleInner()| == 496
  {
    hide WireHead, Filled, WireChild, WireChildren;
    SampleHeads();
    SampleChildren();
    ThreeChildren(Sample().children);
  }

  lemma {:induction false} ThreeChildren(rs: seq<Ref>)
    requires |rs| == 3
    ensures WireChildren(rs) == WireChild(rs[0]) + WireChild(rs[1]) + WireChild(rs[2])
  {
    hide WireChild;
    assert rs[1..][1..][1..] == [] && rs[1..][1..][0] == rs[2] && rs[1..][0] == rs[1];
    assert WireChildren(rs[1..][1..]) == WireChild(rs[2]) + [];
    assert WireChildren(rs[1..]) == WireChild(rs[1]) + WireChildren(rs[1..][1..]);
  }

  lemma {:induction false} SampleChildren()
    ensures WireChild(Sample().children[0]) == SampleBlob()
    ensures WireChild(Sample().children[1]) == SampleCheckpoint()
    ensures WireChild(Sample().children[2]) == SampleNode()
    ensures |SampleBlob()| == 62 && |SampleCheckpoint()| == 61 && |SampleNode()| == 64
  {
    hide WireHead, Filled;
    SampleHeads();
  }

  lemma {:induction false} SampleBytes(hash: Bytes -> Bytes)
    requires |hash(SampleInner())| == DIGEST_LEN
    ensures Encode(Sample(), hash)
            == [0xa2, 0x01, 0x59, 0x01, 0xf0] + SampleInner() + [0x02, 0x58, 0x20] + hash(SampleInner())
  {
    hide WireHead, WireInner, SampleInner, Encode;
    SampleHeads();
    SampleIsWire();
    EncodeIsWire(Sample(), hash);
  }

  /** A descriptor is the tag, the length and the chunk size, the numbers in network byte order. */
  lemma {:induction false} DescriptorBytes(len: nat, chunk: nat)
    ensures Descriptor(len, chunk)
            == [0x4f, 0x4c, 0x42, 0x53, 0x00, 0x00, 0x00, 0x01] + EightBytes(len) + EightBytes(chunk)
  {
    hide BigEndian, EightBytes;
    WordBytes(len);
    WordBytes(chunk);
  }

  lemma {:induction false} SampleDescriptor()
    ensures Descriptor(0x1_0203_0405, 0x10_0000)
            == [0x4f, 0x4c, 0x42, 0x53, 0, 0, 0, 1,   0, 0, 0, 1, 2, 3, 4, 5,   0, 0, 0, 0, 0, 0x10, 0, 0]
  {
    hide Descriptor, EightBytes;
    SampleWords();
    DescriptorBytes(0x1_0203_0405, 0x10_0000);
  }

  lemma {:induction false} SampleWords()
    ensures EightBytes(0x1_0203_0405) == [0, 0, 0, 1, 2, 3, 4, 5]
    ensures EightBytes(0x10_0000) == [0, 0, 0, 0, 0, 0x10, 0, 0]
  {
  }
}
