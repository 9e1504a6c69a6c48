/**
The part of CBOR (RFC 8949) that the log writes: unsigned integers, byte strings,
arrays and maps of definite length, each with the shortest head (section 4.2.1).
The reader accepts longer heads, as section 3 allows, and then insists that
writing the value again reproduces the bytes it came from.
*/
module Cbor {
  import opened Wrappers
  import opened Words

  type Bytes = seq<byte>

  // ---- Big-endian numbers ----

  function Pow256(n: nat): nat { if n == 0 then 1 else 256 * Pow256(n - 1) }

  function BigEndian(v: nat, width: nat): (r: Bytes)
    ensures |r| == width
  {
    if width == 0 then [] else BigEndian(v / 256, width - 1) + [(v % 256) as byte]
  }

  function Value(s: Bytes): nat {
    if s == [] then 0 else Value(s[..|s| - 1]) * 256 + s[|s| - 1] as nat
  }

  lemma {:induction false} ValueOfBigEndian(v: nat, width: nat)
    requires v < Pow256(width)
    ensures Value(BigEndian(v, width)) == v
  {
    if width > 0 {
      ValueOfBigEndian(v / 256, width - 1);
      var s := BigEndian(v, width);
      assert s[..|s| - 1] == BigEndian(v / 256, width - 1);
    }
  }

  // ---- Heads ----

  datatype Major = Unsigned | ByteString | Array | Map

  function Code(major: Major): nat {
    match major case Unsigned => 0 case ByteString => 2 case Array => 4 case Map => 5
  }

  function Initial(major: Major, info: nat): byte
    requires info < 32
  {
    (Code(major) * 32 + info) as byte
  }

  /** The number of bytes that follow the first one. */
  function Extra(v: nat): nat {
    if v < 24 then 0
    else if v < 0x100 then 1
    else if v < 0x1_0000 then 2
    else if v < 0x1_0000_0000 then 4
    else 8
  }

  function Info(v: nat): nat {
    if v < 24 then v
    else if v < 0x100 then 24
    else if v < 0x1_0000 then 25
    else if v < 0x1_0000_0000 then 26
    else 27
  }

  /** The shortest head. */
  function Head(major: Major, v: nat): (r: Bytes)
    ensures |r| == 1 + Extra(v)
  {
    [Initial(major, Info(v))] + BigEndian(if v < 24 then 0 else v, Extra(v))
  }

  function CborHeadLen(v: nat): nat {
    if v <= 23 then 1 else if v <= 0xff then 2 else if v <= 0xffff then 3 else if v <= 0xffff_ffff then 5 else 9
  }

  lemma {:induction false} HeadLength(major: Major, v: nat)
    ensures |Head(major, v)| == CborHeadLen(v)
  {
  }

  function Width(info: nat): Option<nat> {
    if info < 24 then Some(0)
    else if info == 24 then Some(1)
    else if info == 25 then Some(2)
    else if info == 26 then Some(4)
    else if info == 27 then Some(8)
    else None
  }

  /** Reads a head of any length; reserved and indefinite forms are refused. */
  function ReadHead(s: Bytes, major: Major): (r: Option<(nat, nat)>)
    ensures r.Some? ==> s != [] && 1 <= r.value.1 <= |s|
  {
    if s == [] || s[0] as nat / 32 != Code(major) then None
    else
      var info := s[0] as nat % 32;
      var width :- Width(info);
      if |s| < 1 + width then None
      else Some((if info < 24 then info else Value(s[1..1 + width]), 1 + width))
  }

  lemma {:induction false} WidthOfInfo(v: nat)
    requires v <= U64_MAX
    ensures Width(Info(v)) == Some(Extra(v))
    ensures v < Pow256(Extra(v)) || v < 24
  {
    assert Pow256(1) == 256;
    assert Pow256(2) == 256 * Pow256(1);
    assert Pow256(4) == 256 * (256 * Pow256(2));
    assert Pow256(8) == 256 * (256 * (256 * (256 * Pow256(4))));
  }

  lemma {:induction false} InitialReads(major: Major, v: nat)
    ensures Initial(major, Info(v)) as nat / 32 == Code(major) && Initial(major, Info(v)) as nat % 32 == Info(v)
    ensures if v < 24 then Info(v) == v else Info(v) >= 24
  {
  }

  lemma {:induction false} ReadsOwnHead(major: Major, v: nat, t: Bytes)
    requires v <= U64_MAX
    ensures ReadHead(Head(major, v) + t, major) == Some((v, |Head(major, v)|))
  {
    hide BigEndian, Value, Pow256, Initial, Info, Extra, Width;
    var s := Head(major, v) + t;
    WidthOfInfo(v);
    InitialReads(major, v);
    assert s[0] == Initial(major, Info(v));
    if v >= 24 {
      assert s[1..1 + Extra(v)] == BigEndian(v, Extra(v));
      ValueOfBigEndian(v, Extra(v));
    }
  }

  /** The reader and the writer agree on length exactly when the bytes are the shortest head. */
  lemma {:induction false} MatchedHead(s: Bytes, major: Major)
    requires ReadHead(s, major).Some?
    requires Head(major, ReadHead(s, major).value.0) <= s
    ensures ReadHead(s, major).value.1 == |Head(major, ReadHead(s, major).value.0)|
    ensures ReadHead(s, major).value.0 <= U64_MAX
  {
    hide Value, BigEndian, Pow256, Initial;
    var v := ReadHead(s, major).value.0;
    ReadIsBounded(s, major);
    WidthOfInfo(v);
    InitialReads(major, v);
    assert s[0] == Head(major, v)[0] == Initial(major, Info(v));
  }

  /** No head carries more than 64 bits. */
  lemma {:induction false} ReadIsBounded(s: Bytes, major: Major)
    requires ReadHead(s, major).Some?
    ensures ReadHead(s, major).value.0 <= U64_MAX
  {
    hide Value, Pow256;
    var width := ReadHead(s, major).value.1 - 1;
    ValueBound(s[1..1 + width]);
    WidthBound(width);
  }

  lemma {:induction false} ValueBound(s: Bytes)
    ensures Value(s) < Pow256(|s|)
  {
    if s != [] { ValueBound(s[..|s| - 1]); }
  }

  lemma {:induction false} WidthBound(width: nat)
    requires width <= 8
    ensures Pow256(width) <= U64_MAX + 1
  {
    assert Pow256(8) == U64_MAX + 1 by {
      assert Pow256(2) == 65536;
      assert Pow256(4) == 256 * (256 * Pow256(2));
      assert Pow256(8) == 256 * (256 * (256 * (256 * Pow256(4))));
    }
    PowOrder(width, 8);
  }

  lemma {:induction false} PowOrder(a: nat, b: nat)
    requires a <= b
    ensures Pow256(a) <= Pow256(b)
  {
    if a < b { PowOrder(a, b - 1); }
  }

  // ---- Writing in front of a remainder ----

  function Put(major: Major, v: nat, t: Bytes): Bytes { Head(major, v) + t }

  function PutBytes(b: Bytes, t: Bytes): Bytes { Head(ByteString, |b|) + (b + t) }

  // ---- Exact reading ----

  /** Reads a value that its own encoding reproduces. */
  function ExactHead(s: Bytes, major: Major, max: nat): (r: Option<(nat, Bytes)>)
    ensures r.Some? ==> s == Put(major, r.value.0, r.value.1) && r.value.0 <= max
  {
    var (v, used) :- ReadHead(s, major);
    if v <= max && Head(major, v) <= s then Some((v, s[|Head(major, v)|..])) else None
  }

  function ExactBytes(s: Bytes): (r: Option<(Bytes, Bytes)>)
    ensures r.Some? ==> s == PutBytes(r.value.0, r.value.1)
  {
    var (n, used) :- ReadHead(s, ByteString);
    if used + n <= |s| && Head(ByteString, n) <= s && s[used..used + n] <= s[|Head(ByteString, n)|..]
    then
      MatchedBytes(s, n, used);
      Some((s[used..used + n], s[used + n..]))
    else None
  }

  lemma {:induction false} MatchedBytes(s: Bytes, n: nat, used: nat)
    requires ReadHead(s, ByteString) == Some((n, used))
    requires used + n <= |s| && Head(ByteString, n) <= s
    ensures used == |Head(ByteString, n)|
    ensures s == PutBytes(s[used..used + n], s[used + n..])
  {
    MatchedHead(s, ByteString);
    assert s == s[..used] + (s[used..used + n] + s[used + n..]);
  }

  lemma {:induction false} ExactHeadReads(major: Major, v: nat, max: nat, t: Bytes)
    requires v <= max <= U64_MAX
    ensures ExactHead(Put(major, v, t), major, max) == Some((v, t))
  {
    ReadsOwnHead(major, v, t);
  }

  lemma {:induction false} ExactBytesReads(b: Bytes, t: Bytes)
    requires |b| <= U64_MAX
    ensures ExactBytes(PutBytes(b, t)) == Some((b, t))
  {
    var s := PutBytes(b, t);
    ReadsOwnHead(ByteString, |b|, b + t);
    var used := |Head(ByteString, |b|)|;
    assert s[used..used + |b|] == b && s[used + |b|..] == t;
    assert s[used..] == b + t;
  }

  /** The decoder's position and the part of the input that the writer still has to match. */
  class Cursor {
    const input: Bytes
    var pos: nat
    var rest: Bytes

    ghost predicate Valid()
      reads this
    {
      pos <= |input| && rest == input[pos..]
    }

    constructor (input: Bytes)
      ensures Valid() && this.input == input && rest == input
    {
      this.input := input;
      pos, rest := 0, input;
    }

    /** Writing to the matcher consumes its slice, or fails. */
    method Write(bytes: Bytes) returns (ok: bool)
      modifies this`rest
      ensures ok <==> bytes <= old(rest)
      ensures ok ==> rest == old(rest)[|bytes|..]
      ensures !ok ==> rest == old(rest)
    {
      ok := bytes <= rest;
      if ok {
        rest := rest[|bytes|..];
      }
    }

    method Take(major: Major, max: nat) returns (r: Option<nat>)
      requires Valid()
      modifies this
      ensures r.Some? <==> ExactHead(old(rest), major, max).Some?
      ensures r.Some? ==> Valid() && ExactHead(old(rest), major, max) == Some((r.value, rest))
    {
      hide ReadHead, Head;
      var head := ReadHead(input[pos..], major);
      if head.None? || head.value.0 > max {
        return None;
      }
      pos := pos + head.value.1;
      var ok := Write(Head(major, head.value.0));
      if !ok {
        return None;
      }
      MatchedHead(old(rest), major);
      r := Some(head.value.0);
    }

    method TakeBytes() returns (r: Option<Bytes>)
      requires Valid()
      modifies this
      ensures r.Some? <==> ExactBytes(old(rest)).Some?
      ensures r.Some? ==> Valid() && ExactBytes(old(rest)) == Some((r.value, rest))
    {
      hide ReadHead, Head;
      var head := ReadHead(input[pos..], ByteString);
      if head.None? || head.value.1 + head.value.0 > |input| - pos {
        return None;
      }
      var n, used := head.value.0, head.value.1;
      var b := input[pos + used..pos + used + n];
      assert b == rest[used..used + n];
      pos := pos + used + n;
      var ok := Write(Head(ByteString, n));
      if !ok {
        return None;
      }
      MatchedBytes(old(rest), n, used);
      ok := Write(b);
      assert rest == old(rest)[used..][n..] == old(rest)[used + n..];
      r := Some(b);
    }
  }
}
