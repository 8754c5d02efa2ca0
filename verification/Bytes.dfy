// Octets, the big-endian integers of struct.pack, and Python's slices.
module Bytes {
  import opened Wrappers

  type byte = n: int | 0 <= n < 256
  type bytes = seq<byte>

  // A struct format refuses a value outside its range and a buffer that is too short.
  function Pow256(width: nat): (p: nat)
    ensures p >= 1
  {
    if width == 0 then 1 else 256 * Pow256(width - 1)
  }

  function BigEndian(n: nat, width: nat): (s: bytes)
    ensures |s| == width
  {
    if width == 0 then [] else BigEndian(n / 256, width - 1) + [n % 256]
  }

  function FromBigEndian(s: bytes): (n: nat)
    ensures n < Pow256(|s|)
  {
    if s == [] then 0 else FromBigEndian(s[..|s| - 1]) * 256 + s[|s| - 1]
  }

  lemma {:induction false} BigEndianRoundTrip(n: nat, width: nat)
    requires n < Pow256(width)
    ensures FromBigEndian(BigEndian(n, width)) == n
  {
    if width > 0 {
      BigEndianRoundTrip(n / 256, width - 1);
      var s := BigEndian(n, width);
      assert s[..width - 1] == BigEndian(n / 256, width - 1);
    }
  }

  lemma WidthBounds()
    ensures Pow256(1) == 0x100
    ensures Pow256(2) == 0x1_0000
    ensures Pow256(4) == 0x1_0000_0000
    ensures Pow256(8) == 0x1_0000_0000_0000_0000
  {
    assert Pow256(3) == 0x100_0000;
    assert Pow256(6) == 256 * 256 * Pow256(4);
    assert Pow256(8) == 256 * 256 * Pow256(6);
  }

  function Pack(n: int, width: nat): (r: Result<bytes>)
    ensures r.Ok? ==> |r.value| == width
  {
    if 0 <= n < Pow256(width) then Ok(BigEndian(n, width)) else Raised(StructError)
  }

  // Two's complement.
  function PackSigned(n: int, width: nat): (r: Result<bytes>)
    ensures r.Ok? ==> |r.value| == width
  {
    var half := Pow256(width) / 2;
    if -half <= n < half then Ok(BigEndian(if n < 0 then n + Pow256(width) else n, width))
    else Raised(StructError)
  }

  function Unpack(buf: bytes, offset: nat, width: nat): (r: Result<nat>)
    ensures r.Ok? ==> r.value < Pow256(width)
  {
    if offset + width <= |buf| then Ok(FromBigEndian(buf[offset..offset + width])) else Raised(StructError)
  }

  function Signed(n: nat, width: nat): int {
    if n < Pow256(width) / 2 then n else n - Pow256(width)
  }

  // buf[offset:offset + count]: a slice stops at the end of the buffer without complaint.
  function Slice(buf: bytes, offset: nat, count: nat): (s: bytes)
    ensures |s| <= count
  {
    var lo := if offset < |buf| then offset else |buf|;
    var hi := if offset + count < |buf| then offset + count else |buf|;
    buf[lo..hi]
  }

  lemma Regroup<T>(a: seq<T>, b: seq<T>, c: seq<T>)
    ensures a + b + c == a + (b + c) && [] + c == c
  {
  }

  // w stands at offset in buf.
  ghost predicate At(buf: bytes, offset: nat, w: bytes) {
    offset + |w| <= |buf| && buf[offset..offset + |w|] == w
  }

  lemma AtSplit(buf: bytes, offset: nat, a: bytes, b: bytes)
    requires At(buf, offset, a + b)
    ensures At(buf, offset, a) && At(buf, offset + |a|, b)
  {
    var w := buf[offset..offset + |a + b|];
    assert w[..|a|] == a && w[|a|..] == b;
  }

  lemma AtSplitFour(buf: bytes, offset: nat, a: bytes, b: bytes, c: bytes, d: bytes)
    requires At(buf, offset, a + b + c + d)
    ensures At(buf, offset, a) && At(buf, offset + |a|, b)
    ensures At(buf, offset + |a| + |b|, c) && At(buf, offset + |a| + |b| + |c|, d)
  {
    AtSplit(buf, offset, a + b + c, d);
    AtSplit(buf, offset, a + b, c);
    AtSplit(buf, offset, a, b);
  }

  lemma AtSlice(buf: bytes, offset: nat, w: bytes)
    requires At(buf, offset, w)
    ensures Slice(buf, offset, |w|) == w
  {
  }

  lemma InBounds(buf: bytes, offset: nat, width: nat)
    ensures Unpack(buf, offset, width).Ok? <==> offset + width <= |buf|
  {
  }

  lemma FourOctets(a: byte, b: byte, c: byte, d: byte, rest: bytes)
    ensures Unpack([a, b, c, d] + rest, 0, 4) == Ok(((a * 256 + b) * 256 + c) * 256 + d)
  {
    var s := ([a, b, c, d] + rest)[0..4];
    assert s == [a, b, c, d];
    assert s[..3] == [a, b, c] && s[..3][..2] == [a, b] && s[..3][..2][..1] == [a] && s[..3][..2][..1][..0] == [];
    assert FromBigEndian([a]) == a;
    assert FromBigEndian([a, b]) == a * 256 + b;
    assert FromBigEndian([a, b, c]) == (a * 256 + b) * 256 + c;
  }

  // Numbers of two, four and eight octets, most significant first.
  function Two(a: byte, b: byte): nat {
    a * 0x100 + b
  }

  function Four(a: byte, b: byte, c: byte, d: byte): nat {
    a * 0x100_0000 + b * 0x1_0000 + c * 0x100 + d
  }

  function Eight(s: bytes): nat
    requires |s| == 8
  {
    Four(s[0], s[1], s[2], s[3]) * 0x1_0000_0000 + Four(s[4], s[5], s[6], s[7])
  }

  // Two's complement.
  function TwosComplement(n: nat, limit: nat): int {
    if n < limit then n else n - 2 * limit
  }

  lemma OneMoreOctet(s: bytes, d: byte)
    ensures FromBigEndian(s + [d]) == FromBigEndian(s) * 256 + d
  {
    assert (s + [d])[..|s|] == s;
  }

  lemma SmallNumbers(a: byte, b: byte, c: byte, d: byte)
    ensures FromBigEndian([a]) == a && FromBigEndian([a, b]) == Two(a, b)
    ensures FromBigEndian([a, b, c, d]) == Four(a, b, c, d)
  {
    hide FromBigEndian;
    NoOctets();
    OneMoreOctet([], a);
    OneMoreOctet([a], b);
    OneMoreOctet([a, b], c);
    OneMoreOctet([a, b, c], d);
    assert [] + [a] == [a] && [a] + [b] == [a, b] && [a, b] + [c] == [a, b, c] && [a, b, c] + [d] == [a, b, c, d];
  }

  lemma NoOctets()
    ensures FromBigEndian([]) == 0
  {
  }

  lemma LargeNumber(s: bytes)
    requires |s| == 8
    ensures FromBigEndian(s) == Eight(s)
  {
    hide FromBigEndian;
    SmallNumbers(s[0], s[1], s[2], s[3]);
    assert s[..4] == [s[0], s[1], s[2], s[3]];
    OneMoreOctet(s[..4], s[4]);
    OneMoreOctet(s[..5], s[5]);
    OneMoreOctet(s[..6], s[6]);
    OneMoreOctet(s[..7], s[7]);
    assert s[..4] + [s[4]] == s[..5] && s[..5] + [s[5]] == s[..6] && s[..6] + [s[6]] == s[..7] && s[..7] + [s[7]] == s;
  }

  lemma UnpackAt(buf: bytes, offset: nat, w: bytes)
    requires At(buf, offset, w)
    ensures Unpack(buf, offset, |w|) == Ok(FromBigEndian(w))
  {
  }

  lemma UnpackPacked(buf: bytes, offset: nat, n: int, width: nat)
    requires Pack(n, width).Ok? && At(buf, offset, Pack(n, width).value)
    ensures Unpack(buf, offset, width) == Ok(n)
  {
    BigEndianRoundTrip(n, width);
  }

  lemma {:induction false} Pow256Even(width: nat)
    requires width > 0
    ensures Pow256(width) == 2 * (Pow256(width) / 2)
  {
    assert Pow256(width) == 2 * (128 * Pow256(width - 1));
  }

  lemma UnpackPackedSigned(buf: bytes, offset: nat, n: int, width: nat)
    requires width > 0
    requires PackSigned(n, width).Ok? && At(buf, offset, PackSigned(n, width).value)
    ensures Unpack(buf, offset, width).Ok? && Signed(Unpack(buf, offset, width).value, width) == n
  {
    Pow256Even(width);
    BigEndianRoundTrip(if n < 0 then n + Pow256(width) else n, width);
  }

  // The same bytes stand at two places: what Locality lemmas assume.
  ghost predicate SameWindow(buf: bytes, offset: nat, other: bytes, offset': nat, count: nat) {
    && offset + count <= |buf|
    && offset' + count <= |other|
    && buf[offset..offset + count] == other[offset'..offset' + count]
  }

  lemma SliceOfSlice(s: bytes, a: nat, n: nat, skip: nat, take: nat)
    requires a + n <= |s| && skip + take <= n
    ensures s[a..a + n][skip..skip + take] == s[a + skip..a + skip + take]
  {
    var inner, x, y := s[a..a + n], s[a..a + n][skip..skip + take], s[a + skip..a + skip + take];
    forall k | 0 <= k < take
      ensures x[k] == y[k]
    {
      assert x[k] == inner[skip + k];
    }
  }

  lemma SubWindow(buf: bytes, offset: nat, other: bytes, offset': nat, count: nat, skip: nat, take: nat)
    requires SameWindow(buf, offset, other, offset', count) && skip + take <= count
    ensures SameWindow(buf, offset + skip, other, offset' + skip, take)
    ensures Slice(buf, offset + skip, take) == Slice(other, offset' + skip, take)
    ensures Unpack(buf, offset + skip, take) == Unpack(other, offset' + skip, take)
  {
    SliceOfSlice(buf, offset, count, skip, take);
    SliceOfSlice(other, offset', count, skip, take);
  }

  lemma WindowHead(buf: bytes, offset: nat, other: bytes, offset': nat, count: nat)
    requires SameWindow(buf, offset, other, offset', count) && count > 0
    ensures buf[offset] == other[offset']
  {
    assert buf[offset] == buf[offset..offset + count][0] == other[offset'..offset' + count][0];
  }

  // What has been written so far, once the remaining bytes are added.
  function Append(out: bytes, rest: Result<bytes>): Result<bytes> {
    if rest.Ok? then Ok(out + rest.value) else rest
  }
}
