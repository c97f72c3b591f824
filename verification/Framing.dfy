/** Byte strings, and the 8-byte big-endian length prefix that keeps them apart. */
module Framing {
  import opened Wrappers

  type Byte = b: int | 0 <= b < 256
  type Bytes = seq<Byte>

  const LENGTH_LIMIT := 0x1_0000_0000_0000_0000

  /** `n.to_bytes(width, "big")`. */
  function BigEndian(n: nat, width: nat): (bs: Bytes)
    ensures |bs| == width
  {
    if width == 0 then [] else BigEndian(n / 256, width - 1) + [n % 256]
  }

  /** `int.from_bytes(bs, "big")`. */
  function FromBigEndian(bs: Bytes): nat {
    if bs == [] then 0 else FromBigEndian(bs[..|bs| - 1]) * 256 + bs[|bs| - 1]
  }

  function Limit(width: nat): nat {
    if width == 0 then 1 else 256 * Limit(width - 1)
  }

  lemma {:induction false} BigEndianRoundTrip(n: nat, width: nat)
    requires n < Limit(width)
    ensures FromBigEndian(BigEndian(n, width)) == n
  {
    if width != 0 {
      BigEndianRoundTrip(n / 256, width - 1);
      var bs := BigEndian(n, width);
      assert bs[..|bs| - 1] == BigEndian(n / 256, width - 1);
    }
  }

  lemma EightBytes()
    ensures Limit(8) == LENGTH_LIMIT
  {
    assert Limit(4) == 0x1_0000_0000;
  }

  function Frame(x: Bytes): Bytes {
    BigEndian(|x|, 8) + x
  }

  /** The framed byte string at the head of `s`, and what follows it. */
  function Unframe(s: Bytes): (r: Option<(Bytes, Bytes)>)
    ensures r.Some? ==> |r.value.1| < |s|
  {
    if |s| < 8 then None
    else
      var n := FromBigEndian(s[..8]);
      if |s| < 8 + n then None else Some((s[8..8 + n], s[8 + n..]))
  }

  /** A frame is read back whole, whatever follows it. */
  lemma {:induction false} UnframeFrame(x: Bytes, rest: Bytes)
    requires |x| < LENGTH_LIMIT
    ensures Unframe(Frame(x) + rest) == Some((x, rest))
  {
    hide BigEndian, FromBigEndian, Limit;
    EightBytes();
    BigEndianRoundTrip(|x|, 8);
    var s := Frame(x) + rest;
    assert s[..8] == BigEndian(|x|, 8) && s[8..8 + |x|] == x && s[8 + |x|..] == rest;
  }

  /** The first byte weighs most. */
  lemma {:induction false} FirstByteWeighsMost(b: Byte, bs: Bytes)
    ensures FromBigEndian([b] + bs) == b * Limit(|bs|) + FromBigEndian(bs)
    decreases |bs|
  {
    var all := [b] + bs;
    if bs == [] {
      assert all[..0] == [];
    } else {
      var front := bs[..|bs| - 1];
      assert all[..|all| - 1] == [b] + front;
      FirstByteWeighsMost(b, front);
    }
  }

  /** A frame is the length as eight bytes, then the bytes themselves. */
  lemma {:induction false} FrameLayout(x: Bytes)
    requires |x| < LENGTH_LIMIT
    ensures |Frame(x)| == 8 + |x| && Frame(x)[8..] == x && FromBigEndian(Frame(x)[..8]) == |x|
  {
    hide BigEndian, FromBigEndian, Limit;
    EightBytes();
    BigEndianRoundTrip(|x|, 8);
    assert Frame(x)[..8] == BigEndian(|x|, 8);
  }
}
