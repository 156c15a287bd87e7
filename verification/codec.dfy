/**
 * The 20-byte header shared by client, proxy and server: the length field and its two byte orders
 * (src/proxy/transc.c, src/server/server.c), the encoder (src/client/jmp.c) and the frames of a
 * byte stream.
 */
module Codec {
  import opened Bytes

  const MSG_HEADER_LEN: nat := 20
  const BUF_MAX_LEN: nat := 1024
  const LITTLE: int := 0
  const BIG: int := 1

  /** The order the proxy is built with. */
  const ENDIAN: int := BIG

  function Decode24(endian: int, a: byte, b: byte, c: byte): nat {
    if endian == BIG then a as int * 0x10000 + b as int * 0x100 + c as int else c as int * 0x10000 + b as int * 0x100 + a as int
  }

  function Encode24(endian: int, n: nat): (s: seq<byte>)
    ensures |s| == 3
  {
    var low, mid, high := (n % 0x100) as byte, (n / 0x100 % 0x100) as byte, (n / 0x10000 % 0x100) as byte;
    if endian == BIG then [high, mid, low] else [low, mid, high]
  }

  /** Total frame length announced by a header; -1 for a header that begins with a NUL or an unknown byte order. */
  function MsgLength(endian: int, hdr: seq<byte>): (len: int)
    requires |hdr| == MSG_HEADER_LEN
    ensures -1 <= len < 0x100_0000
  {
    if hdr[0] == 0 then -1
    else if endian == BIG || endian == LITTLE then Decode24(endian, hdr[1], hdr[2], hdr[3])
    else -1
  }

  // ----- byte order -----

  lemma ByteDigits(n: nat)
    requires n < 0x100_0000
    ensures n == n / 0x10000 * 0x10000 + n / 0x100 % 0x100 * 0x100 + n % 0x100
    ensures n / 0x10000 < 0x100 && n / 0x10000 % 0x100 == n / 0x10000
  {
    assert n / 0x100 == n / 0x10000 * 0x100 + n / 0x100 % 0x100;
  }

  /** Each decoder inverts its own order; across orders the three bytes come back reversed. */
  lemma ByteOrder(e: int, d: int, n: nat)
    requires n < 0x100_0000 && e in {LITTLE, BIG} && d in {LITTLE, BIG}
    ensures var s := Encode24(e, n);
            && Decode24(e, s[0], s[1], s[2]) == n
            && (e != d ==> Decode24(d, s[0], s[1], s[2]) == n % 0x100 * 0x10000 + n / 0x100 % 0x100 * 0x100 + n / 0x10000)
            && (e != d ==> (Decode24(d, s[0], s[1], s[2]) == n <==> n % 0x100 == n / 0x10000))
  {
    ByteDigits(n);
  }

  /** Refused exactly for a first NUL or an unknown order; else the number whose encoding the three length bytes are. */
  lemma LengthField(e: int, hdr: seq<byte>)
    requires |hdr| == MSG_HEADER_LEN
    ensures MsgLength(e, hdr) == -1 <==> hdr[0] == 0 || e !in {LITTLE, BIG}
    ensures MsgLength(e, hdr) >= 0 ==> Encode24(e, MsgLength(e, hdr)) == hdr[1..4]
  {
    if e == BIG {
      Digits24(hdr[1], hdr[2], hdr[3]);
    } else {
      Digits24(hdr[3], hdr[2], hdr[1]);
    }
  }

  /** Three bytes, most significant first, below three others. */
  predicate Below(a: seq<byte>, b: seq<byte>)
    requires |a| == |b| == 3
  {
    a[0] < b[0] || (a[0] == b[0] && (a[1] < b[1] || (a[1] == b[1] && a[2] < b[2])))
  }

  /** Lengths are ordered as their bytes are, from the last in little-endian order and from the first in big-endian. */
  lemma LengthOrder(h: seq<byte>, g: seq<byte>)
    requires |h| == |g| == MSG_HEADER_LEN && h[0] != 0 && g[0] != 0
    ensures MsgLength(LITTLE, h) < MsgLength(LITTLE, g) <==> Below([h[3], h[2], h[1]], [g[3], g[2], g[1]])
    ensures MsgLength(BIG, h) < MsgLength(BIG, g) <==> Below(h[1..4], g[1..4])
  {
  }

  lemma Digits24(high: byte, mid: byte, low: byte)
    ensures var n := high as int * 0x10000 + mid as int * 0x100 + low as int;
            n % 0x100 == low as int && n / 0x100 % 0x100 == mid as int && n / 0x10000 % 0x100 == high as int
  {
    var n := high as int * 0x10000 + mid as int * 0x100 + low as int;
    assert n / 0x100 == high as int * 0x100 + mid as int;
  }

  // ----- frames of a stream -----

  predicate IsFrame(e: int, f: seq<byte>) {
    |f| > MSG_HEADER_LEN && MsgLength(e, f[..MSG_HEADER_LEN]) == |f|
  }

  /** The complete valid frames at the front of a stream: it stops at an unfinished or refused frame. */
  function Frames(e: int, s: seq<byte>): (fs: seq<seq<byte>>)
    decreases |s|
  {
    if |s| < MSG_HEADER_LEN then [] else
    var len := MsgLength(e, s[..MSG_HEADER_LEN]);
    if len <= MSG_HEADER_LEN || |s| < len then [] else [s[..len]] + Frames(e, s[len..])
  }

  function Flatten(fs: seq<seq<byte>>): seq<byte> {
    if fs == [] then [] else fs[0] + Flatten(fs[1..])
  }

  lemma {:induction false} FlattenAppend(fs: seq<seq<byte>>, gs: seq<seq<byte>>)
    ensures Flatten(fs + gs) == Flatten(fs) + Flatten(gs)
  {
    if fs == [] {
      assert fs + gs == gs;
    } else {
      assert (fs + gs)[1..] == fs[1..] + gs;
      FlattenAppend(fs[1..], gs);
    }
  }

  lemma FrameFirst(e: int, f: seq<byte>, rest: seq<byte>)
    requires IsFrame(e, f)
    ensures Frames(e, f + rest) == [f] + Frames(e, rest)
  {
    var s := f + rest;
    assert s[..MSG_HEADER_LEN] == f[..MSG_HEADER_LEN];
    assert s[..|f|] == f && s[|f|..] == rest;
  }

  /** Parsing a stream that begins with whole frames finds exactly those frames first. */
  lemma {:induction false} FramesOfFlatten(e: int, fs: seq<seq<byte>>, tail: seq<byte>)
    requires forall f :: f in fs ==> IsFrame(e, f)
    ensures Frames(e, Flatten(fs) + tail) == fs + Frames(e, tail)
  {
    if fs == [] {
      assert Flatten(fs) + tail == tail;
    } else {
      var f, gs := fs[0], fs[1..];
      assert f in fs;
      calc {
        Frames(e, Flatten(fs) + tail);
        { assert (f + Flatten(gs)) + tail == f + (Flatten(gs) + tail); }
        Frames(e, f + (Flatten(gs) + tail));
        { FrameFirst(e, f, Flatten(gs) + tail); }
        [f] + Frames(e, Flatten(gs) + tail);
        { FramesOfFlatten(e, gs, tail); }
        [f] + (gs + Frames(e, tail));
        { assert fs == [f] + gs; assert ([f] + gs) + Frames(e, tail) == [f] + (gs + Frames(e, tail)); }
        fs + Frames(e, tail);
      }
    }
  }

  /** What the parser returns is whole frames, and they are the front of the stream. */
  lemma {:induction false} FramesAreAPrefix(e: int, s: seq<byte>)
    ensures forall f :: f in Frames(e, s) ==> IsFrame(e, f)
    ensures Flatten(Frames(e, s)) <= s
    decreases |s|
  {
    if |s| >= MSG_HEADER_LEN {
      var len := MsgLength(e, s[..MSG_HEADER_LEN]);
      if MSG_HEADER_LEN < len <= |s| {
        FramesAreAPrefix(e, s[len..]);
        assert s == s[..len] + s[len..];
        assert s[..len][..MSG_HEADER_LEN] == s[..MSG_HEADER_LEN];
        assert Frames(e, s)[1..] == Frames(e, s[len..]);
      }
    }
  }

  // ----- messages -----

  datatype Msg = Msg(version: byte, code: nat, body: seq<byte>)

  /** The header layout of `jmp_hdr_t`: version, length:24, flag, code:24, then three zero identifiers. */
  function Header(e: int, version: byte, length: nat, code: nat): (h: seq<byte>)
    ensures |h| == MSG_HEADER_LEN
  {
    [version] + Encode24(e, length) + [0] + Encode24(e, code) + Zeros(12)
  }

  /**
   * The bytes of a `jmp_hdr_t`, by position: version at 0, length at 1..3, flag at 4, code at 5..7, each
   * three bytes weighted by the byte order, and zeros from 8 on.
   */
  predicate Placed(e: int, h: seq<byte>, version: byte, length: nat, code: nat) {
    && |h| >= MSG_HEADER_LEN && h[0] == version && h[4] == 0 && AllZero(h[8..MSG_HEADER_LEN])
    && (e == LITTLE ==> length == h[1] as int + 256 * h[2] as int + 65536 * h[3] as int)
    && (e == LITTLE ==> code == h[5] as int + 256 * h[6] as int + 65536 * h[7] as int)
    && (e == BIG ==> length == h[3] as int + 256 * h[2] as int + 65536 * h[1] as int)
    && (e == BIG ==> code == h[7] as int + 256 * h[6] as int + 65536 * h[5] as int)
  }

  /** Where an encoded message's fields are. */
  lemma EncodedPlaces(e: int, m: Msg)
    requires e in {LITTLE, BIG} && |m.body| + MSG_HEADER_LEN < 0x100_0000 && m.code < 0x100_0000
    ensures Placed(e, Encode(e, m), m.version, |m.body| + MSG_HEADER_LEN, m.code)
    ensures Encode(e, m)[MSG_HEADER_LEN..] == m.body
  {
    var len := |m.body| + MSG_HEADER_LEN;
    var h, a, b := Header(e, m.version, len, m.code), Encode24(e, len), Encode24(e, m.code);
    assert Encode(e, m)[..MSG_HEADER_LEN] == h;
    assert h[1..4] == a && h[5..8] == b && h[8..] == Zeros(12);
    assert h[1] == a[0] && h[2] == a[1] && h[3] == a[2] && h[5] == b[0] && h[6] == b[1] && h[7] == b[2];
    assert Encode(e, m)[8..MSG_HEADER_LEN] == h[8..];
    ByteDigits(len);
    ByteDigits(m.code);
  }

  /** The decoder finds the length where the layout puts it. */
  lemma PlacedLength(e: int, h: seq<byte>, version: byte, length: nat, code: nat)
    requires e in {LITTLE, BIG} && |h| == MSG_HEADER_LEN && version != 0 && Placed(e, h, version, length, code)
    ensures MsgLength(e, h) == length
  {
  }

  /** A 240-byte body: a frame of 260 bytes, 0x104. */
  lemma Frame260(m: Msg)
    requires |m.body| == 240 && m.version != 0
    ensures Encode(LITTLE, m)[1..4] == [4, 1, 0] && MsgLength(LITTLE, Encode(LITTLE, m)[..MSG_HEADER_LEN]) == 260
    ensures Encode(BIG, m)[1..4] == [0, 1, 4] && MsgLength(BIG, Encode(BIG, m)[..MSG_HEADER_LEN]) == 260
  {
    assert Encode24(LITTLE, 260) == [4, 1, 0] && Encode24(BIG, 260) == [0, 1, 4];
    FrameOf260(LITTLE, m);
    FrameOf260(BIG, m);
  }

  lemma FrameOf260(e: int, m: Msg)
    requires e in {LITTLE, BIG} && |m.body| == 240 && m.version != 0
    ensures Encode(e, m)[1..4] == Encode24(e, 260) && MsgLength(e, Encode(e, m)[..MSG_HEADER_LEN]) == 260
  {
    var h := Header(e, m.version, 260, m.code);
    assert Encode(e, m)[..MSG_HEADER_LEN] == h && h[1..4] == Encode24(e, 260);
    assert Encode(e, m)[1..4] == h[1..4];
    assert h[1] == h[1..4][0] && h[2] == h[1..4][1] && h[3] == h[1..4][2];
    ByteOrder(e, e, 260);
  }

  function Encode(e: int, m: Msg): seq<byte> {
    Header(e, m.version, |m.body| + MSG_HEADER_LEN, m.code) + m.body
  }

  function Decode(e: int, f: seq<byte>): Msg
    requires IsFrame(e, f)
  {
    Msg(f[0], Decode24(e, f[5], f[6], f[7]), f[MSG_HEADER_LEN..])
  }

  function EncodeAll(e: int, ms: seq<Msg>): seq<seq<byte>> {
    seq(|ms|, i requires 0 <= i < |ms| => Encode(e, ms[i]))
  }

  function DecodeAll(e: int, fs: seq<seq<byte>>): seq<Msg>
    requires forall f :: f in fs ==> IsFrame(e, f)
  {
    seq(|fs|, i requires 0 <= i < |fs| => Decode(e, fs[i]))
  }

  /** Encoding and decoding in one byte order: accepted exactly for a nonzero version and a nonempty body. */
  lemma EncodedMessage(e: int, m: Msg)
    requires e in {LITTLE, BIG} && |m.body| + MSG_HEADER_LEN < 0x100_0000
    ensures IsFrame(e, Encode(e, m)) <==> m.version != 0 && m.body != []
    ensures IsFrame(e, Encode(e, m)) && m.code < 0x100_0000 ==> Decode(e, Encode(e, m)) == m
  {
    var len := |m.body| + MSG_HEADER_LEN;
    var h := Header(e, m.version, len, m.code);
    assert Encode(e, m)[..MSG_HEADER_LEN] == h;
    assert h[1..4] == Encode24(e, len) && h[5..8] == Encode24(e, m.code);
    assert h[1] == h[1..4][0] && h[2] == h[1..4][1] && h[3] == h[1..4][2];
    assert h[5] == h[5..8][0] && h[6] == h[5..8][1] && h[7] == h[5..8][2];
    ByteOrder(e, e, len);
    if m.code < 0x100_0000 {
      ByteOrder(e, e, m.code);
    }
  }

  /** Every sequence of messages survives encoding, concatenation, framing and decoding. */
  lemma {:induction false} FramingRoundTrip(e: int, ms: seq<Msg>)
    requires e in {LITTLE, BIG}
    requires forall m :: m in ms ==> m.version != 0 && m.body != [] && |m.body| + MSG_HEADER_LEN < 0x100_0000 && m.code < 0x100_0000
    ensures var fs := Frames(e, Flatten(EncodeAll(e, ms)));
            (forall f :: f in fs ==> IsFrame(e, f)) && DecodeAll(e, fs) == ms
  {
    var fs := EncodeAll(e, ms);
    forall i | 0 <= i < |ms| ensures IsFrame(e, fs[i]) && Decode(e, fs[i]) == ms[i] {
      assert ms[i] in ms;
      EncodedMessage(e, ms[i]);
    }
    FramesOfFlatten(e, fs, []);
    assert Flatten(fs) + [] == Flatten(fs);
    assert fs + Frames(e, []) == fs;
  }

  /**
   * The shipped proxy reads big-endian what a little-endian client wrote.  For client bodies
   * (1..1023 bytes) the two lengths agree exactly when the true one is a multiple of 256; when they
   * disagree the proxy expects a body larger than 65536 bytes, the default pipe size.
   */
  lemma ClientHeaderReadByProxy(m: Msg)
    requires m.version != 0 && 1 <= |m.body| < BUF_MAX_LEN
    ensures var n, seen := |m.body| + MSG_HEADER_LEN, MsgLength(ENDIAN, Encode(LITTLE, m)[..MSG_HEADER_LEN]);
            && (seen == n <==> n % 0x100 == 0)
            && (seen != n ==> seen - MSG_HEADER_LEN > 0x10000)
  {
    var n := |m.body| + MSG_HEADER_LEN;
    var h := Header(LITTLE, m.version, n, m.code);
    assert Encode(LITTLE, m)[..MSG_HEADER_LEN] == h;
    assert h[1..4] == Encode24(LITTLE, n);
    assert h[1] == h[1..4][0] && h[2] == h[1..4][1] && h[3] == h[1..4][2];
    ByteOrder(LITTLE, BIG, n);
  }
}
