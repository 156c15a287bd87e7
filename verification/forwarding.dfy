/** Which streams an event loop can carry through one direction, for a given pipe and byte order. */
module Forwarding {
  import opened Bytes
  import opened Codec
  import opened Os
  import opened Relay
  import opened RelayProofs

  predicate FitsPipe(c: Cfg, f: seq<byte>) {
    |f| - MSG_HEADER_LEN <= c.cap
  }

  /** The event loop reads exactly `s` and writes exactly `s`. */
  predicate Carries(c: Cfg, evs: seq<Event>, s: seq<byte>) {
    Events(c, START, evs).input == s && Events(c, START, evs).output == s
  }

  // ----- frames that fit -----

  /** One event for each frame. */
  lemma {:induction false} CarryAll(c: Cfg, fs: seq<seq<byte>>) returns (evs: seq<Event>)
    requires forall f :: f in fs ==> IsFrame(c.endian, f) && FitsPipe(c, f)
    ensures Events(c, START, evs) == Dir(Await(0, 0), true, Flatten(fs), Flatten(fs))
  {
    if fs == [] {
      evs := [];
    } else {
      var f := fs[|fs| - 1];
      evs := CarryAll(c, fs[..|fs| - 1]);
      var ev := CarryOne(c, Events(c, START, evs), f);
      OneMoreEvent(c, START, evs, ev);
      FlattenLast(fs);
      evs := evs + [ev];
    }
  }

  lemma CarryOne(c: Cfg, d: Dir, f: seq<byte>) returns (ev: Event)
    requires WF(c, d) && d.phase.Await? && d.open && IsFrame(c.endian, f) && FitsPipe(c, f)
    ensures OnEvent(c, d, ev) == Dir(Await(0, 0), true, d.input + f, d.output + f)
  {
    var hdr, body := f[..MSG_HEADER_LEN], f[MSG_HEADER_LEN..];
    ev := Event(Got(hdr), Got(body), Put(MSG_HEADER_LEN), Put(|body|), Again);
    WholeFrameInOneEvent(c, d, hdr, body, ev);
    TwoParts(d.input, f);
    TwoParts(d.output, f);
  }

  lemma TwoParts(s: seq<byte>, f: seq<byte>)
    requires |f| >= MSG_HEADER_LEN
    ensures s + f[..MSG_HEADER_LEN] + f[MSG_HEADER_LEN..] == s + f
  {
  }

  // ----- and frames that do not -----

  /** A frame received whole has fitted the pipe. */
  lemma {:induction false} ReceivedFits(c: Cfg, ios: seq<Io>)
    ensures forall f :: f in Frames(c.endian, Run(c, START, ios).input) ==> FitsPipe(c, f)
  {
    if ios != [] {
      var before, io := ios[..|ios| - 1], ios[|ios| - 1];
      ReceivedFits(c, before);
      RunFramed(c, before);
      NextFits(c, Run(c, START, before), io);
    }
  }

  lemma NextFits(c: Cfg, d: Dir, io: Io)
    requires WF(c, d) && InputFramed(c, d) && forall f :: f in Frames(c.endian, d.input) ==> FitsPipe(c, f)
    ensures forall f :: f in Frames(c.endian, Step(c, d, io).input) ==> FitsPipe(c, f)
  {
    match d.phase
    case Await(_, _) => HeaderStepFramed(c, d, io);
    case Fill(_, _) => FillFramed(c, d, io);
    case Head(_, _, _) => HeadStepCases(c, d, io);
    case Drain(_, _, _, _) => var _ := DrainStepCases(c, d, io);
  }

  /** Past the frames `fs` a frame that does not fit is never received whole. */
  lemma StopsAt(e: int, cap: nat, fs: seq<seq<byte>>, hdr: HeaderBytes, rest: seq<byte>)
    requires forall f :: f in fs ==> IsFrame(e, f)
    requires MsgLength(e, hdr) - MSG_HEADER_LEN > cap
    requires forall f :: f in Frames(e, Flatten(fs) + (hdr + rest)) ==> |f| - MSG_HEADER_LEN <= cap
    ensures Frames(e, Flatten(fs) + (hdr + rest)) == fs
  {
    var tail := hdr + rest;
    FramesOfFlatten(e, fs, tail);
    assert forall f :: f in Frames(e, tail) ==> f in fs + Frames(e, tail);
    FirstFrame(e, hdr, rest);
  }

  lemma FirstFrame(e: int, hdr: HeaderBytes, rest: seq<byte>)
    ensures Frames(e, hdr + rest) != [] ==> exists f :: f in Frames(e, hdr + rest) && |f| == MsgLength(e, hdr)
  {
    var tail := hdr + rest;
    assert tail[..MSG_HEADER_LEN] == hdr;
    if Frames(e, tail) != [] {
      assert Frames(e, tail)[0] in Frames(e, tail);
    }
  }

  /** Once a frame does not fit, an event loop writes as many bytes as the frames before it have, and in a clean run those frames. */
  lemma OversizeStops(c: Cfg, evs: seq<Event>, fs: seq<seq<byte>>, hdr: HeaderBytes, rest: seq<byte>)
    requires forall f :: f in fs ==> IsFrame(c.endian, f)
    requires MsgLength(c.endian, hdr) - MSG_HEADER_LEN > c.cap
    requires Events(c, START, evs).input == Flatten(fs) + (hdr + rest)
    ensures var d := Events(c, START, evs);
            && |d.output| == |Flatten(fs)|
            && (CleanRun(c, START, TakenAll(c, START, evs)) ==> d.output == Flatten(fs))
  {
    var ios := TakenAll(c, START, evs);
    EventsAreRun(c, START, evs);
    ReceivedFits(c, ios);
    StopsAt(c.endian, c.cap, fs, hdr, rest);
    RunFramed(c, ios);
    EventLoopStream(c, evs);
  }

  lemma CarriedFits(c: Cfg, evs: seq<Event>, fs: seq<seq<byte>>)
    requires (forall f :: f in fs ==> IsFrame(c.endian, f)) && Carries(c, evs, Flatten(fs))
    ensures forall f :: f in fs ==> FitsPipe(c, f)
  {
    EventsAreRun(c, START, evs);
    ReceivedFits(c, TakenAll(c, START, evs));
    FramesOfFlatten(c.endian, fs, []);
    assert Flatten(fs) + [] == Flatten(fs);
    assert forall f :: f in fs ==> f in fs + Frames(c.endian, []);
  }

  /** Some event loop carries a stream of valid frames through if and only if every body fits the pipe. */
  lemma CarriedIffAllFit(c: Cfg, fs: seq<seq<byte>>)
    requires forall f :: f in fs ==> IsFrame(c.endian, f)
    ensures (exists evs :: Carries(c, evs, Flatten(fs))) <==> forall f :: f in fs ==> FitsPipe(c, f)
  {
    if forall f :: f in fs ==> FitsPipe(c, f) {
      var evs := CarryAll(c, fs);
      assert Carries(c, evs, Flatten(fs));
    } else if evs :| Carries(c, evs, Flatten(fs)) {
      CarriedFits(c, evs, fs);
    }
  }

  // ----- the shipped byte order -----

  /** What the client program sends: a nonzero version and 1 to 1023 body bytes. */
  predicate FromClient(m: Msg) {
    m.version != 0 && 1 <= |m.body| < BUF_MAX_LEN
  }

  /** The frame length reads the same in both byte orders. */
  predicate Symmetric(m: Msg) {
    |Encode(LITTLE, m)| % 0x100 == 0
  }

  lemma ClientFrame(cap: nat, m: Msg)
    requires FromClient(m) && cap <= 0x10000
    ensures |Encode(LITTLE, m)| >= MSG_HEADER_LEN
    ensures if Symmetric(m) then IsFrame(ENDIAN, Encode(LITTLE, m))
            else MsgLength(ENDIAN, Encode(LITTLE, m)[..MSG_HEADER_LEN]) - MSG_HEADER_LEN > cap
  {
    ClientHeaderReadByProxy(m);
  }

  lemma ClientFrames(cap: nat, ms: seq<Msg>)
    requires BUF_MAX_LEN <= cap <= 0x10000 && forall m :: m in ms ==> FromClient(m) && Symmetric(m)
    ensures forall f :: f in EncodeAll(LITTLE, ms) ==> IsFrame(ENDIAN, f) && FitsPipe(Cfg(ENDIAN, cap), f)
  {
    forall i | 0 <= i < |ms|
      ensures IsFrame(ENDIAN, EncodeAll(LITTLE, ms)[i]) && FitsPipe(Cfg(ENDIAN, cap), EncodeAll(LITTLE, ms)[i])
    {
      assert ms[i] in ms;
      ClientFrame(cap, ms[i]);
    }
  }

  /**
   * A little-endian client through the proxy as built (`ENDIAN 1`, pipes up to 64 KiB): from the first
   * message whose frame length is not a multiple of 256 on, no event loop writes any more bytes than
   * the messages before it have.
   */
  lemma ShippedOrderStops(cap: nat, ms: seq<Msg>, m: Msg, rest: seq<byte>, evs: seq<Event>)
    requires BUF_MAX_LEN <= cap <= 0x10000 && forall k :: k in ms ==> FromClient(k) && Symmetric(k)
    requires FromClient(m) && !Symmetric(m)
    requires Events(Cfg(ENDIAN, cap), START, evs).input
          == Flatten(EncodeAll(LITTLE, ms)) + (Encode(LITTLE, m)[..MSG_HEADER_LEN] + rest)
    ensures var c, before := Cfg(ENDIAN, cap), Flatten(EncodeAll(LITTLE, ms));
            && |Events(c, START, evs).output| == |before|
            && (CleanRun(c, START, TakenAll(c, START, evs)) ==> Events(c, START, evs).output == before)
  {
    ClientFrames(cap, ms);
    ClientFrame(cap, m);
    OversizeStops(Cfg(ENDIAN, cap), evs, EncodeAll(LITTLE, ms), Encode(LITTLE, m)[..MSG_HEADER_LEN], rest);
  }

  lemma {:induction false} FirstAsymmetric(ms: seq<Msg>) returns (k: nat)
    requires exists m :: m in ms && !Symmetric(m)
    ensures k < |ms| && !Symmetric(ms[k]) && forall m :: m in ms[..k] ==> Symmetric(m)
  {
    k := 0;
    while Symmetric(ms[k])
      invariant k < |ms| && forall i :: 0 <= i < k ==> Symmetric(ms[i])
      decreases |ms| - k
    {
      var m :| m in ms && !Symmetric(m);
      var j :| 0 <= j < |ms| && ms[j] == m;
      assert k < j;
      k := k + 1;
    }
  }

  lemma SplitStream(ms: seq<Msg>, k: nat)
    requires k < |ms|
    ensures Flatten(EncodeAll(LITTLE, ms))
         == Flatten(EncodeAll(LITTLE, ms[..k])) + (Encode(LITTLE, ms[k]) + Flatten(EncodeAll(LITTLE, ms[k + 1..])))
  {
    var rest := [Encode(LITTLE, ms[k])] + EncodeAll(LITTLE, ms[k + 1..]);
    assert EncodeAll(LITTLE, ms) == EncodeAll(LITTLE, ms[..k]) + rest;
    FlattenAppend(EncodeAll(LITTLE, ms[..k]), rest);
    assert rest[1..] == EncodeAll(LITTLE, ms[k + 1..]);
  }

  /** Some event loop carries such a client's messages through exactly when every frame length is a multiple of 256. */
  lemma ShippedOrderIff(cap: nat, ms: seq<Msg>)
    requires BUF_MAX_LEN <= cap <= 0x10000 && forall m :: m in ms ==> FromClient(m)
    ensures (exists evs :: Carries(Cfg(ENDIAN, cap), evs, Flatten(EncodeAll(LITTLE, ms)))) <==> forall m :: m in ms ==> Symmetric(m)
  {
    var c, s := Cfg(ENDIAN, cap), Flatten(EncodeAll(LITTLE, ms));
    if forall m :: m in ms ==> Symmetric(m) {
      ClientFrames(cap, ms);
      CarriedIffAllFit(c, EncodeAll(LITTLE, ms));
    } else if evs :| Carries(c, evs, s) {
      var k := FirstAsymmetric(ms);
      NotCarried(cap, ms, k, evs);
    }
  }

  lemma NotCarried(cap: nat, ms: seq<Msg>, k: nat, evs: seq<Event>)
    requires BUF_MAX_LEN <= cap <= 0x10000 && forall m :: m in ms ==> FromClient(m)
    requires k < |ms| && !Symmetric(ms[k]) && forall m :: m in ms[..k] ==> Symmetric(m)
    ensures !Carries(Cfg(ENDIAN, cap), evs, Flatten(EncodeAll(LITTLE, ms)))
  {
    SplitStream(ms, k);
    if Events(Cfg(ENDIAN, cap), START, evs).input == Flatten(EncodeAll(LITTLE, ms)) {
      assert forall m :: m in ms[..k] ==> m in ms;
      StopsShort(cap, ms[..k], ms[k], Flatten(EncodeAll(LITTLE, ms[k + 1..])), evs);
    }
  }

  lemma HeaderFirst(f: seq<byte>, tail: seq<byte>)
    requires |f| >= MSG_HEADER_LEN
    ensures f + tail == f[..MSG_HEADER_LEN] + (f[MSG_HEADER_LEN..] + tail)
  {
  }

  lemma StopsShort(cap: nat, ms: seq<Msg>, m: Msg, tail: seq<byte>, evs: seq<Event>)
    requires BUF_MAX_LEN <= cap <= 0x10000 && forall k :: k in ms ==> FromClient(k) && Symmetric(k)
    requires FromClient(m) && !Symmetric(m)
    requires Events(Cfg(ENDIAN, cap), START, evs).input == Flatten(EncodeAll(LITTLE, ms)) + (Encode(LITTLE, m) + tail)
    ensures |Events(Cfg(ENDIAN, cap), START, evs).output| < |Events(Cfg(ENDIAN, cap), START, evs).input|
  {
    var f := Encode(LITTLE, m);
    ClientFrame(cap, m);
    HeaderFirst(f, tail);
    ShippedOrderStops(cap, ms, m, f[MSG_HEADER_LEN..] + tail, evs);
  }
}
