/**
 * The user-copy echo against the zero-copy relay: the same schedule drives both, and they stay in
 * step exactly while the server's resumed body writes happen to send the right bytes.  Echo
 * correctness then comes from the relay's theorems.
 */
module Lockstep {
  import opened Bytes
  import opened Codec
  import opened Os
  import opened Relay
  import opened RelayProofs
  import opened Echo

  /** The relay state a server state stands for: the unsent part of the body is what a pipe would hold. */
  ghost predicate Matches(u: Srv, d: Dir)
    requires WFS(u)
  {
    && u.open == d.open && u.input == d.input && u.output == d.output
    && match u.stage
       case Rx(p) => d.phase == p
       case Tx(hdr, body, owed, sent) =>
         && sent <= MSG_HEADER_LEN + |body|
         && d.phase == Drain(hdr, body[sent - MSG_HEADER_LEN..], owed + sent - MSG_HEADER_LEN - |body|, sent)
       case Undefined => false
  }

  /** A body write that stays within the body, and when resumed has only zero bytes to send. */
  predicate CleanBody(u: Srv, io: Io)
    requires WFS(u)
  {
    u.stage.Tx? && u.stage.sent < MSG_HEADER_LEN + |u.stage.body| && BodyWriteDefined(u) ==>
      CleanPiece(u.stage.body, u.stage.sent - MSG_HEADER_LEN, BodyTaken(u, io))
  }

  predicate CleanPiece(body: seq<byte>, k: nat, n: nat) {
    k + n <= |body| && (k == 0 || AllZero(body[k..k + n]))
  }

  predicate CleanBodies(ios: seq<Io>) {
    ios != [] ==>
      CleanBodies(ios[..|ios| - 1]) && CleanBody(SRun(CLEARED, ios[..|ios| - 1]), ios[|ios| - 1])
  }

  // ----- pipe size does not matter to what a server can take -----

  lemma SameStep(cap: nat, d: Dir, io: Io)
    requires cap > BUF_MAX_LEN && WF(SERVER, d) && WF(Cfg(LITTLE, cap), d) && Fits(d.phase)
    requires !Lift(Step(SERVER, d, io)).stage.Undefined?
    ensures Step(Cfg(LITTLE, cap), d, io) == Step(SERVER, d, io)
  {
  }

  // ----- one body write -----

  /** The server's body buffer holds the due bytes at its front exactly when the write is clean. */
  lemma BodyWriteBytes(body: seq<byte>, k: nat, n: nat)
    requires |body| <= BUF_MAX_LEN && (k > 0 ==> k + MSG_HEADER_LEN <= |body|) && k + n <= |body|
    ensures BodyBuffer(body, k)[..n] == body[k..k + n] <==> k == 0 || AllZero(body[k..k + n])
  {
    var buf := BodyBuffer(body, k);
    if k == 0 {
      assert buf[..n] == body[..n];
    } else {
      ResumeSendsDueBytesIffZero(buf, body, k, n);
    }
  }

  lemma TailOfTail(s: seq<byte>, k: nat, n: nat)
    requires k + n <= |s|
    ensures s[k..][..n] == s[k..k + n] && s[k..][n..] == s[k + n..]
  {
  }

  /** A clean body write sends the front of what is left of the body. */
  lemma CleanBytes(u: Srv, io: Io, k: nat, n: nat)
    requires WFS(u) && u.stage.Tx? && CleanBody(u, io) && BodyWriteDefined(u)
    requires k == u.stage.sent - MSG_HEADER_LEN < |u.stage.body| && n == BodyTaken(u, io)
    ensures k + n <= |u.stage.body| && BodyWritten(u, WriteBody(u, io), u.stage.body[k..][..n])
    ensures u.stage.body[k..][n..] == u.stage.body[k + n..]
  {
    var body := u.stage.body;
    CleanFront(body, k, n, u, io);
    BodyWriteCases(u, io, BodyBuffer(body, k));
  }

  lemma CleanFront(body: seq<byte>, k: nat, n: nat, u: Srv, io: Io)
    requires WFS(u) && u.stage.Tx? && CleanBody(u, io) && BodyWriteDefined(u)
    requires body == u.stage.body && k == u.stage.sent - MSG_HEADER_LEN < |body|
    requires n == BodyTaken(u, io)
    ensures k + n <= |body| && BodyBuffer(body, k)[..n] == body[k..][..n] && body[k..][n..] == body[k + n..]
  {
    assert CleanPiece(body, k, n);
    BodyWriteBytes(body, k, n);
    TailOfTail(body, k, n);
  }

  /** A clean body write is the relay's splice. */
  lemma CleanBodyMatches(cap: nat, u: Srv, d: Dir, io: Io)
    requires WFS(u) && WF(Cfg(LITTLE, cap), d) && Matches(u, d) && u.stage.Tx? && CleanBody(u, io)
    requires !WriteBody(u, io).stage.Undefined?
    ensures Matches(WriteBody(u, io), DrainPipe(Cfg(LITTLE, cap), d, io))
  {
    if u.stage.sent < MSG_HEADER_LEN + |u.stage.body| {
      LiveBodyMatches(cap, u, d, io);
    } else {
      var m := DrainStepCases(Cfg(LITTLE, cap), d, io);
      assert m == 0 && d.output + [] == d.output;
    }
  }

  lemma LiveBodyMatches(cap: nat, u: Srv, d: Dir, io: Io)
    requires WFS(u) && WF(Cfg(LITTLE, cap), d) && Matches(u, d) && u.stage.Tx? && CleanBody(u, io)
    requires BodyWriteDefined(u) && u.stage.sent < MSG_HEADER_LEN + |u.stage.body|
    ensures Matches(WriteBody(u, io), DrainPipe(Cfg(LITTLE, cap), d, io))
  {
    var k, n := u.stage.sent - MSG_HEADER_LEN, BodyTaken(u, io);
    var d' := DrainPipe(Cfg(LITTLE, cap), d, io);
    CleanBytes(u, io, k, n);
    var rest := u.stage.body[k..];
    DrainsFront(cap, d, io, rest, u.stage.owed - |rest|, n);
    BothWritten(u, WriteBody(u, io), d, d', rest, n);
  }

  lemma DrainsFront(cap: nat, d: Dir, io: Io, rest: seq<byte>, slack: nat, n: nat)
    requires WF(Cfg(LITTLE, cap), d) && d.phase.Drain? && d.phase.body == rest && d.phase.slack == slack
    requires n <= |rest| && n == if io.Put? then Min(io.n, |rest| + slack) else 0
    ensures Drained(d, DrainPipe(Cfg(LITTLE, cap), d, io), n)
  {
    var m := DrainStepCases(Cfg(LITTLE, cap), d, io);
    assert m == n;
  }

  /** What a splice of `n` bytes out of the pipe leaves. */
  predicate Drained(d: Dir, d': Dir, n: nat)
    requires d.phase.Drain? && n <= |d.phase.body|
  {
    && d'.open == d.open && d'.input == d.input && d'.output == d.output + d.phase.body[..n]
    && d'.phase == if |d.phase.body| - n + d.phase.slack == 0 then Await(0, 0)
                   else Drain(d.phase.hdr, d.phase.body[n..], d.phase.slack, d.phase.sent + n)
  }

  lemma BothWritten(u: Srv, u': Srv, d: Dir, d': Dir, rest: seq<byte>, n: nat)
    requires WFS(u) && WFS(u') && u.stage.Tx? && Matches(u, d) && u.stage.sent < MSG_HEADER_LEN + |u.stage.body|
    requires rest == u.stage.body[u.stage.sent - MSG_HEADER_LEN..] && n <= |rest|
    requires BodyWritten(u, u', rest[..n]) && Drained(d, d', n)
    ensures Matches(u', d')
  {
    TailOfTail(u.stage.body, u.stage.sent - MSG_HEADER_LEN, n);
  }

  /** A body write that is not clean sends other bytes than the relay, or more than the body. */
  lemma DirtyBytes(u: Srv, io: Io, k: nat, n: nat)
    requires WFS(u) && u.stage.Tx? && !CleanBody(u, io)
    requires k == u.stage.sent - MSG_HEADER_LEN && n == BodyTaken(u, io)
    ensures k < |u.stage.body| && BodyWriteDefined(u)
    ensures WriteBody(u, io).output == u.output + BodyBuffer(u.stage.body, k)[..n]
    ensures k + n <= |u.stage.body| ==> BodyBuffer(u.stage.body, k)[..n] != u.stage.body[k..][..n]
  {
    var buf := BodyBuffer(u.stage.body, k);
    BodyWriteCases(u, io, buf);
    DirtyFront(u.stage.body, k, n, buf);
  }

  lemma DirtyFront(body: seq<byte>, k: nat, n: nat, buf: seq<byte>)
    requires k <= |body| <= BUF_MAX_LEN && (k > 0 ==> k + MSG_HEADER_LEN <= |body|) && buf == BodyBuffer(body, k)
    requires !CleanPiece(body, k, n)
    ensures k + n <= |body| ==> buf[..n] != body[k..][..n]
  {
    if k + n <= |body| {
      BodyWriteBytes(body, k, n);
      TailOfTail(body, k, n);
    }
  }

  /** Any other body write leaves the relay's output for good. */
  lemma DirtyBodyDiffers(cap: nat, u: Srv, d: Dir, io: Io)
    requires WFS(u) && WF(Cfg(LITTLE, cap), d) && Matches(u, d) && u.stage.Tx? && !CleanBody(u, io)
    ensures var u', d' := WriteBody(u, io), DrainPipe(Cfg(LITTLE, cap), d, io);
            u'.output != d'.output && !(u'.output <= d.output + d.phase.body)
  {
    var k, n := u.stage.sent - MSG_HEADER_LEN, BodyTaken(u, io);
    var rest := u.stage.body[k..];
    DirtyBytes(u, io, k, n);
    if n <= |rest| {
      DrainsFront(cap, d, io, rest, u.stage.owed - |rest|, n);
      OtherBytes(d.output, BodyBuffer(u.stage.body, k)[..n], rest, n);
    } else {
      DrainsAtMost(cap, d, io);
    }
  }

  lemma DrainsAtMost(cap: nat, d: Dir, io: Io)
    requires WF(Cfg(LITTLE, cap), d) && d.phase.Drain?
    ensures |DrainPipe(Cfg(LITTLE, cap), d, io).output| <= |d.output| + |d.phase.body|
  {
    var _ := DrainStepCases(Cfg(LITTLE, cap), d, io);
  }

  lemma OtherBytes(out: seq<byte>, buf: seq<byte>, rest: seq<byte>, n: nat)
    requires n == |buf| <= |rest| && buf != rest[..n]
    ensures out + buf != out + rest[..n] && !(out + buf <= out + rest)
  {
    var i :| 0 <= i < n && buf[i] != rest[..n][i];
    assert (out + buf)[|out| + i] == buf[i];
    assert (out + rest[..n])[|out| + i] == rest[i] == (out + rest)[|out| + i];
  }

  // ----- whole runs -----

  lemma StepMatches(cap: nat, u: Srv, d: Dir, io: Io)
    requires cap > BUF_MAX_LEN && WFS(u) && WF(Cfg(LITTLE, cap), d) && Matches(u, d)
    requires CleanBody(u, io) && !SStep(u, io).stage.Undefined?
    ensures Matches(SStep(u, io), Step(Cfg(LITTLE, cap), d, io))
  {
    if u.stage.Rx? {
      assert AsDir(u) == d;
      SameStep(cap, d, io);
      LiftMatches(Step(SERVER, d, io));
    } else {
      CleanBodyMatches(cap, u, d, io);
    }
  }

  lemma LiftMatches(d: Dir)
    requires WF(SERVER, d) && (d.phase.Drain? ==> 0 < |d.phase.body| <= BUF_MAX_LEN && d.phase.sent == MSG_HEADER_LEN)
    requires !Lift(d).stage.Undefined?
    ensures Matches(Lift(d), d)
  {
    if d.phase.Drain? {
      assert d.phase.body[0..] == d.phase.body;
    }
  }

  /**
   * Zero-copy refines user-copy: under one schedule, while the server's body writes are clean, the
   * proxy with any pipe of more than 1024 bytes is in the matching phase with the same bytes in and out.
   */
  lemma {:induction false} ZeroCopyMatchesUserCopy(cap: nat, ios: seq<Io>)
    requires cap > BUF_MAX_LEN && CleanBodies(ios) && !SRun(CLEARED, ios).stage.Undefined?
    ensures Matches(SRun(CLEARED, ios), Run(Cfg(LITTLE, cap), START, ios))
  {
    if ios != [] {
      var before, io := ios[..|ios| - 1], ios[|ios| - 1];
      ZeroCopyMatchesUserCopy(cap, before);
      StepMatches(cap, SRun(CLEARED, before), Run(Cfg(LITTLE, cap), START, before), io);
    }
  }

  /** At every point of the run the two outputs are equal. */
  ghost predicate SameOutputs(cap: nat, ios: seq<Io>) {
    && SRun(CLEARED, ios).output == Run(Cfg(LITTLE, cap), START, ios).output
    && (ios != [] ==> SameOutputs(cap, ios[..|ios| - 1]))
  }

  /** In a defined run the proxy and the server emit the same stream throughout exactly when body writes are clean. */
  lemma {:induction false} SameOutputsIffCleanBodies(cap: nat, ios: seq<Io>)
    requires cap > BUF_MAX_LEN && !SRun(CLEARED, ios).stage.Undefined?
    ensures SameOutputs(cap, ios) <==> CleanBodies(ios)
  {
    if ios != [] {
      var before, io := ios[..|ios| - 1], ios[|ios| - 1];
      SameOutputsIffCleanBodies(cap, before);
      if CleanBodies(before) {
        ZeroCopyMatchesUserCopy(cap, before);
        var u, d := SRun(CLEARED, before), Run(Cfg(LITTLE, cap), START, before);
        if CleanBody(u, io) {
          ZeroCopyMatchesUserCopy(cap, ios);
        } else {
          DirtyBodyDiffers(cap, u, d, io);
        }
      }
    }
  }

  // ----- echo exactness -----

  /** At every point of the run the echo is a prefix of what was received. */
  ghost predicate Echoes(ios: seq<Io>) {
    && SRun(CLEARED, ios).output <= SRun(CLEARED, ios).input
    && (ios != [] ==> Echoes(ios[..|ios| - 1]))
  }

  /** The server's header writes go through the relay's code; clean means the same. */
  ghost predicate CleanEcho(ios: seq<Io>) {
    CleanBodies(ios) && CleanRun(SERVER, START, ios)
  }

  /** The part of complete frames not yet echoed. */
  function Unechoed(u: Srv): seq<byte>
    requires WFS(u)
  {
    match u.stage
    case Rx(p) => Unsent(p)
    case Tx(_, body, _, sent) => if sent - MSG_HEADER_LEN <= |body| then body[sent - MSG_HEADER_LEN..] else []
    case Undefined => []
  }

  /** The echo and what is still to be echoed of the last frame received are the complete valid frames of the input. */
  ghost predicate EchoedFrames(u: Srv)
    requires WFS(u)
  {
    var fs := Frames(LITTLE, u.input);
    && u.output + Unechoed(u) == Flatten(fs) <= u.input
    && (Unechoed(u) != [] ==> fs != [] && Flatten(fs[..|fs| - 1]) <= u.output)
  }

  /** In a clean defined run the echo is whole received frames in order. */
  lemma EchoesWholeFrames(ios: seq<Io>)
    requires CleanEcho(ios) && !SRun(CLEARED, ios).stage.Undefined?
    ensures EchoedFrames(SRun(CLEARED, ios))
  {
    ZeroCopyMatchesUserCopy(SERVER.cap, ios);
    StoreAndForward(SERVER, ios);
  }

  lemma {:induction false} EchoIffClean(ios: seq<Io>)
    requires !SRun(CLEARED, ios).stage.Undefined?
    ensures Echoes(ios) <==> CleanEcho(ios)
  {
    if ios != [] {
      var before, io := ios[..|ios| - 1], ios[|ios| - 1];
      EchoIffClean(before);
      if CleanBodies(ios) {
        ZeroCopyMatchesUserCopy(SERVER.cap, ios);
        StreamCorrectIffClean(SERVER, ios);
      } else if CleanEcho(before) {
        ZeroCopyMatchesUserCopy(SERVER.cap, before);
        RunFramed(SERVER, before);
        DirtyBodyDiffers(SERVER.cap, SRun(CLEARED, before), Run(SERVER, START, before), io);
        FramesAreAPrefix(LITTLE, Run(SERVER, START, before).input);
      }
    }
  }

  /**
   * The server's event loop, for every sequence of events it survives.  Its echo is at every moment a
   * prefix of its input exactly when header and body writes were clean, and then echoes whole frames
   * in order; a relay given the same system calls writes the same exactly when body writes were clean.
   */
  lemma EchoLoop(cap: nat, evs: seq<SEvent>)
    requires cap > BUF_MAX_LEN && !SEvents(CLEARED, evs).stage.Undefined?
    ensures var u, ios := SEvents(CLEARED, evs), STakenAll(CLEARED, evs);
            && (Echoes(ios) <==> CleanEcho(ios)) && (CleanEcho(ios) ==> EchoedFrames(u))
            && (SameOutputs(cap, ios) <==> CleanBodies(ios))
  {
    var ios := STakenAll(CLEARED, evs);
    SEventsAreRun(CLEARED, evs);
    EchoIffClean(ios);
    SameOutputsIffCleanBodies(cap, ios);
    if CleanEcho(ios) {
      EchoesWholeFrames(ios);
    }
  }

  // ----- complete writes -----

  /** A write that succeeds takes all it is given. */
  predicate Complete(io: Io) {
    io.Put? ==> io.n >= MSG_HEADER_LEN + BUF_MAX_LEN
  }

  predicate AllComplete(ios: seq<Io>) {
    forall i :: 0 <= i < |ios| ==> Complete(ios[i])
  }

  /** No frame received, whole or in part, has more than 1024 body bytes. */
  ghost predicate InBuffers(d: Dir) {
    && (forall f :: f in Frames(LITTLE, d.input) ==> |f| <= 20 + 1024)
    && (d.phase.Fill? ==> |d.phase.body| <= 1024)
  }

  lemma BuffersStep(d: Dir, io: Io)
    requires WF(SERVER, d) && InputFramed(SERVER, d)
    ensures var d' := Step(SERVER, d, io);
            InBuffers(d') <==> InBuffers(d) && (d.phase.Fill? ==> |d'.phase.body| <= BUF_MAX_LEN)
  {
    match d.phase
    case Await(_, _) =>
      HeaderStepFramed(SERVER, d, io);
      var _ := HeaderStepCases(SERVER, d, io);
    case Fill(_, _) =>
      FillFramed(SERVER, d, io);
      var _ := FillStepCases(SERVER, d, io);
      OneMoreFrame(d, Step(SERVER, d, io));
    case Head(_, _, _) => HeadStepCases(SERVER, d, io);
    case Drain(_, _, _, _) => var _ := DrainStepCases(SERVER, d, io);
  }

  lemma OneMoreFrame(d: Dir, d': Dir)
    requires d.phase.Fill? && (d'.phase.Fill? || d'.phase.Head?) && d.phase.body <= d'.phase.body
    requires Frames(LITTLE, d'.input) == Frames(LITTLE, d.input) + if d'.phase.Head? then [d'.phase.hdr + d'.phase.body] else []
    ensures InBuffers(d') <==> InBuffers(d) && |d'.phase.body| <= BUF_MAX_LEN
  {
    var fs, fs' := Frames(LITTLE, d.input), Frames(LITTLE, d'.input);
    assert forall f :: f in fs ==> f in fs';
    if d'.phase.Head? {
      assert fs'[|fs|] in fs' && |fs'[|fs|]| == MSG_HEADER_LEN + |d'.phase.body|;
    }
  }

  /** Server and relay between complete writes: nothing is ever half sent. */
  ghost predicate WholeWrites(u: Srv, d: Dir)
    requires WFS(u)
  {
    && (u.stage.Undefined? <==> !InBuffers(d))
    && (d.phase.Head? ==> d.phase.done == 0)
    && match u.stage
       case Undefined => true
       case Rx(_) => Matches(u, d)
       case Tx(_, body, owed, sent) => Matches(u, d) && sent == MSG_HEADER_LEN && owed == |body|
  }

  lemma WholeRead(u: Srv, d: Dir, io: Io)
    requires WFS(u) && WF(SERVER, d) && InputFramed(SERVER, d) && WholeWrites(u, d) && u.stage.Rx? && !d.phase.Head?
    ensures WholeWrites(SStep(u, io), Step(SERVER, d, io))
  {
    var d' := Step(SERVER, d, io);
    BuffersStep(d, io);
    ReadPhase(d, io);
    assert SStep(u, io) == Lift(d');
    WholeLift(d');
  }

  lemma ReadPhase(d: Dir, io: Io)
    requires WF(SERVER, d) && (d.phase.Await? || d.phase.Fill?)
    ensures var p := Step(SERVER, d, io).phase;
            && !p.Drain? && (p.Head? ==> p.done == 0)
            && if d.phase.Await? then p.Await? || (p.Fill? && p.body == []) else !p.Await?
  {
    if d.phase.Await? {
      var _ := HeaderStepCases(SERVER, d, io);
    } else {
      var _ := FillStepCases(SERVER, d, io);
    }
  }

  lemma WholeLift(d: Dir)
    requires WF(SERVER, d) && !d.phase.Drain? && (d.phase.Head? ==> d.phase.done == 0)
    requires InBuffers(d) <==> Fits(d.phase)
    ensures WholeWrites(Lift(d), d)
  {
  }

  lemma WholeHead(u: Srv, d: Dir, io: Io)
    requires WFS(u) && WF(SERVER, d) && InputFramed(SERVER, d) && WholeWrites(u, d) && u.stage.Rx? && d.phase.Head? && Complete(io)
    ensures CleanStep(SERVER, d, io) && WholeWrites(SStep(u, io), Step(SERVER, d, io))
  {
    BuffersStep(d, io);
    HeadStepCases(SERVER, d, io);
    LiftMatches(Step(SERVER, d, io));
  }

  lemma WholeBody(u: Srv, d: Dir, io: Io)
    requires WFS(u) && WF(SERVER, d) && InputFramed(SERVER, d) && WholeWrites(u, d) && u.stage.Tx? && Complete(io)
    ensures CleanBody(u, io) && WholeWrites(SStep(u, io), Step(SERVER, d, io))
  {
    BuffersStep(d, io);
    BodyWriteCases(u, io, BodyBuffer(u.stage.body, 0));
    CleanBodyMatches(SERVER.cap, u, d, io);
  }

  lemma WholeUndefined(u: Srv, d: Dir, io: Io)
    requires WFS(u) && WF(SERVER, d) && InputFramed(SERVER, d) && WholeWrites(u, d) && u.stage.Undefined? && Complete(io)
    ensures CleanStep(SERVER, d, io) && WholeWrites(SStep(u, io), Step(SERVER, d, io))
  {
    BuffersStep(d, io);
    if d.phase.Head? {
      HeadStepCases(SERVER, d, io);
    }
  }

  /**
   * With complete writes, for any splitting of body reads, the echo is clean, and it stays defined
   * exactly while no frame received, whole or in part, has more than 1024 body bytes.
   */
  lemma {:induction false} CompleteWritesEcho(ios: seq<Io>)
    requires AllComplete(ios)
    ensures CleanEcho(ios) && WholeWrites(SRun(CLEARED, ios), Run(SERVER, START, ios))
  {
    if ios != [] {
      var before, io := ios[..|ios| - 1], ios[|ios| - 1];
      var u, d := SRun(CLEARED, before), Run(SERVER, START, before);
      CompleteWritesEcho(before);
      RunFramed(SERVER, before);
      match u.stage
      case Undefined => WholeUndefined(u, d, io);
      case Rx(_) => if d.phase.Head? { WholeHead(u, d, io); } else { WholeRead(u, d, io); }
      case Tx(_, _, _, _) => WholeBody(u, d, io);
    }
  }

  predicate CompleteEvent(ev: SEvent) {
    && Complete(ev.header) && Complete(ev.fill) && Complete(ev.refill)
    && Complete(ev.head) && Complete(ev.body) && Complete(ev.again)
  }

  lemma TakenComplete(u: Srv, ev: SEvent)
    requires WFS(u) && CompleteEvent(ev)
    ensures AllComplete(STaken(u, ev))
  {
    var u1 := if Awaits(u) then SStep(u, ev.header) else u;
    var u2 := if Awaits(u) then SFill(u1, ev.fill) else u1;
    ThreeOffers([], Awaits(u), ev.header, Awaits(u) && Fills(u1), ev.fill, Fills(u2), ev.refill);
    var v := SReceived(u, ev);
    var v1 := if Heads(v) then SStep(v, ev.head) else v;
    ThreeOffers(STakenIn(u, ev, []), Heads(v), ev.head, v1.stage.Tx?, ev.body, SFlush(v1, ev.body).stage.Tx?, ev.again);
  }

  lemma ThreeOffers(ios: seq<Io>, a: bool, x: Io, b: bool, y: Io, c: bool, z: Io)
    requires AllComplete(ios) && Complete(x) && Complete(y) && Complete(z)
    ensures AllComplete(ios + Offer(a, x) + Offer(b, y) + Offer(c, z))
  {
    AllCompleteTogether(ios, Offer(a, x));
    AllCompleteTogether(ios + Offer(a, x), Offer(b, y));
    AllCompleteTogether(ios + Offer(a, x) + Offer(b, y), Offer(c, z));
  }

  lemma {:induction false} AllTakenComplete(evs: seq<SEvent>)
    requires forall i :: 0 <= i < |evs| ==> CompleteEvent(evs[i])
    ensures AllComplete(STakenAll(CLEARED, evs))
  {
    if evs != [] {
      var before, ev := evs[..|evs| - 1], evs[|evs| - 1];
      AllTakenComplete(before);
      TakenComplete(SEvents(CLEARED, before), ev);
      AllCompleteTogether(STakenAll(CLEARED, before), STaken(SEvents(CLEARED, before), ev));
    }
  }

  lemma AllCompleteTogether(xs: seq<Io>, ys: seq<Io>)
    requires AllComplete(xs) && AllComplete(ys)
    ensures AllComplete(xs + ys)
  {
  }

  /**
   * Echo exactness for the event loop: with complete writes, for any splitting of body reads, it is
   * defined exactly while no frame received has more than 1024 body bytes, and then its output and
   * what is still to be echoed of the last frame are the received frames in order.
   */
  lemma EchoExact(evs: seq<SEvent>)
    requires forall i :: 0 <= i < |evs| ==> CompleteEvent(evs[i])
    ensures var u, d := SEvents(CLEARED, evs), Run(SERVER, START, STakenAll(CLEARED, evs));
            && (u.stage.Undefined? <==> !InBuffers(d))
            && (!u.stage.Undefined? ==> u.input == d.input && EchoedFrames(u))
  {
    var ios := STakenAll(CLEARED, evs);
    SEventsAreRun(CLEARED, evs);
    AllTakenComplete(evs);
    CompleteWritesEcho(ios);
    if !SRun(CLEARED, ios).stage.Undefined? {
      EchoesWholeFrames(ios);
    }
  }

  // ----- an echo that goes wrong -----

  /** Little-endian length `len`, the code's low byte 7. */
  function EchoHeader(len: byte): HeaderBytes {
    [1, len, 0, 0, 0, 7] + Zeros(14)
  }

  lemma BodyInTwoPieces(hdr: HeaderBytes, body: seq<byte>)
    requires |body| == MSG_HEADER_LEN + 1 && MsgLength(LITTLE, hdr) == MSG_HEADER_LEN + |body|
    ensures var u := Srv(Tx(hdr, body, |body|, MSG_HEADER_LEN), true, hdr + body, hdr);
            WriteBody(WriteBody(u, Put(1)), Put(MSG_HEADER_LEN))
            == Srv(Rx(Await(0, 0)), true, hdr + body, hdr + body[..1] + Zeros(MSG_HEADER_LEN))
  {
    var u := Srv(Tx(hdr, body, |body|, MSG_HEADER_LEN), true, hdr + body, hdr);
    BodyWriteCases(u, Put(1), BodyBuffer(body, 0));
    assert BodyBuffer(body, 0)[..1] == body[..1];
    BodyWriteCases(WriteBody(u, Put(1)), Put(MSG_HEADER_LEN), BodyBuffer(body, 1));
    assert BodyBuffer(body, 1)[..MSG_HEADER_LEN] == Zeros(MSG_HEADER_LEN);
  }

  lemma FrameReceived(hdr: HeaderBytes, body: seq<byte>, ev: SEvent)
    requires body != [] && MsgLength(LITTLE, hdr) == MSG_HEADER_LEN + |body| <= MSG_HEADER_LEN + BUF_MAX_LEN
    requires ev.header == Got(hdr) && ev.fill == Got(body)
    ensures SReceived(CLEARED, ev) == Srv(Rx(Head(hdr, 0, body)), true, hdr + body, [])
  {
    assert AsDir(CLEARED) == START && [] + hdr == hdr;
    FullHeaderIn(SERVER, START, hdr);
    var d := Dir(Fill(hdr, []), true, hdr, []);
    var u := Srv(Rx(Fill(hdr, [])), true, hdr, []);
    assert Lift(ReadHeader(SERVER, START, ev.header)) == u && AsDir(u) == d;
    FullBodyIn(SERVER, d, body);
    assert SReceive(CLEARED, ev.header, ev.fill) == SFill(u, ev.fill);
  }

  lemma FrameToEcho(hdr: HeaderBytes, body: seq<byte>, ev: SEvent)
    requires body != [] && MsgLength(LITTLE, hdr) == MSG_HEADER_LEN + |body| <= MSG_HEADER_LEN + BUF_MAX_LEN
    requires ev.header == Got(hdr) && ev.fill == Got(body) && ev.head == Put(MSG_HEADER_LEN)
    ensures SOnEvent(CLEARED, ev)
         == SFlush(SFlush(Srv(Tx(hdr, body, |body|, MSG_HEADER_LEN), true, hdr + body, hdr), ev.body), ev.again)
  {
    FrameReceived(hdr, body, ev);
    FrameHeadSent(hdr, body, ev.head);
  }

  lemma FrameHeadSent(hdr: HeaderBytes, body: seq<byte>, head: Io)
    requires body != [] && MsgLength(LITTLE, hdr) == MSG_HEADER_LEN + |body| <= MSG_HEADER_LEN + BUF_MAX_LEN
    requires head == Put(MSG_HEADER_LEN)
    ensures var u := Srv(Rx(Head(hdr, 0, body)), true, hdr + body, []);
            WFS(u) && Lift(WriteHeader(SERVER, AsDir(u), head)) == Srv(Tx(hdr, body, |body|, MSG_HEADER_LEN), true, hdr + body, hdr)
  {
    FullHeaderOut(SERVER, Dir(Head(hdr, 0, body), true, hdr + body, []), head);
    assert [] + hdr == hdr;
  }

  /** A frame of 21 body bytes, the body sent as 1 byte and then 20: the echo ends in 20 zeros. */
  lemma ResumedBodyDiverges()
    ensures var body := seq(21, _ => 9 as byte);
            var ev := SEvent(Got(EchoHeader(41)), Got(body), Again, Put(MSG_HEADER_LEN), Put(1), Put(MSG_HEADER_LEN));
            var u := SEvents(CLEARED, [ev]);
            && !u.stage.Undefined? && u.input == EchoHeader(41) + body
            && u.output == EchoHeader(41) + body[..1] + Zeros(MSG_HEADER_LEN) && !(u.output <= u.input)
  {
    var body := seq(21, _ => 9 as byte);
    var ev := SEvent(Got(EchoHeader(41)), Got(body), Again, Put(MSG_HEADER_LEN), Put(1), Put(MSG_HEADER_LEN));
    FrameToEcho(EchoHeader(41), body, ev);
    BodyInTwoPieces(EchoHeader(41), body);
    assert [ev][..0] == [];
    assert SEvents(CLEARED, [ev]) == SOnEvent(CLEARED, ev);
    var output := EchoHeader(41) + body[..1] + Zeros(MSG_HEADER_LEN);
    assert output[21] == 0 && (EchoHeader(41) + body)[21] == body[1] == 9;
  }
}
