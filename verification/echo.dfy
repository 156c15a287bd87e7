/**
 * The server's user-copy echo (src/server/server.c): the relay's receive and header phases with a
 * 1024-byte body array for the pipe, and a body write that restarts from the front of its buffer.
 */
module Echo {
  import opened Bytes
  import opened Codec
  import opened Os
  import opened Relay

  /** The server decodes little-endian.  It has no pipe: a capacity above every 24-bit length never binds. */
  const SERVER: Cfg := Cfg(LITTLE, 0x100_0000)

  /** `Undefined`: a copy or a write past the 1024-byte body buffers, where the C program means nothing. */
  datatype Stage =
    | Rx(p: Phase)
    | Tx(hdr: HeaderBytes, body: seq<byte>, owed: nat, sent: nat)
    | Undefined

  datatype Srv = Srv(stage: Stage, open: bool, input: seq<byte>, output: seq<byte>)

  const CLEARED: Srv := Srv(Rx(Await(0, 0)), true, [], [])

  function AsDir(u: Srv): Dir
    requires u.stage.Rx?
  {
    Dir(u.stage.p, u.open, u.input, u.output)
  }

  /** What was received of a body fits its buffer, whatever length was announced. */
  predicate Fits(p: Phase) {
    match p
    case Fill(_, body) => |body| <= BUF_MAX_LEN
    case Head(_, _, body) => |body| <= BUF_MAX_LEN
    case _ => !p.Drain?
  }

  predicate WFS(u: Srv) {
    match u.stage
    case Rx(p) => Fits(p) && WF(SERVER, AsDir(u))
    case Tx(hdr, body, owed, sent) =>
      && MSG_HEADER_LEN + |body| == MsgLength(LITTLE, hdr) && 0 < |body| <= BUF_MAX_LEN
      && 0 < owed && MSG_HEADER_LEN <= sent
      && MSG_HEADER_LEN + |body| <= owed + sent < 2 * MSG_HEADER_LEN + |body|
    case Undefined => true
  }

  function Lift(d: Dir): (u: Srv)
    requires WF(SERVER, d)
    requires d.phase.Drain? ==> 0 < |d.phase.body| <= BUF_MAX_LEN && d.phase.sent == MSG_HEADER_LEN
    ensures WFS(u)
  {
    var stage :=
      match d.phase
      case Drain(hdr, body, slack, sent) => Tx(hdr, body, |body| + slack, sent)
      case p => if Fits(p) then Rx(p) else Undefined;
    Srv(stage, d.open, d.input, d.output)
  }

  /** `write_body_buf` before a body write with `k` body bytes sent: refilled `MSG_HEADER_LEN` short when `k > 0`. */
  function BodyBuffer(body: seq<byte>, k: nat): (b: seq<byte>)
    requires |body| <= BUF_MAX_LEN && (k > 0 ==> k + MSG_HEADER_LEN <= |body|)
    ensures |b| == BUF_MAX_LEN
  {
    if k == 0 then body + Zeros(BUF_MAX_LEN - |body|)
    else
      var end := |body| - MSG_HEADER_LEN;
      Zeros(k) + body[k..end] + Zeros(BUF_MAX_LEN - end)
  }

  lemma LiftAsDir(u: Srv)
    requires WFS(u) && u.stage.Rx?
    ensures Lift(AsDir(u)) == u
  {
  }

  /** The same buffer, byte by byte. */
  lemma BodyBufferIs(body: seq<byte>, k: nat, end: nat, b: seq<byte>)
    requires |body| <= BUF_MAX_LEN && (k > 0 ==> k + MSG_HEADER_LEN <= |body|)
    requires end == if k == 0 then |body| else |body| - MSG_HEADER_LEN
    requires |b| == BUF_MAX_LEN
    requires forall i :: 0 <= i < BUF_MAX_LEN ==> b[i] == if k <= i < end then body[i] else 0
    ensures b == BodyBuffer(body, k)
  {
    assert b[..k] == Zeros(k);
    assert b[k..end] == body[k..end];
    assert b[end..] == Zeros(BUF_MAX_LEN - end);
    assert b == b[..k] + b[k..end] + b[end..];
  }

  /** The refill's `memcpy` count is not negative and the write stays inside the buffer. */
  predicate BodyWriteDefined(u: Srv)
    requires u.stage.Tx?
  {
    var Tx(hdr, body, owed, sent) := u.stage;
    (sent > MSG_HEADER_LEN ==> sent <= |body|) && owed <= BUF_MAX_LEN
  }

  /** How many bytes a body write takes. */
  function BodyTaken(u: Srv, io: Io): (n: nat)
    requires WFS(u) && u.stage.Tx?
    ensures n == if io.Put? then Min(io.n, u.stage.owed) else 0
  {
    var r := Write(io, u.stage.owed);
    if r.Put? then r.n else 0
  }

  function WriteBody(u: Srv, io: Io): (u': Srv)
    requires WFS(u) && u.stage.Tx?
    ensures WFS(u')
  {
    var Tx(hdr, body, owed, sent) := u.stage;
    if sent >= MSG_HEADER_LEN + |body| then u
    else if !BodyWriteDefined(u) then u.(stage := Undefined)
    else
      var n := BodyTaken(u, io);
      if n == 0 then u
      else Srv(Owing(u.stage, n), u.open, u.input, u.output + BodyBuffer(body, sent - MSG_HEADER_LEN)[..n])
  }

  /** The stage once `n` more body bytes are out. */
  function Owing(s: Stage, n: nat): Stage
    requires s.Tx? && n <= s.owed
  {
    if n == s.owed then Rx(Await(0, 0)) else Tx(s.hdr, s.body, s.owed - n, s.sent + n)
  }

  /** The two ways a body write that is not `Undefined` begins. */
  lemma WriteBodyBegins(u: Srv, io: Io)
    requires WFS(u) && u.stage.Tx? && !WriteBody(u, io).stage.Undefined?
    ensures if u.stage.sent >= MSG_HEADER_LEN + |u.stage.body| then WriteBody(u, io) == u else BodyWriteDefined(u)
  {
  }

  /** What a body write of `n` bytes leaves. */
  predicate BodyWritten(u: Srv, u': Srv, sentNow: seq<byte>)
    requires u.stage.Tx?
  {
    var n := |sentNow|;
    && u'.open == u.open && u'.input == u.input && u'.output == u.output + sentNow
    && n <= u.stage.owed && u'.stage == Owing(u.stage, n)
  }

  /** A body write that takes nothing changes nothing. */
  lemma NothingTaken(u: Srv, io: Io)
    requires WFS(u) && u.stage.Tx? && BodyWriteDefined(u) && BodyTaken(u, io) == 0
    ensures WriteBody(u, io) == u
  {
  }

  /** A defined body write sends the front of the refilled buffer `buf`. */
  lemma BodyWriteCases(u: Srv, io: Io, buf: seq<byte>)
    requires WFS(u) && u.stage.Tx? && u.stage.sent < MSG_HEADER_LEN + |u.stage.body| && BodyWriteDefined(u)
    requires buf == BodyBuffer(u.stage.body, u.stage.sent - MSG_HEADER_LEN)
    ensures BodyTaken(u, io) <= |buf| && BodyWritten(u, WriteBody(u, io), buf[..BodyTaken(u, io)])
  {
    if BodyTaken(u, io) == 0 {
      assert buf[..0] == [] && u.output + [] == u.output;
    }
  }

  lemma WrittenOnce(u: Srv, u1: Srv, u2: Srv, sentNow: seq<byte>)
    requires u.stage.Tx? && BodyWritten(u, u1, sentNow) && BodyWritten(u, u2, sentNow)
    ensures u1 == u2
  {
  }

  function SStep(u: Srv, io: Io): (u': Srv)
    requires WFS(u)
    ensures WFS(u')
  {
    match u.stage
    case Rx(p) => Lift(Step(SERVER, AsDir(u), io))
    case Tx(_, _, _, _) => WriteBody(u, io)
    case Undefined => u
  }

  function SRun(u: Srv, ios: seq<Io>): (u': Srv)
    requires WFS(u)
    ensures WFS(u')
  {
    if ios == [] then u else SStep(SRun(u, ios[..|ios| - 1]), ios[|ios| - 1])
  }

  /** Into room for all it asks, a splice is a read. */
  lemma SpliceIsRead(io: Io, open: bool, count: int, space: int)
    requires 0 < count <= space
    ensures SpliceIn(io, open, count, space) == Read(io, open, count)
  {
  }

  // ----- one event -----

  /** Offers for the call sites of one pass of the event loop: two tries at the body, two at its echo. */
  datatype SEvent = SEvent(header: Io, fill: Io, refill: Io, head: Io, body: Io, again: Io)

  function SFill(u: Srv, io: Io): (u': Srv)
    requires WFS(u)
    ensures WFS(u')
  {
    if u.stage.Rx? && u.stage.p.Fill? then Lift(FillPipe(SERVER, AsDir(u), io)) else u
  }

  function SReceive(u: Srv, header: Io, fill: Io): (u': Srv)
    requires WFS(u)
    ensures WFS(u')
  {
    SFill(if u.stage.Rx? && u.stage.p.Await? then Lift(ReadHeader(SERVER, AsDir(u), header)) else u, fill)
  }

  function SReceived(u: Srv, ev: SEvent): (u': Srv)
    requires WFS(u)
    ensures WFS(u')
  {
    SFill(if u.stage.Rx? && u.stage.p.Await? then SReceive(u, ev.header, ev.fill) else u, ev.refill)
  }

  function SFlush(u: Srv, io: Io): (u': Srv)
    requires WFS(u)
    ensures WFS(u')
  {
    if u.stage.Tx? then WriteBody(u, io) else u
  }

  function SSend(u: Srv, head: Io, body: Io): (u': Srv)
    requires WFS(u)
    ensures WFS(u')
  {
    SFlush(if u.stage.Rx? && u.stage.p.Head? then Lift(WriteHeader(SERVER, AsDir(u), head)) else u, body)
  }

  function SOnEvent(u: Srv, ev: SEvent): (u': Srv)
    requires WFS(u)
    ensures WFS(u')
  {
    SFlush(SSend(SReceived(u, ev), ev.head, ev.body), ev.again)
  }

  /** The event loop. */
  function SEvents(u: Srv, evs: seq<SEvent>): (u': Srv)
    requires WFS(u)
    ensures WFS(u')
  {
    if evs == [] then u else SOnEvent(SEvents(u, evs[..|evs| - 1]), evs[|evs| - 1])
  }

  // ----- event loops are runs -----

  lemma {:induction false} SRunAppend(u: Srv, xs: seq<Io>, ys: seq<Io>)
    requires WFS(u)
    ensures SRun(u, xs + ys) == SRun(SRun(u, xs), ys)
  {
    if ys == [] {
      assert xs + ys == xs;
    } else {
      assert (xs + ys)[..|xs + ys| - 1] == xs + ys[..|ys| - 1];
      SRunAppend(u, xs, ys[..|ys| - 1]);
    }
  }

  lemma SRunOffer(u: Srv, ios: seq<Io>, made: bool, io: Io)
    requires WFS(u)
    ensures SRun(u, ios + Offer(made, io)) == if made then SStep(SRun(u, ios), io) else SRun(u, ios)
  {
    if made {
      assert (ios + [io])[..|ios + [io]| - 1] == ios;
    } else {
      assert ios + [] == ios;
    }
  }

  predicate Awaits(u: Srv) {
    u.stage.Rx? && u.stage.p.Await?
  }

  predicate Fills(u: Srv) {
    u.stage.Rx? && u.stage.p.Fill?
  }

  predicate Heads(u: Srv) {
    u.stage.Rx? && u.stage.p.Head?
  }

  /** The offers one pass of the event loop takes up, added to those of a run so far. */
  function STakenIn(u: Srv, ev: SEvent, ios: seq<Io>): seq<Io>
    requires WFS(u)
  {
    var u1 := if Awaits(u) then SStep(u, ev.header) else u;
    var u2 := if Awaits(u) then SFill(u1, ev.fill) else u1;
    ios + Offer(Awaits(u), ev.header) + Offer(Awaits(u) && Fills(u1), ev.fill) + Offer(Fills(u2), ev.refill)
  }

  function STakenOut(u: Srv, head: Io, body: Io, again: Io, ios: seq<Io>): seq<Io>
    requires WFS(u)
  {
    var u1 := if Heads(u) then SStep(u, head) else u;
    var u2 := SFlush(u1, body);
    ios + Offer(Heads(u), head) + Offer(u1.stage.Tx?, body) + Offer(u2.stage.Tx?, again)
  }

  function STaken(u: Srv, ev: SEvent): (ios: seq<Io>)
    requires WFS(u)
  {
    STakenOut(SReceived(u, ev), ev.head, ev.body, ev.again, STakenIn(u, ev, []))
  }

  lemma SReceivedIsRun(u0: Srv, ios: seq<Io>, ev: SEvent)
    requires WFS(u0)
    ensures var u := SRun(u0, ios); SReceived(u, ev) == SRun(u0, STakenIn(u, ev, ios))
  {
    var u := SRun(u0, ios);
    SRunOffer(u0, ios, Awaits(u), ev.header);
    var ios1 := ios + Offer(Awaits(u), ev.header);
    var u1 := SRun(u0, ios1);
    SRunOffer(u0, ios1, Awaits(u) && Fills(u1), ev.fill);
    var ios2 := ios1 + Offer(Awaits(u) && Fills(u1), ev.fill);
    SRunOffer(u0, ios2, Fills(SRun(u0, ios2)), ev.refill);
  }

  lemma SHeadIsRun(u0: Srv, ios: seq<Io>, head: Io)
    requires WFS(u0)
    ensures var u := SRun(u0, ios);
            (if Heads(u) then SStep(u, head) else u) == SRun(u0, ios + Offer(Heads(u), head))
  {
    SRunOffer(u0, ios, Heads(SRun(u0, ios)), head);
  }

  lemma SFlushIsRun(u0: Srv, ios: seq<Io>, io: Io)
    requires WFS(u0)
    ensures var u := SRun(u0, ios); SFlush(u, io) == SRun(u0, ios + Offer(u.stage.Tx?, io))
  {
    SRunOffer(u0, ios, SRun(u0, ios).stage.Tx?, io);
  }

  lemma SSentIsRun(u0: Srv, ios: seq<Io>, head: Io, body: Io, again: Io)
    requires WFS(u0)
    ensures var u := SRun(u0, ios);
            SFlush(SSend(u, head, body), again) == SRun(u0, STakenOut(u, head, body, again, ios))
  {
    SHeadIsRun(u0, ios, head);
    var ios1 := ios + Offer(Heads(SRun(u0, ios)), head);
    SFlushIsRun(u0, ios1, body);
    SFlushIsRun(u0, ios1 + Offer(SRun(u0, ios1).stage.Tx?, body), again);
  }

  lemma SEventIsRun(u: Srv, ev: SEvent)
    requires WFS(u)
    ensures SOnEvent(u, ev) == SRun(u, STaken(u, ev))
  {
    assert SRun(u, []) == u;
    SReceivedIsRun(u, [], ev);
    SSentIsRun(u, STakenIn(u, ev, []), ev.head, ev.body, ev.again);
  }

  /** The offers a whole event loop takes up. */
  function STakenAll(u: Srv, evs: seq<SEvent>): (ios: seq<Io>)
    requires WFS(u)
  {
    if evs == [] then [] else
    var before := evs[..|evs| - 1];
    STakenAll(u, before) + STaken(SEvents(u, before), evs[|evs| - 1])
  }

  /** So every theorem about runs is one about event loops. */
  lemma {:induction false} SEventsAreRun(u: Srv, evs: seq<SEvent>)
    requires WFS(u)
    ensures SEvents(u, evs) == SRun(u, STakenAll(u, evs))
  {
    if evs != [] {
      var before, ev := evs[..|evs| - 1], evs[|evs| - 1];
      SEventsAreRun(u, before);
      SEventIsRun(SEvents(u, before), ev);
      SRunAppend(u, STakenAll(u, before), STaken(SEvents(u, before), ev));
    }
  }
}
