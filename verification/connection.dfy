/** Two directions of one connection, each with its own `transc_t` and pipe (src/proxy/proxy.c). */
module Connection {
  import opened Bytes
  import opened Codec
  import opened Os
  import opened Relay
  import opened RelayProofs
  import DListPtr
  import Proxy

  datatype Side = Src | Dst

  /** Each direction reads the descriptor the other writes, so its `open` is the other's write end. */
  datatype Conn = Conn(ingoing: Dir, outgoing: Dir)

  const FRESH: Conn := Conn(START, START)

  predicate WFConn(c: Cfg, k: Conn) {
    WF(c, k.ingoing) && WF(c, k.outgoing)
  }

  function Of(k: Conn, side: Side): Dir {
    if side == Dst then k.outgoing else k.ingoing
  }

  function Other(side: Side): Side {
    if side == Dst then Src else Dst
  }

  /** The event as a direction meets it: on a closed write end every write fails. */
  function Offered(ev: Event, writeEnd: bool): Event {
    Event(ev.header, ev.fill, OnWriteEnd(ev.head, writeEnd), OnWriteEnd(ev.drain, writeEnd), OnWriteEnd(ev.again, writeEnd))
  }

  function OnSide(c: Cfg, k: Conn, side: Side, ev: Event): (k': Conn)
    requires WFConn(c, k)
    ensures WFConn(c, k')
  {
    if side == Dst then k.(outgoing := OnEvent(c, k.outgoing, Offered(ev, k.ingoing.open)))
    else k.(ingoing := OnEvent(c, k.ingoing, Offered(ev, k.outgoing.open)))
  }

  function Interleaved(c: Cfg, k: Conn, evs: seq<(Side, Event)>): (k': Conn)
    requires WFConn(c, k)
    ensures WFConn(c, k')
  {
    if evs == [] then k
    else
      var (side, ev) := evs[|evs| - 1];
      OnSide(c, Interleaved(c, k, evs[..|evs| - 1]), side, ev)
  }

  /** The events of one side. */
  function Only(side: Side, evs: seq<(Side, Event)>): seq<Event> {
    if evs == [] then []
    else
      var (s, ev) := evs[|evs| - 1];
      Only(side, evs[..|evs| - 1]) + (if s == side then [ev] else [])
  }

  /** Each direction run on its own events, with its write end open throughout. */
  function Alone(c: Cfg, k: Conn, evs: seq<(Side, Event)>): (k': Conn)
    requires WFConn(c, k)
    ensures WFConn(c, k')
  {
    Conn(Events(c, k.ingoing, Only(Src, evs)), Events(c, k.outgoing, Only(Dst, evs)))
  }

  // ----- one event -----

  /** A failing write end withholds exactly the event's writes; closing is for good and output only grows. */
  lemma FailingWrites(c: Cfg, d: Dir, ev: Event)
    requires WF(c, d)
    ensures OnEvent(c, d, Offered(ev, false)).output == d.output
    ensures OnEvent(c, d, Offered(ev, false)) == OnEvent(c, d, ev) <==> OnEvent(c, d, ev).output == d.output
    ensures d.output <= OnEvent(c, d, ev).output && (OnEvent(c, d, ev).open ==> d.open)
  {
    var d1 := Receive(c, d, ev.header, ev.fill);
    NoWriteEnd(c, d, ev);
    ReceiveWritesNothing(c, d, ev.header, ev.fill);
    WriteSilent(c, d1, ev.head);
    var d2 := if d1.phase.Head? then WriteHeader(c, d1, ev.head) else d1;
    DrainSilent(c, d2, ev.drain);
    DrainSilent(c, Flush(c, d2, ev.drain), ev.again);
  }

  lemma NoWriteEnd(c: Cfg, d: Dir, ev: Event)
    requires WF(c, d)
    ensures OnEvent(c, d, Offered(ev, false)) == Receive(c, d, ev.header, ev.fill)
  {
  }

  lemma ReceiveWritesNothing(c: Cfg, d: Dir, header: Io, fill: Io)
    requires WF(c, d)
    ensures var d' := Receive(c, d, header, fill); d'.output == d.output && (d'.open ==> d.open)
  {
  }

  lemma WriteSilent(c: Cfg, d: Dir, io: Io)
    requires WF(c, d)
    ensures var d' := if d.phase.Head? then WriteHeader(c, d, io) else d;
            d.output <= d'.output && d'.open == d.open && (d'.output == d.output <==> d' == d)
  {
    if d.phase.Head? {
      HeadStepCases(c, d, io);
    }
  }

  lemma DrainSilent(c: Cfg, d: Dir, io: Io)
    requires WF(c, d)
    ensures var d' := Flush(c, d, io);
            d.output <= d'.output && d'.open == d.open && (d'.output == d.output <==> d' == d)
  {
    if d.phase.Drain? {
      var n := DrainStepCases(c, d, io);
      assert d.phase.body[0..] == d.phase.body;
    }
  }

  lemma AloneStep(c: Cfg, k: Conn, evs: seq<(Side, Event)>)
    requires WFConn(c, k) && evs != []
    ensures var (side, ev) := evs[|evs| - 1];
            var a, a' := Alone(c, k, evs[..|evs| - 1]), Alone(c, k, evs);
            Of(a', side) == OnEvent(c, Of(a, side), ev) && Of(a', Other(side)) == Of(a, Other(side))
  {
    var before := evs[..|evs| - 1];
    var (side, ev) := evs[|evs| - 1];
    OneMoreEvent(c, Of(k, side), Only(side, before), ev);
    assert Only(Other(side), before) + [] == Only(Other(side), before);
  }

  // ----- whole runs -----

  /** No event of a direction writes a byte after the other direction's source was closed. */
  ghost predicate Undisturbed(c: Cfg, k: Conn, evs: seq<(Side, Event)>)
    requires WFConn(c, k)
  {
    evs != [] ==>
      var before, (side, ev) := evs[..|evs| - 1], evs[|evs| - 1];
      var a := Alone(c, k, before);
      && Undisturbed(c, k, before)
      && (Of(a, Other(side)).open || OnEvent(c, Of(a, side), ev).output == Of(a, side).output)
  }

  /** Direction `side` has lost its write end and fallen behind. */
  predicate CutOff(a: Conn, k: Conn, side: Side) {
    !Of(k, Other(side)).open && |Of(k, side).output| < |Of(a, side).output|
  }

  lemma CutOffStays(c: Cfg, a: Conn, a': Conn, k: Conn, cut: Side, side: Side, ev: Event)
    requires WFConn(c, a) && WFConn(c, k) && CutOff(a, k, cut)
    requires Of(a', side) == OnEvent(c, Of(a, side), ev) && Of(a', Other(side)) == Of(a, Other(side))
    ensures CutOff(a', OnSide(c, k, side, ev), cut)
  {
    FailingWrites(c, Of(a, side), ev);
    FailingWrites(c, Of(k, side), ev);
    FailingWrites(c, Of(k, side), Offered(ev, Of(k, Other(side)).open));
  }

  lemma {:induction false} AloneOrCutOff(c: Cfg, k: Conn, evs: seq<(Side, Event)>)
    requires WFConn(c, k)
    ensures var a, i := Alone(c, k, evs), Interleaved(c, k, evs);
            if Undisturbed(c, k, evs) then i == a else CutOff(a, i, Src) || CutOff(a, i, Dst)
  {
    if evs != [] {
      var before := evs[..|evs| - 1];
      var (side, ev) := evs[|evs| - 1];
      var a, i := Alone(c, k, before), Interleaved(c, k, before);
      AloneOrCutOff(c, k, before);
      AloneStep(c, k, evs);
      if Undisturbed(c, k, before) {
        FailingWrites(c, Of(a, side), ev);
      } else {
        CutOffStays(c, a, Alone(c, k, evs), i, if CutOff(a, i, Src) then Src else Dst, side, ev);
      }
    }
  }

  /**
   * However the two sides' events interleave, both directions end as if each had run alone if and
   * only if no direction, running alone, writes after the other's source was closed.
   */
  lemma IndependentIffUndisturbed(c: Cfg, k: Conn, evs: seq<(Side, Event)>)
    requires WFConn(c, k)
    ensures Interleaved(c, k, evs) == Alone(c, k, evs) <==> Undisturbed(c, k, evs)
  {
    AloneOrCutOff(c, k, evs);
  }

  lemma {:induction false} OpenUndisturbed(c: Cfg, k: Conn, evs: seq<(Side, Event)>)
    requires WFConn(c, k) && Alone(c, k, evs).ingoing.open && Alone(c, k, evs).outgoing.open
    ensures Undisturbed(c, k, evs)
  {
    if evs != [] {
      var before := evs[..|evs| - 1];
      var (side, ev) := evs[|evs| - 1];
      AloneStep(c, k, evs);
      FailingWrites(c, Of(Alone(c, k, before), side), ev);
      OpenUndisturbed(c, k, before);
    }
  }

  /** So in error-free runs the directions are independent. */
  lemma DirectionsIndependent(c: Cfg, k: Conn, evs: seq<(Side, Event)>)
    requires WFConn(c, k) && Alone(c, k, evs).ingoing.open && Alone(c, k, evs).outgoing.open
    ensures Interleaved(c, k, evs) == Alone(c, k, evs)
  {
    OpenUndisturbed(c, k, evs);
    AloneOrCutOff(c, k, evs);
  }

  lemma ThreeEvents(c: Cfg, k: Conn, ev1: Event, ev2: Event, ev3: Event)
    requires WFConn(c, k)
    ensures var evs := [(Src, ev1), (Dst, ev2), (Src, ev3)];
            && Interleaved(c, k, evs) == OnSide(c, OnSide(c, OnSide(c, k, Src, ev1), Dst, ev2), Src, ev3)
            && Alone(c, k, evs).ingoing == OnEvent(c, OnEvent(c, k.ingoing, ev1), ev3)
  {
    var one, two := [(Src, ev1)], [(Src, ev1), (Dst, ev2)];
    var evs := two + [(Src, ev3)];
    assert evs == [(Src, ev1), (Dst, ev2), (Src, ev3)];
    assert evs[..2] == two && two[..1] == one && one[..0] == [];
    assert two[..|two| - 1] == one && two[|two| - 1] == (Dst, ev2);
    assert Only(Src, one) == [ev1] && Only(Src, two) == Only(Src, one) + [];
    assert Interleaved(c, k, one) == OnSide(c, k, Src, ev1);
    TwoEvents(c, k.ingoing, ev1, ev3);
    assert Only(Src, evs) == [ev1, ev3];
  }

  const NOTHING := Event(Again, Again, Again, Again, Again)

  /** A frame waits to be sent, the other side hangs up, and the frame is lost though its peer was ready for it. */
  lemma HangUpLosesFrame(c: Cfg)
    requires c.endian == LITTLE && c.cap > 0
    ensures var evs := [(Src, NOTHING.(header := Got(SmallHeader()), fill := Got([9]))), (Dst, NOTHING.(header := Eof)),
                        (Src, NOTHING.(head := Put(MSG_HEADER_LEN), drain := Put(1)))];
            && Interleaved(c, FRESH, evs).ingoing.output == []
            && Alone(c, FRESH, evs).ingoing.output == SmallHeader() + [9]
            && !Undisturbed(c, FRESH, evs)
  {
    var ev1 := NOTHING.(header := Got(SmallHeader()), fill := Got([9]));
    var ev2, ev3 := NOTHING.(header := Eof), NOTHING.(head := Put(MSG_HEADER_LEN), drain := Put(1));
    ThreeEvents(c, FRESH, ev1, ev2, ev3);
    var d := FrameWaits(c);
    assert OnSide(c, Conn(d, START), Dst, ev2) == Conn(d, START.(open := false));
    FailingWrites(c, d, ev3);
    WholeFrameOut(c, d, ev3.head, ev3.drain);
    AloneOrCutOff(c, FRESH, [(Src, ev1), (Dst, ev2), (Src, ev3)]);
  }

  lemma FrameWaits(c: Cfg) returns (d: Dir)
    requires c.endian == LITTLE && c.cap > 0
    ensures d == Dir(Head(SmallHeader(), 0, [9]), true, SmallHeader() + [9], []) && WF(c, d)
    ensures OnEvent(c, START, NOTHING.(header := Got(SmallHeader()), fill := Got([9]))) == d
  {
    WholeFrameIn(c, START, SmallHeader(), [9]);
    assert [] + SmallHeader() + [9] == SmallHeader() + [9];
    d := Receive(c, START, Got(SmallHeader()), Got([9]));
  }

  // ----- streams of a whole connection -----

  /** The events of one side as it meets them. */
  function Met(c: Cfg, k: Conn, side: Side, evs: seq<(Side, Event)>): seq<Event>
    requires WFConn(c, k)
  {
    if evs == [] then []
    else
      var before, (s, ev) := evs[..|evs| - 1], evs[|evs| - 1];
      Met(c, k, side, before) + (if s == side then [Offered(ev, Of(Interleaved(c, k, before), Other(side)).open)] else [])
  }

  lemma {:induction false} EachSideIsEvents(c: Cfg, k: Conn, side: Side, evs: seq<(Side, Event)>)
    requires WFConn(c, k)
    ensures Of(Interleaved(c, k, evs), side) == Events(c, Of(k, side), Met(c, k, side, evs))
  {
    if evs != [] {
      var before := evs[..|evs| - 1];
      var (s, ev) := evs[|evs| - 1];
      EachSideIsEvents(c, k, side, before);
      if s == side {
        OneMoreEvent(c, Of(k, side), Met(c, k, side, before), Offered(ev, Of(Interleaved(c, k, before), Other(side)).open));
      } else {
        assert Met(c, k, side, before) + [] == Met(c, k, side, before);
      }
    }
  }

  /** In a new connection, hang-ups included, each direction's stream is right exactly when its own header writes were clean. */
  lemma ConnectionStreams(c: Cfg, side: Side, evs: seq<(Side, Event)>)
    ensures var d := Of(Interleaved(c, FRESH, evs), side);
            var clean := CleanRun(c, START, TakenAll(c, START, Met(c, FRESH, side, evs)));
            && (d.output <= d.input <==> clean) && (clean ==> StoredAndForwarded(c, d))
            && (Unsplit(d.phase) ==> clean) && |d.input| == |d.output| + Held(d.phase)
  {
    EachSideIsEvents(c, FRESH, side, evs);
    EventLoopStream(c, Met(c, FRESH, side, evs));
  }

  /** What `proxy_conn` sets up beside the descriptors of its work data. */
  class Session {
    const work: DListPtr.WorkData
    const ingoing: Proxy.Transc
    const outgoing: Proxy.Transc

    ghost predicate Valid()
      reads this, ingoing, ingoing.readHdr, outgoing, outgoing.readHdr
    {
      && ingoing != outgoing && ingoing.cfg == outgoing.cfg
      && {ingoing.readHdr, ingoing.writeHdr} !! {outgoing.readHdr, outgoing.writeHdr}
      && ingoing.Valid() && !ingoing.isSendBody && outgoing.Valid() && !outgoing.isSendBody
    }

    ghost function View(): (k: Conn)
      requires Valid()
      reads this, ingoing, ingoing.readHdr, outgoing, outgoing.readHdr
      ensures WFConn(ingoing.cfg, k)
    {
      Conn(ingoing.View(), outgoing.View())
    }

    constructor (work: DListPtr.WorkData, cfg: Cfg)
      ensures Valid() && View() == FRESH && ingoing.cfg == cfg && this.work == work
    {
      this.work := work;
      ingoing := new Proxy.Transc(cfg);
      outgoing := new Proxy.Transc(cfg);
    }

    /** `proxy_process_data`: the ready descriptor selects pipe and `transc`; writes go to the other, which may be closed. */
    method ProcessData(fd: int, ev: Event)
      requires Valid()
      modifies ingoing, ingoing.readHdr, ingoing.writeHdr, outgoing, outgoing.readHdr, outgoing.writeHdr
      ensures Valid()
      ensures View() == OnSide(ingoing.cfg, old(View()), if fd == work.dstFd then Dst else Src, ev)
    {
      if fd == work.dstFd {
        outgoing.ProcessData(Offered(ev, ingoing.open));
      } else {
        ingoing.ProcessData(Offered(ev, outgoing.open));
      }
    }
  }
}
