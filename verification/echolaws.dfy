/** What the server does with each offer, byte by byte, and that passes of its event loop get a frame through. */
module EchoLaws {
  import opened Bytes
  import opened Codec
  import opened Os
  import opened Relay
  import opened RelayProofs
  import opened RelayLaws
  import opened Echo
  import opened Lockstep
  import opened EchoRuns

  // ----- EAGAIN changes nothing -----

  /** The refill before a body write would stay within its buffers. */
  predicate RefillDefined(u: Srv) {
    u.stage.Tx? && u.stage.sent < MSG_HEADER_LEN + |u.stage.body| ==> BodyWriteDefined(u)
  }

  /** A call that moves nothing leaves the server as it was, unless its refill is what breaks it. */
  lemma SAgainStays(u: Srv)
    requires WFS(u)
    ensures SStep(u, Again) == u <==> RefillDefined(u)
  {
    if u.stage.Rx? {
      AgainStays(SERVER, AsDir(u));
      LiftAsDir(u);
    }
  }

  /** So does a pass of the event loop that finds nothing ready. */
  lemma IdlePass(u: Srv)
    requires WFS(u) && RefillDefined(u)
    ensures SOnEvent(u, SEvent(Again, Again, Again, Again, Again, Again)) == u
  {
    SAgainStays(u);
  }

  /** The client is closed by the same offers as the proxy's source, and by no write. */
  lemma SClosesIff(u: Srv, io: Io)
    requires WFS(u) && u.open
    ensures !SStep(u, io).open <==> (Awaits(u) || Fills(u)) && Closing(SERVER, AsDir(u), io)
  {
    if u.stage.Rx? {
      ClosesIff(SERVER, AsDir(u), io);
      assert SStep(u, io) == Lift(Step(SERVER, AsDir(u), io));
    }
  }

  // ----- what a body write sends -----

  /** Byte `i` of a body write is byte `i` of the body, cleared on a resume outside `k` up to 20 short of the end. */
  lemma BodyBytesSent(u: Srv, m: nat)
    requires WFS(u) && u.stage.Tx? && u.stage.sent < MSG_HEADER_LEN + |u.stage.body| && BodyWriteDefined(u)
    ensures var Tx(_, body, owed, sent) := u.stage;
            var k, n, out := sent - MSG_HEADER_LEN, Min(m, owed), WriteBody(u, Put(m)).output;
            && |out| == |u.output| + n && u.output <= out
            && (forall i :: 0 <= i < n ==>
                  out[|u.output| + i] == if k <= i < |body| - (if k == 0 then 0 else MSG_HEADER_LEN) then body[i] else 0)
  {
    var body, k := u.stage.body, u.stage.sent - MSG_HEADER_LEN;
    var buf := BodyBuffer(body, k);
    BodyWriteCases(u, Put(m), buf);
    BodyBufferBytes(body, k);
  }

  lemma BodyBufferBytes(body: seq<byte>, k: nat)
    requires |body| <= BUF_MAX_LEN && (k > 0 ==> k + MSG_HEADER_LEN <= |body|)
    ensures forall i :: 0 <= i < BUF_MAX_LEN ==>
              BodyBuffer(body, k)[i] == if k <= i < |body| - (if k == 0 then 0 else MSG_HEADER_LEN) then body[i] else 0
  {
    if k > 0 {
      var end := |body| - MSG_HEADER_LEN;
      assert body[k..end] == body[..end][k..];
    }
  }

  // ----- both receive attempts of a pass count -----

  /** A pass in the middle of a body reads on. */
  lemma PassReads(u: Srv, ev: SEvent)
    requires WFS(u) && Fills(u) && u.open && ev.refill.Got? && ev.refill.data != []
    ensures SOnEvent(u, ev).input == u.input + ev.refill.data[..Min(|ev.refill.data|, Room(SERVER, AsDir(u)))]
    ensures |SOnEvent(u, ev).input| > |u.input|
  {
    ReadTakes(SERVER, AsDir(u), ev.refill.data);
    var v := SReceived(u, ev);
    assert v == Lift(FillPipe(SERVER, AsDir(u), ev.refill));
    SentInput(v, ev.head, ev.body, ev.again);
  }

  lemma SentInput(u: Srv, head: Io, body: Io, again: Io)
    requires WFS(u)
    ensures SFlush(SSend(u, head, body), again).input == u.input
  {
    var v := if Heads(u) then Lift(WriteHeader(SERVER, AsDir(u), head)) else u;
    if Heads(u) {
      HeadStepCases(SERVER, AsDir(u), head);
    }
    FlushInput(v, body);
    FlushInput(SFlush(v, body), again);
  }

  lemma FlushInput(u: Srv, io: Io)
    requires WFS(u)
    ensures SFlush(u, io).input == u.input
  {
  }

  /** A pass that finds the header, part of the body and, at the second try, the rest has received the frame. */
  lemma BodyInTwoReads(hdr: HeaderBytes, first: seq<byte>, second: seq<byte>, ev: SEvent)
    requires first != [] && second != [] && |first| + |second| <= BUF_MAX_LEN
    requires MsgLength(LITTLE, hdr) == MSG_HEADER_LEN + |first| + |second|
    requires ev.header == Got(hdr) && ev.fill == Got(first) && ev.refill == Got(second)
    ensures SReceived(CLEARED, ev) == Srv(Rx(Head(hdr, 0, first + second)), true, hdr + (first + second), [])
  {
    assert AsDir(CLEARED) == START && [] + hdr == hdr;
    FullHeaderIn(SERVER, START, hdr);
    var u0 := Srv(Rx(Fill(hdr, [])), true, hdr, []);
    assert Lift(ReadHeader(SERVER, START, ev.header)) == u0;
    FillPart(u0, first);
    FillRest(Srv(Rx(Fill(hdr, first)), true, hdr + first, []), second);
    assert hdr + first + second == hdr + (first + second);
  }

  lemma FillPart(u: Srv, data: seq<byte>)
    requires WFS(u) && Fills(u) && u.open && data != [] && u.stage.p.body == []
    requires MSG_HEADER_LEN + |data| < MsgLength(LITTLE, u.stage.p.hdr) && |data| <= BUF_MAX_LEN
    ensures SFill(u, Got(data)) == Srv(Rx(Fill(u.stage.p.hdr, data)), true, u.input + data, u.output)
  {
    assert data[..|data|] == data && [] + data == data;
  }

  lemma FillRest(u: Srv, data: seq<byte>)
    requires WFS(u) && Fills(u) && u.open && data != []
    requires MSG_HEADER_LEN + |u.stage.p.body| + |data| == MsgLength(LITTLE, u.stage.p.hdr) <= MSG_HEADER_LEN + BUF_MAX_LEN
    ensures SFill(u, Got(data)) == Srv(Rx(Head(u.stage.p.hdr, 0, u.stage.p.body + data)), true, u.input + data, u.output)
  {
    assert data[..|data|] == data;
  }

  // ----- a frame in flight clears, pass by pass -----

  /** Body bytes at the second receive attempt, and complete writes. */
  predicate PassOffers(ev: SEvent) {
    && ev.refill.Got? && ev.refill.data != []
    && ev.head.Put? && Complete(ev.head) && ev.body.Put? && Complete(ev.body) && ev.again.Put? && Complete(ev.again)
  }

  predicate SClearable(u: Srv) {
    Whole(u) && InBuffer(u) && (Fills(u) ==> u.open)
  }

  lemma SentClears(u: Srv, ev: SEvent)
    requires WFS(u) && Whole(u) && (Heads(u) || u.stage.Tx?) && PassOffers(ev)
    ensures Awaits(SFlush(SSend(u, ev.head, ev.body), ev.again))
  {
    var v := if Heads(u) then SStep(u, ev.head) else u;
    if Heads(u) {
      HeadMoves(u, ev.head);
    }
    BodyMoves(v, ev.body);
  }

  lemma PassLowers(u: Srv, ev: SEvent)
    requires WFS(u) && SClearable(u) && !Awaits(u) && PassOffers(ev)
    ensures SClearable(SOnEvent(u, ev)) && SBudget(SOnEvent(u, ev)) < SBudget(u)
  {
    var v := SReceived(u, ev);
    if Fills(u) {
      FillMoves(u, ev.refill);
      assert v == SStep(u, ev.refill);
    }
    if !Fills(v) {
      SentClears(v, ev);
    }
  }

  lemma OneMorePass(u: Srv, evs: seq<SEvent>, ev: SEvent)
    requires WFS(u)
    ensures SEvents(u, evs + [ev]) == SOnEvent(SEvents(u, evs), ev)
  {
    assert (evs + [ev])[..|evs + [ev]| - 1] == evs;
  }

  lemma {:induction false} SEventsAppend(u: Srv, xs: seq<SEvent>, ys: seq<SEvent>)
    requires WFS(u)
    ensures SEvents(u, xs + ys) == SEvents(SEvents(u, xs), ys)
  {
    if ys == [] {
      assert xs + ys == xs;
    } else {
      assert xs + ys == (xs + ys[..|ys| - 1]) + [ys[|ys| - 1]];
      OneMorePass(u, xs + ys[..|ys| - 1], ys[|ys| - 1]);
      SEventsAppend(u, xs, ys[..|ys| - 1]);
    }
  }

  lemma SEventsFirst(u: Srv, evs: seq<SEvent>, k: nat)
    requires WFS(u) && k < |evs|
    ensures SEvents(u, evs[..k + 1]) == SEvents(SOnEvent(u, evs[0]), evs[1..][..k])
  {
    var ev := evs[0];
    assert evs[..k + 1] == [ev] + evs[1..][..k] && [] + [ev] == [ev];
    OneMorePass(u, [], ev);
    SEventsAppend(u, [ev], evs[1..][..k]);
  }

  /**
   * A frame in flight that fits the buffers is echoed and cleared within `SBudget` passes that offer
   * body bytes and complete writes: each pass goes on where the last one stopped.
   */
  lemma {:induction false} EchoClearsByPasses(u: Srv, evs: seq<SEvent>)
    requires WFS(u) && SClearable(u) && |evs| >= SBudget(u)
    requires forall i :: 0 <= i < |evs| ==> PassOffers(evs[i])
    ensures exists k :: 0 <= k <= |evs| && Awaits(SEvents(u, evs[..k]))
    decreases |evs|
  {
    if Awaits(u) {
      assert SEvents(u, evs[..0]) == u;
    } else {
      assert SBudget(u) > 0;
      PassLowers(u, evs[0]);
      var u', rest := SOnEvent(u, evs[0]), evs[1..];
      EchoClearsByPasses(u', rest);
      var k :| 0 <= k <= |rest| && Awaits(SEvents(u', rest[..k]));
      SEventsFirst(u, evs, k);
      assert Awaits(SEvents(u, evs[..k + 1]));
    }
  }
}
