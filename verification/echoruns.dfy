/** How a frame clears in the server, and exactly when its runs leave what the C program defines. */
module EchoRuns {
  import opened Bytes
  import opened Codec
  import opened Os
  import opened Relay
  import opened RelayProofs
  import opened Echo
  import opened Lockstep

  // ----- a frame in flight clears -----

  /** No header or body is half sent. */
  predicate Whole(u: Srv) {
    match u.stage
    case Rx(p) => p.Head? ==> p.done == 0
    case Tx(_, body, owed, sent) => sent == MSG_HEADER_LEN && owed == |body|
    case Undefined => false
  }

  /** What the call of the present stage is offered moves at least one byte, and a write is complete. */
  predicate SOffers(u: Srv, io: Io) {
    match u.stage
    case Rx(Await(_, _)) => true
    case Rx(Fill(_, _)) => u.open && io.Got? && io.data != []
    case _ => io.Put? && Complete(io)
  }

  /** Body bytes to come, and two writes. */
  function SBudget(u: Srv): int {
    match u.stage
    case Rx(Fill(hdr, body)) => MsgLength(LITTLE, hdr) - MSG_HEADER_LEN - |body| + 2
    case Rx(Head(_, _, _)) => 2
    case Tx(_, _, _, _) => 1
    case _ => 0
  }

  predicate InBuffer(u: Srv) {
    Fills(u) ==> MsgLength(LITTLE, u.stage.p.hdr) <= MSG_HEADER_LEN + BUF_MAX_LEN
  }

  predicate AllSOffers(u: Srv, ios: seq<Io>)
    requires WFS(u)
    decreases |ios|
  {
    ios != [] && !Awaits(u) ==> SOffers(u, ios[0]) && AllSOffers(SStep(u, ios[0]), ios[1..])
  }

  lemma FillMoves(u: Srv, io: Io)
    requires WFS(u) && Fills(u) && InBuffer(u) && SOffers(u, io)
    ensures Whole(SStep(u, io)) && InBuffer(SStep(u, io)) && SBudget(SStep(u, io)) < SBudget(u)
    ensures SStep(u, io).open && !Awaits(SStep(u, io)) && !SStep(u, io).stage.Tx?
  {
    var d := AsDir(u);
    var b := FillStepCases(SERVER, d, io);
    var d' := Step(SERVER, d, io);
    assert b != [] && SStep(u, io) == Lift(d');
  }

  lemma HeadMoves(u: Srv, io: Io)
    requires WFS(u) && Heads(u) && Whole(u) && SOffers(u, io)
    ensures SStep(u, io).stage.Tx? && Whole(SStep(u, io))
  {
    var d := AsDir(u);
    HeadStepCases(SERVER, d, io);
    assert SStep(u, io) == Lift(Step(SERVER, d, io));
  }

  lemma BodyMoves(u: Srv, io: Io)
    requires WFS(u) && u.stage.Tx? && Whole(u) && SOffers(u, io)
    ensures Awaits(SStep(u, io))
  {
    BodyWriteCases(u, io, BodyBuffer(u.stage.body, 0));
  }

  lemma SRunFirst(u: Srv, ios: seq<Io>, k: nat)
    requires WFS(u) && k < |ios|
    ensures SRun(u, ios[..k + 1]) == SRun(SStep(u, ios[0]), ios[1..][..k])
  {
    assert ios[..k + 1] == [ios[0]] + ios[1..][..k];
    assert [ios[0]][..0] == [];
    SRunAppend(u, [ios[0]], ios[1..][..k]);
  }

  /** A frame that fits the buffers is echoed and cleared within `SBudget` calls that each move a byte, writes being complete. */
  lemma {:induction false} EchoClears(u: Srv, ios: seq<Io>)
    requires WFS(u) && Whole(u) && InBuffer(u) && AllSOffers(u, ios) && |ios| >= SBudget(u)
    ensures exists k :: 0 <= k <= |ios| && Awaits(SRun(u, ios[..k]))
    decreases |ios|
  {
    if Awaits(u) {
      assert SRun(u, ios[..0]) == u;
    } else {
      assert SBudget(u) > 0;
      EchoMoves(u, ios[0]);
      var u', rest := SStep(u, ios[0]), ios[1..];
      EchoClears(u', rest);
      var k :| 0 <= k <= |rest| && Awaits(SRun(u', rest[..k]));
      SRunFirst(u, ios, k);
      assert Awaits(SRun(u, ios[..k + 1]));
    }
  }

  lemma EchoMoves(u: Srv, io: Io)
    requires WFS(u) && Whole(u) && InBuffer(u) && !Awaits(u) && SOffers(u, io)
    ensures Whole(SStep(u, io)) && InBuffer(SStep(u, io)) && SBudget(SStep(u, io)) < SBudget(u)
  {
    if Fills(u) {
      FillMoves(u, io);
    } else if Heads(u) {
      HeadMoves(u, io);
    } else {
      BodyMoves(u, io);
    }
  }

  // ----- exactly when a run is defined -----

  /** `recv_bytes` counts exactly what is left of the body, and no header is half sent. */
  predicate Counted(u: Srv) {
    match u.stage
    case Rx(p) => p.Head? ==> p.done == 0
    case Tx(_, body, owed, sent) => owed + sent == MSG_HEADER_LEN + |body|
    case Undefined => true
  }

  /** A read brings a body's 1025th byte, or a body is written again with 1 to 19 of its bytes left. */
  predicate Breaks(u: Srv, io: Io) {
    match u.stage
    case Rx(Fill(hdr, body)) =>
      var r := Read(io, u.open, MsgLength(LITTLE, hdr) - MSG_HEADER_LEN - |body|);
      r.Got? && |body| + |r.data| > 1024
    case Tx(_, _, owed, sent) => sent > 20 && owed < 20
    case _ => false
  }

  predicate HeaderWhole(u: Srv, io: Io)
    requires WFS(u)
  {
    Heads(u) ==> Written(AsDir(u), io) in {0, MSG_HEADER_LEN}
  }

  lemma FillBreaks(u: Srv, io: Io)
    requires WFS(u) && Fills(u)
    ensures SStep(u, io).stage.Undefined? <==> Breaks(u, io)
    ensures Counted(SStep(u, io))
  {
    var d := AsDir(u);
    var Fill(hdr, body) := d.phase;
    SpliceIsRead(io, d.open, MsgLength(LITTLE, hdr) - MSG_HEADER_LEN - |body|, SERVER.cap - |body|);
    var b := FillStepCases(SERVER, d, io);
    assert SStep(u, io) == Lift(Step(SERVER, d, io));
  }

  lemma HeadCounted(u: Srv, io: Io)
    requires WFS(u) && u.stage.Rx? && !Fills(u) && Counted(u) && HeaderWhole(u, io)
    ensures !SStep(u, io).stage.Undefined? && Counted(SStep(u, io))
  {
    var d := AsDir(u);
    assert SStep(u, io) == Lift(Step(SERVER, d, io));
    if Heads(u) {
      HeadStepCases(SERVER, d, io);
    } else {
      var _ := HeaderStepCases(SERVER, d, io);
    }
  }

  lemma BodyBreaks(u: Srv, io: Io)
    requires WFS(u) && u.stage.Tx? && Counted(u)
    ensures SStep(u, io).stage.Undefined? <==> Breaks(u, io)
    ensures Counted(SStep(u, io))
  {
    if BodyWriteDefined(u) {
      BodyWriteCases(u, io, BodyBuffer(u.stage.body, u.stage.sent - MSG_HEADER_LEN));
    }
  }

  lemma BreaksIff(u: Srv, io: Io)
    requires WFS(u) && Counted(u) && HeaderWhole(u, io)
    ensures SStep(u, io).stage.Undefined? <==> u.stage.Undefined? || Breaks(u, io)
    ensures Counted(SStep(u, io))
  {
    match u.stage
    case Undefined =>
    case Tx(_, _, _, _) => BodyBreaks(u, io);
    case Rx(_) => if Fills(u) { FillBreaks(u, io); } else { HeadCounted(u, io); }
  }

  predicate HeadersWhole(ios: seq<Io>) {
    ios != [] ==>
      HeadersWhole(ios[..|ios| - 1]) && HeaderWhole(SRun(CLEARED, ios[..|ios| - 1]), ios[|ios| - 1])
  }

  /** Some call of the run breaks it. */
  predicate Broken(ios: seq<Io>) {
    ios != [] && (Broken(ios[..|ios| - 1]) || Breaks(SRun(CLEARED, ios[..|ios| - 1]), ios[|ios| - 1]))
  }

  lemma {:induction false} UndefinedIffBroken(ios: seq<Io>)
    requires HeadersWhole(ios)
    ensures SRun(CLEARED, ios).stage.Undefined? <==> Broken(ios)
    ensures Counted(SRun(CLEARED, ios))
  {
    if ios != [] {
      var before, io := ios[..|ios| - 1], ios[|ios| - 1];
      UndefinedIffBroken(before);
      BreaksIff(SRun(CLEARED, before), io);
    }
  }

  /**
   * An event loop whose header writes are all-or-nothing leaves what the C program defines exactly
   * when a read brings a body's 1025th byte or a body is written again with 1 to 19 of its bytes left.
   */
  lemma LoopUndefinedIffBroken(evs: seq<SEvent>)
    requires HeadersWhole(STakenAll(CLEARED, evs))
    ensures SEvents(CLEARED, evs).stage.Undefined? <==> Broken(STakenAll(CLEARED, evs))
  {
    SEventsAreRun(CLEARED, evs);
    UndefinedIffBroken(STakenAll(CLEARED, evs));
  }

  /** A 30-byte body of which the first write takes 15: the second try copies a negative count. */
  lemma ShortTailUndefined()
    ensures var body := seq(30, _ => 9 as byte);
            var ev := SEvent(Got(EchoHeader(50)), Got(body), Again, Put(MSG_HEADER_LEN), Put(15), Again);
            SEvents(CLEARED, [ev]).stage.Undefined?
  {
    var body := seq(30, _ => 9 as byte);
    var ev := SEvent(Got(EchoHeader(50)), Got(body), Again, Put(MSG_HEADER_LEN), Put(15), Again);
    FrameToEcho(EchoHeader(50), body, ev);
    var u := Srv(Tx(EchoHeader(50), body, 30, MSG_HEADER_LEN), true, EchoHeader(50) + body, EchoHeader(50));
    BodyWriteCases(u, Put(15), BodyBuffer(body, 0));
    assert !BodyWriteDefined(WriteBody(u, Put(15)));
    assert [ev][..0] == [];
    assert SEvents(CLEARED, [ev]) == SOnEvent(CLEARED, ev);
  }
}
