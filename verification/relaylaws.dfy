/** What one direction does with each offer, byte by byte, and that its event loop gets a frame through. */
module RelayLaws {
  import opened Bytes
  import opened Codec
  import opened Os
  import opened Relay
  import opened RelayProofs

  // ----- EAGAIN changes nothing -----

  lemma AgainStays(c: Cfg, d: Dir)
    requires WF(c, d)
    ensures Step(c, d, Again) == d
  {
  }

  function WithoutAgain(ios: seq<Io>): seq<Io> {
    if ios == [] then []
    else WithoutAgain(ios[..|ios| - 1]) + Offer(!ios[|ios| - 1].Again?, ios[|ios| - 1])
  }

  /** However many `Again`s a schedule has, wherever they come, the run is the one without them. */
  lemma {:induction false} AgainsVanish(c: Cfg, d: Dir, ios: seq<Io>)
    requires WF(c, d)
    ensures Run(c, d, ios) == Run(c, d, WithoutAgain(ios))
  {
    if ios != [] {
      var before, io := ios[..|ios| - 1], ios[|ios| - 1];
      AgainsVanish(c, d, before);
      RunOffer(c, d, WithoutAgain(before), !io.Again?, io);
      if io.Again? {
        AgainStays(c, Run(c, d, before));
      }
    }
  }

  /** So an event that finds nothing ready leaves the direction as it was. */
  lemma IdleEvent(c: Cfg, d: Dir)
    requires WF(c, d)
    ensures OnEvent(c, d, Event(Again, Again, Again, Again, Again)) == d
  {
    AgainStays(c, d);
  }

  // ----- what closes the source -----

  /** The header or what the program takes for one: fewer than 20 bytes, or no body announced. */
  predicate Refused(c: Cfg, data: seq<byte>) {
    |data| < MSG_HEADER_LEN || MsgLength(c.endian, data[..MSG_HEADER_LEN]) <= MSG_HEADER_LEN
  }

  /** An interrupt, an end of file, an error, or a header that is short or announces no body. */
  predicate Closing(c: Cfg, d: Dir, io: Io) {
    match io
    case Again => false
    case Got(data) => data == [] || (d.phase.Await? && Refused(c, data))
    case _ => true
  }

  /** A read into a full pipe does nothing; any other read closes an open source exactly for a closing offer. */
  lemma ClosesIff(c: Cfg, d: Dir, io: Io)
    requires WF(c, d) && d.open
    ensures d.phase.Fill? && |d.phase.body| >= c.cap ==> Step(c, d, io) == d
    ensures d.phase.Await? || (d.phase.Fill? && |d.phase.body| < c.cap) ==> (!Step(c, d, io).open <==> Closing(c, d, io))
    ensures d.phase.Head? || d.phase.Drain? ==> Step(c, d, io).open
  {
    match d.phase
    case Await(_, _) =>
      if io.Got? && io.data != [] {
        assert Zeros(0) + Read(io, true, MSG_HEADER_LEN).data == Read(io, true, MSG_HEADER_LEN).data;
      }
    case Fill(_, _) =>
    case Head(_, _, _) =>
    case Drain(_, _, _, _) =>
  }

  lemma ClosedStays(c: Cfg, d: Dir, io: Io)
    requires WF(c, d) && !d.open && (d.phase.Await? || d.phase.Fill?)
    ensures Step(c, d, io) == d
  {
  }

  /** How many bytes a read asks for and has room for. */
  function Room(c: Cfg, d: Dir): int {
    match d.phase
    case Await(_, _) => MSG_HEADER_LEN
    case Fill(hdr, body) => Min(MsgLength(c.endian, hdr) - MSG_HEADER_LEN - |body|, c.cap - |body|)
    case _ => 0
  }

  /** An open source's bytes are read in order, as many as are offered and have room. */
  lemma ReadTakes(c: Cfg, d: Dir, data: seq<byte>)
    requires WF(c, d) && d.open && (d.phase.Await? || d.phase.Fill?) && Room(c, d) > 0
    ensures Step(c, d, Got(data)).input == d.input + data[..Min(|data|, Room(c, d))]
  {
    if data == [] {
      assert d.input + [] == d.input;
    }
  }

  // ----- what a header write sends -----

  /**
   * A header write sends as many bytes as are still owed and offered, but byte `i` of them is byte `i` of
   * the header, whatever was sent before, or a zero below `done` when the write is a resumed one.
   */
  lemma HeaderBytesSent(c: Cfg, d: Dir, m: nat)
    requires WF(c, d) && d.phase.Head?
    ensures var Head(hdr, done, _) := d.phase;
            var n, out := Min(m, MSG_HEADER_LEN - done), Step(c, d, Put(m)).output;
            && |out| == |d.output| + n && d.output <= out
            && (forall i :: 0 <= i < n ==> out[|d.output| + i] == if done == 0 || i >= done then hdr[i] else 0)
  {
    HeadStepCases(c, d, Put(m));
  }

  // ----- what one event sends of a body -----

  /** Both of an event's body splices count. */
  lemma DrainsTwice(c: Cfg, d: Dir, ev: Event)
    requires WF(c, d) && d.phase.Drain? && d.phase.slack == 0 && ev.drain.Put? && ev.again.Put?
    ensures OnEvent(c, d, ev).output == d.output + d.phase.body[..Min(ev.drain.n + ev.again.n, |d.phase.body|)]
  {
    var body := d.phase.body;
    var a := DrainStepCases(c, d, ev.drain);
    var d1 := DrainPipe(c, d, ev.drain);
    if d1.phase.Drain? {
      var b := DrainStepCases(c, d1, ev.again);
      TwoPieces(d.output, body, a, b);
    }
  }

  lemma TwoPieces(s: seq<byte>, body: seq<byte>, a: nat, b: nat)
    requires a + b <= |body|
    ensures s + body[..a] + body[a..][..b] == s + body[..a + b]
  {
    assert body[..a] + body[a..][..b] == body[..a + b];
  }

  // ----- a frame in flight clears, event by event -----

  /** Bytes at the call sites of a frame in flight, the header's all at once. */
  predicate EventOffers(ev: Event) {
    && ev.fill.Got? && ev.fill.data != [] && ev.head.Put? && ev.head.n >= MSG_HEADER_LEN
    && ev.drain.Put? && ev.drain.n > 0 && ev.again.Put? && ev.again.n > 0
  }

  /** No split header, and a body still to come fits the pipe and has its source open. */
  predicate Clearable(c: Cfg, d: Dir) {
    Unsplit(d.phase) && (d.phase.Fill? ==> d.open && MsgLength(c.endian, d.phase.hdr) - MSG_HEADER_LEN <= c.cap)
  }

  lemma FillLowers(c: Cfg, d: Dir, io: Io)
    requires WF(c, d) && Clearable(c, d) && io.Got? && io.data != []
    ensures var d' := if d.phase.Fill? then FillPipe(c, d, io) else d;
            && Clearable(c, d') && Budget(c, d'.phase) <= Budget(c, d.phase)
            && (d.phase.Fill? ==> Budget(c, d'.phase) < Budget(c, d.phase)) && (d'.phase.Await? ==> d.phase.Await?)
  {
    if d.phase.Fill? {
      var b := FillStepCases(c, d, io);
      ReadTakes(c, d, io.data);
    }
  }

  lemma HeadLowers(c: Cfg, d: Dir, io: Io)
    requires WF(c, d) && Clearable(c, d) && io.Put? && io.n >= MSG_HEADER_LEN
    ensures var d' := if d.phase.Head? then WriteHeader(c, d, io) else d;
            && Clearable(c, d') && Budget(c, d'.phase) <= Budget(c, d.phase)
            && (d.phase.Head? ==> Budget(c, d'.phase) < Budget(c, d.phase))
  {
    if d.phase.Head? {
      HeadStepCases(c, d, io);
    }
  }

  lemma FlushLowers(c: Cfg, d: Dir, io: Io)
    requires WF(c, d) && Clearable(c, d) && io.Put? && io.n > 0
    ensures var d' := Flush(c, d, io);
            && Clearable(c, d') && Budget(c, d'.phase) <= Budget(c, d.phase)
            && (d.phase.Drain? ==> Budget(c, d'.phase) < Budget(c, d.phase))
  {
    if d.phase.Drain? {
      var _ := DrainStepCases(c, d, io);
    }
  }

  lemma EventLowers(c: Cfg, d: Dir, ev: Event)
    requires WF(c, d) && Clearable(c, d) && !d.phase.Await? && EventOffers(ev)
    ensures Clearable(c, OnEvent(c, d, ev)) && Budget(c, OnEvent(c, d, ev).phase) < Budget(c, d.phase)
  {
    FillLowers(c, d, ev.fill);
    var d1 := Receive(c, d, ev.header, ev.fill);
    HeadLowers(c, d1, ev.head);
    var d2 := if d1.phase.Head? then WriteHeader(c, d1, ev.head) else d1;
    FlushLowers(c, d2, ev.drain);
    FlushLowers(c, Flush(c, d2, ev.drain), ev.again);
  }

  lemma {:induction false} EventsAppend(c: Cfg, d: Dir, xs: seq<Event>, ys: seq<Event>)
    requires WF(c, d)
    ensures Events(c, d, xs + ys) == Events(c, Events(c, d, xs), ys)
  {
    if ys == [] {
      assert xs + ys == xs;
    } else {
      assert xs + ys == (xs + ys[..|ys| - 1]) + [ys[|ys| - 1]];
      OneMoreEvent(c, d, xs + ys[..|ys| - 1], ys[|ys| - 1]);
      EventsAppend(c, d, xs, ys[..|ys| - 1]);
    }
  }

  lemma EventsFirst(c: Cfg, d: Dir, evs: seq<Event>, k: nat)
    requires WF(c, d) && k < |evs|
    ensures Events(c, d, evs[..k + 1]) == Events(c, OnEvent(c, d, evs[0]), evs[1..][..k])
  {
    var ev := evs[0];
    assert evs[..k + 1] == [ev] + evs[1..][..k] && [] + [ev] == [ev];
    OneMoreEvent(c, d, [], ev);
    EventsAppend(c, d, [ev], evs[1..][..k]);
  }

  /**
   * A frame in flight that fits the pipe, its header not split, clears within `Budget` events that
   * offer bytes: each event finishes what an earlier one began.
   */
  lemma {:induction false} FrameClearsByEvents(c: Cfg, d: Dir, evs: seq<Event>)
    requires WF(c, d) && Clearable(c, d) && |evs| >= Budget(c, d.phase)
    requires forall i :: 0 <= i < |evs| ==> EventOffers(evs[i])
    ensures exists k :: 0 <= k <= |evs| && Events(c, d, evs[..k]).phase.Await?
    decreases |evs|
  {
    if d.phase.Await? {
      assert Events(c, d, evs[..0]) == d;
    } else {
      BudgetFalls(c, d, Again);
      EventLowers(c, d, evs[0]);
      var d', rest := OnEvent(c, d, evs[0]), evs[1..];
      FrameClearsByEvents(c, d', rest);
      var k :| 0 <= k <= |rest| && Events(c, d', rest[..k]).phase.Await?;
      EventsFirst(c, d, evs, k);
      assert Events(c, d, evs[..k + 1]).phase.Await?;
    }
  }
}
