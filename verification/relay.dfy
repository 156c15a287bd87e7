/**
 * One direction of a proxied connection as a machine over system-call results
 * (src/proxy/proxy.c, src/proxy/transc.c).  A frame goes through receive header (`Await`), receive
 * body into the pipe (`Fill`), send header (`Head`), send body out of the pipe (`Drain`), clear.
 */
module Relay {
  import opened Bytes
  import opened Codec
  import opened Os

  datatype Cfg = Cfg(endian: int, cap: nat)

  type HeaderBytes = h: seq<byte> | |h| == MSG_HEADER_LEN witness Zeros(MSG_HEADER_LEN)

  datatype Phase =
    | Await(n: nat, len: int)
    | Fill(hdr: HeaderBytes, body: seq<byte>)
    | Head(hdr: HeaderBytes, done: nat, body: seq<byte>)
      // `slack`: bytes `recv_bytes` counts beyond the pipe, left by a header sent in pieces
    | Drain(hdr: HeaderBytes, body: seq<byte>, slack: nat, sent: nat)

  /** `open`: the source descriptor; `input`/`output`: everything read from it / written to the peer. */
  datatype Dir = Dir(phase: Phase, open: bool, input: seq<byte>, output: seq<byte>)

  const START: Dir := Dir(Await(0, 0), true, [], [])

  predicate WF(c: Cfg, d: Dir) {
    match d.phase
    case Await(n, _) => n <= MSG_HEADER_LEN && (d.open ==> n == 0)
    case Fill(hdr, body) => MSG_HEADER_LEN + |body| < MsgLength(c.endian, hdr) && |body| <= c.cap
    case Head(hdr, done, body) =>
      MSG_HEADER_LEN + |body| == MsgLength(c.endian, hdr) && 0 < |body| <= c.cap && done < MSG_HEADER_LEN
    case Drain(hdr, body, slack, sent) =>
      && |body| + sent == MsgLength(c.endian, hdr) && |body| <= c.cap && MSG_HEADER_LEN <= sent
      && 0 < |body| + slack && slack < MSG_HEADER_LEN
  }

  /** Bytes of the frame in flight that were read and not yet written. */
  function Held(p: Phase): nat
    requires p.Head? ==> p.done < MSG_HEADER_LEN
  {
    match p
    case Await(n, _) => n
    case Fill(_, body) => MSG_HEADER_LEN + |body|
    case Head(_, done, body) => MSG_HEADER_LEN - done + |body|
    case Drain(_, body, _, _) => |body|
  }

  function ReadHeader(c: Cfg, d: Dir, io: Io): (d': Dir)
    requires WF(c, d) && d.phase.Await?
    ensures WF(c, d')
  {
    var Await(n, len) := d.phase;
    match Read(io, d.open, MSG_HEADER_LEN - n)
    case Got(b) =>
      var d' := d.(input := d.input + b);
      if n + |b| != MSG_HEADER_LEN then d'.(phase := Await(n + |b|, len), open := false)
      else
        var hdr := Zeros(n) + b;
        var total := MsgLength(c.endian, hdr);
        if total <= MSG_HEADER_LEN then d'.(phase := Await(MSG_HEADER_LEN, total), open := false)
        else d'.(phase := Fill(hdr, []))
    case Again => d
    case _ => d.(open := false)
  }

  function FillPipe(c: Cfg, d: Dir, io: Io): (d': Dir)
    requires WF(c, d) && d.phase.Fill?
    ensures WF(c, d')
  {
    var Fill(hdr, body) := d.phase;
    var total := MsgLength(c.endian, hdr);
    match SpliceIn(io, d.open, total - MSG_HEADER_LEN - |body|, c.cap - |body|)
    case Got(b) =>
      var body' := body + b;
      d.(input := d.input + b,
         phase := if MSG_HEADER_LEN + |body'| == total then Head(hdr, 0, body') else Fill(hdr, body'))
    case Again => d
    case _ => d.(open := false)
  }

  /** `write_hdr_buf` as refilled before each header write: cleared, then copied from `send_bytes` on. */
  function HeaderBuffer(hdr: HeaderBytes, done: nat): (b: HeaderBytes)
    requires done < MSG_HEADER_LEN
  {
    Zeros(done) + hdr[done..]
  }

  function WriteHeader(c: Cfg, d: Dir, io: Io): (d': Dir)
    requires WF(c, d) && d.phase.Head?
    ensures WF(c, d')
  {
    var Head(hdr, done, body) := d.phase;
    match Write(io, MSG_HEADER_LEN - done)
    case Put(n) =>
      if n == 0 then d else
      d.(output := d.output + HeaderBuffer(hdr, done)[..n],
         phase := if done + n == MSG_HEADER_LEN
                  then Drain(hdr, body, MSG_HEADER_LEN - n, MSG_HEADER_LEN)
                  else Head(hdr, done + n, body))
    case _ => d
  }

  /** A header write does with an offer what it does with the part it takes. */
  lemma WriteTakes(c: Cfg, d: Dir, io: Io)
    requires WF(c, d) && d.phase.Head?
    ensures var r := Write(io, MSG_HEADER_LEN - d.phase.done);
            WriteHeader(c, d, io) == if r.Put? && r.n > 0 then WriteHeader(c, d, Put(r.n)) else d
  {
  }

  function DrainPipe(c: Cfg, d: Dir, io: Io): (d': Dir)
    requires WF(c, d) && d.phase.Drain?
    ensures WF(c, d')
  {
    var Drain(hdr, body, slack, sent) := d.phase;
    match SpliceOut(io, |body| + slack, |body|)
    case Put(n) =>
      d.(output := d.output + body[..n],
         phase := if |body| - n + slack == 0 then Await(0, 0)
                  else Drain(hdr, body[n..], slack, sent + n))
    case _ => d
  }

  /** The one system call the current phase makes. */
  function Step(c: Cfg, d: Dir, io: Io): (d': Dir)
    requires WF(c, d)
    ensures WF(c, d')
  {
    match d.phase
    case Await(_, _) => ReadHeader(c, d, io)
    case Fill(_, _) => FillPipe(c, d, io)
    case Head(_, _, _) => WriteHeader(c, d, io)
    case Drain(_, _, _, _) => DrainPipe(c, d, io)
  }

  function Run(c: Cfg, d: Dir, ios: seq<Io>): (d': Dir)
    requires WF(c, d)
    ensures WF(c, d')
  {
    if ios == [] then d else Step(c, Run(c, d, ios[..|ios| - 1]), ios[|ios| - 1])
  }

  // ----- one event -----

  /** Offers for the five call sites one event can reach, in program order. */
  datatype Event = Event(header: Io, fill: Io, head: Io, drain: Io, again: Io)

  function Receive(c: Cfg, d: Dir, header: Io, fill: Io): (d': Dir)
    requires WF(c, d)
    ensures WF(c, d')
  {
    var d1 := if d.phase.Await? then ReadHeader(c, d, header) else d;
    if d1.phase.Fill? then FillPipe(c, d1, fill) else d1
  }

  function Flush(c: Cfg, d: Dir, io: Io): (d': Dir)
    requires WF(c, d)
    ensures WF(c, d')
  {
    if d.phase.Drain? then DrainPipe(c, d, io) else d
  }

  function Send(c: Cfg, d: Dir, head: Io, drain: Io): (d': Dir)
    requires WF(c, d)
    ensures WF(c, d')
  {
    Flush(c, if d.phase.Head? then WriteHeader(c, d, head) else d, drain)
  }

  function OnEvent(c: Cfg, d: Dir, ev: Event): (d': Dir)
    requires WF(c, d)
    ensures WF(c, d')
  {
    Flush(c, Send(c, Receive(c, d, ev.header, ev.fill), ev.head, ev.drain), ev.again)
  }

  /** The event loop: one event after another. */
  function Events(c: Cfg, d: Dir, evs: seq<Event>): (d': Dir)
    requires WF(c, d)
    ensures WF(c, d')
  {
    if evs == [] then d else OnEvent(c, Events(c, d, evs[..|evs| - 1]), evs[|evs| - 1])
  }

  /** `memset` and `memcpy` of `write_hdr_buf` before a header write, in either program. */
  method RefillHeader(readHdr: array<byte>, writeHdr: array<byte>, done: nat)
    requires readHdr.Length == writeHdr.Length == MSG_HEADER_LEN && readHdr != writeHdr && done < MSG_HEADER_LEN
    modifies writeHdr
    ensures writeHdr[..] == HeaderBuffer(readHdr[..], done)
  {
    forall i | 0 <= i < MSG_HEADER_LEN { writeHdr[i] := 0; }
    forall i | done <= i < MSG_HEADER_LEN { writeHdr[i] := readHdr[i]; }
  }
}
