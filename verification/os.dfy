/**
 * Non-blocking I/O as an oracle.  An `Io` is what the outside world offers at one system call; the
 * functions below cut it to what the call asked for, so every sequence of `Io`s is a schedule.
 */
module Os {
  import opened Bytes

  datatype Io = Got(data: seq<byte>) | Put(n: nat) | Eof | Again | Intr | Fail

  function Min(a: int, b: int): int {
    if a < b then a else b
  }

  /** The offer of a call site, if the program reaches it. */
  function Offer(made: bool, io: Io): seq<Io> {
    if made then [io] else []
  }

  /** `read(fd, buf, count)`.  A closed descriptor fails; a zero-byte request reads zero bytes. */
  function Read(io: Io, open: bool, count: int): (r: Io)
    ensures r.Got? ==> open && io.Got? && r.data <= io.data && 0 < |r.data| == Min(|io.data|, count)
    ensures !r.Put?
  {
    if !open then Fail else
    match io
    case Got(data) => if Min(|data|, count) <= 0 then Eof else Got(data[..Min(|data|, count)])
    case Put(_) => Fail
    case _ => io
  }

  /** `splice(fd, pipe, count, NONBLOCK)` into a pipe with `space` free bytes: a full pipe is looked at before the descriptor. */
  function SpliceIn(io: Io, open: bool, count: int, space: int): (r: Io)
    ensures r.Got? ==> open && io.Got? && r.data <= io.data && 0 < |r.data| == Min(|io.data|, Min(count, space))
    ensures !r.Put?
  {
    if open && space <= 0 then Again else Read(io, open, Min(count, space))
  }

  /** `write(fd, buf, count)`. */
  function Write(io: Io, count: int): (r: Io)
    ensures r.Put? ==> io.Put? && r.n == Min(io.n, count)
    ensures !r.Got? && !r.Eof?
  {
    match io
    case Put(n) => if count < 0 then Fail else Put(Min(n, count))
    case Got(_) => Fail
    case Eof => Fail
    case _ => io
  }

  /** What a write can be offered on a descriptor that this program may have closed. */
  function OnWriteEnd(io: Io, open: bool): Io {
    if open then io else Fail
  }

  /** `splice(pipe, fd, count, NONBLOCK)` out of a pipe that holds `held` bytes. */
  function SpliceOut(io: Io, count: int, held: nat): (r: Io)
    ensures r.Put? ==> io.Put? && r.n == Min(io.n, Min(count, held))
    ensures !r.Got? && !r.Eof?
  {
    if io.Put? && held == 0 && 0 < count then Again else Write(io, Min(count, held))
  }
}
