/**
 * The proxy's per-direction object and its event handler in the source's own form
 * (`transc_t` and `pipe_t` in src/proxy/local, `proxy_recv_data`, `proxy_send_data` and
 * `proxy_process_data` in src/proxy/proxy.c), proved to take exactly the machine's steps.
 */
module Proxy {
  import opened Bytes
  import opened Codec
  import opened Codes
  import opened Os
  import opened Relay

  /** One direction: `transc_t`, its pipe's contents and its source descriptor. */
  class Transc {
    const cfg: Cfg
    var isRecvHeader: bool
    var isRecvBody: bool
    var isSendHeader: bool
    var isSendBody: bool
    var length: int
    var recvBytes: int
    var sendBytes: int
    const readHdr: array<byte>
    const writeHdr: array<byte>
    var pipe: seq<byte>
    var open: bool
    ghost var input: seq<byte>
    ghost var output: seq<byte>

    /** The flag patterns and counters of the five phases (the fifth: sent, not yet cleared). */
    ghost predicate Shape()
      reads this, readHdr
    {
      && readHdr.Length == MSG_HEADER_LEN && writeHdr.Length == MSG_HEADER_LEN && readHdr != writeHdr
      && (isSendBody ==> isSendHeader) && (isSendHeader ==> isRecvBody) && (isRecvBody ==> isRecvHeader)
      && |pipe| <= cfg.cap
      && (isRecvHeader ==> length == MsgLength(cfg.endian, readHdr[..]))
      && (!isRecvHeader ==> 0 <= recvBytes <= MSG_HEADER_LEN && sendBytes == 0 && pipe == [])
      && (isRecvHeader && !isRecvBody ==> |pipe| == recvBytes - MSG_HEADER_LEN && recvBytes < length && sendBytes == 0)
      && (isRecvBody && !isSendHeader ==>
            recvBytes == length && |pipe| == length - MSG_HEADER_LEN > 0 && 0 <= sendBytes < MSG_HEADER_LEN)
      && (isSendHeader && !isSendBody ==>
            && 0 < recvBytes && |pipe| <= recvBytes < |pipe| + MSG_HEADER_LEN
            && MSG_HEADER_LEN <= sendBytes && sendBytes + |pipe| == length)
      && (isSendBody ==> recvBytes == 0 && pipe == [])
    }

    /** Between calls a source still open has delivered no part of a header. */
    ghost predicate Valid()
      reads this, readHdr
    {
      Shape() && (!isRecvHeader && open ==> recvBytes == 0)
    }

    ghost function View(): (d: Dir)
      requires Shape()
      reads this, readHdr
      ensures Valid() ==> WF(cfg, d)
    {
      var phase :=
        if !isRecvHeader then Await(recvBytes, length)
        else if !isRecvBody then Fill(readHdr[..], pipe)
        else if !isSendHeader then Head(readHdr[..], sendBytes, pipe)
        else if !isSendBody then Drain(readHdr[..], pipe, recvBytes - |pipe|, sendBytes)
        else Await(0, 0);
      Dir(phase, open, input, output)
    }

    /** `proxy_conn` clears an object of unknown contents before it opens the pipes. */
    constructor (cfg: Cfg)
      ensures Valid() && View() == START && !isSendBody && this.cfg == cfg && fresh(readHdr) && fresh(writeHdr)
    {
      this.cfg := cfg;
      readHdr := new byte[MSG_HEADER_LEN];
      writeHdr := new byte[MSG_HEADER_LEN];
      pipe, open, input, output := [], true, [], [];
      new;
      ClearData();
    }

    /** `transc_clear_data`, of any object: with nothing in the pipe the direction awaits a header. */
    method ClearData()
      requires readHdr.Length == MSG_HEADER_LEN && writeHdr.Length == MSG_HEADER_LEN && readHdr != writeHdr
      modifies this, readHdr, writeHdr
      ensures !isRecvHeader && !isRecvBody && !isSendHeader && !isSendBody
      ensures length == recvBytes == sendBytes == 0 && AllZero(readHdr[..]) && AllZero(writeHdr[..])
      ensures pipe == old(pipe) && open == old(open)
      ensures pipe == [] ==> Valid() && View() == Dir(Await(0, 0), old(open), old(input), old(output))
    {
      isRecvHeader, isRecvBody, isSendHeader, isSendBody := false, false, false, false;
      length, recvBytes, sendBytes := 0, 0, 0;
      Clear(readHdr);
      Clear(writeHdr);
    }

    /** The header part of `proxy_recv_data`; `done` when the call returns `rv` at once. */
    method RecvHeader(io: Io) returns (done: bool, rv: int)
      requires Valid() && !isRecvHeader
      modifies this, readHdr
      ensures Shape() && open == old(open) && !isRecvBody && !isSendHeader && (isRecvHeader ==> Valid())
      ensures View() == ReadHeader(cfg, old(View()), io).(open := old(open))
      ensures done == !isRecvHeader
      ensures done ==> (rv <= ZERO_BYTE <==> !ReadHeader(cfg, old(View()), io).open)
    {
      Clear(readHdr);
      var r := Read(io, open, MSG_HEADER_LEN - recvBytes);
      if r.Again? {
        return true, ERRNO_EAGAIN;
      } else if r.Intr? {
        return true, INTERRUPT;
      } else if r.Eof? {
        return true, ZERO_BYTE;
      } else if !r.Got? {
        return true, NEGATIVE_BYTE;
      }
      done, rv := DecodeHeader(r.data);
    }

    /** What becomes of the header bytes `b`: only a whole header that announces a body is accepted. */
    method DecodeHeader(b: seq<byte>) returns (done: bool, rv: int)
      requires Valid() && !isRecvHeader && AllZero(readHdr[..]) && 0 < |b| <= MSG_HEADER_LEN - recvBytes
      modifies this, readHdr
      ensures Shape() && input == old(input) + b && open == old(open) && output == old(output)
      ensures recvBytes == old(recvBytes) + |b| && !isRecvBody && !isSendHeader && done == !isRecvHeader
      ensures recvBytes < MSG_HEADER_LEN ==> done && length == old(length)
      ensures recvBytes == MSG_HEADER_LEN ==>
                && length == MsgLength(cfg.endian, Zeros(old(recvBytes)) + b) && (done <==> length <= MSG_HEADER_LEN)
                && (!done ==> readHdr[..] == Zeros(old(recvBytes)) + b)
      ensures rv == if done then BUF_ERR else NORMAL
    {
      CopyTo(readHdr, recvBytes, b);
      input := input + b;
      recvBytes := recvBytes + |b|;
      if recvBytes != MSG_HEADER_LEN {
        return true, BUF_ERR;
      }
      length := MsgLength(cfg.endian, readHdr[..]);
      if length - MSG_HEADER_LEN <= 0 {
        return true, BUF_ERR;
      }
      isRecvHeader := true;
      return false, NORMAL;
    }

    /** The body part of `proxy_recv_data`. */
    method RecvBody(io: Io) returns (rv: int)
      requires Valid() && isRecvHeader && !isRecvBody
      modifies this
      ensures Valid() && open == old(open) && !isSendHeader
      ensures View() == FillPipe(cfg, old(View()), io).(open := old(open))
      ensures rv <= ZERO_BYTE <==> !FillPipe(cfg, old(View()), io).open
    {
      var r := SpliceIn(io, open, length - recvBytes, cfg.cap - |pipe|);
      if r.Again? {
        return ERRNO_EAGAIN;
      } else if r.Intr? {
        return INTERRUPT;
      } else if r.Eof? {
        return ZERO_BYTE;
      } else if !r.Got? {
        return NEGATIVE_BYTE;
      }
      pipe := pipe + r.data;
      input := input + r.data;
      recvBytes := recvBytes + |r.data|;
      if recvBytes == length {
        isRecvBody := true;
      }
      return NORMAL;
    }

    /** `proxy_recv_data`. */
    method RecvData(header: Io, fill: Io) returns (rv: int)
      requires Valid() && !isRecvBody
      modifies this, readHdr
      ensures Shape() && open == old(open) && !isSendHeader
      ensures View() == Receive(cfg, old(View()), header, fill).(open := old(open))
      ensures rv <= ZERO_BYTE <==> !Receive(cfg, old(View()), header, fill).open
    {
      if !isRecvHeader {
        var done;
        done, rv := RecvHeader(header);
        if done {
          return rv;
        }
      }
      rv := RecvBody(fill);
    }

    /** The header part of `proxy_send_data`: always writes from the start of `write_hdr_buf`. */
    method SendHeader(io: Io) returns (rv: int)
      requires Valid() && isRecvBody && !isSendHeader
      modifies this, writeHdr
      ensures Valid() && isRecvBody && !isSendBody
      ensures View() == WriteHeader(cfg, old(View()), io)
      ensures rv in {NORMAL, ERRNO_EAGAIN, NEGATIVE_BYTE} && (rv != NORMAL ==> unchanged(this))
    {
      RefillHeader(readHdr, writeHdr, sendBytes);
      WriteTakes(cfg, View(), io);
      var r := Write(io, MSG_HEADER_LEN - sendBytes);
      if !r.Put? || r.n == 0 {
        return if r.Again? then ERRNO_EAGAIN else NEGATIVE_BYTE;
      }
      CommitHeader(r.n);
      return NORMAL;
    }

    /** The bookkeeping after `n` bytes of `write_hdr_buf` went out. */
    method CommitHeader(n: nat)
      requires Valid() && isRecvBody && !isSendHeader && 0 < n <= MSG_HEADER_LEN - sendBytes
      requires writeHdr[..] == HeaderBuffer(readHdr[..], sendBytes)
      modifies this
      ensures Valid() && isRecvBody && !isSendBody
      ensures View() == WriteHeader(cfg, old(View()), Put(n))
    {
      assert writeHdr[..n] == writeHdr[..][..n];
      output := output + writeHdr[..n];
      sendBytes := sendBytes + n;
      if sendBytes == MSG_HEADER_LEN {
        isSendHeader := true;
        recvBytes := recvBytes - n;
      }
    }

    /** The body part of `proxy_send_data`. */
    method SendBody(io: Io) returns (rv: int)
      requires Valid() && isSendHeader && !isSendBody
      modifies this
      ensures Valid()
      ensures View() == DrainPipe(cfg, old(View()), io)
      ensures rv in {NORMAL, ERRNO_EAGAIN, NEGATIVE_BYTE} && (rv != NORMAL ==> unchanged(this))
    {
      var r := SpliceOut(io, recvBytes, |pipe|);
      if !r.Put? {
        return if r.Again? then ERRNO_EAGAIN else NEGATIVE_BYTE;
      }
      output := output + pipe[..r.n];
      pipe := pipe[r.n..];
      recvBytes := recvBytes - r.n;
      sendBytes := sendBytes + r.n;
      if recvBytes == 0 {
        isSendBody := true;
      }
      return NORMAL;
    }

    /** `proxy_send_data`. */
    method SendData(head: Io, drain: Io) returns (rv: int)
      requires Valid() && isRecvBody && !isSendBody
      modifies this, writeHdr
      ensures Valid()
      ensures View() == Send(cfg, old(View()), head, drain)
    {
      if !isSendHeader {
        rv := SendHeader(head);
        if rv != NORMAL {
          return rv;
        }
      }
      if isSendHeader {
        rv := SendBody(drain);
      }
    }

    /** The receiving branch of `proxy_process_data`. */
    method ReceiveStage(header: Io, fill: Io)
      requires Valid() && !isSendBody
      modifies this, readHdr
      ensures Valid() && !isSendBody
      ensures View() == Receive(cfg, old(View()), header, fill)
    {
      if !isRecvHeader || !isRecvBody {
        var rv := RecvData(header, fill);
        if rv <= ZERO_BYTE {
          open := false;
        }
      }
    }

    /** Its first sending branch. */
    method SendStage(head: Io, drain: Io)
      requires Valid() && !isSendBody
      modifies this, writeHdr
      ensures Valid()
      ensures View() == Send(cfg, old(View()), head, drain)
    {
      if isRecvHeader && isRecvBody {
        var _ := SendData(head, drain);
      }
    }

    /** Its second sending branch. */
    method FlushStage(head: Io, again: Io)
      requires Valid()
      modifies this, writeHdr
      ensures Valid()
      ensures View() == Flush(cfg, old(View()), again)
    {
      if isSendHeader && !isSendBody {
        var _ := SendData(head, again);
      }
    }

    /** `proxy_process_data` for this direction. */
    method ProcessData(ev: Event)
      requires Valid() && !isSendBody
      modifies this, readHdr, writeHdr
      ensures Valid() && !isSendBody
      ensures View() == OnEvent(cfg, old(View()), ev)
    {
      ReceiveStage(ev.header, ev.fill);
      SendStage(ev.head, ev.drain);
      FlushStage(ev.head, ev.again);
      if isSendHeader && isSendBody {
        ClearData();
      }
    }
  }
}
