/**
 * The server's `transc_t` with its four buffers and the event-loop body in the source's own form
 * (src/server/server.c), proved to take exactly the steps of the echo machine.
 */
module Server {
  import opened Bytes
  import opened Codec
  import opened Codes
  import opened Os
  import opened Relay
  import opened Echo

  class Transc {
    var isRecvHeader: bool
    var isRecvBody: bool
    var isSendHeader: bool
    var isSendBody: bool
    var length: int
    var recvBytes: int
    var sendBytes: int
    const readHdr: array<byte>
    const readBody: array<byte>
    const writeHdr: array<byte>
    const writeBody: array<byte>
    var open: bool
    ghost var input: seq<byte>
    ghost var output: seq<byte>

    ghost predicate Buffers()
      reads this
    {
      && readHdr.Length == MSG_HEADER_LEN && writeHdr.Length == MSG_HEADER_LEN
      && readBody.Length == BUF_MAX_LEN && writeBody.Length == BUF_MAX_LEN
      && readHdr != writeHdr && readHdr != readBody && readHdr != writeBody
      && writeHdr != readBody && writeHdr != writeBody && readBody != writeBody
    }

    /** The body write buffer is still clear from `n` on. */
    ghost predicate ZeroFrom(n: int)
      reads this, writeBody
    {
      forall i :: 0 <= n <= i < writeBody.Length ==> writeBody[i] == 0
    }

    /** The flag patterns and counters of the stages. */
    ghost predicate Core()
      reads this, readHdr
    {
      && Buffers()
      && (isSendBody ==> isSendHeader) && (isSendHeader ==> isRecvBody) && (isRecvBody ==> isRecvHeader)
      && (isRecvHeader ==> length == MsgLength(LITTLE, readHdr[..]))
      && (isRecvBody ==> length <= MSG_HEADER_LEN + BUF_MAX_LEN)
      && (!isRecvHeader ==> 0 <= recvBytes <= MSG_HEADER_LEN && sendBytes == 0)
      && (isRecvHeader && !isRecvBody ==>
            MSG_HEADER_LEN <= recvBytes < length && recvBytes <= MSG_HEADER_LEN + BUF_MAX_LEN && sendBytes == 0)
      && (isRecvBody && !isSendHeader ==> MSG_HEADER_LEN < length == recvBytes && 0 <= sendBytes < MSG_HEADER_LEN)
      && (isSendHeader && !isSendBody ==>
            && MSG_HEADER_LEN < length && 0 < recvBytes && MSG_HEADER_LEN <= sendBytes
            && length <= recvBytes + sendBytes < length + MSG_HEADER_LEN)
      && (isSendBody ==> recvBytes == 0)
    }

    ghost predicate Shape()
      reads this, readHdr, writeBody
    {
      Core() && (!isSendBody ==> ZeroFrom(if isSendHeader then length - MSG_HEADER_LEN else 0))
    }

    /** Between calls a client still open has delivered no part of a header. */
    predicate NoPartHeader()
      reads this
    {
      !isRecvHeader && open ==> recvBytes == 0
    }

    ghost predicate Valid()
      reads this, readHdr, writeBody
    {
      Shape() && NoPartHeader()
    }

    ghost function View(): (u: Srv)
      requires Core()
      reads this, readHdr, readBody
      ensures NoPartHeader() ==> WFS(u)
    {
      var stage :=
        if !isRecvHeader then Rx(Await(recvBytes, length))
        else if !isRecvBody then Rx(Fill(readHdr[..], readBody[..recvBytes - MSG_HEADER_LEN]))
        else if !isSendHeader then Rx(Head(readHdr[..], sendBytes, readBody[..length - MSG_HEADER_LEN]))
        else if !isSendBody then Tx(readHdr[..], readBody[..length - MSG_HEADER_LEN], recvBytes, sendBytes)
        else Rx(Await(0, 0));
      Srv(stage, open, input, output)
    }

    /** An object in the cleared state. */
    constructor ()
      ensures Valid() && View() == CLEARED && !isSendBody
      ensures fresh(readHdr) && fresh(readBody) && fresh(writeHdr) && fresh(writeBody)
    {
      isRecvHeader, isRecvBody, isSendHeader, isSendBody := false, false, false, false;
      length, recvBytes, sendBytes := 0, 0, 0;
      readHdr := new byte[MSG_HEADER_LEN](_ => 0);
      readBody := new byte[BUF_MAX_LEN](_ => 0);
      writeHdr := new byte[MSG_HEADER_LEN](_ => 0);
      writeBody := new byte[BUF_MAX_LEN](_ => 0);
      open, input, output := true, [], [];
    }

    /** `server_transc_clear`. */
    method ClearTransc()
      requires Valid() && isSendBody
      modifies this, readHdr, readBody, writeHdr, writeBody
      ensures Valid() && View() == old(View()) && !isRecvHeader && !isSendBody
      ensures AllZero(readHdr[..]) && AllZero(readBody[..]) && AllZero(writeHdr[..]) && AllZero(writeBody[..])
    {
      isRecvHeader, isRecvBody, isSendHeader, isSendBody := false, false, false, false;
      length, recvBytes, sendBytes := 0, 0, 0;
      ClearBuffers();
      assert forall i :: 0 <= i < writeBody.Length ==> writeBody[i] == writeBody[..][i];
    }

    method ClearBuffers()
      requires Buffers()
      modifies readHdr, readBody, writeHdr, writeBody
      ensures AllZero(readHdr[..]) && AllZero(readBody[..]) && AllZero(writeHdr[..]) && AllZero(writeBody[..])
    {
      Clear(readHdr);
      Clear(readBody);
      Clear(writeHdr);
      Clear(writeBody);
    }

    /** The header part of `server_recv_data`. */
    method RecvHeader(io: Io) returns (done: bool, rv: int)
      requires Valid() && !isRecvHeader
      modifies this, readHdr
      ensures Shape() && open == old(open) && !isRecvBody && !isSendHeader && (isRecvHeader ==> Valid())
      ensures View() == Lift(ReadHeader(SERVER, AsDir(old(View())), io)).(open := old(open))
      ensures done == !isRecvHeader
      ensures done ==> (rv <= ZERO_BYTE <==> !ReadHeader(SERVER, AsDir(old(View())), io).open)
    {
      Clear(readHdr);
      var r := Read(io, open, MSG_HEADER_LEN - recvBytes);
      if r.Again? {
        return true, ERRNO_EAGAIN;
      } else if r.Intr? {
        return true, INTERRUPT;
      } else if r.Eof? {
        return true, ZERO_BYTE;
      } else if !r.Got? {
        return true, NEGATIVE_BYTE;
      }
      done, rv := DecodeHeader(r.data);
    }

    /** What becomes of the header bytes `b`: only a whole header that announces a body is accepted. */
    method DecodeHeader(b: seq<byte>) returns (done: bool, rv: int)
      requires Valid() && !isRecvHeader && AllZero(readHdr[..]) && 0 < |b| <= MSG_HEADER_LEN - recvBytes
      modifies this, readHdr
      ensures Shape() && input == old(input) + b && open == old(open) && output == old(output)
      ensures recvBytes == old(recvBytes) + |b| && !isRecvBody && !isSendHeader && done == !isRecvHeader
      ensures recvBytes < MSG_HEADER_LEN ==> done && length == old(length)
      ensures recvBytes == MSG_HEADER_LEN ==>
                && length == MsgLength(LITTLE, Zeros(old(recvBytes)) + b) && (done <==> length <= MSG_HEADER_LEN)
                && (!done ==> readHdr[..] == Zeros(old(recvBytes)) + b)
      ensures rv == if done then BUF_ERR else NORMAL
    {
      CopyTo(readHdr, recvBytes, b);
      input := input + b;
      recvBytes := recvBytes + |b|;
      if recvBytes != MSG_HEADER_LEN {
        return true, BUF_ERR;
      }
      length := MsgLength(LITTLE, readHdr[..]);
      if length - MSG_HEADER_LEN <= 0 {
        return true, BUF_ERR;
      }
      isRecvHeader := true;
      return false, NORMAL;
    }

    /** `memcpy` of received body bytes to index `recv_bytes - 20`, and the bookkeeping after it. */
    method AppendBody(b: seq<byte>)
      requires Valid() && isRecvHeader && !isRecvBody
      requires 0 < |b| <= length - recvBytes && recvBytes + |b| <= MSG_HEADER_LEN + BUF_MAX_LEN
      modifies this, readBody
      ensures Shape() && Valid() && open == old(open) && !isSendHeader
      ensures var Fill(hdr, held) := old(View()).stage.p;
              View() == old(View()).(
                input := old(input) + b,
                stage := Rx(if old(recvBytes) + |b| == old(length) then Head(hdr, 0, held + b) else Fill(hdr, held + b)))
    {
      var k := recvBytes - MSG_HEADER_LEN;
      forall i | 0 <= i < |b| { readBody[k + i] := b[i]; }
      assert readBody[..k + |b|] == old(readBody[..k]) + b;
      input := input + b;
      recvBytes := recvBytes + |b|;
      if recvBytes == length {
        isRecvBody := true;
      }
    }

    /** The body part of `server_recv_data`. */
    method RecvBody(io: Io) returns (rv: int)
      requires Valid() && isRecvHeader && !isRecvBody
      requires !SFill(View(), io).stage.Undefined?
      modifies this, readBody
      ensures Shape() && Valid() && open == old(open) && !isSendHeader
      ensures View() == SFill(old(View()), io).(open := old(open))
      ensures rv <= ZERO_BYTE <==> !SFill(old(View()), io).open
    {
      var r := Read(io, open, length - recvBytes);
      SpliceIsRead(io, open, length - recvBytes, SERVER.cap - (recvBytes - MSG_HEADER_LEN));
      if r.Again? {
        return ERRNO_EAGAIN;
      } else if r.Intr? {
        return INTERRUPT;
      } else if r.Eof? {
        return ZERO_BYTE;
      } else if !r.Got? {
        return NEGATIVE_BYTE;
      }
      AppendBody(r.data);
      return NORMAL;
    }

    /** `server_recv_data`. */
    method RecvData(header: Io, fill: Io) returns (rv: int)
      requires Valid() && !isRecvBody
      requires !SReceive(View(), header, fill).stage.Undefined?
      modifies this, readHdr, readBody
      ensures Shape() && open == old(open) && !isSendHeader
      ensures View() == SReceive(old(View()), header, fill).(open := old(open))
      ensures rv <= ZERO_BYTE <==> !SReceive(old(View()), header, fill).open
    {
      if !isRecvHeader {
        var done;
        done, rv := RecvHeader(header);
        if done {
          return rv;
        }
      }
      rv := RecvBody(fill);
    }

    /** The bookkeeping after `n` bytes of `write_hdr_buf` went out. */
    method CommitHeader(n: nat)
      requires Valid() && isRecvBody && !isSendHeader && 0 < n <= MSG_HEADER_LEN - sendBytes
      requires writeHdr[..] == HeaderBuffer(readHdr[..], sendBytes)
      modifies this
      ensures Valid() && isRecvBody && !isSendBody
      ensures View() == Lift(WriteHeader(SERVER, AsDir(old(View())), Put(n)))
    {
      assert writeHdr[..n] == writeHdr[..][..n];
      output := output + writeHdr[..n];
      sendBytes := sendBytes + n;
      if sendBytes == MSG_HEADER_LEN {
        isSendHeader := true;
        recvBytes := recvBytes - n;
      }
    }

    /** The header part of `server_send_data`. */
    method SendHeader(io: Io) returns (rv: int)
      requires Valid() && isRecvBody && !isSendHeader
      modifies this, writeHdr
      ensures Valid() && isRecvBody && !isSendBody
      ensures View() == Lift(WriteHeader(SERVER, AsDir(old(View())), io))
      ensures rv in {NORMAL, ERRNO_EAGAIN, NEGATIVE_BYTE} && (rv != NORMAL ==> unchanged(this))
    {
      RefillHeader(readHdr, writeHdr, sendBytes);
      WriteTakes(SERVER, AsDir(View()), io);
      LiftAsDir(View());
      var r := Write(io, MSG_HEADER_LEN - sendBytes);
      if !r.Put? || r.n == 0 {
        return if r.Again? then ERRNO_EAGAIN else NEGATIVE_BYTE;
      }
      CommitHeader(r.n);
      return NORMAL;
    }

    /** Refills `write_body_buf` before a body write: on a resume the copy count is `body_len - send_bytes`. */
    method RefillBody()
      requires Valid() && isSendHeader && !isSendBody && sendBytes < length
      requires sendBytes > MSG_HEADER_LEN ==> sendBytes <= length - MSG_HEADER_LEN
      modifies writeBody
      ensures writeBody[..] == BodyBuffer(readBody[..length - MSG_HEADER_LEN], sendBytes - MSG_HEADER_LEN)
      ensures Valid()
    {
      var bodyLen := length - MSG_HEADER_LEN;
      ClearBody(bodyLen);
      var k, end := sendBytes - MSG_HEADER_LEN, bodyLen;
      if k > 0 {
        end := k + (bodyLen - sendBytes);
      }
      CopyBody(k, end);
      BodyBufferIs(readBody[..bodyLen], k, end, writeBody[..]);
    }

    /** `memset` of the body's part of `write_body_buf`; the rest is clear already. */
    method ClearBody(bodyLen: nat)
      requires Buffers() && ZeroFrom(bodyLen) && bodyLen <= BUF_MAX_LEN
      modifies writeBody
      ensures ZeroFrom(0)
    {
      forall i | 0 <= i < bodyLen { writeBody[i] := 0; }
    }

    /** `memcpy` from `k` up to `end` into the cleared `write_body_buf`. */
    method CopyBody(k: nat, end: nat)
      requires Buffers() && ZeroFrom(0) && k <= end <= BUF_MAX_LEN
      modifies writeBody
      ensures forall i :: 0 <= i < BUF_MAX_LEN ==> writeBody[i] == if k <= i < end then readBody[i] else 0
    {
      forall i | k <= i < end { writeBody[i] := readBody[i]; }
    }

    /** The bookkeeping after `n` bytes of `write_body_buf` went out. */
    method CommitBody(n: nat)
      requires Valid() && isSendHeader && !isSendBody && sendBytes < length
      requires 0 < n <= recvBytes && n <= BUF_MAX_LEN
      modifies this
      ensures Valid() && isSendHeader
      ensures BodyWritten(old(View()), View(), writeBody[..n])
      ensures recvBytes == old(recvBytes) - n && length == old(length)
    {
      output := output + writeBody[..n];
      recvBytes := recvBytes - n;
      sendBytes := sendBytes + n;
      if recvBytes == 0 {
        isSendBody := true;
      }
    }

    /** The body part of `server_send_data`. */
    method SendBody(io: Io) returns (rv: int)
      requires Valid() && isSendHeader && !isSendBody
      requires !WriteBody(View(), io).stage.Undefined?
      modifies this, writeBody
      ensures Valid() && isSendHeader
      ensures View() == WriteBody(old(View()), io)
      ensures rv in {NORMAL, ERRNO_EAGAIN, NEGATIVE_BYTE, UNKNOWN} && (rv != NORMAL ==> unchanged(this))
    {
      ghost var u := View();
      assert u.stage == Tx(readHdr[..], readBody[..length - MSG_HEADER_LEN], recvBytes, sendBytes);
      WriteBodyBegins(u, io);
      if sendBytes >= length {
        return UNKNOWN;
      }
      rv := RefillAndWrite(io);
    }

    method RefillAndWrite(io: Io) returns (rv: int)
      requires Valid() && isSendHeader && !isSendBody && sendBytes < length && recvBytes <= BUF_MAX_LEN
      requires sendBytes > MSG_HEADER_LEN ==> sendBytes <= length - MSG_HEADER_LEN
      modifies this, writeBody
      ensures Valid() && isSendHeader
      ensures View() == WriteBody(old(View()), io)
      ensures rv in {NORMAL, ERRNO_EAGAIN, NEGATIVE_BYTE} && (rv != NORMAL ==> unchanged(this))
    {
      RefillBody();
      rv := WriteOut(io);
    }

    /** The `write` of the refilled body buffer. */
    method WriteOut(io: Io) returns (rv: int)
      requires Valid() && isSendHeader && !isSendBody && sendBytes < length && recvBytes <= BUF_MAX_LEN
      requires sendBytes > MSG_HEADER_LEN ==> sendBytes <= length - MSG_HEADER_LEN
      requires writeBody[..] == BodyBuffer(readBody[..length - MSG_HEADER_LEN], sendBytes - MSG_HEADER_LEN)
      modifies this
      ensures Valid() && isSendHeader
      ensures View() == WriteBody(old(View()), io)
      ensures rv in {NORMAL, ERRNO_EAGAIN, NEGATIVE_BYTE} && (rv != NORMAL ==> unchanged(this))
    {
      var r := Write(io, recvBytes);
      ghost var u := View();
      BodyWriteCases(u, io, writeBody[..]);
      if !r.Put? || r.n == 0 {
        NothingTaken(u, io);
        return if r.Again? then ERRNO_EAGAIN else NEGATIVE_BYTE;
      }
      assert writeBody[..r.n] == writeBody[..][..r.n];
      CommitBody(r.n);
      WrittenOnce(u, View(), WriteBody(u, io), writeBody[..r.n]);
      return NORMAL;
    }

    /** `server_send_data`. */
    method SendData(head: Io, body: Io) returns (rv: int)
      requires Valid() && isRecvBody && !isSendBody
      requires !SSend(View(), head, body).stage.Undefined?
      modifies this, writeHdr, writeBody
      ensures Valid() && isRecvBody
      ensures View() == SSend(old(View()), head, body)
    {
      if !isSendHeader {
        rv := SendHeader(head);
        if rv != NORMAL {
          return rv;
        }
      }
      if isSendHeader {
        rv := SendBody(body);
      }
    }

    /** The two receive attempts of one pass of the event loop. */
    method ReceiveStage(ev: SEvent)
      requires Valid() && !isSendBody
      requires !SReceived(View(), ev).stage.Undefined?
      modifies this, readHdr, readBody
      ensures Valid() && !isSendBody
      ensures View() == SReceived(old(View()), ev)
    {
      if !isRecvHeader && !isRecvBody {
        var rv := RecvData(ev.header, ev.fill);
        if rv <= ZERO_BYTE {
          open := false;
        }
      }
      RetryBody(ev.header, ev.refill);
    }

    method RetryBody(header: Io, refill: Io)
      requires Valid() && !isSendBody
      requires !SFill(View(), refill).stage.Undefined?
      modifies this, readHdr, readBody
      ensures Valid() && !isSendBody
      ensures View() == SFill(old(View()), refill)
    {
      if isRecvHeader && !isRecvBody {
        var rv := RecvData(header, refill);
        if rv <= ZERO_BYTE {
          open := false;
        }
      }
    }

    /** Its first send attempt. */
    method SendStage(head: Io, body: Io)
      requires Valid() && !isSendBody
      requires !SSend(View(), head, body).stage.Undefined?
      modifies this, writeHdr, writeBody
      ensures Valid()
      ensures View() == SSend(old(View()), head, body)
    {
      if isRecvHeader && isRecvBody {
        var _ := SendData(head, body);
      }
    }

    /** Its second send attempt. */
    method FlushStage(head: Io, again: Io)
      requires Valid()
      requires !SFlush(View(), again).stage.Undefined?
      modifies this, writeHdr, writeBody
      ensures Valid()
      ensures View() == SFlush(old(View()), again)
    {
      if isSendHeader && !isSendBody {
        var _ := SendData(head, again);
      }
    }

    /** One pass of the loop in `server_process_data` with the client's descriptor ready. */
    method HandleEvent(ev: SEvent)
      requires Valid()
      requires !SOnEvent(View(), ev).stage.Undefined?
      modifies this, readHdr, readBody, writeHdr, writeBody
      ensures Valid()
      ensures View() == SOnEvent(old(View()), ev)
    {
      if isSendHeader && isSendBody {
        ClearTransc();
      }
      ReceiveStage(ev);
      SendStage(ev.head, ev.body);
      FlushStage(ev.head, ev.again);
    }
  }
}
