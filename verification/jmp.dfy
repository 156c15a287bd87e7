/** The client's message object (src/client/jmp.c). */
module Jmp {
  import opened Bytes
  import opened Codec
  import opened Options

  lemma EncodedOnHosts(m: Msg)
    requires |m.body| <= BUF_MAX_LEN && m.code < 0x100_0000
    ensures forall host :: host in {LITTLE, BIG} ==> Placed(host, Encode(host, m), m.version, |m.body| + MSG_HEADER_LEN, m.code)
    ensures |m.body| == 240 && m.version != 0 ==> Encode(LITTLE, m)[1..4] == [4, 1, 0]
  {
    EncodedPlaces(LITTLE, m);
    EncodedPlaces(BIG, m);
    if |m.body| == 240 && m.version != 0 {
      Frame260(m);
    }
  }

  class Message {
    var version: byte
    var length: nat
    var flag: byte
    var code: nat
    var ids: (nat, nat, nat)
    const data: array<byte>

    constructor ()
      ensures fresh(data) && data.Length == BUF_MAX_LEN && AllZero(data[..])
    {
      data := new byte[BUF_MAX_LEN](_ => 0);
    }

    /** The header and data bytes `write(fd, msg, msg->hdr.length)` sends, on a host of the given order. */
    ghost function Wire(host: int): seq<byte>
      requires MSG_HEADER_LEN <= length <= MSG_HEADER_LEN + data.Length
      requires flag == 0 && ids == (0, 0, 0)
      reads this, data
    {
      Header(host, version, length, code) + data[..length - MSG_HEADER_LEN]
    }

    /**
     * `jmp_set_msg`.  `text` is the C string without its terminator, no longer than the data array
     * that `memcpy` fills.  The 24-bit bit-field keeps the low 24 bits of the command code.
     */
    method SetMsg(newVersion: byte, text: Option<seq<byte>>, newCode: nat) returns (rv: int)
      requires data.Length == BUF_MAX_LEN
      requires text.Some? ==> |text.value| <= BUF_MAX_LEN
      modifies this, data
      ensures rv == if text.Some? then 1 else -1
      ensures text.None? ==> unchanged(this) && unchanged(data)
      ensures text.Some? ==>
        && length == |text.value| + MSG_HEADER_LEN && flag == 0 && ids == (0, 0, 0)
        && data[..] == text.value + Zeros(data.Length - |text.value|)
        && (forall host :: Wire(host) == Encode(host, Msg(newVersion, newCode % 0x100_0000, text.value)))
        && (forall host :: host in {LITTLE, BIG} ==> Placed(host, Wire(host), newVersion, length, newCode % 0x100_0000))
        && (|text.value| == 240 && newVersion != 0 ==> Wire(LITTLE)[1..4] == [4, 1, 0])
    {
      if text.None? {
        return -1;
      }
      Store(newVersion, text.value, newCode);
      EncodedOnHosts(Msg(newVersion, newCode % 0x100_0000, text.value));
      rv := 1;
    }

    /** Its assignments. */
    method Store(newVersion: byte, text: seq<byte>, newCode: nat)
      requires data.Length == BUF_MAX_LEN && |text| <= BUF_MAX_LEN
      modifies this, data
      ensures version == newVersion && length == |text| + MSG_HEADER_LEN && code == newCode % 0x100_0000
      ensures flag == 0 && ids == (0, 0, 0)
      ensures data[..] == text + Zeros(data.Length - |text|) && data[..|text|] == text
    {
      var len := |text|;
      version := newVersion;
      length := (len + MSG_HEADER_LEN) % 0x100_0000;
      flag := 0;
      code := newCode % 0x100_0000;
      ids := (0, 0, 0);
      forall i | 0 <= i < data.Length { data[i] := 0; }
      forall i | 0 <= i < len { data[i] := text[i]; }
    }
  }
}
