/** The empty SELECT command in SecureElement::transceive: a SELECT by name without a name gets the configured AID.
    Commands are read by the short format of ISO/IEC 7816-4:2005, section 5.1. */
module EmptySelect {
  import opened Common

  type Byte = x: int | 0 <= x < 256

  const MAX_AID_LEN := 16
  const INS_SELECT: Byte := 0xA4
  const P1_BY_NAME: Byte := 0x04

  // ---------------------------------------------------------------- the command format

  /** A command: its header, its data, and its Le byte if there is one. */
  datatype Command = Command(cla: Byte, ins: Byte, p1: Byte, p2: Byte, data: seq<Byte>, le: Option<Byte>)

  predicate Short(c: Command) { |c.data| < 256 }

  function Encode(c: Command): seq<Byte>
    requires Short(c)
  {
    [c.cla, c.ins, c.p1, c.p2]
    + (if c.data == [] then [] else [|c.data|] + c.data)
    + (if c.le.Some? then [c.le.value] else [])
  }

  /** Cases 1 to 4 of the format. */
  function Decode(b: seq<Byte>): Option<Command> {
    if |b| < 4 then None
    else if |b| == 4 then Some(Command(b[0], b[1], b[2], b[3], [], None))
    else if |b| == 5 then Some(Command(b[0], b[1], b[2], b[3], [], Some(b[4])))
    else
      var lc: int := b[4];
      if lc > 0 && |b| == 5 + lc then Some(Command(b[0], b[1], b[2], b[3], b[5..], None))
      else if lc > 0 && |b| == 6 + lc then Some(Command(b[0], b[1], b[2], b[3], b[5..5 + lc], Some(b[5 + lc])))
      else None
  }

  /** Decode undoes Encode. */
  lemma DecodeOfEncode(c: Command)
    requires Short(c)
    ensures Decode(Encode(c)) == Some(c)
  {
    var b, n := Encode(c), |c.data|;
    if n > 0 {
      assert b[5..5 + n] == c.data;
      assert c.le.None? ==> b[5..] == c.data;
    }
  }

  /** And Encode undoes Decode, on every text that is a short command. */
  lemma EncodeOfDecode(b: seq<Byte>)
    requires Decode(b).Some?
    ensures Short(Decode(b).value) && Encode(Decode(b).value) == b
  {
  }

  // ---------------------------------------------------------------- the rewriting

  /** The command is a SELECT by name of 4 or 5 bytes, and an AID of valid length is configured. */
  predicate Replaced(aid: seq<Byte>, cmd: seq<Byte>)
    requires |aid| == MAX_AID_LEN + 1
  {
    0 < aid[0] <= MAX_AID_LEN && 4 <= |cmd| <= 5 && cmd[1] == INS_SELECT && cmd[2] == P1_BY_NAME
  }

  /** That is to say: it reads as a SELECT by name without a name, and an AID of 1 to 16 bytes is configured. */
  lemma ReplacedExactly(aid: seq<Byte>, cmd: seq<Byte>)
    requires |aid| == MAX_AID_LEN + 1
    ensures Replaced(aid, cmd) <==>
            && 1 <= aid[0] <= 16
            && Decode(cmd).Some? && Decode(cmd).value.data == []
            && Decode(cmd).value.ins == 0xA4 && Decode(cmd).value.p1 == 0x04
  {
    if |cmd| > 5 && Decode(cmd).Some? { assert |Decode(cmd).value.data| == cmd[4]; }
  }

  /** The bytes a caller gives; none if the size is negative. */
  function Given(buffer: seq<Byte>, size: int): seq<Byte>
    requires size <= |buffer|
  {
    if size < 0 then [] else buffer[..size]
  }

  /** A replaced command decodes to the original one with the configured AID as its data, and with the original
      fifth byte, if any, as Le; every other command goes out as it came in. */
  method CommandToSend(mAidForEmptySelect: array<Byte>, xmitBuffer: array<Byte>, xmitBufferSize: int)
    returns (buffer: array<Byte>, size: int)
    requires mAidForEmptySelect.Length == MAX_AID_LEN + 1 && xmitBufferSize <= xmitBuffer.Length
    ensures size <= buffer.Length
    ensures !Replaced(mAidForEmptySelect[..], Given(xmitBuffer[..], xmitBufferSize)) ==>
        buffer == xmitBuffer && size == xmitBufferSize
    ensures Replaced(mAidForEmptySelect[..], Given(xmitBuffer[..], xmitBufferSize)) ==>
              var was := Decode(Given(xmitBuffer[..], xmitBufferSize));
              && was.Some? && was.value.data == []
              && buffer.Length == MAX_AID_LEN + 10 && 0 <= size
              && Decode(buffer[..size]) == Some(was.value.(data := mAidForEmptySelect[1..1 + mAidForEmptySelect[0]]))
  {
    buffer, size := xmitBuffer, xmitBufferSize;
    var newSelectCmd := new Byte[MAX_AID_LEN + 10];
    if mAidForEmptySelect[0] != 0 && mAidForEmptySelect[0] <= MAX_AID_LEN && xmitBufferSize >= 4
       && xmitBuffer[1] == INS_SELECT && xmitBuffer[2] == P1_BY_NAME && xmitBufferSize <= 5
    {
      var n: int := mAidForEmptySelect[0];
      ghost var cmd, aid := xmitBuffer[..xmitBufferSize], mAidForEmptySelect[1..1 + n];
      Copy(xmitBuffer, 0, newSelectCmd, 0, 4);
      var idx: Byte := 4;
      newSelectCmd[idx] := n;
      idx := idx + 1;
      assert newSelectCmd[..idx] == cmd[..4] + [n];
      Copy(mAidForEmptySelect, 1, newSelectCmd, idx, n);
      idx := idx + n;
      assert newSelectCmd[..idx] == cmd[..4] + [n] + aid;
      if xmitBufferSize == 5 {
        newSelectCmd[idx] := xmitBuffer[4];
        idx := idx + 1;
      }
      buffer, size := newSelectCmd, idx;
      assert newSelectCmd[..idx] == cmd[..4] + [n] + aid + cmd[4..];
      ReadsWithName(cmd, aid, newSelectCmd[..idx]);
    }
  }

  /** memcpy. */
  method Copy(from: array<Byte>, start: nat, to: array<Byte>, at: nat, n: nat)
    requires from != to && start + n <= from.Length && at + n <= to.Length
    modifies to
    ensures to[..] == old(to[..at]) + from[start..start + n] + old(to[at + n..])
  {
    forall i | at <= i < at + n { to[i] := from[start + (i - at)]; }
  }

  /** A SELECT command without data, given a name in this way, reads as the same command with the name as its data. */
  lemma ReadsWithName(cmd: seq<Byte>, name: seq<Byte>, sent: seq<Byte>)
    requires 4 <= |cmd| <= 5 && 0 < |name| <= MAX_AID_LEN && sent == cmd[..4] + [|name|] + name + cmd[4..]
    ensures Decode(sent) == Some(Decode(cmd).value.(data := name))
  {
    var c := Decode(cmd).value.(data := name);
    assert cmd[4..] == if c.le.Some? then [c.le.value] else [];
    assert sent == Encode(c);
    DecodeOfEncode(c);
  }

  /** Only one text reads so: the header, the length, the AID, and the fifth byte if there was one. */
  lemma OneReading(aid: seq<Byte>, cmd: seq<Byte>, sent: seq<Byte>)
    requires |aid| == MAX_AID_LEN + 1 && Replaced(aid, cmd)
    requires Decode(sent) == Some(Decode(cmd).value.(data := aid[1..1 + aid[0]]))
    ensures sent == cmd[..4] + [aid[0]] + aid[1..1 + aid[0]] + cmd[4..]
    ensures |sent| <= MAX_AID_LEN + 6
  {
    EncodeOfDecode(sent);
  }
}
