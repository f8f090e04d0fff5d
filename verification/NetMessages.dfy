/** The messages of a running netplay session and how they are read off the wire
    (src/net/NetProtocol.h; src/net/RollbackSession.cpp, src/net/NetSession.cpp). */
module NetMessages {
  import opened Abi
  import Wire = NetProtocol

  /** The two message kinds a running session exchanges; `Other` is everything it ignores. */
  datatype Msg = Input(frame: nat, state: InputState) | Checksum(frame: nat, crc: uint32) | Other

  /** How a running session reads one received message: anything it cannot decode is ignored. */
  function Message(b: Blob): Msg {
    if b == [] then Other
    else if b[0] == Wire.INPUT then
      match Wire.DecodedInput(b)
      case Some(m) => Input(m.frame, m.state)
      case None => Other
    else if b[0] == Wire.CHECKSUM then
      match Wire.DecodedChecksum(b)
      case Some(c) => Checksum(c.frame, c.crc)
      case None => Other
    else Other
  }

  /** What a running session makes of any bytes: an input or a checksum exactly when the tag says so and all of
      its bytes are there, whatever follows; everything else is ignored. */
  lemma MessageOnBytes(b: Blob)
    ensures Message(b).Input? <==> |b| >= 284 && b[0] == 3
    ensures Message(b).Checksum? <==> |b| >= 13 && b[0] == 4
    ensures Message(b).Input?
       ==> Message(b).frame == Wire.U64(b[1..9]) && Message(b).state == Wire.InputOf(b[10..284])
    ensures Message(b).Checksum?
       ==> Message(b).frame == Wire.U64(b[1..9]) && Message(b).crc == Wire.Four(b[9..13])
  {
    hide Wire.DecodedInput, Wire.DecodedChecksum, Wire.U64, Wire.Four, Wire.InputOf;
    Wire.InputLayout(b);
    Wire.ChecksumLayout(b);
    if |b| >= 284 && b[0] == 3 { InputPayload(b); }
  }

  lemma InputPayload(b: Blob)
    requires |b| >= 284 && b[0] == 3
    ensures Wire.DecodedInput(b).Some? && Wire.DecodedInput(b).value.state == Wire.InputOf(b[10..284])
  {
  }

  function Messages(q: seq<Blob>): seq<Msg> {
    if q == [] then [] else [Message(q[0])] + Messages(q[1..])
  }

  lemma {:induction false} MessagesAppend(q: seq<Blob>, b: Blob)
    ensures Messages(q + [b]) == Messages(q) + [Message(b)]
  {
    hide Message;
    if q == [] {
      assert q + [b] == [b] && [b][1..] == [];
    } else {
      assert (q + [b])[1..] == q[1..] + [b];
      MessagesAppend(q[1..], b);
    }
  }

  lemma MessagesPop(q: seq<Blob>, b: Blob, rest: seq<Blob>)
    requires q == [b] + rest
    ensures Messages(q) == [Message(b)] + Messages(rest)
  {
    hide Message;
    assert q[1..] == rest;
  }

  lemma NothingPending()
    ensures Messages([]) == []
  {
  }

  lemma InputReads(b: Blob, f: uint64, port: byte, s: InputState)
    requires s.WellFormed() && b == Wire.InputMsgBytes(Wire.Input(f, port, s))
    requires Wire.DecodedInput(b) == Some(Wire.Input(f, port, s))
    ensures Message(b) == Input(f, s)
  {
    hide Wire.DecodedInput, Wire.Le, Wire.InputBytes;
  }

  lemma ChecksumReads(b: Blob, f: uint64, crc: uint32)
    requires b == Wire.ChecksumBytes(Wire.Checksum(f, crc)) && Wire.DecodedChecksum(b) == Some(Wire.Checksum(f, crc))
    ensures Message(b) == Checksum(f, crc)
  {
    hide Wire.DecodedChecksum, Wire.Le;
  }
}
