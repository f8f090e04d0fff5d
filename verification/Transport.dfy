/** One endpoint of a message transport (src/net/ITransport.h, src/net/LoopbackTransport.cpp). */
module Transport {
  import opened Abi

  /** `LoopbackTransport::Channel`: a queue of whole messages and a flag. */
  class Channel {
    var q: seq<Blob>
    var open: bool

    constructor ()
      ensures q == [] && open
    {
      q, open := [], true;
    }
  }

  /** Two endpoints share two channels crosswise. `pollSeesClose` tells a socket endpoint, whose
      poll of a closed empty channel fails, from the loopback one, whose poll finds nothing. */
  class Endpoint {
    const inCh: Channel
    const outCh: Channel
    const pollSeesClose: bool

    constructor (inCh: Channel, outCh: Channel, pollSeesClose: bool)
      ensures this.inCh == inCh && this.outCh == outCh && this.pollSeesClose == pollSeesClose
    {
      this.inCh, this.outCh, this.pollSeesClose := inCh, outCh, pollSeesClose;
    }

    /** Whether a poll after the queued messages reports "nothing ready" rather than an error. */
    predicate PollOk()
      reads inCh
    {
      inCh.open || !pollSeesClose
    }

    method Send(data: Blob) returns (r: Code)
      modifies outCh`q
      ensures r == if outCh.open then Code.Ok else Device
      ensures outCh.q == if r == Code.Ok then old(outCh.q) + [data] else old(outCh.q)
    {
      if !outCh.open { return Device; }
      outCh.q := outCh.q + [data];
      return Code.Ok;
    }

    /** The oldest message first; nothing may arrive while a blocking call waits. */
    method Recv(block: bool) returns (r: Code, msg: Blob)
      modifies inCh`q
      ensures r == Code.Ok <==> old(inCh.q) != []
      ensures r == Code.Ok ==> old(inCh.q) == [msg] + inCh.q
      ensures r != Code.Ok ==> inCh.q == [] && r == (if !inCh.open && (block || pollSeesClose) then Device
                                                     else if block then Timeout else NotFound)
    {
      msg := [];
      if inCh.q == [] {
        if !block { r := if PollOk() then NotFound else Device; return; }
        r := if inCh.open then Timeout else Device;
        return;
      }
      msg := inCh.q[0];
      inCh.q := inCh.q[1..];
      r := Code.Ok;
    }

    method Close()
      modifies inCh`open, outCh`open
      ensures !inCh.open && !outCh.open
    {
      outCh.open := false;
      inCh.open := false;
    }
  }

  /** `make_loopback_pair`: what one endpoint sends is what the other receives. */
  method MakeLoopbackPair() returns (a: Endpoint, b: Endpoint)
    ensures fresh(a) && fresh(b) && fresh(a.inCh) && fresh(a.outCh)
    ensures a.inCh == b.outCh && a.outCh == b.inCh && a.inCh != a.outCh
    ensures a.inCh.open && a.outCh.open && a.inCh.q == [] && a.outCh.q == [] && !a.pollSeesClose && !b.pollSeesClose
  {
    var a2b := new Channel();
    var b2a := new Channel();
    a := new Endpoint(b2a, a2b, false);
    b := new Endpoint(a2b, b2a, false);
  }

  /** Messages come out of a channel in the order they were put in, whatever sends and receives
      are interleaved. */
  datatype ChannelOp = Put(data: Blob) | Take

  function After(q: seq<Blob>, ops: seq<ChannelOp>): (seq<Blob>, seq<Blob>)
    decreases |ops|
  {
    if ops == [] then (q, [])
    else match ops[0]
      case Put(d) => After(q + [d], ops[1..])
      case Take =>
        if q == [] then After(q, ops[1..])
        else var (left, taken) := After(q[1..], ops[1..]); (left, [q[0]] + taken)
  }

  function Puts(ops: seq<ChannelOp>): seq<Blob> {
    if ops == [] then [] else (if ops[0].Put? then [ops[0].data] else []) + Puts(ops[1..])
  }

  lemma {:induction false} ChannelIsFifo(q: seq<Blob>, ops: seq<ChannelOp>)
    ensures var (left, taken) := After(q, ops); taken + left == q + Puts(ops)
    decreases |ops|
  {
    if ops != [] {
      match ops[0]
      case Put(d) =>
        ChannelIsFifo(q + [d], ops[1..]);
        assert q + Puts(ops) == q + [d] + Puts(ops[1..]);
      case Take =>
        if q == [] {
          ChannelIsFifo(q, ops[1..]);
        } else {
          ChannelIsFifo(q[1..], ops[1..]);
          var (left, taken) := After(q[1..], ops[1..]);
          assert [q[0]] + taken + left == [q[0]] + (taken + left);
          assert q + Puts(ops) == [q[0]] + (q[1..] + Puts(ops[1..]));
        }
    }
  }
}
