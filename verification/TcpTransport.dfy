/** Length-prefixed framing over a byte stream (src/net/TcpTransport.cpp:65-104). */
module TcpTransport {
  import opened Abi
  import Wire = NetProtocol

  const INT_MAX: nat := 0x7FFF_FFFF

  /** `send` casts the length to 32 bits. */
  function Header(size: nat): (h: Blob)
    ensures |h| == 4
  {
    Wire.Le(size % 0x1_0000_0000, 4)
  }

  function Frame(m: Blob): (f: Blob)
    ensures |f| == 4 + |m|
  {
    Header(|m|) + m
  }

  function Frames(ms: seq<Blob>): Blob {
    if ms == [] then [] else Frame(ms[0]) + Frames(ms[1..])
  }

  function Length(h: Blob): uint32
    requires |h| == 4
  {
    Wire.U32(h)
  }

  lemma HeaderLength(size: nat)
    requires size < 0x1_0000_0000
    ensures Length(Header(size)) == size
  {
    hide Wire.Le, Wire.OfLe, Wire.Pow256;
    Wire.Widths();
    Wire.OfLeLe(size, 4);
    SmallMod(size);
  }

  /** The four header bytes, shifted out of the length. */
  lemma HeaderBytes(size: nat)
    requires size < 0x1_0000_0000
    ensures Header(size) == [size % 256, size / 0x100 % 256, size / 0x1_0000 % 256, size / 0x100_0000]
  {
    var a, b := size / 256, size / 256 / 256;
    assert Wire.Le(size, 4) == [size % 256] + Wire.Le(a, 3);
    assert Wire.Le(a, 3) == [a % 256] + Wire.Le(b, 2);
    assert Wire.Le(b, 2) == [b % 256] + Wire.Le(b / 256, 1);
    assert Wire.Le(b / 256, 1) == [b / 256 % 256] + Wire.Le(b / 256 / 256, 0);
    assert b == size / 0x1_0000 && b / 256 == size / 0x100_0000 && b / 256 % 256 == b / 256;
  }

  lemma SmallMod(size: nat)
    requires size < 0x1_0000_0000
    ensures size % 0x1_0000_0000 == size
  {
  }

  lemma HeaderIs(h: Blob)
    requires |h| == 4
    ensures Header(Length(h)) == h
  {
    hide Wire.Le, Wire.OfLe, Wire.Pow256;
    Wire.Widths();
    SmallMod(Length(h));
    Wire.LeOfLe(h);
  }

  // ----- the code -----

  /** One direction of a connected socket: the bytes accepted from the writer and not yet given to the
      reader. Each call moves as much as the system likes; `failures` counts those that moved nothing. */
  class Stream {
    var bytes: seq<byte>
    ghost var failures: nat

    constructor ()
      ensures bytes == [] && failures == 0
    {
      bytes, failures := [], 0;
    }

    /** `::send`: accepts at least one byte, or fails. */
    method Send(data: seq<byte>) returns (r: int)
      requires 0 < |data| <= INT_MAX
      modifies this
      ensures r <= |data|
      ensures bytes == old(bytes) + if r > 0 then data[..r] else []
      ensures failures == old(failures) + if r > 0 then 0 else 1
    {
      if * {
        r, failures := -1, failures + 1;
      } else {
        r :| 0 < r <= |data|;
        bytes := bytes + data[..r];
      }
    }

    /** `::recv`: between one and `max` of the bytes there, or a failure: the peer closed, nothing came
        in time, or another error. */
    method Recv(max: nat) returns (r: Code, data: seq<byte>)
      requires 0 < max <= INT_MAX
      modifies this
      ensures r == Code.Ok || r == Timeout || r == Device
      ensures if r == Code.Ok then 0 < |data| <= max && old(bytes) == data + bytes
              else data == [] && bytes == old(bytes)
      ensures failures == old(failures) + if r == Code.Ok then 0 else 1
    {
      data := [];
      var fails: bool := *;
      if bytes == [] || fails {
        if * { r := Timeout; } else { r := Device; }
        failures := failures + 1;
      } else {
        var n: nat :| 0 < n <= max && n <= |bytes|;
        data, bytes := bytes[..n], bytes[n..];
        r := Code.Ok;
      }
    }

    /** `select` with no wait: whether there is a byte to read. It fails by itself, or says that a read would
        not wait when the peer has closed and there is none. */
    method Poll() returns (ready: bool)
      modifies this`failures
      ensures failures == old(failures) || failures == old(failures) + 1
      ensures failures == old(failures) ==> (ready <==> bytes != [])
    {
      if * {
        ready := bytes != [];
      } else {
        ready, failures := *, failures + 1;
      }
    }
  }

  class TcpTransport {
    const inS: Stream
    const outS: Stream
    var open: bool

    constructor (inS: Stream, outS: Stream)
      requires inS != outS
      ensures this.inS == inS && this.outS == outS && open
    {
      this.inS, this.outS, open := inS, outS, true;
    }

    /** The `send_all` loop: everything, in as many calls as it takes, or a part when a call fails. `ks` are
        the bytes each call moved. */
    method SendAll(p: seq<byte>) returns (ok: bool, ghost ks: seq<nat>)
      requires |p| <= INT_MAX
      modifies outS
      ensures Moves(ks) && Sum(ks) <= |p| && outS.bytes == old(outS.bytes) + p[..Sum(ks)]
      ensures ok <==> Sum(ks) == |p|
      ensures outS.failures == old(outS.failures) + if ok then 0 else 1
    {
      var done := 0;
      ks := [];
      while done < |p|
        invariant Moves(ks) && done == Sum(ks) <= |p| && outS.bytes == old(outS.bytes) + p[..done]
        invariant outS.failures == old(outS.failures)
      {
        var r := outS.Send(p[done..]);
        if r <= 0 { return false, ks; }
        assert p[..done] + p[done..][..r] == p[..done + r];
        done, ks := done + r, ks + [r];
      }
      return true, ks;
    }

    /** A successful send puts exactly one frame on the stream, a failed one a proper part of it; either is so
        many steps of the writer below. It fails only when it is closed or a call fails. */
    method Send(data: Blob) returns (r: Code, ghost steps: seq<Action>)
      requires |data| <= INT_MAX
      modifies outS
      ensures !open ==> r == Device && outS.bytes == old(outS.bytes)
      ensures r == Code.Ok || r == Device
      ensures r == Code.Ok ==> outS.bytes == old(outS.bytes) + Frame(data)
      ensures r != Code.Ok ==> exists k: nat :: k < |Frame(data)| && outS.bytes == old(outS.bytes) + Frame(data)[..k]
      ensures open ==> (r == Code.Ok <==> outS.failures == old(outS.failures))
      ensures open
         ==> forall t: Transfer | MaySend(t, data, old(outS.bytes)) ::
               RunFrom(t, steps).Some? && Writes(t, RunFrom(t, steps).value, outS.bytes, r == Code.Ok)
    {
      hide Header, RunFrom, WriteSteps;
      steps := [];
      if !open {
        assert Frame(data)[..0] == [];
        return Device, steps;
      }
      var hdr := Header(|data|);
      ghost var before, ls := outS.bytes, [];
      var ok, ks := SendAll(hdr);
      if !ok {
        steps := [Next] + WriteSteps(ks + ls);
        WritesOfSend(data, ks, [], before);
        assert before + hdr[..Sum(ks)] + data[..Sum(ls)] == outS.bytes;
        assert hdr[..Sum(ks)] == Frame(data)[..Sum(ks)];
        return Device, steps;
      }
      assert hdr[..4] == hdr;
      if |data| > 0 {
        ok, ls := SendAll(data);
        if !ok {
          steps := [Next] + WriteSteps(ks + ls);
          WritesOfSend(data, ks, ls, before);
          assert hdr + data[..Sum(ls)] == Frame(data)[..4 + Sum(ls)];
          assert before + hdr + data[..Sum(ls)] == before + Frame(data)[..4 + Sum(ls)];
          return Device, steps;
        }
        assert data[..|data|] == data;
      }
      steps := [Next] + WriteSteps(ks + ls);
      WritesOfSend(data, ks, ls, before);
      assert before + hdr + data == before + Frame(data);
      return Code.Ok, steps;
    }

    /** The `recv_exact` loop: `n` bytes, in as many calls as it takes, or fewer when a call fails. What was
        read before a failure is lost. `ks` are the bytes each call moved. */
    method RecvExact(n: nat) returns (r: Code, buf: seq<byte>, ghost ks: seq<nat>)
      requires n <= INT_MAX
      modifies inS
      ensures old(inS.bytes) == buf + inS.bytes && Moves(ks) && Sum(ks) == |buf| <= n
      ensures r == Code.Ok || r == Timeout || r == Device
      ensures r == Code.Ok <==> |buf| == n
      ensures inS.failures == old(inS.failures) + if r == Code.Ok then 0 else 1
    {
      buf, ks := [], [];
      while |buf| < n
        invariant old(inS.bytes) == buf + inS.bytes && Moves(ks) && Sum(ks) == |buf| <= n
        invariant inS.failures == old(inS.failures)
        decreases n - |buf|
      {
        var code, data := inS.Recv(n - |buf|);
        if code != Code.Ok { return code, buf, ks; }
        buf, ks := buf + data, ks + [|data|];
      }
      return Code.Ok, buf, ks;
    }

    /** A successful receive takes exactly one frame off the stream, in so many steps of the reader below. While
        no call fails it succeeds whenever it blocks or a byte is there, for any frame shorter than 2^31. */
    method Recv(block: bool) returns (r: Code, msg: Blob, ghost steps: seq<Action>)
      modifies inS
      ensures r == Code.Ok ==>
                && |old(inS.bytes)| >= 4 && |msg| == Length(old(inS.bytes)[..4])
                && old(inS.bytes) == Frame(msg) + inS.bytes
      ensures !open ==> r == Device && inS.bytes == old(inS.bytes)
      ensures r == NotFound ==> open && !block && inS.bytes == old(inS.bytes)
      ensures open && inS.failures == old(inS.failures) && !block && old(inS.bytes) == [] ==> r == NotFound
      ensures open && inS.failures == old(inS.failures) && (block || old(inS.bytes) != []) ==>
                && |old(inS.bytes)| >= 4
                && (if Length(old(inS.bytes)[..4]) <= 0x7FFF_FFFF then r == Code.Ok
                    else r == Device && inS.bytes == old(inS.bytes)[4..])
      ensures r == Code.Ok
         ==> forall t: Transfer | t.partial == [] && t.net == old(inS.bytes) ::
               RunFrom(t, steps) == Some(t.(net := inS.bytes, received := t.received + [msg]))
    {
      hide Header, RunFrom, ReadSteps;
      msg, steps := [], [];
      if !open { return Device, msg, steps; }
      if !block {
        var ready := inS.Poll();
        if !ready { return NotFound, msg, steps; }
      }
      var code, hdr, ks := RecvExact(4);
      if code != Code.Ok { return code, msg, steps; }
      ghost var start, ls := hdr + inS.bytes, [];
      assert start[..4] == hdr && start[4..] == inS.bytes;
      var len := Length(hdr);
      // the byte count is passed as a signed 32-bit integer, so the system refuses it
      if len > INT_MAX { return Device, msg, steps; }
      HeaderIs(hdr);
      if len > 0 {
        code, msg, ls := RecvExact(len);
        if code != Code.Ok { return code, [], steps; }
      }
      assert hdr + msg == Frame(msg);
      assert start == hdr + msg + inS.bytes;
      steps := ReadSteps(ks + ls);
      ReadsOfRecv(hdr, msg, inS.bytes, ks, ls);
      return Code.Ok, msg, steps;
    }

    method Close()
      modifies this
      ensures !open
    {
      open := false;
    }
  }

  // ----- any segmentation -----

  /** Both loops over one direction of a connection. The writer has `header` and `body` left of its
      current message and `queue` still to come; `net` is in flight; the reader has `partial` of its
      current frame. */
  datatype Transfer = Transfer(queue: seq<Blob>, header: Blob, body: Blob, net: Blob, partial: Blob,
                               received: seq<Blob>)

  /** A system call moves `k` bytes, whatever `k` the system likes. */
  datatype Action = Next | WriteSome(k: nat) | ReadSome(k: nat)

  /** What the reader's current call still asks for: the rest of the header, then the rest of the payload. */
  function Wanted(partial: Blob): nat {
    if |partial| < 4 then 4 - |partial|
    else if |partial| < 4 + Length(partial[..4]) then 4 + Length(partial[..4]) - |partial|
    else 0
  }

  predicate Enabled(t: Transfer, a: Action) {
    match a
    case Next => t.header == [] && t.body == [] && t.queue != []
    case WriteSome(k) => 0 < k <= if t.header != [] then |t.header| else |t.body|
    case ReadSome(k) => 0 < k <= Wanted(t.partial) && k <= |t.net|
  }

  /** A frame is handed over as soon as it is complete. */
  function Hand(t: Transfer): Transfer {
    if |t.partial| >= 4 && Wanted(t.partial) == 0
    then t.(received := t.received + [t.partial[4..]], partial := [])
    else t
  }

  function Step(t: Transfer, a: Action): Transfer
    requires Enabled(t, a)
  {
    match a
    case Next => t.(queue := t.queue[1..], header := Header(|t.queue[0]|), body := t.queue[0])
    case WriteSome(k) =>
      if t.header != [] then t.(net := t.net + t.header[..k], header := t.header[k..])
      else t.(net := t.net + t.body[..k], body := t.body[k..])
    case ReadSome(k) => Hand(t.(partial := t.partial + t.net[..k], net := t.net[k..]))
  }

  function RunFrom(t: Transfer, actions: seq<Action>): Option<Transfer>
    decreases |actions|
  {
    if actions == [] then Some(t)
    else match RunFrom(t, actions[..|actions| - 1])
      case None => None
      case Some(u) =>
        var a := actions[|actions| - 1];
        if Enabled(u, a) then Some(Step(u, a)) else None
  }

  function Run(ms: seq<Blob>, actions: seq<Action>): Option<Transfer> {
    RunFrom(Transfer(ms, [], [], [], [], []), actions)
  }

  ghost predicate Reachable(ms: seq<Blob>, t: Transfer) {
    exists actions: seq<Action> :: Run(ms, actions) == Some(t)
  }

  // ----- the two loops are runs of it -----

  function Sum(ks: seq<nat>): nat
    decreases |ks|
  {
    if ks == [] then 0 else Sum(ks[..|ks| - 1]) + ks[|ks| - 1]
  }

  /** Every call moved something. */
  predicate Moves(ks: seq<nat>) {
    forall i | 0 <= i < |ks| :: ks[i] > 0
  }

  function WriteSteps(ks: seq<nat>): (s: seq<Action>)
    ensures |s| == |ks|
  {
    seq(|ks|, i requires 0 <= i < |ks| => WriteSome(ks[i]))
  }

  function ReadSteps(ks: seq<nat>): (s: seq<Action>)
    ensures |s| == |ks|
  {
    seq(|ks|, i requires 0 <= i < |ks| => ReadSome(ks[i]))
  }

  /** The writer may take up `data`. */
  predicate MaySend(t: Transfer, data: Blob, net: Blob) {
    t.queue != [] && t.queue[0] == data && t.header == t.body == [] && t.net == net
  }

  /** From `t` to `u` the writer took up one message and wrote some of it, all of it if `whole`. */
  predicate Writes(t: Transfer, u: Transfer, net: Blob, whole: bool)
    requires t.queue != []
  {
    && u == t.(queue := t.queue[1..], net := net, header := u.header, body := u.body)
    && (whole <==> u.header == u.body == [])
  }

  lemma {:induction false} RunFromAppend(t: Transfer, a: seq<Action>, b: seq<Action>)
    requires RunFrom(t, a).Some?
    ensures RunFrom(t, a + b) == RunFrom(RunFrom(t, a).value, b)
    decreases |b|
  {
    if b == [] {
      assert a + b == a;
    } else {
      var n := |b| - 1;
      assert (a + b)[..|a + b| - 1] == a + b[..n];
      RunFromAppend(t, a, b[..n]);
    }
  }

  /** Calls that move `Sum(ks)` bytes of what the writer is writing. */
  lemma {:induction false} WritesHeader(t: Transfer, ks: seq<nat>)
    requires Moves(ks) && Sum(ks) <= |t.header|
    ensures RunFrom(t, WriteSteps(ks)) == Some(t.(net := t.net + t.header[..Sum(ks)], header := t.header[Sum(ks)..]))
    decreases |ks|
  {
    hide Header, Length;
    if ks != [] {
      var n := |ks| - 1;
      var k, done := ks[n], Sum(ks[..n]);
      assert WriteSteps(ks)[..n] == WriteSteps(ks[..n]);
      WritesHeader(t, ks[..n]);
      assert t.header[done..][..k] == t.header[done..done + k] && t.header[done..][k..] == t.header[done + k..];
      assert t.net + t.header[..done] + t.header[done..done + k] == t.net + t.header[..done + k];
    } else {
      assert t.net + t.header[..0] == t.net && t.header[0..] == t.header;
    }
  }

  lemma {:induction false} WritesBody(t: Transfer, ks: seq<nat>)
    requires t.header == [] && Moves(ks) && Sum(ks) <= |t.body|
    ensures RunFrom(t, WriteSteps(ks)) == Some(t.(net := t.net + t.body[..Sum(ks)], body := t.body[Sum(ks)..]))
    decreases |ks|
  {
    hide Header, Length;
    if ks != [] {
      var n := |ks| - 1;
      var k, done := ks[n], Sum(ks[..n]);
      assert WriteSteps(ks)[..n] == WriteSteps(ks[..n]);
      WritesBody(t, ks[..n]);
      assert t.body[done..][..k] == t.body[done..done + k] && t.body[done..][k..] == t.body[done + k..];
      assert t.net + t.body[..done] + t.body[done..done + k] == t.net + t.body[..done + k];
    } else {
      assert t.net + t.body[..0] == t.net && t.body[0..] == t.body;
    }
  }

  /** Calls that move `Sum(ks)` bytes of the part of a frame the reader is reading. */
  lemma {:induction false} ReadsFrame(t: Transfer, ks: seq<nat>)
    requires Moves(ks) && ks != [] && Sum(ks) <= Wanted(t.partial) && Sum(ks) <= |t.net|
    ensures RunFrom(t, ReadSteps(ks))
         == Some(Hand(t.(partial := t.partial + t.net[..Sum(ks)], net := t.net[Sum(ks)..])))
    decreases |ks|
  {
    hide Header, Length, Wanted, RunFrom, Hand;
    var n := |ks| - 1;
    var k, done := ks[n], Sum(ks[..n]);
    assert ReadSteps(ks) == ReadSteps(ks[..n]) + [ReadSome(k)];
    var u := t.(partial := t.partial + t.net[..done], net := t.net[done..]);
    WantedLess(t.partial, t.net[..done]);
    if n > 0 {
      ReadsFrame(t, ks[..n]);
      HandsOnlyWhole(u);
    } else {
      NoCalls(t);
      assert ReadSteps(ks[..0]) == [] && t.partial + t.net[..0] == t.partial && t.net[0..] == t.net;
    }
    OneStep(u, ReadSome(k));
    RunFromAppend(t, ReadSteps(ks[..n]), [ReadSome(k)]);
    ReadsOn(t.partial, t.net, done, k);
  }

  lemma ReadsOn(partial: Blob, net: Blob, done: nat, k: nat)
    requires done + k <= |net|
    ensures partial + net[..done] + net[done..][..k] == partial + net[..done + k] && net[done..][k..] == net[done + k..]
  {
  }

  lemma HandsOnlyWhole(t: Transfer)
    requires Wanted(t.partial) > 0
    ensures Hand(t) == t
  {
  }

  lemma WantedLess(p: Blob, more: Blob)
    requires |more| < Wanted(p)
    ensures Wanted(p + more) == Wanted(p) - |more|
  {
    hide Length;
    if |p| >= 4 { assert (p + more)[..4] == p[..4]; }
  }

  /** The writer's calls for one message, for the header and then for the payload. */
  lemma WritesOfSend(data: Blob, ks: seq<nat>, ls: seq<nat>, before: Blob)
    requires Moves(ks) && Moves(ls) && Sum(ks) <= 4 && Sum(ls) <= |data| && (Sum(ks) < 4 ==> ls == [])
    ensures var net := before + Header(|data|)[..Sum(ks)] + data[..Sum(ls)];
      forall t: Transfer | MaySend(t, data, before) ::
        && RunFrom(t, [Next] + WriteSteps(ks + ls)).Some?
        && Writes(t, RunFrom(t, [Next] + WriteSteps(ks + ls)).value, net, Sum(ks) == 4 && Sum(ls) == |data|)
  {
    forall t: Transfer | MaySend(t, data, before)
      ensures RunFrom(t, [Next] + WriteSteps(ks + ls)).Some?
           && Writes(t, RunFrom(t, [Next] + WriteSteps(ks + ls)).value,
                     before + Header(|data|)[..Sum(ks)] + data[..Sum(ls)], Sum(ks) == 4 && Sum(ls) == |data|)
    {
      WritesOne(t, ks, ls);
    }
  }

  lemma WritesOne(t: Transfer, ks: seq<nat>, ls: seq<nat>)
    requires t.queue != [] && t.header == t.body == []
    requires Moves(ks) && Moves(ls) && Sum(ks) <= 4 && Sum(ls) <= |t.queue[0]| && (Sum(ks) < 4 ==> ls == [])
    ensures var data := t.queue[0];
      && RunFrom(t, [Next] + WriteSteps(ks + ls)).Some?
      && Writes(t, RunFrom(t, [Next] + WriteSteps(ks + ls)).value,
                t.net + Header(|data|)[..Sum(ks)] + data[..Sum(ls)], Sum(ks) == 4 && Sum(ls) == |data|)
  {
    hide Header, RunFrom, Sum;
    var data, hdr := t.queue[0], Header(|t.queue[0]|);
    var u := t.(queue := t.queue[1..], header := hdr, body := data);
    OneStep(t, Next);
    WritesHeader(u, ks);
    var v := u.(net := u.net + hdr[..Sum(ks)], header := hdr[Sum(ks)..]);
    if ls != [] {
      WritesBody(v, ls);
    } else {
      NoCalls(v);
      assert ls == [] && WriteSteps(ls) == [] && v.net + data[..0] == v.net;
    }
    RunFromAppend(u, WriteSteps(ks), WriteSteps(ls));
    RunFromAppend(t, [Next], WriteSteps(ks) + WriteSteps(ls));
    assert WriteSteps(ks + ls) == WriteSteps(ks) + WriteSteps(ls);
  }

  lemma OneStep(t: Transfer, a: Action)
    requires Enabled(t, a)
    ensures RunFrom(t, [a]) == Some(Step(t, a))
  {
    hide Header, Length, Step, Enabled;
    assert [a][..0] == [] && RunFrom(t, []) == Some(t);
  }

  lemma NoCalls(t: Transfer)
    ensures Sum([]) == 0 && RunFrom(t, []) == Some(t)
  {
  }

  /** The reader's calls for one message. */
  lemma ReadsOfRecv(hdr: Blob, msg: Blob, rest: Blob, ks: seq<nat>, ls: seq<nat>)
    requires |hdr| == 4 && |msg| == Length(hdr) && Moves(ks) && Moves(ls) && Sum(ks) == 4 && Sum(ls) == |msg|
    ensures forall t: Transfer | t.partial == [] && t.net == hdr + msg + rest ::
              RunFrom(t, ReadSteps(ks + ls)) == Some(t.(net := rest, received := t.received + [msg]))
  {
    forall t: Transfer | t.partial == [] && t.net == hdr + msg + rest
      ensures RunFrom(t, ReadSteps(ks + ls)) == Some(t.(net := rest, received := t.received + [msg]))
    {
      ReadsOne(t, hdr, msg, rest, ks, ls);
    }
  }

  lemma ReadsOne(t: Transfer, hdr: Blob, msg: Blob, rest: Blob, ks: seq<nat>, ls: seq<nat>)
    requires t.partial == [] && t.net == hdr + msg + rest
    requires |hdr| == 4 && |msg| == Length(hdr) && Moves(ks) && Moves(ls) && Sum(ks) == 4 && Sum(ls) == |msg|
    ensures RunFrom(t, ReadSteps(ks + ls)) == Some(t.(net := rest, received := t.received + [msg]))
  {
    hide RunFrom, Length, Sum, Hand, ReadSteps;
    assert hdr + msg + rest == hdr + (msg + rest);
    ReadsHeader(t, hdr, msg + rest, ks);
    ReadsPayload(t, hdr, msg, rest, ls);
    RunFromAppend(t, ReadSteps(ks), ReadSteps(ls));
    ReadStepsAppend(ks, ls);
  }

  lemma ReadStepsAppend(ks: seq<nat>, ls: seq<nat>)
    ensures ReadSteps(ks + ls) == ReadSteps(ks) + ReadSteps(ls)
  {
  }

  lemma ReadsHeader(t: Transfer, hdr: Blob, rest: Blob, ks: seq<nat>)
    requires t.partial == [] && t.net == hdr + rest && |hdr| == 4 && Moves(ks) && Sum(ks) == 4
    ensures RunFrom(t, ReadSteps(ks)) == Some(Hand(t.(partial := hdr, net := rest)))
  {
    hide RunFrom, Length, Sum, Hand, ReadSteps;
    NoCalls(t);
    ReadsFrame(t, ks);
    assert t.net[..4] == hdr && t.net[4..] == rest && [] + hdr == hdr;
  }

  lemma ReadsPayload(t: Transfer, hdr: Blob, msg: Blob, rest: Blob, ls: seq<nat>)
    requires t.partial == [] && |hdr| == 4 && |msg| == Length(hdr) && Moves(ls) && Sum(ls) == |msg|
    ensures RunFrom(Hand(t.(partial := hdr, net := msg + rest)), ReadSteps(ls))
         == Some(t.(net := rest, received := t.received + [msg]))
  {
    hide RunFrom, Length, Sum;
    var v := t.(partial := hdr, net := msg + rest);
    assert hdr[..4] == hdr && v.net[|msg|..] == rest && v.net[..|msg|] == msg;
    SumPositive(ls);
    if msg == [] {
      NoCalls(Hand(v));
      assert hdr[4..] == [] && [] + rest == rest && ReadSteps(ls) == [];
    } else {
      ReadsFrame(v, ls);
      assert (hdr + msg)[..4] == hdr && (hdr + msg)[4..] == msg;
    }
  }

  lemma SumPositive(ks: seq<nat>)
    requires Moves(ks)
    ensures Sum(ks) == 0 <==> ks == []
  {
  }

  predicate Sendable(ms: seq<Blob>) {
    forall i | 0 <= i < |ms| :: |ms[i]| <= INT_MAX
  }

  /** Conservation: the bytes received, in flight and still to be written are those of all messages. */
  ghost predicate Inv(ms: seq<Blob>, t: Transfer) {
    && Frames(t.received) + t.partial + t.net + t.header + t.body + Frames(t.queue) == Frames(ms)
    && (t.partial == [] || Wanted(t.partial) > 0)
    && (forall i | 0 <= i < |t.received| :: |t.received[i]| < 0x1_0000_0000)
  }

  lemma {:induction false} FramesAppend(ms: seq<Blob>, m: Blob)
    ensures Frames(ms + [m]) == Frames(ms) + Frame(m)
  {
    hide Frame;
    if ms == [] {
      assert [m][1..] == [] && ms + [m] == [m];
      assert Frame(m) + [] == Frame(m) && [] + Frame(m) == Frame(m);
    } else {
      assert (ms + [m])[1..] == ms[1..] + [m];
      FramesAppend(ms[1..], m);
      assert Frame(ms[0]) + (Frames(ms[1..]) + Frame(m)) == Frame(ms[0]) + Frames(ms[1..]) + Frame(m);
    }
  }

  lemma NextOk(ms: seq<Blob>, t: Transfer)
    requires Inv(ms, t) && Enabled(t, Next)
    ensures Inv(ms, Step(t, Next))
  {
    hide Header, Wanted;
    var x := Frames(t.received) + t.partial + t.net;
    assert x + t.header + t.body + Frames(t.queue) == x + Frames(t.queue);
    assert x + Header(|t.queue[0]|) + t.queue[0] + Frames(t.queue[1..])
        == x + (Header(|t.queue[0]|) + t.queue[0] + Frames(t.queue[1..]));
  }

  lemma WriteOk(ms: seq<Blob>, t: Transfer, k: nat)
    requires Inv(ms, t) && Enabled(t, WriteSome(k))
    ensures Inv(ms, Step(t, WriteSome(k)))
  {
    hide Frames, Wanted;
    var x := Frames(t.received) + t.partial + t.net;
    if t.header != [] {
      assert t.header == t.header[..k] + t.header[k..];
      assert x + t.header + t.body + Frames(t.queue)
          == Frames(t.received) + t.partial + (t.net + t.header[..k]) + t.header[k..] + t.body + Frames(t.queue);
    } else {
      assert t.body == t.body[..k] + t.body[k..];
      assert x + t.header + t.body + Frames(t.queue)
          == Frames(t.received) + t.partial + (t.net + t.body[..k]) + t.header + t.body[k..] + Frames(t.queue);
    }
  }

  lemma ReadOk(ms: seq<Blob>, t: Transfer, k: nat)
    requires Inv(ms, t) && Enabled(t, ReadSome(k))
    ensures Inv(ms, Step(t, ReadSome(k)))
  {
    hide Frames, Header;
    var partial, net := t.partial + t.net[..k], t.net[k..];
    var y := t.header + t.body + Frames(t.queue);
    assert t.net == t.net[..k] + t.net[k..];
    assert Frames(t.received) + t.partial + t.net + t.header + t.body + Frames(t.queue)
        == Frames(t.received) + partial + net + y;
    if |partial| >= 4 && Wanted(partial) == 0 {
      CompleteIsFrame(t.partial, t.net[..k]);
      FramesAppend(t.received, partial[4..]);
      assert Frames(t.received + [partial[4..]]) + [] + net + t.header + t.body + Frames(t.queue)
          == Frames(t.received) + partial + net + y;
    } else {
      assert Frames(t.received) + partial + net + t.header + t.body + Frames(t.queue)
          == Frames(t.received) + partial + net + y;
    }
  }

  /** The reader never asks for more than its frame, so what completes is exactly one frame. */
  lemma CompleteIsFrame(before: Blob, more: Blob)
    requires before == [] || Wanted(before) > 0
    requires |more| <= Wanted(before) && |before + more| >= 4 && Wanted(before + more) == 0
    ensures Frame((before + more)[4..]) == before + more && |(before + more)[4..]| < 0x1_0000_0000
  {
    hide Header, Length;
    var p := before + more;
    if |before| >= 4 { assert p[..4] == before[..4]; }
    assert |p| == 4 + Length(p[..4]);
    HeaderIs(p[..4]);
    assert p == p[..4] + p[4..];
  }

  lemma {:induction false} RunOk(ms: seq<Blob>, actions: seq<Action>)
    ensures Run(ms, actions).Some? ==> Inv(ms, Run(ms, actions).value)
    decreases |actions|
  {
    hide Inv, Step, Enabled;
    if actions == [] {
      StartOk(ms);
    } else {
      RunOk(ms, actions[..|actions| - 1]);
      if Run(ms, actions).Some? {
        var t := Run(ms, actions[..|actions| - 1]).value;
        match actions[|actions| - 1] {
          case Next => NextOk(ms, t);
          case WriteSome(k) => WriteOk(ms, t, k);
          case ReadSome(k) => ReadOk(ms, t, k);
        }
      }
    }
  }

  lemma StartOk(ms: seq<Blob>)
    ensures Inv(ms, Transfer(ms, [], [], [], [], []))
  {
    assert Frames([]) == [];
    assert Frames([]) + [] + [] + [] + [] + Frames(ms) == Frames(ms);
  }

  /** Unique decoding: a stream of frames can be cut into frames in one way only. */
  lemma {:induction false} FramesUnique(got: seq<Blob>, rest: Blob, ms: seq<Blob>)
    requires Frames(got) + rest == Frames(ms) && Sendable(ms)
    requires forall i | 0 <= i < |got| :: |got[i]| < 0x1_0000_0000
    ensures got <= ms && rest == Frames(ms[|got|..])
  {
    hide Header, Length;
    if got != [] {
      var b := Frames(ms);
      assert Frames(got) + rest == Frame(got[0]) + (Frames(got[1..]) + rest);
      assert |b| >= 4;
      HeaderLength(|got[0]|);
      HeaderLength(|ms[0]|);
      assert b[..4] == Header(|got[0]|) && b[..4] == Header(|ms[0]|);
      assert b[4..4 + |got[0]|] == got[0] && b[4..4 + |ms[0]|] == ms[0];
      assert b[|Frame(ms[0])|..] == Frames(got[1..]) + rest && b[|Frame(ms[0])|..] == Frames(ms[1..]);
      FramesUnique(got[1..], rest, ms[1..]);
      assert got == [got[0]] + got[1..] && ms == [ms[0]] + ms[1..];
      assert ms[1..][|got| - 1..] == ms[|got|..];
    } else {
      assert Frames(got) + rest == rest && ms[0..] == ms;
    }
  }

  lemma ReachableOk(ms: seq<Blob>, t: Transfer)
    requires Reachable(ms, t)
    ensures Inv(ms, t)
  {
    hide Inv, Run;
    var actions :| Run(ms, actions) == Some(t);
    RunOk(ms, actions);
  }

  /** Any segmentation, safety: at every moment what was received is a prefix of what was sent. */
  lemma ReceivedIsPrefix(ms: seq<Blob>, t: Transfer)
    requires Sendable(ms) && Reachable(ms, t)
    ensures t.received <= ms
  {
    hide Reachable, Frames, Wanted;
    ReachableOk(ms, t);
    var rest := t.partial + t.net + t.header + t.body + Frames(t.queue);
    assert Frames(t.received) + rest == Frames(t.received) + t.partial + t.net + t.header + t.body + Frames(t.queue);
    FramesUnique(t.received, rest, ms);
  }

  /** How many bytes both loops still have to move. */
  function Left(t: Transfer): nat {
    2 * (|t.header| + |t.body| + |Frames(t.queue)|) + |t.net| + |t.queue|
  }

  /** Termination: every call moves both loops closer to their end. */
  lemma EveryStepProgresses(t: Transfer, a: Action)
    requires Enabled(t, a)
    ensures Left(Step(t, a)) < Left(t)
  {
    hide Header, Wanted;
  }

  /** Any segmentation, completeness: when nothing can move any more, exactly the messages sent were
      received, in order. */
  lemma AllArrives(ms: seq<Blob>, t: Transfer)
    requires Sendable(ms) && Reachable(ms, t) && (forall a: Action :: !Enabled(t, a))
    ensures t.received == ms
  {
    hide Reachable, Frames, Header;
    ReachableOk(ms, t);
    NothingLeft(t);
    assert Frames([]) == [] by { NoFrames(); }
    assert Frames(t.received) + t.partial + t.net + t.header + t.body + Frames(t.queue)
        == Frames(t.received) + t.partial;
    FramesUnique(t.received, t.partial, ms);
    if |t.received| < |ms| { WholeFrameIsNotPartial(ms[|t.received|..], t.partial); }
  }

  lemma NoFrames()
    ensures Frames([]) == []
  {
  }

  /** With nothing enabled, nothing is in flight or unsent. */
  lemma NothingLeft(t: Transfer)
    requires (forall a: Action :: !Enabled(t, a)) && (t.partial == [] || Wanted(t.partial) > 0)
    ensures t.header == [] && t.body == [] && t.queue == [] && t.net == []
  {
    hide Length;
    assert !Enabled(t, WriteSome(1)) && !Enabled(t, Next) && !Enabled(t, ReadSome(1));
  }

  /** An unfinished frame is not a sequence of whole frames. */
  lemma WholeFrameIsNotPartial(ms: seq<Blob>, partial: Blob)
    requires ms != [] && Sendable(ms) && partial == Frames(ms)
    ensures partial != [] && Wanted(partial) == 0
  {
    hide Header, Length;
    HeaderLength(|ms[0]|);
    assert partial[..4] == Header(|ms[0]|);
  }
}
