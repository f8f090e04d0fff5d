/** `NetSession` over a runtime and a transport (src/net/NetSession.cpp, .h). */
module NetSession {
  import opened Abi
  import M = LockstepModel
  import opened Runtime
  import opened Transport
  import opened NetMessages
  import Wire = NetProtocol
  import Crc32
  import H = Handshake
  import RollbackPredict

  class NetSession<S> {
    const rt: Runtime<S>
    const t: Endpoint
    const crcs: Crc32.Table
    var localPort: Side
    var remotePort: Side
    var delay: uint32
    var frame: uint64
    var status: M.Status
    var localPending: map<nat, InputState>
    var remotePending: map<nat, InputState>
    var ownCrc: map<nat, uint32>
    var peerCrc: map<nat, uint32>

    ghost predicate Valid()
      reads this, rt, crcs, crcs.table
    {
      rt.Valid() && !rt.paused && crcs.Valid() && t.inCh != t.outCh && remotePort == 1 - localPort
    }

    ghost function View(): M.Session<S>
      reads this, rt
    {
      M.Session(localPort, delay, frame, status, rt.state, localPending, remotePending, ownCrc, peerCrc)
    }

    /** What the transport is about to do. */
    ghost function Link(): M.Link
      reads t, t.inCh, t.outCh
    {
      M.Link(Messages(t.inCh.q), t.inCh.open, t.outCh.open)
    }

    constructor (rt: Runtime<S>, t: Endpoint, crcs: Crc32.Table)
      requires rt.Valid() && !rt.paused && crcs.Valid() && t.inCh != t.outCh
      ensures Valid() && this.rt == rt && this.t == t && this.crcs == crcs
      ensures View() == M.Session(0, 0, 0, M.Ok, rt.state, map[], map[], map[], map[])
    {
      this.rt, this.t, this.crcs := rt, t, crcs;
      localPort, remotePort, delay, frame, status := 0, 1, 0, 0, M.Ok;
      localPending, remotePending, ownCrc, peerCrc := map[], map[], map[], map[];
    }

    /** A session about to start; the input maps are left as they are. */
    method Reset(port: Side)
      requires Valid()
      modifies this`localPort, this`remotePort, this`frame, this`status
      ensures Valid() && localPort == port && frame == 0 && status == M.Ok
    {
      localPort, remotePort := port, 1 - port;
      frame, status := 0, M.Ok;
    }

    /** The hello exchange. */
    method Handshake(isHost: bool, value: uint32, contentHash: uint64, id: Option<Blob>) returns (r: Code)
      requires Valid()
      modifies this`delay, t.inCh`q, t.outCh`q
      ensures Valid()
      ensures !t.outCh.open ==> r == Device && t.outCh.q == old(t.outCh.q) && t.inCh.q == old(t.inCh.q)
      ensures t.outCh.open ==> t.outCh.q == old(t.outCh.q) + [Wire.HelloBytes(H.HelloOf(value, contentHash, id))]
      ensures t.outCh.open && old(t.inCh.q) == [] ==> r == Device && t.inCh.q == []
      ensures t.outCh.open && old(t.inCh.q) != [] ==>
                && r == H.Meet(H.Lockstep, isHost, H.HelloOf(value, contentHash, id), old(t.inCh.q)[0]).code
                && t.inCh.q == old(t.inCh.q)[1..]
      ensures delay == if r == Code.Ok
                         then H.Meet(H.Lockstep, isHost, H.HelloOf(value, contentHash, id), old(t.inCh.q)[0]).agreed
                         else old(delay)
    {
      hide Wire.DecodedHello, Wire.HelloBytes, H.PaddedId, H.SameId;
      var mine := H.HelloOf(value, contentHash, id);
      var bytes := Wire.EncodeHello(mine);
      r := t.Send(bytes);
      if r != Code.Ok { return Device; }
      var code, msg := t.Recv(true);
      if code != Code.Ok { return Device; }
      var peer := Wire.DecodeHello(msg);
      if peer.None? { return Internal; }
      if peer.value.abiVersion != H.ABI_VERSION { return AbiMismatch; }
      if peer.value.contentHash != contentHash
          || !H.SameId(H.Lockstep, peer.value.coreId, mine.coreId) { return BadArg; }
      delay := if isHost then value else peer.value.inputDelay;
      return Code.Ok;
    }

    /** The host side of the start: port 0, and its state is sent. The input maps are left as they are. */
    method StartHost(value: uint32, contentHash: uint64, id: Option<Blob>) returns (r: Code)
      requires Valid()
      modifies this`localPort, this`remotePort, this`frame, this`status, this`delay, t.inCh`q, t.outCh`q
      ensures Valid()
      ensures var h := H.StartHost(H.Lockstep, rt.core, rt.state, H.HelloOf(value, contentHash, id), old(t.inCh.q),
                                   t.outCh.open);
        && r == h.code
        && t.outCh.q == old(t.outCh.q) + h.sent
        && delay == (if h.met then h.agreed else old(delay))
      ensures H.BegunLockstep(View(), 0, delay, rt.state)
    {
      hide Wire.HelloBytes, Wire.StateSyncBytes, H.HelloOf, H.Meet, H.StartHost;
      H.HostExits(H.Lockstep, rt.core, rt.state, H.HelloOf(value, contentHash, id), t.inCh.q, t.outCh.open);
      Reset(0);
      r := Handshake(true, value, contentHash, id);
      if r == Code.Ok { r := SendState(); }
    }

    /** The host's authoritative state. */
    method SendState() returns (r: Code)
      modifies t.outCh`q
      ensures match rt.core.save(rt.state)
        case None => r == Internal && t.outCh.q == old(t.outCh.q)
        case Some(b) =>
          && r == (if t.outCh.open then Code.Ok else Device)
          && t.outCh.q == old(t.outCh.q) + if r == Code.Ok then [Wire.StateSyncBytes(Wire.StateSync(0, b))] else []
    {
      hide Wire.StateSyncBytes;
      var blob := rt.SaveState();
      if blob.None? { return Internal; }
      var bytes := Wire.EncodeStateSync(Wire.StateSync(0, blob.value));
      r := t.Send(bytes);
    }

    /** The join side of the start: port 1, the host's value and the host's state. */
    method StartJoin(contentHash: uint64, id: Option<Blob>) returns (r: Code)
      requires Valid()
      modifies this`localPort, this`remotePort, this`frame, this`status, this`delay, rt`state, t.inCh`q, t.outCh`q
      ensures Valid()
      ensures var j := H.StartJoin(H.Lockstep, rt.core, old(rt.state), H.HelloOf(0, contentHash, id), old(t.inCh.q),
                                   t.outCh.open);
        && r == j.code
        && t.outCh.q == old(t.outCh.q) + j.sent
        && rt.state == j.state
        && delay == (if j.met then j.agreed else old(delay))
      ensures H.BegunLockstep(View(), 1, delay, rt.state)
    {
      hide Wire.HelloBytes, Wire.DecodedStateSync, H.HelloOf, H.Meet, H.StartJoin;
      H.JoinExits(H.Lockstep, rt.core, rt.state, H.HelloOf(0, contentHash, id), t.inCh.q, t.outCh.open);
      Reset(1);
      r := Handshake(false, 0, contentHash, id);
      if r == Code.Ok { r := TakeState(); }
    }

    /** The join side loads what the host sends. */
    method TakeState() returns (r: Code)
      modifies t.inCh`q, rt`state
      ensures old(t.inCh.q) == [] ==> r == Device && rt.state == old(rt.state)
      ensures old(t.inCh.q) != [] ==>
                forall agreed: uint32, hello: Blob ::
                  H.Synced(rt.core, old(rt.state), agreed, hello, old(t.inCh.q)[0])
                      == H.Started(r, true, agreed, rt.state, [hello])
    {
      hide Wire.DecodedStateSync;
      var code, msg := t.Recv(true);
      if code != Code.Ok { return Device; }
      var s := Wire.DecodeStateSync(msg);
      if s.None? { return Internal; }
      if s.value.blob != [] {
        var loaded := rt.LoadState(s.value.blob);
        if !loaded { return Unsupported; }
      }
      return Code.Ok;
    }

    /** First half of a tick. */
    method TickSend(localNow: InputState)
      requires Valid() && localNow.WellFormed() && frame + delay <= UINT64_MAX
      modifies this`localPending, this`status, t.outCh`q
      ensures Valid()
      ensures var turn := M.SendInput(old(View()), localNow, t.outCh.open);
        && View() == turn.session
        && Messages(t.outCh.q) == Messages(old(t.outCh.q)) + turn.sent
    {
      hide Messages, Message;
      if status == M.Disconnected { return; }
      var apply := frame + delay;
      localPending := localPending[apply := localNow];
      var sent := SendPending(apply, localNow);
      if !sent { status := M.Disconnected; }
    }

    method SendPending(apply: uint64, localNow: InputState) returns (ok: bool)
      requires Valid() && localNow.WellFormed()
      modifies t.outCh`q
      ensures Valid() && ok == t.outCh.open
      ensures Messages(t.outCh.q) == Messages(old(t.outCh.q)) + if ok then [Input(apply, localNow)] else []
    {
      hide Messages, Message;
      var b := Wire.EncodeInput(Wire.Input(apply, localPort, localNow));
      InputReads(b, apply, localPort, localNow);
      MessagesAppend(t.outCh.q, b);
      var r := t.Send(b);
      ok := r == Code.Ok;
    }

    method Take(msg: Blob)
      requires Valid()
      modifies this`remotePending, this`peerCrc
      ensures Valid() && View() == M.Take(old(View()), Message(msg))
    {
      hide Wire.DecodedInput, Wire.DecodedChecksum;
      if msg == [] { return; }
      if msg[0] == Wire.INPUT {
        var m := Wire.DecodeInput(msg);
        if m.Some? { remotePending := remotePending[m.value.frame := m.value.state]; }
      } else if msg[0] == Wire.CHECKSUM {
        var c := Wire.DecodeChecksum(msg);
        if c.Some? { peerCrc := peerCrc[c.value.frame := c.value.crc]; }
      }
    }

    /** Blocks until the remote input of this frame is there, or the transport gives up. */
    method DrainUntil() returns (r: Code)
      requires Valid()
      modifies this`remotePending, this`peerCrc, t.inCh`q
      ensures Valid() && t.inCh.open == old(t.inCh.open)
      ensures (View(), Messages(t.inCh.q)) == M.DrainUntil(old(View()), Messages(old(t.inCh.q)))
      ensures r == if frame in remotePending then Code.Ok else if t.inCh.open then Timeout else Device
    {
      hide Messages, Message, M.Take;
      while frame !in remotePending
        invariant Valid() && t.inCh.open == old(t.inCh.open)
        invariant M.DrainUntil(View(), Messages(t.inCh.q)) == M.DrainUntil(old(View()), Messages(old(t.inCh.q)))
        decreases |t.inCh.q|
      {
        ghost var before, q := View(), t.inCh.q;
        var code, msg := t.Recv(true);
        if code != Code.Ok { NothingPending(); return code; }
        MessagesPop(q, msg, t.inCh.q);
        DrainOne(before, Message(msg), Messages(t.inCh.q));
        Take(msg);
      }
      return Code.Ok;
    }

    /** Compares every frame for which both checksums are known. */
    method Compare() returns (clash: bool)
      ensures clash == M.Clashes(ownCrc, peerCrc)
    {
      var left := ownCrc.Keys;
      while left != {}
        invariant left <= ownCrc.Keys
        invariant forall f | f in ownCrc && f !in left && f in peerCrc :: ownCrc[f] == peerCrc[f]
        decreases left
      {
        var f :| f in left;
        if f in peerCrc && peerCrc[f] != ownCrc[f] { return true; }
        left := left - {f};
      }
      return false;
    }

    method Prune()
      modifies this`localPending, this`remotePending, this`ownCrc, this`peerCrc
      ensures View() == M.Prune(old(View()))
    {
      hide PruneBelow;
      var lo := if frame >= 3 then frame - 3 else 0;
      var newRemote := RollbackPredict.RbPruneBelow(remotePending, lo);
      var newLocal := RollbackPredict.RbPruneBelow(localPending, lo);
      var clo := if frame >= 2 * M.CHECKSUM_EVERY then frame - 2 * M.CHECKSUM_EVERY else 0;
      var newOwn := RollbackPredict.RbPruneBelow(ownCrc, clo);
      var newPeer := RollbackPredict.RbPruneBelow(peerCrc, clo);
      remotePending, localPending, ownCrc, peerCrc := newRemote, newLocal, newOwn, newPeer;
    }

    /** Feed the pair of inputs of this frame and run it. */
    method Present()
      requires Valid()
      modifies rt
      ensures Valid() && View() == M.Present(rt.core, old(View()))
    {
      var lin := if frame in localPending then localPending[frame] else Neutral();
      var rin := if frame in remotePending then remotePending[frame] else Neutral();
      rt.SetInput(localPort, lin);
      rt.SetInput(remotePort, rin);
      rt.Present();
    }

    /** On every 60th frame: take the checksum of the state just reached and send it. */
    method Report() returns (ok: bool)
      requires Valid()
      modifies this`ownCrc, t.outCh`q, crcs, crcs.table
      ensures Valid()
      ensures var crc := M.ChecksumOf(rt.core, old(View()));
        && View() == M.RecordChecksum(old(View()), crc)
        && ok == (crc.Some? ==> t.outCh.open)
        && Messages(t.outCh.q) == Messages(old(t.outCh.q)) + if ok then M.ChecksumMessages(old(View()), crc) else []
    {
      hide Messages, Crc32.Value;
      ok := true;
      if frame % M.CHECKSUM_EVERY == 0 {
        var buf := rt.SaveState();
        if buf.Some? {
          var own := crcs.Crc32(buf.value);
          ownCrc := ownCrc[frame := own];
          var b := Wire.EncodeChecksum(Wire.Checksum(frame, own));
          ChecksumReads(b, frame, own);
          MessagesAppend(t.outCh.q, b);
          var r := t.Send(b);
          ok := r == Code.Ok;
        }
      }
    }

    method Complete()
      requires Valid() && frame < UINT64_MAX
      modifies this`status, this`frame, this`localPending, this`remotePending, this`ownCrc, this`peerCrc, rt, t.outCh`q,
          crcs, crcs.table
      ensures Valid()
      ensures var (q, sent) := M.Complete(rt.core, old(View()), t.outCh.open);
        View() == q && Messages(t.outCh.q) == Messages(old(t.outCh.q)) + sent
    {
      hide Messages, M.Clashes, M.Prune, M.Present, M.ChecksumOf;
      Present();
      var sent := Report();
      if !sent { status := M.Disconnected; return; }
      var clash := Compare();
      if clash { status := M.Desync; return; }
      Prune();
      frame := frame + 1;
      status := M.Ok;
    }

    /** Second half of a tick: the session, what it sends and what it leaves in the transport are
        those of the model, for every core, session state and transport behaviour. */
    method TickRecvAndAdvance() returns (r: M.Status)
      requires Valid() && frame < UINT64_MAX
      modifies this`status, this`frame, this`localPending, this`remotePending, this`ownCrc, this`peerCrc, rt,
               t.inCh`q, t.outCh`q, crcs, crcs.table
      ensures Valid() && r == status
      ensures var turn := M.RecvAndAdvance(rt.core, old(View()), old(Link()));
        && View() == turn.session
        && Messages(t.outCh.q) == Messages(old(t.outCh.q)) + turn.sent
        && Messages(t.inCh.q) == turn.left
    {
      hide Messages, M.Complete, M.DrainUntil;
      if status == M.Disconnected { return status; }
      if frame >= delay {
        var code := DrainUntil();
        DrainKeeps(old(View()), Messages(old(t.inCh.q)));
        if code == Timeout { status := M.Waiting; return status; }
        if code != Code.Ok { status := M.Disconnected; return status; }
      }
      Complete();
      return status;
    }

    method Tick(localNow: InputState) returns (r: M.Status)
      requires Valid() && localNow.WellFormed() && frame + delay <= UINT64_MAX && frame < UINT64_MAX
      modifies this`status, this`frame, this`localPending, this`remotePending, this`ownCrc, this`peerCrc, rt,
               t.inCh`q, t.outCh`q, crcs, crcs.table
      ensures Valid() && r == status
      ensures var given := M.SendInput(old(View()), localNow, t.outCh.open);
        var turn := M.RecvAndAdvance(rt.core, given.session, old(Link()));
        && View() == turn.session
        && Messages(t.outCh.q) == Messages(old(t.outCh.q)) + given.sent + turn.sent
        && Messages(t.inCh.q) == turn.left
    {
      hide Messages, M.RecvAndAdvance;
      TickSend(localNow);
      r := TickRecvAndAdvance();
    }
  }

  // ----- small steps of the proofs above -----

  lemma DrainOne<S>(p: M.Session<S>, m: Msg, rest: seq<Msg>)
    ensures p.frame !in p.remotePending ==> M.DrainUntil(p, [m] + rest) == M.DrainUntil(M.Take(p, m), rest)
  {
    hide M.Take;
    assert ([m] + rest)[1..] == rest;
  }

  lemma {:induction false} DrainKeeps<S>(p: M.Session<S>, ready: seq<Msg>)
    ensures M.DrainUntil(p, ready).0.frame == p.frame && M.DrainUntil(p, ready).0.delay == p.delay
    decreases |ready|
  {
    if p.frame !in p.remotePending && ready != [] { DrainKeeps(M.Take(p, ready[0]), ready[1..]); }
  }
}
