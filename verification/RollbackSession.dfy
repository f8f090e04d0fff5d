/** `RollbackSession` over a runtime and a transport (src/net/RollbackSession.cpp, .h). */
module RollbackSession {
  import opened Abi
  import M = RollbackModel
  import RollbackPredict
  import opened Runtime
  import opened Transport
  import opened NetMessages
  import Wire = NetProtocol
  import Crc32
  import H = Handshake

  class RollbackSession<S> {
    const rt: Runtime<S>
    const t: Endpoint
    const crcs: Crc32.Table
    var localPort: Side
    var remotePort: Side
    var maxPrediction: uint32
    var frame: uint64
    var confirmed: uint64
    var haveConfirmed: bool
    var verified: uint64
    var rollbackCount: nat
    var status: M.Status
    var ring: map<nat, Blob>
    var local: map<nat, InputState>
    var remote: map<nat, InputState>
    var used: map<nat, InputState>
    var ownCrc: map<nat, uint32>
    var peerCrc: map<nat, uint32>

    ghost predicate Valid()
      reads this, rt, crcs, crcs.table
    {
      rt.Valid() && crcs.Valid() && t.inCh != t.outCh && remotePort == 1 - localPort
    }

    ghost function View(): M.Session<S>
      reads this, rt
    {
      M.Session(localPort, maxPrediction, frame, confirmed, haveConfirmed, verified, rollbackCount, status,
                rt.state, ring, local, remote, used, ownCrc, peerCrc)
    }

    /** What the transport is about to do. */
    ghost function Link(): M.Link
      reads t, t.inCh, t.outCh
    {
      M.Link(t.outCh.open, Messages(t.inCh.q), t.PollOk())
    }

    constructor (rt: Runtime<S>, t: Endpoint, crcs: Crc32.Table)
      requires rt.Valid() && crcs.Valid() && t.inCh != t.outCh
      ensures Valid() && this.rt == rt && this.t == t && this.crcs == crcs
      ensures View() == M.Session(0, 8, 0, 0, false, 0, 0, M.Ok, rt.state, map[], map[], map[], map[], map[], map[])
    {
      this.rt, this.t, this.crcs := rt, t, crcs;
      localPort, remotePort, maxPrediction := 0, 1, 8;
      frame, confirmed, haveConfirmed, verified, rollbackCount, status := 0, 0, false, 0, 0, M.Ok;
      ring, local, remote, used, ownCrc, peerCrc := map[], map[], map[], map[], map[], map[];
    }

    /** A session about to start; the input maps are left as they are. */
    method Reset(port: Side)
      requires Valid()
      modifies this`localPort, this`remotePort, this`frame, this`confirmed, this`haveConfirmed, this`verified,
          this`rollbackCount, this`status
      ensures Valid() && localPort == port && frame == 0 && confirmed == 0 && !haveConfirmed && verified == 0
             && rollbackCount == 0 && status == M.Ok
    {
      localPort, remotePort := port, 1 - port;
      frame, confirmed, haveConfirmed, verified, rollbackCount, status := 0, 0, false, 0, 0, M.Ok;
    }

    /** The hello exchange. */
    method Handshake(isHost: bool, value: uint32, contentHash: uint64, id: Option<Blob>) returns (r: Code)
      requires Valid()
      modifies this`maxPrediction, t.inCh`q, t.outCh`q
      ensures Valid()
      ensures !t.outCh.open ==> r == Device && t.outCh.q == old(t.outCh.q) && t.inCh.q == old(t.inCh.q)
      ensures t.outCh.open ==> t.outCh.q == old(t.outCh.q) + [Wire.HelloBytes(H.HelloOf(value, contentHash, id))]
      ensures t.outCh.open && old(t.inCh.q) == [] ==> r == Device && t.inCh.q == []
      ensures t.outCh.open && old(t.inCh.q) != [] ==>
                && r == H.Meet(H.Rollback, isHost, H.HelloOf(value, contentHash, id), old(t.inCh.q)[0]).code
                && t.inCh.q == old(t.inCh.q)[1..]
      ensures maxPrediction == if r == Code.Ok
                         then H.Meet(H.Rollback, isHost, H.HelloOf(value, contentHash, id), old(t.inCh.q)[0]).agreed
                         else old(maxPrediction)
    {
      hide Wire.DecodedHello, Wire.HelloBytes, H.PaddedId, H.SameId;
      var mine := H.HelloOf(value, contentHash, id);
      var bytes := Wire.EncodeHello(mine);
      r := t.Send(bytes);
      if r != Code.Ok { return Device; }
      var code, msg := t.Recv(true);
      if code != Code.Ok { return Device; }
      var peer := Wire.DecodeHello(msg);
      if peer.None? { return Internal; }
      if peer.value.abiVersion != H.ABI_VERSION { return AbiMismatch; }
      if peer.value.contentHash != contentHash
          || !H.SameId(H.Rollback, peer.value.coreId, mine.coreId) { return BadArg; }
      maxPrediction := if isHost then value else peer.value.inputDelay;
      if maxPrediction == 0 { maxPrediction := H.DEFAULT_PREDICTION; }
      return Code.Ok;
    }

    /** The host side of the start: port 0, and its state is sent. The input maps are left as they are. */
    method StartHost(value: uint32, contentHash: uint64, id: Option<Blob>) returns (r: Code)
      requires Valid()
      modifies this`localPort, this`remotePort, this`frame, this`confirmed, this`haveConfirmed, this`verified,
          this`rollbackCount, this`status, this`maxPrediction, t.inCh`q, t.outCh`q
      ensures Valid()
      ensures var h := H.StartHost(H.Rollback, rt.core, rt.state, H.HelloOf(value, contentHash, id), old(t.inCh.q),
                                   t.outCh.open);
        && r == h.code
        && t.outCh.q == old(t.outCh.q) + h.sent
        && maxPrediction == (if h.met then h.agreed else old(maxPrediction))
      ensures H.Begun(View(), 0, maxPrediction, rt.state)
    {
      hide Wire.HelloBytes, Wire.StateSyncBytes, H.HelloOf, H.Meet, H.StartHost;
      H.HostExits(H.Rollback, rt.core, rt.state, H.HelloOf(value, contentHash, id), t.inCh.q, t.outCh.open);
      Reset(0);
      r := Handshake(true, value, contentHash, id);
      if r == Code.Ok { r := SendState(); }
    }

    /** The host's authoritative state. */
    method SendState() returns (r: Code)
      modifies t.outCh`q
      ensures match rt.core.save(rt.state)
        case None => r == Internal && t.outCh.q == old(t.outCh.q)
        case Some(b) =>
          && r == (if t.outCh.open then Code.Ok else Device)
          && t.outCh.q == old(t.outCh.q) + if r == Code.Ok then [Wire.StateSyncBytes(Wire.StateSync(0, b))] else []
    {
      hide Wire.StateSyncBytes;
      var blob := rt.SaveState();
      if blob.None? { return Internal; }
      var bytes := Wire.EncodeStateSync(Wire.StateSync(0, blob.value));
      r := t.Send(bytes);
    }

    /** The join side of the start: port 1, the host's value and the host's state. */
    method StartJoin(contentHash: uint64, id: Option<Blob>) returns (r: Code)
      requires Valid()
      modifies this`localPort, this`remotePort, this`frame, this`confirmed, this`haveConfirmed, this`verified,
          this`rollbackCount, this`status, this`maxPrediction, rt`state, t.inCh`q, t.outCh`q
      ensures Valid()
      ensures var j := H.StartJoin(H.Rollback, rt.core, old(rt.state), H.HelloOf(0, contentHash, id), old(t.inCh.q),
                                   t.outCh.open);
        && r == j.code
        && t.outCh.q == old(t.outCh.q) + j.sent
        && rt.state == j.state
        && maxPrediction == (if j.met then j.agreed else old(maxPrediction))
      ensures H.Begun(View(), 1, maxPrediction, rt.state)
    {
      hide Wire.HelloBytes, Wire.DecodedStateSync, H.HelloOf, H.Meet, H.StartJoin;
      H.JoinExits(H.Rollback, rt.core, rt.state, H.HelloOf(0, contentHash, id), t.inCh.q, t.outCh.open);
      Reset(1);
      r := Handshake(false, 0, contentHash, id);
      if r == Code.Ok { r := TakeState(); }
    }

    /** The join side loads what the host sends. */
    method TakeState() returns (r: Code)
      modifies t.inCh`q, rt`state
      ensures old(t.inCh.q) == [] ==> r == Device && rt.state == old(rt.state)
      ensures old(t.inCh.q) != [] ==>
                forall agreed: uint32, hello: Blob ::
                  H.Synced(rt.core, old(rt.state), agreed, hello, old(t.inCh.q)[0])
                      == H.Started(r, true, agreed, rt.state, [hello])
    {
      hide Wire.DecodedStateSync;
      var code, msg := t.Recv(true);
      if code != Code.Ok { return Device; }
      var s := Wire.DecodeStateSync(msg);
      if s.None? { return Internal; }
      if s.value.blob != [] {
        var loaded := rt.LoadState(s.value.blob);
        if !loaded { return Unsupported; }
      }
      return Code.Ok;
    }

    method SaveRing(f: nat)
      modifies this`ring
      ensures View() == M.SaveRing(rt.core, old(View()), f)
    {
      var buf := rt.SaveState();
      if buf.Some? { ring := ring[f := buf.value]; }
    }

    /** Feed both ports and run one frame. */
    method Run(lin: InputState, rin: InputState)
      requires Valid()
      modifies rt
      ensures Valid() && rt.state == StepAt(rt.core, localPort, old(rt.state), lin, rin)
    {
      rt.SetInput(localPort, lin);
      rt.SetInput(remotePort, rin);
      rt.Advance();
    }

    /** Step 2: take everything that is ready. */
    method Drain() returns (ok: bool)
      requires Valid()
      modifies this`remote, this`confirmed, this`haveConfirmed, this`peerCrc, t.inCh`q
      ensures Valid() && t.inCh.q == [] && ok == t.PollOk()
      ensures View() == M.Drain(old(View()), Messages(old(t.inCh.q)))
    {
      hide Messages, Message;
      ghost var pending := t.inCh.q;
      while true
        invariant Valid() && t.inCh.open == old(t.inCh.open)
        invariant M.Drain(View(), Messages(t.inCh.q)) == M.Drain(old(View()), Messages(old(t.inCh.q)))
        decreases |t.inCh.q|
      {
        ghost var before, q := View(), t.inCh.q;
        var r, msg := t.Recv(false);
        if r == NotFound { NothingPending(); return true; }
        if r != Code.Ok { NothingPending(); return false; }
        MessagesPop(q, msg, t.inCh.q);
        DrainOne(before, Message(msg), Messages(t.inCh.q));
        Take(msg);
      }
    }

    method Take(msg: Blob)
      requires Valid()
      modifies this`remote, this`confirmed, this`haveConfirmed, this`peerCrc
      ensures Valid() && View() == M.Deliver(old(View()), Message(msg))
    {
      hide Wire.DecodedInput, Wire.DecodedChecksum;
      if msg == [] { return; }
      if msg[0] == Wire.INPUT {
        var m := Wire.DecodeInput(msg);
        if m.Some? {
          remote := remote[m.value.frame := m.value.state];
          if !haveConfirmed || m.value.frame > confirmed {
            confirmed, haveConfirmed := m.value.frame, true;
          }
        }
      } else if msg[0] == Wire.CHECKSUM {
        var c := Wire.DecodeChecksum(msg);
        if c.Some? { peerCrc := peerCrc[c.value.frame := c.value.crc]; }
      }
    }

    /** The real remote input of frame `f` if it is known, else the prediction. */
    function RemoteFor(f: nat): (r: InputState)
      reads this
      ensures r == if f in remote then remote[f] else M.Predict(remote, confirmed)
    {
      if f in remote then remote[f] else M.Predict(remote, confirmed)
    }

    /** Step 3: roll back to the earliest wrong frame and replay up to the current one. */
    method Reconcile() returns (ok: bool)
      requires Valid()
      modifies this`ring, this`local, this`used, this`rollbackCount, this`verified, this`status, rt
      ensures Valid() && (View(), ok) == M.Reconcile(rt.core, old(View()))
    {
      hide M.RollBack, M.FirstMispredicted;
      if !haveConfirmed || frame == 0 { return true; }
      var hi := if confirmed < frame - 1 then confirmed else frame - 1;
      if verified > hi { return true; }
      var g := RollbackPredict.RbFirstMispredicted(remote, used, verified, hi);
      if g != UINT64_MAX {
        var loaded := RollBack(g);
        if !loaded { return false; }
      }
      verified := hi + 1;
      return true;
    }

    method RollBack(g: uint64) returns (ok: bool)
      requires Valid() && g <= frame
      modifies this`ring, this`local, this`used, this`rollbackCount, this`status, rt
      ensures Valid() && (View(), ok) == M.RollBack(rt.core, old(View()), g)
    {
      hide M.Resimulate;
      var snap := if g in ring then ring[g] else [];
      ring := ring[g := snap];
      ok := rt.LoadState(snap);
      if !ok { status := M.Desync; return; }
      Replay(g);
      rollbackCount := rollbackCount + 1;
    }

    method Replay(g: uint64)
      requires Valid() && g <= frame
      modifies this`ring, this`local, this`used, rt
      ensures Valid() && View() == M.Resimulate(rt.core, old(View()), g, frame)
    {
      hide M.ResimulateOne;
      var f := g;
      while f < frame
        invariant g <= f <= frame && Valid()
        invariant M.Resimulate(rt.core, View(), f, frame) == M.Resimulate(rt.core, old(View()), g, frame)
      {
        ReplayOne(f);
        f := f + 1;
      }
    }

    method ReplayOne(f: nat)
      requires Valid()
      modifies this`ring, this`local, this`used, rt
      ensures Valid() && View() == M.ResimulateOne(rt.core, old(View()), f)
    {
      hide M.SaveRing, StepAt, M.Predict;
      FeedOne(f);
      SaveRing(f + 1);
    }

    /** Feeds frame `f` of a replay and runs it. */
    method FeedOne(f: nat)
      requires Valid()
      modifies this`local, this`used, rt
      ensures Valid()
      ensures var rin, lin := M.RemoteInput(old(View()), f), Lookup(old(local), f, Neutral());
        && used == old(used)[f := rin] && local == old(local)[f := lin]
        && rt.state == StepAt(rt.core, localPort, old(rt.state), lin, rin)
    {
      hide StepAt;
      var rin := RemoteFor(f);
      used := used[f := rin];
      local := local[f := if f in local then local[f] else Neutral()];
      Run(local[f], rin);
    }

    /** Step 5. */
    method Simulate(localNow: InputState)
      requires Valid() && frame < UINT64_MAX
      modifies this`ring, this`used, this`frame, rt
      ensures Valid() && View() == M.Simulate(rt.core, old(View()), localNow)
    {
      SaveRing(frame);
      var rin := RemoteFor(frame);
      used := used[frame := rin];
      Run(localNow, rin);
      frame := frame + 1;
    }

    method MaybeSendChecksum()
      requires Valid()
      modifies this`ownCrc, t.outCh`q, crcs, crcs.table
      ensures Valid() && View() == M.RecordChecksum(old(View()))
      ensures Messages(t.outCh.q) == Messages(old(t.outCh.q)) + M.ChecksumMessages(old(View()), t.outCh.open)
    {
      hide Messages, Crc32.Value;
      if verified == 0 || verified % M.CHECKSUM_EVERY != 0 { return; }
      if verified !in ring { return; }
      var crc := crcs.Crc32(ring[verified]);
      ownCrc := ownCrc[verified := crc];
      var b := Wire.EncodeChecksum(Wire.Checksum(verified, crc));
      ChecksumReads(b, verified, crc);
      MessagesAppend(t.outCh.q, b);
      var _ := t.Send(b);
    }

    /** Compares every frame for which both checksums are known. */
    method CheckDesync()
      modifies this`status
      ensures status == if M.ChecksumsClash(View()) then M.Desync else old(status)
    {
      var left := ownCrc.Keys;
      while left != {}
        invariant left <= ownCrc.Keys && status == old(status)
        invariant forall f | f in ownCrc && f !in left && f in peerCrc :: ownCrc[f] == peerCrc[f]
        decreases left
      {
        var f :| f in left;
        if f in peerCrc && peerCrc[f] != ownCrc[f] { status := M.Desync; return; }
        left := left - {f};
      }
    }

    method Prune()
      modifies this`ring, this`local, this`remote, this`used
      ensures View() == M.Prune(old(View()))
    {
      hide PruneBelow;
      var slack: uint32 := (maxPrediction + 2) % 0x1_0000_0000;
      var floor := if verified > slack then verified - slack else 0;
      var newRing := RollbackPredict.RbPruneBelow(ring, floor);
      var newLocal := RollbackPredict.RbPruneBelow(local, floor);
      var newRemote := RollbackPredict.RbPruneBelow(remote, floor);
      var newUsed := RollbackPredict.RbPruneBelow(used, floor);
      ring, local, remote, used := newRing, newLocal, newRemote, newUsed;
    }

    method Finish(s: M.Status)
      requires Valid()
      modifies this`ownCrc, this`status, this`ring, this`local, this`remote, this`used, t.outCh`q, crcs, crcs.table
      ensures Valid() && View() == M.Finish(old(View()), s)
      ensures Messages(t.outCh.q) == Messages(old(t.outCh.q)) + M.ChecksumMessages(old(View()), t.outCh.open)
    {
      hide Messages, M.RecordChecksum, PruneBelow, M.ChecksumMessages;
      MaybeSendChecksum();
      CheckDesync();
      Prune();
      status := s;
    }

    /** Records the local input and sends it. */
    method SendInput(localNow: InputState) returns (ok: bool)
      requires Valid() && localNow.WellFormed()
      modifies this`local, t.outCh`q
      ensures Valid() && ok == t.outCh.open
      ensures View() == old(View()).(local := old(local)[frame := localNow])
      ensures Messages(t.outCh.q) == Messages(old(t.outCh.q)) + if ok then [Input(frame, localNow)] else []
    {
      hide Messages;
      local := local[frame := localNow];
      var b := Wire.EncodeInput(Wire.Input(frame, localPort, localNow));
      InputReads(b, frame, localPort, localNow);
      MessagesAppend(t.outCh.q, b);
      var r := t.Send(b);
      ok := r == Code.Ok;
    }

    /** Steps 1 and 2: send the local input, then take what has arrived. */
    method Exchange(localNow: InputState) returns (sent: bool, polled: bool)
      requires Valid() && localNow.WellFormed()
      modifies this`local, this`remote, this`confirmed, this`haveConfirmed, this`peerCrc, t.inCh`q, t.outCh`q
      ensures Valid() && sent == t.outCh.open
      ensures !sent ==> View() == old(View()).(local := old(local)[frame := localNow])
      ensures sent ==> polled == t.PollOk() && View() == M.Received(old(View()), localNow, old(Link()))
      ensures Messages(t.outCh.q) == Messages(old(t.outCh.q)) + if sent then [Input(frame, localNow)] else []
    {
      hide Messages, M.Received, M.Drain;
      ghost var p, link := View(), Link();
      sent := SendInput(localNow);
      polled := false;
      if sent {
        polled := Drain();
        ReceivedIs(p, localNow, link);
      }
    }

    /** One tick: the session, what it sends and what it reports are those of the model, for every
        core, every session state and everything the transport can do. */
    method Tick(localNow: InputState) returns (r: M.Status)
      requires Valid() && frame < UINT64_MAX && localNow.WellFormed()
      modifies this, rt, t.inCh`q, t.outCh`q, crcs, crcs.table
      ensures Valid()
      ensures View() == M.Tick(rt.core, old(View()), localNow, old(Link()))
      ensures Messages(t.outCh.q) == Messages(old(t.outCh.q)) + M.Sent(rt.core, old(View()), localNow, old(Link()))
      ensures r == status
    {
      hide Messages, M.Tick, M.Sent, M.Received, M.Reconcile, M.Stalls, M.Simulate, M.Finish, M.ChecksumMessages;
      ghost var p, link := View(), Link();
      TickExits(rt.core, p, localNow, link);
      if status == M.Disconnected { return status; }
      var sent, polled := Exchange(localNow);
      if !sent { status := M.Disconnected; return status; }
      if !polled { status := M.Disconnected; return status; }
      var loaded := Reconcile();
      if !loaded { return status; }
      StallOrRun(localNow);
      return status;
    }

    /** Steps 4 to 6. */
    method StallOrRun(localNow: InputState)
      requires Valid() && frame < UINT64_MAX
      modifies this`ownCrc, this`status, this`ring, this`local, this`remote, this`used, this`frame, rt, t.outCh`q, crcs,
          crcs.table
      ensures Valid()
      ensures M.Stalls(old(View())) ==>
                && View() == M.Finish(old(View()), M.Stalled)
                && Messages(t.outCh.q) == Messages(old(t.outCh.q)) + M.ChecksumMessages(old(View()), t.outCh.open)
      ensures !M.Stalls(old(View())) ==>
                && View() == M.Finish(M.Simulate(rt.core, old(View()), localNow), M.Ok)
                && Messages(t.outCh.q) == Messages(old(t.outCh.q))
                     + M.ChecksumMessages(M.Simulate(rt.core, old(View()), localNow), t.outCh.open)
    {
      hide Messages, M.Simulate, M.Finish, M.ChecksumMessages;
      var ahead := if frame > 0 && haveConfirmed && frame - 1 > confirmed then frame - 1 - confirmed else 0;
      if ahead >= maxPrediction {
        Finish(M.Stalled);
      } else {
        Simulate(localNow);
        Finish(M.Ok);
      }
    }
  }

  // ----- small steps of the proofs above -----

  lemma ReceivedIs<S>(p: M.Session<S>, localNow: InputState, link: M.Link)
    ensures M.Received(p, localNow, link) == M.Drain(p.(local := p.local[p.frame := localNow]), link.ready)
  {
  }

  /** The ways out of a tick, one line each. */
  lemma TickExits<S>(c: Core<S>, p: M.Session<S>, now: InputState, link: M.Link)
    ensures p.status == M.Disconnected ==> M.Tick(c, p, now, link) == p && M.Sent(c, p, now, link) == []
    ensures p.status != M.Disconnected && !link.sendOk ==>
              && M.Tick(c, p, now, link) == p.(local := p.local[p.frame := now], status := M.Disconnected)
              && M.Sent(c, p, now, link) == []
    ensures p.status != M.Disconnected && link.sendOk && !link.recvOk ==>
              && M.Tick(c, p, now, link) == M.Received(p, now, link).(status := M.Disconnected)
              && M.Sent(c, p, now, link) == [Input(p.frame, now)]
    ensures p.status != M.Disconnected && link.sendOk && link.recvOk ==>
              var (r, loaded) := M.Reconcile(c, M.Received(p, now, link));
              && (!loaded ==> M.Tick(c, p, now, link) == r && M.Sent(c, p, now, link) == [Input(p.frame, now)])
              && (loaded && M.Stalls(r) ==>
                    && M.Tick(c, p, now, link) == M.Finish(r, M.Stalled)
                    && M.Sent(c, p, now, link) == [Input(p.frame, now)] + M.ChecksumMessages(r, true))
              && (loaded && !M.Stalls(r) ==>
                    && M.Tick(c, p, now, link) == M.Finish(M.Simulate(c, r, now), M.Ok)
                    && M.Sent(c, p, now, link)
                        == [Input(p.frame, now)] + M.ChecksumMessages(M.Simulate(c, r, now), true))
  {
    hide M.Received, M.Reconcile, M.Stalls, M.Simulate, M.Finish, M.ChecksumMessages;
  }

  lemma DrainOne<S>(p: M.Session<S>, m: Msg, rest: seq<Msg>)
    ensures M.Drain(p, [m] + rest) == M.Drain(M.Deliver(p, m), rest)
  {
    assert ([m] + rest)[1..] == rest;
  }
}
