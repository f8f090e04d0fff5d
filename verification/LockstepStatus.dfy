/** What the two half-ticks of a lockstep session report and take, read off the session, the core and the
    transport alone (src/net/NetSession.cpp:59-123). */
module LockstepStatus {
  import opened Abi
  import opened NetMessages
  import opened LockstepModel
  import Crc32

  // ----- what is taken -----

  /** The first message among `ready` that brings the input of frame `f`. */
  function FirstInput(ready: seq<Msg>, f: nat): (k: Option<nat>)
    ensures k.Some? ==> k.value < |ready| && ready[k.value].Input? && ready[k.value].frame == f
    ensures forall j | 0 <= j < |ready| && (k.Some? ==> j < k.value) :: !(ready[j].Input? && ready[j].frame == f)
    decreases |ready|
  {
    if ready == [] then None
    else if ready[0].Input? && ready[0].frame == f then Some(0)
    else match FirstInput(ready[1..], f)
      case None => None
      case Some(k) => Some(k + 1)
  }

  /** A remote input is owed for this frame and is not held. */
  predicate Owed<S>(p: Session<S>) {
    p.frame >= p.delay && p.frame !in p.remotePending
  }

  /** It is owed, not held and not among the messages that arrive. */
  predicate Missing<S>(p: Session<S>, ready: seq<Msg>) {
    Owed(p) && FirstInput(ready, p.frame).None?
  }

  /** How many messages a receive takes: none when nothing is owed, else up to the input that is owed. */
  function TakenCount<S>(p: Session<S>, ready: seq<Msg>): (n: nat)
    ensures n <= |ready|
  {
    if !Owed(p) then 0
    else match FirstInput(ready, p.frame)
      case None => |ready|
      case Some(k) => k + 1
  }

  function TakeAll<S>(p: Session<S>, ms: seq<Msg>): Session<S>
    decreases |ms|
  {
    if ms == [] then p else TakeAll(Take(p, ms[0]), ms[1..])
  }

  lemma CountStep<S>(p: Session<S>, ready: seq<Msg>)
    requires Owed(p) && ready != []
    ensures TakenCount(p, ready) == 1 + TakenCount(Take(p, ready[0]), ready[1..])
  {
  }

  lemma Cut(ready: seq<Msg>, n: nat)
    requires 0 < n <= |ready|
    ensures ready[..n] != [] && ready[..n][0] == ready[0] && ready[..n][1..] == ready[1..][..n - 1]
    ensures ready[n..] == ready[1..][n - 1..]
  {
  }

  lemma {:induction false} DrainTakes<S>(p: Session<S>, ready: seq<Msg>)
    requires p.frame >= p.delay
    ensures DrainUntil(p, ready) == (TakeAll(p, ready[..TakenCount(p, ready)]), ready[TakenCount(p, ready)..])
    decreases |ready|
  {
    hide FirstInput;
    if Owed(p) && ready != [] {
      hide TakenCount;
      CountStep(p, ready);
      DrainTakes(Take(p, ready[0]), ready[1..]);
      Cut(ready, TakenCount(p, ready));
    } else {
      assert ready[..0] == [];
    }
  }

  lemma AwaitTakes<S>(p: Session<S>, ready: seq<Msg>)
    ensures Await(p, ready) == (TakeAll(p, ready[..TakenCount(p, ready)]), ready[TakenCount(p, ready)..])
  {
    hide DrainUntil, TakeAll;
    if p.frame >= p.delay { DrainTakes(p, ready); } else { NoneTaken(p, ready); }
  }

  lemma NoneTaken<S>(p: Session<S>, ready: seq<Msg>)
    ensures TakeAll(p, ready[..0]) == p && ready[0..] == ready
  {
  }

  /** Taking messages changes only what messages carry, and an input is held afterwards when it was, or came. */
  lemma {:induction false} TakeAllHolds<S>(p: Session<S>, ms: seq<Msg>, f: nat)
    ensures var q := TakeAll(p, ms);
      && q == p.(remotePending := q.remotePending, peerCrc := q.peerCrc)
      && (f in q.remotePending <==> f in p.remotePending || FirstInput(ms, f).Some?)
    decreases |ms|
  {
    if ms != [] { TakeAllHolds(Take(p, ms[0]), ms[1..], f); }
  }

  lemma {:induction false} FirstInputPrefix(ready: seq<Msg>, f: nat, n: nat)
    requires n <= |ready|
    ensures var k := FirstInput(ready, f);
      FirstInput(ready[..n], f) == if k.Some? && k.value < n then k else None
    decreases |ready|
  {
    if ready != [] && n > 0 {
      assert ready[..n][1..] == ready[1..][..n - 1];
      FirstInputPrefix(ready[1..], f, n - 1);
    }
  }

  /** The input fed for the remote player: the one held, else the first that comes, neutral when none is owed. */
  function FedRemote<S>(p: Session<S>, ready: seq<Msg>): InputState {
    if p.frame in p.remotePending then p.remotePending[p.frame]
    else match FirstInput(ready, p.frame)
      case Some(k) => if p.frame >= p.delay then ready[k].state else Pad(seq(256, _ => 0), seq(8, _ => 0), 0)
      case None => Pad(seq(256, _ => 0), seq(8, _ => 0), 0)
  }

  lemma {:induction false} FedIsTaken<S>(p: Session<S>, ready: seq<Msg>)
    requires Owed(p) && FirstInput(ready, p.frame).Some?
    ensures var q := TakeAll(p, ready[..TakenCount(p, ready)]);
      p.frame in q.remotePending && q.remotePending[p.frame] == FedRemote(p, ready)
    decreases |ready|
  {
    var q, rest := Take(p, ready[0]), ready[1..];
    Cut(ready, TakenCount(p, ready));
    if FirstInput(ready, p.frame) == Some(0) {
      assert rest[..0] == [];
    } else {
      FedIsTaken(q, rest);
    }
  }

  // ----- what is reported -----

  /** The state after this frame. */
  function NextState<S>(c: Core<S>, p: Session<S>, ready: seq<Msg>): S {
    var own := if p.frame in p.localPending then p.localPending[p.frame] else Pad(seq(256, _ => 0), seq(8, _ => 0), 0);
    StepAt(c, p.port, p.state, own, FedRemote(p, ready))
  }

  /** A checksum is taken of it. */
  predicate Reports<S>(c: Core<S>, p: Session<S>, ready: seq<Msg>) {
    p.frame % 60 == 0 && c.save(NextState(c, p, ready)).Some?
  }

  lemma AwaitPlace<S>(c: Core<S>, p: Session<S>, ready: seq<Msg>)
    ensures var q := Await(p, ready).0;
      && q == p.(remotePending := q.remotePending, peerCrc := q.peerCrc)
      && (Starved(q) <==> Missing(p, ready))
      && (!Starved(q) ==> Present(c, q) == q.(state := NextState(c, p, ready)))
  {
    hide Await, TakeAll, FirstInput;
    var n := TakenCount(p, ready);
    AwaitTakes(p, ready);
    TakeAllHolds(p, ready[..n], p.frame);
    FirstInputPrefix(ready, p.frame, n);
    if Owed(p) && FirstInput(ready, p.frame).Some? { FedIsTaken(p, ready); }
    if !Owed(p) { NoneTaken(p, ready); }
  }

  /** The own checksums once this frame has run. */
  function OwnAfter<S>(c: Core<S>, p: Session<S>, ready: seq<Msg>): map<nat, uint32> {
    if Reports(c, p, ready) then p.ownCrc[p.frame := Crc32.Value(c.save(NextState(c, p, ready)).value)] else p.ownCrc
  }

  /** The checksums received once everything taken has been. */
  function PeerAfter<S>(p: Session<S>, ready: seq<Msg>): map<nat, uint32> {
    TakeAll(p, ready[..TakenCount(p, ready)]).peerCrc
  }

  lemma CompleteIs<S>(c: Core<S>, q: Session<S>, next: S, sendOk: bool)
    requires Present(c, q) == q.(state := next)
    ensures var reports := q.frame % 60 == 0 && c.save(next).Some?;
      var crc := if reports then Some(Crc32.Value(c.save(next).value)) else None;
      var r := RecordChecksum(q.(state := next), crc);
      Complete(c, q, sendOk) == if reports && !sendOk then (r.(status := Disconnected), [])
                                else (Settle(r), ChecksumMessages(q, crc))
  {
    hide Present, Settle;
  }

  lemma HeldBack<S>(c: Core<S>, p: Session<S>, link: Link)
    requires p.status != Disconnected && Missing(p, link.ready)
    ensures var n := TakenCount(p, link.ready);
      RecvAndAdvance(c, p, link)
      == Turn(TakeAll(p, link.ready[..n]).(status := if link.open then Waiting else Disconnected), [], link.ready[n..])
  {
    hide Await, TakeAll, FirstInput, Missing, TakenCount, NextState, Complete, Present;
    AwaitPlace(c, p, link.ready);
    AwaitTakes(p, link.ready);
  }

  lemma Runs<S>(c: Core<S>, p: Session<S>, link: Link)
    requires p.status != Disconnected && !Missing(p, link.ready)
    ensures var n := TakenCount(p, link.ready);
      var q := TakeAll(p, link.ready[..n]);
      var r := q.(state := NextState(c, p, link.ready), ownCrc := OwnAfter(c, p, link.ready));
      var sent := if Reports(c, p, link.ready) then [Checksum(p.frame, r.ownCrc[p.frame])] else [];
      RecvAndAdvance(c, p, link)
      == if Reports(c, p, link.ready) && !link.sendOk then Turn(r.(status := Disconnected), [], link.ready[n..])
         else Turn(Settle(r), sent, link.ready[n..])
  {
    hide Await, TakeAll, FirstInput, Missing, TakenCount, NextState, Complete, Present, Settle;
    AwaitPlace(c, p, link.ready);
    AwaitTakes(p, link.ready);
    CompleteIs(c, Await(p, link.ready).0, NextState(c, p, link.ready), link.sendOk);
  }

  /** What the second half-tick reports and does, for every session and link: it waits exactly while the input
      it needs is missing on an open link, is disconnected exactly when that input is missing on a closed one or
      the checksum due does not go out, and otherwise runs the frame, moving on unless two checksums differ. */
  lemma StatusOfRecv<S>(c: Core<S>, p: Session<S>, link: Link)
    requires p.status != Disconnected
    ensures var turn := RecvAndAdvance(c, p, link);
      var missing, reports := Missing(p, link.ready), Reports(c, p, link.ready);
      var clash := Clashes(OwnAfter(c, p, link.ready), PeerAfter(p, link.ready));
      var cut := !missing && reports && !link.sendOk;
      && (turn.session.status == Waiting <==> missing && link.open)
      && (turn.session.status == Disconnected <==> (missing && !link.open) || cut)
      && (turn.session.status == Desync <==> !missing && !cut && clash)
      && turn.left == link.ready[TakenCount(p, link.ready)..]
      && turn.session.state == (if missing then p.state else NextState(c, p, link.ready))
      && turn.session.frame == p.frame + (if turn.session.status == Status.Ok then 1 else 0)
      && turn.sent == (if !missing && reports && link.sendOk
                       then [Checksum(p.frame, Crc32.Value(c.save(NextState(c, p, link.ready)).value))] else [])
  {
    hide Await, TakeAll, FirstInput, Missing, TakenCount, NextState, Complete, Present, Clashes, RecvAndAdvance;
    AwaitPlace(c, p, link.ready);
    AwaitTakes(p, link.ready);
    if Missing(p, link.ready) { HeldBack(c, p, link); } else { Runs(c, p, link); }
  }

  lemma SettleKeeps<S>(r: Session<S>, f: nat)
    ensures var q := Settle(r);
      var inputsKept, checksumsKept := q.status == Desync || f + 3 >= r.frame, q.status == Desync || f + 120 >= r.frame;
      && (q.status == Desync || q.status == Status.Ok)
      && At(q.localPending, f) == (if inputsKept then At(r.localPending, f) else None)
      && At(q.remotePending, f) == (if inputsKept then At(r.remotePending, f) else None)
      && At(q.ownCrc, f) == (if checksumsKept then At(r.ownCrc, f) else None)
      && At(q.peerCrc, f) == (if checksumsKept then At(r.peerCrc, f) else None)
  {
    hide Clashes;
  }

  /** What it keeps: a half-tick that completes the frame drops the inputs more than three frames back and the
      checksums more than 120 back, any other half-tick drops nothing. */
  lemma KeptByRecv<S>(c: Core<S>, p: Session<S>, link: Link, f: nat)
    requires p.status != Disconnected
    ensures var q := RecvAndAdvance(c, p, link).session;
      var got := TakeAll(p, link.ready[..TakenCount(p, link.ready)]);
      var own := if Missing(p, link.ready) then p.ownCrc else OwnAfter(c, p, link.ready);
      var inputsKept := q.status != Status.Ok || f + 3 >= p.frame;
      var checksumsKept := q.status != Status.Ok || f + 120 >= p.frame;
      && At(q.localPending, f) == (if inputsKept then At(p.localPending, f) else None)
      && At(q.remotePending, f) == (if inputsKept then At(got.remotePending, f) else None)
      && At(q.ownCrc, f) == (if checksumsKept then At(own, f) else None)
      && At(q.peerCrc, f) == (if checksumsKept then At(got.peerCrc, f) else None)
  {
    hide Await, TakeAll, FirstInput, Missing, TakenCount, NextState, Complete, Present, Clashes, RecvAndAdvance, Settle;
    hide Reports, OwnAfter;
    var got := TakeAll(p, link.ready[..TakenCount(p, link.ready)]);
    AwaitPlace(c, p, link.ready);
    AwaitTakes(p, link.ready);
    if Missing(p, link.ready) {
      HeldBack(c, p, link);
    } else {
      Runs(c, p, link);
      SettleKeeps(got.(state := NextState(c, p, link.ready), ownCrc := OwnAfter(c, p, link.ready)), f);
    }
  }

  function At<T>(m: map<nat, T>, f: nat): Option<T> {
    if f in m then Some(m[f]) else None
  }

  /** A session that is disconnected does nothing any more. */
  lemma DisconnectedStays<S>(c: Core<S>, p: Session<S>, link: Link, localNow: InputState, sendOk: bool)
    requires p.status == Disconnected
    ensures RecvAndAdvance(c, p, link) == Turn(p, [], link.ready)
    ensures SendInput(p, localNow, sendOk).session == p && SendInput(p, localNow, sendOk).sent == []
  {
  }

  /** The first half-tick disconnects exactly when it was or the input does not go out, and the input is kept
      for frame + delay whether it went out or not. */
  lemma StatusOfSend<S>(p: Session<S>, localNow: InputState, sendOk: bool)
    requires p.status != Disconnected
    ensures var turn, at := SendInput(p, localNow, sendOk), p.frame + p.delay;
      && turn.session.status == (if sendOk then p.status else Disconnected)
      && turn.sent == (if sendOk then [Input(at, localNow)] else [])
      && turn.session == p.(localPending := turn.session.localPending, status := turn.session.status)
      && (forall f: nat :: At(turn.session.localPending, f)
                           == if f == at then Some(localNow) else At(p.localPending, f))
  {
  }
}
