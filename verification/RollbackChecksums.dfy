/** Which checksums a rollback session takes, sends and holds (src/net/RollbackSession.cpp:66-74, 116-130). */
module RollbackChecksums {
  import opened Abi
  import opened NetMessages
  import opened RollbackModel
  import opened RollbackProofs
  import opened RollbackPeers
  import Crc32

  /** A frame whose state is checksummed when it is verified. */
  predicate Checked(f: nat) {
    f > 0 && f % 60 == 0
  }

  /** A tick that ends with a checked frame verified takes the checksum of its true state and sends it after the
      input, also when it takes it again; any other tick takes and sends none. */
  lemma TickChecksums<S(!new)>(w: World<S>, p: Session<S>, ready: seq<Msg>)
    requires Exact(w.core) && Coherent(w, p) && Stream(w, 1 - p.port, ConfirmedOf(p), ready) && p.status != Disconnected
    ensures var now := PlayerInput(w, p.port, p.frame);
      var q, sent := RollbackModel.Tick(w.core, p, now, Up(ready)), RollbackModel.Sent(w.core, p, now, Up(ready));
      if Checked(q.verified) then
        && q.ownCrc == p.ownCrc[q.verified := TruthCrc(w, q.verified)]
        && sent == [Input(p.frame, now), Checksum(q.verified, TruthCrc(w, q.verified))]
      else q.ownCrc == p.ownCrc && sent == [Input(p.frame, now)]
  {
    hide Coherent, Stream, RollbackModel.Tick, RollbackModel.Sent, Reconciled, Simulate, Stalls, Checked, TruthCrc;
    hide ChecksumDue, ChecksumMessages, PruneBelow, Finish;
    var now := PlayerInput(w, p.port, p.frame);
    TickCases(w, p, ready);
    ReconciledKeeps(w, p, ready);
    TickVerifies(w, p, ready);
    var r := Reconciled(w.core, p, now, ready);
    var s := if Stalls(r) then r else Simulate(w.core, r, now);
    FinishFrame(s, if Stalls(r) then Stalled else Status.Ok);
    DueWhenChecked(w, s);
  }

  lemma DueWhenChecked<S>(w: World<S>, p: Session<S>)
    requires Coherent(w, p) && p.verified < p.frame
    ensures ChecksumDue(p) <==> Checked(p.verified)
    ensures ChecksumMessages(p, true)
         == if Checked(p.verified) then [Checksum(p.verified, TruthCrc(w, p.verified))] else []
    ensures Checked(p.verified) ==> p.verified in p.ring && Crc32.Value(p.ring[p.verified]) == TruthCrc(w, p.verified)
  {
    hide LocalsOk, RemotesOk, UsedOk, FedReal, RingOk, CrcOk, Guess, TruthCrc;
    FloorBelowVerified(p);
    if ChecksumDue(p) { ChecksumIsTrue(w, p); }
  }

  /** What a tick holds of the peer's checksums: what it held before and what arrived. */
  lemma TickHolds<S>(c: Core<S>, p: Session<S>, now: InputState, ready: seq<Msg>)
    requires p.status != Disconnected
    ensures RollbackModel.Tick(c, p, now, Up(ready)).peerCrc == Arrived(p.peerCrc, ready)
  {
    hide Drain, Resimulate, FirstMispredicted, Simulate, Finish, Stalls;
    var d := Received(p, now, Up(ready));
    DrainHolds(p.(local := p.local[p.frame := now]), ready);
    ReconcileHolds(c, d);
    var r := Reconcile(c, d).0;
    FinishHolds(r, Stalled);
    SimulateHolds(c, r, now);
    FinishHolds(Simulate(c, r, now), Status.Ok);
  }

  function Arrived(held: map<nat, uint32>, ready: seq<Msg>): map<nat, uint32>
    decreases |ready|
  {
    if ready == [] then held
    else Arrived(if ready[0].Checksum? then held[ready[0].frame := ready[0].crc] else held, ready[1..])
  }

  lemma {:induction false} DrainHolds<S>(p: Session<S>, ready: seq<Msg>)
    ensures Drain(p, ready).peerCrc == Arrived(p.peerCrc, ready)
    decreases |ready|
  {
    if ready != [] { DrainHolds(Deliver(p, ready[0]), ready[1..]); }
  }

  lemma {:induction false} ResimulateHolds<S>(c: Core<S>, p: Session<S>, f: nat, end: nat)
    ensures Resimulate(c, p, f, end).peerCrc == p.peerCrc
    decreases end - f
  {
    if f < end { ResimulateHolds(c, ResimulateOne(c, p, f), f + 1, end); }
  }

  lemma ReconcileHolds<S>(c: Core<S>, p: Session<S>)
    ensures Reconcile(c, p).0.peerCrc == p.peerCrc
  {
    hide Resimulate, FirstMispredicted;
    if Reconciles(p) {
      match FirstMispredicted(p.remote, p.used, p.verified, Horizon(p)) {
        case None =>
        case Some(g) =>
          var q := p.(ring := p.ring[g := Lookup(p.ring, g, [])]);
          match Load(c, Lookup(p.ring, g, [])) {
            case None =>
            case Some(s) => ResimulateHolds(c, q.(state := s), g, p.frame);
          }
      }
    }
  }

  lemma FinishHolds<S>(p: Session<S>, status: Status)
    ensures Finish(p, status).peerCrc == p.peerCrc
  {
  }

  lemma SimulateHolds<S>(c: Core<S>, p: Session<S>, now: InputState)
    ensures Simulate(c, p, now).peerCrc == p.peerCrc
  {
  }

  // ----- the pair -----

  /** Some tick of the run ended with frame `f` as the verified mark of peer `i`. */
  ghost predicate Marked<S>(w: World<S>, s: Pair<S>, actions: seq<Action>, i: Side, f: nat)
    requires Shape(s)
  {
    exists k: nat | k <= |actions| :: Run(w, s, actions[..k]).peer[i].verified == f
  }

  /** What peer `i` has recorded is what it has sent. */
  ghost predicate Recorded<S>(w: World<S>, own: map<nat, uint32>, log: seq<Msg>) {
    && (forall f | f in own :: Checked(f) && own[f] == TruthCrc(w, f))
    && (forall f | f in own :: Checksum(f, TruthCrc(w, f)) in log)
    && (forall m | m in log && m.Checksum? :: m.frame in own && m.crc == TruthCrc(w, m.frame))
  }

  /** What a peer holds of the other's checksums is what it has taken. */
  ghost predicate Held<S>(w: World<S>, peer: map<nat, uint32>, taken: seq<Msg>) {
    && (forall f | f in peer :: peer[f] == TruthCrc(w, f) && Checksum(f, TruthCrc(w, f)) in taken)
    && (forall m | m in taken && m.Checksum? :: m.frame in peer && m.crc == TruthCrc(w, m.frame))
  }

  lemma {:induction false} HeldGrows<S>(w: World<S>, peer: map<nat, uint32>, taken: seq<Msg>, ready: seq<Msg>)
    requires Held(w, peer, taken)
    requires forall m | m in ready && m.Checksum? :: m.crc == TruthCrc(w, m.frame)
    ensures Held(w, Arrived(peer, ready), taken + ready)
    decreases |ready|
  {
    hide Held, TruthCrc;
    if ready == [] {
      assert taken + ready == taken;
    } else {
      var m := ready[0];
      var next := if m.Checksum? then peer[m.frame := m.crc] else peer;
      HeldOne(w, peer, taken, m);
      assert forall x | x in ready[1..] :: x in ready;
      HeldGrows(w, next, taken + [m], ready[1..]);
      assert taken + [m] + ready[1..] == taken + ready;
    }
  }

  lemma HeldOne<S>(w: World<S>, peer: map<nat, uint32>, taken: seq<Msg>, m: Msg)
    requires Held(w, peer, taken) && (m.Checksum? ==> m.crc == TruthCrc(w, m.frame))
    ensures Held(w, if m.Checksum? then peer[m.frame := m.crc] else peer, taken + [m])
  {
    hide TruthCrc;
  }

  ghost predicate SideHolds<S>(w: World<S>, s: Pair<S>, i: Side)
    requires Shape(s)
  {
    Recorded(w, s.peer[i].ownCrc, s.log[i]) && Held(w, s.peer[i].peerCrc, Taken(s, i))
  }

  lemma RecordGrows<S>(w: World<S>, own: map<nat, uint32>, log: seq<Msg>, f: nat, m: Msg)
    requires Recorded(w, own, log) && m.Input?
    ensures Recorded(w, own, log + [m])
    ensures Checked(f) ==> Recorded(w, own[f := TruthCrc(w, f)], log + [m, Checksum(f, TruthCrc(w, f))])
  {
    hide TruthCrc, Checked;
    assert forall x | x in log + [m] :: x in log || x == m;
    var c := Checksum(f, TruthCrc(w, f));
    assert forall x | x in log + [m, c] :: x in log || x == m || x == c;
    assert c in log + [m, c];
  }

  /** One step of the peer that ticks. */
  lemma MoverHolds<S(!new)>(w: World<S>, s: Pair<S>, a: Action, s': Pair<S>)
    requires Exact(w.core) && PairOk(w, s) && SideHolds(w, s, 0) && SideHolds(w, s, 1) && s' == Step(w, s, a)
    ensures SideHolds(w, s', a.who)
    ensures var q := s'.peer[a.who];
      q.ownCrc.Keys == s.peer[a.who].ownCrc.Keys + if Checked(q.verified) then {q.verified} else {}
  {
    hide RollbackModel.Tick, RollbackModel.Sent, Coherent, Trimmed, Stream, High;
    hide Recorded, Held, Checked, TruthCrc, Step;
    var i, p, ready, k := a.who, s.peer[a.who], Ready(s, a), Arrival(s, a);
    assert SideOk(w, s, i) && SideOk(w, s, 1 - i);
    StepMoves(w, s, a);
    ArrivalsStream(w, 1 - i, s.log[1 - i], s.got[i], k);
    TickChecksums(w, p, ready);
    TickHolds(w.core, p, PlayerInput(w, i, p.frame), ready);
    RecordGrows(w, p.ownCrc, s.log[i], s'.peer[i].verified, Input(p.frame, PlayerInput(w, i, p.frame)));
    assert Taken(s', i) == Taken(s, i) + ready;
    InFlightTrue(w, s.peer[1 - i].ownCrc, s.log[1 - i], ready);
    HeldGrows(w, p.peerCrc, Taken(s, i), ready);
  }

  lemma OtherHolds<S>(w: World<S>, s: Pair<S>, a: Action, s': Pair<S>)
    requires Shape(s) && SideHolds(w, s, 1 - a.who) && s' == Step(w, s, a)
    ensures SideHolds(w, s', 1 - a.who) && s'.peer[1 - a.who] == s.peer[1 - a.who]
  {
    hide RollbackModel.Tick, RollbackModel.Sent, Recorded, Held;
    StepMoves(w, s, a);
    assert Taken(s', 1 - a.who) == Taken(s, 1 - a.who);
  }

  /** One step of either peer. */
  lemma StepHolds<S(!new)>(w: World<S>, s: Pair<S>, a: Action, i: Side)
    requires Exact(w.core) && PairOk(w, s) && SideHolds(w, s, 0) && SideHolds(w, s, 1)
    ensures SideHolds(w, Step(w, s, a), i)
    ensures var p, q := s.peer[i], Step(w, s, a).peer[i];
      q.ownCrc.Keys == p.ownCrc.Keys + (if Checked(q.verified) then {q.verified} else {}) || i != a.who
    ensures i != a.who ==> Step(w, s, a).peer[i] == s.peer[i]
  {
    hide Step, SideHolds, Checked;
    if i == a.who { MoverHolds(w, s, a, Step(w, s, a)); } else { OtherHolds(w, s, a, Step(w, s, a)); }
  }

  lemma InFlightTrue<S>(w: World<S>, own: map<nat, uint32>, log: seq<Msg>, ready: seq<Msg>)
    requires Recorded(w, own, log) && forall m | m in ready :: m in log
    ensures forall m | m in ready && m.Checksum? :: m.crc == TruthCrc(w, m.frame)
  {
    hide TruthCrc, Checked;
  }

  lemma {:induction false} RunHolds<S(!new)>(w: World<S>, maxPrediction: nat, actions: seq<Action>, i: Side)
    requires Exact(w.core) && maxPrediction >= 1
    ensures SideHolds(w, Run(w, Start(w, maxPrediction), actions), i)
    decreases |actions|
  {
    hide Step, SideHolds, PairOk;
    if actions == [] {
      assert SideHolds(w, Start(w, maxPrediction), i) by { StartHolds(w, maxPrediction, i); }
    } else {
      var n := |actions| - 1;
      RunHolds(w, maxPrediction, actions[..n], 0);
      RunHolds(w, maxPrediction, actions[..n], 1);
      RunOk(w, maxPrediction, actions[..n]);
      StepHolds(w, Run(w, Start(w, maxPrediction), actions[..n]), actions[n], i);
    }
  }

  lemma StartHolds<S>(w: World<S>, maxPrediction: nat, i: Side)
    ensures SideHolds(w, Start(w, maxPrediction), i)
    ensures Start(w, maxPrediction).peer[i].ownCrc == map[] && Start(w, maxPrediction).peer[i].verified == 0
  {
    hide TruthCrc;
  }

  // ----- main results -----

  /** In every run: a peer has sent exactly the checksums it has recorded, the other holds exactly those it has
      taken, and all are those of the true states. So what was sent and has arrived is there to compare. */
  lemma ChecksumsArrive<S(!new)>(w: World<S>, maxPrediction: nat, actions: seq<Action>, i: Side, f: nat)
    requires Exact(w.core) && maxPrediction >= 1
    ensures var s := Run(w, Start(w, maxPrediction), actions);
      var own, peer := s.peer[i].ownCrc, s.peer[1 - i].peerCrc;
      && (f in own <==> Checksum(f, TruthCrc(w, f)) in s.log[i])
      && (f in peer <==> Checksum(f, TruthCrc(w, f)) in Taken(s, 1 - i))
      && (f in own ==> own[f] == TruthCrc(w, f))
      && (f in peer ==> peer[f] == TruthCrc(w, f))
  {
    hide Run, TruthCrc, Checked;
    RunHolds(w, maxPrediction, actions, i);
    RunHolds(w, maxPrediction, actions, 1 - i);
  }

  /** Which frames those are: a peer records the checksum of a frame exactly when the frame is a positive
      multiple of 60 and some tick ended with it as the verified mark. A mark that jumps over it leaves it out. */
  lemma {:induction false} RecordedExactlyWhenMarked<S(!new)>(w: World<S>, maxPrediction: nat, actions: seq<Action>,
                                                              i: Side, f: nat)
    requires Exact(w.core) && maxPrediction >= 1
    ensures f in Run(w, Start(w, maxPrediction), actions).peer[i].ownCrc
       <==> f > 0 && f % 60 == 0 && Marked(w, Start(w, maxPrediction), actions, i, f)
    decreases |actions|
  {
    hide Step, PairOk, SideHolds, Marked, Start;
    var s0 := Start(w, maxPrediction);
    if actions == [] {
      StartHolds(w, maxPrediction, i);
      NothingMarked(w, s0, i, f);
    } else {
      var n := |actions| - 1;
      var before, a := actions[..n], actions[n];
      RecordedExactlyWhenMarked(w, maxPrediction, before, i, f);
      RunHolds(w, maxPrediction, before, 0);
      RunHolds(w, maxPrediction, before, 1);
      RunOk(w, maxPrediction, before);
      StepHolds(w, Run(w, s0, before), a, i);
      MarkedSnoc(w, s0, actions, i, f);
      MarkedLast(w, s0, before, i);
    }
  }

  lemma NothingMarked<S>(w: World<S>, s: Pair<S>, i: Side, f: nat)
    requires Shape(s)
    ensures Run(w, s, []) == s && (Marked(w, s, [], i, f) <==> s.peer[i].verified == f)
  {
    var none: seq<Action> := [];
    assert none[..0] == none;
  }

  lemma MarkedLast<S>(w: World<S>, s: Pair<S>, actions: seq<Action>, i: Side)
    requires Shape(s)
    ensures Marked(w, s, actions, i, Run(w, s, actions).peer[i].verified)
  {
    hide Run;
    assert actions[..|actions|] == actions;
  }

  lemma MarkedSnoc<S>(w: World<S>, s: Pair<S>, actions: seq<Action>, i: Side, f: nat)
    requires Shape(s) && actions != []
    ensures Marked(w, s, actions, i, f)
       <==> Marked(w, s, actions[..|actions| - 1], i, f) || Run(w, s, actions).peer[i].verified == f
  {
    hide Run;
    var n := |actions| - 1;
    var before := actions[..n];
    assert actions[..|actions|] == actions;
    forall k: nat | k <= n ensures before[..k] == actions[..k] {}
    if Marked(w, s, actions, i, f) {
      var k: nat :| k <= |actions| && Run(w, s, actions[..k]).peer[i].verified == f;
      MarkedAt(w, s, actions, i, k);
    }
  }

  lemma MarkedAt<S>(w: World<S>, s: Pair<S>, actions: seq<Action>, i: Side, k: nat)
    requires Shape(s) && actions != [] && k <= |actions|
    ensures var f := Run(w, s, actions[..k]).peer[i].verified;
      Marked(w, s, actions[..|actions| - 1], i, f) || Run(w, s, actions).peer[i].verified == f
  {
    hide Run;
    var n := |actions| - 1;
    if k == |actions| {
      assert actions[..k] == actions;
    } else {
      assert actions[..n][..k] == actions[..k];
    }
  }
}
