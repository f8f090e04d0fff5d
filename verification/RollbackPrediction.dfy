/** What a rollback session feeds for the remote player, and what it keeps (src/net/RollbackPredict.h,
    src/net/RollbackSession.cpp:75-113, 131-136). */
module RollbackPrediction {
  import opened Abi
  import opened NetMessages
  import opened RollbackModel
  import opened RollbackProofs
  import opened RollbackPeers

  /** The input a session should feed for frame `f` when `o` is the highest frame it has received: the real one
      when it is there, else the last one received, neutral before the first. */
  function Fed<S>(w: World<S>, from: Side, o: Option<nat>, f: nat): InputState {
    match o
    case None => Pad(seq(256, _ => 0), seq(8, _ => 0), 0)
    case Some(high) => PlayerInput(w, from, if f <= high then f else high)
  }

  lemma RemoteInputIsFed<S>(w: World<S>, p: Session<S>, f: nat)
    requires Coherent(w, p) && p.verified <= f && Slack(p.maxPrediction) > 0
    ensures RemoteInput(p, f) == Fed(w, 1 - p.port, ConfirmedOf(p), f)
  {
    hide LocalsOk, UsedOk, FedReal, RingOk, Covers, CrcOk, Guess, Slack;
    FloorBelowVerified(p);
    if !p.haveConfirmed { assert p.remote == map[]; }
  }

  /** A tick that runs frame F feeds that input for it, and a tick that rolls back feeds that input for every
      frame it replays. Only a prediction limit at which the slack wraps to 0 is different. */
  lemma TickFeeds<S(!new)>(w: World<S>, p: Session<S>, ready: seq<Msg>)
    requires Exact(w.core) && Coherent(w, p) && Stream(w, 1 - p.port, ConfirmedOf(p), ready) && p.status != Disconnected
    requires Slack(p.maxPrediction) > 0
    ensures var now := PlayerInput(w, p.port, p.frame);
      var d := Received(p, now, Up(ready));
      var q := RollbackModel.Tick(w.core, p, now, Up(ready));
      var o := High(ConfirmedOf(p), ready);
      && (q.frame == p.frame + 1 ==> p.frame in q.used && q.used[p.frame] == Fed(w, 1 - p.port, o, p.frame))
      && (Reconciles(d) ==>
            match FirstMispredicted(d.remote, d.used, d.verified, Horizon(d))
            case None => true
            case Some(g) =>
              forall f | g <= f < p.frame && f in q.used :: q.used[f] == Fed(w, 1 - p.port, o, f))
  {
    hide Coherent, Stream, High, Fed, Slack, RollbackModel.Tick;
    hide Simulate, Stalls, FirstMispredicted, Reconciled, Reconciles;
    var now := PlayerInput(w, p.port, p.frame);
    var d := Received(p, now, Up(ready));
    ReceivedKeeps(w, p, ready);
    ReconciledKeeps(w, p, ready);
    TickCases(w, p, ready);
    var r := Reconciled(w.core, p, now, ready);
    var s := if Stalls(r) then r else Simulate(w.core, r, now);
    var status := if Stalls(r) then Stalled else Status.Ok;
    FinishFrame(s, status);
    FloorBelowVerified(s);
    VerifiedInside(w, r);
    if !Stalls(r) {
      SimulateFrame(w, r, now);
      RemoteInputIsFed(w, r, r.frame);
    }
    if Reconciles(d) { ReplayFeeds(w, d); }
  }

  lemma VerifiedInside<S>(w: World<S>, p: Session<S>)
    requires Coherent(w, p)
    ensures p.verified <= p.frame
  {
  }

  lemma ReplayFeeds<S(!new)>(w: World<S>, d: Session<S>)
    requires Exact(w.core) && Coherent(w, d) && Reconciles(d) && Slack(d.maxPrediction) > 0
    ensures match FirstMispredicted(d.remote, d.used, d.verified, Horizon(d))
      case None => true
      case Some(g) =>
        var r := Reconcile(w.core, d).0;
        forall f: nat | g <= f < d.frame :: f in r.used && r.used[f] == Fed(w, 1 - d.port, ConfirmedOf(d), f)
  {
    hide Coherent, Fed, Slack, FirstMispredicted, Resimulate, RolledBack;
    ReconcileCases(w, d);
    match FirstMispredicted(d.remote, d.used, d.verified, Horizon(d)) {
      case None =>
      case Some(g) =>
        var t := Guess(w, d.port, d.verified, d.used, g);
        RolledBackReplays(w, d, g, t);
        forall f: nat | g <= f < d.frame
          ensures var r := Reconcile(w.core, d).0;
            f in r.used && r.used[f] == Fed(w, 1 - d.port, ConfirmedOf(d), f)
        {
          RemoteInputIsFed(w, d, f);
        }
    }
  }

  /** What pruning keeps, exactly: after any tick of any run, the snapshots and inputs of the last M + 2 verified
      frames and everything after them, and nothing older. */
  lemma KeptExactly<S(!new)>(w: World<S>, s: Pair<S>, i: Side, f: nat)
    requires Exact(w.core) && Reachable(w, s) && Shape(s) && s.peer[i].maxPrediction + 2 < 0x1_0000_0000
    ensures var p := s.peer[i];
      && (f < p.frame ==> (f in p.ring <==> f + p.maxPrediction + 2 >= p.verified))
      && (f < p.frame ==> (f in p.local <==> f + p.maxPrediction + 2 >= p.verified))
      && (p.haveConfirmed && f <= p.confirmed ==> (f in p.remote <==> f + p.maxPrediction + 2 >= p.verified))
      && (f in p.used ==> f + p.maxPrediction + 2 >= p.verified)
  {
    hide Reachable, RingOk, Guess, UsedOk, FedReal, CrcOk;
    ReachableOk(w, s, i);
  }
}
