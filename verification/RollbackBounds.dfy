/** The work and the memory of a rollback session over whole runs of two sessions, and what its pruning
    keeps (src/net/RollbackSession.cpp). */
module RollbackBounds {
  import opened Abi
  import opened NetMessages
  import opened RollbackModel
  import opened RollbackProofs
  import opened RollbackWindow
  import opened RollbackPeers
  import RollbackRetry
  import RollbackStable

  // ----- runs in which first inputs arrive in time -----

  /** A tick that brings a peer its first input finds it at a frame within the prediction limit. */
  predicate InTime<S>(s: Pair<S>, a: Action)
    requires Shape(s)
  {
    High(ConfirmedOf(s.peer[a.who]), Ready(s, a)).Some? ==> FirstInputInTime(s.peer[a.who])
  }

  predicate AllInTime<S>(w: World<S>, s: Pair<S>, actions: seq<Action>)
    requires Shape(s)
    decreases |actions|
  {
    actions == [] ||
    (AllInTime(w, s, actions[..|actions| - 1]) && InTime(Run(w, s, actions[..|actions| - 1]), actions[|actions| - 1]))
  }

  /** Before its first input a session holds exactly the snapshots of the frames it has run. */
  ghost predicate RingIsFrames<S>(p: Session<S>) {
    !p.haveConfirmed ==> forall f :: f in p.ring <==> 0 <= f < p.frame
  }

  lemma TickBeforeFirstInput<S(!new)>(w: World<S>, p: Session<S>, ready: seq<Msg>)
    requires Exact(w.core) && Coherent(w, p) && Stream(w, 1 - p.port, ConfirmedOf(p), ready) && p.status != Disconnected
    requires RingIsFrames(p)
    ensures RingIsFrames(RollbackModel.Tick(w.core, p, PlayerInput(w, p.port, p.frame), Up(ready)))
  {
    hide Stream, Drain, LocalsOk, RemotesOk, UsedOk, FedReal, RingOk, Covers, CrcOk, Guess, High;
    var now := PlayerInput(w, p.port, p.frame);
    var d := Received(p, now, Up(ready));
    ReceivedKeeps(w, p, ready);
    TickCoherent(w, p, ready);
    if High(ConfirmedOf(p), ready).None? {
      StillNone(ConfirmedOf(p), ready);
      var s := Simulate(w.core, d, now);
      assert s.ring.Keys == d.ring.Keys + {p.frame};
      FinishFrame(s, Status.Ok);
      assert Floor(s) == 0;
      assert RollbackModel.Tick(w.core, p, now, Up(ready)) == Finish(s, Status.Ok);
    }
  }

  lemma StillNone(o: Option<nat>, msgs: seq<Msg>)
    requires High(o, msgs).None?
    ensures o.None?
  {
    HighGrows(o, msgs);
  }

  /** What every step keeps about the ring, and every timely step about the window. */
  lemma StepBounded<S(!new)>(w: World<S>, s: Pair<S>, a: Action)
    requires Exact(w.core) && PairOk(w, s)
    ensures var p, q := s.peer[a.who], Step(w, s, a).peer[a.who];
      && (RingIsFrames(p) ==> RingIsFrames(q))
      && (InTime(s, a) && InWindow(p) ==> InWindow(q))
    ensures Step(w, s, a).peer[1 - a.who] == s.peer[1 - a.who]
  {
    hide RollbackModel.Tick, RollbackModel.Sent, Coherent, Trimmed, Stream, High, InWindow, RingIsFrames;
    var i, p := a.who, s.peer[a.who];
    assert SideOk(w, s, i) && SideOk(w, s, 1 - i);
    ArrivalsStream(w, 1 - i, s.log[1 - i], s.got[i], Arrival(s, a));
    StepMoves(w, s, a);
    if RingIsFrames(p) { TickBeforeFirstInput(w, p, Ready(s, a)); }
    if InTime(s, a) && InWindow(p) { TickKeepsWindow(w, p, Ready(s, a)); }
  }

  lemma {:induction false} RunBounded<S(!new)>(w: World<S>, maxPrediction: nat, actions: seq<Action>, i: Side)
    requires Exact(w.core) && maxPrediction >= 1
    ensures var p := Run(w, Start(w, maxPrediction), actions).peer[i];
      && p.maxPrediction == maxPrediction
      && RingIsFrames(p)
      && (AllInTime(w, Start(w, maxPrediction), actions) ==> InWindow(p))
    decreases |actions|
  {
    hide Step, InTime, InWindow, RingIsFrames, PairOk;
    if actions == [] {
      StartBounded(w, maxPrediction, i);
    } else {
      var n := |actions| - 1;
      var s := Run(w, Start(w, maxPrediction), actions[..n]);
      RunBounded(w, maxPrediction, actions[..n], i);
      RunOk(w, maxPrediction, actions[..n]);
      StepBounded(w, s, actions[n]);
      LimitStays(w, s, actions[n], i);
    }
  }

  lemma StartBounded<S>(w: World<S>, maxPrediction: nat, i: Side)
    ensures var p := Start(w, maxPrediction).peer[i];
      p.maxPrediction == maxPrediction && RingIsFrames(p) && InWindow(p)
  {
  }

  lemma LimitStays<S(!new)>(w: World<S>, s: Pair<S>, a: Action, i: Side)
    requires Exact(w.core) && PairOk(w, s)
    ensures Step(w, s, a).peer[i].maxPrediction == s.peer[i].maxPrediction
  {
    hide RollbackModel.Tick, RollbackModel.Sent, Coherent, Trimmed, Stream, High;
    assert SideOk(w, s, a.who) && SideOk(w, s, 1 - a.who);
    ArrivalsStream(w, 1 - a.who, s.log[1 - a.who], s.got[a.who], Arrival(s, a));
    StepMoves(w, s, a);
    TickCoherent(w, s.peer[a.who], Ready(s, a));
  }

  lemma {:induction false} PrefixSize(keys: set<nat>, n: nat)
    requires forall k: nat :: k in keys <==> k < n
    ensures |keys| == n
  {
    if n > 0 {
      PrefixSize(keys - {n - 1}, n - 1);
    } else {
      assert keys == {};
    }
  }

  // ----- main results -----

  /** In every run, a peer that has taken no input yet holds as many snapshots as it has run frames. So
      its ring is within the bound exactly up to that many frames. */
  lemma RingBeforeFirstInput<S(!new)>(w: World<S>, maxPrediction: nat, actions: seq<Action>, i: Side)
    requires Exact(w.core) && maxPrediction >= 1
    ensures var p := Run(w, Start(w, maxPrediction), actions).peer[i];
      !p.haveConfirmed ==>
        && |p.ring| == p.frame
        && (|p.ring| <= 2 * maxPrediction + 3 <==> p.frame <= 2 * maxPrediction + 3)
  {
    hide Run;
    RunBounded(w, maxPrediction, actions, i);
    var p := Run(w, Start(w, maxPrediction), actions).peer[i];
    if !p.haveConfirmed { PrefixSize(p.ring.Keys, p.frame); }
  }

  /** In every run whose first inputs arrive in time, once a peer has an input its ring stays within
      2M + 3 snapshots, and no tick that is in time replays more than M frames. */
  lemma TimelyRunsAreBounded<S(!new)>(w: World<S>, maxPrediction: nat, actions: seq<Action>, a: Action)
    requires Exact(w.core) && maxPrediction >= 1 && AllInTime(w, Start(w, maxPrediction), actions)
    ensures var s := Run(w, Start(w, maxPrediction), actions);
      var p := s.peer[a.who];
      && (p.haveConfirmed ==> |p.ring| <= 2 * maxPrediction + 3)
      && (InTime(s, a) ==> ReplayLength(Received(p, PlayerInput(w, a.who, p.frame), Up(Ready(s, a)))) <= maxPrediction)
  {
    hide Run, AllInTime, Coherent, Trimmed, Stream, High, InWindow, ReplayLength, RollbackModel.Received;
    var s := Run(w, Start(w, maxPrediction), actions);
    var i, p := a.who, s.peer[a.who];
    RunBounded(w, maxPrediction, actions, i);
    RunOk(w, maxPrediction, actions);
    assert SideOk(w, s, i) && SideOk(w, s, 1 - i);
    ArrivalsStream(w, 1 - i, s.log[1 - i], s.got[i], Arrival(s, a));
    if p.haveConfirmed {
      VerifiedBelow(w, p);
      RingIsBounded(w, p);
    }
    if InTime(s, a) {
      if High(ConfirmedOf(p), Ready(s, a)).Some? {
        ReplayIsBounded(w, p, Ready(s, a));
      } else {
        NothingToReplay(w, p, Ready(s, a));
      }
    }
  }

  lemma VerifiedBelow<S>(w: World<S>, p: Session<S>)
    requires Coherent(w, p)
    ensures p.verified <= p.frame
  {
  }

  lemma NothingToReplay<S>(w: World<S>, p: Session<S>, ready: seq<Msg>)
    requires Coherent(w, p) && Stream(w, 1 - p.port, ConfirmedOf(p), ready) && High(ConfirmedOf(p), ready).None?
    ensures ReplayLength(Received(p, PlayerInput(w, p.port, p.frame), Up(ready))) == 0
  {
    hide Coherent, Stream, High, Drain;
    ReceivedKeeps(w, p, ready);
  }

  /** Some input that was not the one fed. */
  lemma AnotherInput(x: InputState) returns (z: InputState)
    ensures z != x
  {
    z := x.(buttons := if x.buttons == 0 then 1 else 0);
  }

  /** The condition is exact: for a peer that has taken no input yet, all that can arrive makes its next tick
      replay at most M frames if and only if it has run at most M; one possible first input is enough to
      see it. */
  lemma ReplayBoundIsExact<S(!new)>(w: World<S>, maxPrediction: nat, actions: seq<Action>, i: Side)
    requires Exact(w.core) && maxPrediction >= 1
    requires !Run(w, Start(w, maxPrediction), actions).peer[i].haveConfirmed
    ensures var p := Run(w, Start(w, maxPrediction), actions).peer[i];
      var now := PlayerInput(w, i, p.frame);
      && ((forall ready: seq<Msg> :: ReplayLength(Received(p, now, Up(ready))) <= maxPrediction)
            <==> p.frame <= maxPrediction)
      && ((forall z: InputState :: ReplayLength(Received(p, now, Up([Input(0, z)]))) <= maxPrediction)
            <==> p.frame <= maxPrediction)
  {
    hide Run, ReplayLength, RollbackModel.Received;
    var p := Run(w, Start(w, maxPrediction), actions).peer[i];
    var now := PlayerInput(w, i, p.frame);
    RunOk(w, maxPrediction, actions);
    assert SideOk(w, Run(w, Start(w, maxPrediction), actions), i);
    forall ready: seq<Msg> ensures ReplayLength(Received(p, now, Up(ready))) <= p.frame { ReplayFits(p, now, ready); }
    if p.frame > maxPrediction {
      var z := AnotherInput(Lookup(p.used, 0, Neutral()));
      WrongFirstInput(p, now, z);
      assert ReplayLength(Received(p, now, Up([Input(0, z)]))) > maxPrediction;
    }
  }

  lemma ReplayFits<S>(p: Session<S>, now: InputState, ready: seq<Msg>)
    ensures ReplayLength(Received(p, now, Up(ready))) <= p.frame
  {
    hide Drain;
    RollbackRetry.DrainKeepsPlace(p.(local := p.local[p.frame := now]), ready);
  }

  lemma WrongFirstInput<S>(p: Session<S>, now: InputState, z: InputState)
    requires !p.haveConfirmed && p.verified == 0 && p.frame > 0 && z != Lookup(p.used, 0, Neutral())
    ensures ReplayLength(Received(p, now, Up([Input(0, z)]))) == p.frame
  {
    var m := Input(0, z);
    var d := Received(p, now, Up([m]));
    assert [m][1..] == [];
    assert d == Drain(Deliver(p.(local := p.local[p.frame := now]), m), []);
    assert Mispredicted(d.remote, d.used, 0);
  }

  // ----- what pruning keeps -----

  lemma SlackIsZero(maxPrediction: nat)
    requires maxPrediction < 0x1_0000_0000
    ensures Slack(maxPrediction) == 0 <==> maxPrediction == 0xFFFF_FFFE
  {
  }

  /** The input that predictions are made from is kept, except at one prediction limit, where the slack
      wraps to 0, and then exactly while the frame after it is not verified yet. */
  lemma ConfirmedInputKept<S(!new)>(w: World<S>, s: Pair<S>, i: Side)
    requires Exact(w.core) && Reachable(w, s) && Shape(s)
    ensures var p := s.peer[i];
      p.haveConfirmed ==> (p.confirmed in p.remote <==> Slack(p.maxPrediction) > 0 || p.verified <= p.confirmed)
  {
    hide Reachable, Slack;
    ReachableOk(w, s, i);
  }

  /** Over whole runs: that input is always there exactly when the limit is not 2^32 - 2. */
  lemma ConfirmedInputAlwaysKept<S(!new)>(w: World<S>, maxPrediction: nat)
    requires Exact(w.core) && 1 <= maxPrediction < 0x1_0000_0000
    ensures (forall actions: seq<Action>, i: Side :: Predicts(Run(w, Start(w, maxPrediction), actions).peer[i]))
            <==> maxPrediction != 0xFFFF_FFFE
  {
    hide Run, Slack, Predicts;
    SlackIsZero(maxPrediction);
    if maxPrediction != 0xFFFF_FFFE {
      forall actions: seq<Action>, i: Side ensures Predicts(Run(w, Start(w, maxPrediction), actions).peer[i]) {
        KeepsPredicting(w, maxPrediction, actions, i);
      }
    } else {
      var actions := LimitDropsInput(w, maxPrediction);
      assert !Predicts(Run(w, Start(w, maxPrediction), actions).peer[0]);
    }
  }

  /** The input that predictions are made from is there. */
  predicate Predicts<S>(p: Session<S>) {
    p.haveConfirmed ==> p.confirmed in p.remote
  }

  lemma KeepsPredicting<S(!new)>(w: World<S>, maxPrediction: nat, actions: seq<Action>, i: Side)
    requires Exact(w.core) && maxPrediction >= 1 && Slack(maxPrediction) > 0
    ensures Predicts(Run(w, Start(w, maxPrediction), actions).peer[i])
  {
    hide Run, Slack;
    var s := Run(w, Start(w, maxPrediction), actions);
    assert Reachable(w, s);
    RunBounded(w, maxPrediction, actions, i);
    ConfirmedInputKept(w, s, i);
  }

  /** The host runs frame 0, the join peer runs frame 0, the host takes its input and runs frame 1. */
  lemma FirstExchange<S(!new)>(w: World<S>, maxPrediction: nat) returns (s: Pair<S>)
    requires Exact(w.core) && maxPrediction >= 1
    ensures s == Step(w, Step(w, Step(w, Start(w, maxPrediction), Tick(0, 9)), Tick(1, 9)), Tick(0, 9))
    ensures ConfirmedOf(s.peer[0]) == Some(0) && s.peer[0].verified == 1 && s.peer[0].maxPrediction == maxPrediction
  {
    hide Slack, Step, High, PairOk, SideOk;
    var s0 := Start(w, maxPrediction);
    StartOk(w, maxPrediction);
    RollbackStable.HighSome(None, Input(0, w.input1(0)));
    RollbackStable.HighSome(None, Input(0, w.input0(0)));
    assert InFlightTo(s0, 0) == [];
    RollbackStable.TickNumbers(w, s0, 0);
    var s1 := Step(w, s0, Tick(0, 9));
    assert InFlightTo(s1, 1) == [Input(0, w.input0(0))];
    RollbackStable.TickNumbers(w, s1, 1);
    var s2 := Step(w, s1, Tick(1, 9));
    assert InFlightTo(s2, 0) == [Input(0, w.input1(0))];
    RollbackStable.TickNumbers(w, s2, 0);
    s := Step(w, s2, Tick(0, 9));
  }

  /** At the limit those three ticks drop the input. */
  lemma LimitDropsInput<S(!new)>(w: World<S>, maxPrediction: nat) returns (actions: seq<Action>)
    requires Exact(w.core) && maxPrediction >= 1 && Slack(maxPrediction) == 0
    ensures !Predicts(Run(w, Start(w, maxPrediction), actions).peer[0])
  {
    hide Run, Slack, Step, High, PairOk, SideOk;
    var s0 := Start(w, maxPrediction);
    var s := FirstExchange(w, maxPrediction);
    actions := [] + [Tick(0, 9)] + [Tick(1, 9)] + [Tick(0, 9)];
    EmptyRun(w, s0);
    RollbackStable.RunSnoc(w, s0, [], Tick(0, 9));
    RollbackStable.RunSnoc(w, s0, [] + [Tick(0, 9)], Tick(1, 9));
    RollbackStable.RunSnoc(w, s0, [] + [Tick(0, 9)] + [Tick(1, 9)], Tick(0, 9));
    assert Reachable(w, s);
    ConfirmedInputKept(w, s, 0);
  }

  lemma EmptyRun<S>(w: World<S>, s: Pair<S>)
    requires Shape(s)
    ensures Run(w, s, []) == s
  {
  }
}
