/** Two rollback sessions over two FIFO channels, stepped in any order (src/net/RollbackSession.cpp,
    src/net/LoopbackTransport.cpp). */
module RollbackPeers {
  import opened Abi
  import opened NetMessages
  import opened RollbackModel
  import opened RollbackProofs
  import opened RollbackWindow

  /** `log[i]` is everything peer `i` has ever sent; peer `1 - i` has taken the first `got[1 - i]` of
      it. The rest of the log is in flight. */
  datatype Pair<S> = Pair(peer: seq<Session<S>>, log: seq<seq<Msg>>, got: seq<nat>)

  /** Peer `who` ticks and the transport hands it the next `arriving` messages in flight (all of
      them when fewer are in flight). */
  datatype Action = Tick(who: Side, arriving: nat)

  predicate Shape<S>(s: Pair<S>) {
    && |s.peer| == 2 && |s.log| == 2 && |s.got| == 2
    && s.got[0] <= |s.log[1]| && s.got[1] <= |s.log[0]|
  }

  function InFlightTo<S>(s: Pair<S>, who: Side): seq<Msg>
    requires Shape(s)
  {
    s.log[1 - who][s.got[who]..]
  }

  function Arrival<S>(s: Pair<S>, a: Action): nat
    requires Shape(s)
  {
    if a.arriving <= |InFlightTo(s, a.who)| then a.arriving else |InFlightTo(s, a.who)|
  }

  function Ready<S>(s: Pair<S>, a: Action): seq<Msg>
    requires Shape(s)
  {
    InFlightTo(s, a.who)[..Arrival(s, a)]
  }

  /** One tick in which the player of `a.who` gives `now`. */
  function StepWith<S>(c: Core<S>, s: Pair<S>, a: Action, now: InputState): (s': Pair<S>)
    requires Shape(s)
    ensures Shape(s')
  {
    var p := s.peer[a.who];
    var link := Up(Ready(s, a));
    Pair(s.peer[a.who := RollbackModel.Tick(c, p, now, link)],
         s.log[a.who := s.log[a.who] + Sent(c, p, now, link)],
         s.got[a.who := s.got[a.who] + Arrival(s, a)])
  }

  function Step<S>(w: World<S>, s: Pair<S>, a: Action): (s': Pair<S>)
    requires Shape(s)
    ensures Shape(s')
  {
    StepWith(w.core, s, a, PlayerInput(w, a.who, s.peer[a.who].frame))
  }

  function Run<S>(w: World<S>, s: Pair<S>, actions: seq<Action>): (s': Pair<S>)
    requires Shape(s)
    ensures Shape(s')
    decreases |actions|
  {
    if actions == [] then s
    else Step(w, Run(w, s, actions[..|actions| - 1]), actions[|actions| - 1])
  }

  function Fresh<S>(port: Side, maxPrediction: nat, start: S): Session<S> {
    Session(port, maxPrediction, 0, 0, false, 0, 0, Status.Ok, start, map[], map[], map[], map[], map[], map[])
  }

  /** Both peers just after a successful handshake: same start state, nothing sent. */
  function Start<S>(w: World<S>, maxPrediction: nat): (s: Pair<S>)
    ensures Shape(s)
  {
    Pair([Fresh(0, maxPrediction, w.start), Fresh(1, maxPrediction, w.start)], [[], []], [0, 0])
  }

  // ----- the invariant of the pair -----

  /** The stream sent by a peer: gapless, and it reaches the frame before its next one or that one. */
  predicate OutOk<S>(w: World<S>, port: Side, frame: nat, log: seq<Msg>) {
    && Stream(w, port, None, log)
    && ReachesFrame(High(None, log), frame)
  }

  predicate ReachesFrame(h: Option<nat>, frame: nat) {
    if frame == 0 then h.None? || h.value == 0 else h.Some? && frame - 1 <= h.value <= frame
  }

  /** A peer that has taken the messages `taken`. */
  ghost predicate PeerOk<S>(w: World<S>, port: Side, p: Session<S>, taken: seq<Msg>) {
    && Coherent(w, p) && Trimmed(p)
    && p.port == port
    && (p.status == Status.Ok || p.status == Stalled)
    && ConfirmedOf(p) == High(None, taken)
    && (p.frame > 0 ==> p.verified < p.frame)
  }

  function Taken<S>(s: Pair<S>, i: Side): seq<Msg>
    requires Shape(s)
  {
    s.log[1 - i][..s.got[i]]
  }

  ghost predicate SideOk<S>(w: World<S>, s: Pair<S>, i: Side)
    requires Shape(s)
  {
    PeerOk(w, i, s.peer[i], Taken(s, i)) && OutOk(w, i, s.peer[i].frame, s.log[i])
  }

  ghost predicate PairOk<S>(w: World<S>, s: Pair<S>) {
    Shape(s) && forall i: Side :: SideOk(w, s, i)
  }

  lemma {:induction false} StreamSplits<S>(w: World<S>, port: Side, o: Option<nat>, a: seq<Msg>, b: seq<Msg>)
    ensures Stream(w, port, o, a + b) <==> Stream(w, port, o, a) && Stream(w, port, High(o, a), b)
    ensures High(o, a + b) == High(High(o, a), b)
    decreases |a|
  {
    if a == [] {
      assert a + b == b;
    } else {
      assert (a + b)[1..] == a[1..] + b;
      StreamSplits(w, port, Raise(o, a[0]), a[1..], b);
    }
  }

  /** The messages that arrive continue the stream the peer has taken so far. */
  lemma ArrivalsStream<S>(w: World<S>, port: Side, log: seq<Msg>, n: nat, k: nat)
    requires n + k <= |log| && Stream(w, port, None, log)
    ensures Stream(w, port, High(None, log[..n]), log[n..][..k])
    ensures High(High(None, log[..n]), log[n..][..k]) == High(None, log[..n + k])
  {
    var taken, ready, rest := log[..n], log[n..][..k], log[n + k..];
    assert log == (taken + ready) + rest;
    assert log[..n + k] == taken + ready;
    StreamSplits(w, port, None, taken + ready, rest);
    StreamSplits(w, port, None, taken, ready);
  }

  /** What a tick of one peer gives: its own invariant again, and a longer stream. */
  lemma TickedPeer<S(!new)>(w: World<S>, p: Session<S>, taken: seq<Msg>, taken': seq<Msg>, ready: seq<Msg>,
                            log: seq<Msg>)
    requires Exact(w.core) && PeerOk(w, p.port, p, taken) && OutOk(w, p.port, p.frame, log)
    requires Stream(w, 1 - p.port, High(None, taken), ready) && High(High(None, taken), ready) == High(None, taken')
    ensures var q := RollbackModel.Tick(w.core, p, PlayerInput(w, p.port, p.frame), Up(ready));
      && PeerOk(w, p.port, q, taken')
      && OutOk(w, p.port, q.frame, log + Sent(w.core, p, PlayerInput(w, p.port, p.frame), Up(ready)))
  {
    hide RollbackModel.Tick, RollbackModel.Sent, Coherent, Trimmed, Stream, High;
    TickCoherent(w, p, ready);
    TickVerifies(w, p, ready);
    TickSends(w, p, ready, High(None, log));
    StreamSplits(w, p.port, None, log, Sent(w.core, p, PlayerInput(w, p.port, p.frame), Up(ready)));
  }

  lemma StepMoves<S>(w: World<S>, s: Pair<S>, a: Action)
    requires Shape(s)
    ensures var s', p, now := Step(w, s, a), s.peer[a.who], PlayerInput(w, a.who, s.peer[a.who].frame);
      && s'.peer[a.who] == RollbackModel.Tick(w.core, p, now, Up(Ready(s, a)))
      && s'.log[a.who] == s.log[a.who] + Sent(w.core, p, now, Up(Ready(s, a)))
      && s'.got[a.who] == s.got[a.who] + Arrival(s, a)
      && s'.peer[1 - a.who] == s.peer[1 - a.who] && s'.log[1 - a.who] == s.log[1 - a.who]
          && s'.got[1 - a.who] == s.got[1 - a.who]
  {
  }

  /** The peer that ticks. */
  lemma MoverOk<S(!new)>(w: World<S>, s: Pair<S>, a: Action, s': Pair<S>)
    requires Exact(w.core) && Shape(s) && Shape(s') && SideOk(w, s, a.who) && SideOk(w, s, 1 - a.who)
    requires var p, now := s.peer[a.who], PlayerInput(w, a.who, s.peer[a.who].frame);
      && s'.peer[a.who] == RollbackModel.Tick(w.core, p, now, Up(Ready(s, a)))
      && s'.log[a.who] == s.log[a.who] + Sent(w.core, p, now, Up(Ready(s, a)))
      && s'.got[a.who] == s.got[a.who] + Arrival(s, a)
      && s'.log[1 - a.who] == s.log[1 - a.who]
    ensures SideOk(w, s', a.who)
  {
    hide RollbackModel.Tick, RollbackModel.Sent, Coherent, Trimmed, Stream, High, ReachesFrame;
    var i, k := a.who, Arrival(s, a);
    ArrivalsStream(w, 1 - i, s.log[1 - i], s.got[i], k);
    assert Taken(s', i) == s.log[1 - i][..s.got[i] + k];
    TickedPeer(w, s.peer[i], Taken(s, i), Taken(s', i), Ready(s, a), s.log[i]);
  }

  /** The peer that does not move: its own stream is untouched, the one it reads only got longer. */
  lemma OtherOk<S>(w: World<S>, s: Pair<S>, a: Action, s': Pair<S>)
    requires Shape(s) && Shape(s') && SideOk(w, s, 1 - a.who)
    requires s'.peer[1 - a.who] == s.peer[1 - a.who] && s'.log[1 - a.who] == s.log[1 - a.who]
          && s'.got[1 - a.who] == s.got[1 - a.who]
    requires s.log[a.who] <= s'.log[a.who]
    ensures SideOk(w, s', 1 - a.who)
  {
    assert Taken(s', 1 - a.who) == Taken(s, 1 - a.who);
  }

  /** Every step of the pair keeps its invariant. */
  lemma StepOk<S(!new)>(w: World<S>, s: Pair<S>, a: Action)
    requires Exact(w.core) && PairOk(w, s)
    ensures PairOk(w, Step(w, s, a))
  {
    hide RollbackModel.Tick, RollbackModel.Sent, SideOk;
    forall i: Side ensures SideOk(w, Step(w, s, a), i) {
      assert SideOk(w, s, a.who) && SideOk(w, s, 1 - a.who);
      StepMoves(w, s, a);
      if i == a.who { MoverOk(w, s, a, Step(w, s, a)); } else { OtherOk(w, s, a, Step(w, s, a)); }
    }
  }

  lemma StartOk<S>(w: World<S>, maxPrediction: nat)
    requires maxPrediction >= 1
    ensures PairOk(w, Start(w, maxPrediction))
  {
  }

  /** Some sequence of ticks and deliveries leads from a fresh match to `s`. */
  ghost predicate Reachable<S>(w: World<S>, s: Pair<S>) {
    exists maxPrediction: nat, actions: seq<Action> ::
        maxPrediction >= 1 && s == Run(w, Start(w, maxPrediction), actions)
  }

  lemma {:induction false} RunOk<S(!new)>(w: World<S>, maxPrediction: nat, actions: seq<Action>)
    requires Exact(w.core) && maxPrediction >= 1
    ensures PairOk(w, Run(w, Start(w, maxPrediction), actions))
    decreases |actions|
  {
    if actions == [] {
      StartOk(w, maxPrediction);
    } else {
      RunOk(w, maxPrediction, actions[..|actions| - 1]);
      StepOk(w, Run(w, Start(w, maxPrediction), actions[..|actions| - 1]), actions[|actions| - 1]);
    }
  }

  lemma ReachableOk<S(!new)>(w: World<S>, s: Pair<S>, i: Side)
    requires Exact(w.core) && Reachable(w, s)
    ensures PairOk(w, s) && SideOk(w, s, i)
  {
    var maxPrediction: nat, actions: seq<Action> :| maxPrediction >= 1 && s == Run(w, Start(w, maxPrediction), actions);
    RunOk(w, maxPrediction, actions);
  }

  // ----- main results -----

  /** Each snapshot a peer holds at or below its verified mark is the true state, and the mark
      itself always has one. */
  lemma VerifiedIsTrue<S(!new)>(w: World<S>, s: Pair<S>, i: Side)
    requires Exact(w.core) && Reachable(w, s)
    ensures Shape(s)
    ensures var p := s.peer[i];
      && (forall v | v in p.ring && v <= p.verified :: p.ring[v] == Saved(w.core, Truth(w, v)))
      && (p.frame > 0 ==> p.verified in p.ring)
  {
    ReachableOk(w, s, i);
    FloorBelowVerified(s.peer[i]);
  }

  /** Convergence: in every reachable state the peers hold the same snapshot of every frame that
      both have verified. */
  lemma PeersConverge<S(!new)>(w: World<S>, s: Pair<S>, v: nat)
    requires Exact(w.core) && Reachable(w, s)
    ensures Shape(s)
    ensures v in s.peer[0].ring && v in s.peer[1].ring && v <= s.peer[0].verified && v <= s.peer[1].verified
      ==> s.peer[0].ring[v] == s.peer[1].ring[v]
  {
    VerifiedIsTrue(w, s, 0);
    VerifiedIsTrue(w, s, 1);
  }

  /** Checksums never raise a false alarm: in every reachable state the checksums a peer took and
      those it was sent agree on every frame both have, and so do the two peers' own. */
  lemma ChecksumsNeverClash<S(!new)>(w: World<S>, s: Pair<S>)
    requires Exact(w.core) && Reachable(w, s)
    ensures Shape(s) && !ChecksumsClash(s.peer[0]) && !ChecksumsClash(s.peer[1])
    ensures forall f | f in s.peer[0].ownCrc && f in s.peer[1].ownCrc :: s.peer[0].ownCrc[f] == s.peer[1].ownCrc[f]
  {
    ReachableOk(w, s, 0);
    ReachableOk(w, s, 1);
  }

  /** The displayed state is right as soon as the predictions were: a peer whose unverified frames
      were fed the real input holds the true current state. */
  lemma RightGuessesShowTheTruth<S(!new)>(w: World<S>, s: Pair<S>, i: Side, p: Session<S>)
    requires Exact(w.core) && Reachable(w, s) && Shape(s) && p == s.peer[i]
    requires forall f: nat | p.verified <= f < p.frame :: f in p.used && p.used[f] == PlayerInput(w, 1 - i, f)
    ensures p.state == Truth(w, p.frame)
  {
    ReachableOk(w, s, i);
    GuessShift(w, i, p.verified, p.frame, p.used, p.frame);
  }

  /** When everything in flight arrives, the receiver is confirmed up to the sender's previous frame. */
  lemma EverythingArrives<S>(w: World<S>, s: Pair<S>, who: Side)
    requires PairOk(w, s)
    ensures var ready := InFlightTo(s, who);
      && Ready(s, Tick(who, |ready|)) == ready
      && Stream(w, 1 - who, ConfirmedOf(s.peer[who]), ready)
      && ReachesFrame(High(ConfirmedOf(s.peer[who]), ready), s.peer[1 - who].frame)
  {
    hide Coherent, Trimmed, Stream, High;
    var log := s.log[1 - who];
    assert SideOk(w, s, who) && SideOk(w, s, 1 - who);
    ArrivalsStream(w, 1 - who, log, s.got[who], |InFlightTo(s, who)|);
    assert log[s.got[who]..][..|InFlightTo(s, who)|] == InFlightTo(s, who);
    assert log[..|log|] == log;
  }

  lemma CoherentWindow<S>(w: World<S>, p: Session<S>)
    requires Coherent(w, p)
    ensures p.maxPrediction >= 1
  {
  }

  /** Progress: when everything in flight arrives, the peer that is not ahead always runs its
      frame; so two such peers are never both stalled. */
  lemma TrailingPeerRuns<S(!new)>(w: World<S>, s: Pair<S>, who: Side)
    requires Exact(w.core) && Reachable(w, s)
    requires Shape(s) && s.peer[who].frame <= s.peer[1 - who].frame
    ensures Step(w, s, Tick(who, |InFlightTo(s, who)|)).peer[who].frame == s.peer[who].frame + 1
  {
    hide RollbackModel.Tick, RollbackModel.Sent, Trimmed, Stream, High, Coherent, Reachable;
    ReachableOk(w, s, who);
    EverythingArrives(w, s, who);
    var p, ready := s.peer[who], InFlightTo(s, who);
    TickCoherent(w, p, ready);
    TickRunsInsideWindow(w, p, ready);
    CoherentWindow(w, p);
    StepMoves(w, s, Tick(who, |ready|));
  }

  // ----- refinement of the waiting session -----

  /** A session that only ever runs a frame when both real inputs are known. */
  datatype Waiting<S> = Waiting(frame: nat, state: S)

  function Wait<S>(w: World<S>, x: Waiting<S>, frames: nat): Waiting<S>
    decreases frames
  {
    if frames == 0 then x
    else Wait(w, Waiting(x.frame + 1, w.core.step(x.state, w.input0(x.frame), w.input1(x.frame))), frames - 1)
  }

  /** What a rollback session has settled: its verified frame and the state its snapshot restores. */
  function Settled<S>(w: World<S>, p: Session<S>): Waiting<S> {
    Waiting(p.verified,
      if p.verified in p.ring && Load(w.core, p.ring[p.verified]).Some? then Load(w.core, p.ring[p.verified]).value
      else p.state)
  }

  lemma {:induction false} WaitFollowsTruth<S>(w: World<S>, n: nat, frames: nat)
    ensures Wait(w, Waiting(n, Truth(w, n)), frames) == Waiting(n + frames, Truth(w, n + frames))
    decreases frames
  {
    if frames > 0 { WaitFollowsTruth(w, n + 1, frames - 1); }
  }

  lemma SettledIsTrue<S(!new)>(w: World<S>, p: Session<S>, taken: seq<Msg>)
    requires Exact(w.core) && PeerOk(w, p.port, p, taken)
    ensures Settled(w, p) == Waiting(p.verified, Truth(w, p.verified))
  {
    FloorBelowVerified(p);
  }

  /** Refinement: every step of the pair is, for each peer's settled part, some number of steps of
      the waiting session. */
  lemma StepRefinesWaiting<S(!new)>(w: World<S>, s: Pair<S>, a: Action)
    requires Exact(w.core) && Reachable(w, s) && Shape(s)
    ensures var p, q := s.peer[a.who], Step(w, s, a).peer[a.who];
      q.verified >= p.verified && Settled(w, q) == Wait(w, Settled(w, p), q.verified - p.verified)
  {
    hide RollbackModel.Tick, RollbackModel.Sent, Coherent, Trimmed, Stream, Settled, Wait, Truth;
    var i := a.who;
    var p, q := s.peer[i], Step(w, s, a).peer[i];
    ReachableOk(w, s, i);
    StepOk(w, s, a);
    assert SideOk(w, Step(w, s, a), i);
    VerifiedGrows(w, s, a);
    SettledIsTrue(w, p, Taken(s, i));
    SettledIsTrue(w, q, Taken(Step(w, s, a), i));
    WaitFollowsTruth(w, p.verified, q.verified - p.verified);
  }

  lemma VerifiedGrows<S(!new)>(w: World<S>, s: Pair<S>, a: Action)
    requires Exact(w.core) && PairOk(w, s)
    ensures Step(w, s, a).peer[a.who].verified >= s.peer[a.who].verified
  {
    hide RollbackModel.Tick, RollbackModel.Sent, Trimmed, Stream;
    var i, k := a.who, Arrival(s, a);
    var p := s.peer[i];
    assert SideOk(w, s, i) && SideOk(w, s, 1 - i);
    ArrivalsStream(w, 1 - i, s.log[1 - i], s.got[i], k);
    TickCoherent(w, p, Ready(s, a));
    TickVerifies(w, p, Ready(s, a));
    HighGrows(ConfirmedOf(p), Ready(s, a));
    StepMoves(w, s, a);
  }

  // ----- eventual agreement -----

  function DeliverAll<S>(w: World<S>, s: Pair<S>, who: Side): (s': Pair<S>)
    requires Shape(s)
    ensures Shape(s')
  {
    Step(w, s, Tick(who, |InFlightTo(s, who)|))
  }

  /** One round: each peer ticks once and receives everything in flight. */
  function Round<S>(w: World<S>, s: Pair<S>): (s': Pair<S>)
    requires Shape(s)
    ensures Shape(s')
  {
    DeliverAll(w, DeliverAll(w, s, 0), 1)
  }

  function Rounds<S>(w: World<S>, s: Pair<S>, n: nat): (s': Pair<S>)
    requires Shape(s)
    ensures Shape(s')
    decreases n
  {
    if n == 0 then s else Round(w, Rounds(w, s, n - 1))
  }

  /** Both peers have simulated at least `n` frames. */
  predicate BothAt<S>(s: Pair<S>, n: nat)
    requires Shape(s)
  {
    s.peer[0].frame >= n && s.peer[1].frame >= n
  }

  /** A tick that receives everything: frames do not shrink, the trailing peer's grows, and whatever
      both had simulated before it is verified. */
  lemma DeliverAllAdvances<S(!new)>(w: World<S>, s: Pair<S>, who: Side)
    requires Exact(w.core) && PairOk(w, s)
    ensures var s' := DeliverAll(w, s, who);
      && PairOk(w, s')
      && s'.peer[1 - who] == s.peer[1 - who]
      && s.peer[who].frame <= s'.peer[who].frame
      && (s.peer[who].frame <= s.peer[1 - who].frame ==> s'.peer[who].frame == s.peer[who].frame + 1)
      && forall n: nat | BothAt(s, n) :: s'.peer[who].verified >= n
  {
    hide RollbackModel.Tick, RollbackModel.Sent, Trimmed, Stream, High, Coherent;
    var a := Tick(who, |InFlightTo(s, who)|);
    StepOk(w, s, a);
    StepMoves(w, s, a);
    assert SideOk(w, s, who);
    EverythingArrives(w, s, who);
    var p, ready := s.peer[who], InFlightTo(s, who);
    TickCoherent(w, p, ready);
    TickVerifies(w, p, ready);
    TickRunsInsideWindow(w, p, ready);
    CoherentWindow(w, p);
  }

  lemma RoundAdvances<S(!new)>(w: World<S>, s: Pair<S>, n: nat)
    requires Exact(w.core) && PairOk(w, s) && BothAt(s, n)
    ensures var s' := Round(w, s);
      PairOk(w, s') && BothAt(s', n + 1) && s'.peer[0].verified >= n && s'.peer[1].verified >= n
  {
    hide Step, DeliverAll;
    DeliverAllAdvances(w, s, 0);
    var m := DeliverAll(w, s, 0);
    assert BothAt(m, n);
    DeliverAllAdvances(w, m, 1);
  }

  /** Progress over whole runs: after `n + 1` rounds both peers have simulated at least `n + 1`
      frames and verified at least `n`, whatever the players pressed. */
  lemma {:induction false} RoundsVerify<S(!new)>(w: World<S>, maxPrediction: nat, n: nat)
    requires Exact(w.core) && maxPrediction >= 1
    ensures var s := Rounds(w, Start(w, maxPrediction), n + 1);
      PairOk(w, s) && BothAt(s, n + 1) && s.peer[0].verified >= n && s.peer[1].verified >= n
    decreases n
  {
    hide Round;
    var before := Rounds(w, Start(w, maxPrediction), n);
    if n == 0 { StartOk(w, maxPrediction); } else { RoundsVerify(w, maxPrediction, n - 1); }
    RoundAdvances(w, before, n);
  }
}
