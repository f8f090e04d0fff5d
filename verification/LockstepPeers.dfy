/** Two lockstep sessions over two FIFO channels, stepped in any order (src/net/NetSession.cpp,
    src/net/LoopbackTransport.cpp). */
module LockstepPeers {
  import opened Abi
  import opened NetMessages
  import opened LockstepModel
  import opened LockstepProofs

  /** `log[i]` is everything peer `i` has ever sent; peer `1 - i` has taken the first `got[1 - i]` of
      it. The rest of the log is in flight. */
  datatype Pair<S> = Pair(peer: seq<Session<S>>, log: seq<seq<Msg>>, got: seq<nat>)

  /** `Give`: the first half of a tick. `Advance`: the second half, during which the next `arriving`
      messages in flight arrive (all of them when fewer are in flight) before the receive times out. */
  datatype Action = Give(who: Side) | Advance(who: Side, arriving: nat)

  predicate Shape<S>(s: Pair<S>) {
    && |s.peer| == 2 && |s.log| == 2 && |s.got| == 2
    && s.got[0] <= |s.log[1]| && s.got[1] <= |s.log[0]|
  }

  /** A peer that has reported a desync stops; the second half of a tick follows the first. */
  predicate Enabled<S>(s: Pair<S>, a: Action)
    requires Shape(s)
  {
    s.peer[a.who].status != Desync && (a.Advance? ==> Given(s.peer[a.who]))
  }

  function InFlightTo<S>(s: Pair<S>, who: Side): seq<Msg>
    requires Shape(s)
  {
    s.log[1 - who][s.got[who]..]
  }

  function Arrived<S>(s: Pair<S>, a: Action): nat
    requires Shape(s) && a.Advance?
  {
    if a.arriving <= |InFlightTo(s, a.who)| then s.got[a.who] + a.arriving else |s.log[1 - a.who]|
  }

  function Outcome<S>(w: World<S>, s: Pair<S>, a: Action): Turn<S>
    requires TwoSided(w) && Shape(s)
  {
    var p := s.peer[a.who];
    if a.Give? then SendInput(p, w.input[a.who](p.frame), true)
    else RecvAndAdvance(w.core[a.who], p, Link(s.log[1 - a.who][s.got[a.who]..Arrived(s, a)], true, true))
  }

  /** How much of what the other peer sent this peer has taken afterwards. */
  function GotAfter<S>(w: World<S>, s: Pair<S>, a: Action): nat
    requires TwoSided(w) && Shape(s)
  {
    if a.Give? || |Outcome(w, s, a).left| > Arrived(s, a) then s.got[a.who] else Arrived(s, a) - |Outcome(w, s, a).left|
  }

  function Step<S>(w: World<S>, s: Pair<S>, a: Action): (s': Pair<S>)
    requires TwoSided(w) && Shape(s)
    ensures Shape(s')
  {
    if !Enabled(s, a) then s
    else
      Pair(s.peer[a.who := Outcome(w, s, a).session],
           s.log[a.who := s.log[a.who] + Outcome(w, s, a).sent],
           s.got[a.who := GotAfter(w, s, a)])
  }

  function Run<S>(w: World<S>, s: Pair<S>, actions: seq<Action>): (s': Pair<S>)
    requires TwoSided(w) && Shape(s)
    ensures Shape(s')
    decreases |actions|
  {
    if actions == [] then s
    else Step(w, Run(w, s, actions[..|actions| - 1]), actions[|actions| - 1])
  }

  function Fresh<S>(w: World<S>, i: Side): Session<S>
    requires TwoSided(w)
  {
    Session(i, w.delay, 0, Status.Ok, w.start[i], map[], map[], map[], map[])
  }

  /** Both peers just after the handshake. */
  function Start<S>(w: World<S>): (s: Pair<S>)
    requires TwoSided(w)
    ensures Shape(s)
  {
    Pair([Fresh(w, 0), Fresh(w, 1)], [[], []], [0, 0])
  }

  ghost predicate Reachable<S>(w: World<S>, s: Pair<S>)
    requires TwoSided(w)
  {
    exists actions: seq<Action> :: s == Run(w, Start(w), actions)
  }

  // ----- the invariant of the pair -----

  function Taken<S>(s: Pair<S>, i: Side): seq<Msg>
    requires Shape(s)
  {
    s.log[1 - i][..s.got[i]]
  }

  ghost predicate LogOk<S>(w: World<S>, i: Side, p: Session<S>, log: seq<Msg>)
    requires TwoSided(w)
  {
    Ordered(w, i, log) && SentUpTo(w, i, log, p.frame, Given(p)) && (p.status == Desync ==> Given(p))
  }

  ghost predicate SideOk<S>(w: World<S>, s: Pair<S>, i: Side)
    requires TwoSided(w) && Shape(s)
  {
    && PeerOk(w, i, s.peer[i], Taken(s, i)) && LogOk(w, i, s.peer[i], s.log[i])
    && s.peer[i].frame <= s.peer[1 - i].frame + w.delay + 1
  }

  /** One half-tick: what it does to its own peer and to its own log. */
  lemma OutcomeOk<S>(w: World<S>, s: Pair<S>, a: Action)
    requires TwoSided(w) && Shape(s) && Enabled(s, a) && SideOk(w, s, a.who) && SideOk(w, s, 1 - a.who)
    ensures var turn, n := Outcome(w, s, a), GotAfter(w, s, a);
      && n <= |s.log[1 - a.who]|
      && PeerOk(w, a.who, turn.session, s.log[1 - a.who][..n])
      && LogOk(w, a.who, turn.session, s.log[a.who] + turn.sent)
      && s.peer[a.who].frame <= turn.session.frame <= s.peer[1 - a.who].frame + w.delay + 1
  {
    hide PeerOk, Ordered, SentUpTo, RecvAndAdvance, SendInput;
    var i := a.who;
    var p, log := s.peer[i], s.log[i];
    if a.Give? {
      GiveOk(w, i, p, Taken(s, i), log);
    } else {
      AdvanceOk(w, i, p, s.log[1 - i], s.got[i], Arrived(s, a), log, s.peer[1 - i].frame, Given(s.peer[1 - i]));
    }
  }

  lemma AdvanceOk<S>(w: World<S>, i: Side, p: Session<S>, incoming: seq<Msg>, k: nat, n: nat, log: seq<Msg>, other: nat,
                     given: bool)
    requires TwoSided(w) && k <= n <= |incoming| && p.status != Desync && Given(p)
    requires Ordered(w, 1 - i, incoming) && SentUpTo(w, 1 - i, incoming, other, given)
    requires PeerOk(w, i, p, incoming[..k]) && LogOk(w, i, p, log) && p.frame <= other + w.delay + 1
    ensures var turn := RecvAndAdvance(w.core[i], p, Link(incoming[k..n], true, true));
      && |turn.left| <= n - k
      && PeerOk(w, i, turn.session, incoming[..n - |turn.left|])
      && LogOk(w, i, turn.session, log + turn.sent)
      && p.frame <= turn.session.frame <= other + w.delay + 1
  {
    hide Await, Complete, Running, Ordered, NonePassed, Caught, SentUpTo, PeerOk;
    PeerRunning(w, i, p, incoming[..k]);
    AwaitOk(w, i, p, incoming, k, n);
    var (q, left) := Await(p, incoming[k..n]);
    PeerMoved(w, i, p, q, incoming[..k], incoming[..n - |left|]);
    if Starved(q) {
      assert log + [] == log;
      WaitOk(w, i, q, incoming[..n - |left|]);
    } else {
      OrderedPrefix(w, 1 - i, incoming, n - |left|);
      NotTooFar(w, i, q, incoming, n - |left|, other, given);
      CompletedOk(w, i, q, incoming[..n - |left|], log);
    }
  }

  lemma PeerRunning<S>(w: World<S>, i: Side, p: Session<S>, taken: seq<Msg>)
    requires TwoSided(w) && PeerOk(w, i, p, taken) && p.status != Desync
    ensures Running(w, i, p, taken) && p.delay == w.delay && p.status != Disconnected
  {
  }

  lemma PeerMoved<S>(w: World<S>, i: Side, p: Session<S>, q: Session<S>, taken: seq<Msg>, taken': seq<Msg>)
    requires TwoSided(w) && PeerOk(w, i, p, taken) && p.status != Desync
    requires q == p.(remotePending := q.remotePending, peerCrc := q.peerCrc) && Running(w, i, q, taken')
    ensures PeerOk(w, i, q, taken')
  {
    hide Running, NonePassed, Caught;
  }

  lemma CompletedOk<S>(w: World<S>, i: Side, p: Session<S>, taken: seq<Msg>, log: seq<Msg>)
    requires TwoSided(w) && PeerOk(w, i, p, taken) && p.status != Desync && Ordered(w, 1 - i, taken)
    requires Given(p) && !Starved(p) && Ordered(w, i, log) && SentUpTo(w, i, log, p.frame, true)
    ensures var (q, sent) := Complete(w.core[i], p, true);
      PeerOk(w, i, q, taken) && LogOk(w, i, q, log + sent) && p.frame <= q.frame <= p.frame + 1
  {
    hide Complete, Running, Ordered, NonePassed, Caught, SentUpTo, PeerOk;
    CompleteOk(w, i, p, taken);
    ReportOk(w, i, p.frame, log);
  }

  ghost predicate PairOk<S>(w: World<S>, s: Pair<S>)
    requires TwoSided(w)
  {
    Shape(s) && SideOk(w, s, 0) && SideOk(w, s, 1)
  }

  /** Every half-tick of either peer keeps the invariant. */
  lemma StepOk<S>(w: World<S>, s: Pair<S>, a: Action)
    requires TwoSided(w) && PairOk(w, s)
    ensures PairOk(w, Step(w, s, a))
    ensures forall i: Side :: s.peer[i].frame <= Step(w, s, a).peer[i].frame
  {
    hide PeerOk, LogOk, Outcome, GotAfter;
    if Enabled(s, a) {
      OutcomeOk(w, s, a);
      var s' := Step(w, s, a);
      assert Taken(s', a.who) == s.log[1 - a.who][..s'.got[a.who]];
      assert Taken(s', 1 - a.who) == Taken(s, 1 - a.who);
    }
  }

  lemma {:induction false} RunOk<S>(w: World<S>, actions: seq<Action>)
    requires TwoSided(w)
    ensures PairOk(w, Run(w, Start(w), actions))
    decreases |actions|
  {
    hide Step;
    if actions == [] {
      StartOk(w);
    } else {
      RunOk(w, actions[..|actions| - 1]);
      StepOk(w, Run(w, Start(w), actions[..|actions| - 1]), actions[|actions| - 1]);
    }
  }

  lemma StartOk<S>(w: World<S>)
    requires TwoSided(w)
    ensures PairOk(w, Start(w))
  {
    hide CrcAt, Canon;
  }

  lemma ReachableOk<S>(w: World<S>, s: Pair<S>, i: Side)
    requires TwoSided(w) && Reachable(w, s)
    ensures PairOk(w, s) && PeerOk(w, i, s.peer[i], Taken(s, i)) && LogOk(w, i, s.peer[i], s.log[i])
    ensures s.peer[i].frame <= s.peer[1 - i].frame + w.delay + 1
  {
    hide PeerOk, LogOk, Run;
    var actions :| s == Run(w, Start(w), actions);
    RunOk(w, actions);
    assert SideOk(w, s, i);
  }

  // ----- main results -----

  /** Agreement: under every interleaving, with any time-outs and retries, a peer that has not
      reported a desync holds the canonical state of its frame. */
  lemma PeersFollowCanon<S>(w: World<S>, s: Pair<S>, i: Side)
    requires TwoSided(w) && Reachable(w, s) && Shape(s)
    ensures s.peer[i].status != Desync ==> s.peer[i].state == State(w, i, s.peer[i].frame)
  {
    ReachableOk(w, s, i);
  }

  lemma {:induction false} SameMachinesSameStates<S>(w: World<S>, n: nat)
    requires TwoSided(w) && w.core[0] == w.core[1] && w.start[0] == w.start[1]
    ensures State(w, 0, n) == State(w, 1, n)
  {
    if n > 0 { SameMachinesSameStates(w, n - 1); }
  }

  /** Equal machines never report a desync, and at equal frames they hold equal states. */
  lemma SameMachinesAgree<S>(w: World<S>, s: Pair<S>)
    requires TwoSided(w) && Reachable(w, s) && Shape(s)
    requires w.core[0] == w.core[1] && w.start[0] == w.start[1]
    ensures s.peer[0].status != Desync && s.peer[1].status != Desync
    ensures s.peer[0].frame == s.peer[1].frame ==> s.peer[0].state == s.peer[1].state
  {
    forall f: nat ensures !DiffersAt(w, f) { SameMachinesSameStates(w, f + 1); }
    ReachableOk(w, s, 0);
    ReachableOk(w, s, 1);
    SameMachinesSameStates(w, s.peer[0].frame);
  }

  /** Skew: the peers' frames are never more than the input delay plus one apart. */
  lemma SkewIsBounded<S>(w: World<S>, s: Pair<S>)
    requires TwoSided(w) && Reachable(w, s) && Shape(s)
    ensures -(w.delay + 1) <= s.peer[0].frame - s.peer[1].frame <= w.delay + 1
  {
    ReachableOk(w, s, 0);
    ReachableOk(w, s, 1);
  }

  /** What a frame needs is in flight or held when the other peer is not behind. */
  lemma NeededInputWasSent<S>(w: World<S>, s: Pair<S>, who: Side)
    requires TwoSided(w) && PairOk(w, s) && s.peer[who].frame <= s.peer[1 - who].frame
    requires s.peer[who].frame < s.peer[1 - who].frame || s.peer[1 - who].status == Desync || Given(s.peer[1 - who])
    ensures s.peer[who].frame >= w.delay ==> InputIn(w, 1 - who, s.peer[who].frame, s.log[1 - who])
  {
    hide CrcAt, Canon, PeerOk, Ordered;
    assert SideOk(w, s, 1 - who);
  }

  /** No deadlock: when what is in flight arrives, a peer that has given its input and is not ahead
      completes its frame, by running it or by reporting a desync; only at equal frames must the
      other peer have given its input too. */
  lemma TrailingPeerCompletes<S>(w: World<S>, s: Pair<S>, who: Side)
    requires TwoSided(w) && PairOk(w, s) && s.peer[who].frame <= s.peer[1 - who].frame
    requires s.peer[who].status != Desync && Given(s.peer[who])
    requires s.peer[who].frame < s.peer[1 - who].frame || s.peer[1 - who].status == Desync || Given(s.peer[1 - who])
    ensures var q := Step(w, s, Advance(who, |InFlightTo(s, who)|)).peer[who];
      q.status == Desync || q.frame == s.peer[who].frame + 1
  {
    hide CrcAt, Canon, State, Running, Ordered, SentUpTo, Caught, NonePassed, Complete, Await;
    assert SideOk(w, s, who) && SideOk(w, s, 1 - who);
    var i, p, incoming := who, s.peer[who], s.log[1 - who];
    NeededInputWasSent(w, s, who);
    AwaitOk(w, i, p, incoming, s.got[i], |incoming|);
    var (q, left) := Await(p, incoming[s.got[i]..|incoming|]);
    PeerMoved(w, i, p, q, Taken(s, i), incoming[..|incoming| - |left|]);
    EverythingTaken(w, i, q, incoming, left);
    OrderedPrefix(w, 1 - i, incoming, |incoming| - |left|);
    CompleteOk(w, i, q, incoming[..|incoming| - |left|]);
  }

  lemma EverythingTaken<S>(w: World<S>, i: Side, q: Session<S>, incoming: seq<Msg>, left: seq<Msg>)
    requires TwoSided(w) && |left| <= |incoming| && q.delay == w.delay
    requires Running(w, i, q, incoming[..|incoming| - |left|]) && (Starved(q) ==> left == [])
    requires q.frame >= w.delay ==> InputIn(w, 1 - i, q.frame, incoming)
    ensures !Starved(q)
  {
    hide CrcAt, Canon, State;
    assert incoming[..|incoming|] == incoming;
  }

  /** Inside the window a difference stops the match: when the checksums of frame `f` differ, no peer
      ever gets past frame `f + delay + 1`. */
  lemma DivergenceStopsTheMatch<S>(w: World<S>, s: Pair<S>, i: Side, f: nat)
    requires TwoSided(w) && Reachable(w, s) && Shape(s)
    requires w.delay <= 2 * CHECKSUM_EVERY && DiffersAt(w, f)
    ensures s.peer[i].frame <= f + w.delay + 1
  {
    ReachableOk(w, s, i);
  }

  /** So a peer that completes the comparison of frame `f + delay + 1` reports the desync there. */
  lemma DivergenceIsReported<S>(w: World<S>, s: Pair<S>, a: Action, f: nat)
    requires TwoSided(w) && Reachable(w, s) && Shape(s) && Enabled(s, a) && a.Advance?
    requires w.delay <= 2 * CHECKSUM_EVERY && DiffersAt(w, f)
    requires s.peer[a.who].frame == f + w.delay + 1 && Step(w, s, a).peer[a.who].status != Waiting
    ensures Step(w, s, a).peer[a.who].status == Desync
  {
    hide Step, DiffersAt, Running;
    ReachableOk(w, s, a.who);
    ReachableSteps(w, s, a);
    DivergenceStopsTheMatch(w, Step(w, s, a), a.who, f);
    AdvanceMoves(w, s, a);
  }

  lemma ReachableSteps<S>(w: World<S>, s: Pair<S>, a: Action)
    requires TwoSided(w) && Reachable(w, s) && Shape(s)
    ensures Reachable(w, Step(w, s, a))
  {
    hide Step;
    var actions :| s == Run(w, Start(w), actions);
    assert (actions + [a])[..|actions + [a]| - 1] == actions;
    assert Run(w, Start(w), actions + [a]) == Step(w, s, a);
  }

  /** A receive that neither times out nor reports a desync has run the frame. */
  lemma AdvanceMoves<S>(w: World<S>, s: Pair<S>, a: Action)
    requires TwoSided(w) && PairOk(w, s) && Enabled(s, a) && a.Advance?
    ensures var q := Step(w, s, a).peer[a.who];
      q.status == Waiting || q.status == Desync || q.frame == s.peer[a.who].frame + 1
  {
    hide CrcAt, Canon, State, Running, Ordered, SentUpTo, Caught, NonePassed, Complete, Await;
    assert SideOk(w, s, a.who) && SideOk(w, s, 1 - a.who);
    var i, p, incoming, n := a.who, s.peer[a.who], s.log[1 - a.who], Arrived(s, a);
    AwaitOk(w, i, p, incoming, s.got[i], n);
    var (q, left) := Await(p, incoming[s.got[i]..n]);
    PeerMoved(w, i, p, q, Taken(s, i), incoming[..n - |left|]);
    if !Starved(q) {
      OrderedPrefix(w, 1 - i, incoming, n - |left|);
      CompleteOk(w, i, q, incoming[..n - |left|]);
    }
  }

  /** Outside the window nothing is ever reported: with a longer delay the own checksum is pruned
      before the other one can be taken, however the machines differ. */
  lemma LongDelayHidesDivergence<S>(w: World<S>, s: Pair<S>, i: Side)
    requires TwoSided(w) && Reachable(w, s) && Shape(s) && w.delay > 2 * CHECKSUM_EVERY
    ensures s.peer[i].status != Desync
  {
    ReachableOk(w, s, i);
  }

  /** A reported desync is a real one, and it was old enough to have made the round trip. */
  lemma DesyncIsReal<S>(w: World<S>, s: Pair<S>, i: Side)
    requires TwoSided(w) && Reachable(w, s) && Shape(s) && s.peer[i].status == Desync
    ensures exists f: nat :: f + w.delay < s.peer[i].frame && DiffersAt(w, f)
  {
    ReachableOk(w, s, i);
  }

  // ----- a schedule that always moves on -----

  function DeliverAll<S>(w: World<S>, s: Pair<S>, who: Side): Pair<S>
    requires TwoSided(w) && Shape(s)
  {
    Step(w, s, Advance(who, |InFlightTo(s, who)|))
  }

  /** Both players give an input, then each receives whatever is in flight. */
  function Round<S>(w: World<S>, s: Pair<S>): (s': Pair<S>)
    requires TwoSided(w) && Shape(s)
    ensures Shape(s')
  {
    DeliverAll(w, DeliverAll(w, Step(w, Step(w, s, Give(0)), Give(1)), 0), 1)
  }

  function Rounds<S>(w: World<S>, s: Pair<S>, n: nat): (s': Pair<S>)
    requires TwoSided(w) && Shape(s)
    ensures Shape(s')
    decreases n
  {
    if n == 0 then s else Round(w, Rounds(w, s, n - 1))
  }

  lemma GiveGives<S>(w: World<S>, s: Pair<S>, who: Side)
    requires TwoSided(w) && PairOk(w, s) && s.peer[who].status != Desync
    ensures var s' := Step(w, s, Give(who));
      && PairOk(w, s') && s'.peer[1 - who] == s.peer[1 - who]
      && Given(s'.peer[who]) && s'.peer[who].frame == s.peer[who].frame && s'.peer[who].status == s.peer[who].status
  {
    hide LogOk, PeerOk, RecvAndAdvance, GotAfter;
    StepOk(w, s, Give(who));
    assert SideOk(w, s, who);
    PeerPlace(w, who, s.peer[who], Taken(s, who));
  }

  lemma PeerPlace<S>(w: World<S>, i: Side, p: Session<S>, taken: seq<Msg>)
    requires TwoSided(w) && PeerOk(w, i, p, taken)
    ensures p.delay == w.delay && p.status != Disconnected
  {
  }

  /** Either the match ends with a desync, or each round both peers have passed one more frame. */
  lemma RoundAdvances<S>(w: World<S>, s: Pair<S>, n: nat)
    requires TwoSided(w) && PairOk(w, s) && s.peer[0].frame >= n && s.peer[1].frame >= n
    requires s.peer[0].status != Desync && s.peer[1].status != Desync
    ensures var s' := Round(w, s);
      && PairOk(w, s')
      && (s'.peer[0].status == Desync || s'.peer[1].status == Desync
          || (s'.peer[0].frame >= n + 1 && s'.peer[1].frame >= n + 1))
  {
    assert Shape(s);
    hide PairOk, Step;
    var a := Step(w, s, Give(0));
    GiveGives(w, s, 0);
    var b := Step(w, a, Give(1));
    GiveGives(w, a, 1);
    StepOk(w, b, Advance(0, |InFlightTo(b, 0)|));
    OtherUntouched(w, b, Advance(0, |InFlightTo(b, 0)|));
    if b.peer[0].frame <= b.peer[1].frame { TrailingPeerCompletes(w, b, 0); }
    var c := DeliverAll(w, b, 0);
    StepOk(w, c, Advance(1, |InFlightTo(c, 1)|));
    OtherUntouched(w, c, Advance(1, |InFlightTo(c, 1)|));
    if c.peer[1].frame < c.peer[0].frame || (c.peer[1].frame == c.peer[0].frame && Given(c.peer[0])) {
      TrailingPeerCompletes(w, c, 1);
    }
  }

  lemma OtherUntouched<S>(w: World<S>, s: Pair<S>, a: Action)
    requires TwoSided(w) && Shape(s)
    ensures Step(w, s, a).peer[1 - a.who] == s.peer[1 - a.who]
  {
  }

  predicate Stopped<S>(s: Pair<S>)
    requires Shape(s)
  {
    s.peer[0].status == Desync || s.peer[1].status == Desync
  }

  lemma StoppedStays<S>(w: World<S>, s: Pair<S>, a: Action)
    requires TwoSided(w) && Shape(s)
    ensures Stopped(s) ==> Stopped(Step(w, s, a))
  {
    OtherUntouched(w, s, a);
    hide Step;
    if !Enabled(s, a) { SkipStep(w, s, a); }
  }

  lemma SkipStep<S>(w: World<S>, s: Pair<S>, a: Action)
    requires TwoSided(w) && Shape(s) && !Enabled(s, a)
    ensures Step(w, s, a) == s
  {
  }

  lemma {:induction false} RoundsRunOrStop<S>(w: World<S>, n: nat)
    requires TwoSided(w)
    ensures var s := Rounds(w, Start(w), n);
      Reachable(w, s) && (Stopped(s) || (s.peer[0].frame >= n && s.peer[1].frame >= n))
  {
    hide Round, Step;
    if n == 0 {
      assert Start(w) == Run(w, Start(w), []);
    } else {
      RoundsRunOrStop(w, n - 1);
      var s := Rounds(w, Start(w), n - 1);
      RoundReachable(w, s);
      if !Stopped(s) {
        ReachableOk(w, s, 0);
        RoundAdvances(w, s, n - 1);
      }
    }
  }

  /** Liveness: equal machines run as many frames as there are rounds. */
  lemma RoundsComplete<S>(w: World<S>, n: nat)
    requires TwoSided(w) && w.core[0] == w.core[1] && w.start[0] == w.start[1]
    ensures var s := Rounds(w, Start(w), n);
      s.peer[0].frame >= n && s.peer[1].frame >= n
  {
    hide Rounds;
    RoundsRunOrStop(w, n);
    SameMachinesAgree(w, Rounds(w, Start(w), n));
  }

  /** And machines whose checksums of frame `f` differ are stopped after `f + delay + 2` rounds. */
  lemma RoundsCatchDivergence<S>(w: World<S>, f: nat)
    requires TwoSided(w) && w.delay <= 2 * CHECKSUM_EVERY && DiffersAt(w, f)
    ensures Stopped(Rounds(w, Start(w), f + w.delay + 2))
  {
    hide Rounds, DiffersAt;
    RoundsRunOrStop(w, f + w.delay + 2);
    DivergenceStopsTheMatch(w, Rounds(w, Start(w), f + w.delay + 2), 0, f);
  }

  lemma RoundReachable<S>(w: World<S>, s: Pair<S>)
    requires TwoSided(w) && Reachable(w, s) && Shape(s)
    ensures Reachable(w, Round(w, s)) && (Stopped(s) ==> Stopped(Round(w, s)))
  {
    hide Step, Reachable, Stopped;
    StoppedStays(w, s, Give(0));
    StoppedStays(w, Step(w, s, Give(0)), Give(1));
    ReachableSteps(w, s, Give(0));
    var a := Step(w, s, Give(0));
    ReachableSteps(w, a, Give(1));
    var b := Step(w, a, Give(1));
    StoppedStays(w, b, Advance(0, |InFlightTo(b, 0)|));
    ReachableSteps(w, b, Advance(0, |InFlightTo(b, 0)|));
    var c := DeliverAll(w, b, 0);
    StoppedStays(w, c, Advance(1, |InFlightTo(c, 1)|));
    ReachableSteps(w, c, Advance(1, |InFlightTo(c, 1)|));
  }
}
