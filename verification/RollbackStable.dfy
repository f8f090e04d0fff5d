/** Two rollback sessions whose players may give any input at every tick, also another one when a
    stalled frame is retried: when the pair converges and how it fails to (src/net/RollbackSession.cpp). */
module RollbackStable {
  import opened Abi
  import opened NetMessages
  import opened RollbackModel
  import opened RollbackProofs
  import opened RollbackPeers

  /** A tick and the input its player gives to it. */
  datatype Given = Given(action: Action, now: InputState)

  function Opening<S>(start: S, maxPrediction: nat): (s: Pair<S>)
    ensures Shape(s)
  {
    Pair([Fresh(0, maxPrediction, start), Fresh(1, maxPrediction, start)], [[], []], [0, 0])
  }

  function FreeRun<S>(c: Core<S>, s: Pair<S>, gs: seq<Given>): (s': Pair<S>)
    requires Shape(s)
    ensures Shape(s')
    decreases |gs|
  {
    if gs == [] then s
    else
      var last := gs[|gs| - 1];
      StepWith(c, FreeRun(c, s, gs[..|gs| - 1]), last.action, last.now)
  }

  /** The frame that tick `k` of a run is at. */
  function FrameAt<S>(c: Core<S>, s: Pair<S>, gs: seq<Given>, k: nat): nat
    requires Shape(s) && k < |gs|
  {
    FreeRun(c, s, gs[..k]).peer[gs[k].action.who].frame
  }

  /** Every retry of a frame gives the input given before. */
  ghost predicate Repeats<S>(c: Core<S>, s: Pair<S>, gs: seq<Given>)
    requires Shape(s)
  {
    forall j, k | 0 <= j < k < |gs| && gs[j].action.who == gs[k].action.who
        && FrameAt(c, s, gs, j) == FrameAt(c, s, gs, k) ::
      gs[j].now == gs[k].now
  }

  // ----- runs that repeat their inputs -----

  /** The input that player `who` last gave for frame `f`. */
  function InputGiven<S>(c: Core<S>, s: Pair<S>, gs: seq<Given>, who: Side, f: nat): InputState
    requires Shape(s)
    decreases |gs|
  {
    if gs == [] then Neutral()
    else
      var k := |gs| - 1;
      if gs[k].action.who == who && FrameAt(c, s, gs, k) == f then gs[k].now
      else InputGiven(c, s, gs[..k], who, f)
  }

  function Record<S>(c: Core<S>, start: S, maxPrediction: nat, gs: seq<Given>): World<S> {
    World(c, start, (f: nat) => InputGiven(c, Opening(start, maxPrediction), gs, 0, f),
          (f: nat) => InputGiven(c, Opening(start, maxPrediction), gs, 1, f))
  }

  function Actions(gs: seq<Given>): (r: seq<Action>)
    ensures |r| == |gs|
  {
    if gs == [] then [] else Actions(gs[..|gs| - 1]) + [gs[|gs| - 1].action]
  }

  lemma RepeatsOnPrefix<S>(c: Core<S>, s: Pair<S>, gs: seq<Given>, n: nat)
    requires Shape(s) && n <= |gs| && Repeats(c, s, gs)
    ensures Repeats(c, s, gs[..n])
  {
    hide FreeRun;
    forall j, k | 0 <= j < k < n && gs[j].action.who == gs[k].action.who
        && FrameAt(c, s, gs[..n], j) == FrameAt(c, s, gs[..n], k)
      ensures gs[j].now == gs[k].now
    {
      assert gs[..n][..j] == gs[..j] && gs[..n][..k] == gs[..k];
    }
  }

  /** The record of a run that repeats its inputs has the input of each of its ticks. */
  lemma {:induction false} RecordHas<S>(c: Core<S>, s: Pair<S>, gs: seq<Given>, k: nat)
    requires Shape(s) && k < |gs| && Repeats(c, s, gs)
    ensures InputGiven(c, s, gs, gs[k].action.who, FrameAt(c, s, gs, k)) == gs[k].now
    decreases |gs|
  {
    hide FreeRun;
    var n := |gs| - 1;
    if k < n {
      RepeatsOnPrefix(c, s, gs, n);
      RecordHas(c, s, gs[..n], k);
      assert gs[..n][..k] == gs[..k];
    }
  }

  lemma {:induction false} PrefixIsWorldRun<S>(c: Core<S>, start: S, maxPrediction: nat, gs: seq<Given>, n: nat)
    requires n <= |gs| && Repeats(c, Opening(start, maxPrediction), gs)
    ensures var w := Record(c, start, maxPrediction, gs);
      FreeRun(c, Opening(start, maxPrediction), gs[..n]) == Run(w, Start(w, maxPrediction), Actions(gs[..n]))
    decreases n
  {
    hide StepWith, InputGiven, FreeRun, Run, Actions, Record;
    var w, s := Record(c, start, maxPrediction, gs), Opening(start, maxPrediction);
    Openings(w, c, start, maxPrediction, gs);
    if n > 0 {
      PrefixIsWorldRun(c, start, maxPrediction, gs, n - 1);
      PrefixSnoc(c, s, gs, n);
      RecordHas(c, s, gs, n - 1);
      RecordInput(c, start, maxPrediction, gs, gs[n - 1].action.who, FrameAt(c, s, gs, n - 1));
      RunSnoc(w, Start(w, maxPrediction), Actions(gs[..n - 1]), gs[n - 1].action);
    }
  }

  lemma Openings<S>(w: World<S>, c: Core<S>, start: S, maxPrediction: nat, gs: seq<Given>)
    requires w == Record(c, start, maxPrediction, gs)
    ensures Start(w, maxPrediction) == Opening(start, maxPrediction) && w.core == c
    ensures FreeRun(c, Opening(start, maxPrediction), gs[..0]) == Opening(start, maxPrediction)
    ensures Run(w, Start(w, maxPrediction), Actions(gs[..0])) == Start(w, maxPrediction)
  {
  }

  lemma PrefixSnoc<S>(c: Core<S>, s: Pair<S>, gs: seq<Given>, n: nat)
    requires Shape(s) && 0 < n <= |gs|
    ensures FreeRun(c, s, gs[..n]) == StepWith(c, FreeRun(c, s, gs[..n - 1]), gs[n - 1].action, gs[n - 1].now)
    ensures Actions(gs[..n]) == Actions(gs[..n - 1]) + [gs[n - 1].action]
  {
    hide StepWith;
    assert gs[..n][..n - 1] == gs[..n - 1] && gs[..n][n - 1] == gs[n - 1];
  }

  lemma RecordInput<S>(c: Core<S>, start: S, maxPrediction: nat, gs: seq<Given>, who: Side, f: nat)
    ensures PlayerInput(Record(c, start, maxPrediction, gs), who, f)
         == InputGiven(c, Opening(start, maxPrediction), gs, who, f)
  {
    hide InputGiven;
  }

  lemma RunSnoc<S>(w: World<S>, s: Pair<S>, actions: seq<Action>, a: Action)
    requires Shape(s)
    ensures Run(w, s, actions + [a]) == Step(w, Run(w, s, actions), a)
  {
    hide Step;
    assert (actions + [a])[..|actions + [a]| - 1] == actions;
  }

  /** Both peers hold a snapshot of frame `v` and have verified it. */
  predicate BothVerified<S>(s: Pair<S>, v: nat)
    requires Shape(s)
  {
    v in s.peer[0].ring && v in s.peer[1].ring && v <= s.peer[0].verified && v <= s.peer[1].verified
  }

  /** When every retry repeats its input the pair converges, whatever else the players give. */
  lemma RepeatedInputsConverge<S(!new)>(c: Core<S>, start: S, maxPrediction: nat, gs: seq<Given>, v: nat)
    requires Exact(c) && maxPrediction >= 1 && Repeats(c, Opening(start, maxPrediction), gs)
    ensures var s := FreeRun(c, Opening(start, maxPrediction), gs);
      BothVerified(s, v) ==> s.peer[0].ring[v] == s.peer[1].ring[v]
  {
    hide FreeRun, Run;
    var w := Record(c, start, maxPrediction, gs);
    PrefixIsWorldRun(c, start, maxPrediction, gs, |gs|);
    assert gs[..|gs|] == gs;
    var s := FreeRun(c, Opening(start, maxPrediction), gs);
    assert Reachable(w, s);
    PeersConverge(w, s, v);
  }

  // ----- a retry that gives another input -----

  /** What a tick that takes everything in flight does to the numbers and the log of its peer. */
  lemma TickNumbers<S(!new)>(w: World<S>, s: Pair<S>, who: Side)
    requires Exact(w.core) && PairOk(w, s) && |InFlightTo(s, who)| <= 9
    ensures var p, s' := s.peer[who], Step(w, s, Tick(who, 9));
      var h := High(ConfirmedOf(p), InFlightTo(s, who));
      && PairOk(w, s')
      && s'.peer[1 - who] == s.peer[1 - who] && s'.log[1 - who] == s.log[1 - who] && s'.got[1 - who] == s.got[1 - who]
      && s'.got[who] == |s.log[1 - who]|
      && ConfirmedOf(s'.peer[who]) == h && s'.peer[who].maxPrediction == p.maxPrediction
      && s'.peer[who].frame == (if h.None? || p.frame <= h.value + p.maxPrediction then p.frame + 1 else p.frame)
      && s'.peer[who].verified
           == (if h.Some? && p.frame > 0 then (if h.value + 1 < p.frame then h.value + 1 else p.frame) else 0)
      && (s'.peer[who].verified < 60 ==> s'.log[who] == s.log[who] + [Input(p.frame, PlayerInput(w, who, p.frame))])
  {
    hide RollbackModel.Tick, RollbackModel.Sent, Trimmed, Coherent, Stream, High;
    var a := Tick(who, 9);
    var p, ready := s.peer[who], InFlightTo(s, who);
    assert SideOk(w, s, who);
    EverythingArrives(w, s, who);
    assert Ready(s, a) == ready;
    StepOk(w, s, a);
    StepMoves(w, s, a);
    TickCoherent(w, p, ready);
    TickVerifies(w, p, ready);
    TickRunsInsideWindow(w, p, ready);
    EarlyTicksSendNoChecksum(w, p, ready);
  }

  lemma EarlyTicksSendNoChecksum<S(!new)>(w: World<S>, p: Session<S>, ready: seq<Msg>)
    requires Exact(w.core) && Coherent(w, p) && Stream(w, 1 - p.port, ConfirmedOf(p), ready) && p.status != Disconnected
    ensures var now := PlayerInput(w, p.port, p.frame);
      var quiet := RollbackModel.Tick(w.core, p, now, Up(ready)).verified < 60;
      quiet ==> RollbackModel.Sent(w.core, p, now, Up(ready)) == [Input(p.frame, now)]
  {
    hide Reconciled, Simulate, Stalls, Coherent, Stream, RollbackModel.Tick, RollbackModel.Sent;
    TickCases(w, p, ready);
    var now := PlayerInput(w, p.port, p.frame);
    var r := Reconciled(w.core, p, now, ready);
    var s := if Stalls(r) then r else Simulate(w.core, r, now);
    FinishFrame(s, if Stalls(r) then Stalled else Status.Ok);
  }

  /** The order of the ticks: the host stalls at frame 2 with its third tick there, the join peer
      runs four frames, then the host retries and runs on. */
  const WHO: seq<Side> := [0, 1, 0, 0, 1, 1, 1, 0, 0]

  /** The first `n` of these ticks, each taking everything in flight. */
  function Nine<S>(w: World<S>, n: nat): (s: Pair<S>)
    requires n <= 9
    ensures Shape(s)
  {
    if n == 0 then Start(w, 1) else Step(w, Nine(w, n - 1), Tick(WHO[n - 1], 9))
  }

  function Schedule(n: nat): seq<Action>
    requires n <= 9
  {
    if n == 0 then [] else Schedule(n - 1) + [Tick(WHO[n - 1], 9)]
  }

  lemma {:induction false} NineReachable<S>(w: World<S>, n: nat)
    requires n <= 9
    ensures Nine(w, n) == Run(w, Start(w, 1), Schedule(n))
    ensures Reachable(w, Nine(w, n))
  {
    hide Step;
    if n > 0 {
      NineReachable(w, n - 1);
      RunSnoc(w, Start(w, 1), Schedule(n - 1), Tick(WHO[n - 1], 9));
    }
  }

  /** What each peer sends in the course of these ticks. */
  function HostLog<S>(w: World<S>): seq<Msg> {
    [Input(0, w.input0(0)), Input(1, w.input0(1)), Input(2, w.input0(2)), Input(2, w.input0(2)), Input(3, w.input0(3))]
  }

  function JoinLog<S>(w: World<S>): seq<Msg> {
    [Input(0, w.input1(0)), Input(1, w.input1(1)), Input(2, w.input1(2)), Input(3, w.input1(3))]
  }

  /** Frame, verified mark, highest input taken, messages sent and messages taken of one peer. */
  datatype Numbers = Numbers(frame: nat, verified: nat, high: Option<nat>, sent: nat, taken: nat)

  predicate Has<S>(s: Pair<S>, i: Side, log: seq<Msg>, n: Numbers)
    requires Shape(s)
  {
    && n.sent <= |log| && s.log[i] == log[..n.sent] && s.got[i] == n.taken
    && s.peer[i].frame == n.frame && s.peer[i].verified == n.verified && ConfirmedOf(s.peer[i]) == n.high
    && s.peer[i].maxPrediction == 1
  }

  ghost predicate At<S>(w: World<S>, s: Pair<S>, host: Numbers, join: Numbers) {
    PairOk(w, s) && Has(s, 0, HostLog(w), host) && Has(s, 1, JoinLog(w), join)
  }

  lemma HighSome(o: Option<nat>, m: Msg)
    ensures High(o, []) == o && High(o, [m]) == Raise(o, m)
  {
    assert [m][1..] == [];
  }

  lemma HighRaise(o: Option<nat>, a: Msg, b: Msg, c: Msg)
    ensures High(o, [a, b]) == Raise(Raise(o, a), b)
    ensures High(o, [a, b, c]) == Raise(Raise(Raise(o, a), b), c)
  {
    hide Raise;
    assert [a, b][1..] == [b] && [a, b, c][1..] == [b, c] && [b, c][1..] == [c] && [c][1..] == [] && [b][1..] == [];
    HighSome(o, a);
    HighSome(Raise(o, a), b);
    HighSome(Raise(Raise(o, a), b), c);
  }

  /** One tick of a run whose numbers are known. */
  lemma Ticked<S(!new)>(w: World<S>, s: Pair<S>, who: Side, mine: Numbers, theirs: Numbers, mine': Numbers)
    requires Exact(w.core) && PairOk(w, s)
    requires var log, other := if who == 0 then HostLog(w) else JoinLog(w), if who == 0 then JoinLog(w) else HostLog(w);
      && Has(s, who, log, mine) && Has(s, 1 - who, other, theirs) && mine.taken <= theirs.sent
      && mine'.high == High(mine.high, other[mine.taken..theirs.sent])
      && mine'.taken == theirs.sent && mine'.sent == mine.sent + 1 <= |log|
      && log[mine.sent] == Input(mine.frame, PlayerInput(w, who, mine.frame))
    requires mine'.frame
          == if mine'.high.None? || mine.frame <= mine'.high.value + 1 then mine.frame + 1 else mine.frame
    requires mine'.verified == (if mine'.high.Some? && mine.frame > 0
                                then (if mine'.high.value + 1 < mine.frame then mine'.high.value + 1 else mine.frame)
                                else 0)
    requires mine'.verified < 60
    ensures var s' := Step(w, s, Tick(who, 9));
      && PairOk(w, s')
      && Has(s', who, if who == 0 then HostLog(w) else JoinLog(w), mine')
      && Has(s', 1 - who, if who == 0 then JoinLog(w) else HostLog(w), theirs)
  {
    hide Step, High, HostLog, JoinLog, SideOk;
    var log, other := if who == 0 then HostLog(w) else JoinLog(w), if who == 0 then JoinLog(w) else HostLog(w);
    assert |HostLog(w)| <= 9 && |JoinLog(w)| <= 9 by { LogSizes(w); }
    assert InFlightTo(s, who) == other[mine.taken..theirs.sent];
    TickNumbers(w, s, who);
    assert log[..mine'.sent] == log[..mine.sent] + [log[mine.sent]];
  }

  lemma LogSizes<S>(w: World<S>)
    ensures |HostLog(w)| == 5 && |JoinLog(w)| == 4
  {
  }

  /** The first three ticks. */
  lemma ThreeTicks<S(!new)>(w: World<S>)
    requires Exact(w.core)
    ensures At(w, Nine(w, 0), Numbers(0, 0, None, 0, 0), Numbers(0, 0, None, 0, 0))
    ensures At(w, Nine(w, 1), Numbers(1, 0, None, 1, 0), Numbers(0, 0, None, 0, 0))
    ensures At(w, Nine(w, 2), Numbers(1, 0, None, 1, 0), Numbers(1, 0, Some(0), 1, 1))
    ensures At(w, Nine(w, 3), Numbers(2, 1, Some(0), 2, 1), Numbers(1, 0, Some(0), 1, 1))
  {
    hide Step, High, SideOk, PairOk;
    var h, j := HostLog(w), JoinLog(w);
    var zero := Numbers(0, 0, None, 0, 0);
    StartOk(w, 1);
    assert Nine(w, 0) == Start(w, 1);
    assert Has(Start(w, 1), 0, h, zero) && Has(Start(w, 1), 1, j, zero);
    assert j[0..0] == [] && h[0..1] == [h[0]] && j[0..1] == [j[0]];
    HighSome(None, h[0]);
    HighSome(None, j[0]);
    Ticked(w, Start(w, 1), 0, zero, zero, Numbers(1, 0, None, 1, 0));
    Ticked(w, Nine(w, 1), 1, zero, Numbers(1, 0, None, 1, 0), Numbers(1, 0, Some(0), 1, 1));
    Ticked(w, Nine(w, 2), 0, Numbers(1, 0, None, 1, 0), Numbers(1, 0, Some(0), 1, 1), Numbers(2, 1, Some(0), 2, 1));
  }

  /** The host stalls at frame 2, the join peer goes on. */
  lemma FiveTicks<S(!new)>(w: World<S>)
    requires Exact(w.core)
    ensures At(w, Nine(w, 4), Numbers(2, 1, Some(0), 3, 1), Numbers(1, 0, Some(0), 1, 1))
    ensures At(w, Nine(w, 5), Numbers(2, 1, Some(0), 3, 1), Numbers(2, 1, Some(2), 2, 3))
  {
    hide Step, High, SideOk, PairOk;
    var h, j := HostLog(w), JoinLog(w);
    var host := Numbers(2, 1, Some(0), 3, 1);
    ThreeTicks(w);
    assert j[1..1] == [] && h[1..3] == [h[1], h[2]];
    HighSome(Some(0), h[0]);
    HighRaise(Some(0), h[1], h[2], h[2]);
    Ticked(w, Nine(w, 3), 0, Numbers(2, 1, Some(0), 2, 1), Numbers(1, 0, Some(0), 1, 1), host);
    Ticked(w, Nine(w, 4), 1, Numbers(1, 0, Some(0), 1, 1), host, Numbers(2, 1, Some(2), 2, 3));
  }

  lemma SevenTicks<S(!new)>(w: World<S>)
    requires Exact(w.core)
    ensures At(w, Nine(w, 4), Numbers(2, 1, Some(0), 3, 1), Numbers(1, 0, Some(0), 1, 1))
    ensures At(w, Nine(w, 5), Numbers(2, 1, Some(0), 3, 1), Numbers(2, 1, Some(2), 2, 3))
    ensures At(w, Nine(w, 6), Numbers(2, 1, Some(0), 3, 1), Numbers(3, 2, Some(2), 3, 3))
    ensures At(w, Nine(w, 7), Numbers(2, 1, Some(0), 3, 1), Numbers(4, 3, Some(2), 4, 3))
  {
    hide Step, High, SideOk, PairOk;
    var h := HostLog(w);
    var host := Numbers(2, 1, Some(0), 3, 1);
    FiveTicks(w);
    assert h[3..3] == [];
    HighSome(Some(2), h[0]);
    Ticked(w, Nine(w, 5), 1, Numbers(2, 1, Some(2), 2, 3), host, Numbers(3, 2, Some(2), 3, 3));
    Ticked(w, Nine(w, 6), 1, Numbers(3, 2, Some(2), 3, 3), host, Numbers(4, 3, Some(2), 4, 3));
  }

  /** The host retries and runs on. */
  lemma NineTicks<S(!new)>(w: World<S>)
    requires Exact(w.core)
    ensures At(w, Nine(w, 8), Numbers(3, 2, Some(3), 4, 4), Numbers(4, 3, Some(2), 4, 3))
    ensures At(w, Nine(w, 9), Numbers(4, 3, Some(3), 5, 4), Numbers(4, 3, Some(2), 4, 3))
  {
    hide Step, High, SideOk, PairOk;
    var h, j := HostLog(w), JoinLog(w);
    var join := Numbers(4, 3, Some(2), 4, 3);
    SevenTicks(w);
    assert j[1..4] == [j[1], j[2], j[3]] && j[4..4] == [];
    HighRaise(Some(0), j[1], j[2], j[3]);
    HighSome(Some(3), j[0]);
    Ticked(w, Nine(w, 7), 0, Numbers(2, 1, Some(0), 3, 1), join, Numbers(3, 2, Some(3), 4, 4));
    Ticked(w, Nine(w, 8), 0, Numbers(3, 2, Some(3), 4, 4), join, Numbers(4, 3, Some(3), 5, 4));
  }

  /** The match in which the host gives `x` at frame 2. */
  function WithHost<S>(w: World<S>, x: InputState): World<S> {
    w.(input0 := (f: nat) => if f == 2 then x else w.input0(f))
  }

  /** The inputs of the nine ticks when the host gives `x` at frame 2 and `y` when it retries. */
  function Now<S>(w: World<S>, x: InputState, y: InputState, k: nat): InputState
    requires k < 9
  {
    [w.input0(0), w.input1(0), w.input0(1), x, w.input1(1), w.input1(2), w.input1(3), y, w.input0(3)][k]
  }

  function ChangedRetry<S>(w: World<S>, x: InputState, y: InputState, n: nat): seq<Given>
    requires n <= 9
  {
    if n == 0 then [] else ChangedRetry(w, x, y, n - 1) + [Given(Tick(WHO[n - 1], 9), Now(w, x, y, n - 1))]
  }

  function Changed<S>(w: World<S>, x: InputState, y: InputState, n: nat): (s: Pair<S>)
    requires n <= 9
    ensures Shape(s)
  {
    FreeRun(w.core, Opening(w.start, 1), ChangedRetry(w, x, y, n))
  }

  lemma ChangedStep<S>(w: World<S>, x: InputState, y: InputState, n: nat)
    requires 0 < n <= 9
    ensures Changed(w, x, y, n) == StepWith(w.core, Changed(w, x, y, n - 1), Tick(WHO[n - 1], 9), Now(w, x, y, n - 1))
    ensures Changed(w, x, y, 0) == Opening(w.start, 1)
  {
    hide StepWith, Now;
    var gs := ChangedRetry(w, x, y, n);
    assert gs[..|gs| - 1] == ChangedRetry(w, x, y, n - 1);
  }

  /** The frame at which each of the first seven ticks finds its peer. */
  lemma FramesBefore<S(!new)>(w: World<S>, k: nat)
    requires Exact(w.core) && k < 9
    ensures Nine(w, k).peer[WHO[k]].frame == [0, 0, 1, 2, 1, 2, 3, 2, 3][k]
  {
    hide Nine, PairOk;
    ThreeTicks(w);
    SevenTicks(w);
    NineTicks(w);
  }

  /** Before the retry the run is one in which the host gives `x` at frame 2. */
  lemma {:induction false} FollowsFirst<S(!new)>(w: World<S>, x: InputState, y: InputState, n: nat)
    requires Exact(w.core) && n <= 7
    ensures Changed(w, x, y, n) == Nine(WithHost(w, x), n)
  {
    hide StepWith, FreeRun, ChangedRetry;
    var v := WithHost(w, x);
    if n == 0 {
      ChangedStep(w, x, y, 1);
    } else {
      FollowsFirst(w, x, y, n - 1);
      ChangedStep(w, x, y, n);
      FramesBefore(v, n - 1);
      assert Now(w, x, y, n - 1) == PlayerInput(v, WHO[n - 1], [0, 0, 1, 2, 1, 2, 3][n - 1]);
    }
  }

  /** Two sessions that differ at most in the local input of frame `f`. */
  ghost predicate SameButLocal<S>(p: Session<S>, q: Session<S>, f: nat, y: InputState) {
    p.(local := p.local[f := y]) == q.(local := q.local[f := y])
  }

  lemma TickOverwritesLocal<S>(c: Core<S>, p: Session<S>, q: Session<S>, y: InputState, ready: seq<Msg>)
    requires SameButLocal(p, q, p.frame, y) && p.status != Disconnected
    ensures RollbackModel.Tick(c, p, y, Up(ready)) == RollbackModel.Tick(c, q, y, Up(ready))
  {
    hide Drain, Reconcile, Simulate, Finish, Stalls;
    assert q.frame == p.frame && q.status == p.status;
  }

  /** A stalled tick with nothing to take: only the recorded local input depends on the input given. */
  lemma StalledTicksAgree<S>(c: Core<S>, p: Session<S>, x: InputState, y: InputState)
    requires p.status != Disconnected && !Reconciles(p) && Stalls(p) && p.verified <= p.frame
    ensures SameButLocal(RollbackModel.Tick(c, p, x, Up([])), RollbackModel.Tick(c, p, y, Up([])), p.frame, y)
    ensures RollbackModel.Tick(c, p, x, Up([])).frame == p.frame
  {
    hide Simulate, Finish;
    var dx, dy := p.(local := p.local[p.frame := x]), p.(local := p.local[p.frame := y]);
    assert RollbackModel.Tick(c, p, x, Up([])) == Finish(dx, Stalled);
    assert RollbackModel.Tick(c, p, y, Up([])) == Finish(dy, Stalled);
    FinishFrame(dx, Stalled);
    FinishFrame(dy, Stalled);
    FloorBelowVerified(p);
    assert Floor(dx) == Floor(p) && Floor(dy) == Floor(p);
    LocalsAgree(p.local, p.frame, x, y, Floor(p));
    var qx, qy := Finish(dx, Stalled), Finish(dy, Stalled);
    assert qx.ring == qy.ring && qx.remote == qy.remote && qx.used == qy.used && qx.ownCrc == qy.ownCrc;
  }

  lemma LocalsAgree(local: map<nat, InputState>, f: nat, x: InputState, y: InputState, floor: nat)
    requires floor <= f
    ensures PruneBelow(local[f := x], floor)[f := y] == PruneBelow(local[f := y], floor)[f := y]
  {
  }

  /** The two matches are alike until the host gives its input at frame 2. */
  lemma {:induction false} AlikeBefore<S(!new)>(w: World<S>, x: InputState, y: InputState, n: nat)
    requires Exact(w.core) && n <= 3
    ensures Nine(WithHost(w, x), n) == Nine(WithHost(w, y), n)
  {
    hide StepWith;
    var vx, vy := WithHost(w, x), WithHost(w, y);
    if n > 0 {
      AlikeBefore(w, x, y, n - 1);
      FramesBefore(vx, n - 1);
      assert PlayerInput(vx, WHO[n - 1], [0, 0, 1][n - 1]) == PlayerInput(vy, WHO[n - 1], [0, 0, 1][n - 1]);
    }
  }

  lemma OthersStay<S>(c: Core<S>, s: Pair<S>, a: Action, now: InputState)
    requires Shape(s)
    ensures var s' := StepWith(c, s, a, now);
      && s'.peer[a.who] == RollbackModel.Tick(c, s.peer[a.who], now, Up(Ready(s, a)))
      && s'.got[a.who] == s.got[a.who] + Arrival(s, a)
      && s'.peer[1 - a.who] == s.peer[1 - a.who] && s'.got[1 - a.who] == s.got[1 - a.who]
      && s'.log[1 - a.who] == s.log[1 - a.who]
  {
  }

  /** After the stalled tick the host is, but for that input, the host that would have given `y`. */
  lemma HostAfterStall<S(!new)>(w: World<S>, x: InputState, y: InputState)
    requires Exact(w.core)
    ensures var p, q := Nine(WithHost(w, x), 4).peer[0], Nine(WithHost(w, y), 4).peer[0];
      SameButLocal(p, q, 2, y) && p.frame == 2 && p.status != Disconnected
  {
    hide StepWith, Nine, RollbackModel.Tick, SideOk, Coherent, Reconciles;
    var vx, vy := WithHost(w, x), WithHost(w, y);
    AlikeBefore(w, x, y, 3);
    ThreeTicks(vx);
    var s := Nine(vx, 3);
    FramesBefore(vx, 3);
    NineStep(vx, 4);
    NineStep(vy, 4);
    var a := Tick(0, 9);
    OthersStay(w.core, s, a, x);
    OthersStay(w.core, s, a, y);
    NothingNew(vx, s);
    StalledTicksAgree(w.core, s.peer[0], x, y);
    SevenTicks(vx);
    HostConnected(vx, Nine(vx, 4));
  }

  lemma NineStep<S>(w: World<S>, n: nat)
    requires 0 < n <= 9
    ensures var s := Nine(w, n - 1);
      Nine(w, n) == StepWith(w.core, s, Tick(WHO[n - 1], 9), PlayerInput(w, WHO[n - 1], s.peer[WHO[n - 1]].frame))
  {
    hide StepWith;
  }

  lemma HostConnected<S>(w: World<S>, s: Pair<S>)
    requires PairOk(w, s)
    ensures s.peer[0].status != Disconnected
  {
    assert SideOk(w, s, 0);
  }

  /** At its stalled tick the host takes nothing and has nothing to reconcile. */
  lemma NothingNew<S>(w: World<S>, s: Pair<S>)
    requires At(w, s, Numbers(2, 1, Some(0), 2, 1), Numbers(1, 0, Some(0), 1, 1))
    ensures var p := s.peer[0];
      && Ready(s, Tick(0, 9)) == [] && p.status != Disconnected && !Reconciles(p) && Stalls(p) && p.verified <= p.frame
  {
    hide Coherent;
    assert SideOk(w, s, 0);
    assert s.log[1] == JoinLog(w)[..1];
  }

  /** While the join peer runs on, the host waits. */
  lemma HostWaits<S>(w: World<S>)
    ensures Nine(w, 7).peer[0] == Nine(w, 4).peer[0]
    ensures Nine(w, 9).peer[1] == Nine(w, 7).peer[1]
  {
    hide Nine;
    NineOther(w, 5);
    NineOther(w, 6);
    NineOther(w, 7);
    NineOther(w, 8);
    NineOther(w, 9);
  }

  lemma NineOther<S>(w: World<S>, n: nat)
    requires 0 < n <= 9
    ensures Nine(w, n).peer[1 - WHO[n - 1]] == Nine(w, n - 1).peer[1 - WHO[n - 1]]
  {
    hide StepWith;
    var s := Nine(w, n - 1);
    NineStep(w, n);
    OthersStay(w.core, s, Tick(WHO[n - 1], 9), PlayerInput(w, WHO[n - 1], s.peer[WHO[n - 1]].frame));
  }

  /** What the join peer has sent does not depend on the host's inputs. */
  lemma SameToHost<S(!new)>(w: World<S>, x: InputState, y: InputState)
    requires Exact(w.core)
    ensures var s, t := Nine(WithHost(w, x), 7), Nine(WithHost(w, y), 7);
      s.log[1] == t.log[1] && s.got[0] == t.got[0]
  {
    hide Nine, PairOk;
    SevenTicks(WithHost(w, x));
    SevenTicks(WithHost(w, y));
    assert JoinLog(WithHost(w, x)) == JoinLog(WithHost(w, y));
  }

  lemma SameReady<S>(s: Pair<S>, t: Pair<S>, a: Action)
    requires Shape(s) && Shape(t) && s.log[1 - a.who] == t.log[1 - a.who] && s.got[a.who] == t.got[a.who]
    ensures Ready(s, a) == Ready(t, a) && Arrival(s, a) == Arrival(t, a)
  {
  }

  /** From the retry on, the host is the host of the match in which it gave `y` at once. */
  lemma HostFollowsSecond<S(!new)>(w: World<S>, x: InputState, y: InputState)
    requires Exact(w.core)
    ensures Changed(w, x, y, 9).peer[0] == Nine(WithHost(w, y), 9).peer[0]
    ensures Changed(w, x, y, 9).peer[1] == Nine(WithHost(w, x), 7).peer[1]
  {
    hide StepWith, Nine, Changed, RollbackModel.Tick, SameButLocal;
    var vx, vy, a := WithHost(w, x), WithHost(w, y), Tick(0, 9);
    FollowsFirst(w, x, y, 7);
    var s, t := Nine(vx, 7), Nine(vy, 7);
    HostWaits(vx);
    HostWaits(vy);
    HostAfterStall(w, x, y);
    SameToHost(w, x, y);
    SameReady(s, t, a);
    TickOverwritesLocal(w.core, s.peer[0], t.peer[0], y, Ready(s, a));
    ChangedStep(w, x, y, 8);
    NineStep(vy, 8);
    FramesBefore(vy, 7);
    OthersStay(w.core, s, a, y);
    OthersStay(w.core, t, a, y);
    var s8, t8 := Changed(w, x, y, 8), Nine(vy, 8);
    SameReady(s8, t8, a);
    ChangedStep(w, x, y, 9);
    NineStep(vy, 9);
    FramesBefore(vy, 8);
    OthersStay(w.core, s8, a, w.input0(3));
    OthersStay(w.core, t8, a, w.input0(3));
  }

  lemma {:induction false} AlikeTruth<S>(w: World<S>, x: InputState, n: nat)
    requires n <= 2
    ensures Truth(WithHost(w, x), n) == Truth(w, n)
  {
    if n > 0 { AlikeTruth(w, x, n - 1); }
  }

  lemma TruthAfter<S>(w: World<S>, x: InputState)
    ensures Truth(WithHost(w, x), 3) == w.core.step(Truth(w, 2), x, w.input1(2))
  {
    AlikeTruth(w, x, 2);
  }

  /** Without repetition the pair does not converge: for every core, start and inputs, there is a run in
      which the host stalls at frame 2 with `x`, retries with `y`, and both peers then verify frame 3
      with snapshots that differ exactly when the core can tell `x` from `y`. */
  lemma ChangedRetryDiverges<S(!new)>(w: World<S>, x: InputState, y: InputState)
    requires Exact(w.core)
    ensures var s := FreeRun(w.core, Opening(w.start, 1), ChangedRetry(w, x, y, 9));
      var t, other := Truth(w, 2), w.input1(2);
      && BothVerified(s, 3)
      && (s.peer[0].ring[3] == s.peer[1].ring[3] <==> w.core.step(t, x, other) == w.core.step(t, y, other))
  {
    hide Nine, FreeRun, ChangedRetry, PairOk, Truth, Reachable;
    var vx, vy := WithHost(w, x), WithHost(w, y);
    HostFollowsSecond(w, x, y);
    SevenTicks(vx);
    NineTicks(vy);
    NineReachable(vx, 7);
    NineReachable(vy, 9);
    VerifiedIsTrue(vx, Nine(vx, 7), 1);
    VerifiedIsTrue(vy, Nine(vy, 9), 0);
    TruthAfter(w, x);
    TruthAfter(w, y);
    SavedApart(w.core, Truth(vx, 3), Truth(vy, 3));
  }

  lemma SavedApart<S(!new)>(c: Core<S>, a: S, b: S)
    requires Exact(c)
    ensures Saved(c, a) == Saved(c, b) <==> a == b
  {
    assert c.load(Saved(c, a)) == Some(a) && c.load(Saved(c, b)) == Some(b);
  }

  /** The exact condition on such a core: runs whose retries repeat their inputs converge, and when the core
      can tell two inputs apart two frames into some match, not all runs do. */
  lemma SomeRunDiverges<S(!new)>(w: World<S>, x: InputState, y: InputState)
    requires Exact(w.core) && w.core.step(Truth(w, 2), x, w.input1(2)) != w.core.step(Truth(w, 2), y, w.input1(2))
    ensures exists gs: seq<Given>, v: nat :: var s := FreeRun(w.core, Opening(w.start, 1), gs);
      !Repeats(w.core, Opening(w.start, 1), gs) && BothVerified(s, v) && s.peer[0].ring[v] != s.peer[1].ring[v]
  {
    hide FreeRun, ChangedRetry, Truth, Repeats;
    var gs := ChangedRetry(w, x, y, 9);
    ChangedRetryDiverges(w, x, y);
    if Repeats(w.core, Opening(w.start, 1), gs) { RepeatedInputsConverge(w.core, w.start, 1, gs, 3); }
  }
}
