/** How much work one tick can do and how much a session keeps. */
module RollbackWindow {
  import opened Abi
  import opened NetMessages
  import opened RollbackModel
  import opened RollbackProofs

  /** Once an input has arrived: the session is at most one frame past its window, and only the
      last frame or the unconfirmed ones are unverified. */
  predicate InWindow<S>(p: Session<S>) {
    p.haveConfirmed ==>
      && p.frame <= p.confirmed + p.maxPrediction + 1
      && (p.verified >= p.confirmed + 1 || p.verified + 1 >= p.frame)
  }

  /** The caller can check this before the tick: either an input has arrived earlier, or the session
      is still inside its window when the first one can arrive. */
  predicate FirstInputInTime<S>(p: Session<S>) {
    p.haveConfirmed || p.frame <= p.maxPrediction
  }

  /** How many frames the tick's reconciliation replays. */
  function ReplayLength<S>(d: Session<S>): nat {
    if Reconciles(d) then
      match FirstMispredicted(d.remote, d.used, d.verified, Horizon(d))
      case Some(g) => d.frame - g
      case None => 0
    else 0
  }

  lemma HighGrows(o: Option<nat>, msgs: seq<Msg>)
    ensures o.Some? ==> High(o, msgs).Some? && High(o, msgs).value >= o.value
    decreases |msgs|
  {
    if msgs != [] { HighGrows(Raise(o, msgs[0]), msgs[1..]); }
  }

  /** A tick keeps the session in its window. */
  lemma TickKeepsWindow<S(!new)>(w: World<S>, p: Session<S>, ready: seq<Msg>)
    requires Exact(w.core) && Coherent(w, p) && Stream(w, 1 - p.port, ConfirmedOf(p), ready) && p.status != Disconnected
    requires InWindow(p)
    requires High(ConfirmedOf(p), ready).Some? ==> FirstInputInTime(p)
    ensures InWindow(Tick(w.core, p, PlayerInput(w, p.port, p.frame), Up(ready)))
  {
    TickCoherent(w, p, ready);
    TickVerifies(w, p, ready);
    TickRunsInsideWindow(w, p, ready);
    HighGrows(ConfirmedOf(p), ready);
  }

  /** A rollback replays at most `maxPrediction` frames. */
  lemma ReplayIsBounded<S(!new)>(w: World<S>, p: Session<S>, ready: seq<Msg>)
    requires Exact(w.core) && Coherent(w, p) && Stream(w, 1 - p.port, ConfirmedOf(p), ready)
    requires InWindow(p) && FirstInputInTime(p)
    ensures ReplayLength(Received(p, PlayerInput(w, p.port, p.frame), Up(ready))) <= p.maxPrediction
  {
    ReceivedKeeps(w, p, ready);
  }

  /** Without that condition the bound fails: a first input that arrives at frame F and is not the
      neutral prediction makes the session replay all F frames, however large F is. */
  lemma LateFirstInputReplaysEverything<S(!new)>(w: World<S>, p: Session<S>)
    requires Exact(w.core) && Coherent(w, p) && !p.haveConfirmed && p.frame > 0
    requires p.used[0] != PlayerInput(w, 1 - p.port, 0)
    ensures var first := Input(0, PlayerInput(w, 1 - p.port, 0));
      && Stream(w, 1 - p.port, ConfirmedOf(p), [first])
      && ReplayLength(Received(p, PlayerInput(w, p.port, p.frame), Up([first]))) == p.frame
  {
    var first := Input(0, PlayerInput(w, 1 - p.port, 0));
    assert [first][1..] == [];
    ReceivedKeeps(w, p, [first]);
    var p0 := p.(local := p.local[p.frame := PlayerInput(w, p.port, p.frame)]);
    var d := Received(p, PlayerInput(w, p.port, p.frame), Up([first]));
    assert d == Drain(Deliver(p0, first), []);
    assert d.used == p.used && Mispredicted(d.remote, d.used, 0);
  }

  lemma {:induction false} IntervalSize(keys: set<nat>, lo: nat, hi: nat)
    requires forall k | k in keys :: lo <= k < hi
    ensures |keys| <= if lo <= hi then hi - lo else 0
    decreases hi
  {
    if keys != {} {
      var rest := keys - {hi - 1};
      assert |keys| <= |rest| + 1;
      IntervalSize(rest, lo, hi - 1);
    }
  }

  /** The snapshot ring stays within `2 * maxPrediction + 3` entries. */
  lemma RingIsBounded<S>(w: World<S>, p: Session<S>)
    requires Coherent(w, p) && Trimmed(p) && InWindow(p) && p.verified <= p.frame
    requires p.haveConfirmed || p.frame <= p.maxPrediction
    ensures |p.ring| <= 2 * p.maxPrediction + 3
  {
    IntervalSize(p.ring.Keys, Floor(p), p.frame + 1);
  }

  lemma {:induction false} IntervalInside(keys: set<nat>, n: nat)
    requires forall k: nat | k < n :: k in keys
    ensures |keys| >= n
  {
    if n > 0 {
      IntervalInside(keys - {n - 1}, n - 1);
    }
  }

  /** Before the first input nothing is pruned: the ring holds every frame simulated so far. */
  lemma RingUnboundedBeforeFirstInput<S>(w: World<S>, p: Session<S>)
    requires Coherent(w, p) && !p.haveConfirmed
    ensures |p.ring| >= p.frame
  {
    IntervalInside(p.ring.Keys, p.frame);
  }
}
