/** What a second, different input for a verified frame does to the peer that receives it. */
module RollbackRetry {
  import opened Abi
  import opened NetMessages
  import opened RollbackModel
  import opened RollbackProofs
  import Crc32

  /** The session with another real input on record for frame `f`. */
  function Rewrite<S>(p: Session<S>, f: nat, y: InputState): Session<S> {
    p.(remote := p.remote[f := y])
  }

  /** Frame `f` is settled: verified, and not the one predictions are made from. */
  predicate Settled<S>(p: Session<S>, f: nat) {
    f < p.verified && f != p.confirmed
  }

  lemma {:induction false} SameSearch(actual: map<nat, InputState>, used: map<nat, InputState>, f: nat, y: InputState,
                                      from: nat, last: nat)
    requires f < from
    ensures FirstMispredicted(actual[f := y], used, from, last) == FirstMispredicted(actual, used, from, last)
    decreases last - from
  {
    if from < last { SameSearch(actual, used, f, y, from + 1, last); }
  }

  lemma RemoteIgnores<S>(p: Session<S>, f: nat, y: InputState, k: nat)
    requires f != k && f != p.confirmed
    ensures RemoteInput(Rewrite(p, f, y), k) == RemoteInput(p, k)
  {
  }

  lemma SaveIgnores<S>(c: Core<S>, p: Session<S>, f: nat, y: InputState, k: nat)
    ensures SaveRing(c, Rewrite(p, f, y), k) == Rewrite(SaveRing(c, p, k), f, y)
    ensures var q := SaveRing(c, p, k);
      q.confirmed == p.confirmed && q.frame == p.frame && q.remote == p.remote && q.state == p.state && q.used == p.used
          && q.port == p.port
  {
  }

  lemma ReplayOneIgnores<S>(c: Core<S>, p: Session<S>, f: nat, y: InputState, k: nat)
    requires f < k && f != p.confirmed
    ensures ResimulateOne(c, Rewrite(p, f, y), k) == Rewrite(ResimulateOne(c, p, k), f, y)
    ensures ResimulateOne(c, p, k).confirmed == p.confirmed
  {
    hide RemoteInput, StepAt, SaveRing, Lookup;
    RemoteIgnores(p, f, y, k);
    var rin, lin := RemoteInput(p, k), Lookup(p.local, k, Neutral());
    SaveIgnores(c, p.(used := p.used[k := rin], local := p.local[k := lin],
                      state := StepAt(c, p.port, p.state, lin, rin)), f, y, k + 1);
  }

  lemma {:induction false} ReplayIgnores<S>(c: Core<S>, p: Session<S>, f: nat, y: InputState, k: nat, end: nat)
    requires f < k && f != p.confirmed
    ensures Resimulate(c, Rewrite(p, f, y), k, end) == Rewrite(Resimulate(c, p, k, end), f, y)
    ensures Resimulate(c, p, k, end).confirmed == p.confirmed
    decreases end - k
  {
    hide ResimulateOne, Rewrite;
    if k < end {
      ReplayOneIgnores(c, p, f, y, k);
      ReplayIgnores(c, ResimulateOne(c, p, k), f, y, k + 1, end);
    }
  }

  lemma RollBackIgnores<S>(c: Core<S>, p: Session<S>, f: nat, y: InputState, g: nat)
    requires f < g && f != p.confirmed
    ensures RollBack(c, Rewrite(p, f, y), g) == (Rewrite(RollBack(c, p, g).0, f, y), RollBack(c, p, g).1)
    ensures RollBack(c, p, g).0.confirmed == p.confirmed && RollBack(c, p, g).0.verified == p.verified
  {
    hide Resimulate;
    var q := p.(ring := p.ring[g := Lookup(p.ring, g, [])]);
    match Load(c, Lookup(p.ring, g, [])) {
      case None =>
      case Some(s) =>
        ReplayIgnores(c, q.(state := s), f, y, g, p.frame);
        ReplayKeepsVerified(c, q.(state := s), g, p.frame);
    }
  }

  lemma {:induction false} ReplayKeepsVerified<S>(c: Core<S>, p: Session<S>, k: nat, end: nat)
    ensures Resimulate(c, p, k, end).verified == p.verified && Resimulate(c, p, k, end).frame == p.frame
    decreases end - k
  {
    if k < end { ReplayKeepsVerified(c, ResimulateOne(c, p, k), k + 1, end); }
  }

  lemma ReconcileIgnores<S>(c: Core<S>, p: Session<S>, f: nat, y: InputState)
    requires Settled(p, f)
    ensures Reconcile(c, Rewrite(p, f, y)) == (Rewrite(Reconcile(c, p).0, f, y), Reconcile(c, p).1)
    ensures Settled(Reconcile(c, p).0, f)
  {
    hide RollBack, FirstMispredicted;
    if Reconciles(p) {
      SameSearch(p.remote, p.used, f, y, p.verified, Horizon(p));
      match FirstMispredicted(p.remote, p.used, p.verified, Horizon(p)) {
        case None =>
        case Some(g) => RollBackIgnores(c, p, f, y, g);
      }
    }
  }

  /** The visible session: everything but the stored remote inputs. */
  function Visible<S>(p: Session<S>): Session<S> {
    p.(remote := map[])
  }

  lemma RecordIgnores<S>(p: Session<S>, f: nat, y: InputState)
    ensures RecordChecksum(Rewrite(p, f, y)) == Rewrite(RecordChecksum(p), f, y)
  {
    hide Crc32.Value;
  }

  lemma PruneIgnores<S>(p: Session<S>, f: nat, y: InputState)
    ensures Visible(Prune(Rewrite(p, f, y))) == Visible(Prune(p))
  {
    hide PruneBelow;
  }

  lemma FinishIgnores<S>(p: Session<S>, f: nat, y: InputState, status: Status)
    ensures Visible(Finish(Rewrite(p, f, y), status)) == Visible(Finish(p, status))
  {
    hide Prune, RecordChecksum;
    RecordIgnores(p, f, y);
    PruneIgnores(RecordChecksum(p), f, y);
  }

  lemma SimulateIgnores<S>(c: Core<S>, p: Session<S>, f: nat, y: InputState, now: InputState)
    requires f != p.confirmed && f != p.frame
    ensures Simulate(c, Rewrite(p, f, y), now) == Rewrite(Simulate(c, p, now), f, y)
  {
    hide RemoteInput, StepAt, SaveRing;
    SaveIgnores(c, p, f, y, p.frame);
    RemoteIgnores(SaveRing(c, p, p.frame), f, y, p.frame);
  }

  lemma {:induction false} DrainSplits<S>(p: Session<S>, a: seq<Msg>, b: seq<Msg>)
    ensures Drain(p, a + b) == Drain(Drain(p, a), b)
    decreases |a|
  {
    hide Deliver;
    if a == [] {
      assert a + b == b;
    } else {
      assert (a + b)[1..] == a[1..] + b;
      DrainSplits(Deliver(p, a[0]), a[1..], b);
    }
  }

  lemma {:induction false} DrainKeepsPlace<S>(p: Session<S>, ready: seq<Msg>)
    ensures var d := Drain(p, ready);
      && d.verified == p.verified && d.frame == p.frame && d.maxPrediction == p.maxPrediction
      && (p.haveConfirmed ==> d.haveConfirmed && p.confirmed <= d.confirmed)
    decreases |ready|
  {
    if ready != [] { DrainKeepsPlace(Deliver(p, ready[0]), ready[1..]); }
  }

  /** Whatever arrives after the second input, only the record for its frame is different. */
  lemma {:induction false} DrainRewrites<S>(p: Session<S>, ready: seq<Msg>, f: nat, y: InputState)
    returns (z: InputState)
    ensures Drain(Rewrite(p, f, y), ready) == Rewrite(Drain(p, ready), f, z)
    decreases |ready|
  {
    hide Deliver, Rewrite;
    if ready == [] {
      z := y;
    } else {
      var m, q := ready[0], Deliver(p, ready[0]);
      if m.Input? && m.frame == f {
        DeliverOverwrites(p, m, f, y);
        z := DrainRewrites(q, ready[1..], f, m.state);
      } else {
        DeliverCommutes(p, m, f, y);
        z := DrainRewrites(q, ready[1..], f, y);
      }
    }
  }

  lemma DeliverOverwrites<S>(p: Session<S>, m: Msg, f: nat, y: InputState)
    requires m.Input? && m.frame == f
    ensures Deliver(Rewrite(p, f, y), m) == Deliver(p, m) == Rewrite(Deliver(p, m), f, m.state)
  {
    assert p.remote[f := y][f := m.state] == p.remote[f := m.state];
    assert p.remote[f := m.state][f := m.state] == p.remote[f := m.state];
  }

  lemma DeliverCommutes<S>(p: Session<S>, m: Msg, f: nat, y: InputState)
    requires m.Input? ==> m.frame != f
    ensures Deliver(Rewrite(p, f, y), m) == Rewrite(Deliver(p, m), f, y)
  {
    if m.Input? { assert p.remote[f := y][m.frame := m.state] == p.remote[m.frame := m.state][f := y]; }
  }

  /** The tick's messages with a second input for frame `f` in their midst. */
  lemma SecondInputArrives<S>(p: Session<S>, now: InputState, before: seq<Msg>, after: seq<Msg>, f: nat, y: InputState)
    returns (z: InputState)
    requires Bounds(p) && f < p.verified
    ensures var d := Received(p, now, Up(before + after));
      && Received(p, now, Up(before + [Input(f, y)] + after)) == Rewrite(d, f, z)
      && d.haveConfirmed && f <= d.confirmed && d.verified == p.verified && d.frame == p.frame
  {
    hide Drain;
    var p0 := p.(local := p.local[p.frame := now]);
    var e := Drain(p0, before);
    DrainSplits(p0, before, after);
    DrainSplits(p0, before + [Input(f, y)], after);
    DrainSplits(p0, before, [Input(f, y)]);
    DrainKeepsPlace(p0, before);
    DrainKeepsPlace(e, after);
    DrainOneInput(e, f, y);
    z := DrainRewrites(e, after, f, y);
  }

  lemma DrainOneInput<S>(e: Session<S>, f: nat, y: InputState)
    requires e.haveConfirmed && f <= e.confirmed
    ensures Drain(e, [Input(f, y)]) == Rewrite(e, f, y)
  {
    assert [Input(f, y)][1..] == [];
  }

  /** What a tick does after taking the messages. */
  function Concluded<S>(c: Core<S>, d: Session<S>, now: InputState): Session<S> {
    var (r, loaded) := Reconcile(c, d);
    if !loaded then r
    else if Stalls(r) then Finish(r, Stalled)
    else Finish(Simulate(c, r, now), Status.Ok)
  }

  /** The second input is for a frame below the highest confirmed one: nothing else changes. */
  lemma SettledIgnores<S>(c: Core<S>, d: Session<S>, f: nat, y: InputState, now: InputState)
    requires Settled(d, f) && f != d.frame
    ensures Visible(Concluded(c, Rewrite(d, f, y), now)) == Visible(Concluded(c, d, now))
  {
    hide Reconcile, Simulate, Finish, Stalls;
    ReconcileIgnores(c, d, f, y);
    ReconcileFrame(c, d);
    var (r, loaded) := Reconcile(c, d);
    StallsIgnores(r, f, y);
    FinishIgnores(r, f, y, Stalled);
    if Settled(r, f) && f != r.frame {
      SimulateIgnores(c, r, f, y, now);
      FinishIgnores(Simulate(c, r, now), f, y, Status.Ok);
    }
  }

  /** Two sessions that agree on everything settled; frame `k` may have been guessed differently. */
  ghost predicate SameButGuess<S>(q: Session<S>, q': Session<S>, k: nat) {
    && q' == q.(remote := q'.remote, used := q'.used, state := q'.state)
    && q'.used.Keys == q.used.Keys
    && (forall j | j in q.used && j != k :: q'.used[j] == q.used[j])
  }

  /** The second input is for the highest confirmed frame, as a retry's is: there is nothing to
      reconcile, and only the guess for the current frame is made from the new input. */
  lemma HighestIgnores<S>(c: Core<S>, d: Session<S>, y: InputState, now: InputState)
    requires d.haveConfirmed && d.confirmed < d.verified <= d.frame
    ensures var q, q' := Concluded(c, d, now), Concluded(c, Rewrite(d, d.confirmed, y), now);
      && SameButGuess(q, q', d.frame)
      && (Visible(q') == Visible(q) <==>
            (Stalls(d) || d.frame in d.remote || y == Predict(d.remote, d.confirmed)))
  {
    hide Simulate, Finish, Stalls, FirstMispredicted, RollBack;
    var f := d.confirmed;
    var d' := Rewrite(d, f, y);
    StallsIgnores(d, f, y);
    if Stalls(d) {
      FinishIgnores(d, f, y, Stalled);
    } else {
      GuessDiffers(c, d, y, now);
      FinishGuess(Simulate(c, d, now), Simulate(c, d', now), d.frame, Status.Ok);
    }
  }

  lemma GuessDiffers<S>(c: Core<S>, d: Session<S>, y: InputState, now: InputState)
    requires d.haveConfirmed && d.confirmed < d.verified <= d.frame
    ensures var q, q' := Simulate(c, d, now), Simulate(c, Rewrite(d, d.confirmed, y), now);
      && SameButGuess(q, q', d.frame) && d.frame in q.used && d.frame in q'.used
      && q.verified == d.verified
      && (q'.used[d.frame] == q.used[d.frame] <==> (d.frame in d.remote || y == Predict(d.remote, d.confirmed)))
      && (q'.used[d.frame] == q.used[d.frame] ==> q'.state == q.state)
  {
    hide StepAt, SaveRing;
    SaveIgnores(c, d, d.confirmed, y, d.frame);
    SaveKeepsVerified(c, d, d.frame);
  }

  lemma SaveKeepsVerified<S>(c: Core<S>, p: Session<S>, k: nat)
    ensures SaveRing(c, p, k).verified == p.verified
  {
  }

  lemma FinishGuess<S>(p: Session<S>, p': Session<S>, k: nat, status: Status)
    requires SameButGuess(p, p', k) && k in p.used && k in p'.used && p.verified <= k
    requires p'.used[k] == p.used[k] ==> p'.state == p.state
    ensures var q, q' := Finish(p, status), Finish(p', status);
      SameButGuess(q, q', k) && (Visible(q') == Visible(q) <==> p'.used[k] == p.used[k])
  {
    hide Finish;
    FloorBelowVerified(p);
    FinishFrame(p, status);
    FinishFrame(p', status);
    var q, q' := Finish(p, status), Finish(p', status);
    KeptUsed(p.used, p'.used, k, Floor(p));
    assert q.ownCrc == q'.ownCrc && q.ring == q'.ring && q.local == q'.local;
  }

  lemma KeptUsed(u: map<nat, InputState>, u': map<nat, InputState>, k: nat, floor: nat)
    requires u'.Keys == u.Keys && (forall j | j in u && j != k :: u'[j] == u[j]) && k in u && floor <= k
    ensures var v, v' := PruneBelow(u, floor), PruneBelow(u', floor);
      && v'.Keys == v.Keys && (forall j | j in v && j != k :: v'[j] == v[j])
      && (v' == v <==> u'[k] == u[k])
  {
    var v, v' := PruneBelow(u, floor), PruneBelow(u', floor);
    assert k in v && v[k] == u[k] && k in v' && v'[k] == u'[k];
    if u'[k] == u[k] { assert u' == u; }
  }

  /** A second input for a verified frame, wherever it stands among a tick's messages, changes nothing
      that is settled: the same verified mark, the same snapshots, the same record of what was fed at
      every other frame. What it can change is the guess made for the current frame; it does exactly
      when its frame is still the highest confirmed one, the tick runs a frame with no real input,
      and the input then on record is not the one before. */
  lemma SecondInputKeepsWhatIsSettled<S>(c: Core<S>, p: Session<S>, now: InputState, before: seq<Msg>, after: seq<Msg>,
                                         f: nat,
                                         y: InputState)
    requires Bounds(p) && p.status != Disconnected && f < p.verified
    ensures var q := Tick(c, p, now, Up(before + after));
      var q' := Tick(c, p, now, Up(before + [Input(f, y)] + after));
      var d, d' := Received(p, now, Up(before + after)), Received(p, now, Up(before + [Input(f, y)] + after));
      && SameButGuess(q, q', p.frame)
      && (Visible(q') == Visible(q) <==>
            || f < d.confirmed || Stalls(d) || d.frame in d.remote
            || Predict(d'.remote, f) == Predict(d.remote, f))
  {
    hide Drain, Reconcile, Simulate, Finish, Stalls;
    var z := SecondInputArrives(p, now, before, after, f, y);
    var d := Received(p, now, Up(before + after));
    TickConcludes(c, p, now, before + after);
    TickConcludes(c, p, now, before + [Input(f, y)] + after);
    if f < d.confirmed {
      SettledIgnores(c, d, f, z, now);
      VisibleIsSame(Concluded(c, d, now), Concluded(c, Rewrite(d, f, z), now), p.frame);
    } else {
      HighestIgnores(c, d, z, now);
    }
  }

  lemma VisibleIsSame<S>(q: Session<S>, q': Session<S>, k: nat)
    requires Visible(q') == Visible(q)
    ensures SameButGuess(q, q', k)
  {
  }

  lemma TickConcludes<S>(c: Core<S>, p: Session<S>, now: InputState, ready: seq<Msg>)
    requires p.status != Disconnected
    ensures Tick(c, p, now, Up(ready)) == Concluded(c, Received(p, now, Up(ready)), now)
  {
    hide Drain, Reconcile, Simulate, Finish, Stalls;
  }

  lemma StallsIgnores<S>(p: Session<S>, f: nat, y: InputState)
    ensures Stalls(Rewrite(p, f, y)) == Stalls(p)
  {
  }

  lemma ReconcileFrame<S>(c: Core<S>, p: Session<S>)
    ensures Reconcile(c, p).0.frame == p.frame
  {
    hide Resimulate, FirstMispredicted;
    if Reconciles(p) {
      match FirstMispredicted(p.remote, p.used, p.verified, Horizon(p)) {
        case None =>
        case Some(g) =>
          match Load(c, Lookup(p.ring, g, [])) {
            case None =>
            case Some(s) => ReplayKeepsVerified(c, p.(ring := p.ring[g := Lookup(p.ring, g, [])], state := s), g,
                                                p.frame);
          }
      }
    }
  }
}
