/** The invariant of one rollback session and what every tick keeps. */
module RollbackProofs {
  import opened Abi
  import opened NetMessages
  import opened RollbackModel
  import Crc32

  /** Everything that fixes a match: the core, the synchronised start state and the input each
      player gives at each frame. Giving the input as a function of the frame is the hypothesis
      that a retry of a stalled frame passes the same local input. */
  datatype World<!S> = World(core: Core<S>, start: S, input0: nat -> InputState, input1: nat -> InputState)

  function PlayerInput<S>(w: World<S>, port: Side, f: nat): InputState {
    if port == 0 then w.input0(f) else w.input1(f)
  }

  /** The session that waits for every real input: the state before frame `n`. */
  function Truth<S>(w: World<S>, n: nat): S {
    if n == 0 then w.start else w.core.step(Truth(w, n - 1), w.input0(n - 1), w.input1(n - 1))
  }

  /** The state before frame `n` when the real remote input was fed below `v` and `used` above. */
  function Guess<S>(w: World<S>, port: Side, v: nat, used: map<nat, InputState>, n: nat): S {
    if n <= v then Truth(w, n)
    else StepAt(w.core, port, Guess(w, port, v, used, n - 1), PlayerInput(w, port, n - 1),
                Lookup(used, n - 1, Neutral()))
  }

  function TruthCrc<S>(w: World<S>, f: nat): uint32 {
    Crc32.Value(Saved(w.core, Truth(w, f)))
  }

  // ----- the incoming stream -----

  function ConfirmedOf<S>(p: Session<S>): Option<nat> {
    if p.haveConfirmed then Some(p.confirmed) else None
  }

  function Raise(o: Option<nat>, m: Msg): Option<nat> {
    if m.Input? && (o.None? || m.frame > o.value) then Some(m.frame) else o
  }

  function High(o: Option<nat>, msgs: seq<Msg>): Option<nat>
    decreases |msgs|
  {
    if msgs == [] then o else High(Raise(o, msgs[0]), msgs[1..])
  }

  /** Message `m` of player `port` may follow a stream whose highest input frame is `o`. */
  predicate Admissible<S>(w: World<S>, port: Side, o: Option<nat>, m: Msg) {
    match m
    case Input(f, s) => s == PlayerInput(w, port, f) && f <= (if o.Some? then o.value + 1 else 0)
    case Checksum(f, crc) => crc == TruthCrc(w, f)
    case Other => true
  }

  /** Inputs arrive without gaps and are the player's; checksums are those of the true states. */
  predicate Stream<S>(w: World<S>, port: Side, o: Option<nat>, msgs: seq<Msg>)
    decreases |msgs|
  {
    msgs == [] || (Admissible(w, port, o, msgs[0]) && Stream(w, port, Raise(o, msgs[0]), msgs[1..]))
  }

  // ----- the invariant -----

  ghost predicate LocalsOk<S>(w: World<S>, port: Side, local: map<nat, InputState>, floor: nat, frame: nat) {
    && (forall f | f in local :: local[f] == PlayerInput(w, port, f))
    && (forall f: nat | floor <= f < frame :: f in local)
  }

  /** `o` is the highest frame received so far: everything at or above the floor up to `o` is held. */
  ghost predicate RemotesOk<S>(w: World<S>, from: Side, remote: map<nat, InputState>, floor: nat, o: Option<nat>) {
    && (forall f | f in remote :: o.Some? && f <= o.value && remote[f] == PlayerInput(w, from, f))
    && (o.Some? ==> forall f: nat | floor <= f <= o.value :: f in remote)
  }

  ghost predicate UsedOk(used: map<nat, InputState>, verified: nat, frame: nat) {
    forall f: nat | verified <= f < frame :: f in used
  }

  /** What was fed at the verified frames still on record was the real remote input. */
  ghost predicate FedReal<S>(w: World<S>, from: Side, used: map<nat, InputState>, verified: nat) {
    forall f | f in used && f < verified :: used[f] == PlayerInput(w, from, f)
  }

  ghost predicate RingOk<S>(w: World<S>, port: Side, v: nat, used: map<nat, InputState>, ring: map<nat, Blob>,
                            upTo: nat) {
    forall f | f in ring && f <= upTo :: ring[f] == Saved(w.core, Guess(w, port, v, used, f))
  }

  ghost predicate Covers(ring: map<nat, Blob>, floor: nat, frame: nat) {
    && (forall f | f in ring :: f <= frame)
    && (forall f: nat | floor <= f < frame :: f in ring)
  }

  ghost predicate CrcOk<S>(w: World<S>, crcs: map<nat, uint32>) {
    forall f | f in crcs :: crcs[f] == TruthCrc(w, f)
  }

  predicate Bounds<S>(p: Session<S>) {
    && p.maxPrediction >= 1
    && p.verified <= p.frame
    && p.verified <= (if p.haveConfirmed then p.confirmed + 1 else 0)
    && (!p.haveConfirmed ==> p.confirmed == 0)
  }

  ghost predicate Coherent<S>(w: World<S>, p: Session<S>) {
    && Bounds(p)
    && LocalsOk(w, p.port, p.local, Floor(p), p.frame)
    && RemotesOk(w, 1 - p.port, p.remote, Floor(p), ConfirmedOf(p))
    && UsedOk(p.used, p.verified, p.frame) && FedReal(w, 1 - p.port, p.used, p.verified)
    && RingOk(w, p.port, p.verified, p.used, p.ring, p.frame)
    && Covers(p.ring, Floor(p), p.frame)
    && CrcOk(w, p.ownCrc) && CrcOk(w, p.peerCrc)
    && p.state == Guess(w, p.port, p.verified, p.used, p.frame)
  }

  /** Nothing older than the retention floor is kept. */
  predicate Trimmed<S>(p: Session<S>) {
    && (forall f | f in p.ring :: Floor(p) <= f)
    && (forall f | f in p.local :: Floor(p) <= f)
    && (forall f | f in p.remote :: Floor(p) <= f)
    && (forall f | f in p.used :: Floor(p) <= f)
  }

  // ----- Guess -----

  /** The speculative state depends only on the inputs fed in `[v, n)`. */
  lemma {:induction false} GuessFrame<S>(w: World<S>, port: Side, v: nat, u: map<nat, InputState>,
                                         u': map<nat, InputState>, n: nat)
    requires forall f: nat | v <= f < n :: Lookup(u, f, Neutral()) == Lookup(u', f, Neutral())
    ensures Guess(w, port, v, u, n) == Guess(w, port, v, u', n)
  {
    if n > v {
      GuessFrame(w, port, v, u, u', n - 1);
      assert Lookup(u, n - 1, Neutral()) == Lookup(u', n - 1, Neutral());
    }
  }

  /** Confirming that the inputs fed in `[v, v')` were real moves the verified mark and changes no state. */
  lemma {:induction false} GuessShift<S>(w: World<S>, port: Side, v: nat, v': nat, u: map<nat, InputState>, n: nat)
    requires v <= v'
    requires forall f: nat | v <= f < v' :: Lookup(u, f, Neutral()) == PlayerInput(w, 1 - port, f)
    ensures Guess(w, port, v, u, n) == Guess(w, port, v', u, n)
  {
    if n > v {
      GuessShift(w, port, v, v', u, n - 1);
      if n <= v' {
        assert Lookup(u, n - 1, Neutral()) == PlayerInput(w, 1 - port, n - 1);
      }
    }
  }

  // ----- draining -----

  lemma RemotesGrow<S>(w: World<S>, from: Side, remote: map<nat, InputState>, floor: nat, o: Option<nat>, m: Msg)
    requires RemotesOk(w, from, remote, floor, o) && m.Input? && Admissible(w, from, o, m)
    ensures RemotesOk(w, from, remote[m.frame := m.state], floor, Raise(o, m))
  {
  }

  /** Session `q` is `p` after messages were taken in: only what messages carry has changed. */
  ghost predicate OnlyReceived<S>(p: Session<S>, q: Session<S>) {
    q == p.(remote := q.remote, confirmed := q.confirmed, haveConfirmed := q.haveConfirmed, peerCrc := q.peerCrc)
  }

  lemma ReceivedCoherent<S>(w: World<S>, p: Session<S>, q: Session<S>)
    requires Coherent(w, p) && OnlyReceived(p, q)
    requires RemotesOk(w, 1 - p.port, q.remote, Floor(p), ConfirmedOf(q)) && CrcOk(w, q.peerCrc) && Bounds(q)
    ensures Coherent(w, q)
  {
    assert q.port == p.port && q.maxPrediction == p.maxPrediction && q.frame == p.frame && q.verified == p.verified;
    assert q.local == p.local && q.used == p.used && q.ring == p.ring && q.ownCrc == p.ownCrc && q.state == p.state;
    assert Floor(q) == Floor(p);
  }

  lemma DeliverFrame<S>(p: Session<S>, m: Msg)
    ensures OnlyReceived(p, Deliver(p, m))
    ensures ConfirmedOf(Deliver(p, m)) == Raise(ConfirmedOf(p), m)
    ensures Bounds(p) ==> Bounds(Deliver(p, m))
    ensures Deliver(p, m).remote == if m.Input? then p.remote[m.frame := m.state] else p.remote
    ensures Deliver(p, m).peerCrc == if m.Checksum? then p.peerCrc[m.frame := m.crc] else p.peerCrc
  {
  }

  lemma DeliverCoherent<S>(w: World<S>, p: Session<S>, m: Msg, q: Session<S>)
    requires Coherent(w, p) && Admissible(w, 1 - p.port, ConfirmedOf(p), m)
    requires OnlyReceived(p, q) && ConfirmedOf(q) == Raise(ConfirmedOf(p), m) && Bounds(q)
    requires q.remote == if m.Input? then p.remote[m.frame := m.state] else p.remote
    requires q.peerCrc == if m.Checksum? then p.peerCrc[m.frame := m.crc] else p.peerCrc
    ensures Coherent(w, q)
  {
    if m.Input? {
      RemotesGrow(w, 1 - p.port, p.remote, Floor(p), ConfirmedOf(p), m);
    }
    ReceivedCoherent(w, p, q);
  }

  lemma {:induction false} DrainCoherent<S>(w: World<S>, p: Session<S>, msgs: seq<Msg>)
    requires Coherent(w, p) && Stream(w, 1 - p.port, ConfirmedOf(p), msgs)
    ensures Coherent(w, Drain(p, msgs)) && ConfirmedOf(Drain(p, msgs)) == High(ConfirmedOf(p), msgs)
    ensures OnlyReceived(p, Drain(p, msgs))
    decreases |msgs|
  {
    if msgs != [] {
      DeliverFrame(p, msgs[0]);
      DeliverCoherent(w, p, msgs[0], Deliver(p, msgs[0]));
      DrainCoherent(w, Deliver(p, msgs[0]), msgs[1..]);
    }
  }

  // ----- re-simulation -----

  /** While frames below `f` are replayed: the state is the guess at `f`, and every snapshot up to `f` is current. */
  ghost predicate Replaying<S>(w: World<S>, p: Session<S>, f: nat) {
    && p.state == Guess(w, p.port, p.verified, p.used, f)
    && RingOk(w, p.port, p.verified, p.used, p.ring, f)
  }

  /** Feeding an input at `f` and saving the resulting state at `f + 1` keeps the snapshots right. */
  lemma RingExtends<S>(w: World<S>, port: Side, v: nat, used: map<nat, InputState>, ring: map<nat, Blob>, f: nat,
                       rin: InputState)
    requires v <= f && RingOk(w, port, v, used, ring, f)
    ensures forall k: nat | k <= f :: Guess(w, port, v, used[f := rin], k) == Guess(w, port, v, used, k)
    ensures RingOk(w, port, v, used[f := rin], ring, f)
    ensures var b := Saved(w.core, Guess(w, port, v, used[f := rin], f + 1));
      RingOk(w, port, v, used[f := rin], ring[f + 1 := b], f + 1)
  {
    forall k: nat | k <= f
      ensures Guess(w, port, v, used[f := rin], k) == Guess(w, port, v, used, k)
    {
      GuessFrame(w, port, v, used[f := rin], used, k);
    }
  }

  lemma ResimulateOneReplays<S(!new)>(w: World<S>, p: Session<S>, f: nat)
    requires Exact(w.core) && Replaying(w, p, f) && p.verified <= f
    requires f in p.local && p.local[f] == PlayerInput(w, p.port, f)
    ensures var q := ResimulateOne(w.core, p, f);
      && Replaying(w, q, f + 1)
      && q == p.(used := p.used[f := RemoteInput(p, f)], state := q.state, ring := q.ring)
      && q.ring.Keys == p.ring.Keys + {f + 1}
  {
    assert p.local[f := p.local[f]] == p.local;
    RingExtends(w, p.port, p.verified, p.used, p.ring, f, RemoteInput(p, f));
  }

  /** What a replay of `[f, end)` leaves alone and what it writes. */
  ghost predicate Replayed<S>(p: Session<S>, q: Session<S>, f: nat, end: nat) {
    && q == p.(used := q.used, state := q.state, ring := q.ring)
    && (forall k :: k in q.ring <==> k in p.ring || f < k <= end)
    && (forall k: nat | !(f <= k < end) ::
        Lookup(q.used, k, Neutral()) == Lookup(p.used, k, Neutral()) && (k in p.used <==> k in q.used))
    && (forall k: nat | f <= k < end :: k in q.used && q.used[k] == RemoteInput(p, k))
  }

  lemma ReplayedOneMore<S>(p: Session<S>, q: Session<S>, r: Session<S>, f: nat, end: nat)
    requires f < end
    requires q == p.(used := p.used[f := RemoteInput(p, f)], state := q.state, ring := q.ring)
    requires q.ring.Keys == p.ring.Keys + {f + 1}
    requires Replayed(q, r, f + 1, end)
    ensures Replayed(p, r, f, end)
  {
    forall k ensures k in r.ring <==> k in p.ring || f < k <= end {
      assert k in q.ring <==> k in q.ring.Keys;
    }
    forall k: nat | f <= k < end ensures k in r.used && r.used[k] == RemoteInput(p, k) {
      if k == f {
        assert Lookup(r.used, k, Neutral()) == Lookup(q.used, k, Neutral()) && k in q.used;
      } else {
        assert RemoteInput(q, k) == RemoteInput(p, k);
      }
    }
    forall k: nat | !(f <= k < end)
      ensures Lookup(r.used, k, Neutral()) == Lookup(p.used, k, Neutral()) && (k in p.used <==> k in r.used)
    {
      assert !(f + 1 <= k < end);
      assert Lookup(q.used, k, Neutral()) == Lookup(p.used, k, Neutral());
    }
  }

  lemma {:induction false} ResimulateReplays<S(!new)>(w: World<S>, p: Session<S>, f: nat, end: nat)
    requires Exact(w.core) && Replaying(w, p, f) && p.verified <= f <= end
    requires forall k: nat | f <= k < end :: k in p.local && p.local[k] == PlayerInput(w, p.port, k)
    ensures Replaying(w, Resimulate(w.core, p, f, end), end)
    ensures Replayed(p, Resimulate(w.core, p, f, end), f, end)
    decreases end - f
  {
    if f < end {
      var q := ResimulateOne(w.core, p, f);
      ResimulateOneReplays(w, p, f);
      ResimulateReplays(w, q, f + 1, end);
      ReplayedOneMore(p, q, Resimulate(w.core, p, f, end), f, end);
    }
  }

  // ----- reconciling -----

  lemma FloorBelowVerified<S>(p: Session<S>)
    ensures Floor(p) <= p.verified
  {
  }

  /** Frames `[v, v')` were fed the real input, so the snapshots are also right for the later mark. */
  lemma RingShift<S>(w: World<S>, port: Side, v: nat, v': nat, used: map<nat, InputState>, ring: map<nat, Blob>,
                     upTo: nat)
    requires v <= v' && RingOk(w, port, v, used, ring, upTo)
    requires forall f: nat | v <= f < v' :: Lookup(used, f, Neutral()) == PlayerInput(w, 1 - port, f)
    ensures RingOk(w, port, v', used, ring, upTo)
    ensures forall n: nat :: Guess(w, port, v, used, n) == Guess(w, port, v', used, n)
  {
    forall n: nat ensures Guess(w, port, v, used, n) == Guess(w, port, v', used, n) {
      GuessShift(w, port, v, v', used, n);
    }
  }

  /** The fields a reconciliation may change; `verified` rises to `to`. */
  ghost predicate OnlyReconciled<S>(p: Session<S>, q: Session<S>) {
    && q == p.(used := q.used, state := q.state, ring := q.ring, rollbacks := q.rollbacks, verified := q.verified)
    && q.verified >= p.verified
  }

  /** The verified mark can be raised over frames whose fed input was real. */
  lemma RaiseVerified<S>(w: World<S>, p: Session<S>, r: Session<S>, q: Session<S>)
    requires Coherent(w, p) && OnlyReconciled(p, q) && Bounds(q)
    requires r.verified == p.verified && r.port == p.port && q == r.(verified := q.verified, rollbacks := q.rollbacks)
    requires RingOk(w, r.port, r.verified, r.used, r.ring, p.frame) && Covers(r.ring, Floor(p), p.frame)
    requires UsedOk(r.used, r.verified, p.frame) && FedReal(w, 1 - p.port, r.used, p.verified)
    requires r.state == Guess(w, r.port, r.verified, r.used, p.frame)
    requires forall f: nat | p.verified <= f < q.verified ::
           Lookup(r.used, f, Neutral()) == PlayerInput(w, 1 - p.port, f)
    ensures Coherent(w, q)
  {
    hide LocalsOk, RemotesOk, UsedOk, FedReal, RingOk, Covers, CrcOk, Guess;
    RingShift(w, p.port, p.verified, q.verified, r.used, r.ring, p.frame);
    FloorRises(w, p, Floor(q));
    CoversAbove(r.ring, Floor(p), Floor(q), p.frame);
    FedRises(w, 1 - p.port, r.used, p.verified, q.verified, p.frame);
  }

  lemma FloorRises<S>(w: World<S>, p: Session<S>, floor: nat)
    requires Floor(p) <= floor
    ensures LocalsOk(w, p.port, p.local, Floor(p), p.frame) ==> LocalsOk(w, p.port, p.local, floor, p.frame)
    ensures RemotesOk(w, 1 - p.port, p.remote, Floor(p), ConfirmedOf(p))
           ==> RemotesOk(w, 1 - p.port, p.remote, floor, ConfirmedOf(p))
  {
  }

  lemma CoversAbove(ring: map<nat, Blob>, floor: nat, floor': nat, frame: nat)
    requires Covers(ring, floor, frame) && floor <= floor'
    ensures Covers(ring, floor', frame)
  {
  }

  lemma FedRises<S>(w: World<S>, from: Side, used: map<nat, InputState>, v: nat, v': nat, frame: nat)
    requires v <= v' && UsedOk(used, v, frame) && FedReal(w, from, used, v)
    requires forall f: nat | v <= f < v' :: Lookup(used, f, Neutral()) == PlayerInput(w, from, f)
    ensures UsedOk(used, v', frame) && FedReal(w, from, used, v')
  {
  }

  lemma RealWasFed<S>(w: World<S>, p: Session<S>, f: nat)
    requires RemotesOk(w, 1 - p.port, p.remote, Floor(p), ConfirmedOf(p))
    requires p.haveConfirmed && p.verified <= f <= p.confirmed
    ensures f in p.remote && p.remote[f] == PlayerInput(w, 1 - p.port, f) && RemoteInput(p, f) == p.remote[f]
  {
    FloorBelowVerified(p);
  }

  /** The earliest wrong frame has a snapshot, it loads, and it holds the true state. */
  lemma SnapshotLoads<S(!new)>(w: World<S>, p: Session<S>, g: nat)
    requires Exact(w.core) && Coherent(w, p) && p.verified <= g < p.frame
    ensures g in p.ring && Load(w.core, p.ring[g]) == Some(Guess(w, p.port, p.verified, p.used, g))
  {
    FloorBelowVerified(p);
  }

  /** The session after a rollback to `g`, before the verified mark moves. */
  function RolledBack<S>(c: Core<S>, p: Session<S>, g: nat, s: S): Session<S> {
    Resimulate(c, p.(state := s), g, p.frame)
  }

  lemma RolledBackReplays<S(!new)>(w: World<S>, p: Session<S>, g: nat, s: S)
    requires Exact(w.core) && Coherent(w, p) && p.verified <= g < p.frame
    requires s == Guess(w, p.port, p.verified, p.used, g)
    ensures var r := RolledBack(w.core, p, g, s); Replaying(w, r, p.frame) && Replayed(p, r, g, p.frame)
  {
    FloorBelowVerified(p);
    var q := p.(state := s);
    ResimulateReplays(w, q, g, p.frame);
    ReplayedIgnoresState(p, s, RolledBack(w.core, p, g, s), g, p.frame);
  }

  lemma ReplayedIgnoresState<S>(p: Session<S>, s: S, r: Session<S>, f: nat, end: nat)
    requires Replayed(p.(state := s), r, f, end)
    ensures Replayed(p, r, f, end)
  {
    forall k: nat | f <= k < end ensures k in r.used && r.used[k] == RemoteInput(p, k) {
      assert RemoteInput(p.(state := s), k) == RemoteInput(p, k);
    }
  }

  /** Whatever was fed below the earliest wrong frame was real, and the replay feeds the real input up to
      the horizon. */
  lemma RollbackFeedsReal<S>(w: World<S>, p: Session<S>, r: Session<S>, g: nat, f: nat)
    requires RemotesOk(w, 1 - p.port, p.remote, Floor(p), ConfirmedOf(p)) && Reconciles(p)
    requires FirstMispredicted(p.remote, p.used, p.verified, Horizon(p)) == Some(g)
    requires Replayed(p, r, g, p.frame) && p.verified <= f <= Horizon(p)
    ensures Lookup(r.used, f, Neutral()) == PlayerInput(w, 1 - p.port, f)
  {
    RealWasFed(w, p, f);
    if f < g {
      assert !Mispredicted(p.remote, p.used, f);
    } else {
      assert r.used[f] == RemoteInput(p, f);
    }
  }

  /** A replay from `g` leaves what was fed below `g` alone. */
  lemma FeedBelowKept<S>(w: World<S>, p: Session<S>, r: Session<S>, g: nat)
    requires FedReal(w, 1 - p.port, p.used, p.verified) && p.verified <= g && Replayed(p, r, g, p.frame)
    ensures FedReal(w, 1 - p.port, r.used, p.verified)
  {
    forall f | f in r.used && f < p.verified ensures r.used[f] == PlayerInput(w, 1 - p.port, f) {
      assert f in p.used && Lookup(r.used, f, Neutral()) == Lookup(p.used, f, Neutral());
    }
  }

  lemma RolledBackCovers<S>(w: World<S>, p: Session<S>, r: Session<S>, g: nat)
    requires Coherent(w, p) && p.verified <= g < p.frame && Replayed(p, r, g, p.frame)
    ensures Covers(r.ring, Floor(p), p.frame) && UsedOk(r.used, p.verified, p.frame)
    ensures FedReal(w, 1 - p.port, r.used, p.verified)
  {
    FeedBelowKept(w, p, r, g);
    forall f: nat | p.verified <= f < p.frame ensures f in r.used {
      if f < g { assert f in p.used; }
    }
  }

  lemma RollBackCoherent<S(!new)>(w: World<S>, p: Session<S>, g: nat, s: S)
    requires Exact(w.core) && Coherent(w, p) && Reconciles(p)
    requires FirstMispredicted(p.remote, p.used, p.verified, Horizon(p)) == Some(g)
    requires s == Guess(w, p.port, p.verified, p.used, g)
    ensures var q := RolledBack(w.core, p, g, s).(rollbacks := p.rollbacks + 1, verified := Horizon(p) + 1);
      Coherent(w, q) && OnlyReconciled(p, q)
  {
    hide Replayed, LocalsOk, UsedOk, FedReal, RingOk, Covers, CrcOk, Guess, Resimulate;
    var r := RolledBack(w.core, p, g, s);
    var q := r.(rollbacks := p.rollbacks + 1, verified := Horizon(p) + 1);
    RolledBackReplays(w, p, g, s);
    RolledBackCovers(w, p, r, g);
    forall f: nat | p.verified <= f <= Horizon(p)
      ensures Lookup(r.used, f, Neutral()) == PlayerInput(w, 1 - p.port, f)
    {
      RollbackFeedsReal(w, p, r, g, f);
    }
    RaiseVerified(w, p, r, q);
  }

  lemma NothingMispredicted<S>(w: World<S>, p: Session<S>)
    requires Coherent(w, p) && Reconciles(p)
    requires FirstMispredicted(p.remote, p.used, p.verified, Horizon(p)) == None
    ensures Coherent(w, p.(verified := Horizon(p) + 1))
  {
    forall f: nat | p.verified <= f <= Horizon(p)
      ensures Lookup(p.used, f, Neutral()) == PlayerInput(w, 1 - p.port, f)
    {
      RealWasFed(w, p, f);
      assert !Mispredicted(p.remote, p.used, f);
    }
    RaiseVerified(w, p, p, p.(verified := Horizon(p) + 1));
  }

  /** The three outcomes of a reconciliation of a coherent session. */
  lemma ReconcileCases<S(!new)>(w: World<S>, p: Session<S>)
    requires Exact(w.core) && Coherent(w, p)
    ensures !Reconciles(p) ==> Reconcile(w.core, p) == (p, true)
    ensures Reconciles(p) ==>
      match FirstMispredicted(p.remote, p.used, p.verified, Horizon(p))
      case None => Reconcile(w.core, p) == (p.(verified := Horizon(p) + 1), true)
      case Some(g) =>
        Reconcile(w.core, p) ==
          (RolledBack(w.core, p, g, Guess(w, p.port, p.verified, p.used, g))
             .(rollbacks := p.rollbacks + 1, verified := Horizon(p) + 1), true)
  {
    hide Coherent, Resimulate, Guess, FirstMispredicted;
    if Reconciles(p) {
      match FirstMispredicted(p.remote, p.used, p.verified, Horizon(p))
      case None =>
      case Some(g) =>
        SnapshotLoads(w, p, g);
        assert p.ring[g := Lookup(p.ring, g, [])] == p.ring;
    }
  }

  lemma ReconcileCoherent<S(!new)>(w: World<S>, p: Session<S>)
    requires Exact(w.core) && Coherent(w, p)
    ensures Reconcile(w.core, p).1
    ensures OnlyReconciled(p, Reconcile(w.core, p).0)
    ensures Coherent(w, Reconcile(w.core, p).0)
    ensures Reconcile(w.core, p).0.verified == if Reconciles(p) then Horizon(p) + 1 else p.verified
  {
    ReconcileCases(w, p);
    if Reconciles(p) {
      match FirstMispredicted(p.remote, p.used, p.verified, Horizon(p))
      case None => NothingMispredicted(w, p);
      case Some(g) => RollBackCoherent(w, p, g, Guess(w, p.port, p.verified, p.used, g));
    }
  }

  // ----- simulating the current frame -----

  ghost predicate OnlySimulated<S>(p: Session<S>, q: Session<S>) {
    q == p.(used := q.used, state := q.state, ring := q.ring, frame := p.frame + 1)
  }

  lemma SimulateFrame<S(!new)>(w: World<S>, p: Session<S>, localNow: InputState)
    requires Exact(w.core)
    ensures var q := Simulate(w.core, p, localNow);
      && OnlySimulated(p, q)
      && q.used == p.used[p.frame := RemoteInput(p, p.frame)]
      && q.ring == p.ring[p.frame := Saved(w.core, p.state)]
      && q.state == StepAt(w.core, p.port, p.state, localNow, RemoteInput(p, p.frame))
  {
  }

  lemma SimulateRing<S>(w: World<S>, port: Side, v: nat, used: map<nat, InputState>, ring: map<nat, Blob>, frame: nat,
                        rin: InputState)
    requires v <= frame && RingOk(w, port, v, used, ring, frame) && (forall f | f in ring :: f <= frame)
    ensures var ring' := ring[frame := Saved(w.core, Guess(w, port, v, used, frame))];
      RingOk(w, port, v, used[frame := rin], ring', frame + 1)
    ensures Guess(w, port, v, used[frame := rin], frame) == Guess(w, port, v, used, frame)
  {
    RingExtends(w, port, v, used, ring, frame, rin);
  }

  lemma SimulateCovers(ring: map<nat, Blob>, used: map<nat, InputState>, v: nat, floor: nat, frame: nat, b: Blob,
                       rin: InputState)
    requires Covers(ring, floor, frame) && UsedOk(used, v, frame)
    ensures Covers(ring[frame := b], floor, frame + 1) && UsedOk(used[frame := rin], v, frame + 1)
  {
  }

  lemma FedBeyond<S>(w: World<S>, from: Side, used: map<nat, InputState>, v: nat, frame: nat, rin: InputState)
    requires FedReal(w, from, used, v) && v <= frame
    ensures FedReal(w, from, used[frame := rin], v)
  {
  }

  lemma LocalsAdvance<S>(w: World<S>, port: Side, local: map<nat, InputState>, floor: nat, frame: nat)
    requires LocalsOk(w, port, local, floor, frame) && frame in local
    ensures LocalsOk(w, port, local, floor, frame + 1)
  {
  }

  lemma GuessNext<S>(w: World<S>, port: Side, v: nat, used: map<nat, InputState>, frame: nat, rin: InputState)
    requires v <= frame
    requires Guess(w, port, v, used[frame := rin], frame) == Guess(w, port, v, used, frame)
    ensures Guess(w, port, v, used[frame := rin], frame + 1)
      == StepAt(w.core, port, Guess(w, port, v, used, frame), PlayerInput(w, port, frame), rin)
  {
  }

  /** A session that differs from a coherent one as `Simulate` makes it differ is coherent. */
  lemma SimulatedCoherent<S>(w: World<S>, p: Session<S>, q: Session<S>, rin: InputState)
    requires Coherent(w, p) && p.frame in p.local && OnlySimulated(p, q)
    requires q.used == p.used[p.frame := rin] && q.ring == p.ring[p.frame := Saved(w.core, p.state)]
    requires q.state == StepAt(w.core, p.port, p.state, PlayerInput(w, p.port, p.frame), rin)
    ensures Coherent(w, q)
  {
    hide LocalsOk, RemotesOk, UsedOk, FedReal, RingOk, CrcOk, Guess, PlayerInput, StepAt, Saved;
    assert q.port == p.port && q.verified == p.verified && q.frame == p.frame + 1 && q.maxPrediction == p.maxPrediction;
    assert q.local == p.local && q.remote == p.remote && q.ownCrc == p.ownCrc && q.peerCrc == p.peerCrc;
    assert ConfirmedOf(q) == ConfirmedOf(p) && Floor(q) == Floor(p) && Bounds(q);
    SimulateRing(w, p.port, p.verified, p.used, p.ring, p.frame, rin);
    GuessNext(w, p.port, p.verified, p.used, p.frame, rin);
    FedBeyond(w, 1 - p.port, p.used, p.verified, p.frame, rin);
    SimulateCovers(p.ring, p.used, p.verified, Floor(p), p.frame, Saved(w.core, p.state), rin);
    LocalsAdvance(w, p.port, p.local, Floor(p), p.frame);
  }

  lemma SimulateCoherent<S(!new)>(w: World<S>, p: Session<S>, q: Session<S>)
    requires Exact(w.core) && Coherent(w, p)
    requires p.frame in p.local
    requires q == Simulate(w.core, p, PlayerInput(w, p.port, p.frame))
    ensures Coherent(w, q) && OnlySimulated(p, q)
  {
    SimulateFrame(w, p, PlayerInput(w, p.port, p.frame));
    SimulatedCoherent(w, p, q, RemoteInput(p, p.frame));
  }

  // ----- checksum and pruning -----

  ghost predicate OnlyFinished<S>(p: Session<S>, q: Session<S>) {
    q == p.(ownCrc := q.ownCrc, status := q.status, ring := q.ring, local := q.local, remote := q.remote,
            used := q.used)
  }

  lemma FinishFrame<S>(p: Session<S>, status: Status)
    ensures var q := Finish(p, status);
      && OnlyFinished(p, q) && q.status == status
      && q.ring == PruneBelow(p.ring, Floor(p)) && q.local == PruneBelow(p.local, Floor(p))
      && q.remote == PruneBelow(p.remote, Floor(p)) && q.used == PruneBelow(p.used, Floor(p))
      && q.ownCrc == if ChecksumDue(p) then p.ownCrc[p.verified := Crc32.Value(p.ring[p.verified])] else p.ownCrc
  {
  }

  /** The checksum taken is that of the true state. */
  lemma ChecksumIsTrue<S>(w: World<S>, p: Session<S>)
    requires Coherent(w, p) && ChecksumDue(p)
    ensures Crc32.Value(p.ring[p.verified]) == TruthCrc(w, p.verified)
  {
  }

  lemma PrunedRing<S>(w: World<S>, port: Side, v: nat, used: map<nat, InputState>, ring: map<nat, Blob>, upTo: nat,
                      floor: nat)
    requires RingOk(w, port, v, used, ring, upTo) && floor <= v
    ensures RingOk(w, port, v, PruneBelow(used, floor), PruneBelow(ring, floor), upTo)
    ensures forall n: nat :: Guess(w, port, v, PruneBelow(used, floor), n) == Guess(w, port, v, used, n)
  {
    forall n: nat ensures Guess(w, port, v, PruneBelow(used, floor), n) == Guess(w, port, v, used, n) {
      GuessFrame(w, port, v, PruneBelow(used, floor), used, n);
    }
  }

  lemma PrunedInputs<S>(w: World<S>, p: Session<S>, floor: nat)
    requires Coherent(w, p) && floor == Floor(p)
    ensures LocalsOk(w, p.port, PruneBelow(p.local, floor), floor, p.frame)
    ensures RemotesOk(w, 1 - p.port, PruneBelow(p.remote, floor), floor, ConfirmedOf(p))
    ensures UsedOk(PruneBelow(p.used, floor), p.verified, p.frame)
           && FedReal(w, 1 - p.port, PruneBelow(p.used, floor), p.verified)
    ensures Covers(PruneBelow(p.ring, floor), floor, p.frame)
  {
    FloorBelowVerified(p);
  }

  lemma FinishCoherent<S>(w: World<S>, p: Session<S>, status: Status, q: Session<S>)
    requires Coherent(w, p) && q == Finish(p, status)
    ensures Coherent(w, q) && Trimmed(q) && OnlyFinished(p, q) && q.status == status
  {
    hide LocalsOk, RemotesOk, UsedOk, FedReal, RingOk, Covers, Guess, Finish;
    FinishFrame(p, status);
    FloorBelowVerified(p);
    PrunedRing(w, p.port, p.verified, p.used, p.ring, p.frame, Floor(p));
    PrunedInputs(w, p, Floor(p));
    assert Floor(q) == Floor(p);
    assert ConfirmedOf(q) == ConfirmedOf(p);
    if ChecksumDue(p) { ChecksumIsTrue(w, p); }
  }

  // ----- one tick -----

  function Up(ready: seq<Msg>): Link { Link(true, ready, true) }

  /** The session just before it decides whether to stall. */
  function Reconciled<S>(c: Core<S>, p: Session<S>, localNow: InputState, ready: seq<Msg>): Session<S> {
    Reconcile(c, Received(p, localNow, Up(ready))).0
  }

  lemma ReceivedKeeps<S>(w: World<S>, p: Session<S>, ready: seq<Msg>)
    requires Coherent(w, p) && Stream(w, 1 - p.port, ConfirmedOf(p), ready)
    ensures var d := Received(p, PlayerInput(w, p.port, p.frame), Up(ready));
      && Coherent(w, d) && ConfirmedOf(d) == High(ConfirmedOf(p), ready)
      && OnlyReceived(p.(local := d.local), d) && p.frame in d.local
  {
    var p0 := p.(local := p.local[p.frame := PlayerInput(w, p.port, p.frame)]);
    assert Floor(p0) == Floor(p) && ConfirmedOf(p0) == ConfirmedOf(p);
    assert Coherent(w, p0);
    DrainCoherent(w, p0, ready);
  }

  /** After reconciling, everything confirmed below the current frame is verified. */
  lemma ReconciledKeeps<S(!new)>(w: World<S>, p: Session<S>, ready: seq<Msg>)
    requires Exact(w.core) && Coherent(w, p) && Stream(w, 1 - p.port, ConfirmedOf(p), ready)
    ensures var d := Received(p, PlayerInput(w, p.port, p.frame), Up(ready));
      var r := Reconciled(w.core, p, PlayerInput(w, p.port, p.frame), ready);
      && Reconcile(w.core, d) == (r, true)
      && Coherent(w, r) && ConfirmedOf(r) == High(ConfirmedOf(p), ready)
      && r.frame == p.frame && r.port == p.port && r.maxPrediction == p.maxPrediction && p.frame in r.local
      && r.verified == (if r.haveConfirmed && r.frame > 0 then Horizon(r) + 1 else 0)
      && r.ownCrc == p.ownCrc
  {
    ReceivedKeeps(w, p, ready);
    var d := Received(p, PlayerInput(w, p.port, p.frame), Up(ready));
    ReconcileCoherent(w, d);
  }

  lemma TickCases<S(!new)>(w: World<S>, p: Session<S>, ready: seq<Msg>)
    requires Exact(w.core) && Coherent(w, p) && Stream(w, 1 - p.port, ConfirmedOf(p), ready) && p.status != Disconnected
    ensures var now := PlayerInput(w, p.port, p.frame);
      var r := Reconciled(w.core, p, now, ready);
      var s := if Stalls(r) then r else Simulate(w.core, r, now);
      && Tick(w.core, p, now, Up(ready)) == Finish(s, if Stalls(r) then Stalled else Status.Ok)
      && Sent(w.core, p, now, Up(ready)) == [Input(p.frame, now)] + ChecksumMessages(s, true)
      && Coherent(w, s)
      && s == r.(used := s.used, state := s.state, ring := s.ring, frame := s.frame)
      && s.frame == (if Stalls(r) then p.frame else p.frame + 1)
  {
    var now := PlayerInput(w, p.port, p.frame);
    ReconciledKeeps(w, p, ready);
    var r := Reconciled(w.core, p, now, ready);
    if !Stalls(r) { SimulateCoherent(w, r, Simulate(w.core, r, now)); }
  }

  /** Every tick keeps the invariant: whatever arrives, the core is at the state the fed inputs
      lead to, the verified prefix is the true simulation, and nothing needed was pruned. */
  lemma TickCoherent<S(!new)>(w: World<S>, p: Session<S>, ready: seq<Msg>)
    requires Exact(w.core) && Coherent(w, p) && Stream(w, 1 - p.port, ConfirmedOf(p), ready) && p.status != Disconnected
    ensures var q := Tick(w.core, p, PlayerInput(w, p.port, p.frame), Up(ready));
      && Coherent(w, q) && Trimmed(q)
      && ConfirmedOf(q) == High(ConfirmedOf(p), ready)
      && q.port == p.port && q.maxPrediction == p.maxPrediction
      && (q.status == Status.Ok || q.status == Stalled)
      && q.frame == (if q.status == Stalled then p.frame else p.frame + 1)
  {
    TickCases(w, p, ready);
    ReconciledKeeps(w, p, ready);
    var now := PlayerInput(w, p.port, p.frame);
    var r := Reconciled(w.core, p, now, ready);
    var s := if Stalls(r) then r else Simulate(w.core, r, now);
    FinishCoherent(w, s, if Stalls(r) then Stalled else Status.Ok, Tick(w.core, p, now, Up(ready)));
  }

  /** The verified mark after a tick at frame F: everything confirmed below F, and nothing more. */
  lemma TickVerifies<S(!new)>(w: World<S>, p: Session<S>, ready: seq<Msg>)
    requires Exact(w.core) && Coherent(w, p) && Stream(w, 1 - p.port, ConfirmedOf(p), ready) && p.status != Disconnected
    ensures var q := Tick(w.core, p, PlayerInput(w, p.port, p.frame), Up(ready));
      && (q.haveConfirmed && p.frame > 0
          ==> q.verified == (if q.confirmed + 1 < p.frame then q.confirmed + 1 else p.frame))
      && (!(q.haveConfirmed && p.frame > 0) ==> q.verified == 0)
      && q.verified < q.frame
  {
    TickCases(w, p, ready);
    ReconciledKeeps(w, p, ready);
    var now := PlayerInput(w, p.port, p.frame);
    var r := Reconciled(w.core, p, now, ready);
    FinishFrame(if Stalls(r) then r else Simulate(w.core, r, now), if Stalls(r) then Stalled else Status.Ok);
  }

  /** The stall guard, exactly: once a remote input has arrived, frame F runs if and only if it is
      at most `maxPrediction` frames past the last confirmed one. */
  lemma TickRunsInsideWindow<S(!new)>(w: World<S>, p: Session<S>, ready: seq<Msg>)
    requires Exact(w.core) && Coherent(w, p) && Stream(w, 1 - p.port, ConfirmedOf(p), ready) && p.status != Disconnected
    ensures var q := Tick(w.core, p, PlayerInput(w, p.port, p.frame), Up(ready));
      q.frame == p.frame + 1 <==> (!q.haveConfirmed || p.frame <= q.confirmed + p.maxPrediction)
  {
    TickCases(w, p, ready);
    ReconciledKeeps(w, p, ready);
    var now := PlayerInput(w, p.port, p.frame);
    var r := Reconciled(w.core, p, now, ready);
    FinishFrame(if Stalls(r) then r else Simulate(w.core, r, now), if Stalls(r) then Stalled else Status.Ok);
  }

  /** An input for the next frame, then at most a true checksum, continues a stream. */
  lemma InputThenChecksums<S>(w: World<S>, port: Side, o: Option<nat>, f: nat, crcs: seq<Msg>)
    requires f <= if o.Some? then o.value + 1 else 0
    requires crcs == [] || (|crcs| == 1 && crcs[0].Checksum? && crcs[0].crc == TruthCrc(w, crcs[0].frame))
    ensures var m := Input(f, PlayerInput(w, port, f));
      Stream(w, port, o, [m] + crcs) && High(o, [m] + crcs) == Raise(o, m)
  {
    hide TruthCrc, PlayerInput;
    var m := Input(f, PlayerInput(w, port, f));
    assert ([m] + crcs)[1..] == crcs;
    if crcs == [] {
      NoneStream(w, port, Raise(o, m));
    } else {
      assert crcs[1..] == [];
      NoneStream(w, port, Raise(Raise(o, m), crcs[0]));
    }
  }

  lemma NoneStream<S>(w: World<S>, port: Side, o: Option<nat>)
    ensures Stream(w, port, o, []) && High(o, []) == o
  {
  }

  lemma ChecksumMessagesTrue<S>(w: World<S>, s: Session<S>)
    requires Coherent(w, s)
    ensures var crcs := ChecksumMessages(s, true);
      crcs == [] || (|crcs| == 1 && crcs[0].Checksum? && crcs[0].crc == TruthCrc(w, crcs[0].frame))
  {
    if ChecksumDue(s) { ChecksumIsTrue(w, s); }
  }

  /** What one tick sends continues the sender's stream. */
  lemma TickSends<S(!new)>(w: World<S>, p: Session<S>, ready: seq<Msg>, o: Option<nat>)
    requires Exact(w.core) && Coherent(w, p) && Stream(w, 1 - p.port, ConfirmedOf(p), ready) && p.status != Disconnected
    requires p.frame <= if o.Some? then o.value + 1 else 0
    ensures var sent := Sent(w.core, p, PlayerInput(w, p.port, p.frame), Up(ready));
      && Stream(w, p.port, o, sent)
      && High(o, sent) == Raise(o, Input(p.frame, PlayerInput(w, p.port, p.frame)))
  {
    TickCases(w, p, ready);
    var now := PlayerInput(w, p.port, p.frame);
    var r := Reconciled(w.core, p, now, ready);
    var s := if Stalls(r) then r else Simulate(w.core, r, now);
    ChecksumMessagesTrue(w, s);
    InputThenChecksums(w, p.port, o, p.frame, ChecksumMessages(s, true));
  }
}
