/** The invariant of one lockstep session and what its two half-ticks keep (src/net/NetSession.cpp).
    The two machines need not run the same core from the same state: what they disagree on is what
    the checksums are for. */
module LockstepProofs {
  import opened Abi
  import opened NetMessages
  import opened LockstepModel
  import Crc32

  /** Everything that fixes a match. Each player gives one input per frame it is at, so a retry
      after a time-out passes the same input again. */
  datatype World<!S> = World(core: seq<Core<S>>, start: seq<S>, input: seq<nat -> InputState>, delay: nat)

  predicate TwoSided<S>(w: World<S>) {
    |w.core| == 2 && |w.start| == 2 && |w.input| == 2
  }

  /** The canonical input of a player: neutral for the first `delay` frames, then what the player
      gave `delay` frames ago. */
  function Canon<S>(w: World<S>, i: Side, f: nat): InputState
    requires TwoSided(w)
  {
    if f < w.delay then Neutral() else w.input[i](f - w.delay)
  }

  /** The canonical run on machine `i`: host inputs on port 0, join inputs on port 1. */
  function State<S>(w: World<S>, i: Side, n: nat): S
    requires TwoSided(w)
  {
    if n == 0 then w.start[i] else w.core[i].step(State(w, i, n - 1), Canon(w, 0, n - 1), Canon(w, 1, n - 1))
  }

  /** The checksum machine `i` takes after frame `f`, if it takes one. */
  function CrcAt<S>(w: World<S>, i: Side, f: nat): Option<uint32>
    requires TwoSided(w)
  {
    if f % CHECKSUM_EVERY != 0 then None
    else match w.core[i].save(State(w, i, f + 1))
      case Some(b) => Some(Crc32.Value(b))
      case None => None
  }

  // ----- what a peer has sent -----

  ghost predicate ChecksumIn<S>(w: World<S>, i: Side, f: nat, log: seq<Msg>)
    requires TwoSided(w)
  {
    CrcAt(w, i, f).Some? ==> Checksum(f, CrcAt(w, i, f).value) in log
  }

  predicate InputIn<S>(w: World<S>, i: Side, a: nat, log: seq<Msg>)
    requires TwoSided(w)
  {
    Input(a, Canon(w, i, a)) in log
  }

  /** Message `m` of peer `i` may follow `before`: an input follows the checksums of all frames before
      the one at which it is given, a checksum follows the inputs up to the frame it belongs to. */
  ghost predicate MayFollow<S>(w: World<S>, i: Side, before: seq<Msg>, m: Msg)
    requires TwoSided(w)
  {
    match m
    case Input(a, x) =>
      && a >= w.delay && x == Canon(w, i, a)
      && (forall f: nat | f + w.delay < a :: ChecksumIn(w, i, f, before))
    case Checksum(f, crc) =>
      && CrcAt(w, i, f) == Some(crc)
      && (forall a: nat | w.delay <= a <= f + w.delay :: InputIn(w, i, a, before))
    case Other => true
  }

  ghost predicate Ordered<S>(w: World<S>, i: Side, log: seq<Msg>)
    requires TwoSided(w)
  {
    forall k | 0 <= k < |log| :: MayFollow(w, i, log[..k], log[k])
  }

  /** The log of a peer that is about to run frame `frame`; `given` when it has sent that frame's input. */
  ghost predicate SentUpTo<S>(w: World<S>, i: Side, log: seq<Msg>, frame: nat, given: bool)
    requires TwoSided(w)
  {
    && (forall a: nat | w.delay <= a < frame + w.delay :: InputIn(w, i, a, log))
    && (given ==> InputIn(w, i, frame + w.delay, log))
    && (forall f: nat | f < frame :: ChecksumIn(w, i, f, log))
    && (forall m | m in log && m.Input? :: m.frame <= frame + w.delay)
  }

  // ----- what a peer holds -----

  ghost predicate LocalOk<S>(w: World<S>, i: Side, local: map<nat, InputState>, frame: nat)
    requires TwoSided(w)
  {
    && (forall a | a in local :: w.delay <= a <= frame + w.delay && local[a] == Canon(w, i, a))
    && (forall a: nat | w.delay <= a && frame <= a < frame + w.delay :: a in local)
  }

  /** `taken` is what peer `i` has taken from the other one. */
  ghost predicate RemoteOk<S>(w: World<S>, i: Side, remote: map<nat, InputState>, frame: nat, taken: seq<Msg>)
    requires TwoSided(w)
  {
    && (forall a | a in remote :: w.delay <= a && remote[a] == Canon(w, 1 - i, a) && InputIn(w, 1 - i, a, taken))
    && (forall a: nat | frame <= a && InputIn(w, 1 - i, a, taken) :: a in remote)
  }

  /** Own checksums are exactly those of the last two checksum periods. */
  ghost predicate OwnCrcOk<S>(w: World<S>, i: Side, own: map<nat, uint32>, frame: nat)
    requires TwoSided(w)
  {
    && (forall f | f in own :: CrcAt(w, i, f) == Some(own[f]) && f < frame <= f + 2 * CHECKSUM_EVERY + 1)
    && (forall f: nat | f < frame <= f + 2 * CHECKSUM_EVERY + 1 && CrcAt(w, i, f).Some? :: f in own)
  }

  /** A peer's checksum of frame `f` is taken only after frame `f + delay`, and then kept. */
  ghost predicate PeerCrcOk<S>(w: World<S>, i: Side, peer: map<nat, uint32>, frame: nat, taken: seq<Msg>)
    requires TwoSided(w)
  {
    && (forall f | f in peer :: CrcAt(w, 1 - i, f) == Some(peer[f]) && Checksum(f, peer[f]) in taken)
    && (forall m | m in taken && m.Checksum? :: m.frame + w.delay < frame)
    && (forall m | m in taken && m.Checksum? && frame <= m.frame + 2 * CHECKSUM_EVERY + 1 :: m.frame in peer)
  }

  predicate Given<S>(p: Session<S>) {
    p.frame + p.delay in p.localPending
  }

  /** Both machines take a checksum of frame `f` and the two differ. */
  predicate DiffersAt<S>(w: World<S>, f: nat)
    requires TwoSided(w)
  {
    CrcAt(w, 0, f).Some? && CrcAt(w, 1, f).Some? && CrcAt(w, 0, f) != CrcAt(w, 1, f)
  }

  /** No difference older than the round trip of the inputs has been passed over. */
  ghost predicate NonePassed<S>(w: World<S>, frame: nat)
    requires TwoSided(w)
  {
    w.delay <= 2 * CHECKSUM_EVERY ==> forall f: nat | f + w.delay + 1 < frame :: !DiffersAt(w, f)
  }

  /** A difference has been seen at frame `frame`; that needs its checksums to outlive the round trip. */
  ghost predicate Caught<S>(w: World<S>, frame: nat)
    requires TwoSided(w)
  {
    w.delay <= 2 * CHECKSUM_EVERY && exists f: nat :: f + w.delay < frame && DiffersAt(w, f)
  }

  ghost predicate PeerOk<S>(w: World<S>, i: Side, p: Session<S>, taken: seq<Msg>)
    requires TwoSided(w)
  {
    && p.port == i && p.delay == w.delay
    && NonePassed(w, p.frame)
    && p.status != Disconnected
    && (p.status == Desync ==> Caught(w, p.frame))
    && (p.status != Desync ==> Running(w, i, p, taken))
  }

  ghost predicate Running<S>(w: World<S>, i: Side, p: Session<S>, taken: seq<Msg>)
    requires TwoSided(w)
  {
    && p.state == State(w, i, p.frame)
    && LocalOk(w, i, p.localPending, p.frame)
    && RemoteOk(w, i, p.remotePending, p.frame, taken)
    && OwnCrcOk(w, i, p.ownCrc, p.frame)
    && PeerCrcOk(w, i, p.peerCrc, p.frame, taken)
  }

  // ----- taking messages -----

  /** One more message is taken while the input of the current frame is still missing. */
  lemma TakeOk<S>(w: World<S>, i: Side, p: Session<S>, log: seq<Msg>, k: nat)
    requires TwoSided(w) && k < |log| && Ordered(w, 1 - i, log)
    requires RemoteOk(w, i, p.remotePending, p.frame, log[..k]) && PeerCrcOk(w, i, p.peerCrc, p.frame, log[..k])
    requires w.delay <= p.frame && p.frame !in p.remotePending
    ensures var q := Take(p, log[k]);
      && RemoteOk(w, i, q.remotePending, p.frame, log[..k + 1])
      && PeerCrcOk(w, i, q.peerCrc, p.frame, log[..k + 1])
  {
    hide Canon, CrcAt;
    assert log[..k + 1] == log[..k] + [log[k]];
    assert MayFollow(w, 1 - i, log[..k], log[k]);
  }

  lemma {:induction false} DrainOk<S>(w: World<S>, i: Side, p: Session<S>, log: seq<Msg>, k: nat, n: nat)
    requires TwoSided(w) && k <= n <= |log| && Ordered(w, 1 - i, log)
    requires RemoteOk(w, i, p.remotePending, p.frame, log[..k]) && PeerCrcOk(w, i, p.peerCrc, p.frame, log[..k])
    requires w.delay <= p.frame
    ensures var (q, left) := DrainUntil(p, log[k..n]);
      && |left| <= n - k && left == log[n - |left|..n]
      && q == p.(remotePending := q.remotePending, peerCrc := q.peerCrc)
      && RemoteOk(w, i, q.remotePending, p.frame, log[..n - |left|])
      && PeerCrcOk(w, i, q.peerCrc, p.frame, log[..n - |left|])
      && (p.frame in q.remotePending || left == [])
    decreases n - k
  {
    hide RemoteOk, PeerCrcOk, Ordered;
    if p.frame in p.remotePending || k == n {
    } else {
      TakeOk(w, i, p, log, k);
      assert log[k..n][0] == log[k] && log[k..n][1..] == log[k + 1..n];
      DrainOk(w, i, Take(p, log[k]), log, k + 1, n);
    }
  }

  lemma AwaitOk<S>(w: World<S>, i: Side, p: Session<S>, log: seq<Msg>, k: nat, n: nat)
    requires TwoSided(w) && k <= n <= |log| && Ordered(w, 1 - i, log)
    requires p.delay == w.delay && Running(w, i, p, log[..k])
    ensures var (q, left) := Await(p, log[k..n]);
      && |left| <= n - k && left == log[n - |left|..n]
      && q == p.(remotePending := q.remotePending, peerCrc := q.peerCrc)
      && Running(w, i, q, log[..n - |left|])
      && (Starved(q) ==> left == [])
  {
    hide RemoteOk, PeerCrcOk, Ordered, LocalOk, OwnCrcOk, State, DrainUntil;
    if p.frame >= p.delay { DrainOk(w, i, p, log, k, n); } else { assert log[..n - (n - k)] == log[..k]; }
  }

  // ----- completing a frame -----

  /** The frame is run on the canonical inputs. */
  lemma PresentOk<S>(w: World<S>, i: Side, p: Session<S>, taken: seq<Msg>)
    requires TwoSided(w) && p.port == i && p.delay == w.delay && Running(w, i, p, taken)
    requires Given(p) && !Starved(p)
    ensures Present(w.core[i], p).state == State(w, i, p.frame + 1)
    ensures ChecksumOf(w.core[i], Present(w.core[i], p)) == CrcAt(w, i, p.frame)
  {
    var own, other := Lookup(p.localPending, p.frame, Neutral()), Lookup(p.remotePending, p.frame, Neutral());
    assert own == Canon(w, i, p.frame) && other == Canon(w, 1 - i, p.frame);
  }

  ghost predicate OwnNow<S>(w: World<S>, i: Side, own: map<nat, uint32>, frame: nat)
    requires TwoSided(w)
  {
    && (forall f | f in own :: CrcAt(w, i, f) == Some(own[f]) && f <= frame <= f + 2 * CHECKSUM_EVERY + 1)
    && (forall f: nat | f <= frame <= f + 2 * CHECKSUM_EVERY + 1 && CrcAt(w, i, f).Some? :: f in own)
  }

  /** A mismatch found now is a real difference. */
  lemma ClashIsCaught<S>(w: World<S>, i: Side, own: map<nat, uint32>, peer: map<nat, uint32>, frame: nat,
                         taken: seq<Msg>)
    requires TwoSided(w) && OwnNow(w, i, own, frame) && PeerCrcOk(w, i, peer, frame, taken) && Clashes(own, peer)
    ensures Caught(w, frame)
  {
    hide CrcAt;
    var f: nat :| f in own && f in peer && own[f] != peer[f];
    assert Checksum(f, peer[f]) in taken;
    assert CrcAt(w, 0, f).Some? && CrcAt(w, 1, f).Some?;
    assert f + w.delay < frame && DiffersAt(w, f);
  }

  /** With no mismatch found, the frame just run passes over no difference: the input it needed was
      sent after the checksum to compare with, and both checksums are still held. */
  lemma NoClashNonePassed<S>(w: World<S>, i: Side, own: map<nat, uint32>, peer: map<nat, uint32>, frame: nat,
                             taken: seq<Msg>)
    requires TwoSided(w) && OwnNow(w, i, own, frame) && PeerCrcOk(w, i, peer, frame, taken) && !Clashes(own, peer)
    requires Ordered(w, 1 - i, taken) && NonePassed(w, frame)
    requires w.delay <= frame ==> InputIn(w, 1 - i, frame, taken)
    ensures NonePassed(w, frame + 1)
  {
    hide CrcAt, Canon;
    if w.delay <= 2 * CHECKSUM_EVERY && w.delay + 1 <= frame {
      var f := frame - w.delay - 1;
      var k :| 0 <= k < |taken| && taken[k] == Input(frame, Canon(w, 1 - i, frame));
      assert MayFollow(w, 1 - i, taken[..k], taken[k]);
      assert ChecksumIn(w, 1 - i, f, taken[..k]);
      assert CrcAt(w, 1 - i, f).Some? ==> Checksum(f, CrcAt(w, 1 - i, f).value) in taken;
      assert CrcAt(w, i, f).Some? ==> f in own;
      assert CrcAt(w, 1 - i, f).Some? ==> f in peer;
    }
  }

  lemma RecordOk<S>(w: World<S>, i: Side, own: map<nat, uint32>, frame: nat)
    requires TwoSided(w) && OwnCrcOk(w, i, own, frame)
    ensures OwnNow(w, i, match CrcAt(w, i, frame) case Some(v) => own[frame := v] case None => own, frame)
  {
    hide CrcAt;
  }

  lemma PruneOk<S>(w: World<S>, i: Side, own: map<nat, uint32>, peer: map<nat, uint32>, local: map<nat, InputState>,
                   remote: map<nat, InputState>, frame: nat, taken: seq<Msg>)
    requires TwoSided(w) && OwnNow(w, i, own, frame) && PeerCrcOk(w, i, peer, frame, taken)
    requires LocalOk(w, i, local, frame) && frame + w.delay in local && RemoteOk(w, i, remote, frame, taken)
    ensures OwnCrcOk(w, i, PruneBelow(own, Before(frame, 2 * CHECKSUM_EVERY)), frame + 1)
    ensures PeerCrcOk(w, i, PruneBelow(peer, Before(frame, 2 * CHECKSUM_EVERY)), frame + 1, taken)
    ensures LocalOk(w, i, PruneBelow(local, Before(frame, 3)), frame + 1)
    ensures RemoteOk(w, i, PruneBelow(remote, Before(frame, 3)), frame + 1, taken)
  {
    hide CrcAt, Canon;
  }

  lemma CompleteOk<S>(w: World<S>, i: Side, p: Session<S>, taken: seq<Msg>)
    requires TwoSided(w) && PeerOk(w, i, p, taken) && p.status != Desync && Ordered(w, 1 - i, taken)
    requires Given(p) && !Starved(p)
    ensures var (q, sent) := Complete(w.core[i], p, true);
      && PeerOk(w, i, q, taken)
      && sent == (match CrcAt(w, i, p.frame) case Some(v) => [Checksum(p.frame, v)] case None => [])
      && q.frame == (if q.status == Desync then p.frame else p.frame + 1)
      && (q.status != Desync ==> q.status == Status.Ok)
      && (Given(q) <==> q.status == Desync)
  {
    hide CrcAt, Canon, State, LocalOk, RemoteOk, OwnCrcOk, PeerCrcOk, OwnNow, Caught, NonePassed, Ordered, Clashes,
         PruneBelow, Before, InputIn;
    var c := w.core[i];
    PresentOk(w, i, p, taken);
    RecordOk(w, i, p.ownCrc, p.frame);
    var r := RecordChecksum(Present(c, p), CrcAt(w, i, p.frame));
    assert OwnNow(w, i, r.ownCrc, p.frame);
    if Clashes(r.ownCrc, r.peerCrc) {
      ClashIsCaught(w, i, r.ownCrc, r.peerCrc, p.frame, taken);
    } else {
      HeldWasTaken(w, i, p.remotePending, p.frame, taken);
      NoClashNonePassed(w, i, r.ownCrc, r.peerCrc, p.frame, taken);
      PruneOk(w, i, r.ownCrc, r.peerCrc, r.localPending, r.remotePending, p.frame, taken);
      NothingAhead(w, i, r.localPending, p.frame);
    }
  }

  lemma HeldWasTaken<S>(w: World<S>, i: Side, remote: map<nat, InputState>, a: nat, taken: seq<Msg>)
    requires TwoSided(w) && RemoteOk(w, i, remote, a, taken)
    ensures a in remote ==> InputIn(w, 1 - i, a, taken)
  {
  }

  // ----- what a peer adds to its log -----

  lemma OrderedAppend<S>(w: World<S>, i: Side, log: seq<Msg>, m: Msg)
    requires TwoSided(w) && Ordered(w, i, log) && MayFollow(w, i, log, m)
    ensures Ordered(w, i, log + [m])
  {
    hide MayFollow;
    forall k | 0 <= k < |log + [m]| ensures MayFollow(w, i, (log + [m])[..k], (log + [m])[k]) {
      if k < |log| { assert (log + [m])[..k] == log[..k]; } else { assert (log + [m])[..k] == log; }
    }
  }

  lemma OrderedPrefix<S>(w: World<S>, i: Side, log: seq<Msg>, n: nat)
    requires TwoSided(w) && n <= |log| && Ordered(w, i, log)
    ensures Ordered(w, i, log[..n])
  {
    hide MayFollow;
    forall k | 0 <= k < n ensures MayFollow(w, i, log[..n][..k], log[..n][k]) {
      assert log[..n][..k] == log[..k];
    }
  }

  lemma SentAppend<S>(w: World<S>, i: Side, log: seq<Msg>, m: Msg, frame: nat, given: bool)
    requires TwoSided(w) && SentUpTo(w, i, log, frame, given) && (m.Input? ==> m.frame <= frame + w.delay)
    ensures SentUpTo(w, i, log + [m], frame, given)
  {
    hide CrcAt, Canon;
    forall a: nat | InputIn(w, i, a, log) ensures InputIn(w, i, a, log + [m]) {}
    forall f: nat | ChecksumIn(w, i, f, log) ensures ChecksumIn(w, i, f, log + [m]) {}
  }

  /** The input of the current frame, sent now or again. */
  lemma GiveOk<S>(w: World<S>, i: Side, p: Session<S>, taken: seq<Msg>, log: seq<Msg>)
    requires TwoSided(w) && PeerOk(w, i, p, taken) && p.status != Desync
    requires Ordered(w, i, log) && SentUpTo(w, i, log, p.frame, Given(p))
    ensures var turn := SendInput(p, w.input[i](p.frame), true);
      && PeerOk(w, i, turn.session, taken) && turn.session.frame == p.frame && turn.session.status == p.status
      && turn.sent == [Input(p.frame + w.delay, Canon(w, i, p.frame + w.delay))]
      && Ordered(w, i, log + turn.sent) && SentUpTo(w, i, log + turn.sent, p.frame, true) && Given(turn.session)
  {
    hide CrcAt, State, RemoteOk, OwnCrcOk, PeerCrcOk, Ordered, NonePassed, Caught;
    var m := Input(p.frame + w.delay, Canon(w, i, p.frame + w.delay));
    assert SendInput(p, w.input[i](p.frame), true).sent == [m];
    OrderedAppend(w, i, log, m);
    SentAppend(w, i, log, m, p.frame, Given(p));
    assert m in log + [m];
  }

  /** The checksum of the frame just run, when there is one. */
  lemma ReportOk<S>(w: World<S>, i: Side, frame: nat, log: seq<Msg>)
    requires TwoSided(w) && Ordered(w, i, log) && SentUpTo(w, i, log, frame, true)
    ensures var log' := log + (match CrcAt(w, i, frame) case Some(v) => [Checksum(frame, v)] case None => []);
      Ordered(w, i, log') && SentUpTo(w, i, log', frame, true) && SentUpTo(w, i, log', frame + 1, false)
  {
    hide CrcAt, Canon, Ordered;
    match CrcAt(w, i, frame) {
      case Some(v) =>
        OrderedAppend(w, i, log, Checksum(frame, v));
        SentAppend(w, i, log, Checksum(frame, v), frame, true);
        assert Checksum(frame, v) in log + [Checksum(frame, v)];
      case None => assert log + [] == log;
    }
  }

  /** A receive that times out changes nothing but the status. */
  lemma WaitOk<S>(w: World<S>, i: Side, p: Session<S>, taken: seq<Msg>)
    requires TwoSided(w) && PeerOk(w, i, p, taken) && p.status != Desync
    ensures PeerOk(w, i, p.(status := Waiting), taken)
  {
    hide LocalOk, RemoteOk, OwnCrcOk, PeerCrcOk, NonePassed, Caught, State;
  }

  /** A frame that can run is at most one input delay past the other peer. */
  lemma NotTooFar<S>(w: World<S>, i: Side, p: Session<S>, incoming: seq<Msg>, n: nat, other: nat, given: bool)
    requires TwoSided(w) && n <= |incoming| && p.delay == w.delay && Running(w, i, p, incoming[..n])
    requires SentUpTo(w, 1 - i, incoming, other, given) && !Starved(p)
    ensures p.frame <= other + w.delay
  {
    hide LocalOk, OwnCrcOk, PeerCrcOk, State, CrcAt, Canon;
    if p.frame >= w.delay {
      HeldWasTaken(w, i, p.remotePending, p.frame, incoming[..n]);
      assert Input(p.frame, Canon(w, 1 - i, p.frame)) in incoming;
    }
  }

  /** No input is recorded ahead of the one for the current frame. */
  lemma NothingAhead<S>(w: World<S>, i: Side, local: map<nat, InputState>, frame: nat)
    requires TwoSided(w) && LocalOk(w, i, local, frame)
    ensures frame + 1 + w.delay !in PruneBelow(local, Before(frame, 3))
  {
  }
}
