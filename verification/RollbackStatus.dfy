/** What the status returned by a tick says and what it does not, and what a tick sends, for every core and
    transport (src/net/RollbackSession.cpp:59-130). */
module RollbackStatus {
  import opened Abi
  import opened NetMessages
  import opened RollbackModel
  import Crc32

  /** A rollback is due and the snapshot it needs does not load. */
  predicate SnapshotLost<S>(c: Core<S>, d: Session<S>) {
    && Reconciles(d)
    && var g := FirstMispredicted(d.remote, d.used, d.verified, Horizon(d));
      g.Some? && Load(c, Lookup(d.ring, g.value, [])).None?
  }

  /** A tick reports a desync exactly when the session was connected, sending and polling worked, and a
      snapshot did not load. Checksums have no part in it. */
  lemma DesyncMeansSnapshotLost<S>(c: Core<S>, p: Session<S>, now: InputState, link: Link)
    ensures Tick(c, p, now, link).status == Desync
       <==> p.status != Disconnected && link.sendOk && link.recvOk && SnapshotLost(c, Received(p, now, link))
  {
    hide Drain, Simulate, Finish, Stalls, Resimulate, FirstMispredicted;
    var d := Received(p, now, link);
    FinishSays(Reconcile(c, d).0, Stalled);
    FinishSays(Simulate(c, Reconcile(c, d).0, now), Status.Ok);
    DrainKeepsStatus(p.(local := p.local[p.frame := now]), link.ready);
  }

  lemma FinishSays<S>(p: Session<S>, status: Status)
    ensures Finish(p, status).status == status
  {
  }

  lemma {:induction false} DrainKeepsStatus<S>(p: Session<S>, ready: seq<Msg>)
    ensures Drain(p, ready).status == p.status
    decreases |ready|
  {
    if ready != [] { DrainKeepsStatus(Deliver(p, ready[0]), ready[1..]); }
  }

  /** A session whose checksums clash goes on reporting Ok: the clash is found, and overwritten. */
  lemma ClashIsOverwritten<S>(c: Core<S>, start: S, maxPrediction: nat, now: InputState, own: uint32, peer: uint32)
    requires maxPrediction >= 1 && own != peer
    ensures var p := Session(0, maxPrediction, 0, 0, false, 0, 0, Status.Ok, start, map[], map[], map[], map[],
                             map[60 := own], map[60 := peer]);
      var q := Tick(c, p, now, Link(true, [], true));
      ChecksumsClash(p) && ChecksumsClash(q) && q.status == Status.Ok && q.frame == 1
  {
    hide PruneBelow, StepAt;
    var p := Session(0, maxPrediction, 0, 0, false, 0, 0, Status.Ok, start, map[], map[], map[], map[],
                     map[60 := own], map[60 := peer]);
    var q := Tick(c, p, now, Link(true, [], true));
    assert 60 in p.ownCrc && 60 in p.peerCrc;
    assert q.ownCrc == p.ownCrc && q.peerCrc == p.peerCrc;
  }

  /** Whether a tick finds the session too far ahead to run another frame. */
  predicate TooFarAhead<S>(d: Session<S>) {
    d.maxPrediction == 0 || (d.haveConfirmed && d.frame >= d.confirmed + d.maxPrediction + 1)
  }

  /** The status of every tick, read off the session and the transport. */
  lemma StatusOfTick<S>(c: Core<S>, p: Session<S>, now: InputState, link: Link)
    ensures var d, q := Received(p, now, link), Tick(c, p, now, link);
      var up := p.status != Disconnected && link.sendOk && link.recvOk;
      && (q.status == Disconnected <==> !up)
      && (q.status == Desync <==> up && SnapshotLost(c, d))
      && (q.status == Stalled <==> up && !SnapshotLost(c, d) && TooFarAhead(d))
      && (q.status == Status.Ok <==> up && !SnapshotLost(c, d) && !TooFarAhead(d))
      && q.frame == (if q.status == Status.Ok && p.status != Disconnected then p.frame + 1 else p.frame)
  {
    hide Drain, Simulate, Finish, Stalls, Resimulate, FirstMispredicted;
    var d := Received(p, now, link);
    var r := Reconcile(c, d).0;
    FinishSays(r, Stalled);
    FinishSays(Simulate(c, r, now), Status.Ok);
    DrainKeepsStatus(p.(local := p.local[p.frame := now]), link.ready);
    DrainOnlyReceives(p.(local := p.local[p.frame := now]), link.ready);
    FinishMoves(r, Stalled);
    FinishMoves(Simulate(c, r, now), Status.Ok);
    ReconcilePlace(c, d);
    StallsWhenTooFarAhead(r);
    SimulateMoves(c, r, now);
  }

  lemma StallsWhenTooFarAhead<S>(p: Session<S>)
    ensures Stalls(p) <==> TooFarAhead(p)
  {
  }

  lemma FinishMoves<S>(p: Session<S>, status: Status)
    ensures Finish(p, status).frame == p.frame
  {
  }

  lemma SimulateMoves<S>(c: Core<S>, p: Session<S>, now: InputState)
    ensures Simulate(c, p, now).frame == p.frame + 1
  {
  }

  lemma {:induction false} ResimulatePlace<S>(c: Core<S>, p: Session<S>, f: nat, end: nat)
    ensures var q := Resimulate(c, p, f, end);
      && q.frame == p.frame && q.confirmed == p.confirmed && q.haveConfirmed == p.haveConfirmed
      && q.maxPrediction == p.maxPrediction && q.rollbacks == p.rollbacks && q.status == p.status
    decreases end - f
  {
    if f < end { ResimulatePlace(c, ResimulateOne(c, p, f), f + 1, end); }
  }

  function Min(a: int, b: int): int { if a < b then a else b }

  /** Reconciling moves no frame, verifies up to the horizon unless a needed snapshot does not load, and counts one
      rollback exactly when a misprediction was found and replayed. */
  lemma ReconcilePlace<S>(c: Core<S>, p: Session<S>)
    ensures var q, loaded := Reconcile(c, p).0, Reconcile(c, p).1;
      && q.frame == p.frame && q.confirmed == p.confirmed && q.haveConfirmed == p.haveConfirmed
      && q.maxPrediction == p.maxPrediction
      && q.status == (if loaded then p.status else Desync) && (loaded <==> !SnapshotLost(c, p))
      && q.rollbacks == p.rollbacks
           + (if loaded && Reconciles(p) && FirstMispredicted(p.remote, p.used, p.verified, Horizon(p)).Some?
              then 1 else 0)
      && q.verified == (if loaded && Reconciles(p) then Min(p.confirmed, p.frame - 1) + 1 else p.verified)
      && (!loaded ==> q == p.(status := Desync, ring := q.ring))
  {
    hide Resimulate, FirstMispredicted;
    if Reconciles(p) {
      match FirstMispredicted(p.remote, p.used, p.verified, Horizon(p)) {
        case None =>
        case Some(g) =>
          var q := p.(ring := p.ring[g := Lookup(p.ring, g, [])]);
          match Load(c, Lookup(p.ring, g, [])) {
            case None =>
            case Some(s) => ResimulatePlace(c, q.(state := s), g, p.frame);
          }
      }
    }
  }

  /** A session that is or becomes disconnected: nothing runs, and only what was already done is kept. */
  lemma DisconnectedTickDoesNothing<S>(c: Core<S>, p: Session<S>, now: InputState, link: Link)
    requires p.status == Disconnected || !link.sendOk || !link.recvOk
    ensures var q, sent := Tick(c, p, now, link), Sent(c, p, now, link);
      && q.state == p.state && q.frame == p.frame && q.verified == p.verified && q.ring == p.ring && q.used == p.used
      && q.ownCrc == p.ownCrc && q.rollbacks == p.rollbacks
      && (p.status == Disconnected ==> q == p && sent == [])
      && (p.status != Disconnected ==> q.local == p.local[p.frame := now])
      && (p.status != Disconnected && !link.sendOk ==> q.remote == p.remote && q.peerCrc == p.peerCrc && sent == [])
      && (p.status != Disconnected && link.sendOk ==> sent == [Input(p.frame, now)])
  {
    hide Drain;
    DrainOnlyReceives(p.(local := p.local[p.frame := now]), link.ready);
  }

  /** What every tick sends and records, for every core and transport: its input when sending works; then, when it
      was neither cut short nor lost a snapshot, and a positive multiple of 60 is verified whose snapshot is there,
      the checksum of that snapshot. */
  lemma SentByTick<S>(c: Core<S>, p: Session<S>, now: InputState, link: Link)
    ensures var q, sent := Tick(c, p, now, link), Sent(c, p, now, link);
      var done := p.status != Disconnected && (q.status == Stalled || q.status == Status.Ok);
      var due := done && q.verified > 0 && q.verified % 60 == 0 && q.verified in q.ring;
      && sent == (if p.status == Disconnected || !link.sendOk then [] else [Input(p.frame, now)])
                 + (if due then [Checksum(q.verified, Crc32.Value(q.ring[q.verified]))] else [])
      && q.ownCrc == if due then p.ownCrc[q.verified := Crc32.Value(q.ring[q.verified])] else p.ownCrc
  {
    hide Drain, Simulate, Finish, Stalls, ChecksumMessages, Resimulate, FirstMispredicted;
    var d := Received(p, now, link);
    var r := Reconcile(c, d).0;
    DrainOnlyReceives(p.(local := p.local[p.frame := now]), link.ready);
    DrainKeepsStatus(p.(local := p.local[p.frame := now]), link.ready);
    ReconcilePlace(c, d);
    ReconcileKeepsOwn(c, d);
    SimulateKeepsOwn(c, r, now);
    FinishSends(r, Stalled);
    FinishSends(Simulate(c, r, now), Status.Ok);
  }

  lemma FinishSends<S>(p: Session<S>, status: Status)
    ensures var q := Finish(p, status);
      var due := q.verified > 0 && q.verified % 60 == 0 && q.verified in q.ring;
      && q.status == status && q.verified == p.verified
      && ChecksumMessages(p, true) == (if due then [Checksum(q.verified, Crc32.Value(q.ring[q.verified]))] else [])
      && q.ownCrc == if due then p.ownCrc[q.verified := Crc32.Value(q.ring[q.verified])] else p.ownCrc
  {
    hide Crc32.Value, Slack;
  }

  lemma SimulateKeepsOwn<S>(c: Core<S>, p: Session<S>, now: InputState)
    ensures Simulate(c, p, now).ownCrc == p.ownCrc
  {
  }

  lemma {:induction false} ResimulateKeepsOwn<S>(c: Core<S>, p: Session<S>, f: nat, end: nat)
    ensures Resimulate(c, p, f, end).ownCrc == p.ownCrc
    decreases end - f
  {
    if f < end { ResimulateKeepsOwn(c, ResimulateOne(c, p, f), f + 1, end); }
  }

  lemma ReconcileKeepsOwn<S>(c: Core<S>, p: Session<S>)
    ensures Reconcile(c, p).0.ownCrc == p.ownCrc
  {
    hide Resimulate, FirstMispredicted;
    if Reconciles(p) {
      match FirstMispredicted(p.remote, p.used, p.verified, Horizon(p)) {
        case None =>
        case Some(g) =>
          var q := p.(ring := p.ring[g := Lookup(p.ring, g, [])]);
          match Load(c, Lookup(p.ring, g, [])) {
            case None =>
            case Some(s) => ResimulateKeepsOwn(c, q.(state := s), g, p.frame);
          }
      }
    }
  }

  lemma {:induction false} DrainOnlyReceives<S>(p: Session<S>, ready: seq<Msg>)
    ensures var q := Drain(p, ready);
      && q.state == p.state && q.frame == p.frame && q.verified == p.verified && q.ring == p.ring && q.used == p.used
      && q.ownCrc == p.ownCrc && q.rollbacks == p.rollbacks && q.local == p.local
    decreases |ready|
  {
    hide Deliver;
    if ready != [] {
      DeliverOnlyReceives(p, ready[0]);
      DrainOnlyReceives(Deliver(p, ready[0]), ready[1..]);
    }
  }

  lemma DeliverOnlyReceives<S>(p: Session<S>, m: Msg)
    ensures var q := Deliver(p, m);
      q == p.(remote := q.remote, confirmed := q.confirmed, haveConfirmed := q.haveConfirmed, peerCrc := q.peerCrc)
  {
  }
}
