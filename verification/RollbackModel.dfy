/** What one `RollbackSession::tick` does, as a function from the session and what the transport
    delivers to the next session and what it sends (src/net/RollbackSession.cpp). */
module RollbackModel {
  import opened Abi
  import opened NetMessages
  import Crc32

  const CHECKSUM_EVERY: nat := 60

  datatype Status = Ok | Stalled | Desync | Disconnected

  datatype Session<S> = Session(
    port: Side, maxPrediction: nat,
    frame: nat, confirmed: nat, haveConfirmed: bool, verified: nat, rollbacks: nat, status: Status,
    state: S,
    ring: map<nat, Blob>, local: map<nat, InputState>, remote: map<nat, InputState>, used: map<nat, InputState>,
    ownCrc: map<nat, uint32>, peerCrc: map<nat, uint32>)

  /** What the transport does during one tick: whether sends succeed, the messages that are ready,
      and whether the poll after them reports an error instead of "nothing ready". */
  datatype Link = Link(sendOk: bool, ready: seq<Msg>, recvOk: bool)

  /** Frame `f` has a real remote input and it is not the one that was fed (neutral if none was). */
  predicate Mispredicted(actual: map<nat, InputState>, used: map<nat, InputState>, f: nat) {
    f in actual && actual[f] != Lookup(used, f, Neutral())
  }

  /** Earliest mispredicted frame in `[from, last]`. */
  function FirstMispredicted(actual: map<nat, InputState>, used: map<nat, InputState>, from: nat,
                             last: nat): (g: Option<nat>)
    ensures g.Some? ==> from <= g.value <= last && Mispredicted(actual, used, g.value)
    ensures forall f: nat :: from <= f <= last && (g.Some? ==> f < g.value) ==> !Mispredicted(actual, used, f)
    decreases last - from
  {
    if from > last then None
    else if Mispredicted(actual, used, from) then Some(from)
    else if from == last then None
    else FirstMispredicted(actual, used, from + 1, last)
  }

  /** Repeat the last confirmed input, else neutral. */
  function Predict(remote: map<nat, InputState>, confirmed: nat): InputState {
    Lookup(remote, confirmed, Neutral())
  }

  function RemoteInput<S>(p: Session<S>, f: nat): InputState {
    if f in p.remote then p.remote[f] else Predict(p.remote, p.confirmed)
  }

  function SaveRing<S>(c: Core<S>, p: Session<S>, f: nat): Session<S> {
    match c.save(p.state)
    case Some(b) => p.(ring := p.ring[f := b])
    case None => p
  }

  function Deliver<S>(p: Session<S>, m: Msg): Session<S> {
    match m
    case Input(f, s) =>
      var q := p.(remote := p.remote[f := s]);
      if !p.haveConfirmed || f > p.confirmed then q.(confirmed := f, haveConfirmed := true) else q
    case Checksum(f, crc) => p.(peerCrc := p.peerCrc[f := crc])
    case Other => p
  }

  function Drain<S>(p: Session<S>, ready: seq<Msg>): Session<S>
    decreases |ready|
  {
    if ready == [] then p else Drain(Deliver(p, ready[0]), ready[1..])
  }

  /** Silent re-simulation of `[f, end)`. A missing local entry is created neutral, as `std::map`
      indexing does. */
  function Resimulate<S>(c: Core<S>, p: Session<S>, f: nat, end: nat): Session<S>
    decreases end - f
  {
    if f >= end then p else Resimulate(c, ResimulateOne(c, p, f), f + 1, end)
  }

  function ResimulateOne<S>(c: Core<S>, p: Session<S>, f: nat): Session<S> {
    var rin := RemoteInput(p, f);
    var lin := Lookup(p.local, f, Neutral());
    SaveRing(c, p.(used := p.used[f := rin], local := p.local[f := lin],
                   state := StepAt(c, p.port, p.state, lin, rin)), f + 1)
  }

  function Horizon<S>(p: Session<S>): nat
    requires p.frame > 0
  {
    if p.confirmed < p.frame - 1 then p.confirmed else p.frame - 1
  }

  predicate Reconciles<S>(p: Session<S>) {
    p.haveConfirmed && p.frame > 0 && p.verified <= Horizon(p)
  }

  /** Load the snapshot of frame `g` and replay from it; the flag is false when it did not load. A
      missing snapshot is created empty, as `std::map` indexing does. */
  function RollBack<S>(c: Core<S>, p: Session<S>, g: nat): (Session<S>, bool) {
    var snap := Lookup(p.ring, g, []);
    var q := p.(ring := p.ring[g := snap]);
    match Load(c, snap)
    case None => (q.(status := Desync), false)
    case Some(s) => (Resimulate(c, q.(state := s), g, p.frame).(rollbacks := p.rollbacks + 1), true)
  }

  /** Step 3 of a tick. */
  function Reconcile<S>(c: Core<S>, p: Session<S>): (Session<S>, bool) {
    if !Reconciles(p) then (p, true)
    else match FirstMispredicted(p.remote, p.used, p.verified, Horizon(p))
      case None => (p.(verified := Horizon(p) + 1), true)
      case Some(g) =>
        var (q, loaded) := RollBack(c, p, g);
        (if loaded then q.(verified := Horizon(p) + 1) else q, loaded)
  }

  function Ahead<S>(p: Session<S>): nat {
    if p.frame > 0 && p.haveConfirmed && p.frame - 1 > p.confirmed then p.frame - 1 - p.confirmed else 0
  }

  predicate Stalls<S>(p: Session<S>) {
    Ahead(p) >= p.maxPrediction
  }

  /** Step 5: snapshot, predict, feed and run the current frame. */
  function Simulate<S>(c: Core<S>, p: Session<S>, localNow: InputState): Session<S> {
    var q := SaveRing(c, p, p.frame);
    var rin := RemoteInput(q, q.frame);
    q.(used := q.used[q.frame := rin], state := StepAt(c, q.port, q.state, localNow, rin), frame := q.frame + 1)
  }

  predicate ChecksumDue<S>(p: Session<S>) {
    p.verified != 0 && p.verified % CHECKSUM_EVERY == 0 && p.verified in p.ring
  }

  function RecordChecksum<S>(p: Session<S>): Session<S> {
    if ChecksumDue(p) then p.(ownCrc := p.ownCrc[p.verified := Crc32.Value(p.ring[p.verified])]) else p
  }

  /** The messages a tick sends after its input; a failing send is ignored here. */
  function ChecksumMessages<S>(p: Session<S>, sendOk: bool): seq<Msg> {
    if ChecksumDue(p) && sendOk then [Checksum(p.verified, Crc32.Value(p.ring[p.verified]))] else []
  }

  /** How far below the verified frame everything is kept. The sum is taken in 32 bits. */
  function Slack(maxPrediction: nat): nat {
    (maxPrediction + 2) % 0x1_0000_0000
  }

  function Floor<S>(p: Session<S>): nat {
    if p.verified > Slack(p.maxPrediction) then p.verified - Slack(p.maxPrediction) else 0
  }

  function Prune<S>(p: Session<S>): Session<S> {
    p.(ring := PruneBelow(p.ring, Floor(p)), local := PruneBelow(p.local, Floor(p)),
       remote := PruneBelow(p.remote, Floor(p)), used := PruneBelow(p.used, Floor(p)))
  }

  /** Some frame has both checksums and they differ. */
  ghost predicate ChecksumsClash<S>(p: Session<S>) {
    exists f: nat :: f in p.ownCrc && f in p.peerCrc && p.ownCrc[f] != p.peerCrc[f]
  }

  /** Step 6. The status set by the checksum comparison is overwritten by `status` at once. */
  function Finish<S>(p: Session<S>, status: Status): Session<S> {
    Prune(RecordChecksum(p)).(status := status)
  }

  function Received<S>(p: Session<S>, localNow: InputState, link: Link): Session<S> {
    Drain(p.(local := p.local[p.frame := localNow]), link.ready)
  }

  /** The session after one tick. */
  function Tick<S>(c: Core<S>, p: Session<S>, localNow: InputState, link: Link): Session<S> {
    if p.status == Disconnected then p
    else if !link.sendOk then p.(local := p.local[p.frame := localNow], status := Disconnected)
    else
      var d := Received(p, localNow, link);
      if !link.recvOk then d.(status := Disconnected)
      else
        var (r, loaded) := Reconcile(c, d);
        if !loaded then r
        else if Stalls(r) then Finish(r, Stalled)
        else Finish(Simulate(c, r, localNow), Status.Ok)
  }

  /** The messages sent by one tick, in order. */
  function Sent<S>(c: Core<S>, p: Session<S>, localNow: InputState, link: Link): seq<Msg> {
    if p.status == Disconnected || !link.sendOk then []
    else if !link.recvOk then [Input(p.frame, localNow)]
    else
      var (r, loaded) := Reconcile(c, Received(p, localNow, link));
      if !loaded then [Input(p.frame, localNow)]
      else [Input(p.frame, localNow)] + ChecksumMessages(if Stalls(r) then r else Simulate(c, r, localNow), true)
  }
}
