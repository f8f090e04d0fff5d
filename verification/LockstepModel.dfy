/** What the two halves of one `NetSession` tick do, as functions from the session and what the
    transport delivers (src/net/NetSession.cpp). */
module LockstepModel {
  import opened Abi
  import opened NetMessages
  import Crc32

  const CHECKSUM_EVERY: nat := 60

  datatype Status = Ok | Waiting | Desync | Disconnected

  datatype Session<S> = Session(
    port: Side, delay: nat, frame: nat, status: Status, state: S,
    localPending: map<nat, InputState>, remotePending: map<nat, InputState>,
    ownCrc: map<nat, uint32>, peerCrc: map<nat, uint32>)

  /** What the transport does during one receive: the messages that arrive before it would time out,
      whether it then times out or reports that it is closed, and whether sends succeed. */
  datatype Link = Link(ready: seq<Msg>, open: bool, sendOk: bool)

  /** The session afterwards, the messages it sent and those it left in the transport. */
  datatype Turn<S> = Turn(session: Session<S>, sent: seq<Msg>, left: seq<Msg>)

  // ----- first half -----

  function SendInput<S>(p: Session<S>, localNow: InputState, sendOk: bool): Turn<S> {
    if p.status == Disconnected then Turn(p, [], [])
    else
      var q := p.(localPending := p.localPending[p.frame + p.delay := localNow]);
      if sendOk then Turn(q, [Input(p.frame + p.delay, localNow)], []) else Turn(q.(status := Disconnected), [], [])
  }

  // ----- second half -----

  function Take<S>(p: Session<S>, m: Msg): Session<S> {
    match m
    case Input(a, x) => p.(remotePending := p.remotePending[a := x])
    case Checksum(f, crc) => p.(peerCrc := p.peerCrc[f := crc])
    case Other => p
  }

  /** Take messages until the remote input of the current frame is there. */
  function DrainUntil<S>(p: Session<S>, ready: seq<Msg>): (r: (Session<S>, seq<Msg>))
    decreases |ready|
  {
    if p.frame in p.remotePending || ready == [] then (p, ready) else DrainUntil(Take(p, ready[0]), ready[1..])
  }

  /** A remote input is owed from frame `delay` on. */
  function Await<S>(p: Session<S>, ready: seq<Msg>): (Session<S>, seq<Msg>) {
    if p.frame >= p.delay then DrainUntil(p, ready) else (p, ready)
  }

  predicate Starved<S>(p: Session<S>) {
    p.frame >= p.delay && p.frame !in p.remotePending
  }

  /** Feed the pair of inputs destined for this frame (neutral where none was sent) and run it. */
  function Present<S>(c: Core<S>, p: Session<S>): Session<S> {
    p.(state := StepAt(c, p.port, p.state, Lookup(p.localPending, p.frame, Neutral()),
                       Lookup(p.remotePending, p.frame, Neutral())))
  }

  /** The checksum of the state reached by this frame, on every 60th frame. */
  function ChecksumOf<S>(c: Core<S>, p: Session<S>): Option<uint32> {
    if p.frame % CHECKSUM_EVERY != 0 then None
    else match c.save(p.state)
      case Some(b) => Some(Crc32.Value(b))
      case None => None
  }

  function RecordChecksum<S>(p: Session<S>, crc: Option<uint32>): Session<S> {
    match crc case Some(v) => p.(ownCrc := p.ownCrc[p.frame := v]) case None => p
  }

  function ChecksumMessages<S>(p: Session<S>, crc: Option<uint32>): seq<Msg> {
    match crc case Some(v) => [Checksum(p.frame, v)] case None => []
  }

  predicate Clashes(own: map<nat, uint32>, peer: map<nat, uint32>) {
    exists f: nat :: f in own && f in peer && own[f] != peer[f]
  }

  function Before(frame: nat, window: nat): nat {
    if frame >= window then frame - window else 0
  }

  function Prune<S>(p: Session<S>): Session<S> {
    p.(remotePending := PruneBelow(p.remotePending, Before(p.frame, 3)),
       localPending := PruneBelow(p.localPending, Before(p.frame, 3)),
       ownCrc := PruneBelow(p.ownCrc, Before(p.frame, 2 * CHECKSUM_EVERY)),
       peerCrc := PruneBelow(p.peerCrc, Before(p.frame, 2 * CHECKSUM_EVERY)))
  }

  /** Compare, prune and move on; a mismatch leaves the frame where it is. */
  function Settle<S>(p: Session<S>): Session<S> {
    if Clashes(p.ownCrc, p.peerCrc) then p.(status := Desync)
    else Prune(p).(frame := p.frame + 1, status := Status.Ok)
  }

  /** Run the current frame; the inputs it needs are there. */
  function Complete<S>(c: Core<S>, p: Session<S>, sendOk: bool): (Session<S>, seq<Msg>) {
    var q := Present(c, p);
    var crc := ChecksumOf(c, q);
    var r := RecordChecksum(q, crc);
    if crc.Some? && !sendOk then (r.(status := Disconnected), [])
    else (Settle(r), ChecksumMessages(q, crc))
  }

  function RecvAndAdvance<S>(c: Core<S>, p: Session<S>, link: Link): Turn<S> {
    if p.status == Disconnected then Turn(p, [], link.ready)
    else
      var (q, left) := Await(p, link.ready);
      if Starved(q) then Turn(q.(status := if link.open then Waiting else Disconnected), [], left)
      else
        var (r, sent) := Complete(c, q, link.sendOk);
        Turn(r, sent, left)
  }
}
