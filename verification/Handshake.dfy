/** How a match starts: hello both ways, then the host's state (src/net/NetSession.cpp,
    src/net/RollbackSession.cpp: `handshake`, `start_host`, `start_join`). */
module Handshake {
  import opened Abi
  import opened Wire = NetProtocol
  import LockstepModel
  import LockstepPeers
  import LockstepProofs
  import RollbackModel
  import RollbackProofs
  import RollbackPeers

  const ABI_VERSION: uint32 := 9
  const DEFAULT_PREDICTION: uint32 := 8

  /** The two sessions compare core ids differently and treat an agreed value of 0 differently. */
  datatype Kind = Lockstep | Rollback

  /** A C string: the bytes before its terminator. `None` is a null pointer. */
  predicate IsText(id: Option<Blob>) {
    id.Some? ==> 0 !in id.value
  }

  function Truncated(id: Option<Blob>): Blob {
    match id
    case None => []
    case Some(b) => if |b| > 63 then b[..63] else b
  }

  /** `set_core_id`: at most 63 bytes, then zeros up to 64. */
  function PaddedId(id: Option<Blob>): (r: Blob)
    ensures |r| == 64 && r[63] == 0
  {
    Truncated(id) + seq(64 - |Truncated(id)|, _ => 0)
  }

  /** What `strncmp` compares: the bytes before the first zero. */
  function Text(b: Blob): Blob {
    if b == [] || b[0] == 0 then [] else [b[0]] + Text(b[1..])
  }

  /** `memcmp` over the whole field, or `strncmp`. */
  predicate SameId(kind: Kind, a: Blob, b: Blob) {
    if kind == Lockstep then a == b else Text(a) == Text(b)
  }

  function HelloOf(value: uint32, contentHash: uint64, id: Option<Blob>): (h: Hello)
    ensures |h.coreId| == 64
  {
    Hello(ABI_VERSION, PaddedId(id), contentHash, value, 0)
  }

  /** The outcome of the hello exchange: on success the agreed delay or prediction limit. */
  datatype Met = Met(code: Code, agreed: uint32)

  function Settled(kind: Kind, value: uint32): uint32 {
    if kind == Rollback && value == 0 then DEFAULT_PREDICTION else value
  }

  /** The checks on the peer's hello, in the order the code makes them. */
  function Meet(kind: Kind, isHost: bool, mine: Hello, incoming: Blob): Met {
    match DecodedHello(incoming)
    case None => Met(Internal, 0)
    case Some(peer) =>
      if peer.abiVersion != mine.abiVersion then Met(AbiMismatch, 0)
      else if peer.contentHash != mine.contentHash || !SameId(kind, peer.coreId, mine.coreId) then Met(BadArg, 0)
      else Met(Code.Ok, Settled(kind, if isHost then mine.inputDelay else peer.inputDelay))
  }

  /** What one side does: its result, the agreed value (when `met`), its core state and the messages it
      sends. `incoming` are the messages that arrive before a receive times out, `open` says whether
      sends succeed. */
  datatype Started<S> = Started(code: Code, met: bool, agreed: uint32, state: S, sent: seq<Blob>)

  function StartHost<S>(kind: Kind, c: Core<S>, state: S, mine: Hello, incoming: seq<Blob>, open: bool): Started<S> {
    if !open then Started(Device, false, 0, state, [])
    else if incoming == [] then Started(Device, false, 0, state, [HelloBytes(mine)])
    else
      var m := Meet(kind, true, mine, incoming[0]);
      if m.code != Code.Ok then Started(m.code, false, 0, state, [HelloBytes(mine)])
      else match c.save(state)
        case None => Started(Internal, true, m.agreed, state, [HelloBytes(mine)])
        case Some(b) => Started(Code.Ok, true, m.agreed, state, [HelloBytes(mine), StateSyncBytes(StateSync(0, b))])
  }

  function StartJoin<S>(kind: Kind, c: Core<S>, state: S, mine: Hello, incoming: seq<Blob>, open: bool): Started<S> {
    if !open then Started(Device, false, 0, state, [])
    else if incoming == [] then Started(Device, false, 0, state, [HelloBytes(mine)])
    else
      var m := Meet(kind, false, mine, incoming[0]);
      if m.code != Code.Ok then Started(m.code, false, 0, state, [HelloBytes(mine)])
      else if |incoming| == 1 then Started(Device, true, m.agreed, state, [HelloBytes(mine)])
      else Synced(c, state, m.agreed, HelloBytes(mine), incoming[1])
  }

  /** The ways out of the host side, one line each. */
  lemma HostExits<S>(kind: Kind, c: Core<S>, state: S, mine: Hello, incoming: seq<Blob>, open: bool)
    ensures var h := StartHost(kind, c, state, mine, incoming, open);
      && (!open ==> h == Started(Device, false, 0, state, []))
      && (open && incoming == [] ==> h == Started(Device, false, 0, state, [HelloBytes(mine)]))
      && (open && incoming != [] ==>
            var m := Meet(kind, true, mine, incoming[0]);
            && (m.code != Code.Ok ==> h == Started(m.code, false, 0, state, [HelloBytes(mine)]))
            && (m.code == Code.Ok ==>
                  match c.save(state)
                  case None => h == Started(Internal, true, m.agreed, state, [HelloBytes(mine)])
                  case Some(b) =>
                    h == Started(Code.Ok, true, m.agreed, state, [HelloBytes(mine), StateSyncBytes(StateSync(0, b))])))
  {
    hide HelloBytes, StateSyncBytes, Meet;
  }

  /** The ways out of the join side. */
  lemma JoinExits<S>(kind: Kind, c: Core<S>, state: S, mine: Hello, incoming: seq<Blob>, open: bool)
    ensures var j := StartJoin(kind, c, state, mine, incoming, open);
      && (!open ==> j == Started(Device, false, 0, state, []))
      && (open && incoming == [] ==> j == Started(Device, false, 0, state, [HelloBytes(mine)]))
      && (open && incoming != [] ==>
            var m := Meet(kind, false, mine, incoming[0]);
            && (m.code != Code.Ok ==> j == Started(m.code, false, 0, state, [HelloBytes(mine)]))
            && (m.code == Code.Ok && |incoming| == 1
                ==> j == Started(Device, true, m.agreed, state, [HelloBytes(mine)]))
            && (m.code == Code.Ok && |incoming| > 1 ==> j == Synced(c, state, m.agreed, HelloBytes(mine), incoming[1])))
  {
    hide HelloBytes, Meet, Load, DecodedStateSync;
  }

  /** The join side once it has the host's state message. */
  function Synced<S>(c: Core<S>, state: S, agreed: uint32, hello: Blob, sync: Blob): Started<S> {
    match DecodedStateSync(sync)
    case None => Started(Internal, true, agreed, state, [hello])
    case Some(s) =>
      if s.blob == [] then Started(Code.Ok, true, agreed, state, [hello])
      else match Load(c, s.blob)
        case None => Started(Unsupported, true, agreed, state, [hello])
        case Some(loaded) => Started(Code.Ok, true, agreed, loaded, [hello])
  }

  /** One side's arguments, and the ABI version it was built for. The join side passes 0 as its value. */
  datatype Player<S> = Player(state: S, abi: uint32, contentHash: uint64, id: Option<Blob>)

  function PlayersHello<S>(player: Player<S>, value: uint32): (h: Hello)
    ensures |h.coreId| == 64 && h.coreId[63] == 0
  {
    HelloOf(value, player.contentHash, player.id).(abiVersion := player.abi)
  }

  /** Both starts over a lossless transport: each side receives what the other sends. */
  function HostSide<S>(kind: Kind, c: Core<S>, host: Player<S>, join: Player<S>, value: uint32): Started<S> {
    StartHost(kind, c, host.state, PlayersHello(host, value), [HelloBytes(PlayersHello(join, 0))], true)
  }

  function JoinSide<S>(kind: Kind, c: Core<S>, host: Player<S>, join: Player<S>, value: uint32): Started<S> {
    StartJoin(kind, c, join.state, PlayersHello(join, 0), HostSide(kind, c, host, join, value).sent, true)
  }

  // ----- identity -----

  lemma {:induction false} TextStops(a: Blob, zeros: Blob)
    requires 0 !in a && (forall k | 0 <= k < |zeros| :: zeros[k] == 0)
    ensures Text(a + zeros) == a
  {
    if a == [] {
      assert a + zeros == zeros;
    } else {
      assert (a + zeros)[1..] == a[1..] + zeros;
      TextStops(a[1..], zeros);
    }
  }

  /** On ids as the sessions build them the two comparisons agree: both compare the texts cut to 63 bytes. */
  lemma SameIdIsSameText(kind: Kind, a: Option<Blob>, b: Option<Blob>)
    requires IsText(a) && IsText(b)
    ensures SameId(kind, PaddedId(a), PaddedId(b)) <==> Truncated(a) == Truncated(b)
  {
    hide Text, Truncated;
    PaddedText(a);
    PaddedText(b);
  }

  lemma PaddedText(id: Option<Blob>)
    requires IsText(id)
    ensures Text(PaddedId(id)) == Truncated(id)
  {
    TextStops(Truncated(id), seq(64 - |Truncated(id)|, _ => 0));
  }

  /** On arbitrary 64-byte fields they do not: bytes after the first zero matter to one of them only. */
  lemma IdComparisonsDiffer()
    ensures exists a: Blob, b: Blob ::
           |a| == |b| == 64 && a[63] == 0 && b[63] == 0 && SameId(Rollback, a, b) && !SameId(Lockstep, a, b)
  {
    var a, b := seq(64, _ => 0), seq(64, k => if k == 5 then 1 else 0);
    assert a[5] != b[5];
    assert SameId(Rollback, a, b) && !SameId(Lockstep, a, b);
  }

  lemma HelloArrives(h: Hello)
    requires |h.coreId| == 64 && h.coreId[63] == 0
    ensures DecodedHello(HelloBytes(h)) == Some(h)
  {
    HelloRoundTrip(h);
  }

  /** Mutual identity: over a lossless transport the hello exchange succeeds on both sides or on
      neither, and it does exactly when both were built for the same ABI version and run the same content
      on the same core; otherwise both return the same error. */
  lemma IdentityIsMutual<S>(kind: Kind, c: Core<S>, host: Player<S>, join: Player<S>, value: uint32)
    requires IsText(host.id) && IsText(join.id)
    ensures var h, j := HostSide(kind, c, host, join, value), JoinSide(kind, c, host, join, value);
      var same := host.contentHash == join.contentHash && Truncated(host.id) == Truncated(join.id);
      && (h.met <==> host.abi == join.abi && same)
      && (j.met <==> host.abi == join.abi && same)
      && (host.abi != join.abi ==> h.code == j.code == AbiMismatch)
      && (host.abi == join.abi && !same ==> h.code == j.code == BadArg)
  {
    hide DecodedHello, HelloBytes, PaddedId, SameId, DecodedStateSync, StateSyncBytes, Load;
    HelloArrives(PlayersHello(host, value));
    HelloArrives(PlayersHello(join, 0));
    SameIdIsSameText(kind, host.id, join.id);
    SameIdIsSameText(kind, join.id, host.id);
  }

  // ----- every incoming message -----

  /** The id's bytes, then zeros. */
  function Char(id: Option<Blob>, k: nat): byte {
    if id.Some? && k < |id.value| then id.value[k] else 0
  }

  /** The id field of a hello matches: every one of its first 63 bytes for lockstep, those up to the end of
      the text for rollback. */
  predicate IdMatches(kind: Kind, id: Option<Blob>, field: Blob)
    requires |field| == 63
  {
    forall k: nat | k < 63 && (kind == Lockstep || forall j: nat | j < k :: Char(id, j) != 0) :: field[k] == Char(id, k)
  }

  /** The same up to and including the first zero of `b`. */
  predicate SameToEnd(a: Blob, b: Blob)
    requires |a| == |b|
  {
    forall k: nat | k < |b| && (forall j: nat | j < k :: b[j] != 0) :: a[k] == b[k]
  }

  lemma SameToEndStep(a: Blob, b: Blob)
    requires |a| == |b| > 0
    ensures SameToEnd(a, b) <==> a[0] == b[0] && (b[0] == 0 || SameToEnd(a[1..], b[1..]))
  {
    if SameToEnd(a, b) && b[0] != 0 {
      forall k: nat | k < |b[1..]| && (forall j: nat | j < k :: b[1..][j] != 0) ensures a[1..][k] == b[1..][k] {
        forall j: nat | j < k + 1 ensures b[j] != 0 { if j > 0 { assert b[1..][j - 1] == b[j]; } }
        assert a[k + 1] == b[k + 1];
      }
    }
    if a[0] == b[0] && b[0] != 0 && SameToEnd(a[1..], b[1..]) {
      forall k: nat | k < |b| && (forall j: nat | j < k :: b[j] != 0) ensures a[k] == b[k] {
        if k > 0 {
          assert forall j: nat | j < k - 1 :: b[1..][j] == b[j + 1] != 0;
          assert a[1..][k - 1] == b[1..][k - 1];
        }
      }
    }
  }

  /** Position by position, what `strncmp` compares. */
  lemma {:induction false} TextPositions(a: Blob, b: Blob)
    requires |a| == |b|
    ensures Text(a) == Text(b) <==> SameToEnd(a, b)
  {
    if a != [] {
      hide SameToEnd;
      SameToEndStep(a, b);
      TextPositions(a[1..], b[1..]);
      if a[0] != 0 && b[0] != 0 {
        assert Text(a)[1..] == Text(a[1..]) && Text(b)[1..] == Text(b[1..]);
      }
    }
  }

  lemma PaddedChars(id: Option<Blob>)
    ensures forall k: nat | k < 63 :: PaddedId(id)[k] == Char(id, k)
  {
  }

  /** The two comparisons, on the field as it came in. */
  lemma IdOnWire(kind: Kind, id: Option<Blob>, field: Blob)
    requires |field| == 63
    ensures SameId(kind, field + [0], PaddedId(id)) <==> IdMatches(kind, id, field)
  {
    hide Text, PaddedId;
    var a, b := field + [0], PaddedId(id);
    PaddedChars(id);
    TextPositions(a, b);
    if kind == Lockstep {
      assert a[..63] == field && a == a[..63] + [0] && b == b[..63] + [0];
    } else {
      assert a[63] == b[63] && forall k: nat | k < 63 :: a[k] == field[k];
    }
  }

  /** What a side makes of whatever arrives first, read off its bytes: anything but a hello is an internal
      error, a hello of another ABI version than 9 a mismatch whatever else it says, one of other content or
      another core a bad argument. Every other hello is accepted, with the host's own value or the one the
      host sent; a rollback match takes 8 for 0. */
  lemma MeetOnBytes(kind: Kind, isHost: bool, value: uint32, contentHash: uint64, id: Option<Blob>, b: Blob)
    ensures var m := Meet(kind, isHost, HelloOf(value, contentHash, id), b);
      if |b| < 89 || b[0] != 1 then m.code == Internal
      else if b[1..5] != [9, 0, 0, 0] then m.code == AbiMismatch
      else if U64(b[69..77]) != contentHash || !IdMatches(kind, id, b[5..68]) then m.code == BadArg
      else
        var v := if isHost then value else Four(b[77..81]);
        m == Met(Code.Ok, if kind == Rollback && v == 0 then 8 else v)
  {
    hide PaddedId, SameId, IdMatches, OfLe, Pow256, DecodedHello, Four, U64;
    HelloLayout(b);
    if |b| >= 89 && b[0] == 1 {
      IdOnWire(kind, id, b[5..68]);
      VersionNine(b[1..5]);
    }
  }

  lemma VersionNine(b: Blob)
    requires |b| == 4
    ensures Four(b) == 9 <==> b == [9, 0, 0, 0]
  {
  }

  /** A hello of any version, sent by a session: it is accepted exactly when version, content and core agree. */
  lemma MeetOnHello(kind: Kind, isHost: bool, value: uint32, contentHash: uint64, id: Option<Blob>, h: Hello)
    requires |h.coreId| == 64 && h.coreId[63] == 0
    ensures var m := Meet(kind, isHost, HelloOf(value, contentHash, id), HelloBytes(h));
      var same := h.contentHash == contentHash && IdMatches(kind, id, h.coreId[..63]);
      && (m.code == Code.Ok <==> h.abiVersion == 9 && same)
      && (h.abiVersion != 9 ==> m.code == AbiMismatch)
      && (h.abiVersion == 9 && !same ==> m.code == BadArg)
  {
    hide PaddedId, SameId, IdMatches, HelloBytes, DecodedHello;
    HelloArrives(h);
    IdOnWire(kind, id, h.coreId[..63]);
    assert h.coreId == h.coreId[..63] + [0];
  }

  /** The hello a session sends, byte by byte. */
  lemma HelloOnWire(value: uint32, contentHash: uint64, id: Option<Blob>)
    ensures var b := HelloBytes(HelloOf(value, contentHash, id));
      && |b| == 89 && b[0] == 1 && b[1..5] == [9, 0, 0, 0]
      && (forall k: nat | k < 63 :: b[5 + k] == Char(id, k)) && b[68] == 0
      && U64(b[69..77]) == contentHash && Four(b[77..81]) == value && U64(b[81..89]) == 0
  {
    hide PaddedId, HelloBytes, DecodedHello, Four, U64, Le;
    var h := HelloOf(value, contentHash, id);
    var b := HelloBytes(h);
    HelloArrives(h);
    HelloLayout(b);
    HelloReencodes(b);
    HelloSize(h);
    VersionNine(b[1..5]);
    PaddedChars(id);
    assert forall k: nat | k < 63 :: b[5 + k] == b[5..68][k] == h.coreId[k];
  }

  lemma HelloSize(h: Hello)
    requires |h.coreId| == 64
    ensures |HelloBytes(h)| == 89
  {
    hide Le;
  }

  /** What the join side makes of whatever arrives second: anything but a state message, or one that holds
      fewer bytes than it announces, is an internal error, and a state the core refuses is unsupported. */
  lemma SyncOnBytes<S>(c: Core<S>, state: S, agreed: uint32, hello: Blob, sync: Blob)
    ensures var j := Synced(c, state, agreed, hello, sync);
      var announced := if |sync| < 13 then 0 else OfLe(sync[9..13]);
      if |sync| < 13 + announced || sync[0] != 2 then j.code == Internal && j.state == state
      else if announced == 0 then j.code == Code.Ok && j.state == state
      else match c.load(sync[13..13 + announced])
        case None => j.code == Unsupported && j.state == state
        case Some(s) => j.code == Code.Ok && j.state == s
  {
    hide OfLe, Pow256;
  }

  // ----- agreement -----

  /** When both starts succeed both sides hold the host's value, and a rollback match never starts
      with a limit of 0. */
  lemma AgreedIsTheHosts<S>(kind: Kind, c: Core<S>, host: Player<S>, join: Player<S>, value: uint32)
    ensures var h, j := HostSide(kind, c, host, join, value), JoinSide(kind, c, host, join, value);
      h.met && j.met ==> h.agreed == j.agreed == if kind == Rollback && value == 0 then 8 else value
  {
    hide DecodedHello, HelloBytes, PaddedId, SameId, DecodedStateSync, StateSyncBytes, Load;
    HelloArrives(PlayersHello(host, value));
  }

  /** The length field of a state-sync message is 32 bits wide. */
  function Cut(b: Blob): Blob {
    b[..|b| % 0x1_0000_0000]
  }

  lemma CutArrives(b: Blob)
    ensures DecodedStateSync(StateSyncBytes(StateSync(0, b))) == Some(StateSync(0, Cut(b)))
    ensures |b| < 0x1_0000_0000 ==> Cut(b) == b
  {
    StateSyncRoundTrip(StateSync(0, b));
  }

  /** What the join side makes of the host's state: it loads the blob cut to its length modulo 2^32,
      and an empty one leaves its own state as it is. */
  lemma JoinTakesTheBlob<S>(kind: Kind, c: Core<S>, host: Player<S>, join: Player<S>, value: uint32)
    requires HostSide(kind, c, host, join, value).code == Code.Ok && JoinSide(kind, c, host, join, value).met
    ensures c.save(host.state).Some?
    ensures var b, j := c.save(host.state).value, JoinSide(kind, c, host, join, value);
      var cut := Cut(b);
      && (cut == [] ==> j.code == Code.Ok && j.state == join.state)
      && (cut != []
          ==> (j.code == Code.Ok <==> c.load(cut).Some?) && (j.code == Code.Ok ==> j.state == c.load(cut).value))
  {
    hide DecodedHello, HelloBytes, PaddedId, SameId, DecodedStateSync, StateSyncBytes, StartJoin, Meet, Cut;
    var b := c.save(host.state).value;
    CutArrives(b);
    LoadsWhatCame(kind, c, join.state, PlayersHello(join, 0), HelloBytes(PlayersHello(host, value)),
                  StateSyncBytes(StateSync(0, b)), Cut(b));
  }

  lemma LoadsWhatCame<S>(kind: Kind, c: Core<S>, state: S, mine: Hello, hello: Blob, sync: Blob, blob: Blob)
    requires DecodedStateSync(sync) == Some(StateSync(0, blob))
           && StartJoin(kind, c, state, mine, [hello, sync], true).met
    ensures var j := StartJoin(kind, c, state, mine, [hello, sync], true);
      && (blob == [] ==> j.code == Code.Ok && j.state == state)
      && (blob != []
          ==> (j.code == Code.Ok <==> c.load(blob).Some?) && (j.code == Code.Ok ==> j.state == c.load(blob).value))
  {
    hide DecodedHello, HelloBytes, SameId, DecodedStateSync, Meet;
  }

  /** Agreement: with an exact core whose states are shorter than 2^32 bytes, the join side starts
      whenever the host does, and then in the host's state. */
  lemma StatesAgree<S(!new)>(kind: Kind, c: Core<S>, host: Player<S>, join: Player<S>, value: uint32)
    requires Exact(c) && (forall s: S :: |Saved(c, s)| < 0x1_0000_0000) && IsText(host.id) && IsText(join.id)
    ensures var h, j := HostSide(kind, c, host, join, value), JoinSide(kind, c, host, join, value);
      (h.code == Code.Ok <==> j.code == Code.Ok) && (h.code == Code.Ok ==> h.state == j.state == host.state)
  {
    hide DecodedHello, HelloBytes, PaddedId, SameId, DecodedStateSync, StateSyncBytes, Meet;
    IdentityIsMutual(kind, c, host, join, value);
    CodeOfHost(kind, c, host, join, value);
    if HostSide(kind, c, host, join, value).code == Code.Ok {
      JoinTakesTheBlob(kind, c, host, join, value);
      CutArrives(c.save(host.state).value);
      assert Saved(c, host.state) == c.save(host.state).value;
    }
  }

  lemma CodeOfHost<S(!new)>(kind: Kind, c: Core<S>, host: Player<S>, join: Player<S>, value: uint32)
    requires Exact(c)
    ensures var h := HostSide(kind, c, host, join, value);
      (h.code == Code.Ok <==> h.met) && h.state == host.state
    ensures var j := JoinSide(kind, c, host, join, value);
      j.code == Code.Ok ==> j.met
  {
    hide DecodedHello, HelloBytes, PaddedId, SameId, DecodedStateSync, StateSyncBytes, Load;
  }

  /** The states agree exactly when something was there to load or they agreed before: a core of save
      size 0 starts a match in two different states. */
  lemma EmptySaveKeepsStates<S>(kind: Kind, c: Core<S>, host: Player<S>, join: Player<S>, value: uint32)
    requires c.save(host.state) == Some([]) && IsText(host.id) && IsText(join.id)
    ensures var h, j := HostSide(kind, c, host, join, value), JoinSide(kind, c, host, join, value);
      h.code == Code.Ok ==> j.code == Code.Ok && (h.state == j.state <==> host.state == join.state)
  {
    hide DecodedHello, HelloBytes, PaddedId, SameId, DecodedStateSync, StateSyncBytes, Meet;
    IdentityIsMutual(kind, c, host, join, value);
    if HostSide(kind, c, host, join, value).code == Code.Ok {
      JoinTakesTheBlob(kind, c, host, join, value);
      CutArrives([]);
    }
  }

  // ----- what a start leaves in a session -----

  /** A rollback session as a start leaves it: everything but its maps is set. */
  ghost predicate Begun<S>(v: RollbackModel.Session<S>, port: Side, agreed: nat, state: S) {
    && v.port == port && v.maxPrediction == agreed && v.state == state
    && v.frame == 0 && v.confirmed == 0 && !v.haveConfirmed && v.verified == 0 && v.rollbacks == 0
    && v.status == RollbackModel.Status.Ok
  }

  /** Its maps are empty, as they are in a session object that has not played before. */
  predicate Unused<S>(v: RollbackModel.Session<S>) {
    && v.ring == map[] && v.local == map[] && v.remote == map[] && v.used == map[]
    && v.ownCrc == map[] && v.peerCrc == map[]
  }

  /** A successful handshake starts the match of the convergence results exactly when neither session has
      played before: a start does not clear the maps. */
  lemma HandshakeStartsTheMatch<S(!new)>(w: RollbackProofs.World<S>, host: Player<S>, join: Player<S>, value: uint32,
                                         hv: RollbackModel.Session<S>, jv: RollbackModel.Session<S>)
    requires Exact(w.core) && (forall s: S :: |Saved(w.core, s)| < 0x1_0000_0000) && IsText(host.id) && IsText(join.id)
    requires w.start == host.state && HostSide(Rollback, w.core, host, join, value).code == Code.Ok
    requires var h := HostSide(Rollback, w.core, host, join, value); Begun(hv, 0, h.agreed, h.state)
    requires var j := JoinSide(Rollback, w.core, host, join, value); Begun(jv, 1, j.agreed, j.state)
    ensures JoinSide(Rollback, w.core, host, join, value).code == Code.Ok && hv.maxPrediction >= 1
    ensures RollbackPeers.Start(w, hv.maxPrediction) == RollbackPeers.Pair([hv, jv], [[], []], [0, 0])
       <==> Unused(hv) && Unused(jv)
  {
    hide HostSide, JoinSide;
    StatesAgree(Rollback, w.core, host, join, value);
    AgreedIsTheHosts(Rollback, w.core, host, join, value);
    IdentityIsMutual(Rollback, w.core, host, join, value);
    CodeOfHost(Rollback, w.core, host, join, value);
    BegunIsFresh(hv, 0, hv.maxPrediction, w.start);
    BegunIsFresh(jv, 1, hv.maxPrediction, w.start);
  }

  lemma BegunIsFresh<S>(v: RollbackModel.Session<S>, port: Side, agreed: nat, state: S)
    requires Begun(v, port, agreed, state)
    ensures v == RollbackPeers.Fresh(port, agreed, state) <==> Unused(v)
  {
  }

  /** A lockstep session as a start leaves it. */
  ghost predicate BegunLockstep<S>(v: LockstepModel.Session<S>, port: Side, delay: nat, state: S) {
    && v.port == port && v.delay == delay && v.state == state && v.frame == 0 && v.status == LockstepModel.Status.Ok
  }

  predicate UnusedLockstep<S>(v: LockstepModel.Session<S>) {
    v.localPending == map[] && v.remotePending == map[] && v.ownCrc == map[] && v.peerCrc == map[]
  }

  /** The same for lockstep. */
  lemma LockstepHandshakeStartsTheMatch<S(!new)>(w: LockstepProofs.World<S>, host: Player<S>, join: Player<S>,
                                                 value: uint32,
                                                 hv: LockstepModel.Session<S>, jv: LockstepModel.Session<S>)
    requires LockstepProofs.TwoSided(w) && w.core[0] == w.core[1] && w.start == [host.state, host.state]
           && w.delay == value
    requires Exact(w.core[0]) && (forall s: S :: |Saved(w.core[0], s)| < 0x1_0000_0000)
    requires IsText(host.id) && IsText(join.id) && HostSide(Lockstep, w.core[0], host, join, value).code == Code.Ok
    requires var h := HostSide(Lockstep, w.core[0], host, join, value); BegunLockstep(hv, 0, h.agreed, h.state)
    requires var j := JoinSide(Lockstep, w.core[0], host, join, value); BegunLockstep(jv, 1, j.agreed, j.state)
    ensures JoinSide(Lockstep, w.core[0], host, join, value).code == Code.Ok
    ensures LockstepPeers.Start(w) == LockstepPeers.Pair([hv, jv], [[], []], [0, 0])
       <==> UnusedLockstep(hv) && UnusedLockstep(jv)
  {
    hide HostSide, JoinSide;
    StatesAgree(Lockstep, w.core[0], host, join, value);
    AgreedIsTheHosts(Lockstep, w.core[0], host, join, value);
    IdentityIsMutual(Lockstep, w.core[0], host, join, value);
    CodeOfHost(Lockstep, w.core[0], host, join, value);
    BegunLockstepIsFresh(w, 0, hv);
    BegunLockstepIsFresh(w, 1, jv);
  }

  lemma BegunLockstepIsFresh<S>(w: LockstepProofs.World<S>, i: Side, v: LockstepModel.Session<S>)
    requires LockstepProofs.TwoSided(w) && BegunLockstep(v, i, w.delay, w.start[i])
    ensures v == LockstepPeers.Fresh(w, i) <==> UnusedLockstep(v)
  {
  }

  /** A remote input left over from an earlier match is fed in place of the peer's: the frame runs without
      taking a message. */
  lemma LeftoverInputIsFed<S>(c: Core<S>, p: LockstepModel.Session<S>, link: LockstepModel.Link)
    requires p.status != LockstepModel.Disconnected && p.frame >= p.delay && p.frame in p.remotePending
    ensures var turn := LockstepModel.RecvAndAdvance(c, p, link);
      && turn.left == link.ready
      && turn.session.state
           == StepAt(c, p.port, p.state, Lookup(p.localPending, p.frame, Neutral()), p.remotePending[p.frame])
  {
  }

  /** So a session restarted with such an input at frame 0 leaves the canonical run at once, exactly when the
      core can tell that input from the peer's. */
  lemma LeftoverInputBreaksAgreement<S>(w: LockstepProofs.World<S>, i: Side, z: InputState, link: LockstepModel.Link)
    requires LockstepProofs.TwoSided(w) && w.delay == 0
    ensures var own, other := w.input[i](0), w.input[1 - i](0);
      var p := LockstepPeers.Fresh(w, i).(remotePending := map[0 := z], localPending := map[0 := own]);
      var turn := LockstepModel.RecvAndAdvance(w.core[i], p, link);
      var told := StepAt(w.core[i], i, w.start[i], own, z) != StepAt(w.core[i], i, w.start[i], own, other);
      turn.left == link.ready && (turn.session.state == LockstepProofs.State(w, i, 1) <==> !told)
  {
    hide LockstepModel.RecvAndAdvance;
    var own := w.input[i](0);
    var p := LockstepPeers.Fresh(w, i).(remotePending := map[0 := z], localPending := map[0 := own]);
    LeftoverInputIsFed(w.core[i], p, link);
    assert LockstepProofs.State(w, i, 0) == w.start[i];
  }
}
