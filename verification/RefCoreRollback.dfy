/** The reference core for netplay (cores/refcore_rollback/RefCoreRollback.cpp): a concrete machine
    that meets what the sessions ask of a core, and what the sessions' results say about it. */
module RefCoreRollback {
  import opened Abi
  import Wire = NetProtocol
  import Crc32
  import RollbackProofs
  import RollbackPeers
  import RollbackStable
  import LockstepProofs
  import LockstepPeers

  const WIDTH: nat := 64
  const HEIGHT: nat := 64

  /** The virtual-key code of 'X'. */
  const KEY_X: nat := 88

  predicate KeyDown(s: InputState, key: nat) {
    key < |s.keys| && s.keys[key] != 0
  }

  /** The accumulator grows by two while the key is held on port 0, else by one, modulo 2^32. */
  function Next(acc: uint32, in0: InputState): uint32 {
    (acc + if KeyDown(in0, KEY_X) then 2 else 1) % 0x1_0000_0000
  }

  function Serialized(acc: uint32): Blob { Wire.Le(acc, 4) }

  /** Longer buffers are accepted; only the first four bytes are read. */
  function Unserialized(b: Blob): Option<uint32> {
    if |b| < 4 then None else Some(Wire.U32(b[..4]))
  }

  function RefCore(): Core<uint32> {
    Core((acc, in0, in1) => Next(acc, in0), acc => Some(Serialized(acc)), Unserialized)
  }

  class RollbackCore {
    const fb: array<byte>
    var acc: uint32

    constructor ()
      ensures acc == 0 && fresh(fb) && fb.Length == 16384 && (forall k | 0 <= k < fb.Length :: fb[k] == 0)
    {
      fb := new byte[WIDTH * HEIGHT * 4](_ => 0);
      acc := 0;
    }

    /** One frame; `in0` is what the host's `input_state` callback returns for port 0. Every pixel holds the
        low byte of the accumulator in red, and is opaque. */
    method RunFrame(in0: InputState)
      requires fb.Length == WIDTH * HEIGHT * 4
      modifies this, fb
      ensures acc == RefCore().step(old(acc), in0, Neutral())
      ensures forall i | 0 <= i < 4096 :: fb[4 * i..4 * i + 4] == [acc % 0x100, 0, 0, 255]
    {
      acc := (acc + if KeyDown(in0, KEY_X) then 2 else 1) % 0x1_0000_0000;
      var v: byte := acc % 0x100;
      for i := 0 to WIDTH * HEIGHT
        invariant acc == Next(old(acc), in0)
        invariant forall j | 0 <= j < i ::
               fb[4 * j] == v && fb[4 * j + 1] == 0 && fb[4 * j + 2] == 0 && fb[4 * j + 3] == 255
      {
        fb[4 * i], fb[4 * i + 1], fb[4 * i + 2], fb[4 * i + 3] := v, 0, 0, 255;
      }
    }

    method Serialize(data: array?<byte>, size: nat) returns (r: Code)
      requires data != null ==> size <= data.Length
      modifies data
      ensures r == if data == null || size < 4 then BadArg else Code.Ok
      ensures r == Code.Ok ==> Wire.Four(data[..4]) == acc && data[4..] == old(data[4..])
      ensures r != Code.Ok && data != null ==> data[..] == old(data[..])
    {
      if data == null || size < 4 { return BadArg; }
      var bytes := Serialized(acc);
      SerializedIs(acc);
      assert old(data[4..]) == data[4..];
      data[0], data[1], data[2], data[3] := bytes[0], bytes[1], bytes[2], bytes[3];
      assert data[..4] == bytes;
      return Code.Ok;
    }

    method Unserialize(data: array?<byte>, size: nat) returns (r: Code)
      requires data != null ==> size <= data.Length
      modifies this`acc
      ensures r == Code.Ok <==> data != null && Unserialized(data[..size]).Some?
      ensures acc == if r == Code.Ok then Unserialized(data[..size]).value else old(acc)
      ensures r != Code.Ok ==> r == BadArg
    {
      if data == null || size < 4 { return BadArg; }
      acc := Wire.U32(data[..4]);
      assert data[..size][..4] == data[..4];
      return Code.Ok;
    }
  }

  /** The accumulator, four bytes, least significant first; and any longer buffer that starts with them. */
  lemma SerializedIs(acc: uint32)
    ensures |Serialized(acc)| == 4 && Wire.Four(Serialized(acc)) == acc
  {
    Wire.Widths();
    Wire.OfLeLe(acc, 4);
    Wire.OfLeFour(Serialized(acc));
  }

  lemma UnserializedIs(b: Blob)
    ensures Unserialized(b) == if |b| < 4 then None else Some(Wire.Four(b[..4]))
  {
    if |b| >= 4 { Wire.OfLeFour(b[..4]); }
  }

  // ----- what it gives the sessions -----

  /** The core meets the hypothesis of the rollback results. */
  lemma RefCoreIsExact()
    ensures Exact(RefCore())
  {
    forall acc: uint32 ensures Unserialized(Serialized(acc)) == Some(acc) {
      Wire.Widths();
      Wire.OfLeLe(acc, 4);
      assert Serialized(acc)[..4] == Serialized(acc);
    }
  }

  /** How many of the first `n` host inputs hold the key. */
  function Presses(input: nat -> InputState, n: nat): nat {
    if n == 0 then 0
    else
      var keys := input(n - 1).keys;
      Presses(input, n - 1) + if |keys| > 88 && keys[88] != 0 then 1 else 0
  }

  lemma {:induction false} TruthCounts(w: RollbackProofs.World<uint32>, n: nat)
    requires w.core == RefCore()
    ensures RollbackProofs.Truth(w, n) == (w.start + n + Presses(w.input0, n)) % 0x1_0000_0000
  {
    hide Next;
    if n > 0 {
      TruthCounts(w, n - 1);
      NextCounts(w.start + n - 1 + Presses(w.input0, n - 1), w.input0(n - 1));
    } else {
      Small(w.start);
    }
  }

  lemma Small(a: uint32)
    ensures a % 0x1_0000_0000 == a
  {
  }

  lemma NextCounts(k: nat, in0: InputState)
    ensures Next(k % 0x1_0000_0000, in0) == (k + 1 + if KeyDown(in0, KEY_X) then 1 else 0) % 0x1_0000_0000
  {
    hide KeyDown;
    WrapsLate(k, if KeyDown(in0, KEY_X) then 2 else 1);
  }

  lemma WrapsLate(k: nat, d: nat)
    ensures (k % 0x1_0000_0000 + d) % 0x1_0000_0000 == (k + d) % 0x1_0000_0000
  {
  }

  /** Whatever the delays, stalls and mispredictions of a match were, a snapshot at or below a peer's
      verified mark counts the frames and the host's real key presses, exactly. */
  lemma VerifiedSnapshotsCount(w: RollbackProofs.World<uint32>, s: RollbackPeers.Pair<uint32>, i: Side, v: nat)
    requires w.core == RefCore() && RollbackPeers.Reachable(w, s) && RollbackPeers.Shape(s)
    requires v in s.peer[i].ring && v <= s.peer[i].verified
    ensures |s.peer[i].ring[v]| == 4
    ensures Wire.Four(s.peer[i].ring[v]) == (w.start + v + Presses(w.input0, v)) % 0x1_0000_0000
  {
    hide RollbackPeers.Reachable;
    RefCoreIsExact();
    RollbackPeers.VerifiedIsTrue(w, s, i);
    TruthCounts(w, v);
    SerializedIs((w.start + v + Presses(w.input0, v)) % 0x1_0000_0000);
  }

  /** Two retried inputs that hold the key differently are told apart, so the run with a changed retry leaves
      the two peers with different verified snapshots. */
  lemma ChangedKeyDiverges(w: RollbackProofs.World<uint32>, x: InputState, y: InputState)
    requires w.core == RefCore() && KeyDown(x, 88) != KeyDown(y, 88)
    ensures var gs := RollbackStable.ChangedRetry(w, x, y, 9);
      var s := RollbackStable.FreeRun(w.core, RollbackStable.Opening(w.start, 1), gs);
      RollbackStable.BothVerified(s, 3) && s.peer[0].ring[3] != s.peer[1].ring[3]
  {
    hide RollbackStable.FreeRun, RollbackStable.ChangedRetry, RollbackProofs.Truth, KeyDown,
        RollbackStable.BothVerified;
    RefCoreIsExact();
    RollbackStable.ChangedRetryDiverges(w, x, y);
    assert Next(RollbackProofs.Truth(w, 2), x) != Next(RollbackProofs.Truth(w, 2), y);
  }

  /** The checksum of this core tells any two accumulators apart. */
  lemma ChecksumIsFaithful(a: uint32, b: uint32)
    ensures Crc32.Value(Serialized(a)) == Crc32.Value(Serialized(b)) <==> a == b
  {
    hide Crc32.Value;
    if a != b {
      Wire.Widths();
      Wire.OfLeLe(a, 4);
      Wire.OfLeLe(b, 4);
      var x, y := Serialized(a), Serialized(b);
      Crc32.BurstIsDetected([], x, y, []);
      assert [] + x + [] == x && [] + y + [] == y;
    }
  }

  function AtDelay(w: LockstepProofs.World<uint32>): LockstepPeers.Pair<uint32>
    requires LockstepProofs.TwoSided(w)
  {
    LockstepPeers.Rounds(w, LockstepPeers.Start(w), w.delay + 2)
  }

  /** Two lockstep peers of this core that start apart are stopped after `delay + 2` rounds. */
  lemma StartingApartIsCaught(w: LockstepProofs.World<uint32>)
    requires LockstepProofs.TwoSided(w) && w.core == [RefCore(), RefCore()] && w.start[0] != w.start[1]
    requires w.delay <= 120
    ensures LockstepPeers.Stopped(AtDelay(w))
  {
    hide LockstepPeers.Rounds, LockstepPeers.Stopped, Crc32.Value, Serialized;
    var a, b := LockstepProofs.State(w, 0, 1), LockstepProofs.State(w, 1, 1);
    assert w.core[0] == RefCore() && w.core[1] == RefCore();
    assert LockstepProofs.State(w, 0, 0) == w.start[0] && LockstepProofs.State(w, 1, 0) == w.start[1];
    assert a == Next(w.start[0], LockstepProofs.Canon(w, 0, 0)) && b == Next(w.start[1], LockstepProofs.Canon(w, 0, 0));
    ChecksumIsFaithful(a, b);
    LockstepPeers.RoundsCatchDivergence(w, 0);
  }
}
