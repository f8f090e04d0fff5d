/** The ring of shared surfaces (src/render/SurfaceRing.cpp): which submitted frame is the newest one
    that still belongs to the current allocation. */
module SurfaceRing {
  import opened Abi
  import Wire = NetProtocol

  datatype Ring = Ring(slots: uint32, width: uint32, height: uint32, generation: nat, cursor: nat, ready: Option<Ready>)

  datatype Ready = Ready(index: nat, generation: nat, value: uint64)

  datatype Op =
    | Reallocate(width: uint32, height: uint32)
    | NextSlot
    | Submit(index: nat, generation: nat, value: uint64)

  function New(count: uint32): Ring {
    Ring(if count == 0 then 1 else count, 0, 0, 0, 0, None)
  }

  predicate Accepts(r: Ring, index: nat, generation: nat) {
    generation == r.generation && index < r.slots
  }

  function Apply(r: Ring, op: Op): Ring
    requires r.slots > 0
  {
    match op
    case Reallocate(w, h) => r.(width := w, height := h, generation := r.generation + 1, cursor := 0, ready := None)
    case NextSlot => r.(cursor := (r.cursor + 1) % r.slots)
    case Submit(i, g, v) => if Accepts(r, i, g) then r.(ready := Some(Ready(i, g, v))) else r
  }

  /** What the presenting side sees. */
  function Latest(r: Ring): Option<(nat, uint64)> {
    if r.ready.Some? && r.ready.value.generation == r.generation
    then Some((r.ready.value.index, r.ready.value.value))
    else None
  }

  class SurfaceRing {
    const slotCount: uint32
    var width: uint32
    var height: uint32
    var generation: uint64
    var producerCursor: nat
    var hasReady: bool
    var readyIndex: nat
    var readyGeneration: uint64
    var readySync: uint64

    predicate Valid()
      reads this
    {
      slotCount > 0
    }

    function View(): Ring
      reads this
    {
      Ring(slotCount, width, height, generation, producerCursor,
           if hasReady then Some(Ready(readyIndex, readyGeneration, readySync)) else None)
    }

    constructor (count: uint32)
      ensures Valid() && View() == New(count)
    {
      slotCount := if count == 0 then 1 else count;
      width, height, generation, producerCursor := 0, 0, 0, 0;
      hasReady, readyIndex, readyGeneration, readySync := false, 0, 0, 0;
    }

    method ReallocateSurfaces(w: uint32, h: uint32) returns (g: uint64)
      requires Valid() && generation < UINT64_MAX
      modifies this
      ensures Valid() && View() == Apply(old(View()), Reallocate(w, h)) && g == View().generation
    {
      width, height := w, h;
      generation := generation + 1;
      producerCursor := 0;
      hasReady := false;
      return generation;
    }

    method NextProducerSlot() returns (s: nat)
      requires Valid()
      modifies this`producerCursor
      ensures Valid() && s == old(View()).cursor && View() == Apply(old(View()), NextSlot)
    {
      s := producerCursor;
      producerCursor := (producerCursor + 1) % slotCount;
    }

    method AcceptSubmit(index: nat, g: uint64, value: uint64) returns (ok: bool)
      requires Valid()
      modifies this
      ensures Valid() && ok == Accepts(old(View()), index, g) && View() == Apply(old(View()), Submit(index, g, value))
    {
      if g != generation { return false; }
      if index >= slotCount { return false; }
      readyIndex, readyGeneration, readySync, hasReady := index, g, value, true;
      return true;
    }

    method LatestReady() returns (r: Option<(nat, uint64)>)
      ensures r == Latest(View())
    {
      if !hasReady { return None; }
      if readyGeneration != generation { return None; }
      return Some((readyIndex, readySync));
    }
  }

  // ----- any history of calls -----

  function After(count: uint32, ops: seq<Op>): (r: Ring)
    ensures r.slots > 0
    decreases |ops|
  {
    if ops == [] then New(count) else Apply(After(count, ops[..|ops| - 1]), ops[|ops| - 1])
  }

  function Reallocations(ops: seq<Op>): nat {
    if ops == [] then 0 else Reallocations(ops[..|ops| - 1]) + if ops[|ops| - 1].Reallocate? then 1 else 0
  }

  /** Reads the history backwards for the newest submit that names an existing slot and was made for
      the allocation in force; an allocation in between makes everything older stale. */
  function NewestCurrent(count: uint32, ops: seq<Op>): Option<(nat, uint64)>
    decreases |ops|
  {
    if ops == [] then None
    else
      var before := ops[..|ops| - 1];
      match ops[|ops| - 1]
      case Reallocate(_, _) => None
      case NextSlot => NewestCurrent(count, before)
      case Submit(i, g, v) =>
        if g == Reallocations(ops) && i < New(count).slots then Some((i, v)) else NewestCurrent(count, before)
  }

  /** After any history the ring shows exactly that submit, never one of an earlier allocation. */
  lemma {:induction false} LatestIsNewestCurrent(count: uint32, ops: seq<Op>)
    ensures After(count, ops).generation == Reallocations(ops) && After(count, ops).slots == New(count).slots
    ensures Latest(After(count, ops)) == NewestCurrent(count, ops)
    ensures After(count, ops).ready.Some? ==> After(count, ops).ready.value.generation == Reallocations(ops)
    decreases |ops|
  {
    if ops != [] { LatestIsNewestCurrent(count, ops[..|ops| - 1]); }
  }

  /** The last size asked for. */
  function LastSize(ops: seq<Op>): (uint32, uint32) {
    if ops == [] then (0, 0)
    else match ops[|ops| - 1]
      case Reallocate(w, h) => (w, h)
      case _ => LastSize(ops[..|ops| - 1])
  }

  /** A ring has as many slots as asked for, and one when none are, for good; its surfaces have the size of the
      last allocation. */
  lemma {:induction false} SlotsAndSize(count: uint32, ops: seq<Op>)
    ensures var r := After(count, ops);
      r.slots == (if count == 0 then 1 else count) && (r.width, r.height) == LastSize(ops)
    decreases |ops|
  {
    if ops != [] { SlotsAndSize(count, ops[..|ops| - 1]); }
  }

  /** How many slots were handed out since the last allocation. */
  function SlotsTaken(ops: seq<Op>): nat {
    if ops == [] then 0
    else match ops[|ops| - 1]
      case Reallocate(_, _) => 0
      case NextSlot => SlotsTaken(ops[..|ops| - 1]) + 1
      case Submit(_, _, _) => SlotsTaken(ops[..|ops| - 1])
  }

  /** Slots are handed out round robin: the n-th one after an allocation is `n % slots`. */
  lemma {:induction false} SlotsRoundRobin(count: uint32, ops: seq<Op>)
    ensures After(count, ops).cursor == SlotsTaken(ops) % New(count).slots
    decreases |ops|
  {
    hide Latest;
    var n := New(count).slots;
    if ops == [] {
      assert 0 % n == 0;
    } else {
      SlotsRoundRobin(count, ops[..|ops| - 1]);
      LatestIsNewestCurrent(count, ops[..|ops| - 1]);
      NextMod(SlotsTaken(ops[..|ops| - 1]), n);
    }
  }

  lemma NextMod(k: nat, n: nat)
    requires n > 0
    ensures (k % n + 1) % n == (k + 1) % n && 0 % n == 0
  {
    DivMod(k, n);
    NextRemainder(k, n, k / n, k % n);
  }

  lemma DivMod(k: nat, n: nat)
    requires n > 0
    ensures k == n * (k / n) + k % n && 0 <= k % n < n
  {
  }

  lemma NextRemainder(k: nat, n: nat, q: nat, r: nat)
    requires n > 0 && k == n * q + r && r < n
    ensures (r + 1) % n == (k + 1) % n && 0 % n == 0
  {
    Wire.MulNext(n, q);
    Wire.MulNext(n, 0);
    RemainderIs(0, n, 0, 0);
    if r + 1 == n {
      RemainderIs(k + 1, n, q + 1, 0);
      RemainderIs(n, n, 1, 0);
    } else {
      RemainderIs(k + 1, n, q, r + 1);
      RemainderIs(r + 1, n, 0, r + 1);
    }
  }

  lemma RemainderIs(v: nat, n: nat, q: nat, r: nat)
    requires n > 0 && v == n * q + r && r < n
    ensures v % n == r
  {
    Wire.QuotientIs(v, n, q, r);
  }
}
