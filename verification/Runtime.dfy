/** The host runtime around a driven core: input latches, frame advance, save states and the
    rewind history (src/runtime/Runtime.cpp, src/runtime/RewindRing.h). */
module Runtime {
  import opened Abi

  const DEFAULT_SNAPSHOTS: uint32 := 600

  /** The part of the runtime that rewinding reads and writes. */
  datatype History<S> = History(state: S, ring: seq<Blob>, enabled: bool, replay: bool, bound: uint32)

  /** The newest `bound` entries. */
  function Newest(ring: seq<Blob>, bound: nat): seq<Blob> {
    if |ring| > bound then ring[|ring| - bound..] else ring
  }

  /** `rewind_ring_push` */
  method RewindRingPush(ring: seq<Blob>, snap: Blob, bound: uint32) returns (r: seq<Blob>)
    ensures r == Newest(ring + [snap], bound)
  {
    r := ring + [snap];
    while |r| > bound
      invariant |r| <= |ring| + 1
      invariant r == (ring + [snap])[|ring| + 1 - |r|..]
      invariant |r| >= bound || r == ring + [snap]
    {
      r := r[1..];
    }
  }

  function Capture<S>(c: Core<S>, h: History<S>): seq<Blob> {
    match c.save(h.state)
    case Some(b) => if b != [] then Newest(h.ring + [b], h.bound) else h.ring
    case None => h.ring
  }

  /** `advance`: capture the pre-state unless a rewound-to frame is being shown again, then run. */
  function Advanced<S>(c: Core<S>, h: History<S>, in0: InputState, in1: InputState): History<S> {
    h.(ring := if !h.replay && h.enabled then Capture(c, h) else h.ring, replay := false,
       state := c.step(h.state, in0, in1))
  }

  function Rewound<S>(c: Core<S>, h: History<S>): (Code, History<S>) {
    if !h.enabled then (Internal, h)
    else if |h.ring| < 2 then (NotFound, h)
    else
      var snap := h.ring[|h.ring| - 2];
      var kept := h.(ring := h.ring[..|h.ring| - 1], replay := true);
      match c.load(snap)
      case Some(s) => (Code.Ok, kept.(state := s))
      case None => (BadArg, kept)
  }

  function Enabled<S>(c: Core<S>, h: History<S>, on: bool, maxSnapshots: uint32): (Code, History<S>) {
    if SaveSize(c, h.state) == 0 then (Unsupported, h)
    else
      var bound := if maxSnapshots != 0 then maxSnapshots else DEFAULT_SNAPSHOTS;
      (Code.Ok, h.(enabled := on, bound := bound, ring := [], replay := false))
  }

  /** `serialize_size` of the current state; a core that cannot serialise at all has size 0. */
  function SaveSize<S>(c: Core<S>, s: S): nat {
    match c.save(s) case Some(b) => |b| case None => 0
  }

  class Runtime<S> {
    const core: Core<S>
    var state: S
    var input: seq<InputState>
    var paused: bool
    var rewindRing: seq<Blob>
    var rewindEnabled: bool
    var rewindReplay: bool
    var rewindMax: uint32

    ghost predicate Valid()
      reads this
    {
      |input| == 2
    }

    ghost function View(): History<S>
      reads this
    {
      History(state, rewindRing, rewindEnabled, rewindReplay, rewindMax)
    }

    constructor (core: Core<S>, initial: S)
      ensures Valid() && this.core == core && !paused
      ensures View() == History(initial, [], false, false, 0)
    {
      this.core, state, input, paused := core, initial, [Neutral(), Neutral()], false;
      rewindRing, rewindEnabled, rewindReplay, rewindMax := [], false, false, 0;
    }

    method SetInput(port: nat, i: InputState)
      requires Valid()
      modifies this`input
      ensures Valid() && input == old(input)[port % 2 := i]
    {
      input := input[port % 2 := i];
    }

    method Advance()
      requires Valid()
      modifies this`state, this`rewindRing, this`rewindReplay
      ensures View() == Advanced(core, old(View()), input[0], input[1])
    {
      if rewindReplay {
        rewindReplay := false;
      } else if rewindEnabled {
        match core.save(state) {
          case Some(b) => if b != [] { rewindRing := RewindRingPush(rewindRing, b, rewindMax); }
          case None =>
        }
      }
      state := core.step(state, input[0], input[1]);
    }

    method Present()
      requires Valid()
      modifies this`state, this`rewindRing, this`rewindReplay
      ensures View() == if paused then old(View()) else Advanced(core, old(View()), input[0], input[1])
    {
      if !paused { Advance(); }
    }

    /** `serialize_size` and `save_state` as their callers combine them: an empty blob is a core of
        size 0, nothing is a failed save. */
    method SaveState() returns (b: Option<Blob>)
      ensures b == core.save(state)
    {
      b := core.save(state);
    }

    method LoadState(b: Blob) returns (ok: bool)
      modifies this`state
      ensures ok <==> Load(core, b).Some?
      ensures state == if ok then Load(core, b).value else old(state)
    {
      if b == [] { return false; }
      match core.load(b) {
        case Some(s) => state := s; ok := true;
        case None => ok := false;
      }
    }

    method SetRewind(on: bool, maxSnapshots: uint32) returns (r: Code)
      modifies this`rewindRing, this`rewindEnabled, this`rewindReplay, this`rewindMax
      ensures (r, View()) == Enabled(core, old(View()), on, maxSnapshots)
    {
      var b := SaveState();
      if b.None? || b.value == [] { return Unsupported; }
      rewindEnabled := on;
      rewindMax := if maxSnapshots != 0 then maxSnapshots else DEFAULT_SNAPSHOTS;
      rewindRing, rewindReplay := [], false;
      return Code.Ok;
    }

    method Rewind() returns (r: Code)
      modifies this`state, this`rewindRing, this`rewindReplay
      ensures (r, View()) == Rewound(core, old(View()))
    {
      if !rewindEnabled { return Internal; }
      if |rewindRing| < 2 { return NotFound; }
      rewindRing := rewindRing[..|rewindRing| - 1];
      var snap := rewindRing[|rewindRing| - 1];
      match core.load(snap) {
        case Some(s) => state := s; r := Code.Ok;
        case None => r := BadArg;
      }
      rewindReplay := true;
    }
  }

  // ----- the rewind history is a linked timeline -----

  type Frames = seq<(InputState, InputState)>

  function Play<S>(c: Core<S>, s: S, frames: Frames): S
    decreases |frames|
  {
    if frames == [] then s
    else var n := |frames| - 1; c.step(Play(c, s, frames[..n]), frames[n].0, frames[n].1)
  }

  /** Snapshot `b` is the state before frame `t` of the timeline. */
  ghost predicate SnapshotOf<S>(c: Core<S>, start: S, frames: Frames, b: Blob, t: int) {
    0 <= t <= |frames| && b == Saved(c, Play(c, start, frames[..t]))
  }

  /** Consecutive snapshots are one frame apart, from frame `oldest` on. */
  ghost predicate Chain<S>(c: Core<S>, start: S, frames: Frames, ring: seq<Blob>, oldest: int) {
    forall i | 0 <= i < |ring| :: SnapshotOf(c, start, frames, ring[i], oldest + i)
  }

  /** The frame whose pre-state the newest snapshot is: the displayed one, or the next one to run
      while a rewound-to frame is still to be shown. */
  function NewestFrame<S>(frames: Frames, h: History<S>): int {
    if h.replay then |frames| else |frames| - 1
  }

  ghost predicate Linked<S>(c: Core<S>, start: S, frames: Frames, h: History<S>) {
    && h.enabled && h.bound >= 1 && |h.ring| <= h.bound
    && h.state == Play(c, start, frames)
    && (h.replay ==> h.ring != [])
    && Chain(c, start, frames, h.ring, NewestFrame(frames, h) - |h.ring| + 1)
  }

  /** The history of a longer or shorter timeline agrees on the frames both have. */
  lemma ChainOnPrefix<S>(c: Core<S>, start: S, frames: Frames, frames': Frames, ring: seq<Blob>, oldest: int)
    requires Chain(c, start, frames, ring, oldest)
    requires frames <= frames' || (frames' <= frames && oldest + |ring| <= |frames'| + 1)
    ensures Chain(c, start, frames', ring, oldest)
  {
    hide Play, Saved;
    forall i | 0 <= i < |ring| ensures SnapshotOf(c, start, frames', ring[i], oldest + i) {
      assert SnapshotOf(c, start, frames, ring[i], oldest + i);
      assert frames[..oldest + i] == frames'[..oldest + i];
    }
  }

  lemma ChainGrows<S>(c: Core<S>, start: S, frames: Frames, ring: seq<Blob>, oldest: int, b: Blob)
    requires Chain(c, start, frames, ring, oldest) && SnapshotOf(c, start, frames, b, oldest + |ring|)
    ensures Chain(c, start, frames, ring + [b], oldest)
    ensures Chain(c, start, frames, (ring + [b])[1..], oldest + 1)
  {
    hide SnapshotOf;
    var r := ring + [b];
    forall i | 0 <= i < |r| ensures SnapshotOf(c, start, frames, r[i], oldest + i) {
      if i < |ring| { assert r[i] == ring[i]; }
    }
    forall i | 0 <= i < |r[1..]| ensures SnapshotOf(c, start, frames, r[1..][i], oldest + 1 + i) {
      assert r[1..][i] == r[i + 1] && SnapshotOf(c, start, frames, r[i + 1], oldest + (i + 1));
    }
  }

  lemma AdvanceKeepsLinked<S(!new)>(c: Core<S>, start: S, frames: Frames, h: History<S>, in0: InputState,
                                    in1: InputState)
    requires Exact(c) && Linked(c, start, frames, h)
    ensures Linked(c, start, frames + [(in0, in1)], Advanced(c, h, in0, in1))
    ensures var h' := Advanced(c, h, in0, in1);
      |h'.ring| == if h.replay then |h.ring| else if |h.ring| + 1 <= h.bound then |h.ring| + 1 else h.bound
  {
    hide Play, Saved, Chain, SnapshotOf;
    var next, oldest := frames + [(in0, in1)], NewestFrame(frames, h) - |h.ring| + 1;
    PlayNext(c, start, frames, (in0, in1));
    CaptureSaves(c, h);
    if !h.replay {
      NowIsSnapshot(c, start, frames);
      ChainGrows(c, start, frames, h.ring, oldest, Saved(c, h.state));
      ChainOnPrefix(c, start, frames, next, h.ring + [Saved(c, h.state)], oldest);
      ChainOnPrefix(c, start, frames, next, (h.ring + [Saved(c, h.state)])[1..], oldest + 1);
    } else {
      ChainOnPrefix(c, start, frames, next, h.ring, oldest);
    }
  }

  /** What one frame captures, for any core: the state before it, unless rewind is off, a rewound-to frame is
      shown again, or the core saves nothing. */
  lemma AdvanceCaptures<S>(c: Core<S>, h: History<S>, in0: InputState, in1: InputState)
    ensures var h' := Advanced(c, h, in0, in1);
      && h' == h.(state := c.step(h.state, in0, in1), replay := false, ring := h'.ring)
      && (h.replay || !h.enabled || Saved(c, h.state) == [] ==> h'.ring == h.ring)
      && (!h.replay && h.enabled && Saved(c, h.state) != [] ==>
            var all := h.ring + [Saved(c, h.state)];
            |h'.ring| == Min(|all|, h.bound) && h'.ring == all[|all| - |h'.ring|..])
  {
  }

  lemma NowIsSnapshot<S>(c: Core<S>, start: S, frames: Frames)
    ensures SnapshotOf(c, start, frames, Saved(c, Play(c, start, frames)), |frames|)
  {
    assert frames[..|frames|] == frames;
  }

  lemma CaptureSaves<S(!new)>(c: Core<S>, h: History<S>)
    requires Exact(c)
    ensures Capture(c, h) == Newest(h.ring + [Saved(c, h.state)], h.bound)
  {
  }

  lemma PlayNext<S>(c: Core<S>, start: S, frames: Frames, i: (InputState, InputState))
    ensures Play(c, start, frames + [i]) == c.step(Play(c, start, frames), i.0, i.1)
  {
    assert (frames + [i])[..|frames|] == frames;
  }

  /** A rewind succeeds exactly when two snapshots are left, and steps the timeline back: by two
      frames the first time (the displayed frame is undone and the one before is to be shown
      again), by one frame when the previous rewind has not been shown yet. */
  lemma RewindStepsBack<S(!new)>(c: Core<S>, start: S, frames: Frames, h: History<S>)
    requires Exact(c) && Linked(c, start, frames, h)
    ensures var (r, h') := Rewound(c, h);
      && (r == Code.Ok <==> |h.ring| >= 2)
      && (r != Code.Ok ==> r == NotFound && h' == h)
      && (r == Code.Ok ==>
            var back := if h.replay then 1 else 2;
            && back <= |frames| && |h'.ring| == |h.ring| - 1
            && Linked(c, start, frames[..|frames| - back], h') && h'.replay)
  {
    if |h.ring| >= 2 {
      hide Play, Saved, Chain, SnapshotOf;
      var m, oldest := |h.ring|, NewestFrame(frames, h) - |h.ring| + 1;
      ChainAt(c, start, frames, h.ring, oldest, m - 2);
      var kept := frames[..oldest + m - 2];
      LoadsSaved(c, Play(c, start, kept));
      ChainDropsLast(c, start, frames, h.ring, oldest);
      ChainOnPrefix(c, start, frames, kept, h.ring[..m - 1], oldest);
    }
  }

  lemma ChainAt<S>(c: Core<S>, start: S, frames: Frames, ring: seq<Blob>, oldest: int, i: nat)
    requires Chain(c, start, frames, ring, oldest) && i < |ring|
    ensures 0 <= oldest + i <= |frames| && ring[i] == Saved(c, Play(c, start, frames[..oldest + i]))
  {
    hide Play, Saved;
    assert SnapshotOf(c, start, frames, ring[i], oldest + i);
  }

  lemma ChainDropsLast<S>(c: Core<S>, start: S, frames: Frames, ring: seq<Blob>, oldest: int)
    requires Chain(c, start, frames, ring, oldest) && ring != []
    ensures Chain(c, start, frames, ring[..|ring| - 1], oldest)
  {
    hide SnapshotOf;
  }

  lemma LoadsSaved<S(!new)>(c: Core<S>, s: S)
    requires Exact(c)
    ensures c.load(Saved(c, s)) == Some(s)
  {
  }

  // ----- whole sessions of presenting and rewinding -----

  function PresentAll<S>(c: Core<S>, h: History<S>, frames: Frames): History<S>
    decreases |frames|
  {
    if frames == [] then h
    else var n := |frames| - 1; Advanced(c, PresentAll(c, h, frames[..n]), frames[n].0, frames[n].1)
  }

  function RewindTimes<S>(c: Core<S>, h: History<S>, k: nat): History<S>
    decreases k
  {
    if k == 0 then h else Rewound(c, RewindTimes(c, h, k - 1)).1
  }

  function Min(a: nat, b: nat): nat { if a < b then a else b }

  lemma {:induction false} PresentAllLinked<S(!new)>(c: Core<S>, start: S, before: Frames, h: History<S>,
                                                     frames: Frames)
    requires Exact(c) && Linked(c, start, before, h)
    ensures var h' := PresentAll(c, h, frames);
      && Linked(c, start, before + frames, h')
      && h'.bound == h.bound
      && (!h.replay ==> !h'.replay && |h'.ring| == Min(|h.ring| + |frames|, h.bound))
      && (h.replay && frames != [] ==> !h'.replay && |h'.ring| == Min(|h.ring| + |frames| - 1, h.bound))
    decreases |frames|
  {
    hide Linked, Advanced;
    if frames == [] {
      assert before + frames == before;
      RingFits(c, start, before, h);
    } else {
      var n := |frames| - 1;
      PresentAllLinked(c, start, before, h, frames[..n]);
      var m := PresentAll(c, h, frames[..n]);
      AdvanceKeepsLinked(c, start, before + frames[..n], m, frames[n].0, frames[n].1);
      AdvanceShows(c, m, frames[n].0, frames[n].1);
      assert before + frames[..n] + [(frames[n].0, frames[n].1)] == before + frames;
      RingFits(c, start, before, h);
    }
  }

  lemma RingFits<S>(c: Core<S>, start: S, frames: Frames, h: History<S>)
    requires Linked(c, start, frames, h)
    ensures |h.ring| <= h.bound
  {
  }

  lemma AdvanceShows<S>(c: Core<S>, h: History<S>, in0: InputState, in1: InputState)
    ensures !Advanced(c, h, in0, in1).replay && Advanced(c, h, in0, in1).bound == h.bound
  {
  }

  /** What switching rewind on or off does to any history: a core that saves something gets an empty one, from
      the current state, of as many snapshots as asked for, or 600; any other core keeps what it has. Nothing of
      the history before is left to rewind to, and with rewind off nothing is captured or rewound. */
  lemma SwitchedFresh<S>(c: Core<S>, h: History<S>, on: bool, maxSnapshots: uint32)
    ensures var (r, h') := Enabled(c, h, on, maxSnapshots);
      && (r == Code.Ok <==> c.save(h.state).Some? && c.save(h.state).value != [])
      && (r != Code.Ok ==> r == Unsupported && h' == h)
      && (r == Code.Ok ==> h'.state == h.state && h'.ring == [] && !h'.replay && (h'.enabled <==> on))
      && (r == Code.Ok ==> h'.bound == if maxSnapshots == 0 then 600 else maxSnapshots)
      && (r == Code.Ok && on ==> Linked(c, h.state, [], h') && Rewound(c, h') == (NotFound, h'))
      && (r == Code.Ok && !on ==> Rewound(c, h') == (Internal, h')
                                  && (forall a, b :: Advanced(c, h', a, b) == h'.(state := c.step(h.state, a, b))))
  {
  }

  /** Switch rewind on in any history, then show `n` frames, with bound `M` (600 when 0 is asked for): exactly
      `min(n, M) - 1` rewinds in a row succeed; the next one reports that no history is left and changes
      nothing. After `k` of them the state is the one before the `k + 1` last frames, and playing those frames
      again with their original inputs restores the state that was left. */
  lemma RewindThenReplay<S(!new)>(c: Core<S>, before: History<S>, maxSnapshots: uint32, frames: Frames, k: nat)
    requires Exact(c) && frames != []
    ensures var start, (r, on) := before.state, Enabled(c, before, true, maxSnapshots);
      var h := PresentAll(c, on, frames);
      var depth := Min(|frames|, if maxSnapshots == 0 then 600 else maxSnapshots) - 1;
      && r == Code.Ok
      && (k < depth ==> Rewound(c, RewindTimes(c, h, k)).0 == Code.Ok)
      && (k == depth ==> Rewound(c, RewindTimes(c, h, k)) == (NotFound, RewindTimes(c, h, k)))
      && (0 < k <= depth ==>
            var back := |frames| - 1 - k;
            && RewindTimes(c, h, k).state == Play(c, start, frames[..back])
            && PresentAll(c, RewindTimes(c, h, k), frames[back..]).state == h.state)
  {
    hide Linked, Rewound, Advanced, Play, Enabled;
    SwitchedFresh(c, before, true, maxSnapshots);
    assert c.save(before.state).Some?;
    var start, h0 := before.state, Enabled(c, before, true, maxSnapshots).1;
    var h := PresentAll(c, h0, frames);
    PresentAllLinked(c, start, [], h0, frames);
    assert [] + frames == frames;
    if k < Min(|frames|, h0.bound) {
      RewindTimesLinked(c, start, frames, h, k);
      var back := if k == 0 then |frames| else |frames| - 1 - k;
      RewindStepsBack(c, start, frames[..back], RewindTimes(c, h, k));
      if k > 0 {
        PresentAllLinked(c, start, frames[..back], RewindTimes(c, h, k), frames[back..]);
        assert frames[..back] + frames[back..] == frames;
        LinkedState(c, start, frames[..back], RewindTimes(c, h, k));
        LinkedState(c, start, frames, PresentAll(c, RewindTimes(c, h, k), frames[back..]));
        LinkedState(c, start, frames, h);
      }
    }
  }

  lemma LinkedState<S>(c: Core<S>, start: S, frames: Frames, h: History<S>)
    requires Linked(c, start, frames, h)
    ensures h.state == Play(c, start, frames)
  {
  }

  lemma {:induction false} RewindTimesLinked<S(!new)>(c: Core<S>, start: S, frames: Frames, h: History<S>, k: nat)
    requires Exact(c) && Linked(c, start, frames, h) && !h.replay && k < |h.ring|
    ensures k == 0 || k + 1 <= |frames|
    ensures var h' := RewindTimes(c, h, k);
      && |h'.ring| == |h.ring| - k
      && Linked(c, start, frames[..if k == 0 then |frames| else |frames| - 1 - k], h')
      && (h'.replay <==> k > 0)
    decreases k
  {
    hide Linked, Rewound;
    if k == 0 {
      assert frames[..|frames|] == frames;
    } else {
      RewindTimesLinked(c, start, frames, h, k - 1);
      var at := if k == 1 then |frames| else |frames| - k;
      RewindStepsBack(c, start, frames[..at], RewindTimes(c, h, k - 1));
      assert frames[..at][..|frames| - 1 - k] == frames[..|frames| - 1 - k];
    }
  }

  /** Holding the rewind key: each rewind followed by showing the frame with its original inputs
      moves the display one frame back. */
  lemma RewindAndShow<S(!new)>(c: Core<S>, start: S, frames: Frames, h: History<S>)
    requires Exact(c) && Linked(c, start, frames, h) && !h.replay && |h.ring| >= 2
    ensures var n := |frames|;
      && n >= 2
      && var shown := Advanced(c, Rewound(c, h).1, frames[n - 2].0, frames[n - 2].1);
        Linked(c, start, frames[..n - 1], shown) && !shown.replay && |shown.ring| == |h.ring| - 1
  {
    hide Linked, Advanced, Rewound;
    var n := |frames|;
    RewindStepsBack(c, start, frames, h);
    AdvanceShows(c, Rewound(c, h).1, frames[n - 2].0, frames[n - 2].1);
    AdvanceKeepsLinked(c, start, frames[..n - 2], Rewound(c, h).1, frames[n - 2].0, frames[n - 2].1);
    assert frames[..n - 2] + [(frames[n - 2].0, frames[n - 2].1)] == frames[..n - 1];
  }
}
