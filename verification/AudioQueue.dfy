/** The backlog counter of the audio output (src/audio/XAudio2Output.cpp), as interleaved atomic steps
    of any number of submits, of the voice, and of its end-of-buffer callbacks. */
module AudioQueue {
  import opened Abi
  import Wire = NetProtocol

  const POOL: nat := 16
  const WRAP: nat := 0x1_0000_0000

  /** `sole`: there is one producer, and it submits at most what `want_frames` last told it. */
  datatype Config = Config(channels: uint32, target: uint32, sole: bool)

  /** One submitted buffer, from picking its slot until its frames are subtracted again. A refused
      buffer and a played one end in the same compare-and-swap loop. */
  datatype Life =
    | Picked(slot: nat, n: nat)
    | Copied(slot: nat, n: nat)
    | Added(slot: nat, n: nat)
    | Playing(slot: nat, n: nat)
    | Refused(slot: nat, n: nat)
    | Owes(d: nat)
    | Owing(d: nat, q: nat)
    | Done

  /** `bufs` holds the length of each slot's buffer in samples. */
  datatype State = State(queued: nat, inUse: seq<bool>, bufs: seq<nat>, lives: seq<Life>, budget: Option<nat>)

  datatype Action = Want | Pick(frames: nat) | Copy(i: nat) | Add(i: nat) | Accept(i: nat) | Refuse(i: nat)
                  | Release(i: nat) | BufferEnd(i: nat) | Read(i: nat) | Exchange(i: nat, spurious: bool)

  /** `audio_pick_free_slot`: the first free slot, or the pool size when there is none. */
  function FreeSlot(inUse: seq<bool>): (k: nat)
    ensures k <= |inUse| && (k < |inUse| ==> !inUse[k]) && (forall j | 0 <= j < k :: inUse[j])
  {
    if inUse == [] || !inUse[0] then 0 else 1 + FreeSlot(inUse[1..])
  }

  /** `want_frames`. */
  function Deficit(target: nat, queued: nat): nat {
    if queued >= target then 0 else target - queued
  }

  function SaturatingSub(q: nat, d: nat): nat {
    if q > d then q - d else 0
  }

  /** The frames of an ended buffer, as the callback works them out. */
  function DoneFrames(channels: nat, samples: nat): nat {
    if channels == 0 then 0 else (samples / channels) % WRAP
  }

  predicate Submitting(l: Life) {
    l.Picked? || l.Copied? || l.Added? || l.Refused?
  }

  predicate Enabled(c: Config, s: State, a: Action) {
    match a
    case Want => c.sole && (forall i | 0 <= i < |s.lives| :: !Submitting(s.lives[i]))
    case Pick(n) => n > 0 && (c.sole ==> s.budget.Some? && n <= s.budget.value)
    case Copy(i) => i < |s.lives| && s.lives[i].Picked?
    case Add(i) => i < |s.lives| && s.lives[i].Copied?
    case Accept(i) => i < |s.lives| && s.lives[i].Added?
    case Refuse(i) => i < |s.lives| && s.lives[i].Added?
    case Release(i) => i < |s.lives| && s.lives[i].Refused?
    case BufferEnd(i) => i < |s.lives| && s.lives[i].Playing?
    case Read(i) => i < |s.lives| && s.lives[i].Owes?
    case Exchange(i, _) => i < |s.lives| && s.lives[i].Owing?
  }

  predicate Holding(l: Life) {
    Submitting(l) || l.Playing?
  }

  predicate Shape(s: State) {
    |s.inUse| == POOL && |s.bufs| == POOL && forall i | 0 <= i < |s.lives| && Holding(s.lives[i]) ::
        s.lives[i].slot < POOL
  }

  function Become(s: State, i: nat, l: Life): State
    requires i < |s.lives|
  {
    s.(lives := s.lives[i := l])
  }

  function Step(c: Config, s: State, a: Action): State
    requires Shape(s) && Enabled(c, s, a)
  {
    match a
    case Want => s.(budget := Some(Deficit(c.target, s.queued)))
    case Pick(n) =>
      var k := FreeSlot(s.inUse);
      if k == POOL then s.(budget := None)
      else s.(budget := None, inUse := s.inUse[k := true], lives := s.lives + [Picked(k, n)])
    case Copy(i) =>
      var l := s.lives[i];
      Become(s, i, Copied(l.slot, l.n)).(bufs := s.bufs[l.slot := l.n * c.channels])
    case Add(i) =>
      var l := s.lives[i];
      Become(s, i, Added(l.slot, l.n)).(queued := (s.queued + l.n) % WRAP)
    case Accept(i) => Become(s, i, Playing(s.lives[i].slot, s.lives[i].n))
    case Refuse(i) => Become(s, i, Refused(s.lives[i].slot, s.lives[i].n))
    case Release(i) => Become(s, i, Owes(s.lives[i].n)).(inUse := s.inUse[s.lives[i].slot := false])
    case BufferEnd(i) =>
      var l := s.lives[i];
      var d := DoneFrames(c.channels, s.bufs[l.slot]);
      Become(s, i, if d == 0 then Done else Owes(d)).(inUse := s.inUse[l.slot := false])
    case Read(i) => Become(s, i, Owing(s.lives[i].d, s.queued))
    case Exchange(i, spurious) =>
      var l := s.lives[i];
      if s.queued == l.q && !spurious
      then Become(s, i, Done).(queued := SaturatingSub(l.q, l.d))
      else Become(s, i, Owing(l.d, s.queued))
  }

  function Opened(): State {
    State(0, seq(POOL, _ => false), seq(POOL, _ => 0), [], None)
  }

  // ----- what is owed -----

  /** Frames added to the counter and not yet subtracted. */
  function Debt(l: Life): nat {
    match l
    case Added(_, n) => n
    case Playing(_, n) => n
    case Refused(_, n) => n
    case Owes(d) => d
    case Owing(d, _) => d
    case _ => 0
  }

  /** Frames about to be added. */
  function Coming(l: Life): nat {
    match l
    case Picked(_, n) => n
    case Copied(_, n) => n
    case _ => 0
  }

  function Sum(f: Life -> nat, lives: seq<Life>): nat {
    if lives == [] then 0 else Sum(f, lives[..|lives| - 1]) + f(lives[|lives| - 1])
  }

  function Outstanding(s: State): nat { Sum(Debt, s.lives) }

  lemma {:induction false} SumUpdate(f: Life -> nat, lives: seq<Life>, i: nat, l: Life)
    requires i < |lives|
    ensures Sum(f, lives[i := l]) + f(lives[i]) == Sum(f, lives) + f(l)
    decreases |lives|
  {
    var k := |lives| - 1;
    var upd := lives[i := l];
    if i == k {
      assert upd[..k] == lives[..k];
    } else {
      assert upd[..k] == lives[..k][i := l];
      SumUpdate(f, lives[..k], i, l);
    }
  }

  lemma SumAppend(f: Life -> nat, lives: seq<Life>, l: Life)
    ensures Sum(f, lives + [l]) == Sum(f, lives) + f(l)
  {
    assert (lives + [l])[..|lives + [l]| - 1] == lives;
  }

  lemma {:induction false} SumAtLeast(f: Life -> nat, lives: seq<Life>, i: nat)
    requires i < |lives|
    ensures f(lives[i]) <= Sum(f, lives)
    decreases |lives|
  {
    if i < |lives| - 1 { SumAtLeast(f, lives[..|lives| - 1], i); }
  }

  lemma {:induction false} SumZero(f: Life -> nat, lives: seq<Life>)
    requires forall i | 0 <= i < |lives| :: f(lives[i]) == 0
    ensures Sum(f, lives) == 0
  {
    if lives != [] { SumZero(f, lives[..|lives| - 1]); }
  }

  // ----- runs -----

  /** The counter is 32 bits wide: a run fits when what is outstanding never reaches 2^32. */
  predicate Fits(s: State, a: Action) {
    a.Add? && a.i < |s.lives| ==> Outstanding(s) + Coming(s.lives[a.i]) < WRAP
  }

  /** The state after a run of actions, when each was enabled and the run fits. */
  function Run(c: Config, actions: seq<Action>): (r: Option<State>)
    ensures r.Some? ==> Shape(r.value)
    decreases |actions|
  {
    if actions == [] then Some(Opened())
    else match Run(c, actions[..|actions| - 1])
      case None => None
      case Some(s) =>
        var a := actions[|actions| - 1];
        if Enabled(c, s, a) && Fits(s, a) then Some(Step(c, s, a)) else None
  }

  ghost predicate Reachable(c: Config, s: State) {
    exists actions: seq<Action> :: Run(c, actions) == Some(s)
  }

  // ----- the invariant -----

  /** Slots in use belong to one buffer each. */
  predicate SlotsOk(inUse: seq<bool>, lives: seq<Life>)
    requires |inUse| == POOL
  {
    && (forall i | 0 <= i < |lives| && Holding(lives[i]) :: lives[i].slot < POOL && inUse[lives[i].slot])
    && (forall i, j | 0 <= i < j < |lives| && Holding(lives[i]) && Holding(lives[j]) :: lives[i].slot != lives[j].slot)
  }

  predicate BufsOk(channels: nat, bufs: seq<nat>, lives: seq<Life>)
    requires |bufs| == POOL
  {
    forall i | 0 <= i < |lives| && Holding(lives[i]) && !lives[i].Picked? :: lives[i].slot < POOL
      && bufs[lives[i].slot] == lives[i].n * channels
  }

  function Budget(s: State): nat { if s.budget.Some? then s.budget.value else 0 }

  /** A sole producer keeps what it owes, is about to add and may still pick within the target. */
  predicate WithinTarget(c: Config, s: State) {
    c.sole ==> Outstanding(s) + Sum(Coming, s.lives) + Budget(s) <= c.target
  }

  predicate Inv(c: Config, s: State) {
    && Shape(s) && SlotsOk(s.inUse, s.lives) && BufsOk(c.channels, s.bufs, s.lives)
    && s.queued == Outstanding(s) < WRAP
    && WithinTarget(c, s)
  }

  lemma SlotsKept(inUse: seq<bool>, lives: seq<Life>, i: nat, l: Life)
    requires |inUse| == POOL && SlotsOk(inUse, lives) && i < |lives|
    requires Holding(l) ==> Holding(lives[i]) && l.slot == lives[i].slot
    ensures SlotsOk(inUse, lives[i := l])
  {
  }

  lemma SlotFreed(inUse: seq<bool>, lives: seq<Life>, i: nat, l: Life)
    requires |inUse| == POOL && SlotsOk(inUse, lives) && i < |lives| && Holding(lives[i]) && !Holding(l)
    ensures SlotsOk(inUse[lives[i].slot := false], lives[i := l])
  {
  }

  lemma SlotTaken(inUse: seq<bool>, lives: seq<Life>, k: nat, n: nat)
    requires |inUse| == POOL && SlotsOk(inUse, lives) && k < POOL && !inUse[k]
    ensures SlotsOk(inUse[k := true], lives + [Picked(k, n)])
  {
  }

  lemma BufsKept(channels: nat, bufs: seq<nat>, lives: seq<Life>, i: nat, l: Life)
    requires |bufs| == POOL && BufsOk(channels, bufs, lives) && i < |lives|
    requires Holding(l) && !l.Picked?
           ==> Holding(lives[i]) && !lives[i].Picked? && l.slot == lives[i].slot && l.n == lives[i].n
    ensures BufsOk(channels, bufs, lives[i := l])
  {
  }

  lemma BufFilled(channels: nat, inUse: seq<bool>, bufs: seq<nat>, lives: seq<Life>, i: nat)
    requires |bufs| == |inUse| == POOL && BufsOk(channels, bufs, lives) && SlotsOk(inUse, lives) && i < |lives|
           && lives[i].Picked?
    ensures var l := lives[i];
      BufsOk(channels, bufs[l.slot := l.n * channels], lives[i := Copied(l.slot, l.n)])
  {
  }

  /** What one life's step does to the two sums. */
  lemma Sums(s: State, i: nat, l: Life)
    requires i < |s.lives|
    ensures Sum(Debt, s.lives[i := l]) + Debt(s.lives[i]) == Outstanding(s) + Debt(l)
    ensures Sum(Coming, s.lives[i := l]) + Coming(s.lives[i]) == Sum(Coming, s.lives) + Coming(l)
    ensures Debt(s.lives[i]) <= Outstanding(s) && Coming(s.lives[i]) <= Sum(Coming, s.lives)
  {
    SumUpdate(Debt, s.lives, i, l);
    SumUpdate(Coming, s.lives, i, l);
    SumAtLeast(Debt, s.lives, i);
    SumAtLeast(Coming, s.lives, i);
  }

  lemma DoneFramesExact(channels: nat, n: nat)
    requires channels >= 1 && n < WRAP
    ensures DoneFrames(channels, n * channels) == n
  {
    Wire.QuotientIs(n * channels, channels, n, 0);
  }

  lemma WantOk(c: Config, s: State)
    requires Inv(c, s) && Enabled(c, s, Want)
    ensures Inv(c, Step(c, s, Want))
  {
    hide SlotsOk, BufsOk, Sum;
    SumZeroComing(s);
  }

  lemma SumZeroComing(s: State)
    requires forall i | 0 <= i < |s.lives| :: !Submitting(s.lives[i])
    ensures Sum(Coming, s.lives) == 0
  {
    SumZero(Coming, s.lives);
  }

  lemma PickOk(c: Config, s: State, n: nat)
    requires Inv(c, s) && Enabled(c, s, Pick(n))
    ensures Inv(c, Step(c, s, Pick(n)))
  {
    hide SlotsOk, Sum;
    var k := FreeSlot(s.inUse);
    if k < POOL {
      SlotTaken(s.inUse, s.lives, k, n);
      SumAppend(Debt, s.lives, Picked(k, n));
      SumAppend(Coming, s.lives, Picked(k, n));
    }
  }

  /** The steps of one buffer's life. */
  lemma LifeOk(c: Config, s: State, a: Action)
    requires Inv(c, s) && Enabled(c, s, a) && Fits(s, a) && c.channels >= 1
    requires a.Copy? || a.Add? || a.Accept? || a.Refuse? || a.Release? || a.BufferEnd? || a.Read? || a.Exchange?
    ensures Inv(c, Step(c, s, a))
  {
    hide SlotsOk, BufsOk, Sum;
    var t := Step(c, s, a);
    var l := t.lives[a.i];
    Sums(s, a.i, l);
    if a.Copy? {
      BufFilled(c.channels, s.inUse, s.bufs, s.lives, a.i);
    } else {
      if a.BufferEnd? { EndedFrames(c, s, a.i); }
      BufsKept(c.channels, s.bufs, s.lives, a.i, l);
    }
    if a.Release? || a.BufferEnd? {
      SlotFreed(s.inUse, s.lives, a.i, l);
    } else {
      SlotsKept(s.inUse, s.lives, a.i, l);
    }
  }

  /** The callback subtracts what the submit added. */
  lemma EndedFrames(c: Config, s: State, i: nat)
    requires Inv(c, s) && c.channels >= 1 && i < |s.lives| && s.lives[i].Playing?
    ensures DoneFrames(c.channels, s.bufs[s.lives[i].slot]) == s.lives[i].n
  {
    hide Sum, SlotsOk;
    SumAtLeast(Debt, s.lives, i);
    DoneFramesExact(c.channels, s.lives[i].n);
  }

  lemma StepOk(c: Config, s: State, a: Action)
    requires Inv(c, s) && Enabled(c, s, a) && Fits(s, a) && c.channels >= 1
    ensures Inv(c, Step(c, s, a))
  {
    hide Inv, Step, Fits, Enabled;
    if a.Want? { WantOk(c, s); } else if a.Pick? { PickOk(c, s, a.frames); } else { LifeOk(c, s, a); }
  }

  lemma {:induction false} RunOk(c: Config, actions: seq<Action>)
    requires c.channels >= 1
    ensures Run(c, actions).Some? ==> Inv(c, Run(c, actions).value)
    decreases |actions|
  {
    hide Inv, Step, Enabled, Fits;
    if actions == [] {
      OpenedOk(c);
    } else {
      RunOk(c, actions[..|actions| - 1]);
      if Run(c, actions).Some? { StepOk(c, Run(c, actions[..|actions| - 1]).value, actions[|actions| - 1]); }
    }
  }

  lemma OpenedOk(c: Config)
    ensures Inv(c, Opened())
  {
  }

  lemma ReachableOk(c: Config, s: State)
    requires c.channels >= 1 && Reachable(c, s)
    ensures Inv(c, s)
  {
    hide Inv, Run;
    var actions :| Run(c, actions) == Some(s);
    RunOk(c, actions);
  }

  // ----- main results -----

  /** The counter is exact: in every interleaving it is the frames added and not yet subtracted. */
  lemma BacklogIsExact(c: Config, s: State)
    requires c.channels >= 1 && Reachable(c, s)
    ensures s.queued == Outstanding(s)
  {
    hide Reachable;
    ReachableOk(c, s);
  }

  /** The saturating subtraction never clamps: when its compare-and-swap succeeds, the counter holds at
      least the frames to subtract. */
  lemma NeverClamps(c: Config, s: State, i: nat)
    requires c.channels >= 1 && Reachable(c, s) && Enabled(c, s, Exchange(i, false)) && s.queued == s.lives[i].q
    ensures s.lives[i].d <= s.queued && Step(c, s, Exchange(i, false)).queued == s.queued - s.lives[i].d
  {
    hide Reachable, Sum;
    ReachableOk(c, s);
    SumAtLeast(Debt, s.lives, i);
  }

  predicate AllDone(s: State) {
    forall i | 0 <= i < |s.lives| :: s.lives[i].Done?
  }

  /** With a sole producer that submits at most what it was told is wanted, the backlog never exceeds
      the target. */
  lemma SoleProducerStaysAtTarget(c: Config, s: State)
    requires c.channels >= 1 && c.sole && Reachable(c, s)
    ensures s.queued <= c.target
  {
    hide Reachable, Sum;
    ReachableOk(c, s);
  }

  /** And then the 32-bit counter never limits a run: every enabled step fits. */
  lemma SoleProducerFits(c: Config, s: State, a: Action)
    requires c.channels >= 1 && c.sole && Reachable(c, s) && Enabled(c, s, a)
    ensures Fits(s, a)
  {
    hide Reachable, Sum;
    ReachableOk(c, s);
    if a.Add? { SumAtLeast(Coming, s.lives, a.i); }
  }

  /** The steps of `actions` from `s`, when each is possible. */
  function Onward(c: Config, s: State, actions: seq<Action>): Option<State>
    decreases |actions|
  {
    if actions == [] then Some(s)
    else if !Shape(s) || !Enabled(c, s, actions[0]) || !Fits(s, actions[0]) then None
    else Onward(c, Step(c, s, actions[0]), actions[1..])
  }

  lemma OnwardStep(c: Config, s: State, a: Action, more: seq<Action>)
    requires Shape(s) && Enabled(c, s, a) && Fits(s, a)
    ensures Onward(c, s, [a] + more) == Onward(c, Step(c, s, a), more)
  {
    hide Step, Enabled, Fits, Shape;
    assert ([a] + more)[1..] == more;
  }

  /** What a sole producer is told is exactly what is missing: when it submits that much while no buffer ends,
      the backlog is at the target. */
  lemma FillsToTarget(c: Config, s: State)
    requires c.channels >= 1 && c.sole && Reachable(c, s) && Enabled(c, s, Want) && s.queued < c.target
    requires Shape(s) && exists k :: 0 <= k < 16 && !s.inUse[k]
    ensures Step(c, s, Want).budget.Some?
    ensures var told, i := Step(c, s, Want).budget.value, |s.lives|;
      var r := Onward(c, s, [Want, Pick(told), Copy(i), Add(i)]);
      r.Some? && r.value.queued == c.target
  {
    hide Reachable, Sum, SlotsOk, BufsOk, Fits, Onward;
    ReachableOk(c, s);
    SumZeroComing(s);
    var i, s1 := |s.lives|, Step(c, s, Want);
    var told := s1.budget.value;
    var s2 := Step(c, s1, Pick(told));
    assert s2.lives == s.lives + [Picked(FreeSlot(s.inUse), told)];
    var s3 := Step(c, s2, Copy(i));
    SumAppend(Debt, s.lives, s2.lives[i]);
    SumUpdate(Debt, s2.lives, i, s3.lives[i]);
    assert Fits(s3, Add(i)) && Fits(s, Want) && Fits(s1, Pick(told)) && Fits(s2, Copy(i)) by { FitsAre(); }
    OnwardStep(c, s, Want, [Pick(told), Copy(i), Add(i)]);
    OnwardStep(c, s1, Pick(told), [Copy(i), Add(i)]);
    OnwardStep(c, s2, Copy(i), [Add(i)]);
    OnwardStep(c, s3, Add(i), []);
    OnwardEnd(c, Step(c, s3, Add(i)));
    assert [Want] + [Pick(told), Copy(i), Add(i)] == [Want, Pick(told), Copy(i), Add(i)];
    assert [Pick(told)] + [Copy(i), Add(i)] == [Pick(told), Copy(i), Add(i)];
    assert [Copy(i)] + [Add(i)] == [Copy(i), Add(i)] && [Add(i)] + [] == [Add(i)];
  }

  lemma OnwardEnd(c: Config, s: State)
    ensures Onward(c, s, []) == Some(s)
  {
  }

  lemma FitsAre()
    ensures forall s: State, a: Action | !a.Add? :: Fits(s, a)
    ensures forall s: State, i: nat | i < |s.lives| && Outstanding(s) + Coming(s.lives[i]) < 0x1_0000_0000 ::
              Fits(s, Add(i))
  {
  }

  /** Told of nothing, the backlog is there already. */
  lemma ToldNothingExactlyWhenFull(c: Config, s: State)
    requires c.channels >= 1 && c.sole && Reachable(c, s) && Enabled(c, s, Want)
    ensures Shape(s) && (Step(c, s, Want).budget == Some(0) <==> s.queued == c.target)
  {
    hide Reachable, Sum;
    ReachableOk(c, s);
  }

  /** A buffer is dropped exactly when all sixteen slots are in use, and nothing is added for it then. */
  lemma DroppedExactlyWhenFull(c: Config, s: State, n: nat)
    requires Shape(s) && Enabled(c, s, Pick(n))
    ensures var t := Step(c, s, Pick(n));
      && |s.inUse| == 16 && t.queued == s.queued && t.budget == None
      && (t.lives == s.lives <==> forall k | 0 <= k < 16 :: s.inUse[k])
      && (t.lives != s.lives
          ==> exists k :: 0 <= k < 16 && !s.inUse[k] && t.inUse == s.inUse[k := true]
                          && t.lives == s.lives + [Picked(k, n)])
  {
    if FreeSlot(s.inUse) < POOL {
      assert |Step(c, s, Pick(n)).lives| == |s.lives| + 1;
    }
  }

  /** A retry of the loop makes progress: read again without interference, it succeeds. */
  lemma RetrySucceeds(c: Config, s: State, i: nat)
    requires Shape(s) && Enabled(c, s, Exchange(i, true))
    ensures var t := Step(c, s, Exchange(i, true));
      Shape(t) && Enabled(c, t, Exchange(i, false)) && Step(c, t, Exchange(i, false)).lives[i].Done?
  {
  }

  lemma RunOne(c: Config, actions: seq<Action>, a: Action, s: State)
    requires Run(c, actions) == Some(s) && Enabled(c, s, a) && Fits(s, a)
    ensures Shape(s) && Run(c, actions + [a]) == Some(Step(c, s, a))
  {
    hide Step, Enabled, Fits;
    assert (actions + [a])[..|actions + [a]| - 1] == actions;
  }

  /** A producer can submit: anyone can, and a sole producer once it is told that frames are wanted. */
  predicate CanSubmit(c: Config) {
    c.sole ==> c.target > 0
  }

  /** The producer is about to submit its first frame. */
  lemma ReadyToSubmit(c: Config) returns (s: State, actions: seq<Action>)
    requires CanSubmit(c)
    ensures Run(c, actions) == Some(s) && Shape(s) && Enabled(c, s, Pick(1)) && s == Opened().(budget := s.budget)
  {
    hide Run, Sum;
    var s0 := Opened();
    assert Run(c, []) == Some(s0) by { EmptyRun(c); }
    if c.sole {
      RunOne(c, [], Want, s0);
      s, actions := Step(c, s0, Want), [] + [Want];
    } else {
      s, actions := s0, [];
    }
  }

  /** One buffer of one frame is added. */
  lemma OneFrameAdded(c: Config) returns (s: State, actions: seq<Action>)
    requires c.channels == 0 && CanSubmit(c)
    ensures Run(c, actions) == Some(s) && Shape(s) && s.lives == [Added(0, 1)] && s.bufs[0] == 0 && s.queued == 1
  {
    hide Run, FreeSlot, Sum;
    var s0, before := ReadyToSubmit(c);
    assert FreeSlot(s0.inUse) == 0 by { FirstIsFree(s0.inUse); }
    RunOne(c, before, Pick(1), s0);
    var s1 := Step(c, s0, Pick(1));
    assert s1.lives == [Picked(0, 1)];
    RunOne(c, before + [Pick(1)], Copy(0), s1);
    var s2 := Step(c, s1, Copy(0));
    assert Fits(s2, Add(0)) by { SumZero(Debt, s2.lives); }
    RunOne(c, before + [Pick(1)] + [Copy(0)], Add(0), s2);
    s, actions := Step(c, s2, Add(0)), before + [Pick(1)] + [Copy(0)] + [Add(0)];
  }

  /** Without channels the callback finds no frames to subtract, and one buffer leaks its frame. It takes an
      audio system that accepts a voice of no channels. */
  lemma NoChannelsLeaks(c: Config) returns (s: State)
    requires c.channels == 0 && CanSubmit(c)
    ensures Reachable(c, s) && AllDone(s) && s.queued == 1
  {
    hide Run;
    var added, actions := OneFrameAdded(c);
    RunOne(c, actions, Accept(0), added);
    var playing := Step(c, added, Accept(0));
    RunOne(c, actions + [Accept(0)], BufferEnd(0), playing);
    s := Step(c, playing, BufferEnd(0));
  }

  /** A sole producer that is never told that frames are wanted submits nothing. */
  lemma {:induction false} NothingSubmitted(c: Config, actions: seq<Action>)
    requires !CanSubmit(c)
    ensures Run(c, actions).Some? ==>
              var s := Run(c, actions).value;
              s.lives == [] && s.queued == 0 && (s.budget.Some? ==> s.budget.value == 0)
    decreases |actions|
  {
    hide Fits, Enabled, Step;
    if actions != [] {
      NothingSubmitted(c, actions[..|actions| - 1]);
      if Run(c, actions).Some? {
        IdleStays(c, Run(c, actions[..|actions| - 1]).value, actions[|actions| - 1]);
      }
    }
  }

  lemma IdleStays(c: Config, s: State, a: Action)
    requires !CanSubmit(c) && Shape(s) && Enabled(c, s, a)
    requires s.lives == [] && s.queued == 0 && (s.budget.Some? ==> s.budget.value == 0)
    ensures var t := Step(c, s, a);
      t.lives == [] && t.queued == 0 && (t.budget.Some? ==> t.budget.value == 0)
  {
    hide Fits, FreeSlot;
  }

  lemma EmptyRun(c: Config)
    ensures Run(c, []) == Some(Opened())
  {
  }

  lemma FirstIsFree(inUse: seq<bool>)
    requires |inUse| > 0 && !inUse[0]
    ensures FreeSlot(inUse) == 0
  {
  }

  /** The counter returns to 0 whenever all buffers have ended, exactly when there is a channel or nothing
      can be submitted at all. */
  lemma ReturnsToZeroExactlyWithChannels(c: Config)
    ensures (forall s: State | Reachable(c, s) && AllDone(s) :: s.queued == 0) <==> c.channels >= 1 || !CanSubmit(c)
  {
    hide AllDone, Run, CanSubmit;
    if c.channels >= 1 {
      forall s: State | Reachable(c, s) && AllDone(s) ensures s.queued == 0 { AllDoneMeansZero(c, s); }
    } else if !CanSubmit(c) {
      forall s: State | Reachable(c, s) && AllDone(s) ensures s.queued == 0 {
        var actions :| Run(c, actions) == Some(s);
        NothingSubmitted(c, actions);
      }
    } else {
      var s := NoChannelsLeaks(c);
      assert Reachable(c, s) && AllDone(s);
    }
  }

  lemma AllDoneMeansZero(c: Config, s: State)
    requires c.channels >= 1 && Reachable(c, s) && AllDone(s)
    ensures s.queued == 0
  {
    hide Reachable, Sum;
    ReachableOk(c, s);
    SumZero(Debt, s.lives);
  }
}
