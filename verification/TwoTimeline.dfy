/** The shared-surface protocol between a producing core and the presenting host
    (src/render/vulkan/VulkanBackend.cpp; include/retropark/retropark_abi.h:57-68). Frame `f` lives in
    slot `f % slots`; the producer signals `2f + 2` when it is drawn and reuses the slot of frame
    `f - slots` only once the reuse timeline has reached `2(f - slots) + 3`. */
module TwoTimeline {
  import opened Abi

  /** `separate`: the host signals a consume timeline of its own; otherwise its signals go to the
      produce timeline too. The code uses the consume timeline when there are at least two slots. */
  datatype Config = Config(slots: nat, separate: bool)

  datatype Slot = Empty | Writing(frame: nat) | Holds(frame: nat)

  /** Where the host is in its presents: a first composite is submitted, reads the image once the
      produce wait is met, signals when the read is over, and is recorded once the fence is seen. */
  datatype Host = Idle | Submitted(index: nat, value: nat) | Reading(index: nat, value: nat) | Signalled(value: nat)

  /** `begun`, `drawn` and `published` count frames; `composited` lists the producer values of the first
      composites so far. */
  datatype State = State(begun: nat, drawn: nat, published: nat, produce: nat, consume: nat, slots: seq<Slot>,
                         ready: Option<(nat, nat)>, host: Host, lastPresentSync: nat, composited: seq<nat>)

  datatype Action = Begin | Draw | Publish | Present | Start | Finish | Fence

  function Signal(f: nat): nat { 2 * f + 2 }

  /** The timeline the producer waits on before it reuses a slot. */
  function Reuse(c: Config, s: State): nat {
    if c.separate then s.consume else s.produce
  }

  predicate MayBegin(c: Config, s: State) {
    s.begun < c.slots || Reuse(c, s) >= Signal(s.begun - c.slots) + 1
  }

  /** The host composites each producer value at most once as a new frame. */
  predicate NewFrame(s: State) {
    s.ready.Some? && s.ready.value.1 > s.lastPresentSync
  }

  predicate Enabled(c: Config, s: State, a: Action) {
    match a
    case Begin => MayBegin(c, s)
    case Draw => s.drawn < s.begun
    case Publish => s.published < s.begun
    case Present => s.host == Idle && NewFrame(s)
    case Start => s.host.Submitted? && s.produce >= s.host.value
    case Finish => s.host.Reading?
    case Fence => s.host.Signalled?
  }

  function Write(slots: seq<Slot>, f: nat, x: Slot): seq<Slot>
    requires |slots| > 0
  {
    slots[f % |slots| := x]
  }

  function Step(c: Config, s: State, a: Action): State
    requires |s.slots| == c.slots > 0 && Enabled(c, s, a)
  {
    match a
    case Begin => s.(begun := s.begun + 1, slots := Write(s.slots, s.begun, Writing(s.begun)))
    case Draw => s.(drawn := s.drawn + 1, produce := Signal(s.drawn), slots := Write(s.slots, s.drawn, Holds(s.drawn)))
    case Publish => s.(published := s.published + 1, ready := Some((s.published % c.slots, Signal(s.published))))
    case Present => s.(host := Submitted(s.ready.value.0, s.ready.value.1))
    case Start => s.(host := Reading(s.host.index, s.host.value))
    case Finish =>
      var t := s.(host := Signalled(s.host.value), composited := s.composited + [s.host.value]);
      if c.separate then t.(consume := s.host.value + 1) else t.(produce := s.host.value + 1)
    case Fence => s.(host := Idle, lastPresentSync := s.host.value)
  }

  function Initial(c: Config): State {
    State(0, 0, 0, 0, 0, seq(c.slots, _ => Empty), None, Idle, 0, [])
  }

  /** The state after a run of actions, when each was enabled. */
  function Run(c: Config, actions: seq<Action>): (r: Option<State>)
    requires c.slots > 0
    ensures r.Some? ==> |r.value.slots| == c.slots
    decreases |actions|
  {
    if actions == [] then Some(Initial(c))
    else match Run(c, actions[..|actions| - 1])
      case None => None
      case Some(s) =>
        var a := actions[|actions| - 1];
        if Enabled(c, s, a) then Some(Step(c, s, a)) else None
  }

  ghost predicate Reachable(c: Config, s: State)
    requires c.slots > 0
  {
    exists actions: seq<Action> :: Run(c, actions) == Some(s)
  }

  /** While a first composite reads its image, the image is the frame it was published for. */
  ghost predicate Safe(s: State) {
    s.host.Reading? ==> exists k: nat :: s.host.value == Signal(k) && |s.slots| > 0
                          && s.host.index == k % |s.slots| && s.slots[s.host.index] == Holds(k)
  }

  // ----- the invariant -----

  /** One past the last composited value, 0 before the first. */
  function Mark(s: State): nat {
    if s.composited == [] then 0 else s.composited[|s.composited| - 1] + 1
  }

  function Max(a: nat, b: nat): nat { if a < b then b else a }

  predicate TimelinesOk(c: Config, s: State) {
    if c.separate then s.produce == 2 * s.drawn && s.consume == Mark(s)
    else s.produce == Max(2 * s.drawn, Mark(s)) && s.consume == 0
  }

  /** The composited value `v` is that of frame `v / 2 - 1`, and that frame had been drawn. */
  predicate CompositedOk(composited: seq<nat>, drawn: nat) {
    && (forall i | 0 <= i < |composited| :: composited[i] % 2 == 0 && 2 <= composited[i] <= 2 * drawn)
    && (forall i, j | 0 <= i < j < |composited| :: composited[i] < composited[j])
  }

  predicate HostOk(c: Config, s: State)
    requires c.slots > 0
  {
    match s.host
    case Idle => Mark(s) == (if s.lastPresentSync == 0 then 0 else s.lastPresentSync + 1)
    case Signalled(v) => Mark(s) == v + 1 && s.lastPresentSync < v
    case Submitted(i, v) => InFlight(c, s, i, v)
    case Reading(i, v) => InFlight(c, s, i, v) && v <= 2 * s.drawn
  }

  predicate InFlight(c: Config, s: State, i: nat, v: nat)
    requires c.slots > 0
  {
    && Mark(s) == (if s.lastPresentSync == 0 then 0 else s.lastPresentSync + 1)
    && v % 2 == 0 && s.lastPresentSync < v && 2 <= v <= 2 * s.published
    && i == (v / 2 - 1) % c.slots
  }

  /** The last `slots` frames begun are where they belong. */
  ghost predicate SlotsOk(c: Config, s: State)
    requires |s.slots| == c.slots > 0
  {
    forall k: nat | k < s.begun <= k + c.slots :: s.slots[k % c.slots] == if k < s.drawn then Holds(k) else Writing(k)
  }

  ghost predicate Inv(c: Config, s: State) {
    && c.slots > 0 && |s.slots| == c.slots && (c.separate || c.slots == 1)
    && s.drawn <= s.begun && s.published <= s.begun
    && (s.begun > c.slots ==> Mark(s) >= 2 * (s.begun - c.slots) + 1)
    && s.ready == (if s.published == 0 then None else Some(((s.published - 1) % c.slots, 2 * s.published)))
    && TimelinesOk(c, s) && CompositedOk(s.composited, s.drawn) && HostOk(c, s) && SlotsOk(c, s)
  }

  lemma ModApart(n: nat, a: nat, b: nat)
    requires 0 < n && a < b < a + n
    ensures a % n != b % n
  {
    if a % n == b % n {
      var d := b / n - a / n;
      assert b - a == n * d;
      Multiple(n, d);
    }
  }

  lemma Multiple(n: nat, d: int)
    requires n > 0
    ensures d >= 1 ==> n * d >= n
    ensures d <= 0 ==> n * d <= 0
  {
  }

  /** No frame is begun over one that is still to be read, so nothing undrawn is more than a ring behind. */
  lemma Lag(c: Config, s: State)
    requires Inv(c, s)
    ensures s.begun <= s.drawn + c.slots
    ensures (s.host.Submitted? || s.host.Reading?) ==> s.begun <= s.host.value / 2 - 1 + c.slots
    ensures Mark(s) <= 2 * s.drawn + 1
  {
  }

  lemma BeginOk(c: Config, s: State)
    requires Inv(c, s) && Enabled(c, s, Begin)
    ensures Inv(c, Step(c, s, Begin))
  {
    hide CompositedOk;
    Lag(c, s);
    var t := Step(c, s, Begin);
    forall k: nat | k < t.begun <= k + c.slots
      ensures t.slots[k % c.slots] == if k < t.drawn then Holds(k) else Writing(k) {
      if k < s.begun { ModApart(c.slots, k, s.begun); }
    }
  }

  lemma DrawOk(c: Config, s: State)
    requires Inv(c, s) && Enabled(c, s, Draw)
    ensures Inv(c, Step(c, s, Draw)) && Step(c, s, Draw).produce > s.produce
  {
    Lag(c, s);
    DrawnSlots(c, s, Step(c, s, Draw));
    DrawnMore(s.composited, s.drawn);
    hide SlotsOk, CompositedOk, Write;
  }

  lemma DrawnMore(composited: seq<nat>, drawn: nat)
    requires CompositedOk(composited, drawn)
    ensures CompositedOk(composited, drawn + 1)
  {
  }

  lemma DrawnSlots(c: Config, s: State, t: State)
    requires |s.slots| == c.slots > 0 && SlotsOk(c, s) && s.drawn < s.begun <= s.drawn + c.slots
    requires t.begun == s.begun && t.drawn == s.drawn + 1 && t.slots == Write(s.slots, s.drawn, Holds(s.drawn))
    ensures SlotsOk(c, t)
  {
    forall k: nat | k < t.begun <= k + c.slots
      ensures t.slots[k % c.slots] == if k < t.drawn then Holds(k) else Writing(k) {
      if k < s.drawn { ModApart(c.slots, k, s.drawn); } else if k > s.drawn { ModApart(c.slots, s.drawn, k); }
    }
  }

  lemma PublishOk(c: Config, s: State)
    requires Inv(c, s) && Enabled(c, s, Publish)
    ensures Inv(c, Step(c, s, Publish))
  {
    hide CompositedOk;
  }

  lemma PresentOk(c: Config, s: State)
    requires Inv(c, s) && Enabled(c, s, Present)
    ensures Inv(c, Step(c, s, Present))
  {
    hide CompositedOk, SlotsOk;
    SameSlots(c, s, Step(c, s, Present));
  }

  lemma StartOk(c: Config, s: State)
    requires Inv(c, s) && Enabled(c, s, Start)
    ensures Inv(c, Step(c, s, Start))
  {
    MarkIsOdd(s);
    hide CompositedOk, SlotsOk;
    SameSlots(c, s, Step(c, s, Start));
  }

  lemma FinishOk(c: Config, s: State)
    requires Inv(c, s) && Enabled(c, s, Finish)
    ensures Inv(c, Step(c, s, Finish))
    ensures if c.separate then Step(c, s, Finish).consume > s.consume else Step(c, s, Finish).produce > s.produce
  {
    Lag(c, s);
    MarkIsOdd(s);
    hide SlotsOk, CompositedOk;
    CompositedAppend(s.composited, s.drawn, s.host.value);
    SameSlots(c, s, Step(c, s, Finish));
  }

  lemma FenceOk(c: Config, s: State)
    requires Inv(c, s) && Enabled(c, s, Fence)
    ensures Inv(c, Step(c, s, Fence))
  {
    hide CompositedOk, SlotsOk;
    SameSlots(c, s, Step(c, s, Fence));
  }

  lemma MarkIsOdd(s: State)
    requires CompositedOk(s.composited, s.drawn)
    ensures Mark(s) > 0 ==> Mark(s) % 2 == 1
  {
  }

  lemma CompositedAppend(composited: seq<nat>, drawn: nat, v: nat)
    requires CompositedOk(composited, drawn) && v % 2 == 0 && 2 <= v <= 2 * drawn
    requires composited != [] ==> composited[|composited| - 1] < v
    ensures CompositedOk(composited + [v], drawn)
  {
  }

  lemma SameSlots(c: Config, s: State, t: State)
    requires c.slots > 0 && |s.slots| == c.slots && t.slots == s.slots && t.begun == s.begun && t.drawn == s.drawn
    ensures SlotsOk(c, t) == SlotsOk(c, s)
  {
  }

  /** Every step keeps the invariant, and each signal strictly raises its timeline. */
  lemma StepOk(c: Config, s: State, a: Action)
    requires Inv(c, s) && Enabled(c, s, a)
    ensures Inv(c, Step(c, s, a))
    ensures a == Draw ==> Step(c, s, a).produce > s.produce
    ensures a == Finish ==> if c.separate then Step(c, s, a).consume > s.consume else Step(c, s, a).produce > s.produce
  {
    hide Inv, Step, Enabled;
    match a {
      case Begin => BeginOk(c, s);
      case Draw => DrawOk(c, s);
      case Publish => PublishOk(c, s);
      case Present => PresentOk(c, s);
      case Start => StartOk(c, s);
      case Finish => FinishOk(c, s);
      case Fence => FenceOk(c, s);
    }
  }

  lemma InitialOk(c: Config)
    requires c.slots > 0 && (c.separate || c.slots == 1)
    ensures Inv(c, Initial(c))
  {
  }

  lemma {:induction false} RunOk(c: Config, actions: seq<Action>)
    requires c.slots > 0 && (c.separate || c.slots == 1)
    ensures Run(c, actions).Some? ==> Inv(c, Run(c, actions).value)
    decreases |actions|
  {
    hide Inv, Step, Enabled;
    if actions == [] {
      InitialOk(c);
    } else {
      RunOk(c, actions[..|actions| - 1]);
      if Run(c, actions).Some? { StepOk(c, Run(c, actions[..|actions| - 1]).value, actions[|actions| - 1]); }
    }
  }

  lemma ReachableOk(c: Config, s: State)
    requires c.slots > 0 && (c.separate || c.slots == 1) && Reachable(c, s)
    ensures Inv(c, s)
  {
    hide Inv, Run;
    var actions :| Run(c, actions) == Some(s);
    RunOk(c, actions);
  }

  // ----- main results -----

  /** Safety: the slot of a frame holds that frame throughout its first composite. */
  lemma FirstCompositeReadsItsFrame(c: Config, s: State)
    requires c.slots > 0 && (c.separate || c.slots == 1) && Reachable(c, s)
    ensures Safe(s)
  {
    hide CompositedOk, Reachable;
    ReachableOk(c, s);
    Lag(c, s);
    if s.host.Reading? {
      var k := s.host.value / 2 - 1;
      assert s.host.value == Signal(k) && s.host.index == k % c.slots && s.slots[k % c.slots] == Holds(k);
    }
  }

  /** No producer value is ever composited as a new frame twice, and they are composited in order. */
  lemma EachValueOnce(c: Config, s: State, i: nat, j: nat)
    requires c.slots > 0 && (c.separate || c.slots == 1) && Reachable(c, s) && i < j < |s.composited|
    ensures s.composited[i] < s.composited[j]
  {
    hide Reachable;
    ReachableOk(c, s);
  }

  /** With one slot the host composites every frame, in order. */
  predicate InTurn(c: Config, s: State) {
    c.slots == 1 ==> (forall i | 0 <= i < |s.composited| :: s.composited[i] == Signal(i))
  }

  predicate Awaited(c: Config, s: State) {
    c.slots == 1 && (s.host.Submitted? || s.host.Reading?) ==> s.host.value == Signal(|s.composited|)
  }

  lemma InTurnOk(c: Config, s: State, a: Action)
    requires Inv(c, s) && Enabled(c, s, a) && InTurn(c, s) && Awaited(c, s)
    ensures InTurn(c, Step(c, s, a)) && Awaited(c, Step(c, s, a))
  {
    hide SlotsOk, CompositedOk;
    if a == Present && c.slots == 1 { OneBehind(c, s); }
  }

  /** With one slot, what is new is the frame after the last composited one. */
  lemma OneBehind(c: Config, s: State)
    requires Inv(c, s) && Enabled(c, s, Present) && InTurn(c, s) && c.slots == 1
    ensures s.ready.value.1 == Signal(|s.composited|)
  {
    hide SlotsOk, CompositedOk;
  }

  lemma {:induction false} RunInTurn(c: Config, actions: seq<Action>)
    requires c.slots == 1
    ensures Run(c, actions).Some? ==> InTurn(c, Run(c, actions).value) && Awaited(c, Run(c, actions).value)
    decreases |actions|
  {
    hide Inv, Step, Enabled, InTurn, Awaited;
    if actions == [] {
      assert InTurn(c, Initial(c)) && Awaited(c, Initial(c)) by { InitialInTurn(c); }
    } else {
      var n := |actions| - 1;
      RunInTurn(c, actions[..n]);
      RunOk(c, actions[..n]);
      if Run(c, actions).Some? { InTurnOk(c, Run(c, actions[..n]).value, actions[n]); }
    }
  }

  lemma InitialInTurn(c: Config)
    ensures InTurn(c, Initial(c)) && Awaited(c, Initial(c))
  {
  }

  /** With several slots the host can skip a frame: when two are published before it presents, it shows
      the newer one. */
  lemma FrameSkipped(c: Config) returns (s: State)
    requires c.slots >= 2
    ensures Reachable(c, s) && |s.composited| == 1 && s.composited[0] == Signal(1)
  {
    hide Run;
    var filled := FillRuns(c, 2);
    RunOne(c, Fill(2), Publish, filled);
    var one := Step(c, filled, Publish);
    RunOne(c, Fill(2) + [Publish], Publish, one);
    var two := Step(c, one, Publish);
    assert two.ready == Some((1 % c.slots, Signal(1)));
    RunOne(c, Fill(2) + [Publish] + [Publish], Present, two);
    var submitted := Step(c, two, Present);
    RunOne(c, Fill(2) + [Publish] + [Publish] + [Present], Start, submitted);
    var reading := Step(c, submitted, Start);
    RunOne(c, Fill(2) + [Publish] + [Publish] + [Present] + [Start], Finish, reading);
    s := Step(c, reading, Finish);
  }

  /** Exactly once, and exactly when: in every run the composited frames are all frames in order, if and
      only if there is one slot. */
  lemma EveryFrameOnceExactlyWithOneSlot(c: Config)
    requires c.slots > 0
    ensures (forall s: State, i: nat | Reachable(c, s) && i < |s.composited| :: s.composited[i] == Signal(i))
           <==> c.slots == 1
  {
    hide Run;
    if c.slots == 1 {
      forall s: State, i: nat | Reachable(c, s) && i < |s.composited| ensures s.composited[i] == Signal(i) {
        var actions :| Run(c, actions) == Some(s);
        RunInTurn(c, actions);
      }
    } else {
      var s := FrameSkipped(c);
      assert Reachable(c, s) && s.composited[0] != Signal(0);
    }
  }

  /** Both timelines only ever rise, and every signal raises its timeline strictly. */
  lemma TimelinesRise(c: Config, s: State, a: Action)
    requires c.slots > 0 && (c.separate || c.slots == 1) && Reachable(c, s) && Enabled(c, s, a)
    ensures var t := Step(c, s, a);
      && t.produce >= s.produce && t.consume >= s.consume
      && (a == Draw || (a == Finish && !c.separate) ==> t.produce > s.produce)
      && (a == Finish && c.separate ==> t.consume > s.consume)
  {
    hide Reachable, Inv;
    ReachableOk(c, s);
    StepOk(c, s, a);
  }

  /** Progress, exactly: when the host is idle and what is published is drawn, its next composite releases
      a blocked producer if and only if the newest published frame is less than a ring behind. */
  lemma BlockedProducerIsReleased(c: Config, s: State)
    requires c.slots > 0 && (c.separate || c.slots == 1) && Reachable(c, s)
    requires !MayBegin(c, s) && s.host == Idle && 0 < s.published <= s.drawn
    ensures s.published + c.slots > s.begun ==> Enabled(c, s, Present)
    ensures Enabled(c, s, Present) ==>
              var t := Step(c, s, Present);
              && Enabled(c, t, Start) && Enabled(c, Step(c, t, Start), Finish)
              && (MayBegin(c, Step(c, Step(c, t, Start), Finish)) <==> s.published + c.slots > s.begun)
  {
    hide Reachable;
    ReachableOk(c, s);
    ReleasedByNext(c, s);
  }

  lemma ReleasedByNext(c: Config, s: State)
    requires Inv(c, s) && !MayBegin(c, s) && s.host == Idle && 0 < s.published <= s.drawn
    ensures s.published + c.slots > s.begun ==> Enabled(c, s, Present)
    ensures Enabled(c, s, Present) ==>
              var t := Step(c, s, Present);
              && Enabled(c, t, Start) && Enabled(c, Step(c, t, Start), Finish)
              && (MayBegin(c, Step(c, Step(c, t, Start), Finish)) <==> s.published + c.slots > s.begun)
  {
    Lag(c, s);
    MarkIsOdd(s);
    hide CompositedOk, SlotsOk;
  }

  /** A composite that is being read when a producer blocks always releases it when the read is over. */
  lemma InFlightReleases(c: Config, s: State)
    requires c.slots > 0 && (c.separate || c.slots == 1) && Reachable(c, s) && s.host.Reading?
    ensures MayBegin(c, Step(c, s, Finish))
  {
    hide Reachable;
    ReachableOk(c, s);
    ReleasedByThis(c, s);
  }

  lemma ReleasedByThis(c: Config, s: State)
    requires Inv(c, s) && s.host.Reading?
    ensures MayBegin(c, Step(c, s, Finish))
  {
    Lag(c, s);
    hide CompositedOk, SlotsOk;
  }

  /** The state after further actions, when each is enabled. */
  function Continue(c: Config, s: State, actions: seq<Action>): (r: Option<State>)
    requires |s.slots| == c.slots > 0
    ensures r.Some? ==> |r.value.slots| == c.slots
    decreases |actions|
  {
    if actions == [] then Some(s)
    else if Enabled(c, s, actions[0]) then Continue(c, Step(c, s, actions[0]), actions[1..])
    else None
  }

  lemma ContinueOne(c: Config, s: State, a: Action, rest: seq<Action>)
    requires |s.slots| == c.slots > 0 && Enabled(c, s, a)
    ensures Continue(c, s, [a] + rest) == Continue(c, Step(c, s, a), rest)
    ensures Continue(c, s, []) == Some(s)
  {
    hide Step, Enabled;
    assert ([a] + rest)[1..] == rest;
  }

  /** What a producer that is blocked waits for: its own frames to be drawn and published, then the composite
      in flight or, when there is none, the next one. */
  function Awaits(s: State): Action {
    if s.drawn < s.begun then Draw
    else if s.published < s.begun then Publish
    else match s.host
      case Signalled(_) => Fence
      case Idle => Present
      case Submitted(_, _) => Start
      case Reading(_, _) => Finish
  }

  function HostRank(h: Host): nat {
    match h
    case Signalled(_) => 3
    case Idle => 2
    case Submitted(_, _) => 1
    case Reading(_, _) => 0
  }

  /** The step awaited is possible, and it releases the producer or comes closer to that. */
  lemma AwaitedStep(c: Config, s: State)
    requires Inv(c, s) && !MayBegin(c, s)
    ensures Enabled(c, s, Awaits(s))
    ensures var t := Step(c, s, Awaits(s));
      && t.begun == s.begun && s.drawn + s.published <= t.drawn + t.published
      && (MayBegin(c, t) || s.drawn + s.published < t.drawn + t.published || HostRank(t.host) < HostRank(s.host))
  {
    hide CompositedOk, SlotsOk;
    if s.drawn == s.begun && s.published == s.begun {
      if s.host == Idle { ReleasedByNext(c, s); } else if s.host.Reading? { ReleasedByThis(c, s); }
    }
  }

  lemma {:induction false} Released(c: Config, s: State) returns (actions: seq<Action>)
    requires Inv(c, s)
    ensures Continue(c, s, actions).Some? && MayBegin(c, Continue(c, s, actions).value)
    ensures Begin !in actions
    decreases 2 * s.begun - s.drawn - s.published, HostRank(s.host)
  {
    hide Step, MayBegin, Continue, Enabled, CompositedOk, SlotsOk, HostOk, TimelinesOk;
    actions := [];
    if MayBegin(c, s) {
      assert Continue(c, s, []) == Some(s) by { ContinueNone(c, s); }
    } else {
      var a := Awaits(s);
      AwaitedStep(c, s);
      StepOk(c, s, a);
      var t := Step(c, s, a);
      if MayBegin(c, t) {
        ContinueNone(c, t);
      } else {
        actions := Released(c, t);
      }
      ContinueOne(c, s, a, actions);
      actions := [a] + actions;
    }
  }

  lemma ContinueNone(c: Config, s: State)
    requires |s.slots| == c.slots > 0
    ensures Continue(c, s, []) == Some(s)
  {
  }

  /** Every blocked producer can be released, wherever the host is, by finishing what was begun: the run
      begins no frame. */
  lemma EveryBlockedProducerIsReleased(c: Config, s: State) returns (actions: seq<Action>)
    requires c.slots > 0 && (c.separate || c.slots == 1) && Reachable(c, s)
    ensures |s.slots| == c.slots
    ensures Continue(c, s, actions).Some? && MayBegin(c, Continue(c, s, actions).value) && Begin !in actions
  {
    hide Reachable, Continue, MayBegin;
    ReachableOk(c, s);
    actions := Released(c, s);
  }

  /** No deadlock: some step is always possible. */
  lemma NeverStuck(c: Config, s: State)
    requires c.slots > 0 && (c.separate || c.slots == 1) && Reachable(c, s)
    ensures exists a :: Enabled(c, s, a)
  {
    hide Reachable, CompositedOk, SlotsOk;
    ReachableOk(c, s);
    Lag(c, s);
    if s.drawn < s.begun {
      assert Enabled(c, s, Draw);
    } else if s.published < s.begun {
      assert Enabled(c, s, Publish);
    } else if s.host == Idle {
      if !MayBegin(c, s) { AwaitedStep(c, s); } else { assert Enabled(c, s, Begin); }
    } else if s.host.Submitted? {
      assert Enabled(c, s, Start);
    } else {
      assert Enabled(c, s, Finish) || Enabled(c, s, Fence);
    }
  }

  // ----- why one timeline is not enough for two slots -----

  /** On a single timeline the producer's own last signal already meets its next reuse wait, except
      with one slot. */
  lemma OwnSignalMeetsTheWait(c: Config, s: State)
    requires |s.slots| == c.slots > 0 && !c.separate && Enabled(c, s, Draw) && s.drawn + 1 == s.begun
    ensures MayBegin(c, Step(c, s, Draw)) <==> (s.begun < c.slots || c.slots >= 2)
  {
  }

  /** Draw the first `n` frames. */
  function Fill(n: nat): seq<Action> {
    if n == 0 then [] else Fill(n - 1) + [Begin] + [Draw]
  }

  lemma RunOne(c: Config, actions: seq<Action>, a: Action, s: State)
    requires c.slots > 0 && Run(c, actions) == Some(s) && Enabled(c, s, a)
    ensures |s.slots| == c.slots && Run(c, actions + [a]) == Some(Step(c, s, a))
  {
    hide Step, Enabled;
    assert (actions + [a])[..|actions + [a]| - 1] == actions;
  }

  lemma {:induction false} FillRuns(c: Config, n: nat) returns (s: State)
    requires n <= c.slots && c.slots > 0
    ensures Run(c, Fill(n)) == Some(s) && |s.slots| == c.slots
    ensures s.begun == s.drawn == n && s.published == 0 && s.produce == 2 * n
    ensures s.host == Idle && s.ready == None && s.lastPresentSync == 0 && s.composited == []
  {
    if n == 0 {
      s := Initial(c);
    } else {
      hide Run;
      var r := FillRuns(c, n - 1);
      RunOne(c, Fill(n - 1), Begin, r);
      var b := Step(c, r, Begin);
      RunOne(c, Fill(n - 1) + [Begin], Draw, b);
      s := Step(c, b, Draw);
    }
  }

  /** A run in which the producer overwrites the slot that the host is reading. */
  lemma SharedTimelineOverwrites(c: Config) returns (s: State)
    requires c.slots >= 2 && !c.separate
    ensures Reachable(c, s) && !Safe(s)
  {
    hide Run;
    var filled := FillRuns(c, c.slots);
    RunOne(c, Fill(c.slots), Publish, filled);
    var published := Step(c, filled, Publish);
    RunOne(c, Fill(c.slots) + [Publish], Present, published);
    var submitted := Step(c, published, Present);
    RunOne(c, Fill(c.slots) + [Publish] + [Present], Start, submitted);
    var reading := Step(c, submitted, Start);
    RunOne(c, Fill(c.slots) + [Publish] + [Present] + [Start], Begin, reading);
    s := Step(c, reading, Begin);
    SelfMod(c.slots);
    assert s.host.index == 0 && s.slots[0] == Writing(c.slots);
  }

  lemma SelfMod(n: nat)
    requires n > 0
    ensures n % n == 0 && 0 % n == 0
  {
  }

  /** The exact condition: first composites are safe in every run exactly when the host signals a
      consume timeline of its own or there is a single slot. */
  lemma SafeExactlyWhenSeparateOrSingle(c: Config)
    requires c.slots > 0
    ensures (forall s: State | Reachable(c, s) :: Safe(s)) <==> (c.separate || c.slots == 1)
  {
    hide Reachable, Safe;
    if c.separate || c.slots == 1 {
      forall s: State | Reachable(c, s) ensures Safe(s) { FirstCompositeReadsItsFrame(c, s); }
    } else {
      var s := SharedTimelineOverwrites(c);
      assert Reachable(c, s) && !Safe(s);
    }
  }
}
