/** The timeline part of the presenting backend (src/render/vulkan/VulkanBackend.cpp): when a present
    counts as a new frame, what it waits for and signals, and what it remembers. */
module VulkanBackend {
  import opened Abi
  import T = TwoTimeline

  /** The semaphores of one submission; the binary ones of the swapchain carry the value 0. */
  datatype Semaphore = Produce | Consume | Acquired | Presentable(image: nat)

  datatype Submission = Submission(acquires: Option<nat>, waits: seq<(Semaphore, uint64)>,
                                   signals: seq<(Semaphore, uint64)>)

  /** A present call: the newest ready frame, if any, and the swapchain image it goes to, if any. */
  datatype Call = Call(index: nat, value: uint64, hasFrame: bool, image: Option<nat>)

  predicate IsNew(last: uint64, call: Call) {
    call.hasFrame && call.value > last
  }

  function Last(last: uint64, call: Call): uint64 {
    if IsNew(last, call) then call.value else last
  }

  function ConsumeOf(surfaces: nat, consumeHandle: bool): Semaphore {
    if surfaces >= 2 && consumeHandle then Consume else Produce
  }

  /** The work submitted for a present, for `surfaces` shared images. */
  function Submitted(surfaces: nat, consumeHandle: bool, last: uint64, call: Call): Submission
    requires call.value < UINT64_MAX
  {
    Submission(
      if IsNew(last, call) then Some(call.index) else None,
      (if call.image.Some? then [(Acquired, 0)] else []) + (if IsNew(last, call) then [(Produce, call.value)] else []),
      (if call.image.Some? then [(Presentable(call.image.value), 0)] else [])
        + (if IsNew(last, call) then [(ConsumeOf(surfaces, consumeHandle), call.value + 1)] else []))
  }

  class VulkanBackend {
    var device: bool
    var surfaces: nat
    var consumeTimeline: bool
    var swapchain: bool
    var lastPresentSync: uint64

    constructor ()
      ensures !device && surfaces == 0 && !consumeTimeline && !swapchain && lastPresentSync == 0
    {
      device, surfaces, consumeTimeline, swapchain, lastPresentSync := false, 0, false, false, 0;
    }

    /** A new batch of shared images starts both timelines, and the record of what was consumed, at 0. */
    method AllocateSurfaces(count: nat)
      modifies this
      ensures surfaces == count && consumeTimeline && lastPresentSync == 0
      ensures device == old(device) && swapchain == old(swapchain)
    {
      surfaces, consumeTimeline, lastPresentSync := count, true, 0;
    }

    /** `composite_and_present`; `image` is the swapchain image that is acquired in a windowed present. */
    method CompositeAndPresent(index: nat, value: uint64, hasFrame: bool, wantsPixels: bool, image: nat)
      returns (r: Code, s: Submission)
      requires value < UINT64_MAX
      modifies this`lastPresentSync
      ensures r == (if !device then Internal
                    else if hasFrame && index >= surfaces then BadArg
                    else if swapchain && wantsPixels then Unsupported
                    else Code.Ok)
      ensures var call := Call(index, value, hasFrame, if swapchain then Some(image) else None);
        && (r == Code.Ok ==> s == Submitted(surfaces, consumeTimeline, old(lastPresentSync), call))
        && lastPresentSync == if r == Code.Ok then Last(old(lastPresentSync), call) else old(lastPresentSync)
    {
      s := Submission(None, [], []);
      if !device { return Internal, s; }
      if hasFrame && index >= surfaces { return BadArg, s; }
      if swapchain && wantsPixels { return Unsupported, s; }
      if swapchain {
        s := PresentWindowed(index, value, hasFrame, image);
        return Code.Ok, s;
      }
      var newFrame := hasFrame && value > lastPresentSync;
      if newFrame {
        var consumeSem := if surfaces >= 2 && consumeTimeline then Consume else Produce;
        s := Submission(Some(index), [(Produce, value)], [(consumeSem, value + 1)]);
        lastPresentSync := value;
      }
      return Code.Ok, s;
    }

    method PresentWindowed(index: nat, value: uint64, hasFrame: bool, image: nat) returns (s: Submission)
      requires value < UINT64_MAX
      modifies this`lastPresentSync
      ensures s == Submitted(surfaces, consumeTimeline, old(lastPresentSync), Call(index, value, hasFrame, Some(image)))
      ensures lastPresentSync == Last(old(lastPresentSync), Call(index, value, hasFrame, Some(image)))
    {
      var newFrame := hasFrame && value > lastPresentSync;
      var waits, signals := [(Acquired, 0)], [(Presentable(image), 0)];
      if newFrame {
        waits := waits + [(Produce, value)];
        signals := signals + [(if surfaces >= 2 && consumeTimeline then Consume else Produce, value + 1)];
        lastPresentSync := value;
      }
      s := Submission(if newFrame then Some(index) else None, waits, signals);
    }
  }

  /** Both present paths drive the timelines alike; a windowed one only adds the binary semaphores of its image. */
  lemma PathsAgree(surfaces: nat, consumeHandle: bool, last: uint64, call: Call, image: nat)
    requires call.image == None && call.value < UINT64_MAX
    ensures var headless := Submitted(surfaces, consumeHandle, last, call);
      var windowed := Submitted(surfaces, consumeHandle, last, call.(image := Some(image)));
      && windowed.waits == [(Acquired, 0)] + headless.waits
      && windowed.signals == [(Presentable(image), 0)] + headless.signals
      && windowed.acquires == headless.acquires
  {
  }

  /** What the calls of a sequence of presents submit. */
  function Presents(surfaces: nat, consumeHandle: bool, last: uint64, calls: seq<Call>): (ss: seq<Submission>)
    requires forall i | 0 <= i < |calls| :: calls[i].value < UINT64_MAX
    ensures |ss| == |calls|
    decreases |calls|
  {
    if calls == [] then []
    else [Submitted(surfaces, consumeHandle, last, calls[0])]
         + Presents(surfaces, consumeHandle, Last(last, calls[0]), calls[1..])
  }

  /** The highest value among the frames presented so far, and what was remembered before. */
  predicate Beats(last: uint64, before: seq<Call>, value: uint64) {
    last < value && forall k | 0 <= k < |before| && before[k].hasFrame :: before[k].value < value
  }

  /** Whatever the caller presents, in whatever order: a present consumes its frame exactly when its value is
      above every one presented before it. Then it waits for that value on the produce timeline and signals the
      next one, on the consume timeline when there is one and at least two slots; otherwise it waits for and
      signals no timeline. */
  lemma {:induction false} NewExactlyWhenHighest(surfaces: nat, consumeHandle: bool, last: uint64, calls: seq<Call>,
                                                 i: nat)
    requires (forall k | 0 <= k < |calls| :: calls[k].value < UINT64_MAX) && i < |calls|
    ensures var s, call := Presents(surfaces, consumeHandle, last, calls)[i], calls[i];
      if call.hasFrame && Beats(last, calls[..i], call.value) then
        && s.acquires == Some(call.index)
        && (Produce, call.value) in s.waits
        && (if surfaces >= 2 && consumeHandle then Consume else Produce, call.value + 1) in s.signals
        && |s.waits| == |s.signals| == 1 + if call.image.Some? then 1 else 0
      else
        && s.acquires == None
        && (forall op | op in s.waits || op in s.signals :: op.0 != Produce && op.0 != Consume)
        && |s.waits| == |s.signals| == if call.image.Some? then 1 else 0
    decreases |calls|
  {
    if i == 0 {
      FirstPresent(surfaces, consumeHandle, last, calls);
    } else {
      hide Submitted;
      NewExactlyWhenHighest(surfaces, consumeHandle, Last(last, calls[0]), calls[1..], i - 1);
      BeatsNext(last, calls[0], calls[1..][..i - 1], calls[i].value);
      assert calls[..i] == [calls[0]] + calls[1..][..i - 1];
    }
  }

  lemma FirstPresent(surfaces: nat, consumeHandle: bool, last: uint64, calls: seq<Call>)
    requires calls != [] && forall k | 0 <= k < |calls| :: calls[k].value < UINT64_MAX
    ensures Presents(surfaces, consumeHandle, last, calls)[0] == Submitted(surfaces, consumeHandle, last, calls[0])
  {
  }

  lemma BeatsNext(last: uint64, call: Call, before: seq<Call>, value: uint64)
    ensures Beats(last, [call] + before, value) <==> Beats(Last(last, call), before, value)
  {
    var all := [call] + before;
    assert all[0] == call && forall k | 0 <= k < |before| :: all[k + 1] == before[k];
    if Beats(last, all, value) {
      forall k | 0 <= k < |before| && before[k].hasFrame ensures before[k].value < value {
        assert all[k + 1].value < value;
      }
    }
  }

  /** So the values consumed rise strictly, and each is acquired and signalled once. */
  lemma NewValuesRise(surfaces: nat, consumeHandle: bool, last: uint64, calls: seq<Call>, i: nat, j: nat)
    requires (forall k | 0 <= k < |calls| :: calls[k].value < UINT64_MAX) && i < j < |calls|
    ensures var ss := Presents(surfaces, consumeHandle, last, calls);
      ss[i].acquires.Some? && ss[j].acquires.Some? ==> last < calls[i].value < calls[j].value
  {
    hide Presents;
    NewExactlyWhenHighest(surfaces, consumeHandle, last, calls, i);
    NewExactlyWhenHighest(surfaces, consumeHandle, last, calls, j);
    assert calls[..j][i] == calls[i];
  }

  /** A present of nothing, or of a frame presented before, leaves both timelines alone and acquires nothing. */
  lemma RepeatsAreSilent(surfaces: nat, consumeHandle: bool, last: uint64, calls: seq<Call>, i: nat, j: nat)
    requires (forall k | 0 <= k < |calls| :: calls[k].value < UINT64_MAX) && i < j < |calls| && calls[i].hasFrame
    requires calls[j].hasFrame ==> calls[j].value <= calls[i].value
    ensures var s := Presents(surfaces, consumeHandle, last, calls)[j];
      s.acquires == None && forall op | op in s.waits || op in s.signals :: op.0 != Produce && op.0 != Consume
  {
    hide Presents;
    NewExactlyWhenHighest(surfaces, consumeHandle, last, calls, j);
    assert calls[..j][i] == calls[i];
  }

  /** The backend is the host of the protocol: presenting the newest published frame is the protocol's
      first composite or, when that is not possible, a repeat. */
  lemma BackendIsTheHost(c: T.Config, s: T.State, surfaces: nat, consumeHandle: bool, call: Call)
    requires |s.slots| == c.slots > 0 && s.host == T.Idle && call.value < UINT64_MAX
    requires surfaces == c.slots && c.separate == (surfaces >= 2 && consumeHandle) && s.lastPresentSync <= UINT64_MAX
    requires call.hasFrame == s.ready.Some? && call.image == None
    requires s.ready.Some? ==> s.ready.value == (call.index, call.value)
    ensures var sub := Submitted(surfaces, consumeHandle, s.lastPresentSync, call);
      && (IsNew(s.lastPresentSync, call) <==> T.Enabled(c, s, T.Present))
      && (IsNew(s.lastPresentSync, call) ==>
            var submitted := T.Step(c, s, T.Present);
            && sub.waits == [(Produce, submitted.host.value)] && sub.acquires == Some(submitted.host.index)
            && (s.produce >= call.value ==>
                  var finished := T.Step(c, T.Step(c, submitted, T.Start), T.Finish);
                  && sub.signals == [(if c.separate then Consume else Produce,
                                      if c.separate then finished.consume else finished.produce)]
                  && T.Step(c, finished, T.Fence).lastPresentSync == Last(s.lastPresentSync, call)))
  {
  }
}
