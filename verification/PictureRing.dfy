/** The picture ring between the video thread (producer) and the main thread (consumer), with
    its indices and its count updated in separate steps, and with the allocation handshake that
    makes the main thread write into the producer's slot. Any ring size N >= 1. */
module PictureRing {
  import opened Arithmetic

  /** `epoch` is a history tag: the epoch of the packet the picture was decoded from. */
  datatype Image = Image(epoch: nat, pixels: int)
  datatype Dims = Dims(width: int, height: int)

  /** `dims` is the size of the codec's pictures when the frame was offered. */
  datatype Frame = Frame(image: Image, dims: Dims, pts: real)

  datatype Slot = Slot(hasBmp: bool, image: Image, dims: Dims, allocDone: bool, pts: real)
  {
    predicate Holds(f: Frame) {
      hasBmp && image == f.image && dims == f.dims && pts == f.pts
    }
  }

  datatype Event = RefreshEvent | AllocEvent

  /** Where the video thread is inside the call that queues a picture. */
  datatype VideoPc =
    | Decoding
    | WaitSpace(f: Frame) | Chosen(f: Frame)
    | ClearAllocated(f: Frame) | PushAlloc(f: Frame) | AwaitAlloc(f: Frame)
    | Convert(f: Frame) | SetPts(f: Frame) | AdvanceW(f: Frame) | CountUp

  /** Where the main thread is inside its event loop. */
  datatype MainPc =
    | Idle
    | Refreshing | Timing | Showing(pts: real) | AdvanceR | CountDown
    | Allocating | SetAllocated

  datatype State = State(
    slots: seq<Slot>, size: int, rindex: int, windex: int,
    video: VideoPc, main: MainPc,
    events: seq<Event>, timers: nat,  // queued events and running timers
    open: bool,                       // the video stream is open
    dims: Dims,                       // of the codec
    queued: seq<Frame>,               // history: frames the producer finished
    shown: seq<Frame>)                // history: frames displayed, each with what its slot held, and
                                      // the pts used for timing

  predicate Init(s: State) {
    && |s.slots| >= 1 && (forall i :: 0 <= i < |s.slots| ==> !s.slots[i].hasBmp)
    && s.size == 0 && s.rindex == 0 && s.windex == 0
    && s.video == Decoding && s.main == Idle
    && s.events == [] && s.timers == 1 && !s.open
    && s.queued == [] && s.shown == []
  }

  datatype Step =
    | OpenVideo
    | TimerFires
    | MainStep(bmpMade: bool, garbage: Image)
    | QueuePicture(f: Frame)
    | VideoStep

  predicate Indices(s: State) {
    0 <= s.rindex < |s.slots| && 0 <= s.windex < |s.slots|
  }

  predicate Enabled(s: State, step: Step)
    requires Indices(s)
  {
    match step
    case OpenVideo => !s.open
    case TimerFires => s.timers > 0
    case MainStep(_, _) => s.main.Idle? ==> s.events != []
    case QueuePicture(_) => s.open && s.video.Decoding?
    case VideoStep =>
      && !s.video.Decoding?
      && (s.video.WaitSpace? ==> s.size < |s.slots|)
      && (s.video.AwaitAlloc? ==> s.slots[s.windex].allocDone)
  }

  function Do(s: State, step: Step): State
    requires Indices(s) && Enabled(s, step)
  {
    match step
    case OpenVideo => s.(open := true)
    case TimerFires => s.(timers := s.timers - 1, events := s.events + [RefreshEvent])
    case MainStep(bmpMade, garbage) => DoMain(s, bmpMade, garbage)
    case QueuePicture(f) => s.(video := WaitSpace(f), dims := f.dims)
    case VideoStep => DoVideo(s)
  }

  function Following(i: int, n: int): int {
    if i + 1 == n then 0 else i + 1
  }

  /** One step of the main thread. The next refresh is scheduled before the picture is shown. */
  function DoMain(s: State, bmpMade: bool, garbage: Image): State
    requires Indices(s) && (s.main.Idle? ==> s.events != [])
  {
    match s.main
    case Idle => s.(events := s.events[1..], main := if s.events[0].RefreshEvent? then Refreshing else Allocating)
    case Refreshing => if !s.open || s.size == 0 then s.(timers := s.timers + 1, main := Idle) else s.(main := Timing)
    case Timing => s.(timers := s.timers + 1, main := Showing(s.slots[s.rindex].pts))
    case Showing(pts) =>
      if s.slots[s.rindex].hasBmp
      then s.(shown := s.shown + [Frame(s.slots[s.rindex].image, s.slots[s.rindex].dims, pts)], main := AdvanceR)
      else s.(main := AdvanceR)
    case AdvanceR => s.(rindex := Following(s.rindex, |s.slots|), main := CountDown)
    case CountDown => s.(size := s.size - 1, main := Idle)
    case Allocating =>
      var slot := s.slots[s.windex].(hasBmp := bmpMade, image := garbage, dims := s.dims);
      s.(slots := s.slots[s.windex := slot], main := SetAllocated)
    case SetAllocated =>
      var slot := s.slots[s.windex].(allocDone := true);
      s.(slots := s.slots[s.windex := slot], main := Idle)
  }

  /** One step of the video thread inside the call that queues a picture. */
  function DoVideo(s: State): State
    requires Indices(s) && !s.video.Decoding?
  {
    var slot := s.slots[s.windex];
    match s.video
    case WaitSpace(f) => s.(video := Chosen(f))
    case Chosen(f) => s.(video := if !slot.hasBmp || slot.dims != s.dims then ClearAllocated(f) else Convert(f))
    case ClearAllocated(f) => s.(slots := s.slots[s.windex := slot.(allocDone := false)], video := PushAlloc(f))
    case PushAlloc(f) => s.(events := s.events + [AllocEvent], video := AwaitAlloc(f))
    case AwaitAlloc(f) => s.(video := Convert(f))
    case Convert(f) =>
      if slot.hasBmp then s.(slots := s.slots[s.windex := slot.(image := f.image)], video := SetPts(f))
      else s.(video := Decoding)
    case SetPts(f) => s.(slots := s.slots[s.windex := slot.(pts := f.pts)], video := AdvanceW(f))
    case AdvanceW(f) => s.(windex := Following(s.windex, |s.slots|), queued := s.queued + [f], video := CountUp)
    case CountUp => s.(size := s.size + 1, video := Decoding)
  }

  ghost predicate Next(s: State, t: State) {
    Indices(s) && exists step :: Enabled(s, step) && t == Do(s, step)
  }

  ghost predicate Behavior(b: seq<State>) {
    && b != [] && Init(b[0])
    && forall i :: 0 <= i < |b| - 1 ==> Next(b[i], b[i + 1])
  }

  // ----- The invariant -----

  function One(b: bool): nat { if b then 1 else 0 }

  /** How many times the read index has been advanced. */
  function Released(s: State): int { |s.shown| - One(s.main.AdvanceR?) }

  predicate ProducerHolds(pc: VideoPc) {
    !pc.Decoding? && !pc.WaitSpace? && !pc.CountUp?
  }

  predicate ConsumerHolds(pc: MainPc) {
    pc.Timing? || pc.Showing? || pc.AdvanceR?
  }

  /** The slot has been chosen and made the right size. */
  predicate HasSize(pc: VideoPc) {
    pc.Convert? || pc.SetPts? || pc.AdvanceW?
  }

  /** Both indices and the count agree with the histories, allowing for a step under way. */
  predicate CountInv(s: State) {
    var n := |s.slots|;
    && n >= 1
    && 0 <= Released(s) <= |s.queued|
    && s.windex == |s.queued| % n
    && s.rindex == Released(s) % n
    && s.size == (|s.queued| - One(s.video.CountUp?)) - (Released(s) - One(s.main.CountDown?))
    && 0 <= s.size <= n
    && (ProducerHolds(s.video) || s.video.CountUp? ==> s.size < n)
    && (ConsumerHolds(s.main) || s.main.CountDown? ==> s.size > 0)
    && (!s.open ==> s.video.Decoding?)
  }

  /** Every finished frame that is not yet released sits whole in its slot. */
  predicate ContentInv(s: State)
    requires CountInv(s)
  {
    var n := |s.slots|;
    && (forall k :: Released(s) <= k < |s.queued| ==> s.slots[k % n].Holds(s.queued[k]))
    && |s.shown| <= |s.queued| && s.shown == s.queued[..|s.shown|]
    && (s.main.Showing? ==> s.main.pts == s.queued[Released(s)].pts)
    && (s.video.SetPts? ==> s.slots[s.windex].hasBmp && s.slots[s.windex].image == s.video.f.image)
    && (s.video.AdvanceW? ==> s.slots[s.windex].Holds(s.video.f))
  }

  /** The overlay made for a frame has the size that the frame was offered with. */
  predicate SizeInv(s: State)
    requires Indices(s)
  {
    && (!s.video.Decoding? && !s.video.CountUp? ==> s.dims == s.video.f.dims)
    && (s.main.SetAllocated? ==> s.slots[s.windex].dims == s.dims)
    && (s.video.AwaitAlloc? && s.slots[s.windex].allocDone ==> s.slots[s.windex].dims == s.dims)
    && (HasSize(s.video) ==> s.slots[s.windex].dims == s.dims)
  }

  function AllocsPending(s: State): nat {
    multiset(s.events)[AllocEvent] + One(s.main.Allocating? || s.main.SetAllocated?)
  }

  function RefreshesPending(s: State): nat {
    s.timers + multiset(s.events)[RefreshEvent] + One(s.main.Refreshing? || s.main.Timing?)
  }

  /** An allocation is under way exactly while the producer waits for it, and exactly one
      refresh is outstanding: scheduled, queued, or being handled up to its rescheduling. */
  predicate EventInv(s: State)
    requires Indices(s)
  {
    && RefreshesPending(s) == 1
    && (if s.video.AwaitAlloc? then AllocsPending(s) == One(!s.slots[s.windex].allocDone) else AllocsPending(s) == 0)
    && (s.video.PushAlloc? ==> !s.slots[s.windex].allocDone)
  }

  predicate Inv(s: State) {
    CountInv(s) && ContentInv(s) && EventInv(s) && SizeInv(s)
  }

  // ----- Ring arithmetic -----

  lemma {:induction false} FollowingIsSuccessor(k: nat, n: int)
    requires n >= 1
    ensures Following(k % n, n) == (k + 1) % n
  {
    if k % n + 1 == n {
      ModIsUnique(k + 1, n, k / n + 1, 0);
    } else {
      ModIsUnique(k + 1, n, k / n, k % n + 1);
    }
  }

  /** Fewer than N apart, two counts fall on different slots. */
  lemma {:induction false} DistinctSlots(j: nat, k: nat, n: int)
    requires n >= 1 && j < k < j + n
    ensures j % n != k % n
  {
    var r, d := j % n, k - j;
    if r + d < n {
      ModIsUnique(k, n, j / n, r + d);
    } else {
      ModIsUnique(k, n, j / n + 1, r + d - n);
    }
  }

  // ----- Preservation -----

  /** Writing into the producer's slot touches no frame that is still to be shown. */
  lemma {:induction false} ProducerSlotIsFree(s: State)
    requires CountInv(s) && ProducerHolds(s.video)
    ensures forall k :: Released(s) <= k < |s.queued| ==> k % |s.slots| != s.windex
  {
    forall k | Released(s) <= k < |s.queued|
      ensures k % |s.slots| != s.windex
    {
      DistinctSlots(k, |s.queued|, |s.slots|);
    }
  }

  lemma {:induction false} MainKeepsCount(s: State, bmpMade: bool, garbage: Image)
    requires CountInv(s) && ContentInv(s) && Enabled(s, MainStep(bmpMade, garbage))
    ensures CountInv(DoMain(s, bmpMade, garbage))
  {
    if s.main.AdvanceR? {
      FollowingIsSuccessor(Released(s), |s.slots|);
    }
  }

  lemma {:induction false} ShowingKeepsContent(s: State)
    requires CountInv(s) && ContentInv(s) && s.main.Showing?
    requires CountInv(DoMain(s, false, Image(0, 0)))
    ensures ContentInv(DoMain(s, false, Image(0, 0)))
  {
    assert s.slots[Released(s) % |s.slots|].Holds(s.queued[Released(s)]);
    assert s.queued[..|s.shown|] + [s.queued[|s.shown|]] == s.queued[..|s.shown| + 1];
  }

  lemma {:induction false} AllocatingKeepsContent(s: State, bmpMade: bool, garbage: Image)
    requires Inv(s) && (s.main.Allocating? || s.main.SetAllocated?)
    requires CountInv(DoMain(s, bmpMade, garbage))
    ensures ContentInv(DoMain(s, bmpMade, garbage))
  {
    ProducerSlotIsFree(s);
  }

  lemma {:induction false} MainKeepsContent(s: State, bmpMade: bool, garbage: Image)
    requires Inv(s) && Enabled(s, MainStep(bmpMade, garbage))
    requires CountInv(DoMain(s, bmpMade, garbage))
    ensures ContentInv(DoMain(s, bmpMade, garbage))
  {
    match s.main {
      case Allocating => AllocatingKeepsContent(s, bmpMade, garbage);
      case SetAllocated => AllocatingKeepsContent(s, bmpMade, garbage);
      case Showing(_) => ShowingKeepsContent(s);
      case _ =>
    }
  }

  lemma {:induction false} MainKeepsEvents(s: State, bmpMade: bool, garbage: Image)
    requires Indices(s) && EventInv(s) && Enabled(s, MainStep(bmpMade, garbage))
    requires Indices(DoMain(s, bmpMade, garbage))
    ensures EventInv(DoMain(s, bmpMade, garbage))
  {
    match s.main {
      case Idle => FirstEvent(s.events);
      case _ =>
    }
  }

  lemma {:induction false} FirstEvent(es: seq<Event>)
    requires es != []
    ensures multiset(es)[RefreshEvent] == multiset(es[1..])[RefreshEvent] + One(es[0].RefreshEvent?)
    ensures multiset(es)[AllocEvent] == multiset(es[1..])[AllocEvent] + One(es[0].AllocEvent?)
  {
    assert es == [es[0]] + es[1..];
  }

  lemma {:induction false} VideoKeepsCount(s: State)
    requires CountInv(s) && Enabled(s, VideoStep)
    ensures CountInv(DoVideo(s))
  {
    if s.video.AdvanceW? {
      FollowingIsSuccessor(|s.queued|, |s.slots|);
    }
  }

  lemma {:induction false} VideoKeepsContent(s: State)
    requires CountInv(s) && ContentInv(s) && SizeInv(s) && Enabled(s, VideoStep) && CountInv(DoVideo(s))
    ensures ContentInv(DoVideo(s))
  {
    if ProducerHolds(s.video) {
      ProducerSlotIsFree(s);
    }
  }

  lemma {:induction false} VideoKeepsEvents(s: State)
    requires Indices(s) && EventInv(s) && Enabled(s, VideoStep) && Indices(DoVideo(s))
    ensures EventInv(DoVideo(s))
  {
  }

  lemma {:induction false} MainKeepsSize(s: State, bmpMade: bool, garbage: Image)
    requires Indices(s) && EventInv(s) && SizeInv(s) && Enabled(s, MainStep(bmpMade, garbage))
    requires Indices(DoMain(s, bmpMade, garbage))
    ensures SizeInv(DoMain(s, bmpMade, garbage))
  {
  }

  lemma {:induction false} VideoKeepsSize(s: State)
    requires Indices(s) && EventInv(s) && SizeInv(s) && Enabled(s, VideoStep) && Indices(DoVideo(s))
    ensures SizeInv(DoVideo(s))
  {
  }

  lemma {:induction false} OtherStepsKeepInv(s: State, step: Step)
    requires Inv(s) && Enabled(s, step) && !step.MainStep? && !step.VideoStep?
    ensures Inv(Do(s, step))
  {
  }

  lemma {:induction false} StepKeepsInv(s: State, step: Step)
    requires Inv(s) && Enabled(s, step)
    ensures Inv(Do(s, step))
  {
    match step {
      case MainStep(bmpMade, garbage) =>
        MainKeepsCount(s, bmpMade, garbage);
        MainKeepsContent(s, bmpMade, garbage);
        MainKeepsEvents(s, bmpMade, garbage);
        MainKeepsSize(s, bmpMade, garbage);
      case VideoStep =>
        VideoKeepsCount(s);
        VideoKeepsContent(s);
        VideoKeepsEvents(s);
        VideoKeepsSize(s);
      case _ => OtherStepsKeepInv(s, step);
    }
  }

  lemma {:induction false} InvStep(s: State, t: State)
    requires Inv(s) && Next(s, t)
    ensures Inv(t)
  {
    var step :| Enabled(s, step) && t == Do(s, step);
    StepKeepsInv(s, step);
  }

  lemma {:induction false} Invariant(b: seq<State>, i: nat)
    requires Behavior(b) && i < |b|
    ensures Inv(b[i])
  {
    if i == 0 {
      assert b[0].rindex == 0 % |b[0].slots|;
    } else {
      Invariant(b, i - 1);
      InvStep(b[i - 1], b[i]);
    }
  }

  // ----- Main results, for every behaviour -----

  /** The count stays in range and the indices and count agree with the histories. */
  lemma {:induction false} RingIsConsistent(b: seq<State>, i: nat)
    requires Behavior(b) && i < |b|
    ensures var s := b[i];
            && |s.slots| >= 1
            && 0 <= s.size <= |s.slots|
            && s.windex == |s.queued| % |s.slots|
            && s.rindex == Released(s) % |s.slots|
            && (s.video.Decoding? && s.main.Idle? ==> s.size == |s.queued| - |s.shown|)
  {
    Invariant(b, i);
  }

  /** Frames are shown in the order they were queued, none skipped or repeated, each with the
      image and the time stamp it was queued with. */
  lemma {:induction false} ShownInOrder(b: seq<State>, i: nat)
    requires Behavior(b) && i < |b|
    ensures b[i].shown <= b[i].queued
  {
    Invariant(b, i);
  }

  /** A picture is only converted into an overlay of its own size, and every picture shown was
      shown from an overlay of the size it was offered with. */
  lemma {:induction false} OverlaysFit(b: seq<State>, i: nat)
    requires Behavior(b) && i < |b|
    ensures Indices(b[i])
    ensures b[i].video.Convert? || b[i].video.SetPts? || b[i].video.AdvanceW? ==>
              b[i].slots[b[i].windex].dims == b[i].dims == b[i].video.f.dims
    ensures |b[i].shown| <= |b[i].queued|
    ensures forall k :: 0 <= k < |b[i].shown| ==> b[i].shown[k].dims == b[i].queued[k].dims
  {
    Invariant(b, i);
  }

  /** While a picture is being timed and shown, no thread's step changes its slot; in particular
      neither the producer nor an allocation works on it. */
  lemma {:induction false} DisplayedSlotIsStable(b: seq<State>, i: nat)
    requires Behavior(b) && i + 1 < |b| && ConsumerHolds(b[i].main)
    ensures Indices(b[i]) && Indices(b[i + 1])
    ensures b[i + 1].slots[b[i].rindex] == b[i].slots[b[i].rindex]
    ensures ProducerHolds(b[i].video) ==> b[i].windex != b[i].rindex
  {
    Invariant(b, i);
    Invariant(b, i + 1);
    var step :| Enabled(b[i], step) && b[i + 1] == Do(b[i], step);
    SlotIsKept(b[i], step);
  }

  lemma {:induction false} SlotIsKept(s: State, step: Step)
    requires CountInv(s) && EventInv(s) && Enabled(s, step) && ConsumerHolds(s.main)
    ensures Do(s, step).slots[s.rindex] == s.slots[s.rindex]
    ensures ProducerHolds(s.video) ==> s.windex != s.rindex
  {
    if ProducerHolds(s.video) {
      ProducerSlotIsFree(s);
    }
  }

  /** There is one consumer, and the producer never waits for something nobody will do: a full
      ring has a refresh outstanding, and a missing allocation has been asked for exactly once. */
  lemma {:induction false} OneRefreshAndOneAllocation(b: seq<State>, i: nat)
    requires Behavior(b) && i < |b|
    ensures RefreshesPending(b[i]) == 1
    ensures Indices(b[i])
    ensures AllocsPending(b[i]) <= 1
    ensures AllocsPending(b[i]) == 1 <==> b[i].video.AwaitAlloc? && !b[i].slots[b[i].windex].allocDone
  {
    Invariant(b, i);
  }
}
