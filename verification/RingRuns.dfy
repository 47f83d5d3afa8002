/** How the threads that share the picture ring move on, and that pictures get through. */
module RingRuns {
  import opened PictureRing

  /** How many of its own steps the video thread is from having queued its picture. */
  function StepsToQueue(pc: VideoPc): nat {
    match pc
    case Decoding => 0
    case CountUp => 1
    case AdvanceW(_) => 2
    case SetPts(_) => 3
    case Convert(_) => 4
    case AwaitAlloc(_) => 5
    case PushAlloc(_) => 6
    case ClearAllocated(_) => 7
    case Chosen(_) => 8
    case WaitSpace(_) => 9
  }

  /** Each step of the video thread brings its picture nearer to the ring. It can take one unless the
      ring is full or the overlay is still to be made; it asks for an overlay if and only if the slot
      has none of the right size; and it gives the picture up if and only if none could be made. */
  lemma {:induction false} VideoThreadMovesOn(s: State)
    requires Indices(s) && !s.video.Decoding?
    ensures Enabled(s, VideoStep) <==>
              !(s.video.WaitSpace? && s.size >= |s.slots|) && !(s.video.AwaitAlloc? && !s.slots[s.windex].allocDone)
    ensures Enabled(s, VideoStep) ==>
              var t, slot := Do(s, VideoStep), s.slots[s.windex];
              && StepsToQueue(t.video) < StepsToQueue(s.video)
              && (s.video.Chosen? ==> (t.video.ClearAllocated? <==> !slot.hasBmp || slot.dims != s.dims))
              && (s.video.PushAlloc? ==> t.events == s.events + [AllocEvent])
              && (s.video.Convert? ==> (t.video.Decoding? <==> !slot.hasBmp))
              && (t.video.Decoding? ==> s.video.Convert? || s.video.CountUp?)
              && t.main == s.main && t.open == s.open && t.timers == s.timers
  {
  }

  /** How many of its own steps the main thread is from its event loop. */
  function StepsToIdle(pc: MainPc): nat {
    match pc
    case Idle => 0
    case CountDown => 1
    case AdvanceR => 2
    case Showing(_) => 3
    case Timing => 4
    case Refreshing => 5
    case SetAllocated => 1
    case Allocating => 2
  }

  /** The main thread handles events in order, one at a time, and each step brings it nearer to the
      end of the one under way. A refresh shows a picture if and only if the stream is open and there
      is one, and the next refresh is scheduled either way. An allocation gives the slot an overlay,
      if one could be made, and says so. */
  lemma {:induction false} MainThreadMovesOn(s: State, bmpMade: bool, garbage: Image)
    requires Indices(s) && Enabled(s, MainStep(bmpMade, garbage))
    ensures var t := Do(s, MainStep(bmpMade, garbage));
            && (s.main.Idle? ==>
                  && s.events != [] && t.events == s.events[1..]
                  && t.main == if s.events[0].RefreshEvent? then Refreshing else Allocating)
            && (!s.main.Idle? ==> StepsToIdle(t.main) < StepsToIdle(s.main) && t.events == s.events)
            && (s.main.Refreshing? ==> (t.main.Timing? <==> s.open && s.size != 0))
            && (s.main.Timing? || (s.main.Refreshing? && !t.main.Timing?) ==> t.timers == s.timers + 1)
            && (s.main.Showing? && s.slots[s.rindex].hasBmp ==> |t.shown| == |s.shown| + 1)
            && (s.main.Allocating? ==> t.slots[s.windex].hasBmp == bmpMade && t.slots[s.windex].dims == s.dims)
            && (s.main.SetAllocated? ==> t.slots[s.windex].allocDone)
            && t.video == s.video && t.open == s.open
  {
  }

  // ----- A picture that gets through -----

  /** A behaviour that goes on with this step. */
  lemma {:induction false} GoesOn(b: seq<State>, step: Step) returns (c: seq<State>)
    requires Behavior(b) && Indices(b[|b| - 1]) && Enabled(b[|b| - 1], step)
    ensures Behavior(c) && |c| == |b| + 1 && c[0] == b[0] && c[|b|] == Do(b[|b| - 1], step)
  {
    var s := b[|b| - 1];
    c := b + [Do(s, step)];
    forall i | 0 <= i < |c| - 1
      ensures Next(c[i], c[i + 1])
    {
      if i < |b| - 1 {
        assert c[i] == b[i] && c[i + 1] == b[i + 1];
      }
    }
  }

  /** The first picture is offered and its overlay asked for. */
  lemma {:induction false} FirstIsOffered(s: State, f: Frame) returns (b: seq<State>)
    requires Init(s)
    ensures Behavior(b) && b[0] == s
    ensures b[|b| - 1] == s.(open := true, dims := f.dims, video := AwaitAlloc(f), events := [AllocEvent],
                             slots := s.slots[0 := s.slots[0].(allocDone := false)])
  {
    b := GoesOn([s], OpenVideo);
    b := GoesOn(b, QueuePicture(f));
    b := GoesOn(b, VideoStep);
    b := GoesOn(b, VideoStep);
    b := GoesOn(b, VideoStep);
    b := GoesOn(b, VideoStep);
  }

  /** Then the overlay is made, and the picture converted and queued. */
  lemma {:induction false} FirstIsQueued(s: State, f: Frame) returns (b: seq<State>)
    requires Init(s)
    ensures Behavior(b) && b[0] == s
    ensures var t := b[|b| - 1];
            && |t.slots| == |s.slots| && t.slots[0] == Slot(true, f.image, f.dims, true, f.pts)
            && t.open && t.size == 1 && t.rindex == 0 && t.windex == Following(0, |s.slots|)
            && t.video == Decoding && t.main == Idle && t.events == [] && t.timers == 1
            && t.queued == [f] && t.shown == []
  {
    b := FirstIsOffered(s, f);
    b := GoesOn(b, MainStep(true, f.image));
    b := GoesOn(b, MainStep(true, f.image));
    b := GoesOn(b, MainStep(true, f.image));
    b := GoesOn(b, VideoStep);
    b := GoesOn(b, VideoStep);
    b := GoesOn(b, VideoStep);
    b := GoesOn(b, VideoStep);
    b := GoesOn(b, VideoStep);
  }

  /** In a ring of any size, from any initial state, any picture can come to be shown first. */
  lemma {:induction false} FirstIsShown(s: State, f: Frame) returns (b: seq<State>)
    requires Init(s)
    ensures Behavior(b) && b[0] == s && b[|b| - 1].shown == [f]
  {
    b := FirstIsQueued(s, f);
    b := GoesOn(b, TimerFires);
    b := GoesOn(b, MainStep(true, f.image));
    b := GoesOn(b, MainStep(true, f.image));
    b := GoesOn(b, MainStep(true, f.image));
    b := GoesOn(b, MainStep(true, f.image));
  }
}
