/** When the next video frame is due, over whole runs of the refresh handler. Clocks are reals. */
module FrameTimer {
  import opened Arithmetic
  import opened Clocks

  const AV_SYNC_THRESHOLD: real := 0.01
  const SHORTEST_DELAY: real := 0.010

  /** One displayed frame: its time stamp, the wall clock when it is handled, and the reading of
      the master clock (not consulted when video is the master). */
  datatype Tick = Tick(pts: real, now: real, refClock: real)

  datatype Timing = Timing(frameTimer: real, lastPts: real, lastDelay: real)

  /** The nominal delay: the step between time stamps, or the delay before if the step is unusable. */
  function NominalDelay(t: Timing, pts: real): real {
    var step := pts - t.lastPts;
    if step <= 0.0 || step >= 1.0 then t.lastDelay else step
  }

  /** How far off the master clock a picture may be. */
  function Threshold(delay: real): real {
    if delay > AV_SYNC_THRESHOLD then delay else AV_SYNC_THRESHOLD
  }

  /** The delay used: none to catch up with the master clock, double to wait for it. */
  function UsedDelay(videoMaster: bool, delay: real, diff: real): real {
    if videoMaster || AbsReal(diff) >= AV_NOSYNC_THRESHOLD then delay
    else if diff <= -Threshold(delay) then 0.0
    else if diff >= Threshold(delay) then 2.0 * delay
    else delay
  }

  /** How long to wait until the timer, but no shorter than the shortest delay. */
  function Wait(frameTimer: real, now: real): real {
    if frameTimer - now < SHORTEST_DELAY then SHORTEST_DELAY else frameTimer - now
  }

  function After(videoMaster: bool, t: Timing, k: Tick): Timing {
    var delay := NominalDelay(t, k.pts);
    Timing(t.frameTimer + UsedDelay(videoMaster, delay, k.pts - k.refClock), k.pts, delay)
  }

  function AfterAll(videoMaster: bool, t: Timing, ks: seq<Tick>): Timing {
    if ks == [] then t else After(videoMaster, AfterAll(videoMaster, t, ks[..|ks| - 1]), ks[|ks| - 1])
  }

  class RefreshTimer {
    const videoMaster: bool
    var frameTimer: real
    var frameLastPts: real
    var frameLastDelay: real

    /** The delay kept for the next frame is always usable. */
    ghost predicate Valid()
      reads this
    {
      0.0 < frameLastDelay < 1.0
    }

    ghost function Value(): Timing
      reads this
    {
      Timing(frameTimer, frameLastPts, frameLastDelay)
    }

    constructor (videoMaster: bool, now: real)
      ensures Valid() && Value() == Timing(now, 0.0, 0.04) && this.videoMaster == videoMaster
    {
      this.videoMaster := videoMaster;
      frameTimer, frameLastPts, frameLastDelay := now, 0.0, 0.04;
    }

    /** Handles the frame on display and returns in how many milliseconds to come back. The timer
        never runs backwards and gains less than two seconds; the wait is what is left until the
        timer, to half a millisecond, but never less than 10 ms. */
    method Refresh(k: Tick) returns (ms: int)
      requires Valid()
      modifies this
      ensures Valid() && Value() == After(videoMaster, old(Value()), k)
      ensures old(frameTimer) <= frameTimer < old(frameTimer) + 2.0
      ensures ms >= 10
      ensures frameTimer - k.now < SHORTEST_DELAY ==> ms == 10
      ensures AbsReal(ms as real - Wait(frameTimer, k.now) * 1000.0) <= 0.5
    {
      var delay := k.pts - frameLastPts;
      if delay <= 0.0 || delay >= 1.0 {
        delay := frameLastDelay;
      }
      frameLastDelay := delay;
      frameLastPts := k.pts;
      if !videoMaster {
        var diff := k.pts - k.refClock;
        var syncThreshold := Threshold(delay);
        if AbsReal(diff) < AV_NOSYNC_THRESHOLD {
          if diff <= -syncThreshold {
            delay := 0.0;
          } else if diff >= syncThreshold {
            delay := 2.0 * delay;
          }
        }
      }
      frameTimer := frameTimer + delay;
      var actualDelay := frameTimer - k.now;
      if actualDelay < SHORTEST_DELAY {
        actualDelay := SHORTEST_DELAY;
      }
      ms := Truncate(actualDelay * 1000.0 + 0.5);
    }
  }

  /** Over any run and any time stamps, in every mode: the delay kept stays in (0, 1), the timer
      never decreases, and it gains less than two seconds a frame. */
  lemma {:induction false} TimerIsMonotone(videoMaster: bool, t: Timing, ks: seq<Tick>, n: nat)
    requires 0.0 < t.lastDelay < 1.0 && n <= |ks|
    ensures var u, v := AfterAll(videoMaster, t, ks[..n]), AfterAll(videoMaster, t, ks);
            && 0.0 < u.lastDelay < 1.0 && 0.0 < v.lastDelay < 1.0
            && u.frameTimer <= v.frameTimer
            && (n < |ks| ==> v.frameTimer < u.frameTimer + 2.0 * (|ks| - n) as real)
    decreases |ks|
  {
    if n == |ks| {
      assert ks[..n] == ks;
      if ks != [] {
        TimerIsMonotone(videoMaster, t, ks[..|ks| - 1], |ks| - 1);
        assert ks[..|ks| - 1][..|ks| - 1] == ks[..|ks| - 1];
      }
    } else {
      TimerIsMonotone(videoMaster, t, ks[..|ks| - 1], n);
      assert ks[..|ks| - 1][..n] == ks[..n];
    }
  }

  predicate UsableStep(step: real) {
    0.0 < step < 1.0
  }

  /** With video as master, one frame moves the timer by exactly its time stamp step if and only
      if that step is usable. */
  lemma {:induction false} StepIsExact(t: Timing, k: Tick)
    requires 0.0 < t.lastDelay < 1.0
    ensures After(true, t, k).frameTimer - t.frameTimer == k.pts - t.lastPts <==> UsableStep(k.pts - t.lastPts)
  {
  }

  lemma {:induction false} AfterOneMore(videoMaster: bool, t: Timing, ks: seq<Tick>, n: nat)
    requires n < |ks| && 0.0 < t.lastDelay < 1.0
    ensures var u := AfterAll(videoMaster, t, ks[..n]);
            && AfterAll(videoMaster, t, ks[..n + 1]) == After(videoMaster, u, ks[n])
            && u.lastPts == (if n == 0 then t.lastPts else ks[n - 1].pts)
            && 0.0 < u.lastDelay < 1.0
  {
    var some := ks[..n + 1];
    assert some[..n] == ks[..n] && some[n] == ks[n];
    if n > 0 {
      assert ks[..n][n - 1] == ks[n - 1];
    }
    TimerIsMonotone(videoMaster, t, ks[..n], n);
    assert ks[..n][..n] == ks[..n];
  }

  /** The step from the frame before. */
  function StepAt(t: Timing, ks: seq<Tick>, i: nat): real
    requires i < |ks|
  {
    ks[i].pts - if i == 0 then t.lastPts else ks[i - 1].pts
  }

  lemma {:induction false} KeptDelayStep(videoMaster: bool, t: Timing, ks: seq<Tick>, n: nat)
    requires 0.0 < t.lastDelay < 1.0 && n < |ks|
    ensures AfterAll(videoMaster, t, ks[..n + 1]).lastDelay ==
              if 0.0 < StepAt(t, ks, n) < 1.0 then StepAt(t, ks, n) else AfterAll(videoMaster, t, ks[..n]).lastDelay
  {
    AfterOneMore(videoMaster, t, ks, n);
  }

  /** The delay kept is the last usable step among the time stamps, more than 0 and less than 1
      second, or the one at the start when there was none. */
  lemma {:induction false} KeptDelayIsLastUsable(videoMaster: bool, t: Timing, ks: seq<Tick>, n: nat)
    requires 0.0 < t.lastDelay < 1.0 && n <= |ks|
    ensures var kept := AfterAll(videoMaster, t, ks[..n]).lastDelay;
            && (forall i :: 0 <= i < n && 0.0 < StepAt(t, ks, i) < 1.0
                            && (forall j :: i < j < n ==> !(0.0 < StepAt(t, ks, j) < 1.0))
                  ==> kept == StepAt(t, ks, i))
            && ((forall i :: 0 <= i < n ==> !(0.0 < StepAt(t, ks, i) < 1.0)) ==> kept == t.lastDelay)
  {
    if n > 0 {
      KeptDelayIsLastUsable(videoMaster, t, ks, n - 1);
      KeptDelayStep(videoMaster, t, ks, n - 1);
      var kept := AfterAll(videoMaster, t, ks[..n]).lastDelay;
      forall i | 0 <= i < n && 0.0 < StepAt(t, ks, i) < 1.0
                 && (forall j :: i < j < n ==> !(0.0 < StepAt(t, ks, j) < 1.0))
        ensures kept == StepAt(t, ks, i)
      {
        assert i < n - 1 ==> !(0.0 < StepAt(t, ks, n - 1) < 1.0);
      }
    } else {
      assert ks[..0] == [];
    }
  }

  /** What one frame adds to the timer, with `kept` the delay kept for it: with another master
      nothing where the picture is late by at least 10 ms and that delay, but by less than ten
      seconds, and twice the delay where it is early by as much; otherwise just the delay. */
  lemma {:induction false} TimerGain(videoMaster: bool, t: Timing, ks: seq<Tick>, n: nat)
    requires 0.0 < t.lastDelay < 1.0 && n < |ks|
    ensures var u, v := AfterAll(videoMaster, t, ks[..n]), AfterAll(videoMaster, t, ks[..n + 1]);
            var kept, early := v.lastDelay, ks[n].pts - ks[n].refClock;
            v.frameTimer - u.frameTimer ==
              if !videoMaster && -10.0 < early <= -kept && early <= -0.01 then 0.0
              else if !videoMaster && 10.0 > early >= kept && early >= 0.01 then 2.0 * kept
              else kept
  {
    AfterOneMore(videoMaster, t, ks, n);
  }

  /** After `n` frames the timer has moved by as much as the time stamps have since the first. */
  predicate Follows(t: Timing, ks: seq<Tick>, n: nat)
    requires 1 <= n <= |ks|
  {
    AfterAll(true, t, ks[..n]).frameTimer - AfterAll(true, t, ks[..1]).frameTimer == ks[n - 1].pts - ks[0].pts
  }

  lemma {:induction false} UsableStepsAreFollowed(t: Timing, ks: seq<Tick>, n: nat)
    requires 0.0 < t.lastDelay < 1.0 && 1 <= n <= |ks|
    requires forall i :: 0 < i < |ks| ==> UsableStep(ks[i].pts - ks[i - 1].pts)
    ensures Follows(t, ks, n)
  {
    if n > 1 {
      UsableStepsAreFollowed(t, ks, n - 1);
      AfterOneMore(true, t, ks, n - 1);
      StepIsExact(AfterAll(true, t, ks[..n - 1]), ks[n - 1]);
    }
  }

  /** With video as master the timer follows the time stamps through a run, without drift and
      whatever the wall clock does, if and only if every step between time stamps is usable. */
  lemma {:induction false} TimerFollowsTimestamps(t: Timing, ks: seq<Tick>)
    requires 0.0 < t.lastDelay < 1.0
    ensures (forall n :: 1 <= n <= |ks| ==> Follows(t, ks, n))
       <==> (forall i :: 0 < i < |ks| ==> UsableStep(ks[i].pts - ks[i - 1].pts))
  {
    if forall i :: 0 < i < |ks| ==> UsableStep(ks[i].pts - ks[i - 1].pts) {
      forall n | 1 <= n <= |ks|
        ensures Follows(t, ks, n)
      {
        UsableStepsAreFollowed(t, ks, n);
      }
    }
    if forall n :: 1 <= n <= |ks| ==> Follows(t, ks, n) {
      forall i | 0 < i < |ks|
        ensures UsableStep(ks[i].pts - ks[i - 1].pts)
      {
        assert Follows(t, ks, i) && Follows(t, ks, i + 1);
        AfterOneMore(true, t, ks, i);
        StepIsExact(AfterAll(true, t, ks[..i]), ks[i]);
      }
    }
  }
}
