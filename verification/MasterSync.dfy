/** Keeping the picture with a master clock that is not its own, over whole runs of the refresh
    handler in which every frame is handled when the wait for it is over. */
module MasterSync {
  import opened Arithmetic
  import opened Clocks
  import opened FrameTimer

  /** The frame as it is handled: how far its time stamp is ahead of the master clock, and how far
      the timer is behind the wall clock. */
  datatype Sync = Sync(diff: real, lag: real)

  ghost function At(t: Timing, ks: seq<Tick>, k: nat): Sync
    requires k < |ks|
  {
    Sync(ks[k].pts - ks[k].refClock, ks[k].now - AfterAll(false, t, ks[..k]).frameTimer)
  }

  /** Time stamps advance by the same usable step, the master clock goes as fast as the wall clock,
      and the first frame is handled no sooner than the timer says. The others are handled as soon
      as the handler's own wait is over. */
  ghost predicate Timed(t: Timing, ks: seq<Tick>, step: real, offset: real) {
    && UsableStep(step) && 0.0 < t.lastDelay < 1.0
    && (ks != [] ==> t.frameTimer <= ks[0].now && ks[0].pts == t.lastPts + step)
    && (forall k :: 0 <= k < |ks| ==> ks[k].refClock == ks[k].now + offset)
    && (forall k :: 0 <= k < |ks| - 1 ==>
          && ks[k + 1].pts == ks[k].pts + step
          && ks[k + 1].now == ks[k].now + Wait(AfterAll(false, t, ks[..k + 1]).frameTimer, ks[k].now))
  }

  /** The frame after: the wait uses up what the timer gained, less its lag, but 10 ms at least. */
  function Next(x: Sync, step: real): Sync {
    var used := UsedDelay(false, step, x.diff);
    Sync(x.diff + step - Wait(used, x.lag), x.lag + Wait(used, x.lag) - used)
  }

  function Nth(x: Sync, step: real, n: nat): Sync {
    if n == 0 then x else Next(Nth(x, step, n - 1), step)
  }

  lemma {:induction false} TimerGains(t: Timing, ks: seq<Tick>, step: real, offset: real, k: nat)
    requires Timed(t, ks, step, offset) && k < |ks|
    ensures AfterAll(false, t, ks[..k + 1]).frameTimer
         == AfterAll(false, t, ks[..k]).frameTimer + UsedDelay(false, step, ks[k].pts - ks[k].refClock)
  {
    AfterOneMore(false, t, ks, k);
    assert k > 0 ==> ks[k - 1 + 1].pts == ks[k - 1].pts + step;
    assert NominalDelay(AfterAll(false, t, ks[..k]), ks[k].pts) == step;
  }

  lemma {:induction false} FrameByFrame(t: Timing, ks: seq<Tick>, step: real, offset: real, k: nat)
    requires Timed(t, ks, step, offset) && k + 1 < |ks|
    ensures At(t, ks, k + 1) == Next(At(t, ks, k), step)
  {
    TimerGains(t, ks, step, offset, k);
  }

  /** How the picture keeps up depends on the difference and the lag at the start, and on the step
      between time stamps. */
  lemma {:induction false} RunIsNth(t: Timing, ks: seq<Tick>, step: real, offset: real, n: nat)
    requires Timed(t, ks, step, offset) && n < |ks|
    ensures At(t, ks, n) == Nth(At(t, ks, 0), step, n) && At(t, ks, n).lag >= 0.0
  {
    if n > 0 {
      RunIsNth(t, ks, step, offset, n - 1);
      FrameByFrame(t, ks, step, offset, n - 1);
    }
  }

  // ----- One frame -----

  /** Late enough for a correction to be tried, and not too late for it. */
  predicate Late(diff: real, step: real) {
    -AV_NOSYNC_THRESHOLD < diff <= -Threshold(step)
  }

  /** With a usable step, the timer gains less than the step exactly when the picture is late, and
      more exactly when it is early, by at least the threshold and by less than ten seconds: the
      correction is always towards the master. */
  lemma {:induction false} CorrectsTowardsMaster(t: Timing, k: Tick)
    requires UsableStep(k.pts - t.lastPts)
    ensures var step, diff := k.pts - t.lastPts, k.pts - k.refClock;
            var gain := After(false, t, k).frameTimer - t.frameTimer;
            && (gain < step <==> Late(diff, step))
            && (gain > step <==> Threshold(step) <= diff < AV_NOSYNC_THRESHOLD)
            && (gain == 0.0 || gain == step || gain == 2.0 * step)
  {
  }

  /** How far frame `k` is from the master clock. */
  function Off(ks: seq<Tick>, k: nat): real
    requires k < |ks|
  {
    AbsReal(ks[k].pts - ks[k].refClock)
  }

  /** The frame after a late one is closer to the master clock by the step less the shortest wait,
      so it is closer if and only if the step is more than 10 ms. */
  lemma {:induction false} LateComesCloser(t: Timing, ks: seq<Tick>, step: real, offset: real, k: nat)
    requires Timed(t, ks, step, offset) && k + 1 < |ks| && Late(ks[k].pts - ks[k].refClock, step)
    ensures Off(ks, k + 1) == Off(ks, k) - (step - SHORTEST_DELAY)
    ensures Off(ks, k + 1) < Off(ks, k) <==> step > SHORTEST_DELAY
  {
    RunIsNth(t, ks, step, offset, k);
    FrameByFrame(t, ks, step, offset, k);
  }

  // ----- A step of at least 10 ms -----

  /** Within the threshold and with a timer that has no lag: nothing changes any more. */
  predicate Settled(x: Sync, step: real) {
    x.lag == 0.0 && -Threshold(step) < x.diff < Threshold(step)
  }

  /** What a run keeps that starts without lag and `a` off. While the picture is late the lag grows
      in proportion to what it makes up. Then the lag carries it past the clock, but never further
      than it was off. */
  predicate Bounded(x: Sync, step: real, a: real) {
    var spare := step - SHORTEST_DELAY;
    && x.lag >= 0.0 && -a <= x.diff <= a
    && if x.diff <= -step then x.lag * spare <= SHORTEST_DELAY * (a + x.diff)
       else if x.diff < step then
         x.lag == 0.0 || (step <= a && (x.diff + x.lag) * spare <= SHORTEST_DELAY * (a - step))
       else x.diff * (step + spare) + spare * x.lag <= a * (step + spare)
  }

  lemma {:induction false} Product(x: real, y: real)
    requires x >= 0.0 && y >= 0.0
    ensures x * y >= 0.0
  {
  }

  lemma {:induction false} Scaled(a: real, x: real, c: real)
    requires a < x && c > 0.0
    ensures a * c < x * c
  {
    assert (x - a) * c > 0.0;
  }

  lemma {:induction false} NoFurther(x: real, y: real, a: real, c: real)
    requires c > 0.0 && y >= 0.0 && x * c + y <= a * c
    ensures x <= a
  {
    if x > a {
      Scaled(a, x, c);
    }
  }

  lemma {:induction false} LateStaysBounded(x: Sync, step: real, a: real)
    requires SHORTEST_DELAY <= step < 1.0 && a < AV_NOSYNC_THRESHOLD && Bounded(x, step, a) && x.diff <= -step
    ensures Bounded(Next(x, step), step, a)
  {
    var spare, y := step - SHORTEST_DELAY, Next(x, step);
    assert y == Sync(x.diff + spare, x.lag + SHORTEST_DELAY);
    assert y.lag * spare == x.lag * spare + SHORTEST_DELAY * spare;
    if y.diff > -step {
      Product(-(x.diff + step), spare);
      assert (x.diff + step) * spare <= 0.0;
    }
  }

  lemma {:induction false} EarlyIsBounded(x: Sync, step: real, a: real)
    requires SHORTEST_DELAY <= step <= x.diff && x.lag >= 0.0
    requires var spare := step - SHORTEST_DELAY;
             x.diff * (step + spare) + spare * x.lag <= a * (step + spare)
    ensures Bounded(x, step, a)
  {
    var spare := step - SHORTEST_DELAY;
    Product(spare, x.lag);
    NoFurther(x.diff, spare * x.lag, a, step + spare);
  }

  /** From within the threshold a lag can carry the picture beyond it. */
  lemma {:induction false} CarriedPast(x: Sync, step: real, a: real)
    requires SHORTEST_DELAY <= step <= a && x.lag >= 0.0
    requires step <= x.diff <= step + (step - SHORTEST_DELAY)
    requires (x.diff + x.lag) * (step - SHORTEST_DELAY) <= SHORTEST_DELAY * (a - step)
    ensures Bounded(x, step, a)
  {
    var spare := step - SHORTEST_DELAY;
    Product(step + spare - x.diff, step);
    Product(spare, x.lag);
    assert x.diff * step <= (step + spare) * step;
    assert x.diff * (step + spare) + spare * x.lag == x.diff * step + (x.diff + x.lag) * spare;
    assert (step + spare) * step + SHORTEST_DELAY * (a - step) <= a * (step + spare) by {
      Product(spare, a - step);
    }
    EarlyIsBounded(x, step, a);
  }

  /** Near the clock the timer gains one step: the wait is that less the lag, but 10 ms at least. */
  lemma {:induction false} NextOfNear(x: Sync, step: real)
    requires SHORTEST_DELAY <= step < 1.0 && x.lag >= 0.0 && -step < x.diff < step
    ensures var made := if x.lag < step - SHORTEST_DELAY then x.lag else step - SHORTEST_DELAY;
            Next(x, step) == Sync(x.diff + made, x.lag - made)
  {
  }

  lemma {:induction false} NextOfEarly(x: Sync, step: real)
    requires SHORTEST_DELAY <= step < 1.0 && x.lag >= 0.0 && step <= x.diff < AV_NOSYNC_THRESHOLD
    ensures var most := step + (step - SHORTEST_DELAY);
            Next(x, step) == if x.lag < most then Sync(x.diff - step + x.lag, 0.0)
                             else Sync(x.diff + (step - SHORTEST_DELAY), x.lag - most)
  {
  }

  lemma {:induction false} NearStaysBounded(x: Sync, step: real, a: real)
    requires SHORTEST_DELAY <= step < 1.0 && a < AV_NOSYNC_THRESHOLD && Bounded(x, step, a)
    requires -step < x.diff < step
    ensures Bounded(Next(x, step), step, a)
  {
    NextOfNear(x, step);
    var y := Next(x, step);
    if x.lag > 0.0 && y.diff >= step {
      assert y.diff + y.lag == x.diff + x.lag;
      CarriedPast(y, step, a);
    }
  }

  /** An early frame with much lag: the wait cannot be longer, so the picture gets further ahead. */
  lemma {:induction false} LagIsMade(diff: real, lag: real, c: real, spare: real, a: real)
    requires diff * c + spare * lag <= a * c
    ensures (diff + spare) * c + spare * (lag - c) <= a * c
  {
    assert (diff + spare) * c == diff * c + spare * c;
    assert spare * (lag - c) == spare * lag - spare * c;
  }

  /** An early frame with little lag: the rest of the two steps is waited. */
  lemma {:induction false} LagIsGone(diff: real, lag: real, step: real, spare: real, a: real)
    requires 0.0 <= lag <= step + spare && step > 0.0 && spare >= 0.0
    requires diff * (step + spare) + spare * lag <= a * (step + spare)
    ensures diff - step + lag <= a
  {
    var c := step + spare;
    Product(step, c - lag);
    assert (diff - step + lag) * c == diff * c - step * c + lag * c;
    assert lag * c == lag * step + lag * spare;
    assert step * (c - lag) == step * c - step * lag;
    NoFurther(diff - step + lag, 0.0, a, c);
  }

  lemma {:induction false} EarlyWithLag(x: Sync, step: real, a: real)
    requires SHORTEST_DELAY <= step <= x.diff && Bounded(x, step, a) && x.lag >= step + (step - SHORTEST_DELAY)
    ensures Bounded(Sync(x.diff + (step - SHORTEST_DELAY), x.lag - (step + (step - SHORTEST_DELAY))), step, a)
  {
    var spare := step - SHORTEST_DELAY;
    LagIsMade(x.diff, x.lag, step + spare, spare, a);
    EarlyIsBounded(Sync(x.diff + spare, x.lag - (step + spare)), step, a);
  }

  lemma {:induction false} OnTimeIsBounded(diff: real, step: real, a: real)
    requires SHORTEST_DELAY <= step && 0.0 <= diff <= a
    ensures Bounded(Sync(diff, 0.0), step, a)
  {
    Product(a - diff, step + (step - SHORTEST_DELAY));
  }

  lemma {:induction false} EarlyWithLittleLag(x: Sync, step: real, a: real)
    requires SHORTEST_DELAY <= step <= x.diff && Bounded(x, step, a) && x.lag <= step + (step - SHORTEST_DELAY)
    ensures Bounded(Sync(x.diff - step + x.lag, 0.0), step, a)
  {
    LagIsGone(x.diff, x.lag, step, step - SHORTEST_DELAY, a);
    OnTimeIsBounded(x.diff - step + x.lag, step, a);
  }

  lemma {:induction false} EarlyStaysBounded(x: Sync, step: real, a: real)
    requires SHORTEST_DELAY <= step < 1.0 && a < AV_NOSYNC_THRESHOLD && Bounded(x, step, a) && step <= x.diff
    ensures Bounded(Next(x, step), step, a)
  {
    NextOfEarly(x, step);
    if x.lag < step + (step - SHORTEST_DELAY) {
      EarlyWithLittleLag(x, step, a);
    } else {
      EarlyWithLag(x, step, a);
    }
  }

  lemma {:induction false} StaysBounded(x: Sync, step: real, n: nat)
    requires SHORTEST_DELAY <= step < 1.0 && x.lag == 0.0 && AbsReal(x.diff) < AV_NOSYNC_THRESHOLD
    ensures Bounded(Nth(x, step, n), step, AbsReal(x.diff))
  {
    var a := AbsReal(x.diff);
    if n > 0 {
      StaysBounded(x, step, n - 1);
      var y := Nth(x, step, n - 1);
      if y.diff <= -step {
        LateStaysBounded(y, step, a);
      } else if y.diff < step {
        NearStaysBounded(y, step, a);
      } else {
        EarlyStaysBounded(y, step, a);
      }
    }
  }

  // ----- How long it takes -----

  /** A bound on what the steps have to make up for, with a step of more than 10 ms. */
  function Rank(x: Sync, step: real, a: real): real
    requires step > SHORTEST_DELAY
  {
    var spare := step - SHORTEST_DELAY;
    if x.diff <= -step then -step - x.diff + SHORTEST_DELAY * a / spare + 2.0 * spare + a
    else if x.lag > 0.0 then x.lag + spare + a
    else x.diff
  }

  /** The lag with which a picture that was late arrives. */
  lemma {:induction false} LagIsLimited(lag: real, spare: real, step: real, a: real)
    requires spare == step - SHORTEST_DELAY > 0.0 && lag * spare <= SHORTEST_DELAY * (a - step)
    ensures lag + SHORTEST_DELAY <= SHORTEST_DELAY * a / spare
  {
    var most := SHORTEST_DELAY * a / spare;
    assert most * spare == SHORTEST_DELAY * a;
    assert (lag + SHORTEST_DELAY) * spare == lag * spare + SHORTEST_DELAY * spare;
    NoFurther(lag + SHORTEST_DELAY, 0.0, most, spare);
  }

  lemma {:induction false} LateRankFalls(x: Sync, step: real, a: real)
    requires SHORTEST_DELAY < step < 1.0 && a < AV_NOSYNC_THRESHOLD && Bounded(x, step, a) && x.diff <= -step
    ensures Rank(x, step, a) >= 0.0
    ensures Rank(Next(x, step), step, a) <= Rank(x, step, a) - (step - SHORTEST_DELAY)
  {
    var spare := step - SHORTEST_DELAY;
    assert Next(x, step) == Sync(x.diff + spare, x.lag + SHORTEST_DELAY);
    assert SHORTEST_DELAY * (a + x.diff) <= SHORTEST_DELAY * (a - step);
    LagIsLimited(x.lag, spare, step, a);
  }

  /** Each frame takes off at least what a step has to spare, until the picture is settled. */
  lemma {:induction false} RankFalls(x: Sync, step: real, a: real)
    requires SHORTEST_DELAY < step < 1.0 && a < AV_NOSYNC_THRESHOLD
    requires Bounded(x, step, a) && Bounded(Next(x, step), step, a) && !Settled(x, step)
    ensures Rank(x, step, a) >= 0.0
    ensures Settled(Next(x, step), step)
            || Rank(Next(x, step), step, a) <= Rank(x, step, a) - (step - SHORTEST_DELAY)
  {
    if x.diff <= -step {
      LateRankFalls(x, step, a);
    }
  }

  /** So many steps together. */
  function Steps(n: nat, step: real): (sum: real)
    ensures sum == n as real * step
  {
    if n == 0 then 0.0 else Steps(n - 1, step) + step
  }

  lemma {:induction false} SettledStays(x: Sync, step: real)
    requires SHORTEST_DELAY <= step < 1.0 && Settled(x, step)
    ensures Next(x, step) == x
  {
  }

  lemma {:induction false} RankUsedUp(x: Sync, step: real, n: nat)
    requires SHORTEST_DELAY < step < 1.0 && x.lag == 0.0 && AbsReal(x.diff) < AV_NOSYNC_THRESHOLD
    ensures var a := AbsReal(x.diff);
            Settled(Nth(x, step, n), step)
            || Rank(Nth(x, step, n), step, a) <= Rank(x, step, a) - Steps(n, step - SHORTEST_DELAY)
  {
    if n > 0 {
      RankUsedUp(x, step, n - 1);
      StaysBounded(x, step, n - 1);
      StaysBounded(x, step, n);
      var y := Nth(x, step, n - 1);
      if Settled(y, step) {
        SettledStays(y, step);
      } else {
        RankFalls(y, step, AbsReal(x.diff));
      }
    }
  }

  lemma {:induction false} SettlesInTime(x: Sync, step: real, n: nat)
    requires SHORTEST_DELAY < step < 1.0 && x.lag == 0.0 && AbsReal(x.diff) < AV_NOSYNC_THRESHOLD
    requires Steps(n, step - SHORTEST_DELAY) > Rank(x, step, AbsReal(x.diff))
    ensures Settled(Nth(x, step, n), step)
  {
    RankUsedUp(x, step, n);
    var y := Nth(x, step, n);
    if !Settled(y, step) {
      StaysBounded(x, step, n);
      StaysBounded(x, step, n + 1);
      assert Next(y, step) == Nth(x, step, n + 1);
      RankFalls(y, step, AbsReal(x.diff));
    }
  }

  /** In a run that starts on time and less than ten seconds off, with a step of at least 10 ms, no
      frame is further from the master clock than the first was, early or late; and if the step is
      more than that, the picture is within the threshold, and stays there, as soon as what the
      steps have to spare beyond 10 ms adds up to the rank of the start. */
  lemma {:induction false} DifferenceShrinks(t: Timing, ks: seq<Tick>, step: real, offset: real, n: nat)
    requires Timed(t, ks, step, offset) && n < |ks| && step >= SHORTEST_DELAY
    requires ks[0].now == t.frameTimer && Off(ks, 0) < AV_NOSYNC_THRESHOLD
    ensures Off(ks, n) <= Off(ks, 0)
    ensures step > SHORTEST_DELAY && Steps(n, step - SHORTEST_DELAY) > Rank(At(t, ks, 0), step, Off(ks, 0)) ==>
              Off(ks, n) < Threshold(step)
  {
    var x := At(t, ks, 0);
    RunIsNth(t, ks, step, offset, n);
    assert ks[..0] == [];
    StaysBounded(x, step, n);
    if step > SHORTEST_DELAY && Steps(n, step - SHORTEST_DELAY) > Rank(x, step, Off(ks, 0)) {
      SettlesInTime(x, step, n);
    }
  }

  // ----- When it works -----

  /** No frame adds more to the difference than its step has to spare. */
  lemma {:induction false} NeverFaster(x: Sync, step: real, m: nat, n: nat)
    requires m <= n
    ensures Nth(x, step, n).diff <= Nth(x, step, m).diff + Steps(n - m, step - SHORTEST_DELAY)
    decreases n - m
  {
    if m < n {
      NeverFaster(x, step, m, n - 1);
    }
  }

  /** From this frame on, for ever, the picture is within the threshold. */
  ghost predicate KeepsUpFrom(x: Sync, step: real, n: nat) {
    forall k: nat :: k >= n ==> AbsReal(Nth(x, step, k).diff) < Threshold(step)
  }

  lemma {:induction false} SomeManySteps(step: real, goal: real) returns (n: nat)
    requires step > 0.0
    ensures Steps(n, step) > goal
  {
    n := if goal < 0.0 then 1 else (goal / step).Floor + 1;
    var q := goal / step;
    assert q * step == goal;
    assert n as real > q;
    Scaled(q, n as real, step);
  }

  lemma {:induction false} LongStepsKeepUp(x: Sync, step: real) returns (n: nat)
    requires SHORTEST_DELAY < step < 1.0 && x.lag == 0.0 && AbsReal(x.diff) < AV_NOSYNC_THRESHOLD
    ensures KeepsUpFrom(x, step, n)
  {
    n := SomeManySteps(step - SHORTEST_DELAY, Rank(x, step, AbsReal(x.diff)));
    forall k: nat | k >= n
      ensures AbsReal(Nth(x, step, k).diff) < Threshold(step)
    {
      MoreSteps(n, k, step - SHORTEST_DELAY);
      SettlesInTime(x, step, k);
    }
  }

  lemma {:induction false} MoreSteps(n: nat, k: nat, step: real)
    requires n <= k && step > 0.0
    ensures Steps(n, step) <= Steps(k, step)
  {
    Product((k - n) as real, step);
  }

  /** With steps of exactly 10 ms an early picture loses one step a frame. */
  lemma {:induction false} EvenStepsFall(x: Sync, n: nat)
    requires x.lag == 0.0 && -SHORTEST_DELAY < x.diff < AV_NOSYNC_THRESHOLD
    ensures var y := Nth(x, SHORTEST_DELAY, n);
            y.lag == 0.0 && -SHORTEST_DELAY < y.diff
            && (y.diff < SHORTEST_DELAY || y.diff <= x.diff - Steps(n, SHORTEST_DELAY))
            && y.diff < AV_NOSYNC_THRESHOLD
  {
    if n > 0 {
      EvenStepsFall(x, n - 1);
    }
  }

  lemma {:induction false} EvenStepsKeepUp(x: Sync) returns (n: nat)
    requires x.lag == 0.0 && -SHORTEST_DELAY < x.diff < AV_NOSYNC_THRESHOLD
    ensures KeepsUpFrom(x, SHORTEST_DELAY, n)
  {
    n := SomeManySteps(SHORTEST_DELAY, x.diff);
    forall k: nat | k >= n
      ensures AbsReal(Nth(x, SHORTEST_DELAY, k).diff) < Threshold(SHORTEST_DELAY)
    {
      MoreSteps(n, k, SHORTEST_DELAY);
      EvenStepsFall(x, k);
    }
  }

  lemma {:induction false} OppositeSteps(n: nat, step: real)
    ensures Steps(n, -step) == -Steps(n, step)
  {
    if n > 0 {
      OppositeSteps(n - 1, step);
    }
  }

  /** With shorter steps the picture falls behind without end. */
  lemma {:induction false} ShortStepsFallBehind(x: Sync, step: real, n: nat)
    requires 0.0 < step < SHORTEST_DELAY
    ensures !KeepsUpFrom(x, step, n)
  {
    var more := SomeManySteps(SHORTEST_DELAY - step, Nth(x, step, n).diff + Threshold(step));
    NeverFaster(x, step, n, n + more);
    OppositeSteps(more, SHORTEST_DELAY - step);
    assert -(SHORTEST_DELAY - step) == step - SHORTEST_DELAY;
    assert n + more >= n && Nth(x, step, n + more).diff < -Threshold(step);
  }

  lemma {:induction false} LateEvenStepsStayLate(x: Sync, n: nat)
    requires x.diff <= -SHORTEST_DELAY
    ensures !KeepsUpFrom(x, SHORTEST_DELAY, n)
  {
    NeverFaster(x, SHORTEST_DELAY, 0, n);
    assert n >= n && Nth(x, SHORTEST_DELAY, n).diff <= -Threshold(SHORTEST_DELAY);
  }

  /** The picture, on time at first and less than ten seconds off, comes within the threshold of
      the master clock and stays there if and only if the step between frames is more than the
      shortest wait, or just that and the picture is not late. */
  lemma {:induction false} PictureKeepsUp(x: Sync, step: real)
    requires UsableStep(step) && x.lag == 0.0 && AbsReal(x.diff) < AV_NOSYNC_THRESHOLD
    ensures (exists n :: KeepsUpFrom(x, step, n))
       <==> step > SHORTEST_DELAY || (step == SHORTEST_DELAY && !Late(x.diff, step))
  {
    if step > SHORTEST_DELAY {
      var n := LongStepsKeepUp(x, step);
    } else if step < SHORTEST_DELAY {
      forall n: nat
        ensures !KeepsUpFrom(x, step, n)
      {
        ShortStepsFallBehind(x, step, n);
      }
    } else if Late(x.diff, step) {
      forall n: nat
        ensures !KeepsUpFrom(x, step, n)
      {
        LateEvenStepsStayLate(x, n);
      }
    } else {
      var n := EvenStepsKeepUp(x);
    }
  }

  /** After a late frame on time the handler comes back in 10 ms. */
  lemma {:induction false} TwoFrames(t: Timing, k0: Tick, k1: Tick, step: real, offset: real)
    requires UsableStep(step) && 0.0 < t.lastDelay < 1.0
    requires k0 == Tick(t.lastPts + step, t.frameTimer, t.frameTimer + offset) && Late(k0.pts - k0.refClock, step)
    requires k1 == Tick(k0.pts + step, k0.now + SHORTEST_DELAY, k0.refClock + SHORTEST_DELAY)
    ensures Timed(t, [k0, k1], step, offset)
  {
    var ks := [k0, k1];
    AfterOneMore(false, t, ks, 0);
    assert ks[..0] == [];
    CorrectsTowardsMaster(t, k0);
    assert AfterAll(false, t, ks[..1]).frameTimer == t.frameTimer;
  }

  const START: Timing := Timing(0.0, 0.0, 0.008)
  const FAST: seq<Tick> := [Tick(0.008, 0.0, 1.0), Tick(0.016, 0.010, 1.010)]

  /** At 125 frames a second the frame after a late one is later still. */
  lemma {:induction false} LatePictureFallsBehind()
    ensures Timed(START, FAST, 0.008, 1.0) && Late(FAST[0].pts - FAST[0].refClock, 0.008)
    ensures Off(FAST, 1) > Off(FAST, 0)
  {
    TwoFrames(START, FAST[0], FAST[1], 0.008, 1.0);
    assert FAST == [FAST[0], FAST[1]];
  }
}
