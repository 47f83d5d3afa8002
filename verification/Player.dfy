/** The whole player: the demuxing side and the picture ring run interleaved, joined in the
    video thread, which takes packets on one side and queues pictures on the other, and in the
    main thread, which serves the user's seeks as well as the refresh and allocation events. */
module Player {
  import opened Packets
  import D = Demuxer
  import R = PictureRing

  datatype State = State(d: D.State, r: R.State,
                         frameDue: bool)  // the packet taken last may still yield its picture

  predicate Init(s: State) {
    D.Init(s.d) && R.Init(s.r) && !s.frameDue
  }

  datatype Step =
    | DemuxerStep(ds: D.Step)
    | RingStep(rs: R.Step)
    | PictureReady(f: R.Frame)

  predicate Enabled(s: State, step: Step)
    requires R.Indices(s.r)
  {
    match step
    case DemuxerStep(ds) =>
      && D.Enabled(s.d, ds)
      && (ds.AskSeek? ==> s.r.main.Idle?)
      && (ds.TakeVideo? ==> s.r.open && s.r.video.Decoding?)
    case RingStep(rs) =>
      && !rs.QueuePicture?
      && R.Enabled(s.r, rs)
      && (rs.MainStep? ==> s.d.seeker.Idle?)
    case PictureReady(f) =>
      && s.frameDue
      && R.Enabled(s.r, R.QueuePicture(f))
      && exists p :: p in D.SinceReset(s.d.videoTaken) && p.Media? && p.epoch == f.image.epoch
  }

  /** A decoded picture stems from packets the codec was fed since it was last reset. */
  function Do(s: State, step: Step): State
    requires R.Indices(s.r) && Enabled(s, step)
  {
    match step
    case DemuxerStep(ds) =>
      s.(d := D.Do(s.d, ds), frameDue := if ds.TakeVideo? then s.d.videoq[0].Media? else s.frameDue)
    case RingStep(rs) => s.(r := R.Do(s.r, rs))
    case PictureReady(f) => s.(r := R.Do(s.r, R.QueuePicture(f)), frameDue := false)
  }

  ghost predicate Next(s: State, t: State) {
    R.Indices(s.r) && exists step :: Enabled(s, step) && t == Do(s, step)
  }

  ghost predicate Behavior(b: seq<State>) {
    && b != [] && Init(b[0])
    && forall i :: 0 <= i < |b| - 1 ==> Next(b[i], b[i + 1])
  }

  /** The picture the video thread is still working into the ring. */
  function InHand(pc: R.VideoPc): seq<R.Frame> {
    match pc
    case Decoding => []
    case CountUp => []
    case _ => [pc.f]
  }

  function Produced(r: R.State): seq<R.Frame> {
    r.queued + InHand(r.video)
  }

  ghost predicate EpochsOrdered(fs: seq<R.Frame>) {
    forall i, j :: 0 <= i < j < |fs| ==> fs[i].image.epoch <= fs[j].image.epoch
  }

  ghost predicate WasTaken(taken: seq<Packet>, epoch: nat) {
    exists k :: 0 <= k < |taken| && taken[k].Media? && taken[k].epoch == epoch
  }

  /** Every picture comes from a packet the video thread took. */
  ghost predicate FromTaken(fs: seq<R.Frame>, taken: seq<Packet>) {
    forall i :: 0 <= i < |fs| ==> WasTaken(taken, fs[i].image.epoch)
  }

  ghost predicate Inv(s: State) {
    && D.Inv(s.d) && R.Inv(s.r)
    && EpochsOrdered(Produced(s.r))
    && FromTaken(Produced(s.r), s.d.videoTaken)
    && (s.frameDue ==> s.r.video.Decoding? && s.d.videoTaken != [] && s.d.videoTaken[|s.d.videoTaken| - 1].Media?)
  }

  lemma {:induction false} TakenGrows(s: D.State, step: D.Step)
    requires D.Enabled(s, step)
    ensures s.videoTaken <= D.Do(s, step).videoTaken
  {
  }

  lemma {:induction false} FromTakenExtends(fs: seq<R.Frame>, taken: seq<Packet>, taken': seq<Packet>)
    requires FromTaken(fs, taken) && taken <= taken'
    ensures FromTaken(fs, taken')
  {
  }

  /** Ring steps only move a picture from the thread's hand to the queue, or drop it. */
  lemma {:induction false} ProducedShrinks(s: R.State, step: R.Step)
    requires R.Inv(s) && R.Enabled(s, step) && !step.QueuePicture?
    ensures Produced(R.Do(s, step)) <= Produced(s)
  {
  }

  lemma {:induction false} PrefixKeeps(fs: seq<R.Frame>, gs: seq<R.Frame>, taken: seq<Packet>)
    requires EpochsOrdered(gs) && FromTaken(gs, taken) && fs <= gs
    ensures EpochsOrdered(fs) && FromTaken(fs, taken)
  {
  }

  /** A fresh picture is at least as new as every packet taken so far. */
  lemma {:induction false} FreshPictureIsNewest(s: State, f: R.Frame, k: nat)
    requires Inv(s) && Enabled(s, PictureReady(f))
    requires k < |s.d.videoTaken| && s.d.videoTaken[k].Media?
    ensures s.d.videoTaken[k].epoch <= f.image.epoch
    ensures s.d.videoTaken[|s.d.videoTaken| - 1].epoch == f.image.epoch
  {
    var taken := s.d.videoTaken;
    var fed := D.SinceReset(taken);
    var i :| 0 <= i < |fed| && fed[i].Media? && fed[i].epoch == f.image.epoch;
    D.BarrierPrefix(taken + s.d.videoq, |taken|);
    assert (taken + s.d.videoq)[..|taken|] == taken;
    D.FedIsNewest(taken, k, i);
    D.SinceResetIsSuffix(taken);
    D.SameEpochSinceReset(taken, i, |fed| - 1);
    assert fed[|fed| - 1] == taken[|taken| - 1];
  }

  lemma {:induction false} DemuxerKeepsInv(s: State, ds: D.Step)
    requires Inv(s) && Enabled(s, DemuxerStep(ds))
    ensures Inv(Do(s, DemuxerStep(ds)))
  {
    var t := Do(s, DemuxerStep(ds));
    D.InvStep(s.d, t.d);
    TakenGrows(s.d, ds);
    FromTakenExtends(Produced(s.r), s.d.videoTaken, t.d.videoTaken);
  }

  lemma {:induction false} RingKeepsInv(s: State, rs: R.Step)
    requires Inv(s) && Enabled(s, RingStep(rs))
    ensures Inv(Do(s, RingStep(rs)))
  {
    var t := Do(s, RingStep(rs));
    R.InvStep(s.r, t.r);
    ProducedShrinks(s.r, rs);
    PrefixKeeps(Produced(t.r), Produced(s.r), s.d.videoTaken);
  }

  lemma {:induction false} InvStep(s: State, t: State)
    requires Inv(s) && Next(s, t)
    ensures Inv(t)
  {
    var step :| Enabled(s, step) && t == Do(s, step);
    match step {
      case DemuxerStep(ds) => DemuxerKeepsInv(s, ds);
      case RingStep(rs) => RingKeepsInv(s, rs);
      case PictureReady(f) =>
        R.InvStep(s.r, t.r);
        PictureReadyKeeps(s, f);
    }
  }

  lemma {:induction false} PictureReadyKeeps(s: State, f: R.Frame)
    requires Inv(s) && Enabled(s, PictureReady(f))
    ensures var fs := Produced(R.Do(s.r, R.QueuePicture(f)));
            EpochsOrdered(fs) && FromTaken(fs, s.d.videoTaken)
  {
    var taken := s.d.videoTaken;
    var gs := Produced(s.r);
    var fs := Produced(R.Do(s.r, R.QueuePicture(f)));
    assert fs == gs + [f];
    FreshPictureIsNewest(s, f, |taken| - 1);
    forall i | 0 <= i < |gs|
      ensures gs[i].image.epoch <= f.image.epoch
    {
      assert WasTaken(taken, gs[i].image.epoch);
      var k :| 0 <= k < |taken| && taken[k].Media? && taken[k].epoch == gs[i].image.epoch;
      FreshPictureIsNewest(s, f, k);
    }
    forall i | 0 <= i < |fs|
      ensures WasTaken(taken, fs[i].image.epoch)
    {
      if i < |gs| {
        assert fs[i] == gs[i] && WasTaken(taken, gs[i].image.epoch);
      } else {
        assert taken[|taken| - 1].epoch == fs[i].image.epoch;
      }
    }
  }

  lemma {:induction false} Invariant(b: seq<State>, n: nat)
    requires Behavior(b) && n < |b|
    ensures Inv(b[n])
  {
    if n == 0 {
      var s := b[0];
      assert D.Inv(s.d) by { assert D.Behavior([s.d]); D.Invariant([s.d], 0); }
      assert R.Inv(s.r) by { assert R.Behavior([s.r]); R.Invariant([s.r], 0); }
    } else {
      Invariant(b, n - 1);
      InvStep(b[n - 1], b[n]);
    }
  }

  /** Across all threads and any number of seeks: once a picture from after a seek has been
      shown, no picture from before it is shown any more. And every picture on screen comes
      from a packet that the video thread took. */
  lemma {:induction false} NoPictureFromBeforeASeekAfterIt(b: seq<State>, n: nat, i: nat, j: nat)
    requires Behavior(b) && n < |b| && i < j < |b[n].r.shown|
    ensures b[n].r.shown[i].image.epoch <= b[n].r.shown[j].image.epoch <= b[n].d.epoch
    ensures WasTaken(b[n].d.videoTaken, b[n].r.shown[j].image.epoch)
  {
    Invariant(b, n);
    var s := b[n];
    assert s.r.shown[i] == Produced(s.r)[i] && s.r.shown[j] == Produced(s.r)[j];
    assert WasTaken(s.d.videoTaken, Produced(s.r)[j].image.epoch);
    var k :| 0 <= k < |s.d.videoTaken| && s.d.videoTaken[k].Media?
             && s.d.videoTaken[k].epoch == Produced(s.r)[j].image.epoch;
    assert (s.d.videoTaken + s.d.videoq)[k] == s.d.videoTaken[k];
  }

  // ----- How long a seek takes to show -----

  ghost predicate NoneOlder(ps: seq<Packet>, epoch: nat) {
    forall i :: 0 <= i < |ps| && ps[i].Media? ==> ps[i].epoch >= epoch
  }

  predicate LastIsOlder(taken: seq<Packet>, epoch: nat) {
    taken != [] && taken[|taken| - 1].Media? && taken[|taken| - 1].epoch < epoch
  }

  /** Since the video queue was flushed for the seek of this epoch, when `count` pictures had been
      queued: only new packets are queued, and at most one old picture has followed, which was in
      the thread's hand then or came from the packet taken last. */
  ghost predicate Flushed(s: State, epoch: nat, count: nat) {
    && s.d.epoch >= epoch && NoneOlder(s.d.videoq, epoch)
    && (forall j :: count < j < |Produced(s.r)| ==> Produced(s.r)[j].image.epoch >= epoch)
    && (s.frameDue && LastIsOlder(s.d.videoTaken, epoch) ==> |Produced(s.r)| <= count)
  }

  lemma {:induction false} JustFlushed(s: State)
    requires Inv(s) && s.d.demux.MarkVideo?
    ensures Flushed(s, s.d.epoch, |s.r.queued|)
  {
  }

  lemma {:induction false} QueueStaysNew(s: D.State, step: D.Step, epoch: nat)
    requires D.Inv(s) && D.Enabled(s, step) && s.epoch >= epoch && NoneOlder(s.videoq, epoch)
    ensures D.Do(s, step).epoch >= epoch && NoneOlder(D.Do(s, step).videoq, epoch)
  {
  }

  lemma {:induction false} FlushedAfterDemuxer(s: State, ds: D.Step, epoch: nat, count: nat)
    requires Inv(s) && Enabled(s, DemuxerStep(ds)) && Flushed(s, epoch, count)
    ensures Flushed(Do(s, DemuxerStep(ds)), epoch, count)
  {
    QueueStaysNew(s.d, ds, epoch);
  }

  lemma {:induction false} FlushedAfterPicture(s: State, f: R.Frame, epoch: nat, count: nat)
    requires Inv(s) && Enabled(s, PictureReady(f)) && Flushed(s, epoch, count)
    ensures Flushed(Do(s, PictureReady(f)), epoch, count)
  {
    FreshPictureIsNewest(s, f, |s.d.videoTaken| - 1);
    assert Produced(Do(s, PictureReady(f)).r) == Produced(s.r) + [f];
  }

  lemma {:induction false} FlushedStep(s: State, t: State, epoch: nat, count: nat)
    requires Inv(s) && Next(s, t) && Flushed(s, epoch, count)
    ensures Flushed(t, epoch, count)
  {
    var step :| Enabled(s, step) && t == Do(s, step);
    match step {
      case DemuxerStep(ds) => FlushedAfterDemuxer(s, ds, epoch, count);
      case RingStep(rs) => ProducedShrinks(s.r, rs);
      case PictureReady(f) => FlushedAfterPicture(s, f, epoch, count);
    }
  }

  lemma {:induction false} FlushedOnce(b: seq<State>, n: nat, epoch: nat, count: nat)
    requires Behavior(b) && n + 1 < |b| && Flushed(b[n], epoch, count)
    ensures Flushed(b[n + 1], epoch, count)
  {
    Invariant(b, n);
    FlushedStep(b[n], b[n + 1], epoch, count);
  }

  lemma {:induction false} FlushedSince(b: seq<State>, m: nat, n: nat, epoch: nat, count: nat)
    requires Behavior(b) && m <= n < |b| && Flushed(b[m], epoch, count)
    ensures Flushed(b[n], epoch, count)
    decreases n - m
  {
    if m < n {
      FlushedOnce(b, m, epoch, count);
      FlushedSince(b, m + 1, n, epoch, count);
    }
  }

  /** A seek shows soon: once the video queue was flushed for it, at most N + 1 pictures from
      before it are still shown, those in the ring of N and one more. */
  lemma {:induction false} SeekShowsSoon(b: seq<State>, m: nat, n: nat, k: nat)
    requires Behavior(b) && m <= n < |b| && b[m].d.demux.MarkVideo?
    requires |b[m].r.shown| + |b[m].r.slots| + 1 <= k < |b[n].r.shown|
    ensures b[n].r.shown[k].image.epoch >= b[m].d.epoch
  {
    Invariant(b, m);
    Invariant(b, n);
    JustFlushed(b[m]);
    FlushedSince(b, m, n, b[m].d.epoch, |b[m].r.queued|);
    assert |b[m].r.queued| <= |b[m].r.shown| + |b[m].r.slots|;
    assert b[n].r.shown[k] == Produced(b[n].r)[k];
  }
}
