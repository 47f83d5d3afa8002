/** What the decode thread does over whole runs: what it reads reaches the queues, each successful
    seek is marked in both, and it always moves on. */
module DemuxerRuns {
  import opened Demuxer
  import opened Packets
  import opened PacketQueues
  import opened QueueUse
  import opened Wrappers

  // ----- From the file to the queues -----

  /** How many times the demuxer library was asked to seek and did. */
  ghost function Seeks(b: seq<State>, steps: seq<Step>, n: nat): nat
    requires Trace(b, steps) && n <= |steps|
  {
    if n == 0 then 0
    else Seeks(b, steps, n - 1) + if b[n - 1].demux.Seeking? && steps[n - 1].Demux? && steps[n - 1].seekOk then 1 else 0
  }

  /** What the library gave of this stream, in order, each packet with the number of seeks before it. */
  ghost function ReadOf(stream: Stream, b: seq<State>, steps: seq<Step>, n: nat): seq<Packet>
    requires Trace(b, steps) && n <= |steps|
  {
    if n == 0 then []
    else ReadOf(stream, b, steps, n - 1)
         + if b[n - 1].demux.Reading? && steps[n - 1].Demux? && steps[n - 1].read.Read?
              && steps[n - 1].read.stream == stream
           then [Media(Seeks(b, steps, n - 1), steps[n - 1].read.data, steps[n - 1].read.pts)] else []
  }

  function MediaOf(ps: seq<Packet>): seq<Packet> {
    if ps == [] then []
    else MediaOf(ps[..|ps| - 1]) + if ps[|ps| - 1].Media? then [ps[|ps| - 1]] else []
  }

  function MarkersOf(ps: seq<Packet>): nat {
    if ps == [] then 0
    else MarkersOf(ps[..|ps| - 1]) + if ps[|ps| - 1].FlushMarker? then 1 else 0
  }

  /** A packet of this stream has been read and is about to be queued. */
  function InHand(pc: DemuxPc, stream: Stream): seq<Packet> {
    if pc.Queueing? && pc.stream == stream then [pc.pkt] else []
  }

  /** What reached the queue of a stream, `arrived`, is what was read of it, but for the packet in
      hand, and a marker for every seek, but for the one `due`. */
  ghost predicate Reached(arrived: seq<Packet>, hand: seq<Packet>, read: seq<Packet>, seeks: nat, due: bool) {
    MediaOf(arrived) + hand == read && MarkersOf(arrived) + (if due then 1 else 0) == seeks
  }

  lemma {:induction false} SeekIsCounted(s: State, step: Step)
    requires Enabled(s, step)
    ensures Do(s, step).epoch == s.epoch + if s.demux.Seeking? && step.Demux? && step.seekOk then 1 else 0
  {
  }

  lemma {:induction false} SeeksAreCounted(b: seq<State>, steps: seq<Step>, n: nat)
    requires Trace(b, steps) && n <= |steps|
    ensures b[n].epoch == Seeks(b, steps, n)
  {
    if n > 0 {
      SeeksAreCounted(b, steps, n - 1);
      SeekIsCounted(b[n - 1], steps[n - 1]);
    }
  }

  lemma {:induction false} OneMoreArrived(arrived: seq<Packet>, p: Packet)
    ensures MediaOf(arrived + [p]) == MediaOf(arrived) + if p.Media? then [p] else []
    ensures MarkersOf(arrived + [p]) == MarkersOf(arrived) + if p.FlushMarker? then 1 else 0
  {
    assert (arrived + [p])[..|arrived|] == arrived;
  }

  lemma {:induction false} ArrivedAfter(ops: seq<Op>, op: Op)
    ensures After(ops + [op]).arrived == After(ops).arrived + if op.DoPut? then [op.pkt] else []
  {
    ApplyOneMore(Fifo([], [], []), ops, op);
  }

  /** What a step reads of a stream. */
  function ReadBy(stream: Stream, s: State, step: Step): seq<Packet> {
    if s.demux.Reading? && step.Demux? && step.read.Read? && step.read.stream == stream
    then [Media(s.epoch, step.read.data, step.read.pts)] else []
  }

  predicate HandIsMedia(s: State) {
    s.demux.Queueing? ==> s.demux.pkt.Media?
  }

  /** What a row of at most one operation puts. */
  function PutBy(did: seq<Op>): seq<Packet> {
    if did != [] && did[0].DoPut? then [did[0].pkt] else []
  }

  function One(b: bool): int { if b then 1 else 0 }

  function MediaIn(ps: seq<Packet>): seq<Packet> {
    if ps != [] && ps[0].Media? then [ps[0]] else []
  }

  /** What one step puts, takes in hand and reads agree, and so do markers put and due. */
  predicate Agrees(put: seq<Packet>, hand: seq<Packet>, hand': seq<Packet>, read: seq<Packet>, due: bool, due': bool,
                   seeks: int)
  {
    && |put| <= 1 && MediaIn(put) + hand' == hand + read
    && One(put != [] && put[0].FlushMarker?) + One(due') - One(due) == seeks
  }

  lemma {:induction false} AudioQueueingAgrees(s: State, seekOk: bool, read: ReadResult)
    requires Enabled(s, Demux(seekOk, read)) && HandIsMedia(s) && s.demux.Queueing?
    ensures var t, step := DoDemux(s, seekOk, read), Demux(seekOk, read);
            Agrees(PutBy(AudioOps(s, step)), InHand(s.demux, Audio), InHand(t.demux, Audio), ReadBy(Audio, s, step),
                   AudioStale(s.demux), AudioStale(t.demux), t.epoch - s.epoch)
  {
  }

  lemma {:induction false} AudioReadingAgrees(s: State, seekOk: bool, read: ReadResult)
    requires Enabled(s, Demux(seekOk, read)) && HandIsMedia(s) && s.demux.Reading?
    ensures var t, step := DoDemux(s, seekOk, read), Demux(seekOk, read);
            Agrees(PutBy(AudioOps(s, step)), InHand(s.demux, Audio), InHand(t.demux, Audio), ReadBy(Audio, s, step),
                   AudioStale(s.demux), AudioStale(t.demux), t.epoch - s.epoch)
  {
  }

  lemma {:induction false} AudioOtherAgrees(s: State, seekOk: bool, read: ReadResult)
    requires Enabled(s, Demux(seekOk, read)) && HandIsMedia(s) && !s.demux.Queueing? && !s.demux.Reading?
    ensures var t, step := DoDemux(s, seekOk, read), Demux(seekOk, read);
            Agrees(PutBy(AudioOps(s, step)), InHand(s.demux, Audio), InHand(t.demux, Audio), ReadBy(Audio, s, step),
                   AudioStale(s.demux), AudioStale(t.demux), t.epoch - s.epoch)
  {
  }

  lemma {:induction false} AudioDemuxAgrees(s: State, seekOk: bool, read: ReadResult)
    requires Enabled(s, Demux(seekOk, read)) && HandIsMedia(s)
    ensures var t, step := DoDemux(s, seekOk, read), Demux(seekOk, read);
            Agrees(PutBy(AudioOps(s, step)), InHand(s.demux, Audio), InHand(t.demux, Audio), ReadBy(Audio, s, step),
                   AudioStale(s.demux), AudioStale(t.demux), t.epoch - s.epoch)
  {
    if s.demux.Queueing? {
      AudioQueueingAgrees(s, seekOk, read);
    } else if s.demux.Reading? {
      AudioReadingAgrees(s, seekOk, read);
    } else {
      AudioOtherAgrees(s, seekOk, read);
    }
  }

  lemma {:induction false} AudioStepAgrees(s: State, step: Step)
    requires Enabled(s, step) && HandIsMedia(s)
    ensures var t := Do(s, step);
            Agrees(PutBy(AudioOps(s, step)), InHand(s.demux, Audio), InHand(t.demux, Audio), ReadBy(Audio, s, step),
                   AudioStale(s.demux), AudioStale(t.demux), t.epoch - s.epoch)
  {
    if step.Demux? {
      AudioDemuxAgrees(s, step.seekOk, step.read);
    }
  }

  lemma {:induction false} VideoQueueingAgrees(s: State, seekOk: bool, read: ReadResult)
    requires Enabled(s, Demux(seekOk, read)) && HandIsMedia(s) && s.demux.Queueing?
    ensures var t, step := DoDemux(s, seekOk, read), Demux(seekOk, read);
            Agrees(PutBy(VideoOps(s, step)), InHand(s.demux, Video), InHand(t.demux, Video), ReadBy(Video, s, step),
                   VideoStale(s.demux), VideoStale(t.demux), t.epoch - s.epoch)
  {
  }

  lemma {:induction false} VideoReadingAgrees(s: State, seekOk: bool, read: ReadResult)
    requires Enabled(s, Demux(seekOk, read)) && HandIsMedia(s) && s.demux.Reading?
    ensures var t, step := DoDemux(s, seekOk, read), Demux(seekOk, read);
            Agrees(PutBy(VideoOps(s, step)), InHand(s.demux, Video), InHand(t.demux, Video), ReadBy(Video, s, step),
                   VideoStale(s.demux), VideoStale(t.demux), t.epoch - s.epoch)
  {
  }

  lemma {:induction false} VideoOtherAgrees(s: State, seekOk: bool, read: ReadResult)
    requires Enabled(s, Demux(seekOk, read)) && HandIsMedia(s) && !s.demux.Queueing? && !s.demux.Reading?
    ensures var t, step := DoDemux(s, seekOk, read), Demux(seekOk, read);
            Agrees(PutBy(VideoOps(s, step)), InHand(s.demux, Video), InHand(t.demux, Video), ReadBy(Video, s, step),
                   VideoStale(s.demux), VideoStale(t.demux), t.epoch - s.epoch)
  {
  }

  lemma {:induction false} VideoDemuxAgrees(s: State, seekOk: bool, read: ReadResult)
    requires Enabled(s, Demux(seekOk, read)) && HandIsMedia(s)
    ensures var t, step := DoDemux(s, seekOk, read), Demux(seekOk, read);
            Agrees(PutBy(VideoOps(s, step)), InHand(s.demux, Video), InHand(t.demux, Video), ReadBy(Video, s, step),
                   VideoStale(s.demux), VideoStale(t.demux), t.epoch - s.epoch)
  {
    if s.demux.Queueing? {
      VideoQueueingAgrees(s, seekOk, read);
    } else if s.demux.Reading? {
      VideoReadingAgrees(s, seekOk, read);
    } else {
      VideoOtherAgrees(s, seekOk, read);
    }
  }

  lemma {:induction false} VideoStepAgrees(s: State, step: Step)
    requires Enabled(s, step) && HandIsMedia(s)
    ensures var t := Do(s, step);
            Agrees(PutBy(VideoOps(s, step)), InHand(s.demux, Video), InHand(t.demux, Video), ReadBy(Video, s, step),
                   VideoStale(s.demux), VideoStale(t.demux), t.epoch - s.epoch)
  {
    if step.Demux? {
      VideoDemuxAgrees(s, step.seekOk, step.read);
    }
  }

  lemma {:induction false} ArrivedBy(ops: seq<Op>, did: seq<Op>)
    requires |did| <= 1
    ensures After(ops + did).arrived == After(ops).arrived + PutBy(did)
  {
    if did == [] {
      assert ops + [] == ops;
    } else {
      ArrivedAfter(ops, did[0]);
      assert did == [did[0]];
    }
  }

  lemma {:induction false} ArrivedWith(arrived: seq<Packet>, put: seq<Packet>)
    requires |put| <= 1
    ensures MediaOf(arrived + put) == MediaOf(arrived) + MediaIn(put)
    ensures MarkersOf(arrived + put) == MarkersOf(arrived) + One(put != [] && put[0].FlushMarker?)
  {
    if put == [] {
      assert arrived + put == arrived;
    } else {
      OneMoreArrived(arrived, put[0]);
      assert put == [put[0]];
    }
  }

  lemma {:induction false} Regrouped(media: seq<Packet>, put: seq<Packet>, hand: seq<Packet>, hand': seq<Packet>,
                                     more: seq<Packet>)
    requires put + hand' == hand + more
    ensures media + put + hand' == media + hand + more
  {
    assert media + put + hand' == media + (put + hand');
    assert media + hand + more == media + (hand + more);
  }

  lemma {:induction false} ReachedWith(arrived: seq<Packet>, put: seq<Packet>, hand: seq<Packet>, hand': seq<Packet>,
                                       read: seq<Packet>, more: seq<Packet>, due: bool, due': bool, seeks: nat,
                                       seeks': nat)
    requires Reached(arrived, hand, read, seeks, due) && Agrees(put, hand, hand', more, due, due', seeks' - seeks)
    ensures Reached(arrived + put, hand', read + more, seeks', due')
  {
    ArrivedWith(arrived, put);
    Regrouped(MediaOf(arrived), MediaIn(put), hand, hand', more);
  }

  lemma {:induction false} AudioReachedStep(s: State, step: Step, ops: seq<Op>, read: seq<Packet>)
    requires Enabled(s, step) && HandIsMedia(s)
    requires Reached(After(ops).arrived, InHand(s.demux, Audio), read, s.epoch, AudioStale(s.demux))
    ensures Reached(After(ops + AudioOps(s, step)).arrived, InHand(Do(s, step).demux, Audio),
                    read + ReadBy(Audio, s, step), Do(s, step).epoch, AudioStale(Do(s, step).demux))
  {
    var t := Do(s, step);
    AudioStepAgrees(s, step);
    ArrivedBy(ops, AudioOps(s, step));
    ReachedWith(After(ops).arrived, PutBy(AudioOps(s, step)), InHand(s.demux, Audio), InHand(t.demux, Audio), read,
                ReadBy(Audio, s, step), AudioStale(s.demux), AudioStale(t.demux), s.epoch, t.epoch);
  }

  lemma {:induction false} VideoReachedStep(s: State, step: Step, ops: seq<Op>, read: seq<Packet>)
    requires Enabled(s, step) && HandIsMedia(s)
    requires Reached(After(ops).arrived, InHand(s.demux, Video), read, s.epoch, VideoStale(s.demux))
    ensures Reached(After(ops + VideoOps(s, step)).arrived, InHand(Do(s, step).demux, Video),
                    read + ReadBy(Video, s, step), Do(s, step).epoch, VideoStale(Do(s, step).demux))
  {
    var t := Do(s, step);
    VideoStepAgrees(s, step);
    ArrivedBy(ops, VideoOps(s, step));
    ReachedWith(After(ops).arrived, PutBy(VideoOps(s, step)), InHand(s.demux, Video), InHand(t.demux, Video), read,
                ReadBy(Video, s, step), VideoStale(s.demux), VideoStale(t.demux), s.epoch, t.epoch);
  }

  /** In every interleaving, what was read of a stream has reached its queue, whole and in order, but
      for the packet in the decode thread's hand; and so has one marker for each seek that the library
      made, but for the one that is due. */
  lemma {:induction false} WhatIsReadIsQueued(b: seq<State>, steps: seq<Step>, n: nat)
    requires Trace(b, steps) && n <= |steps|
    ensures var pc := b[n].demux;
            && Reached(After(AudioRun(b, steps, n)).arrived, InHand(pc, Audio), ReadOf(Audio, b, steps, n),
                       Seeks(b, steps, n), AudioStale(pc))
            && Reached(After(VideoRun(b, steps, n)).arrived, InHand(pc, Video), ReadOf(Video, b, steps, n),
                       Seeks(b, steps, n), VideoStale(pc))
  {
    SeeksAreCounted(b, steps, n);
    if n > 0 {
      WhatIsReadIsQueued(b, steps, n - 1);
      SeeksAreCounted(b, steps, n - 1);
      TraceIsBehavior(b, steps);
      Invariant(b, n - 1);
      AudioReachedStep(b[n - 1], steps[n - 1], AudioRun(b, steps, n - 1), ReadOf(Audio, b, steps, n - 1));
      VideoReachedStep(b[n - 1], steps[n - 1], VideoRun(b, steps, n - 1), ReadOf(Video, b, steps, n - 1));
    }
  }

  // ----- The threads move on -----

  /** How many steps of the decode thread it takes at most to get back to the top of its loop. */
  function StepsToTop(pc: DemuxPc): nat {
    match pc
    case Top => 0
    case Ended => 0
    case Queueing(_, _) => 1
    case Reading => 2
    case CheckVideo => 3
    case CheckAudio => 4
    case ClearRequest => 5
    case MarkVideo => 6
    case FlushVideo => 7
    case MarkAudio => 8
    case FlushAudio => 9
    case Seeking(_) => 10
    case SeekStart => 11
  }

  /** Each step of the decode thread takes it on. From the top it goes into a seek if and only if one
      is pending, which it then acts on within two steps; it reads if and only if neither queue is
      over its limit; and it ends exactly where the input does. */
  lemma {:induction false} DecodeThreadMovesOn(s: State, seekOk: bool, read: ReadResult)
    requires Enabled(s, Demux(seekOk, read))
    ensures var t := Do(s, Demux(seekOk, read));
            && (s.demux.Top? ==> t.demux == if s.seekReq then SeekStart else CheckAudio)
            && (!s.demux.Top? ==> StepsToTop(t.demux) < StepsToTop(s.demux))
            && (s.demux.SeekStart? ==> t.demux == Seeking(s.seekPos))
            && (s.demux.Seeking? ==> t.acted == s.acted + [Request(s.demux.target, s.seekFlags)])
            && (s.demux.CheckAudio? ==> (t.demux.CheckVideo? <==> |AllData(s.audioq)| <= 80 * 1024))
            && (s.demux.CheckVideo? ==> (t.demux.Reading? <==> |AllData(s.videoq)| <= 1280 * 1024))
            && (t.demux.Ended? <==> s.demux.Reading? && read == EndOfInput)
  {
    BytesAreOfData(s.audioq);
    BytesAreOfData(s.videoq);
  }

  function WritesToGo(pc: SeekerPc): nat {
    match pc
    case Idle => 0
    case FlagsWritten(_, _) => 1
    case PosWritten(_, _) => 2
    case Accepted(_, _) => 3
  }

  /** Each write of an accepted seek brings it nearer to being pending, and asking for another while
      one is pending changes nothing. */
  lemma {:induction false} SeekerMovesOn(s: State, step: Step)
    requires Enabled(s, step) && (step.AskSeek? || step.WritePos? || step.WriteFlags? || step.Publish?)
    ensures var t := Do(s, step);
            && (step.AskSeek? && s.seekReq ==> t == s)
            && (step.AskSeek? && !s.seekReq ==> WritesToGo(t.seeker) == 3)
            && (!step.AskSeek? ==> WritesToGo(t.seeker) == WritesToGo(s.seeker) - 1)
            && (step.Publish? ==> t.seekReq)
            && t.demux == s.demux
  {
  }

  /** A consumer takes the oldest packet and leaves the other queue alone. */
  lemma {:induction false} ConsumersTakeTheOldest(s: State, step: Step)
    requires Enabled(s, step) && (step.TakeAudio? || step.TakeVideo?)
    ensures var t := Do(s, step);
            && t.audioTaken + t.audioq == s.audioTaken + s.audioq
            && t.videoTaken + t.videoq == s.videoTaken + s.videoq
            && |t.audioTaken| == |s.audioTaken| + (if step.TakeAudio? then 1 else 0)
            && |t.videoTaken| == |s.videoTaken| + (if step.TakeVideo? then 1 else 0)
            && t.demux == s.demux && t.seeker == s.seeker && t.seekReq == s.seekReq
  {
  }

  // ----- A packet and a seek that get through -----

  /** A behaviour that goes on with this step. */
  lemma {:induction false} GoesOn(b: seq<State>, step: Step) returns (c: seq<State>)
    requires Behavior(b) && Enabled(b[|b| - 1], step)
    ensures Behavior(c) && |c| == |b| + 1 && c[0] == b[0] && c[|b|] == Do(b[|b| - 1], step)
  {
    c := b + [Do(b[|b| - 1], step)];
    forall i | 0 <= i < |c| - 1
      ensures Next(c[i], c[i + 1])
    {
      if i < |b| - 1 {
        assert c[i] == b[i] && c[i + 1] == b[i + 1];
      }
    }
  }

  /** From any initial state any packet of the file can come to be taken first. */
  lemma {:induction false} FirstPacketIsTaken(s: State, data: seq<Byte>, pts: Option<real>) returns (b: seq<State>)
    requires Init(s) && |data| <= s.largest
    ensures Behavior(b) && b[0] == s && b[|b| - 1].videoTaken == [Media(0, data, pts)] && b[|b| - 1].demux == Top
  {
    b := GoesOn([s], Demux(false, NoPacketYet));
    b := GoesOn(b, Demux(false, NoPacketYet));
    b := GoesOn(b, Demux(false, NoPacketYet));
    b := GoesOn(b, Demux(false, Read(Video, data, pts)));
    b := GoesOn(b, Demux(false, NoPacketYet));
    b := GoesOn(b, TakeVideo);
  }

  /** And any seek can come to be made first. */
  lemma {:induction false} FirstSeekIsMade(s: State, pos: int, rel: int) returns (b: seq<State>)
    requires Init(s)
    ensures Behavior(b) && b[0] == s && b[|b| - 1].epoch == 1
    ensures b[|b| - 1].acted == [Request(pos, if rel < 0 then 1 else 0)]
  {
    b := GoesOn([s], AskSeek(pos, rel));
    b := GoesOn(b, WritePos);
    b := GoesOn(b, WriteFlags);
    b := GoesOn(b, Publish);
    b := GoesOn(b, Demux(true, NoPacketYet));
    b := GoesOn(b, Demux(true, NoPacketYet));
    b := GoesOn(b, Demux(true, NoPacketYet));
  }
}
