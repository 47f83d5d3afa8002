/** The demuxing side of the player as a transition system: the decode thread, the user's seek
    requests, and the two consumers that take packets. Critical sections and single reads or
    writes of shared fields are the atomic steps; every interleaving of them is a behaviour. */
module Demuxer {
  import opened Packets
  import opened Sequences
  import opened Wrappers

  const MAX_AUDIOQ_SIZE: nat := 5 * 16 * 1024
  const MAX_VIDEOQ_SIZE: nat := 5 * 256 * 1024
  const AVSEEK_FLAG_BACKWARD := 1

  datatype Request = Request(pos: int, flags: int)

  function FlagsFor(rel: int): int {
    if rel < 0 then AVSEEK_FLAG_BACKWARD else 0
  }

  datatype Stream = Audio | Video | Other

  /** Where the main thread is inside a seek call. */
  datatype SeekerPc =
    | Idle
    | Accepted(pos: int, rel: int) | PosWritten(pos: int, rel: int) | FlagsWritten(pos: int, rel: int)

  /** Where the decode thread is inside its main loop. */
  datatype DemuxPc =
    | Top | SeekStart | Seeking(target: int)
    | FlushAudio | MarkAudio | FlushVideo | MarkVideo | ClearRequest
    | CheckAudio | CheckVideo | Reading | Queueing(pkt: Packet, stream: Stream) | Ended

  datatype State = State(
    seeker: SeekerPc,
    demux: DemuxPc,
    seekReq: bool, seekPos: int, seekFlags: int,
    audioq: seq<Packet>, videoq: seq<Packet>,
    largest: nat,              // no packet of the file is larger
    // history
    epoch: nat,                // seeks that succeeded
    accepted: seq<Request>,    // requests stored by the main thread
    acted: seq<Request>,       // requests handed to the demuxer library
    audioTaken: seq<Packet>,   // what the audio callback took off its queue
    videoTaken: seq<Packet>)   // what the video thread took off its queue

  predicate Init(s: State) {
    && s.seeker == Idle && s.demux == Top && !s.seekReq
    && s.audioq == [] && s.videoq == []
    && s.epoch == 0 && s.accepted == [] && s.acted == []
    && s.audioTaken == [] && s.videoTaken == []
  }

  datatype ReadResult = NoPacketYet | EndOfInput | Read(stream: Stream, data: seq<Byte>, pts: Option<real>)

  datatype Step =
    | AskSeek(pos: int, rel: int) | WritePos | WriteFlags | Publish
    | Demux(seekOk: bool, read: ReadResult)
    | TakeAudio | TakeVideo

  predicate Enabled(s: State, step: Step) {
    match step
    case AskSeek(_, _) => s.seeker.Idle?
    case WritePos => s.seeker.Accepted?
    case WriteFlags => s.seeker.PosWritten?
    case Publish => s.seeker.FlagsWritten?
    case Demux(_, read) => !s.demux.Ended? && (read.Read? ==> |read.data| <= s.largest)
    case TakeAudio => s.audioq != []
    case TakeVideo => s.videoq != []
  }

  function Do(s: State, step: Step): State
    requires Enabled(s, step)
  {
    match step
    case AskSeek(pos, rel) => if s.seekReq then s else s.(seeker := Accepted(pos, rel))
    case WritePos => s.(seekPos := s.seeker.pos, seeker := PosWritten(s.seeker.pos, s.seeker.rel))
    case WriteFlags =>
      s.(seekFlags := FlagsFor(s.seeker.rel), seeker := FlagsWritten(s.seeker.pos, s.seeker.rel))
    case Publish =>
      s.(seekReq := true, seeker := Idle,
         accepted := s.accepted + [Request(s.seeker.pos, FlagsFor(s.seeker.rel))])
    case Demux(seekOk, read) => DoDemux(s, seekOk, read)
    case TakeAudio => s.(audioq := s.audioq[1..], audioTaken := s.audioTaken + [s.audioq[0]])
    case TakeVideo => s.(videoq := s.videoq[1..], videoTaken := s.videoTaken + [s.videoq[0]])
  }

  /** One step of the decode thread. */
  function DoDemux(s: State, seekOk: bool, read: ReadResult): State
    requires !s.demux.Ended?
  {
    match s.demux
    case Top => s.(demux := if s.seekReq then SeekStart else CheckAudio)
    case SeekStart => s.(demux := Seeking(s.seekPos))
    case Seeking(target) =>
      var s' := s.(acted := s.acted + [Request(target, s.seekFlags)]);
      if seekOk then s'.(epoch := s.epoch + 1, demux := FlushAudio) else s'.(demux := ClearRequest)
    case FlushAudio => s.(audioq := [], demux := MarkAudio)
    case MarkAudio => s.(audioq := s.audioq + [FlushMarker], demux := FlushVideo)
    case FlushVideo => s.(videoq := [], demux := MarkVideo)
    case MarkVideo => s.(videoq := s.videoq + [FlushMarker], demux := ClearRequest)
    case ClearRequest => s.(seekReq := false, demux := CheckAudio)
    case CheckAudio => s.(demux := if Bytes(s.audioq) > MAX_AUDIOQ_SIZE then Top else CheckVideo)
    case CheckVideo => s.(demux := if Bytes(s.videoq) > MAX_VIDEOQ_SIZE then Top else Reading)
    case Reading =>
      (match read
       case NoPacketYet => s.(demux := Top)
       case EndOfInput => s.(demux := Ended)
       case Read(stream, data, pts) => s.(demux := Queueing(Media(s.epoch, data, pts), stream)))
    case Queueing(pkt, stream) =>
      (match stream
       case Video => s.(videoq := s.videoq + [pkt], demux := Top)
       case Audio => s.(audioq := s.audioq + [pkt], demux := Top)
       case Other => s.(demux := Top))
  }

  ghost predicate Next(s: State, t: State) {
    exists step :: Enabled(s, step) && t == Do(s, step)
  }

  ghost predicate Behavior(b: seq<State>) {
    && b != [] && Init(b[0])
    && forall i :: 0 <= i < |b| - 1 ==> Next(b[i], b[i + 1])
  }

  /** A behaviour with the steps that were taken. */
  ghost predicate Trace(b: seq<State>, steps: seq<Step>) {
    && |b| == |steps| + 1 && Init(b[0])
    && forall i :: 0 <= i < |steps| ==> Enabled(b[i], steps[i]) && b[i + 1] == Do(b[i], steps[i])
  }

  // ----- The seek handshake -----

  predicate InSeekSection(pc: DemuxPc) {
    pc.SeekStart? || pc.Seeking? || ActedOn(pc)
  }

  predicate ActedOn(pc: DemuxPc) {
    pc.FlushAudio? || pc.MarkAudio? || pc.FlushVideo? || pc.MarkVideo? || pc.ClearRequest?
  }

  predicate HandshakeInv(s: State) {
    && (!s.seeker.Idle? ==> !s.seekReq)
    && (s.seeker.PosWritten? ==> s.seekPos == s.seeker.pos)
    && (s.seeker.FlagsWritten? ==> s.seekPos == s.seeker.pos && s.seekFlags == FlagsFor(s.seeker.rel))
    && (InSeekSection(s.demux) ==> s.seekReq)
    && (s.demux.Seeking? ==> s.demux.target == s.seekPos)
    && s.accepted == if s.seekReq && !ActedOn(s.demux) then s.acted + [Request(s.seekPos, s.seekFlags)] else s.acted
  }

  lemma {:induction false} DemuxKeepsHandshake(s: State, seekOk: bool, read: ReadResult)
    requires HandshakeInv(s) && Enabled(s, Demux(seekOk, read))
    ensures HandshakeInv(DoDemux(s, seekOk, read))
  {
  }

  lemma {:induction false} HandshakeStep(s: State, step: Step)
    requires HandshakeInv(s) && Enabled(s, step)
    ensures HandshakeInv(Do(s, step))
  {
    if step.Demux? {
      DemuxKeepsHandshake(s, step.seekOk, step.read);
    }
  }

  // ----- The flush barrier -----

  /** Along `ps` tags never decrease, and a marker stands between any two different tags. */
  ghost predicate Barrier(ps: seq<Packet>) {
    forall i, j :: 0 <= i < j < |ps| && ps[i].Media? && ps[j].Media? ==>
      && ps[i].epoch <= ps[j].epoch
      && (ps[i].epoch < ps[j].epoch ==> exists k :: i < k < j && ps[k].FlushMarker?)
  }

  /** A packet of this epoch may follow `ps`: older packets are already fenced off by a marker. */
  ghost predicate Fenced(ps: seq<Packet>, epoch: nat) {
    forall i :: 0 <= i < |ps| && ps[i].Media? && ps[i].epoch != epoch ==>
      exists k :: i < k < |ps| && ps[k].FlushMarker?
  }

  ghost predicate UpTo(ps: seq<Packet>, epoch: nat) {
    forall i :: 0 <= i < |ps| && ps[i].Media? ==> ps[i].epoch <= epoch
  }

  predicate AudioStale(pc: DemuxPc) {
    pc.FlushAudio? || pc.MarkAudio?
  }

  predicate VideoStale(pc: DemuxPc) {
    AudioStale(pc) || pc.FlushVideo? || pc.MarkVideo?
  }

  /** What one stream's packets, taken and queued, keep. Between a successful seek and the
      marker for this stream nothing is fenced. */
  ghost predicate StreamInv(ps: seq<Packet>, epoch: nat, stale: bool) {
    Barrier(ps) && UpTo(ps, epoch) && (!stale ==> Fenced(ps, epoch))
  }

  ghost predicate BarrierInv(s: State) {
    && StreamInv(s.audioTaken + s.audioq, s.epoch, AudioStale(s.demux))
    && StreamInv(s.videoTaken + s.videoq, s.epoch, VideoStale(s.demux))
    && (s.demux.Queueing? ==> s.demux.pkt.Media? && s.demux.pkt.epoch == s.epoch)
  }

  lemma {:induction false} AppendMedia(ps: seq<Packet>, p: Packet, epoch: nat)
    requires StreamInv(ps, epoch, false) && p.Media? && p.epoch == epoch
    ensures StreamInv(ps + [p], epoch, false)
  {
    var qs := ps + [p];
    forall i, j | 0 <= i < j < |qs| && qs[i].Media? && qs[j].Media? && qs[i].epoch < qs[j].epoch
      ensures exists k :: i < k < j && qs[k].FlushMarker?
    {
      assert qs[i] == ps[i];
      if j < |ps| {
        assert ps[j] == qs[j];
        var k :| i < k < j && ps[k].FlushMarker?;
        assert qs[k].FlushMarker?;
      } else {
        var k :| i < k < |ps| && ps[k].FlushMarker?;
        assert qs[k].FlushMarker?;
      }
    }
    forall i | 0 <= i < |qs| && qs[i].Media? && qs[i].epoch != epoch
      ensures exists k :: i < k < |qs| && qs[k].FlushMarker?
    {
      assert qs[i] == ps[i];
      var k :| i < k < |ps| && ps[k].FlushMarker?;
      assert qs[k].FlushMarker?;
    }
  }

  lemma {:induction false} AppendMarker(ps: seq<Packet>, epoch: nat)
    requires StreamInv(ps, epoch, true)
    ensures StreamInv(ps + [FlushMarker], epoch, false)
  {
    var qs := ps + [FlushMarker];
    assert qs[|ps|].FlushMarker?;
    forall i, j | 0 <= i < j < |qs| && qs[i].Media? && qs[j].Media? && qs[i].epoch < qs[j].epoch
      ensures exists k :: i < k < j && qs[k].FlushMarker?
    {
      assert qs[i] == ps[i] && qs[j] == ps[j];
      var k :| i < k < j && ps[k].FlushMarker?;
      assert qs[k].FlushMarker?;
    }
  }

  lemma {:induction false} BarrierPrefix(ps: seq<Packet>, n: nat)
    requires Barrier(ps) && n <= |ps|
    ensures Barrier(ps[..n])
  {
  }

  /** Flushing a queue leaves only what was taken. */
  lemma {:induction false} DropQueue(taken: seq<Packet>, queue: seq<Packet>, epoch: nat)
    requires StreamInv(taken + queue, epoch, true)
    ensures StreamInv(taken + [], epoch, true)
  {
    BarrierPrefix(taken + queue, |taken|);
    assert (taken + queue)[..|taken|] == taken == taken + [];
    assert forall i :: 0 <= i < |taken| ==> (taken + queue)[i] == taken[i];
  }

  lemma {:induction false} DemuxKeepsBarrier(s: State, seekOk: bool, read: ReadResult)
    requires BarrierInv(s) && Enabled(s, Demux(seekOk, read))
    ensures BarrierInv(DoDemux(s, seekOk, read))
  {
    var t := DoDemux(s, seekOk, read);
    match s.demux {
      case FlushAudio => DropQueue(s.audioTaken, s.audioq, s.epoch);
      case FlushVideo => DropQueue(s.videoTaken, s.videoq, s.epoch);
      case MarkAudio =>
        AppendMarker(s.audioTaken + s.audioq, s.epoch);
        assert t.audioTaken + t.audioq == s.audioTaken + s.audioq + [FlushMarker];
      case MarkVideo =>
        AppendMarker(s.videoTaken + s.videoq, s.epoch);
        assert t.videoTaken + t.videoq == s.videoTaken + s.videoq + [FlushMarker];
      case Queueing(p, Video) =>
        AppendMedia(s.videoTaken + s.videoq, p, s.epoch);
        assert t.videoTaken + t.videoq == s.videoTaken + s.videoq + [p];
      case Queueing(p, Audio) =>
        AppendMedia(s.audioTaken + s.audioq, p, s.epoch);
        assert t.audioTaken + t.audioq == s.audioTaken + s.audioq + [p];
      case _ =>
    }
  }

  lemma {:induction false} BarrierStep(s: State, step: Step)
    requires BarrierInv(s) && Enabled(s, step)
    ensures BarrierInv(Do(s, step))
  {
    var t := Do(s, step);
    match step {
      case TakeAudio =>
        assert t.audioTaken + t.audioq == s.audioTaken + s.audioq;
      case TakeVideo =>
        assert t.videoTaken + t.videoq == s.videoTaken + s.videoq;
      case Demux(seekOk, read) => DemuxKeepsBarrier(s, seekOk, read);
      case _ =>
    }
  }

  // ----- The memory bound -----

  /** The size tests are made one after the other and without a lock, but only this thread adds. */
  predicate MemoryInv(s: State) {
    && Bytes(s.audioq) <= MAX_AUDIOQ_SIZE + s.largest
    && Bytes(s.videoq) <= MAX_VIDEOQ_SIZE + s.largest
    && (s.demux.CheckVideo? || s.demux.Reading? || s.demux.Queueing? ==> Bytes(s.audioq) <= MAX_AUDIOQ_SIZE)
    && (s.demux.Reading? || s.demux.Queueing? ==> Bytes(s.videoq) <= MAX_VIDEOQ_SIZE)
    && (s.demux.Queueing? ==> s.demux.pkt.Size() <= s.largest)
  }

  lemma {:induction false} MarkingKeepsMemory(s: State, seekOk: bool, read: ReadResult)
    requires MemoryInv(s) && (s.demux.MarkAudio? || s.demux.MarkVideo?)
    ensures MemoryInv(DoDemux(s, seekOk, read))
  {
    BytesOneMore(if s.demux.MarkAudio? then s.audioq else s.videoq, FlushMarker);
  }

  lemma {:induction false} QueueingKeepsMemory(s: State, seekOk: bool, read: ReadResult)
    requires MemoryInv(s) && s.demux.Queueing?
    ensures MemoryInv(DoDemux(s, seekOk, read))
  {
    BytesOneMore(if s.demux.stream == Audio then s.audioq else s.videoq, s.demux.pkt);
  }

  lemma {:induction false} FlushingKeepsMemory(s: State, seekOk: bool, read: ReadResult)
    requires MemoryInv(s) && (s.demux.FlushAudio? || s.demux.FlushVideo?)
    ensures MemoryInv(DoDemux(s, seekOk, read))
  {
  }

  /** The steps that leave both queues alone. */
  lemma {:induction false} TestingKeepsMemory(s: State, seekOk: bool, read: ReadResult)
    requires MemoryInv(s) && Enabled(s, Demux(seekOk, read)) && !s.demux.Queueing?
    requires !(s.demux.FlushAudio? || s.demux.FlushVideo? || s.demux.MarkAudio? || s.demux.MarkVideo?)
    ensures MemoryInv(DoDemux(s, seekOk, read))
  {
    var t := DoDemux(s, seekOk, read);
    assert t.audioq == s.audioq && t.videoq == s.videoq && t.largest == s.largest;
  }

  lemma {:induction false} DemuxKeepsMemory(s: State, seekOk: bool, read: ReadResult)
    requires MemoryInv(s) && Enabled(s, Demux(seekOk, read))
    ensures MemoryInv(DoDemux(s, seekOk, read))
  {
    if s.demux.MarkAudio? || s.demux.MarkVideo? {
      MarkingKeepsMemory(s, seekOk, read);
    } else if s.demux.Queueing? {
      QueueingKeepsMemory(s, seekOk, read);
    } else if s.demux.FlushAudio? || s.demux.FlushVideo? {
      FlushingKeepsMemory(s, seekOk, read);
    } else {
      TestingKeepsMemory(s, seekOk, read);
    }
  }

  lemma {:induction false} MemoryStep(s: State, step: Step)
    requires MemoryInv(s) && Enabled(s, step)
    ensures MemoryInv(Do(s, step))
  {
    if step.Demux? {
      DemuxKeepsMemory(s, step.seekOk, step.read);
    }
  }

  // ----- Every state of every behaviour -----

  /** A queue that was flushed is empty until its marker is put: nobody else adds. */
  predicate FlushedInv(s: State) {
    (s.demux.MarkAudio? ==> s.audioq == []) && (s.demux.MarkVideo? ==> s.videoq == [])
  }

  lemma {:induction false} FlushedStep(s: State, step: Step)
    requires FlushedInv(s) && Enabled(s, step)
    ensures FlushedInv(Do(s, step))
  {
  }

  ghost predicate Inv(s: State) {
    HandshakeInv(s) && BarrierInv(s) && MemoryInv(s) && FlushedInv(s)
  }

  lemma {:induction false} InvStep(s: State, t: State)
    requires Inv(s) && Next(s, t)
    ensures Inv(t)
  {
    var step :| Enabled(s, step) && t == Do(s, step);
    HandshakeStep(s, step);
    BarrierStep(s, step);
    MemoryStep(s, step);
    FlushedStep(s, step);
  }

  lemma {:induction false} Invariant(b: seq<State>, n: nat)
    requires Behavior(b) && n < |b|
    ensures Inv(b[n])
  {
    if n > 0 {
      Invariant(b, n - 1);
      InvStep(b[n - 1], b[n]);
    }
  }

  /** The flush barrier, for both consumers, in every interleaving. */
  lemma {:induction false} FlushBarrier(b: seq<State>, n: nat)
    requires Behavior(b) && n < |b|
    ensures Barrier(b[n].audioTaken) && Barrier(b[n].videoTaken)
  {
    Invariant(b, n);
    BarrierPrefix(b[n].audioTaken + b[n].audioq, |b[n].audioTaken|);
    BarrierPrefix(b[n].videoTaken + b[n].videoq, |b[n].videoTaken|);
    assert (b[n].audioTaken + b[n].audioq)[..|b[n].audioTaken|] == b[n].audioTaken;
    assert (b[n].videoTaken + b[n].videoq)[..|b[n].videoTaken|] == b[n].videoTaken;
  }

  /** What a consumer has fed its codec since it last reset it on a marker. */
  function SinceReset(taken: seq<Packet>): (fed: seq<Packet>) {
    if taken == [] || taken[|taken| - 1].FlushMarker? then []
    else SinceReset(taken[..|taken| - 1]) + [taken[|taken| - 1]]
  }

  lemma {:induction false} SinceResetIsSuffix(taken: seq<Packet>)
    ensures var fed := SinceReset(taken);
            && IsSuffix(fed, taken)
            && forall i :: 0 <= i < |fed| ==> fed[i].Media?
  {
    if taken != [] && taken[|taken| - 1].Media? {
      var before := SinceReset(taken[..|taken| - 1]);
      SinceResetIsSuffix(taken[..|taken| - 1]);
      SuffixAndLast(before, taken);
      assert SinceReset(taken) == before + [taken[|taken| - 1]];
    }
  }

  /** No codec is ever fed packets from both sides of a seek without a reset in between. */
  lemma {:induction false} CodecsNeverMixEpochs(b: seq<State>, n: nat, i: nat, j: nat)
    requires Behavior(b) && n < |b|
    ensures var fed := SinceReset(b[n].audioTaken);
            i < |fed| && j < |fed| ==> fed[i].Media? && fed[j].Media? && fed[i].epoch == fed[j].epoch
    ensures var fed := SinceReset(b[n].videoTaken);
            i < |fed| && j < |fed| ==> fed[i].Media? && fed[j].Media? && fed[i].epoch == fed[j].epoch
  {
    FlushBarrier(b, n);
    SameEpochSinceReset(b[n].audioTaken, i, j);
    SameEpochSinceReset(b[n].videoTaken, i, j);
  }

  lemma {:induction false} SameEpochSinceReset(taken: seq<Packet>, i: nat, j: nat)
    requires Barrier(taken)
    ensures var fed := SinceReset(taken);
            i < |fed| && j < |fed| ==> fed[i].Media? && fed[j].Media? && fed[i].epoch == fed[j].epoch
  {
    SinceResetIsSuffix(taken);
    var fed := SinceReset(taken);
    if i < |fed| && j < |fed| {
      SameEpochWithoutMarkers(taken, fed, i, j);
      SameEpochWithoutMarkers(taken, fed, j, i);
    }
  }

  /** What a codec was fed since its reset is at least as new as every packet taken so far. */
  lemma {:induction false} FedIsNewest(taken: seq<Packet>, k: nat, m: nat)
    requires Barrier(taken) && k < |taken| && taken[k].Media? && m < |SinceReset(taken)|
    ensures SinceReset(taken)[m].Media? && taken[k].epoch <= SinceReset(taken)[m].epoch
  {
    SinceResetIsSuffix(taken);
    SuffixIsNewest(taken, SinceReset(taken), k, m);
  }

  lemma {:induction false} SuffixIsNewest(taken: seq<Packet>, fed: seq<Packet>, k: nat, m: nat)
    requires Barrier(taken) && |fed| <= |taken| && fed == taken[|taken| - |fed|..]
    requires forall i :: 0 <= i < |fed| ==> fed[i].Media?
    requires k < |taken| && taken[k].Media? && m < |fed|
    ensures taken[k].epoch <= fed[m].epoch
  {
    var start := |taken| - |fed|;
    assert taken[start + m] == fed[m];
    if k > start + m {
      assert taken[k] == fed[k - start];
      SameEpochWithoutMarkers(taken, fed, m, k - start);
    }
  }

  lemma {:induction false} SameEpochWithoutMarkers(taken: seq<Packet>, fed: seq<Packet>, i: nat, j: nat)
    requires Barrier(taken) && |fed| <= |taken| && fed == taken[|taken| - |fed|..]
    requires forall k :: 0 <= k < |fed| ==> fed[k].Media?
    requires i < |fed| && j < |fed|
    ensures i < j ==> fed[i].epoch == fed[j].epoch
  {
  }

  /** Accepted requests are acted on once each, in order, with the position and flags they were
      accepted with; at most the last one is still to come, and then only while it is pending. */
  lemma {:induction false} SeeksActedOnOnce(b: seq<State>, n: nat)
    requires Behavior(b) && n < |b|
    ensures var s := b[n];
            && |s.acted| <= |s.accepted| <= |s.acted| + 1
            && s.acted == s.accepted[..|s.acted|]
            && (!s.seekReq ==> s.acted == s.accepted)
  {
    Invariant(b, n);
  }

  /** The seeks asked for while none was pending: where to, and with the flag for seeking backward
      (1) where the way there leads backward. */
  ghost function Asked(b: seq<State>, steps: seq<Step>, n: nat): seq<Request>
    requires Trace(b, steps) && n <= |steps|
  {
    if n == 0 then []
    else Asked(b, steps, n - 1)
         + match steps[n - 1]
           case AskSeek(pos, rel) => if b[n - 1].seekReq then [] else [Request(pos, if rel < 0 then 1 else 0)]
           case _ => []
  }

  /** All that was asked for has been accepted, but for the last while its fields are written. */
  ghost predicate AcceptedAsAsked(s: State, asked: seq<Request>) {
    match s.seeker
    case Idle => s.accepted == asked
    case Accepted(pos, rel) => asked == s.accepted + [Request(pos, if rel < 0 then 1 else 0)]
    case PosWritten(pos, rel) => asked == s.accepted + [Request(pos, if rel < 0 then 1 else 0)]
    case FlagsWritten(pos, rel) => asked == s.accepted + [Request(pos, if rel < 0 then 1 else 0)]
  }

  lemma {:induction false} TraceIsBehavior(b: seq<State>, steps: seq<Step>)
    requires Trace(b, steps)
    ensures Behavior(b)
  {
    forall i | 0 <= i < |b| - 1
      ensures Next(b[i], b[i + 1])
    {
      assert Enabled(b[i], steps[i]) && b[i + 1] == Do(b[i], steps[i]);
    }
  }

  lemma {:induction false} AcceptedStep(s: State, step: Step, asked: seq<Request>)
    requires Enabled(s, step) && AcceptedAsAsked(s, asked)
    ensures AcceptedAsAsked(Do(s, step), asked + match step
                                                 case AskSeek(pos, rel) =>
                                                   if s.seekReq then [] else [Request(pos, if rel < 0 then 1 else 0)]
                                                 case _ => [])
  {
    assert asked + [] == asked;
    if step.Demux? {
      assert Do(s, step).seeker == s.seeker && Do(s, step).accepted == s.accepted;
    }
  }

  lemma {:induction false} AllAreAccepted(b: seq<State>, steps: seq<Step>, n: nat)
    requires Trace(b, steps) && n <= |steps|
    ensures AcceptedAsAsked(b[n], Asked(b, steps, n))
  {
    if n > 0 {
      AllAreAccepted(b, steps, n - 1);
      AcceptedStep(b[n - 1], steps[n - 1], Asked(b, steps, n - 1));
    }
  }

  /** In every interleaving, each seek asked for while none is pending is accepted once its three
      writes are done, and the demuxer library is asked for just these seeks, in order: for the
      position asked for, and backward exactly where that was asked. */
  lemma {:induction false} SeeksAreThoseAsked(b: seq<State>, steps: seq<Step>, n: nat)
    requires Trace(b, steps) && n <= |steps|
    ensures var s, asked := b[n], Asked(b, steps, n);
            && |asked| == |s.accepted| + (if s.seeker.Idle? then 0 else 1)
            && s.accepted == asked[..|s.accepted|]
            && |s.acted| <= |asked| && s.acted == asked[..|s.acted|]
            && (s.seeker.Idle? && !s.seekReq ==> s.acted == asked)
  {
    TraceIsBehavior(b, steps);
    AllAreAccepted(b, steps, n);
    SeeksActedOnOnce(b, n);
    assert b[n].acted == b[n].accepted[..|b[n].acted|];
  }

  /** A request is accepted only when every earlier one has been acted on and cleared, and what
      the demuxer library is asked for is always the request accepted last. */
  lemma {:induction false} NoOverlap(b: seq<State>, n: nat)
    requires Behavior(b) && n + 1 < |b|
    ensures var s, t := b[n], b[n + 1];
            && (t.accepted != s.accepted ==> !s.seekReq && s.acted == s.accepted && !InSeekSection(s.demux))
            && (t.acted != s.acted ==> s.accepted != [] && t.acted == s.acted + [s.accepted[|s.accepted| - 1]])
  {
    Invariant(b, n);
    assert Next(b[n], b[n + 1]);
    var step :| Enabled(b[n], step) && b[n + 1] == Do(b[n], step);
  }

  /** The data in the two queues stay within 80 and 1280 kilobytes plus one packet. */
  lemma {:induction false} MemoryBound(b: seq<State>, n: nat)
    requires Behavior(b) && n < |b|
    ensures |AllData(b[n].audioq)| <= 80 * 1024 + b[n].largest
    ensures |AllData(b[n].videoq)| <= 1280 * 1024 + b[n].largest
  {
    Invariant(b, n);
    BytesAreOfData(b[n].audioq);
    BytesAreOfData(b[n].videoq);
  }
}
