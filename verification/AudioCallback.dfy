/** The audio callback and what it calls, in place on the player's fields and buffers. */
module AudioCallback {
  import opened Arithmetic
  import opened AudioOutput
  import opened Clocks
  import opened Packets
  import opened Sequences
  import opened Wrappers

  datatype DecodeResult = Decoded(size: nat) | Failed | Waiting

  predicate CodecFits(replies: seq<Reply>, length: nat) {
    forall i :: 0 <= i < |replies| && replies[i].Consumed? ==> |replies[i].samples| <= length
  }

  method CopyBytes(from: array<Sample>, i: nat, to: array<Sample>, j: nat, n: nat)
    requires from != to && i + n <= from.Length && j + n <= to.Length
    modifies to
    ensures to[..j + n] == old(to[..j]) + from[i..i + n]
  {
    forall k | 0 <= k < n {
      to[j + k] := from[i + k];
    }
  }

  class AudioState {
    const cfg: Config
    const audioBuf: array<Sample>
    var audioBufSize: nat
    var audioBufIndex: nat
    var pkt: seq<Byte>           // what is left of the packet under way
    var audioClock: real
    var audioDiffCum: real
    var audioDiffAvgCount: nat
    // the outside world: packets to come, the codec's answers, readings of the master clock
    var inbox: seq<Packet>
    var quit: bool
    var replies: seq<Reply>
    var refClocks: seq<real>

    /** The index never passes the size, nor the size the buffer; the codec respects the buffer. */
    ghost predicate Valid()
      reads this, audioBuf
    {
      && cfg.Valid()
      && audioBufIndex <= audioBufSize <= audioBuf.Length
      && SILENCE_BYTES <= audioBuf.Length
      && CodecFits(replies, audioBuf.Length)
    }

    ghost function Dec(): Decoder
      reads this
    {
      Decoder(pkt, inbox, quit, replies, audioClock)
    }

    ghost function Sy(): Sync
      reads this
    {
      Sync(audioDiffCum, audioDiffAvgCount, refClocks)
    }

    ghost function Src(): Source
      reads this
    {
      Source(Dec(), Sy())
    }

    /** What the buffer still holds between callbacks. */
    ghost function Left(): seq<Sample>
      requires Valid()
      reads this, audioBuf
    {
      audioBuf[audioBufIndex..audioBufSize]
    }

    constructor (cfg: Config, length: nat, inbox: seq<Packet>, quit: bool, replies: seq<Reply>, refClocks: seq<real>)
      requires cfg.Valid() && SILENCE_BYTES <= length && CodecFits(replies, length)
      ensures Valid() && fresh(audioBuf) && audioBuf.Length == length && Left() == []
      ensures Src() == Source(Decoder([], inbox, quit, replies, 0.0), Sync(0.0, 0, refClocks)) && this.cfg == cfg
    {
      this.cfg := cfg;
      audioBuf := new Sample[length](_ => SILENT);
      audioBufSize, audioBufIndex, pkt := 0, 0, [];
      audioClock, audioDiffCum, audioDiffAvgCount := 0.0, 0.0, 0;
      this.inbox, this.quit, this.replies, this.refClocks := inbox, quit, replies, refClocks;
    }

    method DecodeFrame() returns (r: DecodeResult)
      requires Valid()
      modifies this`pkt, this`inbox, this`replies, this`audioClock, audioBuf
      ensures Valid()
      ensures match NextDecoded(cfg, old(Dec()))
              case Blocks => r == Waiting
              case Silence(d) => r == Failed && Dec() == d
              case Chunk(bytes, d) => r == Decoded(|bytes|) && Dec() == d
                                      && |bytes| <= audioBuf.Length && audioBuf[..|bytes|] == bytes
    {
      while true
        invariant Valid()
        invariant NextDecoded(cfg, Dec()) == NextDecoded(cfg, old(Dec()))
        decreases |replies| + |inbox|
      {
        ghost var top := Dec();
        while |pkt| > 0
          invariant Valid()
          invariant inbox == top.inbox && |replies| <= |top.replies|
          invariant NextDecoded(cfg, Dec()) == NextDecoded(cfg, old(Dec()))
          decreases |replies|
        {
          if replies == [] {
            return Waiting;
          }
          var reply := replies[0];
          replies := replies[1..];
          if reply.DecodeError? {
            pkt := [];
            break;
          }
          pkt := Rest(pkt, reply.n);
          if reply.samples == [] {
            continue;
          }
          forall i | 0 <= i < |reply.samples| {
            audioBuf[i] := reply.samples[i];
          }
          audioClock := audioClock + Duration(cfg, |reply.samples|);
          return Decoded(|reply.samples|);
        }
        if inbox == [] {
          return if quit then Failed else Waiting;
        }
        var arrival := inbox[0];
        inbox := inbox[1..];
        if arrival.FlushMarker? {
          continue;
        }
        pkt := arrival.data;
        if arrival.pts.Some? {
          audioClock := arrival.pts.value;
        }
      }
    }

    /** The correction of a chunk's size. Lengthening it is the case that cannot occur. */
    method CorrectSize(size: nat, diff: real) returns (newSize: nat)
      requires cfg.Valid()
      ensures newSize == Corrected(size, size + BytesOff(cfg, diff))
      ensures newSize <= size
    {
      var wantedSize := size + FramesOff(cfg, diff) * cfg.FrameBytes();
      CorrectedIsClamped(size, wantedSize);
      var minSize := size * ((100 - SAMPLE_CORRECTION_PERCENT_MAX) / 100);
      var maxSize := size * ((100 + SAMPLE_CORRECTION_PERCENT_MAX) / 100);
      assert minSize == 0 && maxSize == size;
      if wantedSize < minSize {
        wantedSize := minSize;
      } else if wantedSize > maxSize {
        wantedSize := maxSize;
      }
      newSize := if wantedSize < size then wantedSize else size;
    }

    /** The time stamp of what the device plays now: the decoder's clock less what waits in the buffer. */
    function AudioClock(): real
      requires cfg.Valid() && audioBufIndex <= audioBufSize
      reads this
    {
      audioClock - Duration(cfg, audioBufSize - audioBufIndex)
    }

    /** Takes a difference into the average; tells whether the average is too large. */
    method Average(diff: real) returns (deviates: bool)
      modifies this`audioDiffCum, this`audioDiffAvgCount
      ensures deviates == Deviates(cfg, old(Sy()), diff)
      ensures audioDiffCum == Accumulated(cfg, old(Sy()), diff)
      ensures audioDiffAvgCount == if old(audioDiffAvgCount) < AUDIO_DIFF_AVG_NB then old(audioDiffAvgCount) + 1
                                   else old(audioDiffAvgCount)
    {
      audioDiffCum := diff + cfg.coef * audioDiffCum;
      if audioDiffAvgCount < AUDIO_DIFF_AVG_NB {
        audioDiffAvgCount := audioDiffAvgCount + 1;
        deviates := false;
      } else {
        var avgDiff := audioDiffCum * (1.0 - cfg.coef);
        deviates := AbsReal(avgDiff) >= cfg.threshold;
      }
    }

    /** Called when nothing waits in the buffer, so that both clocks agree. */
    method Synchronize(size: nat) returns (newSize: nat)
      requires Valid() && audioBufIndex == audioBufSize
      modifies this`audioDiffCum, this`audioDiffAvgCount, this`refClocks
      ensures newSize <= size && newSize == PlayedSize(cfg, old(Sy()), audioClock, size)
      ensures Sy() == NextSync(cfg, old(Sy()), audioClock)
    {
      newSize := size;
      if cfg.sync != AudioMaster {
        NothingTakesNoTime(cfg);
        var diff := AudioClock() - (if refClocks == [] then 0.0 else refClocks[0]);
        if diff < AV_NOSYNC_THRESHOLD {
          var deviates := Average(diff);
          if deviates {
            newSize := CorrectSize(size, diff);
          }
        } else {
          audioDiffAvgCount := 0;
          audioDiffCum := 0.0;
        }
        refClocks := if refClocks == [] then [] else refClocks[1..];
      }
    }

    /** The refill inside the callback, when everything in the buffer has been sent. */
    method RefillBuffer() returns (ok: bool)
      requires Valid() && audioBufIndex == audioBufSize
      modifies this, audioBuf
      ensures Valid()
      ensures !ok ==> NextDecoded(cfg, old(Dec())).Blocks?
      ensures ok ==> Refill(cfg, old(Src()), Left(), Src())
    {
      var r := DecodeFrame();
      match r {
        case Waiting =>
          return false;
        case Failed =>
          audioBufSize := SILENCE_BYTES;
          forall i | 0 <= i < SILENCE_BYTES {
            audioBuf[i] := SILENT;
          }
          assert audioBuf[..SILENCE_BYTES] == Zeros(SILENCE_BYTES);
        case Decoded(size) =>
          ghost var decoded := audioBuf[..size];
          var newSize := Synchronize(size);
          audioBufSize, audioBufIndex := newSize, 0;
          assert audioBuf[..newSize] == decoded[..newSize];
      }
      audioBufIndex := 0;
      ok := true;
    }

    /** Moves what fits from the buffer to the stream. */
    method CopyOut(stream: array<Sample>, pos: nat) returns (len1: nat)
      requires Valid() && stream != audioBuf && pos < stream.Length
      modifies this`audioBufIndex, stream
      ensures Valid() && Src() == old(Src())
      ensures len1 == (if |old(Left())| > stream.Length - pos then stream.Length - pos else |old(Left())|)
      ensures stream[..pos + len1] == old(stream[..pos]) + old(Left())[..len1]
      ensures Left() == old(Left())[len1..]
    {
      ghost var all, first := audioBuf[..], audioBufIndex;
      len1 := audioBufSize - audioBufIndex;
      if len1 > stream.Length - pos {
        len1 := stream.Length - pos;
      }
      CopyBytes(audioBuf, audioBufIndex, stream, pos, len1);
      assert audioBuf[..] == all;
      PartsOfSlice(all, first, audioBufSize, len1);
      audioBufIndex := audioBufIndex + len1;
    }

    /** Fills the whole stream, or never returns because neither a packet nor a sample comes.
        `p` records the refills. */
    method Callback(stream: array<Sample>) returns (returned: bool, ghost p: Played)
      requires Valid() && stream != audioBuf
      modifies this, audioBuf, stream
      ensures Valid()
      ensures returned ==>
                && Delivers(cfg, old(Left()), old(Src()), stream.Length, p)
                && p.out == stream[..] && p.left == Left() && p.srcs[|p.chunks|] == Src()
      ensures !returned ==>
                && Refills(cfg, p.srcs, p.chunks) && p.srcs[0] == old(Src())
                && |old(Left()) + Concat(p.chunks)| < stream.Length
                && NextDecoded(cfg, p.srcs[|p.chunks|].dec).Blocks?
    {
      ghost var left0 := Left();
      p := Played([], left0, [], [Src()]);
      var pos := 0;
      while pos < stream.Length
        invariant Valid() && 0 <= pos <= stream.Length
        invariant Underway(cfg, left0, old(Src()), pos, stream.Length, p, Left(), Src())
        invariant p.out == stream[..pos]
        decreases |replies|, stream.Length - pos, Left() == []
      {
        if audioBufIndex >= audioBufSize {
          ghost var before := Src();
          assert Left() == [];
          var ok := RefillBuffer();
          if !ok {
            return false, p;
          }
          RefillProgresses(cfg, before, Left(), Src());
          p := AfterRefill(cfg, left0, old(Src()), stream.Length, p, Left(), Src());
        } else {
          var len1 := CopyOut(stream, pos);
          p := AfterCopy(cfg, left0, old(Src()), stream.Length, p, len1);
          pos := pos + len1;
        }
      }
      returned := true;
      assert stream[..pos] == stream[..];
    }
  }

  /** The device asks for one stream after the other, of these lengths. The callbacks that return
      make up a run, so that what was heard, followed by what the buffer still holds, is what it
      held at first followed by the successive refills. After one that does not return there is
      no other. */
  method Play(st: AudioState, lens: seq<nat>) returns (heard: seq<Sample>, ghost ps: seq<Played>)
    requires st.Valid()
    modifies st, st.audioBuf
    ensures st.Valid()
    ensures Run(st.cfg, old(st.Left()), old(st.Src()), ps) && heard == Outputs(ps)
    ensures |ps| <= |lens| && forall i :: 0 <= i < |ps| ==> |ps[i].out| == lens[i]
    ensures |ps| == |lens| ==> st.Left() == LastLeft(old(st.Left()), ps)
    ensures old(st.Left()) + Concat(Chunks(ps)) == heard + LastLeft(old(st.Left()), ps)
    decreases |lens|
  {
    ghost var left, src := st.Left(), st.Src();
    heard, ps := [], [];
    assert Run(st.cfg, left, src, ps);
    if lens != [] {
      var stream := new Sample[lens[0]](_ => SILENT);
      var returned;
      ghost var p;
      returned, p := st.Callback(stream);
      if returned {
        ghost var later;
        heard, later := Play(st, lens[1..]);
        heard, ps := stream[..] + heard, [p] + later;
        FirstOfRun(st.cfg, left, src, p, later);
      }
    }
    ghost var _ := Rechunking(st.cfg, left, src, ps);
  }

  lemma {:induction false} FirstOfRun(cfg: Config, left: seq<Sample>, s: Source, p: Played, later: seq<Played>)
    requires cfg.Valid() && Delivers(cfg, left, s, |p.out|, p)
    requires Run(cfg, p.left, p.srcs[|p.chunks|], later)
    ensures Run(cfg, left, s, [p] + later) && Outputs([p] + later) == p.out + Outputs(later)
    ensures LastLeft(left, [p] + later) == LastLeft(p.left, later)
  {
    assert ([p] + later)[1..] == later;
  }

  /** The loop invariant: what `Delivers` says, with `pos` of `len` bytes written. */
  ghost predicate Underway(cfg: Config, left0: seq<Sample>, s: Source, pos: nat, len: nat, p: Played,
                           left: seq<Sample>, t: Source)
    requires cfg.Valid()
  {
    && |p.out| == pos
    && Refills(cfg, p.srcs, p.chunks) && p.srcs[0] == s && p.srcs[|p.chunks|] == t
    && left0 + Concat(p.chunks) == p.out + p.left && p.left == left
    && (p.chunks != [] ==> |left0 + Concat(p.chunks[..|p.chunks| - 1])| < len)
  }

  lemma {:induction false} RefillProgresses(cfg: Config, s: Source, bytes: seq<Sample>, t: Source)
    requires cfg.Valid() && Refill(cfg, s, bytes, t)
    ensures |t.dec.replies| < |s.dec.replies| || (|t.dec.replies| <= |s.dec.replies| && bytes != [])
  {
    ChunkIsWhatTheCodecProduced(cfg, s.dec);
  }

  lemma {:induction false} RefillsExtend(cfg: Config, srcs: seq<Source>, chunks: seq<seq<Sample>>,
                                         bytes: seq<Sample>, u: Source)
    requires cfg.Valid() && Refills(cfg, srcs, chunks) && Refill(cfg, srcs[|chunks|], bytes, u)
    ensures Refills(cfg, srcs + [u], chunks + [bytes])
  {
  }

  lemma {:induction false} ConcatOneMore(chunks: seq<seq<Sample>>, bytes: seq<Sample>)
    ensures Concat(chunks + [bytes]) == Concat(chunks) + bytes
  {
    ConcatAppend(chunks, [bytes]);
    NothingAdded(bytes);
  }

  lemma {:induction false} AfterRefill(cfg: Config, left0: seq<Sample>, s: Source, len: nat, p: Played,
                                       bytes: seq<Sample>, u: Source)
    returns (q: Played)
    requires cfg.Valid() && p.srcs != [] && Underway(cfg, left0, s, |p.out|, len, p, [], p.srcs[|p.srcs| - 1])
    requires |p.out| < len && Refill(cfg, p.srcs[|p.srcs| - 1], bytes, u)
    ensures Underway(cfg, left0, s, |p.out|, len, q, bytes, u) && q.out == p.out
  {
    q := Played(p.out, bytes, p.chunks + [bytes], p.srcs + [u]);
    RefillsExtend(cfg, p.srcs, p.chunks, bytes, u);
    ConcatOneMore(p.chunks, bytes);
    Assoc(left0, Concat(p.chunks), bytes);
    NothingAdded(p.out);
    SliceOfFront(p.chunks, [bytes], 0, |p.chunks|);
  }

  lemma {:induction false} AfterCopy(cfg: Config, left0: seq<Sample>, s: Source, len: nat, p: Played, k: nat)
    returns (q: Played)
    requires cfg.Valid() && p.srcs != [] && k <= |p.left|
    requires Underway(cfg, left0, s, |p.out|, len, p, p.left, p.srcs[|p.srcs| - 1])
    ensures Underway(cfg, left0, s, |p.out| + k, len, q, p.left[k..], p.srcs[|p.srcs| - 1])
    ensures q.out == p.out + p.left[..k]
  {
    q := p.(out := p.out + p.left[..k], left := p.left[k..]);
    Assoc(p.out, p.left[..k], p.left[k..]);
  }
}
