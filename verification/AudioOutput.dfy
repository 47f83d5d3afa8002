/** The audio side on values: how chunks are decoded, shortened to keep in sync, and cut anew
    into exactly as many bytes as the device asks for. */
module AudioOutput {
  import opened Arithmetic
  import opened Clocks
  import opened Packets
  import opened Sequences
  import opened Wrappers

  const SAMPLE_CORRECTION_PERCENT_MAX := 10
  const AUDIO_DIFF_AVG_NB := 20
  const SILENCE_BYTES: nat := 1024
  const SILENT := Sample(0, None)

  /** A byte of sound. `origin` is a history tag: the epoch of the packet it was decoded from. */
  datatype Sample = Sample(value: Byte, origin: Option<nat>)

  /** The codec's answer to one call: how much of the offered input it consumed (a larger number
      stands for all of it) and the samples it produced. */
  datatype Reply = DecodeError | Consumed(n: nat, samples: seq<Sample>)
  {
    function Samples(): seq<Sample> {
      if Consumed? then samples else []
    }
  }

  /** What does not change while the stream plays. */
  datatype Config = Config(sync: SyncType, channels: nat, sampleRate: nat, coef: real, threshold: real)
  {
    predicate Valid() { channels >= 1 && sampleRate >= 1 }
    function FrameBytes(): nat { 2 * channels }
  }

  /** The packet under way, the packets the queue is still to give, whether quitting is seen after
      them, the codec's answers to come, and the audio clock. */
  datatype Decoder = Decoder(pkt: seq<Byte>, inbox: seq<Packet>, quit: bool, replies: seq<Reply>, clock: real)

  /** The averaging state, and the master clock as it will be read, one reading a call; when no
      reading is left the clock stands still at zero. */
  datatype Sync = Sync(diffCum: real, avgCount: nat, refClocks: seq<real>)
  {
    function Now(): real { if refClocks == [] then 0.0 else refClocks[0] }
    function Later(): Sync { if refClocks == [] then this else this.(refClocks := refClocks[1..]) }
  }

  // ----- Decoding -----

  datatype Outcome = Chunk(bytes: seq<Sample>, dec: Decoder) | Silence(dec: Decoder) | Blocks

  function Rest(pkt: seq<Byte>, n: nat): seq<Byte> {
    if n <= |pkt| then pkt[n..] else []
  }

  function Duration(cfg: Config, bytes: nat): real
    requires cfg.Valid()
  {
    bytes as real / (cfg.FrameBytes() * cfg.sampleRate) as real
  }

  lemma {:induction false} NothingTakesNoTime(cfg: Config)
    requires cfg.Valid()
    ensures Duration(cfg, 0) == 0.0
  {
  }

  /** After one answer of the codec: on an error the rest of the packet is skipped. */
  function Answered(d: Decoder): Decoder
    requires d.replies != []
  {
    d.(pkt := if d.replies[0].DecodeError? then [] else Rest(d.pkt, d.replies[0].n), replies := d.replies[1..])
  }

  /** The next packet is the one under way; a marker leaves none, and a time stamp sets the clock. */
  function Fetched(d: Decoder): Decoder
    requires d.inbox != []
  {
    match d.inbox[0]
    case FlushMarker => d.(pkt := [], inbox := d.inbox[1..])
    case Media(_, data, pts) => d.(pkt := data, inbox := d.inbox[1..], clock := pts.GetOr(d.clock))
  }

  /** The next chunk the decoder delivers: the packet under way is offered to the codec until it
      yields samples, fails, or is used up; then the next packet is fetched. */
  function NextDecoded(cfg: Config, d: Decoder): Outcome
    requires cfg.Valid()
    decreases |d.replies| + |d.inbox|
  {
    if d.pkt != [] then
      if d.replies == [] then Blocks
      else if d.replies[0].Samples() == [] then NextDecoded(cfg, Answered(d))
      else
        var samples := d.replies[0].Samples();
        Chunk(samples, Answered(d).(clock := d.clock + Duration(cfg, |samples|)))
    else if d.inbox == [] then if d.quit then Silence(d) else Blocks
    else NextDecoded(cfg, Fetched(d))
  }

  function SamplesOf(rs: seq<Reply>): seq<Sample> {
    if rs == [] then [] else rs[0].Samples() + SamplesOf(rs[1..])
  }

  /** Decoding loses nothing, repeats nothing and reorders nothing: a chunk is exactly what the
      codec has produced since the chunk before, and it is never empty. Silence means nothing was
      produced. */
  lemma {:induction false} ChunkIsWhatTheCodecProduced(cfg: Config, d: Decoder)
    requires cfg.Valid()
    ensures match NextDecoded(cfg, d)
            case Blocks => true
            case Silence(d') => |d'.replies| <= |d.replies| && SamplesOf(d.replies) == SamplesOf(d'.replies)
            case Chunk(bytes, d') =>
              && bytes != []
              && |d'.replies| < |d.replies| && IsSuffix(d'.replies, d.replies)
              && SamplesOf(d.replies) == bytes + SamplesOf(d'.replies)
    decreases |d.replies| + |d.inbox|
  {
    if d.pkt != [] {
      if d.replies != [] && d.replies[0].Samples() == [] {
        ChunkIsWhatTheCodecProduced(cfg, Answered(d));
        assert SamplesOf(d.replies) == SamplesOf(d.replies[1..]);
        if NextDecoded(cfg, d).Chunk? {
          SuffixOfRest(NextDecoded(cfg, d).dec.replies, d.replies);
        }
      }
    } else if d.inbox != [] {
      ChunkIsWhatTheCodecProduced(cfg, Fetched(d));
    }
  }

  // ----- What the codec is offered -----

  /** How much these answers say they consumed. */
  function Eaten(rs: seq<Reply>): nat {
    if rs == [] then 0 else Eaten(rs[..|rs| - 1]) + if rs[|rs| - 1].Consumed? then rs[|rs| - 1].n else 0
  }

  /** What is left of a packet for which these answers were given: what they did not consume, but
      nothing behind an error. */
  function LeftOf(data: seq<Byte>, rs: seq<Reply>): seq<Byte> {
    if rs != [] && rs[|rs| - 1].DecodeError? then []
    else if Eaten(rs) >= |data| then []
    else data[Eaten(rs)..]
  }

  /** Each of these answers was given while something of the packet was left. */
  ghost predicate GivenFor(data: seq<Byte>, rs: seq<Reply>) {
    forall k :: 0 <= k < |rs| ==> LeftOf(data, rs[..k]) != []
  }

  /** The data of a packet; a marker has none. */
  function DataOf(p: Packet): seq<Byte> {
    if p.Media? then p.data else []
  }

  /** `groups` are the answers given for `data` and then for one packet after the other. Each packet
      is used up before the next is fetched; `left` is what is left of the last. */
  ghost predicate Offered(data: seq<Byte>, ps: seq<Packet>, groups: seq<seq<Reply>>, left: seq<Byte>)
    decreases |ps|
  {
    && |groups| == |ps| + 1 && GivenFor(data, groups[0])
    && if ps == [] then left == LeftOf(data, groups[0])
       else LeftOf(data, groups[0]) == [] && Offered(DataOf(ps[0]), ps[1..], groups[1..], left)
  }

  function AllOf(groups: seq<seq<Reply>>): seq<Reply> {
    if groups == [] then [] else groups[0] + AllOf(groups[1..])
  }

  ghost predicate Silent(rs: seq<Reply>) {
    forall k :: 0 <= k < |rs| ==> rs[k].Samples() == []
  }

  lemma {:induction false} EatenCons(r: Reply, rs: seq<Reply>)
    ensures Eaten([r] + rs) == (if r.Consumed? then r.n else 0) + Eaten(rs)
  {
    if rs == [] {
      assert [r] + rs == [r] && [r][..0] == [];
    } else {
      assert ([r] + rs)[..|rs|] == [r] + rs[..|rs| - 1];
      EatenCons(r, rs[..|rs| - 1]);
    }
  }

  lemma {:induction false} LeftOfCons(data: seq<Byte>, r: Reply, rs: seq<Reply>)
    requires r.Consumed?
    ensures LeftOf(data, [r] + rs) == LeftOf(Rest(data, r.n), rs)
  {
    EatenCons(r, rs);
  }

  /** An answer for a packet and the answers for what it left of it. */
  lemma {:induction false} GivenForCons(data: seq<Byte>, r: Reply, rs: seq<Reply>)
    requires data != [] && GivenFor(if r.DecodeError? then [] else Rest(data, r.n), rs)
    ensures GivenFor(data, [r] + rs)
    ensures LeftOf(data, [r] + rs) == LeftOf(if r.DecodeError? then [] else Rest(data, r.n), rs)
  {
    var rest := if r.DecodeError? then [] else Rest(data, r.n);
    if r.DecodeError? && rs != [] {
      assert LeftOf(rest, rs[..0]) != [];
    }
    if r.Consumed? {
      LeftOfCons(data, r, rs);
    }
    var all := [r] + rs;
    forall k | 0 <= k < |all|
      ensures LeftOf(data, all[..k]) != []
    {
      if k > 0 {
        assert all[..k] == [r] + rs[..k - 1];
        LeftOfCons(data, r, rs[..k - 1]);
        assert LeftOf(rest, rs[..k - 1]) != [];
      }
    }
  }

  lemma {:induction false} SilentCons(r: Reply, rs: seq<Reply>)
    requires r.Samples() == [] && Silent(rs)
    ensures Silent([r] + rs)
  {
  }

  /** What one call of the decoder did: the answers `groups` it took, packet by packet. */
  ghost predicate Explains(d: Decoder, o: Outcome, groups: seq<seq<Reply>>, m: nat, k: nat, left: seq<Byte>) {
    && m <= |d.inbox| && k <= |d.replies|
    && AllOf(groups) == d.replies[..k] && Offered(d.pkt, d.inbox[..m], groups, left)
    && match o
       case Chunk(bytes, d') =>
         && k > 0 && Silent(d.replies[..k - 1]) && bytes == d.replies[k - 1].Samples()
         && d' == Decoder(left, d.inbox[m..], d.quit, d.replies[k..], d'.clock)
       case Silence(d') =>
         && Silent(d.replies[..k]) && left == [] && m == |d.inbox| && d.quit
         && d' == Decoder([], [], d.quit, d.replies[k..], d'.clock)
       case Blocks =>
         Silent(d.replies[..k]) && if left != [] then k == |d.replies| else m == |d.inbox| && !d.quit
  }

  lemma {:induction false} AnswerOffered(d: Decoder, groups: seq<seq<Reply>>, ps: seq<Packet>, left: seq<Byte>)
    requires d.pkt != [] && d.replies != [] && groups != [] && Offered(Answered(d).pkt, ps, groups, left)
    ensures var all := [[d.replies[0]] + groups[0]] + groups[1..];
            Offered(d.pkt, ps, all, left) && AllOf(all) == [d.replies[0]] + AllOf(groups)
  {
    var all := [[d.replies[0]] + groups[0]] + groups[1..];
    GivenForCons(d.pkt, d.replies[0], groups[0]);
    assert all[1..] == groups[1..];
    Assoc([d.replies[0]], groups[0], AllOf(groups[1..]));
  }

  lemma {:induction false} FirstAndMore(rs: seq<Reply>, k: nat)
    requires rs != [] && k <= |rs| - 1
    ensures rs[..k + 1] == [rs[0]] + rs[1..][..k] && rs[1..][k..] == rs[k + 1..]
  {
  }

  lemma {:induction false} AnswerExplains(d: Decoder, o: Outcome, groups: seq<seq<Reply>>, m: nat, k: nat,
                                          left: seq<Byte>)
    requires d.pkt != [] && d.replies != [] && d.replies[0].Samples() == []
    requires groups != [] && Explains(Answered(d), o, groups, m, k, left)
    ensures Explains(d, o, [[d.replies[0]] + groups[0]] + groups[1..], m, k + 1, left)
  {
    var r, later := d.replies[0], d.replies[1..];
    AnswerOffered(d, groups, d.inbox[..m], left);
    FirstAndMore(d.replies, k);
    if o.Chunk? {
      FirstAndMore(d.replies, k - 1);
      SilentCons(r, later[..k - 1]);
    } else {
      SilentCons(r, later[..k]);
    }
  }

  lemma {:induction false} SamplesExplain(cfg: Config, d: Decoder)
    requires cfg.Valid() && d.pkt != [] && d.replies != [] && d.replies[0].Samples() != []
    ensures Explains(d, NextDecoded(cfg, d), [[d.replies[0]]], 0, 1, Answered(d).pkt)
  {
    var r := d.replies[0];
    GivenForCons(d.pkt, r, []);
    assert [r] + [] == [r] == d.replies[..1];
    assert [[r]][0] == [r] && AllOf([[r]][1..]) == [];
    NothingAdded([r]);
  }

  lemma {:induction false} NothingExplains(cfg: Config, d: Decoder)
    requires cfg.Valid() && if d.pkt != [] then d.replies == [] else d.inbox == []
    ensures Explains(d, NextDecoded(cfg, d), [[]], 0, 0, d.pkt)
  {
    var none: seq<Reply> := [];
    assert [none][1..] == [] && AllOf([none]) == none + [];
    assert d.inbox[0..] == d.inbox && d.replies[0..] == d.replies;
  }

  lemma {:induction false} FetchExplains(d: Decoder, o: Outcome, groups: seq<seq<Reply>>, m: nat, k: nat,
                                         left: seq<Byte>)
    requires d.pkt == [] && d.inbox != [] && Explains(Fetched(d), o, groups, m, k, left)
    ensures Explains(d, o, [[]] + groups, m + 1, k, left)
  {
    var all := [[]] + groups;
    assert all[1..] == groups && d.inbox[..m + 1][1..] == d.inbox[1..][..m];
    NothingAdded(AllOf(groups));
  }

  /** No input is lost and none is offered twice: while one packet is under way, each answer takes
      as much off it as it consumed; the next is fetched only when all of this one was consumed or
      an error put an end to it; and what is left at the end is what the next call starts with. A
      chunk is the first answer with samples. The decoder waits only when all packets are used up or
      no answer comes. */
  lemma {:induction false} EveryPacketIsUsedUp(cfg: Config, d: Decoder)
    returns (groups: seq<seq<Reply>>, m: nat, k: nat, left: seq<Byte>)
    requires cfg.Valid()
    ensures Explains(d, NextDecoded(cfg, d), groups, m, k, left)
    decreases |d.replies| + |d.inbox|
  {
    var o := NextDecoded(cfg, d);
    if d.pkt != [] && d.replies != [] && d.replies[0].Samples() == [] {
      groups, m, k, left := EveryPacketIsUsedUp(cfg, Answered(d));
      AnswerExplains(d, o, groups, m, k, left);
      groups, k := [[d.replies[0]] + groups[0]] + groups[1..], k + 1;
    } else if d.pkt != [] && d.replies != [] {
      groups, m, k, left := [[d.replies[0]]], 0, 1, Answered(d).pkt;
      SamplesExplain(cfg, d);
    } else if d.pkt == [] && d.inbox != [] {
      groups, m, k, left := EveryPacketIsUsedUp(cfg, Fetched(d));
      FetchExplains(d, o, groups, m, k, left);
      groups, m := [[]] + groups, m + 1;
    } else {
      groups, m, k, left := [[]], 0, 0, d.pkt;
      NothingExplains(cfg, d);
    }
  }

  /** The packets fetched on the way from one state of the decoder to a later one. */
  function FetchedUntil(d: Decoder, d': Decoder): seq<Packet> {
    if |d'.inbox| <= |d.inbox| then d.inbox[..|d.inbox| - |d'.inbox|] else []
  }

  /** The clock that a row of packets sets: the last time stamp among them, if there is one. */
  function ClockSet(ps: seq<Packet>, clock: real): real {
    if ps == [] then clock else ClockSet(ps[1..], if ps[0].Media? then ps[0].pts.GetOr(clock) else clock)
  }

  lemma {:induction false} ClockSetByFirst(p: Packet, ps: seq<Packet>, clock: real)
    ensures ClockSet([p] + ps, clock) == ClockSet(ps, if p.Media? then p.pts.GetOr(clock) else clock)
  {
    assert ([p] + ps)[1..] == ps;
  }

  /** Packets are fetched in order, none skipped. */
  lemma {:induction false} PacketsAreFetchedInOrder(cfg: Config, d: Decoder)
    requires cfg.Valid()
    ensures !NextDecoded(cfg, d).Blocks? ==> IsSuffix(NextDecoded(cfg, d).dec.inbox, d.inbox)
    decreases |d.replies| + |d.inbox|
  {
    if d.pkt != [] {
      if d.replies != [] && d.replies[0].Samples() == [] {
        PacketsAreFetchedInOrder(cfg, Answered(d));
      }
    } else if d.inbox != [] {
      PacketsAreFetchedInOrder(cfg, Fetched(d));
      if !NextDecoded(cfg, d).Blocks? {
        SuffixOfRest(NextDecoded(cfg, d).dec.inbox, d.inbox);
      }
    }
  }

  lemma {:induction false} FetchedUntilByFirst(cfg: Config, d: Decoder)
    requires cfg.Valid() && d.pkt == [] && d.inbox != [] && !NextDecoded(cfg, d).Blocks?
    ensures var d' := NextDecoded(cfg, d).dec;
            FetchedUntil(d, d') == [d.inbox[0]] + FetchedUntil(Fetched(d), d')
  {
    PacketsAreFetchedInOrder(cfg, Fetched(d));
    SuffixOfRest(NextDecoded(cfg, d).dec.inbox, d.inbox);
  }

  /** The time that a chunk takes, two bytes a sample and channel. */
  function TimeOf(cfg: Config, o: Outcome): real
    requires cfg.Valid()
  {
    if o.Chunk? then |o.bytes| as real / (2 * cfg.channels * cfg.sampleRate) as real else 0.0
  }

  /** The clock after a chunk is the last time stamp fetched, or the clock before, plus the time
      the chunk takes: time that passed in packets without samples is not counted. */
  lemma {:induction false} ClockFollowsTimestamps(cfg: Config, d: Decoder)
    requires cfg.Valid()
    ensures var o := NextDecoded(cfg, d);
            !o.Blocks? ==> o.dec.clock == ClockSet(FetchedUntil(d, o.dec), d.clock) + TimeOf(cfg, o)
    decreases |d.replies| + |d.inbox|
  {
    if d.pkt != [] {
      if d.replies != [] && d.replies[0].Samples() == [] {
        ClockFollowsTimestamps(cfg, Answered(d));
      }
    } else if d.inbox != [] {
      ClockFollowsTimestamps(cfg, Fetched(d));
      var o := NextDecoded(cfg, d);
      if !o.Blocks? {
        FetchedUntilByFirst(cfg, d);
        ClockSetByFirst(d.inbox[0], FetchedUntil(Fetched(d), o.dec), d.clock);
      }
    }
  }

  // ----- Synchronisation -----

  /** The weighted sum of the differences so far and this one. */
  function Accumulated(cfg: Config, y: Sync, diff: real): real {
    diff + cfg.coef * y.diffCum
  }

  /** Enough differences were seen, and their average, this one included, is too large. */
  predicate Deviates(cfg: Config, y: Sync, diff: real) {
    y.avgCount >= AUDIO_DIFF_AVG_NB && AbsReal(Accumulated(cfg, y, diff) * (1.0 - cfg.coef)) >= cfg.threshold
  }

  /** Sound is not the master, and its clock calls for a correction. */
  predicate Corrects(cfg: Config, y: Sync, clock: real) {
    cfg.sync != AudioMaster && clock - y.Now() < AV_NOSYNC_THRESHOLD && Deviates(cfg, y, clock - y.Now())
  }

  /** The size to play of a chunk of `size` bytes decoded up to time `clock`. */
  function PlayedSize(cfg: Config, y: Sync, clock: real, size: nat): int
    requires cfg.Valid()
  {
    if Corrects(cfg, y, clock) then Corrected(size, size + BytesOff(cfg, clock - y.Now())) else size
  }

  /** The averaging state afterwards; a difference that is too big starts it over. */
  function NextSync(cfg: Config, y: Sync, clock: real): Sync {
    if cfg.sync == AudioMaster then y
    else
      var diff := clock - y.Now();
      if diff < AV_NOSYNC_THRESHOLD then
        y.Later().(diffCum := Accumulated(cfg, y, diff),
                   avgCount := if y.avgCount < AUDIO_DIFF_AVG_NB then y.avgCount + 1 else y.avgCount)
      else y.Later().(diffCum := 0.0, avgCount := 0)
  }

  // ----- The average over a run -----

  /** The averaging state after chunks that were decoded up to these times. */
  function Synced(cfg: Config, y: Sync, clocks: seq<real>): Sync {
    if clocks == [] then y else NextSync(cfg, Synced(cfg, y, clocks[..|clocks| - 1]), clocks[|clocks| - 1])
  }

  /** How far the sound was ahead at chunk `i`; each chunk takes one reading of the master clock. */
  function Ahead(y: Sync, clocks: seq<real>, i: nat): real
    requires i < |clocks|
  {
    clocks[i] - if i < |y.refClocks| then y.refClocks[i] else 0.0
  }

  ghost predicate NeverFarAhead(y: Sync, clocks: seq<real>) {
    forall i :: 0 <= i < |clocks| ==> Ahead(y, clocks, i) < 10.0
  }

  lemma {:induction false} FrontIsNotFarAhead(y: Sync, clocks: seq<real>)
    requires clocks != [] && NeverFarAhead(y, clocks)
    ensures NeverFarAhead(y, clocks[..|clocks| - 1])
  {
    var front := clocks[..|clocks| - 1];
    assert forall i :: 0 <= i < |front| ==> Ahead(y, front, i) == Ahead(y, clocks, i);
  }

  /** The differences are counted up to 20, and each takes one reading of the master clock. */
  lemma {:induction false} CountOverRun(cfg: Config, y: Sync, clocks: seq<real>)
    requires cfg.sync != AudioMaster && y.avgCount <= 20 && NeverFarAhead(y, clocks)
    ensures var s, n := Synced(cfg, y, clocks), |clocks|;
            && s.avgCount == (if y.avgCount + n < 20 then y.avgCount + n else 20)
            && s.refClocks == if n <= |y.refClocks| then y.refClocks[n..] else []
  {
    if clocks != [] {
      FrontIsNotFarAhead(y, clocks);
      CountOverRun(cfg, y, clocks[..|clocks| - 1]);
      assert Ahead(y, clocks, |clocks| - 1) < 10.0;
    }
  }

  lemma {:induction false} NextSum(cfg: Config, y: Sync, clock: real)
    requires cfg.sync != AudioMaster && clock - y.Now() < 10.0
    ensures NextSync(cfg, y, clock).diffCum == clock - y.Now() + cfg.coef * y.diffCum
  {
  }

  /** Through a run of chunks, none ten seconds ahead or more, the sum kept is always the last
      difference and what the sum was before, weighted. */
  lemma {:induction false} AverageOverRun(cfg: Config, y: Sync, clocks: seq<real>)
    requires clocks != [] && cfg.sync != AudioMaster && y.avgCount <= 20 && NeverFarAhead(y, clocks)
    ensures var n := |clocks| - 1;
            Synced(cfg, y, clocks).diffCum
            == Ahead(y, clocks, n) + cfg.coef * Synced(cfg, y, clocks[..n]).diffCum
  {
    var n := |clocks| - 1;
    FrontIsNotFarAhead(y, clocks);
    CountOverRun(cfg, y, clocks[..n]);
    assert Ahead(y, clocks, n) < 10.0;
    NextSum(cfg, Synced(cfg, y, clocks[..n]), clocks[n]);
  }

  /** How far a chunk decoded up to this time is ahead of the next reading of the master clock. */
  function AheadNow(y: Sync, clock: real): real {
    clock - if y.refClocks == [] then 0.0 else y.refClocks[0]
  }

  /** When sound is the master nothing is averaged; and a chunk ten seconds ahead or more starts the
      average over. */
  lemma {:induction false} AverageStartsOver(cfg: Config, y: Sync, clock: real)
    ensures cfg.sync == AudioMaster ==> NextSync(cfg, y, clock) == y
    ensures cfg.sync != AudioMaster && AheadNow(y, clock) >= 10.0 ==>
              NextSync(cfg, y, clock) == Sync(0.0, 0, if y.refClocks == [] then [] else y.refClocks[1..])
  {
  }

  lemma {:induction false} TooLarge(x: real, limit: real)
    ensures AbsReal(x) >= limit <==> x >= limit || -x >= limit
  {
  }

  lemma {:induction false} DeviatesIf(cfg: Config, y: Sync, diff: real, sum: real)
    requires sum == diff + cfg.coef * y.diffCum
    ensures Deviates(cfg, y, diff) <==> y.avgCount >= 20 && AbsReal(sum * (1.0 - cfg.coef)) >= cfg.threshold
  {
    assert Accumulated(cfg, y, diff) == sum;
    assert Accumulated(cfg, y, diff) * (1.0 - cfg.coef) == sum * (1.0 - cfg.coef);
  }

  /** A chunk is corrected if and only if sound is not the master, it is less than ten seconds ahead,
      20 differences were averaged before, and their average with this one is too large. */
  lemma {:induction false} WhatIsCorrected(cfg: Config, y: Sync, clock: real, ahead: real, sum: real, average: real)
    requires ahead == AheadNow(y, clock) && sum == ahead + cfg.coef * y.diffCum
    requires average == sum * (1.0 - cfg.coef)
    ensures Corrects(cfg, y, clock)
       <==> cfg.sync != AudioMaster && ahead < 10.0 && y.avgCount >= 20
            && (average >= cfg.threshold || -average >= cfg.threshold)
  {
    CorrectsIf(cfg, y, clock, ahead);
    DeviatesIf(cfg, y, ahead, sum);
    TooLarge(average, cfg.threshold);
  }

  lemma {:induction false} CorrectsIf(cfg: Config, y: Sync, clock: real, ahead: real)
    requires ahead == clock - y.Now()
    ensures Corrects(cfg, y, clock) <==> cfg.sync != AudioMaster && ahead < 10.0 && Deviates(cfg, y, ahead)
  {
  }

  /** How many bytes this is, at two a sample and channel. */
  function BytesOfTime(cfg: Config, time: real): int {
    Truncate(time * cfg.sampleRate as real) * (2 * cfg.channels)
  }

  lemma {:induction false} BytesOffIsOfTime(cfg: Config, time: real)
    ensures BytesOff(cfg, time) == BytesOfTime(cfg, time)
  {
    assert FramesOff(cfg, time) == Truncate(time * cfg.sampleRate as real);
    assert cfg.FrameBytes() == 2 * cfg.channels;
  }

  /** Then it is shortened by the sample frames of the lag, but no further than to nothing, and never
      lengthened. */
  lemma {:induction false} WhatIsPlayed(cfg: Config, y: Sync, clock: real, ahead: real, size: nat)
    requires cfg.Valid() && ahead == AheadNow(y, clock)
    ensures var played := size + BytesOfTime(cfg, ahead);
            PlayedSize(cfg, y, clock, size) ==
              if !Corrects(cfg, y, clock) || played > size then size else if played < 0 then 0 else played
  {
    BytesOffIsOfTime(cfg, ahead);
    CorrectedIsClamped(size, size + BytesOff(cfg, ahead));
    PlayedWhenCorrected(cfg, y, clock, size, ahead);
  }

  lemma {:induction false} PlayedWhenCorrected(cfg: Config, y: Sync, clock: real, size: nat, ahead: real)
    requires cfg.Valid() && ahead == clock - y.Now()
    ensures PlayedSize(cfg, y, clock, size) ==
              if Corrects(cfg, y, clock) then Corrected(size, size + BytesOff(cfg, ahead)) else size
  {
  }

  function FramesOff(cfg: Config, diff: real): int {
    Truncate(diff * cfg.sampleRate as real)
  }

  /** A difference of clocks as bytes of whole sample frames. */
  function BytesOff(cfg: Config, diff: real): int {
    FramesOff(cfg, diff) * cfg.FrameBytes()
  }

  lemma {:induction false} BytesOffHasSign(cfg: Config, diff: real)
    requires cfg.Valid()
    ensures diff >= 0.0 ==> BytesOff(cfg, diff) >= 0
  {
    var rate := cfg.sampleRate as real;
    assert diff >= 0.0 ==> diff * rate >= 0.0;
  }

  /** The two correction bounds use integer division, as written:
      (100 - 10) / 100 and (100 + 10) / 100. */
  function Corrected(size: nat, wanted: int): int {
    var minSize := size * ((100 - SAMPLE_CORRECTION_PERCENT_MAX) / 100);
    var maxSize := size * ((100 + SAMPLE_CORRECTION_PERCENT_MAX) / 100);
    var w := if wanted < minSize then minSize else if wanted > maxSize then maxSize else wanted;
    if w < size then w else if w > size then w else size
  }

  /** Because of the integer divisions the clamp is [0, size]: correction may drop a whole chunk,
      and it can never lengthen one. */
  lemma {:induction false} CorrectedIsClamped(size: nat, wanted: int)
    ensures Corrected(size, wanted) == if wanted < 0 then 0 else if wanted > size then size else wanted
  {
  }

  /** The clamp that was meant, from 90 to 110 per cent, holds if and only if no more than a tenth
      of the chunk is to go. */
  lemma {:induction false} CorrectedIsWithinTenth(size: nat, wanted: int)
    ensures 9 * size <= 10 * Corrected(size, wanted) <= 11 * size <==> size == 0 || 10 * wanted >= 9 * size
  {
    CorrectedIsClamped(size, wanted);
  }

  /** So a chunk that is played keeps within a tenth of its size if and only if it is not corrected
      or the sound lags behind the master clock by a tenth of the chunk at most; and it is dropped
      whole if and only if it is corrected and the lag is all of the chunk or more. */
  lemma {:induction false} PlayedWithinTenth(cfg: Config, y: Sync, clock: real, size: nat)
    requires cfg.Valid()
    ensures 9 * size <= 10 * PlayedSize(cfg, y, clock, size) <= 11 * size
       <==> size == 0 || !Corrects(cfg, y, clock) || -10 * BytesOff(cfg, clock - y.Now()) <= size
    ensures PlayedSize(cfg, y, clock, size) == 0
       <==> size == 0 || (Corrects(cfg, y, clock) && -BytesOff(cfg, clock - y.Now()) >= size)
  {
    var wanted := size + BytesOff(cfg, clock - y.Now());
    CorrectedIsClamped(size, wanted);
    CorrectedIsWithinTenth(size, wanted);
  }

  /** One second behind, with the settings of the player for stereo at 44100 Hz and all differences
      before averaged to zero: a chunk of 4608 bytes is dropped whole. */
  lemma {:induction false} ChunkIsDroppedWhole()
    ensures var cfg := Config(VideoMaster, 2, 44100, 0.0005, 2048.0 / 44100.0);
            cfg.Valid() && PlayedSize(cfg, Sync(0.0, AUDIO_DIFF_AVG_NB, [1.0]), 0.0, 4608) == 0
  {
    var cfg := Config(VideoMaster, 2, 44100, 0.0005, 2048.0 / 44100.0);
    var y := Sync(0.0, AUDIO_DIFF_AVG_NB, [1.0]);
    assert Accumulated(cfg, y, -1.0) == -1.0;
    assert -1.0 * 44100 as real == -44100.0;
    assert BytesOff(cfg, -1.0) == -176400;
    PlayedWithinTenth(cfg, y, 0.0, 4608);
  }

  lemma {:induction false} CorrectedKeepsFrames(size: nat, n: nat, k: int)
    requires n >= 1 && size % n == 0
    ensures Corrected(size, size + k * n) % n == 0
  {
    CorrectedIsClamped(size, size + k * n);
    var q := size / n;
    assert size + k * n == (q + k) * n;
    ModIsUnique(size + k * n, n, q + k, 0);
    ModIsUnique(0, n, 0, 0);
  }

  /** Synchronisation only shortens, only a chunk that is behind the master clock, and whole
      sample frames stay whole. */
  lemma {:induction false} SynchronizationShortens(cfg: Config, y: Sync, clock: real, size: nat)
    requires cfg.Valid()
    ensures 0 <= PlayedSize(cfg, y, clock, size) <= size
    ensures PlayedSize(cfg, y, clock, size) < size ==> clock < y.Now()
    ensures size % cfg.FrameBytes() == 0 ==> PlayedSize(cfg, y, clock, size) % cfg.FrameBytes() == 0
  {
    var k, n := FramesOff(cfg, clock - y.Now()), cfg.FrameBytes();
    CorrectedIsClamped(size, size + k * n);
    if size % n == 0 {
      CorrectedKeepsFrames(size, n, k);
    }
    BytesOffHasSign(cfg, clock - y.Now());
  }

  // ----- The chunks that reach the output buffer -----

  datatype Source = Source(dec: Decoder, sync: Sync)

  function Zeros(n: nat): seq<Sample> { seq(n, i => SILENT) }

  /** Filling the empty output buffer turns `s` into `t` and yields `bytes`: a decoded chunk cut
      to its played size, or silence on failure. */
  predicate Refill(cfg: Config, s: Source, bytes: seq<Sample>, t: Source)
    requires cfg.Valid()
  {
    match NextDecoded(cfg, s.dec)
    case Blocks => false
    case Silence(d) => t == s.(dec := d) && bytes == Zeros(SILENCE_BYTES)
    case Chunk(chunk, d) =>
      && t == Source(d, NextSync(cfg, s.sync, d.clock))
      && 0 <= PlayedSize(cfg, s.sync, d.clock, |chunk|) <= |chunk|
      && bytes == chunk[..PlayedSize(cfg, s.sync, d.clock, |chunk|)]
  }

  /** On failure the buffer is filled with 1024 zero bytes that come from no packet. */
  lemma {:induction false} SilenceIsZeros(cfg: Config, s: Source, bytes: seq<Sample>, t: Source)
    requires cfg.Valid() && Refill(cfg, s, bytes, t) && NextDecoded(cfg, s.dec).Silence?
    ensures |bytes| == 1024 && forall i :: 0 <= i < |bytes| ==> bytes[i].value == 0 && bytes[i].origin == None
  {
  }

  /** `chunks` are the refills that lead from the first of `srcs` to the last. */
  ghost predicate Refills(cfg: Config, srcs: seq<Source>, chunks: seq<seq<Sample>>)
    requires cfg.Valid()
  {
    && |srcs| == |chunks| + 1
    && forall i :: 0 <= i < |chunks| ==> Refill(cfg, srcs[i], chunks[i], srcs[i + 1])
  }

  function Concat(chunks: seq<seq<Sample>>): seq<Sample> {
    if chunks == [] then [] else chunks[0] + Concat(chunks[1..])
  }

  lemma {:induction false} ConcatAppend(xs: seq<seq<Sample>>, ys: seq<seq<Sample>>)
    ensures Concat(xs + ys) == Concat(xs) + Concat(ys)
  {
    if xs == [] {
      assert xs + ys == ys;
    } else {
      assert (xs + ys)[1..] == xs[1..] + ys;
      ConcatAppend(xs[1..], ys);
    }
  }

  // ----- What callbacks deliver -----

  /** A callback that returned: what it wrote, what it left in the buffer, and the refills it
      made, with the sources before and after each. */
  datatype Played = Played(out: seq<Sample>, left: seq<Sample>, chunks: seq<seq<Sample>>, srcs: seq<Source>)

  /** The callback, asked for `len` bytes with `left` in the buffer and `s` behind it, delivers
      exactly `len`: the bytes of the buffer and of the refills, in order and without a gap. It
      stops refilling as soon as it has enough. */
  ghost predicate Delivers(cfg: Config, left: seq<Sample>, s: Source, len: nat, p: Played)
    requires cfg.Valid()
  {
    && |p.out| == len
    && Refills(cfg, p.srcs, p.chunks) && p.srcs[0] == s
    && left + Concat(p.chunks) == p.out + p.left
    && (p.chunks != [] ==> |left + Concat(p.chunks[..|p.chunks| - 1])| < len)
  }

  /** A run of callbacks: each starts where the one before stopped. */
  ghost predicate Run(cfg: Config, left: seq<Sample>, s: Source, ps: seq<Played>)
    requires cfg.Valid()
    decreases |ps|
  {
    ps == []
    || (&& Delivers(cfg, left, s, |ps[0].out|, ps[0])
        && Run(cfg, ps[0].left, ps[0].srcs[|ps[0].chunks|], ps[1..]))
  }

  function Outputs(ps: seq<Played>): seq<Sample> {
    if ps == [] then [] else ps[0].out + Outputs(ps[1..])
  }

  function Chunks(ps: seq<Played>): seq<seq<Sample>> {
    if ps == [] then [] else ps[0].chunks + Chunks(ps[1..])
  }

  function LastLeft(left: seq<Sample>, ps: seq<Played>): seq<Sample> {
    if ps == [] then left else ps[|ps| - 1].left
  }

  lemma {:induction false} RefillsJoin(cfg: Config, a: seq<Source>, xs: seq<seq<Sample>>, b: seq<Source>,
                                       ys: seq<seq<Sample>>)
    requires cfg.Valid() && Refills(cfg, a, xs) && Refills(cfg, b, ys) && a[|xs|] == b[0]
    ensures Refills(cfg, a + b[1..], xs + ys)
  {
  }

  /** Re-chunking refines a byte stream. Whatever lengths the device asks for, one callback after
      the other, all bytes delivered together are a prefix of the buffer's bytes followed by the
      refills joined; what the buffer still holds is the rest of them; and the refills are the
      successive ones of the source, none left out. */
  lemma {:induction false} Rechunking(cfg: Config, left: seq<Sample>, s: Source,
                                      ps: seq<Played>) returns (srcs: seq<Source>)
    requires cfg.Valid() && Run(cfg, left, s, ps)
    ensures left + Concat(Chunks(ps)) == Outputs(ps) + LastLeft(left, ps)
    ensures Refills(cfg, srcs, Chunks(ps)) && srcs[0] == s
    decreases |ps|
  {
    if ps == [] {
      srcs := [s];
    } else {
      var p := ps[0];
      var later := Rechunking(cfg, p.left, p.srcs[|p.chunks|], ps[1..]);
      srcs := p.srcs + later[1..];
      RefillsJoin(cfg, p.srcs, p.chunks, later, Chunks(ps[1..]));
      ConcatAppend(p.chunks, Chunks(ps[1..]));
      JoinedAgrees(left, Concat(p.chunks), Concat(Chunks(ps[1..])), p.out, p.left,
                   Outputs(ps[1..]), LastLeft(left, ps));
    }
  }

  lemma {:induction false} JoinedAgrees<T>(b: seq<T>, x: seq<T>, y: seq<T>, out: seq<T>, left: seq<T>,
                                           out': seq<T>, left': seq<T>)
    requires b + x == out + left && left + y == out' + left'
    ensures b + (x + y) == (out + out') + left'
  {
    assert b + (x + y) == (b + x) + y;
    assert (out + left) + y == out + (left + y);
    assert out + (out' + left') == (out + out') + left';
  }
}
