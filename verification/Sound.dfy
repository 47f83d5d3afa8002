/** Seeking as it is heard: the packets that the audio callback takes in a behaviour of the
    demuxing side, decoded and re-chunked into what the device plays. */
module Sound {
  import opened AudioCallback
  import opened AudioOutput
  import opened Packets
  import opened Wrappers
  import D = Demuxer

  /** `o` is the epoch of one of these packets. */
  ghost predicate IsOf(o: Option<nat>, ps: seq<Packet>) {
    o.Some? && exists k :: 0 <= k < |ps| && ps[k].Media? && ps[k].epoch == o.value
  }

  ghost predicate StemFrom(samples: seq<Sample>, ps: seq<Packet>) {
    forall i :: 0 <= i < |samples| ==> IsOf(samples[i].origin, ps)
  }

  /** What is assumed of the codec: the samples it answers with stem from packets it was fed since
      it was last reset. `past` are the packets fetched so far, the one under way included. */
  ghost predicate Honest(pkt: seq<Byte>, inbox: seq<Packet>, replies: seq<Reply>, past: seq<Packet>)
    decreases |replies| + |inbox|
  {
    if pkt != [] then
      replies == []
      || (&& StemFrom(replies[0].Samples(), D.SinceReset(past))
          && Honest(if replies[0].DecodeError? then [] else Rest(pkt, replies[0].n), inbox, replies[1..], past))
    else
      inbox == []
      || Honest(if inbox[0].Media? then inbox[0].data else [], inbox[1..], replies, past + [inbox[0]])
  }

  ghost predicate HonestFrom(d: Decoder, past: seq<Packet>) {
    Honest(d.pkt, d.inbox, d.replies, past)
  }

  /** The codec stays honest, and the chunk stems from what it was fed. */
  ghost predicate Stems(d: Decoder, o: Outcome, past: seq<Packet>)
    requires !o.Blocks?
  {
    && HonestFrom(o.dec, past + FetchedUntil(d, o.dec))
    && (o.Chunk? ==> StemFrom(o.bytes, D.SinceReset(past + FetchedUntil(d, o.dec))))
  }

  lemma {:induction false} FetchStems(cfg: Config, d: Decoder, past: seq<Packet>)
    requires cfg.Valid() && d.pkt == [] && d.inbox != [] && !NextDecoded(cfg, d).Blocks?
    requires Stems(Fetched(d), NextDecoded(cfg, d), past + [d.inbox[0]])
    ensures Stems(d, NextDecoded(cfg, d), past)
  {
    var later := FetchedUntil(Fetched(d), NextDecoded(cfg, d).dec);
    FetchedUntilByFirst(cfg, d);
    assert past + ([d.inbox[0]] + later) == (past + [d.inbox[0]]) + later;
  }

  /** A codec that answers with samples at once. */
  lemma {:induction false} AnswerStems(cfg: Config, d: Decoder, past: seq<Packet>)
    requires cfg.Valid() && HonestFrom(d, past)
    requires d.pkt != [] && d.replies != [] && d.replies[0].Samples() != []
    ensures Stems(d, NextDecoded(cfg, d), past)
  {
    assert past + FetchedUntil(d, NextDecoded(cfg, d).dec) == past;
  }

  lemma {:induction false} ChunkStems(cfg: Config, d: Decoder, past: seq<Packet>)
    requires cfg.Valid() && HonestFrom(d, past)
    ensures !NextDecoded(cfg, d).Blocks? ==> Stems(d, NextDecoded(cfg, d), past)
    decreases |d.replies| + |d.inbox|
  {
    if d.pkt != [] {
      if d.replies == [] {
      } else if d.replies[0].Samples() == [] {
        ChunkStems(cfg, Answered(d), past);
      } else {
        AnswerStems(cfg, d, past);
      }
    } else if d.inbox != [] {
      ChunkStems(cfg, Fetched(d), past + [d.inbox[0]]);
      if !NextDecoded(cfg, d).Blocks? {
        FetchStems(cfg, d, past);
      }
    } else {
      assert past + [] == past;
    }
  }

  // ----- Order -----

  /** Once a byte from after a seek was heard, none from before it is. Silence is from no packet. */
  ghost predicate Ordered(xs: seq<Sample>) {
    forall i, j :: 0 <= i < j < |xs| && xs[i].origin.Some? && xs[j].origin.Some? ==>
      xs[i].origin.value <= xs[j].origin.value
  }

  /** All of this is at least as new as these packets. */
  ghost predicate NotBefore(xs: seq<Sample>, ps: seq<Packet>) {
    forall i, k :: 0 <= i < |xs| && xs[i].origin.Some? && 0 <= k < |ps| && ps[k].Media? ==>
      ps[k].epoch <= xs[i].origin.value
  }

  ghost predicate From(xs: seq<Sample>, ps: seq<Packet>) {
    forall i :: 0 <= i < |xs| && xs[i].origin.Some? ==> IsOf(xs[i].origin, ps)
  }

  /** A chunk is of one epoch, that of the newest packets fetched. */
  lemma {:induction false} StemmingIsNewest(xs: seq<Sample>, past: seq<Packet>)
    requires D.Barrier(past) && StemFrom(xs, D.SinceReset(past))
    ensures NotBefore(xs, past) && From(xs, past)
  {
    D.SinceResetIsSuffix(past);
    var fed := D.SinceReset(past);
    forall i | 0 <= i < |xs|
      ensures IsOf(xs[i].origin, past)
      ensures forall k :: 0 <= k < |past| && past[k].Media? ==> past[k].epoch <= xs[i].origin.value
    {
      var m :| 0 <= m < |fed| && fed[m].Media? && fed[m].epoch == xs[i].origin.value;
      assert past[|past| - |fed| + m] == fed[m];
      forall k | 0 <= k < |past| && past[k].Media?
        ensures past[k].epoch <= fed[m].epoch
      {
        D.FedIsNewest(past, k, m);
      }
    }
  }

  /** What is from these packets and not before them comes in order. */
  lemma {:induction false} NewestIsOrdered(xs: seq<Sample>, past: seq<Packet>)
    requires NotBefore(xs, past) && From(xs, past)
    ensures Ordered(xs)
  {
    forall i, j | 0 <= i < j < |xs| && xs[i].origin.Some? && xs[j].origin.Some?
      ensures xs[i].origin.value <= xs[j].origin.value
    {
      assert IsOf(xs[i].origin, past);
    }
  }

  lemma {:induction false} JoinIsOrdered(xs: seq<Sample>, ys: seq<Sample>, past: seq<Packet>)
    requires NotBefore(xs, past) && From(xs, past) && Ordered(ys) && NotBefore(ys, past)
    ensures Ordered(xs + ys) && NotBefore(xs + ys, past)
  {
    NewestIsOrdered(xs, past);
    var zs := xs + ys;
    forall i, j | 0 <= i < j < |zs| && zs[i].origin.Some? && zs[j].origin.Some?
      ensures zs[i].origin.value <= zs[j].origin.value
    {
      if i < |xs| <= j {
        assert IsOf(xs[i].origin, past);
      }
    }
  }

  lemma {:induction false} FromMore(xs: seq<Sample>, ps: seq<Packet>, qs: seq<Packet>)
    requires From(xs, ps)
    ensures From(xs, ps + qs)
  {
    forall i | 0 <= i < |xs| && xs[i].origin.Some?
      ensures IsOf(xs[i].origin, ps + qs)
    {
      var k :| 0 <= k < |ps| && ps[k].Media? && ps[k].epoch == xs[i].origin.value;
      assert (ps + qs)[k] == ps[k];
    }
  }

  /** One refill: what it yields is from the packets fetched so far, and as new as any of them. */
  lemma {:induction false} RefillIsNewest(cfg: Config, s: Source, bytes: seq<Sample>, t: Source, past: seq<Packet>)
    requires cfg.Valid() && Refill(cfg, s, bytes, t)
    requires HonestFrom(s.dec, past) && D.Barrier(past + s.dec.inbox)
    ensures var past' := past + FetchedUntil(s.dec, t.dec);
            && past' + t.dec.inbox == past + s.dec.inbox
            && HonestFrom(t.dec, past') && NotBefore(bytes, past') && From(bytes, past')
  {
    PacketsAreFetchedInOrder(cfg, s.dec);
    ChunkStems(cfg, s.dec, past);
    var o, past' := NextDecoded(cfg, s.dec), past + FetchedUntil(s.dec, t.dec);
    assert past' + t.dec.inbox == past + s.dec.inbox;
    if o.Chunk? {
      D.BarrierPrefix(past + s.dec.inbox, |past'|);
      assert (past + s.dec.inbox)[..|past'|] == past';
      StemmingIsNewest(o.bytes, past');
    }
  }

  lemma {:induction false} RefillsAreOrdered(cfg: Config, srcs: seq<Source>, chunks: seq<seq<Sample>>,
                                             past: seq<Packet>)
    requires cfg.Valid() && Refills(cfg, srcs, chunks)
    requires HonestFrom(srcs[0].dec, past) && D.Barrier(past + srcs[0].dec.inbox)
    ensures Ordered(Concat(chunks)) && NotBefore(Concat(chunks), past)
    ensures From(Concat(chunks), past + srcs[0].dec.inbox)
    decreases |chunks|
  {
    if chunks != [] {
      var past' := past + FetchedUntil(srcs[0].dec, srcs[1].dec);
      var rest := Concat(chunks[1..]);
      assert Refill(cfg, srcs[0], chunks[0], srcs[1]);
      RefillIsNewest(cfg, srcs[0], chunks[0], srcs[1], past);
      assert Refills(cfg, srcs[1..], chunks[1..]) by {
        forall i | 0 <= i < |chunks[1..]|
          ensures Refill(cfg, srcs[1..][i], chunks[1..][i], srcs[1..][i + 1])
        {
          assert Refill(cfg, srcs[i + 1], chunks[i + 1], srcs[i + 1 + 1]);
        }
      }
      RefillsAreOrdered(cfg, srcs[1..], chunks[1..], past');
      JoinIsOrdered(chunks[0], rest, past');
      FromMore(chunks[0], past', srcs[1].dec.inbox);
      assert forall k :: 0 <= k < |past| ==> past'[k] == past[k];
    }
  }

  // ----- What is heard -----

  /** The decoder starts afresh and gets the packets that were taken in this state. */
  ghost predicate PlaysWhatIsTaken(s: Source, d: D.State) {
    s.dec.pkt == [] && s.dec.inbox == d.audioTaken && HonestFrom(s.dec, [])
  }

  /** In every interleaving of the player, through any number of seeks and for any lengths that the
      device asks for: once sound from after a seek was heard, none from before it is heard any
      more, and all of it comes from packets that were taken. */
  lemma {:induction false} NoSoundFromBeforeASeekAfterIt(b: seq<D.State>, n: nat, cfg: Config, s: Source,
                                                         ps: seq<Played>)
    requires D.Behavior(b) && n < |b|
    requires cfg.Valid() && Run(cfg, [], s, ps) && PlaysWhatIsTaken(s, b[n])
    ensures Ordered(Outputs(ps)) && From(Outputs(ps), b[n].audioTaken)
  {
    D.FlushBarrier(b, n);
    var srcs := Rechunking(cfg, [], s, ps);
    assert [] + s.dec.inbox == s.dec.inbox;
    RefillsAreOrdered(cfg, srcs, Chunks(ps), []);
    var all, outs := Concat(Chunks(ps)), Outputs(ps);
    assert [] + all == all;
    assert forall i :: 0 <= i < |outs| ==> all[i] == outs[i];
  }

  /** The same of the callback as it runs. */
  method Listen(st: AudioState, lens: seq<nat>, ghost b: seq<D.State>, ghost n: nat) returns (heard: seq<Sample>)
    requires st.Valid() && st.Left() == []
    requires D.Behavior(b) && n < |b| && PlaysWhatIsTaken(st.Src(), b[n])
    modifies st, st.audioBuf
    ensures Ordered(heard) && From(heard, b[n].audioTaken)
  {
    ghost var src := st.Src();
    ghost var ps;
    heard, ps := Play(st, lens);
    NoSoundFromBeforeASeekAfterIt(b, n, st.cfg, src, ps);
  }
}
