/** How the threads of the player use the two packet queues: every behaviour of the demuxing side
    drives each queue through a run of puts, gets and flushes, so that what is proved of the
    queue over runs holds in every interleaving. */
module QueueUse {
  import opened Packets
  import opened PacketQueues
  import D = Demuxer

  /** The mathematical queue after a run of operations that started with the queue empty. */
  function After(ops: seq<Op>): Fifo {
    ApplyAll(Fifo([], [], []), ops)
  }

  /** The packets that a get delivered, in order. */
  function Taken(log: seq<Fate>): seq<Packet> {
    if log == [] then []
    else Taken(log[..|log| - 1]) + if log[|log| - 1].Delivered? then [log[|log| - 1].pkt] else []
  }

  /** What a step of the player does to the audio queue, if anything. */
  function AudioOps(s: D.State, step: D.Step): seq<Op> {
    match step
    case TakeAudio => [DoGet]
    case Demux(_, _) =>
      (match s.demux
       case FlushAudio => [DoFlush]
       case MarkAudio => [DoPut(FlushMarker)]
       case Queueing(p, Audio) => [DoPut(p)]
       case _ => [])
    case _ => []
  }

  function VideoOps(s: D.State, step: D.Step): seq<Op> {
    match step
    case TakeVideo => [DoGet]
    case Demux(_, _) =>
      (match s.demux
       case FlushVideo => [DoFlush]
       case MarkVideo => [DoPut(FlushMarker)]
       case Queueing(p, Video) => [DoPut(p)]
       case _ => [])
    case _ => []
  }

  /** `queue` and `taken` are what this run of operations leaves and what it delivered. */
  ghost predicate Accounts(ops: seq<Op>, queue: seq<Packet>, taken: seq<Packet>) {
    After(ops).queued == queue && Taken(After(ops).departed) == taken
  }

  lemma {:induction false} ApplyOneMore(q: Fifo, ops: seq<Op>, op: Op)
    ensures ApplyAll(q, ops + [op]) == Apply(ApplyAll(q, ops), op)
    decreases |ops|
  {
    if ops == [] {
      assert [op][1..] == [];
      assert ops + [op] == [op];
    } else {
      assert (ops + [op])[1..] == ops[1..] + [op];
      ApplyOneMore(Apply(q, ops[0]), ops[1..], op);
    }
  }

  lemma {:induction false} TakenOneMore(log: seq<Fate>, f: Fate)
    ensures Taken(log + [f]) == Taken(log) + if f.Delivered? then [f.pkt] else []
  {
  }

  lemma {:induction false} FlushTakesNothing(log: seq<Fate>, ps: seq<Packet>)
    ensures Taken(log + AllDiscarded(ps)) == Taken(log)
    decreases |ps|
  {
    if ps == [] {
      assert log + AllDiscarded(ps) == log;
    } else {
      var front := ps[..|ps| - 1];
      assert log + AllDiscarded(ps) == (log + AllDiscarded(front)) + [Discarded(ps[|ps| - 1])];
      TakenOneMore(log + AllDiscarded(front), Discarded(ps[|ps| - 1]));
      FlushTakesNothing(log, front);
    }
  }

  lemma {:induction false} OneMoreOp(ops: seq<Op>, queue: seq<Packet>, taken: seq<Packet>, op: Op)
    requires Accounts(ops, queue, taken)
    ensures match op
            case DoPut(p) => Accounts(ops + [op], queue + [p], taken)
            case DoGet => queue != [] ==> Accounts(ops + [op], queue[1..], taken + [queue[0]])
            case DoFlush => Accounts(ops + [op], [], taken)
  {
    ApplyOneMore(Fifo([], [], []), ops, op);
    var log := After(ops).departed;
    match op {
      case DoPut(_) =>
      case DoGet => if queue != [] { TakenOneMore(log, Delivered(queue[0])); }
      case DoFlush => FlushTakesNothing(log, queue);
    }
  }

  lemma {:induction false} AudioStepAccounts(s: D.State, step: D.Step, ops: seq<Op>)
    requires D.Enabled(s, step) && Accounts(ops, s.audioq, s.audioTaken)
    ensures Accounts(ops + AudioOps(s, step), D.Do(s, step).audioq, D.Do(s, step).audioTaken)
  {
    if AudioOps(s, step) == [] {
      assert ops + [] == ops;
    } else {
      OneMoreOp(ops, s.audioq, s.audioTaken, AudioOps(s, step)[0]);
    }
  }

  lemma {:induction false} VideoStepAccounts(s: D.State, step: D.Step, ops: seq<Op>)
    requires D.Enabled(s, step) && Accounts(ops, s.videoq, s.videoTaken)
    ensures Accounts(ops + VideoOps(s, step), D.Do(s, step).videoq, D.Do(s, step).videoTaken)
  {
    if VideoOps(s, step) == [] {
      assert ops + [] == ops;
    } else {
      OneMoreOp(ops, s.videoq, s.videoTaken, VideoOps(s, step)[0]);
    }
  }

  /** Everything that the first `n` steps did to the audio queue. */
  ghost function AudioRun(b: seq<D.State>, steps: seq<D.Step>, n: nat): seq<Op>
    requires D.Trace(b, steps) && n <= |steps|
  {
    if n == 0 then [] else AudioRun(b, steps, n - 1) + AudioOps(b[n - 1], steps[n - 1])
  }

  ghost function VideoRun(b: seq<D.State>, steps: seq<D.Step>, n: nat): seq<Op>
    requires D.Trace(b, steps) && n <= |steps|
  {
    if n == 0 then [] else VideoRun(b, steps, n - 1) + VideoOps(b[n - 1], steps[n - 1])
  }

  /** In every interleaving the two queues are what the operations made on them make of an empty
      queue, and the consumers hold what those operations delivered. */
  lemma {:induction false} QueuesAreDriven(b: seq<D.State>, steps: seq<D.Step>, n: nat)
    requires D.Trace(b, steps) && n <= |steps|
    ensures Accounts(AudioRun(b, steps, n), b[n].audioq, b[n].audioTaken)
    ensures Accounts(VideoRun(b, steps, n), b[n].videoq, b[n].videoTaken)
  {
    if n > 0 {
      QueuesAreDriven(b, steps, n - 1);
      AudioStepAccounts(b[n - 1], steps[n - 1], AudioRun(b, steps, n - 1));
      VideoStepAccounts(b[n - 1], steps[n - 1], VideoRun(b, steps, n - 1));
    }
  }

  /** A heap queue on which the audio operations of a behaviour were made holds what the behaviour
      says. */
  method AudioQueueOf(ops: seq<Op>, ghost b: seq<D.State>, ghost steps: seq<D.Step>, ghost n: nat)
    returns (q: PacketQueue)
    requires D.Trace(b, steps) && n <= |steps| && ops == AudioRun(b, steps, n)
    ensures q.Valid() && q.Contents() == b[n].audioq && Taken(q.departed) == b[n].audioTaken
  {
    q := Drive(ops);
    QueuesAreDriven(b, steps, n);
  }

  lemma {:induction false} TakenCounts(log: seq<Fate>, p: Packet)
    ensures multiset(Taken(log))[p] == multiset(log)[Delivered(p)]
  {
    if log != [] {
      var last := |log| - 1;
      assert log == log[..last] + [log[last]];
      TakenCounts(log[..last], p);
    }
  }

  /** No packet is lost or taken twice in any interleaving: each was taken by its consumer, is
      still queued, or was thrown away by the flush of a seek, as many times in all as it was
      put. */
  lemma {:induction false} NothingIsLost(b: seq<D.State>, steps: seq<D.Step>, n: nat, p: Packet)
    requires D.Trace(b, steps) && n <= |steps|
    ensures var run := After(AudioRun(b, steps, n));
            multiset(run.arrived)[p]
            == multiset(b[n].audioTaken)[p] + multiset(b[n].audioq)[p] + multiset(run.departed)[Discarded(p)]
    ensures var run := After(VideoRun(b, steps, n));
            multiset(run.arrived)[p]
            == multiset(b[n].videoTaken)[p] + multiset(b[n].videoq)[p] + multiset(run.departed)[Discarded(p)]
  {
    QueuesAreDriven(b, steps, n);
    RunConserves(AudioRun(b, steps, n), p);
    RunConserves(VideoRun(b, steps, n), p);
  }

  lemma {:induction false} RunConserves(ops: seq<Op>, p: Packet)
    ensures var run := After(ops);
            multiset(run.arrived)[p]
            == multiset(Taken(run.departed))[p] + multiset(run.queued)[p] + multiset(run.departed)[Discarded(p)]
  {
    assert Gone([]) + [] == [];
    Conservation(Fifo([], [], []), ops, p);
    TakenCounts(After(ops).departed, p);
  }
}
