/** The packet queue of the player: a singly linked list of heap nodes with a tail pointer
    and two counters, updated in place. It refines a mathematical FIFO. */
module PacketQueues {
  import opened Packets

  /** What became of a packet that is no longer in the queue. */
  datatype Fate = Delivered(pkt: Packet) | Discarded(pkt: Packet)

  /** What one pass through the retrieval loop ends with. `MustWait` is the pass that ends
      in a wait on the condition variable, after which the loop starts over. */
  datatype GetResult = Got(pkt: Packet) | Empty | QuitSeen | MustWait

  /** The packets of a log of fates, in the order they left the queue. */
  function Gone(log: seq<Fate>): seq<Packet> {
    seq(|log|, i requires 0 <= i < |log| => log[i].pkt)
  }

  function AllDiscarded(ps: seq<Packet>): seq<Fate> {
    seq(|ps|, i requires 0 <= i < |ps| => Discarded(ps[i]))
  }

  class Node {
    var pkt: Packet
    var next: Node?

    constructor (p: Packet)
      ensures pkt == p && next == null
    {
      pkt, next := p, null;
    }
  }

  class PacketQueue {
    var firstPkt: Node?
    var lastPkt: Node?
    var nbPackets: int
    var size: int

    ghost var spine: seq<Node>      // the nodes, head first
    ghost var arrived: seq<Packet>  // every packet ever put
    ghost var departed: seq<Fate>   // every packet that left, with the way it left

    ghost function Contents(): (c: seq<Packet>)
      reads this, spine
      ensures |c| == |spine|
    {
      seq(|spine|, i requires 0 <= i < |spine| reads this, spine => spine[i].pkt)
    }

    /** The list is the spine: distinct nodes, each linked to the next, the last one to null,
        and both ends of the queue point to the ends of the spine. */
    ghost predicate Linked()
      reads this, spine
    {
      && (forall i, j :: 0 <= i < j < |spine| ==> spine[i] != spine[j])
      && (forall i :: 0 <= i < |spine| - 1 ==> spine[i].next == spine[i + 1])
      && (spine == [] ==> firstPkt == null && lastPkt == null)
      && (spine != [] ==>
            && firstPkt == spine[0]
            && lastPkt == spine[|spine| - 1]
            && spine[|spine| - 1].next == null)
    }

    /** The list, the counters, and the conservation law: what left plus what is queued
        is, in order, what was put. */
    ghost predicate Valid()
      reads this, spine
    {
      && Linked()
      && nbPackets == |Contents()|
      && size == Bytes(Contents())
      && Gone(departed) + Contents() == arrived
    }

    constructor ()
      ensures Valid() && Contents() == [] && arrived == [] && departed == []
      ensures firstPkt == null && lastPkt == null
    {
      firstPkt, lastPkt, nbPackets, size := null, null, 0, 0;
      spine, arrived, departed := [], [], [];
    }

    method Put(p: Packet)
      requires Valid()
      modifies this, lastPkt
      ensures Valid()
      ensures Contents() == old(Contents()) + [p]
      ensures arrived == old(arrived) + [p] && departed == old(departed)
      ensures forall n :: n in spine ==> n in old(spine) || fresh(n)
    {
      var pkt1 := new Node(p);
      ghost var before := Contents();
      if lastPkt == null {
        firstPkt := pkt1;
      } else {
        lastPkt.next := pkt1;
      }
      lastPkt := pkt1;
      nbPackets := nbPackets + 1;
      size := size + pkt1.pkt.Size();
      spine := spine + [pkt1];
      arrived := arrived + [p];
      assert Contents() == before + [p];
      BytesOneMore(before, p);
    }

    /** One pass of the retrieval loop under the lock. */
    method Get(block: bool, quit: bool) returns (r: GetResult)
      requires Valid()
      modifies this
      ensures Valid() && arrived == old(arrived)
      ensures r.QuitSeen? <==> quit
      ensures r.Got? <==> !quit && old(Contents()) != []
      ensures r.Empty? ==> !block
      ensures r.MustWait? ==> block
      ensures r.Got? ==>
                && [r.pkt] + Contents() == old(Contents())
                && departed == old(departed) + [Delivered(r.pkt)]
      ensures !r.Got? ==> Contents() == old(Contents()) && departed == old(departed)
      ensures forall n :: n in spine ==> n in old(spine)
    {
      if quit {
        return QuitSeen;
      }
      var pkt1 := firstPkt;
      if pkt1 != null {
        ghost var before := Contents();
        firstPkt := pkt1.next;
        if firstPkt == null {
          lastPkt := null;
        }
        nbPackets := nbPackets - 1;
        size := size - pkt1.pkt.Size();
        spine := spine[1..];
        departed := departed + [Delivered(pkt1.pkt)];
        assert Contents() == before[1..];
        r := Got(pkt1.pkt);
      } else if !block {
        r := Empty;
      } else {
        r := MustWait;
      }
    }

    /** Frees every node, walking the list; `freed` lists the nodes in the order they are freed. */
    method Flush() returns (ghost freed: seq<Node>)
      requires Valid()
      modifies this
      ensures Valid() && Contents() == [] && arrived == old(arrived)
      ensures freed == old(spine)
      ensures departed == old(departed) + AllDiscarded(old(Contents()))
      ensures firstPkt == null && lastPkt == null && nbPackets == 0 && size == 0
    {
      freed := [];
      var pkt := firstPkt;
      while pkt != null
        invariant |freed| <= |spine| && freed == spine[..|freed|]
        invariant pkt == if |freed| < |spine| then spine[|freed|] else null
        decreases |spine| - |freed|
      {
        var pkt1 := pkt.next;
        freed := freed + [pkt];
        pkt := pkt1;
      }
      assert freed == spine;
      ghost var dropped := Contents();
      lastPkt, firstPkt, nbPackets, size := null, null, 0, 0;
      departed := departed + AllDiscarded(dropped);
      assert Gone(departed) == Gone(old(departed)) + dropped;
      spine := [];
    }
  }

  lemma {:induction false} FatesOf(log: seq<Fate>, p: Packet)
    ensures multiset(Gone(log))[p] == multiset(log)[Delivered(p)] + multiset(log)[Discarded(p)]
  {
    if log != [] {
      var last := |log| - 1;
      assert log == log[..last] + [log[last]];
      assert Gone(log) == Gone(log[..last]) + [log[last].pkt];
      FatesOf(log[..last], p);
    }
  }

  // ----- Runs of operations on the mathematical queue that the heap queue refines -----

  datatype Op = DoPut(pkt: Packet) | DoGet | DoFlush

  datatype Fifo = Fifo(queued: seq<Packet>, arrived: seq<Packet>, departed: seq<Fate>)

  function Apply(q: Fifo, op: Op): Fifo {
    match op
    case DoPut(p) => Fifo(q.queued + [p], q.arrived + [p], q.departed)
    case DoGet =>
      if q.queued == [] then q
      else Fifo(q.queued[1..], q.arrived, q.departed + [Delivered(q.queued[0])])
    case DoFlush => Fifo([], q.arrived, q.departed + AllDiscarded(q.queued))
  }

  function ApplyAll(q: Fifo, ops: seq<Op>): Fifo
    decreases |ops|
  {
    if ops == [] then q else ApplyAll(Apply(q, ops[0]), ops[1..])
  }

  /** After any run, every packet put is delivered, still queued, or discarded by a flush,
      as many times in all as it was put, and in the order it was put. */
  lemma {:induction false} Conservation(q: Fifo, ops: seq<Op>, p: Packet)
    requires Gone(q.departed) + q.queued == q.arrived
    ensures var r := ApplyAll(q, ops);
            && Gone(r.departed) + r.queued == r.arrived
            && multiset(r.arrived)[p]
               == multiset(r.departed)[Delivered(p)] + multiset(r.departed)[Discarded(p)] + multiset(r.queued)[p]
    decreases |ops|
  {
    if ops == [] {
      FatesOf(q.departed, p);
    } else {
      var q' := Apply(q, ops[0]);
      assert Gone(q'.departed) + q'.queued == q'.arrived;
      Conservation(q', ops[1..], p);
    }
  }

  /** A heap queue driven by any sequence of operations ends up as the mathematical queue
      does: same contents, same arrivals, same departures. */
  method Drive(ops: seq<Op>) returns (q: PacketQueue)
    ensures q.Valid()
    ensures Fifo(q.Contents(), q.arrived, q.departed) == ApplyAll(Fifo([], [], []), ops)
  {
    q := new PacketQueue();
    var i := 0;
    while i < |ops|
      invariant 0 <= i <= |ops|
      invariant q.Valid() && fresh(q) && forall n :: n in q.spine ==> fresh(n)
      invariant ApplyAll(Fifo(q.Contents(), q.arrived, q.departed), ops[i..]) == ApplyAll(Fifo([], [], []), ops)
    {
      assert q.lastPkt == null || q.lastPkt in q.spine;
      match ops[i] {
        case DoPut(p) => q.Put(p);
        case DoGet => var r := q.Get(false, false);
        case DoFlush => ghost var _ := q.Flush();
      }
      i := i + 1;
    }
  }
}
