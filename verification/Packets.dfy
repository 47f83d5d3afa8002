/** The packets that travel from the demuxer to the decoders of the SDL player. */
module Packets {
  import opened Wrappers

  type Byte = bv8

  /** A media packet with its time stamp, if it has one, or the in-band marker that asks a decoder
      to drop its state. `epoch` is a history tag: how many seeks had succeeded when the packet was
      read. */
  datatype Packet = FlushMarker | Media(epoch: nat, data: seq<Byte>, pts: Option<real>)
  {
    /** The `size` field of the packet; the marker is a zeroed packet with a data pointer. */
    function Size(): nat {
      match this
      case FlushMarker => 0
      case Media(_, data, _) => |data|
    }
  }

  /** The total size of a sequence of packets. */
  function Bytes(ps: seq<Packet>): nat {
    if ps == [] then 0 else ps[0].Size() + Bytes(ps[1..])
  }

  lemma {:induction false} BytesAppend(ps: seq<Packet>, qs: seq<Packet>)
    ensures Bytes(ps + qs) == Bytes(ps) + Bytes(qs)
  {
    if ps == [] {
      assert ps + qs == qs;
    } else {
      assert (ps + qs)[1..] == ps[1..] + qs;
      BytesAppend(ps[1..], qs);
    }
  }

  lemma {:induction false} BytesOneMore(ps: seq<Packet>, p: Packet)
    ensures Bytes(ps + [p]) == Bytes(ps) + p.Size()
  {
    BytesAppend(ps, [p]);
  }

  /** The data of the packets, one after the other; a marker has none. */
  function AllData(ps: seq<Packet>): seq<Byte> {
    if ps == [] then [] else (if ps[0].Media? then ps[0].data else []) + AllData(ps[1..])
  }

  /** The size that is counted is that of the data. */
  lemma {:induction false} BytesAreOfData(ps: seq<Packet>)
    ensures Bytes(ps) == |AllData(ps)|
  {
    if ps != [] {
      BytesAreOfData(ps[1..]);
    }
  }
}
