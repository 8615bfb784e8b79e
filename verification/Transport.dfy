/** Packets from one end of a connection to the other: Packet.go and PacketConnection.go together. */
module Transport {
  import opened Bytes
  import opened Packets
  import opened PacketConnections

  /** The frame in which a payload travels. */
  function FrameOf(payload: seq<Byte>, compressed: bool, deflate: seq<Byte> -> seq<Byte>): Frame
  {
    if compressed then
      var (bit, sent) := Packed(false, payload, false, deflate);
      Frame(bit, sent)
    else Frame(false, payload)
  }

  /** A compressor that gives back every one of these payloads. */
  ghost predicate Restores(deflate: seq<Byte> -> seq<Byte>, inflate: (seq<Byte>, nat) -> Option<seq<Byte>>, payloads: seq<seq<Byte>>)
  {
    && (forall c, n | inflate(c, n).Some? :: |inflate(c, n).value| == n)
    && (forall i | 0 <= i < |payloads| :: inflate(deflate(payloads[i]), |payloads[i]|) == Some(payloads[i]))
  }

  lemma FrameBack(payload: seq<Byte>, compressed: bool, deflate: seq<Byte> -> seq<Byte>, inflate: (seq<Byte>, nat) -> Option<seq<Byte>>)
    requires 1 <= |payload| <= MAX_PAYLOAD_LENGTH && inflate(deflate(payload), |payload|) == Some(payload)
    ensures FrameOf(payload, compressed, deflate).compressed ==> |FrameOf(payload, compressed, deflate).payload| >= 4
    ensures
      var f := FrameOf(payload, compressed, deflate);
      && Sendable(f) && Unpacked(f.compressed, f.payload, inflate) == Some(payload)
      && (f.compressed <==> compressed && |payload| >= 512 && |deflate(payload)| < |payload| - 4)
      && (!f.compressed ==> f.payload == payload)
      && (f.compressed ==> f.payload[..|f.payload| - 4] == deflate(payload) && LE(f.payload[|f.payload| - 4..]) == |payload|)
  {
    PackedMeans(false, payload, false, deflate);
    PackUnpack(payload, false, deflate, inflate);
  }

  /** A payload is put into a new packet, which is compressed when the connection is. */
  method Pack(pools: Pools, payload: seq<Byte>, compressed: bool, deflate: seq<Byte> -> seq<Byte>) returns (f: Frame)
    requires pools.Valid() && |payload| <= MAX_PAYLOAD_LENGTH
    modifies pools, pools.free
    ensures pools.Valid() && f == FrameOf(payload, compressed, deflate)
    ensures forall b | b in pools.free :: b in old(pools.free) || fresh(b)
  {
    hide Packed;
    var p := pools.Alloc();
    var ok := pools.AppendBytes(p, payload);
    assert p.Payload() == payload && !p.IsCompressed();
    if compressed {
      pools.Compress(p, deflate);
    }
    f := Frame(p.IsCompressed(), p.Payload());
    ok := pools.Release(p);
  }

  /** A frame becomes a packet again, and is decompressed. */
  method Unpack(pools: Pools, f: Frame, inflate: (seq<Byte>, nat) -> Option<seq<Byte>>) returns (r: Option<seq<Byte>>)
    requires pools.Valid() && |f.payload| <= MAX_PAYLOAD_LENGTH
    requires forall c, n | inflate(c, n).Some? :: |inflate(c, n).value| == n
    modifies pools, pools.free
    ensures pools.Valid() && r == Unpacked(f.compressed, f.payload, inflate)
    ensures forall b | b in pools.free :: b in old(pools.free) || fresh(b)
  {
    var p := pools.Alloc();
    var ok := pools.AppendBytes(p, f.payload);
    assert p.Payload() == [] + f.payload == f.payload;
    p.SetPayloadLenCompressed(p.Len(), f.compressed);
    assert p.Payload() == f.payload;
    ok := pools.Decompress(p, inflate);
    r := if ok then Some(p.Payload()) else None;
    ok := pools.Release(p);
  }

  /**
    What is sent is what arrives: payloads sent over a compressed or plain connection, split by the
    network in any way, come out of the other end as they were, in order, when neither end fails;
    otherwise the first ones do. When the sender's end fails what arrived is not received here.
  */
  method SendAndReceive(payloads: seq<seq<Byte>>, compressed: bool, deflate: seq<Byte> -> seq<Byte>,
                        inflate: (seq<Byte>, nat) -> Option<seq<Byte>>, sink: Sink, stalls: nat)
    returns (r: Ending, got: seq<seq<Byte>>, broken: bool)
    requires sink.Valid() && sink.Taken() == [] && Restores(deflate, inflate, payloads)
    requires forall i | 0 <= i < |payloads| :: 1 <= |payloads[i]| <= MAX_PAYLOAD_LENGTH
    modifies sink
    ensures got <= payloads
    ensures sink.err == NoError && !broken ==> r.Done? && got == payloads
    ensures sink.buffered && r.Done? && !broken ==> got == payloads
  {
    got, broken := [], false;
    var pending := SendPackets(payloads, compressed, deflate);
    forall f | f in pending
      ensures Sendable(f)
    {
      var i :| 0 <= i < |pending| && pending[i] == f;
      FrameBack(payloads[i], compressed, deflate, inflate);
    }
    r := sink.Flush(pending);
    if sink.err == NoError && |payloads| > 0 {
      assert [] + Wire(pending) == Wire(pending) == sink.Taken() == sink.sent + [] == sink.sent;
      var receiver := new Receiver(sink.sent, stalls);
      var frames := ReceiveAll(receiver, |payloads|, pending);
      broken := receiver.broken;
      got := ReceivePackets(frames, payloads[..|frames|], compressed, deflate, inflate);
      assert payloads[..|payloads|] == payloads;
    }
  }

  method SendPackets(payloads: seq<seq<Byte>>, compressed: bool, deflate: seq<Byte> -> seq<Byte>) returns (pending: seq<Frame>)
    requires forall i | 0 <= i < |payloads| :: |payloads[i]| <= MAX_PAYLOAD_LENGTH
    ensures |pending| == |payloads|
    ensures forall i | 0 <= i < |payloads| :: pending[i] == FrameOf(payloads[i], compressed, deflate)
  {
    hide FrameOf;
    pending := [];
    var pools := new Pools();
    while |pending| < |payloads|
      invariant |pending| <= |payloads| && pools.Valid() && fresh(pools) && fresh(pools.free)
      invariant forall i | 0 <= i < |pending| :: pending[i] == FrameOf(payloads[i], compressed, deflate)
    {
      var f := Pack(pools, payloads[|pending|], compressed, deflate);
      pending := pending + [f];
    }
  }

  method ReceivePackets(frames: seq<Frame>, ghost payloads: seq<seq<Byte>>, ghost compressed: bool,
                        ghost deflate: seq<Byte> -> seq<Byte>, inflate: (seq<Byte>, nat) -> Option<seq<Byte>>)
    returns (got: seq<seq<Byte>>)
    requires |frames| == |payloads| && Restores(deflate, inflate, payloads)
    requires forall i | 0 <= i < |payloads| :: 1 <= |payloads[i]| <= MAX_PAYLOAD_LENGTH
    requires forall i | 0 <= i < |payloads| :: frames[i] == FrameOf(payloads[i], compressed, deflate)
    ensures got == payloads
  {
    hide FrameOf, Unpacked;
    got := [];
    var pools := new Pools();
    while |got| < |frames|
      invariant |got| <= |frames| && pools.Valid() && fresh(pools) && fresh(pools.free)
      invariant got == payloads[..|got|]
    {
      FrameBack(payloads[|got|], compressed, deflate, inflate);
      var r := Unpack(pools, frames[|got|], inflate);
      got := got + [r.value];
    }
  }
}
