/** From the encoder's packets to what a client decodes: the relayer's frames, the fan-out and the wire format together. */
module EndToEnd {
  import opened Basics
  import opened WireFormat
  import FanOut
  import Ingest

  /** What the client makes of a packet; timestamps pass through doubles. */
  function Seen(p: Packet): Chunk {
    Chunk(p.isKey, RoundToDouble(p.pts % TWO_64), RoundToDouble(p.dts % TWO_64), p.payload)
  }

  lemma SeenIff(p: Packet)
    ensures Representable(p.pts) && Representable(p.dts) <==> p.pts >= 0 && p.dts >= 0 && Seen(p) == ChunkOf(p)
  {
    TimestampExactIff(p.pts);
    TimestampExactIff(p.dts);
  }

  /** The delivered frames decode, one by one, to packets `first`, `first + 1`, ... */
  predicate DecodesTo(delivered: seq<seq<byte>>, packets: seq<Packet>, first: nat) {
    && first + |delivered| <= |packets|
    && forall i :: 0 <= i < |delivered| ==> Decode(delivered[i]) == Some(Seen(packets[first + i]))
  }

  /** A stretch of the frames decodes to the same stretch of the packets. */
  lemma StretchDecodes(log: seq<seq<byte>>, packets: seq<Packet>, first: nat, delivered: seq<seq<byte>>)
    requires SentAs(log, packets, |log|) && forall p <- packets :: Encodable(p)
    requires first + |delivered| <= |log| && delivered == log[first..first + |delivered|]
    ensures DecodesTo(delivered, packets, first)
  {
    hide Decode, EncodeFrame, Seen, Encodable;
    forall i | 0 <= i < |delivered| ensures Decode(delivered[i]) == Some(Seen(packets[first + i])) {
      assert delivered[i] == log[first + i];
      assert packets[first + i] in packets;
      SeenOf(packets[first + i]);
    }
  }

  lemma SeenOf(p: Packet)
    requires Encodable(p)
    ensures Decode(EncodeFrame(p)) == Some(Seen(p))
  {
    DecodeOfEncode(p);
  }

  function First(es: seq<FanOut.Event>, s: nat): nat {
    var joined := FanOut.JoinedAt(es, s);
    if joined.Some? then joined.value else 0
  }

  /**
   For every run of the hub that broadcasts frames of these packets: what any client has received
   decodes, in order, to a contiguous run of the packets, starting with the first one broadcast after
   the client registered.
   */
  lemma {:induction false} ClientSeesContiguousPackets(es: seq<FanOut.Event>, s: nat, packets: seq<Packet>)
    requires FanOut.Legal(es) && s in FanOut.Exec(es).clients
    requires SentAs(FanOut.Log(es), packets, |FanOut.Log(es)|) && forall p <- packets :: Encodable(p)
    ensures DecodesTo(FanOut.Exec(es).clients[s].session.delivered, packets, First(es, s))
  {
    var delivered := FanOut.Exec(es).clients[s].session.delivered;
    FanOut.FanOutRefinesLog(es, s);
    if FanOut.JoinedAt(es, s).Some? {
      FanOut.WindowIsSlice(es, s);
    } else {
      assert FanOut.Window(es, s) == [];
    }
    hide FanOut.Exec, FanOut.Legal, FanOut.Log, FanOut.JoinedAt, FanOut.LeftAt, FanOut.Window, EncodeFrame, Encodable;
    StretchDecodes(FanOut.Log(es), packets, First(es, s), delivered);
  }

  lemma InRangeSeen(p: Packet)
    requires 0 <= p.pts < TWO_53 && 0 <= p.dts < TWO_53
    ensures Seen(p) == ChunkOf(p)
  {
    SeenIff(p);
  }

  /** With timestamps below 2^53 the client recovers flag, timestamps and payload of those packets exactly. */
  lemma {:induction false} ClientRecoversPackets(es: seq<FanOut.Event>, s: nat, packets: seq<Packet>, i: nat)
    requires FanOut.Legal(es) && s in FanOut.Exec(es).clients
    requires SentAs(FanOut.Log(es), packets, |FanOut.Log(es)|)
    requires forall p <- packets :: Encodable(p) && 0 <= p.pts < TWO_53 && 0 <= p.dts < TWO_53
    requires i < |FanOut.Exec(es).clients[s].session.delivered|
    ensures First(es, s) + i < |packets|
    ensures var p := packets[First(es, s) + i];
            p.pts >= 0 && p.dts >= 0 && Decode(FanOut.Exec(es).clients[s].session.delivered[i]) == Some(ChunkOf(p))
  {
    ClientSeesContiguousPackets(es, s, packets);
    var p := packets[First(es, s) + i];
    assert p in packets;
    InRangeSeen(p);
    hide FanOut.Exec, FanOut.Legal, FanOut.Log, First, EncodeFrame, Decode, Seen;
  }

  /**
   The relayer, the hub and the clients together: whenever the ingest loop is between broadcasts, and whatever
   the clients have done since, each of them has decoded, in order, a contiguous run of what the encoder gave out.
   */
  lemma ClientsSeeTheFeed(m: Ingest.Media, since: seq<FanOut.Event>, s: nat)
    requires m.Valid() && m.AllSent() && FanOut.Legal(m.run + since) && FanOut.NoBegin(since)
    requires s in FanOut.Exec(m.run + since).clients
    ensures DecodesTo(FanOut.Exec(m.run + since).clients[s].session.delivered, m.feed[..m.fed], First(m.run + since, s))
  {
    FanOut.LogOfQuiet(m.run, since);
    hide FanOut.Exec, FanOut.Legal, FanOut.Log, FanOut.NoBegin, First, EncodeFrame, Encodable, DecodesTo;
    ClientSeesContiguousPackets(m.run + since, s, m.feed[..m.fed]);
  }

  /** With timestamps below 2^53 they recover those packets exactly. */
  lemma ClientsRecoverTheFeed(m: Ingest.Media, since: seq<FanOut.Event>, s: nat, i: nat)
    requires m.Valid() && m.AllSent() && FanOut.Legal(m.run + since) && FanOut.NoBegin(since)
    requires s in FanOut.Exec(m.run + since).clients
    requires i < |FanOut.Exec(m.run + since).clients[s].session.delivered|
    requires forall p <- m.feed :: 0 <= p.pts < TWO_53 && 0 <= p.dts < TWO_53
    ensures First(m.run + since, s) + i < m.fed
    ensures var p := m.feed[First(m.run + since, s) + i];
            && p.pts >= 0 && p.dts >= 0
            && Decode(FanOut.Exec(m.run + since).clients[s].session.delivered[i]) == Some(ChunkOf(p))
  {
    FanOut.LogOfQuiet(m.run, since);
    hide FanOut.Exec, FanOut.Legal, FanOut.Log, FanOut.NoBegin, First, EncodeFrame, Encodable, Decode;
    ClientRecoversPackets(m.run + since, s, m.feed[..m.fed], i);
  }
}
