/** From the client's packet fields to the server's packet handler. */
module EndToEnd {
  import opened Bytes
  import opened Framing
  import opened StatPackets
  import opened DummyClients
  import opened Sessions

  lemma EncodedArePackets(ps: seq<StatPacket>)
    requires forall i | 0 <= i < |ps| :: ps[i].size == STAT_SIZE
    ensures ArePackets(EncodeAll(ps))
  {
    forall i | 0 <= i < |ps|
      ensures IsPacket(EncodeAll(ps)[i])
    {
      SizeFieldIsFirst(ps[i]);
    }
  }

  lemma {:induction false} WholePackets(ps: seq<StatPacket>, n: nat)
    requires n <= |Flatten(EncodeAll(ps))|
    ensures |Flatten(EncodeAll(ps))| == STAT_SIZE * |ps|
    ensures CompletedWithin(EncodeAll(ps), n) == n / STAT_SIZE <= |ps|
    decreases |ps|
  {
    if ps != [] {
      assert EncodeAll(ps)[1..] == EncodeAll(ps[1..]);
      WholePackets(ps[1..], 0);
      if n >= STAT_SIZE {
        WholePackets(ps[1..], n - STAT_SIZE);
      }
    }
  }

  /** The packet has the right length and decodes to every field of the stat. */
  predicate Carries(packet: Packet, p: StatPacket) {
    |packet| == STAT_SIZE && Decode(packet) == p
  }

  lemma AllCarried(ps: seq<StatPacket>, k: nat)
    requires k <= |ps|
    ensures forall i | 0 <= i < k :: Carries(EncodeAll(ps)[..k][i], ps[i])
  {
    forall i | 0 <= i < k
      ensures Carries(EncodeAll(ps)[..k][i], ps[i])
    {
      StatRoundTrip(ps[i], Encode(ps[i]));
    }
  }

  /**
   Whatever stat packets are sent and however their bytes arrive, the handler has been given one
   packet for every 37 bytes received, and decoding each gives back the fields that were sent.
   */
  lemma StatsArrive(ps: seq<StatPacket>, chunks: seq<seq<byte>>)
    requires forall i | 0 <= i < |ps| :: ps[i].size == STAT_SIZE
    requires ChunksOf(chunks, RECV_SIZE) && Flatten(chunks) <= Flatten(EncodeAll(ps))
    ensures var r, k := ReceiveAll(chunks, BUFFER_SIZE), |Flatten(chunks)| / STAT_SIZE;
            && r.refused == 0
            && k <= |ps| && |r.handled| == k
            && (forall i | 0 <= i < k :: Carries(r.handled[i], ps[i]))
            && |r.buffered| == |Flatten(chunks)| % STAT_SIZE
  {
    var k := |Flatten(chunks)| / STAT_SIZE;
    EncodedPrefixArrives(ps, chunks);
    EncodedLength(ps, k);
    AllCarried(ps, k);
  }

  lemma EncodedLength(ps: seq<StatPacket>, k: nat)
    requires k <= |ps|
    ensures |Flatten(EncodeAll(ps)[..k])| == STAT_SIZE * k
  {
    assert EncodeAll(ps)[..k] == EncodeAll(ps[..k]);
    WholePackets(ps[..k], 0);
  }

  lemma EncodedPrefixArrives(ps: seq<StatPacket>, chunks: seq<seq<byte>>)
    requires forall i | 0 <= i < |ps| :: ps[i].size == STAT_SIZE
    requires ChunksOf(chunks, RECV_SIZE) && Flatten(chunks) <= Flatten(EncodeAll(ps))
    ensures var r, k := ReceiveAll(chunks, BUFFER_SIZE), |Flatten(chunks)| / STAT_SIZE;
            k <= |ps| && r.refused == 0 && r.handled == EncodeAll(ps)[..k]
            && |r.buffered| == |Flatten(chunks)| - |Flatten(EncodeAll(ps)[..k])|
  {
    EncodedArePackets(ps);
    WholePackets(ps, |Flatten(chunks)|);
    ChunkingIndependence(EncodeAll(ps), chunks, STAT_SIZE, RECV_SIZE, BUFFER_SIZE);
  }

  lemma FlattenSplit(ps: seq<StatPacket>, k: nat)
    requires k < |ps|
    ensures Flatten(EncodeAll(ps)) == Flatten(EncodeAll(ps[..k])) + Encode(ps[k]) + Flatten(EncodeAll(ps[k + 1..]))
  {
    assert EncodeAll(ps) == (EncodeAll(ps[..k]) + [Encode(ps[k])]) + EncodeAll(ps[k + 1..]);
    FlattenAppend(EncodeAll(ps[..k]) + [Encode(ps[k])], EncodeAll(ps[k + 1..]));
    FlattenLast(EncodeAll(ps[..k]), Encode(ps[k]));
  }

  /** What the client has put on the wire is a beginning of the stream of all packets, with `sent` whole ones. */
  lemma WireIsPrefix(ps: seq<StatPacket>, sent: nat, wire: seq<byte>)
    requires sent <= |ps| && OnTheWire(ps, sent, wire)
    ensures wire <= Flatten(EncodeAll(ps)) && |wire| / STAT_SIZE == sent
  {
    WholePackets(ps[..sent], 0);
    if sent == |ps| {
      assert ps[..sent] == ps;
    } else {
      FlattenSplit(ps, sent);
    }
  }

  /**
   The handler has one packet for every 37 bytes received, decoding to the stats sent, and all that
   were counted once everything on the wire has been received.
   */
  ghost predicate Arrived(ps: seq<StatPacket>, sent: nat, wire: seq<byte>, chunks: seq<seq<byte>>, r: Receiver) {
    && r.refused == 0
    && |r.handled| == |Flatten(chunks)| / STAT_SIZE <= sent <= |ps|
    && (forall i | 0 <= i < |r.handled| :: Carries(r.handled[i], ps[i]))
    && |r.buffered| == |Flatten(chunks)| % STAT_SIZE
    && (Flatten(chunks) == wire ==> |r.handled| == sent)
  }

  lemma SentArrives(ps: seq<StatPacket>, sent: nat, wire: seq<byte>, chunks: seq<seq<byte>>)
    requires forall i | 0 <= i < |ps| :: ps[i].size == STAT_SIZE
    requires sent <= |ps| && OnTheWire(ps, sent, wire)
    requires ChunksOf(chunks, RECV_SIZE) && Flatten(chunks) <= wire
    ensures Arrived(ps, sent, wire, chunks, ReceiveAll(chunks, BUFFER_SIZE))
  {
    WireIsPrefix(ps, sent, wire);
    StatsArrive(ps, chunks);
  }

  /**
   The client's loop, then the server's: whatever packets are sent, whatever parts of them the socket
   takes at a time and wherever it fails, and however `network` cuts what is on the wire into receives,
   the server's handler is given exactly the packets that have arrived, and all that the client counted
   if everything on the wire has.
   */
  method ClientToServer(
    client: DummyClient, server: Session, ps: seq<StatPacket>, kernels: nat -> nat -> int,
    network: seq<byte> -> seq<seq<byte>>)
    returns (packetsSent: nat, failed: bool)
    requires client.wire == [] && forall i | 0 <= i < |ps| :: ps[i].size == STAT_SIZE
    requires server.ReceiveValid() && server.View() == FRESH
    requires server.recvBuffer.Length == RECV_SIZE && server.ring.buffer.Length == BUFFER_SIZE
    requires forall wire :: ChunksOf(network(wire), RECV_SIZE) && Flatten(network(wire)) <= wire
    modifies client, server, server.recvBuffer, server.ring, server.ring.buffer
    ensures server.ReceiveValid() && packetsSent <= |ps| && (failed <==> packetsSent < |ps|)
    ensures Arrived(ps, packetsSent, client.wire, network(client.wire), server.View())
  {
    packetsSent, failed := client.SendAll(ps, kernels);
    var chunks := network(client.wire);
    SentArrives(ps, packetsSent, client.wire, chunks);
    server.ServeReceives(chunks);
  }
}
