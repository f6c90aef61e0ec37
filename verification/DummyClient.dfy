/** The load client: its send loop over partial sends, and the packets each connection sends. */
module DummyClients {
  import opened Bytes
  import opened Framing
  import opened StatPackets

  const PACKETS_PER_CLIENT: nat := 100

  /** Packet `i` of a connection. */
  function StatOf(clientId: nat, i: nat): (p: StatPacket)
    requires i < PACKETS_PER_CLIENT
    ensures p.size == 37 && p.id == 1003 && p.characterId as int - 1 == clientId % 10 && p.level == i + 1
    ensures p.hpMax == 10000 && p.hpMax - p.hp == 10 * i && p.mpMax == 5000 && p.mpMax - p.mp == 5 * i
    ensures p.isAlive == 0 && p.lastMapId as int - 1 == clientId % 20
  {
    StatPacket(STAT_SIZE, CHARACTER_STAT_INFO, clientId % 10 + 1,
               1 + i % 100, 10000, 10000 - (i * 10) % 10000, 5000, 5000 - (i * 5) % 5000,
               0, 1 + clientId % 20)
  }

  function StatsOf(clientId: nat, n: nat): (ps: seq<StatPacket>)
    requires n <= PACKETS_PER_CLIENT
    ensures |ps| == n && forall i | 0 <= i < n :: ps[i] == StatOf(clientId, i)
  {
    seq(n, i requires 0 <= i < n => StatOf(clientId, i))
  }

  function EncodeAll(ps: seq<StatPacket>): (s: seq<Packet>)
    ensures |s| == |ps| && forall i | 0 <= i < |ps| :: s[i] == Encode(ps[i])
  {
    seq(|ps|, i requires 0 <= i < |ps| => Encode(ps[i]))
  }

  /** The first `sent` packets are on the wire, and less than the whole of the next one. */
  ghost predicate OnTheWire(ps: seq<StatPacket>, sent: nat, wire: seq<byte>)
    requires sent <= |ps|
  {
    if sent == |ps| then wire == Flatten(EncodeAll(ps))
    else exists cut: nat :: cut < STAT_SIZE && wire == Flatten(EncodeAll(ps[..sent])) + Encode(ps[sent])[..cut]
  }

  lemma OneMoreEncoded(ps: seq<StatPacket>, i: nat)
    requires i < |ps|
    ensures Flatten(EncodeAll(ps[..i + 1])) == Flatten(EncodeAll(ps[..i])) + Encode(ps[i])
  {
    assert EncodeAll(ps[..i + 1]) == EncodeAll(ps[..i]) + [Encode(ps[i])];
    FlattenLast(EncodeAll(ps[..i]), Encode(ps[i]));
  }

  class DummyClient {
    const clientId: nat
    /** Everything the socket has taken so far. */
    var wire: seq<byte>

    constructor (clientId: nat)
      ensures this.clientId == clientId && wire == []
    {
      this.clientId := clientId;
      wire := [];
    }

    /** The socket call: takes a non-empty part of what it is offered, or fails. */
    method Send(data: seq<byte>, at: nat, remaining: nat, offer: int) returns (sent: int)
      requires remaining > 0 && at + remaining <= |data|
      modifies this
      ensures sent <= remaining
      ensures wire == if sent > 0 then old(wire) + data[at..at + sent] else old(wire)
    {
      sent := if offer > remaining then remaining else offer;
      if sent > 0 {
        wire := wire + data[at..at + sent];
      }
    }

    /**
     `kernel(i)` is what call i of the socket would take. The whole packet is on the wire, or the
     call reports failure and a proper prefix of it is.
     */
    method SendPacket(data: seq<byte>, kernel: nat -> int) returns (ok: bool)
      modifies this
      ensures ok ==> wire == old(wire) + data
      ensures !ok ==> exists k: nat :: k < |data| && wire == old(wire) + data[..k]
    {
      var at, remaining, calls := 0, |data|, 0;
      while remaining > 0
        invariant 0 <= at && 0 <= remaining && at + remaining == |data|
        invariant wire == old(wire) + data[..at]
        decreases remaining
      {
        var sent := Send(data, at, remaining, kernel(calls));
        if sent <= 0 {
          return false;
        }
        assert data[..at + sent] == data[..at] + data[at..at + sent];
        at := at + sent;
        remaining := remaining - sent;
        calls := calls + 1;
      }
      return true;
    }

    /**
     The loop of the second phase: packets until one fails. `kernels(i)` is the socket during packet i.
     Exactly the packets counted are on the wire, and a proper part of the one that failed.
     */
    method SendAll(ps: seq<StatPacket>, kernels: nat -> nat -> int) returns (packetsSent: nat, failed: bool)
      requires wire == []
      modifies this
      ensures packetsSent <= |ps| && (failed <==> packetsSent < |ps|)
      ensures OnTheWire(ps, packetsSent, wire)
    {
      packetsSent, failed := 0, false;
      assert EncodeAll(ps[..0]) == [];
      for i := 0 to |ps|
        invariant packetsSent == i && !failed
        invariant wire == Flatten(EncodeAll(ps[..i]))
      {
        var ok := SendPacket(Encode(ps[i]), kernels(i));
        if !ok {
          failed := true;
          return;
        }
        OneMoreEncoded(ps, i);
        packetsSent := packetsSent + 1;
      }
      assert ps[..|ps|] == ps;
    }

    /** The second phase for one connection. */
    method SendStats(kernels: nat -> nat -> int) returns (packetsSent: nat, failed: bool)
      requires wire == []
      modifies this
      ensures packetsSent <= 100 && (failed <==> packetsSent < 100)
      ensures OnTheWire(StatsOf(clientId, PACKETS_PER_CLIENT), packetsSent, wire)
    {
      packetsSent, failed := SendAll(StatsOf(clientId, PACKETS_PER_CLIENT), kernels);
    }
  }
}
