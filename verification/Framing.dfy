/**
 What the receive path of a session means, on plain byte sequences: how length-prefixed
 packets are cut from a stream, and what a bounded buffer that is fed arbitrary chunks
 and drained after each of them hands to the packet handler.
 */
module Framing {
  import opened Bytes

  const HEADER_SIZE: nat := 4
  const BUFFER_SIZE: nat := 16384
  const RECV_SIZE: nat := 8192
  const MAX_DECLARABLE: nat := 0xFFFF

  type Packet = seq<byte>

  /** The 16-bit little-endian size field that opens every packet. */
  function DeclaredSize(buf: seq<byte>): nat
    requires |buf| >= HEADER_SIZE
  {
    buf[0] as nat + 0x100 * (buf[1] as nat)
  }

  /** The condition under which TryAssemblePacket cuts a packet from the head of `buf`. */
  predicate HeadReady(buf: seq<byte>) {
    |buf| >= HEADER_SIZE && HEADER_SIZE <= DeclaredSize(buf) <= |buf|
  }

  /** A well-formed packet carries its own length. */
  predicate IsPacket(p: Packet) {
    |p| >= HEADER_SIZE && DeclaredSize(p) == |p|
  }

  predicate ArePackets(ps: seq<Packet>) {
    forall i | 0 <= i < |ps| :: IsPacket(ps[i])
  }

  datatype Parsed = Parsed(packets: seq<Packet>, rest: seq<byte>)

  /** Cuts packets from the head until none is complete. */
  function Parse(buf: seq<byte>): Parsed
    decreases |buf|
  {
    if !HeadReady(buf) then Parsed([], buf)
    else
      var n := DeclaredSize(buf);
      var tail := Parse(buf[n..]);
      Parsed([buf[..n]] + tail.packets, tail.rest)
  }

  /** Soundness: only whole packets come out, nothing is lost, nothing complete is left. */
  lemma {:induction false} ParseSound(buf: seq<byte>)
    ensures var r := Parse(buf);
            ArePackets(r.packets) && !HeadReady(r.rest) && Flatten(r.packets) + r.rest == buf
    decreases |buf|
  {
    if HeadReady(buf) {
      var n := DeclaredSize(buf);
      var tail := Parse(buf[n..]);
      ParseSound(buf[n..]);
      assert ([buf[..n]] + tail.packets)[1..] == tail.packets;
      assert Flatten(Parse(buf).packets) == buf[..n] + Flatten(tail.packets);
      Reassociate(buf[..n], Flatten(tail.packets), tail.rest);
    }
  }

  lemma ParsePacketFirst(p: Packet, s: seq<byte>)
    requires IsPacket(p)
    ensures Parse(p + s) == Parsed([p] + Parse(s).packets, Parse(s).rest)
  {
    assert (p + s)[..|p|] == p && (p + s)[|p|..] == s;
  }

  /** Completeness: a stream of whole packets and an incomplete tail is cut back into exactly those. */
  lemma {:induction false} ParseComplete(ps: seq<Packet>, tail: seq<byte>)
    requires ArePackets(ps) && !HeadReady(tail)
    ensures Parse(Flatten(ps) + tail) == Parsed(ps, tail)
  {
    if ps == [] {
      assert Flatten(ps) + tail == tail;
    } else {
      Reassociate(ps[0], Flatten(ps[1..]), tail);
      ParsePacketFirst(ps[0], Flatten(ps[1..]) + tail);
      ParseComplete(ps[1..], tail);
      assert [ps[0]] + ps[1..] == ps;
    }
  }

  /** Together: `Parse` is the one way to split a stream into packets and an incomplete tail. */
  lemma ParseIsTheSplit(buf: seq<byte>, ps: seq<Packet>, tail: seq<byte>)
    ensures Parse(buf) == Parsed(ps, tail)
       <==> ArePackets(ps) && !HeadReady(tail) && Flatten(ps) + tail == buf
  {
    ParseSound(buf);
    if ArePackets(ps) && !HeadReady(tail) {
      ParseComplete(ps, tail);
    }
  }

  /** Draining early and going on with what is left gives the same packets as draining once. */
  lemma ParseAppend(a: seq<byte>, b: seq<byte>)
    ensures var first := Parse(a);
            var second := Parse(first.rest + b);
            Parse(a + b) == Parsed(first.packets + second.packets, second.rest)
  {
    var first := Parse(a);
    var second := Parse(first.rest + b);
    var packets := first.packets + second.packets;
    ParseSound(a);
    ParseSound(first.rest + b);
    assert Flatten(packets) + second.rest == a + b by {
      FlattenAppend(first.packets, second.packets);
      Reassociate(Flatten(first.packets), Flatten(second.packets), second.rest);
      Reassociate(Flatten(first.packets), first.rest, b);
    }
    ParseComplete(packets, second.rest);
  }

  // ------------------------------------------------------------------
  // Runs of receives
  // ------------------------------------------------------------------

  /** What a session has handled, still holds, and how many receives it refused for lack of room. */
  datatype Receiver = Receiver(handled: seq<Packet>, buffered: seq<byte>, refused: nat)

  const FRESH: Receiver := Receiver([], [], 0)

  /** One receive completion: all of `chunk` is buffered and drained, or all of it is dropped. */
  function Receive(r: Receiver, chunk: seq<byte>, capacity: nat): Receiver {
    if |r.buffered| + |chunk| > capacity then r.(refused := r.refused + 1)
    else
      var p := Parse(r.buffered + chunk);
      Receiver(r.handled + p.packets, p.rest, r.refused)
  }

  function ReceiveAll(chunks: seq<seq<byte>>, capacity: nat): Receiver {
    if chunks == [] then FRESH
    else Receive(ReceiveAll(chunks[..|chunks| - 1], capacity), chunks[|chunks| - 1], capacity)
  }

  /** The receives that were not refused, in order. */
  function AcceptedChunks(chunks: seq<seq<byte>>, capacity: nat): seq<seq<byte>> {
    if chunks == [] then []
    else
      var before, chunk := chunks[..|chunks| - 1], chunks[|chunks| - 1];
      if |ReceiveAll(before, capacity).buffered| + |chunk| > capacity then AcceptedChunks(before, capacity)
      else AcceptedChunks(before, capacity) + [chunk]
  }

  function Accepted(chunks: seq<seq<byte>>, capacity: nat): seq<byte> {
    Flatten(AcceptedChunks(chunks, capacity))
  }

  /** Each receive is accepted or counted as refused. */
  lemma {:induction false} RefusedAreCounted(chunks: seq<seq<byte>>, capacity: nat)
    ensures ReceiveAll(chunks, capacity).refused + |AcceptedChunks(chunks, capacity)| == |chunks|
  {
    if chunks != [] {
      RefusedAreCounted(chunks[..|chunks| - 1], capacity);
    }
  }

  lemma AcceptedLast(chunks: seq<seq<byte>>, capacity: nat)
    requires chunks != []
    ensures var before, chunk := chunks[..|chunks| - 1], chunks[|chunks| - 1];
            Accepted(chunks, capacity)
            == if |ReceiveAll(before, capacity).buffered| + |chunk| > capacity then Accepted(before, capacity)
               else Accepted(before, capacity) + chunk
  {
    FlattenLast(AcceptedChunks(chunks[..|chunks| - 1], capacity), chunks[|chunks| - 1]);
  }

  /** On any input whatever, a run is one parse of the accepted bytes: chunk borders leave no trace. */
  lemma {:induction false} RunIsOneParse(chunks: seq<seq<byte>>, capacity: nat)
    ensures var r := ReceiveAll(chunks, capacity);
            Parsed(r.handled, r.buffered) == Parse(Accepted(chunks, capacity))
    ensures |ReceiveAll(chunks, capacity).buffered| <= capacity
  {
    if chunks != [] {
      var before, chunk := chunks[..|chunks| - 1], chunks[|chunks| - 1];
      RunIsOneParse(before, capacity);
      AcceptedLast(chunks, capacity);
      ParseAppend(Accepted(before, capacity), chunk);
      ParseSound(ReceiveAll(before, capacity).buffered + chunk);
    }
  }

  /** Conservation on arbitrary bytes, well-formed or not. */
  lemma Conservation(chunks: seq<seq<byte>>, capacity: nat)
    ensures var r := ReceiveAll(chunks, capacity);
            && Flatten(r.handled) + r.buffered == Accepted(chunks, capacity)
            && ArePackets(r.handled)
            && !HeadReady(r.buffered)
            && |r.buffered| <= capacity
            && r.refused + |AcceptedChunks(chunks, capacity)| == |chunks|
  {
    RunIsOneParse(chunks, capacity);
    RefusedAreCounted(chunks, capacity);
    ParseSound(Accepted(chunks, capacity));
  }

  lemma {:induction false} NothingRefused(chunks: seq<seq<byte>>, capacity: nat)
    requires ReceiveAll(chunks, capacity).refused == 0
    ensures AcceptedChunks(chunks, capacity) == chunks
  {
    if chunks != [] {
      var before, chunk := chunks[..|chunks| - 1], chunks[|chunks| - 1];
      NothingRefused(before, capacity);
      assert before + [chunk] == chunks;
    }
  }

  // ------------------------------------------------------------------
  // Well-formed streams and the capacity bound
  // ------------------------------------------------------------------

  /** Every size field in the stream lies in [HEADER_SIZE, max]; the stream may stop anywhere. */
  predicate Bounded(stream: seq<byte>, max: nat)
    decreases |stream|
  {
    |stream| >= HEADER_SIZE ==>
      var n := DeclaredSize(stream);
      HEADER_SIZE <= n <= max && (n <= |stream| ==> Bounded(stream[n..], max))
  }

  predicate ChunksOf(chunks: seq<seq<byte>>, recv: nat) {
    forall i | 0 <= i < |chunks| :: 1 <= |chunks[i]| <= recv
  }

  lemma {:induction false} BoundedPrefix(a: seq<byte>, b: seq<byte>, max: nat)
    requires Bounded(a + b, max)
    ensures Bounded(a, max)
    decreases |a|
  {
    if |a| >= HEADER_SIZE {
      assert a == (a + b)[..|a|];
      var n := DeclaredSize(a + b);
      if n <= |a| {
        assert (a + b)[n..] == a[n..] + b;
        BoundedPrefix(a[n..], b, max);
      }
    }
  }

  /** What is left of a bounded stream after draining is shorter than a largest packet. */
  lemma {:induction false} BoundedRest(stream: seq<byte>, max: nat)
    requires Bounded(stream, max) && max >= HEADER_SIZE
    ensures |Parse(stream).rest| <= max - 1
    decreases |stream|
  {
    if HeadReady(stream) {
      BoundedRest(stream[DeclaredSize(stream)..], max);
    }
  }

  /** If packets of at most `max` bytes meet `max - 1 + recv <= capacity`, no receive is ever refused. */
  lemma {:induction false} CapacitySuffices(chunks: seq<seq<byte>>, max: nat, recv: nat, capacity: nat)
    requires HEADER_SIZE <= max && max - 1 + recv <= capacity
    requires ChunksOf(chunks, recv) && Bounded(Flatten(chunks), max)
    ensures ReceiveAll(chunks, capacity).refused == 0
  {
    if chunks != [] {
      var before, chunk := chunks[..|chunks| - 1], chunks[|chunks| - 1];
      assert before + [chunk] == chunks;
      FlattenLast(before, chunk);
      BoundedPrefix(Flatten(before), chunk, max);
      CapacitySuffices(before, max, recv, capacity);
      NothingRefused(before, capacity);
      RunIsOneParse(before, capacity);
      BoundedRest(Flatten(before), max);
    }
  }

  /** Concatenated packets, cut off anywhere, form a bounded stream. */
  lemma {:induction false} PacketsAreBounded(ps: seq<Packet>, max: nat, cut: nat)
    requires ArePackets(ps) && forall i | 0 <= i < |ps| :: |ps[i]| <= max
    requires cut <= |Flatten(ps)|
    ensures Bounded(Flatten(ps)[..cut], max)
  {
    if ps != [] && cut >= HEADER_SIZE {
      var stream, p := Flatten(ps)[..cut], ps[0];
      assert stream[0] == p[0] && stream[1] == p[1];
      if |p| <= cut {
        PacketsAreBounded(ps[1..], max, cut - |p|);
        assert stream[|p|..] == Flatten(ps[1..])[..cut - |p|];
      }
    }
  }

  /** The packets that lie completely within the first `cut` bytes. */
  function CompletedWithin(ps: seq<Packet>, cut: nat): nat {
    if ps == [] || cut < |ps[0]| then 0 else 1 + CompletedWithin(ps[1..], cut - |ps[0]|)
  }

  /** A cut behind a first packet `p` is a cut of what follows it. */
  lemma ParseCutBehind(p: Packet, s: seq<byte>, from: nat, to: nat)
    requires IsPacket(p) && from <= to <= |s|
    ensures var r := Parse(s[..to]);
            Parse((p + s)[..|p| + to]) == Parsed([p] + r.packets, r.rest)
    ensures (p + s)[|p| + from..|p| + to] == s[from..to]
  {
    assert (p + s)[..|p| + to] == p + s[..to];
    ParsePacketFirst(p, s[..to]);
  }

  lemma FlattenMore(ps: seq<Packet>, j: nat)
    requires j < |ps|
    ensures ps[..j + 1] == [ps[0]] + ps[1..][..j]
    ensures Flatten(ps[..j + 1]) == ps[0] + Flatten(ps[1..][..j])
  {
    assert ps[..j + 1][1..] == ps[1..][..j];
  }

  lemma ParseUnfinished(p: Packet, s: seq<byte>, cut: nat)
    requires IsPacket(p) && cut < |p|
    ensures Parse((p + s)[..cut]) == Parsed([], (p + s)[..cut])
  {
    var stream := (p + s)[..cut];
    assert |stream| >= HEADER_SIZE ==> DeclaredSize(stream) == |p|;
  }

  /** Parsing the first `cut` bytes of a stream of packets gives the packets completed within them. */
  lemma {:induction false} ParseCutStream(ps: seq<Packet>, cut: nat)
    requires ArePackets(ps) && cut <= |Flatten(ps)|
    ensures var k := CompletedWithin(ps, cut);
            k <= |ps| && |Flatten(ps[..k])| <= cut &&
            Parse(Flatten(ps)[..cut]) == Parsed(ps[..k], Flatten(ps)[|Flatten(ps[..k])|..cut])
  {
    if ps == [] {
    } else if cut < |ps[0]| {
      ParseUnfinished(ps[0], Flatten(ps[1..]), cut);
    } else {
      ParseCutStream(ps[1..], cut - |ps[0]|);
      ParseCutOneMore(ps, cut);
    }
  }

  lemma ParseCutOneMore(ps: seq<Packet>, cut: nat)
    requires ArePackets(ps) && ps != [] && |ps[0]| <= cut <= |Flatten(ps)|
    requires var others, less := ps[1..], cut - |ps[0]|;
             var j := CompletedWithin(others, less);
             j <= |others| && |Flatten(others[..j])| <= less &&
             Parse(Flatten(others)[..less]) == Parsed(others[..j], Flatten(others)[|Flatten(others[..j])|..less])
    ensures var k := CompletedWithin(ps, cut);
            k <= |ps| && |Flatten(ps[..k])| <= cut &&
            Parse(Flatten(ps)[..cut]) == Parsed(ps[..k], Flatten(ps)[|Flatten(ps[..k])|..cut])
  {
    var p, others, less := ps[0], ps[1..], cut - |ps[0]|;
    var j := CompletedWithin(others, less);
    FlattenMore(ps, j);
    ParseCutBehind(p, Flatten(others), |Flatten(others[..j])|, less);
  }

  /**
   Chunking independence: however the bytes of well-formed packets are cut into receives, nothing
   is refused, the handler has been given exactly the packets completed so far, in order, and
   exactly the bytes of the incomplete one are buffered.
   */
  lemma ChunkingIndependence(ps: seq<Packet>, chunks: seq<seq<byte>>, max: nat, recv: nat, capacity: nat)
    requires ArePackets(ps) && forall i | 0 <= i < |ps| :: |ps[i]| <= max
    requires HEADER_SIZE <= max && max - 1 + recv <= capacity
    requires ChunksOf(chunks, recv) && Flatten(chunks) <= Flatten(ps)
    ensures var k := CompletedWithin(ps, |Flatten(chunks)|);
            k <= |ps| && |Flatten(ps[..k])| <= |Flatten(chunks)| &&
            ReceiveAll(chunks, capacity)
            == Receiver(ps[..k], Flatten(chunks)[|Flatten(ps[..k])|..], 0)
  {
    var cut := |Flatten(chunks)|;
    assert Flatten(ps)[..cut] == Flatten(chunks);
    PacketsAreBounded(ps, max, cut);
    CapacitySuffices(chunks, max, recv, capacity);
    NothingRefused(chunks, capacity);
    RunIsOneParse(chunks, capacity);
    ParseCutStream(ps, cut);
  }
}
