/**
 The two limits of the receive path, exactly: which packet sizes can never overflow the
 buffer, and which sessions can never hand over another packet.
 */
module FramingBounds {
  import opened Bytes
  import opened Framing

  /** Every byte of `s` as a receive of its own. */
  function Singles(s: seq<byte>): seq<seq<byte>> {
    if s == [] then [] else Singles(s[..|s| - 1]) + [[s[|s| - 1]]]
  }

  lemma {:induction false} FlattenSingles(s: seq<byte>)
    ensures Flatten(Singles(s)) == s && |Singles(s)| == |s|
    ensures forall i | 0 <= i < |s| :: |Singles(s)[i]| == 1
  {
    if s != [] {
      FlattenSingles(s[..|s| - 1]);
      FlattenLast(Singles(s[..|s| - 1]), [s[|s| - 1]]);
    }
  }

  lemma {:induction false} FlattenLong(ps: seq<Packet>)
    requires ArePackets(ps)
    ensures |Flatten(ps)| >= |ps|
  {
    if ps != [] {
      FlattenLong(ps[1..]);
    }
  }

  /** A packet of `size` bytes whose payload is zero. */
  function Blank(size: nat): (p: Packet)
    requires HEADER_SIZE <= size <= MAX_DECLARABLE
    ensures IsPacket(p) && |p| == size
  {
    [(size % 0x100) as byte, (size / 0x100) as byte] + seq(size - 2, _ => 0)
  }

  /** No stream of packets of at most `max` bytes, however received, overflows the buffer. */
  ghost predicate NeverOverflows(max: nat, recv: nat, capacity: nat) {
    forall ps: seq<Packet>, chunks: seq<seq<byte>> ::
      ArePackets(ps) && (forall i | 0 <= i < |ps| :: |ps[i]| <= max)
      && ChunksOf(chunks, recv) && Flatten(chunks) <= Flatten(ps)
      ==> ReceiveAll(chunks, capacity).refused == 0
  }

  /** Bytes of one unfinished packet stay in the buffer if they were all accepted. */
  lemma UnfinishedStays(short: seq<byte>, capacity: nat)
    requires !HeadReady(short) && ReceiveAll(Singles(short), capacity).refused == 0
    ensures ReceiveAll(Singles(short), capacity).buffered == short
  {
    FlattenSingles(short);
    NothingRefused(Singles(short), capacity);
    RunIsOneParse(Singles(short), capacity);
  }

  lemma LastStraw(short: seq<byte>, last: seq<byte>, recv: nat, capacity: nat) returns (chunks: seq<seq<byte>>)
    requires !HeadReady(short) && 1 <= |last| <= recv && |short| + |last| > capacity
    ensures ChunksOf(chunks, recv) && Flatten(chunks) <= short + last
    ensures ReceiveAll(chunks, capacity).refused > 0
  {
    chunks := Singles(short);
    FlattenSingles(short);
    if ReceiveAll(chunks, capacity).refused == 0 {
      UnfinishedStays(short, capacity);
      FlattenLast(chunks, last);
      var before := chunks;
      chunks := before + [last];
      assert chunks[..|chunks| - 1] == before;
    }
  }

  /** Beyond the bound: all but one byte of a largest packet, then a full receive. */
  lemma OverflowingRun(max: nat, recv: nat, capacity: nat) returns (ps: seq<Packet>, chunks: seq<seq<byte>>)
    requires HEADER_SIZE <= max <= MAX_DECLARABLE && 1 <= recv && max - 1 + recv > capacity
    ensures ArePackets(ps) && forall i | 0 <= i < |ps| :: |ps[i]| <= max
    ensures ChunksOf(chunks, recv) && Flatten(chunks) <= Flatten(ps)
    ensures ReceiveAll(chunks, capacity).refused > 0
  {
    ps := [Blank(max)] + seq(recv, _ => Blank(max));
    FlattenLong(ps[1..]);
    var stream := Flatten(ps);
    assert stream == Blank(max) + Flatten(ps[1..]);
    var short, last := stream[..max - 1], stream[max - 1..max - 1 + recv];
    assert |short| >= HEADER_SIZE ==> DeclaredSize(short) == max;
    chunks := LastStraw(short, last, recv, capacity);
    assert short + last == stream[..max - 1 + recv];
  }

  /** The capacity bound is exact for every packet, receive and buffer size. */
  lemma CapacityBoundIsExact(max: nat, recv: nat, capacity: nat)
    requires HEADER_SIZE <= max <= MAX_DECLARABLE && 1 <= recv
    ensures NeverOverflows(max, recv, capacity) <==> max - 1 + recv <= capacity
  {
    if max - 1 + recv <= capacity {
      forall ps: seq<Packet>, chunks: seq<seq<byte>> |
        ArePackets(ps) && (forall i | 0 <= i < |ps| :: |ps[i]| <= max)
        && ChunksOf(chunks, recv) && Flatten(chunks) <= Flatten(ps)
        ensures ReceiveAll(chunks, capacity).refused == 0
      {
        ChunkingIndependence(ps, chunks, max, recv, capacity);
      }
    } else {
      var ps, chunks := OverflowingRun(max, recv, capacity);
    }
  }

  /** With the server's own sizes the largest safe packet has 8193 bytes. */
  lemma ServerCapacityBound(max: nat)
    requires HEADER_SIZE <= max <= MAX_DECLARABLE
    ensures NeverOverflows(max, RECV_SIZE, BUFFER_SIZE) <==> max <= 8193
  {
    CapacityBoundIsExact(max, RECV_SIZE, BUFFER_SIZE);
  }

  // ------------------------------------------------------------------
  // Sessions that can never deliver again
  // ------------------------------------------------------------------

  /** The size field at the head is already known and can never be satisfied. */
  predicate Doomed(buf: seq<byte>, capacity: nat) {
    |buf| >= 2 && !(HEADER_SIZE <= buf[0] as nat + 0x100 * (buf[1] as nat) <= capacity)
  }

  lemma {:induction false} DoomedStaysDoomed(before: seq<seq<byte>>, after: seq<seq<byte>>, capacity: nat)
    requires Doomed(ReceiveAll(before, capacity).buffered, capacity)
    ensures var r := ReceiveAll(before + after, capacity);
            r.handled == ReceiveAll(before, capacity).handled && Doomed(r.buffered, capacity)
  {
    if after == [] {
      assert before + after == before;
    } else {
      var early, chunk := after[..|after| - 1], after[|after| - 1];
      DoomedStaysDoomed(before, early, capacity);
      assert (before + after)[..|before + after| - 1] == before + early;
      var r := ReceiveAll(before + early, capacity);
      RunIsOneParse(before + early, capacity);
      if |r.buffered| + |chunk| <= capacity {
        assert !HeadReady(r.buffered + chunk);
      }
    }
  }

  lemma {:induction false} Trickle(before: seq<seq<byte>>, x: seq<byte>, capacity: nat)
    requires var b := ReceiveAll(before, capacity).buffered;
             |b + x| <= capacity && forall k | 0 <= k <= |x| :: !HeadReady(b + x[..k])
    ensures var r := ReceiveAll(before, capacity);
            ReceiveAll(before + Singles(x), capacity) == r.(buffered := r.buffered + x)
  {
    var r := ReceiveAll(before, capacity);
    if x == [] {
      assert before + Singles(x) == before && r.buffered + x == r.buffered;
    } else {
      var y, z := x[..|x| - 1], [x[|x| - 1]];
      forall k | 0 <= k <= |y|
        ensures !HeadReady(r.buffered + y[..k])
      {
        assert y[..k] == x[..k];
      }
      Trickle(before, y, capacity);
      assert (before + Singles(x))[..|before + Singles(x)| - 1] == before + Singles(y);
      assert r.buffered + y + z == r.buffered + x && x[..|x|] == x;
    }
  }

  /** The bytes that complete the packet whose first bytes are `buf`. */
  function Completion(buf: seq<byte>, capacity: nat): (x: seq<byte>)
    requires !Doomed(buf, capacity) && !HeadReady(buf) && capacity >= 0x103
    ensures var b := buf + x;
            x != [] && |b| >= HEADER_SIZE && |b| == DeclaredSize(b) <= capacity
  {
    var head := if |buf| == 0 then [4, 0]
                else if |buf| == 1 then (if buf[0] >= 4 then [buf[0], 0] else [buf[0], 1])
                else buf[..2];
    var size := head[0] as nat + 0x100 * (head[1] as nat);
    var whole := (if |buf| < 2 then head else buf) + seq(size - (if |buf| < 2 then 2 else |buf|), _ => 0);
    assert whole[..|buf|] == buf;
    assert buf + whole[|buf|..] == whole;
    whole[|buf|..]
  }

  lemma ReadyDelivers(r: Receiver, chunk: seq<byte>, capacity: nat)
    requires |r.buffered| + |chunk| <= capacity && HeadReady(r.buffered + chunk)
    ensures |Receive(r, chunk, capacity).handled| > |r.handled|
  {
  }

  lemma ReceiveAllLast(before: seq<seq<byte>>, chunk: seq<byte>, capacity: nat)
    ensures ReceiveAll(before + [chunk], capacity) == Receive(ReceiveAll(before, capacity), chunk, capacity)
  {
    assert (before + [chunk])[..|before|] == before;
  }

  lemma NotReadyBefore(whole: seq<byte>, k: nat)
    requires |whole| >= HEADER_SIZE && |whole| == DeclaredSize(whole) && k < |whole|
    ensures !HeadReady(whole[..k])
  {
  }

  lemma SinglesLast(y: seq<byte>, c: byte)
    ensures Singles(y + [c]) == Singles(y) + [[c]]
  {
    assert (y + [c])[..|y|] == y;
  }

  lemma CompletionDelivers(before: seq<seq<byte>>, y: seq<byte>, c: byte, capacity: nat)
    requires var whole := ReceiveAll(before, capacity).buffered + y + [c];
             |whole| >= HEADER_SIZE && |whole| == DeclaredSize(whole) <= capacity
    ensures |ReceiveAll(before + Singles(y + [c]), capacity).handled| > |ReceiveAll(before, capacity).handled|
  {
    var b := ReceiveAll(before, capacity).buffered;
    var whole := b + y + [c];
    forall k | 0 <= k <= |y|
      ensures !HeadReady(b + y[..k])
    {
      NotReadyBefore(whole, |b| + k);
      assert b + y[..k] == whole[..|b| + k];
    }
    Trickle(before, y, capacity);
    ReadyDelivers(ReceiveAll(before + Singles(y), capacity), [c], capacity);
    ReceiveAllLast(before + Singles(y), [c], capacity);
    SinglesLast(y, c);
    assert before + Singles(y + [c]) == (before + Singles(y)) + [[c]];
  }

  lemma NotReady(chunks: seq<seq<byte>>, capacity: nat)
    ensures !HeadReady(ReceiveAll(chunks, capacity).buffered) && |ReceiveAll(chunks, capacity).buffered| <= capacity
  {
    Conservation(chunks, capacity);
  }

  /** What remains of the packet at the head, byte by byte, makes it complete. */
  lemma SomethingDelivers(before: seq<seq<byte>>, capacity: nat) returns (after: seq<seq<byte>>)
    requires 0x103 <= capacity && !Doomed(ReceiveAll(before, capacity).buffered, capacity)
    ensures ChunksOf(after, 1)
    ensures |ReceiveAll(before + after, capacity).handled| > |ReceiveAll(before, capacity).handled|
  {
    var buffered := ReceiveAll(before, capacity).buffered;
    NotReady(before, capacity);
    var x := Completion(buffered, capacity);
    var y, c := x[..|x| - 1], x[|x| - 1];
    assert y + [c] == x && buffered + y + [c] == buffered + x;
    CompletionDelivers(before, y, c, capacity);
    FlattenSingles(x);
    after := Singles(x);
  }

  /** After any run: some further receives hand over another packet exactly when the head is not doomed. */
  lemma CanStillDeliver(before: seq<seq<byte>>, recv: nat, capacity: nat)
    requires 1 <= recv && 0x103 <= capacity
    ensures (exists after: seq<seq<byte>> ::
               ChunksOf(after, recv)
               && |ReceiveAll(before + after, capacity).handled| > |ReceiveAll(before, capacity).handled|)
       <==> !Doomed(ReceiveAll(before, capacity).buffered, capacity)
  {
    if Doomed(ReceiveAll(before, capacity).buffered, capacity) {
      forall after: seq<seq<byte>>
        ensures ReceiveAll(before + after, capacity).handled == ReceiveAll(before, capacity).handled
      {
        DoomedStaysDoomed(before, after, capacity);
      }
    } else {
      var after := SomethingDelivers(before, capacity);
    }
  }

  /** With the server's buffer: exactly a size field below 4 or above 16384 ends all deliveries. */
  lemma ServerCanStillDeliver(before: seq<seq<byte>>)
    ensures (exists after: seq<seq<byte>> ::
               ChunksOf(after, RECV_SIZE)
               && |ReceiveAll(before + after, BUFFER_SIZE).handled| > |ReceiveAll(before, BUFFER_SIZE).handled|)
       <==> var b := ReceiveAll(before, BUFFER_SIZE).buffered;
            |b| < 2 || 4 <= b[0] as nat + 0x100 * (b[1] as nat) <= 16384
  {
    CanStillDeliver(before, RECV_SIZE, BUFFER_SIZE);
  }
}
