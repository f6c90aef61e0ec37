/**
 One session as the server has it: a receive buffer and a ring buffer on one side, a send queue
 and a sending flag on the other. The methods are single calls that meet no other thread; what
 holds when calls interleave is proved in the protocol modules about the functions they compute.
 */
module Sessions {
  import opened Bytes
  import opened Framing
  import opened RingBuffers
  import SendProtocol
  import SendInvariant
  import SendTheorems
  import SendCalls

  /** `left` is the parse of what was buffered before `packet` was cut off and `rest` remained. */
  ghost predicate HeadParsed(packet: Option<Packet>, rest: seq<byte>, left: Parsed) {
    if packet.Some? then left == Parsed([packet.value] + Parse(rest).packets, Parse(rest).rest)
    else left == Parsed([], rest)
  }

  lemma ParseHead(packet: Option<Packet>, rest: seq<byte>)
    requires if packet.Some? then IsPacket(packet.value) else !HeadReady(rest)
    ensures HeadParsed(packet, rest, Parse((if packet.Some? then packet.value else []) + rest))
  {
    if packet.Some? {
      ParsePacketFirst(packet.value, rest);
    } else {
      assert [] + rest == rest;
    }
  }

  class Session {
    const recvBuffer: array<byte>
    const ring: RingBuffer
    var handled: seq<Packet>              // what PacketHandler has been given
    var refused: nat                      // receives that did not fit

    var sendQueue: seq<SendProtocol.Message>
    var isSending: bool
    var wire: seq<SendProtocol.Message>   // buffers that WSASend has accepted
    // the run of the send protocol that has led here
    ghost var steps: seq<SendProtocol.Step>

    ghost predicate Valid()
      reads this, ring
    {
      ReceiveValid() && SendValid()
    }

    ghost predicate ReceiveValid()
      reads ring
    {
      ring.Valid() && recvBuffer != ring.buffer
    }

    ghost predicate SendValid()
      reads this`sendQueue, this`isSending, this`wire, this`steps
    {
      && SendProtocol.Exec(steps).Some?
      && Sends().threads == map[] && Sends().lock.None?
      && Shows(Sends())
    }

    /** The protocol state that the run has led to. */
    ghost function Sends(): SendProtocol.State
      requires SendProtocol.Exec(steps).Some?
      reads this`steps
    {
      SendProtocol.Exec(steps).value
    }

    /** Queue, flag and accepted buffers are those of a protocol state. */
    ghost predicate Shows(s: SendProtocol.State)
      reads this`sendQueue, this`isSending, this`wire
    {
      s.queue == sendQueue && s.flag == isSending && s.wire == wire
    }

    ghost function View(): Receiver
      requires ReceiveValid()
      reads this, ring, ring.buffer
    {
      Receiver(handled, ring.Contents(), refused)
    }

    constructor (recvSize: nat, capacity: nat)
      requires capacity > 0
      ensures Valid() && View() == FRESH && steps == []
      ensures recvBuffer.Length == recvSize && ring.buffer.Length == capacity
      ensures fresh(recvBuffer) && fresh(ring) && fresh(ring.buffer)
    {
      recvBuffer := new byte[recvSize](_ => 0);
      ring := new RingBuffer(capacity);
      handled, refused := [], 0;
      sendQueue, isSending, wire, steps := [], false, [], [];
    }

    /** The completion handler of a receive of `bytes` bytes. */
    method OnRecvCompleted(bytes: nat)
      requires ReceiveValid() && bytes <= recvBuffer.Length
      modifies this`handled, this`refused, ring, ring.buffer
      ensures ReceiveValid()
      ensures View() == Receive(old(View()), recvBuffer[..bytes], ring.buffer.Length)
    {
      var written := ring.Write(recvBuffer, bytes);
      if !written {
        refused := refused + 1;
        return;
      }
      Drain();
    }

    /** TryAssemblePacket in terms of the parse of what is buffered. */
    method CutPacket() returns (packet: Option<Packet>)
      requires ReceiveValid()
      modifies ring
      ensures ReceiveValid()
      ensures HeadParsed(packet, ring.Contents(), Parse(old(ring.Contents())))
      ensures packet.Some? ==> |ring.Contents()| < |old(ring.Contents())|
    {
      packet := ring.TryAssemblePacket();
      ParseHead(packet, ring.Contents());
      assert (if packet.Some? then packet.value else []) + ring.Contents() == old(ring.Contents());
    }

    /** Hands over packets until none is complete. */
    method Drain()
      requires ReceiveValid()
      modifies this`handled, ring
      ensures ReceiveValid()
      ensures handled == old(handled) + Parse(old(ring.Contents())).packets
      ensures ring.Contents() == Parse(old(ring.Contents())).rest
    {
      ghost var goal, left := Parse(ring.Contents()), Parse(ring.Contents());
      var packet := CutPacket();
      while packet.Some?
        invariant ReceiveValid()
        invariant HeadParsed(packet, ring.Contents(), left)
        invariant handled + left.packets == old(handled) + goal.packets && left.rest == goal.rest
        decreases |left.packets|
      {
        ghost var tail := Parse(ring.Contents());
        Reassociate(handled, [packet.value], tail.packets);
        handled := handled + [packet.value];
        left := tail;
        packet := CutPacket();
      }
    }

    /** The RECV branch of the worker loop: the OS fills the receive buffer, the handler runs, and again. */
    method ServeReceives(chunks: seq<seq<byte>>)
      requires ReceiveValid() && View() == FRESH
      requires forall i | 0 <= i < |chunks| :: |chunks[i]| <= recvBuffer.Length
      modifies this`handled, this`refused, recvBuffer, ring, ring.buffer
      ensures ReceiveValid()
      ensures View() == ReceiveAll(chunks, ring.buffer.Length)
    {
      for i := 0 to |chunks|
        invariant ReceiveValid()
        invariant View() == ReceiveAll(chunks[..i], ring.buffer.Length)
      {
        forall j | 0 <= j < |chunks[i]| {
          recvBuffer[j] := chunks[i][j];
        }
        assert recvBuffer[..|chunks[i]|] == chunks[i];
        OnRecvCompleted(|chunks[i]|);
        assert chunks[..i + 1][..i] == chunks[..i];
      }
      assert chunks[..|chunks|] == chunks;
    }

    /** `ok` is whether WSASend accepts the buffer; `s` is where the protocol stands on the call. */
    method RegisterSend(ok: bool, ghost s: SendProtocol.State)
      requires Shows(s)
      modifies this`isSending, this`wire
      ensures Shows(SendCalls.AfterRegister(s, ok))
      ensures isSending == (old(isSending) && sendQueue != [] && ok)
      ensures wire == if sendQueue != [] && ok then old(wire) + [sendQueue[0]] else old(wire)
    {
      if sendQueue == [] {
        isSending := false;
        return;
      }
      if ok {
        wire := wire + [sendQueue[0]];
      } else {
        isSending := false;
      }
    }

    /** Queue, flag and accepted buffers change as in a run of the protocol, which goes on by a whole PostSend. */
    method PostSend(data: SendProtocol.Message, ok: bool)
      requires SendValid()
      modifies this`sendQueue, this`isSending, this`wire, this`steps
      ensures SendValid() && Sends() == SendCalls.AfterPostSend(old(Sends()), data, ok)
      ensures sendQueue == old(sendQueue) + [data] && isSending == (old(isSending) || ok)
      ensures wire == if !old(isSending) && ok then old(wire) + [sendQueue[0]] else old(wire)
      ensures old(steps) <= steps
    {
      ghost var s := SendCalls.AfterPush(Sends(), data);
      sendQueue := sendQueue + [data];
      var was := isSending;
      isSending := true;
      if !was {
        RegisterSend(ok, s.(flag := true, stalled := false));
      }
      steps := SendCalls.PostSendIsARun(steps, 0, data, ok);
    }

    /**
     The completion handler of the send in flight, once the OS has completed it; that there is a message to
     pop follows from its being in flight.
     */
    method SendCompleted(ok: bool)
      requires SendValid() && |Sends().outstanding| == 1
      modifies this`sendQueue, this`isSending, this`wire, this`steps
      ensures SendValid() && old(sendQueue) != [] && old(steps) <= steps
      ensures sendQueue == old(sendQueue)[1..] && isSending == (sendQueue != [] && ok)
      ensures wire == if sendQueue != [] && ok then old(wire) + [sendQueue[0]] else old(wire)
      ensures Sends() == SendCalls.AfterSendCompleted(SendCalls.AfterOsCompletes(old(Sends())), ok)
    {
      ghost var done := OsCompletes(steps);
      PopAndRegister(ok, SendProtocol.Exec(done).value);
      steps := SendCalls.SendCompletedIsARun(done, 0, ok);
    }

    /** The body of SendCompleted. */
    method PopAndRegister(ok: bool, ghost s: SendProtocol.State)
      requires Shows(s) && sendQueue != [] && isSending
      modifies this`sendQueue, this`isSending, this`wire
      ensures Shows(SendCalls.AfterSendCompleted(s, ok))
      ensures sendQueue == old(sendQueue)[1..] && isSending == (sendQueue != [] && ok)
      ensures wire == if sendQueue != [] && ok then old(wire) + [sendQueue[0]] else old(wire)
    {
      sendQueue := sendQueue[1..];
      RegisterSend(ok, SendCalls.AfterPop(s));
    }
  }

  /** The OS completes the send in flight. */
  lemma OsCompletes(steps: seq<SendProtocol.Step>) returns (done: seq<SendProtocol.Step>)
    requires SendProtocol.Exec(steps).Some? && |SendProtocol.Exec(steps).value.outstanding| == 1
    ensures steps <= done && SendProtocol.Exec(done).Some?
    ensures var s, r := SendProtocol.Exec(steps).value, SendProtocol.Exec(done).value;
            r == SendCalls.AfterOsCompletes(s) && |r.completions| == 1 && r.queue != [] && r.flag
  {
    var owner := SendInvariant.RunKeeps(steps);
    SendTheorems.OneSendAtATimeInOrder(steps);
    assert SendProtocol.Exec(steps).value.outstanding[0] in SendProtocol.Exec(steps).value.outstanding;
    done := SendTheorems.Then(steps, SendProtocol.OsCompletes(0));
  }
}
