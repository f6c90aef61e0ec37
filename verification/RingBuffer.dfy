/**
 The circular receive buffer. Each operation works with modular positions and copies split
 at the end of the array; its contract says what it does to the byte sequence it holds.
 */
module RingBuffers {
  import opened Bytes
  import opened Framing

  /** `%` on a position that has moved by at most one lap. */
  lemma WrapsOnce(pos: nat, moved: nat, capacity: nat)
    requires pos < capacity && moved <= capacity
    ensures (pos + moved) % capacity == if pos + moved < capacity then pos + moved else pos + moved - capacity
  {
    var x := pos + moved;
    if x < capacity {
      DivisionIsUnique(x, capacity, 0, x);
    } else {
      DivisionIsUnique(x, capacity, 1, x - capacity);
    }
  }

  /** `n` bytes read circularly from position `start`. */
  ghost function Window(a: seq<byte>, start: nat, n: nat): (w: seq<byte>)
    requires start < |a| && n <= |a|
    ensures |w| == n
    ensures forall i | 0 <= i < n :: w[i] == a[if start + i < |a| then start + i else start + i - |a|]
  {
    if start + n <= |a| then a[start..start + n] else a[start..] + a[..start + n - |a|]
  }

  /** `a` with the bytes from `at` on overwritten by `d`. */
  ghost function Put(a: seq<byte>, at: nat, d: seq<byte>): (b: seq<byte>)
    requires at + |d| <= |a|
    ensures |b| == |a|
    ensures forall i | 0 <= i < |a| :: b[i] == if at <= i < at + |d| then d[i - at] else a[i]
  {
    a[..at] + d + a[at + |d|..]
  }

  /** The first `k` bytes of a window are the shorter window. */
  lemma WindowTake(a: seq<byte>, start: nat, n: nat, k: nat)
    requires start < |a| && k <= n <= |a|
    ensures Window(a, start, n)[..k] == Window(a, start, k)
  {
  }

  /** The others are the window further on. */
  lemma WindowDrop(a: seq<byte>, start: nat, n: nat, k: nat, later: nat)
    requires start < |a| && k <= n <= |a|
    requires later == if start + k < |a| then start + k else start + k - |a|
    ensures Window(a, start, n)[k..] == Window(a, later, n - k)
  {
    var w := Window(a, start, n);
    forall i | 0 <= i < n - k
      ensures w[k..][i] == Window(a, later, n - k)[i]
    {
      assert w[k..][i] == w[k + i];
    }
  }

  /** Writing behind the window in one piece extends it. */
  lemma WriteInOnePiece(a: seq<byte>, start: nat, n: nat, at: nat, d: seq<byte>)
    requires start < |a| && n + |d| <= |a|
    requires at == (if start + n < |a| then start + n else start + n - |a|) && at + |d| <= |a|
    ensures Window(Put(a, at, d), start, n + |d|) == Window(a, start, n) + d
  {
  }

  /** So does writing in two, when the end of the array lies in between. */
  lemma WriteInTwoPieces(a: seq<byte>, start: nat, n: nat, at: nat, d: seq<byte>, tail: nat)
    requires start < |a| && n + |d| <= |a|
    requires at == (if start + n < |a| then start + n else start + n - |a|) && at + tail == |a| && tail < |d|
    ensures Window(Put(Put(a, at, d[..tail]), 0, d[tail..]), start, n + |d|) == Window(a, start, n) + d
  {
    var b, w := Put(Put(a, at, d[..tail]), 0, d[tail..]), Window(a, start, n) + d;
    forall i | 0 <= i < n + |d|
      ensures Window(b, start, n + |d|)[i] == w[i]
    {
      if i >= n {
        assert w[i] == d[i - n];
      }
    }
  }

  lemma ReadInOnePiece(a: seq<byte>, start: nat, len: nat, dest: seq<byte>)
    requires start < |a| && start + len <= |a| && len <= |dest|
    ensures Put(dest, 0, a[start..start + len]) == Window(a, start, len) + dest[len..]
  {
    assert dest[..0] == [];
  }

  lemma ReadInTwoPieces(a: seq<byte>, start: nat, len: nat, dest: seq<byte>, tail: nat)
    requires start < |a| && start + tail == |a| && tail < len <= |a| && len <= |dest|
    ensures Put(Put(dest, 0, a[start..start + tail]), tail, a[0..len - tail]) == Window(a, start, len) + dest[len..]
  {
    var first, second := a[start..start + tail], a[0..len - tail];
    var mid := Put(dest, 0, first);
    assert mid[..tail] == first;
    assert mid[tail + |second|..] == dest[len..];
    assert Window(a, start, len) == first + second;
  }

  /** memcpy between two different arrays. */
  method Copy(dest: array<byte>, at: nat, src: array<byte>, from: nat, len: nat)
    requires dest != src && at + len <= dest.Length && from + len <= src.Length
    modifies dest
    ensures dest[..] == Put(old(dest[..]), at, src[..][from..from + len])
  {
    forall i | 0 <= i < len {
      dest[at + i] := src[from + i];
    }
  }

  /** The copy that goes on at the beginning of `dest` after its last `tail` bytes. */
  method CopyAround(dest: array<byte>, at: nat, src: array<byte>, len: nat, tail: nat)
    requires dest != src && len <= src.Length && at + tail == dest.Length && tail <= len <= dest.Length
    modifies dest
    ensures dest[..] == Put(Put(old(dest[..]), at, src[..len][..tail]), 0, src[..len][tail..])
  {
    assert src[..][0..tail] == src[..len][..tail] && src[..][tail..len] == src[..len][tail..];
    Copy(dest, at, src, 0, tail);
    Copy(dest, 0, src, tail, len - tail);
  }

  class RingBuffer {
    const buffer: array<byte>
    var readPos: nat
    var writePos: nat
    var dataSize: nat

    ghost predicate Valid()
      reads this
    {
      && readPos < buffer.Length
      && dataSize <= buffer.Length
      && writePos == (readPos + dataSize) % buffer.Length
    }

    /** The bytes held, oldest first. */
    ghost function Contents(): (s: seq<byte>)
      requires Valid()
      reads this, buffer
      ensures |s| == dataSize
    {
      Window(buffer[..], readPos, dataSize)
    }

    constructor (capacity: nat)
      requires capacity > 0
      ensures Valid() && Contents() == [] && buffer.Length == capacity && fresh(buffer)
    {
      buffer := new byte[capacity](_ => 0);
      readPos, writePos, dataSize := 0, 0, 0;
    }

    function ReadableSize(): (n: nat)
      requires Valid()
      reads this, buffer
      ensures n == |Contents()|
    {
      dataSize
    }

    function WritableSize(): (n: nat)
      requires Valid()
      reads this, buffer
      ensures n + |Contents()| == buffer.Length
    {
      buffer.Length - dataSize
    }

    /** The split copy of Write; the positions do not move yet. */
    method CopyIn(data: array<byte>, len: nat)
      requires readPos < buffer.Length && data != buffer && len <= data.Length && dataSize + len <= buffer.Length
      requires writePos == if readPos + dataSize < buffer.Length then readPos + dataSize
                           else readPos + dataSize - buffer.Length
      modifies buffer
      ensures Window(buffer[..], readPos, dataSize + len)
           == Window(old(buffer[..]), readPos, dataSize) + data[..len]
    {
      var tailSpace := buffer.Length - writePos;
      ghost var was, d := buffer[..], data[..len];
      if len <= tailSpace {
        Copy(buffer, writePos, data, 0, len);
        assert data[..][0..len] == d;
        WriteInOnePiece(was, readPos, dataSize, writePos, d);
      } else {
        CopyAround(buffer, writePos, data, len, tailSpace);
        WriteInTwoPieces(was, readPos, dataSize, writePos, d, tailSpace);
      }
    }

    method Write(data: array<byte>, len: nat) returns (ok: bool)
      requires Valid() && data != buffer && len <= data.Length
      modifies this, buffer
      ensures Valid()
      ensures ok == (|old(Contents())| + len <= buffer.Length)
      ensures Contents() == if ok then old(Contents()) + data[..len] else old(Contents())
    {
      if len > WritableSize() {
        return false;
      }
      WrapsOnce(readPos, dataSize, buffer.Length);
      CopyIn(data, len);
      var next := (writePos + len) % buffer.Length;
      WrapsOnce(writePos, len, buffer.Length);
      WrapsOnce(readPos, dataSize + len, buffer.Length);
      writePos := next;
      dataSize := dataSize + len;
      return true;
    }

    /** The split copy of Peek. */
    method CopyOut(dest: array<byte>, len: nat)
      requires Valid() && dest != buffer && len <= dest.Length && len <= dataSize
      modifies dest
      ensures dest[..] == Window(buffer[..], readPos, len) + old(dest[..])[len..]
    {
      var tailSpace := buffer.Length - readPos;
      ghost var was, bytes := dest[..], buffer[..];
      if len <= tailSpace {
        ReadInOnePiece(bytes, readPos, len, was);
        Copy(dest, 0, buffer, readPos, len);
      } else {
        ReadInTwoPieces(bytes, readPos, len, was, tailSpace);
        Copy(dest, 0, buffer, readPos, tailSpace);
        Copy(dest, tailSpace, buffer, 0, len - tailSpace);
      }
    }

    method Peek(dest: array<byte>, len: nat) returns (ok: bool)
      requires Valid() && dest != buffer && len <= dest.Length
      modifies dest
      ensures Valid() && Contents() == old(Contents())
      ensures ok == (len <= |Contents()|)
      ensures dest[..] == if ok then Contents()[..len] + old(dest[len..]) else old(dest[..])
    {
      if len > dataSize {
        return false;
      }
      WindowTake(buffer[..], readPos, dataSize, len);
      CopyOut(dest, len);
      return true;
    }

    method Read(dest: array<byte>, len: nat) returns (ok: bool)
      requires Valid() && dest != buffer && len <= dest.Length
      modifies this, dest
      ensures Valid()
      ensures ok == (len <= |old(Contents())|)
      ensures dest[..] == if ok then old(Contents())[..len] + old(dest[len..]) else old(dest[..])
      ensures Contents() == if ok then old(Contents())[len..] else old(Contents())
    {
      ok := Peek(dest, len);
      if ok {
        Advance(len);
      }
    }

    method Ignore(len: nat)
      requires Valid()
      modifies this
      ensures Valid()
      ensures Contents() == if len <= |old(Contents())| then old(Contents())[len..] else []
    {
      Advance(if len <= dataSize then len else dataSize);
    }

    /** The position update that Read and Ignore share. */
    method Advance(len: nat)
      requires Valid() && len <= dataSize
      modifies this
      ensures Valid() && Contents() == old(Contents())[len..]
    {
      var next := (readPos + len) % buffer.Length;
      WrapsOnce(readPos, len, buffer.Length);
      WrapsOnce(readPos, dataSize, buffer.Length);
      WrapsOnce(next, dataSize - len, buffer.Length);
      WindowDrop(buffer[..], readPos, dataSize, len, next);
      readPos := next;
      dataSize := dataSize - len;
    }

    /** The size field of the header at the head. */
    method PeekSize() returns (size: nat)
      requires Valid() && dataSize >= HEADER_SIZE
      ensures size == DeclaredSize(Contents())
    {
      var header := new byte[HEADER_SIZE](_ => 0);
      var peeked := Peek(header, HEADER_SIZE);
      assert header[..] == Contents()[..HEADER_SIZE];
      size := DeclaredSize(header[..]);
    }

    /** Cuts one packet from the head if it is complete; otherwise changes nothing. */
    method TryAssemblePacket() returns (packet: Option<Packet>)
      requires Valid()
      modifies this
      ensures Valid()
      ensures packet.Some? <==> HeadReady(old(Contents()))
      ensures packet.Some? ==> IsPacket(packet.value) && packet.value + Contents() == old(Contents())
      ensures packet.None? ==> Contents() == old(Contents())
    {
      if dataSize < HEADER_SIZE {
        return None;
      }
      var totalSize := PeekSize();
      if totalSize < HEADER_SIZE {
        return None;
      }
      if dataSize < totalSize {
        return None;
      }
      HeadIsPacket(Contents());
      var bytes := TakeBytes(totalSize);
      return Some(bytes);
    }

    /** Read into a fresh buffer. */
    method TakeBytes(len: nat) returns (bytes: seq<byte>)
      requires Valid() && len <= dataSize
      modifies this
      ensures Valid()
      ensures bytes == old(Contents())[..len] && Contents() == old(Contents())[len..]
    {
      var dest := new byte[len](_ => 0);
      var read := Read(dest, len);
      assert dest[..] == old(Contents())[..len];
      return dest[..];
    }
  }

  lemma HeadIsPacket(buf: seq<byte>)
    requires HeadReady(buf)
    ensures var n := DeclaredSize(buf);
            IsPacket(buf[..n]) && buf[..n] + buf[n..] == buf
  {
  }
}
