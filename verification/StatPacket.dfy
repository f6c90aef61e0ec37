/** The packed little-endian wire form of the character-stat packet. */
module StatPackets {
  import opened Bytes
  import opened Framing

  type u8 = x: nat | x < 0x100
  type u16 = x: nat | x < 0x1_0000
  type u32 = x: nat | x < 0x1_0000_0000
  type u64 = x: nat | x < 0x1_0000_0000_0000_0000

  datatype StatPacket = StatPacket(
    size: u16, id: u16, characterId: u64, level: u32, hpMax: u32, hp: u32, mpMax: u32, mp: u32,
    isAlive: u8, lastMapId: u32)

  const CHARACTER_STAT_INFO: u16 := 1003
  const STAT_SIZE: nat := 37

  type StatBytes = s: seq<byte> | |s| == STAT_SIZE witness seq(STAT_SIZE, _ => 0)

  const WIDTHS: seq<nat> := [2, 2, 8, 4, 4, 4, 4, 4, 1, 4]

  // ------------------------------------------------------------------
  // Integers
  // ------------------------------------------------------------------

  function Limit(width: nat): (n: nat)
    ensures n > 0
  {
    if width == 0 then 1 else 0x100 * Limit(width - 1)
  }

  function EncodeInt(x: nat, width: nat): (s: seq<byte>)
    ensures |s| == width
  {
    if width == 0 then [] else [(x % 0x100) as byte] + EncodeInt(x / 0x100, width - 1)
  }

  function DecodeInt(s: seq<byte>): (x: nat)
    ensures x < Limit(|s|)
  {
    if s == [] then 0 else s[0] as nat + 0x100 * DecodeInt(s[1..])
  }

  /** Byte i of the wire form is digit i in base 256, the lowest first. */
  lemma {:induction false} EncodedIntIsLittleEndian(x: nat, width: nat, i: nat)
    requires i < width
    ensures EncodeInt(x, width)[i] as nat == x / Limit(i) % 0x100
    decreases width
  {
    if i > 0 {
      EncodedIntIsLittleEndian(x / 0x100, width - 1, i - 1);
      DivideTwice(x, Limit(i - 1));
    }
  }

  lemma DivideTwice(x: nat, b: nat)
    requires b > 0
    ensures x / 0x100 / b == x / (0x100 * b)
  {
    var q, r := x / 0x100 / b, x / 0x100 % b;
    assert x / 0x100 == b * q + r;
    assert (0x100 * b) * q == 0x100 * (b * q);
    DivisionIsUnique(x, 0x100 * b, q, 0x100 * r + x % 0x100);
  }

  lemma {:induction false} DecodeEncodedInt(x: nat, width: nat)
    requires x < Limit(width)
    ensures DecodeInt(EncodeInt(x, width)) == x
  {
    if width > 0 {
      DecodeEncodedInt(x / 0x100, width - 1);
    }
  }

  lemma {:induction false} EncodeDecodedInt(s: seq<byte>)
    ensures EncodeInt(DecodeInt(s), |s|) == s
  {
    if s != [] {
      EncodeDecodedInt(s[1..]);
      DivisionIsUnique(DecodeInt(s), 0x100, DecodeInt(s[1..]), s[0] as nat);
      assert [s[0]] + s[1..] == s;
    }
  }

  // ------------------------------------------------------------------
  // Packed records
  // ------------------------------------------------------------------

  function Total(widths: seq<nat>): nat {
    if widths == [] then 0 else widths[0] + Total(widths[1..])
  }

  ghost predicate Fit(values: seq<nat>, widths: seq<nat>) {
    |values| == |widths| && forall i | 0 <= i < |values| :: values[i] < Limit(widths[i])
  }

  function EncodeFields(values: seq<nat>, widths: seq<nat>): (s: seq<byte>)
    requires |values| == |widths|
    ensures |s| == Total(widths)
  {
    if widths == [] then [] else EncodeInt(values[0], widths[0]) + EncodeFields(values[1..], widths[1..])
  }

  function DecodeFields(s: seq<byte>, widths: seq<nat>): (values: seq<nat>)
    requires |s| == Total(widths)
    ensures |values| == |widths|
  {
    if widths == [] then [] else [DecodeInt(s[..widths[0]])] + DecodeFields(s[widths[0]..], widths[1..])
  }

  lemma {:induction false} DecodeEncodedFields(values: seq<nat>, widths: seq<nat>)
    requires Fit(values, widths)
    ensures DecodeFields(EncodeFields(values, widths), widths) == values
  {
    if widths != [] {
      DecodeEncodedInt(values[0], widths[0]);
      DecodeEncodedFields(values[1..], widths[1..]);
    }
  }

  lemma {:induction false} EncodeDecodedFields(s: seq<byte>, widths: seq<nat>)
    requires |s| == Total(widths)
    ensures Fit(DecodeFields(s, widths), widths)
    ensures EncodeFields(DecodeFields(s, widths), widths) == s
  {
    if widths != [] {
      var w, rest := widths[0], s[widths[0]..];
      EncodeDecodedInt(s[..w]);
      EncodeDecodedFields(rest, widths[1..]);
      var values := DecodeFields(s, widths);
      assert values[1..] == DecodeFields(rest, widths[1..]);
      assert s == s[..w] + rest;
      forall i | 0 <= i < |values|
        ensures values[i] < Limit(widths[i])
      {
        if i > 0 {
          assert values[i] == values[1..][i - 1] && widths[i] == widths[1..][i - 1];
        }
      }
    }
  }

  function Offset(widths: seq<nat>, i: nat): nat
    requires i <= |widths|
  {
    if i == 0 then 0 else Offset(widths, i - 1) + widths[i - 1]
  }

  lemma {:induction false} OffsetBehindFirst(widths: seq<nat>, i: nat)
    requires 0 < i <= |widths|
    ensures Offset(widths, i) == widths[0] + Offset(widths[1..], i - 1)
  {
    if i > 1 {
      OffsetBehindFirst(widths, i - 1);
    }
  }

  /** Each field lies at its offset, directly behind the one before. */
  lemma {:induction false} FieldAtOffset(values: seq<nat>, widths: seq<nat>, i: nat)
    requires |values| == |widths| && i < |widths|
    ensures var at := Offset(widths, i);
            at + widths[i] <= |EncodeFields(values, widths)|
            && EncodeFields(values, widths)[at..at + widths[i]] == EncodeInt(values[i], widths[i])
    decreases i
  {
    if i > 0 {
      FieldAtOffset(values[1..], widths[1..], i - 1);
      OffsetBehindFirst(widths, i);
      var at := Offset(widths[1..], i - 1);
      SliceBehind(EncodeInt(values[0], widths[0]), EncodeFields(values[1..], widths[1..]), at, at + widths[i]);
    }
  }

  lemma SliceBehind(a: seq<byte>, b: seq<byte>, from: nat, to: nat)
    requires from <= to <= |b|
    ensures (a + b)[|a| + from..|a| + to] == b[from..to]
  {
  }

  // ------------------------------------------------------------------
  // The stat packet
  // ------------------------------------------------------------------

  function Fields(p: StatPacket): seq<nat> {
    [p.size, p.id, p.characterId, p.level, p.hpMax, p.hp, p.mpMax, p.mp, p.isAlive, p.lastMapId]
  }

  lemma LimitsAre()
    ensures Limit(1) == 0x100 && Limit(2) == 0x1_0000 && Limit(4) == 0x1_0000_0000
    ensures Limit(8) == 0x1_0000_0000_0000_0000
  {
    assert Limit(3) == 0x100 * Limit(2);
    assert Limit(5) == 0x100 * Limit(4);
    assert Limit(6) == 0x100 * Limit(5);
    assert Limit(7) == 0x100 * Limit(6);
  }

  lemma TotalIs()
    ensures Total(WIDTHS) == STAT_SIZE
  {
    assert WIDTHS[1..][1..] == [8, 4, 4, 4, 4, 4, 1, 4];
    assert Total([8, 4, 4, 4, 4, 4, 1, 4]) == 12 + Total([4, 4, 4, 4, 1, 4]) by {
      assert [8, 4, 4, 4, 4, 4, 1, 4][1..][1..] == [4, 4, 4, 4, 1, 4];
    }
    assert Total([4, 4, 4, 4, 1, 4]) == 8 + Total([4, 4, 1, 4]) by {
      assert [4, 4, 4, 4, 1, 4][1..][1..] == [4, 4, 1, 4];
    }
    assert Total([4, 4, 1, 4]) == 13 by {
      assert [4, 4, 1, 4][1..][1..] == [1, 4];
      assert [1, 4][1..] == [4];
    }
  }

  lemma FieldsFit(p: StatPacket)
    ensures Fit(Fields(p), WIDTHS)
  {
    LimitsAre();
  }

  function Encode(p: StatPacket): (s: seq<byte>)
    ensures |s| == STAT_SIZE
  {
    TotalIs();
    EncodeFields(Fields(p), WIDTHS)
  }

  function Decode(s: seq<byte>): StatPacket
    requires |s| == STAT_SIZE
  {
    TotalIs();
    var v := DecodeFields(s, WIDTHS);
    EncodeDecodedFields(s, WIDTHS);
    LimitsAre();
    assert v[0] < Limit(WIDTHS[0]) && v[1] < Limit(WIDTHS[1]) && v[2] < Limit(WIDTHS[2]) && v[3] < Limit(WIDTHS[3]);
    assert v[4] < Limit(WIDTHS[4]) && v[5] < Limit(WIDTHS[5]) && v[6] < Limit(WIDTHS[6]) && v[7] < Limit(WIDTHS[7]);
    assert v[8] < Limit(WIDTHS[8]) && v[9] < Limit(WIDTHS[9]);
    StatPacket(v[0], v[1], v[2], v[3], v[4], v[5], v[6], v[7], v[8], v[9])
  }

  /** Every field of every packet survives the wire, and every 37 bytes are some packet's wire form. */
  lemma StatRoundTrip(p: StatPacket, s: seq<byte>)
    requires |s| == STAT_SIZE
    ensures Decode(Encode(p)) == p
    ensures Encode(Decode(s)) == s
  {
    FieldsFit(p);
    DecodeEncodedFields(Fields(p), WIDTHS);
    TotalIs();
    EncodeDecodedFields(s, WIDTHS);
    assert Fields(Decode(s)) == DecodeFields(s, WIDTHS);
  }

  lemma OffsetsAre()
    ensures Offset(WIDTHS, 0) == 0 && Offset(WIDTHS, 1) == 2 && Offset(WIDTHS, 2) == 4 && Offset(WIDTHS, 3) == 12
    ensures Offset(WIDTHS, 4) == 16 && Offset(WIDTHS, 5) == 20 && Offset(WIDTHS, 6) == 24 && Offset(WIDTHS, 7) == 28
    ensures Offset(WIDTHS, 8) == 32 && Offset(WIDTHS, 9) == 33
  {
    assert Offset(WIDTHS, 3) == Offset(WIDTHS, 2) + 8;
    assert Offset(WIDTHS, 5) == Offset(WIDTHS, 4) + 4;
    assert Offset(WIDTHS, 7) == Offset(WIDTHS, 6) + 4;
    assert Offset(WIDTHS, 9) == Offset(WIDTHS, 8) + 1;
  }

  /** Where the packed struct has its fields. */
  lemma StatLayout(p: StatPacket)
    ensures var s := Encode(p);
            && s[0..2] == EncodeInt(p.size, 2) && s[2..4] == EncodeInt(p.id, 2)
            && s[4..12] == EncodeInt(p.characterId, 8) && s[12..16] == EncodeInt(p.level, 4)
            && s[16..20] == EncodeInt(p.hpMax, 4) && s[20..24] == EncodeInt(p.hp, 4)
            && s[24..28] == EncodeInt(p.mpMax, 4) && s[28..32] == EncodeInt(p.mp, 4)
            && s[32..33] == EncodeInt(p.isAlive, 1) && s[33..37] == EncodeInt(p.lastMapId, 4)
  {
    OffsetsAre();
    forall i | 0 <= i < 10
      ensures Offset(WIDTHS, i) + WIDTHS[i] <= STAT_SIZE
              && Encode(p)[Offset(WIDTHS, i)..Offset(WIDTHS, i) + WIDTHS[i]] == EncodeInt(Fields(p)[i], WIDTHS[i])
    {
      FieldAtOffset(Fields(p), WIDTHS, i);
    }
  }

  /** The framing layer reads the size field the sender wrote. */
  lemma SizeFieldIsFirst(p: StatPacket)
    ensures DeclaredSize(Encode(p)) == p.size
  {
    var e := EncodeInt(p.size, 2);
    assert Encode(p)[..2] == e;
    assert e[0] as nat == p.size % 0x100;
    assert e[1..] == EncodeInt(p.size / 0x100, 1);
    assert e[1] as nat == p.size / 0x100;
  }
}
