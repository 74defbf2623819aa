// The mu-law codec.
module Ulaw {
  import opened G711

  // The compression table, row by row: all rows but the first repeat one value sixteen times.
  function CompressTable(i: nat): Exponent
    requires i < 256
  {
    match i / 16
    case 0 =>
      (match i % 16
       case 0 => 0 case 1 => 0 case 2 => 1 case 3 => 1 case 4 => 2 case 5 => 2 case 6 => 2 case 7 => 2
       case 8 => 3 case 9 => 3 case 10 => 3 case 11 => 3 case 12 => 3 case 13 => 3 case 14 => 3 case _ => 3)
    case 1 => 4
    case 2 => 5 case 3 => 5
    case 4 => 6 case 5 => 6 case 6 => 6 case 7 => 6
    case 8 => 7 case 9 => 7 case 10 => 7 case 11 => 7
    case 12 => 7 case 13 => 7 case 14 => 7 case _ => 7
  }

  // The decompression table, row by row
  function Decompress0(k: nat): Short {
    match k
    case 0 => -32124 case 1 => -31100 case 2 => -30076 case 3 => -29052
    case 4 => -28028 case 5 => -27004 case 6 => -25980 case 7 => -24956
    case 8 => -23932 case 9 => -22908 case 10 => -21884 case 11 => -20860
    case 12 => -19836 case 13 => -18812 case 14 => -17788 case _ => -16764
  }
  function Decompress1(k: nat): Short {
    match k
    case 0 => -15996 case 1 => -15484 case 2 => -14972 case 3 => -14460
    case 4 => -13948 case 5 => -13436 case 6 => -12924 case 7 => -12412
    case 8 => -11900 case 9 => -11388 case 10 => -10876 case 11 => -10364
    case 12 => -9852 case 13 => -9340 case 14 => -8828 case _ => -8316
  }
  function Decompress2(k: nat): Short {
    match k
    case 0 => -7932 case 1 => -7676 case 2 => -7420 case 3 => -7164
    case 4 => -6908 case 5 => -6652 case 6 => -6396 case 7 => -6140
    case 8 => -5884 case 9 => -5628 case 10 => -5372 case 11 => -5116
    case 12 => -4860 case 13 => -4604 case 14 => -4348 case _ => -4092
  }
  function Decompress3(k: nat): Short {
    match k
    case 0 => -3900 case 1 => -3772 case 2 => -3644 case 3 => -3516
    case 4 => -3388 case 5 => -3260 case 6 => -3132 case 7 => -3004
    case 8 => -2876 case 9 => -2748 case 10 => -2620 case 11 => -2492
    case 12 => -2364 case 13 => -2236 case 14 => -2108 case _ => -1980
  }
  function Decompress4(k: nat): Short {
    match k
    case 0 => -1884 case 1 => -1820 case 2 => -1756 case 3 => -1692
    case 4 => -1628 case 5 => -1564 case 6 => -1500 case 7 => -1436
    case 8 => -1372 case 9 => -1308 case 10 => -1244 case 11 => -1180
    case 12 => -1116 case 13 => -1052 case 14 => -988 case _ => -924
  }
  function Decompress5(k: nat): Short {
    match k
    case 0 => -876 case 1 => -844 case 2 => -812 case 3 => -780
    case 4 => -748 case 5 => -716 case 6 => -684 case 7 => -652
    case 8 => -620 case 9 => -588 case 10 => -556 case 11 => -524
    case 12 => -492 case 13 => -460 case 14 => -428 case _ => -396
  }
  function Decompress6(k: nat): Short {
    match k
    case 0 => -372 case 1 => -356 case 2 => -340 case 3 => -324
    case 4 => -308 case 5 => -292 case 6 => -276 case 7 => -260
    case 8 => -244 case 9 => -228 case 10 => -212 case 11 => -196
    case 12 => -180 case 13 => -164 case 14 => -148 case _ => -132
  }
  function Decompress7(k: nat): Short {
    match k
    case 0 => -120 case 1 => -112 case 2 => -104 case 3 => -96
    case 4 => -88 case 5 => -80 case 6 => -72 case 7 => -64
    case 8 => -56 case 9 => -48 case 10 => -40 case 11 => -32
    case 12 => -24 case 13 => -16 case 14 => -8 case _ => 0
  }
  function Decompress8(k: nat): Short {
    match k
    case 0 => 32124 case 1 => 31100 case 2 => 30076 case 3 => 29052
    case 4 => 28028 case 5 => 27004 case 6 => 25980 case 7 => 24956
    case 8 => 23932 case 9 => 22908 case 10 => 21884 case 11 => 20860
    case 12 => 19836 case 13 => 18812 case 14 => 17788 case _ => 16764
  }
  function Decompress9(k: nat): Short {
    match k
    case 0 => 15996 case 1 => 15484 case 2 => 14972 case 3 => 14460
    case 4 => 13948 case 5 => 13436 case 6 => 12924 case 7 => 12412
    case 8 => 11900 case 9 => 11388 case 10 => 10876 case 11 => 10364
    case 12 => 9852 case 13 => 9340 case 14 => 8828 case _ => 8316
  }
  function Decompress10(k: nat): Short {
    match k
    case 0 => 7932 case 1 => 7676 case 2 => 7420 case 3 => 7164
    case 4 => 6908 case 5 => 6652 case 6 => 6396 case 7 => 6140
    case 8 => 5884 case 9 => 5628 case 10 => 5372 case 11 => 5116
    case 12 => 4860 case 13 => 4604 case 14 => 4348 case _ => 4092
  }
  function Decompress11(k: nat): Short {
    match k
    case 0 => 3900 case 1 => 3772 case 2 => 3644 case 3 => 3516
    case 4 => 3388 case 5 => 3260 case 6 => 3132 case 7 => 3004
    case 8 => 2876 case 9 => 2748 case 10 => 2620 case 11 => 2492
    case 12 => 2364 case 13 => 2236 case 14 => 2108 case _ => 1980
  }
  function Decompress12(k: nat): Short {
    match k
    case 0 => 1884 case 1 => 1820 case 2 => 1756 case 3 => 1692
    case 4 => 1628 case 5 => 1564 case 6 => 1500 case 7 => 1436
    case 8 => 1372 case 9 => 1308 case 10 => 1244 case 11 => 1180
    case 12 => 1116 case 13 => 1052 case 14 => 988 case _ => 924
  }
  function Decompress13(k: nat): Short {
    match k
    case 0 => 876 case 1 => 844 case 2 => 812 case 3 => 780
    case 4 => 748 case 5 => 716 case 6 => 684 case 7 => 652
    case 8 => 620 case 9 => 588 case 10 => 556 case 11 => 524
    case 12 => 492 case 13 => 460 case 14 => 428 case _ => 396
  }
  function Decompress14(k: nat): Short {
    match k
    case 0 => 372 case 1 => 356 case 2 => 340 case 3 => 324
    case 4 => 308 case 5 => 292 case 6 => 276 case 7 => 260
    case 8 => 244 case 9 => 228 case 10 => 212 case 11 => 196
    case 12 => 180 case 13 => 164 case 14 => 148 case _ => 132
  }
  function Decompress15(k: nat): Short {
    match k
    case 0 => 120 case 1 => 112 case 2 => 104 case 3 => 96
    case 4 => 88 case 5 => 80 case 6 => 72 case 7 => 64
    case 8 => 56 case 9 => 48 case 10 => 40 case 11 => 32
    case 12 => 24 case 13 => 16 case 14 => 8 case _ => 0
  }

  function DecompressTable(b: Byte): Short {
    var k := b % 16;
    match b / 16
    case 0 => Decompress0(k)
    case 1 => Decompress1(k)
    case 2 => Decompress2(k)
    case 3 => Decompress3(k)
    case 4 => Decompress4(k)
    case 5 => Decompress5(k)
    case 6 => Decompress6(k)
    case 7 => Decompress7(k)
    case 8 => Decompress8(k)
    case 9 => Decompress9(k)
    case 10 => Decompress10(k)
    case 11 => Decompress11(k)
    case 12 => Decompress12(k)
    case 13 => Decompress13(k)
    case 14 => Decompress14(k)
    case _ => Decompress15(k)
  }

  // One sample: its sign, its segment and its place in the segment, all complemented
  function Encode(x: Short): Byte {
    var sign := SignBit(Shr(x, 8));
    var s := Clipped(if sign != 0 then Negated(x) else x);
    var t := s + BIAS;
    var e := CompressTable(Shr(t, 7) % 256);
    var m := Shr(t, e + 3) % 16;
    255 - (sign + 16 * e + m)
  }

  // One hop: what a sample comes back as
  function Hop(x: Short): Short {
    DecompressTable(Encode(x))
  }

  // The segment that a byte names
  function SegmentOf(x: Short): nat {
    (255 - Encode(x)) % 128 / 16
  }

  lemma CompressIs(i: nat)
    requires i < 256
    ensures var e := CompressTable(i);
            i < 2 * Power(e) && (i < 2 || Power(e) <= i)
  {
    Powers();
  }

  // The middle of a cell, as a row of the decompression table has it
  function Middle(r: nat, k: nat): int
    requires r < 8
  {
    252 * Power(7 - r) - 8 * Power(7 - r) * k
  }

  // A row goes in equal steps.
  lemma NegativeRows(r: nat, k: nat)
    requires r < 8 && k < 16
    ensures DecompressTable(16 * r + k) == 132 - Middle(r, k)
  {
    Powers();
    match r
    case 0 => assert Power(7) == 128;
    case 1 => assert Power(6) == 64;
    case 2 => assert Power(5) == 32;
    case 3 => assert Power(4) == 16;
    case 4 => assert Power(3) == 8;
    case 5 => assert Power(2) == 4;
    case 6 => assert Power(1) == 2;
    case _ => assert Power(0) == 1;
  }

  lemma PositiveRows(r: nat, k: nat)
    requires r < 8 && k < 16
    ensures DecompressTable(128 + 16 * r + k) == Middle(r, k) - 132
  {
    if r < 4 { LoudRows(r, k); } else { SoftRows(r, k); }
  }

  lemma LoudRows(r: nat, k: nat)
    requires r < 4 && k < 16
    ensures DecompressTable(128 + 16 * r + k) == Middle(r, k) - 132
  {
    Powers();
    match r
    case 0 => assert Power(7) == 128;
    case 1 => assert Power(6) == 64;
    case 2 => assert Power(5) == 32;
    case _ => assert Power(4) == 16;
  }

  lemma SoftRows(r: nat, k: nat)
    requires 4 <= r < 8 && k < 16
    ensures DecompressTable(128 + 16 * r + k) == Middle(r, k) - 132
  {
    Powers();
    match r
    case 4 => assert Power(3) == 8;
    case 5 => assert Power(2) == 4;
    case 6 => assert Power(1) == 2;
    case _ => assert Power(0) == 1;
  }

  lemma MiddleIs(e: Exponent, m: nat)
    requires m < 16
    ensures Segment(e, m).middle == Middle(7 - e, 15 - m)
  {
    var p := Power(e);
    assert p * (8 * m + 132) == 252 * p - 8 * p * (15 - m);
  }

  lemma ByteParts(sign: int, e: Exponent, m: nat)
    requires (sign == 0 || sign == 128) && m < 16
    ensures var b := 255 - (sign + 16 * e + m);
            && 0 <= b < 256 && b == 128 - sign + 16 * (7 - e) + (15 - m)
            && (255 - b) % 128 / 16 == e && (255 - b) % 16 == m
  {
  }

  // The decompression table: a code comes back as the middle of its cell, without the bias.
  lemma DecompressIs(sign: int, e: Exponent, m: nat)
    requires (sign == 0 || sign == 128) && m < 16
    ensures DecompressTable(255 - (sign + 16 * e + m))
         == if sign == 128 then 132 - Segment(e, m).middle else Segment(e, m).middle - 132
  {
    ByteParts(sign, e, m);
    MiddleIs(e, m);
    if sign == 128 {
      NegativeRows(7 - e, 15 - m);
    } else {
      PositiveRows(7 - e, 15 - m);
    }
  }

  // The exponent is the one of the segment that holds the sample with its bias.
  lemma ExponentIs(t: nat)
    requires 128 <= t < 32768
    ensures Shr(t, 7) % 256 == t / 128
    ensures var e := CompressTable(t / 128);
            128 * Power(e) <= t < 256 * Power(e)
  {
    Powers();
    var i := t / 128;
    CompressIs(i);
    var p := Power(CompressTable(i));
    assert i < 2 * p && p <= i;
  }

  // The size that a sample is coded with
  function Biased(x: Short): int {
    Clipped(if x < 0 then Negated(x) else x) + BIAS
  }

  // Encoding a sample that has a negation: its sign, and the cell that holds its size
  lemma EncodeIs(x: Short) returns (e: Exponent, m: nat)
    requires x != -32768
    ensures m < 16 && Encode(x) == 255 - ((if x < 0 then 128 else 0) + 16 * e + m)
    ensures Segment(e, m).Holds(Biased(x))
  {
    var t := Biased(x);
    ExponentIs(t);
    e := CompressTable(t / 128);
    m := Shr(t, e + 3) % 16;
    MantissaIs(t, e);
    EncodeOf(x, e, m);
  }

  lemma SignIs(x: Short)
    ensures SignBit(Shr(x, 8)) == if x < 0 then 128 else 0
  {
    Powers();
  }

  lemma EncodeOf(x: Short, e: Exponent, m: nat)
    requires e == CompressTable(Shr(Biased(x), 7) % 256) && m == Shr(Biased(x), e + 3) % 16
    ensures Encode(x) == 255 - ((if x < 0 then 128 else 0) + 16 * e + m)
  {
    SignIs(x);
  }

  // A sample comes back as the middle of its cell, under its sign.
  lemma HopIs(x: Short) returns (e: Exponent, m: nat)
    requires x != -32768
    ensures m < 16 && Segment(e, m).Holds(Biased(x))
    ensures Hop(x) == if x < 0 then 132 - Segment(e, m).middle else Segment(e, m).middle - 132
    ensures SegmentOf(x) == e
  {
    e, m := EncodeIs(x);
    DecodeIs(Encode(x), if x < 0 then 128 else 0, e, m);
  }

  lemma DecodeIs(b: Byte, sign: int, e: Exponent, m: nat)
    requires (sign == 0 || sign == 128) && m < 16 && b == 255 - (sign + 16 * e + m)
    ensures DecompressTable(b) == if sign == 128 then 132 - Segment(e, m).middle else Segment(e, m).middle - 132
    ensures (255 - b) % 128 / 16 == e
  {
    ByteParts(sign, e, m);
    DecompressIs(sign, e, m);
  }

  // The smallest sample has no negation and comes back as silence.
  lemma SmallestIsSilence()
    ensures Encode(-32768) == 127 && Hop(-32768) == 0 && SegmentOf(-32768) == 0
  {
    Powers();
    assert Shr(-32768, 8) == -128;
    assert Shr(-32636, 7) == -255;
    assert CompressTable(1) == 0;
    assert Shr(-32636, 3) == -4080;
  }

  // The error is within half a cell, 2 to the segment plus 2, if and only if the sample is not clipped
  // by more than one.
  lemma ErrorIff(x: Short)
    ensures Abs(Hop(x) - x) <= 4 * Power(SegmentOf(x)) <==> Abs(x) <= CLIP + 1
  {
    Powers();
    if x == -32768 {
      SmallestIsSilence();
    } else {
      var e, m := HopIs(x);
      SegmentBounds(e, m);
      if Abs(x) > CLIP {
        ClippedIs(e, m);
      }
    }
  }

  // All clipped samples are in the last cell.
  lemma ClippedIs(e: Exponent, m: nat)
    requires m < 16 && Segment(e, m).Holds(CLIP + BIAS)
    ensures e == 7 && m == 15 && Segment(e, m).middle == 32256
  {
    Powers();
    if e < 7 {
      SegmentsApart(e, m, 7, 15);
    } else if m < 15 {
      SegmentsApart(e, m, 7, 15);
    }
  }

  lemma SegmentsOrdered(e: Exponent, m: nat, f: Exponent, n: nat)
    requires m < 16 && n < 16
    ensures Apart(Segment(e, m), Segment(f, n))
  {
    if e < f || (e == f && m < n) {
      SegmentsApart(e, m, f, n);
    } else if f < e || n < m {
      SegmentsApart(f, n, e, m);
    }
  }

  // Louder samples come back no softer.
  lemma SizesInOrder(x: Short, y: Short)
    requires 0 <= x <= y
    ensures 0 <= Hop(x) <= Hop(y)
  {
    var e, m := HopIs(x);
    var f, n := HopIs(y);
    SegmentBounds(e, m);
    SegmentBounds(f, n);
    SegmentsOrdered(e, m, f, n);
    MiddlesInOrder(Segment(e, m), Segment(f, n), Biased(x), Biased(y));
  }

  // Sizes below four are silence.
  lemma SilenceIff(x: Short)
    requires x >= 0
    ensures Hop(x) == 0 <==> x < 4
  {
    Powers();
    var e, m := HopIs(x);
    SegmentBounds(e, m);
    if x < 4 {
      SegmentsOrdered(e, m, 0, 0);
    } else {
      SegmentsOrdered(e, m, 0, 0);
      SizesInOrder(x, x);
    }
  }

  // The negation of a sample comes back as the negation.
  lemma Opposite(x: Short, y: Short)
    requires x > 0 && x + y == 0
    ensures Hop(x) + Hop(y) == 0
  {
    var e, m := HopIs(x);
    var f, n := HopIs(y);
    SegmentsOrdered(e, m, f, n);
  }

  lemma NegativesInOrder(x: Short, y: Short)
    requires -32768 < x <= y < 0
    ensures Hop(x) <= Hop(y)
  {
    var a, b := 0 - x, 0 - y;
    SizesInOrder(b, a);
    Opposite(a, x);
    Opposite(b, y);
  }

  lemma NegativeIff(y: Short)
    requires y != -32768
    ensures Hop(y) < 0 <==> y <= -4
  {
    if y < 0 {
      var b := 0 - y;
      SizesInOrder(b, b);
      SilenceIff(b);
      Opposite(b, y);
    } else {
      SizesInOrder(y, y);
    }
  }

  // The order of samples is kept if and only if the smallest one is not compared to one that comes
  // back negative.
  lemma OrderIff(x: Short, y: Short)
    requires x <= y
    ensures Hop(x) <= Hop(y) <==> x != -32768 || y == -32768 || y > -4
  {
    if x == -32768 {
      SmallestIsSilence();
      if y != x { NegativeIff(y); }
    } else if x >= 0 {
      SizesInOrder(x, y);
    } else if y < 0 {
      NegativesInOrder(x, y);
    } else {
      var a := 0 - x;
      SizesInOrder(a, a);
      Opposite(a, x);
      SizesInOrder(y, y);
    }
  }

  // What came back once comes back unchanged.
  lemma Settled(x: Short)
    ensures Hop(Hop(x)) == Hop(x)
  {
    if x == -32768 {
      SmallestIsSilence();
      SettledSize(0);
      SilenceIff(0);
    } else if x < 0 {
      SettledNegative(0 - x, x);
    } else {
      SettledSize(x);
    }
  }

  lemma SettledNegative(x: Short, y: Short)
    requires x > 0 && x + y == 0
    ensures Hop(Hop(y)) == Hop(y)
  {
    SettledSize(x);
    Opposite(x, y);
    Mirrored(Hop(x), Hop(y));
  }

  lemma Mirrored(y: Short, z: Short)
    requires y >= 0 && y + z == 0 && Hop(y) == y
    ensures Hop(z) == z
  {
    if y > 0 { Opposite(y, z); } else { SilenceIff(z); }
  }

  lemma SettledSize(x: Short)
    requires x >= 0
    ensures Hop(Hop(x)) == Hop(x) >= 0
  {
    var e, m := HopIs(x);
    var y := Hop(x);
    SizesInOrder(x, x);
    SegmentBounds(e, m);
    LastMiddle(e, m);
    var f, n := HopIs(y);
    SegmentsOrdered(e, m, f, n);
  }

  lemma LastMiddle(e: Exponent, m: nat)
    requires m < 16
    ensures Segment(e, m).middle <= CLIP + BIAS
  {
    Powers();
    SegmentBounds(e, m);
    SegmentBounds(7, 15);
    if e < 7 {
      SegmentsApart(e, m, 7, 15);
    } else {
      InOrder(128, 8 * m + 132, 8 * 15 + 132);
    }
  }

  // After the first round trip through the codec, no number of further ones changes a frame of any length.
  lemma FramesSettle(frame: seq<Short>, n: nat)
    requires n > 0
    ensures Hops(Hop, frame, n) == DecodeAll(DecompressTable, EncodeAll(Encode, frame))
  {
    forall x: Short ensures Hop(Hop(x)) == Hop(x) { Settled(x); }
    HopsSettle(Hop, frame, n);
    CodecIsHop(Encode, DecompressTable, Hop, frame);
  }
}
