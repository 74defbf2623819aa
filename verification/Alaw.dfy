// The A-law codec.
module Alaw {
  import opened G711

  // The compression table, row by row: all rows but the first repeat one value sixteen times.
  function CompressTable(i: nat): Exponent
    requires i < 128
  {
    match i / 16
    case 0 =>
      (match i % 16
       case 0 => 1 case 1 => 1 case 2 => 2 case 3 => 2 case 4 => 3 case 5 => 3 case 6 => 3 case 7 => 3
       case 8 => 4 case 9 => 4 case 10 => 4 case 11 => 4 case 12 => 4 case 13 => 4 case 14 => 4 case _ => 4)
    case 1 => 5
    case 2 => 6 case 3 => 6
    case 4 => 7 case 5 => 7 case 6 => 7 case _ => 7
  }

  // The decompression table, row by row
  function Decompress0(k: nat): Short {
    match k
    case 0 => -5504 case 1 => -5248 case 2 => -6016 case 3 => -5760
    case 4 => -4480 case 5 => -4224 case 6 => -4992 case 7 => -4736
    case 8 => -7552 case 9 => -7296 case 10 => -8064 case 11 => -7808
    case 12 => -6528 case 13 => -6272 case 14 => -7040 case _ => -6784
  }
  function Decompress1(k: nat): Short {
    match k
    case 0 => -2752 case 1 => -2624 case 2 => -3008 case 3 => -2880
    case 4 => -2240 case 5 => -2112 case 6 => -2496 case 7 => -2368
    case 8 => -3776 case 9 => -3648 case 10 => -4032 case 11 => -3904
    case 12 => -3264 case 13 => -3136 case 14 => -3520 case _ => -3392
  }
  function Decompress2(k: nat): Short {
    match k
    case 0 => -22016 case 1 => -20992 case 2 => -24064 case 3 => -23040
    case 4 => -17920 case 5 => -16896 case 6 => -19968 case 7 => -18944
    case 8 => -30208 case 9 => -29184 case 10 => -32256 case 11 => -31232
    case 12 => -26112 case 13 => -25088 case 14 => -28160 case _ => -27136
  }
  function Decompress3(k: nat): Short {
    match k
    case 0 => -11008 case 1 => -10496 case 2 => -12032 case 3 => -11520
    case 4 => -8960 case 5 => -8448 case 6 => -9984 case 7 => -9472
    case 8 => -15104 case 9 => -14592 case 10 => -16128 case 11 => -15616
    case 12 => -13056 case 13 => -12544 case 14 => -14080 case _ => -13568
  }
  function Decompress4(k: nat): Short {
    match k
    case 0 => -344 case 1 => -328 case 2 => -376 case 3 => -360
    case 4 => -280 case 5 => -264 case 6 => -312 case 7 => -296
    case 8 => -472 case 9 => -456 case 10 => -504 case 11 => -488
    case 12 => -408 case 13 => -392 case 14 => -440 case _ => -424
  }
  function Decompress5(k: nat): Short {
    match k
    case 0 => -88 case 1 => -72 case 2 => -120 case 3 => -104
    case 4 => -24 case 5 => -8 case 6 => -56 case 7 => -40
    case 8 => -216 case 9 => -200 case 10 => -248 case 11 => -232
    case 12 => -152 case 13 => -136 case 14 => -184 case _ => -168
  }
  function Decompress6(k: nat): Short {
    match k
    case 0 => -1376 case 1 => -1312 case 2 => -1504 case 3 => -1440
    case 4 => -1120 case 5 => -1056 case 6 => -1248 case 7 => -1184
    case 8 => -1888 case 9 => -1824 case 10 => -2016 case 11 => -1952
    case 12 => -1632 case 13 => -1568 case 14 => -1760 case _ => -1696
  }
  function Decompress7(k: nat): Short {
    match k
    case 0 => -688 case 1 => -656 case 2 => -752 case 3 => -720
    case 4 => -560 case 5 => -528 case 6 => -624 case 7 => -592
    case 8 => -944 case 9 => -912 case 10 => -1008 case 11 => -976
    case 12 => -816 case 13 => -784 case 14 => -880 case _ => -848
  }
  function Decompress8(k: nat): Short {
    match k
    case 0 => 5504 case 1 => 5248 case 2 => 6016 case 3 => 5760
    case 4 => 4480 case 5 => 4224 case 6 => 4992 case 7 => 4736
    case 8 => 7552 case 9 => 7296 case 10 => 8064 case 11 => 7808
    case 12 => 6528 case 13 => 6272 case 14 => 7040 case _ => 6784
  }
  function Decompress9(k: nat): Short {
    match k
    case 0 => 2752 case 1 => 2624 case 2 => 3008 case 3 => 2880
    case 4 => 2240 case 5 => 2112 case 6 => 2496 case 7 => 2368
    case 8 => 3776 case 9 => 3648 case 10 => 4032 case 11 => 3904
    case 12 => 3264 case 13 => 3136 case 14 => 3520 case _ => 3392
  }
  function Decompress10(k: nat): Short {
    match k
    case 0 => 22016 case 1 => 20992 case 2 => 24064 case 3 => 23040
    case 4 => 17920 case 5 => 16896 case 6 => 19968 case 7 => 18944
    case 8 => 30208 case 9 => 29184 case 10 => 32256 case 11 => 31232
    case 12 => 26112 case 13 => 25088 case 14 => 28160 case _ => 27136
  }
  function Decompress11(k: nat): Short {
    match k
    case 0 => 11008 case 1 => 10496 case 2 => 12032 case 3 => 11520
    case 4 => 8960 case 5 => 8448 case 6 => 9984 case 7 => 9472
    case 8 => 15104 case 9 => 14592 case 10 => 16128 case 11 => 15616
    case 12 => 13056 case 13 => 12544 case 14 => 14080 case _ => 13568
  }
  function Decompress12(k: nat): Short {
    match k
    case 0 => 344 case 1 => 328 case 2 => 376 case 3 => 360
    case 4 => 280 case 5 => 264 case 6 => 312 case 7 => 296
    case 8 => 472 case 9 => 456 case 10 => 504 case 11 => 488
    case 12 => 408 case 13 => 392 case 14 => 440 case _ => 424
  }
  function Decompress13(k: nat): Short {
    match k
    case 0 => 88 case 1 => 72 case 2 => 120 case 3 => 104
    case 4 => 24 case 5 => 8 case 6 => 56 case 7 => 40
    case 8 => 216 case 9 => 200 case 10 => 248 case 11 => 232
    case 12 => 152 case 13 => 136 case 14 => 184 case _ => 168
  }
  function Decompress14(k: nat): Short {
    match k
    case 0 => 1376 case 1 => 1312 case 2 => 1504 case 3 => 1440
    case 4 => 1120 case 5 => 1056 case 6 => 1248 case 7 => 1184
    case 8 => 1888 case 9 => 1824 case 10 => 2016 case 11 => 1952
    case 12 => 1632 case 13 => 1568 case 14 => 1760 case _ => 1696
  }
  function Decompress15(k: nat): Short {
    match k
    case 0 => 688 case 1 => 656 case 2 => 752 case 3 => 720
    case 4 => 560 case 5 => 528 case 6 => 624 case 7 => 592
    case 8 => 944 case 9 => 912 case 10 => 1008 case 11 => 976
    case 12 => 816 case 13 => 784 case 14 => 880 case _ => 848
  }

  function DecompressTable(b: Byte): Short {
    var k := b % 16;
    match b / 16
    case 0 => Decompress0(k)
    case 1 => Decompress1(k)
    case 2 => Decompress2(k)
    case 3 => Decompress3(k)
    case 4 => Decompress4(k)
    case 5 => Decompress5(k)
    case 6 => Decompress6(k)
    case 7 => Decompress7(k)
    case 8 => Decompress8(k)
    case 9 => Decompress9(k)
    case 10 => Decompress10(k)
    case 11 => Decompress11(k)
    case 12 => Decompress12(k)
    case 13 => Decompress13(k)
    case 14 => Decompress14(k)
    case _ => Decompress15(k)
  }

  const MASK := 0x55

  // The code of a size, before it is masked
  function Coded(s: Short): (code: nat)
    ensures code < 256
  {
    if s >= 256 then
      var e := CompressTable(Shr(s, 8) % 128);
      16 * e + Shr(s, e + 3) % 16
    else Shr(s, 4) % 256
  }

  // One sample: the code of its size, with its sign, every other bit inverted
  function Encode(x: Short): Byte {
    var sign := SignBit(Shr(-1 - (x as int), 8));
    var s := Clipped(if sign == 0 then Negated(x) else x);
    XorBytes(Coded(s), sign);
    Xor(Coded(s), Xor(sign, MASK))
  }

  lemma XorBytes(a: nat, b: nat)
    requires a < 256 && b < 256
    ensures Xor(a, Xor(b, MASK)) < 256
  {
    Powers();
    XorBelow(b, MASK, 8);
    XorBelow(a, Xor(b, MASK), 8);
  }

  function Hop(x: Short): Short {
    DecompressTable(Encode(x))
  }

  // The segment that a byte names
  function SegmentOf(x: Short): nat {
    Xor(Encode(x), MASK) % 128 / 16
  }

  // The sizes of one code. The first segment is as fine as the second.
  function CellOf(e: nat, m: nat): Cell {
    if e == 0 then Cell(16 * m, 16 * m + 16, 16 * m + 8) else Segment(e, m)
  }

  // A nibble under the mask
  function Flip(k: nat): nat { Xor(k, 5) }

  lemma Flips()
    ensures Flip(0) == 5 && Flip(1) == 4 && Flip(2) == 7 && Flip(3) == 6
    ensures Flip(4) == 1 && Flip(5) == 0 && Flip(6) == 3 && Flip(7) == 2
    ensures Flip(8) == 13 && Flip(9) == 12 && Flip(10) == 15 && Flip(11) == 14
    ensures Flip(12) == 9 && Flip(13) == 8 && Flip(14) == 11 && Flip(15) == 10
  {
  }

  lemma Row0(m: nat)
    requires m < 16
    ensures Decompress13(Flip(m)) == 8 + 16 * m == 0 - Decompress5(Flip(m)) as int
  {
    Flips();
  }

  lemma Row1(m: nat)
    requires m < 16
    ensures Decompress12(Flip(m)) == 264 + 16 * m == 0 - Decompress4(Flip(m)) as int
  {
    Flips();
  }

  lemma Row2(m: nat)
    requires m < 16
    ensures Decompress15(Flip(m)) == 528 + 32 * m == 0 - Decompress7(Flip(m)) as int
  {
    Flips();
  }

  lemma Row3(m: nat)
    requires m < 16
    ensures Decompress14(Flip(m)) == 1056 + 64 * m == 0 - Decompress6(Flip(m)) as int
  {
    Flips();
  }

  lemma Row4(m: nat)
    requires m < 16
    ensures Decompress9(Flip(m)) == 2112 + 128 * m == 0 - Decompress1(Flip(m)) as int
  {
    Flips();
  }

  lemma Row5(m: nat)
    requires m < 16
    ensures Decompress8(Flip(m)) == 4224 + 256 * m == 0 - Decompress0(Flip(m)) as int
  {
    Flips();
  }

  lemma Row6(m: nat)
    requires m < 16
    ensures Decompress11(Flip(m)) == 8448 + 512 * m == 0 - Decompress3(Flip(m)) as int
  {
    Flips();
  }

  lemma Row7(m: nat)
    requires m < 16
    ensures Decompress10(Flip(m)) == 16896 + 1024 * m == 0 - Decompress2(Flip(m)) as int
  {
    Flips();
  }

  lemma Middles(e: Exponent, m: nat)
    requires m < 16
    ensures CellOf(e, m).middle == if e == 0 then 8 + 16 * m else 132 * Power(e) + 8 * Power(e) * m
  {
    var p := Power(e);
    assert p * (8 * m + 132) == 132 * p + 8 * p * m;
  }

  // A row of the decompression table, read under the mask, holds the middles of one segment.
  lemma PositiveRow(b: Byte, e: Exponent, m: nat)
    requires m < 16 && Flip(e) < 8 && Flip(m) < 16 && b == 128 + 16 * Flip(e) + Flip(m)
    ensures DecompressTable(b) == CellOf(e, m).middle
  {
    Flips();
    Powers();
    Middles(e, m);
    match e
    case 0 => Row0(m);
    case 1 => Row1(m);
    case 2 => Row2(m);
    case 3 => Row3(m);
    case 4 => Row4(m);
    case 5 => Row5(m);
    case 6 => Row6(m);
    case _ => Row7(m);
  }

  lemma NegativeRow(b: Byte, e: Exponent, m: nat)
    requires m < 16 && Flip(e) < 8 && Flip(m) < 16 && b == 16 * Flip(e) + Flip(m)
    ensures DecompressTable(b) as int == 0 - CellOf(e, m).middle
  {
    Flips();
    Powers();
    Middles(e, m);
    match e
    case 0 => Row0(m);
    case 1 => Row1(m);
    case 2 => Row2(m);
    case 3 => Row3(m);
    case 4 => Row4(m);
    case 5 => Row5(m);
    case 6 => Row6(m);
    case _ => Row7(m);
  }

  // Masking works nibble by nibble.
  lemma Nibbles(h: nat, m: nat, mask: nat)
    requires h < 16 && m < 16 && mask < 16
    ensures Xor(16 * h + m, 16 * mask + 5) == 16 * Xor(h, mask) + Flip(m)
  {
    Powers();
    XorSplit(h, mask, m, 5, 4);
  }

  // The sign is the highest bit.
  lemma HighNibble(e: Exponent)
    ensures Flip(e) < 8 && Xor(e, 13) == 8 + Flip(e)
    ensures Flip(Flip(e)) == e && Flip(8 + Flip(e)) == 8 + e
  {
    Flips();
    SignedFlips();
  }

  lemma SignedFlips()
    ensures Xor(0, 13) == 13 && Xor(1, 13) == 12 && Xor(2, 13) == 15 && Xor(3, 13) == 14
    ensures Xor(4, 13) == 9 && Xor(5, 13) == 8 && Xor(6, 13) == 11 && Xor(7, 13) == 10
  {
  }

  lemma Masks()
    ensures Xor(0, MASK) == 16 * 5 + 5 && Xor(128, MASK) == 16 * 13 + 5
  {
    Flips();
    Nibbles(0, 0, 5);
    Nibbles(8, 0, 5);
  }

  lemma Masked(code: nat, sign: int, e: Exponent, m: nat)
    requires (sign == 0 || sign == 128) && m < 16 && code == 16 * e + m
    ensures Xor(code, Xor(sign, MASK)) == sign + 16 * Flip(e) + Flip(m)
  {
    Masks();
    MaskedBy(e, m, if sign == 0 then 5 else 13);
  }

  lemma MaskedBy(e: Exponent, m: nat, h: nat)
    requires m < 16 && (h == 5 || h == 13)
    ensures Xor(16 * e + m, 16 * h + 5) == (if h == 5 then 0 else 128) + 16 * Flip(e) + Flip(m)
  {
    HighNibble(e);
    Nibbles(e, m, h);
  }

  lemma Unmasked(sign: int, e: Exponent, m: nat)
    requires (sign == 0 || sign == 128) && m < 16
    ensures Xor(sign + 16 * Flip(e) + Flip(m), MASK) == sign + 16 * e + m
  {
    HighNibble(e);
    LowNibble(m);
    Nibbles(if sign == 0 then Flip(e) else 8 + Flip(e), Flip(m), 5);
  }

  lemma LowNibble(m: nat)
    requires m < 16
    ensures Flip(m) < 16 && Flip(Flip(m)) == m
  {
    Flips();
  }

  lemma CompressIs(i: nat)
    requires 0 < i < 128
    ensures var e := CompressTable(i);
            0 < e && i < Power(e) <= 2 * i
  {
    Powers();
  }

  lemma LoudIs(s: Short)
    requires s >= 256
    ensures Shr(s, 8) % 128 == s / 256
    ensures var e := CompressTable(s / 256);
            e > 0 && 128 * Power(e) <= s < 256 * Power(e)
  {
    Powers();
    CompressIs(s / 256);
  }

  // The code of a size names the cell that holds it.
  lemma CodedIs(s: Short) returns (e: Exponent, m: nat)
    requires s >= 0
    ensures m < 16 && Coded(s) == 16 * e + m && CellOf(e, m).Holds(s)
  {
    Powers();
    if s >= 256 {
      LoudIs(s);
      e := CompressTable(s / 256);
      m := Shr(s, e + 3) % 16;
      MantissaIs(s, e);
    } else {
      e, m := 0, s / 16;
    }
  }

  // The size that a sample is coded with
  function Size(x: Short): Short {
    Clipped(if x < 0 then Negated(x) else x)
  }

  // Encoding a sample that has a negation: the cell that holds its size, with its sign and the mask
  lemma EncodeIs(x: Short) returns (e: Exponent, m: nat)
    requires x != -32768
    ensures m < 16 && CellOf(e, m).Holds(Size(x))
    ensures Encode(x) == (if x < 0 then 0 else 128) + 16 * Flip(e) + Flip(m)
  {
    e, m := CodedIs(Size(x));
    var sign := if x < 0 then 0 else 128;
    EncodeOf(x, Coded(Size(x)), sign);
    Masked(Coded(Size(x)), sign, e, m);
  }

  lemma SignIs(x: Short)
    ensures SignBit(Shr(-1 - (x as int), 8)) == if x < 0 then 0 else 128
  {
    Powers();
  }

  lemma EncodeOf(x: Short, code: nat, sign: nat)
    requires code == Coded(Size(x)) && sign == if x < 0 then 0 else 128
    ensures Encode(x) == Xor(code, Xor(sign, MASK))
  {
    SignIs(x);
  }

  lemma DecodeIs(b: Byte, sign: int, e: Exponent, m: nat)
    requires (sign == 0 || sign == 128) && m < 16 && b == sign + 16 * Flip(e) + Flip(m)
    ensures DecompressTable(b) as int == if sign == 0 then 0 - CellOf(e, m).middle else CellOf(e, m).middle
  {
    HighNibble(e);
    LowNibble(m);
    if sign == 0 {
      NegativeRow(b, e, m);
    } else {
      PositiveRow(b, e, m);
    }
  }

  lemma SegmentIs(b: Byte, sign: int, e: Exponent, m: nat)
    requires (sign == 0 || sign == 128) && m < 16 && b == sign + 16 * Flip(e) + Flip(m)
    ensures Xor(b, MASK) % 128 / 16 == e
  {
    Unmasked(sign, e, m);
    ByteParts(sign, e, m);
  }

  // A sample comes back as the middle of its cell, under its sign.
  lemma HopIs(x: Short) returns (e: Exponent, m: nat)
    requires x != -32768
    ensures m < 16 && CellOf(e, m).Holds(Size(x))
    ensures Hop(x) as int == if x < 0 then 0 - CellOf(e, m).middle else CellOf(e, m).middle
    ensures SegmentOf(x) == e
  {
    e, m := EncodeIs(x);
    DecodeIs(Encode(x), if x < 0 then 0 else 128, e, m);
    SegmentIs(Encode(x), if x < 0 then 0 else 128, e, m);
  }

  lemma ByteParts(sign: int, e: Exponent, m: nat)
    requires (sign == 0 || sign == 128) && m < 16
    ensures (sign + 16 * e + m) % 128 / 16 == e
  {
  }

  lemma SmallestCode()
    ensures Coded(-32768) == 0 && Encode(-32768) == MASK
  {
    Powers();
    assert Shr(-32768, 4) == -2048;
    EncodeOf(-32768, 0, 0);
    Masked(0, 0, 0, 0);
    Flips();
  }

  // The smallest sample has no negation and comes back as the softest one.
  lemma SmallestIsSoftest()
    ensures Encode(-32768) == MASK && Hop(-32768) == -8 && SegmentOf(-32768) == 0
  {
    SmallestCode();
    Flips();
    DecodeIs(MASK, 0, 0, 0);
    SegmentIs(MASK, 0, 0, 0);
  }

  // Half the width of the cells of a segment
  function Half(e: nat): nat {
    if e == 0 then 8 else 4 * Power(e)
  }

  lemma CellBounds(e: Exponent, m: nat)
    requires m < 16
    ensures CellOf(e, m).Holds(CellOf(e, m).middle)
    ensures CellOf(e, m).middle == CellOf(e, m).low + Half(e) == CellOf(e, m).high - Half(e)
    ensures 0 <= CellOf(e, m).low && (e > 0 ==> 256 <= CellOf(e, m).low)
  {
    SegmentBounds(e, m);
    if e > 0 { PowerGrows(0, e); }
  }

  lemma CellsOrdered(e: Exponent, m: nat, f: Exponent, n: nat)
    requires m < 16 && n < 16
    ensures Apart(CellOf(e, m), CellOf(f, n))
  {
    CellBounds(e, m);
    CellBounds(f, n);
    if e > 0 && f > 0 {
      if e < f || (e == f && m < n) {
        SegmentsApart(e, m, f, n);
      } else if f < e || n < m {
        SegmentsApart(f, n, e, m);
      }
    }
  }

  // The error is within half a cell if and only if the sample is not the smallest one.
  lemma ErrorIff(x: Short)
    ensures Abs(Hop(x) - x) <= Half(SegmentOf(x)) <==> x != -32768
  {
    Powers();
    if x == -32768 {
      SmallestIsSoftest();
    } else {
      var e, m := HopIs(x);
      CellBounds(e, m);
      if Abs(x) > CLIP { ClippedIs(e, m); }
    }
  }

  // All clipped samples are in the last cell.
  lemma ClippedIs(e: Exponent, m: nat)
    requires m < 16 && CellOf(e, m).Holds(CLIP)
    ensures e == 7 && m == 15 && CellOf(e, m).middle == 32256
  {
    Powers();
    CellsOrdered(e, m, 7, 15);
    LastCell(e, m);
  }

  lemma LastCell(e: Exponent, m: nat)
    requires m < 16
    ensures CellOf(e, m).middle <= 32256 && (CellOf(e, m).middle == 32256 <==> e == 7 && m == 15)
  {
    Powers();
    CellBounds(e, m);
    if 0 < e < 7 {
      SegmentsApart(e, m, 7, 0);
    } else if e == 7 {
      InOrder(128, 8 * m + 132, 252);
    }
  }

  // Louder samples come back no softer, and none comes back as silence.
  lemma SizesInOrder(x: Short, y: Short)
    requires 0 <= x <= y
    ensures 8 <= Hop(x) <= Hop(y)
  {
    var e, m := HopIs(x);
    var f, n := HopIs(y);
    CellBounds(e, m);
    CellBounds(f, n);
    CellsOrdered(e, m, f, n);
    MiddlesInOrder(CellOf(e, m), CellOf(f, n), Size(x), Size(y));
  }

  // Sizes below sixteen share the softest cell.
  lemma SoftestIff(x: Short)
    requires x >= 0
    ensures Hop(x) == 8 <==> x < 16
  {
    var e, m := HopIs(x);
    CellBounds(e, m);
    CellsOrdered(e, m, 0, 0);
  }

  // The negation of a sample comes back as the negation.
  lemma Opposite(x: Short, y: Short)
    requires x > 0 && x + y == 0
    ensures Hop(x) + Hop(y) == 0
  {
    var e, m := HopIs(x);
    var f, n := HopIs(y);
    CellsOrdered(e, m, f, n);
  }

  lemma NegativesInOrder(x: Short, y: Short)
    requires -32768 < x <= y < 0
    ensures Hop(x) <= Hop(y)
  {
    var a, b := 0 - x, 0 - y;
    SizesInOrder(b, a);
    Opposite(a, x);
    Opposite(b, y);
  }

  lemma SoftNegativeIff(y: Short)
    requires y != -32768
    ensures Hop(y) < -8 <==> y <= -16
  {
    if y < 0 {
      var b := 0 - y;
      SizesInOrder(b, b);
      SoftestIff(b);
      Opposite(b, y);
    } else {
      SizesInOrder(y, y);
    }
  }

  // The order of samples is kept if and only if the smallest one is not compared to one that comes
  // back louder.
  lemma OrderIff(x: Short, y: Short)
    requires x <= y
    ensures Hop(x) <= Hop(y) <==> x != -32768 || y == -32768 || y > -16
  {
    if x == -32768 {
      SmallestIsSoftest();
      if y != x { SoftNegativeIff(y); }
    } else if x >= 0 {
      SizesInOrder(x, y);
    } else if y < 0 {
      NegativesInOrder(x, y);
    } else {
      var a := 0 - x;
      SizesInOrder(a, a);
      Opposite(a, x);
      SizesInOrder(y, y);
    }
  }

  // What came back once comes back unchanged.
  lemma Settled(x: Short)
    ensures Hop(Hop(x)) == Hop(x)
  {
    if x == -32768 {
      SmallestIsSoftest();
      SoftestIff(8);
      Opposite(8, -8);
    } else if x < 0 {
      SettledNegative(0 - x, x);
    } else {
      SettledSize(x);
    }
  }

  lemma SettledNegative(x: Short, y: Short)
    requires x > 0 && x + y == 0
    ensures Hop(Hop(y)) == Hop(y)
  {
    SettledSize(x);
    Opposite(x, y);
    Opposite(Hop(x), Hop(y));
  }

  lemma SettledSize(x: Short)
    requires x >= 0
    ensures Hop(Hop(x)) == Hop(x) > 0
  {
    var e, m := HopIs(x);
    var y := Hop(x);
    SizesInOrder(x, x);
    CellBounds(e, m);
    LastCell(e, m);
    var f, n := HopIs(y);
    CellsOrdered(e, m, f, n);
  }

  // After the first round trip through the codec, no number of further ones changes a frame of any length.
  lemma FramesSettle(frame: seq<Short>, n: nat)
    requires n > 0
    ensures Hops(Hop, frame, n) == DecodeAll(DecompressTable, EncodeAll(Encode, frame))
  {
    forall x: Short ensures Hop(Hop(x)) == Hop(x) { Settled(x); }
    HopsSettle(Hop, frame, n);
    CodecIsHop(Encode, DecompressTable, Hop, frame);
  }
}
