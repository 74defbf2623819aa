// What the two G.711 codecs share: 16-bit samples, bytes, shifts and masks.
module G711 {
  import opened Options

  type Short = x: int | -32768 <= x <= 32767
  type Byte = b: int | 0 <= b < 256

  type Exponent = e: int | 0 <= e < 8

  const LENGTH := 160
  const BIAS := 132
  const CLIP := 32635

  function Power(e: nat): (p: nat)
    ensures p > 0
  {
    if e == 0 then 1 else 2 * Power(e - 1)
  }

  // An arithmetic shift to the right
  function Shr(x: int, k: nat): int {
    x / Power(k)
  }

  // The bit of 0x80
  function SignBit(x: int): (bit: int)
    ensures bit == 0 || bit == 128
  {
    x % 256 / 128 * 128
  }

  // The negation of a short: the smallest one has none
  function Negated(x: Short): Short {
    if x == -32768 then x else -x
  }

  function Clipped(x: Short): Short {
    if x > CLIP then CLIP else x
  }

  function Abs(x: int): nat {
    if x < 0 then -x else x
  }

  // The exclusive or of two numbers
  function Xor(a: nat, b: nat): nat
    decreases a + b
  {
    if a == 0 && b == 0 then 0 else (a + b) % 2 + 2 * Xor(a / 2, b / 2)
  }

  lemma XorStep(a: nat, b: nat)
    ensures Xor(a, b) == (a + b) % 2 + 2 * Xor(a / 2, b / 2)
  {
  }

  lemma Doubling(q: nat, m: nat)
    ensures (2 * q + m) / 2 == q + m / 2 && (2 * q + m) % 2 == m % 2
  {
  }

  lemma PowerTimes(k: nat, a: nat) returns (h: nat)
    requires k > 0
    ensures h == Power(k - 1) * a && Power(k) * a == 2 * h
  {
    h := Power(k - 1) * a;
  }

  lemma SplitStep(a: nat, c: nat, x: nat, m: nat, d: nat)
    requires Xor(a + m / 2, c + d / 2) == x + Xor(m / 2, d / 2)
    ensures Xor(2 * a + m, 2 * c + d) == 2 * x + Xor(m, d)
  {
    XorLowest(a, c, m, d);
    XorStep(m, d);
  }

  // The exclusive or works on the k lowest bits and on the others apart.
  lemma {:induction false} XorSplit(a: nat, c: nat, m: nat, d: nat, k: nat)
    requires m < Power(k) && d < Power(k)
    ensures Xor(Power(k) * a + m, Power(k) * c + d) == Power(k) * Xor(a, c) + Xor(m, d)
    decreases k
  {
    if k > 0 {
      XorSplit(a, c, m / 2, d / 2, k - 1);
      var a' := PowerTimes(k, a);
      var c' := PowerTimes(k, c);
      var x' := PowerTimes(k, Xor(a, c));
      SplitStep(a', c', x', m, d);
    }
  }

  lemma XorDigit(x: nat, y: nat, a: nat, b: nat, digit: nat)
    requires x / 2 == a && y / 2 == b && (x + y) % 2 == digit
    ensures Xor(x, y) == digit + 2 * Xor(a, b)
  {
    XorStep(x, y);
  }

  lemma XorLowest(a: nat, c: nat, m: nat, d: nat)
    ensures Xor(2 * a + m, 2 * c + d) == (m + d) % 2 + 2 * Xor(a + m / 2, c + d / 2)
  {
    Doubling(a, m);
    Doubling(c, d);
    Doubling(a + c, m + d);
    XorDigit(2 * a + m, 2 * c + d, a + m / 2, c + d / 2, (m + d) % 2);
  }

  lemma {:induction false} XorBelow(a: nat, b: nat, n: nat)
    requires a < Power(n) && b < Power(n)
    ensures Xor(a, b) < Power(n)
    decreases n
  {
    if n > 0 { XorBelow(a / 2, b / 2, n - 1); }
  }

  lemma Powers()
    ensures Power(0) == 1 && Power(1) == 2 && Power(2) == 4 && Power(3) == 8 && Power(4) == 16 && Power(5) == 32
    ensures Power(6) == 64 && Power(7) == 128 && Power(8) == 256 && Power(9) == 512 && Power(10) == 1024
  {
    assert Power(5) == 32;
    assert Power(8) == 256;
  }

  lemma {:induction false} PowerGrows(e: nat, f: nat)
    requires e < f
    ensures 2 * Power(e) <= Power(f)
  {
    if e + 1 < f { PowerGrows(e, f - 1); }
  }

  // The samples that share a code, and the one they come back as
  datatype Cell = Cell(low: int, high: int, middle: int)
  {
    predicate Holds(t: int) { low <= t < high }
  }

  // One of the sixteen cells of a segment
  function Segment(e: nat, m: nat): Cell {
    Cell(8 * Power(e) * (16 + m), 8 * Power(e) * (17 + m), Power(e) * (8 * m + 132))
  }

  lemma SegmentBounds(e: nat, m: nat)
    requires m < 16
    ensures Segment(e, m).Holds(Segment(e, m).middle)
    ensures 128 * Power(e) <= Segment(e, m).low && Segment(e, m).high <= 256 * Power(e)
    ensures Segment(e, m).middle == Segment(e, m).low + 4 * Power(e) == Segment(e, m).high - 4 * Power(e)
  {
    var p := Power(e);
    assert 8 * p * (16 + m) == 128 * p + 8 * (p * m) && 8 * p * (17 + m) == 136 * p + 8 * (p * m);
    assert p * (8 * m + 132) == 132 * p + 8 * (p * m);
    assert 0 <= p * m <= 15 * p;
  }

  lemma InOrder(p: nat, a: nat, b: nat)
    requires a <= b
    ensures p * a <= p * b
  {
  }

  // Cells of different codes do not overlap.
  lemma SegmentsApart(e: nat, m: nat, f: nat, n: nat)
    requires m < 16 && n < 16 && (e < f || (e == f && m < n))
    ensures Segment(e, m).high <= Segment(f, n).low
  {
    if e < f {
      SegmentBounds(e, m);
      SegmentBounds(f, n);
      PowerGrows(e, f);
    } else {
      InOrder(8 * Power(e), 17 + m, 16 + n);
    }
  }

  lemma Next(w: nat, c: nat)
    ensures w * (c + 1) == w * c + w
  {
  }

  // Dividing by the width finds the cell.
  lemma Found(t: nat, p: nat)
    requires p > 0 && 128 * p <= t < 256 * p
    ensures var m := t / (8 * p) % 16;
            8 * p * (16 + m) <= t < 8 * p * (17 + m)
  {
    var w := 8 * p;
    var c := t / w;
    assert t == w * c + t % w && 0 <= t % w < w;
    Next(w, c);
    if c < 16 {
      InOrder(w, c + 1, 16);
    }
    if c >= 32 {
      InOrder(w, 32, c);
    }
    assert c % 16 == c - 16;
  }

  // The shift finds the cell.
  lemma MantissaIs(t: nat, e: Exponent)
    requires 128 * Power(e) <= t < 256 * Power(e)
    ensures Segment(e, Shr(t, e + 3) % 16).Holds(t)
  {
    assert Power(e + 3) == 2 * Power(e + 2) == 4 * Power(e + 1) == 8 * Power(e);
    Found(t, Power(e));
  }

  ghost predicate Apart(a: Cell, b: Cell) {
    a == b || a.high <= b.low || b.high <= a.low
  }

  // Cells that do not overlap are in the order of what they hold.
  lemma MiddlesInOrder(a: Cell, b: Cell, s: int, t: int)
    requires a.Holds(s) && a.Holds(a.middle) && b.Holds(t) && b.Holds(b.middle)
    requires Apart(a, b) && s <= t
    ensures a.middle <= b.middle
  {
  }

  // A frame after one hop
  function HopAll(hop: Short -> Short, frame: seq<Short>): (r: seq<Short>)
    ensures |r| == |frame|
  {
    seq(|frame|, i requires 0 <= i < |frame| => hop(frame[i]))
  }

  // A frame after n hops
  function Hops(hop: Short -> Short, frame: seq<Short>, n: nat): (r: seq<Short>)
    ensures |r| == |frame|
  {
    if n == 0 then frame else HopAll(hop, Hops(hop, frame, n - 1))
  }

  // If a second hop changes no sample, no number of hops changes more than the first.
  lemma {:induction false} HopsSettle(hop: Short -> Short, frame: seq<Short>, n: nat)
    requires n > 0 && forall x: Short :: hop(hop(x)) == hop(x)
    ensures Hops(hop, frame, n) == HopAll(hop, frame)
  {
    if n == 1 {
      assert Hops(hop, frame, 0) == frame;
    } else {
      HopsSettle(hop, frame, n - 1);
      assert HopAll(hop, HopAll(hop, frame)) == HopAll(hop, frame);
    }
  }

  function EncodeAll(code: Short -> Byte, frame: seq<Short>): (r: seq<Byte>)
    ensures |r| == |frame|
  {
    seq(|frame|, i requires 0 <= i < |frame| => code(frame[i]))
  }

  function DecodeAll(table: Byte -> Short, frame: seq<Byte>): (r: seq<Short>)
    ensures |r| == |frame|
  {
    seq(|frame|, i requires 0 <= i < |frame| => table(frame[i]))
  }

  // A frame that is encoded and decoded has taken one hop.
  lemma CodecIsHop(code: Short -> Byte, table: Byte -> Short, hop: Short -> Short, frame: seq<Short>)
    requires forall x: Short :: table(code(x)) == hop(x)
    ensures DecodeAll(table, EncodeAll(code, frame)) == HopAll(hop, frame)
  {
    forall i | 0 <= i < |frame| ensures DecodeAll(table, EncodeAll(code, frame))[i] == hop(frame[i]) {
      assert EncodeAll(code, frame)[i] == code(frame[i]);
    }
  }

  // The frame encoder: 160 samples, whatever the frame says its length is
  method EncodeFrame(code: Short -> Byte, outgoing: Option<array<Short>>) returns (encoded: Option<array<Byte>>)
    requires outgoing.Some? ==> outgoing.value.Length >= LENGTH
    ensures encoded.Some? <==> outgoing.Some?
    ensures encoded.Some? ==> fresh(encoded.value) && encoded.value[..] == EncodeAll(code, outgoing.value[..160])
  {
    if outgoing.None? {
      return None;
    }
    var samples := outgoing.value;
    var buffer := new Byte[LENGTH](_ => 0);
    for i := 0 to LENGTH
      invariant forall j | 0 <= j < i :: buffer[j] == code(samples[j])
    {
      buffer[i] := code(samples[i]);
    }
    assert buffer[..] == EncodeAll(code, samples[..LENGTH]);
    return Some(buffer);
  }

  // The frame decoder: only frames of 160 bytes
  method DecodeFrame(table: Byte -> Short, incoming: Option<array<Byte>>) returns (decoded: Option<array<Short>>)
    ensures decoded.Some? <==> incoming.Some? && incoming.value.Length == 160
    ensures decoded.Some? ==> fresh(decoded.value) && decoded.value[..] == DecodeAll(table, incoming.value[..])
  {
    if incoming.None? || incoming.value.Length != LENGTH {
      return None;
    }
    var samples := incoming.value;
    var buffer := new Short[LENGTH](_ => 0);
    for i := 0 to LENGTH
      invariant forall j | 0 <= j < i :: buffer[j] == table(samples[j])
    {
      buffer[i] := table(samples[i]);
    }
    assert buffer[..] == DecodeAll(table, samples[..]);
    return Some(buffer);
  }
}
