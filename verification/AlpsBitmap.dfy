/**
 * Semi-multitouch bitmaps: from the set bits of two axes to the corners of the box around
 * all fingers, and the corner taken for the second touch.
 */
module AlpsBitmap {
  import AlpsBytes

  // ---- Runs of bits ----------------------------------------------------------------

  predicate Bit(bitmap: nat, i: nat)
    decreases i
  {
    if i == 0 then bitmap % 2 == 1 else Bit(bitmap / 2, i - 1)
  }

  function Width(bitmap: nat): nat {
    if bitmap == 0 then 0 else 1 + Width(bitmap / 2)
  }

  /** struct alps_bitmap_point */
  datatype Point = Point(startBit: nat, numBits: nat)

  const NOWHERE := Point(0, 0)

  /** A run starts at bit j. */
  predicate StartsAt(bitmap: nat, j: nat) {
    Bit(bitmap, j) && (j == 0 || !Bit(bitmap, j - 1))
  }

  function Starts(bitmap: nat, n: nat): set<nat> {
    set j: nat | j < n && StartsAt(bitmap, j)
  }

  /** The number of maximal runs of set bits. */
  function Runs(bitmap: nat): nat {
    |Starts(bitmap, Width(bitmap))|
  }

  ghost predicate AllSet(bitmap: nat, lo: nat, hi: nat) {
    forall k: nat :: lo <= k < hi ==> Bit(bitmap, k)
  }

  ghost predicate NoneSet(bitmap: nat, lo: nat, hi: nat) {
    forall k: nat :: lo <= k < hi ==> !Bit(bitmap, k)
  }

  ghost predicate IsRun(bitmap: nat, p: Point) {
    && p.numBits > 0 && AllSet(bitmap, p.startBit, p.startBit + p.numBits)
    && (p.startBit == 0 || !Bit(bitmap, p.startBit - 1)) && !Bit(bitmap, p.startBit + p.numBits)
  }

  ghost predicate IsFirst(bitmap: nat, p: Point) {
    IsRun(bitmap, p) && NoneSet(bitmap, 0, p.startBit)
  }

  ghost predicate IsLast(bitmap: nat, p: Point) {
    IsRun(bitmap, p) && forall k: nat :: k >= p.startBit + p.numBits ==> !Bit(bitmap, k)
  }

  lemma {:induction false} ZeroHasNoBits(i: nat)
    ensures !Bit(0, i)
  {
    if i > 0 { ZeroHasNoBits(i - 1); }
  }

  // ---- The scan --------------------------------------------------------------------

  /** `rest` is the bitmap from bit i on. */
  ghost predicate Remains(bitmap: nat, i: nat, rest: nat) {
    Width(bitmap) == i + Width(rest) && forall k: nat :: Bit(rest, k) == Bit(bitmap, i + k)
  }

  lemma RemainsNext(bitmap: nat, i: nat, rest: nat)
    requires Remains(bitmap, i, rest) && rest != 0
    ensures Remains(bitmap, i + 1, rest / 2) && Bit(bitmap, i) == (rest % 2 == 1)
  {
    assert Bit(rest, 0) == Bit(bitmap, i);
    forall k: nat
      ensures Bit(rest / 2, k) == Bit(bitmap, i + 1 + k)
    {
      assert Bit(rest / 2, k) == Bit(rest, k + 1) == Bit(bitmap, i + (k + 1));
    }
  }

  lemma RemainsNothing(bitmap: nat, i: nat, k: nat)
    requires Remains(bitmap, i, 0) && k >= i
    ensures !Bit(bitmap, k) && Width(bitmap) == i
  {
    ZeroHasNoBits(k - i);
    assert Bit(0, k - i) == Bit(bitmap, i + (k - i));
  }

  lemma RemainsAll(bitmap: nat)
    ensures Remains(bitmap, 0, bitmap)
  {
  }

  lemma {:induction false} TopBit(bitmap: nat)
    ensures Width(bitmap) == 0 <==> bitmap == 0
    ensures bitmap != 0 ==> Bit(bitmap, Width(bitmap) - 1)
  {
    if bitmap > 1 { TopBit(bitmap / 2); }
  }

  lemma StartsNext(bitmap: nat, i: nat)
    ensures |Starts(bitmap, i + 1)| == |Starts(bitmap, i)| + if StartsAt(bitmap, i) then 1 else 0
  {
    assert Starts(bitmap, i + 1) == Starts(bitmap, i) + if StartsAt(bitmap, i) then {i} else {};
  }

  /** Before the first run is over: nothing yet, or the run reaches up to bit i. */
  ghost predicate InLow(bitmap: nat, i: nat, prev: bool, low: Point, fingers: nat) {
    if prev then
      fingers == 1 && low.numBits > 0 && low.startBit + low.numBits == i
      && AllSet(bitmap, low.startBit, i) && NoneSet(bitmap, 0, low.startBit)
    else fingers == 0 && low == NOWHERE && NoneSet(bitmap, 0, i)
  }

  /** After it: `high` is the latest run, if there was another. */
  ghost predicate InHigh(bitmap: nat, i: nat, prev: bool, low: Point, high: Point, fingers: nat) {
    && IsFirst(bitmap, low) && low.startBit + low.numBits < i
    && if fingers == 1 then high == NOWHERE && !prev && NoneSet(bitmap, low.startBit + low.numBits, i)
       else
         && fingers > 1 && low.startBit + low.numBits < high.startBit && high.numBits > 0 && !Bit(bitmap, high.startBit - 1)
         && AllSet(bitmap, high.startBit, high.startBit + high.numBits)
         && (if prev then high.startBit + high.numBits == i
             else high.startBit + high.numBits < i && NoneSet(bitmap, high.startBit + high.numBits, i))
  }

  ghost predicate Scanned(bitmap: nat, i: nat, prev: bool, atHigh: bool, low: Point, high: Point, fingers: nat) {
    && prev == (i > 0 && Bit(bitmap, i - 1))
    && if atHigh then InHigh(bitmap, i, prev, low, high, fingers)
       else high == NOWHERE && InLow(bitmap, i, prev, low, fingers)
  }

  lemma LowBegins(bitmap: nat)
    ensures InLow(bitmap, 0, false, NOWHERE, 0)
  {
  }

  lemma LowScans(bitmap: nat, i: nat, prev: bool, low: Point, fingers: nat)
    requires InLow(bitmap, i, prev, low, fingers)
    ensures fingers == if prev then 1 else 0
    ensures Bit(bitmap, i) ==> if prev then InLow(bitmap, i + 1, true, Point(low.startBit, low.numBits + 1), 1)
                               else InLow(bitmap, i + 1, true, Point(i, 1), 1)
    ensures !Bit(bitmap, i) ==> if prev then (i > 0 && Bit(bitmap, i - 1) ==> InHigh(bitmap, i + 1, false, low, NOWHERE, 1))
                                else InLow(bitmap, i + 1, false, low, 0)
  {
    hide Bit;
  }

  lemma HighScans(bitmap: nat, i: nat, prev: bool, low: Point, high: Point, fingers: nat)
    requires InHigh(bitmap, i, prev, low, high, fingers) && prev == (i > 0 && Bit(bitmap, i - 1))
    ensures Bit(bitmap, i) ==> if prev then InHigh(bitmap, i + 1, true, low, Point(high.startBit, high.numBits + 1), fingers)
                               else InHigh(bitmap, i + 1, true, low, Point(i, 1), fingers + 1)
    ensures !Bit(bitmap, i) ==> InHigh(bitmap, i + 1, false, low, high, fingers)
  {
    hide Bit;
  }

  lemma ScanEnds(bitmap: nat, i: nat, prev: bool, atHigh: bool, low: Point, high: Point, fingers: nat)
    requires Remains(bitmap, i, 0) && Scanned(bitmap, i, prev, atHigh, low, high, fingers)
    ensures Width(bitmap) == i && (bitmap == 0 ==> low == NOWHERE && fingers == 0)
    ensures bitmap != 0 ==> IsFirst(bitmap, low) && fingers > 0
    ensures if fingers <= 1 then high == NOWHERE && (bitmap != 0 ==> IsLast(bitmap, low))
            else IsLast(bitmap, high) && low.startBit + low.numBits < high.startBit
  {
    hide Bit, Width, Remains;
    RemainsNothing(bitmap, i, i);
    TopBit(bitmap);
    forall k: nat | k >= i
      ensures !Bit(bitmap, k)
    {
      RemainsNothing(bitmap, i, k);
    }
  }

  /**
   * The first maximal run of set bits; the last one if there are two or more; and how many
   * there are.
   */
  method GetBitmapPoints(bitmap: nat) returns (low: Point, high: Point, fingers: nat)
    ensures fingers == Runs(bitmap)
    ensures bitmap == 0 ==> low == NOWHERE && fingers == 0
    ensures bitmap != 0 ==> IsFirst(bitmap, low) && fingers > 0
    ensures if fingers <= 1 then high == NOWHERE && (bitmap != 0 ==> IsLast(bitmap, low))
            else IsLast(bitmap, high) && low.startBit + low.numBits < high.startBit
  {
    hide Bit, Width, Remains, InLow, InHigh, IsFirst, IsLast;
    low, high, fingers := NOWHERE, NOWHERE, 0;
    RemainsAll(bitmap);
    LowBegins(bitmap);
    var rest, i, prev, atHigh := bitmap, 0, false, false;
    while rest != 0
      invariant Remains(bitmap, i, rest)
      invariant fingers == |Starts(bitmap, i)|
      invariant Scanned(bitmap, i, prev, atHigh, low, high, fingers)
      decreases rest
    {
      RemainsNext(bitmap, i, rest);
      StartsNext(bitmap, i);
      if atHigh { HighScans(bitmap, i, prev, low, high, fingers); } else { LowScans(bitmap, i, prev, low, fingers); }
      var bit := rest % 2 == 1;
      if bit {
        if !prev {
          if atHigh { high := Point(i, 0); } else { low := Point(i, 0); }
          fingers := fingers + 1;
        }
        if atHigh { high := Point(high.startBit, high.numBits + 1); } else { low := Point(low.startBit, low.numBits + 1); }
      } else {
        if prev { atHigh := true; }
      }
      prev := bit;
      i := i + 1;
      rest := rest / 2;
    }
    ScanEnds(bitmap, i, prev, atHigh, low, high, fingers);
  }

  // ---- Runs and the width of the map -------------------------------------------------

  function Pow2(n: nat): (r: nat)
    ensures r > 0
  {
    if n == 0 then 1 else 2 * Pow2(n - 1)
  }

  lemma {:induction false} WidthBound(bitmap: nat, n: nat)
    ensures bitmap < Pow2(n) <==> Width(bitmap) <= n
    decreases n
  {
    if n > 0 { WidthBound(bitmap / 2, n - 1); }
  }

  lemma {:induction false} BitBound(bitmap: nat, k: nat)
    requires Bit(bitmap, k)
    ensures k < Width(bitmap)
  {
    if k > 0 { BitBound(bitmap / 2, k - 1); }
    if bitmap == 0 { ZeroHasNoBits(k); }
  }

  /** There is only one first run and only one last one, the last one not before the first. */
  lemma EndsAreUnique(bitmap: nat, first: Point, last: Point, p: Point)
    requires IsFirst(bitmap, first) && IsLast(bitmap, last)
    ensures IsFirst(bitmap, p) ==> p == first
    ensures IsLast(bitmap, p) ==> p == last
    ensures last == first || first.startBit + first.numBits < last.startBit
  {
    hide Bit;
    assert Bit(bitmap, first.startBit) && Bit(bitmap, last.startBit) && Bit(bitmap, last.startBit + last.numBits - 1);
    if IsFirst(bitmap, p) {
      assert Bit(bitmap, p.startBit);
      assert first.startBit == p.startBit;
    }
    if IsLast(bitmap, p) {
      assert Bit(bitmap, p.startBit) && Bit(bitmap, p.startBit + p.numBits - 1);
      assert p.startBit + p.numBits == last.startBit + last.numBits;
    }
  }

  function Ones(bitmap: nat): nat {
    if bitmap % 2 == 1 then 1 + Ones(bitmap / 2) else 0
  }

  function First(bitmap: nat): (p: Point)
    requires bitmap != 0
    ensures p.numBits >= 1
  {
    if bitmap % 2 == 1 then Point(0, Ones(bitmap))
    else var p := First(bitmap / 2); Point(p.startBit + 1, p.numBits)
  }

  function Last(bitmap: nat): (p: Point)
    requires bitmap != 0
    ensures p.numBits >= 1
  {
    if bitmap == 1 then Point(0, 1)
    else
      var p := Last(bitmap / 2);
      if p.startBit == 0 && bitmap % 2 == 1 then Point(0, p.numBits + 1) else Point(p.startBit + 1, p.numBits)
  }

  lemma {:induction false} OnesAreSet(bitmap: nat)
    ensures AllSet(bitmap, 0, Ones(bitmap)) && !Bit(bitmap, Ones(bitmap))
  {
    if bitmap % 2 == 1 {
      OnesAreSet(bitmap / 2);
      forall k: nat | 0 < k < Ones(bitmap)
        ensures Bit(bitmap, k)
      {
        assert Bit(bitmap / 2, k - 1);
      }
    }
  }

  lemma {:induction false} FirstIsFirst(bitmap: nat)
    requires bitmap != 0
    ensures IsFirst(bitmap, First(bitmap))
  {
    if bitmap % 2 == 1 {
      OnesAreSet(bitmap);
    } else {
      FirstIsFirst(bitmap / 2);
      Doubled(bitmap, First(bitmap / 2));
    }
  }

  /** A run of the upper bits is a run of the whole map, unless it now reaches down to bit 0. */
  lemma Doubled(bitmap: nat, p: Point)
    requires IsRun(bitmap / 2, p) && (p.startBit > 0 || bitmap % 2 == 0)
    ensures var q := Point(p.startBit + 1, p.numBits);
      && IsRun(bitmap, q)
      && (bitmap % 2 == 0 && NoneSet(bitmap / 2, 0, p.startBit) ==> NoneSet(bitmap, 0, q.startBit))
      && (IsLast(bitmap / 2, p) ==> IsLast(bitmap, q))
  {
    var q := Point(p.startBit + 1, p.numBits);
    forall k: nat | k > 0
      ensures Bit(bitmap, k) == Bit(bitmap / 2, k - 1)
    {
    }
  }

  lemma {:induction false} LastIsLast(bitmap: nat)
    requires bitmap != 0
    ensures IsLast(bitmap, Last(bitmap))
  {
    forall k: nat | k > 0
      ensures Bit(bitmap, k) == Bit(bitmap / 2, k - 1)
    {
    }
    if bitmap == 1 {
      forall k: nat
        ensures !Bit(0, k)
      {
        ZeroHasNoBits(k);
      }
    } else {
      LastIsLast(bitmap / 2);
      var p := Last(bitmap / 2);
      if p.startBit == 0 && bitmap % 2 == 1 {
        assert AllSet(bitmap, 0, p.numBits + 1);
      } else {
        Doubled(bitmap, p);
      }
    }
  }

  // ---- Edges ---------------------------------------------------------------------------

  datatype Axis = Axis(max: nat, bits: nat)

  /** The centre of a run, scaled to the axis. */
  function Edge(a: Axis, p: Point): int
    requires a.bits >= 2 && p.numBits >= 1
  {
    (a.max * Centre(p)) / (2 * (a.bits - 1))
  }

  /** The centre of a run, in half bits. */
  function Centre(p: Point): nat
    requires p.numBits >= 1
  {
    2 * p.startBit + p.numBits - 1
  }

  /** Both ends of the box: the first and the last run, or two parts of the only one. */
  function Divide(first: Point, last: Point): (ends: (Point, Point))
    requires first.numBits >= 1 && last.numBits >= 1
    ensures ends.0.numBits >= 1 && ends.1.numBits >= 1
  {
    if first == last then
      var i := (first.numBits - 1) / 2;
      (Point(first.startBit, first.numBits - i), Point(first.startBit + i, if i < 1 then 1 else i))
    else (first, last)
  }

  lemma MulMonotone(a: nat, x: int, y: int)
    requires x <= y
    ensures a * x <= a * y
  {
    assert a * (y - x) >= 0;
  }

  lemma DivMonotone(a: nat, b: nat, d: nat)
    requires a <= b && d > 0
    ensures a / d <= b / d
  {
    if b / d < a / d {
      MulMonotone(d, b / d + 1, a / d);
    }
  }

  lemma DivStrict(a: nat, b: nat, d: nat)
    requires a + d <= b && d > 0
    ensures a / d < b / d
  {
    if b / d <= a / d {
      MulMonotone(d, b / d, a / d);
    }
  }

  lemma Scale(max: nat, n: nat, d: nat)
    requires n <= d && d > 0
    ensures 0 <= max * n / d <= max
  {
    MulMonotone(max, n, d);
    DivMonotone(max * n, max * d, d);
    assert max * d / d == max;
  }

  lemma CentresOfEnds(bits: nat, bitmap: nat, first: Point, last: Point)
    requires bits >= 2 && bitmap < Pow2(bits) && IsFirst(bitmap, first) && IsLast(bitmap, last)
    ensures var (low, high) := Divide(first, last);
      && low.numBits >= 1 && high.numBits >= 1
      && Centre(low) <= 2 * (bits - 1) && Centre(high) <= 2 * (bits - 1)
      && if first == last && first.numBits == 2 then Centre(low) == Centre(high) + 1 else Centre(low) <= Centre(high)
  {
    WidthBound(bitmap, bits);
    EndsAreUnique(bitmap, first, last, first);
    assert Bit(bitmap, last.startBit + last.numBits - 1);
    BitBound(bitmap, last.startBit + last.numBits - 1);
  }

  lemma EdgeOnAxis(a: Axis, p: Point)
    requires a.bits >= 2 && p.numBits >= 1 && Centre(p) <= 2 * (a.bits - 1)
    ensures 0 <= Edge(a, p) <= a.max
  {
    Scale(a.max, Centre(p), 2 * (a.bits - 1));
  }

  lemma EdgesInOrder(a: Axis, p: Point, q: Point)
    requires a.bits >= 2 && p.numBits >= 1 && q.numBits >= 1 && Centre(p) <= Centre(q)
    ensures Edge(a, p) <= Edge(a, q)
    ensures a.max >= 2 * (a.bits - 1) && Centre(p) + 1 == Centre(q) ==> Edge(a, p) < Edge(a, q)
  {
    hide Centre;
    var d := 2 * (a.bits - 1);
    MulMonotone(a.max, Centre(p), Centre(q));
    DivMonotone(a.max * Centre(p), a.max * Centre(q), d);
    if a.max >= d && Centre(p) + 1 == Centre(q) {
      assert a.max * Centre(q) == a.max * Centre(p) + a.max;
      DivStrict(a.max * Centre(p), a.max * Centre(q), d);
    }
  }

  /**
   * On an axis the map fits, both edges lie on it, and the low one is not above the high
   * one, except for a single run of exactly two bits: that one comes out reversed wherever
   * the axis is fine enough to show it.
   */
  lemma EdgesOnAxis(a: Axis, bitmap: nat, first: Point, last: Point)
    requires a.bits >= 2 && bitmap < Pow2(a.bits) && IsFirst(bitmap, first) && IsLast(bitmap, last)
    ensures var (low, high) := Divide(first, last);
      && low.numBits >= 1 && high.numBits >= 1
      && 0 <= Edge(a, low) <= a.max && 0 <= Edge(a, high) <= a.max
      && (!(first == last && first.numBits == 2) ==> Edge(a, low) <= Edge(a, high))
      && (a.max >= 2 * (a.bits - 1) ==> (Edge(a, low) > Edge(a, high) <==> first == last && first.numBits == 2))
  {
    CentresOfEnds(a.bits, bitmap, first, last);
    var (low, high) := Divide(first, last);
    hide Edge, Centre, IsFirst, IsLast, Pow2, Divide;
    EdgeOnAxis(a, low);
    EdgeOnAxis(a, high);
    if first == last && first.numBits == 2 {
      EdgesInOrder(a, high, low);
    } else {
      EdgesInOrder(a, low, high);
    }
  }

  // ---- The box and the second touch ------------------------------------------------------

  datatype Pos = Pos(x: int, y: int)

  datatype Pad = Pad(version: nat, x: Axis, y: Axis) {
    predicate Usable() {
      x.bits >= 2 && y.bits >= 2
    }

    /** The order of bits and coordinates is opposite on some touchpads. */
    function FlipX(e: int): int {
      if version == AlpsBytes.V5 then x.max - e else e
    }

    function FlipY(e: int): int {
      if version == AlpsBytes.V3 || version == AlpsBytes.V4 then y.max - e else e
    }
  }

  /** Clockwise from the low end of both axes, so that opposite corners are two apart. */
  function Corners(pad: Pad, xMap: nat, yMap: nat): (corners: seq<Pos>)
    requires pad.Usable() && xMap != 0 && yMap != 0
    ensures |corners| == 4
  {
    var xs, ys := Divide(First(xMap), Last(xMap)), Divide(First(yMap), Last(yMap));
    var xl, xh := pad.FlipX(Edge(pad.x, xs.0)), pad.FlipX(Edge(pad.x, xs.1));
    var yl, yh := pad.FlipY(Edge(pad.y, ys.0)), pad.FlipY(Edge(pad.y, ys.1));
    [Pos(xl, yl), Pos(xh, yl), Pos(xh, yh), Pos(xl, yh)]
  }

  predicate OnPad(pad: Pad, p: Pos) {
    0 <= p.x <= pad.x.max && 0 <= p.y <= pad.y.max
  }

  /** Every corner lies on the pad, reversed axes included. */
  lemma BoxIsOnPad(pad: Pad, xMap: nat, yMap: nat)
    requires pad.Usable() && 0 < xMap < Pow2(pad.x.bits) && 0 < yMap < Pow2(pad.y.bits)
    ensures forall i :: 0 <= i < 4 ==> OnPad(pad, Corners(pad, xMap, yMap)[i])
  {
    hide Edge, Divide, IsFirst, IsLast, Pow2, First, Last;
    FirstIsFirst(xMap);
    LastIsLast(xMap);
    EdgesOnAxis(pad.x, xMap, First(xMap), Last(xMap));
    FirstIsFirst(yMap);
    LastIsLast(yMap);
    EdgesOnAxis(pad.y, yMap, First(yMap), Last(yMap));
  }

  // Which way the axes run.

  /** One bit higher on the map is one bit higher for both runs. */
  lemma UpOneBit(bitmap: nat)
    requires bitmap != 0
    ensures First(2 * bitmap) == Point(First(bitmap).startBit + 1, First(bitmap).numBits)
    ensures Last(2 * bitmap) == Point(Last(bitmap).startBit + 1, Last(bitmap).numBits)
  {
    assert 2 * bitmap / 2 == bitmap && 2 * bitmap % 2 == 0;
  }

  lemma EdgesMoveUp(a: Axis, bitmap: nat)
    requires a.bits >= 2 && bitmap != 0
    ensures var ends, next := Divide(First(bitmap), Last(bitmap)), Divide(First(2 * bitmap), Last(2 * bitmap));
      Edge(a, ends.0) <= Edge(a, next.0) && Edge(a, ends.1) <= Edge(a, next.1)
  {
    hide First, Last, Edge;
    UpOneBit(bitmap);
    var ends, next := Divide(First(bitmap), Last(bitmap)), Divide(First(2 * bitmap), Last(2 * bitmap));
    EdgesInOrder(a, ends.0, next.0);
    EdgesInOrder(a, ends.1, next.1);
  }

  /**
   * Moving all fingers up by one bit of the x map never takes a corner to the left, and on
   * V5 never to the right; likewise up and down for y, where V3 and V4 are the reversed ones.
   */
  lemma AxesRun(pad: Pad, xMap: nat, yMap: nat, i: nat)
    requires pad.Usable() && xMap != 0 && yMap != 0 && i < 4
    ensures var a, b := Corners(pad, xMap, yMap)[i], Corners(pad, 2 * xMap, yMap)[i];
      a.y == b.y && if pad.version == 0x500 then b.x <= a.x else a.x <= b.x
    ensures var a, b := Corners(pad, xMap, yMap)[i], Corners(pad, xMap, 2 * yMap)[i];
      a.x == b.x && if pad.version == 0x300 || pad.version == 0x400 then b.y <= a.y else a.y <= b.y
  {
    hide First, Last, Edge, Divide;
    EdgesMoveUp(pad.x, xMap);
    EdgesMoveUp(pad.y, yMap);
  }

  lemma {:induction false} SingleBitRuns(k: nat)
    ensures First(Pow2(k)) == Point(k, 1) && Last(Pow2(k)) == Point(k, 1)
  {
    if k > 0 {
      SingleBitRuns(k - 1);
      UpOneBit(Pow2(k - 1));
    } else {
      assert Pow2(0) == 1 && Ones(1) == 1;
    }
  }

  lemma DivHalves(a: nat, d: nat)
    requires d > 0
    ensures (2 * a) / (2 * d) == a / d
  {
    var q := a / d;
    assert 2 * d * q <= 2 * a < 2 * d * q + 2 * d by {
      assert d * q <= a < d * q + d;
    }
    DivIs(2 * a, 2 * d, q);
  }

  lemma DivIs(a: nat, d: nat, q: nat)
    requires d > 0 && d * q <= a < d * q + d
    ensures a / d == q
  {
    if a / d < q { MulMonotone(d, a / d + 1, q); }
    if a / d > q { MulMonotone(d, q + 1, a / d); }
  }

  /** Where bit k of n lies on an axis. */
  function Place(max: nat, k: nat, n: nat): nat
    requires n >= 2
  {
    max * k / (n - 1)
  }

  lemma DoubledProduct(a: nat, k: nat)
    ensures a * (2 * k) == 2 * (a * k)
  {
  }

  lemma EdgeOfBit(a: Axis, k: nat)
    requires a.bits >= 2
    ensures Edge(a, Point(k, 1)) == Place(a.max, k, a.bits)
  {
    assert Centre(Point(k, 1)) == 2 * k;
    hide Centre;
    DoubledProduct(a.max, k);
    DivHalves(a.max * k, a.bits - 1);
  }

  lemma SingleBitEdge(a: Axis, k: nat)
    requires a.bits >= 2
    ensures Divide(First(Pow2(k)), Last(Pow2(k))) == (Point(k, 1), Point(k, 1))
    ensures Edge(a, Point(k, 1)) == Place(a.max, k, a.bits)
  {
    hide Edge, First, Last, Pow2, Place;
    SingleBitRuns(k);
    EdgeOfBit(a, k);
  }

  /**
   * One finger on bits j and k: the box shrinks to the point in proportion j : bits - 1 and
   * k : bits - 1, counted from the far end where the axis is reversed.
   */
  lemma OneFingerBox(pad: Pad, j: nat, k: nat, i: nat)
    requires pad.Usable() && i < 4
    ensures var x, y := Place(pad.x.max, j, pad.x.bits), Place(pad.y.max, k, pad.y.bits);
      Corners(pad, Pow2(j), Pow2(k))[i] ==
        Pos(if pad.version == 0x500 then pad.x.max - x else x,
            if pad.version == 0x300 || pad.version == 0x400 then pad.y.max - y else y)
  {
    hide First, Last, Edge, Divide, Place;
    SingleBitEdge(pad.x, j);
    SingleBitEdge(pad.y, k);
  }

  lemma PlaceOfEnds(max: nat, n: nat)
    requires n >= 2
    ensures Place(max, 0, n) == 0 && Place(max, n - 1, n) == max
  {
    DivIs(max * (n - 1), n - 1, max);
  }

  lemma EndsOfAxis(a: Axis, bitmap: nat)
    requires a.bits >= 2 && bitmap != 0
    ensures var (low, high) := Divide(First(bitmap), Last(bitmap));
      && (bitmap == 1 ==> Edge(a, low) == Edge(a, high) == 0)
      && (bitmap == Pow2(a.bits - 1) ==> Edge(a, low) == Edge(a, high) == a.max)
  {
    assert Pow2(0) == 1;
    hide First, Last, Edge, Divide, Place, Pow2;
    PlaceOfEnds(a.max, a.bits);
    if bitmap == 1 { SingleBitEdge(a, 0); }
    if bitmap == Pow2(a.bits - 1) { SingleBitEdge(a, a.bits - 1); }
  }

  /** The first bit of a map is the near end of its axis and the last bit the far end; the other way round on a reversed axis. */
  lemma EndsOfAxes(pad: Pad, xMap: nat, yMap: nat, i: nat)
    requires pad.Usable() && xMap != 0 && yMap != 0 && i < 4
    ensures xMap == 1 ==> Corners(pad, xMap, yMap)[i].x == if pad.version == 0x500 then pad.x.max else 0
    ensures xMap == Pow2(pad.x.bits - 1) ==> Corners(pad, xMap, yMap)[i].x == if pad.version == 0x500 then 0 else pad.x.max
    ensures yMap == 1 ==> Corners(pad, xMap, yMap)[i].y == if pad.version in {0x300, 0x400} then pad.y.max else 0
    ensures yMap == Pow2(pad.y.bits - 1) ==> Corners(pad, xMap, yMap)[i].y == if pad.version in {0x300, 0x400} then 0 else pad.y.max
  {
    hide First, Last, Edge, Divide, Pow2;
    EndsOfAxis(pad.x, xMap);
    EndsOfAxis(pad.y, yMap);
  }

  /** The two parts of a single run of n bits from s: where they lie, and twice their centres. */
  lemma PartsOfOneRun(s: nat, n: nat)
    requires n >= 1
    ensures var i := (n - 1) / 2; var (low, high) := Divide(Point(s, n), Point(s, n));
      && Centre(low) == 2 * s + (if n % 2 == 1 then i else i + 1)
      && Centre(high) == 2 * s + (if n <= 2 then 0 else 3 * i - 1)
      && s <= high.startBit && high.startBit + high.numBits <= s + n && low.startBit == s && low.numBits <= n
  {
  }

  /** Twice the centres of the first and the last run, or of two parts of the only one. */
  predicate TwiceCentres(first: Point, last: Point, low: nat, high: nat) {
    if first != last then
      low == 2 * first.startBit + first.numBits - 1 && high == 2 * last.startBit + last.numBits - 1
    else
      var i := (first.numBits - 1) / 2;
      && low == 2 * first.startBit + (if first.numBits % 2 == 1 then i else i + 1)
      && high == 2 * first.startBit + (if first.numBits <= 2 then 0 else 3 * i - 1)
  }

  /** Twice the low and the high centre of the bits of a map. */
  ghost predicate Centred(bitmap: nat, low: nat, high: nat) {
    exists first, last :: IsFirst(bitmap, first) && IsLast(bitmap, last) && TwiceCentres(first, last, low, high)
  }

  lemma PartsCentred(first: Point, last: Point, low: nat, high: nat)
    requires first.numBits >= 1 && last.numBits >= 1 && TwiceCentres(first, last, low, high)
    ensures var ends := Divide(first, last); Centre(ends.0) == low && Centre(ends.1) == high
  {
    if first == last { PartsOfOneRun(first.startBit, first.numBits); }
  }

  lemma CentredEnds(a: Axis, bitmap: nat, low: nat, high: nat)
    requires a.bits >= 2 && bitmap != 0 && Centred(bitmap, low, high)
    ensures var ends := Divide(First(bitmap), Last(bitmap));
      && Edge(a, ends.0) == a.max * low / (2 * (a.bits - 1)) && Edge(a, ends.1) == a.max * high / (2 * (a.bits - 1))
  {
    FirstIsFirst(bitmap);
    LastIsLast(bitmap);
    hide First, Last, Divide, IsFirst, IsLast, Centre, TwiceCentres;
    var first, last :| IsFirst(bitmap, first) && IsLast(bitmap, last) && TwiceCentres(first, last, low, high);
    EndsAreUnique(bitmap, First(bitmap), Last(bitmap), first);
    EndsAreUnique(bitmap, First(bitmap), Last(bitmap), last);
    PartsCentred(first, last, low, high);
  }

  /** A doubled bit number as a coordinate. */
  function Scaled(max: nat, twice: nat, bits: nat, reversed: bool): int
    requires bits >= 2
  {
    var e := max * twice / (2 * (bits - 1));
    if reversed then max - e else e
  }

  /** The corners, clockwise, from the centres of the bits alone: x is reversed on V5, y on V3 and V4. */
  lemma BoxAroundCentres(pad: Pad, xMap: nat, yMap: nat, left: nat, right: nat, top: nat, bottom: nat)
    requires pad.Usable() && xMap != 0 && yMap != 0
    requires Centred(xMap, left, right) && Centred(yMap, top, bottom)
    ensures var x := (c: nat) => Scaled(pad.x.max, c, pad.x.bits, pad.version == 0x500);
      var y := (c: nat) => Scaled(pad.y.max, c, pad.y.bits, pad.version == 0x300 || pad.version == 0x400);
      Corners(pad, xMap, yMap) == [Pos(x(left), y(top)), Pos(x(right), y(top)), Pos(x(right), y(bottom)), Pos(x(left), y(bottom))]
  {
    hide First, Last, Divide, Edge, Centred;
    CentredEnds(pad.x, xMap, left, right);
    CentredEnds(pad.y, yMap, top, bottom);
  }

  const FAR := 0x7fffffff

  function Distance(p: Pos, q: Pos): int {
    (p.x - q.x) * (p.x - q.x) + (p.y - q.y) * (p.y - q.y)
  }

  /** Of the first n corners, the first of those nearest to p; -1 if all are too far away to count. */
  function Nearest(p: Pos, corners: seq<Pos>, n: nat): (j: int)
    requires n <= |corners|
    ensures -1 <= j < n
  {
    if n == 0 then -1
    else
      var j := Nearest(p, corners, n - 1);
      if Distance(p, corners[n - 1]) < (if j == -1 then FAR else Distance(p, corners[j])) then n - 1 else j
  }

  lemma {:induction false} NearestIsNearest(p: Pos, corners: seq<Pos>, n: nat)
    requires n <= |corners|
    ensures var j := Nearest(p, corners, n);
      if j == -1 then forall k :: 0 <= k < n ==> Distance(p, corners[k]) >= FAR
      else && Distance(p, corners[j]) < FAR
           && (forall k :: 0 <= k < n ==> Distance(p, corners[j]) <= Distance(p, corners[k]))
           && (forall k :: 0 <= k < j ==> Distance(p, corners[j]) < Distance(p, corners[k]))
  {
    hide Distance;
    if n > 0 { NearestIsNearest(p, corners, n - 1); }
  }

  lemma SquareBound(d: int, n: nat)
    requires d <= n && 0 <= d + n
    ensures 0 <= d * d <= n * n
  {
    if d >= 0 { MulMonotone(d, d, n); MulMonotone(n, d, n); } else { MulMonotone(-d, -d, n); MulMonotone(n, -d, n); }
  }

  /** Coordinates of fifteen bits are never too far apart to count. */
  lemma NearEnough(p: Pos, q: Pos)
    requires 0 <= p.x < 0x8000 && 0 <= p.y < 0x8000 && 0 <= q.x < 0x8000 && 0 <= q.y < 0x8000
    ensures 0 <= Distance(p, q) < FAR
  {
    SquareBound(p.x - q.x, 0x7fff);
    SquareBound(p.y - q.y, 0x7fff);
  }

  /** The corner for the second touch: chosen once per touch, opposite the one nearest the first. */
  function Second(pad: Pad, xMap: nat, yMap: nat, st: Pos, second: int): (s: int)
    requires pad.Usable() && xMap != 0 && yMap != 0 && -1 <= second < 4
    ensures 0 <= s < 4
  {
    if second != -1 then second else (Nearest(st, Corners(pad, xMap, yMap), 4) + 2) % 4
  }

  /** On a pad of fifteen bits the second touch is on the pad, at the corner diagonally opposite the one nearest the first touch. */
  lemma SecondIsOpposite(pad: Pad, xMap: nat, yMap: nat, st: Pos)
    requires pad.Usable() && 0 < xMap < Pow2(pad.x.bits) && 0 < yMap < Pow2(pad.y.bits)
    requires pad.x.max < 0x8000 && pad.y.max < 0x8000 && 0 <= st.x < 0x8000 && 0 <= st.y < 0x8000
    ensures var c, s := Corners(pad, xMap, yMap), Second(pad, xMap, yMap, st, -1);
      && 0 <= s < 4 && OnPad(pad, c[s])
      && var j := (s + 2) % 4;
         forall k :: 0 <= k < 4 ==> Distance(st, c[j]) <= Distance(st, c[k])
    ensures var c, s := Corners(pad, xMap, yMap), Second(pad, xMap, yMap, st, -1);
      var j := (s + 2) % 4; c[s].x + c[j].x == c[0].x + c[1].x && c[s].y + c[j].y == c[0].y + c[2].y
  {
    hide Edge, Divide, First, Last, Pow2, Distance, Nearest;
    var c := Corners(pad, xMap, yMap);
    BoxIsOnPad(pad, xMap, yMap);
    NearestIsNearest(st, c, 4);
    NearEnough(st, c[0]);
  }
}