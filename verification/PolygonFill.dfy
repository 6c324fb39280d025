/** The raster fill of the vision challenge: rectangles, and polygons by the even-odd rule on scan lines. */
module PolygonFill {
  import opened Common

  const WIDTH: nat := 512
  const HEIGHT: nat := 384
  const CANVAS_BYTES: nat := 589_824

  datatype Point = Point(x: int, y: int)

  datatype Color = Color(red: Byte, green: Byte, blue: Byte)

  // Byte i of the canvas belongs to channel i % 3 of the pixel at these coordinates.
  function PixelX(i: nat): nat { i / 3 % WIDTH }

  function PixelY(i: nat): nat { i / 3 / WIDTH }

  function Channel(color: Color, i: nat): Byte {
    if i % 3 == 0 then color.red else if i % 3 == 1 then color.green else color.blue
  }

  // ---- crossings ------------------------------------------------------------------

  /** The half-open test: exactly one end of the edge is at or above the scan line. */
  predicate Selected(p: Point, q: Point, y: int) { p.y <= y < q.y || q.y <= y < p.y }

  function CrossingAt(p: Point, q: Point, y: int): int
    requires Selected(p, q, y)
  {
    p.x + FloorDiv((y - p.y) * (q.x - p.x), q.y - p.y)
  }

  function NextPoint(points: seq<Point>, i: nat): Point
    requires i < |points|
  {
    points[(i + 1) % |points|]
  }

  /** The crossings of the first n edges with a scan line, in edge order. */
  function CrossingsOf(points: seq<Point>, n: nat, y: int): seq<int>
    requires n <= |points|
  {
    if n == 0 then []
    else
      var p, q := points[n - 1], NextPoint(points, n - 1);
      CrossingsOf(points, n - 1, y) + if Selected(p, q, y) then [CrossingAt(p, q, y)] else []
  }

  function Crossings(points: seq<Point>, y: int): seq<int> { CrossingsOf(points, |points|, y) }

  lemma ProductBetween(a: int, d: int, dx: int)
    requires 0 <= a <= d
    ensures 0 <= dx ==> 0 <= a * dx <= d * dx
    ensures dx <= 0 ==> d * dx <= a * dx <= 0
  {
  }

  lemma QuotientBetween(n: int, d: int, dx: int)
    requires d > 0
    ensures 0 <= n <= d * dx ==> 0 <= FloorDiv(n, d) <= dx
    ensures d * dx <= n <= 0 ==> dx <= FloorDiv(n, d) <= 0
  {
    var q := FloorDiv(n, d);
    if 0 <= n <= d * dx {
      if q < 0 { ProductBelow(d, q, -1); }
      if q > dx { ProductBelow(d, dx + 1, q); }
    }
    if d * dx <= n <= 0 {
      if q > 0 { ProductBelow(d, 1, q); }
      if q < dx { ProductBelow(d, q, dx - 1); }
    }
  }

  lemma ProductBelow(d: int, a: int, b: int)
    requires d > 0 && a <= b
    ensures d * a <= d * b
  {
  }

  lemma FloorDivSigns(n: int, d: int)
    requires d != 0
    ensures FloorDiv(n, d) == FloorDiv(-n, -d)
  {
  }

  lemma OffsetIsBetween(a: int, d: int, dx: int)
    requires 0 <= a < d || d <= a < 0
    ensures Min(0, dx) <= FloorDiv(a * dx, d) <= Max(0, dx)
  {
    if d > 0 {
      ProductBetween(a, d, dx);
      QuotientBetween(a * dx, d, dx);
    } else {
      ProductBetween(-a, -d, dx);
      assert (-a) * dx == -(a * dx);
      FloorDivSigns(a * dx, d);
      QuotientBetween((-a) * dx, -d, dx);
    }
  }

  /** A crossing lies between the two ends of its edge, whatever the edge's direction. */
  lemma CrossingIsBetween(p: Point, q: Point, y: int)
    requires Selected(p, q, y)
    ensures q.y - p.y != 0
    ensures Min(p.x, q.x) <= CrossingAt(p, q, y) <= Max(p.x, q.x)
  {
    hide FloorDiv;
    OffsetIsBetween(y - p.y, q.y - p.y, q.x - p.x);
  }

  /** No crossing lies left of every point. */
  lemma {:induction false} CrossingsFrom(points: seq<Point>, n: nat, y: int, least: int)
    requires n <= |points| && forall i :: 0 <= i < |points| ==> least <= points[i].x
    ensures forall i :: 0 <= i < |CrossingsOf(points, n, y)| ==> least <= CrossingsOf(points, n, y)[i]
    decreases n
  {
    if n > 0 {
      CrossingsFrom(points, n - 1, y, least);
      var p, q := points[n - 1], NextPoint(points, n - 1);
      if Selected(p, q, y) { CrossingIsBetween(p, q, y); }
    }
  }

  lemma NextIsSuccessor(points: seq<Point>, i: nat)
    requires i < |points|
    ensures NextPoint(points, i) == if i + 1 < |points| then points[i + 1] else points[0]
  {
  }

  /** An edge is selected exactly when its ends lie on different sides of the line. */
  lemma SelectedMeansSides(p: Point, q: Point, y: int)
    ensures Selected(p, q, y) <==> ((p.y <= y) != (q.y <= y))
  {
  }

  lemma CrossingsGrow(points: seq<Point>, n: nat, y: int)
    requires 0 < n <= |points|
    ensures |CrossingsOf(points, n, y)| == |CrossingsOf(points, n - 1, y)|
              + if Selected(points[n - 1], NextPoint(points, n - 1), y) then 1 else 0
  {
    hide CrossingAt, NextPoint, Selected;
  }

  lemma ParityFlips(more: nat, n: nat, flips: bool)
    requires more == n + if flips then 1 else 0
    ensures more % 2 == 1 <==> ((n % 2 == 1) != flips)
  {
  }

  /** Along a path, the number of crossings is odd exactly when its ends lie on different sides. */
  lemma {:induction false} PathParity(points: seq<Point>, n: nat, y: int)
    requires n < |points|
    ensures |CrossingsOf(points, n, y)| % 2 == 1 <==> ((points[0].y <= y) != (points[n].y <= y))
    decreases n
  {
    if n > 0 {
      CrossingsGrow(points, n, y);
      NextIsSuccessor(points, n - 1);
      SelectedMeansSides(points[n - 1], points[n], y);
      ParityFlips(|CrossingsOf(points, n, y)|, |CrossingsOf(points, n - 1, y)|, Selected(points[n - 1], points[n], y));
      hide CrossingsOf, NextPoint, Selected;
      PathParity(points, n - 1, y);
    }
  }

  /** Every closed polygon crosses every scan line an even number of times. */
  lemma CrossingsAreEven(points: seq<Point>, y: int)
    ensures |Crossings(points, y)| % 2 == 0
  {
    if points != [] {
      var n := |points|;
      CrossingsGrow(points, n, y);
      NextIsSuccessor(points, n - 1);
      SelectedMeansSides(points[n - 1], points[0], y);
      PathParity(points, n - 1, y);
      hide CrossingsOf, NextPoint, Selected;
    }
  }

  // ---- the even-odd rule -----------------------------------------------------------------

  function CountLess(s: seq<int>, x: int): nat {
    if s == [] then 0 else CountLess(s[..|s| - 1], x) + if s[|s| - 1] < x then 1 else 0
  }

  /** Between an odd number of crossings and the rest, or on a crossing. */
  predicate EvenOdd(s: seq<int>, x: int) { CountLess(s, x) % 2 == 1 || x in s }

  predicate Sorted(s: seq<int>) { forall i, j :: 0 <= i < j < |s| ==> s[i] <= s[j] }

  /** Between the ends of one of the first n pairs of neighbours. */
  predicate InPairs(s: seq<int>, n: nat, x: int)
    requires 2 * n <= |s|
  {
    n > 0 && (InPairs(s, n - 1, x) || s[2 * n - 2] <= x <= s[2 * n - 1])
  }

  lemma {:induction false} AllLess(s: seq<int>, x: int)
    requires forall i :: 0 <= i < |s| ==> s[i] < x
    ensures CountLess(s, x) == |s|
    decreases |s|
  {
    if s != [] { AllLess(s[..|s| - 1], x); }
  }

  lemma TwoMore(before: seq<int>, a: int, b: int, x: int)
    requires a <= b && |before| % 2 == 0 && forall i :: 0 <= i < |before| ==> before[i] <= a
    ensures EvenOdd(before + [a, b], x) <==> EvenOdd(before, x) || a <= x <= b
  {
    var now := before + [a, b];
    assert now[..|now| - 1] == before + [a] && (before + [a])[..|before|] == before;
    assert CountLess(now, x) == CountLess(before, x) + (if a < x then 1 else 0) + (if b < x then 1 else 0);
    if x > a {
      AllLess(before, x);
    }
  }

  lemma {:induction false} PairsAreEvenOdd(s: seq<int>, n: nat, x: int)
    requires Sorted(s) && 2 * n <= |s|
    ensures InPairs(s, n, x) <==> EvenOdd(s[..2 * n], x)
    decreases n
  {
    if n > 0 {
      var a, b := s[2 * n - 2], s[2 * n - 1];
      assert s[..2 * n] == s[..2 * n - 2] + [a, b];
      TwoMore(s[..2 * n - 2], a, b, x);
      PairsAreEvenOdd(s, n - 1, x);
    }
  }

  lemma {:induction false} CountIsAdditive(s: seq<int>, t: seq<int>, x: int)
    ensures CountLess(s + t, x) == CountLess(s, x) + CountLess(t, x)
    decreases |t|
  {
    if t == [] {
      assert s + t == s;
    } else {
      assert (s + t)[..|s + t| - 1] == s + t[..|t| - 1];
      CountIsAdditive(s, t[..|t| - 1], x);
    }
  }

  function Insert(s: seq<int>, v: int): seq<int> {
    if s == [] || s[|s| - 1] <= v then s + [v] else Insert(s[..|s| - 1], v) + [s[|s| - 1]]
  }

  /** The list's ascending rearrangement. */
  function SortedCopy(s: seq<int>): seq<int> {
    if s == [] then [] else Insert(SortedCopy(s[..|s| - 1]), s[|s| - 1])
  }

  lemma {:induction false} InsertSorts(s: seq<int>, v: int)
    requires Sorted(s)
    ensures Sorted(Insert(s, v)) && |Insert(s, v)| == |s| + 1
    ensures forall x :: x in Insert(s, v) <==> x in s || x == v
    decreases |s|
  {
    if s != [] && s[|s| - 1] > v {
      var n := |s| - 1;
      InsertSorts(s[..n], v);
      assert s == s[..n] + [s[n]];
      var r := Insert(s[..n], v);
      assert forall i :: 0 <= i < |r| ==> r[i] in r;
    }
  }

  lemma {:induction false} SortingSorts(s: seq<int>)
    ensures Sorted(SortedCopy(s)) && |SortedCopy(s)| == |s|
    ensures forall x :: x in SortedCopy(s) <==> x in s
    decreases |s|
  {
    if s != [] {
      var n := |s| - 1;
      SortingSorts(s[..n]);
      InsertSorts(SortedCopy(s[..n]), s[n]);
      assert s == s[..n] + [s[n]];
    }
  }

  lemma {:induction false} InsertCounts(s: seq<int>, v: int, x: int)
    ensures CountLess(Insert(s, v), x) == CountLess(s, x) + if v < x then 1 else 0
    decreases |s|
  {
    if s == [] || s[|s| - 1] <= v {
      CountIsAdditive(s, [v], x);
    } else {
      var n := |s| - 1;
      InsertCounts(s[..n], v, x);
      CountIsAdditive(Insert(s[..n], v), [s[n]], x);
    }
  }

  lemma {:induction false} SortingCounts(s: seq<int>, x: int)
    ensures CountLess(SortedCopy(s), x) == CountLess(s, x)
    decreases |s|
  {
    if s != [] {
      SortingCounts(s[..|s| - 1], x);
      InsertCounts(SortedCopy(s[..|s| - 1]), s[|s| - 1], x);
    }
  }

  /** Filling between the pairs of sorted crossings is the even-odd rule on the crossings in any order. */
  lemma SortedPairsAreEvenOdd(s: seq<int>, x: int)
    requires |s| % 2 == 0
    ensures |SortedCopy(s)| == |s|
    ensures InPairs(SortedCopy(s), |s| / 2, x) <==> EvenOdd(s, x)
  {
    var r := SortedCopy(s);
    SortingSorts(s);
    PairsAreEvenOdd(r, |s| / 2, x);
    assert r[..2 * (|s| / 2)] == r;
    SortingCounts(s, x);
  }

  // ---- regions of the canvas --------------------------------------------------------------

  predicate InRect(x0: int, y0: int, x1: int, y1: int, i: nat) { x0 <= PixelX(i) < x1 && y0 <= PixelY(i) < y1 }

  predicate OnRow(a: int, b: int, y: int, i: nat) { a <= PixelX(i) < b && PixelY(i) == y }

  /** The bytes of a row's pixels from a up to b are consecutive. */
  lemma RowSpan(y: nat, a: nat, b: nat, i: nat)
    requires a <= b <= WIDTH && y < HEIGHT && i < CANVAS_BYTES
    ensures (y * WIDTH + a) * 3 <= (y * WIDTH + b) * 3 <= CANVAS_BYTES
    ensures (y * WIDTH + a) * 3 <= i < (y * WIDTH + b) * 3 <==> OnRow(a, b, y, i)
  {
    var q := i / 3;
    assert 3 * q <= i < 3 * q + 3;
    assert q == PixelY(i) * WIDTH + PixelX(i);
  }

  // ---- slice assignment ------------------------------------------------------------------

  /** A slice bound of Python: a negative one counts from the end, and both ends are clipped. */
  function Clip(bound: int, length: nat): (n: nat)
    ensures n <= length
  {
    if bound < 0 then Max(0, length + bound) else Min(bound, length)
  }

  /** `s[start:end] = payload` on a bytearray. */
  function SliceAssign(s: seq<Byte>, start: int, end: int, payload: seq<Byte>): seq<Byte> {
    var low := Clip(start, |s|);
    s[..low] + payload + s[Max(low, Clip(end, |s|))..]
  }

  /** `bytes(color) * count`. */
  function Repeated(color: Color, count: int): seq<Byte> {
    seq(if count < 0 then 0 else 3 * count, i requires 0 <= i => Channel(color, i))
  }

  function RowAssigned(s: seq<Byte>, x0: int, x1: int, y: nat, color: Color): seq<Byte> {
    var start, end := (y * WIDTH + Max(0, x0)) * 3, (y * WIDTH + Min(WIDTH, x1)) * 3;
    SliceAssign(s, start, end, Repeated(color, FloorDiv(end - start, 3)))
  }

  /** The rows from y on, one slice assignment each. */
  function RowsAssigned(s: seq<Byte>, x0: int, x1: int, y: nat, bottom: int, color: Color): seq<Byte>
    decreases bottom - y
  {
    if y >= bottom then s else RowsAssigned(RowAssigned(s, x0, x1, y, color), x0, x1, y + 1, bottom, color)
  }

  /** The end of the row's slice is not counted from the end of the canvas, or comes before its start all the same. */
  predicate RowSafe(x0: int, x1: int, y: int) { y * WIDTH + x1 >= 0 || Max(0, x0) >= WIDTH * HEIGHT + x1 }

  predicate SafeRect(x0: int, y0: int, x1: int, y1: int) {
    forall y :: Max(0, y0) <= y < Min(HEIGHT, y1) ==> RowSafe(x0, x1, y)
  }

  lemma FloorDivOfTriple(n: int)
    ensures FloorDiv(3 * n, 3) == n
  {
  }

  lemma SafeRowIsFilled(s: seq<Byte>, x0: int, x1: int, y: nat, color: Color)
    requires |s| == CANVAS_BYTES && y < HEIGHT && RowSafe(x0, x1, y)
    ensures |RowAssigned(s, x0, x1, y, color)| == CANVAS_BYTES
    ensures forall i :: 0 <= i < CANVAS_BYTES ==>
              RowAssigned(s, x0, x1, y, color)[i] == if OnRow(x0, x1, y, i) then Channel(color, i) else s[i]
  {
    var a, b := Max(0, x0), Min(WIDTH, x1);
    var start, end := (y * WIDTH + a) * 3, (y * WIDTH + b) * 3;
    var r := RowAssigned(s, x0, x1, y, color);
    FloorDivOfTriple(b - a);
    if a < b {
      RowSpan(y, a, b, 0);
      assert r == s[..start] + Repeated(color, b - a) + s[end..];
      forall i | 0 <= i < CANVAS_BYTES ensures r[i] == if OnRow(x0, x1, y, i) then Channel(color, i) else s[i] {
        RowSpan(y, a, b, i);
      }
    } else {
      assert Repeated(color, b - a) == [];
      assert r == s;
    }
  }

  /** A row that is not safe loses bytes, and no row ever gains any. */
  lemma UnsafeRowShrinks(s: seq<Byte>, x0: int, x1: int, y: nat, color: Color)
    requires |s| <= CANVAS_BYTES && y < HEIGHT && x1 < 0
    ensures |RowAssigned(s, x0, x1, y, color)| <= |s|
    ensures |s| == CANVAS_BYTES && !RowSafe(x0, x1, y) ==> |RowAssigned(s, x0, x1, y, color)| < |s|
  {
    FloorDivOfTriple(x1 - Max(0, x0));
    assert Repeated(color, x1 - Max(0, x0)) == [];
  }

  lemma {:induction false} ShrunkStaysShort(s: seq<Byte>, x0: int, x1: int, y: nat, bottom: int, color: Color)
    requires |s| <= CANVAS_BYTES && x1 < 0 && bottom <= HEIGHT
    ensures |RowsAssigned(s, x0, x1, y, bottom, color)| <= |s|
    decreases bottom - y
  {
    hide RowAssigned, RowSafe;
    if y < bottom {
      UnsafeRowShrinks(s, x0, x1, y, color);
      ShrunkStaysShort(RowAssigned(s, x0, x1, y, color), x0, x1, y + 1, bottom, color);
    }
  }

  /** Safe rows are filled; one row that is not safe shortens the canvas for good. */
  lemma {:induction false} RowsAreFilled(s: seq<Byte>, x0: int, x1: int, y: nat, bottom: int, color: Color)
    requires |s| == CANVAS_BYTES && bottom <= HEIGHT
    ensures
      var r := RowsAssigned(s, x0, x1, y, bottom, color);
      && (|r| == CANVAS_BYTES <==> forall k :: y <= k < bottom ==> RowSafe(x0, x1, k))
      && (|r| == CANVAS_BYTES ==>
            forall i :: 0 <= i < CANVAS_BYTES ==>
              r[i] == if InRect(x0, y, x1, bottom, i) then Channel(color, i) else s[i])
    decreases bottom - y
  {
    hide RowAssigned, PixelX, PixelY, Channel;
    if y < bottom {
      var t := RowAssigned(s, x0, x1, y, color);
      if RowSafe(x0, x1, y) {
        SafeRowIsFilled(s, x0, x1, y, color);
        hide RowSafe;
        RowsAreFilled(t, x0, x1, y + 1, bottom, color);
      } else {
        UnsafeRowShrinks(s, x0, x1, y, color);
        ShrunkStaysShort(t, x0, x1, y + 1, bottom, color);
      }
    }
  }

  /** What becomes of a canvas of full length: it keeps its length if and only if the rectangle is safe, and then its
      clipped pixels have the colour and every other byte is as before. */
  ghost predicate RectFilled(s: seq<Byte>, r: seq<Byte>, x0: int, y0: int, x1: int, y1: int, color: Color) {
    |s| == CANVAS_BYTES ==>
      && (|r| == CANVAS_BYTES <==> SafeRect(x0, y0, x1, y1))
      && (|r| == CANVAS_BYTES ==>
            forall i :: 0 <= i < CANVAS_BYTES ==>
              r[i] == if InRect(x0, y0, x1, y1, i) then Channel(color, i) else s[i])
  }

  /** The slices of a rectangle do that. A negative right edge on the first rows is what is not safe: its slices
      delete bytes. */
  lemma SlicesFillSafely(s: seq<Byte>, x0: int, y0: int, x1: int, y1: int, color: Color)
    requires |s| == CANVAS_BYTES
    ensures RectFilled(s, RowsAssigned(s, x0, x1, Max(0, y0), Min(HEIGHT, y1), color), x0, y0, x1, y1, color)
  {
    RowsAreFilled(s, x0, x1, Max(0, y0), Min(HEIGHT, y1), color);
    forall i | 0 <= i < CANVAS_BYTES
      ensures InRect(x0, Max(0, y0), x1, Min(HEIGHT, y1), i) <==> InRect(x0, y0, x1, y1, i)
    {
      RowSpan(0, 0, 0, i);
    }
    hide RowsAssigned, PixelX, PixelY, Channel, RowSafe;
  }

  /** A rectangle that is not safe: on the first row, up to the column left of the canvas. All but three bytes go. */
  lemma LeftRectangleShrinks(s: seq<Byte>, color: Color)
    requires |s| == CANVAS_BYTES
    ensures !SafeRect(0, 0, -1, 1) && |RowsAssigned(s, 0, -1, 0, 1, color)| == 3
  {
    assert !RowSafe(0, -1, 0);
    FloorDivOfTriple(-1);
    assert Repeated(color, -1) == [];
    var t := RowAssigned(s, 0, -1, 0, color);
    assert |t| == 3;
    assert RowsAssigned(s, 0, -1, 0, 1, color) == RowsAssigned(t, 0, -1, 1, 1, color);
  }

  /** The length of a finished canvas does not tell whether bytes were lost: the last row can make up for the first. */
  lemma LengthCanComeBack(s: seq<Byte>, color: Color)
    requires |s| == CANVAS_BYTES
    ensures
      var t := RowAssigned(s, 0, 1 - WIDTH * HEIGHT, 0, color);
      |t| == CANVAS_BYTES - 3 && |RowAssigned(t, 0, WIDTH, HEIGHT - 1, color)| == CANVAS_BYTES
  {
    FloorDivOfTriple(1 - WIDTH * HEIGHT);
    FloorDivOfTriple(WIDTH);
    assert Repeated(color, 1 - WIDTH * HEIGHT) == [];
  }

  // ---- the slices of a polygon --------------------------------------------------------------

  /** The canvas after the first n pairs of crossings of a row. */
  function PairsAssigned(s: seq<Byte>, xs: seq<int>, n: nat, y: nat, color: Color): seq<Byte>
    requires 2 * n <= |xs|
  {
    if n == 0 then s
    else RowAssigned(PairsAssigned(s, xs, n - 1, y, color), xs[2 * n - 2], xs[2 * n - 1] + 1, y, color)
  }

  /** The crossings of a row in ascending order; they come in pairs. */
  function RowCrossings(points: seq<Point>, y: int): (xs: seq<int>)
    ensures Sorted(xs) && |xs| % 2 == 0
  {
    SortingSorts(Crossings(points, y));
    CrossingsAreEven(points, y);
    SortedCopy(Crossings(points, y))
  }

  function LineAssigned(s: seq<Byte>, points: seq<Point>, y: nat, color: Color): seq<Byte> {
    var xs := RowCrossings(points, y);
    PairsAssigned(s, xs, |xs| / 2, y, color)
  }

  /** The canvas after the first n rows. */
  function LinesAssigned(s: seq<Byte>, points: seq<Point>, n: nat, color: Color): seq<Byte> {
    if n == 0 then s else LineAssigned(LinesAssigned(s, points, n - 1, color), points, n - 1, color)
  }

  /** Every pair of crossings of a row makes a safe rectangle. */
  predicate SafePairs(xs: seq<int>, n: nat, y: int)
    requires 2 * n <= |xs|
  {
    forall k :: 0 <= k < n ==> RowSafe(xs[2 * k], xs[2 * k + 1] + 1, y)
  }

  predicate SafeLine(points: seq<Point>, y: int) {
    var xs := RowCrossings(points, y);
    SafePairs(xs, |xs| / 2, y)
  }

  predicate SafePolygon(points: seq<Point>) { forall y :: 0 <= y < HEIGHT ==> SafeLine(points, y) }

  /** No slice of a row changes the length of the canvas. */
  ghost predicate PairsKeepLength(s: seq<Byte>, xs: seq<int>, n: nat, y: nat, color: Color)
    requires 2 * n <= |xs|
  {
    forall m :: 0 <= m <= n ==> |PairsAssigned(s, xs, m, y, color)| == CANVAS_BYTES
  }

  ghost predicate LineKeepsLength(s: seq<Byte>, points: seq<Point>, y: nat, color: Color) {
    var xs := RowCrossings(points, y);
    PairsKeepLength(LinesAssigned(s, points, y, color), xs, |xs| / 2, y, color)
  }

  /** No slice of the whole fill does. */
  ghost predicate FillKeepsLength(s: seq<Byte>, points: seq<Point>, color: Color) {
    forall y :: 0 <= y < HEIGHT ==> LineKeepsLength(s, points, y, color)
  }

  lemma UnsafeIsLeft(x0: int, x1: int, y: nat)
    requires !RowSafe(x0, x1, y)
    ensures x1 < 0
  {
  }

  /** The slices of a row keep the length if and only if its pairs are safe; then they fill between the pairs. */
  lemma {:induction false} PairsAreFilled(s: seq<Byte>, xs: seq<int>, n: nat, y: nat, color: Color)
    requires |s| == CANVAS_BYTES && 2 * n <= |xs| && y < HEIGHT
    ensures PairsKeepLength(s, xs, n, y, color) <==> SafePairs(xs, n, y)
    ensures SafePairs(xs, n, y) ==>
              |PairsAssigned(s, xs, n, y, color)| == CANVAS_BYTES
              && forall i :: 0 <= i < CANVAS_BYTES ==>
                   PairsAssigned(s, xs, n, y, color)[i] ==
                     if PixelY(i) == y && InPairs(xs, n, PixelX(i)) then Channel(color, i) else s[i]
    decreases n
  {
    hide RowAssigned, RowSafe, PixelX, PixelY, Channel;
    if n > 0 {
      PairsAreFilled(s, xs, n - 1, y, color);
      var t, x0, x1 := PairsAssigned(s, xs, n - 1, y, color), xs[2 * n - 2], xs[2 * n - 1] + 1;
      LastPairDecides(s, xs, n, y, color);
      if |t| == CANVAS_BYTES {
        if RowSafe(x0, x1, y) {
          SafeRowIsFilled(t, x0, x1, y, color);
        } else {
          UnsafeIsLeft(x0, x1, y);
          UnsafeRowShrinks(t, x0, x1, y, color);
        }
      }
    }
  }

  lemma LastPairDecides(s: seq<Byte>, xs: seq<int>, n: nat, y: nat, color: Color)
    requires 0 < n && 2 * n <= |xs|
    ensures SafePairs(xs, n, y) <==> SafePairs(xs, n - 1, y) && RowSafe(xs[2 * n - 2], xs[2 * n - 1] + 1, y)
    ensures PairsKeepLength(s, xs, n, y, color) <==>
              PairsKeepLength(s, xs, n - 1, y, color) && |PairsAssigned(s, xs, n, y, color)| == CANVAS_BYTES
    ensures PairsKeepLength(s, xs, n - 1, y, color) ==> |PairsAssigned(s, xs, n - 1, y, color)| == CANVAS_BYTES
  {
    hide RowAssigned, RowSafe, PairsAssigned;
    assert 2 * (n - 1) == 2 * n - 2 && 2 * (n - 1) + 1 == 2 * n - 1;
  }

  /** What the fill colours: by the even-odd rule on the crossings of the pixel's scan line. */
  predicate Inside(points: seq<Point>, x: int, y: int) { EvenOdd(Crossings(points, y), x) }

  // ---- the shape itself ---------------------------------------------------------------------

  /** The line from p to q, which crosses the scan line, does so left of column x: exactly, without rounding. */
  predicate PassesLeft(p: Point, q: Point, y: int, x: int) {
    if q.y > p.y then (y - p.y) * (q.x - p.x) < (x - p.x) * (q.y - p.y)
    else (y - p.y) * (q.x - p.x) > (x - p.x) * (q.y - p.y)
  }

  /** The ends of the edge are not on the same side of the scan line. */
  predicate Straddles(p: Point, q: Point, y: int) { (p.y <= y) != (q.y <= y) }

  predicate EdgePassesLeft(points: seq<Point>, i: nat, y: int, x: int)
    requires i < |points|
  {
    var p, q := points[i], if i + 1 == |points| then points[0] else points[i + 1];
    Straddles(p, q, y) && PassesLeft(p, q, y, x)
  }

  /** How many of the first n edges cross the scan line left of column x. */
  function EdgesLeft(points: seq<Point>, n: nat, y: int, x: int): nat
    requires n <= |points|
  {
    if n == 0 then 0 else EdgesLeft(points, n - 1, y, x) + if EdgePassesLeft(points, n - 1, y, x) then 1 else 0
  }

  /** An edge crosses the scan line within the pixel. */
  ghost predicate Touched(points: seq<Point>, n: nat, x: int, y: int)
    requires n <= |points|
  {
    exists i :: 0 <= i < n && EdgePassesLeft(points, i, y, x + 1) && !EdgePassesLeft(points, i, y, x)
  }

  lemma QuotientIsLess(n: int, d: int, b: int)
    requires d != 0
    ensures FloorDiv(n, d) < b <==> if d > 0 then n < b * d else n > b * d
  {
    if d > 0 {
      QuotientIsLessUp(n, d, b);
    } else {
      FloorDivSigns(n, d);
      QuotientIsLessUp(-n, -d, b);
      assert b * -d == -(b * d);
    }
  }

  lemma QuotientIsLessUp(n: int, d: int, b: int)
    requires d > 0
    ensures FloorDiv(n, d) < b <==> n < b * d
  {
    var q := FloorDiv(n, d);
    assert d * q <= n < d * q + d;
    if q < b { ProductBelow(d, q + 1, b); }
    if q >= b { ProductBelow(d, b, q); }
  }

  /** The computed crossing is the exact one rounded down. */
  lemma CrossingIsExact(p: Point, q: Point, y: int, x: int)
    requires p.y <= y < q.y || q.y <= y < p.y
    ensures CrossingAt(p, q, y) < x <==> PassesLeft(p, q, y, x)
    ensures
      var c, n, d := CrossingAt(p, q, y) - p.x, (y - p.y) * (q.x - p.x), q.y - p.y;
      if d > 0 then c * d <= n < (c + 1) * d else c * d >= n > (c + 1) * d
  {
    var n, d := (y - p.y) * (q.x - p.x), q.y - p.y;
    QuotientIsLess(n, d, x - p.x);
    QuotientIsLess(n, d, FloorDiv(n, d));
    QuotientIsLess(n, d, FloorDiv(n, d) + 1);
  }

  /** What the last of some edges adds to the crossings. */
  lemma LastEdgeCrosses(points: seq<Point>, n: nat, x: int, y: int)
    requires 0 < n <= |points|
    ensures
      var before, now, i: nat := CrossingsOf(points, n - 1, y), CrossingsOf(points, n, y), n - 1;
      && CountLess(now, x) == CountLess(before, x) + (if EdgePassesLeft(points, i, y, x) then 1 else 0)
      && (x in now <==> x in before || (EdgePassesLeft(points, i, y, x + 1) && !EdgePassesLeft(points, i, y, x)))
  {
    var p, q := points[n - 1], NextPoint(points, n - 1);
    NextIsSuccessor(points, n - 1);
    SelectedMeansSides(p, q, y);
    var before, now := CrossingsOf(points, n - 1, y), CrossingsOf(points, n, y);
    if Selected(p, q, y) {
      var c := CrossingAt(p, q, y);
      CrossingIsExact(p, q, y, x);
      CrossingIsExact(p, q, y, x + 1);
      assert now == before + [c];
      assert now[..|now| - 1] == before;
    } else {
      assert now == before;
    }
    hide CrossingAt, PassesLeft, NextPoint, CrossingsOf;
  }

  lemma {:induction false} CrossingsAreEdges(points: seq<Point>, n: nat, x: int, y: int)
    requires n <= |points|
    ensures CountLess(CrossingsOf(points, n, y), x) == EdgesLeft(points, n, y, x)
    ensures x in CrossingsOf(points, n, y) <==> Touched(points, n, x, y)
    decreases n
  {
    hide *;
    if n == 0 {
      NoEdges(points, x, y);
    } else {
      CrossingsAreEdges(points, n - 1, x, y);
      LastEdgeCrosses(points, n, x, y);
      LastEdgeTouches(points, n, x, y);
    }
  }

  lemma NoEdges(points: seq<Point>, x: int, y: int)
    ensures CrossingsOf(points, 0, y) == [] && EdgesLeft(points, 0, y, x) == 0 && !Touched(points, 0, x, y)
    ensures CountLess([], x) == 0
  {
  }

  lemma LastEdgeTouches(points: seq<Point>, n: nat, x: int, y: int)
    requires 0 < n <= |points|
    ensures Touched(points, n, x, y) <==>
            Touched(points, n - 1, x, y)
            || (EdgePassesLeft(points, n - 1, y, x + 1) && !EdgePassesLeft(points, n - 1, y, x))
    ensures EdgesLeft(points, n, y, x) ==
            EdgesLeft(points, n - 1, y, x) + if EdgePassesLeft(points, n - 1, y, x) then 1 else 0
  {
    hide EdgePassesLeft;
  }

  /** A pixel is coloured if and only if an odd number of edges crosses its scan line left of it, or one crosses it
      within the pixel; in exact arithmetic on the corners. */
  lemma InsideIsExact(points: seq<Point>, x: int, y: int)
    ensures Inside(points, x, y) <==> EdgesLeft(points, |points|, y, x) % 2 == 1 || Touched(points, |points|, x, y)
  {
    CrossingsAreEdges(points, |points|, x, y);
    hide CrossingsOf, EdgesLeft, Touched, CountLess;
  }

  lemma LineIsFilled(s: seq<Byte>, points: seq<Point>, y: nat, color: Color)
    requires |s| == CANVAS_BYTES && y < HEIGHT && SafeLine(points, y)
    ensures |LineAssigned(s, points, y, color)| == CANVAS_BYTES
    ensures forall i :: 0 <= i < CANVAS_BYTES ==>
              LineAssigned(s, points, y, color)[i] ==
                if PixelY(i) == y && Inside(points, PixelX(i), y) then Channel(color, i) else s[i]
  {
    var crossings := Crossings(points, y);
    CrossingsAreEven(points, y);
    SortingSorts(crossings);
    var xs := RowCrossings(points, y);
    PairsAreFilled(s, xs, |xs| / 2, y, color);
    hide EvenOdd, CrossingsOf, SortedCopy, InPairs, PixelX, PixelY, Channel, PairsAssigned;
    forall i | 0 <= i < CANVAS_BYTES ensures InPairs(xs, |xs| / 2, PixelX(i)) <==> Inside(points, PixelX(i), y) {
      SortedPairsAreEvenOdd(crossings, PixelX(i));
    }
  }

  /** The first n rows of a safe polygon are filled, and no others. */
  lemma {:induction false} LinesAreFilled(s: seq<Byte>, points: seq<Point>, n: nat, color: Color)
    requires |s| == CANVAS_BYTES && n <= HEIGHT && forall y :: 0 <= y < n ==> SafeLine(points, y)
    ensures |LinesAssigned(s, points, n, color)| == CANVAS_BYTES
    ensures forall i :: 0 <= i < CANVAS_BYTES ==>
              LinesAssigned(s, points, n, color)[i] ==
                if PixelY(i) < n && Inside(points, PixelX(i), PixelY(i)) then Channel(color, i) else s[i]
    decreases n
  {
    hide SafeLine, LineAssigned, Inside, PixelX, PixelY, Channel;
    if n > 0 {
      LinesAreFilled(s, points, n - 1, color);
      LineIsFilled(LinesAssigned(s, points, n - 1, color), points, n - 1, color);
    }
  }

  lemma LineKeepsExactlyWhenSafe(s: seq<Byte>, points: seq<Point>, y: nat, color: Color)
    requires y < HEIGHT && |LinesAssigned(s, points, y, color)| == CANVAS_BYTES
    ensures LineKeepsLength(s, points, y, color) <==> SafeLine(points, y)
  {
    hide LinesAssigned, RowCrossings, PairsKeepLength, SafePairs, InPairs, PixelX, PixelY, Channel;
    var xs := RowCrossings(points, y);
    PairsAreFilled(LinesAssigned(s, points, y, color), xs, |xs| / 2, y, color);
  }

  lemma {:induction false} KeptLinesAreSafe(s: seq<Byte>, points: seq<Point>, n: nat, color: Color)
    requires |s| == CANVAS_BYTES && n <= HEIGHT
    requires forall y :: 0 <= y < n ==> LineKeepsLength(s, points, y, color)
    ensures |LinesAssigned(s, points, n, color)| == CANVAS_BYTES && forall y :: 0 <= y < n ==> SafeLine(points, y)
    decreases n
  {
    hide SafeLine, LineKeepsLength, LineAssigned, Inside, PixelX, PixelY, Channel;
    if n > 0 {
      KeptLinesAreSafe(s, points, n - 1, color);
      LineKeepsExactlyWhenSafe(s, points, n - 1, color);
      LineIsFilled(LinesAssigned(s, points, n - 1, color), points, n - 1, color);
    }
  }

  /** What becomes of a canvas of full length: no slice changes its length if and only if all pairs of crossings are
      safe, and then the pixels inside have the colour and every other byte is as before. */
  ghost predicate PolygonFilled(s: seq<Byte>, r: seq<Byte>, points: seq<Point>, color: Color) {
    |s| == CANVAS_BYTES ==>
      && (FillKeepsLength(s, points, color) <==> SafePolygon(points))
      && (SafePolygon(points) ==>
            && |r| == CANVAS_BYTES
            && forall i :: 0 <= i < CANVAS_BYTES ==>
                 r[i] == if Inside(points, PixelX(i), PixelY(i)) then Channel(color, i) else s[i])
  }

  lemma PolygonSlicesFillSafely(s: seq<Byte>, points: seq<Point>, color: Color)
    requires |s| == CANVAS_BYTES
    ensures PolygonFilled(s, LinesAssigned(s, points, HEIGHT, color), points, color)
  {
    hide SafeLine, LineKeepsLength, LinesAssigned, Inside, PixelX, Channel;
    if FillKeepsLength(s, points, color) { KeptLinesAreSafe(s, points, HEIGHT, color); }
    if SafePolygon(points) {
      LinesAreFilled(s, points, HEIGHT, color);
      forall y | 0 <= y < HEIGHT ensures LineKeepsLength(s, points, y, color) {
        LinesAreFilled(s, points, y, color);
        LineKeepsExactlyWhenSafe(s, points, y, color);
      }
    }
  }

  /** A caller need only look at the points: none left of column -1, which the canvas does not have, is enough. */
  lemma NoPointFarLeftIsSafe(points: seq<Point>)
    requires forall i :: 0 <= i < |points| ==> points[i].x >= -1
    ensures SafePolygon(points)
  {
    forall y | 0 <= y < HEIGHT ensures SafeLine(points, y) {
      var crossings := Crossings(points, y);
      CrossingsFrom(points, |points|, y, -1);
      SortingSorts(crossings);
      var xs := RowCrossings(points, y);
      forall k | 0 <= k < |xs| / 2 ensures RowSafe(xs[2 * k], xs[2 * k + 1] + 1, y) {
        assert xs[2 * k + 1] in xs;
        assert xs[2 * k + 1] in crossings;
      }
    }
  }

  // ---- rows a polygon does not reach ----------------------------------------------------------

  lemma {:induction false} OutsideIsEmpty(points: seq<Point>, n: nat, low: int, high: int, y: int)
    requires n <= |points| && forall j :: 0 <= j < |points| ==> low <= points[j].y <= high
    requires y < low || y > high
    ensures CrossingsOf(points, n, y) == []
    decreases n
  {
    if n > 0 {
      OutsideIsEmpty(points, n - 1, low, high, y);
      NextIsSuccessor(points, n - 1);
    }
  }

  lemma OutsideAssignsNothing(s: seq<Byte>, points: seq<Point>, low: int, high: int, y: nat, color: Color)
    requires forall j :: 0 <= j < |points| ==> low <= points[j].y <= high
    requires y < low || y > high
    ensures LineAssigned(s, points, y, color) == s
  {
    OutsideIsEmpty(points, |points|, low, high, y);
  }

  lemma {:induction false} RowsOutsideAssignNothing(
    s: seq<Byte>, points: seq<Point>, low: int, high: int, m: nat, n: nat, color: Color)
    requires forall j :: 0 <= j < |points| ==> low <= points[j].y <= high
    requires m <= n && (m == n || n <= low || m > high)
    ensures LinesAssigned(s, points, n, color) == LinesAssigned(s, points, m, color)
    decreases n - m
  {
    hide LineAssigned;
    if m < n {
      RowsOutsideAssignNothing(s, points, low, high, m, n - 1, color);
      OutsideAssignsNothing(LinesAssigned(s, points, n - 1, color), points, low, high, n - 1, color);
    }
  }

  lemma AnyRectIsFilled(s: seq<Byte>, x0: int, y0: int, x1: int, y1: int, color: Color)
    ensures RectFilled(s, RowsAssigned(s, x0, x1, Max(0, y0), Min(HEIGHT, y1), color), x0, y0, x1, y1, color)
  {
    if |s| == CANVAS_BYTES { SlicesFillSafely(s, x0, y0, x1, y1, color); }
    hide RowsAssigned, SafeRect, InRect, Channel;
  }

  lemma AnyPolygonIsFilled(s: seq<Byte>, points: seq<Point>, color: Color)
    ensures PolygonFilled(s, LinesAssigned(s, points, HEIGHT, color), points, color)
  {
    if |s| == CANVAS_BYTES { PolygonSlicesFillSafely(s, points, color); }
    hide LinesAssigned, SafePolygon, FillKeepsLength, Inside, Channel;
  }

  // ---- what one sees --------------------------------------------------------------------------------

  /** The three bytes of the pixel in column x of row y. */
  function PixelAt(s: seq<Byte>, x: nat, y: nat): (pixel: seq<Byte>)
    requires |s| == CANVAS_BYTES && x < 512 && y < 384
  {
    s[(y * 512 + x) * 3..(y * 512 + x) * 3 + 3]
  }

  lemma ByteOfPixel(x: nat, y: nat, k: nat)
    requires x < 512 && y < 384 && k < 3
    ensures
      var i := (y * 512 + x) * 3 + k;
      i < CANVAS_BYTES && PixelX(i) == x && PixelY(i) == y && i % 3 == k
  {
  }

  /** A safe rectangle shows as its colour, red first, on exactly its pixels of the canvas. */
  lemma RectShows(s: seq<Byte>, r: seq<Byte>, x0: int, y0: int, x1: int, y1: int, color: Color, x: nat, y: nat)
    requires |s| == CANVAS_BYTES && SafeRect(x0, y0, x1, y1) && RectFilled(s, r, x0, y0, x1, y1, color)
    requires x < 512 && y < 384
    ensures |r| == CANVAS_BYTES
    ensures PixelAt(r, x, y) == if x0 <= x < x1 && y0 <= y < y1 then [color.red, color.green, color.blue]
                                else PixelAt(s, x, y)
  {
    ByteOfPixel(x, y, 0);
    ByteOfPixel(x, y, 1);
    ByteOfPixel(x, y, 2);
    hide SafeRect, PixelX, PixelY;
  }

  lemma PolygonShowsByte(s: seq<Byte>, r: seq<Byte>, points: seq<Point>, color: Color, i: nat)
    requires |s| == CANVAS_BYTES && SafePolygon(points) && PolygonFilled(s, r, points, color) && i < CANVAS_BYTES
    ensures |r| == CANVAS_BYTES && r[i] == if Inside(points, PixelX(i), PixelY(i)) then Channel(color, i) else s[i]
  {
    hide SafePolygon, FillKeepsLength, Inside, PixelX, PixelY, Channel;
  }

  /** A safe polygon shows as its colour, red first, on exactly the pixels inside it. */
  lemma PolygonShows(s: seq<Byte>, r: seq<Byte>, points: seq<Point>, color: Color, x: nat, y: nat)
    requires |s| == CANVAS_BYTES && SafePolygon(points) && PolygonFilled(s, r, points, color)
    requires x < 512 && y < 384
    ensures |r| == CANVAS_BYTES
    ensures PixelAt(r, x, y) == if Inside(points, x, y) then [color.red, color.green, color.blue] else PixelAt(s, x, y)
  {
    var o := (y * 512 + x) * 3;
    ByteOfPixel(x, y, 0);
    ByteOfPixel(x, y, 1);
    ByteOfPixel(x, y, 2);
    ChannelsAreInOrder(color, o);
    PolygonShowsByte(s, r, points, color, o);
    PolygonShowsByte(s, r, points, color, o + 1);
    PolygonShowsByte(s, r, points, color, o + 2);
    PixelIsItsBytes(s, x, y);
    PixelIsItsBytes(r, x, y);
    hide *;
  }

  lemma ChannelsAreInOrder(color: Color, o: nat)
    requires o % 3 == 0
    ensures
      Channel(color, o) == color.red && Channel(color, o + 1) == color.green && Channel(color, o + 2) == color.blue
  {
  }

  lemma PixelIsItsBytes(s: seq<Byte>, x: nat, y: nat)
    requires |s| == CANVAS_BYTES && x < 512 && y < 384
    ensures var o := (y * 512 + x) * 3; o + 2 < |s| && PixelAt(s, x, y) == [s[o], s[o + 1], s[o + 2]]
  {
  }

  // ---- the canvas --------------------------------------------------------------------------------

  lemma RowsUnfold(s: seq<Byte>, x0: int, x1: int, y: nat, bottom: int, color: Color)
    ensures RowsAssigned(s, x0, x1, y, bottom, color) ==
            if y >= bottom then s else RowsAssigned(RowAssigned(s, x0, x1, y, color), x0, x1, y + 1, bottom, color)
  {
  }

  class Canvas {
    var bytes: seq<Byte>

    constructor (initial: seq<Byte>)
      ensures bytes == initial
    {
      bytes := initial;
    }

    /** `_rect`. */
    method Rect(x0: int, y0: int, x1: int, y1: int, color: Color)
      modifies this
      ensures bytes == RowsAssigned(old(bytes), x0, x1, Max(0, y0), Min(HEIGHT, y1), color)
      ensures RectFilled(old(bytes), bytes, x0, y0, x1, y1, color)
    {
      AnyRectIsFilled(bytes, x0, y0, x1, y1, color);
      hide RectFilled, RowsAssigned, SliceAssign, Repeated, FloorDiv;
      var y, bottom := Max(0, y0), Min(HEIGHT, y1);
      while y < bottom
        invariant y >= 0
        invariant RowsAssigned(bytes, x0, x1, y, bottom, color) ==
                  RowsAssigned(old(bytes), x0, x1, Max(0, y0), bottom, color)
      {
        RowsUnfold(bytes, x0, x1, y, bottom, color);
        var start := (y * WIDTH + Max(0, x0)) * 3;
        var end := (y * WIDTH + Min(WIDTH, x1)) * 3;
        bytes := SliceAssign(bytes, start, end, Repeated(color, FloorDiv(end - start, 3)));
        y := y + 1;
      }
      RowsUnfold(bytes, x0, x1, y, bottom, color);
    }

    /** `_polygon`, for any points; it raises without any. */
    method FillPolygon(points: seq<Point>, color: Color) returns (raised: bool)
      modifies this
      ensures raised <==> points == []
      ensures bytes == if raised then old(bytes) else LinesAssigned(old(bytes), points, HEIGHT, color)
      ensures !raised ==> PolygonFilled(old(bytes), bytes, points, color)
    {
      AnyPolygonIsFilled(bytes, points, color);
      hide PolygonFilled, RectFilled;
      hide LineAssigned;
      if points == [] {
        return true;
      }
      var low, high := points[0].y, points[0].y;
      for k := 0 to |points|
        invariant low <= high
        invariant forall j :: 0 <= j < k ==> low <= points[j].y <= high
      {
        low, high := Min(low, points[k].y), Max(high, points[k].y);
      }
      ghost var lowest, highest := low, high;
      low, high := Max(0, low), Min(HEIGHT - 1, high);
      var y := low;
      ghost var first := Min(HEIGHT, low);
      RowsOutsideAssignNothing(bytes, points, lowest, highest, 0, first, color);
      while y <= high
        invariant low <= y && (y <= high + 1 || y == low)
        invariant y <= HEIGHT || y == low
        invariant bytes == LinesAssigned(old(bytes), points, Min(HEIGHT, y), color)
      {
        FillScanLine(points, y, color);
        y := y + 1;
      }
      RowsOutsideAssignNothing(old(bytes), points, lowest, highest, Min(HEIGHT, y), HEIGHT, color);
      raised := false;
    }

    /** The inner loop over the edges. */
    method CollectCrossings(points: seq<Point>, y: int) returns (crossings: seq<int>)
      requires points != []
      ensures crossings == Crossings(points, y)
    {
      crossings := [];
      for k := 0 to |points|
        invariant crossings == CrossingsOf(points, k, y)
      {
        var p, q := points[k], points[(k + 1) % |points|];
        if p.y <= y < q.y || q.y <= y < p.y {
          crossings := crossings + [p.x + FloorDiv((y - p.y) * (q.x - p.x), q.y - p.y)];
        }
      }
    }

    /** One row: its crossings, sorted. */
    method FillScanLine(points: seq<Point>, y: nat, color: Color)
      requires points != [] && y < HEIGHT
      modifies this
      ensures bytes == LineAssigned(old(bytes), points, y, color)
    {
      hide PairsAssigned, CrossingsOf;
      var crossings := CollectCrossings(points, y);
      SortingSorts(crossings);
      CrossingsAreEven(points, y);
      FillPairs(SortedCopy(crossings), y, color);
    }

    /** One rectangle of height one for each pair of neighbours. */
    method FillPairs(xs: seq<int>, y: nat, color: Color)
      requires |xs| % 2 == 0 && y < HEIGHT
      modifies this
      ensures bytes == PairsAssigned(old(bytes), xs, |xs| / 2, y, color)
    {
      hide RowAssigned, RowsAssigned, RectFilled;
      for pair := 0 to |xs| / 2
        invariant bytes == PairsAssigned(old(bytes), xs, pair, y, color)
      {
        OneRow(bytes, xs[2 * pair], xs[2 * pair + 1] + 1, y, color);
        NextPair(old(bytes), xs, pair, y, color);
        Rect(xs[2 * pair], y, xs[2 * pair + 1] + 1, y + 1, color);
      }
    }
  }

  lemma NextPair(s: seq<Byte>, xs: seq<int>, n: nat, y: nat, color: Color)
    requires 2 * n + 1 < |xs|
    ensures PairsAssigned(s, xs, n + 1, y, color) ==
            RowAssigned(PairsAssigned(s, xs, n, y, color), xs[2 * n], xs[2 * n + 1] + 1, y, color)
  {
    hide RowAssigned;
    assert 2 * (n + 1) - 2 == 2 * n && 2 * (n + 1) - 1 == 2 * n + 1;
  }

  lemma OneRow(s: seq<Byte>, x0: int, x1: int, y: nat, color: Color)
    requires y < HEIGHT
    ensures RowsAssigned(s, x0, x1, Max(0, y), Min(HEIGHT, y + 1), color) == RowAssigned(s, x0, x1, y, color)
  {
    hide RowAssigned;
  }
}
