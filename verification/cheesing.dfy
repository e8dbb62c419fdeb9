/** The decision logic of the `Cheesing` renderer step: the validator that
    compares hole size with hole spacing, the gate in `apply_cheesing`, the
    grid bounds, the `numpy.arange` grid of hole centres, the test box drawn
    around each centre, and the keepout filter that decides which holes
    are placed. The keepout test itself (`gdspy.inside` against the
    no-cheese cell) is a parameter. */
module Cheesing {
  import opened Geometry
  import opened Seqs

  /** The constructor arguments the grid logic reads. */
  datatype Options = Options(
    minX: real,
    minY: real,
    maxX: real,
    maxY: real,
    edgeNoCheese: real,
    cheeseShape: int,
    shape0X: real,
    shape0Y: real,
    shape1Radius: real,
    deltaX: real,
    deltaY: real)

  /** `_error_checking_hole_delta`: 0 when the spacing clears the hole,
      1 when a spacing is no larger than the hole's width or height (the
      full rectangle side for shape 0, the diameter for shape 1), and 2
      for an unknown shape. */
  function ErrorCheckingHoleDelta(o: Options): (r: int)
    ensures r == 2 <==> o.cheeseShape != 0 && o.cheeseShape != 1
    ensures o.cheeseShape == 0 ==>
              (r == 1 <==> o.deltaX <= o.shape0X || o.deltaY <= o.shape0Y)
    ensures o.cheeseShape == 1 ==>
              (r == 1 <==> o.deltaX <= 2.0 * o.shape1Radius || o.deltaY <= 2.0 * o.shape1Radius)
    ensures r == 0 || r == 1 || r == 2
  {
    if o.cheeseShape == 0 then
      if o.deltaX <= o.shape0X || o.deltaY <= o.shape0Y then 1 else 0
    else if o.cheeseShape == 1 then
      var diameter := 2.0 * o.shape1Radius;
      if o.deltaX <= diameter || o.deltaY <= diameter then 1 else 0
    else
      2
  }

  /** The chip rectangle shrunk by `edge_nocheese` on each side. */
  function GridBounds(o: Options): (b: Box)
    ensures b.Width() == (o.maxX - o.minX) - 2.0 * o.edgeNoCheese
    ensures b.Height() == (o.maxY - o.minY) - 2.0 * o.edgeNoCheese
    ensures b.CentreX() == (o.minX + o.maxX) / 2.0 && b.CentreY() == (o.minY + o.maxY) / 2.0
    ensures o.edgeNoCheese >= 0.0 ==> Box(o.minX, o.minY, o.maxX, o.maxY).Contains(b)
  {
    Box(o.minX + o.edgeNoCheese, o.minY + o.edgeNoCheese,
        o.maxX - o.edgeNoCheese, o.maxY - o.edgeNoCheese)
  }

  /** Half the width and half the height of the box tested around each
      hole centre: half the rectangle for shape 0, the radius otherwise. */
  function HalfSizes(o: Options): (real, real)
  {
    if o.cheeseShape == 0 then (o.shape0X / 2.0, o.shape0Y / 2.0)
    else (o.shape1Radius, o.shape1Radius)
  }

  /** The validator accepts exactly when the shape is known and the test
      boxes of neighbouring centres would not touch: each spacing exceeds
      twice the matching half size. */
  lemma ValidatorMeansBoxesApart(o: Options)
    ensures ErrorCheckingHoleDelta(o) == 0 <==>
              (o.cheeseShape == 0 || o.cheeseShape == 1) &&
              2.0 * HalfSizes(o).0 < o.deltaX && 2.0 * HalfSizes(o).1 < o.deltaY
  {
  }

  /** Element `k` of the progression from `start` by `step` has not yet
      reached `stop` in the progression's direction. */
  predicate BeforeStop(start: real, stop: real, step: real, k: nat)
  {
    if step > 0.0 then start + Times(k, step) < stop else start + Times(k, step) > stop
  }

  /** Element `k` is before the stop exactly when `k` is below the
      real-valued length `(stop - start) / step`. */
  lemma BeforeStopIff(start: real, stop: real, step: real, k: nat)
    requires step != 0.0
    ensures BeforeStop(start, stop, step, k) <==> (k as real) < (stop - start) / step
  {
    var kr := k as real;
    if step > 0.0 {
      TimesBelowIff(kr, step, stop - start);
    } else {
      TimesBelowIff(kr, -step, start - stop);
      assert kr * step == -(kr * (-step));
      assert (start - stop) / (-step) == (stop - start) / step;
    }
  }

  /** `numpy.arange(start, stop, step)` with a non-zero step: the values
      `start + k·step` for `k = 0, 1, …` that have not reached `stop`. */
  function Arange(start: real, stop: real, step: real): (r: seq<real>)
    requires step != 0.0
    ensures forall k :: 0 <= k < |r| ==> r[k] == start + Times(k, step)
    ensures forall k: nat :: k < |r| <==> BeforeStop(start, stop, step, k)
  {
    var q := (stop - start) / step;
    var n := if q <= 0.0 then 0 else Ceil(q);
    assert forall k: nat :: k < n <==> BeforeStop(start, stop, step, k) by {
      forall k: nat ensures k < n <==> BeforeStop(start, stop, step, k) {
        BeforeStopIff(start, stop, step, k);
      }
    }
    seq(n, k requires 0 <= k < n => start + Times(k, step))
  }

  /** Consecutive values differ by exactly the step, every value lies
      before the stop, and the progression is empty exactly when its start
      is already at or past the stop. */
  lemma ArangeShape(start: real, stop: real, step: real)
    requires step != 0.0
    ensures forall k :: 0 <= k < |Arange(start, stop, step)| - 1 ==>
              Arange(start, stop, step)[k + 1] - Arange(start, stop, step)[k] == step
    ensures forall k :: 0 <= k < |Arange(start, stop, step)| ==>
              if step > 0.0 then Arange(start, stop, step)[k] < stop
              else Arange(start, stop, step)[k] > stop
    ensures step > 0.0 ==> (|Arange(start, stop, step)| == 0 <==> stop <= start)
    ensures step < 0.0 ==> (|Arange(start, stop, step)| == 0 <==> start <= stop)
  {
    var r := Arange(start, stop, step);
    forall k | 0 <= k < |r| - 1 ensures r[k + 1] - r[k] == step {
      assert (k + 1) as real * step == k as real * step + step;
    }
    forall k | 0 <= k < |r|
      ensures if step > 0.0 then r[k] < stop else r[k] > stop
    {
      assert BeforeStop(start, stop, step, k);
    }
    assert BeforeStop(start, stop, step, 0) <==> 0 < |r|;
    assert start + Times(0, step) == start;
  }

  /** The centres of one grid column: `x` paired with every y value. */
  function Column(x: real, ys: seq<real>): (c: seq<Point>)
    ensures |c| == |ys|
    ensures forall j :: 0 <= j < |ys| ==> c[j] == Point(x, ys[j])
  {
    seq(|ys|, j requires 0 <= j < |ys| => Point(x, ys[j]))
  }

  /** One column per x value. */
  function Columns(xs: seq<real>, ys: seq<real>): (cols: seq<seq<Point>>)
    ensures |cols| == |xs|
    ensures forall i :: 0 <= i < |xs| ==> cols[i] == Column(xs[i], ys)
  {
    seq(|xs|, i requires 0 <= i < |xs| => Column(xs[i], ys))
  }

  /** Every `(x, y)` pair, x in the outer loop and y in the inner one. */
  function Centres(xs: seq<real>, ys: seq<real>): seq<Point>
  {
    Flatten(Columns(xs, ys))
  }

  /** The pair `(xs[i], ys[j])` sits at index `i·|ys| + j` of the grid. */
  lemma CentreAt(xs: seq<real>, ys: seq<real>, i: nat, j: nat)
    requires i < |xs| && j < |ys|
    ensures i * |ys| + j < |Centres(xs, ys)| && Centres(xs, ys)[i * |ys| + j] == Point(xs[i], ys[j])
  {
    var cols := Columns(xs, ys);
    FlattenUniformAt(cols, |ys|, i, j);
    assert cols[i][j] == Point(xs[i], ys[j]);
  }

  lemma CentresLength(xs: seq<real>, ys: seq<real>)
    ensures |Centres(xs, ys)| == |xs| * |ys|
  {
    FlattenUniformLength(Columns(xs, ys), |ys|);
  }

  /** The grid holds one centre per pair, column by column: the pair
      `(xs[i], ys[j])` sits at index `i·|ys| + j`. */
  lemma CentresLayout(xs: seq<real>, ys: seq<real>)
    ensures |Centres(xs, ys)| == |xs| * |ys|
    ensures forall i, j :: 0 <= i < |xs| && 0 <= j < |ys| ==>
              i * |ys| + j < |Centres(xs, ys)| &&
              Centres(xs, ys)[i * |ys| + j] == Point(xs[i], ys[j])
  {
    CentresLength(xs, ys);
    forall i, j | 0 <= i < |xs| && 0 <= j < |ys|
      ensures i * |ys| + j < |Centres(xs, ys)| && Centres(xs, ys)[i * |ys| + j] == Point(xs[i], ys[j])
    {
      CentreAt(xs, ys, i, j);
    }
  }

  /** The four corners tested around centre `c`, in the order
      `_get_holes_and_subtract_from_keepout` lists them:
      lower left, lower right, upper right, upper left. */
  function TestBox(c: Point, sx: real, sy: real): (corners: seq<Point>)
    ensures |corners| == 4
    ensures corners[0].x == corners[3].x && corners[1].x == corners[2].x
    ensures corners[0].y == corners[1].y && corners[2].y == corners[3].y
    ensures corners[2].x - corners[0].x == 2.0 * sx && corners[2].y - corners[0].y == 2.0 * sy
    ensures (corners[0].x + corners[2].x) / 2.0 == c.x && (corners[0].y + corners[2].y) / 2.0 == c.y
  {
    [Point(c.x - sx, c.y - sy), Point(c.x + sx, c.y - sy),
     Point(c.x + sx, c.y + sy), Point(c.x - sx, c.y + sy)]
  }

  /** The hole grid of the options, x by y. */
  function Grid(o: Options): seq<Point>
    requires o.deltaX != 0.0 && o.deltaY != 0.0
  {
    var g := GridBounds(o);
    Centres(Arange(g.minX, g.maxX, o.deltaX), Arange(g.minY, g.maxY, o.deltaY))
  }

  /** The centres where a hole is placed: those whose test box the keepout
      test `intersects` rejects, in grid order. */
  function KeptHoles(o: Options, intersects: seq<Point> -> bool): seq<Point>
    requires o.deltaX != 0.0 && o.deltaY != 0.0
  {
    var (sx, sy) := HalfSizes(o);
    Filter(Grid(o), c => !intersects(TestBox(c, sx, sy)))
  }

  /** The placed holes are exactly the grid centres whose test box does not
      intersect the keepout, and they keep the grid's order. */
  lemma KeptHolesAreClearCentres(o: Options, intersects: seq<Point> -> bool, c: Point)
    requires o.deltaX != 0.0 && o.deltaY != 0.0
    ensures c in KeptHoles(o, intersects) <==>
              c in Grid(o) && !intersects(TestBox(c, HalfSizes(o).0, HalfSizes(o).1))
    ensures IsSubsequence(KeptHoles(o, intersects), Grid(o))
  {
    var (sx, sy) := HalfSizes(o);
    var keep := c => !intersects(TestBox(c, sx, sy));
    FilterMembership(Grid(o), keep, c);
    FilterIsSubsequence(Grid(o), keep);
  }

  /** What `apply_cheesing` does to the library: nothing when the
      validator objects, an exception from `numpy.arange` when a spacing is
      zero, and otherwise a hole at each kept centre. */
  datatype Outcome = Untouched | StepError | Cheesed(holes: seq<Point>)

  function ApplyCheesing(o: Options, intersects: seq<Point> -> bool): (r: Outcome)
    ensures r.Untouched? <==> ErrorCheckingHoleDelta(o) != 0
    ensures r.StepError? <==> ErrorCheckingHoleDelta(o) == 0 && (o.deltaX == 0.0 || o.deltaY == 0.0)
    ensures r.Cheesed? ==> r.holes == KeptHoles(o, intersects)
    ensures r.Cheesed? ==> |r.holes| <= |Grid(o)| && IsSubsequence(r.holes, Grid(o))
    ensures r.Cheesed? ==> forall k :: 0 <= k < |r.holes| ==>
              !intersects(TestBox(r.holes[k], HalfSizes(o).0, HalfSizes(o).1))
  {
    if ErrorCheckingHoleDelta(o) != 0 then Untouched
    else if o.deltaX == 0.0 || o.deltaY == 0.0 then StepError
    else
      var (sx, sy) := HalfSizes(o);
      FilterIsSubsequence(Grid(o), c => !intersects(TestBox(c, sx, sy)));
      Cheesed(KeptHoles(o, intersects))
  }

  /** With hole sizes that are not negative, an accepted configuration has
      positive spacings, so the grid is built without error and every
      placed hole is a grid centre clear of the keepout. */
  lemma AcceptedCheesingPlacesClearHoles(o: Options, intersects: seq<Point> -> bool, c: Point)
    requires o.shape0X >= 0.0 && o.shape0Y >= 0.0 && o.shape1Radius >= 0.0
    requires ErrorCheckingHoleDelta(o) == 0
    ensures o.deltaX > 0.0 && o.deltaY > 0.0
    ensures ApplyCheesing(o, intersects).Cheesed?
    ensures c in ApplyCheesing(o, intersects).holes <==>
              c in Grid(o) && !intersects(TestBox(c, HalfSizes(o).0, HalfSizes(o).1))
  {
    KeptHolesAreClearCentres(o, intersects, c);
  }
}
