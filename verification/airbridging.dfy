/** Airbridge placement along a coplanar-waveguide route
    (`Airbridging.find_uniform_ab_placement`), and the fresh-name search
    used when a footprint component is instantiated temporarily.

    numpy's square root, arctangent, cosine, sine and degree conversion are
    not modelled: the planner receives them as a `Trig` record of total
    functions, and a property that needs one of their identities asks for
    it at the single argument where it is used. */
module Airbridging {
  import opened Geometry
  import opened Seqs

  datatype Trig = Trig(
    sqrt: real -> real,
    atan2: (real, real) -> real,
    cos: real -> real,
    sin: real -> real,
    degrees: real -> real)

  /** `sqrt` returns the non-negative root of `v`. */
  predicate RootAt(trig: Trig, v: real)
  {
    trig.sqrt(v) >= 0.0 && trig.sqrt(v) * trig.sqrt(v) == v
  }

  /** `cos` and `sin` at angle `a` lie on the unit circle. */
  predicate UnitAt(trig: Trig, a: real)
  {
    trig.cos(a) * trig.cos(a) + trig.sin(a) * trig.sin(a) == 1.0
  }

  /** One airbridge: centre position (mm) and orientation (degrees). */
  datatype Placement = Placement(x: real, y: real, angle: real)

  /** The numeric inputs of one planning pass: the route's fillet radius,
      the bridge pitch, the minimum spacing from corners and the grid size
      vertex coordinates are rounded to. */
  datatype Params = Params(fillet: real, pitch: real, minSpacing: real, precision: real)

  /** Python divides by `precision`, and with a non-positive pitch the count
      loop runs forever once some segment's usable length reaches the pitch.
      Requiring a positive pitch also leaves out the routes where no segment
      reaches a non-positive pitch; those terminate in Python. */
  predicate ValidParams(p: Params)
  {
    p.pitch > 0.0 && p.precision != 0.0
  }

  // ---------------------------------------------------------------------
  // Quantisation of vertices
  // ---------------------------------------------------------------------

  /** `v` is an integer multiple of `precision`. */
  ghost predicate OnGrid(v: real, precision: real)
  {
    exists k: int :: v == Times(k, precision)
  }

  /** `round(v / precision) * precision`: the grid point nearest to `v`. */
  function Quantise(v: real, precision: real): (q: real)
    requires precision != 0.0
    ensures OnGrid(q, precision)
    ensures Abs(q - v) <= Abs(precision) / 2.0
  {
    var k := RoundHalfEven(v / precision);
    NearGridPoint(v, precision, k);
    Times(k, precision)
  }

  /** A grid index within half a step of `v / precision` names a grid
      point within half a grid spacing of `v`. */
  lemma NearGridPoint(v: real, precision: real, k: int)
    requires precision != 0.0 && Abs(k as real - v / precision) <= 0.5
    ensures Abs(Times(k, precision) - v) <= Abs(precision) / 2.0
  {
    var t := v / precision;
    var e := k as real - t;
    assert t * precision == v;
    assert Times(k, precision) - v == e * precision;
    AbsOfProduct(e, precision);
    assert Abs(e * precision) == Abs(e) * Abs(precision);
    ScaleBound(Abs(e), 0.5, Abs(precision));
    assert Abs(e) * Abs(precision) <= 0.5 * Abs(precision);
  }

  lemma AbsOfProduct(a: real, b: real)
    ensures Abs(a * b) == Abs(a) * Abs(b)
  {
    if a < 0.0 && b < 0.0 {
      assert a * b == (-a) * (-b);
    } else if a < 0.0 {
      assert a * b == -((-a) * b);
    } else if b < 0.0 {
      assert a * b == -(a * (-b));
    }
  }

  // ---------------------------------------------------------------------
  // Segments
  // ---------------------------------------------------------------------

  /** A route segment between two quantised vertices. */
  datatype Segment = Segment(x0: real, y0: real, xf: real, yf: real) {
    function Dx(): real { xf - x0 }
    function Dy(): real { yf - y0 }
    function MidX(): real { (xf + x0) / 2.0 }
    function MidY(): real { (yf + y0) / 2.0 }
  }

  /** Number of segments `range(len(points) - 1)` visits. */
  function SegmentCount(points: seq<Point>): nat
  {
    if |points| == 0 then 0 else |points| - 1
  }

  /** Segment `i` of the route, from `points[i]` to `points[i + 1]`, both
      ends snapped to the `precision` grid. */
  function SegmentOf(points: seq<Point>, i: nat, precision: real): (s: Segment)
    requires precision != 0.0 && i + 1 < |points|
    ensures OnGrid(s.x0, precision) && OnGrid(s.y0, precision)
    ensures OnGrid(s.xf, precision) && OnGrid(s.yf, precision)
    ensures Abs(s.x0 - points[i].x) <= Abs(precision) / 2.0
    ensures Abs(s.y0 - points[i].y) <= Abs(precision) / 2.0
    ensures Abs(s.xf - points[i + 1].x) <= Abs(precision) / 2.0
    ensures Abs(s.yf - points[i + 1].y) <= Abs(precision) / 2.0
  {
    Segment(Quantise(points[i].x, precision), Quantise(points[i].y, precision),
            Quantise(points[i + 1].x, precision), Quantise(points[i + 1].y, precision))
  }

  /** Consecutive segments share their common vertex after quantisation. */
  lemma SegmentsMeet(points: seq<Point>, i: nat, precision: real)
    requires precision != 0.0 && i + 2 < |points|
    ensures SegmentOf(points, i, precision).xf == SegmentOf(points, i + 1, precision).x0
    ensures SegmentOf(points, i, precision).yf == SegmentOf(points, i + 1, precision).y0
  {
  }

  function Angle(trig: Trig, s: Segment): real
  {
    trig.atan2(s.Dy(), s.Dx())
  }

  /** `sqrt(dx**2 + dy**2)`; under `RootAt` it is the Euclidean length. */
  function Length(trig: Trig, s: Segment): (l: real)
    ensures RootAt(trig, s.Dx() * s.Dx() + s.Dy() * s.Dy()) ==>
              l >= 0.0 && l * l == s.Dx() * s.Dx() + s.Dy() * s.Dy()
  {
    trig.sqrt(s.Dx() * s.Dx() + s.Dy() * s.Dy())
  }

  // ---------------------------------------------------------------------
  // Straight pass
  // ---------------------------------------------------------------------

  /** The length left for bridges once the larger of the fillet radius
      and the minimum spacing is kept clear at each end. */
  function UsableLength(length: real, fillet: real, minSpacing: real): (l: real)
    ensures l == length - 2.0 * Max(fillet, minSpacing)
    ensures l <= length - 2.0 * fillet && l <= length - 2.0 * minSpacing
  {
    if fillet > minSpacing then length - 2.0 * fillet
    else length - 2.0 * minSpacing
  }

  /** The counting loop `while lprime >= n * pitch: n += 1`, resumed at a
      count `n` whose run of `n` bridges, `n - 1` pitches long, fits. */
  function CountFrom(lprime: real, pitch: real, n: nat): (r: nat)
    requires pitch > 0.0 && n >= 1
    requires Times(n - 1, pitch) <= lprime || n == 1
    ensures r >= n
    ensures lprime < Times(r, pitch)
    ensures Times(r - 1, pitch) <= lprime || r == 1
    decreases if lprime < Times(n, pitch) then 0 else (lprime / pitch).Floor + 1 - n
  {
    if lprime >= Times(n, pitch) then
      assert lprime / pitch >= n as real by {
        TimesBelowIff(n as real, pitch, lprime);
      }
      CountFrom(lprime, pitch, n + 1)
    else
      n
  }

  /** The bridge count of a segment whose usable length is `lprime`: the
      counter starts at one, so even a negative usable length gets one. */
  function BridgeCount(lprime: real, pitch: real): (n: nat)
    requires pitch > 0.0
    ensures n >= 1
    ensures lprime < Times(n, pitch)
    ensures n >= 2 ==> Times(n - 1, pitch) <= lprime
  {
    CountFrom(lprime, pitch, 1)
  }

  /** The count is the least `m >= 1` with `lprime < m * pitch`: a run of
      one more bridge would no longer fit. */
  lemma BridgeCountIsLeast(lprime: real, pitch: real, m: nat)
    requires pitch > 0.0 && m >= 1 && lprime < Times(m, pitch)
    ensures BridgeCount(lprime, pitch) <= m
  {
    var n := BridgeCount(lprime, pitch);
    if n > m {
      TimesMonotone(m, n - 1, pitch);
    }
  }

  /** A usable length of 9 at pitch 2 gives five bridges, whose span of 8
      fits. */
  lemma NineAtPitchTwo()
    ensures BridgeCount(9.0, 2.0) == 5
  {
    BridgeCountIsLeast(9.0, 2.0, 5);
  }

  /** `[i * step for i in range(n)]`, where the planner's step is
      `bridge_pitch * cos(theta)` (or `sin`). */
  function Offsets(n: nat, step: real): (r: seq<real>)
    ensures |r| == n
    ensures forall k :: 0 <= k < n - 1 ==> r[k + 1] - r[k] == step
  {
    var r := seq(n, k requires 0 <= k < n => Times(k, step));
    assert forall k :: 0 <= k < n - 1 ==> r[k + 1] - r[k] == step by {
      forall k | 0 <= k < n - 1 {
        TimesSucc(k, step);
      }
    }
    r
  }

  /** `(s - np.average(s)) + mu`: the run moved so that its mean is `mu`,
      with the spacing between neighbours unchanged. */
  function Recentre(s: seq<real>, mu: real): (r: seq<real>)
    requires |s| > 0
    ensures |r| == |s|
    ensures Mean(r) == mu
    ensures forall k :: 0 <= k < |s| - 1 ==> r[k + 1] - r[k] == s[k + 1] - s[k]
  {
    var a := Mean(s);
    var r := seq(|s|, k requires 0 <= k < |s| => (s[k] - a) + mu);
    assert r == Shift(s, mu - a);
    MeanShift(s, mu - a);
    r
  }

  function Xs(run: seq<Placement>): (r: seq<real>)
    ensures |r| == |run| && forall k :: 0 <= k < |run| ==> r[k] == run[k].x
  {
    seq(|run|, k requires 0 <= k < |run| => run[k].x)
  }

  function Ys(run: seq<Placement>): (r: seq<real>)
    ensures |r| == |run| && forall k :: 0 <= k < |run| ==> r[k] == run[k].y
  {
    seq(|run|, k requires 0 <= k < |run| => run[k].y)
  }

  /** The bridge count of a segment. */
  function SegmentBridgeCount(trig: Trig, s: Segment, p: Params): nat
    requires ValidParams(p)
  {
    BridgeCount(UsableLength(Length(trig, s), p.fillet, p.minSpacing), p.pitch)
  }

  /** Zips coordinate lists into placements that share one angle. */
  function Zip(xs: seq<real>, ys: seq<real>, angle: real): (run: seq<Placement>)
    requires |xs| == |ys|
    ensures |run| == |xs| && Xs(run) == xs && Ys(run) == ys
    ensures forall k :: 0 <= k < |run| ==> run[k].angle == angle
  {
    var run := seq(|xs|, k requires 0 <= k < |xs| => Placement(xs[k], ys[k], angle));
    assert Xs(run) == xs;
    assert Ys(run) == ys;
    run
  }

  /** The displacement from one bridge of a segment's run to the next:
      one pitch along the segment's direction. */
  function RunStep(trig: Trig, s: Segment, p: Params): Point
  {
    Point(p.pitch * trig.cos(Angle(trig, s)), p.pitch * trig.sin(Angle(trig, s)))
  }

  /** The placements of one straight segment: a run of bridges a pitch
      apart along the segment's direction, centred on its midpoint, all
      oriented along the segment. */
  function SegmentRun(trig: Trig, s: Segment, p: Params): (run: seq<Placement>)
    requires ValidParams(p)
    ensures |run| == SegmentBridgeCount(trig, s, p) >= 1
    ensures Mean(Xs(run)) == s.MidX() && Mean(Ys(run)) == s.MidY()
    ensures forall k :: 0 <= k < |run| ==> run[k].angle == trig.degrees(Angle(trig, s))
    ensures forall k :: 0 <= k < |run| - 1 ==>
              run[k + 1].x - run[k].x == RunStep(trig, s, p).x &&
              run[k + 1].y - run[k].y == RunStep(trig, s, p).y
  {
    var theta := Angle(trig, s);
    var n := SegmentBridgeCount(trig, s, p);
    var step := RunStep(trig, s, p);
    var xs := Recentre(Offsets(n, step.x), s.MidX());
    var ys := Recentre(Offsets(n, step.y), s.MidY());
    Zip(xs, ys, trig.degrees(theta))
  }

  /** A segment too short for a second bridge, including one whose usable
      length is negative, gets exactly one bridge, at its midpoint. */
  lemma ShortSegmentSingleBridge(trig: Trig, s: Segment, p: Params)
    requires ValidParams(p)
    requires UsableLength(Length(trig, s), p.fillet, p.minSpacing) < p.pitch
    ensures SegmentRun(trig, s, p) == [Placement(s.MidX(), s.MidY(), trig.degrees(Angle(trig, s)))]
  {
    var run := SegmentRun(trig, s, p);
    assert |run| == 1 by {
      BridgeCountIsLeast(UsableLength(Length(trig, s), p.fillet, p.minSpacing), p.pitch, 1);
    }
    assert Xs(run) == [run[0].x];
    assert Ys(run) == [run[0].y];
    assert Sum([run[0].x]) == run[0].x + Sum([]);
    assert Sum([run[0].y]) == run[0].y + Sum([]);
  }

  /** One run per segment, in route order. */
  function SegmentRuns(trig: Trig, points: seq<Point>, p: Params): (runs: seq<seq<Placement>>)
    requires ValidParams(p)
    ensures |runs| == SegmentCount(points)
  {
    seq(SegmentCount(points), i requires 0 <= i < SegmentCount(points) =>
      SegmentRun(trig, SegmentOf(points, i, p.precision), p))
  }

  /** The bridge counts of segments `0 .. m - 1`, added up. */
  function SumCounts(trig: Trig, points: seq<Point>, p: Params, m: nat): nat
    requires ValidParams(p) && m <= SegmentCount(points)
  {
    if m == 0 then 0
    else SumCounts(trig, points, p, m - 1) + SegmentBridgeCount(trig, SegmentOf(points, m - 1, p.precision), p)
  }

  /** The runs of the first `m` segments hold as many bridges as those
      segments' counts add up to. */
  lemma {:induction false} RunsPrefixLength(trig: Trig, points: seq<Point>, p: Params, m: nat)
    requires ValidParams(p) && m <= SegmentCount(points)
    ensures |Flatten(SegmentRuns(trig, points, p)[..m])| == SumCounts(trig, points, p, m)
  {
    if m > 0 {
      var runs := SegmentRuns(trig, points, p);
      RunsPrefixLength(trig, points, p, m - 1);
      assert runs[..m][..m - 1] == runs[..m - 1];
      assert Flatten(runs[..m]) == Flatten(runs[..m - 1]) + runs[m - 1];
    }
  }

  /** The straight pass: every segment's run appended in route order. It
      holds exactly the bridges the segments' counts add up to, and at
      least one per segment. */
  function StraightPass(trig: Trig, points: seq<Point>, p: Params): (r: seq<Placement>)
    requires ValidParams(p)
    ensures |r| == SumCounts(trig, points, p, SegmentCount(points))
    ensures |r| >= SegmentCount(points)
  {
    var runs := SegmentRuns(trig, points, p);
    FlattenLength(runs);
    RunsPrefixLength(trig, points, p, |runs|);
    assert runs[..|runs|] == runs;
    Flatten(runs)
  }

  /** Segment `i`'s run comes right after the runs of segments
      `0 .. i - 1` in the straight pass. */
  lemma StraightPassInOrder(trig: Trig, points: seq<Point>, p: Params, i: nat)
    requires ValidParams(p) && i < SegmentCount(points)
    ensures Flatten(SegmentRuns(trig, points, p)[..i]) + SegmentRun(trig, SegmentOf(points, i, p.precision), p)
            <= StraightPass(trig, points, p)
  {
    FlattenInOrder(SegmentRuns(trig, points, p), i);
  }

  /** When no segment has room for a second bridge, the straight pass is
      one bridge per segment, each at its quantised segment's midpoint. */
  lemma AllShortSegments(trig: Trig, points: seq<Point>, p: Params)
    requires ValidParams(p)
    requires forall i :: 0 <= i < SegmentCount(points) ==>
               UsableLength(Length(trig, SegmentOf(points, i, p.precision)), p.fillet, p.minSpacing) < p.pitch
    ensures |StraightPass(trig, points, p)| == SegmentCount(points)
    ensures forall i :: 0 <= i < SegmentCount(points) ==>
              StraightPass(trig, points, p)[i].x == SegmentOf(points, i, p.precision).MidX() &&
              StraightPass(trig, points, p)[i].y == SegmentOf(points, i, p.precision).MidY()
  {
    var runs := SegmentRuns(trig, points, p);
    forall i | 0 <= i < |runs|
      ensures runs[i] == [Placement(SegmentOf(points, i, p.precision).MidX(), SegmentOf(points, i, p.precision).MidY(),
                                    trig.degrees(Angle(trig, SegmentOf(points, i, p.precision))))]
    {
      ShortSegmentSingleBridge(trig, SegmentOf(points, i, p.precision), p);
    }
    FlattenSingletons(runs);
  }

  /** `points_theta`: one angle per segment, in route order. */
  function SegmentAngles(trig: Trig, points: seq<Point>, precision: real): (r: seq<real>)
    requires precision != 0.0
    ensures |r| == SegmentCount(points)
    ensures forall i :: 0 <= i < |r| ==> r[i] == Angle(trig, SegmentOf(points, i, precision))
  {
    seq(SegmentCount(points), i requires 0 <= i < SegmentCount(points) =>
      Angle(trig, SegmentOf(points, i, precision)))
  }

  // ---------------------------------------------------------------------
  // Corner pass
  // ---------------------------------------------------------------------

  /** The direction toward which the fillet arc at a corner bulges. */
  function Bisector(trig: Trig, thetaIn: real, thetaOut: real): real
  {
    trig.atan2(trig.sin(thetaIn) - trig.sin(thetaOut), trig.cos(thetaIn) - trig.cos(thetaOut))
  }

  /** Distance, along one axis, between the corner vertex and the box
      around the fillet arc: `fillet * (1 - |c|)`, pointing along
      `sign(c)`; `numpy.sign` makes it vanish when `c` is zero. */
  function ArcOffset(fillet: real, c: real): (d: real)
    ensures c == 0.0 ==> d == 0.0
    ensures fillet >= 0.0 && -1.0 <= c <= 1.0 ==> Abs(d) <= fillet
    ensures fillet >= 0.0 && -1.0 <= c <= 1.0 ==> d * c >= 0.0
    ensures fillet >= 0.0 && -1.0 <= c <= 1.0 && c != 0.0 ==> Abs(d) == fillet * (1.0 - Abs(c))
  {
    var m := fillet * (1.0 - Abs(c));
    ArcOffsetFacts(fillet, c, m);
    m * Sign(c)
  }

  lemma ArcOffsetFacts(fillet: real, c: real, m: real)
    requires m == fillet * (1.0 - Abs(c))
    ensures c == 0.0 ==> m * Sign(c) == 0.0
    ensures fillet >= 0.0 && -1.0 <= c <= 1.0 ==>
              Abs(m * Sign(c)) <= fillet && m * Sign(c) * c >= 0.0 &&
              (c != 0.0 ==> Abs(m * Sign(c)) == m)
  {
    if fillet >= 0.0 && -1.0 <= c <= 1.0 {
      var t := 1.0 - Abs(c);
      assert 0.0 <= t <= 1.0;
      assert m == t * fillet;
      ScaleBound(0.0, t, fillet);
      ScaleBound(t, 1.0, fillet);
      assert 0.0 * fillet == 0.0 && 1.0 * fillet == fillet;
      assert 0.0 <= m <= fillet;
      if c > 0.0 {
        assert m * Sign(c) == m;
        ScaleBound(0.0, m, c);
      } else if c < 0.0 {
        assert m * Sign(c) == -m;
        ScaleBound(0.0, m, -c);
        assert -m * c == m * (-c);
      }
    }
  }

  /** `x` is vertex coordinate `v` pulled toward the fillet arc along an
      axis whose bisector component is `c`: left in place when `c` is zero;
      otherwise, for a component in [-1, 1] and a non-negative fillet,
      moved against `sign(c)` by exactly `fillet * (1 - |c|)`, which is at
      most one fillet radius. */
  predicate PulledAlong(v: real, x: real, fillet: real, c: real)
  {
    && (c == 0.0 ==> x == v)
    && (fillet >= 0.0 && -1.0 <= c <= 1.0 ==>
          Abs(x - v) <= fillet && (v - x) * c >= 0.0 &&
          (c != 0.0 ==> Abs(x - v) == fillet * (1.0 - Abs(c))))
  }

  lemma CornerPull(fillet: real, c: real, v: real, x: real)
    requires x == v - ArcOffset(fillet, c)
    ensures PulledAlong(v, x, fillet, c)
  {
    var d := ArcOffset(fillet, c);
    assert v - x == d && Abs(x - v) == Abs(d);
  }

  /** A cosine and sine on the unit circle are each at most one in size. */
  lemma UnitBounds(c: real, s: real)
    requires c * c + s * s == 1.0
    ensures -1.0 <= c <= 1.0 && -1.0 <= s <= 1.0
  {
    if c > 1.0 { ScaleBound(1.0, c, c); }
    if c < -1.0 { ScaleBound(1.0, -c, -c); }
    if s > 1.0 { ScaleBound(1.0, s, s); }
    if s < -1.0 { ScaleBound(1.0, -s, -s); }
  }

  /** Where the corner bridge of vertex `v` goes: `v` moved on each axis
      separately, against the sign of that axis's component of the bisector
      direction of the incoming angle `thetaI` and the outgoing angle
      `thetaF`. The move is not, in general, along the bisector itself. */
  function CornerPosition(trig: Trig, v: Point, thetaI: real, thetaF: real, fillet: real): (q: Point)
    ensures PulledAlong(v.x, q.x, fillet, trig.cos(Bisector(trig, thetaI, thetaF)))
    ensures PulledAlong(v.y, q.y, fillet, trig.sin(Bisector(trig, thetaI, thetaF)))
    ensures fillet >= 0.0 && UnitAt(trig, Bisector(trig, thetaI, thetaF)) ==>
              Abs(q.x - v.x) <= fillet && Abs(q.y - v.y) <= fillet
  {
    var theta := Bisector(trig, thetaI, thetaF);
    var c := trig.cos(theta);
    var s := trig.sin(theta);
    var q := Point(v.x - ArcOffset(fillet, c), v.y - ArcOffset(fillet, s));
    CornerPull(fillet, c, v.x, q.x);
    CornerPull(fillet, s, v.y, q.y);
    assert c * c + s * s == 1.0 ==> -1.0 <= c <= 1.0 && -1.0 <= s <= 1.0 by {
      if c * c + s * s == 1.0 { UnitBounds(c, s); }
    }
    q
  }

  /** The placement for interior vertex `points[i + 1]`, if any. Only the
      incoming segment's quantised length is tested against the fillet
      radius and the minimum spacing; the position starts from the vertex
      as given, not its quantised copy. */
  function CornerAt(trig: Trig, points: seq<Point>, angles: seq<real>, p: Params, i: nat): (r: Option<Placement>)
    requires ValidParams(p) && i + 2 < |points| && |angles| == |points| - 1
    ensures r.Some? <==> Length(trig, SegmentOf(points, i, p.precision)) >= Max(p.fillet, p.minSpacing)
    ensures r.Some? ==> r.value.angle == trig.degrees((angles[i] + angles[i + 1]) / 2.0)
    ensures r.Some? ==>
              PulledAlong(points[i + 1].x, r.value.x, p.fillet, trig.cos(Bisector(trig, angles[i], angles[i + 1]))) &&
              PulledAlong(points[i + 1].y, r.value.y, p.fillet, trig.sin(Bisector(trig, angles[i], angles[i + 1])))
    ensures r.Some? && p.fillet >= 0.0 && UnitAt(trig, Bisector(trig, angles[i], angles[i + 1])) ==>
              Abs(r.value.x - points[i + 1].x) <= p.fillet &&
              Abs(r.value.y - points[i + 1].y) <= p.fillet
  {
    var magDl := Length(trig, SegmentOf(points, i, p.precision));
    if magDl < p.fillet || magDl < p.minSpacing then None
    else
      var thetaF := angles[i + 1];
      var thetaI := angles[i];
      var q := CornerPosition(trig, points[i + 1], thetaI, thetaF, p.fillet);
      Some(Placement(q.x, q.y, trig.degrees((thetaF + thetaI) / 2.0)))
  }

  /** The corner candidates `i = 0 .. len(points) - 3`, one per interior
      vertex. */
  function Corners(trig: Trig, points: seq<Point>, p: Params): (cs: seq<Option<Placement>>)
    requires ValidParams(p) && |points| > 2
    ensures |cs| == |points| - 2
    ensures forall i :: 0 <= i < |cs| ==>
              cs[i] == CornerAt(trig, points, SegmentAngles(trig, points, p.precision), p, i)
  {
    var angles := SegmentAngles(trig, points, p.precision);
    seq(|points| - 2, i requires 0 <= i < |points| - 2 => CornerAt(trig, points, angles, p, i))
  }

  /** The corner pass: the placements of the corners that pass the
      length test, in vertex order. */
  function CornerPass(trig: Trig, points: seq<Point>, p: Params): (r: seq<Placement>)
    requires ValidParams(p) && |points| > 2
    ensures |r| <= |points| - 2
  {
    Somes(Corners(trig, points, p))
  }

  /** A placement comes out of the corner pass exactly when some interior
      vertex produced it. */
  lemma CornerPassMembership(trig: Trig, points: seq<Point>, p: Params, pl: Placement)
    requires ValidParams(p) && |points| > 2
    ensures pl in CornerPass(trig, points, p) <==>
              exists i :: 0 <= i < |points| - 2 &&
                CornerAt(trig, points, SegmentAngles(trig, points, p.precision), p, i) == Some(pl)
  {
    SomesMembership(Corners(trig, points, p), pl);
  }

  /** The corner pass holds one placement for each interior vertex that
      passes the length test, and no other. */
  lemma CornerPassCount(trig: Trig, points: seq<Point>, p: Params)
    requires ValidParams(p) && |points| > 2
    ensures |CornerPass(trig, points, p)| ==
              |set i | 0 <= i < |points| - 2 &&
                 CornerAt(trig, points, SegmentAngles(trig, points, p.precision), p, i).Some?|
  {
    var cs := Corners(trig, points, p);
    SomesCount(cs);
    assert (set i | 0 <= i < |cs| && cs[i].Some?) ==
           set i | 0 <= i < |points| - 2 &&
             CornerAt(trig, points, SegmentAngles(trig, points, p.precision), p, i).Some?;
  }

  /** The placement of interior vertex `i`, when it has one, comes right
      after the placements of the vertices before it: the corner pass keeps
      vertex order and gives each vertex its own slot. */
  lemma CornerPassInOrder(trig: Trig, points: seq<Point>, p: Params, i: nat)
    requires ValidParams(p) && |points| > 2 && i < |points| - 2
    requires CornerAt(trig, points, SegmentAngles(trig, points, p.precision), p, i).Some?
    ensures |Somes(Corners(trig, points, p)[..i])| < |CornerPass(trig, points, p)|
    ensures CornerPass(trig, points, p)[|Somes(Corners(trig, points, p)[..i])|] ==
              CornerAt(trig, points, SegmentAngles(trig, points, p.precision), p, i).value
  {
    SomesAt(Corners(trig, points, p), i);
  }

  /** When every incoming segment passes the length test, each interior
      vertex gets its placement. */
  lemma CornerPassAllLong(trig: Trig, points: seq<Point>, p: Params)
    requires ValidParams(p) && |points| > 2
    requires forall i :: 0 <= i < |points| - 2 ==>
               Length(trig, SegmentOf(points, i, p.precision)) >= Max(p.fillet, p.minSpacing)
    ensures |CornerPass(trig, points, p)| == |points| - 2
  {
    SomesAll(Corners(trig, points, p));
  }

  // ---------------------------------------------------------------------
  // The whole plan
  // ---------------------------------------------------------------------

  /** All placements for one route: the straight pass over every segment,
      followed, when the route has interior vertices, by the corner pass. */
  function Plan(trig: Trig, points: seq<Point>, p: Params): (r: seq<Placement>)
    requires ValidParams(p)
    ensures |points| < 2 ==> r == []
    ensures |points| >= 2 ==> |points| - 1 <= |r|
    ensures StraightPass(trig, points, p) <= r
    ensures |r| - |StraightPass(trig, points, p)| <= if |points| > 2 then |points| - 2 else 0
    ensures r[|StraightPass(trig, points, p)|..] == if |points| > 2 then CornerPass(trig, points, p) else []
  {
    var straight := StraightPass(trig, points, p);
    if |points| > 2 then straight + CornerPass(trig, points, p) else straight
  }

  /** A two-vertex route gets exactly the run of its single segment. */
  lemma PlanOfOneSegment(trig: Trig, points: seq<Point>, p: Params)
    requires ValidParams(p) && |points| == 2
    ensures Plan(trig, points, p) == SegmentRun(trig, SegmentOf(points, 0, p.precision), p)
  {
    var runs := SegmentRuns(trig, points, p);
    assert runs[..0] == [];
    assert Flatten(runs) == Flatten(runs[..0]) + runs[0];
  }

  // ---------------------------------------------------------------------
  // Fresh component name
  // ---------------------------------------------------------------------

  const BaseName: string := "initial_name"

  function Ones(k: nat): (r: string)
    ensures |r| == k && forall j :: 0 <= j < k ==> r[j] == '1'
  {
    seq(k, _ => '1')
  }

  /** A component name not yet taken: `initial_name` followed by the
      fewest `1`s that make it new. */
  method FreshName(taken: set<string>) returns (name: string, suffix: nat)
    ensures name == BaseName + Ones(suffix)
    ensures name !in taken
    ensures forall j :: 0 <= j < suffix ==> BaseName + Ones(j) in taken
  {
    name := BaseName;
    suffix := 0;
    while name in taken
      invariant name == BaseName + Ones(suffix)
      invariant forall j :: 0 <= j < suffix ==> BaseName + Ones(j) in taken
      decreases set s | s in taken && |s| >= |name|
    {
      assert Ones(suffix) + "1" == Ones(suffix + 1);
      ghost var before := set s | s in taken && |s| >= |name|;
      assert name in before;
      name := name + "1";
      assert (set s | s in taken && |s| >= |name|) <= before - {BaseName + Ones(suffix)};
      suffix := suffix + 1;
    }
  }
}
