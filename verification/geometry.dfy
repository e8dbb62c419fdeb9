/** Planar vocabulary shared by the layout generators: points, axis-aligned
    boxes, an optional value, and the few numeric helpers the Python code
    borrows from its runtime (built-in `round`, `numpy.sign`, averages). */
module Geometry {

  datatype Option<T> = None | Some(value: T)

  datatype Point = Point(x: real, y: real)

  /** An axis-aligned box given by its lower-left and upper-right corners. */
  datatype Box = Box(minX: real, minY: real, maxX: real, maxY: real) {

    function Width(): real { maxX - minX }

    function Height(): real { maxY - minY }

    function CentreX(): real { (minX + maxX) / 2.0 }

    function CentreY(): real { (minY + maxY) / 2.0 }

    /** Every point of `other` lies in this box. */
    predicate Contains(other: Box)
    {
      minX <= other.minX && other.maxX <= maxX && minY <= other.minY && other.maxY <= maxY
    }

    /** The box is its own image under the point reflection through the origin. */
    predicate SymmetricAboutOrigin()
    {
      minX == -maxX && minY == -maxY
    }
  }

  /** The box `draw.rectangle(w, h, xoff, yoff)` describes: width `w`,
      height `h`, centred at `(xoff, yoff)`. */
  function Rectangle(w: real, h: real, xoff: real, yoff: real): (b: Box)
    ensures b.Width() == w && b.Height() == h
    ensures b.CentreX() == xoff && b.CentreY() == yoff
  {
    Box(xoff - w / 2.0, yoff - h / 2.0, xoff + w / 2.0, yoff + h / 2.0)
  }

  /** `draw.translate` of a box. */
  function Translate(b: Box, dx: real, dy: real): (t: Box)
    ensures t.Width() == b.Width() && t.Height() == b.Height()
    ensures t.CentreX() == b.CentreX() + dx && t.CentreY() == b.CentreY() + dy
  {
    Box(b.minX + dx, b.minY + dy, b.maxX + dx, b.maxY + dy)
  }

  function Abs(v: real): real
  {
    if v < 0.0 then -v else v
  }

  function Max(a: real, b: real): real
  {
    if a < b then b else a
  }

  /** `numpy.sign`: -1, 0 or 1, the factor that turns `v` into `|v|`. */
  function Sign(v: real): (r: real)
    ensures r == -1.0 || r == 0.0 || r == 1.0
    ensures r * v == Abs(v)
    ensures r == 0.0 <==> v == 0.0
  {
    if v < 0.0 then -1.0 else if v > 0.0 then 1.0 else 0.0
  }

  /** Python's built-in `round(x)` on a float: the nearest integer, with a
      tie going to the even neighbour. */
  function RoundHalfEven(x: real): (r: int)
    ensures Abs(r as real - x) <= 0.5
    ensures Abs(r as real - x) == 0.5 ==> r % 2 == 0
  {
    var f := x.Floor;
    var d := x - f as real;
    if d < 0.5 then f
    else if d > 0.5 then f + 1
    else if f % 2 == 0 then f
    else f + 1
  }

  /** The smallest integer not below `x`. */
  function Ceil(x: real): (c: int)
    ensures x <= c as real < x + 1.0
  {
    -((-x).Floor)
  }

  /** `n` copies of `x` laid end to end, `n · x`. The product is kept
      behind a function so that it stays out of the solver's linear
      reasoning; the lemmas below give the facts the proofs need. */
  function Times(n: int, x: real): real
  {
    n as real * x
  }

  lemma TimesSucc(n: int, x: real)
    ensures Times(n + 1, x) == Times(n, x) + x
  {
  }

  /** Multiplying by a non-negative factor keeps the order. */
  lemma ScaleBound(a: real, b: real, c: real)
    requires a <= b && c >= 0.0
    ensures a * c <= b * c
  {
    assert b * c - a * c == (b - a) * c;
  }

  lemma TimesMonotone(a: int, b: int, x: real)
    requires a <= b && x >= 0.0
    ensures Times(a, x) <= Times(b, x)
  {
    ScaleBound(a as real, b as real, x);
  }

  /** For a positive `x`, `n · x` compares with `d` as `n` compares with
      the quotient `d / x`. */
  lemma TimesBelowIff(n: real, x: real, d: real)
    requires x > 0.0
    ensures n * x < d <==> n < d / x
    ensures n * x <= d <==> n <= d / x
  {
    var q := d / x;
    assert d == q * x;
    if n < q {
      assert (q - n) * x > 0.0;
    } else if n > q {
      assert (n - q) * x > 0.0;
    }
  }

  function Sum(s: seq<real>): real
  {
    if |s| == 0 then 0.0 else s[0] + Sum(s[1..])
  }

  /** `numpy.average` of a non-empty list. */
  function Mean(s: seq<real>): real
    requires |s| > 0
  {
    Sum(s) / |s| as real
  }

  /** Every element moved by the same amount `d`. */
  function Shift(s: seq<real>, d: real): (r: seq<real>)
    ensures |r| == |s|
    ensures forall k :: 0 <= k < |s| ==> r[k] - s[k] == d
  {
    seq(|s|, k requires 0 <= k < |s| => s[k] + d)
  }

  /** Shifting every element by `d` shifts the sum by `|s|·d`. */
  lemma {:induction false} SumShift(s: seq<real>, d: real)
    ensures Sum(Shift(s, d)) == Sum(s) + |s| as real * d
  {
    if |s| > 0 {
      assert Shift(s, d)[1..] == Shift(s[1..], d);
      SumShift(s[1..], d);
    }
  }

  /** Shifting every element by `d` shifts the mean by `d`. */
  lemma MeanShift(s: seq<real>, d: real)
    requires |s| > 0
    ensures Mean(Shift(s, d)) == Mean(s) + d
  {
    SumShift(s, d);
    var n := |s| as real;
    calc {
      Mean(Shift(s, d));
      (Sum(s) + n * d) / n;
      Sum(s) / n + d;
    }
  }
}
