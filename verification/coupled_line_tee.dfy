/** The coupled-line tee (`CoupledLineTeeCustom.make`) in its own frame:
    the conductor centrelines of the prime and secondary lines, the
    centrelines their etch regions are buffered from, which geometry is
    registered and which pins are added with which vertex pairs.

    The buffering of the etch centrelines into polygons, and the final
    rotation and translation, are not modelled; pins pick vertices of the
    centrelines, and picking commutes with moving every vertex. */
module CoupledLineTee {
  import opened Geometry
  import opened Seqs

  /** The component's options, already parsed to numbers. */
  datatype Options = Options(
    primeWidth: real,
    primeGap: real,
    primeLength: real,
    primeDownLength: real,
    secondWidth: real,
    secondGap: real,
    secondLength: real,
    secondDownLength: real,
    couplingSpace: real,
    couplingShift: real,
    fillet: real,
    mirror: bool,
    secondOpenTermination: bool,
    primeOpenTermination: bool,
    drawPrime: bool,
    primeDownConnection: int)

  datatype Pin = Pin(name: string, points: seq<Point>, width: real)

  /** One row of the component's geometry tables: a conductor path drawn
      along a centreline with a width and a fillet radius, or an etch
      polygon buffered around a centreline, possibly subtracted from the
      ground plane. */
  datatype Entry =
    | PathEntry(name: string, centreline: seq<Point>, width: real, fillet: real)
    | PolyEntry(name: string, centreline: seq<Point>, subtract: bool)

  /** Everything `make` produces: the four centrelines, the registered
      geometry entries and the pins, in the order they are added. */
  datatype Tee = Tee(
    prime: seq<Point>,
    primeEtch: seq<Point>,
    second: seq<Point>,
    secondEtch: seq<Point>,
    entries: seq<Entry>,
    pins: seq<Pin>)

  /** The names of `entries`, in order. */
  function EntryNames(entries: seq<Entry>): (r: seq<string>)
    ensures |r| == |entries| && forall k :: 0 <= k < |entries| ==> r[k] == entries[k].name
  {
    seq(|entries|, k requires 0 <= k < |entries| => entries[k].name)
  }

  /** The first entry called `name`, if any. */
  function EntryOf(entries: seq<Entry>, name: string): Option<Entry>
  {
    if |entries| == 0 then None
    else if entries[0].name == name then Some(entries[0])
    else EntryOf(entries[1..], name)
  }

  /** The prime line has a vertical stub, and `prime_down_connection`
      names an end for it. */
  predicate PrimeHasStub(o: Options)
  {
    o.primeDownLength != 0.0
  }

  /** `prime_cpw` is left unbound, and `make` fails, when the prime line
      has a stub but the connection is neither end. */
  predicate PrimeUnbound(o: Options)
  {
    PrimeHasStub(o) && o.primeDownConnection != 0 && o.primeDownConnection != 1
  }

  /** The horizontal part of the prime line: length `prime_length`,
      centred on the origin along the x-axis. */
  predicate PrimeRun(a: Point, b: Point, o: Options)
  {
    a == Point(-o.primeLength / 2.0, 0.0) && b == Point(o.primeLength / 2.0, 0.0)
  }

  /** `stubEnd` lies `prime_down_length` straight above `end`. */
  predicate StubAbove(stubEnd: Point, end: Point, down: real)
  {
    stubEnd.x == end.x && stubEnd.y - end.y == down
  }

  /** The prime conductor centreline. Without a stub it is the bare run;
      otherwise a stub rises from the left end (connection 0) or the
      right end (connection 1). */
  function PrimeLine(o: Options): (r: Option<seq<Point>>)
    ensures r.None? <==> PrimeUnbound(o)
    ensures r.Some? && !PrimeHasStub(o) ==> |r.value| == 2 && PrimeRun(r.value[0], r.value[1], o)
    ensures r.Some? && PrimeHasStub(o) && o.primeDownConnection == 0 ==>
              |r.value| == 3 && PrimeRun(r.value[1], r.value[2], o) &&
              StubAbove(r.value[0], r.value[1], o.primeDownLength)
    ensures r.Some? && PrimeHasStub(o) && o.primeDownConnection == 1 ==>
              |r.value| == 3 && PrimeRun(r.value[0], r.value[1], o) &&
              StubAbove(r.value[2], r.value[1], o.primeDownLength)
  {
    var h := o.primeLength / 2.0;
    if o.primeDownLength == 0.0 then
      Some([Point(-h, 0.0), Point(h, 0.0)])
    else if o.primeDownConnection == 0 then
      Some([Point(-h, o.primeDownLength), Point(-h, 0.0), Point(h, 0.0)])
    else if o.primeDownConnection == 1 then
      Some([Point(-h, 0.0), Point(h, 0.0), Point(h, o.primeDownLength)])
    else
      None
  }

  /** How far an open termination pushes the etch past the conductor. */
  function Termination(open: bool, gap: real): real
  {
    if open then gap else 0.0
  }

  /** The prime etch centreline: as the conductor, but the end without a
      stub reaches out by the termination length. */
  function PrimeEtchLine(o: Options): Option<seq<Point>>
  {
    var h := o.primeLength / 2.0;
    var t := Termination(o.primeOpenTermination, o.primeGap);
    if o.primeDownLength == 0.0 then
      Some([Point(-h - t, 0.0), Point(h, 0.0)])
    else if o.primeDownConnection == 0 then
      Some([Point(-h, o.primeDownLength), Point(-h, 0.0), Point(h + t, 0.0)])
    else if o.primeDownConnection == 1 then
      Some([Point(-h - t, 0.0), Point(h, 0.0), Point(h, o.primeDownLength)])
    else
      None
  }

  /** Index of the prime line's vertex at the end without a stub, and the
      outward x direction there. */
  function PrimeFreeEnd(o: Options): (nat, real)
  {
    if PrimeHasStub(o) && o.primeDownConnection == 0 then (2, 1.0) else (0, -1.0)
  }

  /** `l` and `e` agree except at vertex `i`, where `e` lies `d` further
      along x. */
  predicate SameExceptEnd(l: seq<Point>, e: seq<Point>, i: nat, d: real)
  {
    |e| == |l| && i < |l| &&
    (forall k :: 0 <= k < |l| && k != i ==> e[k] == l[k]) &&
    e[i] == Point(l[i].x + d, l[i].y)
  }

  /** The prime etch centreline is defined exactly when the conductor is,
      and differs from it only at the free end, pushed outward by the gap
      when the termination is open and not at all when it is shorted. */
  lemma PrimeEtchFollowsLine(o: Options)
    ensures PrimeEtchLine(o).Some? <==> PrimeLine(o).Some?
    ensures PrimeLine(o).Some? ==>
              var (i, dir) := PrimeFreeEnd(o);
              SameExceptEnd(PrimeLine(o).value, PrimeEtchLine(o).value, i,
                            dir * Termination(o.primeOpenTermination, o.primeGap))
  {
  }

  function SecondFlip(o: Options): real
  {
    if o.mirror then -1.0 else 1.0
  }

  /** The y of the secondary line: below the prime by half of each width,
      both gaps and the coupling space. */
  function SecondY(o: Options): real
  {
    -o.primeWidth / 2.0 - o.primeGap - o.couplingSpace - o.secondGap - o.secondWidth / 2.0
  }

  /** The etch of the prime line and the etch of the secondary line are
      exactly `coupling_space` apart. */
  lemma CouplingSpaceBetweenEtches(o: Options)
    ensures (0.0 - (o.primeWidth / 2.0 + o.primeGap)) - (SecondY(o) + o.secondWidth / 2.0 + o.secondGap)
            == o.couplingSpace
  {
  }

  /** The secondary conductor centreline: a horizontal run of
      `second_length` starting at the shifted left end of the prime run,
      then a stub of `second_down_length` straight down; mirroring flips
      the x direction. */
  function SecondLine(o: Options): (r: seq<Point>)
    ensures |r| == 3
    ensures r[0] == Point(SecondFlip(o) * (-o.primeLength / 2.0 + o.couplingShift), SecondY(o))
    ensures r[1].y == r[0].y && r[1].x - r[0].x == SecondFlip(o) * o.secondLength
    ensures r[2].x == r[1].x && r[1].y - r[2].y == o.secondDownLength
  {
    var f := SecondFlip(o);
    var y := SecondY(o);
    var xEnd := f * (o.secondLength - o.primeLength / 2.0 + o.couplingShift);
    [Point(f * (-o.primeLength / 2.0 + o.couplingShift), y), Point(xEnd, y), Point(xEnd, y - o.secondDownLength)]
  }

  /** The secondary etch centreline: as the conductor, but its first
      vertex reaches out by the termination length. */
  function SecondEtchLine(o: Options): seq<Point>
  {
    var f := SecondFlip(o);
    var y := SecondY(o);
    var t := Termination(o.secondOpenTermination, o.secondGap);
    var xEnd := f * (o.secondLength - o.primeLength / 2.0 + o.couplingShift);
    [Point(f * (-o.primeLength / 2.0 + o.couplingShift - t), y), Point(xEnd, y), Point(xEnd, y - o.secondDownLength)]
  }

  /** The secondary etch differs from the conductor only at the start,
      pushed outward, away from the run, by the gap when open. */
  lemma SecondEtchFollowsLine(o: Options)
    ensures SameExceptEnd(SecondLine(o), SecondEtchLine(o), 0,
                          -SecondFlip(o) * Termination(o.secondOpenTermination, o.secondGap))
  {
  }

  function MirrorX(s: seq<Point>): (r: seq<Point>)
    ensures |r| == |s| && forall k :: 0 <= k < |s| ==> r[k] == Point(-s[k].x, s[k].y)
  {
    seq(|s|, k requires 0 <= k < |s| => Point(-s[k].x, s[k].y))
  }

  /** Mirroring reflects the secondary line and its etch in the y-axis and
      changes nothing else. */
  lemma MirrorNegatesX(o: Options)
    ensures SecondLine(o.(mirror := true)) == MirrorX(SecondLine(o.(mirror := false)))
    ensures SecondEtchLine(o.(mirror := true)) == MirrorX(SecondEtchLine(o.(mirror := false)))
    ensures PrimeLine(o.(mirror := true)) == PrimeLine(o.(mirror := false))
    ensures PrimeEtchLine(o.(mirror := true)) == PrimeEtchLine(o.(mirror := false))
  {
    assert SecondLine(o.(mirror := true)) == MirrorX(SecondLine(o.(mirror := false)));
    assert SecondEtchLine(o.(mirror := true)) == MirrorX(SecondEtchLine(o.(mirror := false)));
  }

  /** The pins of the prime line, when it is drawn. */
  function PrimePins(o: Options, prime: seq<Point>): seq<Pin>
    requires |prime| >= 2
  {
    var first2Reversed := [prime[1], prime[0]];
    var fromSecond := prime[1..];
    var w := o.primeWidth;
    if o.primeDownLength == 0.0 then
      [Pin("prime_out", prime, w)] +
      (if !o.primeOpenTermination then [Pin("prime_in", Reverse(prime), w)] else [])
    else if o.primeDownConnection == 0 then
      [Pin("prime_out", first2Reversed, w)] +
      (if !o.primeOpenTermination then [Pin("prime_in", fromSecond, w)] else [])
    else if o.primeDownConnection == 1 then
      [Pin("prime_out", fromSecond, w)] +
      (if !o.primeOpenTermination then [Pin("prime_in", first2Reversed, w)] else [])
    else
      []
  }

  /** The pins of the secondary line. */
  function SecondPins(o: Options, second: seq<Point>): seq<Pin>
    requires |second| >= 2
  {
    [Pin("second_out", second[1..], o.secondWidth)] +
    (if !o.secondOpenTermination then [Pin("second_in", [second[1], second[0]], o.secondWidth)] else [])
  }

  /** The prime line's entries: its conductor path and its subtracted etch. */
  function PrimeEntries(o: Options, prime: seq<Point>, primeEtch: seq<Point>): seq<Entry>
  {
    [PathEntry("prime_cpw", prime, o.primeWidth, o.fillet), PolyEntry("prime_cpw_sub", primeEtch, true)]
  }

  /** The secondary line's entries: its conductor path and its subtracted
      etch. */
  function SecondEntries(o: Options, second: seq<Point>, secondEtch: seq<Point>): seq<Entry>
  {
    [PathEntry("second_cpw", second, o.secondWidth, o.fillet), PolyEntry("second_cpw_sub", secondEtch, true)]
  }

  /** Builds the tee, or fails where Python would stop on the unbound
      prime centreline. */
  function Make(o: Options): (r: Option<Tee>)
    ensures r.None? <==> PrimeUnbound(o)
    ensures r.Some? ==> Some(r.value.prime) == PrimeLine(o) && Some(r.value.primeEtch) == PrimeEtchLine(o)
    ensures r.Some? ==> r.value.second == SecondLine(o) && r.value.secondEtch == SecondEtchLine(o)
    ensures r.Some? ==> "second_cpw" in EntryNames(r.value.entries) &&
                        "second_cpw_sub" in EntryNames(r.value.entries)
    ensures r.Some? ==> ("prime_cpw" in EntryNames(r.value.entries) <==> o.drawPrime) &&
                        ("prime_cpw_sub" in EntryNames(r.value.entries) <==> o.drawPrime)
    ensures r.Some? ==> |r.value.entries| == if o.drawPrime then 4 else 2
  {
    match PrimeLine(o)
    case None => None
    case Some(prime) =>
      assert PrimeEtchLine(o).Some?;
      var primeEtch := PrimeEtchLine(o).value;
      var second := SecondLine(o);
      var primeEntries := if o.drawPrime then PrimeEntries(o, prime, primeEtch) else [];
      assert "prime_cpw"[0] != "second_cpw"[0] && "prime_cpw_sub"[0] != "second_cpw_sub"[0];
      assert "prime_cpw"[0] != "second_cpw_sub"[0] && "prime_cpw_sub"[0] != "second_cpw"[0];
      var primePins := if o.drawPrime then PrimePins(o, prime) else [];
      var entries := primeEntries + SecondEntries(o, second, SecondEtchLine(o));
      assert EntryNames(entries) ==
        (if o.drawPrime then ["prime_cpw", "prime_cpw_sub"] else []) + ["second_cpw", "second_cpw_sub"];
      Some(Tee(prime, primeEtch, second, SecondEtchLine(o),
               entries,
               primePins + SecondPins(o, second)))
  }

  /** The names of `pins`, in order. */
  function PinNames(pins: seq<Pin>): (r: seq<string>)
    ensures |r| == |pins| && forall k :: 0 <= k < |pins| ==> r[k] == pins[k].name
  {
    seq(|pins|, k requires 0 <= k < |pins| => pins[k].name)
  }

  /** The points of the first pin called `name`, if any. */
  function PinPoints(pins: seq<Pin>, name: string): Option<seq<Point>>
  {
    if |pins| == 0 then None
    else if pins[0].name == name then Some(pins[0].points)
    else PinPoints(pins[1..], name)
  }

  /** The pin table of the tee. `second_out` always exists and runs along
      the last two secondary vertices; `second_in` exists exactly for a
      shorted secondary termination and runs from the corner back along the
      first two vertices. Prime pins exist only when the prime line is
      drawn, `prime_in` only for a shorted prime termination: without a
      stub `prime_out` runs along the line and `prime_in` against it; with
      the stub on the left `prime_out` runs from the corner back to the stub
      and `prime_in` along the run; with the stub on the right it is the
      other way round. */
  lemma PinTable(o: Options)
    requires !PrimeUnbound(o)
    ensures var t := Make(o).value;
      PinNames(t.pins) ==
        (if o.drawPrime then ["prime_out"] + (if o.primeOpenTermination then [] else ["prime_in"]) else []) +
        ["second_out"] + (if o.secondOpenTermination then [] else ["second_in"])
    ensures var t := Make(o).value;
      forall j, k :: 0 <= j < k < |t.pins| ==> t.pins[j].name != t.pins[k].name
    ensures var t := Make(o).value;
      forall k :: 0 <= k < |t.pins| ==>
        t.pins[k].width == if t.pins[k].name == "second_out" || t.pins[k].name == "second_in"
                           then o.secondWidth else o.primeWidth
    ensures var t := Make(o).value;
      && PinPoints(t.pins, "second_out") == Some([t.second[1], t.second[2]])
      && PinPoints(t.pins, "second_in") ==
           (if o.secondOpenTermination then None else Some([t.second[1], t.second[0]]))
      && (!o.drawPrime ==> PinPoints(t.pins, "prime_out") == None && PinPoints(t.pins, "prime_in") == None)
      && (o.drawPrime && !PrimeHasStub(o) ==>
            PinPoints(t.pins, "prime_out") == Some(t.prime) &&
            PinPoints(t.pins, "prime_in") ==
              (if o.primeOpenTermination then None else Some([t.prime[1], t.prime[0]])))
      && (o.drawPrime && PrimeHasStub(o) && o.primeDownConnection == 0 ==>
            PinPoints(t.pins, "prime_out") == Some([t.prime[1], t.prime[0]]) &&
            PinPoints(t.pins, "prime_in") ==
              (if o.primeOpenTermination then None else Some([t.prime[1], t.prime[2]])))
      && (o.drawPrime && PrimeHasStub(o) && o.primeDownConnection == 1 ==>
            PinPoints(t.pins, "prime_out") == Some([t.prime[1], t.prime[2]]) &&
            PinPoints(t.pins, "prime_in") ==
              (if o.primeOpenTermination then None else Some([t.prime[1], t.prime[0]])))
  {
    var t := Make(o).value;
    var pp := if o.drawPrime then PrimePins(o, t.prime) else [];
    var sp := SecondPins(o, t.second);
    assert t.pins == pp + sp;
    assert t.second[1..] == [t.second[1], t.second[2]];
    SecondPinsLookup(o, t.second);
    if !PrimeHasStub(o) {
      assert Reverse(t.prime) == [t.prime[1], t.prime[0]];
    } else {
      assert t.prime[1..] == [t.prime[1], t.prime[2]];
    }
    if o.drawPrime {
      PrimePinsLookup(o, t.prime);
    }
    PinPointsConcat(pp, sp, "prime_out");
    PinPointsConcat(pp, sp, "prime_in");
    PinPointsConcat(pp, sp, "second_out");
    PinPointsConcat(pp, sp, "second_in");
    PinNamesInOrder(o, t.prime, t.second, pp, sp);
    PinWidths(o, t.prime, t.second, pp, sp);
  }

  /** The names of the tee's pins, which are four distinct strings, in the
      order the pins are added. */
  lemma PinNamesInOrder(o: Options, prime: seq<Point>, second: seq<Point>, pp: seq<Pin>, sp: seq<Pin>)
    requires |prime| >= 2 && |second| >= 2 && (o.drawPrime ==> PrimeLine(o) == Some(prime))
    requires pp == (if o.drawPrime then PrimePins(o, prime) else []) && sp == SecondPins(o, second)
    ensures PinNames(pp + sp) ==
        (if o.drawPrime then ["prime_out"] + (if o.primeOpenTermination then [] else ["prime_in"]) else []) +
        ["second_out"] + (if o.secondOpenTermination then [] else ["second_in"])
    ensures forall j, k :: 0 <= j < k < |pp + sp| ==> (pp + sp)[j].name != (pp + sp)[k].name
  {
    DistinctPinNames();
    var names := PinNames(pp + sp);
    assert names == PinNames(pp) + PinNames(sp);
  }
  /** Prime pins carry the prime width and secondary pins the secondary
      width. */
  lemma PinWidths(o: Options, prime: seq<Point>, second: seq<Point>, pp: seq<Pin>, sp: seq<Pin>)
    requires |prime| >= 2 && |second| >= 2
    requires pp == (if o.drawPrime then PrimePins(o, prime) else []) && sp == SecondPins(o, second)
    ensures forall k :: 0 <= k < |pp + sp| ==>
              (pp + sp)[k].width == if (pp + sp)[k].name == "second_out" || (pp + sp)[k].name == "second_in"
                                    then o.secondWidth else o.primeWidth
  {
    DistinctPinNames();
    assert forall k :: 0 <= k < |pp| ==>
             pp[k].width == o.primeWidth && (pp[k].name == "prime_out" || pp[k].name == "prime_in");
    assert forall k :: 0 <= k < |sp| ==>
             sp[k].width == o.secondWidth && (sp[k].name == "second_out" || sp[k].name == "second_in");
  }


  lemma DistinctPinNames()
    ensures "prime_out" != "prime_in" && "prime_out" != "second_out" && "prime_out" != "second_in"
    ensures "prime_in" != "second_out" && "prime_in" != "second_in" && "second_out" != "second_in"
  {
    assert "prime_out"[0] != "second_out"[0] && "prime_in"[0] != "second_in"[0];
    assert "prime_out"[0] != "second_in"[0] && "prime_in"[0] != "second_out"[0];
    assert "prime_out"[6] != "prime_in"[6] && "second_out"[7] != "second_in"[7];
  }

  lemma LookupOne(pin: Pin, name: string)
    ensures PinPoints([pin], name) == if pin.name == name then Some(pin.points) else None
  {
    assert [pin][1..] == [];
  }

  lemma LookupOptional(present: bool, pin: Pin, name: string)
    ensures PinPoints(if present then [pin] else [], name) ==
              if present && pin.name == name then Some(pin.points) else None
  {
    LookupOne(pin, name);
  }

  lemma SecondPinsLookup(o: Options, second: seq<Point>)
    requires |second| >= 2
    ensures PinPoints(SecondPins(o, second), "second_out") == Some(second[1..])
    ensures PinPoints(SecondPins(o, second), "second_in") ==
              if o.secondOpenTermination then None else Some([second[1], second[0]])
    ensures PinPoints(SecondPins(o, second), "prime_out") == None
    ensures PinPoints(SecondPins(o, second), "prime_in") == None
  {
    DistinctPinNames();
    var out := Pin("second_out", second[1..], o.secondWidth);
    var inn := Pin("second_in", [second[1], second[0]], o.secondWidth);
    var rest := if !o.secondOpenTermination then [inn] else [];
    assert SecondPins(o, second) == [out] + rest;
    forall name | name in {"second_out", "second_in", "prime_out", "prime_in"}
      ensures PinPoints(SecondPins(o, second), name) ==
                if PinPoints([out], name).Some? then PinPoints([out], name) else PinPoints(rest, name)
    {
      PinPointsConcat([out], rest, name);
    }
    LookupOne(out, "second_out");
    LookupOne(out, "second_in");
    LookupOne(out, "prime_out");
    LookupOne(out, "prime_in");
    LookupOptional(!o.secondOpenTermination, inn, "second_in");
    LookupOptional(!o.secondOpenTermination, inn, "prime_out");
    LookupOptional(!o.secondOpenTermination, inn, "prime_in");
  }

  lemma PrimePinsLookup(o: Options, prime: seq<Point>)
    requires |prime| >= 2
    ensures PinPoints(PrimePins(o, prime), "second_out") == None
    ensures PinPoints(PrimePins(o, prime), "second_in") == None
    ensures !PrimeHasStub(o) ==>
              PinPoints(PrimePins(o, prime), "prime_out") == Some(prime) &&
              PinPoints(PrimePins(o, prime), "prime_in") ==
                (if o.primeOpenTermination then None else Some(Reverse(prime)))
    ensures PrimeHasStub(o) && o.primeDownConnection == 0 ==>
              PinPoints(PrimePins(o, prime), "prime_out") == Some([prime[1], prime[0]]) &&
              PinPoints(PrimePins(o, prime), "prime_in") ==
                (if o.primeOpenTermination then None else Some(prime[1..]))
    ensures PrimeHasStub(o) && o.primeDownConnection == 1 ==>
              PinPoints(PrimePins(o, prime), "prime_out") == Some(prime[1..]) &&
              PinPoints(PrimePins(o, prime), "prime_in") ==
                (if o.primeOpenTermination then None else Some([prime[1], prime[0]]))
  {
    DistinctPinNames();
    var w := o.primeWidth;
    var present := !o.primeOpenTermination;
    var (outPts, inPts) :=
      if !PrimeHasStub(o) then (prime, Reverse(prime))
      else if o.primeDownConnection == 0 then ([prime[1], prime[0]], prime[1..])
      else (prime[1..], [prime[1], prime[0]]);
    if !PrimeUnbound(o) {
      var out := Pin("prime_out", outPts, w);
      var inn := Pin("prime_in", inPts, w);
      var rest := if present then [inn] else [];
      assert PrimePins(o, prime) == [out] + rest;
      forall name | name in {"second_out", "second_in", "prime_out", "prime_in"}
        ensures PinPoints(PrimePins(o, prime), name) ==
                  if PinPoints([out], name).Some? then PinPoints([out], name) else PinPoints(rest, name)
      {
        PinPointsConcat([out], rest, name);
      }
      LookupOne(out, "second_out");
      LookupOne(out, "second_in");
      LookupOne(out, "prime_out");
      LookupOne(out, "prime_in");
      LookupOptional(present, inn, "second_out");
      LookupOptional(present, inn, "second_in");
      LookupOptional(present, inn, "prime_in");
    } else {
      assert PrimePins(o, prime) == [];
    }
  }

  /** The entries of the tee, looked up by name: each conductor path lies
      along its centreline with its own line's width and the common fillet
      radius, and each etch polygon lies along its etch centreline and is
      subtracted. The prime entries exist exactly when the prime line is
      drawn. */
  lemma EntryTable(o: Options)
    requires !PrimeUnbound(o)
    ensures var t := Make(o).value;
      && EntryOf(t.entries, "second_cpw") == Some(PathEntry("second_cpw", t.second, o.secondWidth, o.fillet))
      && EntryOf(t.entries, "second_cpw_sub") == Some(PolyEntry("second_cpw_sub", t.secondEtch, true))
      && EntryOf(t.entries, "prime_cpw") ==
           (if o.drawPrime then Some(PathEntry("prime_cpw", t.prime, o.primeWidth, o.fillet)) else None)
      && EntryOf(t.entries, "prime_cpw_sub") ==
           (if o.drawPrime then Some(PolyEntry("prime_cpw_sub", t.primeEtch, true)) else None)
    ensures var t := Make(o).value;
      forall k :: 0 <= k < |t.entries| ==>
        (t.entries[k].PathEntry? ==> t.entries[k].fillet == o.fillet) &&
        (t.entries[k].PolyEntry? ==> t.entries[k].subtract)
  {
    var t := Make(o).value;
    var pe := if o.drawPrime then PrimeEntries(o, t.prime, t.primeEtch) else [];
    var se := SecondEntries(o, t.second, t.secondEtch);
    assert t.entries == pe + se;
    assert "prime_cpw"[0] != "second_cpw"[0] && "prime_cpw_sub"[0] != "second_cpw_sub"[0];
    assert "prime_cpw"[0] != "second_cpw_sub"[0] && "prime_cpw_sub"[0] != "second_cpw"[0];
    assert |"prime_cpw"| != |"prime_cpw_sub"| && |"second_cpw"| != |"second_cpw_sub"|;
    EntryOfPair(se[0], se[1], "second_cpw");
    EntryOfPair(se[0], se[1], "second_cpw_sub");
    EntryOfPair(se[0], se[1], "prime_cpw");
    EntryOfPair(se[0], se[1], "prime_cpw_sub");
    if o.drawPrime {
      EntryOfPair(pe[0], pe[1], "second_cpw");
      EntryOfPair(pe[0], pe[1], "second_cpw_sub");
      EntryOfPair(pe[0], pe[1], "prime_cpw");
      EntryOfPair(pe[0], pe[1], "prime_cpw_sub");
    } else {
      assert pe + se == se;
    }
    EntryOfConcat(pe, se, "second_cpw");
    EntryOfConcat(pe, se, "second_cpw_sub");
    EntryOfConcat(pe, se, "prime_cpw");
    EntryOfConcat(pe, se, "prime_cpw_sub");
  }

  lemma EntryOfPair(a: Entry, b: Entry, name: string)
    ensures EntryOf([a, b], name) ==
              if a.name == name then Some(a) else if b.name == name then Some(b) else None
  {
    assert [a, b][1..] == [b];
    assert [b][1..] == [];
    assert EntryOf([b], name) == if b.name == name then Some(b) else EntryOf([], name);
  }

  lemma {:induction false} EntryOfConcat(a: seq<Entry>, b: seq<Entry>, name: string)
    ensures EntryOf(a + b, name) == if EntryOf(a, name).Some? then EntryOf(a, name) else EntryOf(b, name)
  {
    if |a| > 0 {
      assert (a + b)[1..] == a[1..] + b;
      EntryOfConcat(a[1..], b, name);
    } else {
      assert a + b == b;
    }
  }

  lemma {:induction false} PinPointsConcat(a: seq<Pin>, b: seq<Pin>, name: string)
    ensures PinPoints(a + b, name) == if PinPoints(a, name).Some? then PinPoints(a, name) else PinPoints(b, name)
  {
    if |a| > 0 {
      assert (a + b)[1..] == a[1..] + b;
      PinPointsConcat(a[1..], b, name);
    } else {
      assert a + b == b;
    }
  }
}
