/** The airbridge footprint (`Airbridge_forGDS.make`) in its own frame,
    before the rotation and translation that place it: two landing squares,
    the bridge between them and an outer clearance rectangle. */
module AirbridgeFootprint {
  import opened Geometry

  /** The component's options, already parsed to millimetres. */
  datatype Options = Options(
    crossoverLength: real,
    innerLength: real,
    outerBuffer: real,
    squareLayer: int,
    bridgeLayer: int,
    outerLayer: int)

  /** The four boxes of one footprint. */
  datatype Boxes = Boxes(bridge: Box, leftInner: Box, rightInner: Box, outer: Box)

  /** One entry of the component's polygon table. */
  datatype Shape = Shape(name: string, parts: seq<Box>, layer: int, subtract: bool)

  /** The boxes `make` draws. The bridge is as wide as a landing square;
      the squares sit on either side of the crossover, their inner edges
      exactly one crossover length apart and their outer edges flush with
      the bridge's ends; the outer rectangle clears the bridge by the
      buffer on every side; every shape is centred on the origin or has
      its mirror image there. With non-negative sizes the squares lie
      inside the bridge and the bridge inside the outer rectangle. */
  function MakeBoxes(o: Options): (b: Boxes)
    ensures b.bridge.Width() == o.crossoverLength + 2.0 * o.innerLength
    ensures b.bridge.Height() == o.innerLength
    ensures b.leftInner.Width() == o.innerLength && b.leftInner.Height() == o.innerLength
    ensures b.rightInner.Width() == o.innerLength && b.rightInner.Height() == o.innerLength
    ensures b.leftInner.CentreX() == -(o.crossoverLength / 2.0 + o.innerLength / 2.0)
    ensures b.rightInner.CentreX() == o.crossoverLength / 2.0 + o.innerLength / 2.0
    ensures b.leftInner.CentreY() == 0.0 && b.rightInner.CentreY() == 0.0
    ensures b.leftInner.maxX == -o.crossoverLength / 2.0 && b.rightInner.minX == o.crossoverLength / 2.0
    ensures b.rightInner.minX - b.leftInner.maxX == o.crossoverLength
    ensures b.leftInner.minX == b.bridge.minX && b.rightInner.maxX == b.bridge.maxX
    ensures b.bridge.maxX == o.crossoverLength / 2.0 + o.innerLength
    ensures b.outer.minX == b.bridge.minX - o.outerBuffer && b.outer.maxX == b.bridge.maxX + o.outerBuffer
    ensures b.outer.minY == b.bridge.minY - o.outerBuffer && b.outer.maxY == b.bridge.maxY + o.outerBuffer
    ensures b.bridge.SymmetricAboutOrigin() && b.outer.SymmetricAboutOrigin()
    ensures b.leftInner == Box(-b.rightInner.maxX, -b.rightInner.maxY, -b.rightInner.minX, -b.rightInner.minY)
    ensures o.crossoverLength >= 0.0 && o.innerLength >= 0.0 && o.outerBuffer >= 0.0 ==>
              b.bridge.Contains(b.leftInner) && b.bridge.Contains(b.rightInner) && b.outer.Contains(b.bridge)
  {
    var bridgeWidth := o.innerLength;
    var square := Rectangle(o.innerLength, o.innerLength, 0.0, 0.0);
    var right := Translate(square, o.crossoverLength / 2.0 + o.innerLength / 2.0, 0.0);
    var left := Translate(square, -(o.crossoverLength / 2.0 + o.innerLength / 2.0), 0.0);
    var outer := Rectangle(o.crossoverLength + 2.0 * o.innerLength + 2.0 * o.outerBuffer,
                           bridgeWidth + 2.0 * o.outerBuffer, 0.0, 0.0);
    var bridge := Rectangle(o.crossoverLength + 2.0 * o.innerLength, bridgeWidth, 0.0, 0.0);
    Boxes(bridge, left, right, outer)
  }

  /** The polygon table `make` registers: the bridge on the bridge layer,
      the union of the two squares on the square layer, and the outer
      rectangle on the outer layer, none of them a subtraction. */
  function Make(o: Options): (shapes: seq<Shape>)
    ensures |shapes| == 3
    ensures shapes[0].name == "bridge_struct" && shapes[0].layer == o.bridgeLayer
    ensures shapes[1].name == "inside_struct" && shapes[1].layer == o.squareLayer
    ensures shapes[2].name == "outside_struct" && shapes[2].layer == o.outerLayer
    ensures forall k :: 0 <= k < 3 ==> !shapes[k].subtract
    ensures shapes[0].parts == [MakeBoxes(o).bridge]
    ensures shapes[1].parts == [MakeBoxes(o).leftInner, MakeBoxes(o).rightInner]
    ensures shapes[2].parts == [MakeBoxes(o).outer]
  {
    var b := MakeBoxes(o);
    [ Shape("bridge_struct", [b.bridge], o.bridgeLayer, false),
      Shape("inside_struct", [b.leftInner, b.rightInner], o.squareLayer, false),
      Shape("outside_struct", [b.outer], o.outerLayer, false) ]
  }
}
