/** The port layer of the viewer (createPortsContainer in
    client/components/viewer/DEFViewer.js): which ports are drawn, the side
    of the chip each port box is taken to lie on, and the direction
    triangles drawn next to it. Polygon coordinates, fills and click
    handlers are not modelled. */
module PortIndicators {
  import opened Wrappers
  import Transform
  import WireShapes

  /** The PortDirection values. */
  const Input: int := 0
  const Output: int := 1
  const InOut: int := 2
  const FeedThru: int := 3

  datatype Side = Top | Right | Bottom | Left

  /** The way the tip of a direction triangle points on the canvas. */
  datatype Arrow = PointsUp | PointsRight | PointsDown | PointsLeft

  type Box = Transform.Rect<()>

  /** A block pin: special or not, its direction, and the IDs of its
      geometries. */
  datatype Port = Port(isSpecial: bool, direction: int, geometries: seq<int>)

  /** A drawn port box: its port's position in the pin list, its position
      among the port's boxes, its side and its triangles. */
  datatype PortShape = PortShape(port: nat, box: nat, side: Side, arrows: seq<Arrow>)

  function Abs(r: real): (a: real)
    ensures a >= 0.0 && (a == r || a == -r)
  {
    if r < 0.0 then -r else r
  }

  /** How far the box corner (x, y) is from a side of the stage. */
  function Distance(side: Side, x: real, y: real, stageWidth: real, stageHeight: real): real {
    match side
    case Left => Abs(x)
    case Right => Abs(x - stageWidth)
    case Top => Abs(y)
    case Bottom => Abs(y - stageHeight)
  }

  /** The order in which sides are tried; an earlier side wins a tie. */
  function Precedence(side: Side): int {
    match side
    case Left => 0
    case Right => 1
    case Top => 2
    case Bottom => 3
  }

  /** The side chosen for a box: Left, replaced by Right, Top and Bottom in
      turn whenever one is strictly nearer than the best so far. */
  function NearestSide(x: real, y: real, stageWidth: real, stageHeight: real): (side: Side)
    ensures forall t: Side :: Distance(side, x, y, stageWidth, stageHeight) <= Distance(t, x, y, stageWidth, stageHeight)
    ensures forall t: Side :: Precedence(t) < Precedence(side) ==>
      Distance(t, x, y, stageWidth, stageHeight) > Distance(side, x, y, stageWidth, stageHeight)
  {
    var best1 := (Left, Abs(x));
    var best2 := if Abs(x - stageWidth) < best1.1 then (Right, Abs(x - stageWidth)) else best1;
    var best3 := if Abs(y) < best2.1 then (Top, Abs(y)) else best2;
    if Abs(y - stageHeight) < best3.1 then Bottom else best3.0
  }

  /** The triangle of an input: into the chip, away from the nearest side. */
  function Inward(side: Side): Arrow {
    match side
    case Top => PointsDown
    case Bottom => PointsUp
    case Left => PointsRight
    case Right => PointsLeft
  }

  /** The triangle of an output: out of the chip, towards the nearest side. */
  function Outward(side: Side): Arrow {
    match side
    case Top => PointsUp
    case Bottom => PointsDown
    case Left => PointsLeft
    case Right => PointsRight
  }

  /** The triangles drawn for a box of a port of direction `direction`. */
  function Arrows(direction: int, side: Side, disabled: bool): (r: seq<Arrow>)
    ensures disabled ==> r == []
    ensures !disabled && direction == Input ==> r == [Inward(side)]
    ensures !disabled && direction == Output ==> r == [Outward(side)]
    ensures !disabled && direction == InOut ==> |r| == 2 && {r[0], r[1]} == {Inward(side), Outward(side)}
    ensures direction !in {Input, Output, InOut} ==> r == []
  {
    if disabled then []
    else if direction == Input then
      match side
      case Top => [PointsDown]
      case Bottom => [PointsUp]
      case Left => [PointsRight]
      case Right => [PointsLeft]
    else if direction == Output then
      match side
      case Top => [PointsUp]
      case Bottom => [PointsDown]
      case Left => [PointsLeft]
      case Right => [PointsRight]
    else if direction == InOut then
      if side == Top || side == Bottom then [PointsDown, PointsUp] else [PointsRight, PointsLeft]
    else []
  }

  /** Inward and outward always point opposite ways. */
  lemma InwardOppositeOutward(side: Side)
    ensures Inward(side) != Outward(side)
    ensures Inward(side) == Opposite(Outward(side))
  {
  }

  function Opposite(a: Arrow): (b: Arrow)
    ensures b != a
  {
    match a
    case PointsUp => PointsDown
    case PointsDown => PointsUp
    case PointsLeft => PointsRight
    case PointsRight => PointsLeft
  }

  /** Whether a port is drawn at all. */
  predicate PortShown(port: Port, showPorts: bool, showSpecial: bool) {
    !((port.isSpecial && !showSpecial) || (!port.isSpecial && !showPorts))
  }

  /** The shape of box `ind` of port `p`. */
  function BoxShape(p: nat, ind: nat, direction: int, box: Box, config: Transform.Config,
                    stageWidth: real, stageHeight: real, disabled: bool): (s: PortShape)
    ensures s.port == p && s.box == ind
  {
    var c := Transform.ConvertRectCoords(config, box);
    var side := NearestSide(c.x, c.y, stageWidth, stageHeight);
    PortShape(p, ind, side, Arrows(direction, side, disabled))
  }

  /** The shapes of the first `|boxes|` boxes of port `p`. */
  function BoxShapes(p: nat, direction: int, boxes: seq<Box>, config: Transform.Config,
                     stageWidth: real, stageHeight: real, disabled: bool): (r: seq<PortShape>)
    ensures |r| == |boxes|
    ensures forall k :: 0 <= k < |r| ==> r[k].port == p && r[k].box == k
  {
    if boxes == [] then []
    else
      BoxShapes(p, direction, boxes[..|boxes| - 1], config, stageWidth, stageHeight, disabled) +
      [BoxShape(p, |boxes| - 1, direction, boxes[|boxes| - 1], config, stageWidth, stageHeight, disabled)]
  }

  /** The shapes of one port; None when one of its geometries is missing,
      where the pass throws. */
  function PortShapes(p: nat, port: Port, geometries: map<int, seq<Box>>, config: Transform.Config,
                      stageWidth: real, stageHeight: real, showPorts: bool, showSpecial: bool,
                      disabled: bool): (r: Option<seq<PortShape>>)
    ensures !PortShown(port, showPorts, showSpecial) ==> r == Some([])
  {
    if !PortShown(port, showPorts, showSpecial) then Some([])
    else
      match WireShapes.Boxes(port.geometries, geometries)
      case None => None
      case Some(boxes) => Some(BoxShapes(p, port.direction, boxes, config, stageWidth, stageHeight, disabled))
  }

  /** The shapes of all ports, port after port. */
  function AllPortShapes(ports: seq<Port>, geometries: map<int, seq<Box>>, config: Transform.Config,
                         stageWidth: real, stageHeight: real, showPorts: bool, showSpecial: bool,
                         disabled: bool): (r: Option<seq<PortShape>>)
  {
    if ports == [] then Some([])
    else
      var n := |ports| - 1;
      var init := AllPortShapes(ports[..n], geometries, config, stageWidth, stageHeight, showPorts, showSpecial, disabled);
      var last := PortShapes(n, ports[n], geometries, config, stageWidth, stageHeight, showPorts, showSpecial, disabled);
      if init.None? || last.None? then None else Some(init.value + last.value)
  }

  /** Every drawn box belongs to a shown port, lies on its nearest side, and
      carries the triangles of its port's direction; none at all when
      indicators are disabled. */
  lemma {:induction false} PortShapesAllowed(ports: seq<Port>, geometries: map<int, seq<Box>>,
                                             config: Transform.Config, stageWidth: real, stageHeight: real,
                                             showPorts: bool, showSpecial: bool, disabled: bool)
    ensures var r := AllPortShapes(ports, geometries, config, stageWidth, stageHeight, showPorts, showSpecial, disabled);
      r.Some? ==> forall s :: s in r.value ==>
        s.port < |ports| && PortShown(ports[s.port], showPorts, showSpecial) &&
        s.arrows == Arrows(ports[s.port].direction, s.side, disabled)
  {
    if ports != [] {
      var n := |ports| - 1;
      PortShapesAllowed(ports[..n], geometries, config, stageWidth, stageHeight, showPorts, showSpecial, disabled);
      assert forall k :: 0 <= k < n ==> ports[..n][k] == ports[k];
      var last := PortShapes(n, ports[n], geometries, config, stageWidth, stageHeight, showPorts, showSpecial, disabled);
      if last.Some? && PortShown(ports[n], showPorts, showSpecial) {
        var boxes := WireShapes.Boxes(ports[n].geometries, geometries).value;
        BoxShapesArrows(n, ports[n].direction, boxes, config, stageWidth, stageHeight, disabled);
      }
    }
  }

  lemma {:induction false} BoxShapesArrows(p: nat, direction: int, boxes: seq<Box>, config: Transform.Config,
                                           stageWidth: real, stageHeight: real, disabled: bool)
    ensures forall s :: s in BoxShapes(p, direction, boxes, config, stageWidth, stageHeight, disabled) ==>
      s.port == p && s.arrows == Arrows(direction, s.side, disabled)
  {
    if boxes != [] {
      BoxShapesArrows(p, direction, boxes[..|boxes| - 1], config, stageWidth, stageHeight, disabled);
    }
  }

  /** The boxes of a port, one shape each, each on its nearest side. */
  lemma {:induction false} BoxShapesSides(p: nat, direction: int, boxes: seq<Box>, config: Transform.Config,
                                          stageWidth: real, stageHeight: real, disabled: bool, k: nat)
    requires k < |boxes|
    ensures var s := BoxShapes(p, direction, boxes, config, stageWidth, stageHeight, disabled)[k];
            var c := Transform.ConvertRectCoords(config, boxes[k]);
            s.side == NearestSide(c.x, c.y, stageWidth, stageHeight)
    decreases |boxes|
  {
    if k < |boxes| - 1 {
      BoxShapesSides(p, direction, boxes[..|boxes| - 1], config, stageWidth, stageHeight, disabled, k);
    }
  }

  /** A throw in the first `n` ports is a throw of the whole pass. */
  lemma {:induction false} PrefixNone(ports: seq<Port>, n: nat, geometries: map<int, seq<Box>>,
                                      config: Transform.Config, stageWidth: real, stageHeight: real,
                                      showPorts: bool, showSpecial: bool, disabled: bool)
    requires 0 < n <= |ports|
    requires AllPortShapes(ports[..n], geometries, config, stageWidth, stageHeight, showPorts, showSpecial, disabled).None?
    ensures AllPortShapes(ports, geometries, config, stageWidth, stageHeight, showPorts, showSpecial, disabled).None?
    decreases |ports| - n
  {
    if n < |ports| {
      assert ports[..n + 1][..n] == ports[..n];
      PrefixNone(ports, n + 1, geometries, config, stageWidth, stageHeight, showPorts, showSpecial, disabled);
    } else {
      assert ports[..n] == ports;
    }
  }

  /** The per-port forEach: every box of every geometry of a shown port. */
  method PortPass(p: nat, port: Port, geometries: map<int, seq<Box>>, config: Transform.Config,
                  stageWidth: real, stageHeight: real, showPorts: bool, showSpecial: bool,
                  disabled: bool) returns (r: Option<seq<PortShape>>)
    ensures r == PortShapes(p, port, geometries, config, stageWidth, stageHeight, showPorts, showSpecial, disabled)
  {
    if !PortShown(port, showPorts, showSpecial) {
      return Some([]);
    }
    var boxes := WireShapes.GatherBoxes(port.geometries, geometries);
    if boxes.None? {
      return None;
    }
    var shapes: seq<PortShape> := [];
    var ind := 0;
    while ind < |boxes.value|
      invariant 0 <= ind <= |boxes.value|
      invariant shapes == BoxShapes(p, port.direction, boxes.value[..ind], config, stageWidth, stageHeight, disabled)
    {
      assert boxes.value[..ind + 1][..ind] == boxes.value[..ind];
      var shape := BoxShape(p, ind, port.direction, boxes.value[ind], config, stageWidth, stageHeight, disabled);
      shapes := shapes + [shape];
      ind := ind + 1;
    }
    assert boxes.value[..ind] == boxes.value;
    r := Some(shapes);
  }

  /** createPortsContainer: every box of every shown port, in order. None
      when the pass throws. */
  method CreatePortsContainer(ports: seq<Port>, geometries: map<int, seq<Box>>, config: Transform.Config,
                              stageWidth: real, stageHeight: real, showPorts: bool, showSpecial: bool,
                              disabled: bool) returns (r: Option<seq<PortShape>>)
    ensures r == AllPortShapes(ports, geometries, config, stageWidth, stageHeight, showPorts, showSpecial, disabled)
  {
    var container: seq<PortShape> := [];
    var p := 0;
    while p < |ports|
      invariant 0 <= p <= |ports|
      invariant AllPortShapes(ports[..p], geometries, config, stageWidth, stageHeight, showPorts, showSpecial, disabled)
             == Some(container)
    {
      assert ports[..p + 1][..p] == ports[..p];
      assert ports[..p + 1][p] == ports[p];
      var shapes := PortPass(p, ports[p], geometries, config, stageWidth, stageHeight, showPorts, showSpecial, disabled);
      if shapes.None? {
        PrefixNone(ports, p + 1, geometries, config, stageWidth, stageHeight, showPorts, showSpecial, disabled);
        return None;
      }
      container := container + shapes.value;
      p := p + 1;
    }
    assert ports[..p] == ports;
    r := Some(container);
  }
}
