/** Layer colours and fill patterns of client/utils/textures.js. The colour
    palette library is a parameter (`palette(name, n)` yields `n` colours)
    and images are kept as their SVG structure rather than as data-URI text. */
module Textures {
  import opened Wrappers

  // ---- Images and pattern attributes ----

  datatype SvgRect = SvgRect(x: real, y: real, width: real, height: real, fill: string)
  datatype Image = Image(width: real, height: real, rects: seq<SvgRect>)

  /** What a builder returns: without a renderer, the image source, the
      rotation (hatches only) and alpha; with one, a texture made from that
      image, alpha and the rotation matrix (hatches only). Angles are in
      multiples of pi/4. */
  datatype Attributes =
    | Plain(src: Image, angle: Option<int>, alpha: real)
    | Textured(texture: Image, alpha: real, rotation: Option<int>)
  {
    function Picture(): Image {
      match this
      case Plain(src, _, _) => src
      case Textured(texture, _, _) => texture
    }
    function Alpha(): real {
      match this
      case Plain(_, _, a) => a
      case Textured(_, a, _) => a
    }
  }

  /** The style argument of the builders; `alpha` and `alternateColor` may be
      missing, and then default to 1.0 and "white". */
  datatype Style = Style(color: string, lineThickness: real, squareSize: real,
                         alpha: Option<real>, alternateColor: Option<string>)

  const White: string := "white"

  /** The one-pixel image of simple mode. */
  function Flat(color: string): Image {
    Image(1.0, 1.0, [SvgRect(0.0, 0.0, 1.0, 1.0, color)])
  }

  predicate IsFlat(img: Image, color: string) {
    img.width == 1.0 && img.height == 1.0 && |img.rects| == 1 &&
    img.rects[0].width == 1.0 && img.rects[0].height == 1.0 && img.rects[0].fill == color
  }

  function Package(pixi: bool, img: Image, angle: Option<int>, alpha: real): (a: Attributes)
    ensures a.Picture() == img && a.Alpha() == alpha
    ensures pixi <==> a.Textured?
  {
    if pixi then Textured(img, alpha, angle) else Plain(img, angle, alpha)
  }

  /** A hatch tile: one band of the colour over one band of the alternate
      colour, each `lineThickness` high and `endX - startX` wide. */
  function HatchAttributes(pixi: bool, startX: real, endX: real, angle: int,
                           style: Style, simple: bool): (a: Attributes)
    ensures a.Alpha() == style.alpha.GetOr(1.0)
    ensures pixi ==> a == Textured(a.Picture(), a.Alpha(), Some(angle))
    ensures !pixi ==> a == Plain(a.Picture(), Some(angle), a.Alpha())
    ensures simple ==> IsFlat(a.Picture(), style.color)
    ensures !simple ==>
      var img := a.Picture();
      img.width == endX - startX && img.height == 2.0 * style.lineThickness &&
      |img.rects| == 2 &&
      img.rects[0].fill == style.color && img.rects[0].y == 0.0 &&
      img.rects[1].fill == style.alternateColor.GetOr(White) &&
      img.rects[1].y == style.lineThickness
  {
    var size := endX - startX;
    var tile := Image(size, 2.0 * style.lineThickness,
                      [SvgRect(0.0, 0.0, size, style.lineThickness, style.color),
                       SvgRect(0.0, style.lineThickness, size, style.lineThickness,
                               style.alternateColor.GetOr(White))]);
    var img := if simple then Flat(style.color) else tile;
    Package(pixi, img, Some(angle), style.alpha.GetOr(1.0))
  }

  function MaxReal(a: real, b: real): real { if a < b then b else a }

  /** The four hatch wrappers: the tile spans max(width, height) (zero for
      the horizontal one) and is turned by pi/4, -pi/4, pi/2 or 0. They
      forward only the colour, the thickness and the alpha of the caller's
      style, so the second band always takes the default alternate colour. */
  function RightHatch(pixi: bool, width: real, height: real, style: Style, simple: bool): Attributes {
    HatchAttributes(pixi, 0.0, MaxReal(width, height), 1, style.(alternateColor := None), simple)
  }
  function LeftHatch(pixi: bool, width: real, height: real, style: Style, simple: bool): Attributes {
    HatchAttributes(pixi, 0.0, MaxReal(width, height), -1, style.(alternateColor := None), simple)
  }
  function VerticalHatch(pixi: bool, width: real, height: real, style: Style, simple: bool): Attributes {
    HatchAttributes(pixi, 0.0, MaxReal(width, height), 2, style.(alternateColor := None), simple)
  }
  function HorizontalHatch(pixi: bool, width: real, height: real, style: Style, simple: bool): Attributes {
    HatchAttributes(pixi, 0.0, 0.0, 0, style.(alternateColor := None), simple)
  }

  /** The diagonal and vertical tiles are as wide as the larger side; the
      horizontal tile is zero wide, whatever the shape. */
  lemma HatchTileWidths(pixi: bool, width: real, height: real, style: Style)
    ensures RightHatch(pixi, width, height, style, false).Picture().width
         == MaxReal(width, height) >= width
    ensures LeftHatch(pixi, width, height, style, false).Picture().width
         == MaxReal(width, height) >= height
    ensures VerticalHatch(pixi, width, height, style, false).Picture().width
         == MaxReal(width, height)
    ensures HorizontalHatch(pixi, width, height, style, false).Picture().width == 0.0
  {
  }

  /** Whatever alternate colour the caller's style names, a wrapper's tile
      is the colour over a white band, with the style's alpha. */
  lemma HatchWrappersDropAlternate(pixi: bool, width: real, height: real, style: Style)
    ensures var tiles := [RightHatch(pixi, width, height, style, false),
                          LeftHatch(pixi, width, height, style, false),
                          VerticalHatch(pixi, width, height, style, false),
                          HorizontalHatch(pixi, width, height, style, false)];
            forall k :: 0 <= k < |tiles| ==>
              |tiles[k].Picture().rects| == 2 &&
              tiles[k].Picture().rects[0].fill == style.color &&
              tiles[k].Picture().rects[1].fill == White &&
              tiles[k].Alpha() == style.alpha.GetOr(1.0)
  {
  }

  /** The 3x3 grid of the square pattern, column by column: cell k sits in
      column k / 3 and row k % 3, and only the centre takes the colour. */
  function SquareGrid(color: string, alternate: string, size: real): (cells: seq<SvgRect>)
    ensures |cells| == 9
  {
    seq(9, k requires 0 <= k < 9 =>
      SvgRect((k / 3) as real * size, (k % 3) as real * size, size, size,
              if k / 3 == 1 && k % 3 == 1 then color else alternate))
  }

  /** Cell 3 * i + j of the grid is the one at column i and row j. */
  lemma GridCell(color: string, alternate: string, size: real, i: int, j: int)
    requires 0 <= i < 3 && 0 <= j < 3
    ensures SquareGrid(color, alternate, size)[3 * i + j]
         == SvgRect(i as real * size, j as real * size, size, size,
                    if i == 1 && j == 1 then color else alternate)
  {
    var k := 3 * i + j;
    assert k / 3 == i && k % 3 == j;
  }

  /** Only the centre cell carries the layer colour, and the nine cells tile
      the 3·size square without overlap. */
  lemma SquareGridCells(color: string, alternate: string, size: real, i: int, j: int)
    requires color != alternate
    requires 0 <= i < 3 && 0 <= j < 3
    ensures var c := SquareGrid(color, alternate, size)[3 * i + j];
            c.x == i as real * size && c.y == j as real * size &&
            c.width == size && c.height == size &&
            (c.fill == color <==> i == 1 && j == 1)
  {
    var k := 3 * i + j;
    assert k / 3 == i && k % 3 == j;
  }

  /** generateSquareHatchAttributes: the grid is accumulated in a nested loop. */
  method SquareHatchAttributes(pixi: bool, style: Style, simple: bool) returns (a: Attributes)
    ensures a.Alpha() == style.alpha.GetOr(1.0)
    ensures pixi ==> a == Textured(a.Picture(), a.Alpha(), None)
    ensures !pixi ==> a == Plain(a.Picture(), None, a.Alpha())
    ensures simple ==> IsFlat(a.Picture(), style.color)
    ensures !simple ==>
      a.Picture() == Image(3.0 * style.squareSize, style.squareSize * 3.0,
                           SquareGrid(style.color, style.alternateColor.GetOr(White), style.squareSize))
  {
    var alternate := style.alternateColor.GetOr(White);
    var size := style.squareSize;
    ghost var grid := SquareGrid(style.color, alternate, size);
    var rects: seq<SvgRect> := [];
    var i := 0;
    while i < 3
      invariant 0 <= i <= 3
      invariant rects == grid[..3 * i]
    {
      var j := 0;
      while j < 3
        invariant 0 <= j <= 3
        invariant rects == grid[..3 * i + j]
      {
        var cell := SvgRect(i as real * size, j as real * size, size, size,
                            if i == 1 && j == 1 then style.color else alternate);
        GridCell(style.color, alternate, size, i, j);
        assert grid[..3 * i + j + 1] == grid[..3 * i + j] + [cell];
        rects := rects + [cell];
        j := j + 1;
      }
      i := i + 1;
    }
    assert rects == grid;
    var img := if simple then Flat(style.color) else Image(3.0 * size, size * 3.0, rects);
    a := Package(pixi, img, None, style.alpha.GetOr(1.0));
  }

  // ---- Layer colours ----

  // The LayerType enumeration of client/utils/enums.js.
  const Routing: int := 0
  const Cut: int := 1
  const Masterslice: int := 2
  const Overlap: int := 3
  const Implant: int := 4
  const NoneType: int := 5

  predicate KnownType(t: int) { 0 <= t <= 5 }

  datatype Layer = Layer(ID: int, Type: int)

  datatype Pattern = LeftHatchPattern | RightHatchPattern | VerticalHatchPattern
                   | HorizontalHatchPattern | SquarePattern

  /** One entry of the colour table: the colour and the builder to use. */
  datatype LayerColor = LayerColor(color: string, pattern: Pattern)

  datatype ColorConfig = ColorConfig(layerColorPalette: string,
                                     mastersliceLayerColorPalette: string,
                                     sameColorConsecutiveLayers: bool)

  /** The palette library's promise: n colours for a count of n. */
  ghost predicate PaletteSized(palette: (string, nat) -> seq<string>) {
    forall name, n :: |palette(name, n)| == n
  }

  /** How many layers of type `t` the list holds. */
  function CountOf(layers: seq<Layer>, t: int): (c: nat)
    ensures c <= |layers|
  {
    if layers == [] then 0
    else CountOf(layers[..|layers| - 1], t) + (if layers[|layers| - 1].Type == t then 1 else 0)
  }

  lemma {:induction false} CountOfPositive(layers: seq<Layer>, i: int)
    requires 0 <= i < |layers|
    ensures CountOf(layers, layers[i].Type) > 0
  {
    if i < |layers| - 1 {
      CountOfPositive(layers[..|layers| - 1], i);
    }
  }

  function Max(a: nat, b: nat): nat { if a < b then b else a }

  /** The size of the main palette: the largest count among the types that
      draw from it; masterslice layers have a palette of their own. */
  function MaxTypeCount(layers: seq<Layer>): (m: nat)
    ensures forall t :: KnownType(t) && t != Masterslice ==> CountOf(layers, t) <= m
  {
    Max(Max(Max(CountOf(layers, Routing), CountOf(layers, Cut)),
            Max(CountOf(layers, Overlap), CountOf(layers, Implant))),
        CountOf(layers, NoneType))
  }

  /** Masterslice layers never raise the main palette's size. */
  lemma MastersliceKeepsMax(layers: seq<Layer>, id: int)
    ensures MaxTypeCount(layers + [Layer(id, Masterslice)]) == MaxTypeCount(layers)
  {
    var s := layers + [Layer(id, Masterslice)];
    assert s[..|s| - 1] == layers;
  }

  /** Whether an odd number of routing layers are among the first n. */
  function OddRouting(layers: seq<Layer>, n: nat): bool
    requires n <= |layers|
  {
    if n == 0 then false
    else if layers[n - 1].Type == Routing then !OddRouting(layers, n - 1)
    else OddRouting(layers, n - 1)
  }

  /** The latest routing layer among the first n. */
  function LastRoutingBefore(layers: seq<Layer>, n: nat): (j: Option<nat>)
    requires n <= |layers|
    ensures j.Some? ==> j.value < n && layers[j.value].Type == Routing
    ensures j.Some? ==> CountOf(layers, Routing) > 0
    ensures j.None? ==> !OddRouting(layers, n)
  {
    if n == 0 then None
    else if layers[n - 1].Type == Routing then
      CountOfPositive(layers, n - 1);
      Some(n - 1)
    else LastRoutingBefore(layers, n - 1)
  }

  /** The pattern of each layer type; routing layers take the right hatch
      after an odd number of routing layers and the left one otherwise. */
  function PatternFor(t: int, odd: bool): Pattern {
    if t == Routing then (if odd then RightHatchPattern else LeftHatchPattern)
    else if t == Cut then SquarePattern
    else if t == Masterslice then RightHatchPattern
    else if t == Overlap then VerticalHatchPattern
    else if t == Implant then HorizontalHatchPattern
    else VerticalHatchPattern
  }

  /** A palette colour written as a CSS colour. */
  function Hex(c: string): (h: string)
    ensures |h| == |c| + 1 && h[0] == '#' && h[1..] == c
  {
    "#" + c
  }

  /** The entry for the layer at position `ind`, read off the whole list
      rather than off a running toggle: the colour is slot `k % count` of
      the palette of the layer's type, where `count` is the number of layers
      of that type and `k` is the layer's own position, except that a
      right-hatch routing layer takes the slot of the routing layer before
      it when sameColorConsecutiveLayers is set. */
  function Entry(config: ColorConfig, layers: seq<Layer>, ind: nat,
                 main: seq<string>, masterslice: seq<string>): (e: Option<LayerColor>)
    requires ind < |layers|
    requires |main| == MaxTypeCount(layers) && |masterslice| == CountOf(layers, Masterslice)
    ensures e.Some? <==> KnownType(layers[ind].Type)
  {
    var t := layers[ind].Type;
    if !KnownType(t) then None
    else
      CountOfPositive(layers, ind);
      var count := CountOf(layers, t);
      var odd := t == Routing && OddRouting(layers, ind);
      var slot := if odd && config.sameColorConsecutiveLayers
                  then LastRoutingBefore(layers, ind).value else ind;
      var colors := if t == Masterslice then masterslice else main;
      Some(LayerColor(Hex(colors[slot % count]), PatternFor(t, odd)))
  }

  /** The table after the first n layers: each layer of a known type writes
      its entry under its ID, so a later layer with the same ID wins. */
  function ColorsUpTo(config: ColorConfig, layers: seq<Layer>, n: nat,
                      main: seq<string>, masterslice: seq<string>): map<int, LayerColor>
    requires n <= |layers|
    requires |main| == MaxTypeCount(layers) && |masterslice| == CountOf(layers, Masterslice)
  {
    if n == 0 then map[]
    else
      var m := ColorsUpTo(config, layers, n - 1, main, masterslice);
      match Entry(config, layers, n - 1, main, masterslice)
      case Some(e) => m[layers[n - 1].ID := e]
      case None => m
  }

  function MainPalette(config: ColorConfig, layers: seq<Layer>,
                       palette: (string, nat) -> seq<string>): seq<string> {
    palette(config.layerColorPalette, MaxTypeCount(layers))
  }

  function MasterslicePalette(config: ColorConfig, layers: seq<Layer>,
                              palette: (string, nat) -> seq<string>): seq<string> {
    palette(config.mastersliceLayerColorPalette, CountOf(layers, Masterslice))
  }

  /** The specification of generateMetalLayerColors. */
  function MetalLayerColors(config: ColorConfig, layers: seq<Layer>,
                            palette: (string, nat) -> seq<string>): map<int, LayerColor>
    requires PaletteSized(palette)
  {
    ColorsUpTo(config, layers, |layers|, MainPalette(config, layers, palette),
               MasterslicePalette(config, layers, palette))
  }

  /** The counting pass of generateMetalLayerColors, with its running
      maximum over the types that share the main palette. */
  method CountLayerTypes(layers: seq<Layer>)
    returns (routingCount: nat, cutCount: nat, mastersliceCount: nat, overlapCount: nat,
             implantCount: nat, noneCount: nat, maxCount: nat)
    ensures routingCount == CountOf(layers, Routing) && cutCount == CountOf(layers, Cut)
    ensures mastersliceCount == CountOf(layers, Masterslice)
    ensures overlapCount == CountOf(layers, Overlap) && implantCount == CountOf(layers, Implant)
    ensures noneCount == CountOf(layers, NoneType)
    ensures maxCount == MaxTypeCount(layers)
  {
    routingCount, cutCount, mastersliceCount := 0, 0, 0;
    overlapCount, implantCount, noneCount := 0, 0, 0;
    maxCount := 0;
    var i := 0;
    while i < |layers|
      invariant 0 <= i <= |layers|
      invariant routingCount == CountOf(layers[..i], Routing)
      invariant cutCount == CountOf(layers[..i], Cut)
      invariant mastersliceCount == CountOf(layers[..i], Masterslice)
      invariant overlapCount == CountOf(layers[..i], Overlap)
      invariant implantCount == CountOf(layers[..i], Implant)
      invariant noneCount == CountOf(layers[..i], NoneType)
      invariant maxCount == MaxTypeCount(layers[..i])
    {
      CountStep(layers, i);
      var t := layers[i].Type;
      if t == Routing {
        routingCount := routingCount + 1;
        maxCount := Max(maxCount, routingCount);
      } else if t == Cut {
        cutCount := cutCount + 1;
        maxCount := Max(maxCount, cutCount);
      } else if t == Masterslice {
        mastersliceCount := mastersliceCount + 1;
      } else if t == Overlap {
        overlapCount := overlapCount + 1;
        maxCount := Max(maxCount, overlapCount);
      } else if t == Implant {
        implantCount := implantCount + 1;
        maxCount := Max(maxCount, implantCount);
      } else if t == NoneType {
        noneCount := noneCount + 1;
        maxCount := Max(maxCount, noneCount);
      }
      i := i + 1;
    }
    assert layers[..i] == layers;
  }

  /** One more layer counts once, under its own type, and can only raise
      the main palette's size to its type's new count. */
  lemma CountStep(layers: seq<Layer>, i: int)
    requires 0 <= i < |layers|
    ensures forall t :: CountOf(layers[..i + 1], t) == CountOf(layers[..i], t) + (if layers[i].Type == t then 1 else 0)
    ensures var t := layers[i].Type;
      MaxTypeCount(layers[..i + 1]) ==
        if KnownType(t) && t != Masterslice then Max(MaxTypeCount(layers[..i]), CountOf(layers[..i + 1], t))
        else MaxTypeCount(layers[..i])
  {
    assert layers[..i + 1][..i] == layers[..i];
    MaxStep(layers[..i], layers[..i + 1], layers[i].Type);
  }

  lemma MaxStep(p: seq<Layer>, q: seq<Layer>, t: int)
    requires forall u :: CountOf(q, u) == CountOf(p, u) + (if t == u then 1 else 0)
    ensures MaxTypeCount(q) ==
      if KnownType(t) && t != Masterslice then Max(MaxTypeCount(p), CountOf(q, t)) else MaxTypeCount(p)
  {
    var r, c, o, m, n := CountOf(p, Routing), CountOf(p, Cut), CountOf(p, Overlap), CountOf(p, Implant), CountOf(p, NoneType);
    var r', c', o', m', n' := CountOf(q, Routing), CountOf(q, Cut), CountOf(q, Overlap), CountOf(q, Implant), CountOf(q, NoneType);
    assert r' == r + (if t == Routing then 1 else 0);
    assert c' == c + (if t == Cut then 1 else 0);
    assert o' == o + (if t == Overlap then 1 else 0);
    assert m' == m + (if t == Implant then 1 else 0);
    assert n' == n + (if t == NoneType then 1 else 0);
    MaxOfFive(r, c, o, m, n, r', c', o', m', n');
  }

  /** Raising at most one of five counts by one raises their maximum to at
      most that count. */
  lemma MaxOfFive(r: nat, c: nat, o: nat, m: nat, n: nat, r': nat, c': nat, o': nat, m': nat, n': nat)
    requires r <= r' <= r + 1 && c <= c' <= c + 1 && o <= o' <= o + 1 && m <= m' <= m + 1 && n <= n' <= n + 1
    requires (r' - r) + (c' - c) + (o' - o) + (m' - m) + (n' - n) <= 1
    ensures var before, after := Max(Max(Max(r, c), Max(o, m)), n), Max(Max(Max(r', c'), Max(o', m')), n');
      after == if r' > r then Max(before, r') else if c' > c then Max(before, c')
               else if o' > o then Max(before, o') else if m' > m then Max(before, m')
               else Max(before, n')
  {
  }

  /** One step of the colouring pass: the entry for layer `i`, and the
      toggle and remembered routing colour after it. */
  method NextEntry(config: ColorConfig, layers: seq<Layer>, i: nat,
                   main: seq<string>, masterslice: seq<string>,
                   toggle: int, prevColor: string)
    returns (e: Option<LayerColor>, toggle': int, prevColor': string)
    requires i < |layers|
    requires |main| == MaxTypeCount(layers) && |masterslice| == CountOf(layers, Masterslice)
    requires toggle == (if OddRouting(layers, i) then 1 else 0)
    requires toggle == 1 ==>
      prevColor == main[LastRoutingBefore(layers, i).value % CountOf(layers, Routing)]
    ensures e == Entry(config, layers, i, main, masterslice)
    ensures toggle' == (if OddRouting(layers, i + 1) then 1 else 0)
    ensures toggle' == 1 ==>
      prevColor' == main[LastRoutingBefore(layers, i + 1).value % CountOf(layers, Routing)]
  {
    var layer := layers[i];
    CountOfPositive(layers, i);
    var count := CountOf(layers, layer.Type);
    toggle', prevColor' := toggle, prevColor;
    if layer.Type == Routing {
      if toggle == 1 {
        var color := if config.sameColorConsecutiveLayers then prevColor else main[i % count];
        e := Some(LayerColor(Hex(color), RightHatchPattern));
        toggle' := 0;
      } else {
        prevColor' := main[i % count];
        e := Some(LayerColor(Hex(prevColor'), LeftHatchPattern));
        toggle' := 1;
      }
    } else if layer.Type == Cut {
      e := Some(LayerColor(Hex(main[i % count]), SquarePattern));
    } else if layer.Type == Masterslice {
      e := Some(LayerColor(Hex(masterslice[i % count]), RightHatchPattern));
    } else if layer.Type == Overlap {
      e := Some(LayerColor(Hex(main[i % count]), VerticalHatchPattern));
    } else if layer.Type == Implant {
      e := Some(LayerColor(Hex(main[i % count]), HorizontalHatchPattern));
    } else if layer.Type == NoneType {
      e := Some(LayerColor(Hex(main[i % count]), VerticalHatchPattern));
    } else {
      e := None;
    }
  }

  /** generateMetalLayerColors: after the counting pass, the second pass
      assigns colours while toggling between left and right hatches over
      the routing layers; a later layer with the same ID overwrites. */
  method GenerateMetalLayerColors(config: ColorConfig, layers: seq<Layer>,
                                  palette: (string, nat) -> seq<string>)
    returns (colors: map<int, LayerColor>)
    requires PaletteSized(palette)
    ensures colors == MetalLayerColors(config, layers, palette)
  {
    var routingCount, cutCount, mastersliceCount, overlapCount, implantCount, noneCount, maxCount
      := CountLayerTypes(layers);
    var main := palette(config.layerColorPalette, maxCount);
    var masterslice := palette(config.mastersliceLayerColorPalette, mastersliceCount);

    var toggle := 0;
    var prevColor := "";
    colors := map[];
    var i := 0;
    while i < |layers|
      invariant 0 <= i <= |layers|
      invariant toggle == (if OddRouting(layers, i) then 1 else 0)
      invariant toggle == 1 ==>
        prevColor == main[LastRoutingBefore(layers, i).value % CountOf(layers, Routing)]
      invariant colors == ColorsUpTo(config, layers, i, main, masterslice)
    {
      var e;
      e, toggle, prevColor := NextEntry(config, layers, i, main, masterslice, toggle, prevColor);
      if e.Some? {
        colors := colors[layers[i].ID := e.value];
      }
      i := i + 1;
    }
  }
}

module TexturesProperties {
  import opened Wrappers
  import opened Textures

  /** With no routing layer strictly between two routing layers i < j,
      the parity flips between them. */
  lemma {:induction false} OddRoutingBetween(layers: seq<Layer>, i: nat, j: nat)
    requires i < j <= |layers|
    requires layers[i].Type == Routing
    requires forall k :: i < k < j ==> layers[k].Type != Routing
    ensures OddRouting(layers, j) == !OddRouting(layers, i)
  {
    if j - 1 > i {
      OddRoutingBetween(layers, i, j - 1);
    }
  }

  /** The table has exactly one key per ID of a layer of a known type. */
  lemma {:induction false} ColorsUpToKeys(config: ColorConfig, layers: seq<Layer>, n: nat,
                                          main: seq<string>, masterslice: seq<string>, id: int)
    requires n <= |layers|
    requires |main| == MaxTypeCount(layers) && |masterslice| == CountOf(layers, Masterslice)
    ensures id in ColorsUpTo(config, layers, n, main, masterslice)
        <==> exists i :: 0 <= i < n && layers[i].ID == id && KnownType(layers[i].Type)
  {
    if n > 0 {
      ColorsUpToKeys(config, layers, n - 1, main, masterslice, id);
    }
  }

  /** A known-type layer that no later known-type layer shares an ID with
      owns its table entry. */
  lemma {:induction false} ColorsUpToValue(config: ColorConfig, layers: seq<Layer>, n: nat,
                                           main: seq<string>, masterslice: seq<string>, i: nat)
    requires i < n <= |layers|
    requires |main| == MaxTypeCount(layers) && |masterslice| == CountOf(layers, Masterslice)
    requires KnownType(layers[i].Type)
    requires forall j :: i < j < n && layers[j].ID == layers[i].ID ==> !KnownType(layers[j].Type)
    ensures layers[i].ID in ColorsUpTo(config, layers, n, main, masterslice)
    ensures ColorsUpTo(config, layers, n, main, masterslice)[layers[i].ID]
         == Entry(config, layers, i, main, masterslice).value
  {
    if i < n - 1 {
      ColorsUpToValue(config, layers, n - 1, main, masterslice, i);
    }
  }

  /** Every layer whose type is one of the six gets an entry under its ID,
      and no other ID appears. */
  lemma MetalLayerColorsKeys(config: ColorConfig, layers: seq<Layer>,
                             palette: (string, nat) -> seq<string>, id: int)
    requires PaletteSized(palette)
    ensures id in MetalLayerColors(config, layers, palette)
        <==> exists i :: 0 <= i < |layers| && layers[i].ID == id && KnownType(layers[i].Type)
  {
    ColorsUpToKeys(config, layers, |layers|, MainPalette(config, layers, palette),
                   MasterslicePalette(config, layers, palette), id);
  }

  lemma MetalLayerColorsValue(config: ColorConfig, layers: seq<Layer>,
                              palette: (string, nat) -> seq<string>, i: nat)
    requires PaletteSized(palette)
    requires i < |layers| && KnownType(layers[i].Type)
    requires forall j :: i < j < |layers| && layers[j].ID == layers[i].ID ==> !KnownType(layers[j].Type)
    ensures layers[i].ID in MetalLayerColors(config, layers, palette)
    ensures MetalLayerColors(config, layers, palette)[layers[i].ID]
         == Entry(config, layers, i, MainPalette(config, layers, palette),
                  MasterslicePalette(config, layers, palette)).value
  {
    ColorsUpToValue(config, layers, |layers|, MainPalette(config, layers, palette),
                    MasterslicePalette(config, layers, palette), i);
  }

  /** Pattern by type, and every colour is "#" followed by a colour of the
      palette the type draws from: the index never leaves the palette. */
  lemma EntryShape(config: ColorConfig, layers: seq<Layer>, ind: nat,
                   main: seq<string>, masterslice: seq<string>)
    requires ind < |layers| && KnownType(layers[ind].Type)
    requires |main| == MaxTypeCount(layers) && |masterslice| == CountOf(layers, Masterslice)
    ensures var e := Entry(config, layers, ind, main, masterslice).value;
            var t := layers[ind].Type;
            |e.color| > 0 && e.color[0] == '#' &&
            (t == Masterslice ==> e.color[1..] in masterslice) &&
            (t != Masterslice ==> e.color[1..] in main) &&
            (t == Routing ==> e.pattern in {LeftHatchPattern, RightHatchPattern}) &&
            (t == Cut ==> e.pattern == SquarePattern) &&
            (t == Masterslice ==> e.pattern == RightHatchPattern) &&
            (t == Overlap ==> e.pattern == VerticalHatchPattern) &&
            (t == Implant ==> e.pattern == HorizontalHatchPattern) &&
            (t == NoneType ==> e.pattern == VerticalHatchPattern)
  {
    var t := layers[ind].Type;
    CountOfPositive(layers, ind);
    var odd := t == Routing && OddRouting(layers, ind);
    var slot := if odd && config.sameColorConsecutiveLayers
                then LastRoutingBefore(layers, ind).value else ind;
    var colors := if t == Masterslice then masterslice else main;
    var k := slot % CountOf(layers, t);
    assert Entry(config, layers, ind, main, masterslice).value.color == Hex(colors[k]);
    assert colors[k] in colors;
  }

  /** Routing layers alternate in list order: the first takes the left
      hatch, and of two routing layers with none in between, one takes the
      left hatch and the other the right. */
  lemma RoutingAlternates(config: ColorConfig, layers: seq<Layer>, i: nat, j: nat,
                          main: seq<string>, masterslice: seq<string>)
    requires |main| == MaxTypeCount(layers) && |masterslice| == CountOf(layers, Masterslice)
    requires i < j < |layers|
    requires layers[i].Type == Routing && layers[j].Type == Routing
    requires forall k :: i < k < j ==> layers[k].Type != Routing
    ensures LastRoutingBefore(layers, i).None? ==>
      Entry(config, layers, i, main, masterslice).value.pattern == LeftHatchPattern
    ensures Entry(config, layers, i, main, masterslice).value.pattern
         != Entry(config, layers, j, main, masterslice).value.pattern
  {
    OddRoutingBetween(layers, i, j);
  }

  /** With sameColorConsecutiveLayers, a right-hatch routing layer shows the
      colour of the left-hatch routing layer before it; without it, its
      colour comes from its own position in the whole list. */
  lemma RightHatchColor(config: ColorConfig, layers: seq<Layer>, j: nat,
                        main: seq<string>, masterslice: seq<string>)
    requires |main| == MaxTypeCount(layers) && |masterslice| == CountOf(layers, Masterslice)
    requires j < |layers| && layers[j].Type == Routing
    requires Entry(config, layers, j, main, masterslice).value.pattern == RightHatchPattern
    ensures LastRoutingBefore(layers, j).Some?
    ensures var i := LastRoutingBefore(layers, j).value;
            var left := Entry(config, layers, i, main, masterslice).value;
            var right := Entry(config, layers, j, main, masterslice).value;
            left.pattern == LeftHatchPattern &&
            (config.sameColorConsecutiveLayers ==> right.color == left.color) &&
            (!config.sameColorConsecutiveLayers ==>
               right.color == Hex(main[j % CountOf(layers, Routing)]))
  {
    var i := LastRoutingBefore(layers, j).value;
    LastRoutingIsLatest(layers, j);
    OddRoutingBetween(layers, i, j);
  }

  lemma {:induction false} LastRoutingIsLatest(layers: seq<Layer>, n: nat)
    requires n <= |layers|
    ensures LastRoutingBefore(layers, n).Some? ==>
      forall k :: LastRoutingBefore(layers, n).value < k < n ==> layers[k].Type != Routing
  {
    if n > 0 && layers[n - 1].Type != Routing {
      LastRoutingIsLatest(layers, n - 1);
    }
  }
}
