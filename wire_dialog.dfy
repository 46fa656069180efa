/** The wire and layer dialogs of
    client/components/viewer/ComponentDialogGenerator.js: the via and
    segment counts and the layer list of a wire, the truncated layer text,
    and the colour swatch of a layer. The dialog markup is not modelled. */
module WireDialog {
  import opened Wrappers
  import WireShapes
  import Textures
  import TexturesProperties

  // ---- WireDialog ----

  /** What the forEach loops accumulate: the layer list and the two counters. */
  datatype Tally = Tally(layers: seq<string>, numSegments: nat, numVias: nat)

  const Empty: Tally := Tally([], 0, 0)

  /** The name one item pushes; None where the dialog throws. An edge of an
      ordinary net pushes its layer's name, via or not. A box of a special
      net pushes its via's name when it is a via and its layer's name
      otherwise. `viaNames` is the via-name table the box branch reads:
      None stands for the module as written, where `viaMap` is not defined
      and reading it throws. */
  function ItemName(item: WireShapes.Item, special: bool, layerNames: map<int, string>,
                    viaNames: Option<map<int, string>>): (name: Option<string>)
    ensures special && item.via.Some? && viaNames.None? ==> name.None?
    ensures !(special && item.via.Some?) ==>
              (name.Some? <==> item.layer.Some? && item.layer.value in layerNames)
  {
    if special && item.via.Some? then
      if viaNames.Some? && item.via.value in viaNames.value then Some(viaNames.value[item.via.value]) else None
    else if item.layer.Some? && item.layer.value in layerNames then Some(layerNames[item.layer.value])
    else None
  }

  /** One item: its name is pushed, and it counts as a via when its Via is
      set and as a segment otherwise. */
  function Step(t: Tally, item: WireShapes.Item, special: bool, layerNames: map<int, string>,
                viaNames: Option<map<int, string>>): Option<Tally>
  {
    match ItemName(item, special, layerNames, viaNames)
    case None => None
    case Some(name) =>
      Some(Tally(t.layers + [name], t.numSegments + (if item.via.None? then 1 else 0),
                 t.numVias + (if item.via.Some? then 1 else 0)))
  }

  /** The items in order, from the tally `t`. */
  function Fold(t: Tally, items: seq<WireShapes.Item>, special: bool, layerNames: map<int, string>,
                viaNames: Option<map<int, string>>): Option<Tally>
    decreases |items|
  {
    if items == [] then Some(t)
    else
      match Step(t, items[0], special, layerNames, viaNames)
      case None => None
      case Some(t') => Fold(t', items[1..], special, layerNames, viaNames)
  }

  /** The special geometries in order, each one's boxes in order; a
      geometry missing from the map throws. */
  function SpecialFold(t: Tally, ids: seq<int>, geometries: map<int, seq<WireShapes.Item>>,
                       layerNames: map<int, string>, viaNames: Option<map<int, string>>): Option<Tally>
    decreases |ids|
  {
    if ids == [] then Some(t)
    else if ids[0] !in geometries then None
    else
      match Fold(t, geometries[ids[0]], true, layerNames, viaNames)
      case None => None
      case Some(t') => SpecialFold(t', ids[1..], geometries, layerNames, viaNames)
  }

  /** The tally of a wire: its boxes when it is special, its edges otherwise. */
  function WireTally(net: WireShapes.Net, geometries: map<int, seq<WireShapes.Item>>,
                     layerNames: map<int, string>, viaNames: Option<map<int, string>>): Option<Tally>
  {
    if net.isSpecial then SpecialFold(Empty, net.specialBoxes, geometries, layerNames, viaNames)
    else Fold(Empty, net.edges, false, layerNames, viaNames)
  }

  function ViaCount(items: seq<WireShapes.Item>): (n: nat)
    ensures n <= |items|
  {
    if items == [] then 0 else (if items[0].via.Some? then 1 else 0) + ViaCount(items[1..])
  }

  /** An item the dialog cannot name. */
  predicate Unnamed(items: seq<WireShapes.Item>, special: bool, layerNames: map<int, string>,
                    viaNames: Option<map<int, string>>)
  {
    exists k :: 0 <= k < |items| && ItemName(items[k], special, layerNames, viaNames).None?
  }

  /** The fold throws exactly when some item cannot be named; otherwise one
      name is pushed per item, in order, and the vias and segments split
      the items between them. */
  lemma FoldCounts(t: Tally, items: seq<WireShapes.Item>, special: bool,
                   layerNames: map<int, string>, viaNames: Option<map<int, string>>)
    ensures var r := Fold(t, items, special, layerNames, viaNames);
            (r.None? <==> Unnamed(items, special, layerNames, viaNames)) &&
            (r.Some? ==>
               |r.value.layers| == |t.layers| + |items| && r.value.layers[..|t.layers|] == t.layers &&
               (forall k :: 0 <= k < |items| ==>
                  r.value.layers[|t.layers| + k] == ItemName(items[k], special, layerNames, viaNames).value) &&
               r.value.numVias == t.numVias + ViaCount(items) &&
               r.value.numSegments == t.numSegments + |items| - ViaCount(items))
  {
    FoldFails(t, items, special, layerNames, viaNames);
    if Fold(t, items, special, layerNames, viaNames).Some? {
      FoldTally(t, items, special, layerNames, viaNames);
    }
  }

  lemma {:induction false} FoldFails(t: Tally, items: seq<WireShapes.Item>, special: bool,
                                     layerNames: map<int, string>, viaNames: Option<map<int, string>>)
    ensures Fold(t, items, special, layerNames, viaNames).None? <==> Unnamed(items, special, layerNames, viaNames)
    decreases |items|
  {
    if items != [] {
      var rest := items[1..];
      match Step(t, items[0], special, layerNames, viaNames)
      case None =>
      case Some(t') =>
        FoldFails(t', rest, special, layerNames, viaNames);
        if Unnamed(rest, special, layerNames, viaNames) {
          var k :| 0 <= k < |rest| && ItemName(rest[k], special, layerNames, viaNames).None?;
          assert items[k + 1] == rest[k];
        }
        if Unnamed(items, special, layerNames, viaNames) {
          var k :| 0 <= k < |items| && ItemName(items[k], special, layerNames, viaNames).None?;
          assert rest[k - 1] == items[k];
        }
    }
  }

  lemma {:induction false} FoldTally(t: Tally, items: seq<WireShapes.Item>, special: bool,
                                     layerNames: map<int, string>, viaNames: Option<map<int, string>>)
    requires Fold(t, items, special, layerNames, viaNames).Some?
    ensures var r := Fold(t, items, special, layerNames, viaNames).value;
            |r.layers| == |t.layers| + |items| && r.layers[..|t.layers|] == t.layers &&
            (forall k :: 0 <= k < |items| ==>
               ItemName(items[k], special, layerNames, viaNames) == Some(r.layers[|t.layers| + k])) &&
            r.numVias == t.numVias + ViaCount(items) &&
            r.numSegments == t.numSegments + |items| - ViaCount(items)
    decreases |items|
  {
    if items != [] {
      var rest := items[1..];
      var t' := Step(t, items[0], special, layerNames, viaNames).value;
      FoldTally(t', rest, special, layerNames, viaNames);
      var r := Fold(t', rest, special, layerNames, viaNames).value;
      assert r.layers[..|t.layers|] == r.layers[..|t'.layers|][..|t.layers|];
      forall k | 0 <= k < |items|
        ensures ItemName(items[k], special, layerNames, viaNames) == Some(r.layers[|t.layers| + k])
      {
        if k > 0 {
          assert rest[k - 1] == items[k];
        }
      }
    }
  }

  /** Folding two lists is folding the first, then the second. */
  lemma {:induction false} FoldAppend(t: Tally, a: seq<WireShapes.Item>, b: seq<WireShapes.Item>, special: bool,
                                      layerNames: map<int, string>, viaNames: Option<map<int, string>>)
    ensures Fold(t, a + b, special, layerNames, viaNames) ==
            match Fold(t, a, special, layerNames, viaNames)
            case None => None
            case Some(t') => Fold(t', b, special, layerNames, viaNames)
    decreases |a|
  {
    if a == [] {
      assert a + b == b;
    } else {
      assert (a + b)[0] == a[0] && (a + b)[1..] == a[1..] + b;
      match Step(t, a[0], special, layerNames, viaNames)
      case None =>
      case Some(t') => FoldAppend(t', a[1..], b, special, layerNames, viaNames);
    }
  }

  /** The boxes of the listed geometries, geometry by geometry from the
      front. */
  lemma {:induction false} BoxesCons(ids: seq<int>, geometries: map<int, seq<WireShapes.Item>>)
    requires ids != []
    ensures WireShapes.Boxes(ids, geometries) ==
            if ids[0] !in geometries then None
            else match WireShapes.Boxes(ids[1..], geometries)
                 case None => None
                 case Some(r) => Some(geometries[ids[0]] + r)
    decreases |ids|
  {
    var n := |ids| - 1;
    if n > 0 {
      var init := ids[..n];
      BoxesCons(init, geometries);
      assert init[0] == ids[0] && init[1..] == ids[1..][..n - 1];
      assert ids[1..][n - 1] == ids[n];
      var b := WireShapes.Boxes(ids[1..][..n - 1], geometries);
      if ids[0] in geometries && b.Some? && ids[n] in geometries {
        AppendAssoc(geometries[ids[0]], b.value, geometries[ids[n]]);
      }
    } else {
      assert ids[..0] == [] && ids[1..] == [];
      if ids[0] in geometries {
        assert [] + geometries[ids[0]] == geometries[ids[0]] + [];
      }
    }
  }

  lemma AppendAssoc<T>(a: seq<T>, b: seq<T>, c: seq<T>)
    ensures a + b + c == a + (b + c)
  {
  }

  /** The nested loops over a special wire's geometries are one fold over
      all its boxes, the boxes the wire pass draws. */
  lemma {:induction false} SpecialFoldFlat(t: Tally, ids: seq<int>, geometries: map<int, seq<WireShapes.Item>>,
                                           layerNames: map<int, string>, viaNames: Option<map<int, string>>)
    ensures SpecialFold(t, ids, geometries, layerNames, viaNames) ==
            match WireShapes.Boxes(ids, geometries)
            case None => None
            case Some(boxes) => Fold(t, boxes, true, layerNames, viaNames)
    decreases |ids|
  {
    if WireShapes.Boxes(ids, geometries).None? {
      SpecialFoldMissing(t, ids, geometries, layerNames, viaNames);
    } else if ids != [] {
      BoxesCons(ids, geometries);
      if ids[0] in geometries {
        var first := geometries[ids[0]];
        match Fold(t, first, true, layerNames, viaNames)
        case None =>
          var rest := WireShapes.Boxes(ids[1..], geometries);
          if rest.Some? {
            FoldAppend(t, first, rest.value, true, layerNames, viaNames);
          }
        case Some(t') =>
          SpecialFoldFlat(t', ids[1..], geometries, layerNames, viaNames);
          var rest := WireShapes.Boxes(ids[1..], geometries);
          if rest.Some? {
            FoldAppend(t, first, rest.value, true, layerNames, viaNames);
          }
      }
    }
  }

  /** The counts of a wire: for an ordinary wire, one layer entry per edge
      and vias plus segments equal to the edges, a via being an edge whose
      Via is set; for a special wire the same over all boxes of all its
      special geometries. */
  lemma WireCounts(net: WireShapes.Net, geometries: map<int, seq<WireShapes.Item>>,
                   layerNames: map<int, string>, viaNames: Option<map<int, string>>)
    requires WireTally(net, geometries, layerNames, viaNames).Some?
    ensures var items := WireShapes.Items(net, geometries);
            var t := WireTally(net, geometries, layerNames, viaNames).value;
            items.Some? && |t.layers| == |items.value| &&
            t.numVias == ViaCount(items.value) && t.numVias + t.numSegments == |items.value|
  {
    if net.isSpecial {
      SpecialFoldFlat(Empty, net.specialBoxes, geometries, layerNames, viaNames);
      FoldCounts(Empty, WireShapes.Items(net, geometries).value, true, layerNames, viaNames);
    } else {
      FoldCounts(Empty, net.edges, false, layerNames, viaNames);
    }
  }

  /** A missing special geometry makes the dialog throw. */
  lemma {:induction false} SpecialFoldMissing(t: Tally, ids: seq<int>, geometries: map<int, seq<WireShapes.Item>>,
                                              layerNames: map<int, string>, viaNames: Option<map<int, string>>)
    requires exists k :: 0 <= k < |ids| && ids[k] !in geometries
    ensures SpecialFold(t, ids, geometries, layerNames, viaNames).None?
    decreases |ids|
  {
    if ids[0] in geometries {
      var k :| 0 <= k < |ids| && ids[k] !in geometries;
      assert ids[1..][k - 1] == ids[k];
      match Fold(t, geometries[ids[0]], true, layerNames, viaNames)
      case None =>
      case Some(t') => SpecialFoldMissing(t', ids[1..], geometries, layerNames, viaNames);
    }
  }

  /** As written: a special wire with a via box always throws, whatever
      the layer table holds. */
  lemma AsWrittenViaBoxThrows(net: WireShapes.Net, geometries: map<int, seq<WireShapes.Item>>,
                              layerNames: map<int, string>, boxes: seq<WireShapes.Item>, k: nat)
    requires net.isSpecial && WireShapes.Items(net, geometries) == Some(boxes)
    requires k < |boxes| && boxes[k].via.Some?
    ensures WireTally(net, geometries, layerNames, None).None?
  {
    SpecialFoldFlat(Empty, net.specialBoxes, geometries, layerNames, None);
    FoldCounts(Empty, boxes, true, layerNames, None);
  }

  /** With the via table supplied, a special wire's dialog throws only for
      a box it cannot name, and a via box shows its via's name. */
  lemma CorrectedViaBoxNamed(net: WireShapes.Net, geometries: map<int, seq<WireShapes.Item>>,
                             layerNames: map<int, string>, viaNames: map<int, string>, boxes: seq<WireShapes.Item>)
    requires net.isSpecial && WireShapes.Items(net, geometries) == Some(boxes)
    ensures var t := WireTally(net, geometries, layerNames, Some(viaNames));
            (t.None? <==> Unnamed(boxes, true, layerNames, Some(viaNames))) &&
            (t.Some? ==> |t.value.layers| == |boxes|) &&
            (t.Some? ==> forall k :: 0 <= k < |boxes| && boxes[k].via.Some? ==>
                           boxes[k].via.value in viaNames && t.value.layers[k] == viaNames[boxes[k].via.value])
  {
    SpecialFoldFlat(Empty, net.specialBoxes, geometries, layerNames, Some(viaNames));
    FoldCounts(Empty, boxes, true, layerNames, Some(viaNames));
  }

  // ---- The layer text ----

  /** `xs.join(sep)`. */
  function Join(xs: seq<string>, sep: string): string
    decreases |xs|
  {
    if |xs| == 0 then "" else if |xs| == 1 then xs[0] else xs[0] + sep + Join(xs[1..], sep)
  }

  /** Joining two non-empty lists puts one separator between their joins. */
  lemma {:induction false} JoinAppend(a: seq<string>, b: seq<string>, sep: string)
    requires a != [] && b != []
    ensures Join(a + b, sep) == Join(a, sep) + sep + Join(b, sep)
    decreases |a|
  {
    assert (a + b)[0] == a[0] && (a + b)[1..] == a[1..] + b;
    if |a| > 1 {
      JoinAppend(a[1..], b, sep);
    }
  }

  /** The entries shown: all of them up to four, otherwise the first two,
      "..." and the last two. */
  function ShownLayers(layers: seq<string>): (shown: seq<string>)
    ensures |layers| <= 4 ==> shown == layers
    ensures |layers| > 4 ==> |shown| == 5 && shown[..2] == layers[..2] && shown[2] == "..." &&
                             shown[3..] == layers[|layers| - 2..]
  {
    if |layers| <= 4 then layers else layers[..2] + ["..."] + layers[|layers| - 2..]
  }

  function LayersText(layers: seq<string>): string {
    Join(ShownLayers(layers), ", ")
  }

  /** A long list shows its first two names, then "...", then its last two. */
  lemma LayersTextLong(layers: seq<string>)
    requires |layers| > 4
    ensures LayersText(layers) ==
            layers[0] + ", " + layers[1] + ", ..., " + layers[|layers| - 2] + ", " + layers[|layers| - 1]
  {
    var head, tail := layers[..2], layers[|layers| - 2..];
    JoinAppend(head + ["..."], tail, ", ");
    JoinAppend(head, ["..."], ", ");
    assert Join(head, ", ") == layers[0] + ", " + layers[1] by {
      assert head[1..] == [layers[1]];
    }
    assert Join(tail, ", ") == layers[|layers| - 2] + ", " + layers[|layers| - 1] by {
      assert tail[1..] == [layers[|layers| - 1]];
    }
    assert ShownLayers(layers) == head + ["..."] + tail;
  }

  /** What the dialog shows of a wire: the layer text and the two counts. */
  datatype WireInfo = WireInfo(layersText: string, numSegments: nat, numVias: nat)

  function InfoOf(t: Option<Tally>): Option<WireInfo> {
    match t
    case None => None
    case Some(t) => Some(WireInfo(LayersText(t.layers), t.numSegments, t.numVias))
  }

  /** WireDialog with its forEach loops. */
  method WireDialog(net: WireShapes.Net, geometries: map<int, seq<WireShapes.Item>>,
                    layerNames: map<int, string>, viaNames: Option<map<int, string>>)
    returns (info: Option<WireInfo>)
    ensures info == InfoOf(WireTally(net, geometries, layerNames, viaNames))
  {
    var t: Option<Tally>;
    if net.isSpecial {
      t := Some(Empty);
      var i := 0;
      while i < |net.specialBoxes|
        invariant 0 <= i <= |net.specialBoxes| && t.Some?
        invariant SpecialFold(Empty, net.specialBoxes, geometries, layerNames, viaNames)
               == SpecialFold(t.value, net.specialBoxes[i..], geometries, layerNames, viaNames)
      {
        var id := net.specialBoxes[i];
        assert net.specialBoxes[i..][1..] == net.specialBoxes[i + 1..];
        if id !in geometries {
          return None;
        }
        var next := ItemsLoop(t.value, geometries[id], true, layerNames, viaNames);
        if next.None? {
          return None;
        }
        t := next;
        i := i + 1;
      }
    } else {
      t := ItemsLoop(Empty, net.edges, false, layerNames, viaNames);
    }
    info := InfoOf(t);
  }

  /** The inner forEach over a list of edges or boxes. */
  method ItemsLoop(t0: Tally, items: seq<WireShapes.Item>, special: bool, layerNames: map<int, string>,
                   viaNames: Option<map<int, string>>) returns (r: Option<Tally>)
    ensures r == Fold(t0, items, special, layerNames, viaNames)
  {
    var t := t0;
    var j := 0;
    while j < |items|
      invariant 0 <= j <= |items|
      invariant Fold(t0, items, special, layerNames, viaNames) == Fold(t, items[j..], special, layerNames, viaNames)
    {
      var item := items[j];
      assert items[j..][0] == item && items[j..][1..] == items[j + 1..];
      var name := ItemName(item, special, layerNames, viaNames);
      if name.None? {
        return None;
      }
      if item.via.Some? {
        t := Tally(t.layers + [name.value], t.numSegments, t.numVias + 1);
      } else {
        t := Tally(t.layers + [name.value], t.numSegments + 1, t.numVias);
      }
      j := j + 1;
    }
    r := Some(t);
  }

  // ---- LayerDialog ----

  /** The swatch of a layer: the picture from the layer's builder and its
      rotation in degrees, None where the builder gives no angle. */
  datatype Swatch = Swatch(src: Textures.Image, degrees: Option<int>)

  /** What the dialog shows: the title and, except for Cut layers, the
      colour swatch. */
  datatype LayerInfo = LayerInfo(title: string, swatch: Option<Swatch>)

  /** The style LayerDialog passes: the layer's colour, the hatch line
      thickness and the pin opacity, no alternate colour, and no square
      size, which `squareSize` stands for. */
  function DialogStyle(color: string, hatchLineThickness: real, opacity: real, squareSize: real): Textures.Style {
    Textures.Style(color, hatchLineThickness, squareSize, Some(opacity), None)
  }

  /** LayerDialog: the builder of the layer's colour entry is called
      without a renderer on a 16 by 16 shape, and its angle, a multiple of
      pi/4, is shown in degrees; a layer missing from the colour table
      throws. */
  method LayerDialog(layer: Textures.Layer, name: string, colors: map<int, Textures.LayerColor>,
                     hatchLineThickness: real, opacity: real, simple: bool, squareSize: real)
    returns (info: Option<LayerInfo>)
    ensures info.Some? <==> layer.ID in colors
    ensures info.Some? ==> info.value.title == "Metal Layer: " + name
    ensures info.Some? ==> (info.value.swatch.Some? <==> layer.Type != Textures.Cut)
    ensures info.Some? && info.value.swatch.Some? ==>
              var s := info.value.swatch.value;
              var entry := colors[layer.ID];
              (entry.pattern == Textures.RightHatchPattern ==> s.degrees == Some(45)) &&
              (entry.pattern == Textures.LeftHatchPattern ==> s.degrees == Some(-45)) &&
              (entry.pattern == Textures.VerticalHatchPattern ==> s.degrees == Some(90)) &&
              (entry.pattern == Textures.HorizontalHatchPattern ==> s.degrees == Some(0)) &&
              (entry.pattern == Textures.SquarePattern ==> s.degrees.None?) &&
              (simple ==> Textures.IsFlat(s.src, entry.color)) &&
              (!simple && entry.pattern != Textures.SquarePattern ==>
                 |s.src.rects| == 2 && s.src.rects[0].fill == entry.color &&
                 s.src.rects[1].fill == Textures.White && s.src.height == 2.0 * hatchLineThickness)
  {
    if layer.ID !in colors {
      return None;
    }
    var entry := colors[layer.ID];
    var style := DialogStyle(entry.color, hatchLineThickness, opacity, squareSize);
    var attributes: Textures.Attributes;
    match entry.pattern {
      case RightHatchPattern => attributes := Textures.RightHatch(false, 16.0, 16.0, style, simple);
      case LeftHatchPattern => attributes := Textures.LeftHatch(false, 16.0, 16.0, style, simple);
      case VerticalHatchPattern => attributes := Textures.VerticalHatch(false, 16.0, 16.0, style, simple);
      case HorizontalHatchPattern => attributes := Textures.HorizontalHatch(false, 16.0, 16.0, style, simple);
      case SquarePattern => attributes := Textures.SquareHatchAttributes(false, style, simple);
    }
    var swatch: Option<Swatch> := None;
    if layer.Type != Textures.Cut {
      var degrees := if attributes.angle.Some? then Some(attributes.angle.value * 45) else None;
      swatch := Some(Swatch(attributes.src, degrees));
    }
    info := Some(LayerInfo("Metal Layer: " + name, swatch));
  }

  /** The layers whose swatch is left out are exactly those whose colour
      entry uses the square builder, so neither its missing square size nor
      its missing angle reaches a shown swatch. */
  lemma CutLayersSquare(config: Textures.ColorConfig, layers: seq<Textures.Layer>, ind: nat,
                        main: seq<string>, masterslice: seq<string>)
    requires ind < |layers| && Textures.KnownType(layers[ind].Type)
    requires |main| == Textures.MaxTypeCount(layers) && |masterslice| == Textures.CountOf(layers, Textures.Masterslice)
    ensures var e := Textures.Entry(config, layers, ind, main, masterslice).value;
            layers[ind].Type == Textures.Cut <==> e.pattern == Textures.SquarePattern
  {
    TexturesProperties.EntryShape(config, layers, ind, main, masterslice);
  }
}
