/** The wire layer of the viewer (createWiresContainer in
    client/components/viewer/DEFViewer.js): which edges of the ordinary nets
    and which boxes of the special nets become shapes, the metal layer each
    shape is drawn on, and the order in which the shapes are added to the
    container. Coordinates, textures and click handlers are not modelled;
    a shape records where it came from. */
module WireShapes {
  import opened Wrappers
  import StableSort

  /** The layer and via references of an edge of an ordinary net, or of a
      box of a special net's geometry, by ID. */
  datatype Item = Item(layer: Option<int>, via: Option<int>)

  /** A net of the design: an ordinary net lists its edges, a special net
      the IDs of its special geometries. */
  datatype Net = Net(isRouted: bool, isSpecial: bool, edges: seq<Item>, specialBoxes: seq<int>)

  /** The layers of a via definition, by ID. */
  datatype ViaDef = ViaDef(cutLayer: Option<int>, bottomLayer: Option<int>, topLayer: Option<int>)

  /** The visibility of vias, of wire segments and of special wires. */
  datatype Shown = Shown(vias: bool, segments: bool, special: bool)

  /** A shape to draw: the position of its net in the design's net list, the
      position of its edge or box among the net's items, whether it is a
      via, and the layer whose colour and hatch it takes. */
  datatype Shape = Shape(net: nat, item: nat, isVia: bool, layerId: int)

  /** What one item does: the pass throws (a missing reference is
      dereferenced), the item is hidden, or it is drawn. */
  datatype Step = Throws | Hidden | Drawn(shape: Shape)

  /** The items of a net: its edges, or the boxes of its special
      geometries, one geometry after the other. None when a special
      geometry is missing, where the pass throws. */
  function Items(net: Net, geometries: map<int, seq<Item>>): (r: Option<seq<Item>>)
    ensures !net.isSpecial ==> r == Some(net.edges)
  {
    if net.isSpecial then Boxes(net.specialBoxes, geometries) else Some(net.edges)
  }

  /** The boxes of the listed geometries, concatenated in list order. */
  function Boxes<B>(ids: seq<int>, geometries: map<int, seq<B>>): (r: Option<seq<B>>)
    ensures r.None? <==> exists k :: 0 <= k < |ids| && ids[k] !in geometries
  {
    if ids == [] then Some([])
    else
      var init := Boxes(ids[..|ids| - 1], geometries);
      var last := ids[|ids| - 1];
      assert forall k :: 0 <= k < |ids| - 1 ==> ids[..|ids| - 1][k] == ids[k];
      if init.None? || last !in geometries then None else Some(init.value + geometries[last])
  }

  /** The layer a via box of a special net is drawn on: the via's cut
      layer, else its bottom layer, else its top layer. None when the via is
      unknown or has none of them, where the pass throws. */
  function ViaLayer(via: int, vias: map<int, ViaDef>): (r: Option<int>)
    ensures r.Some? ==> via in vias
    ensures via in vias && vias[via].cutLayer.Some? ==> r == vias[via].cutLayer
  {
    if via !in vias then None
    else
      var v := vias[via];
      if v.cutLayer.Some? then v.cutLayer
      else if v.bottomLayer.Some? then v.bottomLayer
      else v.topLayer
  }

  /** The layer ID of an item, before the -1 fallback. An edge of an
      ordinary net takes its layer (a missing one throws); a box of a
      special net takes its layer, else its via's layer, else -1. */
  function RawLayer(special: bool, item: Item, vias: map<int, ViaDef>): (r: Option<int>)
    ensures !special ==> r == item.layer
    ensures special && item.layer.None? && item.via.None? ==> r == Some(-1)
  {
    if !special then item.layer
    else if item.layer.Some? then item.layer
    else if item.via.Some? then ViaLayer(item.via.value, vias)
    else Some(-1)
  }

  /** The layer an item is drawn on: -1 stands for layer 1. */
  function LayerId(special: bool, item: Item, vias: map<int, ViaDef>): (r: Option<int>)
    ensures r.None? <==> RawLayer(special, item, vias).None?
    ensures r.Some? ==> r.value != -1
    ensures r.Some? && RawLayer(special, item, vias).value != -1 ==> r == RawLayer(special, item, vias)
  {
    match RawLayer(special, item, vias)
    case None => None
    case Some(id) => if id == -1 then Some(1) else Some(id)
  }

  /** One item of net `net` at position `ind`. The layer's colour entry is
      looked up before the visibility test, so an item whose layer has no
      colour throws even when it would be hidden. */
  function Place(net: nat, ind: nat, special: bool, item: Item, vias: map<int, ViaDef>,
                 colors: set<int>, shown: Shown): (r: Step)
    ensures r.Drawn? ==> r.shape.net == net && r.shape.item == ind && r.shape.isVia == item.via.Some?
    ensures r.Drawn? ==> r.shape.layerId != -1 && r.shape.layerId in colors
    ensures r.Drawn? ==> (if item.via.Some? then shown.vias else shown.segments)
    ensures r.Hidden? <==> LayerId(special, item, vias).Some? && LayerId(special, item, vias).value in colors &&
                           !(if item.via.Some? then shown.vias else shown.segments)
  {
    match LayerId(special, item, vias)
    case None => Throws
    case Some(id) =>
      if id !in colors then Throws
      else if item.via.Some? && !shown.vias then Hidden
      else if item.via.None? && !shown.segments then Hidden
      else Drawn(Shape(net, ind, item.via.Some?, id))
  }

  /** The shapes of the first `|items|` items of net `net`, in item order;
      None when one of them throws. */
  function ItemShapes(net: nat, special: bool, items: seq<Item>, vias: map<int, ViaDef>,
                      colors: set<int>, shown: Shown): (r: Option<seq<Shape>>)
    ensures r.Some? ==> |r.value| <= |items|
  {
    if items == [] then Some([])
    else
      var init := ItemShapes(net, special, items[..|items| - 1], vias, colors, shown);
      var step := Place(net, |items| - 1, special, items[|items| - 1], vias, colors, shown);
      if init.None? || step.Throws? then None
      else if step.Hidden? then init
      else Some(init.value + [step.shape])
  }

  /** The shapes of one net: none for an unrouted net, or for a special net
      while special wires are hidden. */
  function NetShapes(i: nat, net: Net, geometries: map<int, seq<Item>>, vias: map<int, ViaDef>,
                     colors: set<int>, shown: Shown): (r: Option<seq<Shape>>)
    ensures !net.isRouted ==> r == Some([])
    ensures net.isSpecial && !shown.special ==> r == Some([])
  {
    if !net.isRouted || (net.isSpecial && !shown.special) then Some([])
    else
      match Items(net, geometries)
      case None => None
      case Some(items) => ItemShapes(i, net.isSpecial, items, vias, colors, shown)
  }

  /** The shapes of all nets, net after net, before the sort. */
  function Collected(nets: seq<Net>, geometries: map<int, seq<Item>>, vias: map<int, ViaDef>,
                     colors: set<int>, shown: Shown): (r: Option<seq<Shape>>)
    ensures r.Some? ==> forall s :: s in r.value ==> s.net < |nets|
  {
    if nets == [] then Some([])
    else
      var n := |nets| - 1;
      var init := Collected(nets[..n], geometries, vias, colors, shown);
      var last := NetShapes(n, nets[n], geometries, vias, colors, shown);
      if init.None? || last.None? then None
      else
        assert forall s :: s in last.value ==> s.net == n by {
          NetShapesOf(n, nets[n], geometries, vias, colors, shown);
        }
        Some(init.value + last.value)
  }

  /** The sort key: the layer ID, ascending when layers are drawn bottom to
      top, descending otherwise. */
  function Rank(bottomToTop: bool): (rank: Shape -> int)
    ensures forall s :: rank(s) == (if bottomToTop then s.layerId else -s.layerId)
  {
    if bottomToTop then (s: Shape) => s.layerId else (s: Shape) => -s.layerId
  }

  /** The shapes of a net all carry the net's position. */
  lemma {:induction false} ItemShapesOf(net: nat, special: bool, items: seq<Item>, vias: map<int, ViaDef>,
                                        colors: set<int>, shown: Shown)
    ensures var r := ItemShapes(net, special, items, vias, colors, shown);
      r.Some? ==> forall s :: s in r.value ==>
        s.net == net && s.item < |items| && s.layerId != -1 && s.layerId in colors &&
        (if s.isVia then shown.vias else shown.segments)
  {
    if items != [] {
      ItemShapesOf(net, special, items[..|items| - 1], vias, colors, shown);
    }
  }

  lemma NetShapesOf(i: nat, net: Net, geometries: map<int, seq<Item>>, vias: map<int, ViaDef>,
                    colors: set<int>, shown: Shown)
    ensures var r := NetShapes(i, net, geometries, vias, colors, shown);
      r.Some? ==> forall s :: s in r.value ==>
        s.net == i && net.isRouted && (net.isSpecial ==> shown.special) &&
        s.layerId != -1 && s.layerId in colors && (if s.isVia then shown.vias else shown.segments)
  {
    if net.isRouted && !(net.isSpecial && !shown.special) {
      var items := Items(net, geometries);
      if items.Some? {
        ItemShapesOf(i, net.isSpecial, items.value, vias, colors, shown);
      }
    }
  }

  /** Every shape comes from a routed net, from a special one only while
      special wires are shown, is a via only while vias are shown and a
      segment only while segments are shown, and has a coloured layer
      other than -1. */
  lemma {:induction false} CollectedShapesAllowed(nets: seq<Net>, geometries: map<int, seq<Item>>,
                                                  vias: map<int, ViaDef>, colors: set<int>, shown: Shown)
    ensures var r := Collected(nets, geometries, vias, colors, shown);
      r.Some? ==> forall s :: s in r.value ==>
        s.net < |nets| && nets[s.net].isRouted && (nets[s.net].isSpecial ==> shown.special) &&
        s.layerId != -1 && s.layerId in colors && (if s.isVia then shown.vias else shown.segments)
  {
    if nets != [] {
      var n := |nets| - 1;
      CollectedShapesAllowed(nets[..n], geometries, vias, colors, shown);
      NetShapesOf(n, nets[n], geometries, vias, colors, shown);
      assert forall k :: 0 <= k < n ==> nets[..n][k] == nets[k];
    }
  }

  /** With vias and segments both shown, every item of a net that does not
      throw is drawn: one shape per item, in item order. */
  lemma {:induction false} AllItemsDrawn(net: nat, special: bool, items: seq<Item>, vias: map<int, ViaDef>,
                                         colors: set<int>, shown: Shown)
    requires shown.vias && shown.segments
    ensures var r := ItemShapes(net, special, items, vias, colors, shown);
      r.Some? ==> |r.value| == |items| && forall k :: 0 <= k < |items| ==> r.value[k].item == k
  {
    if items != [] {
      AllItemsDrawn(net, special, items[..|items| - 1], vias, colors, shown);
    }
  }

  /** An ordinary routed net whose edges all lie on coloured layers, with
      vias and segments shown, yields one shape per edge, each a via
      exactly when its edge has one and on the edge's own layer (layer -1
      drawn as layer 1). */
  lemma {:induction false} OrdinaryNetShapes(net: nat, edges: seq<Item>, vias: map<int, ViaDef>,
                                             colors: set<int>, shown: Shown)
    requires shown.vias && shown.segments
    requires forall k :: 0 <= k < |edges| ==> edges[k].layer.Some? && edges[k].layer.value in colors
    requires forall k :: 0 <= k < |edges| ==> edges[k].layer.value != -1
    ensures var r := ItemShapes(net, false, edges, vias, colors, shown);
      r.Some? && |r.value| == |edges| &&
      forall k :: 0 <= k < |edges| ==>
        r.value[k] == Shape(net, k, edges[k].via.Some?, edges[k].layer.value)
  {
    if edges != [] {
      var init := edges[..|edges| - 1];
      assert forall k :: 0 <= k < |init| ==> init[k] == edges[k];
      OrdinaryNetShapes(net, init, vias, colors, shown);
    }
  }

  /** The shapes in the order they are added to the container. */
  function Sorted(nets: seq<Net>, geometries: map<int, seq<Item>>, vias: map<int, ViaDef>,
                  colors: set<int>, shown: Shown, bottomToTop: bool): (r: Option<seq<Shape>>)
    ensures r.None? <==> Collected(nets, geometries, vias, colors, shown).None?
    ensures r.Some? ==> StableSort.SortedBy(r.value, Rank(bottomToTop))
    ensures r.Some? ==> multiset(r.value) == multiset(Collected(nets, geometries, vias, colors, shown).value)
  {
    match Collected(nets, geometries, vias, colors, shown)
    case None => None
    case Some(shapes) => Some(StableSort.SortBy(shapes, Rank(bottomToTop)))
  }

  /** Shapes on the same layer are added in the order they were collected:
      net order, then item order. */
  lemma SortedKeepsLayerOrder(nets: seq<Net>, geometries: map<int, seq<Item>>, vias: map<int, ViaDef>,
                              colors: set<int>, shown: Shown, bottomToTop: bool, k: int)
    requires Collected(nets, geometries, vias, colors, shown).Some?
    ensures StableSort.WithRank(Sorted(nets, geometries, vias, colors, shown, bottomToTop).value, Rank(bottomToTop), k)
         == StableSort.WithRank(Collected(nets, geometries, vias, colors, shown).value, Rank(bottomToTop), k)
  {
    StableSort.SortByStable(Collected(nets, geometries, vias, colors, shown).value, Rank(bottomToTop), k);
  }

  /** The special net's boxes, gathered geometry by geometry. */
  method GatherBoxes<B>(ids: seq<int>, geometries: map<int, seq<B>>) returns (r: Option<seq<B>>)
    ensures r == Boxes(ids, geometries)
  {
    var rects: seq<B> := [];
    var i := 0;
    while i < |ids|
      invariant 0 <= i <= |ids|
      invariant Boxes(ids[..i], geometries) == Some(rects)
    {
      if ids[i] !in geometries {
        assert Boxes(ids[..i + 1], geometries).None? by {
          assert ids[..i + 1][i] == ids[i];
        }
        BoxesPrefixNone(ids, i + 1, geometries);
        return None;
      }
      assert ids[..i + 1][..i] == ids[..i];
      rects := rects + geometries[ids[i]];
      i := i + 1;
    }
    assert ids[..i] == ids;
    r := Some(rects);
  }

  lemma BoxesPrefixNone<B>(ids: seq<int>, n: nat, geometries: map<int, seq<B>>)
    requires n <= |ids|
    requires Boxes(ids[..n], geometries).None?
    ensures Boxes(ids, geometries).None?
  {
    var k :| 0 <= k < n && ids[..n][k] !in geometries;
    assert ids[k] !in geometries;
  }

  /** The per-net forEach: the shapes of one net's items, pushed in order. */
  method NetPass(i: nat, net: Net, geometries: map<int, seq<Item>>, vias: map<int, ViaDef>,
                 colors: set<int>, shown: Shown) returns (r: Option<seq<Shape>>)
    ensures r == NetShapes(i, net, geometries, vias, colors, shown)
  {
    if !net.isRouted || (net.isSpecial && !shown.special) {
      return Some([]);
    }
    var items: seq<Item>;
    if !net.isSpecial {
      items := net.edges;
    } else {
      var boxes := GatherBoxes(net.specialBoxes, geometries);
      if boxes.None? {
        return None;
      }
      items := boxes.value;
    }
    r := ItemsPass(i, net.isSpecial, items, vias, colors, shown);
  }

  /** The inner forEach over one net's items, stopping at the first throw. */
  method ItemsPass(i: nat, special: bool, items: seq<Item>, vias: map<int, ViaDef>,
                   colors: set<int>, shown: Shown) returns (r: Option<seq<Shape>>)
    ensures r == ItemShapes(i, special, items, vias, colors, shown)
  {
    var shapes: seq<Shape> := [];
    var ind := 0;
    while ind < |items|
      invariant 0 <= ind <= |items|
      invariant ItemShapes(i, special, items[..ind], vias, colors, shown) == Some(shapes)
    {
      var step := Place(i, ind, special, items[ind], vias, colors, shown);
      ItemShapesStep(i, special, items, ind, vias, colors, shown);
      if step.Throws? {
        ItemShapesPrefixNone(i, special, items, ind + 1, vias, colors, shown);
        return None;
      }
      if step.Drawn? {
        shapes := shapes + [step.shape];
      }
      ind := ind + 1;
    }
    assert items[..ind] == items;
    r := Some(shapes);
  }

  /** The shapes of the first `ind + 1` items extend those of the first `ind`. */
  lemma ItemShapesStep(i: nat, special: bool, items: seq<Item>, ind: int, vias: map<int, ViaDef>,
                       colors: set<int>, shown: Shown)
    requires 0 <= ind < |items|
    ensures var init := ItemShapes(i, special, items[..ind], vias, colors, shown);
            var step := Place(i, ind, special, items[ind], vias, colors, shown);
            ItemShapes(i, special, items[..ind + 1], vias, colors, shown) ==
              if init.None? || step.Throws? then None
              else if step.Hidden? then init
              else Some(init.value + [step.shape])
  {
    assert items[..ind + 1][..ind] == items[..ind];
  }

  /** A throw in the first `n` items is a throw of the whole net. */
  lemma {:induction false} ItemShapesPrefixNone(net: nat, special: bool, items: seq<Item>, n: nat,
                                                vias: map<int, ViaDef>, colors: set<int>, shown: Shown)
    requires 0 < n <= |items|
    requires ItemShapes(net, special, items[..n], vias, colors, shown).None?
    ensures ItemShapes(net, special, items, vias, colors, shown).None?
    decreases |items| - n
  {
    if n < |items| {
      assert items[..n + 1][..n] == items[..n];
      ItemShapesPrefixNone(net, special, items, n + 1, vias, colors, shown);
    } else {
      assert items[..n] == items;
    }
  }

  /** A throw in the first `n` nets is a throw of the whole pass. */
  lemma {:induction false} CollectedPrefixNone(nets: seq<Net>, n: nat, geometries: map<int, seq<Item>>,
                                               vias: map<int, ViaDef>, colors: set<int>, shown: Shown)
    requires 0 < n <= |nets|
    requires Collected(nets[..n], geometries, vias, colors, shown).None?
    ensures Collected(nets, geometries, vias, colors, shown).None?
    decreases |nets| - n
  {
    if n < |nets| {
      assert nets[..n + 1][..n] == nets[..n];
      CollectedPrefixNone(nets, n + 1, geometries, vias, colors, shown);
    } else {
      assert nets[..n] == nets;
    }
  }

  /** createWiresContainer: the nets' shapes are pushed net by net, then
      sorted by layer with the runtime's stable sort. None when the pass
      throws. */
  method CreateWiresContainer(nets: seq<Net>, geometries: map<int, seq<Item>>, vias: map<int, ViaDef>,
                              colors: set<int>, shown: Shown, bottomToTop: bool)
    returns (r: Option<seq<Shape>>)
    ensures r == Sorted(nets, geometries, vias, colors, shown, bottomToTop)
  {
    var wireShapes: seq<Shape> := [];
    var i := 0;
    while i < |nets|
      invariant 0 <= i <= |nets|
      invariant Collected(nets[..i], geometries, vias, colors, shown) == Some(wireShapes)
    {
      assert nets[..i + 1][..i] == nets[..i];
      assert nets[..i + 1][i] == nets[i];
      var netShapes := NetPass(i, nets[i], geometries, vias, colors, shown);
      if netShapes.None? {
        CollectedPrefixNone(nets, i + 1, geometries, vias, colors, shown);
        return None;
      }
      wireShapes := wireShapes + netShapes.value;
      i := i + 1;
    }
    assert nets[..i] == nets;
    r := Some(StableSort.SortBy(wireShapes, Rank(bottomToTop)));
  }
}
