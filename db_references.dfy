/** buildReferences (server/goopendb/goopendb.go): after the OpenDB bridge
    has filled the design with ID-only stubs, every cross-reference is
    pointed at the design's own object with the same ID. Five tables are
    filled first, a later object overwriting an earlier one with the same
    ID; then the objects the tables hold have their pointers looked up. */
module DbReferences {
  import opened Wrappers
  import Index
  import opened DbDesign

  /** A table entry: an ID and the place of the object filed under it. */
  type Entry = (int, Place)
  type Table = map<int, Entry>

  function Key(e: Entry): int { e.0 }

  function AtInstance(i: nat): Place { InstanceAt(i) }
  function AtNet(i: nat): Place { NetAt(i) }
  function AtInstancePin(i: nat): Place { InstancePinAt(i) }
  function AtBlockPin(i: nat): Place { BlockPinAt(i) }
  function AtRoutingVia(i: nat): Place { RoutingViaAt(i) }
  function AtViaDefinition(i: nat): Place { ViaDefinitionAt(i) }
  function AtLayer(i: nat): Place { LayerAt(i) }

  /** The entries a `for _, x := range list { xMap[x.ID] = x }` loop files. */
  function Entries<T>(s: seq<T>, id: T -> int, place: nat -> Place): (e: seq<Entry>)
    ensures |e| == |s| && forall i :: 0 <= i < |s| ==> e[i] == (id(s[i]), place(i))
  {
    seq(|s|, i requires 0 <= i < |s| => (id(s[i]), place(i)))
  }

  function InstanceTable(d: Design): Table {
    Index.IndexBy(Entries(d.instances, InstanceId, AtInstance), Key)
  }

  function NetTable(d: Design): Table {
    Index.IndexBy(Entries(d.nets, NetId, AtNet), Key)
  }

  /** pinMap: the instance pins, then the block pins. */
  function PinTable(d: Design): Table {
    Index.IndexBy(Entries(d.instancePins, PinId, AtInstancePin) + Entries(d.blockPins, PinId, AtBlockPin), Key)
  }

  /** viaMap: the routing vias, then the via definitions. */
  function ViaTable(d: Design): Table {
    Index.IndexBy(Entries(d.routingVias, ViaId, AtRoutingVia) + Entries(d.viaDefinitions, ViaId, AtViaDefinition), Key)
  }

  function LayerTable(d: Design): Table {
    Index.IndexBy(Entries(d.layers, LayerId, AtLayer), Key)
  }

  // ---- The lookups ----

  /** `x = xMap[x.ID]` for a non-nil pointer: the object filed under the
      ID, or nil when the table has none. */
  function Resolve(r: Ref, t: Table): Ref {
    if r.Nil? then Nil
    else if r.id in t then To(r.id, t[r.id].1)
    else Nil
  }

  function Resolver(t: Table): Ref -> Ref {
    r => Resolve(r, t)
  }

  /** An instance's pins, each replaced by pinMap[pin.ID]. */
  function ResolveInstance(x: Instance, pins: Table): Option<Instance> {
    match MapRefs(x.pins, Resolver(pins))
    case None => None
    case Some(ps) => Some(x.(pins := ps))
  }

  function ResolvePin(p: Pin, instances: Table, nets: Table): Pin {
    p.(instance := Resolve(p.instance, instances), net := Resolve(p.net, nets))
  }

  function ResolveEdge(e: Edge, vias: Table, layers: Table): Edge {
    e.(via := Resolve(e.via, vias), layer := Resolve(e.layer, layers))
  }

  function ResolveNet(n: Net, pins: Table, vias: Table, layers: Table): Option<Net> {
    match MapRefs(n.pins, Resolver(pins))
    case None => None
    case Some(ps) =>
      Some(n.(pins := ps, edges := seq(|n.edges|, k requires 0 <= k < |n.edges| => ResolveEdge(n.edges[k], vias, layers))))
  }

  function ResolveLayer(l: Layer, layers: Table): Layer {
    l.(upper := Resolve(l.upper, layers), lower := Resolve(l.lower, layers))
  }

  function ResolveVia(v: Via, layers: Table): Via {
    v.(top := Resolve(v.top, layers), bottom := Resolve(v.bottom, layers), cut := Resolve(v.cut, layers))
  }

  function InstanceStep(pins: Table): Instance -> Option<Instance> { x => ResolveInstance(x, pins) }
  function PinStep(instances: Table, nets: Table): Pin -> Option<Pin> { p => Some(ResolvePin(p, instances, nets)) }
  function NetStep(pins: Table, vias: Table, layers: Table): Net -> Option<Net> { n => ResolveNet(n, pins, vias, layers) }
  function LayerStep(layers: Table): Layer -> Option<Layer> { l => Some(ResolveLayer(l, layers)) }
  function ViaStep(layers: Table): Via -> Option<Via> { v => Some(ResolveVia(v, layers)) }

  /** The instances after the loop over instanceMap. */
  function ResolvedInstances(d: Design): Option<seq<Instance>> {
    RewriteLast(d.instances, InstanceId, InstanceStep(PinTable(d)))
  }

  /** The instance pins followed by the block pins, after the loop over
      pinMap; this loop cannot panic. */
  function ResolvedPins(d: Design): (r: Option<seq<Pin>>)
    ensures r.Some? && |r.value| == |d.instancePins| + |d.blockPins|
  {
    RewriteLast(d.instancePins + d.blockPins, PinId, PinStep(InstanceTable(d), NetTable(d)))
  }

  function ResolvedNets(d: Design): Option<seq<Net>> {
    RewriteLast(d.nets, NetId, NetStep(PinTable(d), ViaTable(d), LayerTable(d)))
  }

  function ResolvedLayers(d: Design): (r: Option<seq<Layer>>)
    ensures r.Some? && |r.value| == |d.layers|
  {
    RewriteLast(d.layers, LayerId, LayerStep(LayerTable(d)))
  }

  /** The routing vias followed by the via definitions, after the loop
      over viaMap. */
  function ResolvedVias(d: Design): (r: Option<seq<Via>>)
    ensures r.Some? && |r.value| == |d.routingVias| + |d.viaDefinitions|
  {
    RewriteLast(d.routingVias + d.viaDefinitions, ViaId, ViaStep(LayerTable(d)))
  }

  /** buildReferences: None when it panics on a nil element of a pin list. */
  function BuildReferences(d: Design): Option<Design> {
    var instances, pins, nets, layers, vias := ResolvedInstances(d), ResolvedPins(d), ResolvedNets(d), ResolvedLayers(d), ResolvedVias(d);
    if instances.None? || nets.None? then None
    else
      var np, nv := |d.instancePins|, |d.routingVias|;
      Some(d.(instances := instances.value, nets := nets.value,
              instancePins := pins.value[..np], blockPins := pins.value[np..],
              layers := layers.value,
              routingVias := vias.value[..nv], viaDefinitions := vias.value[nv..]))
  }

  // ---- What the tables hold ----

  /** The lists a table is filled from. */
  datatype Kind = Instances | Nets | Pins | Vias | Layers

  function TableOf(d: Design, kind: Kind): Table {
    match kind
    case Instances => InstanceTable(d)
    case Nets => NetTable(d)
    case Pins => PinTable(d)
    case Vias => ViaTable(d)
    case Layers => LayerTable(d)
  }

  predicate OfKind(at: Place, kind: Kind) {
    match kind
    case Instances => at.InstanceAt?
    case Nets => at.NetAt?
    case Pins => at.InstancePinAt? || at.BlockPinAt?
    case Vias => at.RoutingViaAt? || at.ViaDefinitionAt?
    case Layers => at.LayerAt?
  }

  /** The IDs of the objects of a kind. */
  ghost function Ids(d: Design, kind: Kind): set<int> {
    match kind
    case Instances => set x | x in d.instances :: x.id
    case Nets => set x | x in d.nets :: x.id
    case Pins => set x | x in d.instancePins + d.blockPins :: x.id
    case Vias => set x | x in d.routingVias + d.viaDefinitions :: x.id
    case Layers => set x | x in d.layers :: x.id
  }

  /** `at` is where the object with ID `k` is filed: the last instance, net
      or layer with that ID; for pins the last block pin with it or, when no
      block pin has it, the last instance pin; for vias likewise the last
      via definition before any routing via. */
  ghost predicate FiledAt(d: Design, k: int, at: Place) {
    match at
    case InstanceAt(i) =>
      i < |d.instances| && d.instances[i].id == k && Index.LastWithKey(d.instances, InstanceId, i)
    case NetAt(i) =>
      i < |d.nets| && d.nets[i].id == k && Index.LastWithKey(d.nets, NetId, i)
    case LayerAt(i) =>
      i < |d.layers| && d.layers[i].id == k && Index.LastWithKey(d.layers, LayerId, i)
    case BlockPinAt(i) =>
      i < |d.blockPins| && d.blockPins[i].id == k && Index.LastWithKey(d.blockPins, PinId, i)
    case InstancePinAt(i) =>
      i < |d.instancePins| && d.instancePins[i].id == k && Index.LastWithKey(d.instancePins, PinId, i) &&
      forall j :: 0 <= j < |d.blockPins| ==> d.blockPins[j].id != k
    case ViaDefinitionAt(i) =>
      i < |d.viaDefinitions| && d.viaDefinitions[i].id == k && Index.LastWithKey(d.viaDefinitions, ViaId, i)
    case RoutingViaAt(i) =>
      i < |d.routingVias| && d.routingVias[i].id == k && Index.LastWithKey(d.routingVias, ViaId, i) &&
      forall j :: 0 <= j < |d.viaDefinitions| ==> d.viaDefinitions[j].id != k
  }

  /** A table filled from one list holds, under an ID, the place of the
      last element with that ID. */
  lemma EntriesTable<T>(s: seq<T>, id: T -> int, place: nat -> Place, k: int)
    requires k in Index.IndexBy(Entries(s, id, place), Key)
    ensures exists i :: (0 <= i < |s| && Index.LastWithKey(s, id, i) && id(s[i]) == k &&
      Index.IndexBy(Entries(s, id, place), Key)[k] == (k, place(i)))
  {
    var e := Entries(s, id, place);
    Index.IndexByFinds(e, Key, k);
    var i :| 0 <= i < |e| && Index.LastWithKey(e, Key, i) && e[i] == Index.IndexBy(e, Key)[k] && Key(e[i]) == k;
    assert Index.LastWithKey(s, id, i);
  }

  /** A table filled from one list, then another: the second list wins. */
  lemma EntriesTableAppend<T>(a: seq<T>, b: seq<T>, id: T -> int, pa: nat -> Place, pb: nat -> Place, k: int)
    requires k in Index.IndexBy(Entries(a, id, pa) + Entries(b, id, pb), Key)
    ensures var t := Index.IndexBy(Entries(a, id, pa) + Entries(b, id, pb), Key);
      (exists i :: 0 <= i < |b| && Index.LastWithKey(b, id, i) && id(b[i]) == k && t[k] == (k, pb(i))) ||
      ((forall j :: 0 <= j < |b| ==> id(b[j]) != k) &&
       exists i :: 0 <= i < |a| && Index.LastWithKey(a, id, i) && id(a[i]) == k && t[k] == (k, pa(i)))
  {
    var ea, eb := Entries(a, id, pa), Entries(b, id, pb);
    Index.IndexByAppend(ea, eb, Key);
    if k in Index.IndexBy(eb, Key) {
      EntriesTable(b, id, pb, k);
    } else {
      forall j | 0 <= j < |b| ensures id(b[j]) != k {
        assert Key(eb[j]) == id(b[j]);
      }
      EntriesTable(a, id, pa, k);
    }
  }

  /** Every table holds exactly the IDs of its kind, each at the place
      where the object with that ID is filed. */
  lemma TableMeaning(d: Design, kind: Kind, k: int)
    ensures k in TableOf(d, kind) <==> k in Ids(d, kind)
    ensures k in TableOf(d, kind) ==> OfKind(TableOf(d, kind)[k].1, kind) && FiledAt(d, k, TableOf(d, kind)[k].1)
  {
    if k in TableOf(d, kind) {
      match kind
      case Instances =>
        EntriesTable(d.instances, InstanceId, AtInstance, k);
      case Nets =>
        EntriesTable(d.nets, NetId, AtNet, k);
      case Layers =>
        EntriesTable(d.layers, LayerId, AtLayer, k);
      case Pins =>
        EntriesTableAppend(d.instancePins, d.blockPins, PinId, AtInstancePin, AtBlockPin, k);
      case Vias =>
        EntriesTableAppend(d.routingVias, d.viaDefinitions, ViaId, AtRoutingVia, AtViaDefinition, k);
    }
    IdsAreKeys(d, kind, k);
  }

  lemma IdsAreKeys(d: Design, kind: Kind, k: int)
    ensures k in TableOf(d, kind) <==> k in Ids(d, kind)
  {
    match kind
    case Instances => ListIdsAreKeys(d.instances, InstanceId, AtInstance, k);
    case Nets => ListIdsAreKeys(d.nets, NetId, AtNet, k);
    case Layers => ListIdsAreKeys(d.layers, LayerId, AtLayer, k);
    case Pins =>
      assert Entries(d.instancePins, PinId, AtInstancePin) + Entries(d.blockPins, PinId, AtBlockPin)
          == Entries(d.instancePins + d.blockPins, PinId, PinPlace(|d.instancePins|));
      ListIdsAreKeys(d.instancePins + d.blockPins, PinId, PinPlace(|d.instancePins|), k);
    case Vias =>
      assert Entries(d.routingVias, ViaId, AtRoutingVia) + Entries(d.viaDefinitions, ViaId, AtViaDefinition)
          == Entries(d.routingVias + d.viaDefinitions, ViaId, ViaPlace(|d.routingVias|));
      ListIdsAreKeys(d.routingVias + d.viaDefinitions, ViaId, ViaPlace(|d.routingVias|), k);
  }

  function PinPlace(n: nat): nat -> Place {
    (i: nat) => if i < n then InstancePinAt(i) else BlockPinAt(i - n)
  }

  function ViaPlace(n: nat): nat -> Place {
    (i: nat) => if i < n then RoutingViaAt(i) else ViaDefinitionAt(i - n)
  }

  lemma ListIdsAreKeys<T>(s: seq<T>, id: T -> int, place: nat -> Place, k: int)
    ensures k in Index.IndexBy(Entries(s, id, place), Key) <==> k in (set x | x in s :: id(x))
  {
    if k in (set x | x in s :: id(x)) {
      var x :| x in s && id(x) == k;
      var i :| 0 <= i < |s| && s[i] == x;
      assert Key(Entries(s, id, place)[i]) == k;
    }
  }

  /** A via definition wins over a routing via with the same ID; likewise a
      block pin over an instance pin. */
  lemma ViaDefinitionsWin(d: Design, j: nat)
    requires j < |d.viaDefinitions|
    ensures d.viaDefinitions[j].id in ViaTable(d) && ViaTable(d)[d.viaDefinitions[j].id].1.ViaDefinitionAt?
  {
    var k := d.viaDefinitions[j].id;
    assert (d.routingVias + d.viaDefinitions)[|d.routingVias| + j] == d.viaDefinitions[j];
    TableMeaning(d, Vias, k);
  }

  lemma BlockPinsWin(d: Design, j: nat)
    requires j < |d.blockPins|
    ensures d.blockPins[j].id in PinTable(d) && PinTable(d)[d.blockPins[j].id].1.BlockPinAt?
  {
    var k := d.blockPins[j].id;
    assert (d.instancePins + d.blockPins)[|d.instancePins| + j] == d.blockPins[j];
    TableMeaning(d, Pins, k);
  }

  /** What a lookup leaves in a pointer field: nil for nil or for an ID the
      design has no object of the kind with; otherwise a pointer to the
      object filed under the ID. */
  ghost predicate ResolvedTo(d: Design, kind: Kind, before: Ref, after: Ref) {
    if before.Nil? || before.id !in Ids(d, kind) then after.Nil?
    else after.To? && after.id == before.id && OfKind(after.at, kind) && FiledAt(d, before.id, after.at)
  }

  lemma ResolveMeaning(d: Design, kind: Kind, r: Ref)
    ensures ResolvedTo(d, kind, r, Resolve(r, TableOf(d, kind)))
  {
    if !r.Nil? {
      TableMeaning(d, kind, r.id);
    }
  }

  // ---- What buildReferences does ----

  /** It panics exactly when an instance or net the tables hold has a nil
      element in its pin list. */
  lemma BuildReferencesPanics(d: Design)
    ensures BuildReferences(d).None? <==>
      (exists i, k :: 0 <= i < |d.instances| && Index.LastWithKey(d.instances, InstanceId, i) &&
                      0 <= k < |d.instances[i].pins| && d.instances[i].pins[k].Nil?) ||
      (exists i, k :: 0 <= i < |d.nets| && Index.LastWithKey(d.nets, NetId, i) &&
                      0 <= k < |d.nets[i].pins| && d.nets[i].pins[k].Nil?)
  {
    var pt, vt, lt := PinTable(d), ViaTable(d), LayerTable(d);
    forall i | 0 <= i < |d.instances|
      ensures InstanceStep(pt)(d.instances[i]).None? <==> exists k :: 0 <= k < |d.instances[i].pins| && d.instances[i].pins[k].Nil?
    {
    }
    forall i | 0 <= i < |d.nets|
      ensures NetStep(pt, vt, lt)(d.nets[i]).None? <==> exists k :: 0 <= k < |d.nets[i].pins| && d.nets[i].pins[k].Nil?
    {
    }
  }

  /** The result is the rewritten lists put back in place. */
  lemma BuildReferencesParts(d: Design)
    requires BuildReferences(d).Some?
    ensures var r := BuildReferences(d).value;
      ResolvedInstances(d) == Some(r.instances) && ResolvedNets(d) == Some(r.nets) &&
      ResolvedLayers(d) == Some(r.layers) &&
      ResolvedPins(d) == Some(r.instancePins + r.blockPins) && |r.instancePins| == |d.instancePins| &&
      ResolvedVias(d) == Some(r.routingVias + r.viaDefinitions) && |r.routingVias| == |d.routingVias|
  {
    SplitJoin(ResolvedPins(d).value, |d.instancePins|);
    SplitJoin(ResolvedVias(d).value, |d.routingVias|);
  }

  lemma SplitJoin<T>(s: seq<T>, n: nat)
    requires n <= |s|
    ensures s[..n] + s[n..] == s
  {
  }

  /** Nothing outside those lists changes. */
  lemma BuildReferencesKeepsRest(d: Design)
    requires BuildReferences(d).Some?
    ensures var r := BuildReferences(d).value;
      r == d.(instances := r.instances, nets := r.nets, instancePins := r.instancePins, blockPins := r.blockPins,
              layers := r.layers, routingVias := r.routingVias, viaDefinitions := r.viaDefinitions)
  {
  }

  /** The instances the table holds have each pin replaced by the pin the
      design files under its ID (nil when there is none); nothing else in
      them changes, and the other instances are left alone. */
  lemma ResolvedInstancesMeaning(d: Design)
    requires ResolvedInstances(d).Some?
    ensures var ys := ResolvedInstances(d).value;
      |ys| == |d.instances| &&
      forall i :: 0 <= i < |d.instances| ==>
        var x, y := d.instances[i], ys[i];
        if Index.LastWithKey(d.instances, InstanceId, i) then
          y == x.(pins := y.pins) && |y.pins| == |x.pins| &&
          forall k :: 0 <= k < |x.pins| ==> ResolvedTo(d, Pins, x.pins[k], y.pins[k])
        else y == x
  {
    var ys := ResolvedInstances(d).value;
    forall i, k | 0 <= i < |d.instances| && Index.LastWithKey(d.instances, InstanceId, i) && 0 <= k < |d.instances[i].pins|
      ensures ResolvedTo(d, Pins, d.instances[i].pins[k], ys[i].pins[k])
    {
      ResolveMeaning(d, Pins, d.instances[i].pins[k]);
    }
  }

  /** The nets the table holds have their pins, and the vias and layers of
      their wire edges, replaced by the objects filed under the IDs. */
  lemma ResolvedNetsMeaning(d: Design)
    requires ResolvedNets(d).Some?
    ensures var ys := ResolvedNets(d).value;
      |ys| == |d.nets| &&
      forall i :: 0 <= i < |d.nets| ==>
        var x, y := d.nets[i], ys[i];
        if Index.LastWithKey(d.nets, NetId, i) then
          y == x.(pins := y.pins, edges := y.edges) && |y.pins| == |x.pins| && |y.edges| == |x.edges| &&
          (forall k :: 0 <= k < |x.pins| ==> ResolvedTo(d, Pins, x.pins[k], y.pins[k])) &&
          (forall k :: 0 <= k < |x.edges| ==>
             y.edges[k] == x.edges[k].(via := y.edges[k].via, layer := y.edges[k].layer) &&
             ResolvedTo(d, Vias, x.edges[k].via, y.edges[k].via) &&
             ResolvedTo(d, Layers, x.edges[k].layer, y.edges[k].layer))
        else y == x
  {
    var ys := ResolvedNets(d).value;
    forall i, k | 0 <= i < |d.nets| && Index.LastWithKey(d.nets, NetId, i) && 0 <= k < |d.nets[i].pins|
      ensures ResolvedTo(d, Pins, d.nets[i].pins[k], ys[i].pins[k])
    {
      ResolveMeaning(d, Pins, d.nets[i].pins[k]);
    }
    forall i, k | 0 <= i < |d.nets| && Index.LastWithKey(d.nets, NetId, i) && 0 <= k < |d.nets[i].edges|
      ensures ResolvedTo(d, Vias, d.nets[i].edges[k].via, ys[i].edges[k].via)
      ensures ResolvedTo(d, Layers, d.nets[i].edges[k].layer, ys[i].edges[k].layer)
    {
      ResolveMeaning(d, Vias, d.nets[i].edges[k].via);
      ResolveMeaning(d, Layers, d.nets[i].edges[k].layer);
    }
  }

  /** The pins pinMap holds (the last block pin with an ID, else the last
      instance pin) point at their instance and net. */
  lemma ResolvedPinsMeaning(d: Design)
    ensures var ps, qs := d.instancePins + d.blockPins, ResolvedPins(d).value;
      |qs| == |ps| &&
      forall i :: 0 <= i < |ps| ==>
        if Index.LastWithKey(ps, PinId, i) then
          qs[i] == ps[i].(instance := qs[i].instance, net := qs[i].net) &&
          ResolvedTo(d, Instances, ps[i].instance, qs[i].instance) &&
          ResolvedTo(d, Nets, ps[i].net, qs[i].net)
        else qs[i] == ps[i]
  {
    var ps := d.instancePins + d.blockPins;
    forall i | 0 <= i < |ps|
      ensures ResolvedTo(d, Instances, ps[i].instance, Resolve(ps[i].instance, InstanceTable(d)))
      ensures ResolvedTo(d, Nets, ps[i].net, Resolve(ps[i].net, NetTable(d)))
    {
      ResolveMeaning(d, Instances, ps[i].instance);
      ResolveMeaning(d, Nets, ps[i].net);
    }
  }

  /** The layers the table holds point at the layers above and below. */
  lemma ResolvedLayersMeaning(d: Design)
    ensures var ys := ResolvedLayers(d).value;
      |ys| == |d.layers| &&
      forall i :: 0 <= i < |d.layers| ==>
        var x, y := d.layers[i], ys[i];
        if Index.LastWithKey(d.layers, LayerId, i) then
          y == x.(upper := y.upper, lower := y.lower) &&
          ResolvedTo(d, Layers, x.upper, y.upper) && ResolvedTo(d, Layers, x.lower, y.lower)
        else y == x
  {
    forall i | 0 <= i < |d.layers|
      ensures ResolvedTo(d, Layers, d.layers[i].upper, Resolve(d.layers[i].upper, LayerTable(d)))
      ensures ResolvedTo(d, Layers, d.layers[i].lower, Resolve(d.layers[i].lower, LayerTable(d)))
    {
      ResolveMeaning(d, Layers, d.layers[i].upper);
      ResolveMeaning(d, Layers, d.layers[i].lower);
    }
  }

  /** The vias viaMap holds (the last via definition with an ID, else the
      last routing via) point at their top, cut and bottom layers. */
  lemma ResolvedViasMeaning(d: Design)
    ensures var vs, ws := d.routingVias + d.viaDefinitions, ResolvedVias(d).value;
      |ws| == |vs| &&
      forall i :: 0 <= i < |vs| ==>
        if Index.LastWithKey(vs, ViaId, i) then
          ws[i] == vs[i].(top := ws[i].top, cut := ws[i].cut, bottom := ws[i].bottom) &&
          ResolvedTo(d, Layers, vs[i].top, ws[i].top) && ResolvedTo(d, Layers, vs[i].cut, ws[i].cut) &&
          ResolvedTo(d, Layers, vs[i].bottom, ws[i].bottom)
        else ws[i] == vs[i]
  {
    var vs := d.routingVias + d.viaDefinitions;
    forall i | 0 <= i < |vs|
      ensures ResolvedTo(d, Layers, vs[i].top, Resolve(vs[i].top, LayerTable(d)))
      ensures ResolvedTo(d, Layers, vs[i].cut, Resolve(vs[i].cut, LayerTable(d)))
      ensures ResolvedTo(d, Layers, vs[i].bottom, Resolve(vs[i].bottom, LayerTable(d)))
    {
      ResolveMeaning(d, Layers, vs[i].top);
      ResolveMeaning(d, Layers, vs[i].cut);
      ResolveMeaning(d, Layers, vs[i].bottom);
    }
  }

  /** The loops of buildReferences: the tables, then the rewrites of the
      objects they hold. */
  method BuildReferencesLoops(d: Design) returns (r: Option<Design>)
    ensures r == BuildReferences(d)
  {
    var instanceMap, netMap, pinMap, viaMap, layerMap := BuildTables(d);
    var instances := RewriteLoop(d.instances, InstanceId, InstanceStep(pinMap));
    if instances.None? {
      return None;
    }
    var pins := RewriteLoop(d.instancePins + d.blockPins, PinId, PinStep(instanceMap, netMap));
    var nets := RewriteLoop(d.nets, NetId, NetStep(pinMap, viaMap, layerMap));
    if nets.None? {
      return None;
    }
    var layers := RewriteLoop(d.layers, LayerId, LayerStep(layerMap));
    var vias := RewriteLoop(d.routingVias + d.viaDefinitions, ViaId, ViaStep(layerMap));
    var np, nv := |d.instancePins|, |d.routingVias|;
    r := Some(d.(instances := instances.value, nets := nets.value,
                 instancePins := pins.value[..np], blockPins := pins.value[np..],
                 layers := layers.value,
                 routingVias := vias.value[..nv], viaDefinitions := vias.value[nv..]));
  }

  /** The five filling loops; pinMap and viaMap are filled from two lists
      in turn, which is one pass over their concatenation. */
  method BuildTables(d: Design) returns (instanceMap: Table, netMap: Table, pinMap: Table, viaMap: Table, layerMap: Table)
    ensures instanceMap == InstanceTable(d) && netMap == NetTable(d) && pinMap == PinTable(d)
    ensures viaMap == ViaTable(d) && layerMap == LayerTable(d)
  {
    instanceMap := Index.BuildIndex(Entries(d.instances, InstanceId, AtInstance), Key);
    netMap := Index.BuildIndex(Entries(d.nets, NetId, AtNet), Key);
    pinMap := Index.BuildIndex(Entries(d.instancePins, PinId, AtInstancePin) + Entries(d.blockPins, PinId, AtBlockPin), Key);
    viaMap := Index.BuildIndex(Entries(d.routingVias, ViaId, AtRoutingVia) + Entries(d.viaDefinitions, ViaId, AtViaDefinition), Key);
    layerMap := Index.BuildIndex(Entries(d.layers, LayerId, AtLayer), Key);
  }
}
