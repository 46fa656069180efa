/** CompactDesign (server/goopendb/goopendb.go): the cross-references
    between the design's objects (pin lists, pin owners, edge, layer and via
    links, the boxes of geometries and vias, track and row-box layers)
    become ID-only stubs, which the client resolves through its own tables.
    As in buildReferences, the per-object rewrites go through ID tables, so
    among objects sharing an ID only the last one is rewritten. The
    rectangles copied with Rect.Copy (bounding box, core, die, instance
    boxes, edge rects) and the gcell grid keep the references they held.
    Go's map iteration order, which decides the order of the tracks and
    rows, is a parameter.

    The source unlinks the instance pins and the block pins through one
    shared table; since OpenDB numbers ITerms and BTerms separately, an
    instance pin whose ID a block pin shares keeps its owners. That pass is
    `CompactPinsAsWritten`; the model's CompactDesign unlinks each list
    through its own table. */
module DbCompact {
  import opened Wrappers
  import Index
  import opened DbDesign

  function MapSeq<T>(s: seq<T>, f: T -> T): (r: seq<T>)
    ensures |r| == |s| && forall i :: 0 <= i < |s| ==> r[i] == f(s[i])
  {
    seq(|s|, i requires 0 <= i < |s| => f(s[i]))
  }

  // ---- The pass over each list: every element ----

  /** A net's special boxes become geometry stubs. */
  function NetEntry(n: Net): Net {
    n.(specialBoxes := GeometryStubs(n.specialBoxes))
  }

  /** A pin's geometries become geometry stubs. */
  function PinEntry(p: Pin): Pin {
    p.(geometries := GeometryStubs(p.geometries))
  }

  /** A via's rectangle is copied with its Layer and Via stubbed. */
  function ViaEntry(v: Via): Via {
    v.(rect := if v.rect.Some? then Some(BoxCopy(v.rect.value)) else None)
  }

  // ---- The pass over each table: the last element of each ID ----

  /** An instance's pins become pin stubs; a nil pin panics. */
  function InstanceStubs(x: Instance): Option<Instance> {
    match MapRefs(x.pins, StubOf)
    case None => None
    case Some(ps) => Some(x.(pins := ps))
  }

  function PinUnlinked(p: Pin): Option<Pin> {
    Some(p.(instance := Nil, net := Nil))
  }

  /** `edgeCp := *edge` with its Via and Layer stubbed. */
  function EdgeCopy(e: Edge): Edge {
    e.(via := StubOf(e.via), layer := StubOf(e.layer))
  }

  function NetStubs(n: Net): Option<Net> {
    match MapRefs(n.pins, StubOf)
    case None => None
    case Some(ps) => Some(n.(pins := ps, edges := MapSeq(n.edges, EdgeCopy)))
  }

  function LayerStubs(l: Layer): Option<Layer> {
    Some(l.(upper := StubOf(l.upper), lower := StubOf(l.lower)))
  }

  function ViaStubs(v: Via): Option<Via> {
    Some(v.(top := StubOf(v.top), cut := StubOf(v.cut), bottom := StubOf(v.bottom)))
  }

  function CompactInstances(d: Design): Option<seq<Instance>> {
    RewriteLast(d.instances, InstanceId, InstanceStubs)
  }

  function CompactNets(d: Design): Option<seq<Net>> {
    RewriteLast(MapSeq(d.nets, NetEntry), NetId, NetStubs)
  }

  /** The pin passes over one list through one table: every pin's
      geometries are stubbed, then the pin the table holds for each ID
      loses its Instance and Net. */
  function PinPass(ps: seq<Pin>): (qs: seq<Pin>)
    ensures |qs| == |ps|
  {
    RewriteLast(MapSeq(ps, PinEntry), PinId, PinUnlinked).value
  }

  /** The pin passes as written: the instance pins and the block pins go
      into one table (goopendb.go:866-897, 952-955). */
  function CompactPinsAsWritten(d: Design): (qs: seq<Pin>)
    ensures |qs| == |d.instancePins| + |d.blockPins|
  {
    PinPass(d.instancePins + d.blockPins)
  }

  /** The instance pins followed by the block pins, each list unlinked
      through a table of its own. */
  function CompactPins(d: Design): (r: Option<seq<Pin>>)
    ensures r.Some? && |r.value| == |d.instancePins| + |d.blockPins|
  {
    Some(PinPass(d.instancePins) + PinPass(d.blockPins))
  }

  function CompactLayers(d: Design): (r: Option<seq<Layer>>)
    ensures r.Some? && |r.value| == |d.layers|
  {
    RewriteLast(d.layers, LayerId, LayerStubs)
  }

  /** The routing vias followed by the via definitions. */
  function CompactVias(d: Design): (r: Option<seq<Via>>)
    ensures r.Some? && |r.value| == |d.routingVias| + |d.viaDefinitions|
  {
    RewriteLast(MapSeq(d.routingVias + d.viaDefinitions, ViaEntry), ViaId, ViaStubs)
  }

  // ---- Tracks and rows: out of a table, in map order ----

  /** A track is copied with its Layer stubbed. */
  function TrackCopy(g: Grid): Grid {
    g.(layer := StubOf(g.layer))
  }

  /** A row's bounding box is copied with its Layer (not its Via) stubbed,
      and its site becomes `&Site{ID, Name, InComplete: false}`. */
  function RowCopy(r: Row): Row {
    r.(boundingBox := if r.boundingBox.Some? then Some(r.boundingBox.value.(layer := StubOf(r.boundingBox.value.layer))) else None,
       site := if r.site.Some? then Some(Site(r.site.value.id, r.site.value.name, false)) else None)
  }

  /** The values of a table in the order a map iteration yields the keys
      `order`. */
  function InOrder<T>(t: map<int, T>, order: seq<int>): (r: seq<T>)
    ensures |r| <= |order|
    decreases |order|
  {
    if order == [] then []
    else (if order[0] in t then [t[order[0]]] else []) + InOrder(t, order[1..])
  }

  function CompactTracks(d: Design, order: seq<int>): seq<Grid> {
    MapSeq(InOrder(Index.IndexBy(MapSeq(d.tracks, TrackCopy), GridId), order), TrackCopy)
  }

  function CompactRows(d: Design, order: seq<int>): seq<Row> {
    MapSeq(InOrder(Index.IndexBy(d.rows, RowId), order), RowCopy)
  }

  /** CompactDesign; None when it panics: on a nil pin in an instance or a
      net, or on a missing bounding box, core or die. */
  function CompactDesign(d: Design, trackOrder: seq<int>, rowOrder: seq<int>): Option<Design> {
    var instances, nets, pins, layers, vias := CompactInstances(d), CompactNets(d), CompactPins(d), CompactLayers(d), CompactVias(d);
    if instances.None? || nets.None? || d.boundingBox.None? || d.core.None? || d.die.None? then None
    else
      var np, nv := |d.instancePins|, |d.routingVias|;
      Some(Design(
        name := d.name,
        instances := instances.value, nets := nets.value,
        instancePins := pins.value[..np], blockPins := pins.value[np..],
        routingVias := vias.value[..nv], viaDefinitions := vias.value[nv..],
        layers := layers.value,
        coreArea := d.coreArea, dieArea := d.dieArea, designArea := d.designArea, utilization := d.utilization,
        boundingBox := d.boundingBox, core := d.core, die := d.die,
        rows := CompactRows(d, rowOrder), tracks := CompactTracks(d, trackOrder),
        sites := d.sites, gcell := d.gcell,
        geometries := MapSeq(d.geometries, GeometryCopy)))
  }

  // ---- What CompactDesign does ----

  lemma SplitJoin<T>(s: seq<T>, n: nat)
    requires n <= |s|
    ensures s[..n] + s[n..] == s
  {
  }

  /** The result is the compacted lists put back in place. */
  lemma CompactDesignParts(d: Design, trackOrder: seq<int>, rowOrder: seq<int>)
    requires CompactDesign(d, trackOrder, rowOrder).Some?
    ensures var r := CompactDesign(d, trackOrder, rowOrder).value;
      CompactInstances(d) == Some(r.instances) && CompactNets(d) == Some(r.nets) &&
      CompactLayers(d) == Some(r.layers) &&
      CompactPins(d) == Some(r.instancePins + r.blockPins) && |r.instancePins| == |d.instancePins| &&
      CompactVias(d) == Some(r.routingVias + r.viaDefinitions) && |r.routingVias| == |d.routingVias| &&
      r.tracks == CompactTracks(d, trackOrder) && r.rows == CompactRows(d, rowOrder)
  {
    SplitJoin(CompactPins(d).value, |d.instancePins|);
    SplitJoin(CompactVias(d).value, |d.routingVias|);
  }

  /** The name, the four area figures, the bounding box, core, die, gcell
      grid and sites are carried over unchanged, and every geometry is
      replaced by its copy. */
  lemma CompactDesignKeeps(d: Design, trackOrder: seq<int>, rowOrder: seq<int>)
    requires CompactDesign(d, trackOrder, rowOrder).Some?
    ensures var r := CompactDesign(d, trackOrder, rowOrder).value;
      r.name == d.name && r.coreArea == d.coreArea && r.dieArea == d.dieArea &&
      r.designArea == d.designArea && r.utilization == d.utilization &&
      r.boundingBox == d.boundingBox && r.core == d.core && r.die == d.die &&
      r.gcell == d.gcell && r.sites == d.sites &&
      |r.geometries| == |d.geometries| &&
      forall i :: 0 <= i < |d.geometries| ==> r.geometries[i] == GeometryCopy(d.geometries[i])
  {
  }

  /** It panics exactly when the bounding box, core or die is missing, or
      an instance or net the tables hold has a nil pin. */
  lemma CompactDesignPanics(d: Design, trackOrder: seq<int>, rowOrder: seq<int>)
    ensures CompactDesign(d, trackOrder, rowOrder).None? <==>
      d.boundingBox.None? || d.core.None? || d.die.None? ||
      (exists i, k :: 0 <= i < |d.instances| && Index.LastWithKey(d.instances, InstanceId, i) &&
                      0 <= k < |d.instances[i].pins| && d.instances[i].pins[k].Nil?) ||
      (exists i, k :: 0 <= i < |d.nets| && Index.LastWithKey(d.nets, NetId, i) &&
                      0 <= k < |d.nets[i].pins| && d.nets[i].pins[k].Nil?)
  {
    forall i | 0 <= i < |d.instances|
      ensures InstanceStubs(d.instances[i]).None? <==> exists k :: 0 <= k < |d.instances[i].pins| && d.instances[i].pins[k].Nil?
    {
    }
    var ns := MapSeq(d.nets, NetEntry);
    forall i | 0 <= i < |d.nets|
      ensures NetStubs(ns[i]).None? <==> exists k :: 0 <= k < |d.nets[i].pins| && d.nets[i].pins[k].Nil?
      ensures Index.LastWithKey(ns, NetId, i) <==> Index.LastWithKey(d.nets, NetId, i)
    {
      MapSeqKeepsLast(d.nets, NetEntry, NetId, i);
    }
  }

  /** A rewrite that keeps IDs keeps which element is the last of its ID. */
  lemma MapSeqKeepsLast<T>(s: seq<T>, f: T -> T, id: T -> int, i: int)
    requires forall j :: 0 <= j < |s| ==> id(f(s[j])) == id(s[j])
    requires 0 <= i < |s|
    ensures Index.LastWithKey(MapSeq(s, f), id, i) <==> Index.LastWithKey(s, id, i)
  {
  }

  /** Instances keep their order; those the table holds have each pin
      replaced by a stub with the same ID. */
  lemma CompactInstancesMeaning(d: Design)
    requires CompactInstances(d).Some?
    ensures var ys := CompactInstances(d).value;
      |ys| == |d.instances| &&
      forall i :: 0 <= i < |d.instances| ==>
        var x, y := d.instances[i], ys[i];
        if Index.LastWithKey(d.instances, InstanceId, i) then
          y == x.(pins := y.pins) && |y.pins| == |x.pins| &&
          forall k :: 0 <= k < |x.pins| ==> y.pins[k] == StubOf(x.pins[k])
        else y == x
  {
  }

  /** Every net's special boxes become ID-only geometries; the nets the
      table holds also have their pins stubbed and their edges copied with
      Via and Layer stubbed. */
  lemma CompactNetsMeaning(d: Design)
    requires CompactNets(d).Some?
    ensures var ys := CompactNets(d).value;
      |ys| == |d.nets| &&
      forall i :: 0 <= i < |d.nets| ==>
        var x, y := d.nets[i], ys[i];
        y.id == x.id && y.name == x.name && y.incomplete == x.incomplete &&
        |y.specialBoxes| == |x.specialBoxes| &&
        (forall k :: 0 <= k < |x.specialBoxes| ==> y.specialBoxes[k] == Geometry(x.specialBoxes[k].id, [], true)) &&
        if Index.LastWithKey(d.nets, NetId, i) then
          |y.pins| == |x.pins| && |y.edges| == |x.edges| &&
          (forall k :: 0 <= k < |x.pins| ==> y.pins[k] == StubOf(x.pins[k])) &&
          (forall k :: 0 <= k < |x.edges| ==> y.edges[k] == EdgeCopy(x.edges[k]))
        else y.pins == x.pins && y.edges == x.edges
  {
    var ns := MapSeq(d.nets, NetEntry);
    forall i | 0 <= i < |d.nets|
      ensures Index.LastWithKey(ns, NetId, i) <==> Index.LastWithKey(d.nets, NetId, i)
    {
      MapSeqKeepsLast(d.nets, NetEntry, NetId, i);
    }
  }

  /** `qs` is `ps` with every geometry an ID-only geometry and, for the
      pin the table holds under each ID, Instance and Net cut; the other
      pins keep their owners. */
  ghost predicate Unlinked(ps: seq<Pin>, qs: seq<Pin>) {
    |qs| == |ps| &&
    forall i :: 0 <= i < |ps| ==>
      var x, y := ps[i], qs[i];
      y.id == x.id && y.name == x.name && y.incomplete == x.incomplete &&
      |y.geometries| == |x.geometries| &&
      (forall k :: 0 <= k < |x.geometries| ==> y.geometries[k] == Geometry(x.geometries[k].id, [], true)) &&
      if Index.LastWithKey(ps, PinId, i) then y.instance.Nil? && y.net.Nil?
      else y.instance == x.instance && y.net == x.net
  }

  lemma PinPassMeaning(ps: seq<Pin>)
    ensures Unlinked(ps, PinPass(ps))
  {
    forall i | 0 <= i < |ps|
      ensures Index.LastWithKey(MapSeq(ps, PinEntry), PinId, i) <==> Index.LastWithKey(ps, PinId, i)
    {
      MapSeqKeepsLast(ps, PinEntry, PinId, i);
    }
  }

  /** Each list is unlinked through its own table: an instance pin is cut
      when it is the last instance pin with its ID, a block pin when it is
      the last block pin with its ID. */
  lemma CompactPinsMeaning(d: Design)
    ensures var qs, np := CompactPins(d).value, |d.instancePins|;
      Unlinked(d.instancePins, qs[..np]) && Unlinked(d.blockPins, qs[np..])
  {
    PinPassMeaning(d.instancePins);
    PinPassMeaning(d.blockPins);
    var qs, np := CompactPins(d).value, |d.instancePins|;
    assert qs[..np] == PinPass(d.instancePins);
    assert qs[np..] == PinPass(d.blockPins);
  }

  /** As written, the shared table holds the last pin of each ID across
      both lists; an instance pin whose ID some block pin carries is never
      reached and keeps its Instance and Net. */
  lemma CompactPinsAsWrittenShadows(d: Design, i: int, j: int)
    requires 0 <= i < |d.instancePins| && 0 <= j < |d.blockPins|
    requires d.instancePins[i].id == d.blockPins[j].id
    ensures var y := CompactPinsAsWritten(d)[i];
      y.instance == d.instancePins[i].instance && y.net == d.instancePins[i].net
  {
    var ps := d.instancePins + d.blockPins;
    var es := MapSeq(ps, PinEntry);
    var k := |d.instancePins| + j;
    assert es[i] == PinEntry(d.instancePins[i]) && es[k] == PinEntry(d.blockPins[j]);
    assert !Index.LastWithKey(es, PinId, i) by {
      assert i < k && PinId(es[k]) == PinId(es[i]);
    }
  }

  /** The input that shows it: instance pin 1 of instance 7, and block pin
      1. As written the instance pin keeps its owner; unlinked through its
      own table it loses it. */
  lemma SharedPinIdKeepsOwner()
    ensures var owner := To(7, InstanceAt(0));
      var d := Design("top", [], [], [Pin(1, "A", owner, Nil, [], false)], [Pin(1, "P", Nil, Nil, [], false)],
                      [], [], [], 0.0, 0.0, 0.0, 0.0, None, None, None, [], [], [], None, []);
      CompactPinsAsWritten(d)[0].instance == owner && CompactPins(d).value[0].instance.Nil?
  {
    var owner := To(7, InstanceAt(0));
    var d := Design("top", [], [], [Pin(1, "A", owner, Nil, [], false)], [Pin(1, "P", Nil, Nil, [], false)],
                    [], [], [], 0.0, 0.0, 0.0, 0.0, None, None, None, [], [], [], None, []);
    CompactPinsAsWrittenShadows(d, 0, 0);
    PinPassMeaning(d.instancePins);
    assert Index.LastWithKey(d.instancePins, PinId, 0);
  }

  /** The layers the table holds have Upper and Lower stubbed. */
  lemma CompactLayersMeaning(d: Design)
    ensures var ys := CompactLayers(d).value;
      |ys| == |d.layers| &&
      forall i :: 0 <= i < |d.layers| ==>
        var x, y := d.layers[i], ys[i];
        if Index.LastWithKey(d.layers, LayerId, i) then
          y == x.(upper := StubOf(x.upper), lower := StubOf(x.lower))
        else y == x
  {
  }

  /** Every via's rectangle is copied with Layer and Via stubbed; the vias
      viaMap holds also have their top, cut and bottom layers stubbed. */
  lemma CompactViasMeaning(d: Design)
    ensures var vs, ws := d.routingVias + d.viaDefinitions, CompactVias(d).value;
      |ws| == |vs| &&
      forall i :: 0 <= i < |vs| ==>
        var x, y := vs[i], ws[i];
        y.id == x.id && y.name == x.name && y.incomplete == x.incomplete &&
        (y.rect.Some? <==> x.rect.Some?) && (x.rect.Some? ==> y.rect.value == BoxCopy(x.rect.value)) &&
        if Index.LastWithKey(vs, ViaId, i) then
          y.top == StubOf(x.top) && y.cut == StubOf(x.cut) && y.bottom == StubOf(x.bottom)
        else y.top == x.top && y.cut == x.cut && y.bottom == x.bottom
  {
    var vs := d.routingVias + d.viaDefinitions;
    forall i | 0 <= i < |vs|
      ensures Index.LastWithKey(MapSeq(vs, ViaEntry), ViaId, i) <==> Index.LastWithKey(vs, ViaId, i)
    {
      MapSeqKeepsLast(vs, ViaEntry, ViaId, i);
    }
  }

  // ---- Tracks and rows ----

  /** `order` lists every key once, as a Go map iteration does. */
  predicate Enumerates(order: seq<int>, keys: set<int>) {
    (forall i, j :: 0 <= i < j < |order| ==> order[i] != order[j]) &&
    (forall k <- order :: k in keys) && (forall k <- keys :: k in order)
  }

  lemma {:induction false} InOrderAll<T>(t: map<int, T>, order: seq<int>)
    requires forall i :: 0 <= i < |order| ==> order[i] in t
    ensures |InOrder(t, order)| == |order|
    ensures forall i :: 0 <= i < |order| ==> InOrder(t, order)[i] == t[order[i]]
  {
    if order != [] {
      InOrderAll(t, order[1..]);
    }
  }

  /** When the map yields every track ID once, the tracks come out one per
      ID, in that order, each the copy of the last track with the ID. */
  lemma CompactTracksEnumerate(d: Design, order: seq<int>)
    requires Enumerates(order, set g | g in d.tracks :: g.id)
    ensures var out := CompactTracks(d, order);
      |out| == |order| &&
      forall i :: 0 <= i < |order| ==>
        out[i].id == order[i] &&
        exists j :: 0 <= j < |d.tracks| && Index.LastWithKey(d.tracks, GridId, j) && d.tracks[j].id == order[i] &&
                    out[i] == TrackCopy(d.tracks[j])
  {
    var cs := MapSeq(d.tracks, TrackCopy);
    var t := Index.IndexBy(cs, GridId);
    KeysFound(d.tracks, order, TrackCopy, GridId);
    InOrderAll(t, order);
    var out := CompactTracks(d, order);
    forall i | 0 <= i < |order|
      ensures out[i].id == order[i]
      ensures exists j :: 0 <= j < |d.tracks| && Index.LastWithKey(d.tracks, GridId, j) && d.tracks[j].id == order[i] &&
                          out[i] == TrackCopy(d.tracks[j])
    {
      TrackFound(d, order[i]);
    }
  }

  /** Every key a map iteration yields is in the table. */
  lemma KeysFound<T>(s: seq<T>, order: seq<int>, f: T -> T, id: T -> int)
    requires forall j :: 0 <= j < |s| ==> id(f(s[j])) == id(s[j])
    requires forall k <- order :: k in (set x | x in s :: id(x))
    ensures forall i :: 0 <= i < |order| ==> order[i] in Index.IndexBy(MapSeq(s, f), id)
  {
    forall i | 0 <= i < |order| ensures order[i] in Index.IndexBy(MapSeq(s, f), id) {
      assert order[i] in order;
      var x :| x in s && id(x) == order[i];
      var j :| 0 <= j < |s| && s[j] == x;
      assert id(MapSeq(s, f)[j]) == order[i];
    }
  }

  lemma TrackFound(d: Design, k: int)
    requires k in Index.IndexBy(MapSeq(d.tracks, TrackCopy), GridId)
    ensures var g := TrackCopy(Index.IndexBy(MapSeq(d.tracks, TrackCopy), GridId)[k]);
      g.id == k &&
      exists j :: 0 <= j < |d.tracks| && Index.LastWithKey(d.tracks, GridId, j) && d.tracks[j].id == k && g == TrackCopy(d.tracks[j])
  {
    var cs := MapSeq(d.tracks, TrackCopy);
    Index.IndexByFinds(cs, GridId, k);
    var j :| 0 <= j < |cs| && Index.LastWithKey(cs, GridId, j) && cs[j] == Index.IndexBy(cs, GridId)[k] && GridId(cs[j]) == k;
    MapSeqKeepsLast(d.tracks, TrackCopy, GridId, j);
    assert StubOf(StubOf(d.tracks[j].layer)) == StubOf(d.tracks[j].layer);
  }

  /** Likewise the rows: one per ID, in map order, each the last row with
      the ID, with its box and site copied. */
  lemma CompactRowsEnumerate(d: Design, order: seq<int>)
    requires Enumerates(order, set w | w in d.rows :: w.id)
    ensures var out := CompactRows(d, order);
      |out| == |order| &&
      forall i :: 0 <= i < |order| ==>
        out[i].id == order[i] &&
        exists j :: 0 <= j < |d.rows| && Index.LastWithKey(d.rows, RowId, j) && d.rows[j].id == order[i] &&
                    out[i] == RowCopy(d.rows[j])
  {
    var t := Index.IndexBy(d.rows, RowId);
    KeysFound(d.rows, order, RowSame, RowId);
    assert MapSeq(d.rows, RowSame) == d.rows;
    InOrderAll(t, order);
    var out := CompactRows(d, order);
    forall i | 0 <= i < |order|
      ensures out[i].id == order[i]
      ensures exists j :: 0 <= j < |d.rows| && Index.LastWithKey(d.rows, RowId, j) && d.rows[j].id == order[i] &&
                          out[i] == RowCopy(d.rows[j])
    {
      Index.IndexByFinds(d.rows, RowId, order[i]);
    }
  }

  function RowSame(w: Row): Row { w }

  // ---- No pointers left ----

  predicate DistinctIds<T>(s: seq<T>, id: T -> int) {
    forall i, j :: 0 <= i < j < |s| ==> id(s[i]) != id(s[j])
  }

  /** No two objects of a table's lists share an ID. Instance pins and
      block pins are numbered apart (ITerm and BTerm IDs), so each pin list
      is distinct on its own; routing vias are made only for IDs no via
      definition has, so the two via lists are distinct together. */
  predicate UniqueIds(d: Design) {
    DistinctIds(d.instances, InstanceId) && DistinctIds(d.nets, NetId) && DistinctIds(d.layers, LayerId) &&
    DistinctIds(d.instancePins, PinId) && DistinctIds(d.blockPins, PinId) &&
    DistinctIds(d.routingVias + d.viaDefinitions, ViaId)
  }

  ghost predicate InstancesCompacted(xs: seq<Instance>) {
    forall x <- xs, p <- x.pins :: !Pointer(p)
  }

  ghost predicate NetsCompacted(ns: seq<Net>) {
    forall n <- ns ::
      (forall p <- n.pins :: !Pointer(p)) &&
      (forall e <- n.edges :: !Pointer(e.via) && !Pointer(e.layer)) &&
      (forall g <- n.specialBoxes :: g.boxes == [])
  }

  ghost predicate PinsCompacted(ps: seq<Pin>) {
    forall p <- ps :: p.instance.Nil? && p.net.Nil? && forall g <- p.geometries :: g.boxes == []
  }

  ghost predicate LayersCompacted(ls: seq<Layer>) {
    forall l <- ls :: !Pointer(l.upper) && !Pointer(l.lower)
  }

  ghost predicate ViasCompacted(vs: seq<Via>) {
    forall v <- vs ::
      !Pointer(v.top) && !Pointer(v.cut) && !Pointer(v.bottom) &&
      (v.rect.Some? ==> !Pointer(v.rect.value.layer) && !Pointer(v.rect.value.via))
  }

  ghost predicate GeometriesCompacted(gs: seq<Geometry>) {
    forall g <- gs, b <- g.boxes :: !Pointer(b.layer) && !Pointer(b.via)
  }

  /** No reference that CompactDesign rewrites points at an object of the
      design: pin lists, edges, layer and via links, pin owners, the boxes of
      geometries and vias, track layers and row box layers. */
  ghost predicate Compacted(r: Design) {
    InstancesCompacted(r.instances) && NetsCompacted(r.nets) &&
    PinsCompacted(r.instancePins + r.blockPins) && LayersCompacted(r.layers) &&
    ViasCompacted(r.routingVias + r.viaDefinitions) && GeometriesCompacted(r.geometries) &&
    (forall g <- r.tracks :: !Pointer(g.layer)) &&
    (forall w <- r.rows :: w.boundingBox.Some? ==> !Pointer(w.boundingBox.value.layer))
  }

  /** With unique IDs, every object is the one its table holds, so no
      reference CompactDesign rewrites points at an object any more. The
      references it copies unchanged (those of the bounding box, core, die,
      instance boxes, edge rects, row-box vias and the gcell grid) are
      stated by CompactDesignKeeps, CompactInstancesMeaning, EdgeCopy and
      RowCopy. */
  lemma CompactDesignStubsAll(d: Design, trackOrder: seq<int>, rowOrder: seq<int>)
    requires UniqueIds(d)
    requires CompactDesign(d, trackOrder, rowOrder).Some?
    ensures Compacted(CompactDesign(d, trackOrder, rowOrder).value)
  {
    var r := CompactDesign(d, trackOrder, rowOrder).value;
    CompactDesignParts(d, trackOrder, rowOrder);
    CompactDesignKeeps(d, trackOrder, rowOrder);
    InstancesStubbed(d);
    NetsStubbed(d);
    PinsStubbed(d);
    LayersStubbed(d);
    ViasStubbed(d);
    GeometriesStubbed(d.geometries);
  }

  lemma InstancesStubbed(d: Design)
    requires DistinctIds(d.instances, InstanceId) && CompactInstances(d).Some?
    ensures InstancesCompacted(CompactInstances(d).value)
  {
    AllLast(d.instances, InstanceId);
    CompactInstancesMeaning(d);
  }

  lemma NetsStubbed(d: Design)
    requires DistinctIds(d.nets, NetId) && CompactNets(d).Some?
    ensures NetsCompacted(CompactNets(d).value)
  {
    AllLast(d.nets, NetId);
    CompactNetsMeaning(d);
  }

  lemma PinsStubbed(d: Design)
    requires DistinctIds(d.instancePins, PinId) && DistinctIds(d.blockPins, PinId)
    ensures PinsCompacted(CompactPins(d).value)
  {
    AllLast(d.instancePins, PinId);
    AllLast(d.blockPins, PinId);
    CompactPinsMeaning(d);
    var qs, np := CompactPins(d).value, |d.instancePins|;
    assert qs == qs[..np] + qs[np..];
  }

  lemma LayersStubbed(d: Design)
    requires DistinctIds(d.layers, LayerId)
    ensures LayersCompacted(CompactLayers(d).value)
  {
    AllLast(d.layers, LayerId);
    CompactLayersMeaning(d);
  }

  lemma ViasStubbed(d: Design)
    requires DistinctIds(d.routingVias + d.viaDefinitions, ViaId)
    ensures ViasCompacted(CompactVias(d).value)
  {
    AllLast(d.routingVias + d.viaDefinitions, ViaId);
    CompactViasMeaning(d);
  }

  lemma GeometriesStubbed(gs: seq<Geometry>)
    ensures GeometriesCompacted(MapSeq(gs, GeometryCopy))
  {
  }

  // ---- The loops ----

  method MapLoop<T>(s: seq<T>, f: T -> T) returns (r: seq<T>)
    ensures r == MapSeq(s, f)
  {
    r := [];
    var i := 0;
    while i < |s|
      invariant 0 <= i <= |s| && |r| == i
      invariant forall k :: 0 <= k < i ==> r[k] == f(s[k])
    {
      r := r + [f(s[i])];
      i := i + 1;
    }
  }

  /** `for _, x := range xMap { xs = append(xs, x) }`, the map yielding the
      keys `order`. */
  method InOrderLoop<T>(t: map<int, T>, order: seq<int>) returns (r: seq<T>)
    ensures r == InOrder(t, order)
  {
    r := [];
    var i := 0;
    while i < |order|
      invariant 0 <= i <= |order|
      invariant r + InOrder(t, order[i..]) == InOrder(t, order)
    {
      var head := if order[i] in t then [t[order[i]]] else [];
      InOrderAdvance(t, order, i, r, head);
      r := r + head;
      i := i + 1;
    }
  }

  /** One step of the loop: the key at `i` contributes its entry, if any. */
  lemma InOrderAdvance<T>(t: map<int, T>, order: seq<int>, i: int, r: seq<T>, head: seq<T>)
    requires 0 <= i < |order|
    requires head == if order[i] in t then [t[order[i]]] else []
    requires r + InOrder(t, order[i..]) == InOrder(t, order)
    ensures (r + head) + InOrder(t, order[i + 1..]) == InOrder(t, order)
  {
    var rest := InOrder(t, order[i + 1..]);
    assert order[i..][1..] == order[i + 1..];
    assert InOrder(t, order[i..]) == head + rest;
    assert (r + head) + rest == r + (head + rest);
  }

  /** The loops of CompactDesign: the pass over every element of each list
      (filling the tables), the passes over the tables, then the tracks and
      rows in map order. */
  method CompactDesignLoops(d: Design, trackOrder: seq<int>, rowOrder: seq<int>) returns (r: Option<Design>)
    ensures r == CompactDesign(d, trackOrder, rowOrder)
  {
    var nets := MapLoop(d.nets, NetEntry);
    var instancePins := MapLoop(d.instancePins, PinEntry);
    var blockPins := MapLoop(d.blockPins, PinEntry);
    var vias := MapLoop(d.routingVias + d.viaDefinitions, ViaEntry);
    var instances := RewriteLoop(d.instances, InstanceId, InstanceStubs);
    if instances.None? {
      return None;
    }
    var instancePinsOut := RewriteLoop(instancePins, PinId, PinUnlinked);
    var blockPinsOut := RewriteLoop(blockPins, PinId, PinUnlinked);
    var netsOut := RewriteLoop(nets, NetId, NetStubs);
    if netsOut.None? {
      return None;
    }
    var layers := RewriteLoop(d.layers, LayerId, LayerStubs);
    var viasOut := RewriteLoop(vias, ViaId, ViaStubs);
    var geometries := MapLoop(d.geometries, GeometryCopy);
    var trackCopies := MapLoop(d.tracks, TrackCopy);
    var trackMap := Index.BuildIndex(trackCopies, GridId);
    var tracks := InOrderLoop(trackMap, trackOrder);
    tracks := MapLoop(tracks, TrackCopy);
    var rowMap := Index.BuildIndex(d.rows, RowId);
    var rows := InOrderLoop(rowMap, rowOrder);
    rows := MapLoop(rows, RowCopy);
    if d.boundingBox.None? || d.core.None? || d.die.None? {
      return None;
    }
    var np, nv := |d.instancePins|, |d.routingVias|;
    r := Some(Design(
      name := d.name,
      instances := instances.value, nets := netsOut.value,
      instancePins := instancePinsOut.value, blockPins := blockPinsOut.value,
      routingVias := viasOut.value[..nv], viaDefinitions := viasOut.value[nv..],
      layers := layers.value,
      coreArea := d.coreArea, dieArea := d.dieArea, designArea := d.designArea, utilization := d.utilization,
      boundingBox := d.boundingBox, core := d.core, die := d.die,
      rows := rows, tracks := tracks,
      sites := d.sites, gcell := d.gcell,
      geometries := geometries));
  }
}
