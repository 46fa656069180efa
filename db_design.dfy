/** The design database of the server (server/goopendb/goopendb.go), as
    values. Go's structs hold pointers to one another; here a pointer field
    is a `Ref`: nil, an ID-only stub (a fresh object carrying an ID and
    InComplete set), or the design's own object at a place in one of its
    lists. Fields that neither buildReferences nor CompactDesign touch are
    left out (Location, Origin, Halo, Obstructions, the enum fields). */
module DbDesign {
  import opened Wrappers
  import Index

  /** Where an object of the design sits: a list and a position in it. */
  datatype Place =
    | InstanceAt(i: nat)
    | NetAt(i: nat)
    | InstancePinAt(i: nat)
    | BlockPinAt(i: nat)
    | RoutingViaAt(i: nat)
    | ViaDefinitionAt(i: nat)
    | LayerAt(i: nat)

  /** A pointer field. */
  datatype Ref = Nil | Stub(id: int) | To(id: int, at: Place)

  datatype Rect = Rect(id: int, xMin: int, yMin: int, xMax: int, yMax: int, shapeType: int,
                       layer: Ref, via: Ref, incomplete: bool)
  datatype Geometry = Geometry(id: int, boxes: seq<Rect>, incomplete: bool)
  datatype Edge = Edge(edgeType: int, rect: Option<Rect>, via: Ref, layer: Ref)
  datatype Instance = Instance(id: int, name: string, pins: seq<Ref>, boundingBox: Option<Rect>, incomplete: bool)
  datatype Pin = Pin(id: int, name: string, instance: Ref, net: Ref, geometries: seq<Geometry>, incomplete: bool)
  datatype Net = Net(id: int, name: string, pins: seq<Ref>, edges: seq<Edge>, specialBoxes: seq<Geometry>,
                     incomplete: bool)
  datatype Layer = Layer(id: int, name: string, upper: Ref, lower: Ref, incomplete: bool)
  datatype Via = Via(id: int, name: string, rect: Option<Rect>, top: Ref, cut: Ref, bottom: Ref, incomplete: bool)
  datatype Site = Site(id: int, name: string, incomplete: bool)
  /** A track or gcell grid; `values` holds GridX, GridY and the six
      pattern lists, in declaration order. */
  datatype Grid = Grid(id: int, layer: Ref, values: seq<seq<int>>, incomplete: bool)
  datatype Row = Row(id: int, name: string, site: Option<Site>, boundingBox: Option<Rect>, incomplete: bool)

  datatype Design = Design(
    name: string,
    instances: seq<Instance>, nets: seq<Net>,
    instancePins: seq<Pin>, blockPins: seq<Pin>,
    routingVias: seq<Via>, viaDefinitions: seq<Via>,
    layers: seq<Layer>,
    coreArea: real, dieArea: real, designArea: real, utilization: real,
    boundingBox: Option<Rect>, core: Option<Rect>, die: Option<Rect>,
    rows: seq<Row>, tracks: seq<Grid>, sites: seq<Site>, gcell: Option<Grid>,
    geometries: seq<Geometry>)

  function InstanceId(x: Instance): int { x.id }
  function NetId(x: Net): int { x.id }
  function PinId(x: Pin): int { x.id }
  function ViaId(x: Via): int { x.id }
  function LayerId(x: Layer): int { x.id }
  function GridId(x: Grid): int { x.id }
  function RowId(x: Row): int { x.id }

  /** The ID of the object at a place, if the place is in range. */
  function IdAt(d: Design, at: Place): Option<int> {
    match at
    case InstanceAt(i) => if i < |d.instances| then Some(d.instances[i].id) else None
    case NetAt(i) => if i < |d.nets| then Some(d.nets[i].id) else None
    case InstancePinAt(i) => if i < |d.instancePins| then Some(d.instancePins[i].id) else None
    case BlockPinAt(i) => if i < |d.blockPins| then Some(d.blockPins[i].id) else None
    case RoutingViaAt(i) => if i < |d.routingVias| then Some(d.routingVias[i].id) else None
    case ViaDefinitionAt(i) => if i < |d.viaDefinitions| then Some(d.viaDefinitions[i].id) else None
    case LayerAt(i) => if i < |d.layers| then Some(d.layers[i].id) else None
  }

  // ---- Stubs and copies ----

  /** The reference CompactDesign writes in place of `r`: nil stays nil, any
      object becomes `&X{ID: r.ID, InComplete: true}`. */
  function StubOf(r: Ref): (s: Ref)
    ensures !s.To?
    ensures s.Nil? <==> r.Nil?
    ensures !r.Nil? ==> s.id == r.id
  {
    match r
    case Nil => Nil
    case Stub(id) => Stub(id)
    case To(id, _) => Stub(id)
  }

  /** A pointer into the design's own objects, as opposed to nil or a stub. */
  predicate Pointer(r: Ref) { r.To? }

  /** The ID-only geometry `&Geometry{ID: g.ID, InComplete: true}`. */
  function GeometryStub(g: Geometry): Geometry {
    Geometry(g.id, [], true)
  }

  function GeometryStubs(gs: seq<Geometry>): (r: seq<Geometry>)
    ensures |r| == |gs| && forall i :: 0 <= i < |gs| ==> r[i] == GeometryStub(gs[i])
  {
    seq(|gs|, i requires 0 <= i < |gs| => GeometryStub(gs[i]))
  }

  /** A box of a copied geometry: Rect.Copy, then Layer and Via stubbed. */
  function BoxCopy(b: Rect): Rect {
    b.(layer := StubOf(b.layer), via := StubOf(b.via))
  }

  /** Geometry.Copy. */
  function GeometryCopy(g: Geometry): (c: Geometry)
    ensures |c.boxes| == |g.boxes|
    ensures forall i :: 0 <= i < |g.boxes| ==> c.boxes[i] == BoxCopy(g.boxes[i])
  {
    Geometry(g.id, seq(|g.boxes|, i requires 0 <= i < |g.boxes| => BoxCopy(g.boxes[i])), g.incomplete)
  }

  /** Geometry.Copy keeps the ID, the completeness flag and every box in
      order with its ID, corners and shape type; each box's Layer and Via
      keep their IDs but point at no object of the design any more. */
  lemma GeometryCopyKeepsBoxes(g: Geometry)
    ensures GeometryCopy(g).id == g.id && GeometryCopy(g).incomplete == g.incomplete
    ensures forall i :: 0 <= i < |g.boxes| ==>
      var b, c := g.boxes[i], GeometryCopy(g).boxes[i];
      c.id == b.id && c.xMin == b.xMin && c.yMin == b.yMin && c.xMax == b.xMax && c.yMax == b.yMax &&
      c.shapeType == b.shapeType && c.incomplete == b.incomplete &&
      !Pointer(c.layer) && !Pointer(c.via) &&
      (c.layer.Nil? <==> b.layer.Nil?) && (c.via.Nil? <==> b.via.Nil?) &&
      (!b.layer.Nil? ==> c.layer.id == b.layer.id) && (!b.via.Nil? ==> c.via.id == b.via.id)
  {
  }

  /** Copying a copy changes nothing. */
  lemma GeometryCopyIdempotent(g: Geometry)
    ensures GeometryCopy(GeometryCopy(g)) == GeometryCopy(g)
  {
    var c := GeometryCopy(g);
    assert forall i :: 0 <= i < |c.boxes| ==> BoxCopy(c.boxes[i]) == c.boxes[i];
  }

  /** The loop of Geometry.Copy: a slice of the right length, filled box by
      box. */
  method CopyGeometry(g: Geometry) returns (c: Geometry)
    ensures c == GeometryCopy(g)
  {
    var boxes := new Rect[|g.boxes|];
    var i := 0;
    while i < |g.boxes|
      invariant 0 <= i <= |g.boxes|
      invariant forall k :: 0 <= k < i ==> boxes[k] == BoxCopy(g.boxes[k])
    {
      var boxCp := g.boxes[i];
      if !boxCp.layer.Nil? {
        boxCp := boxCp.(layer := Stub(boxCp.layer.id));
      }
      if !boxCp.via.Nil? {
        boxCp := boxCp.(via := Stub(boxCp.via.id));
      }
      boxes[i] := boxCp;
      i := i + 1;
    }
    c := Geometry(g.id, boxes[..], g.incomplete);
  }

  // ---- Lists of pointers ----

  /** Rebuilding a list of pointers element by element (`pins =
      append(pins, f(pin))`); reading the ID of a nil element panics,
      which is None here. */
  function MapRefs(rs: seq<Ref>, f: Ref -> Ref): (r: Option<seq<Ref>>)
    ensures r.None? <==> exists k :: 0 <= k < |rs| && rs[k].Nil?
    ensures r.Some? ==> |r.value| == |rs| && forall k :: 0 <= k < |rs| ==> r.value[k] == f(rs[k])
  {
    if exists k :: 0 <= k < |rs| && rs[k].Nil? then None
    else Some(seq(|rs|, k requires 0 <= k < |rs| => f(rs[k])))
  }

  method RebuildList(rs: seq<Ref>, f: Ref -> Ref) returns (r: Option<seq<Ref>>)
    ensures r == MapRefs(rs, f)
  {
    var out: seq<Ref> := [];
    var i := 0;
    while i < |rs|
      invariant 0 <= i <= |rs|
      invariant |out| == i && forall k :: 0 <= k < i ==> out[k] == f(rs[k]) && !rs[k].Nil?
    {
      if rs[i].Nil? {
        assert exists k :: 0 <= k < |rs| && rs[k].Nil?;
        return None;
      }
      out := out + [f(rs[i])];
      i := i + 1;
    }
    assert MapRefs(rs, f).Some?;
    assert out == MapRefs(rs, f).value;
    r := Some(out);
  }

  // ---- Rewriting the objects a table holds ----

  /** A loop over the values of a table filled from `s` (`for _, x := range
      xMap { ... }`) reaches exactly the last element of each ID; `f`
      rewrites it, or panics (None). The others stay as they were. */
  function RewriteLast<T>(s: seq<T>, id: T -> int, f: T -> Option<T>): (r: Option<seq<T>>)
    ensures r.None? <==> exists i :: 0 <= i < |s| && Index.LastWithKey(s, id, i) && f(s[i]).None?
    ensures r.Some? ==> |r.value| == |s|
    ensures r.Some? ==> forall i :: 0 <= i < |s| ==>
      r.value[i] == if Index.LastWithKey(s, id, i) then f(s[i]).value else s[i]
  {
    if exists i :: 0 <= i < |s| && Index.LastWithKey(s, id, i) && f(s[i]).None? then None
    else Some(seq(|s|, i requires 0 <= i < |s| => if Index.LastWithKey(s, id, i) then f(s[i]).value else s[i]))
  }

  /** The map-value loop, visiting the table's objects by their position in
      the list they came from. */
  method RewriteLoop<T>(s: seq<T>, id: T -> int, f: T -> Option<T>) returns (r: Option<seq<T>>)
    ensures r == RewriteLast(s, id, f)
  {
    var out := s;
    var i := 0;
    while i < |s|
      invariant 0 <= i <= |s| && |out| == |s|
      invariant forall k :: 0 <= k < i ==> Index.LastWithKey(s, id, k) ==> f(s[k]).Some?
      invariant forall k :: 0 <= k < |s| ==>
        out[k] == if k < i && Index.LastWithKey(s, id, k) then f(s[k]).value else s[k]
    {
      if Index.LastWithKey(s, id, i) {
        var x := f(s[i]);
        if x.None? {
          assert exists k :: 0 <= k < |s| && Index.LastWithKey(s, id, k) && f(s[k]).None?;
          return None;
        }
        out := out[i := x.value];
      }
      i := i + 1;
    }
    assert RewriteLast(s, id, f).Some?;
    assert out == RewriteLast(s, id, f).value;
    r := Some(out);
  }

  /** When no ID repeats, every element is the last of its ID. */
  lemma AllLast<T>(s: seq<T>, id: T -> int)
    requires forall i, j :: 0 <= i < j < |s| ==> id(s[i]) != id(s[j])
    ensures forall i :: 0 <= i < |s| ==> Index.LastWithKey(s, id, i)
  {
  }
}
