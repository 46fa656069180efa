/** The viewer's per-layer visibility state and the lookup tables built on
    every render (client/components/viewer/Viewer.js). */
module Visibility {
  import opened Wrappers
  import Index
  import Transform
  import Textures

  /** One row of the layer-visibility panel. */
  datatype VisEntry = VisEntry(name: string, visible: bool, index: int, dirty: bool)

  /** The nine layer groups the viewer knows, with their initial state
      (client/utils/defaults.js): cells, ports, wires and vias visible. */
  function DefaultLayerVisibility(): (m: map<string, VisEntry>)
    ensures |m.Keys| == 9
    ensures forall k :: k in m ==> !m[k].dirty
  {
    map["cells" := VisEntry("Cells", true, 0, false),
        "ports" := VisEntry("Ports", true, 1, false),
        "wires" := VisEntry("Wires", true, 2, false),
        "vias" := VisEntry("Vias", true, 3, false),
        "tracks" := VisEntry("Tracks", false, 4, false),
        "rows" := VisEntry("Rows", false, 5, false),
        "gcells" := VisEntry("G-Cells", false, 6, false),
        "specialWires" := VisEntry("Special Wires", false, 7, false),
        "cellShapes" := VisEntry("Cell Shapes", false, 8, false)]
  }

  /** Every entry with its dirty flag set to `flag`, visibility untouched. */
  function WithDirty(m: map<string, VisEntry>, flag: bool): (r: map<string, VisEntry>)
    ensures r.Keys == m.Keys
    ensures forall k :: k in r ==> r[k].dirty == flag && r[k].visible == m[k].visible
  {
    map k | k in m :: m[k].(dirty := flag)
  }

  /** Clearing or setting all flags twice is the same as once, and the last
      of two such updates decides. */
  lemma WithDirtyAbsorbs(m: map<string, VisEntry>, first: bool, second: bool)
    ensures WithDirty(WithDirty(m, first), second) == WithDirty(m, second)
  {
  }

  /** The state the viewer keeps. Entries are updated in place. */
  class LayerVisibility {
    var entries: map<string, VisEntry>

    constructor ()
      ensures entries == DefaultLayerVisibility()
    {
      entries := DefaultLayerVisibility();
    }

    /** onChangeVisibility(checked, layerName), once its zero-delay timeout
        has run: the named entry becomes visible or hidden and dirty; nothing
        else changes. An unknown name makes the updater throw, which leaves
        the state as it was; `ok` reports which happened. */
    method ChangeVisibility(checked: bool, layerName: string) returns (ok: bool)
      modifies this
      ensures ok <==> layerName in old(entries)
      ensures ok ==> entries == old(entries)[layerName := old(entries)[layerName].(visible := checked, dirty := true)]
      ensures !ok ==> entries == old(entries)
    {
      ok := layerName in entries;
      if ok {
        var e := entries[layerName];
        entries := entries[layerName := e.(visible := checked, dirty := true)];
      }
    }

    /** Sets the dirty flag of every entry, one key at a time. */
    method SetAllDirty(flag: bool)
      modifies this
      ensures entries == WithDirty(old(entries), flag)
    {
      ghost var start := entries;
      var pending := entries.Keys;
      while pending != {}
        invariant pending <= start.Keys && entries.Keys == start.Keys
        invariant forall k :: k in start && k !in pending ==> entries[k] == start[k].(dirty := flag)
        invariant forall k :: k in pending ==> entries[k] == start[k]
        decreases pending
      {
        var k :| k in pending;
        entries := entries[k := entries[k].(dirty := flag)];
        pending := pending - {k};
      }
    }

    /** onResetDirtyLayers. */
    method ResetDirtyLayers()
      modifies this
      ensures entries == WithDirty(old(entries), false)
    {
      SetAllDirty(false);
    }

    /** onSetDirtyLayers. */
    method SetDirtyLayers()
      modifies this
      ensures entries == WithDirty(old(entries), true)
    {
      SetAllDirty(true);
    }
  }

  // ---- viaMap ----

  datatype Via = Via(ID: int, Name: string)

  function ViaId(v: Via): int { v.ID }

  /** The via lookup: routing vias first, then via definitions, into one
      table. */
  method BuildViaMap(routingVias: seq<Via>, viaDefinitions: seq<Via>) returns (viaMap: map<int, Via>)
    ensures viaMap == Index.IndexBy(routingVias, ViaId) + Index.IndexBy(viaDefinitions, ViaId)
  {
    viaMap := Index.BuildIndex(routingVias, ViaId);
    var i := 0;
    while i < |viaDefinitions|
      invariant 0 <= i <= |viaDefinitions|
      invariant viaMap == Index.IndexBy(routingVias, ViaId) + Index.IndexBy(viaDefinitions[..i], ViaId)
    {
      var v := viaDefinitions[i];
      assert viaDefinitions[..i + 1][..i] == viaDefinitions[..i];
      Index.MapUnionUpdate(Index.IndexBy(routingVias, ViaId), Index.IndexBy(viaDefinitions[..i], ViaId), v.ID, v);
      viaMap := viaMap[v.ID := v];
      i := i + 1;
    }
    assert viaDefinitions[..i] == viaDefinitions;
  }

  /** A via definition wins over a routing via with the same ID; an ID only
      routing vias carry maps to the last of them. */
  lemma ViaDefinitionsWin(routingVias: seq<Via>, viaDefinitions: seq<Via>, id: int)
    ensures var viaMap := Index.IndexBy(routingVias, ViaId) + Index.IndexBy(viaDefinitions, ViaId);
            (id in Index.IndexBy(viaDefinitions, ViaId) ==>
               id in viaMap && viaMap[id] == Index.IndexBy(viaDefinitions, ViaId)[id] &&
               viaMap[id] in viaDefinitions) &&
            (id !in Index.IndexBy(viaDefinitions, ViaId) && id in Index.IndexBy(routingVias, ViaId) ==>
               id in viaMap && viaMap[id] in routingVias)
  {
  }

  // ---- names ----

  /** An enumeration of client/utils/enums.js as its (key, value) pairs in
      declaration order. */
  type EnumTable = seq<(string, int)>

  const OrientationEnum: EnumTable :=
    [("R0", Transform.R0), ("R90", Transform.R90), ("R180", Transform.R180), ("R270", Transform.R270),
     ("MY", Transform.MY), ("MYR90", Transform.MYR90), ("MX", Transform.MX), ("MXR90", Transform.MXR90)]
  const MasterTypeEnum: EnumTable := [("Block", 0), ("Core", 1), ("Pad", 2), ("Endcap", 3)]
  const LayerTypeEnum: EnumTable :=
    [("Routing", Textures.Routing), ("Cut", Textures.Cut), ("Masterslice", Textures.Masterslice),
     ("Overlap", Textures.Overlap), ("Implant", Textures.Implant), ("None", Textures.NoneType)]
  const PortDirectionEnum: EnumTable := [("Input", 0), ("Output", 1), ("InOut", 2), ("FeedThru", 3)]
  const DirectionEnum: EnumTable := [("None", 0), ("Horizontal", 1), ("Vertical", 2)]

  function EnumValue(p: (string, int)): int { p.1 }

  predicate Injective(table: EnumTable) {
    forall i, j :: 0 <= i < j < |table| ==> table[i].1 != table[j].1
  }

  /** `for (let k in E) names[E[k]] = k`. */
  method BuildNames(table: EnumTable) returns (names: map<int, string>)
    ensures names == NamesOf(table)
  {
    names := map[];
    var i := 0;
    while i < |table|
      invariant 0 <= i <= |table|
      invariant names == NamesOf(table[..i])
    {
      NamesStep(table, i);
      names := names[table[i].1 := table[i].0];
      i := i + 1;
    }
    assert table[..i] == table;
  }

  /** The names table: each value of the enumeration bound to the key of
      the last pair carrying it. */
  function NamesOf(table: EnumTable): (names: map<int, string>)
    ensures forall v :: v in names <==> exists i :: 0 <= i < |table| && table[i].1 == v
  {
    var ix := Index.IndexBy(table, EnumValue);
    map v | v in ix :: ix[v].0
  }

  /** One round of the loop: the pair at `i` overwrites its value's name. */
  lemma NamesStep(table: EnumTable, i: int)
    requires 0 <= i < |table|
    ensures NamesOf(table[..i + 1]) == NamesOf(table[..i])[table[i].1 := table[i].0]
  {
    var s := table[..i + 1];
    assert s[..|s| - 1] == table[..i];
    assert Index.IndexBy(s, EnumValue) == Index.IndexBy(table[..i], EnumValue)[table[i].1 := table[i]];
  }

  /** For an enumeration with distinct values the names table inverts it:
      looking up a key's value gives the key back, and every value of the
      table is a value of the enumeration. */
  lemma NamesInvert(table: EnumTable)
    requires Injective(table)
    ensures var names := NamesOf(table);
            (forall i :: 0 <= i < |table| ==> table[i].1 in names && names[table[i].1] == table[i].0) &&
            (forall v :: v in names ==> exists i :: 0 <= i < |table| && table[i].1 == v)
  {
    Index.IndexByInjective(table, EnumValue);
  }

  /** All five enumerations the viewer names have distinct values. */
  lemma ViewerEnumsInjective()
    ensures Injective(OrientationEnum) && Injective(MasterTypeEnum) && Injective(LayerTypeEnum)
    ensures Injective(PortDirectionEnum) && Injective(DirectionEnum)
  {
  }
}
