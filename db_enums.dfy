/** The String() methods of the design-database enums
    (server/goopendb/goopendb.go). Each enum is a Go int whose constants
    count up from 0 (iota); String() switches over them and returns a
    fallback for any other value. A table lists the names in value order. */
module DbEnums {
  import opened Wrappers

  /** The name a switch over the table's positions returns for `v`. */
  function NameOf(table: seq<string>, v: int, fallback: string): string {
    if 0 <= v < |table| then table[v] else fallback
  }

  /** The first position of a table holding `s`, if any: reading a name
      back. */
  function Lookup(table: seq<string>, s: string): (r: Option<nat>)
    ensures r.Some? ==> r.value < |table| && table[r.value] == s
    ensures r.Some? ==> forall j :: 0 <= j < r.value ==> table[j] != s
    ensures r.None? ==> forall j :: 0 <= j < |table| ==> table[j] != s
    decreases |table|
  {
    if table == [] then None
    else if table[0] == s then Some(0)
    else match Lookup(table[1..], s) case None => None case Some(k) => Some(k + 1)
  }

  predicate Distinct(table: seq<string>) {
    forall i, j :: 0 <= i < j < |table| ==> table[i] != table[j]
  }

  /** With distinct names, reading back the name of a value gives the value;
      any other value reads back as the fallback's position, if the
      fallback is a name of the table. */
  lemma NameOfRoundTrip(table: seq<string>, v: int, fallback: string)
    requires Distinct(table)
    ensures 0 <= v < |table| ==> Lookup(table, NameOf(table, v, fallback)) == Some(v)
    ensures !(0 <= v < |table|) ==> Lookup(table, NameOf(table, v, fallback)) == Lookup(table, fallback)
  {
  }

  const Unknown: string := "Unknown"

  // ---- Orientation ----

  /** The names Orientation.String() returns for R0 .. MXR90, as written:
      R90 comes out as "90". */
  const OrientationNamesAsWritten: seq<string> := ["R0", "90", "R180", "R270", "MY", "MYR90", "MX", "MXR90"]

  /** The DEF orientation keywords, which are the constants' names
      (OrientationR0 .. OrientationMXR90) and the client's Orientation
      keys. */
  const OrientationNames: seq<string> := ["R0", "R90", "R180", "R270", "MY", "MYR90", "MX", "MXR90"]

  const OrientationR90: int := 1

  /** Orientation.String() as written. */
  function OrientationStringAsWritten(o: int): string {
    NameOf(OrientationNamesAsWritten, o, Unknown)
  }

  /** Orientation.String() with R90 named "R90"; the rest of the model uses
      this one. */
  function OrientationString(o: int): (s: string)
    ensures 0 <= o < |OrientationNames| ==> s == OrientationNames[o]
    ensures !(0 <= o < |OrientationNames|) ==> s == Unknown
  {
    NameOf(OrientationNames, o, Unknown)
  }

  /** As written, the name printed for R90 is not a DEF orientation
      keyword: reading it back finds nothing. */
  lemma OrientationR90Misnamed()
    ensures OrientationStringAsWritten(OrientationR90) == "90"
    ensures Lookup(OrientationNames, OrientationStringAsWritten(OrientationR90)).None?
  {
    assert OrientationNamesAsWritten[1] == "90";
  }

  /** Corrected, every orientation prints as its own keyword and reads
      back as itself; any other value prints "Unknown", which is no
      keyword. */
  lemma OrientationStringRoundTrip(o: int)
    ensures 0 <= o < |OrientationNames| ==> Lookup(OrientationNames, OrientationString(o)) == Some(o)
    ensures !(0 <= o < |OrientationNames|) ==> Lookup(OrientationNames, OrientationString(o)).None?
  {
    var t := OrientationNames;
    forall i, j | 0 <= i < j < |t| ensures t[i] != t[j] {
      assert |t[i]| != |t[j]| || t[i][1] != t[j][1];
    }
    forall j | 0 <= j < |t| ensures t[j] != Unknown {
      assert t[j][0] != Unknown[0];
    }
    NameOfRoundTrip(t, o, Unknown);
  }

  // ---- SignalType ----

  /** The names SignalType.String() returns, as written: SCAN comes out as
      "SCA". */
  const SignalTypeNamesAsWritten: seq<string> := ["SIGNAL", "POWER", "GROUND", "CLOCK", "ANALOG", "RESET", "SCA", "TIEOFF"]

  /** The DEF signal-type keywords, which are the constants' names. */
  const SignalTypeNames: seq<string> := ["SIGNAL", "POWER", "GROUND", "CLOCK", "ANALOG", "RESET", "SCAN", "TIEOFF"]

  const SignalTypeScan: int := 6

  function SignalTypeStringAsWritten(t: int): string {
    NameOf(SignalTypeNamesAsWritten, t, Unknown)
  }

  function SignalTypeString(t: int): (s: string)
    ensures 0 <= t < |SignalTypeNames| ==> s == SignalTypeNames[t]
    ensures !(0 <= t < |SignalTypeNames|) ==> s == Unknown
  {
    NameOf(SignalTypeNames, t, Unknown)
  }

  lemma SignalTypeScanMisnamed()
    ensures SignalTypeStringAsWritten(SignalTypeScan) == "SCA"
    ensures Lookup(SignalTypeNames, SignalTypeStringAsWritten(SignalTypeScan)).None?
  {
    assert SignalTypeNamesAsWritten[6] == "SCA";
  }

  lemma SignalTypeStringRoundTrip(t: int)
    ensures 0 <= t < |SignalTypeNames| ==> Lookup(SignalTypeNames, SignalTypeString(t)) == Some(t)
    ensures !(0 <= t < |SignalTypeNames|) ==> Lookup(SignalTypeNames, SignalTypeString(t)).None?
  {
    var names := SignalTypeNames;
    forall i, j | 0 <= i < j < |names| ensures names[i] != names[j] {
      assert |names[i]| != |names[j]| || names[i][0] != names[j][0];
    }
    forall j | 0 <= j < |names| ensures names[j] != Unknown {
      assert names[j][0] != Unknown[0];
    }
    NameOfRoundTrip(names, t, Unknown);
  }

  // ---- The other enums ----

  const IoTypeNames: seq<string> := ["INPUT", "OUTPUT", "INOUT", "FEEDTHRU"]
  const LayerTypeNames: seq<string> := ["ROUTING", "CUT", "MASTERSLICE", "OVERLAP", "IMPLANT", "NONE"]
  const DirectionNames: seq<string> := ["NONE", "HORIZONTAL", "VERTICAL"]
  const EdgeTypeNames: seq<string> := ["SEGMENT", "TECHVIA", "VIA", "SHORT", "VWIRE"]
  const MasterTypeNames: seq<string> := ["BLOCK", "CORE", "PAD", "ENDCAP"]
  const WireTypeNames: seq<string> := ["NONE", "COVER", "FIXED", "ROUTED", "SHIELD", "NOSHIELD"]
  const WireShapeTypeNames: seq<string> :=
    ["NONE", "RING", "PADRING", "BLOCKRING", "STRIPE", "FOLLOWPIN", "IOWIRE", "COREWIRE",
     "BLOCKWIRE", "BLOCKAGEWIRE", "FILLWIRE", "DRCFILL"]

  const LayerTypeNone: int := 5
  const DirectionNone: int := 0

  function IoTypeString(t: int): string { NameOf(IoTypeNames, t, Unknown) }
  /** LayerType.String(): any other value prints as "NONE". */
  function LayerTypeString(t: int): string { NameOf(LayerTypeNames, t, "NONE") }
  /** Direction.String(): any other value prints as "NONE". */
  function DirectionString(d: int): string { NameOf(DirectionNames, d, "NONE") }
  function EdgeTypeString(t: int): string { NameOf(EdgeTypeNames, t, Unknown) }
  function MasterTypeString(t: int): string { NameOf(MasterTypeNames, t, Unknown) }
  function WireTypeString(t: int): string { NameOf(WireTypeNames, t, Unknown) }
  function WireShapeTypeString(t: int): string { NameOf(WireShapeTypeNames, t, Unknown) }

  /** Every value of these enums prints as a name that reads back as itself;
      any other value prints "Unknown", which reads back as nothing. */
  lemma IoTypeRoundTrip(t: int)
    ensures 0 <= t < |IoTypeNames| ==> Lookup(IoTypeNames, IoTypeString(t)) == Some(t)
    ensures !(0 <= t < |IoTypeNames|) ==> Lookup(IoTypeNames, IoTypeString(t)).None?
  {
    NameOfRoundTrip(IoTypeNames, t, Unknown);
  }

  lemma EdgeTypeRoundTrip(t: int)
    ensures 0 <= t < |EdgeTypeNames| ==> Lookup(EdgeTypeNames, EdgeTypeString(t)) == Some(t)
    ensures !(0 <= t < |EdgeTypeNames|) ==> Lookup(EdgeTypeNames, EdgeTypeString(t)).None?
  {
    NameOfRoundTrip(EdgeTypeNames, t, Unknown);
  }

  lemma MasterTypeRoundTrip(t: int)
    ensures 0 <= t < |MasterTypeNames| ==> Lookup(MasterTypeNames, MasterTypeString(t)) == Some(t)
    ensures !(0 <= t < |MasterTypeNames|) ==> Lookup(MasterTypeNames, MasterTypeString(t)).None?
  {
    NameOfRoundTrip(MasterTypeNames, t, Unknown);
  }

  lemma WireTypeRoundTrip(t: int)
    ensures 0 <= t < |WireTypeNames| ==> Lookup(WireTypeNames, WireTypeString(t)) == Some(t)
    ensures !(0 <= t < |WireTypeNames|) ==> Lookup(WireTypeNames, WireTypeString(t)).None?
  {
    NameOfRoundTrip(WireTypeNames, t, Unknown);
  }

  lemma WireShapeTypeRoundTrip(t: int)
    ensures 0 <= t < |WireShapeTypeNames| ==> Lookup(WireShapeTypeNames, WireShapeTypeString(t)) == Some(t)
    ensures !(0 <= t < |WireShapeTypeNames|) ==> Lookup(WireShapeTypeNames, WireShapeTypeString(t)).None?
  {
    WireShapeTypeNamesDistinct();
    NameOfRoundTrip(WireShapeTypeNames, t, Unknown);
  }

  lemma WireShapeTypeNamesDistinct()
    ensures Distinct(WireShapeTypeNames)
    ensures forall j :: 0 <= j < |WireShapeTypeNames| ==> WireShapeTypeNames[j] != Unknown
  {
    forall j | 0 <= j < |WireShapeTypeNames| ensures WireShapeTypeNames[j] != Unknown {
      assert WireShapeTypeNames[j][0] != Unknown[0];
    }
    var t := WireShapeTypeNames;
    forall i, j | 0 <= i < j < |t| ensures t[i] != t[j] {
      assert |t[i]| != |t[j]| || t[i][0] != t[j][0] || t[i][5] != t[j][5];
    }
  }

  /** LayerType and Direction print any value outside the enum as "NONE",
      so it reads back as the NONE constant. */
  lemma LayerTypeRoundTrip(t: int)
    ensures 0 <= t < |LayerTypeNames| ==> Lookup(LayerTypeNames, LayerTypeString(t)) == Some(t)
    ensures !(0 <= t < |LayerTypeNames|) ==> Lookup(LayerTypeNames, LayerTypeString(t)) == Some(LayerTypeNone)
  {
    NameOfRoundTrip(LayerTypeNames, t, "NONE");
    assert LayerTypeNames[LayerTypeNone] == "NONE";
  }

  lemma DirectionRoundTrip(d: int)
    ensures 0 <= d < |DirectionNames| ==> Lookup(DirectionNames, DirectionString(d)) == Some(d)
    ensures !(0 <= d < |DirectionNames|) ==> Lookup(DirectionNames, DirectionString(d)) == Some(DirectionNone)
  {
    NameOfRoundTrip(DirectionNames, d, "NONE");
    assert DirectionNames[DirectionNone] == "NONE";
  }
}
