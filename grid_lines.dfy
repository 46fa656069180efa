/** The routing-track and gcell grids of the viewer (createTracksContainer
    and createGCellsContainer in client/components/viewer/DEFViewer.js):
    how many lines are drawn, which track or pattern each comes from, and
    in which order. Canvas offsets are floating point and are not modelled;
    a line records the grid value it is drawn at. */
module GridLines {
  import opened Wrappers

  /** A track: its layer reference by ID, and its X and Y grid values. */
  datatype Track = Track(layer: Option<int>, gridX: seq<int>, gridY: seq<int>)

  /** A track line: vertical (from GridX) or horizontal (from GridY), the
      position of its track, the grid value and the track's layer. */
  datatype TrackLine = TrackLine(vertical: bool, track: nat, grid: int, layer: Option<int>)

  /** The lines of one track along one axis, in grid order. */
  function AxisLines(t: nat, vertical: bool, grid: seq<int>, layer: Option<int>): (r: seq<TrackLine>)
    ensures |r| == |grid|
    ensures forall i :: 0 <= i < |r| ==> r[i] == TrackLine(vertical, t, grid[i], layer)
  {
    if grid == [] then []
    else AxisLines(t, vertical, grid[..|grid| - 1], layer) + [TrackLine(vertical, t, grid[|grid| - 1], layer)]
  }

  /** The lines along one axis of the tracks, track after track. */
  function Lines(tracks: seq<Track>, vertical: bool): (r: seq<TrackLine>)
  {
    if tracks == [] then []
    else
      var n := |tracks| - 1;
      var t := tracks[n];
      Lines(tracks[..n], vertical) + AxisLines(n, vertical, if vertical then t.gridX else t.gridY, t.layer)
  }

  function GridCount(tracks: seq<Track>, vertical: bool): nat {
    if tracks == [] then 0
    else
      var n := |tracks| - 1;
      GridCount(tracks[..n], vertical) + |if vertical then tracks[n].gridX else tracks[n].gridY|
  }

  /** One line per grid value, each carrying its own track's layer and a
      grid value of that track's own axis. */
  lemma {:induction false} LinesOfTracks(tracks: seq<Track>, vertical: bool)
    ensures |Lines(tracks, vertical)| == GridCount(tracks, vertical)
    ensures forall l :: l in Lines(tracks, vertical) ==>
      l.vertical == vertical && l.track < |tracks| && l.layer == tracks[l.track].layer &&
      l.grid in (if vertical then tracks[l.track].gridX else tracks[l.track].gridY)
  {
    if tracks != [] {
      var n := |tracks| - 1;
      var front, t := tracks[..n], tracks[n];
      var grid := if vertical then t.gridX else t.gridY;
      var axis := AxisLines(n, vertical, grid, t.layer);
      assert Lines(tracks, vertical) == Lines(front, vertical) + axis;
      LinesOfTracks(front, vertical);
      forall l | l in Lines(tracks, vertical)
        ensures l.vertical == vertical && l.track < |tracks| && l.layer == tracks[l.track].layer
        ensures l.grid in (if vertical then tracks[l.track].gridX else tracks[l.track].gridY)
      {
        if l in Lines(front, vertical) {
          assert front[l.track] == tracks[l.track];
        } else {
          AxisMember(n, vertical, grid, t.layer, l);
        }
      }
    }
  }

  /** A line of one track's axis carries that track, its layer and one of
      its grid values. */
  lemma AxisMember(t: nat, vertical: bool, grid: seq<int>, layer: Option<int>, l: TrackLine)
    requires l in AxisLines(t, vertical, grid, layer)
    ensures l.vertical == vertical && l.track == t && l.layer == layer && l.grid in grid
  {
    var r := AxisLines(t, vertical, grid, layer);
    var i :| 0 <= i < |r| && r[i] == l;
    assert l.grid == grid[i];
  }

  /** The lines in drawing order: all vertical lines, then all horizontal
      ones. None when one of them has no layer or its layer has no colour
      entry, where the pass throws. */
  function TrackLines(tracks: seq<Track>, colors: set<int>): (r: Option<seq<TrackLine>>)
    ensures r.Some? ==> r.value == Lines(tracks, true) + Lines(tracks, false)
    ensures r.Some? <==> forall l :: l in Lines(tracks, true) + Lines(tracks, false) ==>
                           l.layer.Some? && l.layer.value in colors
  {
    var all := Lines(tracks, true) + Lines(tracks, false);
    if forall l :: l in all ==> l.layer.Some? && l.layer.value in colors then Some(all) else None
  }

  /** A track without a layer throws only when it has a grid value. */
  lemma LayerlessTrack(tracks: seq<Track>, colors: set<int>, t: nat)
    requires t < |tracks| && tracks[t].layer.None?
    ensures tracks[t].gridX != [] ==> TrackLines(tracks, colors).None?
  {
    if tracks[t].gridX != [] {
      LinesOfTracksComplete(tracks, true, t, 0);
    }
  }

  /** Every grid value of every track has its line. */
  lemma {:induction false} LinesOfTracksComplete(tracks: seq<Track>, vertical: bool, t: nat, i: nat)
    requires t < |tracks|
    requires i < |if vertical then tracks[t].gridX else tracks[t].gridY|
    ensures TrackLine(vertical, t, (if vertical then tracks[t].gridX else tracks[t].gridY)[i], tracks[t].layer)
            in Lines(tracks, vertical)
  {
    var n := |tracks| - 1;
    var t0 := tracks[n];
    var grid := if vertical then t0.gridX else t0.gridY;
    if t < n {
      assert tracks[..n][t] == tracks[t];
      LinesOfTracksComplete(tracks[..n], vertical, t, i);
    } else {
      assert AxisLines(n, vertical, grid, t0.layer)[i] in AxisLines(n, vertical, grid, t0.layer);
    }
  }

  /** The lines of one track along one axis, as the inner for-loop pushes
      them; None when the track has no layer. */
  method PushAxis(lines: seq<TrackLine>, t: nat, vertical: bool, grid: seq<int>, layer: Option<int>)
    returns (r: Option<seq<TrackLine>>)
    ensures grid != [] && layer.None? ==> r.None?
    ensures !(grid != [] && layer.None?) ==> r == Some(lines + AxisLines(t, vertical, grid, layer))
  {
    var out := lines;
    var i := 0;
    while i < |grid|
      invariant 0 <= i <= |grid|
      invariant out == lines + AxisLines(t, vertical, grid[..i], layer)
      invariant i > 0 ==> layer.Some?
    {
      if layer.None? {
        return None;
      }
      assert grid[..i + 1][..i] == grid[..i];
      out := out + [TrackLine(vertical, t, grid[i], layer)];
      i := i + 1;
    }
    assert grid[..i] == grid;
    r := Some(out);
  }

  /** createTracksContainer: horizontal and vertical lines are pushed track
      by track, then the vertical ones are drawn before the horizontal
      ones, each in its layer's colour. */
  method CreateTracksContainer(tracks: seq<Track>, colors: set<int>) returns (r: Option<seq<TrackLine>>)
    ensures r == TrackLines(tracks, colors)
  {
    var horizontalLines: seq<TrackLine> := [];
    var verticalLines: seq<TrackLine> := [];
    var t := 0;
    while t < |tracks|
      invariant 0 <= t <= |tracks|
      invariant horizontalLines == Lines(tracks[..t], false)
      invariant verticalLines == Lines(tracks[..t], true)
    {
      assert tracks[..t + 1][..t] == tracks[..t];
      var track := tracks[t];
      var h := PushAxis(horizontalLines, t, false, track.gridY, track.layer);
      if h.None? {
        LinesOfTracksComplete(tracks, false, t, 0);
        return None;
      }
      var v := PushAxis(verticalLines, t, true, track.gridX, track.layer);
      if v.None? {
        LinesOfTracksComplete(tracks, true, t, 0);
        return None;
      }
      horizontalLines, verticalLines := h.value, v.value;
      t := t + 1;
    }
    assert tracks[..t] == tracks;
    var all := verticalLines + horizontalLines;
    var colored := AllColored(all, colors);
    r := if colored then Some(all) else None;
  }

  /** The drawing loop over the lines: whether every line has a layer with
      a colour entry. */
  method AllColored(all: seq<TrackLine>, colors: set<int>) returns (ok: bool)
    ensures ok <==> forall l :: l in all ==> l.layer.Some? && l.layer.value in colors
  {
    var i := 0;
    while i < |all|
      invariant 0 <= i <= |all|
      invariant forall k :: 0 <= k < i ==> all[k].layer.Some? && all[k].layer.value in colors
    {
      if all[i].layer.None? || all[i].layer.value !in colors {
        return false;
      }
      i := i + 1;
    }
    return true;
  }

  // ---- GCells ----

  /** One axis of the gcell grid: per pattern, its origin, line count and
      step. The three lists are read at the same index and may differ in
      length. */
  datatype GridPattern = GridPattern(origins: seq<int>, lineCounts: seq<int>, steps: seq<int>)

  /** A gcell line: its axis, its pattern and its position in the pattern. */
  datatype GCellLine = GCellLine(vertical: bool, pattern: nat, j: nat)

  /** The lines of pattern i: LineCount - 1 of them, none when the count
      is missing (undefined - 1 is NaN, and j < NaN is false). */
  function PatternLineCount(p: GridPattern, i: nat): (n: nat)
    ensures i < |p.lineCounts| && p.lineCounts[i] >= 1 ==> n == p.lineCounts[i] - 1
    ensures i >= |p.lineCounts| || p.lineCounts[i] <= 1 ==> n == 0
  {
    if i < |p.lineCounts| && p.lineCounts[i] > 1 then p.lineCounts[i] - 1 else 0
  }

  function PatternLines(vertical: bool, i: nat, count: nat): (r: seq<GCellLine>)
    ensures |r| == count
    ensures forall k :: 0 <= k < count ==> r[k] == GCellLine(vertical, i, k)
  {
    if count == 0 then [] else PatternLines(vertical, i, count - 1) + [GCellLine(vertical, i, count - 1)]
  }

  /** The lines of the first `n` patterns of an axis. */
  function AxisGCellLines(p: GridPattern, vertical: bool, n: nat): (r: seq<GCellLine>)
    requires n <= |p.origins|
  {
    if n == 0 then []
    else AxisGCellLines(p, vertical, n - 1) + PatternLines(vertical, n - 1, PatternLineCount(p, n - 1))
  }

  function TotalLines(p: GridPattern, n: nat): nat
    requires n <= |p.origins|
  {
    if n == 0 then 0 else TotalLines(p, n - 1) + PatternLineCount(p, n - 1)
  }

  /** The number of lines of an axis is the sum of LineCount - 1 over its
      patterns, and every line is at a position its pattern has. */
  lemma {:induction false} AxisGCellLinesCount(p: GridPattern, vertical: bool, n: nat)
    requires n <= |p.origins|
    ensures |AxisGCellLines(p, vertical, n)| == TotalLines(p, n)
    ensures forall l :: l in AxisGCellLines(p, vertical, n) ==>
      l.vertical == vertical && l.pattern < n && l.j < PatternLineCount(p, l.pattern)
  {
    if n > 0 {
      AxisGCellLinesCount(p, vertical, n - 1);
    }
  }

  /** The gcell lines in drawing order: vertical (GridX) lines, then
      horizontal (GridY) ones; none without a gcell grid. */
  function GCellLines(gcells: Option<(GridPattern, GridPattern)>): seq<GCellLine> {
    match gcells
    case None => []
    case Some((xs, ys)) => AxisGCellLines(xs, true, |xs.origins|) + AxisGCellLines(ys, false, |ys.origins|)
  }

  /** The nested for-loops over the patterns of one axis. */
  method PushPatterns(p: GridPattern, vertical: bool) returns (lines: seq<GCellLine>)
    ensures lines == AxisGCellLines(p, vertical, |p.origins|)
  {
    lines := [];
    var i := 0;
    while i < |p.origins|
      invariant 0 <= i <= |p.origins|
      invariant lines == AxisGCellLines(p, vertical, i)
    {
      var lineCount := if i < |p.lineCounts| then p.lineCounts[i] - 1 else 0;
      var j := 0;
      ghost var before := lines;
      while j < lineCount
        invariant 0 <= j <= (if lineCount > 0 then lineCount else 0)
        invariant lines == before + PatternLines(vertical, i, j)
      {
        lines := lines + [GCellLine(vertical, i, j)];
        j := j + 1;
      }
      assert j == PatternLineCount(p, i);
      i := i + 1;
    }
  }

  /** createGCellsContainer. */
  method CreateGCellsContainer(gcells: Option<(GridPattern, GridPattern)>) returns (lines: seq<GCellLine>)
    ensures lines == GCellLines(gcells)
  {
    if gcells.None? {
      return [];
    }
    var (xs, ys) := gcells.value;
    var horizontalLines := PushPatterns(ys, false);
    var verticalLines := PushPatterns(xs, true);
    lines := verticalLines + horizontalLines;
  }
}
