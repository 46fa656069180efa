/** The cell labels of the viewer (the displayNames branch of
    createCellsContainer in client/components/viewer/DEFViewer.js): a name
    too wide for its cell is shortened to "..." followed by a suffix of the
    name, dropping one more leading character at a time until it fits. Text
    measurement is the `measure` oracle. */
module Labels {

  const Ellipsis: string := "..."

  /** The label fits when its measured width plus the padding is at most
      the cell width. */
  predicate Fits(text: string, measure: string -> real, padding: real, width: real) {
    measure(text) + padding <= width
  }

  /** The label that keeps the name from position `k` on. */
  function Shortened(name: string, k: nat): (text: string)
    requires k <= |name|
    ensures |text| == |Ellipsis| + |name| - k
    ensures text[..3] == Ellipsis && text[3..] == name[k..]
  {
    Ellipsis + name[k..]
  }

  /** The first trim position from `k` on whose label fits, or the name's
      length when none does before it. */
  function TrimFrom(name: string, k: nat, measure: string -> real, padding: real, width: real): (r: nat)
    requires k <= |name|
    ensures k <= r <= |name|
    ensures Fits(Shortened(name, r), measure, padding, width) || r == |name|
    ensures forall j :: k <= j < r ==> !Fits(Shortened(name, j), measure, padding, width)
    decreases |name| - k
  {
    if Fits(Shortened(name, k), measure, padding, width) || k == |name| then k
    else TrimFrom(name, k + 1, measure, padding, width)
  }

  /** The label shown for a cell named `name`. */
  function Label(name: string, measure: string -> real, padding: real, width: real): string {
    if Fits(name, measure, padding, width) then name
    else Shortened(name, TrimFrom(name, 0, measure, padding, width))
  }

  /** The label is the whole name when that fits; otherwise it is "..."
      with the longest suffix of the name that fits, or "..." alone when no
      suffix fits. */
  lemma LabelShape(name: string, measure: string -> real, padding: real, width: real)
    ensures Fits(name, measure, padding, width) ==> Label(name, measure, padding, width) == name
    ensures !Fits(name, measure, padding, width) ==>
      exists k :: 0 <= k <= |name| && Label(name, measure, padding, width) == Shortened(name, k) &&
        (Fits(Shortened(name, k), measure, padding, width) || k == |name|) &&
        forall j :: 0 <= j < k ==> !Fits(Shortened(name, j), measure, padding, width)
  {
    if !Fits(name, measure, padding, width) {
      var k := TrimFrom(name, 0, measure, padding, width);
      assert Label(name, measure, padding, width) == Shortened(name, k);
    }
  }

  /** The label never exceeds the name by more than the ellipsis. */
  lemma LabelLength(name: string, measure: string -> real, padding: real, width: real)
    ensures |Label(name, measure, padding, width)| <= |name| + |Ellipsis|
  {
  }

  /** The loop of the source: measure the name; when it does not fit, try
      "..." + name.substr(trimIndex) for trimIndex = 0, 1, ... until one
      fits or trimIndex passes the name's length. */
  method Ellipsize(name: string, measure: string -> real, padding: real, width: real) returns (text: string)
    ensures text == Label(name, measure, padding, width)
  {
    text := name;
    var metrics := measure(text);
    if metrics + padding > width {
      var trimIndex := 0;
      text := Ellipsis + name[trimIndex..];
      metrics := measure(text);
      while metrics + padding > width
        invariant 0 <= trimIndex <= |name|
        invariant text == Shortened(name, trimIndex) && metrics == measure(text)
        invariant TrimFrom(name, 0, measure, padding, width) == TrimFrom(name, trimIndex, measure, padding, width)
        decreases |name| - trimIndex
      {
        trimIndex := trimIndex + 1;
        if trimIndex > |name| {
          break;
        }
        text := Ellipsis + name[trimIndex..];
        metrics := measure(text);
      }
    }
  }
}
