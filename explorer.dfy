/** The components explorer's tree walker
    (client/components/viewer/ComponentsExplorerPanel.js, treeWalker): a
    generator that walks the categories of the explorer (sites, ports, cells,
    ...) and, for each category the consumer opens, its components, with an
    explicit stack. What the consumer sends back for each yielded node
    ("is it open?") is the sequence `answers`, the k-th answer going to the
    k-th yield; a missing answer is `undefined`, which is false. Whether a
    component's Name matches the search pattern (`Name.search(pattern) > -1`,
    a regular expression search) is the parameter `matches`. */
module Explorer {
  import opened Wrappers
  import StableSort

  /** A category of the explorer: its key in the explorer object, its
      ordering index, its display name and the design field it lists. */
  datatype Category = Category(key: string, index: int, name: string, designKey: string)

  /** A component of the design; `caption` is what the category's childrenKey
      (a field name or a function) gives for it. */
  datatype Component = Component(id: int, name: string, caption: string)

  /** What a stack entry's `node` is. */
  datatype Item = CategoryItem(c: Category) | ComponentItem(x: Component)

  /** A node's id: a category's key, or its parent's id, `_` and the
      component's ID. */
  datatype NodeId = Top(key: string) | Child(parent: NodeId, component: int)

  /** A node's name: a category's name with its count, `*` while searching,
      or a component's caption. */
  datatype Label = Counted(title: string, count: Option<nat>) | Caption(text: string)

  /** A stack entry; `isHeader` is absent (None) on categories. Ids and names
      are kept structured and rendered to text when yielded. */
  datatype Entry = Entry(id: NodeId, name: Label, nestingLevel: nat, parentId: Option<NodeId>,
                         isHeader: Option<bool>, item: Item)

  /** What the generator yields: the node record when refreshing, the id
      otherwise (isOpenByDefault, always false, and the icon are left out). */
  datatype Yield =
    | Full(id: string, isLeaf: bool, name: string, nestingLevel: nat, isHeader: Option<bool>,
           parentId: Option<string>, item: Item)
    | IdOnly(id: string)

  type DesignLists = map<string, seq<Component>>

  // ---- Strings ----

  function Digit(n: nat): char
    requires n < 10
  {
    "0123456789"[n]
  }

  /** A number's decimal rendering, as JavaScript's string conversion. */
  function NatToString(n: nat): (s: string)
    ensures s != [] && forall k :: 0 <= k < |s| ==> '0' <= s[k] <= '9'
  {
    if n < 10 then [Digit(n)] else NatToString(n / 10) + [Digit(n % 10)]
  }

  /** The number a string of decimal digits spells, read left to right. */
  function DigitsValue(s: string): nat
    requires forall k :: 0 <= k < |s| ==> '0' <= s[k] <= '9'
  {
    if s == [] then 0
    else DigitsValue(s[..|s| - 1]) * 10 + (s[|s| - 1] as int - '0' as int)
  }

  /** The rendering reads back as the number, with no leading zero. */
  lemma {:induction false} NatToStringReadsBack(n: nat)
    ensures DigitsValue(NatToString(n)) == n
    ensures n > 0 ==> NatToString(n)[0] != '0'
  {
    if n >= 10 {
      var p := NatToString(n / 10);
      NatToStringReadsBack(n / 10);
      assert NatToString(n)[..|NatToString(n)| - 1] == p;
    }
  }

  function IntToString(i: int): string {
    if i < 0 then "-" + NatToString(-i) else NatToString(i)
  }

  /** The id string: `key`, or `parent + "_" + ID`. */
  function IdText(n: NodeId): string {
    match n
    case Top(key) => key
    case Child(parent, component) => IdText(parent) + "_" + IntToString(component)
  }

  /** The name string: `` `${name} (${count})` `` or the caption. */
  function LabelText(l: Label): string {
    match l
    case Counted(title, None) => title + " (*)"
    case Counted(title, Some(n)) => title + " (" + NatToString(n) + ")"
    case Caption(text) => text
  }

  function ParentText(p: Option<NodeId>): Option<string> {
    match p
    case None => None
    case Some(n) => Some(IdText(n))
  }

  /** The white space String.prototype.trim removes (the ASCII ones, the
      no-break space and the byte-order mark). */
  predicate IsSpace(c: char) {
    c == ' ' || c == '\t' || c == '\n' || c == '\r' || c == '\U{B}' || c == '\U{C}' ||
    c == '\U{A0}' || c == '\U{FEFF}'
  }

  predicate AllSpace(t: string) {
    forall k :: 0 <= k < |t| ==> IsSpace(t[k])
  }

  /** Where the white space at the start of `s[i..]` ends. */
  function SpaceEnd(s: string, i: nat): (j: nat)
    requires i <= |s|
    ensures i <= j <= |s| && (forall k :: i <= k < j ==> IsSpace(s[k])) && (j < |s| ==> !IsSpace(s[j]))
    decreases |s| - i
  {
    if i < |s| && IsSpace(s[i]) then SpaceEnd(s, i + 1) else i
  }

  /** Where the white space at the end of `s[lo..j]` starts. */
  function SpaceStart(s: string, lo: nat, j: nat): (i: nat)
    requires lo <= j <= |s|
    ensures lo <= i <= j && (forall k :: i <= k < j ==> IsSpace(s[k])) && (lo < i ==> !IsSpace(s[i - 1]))
  {
    if lo < j && IsSpace(s[j - 1]) then SpaceStart(s, lo, j - 1) else j
  }

  /** String.prototype.trim. */
  function Trim(s: string): string {
    var i := SpaceEnd(s, 0);
    s[i..SpaceStart(s, i, |s|)]
  }

  /** trim() removes the white space at both ends, and nothing else: what
      it keeps is a slice of the input that neither starts nor ends with
      white space, and all that lies outside the slice is white space. */
  lemma TrimMeaning(s: string)
    ensures var r := Trim(s);
      (r != [] ==> !IsSpace(r[0]) && !IsSpace(r[|r| - 1])) &&
      exists i :: 0 <= i <= |s| - |r| && s[i..i + |r|] == r && AllSpace(s[..i]) && AllSpace(s[i + |r|..])
  {
    var i := SpaceEnd(s, 0);
    var j := SpaceStart(s, i, |s|);
    var r := s[i..j];
    assert Trim(s) == r;
    if r != [] {
      assert r[0] == s[i] && r[|r| - 1] == s[j - 1];
    }
    assert AllSpace(s[..i]) by {
      forall k | 0 <= k < i ensures IsSpace(s[..i][k]) {
        assert s[..i][k] == s[k];
      }
    }
    assert AllSpace(s[j..]) by {
      forall k | 0 <= k < |s| - j ensures IsSpace(s[j..][k]) {
        assert s[j..][k] == s[j + k];
      }
    }
  }

  // ---- The walk ----

  /** The sort comparator `(k1, k2) => index(k2) - index(k1)`: descending. */
  function Descending(c: Category): int { -c.index }

  /** The categories in the order they leave the stack: sorted descending,
      then popped from the end. */
  function PopOrder(explorer: seq<Category>): seq<Category> {
    Reverse(StableSort.SortBy(explorer, Descending))
  }

  lemma PopOrderKeeps(explorer: seq<Category>)
    ensures forall c :: c in PopOrder(explorer) <==> c in explorer
  {
    var sorted := StableSort.SortBy(explorer, Descending);
    ReverseIndex(sorted);
    forall c ensures c in PopOrder(explorer) <==> c in sorted {
      if c in sorted {
        var i :| 0 <= i < |sorted| && sorted[i] == c;
        assert PopOrder(explorer)[|sorted| - 1 - i] == c;
      }
    }
    forall c ensures c in sorted <==> c in explorer {
      assert c in sorted <==> c in multiset(sorted);
      assert c in explorer <==> c in multiset(explorer);
    }
  }

  function Reverse<T>(s: seq<T>): (r: seq<T>)
    ensures |r| == |s|
  {
    if s == [] then [] else Reverse(s[1..]) + [s[0]]
  }

  lemma {:induction false} ReverseIndex<T>(s: seq<T>)
    ensures forall i :: 0 <= i < |s| ==> Reverse(s)[i] == s[|s| - 1 - i]
  {
    if s != [] {
      ReverseIndex(s[1..]);
    }
  }

  /** `design[el.node.key] || []`: a category lists its design field; a
      component has no `key` and so no children. */
  function Children(design: DesignLists, item: Item): seq<Component> {
    match item
    case CategoryItem(c) => if c.designKey in design then design[c.designKey] else []
    case ComponentItem(_) => []
  }

  /** The entry a category starts as; the count shows `*` while searching. */
  function TopEntry(design: DesignLists, query: string, c: Category): Entry
    requires query == [] ==> c.designKey in design
  {
    var count := if query != [] then None else Some(|design[c.designKey]|);
    Entry(Top(c.key), Counted(c.name, count), 0, None, None, CategoryItem(c))
  }

  function TopEntries(design: DesignLists, query: string, cs: seq<Category>): (r: seq<Entry>)
    requires query == [] ==> forall c <- cs :: c.designKey in design
    ensures |r| == |cs| && forall i :: 0 <= i < |cs| ==> r[i] == TopEntry(design, query, cs[i])
  {
    seq(|cs|, i requires 0 <= i < |cs| => TopEntry(design, query, cs[i]))
  }

  function ChildEntry(parent: Entry, x: Component): Entry {
    Entry(Child(parent.id, x.id), Caption(x.caption), parent.nestingLevel + 1, Some(parent.id), Some(false),
          ComponentItem(x))
  }

  function ChildEntries(parent: Entry, xs: seq<Component>): (r: seq<Entry>)
    ensures |r| == |xs| && forall i :: 0 <= i < |xs| ==> r[i] == ChildEntry(parent, xs[i])
  {
    seq(|xs|, i requires 0 <= i < |xs| => ChildEntry(parent, xs[i]))
  }

  /** Whether a component is pushed: no query, or its Name matches the
      trimmed query. */
  predicate Kept(query: string, matches: (string, string) -> bool, x: Component) {
    query == [] || matches(x.name, Trim(query))
  }

  /** The components kept, in their original order. */
  function Shown(xs: seq<Component>, query: string, matches: (string, string) -> bool): (r: seq<Component>)
    ensures |r| <= |xs|
  {
    if xs == [] then []
    else (if Kept(query, matches, xs[0]) then [xs[0]] else []) + Shown(xs[1..], query, matches)
  }

  function Answer(answers: seq<bool>, k: nat): bool {
    k < |answers| && answers[k]
  }

  /** The entries the walk visits, from top-level entries `tops` (in pop
      order) with `pos` answers already used: each entry, then, if it has
      children and the consumer opened it, its kept children in order. */
  function Visit(design: DesignLists, query: string, matches: (string, string) -> bool, answers: seq<bool>,
                 tops: seq<Entry>, pos: nat): seq<Entry>
    decreases |tops|
  {
    if tops == [] then []
    else
      var shown := Opened(design, query, matches, answers, tops[0], pos);
      [tops[0]] + ChildEntries(tops[0], shown) + Visit(design, query, matches, answers, tops[1..], pos + 1 + |shown|)
  }

  /** The children an entry yielded at position `pos` shows: its kept
      children when it has some and the consumer opens it, none otherwise. */
  function Opened(design: DesignLists, query: string, matches: (string, string) -> bool, answers: seq<bool>,
                  e: Entry, pos: nat): seq<Component>
  {
    var kids := Children(design, e.item);
    if |kids| != 0 && Answer(answers, pos) then Shown(kids, query, matches) else []
  }

  function Emit(design: DesignLists, refresh: bool, e: Entry): Yield {
    if refresh then
      Full(IdText(e.id), |Children(design, e.item)| == 0, LabelText(e.name), e.nestingLevel, e.isHeader,
           ParentText(e.parentId), e.item)
    else IdOnly(IdText(e.id))
  }

  function Emits(design: DesignLists, refresh: bool, es: seq<Entry>): (r: seq<Yield>)
    ensures |r| == |es| && forall i :: 0 <= i < |es| ==> r[i] == Emit(design, refresh, es[i])
  {
    seq(|es|, i requires 0 <= i < |es| => Emit(design, refresh, es[i]))
  }

  /** Reading a category's count throws when, with no query, the design has
      no such field. */
  predicate CountsReadable(design: DesignLists, query: string, explorer: seq<Category>) {
    query == [] ==> forall c <- explorer :: c.designKey in design
  }

  /** The sequence the generator yields, or None when building the stack
      throws. */
  function Walk(design: DesignLists, explorer: seq<Category>, query: string, matches: (string, string) -> bool,
                refresh: bool, answers: seq<bool>): Option<seq<Yield>>
  {
    if !CountsReadable(design, query, explorer) then None
    else
      PopOrderKeeps(explorer);
      var tops := TopEntries(design, query, PopOrder(explorer));
      Some(Emits(design, refresh, Visit(design, query, matches, answers, tops, 0)))
  }

  // ---- The generator ----

  /** treeWalker: builds the stack of category entries in sorted order,
      then pops an entry, yields it, and, when the consumer answers that it
      is open and it has children, pushes its kept children from the last to
      the first, so that they leave the stack in their own order. */
  method TreeWalk(design: DesignLists, explorer: seq<Category>, query: string, matches: (string, string) -> bool,
                  refresh: bool, answers: seq<bool>) returns (r: Option<seq<Yield>>)
    ensures r == Walk(design, explorer, query, matches, refresh, answers)
  {
    var keys := StableSort.SortBy(explorer, Descending);
    // componentsKeys.map(...) reads the length of every category's list.
    if !CountsReadable(design, query, explorer) {
      return None;
    }
    PopOrderKeeps(explorer);
    forall c <- keys ensures c in explorer {
      assert c in multiset(keys);
    }
    var stack := TopEntries(design, query, keys);
    TopEntriesReverse(design, query, keys);
    var out := Drain(design, query, matches, refresh, answers, stack);
    r := Some(out);
  }

  /** The generator's loop, from the stack of category entries: pop, yield,
      and push the kept children of an opened entry. */
  method Drain(design: DesignLists, query: string, matches: (string, string) -> bool, refresh: bool,
               answers: seq<bool>, stack0: seq<Entry>) returns (out: seq<Yield>)
    ensures out == Emits(design, refresh, Visit(design, query, matches, answers, Reverse(stack0), 0))
  {
    var stack := stack0;
    ghost var tops := Reverse(stack0);
    ReverseReverse(stack0);
    out := [];
    ghost var cats := tops;
    ghost var pending: seq<Entry> := [];
    ghost var visited: seq<Entry> := [];
    ghost var pos: nat := 0;
    while |stack| != 0
      invariant Walking(design, query, matches, answers, tops, stack, cats, pending, visited, pos)
      invariant out == Emits(design, refresh, visited)
      decreases |cats|, |pending|
    {
      ghost var cats', pending', pos' := PopStep(design, query, matches, answers, tops, stack, cats, pending, visited, pos);
      var el := stack[|stack| - 1];
      stack := stack[..|stack| - 1];
      var children := Children(design, el.item);
      var isOpened := Answer(answers, |out|);
      EmitsAppend(design, refresh, visited, el);
      out := out + [Emit(design, refresh, el)];
      if |children| != 0 && isOpened {
        stack := PushChildren(stack, el, children, query, matches);
      } else {
        assert stack + [] == stack;
      }
      visited, cats, pending, pos := visited + [el], cats', pending', pos';
    }
    assert visited == Visit(design, query, matches, answers, tops, 0);
  }

  /** The loop's invariant: the stack holds the categories still to come and
      the children still to come (reversed, so that they pop in order), and
      what was visited, then what is pending, then the rest of the walk is
      the whole walk. */
  ghost predicate Walking(design: DesignLists, query: string, matches: (string, string) -> bool, answers: seq<bool>,
                          tops: seq<Entry>, stack: seq<Entry>, cats: seq<Entry>, pending: seq<Entry>,
                          visited: seq<Entry>, pos: nat)
  {
    && stack == Reverse(cats) + Reverse(pending)
    && Leaves(pending)
    && pos == |visited| + |pending|
    && visited + pending + Visit(design, query, matches, answers, cats, pos) == Visit(design, query, matches, answers, tops, 0)
  }

  /** One turn of the loop keeps the invariant, with less left to do. */
  lemma PopStep(design: DesignLists, query: string, matches: (string, string) -> bool, answers: seq<bool>,
                tops: seq<Entry>, stack: seq<Entry>, cats: seq<Entry>, pending: seq<Entry>,
                visited: seq<Entry>, pos: nat)
    returns (cats': seq<Entry>, pending': seq<Entry>, pos': nat)
    requires Walking(design, query, matches, answers, tops, stack, cats, pending, visited, pos) && stack != []
    ensures var el := stack[|stack| - 1];
      var kids := Children(design, el.item);
      var pushed := if |kids| != 0 && Answer(answers, |visited|) then Reverse(ChildEntries(el, Shown(kids, query, matches))) else [];
      Walking(design, query, matches, answers, tops, stack[..|stack| - 1] + pushed, cats', pending', visited + [el], pos')
    ensures |cats'| < |cats| || (|cats'| == |cats| && |pending'| < |pending|)
  {
    if pending != [] {
      cats', pending', pos' := PopChild(design, query, matches, answers, tops, stack, cats, pending, visited, pos);
    } else {
      cats', pending', pos' := PopCategoryEntry(design, query, matches, answers, tops, stack, cats, pending, visited, pos);
    }
  }

  /** Popping a pending child: it has no children, so nothing is pushed. */
  lemma PopChild(design: DesignLists, query: string, matches: (string, string) -> bool, answers: seq<bool>,
                 tops: seq<Entry>, stack: seq<Entry>, cats: seq<Entry>, pending: seq<Entry>,
                 visited: seq<Entry>, pos: nat)
    returns (cats': seq<Entry>, pending': seq<Entry>, pos': nat)
    requires Walking(design, query, matches, answers, tops, stack, cats, pending, visited, pos) && pending != []
    ensures stack != [] && Children(design, stack[|stack| - 1].item) == []
    ensures Walking(design, query, matches, answers, tops, stack[..|stack| - 1], cats', pending',
                    visited + [stack[|stack| - 1]], pos')
    ensures |cats'| == |cats| && |pending'| < |pending|
  {
    PopPending(cats, pending);
    ConsShift(visited, pending, Visit(design, query, matches, answers, cats, pos));
    cats', pending', pos' := cats, pending[1..], pos;
    assert stack[|stack| - 1] == pending[0];
  }

  /** Popping a category: it shows its kept children when it has some and
      the consumer opens it; they are pushed and become pending. */
  lemma PopCategoryEntry(design: DesignLists, query: string, matches: (string, string) -> bool, answers: seq<bool>,
                         tops: seq<Entry>, stack: seq<Entry>, cats: seq<Entry>, pending: seq<Entry>,
                         visited: seq<Entry>, pos: nat)
    returns (cats': seq<Entry>, pending': seq<Entry>, pos': nat)
    requires Walking(design, query, matches, answers, tops, stack, cats, pending, visited, pos) && pending == []
    requires stack != []
    ensures var el := stack[|stack| - 1];
      var kids := Children(design, el.item);
      var pushed := if |kids| != 0 && Answer(answers, |visited|) then Reverse(ChildEntries(el, Shown(kids, query, matches))) else [];
      Walking(design, query, matches, answers, tops, stack[..|stack| - 1] + pushed, cats', pending', visited + [el], pos')
    ensures |cats'| < |cats|
  {
    PopCategory(cats, pending);
    var el := stack[|stack| - 1];
    assert el == cats[0];
    var shown := Opened(design, query, matches, answers, el, pos);
    cats', pending', pos' := cats[1..], ChildEntries(el, shown), pos + 1 + |shown|;
    PushedPending(design, query, matches, answers, el, pos);
    VisitStep(design, query, matches, answers, cats, pos, visited, Visit(design, query, matches, answers, tops, 0),
              el, cats', pending', pos');
  }

  /** What the generator pushes for a category is the reversed list of its
      pending children, all of them components. */
  lemma PushedPending(design: DesignLists, query: string, matches: (string, string) -> bool, answers: seq<bool>,
                      el: Entry, pos: nat)
    ensures var kids := Children(design, el.item);
      var shown := Opened(design, query, matches, answers, el, pos);
      (if |kids| != 0 && Answer(answers, pos) then Reverse(ChildEntries(el, Shown(kids, query, matches))) else [])
        == Reverse(ChildEntries(el, shown)) &&
      Leaves(ChildEntries(el, shown))
  {
    var shown := Opened(design, query, matches, answers, el, pos);
    assert shown == [] ==> Reverse(ChildEntries(el, shown)) == [];
  }

  /** Visiting the first category moves it to the visited entries and its
      shown children to the pending ones. */
  lemma VisitStep(design: DesignLists, query: string, matches: (string, string) -> bool, answers: seq<bool>,
                  cats: seq<Entry>, pos: nat, visited: seq<Entry>, all: seq<Entry>,
                  el: Entry, cats': seq<Entry>, pending': seq<Entry>, pos': nat)
    requires cats != [] && el == cats[0] && cats' == cats[1..]
    requires pending' == ChildEntries(el, Opened(design, query, matches, answers, el, pos))
    requires pos' == pos + 1 + |Opened(design, query, matches, answers, el, pos)|
    requires visited + [] + Visit(design, query, matches, answers, cats, pos) == all
    ensures (visited + [el]) + pending' + Visit(design, query, matches, answers, cats', pos') == all
  {
    VisitUnfoldAt(design, query, matches, answers, cats, pos, el, cats', pending', pos');
    CategoryShift(visited, [], el, pending', Visit(design, query, matches, answers, cats', pos'), all);
  }

  /** VisitUnfold, with the parts of the step named by the caller. */
  lemma VisitUnfoldAt(design: DesignLists, query: string, matches: (string, string) -> bool, answers: seq<bool>,
                      cats: seq<Entry>, pos: nat, el: Entry, cats': seq<Entry>, pending': seq<Entry>, pos': nat)
    requires cats != [] && el == cats[0] && cats' == cats[1..]
    requires pending' == ChildEntries(el, Opened(design, query, matches, answers, el, pos))
    requires pos' == pos + 1 + |Opened(design, query, matches, answers, el, pos)|
    ensures Visit(design, query, matches, answers, cats, pos)
         == [el] + pending' + Visit(design, query, matches, answers, cats', pos')
  {
    VisitUnfold(design, query, matches, answers, cats, pos);
  }

  lemma TopEntriesReverse(design: DesignLists, query: string, cs: seq<Category>)
    requires query == [] ==> forall c <- cs :: c.designKey in design
    ensures query == [] ==> forall c <- Reverse(cs) :: c.designKey in design
    ensures Reverse(TopEntries(design, query, cs)) == TopEntries(design, query, Reverse(cs))
  {
    ReverseIndex(cs);
    ReverseIndex(TopEntries(design, query, cs));
    assert forall c <- Reverse(cs) :: c in cs;
  }

  /** The inner loop: the kept children, from the last to the first, each
      pushed on the stack. */
  method PushChildren(stack0: seq<Entry>, el: Entry, children: seq<Component>, query: string,
                      matches: (string, string) -> bool) returns (stack: seq<Entry>)
    ensures stack == stack0 + Reverse(ChildEntries(el, Shown(children, query, matches)))
  {
    stack := stack0;
    var i := |children| - 1;
    assert children[i + 1..] == [];
    while i >= 0
      invariant -1 <= i < |children|
      invariant stack == stack0 + Reverse(ChildEntries(el, Shown(children[i + 1..], query, matches)))
    {
      ShownStep(el, children, i, query, matches);
      if Kept(query, matches, children[i]) {
        stack := stack + [ChildEntry(el, children[i])];
      }
      i := i - 1;
    }
    assert children[0..] == children;
  }

  lemma ConsShift<T>(visited: seq<T>, pending: seq<T>, tail: seq<T>)
    requires pending != []
    ensures visited + pending + tail == (visited + [pending[0]]) + pending[1..] + tail
  {
    assert pending == [pending[0]] + pending[1..];
  }

  /** One category visited: itself, then the children it shows. */
  lemma VisitUnfold(design: DesignLists, query: string, matches: (string, string) -> bool, answers: seq<bool>,
                    cats: seq<Entry>, pos: nat)
    requires cats != []
    ensures var shown := Opened(design, query, matches, answers, cats[0], pos);
      Visit(design, query, matches, answers, cats, pos)
      == [cats[0]] + ChildEntries(cats[0], shown) + Visit(design, query, matches, answers, cats[1..], pos + 1 + |shown|)
  {
  }

  lemma CategoryShift<T>(visited: seq<T>, pending: seq<T>, x: T, kids: seq<T>, tail: seq<T>, all: seq<T>)
    requires pending == [] && visited + pending + ([x] + kids + tail) == all
    ensures (visited + [x]) + kids + tail == all
  {
    assert visited + pending == visited;
  }

  /** Entries of components, which have no children of their own. */
  predicate Leaves(es: seq<Entry>) {
    forall e <- es :: e.item.ComponentItem?
  }

  lemma ReverseReverse<T>(s: seq<T>)
    ensures Reverse(Reverse(s)) == s
  {
    ReverseIndex(s);
    ReverseIndex(Reverse(s));
  }

  /** Pushing child `i`, when it is kept, extends the reversed children of
      `i + 1..` to the reversed children of `i..`. */
  lemma ShownStep(e: Entry, xs: seq<Component>, i: nat, query: string, matches: (string, string) -> bool)
    requires i < |xs|
    ensures Reverse(ChildEntries(e, Shown(xs[i..], query, matches))) ==
      Reverse(ChildEntries(e, Shown(xs[i + 1..], query, matches))) +
      (if Kept(query, matches, xs[i]) then [ChildEntry(e, xs[i])] else [])
  {
    assert xs[i..][1..] == xs[i + 1..];
    var head := if Kept(query, matches, xs[i]) then [xs[i]] else [];
    var tail := Shown(xs[i + 1..], query, matches);
    assert Shown(xs[i..], query, matches) == head + tail;
    ChildEntriesAppend(e, head, tail);
    ReverseAppend(ChildEntries(e, head), ChildEntries(e, tail));
  }

  lemma ChildEntriesAppend(e: Entry, a: seq<Component>, b: seq<Component>)
    ensures ChildEntries(e, a + b) == ChildEntries(e, a) + ChildEntries(e, b)
  {
  }

  lemma {:induction false} ReverseAppend<T>(a: seq<T>, b: seq<T>)
    ensures Reverse(a + b) == Reverse(b) + Reverse(a)
  {
    if a == [] {
      assert a + b == b;
    } else {
      assert (a + b)[1..] == a[1..] + b;
      ReverseAppend(a[1..], b);
    }
  }

  /** The top of a stack whose pending children are not all gone is the
      first pending child. */
  lemma PopPending<T>(cats: seq<T>, pending: seq<T>)
    requires pending != []
    ensures var st := Reverse(cats) + Reverse(pending);
      st[|st| - 1] == pending[0] && st[..|st| - 1] == Reverse(cats) + Reverse(pending[1..])
  {
    assert Reverse(pending) == Reverse(pending[1..]) + [pending[0]];
  }

  /** With no pending children the top of the stack is the next category. */
  lemma PopCategory<T>(cats: seq<T>, pending: seq<T>)
    requires cats != [] && pending == []
    ensures var st := Reverse(cats) + Reverse(pending);
      st[|st| - 1] == cats[0] && st[..|st| - 1] == Reverse(cats[1..])
  {
    assert Reverse(cats) == Reverse(cats[1..]) + [cats[0]];
    assert Reverse(pending) == [];
  }

  lemma EmitsAppend(design: DesignLists, refresh: bool, es: seq<Entry>, e: Entry)
    ensures Emits(design, refresh, es + [e]) == Emits(design, refresh, es) + [Emit(design, refresh, e)]
  {
  }

  // ---- What the walk yields ----

  /** Categories leave the stack in ascending index order, and every
      category leaves it once. */
  lemma PopOrderAscending(explorer: seq<Category>)
    ensures multiset(PopOrder(explorer)) == multiset(explorer)
    ensures var p := PopOrder(explorer);
      forall i, j :: 0 <= i <= j < |p| ==> p[i].index <= p[j].index
  {
    var sorted := StableSort.SortBy(explorer, Descending);
    ReverseMultiset(sorted);
    ReversedDescending(sorted);
  }

  /** A list sorted by descending index, read backwards, ascends. */
  lemma ReversedDescending(sorted: seq<Category>)
    requires StableSort.SortedBy(sorted, Descending)
    ensures var p := Reverse(sorted);
      forall i, j :: 0 <= i <= j < |p| ==> p[i].index <= p[j].index
  {
    var p := Reverse(sorted);
    forall i, j | 0 <= i <= j < |p| ensures p[i].index <= p[j].index {
      ReverseAt(sorted, i);
      ReverseAt(sorted, j);
      StableSort.SortedByPairs(sorted, Descending, |p| - 1 - j, |p| - 1 - i);
    }
  }

  /** One position of a reversed list. */
  lemma {:induction false} ReverseAt<T>(s: seq<T>, i: int)
    requires 0 <= i < |s|
    ensures Reverse(s)[i] == s[|s| - 1 - i]
  {
    if i < |s| - 1 {
      ReverseAt(s[1..], i);
      assert Reverse(s) == Reverse(s[1..]) + [s[0]];
    }
  }

  /** Categories with the same index leave the stack in the reverse of
      their order among the explorer's keys: the sort is stable and the
      stack reverses it. */
  lemma PopOrderTies(explorer: seq<Category>, k: int)
    ensures StableSort.WithRank(PopOrder(explorer), Descending, k) == Reverse(StableSort.WithRank(explorer, Descending, k))
  {
    var sorted := StableSort.SortBy(explorer, Descending);
    WithRankReverse(sorted, Descending, k);
    StableSort.SortByStable(explorer, Descending, k);
  }

  lemma {:induction false} ReverseMultiset<T>(s: seq<T>)
    ensures multiset(Reverse(s)) == multiset(s)
  {
    if s != [] {
      ReverseMultiset(s[1..]);
      assert s == [s[0]] + s[1..];
    }
  }

  lemma {:induction false} WithRankReverse<T>(s: seq<T>, rank: T -> int, k: int)
    ensures StableSort.WithRank(Reverse(s), rank, k) == Reverse(StableSort.WithRank(s, rank, k))
  {
    if s != [] {
      var head := if rank(s[0]) == k then [s[0]] else [];
      var rest := StableSort.WithRank(s[1..], rank, k);
      StableSort.WithRankAppend(Reverse(s[1..]), [s[0]], rank, k);
      WithRankReverse(s[1..], rank, k);
      assert [s[0]][1..] == [];
      assert StableSort.WithRank([s[0]], rank, k) == head;
      ReverseAppend(head, rest);
      assert Reverse(head) == head;
    }
  }

  /** The entries of nesting level 0, in order. */
  function Headers(es: seq<Entry>): seq<Entry> {
    if es == [] then [] else (if es[0].nestingLevel == 0 then [es[0]] else []) + Headers(es[1..])
  }

  lemma {:induction false} HeadersAppend(a: seq<Entry>, b: seq<Entry>)
    ensures Headers(a + b) == Headers(a) + Headers(b)
  {
    if a != [] {
      assert (a + b)[1..] == a[1..] + b;
      HeadersAppend(a[1..], b);
    } else {
      assert a + b == b;
    }
  }

  lemma HeadersOne(e: Entry)
    requires e.nestingLevel == 0
    ensures Headers([e]) == [e]
  {
    assert [e][1..] == [];
  }

  lemma AppendNil<T>(a: seq<T>)
    ensures a + [] == a
  {
  }

  lemma AppendAssoc<T>(a: seq<T>, b: seq<T>, c: seq<T>)
    ensures a + (b + c) == (a + b) + c
  {
  }

  lemma {:induction false} HeadersNone(es: seq<Entry>)
    requires forall i :: 0 <= i < |es| ==> es[i].nestingLevel != 0
    ensures Headers(es) == []
  {
    if es != [] {
      HeadersNone(es[1..]);
    }
  }

  predicate TopLevel(tops: seq<Entry>) {
    forall e <- tops :: e.nestingLevel == 0 && e.item.CategoryItem?
  }

  /** The entries of level 0 the walk yields are exactly its categories, in
      the order they leave the stack: children never reach level 0. */
  lemma {:induction false} VisitHeaders(design: DesignLists, query: string, matches: (string, string) -> bool,
                                        answers: seq<bool>, tops: seq<Entry>, pos: nat)
    requires TopLevel(tops)
    ensures Headers(Visit(design, query, matches, answers, tops, pos)) == tops
  {
    if tops != [] {
      var shown := Opened(design, query, matches, answers, tops[0], pos);
      var kids := ChildEntries(tops[0], shown);
      var pos' := pos + 1 + |shown|;
      VisitUnfoldAt(design, query, matches, answers, tops, pos, tops[0], tops[1..], kids, pos');
      ChildHeaders(tops[0], shown);
      VisitHeaders(design, query, matches, answers, tops[1..], pos');
      HeadersStep(tops[0], kids, Visit(design, query, matches, answers, tops[1..], pos'), tops[1..]);
      assert [tops[0]] + tops[1..] == tops;
    }
  }

  /** Child entries sit one level below their parent, never at level 0. */
  lemma ChildHeaders(el: Entry, shown: seq<Component>)
    ensures Headers(ChildEntries(el, shown)) == []
  {
    HeadersNone(ChildEntries(el, shown));
  }

  /** A header followed by entries without headers, then the rest. */
  lemma HeadersStep(t: Entry, kids: seq<Entry>, rest: seq<Entry>, hs: seq<Entry>)
    requires t.nestingLevel == 0 && Headers(kids) == [] && Headers(rest) == hs
    ensures Headers([t] + kids + rest) == [t] + hs
  {
    HeadersAppend([t] + kids, rest);
    HeadersAppend([t], kids);
    HeadersOne(t);
    AppendNil([t]);
  }

  /** The walk's categories come in ascending index order: the first
      yielded has the smallest index. */
  lemma WalkCategoriesAscending(design: DesignLists, explorer: seq<Category>, query: string,
                                matches: (string, string) -> bool, answers: seq<bool>)
    requires CountsReadable(design, query, explorer)
    ensures PopOrderKeepsKeys(design, query, explorer)
    ensures var hs := Headers(Visit(design, query, matches, answers, TopEntries(design, query, PopOrder(explorer)), 0));
      |hs| == |explorer| &&
      (forall i :: 0 <= i < |hs| ==> hs[i].item == CategoryItem(PopOrder(explorer)[i])) &&
      (forall i, j :: 0 <= i <= j < |hs| ==> hs[i].item.c.index <= hs[j].item.c.index)
  {
    PopOrderKeeps(explorer);
    var tops := TopEntries(design, query, PopOrder(explorer));
    VisitHeaders(design, query, matches, answers, tops, 0);
    PopOrderAscending(explorer);
  }

  predicate PopOrderKeepsKeys(design: DesignLists, query: string, explorer: seq<Category>) {
    query == [] ==> forall c <- PopOrder(explorer) :: c.designKey in design
  }

  /** The kept children of a list: exactly its components that the query
      matches (all of them when there is no query). */
  lemma {:induction false} ShownMeaning(xs: seq<Component>, query: string, matches: (string, string) -> bool)
    ensures forall x :: x in Shown(xs, query, matches) <==> x in xs && Kept(query, matches, x)
    ensures query == [] ==> Shown(xs, query, matches) == xs
  {
    if xs != [] {
      ShownMeaning(xs[1..], query, matches);
      assert xs == [xs[0]] + xs[1..];
    }
  }

  /** Keeping distributes over concatenation, so the kept children stay in
      the order of the design's list. */
  lemma {:induction false} ShownAppend(a: seq<Component>, b: seq<Component>, query: string, matches: (string, string) -> bool)
    ensures Shown(a + b, query, matches) == Shown(a, query, matches) + Shown(b, query, matches)
  {
    if a == [] {
      assert a + b == b;
    } else {
      var head := if Kept(query, matches, a[0]) then [a[0]] else [];
      assert (a + b)[1..] == a[1..] + b;
      assert (a + b)[0] == a[0];
      ShownAppend(a[1..], b, query, matches);
      AppendAssoc(head, Shown(a[1..], query, matches), Shown(b, query, matches));
    }
  }

  /** A yielded entry that is not a category is a child of one of the
      categories: one level down, its id is the category's id, `_` and the
      component's ID, its parent is that category, it is not a header, and
      its component is in the category's list and matches the query. */
  predicate ChildOf(design: DesignLists, query: string, matches: (string, string) -> bool, v: Entry, p: Entry) {
    v.item.ComponentItem? && v == ChildEntry(p, v.item.x) &&
    v.item.x in Children(design, p.item) && Kept(query, matches, v.item.x)
  }

  lemma {:induction false} VisitChildren(design: DesignLists, query: string, matches: (string, string) -> bool,
                                         answers: seq<bool>, tops: seq<Entry>, pos: nat)
    requires TopLevel(tops)
    ensures forall v <- Visit(design, query, matches, answers, tops, pos) ::
      v in tops || (v.nestingLevel == 1 && exists p <- tops :: ChildOf(design, query, matches, v, p))
  {
    if tops != [] {
      var e := tops[0];
      var shown := Opened(design, query, matches, answers, e, pos);
      var kids := ChildEntries(e, shown);
      var pos' := pos + 1 + |shown|;
      var rest := Visit(design, query, matches, answers, tops[1..], pos');
      VisitUnfoldAt(design, query, matches, answers, tops, pos, e, tops[1..], kids, pos');
      VisitChildren(design, query, matches, answers, tops[1..], pos');
      OpenedAreChildren(design, query, matches, answers, e, pos, kids);
      forall v <- [e] + kids + rest
        ensures v in tops || (v.nestingLevel == 1 && exists p <- tops :: ChildOf(design, query, matches, v, p))
      {
        if v in kids {
          assert ChildOf(design, query, matches, v, e);
        } else if v in rest && v !in tops[1..] {
          var p :| p in tops[1..] && ChildOf(design, query, matches, v, p);
          assert p in tops;
        }
      }
    }
  }

  /** The entries pushed for an opened category are its kept children, one
      level below it. */
  lemma OpenedAreChildren(design: DesignLists, query: string, matches: (string, string) -> bool,
                          answers: seq<bool>, e: Entry, pos: nat, kids: seq<Entry>)
    requires e.nestingLevel == 0
    requires kids == ChildEntries(e, Opened(design, query, matches, answers, e, pos))
    ensures forall v <- kids :: v.nestingLevel == 1 && ChildOf(design, query, matches, v, e)
  {
    var shown := Opened(design, query, matches, answers, e, pos);
    ShownMeaning(Children(design, e.item), query, matches);
    forall v <- kids ensures v.nestingLevel == 1 && ChildOf(design, query, matches, v, e) {
      var i :| 0 <= i < |kids| && kids[i] == v;
      assert shown[i] in shown;
    }
  }

  /** When the consumer opens nothing, the walk yields the categories only. */
  lemma {:induction false} AllClosed(design: DesignLists, query: string, matches: (string, string) -> bool,
                                     answers: seq<bool>, tops: seq<Entry>, pos: nat)
    requires forall k :: pos <= k < |answers| ==> !answers[k]
    ensures Visit(design, query, matches, answers, tops, pos) == tops
  {
    if tops != [] {
      VisitUnfold(design, query, matches, answers, tops, pos);
      AllClosed(design, query, matches, answers, tops[1..], pos + 1);
      assert [tops[0]] + tops[1..] == tops;
    }
  }

  /** The whole tree in pre-order: every category followed by all its kept
      children. */
  function Expanded(design: DesignLists, query: string, matches: (string, string) -> bool, tops: seq<Entry>): seq<Entry> {
    if tops == [] then []
    else [tops[0]] + ChildEntries(tops[0], Shown(Children(design, tops[0].item), query, matches))
         + Expanded(design, query, matches, tops[1..])
  }

  /** When the consumer opens every node it is asked about, the walk yields
      the whole tree in pre-order. */
  lemma {:induction false} AllOpened(design: DesignLists, query: string, matches: (string, string) -> bool,
                                     answers: seq<bool>, tops: seq<Entry>, pos: nat)
    requires forall k :: pos <= k < |answers| ==> answers[k]
    requires pos + |Expanded(design, query, matches, tops)| <= |answers|
    ensures Visit(design, query, matches, answers, tops, pos) == Expanded(design, query, matches, tops)
  {
    if tops != [] {
      var e := tops[0];
      var kids := Children(design, e.item);
      assert Answer(answers, pos);
      var shown := Opened(design, query, matches, answers, e, pos);
      assert shown == Shown(kids, query, matches);
      VisitUnfold(design, query, matches, answers, tops, pos);
      AllOpened(design, query, matches, answers, tops[1..], pos + 1 + |shown|);
    }
  }
}
