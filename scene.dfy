/** The scene reconciler of client/components/viewer/DEFViewer.js
    (createDesignApp, resetViewport, zoomIn/zoomOut/fit): which layer
    groups a render pass rebuilds, which it recreates, and the order in
    which the viewport holds them afterwards. Drawing itself is out of
    scope: a group's container is represented by the build number it got
    when it was created. */
module Scene {
  import Visibility
  import opened Wrappers

  datatype Group = Rows | Cells | Wires | GCells | Tracks | Chip | Ports

  /** A group's place in the fixed order in which existing groups are
      (re-)added to the viewport at the end of a pass. */
  function Rank(g: Group): (k: int)
    ensures 0 <= k < 7
  {
    match g
    case Rows => 0 case Cells => 1 case Wires => 2 case GCells => 3
    case Tracks => 4 case Chip => 5 case Ports => 6
  }

  /** A child of the viewport: the background rectangle, or the container of
      a group with its build number. */
  datatype Child = Background | Layer(group: Group, build: nat)

  // ---- The viewport's children as a sequence ----

  /** The children a new viewport starts with. */
  function BaseOf(hasBackground: bool): (s: seq<Child>)
    ensures s == [] || s == [Background]
  {
    if hasBackground then [Background] else []
  }

  /** Every entry of `m` is an entry of `n`. */
  predicate SubMap(m: map<Group, nat>, n: map<Group, nat>) {
    forall g :: g in m ==> g in n && n[g] == m[g]
  }

  /** Every build number in `m` is below `bound`. */
  predicate Below(m: map<Group, nat>, bound: nat) {
    forall g :: g in m ==> m[g] < bound
  }

  /** `removeChild`: a display object sits at most once among a
      container's children, and is taken out. */
  function Without(s: seq<Child>, c: Child): (r: seq<Child>)
    ensures |r| <= |s|
  {
    if s == [] then [] else (if s[0] == c then [] else [s[0]]) + Without(s[1..], c)
  }

  /** `addChild` of an object moves it to the end. */
  function AddChild(s: seq<Child>, c: Child): (r: seq<Child>)
    ensures |r| > 0 && r[|r| - 1] == c
  {
    Without(s, c) + [c]
  }

  lemma {:induction false} WithoutAppend(a: seq<Child>, b: seq<Child>, c: Child)
    ensures Without(a + b, c) == Without(a, c) + Without(b, c)
  {
    if a != [] {
      var x := if a[0] == c then [] else [a[0]];
      WithoutCons(a, b, c, x);
      WithoutAppend(a[1..], b, c);
      AppendAssoc(x, Without(a[1..], c), Without(b, c));
    } else {
      assert a + b == b;
    }
  }

  lemma WithoutCons(a: seq<Child>, b: seq<Child>, c: Child, x: seq<Child>)
    requires a != [] && x == if a[0] == c then [] else [a[0]]
    ensures Without(a + b, c) == x + Without(a[1..] + b, c)
    ensures Without(a, c) == x + Without(a[1..], c)
  {
    assert (a + b)[0] == a[0];
    assert (a + b)[1..] == a[1..] + b;
  }

  /** The container in the slot of `g`, if the slot is set. */
  function Item(m: map<Group, nat>, g: Group): (s: seq<Child>)
    ensures |s| <= 1
  {
    if g in m then [Layer(g, m[g])] else []
  }

  /** The containers of the set slots, taken in the order `order`. */
  function Stack(m: map<Group, nat>, order: seq<Group>): (s: seq<Child>)
    ensures |s| <= |order|
  {
    if order == [] then [] else Item(m, order[0]) + Stack(m, order[1..])
  }

  /** `order` lists every group once, by rank: rows, cells, wires, gcells,
      tracks, chip, ports. */
  ghost predicate IsAttachOrder(order: seq<Group>) {
    |order| == 7 && forall k :: 0 <= k < 7 ==> Rank(order[k]) == k
  }

  lemma StackCons(m: map<Group, nat>, a: seq<Group>, b: seq<Group>)
    requires a != []
    ensures Stack(m, a + b) == Item(m, a[0]) + Stack(m, a[1..] + b)
    ensures Stack(m, a) == Item(m, a[0]) + Stack(m, a[1..])
  {
    assert (a + b)[0] == a[0];
    assert (a + b)[1..] == a[1..] + b;
  }

  lemma {:induction false} StackAppend(m: map<Group, nat>, a: seq<Group>, b: seq<Group>)
    ensures Stack(m, a + b) == Stack(m, a) + Stack(m, b)
  {
    if a != [] {
      StackCons(m, a, b);
      StackAppend(m, a[1..], b);
      AppendAssoc(Item(m, a[0]), Stack(m, a[1..]), Stack(m, b));
    } else {
      assert a + b == b;
    }
  }

  /** Removing a group's container from the stacked containers is the same
      as emptying its slot. */
  lemma {:induction false} StackWithout(m: map<Group, nat>, order: seq<Group>, h: Group, b: nat)
    requires h in m ==> m[h] == b
    ensures Without(Stack(m, order), Layer(h, b)) == Stack(m - {h}, order)
  {
    if order != [] {
      var g := order[0];
      StackWithout(m, order[1..], h, b);
      WithoutAppend(Item(m, g), Stack(m, order[1..]), Layer(h, b));
      if g == h {
        assert Without(Item(m, g), Layer(h, b)) == [];
      } else {
        assert Without(Item(m, g), Layer(h, b)) == Item(m, g);
        assert (g in m - {h}) == (g in m);
      }
    }
  }

  /** A slot whose group is not in `order` does not matter. */
  lemma {:induction false} StackOutside(m: map<Group, nat>, order: seq<Group>, h: Group)
    requires h !in order
    ensures Stack(m - {h}, order) == Stack(m, order)
  {
    if order != [] {
      assert order[0] != h;
      assert (order[0] in m - {h}) == (order[0] in m);
      StackOutside(m, order[1..], h);
    }
  }

  /** The children are the background (when there is one), then the
      containers of `attached` in the order `order`. */
  ghost predicate Stacked(children: seq<Child>, base: seq<Child>, attached: map<Group, nat>,
                          order: seq<Group>)
  {
    (base == [] || base == [Background]) && children == base + Stack(attached, order)
  }

  /** Every attached container is in its slot, and every slot holds an
      earlier build. */
  ghost predicate Slots(attached: map<Group, nat>, groups: map<Group, nat>, builds: nat) {
    SubMap(attached, groups) && Below(groups, builds)
  }

  /** Destroying a group's container takes it out of the children. */
  lemma UnstackGroup(children: seq<Child>, base: seq<Child>, attached: map<Group, nat>,
                     order: seq<Group>, groups: map<Group, nat>, g: Group)
    requires Stacked(children, base, attached, order) && SubMap(attached, groups)
    ensures Stacked(if g in groups then Without(children, Layer(g, groups[g])) else children,
                    base, attached - {g}, order)
  {
    if g in groups {
      var c := Layer(g, groups[g]);
      WithoutAppend(base, Stack(attached, order), c);
      StackWithout(attached, order, g, groups[g]);
      assert Without(base, c) == base;
    } else {
      assert attached - {g} == attached;
    }
  }

  /** Emptying a slot and, when the group is shown, filling it with a new
      container that is not attached yet. */
  lemma RebuildSlots(attached: map<Group, nat>, groups: map<Group, nat>, builds: nat,
                     g: Group, shown: bool)
    requires Slots(attached, groups, builds)
    ensures Slots(attached - {g}, if shown then (groups - {g})[g := builds] else groups - {g},
                  builds + (if shown then 1 else 0))
  {
  }

  /** Creating the chip outline when its slot is empty. */
  lemma CreateSlot(attached: map<Group, nat>, groups: map<Group, nat>, builds: nat, g: Group)
    requires Slots(attached, groups, builds) && g !in groups
    ensures Slots(attached, groups[g := builds], builds + 1)
  {
  }

  /** With nothing set, nothing is stacked. */
  lemma {:induction false} StackEmpty(order: seq<Group>)
    ensures Stack(map[], order) == []
  {
    if order != [] {
      StackEmpty(order[1..]);
    }
  }

  /** A new viewport: its base children and no container. */
  lemma EmptyAttachment(hasBackground: bool, order: seq<Group>, builds: nat)
    ensures Stacked(BaseOf(hasBackground), BaseOf(hasBackground), map[], order)
    ensures Slots(map[], map[], builds)
  {
    StackEmpty(order);
    assert BaseOf(hasBackground) + [] == BaseOf(hasBackground);
  }

  /** The entry `order[i]` splits the order into the part already re-added
      and the part still to come, neither of which mentions it. */
  lemma SplitOrder(m: map<Group, nat>, order: seq<Group>, i: int)
    requires IsAttachOrder(order) && 0 <= i < 7
    ensures order[i] !in order[..i] && order[i] !in order[i + 1..]
    ensures Stack(m, order[..i + 1]) == Stack(m, order[..i]) + Item(m, order[i])
    ensures Stack(m, order[i..]) == Item(m, order[i]) + Stack(m, order[i + 1..])
  {
    var g := order[i];
    assert forall x :: x in order[..i] ==> Rank(x) < i;
    assert forall x :: x in order[i + 1..] ==> Rank(x) > i;
    assert order[..i + 1] == order[..i] + [g];
    assert order[i..][1..] == order[i + 1..];
    StackAppend(m, order[..i], [g]);
    assert [g][1..] == [];
  }

  /** Removing a container whose group the order does not mention changes
      nothing. */
  lemma WithoutUnlisted(m: map<Group, nat>, order: seq<Group>, g: Group, b: nat)
    requires g !in order && (g in m ==> m[g] == b)
    ensures Without(Stack(m, order), Layer(g, b)) == Stack(m, order)
  {
    StackWithout(m, order, g, b);
    StackOutside(m, order, g);
  }

  /** One round of the closing loop when the slot of `order[i]` is set: its
      container leaves the part not yet re-added and goes to the end. */
  lemma ReattachSet(base: seq<Child>, before: map<Group, nat>, m: map<Group, nat>,
                    order: seq<Group>, i: int)
    requires base == [] || base == [Background]
    requires SubMap(before, m) && IsAttachOrder(order) && 0 <= i < 7 && order[i] in m
    ensures AddChild(base + Stack(before, order[i..]) + Stack(m, order[..i]), Layer(order[i], m[order[i]]))
         == base + Stack(before, order[i + 1..]) + Stack(m, order[..i + 1])
  {
    var g := order[i];
    var c := Layer(g, m[g]);
    SplitOrder(m, order, i);
    SplitOrder(before, order, i);
    var done, head, rest := Stack(m, order[..i]), Item(before, g), Stack(before, order[i + 1..]);
    WithoutUnlisted(m, order[..i], g, m[g]);
    WithoutUnlisted(before, order[i + 1..], g, m[g]);
    assert Without(head, c) == [] by {
      if g in before {
        assert head == [c];
      }
    }
    assert Without(base, c) == base;
    WithoutSkips(base, head, rest, done, c);
    assert Item(m, g) == [c];
    AppendAssoc(base + rest, done, [c]);
  }

  /** Removing a container that sits only in `head`. */
  lemma WithoutSkips(base: seq<Child>, head: seq<Child>, rest: seq<Child>, done: seq<Child>, c: Child)
    requires Without(base, c) == base && Without(head, c) == []
    requires Without(rest, c) == rest && Without(done, c) == done
    ensures Without(base + (head + rest) + done, c) == base + rest + done
  {
    WithoutAppend(base + (head + rest), done, c);
    WithoutAppend(base, head + rest, c);
    WithoutAppend(head, rest, c);
    assert [] + rest == rest;
  }

  lemma AppendAssoc(a: seq<Child>, b: seq<Child>, c: seq<Child>)
    ensures a + b + c == a + (b + c)
  {
  }

  /** One round of the closing loop when the slot of `order[i]` is empty. */
  lemma ReattachUnset(base: seq<Child>, before: map<Group, nat>, m: map<Group, nat>,
                      order: seq<Group>, i: int)
    requires SubMap(before, m) && IsAttachOrder(order) && 0 <= i < 7 && order[i] !in m
    ensures base + Stack(before, order[i..]) + Stack(m, order[..i])
         == base + Stack(before, order[i + 1..]) + Stack(m, order[..i + 1])
  {
    var g := order[i];
    var done, rest := Stack(m, order[..i]), Stack(before, order[i + 1..]);
    SplitOrder(m, order, i);
    SplitOrder(before, order, i);
    assert Item(before, g) == [] && Item(m, g) == [];
    assert Stack(before, order[i..]) == rest;
    assert Stack(m, order[..i + 1]) == done;
  }

  /** Before the closing loop the children are the old stack; after it,
      the stack of the slots. */
  lemma ReattachEnds(base: seq<Child>, before: map<Group, nat>, m: map<Group, nat>, order: seq<Group>)
    requires |order| == 7
    ensures base + Stack(before, order[0..]) + Stack(m, order[..0]) == base + Stack(before, order)
    ensures base + Stack(before, order[7..]) + Stack(m, order[..7]) == base + Stack(m, order)
  {
    assert order[0..] == order && order[..0] == [];
    assert order[7..] == [] && order[..7] == order;
  }

  // ---- Which groups a pass rebuilds and recreates ----

  /** The visibility entries each group depends on. */
  function DependsOn(g: Group): set<string> {
    match g
    case Rows => {"rows"}
    case Cells => {"cells", "cellShapes"}
    case Wires => {"wires", "vias", "specialWires"}
    case GCells => {"gcells"}
    case Tracks => {"tracks"}
    case Chip => {}
    case Ports => {"ports", "specialWires"}
  }

  /** The visibility entries that make a group drawn. */
  function ShownBy(g: Group): set<string> {
    match g
    case Rows => {"rows"}
    case Cells => {"cells"}
    case Wires => {"wires", "vias", "specialWires"}
    case GCells => {"gcells"}
    case Tracks => {"tracks"}
    case Chip => {}
    case Ports => {"ports", "specialWires"}
  }

  /** The pass reads all nine entries. */
  predicate Complete(vis: map<string, Visibility.VisEntry>) {
    "cells" in vis && "ports" in vis && "wires" in vis && "vias" in vis && "tracks" in vis &&
    "rows" in vis && "gcells" in vis && "specialWires" in vis && "cellShapes" in vis
  }

  /** A group is rebuilt on the first run of a viewport, or when an entry it
      depends on is dirty. The chip outline is never rebuilt. */
  predicate Rebuilds(g: Group, vis: map<string, Visibility.VisEntry>, first: bool)
    requires Complete(vis)
  {
    g != Chip && (first || exists k :: k in DependsOn(g) && vis[k].dirty)
  }

  /** A rebuilt group is recreated when an entry that shows it is visible. */
  predicate Shown(g: Group, vis: map<string, Visibility.VisEntry>)
    requires Complete(vis)
  {
    exists k :: k in ShownBy(g) && vis[k].visible
  }

  /** After onResetDirtyLayers, a pass on a live viewport rebuilds nothing;
      after onSetDirtyLayers, it rebuilds every group but the chip. */
  lemma DirtyFlagsDecide(vis: map<string, Visibility.VisEntry>, g: Group)
    requires Complete(vis)
    ensures !Rebuilds(g, Visibility.WithDirty(vis, false), false)
    ensures g != Chip ==> Rebuilds(g, Visibility.WithDirty(vis, true), false)
  {
    if g != Chip {
      assert DependsOn(g) <= vis.Keys;
      var k :| k in DependsOn(g);
      assert k in Visibility.WithDirty(vis, true);
    }
  }

  /** Toggling one entry on a clean state makes the next pass rebuild
      exactly the groups that depend on it. */
  lemma ToggleRebuildsDependents(vis: map<string, Visibility.VisEntry>, name: string,
                                 checked: bool, g: Group)
    requires Complete(vis) && name in vis
    requires forall k :: k in vis ==> !vis[k].dirty
    ensures var after := vis[name := vis[name].(visible := checked, dirty := true)];
            Rebuilds(g, after, false) <==> name in DependsOn(g)
  {
    var after := vis[name := vis[name].(visible := checked, dirty := true)];
    if name in DependsOn(g) {
      assert name in DependsOn(g) && after[name].dirty;
    }
  }

  /** Emptying the slots in the order of resetViewport empties them all. */
  lemma AllGroupsListed(order: seq<Group>, groups: map<Group, nat>)
    requires order == [Tracks, Rows, GCells, Ports, Wires, Cells, Chip]
    requires forall j :: 0 <= j < |order| ==> order[j] !in groups
    ensures groups == map[]
  {
    forall g: Group ensures g !in groups {
      match g
      case Tracks => assert order[0] == g;
      case Rows => assert order[1] == g;
      case GCells => assert order[2] == g;
      case Ports => assert order[3] == g;
      case Wires => assert order[4] == g;
      case Cells => assert order[5] == g;
      case Chip => assert order[6] == g;
    }
  }

  /** The flags each block of a pass tests are the ones the dependency
      table names. */
  lemma PassFlags(vis: map<string, Visibility.VisEntry>, first: bool)
    requires Complete(vis)
    ensures Rebuilds(Rows, vis, first) == (vis["rows"].dirty || first)
    ensures Rebuilds(Cells, vis, first) == (vis["cells"].dirty || vis["cellShapes"].dirty || first)
    ensures Rebuilds(Wires, vis, first)
         == (vis["wires"].dirty || vis["vias"].dirty || vis["specialWires"].dirty || first)
    ensures Rebuilds(GCells, vis, first) == (vis["gcells"].dirty || first)
    ensures Rebuilds(Tracks, vis, first) == (vis["tracks"].dirty || first)
    ensures Rebuilds(Ports, vis, first) == (vis["ports"].dirty || vis["specialWires"].dirty || first)
    ensures !Rebuilds(Chip, vis, first)
    ensures Shown(Rows, vis) == vis["rows"].visible
    ensures Shown(Cells, vis) == vis["cells"].visible
    ensures Shown(Wires, vis) == (vis["wires"].visible || vis["vias"].visible || vis["specialWires"].visible)
    ensures Shown(GCells, vis) == vis["gcells"].visible
    ensures Shown(Tracks, vis) == vis["tracks"].visible
    ensures Shown(Ports, vis) == (vis["ports"].visible || vis["specialWires"].visible)
  {
  }

  /** The build number in the slot of `g`, if it is set. */
  function SlotOf(m: map<Group, nat>, g: Group): (o: Option<nat>)
    ensures o.Some? <==> g in m
    ensures o.Some? ==> o.value == m[g]
  {
    if g in m then Some(m[g]) else None
  }

  /** What a block does to one slot: when it runs, the slot holds a new
      container (numbered at least `builds`) exactly when `shown`; when it
      does not run, the slot is left as it was. */
  ghost predicate SlotResult(rebuild: bool, shown: bool, before: Option<nat>, builds: nat, after: Option<nat>)
  {
    if rebuild then
      (after.Some? <==> shown) && (after.Some? ==> after.value >= builds)
    else
      after == before
  }

  /** What a pass does to the slot of `g`, by the dependency tables. */
  ghost predicate Outcome(g: Group, vis: map<string, Visibility.VisEntry>, first: bool,
                          before: Option<nat>, builds: nat, after: Option<nat>)
    requires Complete(vis)
  {
    SlotResult(Rebuilds(g, vis, first), Shown(g, vis), before, builds, after)
  }

  /** What one block does: its own slot as `SlotResult` says, and no other
      slot changes. */
  ghost predicate BlockEffect(g: Group, rebuild: bool, shown: bool, before: map<Group, nat>,
                              after: map<Group, nat>, builds: nat)
  {
    SlotResult(rebuild, shown, SlotOf(before, g), builds, SlotOf(after, g)) &&
    SameSlotsBut(g, before, after)
  }

  /** Every slot but the one of `g` is as it was, spelt out group by group. */
  ghost predicate SameSlotsBut(g: Group, before: map<Group, nat>, after: map<Group, nat>)
  {
    (g == Rows || SlotOf(after, Rows) == SlotOf(before, Rows)) &&
    (g == Cells || SlotOf(after, Cells) == SlotOf(before, Cells)) &&
    (g == Wires || SlotOf(after, Wires) == SlotOf(before, Wires)) &&
    (g == GCells || SlotOf(after, GCells) == SlotOf(before, GCells)) &&
    (g == Tracks || SlotOf(after, Tracks) == SlotOf(before, Tracks)) &&
    (g == Chip || SlotOf(after, Chip) == SlotOf(before, Chip)) &&
    (g == Ports || SlotOf(after, Ports) == SlotOf(before, Ports))
  }

  /** The first three blocks of a pass (rows, cells, wires): each of their
      slots as its own block left it, the other slots as they were. */
  ghost predicate FrontEffect(r1: bool, s1: bool, r2: bool, s2: bool, r3: bool, s3: bool,
                              before: map<Group, nat>, after: map<Group, nat>, builds: nat)
  {
    SlotResult(r1, s1, SlotOf(before, Rows), builds, SlotOf(after, Rows)) &&
    SlotResult(r2, s2, SlotOf(before, Cells), builds, SlotOf(after, Cells)) &&
    SlotResult(r3, s3, SlotOf(before, Wires), builds, SlotOf(after, Wires)) &&
    SlotOf(after, GCells) == SlotOf(before, GCells) && SlotOf(after, Tracks) == SlotOf(before, Tracks) &&
    SlotOf(after, Chip) == SlotOf(before, Chip) && SlotOf(after, Ports) == SlotOf(before, Ports)
  }

  /** The rest of a pass (gcells, tracks, the chip outline when absent,
      ports): each of their slots as its own block left it, the chip slot
      set and kept, the other slots as they were. */
  ghost predicate BackEffect(r4: bool, s4: bool, r5: bool, s5: bool, r6: bool, s6: bool,
                             before: map<Group, nat>, after: map<Group, nat>, builds: nat)
  {
    SlotResult(r4, s4, SlotOf(before, GCells), builds, SlotOf(after, GCells)) &&
    SlotResult(r5, s5, SlotOf(before, Tracks), builds, SlotOf(after, Tracks)) &&
    SlotResult(r6, s6, SlotOf(before, Ports), builds, SlotOf(after, Ports)) &&
    Chip in after && (Chip in before ==> after[Chip] == before[Chip]) &&
    SlotOf(after, Rows) == SlotOf(before, Rows) && SlotOf(after, Cells) == SlotOf(before, Cells) &&
    SlotOf(after, Wires) == SlotOf(before, Wires)
  }

  /** Three blocks in a row, each touching only its own slot. */
  lemma FrontChain(m0: map<Group, nat>, m1: map<Group, nat>, m2: map<Group, nat>, m3: map<Group, nat>,
                   b0: nat, b1: nat, b2: nat,
                   r1: bool, s1: bool, r2: bool, s2: bool, r3: bool, s3: bool)
    requires b0 <= b1 <= b2
    requires BlockEffect(Rows, r1, s1, m0, m1, b0)
    requires BlockEffect(Cells, r2, s2, m1, m2, b1)
    requires BlockEffect(Wires, r3, s3, m2, m3, b2)
    ensures FrontEffect(r1, s1, r2, s2, r3, s3, m0, m3, b0)
  {
  }

  /** Two blocks, the chip outline, and one more block. */
  lemma BackChain(m0: map<Group, nat>, m1: map<Group, nat>, m2: map<Group, nat>, m3: map<Group, nat>,
                  m4: map<Group, nat>, b0: nat, b1: nat, b2: nat, b3: nat,
                  r4: bool, s4: bool, r5: bool, s5: bool, r6: bool, s6: bool)
    requires b0 <= b1 <= b2 <= b3
    requires BlockEffect(GCells, r4, s4, m0, m1, b0)
    requires BlockEffect(Tracks, r5, s5, m1, m2, b1)
    requires m3 == if Chip in m2 then m2 else m2[Chip := b2]
    requires BlockEffect(Ports, r6, s6, m3, m4, b3)
    ensures BackEffect(r4, s4, r5, s5, r6, s6, m0, m4, b0)
  {
    assert SlotOf(m3, Rows) == SlotOf(m2, Rows) && SlotOf(m3, Cells) == SlotOf(m2, Cells);
    assert SlotOf(m3, Wires) == SlotOf(m2, Wires) && SlotOf(m3, GCells) == SlotOf(m2, GCells);
    assert SlotOf(m3, Tracks) == SlotOf(m2, Tracks) && SlotOf(m3, Ports) == SlotOf(m2, Ports);
    assert SlotOf(m4, Chip) == SlotOf(m3, Chip);
  }

  /** The flags the blocks of a pass test give every slot its `Outcome`, and
      the pass rebuilds something exactly when one of them is set. */
  lemma FlagOutcomes(vis: map<string, Visibility.VisEntry>, first: bool,
                     before: map<Group, nat>, builds: nat, middle: map<Group, nat>, builds1: nat,
                     after: map<Group, nat>)
    requires Complete(vis) && builds <= builds1
    requires FrontEffect(vis["rows"].dirty || first, vis["rows"].visible,
                         vis["cells"].dirty || vis["cellShapes"].dirty || first, vis["cells"].visible,
                         vis["wires"].dirty || vis["vias"].dirty || vis["specialWires"].dirty || first,
                         vis["wires"].visible || vis["vias"].visible || vis["specialWires"].visible,
                         before, middle, builds)
    requires BackEffect(vis["gcells"].dirty || first, vis["gcells"].visible,
                        vis["tracks"].dirty || first, vis["tracks"].visible,
                        vis["ports"].dirty || vis["specialWires"].dirty || first,
                        vis["ports"].visible || vis["specialWires"].visible,
                        middle, after, builds1)
    ensures Chip in after && (Chip in before ==> after[Chip] == before[Chip])
    ensures forall g :: g != Chip ==> Outcome(g, vis, first, SlotOf(before, g), builds, SlotOf(after, g))
  {
    PassFlags(vis, first);
    forall g | g != Chip
      ensures Outcome(g, vis, first, SlotOf(before, g), builds, SlotOf(after, g))
    {
      match g
      case Rows =>
      case Cells =>
      case Wires =>
      case GCells =>
      case Tracks =>
      case Ports =>
    }
  }

  /** What one block does, from the slot maps before and after it. */
  lemma BlockStep(g: Group, rebuild: bool, shown: bool, before: map<Group, nat>, after: map<Group, nat>,
                  builds: nat)
    requires !rebuild ==> after == before
    requires rebuild && !shown ==> after == before - {g}
    requires rebuild && shown ==> after == (before - {g})[g := builds]
    ensures BlockEffect(g, rebuild, shown, before, after, builds)
  {
  }

  /** The whole pass, from the effects of its front and back blocks;
      `r1` to `s6` are the dirty and visible flags of its six blocks as
      read from the nine entries. */
  lemma PassStep(vis: map<string, Visibility.VisEntry>, first: bool,
                 r1: bool, s1: bool, r2: bool, s2: bool, r3: bool, s3: bool,
                 r4: bool, s4: bool, r5: bool, s5: bool, r6: bool, s6: bool,
                 before: map<Group, nat>, builds: nat, middle: map<Group, nat>, builds1: nat,
                 after: map<Group, nat>)
    requires Complete(vis) && builds <= builds1
    requires r1 == (vis["rows"].dirty || first) && s1 == vis["rows"].visible
    requires r2 == (vis["cells"].dirty || vis["cellShapes"].dirty || first) && s2 == vis["cells"].visible
    requires r3 == (vis["wires"].dirty || vis["vias"].dirty || vis["specialWires"].dirty || first)
    requires s3 == (vis["wires"].visible || vis["vias"].visible || vis["specialWires"].visible)
    requires r4 == (vis["gcells"].dirty || first) && s4 == vis["gcells"].visible
    requires r5 == (vis["tracks"].dirty || first) && s5 == vis["tracks"].visible
    requires r6 == (vis["ports"].dirty || vis["specialWires"].dirty || first)
    requires s6 == (vis["ports"].visible || vis["specialWires"].visible)
    requires FrontEffect(r1, s1, r2, s2, r3, s3, before, middle, builds)
    requires BackEffect(r4, s4, r5, s5, r6, s6, middle, after, builds1)
    ensures Chip in after && (Chip in before ==> after[Chip] == before[Chip])
    ensures (r1 || r2 || r3 || r4 || r5 || r6) <==> exists g :: Rebuilds(g, vis, first)
    ensures forall g :: g != Chip ==> Outcome(g, vis, first, SlotOf(before, g), builds, SlotOf(after, g))
  {
    FlagOutcomes(vis, first, before, builds, middle, builds1, after);
    AnyRebuilds(vis, first);
  }

  lemma AnyRebuilds(vis: map<string, Visibility.VisEntry>, first: bool)
    requires Complete(vis)
    ensures (exists g :: Rebuilds(g, vis, first)) <==>
      (vis["rows"].dirty || first) || (vis["cells"].dirty || vis["cellShapes"].dirty || first) ||
      (vis["wires"].dirty || vis["vias"].dirty || vis["specialWires"].dirty || first) ||
      (vis["gcells"].dirty || first) || (vis["tracks"].dirty || first) ||
      (vis["ports"].dirty || vis["specialWires"].dirty || first)
  {
    PassFlags(vis, first);
    if exists g :: Rebuilds(g, vis, first) {
      var g :| Rebuilds(g, vis, first);
      match g
      case Rows =>
      case Cells =>
      case Wires =>
      case GCells =>
      case Tracks =>
      case Chip =>
      case Ports =>
    }
  }

  /** The scale after one zoomIn. */
  function ZoomedIn(scale: real, step: real): (r: real)
    ensures step > 1.0 && scale > 0.0 ==> r > scale
  {
    scale * step
  }

  /** The scale after one zoomOut. */
  function ZoomedOut(scale: real, step: real): (r: real)
    requires step != 0.0
    ensures ZoomedIn(r, step) == scale
  {
    scale / step
  }

  /** zoomOut undoes zoomIn and zoomIn undoes zoomOut. */
  lemma ZoomRoundTrip(scale: real, step: real)
    requires step != 0.0
    ensures ZoomedOut(ZoomedIn(scale, step), step) == scale
    ensures ZoomedIn(ZoomedOut(scale, step), step) == scale
  {
  }

  /** The rendering settings a pass reads. */
  datatype RenderConfig = RenderConfig(width: real, height: real, transparentBackground: bool)

  /** appRef.current together with the viewport it holds. */
  class DesignApp {
    /** Whether the application and its viewport exist (they come and go
        together). */
    var hasApp: bool
    var width: real
    var height: real
    /** Whether the viewport got a background rectangle when it was made. */
    var hasBackground: bool
    /** The group slots that are set, with the build number of their container. */
    var groups: map<Group, nat>
    /** The viewport's children. */
    var children: seq<Child>
    /** Containers built so far; the next one gets this number. */
    var builds: nat
    var scaled: real
    var positionX: real
    var positionY: real
    /** The groups whose containers are among the children. */
    ghost var attached: map<Group, nat>
    /** The order of the closing loop of a pass. */
    const layers: seq<Group>

    /** The children are the background, then the attached containers in
        the fixed order; every attached container is in its slot. */
    ghost predicate Attachment() reads this {
      IsAttachOrder(layers) &&
      Stacked(children, BaseOf(hasBackground), attached, layers) && Slots(attached, groups, builds)
    }

    ghost predicate Valid() reads this {
      Attachment() && attached == groups &&
      (hasApp ==> Chip in groups) &&
      (!hasApp ==> groups == map[] && children == [] && !hasBackground)
    }

    constructor ()
      ensures Valid() && !hasApp && builds == 0
    {
      hasApp, width, height, hasBackground := false, 0.0, 0.0, false;
      groups, children, builds := map[], [], 0;
      scaled, positionX, positionY := 1.0, 0.0, 0.0;
      attached := map[];
      layers := [Rows, Cells, Wires, GCells, Tracks, Chip, Ports];
      new;
      StackEmpty(layers);
    }

    /** `viewport.removeChild(group); group.destroy(true); group = null`,
        when the slot is set. */
    method DestroyGroup(g: Group)
      requires Attachment()
      modifies this`groups, this`children, this`attached
      ensures Attachment()
      ensures attached == old(attached) - {g} && groups == old(groups) - {g}
    {
      var kept := if g in groups then Without(children, Layer(g, groups[g])) else children;
      UnstackGroup(children, BaseOf(hasBackground), attached, layers, groups, g);
      RebuildSlots(attached, groups, builds, g, false);
      children, attached, groups := kept, attached - {g}, groups - {g};
    }

    /** Filling an empty slot with a new container, not attached yet. */
    method CreateGroup(g: Group)
      requires Attachment() && g !in groups
      modifies this`groups, this`builds
      ensures Attachment()
      ensures groups == old(groups)[g := old(builds)] && builds == old(builds) + 1
    {
      CreateSlot(attached, groups, builds, g);
      groups, builds := groups[g := builds], builds + 1;
    }

    /** One `if (dirty...) { destroy; if (visible) create }` block of a
        pass; returns whether it ran. */
    method Block(g: Group, rebuild: bool, shown: bool) returns (ran: bool)
      requires Attachment()
      modifies this`groups, this`children, this`builds, this`attached
      ensures Attachment() && ran == rebuild && builds >= old(builds)
      ensures BlockEffect(g, rebuild, shown, old(groups), groups, old(builds))
    {
      ghost var m0, b0 := groups, builds;
      ran := rebuild;
      if rebuild {
        DestroyGroup(g);
        if shown {
          CreateGroup(g);
        }
      }
      BlockStep(g, rebuild, shown, m0, groups, b0);
    }

    /** The closing loop of a pass: every set slot, in the fixed order,
        is added to the viewport, which moves it behind everything else. */
    method Reattach()
      requires Attachment()
      modifies this`children, this`attached
      ensures Attachment() && attached == groups
    {
      ghost var before, base := attached, BaseOf(hasBackground);
      var i := 0;
      ReattachEnds(base, before, groups, layers);
      while i < 7
        invariant 0 <= i <= 7
        invariant children == base + Stack(before, layers[i..]) + Stack(groups, layers[..i])
      {
        var g := layers[i];
        if g in groups {
          ReattachSet(base, before, groups, layers, i);
          children := AddChild(children, Layer(g, groups[g]));
        } else {
          ReattachUnset(base, before, groups, layers, i);
        }
        i := i + 1;
      }
      attached := groups;
    }

    /** resetViewport(clearState). Returns whether the selection was
        cleared and onResetDirtyLayers called. */
    method ResetViewport(clearState: bool) returns (clearedSelection: bool, resetDirty: bool)
      requires Valid()
      modifies this
      ensures Valid() && !hasApp
      ensures !old(hasApp) ==> groups == old(groups) && children == old(children)
      ensures !old(hasApp) ==> scaled == old(scaled) && positionX == old(positionX) &&
                               positionY == old(positionY) && hasBackground == old(hasBackground)
      ensures !old(hasApp) ==> !clearedSelection && !resetDirty
      ensures old(hasApp) ==> clearedSelection == clearState && resetDirty == clearState
      ensures width == old(width) && height == old(height) && builds == old(builds)
    {
      if !hasApp {
        return false, false;
      }
      var order := [Tracks, Rows, GCells, Ports, Wires, Cells, Chip];
      var i := 0;
      while i < |order|
        invariant 0 <= i <= |order|
        invariant Attachment() && attached == groups
        invariant forall j :: 0 <= j < i ==> order[j] !in groups
        invariant builds == old(builds) && width == old(width) && height == old(height)
      {
        DestroyGroup(order[i]);
        i := i + 1;
      }
      AllGroupsListed(order, groups);
      StackEmpty(layers);
      // The viewport and the application are destroyed.
      children, hasBackground, hasApp := [], false, false;
      clearedSelection, resetDirty := clearState, clearState;
    }

    /** zoomIn: the scale grows by the step factor, centred; nothing
        happens without a viewport. */
    method ZoomIn(step: real)
      modifies this`scaled
      ensures scaled == if old(hasApp) then ZoomedIn(old(scaled), step) else old(scaled)
    {
      if hasApp {
        scaled := scaled * step;
      }
    }

    /** zoomOut: the scale shrinks by the step factor, centred; nothing
        happens without a viewport. */
    method ZoomOut(step: real)
      requires step != 0.0
      modifies this`scaled
      ensures scaled == if old(hasApp) then ZoomedOut(old(scaled), step) else old(scaled)
    {
      if hasApp {
        scaled := scaled / step;
      }
    }

    /** fit: scale 1 at the origin; nothing happens without a viewport. */
    method Fit()
      modifies this`scaled, this`positionX, this`positionY
      ensures old(hasApp) ==> scaled == 1.0 && positionX == 0.0 && positionY == 0.0
      ensures !old(hasApp) ==> scaled == old(scaled) && positionX == old(positionX) && positionY == old(positionY)
    {
      if hasApp {
        scaled, positionX, positionY := 1.0, 0.0, 0.0;
      }
    }

    /** The start of a pass: a viewport whose size no longer matches is
        reset, and a missing one is created (with the background rectangle
        unless the background is transparent). Returns whether this is the
        first pass of the viewport. */
    method Prepare(config: RenderConfig) returns (first: bool)
      requires Valid()
      modifies this
      ensures first == (!old(hasApp) || old(width) != config.width || old(height) != config.height)
      ensures Attachment() && attached == groups && builds == old(builds)
      ensures hasApp && width == config.width && height == config.height
      ensures first ==> groups == map[] && hasBackground == !config.transparentBackground && scaled == 1.0
      ensures !first ==> groups == old(groups) && Chip in groups
      ensures !first ==> scaled == old(scaled) && positionX == old(positionX) &&
                         positionY == old(positionY) && hasBackground == old(hasBackground)
    {
      if hasApp && (width != config.width || height != config.height) {
        var _, _ := ResetViewport(false);
      }
      if !hasApp {
        Create(config);
        first := true;
      } else {
        first := false;
      }
    }

    /** Creating the application and its viewport, with the background
        rectangle unless the background is transparent. */
    method Create(config: RenderConfig)
      requires Valid() && !hasApp
      modifies this`hasApp, this`scaled, this`positionX, this`positionY
      modifies this`hasBackground, this`children, this`width, this`height
      ensures Attachment() && attached == groups && builds == old(builds) && groups == map[]
      ensures hasApp && width == config.width && height == config.height
      ensures hasBackground == !config.transparentBackground && scaled == 1.0
    {
      assert attached == map[] && groups == map[] && IsAttachOrder(layers);
      var base := BaseOf(!config.transparentBackground);
      EmptyAttachment(!config.transparentBackground, layers, builds);
      hasApp, hasBackground, children := true, !config.transparentBackground, base;
      scaled, positionX, positionY := 1.0, 0.0, 0.0;
      width, height := config.width, config.height;
    }

    /** The rows, cells and wires blocks of a pass. */
    method FrontBlocks(r1: bool, s1: bool, r2: bool, s2: bool, r3: bool, s3: bool) returns (ran: bool)
      requires Attachment()
      modifies this`groups, this`children, this`builds, this`attached
      ensures Attachment() && ran == (r1 || r2 || r3) && builds >= old(builds)
      ensures FrontEffect(r1, s1, r2, s2, r3, s3, old(groups), groups, old(builds))
    {
      ghost var m0, b0 := groups, builds;
      var ran1 := Block(Rows, r1, s1);
      ghost var m1, b1 := groups, builds;
      var ran2 := Block(Cells, r2, s2);
      ghost var m2, b2 := groups, builds;
      var ran3 := Block(Wires, r3, s3);
      FrontChain(m0, m1, m2, groups, b0, b1, b2, r1, s1, r2, s2, r3, s3);
      ran := ran1 || ran2 || ran3;
    }

    /** The gcells and tracks blocks of a pass, the chip outline when it is
        absent, and the ports block. */
    method BackBlocks(r4: bool, s4: bool, r5: bool, s5: bool, r6: bool, s6: bool) returns (ran: bool)
      requires Attachment()
      modifies this`groups, this`children, this`builds, this`attached
      ensures Attachment() && ran == (r4 || r5 || r6) && builds >= old(builds)
      ensures BackEffect(r4, s4, r5, s5, r6, s6, old(groups), groups, old(builds))
    {
      ghost var m0, b0 := groups, builds;
      var ran4 := Block(GCells, r4, s4);
      ghost var m1, b1 := groups, builds;
      var ran5 := Block(Tracks, r5, s5);
      ghost var m2, b2 := groups, builds;
      if Chip !in groups {
        CreateGroup(Chip);
      }
      ghost var m3, b3 := groups, builds;
      var ran6 := Block(Ports, r6, s6);
      BackChain(m0, m1, m2, m3, groups, b0, b1, b2, b3, r4, s4, r5, s5, r6, s6);
      ran := ran4 || ran5 || ran6;
    }

    /** The blocks of a pass, in the order of the source: rows, cells, wires,
        gcells, tracks, the chip outline when absent, ports. Returns
        runClearLayers. */
    method Pass(vis: map<string, Visibility.VisEntry>, first: bool) returns (runClearLayers: bool)
      requires Attachment() && Complete(vis)
      modifies this`groups, this`children, this`builds, this`attached
      ensures Attachment() && Chip in groups
      ensures Chip in old(groups) ==> groups[Chip] == old(groups)[Chip]
      ensures runClearLayers <==> exists g :: Rebuilds(g, vis, first)
      ensures forall g :: g != Chip ==> Outcome(g, vis, first, SlotOf(old(groups), g), old(builds), SlotOf(groups, g))
    {
      var r1, s1 := vis["rows"].dirty || first, vis["rows"].visible;
      var r2, s2 := vis["cells"].dirty || vis["cellShapes"].dirty || first, vis["cells"].visible;
      var r3 := vis["wires"].dirty || vis["vias"].dirty || vis["specialWires"].dirty || first;
      var s3 := vis["wires"].visible || vis["vias"].visible || vis["specialWires"].visible;
      var r4, s4 := vis["gcells"].dirty || first, vis["gcells"].visible;
      var r5, s5 := vis["tracks"].dirty || first, vis["tracks"].visible;
      var r6 := vis["ports"].dirty || vis["specialWires"].dirty || first;
      var s6 := vis["ports"].visible || vis["specialWires"].visible;
      ghost var m0, b0 := groups, builds;
      var front := FrontBlocks(r1, s1, r2, s2, r3, s3);
      ghost var m1, b1 := groups, builds;
      var back := BackBlocks(r4, s4, r5, s5, r6, s6);
      PassStep(vis, first, r1, s1, r2, s2, r3, s3, r4, s4, r5, s5, r6, s6, m0, b0, m1, b1, groups);
      runClearLayers := front || back;
    }

    /** One pass of createDesignApp. Returns whether onResetDirtyLayers was
        called. */
    method Render(hasCanvas: bool, config: RenderConfig, vis: map<string, Visibility.VisEntry>)
      returns (resetDirty: bool)
      requires Valid() && Complete(vis)
      modifies this
      ensures Valid()
      ensures !hasCanvas ==> !resetDirty && groups == old(groups) && children == old(children)
      ensures !hasCanvas ==> hasApp == old(hasApp) && width == old(width) && height == old(height) &&
                             hasBackground == old(hasBackground) && builds == old(builds) &&
                             scaled == old(scaled) && positionX == old(positionX) && positionY == old(positionY)
      ensures hasCanvas && old(hasApp) && old(width) == config.width && old(height) == config.height ==>
                scaled == old(scaled) && positionX == old(positionX) &&
                positionY == old(positionY) && hasBackground == old(hasBackground)
      ensures var first := !old(hasApp) || old(width) != config.width || old(height) != config.height;
        hasCanvas ==>
          hasApp && width == config.width && height == config.height &&
          (resetDirty <==> exists g :: Rebuilds(g, vis, first)) &&
          (first ==> hasBackground == !config.transparentBackground && scaled == 1.0) &&
          Chip in groups && (!first ==> groups[Chip] == old(groups)[Chip]) &&
          (forall g :: g != Chip ==> Outcome(g, vis, first, SlotOf(old(groups), g), old(builds), SlotOf(groups, g)))
    {
      if !hasCanvas {
        return false;
      }
      var first := Prepare(config);
      resetDirty := Pass(vis, first);
      Reattach();
    }
  }
}
