/**
 Placing outputs in the global space (`reposition_outputs`): sort by name, configured outputs
 first, then greedily give each its configured position if that is free and otherwise put it to the
 right of everything.
 */
module Placement {
  import opened Options
  import opened OutputNames
  import OutputConfig
  import opened Sequences

  datatype Point = Point(x: int, y: int)

  /** A half-open rectangle. */
  datatype Rect = Rect(x: int, y: int, w: int, h: int)

  predicate XOverlap(a: Rect, b: Rect) {
    a.x < b.x + b.w && b.x < a.x + a.w
  }

  predicate YOverlap(a: Rect, b: Rect) {
    a.y < b.y + b.h && b.y < a.y + a.h
  }

  predicate Overlaps(a: Rect, b: Rect) {
    XOverlap(a, b) && YOverlap(a, b)
  }

  /** A connected output: its name and its logical size, a physical size divided by the scale. */
  datatype Head = Head(name: OutputName, width: real, height: real)

  /** A configuration section, of which placement reads only the position, if there is one. */
  type Section = OutputConfig.Section<Option<Point>>

  datatype Placed = Placed(head: Head, loc: Point)

  function Round(x: real): int {
    (x + 0.5).Floor
  }

  function Ceil(x: real): int {
    -(-x).Floor
  }

  /** The rectangle an output is mapped to: its size is rounded up. */
  function Geometry(p: Placed): Rect {
    Rect(p.loc.x, p.loc.y, Ceil(p.head.width), Ceil(p.head.height))
  }

  /** The rectangle that is checked before mapping: its size is rounded to nearest. */
  function Target(p: Placed): Rect {
    Rect(p.loc.x, p.loc.y, Round(p.head.width), Round(p.head.height))
  }

  function ConfiguredPosition(config: seq<Section>, name: OutputName): Option<Point> {
    match OutputConfig.Find(config, name)
    case None => None
    case Some(section) => section.settings
  }

  // ----- The order of placement -----

  datatype Item = Item(head: Head, config: Option<Point>)

  function ItemFor(head: Head, config: seq<Section>): Item {
    Item(head, ConfiguredPosition(config, head.name))
  }

  function Items(heads: seq<Head>, config: seq<Section>): (items: seq<Item>)
    ensures |items| == |heads|
    ensures forall i | 0 <= i < |heads| :: items[i] == ItemFor(heads[i], config)
  {
    Map(head => ItemFor(head, config), heads)
  }

  predicate Precedes(a: Item, b: Item) {
    Compare(a.head.name, b.head.name) == Less
  }

  function Insert(d: Item, s: seq<Item>): seq<Item> {
    if s == [] then [d]
    else if Precedes(s[0], d) then [s[0]] + Insert(d, s[1..])
    else [d] + s
  }

  /** `sort_unstable_by` the name. Which algorithm does it makes no difference: see
      `ArrangementUnique`. */
  function SortByName(s: seq<Item>): seq<Item> {
    if s == [] then [] else Insert(s[0], SortByName(s[1..]))
  }

  function Keep(s: seq<Item>, configured: bool): seq<Item> {
    if s == [] then []
    else if s[0].config.Some? == configured then [s[0]] + Keep(s[1..], configured)
    else Keep(s[1..], configured)
  }

  /** The stable `sort_by_key(|d| d.config.is_none())`. */
  function ConfiguredFirst(s: seq<Item>): seq<Item> {
    Keep(s, true) + Keep(s, false)
  }

  function PlacementOrder(items: seq<Item>): seq<Item> {
    ConfiguredFirst(SortByName(items))
  }

  // ----- Greedy placement -----

  predicate IsFree(placed: seq<Placed>, target: Rect) {
    forall p | p in placed :: !Overlaps(Geometry(p), target)
  }

  function MaxRight(placed: seq<Placed>): int {
    if placed == [] then 0
    else
      var g := Geometry(placed[|placed| - 1]);
      if |placed| == 1 then g.x + g.w
      else
        var m := MaxRight(placed[..|placed| - 1]);
        if m < g.x + g.w then g.x + g.w else m
  }

  function PlaceOne(placed: seq<Placed>, d: Item): Placed {
    if d.config.Some? && IsFree(placed, Target(Placed(d.head, d.config.value)))
    then Placed(d.head, d.config.value)
    else Placed(d.head, Point(MaxRight(placed), 0))
  }

  function PlaceAll(items: seq<Item>): (placed: seq<Placed>)
    ensures |placed| == |items|
  {
    if items == [] then []
    else
      var before := PlaceAll(items[..|items| - 1]);
      before + [PlaceOne(before, items[|items| - 1])]
  }

  /** Where `reposition_outputs` puts these outputs, in placement order. */
  function Arrange(heads: seq<Head>, config: seq<Section>): seq<Placed> {
    PlaceAll(PlacementOrder(Items(heads, config)))
  }

  function Heads(placed: seq<Placed>): (heads: seq<Head>)
    ensures |heads| == |placed|
    ensures forall i | 0 <= i < |placed| :: heads[i] == placed[i].head
  {
    Map((p: Placed) => p.head, placed)
  }

  ghost predicate DistinctNames(heads: seq<Head>) {
    forall i, j | 0 <= i < j < |heads| :: heads[i].name != heads[j].name
  }

  // ----- The order does not depend on how the outputs came in -----

  /** Strictly sorted by (no configured position, name). */
  ghost predicate Before(a: Item, b: Item) {
    (a.config.Some? && b.config.None?) || (a.config.Some? == b.config.Some? && Precedes(a, b))
  }

  ghost predicate Arranged(s: seq<Item>) {
    forall i, j | 0 <= i < j < |s| :: Before(s[i], s[j])
  }

  ghost predicate Sorted(s: seq<Item>) {
    forall i, j | 0 <= i < j < |s| :: Precedes(s[i], s[j])
  }

  ghost predicate DistinctItems(s: seq<Item>) {
    forall i, j | 0 <= i < j < |s| :: s[i].head.name != s[j].head.name
  }

  lemma {:induction false} InsertPermutes(d: Item, s: seq<Item>)
    ensures multiset(Insert(d, s)) == multiset(s) + multiset{d}
  {
    if s != [] && Precedes(s[0], d) {
      InsertPermutes(d, s[1..]);
      assert s == [s[0]] + s[1..];
    }
  }

  lemma InsertMember(d: Item, s: seq<Item>, x: Item)
    requires x in Insert(d, s)
    ensures x == d || x in s
  {}

  lemma {:induction false} InsertSorted(d: Item, s: seq<Item>)
    requires Sorted(s) && forall x | x in s :: x.head.name != d.head.name
    ensures Sorted(Insert(d, s))
  {
    if s == [] {
    } else if Precedes(s[0], d) {
      InsertSorted(d, s[1..]);
      var rest := Insert(d, s[1..]);
      forall x | x in rest ensures Precedes(s[0], x) {
        InsertMember(d, s[1..], x);
      }
    } else {
      CompareIsTotal(s[0].head.name, d.head.name);
      forall x | x in s ensures Precedes(d, x) {
        if x != s[0] {
          CompareIsTransitive(d.head.name, s[0].head.name, x.head.name);
        }
      }
    }
  }

  lemma {:induction false} SortSorts(s: seq<Item>)
    requires DistinctItems(s)
    ensures Sorted(SortByName(s)) && multiset(SortByName(s)) == multiset(s)
  {
    if s != [] {
      SortSorts(s[1..]);
      assert s == [s[0]] + s[1..];
      forall x | x in SortByName(s[1..]) ensures x.head.name != s[0].head.name {
        assert x in multiset(SortByName(s[1..]));
        assert x in s[1..];
      }
      InsertSorted(s[0], SortByName(s[1..]));
      InsertPermutes(s[0], SortByName(s[1..]));
    }
  }

  lemma {:induction false} KeepSorted(s: seq<Item>, configured: bool)
    requires Sorted(s)
    ensures Sorted(Keep(s, configured))
    ensures forall x | x in Keep(s, configured) :: x in s && x.config.Some? == configured
  {
    if s != [] {
      KeepSorted(s[1..], configured);
    }
  }

  lemma {:induction false} KeepBoth(s: seq<Item>)
    ensures multiset(Keep(s, true)) + multiset(Keep(s, false)) == multiset(s)
  {
    if s != [] {
      KeepBoth(s[1..]);
      assert s == [s[0]] + s[1..];
    }
  }

  /** Both sorts together arrange the outputs and lose none. */
  lemma OrderArranges(items: seq<Item>)
    requires DistinctItems(items)
    ensures Arranged(PlacementOrder(items)) && multiset(PlacementOrder(items)) == multiset(items)
  {
    var s := SortByName(items);
    SortSorts(items);
    KeepSorted(s, true);
    KeepSorted(s, false);
    KeepBoth(s);
    var a, b := Keep(s, true), Keep(s, false);
    forall i, j | 0 <= i < j < |a + b| ensures Before((a + b)[i], (a + b)[j]) {
      assert i < |a| ==> a[i] in a;
      assert j < |a| ==> a[j] in a;
      assert i >= |a| ==> b[i - |a|] in b;
      assert j >= |a| ==> b[j - |a|] in b;
    }
  }

  lemma BeforeIsStrict(a: Item, b: Item)
    requires Before(a, b)
    ensures !Before(b, a) && a != b
  {
    CompareIsTotal(a.head.name, b.head.name);
  }

  lemma SameFirst(a: seq<Item>, b: seq<Item>)
    requires a != [] && b != [] && Arranged(a) && Arranged(b) && multiset(a) == multiset(b)
    ensures a[0] == b[0]
  {
    assert a[0] in multiset(b) && b[0] in multiset(a);
    var i :| 0 <= i < |b| && b[i] == a[0];
    var j :| 0 <= j < |a| && a[j] == b[0];
    if i > 0 {
      BeforeIsStrict(b[0], b[i]);
    }
  }

  /** There is only one way to arrange the outputs. */
  lemma {:induction false} ArrangementUnique(a: seq<Item>, b: seq<Item>)
    requires Arranged(a) && Arranged(b) && multiset(a) == multiset(b)
    ensures a == b
    decreases |a|
  {
    assert |multiset(a)| == |multiset(b)|;
    if a != [] {
      SameFirst(a, b);
      assert a == [a[0]] + a[1..] && b == [b[0]] + b[1..];
      RestPermutes(a, b);
      ArrangementUnique(a[1..], b[1..]);
    }
  }

  lemma RestPermutes(a: seq<Item>, b: seq<Item>)
    requires a != [] && b != [] && a[0] == b[0] && multiset(a) == multiset(b)
    ensures multiset(a[1..]) == multiset(b[1..])
  {
    assert a == [a[0]] + a[1..] && b == [b[0]] + b[1..];
    assert multiset(a[1..]) == multiset(a) - multiset{a[0]};
    assert multiset(b[1..]) == multiset(b) - multiset{b[0]};
  }

  lemma ItemsDistinct(heads: seq<Head>, config: seq<Section>)
    requires DistinctNames(heads)
    ensures DistinctItems(Items(heads, config))
  {}

  /** Placement depends on which outputs there are, not on the order in which they appeared. */
  lemma PlacementIgnoresConnectionOrder(a: seq<Head>, b: seq<Head>, config: seq<Section>)
    requires DistinctNames(a) && DistinctNames(b) && multiset(a) == multiset(b)
    ensures Arrange(a, config) == Arrange(b, config)
  {
    ItemsDistinct(a, config);
    ItemsDistinct(b, config);
    MapPermutes(head => ItemFor(head, config), a, b);
    OrderArranges(Items(a, config));
    OrderArranges(Items(b, config));
    ArrangementUnique(PlacementOrder(Items(a, config)), PlacementOrder(Items(b, config)));
  }

  // ----- Repositioning again moves nothing -----

  lemma {:induction false} PlaceAllHeads(items: seq<Item>)
    ensures forall i | 0 <= i < |items| :: PlaceAll(items)[i].head == items[i].head
  {
    if items != [] {
      PlaceAllHeads(items[..|items| - 1]);
    }
  }

  /** No output is lost or duplicated. */
  lemma ArrangeKeepsOutputs(heads: seq<Head>, config: seq<Section>)
    requires DistinctNames(heads)
    ensures multiset(Heads(Arrange(heads, config))) == multiset(heads)
    ensures DistinctNames(Heads(Arrange(heads, config)))
  {
    var items := Items(heads, config);
    var order := PlacementOrder(items);
    ItemsDistinct(heads, config);
    OrderArranges(items);
    var headOf := (d: Item) => d.head;
    MapPermutes(headOf, order, items);
    PlaceAllHeads(order);
    assert Heads(Arrange(heads, config)) == Map(headOf, order);
    assert Map(headOf, items) == heads;
    OrderDistinct(heads, config);
  }

  lemma OrderDistinct(heads: seq<Head>, config: seq<Section>)
    requires DistinctNames(heads)
    ensures DistinctItems(PlacementOrder(Items(heads, config)))
  {
    var items := Items(heads, config);
    var order := PlacementOrder(items);
    ItemsDistinct(heads, config);
    OrderArranges(items);
    forall i, j | 0 <= i < j < |order| ensures order[i].head.name != order[j].head.name {
      assert order[i] in multiset(items) && order[j] in multiset(items);
      assert order[i] in items && order[j] in items;
      CompareIsTotal(order[i].head.name, order[j].head.name);
    }
  }

  /** The output was mapped to the same place; its size may have changed. */
  predicate WasThere(before: seq<Placed>, p: Placed) {
    exists q | q in before :: q.head.name == p.head.name && q.loc == p.loc
  }

  /** The outputs that were not already where they are now. */
  function Moved(before: seq<Placed>, after: seq<Placed>): set<OutputName> {
    set p | p in after && !WasThere(before, p) :: p.head.name
  }

  /** An output is moved exactly if it is new or was somewhere else. */
  lemma MovedExactly(before: seq<Placed>, after: seq<Placed>, j: nat)
    requires DistinctNames(Heads(before)) && DistinctNames(Heads(after)) && j < |after|
    ensures after[j].head.name in Moved(before, after) <==>
            forall i | 0 <= i < |before| && before[i].head.name == after[j].head.name ::
              before[i].loc != after[j].loc
  {
    var p := after[j];
    assert WasThere(before, p) <==>
           exists i | 0 <= i < |before| :: before[i].head.name == p.head.name && before[i].loc == p.loc;
    forall q | q in after && q.head.name == p.head.name ensures q == p {
      var i :| 0 <= i < |after| && after[i] == q;
      assert Heads(after)[i].name == Heads(after)[j].name;
    }
    assert p in after;
  }

  /** Repositioning arranged outputs with unchanged configuration and sizes leaves every one of them
      in place, so nothing is redrawn or announced. */
  lemma RepositionIdempotent(heads: seq<Head>, config: seq<Section>)
    requires DistinctNames(heads)
    ensures
      var once := Arrange(heads, config);
      Arrange(Heads(once), config) == once && Moved(once, Arrange(Heads(once), config)) == {}
  {
    ArrangeKeepsOutputs(heads, config);
    PlacementIgnoresConnectionOrder(Heads(Arrange(heads, config)), heads, config);
  }

  // ----- Overlap -----

  lemma {:induction false} MaxRightBounds(placed: seq<Placed>)
    ensures forall p | p in placed :: Geometry(p).x + Geometry(p).w <= MaxRight(placed)
  {
    if placed != [] {
      var n := |placed| - 1;
      MaxRightBounds(placed[..n]);
      assert placed == placed[..n] + [placed[n]];
    }
  }

  /** The checked rectangle of each output is clear of the mapped rectangles before it. */
  lemma {:induction false} TargetsClear(items: seq<Item>, i: nat, j: nat)
    requires i < j < |items|
    ensures !Overlaps(Geometry(PlaceAll(items)[i]), Target(PlaceAll(items)[j]))
  {
    var n := |items| - 1;
    var before := PlaceAll(items[..n]);
    if j < n {
      TargetsClear(items[..n], i, j);
    } else {
      MaxRightBounds(before);
      assert before[i] in before;
    }
  }

  lemma RoundingGap(x: real)
    ensures 0 <= Ceil(x) - Round(x) <= 1
  {}

  /** What an overlap looks like: the later output is mapped a pixel larger than it was checked, and
      that extra pixel column or row was already taken. */
  lemma OverlapShape(heads: seq<Head>, config: seq<Section>, i: nat, j: nat)
    requires forall h | h in heads :: h.width > 0.0 && h.height > 0.0
    requires DistinctNames(heads) && i < j < |Arrange(heads, config)|
    ensures
      var a, b := Geometry(Arrange(heads, config)[i]), Geometry(Arrange(heads, config)[j]);
      var t := Target(Arrange(heads, config)[j]);
      Overlaps(a, b) <==>
        || (b.w == t.w + 1 && a.x == t.x + t.w && YOverlap(a, b))
        || (b.h == t.h + 1 && a.y == t.y + t.h && XOverlap(a, b))
  {
    var placed := Arrange(heads, config);
    TargetsClear(PlacementOrder(Items(heads, config)), i, j);
    RoundingGap(placed[j].head.width);
    RoundingGap(placed[j].head.height);
    ArrangeKeepsOutputs(heads, config);
    assert Heads(placed)[i] in multiset(heads) && Heads(placed)[j] in multiset(heads);
    assert placed[i].head in heads && placed[j].head in heads;
    assert Ceil(placed[i].head.width) > 0 && Ceil(placed[i].head.height) > 0;
  }

  /** The size is checked to the nearest whole number, halves up, and mapped to the least that is not
      smaller. */
  lemma RoundingIs(x: real)
    ensures x - 0.5 < Round(x) as real <= x + 0.5
    ensures Ceil(x) as real - 1.0 < x <= Ceil(x) as real
  {}

  function Min(a: int, b: int): int { if a < b then a else b }
  function Max(a: int, b: int): int { if a < b then b else a }

  /** Whatever the sizes, an overlap is at most one pixel thick. */
  lemma OverlapAtMostOnePixel(heads: seq<Head>, config: seq<Section>, i: nat, j: nat)
    requires i < j < |Arrange(heads, config)|
    ensures
      var a, b := Geometry(Arrange(heads, config)[i]), Geometry(Arrange(heads, config)[j]);
      Overlaps(a, b) ==>
        || Min(a.x + a.w, b.x + b.w) - Max(a.x, b.x) <= 1
        || Min(a.y + a.h, b.y + b.h) - Max(a.y, b.y) <= 1
  {
    TargetsClear(PlacementOrder(Items(heads, config)), i, j);
    RoundingGap(Arrange(heads, config)[j].head.width);
    RoundingGap(Arrange(heads, config)[j].head.height);
  }

  ghost predicate Disjoint(placed: seq<Placed>) {
    forall i, j | 0 <= i < j < |placed| :: !Overlaps(Geometry(placed[i]), Geometry(placed[j]))
  }

  /** Rounding up and rounding to nearest agree on the size. */
  predicate WholePixels(h: Head) {
    Round(h.width) == Ceil(h.width) && Round(h.height) == Ceil(h.height)
  }

  /** Every output but the first in name order. */
  ghost predicate LaterOnesWhole(heads: seq<Head>) {
    forall g, h | g in heads && h in heads && Compare(g.name, h.name) == Less :: WholePixels(h)
  }

  /** Of two outputs the one placed later is right of the other, or both are configured and it has the
      larger name. */
  lemma {:induction false} FallbackOrLater(items: seq<Item>, i: nat, j: nat)
    requires Arranged(items) && i < j < |items|
    ensures
      var a, b := PlaceAll(items)[i], PlaceAll(items)[j];
      || Geometry(a).x + Geometry(a).w <= b.loc.x
      || (items[i].config.Some? && items[j].config.Some? && Precedes(items[i], items[j]))
  {
    var n := |items| - 1;
    var before := PlaceAll(items[..n]);
    if j < n {
      FallbackOrLater(items[..n], i, j);
    } else {
      MaxRightBounds(before);
      assert before[i] in before;
      assert Before(items[i], items[j]);
    }
  }

  lemma PairClear(items: seq<Item>, i: nat, j: nat)
    requires Arranged(items) && i < j < |items|
    requires Precedes(items[i], items[j]) ==> WholePixels(items[j].head)
    ensures !Overlaps(Geometry(PlaceAll(items)[i]), Geometry(PlaceAll(items)[j]))
  {
    PlaceAllHeads(items);
    TargetsClear(items, i, j);
    FallbackOrLater(items, i, j);
  }

  lemma OrderFromHeads(heads: seq<Head>, config: seq<Section>, i: nat)
    requires DistinctNames(heads) && i < |PlacementOrder(Items(heads, config))|
    ensures PlacementOrder(Items(heads, config))[i].head in heads
  {
    var items := Items(heads, config);
    ItemsDistinct(heads, config);
    OrderArranges(items);
    assert PlacementOrder(items)[i] in multiset(items);
    var k :| 0 <= k < |items| && items[k] == PlacementOrder(items)[i];
    assert heads[k] == items[k].head;
  }

  /** When all outputs but the first have whole sizes, no configuration makes two overlap. */
  lemma NoOverlap(heads: seq<Head>, config: seq<Section>)
    requires DistinctNames(heads) && LaterOnesWhole(heads)
    ensures Disjoint(Arrange(heads, config))
  {
    var order := PlacementOrder(Items(heads, config));
    ItemsDistinct(heads, config);
    OrderArranges(Items(heads, config));
    forall i, j | 0 <= i < j < |order|
      ensures !Overlaps(Geometry(PlaceAll(order)[i]), Geometry(PlaceAll(order)[j]))
    {
      OrderFromHeads(heads, config, i);
      OrderFromHeads(heads, config, j);
      PairClear(order, i, j);
    }
  }

  /** The user can configure each output by its connector. */
  ghost predicate Nameable(heads: seq<Head>) {
    forall g, h | g in heads && h in heads && Matches(g.name, h.name.connector) :: g == h
  }

  /** So it is when no connector contains a space and none is another one in other letter case. */
  lemma ConnectorsName(heads: seq<Head>)
    requires forall h | h in heads :: ' ' !in h.name.connector
    requires forall g, h | g in heads && h in heads &&
               EqIgnoreCase(h.name.connector, g.name.connector) :: g == h
    ensures Nameable(heads)
  {
    forall g, h | g in heads && h in heads && Matches(g.name, h.name.connector) ensures g == h {
      MatchesExactly(g.name, h.name.connector);
      FormattedHasSpace(g.name, h.name.connector);
    }
  }

  /** No configuration makes two outputs overlap if and only if every output that has another before
      it in name order has a whole size. */
  lemma NeverOverlapExactly(heads: seq<Head>)
    requires DistinctNames(heads) && Nameable(heads)
    requires forall h | h in heads :: h.width > 0.0 && h.height > 0.0
    ensures (forall config: seq<Section> :: Disjoint(Arrange(heads, config))) <==>
            LaterOnesWhole(heads)
  {
    if LaterOnesWhole(heads) {
      forall config: seq<Section> ensures Disjoint(Arrange(heads, config)) {
        NoOverlap(heads, config);
      }
    } else {
      var g, h :| g in heads && h in heads && Compare(g.name, h.name) == Less && !WholePixels(h);
      var config := Overlapping(heads, g, h);
      assert !Disjoint(Arrange(heads, config));
    }
  }

  /** Where to put `g` so that it takes the pixels by which `h`, at the origin, grows. */
  function Beside(h: Head): Point {
    if Round(h.width) < Ceil(h.width) then Point(Round(h.width), 0) else Point(0, Round(h.height))
  }

  /** A configuration that makes `g` and `h` overlap, whatever other outputs are connected. */
  lemma Overlapping(heads: seq<Head>, g: Head, h: Head) returns (config: seq<Section>)
    requires DistinctNames(heads) && Nameable(heads) && g in heads && h in heads
    requires g.width > 0.0 && g.height > 0.0 && h.width > 0.0 && h.height > 0.0
    requires Compare(g.name, h.name) == Less && !WholePixels(h)
    ensures |Arrange(heads, config)| >= 2
    ensures Overlaps(Geometry(Arrange(heads, config)[0]), Geometry(Arrange(heads, config)[1]))
  {
    config := [OutputConfig.Section(g.name.connector, Some(Beside(h))),
               OutputConfig.Section(h.name.connector, Some(Point(0, 0)))];
    var items := Items(heads, config);
    var x, y := Item(g, Some(Beside(h))), Item(h, Some(Point(0, 0)));
    CompareIsTotal(g.name, h.name);
    OnlyTwoConfigured(heads, config, g, h);
    ItemsDistinct(heads, config);
    OrderArranges(items);
    var order := PlacementOrder(items);
    TwoLead(items, order, x, y);
    PlaceAllPrefix(order, 2);
    assert order[..2] == [x, y];
    TwoPlaced(x, y);
    assert PlaceAll(order)[0] == PlaceAll(order)[..2][0];
    assert PlaceAll(order)[1] == PlaceAll(order)[..2][1];
  }

  lemma TwoSections(heads: seq<Head>, config: seq<Section>, g: Head, h: Head, d: Head)
    requires Nameable(heads) && g in heads && h in heads && g != h && d in heads
    requires |config| == 2 && config[0].name == g.name.connector
    requires config[1].name == h.name.connector
    ensures ConfiguredPosition(config, d.name) ==
            if d == g then config[0].settings else if d == h then config[1].settings else None
  {
    assert d == g ==> Matches(d.name, g.name.connector);
    assert d == h ==> Matches(d.name, h.name.connector);
  }

  lemma OnlyTwoConfigured(heads: seq<Head>, config: seq<Section>, g: Head, h: Head)
    requires Nameable(heads) && g in heads && h in heads && g != h
    requires |config| == 2 && config[0].name == g.name.connector
    requires config[1].name == h.name.connector
    ensures Item(g, config[0].settings) in Items(heads, config)
    ensures Item(h, config[1].settings) in Items(heads, config)
    ensures forall d | d in Items(heads, config) && d.config.Some? ::
              d == Item(g, config[0].settings) || d == Item(h, config[1].settings)
  {
    var items := Items(heads, config);
    forall i | 0 <= i < |heads|
      ensures items[i].config ==
              if heads[i] == g then config[0].settings
              else if heads[i] == h then config[1].settings else None
    {
      TwoSections(heads, config, g, h, heads[i]);
    }
    var i :| 0 <= i < |heads| && heads[i] == g;
    var j :| 0 <= j < |heads| && heads[j] == h;
    assert items[i] == Item(g, config[0].settings) && items[j] == Item(h, config[1].settings);
  }

  /** If `x` and `y` are the only configured outputs and `x` has the smaller name, they lead. */
  lemma TwoLead(items: seq<Item>, order: seq<Item>, x: Item, y: Item)
    requires Arranged(order) && multiset(order) == multiset(items) && x in items && y in items
    requires x.config.Some? && y.config.Some? && Precedes(x, y)
    requires forall d | d in items && d.config.Some? :: d == x || d == y
    ensures |order| >= 2 && order[0] == x && order[1] == y
  {
    assert x in multiset(order) && y in multiset(order);
    var i :| 0 <= i < |order| && order[i] == x;
    var j :| 0 <= j < |order| && order[j] == y;
    BeforeIsStrict(x, y);
    forall k, l | 0 <= k < l < |order| ensures order[k] != order[l] {
      BeforeIsStrict(order[k], order[l]);
    }
    assert i < j;
    forall k | 0 <= k < j ensures order[k] == x {
      assert order[k] in multiset(items);
      assert order[k] in items && Before(order[k], order[j]);
    }
  }

  lemma TwoPlaced(x: Item, y: Item)
    requires x.head.width > 0.0 && x.head.height > 0.0 && y.head.width > 0.0 && y.head.height > 0.0
    requires !WholePixels(y.head)
    requires x.config == Some(Beside(y.head)) && y.config == Some(Point(0, 0))
    ensures PlaceAll([x, y]) == [Placed(x.head, Beside(y.head)), Placed(y.head, Point(0, 0))]
    ensures Overlaps(Geometry(PlaceAll([x, y])[0]), Geometry(PlaceAll([x, y])[1]))
  {
    RoundingGap(y.head.width);
    RoundingGap(y.head.height);
  }

  /** For instance, B is 1.25 wide, so it is checked as 1 and mapped as 2 pixels wide, next to A. */
  lemma OverlapHappens() returns (heads: seq<Head>, config: seq<Section>)
    ensures heads == [Head(OutputName("B", None, None, None), 1.25, 1.0),
                      Head(OutputName("A", None, None, None), 1.0, 1.0)]
    ensures |Arrange(heads, config)| >= 2
    ensures Overlaps(Geometry(Arrange(heads, config)[0]), Geometry(Arrange(heads, config)[1]))
  {
    var a := Head(OutputName("A", None, None, None), 1.0, 1.0);
    var b := Head(OutputName("B", None, None, None), 1.25, 1.0);
    heads := [b, a];
    assert LowerAscii("A"[0]) == 'a' && LowerAscii("B"[0]) == 'b';
    assert !EqIgnoreCase("A", "B") && !EqIgnoreCase("B", "A");
    assert !Matches(b.name, "A") && !Matches(a.name, "B");
    assert CompareStrings("A", "B") == Less;
    config := Overlapping(heads, a, b);
  }

  // ----- Configured positions -----

  /** All configured outputs of an order get what they ask for. */
  ghost predicate AllAsConfigured(order: seq<Item>) {
    forall i | 0 <= i < |order| && order[i].config.Some? ::
      PlaceAll(order)[i].loc == order[i].config.value
  }

  /** Each configured rectangle is clear of the configured outputs placed before it. */
  ghost predicate ConfiguredApart(order: seq<Item>) {
    forall i, j | 0 <= i < j < |order| && order[i].config.Some? && order[j].config.Some? ::
      !Overlaps(Geometry(Placed(order[i].head, order[i].config.value)),
                Target(Placed(order[j].head, order[j].config.value)))
  }

  ghost predicate ConfiguredLead(order: seq<Item>) {
    forall i, j | 0 <= i < j < |order| :: order[j].config.Some? ==> order[i].config.Some?
  }

  /** A prefix of the order is placed as if it were alone. */
  lemma {:induction false} PlaceAllPrefix(order: seq<Item>, k: nat)
    requires k <= |order|
    ensures PlaceAll(order)[..k] == PlaceAll(order[..k])
  {
    if k == |order| {
      assert order[..k] == order;
    } else {
      var n := |order| - 1;
      PlaceAllPrefix(order[..n], k);
      assert order[..n][..k] == order[..k];
    }
  }

  /** The configured outputs get exactly their configured positions if and only if their rectangles
      are apart, whatever other outputs are connected. */
  lemma {:induction false} ConfiguredPositionsHonoured(order: seq<Item>)
    requires ConfiguredLead(order)
    ensures AllAsConfigured(order) <==> ConfiguredApart(order)
  {
    if order != [] {
      var n := |order| - 1;
      var before := order[..n];
      var last := order[n];
      ConfiguredPositionsHonoured(before);
      PlaceAllHeads(before);
      var placed := PlaceAll(before);
      if last.config.Some? {
        var target := Target(Placed(last.head, last.config.value));
        if AllAsConfigured(before) {
          forall i | 0 <= i < n
            ensures placed[i] == Placed(order[i].head, order[i].config.value)
          {
            assert before[i] == order[i];
          }
          assert IsFree(placed, target) <==>
                 forall i | 0 <= i < n :: !Overlaps(Geometry(placed[i]), target);
          HonouredLast(order);
        } else {
          assert !AllAsConfigured(order);
        }
      }
      assert AllAsConfigured(order) ==> AllAsConfigured(before);
    }
  }

  /** The fallback position is never the configured one: were it free, it would have been taken. */
  lemma {:induction false} HonouredLast(order: seq<Item>)
    requires order != [] && order[|order| - 1].config.Some?
    ensures var n := |order| - 1;
      PlaceAll(order)[n].loc == order[n].config.value <==>
        IsFree(PlaceAll(order[..n]), Target(Placed(order[n].head, order[n].config.value)))
  {
    MaxRightBounds(PlaceAll(order[..|order| - 1]));
  }

  /** Over connected outputs: the configured ones all get their positions if and only if, in name
      order, each configured rectangle is clear of the earlier configured outputs. */
  lemma ConfiguredOutputsHonoured(heads: seq<Head>, config: seq<Section>)
    requires DistinctNames(heads)
    ensures
      var order := PlacementOrder(Items(heads, config));
      (forall i | 0 <= i < |order| && order[i].config.Some? ::
         Arrange(heads, config)[i] == Placed(order[i].head, order[i].config.value))
      <==> ConfiguredApart(order)
  {
    var order := PlacementOrder(Items(heads, config));
    ItemsDistinct(heads, config);
    OrderArranges(Items(heads, config));
    ConfiguredPositionsHonoured(order);
    PlaceAllHeads(order);
  }

  /** Right of all the earlier outputs and at the top: the largest right edge, 0 without any. */
  ghost predicate AtFallback(placed: seq<Placed>, j: nat)
    requires j < |placed|
  {
    && placed[j].loc.y == 0
    && (j == 0 ==> placed[j].loc.x == 0)
    && (j > 0 ==> exists i | 0 <= i < j :: RightEdge(placed[i]) == placed[j].loc.x)
    && (forall i | 0 <= i < j :: RightEdge(placed[i]) <= placed[j].loc.x)
  }

  function RightEdge(p: Placed): int {
    p.loc.x + Ceil(p.head.width)
  }

  lemma {:induction false} MaxRightAttained(placed: seq<Placed>)
    ensures placed == [] ==> MaxRight(placed) == 0
    ensures placed != [] ==> exists i | 0 <= i < |placed| :: RightEdge(placed[i]) == MaxRight(placed)
  {
    if |placed| > 1 {
      var n := |placed| - 1;
      MaxRightAttained(placed[..n]);
      var i :| 0 <= i < n && RightEdge(placed[..n][i]) == MaxRight(placed[..n]);
      assert RightEdge(placed[i]) == MaxRight(placed[..n]);
      assert RightEdge(placed[n]) == Geometry(placed[n]).x + Geometry(placed[n]).w;
    } else if |placed| == 1 {
      assert RightEdge(placed[0]) == MaxRight(placed);
    }
  }

  lemma {:induction false} PlacedLast(order: seq<Item>)
    requires order != []
    ensures
      var n, placed := |order| - 1, PlaceAll(order);
      var d := order[n];
      && placed[n].head == d.head
      && (d.config.Some? && ClearOf(placed, n, Target(Placed(d.head, d.config.value))) ==>
            placed[n].loc == d.config.value)
      && (d.config.None? || !ClearOf(placed, n, Target(Placed(d.head, d.config.value))) ==>
            AtFallback(placed, n))
  {
    var n, placed := |order| - 1, PlaceAll(order);
    var before := PlaceAll(order[..n]);
    assert placed == before + [PlaceOne(before, order[n])];
    MaxRightAttained(before);
    MaxRightBounds(before);
    assert forall i | 0 <= i < n :: placed[i] == before[i] && before[i] in before;
  }

  ghost predicate ClearOf(placed: seq<Placed>, n: nat, target: Rect)
    requires n <= |placed|
  {
    forall i | 0 <= i < n :: !Overlaps(Geometry(placed[i]), target)
  }

  /** Where each output goes: to its configured position if that is clear of all outputs placed before
      it, and to the fallback position otherwise. */
  lemma PlacedExactly(heads: seq<Head>, config: seq<Section>, j: nat)
    requires DistinctNames(heads) && j < |Arrange(heads, config)|
    ensures
      var placed := Arrange(heads, config);
      var wish := ConfiguredPosition(config, placed[j].head.name);
      if wish.Some? && ClearOf(placed, j, Target(Placed(placed[j].head, wish.value)))
      then placed[j].loc == wish.value
      else AtFallback(placed, j)
  {
    var order := PlacementOrder(Items(heads, config));
    var placed := Arrange(heads, config);
    PlaceAllPrefix(order, j + 1);
    var front := PlaceAll(order[..j + 1]);
    assert forall i | 0 <= i <= j :: placed[i] == front[i];
    PlacedLast(order[..j + 1]);
    assert AtFallback(front, j) ==> AtFallback(placed, j);
    OrderConfigured(heads, config, j);
  }

  lemma OrderConfigured(heads: seq<Head>, config: seq<Section>, j: nat)
    requires DistinctNames(heads) && j < |PlacementOrder(Items(heads, config))|
    ensures var d := PlacementOrder(Items(heads, config))[j];
      d.config == ConfiguredPosition(config, d.head.name)
  {
    var items := Items(heads, config);
    ItemsDistinct(heads, config);
    OrderArranges(items);
    assert PlacementOrder(items)[j] in multiset(items);
    var k :| 0 <= k < |items| && items[k] == PlacementOrder(items)[j];
  }

  /** If they do, no two outputs overlap if and only if no two configured outputs overlap, with their
      sizes as mapped, where the configuration puts them. */
  lemma HonouredDisjointExactly(heads: seq<Head>, config: seq<Section>)
    requires DistinctNames(heads) && ConfiguredApart(PlacementOrder(Items(heads, config)))
    ensures
      var order := PlacementOrder(Items(heads, config));
      Disjoint(Arrange(heads, config)) <==>
        forall i, j | 0 <= i < j < |order| && order[i].config.Some? && order[j].config.Some? ::
          !Overlaps(Geometry(Placed(order[i].head, order[i].config.value)),
                    Geometry(Placed(order[j].head, order[j].config.value)))
  {
    var order := PlacementOrder(Items(heads, config));
    var placed := Arrange(heads, config);
    ConfiguredOutputsHonoured(heads, config);
    ItemsDistinct(heads, config);
    OrderArranges(Items(heads, config));
    forall i, j | 0 <= i < j < |order|
      ensures
        || !Overlaps(Geometry(placed[i]), Geometry(placed[j]))
        || (order[i].config.Some? && order[j].config.Some?)
    {
      FallbackOrLater(order, i, j);
    }
  }

  lemma {:induction false} KeepCounts(s: seq<Item>, configured: bool, x: Item)
    ensures multiset(Keep(s, configured))[x] ==
            if x.config.Some? == configured then multiset(s)[x] else 0
  {
    if s != [] {
      KeepCounts(s[1..], configured, x);
      assert s == [s[0]] + s[1..];
    }
  }

  lemma KeepPermutes(a: seq<Item>, b: seq<Item>, configured: bool)
    requires multiset(a) == multiset(b)
    ensures multiset(Keep(a, configured)) == multiset(Keep(b, configured))
  {
    forall d: Item
      ensures multiset(Keep(a, configured))[d] == multiset(Keep(b, configured))[d]
    {
      KeepCounts(a, configured, d);
      KeepCounts(b, configured, d);
    }
  }

  lemma ConfiguredFrontUnique(a: seq<Head>, b: seq<Head>, config: seq<Section>)
    requires DistinctNames(a) && DistinctNames(b)
    requires multiset(Keep(Items(a, config), true)) == multiset(Keep(Items(b, config), true))
    ensures Keep(SortByName(Items(a, config)), true) == Keep(SortByName(Items(b, config)), true)
  {
    var x, y := Items(a, config), Items(b, config);
    ItemsDistinct(a, config);
    ItemsDistinct(b, config);
    SortSorts(x);
    SortSorts(y);
    KeepSorted(SortByName(x), true);
    KeepSorted(SortByName(y), true);
    KeepPermutes(SortByName(x), x, true);
    KeepPermutes(SortByName(y), y, true);
    ArrangementUnique(Keep(SortByName(x), true), Keep(SortByName(y), true));
  }

  /** Unconfigured outputs never disturb the configured ones: with the same configured outputs, the
      configured part of the arrangement is the same. */
  lemma UnconfiguredNeverDisturb(a: seq<Head>, b: seq<Head>, config: seq<Section>)
    requires DistinctNames(a) && DistinctNames(b)
    requires multiset(Keep(Items(a, config), true)) == multiset(Keep(Items(b, config), true))
    ensures
      var n := |Keep(SortByName(Items(a, config)), true)|;
      && n <= |Arrange(a, config)| && n <= |Arrange(b, config)|
      && Arrange(a, config)[..n] == Arrange(b, config)[..n]
  {
    ConfiguredFrontUnique(a, b, config);
    var front := Keep(SortByName(Items(a, config)), true);
    PlaceAllPrefix(PlacementOrder(Items(a, config)), |front|);
    PlaceAllPrefix(PlacementOrder(Items(b, config)), |front|);
    assert PlacementOrder(Items(a, config))[..|front|] == front;
    assert PlacementOrder(Items(b, config))[..|front|] == front;
  }

  // ----- The operation -----

  class GlobalSpace {
    /** The mapped outputs, in the order in which they were mapped. */
    var mapped: seq<Placed>
    var sortedOutputs: seq<Head>
    var ipcOutputsChanged: bool
    /** The outputs that a redraw was queued for. */
    var redrawQueued: set<OutputName>

    constructor ()
      ensures mapped == [] && sortedOutputs == [] && !ipcOutputsChanged && redrawQueued == {}
    {
      mapped, sortedOutputs, ipcOutputsChanged, redrawQueued := [], [], false, {};
    }

    /** Places the mapped outputs, with the sizes they have now (`current`), and a new one if given. */
    method RepositionOutputs(current: seq<Head>, newOutput: Option<Head>, config: seq<Section>)
      requires SameNames(mapped, current)
      modifies this
      ensures mapped == Arrange(Connected(current, newOutput), config)
      ensures sortedOutputs == Heads(mapped)
      ensures redrawQueued == old(redrawQueued) + Moved(old(mapped), mapped)
      ensures ipcOutputsChanged == (old(ipcOutputsChanged) || Moved(old(mapped), mapped) != {})
    {
      var outputs := CollectOutputs(Connected(current, newOutput), config);
      outputs := SortByName(outputs);
      outputs := ConfiguredFirst(outputs);
      PlaceOutputs(outputs);
    }

    static method CollectOutputs(heads: seq<Head>, config: seq<Section>)
      returns (outputs: seq<Item>)
      ensures outputs == Items(heads, config)
    {
      outputs := [];
      for i := 0 to |heads|
        invariant outputs == Items(heads, config)[..i]
      {
        outputs := outputs + [ItemFor(heads[i], config)];
      }
    }

    method PlaceOutputs(outputs: seq<Item>)
      modifies this
      ensures mapped == PlaceAll(outputs) && sortedOutputs == Heads(mapped)
      ensures redrawQueued == old(redrawQueued) + Moved(old(mapped), mapped)
      ensures ipcOutputsChanged == (old(ipcOutputsChanged) || Moved(old(mapped), mapped) != {})
    {
      var before := mapped;
      mapped, sortedOutputs := [], [];
      for i := 0 to |outputs|
        invariant mapped == PlaceAll(outputs[..i]) && sortedOutputs == Heads(mapped)
        invariant redrawQueued == old(redrawQueued) + Moved(before, mapped)
        invariant ipcOutputsChanged == (old(ipcOutputsChanged) || Moved(before, mapped) != {})
      {
        PlaceAllNext(outputs, i);
        MovedGrows(before, mapped, PlaceOne(mapped, outputs[i]));
        PlaceOutput(outputs[i], before);
      }
      assert outputs[..|outputs|] == outputs;
    }

    /** Maps one more output; `before` are the positions before all outputs were unmapped. */
    method PlaceOutput(d: Item, before: seq<Placed>)
      requires sortedOutputs == Heads(mapped)
      modifies this
      ensures mapped == old(mapped) + [PlaceOne(old(mapped), d)] && sortedOutputs == Heads(mapped)
      ensures var p := PlaceOne(old(mapped), d);
        && redrawQueued == old(redrawQueued) + (if WasThere(before, p) then {} else {d.head.name})
        && ipcOutputsChanged == (old(ipcOutputsChanged) || !WasThere(before, p))
    {
      var newPosition := FindPosition(d);
      var placed := Placed(d.head, newPosition);
      HeadsGrow(mapped, placed);
      mapped := mapped + [placed];
      sortedOutputs := sortedOutputs + [d.head];
      if !WasThere(before, placed) {
        ipcOutputsChanged := true;
        redrawQueued := redrawQueued + {d.head.name};
      }
    }

    /** The configured position if it is free, else the place right of all mapped outputs. */
    method FindPosition(d: Item) returns (position: Point)
      ensures Placed(d.head, position) == PlaceOne(mapped, d)
    {
      if d.config.Some? {
        var target := Target(Placed(d.head, d.config.value));
        var free := true;
        for i := 0 to |mapped|
          invariant free == IsFree(mapped[..i], target)
        {
          assert mapped[..i + 1] == mapped[..i] + [mapped[i]];
          free := free && !Overlaps(Geometry(mapped[i]), target);
        }
        assert mapped[..|mapped|] == mapped;
        if free {
          return d.config.value;
        }
      }
      var x := 0;
      for i := 0 to |mapped|
        invariant x == MaxRight(mapped[..i])
      {
        assert mapped[..i + 1][..i] == mapped[..i];
        var g := Geometry(mapped[i]);
        if i == 0 || x < g.x + g.w {
          x := g.x + g.w;
        }
      }
      assert mapped[..|mapped|] == mapped;
      position := Point(x, 0);
    }
  }

  /** The same outputs, which may have been resized. */
  ghost predicate SameNames(mapped: seq<Placed>, current: seq<Head>) {
    |mapped| == |current| && forall i | 0 <= i < |mapped| :: mapped[i].head.name == current[i].name
  }

  /** The mapped outputs and the one being added. */
  function Connected(current: seq<Head>, newOutput: Option<Head>): seq<Head> {
    current + if newOutput.Some? then [newOutput.value] else []
  }

  lemma PlaceAllNext(items: seq<Item>, i: nat)
    requires i < |items|
    ensures PlaceAll(items[..i + 1]) ==
            PlaceAll(items[..i]) + [PlaceOne(PlaceAll(items[..i]), items[i])]
  {
    assert items[..i + 1][..i] == items[..i];
  }

  lemma HeadsGrow(placed: seq<Placed>, p: Placed)
    ensures Heads(placed + [p]) == Heads(placed) + [p.head]
  {}

  lemma MovedGrows(before: seq<Placed>, after: seq<Placed>, p: Placed)
    ensures Moved(before, after + [p]) ==
            Moved(before, after) + if WasThere(before, p) then {} else {p.head.name}
  {}
}
