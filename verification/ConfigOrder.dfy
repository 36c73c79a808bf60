/**
 Where in a tree of configuration files something stands: includes are read in place, and a file's
 own sections are told from those of the files it includes.
 */
module ConfigOrder {
  import opened Options
  import opened Appearance
  import opened History
  import opened ConfigIncludes
  import opened ConfigTheorems

  // ----- Includes are read in place -----

  /** The steps of the nodes one after the other. */
  ghost function InTurn(files: Files, nodes: seq<Node>, chain: seq<Path>): seq<Item>
    requires 1 <= |chain| <= RECURSION_LIMIT
  {
    if nodes == [] then []
    else InTurn(files, nodes[..|nodes| - 1], chain)
         + FlattenNode(files, nodes[|nodes| - 1], chain, 1)
  }

  lemma {:induction false} InTurnConcat(files: Files, a: seq<Node>, b: seq<Node>, chain: seq<Path>)
    requires 1 <= |chain| <= RECURSION_LIMIT
    ensures InTurn(files, a + b, chain) == InTurn(files, a, chain) + InTurn(files, b, chain)
    decreases |b|
  {
    if b == [] {
      assert a + b == a;
    } else {
      var n := |b| - 1;
      assert (a + b)[..|a + b| - 1] == a + b[..n];
      InTurnConcat(files, a, b[..n], chain);
    }
  }

  /** In a good file nothing is skipped. */
  lemma {:induction false} GoodInTurn(files: Files, nodes: seq<Node>, chain: seq<Path>,
                                      seen: set<string>)
    requires 1 <= |chain| <= RECURSION_LIMIT
    requires GoodFile(files, nodes, chain) && NoneSeen(nodes, seen)
    ensures Flatten(files, nodes, chain, seen) == InTurn(files, nodes, chain)
    decreases |nodes|
  {
    if nodes != [] {
      GoodSplits(files, nodes, chain, seen);
      GoodInTurn(files, nodes[1..], chain, Seen(nodes[0], seen));
      assert nodes == [nodes[0]] + nodes[1..];
      InTurnConcat(files, [nodes[0]], nodes[1..], chain);
      OneInTurn(files, nodes[0], chain);
      assert FlattenNode(files, nodes[0], chain, |nodes|) == FlattenNode(files, nodes[0], chain, 1);
    }
  }

  lemma OneInTurn(files: Files, node: Node, chain: seq<Path>)
    requires 1 <= |chain| <= RECURSION_LIMIT
    ensures InTurn(files, [node], chain) == FlattenNode(files, node, chain, 1)
  {
    assert [node][..0] == [];
    assert InTurn(files, [], chain) == [];
  }

  /** Reading a good file with an include in it is reading what precedes the include, the included
      file, and what follows. */
  lemma IncludeInPlace(files: Files, a: seq<Node>, path: Path, b: seq<Node>, chain: seq<Path>)
    requires 1 <= |chain| <= RECURSION_LIMIT
    requires GoodFile(files, a + [Include(path, true)] + b, chain)
    ensures |chain| < RECURSION_LIMIT && path in files && files[path].Some?
    ensures GoodFile(files, a, chain) && GoodFile(files, b, chain)
    ensures Flatten(files, a + [Include(path, true)] + b, chain, {}) ==
            Flatten(files, a, chain, {})
            + ([Visit(chain + [path])] + Flatten(files, files[path].value, chain + [path], {}))
            + Flatten(files, b, chain, {})
  {
    var inc := Include(path, true);
    GoodParts(files, a, inc, b, chain);
    GoodInTurn(files, a + [inc] + b, chain, {});
    GoodInTurn(files, a, chain, {});
    GoodInTurn(files, b, chain, {});
    IncludeInTurn(files, a, path, b, chain);
  }

  lemma IncludeInTurn(files: Files, a: seq<Node>, path: Path, b: seq<Node>, chain: seq<Path>)
    requires 1 <= |chain| <= RECURSION_LIMIT && GoodNode(files, Include(path, true), chain)
    ensures |chain| < RECURSION_LIMIT && path in files && files[path].Some?
    ensures InTurn(files, a + [Include(path, true)] + b, chain) ==
            InTurn(files, a, chain)
            + ([Visit(chain + [path])] + Flatten(files, files[path].value, chain + [path], {}))
            + InTurn(files, b, chain)
  {
    NodeInTurn(files, a, Include(path, true), b, chain);
    IncludeSteps(files, path, chain);
  }

  lemma IncludeSteps(files: Files, path: Path, chain: seq<Path>)
    requires 1 <= |chain| <= RECURSION_LIMIT && GoodNode(files, Include(path, true), chain)
    ensures |chain| < RECURSION_LIMIT && path in files && files[path].Some?
    ensures FlattenNode(files, Include(path, true), chain, 1) ==
            [Visit(chain + [path])] + Flatten(files, files[path].value, chain + [path], {})
  {}

  lemma GoodParts(files: Files, a: seq<Node>, node: Node, b: seq<Node>, chain: seq<Path>)
    requires 1 <= |chain| <= RECURSION_LIMIT && GoodFile(files, a + [node] + b, chain)
    ensures GoodFile(files, a, chain) && GoodNode(files, node, chain) && GoodFile(files, b, chain)
  {
    var all := a + [node] + b;
    assert all[|a|] == node;
    assert forall i | 0 <= i < |a| :: a[i] == all[i];
    assert forall i | 0 <= i < |b| :: b[i] == all[|a| + 1 + i];
  }

  lemma NodeInTurn(files: Files, a: seq<Node>, node: Node, b: seq<Node>, chain: seq<Path>)
    requires 1 <= |chain| <= RECURSION_LIMIT
    ensures InTurn(files, a + [node] + b, chain) ==
            InTurn(files, a, chain) + FlattenNode(files, node, chain, 1) + InTurn(files, b, chain)
  {
    InTurnConcat(files, a + [node], b, chain);
    InTurnConcat(files, a, [node], chain);
    OneInTurn(files, node, chain);
  }

  /** The steps are the sections themselves. */
  ghost predicate JustSections(items: seq<Item>, nodes: seq<Node>) {
    |items| == |nodes| &&
    forall i | 0 <= i < |nodes| :: items[i].Apply? && items[i].node == nodes[i]
  }

  lemma {:induction false} SectionsInTurn(files: Files, nodes: seq<Node>, chain: seq<Path>)
    requires 1 <= |chain| <= RECURSION_LIMIT
    requires forall i | 0 <= i < |nodes| ::
               !nodes[i].Include? && !nodes[i].Undecodable? && !nodes[i].Unknown? && Clean(nodes[i])
    ensures JustSections(InTurn(files, nodes, chain), nodes)
  {
    if nodes != [] {
      var n := |nodes| - 1;
      SectionsInTurn(files, nodes[..n], chain);
      assert FlattenNode(files, nodes[n], chain, 1) == [Apply(nodes[n], |chain| - 1)];
    }
  }

  /** A good file without includes is read section by section. */
  lemma SectionsInOrder(files: Files, nodes: seq<Node>, chain: seq<Path>)
    requires 1 <= |chain| <= RECURSION_LIMIT && GoodFile(files, nodes, chain)
    requires forall i | 0 <= i < |nodes| :: !nodes[i].Include?
    ensures JustSections(Flatten(files, nodes, chain, {}), nodes)
  {
    forall i | 0 <= i < |nodes|
      ensures !nodes[i].Undecodable? && !nodes[i].Unknown? && Clean(nodes[i])
    {
      assert GoodNode(files, nodes[i], chain);
    }
    SectionsInTurn(files, nodes, chain);
    GoodInTurn(files, nodes, chain, {});
  }

  // ----- What is kept as text, and the files visited -----

  function Texts(items: seq<Item>): seq<(string, string)> {
    if items == [] then [] else Texts(items[..|items| - 1]) + Text(items[|items| - 1])
  }

  function Text(item: Item): seq<(string, string)> {
    if !item.Apply? then []
    else
      match item.node
      case Multipart(kind, value) => [(kind, value)]
      case Section(name, value) => [(name, value)]
      case RecentWindows(_, rest) => [("recent-windows", rest)]
      case Layout(_, rest) => [("layout", rest)]
      case _ => []
  }

  function Visited(items: seq<Item>): seq<Path> {
    if items == [] then [] else Visited(items[..|items| - 1]) + VisitedBy(items[|items| - 1])
  }

  function VisitedBy(item: Item): seq<Path> {
    if item.Visit? && item.chain != [] then [item.chain[|item.chain| - 1]] else []
  }

  /** The other sections are kept, and the files are recorded, in the order in which they are met. */
  lemma {:induction false} TextsInOrder(s: State, items: seq<Item>)
    ensures DoAll(s, items).config.merged == s.config.merged + Texts(items)
    ensures DoAll(s, items).includes == s.includes + Visited(items)
    decreases |items|
  {
    if items != [] {
      var n := |items| - 1;
      TextsInOrder(s, items[..n]);
      DoAllLast(s, items);
      TextStep(DoAll(s, items[..n]), items[n]);
    }
  }

  lemma TextStep(s: State, item: Item)
    ensures Do(s, item).config.merged == s.config.merged + Text(item)
    ensures Do(s, item).includes == s.includes + VisitedBy(item)
  {}

  // ----- A file's own sections -----

  function AllAre(b: bool, n: nat): (r: seq<bool>)
    ensures |r| == n && forall i | 0 <= i < n :: r[i] == b
  {
    seq(n, _ => b)
  }

  /** Which of the steps of `Flatten` come from the file itself and not from one it includes. */
  ghost function Own(files: Files, nodes: seq<Node>, chain: seq<Path>, seen: set<string>): (r: seq<bool>)
    requires 1 <= |chain| <= RECURSION_LIMIT
    ensures |r| == |Flatten(files, nodes, chain, seen)|
    decreases |nodes|
  {
    if nodes == [] then []
    else if Repeats(nodes[0], seen) then [true] + Own(files, nodes[1..], chain, seen)
    else if nodes[0].Undecodable? then [true]
    else
      AllAre(!nodes[0].Include?, |FlattenNode(files, nodes[0], chain, |nodes|)|)
      + Own(files, nodes[1..], chain, Seen(nodes[0], seen))
  }

  ghost predicate NotAbove(items: seq<Item>, depth: nat) {
    forall x | x in items && x.Apply? :: x.depth >= depth
  }

  lemma {:induction false} FlattenBelow(files: Files, nodes: seq<Node>, chain: seq<Path>,
                                        seen: set<string>)
    requires 1 <= |chain| <= RECURSION_LIMIT
    ensures NotAbove(Flatten(files, nodes, chain, seen), |chain| - 1)
    decreases RECURSION_LIMIT - |chain|, |nodes|, 0
  {
    if nodes != [] {
      FlattenBelow(files, nodes[1..], chain, seen);
      FlattenBelow(files, nodes[1..], chain, Seen(nodes[0], seen));
      if nodes[0].Include? {
        IncludeBelow(files, nodes[0].path, nodes[0].hasFileName, chain, |nodes|);
      }
    }
  }

  lemma {:induction false} IncludeBelow(files: Files, path: Path, hasFileName: bool,
                                        chain: seq<Path>, left: nat)
    requires 1 <= |chain| <= RECURSION_LIMIT && left > 0
    ensures NotAbove(FlattenInclude(files, path, hasFileName, chain, left), |chain|)
    decreases RECURSION_LIMIT - |chain|, left - 1, 1
  {
    if |chain| < RECURSION_LIMIT && hasFileName && path !in chain && path in files &&
       files[path].Some? {
      FlattenBelow(files, files[path].value, chain + [path], {});
    }
  }

  /** The depth of a step tells whose it is. */
  ghost predicate DepthTells(items: seq<Item>, own: seq<bool>, depth: nat) {
    |own| == |items| &&
    forall p | 0 <= p < |items| && items[p].Apply? :: own[p] <==> items[p].depth == depth
  }

  lemma DepthTellsConcat(a: seq<Item>, x: seq<bool>, b: seq<Item>, y: seq<bool>, depth: nat)
    requires DepthTells(a, x, depth) && DepthTells(b, y, depth)
    ensures DepthTells(a + b, x + y, depth)
  {}

  lemma NodeDepth(files: Files, node: Node, chain: seq<Path>, left: nat)
    requires 1 <= |chain| <= RECURSION_LIMIT && left > 0
    ensures var part := FlattenNode(files, node, chain, left);
      DepthTells(part, AllAre(!node.Include?, |part|), |chain| - 1)
  {
    var part := FlattenNode(files, node, chain, left);
    if node.Include? {
      IncludeBelow(files, node.path, node.hasFileName, chain, left);
      assert forall p | 0 <= p < |part| :: part[p] in part;
    }
  }

  lemma {:induction false} OwnDepth(files: Files, nodes: seq<Node>, chain: seq<Path>,
                                    seen: set<string>)
    requires 1 <= |chain| <= RECURSION_LIMIT
    ensures DepthTells(Flatten(files, nodes, chain, seen), Own(files, nodes, chain, seen), |chain| - 1)
    decreases |nodes|
  {
    if nodes == [] {
    } else if Repeats(nodes[0], seen) {
      OwnDepth(files, nodes[1..], chain, seen);
    } else if !nodes[0].Undecodable? {
      var part, seen' := FlattenNode(files, nodes[0], chain, |nodes|), Seen(nodes[0], seen);
      NodeDepth(files, nodes[0], chain, |nodes|);
      OwnDepth(files, nodes[1..], chain, seen');
      DepthTellsConcat(part, AllAre(!nodes[0].Include?, |part|),
                       Flatten(files, nodes[1..], chain, seen'), Own(files, nodes[1..], chain, seen'),
                       |chain| - 1);
    }
  }

  // ----- Whether the border is on -----

  /** What a step says about the border being off. A border section without a flag says that it is on
      if it is in the root file, and nothing otherwise. */
  function BorderOffSaid(item: Item, own: bool): Option<bool> {
    if item.Apply? && item.node.Layout? && item.node.border.Some? then
      var rule := item.node.border.value;
      if rule.on then Some(false)
      else if rule.off then Some(true)
      else if own then Some(false)
      else None
    else None
  }

  ghost function BorderOffSays(items: seq<Item>, own: seq<bool>): seq<Option<bool>>
    requires |own| == |items|
  {
    seq(|items|, i requires 0 <= i < |items| => BorderOffSaid(items[i], own[i]))
  }

  lemma {:induction false} BorderOffFollows(s: State, items: seq<Item>, own: seq<bool>)
    requires DepthTells(items, own, 0)
    ensures Follows(s.config.border.off, BorderOffSays(items, own),
                    DoAll(s, items).config.border.off)
    decreases |items|
  {
    if items != [] {
      var n := |items| - 1;
      BorderOffFollows(s, items[..n], own[..n]);
      DoAllLast(s, items);
      BorderOffStep(DoAll(s, items[..n]), items[n], own[n]);
      assert BorderOffSays(items, own) ==
             BorderOffSays(items[..n], own[..n]) + [BorderOffSaid(items[n], own[n])];
      FollowsGrows(s.config.border.off, BorderOffSays(items[..n], own[..n]),
                   BorderOffSaid(items[n], own[n]), DoAll(s, items).config.border.off);
    }
  }

  lemma BorderOffStep(s: State, item: Item, own: bool)
    requires item.Apply? ==> (own <==> item.depth == 0)
    ensures
      var said := BorderOffSaid(item, own);
      Do(s, item).config.border.off == if said.Some? then said.value else s.config.border.off
  {}

  /** Over the whole tree: whether the border ends up off is decided by the last border section that
      has a flag or that, without one, is in the root file, where it turns the border on. Sections
      without a flag in included files decide nothing. */
  lemma BorderOffDecided(files: Files, path: Path, nodes: seq<Node>, border: BorderStyle)
    ensures
      var items, own := Steps(files, path, nodes), Own(files, nodes, [path], {});
      Follows(border.off, BorderOffSays(items, own),
              DoAll(Start(border), items).config.border.off)
  {
    var items, own := Steps(files, path, nodes), Own(files, nodes, [path], {});
    OwnDepth(files, nodes, [path], {});
    BorderOffFollows(Start(border), items, own);
  }

  // ----- Binds sections -----

  /** Alt or Mod with Tab or grave switches forwards, with Shift backwards; grave within the windows of
      the same application. */
  lemma DefaultBindsAre()
    ensures DefaultMruBinds() == BindsWith("Alt") + BindsWith("Mod")
  {
    var all := DefaultMruBinds();
    assert all[..4] == BindsWith("Alt");
    assert all[4..] == BindsWith("Mod");
  }

  function BindsWith(base: string): seq<Bind> {
    [DefaultBind(base, false, false), DefaultBind(base, true, false),
     DefaultBind(base, false, true), DefaultBind(base, true, true)]
  }

  function DefaultBind(base: string, shift: bool, grave: bool): Bind {
    Bind(Key(if grave then "grave" else "Tab", if shift then {base, "Shift"} else {base}),
         if grave then
           (if shift then "previous-window filter=app-id" else "next-window filter=app-id")
         else
           (if shift then "previous-window" else "next-window"))
  }

  /** Of several binds with the same key, a section keeps the first; all others are kept in order. */
  lemma {:induction false} FirstBindKept(children: seq<Option<Bind>>, b: Bind)
    ensures b in DecodeBinds(children) <==>
            exists i | 0 <= i < |children| ::
              children[i] == Some(b) && !KeyBefore(children, b.key, i)
  {
    if children != [] {
      var n := |children| - 1;
      FirstBindKept(children[..n], b);
      assert forall i | 0 <= i < n :: children[..n][i] == children[i];
      assert forall i | 0 <= i < n :: KeyBefore(children[..n], b.key, i) == KeyBefore(children, b.key, i);
      DecodedKeys(children[..n], b.key);
      assert KeyBefore(children, b.key, n) <==> HasKey(DecodeBinds(children[..n]), b.key);
    }
  }

  ghost predicate KeyBefore(children: seq<Option<Bind>>, key: Key, i: nat)
    requires i <= |children|
  {
    exists j | 0 <= j < i :: children[j].Some? && children[j].value.key == key
  }
}
