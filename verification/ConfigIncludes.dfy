/**
 Reading a configuration with includes: files are processed node by node, an `include` processes the
 named file on the spot, and everything is merged into one configuration as it is met.

 The reference is `Flatten`: the list of what happens, in order, over the whole tree of includes.
 Paths are as they are after joining with the directory of the including file.
 */
module ConfigIncludes {
  import opened Options
  import opened Appearance

  type Path = string

  datatype Key = Key(trigger: string, modifiers: set<string>)
  datatype Bind = Bind(key: Key, action: string)

  /** A decoded node. Sections whose contents are merged by rules of their own are kept as text.
      `None` among the children of a binds section is a child that does not decode. */
  datatype Node =
    | Include(path: Path, hasFileName: bool)
    | Multipart(kind: string, value: string)
    | Binds(children: seq<Option<Bind>>)
    | RecentWindows(binds: Option<seq<Option<Bind>>>, rest: string)
    | Layout(border: Option<BorderRule>, rest: string)
    | Section(name: string, value: string)
    | Undecodable(name: string)
    | Unknown(name: string)

  /** A file that is missing from the map cannot be read; `None` is a file that is not valid KDL. */
  type Files = map<Path, Option<seq<Node>>>

  const RECURSION_LIMIT: nat := 10

  /** Sections that may be repeated within a file: each one adds something. */
  predicate MayRepeat(node: Node) {
    NodeName(node) in ["output", "spawn-at-startup", "spawn-sh-at-startup", "window-rule",
                       "layer-rule", "workspace", "include"]
  }

  function NodeName(node: Node): string {
    match node
    case Include(_, _) => "include"
    case Multipart(kind, _) => kind
    case Binds(_) => "binds"
    case RecentWindows(_, _) => "recent-windows"
    case Layout(_, _) => "layout"
    case Section(name, _) => name
    case Undecodable(name) => name
    case Unknown(name) => name
  }

  // ----- Binds -----

  predicate HasKey(binds: seq<Bind>, key: Key) {
    exists i | 0 <= i < |binds| :: binds[i].key == key
  }

  ghost predicate DistinctKeys(binds: seq<Bind>) {
    forall i, j | 0 <= i < j < |binds| :: binds[i].key != binds[j].key
  }

  /** The binds of a section: of several with the same key the first. */
  function DecodeBinds(children: seq<Option<Bind>>): seq<Bind> {
    if children == [] then []
    else
      var n := |children| - 1;
      var before := DecodeBinds(children[..n]);
      if children[n].None? || HasKey(before, children[n].value.key) then before
      else before + [children[n].value]
  }

  /** Nothing is wrong with the section: every child decodes and no key is repeated. */
  predicate CleanBinds(children: seq<Option<Bind>>) {
    && (forall i | 0 <= i < |children| :: children[i].Some?)
    && (forall i, j | 0 <= i < j < |children| :: children[i].value.key != children[j].value.key)
  }

  function WithoutKeysOf(binds: seq<Bind>, part: seq<Bind>): seq<Bind> {
    if binds == [] then []
    else
      var n := |binds| - 1;
      WithoutKeysOf(binds[..n], part) + if HasKey(part, binds[n].key) then [] else [binds[n]]
  }

  /** Replace conflicting binds, keep the others, add the new ones. */
  function Override(binds: seq<Bind>, part: seq<Bind>): seq<Bind> {
    WithoutKeysOf(binds, part) + part
  }

  // ----- The configuration -----

  datatype Config = Config(
    binds: seq<Bind>,
    mruBinds: seq<Bind>,
    border: BorderStyle,
    // Everything else, in the order in which it is merged or appended.
    merged: seq<(string, string)>)

  datatype State = State(config: Config, includes: seq<Path>, sawMruBinds: bool)

  /** Tab goes through all windows, grave through those of the same application. */
  function DefaultMruBinds(): seq<Bind> {
    var next, previous := "next-window", "previous-window";
    var nextOfApp := "next-window filter=app-id";
    var previousOfApp := "previous-window filter=app-id";
    [ Bind(Key("Tab", {"Alt"}), next), Bind(Key("Tab", {"Alt", "Shift"}), previous),
      Bind(Key("grave", {"Alt"}), nextOfApp), Bind(Key("grave", {"Alt", "Shift"}), previousOfApp),
      Bind(Key("Tab", {"Mod"}), next), Bind(Key("Tab", {"Mod", "Shift"}), previous),
      Bind(Key("grave", {"Mod"}), nextOfApp), Bind(Key("grave", {"Mod", "Shift"}), previousOfApp) ]
  }

  function Start(border: BorderStyle): State {
    State(Config([], DefaultMruBinds(), border, []), [], false)
  }

  /** At the top level, an empty border section turns the border on. */
  function BorderPart(rule: BorderRule, depth: nat): BorderRule {
    if depth == 0 && !rule.on && !rule.off then rule.(on := true) else rule
  }

  function ApplyNode(s: State, node: Node, depth: nat): State {
    var c := s.config;
    match node
    case Binds(children) =>
      s.(config := c.(binds := Override(c.binds, DecodeBinds(children))))
    case RecentWindows(children, rest) =>
      var c := c.(merged := c.merged + [("recent-windows", rest)]);
      if children.None? then s.(config := c)
      else
        var binds := if s.sawMruBinds then c.mruBinds else [];
        s.(config := c.(mruBinds := Override(binds, DecodeBinds(children.value))),
           sawMruBinds := true)
    case Layout(border, rest) =>
      var c := c.(merged := c.merged + [("layout", rest)]);
      if border.None? then s.(config := c)
      else s.(config := c.(border := MergeBorder(c.border, BorderPart(border.value, depth))))
    case Multipart(kind, value) => s.(config := c.(merged := c.merged + [(kind, value)]))
    case Section(name, value) => s.(config := c.(merged := c.merged + [(name, value)]))
    case _ => s
  }

  /** The node decodes without any complaint. */
  predicate Clean(node: Node) {
    match node
    case Binds(children) => CleanBinds(children)
    case RecentWindows(children, _) => children.None? || CleanBinds(children.value)
    case _ => true
  }

  // ----- What happens, in order -----

  /** `chain` is the file being visited, preceded by the files that are including it. */
  datatype Item =
    | Apply(node: Node, depth: nat)
    | Visit(chain: seq<Path>)
    | Fail

  function Flatten(files: Files, nodes: seq<Node>, chain: seq<Path>, seen: set<string>): seq<Item>
    requires 1 <= |chain| <= RECURSION_LIMIT
    decreases RECURSION_LIMIT - |chain|, |nodes|, 0
  {
    if nodes == [] then []
    else if Repeats(nodes[0], seen) then [Fail] + Flatten(files, nodes[1..], chain, seen)
    else if nodes[0].Undecodable? then [Fail]
    else
      FlattenNode(files, nodes[0], chain, |nodes|)
      + Flatten(files, nodes[1..], chain, Seen(nodes[0], seen))
  }

  /** A section that was already met in the same file. */
  predicate Repeats(node: Node, seen: set<string>) {
    !MayRepeat(node) && NodeName(node) in seen
  }

  function Seen(node: Node, seen: set<string>): set<string> {
    if MayRepeat(node) then seen else seen + {NodeName(node)}
  }

  function FlattenNode(files: Files, node: Node, chain: seq<Path>, ghost left: nat): seq<Item>
    requires 1 <= |chain| <= RECURSION_LIMIT && left > 0
    decreases RECURSION_LIMIT - |chain|, left - 1, 2
  {
    match node
    case Undecodable(_) => [Fail]
    case Unknown(_) => [Fail]
    case Include(path, hasFileName) => FlattenInclude(files, path, hasFileName, chain, left)
    case _ => [Apply(node, |chain| - 1)] + if Clean(node) then [] else [Fail]
  }

  function FlattenInclude(files: Files, path: Path, hasFileName: bool, chain: seq<Path>,
                          ghost left: nat): seq<Item>
    requires 1 <= |chain| <= RECURSION_LIMIT && left > 0
    decreases RECURSION_LIMIT - |chain|, left - 1, 1
  {
    if |chain| == RECURSION_LIMIT || !hasFileName || path in chain then [Fail]
    else
      var chain := chain + [path];
      [Visit(chain)] +
      if path !in files || files[path].None? then [Fail]
      else Flatten(files, files[path].value, chain, {})
  }

  function Do(s: State, item: Item): State {
    match item
    case Apply(node, depth) => ApplyNode(s, node, depth)
    case Visit(chain) => if chain == [] then s else s.(includes := s.includes + [chain[|chain| - 1]])
    case Fail => s
  }

  function DoAll(s: State, items: seq<Item>): State
    decreases |items|
  {
    if items == [] then s else DoAll(Do(s, items[0]), items[1..])
  }

  lemma {:induction false} DoAllConcat(s: State, a: seq<Item>, b: seq<Item>)
    ensures DoAll(s, a + b) == DoAll(DoAll(s, a), b)
    decreases |a|
  {
    if a == [] {
      assert a + b == b;
    } else {
      assert (a + b)[1..] == a[1..] + b;
      DoAllConcat(Do(s, a[0]), a[1..], b);
    }
  }

  ghost predicate Succeeds(items: seq<Item>) {
    Fail !in items
  }

  // ----- The parser -----

  class Parser {
    var config: Config
    var includes: seq<Path>
    var sawMruBinds: bool

    ghost function View(): State
      reads this
    {
      State(config, includes, sawMruBinds)
    }

    constructor (border: BorderStyle)
      ensures View() == Start(border)
    {
      config, includes, sawMruBinds := Config([], DefaultMruBinds(), border, []), [], false;
    }

    /** Processes the nodes of one file. Terminates for every file graph; does exactly what the
        flattened list says, also when something is wrong; succeeds exactly if nothing is. */
    method DecodeChildren(files: Files, nodes: seq<Node>, stack: set<Path>, recursion: nat,
                          ghost chain: seq<Path>)
      returns (ok: bool)
      requires |chain| == recursion + 1 <= RECURSION_LIMIT
      requires stack == set p | p in chain
      modifies this
      ensures View() == DoAll(old(View()), Flatten(files, nodes, chain, {}))
      ensures ok <==> Succeeds(Flatten(files, nodes, chain, {}))
      decreases RECURSION_LIMIT - recursion, 2
    {
      var seen: set<string> := {};
      ok := true;
      ghost var start := View();
      ghost var whole := Flatten(files, nodes, chain, {});
      for i := 0 to |nodes|
        invariant DoAll(View(), Flatten(files, nodes[i..], chain, seen)) == DoAll(start, whole)
        invariant (ok && Succeeds(Flatten(files, nodes[i..], chain, seen))) <==> Succeeds(whole)
      {
        var node := nodes[i];
        assert nodes[i..][0] == node && nodes[i..][1..] == nodes[i + 1..];
        if !MayRepeat(node) && NodeName(node) in seen {
          FailFirst(View(), Flatten(files, nodes[i + 1..], chain, seen));
          ok := false;
          continue;
        }
        if !MayRepeat(node) {
          seen := seen + {NodeName(node)};
        }
        if node.Undecodable? {
          FailFirst(View(), []);
          ok := false;
          return;
        }
        ghost var part := FlattenNode(files, node, chain, |nodes| - i);
        ghost var rest := Flatten(files, nodes[i + 1..], chain, seen);
        DoAllConcat(View(), part, rest);
        var fine := DecodeNode(files, node, stack, recursion, chain, |nodes| - i);
        ok := ok && fine;
      }
      assert nodes[|nodes|..] == [];
    }

    method DecodeNode(files: Files, node: Node, stack: set<Path>, recursion: nat,
                      ghost chain: seq<Path>, ghost left: nat)
      returns (ok: bool)
      requires |chain| == recursion + 1 <= RECURSION_LIMIT && left > 0
      requires stack == set p | p in chain
      modifies this
      ensures View() == DoAll(old(View()), FlattenNode(files, node, chain, left))
      ensures ok <==> Succeeds(FlattenNode(files, node, chain, left))
      decreases RECURSION_LIMIT - recursion, 1
    {
      match node
      case Unknown(_) =>
        FailFirst(View(), []);
        ok := false;
      case Undecodable(_) =>
        FailFirst(View(), []);
        ok := false;
      case Include(path, hasFileName) =>
        ok := ProcessInclude(files, path, hasFileName, stack, recursion, chain, left);
      case _ =>
        DoOne(View(), node, recursion);
        ok := MergeNode(node, recursion);
    }

    method ProcessInclude(files: Files, path: Path, hasFileName: bool, stack: set<Path>,
                          recursion: nat, ghost chain: seq<Path>, ghost left: nat)
      returns (ok: bool)
      requires |chain| == recursion + 1 <= RECURSION_LIMIT && left > 0
      requires stack == set p | p in chain
      modifies this
      ensures
        View() == DoAll(old(View()), FlattenInclude(files, path, hasFileName, chain, left))
      ensures ok <==> Succeeds(FlattenInclude(files, path, hasFileName, chain, left))
      decreases RECURSION_LIMIT - recursion, 0
    {
      if recursion + 1 == RECURSION_LIMIT || !hasFileName || path in stack {
        assert [Fail][1..] == [];
        return false;
      }
      ghost var longer := chain + [path];
      // Recorded before anything can go wrong with the file: it is watched in any case.
      includes := includes + [path];
      if path !in files || files[path].None? {
        ghost var items := [Visit(longer), Fail];
        assert FlattenInclude(files, path, hasFileName, chain, left) == items;
        assert items[1..] == [Fail] && [Fail][1..] == [];
        return false;
      }
      ghost var inner := Flatten(files, files[path].value, longer, {});
      assert ([Visit(longer)] + inner)[1..] == inner;
      assert stack + {path} == set p | p in longer;
      ok := DecodeChildren(files, files[path].value, stack + {path}, recursion + 1, longer);
    }

    method MergeNode(node: Node, recursion: nat) returns (clean: bool)
      modifies this
      ensures View() == ApplyNode(old(View()), node, recursion) && clean == Clean(node)
    {
      clean := true;
      match node
      case Binds(children) =>
        var part;
        part, clean := DecodeBindsSection(children);
        config := config.(binds := Override(config.binds, part));
      case RecentWindows(children, rest) =>
        if children.Some? {
          var part;
          part, clean := DecodeBindsSection(children.value);
          // Only the first section with binds removes the defaults.
          if !sawMruBinds {
            sawMruBinds := true;
            config := config.(mruBinds := []);
          }
          config := config.(mruBinds := Override(config.mruBinds, part));
        }
        config := config.(merged := config.merged + [("recent-windows", rest)]);
      case Layout(border, rest) =>
        if border.Some? {
          var part := border.value;
          if recursion == 0 && !part.on && !part.off {
            part := part.(on := true);
          }
          config := config.(border := MergeBorder(config.border, part));
        }
        config := config.(merged := config.merged + [("layout", rest)]);
      case Multipart(kind, value) =>
        config := config.(merged := config.merged + [(kind, value)]);
      case Section(name, value) =>
        config := config.(merged := config.merged + [(name, value)]);
      case _ =>
    }
  }

  lemma FailFirst(s: State, rest: seq<Item>)
    ensures DoAll(s, [Fail] + rest) == DoAll(s, rest)
    ensures DoAll(s, [Fail]) == s
  {}

  lemma DoOne(s: State, node: Node, depth: nat)
    ensures DoAll(s, [Apply(node, depth)]) == ApplyNode(s, node, depth)
    ensures DoAll(s, [Apply(node, depth)] + [Fail]) == ApplyNode(s, node, depth)
  {
    var a := Apply(node, depth);
    assert [a][1..] == [] && ([a] + [Fail])[1..] == [Fail] && [Fail][1..] == [];
    assert DoAll(Do(s, a), [Fail]) == DoAll(Do(Do(s, a), Fail), []);
  }

  /** The loop over the children of a binds section. */
  method DecodeBindsSection(children: seq<Option<Bind>>) returns (binds: seq<Bind>, clean: bool)
    ensures binds == DecodeBinds(children) && DistinctKeys(binds)
    ensures clean <==> CleanBinds(children)
  {
    var seenKeys: set<Key> := {};
    binds, clean := [], true;
    for i := 0 to |children|
      invariant binds == DecodeBinds(children[..i]) && DistinctKeys(binds)
      invariant forall k :: k in seenKeys <==> HasKey(binds, k)
      invariant clean <==> CleanBinds(children[..i])
    {
      assert children[..i + 1][..i] == children[..i];
      CleanStep(children, i);
      match children[i] {
        case None => clean := false;
        case Some(bind) =>
          if bind.key in seenKeys {
            clean := false;
          } else {
            forall k ensures HasKey(binds + [bind], k) <==> HasKey(binds, k) || k == bind.key {
              HasKeyAppend(binds, bind, k);
            }
            seenKeys := seenKeys + {bind.key};
            binds := binds + [bind];
          }
      }
    }
    assert children[..|children|] == children;
  }

  lemma {:induction false} DecodedKeys(children: seq<Option<Bind>>, key: Key)
    ensures HasKey(DecodeBinds(children), key) <==>
            exists i | 0 <= i < |children| :: children[i].Some? && children[i].value.key == key
  {
    if children != [] {
      var n := |children| - 1;
      DecodedKeys(children[..n], key);
      var before := DecodeBinds(children[..n]);
      if children[n].Some? {
        HasKeyAppend(before, children[n].value, key);
      }
      assert forall i | 0 <= i < n :: children[..n][i] == children[i];
    }
  }

  lemma CleanStep(children: seq<Option<Bind>>, i: nat)
    requires i < |children|
    ensures CleanBinds(children[..i + 1]) <==>
            CleanBinds(children[..i]) && children[i].Some? &&
            !HasKey(DecodeBinds(children[..i]), children[i].value.key)
  {
    if children[i].Some? {
      DecodedKeys(children[..i], children[i].value.key);
    }
    var a, b := children[..i], children[..i + 1];
    assert forall j | 0 <= j < i :: a[j] == b[j];
    assert b[i] == children[i];
  }

  lemma HasKeyAppend(binds: seq<Bind>, bind: Bind, key: Key)
    ensures HasKey(binds + [bind], key) <==> HasKey(binds, key) || key == bind.key
  {
    var longer := binds + [bind];
    if HasKey(binds, key) {
      var i :| 0 <= i < |binds| && binds[i].key == key;
      assert longer[i].key == key;
    }
    if key == bind.key {
      assert longer[|binds|].key == key;
    }
  }
}
