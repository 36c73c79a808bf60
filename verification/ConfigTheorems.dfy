/**
 What a tree of configuration files means: bounds on the include chain, and which of several
 definitions of the same thing wins.
 */
module ConfigTheorems {
  import opened Options
  import opened Appearance
  import opened ConfigIncludes
  import opened Sequences

  /** Every file that is visited is reached through distinct files, at most ten of them, the first
      being the root. */
  ghost predicate ChainsBounded(items: seq<Item>, root: seq<Path>) {
    forall x | x in items && x.Visit? ::
      root < x.chain && Distinct(x.chain) && |x.chain| <= RECURSION_LIMIT
  }

  /** Includes never nest more than ten deep and never repeat a file on the way down, whatever the
      files say; cyclic graphs included. */
  lemma {:induction false} IncludeChainsBounded(files: Files, nodes: seq<Node>, chain: seq<Path>,
                                                seen: set<string>)
    requires 1 <= |chain| <= RECURSION_LIMIT && Distinct(chain)
    ensures ChainsBounded(Flatten(files, nodes, chain, seen), chain)
    decreases RECURSION_LIMIT - |chain|, |nodes|, 0
  {
    if nodes != [] {
      IncludeChainsBounded(files, nodes[1..], chain, seen);
      IncludeChainsBounded(files, nodes[1..], chain, Seen(nodes[0], seen));
      if nodes[0].Include? {
        IncludeBounded(files, nodes[0].path, nodes[0].hasFileName, chain, |nodes|);
      }
    }
  }

  lemma {:induction false} IncludeBounded(files: Files, path: Path, hasFileName: bool,
                                          chain: seq<Path>, left: nat)
    requires 1 <= |chain| <= RECURSION_LIMIT && left > 0 && Distinct(chain)
    ensures ChainsBounded(FlattenInclude(files, path, hasFileName, chain, left), chain)
    decreases RECURSION_LIMIT - |chain|, left - 1, 1
  {
    if |chain| < RECURSION_LIMIT && hasFileName && path !in chain && path in files &&
       files[path].Some? {
      var longer := chain + [path];
      IncludeChainsBounded(files, files[path].value, longer, {});
      assert chain < longer;
    }
  }

  // ----- When reading succeeds -----

  /** A node that is fine by itself, in a file reached through `chain`. */
  ghost predicate GoodNode(files: Files, node: Node, chain: seq<Path>)
    requires 1 <= |chain| <= RECURSION_LIMIT
    decreases RECURSION_LIMIT - |chain|, 0
  {
    && !node.Undecodable? && !node.Unknown? && Clean(node)
    && (node.Include? ==>
          && |chain| < RECURSION_LIMIT && node.hasFileName && node.path !in chain
          && node.path in files && files[node.path].Some?
          && GoodFile(files, files[node.path].value, chain + [node.path]))
  }

  /** All nodes are fine, and no section that must not be repeated is. */
  ghost predicate GoodFile(files: Files, nodes: seq<Node>, chain: seq<Path>)
    requires 1 <= |chain| <= RECURSION_LIMIT
    decreases RECURSION_LIMIT - |chain|, 1
  {
    && (forall i | 0 <= i < |nodes| :: GoodNode(files, nodes[i], chain))
    && (forall i, j | 0 <= i < j < |nodes| && !MayRepeat(nodes[i]) && !MayRepeat(nodes[j]) ::
          NodeName(nodes[i]) != NodeName(nodes[j]))
  }

  ghost predicate NoneSeen(nodes: seq<Node>, seen: set<string>) {
    forall i | 0 <= i < |nodes| && !MayRepeat(nodes[i]) :: NodeName(nodes[i]) !in seen
  }

  lemma FailIn(a: seq<Item>, b: seq<Item>)
    ensures Succeeds(a + b) <==> Succeeds(a) && Succeeds(b)
  {}

  /** Reading succeeds if and only if every file of the include tree is good: no unknown, undecodable
      or repeated section, no repeated key in a binds section, and every include leads to a readable
      file that is not already being read, less than ten deep. */
  lemma {:induction false} SucceedsExactly(files: Files, nodes: seq<Node>, chain: seq<Path>,
                                           seen: set<string>)
    requires 1 <= |chain| <= RECURSION_LIMIT
    ensures Succeeds(Flatten(files, nodes, chain, seen)) <==>
            GoodFile(files, nodes, chain) && NoneSeen(nodes, seen)
    decreases RECURSION_LIMIT - |chain|, |nodes|, 0
  {
    if nodes != [] {
      var node, rest := nodes[0], nodes[1..];
      if Repeats(node, seen) || node.Undecodable? {
        assert Fail in Flatten(files, nodes, chain, seen);
      } else {
        SucceedsExactly(files, rest, chain, Seen(node, seen));
        GoodSplits(files, nodes, chain, seen);
        if node.Include? {
          IncludeSucceeds(files, node.path, node.hasFileName, chain, |nodes|);
        }
        FailIn(FlattenNode(files, node, chain, |nodes|),
               Flatten(files, rest, chain, Seen(node, seen)));
      }
    }
  }

  lemma GoodSplits(files: Files, nodes: seq<Node>, chain: seq<Path>, seen: set<string>)
    requires 1 <= |chain| <= RECURSION_LIMIT && nodes != []
    requires !Repeats(nodes[0], seen)
    ensures
      GoodFile(files, nodes, chain) && NoneSeen(nodes, seen) <==>
        GoodNode(files, nodes[0], chain) && GoodFile(files, nodes[1..], chain) &&
        NoneSeen(nodes[1..], Seen(nodes[0], seen))
  {}

  lemma {:induction false} IncludeSucceeds(files: Files, path: Path, hasFileName: bool,
                                           chain: seq<Path>, left: nat)
    requires 1 <= |chain| <= RECURSION_LIMIT && left > 0
    ensures Succeeds(FlattenInclude(files, path, hasFileName, chain, left)) <==>
            GoodNode(files, Include(path, hasFileName), chain)
    decreases RECURSION_LIMIT - |chain|, left - 1, 1
  {
    if |chain| < RECURSION_LIMIT && hasFileName && path !in chain && path in files &&
       files[path].Some? {
      var longer := chain + [path];
      SucceedsExactly(files, files[path].value, longer, {});
      FailIn([Visit(longer)], Flatten(files, files[path].value, longer, {}));
    } else {
      assert Fail in FlattenInclude(files, path, hasFileName, chain, left);
    }
  }

  // ----- The last section that defines a key wins -----

  /** The binds sections, in order. */
  function BindSections(items: seq<Item>): seq<seq<Bind>> {
    if items == [] then []
    else
      var n := |items| - 1;
      BindSections(items[..n]) + BindSection(items[n])
  }

  function BindSection(item: Item): seq<seq<Bind>> {
    if item.Apply? && item.node.Binds? then [DecodeBinds(item.node.children)] else []
  }

  /** The binds parts of the recent-windows sections, in order. */
  function MruSections(items: seq<Item>): seq<seq<Bind>> {
    if items == [] then []
    else
      var n := |items| - 1;
      MruSections(items[..n]) + MruSection(items[n])
  }

  function MruSection(item: Item): seq<seq<Bind>> {
    if item.Apply? && item.node.RecentWindows? && item.node.binds.Some?
    then [DecodeBinds(item.node.binds.value)] else []
  }

  /** The border parts of the layout sections, each as its depth makes it read. */
  function BorderParts(items: seq<Item>): seq<BorderRule> {
    if items == [] then []
    else
      var n := |items| - 1;
      BorderParts(items[..n]) + BorderOf(items[n])
  }

  function BorderOf(item: Item): seq<BorderRule> {
    if item.Apply? && item.node.Layout? && item.node.border.Some?
    then [BorderPart(item.node.border.value, item.depth)] else []
  }

  function OverrideAll(binds: seq<Bind>, sections: seq<seq<Bind>>): seq<Bind> {
    if sections == [] then binds
    else
      var n := |sections| - 1;
      Override(OverrideAll(binds, sections[..n]), sections[n])
  }

  /** The bind for a key, if there is one. */
  function Lookup(binds: seq<Bind>, key: Key): Option<Bind> {
    if binds == [] then None
    else if binds[|binds| - 1].key == key then Some(binds[|binds| - 1])
    else Lookup(binds[..|binds| - 1], key)
  }

  /** What the last section that has the key says about it. */
  function LastDefinition(sections: seq<seq<Bind>>, key: Key): Option<Bind> {
    if sections == [] then None
    else
      var n := |sections| - 1;
      if HasKey(sections[n], key) then Lookup(sections[n], key)
      else LastDefinition(sections[..n], key)
  }

  lemma {:induction false} LookupFinds(binds: seq<Bind>, key: Key)
    ensures Lookup(binds, key).Some? <==> HasKey(binds, key)
    ensures Lookup(binds, key).Some? ==>
              Lookup(binds, key).value in binds && Lookup(binds, key).value.key == key
  {
    if binds != [] {
      var n := |binds| - 1;
      LookupFinds(binds[..n], key);
      HasKeyAppend(binds[..n], binds[n], key);
      assert binds[..n] + [binds[n]] == binds;
    }
  }

  lemma {:induction false} LookupConcat(a: seq<Bind>, b: seq<Bind>, key: Key)
    ensures Lookup(a + b, key) == if HasKey(b, key) then Lookup(b, key) else Lookup(a, key)
    decreases |b|
  {
    if b == [] {
      assert a + b == a;
    } else {
      var n := |b| - 1;
      assert (a + b)[..|a + b| - 1] == a + b[..n];
      LookupConcat(a, b[..n], key);
      HasKeyAppend(b[..n], b[n], key);
      assert b[..n] + [b[n]] == b;
    }
  }

  lemma {:induction false} WithoutLookup(binds: seq<Bind>, part: seq<Bind>, key: Key)
    ensures Lookup(WithoutKeysOf(binds, part), key) ==
            if HasKey(part, key) then None else Lookup(binds, key)
  {
    if binds != [] {
      var n := |binds| - 1;
      WithoutLookup(binds[..n], part, key);
      var kept := WithoutKeysOf(binds[..n], part);
      if HasKey(part, binds[n].key) {
        assert WithoutKeysOf(binds, part) == kept;
      } else {
        assert (kept + [binds[n]])[..|kept|] == kept;
      }
    }
  }

  lemma {:induction false} WithoutDistinct(binds: seq<Bind>, part: seq<Bind>)
    requires DistinctKeys(binds)
    ensures DistinctKeys(WithoutKeysOf(binds, part))
    ensures forall b | b in WithoutKeysOf(binds, part) :: b in binds && !HasKey(part, b.key)
  {
    if binds != [] {
      var n := |binds| - 1;
      WithoutDistinct(binds[..n], part);
      assert binds == binds[..n] + [binds[n]];
    }
  }

  lemma {:induction false} DecodedDistinct(children: seq<Option<Bind>>)
    ensures DistinctKeys(DecodeBinds(children))
  {
    if children != [] {
      var n := |children| - 1;
      DecodedDistinct(children[..n]);
      var before := DecodeBinds(children[..n]);
      if children[n].Some? && !HasKey(before, children[n].value.key) {
        forall i | 0 <= i < |before| ensures before[i].key != children[n].value.key {}
      }
    }
  }

  ghost predicate AllDistinct(sections: seq<seq<Bind>>) {
    forall i | 0 <= i < |sections| :: DistinctKeys(sections[i])
  }

  /** Overriding section by section leaves one bind per key, the one from the last section that has
      the key. */
  lemma {:induction false} LastSectionWins(binds: seq<Bind>, sections: seq<seq<Bind>>, key: Key)
    requires DistinctKeys(binds) && AllDistinct(sections)
    ensures DistinctKeys(OverrideAll(binds, sections))
    ensures Lookup(OverrideAll(binds, sections), key) ==
            if LastDefinition(sections, key).Some? then LastDefinition(sections, key)
            else Lookup(binds, key)
  {
    if sections != [] {
      var n := |sections| - 1;
      var before, part := OverrideAll(binds, sections[..n]), sections[n];
      LastSectionWins(binds, sections[..n], key);
      WithoutDistinct(before, part);
      WithoutLookup(before, part, key);
      LookupConcat(WithoutKeysOf(before, part), part, key);
      LookupFinds(part, key);
      OverrideDistinct(WithoutKeysOf(before, part), part);
    }
  }

  lemma OverrideDistinct(kept: seq<Bind>, part: seq<Bind>)
    requires DistinctKeys(kept) && DistinctKeys(part)
    requires forall b | b in kept :: !HasKey(part, b.key)
    ensures DistinctKeys(kept + part)
  {}

  // ----- From the flattened list to the configuration -----

  lemma {:induction false} DoAllLast(s: State, items: seq<Item>)
    requires items != []
    ensures DoAll(s, items) == Do(DoAll(s, items[..|items| - 1]), items[|items| - 1])
  {
    var n := |items| - 1;
    assert items == items[..n] + [items[n]];
    DoAllConcat(s, items[..n], [items[n]]);
    assert [items[n]][1..] == [];
  }

  /** Each field of the final configuration, from its own sections alone. */
  lemma {:induction false} FieldsFollowSections(s: State, items: seq<Item>)
    ensures
      var s' := DoAll(s, items);
      && s'.config.binds == OverrideAll(s.config.binds, BindSections(items))
      && s'.config.border == ApplyBorderRules(s.config.border, BorderParts(items))
      && MruIs(s', s, MruSections(items))
    decreases |items|
  {
    if items != [] {
      var n := |items| - 1;
      FieldsFollowSections(s, items[..n]);
      DoAllLast(s, items);
      var before := DoAll(s, items[..n]);
      BindsFollow(s.config.binds, before, BindSections(items[..n]), items[n]);
      MruFollow(s, before, MruSections(items[..n]), items[n]);
      BorderFollows(s.config.border, before, BorderParts(items[..n]), items[n]);
    }
  }

  lemma BindsFollow(start: seq<Bind>, before: State, a: seq<seq<Bind>>, item: Item)
    requires before.config.binds == OverrideAll(start, a)
    ensures Do(before, item).config.binds == OverrideAll(start, a + BindSection(item))
  {
    var b := a + BindSection(item);
    if BindSection(item) == [] {
      assert b == a;
    } else {
      assert b[..|b| - 1] == a;
    }
  }

  lemma BorderFollows(start: BorderStyle, before: State, a: seq<BorderRule>, item: Item)
    requires before.config.border == ApplyBorderRules(start, a)
    ensures Do(before, item).config.border == ApplyBorderRules(start, a + BorderOf(item))
  {
    var b := a + BorderOf(item);
    if BorderOf(item) == [] {
      assert b == a;
    } else {
      assert b[..|b| - 1] == a;
    }
  }

  /** The state of the window switcher's binds after these sections. */
  ghost predicate MruIs(s: State, start: State, sections: seq<seq<Bind>>) {
    && s.sawMruBinds == (start.sawMruBinds || sections != [])
    && s.config.mruBinds ==
         if sections == [] then start.config.mruBinds
         else OverrideAll(if start.sawMruBinds then start.config.mruBinds else [], sections)
  }

  lemma MruFollow(start: State, before: State, a: seq<seq<Bind>>, item: Item)
    requires MruIs(before, start, a)
    ensures MruIs(Do(before, item), start, a + MruSection(item))
  {
    var b := a + MruSection(item);
    if MruSection(item) == [] {
      assert b == a;
    } else {
      assert b[..|b| - 1] == a;
    }
  }

  lemma {:induction false} SectionsDistinct(items: seq<Item>)
    ensures AllDistinct(BindSections(items)) && AllDistinct(MruSections(items))
  {
    if items != [] {
      var n := |items| - 1;
      SectionsDistinct(items[..n]);
      if BindSection(items[n]) != [] {
        DecodedDistinct(items[n].node.children);
      }
      if MruSection(items[n]) != [] {
        DecodedDistinct(items[n].node.binds.value);
      }
    }
  }

  lemma DefaultsDistinct()
    ensures DistinctKeys(DefaultMruBinds())
  {}

  /** Reading the root file `path` of `files`: every step of the whole include tree. */
  ghost function Steps(files: Files, path: Path, nodes: seq<Node>): seq<Item> {
    Flatten(files, nodes, [path], {})
  }

  /** The final binds have one entry per key, and it is the one from the last section, anywhere in
      the include tree, that defines the key. The same holds for the window switcher's binds, which
      start from the defaults if no section sets any and from nothing otherwise. */
  lemma BindsComeFromLastSection(files: Files, path: Path, nodes: seq<Node>, border: BorderStyle,
                                 key: Key)
    ensures
      var items := Steps(files, path, nodes);
      var c := DoAll(Start(border), items).config;
      && DistinctKeys(c.binds) && DistinctKeys(c.mruBinds)
      && Lookup(c.binds, key) == LastDefinition(BindSections(items), key)
      && Lookup(c.mruBinds, key) ==
           (if MruSections(items) == [] then Lookup(DefaultMruBinds(), key)
            else LastDefinition(MruSections(items), key))
  {
    var items := Steps(files, path, nodes);
    FieldsFollowSections(Start(border), items);
    SectionsDistinct(items);
    LastSectionWins([], BindSections(items), key);
    LastSectionWins([], MruSections(items), key);
    DefaultsDistinct();
  }

  /** The border of the final configuration is the default border with the border parts of the whole
      tree applied in order; in the root file a border section without flags turns the border on, in
      an included file it leaves it as it is. */
  lemma BorderFollowsDepth(files: Files, path: Path, nodes: seq<Node>, border: BorderStyle)
    ensures DoAll(Start(border), Steps(files, path, nodes)).config.border ==
            MergeBorder(border, FoldBorderRules(BorderParts(Steps(files, path, nodes))))
    ensures forall b: BorderStyle, rule: BorderRule, depth: nat | !rule.on && !rule.off ::
              MergeBorder(b, BorderPart(rule, depth)).off == (b.off && depth > 0)
  {
    FieldsFollowSections(Start(border), Steps(files, path, nodes));
    FoldedBorderRules(border, BorderParts(Steps(files, path, nodes)));
  }

  /** `Config::parse` of the root file. */
  method Parse(files: Files, path: Path, nodes: seq<Node>, border: BorderStyle)
    returns (result: Option<Config>, includes: seq<Path>)
    ensures result.Some? <==> GoodFile(files, nodes, [path])
    ensures result.Some? ==> result.value == DoAll(Start(border), Steps(files, path, nodes)).config
    ensures includes == DoAll(Start(border), Steps(files, path, nodes)).includes
  {
    SucceedsExactly(files, nodes, [path], {});
    var parser := new Parser(border);
    var ok := parser.DecodeChildren(files, nodes, {path}, 0, [path]);
    includes := parser.includes;
    result := if ok then Some(parser.config) else None;
  }
}
