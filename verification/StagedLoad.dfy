/**
 Loading a staged tree from a root: every directory by its manifest, every child by the path
 it has from the root. A loaded tree records the identity of every node and carries no mark.
 The writer also loads what it has just materialized and compares it with what it meant.
 */
module StagedLoad {
  import opened Wrappers
  import opened Paths
  import opened PathStrings
  import opened UnixfsLayout
  import opened StagedTree

  // ----- Loading -----

  /** The labels of a hybrid map that can still name something below `p`. */
  function LongerLabels(layout: Layout, root: Cid, p: Path): set<string> {
    if layout == Rooted || !root.MapRoot? then {} else set k | k in root.bindings && |k| > |Render(p)|
  }

  /** A directory of what was loaded; nothing if any child was refused. */
  function Collect(target: Cid, loaded: map<Name, Option<Node>>): Option<Node> {
    if exists n | n in loaded :: loaded[n].None? then None
    else Some(Dir(Some(target), map n | n in loaded :: loaded[n].value, false))
  }

  /** The directory at `p`, already found to be `target`. */
  function LoadDirectory(layout: Layout, root: Cid, p: Path, target: Cid): Option<Node>
    requires Projection(layout, root, p, false) == Some(target)
    decreases LongerLabels(layout, root, p), target, 2
  {
    match ReadManifest(layout, root, p)
    case Err(_) => None
    case Ok(entries) => Collect(target, LoadChildren(layout, root, p, target, entries))
  }

  function LoadChildren(layout: Layout, root: Cid, p: Path, target: Cid, entries: map<Name, Kind>)
    : map<Name, Option<Node>>
    requires Projection(layout, root, p, false) == Some(target)
    decreases LongerLabels(layout, root, p), target, 1
  {
    map n | n in entries :: LoadChild(layout, root, p, target, n, entries[n])
  }

  /** The child `n` that a manifest declares to be of `kind`. */
  function LoadChild(layout: Layout, root: Cid, p: Path, target: Cid, n: Name, kind: Kind): Option<Node>
    requires Projection(layout, root, p, false) == Some(target)
    decreases LongerLabels(layout, root, p), target, 0
  {
    if !ValidName(n) then None
    else match ResolvePath(layout, root, p + [n])
         case Err(_) => None
         case Ok((child, found)) =>
           if found != kind then None
           else if kind == FileKind then Some(File(child, false))
           else
             ResolvedIsProjected(layout, root, p + [n]);
             ChildIsBelow(layout, root, p, target, n, child);
             LoadDirectory(layout, root, p + [n], child)
  }

  function Load(layout: Layout, root: Cid): Option<Node> {
    LoadDirectory(layout, root, [], root)
  }

  lemma {:induction false} ResolvedFromIsProjected(layout: Layout, root: Cid, p: Path, index: nat)
    requires index < |p| && ResolveFrom(layout, root, p, index).Ok?
    ensures Projection(layout, root, p, false) == Some(ResolveFrom(layout, root, p, index).value.0)
    decreases |p| - index
  {
    if index == |p| - 1 {
      assert p[..index + 1] == p;
    } else {
      ResolvedFromIsProjected(layout, root, p, index + 1);
    }
  }

  /** A resolved path ends where its projection leads. */
  lemma ResolvedIsProjected(layout: Layout, root: Cid, p: Path)
    requires ResolvePath(layout, root, p).Ok?
    ensures Projection(layout, root, p, false) == Some(ResolvePath(layout, root, p).value.0)
  {
    if p != [] {
      ResolvedFromIsProjected(layout, root, p, 0);
    }
  }

  lemma {:induction false} RenderGrows(p: Path, n: Name)
    requires n != ""
    ensures |Render(p)| < |Render(p + [n])|
    decreases p
  {
    if p != [] {
      RenderGrows(p[1..], n);
      assert (p + [n])[1..] == p[1..] + [n];
    }
  }

  /** Loading goes down: a child leaves fewer labels, or is bound inside its parent. */
  lemma ChildIsBelow(layout: Layout, root: Cid, p: Path, target: Cid, n: Name, child: Cid)
    requires ValidName(n) && Projection(layout, root, p, false) == Some(target)
    requires Projection(layout, root, p + [n], false) == Some(child)
    ensures LongerLabels(layout, root, p + [n]) < LongerLabels(layout, root, p) ||
            (LongerLabels(layout, root, p + [n]) == LongerLabels(layout, root, p) &&
             target.MapRoot? && n in target.bindings && child == target.bindings[n])
  {
    assert forall q: Path :: Steps(layout, q) + [] == Steps(layout, q);
    if layout == Rooted {
      ResolveStepsAppend(root, p, [n]);
      assert [n][1..] == [];
    } else {
      RenderGrows(p, n);
      assert Render(p + [n]) in root.bindings;
      assert Render(p + [n]) in LongerLabels(layout, root, p) - LongerLabels(layout, root, p + [n]);
    }
  }

  // ----- Loading a compiled tree gives that tree -----

  /** The tree with every identity recorded and no mark. */
  function Unmarked(layout: Layout, node: Node): (r: Node)
    ensures r.Kind() == node.Kind()
    decreases node
  {
    if node.File? then File(node.fileKey, false)
    else Dir(Some(Root(layout, node)), map n | n in node.children :: Unmarked(layout, node.children[n]), false)
  }

  lemma ReadsDirectory(layout: Layout, node: Node, p: Path, at: Node)
    requires WellNamed(node) && node.Dir? && Find(node, p) == Ok(at) && at.Dir?
    ensures Projection(layout, Root(layout, node), p, false) == Some(Root(layout, at))
    ensures ReadManifest(layout, Root(layout, node), p) == Ok(Entries(at.children))
  {
    RootIsFaithful(layout, node);
  }

  lemma ChildLoads(layout: Layout, node: Node, p: Path, at: Node, n: Name)
    requires WellNamed(node) && node.Dir? && Find(node, p) == Ok(at) && at.Dir? && n in at.children
    requires at.children[n].Dir? ==>
               && Projection(layout, Root(layout, node), p + [n], false) == Some(Root(layout, at.children[n]))
               && LoadDirectory(layout, Root(layout, node), p + [n], Root(layout, at.children[n])) ==
                  Some(Unmarked(layout, at.children[n]))
    ensures Projection(layout, Root(layout, node), p, false) == Some(Root(layout, at))
    ensures LoadChild(layout, Root(layout, node), p, Root(layout, at), n, at.children[n].Kind()) ==
            Some(Unmarked(layout, at.children[n]))
  {
    ReadsDirectory(layout, node, p, at);
    FindNext(node, p, n);
    FindWellNamed(node, p + [n]);
    ReadsBack(layout, node, p + [n]);
  }

  lemma Collected(target: Cid, loaded: map<Name, Option<Node>>, children: map<Name, Node>)
    requires loaded.Keys == children.Keys && forall n | n in children :: loaded[n] == Some(children[n])
    ensures Collect(target, loaded) == Some(Dir(Some(target), children, false))
  {
    assert forall n | n in loaded :: n in children && loaded[n].Some?;
    assert (map n | n in loaded :: loaded[n].value) == children;
  }

  lemma {:induction false} DirectoryLoads(layout: Layout, node: Node, p: Path, at: Node)
    requires WellNamed(node) && node.Dir? && Find(node, p) == Ok(at) && at.Dir?
    ensures Projection(layout, Root(layout, node), p, false) == Some(Root(layout, at))
    ensures LoadDirectory(layout, Root(layout, node), p, Root(layout, at)) == Some(Unmarked(layout, at))
    decreases at
  {
    var root, target := Root(layout, node), Root(layout, at);
    ReadsDirectory(layout, node, p, at);
    var loaded := LoadChildren(layout, root, p, target, Entries(at.children));
    forall n | n in at.children ensures loaded[n] == Some(Unmarked(layout, at.children[n])) {
      if at.children[n].Dir? {
        FindNext(node, p, n);
        DirectoryLoads(layout, node, p + [n], at.children[n]);
      }
      ChildLoads(layout, node, p, at, n);
    }
    Collected(target, loaded, Unmarked(layout, at).children);
  }

  /** For every tree: loading the root it compiles to gives it back, unmarked and with its identities. */
  lemma LoadsBack(layout: Layout, node: Node)
    requires WellNamed(node) && node.Dir?
    ensures Load(layout, Root(layout, node)) == Some(Unmarked(layout, node))
  {
    DirectoryLoads(layout, node, [], node);
  }

  lemma {:induction false} UnmarkedIsLoaded(layout: Layout, node: Node)
    ensures Alike(layout, Unmarked(layout, node), node) && Loaded(layout, Unmarked(layout, node))
    decreases node
  {
    if node.Dir? {
      var unmarked := Unmarked(layout, node);
      forall n | n in node.children
        ensures Alike(layout, unmarked.children[n], node.children[n]) && Loaded(layout, unmarked.children[n])
      {
        UnmarkedIsLoaded(layout, node.children[n]);
      }
      AlikeChildren(layout, unmarked, node);
    }
  }

  lemma {:induction false} UnmarkedLooks(layout: Layout, node: Node, p: Path)
    ensures Look(Find(Unmarked(layout, node), p)) == Look(Find(node, p))
    decreases p
  {
    if p != [] && node.Dir? && p[0] in node.children {
      UnmarkedLooks(layout, node.children[p[0]], p[1..]);
    }
  }

  /**
   Whole sessions from a root: load it, edit and save in any order and number. The load gives
   the tree the root was compiled from, and every save gives the root of a full compilation.
   */
  lemma LoadedSession(layout: Layout, node: Node, actions: seq<Action>, p: Path)
    requires WellNamed(node) && node.Dir? && SoundOverlays(layout, actions)
    ensures Load(layout, Root(layout, node)).Some? && Load(layout, Root(layout, node)).value.Dir?
    ensures var start := Load(layout, Root(layout, node)).value;
            && Look(Find(start, p)) == Look(Find(node, p)) && FastRoot(layout, start) == Root(layout, node)
            && var end := Session(layout, start, actions);
               && FastRoot(layout, end) == Root(layout, end)
               && (WellNamed(end) ==> ResolvePath(layout, FastRoot(layout, end), p) == Meaning(layout, Find(end, p)))
  {
    LoadsBack(layout, node);
    UnmarkedIsLoaded(layout, node);
    UnmarkedLooks(layout, node, p);
    SessionReadsBack(layout, Unmarked(layout, node), actions, p);
  }

  // ----- Whatever loads is exactly what reading says -----

  function Key(node: Node): Option<Cid> {
    if node.File? then Some(node.fileKey) else node.key
  }

  /** The directory at `p` was loaded as `at`. */
  ghost predicate LoadedAs(layout: Layout, root: Cid, p: Path, at: Node) {
    && at.Dir? && at.key.Some? && Projection(layout, root, p, false) == at.key
    && LoadDirectory(layout, root, p, at.key.value) == Some(at)
  }

  lemma LoadedKind(layout: Layout, root: Cid, p: Path, target: Cid, n: Name, kind: Kind)
    requires Projection(layout, root, p, false) == Some(target)
    requires LoadChild(layout, root, p, target, n, kind).Some?
    ensures LoadChild(layout, root, p, target, n, kind).value.Kind() == kind
  {}

  /** What was collected is what every child was loaded as. */
  lemma CollectedFrom(target: Cid, loaded: map<Name, Option<Node>>)
    requires Collect(target, loaded).Some?
    ensures var node := Collect(target, loaded).value;
            && node.Dir? && node.key == Some(target) && node.children.Keys == loaded.Keys
            && forall n | n in loaded :: loaded[n] == Some(node.children[n])
  {}

  lemma LoadedEntry(layout: Layout, root: Cid, p: Path, target: Cid, entries: map<Name, Kind>, at: Node, n: Name)
    requires Projection(layout, root, p, false) == Some(target) && n in entries
    requires Collect(target, LoadChildren(layout, root, p, target, entries)) == Some(at)
    ensures at.Dir? && n in at.children && entries[n] == at.children[n].Kind()
    ensures LoadChild(layout, root, p, target, n, entries[n]) == Some(at.children[n])
  {
    CollectedFrom(target, LoadChildren(layout, root, p, target, entries));
    LoadedKind(layout, root, p, target, n, entries[n]);
  }

  lemma LoadedManifest(layout: Layout, root: Cid, p: Path, at: Node)
    requires LoadedAs(layout, root, p, at)
    ensures ReadManifest(layout, root, p) == Ok(Entries(at.children))
  {
    var entries, target := ReadManifest(layout, root, p).value, at.key.value;
    CollectedFrom(target, LoadChildren(layout, root, p, target, entries));
    forall n | n in entries ensures n in at.children && entries[n] == at.children[n].Kind() {
      LoadedEntry(layout, root, p, target, entries, at, n);
    }
    assert entries == Entries(at.children);
  }

  lemma LoadedChild(layout: Layout, root: Cid, p: Path, at: Node, n: Name)
    requires LoadedAs(layout, root, p, at) && n in at.children
    ensures var child := at.children[n];
            && Key(child).Some? && ResolvePath(layout, root, p + [n]) == Ok((Key(child).value, child.Kind()))
            && Projection(layout, root, p + [n], false) == Key(child)
            && (child.Dir? ==> LoadedAs(layout, root, p + [n], child))
  {
    LoadedManifest(layout, root, p, at);
    LoadedEntry(layout, root, p, at.key.value, Entries(at.children), at, n);
    ResolvedIsProjected(layout, root, p + [n]);
  }

  /** What a path of a loaded tree stands for: its recorded identity and kind, or why there is none. */
  function Standing(found: Result<Node, Error>): Result<(Option<Cid>, Kind), Error> {
    if found.Err? then Err(found.error) else Ok((Key(found.value), found.value.Kind()))
  }

  function Answered(found: Result<(Cid, Kind), Error>): Result<(Option<Cid>, Kind), Error> {
    if found.Err? then Err(found.error) else Ok((Some(found.value.0), found.value.1))
  }

  lemma {:induction false} LoadedResolves(layout: Layout, root: Cid, node: Node, p: Path, index: nat, at: Node)
    requires index < |p| && Find(node, p[..index]) == Ok(at) && LoadedAs(layout, root, p[..index], at)
    ensures Answered(ResolveFrom(layout, root, p, index)) == Standing(Find(node, p))
    decreases |p| - index
  {
    var next, n := p[..index + 1], p[index];
    LoadedManifest(layout, root, p[..index], at);
    FindNext(node, p[..index], n);
    SplitAt(p, index);
    if n !in at.children {
      FindStops(node, next, p[index + 1..]);
    } else {
      LoadedChild(layout, root, p[..index], at, n);
      if index == |p| - 1 {
        assert next == p;
      } else if at.children[n].File? {
        FindBelowFile(node, next, p);
      } else {
        LoadedResolves(layout, root, node, p, index + 1, at.children[n]);
      }
    }
  }

  /**
   For every root, compiled by this client or not: if it loads, the loaded tree has at every
   path exactly the identity and kind that reading the path gives, and the same failure where
   reading fails.
   */
  lemma LoadIsExact(layout: Layout, root: Cid, p: Path)
    requires Load(layout, root).Some?
    ensures Standing(Find(Load(layout, root).value, p)) == Answered(ResolvePath(layout, root, p))
  {
    var node := Load(layout, root).value;
    var manifest := ReadManifest(layout, root, []);
    CollectedFrom(root, LoadChildren(layout, root, [], root, manifest.value));
    if p != [] {
      assert p[..0] == [];
      LoadedResolves(layout, root, node, p, 0, node);
    }
  }

  // ----- Loading, step by step -----

  /** What loading the children leaves no directory of. */
  lemma RefusedChild(target: Cid, loaded: map<Name, Option<Node>>, n: Name)
    requires n in loaded && loaded[n].None?
    ensures Collect(target, loaded) == None
  {}

  method LoadTree(layout: Layout, root: Cid, p: Path, target: Cid) returns (r: Option<Node>)
    requires Projection(layout, root, p, false) == Some(target)
    ensures r == LoadDirectory(layout, root, p, target)
    decreases LongerLabels(layout, root, p), target, 1
  {
    var manifest := ReadManifest(layout, root, p);
    if manifest.Err? {
      return None;
    }
    var entries, children, rest := manifest.value, map[], manifest.value.Keys;
    ghost var loaded := LoadChildren(layout, root, p, target, entries);
    while rest != {}
      invariant rest <= entries.Keys && children.Keys == entries.Keys - rest
      invariant forall n | n in children :: loaded[n] == Some(children[n])
      decreases rest
    {
      var n :| n in rest;
      var child := LoadEntry(layout, root, p, target, n, entries[n]);
      if child.None? {
        RefusedChild(target, loaded, n);
        return None;
      }
      children, rest := children[n := child.value], rest - {n};
    }
    Collected(target, loaded, children);
    return Some(Dir(Some(target), children, false));
  }

  method LoadEntry(layout: Layout, root: Cid, p: Path, target: Cid, n: Name, kind: Kind) returns (r: Option<Node>)
    requires Projection(layout, root, p, false) == Some(target)
    ensures r == LoadChild(layout, root, p, target, n, kind)
    decreases LongerLabels(layout, root, p), target, 0
  {
    if !ValidName(n) {
      return None;
    }
    var stat := ResolvePath(layout, root, p + [n]);
    if stat.Err? || stat.value.1 != kind {
      return None;
    }
    if kind == FileKind {
      return Some(File(stat.value.0, false));
    }
    ResolvedIsProjected(layout, root, p + [n]);
    ChildIsBelow(layout, root, p, target, n, stat.value.0);
    r := LoadTree(layout, root, p + [n], stat.value.0);
  }

  // ----- Checking a candidate -----

  /** The comparison of a loaded candidate with the tree it was materialized from. */
  predicate Matches(projected: Node, expected: Node)
    decreases expected
  {
    && projected.Kind() == expected.Kind() && Key(projected) == Key(expected)
    && (expected.Dir? ==>
          && projected.children.Keys == expected.children.Keys
          && forall n | n in expected.children :: Matches(projected.children[n], expected.children[n]))
  }

  lemma {:induction false} UnmarkedMatches(layout: Layout, node: Node)
    requires Sound(layout, node)
    ensures Matches(Unmarked(layout, node), Settled(layout, node))
    decreases node
  {
    ShortcutIsExact(layout, node);
    if node.Dir? {
      forall n | n in node.children
        ensures Matches(Unmarked(layout, node).children[n], Settled(layout, node).children[n])
      {
        UnmarkedMatches(layout, node.children[n]);
      }
    }
  }

  /** A candidate materialized by the shortcut always passes. */
  lemma CandidateMatches(layout: Layout, node: Node)
    requires WellNamed(node) && node.Dir? && Sound(layout, node)
    ensures Load(layout, FastRoot(layout, node)).Some?
    ensures Matches(Load(layout, FastRoot(layout, node)).value, Settled(layout, node))
  {
    ShortcutIsExact(layout, node);
    LoadsBack(layout, node);
    UnmarkedMatches(layout, node);
  }

  lemma {:induction false} MatchesLooks(projected: Node, expected: Node, p: Path)
    requires Matches(projected, expected)
    ensures Look(Find(projected, p)) == Look(Find(expected, p))
    decreases p
  {
    if p != [] && expected.Dir? && p[0] in expected.children {
      MatchesLooks(projected.children[p[0]], expected.children[p[0]], p[1..]);
    }
  }
}
