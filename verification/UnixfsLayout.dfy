/**
 UnixFS directories as authenticated maps. A staged tree is compiled bottom-up: every
 directory becomes a map from labels to targets, with its manifest under a reserved label.
 The rooted layout binds only the immediate children; the hybrid layout also binds every
 deeper path, as one slash-separated label. Reading goes back by path, checking at each
 directory what its manifest declares.
 */
module UnixfsLayout {
  import opened Wrappers
  import opened Paths
  import opened PathStrings

  const PAYLOAD: string := "@payload"

  datatype Layout = Hybrid | Rooted

  /** Content identities, ideal: an identity is what it identifies. A map root keeps the
      descriptor (commitment backend and profile) it was created with. */
  datatype Cid =
    | Body(id: nat)
    | Manifest(entries: map<Name, Kind>)
    | MapRoot(descriptor: nat, bindings: map<string, Cid>)

  /** A staged node. `key` is the identity a directory was last materialized as, if ever. */
  datatype Node =
    | File(fileKey: Cid, changed: bool)
    | Dir(key: Option<Cid>, children: map<Name, Node>, changed: bool)
  {
    function Kind(): Kind { if Dir? then DirKind else FileKind }
  }

  predicate WellNamed(node: Node)
    decreases node
  {
    node.File? ||
    forall n | n in node.children :: ValidName(n) && n != PAYLOAD && WellNamed(node.children[n])
  }

  // ----- Compiling -----

  /** An already materialized child. */
  datatype Child = Child(directory: bool, root: Cid, descendants: map<string, Cid>)

  predicate ValidNames(children: map<Name, Child>) {
    forall n | n in children :: ValidName(n)
  }

  function DeepLabels(children: map<Name, Child>): set<string> {
    set n, l | n in children && children[n].directory && l in children[n].descendants :: n + "/" + l
  }

  lemma DeepLabelParts(n: Name, l: string)
    requires ValidName(n)
    ensures Cut(n + "/" + l) == n && (n + "/" + l)[|n| + 1..] == l && '/' in n + "/" + l
  {
    CutStops(n, "/" + l);
    assert n + ("/" + l) == n + "/" + l;
    assert (n + "/" + l)[|n|] == '/';
  }

  predicate IsDeep(children: map<Name, Child>, k: string) {
    && Cut(k) in children && children[Cut(k)].directory && |k| > |Cut(k)|
    && k == Cut(k) + "/" + k[|Cut(k)| + 1..]
    && k[|Cut(k)| + 1..] in children[Cut(k)].descendants
  }

  function Deep(children: map<Name, Child>): map<string, Cid> {
    map k | k in DeepLabels(children) && IsDeep(children, k) :: children[Cut(k)].descendants[k[|Cut(k)| + 1..]]
  }

  /** The labels and targets a directory map holds beside its manifest. */
  function Project(layout: Layout, children: map<Name, Child>): map<string, Cid> {
    var direct := map n | n in children :: children[n].root;
    if layout == Rooted then direct else direct + Deep(children)
  }

  function Descriptor(key: Option<Cid>): nat {
    if key.Some? && key.value.MapRoot? then key.value.descriptor else 0
  }

  function Entries(children: map<Name, Node>): map<Name, Kind> {
    map n | n in children :: children[n].Kind()
  }

  function Views(layout: Layout, node: Node): map<Name, Child>
    requires node.Dir?
    decreases node, 0
  {
    map n | n in node.children ::
      Child(node.children[n].Dir?, Root(layout, node.children[n]), Descendants(layout, node.children[n]))
  }

  function Descendants(layout: Layout, node: Node): map<string, Cid>
    decreases node, 1
  {
    if node.File? then map[] else Project(Hybrid, Views(layout, node))
  }

  function Bindings(layout: Layout, node: Node): map<string, Cid>
    requires node.Dir?
    decreases node, 1
  {
    map[PAYLOAD := Manifest(Entries(node.children))] + Project(layout, Views(layout, node))
  }

  /** The identity of a node when everything below it is materialized anew. */
  function Root(layout: Layout, node: Node): Cid
    decreases node, 2
  {
    if node.File? then node.fileKey else MapRoot(Descriptor(node.key), Bindings(layout, node))
  }

  // ----- Reading -----

  function ResolveSteps(c: Cid, steps: seq<string>): Option<Cid>
    decreases steps
  {
    if steps == [] then Some(c)
    else if c.MapRoot? && steps[0] in c.bindings then ResolveSteps(c.bindings[steps[0]], steps[1..])
    else None
  }

  function Steps(layout: Layout, segments: Path): seq<string> {
    if layout == Rooted then segments
    else if segments == [] then []
    else [Render(segments)]
  }

  function Projection(layout: Layout, root: Cid, segments: Path, payload: bool): Option<Cid> {
    ResolveSteps(root, Steps(layout, segments) + if payload then [PAYLOAD] else [])
  }

  function ReadManifest(layout: Layout, root: Cid, segments: Path): Result<map<Name, Kind>, Error> {
    match Projection(layout, root, segments, false)
    case None => Err(NotFound)
    case Some(Manifest(entries)) => Ok(entries)
    case Some(Body(_)) => Err(Invalid)
    case Some(MapRoot(_, _)) =>
      match Projection(layout, root, segments, true)
      case Some(Manifest(entries)) => Ok(entries)
      case Some(_) => Err(Invalid)
      case None => Err(NotFound)
  }

  /** Resolves `segments` from its first `index` on, all before that being directories. */
  function ResolveFrom(layout: Layout, root: Cid, segments: Path, index: nat): Result<(Cid, Kind), Error>
    requires index < |segments|
    decreases |segments| - index
  {
    match ReadManifest(layout, root, segments[..index])
    case Err(e) => Err(e)
    case Ok(entries) =>
      if segments[index] !in entries then Err(NotFound)
      else match Projection(layout, root, segments[..index + 1], false)
           case None => Err(NotFound)
           case Some(target) =>
             var kind := entries[segments[index]];
             if index == |segments| - 1 then Ok((target, kind))
             else if kind == FileKind then Err(NotDirectory)
             else ResolveFrom(layout, root, segments, index + 1)
  }

  function ResolvePath(layout: Layout, root: Cid, segments: Path): Result<(Cid, Kind), Error> {
    if segments == [] then Ok((root, DirKind)) else ResolveFrom(layout, root, segments, 0)
  }

  // ----- What the path means -----

  function Find(node: Node, p: Path): Result<Node, Error>
    decreases p
  {
    if p == [] then Ok(node)
    else if node.File? then Err(NotDirectory)
    else if p[0] !in node.children then Err(NotFound)
    else Find(node.children[p[0]], p[1..])
  }

  function FindChild(at: Node, n: Name): Result<Node, Error> {
    if at.File? then Err(NotDirectory) else if n !in at.children then Err(NotFound) else Ok(at.children[n])
  }

  /** What reading should answer for a path: its target and kind, or why there is none. */
  function Meaning(layout: Layout, found: Result<Node, Error>): Result<(Cid, Kind), Error> {
    if found.Err? then Err(found.error) else Ok((Root(layout, found.value), found.value.Kind()))
  }

  lemma {:induction false} FindNext(node: Node, p: Path, n: Name)
    requires Find(node, p).Ok?
    ensures Find(node, p + [n]) == FindChild(Find(node, p).value, n)
    decreases p
  {
    if p == [] {
      assert p + [n] == [n] && [n][1..] == [];
    } else {
      FindNext(node.children[p[0]], p[1..], n);
      assert (p + [n])[1..] == p[1..] + [n];
    }
  }

  lemma {:induction false} FindStops(node: Node, p: Path, rest: Path)
    requires Find(node, p).Err?
    ensures Find(node, p + rest) == Find(node, p)
    decreases p
  {
    if node.Dir? && p[0] in node.children {
      FindStops(node.children[p[0]], p[1..], rest);
      assert (p + rest)[1..] == p[1..] + rest;
    }
  }

  lemma {:induction false} FindWellNamed(node: Node, p: Path)
    requires WellNamed(node) && Find(node, p).Ok?
    ensures WellNamed(Find(node, p).value) && Canonical(p)
    decreases p
  {
    if p != [] {
      FindWellNamed(node.children[p[0]], p[1..]);
      assert p == [p[0]] + p[1..];
    }
  }

  // ----- Reading gives back what was compiled -----

  lemma ViewsAreNamed(layout: Layout, node: Node)
    requires WellNamed(node) && node.Dir?
    ensures ValidNames(Views(layout, node)) && PAYLOAD !in Views(layout, node)
  {}

  lemma DirectBinding(layout: Layout, children: map<Name, Child>, n: Name)
    requires ValidNames(children) && n in children
    ensures n in Project(layout, children) && Project(layout, children)[n] == children[n].root
  {
    forall m, l | ValidName(m) ensures n != m + "/" + l {
      DeepLabelParts(m, l);
    }
  }

  lemma DeepBinding(children: map<Name, Child>, n: Name, l: string)
    requires ValidNames(children) && n in children && children[n].directory && l in children[n].descendants
    ensures n + "/" + l in Project(Hybrid, children)
    ensures Project(Hybrid, children)[n + "/" + l] == children[n].descendants[l]
  {
    var k := n + "/" + l;
    DeepLabelParts(n, l);
    assert k in DeepLabels(children) && IsDeep(children, k);
  }

  lemma PayloadIsReserved(layout: Layout, children: map<Name, Child>)
    requires ValidNames(children) && PAYLOAD !in children
    ensures PAYLOAD !in Project(layout, children)
  {
    forall m, l | ValidName(m) ensures PAYLOAD != m + "/" + l {
      DeepLabelParts(m, l);
    }
  }

  /** In a hybrid map the label of every path below the directory leads straight to its target. */
  lemma {:induction false} PathLabel(layout: Layout, node: Node, p: Path)
    requires WellNamed(node) && node.Dir? && p != [] && Find(node, p).Ok?
    ensures Render(p) in Descendants(layout, node)
    ensures Descendants(layout, node)[Render(p)] == Root(layout, Find(node, p).value)
    decreases p
  {
    var views, n := Views(layout, node), p[0];
    ViewsAreNamed(layout, node);
    if |p| == 1 {
      DirectBinding(Hybrid, views, n);
      assert p[1..] == [];
    } else {
      assert Find(node.children[n], p[1..]).Ok?;
      PathLabel(layout, node.children[n], p[1..]);
      DeepBinding(views, n, Render(p[1..]));
    }
  }

  lemma OneStep(descriptor: nat, bindings: map<string, Cid>, k: string)
    requires k in bindings
    ensures ResolveSteps(MapRoot(descriptor, bindings), [k]) == Some(bindings[k])
  {
    assert [k][1..] == [];
  }

  lemma HasPayload(layout: Layout, node: Node)
    requires WellNamed(node) && node.Dir?
    ensures ResolveSteps(Root(layout, node), [PAYLOAD]) == Some(Manifest(Entries(node.children)))
  {
    ViewsAreNamed(layout, node);
    PayloadIsReserved(layout, Views(layout, node));
    OneStep(Descriptor(node.key), Bindings(layout, node), PAYLOAD);
  }

  lemma {:induction false} ResolveStepsAppend(c: Cid, first: seq<string>, second: seq<string>)
    requires ResolveSteps(c, first).Some?
    ensures ResolveSteps(c, first + second) == ResolveSteps(ResolveSteps(c, first).value, second)
    decreases first
  {
    if first == [] {
      assert first + second == second;
    } else {
      ResolveStepsAppend(c.bindings[first[0]], first[1..], second);
      assert (first + second)[1..] == first[1..] + second;
    }
  }

  lemma {:induction false} RootedSteps(node: Node, p: Path)
    requires WellNamed(node) && Find(node, p).Ok?
    ensures ResolveSteps(Root(Rooted, node), p) == Some(Root(Rooted, Find(node, p).value))
    decreases p
  {
    if p != [] {
      ViewsAreNamed(Rooted, node);
      DirectBinding(Rooted, Views(Rooted, node), p[0]);
      RootedSteps(node.children[p[0]], p[1..]);
    }
  }

  lemma HybridStep(node: Node, p: Path)
    requires WellNamed(node) && node.Dir? && p != [] && Find(node, p).Ok?
    ensures ResolveSteps(Root(Hybrid, node), [Render(p)]) == Some(Root(Hybrid, Find(node, p).value))
  {
    PathLabel(Hybrid, node, p);
    OneStep(Descriptor(node.key), Bindings(Hybrid, node), Render(p));
  }

  lemma ProjectionFinds(layout: Layout, node: Node, p: Path)
    requires WellNamed(node) && node.Dir? && Find(node, p).Ok?
    ensures ResolveSteps(Root(layout, node), Steps(layout, p)) == Some(Root(layout, Find(node, p).value))
  {
    if layout == Rooted {
      RootedSteps(node, p);
    } else if p != [] {
      HybridStep(node, p);
    }
  }

  lemma ManifestAt(layout: Layout, root: Cid, at: Node, p: Path)
    requires ResolveSteps(root, Steps(layout, p)) == Some(Root(layout, at)) && at.Dir?
    requires ResolveSteps(Root(layout, at), [PAYLOAD]) == Some(Manifest(Entries(at.children)))
    ensures ReadManifest(layout, root, p) == Ok(Entries(at.children))
  {
    assert Steps(layout, p) + [] == Steps(layout, p);
    ResolveStepsAppend(root, Steps(layout, p), [PAYLOAD]);
  }

  /** `root` leads every existing path of `node` to its target, and directories to their manifest. */
  ghost predicate Faithful(layout: Layout, root: Cid, node: Node) {
    forall p | Find(node, p).Ok? ::
      && Projection(layout, root, p, false) == Some(Root(layout, Find(node, p).value))
      && (Find(node, p).value.Dir? ==> ReadManifest(layout, root, p) == Ok(Entries(Find(node, p).value.children)))
  }

  lemma RootIsFaithful(layout: Layout, node: Node)
    requires WellNamed(node) && node.Dir?
    ensures Faithful(layout, Root(layout, node), node)
  {
    var root := Root(layout, node);
    forall p | Find(node, p).Ok?
      ensures Projection(layout, root, p, false) == Some(Root(layout, Find(node, p).value))
      ensures Find(node, p).value.Dir? ==> ReadManifest(layout, root, p) == Ok(Entries(Find(node, p).value.children))
    {
      ProjectionFinds(layout, node, p);
      FindWellNamed(node, p);
      FaithfulAt(layout, root, Find(node, p).value, p);
    }
  }

  lemma FaithfulAt(layout: Layout, root: Cid, at: Node, p: Path)
    requires WellNamed(at) && ResolveSteps(root, Steps(layout, p)) == Some(Root(layout, at))
    ensures Projection(layout, root, p, false) == Some(Root(layout, at))
    ensures at.Dir? ==> ReadManifest(layout, root, p) == Ok(Entries(at.children))
  {
    assert Steps(layout, p) + [] == Steps(layout, p);
    if at.Dir? {
      HasPayload(layout, at);
      ManifestAt(layout, root, at, p);
    }
  }

  lemma SplitAt(p: Path, index: nat)
    requires index < |p|
    ensures p[..index] + [p[index]] == p[..index + 1] && p[..index + 1] + p[index + 1..] == p
  {}

  lemma {:induction false} ResolveFromFinds(layout: Layout, root: Cid, node: Node, p: Path, index: nat)
    requires Faithful(layout, root, node) && index < |p|
    requires Find(node, p[..index]).Ok? && Find(node, p[..index]).value.Dir?
    ensures ResolveFrom(layout, root, p, index) == Meaning(layout, Find(node, p))
    decreases |p| - index
  {
    var at := Find(node, p[..index]).value;
    var next := p[..index + 1];
    FindNext(node, p[..index], p[index]);
    SplitAt(p, index);
    if p[index] !in at.children {
      FindStops(node, next, p[index + 1..]);
    } else if index == |p| - 1 {
      assert next == p;
    } else if at.children[p[index]].File? {
      FindBelowFile(node, next, p);
    } else {
      ResolveFromFinds(layout, root, node, p, index + 1);
    }
  }

  lemma FindBelowFile(node: Node, file: Path, p: Path)
    requires file < p && Find(node, file).Ok? && Find(node, file).value.File?
    ensures Find(node, p) == Err(NotDirectory)
  {
    var k := |file|;
    FindNext(node, file, p[k]);
    assert p == (file + [p[k]]) + p[k + 1..];
    FindStops(node, file + [p[k]], p[k + 1..]);
  }

  /**
   For every tree and every path, compiling and then reading gives the path's kind and target,
   and the right failure for every other path, whichever layout is used.
   */
  lemma ReadsBack(layout: Layout, node: Node, p: Path)
    requires WellNamed(node) && node.Dir?
    ensures ResolvePath(layout, Root(layout, node), p) == Meaning(layout, Find(node, p))
  {
    if p != [] {
      assert p[..0] == [];
      RootIsFaithful(layout, node);
      ResolveFromFinds(layout, Root(layout, node), node, p, 0);
    }
  }

  /** So the two layouts have the same meaning: same files, same kinds, same failures. */
  lemma LayoutsAgree(node: Node, p: Path)
    requires WellNamed(node) && node.Dir?
    ensures var h, r := ResolvePath(Hybrid, Root(Hybrid, node), p), ResolvePath(Rooted, Root(Rooted, node), p);
            && (h.Err? ==> h == r)
            && (h.Ok? ==> r.Ok? && h.value.1 == r.value.1 && (h.value.1 == FileKind ==> h.value.0 == r.value.0))
  {
    ReadsBack(Hybrid, node, p);
    ReadsBack(Rooted, node, p);
  }
}
