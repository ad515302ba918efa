/**
 Editing a staged UnixFS tree and materializing it again. Edits mark what they touch; a
 directory that carries no mark is not compiled anew, its old identity is reused. The
 theorems say that the marks are enough for that shortcut to be exact.
 */
module StagedTree {
  import opened Wrappers
  import opened Paths
  import opened PathStrings
  import opened UnixfsLayout

  const NEW_DIRECTORY := Dir(None, map[], true)

  // ----- Edits -----

  /** The child to go on with on the way to a path; anything but a directory is replaced. */
  function Step(cur: Node, n: Name): Node
    requires cur.Dir?
  {
    if n in cur.children && cur.children[n].Dir? then cur.children[n] else NEW_DIRECTORY
  }

  function WithChild(cur: Node, n: Name, child: Node): Node
    requires cur.Dir?
  {
    Dir(cur.key, cur.children[n := child], true)
  }

  function Mark(root: Node): Node
    requires root.Dir?
  {
    Dir(root.key, root.children, true)
  }

  function EnsureAt(cur: Node, p: Path): Node
    requires cur.Dir?
    decreases p
  {
    if p == [] then cur else WithChild(cur, p[0], EnsureAt(Step(cur, p[0]), p[1..]))
  }

  /** Makes `p` a directory. The root is always marked. */
  function EnsureDirectory(root: Node, p: Path): Node
    requires root.Dir?
  {
    EnsureAt(Mark(root), p)
  }

  function SetFileAt(cur: Node, p: Path, key: Cid): Node
    requires cur.Dir? && p != []
    decreases p
  {
    if |p| > 1 then WithChild(cur, p[0], SetFileAt(Step(cur, p[0]), p[1..], key))
    else if p[0] in cur.children && cur.children[p[0]].File? && cur.children[p[0]].fileKey == key then cur
    else WithChild(cur, p[0], File(key, true))
  }

  function SetFile(root: Node, p: Path, key: Cid): Result<Node, Error>
    requires root.Dir?
  {
    if p == [] then Err(Invalid) else Ok(SetFileAt(Mark(root), p, key))
  }

  function RemovePath(cur: Node, p: Path): Result<Node, Error>
    requires cur.Dir?
    decreases p
  {
    if p == [] then Err(Invalid)
    else if p[0] !in cur.children then Err(NotFound)
    else if |p| == 1 then Ok(Dir(cur.key, cur.children - {p[0]}, true))
    else if cur.children[p[0]].File? then Err(NotDirectory)
    else match RemovePath(cur.children[p[0]], p[1..])
         case Err(e) => Err(e)
         case Ok(child) => Ok(WithChild(cur, p[0], child))
  }

  /** Overlays `staged` on `existing`; also says whether `existing` was replaced outright. */
  function Merge(existing: Node, staged: Node): (Node, bool)
    decreases staged
  {
    if staged.File? then
      if existing.File? && existing.fileKey == staged.fileKey then (existing, false) else (staged, true)
    else if existing.File? then (staged, true)
    else
      var merged := map n | n in staged.children ::
        if n in existing.children then Merge(existing.children[n], staged.children[n]) else (staged.children[n], true);
      (Dir(existing.key,
           existing.children + map n | n in staged.children :: merged[n].0,
           existing.changed || exists n | n in staged.children :: merged[n].1 || merged[n].0.changed),
       false)
  }

  // ----- Marks -----

  /** A directory without a mark is still what its recorded identity says. */
  predicate Sound(layout: Layout, node: Node)
    decreases node
  {
    node.File? ||
    (&& (forall n | n in node.children :: Sound(layout, node.children[n]))
     && (!node.changed && node.key.Some? ==> node.key.value == Root(layout, node)))
  }

  /** A marked node has marked ancestors. */
  predicate MarksReachUp(node: Node)
    decreases node
  {
    node.File? ||
    forall n | n in node.children :: MarksReachUp(node.children[n]) && (node.children[n].changed ==> node.changed)
  }

  /** A tree as it is loaded from a root: every identity recorded, nothing marked. */
  predicate Loaded(layout: Layout, node: Node)
    decreases node
  {
    && !node.changed
    && (node.File? || (node.key == Some(Root(layout, node)) &&
                       forall n | n in node.children :: Loaded(layout, node.children[n])))
  }

  /** Whatever `before` had right, `after` has too. */
  ghost predicate Keeps(layout: Layout, before: Node, after: Node) {
    (Sound(layout, before) ==> Sound(layout, after)) && (MarksReachUp(before) ==> MarksReachUp(after))
  }

  lemma {:induction false} LoadedIsSound(layout: Layout, node: Node)
    requires Loaded(layout, node)
    ensures Sound(layout, node) && MarksReachUp(node)
    decreases node
  {
    if node.Dir? {
      forall n | n in node.children ensures Sound(layout, node.children[n]) && MarksReachUp(node.children[n]) {
        LoadedIsSound(layout, node.children[n]);
      }
    }
  }

  lemma {:induction false} EnsureKeeps(layout: Layout, cur: Node, p: Path)
    requires cur.Dir?
    ensures Keeps(layout, cur, EnsureAt(cur, p)) && (cur.changed ==> EnsureAt(cur, p).changed)
    decreases p
  {
    if p != [] {
      EnsureKeeps(layout, Step(cur, p[0]), p[1..]);
    }
  }

  lemma {:induction false} SetFileKeeps(layout: Layout, cur: Node, p: Path, key: Cid)
    requires cur.Dir? && p != []
    ensures Keeps(layout, cur, SetFileAt(cur, p, key))
    decreases p
  {
    if |p| > 1 {
      SetFileKeeps(layout, Step(cur, p[0]), p[1..], key);
    }
  }

  lemma {:induction false} RemoveKeeps(layout: Layout, cur: Node, p: Path)
    requires cur.Dir? && RemovePath(cur, p).Ok?
    ensures Keeps(layout, cur, RemovePath(cur, p).value) && RemovePath(cur, p).value.Dir?
    decreases p
  {
    if |p| > 1 {
      RemoveKeeps(layout, cur.children[p[0]], p[1..]);
    }
  }

  /** The same as far as any directory above is concerned. */
  ghost predicate Alike(layout: Layout, a: Node, b: Node) {
    a.Kind() == b.Kind() && Root(layout, a) == Root(layout, b) && Descendants(layout, a) == Descendants(layout, b)
  }

  lemma AlikeChildren(layout: Layout, a: Node, b: Node)
    requires a.Dir? && b.Dir? && Descriptor(a.key) == Descriptor(b.key) && a.children.Keys == b.children.Keys
    requires forall n | n in a.children :: Alike(layout, a.children[n], b.children[n])
    ensures Alike(layout, a, b)
  {
    assert Views(layout, a) == Views(layout, b);
    assert Entries(a.children) == Entries(b.children);
  }

  /** Merging what leaves no mark leaves everything as it was. */
  lemma {:induction false} UnmarkedMerge(layout: Layout, existing: Node, staged: Node)
    requires !Merge(existing, staged).1 && !Merge(existing, staged).0.changed
    ensures Alike(layout, Merge(existing, staged).0, existing)
    decreases staged
  {
    if staged.Dir? {
      var result := Merge(existing, staged).0;
      forall n | n in staged.children
        ensures n in existing.children && Alike(layout, result.children[n], existing.children[n]) {
        assert n in existing.children;
        UnmarkedMerge(layout, existing.children[n], staged.children[n]);
      }
      forall n | n in result.children ensures Alike(layout, result.children[n], existing.children[n]) {}
      AlikeChildren(layout, result, existing);
    }
  }

  lemma {:induction false} MergeKeepsSound(layout: Layout, existing: Node, staged: Node)
    requires Sound(layout, existing) && Sound(layout, staged)
    ensures Sound(layout, Merge(existing, staged).0)
    decreases staged
  {
    if staged.Dir? && existing.Dir? {
      var result := Merge(existing, staged).0;
      forall n | n in result.children ensures Sound(layout, result.children[n]) {
        if n in staged.children && n in existing.children {
          MergeKeepsSound(layout, existing.children[n], staged.children[n]);
        }
      }
      if !result.changed {
        UnmarkedMerge(layout, existing, staged);
      }
    }
  }

  lemma {:induction false} MergeKeepsMarks(existing: Node, staged: Node)
    requires MarksReachUp(existing) && MarksReachUp(staged)
    ensures MarksReachUp(Merge(existing, staged).0)
    decreases staged
  {
    if staged.Dir? && existing.Dir? {
      var result := Merge(existing, staged).0;
      forall n | n in result.children ensures MarksReachUp(result.children[n]) {
        if n in staged.children && n in existing.children {
          MergeKeepsMarks(existing.children[n], staged.children[n]);
        }
      }
    }
  }

  // ----- Any mix of edits -----

  datatype Edit =
    | Ensure(path: Path)
    | Set(path: Path, key: Cid)
    | Remove(path: Path)
    | Overlay(staged: Node)

  /** A refused edit changes nothing. */
  function ApplyEdit(root: Node, edit: Edit): (r: Node)
    requires root.Dir?
    ensures r.Dir?
  {
    match edit
    case Ensure(p) => EnsureDirectory(root, p)
    case Set(p, key) => var r := SetFile(root, p, key); if r.Ok? then r.value else root
    case Remove(p) => var r := RemovePath(root, p); if r.Ok? then r.value else root
    case Overlay(staged) => if staged.Dir? then Merge(root, staged).0 else root
  }

  function ApplyEdits(root: Node, edits: seq<Edit>): (r: Node)
    requires root.Dir?
    ensures r.Dir?
    decreases edits
  {
    if edits == [] then root else ApplyEdits(ApplyEdit(root, edits[0]), edits[1..])
  }

  lemma EditKeeps(layout: Layout, root: Node, edit: Edit)
    requires root.Dir? && (edit.Overlay? ==> Sound(layout, edit.staged) && MarksReachUp(edit.staged))
    ensures Keeps(layout, root, ApplyEdit(root, edit))
  {
    match edit
    case Ensure(p) => EnsureKeeps(layout, Mark(root), p);
    case Set(p, key) => if p != [] { SetFileKeeps(layout, Mark(root), p, key); }
    case Remove(p) => if RemovePath(root, p).Ok? { RemoveKeeps(layout, root, p); }
    case Overlay(staged) =>
      if Sound(layout, root) { MergeKeepsSound(layout, root, staged); }
      if MarksReachUp(root) { MergeKeepsMarks(root, staged); }
  }

  /** After any edits of a loaded tree the marks are right: nothing unmarked has changed, and
      everything above a mark is marked. */
  lemma {:induction false} EditsKeepMarks(layout: Layout, root: Node, edits: seq<Edit>)
    requires root.Dir?
    requires forall e | e in edits && e.Overlay? :: Sound(layout, e.staged) && MarksReachUp(e.staged)
    ensures Keeps(layout, root, ApplyEdits(root, edits))
    decreases edits
  {
    if edits != [] {
      EditKeeps(layout, root, edits[0]);
      EditsKeepMarks(layout, ApplyEdit(root, edits[0]), edits[1..]);
    }
  }

  // ----- What the edits do -----

  /** What a path names, marks and recorded identities aside. */
  function Look(found: Result<Node, Error>): Result<(Kind, Option<Cid>), Error> {
    if found.Err? then Err(found.error)
    else Ok((found.value.Kind(), if found.value.File? then Some(found.value.fileKey) else None))
  }

  lemma {:induction false} SetFinds(cur: Node, p: Path, key: Cid)
    requires cur.Dir? && p != []
    ensures Look(Find(SetFileAt(cur, p, key), p)) == Ok((FileKind, Some(key)))
    decreases p
  {
    if |p| > 1 {
      SetFinds(Step(cur, p[0]), p[1..], key);
    }
  }

  /** What lies neither on the way to `p` nor below it stays as it was; only, where a file on
      the way had to give way to a directory, a path below that file is now merely missing. */
  lemma {:induction false} SetLeavesAlone(cur: Node, p: Path, key: Cid, q: Path)
    requires cur.Dir? && p != [] && !(p <= q) && !(q <= p)
    ensures var before, after := Find(cur, q), Find(SetFileAt(cur, p, key), q);
            after == before || (before == Err(NotDirectory) && after == Err(NotFound) && FileAbove(cur, p))
    decreases p
  {
    if |p| > 1 && q[0] == p[0] {
      assert p == [p[0]] + p[1..] && q == [q[0]] + q[1..];
      SetLeavesAlone(Step(cur, p[0]), p[1..], key, q[1..]);
      if p[0] in cur.children && cur.children[p[0]].File? {
        NothingInNew(p[1..], q[1..]);
      }
    } else {
      assert |p| == 1 ==> p == [p[0]];
      assert q == [q[0]] + q[1..];
    }
  }

  lemma NothingInNew(p: Path, q: Path)
    requires p != [] && q != []
    ensures Find(NEW_DIRECTORY, q) == Err(NotFound) && !FileAbove(NEW_DIRECTORY, p)
  {}

  /** A file stands strictly above `p`. */
  predicate FileAbove(cur: Node, p: Path)
    decreases p
  {
    |p| > 1 && cur.Dir? && p[0] in cur.children &&
    (cur.children[p[0]].File? || FileAbove(cur.children[p[0]], p[1..]))
  }

  /** `p` is a directory afterwards. A file at or above it gives way; every other path that
      existed is as it was, and nothing new exists but the directories on the way. */
  lemma {:induction false} EnsureFinds(cur: Node, p: Path, q: Path)
    requires cur.Dir?
    ensures Find(EnsureAt(cur, p), p).Ok? && Find(EnsureAt(cur, p), p).value.Dir?
    ensures Find(cur, q).Ok? && (Find(cur, q).value.Dir? || !(q <= p)) ==>
              Look(Find(EnsureAt(cur, p), q)) == Look(Find(cur, q))
    ensures q <= p ==> Find(EnsureAt(cur, p), q).Ok? && Find(EnsureAt(cur, p), q).value.Dir?
    ensures Find(cur, q).Err? && !(q <= p) ==> Find(EnsureAt(cur, p), q).Err?
    decreases p
  {
    if p != [] {
      var child := Step(cur, p[0]);
      var rest := if q == [] then [] else q[1..];
      assert p == [p[0]] + p[1..];
      assert q != [] ==> q == [q[0]] + rest;
      EnsureFinds(child, p[1..], rest);
    }
  }

  /** A removal is refused exactly as a lookup is, and otherwise takes the path and all below
      it away and nothing else. */
  lemma {:induction false} RemoveTakesAway(cur: Node, p: Path, q: Path)
    requires cur.Dir? && p != []
    ensures Find(cur, p).Err? ==> RemovePath(cur, p) == Err(Find(cur, p).error)
    ensures Find(cur, p).Ok? ==> RemovePath(cur, p).Ok? && RemovePath(cur, p).value.Dir?
    ensures Find(cur, p).Ok? && p <= q ==> Find(RemovePath(cur, p).value, q) == Err(NotFound)
    ensures Find(cur, p).Ok? && !(p <= q) ==> Look(Find(RemovePath(cur, p).value, q)) == Look(Find(cur, q))
    decreases p
  {
    assert p == [p[0]] + p[1..];
    var rest := if q == [] then [] else q[1..];
    assert q != [] ==> q == [q[0]] + rest;
    if |p| == 1 {
      assert p[1..] == [];
    } else if p[0] in cur.children && cur.children[p[0]].Dir? {
      RemoveTakesAway(cur.children[p[0]], p[1..], rest);
    } else if p[0] in cur.children {
      assert p[1..] != [] && Find(cur.children[p[0]], p[1..]) == Err(NotDirectory);
    }
  }

  /** Merging: the staged tree wins wherever it has something, the existing one elsewhere. */
  lemma {:induction false} MergeOverlays(existing: Node, staged: Node, q: Path)
    ensures var merged := Merge(existing, staged).0;
            && (Find(staged, q).Ok? ==> Look(Find(merged, q)) == Look(Find(staged, q)))
            && (Find(staged, q) == Err(NotDirectory) ==> Find(merged, q) == Err(NotDirectory))
            && (Find(staged, q) == Err(NotFound) && Find(existing, q).Ok? ==>
              Look(Find(merged, q)) == Look(Find(existing, q)))
            && (Find(staged, q) == Err(NotFound) && Find(existing, q).Err? ==> Find(merged, q).Err?)
    decreases q
  {
    if q != [] && staged.Dir? && existing.Dir? && q[0] in staged.children && q[0] in existing.children {
      MergeOverlays(existing.children[q[0]], staged.children[q[0]], q[1..]);
    }
  }

  /** `after` is `root` with the edit done, as far as path `q` can tell for an overlay; an edit
      that cannot be done changes nothing. */
  predicate TakesEffect(root: Node, edit: Edit, after: Node, q: Path) {
    match edit
    case Ensure(p) => Find(after, p).Ok? && Find(after, p).value.Dir?
    case Set(p, key) => if p == [] then after == root else Look(Find(after, p)) == Ok((FileKind, Some(key)))
    case Remove(p) => if p == [] || Find(root, p).Err? then after == root else Find(after, p) == Err(NotFound)
    case Overlay(staged) =>
      if staged.File? then after == root else Find(staged, q).Ok? ==> Look(Find(after, q)) == Look(Find(staged, q))
  }

  lemma EditOutcome(root: Node, edit: Edit, q: Path)
    requires root.Dir?
    ensures TakesEffect(root, edit, ApplyEdit(root, edit), q)
  {
    match edit
    case Ensure(p) => EnsureFinds(Mark(root), p, p);
    case Set(p, key) => if p != [] { SetFinds(Mark(root), p, key); }
    case Remove(p) => if p != [] { RemoveTakesAway(root, p, p); }
    case Overlay(staged) => MergeOverlays(root, staged, q);
  }

  lemma {:induction false} EditsInTurn(root: Node, edits: seq<Edit>, edit: Edit)
    requires root.Dir?
    ensures ApplyEdits(root, edits + [edit]) == ApplyEdit(ApplyEdits(root, edits), edit)
    decreases edits
  {
    if edits == [] {
      assert [edit][1..] == [] && edits + [edit] == [edit];
    } else {
      assert (edits + [edit])[1..] == edits[1..] + [edit];
      EditsInTurn(ApplyEdit(root, edits[0]), edits[1..], edit);
    }
  }

  /** Setting a file to the target it has leaves the file as it is, mark and all. */
  lemma {:induction false} SetSameIsQuiet(cur: Node, p: Path, key: Cid)
    requires cur.Dir? && p != [] && Look(Find(cur, p)) == Ok((FileKind, Some(key)))
    ensures Find(SetFileAt(cur, p, key), p) == Find(cur, p)
    decreases p
  {
    if |p| > 1 {
      assert Step(cur, p[0]) == cur.children[p[0]];
      SetSameIsQuiet(cur.children[p[0]], p[1..], key);
    } else {
      assert p[1..] == [];
    }
  }

  /** Everything `staged` has is in `existing` already. */
  predicate Covers(existing: Node, staged: Node)
    decreases staged
  {
    if staged.File? then existing.File? && existing.fileKey == staged.fileKey
    else existing.Dir? && forall n | n in staged.children ::
           n in existing.children && Covers(existing.children[n], staged.children[n])
  }

  /** Overlaying what is there already changes nothing and marks nothing. */
  lemma {:induction false} MergeSameIsQuiet(existing: Node, staged: Node)
    requires Covers(existing, staged) && MarksReachUp(existing)
    ensures Merge(existing, staged) == (existing, false)
    decreases staged
  {
    if staged.Dir? {
      forall n | n in staged.children
        ensures Merge(existing.children[n], staged.children[n]) == (existing.children[n], false)
      {
        MergeSameIsQuiet(existing.children[n], staged.children[n]);
      }
      assert Merge(existing, staged).0.children == existing.children;
    }
  }

  // ----- Materializing -----

  function FastViews(layout: Layout, node: Node): map<Name, Child>
    requires node.Dir?
    decreases node, 0
  {
    map n | n in node.children ::
      Child(node.children[n].Dir?, FastRoot(layout, node.children[n]), FastDescendants(layout, node.children[n]))
  }

  function FastDescendants(layout: Layout, node: Node): map<string, Cid>
    decreases node, 1
  {
    if node.File? then map[] else Project(Hybrid, FastViews(layout, node))
  }

  /** The identity of a node when a directory without a mark keeps the identity it had. */
  function FastRoot(layout: Layout, node: Node): Cid
    decreases node, 2
  {
    if node.File? then node.fileKey
    else if !node.changed && node.key.Some? then node.key.value
    else MapRoot(Descriptor(node.key),
      map[PAYLOAD := Manifest(Entries(node.children))] + Project(layout, FastViews(layout, node)))
  }

  /** The tree after materialization: identities recorded, marks on directories gone. */
  function Settled(layout: Layout, node: Node): (r: Node)
    ensures r.Dir? == node.Dir?
    decreases node
  {
    if node.File? then node
    else Dir(Some(FastRoot(layout, node)), map n | n in node.children :: Settled(layout, node.children[n]), false)
  }

  /** The shortcut gives the identity that compiling everything anew would give. */
  lemma {:induction false} ShortcutIsExact(layout: Layout, node: Node)
    requires Sound(layout, node)
    ensures FastRoot(layout, node) == Root(layout, node) && FastDescendants(layout, node) == Descendants(layout, node)
    decreases node
  {
    if node.Dir? {
      forall n | n in node.children
        ensures FastRoot(layout, node.children[n]) == Root(layout, node.children[n])
        ensures FastDescendants(layout, node.children[n]) == Descendants(layout, node.children[n])
      {
        ShortcutIsExact(layout, node.children[n]);
      }
      assert FastViews(layout, node) == Views(layout, node);
    }
  }

  lemma {:induction false} SettledIsSound(layout: Layout, node: Node)
    requires Sound(layout, node)
    ensures Alike(layout, Settled(layout, node), node) && Sound(layout, Settled(layout, node))
    decreases node
  {
    if node.Dir? {
      var settled := Settled(layout, node);
      forall n | n in node.children
        ensures Alike(layout, settled.children[n], node.children[n]) && Sound(layout, settled.children[n])
      {
        SettledIsSound(layout, node.children[n]);
      }
      ShortcutIsExact(layout, node);
      AlikeChildren(layout, settled, node);
    }
  }

  // ----- Marks after a save -----

  predicate FilesUnmarked(node: Node)
    decreases node
  {
    if node.File? then !node.changed else forall n | n in node.children :: FilesUnmarked(node.children[n])
  }

  /** Saving clears the marks of directories only, so afterwards marks reach up exactly if no
      file carried one. */
  lemma {:induction false} MarksAfterSave(layout: Layout, node: Node)
    requires node.Dir?
    ensures MarksReachUp(Settled(layout, node)) <==> FilesUnmarked(node)
    decreases node
  {
    var settled := Settled(layout, node);
    forall n | n in node.children
      ensures (MarksReachUp(settled.children[n]) && !settled.children[n].changed) <==> FilesUnmarked(node.children[n])
    {
      assert settled.children[n] == Settled(layout, node.children[n]);
      if node.children[n].Dir? {
        MarksAfterSave(layout, node.children[n]);
      }
    }
  }

  /** Setting a file to another target marks it, so the next save leaves a mark below an
      unmarked directory. */
  lemma {:induction false} SetLeavesFileMarked(cur: Node, p: Path, key: Cid)
    requires cur.Dir? && p != [] && Look(Find(cur, p)) != Ok((FileKind, Some(key)))
    ensures !FilesUnmarked(SetFileAt(cur, p, key))
    decreases p
  {
    var after := SetFileAt(cur, p, key);
    if |p| > 1 {
      var child := Step(cur, p[0]);
      assert child == NEW_DIRECTORY ==> Find(child, p[1..]) == Err(NotFound);
      SetLeavesFileMarked(child, p[1..], key);
    } else {
      assert p[1..] == [];
    }
    assert !FilesUnmarked(after.children[p[0]]);
  }

  lemma SaveUnlinksMarks(layout: Layout, root: Node, p: Path, key: Cid)
    requires root.Dir? && p != [] && Look(Find(root, p)) != Ok((FileKind, Some(key)))
    ensures !MarksReachUp(Settled(layout, ApplyEdit(root, Set(p, key))))
  {
    assert Find(Mark(root), p) == Find(root, p);
    SetLeavesFileMarked(Mark(root), p, key);
    MarksAfterSave(layout, ApplyEdit(root, Set(p, key)));
  }

  // ----- Whole sessions -----

  datatype Action = Change(edit: Edit) | Save

  function Act(layout: Layout, root: Node, action: Action): (r: Node)
    requires root.Dir?
    ensures r.Dir?
  {
    match action
    case Change(edit) => ApplyEdit(root, edit)
    case Save => Settled(layout, root)
  }

  function Session(layout: Layout, root: Node, actions: seq<Action>): (r: Node)
    requires root.Dir?
    ensures r.Dir?
    decreases actions
  {
    if actions == [] then root else Session(layout, Act(layout, root, actions[0]), actions[1..])
  }

  lemma {:induction false} ActionsInTurn(layout: Layout, root: Node, actions: seq<Action>, action: Action)
    requires root.Dir?
    ensures Session(layout, root, actions + [action]) == Act(layout, Session(layout, root, actions), action)
    decreases actions
  {
    if actions == [] {
      assert [action][1..] == [] && actions + [action] == [action];
    } else {
      assert (actions + [action])[1..] == actions[1..] + [action];
      ActionsInTurn(layout, Act(layout, root, actions[0]), actions[1..], action);
    }
  }

  /** The descriptor a map root was created with; a directory that never had one starts with none. */
  predicate HasDescriptor(key: Option<Cid>, descriptor: nat) {
    if key.Some? && key.value.MapRoot? then key.value.descriptor == descriptor else descriptor == 0
  }

  /** Whatever is edited and saved, a tree keeps the descriptor of the root it was loaded from. */
  lemma {:induction false} SessionKeepsDescriptor(layout: Layout, root: Node, actions: seq<Action>, descriptor: nat)
    requires root.Dir? && HasDescriptor(root.key, descriptor)
    ensures HasDescriptor(Session(layout, root, actions).key, descriptor)
    ensures HasDescriptor(Some(FastRoot(layout, Session(layout, root, actions))), descriptor)
    decreases actions
  {
    if actions != [] {
      var next := Act(layout, root, actions[0]);
      if actions[0].Change? && actions[0].edit.Remove? && RemovePath(root, actions[0].edit.path).Ok? {
        RemoveKeepsKey(root, actions[0].edit.path);
      }
      if actions[0].Change? && actions[0].edit.Set? && actions[0].edit.path != [] {
        SetKeepsKey(Mark(root), actions[0].edit.path, actions[0].edit.key);
      }
      assert HasDescriptor(next.key, descriptor);
      SessionKeepsDescriptor(layout, next, actions[1..], descriptor);
    }
  }

  lemma RemoveKeepsKey(root: Node, p: Path)
    requires root.Dir? && RemovePath(root, p).Ok?
    ensures RemovePath(root, p).value.Dir? && RemovePath(root, p).value.key == root.key
  {}

  lemma SetKeepsKey(root: Node, p: Path, key: Cid)
    requires root.Dir? && p != []
    ensures SetFileAt(root, p, key).Dir? && SetFileAt(root, p, key).key == root.key
  {}

  ghost predicate SoundOverlays(layout: Layout, actions: seq<Action>) {
    forall a | a in actions && a.Change? && a.edit.Overlay? :: Sound(layout, a.edit.staged)
  }

  lemma {:induction false} SessionIsSound(layout: Layout, root: Node, actions: seq<Action>)
    requires root.Dir? && Sound(layout, root) && SoundOverlays(layout, actions)
    ensures Sound(layout, Session(layout, root, actions))
    decreases actions
  {
    if actions != [] {
      var action := actions[0];
      if action.Save? {
        SettledIsSound(layout, root);
      } else if action.edit.Overlay? {
        MergeKeepsSound(layout, root, action.edit.staged);
      } else {
        EditKeeps(layout, root, action.edit);
      }
      assert forall a | a in actions[1..] :: a in actions;
      SessionIsSound(layout, Act(layout, root, action), actions[1..]);
    }
  }

  /**
   Load a tree, edit and save it in any order and number; at every point saving gives the
   root of a full compilation, and every path of the saved root reads back as the edited tree
   says.
   */
  lemma SessionReadsBack(layout: Layout, root: Node, actions: seq<Action>, p: Path)
    requires root.Dir? && Loaded(layout, root) && SoundOverlays(layout, actions)
    ensures var node := Session(layout, root, actions);
            && FastRoot(layout, node) == Root(layout, node)
            && (WellNamed(node) ==> ResolvePath(layout, FastRoot(layout, node), p) == Meaning(layout, Find(node, p)))
  {
    var node := Session(layout, root, actions);
    LoadedIsSound(layout, root);
    SessionIsSound(layout, root, actions);
    ShortcutIsExact(layout, node);
    if WellNamed(node) {
      ReadsBack(layout, node, p);
    }
  }

  // ----- Materializing, step by step -----

  /** Every label of `descendants`, with `n` and a slash in front. */
  ghost predicate IsPrefixed(n: Name, descendants: map<string, Cid>, deep: map<string, Cid>) {
    && (forall l | l in descendants :: n + "/" + l in deep && deep[n + "/" + l] == descendants[l])
    && (forall k | k in deep :: |k| > |n| && k[|n| + 1..] in descendants && k == n + "/" + k[|n| + 1..])
  }

  lemma PrefixedCut(n: Name, descendants: map<string, Cid>, deep: map<string, Cid>, k: string)
    requires ValidName(n) && IsPrefixed(n, descendants, deep)
    ensures k in deep <==> |k| > |n| && Cut(k) == n && k == n + "/" + k[|n| + 1..] && k[|n| + 1..] in descendants
    ensures k in deep ==> deep[k] == descendants[k[|n| + 1..]] && '/' in k
  {
    if k in deep {
      DeepLabelParts(n, k[|n| + 1..]);
    }
  }

  /** What `Project` holds under label `k`. */
  ghost predicate ProjectsAt(layout: Layout, children: map<Name, Child>, bindings: map<string, Cid>, k: string) {
    if k in children then k in bindings && bindings[k] == children[k].root
    else if layout == Hybrid && IsDeep(children, k) then
      k in bindings && bindings[k] == children[Cut(k)].descendants[k[|Cut(k)| + 1..]]
    else k !in bindings
  }

  ghost predicate Projects(layout: Layout, children: map<Name, Child>, bindings: map<string, Cid>) {
    forall k :: ProjectsAt(layout, children, bindings, k)
  }

  lemma OnlyProject(layout: Layout, children: map<Name, Child>, bindings: map<string, Cid>)
    requires ValidNames(children) && Projects(layout, children, bindings)
    ensures bindings == Project(layout, children)
  {
    forall k ensures k in bindings <==> k in Project(layout, children)
             ensures k in bindings ==> bindings[k] == Project(layout, children)[k]
    {
      assert ProjectsAt(layout, children, bindings, k);
      if IsDeep(children, k) {
        assert k == Cut(k) + "/" + k[|Cut(k)| + 1..];
        assert k in DeepLabels(children) && '/' in k && k !in children;
      }
    }
  }

  /** Projecting one more child. */
  lemma ProjectOneMore(layout: Layout, done: map<Name, Child>, n: Name, child: Child, deep: map<string, Cid>,
                       bindings: map<string, Cid>, k: string)
    requires ValidNames(done) && ValidName(n) && n !in done && ProjectsAt(layout, done, bindings, k)
    requires if layout != Rooted && child.directory then IsPrefixed(n, child.descendants, deep) else deep == map[]
    ensures ProjectsAt(layout, done[n := child], bindings[n := child.root] + deep, k)
  {
    var more := done[n := child];
    if layout != Rooted && child.directory { PrefixedCut(n, child.descendants, deep, k); }
    assert k != n && Cut(k) != n ==> (IsDeep(more, k) <==> IsDeep(done, k));
    if Cut(k) == n && k != n {
      assert !IsDeep(done, k) && k !in done by { CutOfName(k); }
    }
  }

  lemma CutOfName(k: string)
    ensures ValidName(k) ==> Cut(k) == k
  {
    if ValidName(k) {
      CutStops(k, "");
      assert k + "" == k;
    }
  }

  method Prefixed(n: Name, descendants: map<string, Cid>) returns (deep: map<string, Cid>)
    ensures IsPrefixed(n, descendants, deep)
  {
    deep := map[];
    var rest := descendants;
    while rest != map[]
      invariant forall l | l in rest :: l in descendants && rest[l] == descendants[l]
      invariant forall l | l in descendants && l !in rest :: n + "/" + l in deep && deep[n + "/" + l] == descendants[l]
      invariant forall k | k in deep :: |k| > |n| && k[|n| + 1..] in descendants && k == n + "/" + k[|n| + 1..]
      decreases |rest|
    {
      var l :| l in rest;
      var path := n + "/" + l;
      assert path[|n| + 1..] == l;
      assert forall m | n + "/" + m == path :: m == l by {
        forall m | n + "/" + m == path ensures m == l { assert (n + "/" + m)[|n| + 1..] == m; }
      }
      deep := deep[path := rest[l]];
      rest := rest - {l};
    }
  }

  method ProjectDirectoryBindings(layout: Layout, children: map<Name, Child>) returns (bindings: map<string, Cid>)
    requires ValidNames(children)
    ensures bindings == Project(layout, children)
  {
    bindings := map[];
    var rest := children;
    ghost var done: map<Name, Child> := map[];
    while rest != map[]
      invariant forall n | n in children :: n in done || n in rest
      invariant forall n | n in done :: n in children && done[n] == children[n] && n !in rest
      invariant forall n | n in rest :: n in children && rest[n] == children[n]
      invariant Projects(layout, done, bindings)
      decreases |rest|
    {
      var n :| n in rest;
      var child := rest[n];
      var deep := map[];
      if layout != Rooted && child.directory {
        deep := Prefixed(n, child.descendants);
      }
      ghost var before, previous := done, bindings;
      bindings := bindings[n := child.root] + deep;
      done := done[n := child];
      forall k ensures ProjectsAt(layout, done, bindings, k) {
        ProjectOneMore(layout, before, n, child, deep, previous, k);
      }
      rest := rest - {n};
    }
    assert done == children;
    OnlyProject(layout, children, bindings);
  }

  /** Every name in the tree is one canonical path segment. */
  predicate Named(node: Node)
    decreases node
  {
    node.File? || forall n | n in node.children :: ValidName(n) && Named(node.children[n])
  }

  ghost predicate Compiled(layout: Layout, child: Node, settled: Node, view: Child) {
    && Named(child) && settled == Settled(layout, child)
    && view == Child(child.Dir?, FastRoot(layout, child), FastDescendants(layout, child))
  }

  lemma CompiledAll(layout: Layout, node: Node, settled: map<Name, Node>, views: map<Name, Child>)
    requires node.Dir? && settled.Keys == views.Keys == node.children.Keys
    requires forall n | n in views :: ValidName(n) && Compiled(layout, node.children[n], settled[n], views[n])
    ensures Named(node) && ValidNames(views) && views == FastViews(layout, node)
    ensures settled == Settled(layout, node).children
  {}

  /**
   Compiles a tree bottom-up. A directory without a mark keeps the identity it had. Fails
   exactly for a file, or when some name is not one canonical path segment.
   */
  method Materialize(layout: Layout, node: Node) returns (r: Result<(Node, Cid, map<string, Cid>), Error>)
    ensures r.Ok? <==> node.Dir? && Named(node)
    ensures r.Ok? ==> r.value == (Settled(layout, node), FastRoot(layout, node), FastDescendants(layout, node))
    decreases node, 1
  {
    if node.File? || exists n | n in node.children :: !ValidName(n) {
      return Err(Invalid);
    }
    var ok, settled, views := MaterializeChildren(layout, node);
    if !ok {
      return Err(Invalid);
    }
    CompiledAll(layout, node, settled, views);
    var descendants := ProjectDirectoryBindings(Hybrid, views);
    if !node.changed && node.key.Some? {
      return Ok((Dir(node.key, settled, false), node.key.value, descendants));
    }
    var projected := ProjectDirectoryBindings(layout, views);
    var bindings := map[PAYLOAD := Manifest(Entries(node.children))] + projected;
    var root := MapRoot(Descriptor(node.key), bindings);
    return Ok((Dir(Some(root), settled, false), root, descendants));
  }

  method MaterializeChildren(layout: Layout, node: Node)
    returns (ok: bool, settled: map<Name, Node>, views: map<Name, Child>)
    requires node.Dir?
    ensures ok <==> forall n | n in node.children :: Named(node.children[n])
    ensures ok ==> settled.Keys == views.Keys == node.children.Keys
    ensures ok ==> forall n | n in views :: Compiled(layout, node.children[n], settled[n], views[n])
    decreases node, 0
  {
    settled, views := map[], map[];
    var rest := node.children.Keys;
    while rest != {}
      invariant rest <= node.children.Keys
      invariant settled.Keys == views.Keys == node.children.Keys - rest
      invariant forall n | n in views :: Compiled(layout, node.children[n], settled[n], views[n])
      decreases rest
    {
      var n :| n in rest;
      var named, child, view := MaterializeChild(layout, node.children[n]);
      if !named {
        return false, settled, views;
      }
      settled, views, rest := settled[n := child], views[n := view], rest - {n};
    }
    ok := true;
  }

  method MaterializeChild(layout: Layout, child: Node) returns (ok: bool, settled: Node, view: Child)
    ensures ok <==> Named(child)
    ensures ok ==> Compiled(layout, child, settled, view)
    decreases child, 2
  {
    if child.File? {
      return true, child, Child(false, child.fileKey, map[]);
    }
    var below := Materialize(layout, child);
    if below.Err? {
      return false, child, Child(true, Body(0), map[]);
    }
    return true, below.value.0, Child(true, below.value.1, below.value.2);
  }

  // ----- Reading, step by step -----

  /** Follows `segments` one at a time, asking every parent's manifest first. */
  method ResolveUnixfsPath(layout: Layout, root: Cid, segments: Path) returns (r: Result<(Cid, Kind), Error>)
    ensures r == ResolvePath(layout, root, segments)
  {
    if segments == [] {
      return Ok((root, DirKind));
    }
    r := Err(NotFound);
    for index := 0 to |segments|
      invariant index < |segments| ==> ResolvePath(layout, root, segments) == ResolveFrom(layout, root, segments, index)
      invariant index == |segments| ==> r == ResolvePath(layout, root, segments)
    {
      var manifest := ReadManifest(layout, root, segments[..index]);
      if manifest.Err? {
        return Err(manifest.error);
      }
      if segments[index] !in manifest.value {
        return Err(NotFound);
      }
      var target := Projection(layout, root, segments[..index + 1], false);
      if target.None? {
        return Err(NotFound);
      }
      var kind := manifest.value[segments[index]];
      if index < |segments| - 1 && kind != DirKind {
        return Err(NotDirectory);
      }
      r := Ok((target.value, kind));
    }
  }
}
