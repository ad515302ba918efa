/**
 The filesystem that the staged overlay stands for: a finite tree of paths, changed by
 applying whole operations one after another. Nothing here knows about journals.
 */
module NamespaceTree {
  import opened Wrappers
  import opened Paths

  /** The identity of a raw body. It is ideal: equal identities have equal content. */
  datatype Cid = Raw(content: seq<bv8>)

  /**
   A node of the overlay and where its content comes from: an untouched path of the
   immutable base, or something staged locally. `createdAt` is one more than the position
   of the journal entry that created the directory.
   */
  datatype Node =
    | BaseFile(origin: Path)
    | BaseDir(origin: Path)
    | LocalFile(payload: Cid)
    | LocalDir(createdAt: nat)
  {
    predicate IsDir() { BaseDir? || LocalDir? }

    function Kind(): Kind { if IsDir() then DirKind else FileKind }
  }

  type Tree = map<Path, Node>

  datatype Op =
    | Write(path: Path, payload: Cid)
    | Mkdir(path: Path)
    | Unlink(path: Path)
    | Rename(path: Path, destination: Path)

  /** A proper tree: rooted at a directory, and every node's parent is a directory. */
  predicate Proper(t: Tree) {
    && [] in t && t[[]].IsDir()
    && forall p {:trigger Parent(p)} | p in t && p != [] :: Parent(p) in t && t[Parent(p)].IsDir()
  }

  // ----- Looking things up -----

  predicate UnderFile(t: Tree, p: Path) {
    exists k | 0 <= k < |p| :: p[..k] in t && !t[p[..k]].IsDir()
  }

  /** A missing path is `NotDirectory` when some ancestor is a file, else `NotFound`. */
  function Lookup(t: Tree, p: Path): Result<Node, Error> {
    if p in t then Ok(t[p])
    else if UnderFile(t, p) then Err(NotDirectory)
    else Err(NotFound)
  }

  function ChildNames(t: Tree, dir: Path): set<Name> {
    set q | q in t && |q| == |dir| + 1 && dir <= q :: q[|dir|]
  }

  predicate HasChildren(t: Tree, dir: Path) {
    exists q :: q in t && dir < q
  }

  function Listing(t: Tree, dir: Path): Result<map<Name, Kind>, Error> {
    match Lookup(t, dir)
    case Err(e) => Err(e)
    case Ok(node) =>
      if !node.IsDir() then Err(NotDirectory)
      else Ok(map n | n in ChildNames(t, dir) && dir + [n] in t :: t[dir + [n]].Kind())
  }

  // ----- Changing the tree -----

  predicate Survives(q: Path, source: Path, destination: Path) {
    !(source <= q) && !(destination <= q)
  }

  /** The subtree at `source` moves to `destination`, replacing what was there. */
  function Move(t: Tree, source: Path, destination: Path): Tree {
    var kept := set q | q in t && Survives(q, source, destination);
    var moved := set q | q in t && source <= q :: Rebase(q, source, destination);
    map q | q in kept + moved && (destination <= q ==> Rebase(q, destination, source) in t)
      :: if destination <= q then t[Rebase(q, destination, source)] else t[q]
  }

  /** The effect of the operation recorded at journal position `index`. */
  function Apply(t: Tree, op: Op, index: nat): Tree {
    match op
    case Write(p, payload) => t[p := LocalFile(payload)]
    case Mkdir(p) => t[p := LocalDir(index + 1)]
    case Unlink(p) => t - {p}
    case Rename(s, d) => Move(t, s, d)
  }

  // ----- When an operation is allowed -----

  function CheckParent(t: Tree, p: Path): Result<(), Error>
    requires p != []
  {
    match Lookup(t, Parent(p))
    case Err(e) => Err(e)
    case Ok(node) => if node.IsDir() then Ok(()) else Err(NotDirectory)
  }

  function CheckWrite(t: Tree, p: Path): Result<(), Error> {
    if p == [] then Err(Invalid)
    else if CheckParent(t, p).Err? then CheckParent(t, p)
    else if p in t && t[p].IsDir() then Err(NotFile)
    else Ok(())
  }

  function CheckMkdir(t: Tree, p: Path): Result<(), Error> {
    if p == [] then Err(Invalid)
    else if CheckParent(t, p).Err? then CheckParent(t, p)
    else if p in t then Err(AlreadyExists)
    else Ok(())
  }

  function CheckRemove(t: Tree, p: Path, directory: bool): Result<(), Error> {
    if p == [] then Err(Invalid)
    else match Lookup(t, p)
         case Err(e) => Err(e)
         case Ok(node) =>
           if directory && !node.IsDir() then Err(NotDirectory)
           else if !directory && node.IsDir() then Err(NotFile)
           else if directory && HasChildren(t, p) then Err(NotEmpty)
           else Ok(())
  }

  function CheckRename(t: Tree, s: Path, d: Path): Result<(), Error> {
    if s == [] || d == [] || s <= d then Err(Invalid)
    else match Lookup(t, s)
         case Err(e) => Err(e)
         case Ok(source) =>
           if CheckParent(t, d).Err? then CheckParent(t, d) else CheckOnto(t, source, d)
  }

  /** A rename replaces only a file by a file, or an empty directory by a directory. */
  function CheckOnto(t: Tree, source: Node, d: Path): Result<(), Error> {
    if d !in t then Ok(())
    else if source.IsDir() && !t[d].IsDir() then Err(NotDirectory)
    else if !source.IsDir() && t[d].IsDir() then Err(NotFile)
    else if t[d].IsDir() && HasChildren(t, d) then Err(NotEmpty)
    else Ok(())
  }

  /** An unlink record removes a file or an empty directory. */
  predicate Allowed(t: Tree, op: Op) {
    match op
    case Write(p, _) => CheckWrite(t, p).Ok?
    case Mkdir(p) => CheckMkdir(t, p).Ok?
    case Unlink(p) => CheckRemove(t, p, false).Ok? || CheckRemove(t, p, true).Ok?
    case Rename(s, d) => CheckRename(t, s, d).Ok?
  }

  // ----- Facts about proper trees -----

  lemma {:induction false} AncestorsAreDirectories(t: Tree, p: Path, k: nat)
    requires Proper(t) && p in t && k < |p|
    ensures p[..k] in t && t[p[..k]].IsDir()
    decreases |p|
  {
    if k < |p| - 1 {
      assert Parent(p)[..k] == p[..k];
      AncestorsAreDirectories(t, Parent(p), k);
    }
  }

  lemma PrefixIsDirectory(t: Tree, p: Path, a: Path)
    requires Proper(t) && p in t && a < p
    ensures a in t && t[a].IsDir()
  {
    assert a == p[..|a|];
    AncestorsAreDirectories(t, p, |a|);
  }

  lemma NothingBelow(t: Tree, p: Path, a: Path)
    requires Proper(t) && a < p && (a !in t || !t[a].IsDir())
    ensures p !in t
  {
    if p in t {
      PrefixIsDirectory(t, p, a);
    }
  }

  /** A directory that has anything below it has an immediate child. */
  lemma HasChildrenMeansChild(t: Tree, dir: Path)
    requires Proper(t)
    ensures HasChildren(t, dir) <==> ChildNames(t, dir) != {}
  {
    if q :| q in t && dir < q {
      var child := q[..|dir| + 1];
      if child != q {
        PrefixIsDirectory(t, q, child);
      }
      assert child in t && dir <= child;
      assert child[|dir|] in ChildNames(t, dir);
    }
  }

  /** A rename onto one of its own ancestors or descendants is always refused. */
  lemma RenameWithinItselfRefused(t: Tree, s: Path, d: Path)
    requires Proper(t) && (s <= d || d <= s)
    ensures CheckRename(t, s, d).Err?
  {
    if s != [] && d != [] && !(s <= d) && s in t {
      PrefixIsDirectory(t, s, d);
      assert HasChildren(t, d);
    }
  }

  lemma ListedNames(t: Tree, dir: Path)
    requires dir in t && t[dir].IsDir()
    ensures Listing(t, dir).Ok? && Listing(t, dir).value.Keys == ChildNames(t, dir)
  {
    forall n | n in ChildNames(t, dir) ensures dir + [n] in t {
      var q :| q in t && |q| == |dir| + 1 && dir <= q && q[|dir|] == n;
      assert dir + [n] == q;
    }
  }

  // ----- Operations keep the tree proper -----

  /** What `Move` computes, path by path. */
  ghost predicate Moved(t: Tree, t': Tree, s: Path, d: Path) {
    && (forall q :: q in t' <==> if d <= q then Rebase(q, d, s) in t else q in t && !(s <= q))
    && (forall q | q in t' :: t'[q] == if d <= q then t[Rebase(q, d, s)] else t[q])
  }

  lemma MoveContents(t: Tree, s: Path, d: Path)
    ensures Moved(t, Move(t, s, d), s, d)
  {
    forall q | d <= q && Rebase(q, d, s) in t ensures q in Move(t, s, d) {
      assert Rebase(Rebase(q, d, s), s, d) == q;
      assert s <= Rebase(q, d, s);
    }
    assert forall r | r in t && s <= r :: d <= Rebase(r, s, d);
  }

  lemma MovedKeepsProper(t: Tree, t': Tree, s: Path, d: Path)
    requires Proper(t) && CheckRename(t, s, d).Ok? && Moved(t, t', s, d)
    ensures Proper(t')
  {
    RenameDisjoint(t, s, d);
    forall q | q in t' && q != [] ensures Parent(q) in t' && t'[Parent(q)].IsDir() {
      if d < q {
        assert d <= Parent(q);
        assert Rebase(Parent(q), d, s) == Parent(Rebase(q, d, s));
      } else if d == q {
        assert !(s <= Parent(d));
      }
    }
  }

  lemma RenameDisjoint(t: Tree, s: Path, d: Path)
    requires Proper(t) && CheckRename(t, s, d).Ok?
    ensures s != [] && d != [] && !(s <= d) && !(d <= s)
    ensures s in t && Parent(d) in t && t[Parent(d)].IsDir()
  {
    if d <= s {
      RenameWithinItselfRefused(t, s, d);
    }
  }

  /** Every allowed operation keeps the tree proper. */
  lemma ApplyKeepsProper(t: Tree, op: Op, index: nat)
    requires Proper(t) && Allowed(t, op)
    ensures Proper(Apply(t, op, index))
  {
    var t' := Apply(t, op, index);
    match op
    case Write(p, _) =>
      forall q | q in t' && q != [] ensures Parent(q) in t' && t'[Parent(q)].IsDir() {
        assert Parent(q) < q;
      }
    case Mkdir(p) =>
    case Unlink(p) =>
      forall q | q in t' && q != [] ensures Parent(q) in t' && t'[Parent(q)].IsDir() {
        assert q in t && Parent(q) < q;
      }
    case Rename(s, d) =>
      MoveContents(t, s, d);
      MovedKeepsProper(t, t', s, d);
  }
}
