/**
 The dirty overlay: an append-only journal over an immutable base tree. No tree is ever
 built. A path is resolved by walking the journal backwards and undoing renames; a
 directory is listed by pushing base children and journal targets forwards.

 The theorems say that, because every operation is checked against these very walks before
 it is journaled, both walks agree with applying the operations one by one to a tree.
 */
module Overlay {
  import opened Wrappers
  import opened Paths
  import opened NamespaceTree

  /** The immutable base below the journal: every node is its own origin. */
  predicate IsBase(base: Tree) {
    && Proper(base)
    && forall p | p in base :: base[p] == BaseFile(p) || base[p] == BaseDir(p)
  }

  // ----- The two walks -----

  /** What a path names after `ops`, found by walking `ops` from the newest to the oldest. */
  function Resolve(base: Tree, ops: seq<Op>, p: Path): Result<Node, Error> {
    if ops == [] then Lookup(base, p)
    else
      var earlier := ops[..|ops| - 1];
      match ops[|ops| - 1]
      case Write(w, payload) =>
        if p == w then Ok(LocalFile(payload))
        else if w < p then Err(NotDirectory)
        else Resolve(base, earlier, p)
      case Mkdir(m) =>
        if p == m then Ok(LocalDir(|ops|))
        else if m < p then Err(NotFound)
        else Resolve(base, earlier, p)
      case Unlink(u) =>
        if u <= p then Err(NotFound) else Resolve(base, earlier, p)
      case Rename(s, d) =>
        if d <= p then Resolve(base, earlier, Rebase(p, d, s))
        else if s <= p then Err(NotFound)
        else Resolve(base, earlier, p)
  }

  function ForwardStep(p: Path, op: Op): Option<Path> {
    match op
    case Unlink(u) => if u <= p then None else Some(p)
    case Write(w, _) => if w < p then None else Some(p)
    case Mkdir(_) => Some(p)
    case Rename(s, d) =>
      if s <= p then Some(Rebase(p, s, d))
      else if d <= p then None
      else Some(p)
  }

  /** Where a path ends up after `ops`, or `None` when something removed it on the way. */
  function Forward(p: Path, ops: seq<Op>): Option<Path> {
    if ops == [] then Some(p)
    else match Forward(p, ops[..|ops| - 1])
         case None => None
         case Some(q) => ForwardStep(q, ops[|ops| - 1])
  }

  // ----- Listing -----

  /** The path an operation puts a node at. */
  function Target(op: Op): Option<Path> {
    match op
    case Write(p, _) => Some(p)
    case Mkdir(p) => Some(p)
    case Unlink(_) => None
    case Rename(_, d) => Some(d)
  }

  predicate Shows(dir: Path, current: Option<Path>) {
    current.Some? && dir < current.value
  }

  function BaseNames(base: Tree, ops: seq<Op>, dir: Path, origin: Path): set<Name> {
    set n | n in ChildNames(base, origin) && Shows(dir, Forward(origin + [n], ops))
      :: Forward(origin + [n], ops).value[|dir|]
  }

  /** Where the node put in place by the operation at `i` ends up. */
  function TargetNow(ops: seq<Op>, i: nat): Option<Path>
    requires i < |ops|
  {
    match Target(ops[i])
    case None => None
    case Some(p) => Forward(p, ops[i + 1..])
  }

  function JournalNames(ops: seq<Op>, start: nat, dir: Path): set<Name> {
    set i: nat | start <= i < |ops| && Shows(dir, TargetNow(ops, i)) :: TargetNow(ops, i).value[|dir|]
  }

  /** A directory created by the journal can only hold what was journaled after it. */
  function Start(node: Node): nat {
    if node.LocalDir? then node.createdAt else 0
  }

  function Candidates(base: Tree, ops: seq<Op>, dir: Path, node: Node): set<Name> {
    JournalNames(ops, Start(node), dir) +
    if node.BaseDir? then BaseNames(base, ops, dir, node.origin) else {}
  }

  /** Candidate names that no longer resolve are dropped; any other failure is reported. */
  function StatAll(base: Tree, ops: seq<Op>, dir: Path, names: set<Name>): Result<map<Name, Kind>, Error> {
    if exists n | n in names :: Resolve(base, ops, dir + [n]) == Err(NotDirectory) then Err(NotDirectory)
    else Ok(map n | n in names && Resolve(base, ops, dir + [n]).Ok? :: Resolve(base, ops, dir + [n]).value.Kind())
  }

  function ReadDir(base: Tree, ops: seq<Op>, dir: Path): Result<map<Name, Kind>, Error> {
    match Resolve(base, ops, dir)
    case Err(e) => Err(e)
    case Ok(node) =>
      if !node.IsDir() then Err(NotDirectory)
      else StatAll(base, ops, dir, Candidates(base, ops, dir, node))
  }

  // ----- Admission, decided by the walks -----

  function RequireParent(base: Tree, ops: seq<Op>, p: Path): Result<(), Error>
    requires p != []
  {
    match Resolve(base, ops, Parent(p))
    case Err(e) => Err(e)
    case Ok(node) => if node.IsDir() then Ok(()) else Err(NotDirectory)
  }

  function AdmitWrite(base: Tree, ops: seq<Op>, p: Path): Result<(), Error> {
    if p == [] then Err(Invalid)
    else if RequireParent(base, ops, p).Err? then RequireParent(base, ops, p)
    else match Resolve(base, ops, p)
         case Ok(node) => if node.IsDir() then Err(NotFile) else Ok(())
         case Err(e) => if e == NotFound then Ok(()) else Err(e)
  }

  function AdmitMkdir(base: Tree, ops: seq<Op>, p: Path): Result<(), Error> {
    if p == [] then Err(Invalid)
    else if RequireParent(base, ops, p).Err? then RequireParent(base, ops, p)
    else match Resolve(base, ops, p)
         case Ok(_) => Err(AlreadyExists)
         case Err(e) => if e == NotFound then Ok(()) else Err(e)
  }

  /** An empty-directory check by listing; a listing error is passed on. */
  function RequireEmpty(base: Tree, ops: seq<Op>, p: Path): Result<(), Error> {
    match ReadDir(base, ops, p)
    case Err(e) => Err(e)
    case Ok(entries) => if entries != map[] then Err(NotEmpty) else Ok(())
  }

  function AdmitRemove(base: Tree, ops: seq<Op>, p: Path, directory: bool): Result<(), Error> {
    if p == [] then Err(Invalid)
    else match Resolve(base, ops, p)
         case Err(e) => Err(e)
         case Ok(node) =>
           if directory && !node.IsDir() then Err(NotDirectory)
           else if !directory && node.IsDir() then Err(NotFile)
           else if directory then RequireEmpty(base, ops, p)
           else Ok(())
  }

  function AdmitRename(base: Tree, ops: seq<Op>, s: Path, d: Path): Result<(), Error> {
    if s == [] || d == [] || s <= d then Err(Invalid)
    else match Resolve(base, ops, s)
         case Err(e) => Err(e)
         case Ok(source) =>
           if RequireParent(base, ops, d).Err? then RequireParent(base, ops, d) else AdmitOnto(base, ops, source, d)
  }

  function AdmitOnto(base: Tree, ops: seq<Op>, source: Node, d: Path): Result<(), Error> {
    match Resolve(base, ops, d)
    case Err(e) => if e == NotFound then Ok(()) else Err(e)
    case Ok(target) =>
      if source.IsDir() && !target.IsDir() then Err(NotDirectory)
      else if !source.IsDir() && target.IsDir() then Err(NotFile)
      else if target.IsDir() then RequireEmpty(base, ops, d)
      else Ok(())
  }

  predicate Admits(base: Tree, ops: seq<Op>, op: Op) {
    match op
    case Write(p, _) => AdmitWrite(base, ops, p).Ok?
    case Mkdir(p) => AdmitMkdir(base, ops, p).Ok?
    case Unlink(p) => AdmitRemove(base, ops, p, false).Ok? || AdmitRemove(base, ops, p, true).Ok?
    case Rename(s, d) => AdmitRename(base, ops, s, d).Ok?
  }

  /** Every entry was checked against the journal as it was before that entry. */
  predicate Admitted(base: Tree, ops: seq<Op>) {
    ops == [] ||
    (Admitted(base, ops[..|ops| - 1]) && Admits(base, ops[..|ops| - 1], ops[|ops| - 1]))
  }

  // ----- The tree the journal stands for -----

  function Replay(base: Tree, ops: seq<Op>): Tree {
    if ops == [] then base
    else Apply(Replay(base, ops[..|ops| - 1]), ops[|ops| - 1], |ops| - 1)
  }

  ghost predicate AllowedRun(base: Tree, ops: seq<Op>) {
    ops == [] ||
    (AllowedRun(base, ops[..|ops| - 1]) && Allowed(Replay(base, ops[..|ops| - 1]), ops[|ops| - 1]))
  }

  lemma {:induction false} ReplayIsProper(base: Tree, ops: seq<Op>)
    requires IsBase(base) && AllowedRun(base, ops)
    ensures Proper(Replay(base, ops))
  {
    if ops != [] {
      ReplayIsProper(base, ops[..|ops| - 1]);
      ApplyKeepsProper(Replay(base, ops[..|ops| - 1]), ops[|ops| - 1], |ops| - 1);
    }
  }

  // ----- Backward resolution agrees with replay -----

  /** One backward step of the walk, over the tree `t` reached before `op`. */
  function StepBack(t: Tree, op: Op, index: nat, p: Path): Result<Node, Error> {
    match op
    case Write(w, payload) =>
      if p == w then Ok(LocalFile(payload)) else if w < p then Err(NotDirectory) else Lookup(t, p)
    case Mkdir(m) =>
      if p == m then Ok(LocalDir(index + 1)) else if m < p then Err(NotFound) else Lookup(t, p)
    case Unlink(u) => if u <= p then Err(NotFound) else Lookup(t, p)
    case Rename(s, d) =>
      if d <= p then Lookup(t, Rebase(p, d, s)) else if s <= p then Err(NotFound) else Lookup(t, p)
  }

  /** If two trees agree on `p` and on every path above it, they answer alike. */
  lemma SameLookup(t: Tree, t': Tree, p: Path)
    requires p in t <==> p in t'
    requires p in t ==> t[p] == t'[p]
    requires forall k | 0 <= k < |p| :: p[..k] in t <==> p[..k] in t'
    requires forall k | 0 <= k < |p| && p[..k] in t :: t[p[..k]] == t'[p[..k]]
    ensures Lookup(t, p) == Lookup(t', p)
  {}

  lemma MissingIsNotFound(t: Tree, p: Path)
    requires p !in t
    requires forall k | 0 <= k < |p| && p[..k] in t :: t[p[..k]].IsDir()
    ensures Lookup(t, p) == Err(NotFound)
  {}

  lemma WriteStep(t: Tree, w: Path, payload: Cid, index: nat, p: Path)
    requires Proper(t) && CheckWrite(t, w).Ok?
    ensures StepBack(t, Write(w, payload), index, p) == Lookup(Apply(t, Write(w, payload), index), p)
  {
    var t' := Apply(t, Write(w, payload), index);
    ApplyKeepsProper(t, Write(w, payload), index);
    if w < p {
      NothingBelow(t', p, w);
      assert p[..|w|] == w;
    } else if p != w {
      SameLookup(t, t', p);
    }
  }

  lemma MkdirStep(t: Tree, m: Path, index: nat, p: Path)
    requires Proper(t) && CheckMkdir(t, m).Ok?
    ensures StepBack(t, Mkdir(m), index, p) == Lookup(Apply(t, Mkdir(m), index), p)
  {
    var t' := Apply(t, Mkdir(m), index);
    ApplyKeepsProper(t, Mkdir(m), index);
    if m < p {
      NothingBelow(t, p, m);
      forall k | 0 <= k < |p| && p[..k] in t' ensures t'[p[..k]].IsDir() {
        if k < |m| {
          AboveIsDirectory(t', m, p, k);
        } else if p[..k] != m {
          NothingBelow(t, p[..k], m);
        }
      }
      MissingIsNotFound(t', p);
    } else if p != m {
      SameLookup(t, t', p);
    }
  }

  lemma UnlinkStep(t: Tree, u: Path, index: nat, p: Path)
    requires Proper(t) && Allowed(t, Unlink(u))
    ensures StepBack(t, Unlink(u), index, p) == Lookup(Apply(t, Unlink(u), index), p)
  {
    var t' := Apply(t, Unlink(u), index);
    if u <= p {
      forall q | u < q ensures q !in t {
        if q in t {
          PrefixIsDirectory(t, q, u);
          assert HasChildren(t, u);
        }
      }
      assert forall k | |u| <= k < |p| :: u == p[..k] || u < p[..k];
      forall k | 0 <= k < |p| && p[..k] in t' ensures t'[p[..k]].IsDir() {
        if k < |u| {
          AboveIsDirectory(t, u, p, k);
        }
      }
      assert u == p || u < p;
      MissingIsNotFound(t', p);
    } else {
      SameLookup(t, t', p);
    }
  }

  lemma RenameStepGone(t: Tree, t': Tree, s: Path, d: Path, p: Path)
    requires Proper(t) && s in t && Moved(t, t', s, d) && s <= p && !(d <= p)
    ensures Lookup(t', p) == Err(NotFound)
  {
    forall k | 0 <= k < |p| && p[..k] in t' ensures t'[p[..k]].IsDir() {
      if k < |s| {
        AboveIsDirectory(t, s, p, k);
      }
    }
    MissingIsNotFound(t', p);
  }

  lemma RenameStepElsewhere(t: Tree, t': Tree, s: Path, d: Path, p: Path)
    requires Moved(t, t', s, d) && !(s <= p) && !(d <= p)
    ensures Lookup(t, p) == Lookup(t', p)
  {
    forall k | 0 <= k <= |p| ensures !(s <= p[..k]) && !(d <= p[..k]) {
      assert p[..k] <= p;
    }
    assert p[..|p|] == p;
    SameLookup(t, t', p);
  }

  lemma RenameStep(t: Tree, s: Path, d: Path, index: nat, p: Path)
    requires Proper(t) && CheckRename(t, s, d).Ok?
    ensures StepBack(t, Rename(s, d), index, p) == Lookup(Apply(t, Rename(s, d), index), p)
  {
    var t' := Move(t, s, d);
    RenameDisjoint(t, s, d);
    MoveContents(t, s, d);
    MovedKeepsProper(t, t', s, d);
    if d <= p {
      assert Rebase(d, d, s) == s;
      RenameStepInside(t, t', s, d, p);
    } else if s <= p {
      RenameStepGone(t, t', s, d, p);
    } else {
      RenameStepElsewhere(t, t', s, d, p);
    }
  }

  lemma RebaseBack(q: Path, from: Path, to: Path)
    requires from <= q
    ensures to <= Rebase(q, from, to) && Rebase(Rebase(q, from, to), to, from) == q
  {}

  /** Seen from the source, everything below it is below the destination. */
  lemma MovedBelow(t: Tree, t': Tree, s: Path, d: Path, q: Path)
    requires Moved(t, t', s, d) && s <= q
    ensures q in t <==> Rebase(q, s, d) in t'
    ensures q in t ==> t[q] == t'[Rebase(q, s, d)]
  {
    RebaseBack(q, s, d);
  }

  /** Below the destination, the files above a path are those above its old place. */
  lemma RenameStepInside(t: Tree, t': Tree, s: Path, d: Path, p: Path)
    requires Proper(t) && Proper(t') && s in t && d in t' && d <= p && Moved(t, t', s, d)
    ensures Lookup(t', p) == Lookup(t, Rebase(p, d, s))
  {
    var r := Rebase(p, d, s);
    RebaseBack(p, d, s);
    if UnderFile(t', p) {
      FileAboveMoves(t', t, d, s, p);
    }
    if UnderFile(t, r) {
      forall q | s <= q ensures q in t <==> Rebase(q, s, d) in t' ensures q in t ==> t[q] == t'[Rebase(q, s, d)] {
        MovedBelow(t, t', s, d, q);
      }
      FileAboveMoves(t, t', s, d, r);
    }
  }

  lemma FileAboveMoves(t: Tree, t': Tree, a: Path, a': Path, p: Path)
    requires Proper(t) && a in t && a <= p && UnderFile(t, p)
    requires forall q | a <= q :: q in t <==> Rebase(q, a, a') in t'
    requires forall q | a <= q && q in t :: t[q] == t'[Rebase(q, a, a')]
    ensures UnderFile(t', Rebase(p, a, a'))
  {
    var k :| 0 <= k < |p| && p[..k] in t && !t[p[..k]].IsDir();
    if k < |a| {
      AboveIsDirectory(t, a, p, k);
    }
    assert a <= p[..k];
    assert Rebase(p, a, a')[..k - |a| + |a'|] == Rebase(p[..k], a, a');
  }

  lemma AboveIsDirectory(t: Tree, a: Path, p: Path, k: nat)
    requires Proper(t) && a in t && a <= p && k < |a|
    ensures p[..k] in t && t[p[..k]].IsDir()
  {
    assert p[..k] == a[..k];
    AncestorsAreDirectories(t, a, k);
  }

  lemma OneStepBack(t: Tree, op: Op, index: nat, p: Path)
    requires Proper(t) && Allowed(t, op)
    ensures StepBack(t, op, index, p) == Lookup(Apply(t, op, index), p)
  {
    match op
    case Write(w, payload) => WriteStep(t, w, payload, index, p);
    case Mkdir(m) => MkdirStep(t, m, index, p);
    case Unlink(u) => UnlinkStep(t, u, index, p);
    case Rename(s, d) => RenameStep(t, s, d, index, p);
  }

  /** Walking the journal backwards finds exactly what replaying it forwards has there. */
  lemma {:induction false} ResolveIsLookup(base: Tree, ops: seq<Op>, p: Path)
    requires IsBase(base) && AllowedRun(base, ops)
    ensures Resolve(base, ops, p) == Lookup(Replay(base, ops), p)
    decreases |ops|
  {
    if ops != [] {
      var earlier, op := ops[..|ops| - 1], ops[|ops| - 1];
      var t := Replay(base, earlier);
      ReplayIsProper(base, earlier);
      OneStepBack(t, op, |ops| - 1, p);
      ResolveIsLookup(base, earlier, p);
      if op.Rename? && op.destination <= p {
        ResolveIsLookup(base, earlier, Rebase(p, op.destination, op.path));
      }
    }
  }

  // ----- Forward listing agrees with replay -----

  predicate FromJournal(ops: seq<Op>, start: nat, c: Path) {
    exists i: nat | start <= i < |ops| :: TargetNow(ops, i) == Some(c)
  }

  predicate FromBase(base: Tree, ops: seq<Op>, node: Node, c: Path) {
    node.BaseDir? && exists n | n in ChildNames(base, node.origin) :: Forward(node.origin + [n], ops) == Some(c)
  }

  /** `c`, a child of the directory `node`, is met by one of the two forward scans. */
  predicate Evident(base: Tree, ops: seq<Op>, node: Node, c: Path) {
    FromJournal(ops, Start(node), c) || FromBase(base, ops, node, c)
  }

  /** One more operation carries the evidence for `c` to wherever it carries `c`. */
  lemma EvidenceMoves(base: Tree, ops: seq<Op>, op: Op, node: Node, c: Path, c': Path)
    requires Evident(base, ops, node, c) && ForwardStep(c, op) == Some(c')
    ensures Evident(base, ops + [op], node, c')
  {
    if FromJournal(ops, Start(node), c) {
      var i: nat :| Start(node) <= i < |ops| && TargetNow(ops, i) == Some(c);
      TargetMoves(ops, op, i, c, c');
      assert FromJournal(ops + [op], Start(node), c');
    } else {
      var n :| n in ChildNames(base, node.origin) && Forward(node.origin + [n], ops) == Some(c);
      ForwardMoves(ops, op, node.origin + [n], c, c');
    }
  }

  lemma TargetMoves(ops: seq<Op>, op: Op, i: nat, c: Path, c': Path)
    requires i < |ops| && TargetNow(ops, i) == Some(c) && ForwardStep(c, op) == Some(c')
    ensures TargetNow(ops + [op], i) == Some(c')
  {
    var later := (ops + [op])[i + 1..];
    assert later[..|later| - 1] == ops[i + 1..] && later[|later| - 1] == op;
  }

  lemma ForwardMoves(ops: seq<Op>, op: Op, b: Path, c: Path, c': Path)
    requires Forward(b, ops) == Some(c) && ForwardStep(c, op) == Some(c')
    ensures Forward(b, ops + [op]) == Some(c')
  {
    assert (ops + [op])[..|ops|] == ops;
  }

  lemma NewestIsEvident(base: Tree, ops: seq<Op>, op: Op, node: Node)
    requires Target(op).Some? && Start(node) <= |ops|
    ensures Evident(base, ops + [op], node, Target(op).value)
  {
    var all := ops + [op];
    assert all[|ops| + 1..] == [];
    assert TargetNow(all, |ops|) == Target(op);
  }

  /** Directories are stamped with journal positions that have already been used. */
  lemma {:induction false} StampsArePast(base: Tree, ops: seq<Op>, p: Path)
    requires IsBase(base) && p in Replay(base, ops)
    ensures Start(Replay(base, ops)[p]) <= |ops|
    decreases |ops|
  {
    if ops != [] {
      var earlier, op := ops[..|ops| - 1], ops[|ops| - 1];
      var t := Replay(base, earlier);
      if op.Rename? {
        MoveContents(t, op.path, op.destination);
        if op.destination <= p {
          StampsArePast(base, earlier, Rebase(p, op.destination, op.path));
        } else {
          StampsArePast(base, earlier, p);
        }
      } else if p in t {
        StampsArePast(base, earlier, p);
      }
    }
  }

  /** Where the node that `op` left at `c` was before, unless `op` put it there. */
  function Before(op: Op, c: Path): Path {
    if op.Rename? && op.destination <= c then Rebase(c, op.destination, op.path) else c
  }

  lemma ChildBefore(t: Tree, op: Op, index: nat, c: Path)
    requires Proper(t) && Allowed(t, op)
    requires c != [] && c in Apply(t, op, index) && Target(op) != Some(c)
    ensures var was := Before(op, c);
            && was != [] && was in t && Parent(was) in t && ForwardStep(was, op) == Some(c)
            && Parent(c) in Apply(t, op, index) && Apply(t, op, index)[Parent(c)] == t[Parent(was)]
  {
    if op.Rename? {
      MoveContents(t, op.path, op.destination);
      MovedChildBefore(t, Apply(t, op, index), op.path, op.destination, c);
    } else {
      KeptChildBefore(t, op, index, c);
    }
  }

  lemma KeptChildBefore(t: Tree, op: Op, index: nat, c: Path)
    requires Proper(t) && Allowed(t, op) && !op.Rename?
    requires c != [] && c in Apply(t, op, index) && Target(op) != Some(c)
    ensures c in t && Parent(c) in t && ForwardStep(c, op) == Some(c)
    ensures Parent(c) in Apply(t, op, index) && Apply(t, op, index)[Parent(c)] == t[Parent(c)]
  {
    ApplyKeepsProper(t, op, index);
    if op.path < c && !op.Unlink? {
      NothingBelow(if op.Write? then Apply(t, op, index) else t, c, op.path);
    }
    if op.path < c && op.Unlink? {
      assert HasChildren(t, op.path);
      PrefixIsDirectory(t, c, op.path);
    }
    assert op.path <= c ==> op.path == c || op.path < c;
    assert Parent(c) < c;
  }

  lemma MovedChildBefore(t: Tree, t': Tree, s: Path, d: Path, c: Path)
    requires Proper(t) && CheckRename(t, s, d).Ok? && Moved(t, t', s, d)
    requires c != [] && c in t' && c != d
    ensures var was := Before(Rename(s, d), c);
            && was != [] && was in t && Parent(was) in t && ForwardStep(was, Rename(s, d)) == Some(c)
            && Parent(c) in t' && t'[Parent(c)] == t[Parent(was)]
  {
    RenameDisjoint(t, s, d);
    if d <= c {
      MovedChildInside(t, t', s, d, c);
    } else {
      MovedChildOutside(t, t', s, d, c);
    }
  }

  lemma MovedChildInside(t: Tree, t': Tree, s: Path, d: Path, c: Path)
    requires Proper(t) && s != [] && Moved(t, t', s, d) && !(s <= d) && !(d <= s)
    requires c in t' && d < c
    ensures var was := Rebase(c, d, s);
            && was != [] && was in t && Parent(was) in t && ForwardStep(was, Rename(s, d)) == Some(c)
            && Parent(c) in t' && t'[Parent(c)] == t[Parent(was)]
  {
    var was := Rebase(c, d, s);
    assert d <= Parent(c) && Parent(was) == Rebase(Parent(c), d, s);
    assert Rebase(was, s, d) == c && s <= was;
  }

  lemma MovedChildOutside(t: Tree, t': Tree, s: Path, d: Path, c: Path)
    requires Proper(t) && Moved(t, t', s, d) && c != [] && c in t' && !(d <= c)
    ensures c in t && Parent(c) in t && ForwardStep(c, Rename(s, d)) == Some(c)
    ensures Parent(c) in t' && t'[Parent(c)] == t[Parent(c)]
  {
    assert c in t && !(s <= c);
    assert !(d <= Parent(c)) && !(s <= Parent(c));
  }

  lemma TargetParent(t: Tree, op: Op, index: nat)
    requires Proper(t) && Allowed(t, op) && Target(op).Some?
    ensures var c := Target(op).value;
            && c != [] && Parent(c) in t && Parent(c) in Apply(t, op, index)
            && Apply(t, op, index)[Parent(c)] == t[Parent(c)]
  {
    if op.Rename? {
      RenameDisjoint(t, op.path, op.destination);
      MoveContents(t, op.path, op.destination);
    }
  }

  /** Every node of the replayed tree below a directory is met by a forward scan. */
  lemma {:induction false} ChildrenAreEvident(base: Tree, ops: seq<Op>, c: Path)
    requires IsBase(base) && AllowedRun(base, ops)
    requires c in Replay(base, ops) && c != []
    ensures Parent(c) in Replay(base, ops) && Evident(base, ops, Replay(base, ops)[Parent(c)], c)
    decreases |ops|
  {
    if ops == [] {
      BaseChildIsEvident(base, c);
    } else {
      var earlier, op := ops[..|ops| - 1], ops[|ops| - 1];
      var t := Replay(base, earlier);
      assert ops == earlier + [op];
      if Target(op) == Some(c) {
        TargetIsEvident(base, earlier, op, c);
      } else {
        ReplayIsProper(base, earlier);
        ChildBefore(t, op, |earlier|, c);
        ChildrenAreEvident(base, earlier, Before(op, c));
        EvidenceMoves(base, earlier, op, t[Parent(Before(op, c))], Before(op, c), c);
      }
    }
  }

  lemma ChildIsNamed(t: Tree, c: Path)
    requires c in t && c != []
    ensures c[|c| - 1] in ChildNames(t, Parent(c)) && Parent(c) + [c[|c| - 1]] == c
  {
    assert Parent(c) <= c;
  }

  lemma BaseChildIsEvident(base: Tree, c: Path)
    requires IsBase(base) && c in base && c != []
    ensures Parent(c) in base && Evident(base, [], base[Parent(c)], c)
  {
    ChildIsNamed(base, c);
    assert base[Parent(c)].origin == Parent(c);
    assert Forward(Parent(c) + [c[|c| - 1]], []) == Some(c);
    assert FromBase(base, [], base[Parent(c)], c);
  }

  lemma TargetIsEvident(base: Tree, earlier: seq<Op>, op: Op, c: Path)
    requires IsBase(base) && AllowedRun(base, earlier) && Allowed(Replay(base, earlier), op) && Target(op) == Some(c)
    requires c != []
    ensures var after := Apply(Replay(base, earlier), op, |earlier|);
            Parent(c) in after && Evident(base, earlier + [op], after[Parent(c)], c)
  {
    ReplayIsProper(base, earlier);
    TargetParent(Replay(base, earlier), op, |earlier|);
    StampsArePast(base, earlier, Parent(c));
    NewestIsEvident(base, earlier, op, Apply(Replay(base, earlier), op, |earlier|)[Parent(c)]);
  }

  lemma EvidentIsCandidate(base: Tree, ops: seq<Op>, dir: Path, node: Node, n: Name)
    requires Evident(base, ops, node, dir + [n])
    ensures n in Candidates(base, ops, dir, node)
  {
    var c := dir + [n];
    assert Shows(dir, Some(c)) && c[|dir|] == n;
    if FromJournal(ops, Start(node), c) {
      var i: nat :| Start(node) <= i < |ops| && TargetNow(ops, i) == Some(c);
    } else {
      var m :| m in ChildNames(base, node.origin) && Forward(node.origin + [m], ops) == Some(c);
    }
  }

  /** Listing by the forward scans gives exactly the immediate children in the replayed tree. */
  lemma ReadDirIsListing(base: Tree, ops: seq<Op>, dir: Path)
    requires IsBase(base) && AllowedRun(base, ops)
    ensures ReadDir(base, ops, dir) == Listing(Replay(base, ops), dir)
  {
    var t := Replay(base, ops);
    ResolveIsLookup(base, ops, dir);
    if dir in t && t[dir].IsDir() {
      forall n ensures Resolve(base, ops, dir + [n]) == if dir + [n] in t then Ok(t[dir + [n]]) else Err(NotFound)
      {
        ReplayIsProper(base, ops);
        ResolveIsLookup(base, ops, dir + [n]);
        ChildOfDirectory(t, dir, n);
      }
      forall n | dir + [n] in t ensures n in Candidates(base, ops, dir, t[dir]) {
        assert Parent(dir + [n]) == dir;
        ChildrenAreEvident(base, ops, dir + [n]);
        EvidentIsCandidate(base, ops, dir, t[dir], n);
      }
      FilteredListing(base, ops, t, dir);
    }
  }

  lemma FilteredListing(base: Tree, ops: seq<Op>, t: Tree, dir: Path)
    requires dir in t && t[dir].IsDir() && Resolve(base, ops, dir) == Ok(t[dir])
    requires forall n :: Resolve(base, ops, dir + [n]) == if dir + [n] in t then Ok(t[dir + [n]]) else Err(NotFound)
    requires forall n | dir + [n] in t :: n in Candidates(base, ops, dir, t[dir])
    ensures ReadDir(base, ops, dir) == Listing(t, dir)
  {
    ListedNames(t, dir);
    var found, listed := ReadDir(base, ops, dir).value, Listing(t, dir).value;
    forall n | n in found ensures n in listed {
      assert (dir + [n])[|dir|] == n;
    }
    assert found.Keys == listed.Keys;
    assert found == listed;
  }

  lemma ChildOfDirectory(t: Tree, dir: Path, n: Name)
    requires Proper(t) && dir in t && t[dir].IsDir()
    ensures Lookup(t, dir + [n]) == if dir + [n] in t then Ok(t[dir + [n]]) else Err(NotFound)
  {
    var c := dir + [n];
    forall k | 0 <= k < |c| && c[..k] in t ensures t[c[..k]].IsDir() {
      if k < |dir| {
        AboveIsDirectory(t, dir, c, k);
      } else {
        assert c[..k] == dir;
      }
    }
  }

  // ----- Admission by the walks is admission on the tree -----

  lemma SameParentCheck(base: Tree, ops: seq<Op>, p: Path)
    requires IsBase(base) && AllowedRun(base, ops) && p != []
    ensures RequireParent(base, ops, p) == CheckParent(Replay(base, ops), p)
  {
    ResolveIsLookup(base, ops, Parent(p));
  }

  /** Below an existing directory a path is either there or simply not found. */
  lemma LookupUnderParent(t: Tree, p: Path)
    requires Proper(t) && p != [] && CheckParent(t, p).Ok?
    ensures Lookup(t, p) == if p in t then Ok(t[p]) else Err(NotFound)
  {
    assert Parent(p) + [p[|p| - 1]] == p;
    ChildOfDirectory(t, Parent(p), p[|p| - 1]);
  }

  lemma ResolveUnderParent(base: Tree, ops: seq<Op>, p: Path)
    requires IsBase(base) && AllowedRun(base, ops)
    requires p != [] && RequireParent(base, ops, p).Ok?
    ensures Resolve(base, ops, p) ==
            if p in Replay(base, ops) then Ok(Replay(base, ops)[p]) else Err(NotFound)
  {
    ReplayIsProper(base, ops);
    SameParentCheck(base, ops, p);
    ResolveIsLookup(base, ops, p);
    LookupUnderParent(Replay(base, ops), p);
  }

  lemma SameEmptyCheck(base: Tree, ops: seq<Op>, p: Path)
    requires IsBase(base) && AllowedRun(base, ops)
    requires p in Replay(base, ops) && Replay(base, ops)[p].IsDir()
    ensures RequireEmpty(base, ops, p) == if HasChildren(Replay(base, ops), p) then Err(NotEmpty) else Ok(())
  {
    var t := Replay(base, ops);
    ReplayIsProper(base, ops);
    ReadDirIsListing(base, ops, p);
    HasChildrenMeansChild(t, p);
    ListedNames(t, p);
    assert Listing(t, p).value == map[] <==> Listing(t, p).value.Keys == {};
  }

  lemma SameWriteCheck(base: Tree, ops: seq<Op>, p: Path)
    requires IsBase(base) && AllowedRun(base, ops)
    ensures AdmitWrite(base, ops, p) == CheckWrite(Replay(base, ops), p)
  {
    if p != [] {
      SameParentCheck(base, ops, p);
      if RequireParent(base, ops, p).Ok? {
        ResolveUnderParent(base, ops, p);
      }
    }
  }

  lemma SameMkdirCheck(base: Tree, ops: seq<Op>, p: Path)
    requires IsBase(base) && AllowedRun(base, ops)
    ensures AdmitMkdir(base, ops, p) == CheckMkdir(Replay(base, ops), p)
  {
    if p != [] {
      SameParentCheck(base, ops, p);
      if RequireParent(base, ops, p).Ok? {
        ResolveUnderParent(base, ops, p);
      }
    }
  }

  lemma SameRemoveCheck(base: Tree, ops: seq<Op>, p: Path, directory: bool)
    requires IsBase(base) && AllowedRun(base, ops)
    ensures AdmitRemove(base, ops, p, directory) == CheckRemove(Replay(base, ops), p, directory)
  {
    ResolveIsLookup(base, ops, p);
    if p in Replay(base, ops) && Replay(base, ops)[p].IsDir() {
      SameEmptyCheck(base, ops, p);
    }
  }

  lemma SameOntoCheck(base: Tree, ops: seq<Op>, source: Node, d: Path)
    requires IsBase(base) && AllowedRun(base, ops) && d != [] && RequireParent(base, ops, d).Ok?
    ensures AdmitOnto(base, ops, source, d) == CheckOnto(Replay(base, ops), source, d)
  {
    ResolveUnderParent(base, ops, d);
    if d in Replay(base, ops) && Replay(base, ops)[d].IsDir() {
      SameEmptyCheck(base, ops, d);
    }
  }

  lemma SameRenameCheck(base: Tree, ops: seq<Op>, s: Path, d: Path)
    requires IsBase(base) && AllowedRun(base, ops)
    ensures AdmitRename(base, ops, s, d) == CheckRename(Replay(base, ops), s, d)
  {
    if s != [] && d != [] && !(s <= d) {
      ResolveIsLookup(base, ops, s);
      SameParentCheck(base, ops, d);
      if Resolve(base, ops, s).Ok? && RequireParent(base, ops, d).Ok? {
        SameOntoCheck(base, ops, Resolve(base, ops, s).value, d);
      }
    }
  }

  lemma SameAdmission(base: Tree, ops: seq<Op>, op: Op)
    requires IsBase(base) && AllowedRun(base, ops)
    ensures Admits(base, ops, op) <==> Allowed(Replay(base, ops), op)
  {
    match op
    case Write(p, _) => SameWriteCheck(base, ops, p);
    case Mkdir(p) => SameMkdirCheck(base, ops, p);
    case Unlink(p) =>
      SameRemoveCheck(base, ops, p, false);
      SameRemoveCheck(base, ops, p, true);
    case Rename(s, d) => SameRenameCheck(base, ops, s, d);
  }

  /**
   A journal grown through the walks' own checks is exactly a run of allowed operations on
   the tree. Each check relies on walks that are only right because of the earlier checks.
   */
  lemma {:induction false} AdmittedIsAllowed(base: Tree, ops: seq<Op>)
    requires IsBase(base)
    ensures Admitted(base, ops) <==> AllowedRun(base, ops)
  {
    if ops != [] {
      AdmittedIsAllowed(base, ops[..|ops| - 1]);
      if AllowedRun(base, ops[..|ops| - 1]) {
        SameAdmission(base, ops[..|ops| - 1], ops[|ops| - 1]);
      }
    }
  }

  // ----- The two main theorems, for admitted journals -----

  /** For every base, every admitted journal and every path, the overlay is the replayed tree. */
  lemma OverlayIsReplay(base: Tree, ops: seq<Op>, p: Path)
    requires IsBase(base) && Admitted(base, ops)
    ensures Proper(Replay(base, ops))
    ensures Resolve(base, ops, p) == Lookup(Replay(base, ops), p)
    ensures ReadDir(base, ops, p) == Listing(Replay(base, ops), p)
  {
    AdmittedIsAllowed(base, ops);
    ReplayIsProper(base, ops);
    ResolveIsLookup(base, ops, p);
    ReadDirIsListing(base, ops, p);
  }

  /** A base node that is still visible at `c` is carried to `c` by the forward walk. */
  lemma {:induction false} BackwardThenForward(base: Tree, ops: seq<Op>, c: Path)
    requires IsBase(base) && AllowedRun(base, ops)
    requires c in Replay(base, ops) && (Replay(base, ops)[c].BaseFile? || Replay(base, ops)[c].BaseDir?)
    ensures Forward(Replay(base, ops)[c].origin, ops) == Some(c)
    decreases |ops|
  {
    if ops != [] {
      var earlier, op := ops[..|ops| - 1], ops[|ops| - 1];
      var t := Replay(base, earlier);
      ReplayIsProper(base, earlier);
      if op.Rename? && op.destination == c {
        MoveContents(t, op.path, op.destination);
        assert Rebase(c, op.destination, op.path) == op.path;
        assert Rebase(op.path, op.path, c) == c;
        BackwardThenForward(base, earlier, op.path);
      } else if c == [] {
        BackwardThenForward(base, earlier, c);
      } else {
        ChildBefore(t, op, |earlier|, c);
        BeforeIsSame(t, op, |earlier|, c);
        BackwardThenForward(base, earlier, Before(op, c));
      }
    }
  }

  lemma BeforeIsSame(t: Tree, op: Op, index: nat, c: Path)
    requires Proper(t) && Allowed(t, op) && c in Apply(t, op, index) && Target(op) != Some(c)
    ensures Before(op, c) in t && Apply(t, op, index)[c] == t[Before(op, c)]
  {
    if op.Rename? {
      MoveContents(t, op.path, op.destination);
    }
  }

  /** What the forward walk carries a base node to is that node, or a file written over it. */
  lemma {:induction false} ForwardThenBackward(base: Tree, ops: seq<Op>, b: Path)
    requires IsBase(base) && AllowedRun(base, ops)
    requires b in base && Forward(b, ops).Some?
    ensures var c := Forward(b, ops).value;
            c in Replay(base, ops) && (Replay(base, ops)[c] == base[b] ||
                                       (base[b].BaseFile? && Replay(base, ops)[c].LocalFile?))
    decreases |ops|
  {
    if ops != [] {
      var earlier, op := ops[..|ops| - 1], ops[|ops| - 1];
      var t := Replay(base, earlier);
      ReplayIsProper(base, earlier);
      ForwardThenBackward(base, earlier, b);
      var was, c := Forward(b, earlier).value, Forward(b, ops).value;
      if op.Rename? {
        MoveContents(t, op.path, op.destination);
        if op.path <= was {
          assert Rebase(Rebase(was, op.path, op.destination), op.destination, op.path) == was;
        }
      }
    }
  }
}
