/**
 The conservative three-way merge of plaintext trees: one-sided changes are taken, concurrent
 changes of one path are conflicts, and a merged tree whose parts do not fit together is a
 conflict too.
 */
module Merge {
  import opened Wrappers
  import opened Paths

  datatype Shape = DirShape | FileShape | LinkShape

  /** A scanned path; `source` is where its bytes lie and plays no part in comparing. */
  datatype TreeNode = TreeNode(shape: Shape, mode: nat, digest: nat, link: string, source: nat)

  type Tree = map<Path, TreeNode>

  function At(t: Tree, p: Path): Option<TreeNode> {
    if p in t then Some(t[p]) else None
  }

  predicate SameTreeNode(left: Option<TreeNode>, right: Option<TreeNode>) {
    if left.None? || right.None? then left.None? && right.None?
    else
      && left.value.shape == right.value.shape && left.value.mode == right.value.mode
      && left.value.digest == right.value.digest && left.value.link == right.value.link
  }

  /** Everything lies in a directory of the tree; the root itself is not part of it. */
  predicate Proper(t: Tree) {
    [] !in t && forall p | p in t && |p| > 1 :: Parent(p) in t && t[Parent(p)].shape == DirShape
  }

  /** Something above `p` is missing or no directory. */
  predicate Misfit(t: Tree, p: Path) {
    p in t && exists k | 0 < k < |p| :: p[..k] !in t || t[p[..k]].shape != DirShape
  }

  // ----- What a merge is -----

  predicate Conflicts(base: Tree, local: Tree, remote: Tree, p: Path) {
    && !SameTreeNode(At(local, p), At(remote, p))
    && !SameTreeNode(At(local, p), At(base, p))
    && !SameTreeNode(At(remote, p), At(base, p))
  }

  function Choice(base: Tree, local: Tree, remote: Tree, p: Path): Option<TreeNode> {
    if SameTreeNode(At(local, p), At(remote, p)) then At(local, p)
    else if SameTreeNode(At(local, p), At(base, p)) then At(remote, p)
    else At(local, p)
  }

  function Selected(base: Tree, local: Tree, remote: Tree): Tree {
    map p | p in local.Keys + remote.Keys && Choice(base, local, remote, p).Some? ::
      Choice(base, local, remote, p).value
  }

  ghost predicate Agreed(base: Tree, local: Tree, remote: Tree) {
    forall p :: !Conflicts(base, local, remote, p)
  }

  /** The same tree, wherever the bytes come from. */
  ghost predicate SameTree(a: Tree, b: Tree) {
    forall p :: SameTreeNode(At(a, p), At(b, p))
  }

  // ----- Laws -----

  /** Two nodes count as the same exactly if they differ at most in where their bytes lie. */
  lemma SameUpToSource(left: Option<TreeNode>, right: Option<TreeNode>)
    ensures SameTreeNode(left, right) <==>
            || left == right
            || (left.Some? && right.Some? && left.value == right.value.(source := left.value.source))
  {}

  lemma SelectedAt(base: Tree, local: Tree, remote: Tree, p: Path)
    ensures At(Selected(base, local, remote), p) == Choice(base, local, remote, p)
  {}

  /** Neither side is preferred. */
  lemma MergeIsSymmetric(base: Tree, local: Tree, remote: Tree, p: Path)
    ensures Conflicts(base, local, remote, p) <==> Conflicts(base, remote, local, p)
    ensures !Conflicts(base, local, remote, p) ==>
              SameTreeNode(At(Selected(base, local, remote), p), At(Selected(base, remote, local), p))
  {
    SelectedAt(base, local, remote, p);
    SelectedAt(base, remote, local, p);
  }

  /** A path changed on one side only ends up as that side has it; a path changed on neither
      stays; a path changed alike on both is that. */
  lemma OneSidedChange(base: Tree, local: Tree, remote: Tree, p: Path)
    requires !Conflicts(base, local, remote, p)
    ensures SameTreeNode(At(remote, p), At(base, p)) ==>
              SameTreeNode(At(Selected(base, local, remote), p), At(local, p))
    ensures SameTreeNode(At(local, p), At(base, p)) ==>
              SameTreeNode(At(Selected(base, local, remote), p), At(remote, p))
    ensures SameTreeNode(At(local, p), At(remote, p)) ==>
              SameTreeNode(At(Selected(base, local, remote), p), At(local, p))
  {
    SelectedAt(base, local, remote, p);
  }

  lemma SameIsProper(a: Tree, b: Tree)
    requires SameTree(a, b) && Proper(a)
    ensures Proper(b)
  {
    assert SameTreeNode(At(a, []), At(b, []));
    forall p | p in b && |p| > 1 ensures Parent(p) in b && b[Parent(p)].shape == DirShape {
      assert SameTreeNode(At(a, p), At(b, p)) && SameTreeNode(At(a, Parent(p)), At(b, Parent(p)));
    }
  }

  /** If one side has not changed, the merge succeeds and is the other side. */
  lemma UnchangedSide(base: Tree, local: Tree, remote: Tree)
    requires SameTree(local, base) && Proper(remote)
    ensures Agreed(base, local, remote) && Agreed(base, remote, local)
    ensures SameTree(Selected(base, local, remote), remote) && Proper(Selected(base, local, remote))
    ensures SameTree(Selected(base, remote, local), remote) && Proper(Selected(base, remote, local))
  {
    forall p
      ensures !Conflicts(base, local, remote, p) && !Conflicts(base, remote, local, p)
      ensures SameTreeNode(At(Selected(base, local, remote), p), At(remote, p))
      ensures SameTreeNode(At(remote, p), At(Selected(base, local, remote), p))
      ensures SameTreeNode(At(Selected(base, remote, local), p), At(remote, p))
      ensures SameTreeNode(At(remote, p), At(Selected(base, remote, local), p))
    {
      assert SameTreeNode(At(local, p), At(base, p));
      OneSidedChange(base, local, remote, p);
      OneSidedChange(base, remote, local, p);
    }
    SameIsProper(remote, Selected(base, local, remote));
    SameIsProper(remote, Selected(base, remote, local));
  }

  /** Two sides that change apart never fail to fit: a merged tree is improper only where one
      side needs a directory that the other took away. */
  lemma MisfitHasACause(base: Tree, local: Tree, remote: Tree, p: Path)
    requires Proper(local) && Proper(remote) && Agreed(base, local, remote)
    requires var t := Selected(base, local, remote);
             p in t && |p| > 1 && !(Parent(p) in t && t[Parent(p)].shape == DirShape)
    ensures !SameTreeNode(At(local, p), At(remote, p)) && !SameTreeNode(At(local, Parent(p)), At(remote, Parent(p)))
    ensures (p in local && Parent(p) in local && !(Parent(p) in remote && remote[Parent(p)].shape == DirShape)) ||
            (p in remote && Parent(p) in remote && !(Parent(p) in local && local[Parent(p)].shape == DirShape))
  {
    SelectedAt(base, local, remote, p);
    SelectedAt(base, local, remote, Parent(p));
  }

  // ----- The merge, step by step -----

  datatype Merged = Merged(tree: Tree) | Conflicting(paths: set<Path>)

  method MergeTrees(base: Tree, local: Tree, remote: Tree) returns (r: Merged)
    requires Proper(local) && Proper(remote)
    ensures r.Merged? <==> Agreed(base, local, remote) && Proper(Selected(base, local, remote))
    ensures r.Merged? ==> r.tree == Selected(base, local, remote)
    ensures r.Conflicting? && !Agreed(base, local, remote) ==> forall p ::
              p in r.paths <==> Conflicts(base, local, remote, p)
    ensures r.Conflicting? && Agreed(base, local, remote) ==>
              exists p :: r.paths == {p} && Misfit(Selected(base, local, remote), p)
  {
    var selected: Tree, conflicts: set<Path> := map[], {};
    var rest := base.Keys + local.Keys + remote.Keys;
    ghost var all := rest;
    while rest != {}
      invariant rest <= all
      invariant forall p :: p in conflicts <==> p in all - rest && Conflicts(base, local, remote, p)
      invariant forall p :: p in selected ==> p in all - rest
      invariant forall p | p in all - rest && !Conflicts(base, local, remote, p) ::
          At(selected, p) == Choice(base, local, remote, p)
      decreases rest
    {
      var p :| p in rest;
      rest := rest - {p};
      if Conflicts(base, local, remote, p) {
        conflicts := conflicts + {p};
      } else if Choice(base, local, remote, p).Some? {
        selected := selected[p := Choice(base, local, remote, p).value];
      }
    }
    if conflicts != {} {
      ghost var p :| p in conflicts;
      assert Conflicts(base, local, remote, p);
      return Conflicting(conflicts);
    }
    assert Agreed(base, local, remote) by {
      forall p ensures !Conflicts(base, local, remote, p) {
        assert p !in conflicts;
      }
    }
    assert selected == Selected(base, local, remote) by {
      forall p ensures At(selected, p) == At(Selected(base, local, remote), p) {
        SelectedAt(base, local, remote, p);
      }
      SameLookups(selected, Selected(base, local, remote));
    }
    SelectedAt(base, local, remote, []);
    var misfit := FindMisfit(selected);
    return if misfit.Some? then Conflicting({misfit.value}) else Merged(selected);
  }

  lemma SameLookups(a: Tree, b: Tree)
    requires forall p :: At(a, p) == At(b, p)
    ensures a == b
  {
    forall p ensures p in a <==> p in b ensures p in a ==> a[p] == b[p] {
      assert At(a, p) == At(b, p);
    }
  }

  /** Climbs from every path to the root. */
  method FindMisfit(t: Tree) returns (r: Option<Path>)
    requires [] !in t
    ensures r.None? <==> Proper(t)
    ensures r.Some? ==> Misfit(t, r.value)
  {
    var rest := t.Keys;
    while rest != {}
      invariant rest <= t.Keys
      invariant forall p | p in t && p !in rest && |p| > 1 :: Parent(p) in t && t[Parent(p)].shape == DirShape
      decreases rest
    {
      var p :| p in rest;
      rest := rest - {p};
      var above := Parent(p);
      while above != []
        invariant |above| < |p| && above == p[..|above|]
        invariant |above| < |p| - 1 ==> Parent(p) in t && t[Parent(p)].shape == DirShape
        decreases |above|
      {
        if above !in t || t[above].shape != DirShape {
          if Proper(t) { ProperAncestors(t, p, |above|); }
          assert p[..|above|] == above;
          return Some(p);
        }
        above := Parent(above);
      }
    }
    return None;
  }

  lemma {:induction false} ProperAncestors(t: Tree, p: Path, k: nat)
    requires Proper(t) && p in t && 0 < k < |p|
    ensures p[..k] in t && t[p[..k]].shape == DirShape
    decreases |p|
  {
    if k < |p| - 1 {
      ProperAncestors(t, Parent(p), k);
      assert Parent(p)[..k] == p[..k];
    }
  }

  // ----- Writing the merged tree -----

  class Disk {
    var written: Tree

    constructor ()
      ensures written == map[]
    {
      written := map[];
    }

    /** A path can be made only inside an existing directory. */
    method Create(p: Path, node: TreeNode)
      requires p != [] && p !in written
      requires |p| > 1 ==> Parent(p) in written && written[Parent(p)].shape == DirShape
      modifies this
      ensures written == old(written)[p := node]
    {
      written := written[p := node];
    }

    /** Writes a tree shallowest paths first, so that every parent is there before its children. */
    method WriteTree(t: Tree)
      requires Proper(t) && written == map[]
      modifies this
      ensures written == t
    {
      var rest, depth := t.Keys, 1;
      while rest != {}
        invariant rest <= t.Keys
        invariant written == map p | p in t && p !in rest :: t[p]
        invariant forall p | p in rest :: |p| >= depth
        invariant depth >= 1
        decreases rest, Deepest(t.Keys) - depth
      {
        DeepestBounds(t.Keys);
        if p :| p in rest && |p| == depth {
          assert |p| > 1 ==> Parent(p) !in rest;
          Create(p, t[p]);
          rest := rest - {p};
        } else {
          var p :| p in rest;
          depth := depth + 1;
        }
      }
    }
  }

  ghost function Deepest(paths: set<Path>): nat
    decreases paths
  {
    if paths == {} then 0
    else
      var p :| p in paths;
      var below := Deepest(paths - {p});
      if |p| > below then |p| else below
  }

  lemma {:induction false} DeepestBounds(paths: set<Path>)
    ensures forall p | p in paths :: |p| <= Deepest(paths)
    decreases paths
  {
    if paths != {} {
      var p :| p in paths && Deepest(paths) == var below := Deepest(paths - {p}); if |p| > below then |p| else below;
      DeepestBounds(paths - {p});
    }
  }
}
