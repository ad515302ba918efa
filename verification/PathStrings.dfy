/**
 The slash-separated strings the client handles paths as, and the helper functions on them.
 Each helper is related to the corresponding operation on segments, for all canonical paths.
 */
module PathStrings {
  import opened Paths

  predicate ValidName(n: Name) {
    n != "" && '/' !in n
  }

  predicate Canonical(p: Path) {
    forall n | n in p :: ValidName(n)
  }

  /** Joining the segments with slashes. */
  function Render(p: Path): string {
    if p == [] then ""
    else if |p| == 1 then p[0]
    else p[0] + "/" + Render(p[1..])
  }

  // ----- The helpers -----

  predicate HasPrefix(s: string, prefix: string) {
    prefix <= s
  }

  function TrimPrefix(s: string, prefix: string): string {
    if prefix <= s then s[|prefix|..] else s
  }

  predicate IsWithin(value: string, ancestor: string) {
    ancestor == "" || value == ancestor || HasPrefix(value, ancestor + "/")
  }

  predicate IsStrictDescendant(value: string, ancestor: string) {
    value != ancestor && IsWithin(value, ancestor)
  }

  function JoinPath(parent: string, name: string): string {
    if parent == "" then name
    else if name == "" then parent
    else parent + "/" + name
  }

  function ReplacePrefix(value: string, from: string, to: string): string {
    if value == from then to
    else JoinPath(to, TrimPrefix(value, from + "/"))
  }

  /** The part before the first slash, or everything. */
  function Cut(s: string): string {
    if s == "" || s[0] == '/' then "" else [s[0]] + Cut(s[1..])
  }

  /** The name a listing records for `value` below `parent`, or "" for none. */
  function ImmediateName(parent: string, value: string): string {
    if value == parent || !IsWithin(value, parent) then ""
    else Cut(if parent == "" then value else TrimPrefix(value, parent + "/"))
  }

  // ----- Slash-terminated form -----

  function Terminated(p: Path): string {
    if p == [] then "" else p[0] + "/" + Terminated(p[1..])
  }

  lemma {:induction false} RenderTerminated(p: Path)
    requires p != []
    ensures Render(p) + "/" == Terminated(p)
  {
    if |p| > 1 {
      RenderTerminated(p[1..]);
    }
  }

  lemma {:induction false} TerminatedAppend(p: Path, q: Path)
    ensures Terminated(p + q) == Terminated(p) + Terminated(q)
  {
    if p == [] {
      assert p + q == q;
    } else {
      TerminatedAppend(p[1..], q);
      assert (p + q)[1..] == p[1..] + q;
    }
  }

  /** Names hold no slash, so a terminated prefix is a prefix of segments. */
  lemma {:induction false} TerminatedPrefix(a: Path, v: Path)
    requires Canonical(a) && Canonical(v) && Terminated(a) <= Terminated(v)
    ensures a <= v
  {
    if a != [] {
      assert v != [];
      var x, y := a[0], v[0];
      var s, t := Terminated(a), Terminated(v);
      assert x in a && y in v;
      assert forall i | 0 <= i < |x| :: s[i] == x[i];
      assert forall i | 0 <= i < |y| :: t[i] == y[i];
      assert s[|x|] == '/' && t[|y|] == '/';
      assert |x| == |y| && x == y;
      assert Terminated(a[1..]) == s[|x| + 1..] && Terminated(v[1..]) == t[|y| + 1..];
      TerminatedPrefix(a[1..], v[1..]);
      assert a == [x] + a[1..] && v == [y] + v[1..];
    }
  }

  lemma RenderIsEmpty(p: Path)
    requires Canonical(p)
    ensures Render(p) == "" <==> p == []
  {
    if p != [] {
      assert p[0] in p;
    }
  }

  /** Distinct canonical paths are distinct strings. */
  lemma RenderInjective(a: Path, v: Path)
    requires Canonical(a) && Canonical(v) && Render(a) == Render(v)
    ensures a == v
  {
    RenderIsEmpty(a);
    RenderIsEmpty(v);
    if a != [] {
      RenderTerminated(a);
      RenderTerminated(v);
      TerminatedPrefix(a, v);
      TerminatedPrefix(v, a);
    }
  }

  lemma SlashEnds(s: string, t: string)
    requires s + "/" == t + "/"
    ensures s == t
  {
    assert (s + "/")[..|s + "/"| - 1] == s && (t + "/")[..|t + "/"| - 1] == t;
  }

  lemma RenderSplit(a: Path, rest: Path)
    requires a != [] && rest != []
    ensures Render(a + rest) == Render(a) + "/" + Render(rest)
  {
    RenderTerminated(a);
    RenderTerminated(rest);
    RenderTerminated(a + rest);
    TerminatedAppend(a, rest);
    SlashEnds(Render(a + rest), Render(a) + "/" + Render(rest));
  }

  // ----- The helpers mean what they say -----

  lemma IsWithinIsPrefix(v: Path, a: Path)
    requires Canonical(v) && Canonical(a)
    ensures IsWithin(Render(v), Render(a)) <==> a <= v
    ensures IsStrictDescendant(Render(v), Render(a)) <==> a < v
  {
    RenderIsEmpty(a);
    if a != [] && a <= v && a != v {
      assert v == a + v[|a|..];
      RenderSplit(a, v[|a|..]);
    }
    if a != [] && HasPrefix(Render(v), Render(a) + "/") {
      RenderIsEmpty(v);
      RenderTerminated(a);
      RenderTerminated(v);
      assert Terminated(a) <= Terminated(v);
      TerminatedPrefix(a, v);
    }
    if Render(v) == Render(a) {
      RenderInjective(v, a);
    }
  }

  lemma ReplacePrefixIsRebase(v: Path, from: Path, to: Path)
    requires Canonical(v) && Canonical(from) && Canonical(to) && from != [] && to != [] && from <= v
    ensures ReplacePrefix(Render(v), Render(from), Render(to)) == Render(Rebase(v, from, to))
  {
    var rest := v[|from|..];
    assert v == from + rest;
    if rest == [] {
      assert v == from && Rebase(v, from, to) == to;
    } else {
      RenderSplit(from, rest);
      RenderSplit(to, rest);
      RenderIsEmpty(to);
      assert forall n | n in rest :: n in v;
      RenderIsEmpty(rest);
      assert Render(v)[|Render(from) + "/"|..] == Render(rest);
    }
  }

  lemma JoinPathIsAppend(p: Path, n: Name)
    requires Canonical(p) && ValidName(n)
    ensures JoinPath(Render(p), n) == Render(p + [n])
  {
    RenderIsEmpty(p);
    if p != [] {
      RenderSplit(p, [n]);
    }
  }

  lemma {:induction false} CutStops(x: string, rest: string)
    requires '/' !in x && (rest == "" || rest[0] == '/')
    ensures Cut(x + rest) == x
  {
    if x == "" {
      assert x + rest == rest;
    } else {
      CutStops(x[1..], rest);
      assert (x + rest)[1..] == x[1..] + rest;
    }
  }

  lemma CutIsFirst(p: Path)
    requires Canonical(p) && p != []
    ensures Cut(Render(p)) == p[0]
  {
    assert p[0] in p;
    if |p| == 1 {
      CutStops(p[0], "");
      assert p[0] + "" == p[0];
    } else {
      var rest := "/" + Render(p[1..]);
      CutStops(p[0], rest);
      assert Render(p) == p[0] + rest;
    }
  }

  lemma ImmediateNameIsChild(dir: Path, v: Path)
    requires Canonical(dir) && Canonical(v)
    ensures ImmediateName(Render(dir), Render(v)) == if dir < v then v[|dir|] else ""
  {
    IsWithinIsPrefix(v, dir);
    RenderIsEmpty(dir);
    if dir < v {
      var rest := v[|dir|..];
      assert v == dir + rest && rest[0] == v[|dir|];
      assert forall n | n in rest :: n in v;
      CutIsFirst(rest);
      if dir != [] {
        RenderSplit(dir, rest);
        assert Render(v)[|Render(dir) + "/"|..] == Render(rest);
      }
    }
  }
}
