/**
 The staging service: loops that walk the journal, and the mutations that check a request
 against those walks and then append to it. Contracts speak of the replayed tree only.
 */
module StagingService {
  import opened Wrappers
  import opened Paths
  import opened NamespaceTree
  import opened Overlay
  import opened FileBytes

  class Service {
    const base: Tree
    const baseBodies: map<Path, Bytes>
    const maxFile: nat
    var journal: seq<Op>

    ghost predicate Valid()
      reads this
    {
      && IsBase(base) && maxFile <= MAX_INT
      && (forall p | p in base && base[p].BaseFile? :: p in baseBodies)
      && Admitted(base, journal)
      && forall op | op in journal && op.Write? :: |op.payload.content| <= maxFile
    }

    /** The filesystem this service presents. */
    ghost function Tree(): Tree
      reads this
    {
      Replay(base, journal)
    }

    /** Opens the service over whatever an earlier one has left in the journal. */
    constructor (base: Tree, baseBodies: map<Path, Bytes>, maxFile: nat, journal: seq<Op>)
      requires IsBase(base) && maxFile <= MAX_INT
      requires forall p | p in base && base[p].BaseFile? :: p in baseBodies
      requires Admitted(base, journal) && forall op | op in journal && op.Write? :: |op.payload.content| <= maxFile
      ensures Valid() && Tree() == Replay(base, journal) && Proper(Tree())
      ensures this.base == base && this.baseBodies == baseBodies && this.maxFile == maxFile && this.journal == journal
    {
      this.base, this.baseBodies, this.maxFile, this.journal := base, baseBodies, maxFile, journal;
      OverlayIsReplay(base, journal, []);
    }

    // ----- The walks, as loops -----

    method ResolveAt(ops: seq<Op>, limit: nat, canonical: Path) returns (r: Result<Node, Error>)
      requires limit <= |ops|
      ensures r == Resolve(base, ops[..limit], canonical)
    {
      var mapped := canonical;
      var index := limit;
      while index > 0
        invariant 0 <= index <= limit
        invariant Resolve(base, ops[..limit], canonical) == Resolve(base, ops[..index], mapped)
      {
        index := index - 1;
        assert ops[..index + 1][..index] == ops[..index];
        match ops[index] {
          case Write(p, payload) =>
            if mapped == p { return Ok(LocalFile(payload)); }
            if p < mapped { return Err(NotDirectory); }
          case Mkdir(p) =>
            if mapped == p { return Ok(LocalDir(index + 1)); }
            if p < mapped { return Err(NotFound); }
          case Unlink(p) =>
            if p <= mapped { return Err(NotFound); }
          case Rename(s, d) =>
            if d <= mapped {
              mapped := Rebase(mapped, d, s);
              continue;
            }
            if s <= mapped { return Err(NotFound); }
        }
      }
      assert ops[..0] == [];
      r := Lookup(base, mapped);
    }

    method ForwardPath(value: Path, ops: seq<Op>) returns (r: Option<Path>)
      ensures r == Forward(value, ops)
    {
      var current := value;
      var i := 0;
      while i < |ops|
        invariant 0 <= i <= |ops|
        invariant Forward(value, ops[..i]) == Some(current)
      {
        assert ops[..i + 1][..i] == ops[..i];
        match ops[i] {
          case Unlink(p) =>
            if p <= current { ForwardStops(value, ops, i); return None; }
          case Write(p, _) =>
            if p < current { ForwardStops(value, ops, i); return None; }
          case Mkdir(_) =>
          case Rename(s, d) =>
            if s <= current {
              current := Rebase(current, s, d);
            } else if d <= current {
              ForwardStops(value, ops, i);
              return None;
            }
        }
        i := i + 1;
      }
      assert ops[..|ops|] == ops;
      r := Some(current);
    }

    method ReadDirAt(ops: seq<Op>, dir: Path) returns (r: Result<map<Name, Kind>, Error>)
      ensures r == ReadDir(base, ops, dir)
    {
      var resolved := ResolveAt(ops, |ops|, dir);
      assert ops[..|ops|] == ops;
      if resolved.Err? { return Err(resolved.error); }
      var node := resolved.value;
      if !node.IsDir() { return Err(NotDirectory); }
      var candidates := JournalCandidates(ops, Start(node), dir);
      if node.BaseDir? {
        var fromBase := BaseCandidates(ops, dir, node.origin);
        candidates := candidates + fromBase;
      }
      assert candidates == Candidates(base, ops, dir, node);
      r := StatNames(ops, dir, candidates);
    }

    method JournalCandidates(ops: seq<Op>, start: nat, dir: Path) returns (names: set<Name>)
      ensures names == JournalNames(ops, start, dir)
    {
      names := {};
      var index := start;
      while index < |ops|
        invariant start <= index && (index > |ops| ==> index == start)
        invariant names == if index <= |ops| then JournalNamesUpTo(ops, start, index, dir) else {}
      {
        if Target(ops[index]).Some? {
          var current := ForwardPath(Target(ops[index]).value, ops[index + 1..]);
          if Shows(dir, current) {
            names := names + {current.value[|dir|]};
          }
        }
        NextJournalName(ops, start, index, dir);
        index := index + 1;
      }
    }

    method BaseCandidates(ops: seq<Op>, dir: Path, origin: Path) returns (names: set<Name>)
      ensures names == BaseNames(base, ops, dir, origin)
    {
      names := {};
      var rest := ChildNames(base, origin);
      ghost var done: set<Name> := {};
      while rest != {}
        invariant done + rest == ChildNames(base, origin) && done !! rest
        invariant names == set n | n in done && Shows(dir, Forward(origin + [n], ops))
                                 :: Forward(origin + [n], ops).value[|dir|]
        decreases rest
      {
        var n :| n in rest;
        var current := ForwardPath(origin + [n], ops);
        if Shows(dir, current) {
          names := names + {current.value[|dir|]};
        }
        rest, done := rest - {n}, done + {n};
      }
      assert done == ChildNames(base, origin);
    }

    method StatNames(ops: seq<Op>, dir: Path, names: set<Name>) returns (r: Result<map<Name, Kind>, Error>)
      ensures r == StatAll(base, ops, dir, names)
    {
      var entries: map<Name, Kind> := map[];
      var rest := names;
      while rest != {}
        invariant rest <= names
        invariant forall n | n in names - rest :: Resolve(base, ops, dir + [n]) != Err(NotDirectory)
        invariant entries == map n | n in names - rest && Resolve(base, ops, dir + [n]).Ok?
                               :: Resolve(base, ops, dir + [n]).value.Kind()
        decreases rest
      {
        var n :| n in rest;
        var info := ResolveAt(ops, |ops|, dir + [n]);
        assert ops[..|ops|] == ops;
        ResolveErrors(base, ops, dir + [n]);
        if info.Err? && info.error != NotFound {
          assert n in names && Resolve(base, ops, dir + [n]) == Err(NotDirectory);
          return Err(info.error);
        }
        if info.Ok? {
          entries := entries[n := info.value.Kind()];
        }
        rest := rest - {n};
      }
      r := Ok(entries);
      assert entries == StatAll(base, ops, dir, names).value;
    }

    // ----- Mutations -----

    method Append(op: Op)
      requires Valid() && Admits(base, journal, op)
      requires op.Write? ==> |op.payload.content| <= maxFile
      modifies this`journal
      ensures Valid() && journal == old(journal) + [op]
      ensures Tree() == Apply(old(Tree()), op, |old(journal)|)
    {
      journal := journal + [op];
      assert journal[..|journal| - 1] == old(journal);
    }

    method StatAt(p: Path) returns (r: Result<Node, Error>)
      ensures r == Resolve(base, journal, p)
      ensures Valid() ==> r == Lookup(Tree(), p)
    {
      r := ResolveAt(journal, |journal|, p);
      assert journal[..|journal|] == journal;
      if Valid() { OverlayIsReplay(base, journal, p); }
    }

    method RequireParentDirectory(p: Path) returns (r: Result<(), Error>)
      requires p != []
      ensures r == RequireParent(base, journal, p)
      ensures Valid() ==> r == CheckParent(Tree(), p)
    {
      var info := StatAt(Parent(p));
      if info.Err? { return Err(info.error); }
      r := if info.value.IsDir() then Ok(()) else Err(NotDirectory);
    }

    method StageMkdir(p: Path) returns (r: Result<(), Error>)
      requires Valid()
      modifies this`journal
      ensures Valid()
      ensures r == CheckMkdir(old(Tree()), p)
      ensures Tree() == if r.Ok? then Apply(old(Tree()), Mkdir(p), |old(journal)|) else old(Tree())
      ensures r.Err? ==> journal == old(journal)
    {
      AdmittedIsAllowed(base, journal);
      SameMkdirCheck(base, journal, p);
      if p == [] { return Err(Invalid); }
      r := RequireParentDirectory(p);
      if r.Err? { return; }
      var info := StatAt(p);
      match info {
        case Ok(_) => return Err(AlreadyExists);
        case Err(e) => if e != NotFound { return Err(e); }
      }
      Append(Mkdir(p));
      r := Ok(());
    }

    method StageRemove(p: Path, directory: bool) returns (r: Result<(), Error>)
      requires Valid()
      modifies this`journal
      ensures Valid()
      ensures r == CheckRemove(old(Tree()), p, directory)
      ensures Tree() == if r.Ok? then old(Tree()) - {p} else old(Tree())
      ensures r.Err? ==> journal == old(journal)
    {
      AdmittedIsAllowed(base, journal);
      SameRemoveCheck(base, journal, p, directory);
      if p == [] { return Err(Invalid); }
      var info := StatAt(p);
      if info.Err? { return Err(info.error); }
      if directory != info.value.IsDir() {
        return Err(if directory then NotDirectory else NotFile);
      }
      if directory {
        r := EmptyDirectory(p);
        if r.Err? { return; }
      }
      Append(Unlink(p));
      r := Ok(());
    }

    method EmptyDirectory(p: Path) returns (r: Result<(), Error>)
      ensures r == RequireEmpty(base, journal, p)
      ensures Valid() && p in Tree() && Tree()[p].IsDir() ==>
                r == if HasChildren(Tree(), p) then Err(NotEmpty) else Ok(())
    {
      if Valid() && p in Tree() && Tree()[p].IsDir() {
        AdmittedIsAllowed(base, journal);
        SameEmptyCheck(base, journal, p);
      }
      var entries := ReadDirAt(journal, p);
      if entries.Err? { return Err(entries.error); }
      r := if entries.value != map[] then Err(NotEmpty) else Ok(());
    }

    method StageRename(s: Path, d: Path) returns (r: Result<(), Error>)
      requires Valid()
      modifies this`journal
      ensures Valid()
      ensures r == CheckRename(old(Tree()), s, d)
      ensures Tree() == if r.Ok? then Move(old(Tree()), s, d) else old(Tree())
      ensures r.Err? ==> journal == old(journal)
    {
      AdmittedIsAllowed(base, journal);
      SameRenameCheck(base, journal, s, d);
      if s == [] || d == [] || s <= d { return Err(Invalid); }
      var source := StatAt(s);
      if source.Err? { return Err(source.error); }
      r := RequireParentDirectory(d);
      if r.Err? { return; }
      var target := StatAt(d);
      match target {
        case Ok(node) =>
          if source.value.IsDir() != node.IsDir() {
            return Err(if source.value.IsDir() then NotDirectory else NotFile);
          }
          if node.IsDir() {
            r := EmptyDirectory(d);
            if r.Err? { return; }
          }
        case Err(e) => if e != NotFound { return Err(e); }
      }
      Append(Rename(s, d));
      r := Ok(());
    }

    // ----- File bodies -----

    ghost predicate Readable(node: Node) {
      node.LocalFile? || (node.BaseFile? && node.origin in baseBodies)
    }

    /** The content of a file node. */
    ghost function Body(node: Node): Bytes
      requires Readable(node)
    {
      if node.LocalFile? then node.payload.content else baseBodies[node.origin]
    }

    /** Every file in the tree has a body, and locally staged ones fit the limit. */
    lemma FilesAreReadable(p: Path)
      requires Valid() && p in Tree() && !Tree()[p].IsDir()
      ensures Readable(Tree()[p])
      ensures Tree()[p].LocalFile? ==> |Tree()[p].payload.content| <= maxFile
    {
      Origins(base, journal, p);
    }

    /** Why the body of the file at `p` cannot be taken for editing, if it cannot. */
    ghost function CheckBody(p: Path): Result<(), Error>
      requires Valid()
      reads this
    {
      match Lookup(Tree(), p)
      case Err(e) => Err(e)
      case Ok(node) =>
        if node.IsDir() then Err(NotFile)
        else
          FilesAreReadable(p);
          if |Body(node)| > MAX_INT then Err(Invalid)
          else if |Body(node)| > maxFile then Err(TooLarge)
          else Ok(())
    }

    method CurrentFileBody(p: Path) returns (r: Result<Bytes, Error>)
      requires Valid()
      ensures match CheckBody(p)
              case Err(e) => r == Err(e)
              case Ok(_) => p in Tree() && Readable(Tree()[p]) && r == Ok(Body(Tree()[p]))
    {
      OverlayIsReplay(base, journal, p);
      var info := StatAt(p);
      if info.Err? { return Err(info.error); }
      if info.value.IsDir() { return Err(NotFile); }
      FilesAreReadable(p);
      var body := if info.value.LocalFile? then info.value.payload.content else baseBodies[info.value.origin];
      if |body| > MAX_INT { return Err(Invalid); }
      if |body| > maxFile { return Err(TooLarge); }
      r := Ok(body);
    }

    method StageWriteBody(p: Path, body: Bytes) returns (r: Result<(), Error>)
      requires Valid() && p != []
      modifies this`journal
      ensures Valid()
      ensures r == if |body| > maxFile then Err(TooLarge) else CheckWrite(old(Tree()), p)
      ensures Tree() == if r.Ok? then old(Tree())[p := LocalFile(Raw(body))] else old(Tree())
      ensures r.Err? ==> journal == old(journal)
    {
      AdmittedIsAllowed(base, journal);
      SameWriteCheck(base, journal, p);
      if |body| > maxFile { return Err(TooLarge); }
      r := RequireParentDirectory(p);
      if r.Err? { return; }
      var info := StatAt(p);
      match info {
        case Ok(node) => if node.IsDir() { return Err(NotFile); }
        case Err(e) => if e != NotFound { return Err(e); }
      }
      Append(Write(p, Raw(body)));
      r := Ok(());
    }

    method StageWrite(p: Path, body: Bytes) returns (r: Result<(), Error>)
      requires Valid()
      modifies this`journal
      ensures Valid()
      ensures r == if p == [] then Err(Invalid)
                   else if |body| > maxFile then Err(TooLarge)
                   else CheckWrite(old(Tree()), p)
      ensures Tree() == if r.Ok? then old(Tree())[p := LocalFile(Raw(body))] else old(Tree())
      ensures r.Err? ==> journal == old(journal)
    {
      if p == [] { return Err(Invalid); }
      if |body| > maxFile { return Err(TooLarge); }
      r := StageWriteBody(p, body);
    }

    /** An existing file can always be written over. */
    lemma FileIsWritable(p: Path)
      requires Valid() && p in Tree() && !Tree()[p].IsDir()
      ensures p != [] && CheckWrite(Tree(), p).Ok?
    {
      OverlayIsReplay(base, journal, p);
    }

    method StageWriteAt(p: Path, offset: uint64, data: Bytes) returns (r: Result<(), Error>)
      requires Valid() && |data| <= MAX_INT
      modifies this`journal
      ensures Valid()
      ensures r == if p == [] then Err(Invalid)
                   else if data == [] then Ok(())
                   else if offset + |data| > MAX_INT then Err(Invalid)
                   else if offset + |data| > maxFile then Err(TooLarge)
                   else old(CheckBody(p))
      ensures r.Err? || data == [] ==> journal == old(journal)
      ensures r.Ok? && data != [] ==>
                p in old(Tree()) && Readable(old(Tree())[p]) &&
                exists after :: Overwritten(Body(old(Tree())[p]), offset, data, after) &&
                                Tree() == old(Tree())[p := LocalFile(Raw(after))]
    {
      if p == [] { return Err(Invalid); }
      if |data| == 0 { return Ok(()); }
      var end := Add64(offset, |data|);
      if end < offset || end > MAX_INT { return Err(Invalid); }
      if end > maxFile { return Err(TooLarge); }
      var body := CurrentFileBody(p);
      if body.Err? { return Err(body.error); }
      FileIsWritable(p);
      var after := WriteInto(body.value, offset, data);
      r := StageWriteBody(p, after);
    }

    method StageTruncate(p: Path, size: uint64) returns (r: Result<(), Error>)
      requires Valid()
      modifies this`journal
      ensures Valid()
      ensures r == if p == [] || size > MAX_INT then Err(Invalid)
                   else if size > maxFile then Err(TooLarge)
                   else old(CheckBody(p))
      ensures r.Err? ==> journal == old(journal)
      ensures r.Ok? ==> p in old(Tree()) && Readable(old(Tree())[p]) &&
                        p in Tree() && Readable(Tree()[p]) &&
                        Resized(Body(old(Tree())[p]), size, Body(Tree()[p])) &&
                        Tree() - {p} == old(Tree()) - {p}
    {
      if p == [] || size > MAX_INT { return Err(Invalid); }
      if size > maxFile { return Err(TooLarge); }
      var body := CurrentFileBody(p);
      if body.Err? { return Err(body.error); }
      if size == |body.value| { return Ok(()); }
      FileIsWritable(p);
      var resized := Resize(body.value, size);
      r := StageWriteBody(p, resized);
    }

    /**
     Reads a range of the file at `p`. A locally staged body is streamed in reads of the
     given sizes; a base body is read by the verified base reader.
     */
    method ReadFileRange(p: Path, offset: uint64, length: uint64, sizes: seq<nat>) returns (r: Result<Bytes, Error>)
      requires Valid()
      ensures match Lookup(Tree(), p)
              case Err(e) => p != [] ==> r == Err(e)
              case Ok(node) =>
                if p == [] then r == Err(Invalid)
                else if node.IsDir() then r == Err(NotFile)
                else Readable(node) && r == Ok(Slice(Body(node), offset, length))
    {
      if p == [] { return Err(Invalid); }
      OverlayIsReplay(base, journal, p);
      var info := StatAt(p);
      if info.Err? { return Err(info.error); }
      if info.value.IsDir() { return Err(NotFile); }
      FilesAreReadable(p);
      var bytes;
      if info.value.LocalFile? {
        var content := info.value.payload.content;
        bytes := ReadLocalRange(SplitBy(content, sizes), |content|, offset, length);
      } else {
        bytes := Slice(baseBodies[info.value.origin], offset, length);
      }
      r := Ok(bytes);
    }
  }

  /** Every node of the tree comes from the base or from a write still in the journal. */
  lemma {:induction false} Origins(base: Tree, ops: seq<Op>, p: Path)
    requires IsBase(base) && p in Replay(base, ops)
    ensures var node := Replay(base, ops)[p];
            && (node.BaseFile? ==> node.origin in base && base[node.origin].BaseFile?)
            && (node.LocalFile? ==> exists op :: op in ops && op.Write? && op.payload == node.payload)
    decreases |ops|
  {
    if ops != [] {
      var earlier, op := ops[..|ops| - 1], ops[|ops| - 1];
      assert forall o | o in earlier :: o in ops;
      assert op in ops;
      var t := Replay(base, earlier);
      if op.Rename? {
        MoveContents(t, op.path, op.destination);
        if op.destination <= p {
          Origins(base, earlier, Rebase(p, op.destination, op.path));
        } else {
          Origins(base, earlier, p);
        }
      } else if Target(op) != Some(p) {
        Origins(base, earlier, p);
      }
    }
  }

  lemma {:induction false} ForwardStops(value: Path, ops: seq<Op>, i: nat)
    requires i < |ops| && Forward(value, ops[..i + 1]) == None
    ensures Forward(value, ops) == None
    decreases |ops|
  {
    if i + 1 == |ops| {
      assert ops[..i + 1] == ops;
    } else {
      assert ops[..|ops| - 1][..i + 1] == ops[..i + 1];
      ForwardStops(value, ops[..|ops| - 1], i);
    }
  }

  function JournalNamesUpTo(ops: seq<Op>, start: nat, end: nat, dir: Path): set<Name>
    requires end <= |ops|
  {
    set i: nat | start <= i < end && Shows(dir, TargetNow(ops, i)) :: TargetNow(ops, i).value[|dir|]
  }

  lemma NextJournalName(ops: seq<Op>, start: nat, end: nat, dir: Path)
    requires start <= end < |ops|
    ensures JournalNamesUpTo(ops, start, end + 1, dir) ==
            JournalNamesUpTo(ops, start, end, dir) +
            if Shows(dir, TargetNow(ops, end)) then {TargetNow(ops, end).value[|dir|]} else {}
  {
  }

  /** Resolution fails in two ways only. */
  lemma {:induction false} ResolveErrors(base: Tree, ops: seq<Op>, p: Path)
    ensures Resolve(base, ops, p).Err? ==>
            Resolve(base, ops, p).error == NotFound || Resolve(base, ops, p).error == NotDirectory
    decreases |ops|
  {
    if ops != [] {
      var earlier, op := ops[..|ops| - 1], ops[|ops| - 1];
      ResolveErrors(base, earlier, p);
      if op.Rename? && op.destination <= p {
        ResolveErrors(base, earlier, Rebase(p, op.destination, op.path));
      }
    }
  }
}
