/** The editor's workspace: path operations on an inode tree that is edited in place. */
module WorkspaceFs {
  import opened Basics
  import opened Inodes
  import opened WorkspacePaths
  import opened WorkspaceTrees

  datatype ChangeKind = Added | Updated | Deleted
  datatype Change = Change(kind: ChangeKind, path: string)

  /** The parent directory of a path and the name in it, or why there is none. */
  datatype Place = Place(parent: Id, name: string)

  /** Everything at or below p. */
  predicate Under(p: Names, r: Names) { p <= r }

  predicate LeadsToDirectory(g: Graph, root: Id, p: Names) {
    Resolve(g, root, p).Some? && IsDirectoryInode(g, Resolve(g, root, p).value)
  }

  predicate LeadsToFile(g: Graph, root: Id, p: Names) {
    Resolve(g, root, p).Some? && !IsDirectoryInode(g, Resolve(g, root, p).value)
  }

  /** A path fails on a file in the middle of it, or on a name that is missing. */
  ghost function WhyNotFound(g: Graph, root: Id, names: Names): ErrorCode {
    if exists k | 0 <= k < |names| :: LeadsToFile(g, root, names[..k]) then NotDirectory else NotFound
  }

  /** Why there is no directory that could hold the entry. */
  ghost function WhyNoPlace(g: Graph, root: Id, path: string): Option<ErrorCode> {
    if Parts(path).Err? || Parts(path).value == [] then Some(InvalidPath)
    else if !ParentExists(g, root, Parts(path).value) then Some(WhyNotFound(g, root, Parts(path).value))
    else None
  }

  class WorkspaceFileSystem {
    var graph: Graph
    const root: Id
    var nextId: Id
    var changes: seq<Change>

    ghost predicate Valid()
      reads this
    {
      IsTree(graph, root) && forall id | id in graph :: id < nextId && !graph[id].OtherInode?
    }

    /** Looks up a path step by step. */
    method Lookup(path: string) returns (r: Result<Id>)
      requires Valid()
      ensures Parts(path).Err? ==> r == Err(InvalidPath)
      ensures Parts(path).Ok? ==> r.Ok? == Resolve(graph, root, Parts(path).value).Some?
      ensures r.Ok? ==> Resolve(graph, root, Parts(path).value) == Some(r.value)
      ensures r.Err? && Parts(path).Ok? ==> r.code == WhyNotFound(graph, root, Parts(path).value)
    {
      var parts := Parts(path);
      if parts.Err? { return Err(parts.code); }
      var names, inode := parts.value, root;
      for i := 0 to |names|
        invariant Resolve(graph, root, names[..i]) == Some(inode)
        invariant forall k | 0 <= k < i :: LeadsToDirectory(graph, root, names[..k])
      {
        ResolveStep(graph, root, names[..i], names[i]);
        assert names[..i + 1] == names[..i] + [names[i]];
        if !IsDirectoryInode(graph, inode) {
          DeadEnd(graph, root, names, i + 1);
          assert LeadsToFile(graph, root, names[..i]);
          return Err(NotDirectory);
        }
        if names[i] !in graph[inode].contents {
          DeadEnd(graph, root, names, i + 1);
          NoFileMet(graph, root, names, i);
          return Err(NotFound);
        }
        inode := graph[inode].contents[names[i]];
      }
      assert names[..|names|] == names;
      r := Ok(inode);
    }

    /** Walks to the directory that holds the last name. */
    method Parent(path: string) returns (r: Result<Place>)
      requires Valid()
      ensures r.Ok? ==>
        && Parts(path).Ok? && Parts(path).value != [] && IsDirectoryInode(graph, r.value.parent)
        && NamesEntry(graph, root, Parts(path).value, r.value.parent, r.value.name)
      ensures r.Err? ==> WhyNoPlace(graph, root, path) == Some(r.code)
      ensures r.Err? ==>
        || (r.code == InvalidPath && (Parts(path).Err? || Parts(path).value == []))
        || (Parts(path).Ok? && Parts(path).value != []
            && r.code == WhyNotFound(graph, root, Parts(path).value)
            && !(Resolve(graph, root, Init(Parts(path).value)).Some?
                 && IsDirectoryInode(graph, Resolve(graph, root, Init(Parts(path).value)).value)))
    {
      var parts := Parts(path);
      if parts.Err? { return Err(InvalidPath); }
      if parts.value == [] { return Err(InvalidPath); }
      var names, parent := Init(parts.value), root;
      for i := 0 to |names|
        invariant IsDirectoryInode(graph, parent) && Resolve(graph, root, names[..i]) == Some(parent)
        invariant forall k | 0 <= k <= i :: LeadsToDirectory(graph, root, names[..k])
      {
        ResolveStep(graph, root, names[..i], names[i]);
        assert names[..i + 1] == names[..i] + [names[i]];
        if names[i] !in graph[parent].contents {
          NameIsMissing(graph, root, parts.value, i);
          return Err(NotFound);
        }
        var inode := graph[parent].contents[names[i]];
        if !IsDirectoryInode(graph, inode) {
          FileIsMet(graph, root, parts.value, i);
          return Err(NotDirectory);
        }
        parent := inode;
      }
      assert names[..|names|] == names;
      r := Ok(Place(parent, Last(parts.value)));
    }

    method WriteFile(path: string, content: Bytes, create: bool, overwrite: bool, notify: bool) returns (r: Result<()>)
      requires Valid()
      modifies this
      ensures Valid()
      ensures r.Ok? <==> WriteAllowed(old(graph), root, path, create, overwrite)
      ensures r.Err? ==> graph == old(graph) && changes == old(changes)
      ensures r.Err? ==>
        match WhyNoPlace(graph, root, path)
        case Some(code) => r.code == code
        case None =>
          r.code == (if Resolve(graph, root, Parts(path).value).None? then NotFound
                     else if !overwrite then Exists else ErrorCode.IsDirectory)
      ensures r.Ok? ==>
        var kind := if Resolve(old(graph), root, Parts(path).value).Some? then Updated else Added;
        changes == old(changes) + (if notify then [Change(kind, path)] else [])
      ensures r.Ok? ==>
        var p := Parts(path).value;
        && Resolve(graph, root, p).Some?
        && graph[Resolve(graph, root, p).value].FileInode? && graph[Resolve(graph, root, p).value].data == content
        && graph[Resolve(graph, root, p).value].readonly == WasReadonly(old(graph), root, p)
        && (Resolve(old(graph), root, p).Some? ==>
              overwrite && Resolve(graph, root, p) == Resolve(old(graph), root, p)
              && forall s | s != p :: Resolve(graph, root, s) == Resolve(old(graph), root, s))
        && (Resolve(old(graph), root, p).None? ==>
              create && forall s | !Under(p, s) :: Resolve(graph, root, s) == Resolve(old(graph), root, s))
        && (forall id | id in old(graph) && !IsDirectoryInode(old(graph), id) && Some(id) != Resolve(graph, root, p) ::
              id in graph && graph[id] == old(graph)[id])
    {
      var place := Parent(path);
      if place.Err? { return Err(place.code); }
      var parent, name := place.value.parent, place.value.name;
      ghost var p, before := Parts(path).value, graph;
      var existed := name in graph[parent].contents;
      assert Resolve(before, root, p) ==
             if HasEntry(before, parent, name) then Some(Child(before, parent, name)) else None;
      if !existed {
        if !create { return Err(NotFound); }
        var file := nextId;
        nextId := nextId + 1;
        graph := graph[file := FileInode(content, false)];
        graph := graph[parent := DirectoryInode(graph[parent].contents[name := file])];
        LeafAdded(before, root, p, parent, name, file, FileInode(content, false), graph);
      } else {
        var current := graph[parent].contents[name];
        if !overwrite { return Err(Exists); }
        if IsDirectoryInode(graph, current) { return Err(IsDirectory); }
        graph := graph[current := FileInode(content, graph[current].readonly)];
        assert SameEntriesExcept(before, graph, {});
        forall s ensures Resolve(graph, root, s) == Resolve(before, root, s) {
          UntouchedPath(before, graph, root, {}, s);
        }
      }
      if notify {
        changes := changes + [Change(if existed then Updated else Added, path)];
      }
      r := Ok(());
    }

    method Mkdir(path: string, notify: bool) returns (r: Result<()>)
      requires Valid()
      modifies this
      ensures Valid()
      ensures r.Ok? <==> MkdirAllowed(old(graph), root, path)
      ensures r.Err? ==> graph == old(graph) && changes == old(changes)
      ensures r.Err? ==>
        r.code == match WhyNoPlace(graph, root, path) case Some(code) => code case None => Exists
      ensures r.Ok? ==> changes == old(changes) + (if notify then [Change(Added, path)] else [])
      ensures r.Ok? ==>
        var p := Parts(path).value;
        && Resolve(graph, root, p).Some? && graph[Resolve(graph, root, p).value] == DirectoryInode(map[])
        && (forall s | !Under(p, s) :: Resolve(graph, root, s) == Resolve(old(graph), root, s))
        && (forall s | p < s :: Resolve(graph, root, s) == None)
        && (forall id | id in old(graph) && !IsDirectoryInode(old(graph), id) ::
          id in graph && graph[id] == old(graph)[id])
    {
      var place := Parent(path);
      if place.Err? { return Err(place.code); }
      var parent, name := place.value.parent, place.value.name;
      if name in graph[parent].contents { return Err(Exists); }
      ghost var p, before := Parts(path).value, graph;
      var directory := nextId;
      nextId := nextId + 1;
      graph := graph[directory := DirectoryInode(map[])];
      graph := graph[parent := DirectoryInode(graph[parent].contents[name := directory])];
      LeafAdded(before, root, p, parent, name, directory, DirectoryInode(map[]), graph);
      if notify { changes := changes + [Change(Added, path)]; }
      r := Ok(());
    }

    method Delete(path: string, recursive: bool, notify: bool) returns (r: Result<()>)
      requires Valid()
      modifies this
      ensures Valid()
      ensures r.Ok? <==> DeleteAllowed(old(graph), root, path, recursive)
      ensures r.Err? ==> graph == old(graph) && changes == old(changes)
      ensures r.Err? ==>
        match WhyNoPlace(graph, root, path)
        case Some(code) => r.code == code
        case None => r.code == if Resolve(graph, root, Parts(path).value).None? then NotFound else NotEmpty
      ensures r.Ok? ==> changes == old(changes) + (if notify then [Change(Deleted, path)] else [])
      ensures r.Ok? ==>
        var p := Parts(path).value;
        && (!recursive ==> forall s | p < s :: Resolve(old(graph), root, s) == None)
        && (forall s | !Under(p, s) :: Resolve(graph, root, s) == Resolve(old(graph), root, s))
        && (forall s | Under(p, s) :: Resolve(graph, root, s) == None)
        && (forall id | id in old(graph) && !IsDirectoryInode(old(graph), id) ::
          id in graph && graph[id] == old(graph)[id])
    {
      var place := Parent(path);
      if place.Err? { return Err(place.code); }
      var parent, name := place.value.parent, place.value.name;
      if name !in graph[parent].contents { return Err(NotFound); }
      var inode := graph[parent].contents[name];
      if IsDirectoryInode(graph, inode) && graph[inode].contents != map[] && !recursive { return Err(NotEmpty); }
      ghost var p, before := Parts(path).value, graph;
      if !recursive {
        forall s | p < s ensures Resolve(before, root, s) == None { NothingBelowLeaf(before, root, p, inode, s); }
      }
      graph := graph[parent := DirectoryInode(graph[parent].contents - {name})];
      EntryRemoved(before, root, p, parent, name, graph);
      if notify { changes := changes + [Change(Deleted, path)]; }
      r := Ok(());
    }

    /** Succeeds exactly when allowed, and then has moved the subtree and nothing else. */
    method Rename(from: string, to: string, overwrite: bool, notify: bool) returns (r: Result<()>)
      requires Valid()
      modifies this
      ensures Valid()
      ensures r.Ok? <==> RenameAllowed(old(graph), root, from, to, overwrite)
      ensures r.Err? ==> graph == old(graph) && changes == old(changes)
      ensures r.Err? ==> r.code == WhyNotRenamed(graph, root, from, to, overwrite)
      ensures r.Ok? ==> Renamed(old(graph), root, Parts(from).value, Parts(to).value, graph)
      ensures r.Ok? ==>
        var p, q := Parts(from).value, Parts(to).value;
        var moved := [Change(Deleted, Normalized(p)), Change(Added, Normalized(q))];
        changes == old(changes) + (if notify && p != q then moved else [])
    {
      hide Renamed, IsTree, Resolve, Moved, Pieces, WithoutDots, Joined, Refused;
      var fromParts := Parts(from);
      if fromParts.Err? { return Err(fromParts.code); }
      var toParts := Parts(to);
      if toParts.Err? { return Err(toParts.code); }
      var sourcePath, destinationPath := Normalized(fromParts.value), Normalized(toParts.value);
      ghost var p, q, before := fromParts.value, toParts.value, graph;
      PartsArePlain(from);
      PartsArePlain(to);
      ComparingPaths(p, q);
      if sourcePath == "/" || destinationPath == "/" { return Err(InvalidPath); }
      if sourcePath == destinationPath {
        SamePath(before, root, p);
        return Ok(());
      }
      if sourcePath + "/" <= destinationPath { return Err(InvalidPath); }
      NormalizedParts(p);
      NormalizedParts(q);
      var source := Parent(sourcePath);
      if source.Err? {
        if !LooksLikeDrive(sourcePath) { NoParentNoEntry(before, root, p); }
        return Err(source.code);
      }
      var src, n := source.value.parent, source.value.name;
      EntryResolves(before, root, p, src, n);
      if n !in graph[src].contents { return Err(NotFound); }
      var inode := graph[src].contents[n];
      var destination := Parent(destinationPath);
      if destination.Err? { return Err(destination.code); }
      var dst, m := destination.value.parent, destination.value.name;
      EntryResolves(before, root, q, dst, m);
      if m in graph[dst].contents {
        var existing := graph[dst].contents[m];
        if !overwrite { return Err(Exists); }
        if IsDirectoryInode(graph, existing) && !IsDirectoryInode(graph, inode) { return Err(IsDirectory); }
        if !IsDirectoryInode(graph, existing) && IsDirectoryInode(graph, inode) { return Err(NotDirectory); }
        if IsDirectoryInode(graph, existing) && graph[existing].contents != map[] { return Err(NotEmpty); }
      }
      NeverNested(before, root, p, inode, q);
      graph := graph[dst := DirectoryInode(graph[dst].contents[m := inode])];
      graph := graph[src := DirectoryInode(graph[src].contents - {n})];
      MoveRenames(before, root, p, src, n, q, dst, m, inode, graph);
      if notify {
        changes := changes + [Change(Deleted, sourcePath), Change(Added, destinationPath)];
      }
      r := Ok(());
    }
  }

  predicate WasReadonly(g: Graph, root: Id, p: Names) {
    match Resolve(g, root, p)
    case None => false
    case Some(file) => file in g && g[file].FileInode? && g[file].readonly
  }

  predicate ParentExists(g: Graph, root: Id, p: Names)
    requires p != []
  {
    Resolve(g, root, Init(p)).Some? && IsDirectoryInode(g, Resolve(g, root, Init(p)).value)
  }

  predicate WriteAllowed(g: Graph, root: Id, path: string, create: bool, overwrite: bool) {
    && Parts(path).Ok? && Parts(path).value != [] && ParentExists(g, root, Parts(path).value)
    && match Resolve(g, root, Parts(path).value)
       case None => create
       case Some(file) => overwrite && !IsDirectoryInode(g, file)
  }

  predicate MkdirAllowed(g: Graph, root: Id, path: string) {
    && Parts(path).Ok? && Parts(path).value != [] && ParentExists(g, root, Parts(path).value)
    && Resolve(g, root, Parts(path).value).None?
  }

  predicate DeleteAllowed(g: Graph, root: Id, path: string, recursive: bool) {
    && Parts(path).Ok? && Parts(path).value != []
    && match Resolve(g, root, Parts(path).value)
       case None => false
       case Some(inode) => recursive || !IsDirectoryInode(g, inode) || g[inode].contents == map[]
  }

  /**
   * What may stand at the destination: nothing, or under overwrite a file for a file or an empty directory for a
   * directory.
   */
  predicate Replaceable(g: Graph, root: Id, inode: Id, q: Names, overwrite: bool) {
    match Resolve(g, root, q)
    case None => true
    case Some(existing) =>
      overwrite && IsDirectoryInode(g, existing) == IsDirectoryInode(g, inode)
      && (IsDirectoryInode(g, existing) ==> g[existing].contents == map[])
  }

  predicate RenameAllowed(g: Graph, root: Id, from: string, to: string, overwrite: bool) {
    && Parts(from).Ok? && Parts(to).Ok?
    && var p, q := Parts(from).value, Parts(to).value;
       p != [] && q != []
       && (p == q
           || (!(p < q) && !LooksLikeDrive(Normalized(p)) && !LooksLikeDrive(Normalized(q))
               && Resolve(g, root, p).Some? && ParentExists(g, root, q)
               && Replaceable(g, root, Resolve(g, root, p).value, q, overwrite)))
  }

  /** A workspace with one empty file, "x" in the directory "C:". */
  const DRIVE: Graph := map[
    0 := DirectoryInode(map["C:" := 1]),
    1 := DirectoryInode(map["x" := 2]),
    2 := FileInode([], false)]

  /** That file can be looked up and written and the root has room, but it can be renamed to nothing but itself. */
  lemma DriveIsNeverRenamed(to: string, overwrite: bool)
    ensures IsTree(DRIVE, 0) && Parts("//C:/x").Ok? && Resolve(DRIVE, 0, Parts("//C:/x").value) == Some(2)
    ensures WriteAllowed(DRIVE, 0, "//C:/x", false, true)
    ensures ParentExists(DRIVE, 0, ["y"]) && Resolve(DRIVE, 0, ["y"]) == None
    ensures RenameAllowed(DRIVE, 0, "//C:/x", to, overwrite) ==> Parts(to) == Ok(["C:", "x"])
  {
    hide Joined, Pieces, WithoutDots, Refused;
    DriveName();
    var names: Names := ["C:", "x"];
    assert Init(names) == ["C:"] && Init(["C:"]) == [];
    assert Resolve(DRIVE, 0, ["C:"]) == Some(1);
    assert Init(["y"]) == [];
  }

  /** Of all that stands against a rename, what is reported. */
  ghost function WhyNotRenamed(g: Graph, root: Id, from: string, to: string, overwrite: bool): ErrorCode {
    if Parts(from).Err? || Parts(to).Err? || Parts(from).value == [] || Parts(to).value == []
       || Parts(from).value < Parts(to).value then InvalidPath
    else
      var p, q := Parts(from).value, Parts(to).value;
      if WhyNoPlace(g, root, Normalized(p)).Some? then WhyNoPlace(g, root, Normalized(p)).value
      else if Resolve(g, root, p).None? then NotFound
      else if WhyNoPlace(g, root, Normalized(q)).Some? then WhyNoPlace(g, root, Normalized(q)).value
      else if !overwrite then Exists
      else if LeadsToFile(g, root, p) && LeadsToDirectory(g, root, q) then ErrorCode.IsDirectory
      else if LeadsToDirectory(g, root, p) && LeadsToFile(g, root, q) then NotDirectory
      else NotEmpty
  }

  /** Every path under q leads where the same suffix led under p, nothing is left under p, the rest is as before. */
  ghost predicate Renamed(g: Graph, root: Id, p: Names, q: Names, h: Graph) {
    && (p == q ==> h == g)
    && (p != q ==>
          && !(p <= q) && !(q <= p) && Resolve(g, root, p).Some?
          && (forall s :: Resolve(h, root, q + s) == Resolve(g, root, p + s))
          && (forall s :: Resolve(h, root, p + s) == None)
          && (forall r | !Under(p, r) && !Under(q, r) :: Resolve(h, root, r) == Resolve(g, root, r)))
    && g.Keys == h.Keys
    && (forall id | id in g && !IsDirectoryInode(g, id) :: h[id] == g[id])
  }

  lemma MoveRenames(
    g: Graph, root: Id, p: Names, src: Id, n: string, q: Names, dst: Id, m: string, inode: Id, h: Graph)
    requires IsTree(g, root) && NamesEntry(g, root, p, src, n) && HasEntry(g, src, n) && Child(g, src, n) == inode
    requires NamesEntry(g, root, q, dst, m) && IsDirectoryInode(g, dst) && !(p <= q) && !(q <= p)
    requires h == WithoutEntry(WithEntry(g, dst, m, inode), src, n)
    ensures IsTree(h, root) && Renamed(g, root, p, q, h)
    ensures forall id | id in g && !g[id].OtherInode? :: !h[id].OtherInode?
  {
    hide Resolve;
    EntryResolves(g, root, p, src, n);
    MoveKeepsTree(g, root, p, src, n, q, dst, m, inode, h);
    DifferentEntries(g, root, p, src, n, q, dst, m, inode, h);
    forall s ensures Resolve(h, root, q + s) == Resolve(g, root, p + s) && Resolve(h, root, p + s) == None {
      MoveMovesSubtree(g, root, p, src, n, q, dst, m, inode, h, s);
    }
    forall r | !Under(p, r) && !Under(q, r) ensures Resolve(h, root, r) == Resolve(g, root, r) {
      MoveLeavesRest(g, root, p, src, n, q, dst, m, inode, h, r);
    }
  }

  lemma EntryResolves(g: Graph, root: Id, p: Names, d: Id, n: string)
    requires NamesEntry(g, root, p, d, n)
    ensures p != [] && Resolve(g, root, Init(p)) == Some(d)
    ensures Resolve(g, root, p) == if HasEntry(g, d, n) then Some(Child(g, d, n)) else None
  {}

  lemma NoParentNoEntry(g: Graph, root: Id, p: Names)
    requires p != [] && !ParentExists(g, root, p)
    ensures Resolve(g, root, p) == None
  {}

  lemma SamePath(g: Graph, root: Id, p: Names)
    ensures Renamed(g, root, p, p, g)
  {}

  /** A destination that is free or may be replaced holds nothing, so the source cannot lie inside it. */
  lemma NeverNested(g: Graph, root: Id, p: Names, inode: Id, q: Names)
    requires Resolve(g, root, p) == Some(inode) && Replaceable(g, root, inode, q, true)
    ensures !(q < p)
  {
    if q < p {
      match Resolve(g, root, q)
      case None => NothingBelowNothing(g, root, q, p);
      case Some(existing) =>
        NothingBelowLeaf(g, root, q, existing, p);
    }
  }

  lemma ComparingPaths(p: Names, q: Names)
    requires PlainNames(p) && PlainNames(q)
    ensures Normalized(p) == "/" <==> p == []
    ensures Normalized(q) == "/" <==> q == []
    ensures p != [] && q != [] ==> (Normalized(p) == Normalized(q) <==> p == q)
    ensures p != [] && q != [] ==> (Normalized(p) + "/" <= Normalized(q) <==> p < q)
  {
    if p != [] {
      assert p[0] in p;
      assert |Joined(p)| > 1;
    }
    if q != [] {
      assert q[0] in q;
      assert |Joined(q)| > 1;
    }
    JoinedPrefix(p, q);
    if Joined(p) == Joined(q) { JoinedInjective(p, q); }
  }

  lemma NoFileMet(g: Graph, root: Id, names: Names, i: nat)
    requires i < |names| && Resolve(g, root, names[..i + 1]) == None
    requires forall k | 0 <= k <= i :: LeadsToDirectory(g, root, names[..k])
    ensures WhyNotFound(g, root, names) == NotFound
  {
    forall k | 0 <= k < |names| ensures !LeadsToFile(g, root, names[..k]) {
      if k > i {
        assert names[..k][..i + 1] == names[..i + 1];
        DeadEnd(g, root, names[..k], i + 1);
      } else {
        assert LeadsToDirectory(g, root, names[..k]);
      }
    }
  }

  /** A name is missing on the way to the parent. */
  lemma NameIsMissing(g: Graph, root: Id, parts: Names, i: nat)
    requires i + 1 < |parts| && Resolve(g, root, Init(parts)[..i + 1]) == None
    requires forall k | 0 <= k <= i :: LeadsToDirectory(g, root, Init(parts)[..k])
    ensures WhyNotFound(g, root, parts) == NotFound && !LeadsToDirectory(g, root, Init(parts))
  {
    assert forall k | 0 <= k <= i + 1 :: parts[..k] == Init(parts)[..k];
    DeadEnd(g, root, Init(parts), i + 1);
    NoFileMet(g, root, parts, i);
  }

  /** A file stands on the way to the parent, or in its place. */
  lemma FileIsMet(g: Graph, root: Id, parts: Names, i: nat)
    requires i + 1 < |parts| && LeadsToFile(g, root, Init(parts)[..i + 1])
    ensures WhyNotFound(g, root, parts) == NotDirectory && !LeadsToDirectory(g, root, Init(parts))
  {
    var names := Init(parts);
    assert parts[..i + 1] == names[..i + 1];
    if i + 1 < |names| {
      ResolveStep(g, root, names[..i + 1], names[i + 1]);
      assert names[..i + 2] == names[..i + 1] + [names[i + 1]];
      DeadEnd(g, root, names, i + 2);
    } else {
      assert names[..i + 1] == names;
    }
  }

  /** Once a prefix leads nowhere the path does. */
  lemma {:induction false} DeadEnd(g: Graph, root: Id, names: Names, k: nat)
    requires k <= |names| && Resolve(g, root, names[..k]) == None
    ensures Resolve(g, root, names) == None
  {
    if k == |names| {
      assert names[..k] == names;
    } else {
      assert Init(names)[..k] == names[..k];
      DeadEnd(g, root, Init(names), k);
    }
  }
}
