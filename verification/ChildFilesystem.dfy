/** Saving the inode graph a child process may scribble over, and putting it back. */
module ChildFilesystem {
  import opened Basics
  import opened Inodes

  const SYSROOT := "sysroot"
  const MAX_FILESYSTEM_ENTRIES: nat := 10_000
  const MAX_FILESYSTEM_BYTES: nat := 64 * 1024 * 1024

  /** Each directory met with its entries, each file met with its bytes and flag. */
  datatype Saved = Saved(root: Id, directories: map<Id, map<string, Id>>, files: map<Id, Inode>)

  datatype SnapshotResult =
    | Accepted(saved: Saved)
    | TooManyEntries
    | TooManyBytes
    | CyclicOrShared
    | Unsupported

  /** A path that does not go through the excluded system root. */
  predicate OutsideSysroot(path: Names) {
    path == [] || path[0] != SYSROOT
  }

  /** The same graph, as far as it was saved. */
  function SavedGraph(s: Saved): Graph {
    map id | id in s.directories.Keys + s.files.Keys ::
      if id in s.directories then DirectoryInode(s.directories[id]) else s.files[id]
  }

  /** An entry that saving followed. */
  predicate Entry(s: Saved, d: Id, n: string) {
    d in s.directories && n in s.directories[d] && !(d == s.root && n == SYSROOT)
  }

  function Named(s: Saved, d: Id, n: string): Id
    requires Entry(s, d, n)
  {
    s.directories[d][n]
  }

  /** Every object met has one name, and nothing leads back to the root. */
  ghost predicate SingleNamed(s: Saved) {
    && (forall d, n | Entry(s, d, n) :: Named(s, d, n) != s.root)
    && (forall d, n, e, m | Entry(s, d, n) && Entry(s, e, m) && Named(s, d, n) == Named(s, e, m) :: d == e && n == m)
  }

  /** A finished snapshot: whatever a followed entry leads to is saved too. */
  ghost predicate Closed(s: Saved) {
    && s.root in s.directories && SingleNamed(s)
    && s.directories.Keys !! s.files.Keys
    && (forall f | f in s.files :: s.files[f].FileInode?)
    && (forall d, n | Entry(s, d, n) :: Named(s, d, n) in s.directories || Named(s, d, n) in s.files)
  }

  /** The live objects are as saved. */
  ghost predicate Matches(g: Graph, s: Saved) {
    && (forall d | d in s.directories :: d in g && g[d] == DirectoryInode(s.directories[d]))
    && (forall f | f in s.files :: f in g && g[f] == s.files[f])
  }

  /** The objects still are what they were: files stay files and directories directories, whatever they hold. */
  predicate SameKinds(g: Graph, s: Saved) {
    && (forall d | d in s.directories :: IsDirectoryInode(g, d))
    && (forall f | f in s.files :: f in g && g[f].FileInode?)
  }

  // ---------- what a snapshot determines ----------

  /** A graph that matches resolves every path outside the system root as it was saved. */
  lemma {:induction false} MatchingGraphResolves(g: Graph, s: Saved, path: Names)
    requires Closed(s) && Matches(g, s) && OutsideSysroot(path)
    ensures Resolve(g, s.root, path) == Resolve(SavedGraph(s), s.root, path)
    ensures Resolve(g, s.root, path).Some? ==>
              Resolve(g, s.root, path).value in s.directories || Resolve(g, s.root, path).value in s.files
    ensures path != [] ==> Resolve(g, s.root, path) != Some(s.root)
  {
    if path != [] {
      MatchingGraphResolves(g, s, Init(path));
      if Resolve(g, s.root, Init(path)).Some? {
        var d, n := Resolve(g, s.root, Init(path)).value, Last(path);
        if HasEntry(g, d, n) {
          assert Init(path) == [] ==> n == path[0];
          assert Entry(s, d, n) && Named(s, d, n) == Child(g, d, n);
        }
      }
    }
  }

  /** Two paths never lead to one object. */
  ghost predicate TreeShaped(g: Graph, root: Id) {
    forall p, q | OutsideSysroot(p) && OutsideSysroot(q)
                  && Resolve(g, root, p).Some? && Resolve(g, root, p) == Resolve(g, root, q) :: p == q
  }

  lemma {:induction false} SavedPathsAreUnique(g: Graph, s: Saved, p: Names, q: Names)
    requires Closed(s) && Matches(g, s) && OutsideSysroot(p) && OutsideSysroot(q)
    requires Resolve(g, s.root, p).Some? && Resolve(g, s.root, p) == Resolve(g, s.root, q)
    ensures p == q
    decreases |p|
  {
    MatchingGraphResolves(g, s, p);
    MatchingGraphResolves(g, s, q);
    if p != [] && q != [] {
      MatchingGraphResolves(g, s, Init(p));
      MatchingGraphResolves(g, s, Init(q));
      var d, n, e, m := Resolve(g, s.root, Init(p)).value, Last(p), Resolve(g, s.root, Init(q)).value, Last(q);
      assert Init(p) == [] ==> n == p[0];
      assert Init(q) == [] ==> m == q[0];
      assert Entry(s, d, n) && Entry(s, e, m) && Named(s, d, n) == Named(s, e, m);
      SavedPathsAreUnique(g, s, Init(p), Init(q));
      assert p == Init(p) + [n] && q == Init(q) + [m];
    }
  }

  lemma AcceptedGraphIsTree(g: Graph, s: Saved)
    requires Closed(s) && Matches(g, s)
    ensures TreeShaped(g, s.root)
  {
    forall p, q | OutsideSysroot(p) && OutsideSysroot(q)
                  && Resolve(g, s.root, p).Some? && Resolve(g, s.root, p) == Resolve(g, s.root, q)
      ensures p == q
    {
      SavedPathsAreUnique(g, s, p, q);
    }
  }

  // ---------- which graphs can be saved ----------

  /** Different paths below the root that lead somewhere. */
  ghost predicate Listing(g: Graph, root: Id, paths: seq<Names>) {
    && (forall i, j | 0 <= i < j < |paths| :: paths[i] != paths[j])
    && (forall p | p in paths :: p != [] && OutsideSysroot(p) && Resolve(g, root, p).Some?)
  }

  function BytesAt(g: Graph, root: Id, path: Names): nat {
    match Resolve(g, root, path)
    case None => 0
    case Some(f) => if f in g && g[f].FileInode? then |g[f].data| else 0
  }

  function TotalBytes(g: Graph, root: Id, paths: seq<Names>): nat {
    if paths == [] then 0
    else TotalBytes(g, root, paths[..|paths| - 1]) + BytesAt(g, root, paths[|paths| - 1])
  }

  ghost predicate AllSupported(g: Graph, root: Id) {
    forall p | OutsideSysroot(p) && Resolve(g, root, p).Some? ::
      Resolve(g, root, p).value in g && !g[Resolve(g, root, p).value].OtherInode?
  }

  /** No more than so many entries, and no more than so many bytes in all files together. */
  ghost predicate WithinLimits(g: Graph, root: Id) {
    forall paths | Listing(g, root, paths) ::
      |paths| <= MAX_FILESYSTEM_ENTRIES && TotalBytes(g, root, paths) <= MAX_FILESYSTEM_BYTES
  }

  lemma {:induction false} TotalBytesAdds(g: Graph, root: Id, a: seq<Names>, b: seq<Names>)
    ensures TotalBytes(g, root, a + b) == TotalBytes(g, root, a) + TotalBytes(g, root, b)
  {
    if b == [] {
      assert a + b == a;
    } else {
      assert (a + b)[..|a + b| - 1] == a + b[..|b| - 1];
      TotalBytesAdds(g, root, a, b[..|b| - 1]);
    }
  }

  /** Some of the paths are not more, and hold not more. */
  lemma {:induction false} FewerPaths(g: Graph, root: Id, some: seq<Names>, all: seq<Names>)
    requires forall i, j | 0 <= i < j < |some| :: some[i] != some[j]
    requires forall p | p in some :: p in all
    ensures |some| <= |all| && TotalBytes(g, root, some) <= TotalBytes(g, root, all)
    decreases |some|
  {
    if some != [] {
      var n := |some| - 1;
      assert some[n] in all;
      var k :| 0 <= k < |all| && all[k] == some[n];
      forall p | p in some[..n] ensures p in all[..k] + all[k + 1..] {
        assert p in some && p != some[n];
        assert all == all[..k] + [all[k]] + all[k + 1..];
      }
      FewerPaths(g, root, some[..n], all[..k] + all[k + 1..]);
      WithoutOne(g, root, all, k);
    }
  }

  lemma WithoutOne(g: Graph, root: Id, all: seq<Names>, k: nat)
    requires k < |all|
    ensures TotalBytes(g, root, all) == TotalBytes(g, root, all[..k] + all[k + 1..]) + BytesAt(g, root, all[k])
  {
    assert all == all[..k + 1] + all[k + 1..];
    TotalBytesAdds(g, root, all[..k + 1], all[k + 1..]);
    TotalBytesAdds(g, root, all[..k], all[k + 1..]);
    assert all[..k + 1][..k] == all[..k];
  }

  // ---------- saving ----------

  /** What has been saved so far is true of the graph; directories in open are still being read. */
  ghost predicate Scanned(g: Graph, s: Saved, visited: set<Id>, pending: seq<Id>, open: set<Id>) {
    && (forall d | d in s.directories ::
          d in visited && IsDirectoryInode(g, d) && s.directories[d].Keys <= g[d].contents.Keys
          && (forall n | n in s.directories[d] :: s.directories[d][n] == g[d].contents[n]))
    && (forall d | d in s.directories && d !in open :: s.directories[d].Keys == g[d].contents.Keys)
    && (forall f | f in s.files :: f in visited && f in g && g[f] == s.files[f] && g[f].FileInode?)
    && SingleNamed(s) && s.root in visited
    && (s.root in s.directories || s.root in pending)
    && (forall d, n | Entry(s, d, n) ::
          var c := Named(s, d, n); c in visited && (c in s.directories || c in s.files || c in pending))
    && (forall d | d in pending :: d in visited && IsDirectoryInode(g, d) && d !in s.directories)
    && (forall i, j | 0 <= i < j < |pending| :: pending[i] != pending[j])
  }

  /** Where each visited object was met. */
  ghost predicate Met(g: Graph, s: Saved, visited: set<Id>, paths: map<Id, Names>) {
    && (forall v | v in visited :: v in paths && OutsideSysroot(paths[v]) && Resolve(g, s.root, paths[v]) == Some(v))
    && (forall v | v in visited && paths[v] != [] ::
          var d := Resolve(g, s.root, Init(paths[v])); d.Some? && Entry(s, d.value, Last(paths[v])))
  }

  /** Meeting a visited object again means two names for it. */
  lemma MetAgain(g: Graph, s: Saved, visited: set<Id>, paths: map<Id, Names>, d: Id, n: string)
    requires Met(g, s, visited, paths) && d in visited && HasEntry(g, d, n) && Child(g, d, n) in visited
    requires !Entry(s, d, n) && !(d == s.root && n == SYSROOT)
    ensures !TreeShaped(g, s.root)
  {
    var c := Child(g, d, n);
    var again := paths[d] + [n];
    ResolveStep(g, s.root, paths[d], n);
    assert Init(again) == paths[d] && Last(again) == n;
    assert OutsideSysroot(again);
    assert Resolve(g, s.root, again) == Some(c);
    assert again != paths[c];
  }

  lemma MetOnce(g: Graph, s: Saved, visited: set<Id>, paths: map<Id, Names>, d: Id, n: string)
    requires Met(g, s, visited, paths) && d in visited && HasEntry(g, d, n) && !(d == s.root && n == SYSROOT)
    ensures d in paths && OutsideSysroot(paths[d] + [n]) && Resolve(g, s.root, paths[d] + [n]) == Some(Child(g, d, n))
  {
    ResolveStep(g, s.root, paths[d], n);
  }

  /** The totals are those of the paths met so far, other than the root's. */
  ghost predicate Counted(g: Graph, root: Id, visited: set<Id>, paths: map<Id, Names>, met: seq<Names>, entries: nat,
      bytes: nat)
  {
    && Listing(g, root, met) && |met| == entries && TotalBytes(g, root, met) == bytes
    && (forall v | v in visited && v != root :: v in paths && paths[v] in met)
    && (forall p | p in met ::
          Resolve(g, root, p).value in visited && Resolve(g, root, p).value in paths
          && paths[Resolve(g, root, p).value] == p)
  }

  lemma PathIsNew(
    g: Graph, s: Saved, visited: set<Id>, paths: map<Id, Names>, met: seq<Names>, entries: nat, bytes: nat, d: Id,
    n: string)
    requires Met(g, s, visited, paths) && Counted(g, s.root, visited, paths, met, entries, bytes)
    requires d in visited && HasEntry(g, d, n) && !(d == s.root && n == SYSROOT) && !Entry(s, d, n)
    ensures Listing(g, s.root, met + [paths[d] + [n]])
    ensures TotalBytes(g, s.root, met + [paths[d] + [n]]) == bytes + BytesAt(g, s.root, paths[d] + [n])
  {
    hide TotalBytes, BytesAt;
    var path := paths[d] + [n];
    MetOnce(g, s, visited, paths, d, n);
    assert Init(path) == paths[d] && Last(path) == n;
    assert path !in met;
    assert (met + [path])[..|met|] == met;
    OneMorePath(g, s.root, met, path);
  }

  lemma OneMorePath(g: Graph, root: Id, met: seq<Names>, path: Names)
    ensures TotalBytes(g, root, met + [path]) == TotalBytes(g, root, met) + BytesAt(g, root, path)
  {
    assert (met + [path])[..|met|] == met;
  }

  lemma NewEntryCounted(
    g: Graph, s: Saved, visited: set<Id>, paths: map<Id, Names>, met: seq<Names>, entries: nat, bytes: nat, d: Id,
    n: string)
    requires Met(g, s, visited, paths) && Counted(g, s.root, visited, paths, met, entries, bytes)
    requires d in visited && HasEntry(g, d, n) && !(d == s.root && n == SYSROOT) && !Entry(s, d, n)
    requires Child(g, d, n) !in visited
    ensures var path := paths[d] + [n];
      Counted(g, s.root, visited + {Child(g, d, n)}, paths[Child(g, d, n) := path], met + [path],
              entries + 1, bytes + BytesAt(g, s.root, path))
  {
    hide Listing, TotalBytes, BytesAt;
    PathIsNew(g, s, visited, paths, met, entries, bytes, d, n);
    MetOnce(g, s, visited, paths, d, n);
  }

  /** Everything has been met: any other list of paths is part of the one that was counted. */
  lemma CountedEverything(
    g: Graph, s: Saved, visited: set<Id>, paths: map<Id, Names>, met: seq<Names>, entries: nat, bytes: nat)
    requires Scanned(g, s, visited, [], {}) && Met(g, s, visited, paths)
    requires Counted(g, s.root, visited, paths, met, entries, bytes)
    requires entries <= MAX_FILESYSTEM_ENTRIES && bytes <= MAX_FILESYSTEM_BYTES
    ensures AllSupported(g, s.root) && WithinLimits(g, s.root)
  {
    hide TotalBytes, Closed, Matches;
    ScanComplete(g, s, visited);
    forall p | OutsideSysroot(p) && Resolve(g, s.root, p).Some?
      ensures Resolve(g, s.root, p).value in visited
      ensures Resolve(g, s.root, p).value in g && !g[Resolve(g, s.root, p).value].OtherInode?
      ensures p != [] ==> Resolve(g, s.root, p).value != s.root
    {
      MatchingGraphResolves(g, s, p);
    }
    forall some | Listing(g, s.root, some)
      ensures |some| <= MAX_FILESYSTEM_ENTRIES && TotalBytes(g, s.root, some) <= MAX_FILESYSTEM_BYTES
    {
      forall p | p in some ensures p in met {
        var v := Resolve(g, s.root, p).value;
        assert v in visited && v != s.root && Resolve(g, s.root, paths[v]) == Some(v);
      }
      FewerPaths(g, s.root, some, met);
    }
  }

  lemma NewEntryScanned(
    g: Graph, s: Saved, visited: set<Id>, pending: seq<Id>, d: Id, n: string, next: Saved, rest: seq<Id>)
    requires Scanned(g, s, visited, pending, {d}) && d in s.directories && HasEntry(g, d, n) && n !in s.directories[d]
    requires !(d == s.root && n == SYSROOT) && Child(g, d, n) !in visited && Child(g, d, n) in g
    requires next.root == s.root && next.directories == s.directories[d := s.directories[d][n := Child(g, d, n)]]
    requires (g[Child(g, d, n)].FileInode? && rest == pending
              && next.files == s.files[Child(g, d, n) := g[Child(g, d, n)]])
          || (g[Child(g, d, n)].DirectoryInode? && rest == pending + [Child(g, d, n)] && next.files == s.files)
    ensures Scanned(g, next, visited + {Child(g, d, n)}, rest, {d})
  {
    var c := Child(g, d, n);
    forall e, m | Entry(next, e, m) ensures Entry(s, e, m) || (e == d && m == n) {}
    forall e, m | Entry(s, e, m) ensures Entry(next, e, m) && Named(next, e, m) == Named(s, e, m) {}
  }

  lemma NewEntryMet(
    g: Graph, s: Saved, visited: set<Id>, paths: map<Id, Names>, d: Id, n: string, next: Saved)
    requires Met(g, s, visited, paths) && d in visited && HasEntry(g, d, n) && !(d == s.root && n == SYSROOT)
    requires Child(g, d, n) !in visited && d in s.directories
    requires next.root == s.root && next.directories == s.directories[d := s.directories[d][n := Child(g, d, n)]]
    ensures d in paths && Met(g, next, visited + {Child(g, d, n)}, paths[Child(g, d, n) := paths[d] + [n]])
  {
    var c, path := Child(g, d, n), paths[d] + [n];
    ResolveStep(g, s.root, paths[d], n);
    assert Init(path) == paths[d] && Last(path) == n;
    assert Entry(next, d, n);
    forall e, m | Entry(s, e, m) ensures Entry(next, e, m) {}
  }

  /** The running totals and work lists of a scan. */
  datatype Scan = Scan(saved: Saved, visited: set<Id>, pending: seq<Id>, entries: nat, bytes: nat)

  /** Reads one directory; stops early with the reason for refusing the graph. */
  method ReadDirectory(g: Graph, start: Scan, d: Id, ghost before: map<Id, Names>, ghost counted: seq<Names>)
    returns (refusal: Option<SnapshotResult>, scan: Scan, ghost paths: map<Id, Names>, ghost met: seq<Names>)
    requires NamesExist(g) && IsDirectoryInode(g, d)
    requires d in start.saved.directories && start.saved.directories[d] == map[]
    requires Scanned(g, start.saved, start.visited, start.pending, {d})
    requires Met(g, start.saved, start.visited, before) && CountedBy(g, start, before, counted)
    ensures refusal.None? ==>
      && scan.saved.root == start.saved.root
      && scan.saved.directories.Keys == start.saved.directories.Keys
      && Scanned(g, scan.saved, scan.visited, scan.pending, {})
      && Met(g, scan.saved, scan.visited, paths) && CountedBy(g, scan, paths, met)
    ensures refusal.Some? ==> JustRefusal(g, start.saved.root, refusal.value)
  {
    hide TreeShaped, Met, Scanned, CountedBy, JustRefusal;
    scan, paths, met := start, before, counted;
    var root, names := start.saved.root, g[d].contents.Keys;
    while names != {}
      invariant scan.saved.root == root && names <= g[d].contents.Keys
      invariant scan.saved.directories.Keys == start.saved.directories.Keys
      invariant scan.saved.directories[d].Keys == g[d].contents.Keys - names
      invariant Scanned(g, scan.saved, scan.visited, scan.pending, {d}) && Met(g, scan.saved, scan.visited, paths)
      invariant CountedBy(g, scan, paths, met)
      decreases |names|
    {
      var n :| n in names;
      names := names - {n};
      var child, s := g[d].contents[n], scan.saved;
      var next := s.(directories := s.directories[d := s.directories[d][n := child]]);
      if d == root && n == SYSROOT {
        SysrootScanned(g, s, scan.visited, scan.pending, paths, n, next);
        SameCounts(g, scan, scan.(saved := next), paths, met);
        scan := scan.(saved := next);
        continue;
      }
      DirectoryVisited(g, s, scan.visited, scan.pending, d);
      ReasonsToRefuse(g, scan, paths, met, d, n);
      ghost var now := scan;
      scan := scan.(entries := scan.entries + 1);
      if scan.entries > MAX_FILESYSTEM_ENTRIES { return Some(TooManyEntries), scan, paths, met; }
      if child in scan.visited { return Some(CyclicOrShared), scan, paths, met; }
      match g[child] {
        case FileInode(data, _) =>
          scan := scan.(bytes := scan.bytes + |data|);
          if scan.bytes > MAX_FILESYSTEM_BYTES { return Some(TooManyBytes), scan, paths, met; }
          next := next.(files := next.files[child := g[child]]);
          NewEntryScanned(g, s, scan.visited, scan.pending, d, n, next, scan.pending);
        case DirectoryInode(_) =>
          NewEntryScanned(g, s, scan.visited, scan.pending, d, n, next, scan.pending + [child]);
          scan := scan.(pending := scan.pending + [child]);
        case OtherInode =>
          return Some(Unsupported), scan, paths, met;
      }
      NewEntryMet(g, s, scan.visited, paths, d, n, next);
      scan := scan.(saved := next, visited := scan.visited + {child});
      NextIsCounted(g, now, paths, met, d, n, scan);
      paths, met := paths[child := paths[d] + [n]], met + [paths[d] + [n]];
    }
    DirectoryRead(g, scan.saved, scan.visited, scan.pending, d);
    refusal := None;
  }

  ghost predicate CountedBy(g: Graph, scan: Scan, paths: map<Id, Names>, met: seq<Names>) {
    && Counted(g, scan.saved.root, scan.visited, paths, met, scan.entries, scan.bytes)
    && scan.entries <= MAX_FILESYSTEM_ENTRIES && scan.bytes <= MAX_FILESYSTEM_BYTES
  }

  lemma NextIsCounted(g: Graph, scan: Scan, paths: map<Id, Names>, met: seq<Names>, d: Id, n: string, next: Scan)
    requires Met(g, scan.saved, scan.visited, paths) && CountedBy(g, scan, paths, met)
    requires d in scan.visited && HasEntry(g, d, n)
    requires !(d == scan.saved.root && n == SYSROOT)
    requires !Entry(scan.saved, d, n)
    requires Child(g, d, n) !in scan.visited && Child(g, d, n) in g
    requires next.saved.root == scan.saved.root && next.visited == scan.visited + {Child(g, d, n)}
    requires next.entries == scan.entries + 1 <= MAX_FILESYSTEM_ENTRIES && next.bytes <= MAX_FILESYSTEM_BYTES
    requires next.bytes == scan.bytes + if g[Child(g, d, n)].FileInode? then |g[Child(g, d, n)].data| else 0
    ensures d in paths
    ensures CountedBy(g, next, paths[Child(g, d, n) := paths[d] + [n]], met + [paths[d] + [n]])
  {
    hide Met, Counted, Resolve;
    NewEntryCounted(g, scan.saved, scan.visited, paths, met, scan.entries, scan.bytes, d, n);
    MetOnce(g, scan.saved, scan.visited, paths, d, n);
  }

  /** A graph is refused for what it is: too large, not a tree, or with an object of another kind. */
  ghost predicate JustRefusal(g: Graph, root: Id, refusal: SnapshotResult) {
    match refusal
    case Accepted(_) => false
    case TooManyEntries => exists paths :: Listing(g, root, paths) && |paths| > MAX_FILESYSTEM_ENTRIES
    case TooManyBytes => exists paths :: Listing(g, root, paths) && TotalBytes(g, root, paths) > MAX_FILESYSTEM_BYTES
    case CyclicOrShared => !TreeShaped(g, root)
    case Unsupported =>
      exists p :: OutsideSysroot(p) && Resolve(g, root, p).Some?
                  && Resolve(g, root, p).value in g && g[Resolve(g, root, p).value].OtherInode?
  }

  /** What would justify a refusal at the next entry. */
  lemma ReasonsToRefuse(g: Graph, scan: Scan, paths: map<Id, Names>, met: seq<Names>, d: Id, n: string)
    requires Met(g, scan.saved, scan.visited, paths) && CountedBy(g, scan, paths, met)
    requires d in scan.visited && HasEntry(g, d, n)
    requires !(d == scan.saved.root && n == SYSROOT)
    requires !Entry(scan.saved, d, n)
    requires Child(g, d, n) in g
    ensures scan.bytes <= MAX_FILESYSTEM_BYTES
    ensures scan.entries + 1 > MAX_FILESYSTEM_ENTRIES ==> JustRefusal(g, scan.saved.root, TooManyEntries)
    ensures Child(g, d, n) in scan.visited ==> JustRefusal(g, scan.saved.root, CyclicOrShared)
    ensures g[Child(g, d, n)].OtherInode? ==> JustRefusal(g, scan.saved.root, Unsupported)
    ensures g[Child(g, d, n)].FileInode? && scan.bytes + |g[Child(g, d, n)].data| > MAX_FILESYSTEM_BYTES ==>
              JustRefusal(g, scan.saved.root, TooManyBytes)
  {
    hide Met, TreeShaped, Listing, TotalBytes;
    if Child(g, d, n) in scan.visited { MetAgain(g, scan.saved, scan.visited, paths, d, n); }
    MetOnce(g, scan.saved, scan.visited, paths, d, n);
    PathIsNew(g, scan.saved, scan.visited, paths, met, scan.entries, scan.bytes, d, n);
    var more := met + [paths[d] + [n]];
    assert Listing(g, scan.saved.root, more) && |more| == scan.entries + 1;
  }

  /** Saving succeeds exactly for a tree of files and directories within the limits, and then has all of it. */

  method SnapshotFilesystem(g: Graph, root: Id) returns (result: SnapshotResult)
    requires NamesExist(g) && IsDirectoryInode(g, root)
    ensures result.Accepted? ==>
      result.saved.root == root && Closed(result.saved) && Matches(g, result.saved)
    ensures result.Accepted? <==> TreeShaped(g, root) && AllSupported(g, root) && WithinLimits(g, root)
    ensures !result.Accepted? ==> JustRefusal(g, root, result)
  {
    hide Closed, Matches, TreeShaped, Met, Scanned, AllSupported, WithinLimits, JustRefusal, CountedBy;
    var scan := Scan(Saved(root, map[], map[]), {root}, [root], 0, 0);
    ghost var paths: map<Id, Names> := map[root := []];
    ghost var met: seq<Names> := [];
    NothingMetYet(g, scan.saved);
    NothingCountedYet(g, scan, paths);
    while scan.pending != []
      invariant scan.saved.root == root
      invariant Scanned(g, scan.saved, scan.visited, scan.pending, {}) && Met(g, scan.saved, scan.visited, paths)
      invariant CountedBy(g, scan, paths, met)
      decreases g.Keys - scan.saved.directories.Keys
    {
      var d := scan.pending[|scan.pending| - 1];
      OpenDirectory(g, scan.saved, scan.visited, scan.pending, d);
      var emptied := scan.saved.(directories := scan.saved.directories[d := map[]]);
      MetGrows(g, scan.saved, scan.visited, paths, emptied);
      ghost var now := scan;
      scan := scan.(saved := emptied, pending := scan.pending[..|scan.pending| - 1]);
      SameCounts(g, now, scan, paths, met);
      var refusal;
      refusal, scan, paths, met := ReadDirectory(g, scan, d, paths, met);
      if refusal.Some? {
        RefusedGraph(g, root, refusal.value);
        return refusal.value;
      }
    }
    ScanComplete(g, scan.saved, scan.visited);
    AllCounted(g, scan, paths, met);
    result := Accepted(scan.saved);
  }

  lemma RefusedGraph(g: Graph, root: Id, refusal: SnapshotResult)
    requires JustRefusal(g, root, refusal)
    ensures !refusal.Accepted? && !(TreeShaped(g, root) && AllSupported(g, root) && WithinLimits(g, root))
  {
    hide TreeShaped;
  }

  lemma AllCounted(g: Graph, scan: Scan, paths: map<Id, Names>, met: seq<Names>)
    requires Scanned(g, scan.saved, scan.visited, [], {}) && Met(g, scan.saved, scan.visited, paths)
    requires CountedBy(g, scan, paths, met)
    ensures AllSupported(g, scan.saved.root) && WithinLimits(g, scan.saved.root)
  {
    hide Scanned, Met, Counted, AllSupported, WithinLimits;
    CountedEverything(g, scan.saved, scan.visited, paths, met, scan.entries, scan.bytes);
  }

  lemma SameCounts(g: Graph, scan: Scan, next: Scan, paths: map<Id, Names>, met: seq<Names>)
    requires CountedBy(g, scan, paths, met)
    requires next.saved.root == scan.saved.root && next.visited == scan.visited
    requires next.entries == scan.entries && next.bytes == scan.bytes
    ensures CountedBy(g, next, paths, met)
  {
  }

  lemma NothingCountedYet(g: Graph, scan: Scan, paths: map<Id, Names>)
    requires scan.visited == {scan.saved.root} && scan.entries == 0 && scan.bytes == 0
    ensures CountedBy(g, scan, paths, [])
  {
  }

  lemma NothingMetYet(g: Graph, s: Saved)
    requires s == Saved(s.root, map[], map[]) && IsDirectoryInode(g, s.root)
    ensures Met(g, s, {s.root}, map[s.root := []]) && Scanned(g, s, {s.root}, [s.root], {})
  {
  }

  lemma DirectoryVisited(g: Graph, s: Saved, visited: set<Id>, pending: seq<Id>, d: Id)
    requires Scanned(g, s, visited, pending, {d}) && d in s.directories
    ensures d in visited
  {
  }

  lemma DirectoryRead(g: Graph, s: Saved, visited: set<Id>, pending: seq<Id>, d: Id)
    requires Scanned(g, s, visited, pending, {d}) && d in s.directories
    requires s.directories[d].Keys == g[d].contents.Keys
    ensures Scanned(g, s, visited, pending, {})
  {
  }

  lemma ScanComplete(g: Graph, s: Saved, visited: set<Id>)
    requires Scanned(g, s, visited, [], {})
    ensures Closed(s) && Matches(g, s) && TreeShaped(g, s.root)
  {
    assert forall d | d in s.directories :: d !in s.files;
    AcceptedGraphIsTree(g, s);
  }

  lemma OpenDirectory(g: Graph, s: Saved, visited: set<Id>, pending: seq<Id>, d: Id)
    requires Scanned(g, s, visited, pending, {}) && pending != [] && d == pending[|pending| - 1]
    ensures d !in s.directories && d in visited && IsDirectoryInode(g, d)
    ensures Scanned(g, s.(directories := s.directories[d := map[]]), visited, pending[..|pending| - 1], {d})
  {
    var next := s.(directories := s.directories[d := map[]]);
    assert d in pending;
    forall e, m | Entry(next, e, m) ensures Entry(s, e, m) && Named(s, e, m) == Named(next, e, m) {}
    forall e | e in pending ensures e == d || e in pending[..|pending| - 1] {}
  }

  lemma MetGrows(g: Graph, s: Saved, visited: set<Id>, paths: map<Id, Names>, next: Saved)
    requires Met(g, s, visited, paths) && next.root == s.root
    requires forall e, m | Entry(s, e, m) :: Entry(next, e, m)
    ensures Met(g, next, visited, paths)
  {
  }

  lemma SysrootScanned(
    g: Graph, s: Saved, visited: set<Id>, pending: seq<Id>, paths: map<Id, Names>, n: string, next: Saved)
    requires n == SYSROOT && HasEntry(g, s.root, n) && s.root in s.directories && n !in s.directories[s.root]
    requires Scanned(g, s, visited, pending, {s.root}) && Met(g, s, visited, paths)
    requires next == s.(directories := s.directories[s.root := s.directories[s.root][n := Child(g, s.root, n)]])
    ensures Scanned(g, next, visited, pending, {s.root}) && Met(g, next, visited, paths)
  {
    forall e, m | Entry(next, e, m) ensures Entry(s, e, m) && Named(s, e, m) == Named(next, e, m) {}
    forall e, m | Entry(s, e, m) ensures Entry(next, e, m) {}
  }

  // ---------- restoring ----------

  /** What is restored so far: the directories in done and the files they name. */
  ghost predicate Restored(g: Graph, s: Saved, done: set<Id>) {
    && (forall d | d in done :: d in s.directories && d in g && g[d] == DirectoryInode(s.directories[d]))
    && (forall d, n | d in done && Entry(s, d, n) && Named(s, d, n) in s.files ::
          Named(s, d, n) in g && g[Named(s, d, n)] == s.files[Named(s, d, n)])
  }

  ghost predicate HangsIn(s: Saved, done: set<Id>, d: Id) {
    exists e, n :: e in done && Entry(s, e, n) && Named(s, e, n) == d
  }

  /** Directories still to do hang in directories that are done, each just once. */
  ghost predicate Frontier(s: Saved, done: set<Id>, pending: seq<Id>) {
    && (forall i, j | 0 <= i < j < |pending| :: pending[i] != pending[j])
    && (forall d | d in pending :: d in s.directories && d !in done)
    && (forall d | d in done || d in pending :: d == s.root || HangsIn(s, done, d))
    && (s.root in done || s.root in pending)
    && (forall e, n | e in done && Entry(s, e, n) && Named(s, e, n) in s.directories ::
          Named(s, e, n) in done || Named(s, e, n) in pending)
  }

  /** kids lists the subdirectories named by d, each once. */
  ghost predicate Subdirectories(s: Saved, d: Id, names: set<string>, kids: seq<Id>) {
    && (forall i, j | 0 <= i < j < |kids| :: kids[i] != kids[j])
    && (forall x :: x in kids <==>
      exists n :: n in names && Entry(s, d, n) && Named(s, d, n) == x && x in s.directories)
  }

  /** The subdirectories of d are new: neither done, nor pending, nor d. */
  lemma KidsAreNew(s: Saved, done: set<Id>, pending: seq<Id>, d: Id, kids: seq<Id>)
    requires Closed(s) && Frontier(s, done, pending + [d]) && Subdirectories(s, d, s.directories[d].Keys, kids)
    ensures d in pending + [d] && d !in pending && d !in done
    ensures forall x | x in kids ::
      x in s.directories && x != d && x !in done && x !in pending && x != s.root && HangsIn(s, done + {d}, x)
  {
    var before := pending + [d];
    assert before[|pending|] == d && d in before;
    assert forall i | 0 <= i < |pending| :: before[i] == pending[i] && before[i] != before[|pending|];
    forall x | x in kids
      ensures x in s.directories && x != d && x !in done && x !in pending && x != s.root && HangsIn(s, done + {d}, x)
    {
      var n :| n in s.directories[d] && Entry(s, d, n) && Named(s, d, n) == x;
      assert x in before ==> x == s.root || HangsIn(s, done, x);
    }
  }

  lemma NoneTwiceInBoth(pending: seq<Id>, d: Id, kids: seq<Id>)
    requires forall i, j | 0 <= i < j < |pending + [d]| :: (pending + [d])[i] != (pending + [d])[j]
    requires forall i, j | 0 <= i < j < |kids| :: kids[i] != kids[j]
    requires forall x | x in kids :: x !in pending
    ensures forall i, j | 0 <= i < j < |pending + kids| :: (pending + kids)[i] != (pending + kids)[j]
  {
    var before, after := pending + [d], pending + kids;
    forall i, j | 0 <= i < j < |after| ensures after[i] != after[j] {
      if i < |pending| <= j {
        assert after[j] in kids && after[i] in pending;
      } else if j < |pending| {
        assert before[i] != before[j];
      }
    }
  }

  lemma FrontierAdvances(s: Saved, done: set<Id>, pending: seq<Id>, d: Id, kids: seq<Id>)
    requires Closed(s) && Frontier(s, done, pending + [d]) && Subdirectories(s, d, s.directories[d].Keys, kids)
    ensures Frontier(s, done + {d}, pending + kids)
  {
    hide Closed;
    KidsAreNew(s, done, pending, d, kids);
    NoneTwiceInBoth(pending, d, kids);
    var before, after := pending + [d], pending + kids;
    forall x | x in done + {d} || x in after ensures x == s.root || HangsIn(s, done + {d}, x) {
      if x !in kids {
        assert x in done || x in before;
        if x != s.root {
          var e, m :| e in done && Entry(s, e, m) && Named(s, e, m) == x;
          assert e in done + {d};
        }
      }
    }
    forall e, n | e in done + {d} && Entry(s, e, n) && Named(s, e, n) in s.directories
      ensures Named(s, e, n) in done + {d} || Named(s, e, n) in after
    {
      if e == d {
        assert n in s.directories[d].Keys;
        assert Named(s, e, n) in kids;
      } else {
        assert Named(s, e, n) in done || Named(s, e, n) in before;
      }
    }
  }

  /** Only d and the files it names may differ. */
  ghost predicate OnlyTouches(s: Saved, d: Id, names: set<string>, g: Graph, h: Graph) {
    && g.Keys == h.Keys
    && (forall id | id in g && id != d :: h[id] == g[id]
          || (id in s.files && h[id] == s.files[id]
              && exists n :: n in names && Entry(s, d, n) && Named(s, d, n) == id))
  }

  /** A directory being refilled: the names in read are back. */
  ghost predicate Refilling(s: Saved, d: Id, read: set<string>, before: Graph, g: Graph, kids: seq<Id>) {
    && d in s.directories && read <= s.directories[d].Keys
    && SameKinds(g, s) && OnlyTouches(s, d, read, before, g)
    && g[d] == DirectoryInode(map n | n in read :: s.directories[d][n])
    && (forall n | n in read && Entry(s, d, n) && Named(s, d, n) in s.files ::
      g[Named(s, d, n)] == s.files[Named(s, d, n)])
    && Subdirectories(s, d, read, kids)
  }

  function Refill(g: Graph, d: Id, n: string, child: Id): Graph
    requires IsDirectoryInode(g, d)
  {
    g[d := DirectoryInode(g[d].contents[n := child])]
  }

  lemma SysrootRefilled(s: Saved, d: Id, read: set<string>, before: Graph, g: Graph, kids: seq<Id>, n: string)
    requires Refilling(s, d, read, before, g, kids) && n in s.directories[d] && n !in read
    requires d == s.root && n == SYSROOT
    ensures Refilling(s, d, read + {n}, before, Refill(g, d, n, s.directories[d][n]), kids)
  {
    TouchesMore(s, d, read, before, g, Refill(g, d, n, s.directories[d][n]), n);
  }

  lemma TouchesMore(s: Saved, d: Id, read: set<string>, before: Graph, g: Graph, h: Graph, n: string)
    requires OnlyTouches(s, d, read, before, g) && g.Keys == h.Keys
    requires forall id | id in g && id != d :: h[id] == g[id] || (id in s.files && h[id] == s.files[id]
                                                               && Entry(s, d, n) && Named(s, d, n) == id)
    ensures OnlyTouches(s, d, read + {n}, before, h)
  {
    forall id | id in before && id != d
      ensures h[id] == before[id]
        || (id in s.files && h[id] == s.files[id]
            && exists m :: m in read + {n} && Entry(s, d, m) && Named(s, d, m) == id)
    {
      if h[id] != g[id] {
        assert n in read + {n};
      } else if g[id] != before[id] {
        var m :| m in read && Entry(s, d, m) && Named(s, d, m) == id;
        assert m in read + {n};
      }
    }
  }

  lemma FileRefilled(s: Saved, d: Id, read: set<string>, before: Graph, g: Graph, kids: seq<Id>, n: string, h: Graph)
    requires Closed(s) && Refilling(s, d, read, before, g, kids) && n in s.directories[d] && n !in read
    requires Entry(s, d, n) && Named(s, d, n) in s.files
    requires h == Refill(g[Named(s, d, n) := s.files[Named(s, d, n)]], d, n, Named(s, d, n))
    ensures Refilling(s, d, read + {n}, before, h, kids)
  {
    FileIsNoSubdirectory(s, d, read, kids, n);
    hide Closed, Subdirectories;
    TouchesMore(s, d, read, before, g, h, n);
    hide OnlyTouches;
    OneMoreName(s.directories[d], read, n);
    var f := Named(s, d, n);
    assert f != d && h[d] == DirectoryInode(g[d].contents[n := f]);
    forall m | m in read + {n} && Entry(s, d, m) && Named(s, d, m) in s.files
      ensures h[Named(s, d, m)] == s.files[Named(s, d, m)]
    {
      assert Named(s, d, m) != d;
    }
  }

  lemma OneMoreName(contents: map<string, Id>, read: set<string>, n: string)
    requires read <= contents.Keys && n in contents
    ensures (map m | m in read :: contents[m])[n := contents[n]] == map m | m in read + {n} :: contents[m]
  {
  }

  lemma FileIsNoSubdirectory(s: Saved, d: Id, read: set<string>, kids: seq<Id>, n: string)
    requires Closed(s) && Subdirectories(s, d, read, kids) && Entry(s, d, n) && Named(s, d, n) in s.files
    ensures Subdirectories(s, d, read + {n}, kids) && Named(s, d, n) !in s.directories
  {
    assert Named(s, d, n) !in s.directories;
  }

  lemma OneMoreSubdirectory(s: Saved, d: Id, read: set<string>, kids: seq<Id>, n: string)
    requires Closed(s) && Subdirectories(s, d, read, kids) && n !in read
    requires Entry(s, d, n) && Named(s, d, n) !in s.files
    ensures Subdirectories(s, d, read + {n}, kids + [Named(s, d, n)])
  {
    var child := Named(s, d, n);
    assert child !in kids;
    forall x ensures x in kids + [child] <==>
        exists m :: m in read + {n} && Entry(s, d, m) && Named(s, d, m) == x && x in s.directories {
      if m :| m in read + {n} && Entry(s, d, m) && Named(s, d, m) == x && x in s.directories {
        if m != n { assert x in kids; }
      }
      if x in kids {
        var m :| m in read && Entry(s, d, m) && Named(s, d, m) == x && x in s.directories;
        assert m in read + {n};
      }
      if x == child { assert n in read + {n}; }
    }
  }

  lemma SubdirectoryRefilled(
    s: Saved, d: Id, read: set<string>, before: Graph, g: Graph, kids: seq<Id>, n: string, h: Graph)
    requires Closed(s) && Refilling(s, d, read, before, g, kids) && n in s.directories[d] && n !in read
    requires Entry(s, d, n) && Named(s, d, n) !in s.files && h == Refill(g, d, n, Named(s, d, n))
    ensures Refilling(s, d, read + {n}, before, h, kids + [Named(s, d, n)])
  {
    hide Closed, SingleNamed, Subdirectories;
    TouchesMore(s, d, read, before, g, h, n);
    OneMoreSubdirectory(s, d, read, kids, n);
    hide OnlyTouches;
  }

  method RestoreDirectory(heap: InodeHeap, s: Saved, d: Id) returns (kids: seq<Id>)
    requires Closed(s) && SameKinds(heap.graph, s) && d in s.directories
    modifies heap
    ensures Refilling(s, d, s.directories[d].Keys, old(heap.graph), heap.graph, kids)
  {
    hide Closed, SingleNamed, Refilling;
    ghost var before, read := heap.graph, {};
    heap.graph := heap.graph[d := DirectoryInode(map[])];
    kids := [];
    var names := s.directories[d].Keys;
    NothingRefilled(s, d, before, heap.graph);
    while names != {}
      invariant names <= s.directories[d].Keys && read == s.directories[d].Keys - names
      invariant Refilling(s, d, read, before, heap.graph, kids)
      decreases |names|
    {
      var n :| n in names;
      names := names - {n};
      var child := s.directories[d][n];
      ghost var g := heap.graph;
      RefilledIsDirectory(s, d, read, before, g, kids);
      if d == s.root && n == SYSROOT {
        SysrootRefilled(s, d, read, before, g, kids, n);
      } else if child in s.files {
        heap.graph := heap.graph[child := s.files[child]];
        FileIsNotDirectory(s, d, child);
        FileRefilled(s, d, read, before, g, kids, n, Refill(heap.graph, d, n, child));
      } else {
        SubdirectoryRefilled(s, d, read, before, g, kids, n, Refill(g, d, n, child));
        kids := kids + [child];
      }
      heap.graph := heap.graph[d := DirectoryInode(heap.graph[d].contents[n := child])];
      read := read + {n};
    }
    assert read == s.directories[d].Keys;
  }

  lemma NothingRefilled(s: Saved, d: Id, before: Graph, g: Graph)
    requires SameKinds(before, s) && d in s.directories && g == before[d := DirectoryInode(map[])]
    requires Closed(s)
    ensures Refilling(s, d, {}, before, g, [])
  {
  }

  lemma RefilledIsDirectory(s: Saved, d: Id, read: set<string>, before: Graph, g: Graph, kids: seq<Id>)
    requires Refilling(s, d, read, before, g, kids)
    ensures d in s.directories && IsDirectoryInode(g, d)
  {
  }

  lemma FileIsNotDirectory(s: Saved, d: Id, f: Id)
    requires Closed(s) && d in s.directories && f in s.files
    ensures d != f
  {
  }

  /** Every path outside the system root leads where it led when saved, to an object that holds what it held. */
  ghost predicate RestoredPaths(g: Graph, s: Saved) {
    forall p | OutsideSysroot(p) ::
      && Resolve(g, s.root, p) == Resolve(SavedGraph(s), s.root, p)
      && (Resolve(g, s.root, p).Some? ==>
            var c := Resolve(g, s.root, p).value; c in g && c in SavedGraph(s) && g[c] == SavedGraph(s)[c])
  }

  lemma {:induction false} RestoredPathLeadsBack(g: Graph, s: Saved, done: set<Id>, path: Names)
    requires Closed(s) && Restored(g, s, done) && Frontier(s, done, []) && OutsideSysroot(path)
    ensures Resolve(g, s.root, path) == Resolve(SavedGraph(s), s.root, path)
    ensures Resolve(g, s.root, path).Some? ==>
              var c := Resolve(g, s.root, path).value;
              c in g && c in SavedGraph(s) && g[c] == SavedGraph(s)[c] && (c in s.directories ==> c in done)
    ensures path != [] ==> Resolve(g, s.root, path) != Some(s.root)
  {
    if path != [] {
      RestoredPathLeadsBack(g, s, done, Init(path));
      if Resolve(g, s.root, Init(path)).Some? {
        var d, n := Resolve(g, s.root, Init(path)).value, Last(path);
        if HasEntry(g, d, n) {
          assert Init(path) == [] ==> n == path[0];
          assert Entry(s, d, n) && Named(s, d, n) == Child(g, d, n);
        }
      }
    }
  }

  lemma RestoredEverywhere(g: Graph, s: Saved, done: set<Id>)
    requires Closed(s) && Restored(g, s, done) && Frontier(s, done, [])
    ensures RestoredPaths(g, s)
  {
    forall p | OutsideSysroot(p)
      ensures Resolve(g, s.root, p) == Resolve(SavedGraph(s), s.root, p)
      ensures Resolve(g, s.root, p).Some? ==>
        var c := Resolve(g, s.root, p).value; c in g && c in SavedGraph(s) && g[c] == SavedGraph(s)[c]
    {
      RestoredPathLeadsBack(g, s, done, p);
    }
  }

  lemma MoreRestored(s: Saved, done: set<Id>, before: Graph, g: Graph, d: Id, kids: seq<Id>)
    requires Closed(s) && Restored(before, s, done) && d in s.directories && d !in done
    requires Refilling(s, d, s.directories[d].Keys, before, g, kids)
    ensures Restored(g, s, done + {d})
    ensures forall id | id in before && id !in s.directories && id !in s.files :: id in g && g[id] == before[id]
  {
    assert (map n | n in s.directories[d].Keys :: s.directories[d][n]) == s.directories[d];
  }

  method RestoreFilesystem(heap: InodeHeap, s: Saved)
    requires Closed(s) && SameKinds(heap.graph, s)
    modifies heap
    ensures RestoredPaths(heap.graph, s)
    ensures s.root in heap.graph && heap.graph[s.root] == DirectoryInode(s.directories[s.root])
    ensures forall id | id in old(heap.graph) && id !in s.directories && id !in s.files ::
              id in heap.graph && heap.graph[id] == old(heap.graph)[id]
  {
    hide RestoredPaths, Closed, SameKinds, Restored, Frontier, Refilling, Subdirectories;
    ghost var before := heap.graph;
    var pending := [s.root];
    ghost var done := {};
    NothingRestoredYet(heap.graph, s);
    while pending != []
      invariant SameKinds(heap.graph, s) && Restored(heap.graph, s, done) && Frontier(s, done, pending)
      invariant done <= s.directories.Keys
      invariant forall id | id in before && id !in s.directories && id !in s.files ::
                  id in heap.graph && heap.graph[id] == before[id]
      decreases s.directories.Keys - done
    {
      var d := pending[|pending| - 1];
      assert pending == pending[..|pending| - 1] + [d];
      pending := pending[..|pending| - 1];
      FrontierHead(s, done, pending, d);
      ghost var g := heap.graph;
      var kids := RestoreDirectory(heap, s, d);
      RefilledDirectory(s, d, g, heap.graph, kids);
      FrontierAdvances(s, done, pending, d, kids);
      MoreRestored(s, done, g, heap.graph, d, kids);
      pending := pending + kids;
      done := done + {d};
    }
    RestoredEverywhere(heap.graph, s, done);
    RootRestored(heap.graph, s, done);
  }

  lemma NothingRestoredYet(g: Graph, s: Saved)
    requires Closed(s)
    ensures s.root in s.directories && Restored(g, s, {}) && Frontier(s, {}, [s.root])
  {
  }

  lemma FrontierHead(s: Saved, done: set<Id>, pending: seq<Id>, d: Id)
    requires Frontier(s, done, pending + [d])
    ensures d in s.directories && d !in done
  {
    assert d in pending + [d];
  }

  lemma RefilledDirectory(s: Saved, d: Id, before: Graph, g: Graph, kids: seq<Id>)
    requires d in s.directories && Refilling(s, d, s.directories[d].Keys, before, g, kids)
    ensures SameKinds(g, s) && Subdirectories(s, d, s.directories[d].Keys, kids)
  {
  }

  lemma RootRestored(g: Graph, s: Saved, done: set<Id>)
    requires Restored(g, s, done) && Frontier(s, done, [])
    ensures s.root in s.directories && s.root in g && g[s.root] == DirectoryInode(s.directories[s.root])
  {
  }

  // ---------- a child that had to be undone ----------

  /** A child process and everything else may do anything to the objects, but an object stays a file or a directory. */
  method Scribble(heap: InodeHeap, s: Saved)
    requires SameKinds(heap.graph, s)
    modifies heap
    ensures SameKinds(heap.graph, s)
  {
    var scribbled: Graph := *;
    if SameKinds(scribbled, s) {
      heap.graph := scribbled;
    }
  }

  /** Snapshot, arbitrary changes, restore: outside the system root nothing has happened. */
  method RunUndone(heap: InodeHeap, root: Id) returns (result: SnapshotResult)
    requires NamesExist(heap.graph) && IsDirectoryInode(heap.graph, root)
    modifies heap
    ensures result.Accepted? ==> forall p | OutsideSysroot(p) ::
      && Resolve(heap.graph, root, p) == Resolve(old(heap.graph), root, p)
      && (Resolve(heap.graph, root, p).Some? ==>
            var c := Resolve(heap.graph, root, p).value;
            c in heap.graph && c in old(heap.graph) && heap.graph[c] == old(heap.graph)[c])
    ensures !result.Accepted? ==> heap.graph == old(heap.graph)
  {
    result := SnapshotFilesystem(heap.graph, root);
    if result.Accepted? {
      ghost var before := heap.graph;
      Scribble(heap, result.saved);
      RestoreFilesystem(heap, result.saved);
      forall p | OutsideSysroot(p)
        ensures Resolve(before, root, p) == Resolve(SavedGraph(result.saved), root, p)
        ensures Resolve(before, root, p).Some? ==>
          var c := Resolve(before, root, p).value;
          c in before && c in SavedGraph(result.saved) && before[c] == SavedGraph(result.saved)[c]
      {
        MatchingGraphResolves(before, result.saved, p);
      }
    }
  }
}
