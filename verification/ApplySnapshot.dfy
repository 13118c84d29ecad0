/** Turning a tree into a desired one with primitives: deep removals, shallow directories, then files. */
module ApplySnapshot {
  import opened Basics
  import opened Paths
  import opened Snapshots
  import opened FileSystems

  // ---------- the plan ----------

  predicate PreservesExcludedState(p: Path, current: Snapshot, desired: Snapshot) {
    p in current.excludedAncestors || p in desired.excludedAncestors
  }

  /** Files wanted where a directory leads to excluded state. */
  function BlockedReplacements(current: Snapshot, desired: Snapshot): set<Path> {
    set p | IsFile(desired.entries, p) && p in desired.entries && Get(current.entries, p) != Get(desired.entries, p)
            && PreservesExcludedState(p, current, desired)
  }

  function Removals(current: Snapshot, desired: Snapshot): set<Path> {
    set p | p in current.entries
            && (IsFile(current.entries, p) || !PreservesExcludedState(p, current, desired))
            && (p !in desired.entries || IsDirectory(desired.entries, p) != IsDirectory(current.entries, p))
  }

  function NewDirectories(current: Snapshot, desired: Snapshot): set<Path> {
    set p | p in desired.entries && IsDirectory(desired.entries, p) && !IsDirectory(current.entries, p)
  }

  function ChangedFiles(current: Snapshot, desired: Snapshot): set<Path> {
    set p | p in desired.entries && IsFile(desired.entries, p)
            && Get(current.entries, p) != Get(desired.entries, p) && !PreservesExcludedState(p, current, desired)
  }

  /** The desired entry, or the directory that must stay because excluded state hangs below it. */
  function Goal(current: Snapshot, desired: Snapshot, p: Path): Option<Entry> {
    if p in desired.entries then Some(desired.entries[p])
    else if IsDirectory(current.entries, p) && PreservesExcludedState(p, current, desired) then Some(Directory)
    else None
  }

  ghost predicate Plannable(t: Tree, current: Snapshot, desired: Snapshot) {
    && WellFormed(t) && current == SnapshotOf(t, current.runtimeExclusions)
    && WellFormedSnapshot(desired) && desired.runtimeExclusions == current.runtimeExclusions
  }

  /** The directory to remove has only members that are removed as well. */
  lemma RemovalTakesVisibleSubtree(current: Snapshot, desired: Snapshot, p: Path, q: Path)
    requires WellFormed(desired.entries)
    requires forall a, b | PreservesExcludedState(b, current, desired) && StrictlyAbove(a, b) ::
      PreservesExcludedState(a, current, desired)
    requires p in Removals(current, desired) && IsDirectory(current.entries, p)
    requires q in current.entries && StrictlyAbove(p, q)
    ensures q in Removals(current, desired)
  {
    assert q in desired.entries ==> IsDirectory(desired.entries, p);
  }

  // ---------- legality of each step, in a tree only this run edits ----------

  /** The tree after some removals, then some new directories, then some files. */
  function Planned(
    t: Tree, desired: Snapshot, removed: set<Path>, made: set<Path>, written: set<Path>, q: Path): Option<Entry>
  {
    if q in made || q in written then Get(desired.entries, q) else if q in removed then None else Get(t, q)
  }

  ghost predicate IsPlanned(
    t: Tree, desired: Snapshot, removed: set<Path>, made: set<Path>, written: set<Path>, u: Tree)
  {
    forall q :: Get(u, q) == Planned(t, desired, removed, made, written, q)
  }

  lemma RemovalIsLegal(t: Tree, current: Snapshot, desired: Snapshot, done: set<Path>, u: Tree, p: Path)
    requires Plannable(t, current, desired) && IsPlanned(t, desired, done, {}, {}, u)
    requires p in Removals(current, desired) && p !in done
    requires forall q | q in Removals(current, desired) && |q| > |p| :: q in done
    ensures Legal(u, if IsDirectory(current.entries, p) then RemoveDirectory(p) else RemoveRegular(p))
  {
    WalksGiveWellFormedSnapshots(t, current.runtimeExclusions);
    assert Get(u, p) == Get(t, p);
    if IsDirectory(current.entries, p) {
      forall q | q in u ensures !(p < q) {
        assert Get(u, q) == Planned(t, desired, done, {}, {}, q);
        if p < q {
          assert StrictlyAbove(p, q);
          if q in current.entries {
            RemovalTakesVisibleSubtree(current, desired, p, q);
          } else {
            HiddenStateHasRecordedAncestors(t, current.runtimeExclusions, p, q);
          }
          assert false;
        }
      }
    }
  }

  lemma NewDirectoryIsLegal(t: Tree, current: Snapshot, desired: Snapshot, done: set<Path>, u: Tree, p: Path)
    requires Plannable(t, current, desired)
    requires IsPlanned(t, desired, Removals(current, desired), done, {}, u)
    requires p in NewDirectories(current, desired) && p !in done
    requires forall q | q in NewDirectories(current, desired) && |q| < |p| :: q in done
    ensures Legal(u, MakeDirectory(p))
  {
    assert Get(u, p) == Planned(t, desired, Removals(current, desired), done, {}, p);
    ParentPlanned(t, current, desired, done, {}, u, p);
  }

  lemma ParentPlanned(
    t: Tree, current: Snapshot, desired: Snapshot, made: set<Path>, written: set<Path>, u: Tree, p: Path)
    requires Plannable(t, current, desired)
    requires IsPlanned(t, desired, Removals(current, desired), made, written, u)
    requires p in desired.entries
    requires forall q | q in NewDirectories(current, desired) && |q| < |p| :: q in made
    ensures p != [] && ParentIsDirectory(u, p)
  {
    if |p| > 1 {
      var parent := p[..|p| - 1];
      assert StrictlyAbove(parent, p);
      assert Get(u, parent) == Planned(t, desired, Removals(current, desired), made, written, parent);
    }
  }

  lemma FileWriteIsLegal(t: Tree, current: Snapshot, desired: Snapshot, done: set<Path>, u: Tree, p: Path)
    requires Plannable(t, current, desired)
    requires IsPlanned(t, desired, Removals(current, desired), NewDirectories(current, desired), done, u)
    requires p in ChangedFiles(current, desired) && p !in done
    ensures IsFile(current.entries, p) ==> IsFile(u, p)
    ensures !IsFile(current.entries, p) ==> Legal(u, CreateRegular(p, desired.entries[p].bytes))
  {
    assert Get(u, p) == Planned(t, desired, Removals(current, desired), NewDirectories(current, desired), done, p);
    ParentPlanned(t, current, desired, NewDirectories(current, desired), done, u, p);
  }

  lemma RemovalPlanned(t: Tree, desired: Snapshot, removed: set<Path>, u: Tree, p: Path)
    requires IsPlanned(t, desired, removed, {}, {}, u)
    ensures IsPlanned(t, desired, removed + {p}, {}, {}, u - {p})
  {
    forall q ensures Get(u - {p}, q) == Planned(t, desired, removed + {p}, {}, {}, q) {
      assert Get(u, q) == Planned(t, desired, removed, {}, {}, q);
    }
  }

  lemma DirectoryPlanned(t: Tree, desired: Snapshot, removed: set<Path>, made: set<Path>, u: Tree, p: Path)
    requires IsPlanned(t, desired, removed, made, {}, u) && IsDirectory(desired.entries, p)
    ensures IsPlanned(t, desired, removed, made + {p}, {}, u[p := Directory])
  {
    forall q ensures Get(u[p := Directory], q) == Planned(t, desired, removed, made + {p}, {}, q) {
      assert Get(u, q) == Planned(t, desired, removed, made, {}, q);
    }
  }

  lemma FilePlanned(
    t: Tree, desired: Snapshot, removed: set<Path>, made: set<Path>, written: set<Path>, u: Tree, p: Path)
    requires IsPlanned(t, desired, removed, made, written, u) && IsFile(desired.entries, p)
    ensures IsPlanned(t, desired, removed, made, written + {p}, u[p := desired.entries[p]])
  {
    forall q ensures Get(u[p := desired.entries[p]], q) == Planned(t, desired, removed, made, written + {p}, q) {
      assert Get(u, q) == Planned(t, desired, removed, made, written, q);
    }
  }

  /** Excluded state as it was, everything else as wanted. */
  ghost predicate ReachesGoal(t: Tree, current: Snapshot, desired: Snapshot, u: Tree) {
    forall q :: Get(u, q) ==
      (if ShouldExclude(q, current.runtimeExclusions) then Get(t, q) else Goal(current, desired, q))
  }

  lemma PlanReachesGoal(t: Tree, current: Snapshot, desired: Snapshot, u: Tree)
    requires Plannable(t, current, desired) && BlockedReplacements(current, desired) == {}
    requires IsPlanned(
      t, desired, Removals(current, desired), NewDirectories(current, desired), ChangedFiles(current, desired), u)
    ensures ReachesGoal(t, current, desired, u)
  {
    forall q ensures Get(u, q) ==
      (if ShouldExclude(q, current.runtimeExclusions) then Get(t, q) else Goal(current, desired, q))
    {
      assert q !in BlockedReplacements(current, desired);
      assert Get(u, q) == Planned(
        t, desired, Removals(current, desired), NewDirectories(current, desired), ChangedFiles(current, desired), q);
    }
  }

  /** With desired itself a walk's snapshot, the only directories kept in addition lead to excluded state. */
  lemma GoalKeepsOnlyWhatHidesExcludedState(t: Tree, current: Snapshot, desired: Snapshot, q: Path)
    requires Plannable(t, current, desired) && RecordsItsDirectories(desired)
    ensures Goal(current, desired, q) ==
      (if q in desired.entries then Some(desired.entries[q])
       else if IsDirectory(t, q) && !ShouldExclude(q, current.runtimeExclusions)
               && HidesBelow(t, q, current.runtimeExclusions) then Some(Directory)
       else None)
  {
  }

  // ---------- the run ----------

  datatype Outcome = Applied | ExcludedStateConflict(path: Path)

  method RemoveStale(fs: FileSystem, current: Snapshot, desired: Snapshot)
    requires fs.Valid() && Plannable(fs.tree, current, desired)
    modifies fs
    ensures fs.Valid() && IsPlanned(old(fs.tree), desired, Removals(current, desired), {}, {}, fs.tree)
  {
    ghost var t := fs.tree;
    var removals := InOrder(Removals(current, desired), DeepFirst);
    for i := 0 to |removals|
      invariant fs.Valid()
      invariant IsPlanned(t, desired, Members(removals[..i]), {}, {}, fs.tree)
    {
      var path := removals[i];
      NextIsNew(removals, Removals(current, desired), DeepFirst, i);
      DeeperAreDone(removals, Removals(current, desired), i);
      RemovalIsLegal(t, current, desired, Members(removals[..i]), fs.tree, path);
      RemovalPlanned(t, desired, Members(removals[..i]), fs.tree, path);
      if current.entries[path].Directory? {
        fs.RemoveDir(path);
      } else {
        fs.RemoveFile(path);
      }
    }
    assert removals[..|removals|] == removals;
    assert Members(removals) == Removals(current, desired);
  }

  lemma DeeperAreDone(r: seq<Path>, paths: set<Path>, n: nat)
    requires Lists(r, paths, DeepFirst) && n < |r|
    ensures forall q | q in paths && |q| > |r[n]| :: q in r[..n]
  {
    forall q | q in paths && |q| > |r[n]| ensures q in r[..n] {
      assert q in r;
      var j :| 0 <= j < |r| && r[j] == q;
      assert n < j ==> Before(DeepFirst, r[n], r[j]);
      assert r[j] in r[..n];
    }
  }

  lemma ShallowerAreDone(r: seq<Path>, paths: set<Path>, n: nat)
    requires Lists(r, paths, ShallowFirst) && n < |r|
    ensures forall q | q in paths && |q| < |r[n]| :: q in r[..n]
  {
    forall q | q in paths && |q| < |r[n]| ensures q in r[..n] {
      assert q in r;
      var j :| 0 <= j < |r| && r[j] == q;
      assert n < j ==> Before(ShallowFirst, r[n], r[j]);
      assert r[j] in r[..n];
    }
  }

  method CreateDirectories(fs: FileSystem, ghost t: Tree, current: Snapshot, desired: Snapshot)
    requires fs.Valid() && Plannable(t, current, desired)
    requires IsPlanned(t, desired, Removals(current, desired), {}, {}, fs.tree)
    modifies fs
    ensures fs.Valid()
    ensures IsPlanned(t, desired, Removals(current, desired), NewDirectories(current, desired), {}, fs.tree)
  {
    var directories := InOrder(NewDirectories(current, desired), ShallowFirst);
    for i := 0 to |directories|
      invariant fs.Valid()
      invariant IsPlanned(t, desired, Removals(current, desired), Members(directories[..i]), {}, fs.tree)
    {
      var path := directories[i];
      NextIsNew(directories, NewDirectories(current, desired), ShallowFirst, i);
      ShallowerAreDone(directories, NewDirectories(current, desired), i);
      NewDirectoryIsLegal(t, current, desired, Members(directories[..i]), fs.tree, path);
      DirectoryPlanned(t, desired, Removals(current, desired), Members(directories[..i]), fs.tree, path);
      fs.AddDir(path);
    }
    assert directories[..|directories|] == directories;
    assert Members(directories) == NewDirectories(current, desired);
  }

  /** Refuses before touching anything, or reaches the goal with every excluded entry as it was. */
  method ApplyVfsSnapshot(fs: FileSystem, current: Snapshot, desired: Snapshot) returns (outcome: Outcome)
    requires fs.Valid() && Plannable(fs.tree, current, desired)
    modifies fs
    ensures fs.Valid()
    ensures outcome.Applied? <==> BlockedReplacements(current, desired) == {}
    ensures outcome.ExcludedStateConflict? ==>
      IsFirst(Lexicographic, outcome.path, BlockedReplacements(current, desired)) && fs.tree == old(fs.tree)
    ensures outcome.Applied? ==> ReachesGoal(old(fs.tree), current, desired, fs.tree)
  {
    hide IsPlanned, ReachesGoal, Plannable, SnapshotOf;
    ghost var t := fs.tree;
    var blocked := InOrder(BlockedReplacements(current, desired), Lexicographic);
    if blocked != [] {
      NextIsNew(blocked, BlockedReplacements(current, desired), Lexicographic, 0);
      assert forall q | q in blocked && q != blocked[0] :: Before(Lexicographic, blocked[0], q);
      return ExcludedStateConflict(blocked[0]);
    }
    assert BlockedReplacements(current, desired) == Members(blocked);
    RemoveStale(fs, current, desired);
    CreateDirectories(fs, t, current, desired);
    var paths := InOrder(desired.entries.Keys, Lexicographic);
    ghost var written := {};
    for i := 0 to |paths|
      invariant fs.Valid()
      invariant written == Members(paths[..i]) * ChangedFiles(current, desired)
      invariant IsPlanned(t, desired, Removals(current, desired), NewDirectories(current, desired), written, fs.tree)
    {
      var path := paths[i];
      NextIsNew(paths, desired.entries.Keys, Lexicographic, i);
      if desired.entries[path].Directory? || Get(current.entries, path) == Get(desired.entries, path)
         || PreservesExcludedState(path, current, desired) {
        continue;
      }
      FileWriteIsLegal(t, current, desired, written, fs.tree, path);
      FilePlanned(t, desired, Removals(current, desired), NewDirectories(current, desired), written, fs.tree, path);
      written := written + {path};
      if IsFile(current.entries, path) {
        fs.WriteFile(path, desired.entries[path].bytes);
      } else {
        fs.AddFile(path, desired.entries[path].bytes);
      }
    }
    assert paths[..|paths|] == paths;
    assert written == ChangedFiles(current, desired);
    PlanReachesGoal(t, current, desired, fs.tree);
    outcome := Applied;
  }

  /** The same on the host, whose writes create or truncate. */
  method ApplyHostSnapshot(fs: FileSystem, current: Snapshot, desired: Snapshot) returns (outcome: Outcome)
    requires fs.Valid() && Plannable(fs.tree, current, desired)
    modifies fs
    ensures fs.Valid()
    ensures outcome.Applied? <==> BlockedReplacements(current, desired) == {}
    ensures outcome.ExcludedStateConflict? ==>
      IsFirst(Lexicographic, outcome.path, BlockedReplacements(current, desired)) && fs.tree == old(fs.tree)
    ensures outcome.Applied? ==> ReachesGoal(old(fs.tree), current, desired, fs.tree)
  {
    hide IsPlanned, ReachesGoal, Plannable, SnapshotOf;
    ghost var t := fs.tree;
    var blocked := InOrder(BlockedReplacements(current, desired), Lexicographic);
    if blocked != [] {
      NextIsNew(blocked, BlockedReplacements(current, desired), Lexicographic, 0);
      assert forall q | q in blocked && q != blocked[0] :: Before(Lexicographic, blocked[0], q);
      return ExcludedStateConflict(blocked[0]);
    }
    assert BlockedReplacements(current, desired) == Members(blocked);
    RemoveStale(fs, current, desired);
    CreateDirectories(fs, t, current, desired);
    var paths := InOrder(desired.entries.Keys, Lexicographic);
    ghost var written := {};
    for i := 0 to |paths|
      invariant fs.Valid()
      invariant written == Members(paths[..i]) * ChangedFiles(current, desired)
      invariant IsPlanned(t, desired, Removals(current, desired), NewDirectories(current, desired), written, fs.tree)
    {
      var path := paths[i];
      NextIsNew(paths, desired.entries.Keys, Lexicographic, i);
      if desired.entries[path].File? && Get(current.entries, path) != Get(desired.entries, path)
         && !PreservesExcludedState(path, current, desired) {
        FileWriteIsLegal(t, current, desired, written, fs.tree, path);
        FilePlanned(t, desired, Removals(current, desired), NewDirectories(current, desired), written, fs.tree, path);
        written := written + {path};
        fs.Write(path, desired.entries[path].bytes);
      }
    }
    assert paths[..|paths|] == paths;
    assert written == ChangedFiles(current, desired);
    PlanReachesGoal(t, current, desired, fs.tree);
    outcome := Applied;
  }
}
