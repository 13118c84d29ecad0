/** The walks that turn a live tree, or the branch around one path, into a snapshot. */
module Walkers {
  import opened Basics
  import opened Paths
  import opened Snapshots

  function Children(t: Tree, dir: Path): set<Path> {
    set q | q in t && dir < q && |q| == |dir| + 1
  }

  function StrictlyBelow(t: Tree, dir: Path): set<Path> {
    set q | q in t && dir < q
  }

  /** The directories recorded because excluded state lies below dir. */
  ghost function AncestorsOfHidden(t: Tree, dir: Path, runtimeExclusions: seq<Path>): set<Path> {
    set e, n | e in t && dir < e && ShouldExclude(e, runtimeExclusions)
               && 0 < n < |e| && !ShouldExclude(e[..n], runtimeExclusions) :: e[..n]
  }

  lemma MemberOfAncestorsOfHidden(t: Tree, dir: Path, runtimeExclusions: seq<Path>, a: Path)
    ensures a in AncestorsOfHidden(t, dir, runtimeExclusions) <==>
            a != [] && !ShouldExclude(a, runtimeExclusions)
            && exists e | e in t :: dir < e && a < e && ShouldExclude(e, runtimeExclusions)
  {
    if a != [] && !ShouldExclude(a, runtimeExclusions) {
      forall e | e in t && dir < e && a < e && ShouldExclude(e, runtimeExclusions)
        ensures a in AncestorsOfHidden(t, dir, runtimeExclusions)
      {
        assert a == e[..|a|];
      }
    }
    if a in AncestorsOfHidden(t, dir, runtimeExclusions) {
      var e, n :| e in t && dir < e && ShouldExclude(e, runtimeExclusions)
        && 0 < n < |e| && !ShouldExclude(e[..n], runtimeExclusions) && a == e[..n];
      assert a < e;
    }
  }

  /** The proper ancestors of an excluded path, walking up. */
  method RecordExcludedAncestors(ancestors: set<Path>, excluded: Path) returns (r: set<Path>)
    ensures forall a :: a in r <==> a in ancestors || StrictlyAbove(a, excluded)
  {
    r := ancestors;
    if excluded == [] { return; }
    var ancestor := excluded[..|excluded| - 1];
    while ancestor != []
      invariant ancestor < excluded
      invariant forall a :: a in r <==> a in ancestors || (StrictlyAbove(a, excluded) && !(a <= ancestor))
    {
      var parent := ancestor[..|ancestor| - 1];
      forall a ensures StrictlyAbove(a, excluded) && !(a <= parent) <==>
                       a == ancestor || (StrictlyAbove(a, excluded) && !(a <= ancestor)) {
        if a <= ancestor && a != ancestor { assert a <= parent; }
      }
      r := r + {ancestor};
      ancestor := parent;
    }
  }

  lemma ChildAbove(t: Tree, dir: Path, q: Path)
    requires WellFormed(t) && q in t && dir < q
    ensures q[..|dir| + 1] in Children(t, dir) && q[..|dir| + 1] <= q
  {
    if q[..|dir| + 1] != q {
      assert StrictlyAbove(q[..|dir| + 1], q);
    }
  }

  /** Settled part of a walk over dir whose children in done have been visited. */
  ghost predicate Walked(t: Tree, dir: Path, done: set<Path>, before: Snapshot, s: Snapshot) {
    && s.runtimeExclusions == before.runtimeExclusions
    && (forall q :: Get(s.entries, q) ==
          if q in t && dir < q && q[..|dir| + 1] in done && !ShouldExclude(q, s.runtimeExclusions)
          then Some(t[q]) else Get(before.entries, q))
    && (forall a :: a in s.excludedAncestors <==>
          a in before.excludedAncestors
          || (a != [] && !ShouldExclude(a, s.runtimeExclusions)
              && exists e | e in t ::
                dir < e && e[..|dir| + 1] in done && a < e && ShouldExclude(e, s.runtimeExclusions)))
  }

  lemma VisitedExcludedChild(
    t: Tree, dir: Path, done: set<Path>, child: Path, before: Snapshot, s: Snapshot, next: Snapshot)
    requires Walked(t, dir, done, before, s)
    requires child in Children(t, dir) && child !in done && ShouldExclude(child, s.runtimeExclusions)
    requires forall n | 0 < n <= |dir| :: !ShouldExclude(dir[..n], s.runtimeExclusions)
    requires next.entries == s.entries && next.runtimeExclusions == s.runtimeExclusions
    requires forall a :: a in next.excludedAncestors <==> a in s.excludedAncestors || StrictlyAbove(a, child)
    ensures Walked(t, dir, done + {child}, before, next)
  {
    var rt := s.runtimeExclusions;
    forall q | q in t && dir < q && q[..|dir| + 1] == child ensures ShouldExclude(q, rt) && child <= q {
      ExclusionCoversSubtree(child, q, rt);
    }
    forall a: Path | a != [] && a < child ensures !ShouldExclude(a, rt) {
      assert a == dir[..|a|];
    }
    forall a: Path, e | e in t && dir < e && e[..|dir| + 1] == child && a < e && a != [] && !ShouldExclude(a, rt)
      ensures a < child
    {
      if child <= a { ExclusionCoversSubtree(child, a, rt); }
      assert a == e[..|a|];
    }
    assert child[..|dir| + 1] == child;
  }

  lemma VisitedFile(t: Tree, dir: Path, done: set<Path>, child: Path, before: Snapshot, s: Snapshot)
    requires WellFormed(t) && Walked(t, dir, done, before, s)
    requires child in Children(t, dir) && child !in done && t[child].File?
    requires !ShouldExclude(child, s.runtimeExclusions)
    ensures Walked(t, dir, done + {child}, before, s.(entries := s.entries[child := t[child]]))
  {
    forall q | q in t && dir < q && q[..|dir| + 1] == child ensures q == child {
      assert !StrictlyAbove(child, q);
    }
    assert child[..|dir| + 1] == child;
  }

  lemma VisitedDirectory(
    t: Tree, dir: Path, done: set<Path>, child: Path, before: Snapshot, s: Snapshot, entered: Snapshot, next: Snapshot)
    requires WellFormed(t) && Walked(t, dir, done, before, s)
    requires child in Children(t, dir) && child !in done && t[child].Directory?
    requires !ShouldExclude(child, s.runtimeExclusions)
    requires entered == s.(entries := s.entries[child := Directory])
    requires Walked(t, child, Children(t, child), entered, next)
    ensures Walked(t, dir, done + {child}, before, next)
  {
    var rt := s.runtimeExclusions;
    assert child[..|dir| + 1] == child;
    forall q | q in t && dir < q && q[..|dir| + 1] == child && q != child
      ensures child < q && q[..|child| + 1] in Children(t, child)
    {
      ChildAbove(t, child, q);
    }
    forall q | q in t && child < q ensures dir < q && q[..|dir| + 1] == child {}
    forall q ensures Get(next.entries, q) ==
          if q in t && dir < q && q[..|dir| + 1] in done + {child} && !ShouldExclude(q, rt)
          then Some(t[q]) else Get(before.entries, q) {
      if q in t && child < q { assert dir < q && q[..|dir| + 1] == child; }
    }
    forall a: Path | a != [] && !ShouldExclude(a, rt)
      ensures (exists e | e in t ::
        child < e && e[..|child| + 1] in Children(t, child) && a < e && ShouldExclude(e, rt))
        <==> (exists e | e in t :: dir < e && e[..|dir| + 1] == child && a < e && ShouldExclude(e, rt))
    {
      if e :| e in t && child < e && e[..|child| + 1] in Children(t, child) && a < e && ShouldExclude(e, rt) {
        assert dir < e && e[..|dir| + 1] == child;
      }
      if e :| e in t && dir < e && e[..|dir| + 1] == child && a < e && ShouldExclude(e, rt) {
        assert child < e && e[..|child| + 1] in Children(t, child);
      }
    }
  }

  /** Adds everything visible below dir to the snapshot, in name order, and notes where excluded state hangs. */
  method SnapshotVfsDir(t: Tree, dir: Path, snapshot: Snapshot) returns (s: Snapshot)
    requires WellFormed(t) && (dir == [] || IsDirectory(t, dir))
    requires forall n | 0 < n <= |dir| :: !ShouldExclude(dir[..n], snapshot.runtimeExclusions)
    ensures Walked(t, dir, Children(t, dir), snapshot, s)
    decreases |StrictlyBelow(t, dir)|
  {
    s := snapshot;
    var names := InOrder(Children(t, dir), Lexicographic);
    ghost var done := {};
    for i := 0 to |names|
      invariant done == Members(names[..i])
      invariant Walked(t, dir, done, snapshot, s)
    {
      var child := names[i];
      NextIsNew(names, Children(t, dir), Lexicographic, i);
      if ShouldExclude(child, s.runtimeExclusions) {
        var recorded := RecordExcludedAncestors(s.excludedAncestors, child);
        VisitedExcludedChild(t, dir, done, child, snapshot, s, s.(excludedAncestors := recorded));
        s := s.(excludedAncestors := recorded);
      } else if t[child].Directory? {
        var entered := s.(entries := s.entries[child := Directory]);
        assert StrictlyBelow(t, child) < StrictlyBelow(t, dir) by {
          assert child in StrictlyBelow(t, dir) && child !in StrictlyBelow(t, child);
        }
        ProperSubsetIsSmaller(StrictlyBelow(t, child), StrictlyBelow(t, dir));
        assert forall n | 0 < n <= |child| :: child[..n] == if n <= |dir| then dir[..n] else child;
        var next := SnapshotVfsDir(t, child, entered);
        VisitedDirectory(t, dir, done, child, snapshot, s, entered, next);
        s := next;
      } else {
        VisitedFile(t, dir, done, child, snapshot, s);
        s := s.(entries := s.entries[child := t[child]]);
      }
      done := done + {child};
    }
    assert names[..|names|] == names;
    assert done == Children(t, dir);
  }

  lemma {:induction false} ProperSubsetIsSmaller(x: set<Path>, y: set<Path>)
    requires x < y
    ensures |x| < |y|
  {
    var d :| d in y && d !in x;
    SubsetIsNotLarger(x, y - {d});
  }

  lemma {:induction false} SubsetIsNotLarger(x: set<Path>, y: set<Path>)
    requires x <= y
    ensures |x| <= |y|
  {
    if x != {} {
      var e :| e in x;
      SubsetIsNotLarger(x - {e}, y - {e});
    }
  }

  /** The walk from the root records exactly what SnapshotOf describes. */
  method SnapshotVfs(t: Tree, runtimeExclusions: seq<Path>) returns (s: Snapshot)
    requires WellFormed(t)
    ensures s == SnapshotOf(t, runtimeExclusions)
  {
    hide Walked;
    s := SnapshotVfsDir(t, [], Snapshot(map[], runtimeExclusions, {}));
    WalkFromRootRecordsEntries(t, runtimeExclusions, s);
    WalkFromRootRecordsAncestors(t, runtimeExclusions, s);
  }

  lemma WalkFromRootRecordsEntries(t: Tree, runtimeExclusions: seq<Path>, s: Snapshot)
    requires WellFormed(t) && Walked(t, [], Children(t, []), Snapshot(map[], runtimeExclusions, {}), s)
    ensures s.runtimeExclusions == runtimeExclusions && s.entries == SnapshotOf(t, runtimeExclusions).entries
  {
    hide ShouldExclude, HidesBelow, Children;
    var whole := SnapshotOf(t, runtimeExclusions);
    forall q ensures Get(s.entries, q) == Get(whole.entries, q) {
      if q in t {
        RootIsNoEntry(t, q);
        ChildAbove(t, [], q);
      }
    }
    SameEverywhere(s.entries, whole.entries);
  }

  lemma RootIsNoEntry(t: Tree, q: Path)
    requires WellFormed(t) && q in t
    ensures [] < q
  {
    assert ValidPath(q);
  }

  lemma WalkFromRootRecordsAncestors(t: Tree, runtimeExclusions: seq<Path>, s: Snapshot)
    requires WellFormed(t) && Walked(t, [], Children(t, []), Snapshot(map[], runtimeExclusions, {}), s)
    ensures s.excludedAncestors == SnapshotOf(t, runtimeExclusions).excludedAncestors
  {
    forall a ensures a in s.excludedAncestors <==> a in SnapshotOf(t, runtimeExclusions).excludedAncestors {
      if a in s.excludedAncestors { RecordedHides(t, runtimeExclusions, s, a); }
      if a in SnapshotOf(t, runtimeExclusions).excludedAncestors { HidingIsRecorded(t, runtimeExclusions, s, a); }
    }
  }

  lemma RecordedHides(t: Tree, runtimeExclusions: seq<Path>, s: Snapshot, a: Path)
    requires WellFormed(t) && Walked(t, [], Children(t, []), Snapshot(map[], runtimeExclusions, {}), s)
    requires a in s.excludedAncestors
    ensures a in SnapshotOf(t, runtimeExclusions).excludedAncestors
  {
    hide ShouldExclude, Children;
    var e :| e in t && a < e && ShouldExclude(e, runtimeExclusions);
    assert StrictlyAbove(a, e);
  }

  lemma HidingIsRecorded(t: Tree, runtimeExclusions: seq<Path>, s: Snapshot, a: Path)
    requires WellFormed(t) && Walked(t, [], Children(t, []), Snapshot(map[], runtimeExclusions, {}), s)
    requires a in SnapshotOf(t, runtimeExclusions).excludedAncestors
    ensures a in s.excludedAncestors
  {
    hide ShouldExclude, Children;
    var e :| e in t && a < e && ShouldExclude(e, runtimeExclusions);
    assert ValidPath(a);
    RootIsNoEntry(t, e);
    ChildAbove(t, [], e);
  }

  // ---------- one branch ----------

  function BranchValue(t: Tree, path: Path, whole: bool, runtimeExclusions: seq<Path>, q: Path): Option<Entry> {
    if q != [] && (q <= path || (whole && path < q && !ShouldExclude(q, runtimeExclusions))) then Get(t, q) else None
  }

  ghost predicate IsBranch(t: Tree, path: Path, whole: bool, runtimeExclusions: seq<Path>, s: Snapshot) {
    && s.runtimeExclusions == runtimeExclusions
    && (forall q :: Get(s.entries, q) == BranchValue(t, path, whole, runtimeExclusions, q))
    && s.excludedAncestors == if whole then AncestorsOfHidden(t, path, runtimeExclusions) else {}
  }

  lemma BranchGrows(t: Tree, stop: Path, child: Path, runtimeExclusions: seq<Path>, s: Snapshot)
    requires |child| == |stop| + 1 && stop < child
    requires IsBranch(t, stop, false, runtimeExclusions, s)
    ensures child !in t ==> IsBranch(t, child, false, runtimeExclusions, s)
    ensures child in t ==> IsBranch(t, child, false, runtimeExclusions, s.(entries := s.entries[child := t[child]]))
  {
    forall q | q in t ensures q <= child <==> q <= stop || q == child {}
    if child in t {
      var next := s.(entries := s.entries[child := t[child]]);
      forall q ensures Get(next.entries, q) == BranchValue(t, child, false, runtimeExclusions, q) {
        assert Get(s.entries, q) == BranchValue(t, stop, false, runtimeExclusions, q);
      }
    }
  }

  lemma NothingBelowDeadEnd(t: Tree, stop: Path, path: Path, whole: bool, runtimeExclusions: seq<Path>, s: Snapshot)
    requires WellFormed(t) && stop != [] && stop <= path && !IsDirectory(t, stop)
    requires IsBranch(t, stop, false, runtimeExclusions, s)
    ensures IsBranch(t, path, whole, runtimeExclusions, s)
  {
    forall q | q in t ensures !(stop < q) {
      assert !StrictlyAbove(stop, q);
    }
    forall q
      ensures BranchValue(t, stop, false, runtimeExclusions, q) == BranchValue(t, path, whole, runtimeExclusions, q)
    {
      if q in t && q <= path { AboveSamePathAreRelated(q, stop, path); }
    }
    forall a ensures a !in AncestorsOfHidden(t, path, runtimeExclusions) {
      MemberOfAncestorsOfHidden(t, path, runtimeExclusions, a);
    }
  }

  lemma WholeBranch(t: Tree, path: Path, runtimeExclusions: seq<Path>, entered: Snapshot, s: Snapshot)
    requires WellFormed(t) && path != []
    requires IsBranch(t, path, false, runtimeExclusions, entered)
    requires Walked(t, path, Children(t, path), entered, s)
    ensures IsBranch(t, path, true, runtimeExclusions, s)
  {
    forall q ensures Get(s.entries, q) == BranchValue(t, path, true, runtimeExclusions, q) {
      if q in t && path < q { ChildAbove(t, path, q); }
    }
    forall a ensures a in s.excludedAncestors <==> a in AncestorsOfHidden(t, path, runtimeExclusions) {
      MemberOfAncestorsOfHidden(t, path, runtimeExclusions, a);
      if e :| e in t && path < e && a < e && ShouldExclude(e, runtimeExclusions) { ChildAbove(t, path, e); }
    }
  }

  /** Follows the components of the path, then takes in the subtree if asked to. */
  method SnapshotVfsBranch(t: Tree, path: Path, includeDescendants: bool, runtimeExclusions: seq<Path>)
    returns (s: Snapshot)
    requires WellFormed(t) && path != [] && !ShouldExclude(path, runtimeExclusions)
    ensures IsBranch(t, path, includeDescendants, runtimeExclusions, s)
  {
    s := Snapshot(map[], runtimeExclusions, {});
    var k := 0;
    while k < |path|
      invariant 0 <= k <= |path| && (k == 0 || IsDirectory(t, path[..k]))
      invariant IsBranch(t, path[..k], includeDescendants && k == |path|, runtimeExclusions, s)
    {
      var child := path[..k + 1];
      BranchGrows(t, path[..k], child, runtimeExclusions, s);
      if child in t {
        s := s.(entries := s.entries[child := t[child]]);
      }
      if child !in t || t[child].File? {
        NothingBelowDeadEnd(t, child, path, includeDescendants, runtimeExclusions, s);
        return;
      }
      if k + 1 == |path| && includeDescendants {
        forall n | 0 < n <= |child| ensures !ShouldExclude(child[..n], runtimeExclusions) {
          if ShouldExclude(child[..n], runtimeExclusions) {
            ExclusionCoversSubtree(child[..n], path, runtimeExclusions);
          }
        }
        var inside := SnapshotVfsDir(t, child, s);
        WholeBranch(t, child, runtimeExclusions, s, inside);
        s := inside;
      }
      k := k + 1;
    }
    assert path[..|path|] == path;
  }
}
