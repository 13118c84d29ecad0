/** Where the tree a run expects and the live tree disagree around one path. */
module Differences {
  import opened Basics
  import opened Paths
  import opened Snapshots
  import opened OrderedLookups
  import opened Walkers

  /** d is the path, one of its ancestors or, if the whole branch matters, anything below it. */
  predicate Affected(path: Path, whole: bool, d: Path) {
    d != [] && (d <= path || (whole && path <= d))
  }

  /** The trees disagree at d, or excluded state appeared or vanished below d. */
  ghost predicate IsDifference(expected: Snapshot, live: Tree, path: Path, whole: bool, d: Path) {
    && Affected(path, whole, d)
    && (|| (d <= path && Get(expected.entries, d) != Get(live, d))
        || (whole && path < d && Get(expected.entries, d) != Get(Visible(live, expected.runtimeExclusions), d))
        || (whole && path <= d &&
            (d in expected.excludedAncestors) !=
            (d in SnapshotOf(live, expected.runtimeExclusions).excludedAncestors)))
  }

  ghost function DifferencesAround(expected: Snapshot, live: Tree, path: Path, whole: bool): set<Path> {
    set d | d in expected.entries.Keys + live.Keys + expected.excludedAncestors
            && IsDifference(expected, live, path, whole, d)
  }

  lemma DifferencesAreListed(expected: Snapshot, live: Tree, path: Path, whole: bool, d: Path)
    ensures d in DifferencesAround(expected, live, path, whole) <==> IsDifference(expected, live, path, whole, d)
  {
    if d !in expected.entries.Keys + live.Keys + expected.excludedAncestors {
      assert Get(expected.entries, d) == None == Get(live, d);
    }
  }

  /** What the branch walk reports is what matters of the live tree. */
  lemma BranchShowsDifferences(
    expected: Snapshot, live: Tree, branch: Snapshot, path: Path, whole: bool, d: Path)
    requires WellFormed(live) && path != [] && !ShouldExclude(path, expected.runtimeExclusions)
    requires IsBranch(live, path, whole, expected.runtimeExclusions, branch)
    ensures IsDifference(expected, live, path, whole, d) <==>
            Affected(path, whole, d)
            && (Get(expected.entries, d) != Get(branch.entries, d)
                || (whole && path <= d && (d in expected.excludedAncestors) != (d in branch.excludedAncestors)))
  {
    var rt := expected.runtimeExclusions;
    assert Get(branch.entries, d) == BranchValue(live, path, whole, rt, d);
    if whole && path <= d {
      MemberOfAncestorsOfHidden(live, path, rt, d);
      if e :| e in live && d < e && ShouldExclude(e, rt) {
        assert d != [] && StrictlyAbove(d, e);
      }
    }
  }

  /** The entries of either side at or above the path and, if asked, below it. */
  method AffectedCandidatePaths(expected: Snapshot, live: Snapshot, path: Path, includeDescendants: bool)
    returns (candidates: set<Path>)
    requires ValidPaths(expected.entries.Keys) && ValidPaths(live.entries.Keys)
    ensures forall d :: d in candidates <==>
                        Affected(path, includeDescendants, d) && (d in expected.entries || d in live.entries)
  {
    candidates := {};
    var ancestor := path;
    while ancestor != []
      invariant ancestor <= path
      invariant forall d :: d in candidates <==>
                            (d in expected.entries || d in live.entries) && d != [] && d <= path && !(d <= ancestor)
    {
      var parent := ancestor[..|ancestor| - 1];
      forall d | d in expected.entries || d in live.entries
        ensures d <= path && !(d <= parent) <==> d <= path && (!(d <= ancestor) || d == ancestor)
      {
        if d <= ancestor && d != ancestor { assert d <= parent; }
      }
      if ancestor in expected.entries || ancestor in live.entries {
        candidates := candidates + {ancestor};
      }
      ancestor := parent;
    }
    if includeDescendants {
      var below := DescendantPaths(expected.entries.Keys, path);
      var found := DescendantPaths(live.entries.Keys, path);
      candidates := candidates + Members(below) + Members(found);
    }
  }

  method AffectedDifferences(
    expected: Snapshot, live: Snapshot, path: Path, includeDescendants: bool, ghost tree: Tree)
    returns (differences: set<Path>)
    requires WellFormed(tree) && path != [] && !ShouldExclude(path, expected.runtimeExclusions)
    requires ValidPaths(expected.entries.Keys) && ValidPaths(expected.excludedAncestors)
    requires IsBranch(tree, path, includeDescendants, expected.runtimeExclusions, live)
    ensures differences == DifferencesAround(expected, tree, path, includeDescendants)
  {
    BranchPathsAreValid(tree, path, includeDescendants, live);
    var candidates := AffectedCandidatePaths(expected, live, path, includeDescendants);
    differences := set d | d in candidates && Get(expected.entries, d) != Get(live.entries, d);
    if includeDescendants {
      var below := DescendantPaths(expected.excludedAncestors, path);
      var found := DescendantPaths(live.excludedAncestors, path);
      var hanging := Members(below) + Members(found);
      differences := differences + set d |
        d in hanging && (d in expected.excludedAncestors) != (d in live.excludedAncestors);
    }
    forall d ensures d in differences <==> d in DifferencesAround(expected, tree, path, includeDescendants) {
      BranchShowsDifferences(expected, tree, live, path, includeDescendants, d);
      DifferencesAreListed(expected, tree, path, includeDescendants, d);
    }
  }

  lemma BranchPathsAreValid(tree: Tree, path: Path, whole: bool, branch: Snapshot)
    requires WellFormed(tree) && IsBranch(tree, path, whole, branch.runtimeExclusions, branch)
    ensures ValidPaths(branch.entries.Keys) && ValidPaths(branch.excludedAncestors)
  {
    forall q | q in branch.entries ensures ValidPath(q) {
      assert Get(branch.entries, q) == BranchValue(tree, path, whole, branch.runtimeExclusions, q);
    }
    forall a | a in branch.excludedAncestors ensures ValidPath(a) {
      MemberOfAncestorsOfHidden(tree, path, branch.runtimeExclusions, a);
      var e :| e in tree && path < e && a < e;
      assert ValidPath(e);
    }
  }
}
