/** The three-way merge of a child's tree and the editor's tree over their common baseline. */
module Reconcile {
  import opened Basics
  import opened Paths
  import opened Snapshots
  import opened OrderedLookups

  datatype ReconcileResult = ReconcileResult(tree: Snapshot, conflicts: seq<Path>)

  // ---------- what the merge means, path by path ----------

  function Differing(s: Tree, t: Tree): set<Path> {
    set p | p in s.Keys + t.Keys && Get(s, p) != Get(t, p)
  }

  /** Editor changes at, above or below something the child changed. */
  function Conflicts(baseline: Tree, child: Tree, current: Tree): set<Path> {
    set p | p in Differing(baseline, current) && RelatedToAny(p, Differing(baseline, child))
  }

  predicate Accepted(baseline: Tree, child: Tree, current: Tree, p: Path) {
    p in Differing(baseline, child) && !RelatedToAny(p, Conflicts(baseline, child, current))
  }

  function MergedValue(baseline: Tree, child: Tree, current: Tree, p: Path): Option<Entry> {
    if Accepted(baseline, child, current, p) then Get(child, p) else Get(current, p)
  }

  ghost predicate IsMerge(baseline: Tree, child: Tree, current: Tree, merged: Tree) {
    forall p :: Get(merged, p) == MergedValue(baseline, child, current, p)
  }

  // ---------- the merge loop ----------

  /** What the editor's tree holds below a change without being an accepted change itself is explained by a conflict. */
  lemma KeptBelowMeansConflict(baseline: Tree, child: Tree, current: Tree, p: Path, q: Path)
    requires WellFormed(baseline) && WellFormed(child)
    requires p in Differing(baseline, child) && p < q && q in current && !Accepted(baseline, child, current, q)
    ensures RelatedToAny(p, Conflicts(baseline, child, current))
  {
    var changed, conflicts := Differing(baseline, child), Conflicts(baseline, child, current);
    assert Related(q, p) && Related(p, q);
    if Get(current, q) == Get(baseline, q) {
      assert StrictlyAbove(p, q);
      assert IsDirectory(baseline, p) && !IsDirectory(child, p);
      assert q in changed;
      var c :| c in conflicts && Related(q, c);
      if c <= q { AboveSamePathAreRelated(p, c, q); }
      assert Related(p, c);
    } else {
      assert q in conflicts;
    }
  }

  /** Below an accepted change the editor's tree holds nothing that has to stay. */
  lemma NothingKeptBelowAccepted(baseline: Tree, child: Tree, current: Tree, p: Path, q: Path)
    requires WellFormed(baseline) && WellFormed(child)
    requires Accepted(baseline, child, current, p) && !Accepted(baseline, child, current, q)
    requires p < q
    ensures q !in current
  {
    if q in current { KeptBelowMeansConflict(baseline, child, current, p, q); }
  }

  /** What the loop has settled after the changes in done: nothing is claimed yet of accepted changes still to come. */
  ghost predicate Settled(baseline: Tree, child: Tree, current: Tree, tree: Tree, done: seq<Path>) {
    forall q | q in done || !Accepted(baseline, child, current, q) ::
      Get(tree, q) == MergedValue(baseline, child, current, q)
  }

  lemma AcceptingSettlesOneMore(
    baseline: Tree, child: Tree, current: Tree, tree: Tree, next: Tree, done: seq<Path>, p: Path)
    requires WellFormed(baseline) && WellFormed(child)
    requires Settled(baseline, child, current, tree, done) && Accepted(baseline, child, current, p)
    requires forall q | q in done :: |q| <= |p|
    requires forall q :: Get(next, q) == if q == p then Get(child, p) else if p <= q then None else Get(tree, q)
    ensures Settled(baseline, child, current, next, done + [p])
  {
    forall q | q in done + [p] || !Accepted(baseline, child, current, q)
      ensures Get(next, q) == MergedValue(baseline, child, current, q)
    {
      if p < q {
        assert q !in done;
        NothingKeptBelowAccepted(baseline, child, current, p, q);
      }
    }
  }

  lemma NothingSettledYet(baseline: Tree, child: Tree, current: Tree)
    ensures Settled(baseline, child, current, current, [])
  {
  }

  lemma AllSettled(baseline: Tree, child: Tree, current: Tree, tree: Tree, changes: seq<Path>)
    requires Lists(changes, Differing(baseline, child), ShallowFirst)
    requires Settled(baseline, child, current, tree, changes)
    ensures IsMerge(baseline, child, current, tree)
  {
    forall p ensures Get(tree, p) == MergedValue(baseline, child, current, p) {
      assert Accepted(baseline, child, current, p) ==> p in changes;
    }
  }

  /** A conflict nearby keeps a change out, so there is nothing to settle. */
  lemma RefusingSettlesNothing(
    baseline: Tree, child: Tree, current: Tree, tree: Tree, done: seq<Path>, p: Path)
    requires Settled(baseline, child, current, tree, done) && !Accepted(baseline, child, current, p)
    ensures Settled(baseline, child, current, tree, done + [p])
  {
  }

  lemma ShallowerBefore(changes: seq<Path>, paths: set<Path>, i: nat)
    requires Lists(changes, paths, ShallowFirst) && i < |changes|
    ensures changes[i] in paths && forall q | q in changes[..i] :: |q| <= |changes[i]|
  {
    NextIsNew(changes, paths, ShallowFirst, i);
  }

  lemma AcceptedWhenUnrelated(baseline: Tree, child: Tree, current: Tree, p: Path)
    requires p in Differing(baseline, child)
    ensures Accepted(baseline, child, current, p) <==> !RelatedToAny(p, Conflicts(baseline, child, current))
  {
  }

  lemma PathsAreValid(t: Tree)
    requires WellFormed(t)
    ensures ValidPaths(t.Keys)
  {
  }

  lemma ChangedPathsAreValid(s: Tree, t: Tree)
    requires ValidPaths(s.Keys) && ValidPaths(t.Keys)
    ensures ValidPaths(Differing(s, t))
  {
  }

  /** The editor's changes at, above or below one of the child's. */
  method EditsNearChanges(baseline: Tree, current: Tree, changed: set<Path>) returns (conflicts: set<Path>)
    requires ValidPaths(baseline.Keys) && ValidPaths(current.Keys) && ValidPaths(changed)
    ensures conflicts == set p | p in Differing(baseline, current) && RelatedToAny(p, changed)
    ensures ValidPaths(conflicts)
  {
    ChangedPathsAreValid(baseline, current);
    var candidates := InOrder(Differing(baseline, current), Lexicographic);
    conflicts := {};
    for i := 0 to |candidates|
      invariant conflicts == set p | p in candidates[..i] && RelatedToAny(p, changed)
    {
      var related := HasAncestorOrDescendant(candidates[i], changed);
      assert candidates[..i + 1] == candidates[..i] + [candidates[i]];
      if related {
        conflicts := conflicts + {candidates[i]};
      }
    }
    assert candidates[..|candidates|] == candidates;
  }

  method ReconcileDiff(baseline: Snapshot, child: Snapshot, currentVfs: Snapshot) returns (r: ReconcileResult)
    requires WellFormed(baseline.entries) && WellFormed(child.entries) && ValidPaths(currentVfs.entries.Keys)
    ensures IsMerge(baseline.entries, child.entries, currentVfs.entries, r.tree.entries)
    ensures r.tree.runtimeExclusions == baseline.runtimeExclusions
    ensures r.tree.excludedAncestors == currentVfs.excludedAncestors
    ensures Lists(r.conflicts, Conflicts(baseline.entries, child.entries, currentVfs.entries), Lexicographic)
  {
    hide Settled, IsMerge, Accepted, Lists, WellFormed;
    ghost var b, c, v := baseline.entries, child.entries, currentVfs.entries;
    PathsAreValid(b);
    PathsAreValid(c);
    ChangedPathsAreValid(b, c);
    NothingSettledYet(b, c, v);
    var changed := Differing(baseline.entries, child.entries);
    var conflicts := EditsNearChanges(baseline.entries, currentVfs.entries, changed);
    hide Differing, Conflicts;

    var entries := currentVfs.entries;
    var changes := InOrder(changed, ShallowFirst);
    for i := 0 to |changes|
      invariant ValidPaths(entries.Keys)
      invariant Settled(b, c, v, entries, changes[..i])
    {
      var path := changes[i];
      ShallowerBefore(changes, changed, i);
      assert changes[..i + 1] == changes[..i] + [path];
      var related := HasAncestorOrDescendant(path, conflicts);
      if !related {
        ghost var before := entries;
        entries := RemoveSubtreeEntries(entries, path);
        if path in child.entries {
          entries := entries[path := child.entries[path]];
        }
        AcceptedWhenUnrelated(b, c, v, path);
        AcceptingSettlesOneMore(b, c, v, before, entries, changes[..i], path);
      } else {
        AcceptedWhenUnrelated(b, c, v, path);
        RefusingSettlesNothing(b, c, v, entries, changes[..i], path);
      }
    }
    assert changes[..|changes|] == changes;
    AllSettled(b, c, v, entries, changes);
    var listed := InOrder(conflicts, Lexicographic);
    r := ReconcileResult(Snapshot(entries, baseline.runtimeExclusions, currentVfs.excludedAncestors), listed);
  }

  // ---------- what the merge promises ----------

  /** Files and directories may replace each other and only some changes be accepted: the result is still a tree. */
  lemma MergeKeepsTreeShape(baseline: Tree, child: Tree, current: Tree, merged: Tree)
    requires WellFormed(baseline) && WellFormed(child) && WellFormed(current)
    requires IsMerge(baseline, child, current, merged)
    ensures WellFormed(merged)
  {
    forall p | p in merged ensures ValidPath(p) {
      assert Get(merged, p) == MergedValue(baseline, child, current, p);
    }
    forall a, q | q in merged && StrictlyAbove(a, q) ensures IsDirectory(merged, a) {
      assert Get(merged, q) == MergedValue(baseline, child, current, q);
      assert Get(merged, a) == MergedValue(baseline, child, current, a);
      if Accepted(baseline, child, current, q) {
        AncestorOfAcceptedIsDirectory(baseline, child, current, a, q);
      } else if Accepted(baseline, child, current, a) {
        NothingKeptBelowAccepted(baseline, child, current, a, q);
      }
    }
  }

  lemma AncestorOfAcceptedIsDirectory(baseline: Tree, child: Tree, current: Tree, a: Path, q: Path)
    requires WellFormed(baseline) && WellFormed(child) && WellFormed(current)
    requires Accepted(baseline, child, current, q) && q in child && StrictlyAbove(a, q)
    ensures MergedValue(baseline, child, current, a) == Some(Directory)
  {
    var changed, conflicts := Differing(baseline, child), Conflicts(baseline, child, current);
    assert Related(a, q) && Related(q, a) && a !in conflicts;
    assert IsDirectory(child, a);
    if a !in changed {
      assert Get(baseline, a) == Get(current, a);
    } else if RelatedToAny(a, conflicts) {
      assert !IsDirectory(baseline, a);
      var c :| c in conflicts && Related(a, c);
      assert !Related(q, c);
      assert StrictlyAbove(a, c);
    }
  }

  /** No editor change is lost. */
  lemma EditorChangesStay(baseline: Tree, child: Tree, current: Tree, merged: Tree, p: Path)
    requires IsMerge(baseline, child, current, merged)
    requires Get(current, p) != Get(baseline, p)
    ensures Get(merged, p) == Get(current, p)
    ensures Get(child, p) != Get(baseline, p) ==> p in Conflicts(baseline, child, current)
  {
    if p in Differing(baseline, child) {
      assert Related(p, p);
      assert p in Conflicts(baseline, child, current);
    }
  }

  /** A child change is either in the result or explained by a reported editor change. */
  lemma ChildChangesLandOrConflict(baseline: Tree, child: Tree, current: Tree, merged: Tree, p: Path)
    requires IsMerge(baseline, child, current, merged)
    requires Get(child, p) != Get(baseline, p)
    ensures Get(merged, p) == Get(child, p) ||
            exists c | c in Conflicts(baseline, child, current) :: Related(p, c) && Get(current, c) != Get(baseline, c)
  {
    assert Get(merged, p) == MergedValue(baseline, child, current, p);
    if !Accepted(baseline, child, current, p) {
      var c :| c in Conflicts(baseline, child, current) && Related(p, c);
    }
  }

  lemma MergeWithoutEdits(baseline: Tree, child: Tree, merged: Tree)
    requires IsMerge(baseline, child, baseline, merged)
    ensures merged == child && Conflicts(baseline, child, baseline) == {}
  {
    assert Conflicts(baseline, child, baseline) == {};
    forall p ensures Get(merged, p) == Get(child, p) {
      assert Get(merged, p) == MergedValue(baseline, child, baseline, p);
    }
    SameEverywhere(merged, child);
  }

  lemma MergeWithoutChildChanges(baseline: Tree, current: Tree, merged: Tree)
    requires IsMerge(baseline, baseline, current, merged)
    ensures merged == current && Conflicts(baseline, baseline, current) == {}
  {
    assert Differing(baseline, baseline) == {};
    forall p ensures Get(merged, p) == Get(current, p) {
      assert Get(merged, p) == MergedValue(baseline, baseline, current, p);
    }
    SameEverywhere(merged, current);
  }
}
