/** Synchronisation runs from end to end: out to the host before a child starts, back into the VFS after it. */
module Sync {
  import opened Basics
  import opened Paths
  import opened Snapshots
  import opened Reconcile
  import opened Walkers
  import opened FileSystems
  import opened ApplySnapshot
  import opened RecheckedRuns
  import opened RecheckedApply

  lemma MergedTreeSharesExclusions(baseline: Snapshot, child: Snapshot, current: Snapshot, merged: Snapshot)
    requires WellFormed(baseline.entries)
    requires WellFormedSnapshot(child) && child.runtimeExclusions == baseline.runtimeExclusions
    requires WellFormedSnapshot(current) && RecordsItsDirectories(current)
    requires current.runtimeExclusions == baseline.runtimeExclusions == merged.runtimeExclusions
    requires IsMerge(baseline.entries, child.entries, current.entries, merged.entries)
    requires merged.excludedAncestors == current.excludedAncestors
    ensures SharesExclusions(current, merged)
  {
    MergeKeepsTreeShape(baseline.entries, child.entries, current.entries, merged.entries);
    forall p | p in merged.entries ensures !ShouldExclude(p, merged.runtimeExclusions) {
      assert Get(merged.entries, p) == MergedValue(baseline.entries, child.entries, current.entries, p);
    }
  }

  /** Copies the VFS over the host before a child process starts; the result is the baseline of the later merge. */
  method SyncVfsToHost(vfs: FileSystem, host: FileSystem, runtimeExclusions: seq<Path>)
    returns (outcome: Outcome, baseline: Snapshot)
    requires vfs != host && vfs.Valid() && host.Valid()
    modifies host
    ensures host.Valid() && baseline == SnapshotOf(vfs.tree, runtimeExclusions)
    ensures outcome.Applied? <==> BlockedReplacements(SnapshotOf(old(host.tree), runtimeExclusions), baseline) == {}
    ensures outcome.ExcludedStateConflict? ==>
      && IsFirst(Lexicographic, outcome.path, BlockedReplacements(SnapshotOf(host.tree, runtimeExclusions), baseline))
      && host.tree == old(host.tree)
    ensures outcome.Applied? ==>
      ReachesGoal(old(host.tree), SnapshotOf(old(host.tree), runtimeExclusions), baseline, host.tree)
  {
    baseline := SnapshotVfs(vfs.tree, runtimeExclusions);
    WalksGiveWellFormedSnapshots(vfs.tree, runtimeExclusions);
    var current := SnapshotVfs(host.tree, runtimeExclusions);
    outcome := ApplyHostSnapshot(host, current, baseline);
  }

  /** Replaces the whole visible VFS by what the host holds. */
  method ImportHostAuthoritative(vfs: FileSystem, host: FileSystem)
    returns (outcome: Outcome, desired: Snapshot)
    requires vfs != host && vfs.Valid() && host.Valid()
    modifies vfs
    ensures vfs.Valid() && desired == SnapshotOf(host.tree, [])
    ensures outcome.Applied? <==> BlockedReplacements(SnapshotOf(old(vfs.tree), []), desired) == {}
    ensures outcome.ExcludedStateConflict? ==>
      && IsFirst(Lexicographic, outcome.path, BlockedReplacements(SnapshotOf(vfs.tree, []), desired))
      && vfs.tree == old(vfs.tree)
    ensures outcome.Applied? ==> ReachesGoal(old(vfs.tree), SnapshotOf(old(vfs.tree), []), desired, vfs.tree)
  {
    desired := SnapshotVfs(host.tree, []);
    WalksGiveWellFormedSnapshots(host.tree, []);
    var current := SnapshotVfs(vfs.tree, []);
    outcome := ApplyVfsSnapshot(vfs, current, desired);
  }

  /** What the merge wants of the VFS once the child is done. */
  ghost predicate MergeWanted(baseline: Snapshot, host: Tree, vfs: Tree, merged: Snapshot) {
    && merged.runtimeExclusions == baseline.runtimeExclusions
    && merged.excludedAncestors == SnapshotOf(vfs, baseline.runtimeExclusions).excludedAncestors
    && IsMerge(baseline.entries, Visible(host, baseline.runtimeExclusions),
               Visible(vfs, baseline.runtimeExclusions), merged.entries)
  }

  /** Merges the child's changes into the VFS while the editor may keep changing it. */
  method SyncHostToVfs(vfs: FileSystem, host: Tree, baseline: Snapshot)
    returns (conflicts: seq<Path>, ghost merged: Snapshot, ghost run: seq<Event>)
    requires vfs.Valid() && WellFormed(host) && WellFormed(baseline.entries)
    modifies vfs
    ensures vfs.Valid() && vfs.log == old(vfs.log) + run
    ensures MergeWanted(baseline, host, old(vfs.tree), merged)
    ensures SharesExclusions(SnapshotOf(old(vfs.tree), baseline.runtimeExclusions), merged)
    ensures LegalRun(old(vfs.tree), run, vfs.tree)
    ensures Respects(SnapshotOf(old(vfs.tree), baseline.runtimeExclusions), merged, run)
    ensures Members(conflicts) ==
            Conflicts(baseline.entries, Visible(host, baseline.runtimeExclusions),
                      Visible(old(vfs.tree), baseline.runtimeExclusions))
            + BlockedReplacements(SnapshotOf(old(vfs.tree), baseline.runtimeExclusions), merged)
            + Met(SnapshotOf(old(vfs.tree), baseline.runtimeExclusions), run)
    ensures Undisturbed(run) ==>
      forall p :: Get(vfs.tree, p) ==
        UndisturbedResult(SnapshotOf(old(vfs.tree), baseline.runtimeExclusions), merged, old(vfs.tree), p)
  {
    ghost var t := vfs.tree;
    var child := SnapshotVfs(host, baseline.runtimeExclusions);
    WalksGiveWellFormedSnapshots(host, baseline.runtimeExclusions);
    var current := SnapshotVfs(vfs.tree, baseline.runtimeExclusions);
    WalksGiveWellFormedSnapshots(vfs.tree, baseline.runtimeExclusions);
    var result := ReconcileDiff(baseline, child, current);
    merged := result.tree;
    MergedTreeSharesExclusions(baseline, child, current, result.tree);
    var met;
    met, run := ApplyVfsSnapshotRechecked(vfs, current, result.tree);
    if Undisturbed(run) {
      UndisturbedRunReachesGoal(current, result.tree, t, run, vfs.tree, met);
    }
    conflicts := InOrder(Members(result.conflicts) + met, Lexicographic);
    assert Members(result.conflicts) ==
           Conflicts(baseline.entries, child.entries, current.entries);
    assert Members(conflicts) == Members(result.conflicts) + met;
  }

  /** Directories the host has to keep although the VFS does not have them. */
  ghost predicate KeepsExtraDirectories(vfs: Tree, host: Tree, runtimeExclusions: seq<Path>) {
    exists q | q in host ::
      host[q].Directory? && !ShouldExclude(q, runtimeExclusions) && HidesBelow(host, q, runtimeExclusions) && q !in vfs
  }

  /**
   * A child that changes nothing changes nothing: exactly when the host did not have to keep directories the VFS lacks
   * does the tree it hands back equal the baseline.
   */
  lemma UnchangedHostHandsBackBaseline(vfs: Tree, before: Tree, host: Tree, runtimeExclusions: seq<Path>)
    requires WellFormed(vfs) && WellFormed(before)
    requires ReachesGoal(before, SnapshotOf(before, runtimeExclusions), SnapshotOf(vfs, runtimeExclusions), host)
    ensures Visible(host, runtimeExclusions) == Visible(vfs, runtimeExclusions) <==>
            !KeepsExtraDirectories(vfs, before, runtimeExclusions)
  {
    var current, baseline := SnapshotOf(before, runtimeExclusions), SnapshotOf(vfs, runtimeExclusions);
    WalksGiveWellFormedSnapshots(vfs, runtimeExclusions);
    forall q | !ShouldExclude(q, runtimeExclusions)
      ensures Get(Visible(host, runtimeExclusions), q) == Goal(current, baseline, q)
    {
      assert Get(host, q) == Goal(current, baseline, q);
    }
    if q :| q in before && before[q].Directory? && !ShouldExclude(q, runtimeExclusions)
            && HidesBelow(before, q, runtimeExclusions) && q !in vfs {
      assert Get(Visible(host, runtimeExclusions), q) == Some(Directory);
      assert Get(Visible(vfs, runtimeExclusions), q) == None;
    } else {
      forall q ensures Get(Visible(host, runtimeExclusions), q) == Get(Visible(vfs, runtimeExclusions), q) {
        if !ShouldExclude(q, runtimeExclusions) {
          assert Goal(current, baseline, q) == Get(baseline.entries, q);
        }
      }
      SameEverywhere(Visible(host, runtimeExclusions), Visible(vfs, runtimeExclusions));
    }
  }

  /** A directory the host had to keep is taken for the child's work: without an edit near it, it enters the VFS. */
  lemma KeptDirectoryEntersVfs(vfs: Tree, before: Tree, host: Tree, edited: Tree, merged: Snapshot, rt: seq<Path>,
      q: Path)
    requires WellFormed(vfs) && WellFormed(before)
    requires ReachesGoal(before, SnapshotOf(before, rt), SnapshotOf(vfs, rt), host)
    requires IsDirectory(before, q) && !ShouldExclude(q, rt) && HidesBelow(before, q, rt) && q !in vfs
    requires MergeWanted(SnapshotOf(vfs, rt), host, edited, merged)
    requires !RelatedToAny(q, Differing(Visible(vfs, rt), Visible(edited, rt)))
    ensures Get(merged.entries, q) == Some(Directory)
  {
    var baseline, child, current := Visible(vfs, rt), Visible(host, rt), Visible(edited, rt);
    assert Get(host, q) == Goal(SnapshotOf(before, rt), SnapshotOf(vfs, rt), q) == Some(Directory);
    assert q in Differing(baseline, child);
    assert Conflicts(baseline, child, current) <= Differing(baseline, current);
    assert Get(merged.entries, q) == MergedValue(baseline, child, current, q);
  }

  /** A host with a cache of crates. */
  const CARGO_HOST: Tree := map[[".cargo"] := Directory, [".cargo", "registry"] := Directory]

  /** It hands `.cargo` back to an empty workspace although neither child nor editor did anything. */
  lemma CargoDirectoryEntersVfs(merged: Snapshot)
    requires MergeWanted(SnapshotOf(map[], []), CARGO_HOST, map[], merged)
    ensures WellFormed(CARGO_HOST)
    ensures ReachesGoal(CARGO_HOST, SnapshotOf(CARGO_HOST, []), SnapshotOf(map[], []), CARGO_HOST)
    ensures KeepsExtraDirectories(map[], CARGO_HOST, [])
    ensures Get(merged.entries, [".cargo"]) == Some(Directory)
  {
    hide IsExcluded, WellFormed, HidesBelow, ReachesGoal, MergeWanted;
    CargoHostIsTree();
    CargoHidesRegistry();
    CargoHostStays();
    KeptDirectoryEntersVfs(map[], CARGO_HOST, CARGO_HOST, map[], merged, [], [".cargo"]);
  }

  lemma CargoHidesRegistry()
    ensures !ShouldExclude([".cargo"], []) && HidesBelow(CARGO_HOST, [".cargo"], [])
  {
    var cargo, registry: Path := [".cargo"], [".cargo", "registry"];
    assert registry == EXCLUDED_ROOTS[2] && registry in EXCLUDED_ROOTS && registry <= registry;
    assert IsExcluded(registry) && ShouldExclude(registry, []) && cargo < registry && registry in CARGO_HOST;
    forall r | r in EXCLUDED_ROOTS ensures !(r <= cargo) {
      assert r[0] != ".cargo" || |r| == 2;
    }
  }

  lemma CargoHostIsTree()
    ensures WellFormed(CARGO_HOST)
  {
    forall a, p | p in CARGO_HOST && StrictlyAbove(a, p) ensures IsDirectory(CARGO_HOST, a) {
      assert p == [".cargo", "registry"] && a == p[..1] == [".cargo"];
    }
  }

  lemma CargoHostStays()
    ensures ReachesGoal(CARGO_HOST, SnapshotOf(CARGO_HOST, []), SnapshotOf(map[], []), CARGO_HOST)
    ensures !RelatedToAny([".cargo"], Differing(Visible(map[], []), Visible(map[], [])))
  {
    var registry: Path := [".cargo", "registry"];
    assert registry == EXCLUDED_ROOTS[2] && registry in EXCLUDED_ROOTS && registry <= registry;
    CargoHidesRegistry();
    assert Differing(Visible(map[], []), Visible(map[], [])) == {};
  }

  /** Merging such an unchanged child gives back the editor's tree, whatever the editor did meanwhile. */
  lemma UnchangedChildKeepsEditorTree(baseline: Snapshot, host: Tree, vfs: Tree, merged: Snapshot)
    requires Visible(host, baseline.runtimeExclusions) == baseline.entries
    requires MergeWanted(baseline, host, vfs, merged)
    ensures merged.entries == Visible(vfs, baseline.runtimeExclusions)
  {
    MergeWithoutChildChanges(baseline.entries, Visible(vfs, baseline.runtimeExclusions), merged.entries);
  }
}
