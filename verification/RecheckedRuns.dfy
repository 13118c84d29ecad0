/** What a rechecked run may do, stated on the record of everything that happened to the file system. */
module RecheckedRuns {
  import opened Basics
  import opened Paths
  import opened Snapshots
  import opened Differences
  import opened FileSystems
  import opened ApplySnapshot

  /** Two snapshots under the same exclusions that hang the same excluded state below the same directories. */
  ghost predicate SharesExclusions(current: Snapshot, desired: Snapshot) {
    && WellFormedSnapshot(current) && RecordsItsDirectories(current)
    && WellFormedSnapshot(desired)
    && desired.runtimeExclusions == current.runtimeExclusions
    && desired.excludedAncestors == current.excludedAncestors
  }

  /** The snapshot the run started from, with the run's own primitives applied and nobody else's. */
  ghost function Expected(current: Snapshot, run: seq<Event>): Snapshot {
    current.(entries := Replayed(current.entries, run))
  }

  /** The primitive brings its path closer to the desired tree, away from blocked replacements. */
  predicate Aims(current: Snapshot, desired: Snapshot, op: Op) {
    && !RelatedToAny(op.path, BlockedReplacements(current, desired))
    && match op
       case RemoveDirectory(p) => p in Removals(current, desired) && IsDirectory(current.entries, p)
       case RemoveRegular(p) => p in Removals(current, desired) && IsFile(current.entries, p)
       case MakeDirectory(p) => p in NewDirectories(current, desired)
       case CreateRegular(p, bytes) => p in ChangedFiles(current, desired) && desired.entries[p] == File(bytes)
       case Overwrite(p, bytes) => p in ChangedFiles(current, desired) && desired.entries[p] == File(bytes)
  }

  /**
   * Every primitive follows a recheck of its own path that met no difference; a recheck that met one is not followed.
   */
  ghost predicate Respects(current: Snapshot, desired: Snapshot, run: seq<Event>) {
    if run == [] then true
    else
      var n := |run| - 1;
      match run[n]
      case Checked(path, whole, _, after) =>
        && Respects(current, desired, run[..n])
        && path != [] && !ShouldExclude(path, current.runtimeExclusions)
        && DifferencesAround(Expected(current, run[..n]), after, path, whole) != {}
      case Did(op, _) =>
        && n > 0 && run[n - 1].Checked?
        && Respects(current, desired, run[..n - 1])
        && run[n - 1].path == op.path && run[n - 1].whole == op.RemoveDirectory?
        && DifferencesAround(Expected(current, run[..n - 1]), run[n - 1].after, op.path, op.RemoveDirectory?) == {}
        && Aims(current, desired, op)
  }

  /** All differences met by the rechecks of a run. */
  ghost function Met(current: Snapshot, run: seq<Event>): set<Path> {
    if run == [] then {}
    else
      var n := |run| - 1;
      match run[n]
      case Checked(path, whole, _, after) =>
        Met(current, run[..n]) + DifferencesAround(Expected(current, run[..n]), after, path, whole)
      case Did(_, _) => Met(current, run[..n])
  }

  lemma RefusalExtends(current: Snapshot, desired: Snapshot, run: seq<Event>, check: Event)
    requires Respects(current, desired, run) && check.Checked?
    requires check.path != [] && !ShouldExclude(check.path, current.runtimeExclusions)
    requires DifferencesAround(Expected(current, run), check.after, check.path, check.whole) != {}
    ensures Respects(current, desired, run + [check])
    ensures Met(current, run + [check]) ==
            Met(current, run) + DifferencesAround(Expected(current, run), check.after, check.path, check.whole)
    ensures Expected(current, run + [check]) == Expected(current, run)
  {
    assert (run + [check])[..|run|] == run;
  }

  lemma MutationExtends(current: Snapshot, desired: Snapshot, run: seq<Event>, check: Event, did: Event)
    requires Respects(current, desired, run) && check.Checked? && did.Did?
    requires check.path == did.op.path && check.whole == did.op.RemoveDirectory?
    requires DifferencesAround(Expected(current, run), check.after, check.path, check.whole) == {}
    requires Aims(current, desired, did.op)
    ensures Respects(current, desired, run + [check, did])
    ensures Met(current, run + [check, did]) == Met(current, run)
    ensures Replayed(current.entries, run + [check, did]) == Effect(Replayed(current.entries, run), did.op)
  {
    hide DifferencesAround, Aims, Effect, Expected;
    var next := run + [check, did];
    assert next[..|run| + 1] == run + [check];
    assert (run + [check])[..|run|] == run;
    assert next[..|run|] == run;
  }

  // ---------- what follows for every run ----------

  lemma LastMutationMeets(current: Snapshot, desired: Snapshot, t: Tree, run: seq<Event>, u: Tree)
    requires SharesExclusions(current, desired)
    requires LegalRun(t, run, u) && Respects(current, desired, run)
    requires run != [] && run[|run| - 1].Did?
    ensures var n := |run| - 1;
      var op, before := run[n].op, run[n].before;
      && Legal(before, op) && Aims(current, desired, op)
      && (forall a | a != [] && a <= op.path :: Get(before, a) == Get(Replayed(current.entries, run[..n]), a))
      && Hidden(Effect(before, op), current.runtimeExclusions) == Hidden(before, current.runtimeExclusions)
  {
    var n := |run| - 1;
    var op, before := run[n].op, run[n].before;
    var check := run[n - 1];
    assert run[..n][..n - 1] == run[..n - 1] && run[..n][n - 1] == check;
    assert before == check.after;
    assert Replayed(current.entries, run[..n]) == Replayed(current.entries, run[..n - 1]);
    forall a | a != [] && a <= op.path
      ensures Get(before, a) == Get(Replayed(current.entries, run[..n]), a)
    {
      DifferencesAreListed(Expected(current, run[..n - 1]), before, op.path, op.RemoveDirectory?, a);
    }
    assert !ShouldExclude(op.path, current.runtimeExclusions);
  }

  /** A mutated path, and everything above it, was live exactly as expected; what excluded state there was stays. */
  lemma {:induction false} MutationsMeetExpectations(
    current: Snapshot, desired: Snapshot, t: Tree, run: seq<Event>, u: Tree, i: nat)
    requires SharesExclusions(current, desired)
    requires LegalRun(t, run, u) && Respects(current, desired, run)
    requires i < |run| && run[i].Did?
    ensures Legal(run[i].before, run[i].op) && Aims(current, desired, run[i].op)
    ensures forall a | a != [] && a <= run[i].op.path ::
              Get(run[i].before, a) == Get(Replayed(current.entries, run[..i]), a)
    ensures Hidden(Effect(run[i].before, run[i].op), current.runtimeExclusions) ==
            Hidden(run[i].before, current.runtimeExclusions)
  {
    var n := |run| - 1;
    if i == n {
      LastMutationMeets(current, desired, t, run, u);
    } else {
      assert run[..i] == run[..n][..i];
      if run[n].Checked? {
        MutationsMeetExpectations(current, desired, t, run[..n], run[n].before, i);
      } else if i < n - 1 {
        assert run[..n][..n - 1] == run[..n - 1];
        assert run[..n - 1][..i] == run[..i];
        MutationsMeetExpectations(current, desired, t, run[..n - 1], run[n - 1].before, i);
      }
    }
  }

  /** Nothing at, above or below a blocked replacement is ever created, written or removed by the run. */
  lemma {:induction false} BlockedPathsStay(current: Snapshot, desired: Snapshot, run: seq<Event>, p: Path)
    requires Respects(current, desired, run) && RelatedToAny(p, BlockedReplacements(current, desired))
    ensures forall i | 0 <= i < |run| && run[i].Did? :: run[i].op.path != p
    ensures Get(Replayed(current.entries, run), p) == Get(current.entries, p)
  {
    if run != [] {
      var n := |run| - 1;
      match run[n]
      case Checked(_, _, _, _) =>
        BlockedPathsStay(current, desired, run[..n], p);
      case Did(op, _) =>
        assert run[..n][..n - 1] == run[..n - 1];
        BlockedPathsStay(current, desired, run[..n - 1], p);
        assert op.path != p;
    }
  }

  // ---------- runs nobody interferes with ----------

  ghost predicate Undisturbed(run: seq<Event>) {
    forall i | 0 <= i < |run| && run[i].Checked? :: run[i].before == run[i].after
  }

  lemma SameHiddenStateSameAncestors(t: Tree, u: Tree, runtimeExclusions: seq<Path>)
    requires WellFormed(t) && WellFormed(u) && Hidden(t, runtimeExclusions) == Hidden(u, runtimeExclusions)
    ensures SnapshotOf(t, runtimeExclusions).excludedAncestors <= SnapshotOf(u, runtimeExclusions).excludedAncestors
  {
    forall a | a in SnapshotOf(t, runtimeExclusions).excludedAncestors
      ensures a in SnapshotOf(u, runtimeExclusions).excludedAncestors
    {
      var e :| e in t && a < e && ShouldExclude(e, runtimeExclusions);
      assert e in Hidden(t, runtimeExclusions);
      assert ValidPath(a) && StrictlyAbove(a, e) && e in u;
    }
  }

  lemma NoDifferencesWhenUndisturbed(
    current: Snapshot, t: Tree, expected: Snapshot, live: Tree, path: Path, whole: bool)
    requires WellFormed(t) && current == SnapshotOf(t, current.runtimeExclusions)
    requires WellFormed(live) && Hidden(live, current.runtimeExclusions) == Hidden(t, current.runtimeExclusions)
    requires expected == current.(entries := Visible(live, current.runtimeExclusions))
    requires path != [] && !ShouldExclude(path, current.runtimeExclusions)
    ensures DifferencesAround(expected, live, path, whole) == {}
  {
    SameHiddenStateSameAncestors(t, live, current.runtimeExclusions);
    SameHiddenStateSameAncestors(live, t, current.runtimeExclusions);
    forall d ensures d !in DifferencesAround(expected, live, path, whole) {
      DifferencesAreListed(expected, live, path, whole, d);
      if d <= path && ShouldExclude(d, current.runtimeExclusions) {
        ExclusionCoversSubtree(d, path, current.runtimeExclusions);
      }
    }
  }

  lemma VisibleOp(t: Tree, op: Op, runtimeExclusions: seq<Path>)
    requires WellFormed(t) && Legal(t, op) && !ShouldExclude(op.path, runtimeExclusions)
    ensures WellFormed(Effect(t, op))
    ensures Hidden(Effect(t, op), runtimeExclusions) == Hidden(t, runtimeExclusions)
    ensures Visible(Effect(t, op), runtimeExclusions) == Effect(Visible(t, runtimeExclusions), op)
  {
    LegalOpsKeepTreeShape(t, op);
  }

  lemma LastMutation(current: Snapshot, desired: Snapshot, t: Tree, run: seq<Event>, u: Tree, n: nat)
    requires SharesExclusions(current, desired)
    requires LegalRun(t, run, u) && Respects(current, desired, run)
    requires n == |run| - 1 && run[n].Did?
    ensures n > 0 && run[n - 1].Checked? && run[n - 1].after == run[n].before
    ensures LegalRun(t, run[..n - 1], run[n - 1].before) && Respects(current, desired, run[..n - 1])
    ensures Legal(run[n].before, run[n].op) && u == Effect(run[n].before, run[n].op)
    ensures !ShouldExclude(run[n].op.path, current.runtimeExclusions)
    ensures Replayed(current.entries, run) == Effect(Replayed(current.entries, run[..n - 1]), run[n].op)
    ensures Met(current, run) == Met(current, run[..n - 1])
  {
    assert run[..n][..n - 1] == run[..n - 1] && run[..n][n - 1] == run[n - 1];
  }

  /** Left alone, a run meets no difference, keeps hidden state and leaves exactly the replayed tree. */
  lemma {:induction false} UndisturbedRun(current: Snapshot, desired: Snapshot, t: Tree, run: seq<Event>, u: Tree)
    requires SharesExclusions(current, desired)
    requires WellFormed(t) && current == SnapshotOf(t, current.runtimeExclusions)
    requires LegalRun(t, run, u) && Respects(current, desired, run) && Undisturbed(run)
    ensures WellFormed(u) && Met(current, run) == {}
    ensures Hidden(u, current.runtimeExclusions) == Hidden(t, current.runtimeExclusions)
    ensures Visible(u, current.runtimeExclusions) == Replayed(current.entries, run)
  {
    if run != [] {
      var n := |run| - 1;
      if run[n].Checked? {
        UndisturbedRun(current, desired, t, run[..n], run[n].before);
        NoDifferencesWhenUndisturbed(
          current, t, Expected(current, run[..n]), run[n].after, run[n].path, run[n].whole);
      } else {
        LastMutation(current, desired, t, run, u, n);
        assert Undisturbed(run[..n - 1]);
        UndisturbedRun(current, desired, t, run[..n - 1], run[n - 1].before);
        assert run[n - 1].before == run[n - 1].after;
        VisibleOp(run[n].before, run[n].op, current.runtimeExclusions);
      }
    }
  }

  /** Goal reached wherever no conflict was reported. */
  ghost predicate ReachesGoalOutside(current: Snapshot, desired: Snapshot, expected: Tree, conflicts: set<Path>) {
    forall p | !RelatedToAny(p, conflicts) :: Get(expected, p) == Goal(current, desired, p)
  }

  /** Excluded state and whatever lies around a blocked replacement as before, everything else as wanted. */
  function UndisturbedResult(current: Snapshot, desired: Snapshot, t: Tree, p: Path): Option<Entry> {
    if ShouldExclude(p, current.runtimeExclusions) || RelatedToAny(p, BlockedReplacements(current, desired))
    then Get(t, p)
    else Goal(current, desired, p)
  }

  lemma UndisturbedRunReachesGoal(
    current: Snapshot, desired: Snapshot, t: Tree, run: seq<Event>, u: Tree, conflicts: set<Path>)
    requires SharesExclusions(current, desired)
    requires WellFormed(t) && current == SnapshotOf(t, current.runtimeExclusions)
    requires LegalRun(t, run, u) && Respects(current, desired, run) && Undisturbed(run)
    requires conflicts == BlockedReplacements(current, desired) + Met(current, run)
    requires ReachesGoalOutside(current, desired, Replayed(current.entries, run), conflicts)
    ensures conflicts == BlockedReplacements(current, desired)
    ensures forall p :: Get(u, p) == UndisturbedResult(current, desired, t, p)
  {
    UndisturbedRun(current, desired, t, run, u);
    var rt := current.runtimeExclusions;
    forall p ensures Get(u, p) == UndisturbedResult(current, desired, t, p) {
      assert Get(u, p) == if ShouldExclude(p, rt) then Get(Hidden(u, rt), p) else Get(Visible(u, rt), p);
      assert Get(t, p) == if ShouldExclude(p, rt) then Get(Hidden(t, rt), p) else Get(current.entries, p);
      if !ShouldExclude(p, rt) && RelatedToAny(p, BlockedReplacements(current, desired)) {
        BlockedPathsStay(current, desired, run, p);
      }
    }
  }

  /** With no excluded state about, that is exactly the desired tree and no conflict. */
  lemma UndisturbedRunWithoutExcludedState(current: Snapshot, desired: Snapshot, t: Tree, u: Tree)
    requires SharesExclusions(current, desired) && current.excludedAncestors == {}
    requires WellFormed(t) && current == SnapshotOf(t, current.runtimeExclusions)
    requires forall p :: Get(u, p) == UndisturbedResult(current, desired, t, p)
    ensures BlockedReplacements(current, desired) == {}
    ensures Visible(u, current.runtimeExclusions) == desired.entries
    ensures Hidden(u, current.runtimeExclusions) == Hidden(t, current.runtimeExclusions)
  {
    assert BlockedReplacements(current, desired) == {};
    var rt := current.runtimeExclusions;
    forall p
      ensures Get(Visible(u, rt), p) == Get(desired.entries, p)
      ensures Get(Hidden(u, rt), p) == Get(Hidden(t, rt), p)
    {
      assert Get(u, p) == UndisturbedResult(current, desired, t, p);
    }
    SameEverywhere(Visible(u, rt), desired.entries);
    SameEverywhere(Hidden(u, rt), Hidden(t, rt));
  }
}
