/** Applying a desired tree while others keep editing: every mutation is preceded by a recheck of its branch. */
module RecheckedApply {
  import opened Basics
  import opened Paths
  import opened Snapshots
  import opened OrderedLookups
  import opened Walkers
  import opened Differences
  import opened FileSystems
  import opened ApplySnapshot
  import opened RecheckedRuns

  /** The bookkeeping of a run agrees with its record. */
  ghost predicate Tracks(
    current: Snapshot, desired: Snapshot, t: Tree, run: seq<Event>, u: Tree, expected: Tree, conflicts: set<Path>)
  {
    && LegalRun(t, run, u)
    && Respects(current, desired, run)
    && expected == Replayed(current.entries, run)
    && conflicts == BlockedReplacements(current, desired) + Met(current, run)
  }

  lemma BlockedAreReported(
    current: Snapshot, desired: Snapshot, t: Tree, run: seq<Event>, u: Tree, expected: Tree, conflicts: set<Path>)
    requires Tracks(current, desired, t, run, u, expected, conflicts)
    ensures BlockedReplacements(current, desired) <= conflicts
  {
  }

  /** Before the first step nothing is done and nothing is in the way but what was blocked from the start. */
  lemma NothingDoneYet(current: Snapshot, desired: Snapshot, t: Tree)
    requires SharesExclusions(current, desired)
    ensures ValidPaths(BlockedReplacements(current, desired))
    ensures Tracks(current, desired, t, [], t, current.entries, BlockedReplacements(current, desired))
    ensures Removing(current, desired, {}, current.entries, BlockedReplacements(current, desired))
  {
  }

  lemma NothingMadeYet(gone: Tree, early: set<Path>)
    ensures Making(gone, early, {}, gone, early)
  {
  }

  lemma NothingWrittenYet(desired: Tree, ready: Tree, late: set<Path>)
    ensures Writing(desired, ready, late, {}, ready, late)
  {
  }

  lemma BlockedAreDirectories(current: Snapshot, desired: Snapshot, c: Path)
    requires SharesExclusions(current, desired) && c in BlockedReplacements(current, desired)
    ensures IsDirectory(current.entries, c)
  {
  }

  lemma UnrelatedToFewer(p: Path, fewer: set<Path>, paths: set<Path>)
    requires fewer <= paths && !RelatedToAny(p, paths)
    ensures !RelatedToAny(p, fewer)
  {
    forall c | c in fewer ensures !Related(p, c) {
      assert c in paths;
    }
  }

  lemma AncestorIsDirectory(t: Tree, a: Path, p: Path)
    requires WellFormed(t) && p in t && a != [] && a < p
    ensures IsDirectory(t, a)
  {
    assert StrictlyAbove(a, p);
  }

  // ---------- removals ----------

  /** After the removals in done: each is gone or explained by a conflict, and conflicts lie around removals. */
  ghost predicate Removing(
    current: Snapshot, desired: Snapshot, done: set<Path>, expected: Tree, conflicts: set<Path>)
  {
    && (forall q :: Get(expected, q) == Get(current.entries, q) || (q in done && q !in expected))
    && (forall q | q in done :: q !in expected || RelatedToAny(q, conflicts))
    && (forall c | c in conflicts :: c in BlockedReplacements(current, desired) || Explained(current, done, c))
  }

  /** c was met while rechecking some removal. */
  ghost predicate Explained(current: Snapshot, done: set<Path>, c: Path) {
    exists q | q in done :: Affected(q, IsDirectory(current.entries, q), c)
  }

  lemma RemovalSkipped(
    current: Snapshot, desired: Snapshot, done: set<Path>, expected: Tree, conflicts: set<Path>, found: set<Path>,
    p: Path)
    requires Removing(current, desired, done, expected, conflicts)
    requires RelatedToAny(p, conflicts + found)
    requires forall d | d in found :: Affected(p, IsDirectory(current.entries, p), d)
    ensures Removing(current, desired, done + {p}, expected, conflicts + found)
  {
    forall q | q in done + {p} ensures q !in expected || RelatedToAny(q, conflicts + found) {
      if q in expected && q != p {
        var c :| c in conflicts && Related(q, c);
        assert c in conflicts + found;
      }
    }
    forall c | c in conflicts + found
      ensures c in BlockedReplacements(current, desired) || Explained(current, done + {p}, c)
    {
      if c !in found && Explained(current, done, c) {
        var q :| q in done && Affected(q, IsDirectory(current.entries, q), c);
        assert q in done + {p};
      }
    }
  }

  /** Whatever is still expected below a removal has a conflict that concerns the removal as well. */
  lemma NothingExpectedBelowRemoval(
    current: Snapshot, desired: Snapshot, done: set<Path>, expected: Tree, conflicts: set<Path>, p: Path, q: Path)
    requires SharesExclusions(current, desired) && Removing(current, desired, done, expected, conflicts)
    requires p in Removals(current, desired) && IsDirectory(current.entries, p)
    requires forall q | q in Removals(current, desired) && |q| > |p| :: q in done
    requires !RelatedToAny(p, conflicts) && p < q
    ensures q !in expected
  {
    if q in expected {
      assert Get(expected, q) == Get(current.entries, q) && ValidPath(p);
      assert StrictlyAbove(p, q);
      RemovalTakesVisibleSubtree(current, desired, p, q);
      var c :| c in conflicts && Related(q, c);
      if c <= q { AboveSamePathAreRelated(p, c, q); }
    }
  }

  lemma RemovalIsLegalNow(
    current: Snapshot, desired: Snapshot, done: set<Path>, expected: Tree, conflicts: set<Path>, live: Tree, p: Path)
    requires SharesExclusions(current, desired) && Removing(current, desired, done, expected, conflicts)
    requires WellFormed(live)
    requires p in Removals(current, desired) && p !in done && !RelatedToAny(p, conflicts)
    requires forall q | q in Removals(current, desired) && |q| > |p| :: q in done
    requires DifferencesAround(
      current.(entries := expected), live, p, IsDirectory(current.entries, p)) == {}
    ensures !IsDirectory(current.entries, p) ==> IsFile(live, p)
    ensures IsDirectory(current.entries, p) ==>
      IsDirectory(live, p) && (forall q | q in live :: !(p < q)) && forall q | q in expected :: !(p < q)
  {
    RemovalPathFacts(current, desired, p);
    assert Get(live, p) == Get(current.entries, p) by {
      assert Get(expected, p) == Get(current.entries, p);
      DifferencesAreListed(current.(entries := expected), live, p, IsDirectory(current.entries, p), p);
    }
    if IsDirectory(current.entries, p) {
      forall q | q in expected ensures !(p < q) {
        if p < q { NothingExpectedBelowRemoval(current, desired, done, expected, conflicts, p, q); }
      }
      LiveSubtreeIsEmpty(current, expected, live, p);
    }
  }

  lemma RemovalPathFacts(current: Snapshot, desired: Snapshot, p: Path)
    requires SharesExclusions(current, desired) && p in Removals(current, desired)
    ensures p in current.entries && p != [] && !ShouldExclude(p, current.runtimeExclusions)
    ensures current.entries[p].Directory? == IsDirectory(current.entries, p)
    ensures IsDirectory(current.entries, p) ==> p !in current.excludedAncestors
  {
  }

  lemma LiveSubtreeIsEmpty(current: Snapshot, expected: Tree, live: Tree, p: Path)
    requires WellFormed(live) && p != [] && !ShouldExclude(p, current.runtimeExclusions)
    requires p !in current.excludedAncestors && forall q | q in expected :: !(p < q)
    requires DifferencesAround(current.(entries := expected), live, p, true) == {}
    ensures forall q | q in live :: !(p < q)
  {
    var basis := current.(entries := expected);
    forall q | q in live ensures !(p < q) {
      if p < q {
        DifferencesAreListed(basis, live, p, true, p);
        DifferencesAreListed(basis, live, p, true, q);
        if ShouldExclude(q, current.runtimeExclusions) {
          HiddenStateHasRecordedAncestors(live, current.runtimeExclusions, p, q);
        }
      }
    }
  }

  lemma RemovalPerformed(
    current: Snapshot, desired: Snapshot, done: set<Path>, expected: Tree, conflicts: set<Path>, p: Path)
    requires Removing(current, desired, done, expected, conflicts)
    ensures Removing(current, desired, done + {p}, expected - {p}, conflicts)
  {
    var after := expected - {p};
    forall q ensures Get(after, q) == Get(current.entries, q) || (q in done + {p} && q !in after) {
      assert Get(expected, q) == Get(current.entries, q) || (q in done && q !in expected);
    }
    forall c | c in conflicts
      ensures c in BlockedReplacements(current, desired) || Explained(current, done + {p}, c)
    {
      if Explained(current, done, c) {
        var q :| q in done && Affected(q, IsDirectory(current.entries, q), c);
        assert q in done + {p};
      }
    }
  }

  // ---------- new directories ----------

  /** After the directories in made: each is expected or has a conflict at or above it. */
  ghost predicate Making(
    gone: Tree, early: set<Path>, made: set<Path>, expected: Tree, conflicts: set<Path>)
  {
    && (forall q :: Get(expected, q) == Get(gone, q) || (q in made && IsDirectory(expected, q)))
    && (forall q | q in made :: IsDirectory(expected, q) || Overshadowed(q, conflicts))
    && early <= conflicts
    && (forall c | c in conflicts && c !in early :: AboveSome(c, made))
  }

  ghost predicate AboveSome(c: Path, paths: set<Path>) {
    exists d | d in paths :: c <= d
  }

  ghost predicate Overshadowed(p: Path, conflicts: set<Path>) {
    exists c | c in conflicts :: c <= p
  }

  lemma DirectorySkipped(
    gone: Tree, early: set<Path>, made: set<Path>, expected: Tree, conflicts: set<Path>, found: set<Path>, p: Path)
    requires Making(gone, early, made, expected, conflicts)
    requires forall d | d in found :: d <= p
    requires found != {} || Overshadowed(p, conflicts)
    ensures Making(gone, early, made + {p}, expected, conflicts + found)
  {
    forall q | q in made + {p} ensures IsDirectory(expected, q) || Overshadowed(q, conflicts + found) {
      if Overshadowed(q, conflicts) {
        var c :| c in conflicts && c <= q;
        assert c in conflicts + found;
      } else if q !in made {
        var c :| c in found;
        assert c in conflicts + found;
      }
    }
    forall c | c in conflicts + found && c !in early ensures AboveSome(c, made + {p}) {
      AboveSomeGrows(c, made, p);
      assert p in made + {p};
    }
  }

  lemma AboveSomeGrows(c: Path, made: set<Path>, p: Path)
    ensures AboveSome(c, made) ==> AboveSome(c, made + {p})
  {
    if AboveSome(c, made) {
      var d :| d in made && c <= d;
      assert d in made + {p};
    }
  }

  lemma NoEarlyConflictBelowNewDirectory(
    current: Snapshot, desired: Snapshot, gone: Tree, early: set<Path>, p: Path, c: Path)
    requires SharesExclusions(current, desired)
    requires Removing(current, desired, Removals(current, desired), gone, early)
    requires p in NewDirectories(current, desired) && c in early
    ensures !(p < c)
  {
    assert ValidPath(p);
    if p < c {
      if c in BlockedReplacements(current, desired) {
        BlockedAreDirectories(current, desired, c);
        AncestorIsDirectory(current.entries, p, c);
      } else {
        var q :| q in Removals(current, desired) && Affected(q, IsDirectory(current.entries, q), c);
        assert ValidPath(q);
        if c <= q {
          AncestorIsDirectory(current.entries, p, q);
        } else {
          AboveSamePathAreRelated(p, q, c);
          if |q| < |p| {
            AncestorIsDirectory(desired.entries, q, p);
          } else if p != q {
            AncestorIsDirectory(current.entries, p, q);
          }
        }
      }
    }
  }

  /** A conflict related to a new directory lies at or above it. */
  lemma DirectoryConflictsLieAbove(
    current: Snapshot, desired: Snapshot, gone: Tree, early: set<Path>, made: set<Path>, expected: Tree,
    conflicts: set<Path>, p: Path)
    requires SharesExclusions(current, desired)
    requires Removing(current, desired, Removals(current, desired), gone, early)
    requires Making(gone, early, made, expected, conflicts)
    requires p in NewDirectories(current, desired) && RelatedToAny(p, conflicts)
    requires forall q | q in made :: |q| <= |p|
    ensures Overshadowed(p, conflicts)
  {
    var c :| c in conflicts && Related(p, c);
    if c in early {
      NoEarlyConflictBelowNewDirectory(current, desired, gone, early, p, c);
    } else {
      var d :| d in made && c <= d;
    }
    assert c <= p;
  }

  lemma StillExpectedAbove(
    current: Snapshot, desired: Snapshot, gone: Tree, early: set<Path>, made: set<Path>, expected: Tree,
    conflicts: set<Path>, p: Path)
    requires SharesExclusions(current, desired)
    requires Removing(current, desired, Removals(current, desired), gone, early)
    requires Making(gone, early, made, expected, conflicts)
    requires p in desired.entries && !RelatedToAny(p, conflicts) && |p| > 1
    requires forall q | q in NewDirectories(current, desired) && |q| < |p| :: q in made
    ensures IsDirectory(expected, p[..|p| - 1])
  {
    var parent := p[..|p| - 1];
    AncestorIsDirectory(desired.entries, parent, p);
    assert Get(gone, parent) == Get(current.entries, parent) || parent in Removals(current, desired);
    assert Get(expected, parent) == Get(gone, parent) || (parent in made && IsDirectory(expected, parent));
    if parent in NewDirectories(current, desired) && !IsDirectory(expected, parent) {
      var c :| c in conflicts && c <= parent;
      assert Related(p, c);
    }
  }

  lemma DirectoryIsLegalNow(
    current: Snapshot, desired: Snapshot, gone: Tree, early: set<Path>, made: set<Path>, expected: Tree,
    conflicts: set<Path>, live: Tree, p: Path)
    requires SharesExclusions(current, desired)
    requires Removing(current, desired, Removals(current, desired), gone, early)
    requires Making(gone, early, made, expected, conflicts)
    requires p in NewDirectories(current, desired) && p !in made && !RelatedToAny(p, conflicts)
    requires forall q | q in NewDirectories(current, desired) && |q| < |p| :: q in made
    requires DifferencesAround(current.(entries := expected), live, p, false) == {}
    ensures Legal(live, MakeDirectory(p))
  {
    NotExpectedYet(current, desired, gone, early, made, expected, conflicts, p);
    if |p| > 1 {
      StillExpectedAbove(current, desired, gone, early, made, expected, conflicts, p);
    }
    AgreesWithLive(current, expected, live, p);
  }

  lemma NotExpectedYet(
    current: Snapshot, desired: Snapshot, gone: Tree, early: set<Path>, made: set<Path>, expected: Tree,
    conflicts: set<Path>, p: Path)
    requires SharesExclusions(current, desired)
    requires Removing(current, desired, Removals(current, desired), gone, early)
    requires Making(gone, early, made, expected, conflicts)
    requires p in NewDirectories(current, desired) && p !in made && !RelatedToAny(p, conflicts)
    ensures ValidPath(p) && p !in expected
  {
    UnrelatedToFewer(p, early, conflicts);
    assert Get(expected, p) == Get(gone, p);
    assert Get(gone, p) == Get(current.entries, p) || p !in gone;
    assert p in current.entries ==> p in Removals(current, desired);
  }

  lemma AgreesWithLive(current: Snapshot, expected: Tree, live: Tree, p: Path)
    requires p != [] && DifferencesAround(current.(entries := expected), live, p, false) == {}
    ensures Get(live, p) == Get(expected, p)
    ensures |p| > 1 ==> Get(live, p[..|p| - 1]) == Get(expected, p[..|p| - 1])
  {
    DifferencesAreListed(current.(entries := expected), live, p, false, p);
    DifferencesAreListed(current.(entries := expected), live, p, false, p[..|p| - 1]);
  }

  lemma DirectoryPerformed(
    gone: Tree, early: set<Path>, made: set<Path>, expected: Tree, conflicts: set<Path>, p: Path)
    requires Making(gone, early, made, expected, conflicts)
    ensures Making(gone, early, made + {p}, expected[p := Directory], conflicts)
  {
    var after := expected[p := Directory];
    forall q ensures Get(after, q) == Get(gone, q) || (q in made + {p} && IsDirectory(after, q)) {
      assert Get(expected, q) == Get(gone, q) || (q in made && IsDirectory(expected, q));
    }
    forall c | c in conflicts && c !in early ensures AboveSome(c, made + {p}) {
      AboveSomeGrows(c, made, p);
    }
  }

  // ---------- files ----------

  /** After the files in written: each is expected with its new contents or explained by a conflict. */
  ghost predicate Writing(
    desired: Tree, ready: Tree, early: set<Path>, written: set<Path>, expected: Tree, conflicts: set<Path>)
  {
    && (forall q :: Get(expected, q) == Get(ready, q) || (q in written && Get(expected, q) == Get(desired, q)))
    && (forall q | q in written :: Get(expected, q) == Get(desired, q) || RelatedToAny(q, conflicts))
    && early <= conflicts
  }

  lemma FileSkipped(
    desired: Tree, ready: Tree, early: set<Path>, written: set<Path>, expected: Tree, conflicts: set<Path>,
    found: set<Path>, p: Path)
    requires Writing(desired, ready, early, written, expected, conflicts)
    requires RelatedToAny(p, conflicts + found)
    ensures Writing(desired, ready, early, written + {p}, expected, conflicts + found)
  {
    forall q | q in written + {p} ensures Get(expected, q) == Get(desired, q) || RelatedToAny(q, conflicts + found) {
      if q != p && RelatedToAny(q, conflicts) {
        var c :| c in conflicts && Related(q, c);
        assert c in conflicts + found;
      }
    }
  }

  lemma FileConfirmed(
    current: Snapshot, desired: Snapshot, gone: Tree, early: set<Path>, ready: Tree, late: set<Path>,
    written: set<Path>, expected: Tree, conflicts: set<Path>, live: Tree, p: Path)
    requires SharesExclusions(current, desired)
    requires Removing(current, desired, Removals(current, desired), gone, early)
    requires Making(gone, early, NewDirectories(current, desired), ready, late)
    requires written <= ChangedFiles(current, desired)
    requires Writing(desired.entries, ready, late, written, expected, conflicts)
    requires p in ChangedFiles(current, desired) && p !in written && !RelatedToAny(p, conflicts)
    requires DifferencesAround(current.(entries := expected), live, p, false) == {}
    ensures IsFile(expected, p) ==> IsFile(live, p)
    ensures !IsFile(expected, p) ==> Legal(live, CreateRegular(p, desired.entries[p].bytes))
    ensures Writing(desired.entries, ready, late, written + {p}, expected[p := desired.entries[p]], conflicts)
  {
    assert ValidPath(p);
    AgreesWithLive(current, expected, live, p);
    UnrelatedToFewer(p, late, conflicts);
    UnrelatedToFewer(p, early, late);
    NoDirectoryInTheWay(current, desired, gone, early, ready, late, p);
    assert Get(expected, p) == Get(ready, p);
    if |p| > 1 {
      var parent := p[..|p| - 1];
      StillExpectedAbove(
        current, desired, gone, early, NewDirectories(current, desired), ready, late, p);
      AncestorIsDirectory(desired.entries, parent, p);
      assert Get(expected, parent) == Get(ready, parent);
    }
    WrittenAgrees(desired.entries, ready, late, written, expected, conflicts, p);
  }

  lemma NoDirectoryInTheWay(
    current: Snapshot, desired: Snapshot, gone: Tree, early: set<Path>, ready: Tree, late: set<Path>, p: Path)
    requires SharesExclusions(current, desired)
    requires Removing(current, desired, Removals(current, desired), gone, early)
    requires Making(gone, early, NewDirectories(current, desired), ready, late)
    requires p in ChangedFiles(current, desired) && !RelatedToAny(p, early)
    ensures !IsDirectory(ready, p)
  {
    assert Get(ready, p) == Get(gone, p) || p in NewDirectories(current, desired);
    assert Get(gone, p) == Get(current.entries, p) || p !in gone;
    assert IsDirectory(current.entries, p) ==> p in Removals(current, desired);
  }

  lemma WrittenAgrees(
    desired: Tree, ready: Tree, late: set<Path>, written: set<Path>, expected: Tree, conflicts: set<Path>, p: Path)
    requires Writing(desired, ready, late, written, expected, conflicts) && p in desired
    ensures Writing(desired, ready, late, written + {p}, expected[p := desired[p]], conflicts)
  {
    var after := expected[p := desired[p]];
    forall q ensures Get(after, q) == Get(ready, q) || (q in written + {p} && Get(after, q) == Get(desired, q)) {
      assert Get(expected, q) == Get(ready, q) || (q in written && Get(expected, q) == Get(desired, q));
    }
  }

  lemma EverythingSettled(
    current: Snapshot, desired: Snapshot, gone: Tree, early: set<Path>, ready: Tree, late: set<Path>,
    expected: Tree, conflicts: set<Path>)
    requires SharesExclusions(current, desired)
    requires Removing(current, desired, Removals(current, desired), gone, early)
    requires Making(gone, early, NewDirectories(current, desired), ready, late)
    requires Writing(desired.entries, ready, late, ChangedFiles(current, desired), expected, conflicts)
    requires BlockedReplacements(current, desired) <= conflicts
    ensures ReachesGoalOutside(current, desired, expected, conflicts)
  {
    forall p | !RelatedToAny(p, conflicts) ensures Get(expected, p) == Goal(current, desired, p) {
      assert Related(p, p);
      UnrelatedToFewer(p, late, conflicts);
      UnrelatedToFewer(p, early, late);
      assert Get(gone, p) == Get(current.entries, p) || p !in gone;
      assert Get(ready, p) == Get(gone, p) || IsDirectory(ready, p);
      assert Get(expected, p) == Get(ready, p) || Get(expected, p) == Get(desired.entries, p);
      assert Overshadowed(p, late) ==> RelatedToAny(p, late);
    }
  }

  // ---------- the run ----------

  method Recheck(fs: FileSystem, expected: Snapshot, path: Path, whole: bool)
    returns (found: set<Path>, ghost check: Event)
    requires fs.Valid() && path != [] && !ShouldExclude(path, expected.runtimeExclusions)
    requires ValidPaths(expected.entries.Keys) && ValidPaths(expected.excludedAncestors)
    modifies fs
    ensures fs.Valid()
    ensures check == Checked(path, whole, old(fs.tree), fs.tree) && fs.log == old(fs.log) + [check]
    ensures found == DifferencesAround(expected, fs.tree, path, whole)
  {
    ghost var before := fs.tree;
    fs.BeforeMutation(path, whole);
    check := Checked(path, whole, before, fs.tree);
    var live := SnapshotVfsBranch(fs.tree, path, whole, expected.runtimeExclusions);
    found := AffectedDifferences(expected, live, path, whole, fs.tree);
  }

  lemma RefusalTracked(
    current: Snapshot, desired: Snapshot, t: Tree, run: seq<Event>, check: Event, expected: Tree,
    conflicts: set<Path>, found: set<Path>)
    requires check.Checked? && Tracks(current, desired, t, run, check.before, expected, conflicts)
    requires check.path != [] && !ShouldExclude(check.path, current.runtimeExclusions) && found != {}
    requires found == DifferencesAround(current.(entries := expected), check.after, check.path, check.whole)
    ensures Tracks(current, desired, t, run + [check], check.after, expected, conflicts + found)
  {
    RunExtends(current.entries, t, run, check, check.after);
    RefusalExtends(current, desired, run, check);
  }

  lemma MutationTracked(
    current: Snapshot, desired: Snapshot, t: Tree, run: seq<Event>, check: Event, op: Op, expected: Tree,
    conflicts: set<Path>)
    requires check.Checked? && Tracks(current, desired, t, run, check.before, expected, conflicts)
    requires check.path == op.path && check.whole == op.RemoveDirectory?
    requires DifferencesAround(current.(entries := expected), check.after, check.path, check.whole) == {}
    requires Legal(check.after, op) && Aims(current, desired, op)
    ensures Tracks(current, desired, t, run + [check, Did(op, check.after)], Effect(check.after, op),
                   Effect(expected, op), conflicts)
  {
    var did := Did(op, check.after);
    RunExtends(current.entries, t, run, check, check.after);
    RunExtends(current.entries, t, run + [check], did, Effect(check.after, op));
    assert run + [check] + [did] == run + [check, did];
    MutationExtends(current, desired, run, check, did);
  }

  lemma RemovingPathsAreValid(
    current: Snapshot, desired: Snapshot, done: set<Path>, expected: Tree, conflicts: set<Path>)
    requires SharesExclusions(current, desired) && Removing(current, desired, done, expected, conflicts)
    ensures ValidPaths(expected.Keys) && ValidPaths(current.excludedAncestors)
  {
    forall q | q in expected ensures ValidPath(q) {
      assert Get(expected, q) == Get(current.entries, q);
    }
  }

  lemma RemovalRefused(
    current: Snapshot, desired: Snapshot, t: Tree, run: seq<Event>, check: Event, expected: Tree, conflicts: set<Path>,
    found: set<Path>, done: set<Path>, p: Path)
    requires SharesExclusions(current, desired) && p in Removals(current, desired) && ValidPaths(conflicts)
    requires check.Checked? && check.path == p
    requires check.whole == IsDirectory(current.entries, p)
    requires WellFormed(check.after)
    requires Tracks(current, desired, t, run, check.before, expected, conflicts)
    requires Removing(current, desired, done, expected, conflicts)
    requires found == DifferencesAround(current.(entries := expected), check.after, p, check.whole) && found != {}
    ensures ValidPaths(conflicts + found)
    ensures Tracks(current, desired, t, run + [check], check.after, expected, conflicts + found)
    ensures Removing(current, desired, done + {p}, expected, conflicts + found)
  {
    RemovalPathFacts(current, desired, p);
    RemovingPathsAreValid(current, desired, done, expected, conflicts);
    FoundAreAffected(current.(entries := expected), check.after, p, check.whole);
    var d :| d in found;
    assert d in conflicts + found && Related(p, d);
    RemovalSkipped(current, desired, done, expected, conflicts, found, p);
    RefusalTracked(current, desired, t, run, check, expected, conflicts, found);
  }

  lemma RemovalGranted(
    current: Snapshot, desired: Snapshot, t: Tree, run: seq<Event>, check: Event, expected: Tree, conflicts: set<Path>,
    done: set<Path>, op: Op)
    requires SharesExclusions(current, desired) && op.path in Removals(current, desired) && op.path !in done
    requires op == if IsDirectory(current.entries, op.path) then RemoveDirectory(op.path) else RemoveRegular(op.path)
    requires forall q | q in Removals(current, desired) && |q| > |op.path| :: q in done
    requires check.Checked? && check.path == op.path && check.whole == op.RemoveDirectory? && WellFormed(check.after)
    requires Tracks(current, desired, t, run, check.before, expected, conflicts)
    requires Removing(current, desired, done, expected, conflicts) && !RelatedToAny(op.path, conflicts)
    requires DifferencesAround(current.(entries := expected), check.after, op.path, check.whole) == {}
    ensures Legal(check.after, op)
    ensures op.RemoveDirectory? ==> WithoutSubtree(expected, op.path) == expected - {op.path}
    ensures Tracks(current, desired, t, run + [check, Did(op, check.after)], Effect(check.after, op),
                   expected - {op.path}, conflicts)
    ensures Removing(current, desired, done + {op.path}, expected - {op.path}, conflicts)
  {
    hide *;
    BlockedAreReported(current, desired, t, run, check.before, expected, conflicts);
    RemovalIsLegalNow(current, desired, done, expected, conflicts, check.after, op.path);
    RemovalOpFits(current, desired, expected, conflicts, check.after, op);
    RemovalPerformed(current, desired, done, expected, conflicts, op.path);
    MutationTracked(current, desired, t, run, check, op, expected, conflicts);
  }

  lemma RemovalOpFits(
    current: Snapshot, desired: Snapshot, expected: Tree, conflicts: set<Path>, live: Tree, op: Op)
    requires op.path in Removals(current, desired)
    requires op == if IsDirectory(current.entries, op.path) then RemoveDirectory(op.path) else RemoveRegular(op.path)
    requires BlockedReplacements(current, desired) <= conflicts && !RelatedToAny(op.path, conflicts)
    requires !IsDirectory(current.entries, op.path) ==> IsFile(live, op.path)
    requires IsDirectory(current.entries, op.path) ==>
      && IsDirectory(live, op.path) && (forall q | q in live :: !(op.path < q))
      && forall q | q in expected :: !(op.path < q)
    ensures Legal(live, op) && Effect(expected, op) == expected - {op.path} && Aims(current, desired, op)
    ensures op.RemoveDirectory? ==> WithoutSubtree(expected, op.path) == expected - {op.path}
  {
    UnrelatedToFewer(op.path, BlockedReplacements(current, desired), conflicts);
    if op.RemoveDirectory? {
      forall q ensures Get(WithoutSubtree(expected, op.path), q) == Get(expected - {op.path}, q) {
        if q in expected && op.path <= q { assert q == op.path; }
      }
      SameEverywhere(WithoutSubtree(expected, op.path), expected - {op.path});
    }
  }

  /** One removal: skipped, refused or performed. */
  method RemoveOneRechecked(
    fs: FileSystem, current: Snapshot, desired: Snapshot, path: Path, expected: Tree, conflicts: set<Path>,
    ghost done: set<Path>, ghost t: Tree, ghost log: seq<Event>, ghost run: seq<Event>)
    returns (expected': Tree, conflicts': set<Path>, ghost run': seq<Event>)
    requires fs.Valid() && SharesExclusions(current, desired) && fs.log == log + run && ValidPaths(conflicts)
    requires Tracks(current, desired, t, run, fs.tree, expected, conflicts)
    requires Removing(current, desired, done, expected, conflicts)
    requires path in Removals(current, desired) && path !in done
    requires forall q | q in Removals(current, desired) && |q| > |path| :: q in done
    modifies fs
    ensures fs.Valid() && fs.log == log + run' && ValidPaths(conflicts')
    ensures Tracks(current, desired, t, run', fs.tree, expected', conflicts')
    ensures Removing(current, desired, done + {path}, expected', conflicts')
  {
    hide *;
    expected', conflicts', run' := expected, conflicts, run;
    RemovingPathsAreValid(current, desired, done, expected, conflicts);
    RemovalPathFacts(current, desired, path);
    var isDirectory := current.entries[path].Directory?;
    var related := HasAncestorOrDescendant(path, conflicts);
    if related {
      assert conflicts + {} == conflicts;
      RemovalSkipped(current, desired, done, expected, conflicts, {}, path);
      return;
    }
    var found, check := Recheck(fs, current.(entries := expected), path, isDirectory);
    if found != {} {
      RemovalRefused(current, desired, t, run, check, expected, conflicts, found, done, path);
      conflicts', run' := conflicts + found, run + [check];
      return;
    }
    ghost var op := if isDirectory then RemoveDirectory(path) else RemoveRegular(path);
    RemovalGranted(current, desired, t, run, check, expected, conflicts, done, op);
    run' := run + [check, Did(op, fs.tree)];
    if isDirectory {
      fs.RemoveDir(path);
      expected' := RemoveSubtreeEntries(expected, path);
    } else {
      fs.RemoveFile(path);
      expected' := expected - {path};
    }
  }

  lemma NextRemoval(r: seq<Path>, paths: set<Path>, i: nat)
    requires Lists(r, paths, DeepFirst) && i < |r|
    ensures r[i] in paths && r[i] !in Members(r[..i]) && Members(r[..i + 1]) == Members(r[..i]) + {r[i]}
    ensures forall q | q in paths && |q| > |r[i]| :: q in Members(r[..i])
  {
    hide Lists;
    NextIsNew(r, paths, DeepFirst, i);
    DeeperAreDone(r, paths, i);
  }

  method RemoveStaleRechecked(fs: FileSystem, current: Snapshot, desired: Snapshot)
    returns (expected: Tree, conflicts: set<Path>, ghost run: seq<Event>)
    requires fs.Valid() && SharesExclusions(current, desired)
    modifies fs
    ensures fs.Valid() && fs.log == old(fs.log) + run && ValidPaths(conflicts)
    ensures Tracks(current, desired, old(fs.tree), run, fs.tree, expected, conflicts)
    ensures Removing(current, desired, Removals(current, desired), expected, conflicts)
  {
    hide *;
    ghost var t, log := fs.tree, fs.log;
    expected, conflicts, run := current.entries, BlockedReplacements(current, desired), [];
    NothingDoneYet(current, desired, t);
    var removals := InOrder(Removals(current, desired), DeepFirst);
    NoneYet(removals);
    for i := 0 to |removals|
      invariant fs.Valid() && fs.log == log + run && ValidPaths(conflicts)
      invariant Tracks(current, desired, t, run, fs.tree, expected, conflicts)
      invariant Removing(current, desired, Members(removals[..i]), expected, conflicts)
    {
      NextRemoval(removals, Removals(current, desired), i);
      expected, conflicts, run := RemoveOneRechecked(
        fs, current, desired, removals[i], expected, conflicts, Members(removals[..i]), t, log, run);
    }
    AllOfThem(removals, Removals(current, desired), DeepFirst);
  }

  lemma FoundAreAffected(expected: Snapshot, live: Tree, path: Path, whole: bool)
    requires path != [] && ValidPaths(expected.entries.Keys)
    requires ValidPaths(expected.excludedAncestors) && WellFormed(live)
    ensures forall d | d in DifferencesAround(expected, live, path, whole) ::
              Affected(path, whole, d) && Related(path, d) && ValidPath(d)
  {
  }

  lemma MakingPathsAreValid(
    current: Snapshot, desired: Snapshot, gone: Tree, early: set<Path>, made: set<Path>, expected: Tree,
    conflicts: set<Path>)
    requires SharesExclusions(current, desired) && made <= NewDirectories(current, desired)
    requires Removing(current, desired, Removals(current, desired), gone, early)
    requires Making(gone, early, made, expected, conflicts)
    ensures ValidPaths(expected.Keys) && ValidPaths(current.excludedAncestors)
  {
    RemovingPathsAreValid(current, desired, Removals(current, desired), gone, early);
    forall q | q in expected ensures ValidPath(q) {
      assert Get(expected, q) == Get(gone, q) || q in made;
    }
  }

  lemma NewDirectoryPathFacts(current: Snapshot, desired: Snapshot, p: Path)
    requires SharesExclusions(current, desired) && p in NewDirectories(current, desired)
    ensures p != [] && !ShouldExclude(p, current.runtimeExclusions)
  {
  }

  lemma DirectoryRefused(
    current: Snapshot, desired: Snapshot, t: Tree, run: seq<Event>, check: Event, expected: Tree, conflicts: set<Path>,
    found: set<Path>, gone: Tree, early: set<Path>, made: set<Path>, p: Path)
    requires SharesExclusions(current, desired) && p in NewDirectories(current, desired) && ValidPaths(conflicts)
    requires made <= NewDirectories(current, desired)
    requires check.Checked? && check.path == p && !check.whole && WellFormed(check.after)
    requires Tracks(current, desired, t, run, check.before, expected, conflicts)
    requires Removing(current, desired, Removals(current, desired), gone, early)
    requires Making(gone, early, made, expected, conflicts)
    requires found == DifferencesAround(current.(entries := expected), check.after, p, false) && found != {}
    ensures ValidPaths(conflicts + found)
    ensures Tracks(current, desired, t, run + [check], check.after, expected, conflicts + found)
    ensures Making(gone, early, made + {p}, expected, conflicts + found)
  {
    NewDirectoryPathFacts(current, desired, p);
    MakingPathsAreValid(current, desired, gone, early, made, expected, conflicts);
    FoundAreAffected(current.(entries := expected), check.after, p, false);
    DirectorySkipped(gone, early, made, expected, conflicts, found, p);
    RefusalTracked(current, desired, t, run, check, expected, conflicts, found);
  }

  lemma DirectoryGranted(
    current: Snapshot, desired: Snapshot, t: Tree, run: seq<Event>, check: Event, expected: Tree, conflicts: set<Path>,
    gone: Tree, early: set<Path>, made: set<Path>, p: Path)
    requires SharesExclusions(current, desired) && p in NewDirectories(current, desired) && p !in made
    requires forall q | q in NewDirectories(current, desired) && |q| < |p| :: q in made
    requires check.Checked? && check.path == p && !check.whole && WellFormed(check.after)
    requires Tracks(current, desired, t, run, check.before, expected, conflicts)
    requires Removing(current, desired, Removals(current, desired), gone, early)
    requires Making(gone, early, made, expected, conflicts) && !RelatedToAny(p, conflicts)
    requires DifferencesAround(current.(entries := expected), check.after, p, false) == {}
    ensures Legal(check.after, MakeDirectory(p))
    ensures Tracks(current, desired, t, run + [check, Did(MakeDirectory(p), check.after)],
                   Effect(check.after, MakeDirectory(p)), expected[p := Directory], conflicts)
    ensures Making(gone, early, made + {p}, expected[p := Directory], conflicts)
  {
    DirectoryIsLegalNow(current, desired, gone, early, made, expected, conflicts, check.after, p);
    DirectoryPerformed(gone, early, made, expected, conflicts, p);
    UnrelatedToFewer(p, BlockedReplacements(current, desired), conflicts);
    MutationTracked(current, desired, t, run, check, MakeDirectory(p), expected, conflicts);
  }

  /** One new directory: skipped, refused or made. */
  method MakeOneRechecked(
    fs: FileSystem, current: Snapshot, desired: Snapshot, path: Path, expected: Tree, conflicts: set<Path>,
    ghost gone: Tree, ghost early: set<Path>, ghost made: set<Path>, ghost t: Tree, ghost log: seq<Event>,
    ghost run: seq<Event>)
    returns (expected': Tree, conflicts': set<Path>, ghost run': seq<Event>)
    requires fs.Valid() && SharesExclusions(current, desired) && fs.log == log + run && ValidPaths(conflicts)
    requires Tracks(current, desired, t, run, fs.tree, expected, conflicts)
    requires Removing(current, desired, Removals(current, desired), gone, early)
    requires Making(gone, early, made, expected, conflicts) && made <= NewDirectories(current, desired)
    requires path in NewDirectories(current, desired) && path !in made
    requires forall q | q in NewDirectories(current, desired) && |q| < |path| :: q in made
    requires forall q | q in made :: |q| <= |path|
    modifies fs
    ensures fs.Valid() && fs.log == log + run' && ValidPaths(conflicts')
    ensures Tracks(current, desired, t, run', fs.tree, expected', conflicts')
    ensures Making(gone, early, made + {path}, expected', conflicts')
  {
    hide *;
    expected', conflicts', run' := expected, conflicts, run;
    MakingPathsAreValid(current, desired, gone, early, made, expected, conflicts);
    var related := HasAncestorOrDescendant(path, conflicts);
    if related {
      DirectoryConflictsLieAbove(current, desired, gone, early, made, expected, conflicts, path);
      DirectorySkipped(gone, early, made, expected, conflicts, {}, path);
      assert conflicts + {} == conflicts;
      return;
    }
    NewDirectoryPathFacts(current, desired, path);
    var found, check := Recheck(fs, current.(entries := expected), path, false);
    if found != {} {
      DirectoryRefused(current, desired, t, run, check, expected, conflicts, found, gone, early, made, path);
      conflicts', run' := conflicts + found, run + [check];
      return;
    }
    DirectoryGranted(current, desired, t, run, check, expected, conflicts, gone, early, made, path);
    run' := run + [check, Did(MakeDirectory(path), fs.tree)];
    fs.AddDir(path);
    expected' := expected[path := Directory];
  }

  lemma NextDirectory(r: seq<Path>, paths: set<Path>, i: nat)
    requires Lists(r, paths, ShallowFirst) && i < |r|
    ensures r[i] in paths && r[i] !in Members(r[..i]) && Members(r[..i + 1]) == Members(r[..i]) + {r[i]}
    ensures forall q | q in paths && |q| < |r[i]| :: q in Members(r[..i])
    ensures forall q | q in Members(r[..i]) :: q in paths && |q| <= |r[i]|
  {
    NextIsNew(r, paths, ShallowFirst, i);
    ShallowerAreDone(r, paths, i);
    forall q | q in Members(r[..i]) ensures q in paths && |q| <= |r[i]| {
      assert q in r[..i] && q in r;
    }
  }

  method CreateDirectoriesRechecked(
    fs: FileSystem, current: Snapshot, desired: Snapshot, gone: Tree, early: set<Path>,
    ghost t: Tree, ghost log: seq<Event>, ghost before: seq<Event>)
    returns (expected: Tree, conflicts: set<Path>, ghost run: seq<Event>)
    requires fs.Valid() && SharesExclusions(current, desired) && fs.log == log + before && ValidPaths(early)
    requires Tracks(current, desired, t, before, fs.tree, gone, early)
    requires Removing(current, desired, Removals(current, desired), gone, early)
    modifies fs
    ensures fs.Valid() && fs.log == log + run && ValidPaths(conflicts)
    ensures Tracks(current, desired, t, run, fs.tree, expected, conflicts)
    ensures Making(gone, early, NewDirectories(current, desired), expected, conflicts)
  {
    hide *;
    expected, conflicts, run := gone, early, before;
    NothingMadeYet(gone, early);
    var directories := InOrder(NewDirectories(current, desired), ShallowFirst);
    NoneYet(directories);
    for i := 0 to |directories|
      invariant fs.Valid() && fs.log == log + run && ValidPaths(conflicts)
      invariant Tracks(current, desired, t, run, fs.tree, expected, conflicts)
      invariant Making(gone, early, Members(directories[..i]), expected, conflicts)
    {
      NextDirectory(directories, NewDirectories(current, desired), i);
      expected, conflicts, run := MakeOneRechecked(
        fs, current, desired, directories[i], expected, conflicts, gone, early, Members(directories[..i]), t, log, run);
    }
    AllOfThem(directories, NewDirectories(current, desired), ShallowFirst);
  }

  lemma WritingPathsAreValid(
    current: Snapshot, desired: Snapshot, gone: Tree, early: set<Path>, ready: Tree, late: set<Path>,
    written: set<Path>, expected: Tree, conflicts: set<Path>)
    requires SharesExclusions(current, desired) && written <= ChangedFiles(current, desired)
    requires Removing(current, desired, Removals(current, desired), gone, early)
    requires Making(gone, early, NewDirectories(current, desired), ready, late)
    requires Writing(desired.entries, ready, late, written, expected, conflicts)
    ensures ValidPaths(expected.Keys) && ValidPaths(current.excludedAncestors)
  {
    MakingPathsAreValid(current, desired, gone, early, NewDirectories(current, desired), ready, late);
    forall q | q in expected ensures ValidPath(q) {
      assert Get(expected, q) == Get(ready, q) || q in written;
    }
  }

  /** One changed file: refused, overwritten or created. */
  method WriteOneRechecked(
    fs: FileSystem, current: Snapshot, desired: Snapshot, path: Path, expected: Tree, conflicts: set<Path>,
    ghost gone: Tree, ghost early: set<Path>, ghost ready: Tree, ghost late: set<Path>, ghost written: set<Path>,
    ghost t: Tree, ghost log: seq<Event>, ghost run: seq<Event>)
    returns (expected': Tree, conflicts': set<Path>, ghost run': seq<Event>)
    requires fs.Valid() && SharesExclusions(current, desired) && fs.log == log + run && ValidPaths(conflicts)
    requires Tracks(current, desired, t, run, fs.tree, expected, conflicts)
    requires Removing(current, desired, Removals(current, desired), gone, early)
    requires Making(gone, early, NewDirectories(current, desired), ready, late)
    requires Writing(desired.entries, ready, late, written, expected, conflicts)
    requires written <= ChangedFiles(current, desired)
    requires path in ChangedFiles(current, desired) && path !in written && !RelatedToAny(path, conflicts)
    modifies fs
    ensures fs.Valid() && fs.log == log + run' && ValidPaths(conflicts')
    ensures Tracks(current, desired, t, run', fs.tree, expected', conflicts')
    ensures Writing(desired.entries, ready, late, written + {path}, expected', conflicts')
  {
    hide Removing, Making, Writing, Tracks, LegalRun, Respects, Replayed, Met, BlockedReplacements;
    expected', conflicts', run' := expected, conflicts, run;
    WritingPathsAreValid(current, desired, gone, early, ready, late, written, expected, conflicts);
    var found, check := Recheck(fs, current.(entries := expected), path, false);
    if found != {} {
      FoundAreAffected(current.(entries := expected), fs.tree, path, false);
      var d :| d in found;
      assert d in conflicts + found && Related(path, d);
      FileSkipped(desired.entries, ready, late, written, expected, conflicts, found, path);
      RefusalTracked(current, desired, t, run, check, expected, conflicts, found);
      conflicts', run' := conflicts + found, run + [check];
      return;
    }
    FileConfirmed(
      current, desired, gone, early, ready, late, written, expected, conflicts, fs.tree, path);
    BlockedAreReported(current, desired, t, run, check.before, expected, conflicts);
    UnrelatedToFewer(path, BlockedReplacements(current, desired), conflicts);
    var bytes := desired.entries[path].bytes;
    ghost var op := if IsFile(expected, path) then Overwrite(path, bytes) else CreateRegular(path, bytes);
    MutationTracked(current, desired, t, run, check, op, expected, conflicts);
    run' := run + [check, Did(op, fs.tree)];
    if IsFile(expected, path) {
      fs.WriteFile(path, bytes);
    } else {
      fs.AddFile(path, bytes);
    }
    expected' := expected[path := desired.entries[path]];
  }

  /**
   * Whatever edits happen between the steps: every primitive was legal and preceded by a clean recheck of its path,
   * the reported conflicts are the blocked replacements and all differences met, and the goal is reached elsewhere.
   */
  method ApplyVfsSnapshotRechecked(fs: FileSystem, current: Snapshot, desired: Snapshot)
    returns (conflicts: set<Path>, ghost run: seq<Event>)
    requires fs.Valid() && SharesExclusions(current, desired)
    modifies fs
    ensures fs.Valid() && fs.log == old(fs.log) + run
    ensures LegalRun(old(fs.tree), run, fs.tree) && Respects(current, desired, run)
    ensures conflicts == BlockedReplacements(current, desired) + Met(current, run)
    ensures ReachesGoalOutside(current, desired, Replayed(current.entries, run), conflicts)
  {
    hide Removing, Making, Writing, LegalRun, Respects, Replayed, Met, ReachesGoalOutside;
    ghost var t, log := fs.tree, fs.log;
    var gone, early;
    gone, early, run := RemoveStaleRechecked(fs, current, desired);
    var ready, late;
    ready, late, run := CreateDirectoriesRechecked(fs, current, desired, gone, early, t, log, run);
    var expected := ready;
    conflicts := late;
    var paths := InOrder(desired.entries.Keys, Lexicographic);
    ghost var written := {};
    NothingWrittenYet(desired.entries, ready, late);
    for i := 0 to |paths|
      invariant fs.Valid() && fs.log == log + run && ValidPaths(conflicts)
      invariant written == Members(paths[..i]) * ChangedFiles(current, desired)
      invariant Tracks(current, desired, t, run, fs.tree, expected, conflicts)
      invariant Writing(desired.entries, ready, late, written, expected, conflicts)
    {
      var path := paths[i];
      NextIsNew(paths, desired.entries.Keys, Lexicographic, i);
      if desired.entries[path].Directory? || Get(current.entries, path) == Get(desired.entries, path) {
        continue;
      }
      var related := HasAncestorOrDescendant(path, conflicts);
      if related || PreservesExcludedState(path, current, desired) {
        if path in ChangedFiles(current, desired) {
          assert conflicts + {} == conflicts;
          FileSkipped(desired.entries, ready, late, written, expected, conflicts, {}, path);
          written := written + {path};
        }
        continue;
      }
      expected, conflicts, run := WriteOneRechecked(
        fs, current, desired, path, expected, conflicts, gone, early, ready, late, written, t, log, run);
      written := written + {path};
    }
    assert paths[..|paths|] == paths;
    assert written == ChangedFiles(current, desired);
    EverythingSettled(current, desired, gone, early, ready, late, expected, conflicts);
  }
}
