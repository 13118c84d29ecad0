/** Trees of entries, the excluded parts of a workspace, and snapshots of what is left. */
module Snapshots {
  import opened Basics
  import opened Paths

  datatype Entry = Directory | File(bytes: Bytes)

  type Tree = map<Path, Entry>

  function Get(t: Tree, p: Path): Option<Entry> {
    if p in t then Some(t[p]) else None
  }

  predicate IsDirectory(t: Tree, p: Path) {
    p in t && t[p].Directory?
  }

  predicate IsFile(t: Tree, p: Path) {
    p in t && t[p].File?
  }

  /** Every entry has a usable name and lies in directories that are entries themselves. */
  ghost predicate WellFormed(t: Tree) {
    && (forall p | p in t :: ValidPath(p))
    && (forall a, p | p in t && StrictlyAbove(a, p) :: IsDirectory(t, a))
  }

  function WithoutSubtree(t: Tree, p: Path): Tree {
    map q | q in t && !(p <= q) :: t[q]
  }

  lemma SameEverywhere(s: Tree, t: Tree)
    requires forall p :: Get(s, p) == Get(t, p)
    ensures s == t
  {
    forall p ensures p in s <==> p in t { assert Get(s, p) == Get(t, p); }
    forall p | p in s ensures s[p] == t[p] { assert Get(s, p) == Get(t, p); }
  }

  // ---------- exclusions ----------

  const EXCLUDED_ROOTS: seq<Path> := [
    ["sysroot"], ["target"], [".cargo", "registry"], [".cargo", "git"], [".git"], ["node_modules"], [".cache"]]

  predicate IsExcluded(p: Path) {
    exists r | r in EXCLUDED_ROOTS :: r <= p
  }

  predicate IsRuntimeExcluded(p: Path, runtimeExclusions: seq<Path>) {
    exists r | r in runtimeExclusions :: r != [] && r <= p
  }

  predicate ShouldExclude(p: Path, runtimeExclusions: seq<Path>) {
    IsExcluded(p) || IsRuntimeExcluded(p, runtimeExclusions)
  }

  lemma ExclusionCoversSubtree(p: Path, q: Path, runtimeExclusions: seq<Path>)
    requires ShouldExclude(p, runtimeExclusions) && p <= q
    ensures ShouldExclude(q, runtimeExclusions)
  {
    if IsExcluded(p) {
      var r :| r in EXCLUDED_ROOTS && r <= p;
      assert r <= q;
    } else {
      var r :| r in runtimeExclusions && r != [] && r <= p;
      assert r <= q;
    }
  }

  /** Excluded state lies strictly below p. */
  predicate HidesBelow(t: Tree, p: Path, runtimeExclusions: seq<Path>) {
    exists e | e in t :: p < e && ShouldExclude(e, runtimeExclusions)
  }

  // ---------- snapshots ----------

  datatype Snapshot = Snapshot(entries: Tree, runtimeExclusions: seq<Path>, excludedAncestors: set<Path>)

  function Visible(t: Tree, runtimeExclusions: seq<Path>): Tree {
    map p | p in t && !ShouldExclude(p, runtimeExclusions) :: t[p]
  }

  function Hidden(t: Tree, runtimeExclusions: seq<Path>): Tree {
    map p | p in t && ShouldExclude(p, runtimeExclusions) :: t[p]
  }

  /** What a walk over the whole tree records. */
  function SnapshotOf(t: Tree, runtimeExclusions: seq<Path>): Snapshot {
    Snapshot(
      Visible(t, runtimeExclusions),
      runtimeExclusions,
      set a | a in t && !ShouldExclude(a, runtimeExclusions) && HidesBelow(t, a, runtimeExclusions))
  }

  /** Nothing excluded among the entries, and the recorded ancestors are closed upwards. */
  ghost predicate WellFormedSnapshot(s: Snapshot) {
    && WellFormed(s.entries)
    && (forall p | p in s.entries :: !ShouldExclude(p, s.runtimeExclusions))
    && (forall a, p | p in s.excludedAncestors && StrictlyAbove(a, p) :: a in s.excludedAncestors)
  }

  /** The recorded ancestors are directories of the snapshot. */
  ghost predicate RecordsItsDirectories(s: Snapshot) {
    forall a | a in s.excludedAncestors :: IsDirectory(s.entries, a)
  }

  lemma WalksGiveWellFormedSnapshots(t: Tree, runtimeExclusions: seq<Path>)
    requires WellFormed(t)
    ensures WellFormedSnapshot(SnapshotOf(t, runtimeExclusions))
    ensures RecordsItsDirectories(SnapshotOf(t, runtimeExclusions))
  {
    var s := SnapshotOf(t, runtimeExclusions);
    forall a, p | p in s.entries && StrictlyAbove(a, p) ensures IsDirectory(s.entries, a) {
      if ShouldExclude(a, runtimeExclusions) { ExclusionCoversSubtree(a, p, runtimeExclusions); }
    }
    forall a, p | p in s.excludedAncestors && StrictlyAbove(a, p) ensures a in s.excludedAncestors {
      if ShouldExclude(a, runtimeExclusions) { ExclusionCoversSubtree(a, p, runtimeExclusions); }
      var e :| e in t && p < e && ShouldExclude(e, runtimeExclusions);
      assert a < e;
      assert IsDirectory(t, a);
    }
    forall a | a in s.excludedAncestors ensures IsDirectory(s.entries, a) {
      var e :| e in t && a < e && ShouldExclude(e, runtimeExclusions);
      assert ValidPath(a);
      assert StrictlyAbove(a, e);
    }
  }

  lemma HiddenStateHasRecordedAncestors(t: Tree, runtimeExclusions: seq<Path>, a: Path, e: Path)
    requires WellFormed(t) && a != [] && a < e && e in t
    requires ShouldExclude(e, runtimeExclusions) && !ShouldExclude(a, runtimeExclusions)
    ensures a in SnapshotOf(t, runtimeExclusions).excludedAncestors
  {
    assert StrictlyAbove(a, e);
  }
}
