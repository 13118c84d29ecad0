/** Lookups that use the ordering of paths instead of scanning a whole set or tree. */
module OrderedLookups {
  import opened Basics
  import opened Paths
  import opened Snapshots

  function AtOrAfter(paths: set<Path>, key: Path): set<Path> {
    set q | q in paths && !PathLess(q, key)
  }

  /** The members from a key upwards, in ascending order. */
  method RangeFrom(paths: set<Path>, key: Path) returns (r: seq<Path>)
    ensures Lists(r, AtOrAfter(paths, key), Lexicographic)
  {
    r := InOrder(AtOrAfter(paths, key), Lexicographic);
  }

  /** path.join(NUL) lies between a path and everything below it. */
  lemma {:induction false} BelowSortsAfterJoinedNul(p: Path, q: Path)
    requires p < q && ValidName(q[|p|])
    ensures PathLess(p + [NUL], q)
  {
    if p == [] {
      assert NUL[0] < q[0][0];
    } else {
      assert (p + [NUL])[1..] == p[1..] + [NUL];
      assert p[1..] < q[1..];
      BelowSortsAfterJoinedNul(p[1..], q[1..]);
    }
  }

  /** Nothing sorts between path.join(NUL) and a path below p without lying below p. */
  lemma {:induction false} BetweenLiesBelow(p: Path, q: Path, r: Path)
    requires !PathLess(q, p + [NUL]) && PathLess(q, r) && p < r
    ensures p < q
  {
    if p == [] {
      assert q != [];
    } else {
      assert (p + [NUL])[1..] == p[1..] + [NUL];
      assert q != [];
      NameLessTotal(p[0], q[0]);
      assert q[0] == p[0] == r[0];
      assert p[1..] < r[1..];
      BetweenLiesBelow(p[1..], q[1..], r[1..]);
      assert q == [q[0]] + q[1..] && p == [p[0]] + p[1..];
    }
  }

  /** A range that starts at path.join(NUL) opens with exactly the members strictly below the path. */
  lemma RangeOpensWithSubtree(r: seq<Path>, paths: set<Path>, path: Path)
    requires ValidPaths(paths)
    requires Lists(r, AtOrAfter(paths, path + [NUL]), Lexicographic)
    ensures forall q :: q in paths && path < q ==> q in r
    ensures forall i, j | 0 <= i < j < |r| :: path < r[j] ==> path < r[i]
  {
    forall q | q in paths && path < q ensures q in r {
      BelowSortsAfterJoinedNul(path, q);
      PathLessTotal(path + [NUL], q);
    }
    forall i, j | 0 <= i < j < |r| && path < r[j] ensures path < r[i] {
      assert r[i] in r && Before(Lexicographic, r[i], r[j]);
      BetweenLiesBelow(path, r[i], r[j]);
    }
  }

  lemma FromKeyStrictlyBelow(p: Path, q: Path)
    requires p <= q && !PathLess(q, p + [NUL])
    ensures p < q
  {
    if p == q { OwnJoinSortsHigher(p); }
  }

  lemma {:induction false} OwnJoinSortsHigher(p: Path)
    ensures PathLess(p, p + [NUL])
  {
    if p != [] {
      assert (p + [NUL])[1..] == p[1..] + [NUL];
      OwnJoinSortsHigher(p[1..]);
    }
  }

  /** Walks up from the path, then looks at the first member past path.join(NUL). */
  method HasAncestorOrDescendant(path: Path, paths: set<Path>) returns (related: bool)
    requires ValidPaths(paths)
    ensures related == RelatedToAny(path, paths)
  {
    var ancestor := path;
    while ancestor != []
      invariant ancestor <= path
      invariant forall a | a in paths && a <= path :: a <= ancestor
    {
      if ancestor in paths {
        assert Related(path, ancestor);
        return true;
      }
      forall a | a in paths && a <= path ensures a <= ancestor[..|ancestor| - 1] {
        assert a <= ancestor && a != ancestor;
      }
      ancestor := ancestor[..|ancestor| - 1];
    }
    var candidates := RangeFrom(paths, path + [NUL]);
    RangeOpensWithSubtree(candidates, paths, path);
    related := candidates != [] && path <= candidates[0];
    if related {
      assert candidates[0] in candidates && Related(path, candidates[0]);
    }
    forall q | q in paths && path < q ensures related {
      assert q in candidates;
    }
  }

  /** The members at and below a path. */
  method DescendantPaths(paths: set<Path>, path: Path) returns (r: seq<Path>)
    requires ValidPaths(paths)
    ensures forall q :: q in r <==> q in paths && path <= q
  {
    r := [];
    if path in paths {
      r := [path];
    }
    var candidates := RangeFrom(paths, path + [NUL]);
    RangeOpensWithSubtree(candidates, paths, path);
    var i := 0;
    while i < |candidates| && path <= candidates[i]
      invariant 0 <= i <= |candidates|
      invariant forall q :: q in r <==> q in candidates[..i] || (q == path && q in paths)
      invariant forall q | q in candidates[..i] :: q in paths && path < q
    {
      assert candidates[i] in candidates;
      FromKeyStrictlyBelow(path, candidates[i]);
      assert candidates[..i + 1] == candidates[..i] + [candidates[i]];
      r := r + [candidates[i]];
      i := i + 1;
    }
    forall q | q in paths && path < q ensures q in r {
      var j :| 0 <= j < |candidates| && candidates[j] == q;
      assert j < i;
      assert q in candidates[..i];
    }
  }

  method RemoveSubtreeEntries(entries: Tree, path: Path) returns (r: Tree)
    requires ValidPaths(entries.Keys)
    ensures r == WithoutSubtree(entries, path)
  {
    r := entries;
    var removed := DescendantPaths(entries.Keys, path);
    for i := 0 to |removed|
      invariant r == map q | q in entries && q !in removed[..i] :: entries[q]
    {
      assert removed[..i + 1] == removed[..i] + [removed[i]];
      r := r - {removed[i]};
    }
    assert removed[..|removed|] == removed;
  }
}
