/** Relative workspace paths and the orders in which the sync code visits them. */
module Paths {

  /** The components of a relative path.  The empty path stands for the workspace root, never for an entry. */
  type Path = seq<string>

  // A NUL cannot occur in a file name; it sorts below every character that can.
  const NUL: string := "\0"

  predicate ValidName(name: string) {
    name != "" && '\0' !in name && '/' !in name
  }

  predicate ValidPath(p: Path) {
    p != [] && forall i | 0 <= i < |p| :: ValidName(p[i])
  }

  /** a names a directory that must exist for p to exist. */
  predicate StrictlyAbove(a: Path, p: Path) {
    a != [] && a < p
  }

  /** One path is the other or lies above it. */
  predicate Related(p: Path, q: Path) {
    p <= q || q <= p
  }

  predicate RelatedToAny(p: Path, paths: set<Path>) {
    exists q | q in paths :: Related(p, q)
  }

  ghost predicate ValidPaths(paths: set<Path>) {
    forall p | p in paths :: ValidPath(p)
  }

  lemma AboveSamePathAreRelated(a: Path, b: Path, p: Path)
    requires a <= p && b <= p
    ensures Related(a, b)
  {
    if |a| <= |b| {
      assert a == p[..|a|] == b[..|a|];
    } else {
      assert b == p[..|b|] == a[..|b|];
    }
  }

  // ---------- component-wise lexicographic order ----------

  predicate NameLess(a: string, b: string) {
    b != "" && (a == "" || a[0] < b[0] || (a[0] == b[0] && NameLess(a[1..], b[1..])))
  }

  predicate PathLess(p: Path, q: Path) {
    q != [] && (p == [] || NameLess(p[0], q[0]) || (p[0] == q[0] && PathLess(p[1..], q[1..])))
  }

  lemma {:induction false} NameLessTransitive(a: string, b: string, c: string)
    requires NameLess(a, b) && NameLess(b, c)
    ensures NameLess(a, c)
  {
    if a != "" && a[0] == b[0] == c[0] {
      NameLessTransitive(a[1..], b[1..], c[1..]);
    }
  }

  lemma {:induction false} NameLessTotal(a: string, b: string)
    ensures !NameLess(a, a)
    ensures a == b || NameLess(a, b) || NameLess(b, a)
    ensures !(NameLess(a, b) && NameLess(b, a))
  {
    if a != "" {
      NameLessTotal(a[1..], if b == "" then "" else b[1..]);
      if b != "" && a[0] == b[0] && a[1..] == b[1..] {
        assert a == [a[0]] + a[1..] == b;
      }
    }
  }

  lemma {:induction false} PathLessTransitive(p: Path, q: Path, r: Path)
    requires PathLess(p, q) && PathLess(q, r)
    ensures PathLess(p, r)
  {
    if p != [] {
      if p[0] == q[0] == r[0] {
        NameLessTotal(p[0], q[0]);
        PathLessTransitive(p[1..], q[1..], r[1..]);
      } else if p[0] != q[0] && q[0] != r[0] {
        NameLessTransitive(p[0], q[0], r[0]);
      }
    }
  }

  lemma {:induction false} PathLessTotal(p: Path, q: Path)
    ensures !PathLess(p, p)
    ensures p == q || PathLess(p, q) || PathLess(q, p)
    ensures !(PathLess(p, q) && PathLess(q, p))
  {
    if p != [] {
      PathLessTotal(p[1..], if q == [] then [] else q[1..]);
      NameLessTotal(p[0], if q == [] then "" else q[0]);
      if q != [] && p[0] == q[0] && p[1..] == q[1..] {
        assert p == [p[0]] + p[1..] == q;
      }
    }
  }

  // ---------- visiting orders ----------

  /** Iteration order of an ordered set, and its stable re-sorting by number of components. */
  datatype Order = Lexicographic | ShallowFirst | DeepFirst

  predicate Before(o: Order, p: Path, q: Path) {
    match o
    case Lexicographic => PathLess(p, q)
    case ShallowFirst => |p| < |q| || (|p| == |q| && PathLess(p, q))
    case DeepFirst => |p| > |q| || (|p| == |q| && PathLess(p, q))
  }

  ghost predicate Lists(r: seq<Path>, paths: set<Path>, o: Order) {
    && (forall p :: p in r <==> p in paths)
    && (forall i, j | 0 <= i < j < |r| :: Before(o, r[i], r[j]))
  }

  function Members(r: seq<Path>): set<Path> {
    set p | p in r
  }

  predicate IsFirst(o: Order, m: Path, paths: set<Path>) {
    m in paths && forall q | q in paths && q != m :: Before(o, m, q)
  }

  lemma BeforeTotal(o: Order, p: Path, q: Path)
    ensures !Before(o, p, p)
    ensures p == q || Before(o, p, q) || Before(o, q, p)
    ensures !(Before(o, p, q) && Before(o, q, p))
  {
    PathLessTotal(p, q);
  }

  lemma BeforeTransitive(o: Order, p: Path, q: Path, r: Path)
    requires Before(o, p, q) && Before(o, q, r)
    ensures Before(o, p, r)
  {
    if |p| == |q| == |r| || o == Lexicographic {
      PathLessTransitive(p, q, r);
    }
  }

  lemma {:induction false} FirstExists(o: Order, paths: set<Path>) returns (m: Path)
    requires paths != {}
    ensures IsFirst(o, m, paths)
    decreases |paths|
  {
    var p :| p in paths;
    var rest := paths - {p};
    m := p;
    if rest == {} {
      assert paths == {p};
    } else {
      var n := FirstExists(o, rest);
      BeforeTotal(o, p, n);
      if Before(o, p, n) {
        forall q | q in paths && q != p ensures Before(o, p, q) {
          assert q in rest;
          if q != n { BeforeTransitive(o, p, n, q); }
        }
      } else {
        m := n;
        forall q | q in paths && q != n ensures Before(o, n, q) { assert q == p || q in rest; }
      }
    }
  }

  /** The members of a set, in the given order. */
  method InOrder(paths: set<Path>, o: Order) returns (r: seq<Path>)
    ensures Lists(r, paths, o)
  {
    r := [];
    var rest := paths;
    while rest != {}
      invariant rest <= paths
      invariant forall p :: p in r <==> p in paths - rest
      invariant forall i, j | 0 <= i < j < |r| :: Before(o, r[i], r[j])
      invariant forall i, q | 0 <= i < |r| && q in rest :: Before(o, r[i], q)
      decreases |rest|
    {
      var _ := FirstExists(o, rest);
      var m :| m in rest && IsFirst(o, m, rest);
      forall q | q in rest - {m} ensures Before(o, m, q) {
        assert q in rest && q != m;
        assert IsFirst(o, m, rest);
      }
      var grown := r + [m];
      assert forall i | 0 <= i < |grown| :: grown[i] == if i < |r| then r[i] else m;
      r, rest := grown, rest - {m};
    }
  }

  lemma NoneYet(r: seq<Path>)
    ensures Members(r[..0]) == {}
  {
  }

  lemma AllOfThem(r: seq<Path>, paths: set<Path>, o: Order)
    requires Lists(r, paths, o)
    ensures Members(r[..|r|]) == paths
  {
    assert r[..|r|] == r;
  }

  lemma NextIsNew(r: seq<Path>, paths: set<Path>, o: Order, n: nat)
    requires Lists(r, paths, o) && n < |r|
    ensures r[n] in paths && r[n] !in r[..n]
    ensures forall q | q in r[..n] :: Before(o, q, r[n])
    ensures Members(r[..n + 1]) == Members(r[..n]) + {r[n]}
  {
    assert r[n] in r;
    forall q | q in r[..n] ensures Before(o, q, r[n]) {
      var i :| 0 <= i < n && r[i] == q;
      assert Before(o, r[i], r[n]);
    }
    BeforeTotal(o, r[n], r[n]);
    assert r[..n + 1] == r[..n] + [r[n]];
  }
}
