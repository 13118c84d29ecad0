/** Inode graphs that are trees, and what editing an entry does to path resolution. */
module WorkspaceTrees {
  import opened Basics
  import opened Inodes

  /** No object has two names, and the root has none. */
  ghost predicate IsTree(g: Graph, root: Id) {
    && IsDirectoryInode(g, root) && NamesExist(g)
    && (forall d, n | HasEntry(g, d, n) :: Child(g, d, n) != root)
    && (forall d, n, e, m | HasEntry(g, d, n) && HasEntry(g, e, m) && Child(g, d, n) == Child(g, e, m) ::
      d == e && n == m)
  }

  lemma {:induction false} PathsAreUnique(g: Graph, root: Id, p: Names, q: Names)
    requires IsTree(g, root) && Resolve(g, root, p).Some? && Resolve(g, root, p) == Resolve(g, root, q)
    ensures p == q
    decreases |p|
  {
    if p != [] && q != [] {
      PathsAreUnique(g, root, Init(p), Init(q));
      assert p == Init(p) + [Last(p)] && q == Init(q) + [Last(q)];
    }
  }

  lemma {:induction false} ResolvedExists(g: Graph, root: Id, p: Names)
    requires NamesExist(g) && root in g
    ensures Resolve(g, root, p).Some? ==> Resolve(g, root, p).value in g
  {
    if p != [] { ResolvedExists(g, root, Init(p)); }
  }

  /** The entry named by a path. */
  ghost predicate NamesEntry(g: Graph, root: Id, p: Names, d: Id, n: string) {
    p != [] && Last(p) == n && Resolve(g, root, Init(p)) == Some(d)
  }

  /** Directories stay directories, and entries are the same except for the listed ones. */
  ghost predicate SameEntriesExcept(g: Graph, h: Graph, edited: set<(Id, string)>) {
    forall d, n | (d, n) !in edited ::
      HasEntry(h, d, n) == HasEntry(g, d, n) && (HasEntry(g, d, n) ==> Child(h, d, n) == Child(g, d, n))
  }

  /** The k-th step of a path uses one of the entries. */
  predicate Uses(g: Graph, root: Id, r: Names, k: nat, entries: set<(Id, string)>)
    requires k < |r|
  {
    Resolve(g, root, r[..k]).Some? && (Resolve(g, root, r[..k]).value, r[k]) in entries
  }

  /** A path that uses none of the edited entries resolves as before. */
  lemma {:induction false} UntouchedPath(g: Graph, h: Graph, root: Id, edited: set<(Id, string)>, r: Names)
    requires SameEntriesExcept(g, h, edited)
    requires forall k | 0 <= k < |r| :: !Uses(g, root, r, k, edited)
    ensures Resolve(h, root, r) == Resolve(g, root, r)
  {
    if r != [] {
      forall k | 0 <= k < |Init(r)| ensures !Uses(g, root, Init(r), k, edited) {
        assert Init(r)[..k] == r[..k] && !Uses(g, root, r, k, edited);
      }
      UntouchedPath(g, h, root, edited, Init(r));
      assert !Uses(g, root, r, |r| - 1, edited);
    }
  }

  /** In a tree a path uses the entry named by p only if it extends p. */
  lemma UsedEntryIsPrefix(g: Graph, root: Id, p: Names, d: Id, n: string, r: Names, k: nat)
    requires IsTree(g, root) && NamesEntry(g, root, p, d, n)
    requires k < |r| && Uses(g, root, r, k, {(d, n)})
    ensures p <= r
  {
    PathsAreUnique(g, root, Init(p), r[..k]);
    assert p == Init(p) + [n];
    assert r[..k + 1] == r[..k] + [n];
  }

  lemma OnlyBelowOne(g: Graph, h: Graph, root: Id, p: Names, d: Id, n: string, r: Names)
    requires IsTree(g, root) && NamesEntry(g, root, p, d, n) && SameEntriesExcept(g, h, {(d, n)}) && !(p <= r)
    ensures Resolve(h, root, r) == Resolve(g, root, r)
  {
    forall k | 0 <= k < |r| ensures !Uses(g, root, r, k, {(d, n)}) {
      if Uses(g, root, r, k, {(d, n)}) { UsedEntryIsPrefix(g, root, p, d, n, r, k); }
    }
    UntouchedPath(g, h, root, {(d, n)}, r);
  }

  // ---------- adding and removing one name ----------

  function WithEntry(g: Graph, d: Id, n: string, child: Id): Graph
    requires IsDirectoryInode(g, d)
  {
    g[d := DirectoryInode(g[d].contents[n := child])]
  }

  function WithoutEntry(g: Graph, d: Id, n: string): Graph
    requires IsDirectoryInode(g, d)
  {
    g[d := DirectoryInode(g[d].contents - {n})]
  }

  /** A new leaf under a free name: the path leads to it, everything else is as before. */
  lemma LeafAdded(g: Graph, root: Id, p: Names, d: Id, n: string, child: Id, leaf: Inode, h: Graph)
    requires IsTree(g, root) && NamesEntry(g, root, p, d, n) && IsDirectoryInode(g, d) && !HasEntry(g, d, n)
    requires child !in g && (leaf.FileInode? || leaf == DirectoryInode(map[]))
    requires h == WithEntry(g[child := leaf], d, n, child)
    ensures IsTree(h, root) && Resolve(h, root, p) == Some(child) && h[child] == leaf
    ensures forall r | !(p <= r) :: Resolve(h, root, r) == Resolve(g, root, r)
    ensures forall r | p < r :: Resolve(h, root, r) == None
  {
    assert SameEntriesExcept(g, h, {(d, n)});
    forall r | !(p <= r) ensures Resolve(h, root, r) == Resolve(g, root, r) {
      OnlyBelowOne(g, h, root, p, d, n, r);
    }
    assert Resolve(h, root, Init(p)) == Some(d);
    assert Resolve(h, root, p) == Some(child);
    forall r | p < r ensures Resolve(h, root, r) == None {
      NothingBelowLeaf(h, root, p, child, r);
    }
  }

  lemma {:induction false} NothingBelowLeaf(h: Graph, root: Id, p: Names, child: Id, r: Names)
    requires Resolve(h, root, p) == Some(child) && p < r
    requires forall n :: !HasEntry(h, child, n)
    ensures Resolve(h, root, r) == None
  {
    if |r| == |p| + 1 {
      assert Init(r) == p;
    } else {
      assert p < Init(r);
      NothingBelowLeaf(h, root, p, child, Init(r));
    }
  }

  /** Removing a name takes away everything under the path and nothing else. */
  lemma EntryRemoved(g: Graph, root: Id, p: Names, d: Id, n: string, h: Graph)
    requires IsTree(g, root) && NamesEntry(g, root, p, d, n) && IsDirectoryInode(g, d)
    requires h == WithoutEntry(g, d, n)
    ensures IsTree(h, root)
    ensures forall r | !(p <= r) :: Resolve(h, root, r) == Resolve(g, root, r)
    ensures forall r | p <= r :: Resolve(h, root, r) == None
  {
    assert SameEntriesExcept(g, h, {(d, n)});
    forall r | !(p <= r) ensures Resolve(h, root, r) == Resolve(g, root, r) {
      OnlyBelowOne(g, h, root, p, d, n, r);
    }
    assert Resolve(h, root, p) == None;
    forall r | p <= r ensures Resolve(h, root, r) == None {
      NothingBelowNothing(h, root, p, r);
    }
  }

  lemma {:induction false} NothingBelowNothing(h: Graph, root: Id, p: Names, r: Names)
    requires Resolve(h, root, p) == None && p <= r
    ensures Resolve(h, root, r) == None
  {
    if p != r { NothingBelowNothing(h, root, p, Init(r)); }
  }

  // ---------- moving a subtree ----------

  /** An entry moved from one name to another, possibly replacing what had that name. */
  ghost predicate Moved(g: Graph, root: Id, p: Names, src: Id, n: string, q: Names, dst: Id, m: string, inode: Id,
      h: Graph)
  {
    && IsTree(g, root) && NamesEntry(g, root, p, src, n) && HasEntry(g, src, n) && Child(g, src, n) == inode
    && NamesEntry(g, root, q, dst, m) && IsDirectoryInode(g, dst)
    && !(p <= q) && !(q <= p)
    && h == WithoutEntry(WithEntry(g, dst, m, inode), src, n)
  }

  lemma SourceIsNotDestination(
    g: Graph, root: Id, p: Names, src: Id, n: string, q: Names, dst: Id, m: string, inode: Id, h: Graph)
    requires Moved(g, root, p, src, n, q, dst, m, inode, h)
    ensures (src, n) != (dst, m)
  {
    assert p == Init(p) + [n] && q == Init(q) + [m];
    hide IsTree, Resolve;
    if (src, n) == (dst, m) { PathsAreUnique(g, root, Init(p), Init(q)); }
  }

  /** What the two updates of a move do to the entries, wherever they are. */
  lemma EntriesAfterMove(g: Graph, src: Id, n: string, dst: Id, m: string, inode: Id, h: Graph)
    requires IsDirectoryInode(g, src) && IsDirectoryInode(g, dst) && (src, n) != (dst, m)
    requires h == WithoutEntry(WithEntry(g, dst, m, inode), src, n)
    ensures SameEntriesExcept(g, h, {(src, n), (dst, m)})
    ensures !HasEntry(h, src, n) && HasEntry(h, dst, m) && Child(h, dst, m) == inode
    ensures h.Keys == g.Keys && forall id | id in g && id != src && id != dst :: h[id] == g[id]
  {
  }

  lemma DifferentEntries(
    g: Graph, root: Id, p: Names, src: Id, n: string, q: Names, dst: Id, m: string, inode: Id, h: Graph)
    requires Moved(g, root, p, src, n, q, dst, m, inode, h)
    ensures (src, n) != (dst, m)
    ensures SameEntriesExcept(g, h, {(src, n), (dst, m)})
    ensures !HasEntry(h, src, n) && HasEntry(h, dst, m) && Child(h, dst, m) == inode
    ensures h.Keys == g.Keys && forall id | id in g && id != src && id != dst :: h[id] == g[id]
  {
    hide SameEntriesExcept, Resolve, IsTree;
    SourceIsNotDestination(g, root, p, src, n, q, dst, m, inode, h);
    EntriesAfterMove(g, src, n, dst, m, inode, h);
  }

  lemma MoveKeepsTree(
    g: Graph, root: Id, p: Names, src: Id, n: string, q: Names, dst: Id, m: string, inode: Id, h: Graph)
    requires Moved(g, root, p, src, n, q, dst, m, inode, h)
    ensures IsTree(h, root)
  {
    DifferentEntries(g, root, p, src, n, q, dst, m, inode, h);
    forall d, k | HasEntry(h, d, k)
      ensures (d, k) == (dst, m) || (HasEntry(g, d, k) && Child(h, d, k) == Child(g, d, k) && (d, k) != (src, n)) {}
    forall d, k | HasEntry(h, d, k) && Child(h, d, k) == inode ensures d == dst && k == m {}
  }

  /** Every path under neither name resolves as before. */
  lemma MoveLeavesRest(
    g: Graph, root: Id, p: Names, src: Id, n: string, q: Names, dst: Id, m: string, inode: Id, h: Graph, r: Names)
    requires Moved(g, root, p, src, n, q, dst, m, inode, h) && !(p <= r) && !(q <= r)
    ensures Resolve(h, root, r) == Resolve(g, root, r)
  {
    DifferentEntries(g, root, p, src, n, q, dst, m, inode, h);
    forall k | 0 <= k < |r| ensures !Uses(g, root, r, k, {(src, n), (dst, m)}) {
      if Uses(g, root, r, k, {(src, n)}) { UsedEntryIsPrefix(g, root, p, src, n, r, k); }
      if Uses(g, root, r, k, {(dst, m)}) { UsedEntryIsPrefix(g, root, q, dst, m, r, k); }
    }
    UntouchedPath(g, h, root, {(src, n), (dst, m)}, r);
  }

  lemma PrefixOfInit(p: Names, q: Names)
    requires q != []
    ensures p <= Init(q) ==> p <= q
  {
    if p <= Init(q) { assert forall i | 0 <= i < |p| :: p[i] == Init(q)[i] == q[i]; }
  }

  /** Inside the moved subtree nothing changes. */
  lemma MoveKeepsSubtree(
    g: Graph, root: Id, p: Names, src: Id, n: string, q: Names, dst: Id, m: string, inode: Id, h: Graph, s: Names)
    requires Moved(g, root, p, src, n, q, dst, m, inode, h)
    ensures Resolve(h, inode, s) == Resolve(g, inode, s)
  {
    DifferentEntries(g, root, p, src, n, q, dst, m, inode, h);
    forall k | 0 <= k < |s| ensures !Uses(g, inode, s, k, {(src, n), (dst, m)}) {
      var t := s[..k];
      ResolveSplits(g, root, p, t);
      assert p + t != Init(p) by { assert |p + t| > |Init(p)|; }
      PrefixOfInit(p, q);
      assert p <= p + t;
      if Resolve(g, inode, t) == Some(src) { PathsAreUnique(g, root, p + t, Init(p)); }
      if Resolve(g, inode, t) == Some(dst) { PathsAreUnique(g, root, p + t, Init(q)); }
    }
    UntouchedPath(g, h, inode, {(src, n), (dst, m)}, s);
  }

  /** What was found under the old path is found under the new one, and nothing under the old one. */
  lemma MoveMovesSubtree(
    g: Graph, root: Id, p: Names, src: Id, n: string, q: Names, dst: Id, m: string, inode: Id, h: Graph, s: Names)
    requires Moved(g, root, p, src, n, q, dst, m, inode, h)
    ensures Resolve(h, root, q + s) == Resolve(g, root, p + s)
    ensures Resolve(h, root, p + s) == None
  {
    DifferentEntries(g, root, p, src, n, q, dst, m, inode, h);
    PrefixOfInit(p, q);
    PrefixOfInit(q, p);
    MoveLeavesRest(g, root, p, src, n, q, dst, m, inode, h, Init(q));
    MoveLeavesRest(g, root, p, src, n, q, dst, m, inode, h, Init(p));
    assert Resolve(h, root, q) == Some(inode) && Resolve(h, root, p) == None;
    ResolveSplits(h, root, q, s);
    ResolveSplits(g, root, p, s);
    ResolveSplits(h, root, p, s);
    MoveKeepsSubtree(g, root, p, src, n, q, dst, m, inode, h, s);
  }
}
