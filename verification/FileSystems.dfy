/** A file system whose primitives demand what a POSIX one demands, and the record of what happened to it. */
module FileSystems {
  import opened Basics
  import opened Paths
  import opened Snapshots

  datatype Op =
    | RemoveDirectory(path: Path)
    | RemoveRegular(path: Path)
    | MakeDirectory(path: Path)
    | CreateRegular(path: Path, bytes: Bytes)
    | Overwrite(path: Path, bytes: Bytes)

  predicate ParentIsDirectory(t: Tree, p: Path)
    requires p != []
  {
    |p| == 1 || IsDirectory(t, p[..|p| - 1])
  }

  predicate Legal(t: Tree, op: Op) {
    match op
    case RemoveDirectory(p) => IsDirectory(t, p) && forall q | q in t :: !(p < q)
    case RemoveRegular(p) => IsFile(t, p)
    case MakeDirectory(p) => ValidPath(p) && p !in t && ParentIsDirectory(t, p)
    case CreateRegular(p, _) => ValidPath(p) && p !in t && ParentIsDirectory(t, p)
    case Overwrite(p, _) => IsFile(t, p)
  }

  function Effect(t: Tree, op: Op): Tree {
    match op
    case RemoveDirectory(p) => t - {p}
    case RemoveRegular(p) => t - {p}
    case MakeDirectory(p) => t[p := Directory]
    case CreateRegular(p, bytes) => t[p := File(bytes)]
    case Overwrite(p, bytes) => t[p := File(bytes)]
  }

  lemma LegalOpsKeepTreeShape(t: Tree, op: Op)
    requires WellFormed(t) && Legal(t, op)
    ensures WellFormed(Effect(t, op))
    ensures forall q | q != op.path :: Get(Effect(t, op), q) == Get(t, q)
  {
    var p, after := op.path, Effect(t, op);
    forall a, q | q in after && StrictlyAbove(a, q) ensures IsDirectory(after, a) {
      if q == p && p !in t {
        var parent := p[..|p| - 1];
        if a != parent {
          assert a <= parent;
          assert StrictlyAbove(a, parent);
        }
      } else {
        assert IsDirectory(t, a);
      }
    }
  }

  /** Either a moment at which others may have edited the tree before a path was touched, or a primitive. */
  datatype Event =
    | Checked(path: Path, whole: bool, before: Tree, after: Tree)
    | Did(op: Op, before: Tree)

  /** The primitives of a record, replayed on a tree nobody else edits. */
  ghost function Replayed(start: Tree, log: seq<Event>): Tree {
    if log == [] then start
    else
      var sofar := Replayed(start, log[..|log| - 1]);
      match log[|log| - 1]
      case Checked(_, _, _, _) => sofar
      case Did(op, _) => Effect(sofar, op)
  }

  /** The record of one run is a chain of trees from t to u in which every primitive was legal when issued. */
  ghost predicate LegalRun(t: Tree, log: seq<Event>, u: Tree) {
    if log == [] then t == u
    else
      var last := log[|log| - 1];
      LegalRun(t, log[..|log| - 1], last.before)
      && match last
         case Checked(_, _, _, after) => u == after
         case Did(op, before) => Legal(before, op) && u == Effect(before, op)
  }

  lemma RunExtends(start: Tree, t: Tree, log: seq<Event>, last: Event, u: Tree)
    requires LegalRun(t, log, last.before)
    requires match last
             case Checked(_, _, _, after) => u == after
             case Did(op, before) => Legal(before, op) && u == Effect(before, op)
    ensures LegalRun(t, log + [last], u)
    ensures Replayed(start, log + [last]) ==
            if last.Did? then Effect(Replayed(start, log), last.op) else Replayed(start, log)
  {
    assert (log + [last])[..|log + [last]| - 1] == log;
  }

  predicate IsTree(t: Tree)
    ensures IsTree(t) <==> WellFormed(t)
  {
    assert (forall p, n | p in t && 0 < n < |p| :: IsDirectory(t, p[..n])) ==>
        forall a, p | p in t && StrictlyAbove(a, p) :: IsDirectory(t, a) by {
      forall a, p | p in t && StrictlyAbove(a, p) ensures a == p[..|a|] {}
    }
    assert (forall a, p | p in t && StrictlyAbove(a, p) :: IsDirectory(t, a)) ==>
        forall p, n | p in t && 0 < n < |p| :: IsDirectory(t, p[..n]) by {
      forall p, n | p in t && 0 < n < |p| ensures StrictlyAbove(p[..n], p) {}
    }
    (forall p | p in t :: ValidPath(p)) && (forall p, n | p in t && 0 < n < |p| :: IsDirectory(t, p[..n]))
  }

  class FileSystem {
    var tree: Tree
    ghost var log: seq<Event>

    ghost predicate Valid()
      reads this
    {
      WellFormed(tree)
    }

    method RemoveDir(p: Path)
      requires Valid() && Legal(tree, RemoveDirectory(p))
      modifies this
      ensures Valid() && tree == Effect(old(tree), RemoveDirectory(p))
      ensures log == old(log) + [Did(RemoveDirectory(p), old(tree))]
    {
      LegalOpsKeepTreeShape(tree, RemoveDirectory(p));
      log := log + [Did(RemoveDirectory(p), tree)];
      tree := tree - {p};
    }

    method RemoveFile(p: Path)
      requires Valid() && Legal(tree, RemoveRegular(p))
      modifies this
      ensures Valid() && tree == Effect(old(tree), RemoveRegular(p))
      ensures log == old(log) + [Did(RemoveRegular(p), old(tree))]
    {
      LegalOpsKeepTreeShape(tree, RemoveRegular(p));
      log := log + [Did(RemoveRegular(p), tree)];
      tree := tree - {p};
    }

    method AddDir(p: Path)
      requires Valid() && Legal(tree, MakeDirectory(p))
      modifies this
      ensures Valid() && tree == Effect(old(tree), MakeDirectory(p))
      ensures log == old(log) + [Did(MakeDirectory(p), old(tree))]
    {
      LegalOpsKeepTreeShape(tree, MakeDirectory(p));
      log := log + [Did(MakeDirectory(p), tree)];
      tree := tree[p := Directory];
    }

    method AddFile(p: Path, bytes: Bytes)
      requires Valid() && Legal(tree, CreateRegular(p, bytes))
      modifies this
      ensures Valid() && tree == Effect(old(tree), CreateRegular(p, bytes))
      ensures log == old(log) + [Did(CreateRegular(p, bytes), old(tree))]
    {
      LegalOpsKeepTreeShape(tree, CreateRegular(p, bytes));
      log := log + [Did(CreateRegular(p, bytes), tree)];
      tree := tree[p := File(bytes)];
    }

    method WriteFile(p: Path, bytes: Bytes)
      requires Valid() && Legal(tree, Overwrite(p, bytes))
      modifies this
      ensures Valid() && tree == Effect(old(tree), Overwrite(p, bytes))
      ensures log == old(log) + [Did(Overwrite(p, bytes), old(tree))]
    {
      LegalOpsKeepTreeShape(tree, Overwrite(p, bytes));
      log := log + [Did(Overwrite(p, bytes), tree)];
      tree := tree[p := File(bytes)];
    }

    /** The host's create-or-truncate write. */
    method Write(p: Path, bytes: Bytes)
      requires Valid() && (Legal(tree, CreateRegular(p, bytes)) || Legal(tree, Overwrite(p, bytes)))
      modifies this
      ensures Valid() && tree == old(tree)[p := File(bytes)]
    {
      if p in tree { WriteFile(p, bytes); } else { AddFile(p, bytes); }
    }

    /** Anyone may edit the tree in any way just before a path is mutated. */
    method BeforeMutation(p: Path, ghost whole: bool)
      requires Valid()
      modifies this
      ensures Valid()
      ensures log == old(log) + [Checked(p, whole, old(tree), tree)]
    {
      ghost var before := tree;
      var edited: Tree := *;
      if IsTree(edited) {
        tree := edited;
      }
      log := log + [Checked(p, whole, before, tree)];
    }
  }
}
