/** The inode graph of the in-browser file system: objects with identity, and directories that name them. */
module Inodes {
  import opened Basics

  /** The identity of an inode object. */
  type Id = int
  type Names = seq<string>

  datatype Inode =
    | FileInode(data: Bytes, readonly: bool)
    | DirectoryInode(contents: map<string, Id>)
    | OtherInode

  type Graph = map<Id, Inode>

  predicate IsDirectoryInode(g: Graph, d: Id) {
    d in g && g[d].DirectoryInode?
  }

  /** Directories name only objects that exist. */
  ghost predicate NamesExist(g: Graph) {
    forall d, n | IsDirectoryInode(g, d) && n in g[d].contents :: g[d].contents[n] in g
  }

  predicate HasEntry(g: Graph, d: Id, n: string) {
    IsDirectoryInode(g, d) && n in g[d].contents
  }

  function Child(g: Graph, d: Id, n: string): Id
    requires HasEntry(g, d, n)
  {
    g[d].contents[n]
  }

  function Last(path: Names): string
    requires path != []
  {
    path[|path| - 1]
  }

  function Init(path: Names): Names
    requires path != []
  {
    path[..|path| - 1]
  }

  /** Follows a path from an inode. */
  function Resolve(g: Graph, root: Id, path: Names): Option<Id> {
    if path == [] then Some(root)
    else match Resolve(g, root, Init(path))
      case None => None
      case Some(d) => if HasEntry(g, d, Last(path)) then Some(Child(g, d, Last(path))) else None
  }

  /** The objects of one page, mutated in place by everyone who holds them. */
  class InodeHeap {
    var graph: Graph

    constructor (graph: Graph)
      ensures this.graph == graph
    {
      this.graph := graph;
    }
  }

  lemma ResolveStep(g: Graph, root: Id, path: Names, n: string)
    ensures Resolve(g, root, path + [n]) ==
      match Resolve(g, root, path)
      case None => None
      case Some(d) => if HasEntry(g, d, n) then Some(Child(g, d, n)) else None
  {
    assert Init(path + [n]) == path;
  }

  lemma {:induction false} ResolveSplits(g: Graph, root: Id, p: Names, q: Names)
    ensures Resolve(g, root, p + q) ==
      match Resolve(g, root, p)
      case None => None
      case Some(d) => Resolve(g, d, q)
    decreases |q|
  {
    if q == [] {
      assert p + q == p;
    } else {
      assert Init(p + q) == p + Init(q);
      ResolveSplits(g, root, p, Init(q));
    }
  }
}
