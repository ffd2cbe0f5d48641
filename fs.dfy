/** The filesystem the store works on, as a map from path to directory or file.
    Only what the core distinguishes is kept: a file holds a project record, a zip
    archive (its member paths), or anything else. */
module Fs {
  import opened Records
  import opened Wrappers

  datatype Data =
    | ProjectYaml(project: Project)                 // a project.yaml that unmarshals
    | ZipArchive(members: set<Path>, complete: bool) // complete once the writer is closed
    | Other                                          // any other regular file

  datatype Node = Dir | File(data: Data)

  /** The errno values that the modelled calls can report: only the
      structural ones (ENOENT, ENOTDIR, EISDIR). */
  datatype FsError = NotExist | NotDir | IsDir

  datatype DirEntry = DirEntry(name: string, isDir: bool)

  function Parent(p: Path): Path
    requires p != []
  {
    p[..|p| - 1]
  }

  /** p is root or lies below it. */
  predicate Within(p: Path, root: Path) {
    |root| <= |p| && p[..|root|] == root
  }

  function Child(dir: Path, name: string): Path
  {
    dir + [name]
  }

  /** Every node hangs below a directory, and the root is a directory. */
  ghost predicate IsTree(nodes: map<Path, Node>) {
    && [] in nodes && nodes[[]] == Dir
    && forall p :: p in nodes && p != [] ==> Parent(p) in nodes && nodes[Parent(p)] == Dir
  }

  /** Some prefix of p (p itself included when k may reach |p|) is a regular file. */
  predicate FileOnPath(nodes: map<Path, Node>, p: Path, upTo: nat)
    requires upTo <= |p|
  {
    exists k :: 0 <= k <= upTo && p[..k] in nodes && nodes[p[..k]].File?
  }

  /** os.Stat: the node, ENOENT, or ENOTDIR when a proper prefix is a file. */
  function StatOf(nodes: map<Path, Node>, p: Path): Result<Node, FsError>
  {
    if p in nodes then Ok(nodes[p])
    else if |p| > 0 && FileOnPath(nodes, p, |p| - 1) then Err(NotDir)
    else Err(NotExist)
  }

  /** The directories os.MkdirAll(p) creates: every missing prefix of p. */
  function NewDirs(nodes: map<Path, Node>, p: Path): map<Path, Node>
  {
    map k | 0 <= k <= |p| && p[..k] !in nodes :: p[..k] := Dir
  }

  /** os.MkdirAll(p): fails, changing nothing, when p or a prefix of it is a file. */
  function MkdirAllOf(nodes: map<Path, Node>, p: Path): (Option<FsError>, map<Path, Node>)
  {
    if FileOnPath(nodes, p, |p|) then (Some(NotDir), nodes)
    else (None, nodes + NewDirs(nodes, p))
  }

  /** The error os.WriteFile(p) reports, if any: p must name a non-directory whose
      parent directory exists. */
  function WriteErrorOf(nodes: map<Path, Node>, p: Path): Option<FsError>
  {
    if p == [] || (p in nodes && nodes[p] == Dir) then Some(IsDir)
    else if Parent(p) in nodes then (if nodes[Parent(p)] == Dir then None else Some(NotDir))
    else match StatOf(nodes, Parent(p)) {
      case Err(e) => Some(e)
      case Ok(_) => Some(NotExist)
    }
  }

  /** os.ReadFile(p). */
  function ReadFileOf(nodes: map<Path, Node>, p: Path): Result<Data, FsError>
  {
    if p in nodes then (match nodes[p] { case File(d) => Ok(d) case Dir => Err(IsDir) })
    else match StatOf(nodes, p) {
      case Err(e) => Err(e)
      case Ok(_) => Err(NotExist)
    }
  }

  /** The names directly below dir. */
  function Children(nodes: map<Path, Node>, dir: Path): set<string>
  {
    set q | q in nodes.Keys && |q| == |dir| + 1 && q[..|dir|] == dir :: q[|dir|]
  }

  /** es lists every child of dir exactly once, saying which are directories. */
  ghost predicate IsListing(nodes: map<Path, Node>, dir: Path, es: seq<DirEntry>) {
    && (forall i :: 0 <= i < |es| ==> Child(dir, es[i].name) in nodes && es[i].isDir == (nodes[Child(dir, es[i].name)] == Dir))
    && (forall i, j :: 0 <= i < j < |es| ==> es[i].name != es[j].name)
    && (forall n :: Child(dir, n) in nodes ==> exists i :: 0 <= i < |es| && es[i].name == n)
  }

  /** The loop state of ReadDir: es lists, once each, the children of dir that
      are no longer left to enumerate. */
  ghost predicate Enumerated(nodes: map<Path, Node>, dir: Path, es: seq<DirEntry>, left: set<string>) {
    && left <= Children(nodes, dir)
    && (forall i :: 0 <= i < |es| ==> Child(dir, es[i].name) in nodes && es[i].isDir == (nodes[Child(dir, es[i].name)] == Dir))
    && (forall i :: 0 <= i < |es| ==> es[i].name !in left)
    && (forall i, j :: 0 <= i < j < |es| ==> es[i].name != es[j].name)
    && (forall n :: n in Children(nodes, dir) ==> n in left || exists i :: 0 <= i < |es| && es[i].name == n)
  }

  lemma ChildOfChildren(nodes: map<Path, Node>, dir: Path, n: string)
    requires n in Children(nodes, dir)
    ensures Child(dir, n) in nodes
  {
    var q :| q in nodes.Keys && |q| == |dir| + 1 && q[..|dir|] == dir && q[|dir|] == n;
    assert q == Child(dir, n);
  }

  /** Enumerating one more child keeps the loop state. */
  lemma EnumerateStep(nodes: map<Path, Node>, dir: Path, es: seq<DirEntry>, left: set<string>, n: string, e: DirEntry)
    requires Enumerated(nodes, dir, es, left) && n in left && Child(dir, n) in nodes
    requires e == DirEntry(n, nodes[Child(dir, n)] == Dir)
    ensures Enumerated(nodes, dir, es + [e], left - {n})
  {
    var es' := es + [e];
    forall m | m in Children(nodes, dir) && m !in left - {n}
      ensures exists i :: 0 <= i < |es'| && es'[i].name == m
    {
      if m == n {
        assert es'[|es|].name == m;
      } else {
        var i :| 0 <= i < |es| && es[i].name == m;
        assert es'[i] == es[i];
      }
    }
  }

  /** Once nothing is left, the enumeration is a listing of dir. */
  lemma EnumeratedListing(nodes: map<Path, Node>, dir: Path, es: seq<DirEntry>)
    requires Enumerated(nodes, dir, es, {})
    ensures IsListing(nodes, dir, es)
  {
    forall n | Child(dir, n) in nodes ensures exists i :: 0 <= i < |es| && es[i].name == n {
      var q := Child(dir, n);
      assert q[..|dir|] == dir && q[|dir|] == n;
      assert n in Children(nodes, dir);
    }
  }

  /** filepath.Walk(root) collecting the regular files: their paths relative to
      root (the empty path when root itself is a file). */
  function WalkFilesOf(nodes: map<Path, Node>, root: Path): Result<set<Path>, FsError>
  {
    if root !in nodes then
      match StatOf(nodes, root) { case Err(e) => Err(e) case Ok(_) => Err(NotExist) }
    else
      Ok(set q | q in nodes.Keys && |q| >= |root| && q[..|root|] == root && nodes[q].File? :: q[|root|..])
  }

  lemma PrefixOfPrefix(p: Path, k: nat)
    requires 0 < k <= |p|
    ensures Parent(p[..k]) == p[..k - 1]
  {
  }

  lemma MkdirAllKeepsTree(nodes: map<Path, Node>, p: Path)
    requires IsTree(nodes)
    ensures IsTree(MkdirAllOf(nodes, p).1)
  {
    if !FileOnPath(nodes, p, |p|) {
      var n := nodes + NewDirs(nodes, p);
      forall q | q in n && q != [] ensures Parent(q) in n && n[Parent(q)] == Dir {
        if q !in nodes {
          var k :| 0 <= k <= |p| && q == p[..k] && p[..k] !in nodes;
          PrefixOfPrefix(p, k);
          if p[..k - 1] in nodes {
            assert !nodes[p[..k - 1]].File?;
          }
        }
      }
    }
  }

  /** In a tree every proper prefix of a present path is a present directory. */
  lemma {:induction false} TreeAncestor(nodes: map<Path, Node>, q: Path, k: nat)
    requires IsTree(nodes) && q in nodes && k < |q|
    ensures q[..k] in nodes && nodes[q[..k]] == Dir
    decreases |q| - k
  {
    PrefixOfPrefix(q, |q|);
    assert q[..|q|] == q;
    if k < |q| - 1 {
      TreeAncestor(nodes, q[..|q| - 1], k);
      assert q[..|q| - 1][..k] == q[..k];
    }
  }

  /** The file system of the process: the only state every store operation
      changes. */
  class FileSystem {
    var nodes: map<Path, Node>

    ghost predicate Valid()
      reads this
    {
      IsTree(nodes)
    }

    constructor (initial: map<Path, Node>)
      requires IsTree(initial)
      ensures Valid() && nodes == initial
    {
      nodes := initial;
    }

    /** os.Stat: the primitive, specified by StatOf. */
    method Stat(p: Path) returns (r: Result<Node, FsError>)
      ensures r == StatOf(nodes, p)
    {
      r := StatOf(nodes, p);
    }

    method MkdirAll(p: Path) returns (err: Option<FsError>)
      requires Valid()
      modifies this
      ensures Valid()
      ensures (err, nodes) == MkdirAllOf(old(nodes), p)
    {
      MkdirAllKeepsTree(nodes, p);
      var r := MkdirAllOf(nodes, p);
      err, nodes := r.0, r.1;
    }

    method WriteFile(p: Path, d: Data) returns (err: Option<FsError>)
      requires Valid()
      modifies this
      ensures Valid()
      ensures err == WriteErrorOf(old(nodes), p)
      ensures nodes == if err.None? then old(nodes)[p := File(d)] else old(nodes)
    {
      err := WriteErrorOf(nodes, p);
      if err.None? {
        nodes := nodes[p := File(d)];
      }
    }

    method ReadFile(p: Path) returns (r: Result<Data, FsError>)
      ensures r == ReadFileOf(nodes, p)
    {
      r := ReadFileOf(nodes, p);
    }

    /** os.ReadDir: the entries of dir, each child once. */
    method ReadDir(dir: Path) returns (r: Result<seq<DirEntry>, FsError>)
      ensures r.Err? <==> !(dir in nodes && nodes[dir] == Dir)
      ensures r.Ok? ==> IsListing(nodes, dir, r.value)
    {
      if !(dir in nodes && nodes[dir] == Dir) {
        r := Err(if dir in nodes then NotDir else (match StatOf(nodes, dir) case Err(e) => e case Ok(_) => NotExist));
        return;
      }
      var left := Children(nodes, dir);
      var es: seq<DirEntry> := [];
      while left != {}
        invariant Enumerated(nodes, dir, es, left)
        decreases left
      {
        var n :| n in left;
        ChildOfChildren(nodes, dir, n);
        var e := DirEntry(n, nodes[Child(dir, n)] == Dir);
        EnumerateStep(nodes, dir, es, left, n, e);
        es := es + [e];
        left := left - {n};
      }
      EnumeratedListing(nodes, dir, es);
      r := Ok(es);
    }

    /** filepath.Walk collecting regular files: the primitive, specified by
        WalkFilesOf. */
    method Walk(root: Path) returns (r: Result<set<Path>, FsError>)
      ensures r == WalkFilesOf(nodes, root)
    {
      r := WalkFilesOf(nodes, root);
    }
  }
}
