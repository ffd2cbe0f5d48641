/** The project store of the app package (app/project.go): reading and writing a
    project's record, creating a project directory with its scaffold, and listing
    the projects under a base directory. The scaffolded create is shared with the
    command-line tool (module Cli), which only uses a different scaffold list. */
module ProjectStore {
  import opened Wrappers
  import opened Text
  import opened Ids
  import opened Records
  import opened Fs

  /** What the store reports instead of a result; every case ends the Go process
      with log.Fatalf except where a caller ignores or prints it. */
  datatype StoreError =
    | AlreadyExists(id: string)
    | DoesNotExist(id: string)
    | ReadFailed(path: Path, cause: FsError)
    | ParseFailed(path: Path)
    | MkdirFailed(path: Path, cause: FsError)
    | WriteFailed(path: Path, cause: FsError)
    | ListFailed(path: Path, cause: FsError)
    | ArchiveCreateFailed(path: Path, cause: FsError)
    | WalkFailed(path: Path, cause: FsError)

  /** The subdirectories CreateProject gives every project (app/project.go). */
  const AppScaffold: seq<Path> := [["Docs"], ["Planning"], ["Logs"], ["Exports"]]

  /** Reading and unmarshalling the record file at a path; a file that is not a
      project record fails to parse. */
  function RecordAt(nodes: map<Path, Node>, file: Path): Result<Project, StoreError>
  {
    match ReadFileOf(nodes, file)
    case Err(e) => Err(ReadFailed(file, e))
    case Ok(d) => if d.ProjectYaml? then Ok(d.project) else Err(ParseFailed(file))
  }

  /** The directory of the project with identifier id: baseDir joined with the
      normalised identifier. */
  function ProjectDir(baseDir: Path, id: string): Path
  {
    Join(baseDir, ValidateID(id))
  }

  /** ReadProjectFile's result on a given file system. */
  function ReadRecordOf(nodes: map<Path, Node>, baseDir: Path, id: string): Result<Project, StoreError>
  {
    RecordAt(nodes, RecordPath(ProjectDir(baseDir, id)))
  }

  /** ReadProjectFile: normalises id and reads baseDir/ID/project.yaml; a read or
      parse failure is returned, not fatal. */
  method ReadProjectFile(fs: FileSystem, baseDir: Path, id: string) returns (r: Result<Project, StoreError>)
    ensures r == ReadRecordOf(fs.nodes, baseDir, id)
  {
    var nid := ValidateID(id);
    var file := RecordPath(Join(baseDir, nid));
    var data := fs.ReadFile(file);
    match data {
      case Err(e) => r := Err(ReadFailed(file, e));
      case Ok(d) => r := if d.ProjectYaml? then Ok(d.project) else Err(ParseFailed(file));
    }
  }

  /** Two identifiers with the same normal form name the same record. */
  lemma ReadNormalises(nodes: map<Path, Node>, baseDir: Path, id: string)
    ensures ReadRecordOf(nodes, baseDir, id) == ReadRecordOf(nodes, baseDir, ValidateID(id))
  {
    ValidateIDIdempotent(id);
  }

  /** The file system after WriteProjectFile(p) succeeded. */
  function WithRecord(nodes: map<Path, Node>, p: Project): map<Path, Node>
  {
    nodes[RecordPath(p.path) := File(ProjectYaml(p))]
  }

  /** WriteProjectFile: writes p to p.Path/project.yaml (marshalling a record
      cannot fail); a write failure is returned. */
  method WriteProjectFile(fs: FileSystem, p: Project) returns (err: Option<StoreError>)
    requires fs.Valid()
    modifies fs
    ensures fs.Valid()
    ensures err.None? <==> WriteErrorOf(old(fs.nodes), RecordPath(p.path)).None?
    ensures err.Some? ==> err.value == WriteFailed(RecordPath(p.path), WriteErrorOf(old(fs.nodes), RecordPath(p.path)).value)
    ensures fs.nodes == if err.None? then WithRecord(old(fs.nodes), p) else old(fs.nodes)
  {
    var file := RecordPath(p.path);
    var e := fs.WriteFile(file, ProjectYaml(p));
    err := if e.Some? then Some(WriteFailed(file, e.value)) else None;
  }

  /** A record written for a project whose path is its directory under baseDir is
      read back unchanged by ReadProjectFile(baseDir, ID). */
  lemma WriteThenRead(nodes: map<Path, Node>, baseDir: Path, p: Project)
    requires p.path == ProjectDir(baseDir, p.id)
    ensures ReadRecordOf(WithRecord(nodes, p), baseDir, p.id) == Ok(p)
  {
  }

  /** Writing one record leaves the reading of another unchanged, unless the written
      file lies on the path to that other record. */
  lemma ReadOtherRecordUnaffected(nodes: map<Path, Node>, baseDir: Path, p: Project, id: string)
    requires !Within(RecordPath(ProjectDir(baseDir, id)), RecordPath(p.path))
    ensures ReadRecordOf(WithRecord(nodes, p), baseDir, id) == ReadRecordOf(nodes, baseDir, id)
  {
    var file := RecordPath(ProjectDir(baseDir, id));
    var n := WithRecord(nodes, p);
    assert file in n <==> file in nodes;
    if file !in nodes {
      forall k | 0 <= k < |file| ensures (file[..k] in n && n[file[..k]].File?) <==> (file[..k] in nodes && nodes[file[..k]].File?) {
        if file[..k] == RecordPath(p.path) {
          assert Within(file, RecordPath(p.path));
        }
      }
      assert FileOnPath(n, file, |file| - 1) == FileOnPath(nodes, file, |file| - 1);
    }
  }

  // ----- creating a project -----

  /** Creating every scaffold directory below root in turn, stopping at the first
      failure (the directories made before it remain). */
  function MkdirEachOf(nodes: map<Path, Node>, root: Path, dirs: seq<Path>): (Option<StoreError>, map<Path, Node>)
    decreases |dirs|
  {
    if dirs == [] then (None, nodes)
    else
      var sub := JoinAll(root, dirs[0]);
      var (e, n) := MkdirAllOf(nodes, sub);
      if e.Some? then (Some(MkdirFailed(sub, e.value)), n)
      else MkdirEachOf(n, root, dirs[1..])
  }

  /** The record a successful create writes. */
  function NewRecord(baseDir: Path, p: Params, now: string): Project
  {
    Project(ValidateID(p.id), p.name, p.status, TagList(p.tags), now, p.description, Join(baseDir, ValidateID(p.id)))
  }

  /** The outcome of a create on a given file system: the result and the file
      system afterwards. */
  function CreateOf(nodes: map<Path, Node>, baseDir: Path, dirs: seq<Path>, p: Params, now: string): (Result<Project, StoreError>, map<Path, Node>)
  {
    var id := ValidateID(p.id);
    var path := Join(baseDir, id);
    if StatOf(nodes, path) != Err(NotExist) then (Err(AlreadyExists(id)), nodes)
    else
      var (e1, n1) := MkdirAllOf(nodes, path);
      if e1.Some? then (Err(MkdirFailed(path, e1.value)), n1)
      else
        var (e2, n2) := MkdirEachOf(n1, path, dirs);
        if e2.Some? then (Err(e2.value), n2)
        else
          var proj := NewRecord(baseDir, p, now);
          var e3 := WriteErrorOf(n2, RecordPath(path));
          if e3.Some? then (Err(WriteFailed(RecordPath(path), e3.value)), n2)
          else (Ok(proj), WithRecord(n2, proj))
  }

  /** The create of both createProject (main.go) and CreateProject
      (app/project.go): refuse an existing path, make the project directory and
      each scaffold directory, then write the record. */
  method CreateScaffolded(fs: FileSystem, baseDir: Path, dirs: seq<Path>, p: Params, now: string)
    returns (r: Result<Project, StoreError>)
    requires fs.Valid()
    modifies fs
    ensures fs.Valid()
    ensures (r, fs.nodes) == CreateOf(old(fs.nodes), baseDir, dirs, p, now)
  {
    var id := ValidateID(p.id);
    var path := Join(baseDir, id);
    var st := fs.Stat(path);
    if st != Err(NotExist) {
      return Err(AlreadyExists(id));
    }
    var e := fs.MkdirAll(path);
    if e.Some? {
      return Err(MkdirFailed(path, e.value));
    }
    ghost var afterRoot := fs.nodes;
    var i := 0;
    while i < |dirs|
      invariant 0 <= i <= |dirs|
      invariant fs.Valid()
      invariant MkdirEachOf(afterRoot, path, dirs) == MkdirEachOf(fs.nodes, path, dirs[i..])
    {
      assert dirs[i..][1..] == dirs[i + 1..];
      var sub := JoinAll(path, dirs[i]);
      e := fs.MkdirAll(sub);
      if e.Some? {
        return Err(MkdirFailed(sub, e.value));
      }
      i := i + 1;
    }
    var tags := CleanTags(p.tags);
    var proj := Project(id, p.name, p.status, tags, now, p.description, path);
    var we := WriteProjectFile(fs, proj);
    if we.Some? {
      return Err(we.value);
    }
    r := Ok(proj);
  }

  /** CreateProject (app/project.go): the scaffolded create with Docs, Planning,
      Logs and Exports; every error ends the process. */
  method CreateProject(fs: FileSystem, baseDir: Path, p: Params, now: string) returns (r: Result<Project, StoreError>)
    requires fs.Valid()
    modifies fs
    ensures fs.Valid()
    ensures (r, fs.nodes) == CreateOf(old(fs.nodes), baseDir, AppScaffold, p, now)
  {
    r := CreateScaffolded(fs, baseDir, AppScaffold, p, now);
  }

  lemma AppScaffoldWellFormed()
    ensures IsScaffold(AppScaffold)
  {
    assert forall i :: 0 <= i < |AppScaffold| ==> ScaffoldDir(AppScaffold[i]);
  }

  /** CreateProject on a free path: Docs, Planning, Logs and Exports exist, the
      record carries the status exactly as given and the cleaned tags, and
      ReadProjectFile(baseDir, id) reads it back. */
  lemma AppCreateThenRead(nodes: map<Path, Node>, baseDir: Path, p: Params, now: string)
    requires IsTree(nodes) && StatOf(nodes, ProjectDir(baseDir, p.id)) == Err(NotExist)
    ensures var (r, n) := CreateOf(nodes, baseDir, AppScaffold, p, now);
      && r == Ok(NewRecord(baseDir, p, now))
      && r.value.status == p.status && r.value.tags == TagList(p.tags)
      && r.value.path == ProjectDir(baseDir, p.id)
      && ScaffoldBuilt(n, ProjectDir(baseDir, p.id), AppScaffold)
      && ReadRecordOf(n, baseDir, p.id) == r
  {
    AppScaffoldWellFormed();
    CreateOnFreePath(nodes, baseDir, AppScaffold, p, now);
  }

  // ----- what a create guarantees -----

  /** A well-formed scaffold: each directory is a non-empty relative path with no
      empty component, and none starts with the record's file name. */
  predicate IsScaffold(dirs: seq<Path>) {
    forall i :: 0 <= i < |dirs| ==> ScaffoldDir(dirs[i])
  }

  predicate ScaffoldDir(d: Path) {
    d != [] && d[0] != RecordFile && forall j :: 0 <= j < |d| ==> d[j] != ""
  }

  lemma {:induction false} JoinAllPlain(dir: Path, rel: Path)
    requires forall j :: 0 <= j < |rel| ==> rel[j] != ""
    ensures JoinAll(dir, rel) == dir + rel
    decreases |rel|
  {
    if rel != [] {
      JoinAllPlain(dir + [rel[0]], rel[1..]);
      assert dir + [rel[0]] + rel[1..] == dir + rel;
    }
  }

  /** The state a create keeps below a freshly made project directory path:
      path and its prefixes are directories, and everything below path is a
      directory whose first component below path is not the record's name. */
  ghost predicate FreshBelow(nodes: map<Path, Node>, path: Path) {
    && IsTree(nodes)
    && (forall k :: 0 <= k <= |path| ==> path[..k] in nodes && nodes[path[..k]] == Dir)
    && (forall q :: q in nodes && Within(q, path) && q != path ==> nodes[q] == Dir && q[|path|] != RecordFile)
  }

  /** n extends m without changing any of m's entries. */
  ghost predicate Extends(n: map<Path, Node>, m: map<Path, Node>) {
    forall q :: q in m ==> q in n && n[q] == m[q]
  }

  lemma MkdirRootFresh(nodes: map<Path, Node>, path: Path)
    requires IsTree(nodes) && StatOf(nodes, path) == Err(NotExist)
    ensures MkdirAllOf(nodes, path).0.None?
    ensures FreshBelow(MkdirAllOf(nodes, path).1, path)
    ensures forall q :: q in nodes ==> !Within(q, path)
    ensures Extends(MkdirAllOf(nodes, path).1, nodes)
  {
    assert path != [];
    forall q | q in nodes ensures !Within(q, path) {
      if Within(q, path) {
        if q == path {
        } else {
          TreeAncestor(nodes, q, |path|);
        }
      }
    }
    assert path[..|path|] == path;
    assert !FileOnPath(nodes, path, |path|);
    MkdirAllKeepsTree(nodes, path);
    var n := MkdirAllOf(nodes, path).1;
    forall k | 0 <= k <= |path| ensures path[..k] in n && n[path[..k]] == Dir {
      if path[..k] in nodes {
        assert !nodes[path[..k]].File?;
      }
    }
    forall q | q in n ensures Within(q, path) ==> q == path {
      if q !in nodes {
        var k :| 0 <= k <= |path| && q == path[..k] && path[..k] !in nodes;
      }
    }
  }

  lemma MkdirScaffoldFresh(nodes: map<Path, Node>, path: Path, d: Path)
    requires FreshBelow(nodes, path) && ScaffoldDir(d)
    ensures MkdirAllOf(nodes, path + d).0.None?
    ensures FreshBelow(MkdirAllOf(nodes, path + d).1, path)
    ensures Extends(MkdirAllOf(nodes, path + d).1, nodes)
    ensures var n := MkdirAllOf(nodes, path + d).1; path + d in n && n[path + d] == Dir
  {
    var full := path + d;
    forall k | 0 <= k <= |full| && full[..k] in nodes ensures nodes[full[..k]] == Dir {
      if k <= |path| {
        assert full[..k] == path[..k];
      } else {
        assert Within(full[..k], path) && full[..k] != path;
      }
    }
    assert !FileOnPath(nodes, full, |full|);
    MkdirAllKeepsTree(nodes, full);
    var n := MkdirAllOf(nodes, full).1;
    forall q | q in n && Within(q, path) && q != path ensures n[q] == Dir && q[|path|] != RecordFile {
      if q !in nodes {
        var k :| 0 <= k <= |full| && q == full[..k];
        assert q[|path|] == d[0];
      }
    }
    assert full[..|full|] == full;
  }

  /** Every directory of dirs exists below path. */
  ghost predicate DirsMade(nodes: map<Path, Node>, path: Path, dirs: seq<Path>) {
    forall i :: 0 <= i < |dirs| ==> path + dirs[i] in nodes && nodes[path + dirs[i]] == Dir
  }

  /** Making the first directory (nodes to n) and then the rest (n to m). */
  lemma MkdirEachCons(nodes: map<Path, Node>, n: map<Path, Node>, m: map<Path, Node>, path: Path, dirs: seq<Path>)
    requires dirs != [] && path + dirs[0] in n && n[path + dirs[0]] == Dir
    requires Extends(n, nodes) && Extends(m, n) && DirsMade(m, path, dirs[1..])
    ensures Extends(m, nodes) && DirsMade(m, path, dirs)
  {
    forall i | 0 <= i < |dirs| ensures path + dirs[i] in m && m[path + dirs[i]] == Dir {
      if i > 0 {
        assert dirs[1..][i - 1] == dirs[i];
      }
    }
  }

  lemma ScaffoldTail(dirs: seq<Path>)
    requires IsScaffold(dirs) && dirs != []
    ensures IsScaffold(dirs[1..]) && ScaffoldDir(dirs[0])
  {
    forall i | 0 <= i < |dirs[1..]| ensures ScaffoldDir(dirs[1..][i]) {
      assert dirs[1..][i] == dirs[i + 1];
    }
  }

  /** The first step of MkdirEachOf, on a scaffold. */
  lemma MkdirEachUnfold(nodes: map<Path, Node>, path: Path, dirs: seq<Path>)
    requires dirs != [] && ScaffoldDir(dirs[0]) && MkdirAllOf(nodes, path + dirs[0]).0.None?
    ensures MkdirEachOf(nodes, path, dirs) == MkdirEachOf(MkdirAllOf(nodes, path + dirs[0]).1, path, dirs[1..])
  {
    JoinAllPlain(path, dirs[0]);
  }

  lemma {:induction false} MkdirEachFresh(nodes: map<Path, Node>, path: Path, dirs: seq<Path>)
    requires FreshBelow(nodes, path) && IsScaffold(dirs)
    ensures MkdirEachOf(nodes, path, dirs).0.None?
    ensures FreshBelow(MkdirEachOf(nodes, path, dirs).1, path)
    ensures Extends(MkdirEachOf(nodes, path, dirs).1, nodes)
    ensures DirsMade(MkdirEachOf(nodes, path, dirs).1, path, dirs)
    decreases |dirs|
  {
    if dirs != [] {
      ScaffoldTail(dirs);
      MkdirScaffoldFresh(nodes, path, dirs[0]);
      var n := MkdirAllOf(nodes, path + dirs[0]).1;
      MkdirEachUnfold(nodes, path, dirs);
      MkdirEachFresh(n, path, dirs[1..]);
      MkdirEachCons(nodes, n, MkdirEachOf(n, path, dirs[1..]).1, path, dirs);
    }
  }

  /** Below a fresh project directory the record can be written, and its path
      is not taken yet. */
  lemma RecordWritable(nodes: map<Path, Node>, path: Path)
    requires FreshBelow(nodes, path)
    ensures WriteErrorOf(nodes, RecordPath(path)).None?
    ensures RecordPath(path) !in nodes
  {
    assert Within(RecordPath(path), path);
    assert Parent(RecordPath(path)) == path;
    assert path[..|path|] == path;
  }

  /** Every scaffold directory exists below path. */
  ghost predicate ScaffoldBuilt(nodes: map<Path, Node>, path: Path, dirs: seq<Path>) {
    forall i :: 0 <= i < |dirs| ==> JoinAll(path, dirs[i]) in nodes && nodes[JoinAll(path, dirs[i])] == Dir
  }

  /** A create on a path that does not exist yet succeeds with the record of
      NewRecord (normalised identifier, cleaned tags, status as given, Path =
      baseDir/ID); every scaffold directory exists afterwards; nothing that
      existed before is changed; and ReadProjectFile(baseDir, id) reads the record
      back. */
  lemma CreateOnFreePath(nodes: map<Path, Node>, baseDir: Path, dirs: seq<Path>, p: Params, now: string)
    requires IsTree(nodes) && IsScaffold(dirs)
    requires StatOf(nodes, ProjectDir(baseDir, p.id)) == Err(NotExist)
    ensures CreateOf(nodes, baseDir, dirs, p, now).0 == Ok(NewRecord(baseDir, p, now))
    ensures ScaffoldBuilt(CreateOf(nodes, baseDir, dirs, p, now).1, ProjectDir(baseDir, p.id), dirs)
    ensures Extends(CreateOf(nodes, baseDir, dirs, p, now).1, nodes)
    ensures ProjectDir(baseDir, p.id) in CreateOf(nodes, baseDir, dirs, p, now).1
    ensures ReadRecordOf(CreateOf(nodes, baseDir, dirs, p, now).1, baseDir, p.id) == Ok(NewRecord(baseDir, p, now))
  {
    var path := ProjectDir(baseDir, p.id);
    ScaffoldOnFreePath(nodes, path, dirs);
    var n2 := MkdirEachOf(MkdirAllOf(nodes, path).1, path, dirs).1;
    var proj := NewRecord(baseDir, p, now);
    CreateSteps(nodes, baseDir, dirs, p, now);
    ValidateIDIdempotent(p.id);
    WriteThenRead(n2, baseDir, proj);
    ScaffoldKept(n2, path, dirs, proj);
    RecordKeepsOld(n2, nodes, proj);
  }

  lemma RecordKeepsOld(n2: map<Path, Node>, nodes: map<Path, Node>, proj: Project)
    requires Extends(n2, nodes) && RecordPath(proj.path) !in nodes
    ensures Extends(WithRecord(n2, proj), nodes)
  {
  }

  /** The directories a create makes on a free path: all of them succeed, nothing
      present before changes, and the record's path stays writable. */
  lemma ScaffoldOnFreePath(nodes: map<Path, Node>, path: Path, dirs: seq<Path>)
    requires IsTree(nodes) && IsScaffold(dirs) && StatOf(nodes, path) == Err(NotExist)
    ensures MkdirAllOf(nodes, path).0.None?
    ensures var n2 := MkdirEachOf(MkdirAllOf(nodes, path).1, path, dirs);
      && n2.0.None?
      && Extends(n2.1, nodes)
      && path in n2.1
      && RecordPath(path) !in nodes
      && WriteErrorOf(n2.1, RecordPath(path)).None?
      && DirsMade(n2.1, path, dirs)
  {
    MkdirRootFresh(nodes, path);
    var n1 := MkdirAllOf(nodes, path).1;
    MkdirEachFresh(n1, path, dirs);
    var n2 := MkdirEachOf(n1, path, dirs).1;
    RecordWritable(n2, path);
    forall q | q in nodes ensures q in n2 && n2[q] == nodes[q] {
      assert q in n1 && n1[q] == nodes[q];
    }
    assert Within(RecordPath(path), path);
    assert path[..|path|] == path;
  }

  /** The success path of CreateOf, step by step. */
  lemma CreateSteps(nodes: map<Path, Node>, baseDir: Path, dirs: seq<Path>, p: Params, now: string)
    requires var path := ProjectDir(baseDir, p.id);
      && StatOf(nodes, path) == Err(NotExist)
      && MkdirAllOf(nodes, path).0.None?
      && MkdirEachOf(MkdirAllOf(nodes, path).1, path, dirs).0.None?
      && WriteErrorOf(MkdirEachOf(MkdirAllOf(nodes, path).1, path, dirs).1, RecordPath(path)).None?
    ensures var path := ProjectDir(baseDir, p.id);
      CreateOf(nodes, baseDir, dirs, p, now) == (Ok(NewRecord(baseDir, p, now)), WithRecord(MkdirEachOf(MkdirAllOf(nodes, path).1, path, dirs).1, NewRecord(baseDir, p, now)))
  {
  }

  lemma ScaffoldKept(n2: map<Path, Node>, path: Path, dirs: seq<Path>, proj: Project)
    requires IsScaffold(dirs) && proj.path == path
    requires DirsMade(n2, path, dirs)
    ensures ScaffoldBuilt(WithRecord(n2, proj), path, dirs)
  {
    forall i | 0 <= i < |dirs| ensures var n := WithRecord(n2, proj); JoinAll(path, dirs[i]) in n && n[JoinAll(path, dirs[i])] == Dir {
      assert ScaffoldDir(dirs[i]);
      JoinAllPlain(path, dirs[i]);
      assert (path + dirs[i])[|path|] == dirs[i][0];
    }
  }

  /** A create that is refused because baseDir/ID exists (as a directory, a file,
      or below a file) changes nothing. */
  lemma CreateRefusesExisting(nodes: map<Path, Node>, baseDir: Path, dirs: seq<Path>, p: Params, now: string)
    requires StatOf(nodes, ProjectDir(baseDir, p.id)) != Err(NotExist)
    ensures CreateOf(nodes, baseDir, dirs, p, now) == (Err(AlreadyExists(ValidateID(p.id))), nodes)
  {
  }

  lemma {:induction false} MkdirEachOnlyDirs(nodes: map<Path, Node>, root: Path, dirs: seq<Path>)
    ensures var n := MkdirEachOf(nodes, root, dirs).1;
      Extends(n, nodes) && forall q :: q in n && q !in nodes ==> n[q] == Dir
    decreases |dirs|
  {
    if dirs != [] {
      var sub := JoinAll(root, dirs[0]);
      MkdirEachOnlyDirs(MkdirAllOf(nodes, sub).1, root, dirs[1..]);
    }
  }

  /** A create that fails writes no file: the only changes it leaves behind are
      new directories, so the record is never written before the scaffold is
      complete. */
  lemma CreateFailureWritesNoFile(nodes: map<Path, Node>, baseDir: Path, dirs: seq<Path>, p: Params, now: string)
    ensures var (r, n) := CreateOf(nodes, baseDir, dirs, p, now);
      r.Err? ==> Extends(n, nodes) && forall q :: q in n && q !in nodes ==> n[q] == Dir
  {
    var path := ProjectDir(baseDir, p.id);
    var n1 := MkdirAllOf(nodes, path).1;
    MkdirEachOnlyDirs(n1, path, dirs);
  }

  // ----- listing projects -----

  /** The entries both list commands consider: directories other than "Archive"
      whose names do not start with a dot. */
  predicate Listed(e: DirEntry) {
    e.isDir && e.name != "Archive" && !IsPrefix(".", e.name)
  }

  /** The record an entry yields: ListProjects reads it under the normalised
      identifier, listProjects (main.go) under the entry's own name. */
  function EntryRecord(nodes: map<Path, Node>, baseDir: Path, name: string, normalise: bool): Result<Project, StoreError>
  {
    if normalise then ReadRecordOf(nodes, baseDir, name)
    else RecordAt(nodes, RecordPath(Join(baseDir, name)))
  }

  /** The row an entry prints: none when it is not listed or its record fails. */
  function RowOf(nodes: map<Path, Node>, baseDir: Path, e: DirEntry, normalise: bool): seq<Project>
  {
    var rec := EntryRecord(nodes, baseDir, e.name, normalise);
    if Listed(e) && rec.Ok? then [rec.value] else []
  }

  /** The rows printed for the entries, in enumeration order. */
  function ListedRows(nodes: map<Path, Node>, baseDir: Path, es: seq<DirEntry>, normalise: bool): seq<Project>
  {
    Collect(es, e => RowOf(nodes, baseDir, e, normalise))
  }

  /** Entry e is listed and its record is p. */
  predicate Yields(nodes: map<Path, Node>, baseDir: Path, e: DirEntry, normalise: bool, p: Project) {
    Listed(e) && EntryRecord(nodes, baseDir, e.name, normalise) == Ok(p)
  }

  /** What a listing prints: the directory entries in enumeration order, one row
      per readable project, and whether any was found. */
  datatype Listing = Listing(entries: seq<DirEntry>, rows: seq<Project>, found: bool)

  /** The loop shared by ListProjects and listProjects (main.go): read baseDir,
      skip unlisted entries and entries whose record fails, print the rest. */
  method ScanProjects(fs: FileSystem, baseDir: Path, normalise: bool) returns (r: Result<Listing, StoreError>)
    ensures r.Err? <==> !(baseDir in fs.nodes && fs.nodes[baseDir] == Dir)
    ensures r.Ok? ==> IsListing(fs.nodes, baseDir, r.value.entries)
    ensures r.Ok? ==> r.value.rows == ListedRows(fs.nodes, baseDir, r.value.entries, normalise)
    ensures r.Ok? ==> (r.value.found <==> r.value.rows != [])
  {
    var listing := fs.ReadDir(baseDir);
    if listing.Err? {
      return Err(ListFailed(baseDir, listing.error));
    }
    var entries := listing.value;
    var rows: seq<Project> := [];
    var found := false;
    var i := 0;
    while i < |entries|
      invariant 0 <= i <= |entries|
      invariant rows == ListedRows(fs.nodes, baseDir, entries[..i], normalise)
      invariant found <==> rows != []
    {
      var row := EntryRow(fs, baseDir, entries[i], normalise);
      ScanStep(fs.nodes, baseDir, entries, i, normalise, row);
      rows := rows + row;
      found := found || row != [];
      i := i + 1;
    }
    assert entries[..i] == entries;
    r := Ok(Listing(entries, rows, found));
  }

  /** The body of the scan for one entry: skip it unless listed, read its record,
      and print nothing when the read fails. */
  method EntryRow(fs: FileSystem, baseDir: Path, e: DirEntry, normalise: bool) returns (row: seq<Project>)
    ensures row == RowOf(fs.nodes, baseDir, e, normalise)
  {
    row := [];
    if !e.isDir || e.name == "Archive" || IsPrefix(".", e.name) {
      return;
    }
    var rec: Result<Project, StoreError>;
    if normalise {
      rec := ReadProjectFile(fs, baseDir, e.name);
    } else {
      var file := RecordPath(Join(baseDir, e.name));
      var data := fs.ReadFile(file);
      rec := match data
        case Err(err) => Err(ReadFailed(file, err))
        case Ok(d) => if d.ProjectYaml? then Ok(d.project) else Err(ParseFailed(file));
    }
    if rec.Ok? {
      row := [rec.value];
    }
  }

  /** One entry of the scan adds that entry's row. */
  lemma ScanStep(nodes: map<Path, Node>, baseDir: Path, es: seq<DirEntry>, i: nat, normalise: bool, row: seq<Project>)
    requires i < |es| && row == RowOf(nodes, baseDir, es[i], normalise)
    ensures ListedRows(nodes, baseDir, es[..i + 1], normalise) == ListedRows(nodes, baseDir, es[..i], normalise) + row
  {
    assert es[..i + 1][..i] == es[..i];
  }

  /** ListProjects (app/project.go): a base directory that cannot be read is
      fatal; otherwise every listed entry is read at its normalised identifier. */
  method ListProjects(fs: FileSystem, baseDir: Path) returns (r: Result<Listing, StoreError>)
    ensures r.Err? <==> !(baseDir in fs.nodes && fs.nodes[baseDir] == Dir)
    ensures r.Ok? ==> IsListing(fs.nodes, baseDir, r.value.entries)
    ensures r.Ok? ==> r.value.rows == ListedRows(fs.nodes, baseDir, r.value.entries, true)
    ensures r.Ok? ==> (r.value.found <==> r.value.rows != [])
  {
    r := ScanProjects(fs, baseDir, true);
  }

  /** A project is printed exactly when some listed entry's record yields it. */
  lemma ListedRowsMembers(nodes: map<Path, Node>, baseDir: Path, es: seq<DirEntry>, normalise: bool, p: Project)
    ensures p in ListedRows(nodes, baseDir, es, normalise) <==>
      exists i :: 0 <= i < |es| && Yields(nodes, baseDir, es[i], normalise, p)
  {
    var row := e => RowOf(nodes, baseDir, e, normalise);
    CollectMembers(es, row, p);
    if exists i :: 0 <= i < |es| && Yields(nodes, baseDir, es[i], normalise, p) {
      var i :| 0 <= i < |es| && Yields(nodes, baseDir, es[i], normalise, p);
      assert p in row(es[i]);
    }
    if exists i :: 0 <= i < |es| && p in row(es[i]) {
      var i :| 0 <= i < |es| && p in row(es[i]);
      assert Yields(nodes, baseDir, es[i], normalise, p);
    }
  }

  lemma ListedRowsAppend(nodes: map<Path, Node>, baseDir: Path, a: seq<DirEntry>, b: seq<DirEntry>, normalise: bool)
    ensures ListedRows(nodes, baseDir, a + b, normalise) == ListedRows(nodes, baseDir, a, normalise) + ListedRows(nodes, baseDir, b, normalise)
  {
    CollectAppend(a, b, e => RowOf(nodes, baseDir, e, normalise));
  }

  lemma SkippedRow(nodes: map<Path, Node>, baseDir: Path, e: DirEntry, normalise: bool)
    requires !Listed(e) || EntryRecord(nodes, baseDir, e.name, normalise).Err?
    ensures ListedRows(nodes, baseDir, [e], normalise) == []
  {
    var row := e => RowOf(nodes, baseDir, e, normalise);
    assert [e][..0] == [];
    assert Collect([e], row) == Collect([], row) + row(e);
  }

  /** An entry that is skipped (unlisted, or its record does not read or parse)
      contributes nothing, and the entries after it are still listed. */
  lemma SkippedEntryKeepsGoing(nodes: map<Path, Node>, baseDir: Path, a: seq<DirEntry>, e: DirEntry, b: seq<DirEntry>, normalise: bool)
    requires !Listed(e) || EntryRecord(nodes, baseDir, e.name, normalise).Err?
    ensures ListedRows(nodes, baseDir, a + [e] + b, normalise) == ListedRows(nodes, baseDir, a, normalise) + ListedRows(nodes, baseDir, b, normalise)
  {
    SkippedRow(nodes, baseDir, e, normalise);
    ListedRowsAppend(nodes, baseDir, a + [e], b, normalise);
    ListedRowsAppend(nodes, baseDir, a, [e], normalise);
  }

  /** ListProjects reads an entry under its normalised identifier: where file
      names compare case-sensitively, a directory "cp-1" holding a record is not
      listed by ListProjects, which looks in "CP-1", while listProjects (main.go)
      lists it. On a case-insensitive file system both would list it. */
  lemma UnnormalisedDirectoryName(x: Project)
    ensures var nodes := map[[] := Dir, ["b"] := Dir, ["b", "cp-1"] := Dir, ["b", "cp-1", RecordFile] := File(ProjectYaml(x))];
      var es := [DirEntry("cp-1", true)];
      ListedRows(nodes, ["b"], es, true) == [] && ListedRows(nodes, ["b"], es, false) == [x]
  {
    var nodes := map[[] := Dir, ["b"] := Dir, ["b", "cp-1"] := Dir, ["b", "cp-1", RecordFile] := File(ProjectYaml(x))];
    var es := [DirEntry("cp-1", true)];
    assert ValidateID("cp-1") == "CP-1";
    var file := ["b", "CP-1", RecordFile];
    assert file !in nodes;
    assert !FileOnPath(nodes, file, |file| - 1) by {
      forall k | 0 <= k <= |file| - 1 ensures !(file[..k] in nodes && nodes[file[..k]].File?) {
        if k == 0 { assert file[..k] == []; }
        else if k == 1 { assert file[..k] == ["b"]; }
        else { assert file[..k] == ["b", "CP-1"]; }
      }
    }
    assert StatOf(nodes, file) == Err(NotExist);
    assert ProjectDir(["b"], "cp-1") == ["b", "CP-1"];
    assert RecordPath(ProjectDir(["b"], "cp-1")) == file;
    assert ReadFileOf(nodes, file) == Err(NotExist);
    assert ReadRecordOf(nodes, ["b"], "cp-1") == Err(ReadFailed(file, NotExist));
    assert RecordPath(Join(["b"], "cp-1")) == ["b", "cp-1", RecordFile];
    assert RecordAt(nodes, ["b", "cp-1", RecordFile]) == Ok(x);
    assert es[..0] == [];
    assert ListedRows(nodes, ["b"], es, true) == RowOf(nodes, ["b"], es[0], true);
    assert ListedRows(nodes, ["b"], es, false) == RowOf(nodes, ["b"], es[0], false);
  }
}
