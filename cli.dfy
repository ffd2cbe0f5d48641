/** The command-line tool's project commands (main.go): each command reads
    and writes the same file system as the app package, and every failure is a
    log.Fatalf, modelled as an Err outcome after which nothing else happens. */
module Cli {
  import opened Wrappers
  import opened Text
  import opened Ids
  import opened Records
  import opened Fs
  import opened ProjectStore

  /** The thirteen subdirectories createProject gives every project. */
  const DefaultDirs: seq<Path> := [
    ["Design", "Drawings"], ["Design", "Specs"],
    ["PLC", "Programs"], ["PLC", "HMI"], ["PLC", "Symbols"], ["PLC", "Configs"],
    ["BOM", "exports"], ["Docs", "Notes"],
    ["Tests", "Simulations"], ["Tests", "Logs"],
    ["Tags"], ["Tools"], ["Archive"]]

  /** The default of the -status flag, which both new and update receive. */
  const DefaultStatusFlag := "active"

  const ArchiveStatus := "archived"

  /** Where archives go: baseDir/Archive, created at start-up. */
  function ArchiveDir(baseDir: Path): Path
  {
    Join(baseDir, "Archive")
  }

  /** The start-up step: create the archive directory, fatally on failure. */
  method Init(fs: FileSystem, baseDir: Path) returns (r: Option<StoreError>)
    requires fs.Valid()
    modifies fs
    ensures fs.Valid()
    ensures (r.None?, fs.nodes) == (MkdirAllOf(old(fs.nodes), ArchiveDir(baseDir)).0.None?, MkdirAllOf(old(fs.nodes), ArchiveDir(baseDir)).1)
  {
    var e := fs.MkdirAll(ArchiveDir(baseDir));
    r := if e.Some? then Some(MkdirFailed(ArchiveDir(baseDir), e.value)) else None;
  }

  lemma DefaultDirsScaffold()
    ensures IsScaffold(DefaultDirs)
    ensures |DefaultDirs| == 13
  {
    assert forall i :: 0 <= i < |DefaultDirs| ==> ScaffoldDir(DefaultDirs[i]);
  }

  // ----- readProjectFile -----

  /** readProjectFile's outcome: a missing project directory is "does not
      exist"; otherwise the record file must read and parse. The identifier is
      taken as given (callers normalise it). */
  function ReadOf(nodes: map<Path, Node>, baseDir: Path, id: string): Result<Project, StoreError>
  {
    var dir := Join(baseDir, id);
    if StatOf(nodes, dir) == Err(NotExist) then Err(DoesNotExist(id))
    else RecordAt(nodes, RecordPath(dir))
  }

  method ReadProjectFile(fs: FileSystem, baseDir: Path, id: string) returns (r: Result<Project, StoreError>)
    ensures r == ReadOf(fs.nodes, baseDir, id)
  {
    var dir := Join(baseDir, id);
    var st := fs.Stat(dir);
    if st == Err(NotExist) {
      return Err(DoesNotExist(id));
    }
    var file := RecordPath(dir);
    var data := fs.ReadFile(file);
    match data {
      case Err(e) => r := Err(ReadFailed(file, e));
      case Ok(d) => r := if d.ProjectYaml? then Ok(d.project) else Err(ParseFailed(file));
    }
  }

  /** Whenever a record is found, it is the one ReadProjectFile of the app package
      finds for the same normalised identifier. */
  lemma ReadAgreesWithApp(nodes: map<Path, Node>, baseDir: Path, id: string)
    requires ReadOf(nodes, baseDir, ValidateID(id)).Ok?
    ensures ReadOf(nodes, baseDir, ValidateID(id)) == ReadRecordOf(nodes, baseDir, id)
  {
  }

  // ----- createProject -----

  /** createProject: the shared create with the thirteen default directories. */
  method CreateProject(fs: FileSystem, baseDir: Path, p: Params, now: string) returns (r: Result<Project, StoreError>)
    requires fs.Valid()
    modifies fs
    ensures fs.Valid()
    ensures (r, fs.nodes) == CreateOf(old(fs.nodes), baseDir, DefaultDirs, p, now)
  {
    r := CreateScaffolded(fs, baseDir, DefaultDirs, p, now);
  }

  /** createProject on a free path: all thirteen default directories exist, the
      record has the normalised identifier, the cleaned tags and Path =
      baseDir/ID, and readProjectFile(ID) returns it. */
  lemma CreateThenRead(nodes: map<Path, Node>, baseDir: Path, p: Params, now: string)
    requires IsTree(nodes) && StatOf(nodes, ProjectDir(baseDir, p.id)) == Err(NotExist)
    ensures var (r, n) := CreateOf(nodes, baseDir, DefaultDirs, p, now);
      && r == Ok(NewRecord(baseDir, p, now))
      && ScaffoldBuilt(n, ProjectDir(baseDir, p.id), DefaultDirs)
      && ReadOf(n, baseDir, ValidateID(p.id)) == r
  {
    DefaultDirsScaffold();
    CreateOnFreePath(nodes, baseDir, DefaultDirs, p, now);
  }

  /** An identifier that normalises to nothing names baseDir itself, which
      exists, so createProject refuses it as already existing and changes
      nothing. */
  lemma EmptyIdentifierRefused(nodes: map<Path, Node>, baseDir: Path, p: Params, now: string)
    requires baseDir in nodes && ValidateID(p.id) == ""
    ensures CreateOf(nodes, baseDir, DefaultDirs, p, now) == (Err(AlreadyExists("")), nodes)
  {
  }

  // ----- updateProject -----

  /** The fields updateProject overwrites: name, description and status only
      when the given value is non-empty, tags (re-cleaned) when the given list
      is non-empty; identifier, creation time and path are kept. */
  function ApplyPatch(x: Project, p: Params): (r: Project)
    ensures r.id == x.id && r.createdAt == x.createdAt && r.path == x.path
  {
    x.(name := if p.name != "" then p.name else x.name,
       description := if p.description != "" then p.description else x.description,
       status := if p.status != "" then p.status else x.status,
       tags := if p.tags != "" then TagList(p.tags) else x.tags)
  }

  /** The outcome of updateProject: read the record of the normalised
      identifier, patch it, and write it to the Path the record itself holds. */
  function UpdateOf(nodes: map<Path, Node>, baseDir: Path, p: Params): (Result<Project, StoreError>, map<Path, Node>)
  {
    match ReadOf(nodes, baseDir, ValidateID(p.id))
    case Err(e) => (Err(e), nodes)
    case Ok(x) =>
      var y := ApplyPatch(x, p);
      var e := WriteErrorOf(nodes, RecordPath(y.path));
      if e.Some? then (Err(WriteFailed(RecordPath(y.path), e.value)), nodes)
      else (Ok(y), WithRecord(nodes, y))
  }

  method UpdateProject(fs: FileSystem, baseDir: Path, p: Params) returns (r: Result<Project, StoreError>)
    requires fs.Valid()
    modifies fs
    ensures fs.Valid()
    ensures (r, fs.nodes) == UpdateOf(old(fs.nodes), baseDir, p)
  {
    var id := ValidateID(p.id);
    var rec := ReadProjectFile(fs, baseDir, id);
    if rec.Err? {
      return Err(rec.error);
    }
    var project := rec.value;
    if p.name != "" {
      project := project.(name := p.name);
    }
    if p.description != "" {
      project := project.(description := p.description);
    }
    if p.status != "" {
      project := project.(status := p.status);
    }
    if p.tags != "" {
      var tags := CleanTags(p.tags);
      project := project.(tags := tags);
    }
    var e := WriteProjectFile(fs, project);
    if e.Some? {
      return Err(e.value);
    }
    r := Ok(project);
  }

  /** Patching with the same parameters twice changes nothing more. */
  lemma PatchIdempotent(x: Project, p: Params)
    ensures ApplyPatch(ApplyPatch(x, p), p) == ApplyPatch(x, p)
  {
  }

  /** Parameters that are all empty leave the record as it was. */
  lemma EmptyPatchKeeps(x: Project, id: string)
    ensures ApplyPatch(x, Params(id, "", "", "", "")) == x
  {
  }

  /** A field is replaced exactly when its parameter is non-empty. */
  lemma PatchReplacesGiven(x: Project, p: Params)
    ensures ApplyPatch(x, p).name == x.name <==> (p.name == "" || p.name == x.name)
    ensures ApplyPatch(x, p).description == x.description <==> (p.description == "" || p.description == x.description)
    ensures ApplyPatch(x, p).status == x.status <==> (p.status == "" || p.status == x.status)
    ensures p.tags != "" ==> ApplyPatch(x, p).tags == TagList(p.tags)
    ensures p.tags == "" ==> ApplyPatch(x, p).tags == x.tags
  {
  }

  /** The -status flag defaults to "active", so an update that does not give
      -status sets the status back to "active", whatever it was. */
  lemma UpdateResetsStatus(x: Project, id: string, name: string, desc: string, tags: string)
    ensures ApplyPatch(x, Params(id, name, desc, DefaultStatusFlag, tags)).status == "active"
  {
  }

  /** For a record kept at baseDir/ID, a successful update is read back as the
      patched record. */
  lemma UpdateThenRead(nodes: map<Path, Node>, baseDir: Path, p: Params)
    requires ReadOf(nodes, baseDir, ValidateID(p.id)).Ok?
    requires ReadOf(nodes, baseDir, ValidateID(p.id)).value.path == ProjectDir(baseDir, p.id)
    ensures var (r, n) := UpdateOf(nodes, baseDir, p);
      r.Ok? ==> r.value == ApplyPatch(ReadOf(nodes, baseDir, ValidateID(p.id)).value, p) && ReadOf(n, baseDir, ValidateID(p.id)) == r
  {
    var n := UpdateOf(nodes, baseDir, p).1;
    var dir := ProjectDir(baseDir, p.id);
    if UpdateOf(nodes, baseDir, p).0.Ok? {
      assert dir in n || StatOf(n, dir) == StatOf(nodes, dir) by {
        if dir !in nodes {
          KeptFileOnPath(nodes, n, dir);
        }
      }
    }
  }

  lemma KeptFileOnPath(nodes: map<Path, Node>, n: map<Path, Node>, dir: Path)
    requires forall q :: q in nodes ==> q in n && n[q] == nodes[q]
    requires dir !in nodes && dir !in n
    requires forall k :: 0 <= k < |dir| && dir[..k] in n ==> dir[..k] in nodes
    ensures StatOf(n, dir) == StatOf(nodes, dir)
  {
  }

  /** The record is written back to the Path it holds: when that is not
      baseDir/ID, the file read at baseDir/ID is left as it was. */
  lemma UpdateFollowsStoredPath(nodes: map<Path, Node>, baseDir: Path, p: Params)
    requires ReadOf(nodes, baseDir, ValidateID(p.id)).Ok?
    requires !Within(RecordPath(Join(baseDir, ValidateID(p.id))), RecordPath(ReadOf(nodes, baseDir, ValidateID(p.id)).value.path))
    ensures var file := RecordPath(Join(baseDir, ValidateID(p.id)));
      RecordAt(UpdateOf(nodes, baseDir, p).1, file) == RecordAt(nodes, file)
  {
    var x := ReadOf(nodes, baseDir, ValidateID(p.id)).value;
    var y := ApplyPatch(x, p);
    var file := RecordPath(Join(baseDir, ValidateID(p.id)));
    if WriteErrorOf(nodes, RecordPath(y.path)).None? {
      assert ProjectDir(baseDir, ValidateID(p.id)) == Join(baseDir, ValidateID(p.id)) by {
        ValidateIDIdempotent(p.id);
      }
      ReadOtherRecordUnaffected(nodes, baseDir, y, ValidateID(p.id));
    }
  }

  // ----- listProjects -----

  /** listProjects: like ListProjects, but each entry is read under its own
      name, not normalised. */
  method ListProjects(fs: FileSystem, baseDir: Path) returns (r: Result<Listing, StoreError>)
    ensures r.Err? <==> !(baseDir in fs.nodes && fs.nodes[baseDir] == Dir)
    ensures r.Ok? ==> IsListing(fs.nodes, baseDir, r.value.entries)
    ensures r.Ok? ==> r.value.rows == ListedRows(fs.nodes, baseDir, r.value.entries, false)
    ensures r.Ok? ==> (r.value.found <==> r.value.rows != [])
  {
    r := ScanProjects(fs, baseDir, false);
  }

  // ----- archiveProject -----

  /** The archive's path: baseDir/Archive/ID.zip. */
  function ZipPath(baseDir: Path, id: string): Path
  {
    Join(ArchiveDir(baseDir), id + ".zip")
  }

  /** The outcome of archiveProject: create an empty archive, walk the project's
      tree, mark the record archived and write it back, and only then, when the
      deferred close runs, complete the archive with the files the walk found.
      A fatal error skips the deferred close, leaving the archive incomplete. */
  function ArchiveOf(nodes: map<Path, Node>, baseDir: Path, rawId: string): (Result<Path, StoreError>, map<Path, Node>)
  {
    var id := ValidateID(rawId);
    match ReadOf(nodes, baseDir, id)
    case Err(e) => (Err(e), nodes)
    case Ok(x) =>
      var zip := ZipPath(baseDir, id);
      var e1 := WriteErrorOf(nodes, zip);
      if e1.Some? then (Err(ArchiveCreateFailed(zip, e1.value)), nodes)
      else
        var n1 := nodes[zip := File(ZipArchive({}, false))];
        match WalkFilesOf(n1, x.path)
        case Err(e) => (Err(WalkFailed(x.path, e)), n1)
        case Ok(files) =>
          var y := x.(status := ArchiveStatus);
          var e2 := WriteErrorOf(n1, RecordPath(y.path));
          if e2.Some? then (Err(WriteFailed(RecordPath(y.path), e2.value)), n1)
          else
            var n2 := WithRecord(n1, y);
            var n3 := if WriteErrorOf(n2, zip).None? then n2[zip := File(ZipArchive(files, true))] else n2;
            (Ok(zip), n3)
  }

  method ArchiveProject(fs: FileSystem, baseDir: Path, rawId: string) returns (r: Result<Path, StoreError>)
    requires fs.Valid()
    modifies fs
    ensures fs.Valid()
    ensures (r, fs.nodes) == ArchiveOf(old(fs.nodes), baseDir, rawId)
  {
    var id := ValidateID(rawId);
    var rec := ReadProjectFile(fs, baseDir, id);
    if rec.Err? {
      return Err(rec.error);
    }
    var project := rec.value;
    var zip := ZipPath(baseDir, id);
    var e := fs.WriteFile(zip, ZipArchive({}, false));
    if e.Some? {
      return Err(ArchiveCreateFailed(zip, e.value));
    }
    var walk := fs.Walk(project.path);
    if walk.Err? {
      return Err(WalkFailed(project.path, walk.error));
    }
    project := project.(status := ArchiveStatus);
    var we := WriteProjectFile(fs, project);
    if we.Some? {
      return Err(we.value);
    }
    // the deferred close; its error is ignored
    var closeErr := fs.WriteFile(zip, ZipArchive(walk.value, true));
    r := Ok(zip);
  }

  /** A failed walk leaves the record untouched: only the new, incomplete archive
      has been added. */
  lemma ArchiveWalkFailureKeepsRecord(nodes: map<Path, Node>, baseDir: Path, rawId: string)
    ensures var (r, n) := ArchiveOf(nodes, baseDir, rawId);
      r.Err? && r.error.WalkFailed? ==>
        n == nodes[ZipPath(baseDir, ValidateID(rawId)) := File(ZipArchive({}, false))]
  {
  }

  /** No failure marks a record archived: after a failed archive every file
      except the archive itself is as it was. */
  lemma ArchiveFailureKeepsFiles(nodes: map<Path, Node>, baseDir: Path, rawId: string)
    ensures var (r, n) := ArchiveOf(nodes, baseDir, rawId);
      r.Err? ==> forall q :: q in n && q != ZipPath(baseDir, ValidateID(rawId)) ==> q in nodes && n[q] == nodes[q]
  {
  }

  /** A successful archive follows a successful walk; the archive then holds
      exactly the regular files below the project's directory (relative to it,
      as the walk saw them after the empty archive was created), and the record
      at the project's Path reads back with status "archived" and every other
      field unchanged. */
  lemma ArchiveSuccess(nodes: map<Path, Node>, baseDir: Path, rawId: string)
    requires ArchiveOf(nodes, baseDir, rawId).0.Ok?
    ensures ReadOf(nodes, baseDir, ValidateID(rawId)).Ok?
    ensures ArchiveOf(nodes, baseDir, rawId).0.value == ZipPath(baseDir, ValidateID(rawId))
    ensures var x := ReadOf(nodes, baseDir, ValidateID(rawId)).value;
      var zip := ZipPath(baseDir, ValidateID(rawId));
      var n := ArchiveOf(nodes, baseDir, rawId).1;
      && WalkFilesOf(nodes[zip := File(ZipArchive({}, false))], x.path).Ok?
      && zip in n && n[zip] == File(ZipArchive(WalkFilesOf(nodes[zip := File(ZipArchive({}, false))], x.path).value, true))
      && RecordAt(n, RecordPath(x.path)) == Ok(x.(status := ArchiveStatus))
  {
    var id := ValidateID(rawId);
    var x := ReadOf(nodes, baseDir, id).value;
    var zip := ZipPath(baseDir, id);
    var n1 := nodes[zip := File(ZipArchive({}, false))];
    var files := WalkFilesOf(n1, x.path).value;
    var y := x.(status := ArchiveStatus);
    var n2 := WithRecord(n1, y);
    ZipNotRecord(baseDir, id, y.path);
    ZipParentNotRecord(baseDir, id, y.path);
    assert WriteErrorOf(n2, zip).None?;
    assert ArchiveOf(nodes, baseDir, rawId).1 == n2[zip := File(ZipArchive(files, true))];
  }

  /** When the archive is not created inside the project's own tree, the walk
      sees exactly the regular files the project had before the archive began. */
  lemma ArchiveOutsideTree(nodes: map<Path, Node>, zip: Path, root: Path, d: Data)
    requires WalkFilesOf(nodes, root).Ok? && !Within(zip, root)
    ensures WalkFilesOf(nodes[zip := File(d)], root) == WalkFilesOf(nodes, root)
  {
    var n1 := nodes[zip := File(d)];
    assert root != zip by {
      assert root[..|root|] == root;
    }
    var a := WalkFilesOf(n1, root).value;
    var b := WalkFilesOf(nodes, root).value;
    forall q | q in n1.Keys && Within(q, root) && n1[q].File? ensures q in nodes && nodes[q].File? {
      assert q != zip;
    }
    assert a == b;
  }

  /** The archive's name ends in ".zip", never in "project.yaml". */
  lemma ZipNotRecord(baseDir: Path, id: string, path: Path)
    ensures ZipPath(baseDir, id) != RecordPath(path)
  {
    var z := ZipPath(baseDir, id);
    var last := id + ".zip";
    assert z[|z| - 1] == last;
    assert last[|last| - 1] == 'p' && RecordFile[|RecordFile| - 1] == 'l';
  }

  lemma ZipParentNotRecord(baseDir: Path, id: string, path: Path)
    ensures Parent(ZipPath(baseDir, id)) != RecordPath(path)
  {
    assert Parent(ZipPath(baseDir, id)) == baseDir + ["Archive"];
  }
}
