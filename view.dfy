/** The project view of ui/view_project.go: an identifier field; enter looks the
    project up with ReadProjectFile and, once found, the screen shows it. */
module ViewScreen {
  import opened Wrappers
  import opened Ids
  import opened Records
  import opened Fs
  import opened ProjectStore
  import opened Nav

  const IdLimit := 32

  /** The error line under the field. */
  datatype ViewMessage = NoMessage | InvalidId | ReadError(error: StoreError)

  datatype ViewState = ViewState(input: TextField, project: Option<Project>, errMsg: ViewMessage, done: bool)

  /** The screen opened from the main menu: an empty, focused field. */
  function Initial(): ViewState
  {
    ViewState(TextField("", true, IdLimit), None, NoMessage, false)
  }

  /** The screen opened from the submenu's "View Status": the project shown,
      done, and a zero field (blurred, no limit). */
  function Showing(p: Project): ViewState
  {
    ViewState(TextField("", false, 0), Some(p), NoMessage, true)
  }

  /** One key on the screen, reading records from the file system given. */
  function ViewStep(s: ViewState, k: Key, nodes: map<Path, Node>, baseDir: Path): (r: (ViewState, Route))
    ensures r.1 == ToMenu <==> (k == CtrlC || k == Esc)
    ensures r.1 != ToMenu ==> r.1 == Stay
    ensures r.1 == ToMenu ==> r.0 == s
    ensures k == Enter && ValidateID(s.input.value) == "" ==> r.0 == s.(errMsg := InvalidId)
    ensures k == Enter && ValidateID(s.input.value) != "" ==>
      match ReadRecordOf(nodes, baseDir, ValidateID(s.input.value))
      case Err(e) => r.0 == s.(errMsg := ReadError(e))
      case Ok(p) => r.0 == s.(project := Some(p), done := true)
    ensures k !in {CtrlC, Esc, Enter} ==> r.0 == s.(input := Edit(s.input, k))
  {
    if k == CtrlC || k == Esc then (s, ToMenu)
    else if k == Enter then
      var id := ValidateID(s.input.value);
      if id == "" then (s.(errMsg := InvalidId), Stay)
      else
        match ReadRecordOf(nodes, baseDir, id)
        case Err(e) => (s.(errMsg := ReadError(e)), Stay)
        case Ok(p) => (s.(project := Some(p), done := true), Stay)
    else (s.(input := Edit(s.input, k)), Stay)
  }

  /** The project shown is always one whose record was read: a failed lookup
      leaves the screen as it was apart from the error line. */
  lemma ShownProjectWasRead(s: ViewState, k: Key, nodes: map<Path, Node>, baseDir: Path)
    requires s.project == None
    ensures var r := ViewStep(s, k, nodes, baseDir).0;
      r.project.Some? ==> k == Enter && ReadRecordOf(nodes, baseDir, s.input.value) == Ok(r.project.value) && r.done
  {
    ReadNormalises(nodes, baseDir, s.input.value);
  }

  /** On the screen opened from the submenu the field never takes text, so enter
      always reports an invalid identifier, while the project stays shown. */
  lemma SubmenuViewRejectsLookups(p: Project, k: Key, nodes: map<Path, Node>, baseDir: Path)
    ensures var r := ViewStep(Showing(p), k, nodes, baseDir).0;
      r.input == Showing(p).input && r.project == Some(p) && r.done
      && (k == Enter ==> r.errMsg == InvalidId)
  {
    assert ValidateID("") == "";
  }

  class ViewForm {
    var input: TextField
    var project: Option<Project>
    var errMsg: ViewMessage
    var done: bool
    const baseDir: Path
    const fs: FileSystem

    function State(): ViewState
      reads this
    {
      ViewState(input, project, errMsg, done)
    }

    constructor(fs: FileSystem, baseDir: Path)
      ensures State() == Initial() && this.fs == fs && this.baseDir == baseDir
    {
      input := TextField("", true, IdLimit);
      project, errMsg, done := None, NoMessage, false;
      this.baseDir, this.fs := baseDir, fs;
    }

    /** The screen the submenu's "View Status" builds: the project shown and
        every other field at its zero value, the base directory included. */
    constructor FromSubmenu(fs: FileSystem, p: Project)
      ensures State() == Showing(p) && this.fs == fs && baseDir == []
    {
      input := TextField("", false, 0);
      project, errMsg, done := Some(p), NoMessage, true;
      this.baseDir, this.fs := [], fs;
    }

    /** Update: esc and ctrl+c go back; enter normalises the identifier and, if
        it is not empty, reads the record, showing it or the read error; any
        other key edits the field. The file system is only read. */
    method Update(k: Key) returns (route: Route)
      modifies this
      ensures (State(), route) == ViewStep(old(State()), k, fs.nodes, baseDir)
    {
      route := Stay;
      if k == CtrlC || k == Esc {
        route := ToMenu;
      } else if k == Enter {
        var id := ValidateID(input.value);
        if id == "" {
          errMsg := InvalidId;
          return;
        }
        var r := ReadProjectFile(fs, baseDir, id);
        if r.Err? {
          errMsg := ReadError(r.error);
          return;
        }
        project := Some(r.value);
        done := true;
      } else {
        input := Edit(input, k);
      }
    }
  }
}
