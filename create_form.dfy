/** The create form of cmd/projtui/create_project.go: four fields (ID, Name,
    Description, Tags) with one focused at a time; enter on the last field
    submits. The create it calls is app/project.go's CreateProject (module
    ProjectStore), with status "active". */
module CreateScreen {
  import opened Wrappers
  import opened Ids
  import opened Records
  import opened Fs
  import opened ProjectStore
  import opened Nav

  const FieldCount := 4
  const IdField := 0
  const NameField := 1
  const DescriptionField := 2
  const TagsField := 3
  const FieldLimit := 100
  const CreatedStatus := "active"

  /** The line under the form. */
  datatype CreateMessage = NoMessage | Required | Created(id: string)

  datatype FormState = FormState(fields: seq<TextField>, focus: int, done: bool, message: CreateMessage)

  /** Four fields of limit 100, exactly the one at focus focused. */
  predicate FormValid(s: FormState) {
    && |s.fields| == FieldCount
    && 0 <= s.focus < FieldCount
    && forall i :: 0 <= i < FieldCount ==> s.fields[i].limit == FieldLimit && (s.fields[i].focused <==> i == s.focus)
  }

  /** The form as it opens: empty fields, the ID field focused. */
  function Initial(): (s: FormState)
    ensures FormValid(s)
  {
    FormState([TextField("", true, FieldLimit), NewField(FieldLimit), NewField(FieldLimit), NewField(FieldLimit)], 0, false, NoMessage)
  }

  /** Blur the field at from, then focus the field at to. */
  function MoveFocus(fields: seq<TextField>, from: int, to: int): (r: seq<TextField>)
    requires 0 <= from < |fields| && 0 <= to < |fields|
    ensures |r| == |fields|
    ensures forall i :: 0 <= i < |r| ==> r[i] == fields[i].(focused := if i == to then true else if i == from then false else fields[i].focused)
  {
    var blurred := fields[from := fields[from].(focused := false)];
    blurred[to := blurred[to].(focused := true)]
  }

  /** The key fed to every field; only the focused one can change. */
  function EditEach(fields: seq<TextField>, k: Key): (r: seq<TextField>)
    ensures |r| == |fields|
    ensures forall i :: 0 <= i < |r| ==> r[i] == Edit(fields[i], k)
  {
    seq(|fields|, i requires 0 <= i < |fields| => Edit(fields[i], k))
  }

  /** The parameters a submit passes: the normalised identifier, the other
      fields as typed, and status "active". */
  function SubmitParams(fields: seq<TextField>): Params
    requires |fields| == FieldCount
  {
    Params(ValidateID(fields[IdField].value), fields[NameField].value, fields[DescriptionField].value, CreatedStatus, fields[TagsField].value)
  }

  /** Whether a submit would go ahead: the identifier normalises to something and
      the name is not empty. */
  predicate Submittable(fields: seq<TextField>)
    requires |fields| == FieldCount
  {
    ValidateID(fields[IdField].value) != "" && fields[NameField].value != ""
  }

  /** Enter on the last field: a missing identifier or name only sets the
      message; otherwise the project is created with status "active" and the
      form is done, and a failed create ends the process. */
  function SubmitStep(s: FormState, nodes: map<Path, Node>, baseDir: Path, now: string)
    : (r: (FormState, map<Path, Node>, Route))
    requires FormValid(s)
    ensures FormValid(r.0) && r.0.fields == s.fields && r.0.focus == s.focus
    ensures !Submittable(s.fields) ==> r == (s.(message := Required), nodes, Stay)
    ensures Submittable(s.fields) ==>
      var (res, n) := CreateOf(nodes, baseDir, AppScaffold, SubmitParams(s.fields), now);
      && r.1 == n
      && (res.Ok? ==> r.0 == s.(done := true, message := Created(ValidateID(s.fields[IdField].value))) && r.2 == Stay)
      && (res.Err? ==> r.0 == s && r.2 == Exit)
  {
    if !Submittable(s.fields) then (s.(message := Required), nodes, Stay)
    else
      var (res, n) := CreateOf(nodes, baseDir, AppScaffold, SubmitParams(s.fields), now);
      if res.Err? then (s, n, Exit)
      else (s.(done := true, message := Created(ValidateID(s.fields[IdField].value))), n, Stay)
  }

  /** The keys that move the focus. */
  predicate Moves(k: Key) {
    k == Enter || k == Tab || k == Down || k == ShiftTab || k == Up
  }

  /** The field focused after k: enter, tab and down go forward, shift+tab and
      up go back, both wrapping around; other keys keep the focus. */
  function NextFocus(focus: int, k: Key): (f: int)
    requires 0 <= focus < FieldCount
    ensures 0 <= f < FieldCount
    ensures k == Enter || k == Tab || k == Down ==> f == (focus + 1) % FieldCount
    ensures k == ShiftTab || k == Up ==> f == (focus + FieldCount - 1) % FieldCount
    ensures !Moves(k) ==> f == focus
  {
    if k == ShiftTab || k == Up then (focus - 1 + FieldCount) % FieldCount
    else if Moves(k) then (focus + 1) % FieldCount
    else focus
  }

  /** Any other key: enter (not on the last field), tab and down move the focus
      forward, shift+tab and up move it back, and every key but enter is then
      fed to the fields. */
  function NavigateStep(s: FormState, k: Key): (r: FormState)
    requires FormValid(s) && k != CtrlC && k != Esc && !(k == Enter && s.focus == FieldCount - 1)
    ensures FormValid(r) && r.done == s.done && r.message == s.message
    ensures k in {Enter, Tab, Down} ==> r.focus == (s.focus + 1) % FieldCount
    ensures k in {ShiftTab, Up} ==> r.focus == (s.focus + FieldCount - 1) % FieldCount
    ensures k !in {Enter, Tab, Down, ShiftTab, Up} ==> r == s.(fields := EditEach(s.fields, k))
  {
    var f := NextFocus(s.focus, k);
    var moved := if Moves(k) then MoveFocus(s.fields, s.focus, f) else s.fields;
    s.(fields := if k == Enter then moved else EditEach(moved, k), focus := f)
  }

  /** One key on the form over the file system given: the new form, the file
      system afterwards and the route. A failed create ends the process. */
  function CreateStep(s: FormState, k: Key, nodes: map<Path, Node>, baseDir: Path, now: string)
    : (r: (FormState, map<Path, Node>, Route))
    requires FormValid(s)
    ensures FormValid(r.0)
    ensures r.2 in {Stay, ToMenu, Exit}
    ensures r.2 == ToMenu <==> (k == CtrlC || k == Esc)
    ensures r.2 == ToMenu ==> r.0 == s && r.1 == nodes
    ensures r.1 != nodes || r.2 == Exit || r.0.done != s.done ==>
      k == Enter && s.focus == TagsField && Submittable(s.fields)
    ensures k == Enter && s.focus == TagsField && !Submittable(s.fields) ==>
      r.0 == s.(message := Required) && r.1 == nodes && r.2 == Stay
    ensures k == Enter && s.focus == TagsField && Submittable(s.fields) ==>
      var (res, n) := CreateOf(nodes, baseDir, AppScaffold, SubmitParams(s.fields), now);
      && r.1 == n
      && (res.Ok? ==> r.0 == s.(done := true, message := Created(ValidateID(s.fields[IdField].value))) && r.2 == Stay)
      && (res.Err? ==> r.2 == Exit)
    ensures k in {Enter, Tab, Down} && !(k == Enter && s.focus == TagsField) ==> r.0.focus == (s.focus + 1) % FieldCount
    ensures k in {ShiftTab, Up} ==> r.0.focus == (s.focus + FieldCount - 1) % FieldCount
    ensures k !in {CtrlC, Esc, Enter, Tab, Down, ShiftTab, Up} ==> r.0 == s.(fields := EditEach(s.fields, k)) && r.1 == nodes
  {
    if k == CtrlC || k == Esc then (s, nodes, ToMenu)
    else if k == Enter && s.focus == FieldCount - 1 then SubmitStep(s, nodes, baseDir, now)
    else (NavigateStep(s, k), nodes, Stay)
  }

  /** A submit on a free path creates the project: the record carries the
      normalised identifier, the name, description and cleaned tags as typed and
      status "active", it reads back under its identifier, and the form reports
      it created. */
  lemma SubmitCreates(s: FormState, nodes: map<Path, Node>, baseDir: Path, now: string)
    requires FormValid(s) && s.focus == TagsField && Submittable(s.fields)
    requires IsTree(nodes) && StatOf(nodes, ProjectDir(baseDir, s.fields[IdField].value)) == Err(NotExist)
    ensures var r := CreateStep(s, Enter, nodes, baseDir, now);
      var id := ValidateID(s.fields[IdField].value);
      && r.2 == Stay && r.0.done && r.0.message == Created(id)
      && ReadRecordOf(r.1, baseDir, id)
        == Ok(Project(id, s.fields[NameField].value, CreatedStatus, TagList(s.fields[TagsField].value), now,
                      s.fields[DescriptionField].value, Join(baseDir, id)))
  {
    var p := SubmitParams(s.fields);
    ValidateIDIdempotent(s.fields[IdField].value);
    assert ProjectDir(baseDir, p.id) == ProjectDir(baseDir, s.fields[IdField].value);
    AppCreateThenRead(nodes, baseDir, p, now);
    var r := CreateStep(s, Enter, nodes, baseDir, now);
    assert r == SubmitStep(s, nodes, baseDir, now);
    ReadNormalises(r.1, baseDir, p.id);
  }

  /** Submitting an identifier that already exists ends the process, leaving
      the file system as it was. */
  lemma SubmitExistingExits(s: FormState, nodes: map<Path, Node>, baseDir: Path, now: string)
    requires FormValid(s) && s.focus == TagsField && Submittable(s.fields)
    requires StatOf(nodes, ProjectDir(baseDir, s.fields[IdField].value)) != Err(NotExist)
    ensures CreateStep(s, Enter, nodes, baseDir, now).2 == Exit
    ensures CreateStep(s, Enter, nodes, baseDir, now).1 == nodes
  {
    ValidateIDIdempotent(s.fields[IdField].value);
  }

  class CreateForm {
    var inputs: array<TextField>
    var focus: int
    var done: bool
    var message: CreateMessage
    const baseDir: Path
    const fs: FileSystem

    function State(): FormState
      reads this, inputs
    {
      FormState(inputs[..], focus, done, message)
    }

    ghost predicate Valid()
      reads this, inputs, fs
    {
      inputs.Length == FieldCount && FormValid(State()) && fs.Valid()
    }

    constructor(fs: FileSystem, baseDir: Path)
      requires fs.Valid()
      ensures Valid() && State() == Initial() && this.fs == fs && this.baseDir == baseDir
      ensures fresh(inputs)
    {
      inputs := new TextField[FieldCount](i => if i == 0 then TextField("", true, FieldLimit) else NewField(FieldLimit));
      focus, done, message := 0, false, NoMessage;
      this.baseDir, this.fs := baseDir, fs;
      new;
      assert inputs[..] == Initial().fields;
    }

    /** Blurs the focused field and focuses the one at to. */
    method Refocus(to: int)
      requires inputs.Length == FieldCount && 0 <= focus < FieldCount && 0 <= to < FieldCount
      modifies this, inputs
      ensures inputs == old(inputs) && focus == to && done == old(done) && message == old(message)
      ensures inputs[..] == MoveFocus(old(inputs[..]), old(focus), to)
    {
      inputs[focus] := inputs[focus].(focused := false);
      focus := to;
      inputs[focus] := inputs[focus].(focused := true);
    }

    /** Feeds the key to every field in turn. */
    method EditInputs(k: Key)
      requires inputs.Length == FieldCount
      modifies inputs
      ensures inputs[..] == EditEach(old(inputs[..]), k)
    {
      ghost var before := inputs[..];
      var i := 0;
      while i < inputs.Length
        invariant 0 <= i <= inputs.Length
        invariant forall j :: 0 <= j < i ==> inputs[j] == Edit(before[j], k)
        invariant forall j :: i <= j < inputs.Length ==> inputs[j] == before[j]
      {
        inputs[i] := Edit(inputs[i], k);
        i := i + 1;
      }
    }

    /** The submit of enter on the last field. */
    method Submit(now: string) returns (route: Route)
      requires Valid()
      modifies this, fs
      ensures Valid() && inputs == old(inputs) && inputs[..] == old(inputs[..])
      ensures (State(), fs.nodes, route) == SubmitStep(old(State()), old(fs.nodes), baseDir, now)
    {
      route := Stay;
      var id := ValidateID(inputs[IdField].value);
      var name := inputs[NameField].value;
      var desc := inputs[DescriptionField].value;
      var tags := inputs[TagsField].value;
      if id == "" || name == "" {
        message := Required;
        return;
      }
      var r := CreateProject(fs, baseDir, Params(id, name, desc, CreatedStatus, tags), now);
      if r.Err? {
        return Exit;
      }
      done := true;
      message := Created(id);
    }

    /** Update: esc and ctrl+c go back; enter on the last field submits (a
        missing identifier or name only sets the message; otherwise the project
        is created and the form is done); enter elsewhere, tab and down move the
        focus forward; shift+tab and up move it back; every key that does not
        return early is then fed to the fields. */
    method Update(k: Key, now: string) returns (route: Route)
      requires Valid()
      modifies this, inputs, fs
      ensures Valid() && inputs == old(inputs)
      ensures (State(), fs.nodes, route) == CreateStep(old(State()), k, old(fs.nodes), baseDir, now)
    {
      if k == CtrlC || k == Esc {
        return ToMenu;
      }
      if k == Enter && focus == inputs.Length - 1 {
        route := Submit(now);
        return;
      }
      Navigate(k);
      route := Stay;
    }

    /** The keys that move the focus or edit the fields. */
    method Navigate(k: Key)
      requires Valid() && k != CtrlC && k != Esc && !(k == Enter && focus == FieldCount - 1)
      modifies this, inputs
      ensures Valid() && inputs == old(inputs) && State() == NavigateStep(old(State()), k)
    {
      if Moves(k) {
        Refocus(NextFocus(focus, k));
      }
      if k != Enter {
        EditInputs(k);
      }
    }
  }
}
