/** What the terminal screens share: the key events they react to, the
    single-line text field they edit, and where a key sends the session next. */
module Nav {
  import opened Records

  /** A key event. A printable key, space included, is a Rune; the names the
      screens match on ("q", "k", "j", "b", " ") are runes too. */
  datatype Key =
    | Rune(c: char)
    | Enter | Esc | CtrlC | CtrlF | Tab | ShiftTab | Up | Down | Backspace
    | Other   // any other key: the screens ignore it, and so does the field model (see Edit)

  /** "up" or "k". */
  predicate IsUp(k: Key) {
    k == Up || k == Rune('k')
  }

  /** "down" or "j". */
  predicate IsDown(k: Key) {
    k == Down || k == Rune('j')
  }

  /** A single-line text field: its text, whether it has focus, and its
      character limit (0 for none). */
  datatype TextField = TextField(value: string, focused: bool, limit: nat)

  /** A new, empty, blurred field. */
  function NewField(limit: nat): TextField
  {
    TextField("", false, limit)
  }

  /** One key fed to a field. A blurred field ignores every key; a focused one
      appends a typed character while under its limit and deletes the last one
      on backspace; other keys leave it as it is. */
  function Edit(f: TextField, k: Key): (r: TextField)
    ensures r.focused == f.focused && r.limit == f.limit
    ensures !f.focused ==> r == f
    ensures k.Rune? && f.focused && (f.limit == 0 || |f.value| < f.limit) ==> r.value == f.value + [k.c]
    ensures !k.Rune? && k != Backspace ==> r == f
    ensures f.limit == 0 || |f.value| <= f.limit ==> f.limit == 0 || |r.value| <= f.limit
  {
    if !f.focused then f
    else match k
      case Rune(c) => if f.limit == 0 || |f.value| < f.limit then f.(value := f.value + [c]) else f
      case Backspace => if f.value == [] then f else f.(value := f.value[..|f.value| - 1])
      case _ => f
  }

  /** The field after a sequence of keys. */
  function EditAll(f: TextField, keys: seq<Key>): (r: TextField)
    ensures r.focused == f.focused && r.limit == f.limit
  {
    if keys == [] then f else Edit(EditAll(f, keys[..|keys| - 1]), keys[|keys| - 1])
  }

  /** A blurred field keeps its text whatever is typed. */
  lemma {:induction false} BlurredIgnoresTyping(f: TextField, keys: seq<Key>)
    requires !f.focused
    ensures EditAll(f, keys) == f
  {
    if keys != [] {
      BlurredIgnoresTyping(f, keys[..|keys| - 1]);
    }
  }

  /** Typing never takes a field past its limit. */
  lemma {:induction false} TypingRespectsLimit(f: TextField, keys: seq<Key>)
    requires f.limit > 0 && |f.value| <= f.limit
    ensures |EditAll(f, keys).value| <= f.limit
  {
    if keys != [] {
      TypingRespectsLimit(f, keys[..|keys| - 1]);
    }
  }

  /** Typing characters into a focused field with room for them appends them. */
  lemma {:induction false} TypingAppends(f: TextField, text: string)
    requires f.focused && (f.limit == 0 || |f.value| + |text| <= f.limit)
    ensures EditAll(f, RunesOf(text)).value == f.value + text
  {
    if text != [] {
      var n := |text| - 1;
      assert RunesOf(text)[..n] == RunesOf(text[..n]);
      TypingAppends(f, text[..n]);
      assert RunesOf(text)[n] == Rune(text[n]);
      assert f.value + text[..n] + [text[n]] == f.value + text;
    }
  }

  /** The key events that type text. */
  function RunesOf(text: string): (keys: seq<Key>)
    ensures |keys| == |text| && forall i :: 0 <= i < |text| ==> keys[i] == Rune(text[i])
  {
    if text == [] then [] else RunesOf(text[..|text| - 1]) + [Rune(text[|text| - 1])]
  }

  /** A side effect a screen starts and does not wait for: packing a project
      folder into an archive, or opening it in the desktop's file manager. */
  datatype Effect = NoEffect | ZipFolder(source: Path, target: Path) | OpenFolder(folder: Path)

  /** Where a key sends the session: the same screen, another screen, the end
      of the session, or the end of the process on a fatal store error. A
      project view reached from the submenu shows the project it was opened
      with. */
  datatype Route =
    | Stay
    | ToMenu | ToList | ToCreate | ToView | ToTools | ToSettings
    | ToProject(project: Project)
    | ToSubmenu(project: Project)
    | Quit
    | Exit
}
