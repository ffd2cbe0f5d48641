/** The tools screen of projtui/tools.go: a two-item menu ("Generate Tags",
    "Back") and a generate mode with two path fields, the input CSV and the
    output YAML. The generator it calls (core.GenerateTags) is not part of this
    model: it is a parameter giving the error text of a failed run, or None. */
module ToolsScreen {
  import opened Wrappers
  import opened Nav

  const GenerateItem := 0
  const BackItem := 1
  const PathLimit := 128

  datatype ToolsMessage = NoMessage | Failed(error: string) | Generated

  /** The screen's fields; generating is the "generate" mode. */
  datatype ToolsState = ToolsState(
    cursor: int, generating: bool, inputCsv: TextField, outputYaml: TextField, message: ToolsMessage)

  /** The screen as it opens: menu mode, cursor on the first item, both fields
      empty and blurred. */
  function Initial(): (s: ToolsState)
    ensures !s.generating && s.cursor == GenerateItem && s.message == NoMessage
  {
    ToolsState(0, false, NewField(PathLimit), NewField(PathLimit), NoMessage)
  }

  /** The message a generator run leaves. */
  function Outcome(err: Option<string>): ToolsMessage
  {
    if err.Some? then Failed(err.value) else Generated
  }

  /** One key on the screen: the new fields and the route. */
  function ToolsStep(s: ToolsState, k: Key, generate: (string, string) -> Option<string>): (r: (ToolsState, Route))
    requires 0 <= s.cursor <= BackItem
    ensures 0 <= r.0.cursor <= BackItem
    ensures r.1 != Stay ==> r.1 == ToMenu && r.0 == s
    ensures s.generating ==> r.1 == Stay && r.0.cursor == s.cursor
    ensures s.generating && k == Enter && (s.inputCsv.value == "" || s.outputYaml.value == "") ==> r.0 == s
    ensures s.generating && k == Enter && s.inputCsv.value != "" && s.outputYaml.value != "" ==>
      r.0 == s.(generating := false, message := Outcome(generate(s.inputCsv.value, s.outputYaml.value)))
    ensures s.generating && k == Esc ==> r.0 == s.(generating := false, message := NoMessage)
    ensures !s.generating ==> r.0.message == s.message && r.0.outputYaml == s.outputYaml
    ensures !s.generating && k == Enter && s.cursor == GenerateItem ==>
      r.0 == s.(generating := true, inputCsv := s.inputCsv.(focused := true))
  {
    if s.generating then
      if k == Enter then
        var csv := s.inputCsv.value;
        var out := s.outputYaml.value;
        if csv != "" && out != "" then (s.(generating := false, message := Outcome(generate(csv, out))), Stay)
        else (s, Stay)
      else if k == Esc then (s.(generating := false, message := NoMessage), Stay)
      else (s.(inputCsv := Edit(s.inputCsv, k), outputYaml := Edit(s.outputYaml, k)), Stay)
    else if IsUp(k) then (s.(cursor := if s.cursor > 0 then s.cursor - 1 else s.cursor), Stay)
    else if IsDown(k) then (s.(cursor := if s.cursor < BackItem then s.cursor + 1 else s.cursor), Stay)
    else if k == Enter then
      if s.cursor == GenerateItem then (s.(generating := true, inputCsv := s.inputCsv.(focused := true)), Stay)
      else (s, ToMenu)
    else if k == Esc || k == Rune('q') then (s, ToMenu)
    else (s, Stay)
  }

  /** The fields after a sequence of keys that keep the session on the screen. */
  function Run(s: ToolsState, keys: seq<Key>, generate: (string, string) -> Option<string>): (r: ToolsState)
    requires 0 <= s.cursor <= BackItem
    ensures 0 <= r.cursor <= BackItem
  {
    if keys == [] then s else ToolsStep(Run(s, keys[..|keys| - 1], generate), keys[|keys| - 1], generate).0
  }

  /** The output field is never given focus, so it stays empty, the enter of
      generate mode never finds both paths filled, and no generator run ever
      sets a message: from the opening screen, whatever keys are pressed and
      whatever the generator would do, the message stays empty. */
  lemma {:induction false} GeneratorNeverRuns(keys: seq<Key>, generate: (string, string) -> Option<string>)
    ensures Run(Initial(), keys, generate).outputYaml == NewField(PathLimit)
    ensures Run(Initial(), keys, generate).message == NoMessage
  {
    if keys != [] {
      GeneratorNeverRuns(keys[..|keys| - 1], generate);
    }
  }

  class Tools {
    var cursor: int
    var generating: bool
    var inputCsv: TextField
    var outputYaml: TextField
    var message: ToolsMessage

    function State(): ToolsState
      reads this
    {
      ToolsState(cursor, generating, inputCsv, outputYaml, message)
    }

    predicate Valid()
      reads this
    {
      0 <= cursor <= BackItem
    }

    constructor()
      ensures Valid() && State() == Initial()
    {
      cursor, generating := 0, false;
      inputCsv, outputYaml := NewField(PathLimit), NewField(PathLimit);
      message := NoMessage;
    }

    /** Update: in generate mode, enter runs the generator when both paths are
        filled and leaves the mode, esc leaves it and clears the message, and
        any other key goes to both fields; in menu mode the cursor moves, enter
        opens generate mode (focusing the input field) or goes back, and esc
        and q go back. */
    method Update(k: Key, generate: (string, string) -> Option<string>) returns (route: Route)
      requires Valid()
      modifies this
      ensures Valid()
      ensures (State(), route) == ToolsStep(old(State()), k, generate)
    {
      route := Stay;
      if generating {
        if k == Enter {
          var csv := inputCsv.value;
          var out := outputYaml.value;
          if csv != "" && out != "" {
            var err := generate(csv, out);
            message := Outcome(err);
            generating := false;
          }
        } else if k == Esc {
          generating := false;
          message := NoMessage;
        } else {
          inputCsv := Edit(inputCsv, k);
          outputYaml := Edit(outputYaml, k);
        }
        return;
      }
      if IsUp(k) {
        if cursor > 0 {
          cursor := cursor - 1;
        }
      } else if IsDown(k) {
        if cursor < BackItem {
          cursor := cursor + 1;
        }
      } else if k == Enter {
        if cursor == GenerateItem {
          generating := true;
          inputCsv := inputCsv.(focused := true);
        } else {
          route := ToMenu;
        }
      } else if k == Esc || k == Rune('q') {
        route := ToMenu;
      }
    }
  }
}
