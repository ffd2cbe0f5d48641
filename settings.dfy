/** The settings screen of ui/settings.go: one toggle, "Enable Sound Effects",
    backed by the process-wide configuration, and "Back to Menu". */
module SettingsScreen {
  import opened Nav

  /** The process-wide configuration; only the sound switch is modelled. */
  class Config {
    var soundsEnabled: bool

    constructor(soundsEnabled: bool)
      ensures this.soundsEnabled == soundsEnabled
    {
      this.soundsEnabled := soundsEnabled;
    }
  }

  const SoundItem := 0
  const BackItem := 1

  /** One key on the screen, over the cursor and the toggle: the new cursor, the
      new toggle and where the session goes. */
  function SettingsStep(cursor: int, toggle: bool, k: Key): (r: (int, bool, Route))
    requires 0 <= cursor <= BackItem
    ensures 0 <= r.0 <= BackItem
    ensures r.1 != toggle <==> (k == Enter && cursor == SoundItem)
    ensures r.2 == ToMenu <==> (k == CtrlC || k == Esc || (k == Enter && cursor == BackItem))
    ensures r.2 != ToMenu ==> r.2 == Stay
  {
    if k == CtrlC || k == Esc then (cursor, toggle, ToMenu)
    else if IsUp(k) then (if cursor > 0 then cursor - 1 else cursor, toggle, Stay)
    else if IsDown(k) then (if cursor < BackItem then cursor + 1 else cursor, toggle, Stay)
    else if k == Enter then
      if cursor == SoundItem then (cursor, !toggle, Stay)
      else (cursor, toggle, ToMenu)
    else (cursor, toggle, Stay)
  }

  /** Two enters on the toggle restore the original setting. */
  lemma DoubleToggleRestores(toggle: bool)
    ensures var once := SettingsStep(SoundItem, toggle, Enter);
      SettingsStep(once.0, once.1, Enter).1 == toggle
  {
  }

  class Settings {
    var cursor: int
    var toggles: array<bool>
    var config: Config

    predicate Valid()
      reads this
    {
      0 <= cursor <= BackItem && toggles.Length == 1
    }

    /** The toggle shows the configuration's sound switch. */
    predicate InSync()
      reads this, toggles, config
      requires Valid()
    {
      toggles[0] == config.soundsEnabled
    }

    /** The screen opens on the first item with the toggle read from the
        configuration. */
    constructor(config: Config)
      ensures Valid() && InSync() && cursor == SoundItem && this.config == config
      ensures fresh(toggles)
    {
      cursor := 0;
      toggles := new bool[1][config.soundsEnabled];
      this.config := config;
    }

    /** Update: enter on the toggle flips it and writes the new value to the
        configuration; the cursor moves between the two items; enter on Back,
        esc or ctrl+c leave. Nothing else changes. */
    method Update(k: Key) returns (route: Route)
      requires Valid()
      modifies this, toggles, config
      ensures Valid() && toggles == old(toggles) && config == old(config)
      ensures (cursor, toggles[0], route) == SettingsStep(old(cursor), old(toggles[0]), k)
      ensures old(InSync()) ==> InSync()
      ensures k == Enter && old(cursor) == SoundItem ==> config.soundsEnabled == toggles[0]
      ensures !(k == Enter && old(cursor) == SoundItem) ==> config.soundsEnabled == old(config.soundsEnabled)
    {
      route := Stay;
      if k == CtrlC || k == Esc {
        route := ToMenu;
      } else if IsUp(k) {
        if cursor > 0 {
          cursor := cursor - 1;
        }
      } else if IsDown(k) {
        if cursor < BackItem {
          cursor := cursor + 1;
        }
      } else if k == Enter {
        if cursor == SoundItem {
          toggles[0] := !toggles[0];
          config.soundsEnabled := toggles[0];
        } else {
          route := ToMenu;
        }
      }
    }
  }
}
