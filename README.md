# projman in Dafny

projman is a small project manager for automation work, with a command-line
tool and a terminal UI.

- **Projects.** Each project is a directory `baseDir/ID` holding a scaffold of
  subdirectories and a `project.yaml` record. The record holds the ID, name,
  status, tags, creation time, description and path.
- **Commands.** The command-line tool (`main.go`) creates, updates, lists and
  archives projects. The `app` package (`app/project.go`) offers the same
  operations to the terminal UI, with its own four-directory scaffold.
- **Tag generators.**
  - Two Go variants turn a CSV of category/subcat/name rows into tag
    assignments. Each tag comes from a template such as
    `{category}-{subcat}-{id}`, with a per-key counter.
    `pkg/projman/tagging.go` reads the template from a spec file.
    `app/tagging.go` takes it from the configuration.
  - An older Python script (`scripts/generate_tags.py`) builds a nested
    Line4/system/equipment/instrument structure with instance numbers
    starting at 101.
- **Screens.** The terminal UI is a set of screens, one key event per
  transition: main menu, project list with search, create form, view by ID,
  project submenu, settings and tools.

The model is split into modules.

- **Helpers.**
  - `Text` models the Go string functions the code relies on: TrimSpace,
    ToUpper, Split, Contains, ReplaceAll and `%0Nd`.
  - `Ids` models identifier normalisation and tag cleaning.
  - `Records` holds the project record and the path join.
- **File system.** `Fs` models the file system as a class over a map from
  path to directory or file.
- **The two stores.**
  - `ProjectStore` is `app/project.go`.
  - `Cli` is the commands of `main.go`.
- **The tag generators.**
  - `Tagging` is the shared loop of both Go generators.
  - `InstrumentTags` is the Python script.
- **Screens.**
  - `Nav` holds the key alphabet, text fields and routes.
  - One module per screen: `MainMenuScreen`, `ProjectListScreen`,
    `CreateScreen`, `ViewScreen`, `SubmenuScreen`, `SettingsScreen` and
    `ToolsScreen`.

Imperative code stays imperative.

- Loops are `while` loops with invariants. Each is proved equal to a
  specification function, and the properties are proved about that function.
- Screens whose `Update` changes fields are classes. Their `Update` is
  proved to perform one step of a pure transition function.
- The two submenu files differ in how they play sounds, in whose `Project`
  type they hold (`projman` or `app`) and in whose `ZipProjectFolder` they
  call. Neither `ZipProjectFolder` is modelled, so one module models both.

Failures that the Go code reports with `log.Fatalf` are modelled as an
`Err` outcome. Nothing happens after that outcome, and file-system changes
made before it remain.

## Model

| member | source | states |
|---|---|---|
| Text.TrimSpaceShape | app/project.go:45 | The trimmed text is a run of the input with only white space around it; it neither starts nor ends with white space |
| Text.TrimSpaceIdempotent | main.go:152 | Trimming trimmed text changes nothing |
| Text.ToUpper | app/project.go:37 | Upper-casing keeps the length and maps every character through the rune mapping (a-z to A-Z, plus the two non-ASCII runes that map into A-Z) |
| Text.SplitPieces | main.go:149 | Splitting on ',' gives one piece more than there are commas, and no piece contains a comma |
| Text.SplitJoin | main.go:149 | Joining the pieces of a split with the separator restores the input |
| Text.JoinSplit | main.go:149 | Splitting the join of comma-free pieces gives back the pieces |
| Text.ContainsOccurs | cmd/projtui/project_list.go:140 | Contains holds exactly when the query occurs at some position of the text |
| Text.ReplaceAllUnchanged | pkg/projman/tagging.go:73-75 | Replacing a pattern that occurs nowhere in the text leaves the text unchanged |
| Text.ReplaceAllSkip | pkg/projman/tagging.go:73-75 | A prefix that does not contain the pattern's first character passes through replacement untouched |
| Text.ZeroPadRoundTrip | pkg/projman/tagging.go:75 | The %02d rendering of any integer parses back to that integer |
| Text.ZeroPadInjective | scripts/generate_tags.py:26-27 | Two different numbers never render alike at the same width |
| Ids.ValidateID | app/project.go:35-39 | The normalised identifier is no longer than the input and holds only A-Z, 0-9 and '-' |
| Ids.ValidateIDFixpoint | main.go:141-146 | A string is its own normalised identifier exactly when it holds only A-Z, 0-9 and '-' |
| Ids.ValidateIDIdempotent | app/project.go:35-39 | Normalising twice equals normalising once |
| Ids.ValidateIDAppend | main.go:141-146 | Normalisation works character by character: the identifier of a concatenation is the concatenation of the identifiers |
| Ids.ValidateIDChar | main.go:141-146 | One character normalises to its upper case when that is A-Z, 0-9 or '-', else to nothing |
| Ids.ValidateIDExample | main.go:141-146 | "cp 12!01" normalises to "CP1201" |
| Ids.CleanTags | main.go:148-158 | The loop returns exactly the trimmed, non-empty comma-separated pieces, in input order |
| Ids.TagListClean | app/project.go:41-51 | Every cleaned tag is non-empty, comma-free and already trimmed |
| Ids.KeepsRealPieces | app/project.go:44-48 | Every piece with a non-space character yields a tag |
| Ids.EmptyTags | main.go:148-158 | The empty string yields no tags |
| Records.Join | app/project.go:56 | Joining a non-empty name adds exactly one component to the directory; an empty name leaves the directory as it is |
| Records.CollectMembers | app/project.go:131-144 | A project is collected from a sequence of entries exactly when some entry yields it |
| Fs.FileSystem.MkdirAll | app/project.go:91-93 | MkdirAll fails, changing nothing, when the path or one of its prefixes is a file; otherwise it adds every missing prefix as a directory, keeping the store a tree |
| Fs.FileSystem.WriteFile | app/project.go:70 | A write succeeds exactly when the target is not a directory and its parent is one, and then replaces only the target; a failed write changes nothing |
| Fs.FileSystem.ReadDir | main.go:243 | Reading a directory fails exactly when it is not a directory, and otherwise lists each child once |
| Fs.FileSystem.Walk | main.go:323-348 | The walk yields the regular files below the root, relative to it |
| Fs.MkdirAllKeepsTree | main.go:198-205 | Creating directories keeps every path's parent a directory |
| ProjectStore.ReadProjectFile | app/project.go:53-63 | The record at baseDir/ValidateID(id)/project.yaml, or the read or parse error |
| ProjectStore.ReadNormalises | app/project.go:55 | Reading by an identifier and by its normalised form give the same outcome |
| ProjectStore.WriteProjectFile | app/project.go:65-71 | The record is written to Path/project.yaml, or the write error is returned and nothing changes |
| ProjectStore.WriteThenRead | app/project.go:65-71 | A record written with Path = baseDir/ID is read back unchanged by ID |
| ProjectStore.ReadOtherRecordUnaffected | app/project.go:65-71 | Writing one record leaves the reading of any other record unchanged, unless the written file lies on the path to that record |
| ProjectStore.CreateScaffolded | app/project.go:83-120 | Stat, MkdirAll of the project directory, each scaffold directory, then the record, stopping at the first failure |
| ProjectStore.CreateProject | app/project.go:83-120 | The shared create run with the four app scaffold directories |
| ProjectStore.AppScaffoldWellFormed | app/project.go:95-97 | Docs, Planning, Logs and Exports are plain relative directories |
| ProjectStore.AppCreateThenRead | app/project.go:105-117 | On a free path the create succeeds; the record keeps the status as given, the cleaned tags and Path = baseDir/ID; the scaffold exists; reading by ID returns the record |
| ProjectStore.CreateOnFreePath | app/project.go:87-117 | On a free path of a tree every step succeeds, every scaffold directory exists, nothing previous is lost, and the record reads back |
| ProjectStore.CreateRefusesExisting | app/project.go:87-89 | When the project path exists the create fails with "already exists" and changes nothing |
| ProjectStore.CreateFailureWritesNoFile | app/project.go:91-103 | A failed create adds only directories and keeps everything that was there |
| ProjectStore.MkdirEachFresh | app/project.go:98-103 | Below a fresh project directory each scaffold directory is created without error, keeping what existed |
| ProjectStore.ScanProjects | app/project.go:122-149 | The loop yields exactly the rows the listing rule gives for the directory's entries in order, and `found` holds exactly when a row was yielded; the listing fails only when the base is not a directory |
| ProjectStore.ListProjects | app/project.go:122-149 | Listing that looks each entry up at its normalised identifier |
| ProjectStore.ListedRowsMembers | app/project.go:132-140 | A project is listed exactly when some entry is a directory that is not "Archive" or dot-named and its record reads as that project |
| ProjectStore.SkippedEntryKeepsGoing | app/project.go:137-140 | An entry that yields nothing does not stop the listing of the entries after it |
| ProjectStore.ListedRowsAppend | app/project.go:131-144 | The listing of concatenated entries is the concatenation of the listings |
| ProjectStore.UnnormalisedDirectoryName | app/project.go:136 | With case-sensitive file names, a directory "cp-1" is looked up at "CP-1", so the app listing skips it while the command-line listing shows it |
| Cli.Init | main.go:57-65 | Start-up creates baseDir/Archive with its ancestors, fatally on failure |
| Cli.DefaultDirsScaffold | main.go:40-54 | The thirteen default directories are plain relative directories |
| Cli.ReadProjectFile | main.go:164-178 | A missing project directory is "does not exist"; otherwise the record file is read and parsed |
| Cli.ReadAgreesWithApp | main.go:164-178 | Whenever readProjectFile finds a record, it is the one the app's ReadProjectFile finds |
| Cli.CreateProject | main.go:189-218 | The shared create with the thirteen default directories |
| Cli.CreateThenRead | main.go:198-215 | On a free path every default directory exists and the record has the normalised ID, the cleaned tags and Path = baseDir/ID, and reading it back returns it |
| Cli.EmptyIdentifierRefused | main.go:190-196 | An identifier that normalises to "" names the base directory, which exists, so create always refuses it |
| Cli.ApplyPatch | main.go:225-236 | ID, CreatedAt and Path are never changed by an update |
| Cli.PatchReplacesGiven | main.go:225-236 | Name, description and status change exactly when a different non-empty value is given; non-empty tags replace the list wholesale with the cleaned list |
| Cli.EmptyPatchKeeps | main.go:225-236 | An update with no values leaves the record as it was |
| Cli.PatchIdempotent | main.go:225-236 | Applying the same update twice equals applying it once |
| Cli.UpdateResetsStatus | main.go:78 | With the -status default "active", an update without -status sets the status to "active" |
| Cli.UpdateProject | main.go:220-240 | Read the record, patch it and write it to its stored Path |
| Cli.UpdateThenRead | main.go:220-240 | When the stored Path is baseDir/ID, a successful update reads back as the patched record |
| Cli.UpdateFollowsStoredPath | main.go:237 | The record is written at its stored Path, so the file at baseDir/ID is untouched when Path points elsewhere |
| Cli.ListProjects | main.go:242-271 | The loop yields exactly the rows of the listing rule, looking each entry up under its own name; `found` holds exactly when a row was yielded |
| Cli.ArchiveProject | main.go:311-357 | Read the record, create the empty archive, walk the project tree into it, then set status "archived" and rewrite the record |
| Cli.ArchiveSuccess | main.go:315-353 | After a successful archive the archive holds exactly the regular files below Path, relative to it, and the record is rewritten with status "archived" |
| Cli.ArchiveWalkFailureKeepsRecord | main.go:349 | When the walk fails only the empty archive has been created; the record keeps its status |
| Cli.ArchiveFailureKeepsFiles | main.go:311-357 | After any failed archive every file other than the archive is unchanged |
| Cli.ArchiveOutsideTree | main.go:315-323 | Creating an archive outside the project tree does not change what the walk sees |
| Tagging.AssignTags | pkg/projman/tagging.go:52-83 | The loop's assignments are those of the kept rows, numbered per key and expanded from the template |
| Tagging.ReadAll | pkg/projman/tagging.go:45-50 | The reader's records pass only when every record is as wide as the first; otherwise the read fails with "read csv" |
| Tagging.GenerateTags | pkg/projman/tagging.go:30-95 | A spec error, then a CSV open or parse error, then "read csv" for records of differing widths, then a write error is returned, in that order, and never the missing-format error; otherwise the assignments of the kept rows |
| Tagging.AppGenerateTags | app/tagging.go:25-85 | An empty format is rejected before the CSV is read; then CSV errors, "read csv" for records of differing widths, and write errors; otherwise the assignments of the kept rows |
| Tagging.CounterCounts | pkg/projman/tagging.go:69-71 | The counter for a key is the number of kept rows with that key |
| Tagging.AssignmentsAt | pkg/projman/tagging.go:77-82 | There is one assignment per kept row, in order, carrying the trimmed fields and the tag expanded from that row's numeric id |
| Tagging.AssignmentsLength | app/tagging.go:67-72 | There are as many assignments as kept rows |
| Tagging.FirstOfKeyGetsStart | pkg/projman/tagging.go:71 | The first row of a key gets numeric id Start |
| Tagging.SameKeyIdsIncrease | app/tagging.go:59-61 | A later row with the same key gets a larger numeric id |
| Tagging.KeysCollide | pkg/projman/tagging.go:69 | ("A-B", "C") and ("A", "B-C") share one counter |
| Tagging.EmptyFormatIds | pkg/projman/tagging.go:73-75 | With an empty format every tag is "" |
| Tagging.HeaderIgnored | pkg/projman/tagging.go:55-58 | Row 0 is skipped whatever it holds |
| Tagging.ShortRowIgnored | app/tagging.go:35-51 | Since the reader admits only records as wide as the header, the skip of short rows applies only to a file narrower than three columns, and then there are no assignments |
| Tagging.EveryRecordKept | pkg/projman/tagging.go:45-67 | In an accepted file at least three columns wide every record after the header becomes a row, in order, with its first three fields trimmed |
| Tagging.RowsTrimmed | app/tagging.go:53-57 | Every kept field is trimmed of surrounding white space |
| Tagging.RowsOfAppend | pkg/projman/tagging.go:55-67 | The rows kept from concatenated records are the concatenation of the rows kept from each |
| Tagging.ExpandStandard | app/tagging.go:63-65 | The template "{category}-{subcat}-{id}" expands to category-subcat-NN for fields without '{' |
| Tagging.ThreeRowExample | pkg/projman/tagging.go:69-75 | Rows (A,1), (A,1), (B,1) with start 1 get A-1-01, A-1-02 and B-1-01 |
| InstrumentTags.GenerateTags | scripts/generate_tags.py:8-51 | The loop's result is the structure handed to the YAML writer: empty for no rows, otherwise Line4 over the systems the rows build; the instrument table the loop also builds is never used, and its content is stated by `InstrumentTags.TableAt` |
| InstrumentTags.CountersCount | scripts/generate_tags.py:24-28 | The next instance of a key is 101 plus the number of rows seen with that key |
| InstrumentTags.FirstOfKeyGets101 | scripts/generate_tags.py:25 | The first row of a SystemCode-EquipType key gets instance 101 |
| InstrumentTags.SameKeyInstancesIncrease | scripts/generate_tags.py:28 | A later row with the same key gets a larger instance number |
| InstrumentTags.TableAt | scripts/generate_tags.py:43-48 | The table has one entry per row, in order, holding the row's system, equipment ID, instrument ID and description |
| InstrumentTags.SystemsAreRowSystems | scripts/generate_tags.py:31-34 | The structure has a system branch exactly for each system named by a row |
| InstrumentTags.SystemCodeOfFirstRow | scripts/generate_tags.py:31-34 | A system branch keeps the SystemCode of the first row naming that system |
| InstrumentTags.PlaceWrites | scripts/generate_tags.py:35-41 | Placing a row sets its instrument entry under the EquipType-NNNN branch to the instrument ID and description |
| InstrumentTags.PlaceKeepsOthers | scripts/generate_tags.py:35-41 | Placing a row changes no other instrument entry |
| InstrumentTags.PlaceKeepsKind | scripts/generate_tags.py:35-41 | An existing equipment branch keeps its Type when a row whose instrument is not named "Type" lands in it |
| InstrumentTags.TypeInstrumentReplacesKind | scripts/generate_tags.py:35-41 | A row whose instrument is named "Type" overwrites its branch's Type with its instrument entry, as the shared dict makes it |
| InstrumentTags.PlaceCreatesBranch | scripts/generate_tags.py:35-41 | A new equipment branch holds exactly Type and the row's instrument; Type is the row's function unless the instrument is named "Type", when no function remains |
| InstrumentTags.EntrySurvives | scripts/generate_tags.py:38-41 | A row's instrument entry is in the result unless a later row writes the same location |
| InstrumentTags.SharedEntryExample | scripts/generate_tags.py:35-41 | Two rows that meet at one location: the later instrument entry wins and the first row's Type stays |
| Nav.Edit | cmd/projtui/create_project.go:95-98 | A blurred field ignores keys; a focused field appends a typed rune while under its limit and deletes the last rune on backspace; focus and limit never change |
| Nav.BlurredIgnoresTyping | projtui/tools.go:68-69 | A blurred field is unchanged by any key sequence |
| Nav.TypingRespectsLimit | ui/view_project.go:24 | Typing never takes a field beyond its character limit |
| Nav.TypingAppends | ui/view_project.go:64-66 | Typing text into a focused field with room appends exactly that text |
| MainMenuScreen.MenuStep | ui/tui.go:41-82 | The cursor stays in [0,6] and moves only when no route is taken; q, ctrl+c and enter or space on Archive or Quit quit; enter or space on the other items go to their screens |
| MainMenuScreen.Target | ui/tui.go:56-78 | Only the five screen items lead to a screen; every other index quits |
| MainMenuScreen.DownsReachQuit | ui/tui.go:51-54 | Enough down keys bring the cursor to Quit, the last item |
| MainMenuScreen.MainMenu.Update | ui/tui.go:41-82 | One key performs exactly one menu step |
| SettingsScreen.SettingsStep | ui/settings.go:30-54 | The cursor stays in [0,1]; the toggle flips exactly on enter at item 0; the menu is reached exactly on ctrl+c, esc or enter at item 1 |
| SettingsScreen.DoubleToggleRestores | ui/settings.go:45-47 | Two flips restore the original setting |
| SettingsScreen.Settings.constructor | ui/settings.go:20-24 | The toggle starts equal to the configuration's sound flag |
| SettingsScreen.Settings.Update | ui/settings.go:30-54 | One settings step; a flip writes the new value to the configuration, so toggle and configuration stay in sync |
| SubmenuScreen.ZipTarget | cmd/projtui/project_submenu.go:54 | The archive path is the project path with ".zip" appended to its last component |
| SubmenuScreen.SubmenuStep | cmd/projtui/project_submenu.go:34-76 | The choice stays in [0,3]; enter on 0 shows this project, on 1 zips the folder, on 2 opens it; enter on 1-3, esc and q return to the menu; the project is never changed |
| SubmenuScreen.Submenu.Update | ui/project_submenu.go:34-76 | One key performs exactly one submenu step, for both copies of the screen |
| ProjectListScreen.FilterProjects | cmd/projtui/project_list.go:132-145 | The loop returns the filter: the input for an empty query, else the projects whose upper-cased ID contains the upper-cased query |
| ProjectListScreen.EmptyQueryMatchesAll | cmd/projtui/project_list.go:133-135 | The general filter with an empty query keeps every project, agreeing with the shortcut |
| ProjectListScreen.FilterMembers | cmd/projtui/project_list.go:137-144 | A project is kept exactly when it is in the input and matches |
| ProjectListScreen.MatchingAppend | cmd/projtui/project_list.go:139-143 | The filter keeps input order: filtering a concatenation concatenates the filtered parts |
| ProjectListScreen.FilterShrinks | cmd/projtui/project_list.go:132-145 | The filter never returns more projects than it was given |
| ProjectListScreen.LoadProjects | cmd/projtui/project_list.go:25-39 | The initial load is empty when the base cannot be read, else the records of the directory entries that are not dot-named and read successfully |
| ProjectListScreen.LoadedMembers | cmd/projtui/project_list.go:31-39 | A project is loaded exactly when some non-dot directory entry's record reads as it |
| ProjectListScreen.ArchiveIsLoaded | cmd/projtui/project_list.go:32 | An "Archive" directory holding a record is loaded by the screen although the listing command skips it |
| ProjectListScreen.ListedAreLoaded | cmd/projtui/project_list.go:31-39 | Every project the app listing shows is also loaded by the screen |
| ProjectListScreen.Loaded | cmd/projtui/project_list.go:46-50 | The loaded screen shows all projects, not searching, cursor 0 |
| ProjectListScreen.ListStep | cmd/projtui/project_list.go:57-104 | The cursor stays 0 or below the filtered length; searching keys edit the query and re-filter from all, resetting an out-of-range cursor; esc while searching resets the filter and returns to the menu; ctrl+c, q, esc and b return; enter or space open the submenu for the selected project only when there is one |
| ProjectListScreen.SelectedMatches | cmd/projtui/project_list.go:96-100 | The project handed to the submenu is loaded and matches the current query |
| ProjectListScreen.ProjectList.constructor | cmd/projtui/project_list.go:23-51 | The screen starts from the initial load |
| ProjectListScreen.ProjectList.Update | cmd/projtui/project_list.go:57-104 | One key performs exactly one list step |
| CreateScreen.Initial | cmd/projtui/create_project.go:21-42 | Four fields of limit 100, only the first focused, focus 0 |
| CreateScreen.NextFocus | cmd/projtui/create_project.go:79-91 | Focus stays in [0,3]; tab, down and enter move it +1 mod 4, shift+tab and up -1 mod 4 |
| CreateScreen.MoveFocus | cmd/projtui/create_project.go:79-81 | Moving focus blurs the old field and focuses the new one, changing nothing else |
| CreateScreen.NavigateStep | cmd/projtui/create_project.go:84-98 | Focus keys move the focus; other keys go to every field |
| CreateScreen.CreateStep | cmd/projtui/create_project.go:48-100 | ctrl+c and esc return to the menu and change nothing; enter on the last field submits; enter elsewhere, tab, down, shift+tab and up move the focus; other keys edit the fields; the store changes only on a successful submit |
| CreateScreen.SubmitStep | cmd/projtui/create_project.go:55-76 | A submission without an ID or name sets "ID and Name are required" and creates nothing; otherwise the project is created with status "active" |
| CreateScreen.SubmitCreates | cmd/projtui/create_project.go:66-76 | A valid submission on a free path marks the form done with the confirmation, and the record reads back with the normalised ID, status "active" and the cleaned tags |
| CreateScreen.SubmitExistingExits | cmd/projtui/create_project.go:66-72 | Submitting an existing project ends the session and changes nothing |
| CreateScreen.CreateForm.Refocus | cmd/projtui/create_project.go:79-81 | The fields array is rewritten to the focus move |
| CreateScreen.CreateForm.EditInputs | cmd/projtui/create_project.go:95-98 | The loop gives every field the key |
| CreateScreen.CreateForm.Update | cmd/projtui/create_project.go:48-100 | One key performs exactly one form step, on the fields array and the store |
| ViewScreen.ViewStep | ui/view_project.go:38-67 | ctrl+c and esc return to the menu; enter with an ID normalising to "" sets "Invalid ID"; otherwise a read error sets the error, a success shows the project and sets done; other keys only edit the input |
| ViewScreen.ShownProjectWasRead | ui/view_project.go:51-59 | A project appears only on enter, as the record read for the input, with done set |
| ViewScreen.SubmenuViewRejectsLookups | cmd/projtui/project_submenu.go:52 | The view opened from the submenu shows its project, and its unfocused empty field makes every enter report an invalid ID |
| ViewScreen.ViewForm.Update | ui/view_project.go:38-67 | One key performs exactly one view step |
| ToolsScreen.Initial | projtui/tools.go:25-40 | Menu mode, cursor 0, no message |
| ToolsScreen.ToolsStep | projtui/tools.go:46-96 | Outside generate mode the cursor stays in [0,1], enter on 0 enters generate mode focusing the CSV field, enter on 1, esc and q return; in generate mode enter with both paths set runs the generator and sets its message, esc clears mode and message, other keys go to both fields |
| ToolsScreen.GeneratorNeverRuns | projtui/tools.go:71-89 | Since only the CSV field is ever focused, the output path stays empty and no key sequence runs the generator |
| ToolsScreen.Tools.Update | projtui/tools.go:46-96 | One key performs exactly one tools step |

## Left out

- Configuration and environment loading (`app/config.go`, `core/env.go`) are not part of this model. The tag format and start, the sound flag and the base directory (`GetDefaultBaseDir`) are parameters.
- Sound playback (`projtui/sound.go`, `ui/sound.go`) never affects control flow and is left out.
- Presets (`app/presets.go`, `pkg/projman/presets.go`) are not part of this model.
- Flag parsing and command dispatch in `main()` and `cmd/projman/main.go` are left out. Only the `-status` default "active" is kept, as `Cli.DefaultStatusFlag`.
- The real file system, YAML, CSV and zip codecs are abstract.
  - A record file holds a project value or unparseable data.
  - CSV input is the sequence of records the CSV parser yields, before `ReadAll`'s field-count check, which is modelled as `Tagging.ReadAll`. Quoting errors are part of the CSV outcome.
  - An archive is the set of relative file paths it holds, plus whether it was finished.
  - Marshalling a record or assignments is taken to succeed.
- Time is an opaque string parameter.
- Opening a folder with `exec.Command` is an `OpenFolder` effect.
- The submenu's `ZipProjectFolder` is a `ZipFolder` effect whose error is dropped. The `projtui` copy calls `projman.ZipProjectFolder` and the `ui` copy calls `app.ZipProjectFolder`. `pkg/projman/project.go` is not part of this model, and `app/project.go` does not define `ZipProjectFolder`, so neither is inspected.
- The `projtui` screens call `projman.ReadProjectFile` and `projman.CreateProject`. These are modelled with the `app/project.go` semantics.
- `core.GenerateTags`, which the tools screen calls, is not part of this model. It is a function parameter of the tools step.
- `openProject`, `showStatus`, `ShowStatus` and `getArchiveSize` only print or start processes. The record reading they share with the other commands is modelled.
- All `View()` rendering and bubbletea internals are left out. The runtime loop is one key event per transition. Text fields are modelled as value, focus and character limit.
- Nav.Edit: of the text field's editing keys only typed runes and backspace are modelled. Cursor movement inside the field, delete, ctrl+w, ctrl+u, ctrl+k, alt+backspace and paste fall under `Key.Other`, which the model's field ignores while the real field reacts to them.
- Text.ToUpper: Go's full Unicode upper-casing is modelled only for a-z and the two non-ASCII runes that map into A-Z (U+0131 and U+017F). Other runes are unchanged. That is enough for `ValidateID`, whose output keeps only A-Z, 0-9 and '-'. It is not enough for the project list's search (`ProjectListScreen.Matches` and `FilterProjects`, cmd/projtui/project_list.go:138-140), which upper-cases both the query and identifiers read from records: an identifier "É1" matches the query "é" in Go but not in the model.
- Fs.FileSystem.ReadDir: os.ReadDir returns entries sorted by name; the model lists each child exactly once in an unspecified order, so every listing property holds for any order.
- InstrumentTags.GenerateTags: the YAML dump and the print of the script are left out; the structure passed to the dump is the result. Python dicts keep insertion order and `yaml.dump(..., sort_keys=False)` writes keys in that order; the model's maps have no order, so the order of systems, equipment and instruments in the written YAML is not modelled. Every row is taken to carry all six columns (System, SystemCode, EquipType, Function, Instrument, Description) as strings: the KeyError the script raises on the first row when the header lacks one of them, and the None values `csv.DictReader` gives a row shorter than the header, which the f-strings render as "None" in the key, the equipment ID and the tag, are not modelled.
- Path names compare case-sensitively: the file system is a map keyed by exact component strings. On a case-insensitive file system, the default on macOS and Windows which the program supports, "CP-1" and "cp-1" name one directory. There `ProjectStore.ListProjects` would list a "cp-1" directory (unlike `ProjectStore.UnnormalisedDirectoryName`), and creating project "cp-1", whose directory is "CP-1", where a "cp-1" directory exists would fail as existing, where `ProjectStore.CreateOnFreePath` treats the path as free.
- Fs.FileSystem: the only errors modelled are the structural ones, ENOENT (`NotExist`), ENOTDIR (`NotDir`) and EISDIR (`IsDir`). Permission denied, a read-only file system, a full disk and I/O errors are not modelled. So the "fails exactly when" and "succeeds" statements of `Fs.FileSystem.ReadDir`, `Fs.FileSystem.WriteFile`, `Fs.FileSystem.MkdirAll`, `ProjectStore.ScanProjects`, `ProjectStore.CreateOnFreePath`, `ProjectStore.AppCreateThenRead`, `Cli.CreateThenRead` and `CreateScreen.SubmitCreates` hold only under that restriction. On the real system, for example, an unreadable base directory makes `os.ReadDir` fail and `ListProjects` end the process (app/project.go:123-126).
- Tagging.SameKeyIdsIncrease: ids are unbounded integers. Go computes `Start + counter[key] - 1` in 64-bit `int` (pkg/projman/tagging.go:71, app/tagging.go:61), which wraps around for a start near the int64 limit, and then a later row of a key can get a smaller id. That wrap-around is not modelled; `Tagging.FirstOfKeyGetsStart` and `Tagging.NumericId` likewise assume no overflow.
- log.Fatalf ends the process. In the model it is an `Err` outcome after which the command does nothing more.
