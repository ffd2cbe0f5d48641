/** The project list of cmd/projtui/project_list.go: the projects found under the
    base directory, a search bar that filters them by identifier, and a cursor
    over the filtered list; enter opens the submenu of the project under the
    cursor. Projects are read with app/project.go's ReadProjectFile (module
    ProjectStore). */
module ProjectListScreen {
  import opened Wrappers
  import opened Text
  import opened Records
  import opened Fs
  import opened ProjectStore
  import opened Nav

  const SearchLimit := 30

  // ----- the filter -----

  /** Whether a project's identifier contains the query, both upper-cased. */
  predicate Matches(p: Project, query: string)
  {
    Contains(ToUpper(p.id), ToUpper(query))
  }

  /** The projects whose identifier contains the query, in their original order. */
  function Matching(projects: seq<Project>, query: string): seq<Project>
  {
    if projects == [] then []
    else
      var last := projects[|projects| - 1];
      Matching(projects[..|projects| - 1], query) + (if Matches(last, query) then [last] else [])
  }

  /** filterProjects: an empty query returns the projects as they are. */
  function FilterOf(projects: seq<Project>, query: string): seq<Project>
  {
    if query == "" then projects else Matching(projects, query)
  }

  /** filterProjects' loop. */
  method FilterProjects(projects: seq<Project>, query: string) returns (filtered: seq<Project>)
    ensures filtered == FilterOf(projects, query)
  {
    if query == "" {
      return projects;
    }
    filtered := [];
    var q := ToUpper(query);
    var i := 0;
    while i < |projects|
      invariant 0 <= i <= |projects|
      invariant filtered == Matching(projects[..i], query)
    {
      assert projects[..i + 1][..i] == projects[..i];
      if Contains(ToUpper(projects[i].id), q) {
        filtered := filtered + [projects[i]];
      }
      i := i + 1;
    }
    assert projects[..i] == projects;
  }

  /** The empty query matches every identifier, so the special case of an empty
      query agrees with the general rule. */
  lemma {:induction false} EmptyQueryMatchesAll(projects: seq<Project>)
    ensures Matching(projects, "") == projects
  {
    if projects != [] {
      var n := |projects| - 1;
      EmptyQueryMatchesAll(projects[..n]);
      assert IsPrefix(ToUpper(""), ToUpper(projects[n].id));
      assert projects[..n] + [projects[n]] == projects;
    }
  }

  /** A project is kept exactly when it is one of the projects and its
      upper-cased identifier contains the upper-cased query. */
  lemma {:induction false} FilterMembers(projects: seq<Project>, query: string, p: Project)
    ensures p in FilterOf(projects, query) <==> p in projects && Matches(p, query)
  {
    if query == "" {
      EmptyQueryMatchesAll(projects);
      assert IsPrefix(ToUpper(""), ToUpper(p.id));
    } else {
      MatchingMembers(projects, query, p);
    }
  }

  lemma {:induction false} MatchingMembers(projects: seq<Project>, query: string, p: Project)
    ensures p in Matching(projects, query) <==> p in projects && Matches(p, query)
  {
    if projects != [] {
      var n := |projects| - 1;
      MatchingMembers(projects[..n], query, p);
      assert projects == projects[..n] + [projects[n]];
    }
  }

  /** The filter keeps order: filtering a concatenation concatenates the
      filtered parts. */
  lemma {:induction false} MatchingAppend(a: seq<Project>, b: seq<Project>, query: string)
    ensures Matching(a + b, query) == Matching(a, query) + Matching(b, query)
    decreases |b|
  {
    if b == [] {
      assert a + b == a;
    } else {
      var n := |b| - 1;
      assert (a + b)[..|a + b| - 1] == a + b[..n];
      MatchingAppend(a, b[..n], query);
    }
  }

  /** The filter never adds projects. */
  lemma {:induction false} FilterShrinks(projects: seq<Project>, query: string)
    ensures |FilterOf(projects, query)| <= |projects|
  {
    if query != "" {
      MatchingShrinks(projects, query);
    }
  }

  lemma {:induction false} MatchingShrinks(projects: seq<Project>, query: string)
    ensures |Matching(projects, query)| <= |projects|
  {
    if projects != [] {
      MatchingShrinks(projects[..|projects| - 1], query);
    }
  }

  // ----- the initial load -----

  /** The entries the list reads: directories whose names do not start with a
      dot. Unlike the list commands, "Archive" is not skipped. */
  predicate Loadable(e: DirEntry) {
    e.isDir && !IsPrefix(".", e.name)
  }

  /** Entry e is loadable and its record is p. */
  predicate Loads(nodes: map<Path, Node>, baseDir: Path, e: DirEntry, p: Project) {
    Loadable(e) && ReadRecordOf(nodes, baseDir, e.name) == Ok(p)
  }

  /** What one entry adds to the list. */
  function LoadedRow(nodes: map<Path, Node>, baseDir: Path, e: DirEntry): seq<Project>
  {
    var rec := ReadRecordOf(nodes, baseDir, e.name);
    if Loadable(e) && rec.Ok? then [rec.value] else []
  }

  /** The projects loaded from the entries, in enumeration order: each loadable
      entry whose record reads. */
  function LoadedRows(nodes: map<Path, Node>, baseDir: Path, es: seq<DirEntry>): seq<Project>
  {
    Collect(es, e => LoadedRow(nodes, baseDir, e))
  }

  /** The load of newProjectListModel: an unreadable base directory gives no
      list at all; otherwise the loaded rows of its entries. */
  method LoadProjects(fs: FileSystem, baseDir: Path) returns (r: Option<seq<Project>>, ghost entries: seq<DirEntry>)
    ensures r.None? <==> !(baseDir in fs.nodes && fs.nodes[baseDir] == Dir)
    ensures r.Some? ==> IsListing(fs.nodes, baseDir, entries) && r.value == LoadedRows(fs.nodes, baseDir, entries)
  {
    var listing := fs.ReadDir(baseDir);
    if listing.Err? {
      return None, [];
    }
    var es := listing.value;
    entries := es;
    var all: seq<Project> := [];
    var i := 0;
    while i < |es|
      invariant 0 <= i <= |es|
      invariant all == LoadedRows(fs.nodes, baseDir, es[..i])
    {
      assert es[..i + 1][..i] == es[..i];
      var e := es[i];
      if !e.isDir || IsPrefix(".", e.name) {
        i := i + 1;
        continue;
      }
      var rec := ReadProjectFile(fs, baseDir, e.name);
      if rec.Ok? {
        all := all + [rec.value];
      }
      i := i + 1;
    }
    assert es[..i] == es;
    r := Some(all);
  }

  /** A project is loaded exactly when some loadable entry's record is it. */
  lemma LoadedMembers(nodes: map<Path, Node>, baseDir: Path, es: seq<DirEntry>, p: Project)
    ensures p in LoadedRows(nodes, baseDir, es) <==> exists i :: 0 <= i < |es| && Loads(nodes, baseDir, es[i], p)
  {
    var row := e => LoadedRow(nodes, baseDir, e);
    CollectMembers(es, row, p);
    if exists i :: 0 <= i < |es| && Loads(nodes, baseDir, es[i], p) {
      var i :| 0 <= i < |es| && Loads(nodes, baseDir, es[i], p);
      assert p in row(es[i]);
    }
    if exists i :: 0 <= i < |es| && p in row(es[i]) {
      var i :| 0 <= i < |es| && p in row(es[i]);
      assert Loads(nodes, baseDir, es[i], p);
    }
  }

  /** Every project ListProjects prints is also loaded by the list screen. */
  lemma ListedAreLoaded(nodes: map<Path, Node>, baseDir: Path, es: seq<DirEntry>, p: Project)
    requires p in ListedRows(nodes, baseDir, es, true)
    ensures p in LoadedRows(nodes, baseDir, es)
  {
    ListedRowsMembers(nodes, baseDir, es, true, p);
    var i :| 0 <= i < |es| && Yields(nodes, baseDir, es[i], true, p);
    assert Loads(nodes, baseDir, es[i], p);
    LoadedMembers(nodes, baseDir, es, p);
  }

  /** The "Archive" directory, which the list commands skip, is loaded like any
      project directory when it holds a readable record. */
  lemma ArchiveIsLoaded(nodes: map<Path, Node>, baseDir: Path, p: Project)
    requires ReadRecordOf(nodes, baseDir, "Archive") == Ok(p)
    ensures LoadedRows(nodes, baseDir, [DirEntry("Archive", true)]) == [p]
    ensures ListedRows(nodes, baseDir, [DirEntry("Archive", true)], true) == []
  {
    assert !IsPrefix(".", "Archive");
    assert [DirEntry("Archive", true)][..0] == [];
  }

  // ----- the key machine -----

  datatype ListState = ListState(
    all: seq<Project>, filtered: seq<Project>, search: TextField, searching: bool, cursor: int)

  /** The cursor is 0 or within the filtered list. */
  predicate CursorOk(s: ListState) {
    0 <= s.cursor && (s.cursor == 0 || s.cursor < |s.filtered|)
  }

  /** The filtered list is the filter of all projects by the search text, and
      the search bar has focus exactly while searching. */
  predicate Consistent(s: ListState) {
    s.filtered == FilterOf(s.all, s.search.value) && (s.search.focused <==> s.searching)
  }

  /** The list as loaded: everything shown, not searching, cursor on top. */
  function Loaded(all: seq<Project>): (s: ListState)
    ensures CursorOk(s) && Consistent(s)
  {
    ListState(all, all, NewField(SearchLimit), false, 0)
  }

  /** One key on the list: the new state and the route. */
  function ListStep(s: ListState, k: Key): (r: (ListState, Route))
    requires CursorOk(s)
    ensures CursorOk(r.0) && r.0.all == s.all
    ensures r.1 in {Stay, ToMenu} || (r.1.ToSubmenu? && !s.searching && |s.filtered| > 0 && r.1.project == s.filtered[s.cursor])
    ensures r.1 == Stay && Consistent(s) ==> Consistent(r.0)
    ensures s.searching && k == Esc ==> r.1 == ToMenu && !r.0.searching && r.0.filtered == s.all && r.0.cursor == 0
    ensures s.searching && k != Esc ==>
      && r.1 == Stay && r.0.search == Edit(s.search, k)
      && r.0.filtered == FilterOf(s.all, r.0.search.value)
      && r.0.cursor == (if s.cursor >= |r.0.filtered| then 0 else s.cursor)
    ensures !s.searching ==> (r.1 == ToMenu <==> k in {CtrlC, Rune('q'), Esc, Rune('b')})
  {
    if s.searching then
      if k == Esc then
        (s.(searching := false, search := s.search.(focused := false), filtered := s.all, cursor := 0), ToMenu)
      else
        var search := Edit(s.search, k);
        var filtered := FilterOf(s.all, search.value);
        (s.(search := search, filtered := filtered, cursor := if s.cursor >= |filtered| then 0 else s.cursor), Stay)
    else if k == CtrlF then (s.(searching := true, search := s.search.(focused := true)), Stay)
    else if k in {CtrlC, Rune('q'), Esc, Rune('b')} then (s, ToMenu)
    else if IsUp(k) then (s.(cursor := if s.cursor > 0 then s.cursor - 1 else s.cursor), Stay)
    else if IsDown(k) then (s.(cursor := if s.cursor < |s.filtered| - 1 then s.cursor + 1 else s.cursor), Stay)
    else if k == Enter || k == Rune(' ') then
      if |s.filtered| > 0 then (s, ToSubmenu(s.filtered[s.cursor])) else (s, Stay)
    else (s, Stay)
  }

  /** The project enter opens is one of the loaded projects, and its
      identifier matches the search text. */
  lemma SelectedMatches(s: ListState, k: Key)
    requires CursorOk(s) && Consistent(s)
    requires ListStep(s, k).1.ToSubmenu?
    ensures ListStep(s, k).1.project in s.all
    ensures Matches(ListStep(s, k).1.project, s.search.value)
  {
    var p := s.filtered[s.cursor];
    assert p in s.filtered;
    FilterMembers(s.all, s.search.value, p);
  }

  class ProjectList {
    const all: seq<Project>
    var filtered: seq<Project>
    var searchBar: TextField
    var searching: bool
    var cursor: int

    function State(): ListState
      reads this
    {
      ListState(all, filtered, searchBar, searching, cursor)
    }

    predicate Valid()
      reads this
    {
      CursorOk(State())
    }

    /** newProjectListModel: an unreadable base directory gives an empty list
        whose search bar is the zero field (no limit). */
    constructor(fs: FileSystem, baseDir: Path)
      ensures Valid() && Consistent(State())
      ensures !(baseDir in fs.nodes && fs.nodes[baseDir] == Dir) ==> State() == ListState([], [], TextField("", false, 0), false, 0)
      ensures baseDir in fs.nodes && fs.nodes[baseDir] == Dir ==>
        exists es :: IsListing(fs.nodes, baseDir, es) && State() == Loaded(LoadedRows(fs.nodes, baseDir, es))
    {
      var loaded, es := LoadProjects(fs, baseDir);
      if loaded.None? {
        all, filtered := [], [];
        searchBar := TextField("", false, 0);
      } else {
        all, filtered := loaded.value, loaded.value;
        searchBar := NewField(SearchLimit);
      }
      searching, cursor := false, 0;
    }

    /** Update: while searching, esc leaves search mode, restores the full list
        and goes back to the menu, and any other key edits the search text and
        re-filters (a cursor past the end goes to 0); otherwise ctrl+f starts
        searching, q, b, esc and ctrl+c go back, up and down move within the
        filtered list, and enter or space opens the project under the cursor. */
    method Update(k: Key) returns (route: Route)
      requires Valid()
      modifies this
      ensures Valid()
      ensures (State(), route) == ListStep(old(State()), k)
    {
      route := Stay;
      if searching {
        if k == Esc {
          searching := false;
          searchBar := searchBar.(focused := false);
          filtered := all;
          cursor := 0;
        } else {
          searchBar := Edit(searchBar, k);
          filtered := FilterProjects(all, searchBar.value);
          if cursor >= |filtered| {
            cursor := 0;
          }
          return;
        }
      }
      if k == CtrlF {
        searching := true;
        searchBar := searchBar.(focused := true);
      } else if k in {CtrlC, Rune('q'), Esc, Rune('b')} {
        route := ToMenu;
      } else if IsUp(k) {
        if cursor > 0 {
          cursor := cursor - 1;
        }
      } else if IsDown(k) {
        if cursor < |filtered| - 1 {
          cursor := cursor + 1;
        }
      } else if k == Enter || k == Rune(' ') {
        if |filtered| > 0 {
          route := ToSubmenu(filtered[cursor]);
        }
      }
    }
  }
}
