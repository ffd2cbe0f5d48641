/** The project submenu of cmd/projtui/project_submenu.go and its copy in
    ui/project_submenu.go: four actions on one project under a cursor. The two
    copies differ in where the sound names come from, in the package whose
    project type they hold (projman or app) and in the package whose
    ZipProjectFolder they call; neither ZipProjectFolder is modelled, so both
    copies take the same steps. */
module SubmenuScreen {
  import opened Records
  import opened Nav

  const ViewChoice := 0
  const ArchiveChoice := 1
  const OpenChoice := 2
  const BackChoice := 3

  /** The archive target: the project path with ".zip" appended to its text, so
      the archive sits beside the folder under the folder's name. */
  function ZipTarget(p: Path): (r: Path)
    ensures |r| == (if p == [] then 1 else |p|)
    ensures p != [] ==> r[..|p| - 1] == p[..|p| - 1] && r[|p| - 1] == p[|p| - 1] + ".zip"
  {
    if p == [] then [".zip"] else p[..|p| - 1] + [p[|p| - 1] + ".zip"]
  }

  /** One key on the submenu: the new choice, the effect started and the route.
      Archiving only starts the zip, whose error is dropped; it never touches
      the project's record, so the status stays what it was. */
  function SubmenuStep(project: Project, choice: int, k: Key): (r: (int, Effect, Route))
    requires 0 <= choice <= BackChoice
    ensures 0 <= r.0 <= BackChoice
    ensures r.2 == Stay ==> r.1 == NoEffect
    ensures r.1 == ZipFolder(project.path, ZipTarget(project.path)) <==> (k == Enter && choice == ArchiveChoice)
    ensures r.1 == OpenFolder(project.path) <==> (k == Enter && choice == OpenChoice)
    ensures r.2 == ToProject(project) <==> (k == Enter && choice == ViewChoice)
    ensures r.2 == ToMenu <==> (k == Esc || k == Rune('q') || (k == Enter && choice != ViewChoice))
    ensures r.2 in {Stay, ToMenu, ToProject(project)}
  {
    if IsUp(k) then (if choice > 0 then choice - 1 else choice, NoEffect, Stay)
    else if IsDown(k) then (if choice < BackChoice then choice + 1 else choice, NoEffect, Stay)
    else if k == Enter then
      if choice == ViewChoice then (choice, NoEffect, ToProject(project))
      else if choice == ArchiveChoice then (choice, ZipFolder(project.path, ZipTarget(project.path)), ToMenu)
      else if choice == OpenChoice then (choice, OpenFolder(project.path), ToMenu)
      else (choice, NoEffect, ToMenu)
    else if k == Esc || k == Rune('q') then (choice, NoEffect, ToMenu)
    else (choice, NoEffect, Stay)
  }

  class Submenu {
    const project: Project
    var choice: int

    predicate Valid()
      reads this
    {
      0 <= choice <= BackChoice
    }

    /** The submenu opens on "View Status" for the project selected in the list. */
    constructor(p: Project)
      ensures Valid() && project == p && choice == ViewChoice
    {
      project := p;
      choice := 0;
    }

    /** Update: the choice moves within the four actions; enter runs the chosen
        one; esc and q go back. The project itself is never changed. */
    method Update(k: Key) returns (effect: Effect, route: Route)
      requires Valid()
      modifies this
      ensures Valid()
      ensures (choice, effect, route) == SubmenuStep(project, old(choice), k)
    {
      effect, route := NoEffect, Stay;
      if IsUp(k) {
        if choice > 0 {
          choice := choice - 1;
        }
      } else if IsDown(k) {
        if choice < BackChoice {
          choice := choice + 1;
        }
      } else if k == Enter {
        if choice == ViewChoice {
          route := ToProject(project);
        } else if choice == ArchiveChoice {
          effect := ZipFolder(project.path, ZipTarget(project.path));
          route := ToMenu;
        } else if choice == OpenChoice {
          effect := OpenFolder(project.path);
          route := ToMenu;
        } else {
          route := ToMenu;
        }
      } else if k == Esc || k == Rune('q') {
        route := ToMenu;
      }
    }
  }
}
