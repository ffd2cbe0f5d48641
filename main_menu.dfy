/** The main menu of ui/tui.go: seven items under a cursor; enter opens the
    chosen screen, and q, ctrl+c, "Quit" and the unimplemented "Archive
    Project" end the session. */
module MainMenuScreen {
  import opened Nav

  /** The seven items, in order. */
  const ItemCount := 7
  const ListItem := 0
  const CreateItem := 1
  const ViewItem := 2
  const ArchiveItem := 3
  const ToolsItem := 4
  const SettingsItem := 5
  const QuitItem := 6

  /** Where enter on an item goes. "Archive Project" has no screen: it falls to
      the default branch, which announces it is not implemented and quits. */
  function Target(cursor: int): (r: Route)
    ensures r == Quit <==> cursor !in {ListItem, CreateItem, ViewItem, ToolsItem, SettingsItem}
  {
    if cursor == ListItem then ToList
    else if cursor == CreateItem then ToCreate
    else if cursor == ViewItem then ToView
    else if cursor == ToolsItem then ToTools
    else if cursor == SettingsItem then ToSettings
    else Quit
  }

  /** One key on the menu: the new cursor and where the session goes. */
  function MenuStep(cursor: int, k: Key): (r: (int, Route))
    requires 0 <= cursor < ItemCount
    ensures 0 <= r.0 < ItemCount
    ensures r.1 != Stay ==> r.0 == cursor
    ensures r.1 == Quit <==> (k == CtrlC || k == Rune('q')
      || ((k == Enter || k == Rune(' ')) && (cursor == ArchiveItem || cursor == QuitItem)))
  {
    if k == CtrlC || k == Rune('q') then (cursor, Quit)
    else if IsUp(k) then (if cursor > 0 then cursor - 1 else cursor, Stay)
    else if IsDown(k) then (if cursor < ItemCount - 1 then cursor + 1 else cursor, Stay)
    else if k == Enter || k == Rune(' ') then (cursor, Target(cursor))
    else (cursor, Stay)
  }

  /** The cursor after a sequence of keys that do not leave the menu. */
  function CursorAfter(cursor: int, keys: seq<Key>): (r: int)
    requires 0 <= cursor < ItemCount
    ensures 0 <= r < ItemCount
  {
    if keys == [] then cursor else MenuStep(CursorAfter(cursor, keys[..|keys| - 1]), keys[|keys| - 1]).0
  }

  /** Enough downs reach "Quit" from anywhere, and the cursor then stays there. */
  lemma {:induction false} DownsReachQuit(cursor: int, n: nat)
    requires 0 <= cursor < ItemCount && n >= ItemCount - 1 - cursor
    ensures CursorAfter(cursor, seq(n, _ => Down)) == QuitItem
  {
    if n > 0 {
      var keys := seq(n, _ => Down);
      assert keys[..n - 1] == seq(n - 1, _ => Down);
      if n - 1 >= ItemCount - 1 - cursor {
        DownsReachQuit(cursor, n - 1);
      } else {
        DownsCount(cursor, n - 1);
      }
    }
  }

  /** Fewer downs than the distance to the bottom move the cursor by their number. */
  lemma {:induction false} DownsCount(cursor: int, n: nat)
    requires 0 <= cursor && cursor + n < ItemCount
    ensures CursorAfter(cursor, seq(n, _ => Down)) == cursor + n
  {
    if n > 0 {
      var keys := seq(n, _ => Down);
      assert keys[..n - 1] == seq(n - 1, _ => Down);
      DownsCount(cursor, n - 1);
    }
  }

  class MainMenu {
    var cursor: int

    predicate Valid()
      reads this
    {
      0 <= cursor < ItemCount
    }

    /** A menu opens on its first item. */
    constructor()
      ensures Valid() && cursor == ListItem
    {
      cursor := 0;
    }

    /** Update: the cursor moves within the seven items; the route is the
        item's screen on enter or space, the end of the session on q or ctrl+c. */
    method Update(k: Key) returns (route: Route)
      requires Valid()
      modifies this
      ensures Valid()
      ensures (cursor, route) == MenuStep(old(cursor), k)
    {
      route := Stay;
      if k == CtrlC || k == Rune('q') {
        route := Quit;
      } else if IsUp(k) {
        if cursor > 0 {
          cursor := cursor - 1;
        }
      } else if IsDown(k) {
        if cursor < ItemCount - 1 {
          cursor := cursor + 1;
        }
      } else if k == Enter || k == Rune(' ') {
        route := Target(cursor);
      }
    }
  }
}
