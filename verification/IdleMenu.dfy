// The menu entry tables of src/idlemenu.rs and the one menu that is refilled before each use.

module IdleMenu {

  /** Opcodes a menu entry can dispatch to the main loop. */
  datatype VaultOp =
    | MenuLogin | ListBookmarks | ListPhotos | MenuSettings | ShowAbout | MenuDone
    | List2faDigits | ListPasskeys | ListPasswords | MenuUsernames | MenuRoot
    | SettingsBling | SettingsBlinky | ScreenOff
    | PhotoSetWallpaper | PhotoExportB64 | PhotoExportAscii | PhotoTypeB64 | PhotoTypeAscii | PhotoDelete
    | MenuAddnew | MenuEditStage1 | MenuDeleteStage1 | MenuFilter
    | BookmarkType | BookmarkDelete
    | ConfirmNo | ConfirmYes
    | MenuClosed

  datatype MenuItem = MenuItem(name: string, op: VaultOp)

  const ROOT_MENU: seq<MenuItem> := [
    MenuItem("login deets", MenuLogin),
    MenuItem("qr collection", ListBookmarks),
    MenuItem("photos", ListPhotos),
    MenuItem("settings", MenuSettings),
    MenuItem("about", ShowAbout),
    MenuItem("back", MenuDone)]

  const LOGIN_MENU: seq<MenuItem> := [
    MenuItem("2fa digits", List2faDigits),
    MenuItem("passkeys", ListPasskeys),
    MenuItem("passwords", ListPasswords),
    MenuItem("manage usernames", MenuUsernames),
    MenuItem("back", MenuRoot)]

  const SETTINGS_MENU: seq<MenuItem> := [
    MenuItem("bling", SettingsBling),
    MenuItem("blinky", SettingsBlinky),
    MenuItem("screen off", ScreenOff),
    MenuItem("back", MenuRoot)]

  const PHOTO_ACTIONS: seq<MenuItem> := [
    MenuItem("set bling", PhotoSetWallpaper),
    MenuItem("export b64", PhotoExportB64),
    MenuItem("export ascii", PhotoExportAscii),
    MenuItem("type b64", PhotoTypeB64),
    MenuItem("type ascii", PhotoTypeAscii),
    MenuItem("delete", PhotoDelete),
    MenuItem("back", MenuClosed)]

  const RECORD_ACTIONS: seq<MenuItem> := [
    MenuItem("new", MenuAddnew),
    MenuItem("edit", MenuEditStage1),
    MenuItem("delete", MenuDeleteStage1),
    MenuItem("filter", MenuFilter),
    MenuItem("back", MenuClosed)]

  const QR_ACTIONS: seq<MenuItem> := [
    MenuItem("type to host", BookmarkType),
    MenuItem("delete", BookmarkDelete),
    MenuItem("back", MenuClosed)]

  const CONFIRM_MENU: seq<MenuItem> := [
    MenuItem("no", ConfirmNo),
    MenuItem("yes", ConfirmYes)]

  /** Some entry of the table dispatches op. */
  predicate Dispatches(table: seq<MenuItem>, op: VaultOp) {
    exists i :: 0 <= i < |table| && table[i].op == op
  }

  function Labels(items: seq<MenuItem>): seq<string> {
    seq(|items|, i requires 0 <= i < |items| => items[i].name)
  }

  /** What is left of the items once every item with one of the given labels is deleted. */
  function Without(items: seq<MenuItem>, labels: seq<string>): seq<MenuItem> {
    if items == [] then []
    else if items[0].name in labels then Without(items[1..], labels)
    else [items[0]] + Without(items[1..], labels)
  }

  lemma {:induction false} WithoutNothing(items: seq<MenuItem>)
    ensures Without(items, []) == items
  {
    if items != [] {
      WithoutNothing(items[1..]);
    }
  }

  lemma {:induction false} WithoutTwice(items: seq<MenuItem>, labels: seq<string>, name: string)
    ensures Without(Without(items, labels), [name]) == Without(items, labels + [name])
  {
    if items != [] {
      WithoutTwice(items[1..], labels, name);
      var rest := Without(items[1..], labels);
      if items[0].name !in labels {
        assert ([items[0]] + rest)[1..] == rest;
      }
    }
  }

  /** Deleting every label an item list carries leaves nothing of it. */
  lemma {:induction false} WithoutOwnLabels(items: seq<MenuItem>, labels: seq<string>)
    requires forall i :: 0 <= i < |items| ==> items[i].name in labels
    ensures Without(items, labels) == []
  {
    if items != [] {
      assert items[0].name in labels;
      forall i | 0 <= i < |items[1..]| ensures items[1..][i].name in labels {
        assert items[1..][i] == items[i + 1];
      }
      WithoutOwnLabels(items[1..], labels);
    }
  }

  /** The menu widget, as far as its entries go. */
  class MenuMatic {
    var items: seq<MenuItem>

    constructor ()
      ensures items == []
    {
      items := [];
    }

    method DeleteItem(name: string)
      modifies this
      ensures items == Without(old(items), [name])
    {
      items := Without(items, [name]);
    }

    method AddItem(item: MenuItem)
      modifies this
      ensures items == old(items) + [item]
    {
      items := items + [item];
    }
  }

  /**
   * Refill the reusable menu: delete the labels the previous fill left, add the new entries,
   * and return the labels the next fill has to delete.
   */
  method Fill(menu: MenuMatic, previous: seq<string>, entries: seq<MenuItem>) returns (labels: seq<string>)
    modifies menu
    ensures menu.items == Without(old(menu.items), previous) + entries
    ensures previous == Labels(old(menu.items)) ==> menu.items == entries
    ensures labels == Labels(entries)
  {
    ghost var before := menu.items;
    WithoutNothing(before);
    for i := 0 to |previous|
      invariant menu.items == Without(before, previous[..i])
    {
      WithoutTwice(before, previous[..i], previous[i]);
      menu.DeleteItem(previous[i]);
      assert previous[..i + 1] == previous[..i] + [previous[i]];
    }
    assert previous[..|previous|] == previous;
    for i := 0 to |entries|
      invariant menu.items == Without(before, previous) + entries[..i]
    {
      menu.AddItem(entries[i]);
      assert entries[..i + 1] == entries[..i] + [entries[i]];
    }
    assert entries[..|entries|] == entries;
    if previous == Labels(before) {
      forall i | 0 <= i < |before| ensures before[i].name in previous {
        assert previous[i] == before[i].name;
      }
      WithoutOwnLabels(before, previous);
    }
    labels := Labels(entries);
  }
}
