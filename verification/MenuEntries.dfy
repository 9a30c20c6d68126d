// What the entries of the menus and the buttons of the screens promise by what is written on
// them, and that the loop keeps it over all the messages a press sets off.

module MenuEntries {
  import opened IdleMenu
  import opened MainLoop
  import opened MenuProtocol
  import opened MenuZones
  import opened Results

  // ---------- entries ----------

  /** Every table the app shows. */
  datatype Table = Top | LoginDeets | SettingsTable | Photo | Record | Code | YesNo

  function Entries(table: Table): seq<MenuItem> {
    match table
    case Top => ROOT_MENU
    case LoginDeets => LOGIN_MENU
    case SettingsTable => SETTINGS_MENU
    case Photo => PHOTO_ACTIONS
    case Record => RECORD_ACTIONS
    case Code => QR_ACTIONS
    case YesNo => CONFIRM_MENU
  }

  function MenuOf(table: Table): ActiveMenu {
    match table
    case Top => Root
    case LoginDeets => Login
    case SettingsTable => Settings
    case Photo => PhotoActions
    case Record | Code => RecordActions
    case YesNo => Confirm
  }

  /** What an entry leads to: a screen, a menu, a question first, an answer, or out of the menu. */
  datatype Promise =
    | Shows(screen: VaultMode) | Opens(menu: ActiveMenu) | Asks(action: Pending) | Answers(yes: bool) | Leaves

  /** The promise, by the words of the entry. */
  function Promised(table: Table, name: string): Promise {
    match table
    case Top =>
      if name == "login deets" then Opens(Login)
      else if name == "settings" then Opens(Settings)
      else if name == "qr collection" then Shows(BookmarkList)
      else if name == "photos" then Shows(PhotoList)
      else if name == "about" then Shows(AboutQr)
      else Leaves
    case LoginDeets =>
      if name == "2fa digits" then Shows(Totp)
      else if name == "passkeys" then Shows(Passkeys)
      else if name == "passwords" then Shows(Password)
      else if name == "back" then Opens(Root)
      else Leaves
    case SettingsTable =>
      if name == "bling" then Shows(VaultMode.SettingsBling)
      else if name == "blinky" then Shows(VaultMode.SettingsBlinky)
      else if name == "back" then Opens(Root)
      else Leaves
    case Photo =>
      if name == "export b64" then Asks(ExportB64)
      else if name == "export ascii" then Asks(ExportAscii)
      else if name == "type b64" then Asks(TypeB64)
      else if name == "type ascii" then Asks(TypeAscii)
      else if name == "delete" then Asks(DeletePhoto)
      else Leaves
    case Record => Leaves
    case Code => if name == "delete" then Asks(DeleteBookmark) else Leaves
    case YesNo => Answers(name == "yes")
  }

  /** The promise is kept once the entry and the close notice behind it are handled. */
  ghost predicate Kept(p: Promise, s: Loop, op: VaultOp, w: World) {
    var t := OnClosed(OnEntry(s, op, w));
    && (!p.Answers? ==> Ran(s, op) == Nothing)
    && match p
       case Shows(screen) =>
         && t.active == NoMenu && t.pending == s.pending
         && t.mode == if screen == AboutQr && !w.aboutEncodes then Idle else screen
       case Opens(menu) => t.active == menu && t.pending == s.pending && t.mode == s.mode
       case Asks(action) => t.active == Confirm && t.pending == action && Shown(t) == CONFIRM_MENU && t.mode == s.mode
       case Answers(yes) =>
         && t.active == NoMenu && t.pending == Nothing && Ran(s, op) == (if yes then s.pending else Nothing)
         && t.mode == if yes && s.pending == DeletePhoto && w.hasPhotos then PhotoList else s.mode
       case Leaves => t.active == NoMenu && t.pending == s.pending && t.mode == s.mode
  }

  lemma TopPromises(table: Table, n: nat, s: Loop, w: World)
    requires n < |Entries(table)| && s.active == MenuOf(table) && !s.justOpened
    requires table.Top? && !Promised(table, Entries(table)[n].name).Asks?
    ensures Kept(Promised(table, Entries(table)[n].name), s, Entries(table)[n].op, w)
  {
    hide Without, Opened;
  }

  lemma LoginPromises(table: Table, n: nat, s: Loop, w: World)
    requires n < |Entries(table)| && s.active == MenuOf(table) && !s.justOpened
    requires table.LoginDeets? && !Promised(table, Entries(table)[n].name).Asks?
    ensures Kept(Promised(table, Entries(table)[n].name), s, Entries(table)[n].op, w)
  {
    hide Without, Opened;
  }

  lemma SettingsPromises(table: Table, n: nat, s: Loop, w: World)
    requires n < |Entries(table)| && s.active == MenuOf(table) && !s.justOpened
    requires table.SettingsTable? && !Promised(table, Entries(table)[n].name).Asks?
    ensures Kept(Promised(table, Entries(table)[n].name), s, Entries(table)[n].op, w)
  {
    hide Without, Opened;
  }

  lemma PhotoPromises(table: Table, n: nat, s: Loop, w: World)
    requires n < |Entries(table)| && s.active == MenuOf(table) && !s.justOpened
    requires table.Photo? && !Promised(table, Entries(table)[n].name).Asks?
    ensures Kept(Promised(table, Entries(table)[n].name), s, Entries(table)[n].op, w)
  {
    hide Without, Opened;
  }

  lemma RecordPromises(table: Table, n: nat, s: Loop, w: World)
    requires n < |Entries(table)| && s.active == MenuOf(table) && !s.justOpened
    requires table.Record? && !Promised(table, Entries(table)[n].name).Asks?
    ensures Kept(Promised(table, Entries(table)[n].name), s, Entries(table)[n].op, w)
  {
    hide Without, Opened;
  }

  lemma CodePromises(table: Table, n: nat, s: Loop, w: World)
    requires n < |Entries(table)| && s.active == MenuOf(table) && !s.justOpened
    requires table.Code? && !Promised(table, Entries(table)[n].name).Asks?
    ensures Kept(Promised(table, Entries(table)[n].name), s, Entries(table)[n].op, w)
  {
    hide Without, Opened;
  }

  lemma YesNoPromises(table: Table, n: nat, s: Loop, w: World)
    requires n < |Entries(table)| && s.active == MenuOf(table) && !s.justOpened
    requires table.YesNo? && !Promised(table, Entries(table)[n].name).Asks?
    ensures Kept(Promised(table, Entries(table)[n].name), s, Entries(table)[n].op, w)
  {
    hide Without, Opened;
  }

  lemma PlainPromises(table: Table, n: nat, s: Loop, w: World)
    requires n < |Entries(table)| && s.active == MenuOf(table) && !s.justOpened
    requires !Promised(table, Entries(table)[n].name).Asks?
    ensures Kept(Promised(table, Entries(table)[n].name), s, Entries(table)[n].op, w)
  {
    hide Kept, Entries, Promised, MenuOf;
    match table
    case Top => TopPromises(table, n, s, w);
    case LoginDeets => LoginPromises(table, n, s, w);
    case SettingsTable => SettingsPromises(table, n, s, w);
    case Photo => PhotoPromises(table, n, s, w);
    case Record => RecordPromises(table, n, s, w);
    case Code => CodePromises(table, n, s, w);
    case YesNo => YesNoPromises(table, n, s, w);
  }

  lemma AskingPromises(table: Table, n: nat, s: Loop, w: World)
    requires n < |Entries(table)| && s.active == MenuOf(table) && !s.justOpened && s.scratchItems == Labels(s.scratch)
    requires Promised(table, Entries(table)[n].name).Asks?
    ensures Kept(Promised(table, Entries(table)[n].name), s, Entries(table)[n].op, w)
  {
    var action := Promised(table, Entries(table)[n].name).action;
    OpenedHolds(s.(pending := action, justOpened := true), Confirm, CONFIRM_MENU);
    hide Without, Opened, Labels;
  }

  /** In every run, an entry of the open menu does what is written on it. */
  lemma EntriesKeepTheirPromise(states: seq<System>, events: seq<Event>, i: nat, table: Table, n: nat)
    requires IsRun(states, events) && i < |events| && events[i].Receive? && n < |Entries(table)|
    requires states[i].inbox[0] == Entry(Entries(table)[n].op) && states[i].loop.active == MenuOf(table)
    ensures Kept(Promised(table, Entries(table)[n].name), states[i].loop, Entries(table)[n].op, events[i].world)
  {
    var s := states[i].loop;
    RunKeepsInv(states, events, i);
    SwallowsExactlyTheStaleNotice(states, events, i);
    assert s.scratchItems == Labels(s.scratch);
    hide IsRun, Inv, Kept, Entries, Promised, MenuOf;
    if Promised(table, Entries(table)[n].name).Asks? {
      AskingPromises(table, n, s, events[i].world);
    } else {
      PlainPromises(table, n, s, events[i].world);
    }
  }

  // ---------- buttons ----------

  /** The table of actions a screen's middle button opens; none on the others. */
  function ActionsOf(mode: VaultMode): Option<Table> {
    match mode
    case Password | Totp | Passkeys => Some(Record)
    case PhotoList | PhotoView => Some(Photo)
    case BookmarkList => Some(Code)
    case _ => None
  }

  /** The list of the screen has something in it; the two large ones never check. */
  predicate Stocked(mode: VaultMode, w: World) {
    match mode
    case Passkeys => w.hasPasskeys
    case PhotoList => w.hasPhotos
    case BookmarkList => w.hasBookmarks
    case _ => true
  }

  /** The loop once everything a key has posted is handled, as long as that posts nothing in turn. */
  function Settled(s: Loop, posts: seq<Post>, w: World): Loop
    decreases |posts|
  {
    if posts == [] then s else Settled(OnPost(s, posts[0], w).0, posts[1..], w)
  }

  lemma SettledOne(s: Loop, post: Post, w: World)
    ensures Settled(s, [], w) == s && Settled(s, [post], w) == OnPost(s, post, w).0
  {
    hide OnPost;
    var posts := [post];
    assert posts[1..] == [];
  }

  function Pressed(s: Loop, k: Key, w: World): Loop {
    var (t, posts) := OnScreenKey(s, k, w);
    Settled(t, posts, w)
  }

  /** What a screen posts to have its actions opened. */
  function RequestFor(table: Table): Post {
    match table
    case Photo => OpenPhotoActions
    case Code => OpenBookmarkActions
    case _ => OpenRecordActions
  }

  lemma RequestOpensTheTable(s: Loop, table: Table, w: World)
    requires table in {Record, Photo, Code} && s.scratchItems == Labels(s.scratch)
    ensures var t := OnPost(s, RequestFor(table), w).0;
      && t.active == MenuOf(table) && Shown(t) == Entries(table)
      && t.mode == s.mode && t.origin == s.origin && t.pending == s.pending
  {
    OpenedHolds(s, RecordActions, RECORD_ACTIONS);
    OpenedHolds(s, PhotoActions, PHOTO_ACTIONS);
    OpenedHolds(s, RecordActions, QR_ACTIONS);
    hide Without, Labels, RECORD_ACTIONS, PHOTO_ACTIONS, QR_ACTIONS;
  }

  lemma MiddlePosts(s: Loop, k: Key, w: World)
    requires s.active == NoMenu && ActionsOf(s.mode).Some?
    requires k == Fire || (k == Jog && s.mode !in {PhotoList, BookmarkList})
    ensures OnScreenKey(s, k, w) == (s, if Stocked(s.mode, w) then [RequestFor(ActionsOf(s.mode).value)] else [])
  {
    hide Opened;
  }

  /**
   * The middle button on a screen with actions opens the table for what the screen shows, over
   * that screen, when there is something to act on; otherwise it does nothing. So does the jog
   * key where it has no item to show.
   */
  lemma MiddleOpensTheActions(s: Loop, k: Key, w: World)
    requires s.active == NoMenu && s.scratchItems == Labels(s.scratch) && ActionsOf(s.mode).Some?
    requires k == Fire || (k == Jog && s.mode !in {PhotoList, BookmarkList})
    ensures var t, table := Pressed(s, k, w), ActionsOf(s.mode).value;
      && t.mode == s.mode && t.origin == s.origin && t.pending == s.pending
      && (Stocked(s.mode, w) ==> t.active == MenuOf(table) && Shown(t) == Entries(table))
      && (!Stocked(s.mode, w) ==> t == s)
  {
    hide OnScreenKey, OnPost, Settled, Shown, Entries, MenuOf, RequestFor, Stocked, Labels;
    var table := ActionsOf(s.mode).value;
    MiddlePosts(s, k, w);
    SettledOne(s, RequestFor(table), w);
    RequestOpensTheTable(s, table, w);
  }

  /** The screen of a saved code: the code, the list when there is none, standby when it cannot be drawn. */
  function CodeScreen(from: VaultMode, w: World): VaultMode {
    if !(w.hasBookmarks && w.bookmarkStored) then from else if w.bookmarkEncodes then ShowBookmarkQr else Idle
  }

  /** RIGHT and the jog key on a list show the item under the cursor, and UP and DOWN on a code the next one. */
  lemma ItemsAreShown(s: Loop, k: Key, w: World)
    requires s.active == NoMenu
    requires (s.mode in {PhotoList, BookmarkList} && k in {Right, Jog}) || (s.mode == ShowBookmarkQr && k in {Up, Down})
    ensures Pressed(s, k, w) == s.(mode :=
      if s.mode != PhotoList then CodeScreen(s.mode, w)
      else if w.hasPhotos && w.photoReadable then PhotoView else PhotoList)
  {
    hide Opened, Settled;
    var (t, posts) := OnScreenKey(s, k, w);
    assert |posts| <= 1;
    SettledOne(t, if posts == [] then AbortQr else posts[0], w);
  }

  /** Where a camera session ends: on the shot, on the address that was read, or where it began. */
  function Developed(mode: VaultMode, w: World): VaultMode {
    match w.camera
    case TookPhoto(true) => PhotoPreview
    case Decoded(Url(true)) => ShowUrl
    case EndedEmpty => if w.attached then Idle else mode
    case _ => mode
  }

  /** Whatever the screen, a camera session ends there once what it posts is handled. */
  lemma CameraDevelops(s: Loop, w: World)
    ensures var (t, posts) := OnPost(s, ScanUrl, w); Settled(t, posts, w) == s.(mode := Developed(s.mode, w))
  {
    hide Opened, Settled;
    var (mode, posts) := CameraScan(s.mode, w.camera);
    assert |posts| <= 1;
    SettledOne(s.(mode := mode), if posts == [] then AbortQr else posts[0], w);
  }

  /** The middle button starts the camera in standby, and again from a fresh photo or an address. */
  lemma MiddleStartsTheCamera(s: Loop, w: World)
    requires s.active == NoMenu && s.mode in {Idle, PhotoPreview, ShowUrl}
    ensures s.mode == Idle ==> Pressed(s, Fire, w) == s.(mode := Developed(Idle, w))
    ensures s.mode != Idle ==> OnScreenKey(s, Fire, w) == (s.(mode := Idle), [ScanUrl])
  {
    CameraDevelops(s, w);
    hide Opened, Settled;
    var posts := CameraScan(Idle, w.camera).1;
    assert [] + posts == posts;
  }

  /** The remaining buttons: keeping a photo goes on shooting, saving an address goes to the collection. */
  lemma RightKeepsAndSaves(s: Loop, w: World)
    requires s.active == NoMenu && s.mode in {PhotoPreview, ShowUrl}
    ensures s.mode == ShowUrl ==> OnScreenKey(s, Right, w) == (s.(mode := BookmarkList), [])
    ensures s.mode == PhotoPreview ==>
      OnScreenKey(s, Right, w) == if w.keepsPhoto then (s.(mode := Idle), [ScanUrl]) else (s, [])
  {
  }

  /** The keys a screen has a use for, as far as the loop is concerned. */
  predicate Used(mode: VaultMode, k: Key) {
    || Opening(mode, k)
    || (k == Fire && (ActionsOf(mode).Some? || mode in {Idle, PhotoPreview, ShowUrl}))
    || (k == Jog && (ActionsOf(mode).Some? || mode == Idle))
    || (k == Right && mode in {PhotoList, BookmarkList, PhotoPreview, ShowUrl})
    || (k in {Up, Down} && mode == ShowBookmarkQr)
    || (k == Left && mode in {PhotoPreview, PhotoView, ShowBookmarkQr})
  }

  /** No other key does anything, on any screen. */
  lemma OtherKeysDoNothing(s: Loop, k: Key, w: World)
    requires s.active == NoMenu && !Used(s.mode, k)
    ensures OnScreenKey(s, k, w) == (s, [])
  {
    hide Opened;
  }
}
