// The menu and mode fields of the main loop (src/main.rs) and the key handling of src/ux.rs
// that shares the mode with it. The functions say what each handler does to the fields; the
// class updates the fields the way the loop does and is proved against them.

module MainLoop {
  import opened IdleMenu
  import opened Results

  datatype ActiveMenu = NoMenu | Root | Login | Settings | RecordActions | PhotoActions | Confirm

  datatype Pending = Nothing | DeletePhoto | DeleteBookmark | TypeB64 | TypeAscii | ExportB64 | ExportAscii

  datatype VaultMode =
    | Idle | Totp | Password | ShowUrl | BookmarkList | ShowBookmarkQr | Passkeys
    | PhotoList | SettingsBling | SettingsBlinky | AboutQr | PhotoPreview | PhotoView

  datatype Key = Left | Right | Up | Down | Fire | Jog | Tilt | Other

  /** What a decoded QR code says, as far as the main loop tells codes apart. */
  datatype QrText = Url(usable: bool) | FactoryString | OtherText

  /** Messages the loop's own screens and the actions thread post to the loop. */
  datatype Post =
    | OpenRecordActions | OpenPhotoActions | OpenBookmarkActions
    | ScanUrl | HandleQr(text: QrText) | AbortQr | BookmarkQrReady(encodes: bool)

  /** How a camera session ends. */
  datatype Camera = TookPhoto(frameOk: bool) | Decoded(text: QrText) | EndedEmpty | CameraFailed

  /** What the stores and the camera answer while one message is handled. */
  datatype World = World(
    hasPasskeys: bool, hasPhotos: bool, photoReadable: bool, keepsPhoto: bool,
    hasBookmarks: bool, bookmarkStored: bool, bookmarkEncodes: bool, aboutEncodes: bool,
    attached: bool, camera: Camera)

  datatype Loop = Loop(
    active: ActiveMenu, justOpened: bool, pending: Pending, origin: ActiveMenu, mode: VaultMode,
    scratch: seq<MenuItem>, scratchItems: seq<string>)

  // ---------- what the handlers do to the fields ----------

  function Opened(s: Loop, menu: ActiveMenu, entries: seq<MenuItem>): Loop {
    s.(active := menu, scratch := Without(s.scratch, s.scratchItems) + entries, scratchItems := Labels(entries))
  }

  function Asked(s: Loop, question: Pending): Loop {
    Opened(s.(pending := question, justOpened := true), Confirm, CONFIRM_MENU)
  }

  function Screen(s: Loop, mode: VaultMode): Loop {
    s.(origin := s.active, active := NoMenu, mode := mode)
  }

  /** The question an entry asks before its action runs; Nothing for entries that do not ask. */
  function Question(op: VaultOp): Pending {
    match op
    case PhotoExportB64 => ExportB64
    case PhotoExportAscii => ExportAscii
    case PhotoTypeB64 => TypeB64
    case PhotoTypeAscii => TypeAscii
    case PhotoDelete => DeletePhoto
    case BookmarkDelete => DeleteBookmark
    case _ => Nothing
  }

  /** The entry puts another menu on screen, so the close notice that follows it is stale. */
  predicate OpensMenu(op: VaultOp) {
    op in {MenuRoot, MenuLogin, MenuSettings} || Question(op) != Nothing
  }

  function OnClosed(s: Loop): Loop {
    if s.justOpened then s.(justOpened := false)
    else if s.active in {Login, Settings} then s.(active := Root, origin := Root)
    else s.(active := NoMenu, origin := if s.mode == Idle then Root else s.origin)
  }

  function OnEntry(s: Loop, op: VaultOp, w: World): Loop {
    match op
    case MenuClosed => OnClosed(s)
    case MenuDone => s.(active := NoMenu, origin := Root)
    case MenuRoot => s.(active := Root, justOpened := true, origin := Root)
    case MenuLogin => s.(active := Login, justOpened := true)
    case MenuSettings => s.(active := Settings, justOpened := true)
    case ListPasswords => Screen(s, Password)
    case List2faDigits => Screen(s, Totp)
    case ListPasskeys => Screen(s, Passkeys)
    case ListPhotos => Screen(s, PhotoList)
    case ListBookmarks => Screen(s, BookmarkList)
    case SettingsBling => Screen(s, VaultMode.SettingsBling)
    case SettingsBlinky => Screen(s, VaultMode.SettingsBlinky)
    case ShowAbout => Screen(s, if w.aboutEncodes then AboutQr else Idle)
    case ScreenOff => s.(origin := s.active, active := NoMenu)
    case ConfirmNo => s.(pending := Nothing, active := NoMenu)
    case ConfirmYes =>
      s.(active := NoMenu, pending := Nothing,
         mode := if s.pending == DeletePhoto && w.hasPhotos then PhotoList else s.mode)
    case PhotoExportB64 => Asked(s, Question(op))
    case PhotoExportAscii => Asked(s, Question(op))
    case PhotoTypeB64 => Asked(s, Question(op))
    case PhotoTypeAscii => Asked(s, Question(op))
    case PhotoDelete => Asked(s, Question(op))
    case BookmarkDelete => Asked(s, Question(op))
    case _ => s.(active := NoMenu)
  }

  /** The guarded action handling an entry carries out. */
  function Ran(s: Loop, op: VaultOp): Pending {
    if op == ConfirmYes then s.pending else Nothing
  }

  /** A camera session: the mode it leaves and what the actions thread posts during it. */
  function CameraScan(mode: VaultMode, camera: Camera): (VaultMode, seq<Post>) {
    match camera
    case TookPhoto(ok) => (if ok then PhotoPreview else mode, [])
    case Decoded(text) => (mode, if mode == Idle || text.Url? then [HandleQr(text)] else [])
    case EndedEmpty => (mode, [AbortQr])
    case CameraFailed => (mode, [])
  }

  function OnPost(s: Loop, post: Post, w: World): (Loop, seq<Post>) {
    match post
    case OpenRecordActions => (Opened(s, RecordActions, RECORD_ACTIONS), [])
    case OpenPhotoActions => (Opened(s, PhotoActions, PHOTO_ACTIONS), [])
    case OpenBookmarkActions => (Opened(s, RecordActions, QR_ACTIONS), [])
    case ScanUrl =>
      var (mode, posts) := CameraScan(s.mode, w.camera);
      (s.(mode := mode), posts)
    case HandleQr(Url(usable)) => (if usable then s.(mode := ShowUrl) else s, [])
    case HandleQr(FactoryString) => (s.(mode := Idle), [])
    case HandleQr(OtherText) => (s, [])
    case AbortQr => (if w.attached then s.(mode := Idle) else s, [])
    case BookmarkQrReady(encodes) => (s.(mode := if encodes then ShowBookmarkQr else Idle), [])
  }

  function BookmarkQr(w: World): seq<Post> {
    if w.hasBookmarks && w.bookmarkStored then [BookmarkQrReady(w.bookmarkEncodes)] else []
  }

  /** handle_key: the new mode, the key the main loop still sees, and what the screen posts. */
  function ScreenKey(mode: VaultMode, k: Key, w: World): (VaultMode, Option<Key>, seq<Post>) {
    if k == Tilt then (mode, Some(k), [])
    else
      match mode
      case Password | Totp =>
        if k == Left then (Idle, Some(Jog), [])
        else if k == Fire || k == Jog then (mode, None, [OpenRecordActions])
        else (mode, Some(k), [])
      case Passkeys =>
        if k == Left then (Idle, Some(Jog), [])
        else (mode, None, if (k == Fire || k == Jog) && w.hasPasskeys then [OpenRecordActions] else [])
      case PhotoList =>
        if k == Left then (Idle, Some(Jog), [])
        else if k == Fire then (mode, None, if w.hasPhotos then [OpenPhotoActions] else [])
        else if (k == Right || k == Jog) && w.hasPhotos && w.photoReadable then (PhotoView, None, [])
        else (mode, None, [])
      case PhotoPreview =>
        if k == Left then (Idle, None, [])
        else if k == Fire || (k == Right && w.keepsPhoto) then (Idle, None, [ScanUrl])
        else (mode, None, [])
      case PhotoView =>
        if k == Left then (PhotoList, None, [])
        else (mode, None, if k == Fire || k == Jog then [OpenPhotoActions] else [])
      case SettingsBling | SettingsBlinky =>
        if k == Left then (Idle, Some(Jog), []) else (mode, None, [])
      case Idle => (mode, if k == Right then None else Some(k), [])
      case BookmarkList =>
        if k == Left then (Idle, Some(Jog), [])
        else if k == Fire then (mode, None, if w.hasBookmarks then [OpenBookmarkActions] else [])
        else if k == Right then (mode, Some(k), BookmarkQr(w))
        else if k == Jog then (mode, None, BookmarkQr(w))
        else (mode, Some(k), [])
      case AboutQr => (Idle, Some(Jog), [])
      case ShowBookmarkQr =>
        if k == Up || k == Down then (mode, None, BookmarkQr(w))
        else if k == Left then (BookmarkList, None, [])
        else (mode, None, [])
      case ShowUrl =>
        if k == Left then (Idle, Some(Jog), [])
        else if k == Fire then (Idle, None, [ScanUrl])
        else if k == Right then (BookmarkList, None, [])
        else (mode, None, [])
  }

  /** A key press handled while no menu is open. */
  function OnScreenKey(s: Loop, k: Key, w: World): (Loop, seq<Post>) {
    var (mode, key, posts) := ScreenKey(s.mode, k, w);
    var t := s.(mode := mode);
    match key
    case Some(Jog) =>
      if mode != Idle then (Opened(t, RecordActions, RECORD_ACTIONS), posts)
      else (t.(active := if t.origin in {Login, Settings} then t.origin else Root), posts)
    case Some(Left) => (t.(active := Root, origin := Root), posts)
    case Some(Fire) =>
      var (shown, more) := CameraScan(mode, w.camera);
      (t.(mode := shown), posts + more)
    case _ => (t, posts)
  }

  /** The entries of the menu widget a key press goes to while the menu is open. */
  function Shown(s: Loop): seq<MenuItem> {
    match s.active
    case Login => LOGIN_MENU
    case Settings => SETTINGS_MENU
    case PhotoActions | Confirm | RecordActions => s.scratch
    case _ => ROOT_MENU
  }

  /**
   * The jog press reaches the loop only once the screen has gone back to standby, so the arm
   * that would open the record actions over a screen is never taken.
   */
  lemma JogMeansStandby(mode: VaultMode, k: Key, w: World)
    ensures ScreenKey(mode, k, w).1 == Some(Jog) ==> ScreenKey(mode, k, w).0 == Idle
    ensures ScreenKey(mode, k, w).1 == Some(Fire) ==> ScreenKey(mode, k, w).0 == Idle == mode
    ensures ScreenKey(mode, k, w).1 == Some(Left) ==> ScreenKey(mode, k, w).0 == Idle == mode
  {
  }

  // ---------- the loop itself ----------

  class VaultLoop {
    var activeMenu: ActiveMenu
    var menuJustOpened: bool
    var pending: Pending
    var menuOrigin: ActiveMenu
    var mode: VaultMode
    var scratchItems: seq<string>
    const scratchMenu: MenuMatic

    ghost function View(): Loop
      reads this, scratchMenu
    {
      Loop(activeMenu, menuJustOpened, pending, menuOrigin, mode, scratchMenu.items, scratchItems)
    }

    constructor (initial: VaultMode)
      ensures View() == Loop(NoMenu, false, Nothing, Root, initial, [], [])
      ensures fresh(scratchMenu)
    {
      activeMenu, menuJustOpened, pending := NoMenu, false, Nothing;
      menuOrigin, mode, scratchItems := Root, initial, [];
      var menu := new MenuMatic();
      scratchMenu := menu;
    }

    method OpenScratch(menu: ActiveMenu, entries: seq<MenuItem>)
      modifies this, scratchMenu
      ensures View() == Opened(old(View()), menu, entries)
    {
      activeMenu := menu;
      scratchItems := Fill(scratchMenu, scratchItems, entries);
    }

    method Ask(question: Pending)
      modifies this, scratchMenu
      ensures View() == Asked(old(View()), question)
    {
      pending := question;
      menuJustOpened := true;
      OpenScratch(Confirm, CONFIRM_MENU);
    }

    method ShowScreen(screen: VaultMode)
      modifies this
      ensures View() == Screen(old(View()), screen)
    {
      menuOrigin := activeMenu;
      activeMenu := NoMenu;
      mode := screen;
    }

    method HandleMenuClosed()
      modifies this
      ensures View() == OnClosed(old(View()))
    {
      if menuJustOpened {
        menuJustOpened := false;
      } else if activeMenu == Login || activeMenu == Settings {
        activeMenu := Root;
        menuOrigin := Root;
      } else {
        activeMenu := NoMenu;
        if mode == Idle {
          menuOrigin := Root;
        }
      }
    }

    method HandleEntry(op: VaultOp, w: World) returns (ran: Pending)
      modifies this, scratchMenu
      ensures View() == OnEntry(old(View()), op, w)
      ensures ran == Ran(old(View()), op)
    {
      ran := Nothing;
      match op {
        case MenuClosed => HandleMenuClosed();
        case MenuDone =>
          activeMenu := NoMenu;
          menuOrigin := Root;
        case MenuRoot =>
          activeMenu := Root;
          menuJustOpened := true;
          menuOrigin := Root;
        case MenuLogin =>
          activeMenu := Login;
          menuJustOpened := true;
        case MenuSettings =>
          activeMenu := Settings;
          menuJustOpened := true;
        case ListPasswords => ShowScreen(Password);
        case List2faDigits => ShowScreen(Totp);
        case ListPasskeys => ShowScreen(Passkeys);
        case ListPhotos => ShowScreen(PhotoList);
        case ListBookmarks => ShowScreen(BookmarkList);
        case SettingsBling => ShowScreen(VaultMode.SettingsBling);
        case SettingsBlinky => ShowScreen(VaultMode.SettingsBlinky);
        case ShowAbout => ShowScreen(if w.aboutEncodes then AboutQr else Idle);
        case ScreenOff =>
          menuOrigin := activeMenu;
          activeMenu := NoMenu;
        case ConfirmNo =>
          pending := Nothing;
          activeMenu := NoMenu;
        case ConfirmYes =>
          activeMenu := NoMenu;
          ran := pending;
          pending := Nothing;
          if ran == DeletePhoto && w.hasPhotos {
            mode := PhotoList;
          }
        case PhotoExportB64 => Ask(ExportB64);
        case PhotoExportAscii => Ask(ExportAscii);
        case PhotoTypeB64 => Ask(TypeB64);
        case PhotoTypeAscii => Ask(TypeAscii);
        case PhotoDelete => Ask(DeletePhoto);
        case BookmarkDelete => Ask(DeleteBookmark);
        case _ => activeMenu := NoMenu;
      }
    }

    method HandlePost(post: Post, w: World) returns (posts: seq<Post>)
      modifies this, scratchMenu
      ensures (View(), posts) == OnPost(old(View()), post, w)
    {
      posts := [];
      match post {
        case OpenRecordActions => OpenScratch(RecordActions, RECORD_ACTIONS);
        case OpenPhotoActions => OpenScratch(PhotoActions, PHOTO_ACTIONS);
        case OpenBookmarkActions => OpenScratch(RecordActions, QR_ACTIONS);
        case ScanUrl => posts := RunCameraScan(w.camera);
        case HandleQr(text) =>
          if text.Url? {
            if text.usable {
              mode := ShowUrl;
            }
          } else if mode != Idle && text.FactoryString? {
            mode := Idle;
          }
        case AbortQr =>
          if w.attached {
            mode := Idle;
          }
        case BookmarkQrReady(encodes) =>
          mode := if encodes then ShowBookmarkQr else Idle;
      }
    }

    method RunCameraScan(camera: Camera) returns (posts: seq<Post>)
      modifies this`mode
      ensures (mode, posts) == CameraScan(old(mode), camera)
    {
      posts := [];
      match camera {
        case TookPhoto(ok) =>
          if ok {
            mode := PhotoPreview;
          }
        case Decoded(text) =>
          if mode == Idle || text.Url? {
            posts := [HandleQr(text)];
          }
        case EndedEmpty => posts := [AbortQr];
        case CameraFailed =>
      }
    }

    /** A key press with no menu on screen: the screen filters it, then the loop looks at the rest. */
    method HandleScreenKey(k: Key, w: World) returns (posts: seq<Post>)
      modifies this, scratchMenu
      ensures (View(), posts) == OnScreenKey(old(View()), k, w)
    {
      var (modeAfter, key, posted) := ScreenKey(mode, k, w);
      mode := modeAfter;
      posts := posted;
      if key == Some(Jog) {
        if mode == Idle {
          activeMenu := if menuOrigin == Login || menuOrigin == Settings then menuOrigin else Root;
        } else {
          OpenScratch(RecordActions, RECORD_ACTIONS);
        }
      } else if key == Some(Left) {
        activeMenu := Root;
        menuOrigin := Root;
      } else if key == Some(Fire) {
        var more := RunCameraScan(w.camera);
        posts := posts + more;
      }
    }
  }
}
