// Which menu and screen the loop can be in while messages are on their way, and which keys keep
// it there. A screen belongs to the menu whose table lists it; the zones say which menu BACK opens
// and what may be waiting, for every run whose keys respect the waiting messages.

module MenuZones {
  import opened IdleMenu
  import opened MainLoop
  import opened MenuProtocol
  import opened Results

  /** The screen an entry opens, for entries that open one. */
  function ScreenOf(op: VaultOp): Option<VaultMode> {
    match op
    case ListPasswords => Some(Password)
    case List2faDigits => Some(Totp)
    case ListPasskeys => Some(Passkeys)
    case ListPhotos => Some(PhotoList)
    case ListBookmarks => Some(BookmarkList)
    case ShowAbout => Some(AboutQr)
    case SettingsBling => Some(VaultMode.SettingsBling)
    case SettingsBlinky => Some(VaultMode.SettingsBlinky)
    case _ => None
  }

  function TableOf(menu: ActiveMenu): seq<MenuItem> {
    match menu
    case Login => LOGIN_MENU
    case Settings => SETTINGS_MENU
    case _ => ROOT_MENU
  }

  /** The menu a screen belongs to. Screens reached through the camera belong to the top menu. */
  function OwnerOf(mode: VaultMode): ActiveMenu {
    match mode
    case Password | Totp | Passkeys => Login
    case SettingsBling | SettingsBlinky => Settings
    case _ => Root
  }

  /** The owner of a screen is the one menu whose table has an entry opening it, and the entry does open it. */
  lemma OwnerListsTheScreen(op: VaultOp, menu: ActiveMenu)
    requires ScreenOf(op).Some? && menu in {Root, Login, Settings}
    ensures Dispatches(TableOf(menu), op) <==> menu == OwnerOf(ScreenOf(op).value)
    ensures forall s: Loop, w: World ::
      op != ShowAbout || w.aboutEncodes ==> OnEntry(s, op, w).mode == ScreenOf(op).value
  {
    if menu == OwnerOf(ScreenOf(op).value) {
      OwnTableLists(op);
    } else if Dispatches(TableOf(menu), op) {
      FixedTables(menu, op);
    }
  }

  lemma OwnTableLists(op: VaultOp)
    requires ScreenOf(op).Some?
    ensures Dispatches(TableOf(OwnerOf(ScreenOf(op).value)), op)
  {
    match op
    case ListBookmarks => assert ROOT_MENU[1].op == op;
    case ListPhotos => assert ROOT_MENU[2].op == op;
    case ShowAbout => assert ROOT_MENU[4].op == op;
    case List2faDigits => assert LOGIN_MENU[0].op == op;
    case ListPasskeys => assert LOGIN_MENU[1].op == op;
    case ListPasswords => assert LOGIN_MENU[2].op == op;
    case SettingsBling => assert SETTINGS_MENU[0].op == op;
    case SettingsBlinky => assert SETTINGS_MENU[1].op == op;
  }

  /** What the three fixed menus dispatch. */
  lemma FixedTables(menu: ActiveMenu, op: VaultOp)
    requires menu in {Root, Login, Settings} && Dispatches(TableOf(menu), op)
    ensures menu == Root ==> op in {MenuLogin, ListBookmarks, ListPhotos, MenuSettings, ShowAbout, MenuDone}
    ensures menu == Login ==> op in {List2faDigits, ListPasskeys, ListPasswords, MenuUsernames, MenuRoot}
    ensures menu == Settings ==> op in {VaultOp.SettingsBling, VaultOp.SettingsBlinky, ScreenOff, MenuRoot}
  {
    var i :| 0 <= i < |TableOf(menu)| && TableOf(menu)[i].op == op;
  }

  // ---------- the keys ----------

  /** The key opens a menu when no menu is open: LEFT out of a list, any key out of "about", LEFT or jog in standby. */
  predicate Opening(mode: VaultMode, k: Key) {
    k != Tilt &&
    match mode
    case PhotoPreview | PhotoView | ShowBookmarkQr => false
    case AboutQr => true
    case Idle => k == Left || k == Jog
    case _ => k == Left
  }

  /** The menu an origin stands for: only the two submenus are ever carried forward. */
  function BackMenu(origin: ActiveMenu): ActiveMenu {
    if origin in {Login, Settings} then origin else Root
  }

  /** The menu it opens. */
  function MenuFor(s: Loop, k: Key): ActiveMenu {
    if s.mode == Idle && k == Left then Root else BackMenu(s.origin)
  }

  /** A post that opens a menu of its own. */
  predicate Request(post: Post) { post in {OpenRecordActions, OpenPhotoActions, OpenBookmarkActions} }

  /** Once all that is waiting is handled, whatever the camera and the cable do, the screen is standby. */
  predicate EndsInStandby(idle: bool, waiting: seq<Msg>)
    decreases |waiting|
  {
    if waiting == [] then idle
    else
      match waiting[0]
      case Posted(ScanUrl) => false
      case Posted(BookmarkQrReady(encodes)) => EndsInStandby(!encodes, waiting[1..])
      case Posted(HandleQr(text)) => EndsInStandby(text == FactoryString || (idle && text != Url(true)), waiting[1..])
      case _ => EndsInStandby(idle, waiting[1..])
  }

  ghost predicate CloseIsWaiting(waiting: seq<Msg>) { exists m :: m in waiting && m.Closed? }

  ghost predicate RequestIsWaiting(waiting: seq<Msg>) { exists m :: m in waiting && m.Posted? && Request(m.post) }

  /**
   * The keys after which BACK still finds its way. A key that opens a menu may not run ahead of
   * a post that brings up a screen for good, or out of a screen of "login deets" ahead of a
   * request; behind a close notice it may, since the notice shuts the menu again. The camera may
   * not be started while standby still remembers a menu.
   */
  ghost predicate KeepsBack(mode: VaultMode, origin: ActiveMenu, k: Key, waiting: seq<Msg>) {
    && (Opening(mode, k) && !CloseIsWaiting(waiting) ==>
          if OwnerOf(mode) == Login then !RequestIsWaiting(waiting) else EndsInStandby(true, waiting))
    && (mode == Idle && k == Fire ==> BackMenu(origin) == Root)
  }

  function Waiting(s: System): seq<Msg> { s.inbox + s.sending }

  /** A run every key of which keeps BACK right. */
  ghost predicate IsSteadyRun(states: seq<System>, events: seq<Event>) {
    && IsRun(states, events)
    && forall i :: 0 <= i < |events| ==> Steady(states[i], events[i])
  }

  ghost predicate Steady(s: System, e: Event) {
    e.Press? && s.loop.active == NoMenu ==> KeepsBack(s.loop.mode, s.loop.origin, e.key, Waiting(s))
  }

  // ---------- the zones ----------

  predicate SharedOp(op: VaultOp) {
    Question(op) != Nothing || op in {ConfirmNo, ConfirmYes, BookmarkType, PhotoSetWallpaper} || RecordOp(op)
  }

  predicate RecordOp(op: VaultOp) {
    op in {MenuAddnew, MenuEditStage1, MenuDeleteStage1, MenuFilter, MenuClosed}
  }

  /** Standby and the screens of the top menu, with their own menus; any post may be waiting. */
  ghost predicate InRoot(s: Loop, q: seq<Msg>) {
    && BackMenu(s.origin) == Root == OwnerOf(s.mode)
    && s.active in {NoMenu, RecordActions, PhotoActions, Confirm} && (s.justOpened ==> s.active != NoMenu)
    && forall m :: m in q && m.Entry? ==> s.active != NoMenu && SharedOp(m.op)
  }

  ghost predicate InLogin(s: Loop, q: seq<Msg>) {
    && s.origin == Login == OwnerOf(s.mode)
    && s.active in {NoMenu, RecordActions} && (s.justOpened ==> s.active != NoMenu)
    && (s.active == RecordActions ==> s.scratch == RECORD_ACTIONS)
    && (forall m :: m in q && m.Posted? ==> m.post == OpenRecordActions)
    && forall m :: m in q && m.Entry? ==> s.active != NoMenu && RecordOp(m.op)
  }

  ghost predicate InSettings(s: Loop, q: seq<Msg>) {
    && s.origin == Settings == OwnerOf(s.mode) && s.active == NoMenu && !s.justOpened
    && forall m :: m in q ==> m.Closed?
  }

  /** The last but one message is the only entry, and the table lists it. */
  ghost predicate OneEntry(q: seq<Msg>, table: seq<MenuItem>) {
    forall i :: 0 <= i < |q| && q[i].Entry? ==> i + 2 == |q| && Dispatches(table, q[i].op)
  }

  /** A submenu is open over standby, and no post is waiting. */
  ghost predicate InSubmenu(s: Loop, q: seq<Msg>) {
    && s.mode == Idle && s.active in {Login, Settings} && OneEntry(q, TableOf(s.active))
    && forall m :: m in q ==> !m.Posted?
  }

  /** The top menu is open, or a requested menu lies over it, and what is waiting ends in standby. */
  ghost predicate InTop(s: Loop, q: seq<Msg>) {
    && BackMenu(s.origin) == Root == OwnerOf(s.mode) && s.active in {Root, RecordActions, PhotoActions}
    && EndsInStandby(s.mode == Idle, q) && OneEntry(q, ROOT_MENU)
  }

  /** The top menu is open, and a close notice that is waiting will shut it. */
  ghost predicate TopCloses(s: Loop, q: seq<Msg>) {
    && BackMenu(s.origin) == Root == OwnerOf(s.mode) && s.active == Root && !s.justOpened
    && CloseIsWaiting(q) && forall m :: m in q ==> !m.Entry?
  }

  /** The same of "login deets", or of the record menu requested over it. */
  ghost predicate LoginCloses(s: Loop, q: seq<Msg>) {
    && s.mode == Idle && s.origin == Login && s.active in {Login, RecordActions} && !s.justOpened
    && CloseIsWaiting(q) && forall m :: m in q ==> m.Closed? || m == Posted(OpenRecordActions)
  }

  /** A menu was left for standby and only its close notice is still to come. */
  ghost predicate Leaving(s: Loop, q: seq<Msg>) {
    && s.mode == Idle && s.active == NoMenu && s.origin in {Login, Settings} && !s.justOpened
    && |q| == 1 && q[0].Closed?
  }

  ghost predicate OnAScreen(s: Loop, q: seq<Msg>) {
    InRoot(s, q) || InLogin(s, q) || InSettings(s, q) || Leaving(s, q)
  }

  ghost predicate InAMenu(s: Loop, q: seq<Msg>) {
    InSubmenu(s, q) || InTop(s, q) || TopCloses(s, q) || LoginCloses(s, q)
  }

  ghost predicate Zoned(s: Loop, q: seq<Msg>) { OnAScreen(s, q) || InAMenu(s, q) }

  ghost predicate ZoneInv(s: System) {
    Inv(s) && Zoned(s.loop, Waiting(s))
  }

  // ---------- what is waiting ----------

  lemma {:induction false} InWidgetDue(ms: seq<Msg>, m: Msg)
    requires m in ms && FromWidget(m)
    ensures m in WidgetDue(ms)
  {
    if m != ms[0] {
      InWidgetDue(ms[1..], m);
    }
  }

  lemma WaitingIsDue(s: System, m: Msg)
    requires m in Waiting(s) && FromWidget(m)
    ensures m in Due(s)
  {
    if m in s.inbox {
      InWidgetDue(s.inbox, m);
    }
  }

  /** Behind an entry only its close notice is due, behind a close notice nothing. */
  lemma BehindTheHead(s: System)
    requires Inv(s) && s.inbox != [] && FromWidget(s.inbox[0])
    ensures forall m :: m in s.inbox[1..] + s.sending && FromWidget(m) ==> m.Closed? && s.inbox[0].Entry?
  {
    HeadIsDue(s);
    var t := s.(inbox := s.inbox[1..]);
    forall m | m in s.inbox[1..] + s.sending && FromWidget(m) ensures m in Due(t) {
      WaitingIsDue(t, m);
    }
    assert Due(s) == [s.inbox[0]] + Due(t);
  }

  lemma NothingDue(s: System)
    requires Due(s) == []
    ensures s.sending == [] && forall m :: m in s.inbox ==> m.Posted?
  {
    assert s.sending == [];
    forall m | m in s.inbox ensures m.Posted? {
      if !m.Posted? {
        InWidgetDue(s.inbox, m);
      }
    }
  }

  // ---------- what the queue ends in ----------

  /** Ending in standby from a screen, it does so from standby. */
  lemma {:induction false} StandbyHelps(q: seq<Msg>)
    ensures EndsInStandby(false, q) ==> EndsInStandby(true, q)
  {
    if q != [] {
      StandbyHelps(q[1..]);
    }
  }

  /** What widgets send does not count. */
  lemma {:induction false} WidgetsDoNotCount(idle: bool, q: seq<Msg>, ms: seq<Msg>)
    requires forall m :: m in ms ==> FromWidget(m)
    ensures EndsInStandby(idle, q + ms) == EndsInStandby(idle, q)
    decreases |q| + |ms|
  {
    if q != [] {
      assert (q + ms)[1..] == q[1..] + ms;
      WidgetsDoNotCount(true, q[1..], ms);
      WidgetsDoNotCount(false, q[1..], ms);
    } else if ms != [] {
      assert ms[0] in ms && q + ms == ms;
      WidgetsDoNotCount(idle, [], ms[1..]);
      assert [] + ms[1..] == ms[1..];
    }
  }

  /** A post handled over the top menu: nothing is posted, and the rest still ends in standby. */
  lemma PostKeepsEnd(s: Loop, post: Post, rest: seq<Msg>, w: World)
    requires EndsInStandby(s.mode == Idle, [Posted(post)] + rest)
    ensures var (t, posts) := OnPost(s, post, w); posts == [] && EndsInStandby(t.mode == Idle, rest)
  {
    assert ([Posted(post)] + rest)[1..] == rest;
    StandbyHelps(rest);
  }

  /** What a post does to the open menu, the screen and the origin. */
  lemma PostMoves(s: Loop, post: Post, w: World)
    ensures var t := OnPost(s, post, w).0;
      && t.origin == s.origin && t.justOpened == s.justOpened
      && t.active == (match post
                      case OpenRecordActions => RecordActions
                      case OpenPhotoActions => PhotoActions
                      case OpenBookmarkActions => RecordActions
                      case _ => s.active)
      && (OwnerOf(s.mode) == Root ==> OwnerOf(t.mode) == Root)
      && (Request(post) ==> t.mode == s.mode && OnPost(s, post, w).1 == [])
  {
    hide Without, RECORD_ACTIONS, PHOTO_ACTIONS, QR_ACTIONS;
  }

  // ---------- handling a message keeps the zone ----------

  lemma RootKeepsEntry(s: Loop, op: VaultOp, rest: seq<Msg>, w: World)
    requires BackMenu(s.origin) == Root == OwnerOf(s.mode) && !s.justOpened
    requires s.active in {NoMenu, RecordActions, PhotoActions, Confirm} && SharedOp(op)
    requires forall m :: m in rest ==> !m.Entry?
    ensures InRoot(OnEntry(s, op, w), rest)
  {
  }

  lemma LoginKeepsEntry(s: Loop, op: VaultOp, rest: seq<Msg>, w: World)
    requires s.origin == Login == OwnerOf(s.mode) && RecordOp(op) && !s.justOpened && s.active == RecordActions
    requires forall m :: m in rest ==> m.Closed? || m == Posted(OpenRecordActions)
    ensures InLogin(OnEntry(s, op, w), rest)
  {
  }

  /** Selecting from a submenu leads to the zone of what it opens. */
  lemma SubmenuEntry(s: Loop, op: VaultOp, c: Cause, w: World)
    requires s.mode == Idle && s.active in {Login, Settings} && !s.justOpened && Dispatches(TableOf(s.active), op)
    ensures Zoned(OnEntry(s, op, w), [Closed(c)])
  {
    FixedTables(s.active, op);
    hide Dispatches, ROOT_MENU, LOGIN_MENU, SETTINGS_MENU, CONFIRM_MENU;
    var t, q := OnEntry(s, op, w), [Closed(c)];
    if op == MenuRoot {
      WidgetsDoNotCount(true, [], q);
      assert [] + q == q;
      assert InTop(t, q);
    } else if s.active == Login {
      assert InLogin(t, q) || InRoot(t, q) || Leaving(t, q);
    } else {
      assert InSettings(t, q) || Leaving(t, q);
    }
  }

  /** Selecting from the top menu, even when a requested menu lies over it by the time the entry arrives. */
  lemma TopEntry(s: Loop, op: VaultOp, c: Cause, w: World)
    requires s.mode == Idle && s.active in {Root, RecordActions, PhotoActions} && BackMenu(s.origin) == Root
    requires !s.justOpened && Dispatches(ROOT_MENU, op)
    ensures Zoned(OnEntry(s, op, w), [Closed(c)])
  {
    FixedTables(Root, op);
    hide Dispatches, ROOT_MENU, LOGIN_MENU, SETTINGS_MENU, CONFIRM_MENU;
    var t, q := OnEntry(s, op, w), [Closed(c)];
    if op in {MenuLogin, MenuSettings} {
      assert InSubmenu(t, q);
    } else {
      assert op in {ListBookmarks, ListPhotos, ShowAbout, MenuDone};
      assert InRoot(t, q);
    }
  }

  /** A close notice on a screen, with no entry behind it. */
  lemma ClosedOnAScreen(s: Loop, c: Cause, rest: seq<Msg>)
    requires OnAScreen(s, [Closed(c)] + rest) && forall m :: m in rest ==> m.Posted?
    ensures OnAScreen(OnClosed(s), rest)
  {
    var q := [Closed(c)] + rest;
    assert forall m :: m in rest ==> m in q;
    var t := OnClosed(s);
    if InRoot(s, q) {
      assert InRoot(t, rest);
    } else if InLogin(s, q) {
      assert InLogin(t, rest);
    } else if InSettings(s, q) {
      assert InSettings(t, rest);
    } else {
      assert InRoot(t, rest);
    }
  }

  lemma PostsOnly(q: seq<Msg>)
    requires forall m :: m in q ==> m.Posted?
    ensures (forall m :: m in q ==> !m.Posted?) ==> q == []
  {
    if q != [] {
      assert q[0] in q && q[0].Posted?;
    }
  }

  /** Requests alone end where they began. */
  lemma {:induction false} RequestsStay(idle: bool, q: seq<Msg>)
    requires forall m :: m in q ==> m == Posted(OpenRecordActions)
    ensures EndsInStandby(idle, q) == idle
  {
    if q != [] {
      assert q[0] in q && forall m :: m in q[1..] ==> m in q;
      RequestsStay(idle, q[1..]);
    }
  }

  /** A close notice over an open menu. */
  lemma ClosedInAMenu(s: Loop, c: Cause, rest: seq<Msg>)
    requires InAMenu(s, [Closed(c)] + rest) && forall m :: m in rest ==> m.Posted?
    ensures Zoned(OnClosed(s), rest)
  {
    var q := [Closed(c)] + rest;
    assert q[1..] == rest && forall m :: m in rest ==> m in q;
    assert forall i :: 0 <= i < |rest| ==> rest[i] in rest;
    var t := OnClosed(s);
    if InSubmenu(s, q) {
      PostsOnly(rest);
      assert InSubmenu(t, rest) || InTop(t, rest);
    } else if InTop(s, q) {
      assert EndsInStandby(s.mode == Idle, rest);
      assert InTop(t, rest) || InRoot(t, rest);
    } else if TopCloses(s, q) {
      assert InRoot(t, rest);
    } else {
      RequestsStay(true, rest);
      assert InTop(t, rest) || InRoot(t, rest);
    }
  }

  lemma SendKeepsZone(s: System)
    requires ZoneInv(s) && s.sending != []
    ensures ZoneInv(Next(s, Send)) && Waiting(Next(s, Send)) == Waiting(s)
  {
    SendKeepsInv(s);
    assert s.sending[0] in s.sending;
    SendKeepsDue(s);
    hide Zoned, Inv, Due;
  }

  lemma EntryKeepsZone(s: System, w: World)
    requires ZoneInv(s) && s.inbox != [] && s.inbox[0].Entry?
    ensures Zoned(OnEntry(s.loop, s.inbox[0].op, w), s.inbox[1..] + s.sending)
  {
    var op := s.inbox[0].op;
    var q, rest := Waiting(s), s.inbox[1..] + s.sending;
    assert q == [s.inbox[0]] + rest && q[0] in q;
    HeadIsDue(s);
    assert !s.loop.justOpened;
    BehindTheHead(s);
    hide OnEntry, Inv, Due, Dispatches, Question, SharedOp, RecordOp, EndsInStandby;
    assert forall m :: m in rest ==> m in q && !m.Entry?;
    if InRoot(s.loop, q) {
      RootKeepsEntry(s.loop, op, rest, w);
    } else if InLogin(s.loop, q) {
      LoginKeepsEntry(s.loop, op, rest, w);
    } else {
      assert InSubmenu(s.loop, q) || InTop(s.loop, q);
      assert |rest| == 1;
      MenuEntryRest(s, op, rest, w);
    }
  }

  /** What is behind the entry of a fixed menu is its close notice alone. */
  lemma CloseIsBehind(s: System, op: VaultOp, rest: seq<Msg>)
    requires Inv(s) && s.inbox != [] && s.inbox[0] == Entry(op) && rest == s.inbox[1..] + s.sending && |rest| == 1
    ensures rest[0].Closed? && rest == [Closed(rest[0].cause)]
  {
    HeadIsDue(s);
    var due := Due(s);
    assert |due| == 2 && due[1].Closed?;
    assert WidgetDue(s.inbox[1..]) + s.sending == [due[1]];
    if s.inbox[1..] == [] {
      assert rest == s.sending == [due[1]];
    } else {
      assert s.sending == [] && s.inbox[1..] == rest == [rest[0]];
      assert WidgetDue([rest[0]]) == [due[1]];
      assert rest[0] == due[1];
    }
  }

  lemma MenuEntryRest(s: System, op: VaultOp, rest: seq<Msg>, w: World)
    requires Inv(s) && s.inbox != [] && s.inbox[0] == Entry(op) && rest == s.inbox[1..] + s.sending && |rest| == 1
    requires InSubmenu(s.loop, Waiting(s)) || InTop(s.loop, Waiting(s))
    ensures Zoned(OnEntry(s.loop, op, w), rest)
  {
    hide OnEntry, Due, Dispatches, Zoned, EndsInStandby, ScratchFits, HistoryFits;
    var q := Waiting(s);
    assert q == [s.inbox[0]] + rest && q[0] == Entry(op);
    HeadIsDue(s);
    CloseIsBehind(s, op, rest);
    if InSubmenu(s.loop, q) {
      SubmenuEntry(s.loop, op, rest[0].cause, w);
    } else {
      assert [] + q == q;
      WidgetsDoNotCount(s.loop.mode == Idle, [], q);
      EndOfNothing(s.loop.mode == Idle);
      TopEntry(s.loop, op, rest[0].cause, w);
    }
  }

  lemma EndOfNothing(idle: bool)
    ensures EndsInStandby(idle, []) == idle
  {
  }

  /** Posted messages join the queue ahead of what the widget has still to send. */
  function Joined(front: seq<Msg>, posts: seq<Post>, back: seq<Msg>): (q: seq<Msg>)
    ensures forall m :: m in q ==> m in front + back || (m.Posted? && m.post in posts)
    ensures posts == [] ==> q == front + back
  {
    front + ToMessages(posts) + back
  }

  lemma PostKeepsRoot(s: Loop, post: Post, front: seq<Msg>, back: seq<Msg>, w: World)
    requires InRoot(s, [Posted(post)] + (front + back))
    ensures var (t, posts) := OnPost(s, post, w); InRoot(t, Joined(front, posts, back))
  {
    var q := [Posted(post)] + (front + back);
    assert forall m :: m in front + back ==> m in q;
    PostMoves(s, post, w);
    hide OnPost, Joined, SharedOp;
  }

  lemma PostKeepsLogin(s: Loop, post: Post, front: seq<Msg>, back: seq<Msg>, w: World)
    requires InLogin(s, [Posted(post)] + (front + back)) && s.scratchItems == Labels(s.scratch)
    ensures var (t, posts) := OnPost(s, post, w); InLogin(t, Joined(front, posts, back))
  {
    var q := [Posted(post)] + (front + back);
    assert q[0] in q && forall m :: m in front + back ==> m in q;
    OpenedHolds(s, RecordActions, RECORD_ACTIONS);
    hide Opened, RECORD_ACTIONS;
  }

  lemma PostKeepsTop(s: Loop, post: Post, rest: seq<Msg>, w: World)
    requires InTop(s, [Posted(post)] + rest)
    ensures var (t, posts) := OnPost(s, post, w); posts == [] && InTop(t, rest)
  {
    hide OnPost, EndsInStandby, Dispatches;
    var q := [Posted(post)] + rest;
    assert forall i :: 0 <= i < |rest| ==> rest[i] == q[i + 1];
    PostKeepsEnd(s, post, rest, w);
    PostMoves(s, post, w);
  }

  lemma PostKeepsTopCloses(s: Loop, post: Post, front: seq<Msg>, back: seq<Msg>, w: World)
    requires TopCloses(s, [Posted(post)] + (front + back))
    ensures var (t, posts) := OnPost(s, post, w); Zoned(t, Joined(front, posts, back))
  {
    hide OnPost, SharedOp, InLogin, InSettings, Leaving, InSubmenu, InTop, LoginCloses;
    var q := [Posted(post)] + (front + back);
    assert forall m :: m in front + back ==> m in q;
    assert CloseIsWaiting(front + back);
    PostMoves(s, post, w);
    var (t, posts) := OnPost(s, post, w);
    var now := Joined(front, posts, back);
    assert forall m :: m in front + back ==> m in now;
    if t.active == Root {
      assert TopCloses(t, now);
    } else {
      assert InRoot(t, now);
    }
  }

  lemma PostKeepsLoginCloses(s: Loop, post: Post, rest: seq<Msg>, w: World)
    requires LoginCloses(s, [Posted(post)] + rest)
    ensures var (t, posts) := OnPost(s, post, w); posts == [] && LoginCloses(t, rest)
  {
    hide OnPost;
    var q := [Posted(post)] + rest;
    assert q[0] in q && forall m :: m in rest ==> m in q;
    PostMoves(s, post, w);
  }

  lemma PostKeepsZone(s: Loop, post: Post, front: seq<Msg>, back: seq<Msg>, w: World)
    requires Zoned(s, [Posted(post)] + (front + back)) && s.scratchItems == Labels(s.scratch)
    ensures var (t, posts) := OnPost(s, post, w); Zoned(t, Joined(front, posts, back))
  {
    var q := [Posted(post)] + (front + back);
    assert q[0] in q && !q[0].Closed?;
    assert !InSettings(s, q) && !Leaving(s, q) && !InSubmenu(s, q);
    hide OnPost, InRoot, InLogin, InSettings, Leaving, InSubmenu, InTop, TopCloses, LoginCloses;
    if InRoot(s, q) {
      PostKeepsRoot(s, post, front, back, w);
    } else if InLogin(s, q) {
      PostKeepsLogin(s, post, front, back, w);
    } else if InTop(s, q) {
      PostKeepsTop(s, post, front + back, w);
    } else if TopCloses(s, q) {
      PostKeepsTopCloses(s, post, front, back, w);
    } else {
      PostKeepsLoginCloses(s, post, front + back, w);
    }
  }

  /** The queue after its head is handled. */
  lemma Handled(s: System, w: World)
    requires s.inbox != []
    ensures var t := Next(s, Receive(w));
      && (s.inbox[0].Entry? ==> t.loop == OnEntry(s.loop, s.inbox[0].op, w))
      && (s.inbox[0].Closed? ==> t.loop == OnClosed(s.loop))
      && (!s.inbox[0].Posted? ==> Waiting(t) == s.inbox[1..] + s.sending)
      && (s.inbox[0].Posted? ==>
            var (loop, posts) := OnPost(s.loop, s.inbox[0].post, w);
            t.loop == loop && Waiting(t) == Joined(s.inbox[1..], posts, s.sending))
    ensures Waiting(s) == [s.inbox[0]] + (s.inbox[1..] + s.sending)
  {
    hide OnEntry, OnPost, OnClosed;
    assert s.inbox == [s.inbox[0]] + s.inbox[1..];
  }

  lemma ReceiveKeepsZone(s: System, w: World)
    requires ZoneInv(s) && s.inbox != []
    ensures ZoneInv(Next(s, Receive(w)))
  {
    StepKeepsInv(s, Receive(w));
    assert s.loop.scratchItems == Labels(s.loop.scratch);
    hide OnEntry, OnPost, OnClosed, OnAScreen, InAMenu, Due, Inv, Waiting, Joined, Next;
    Handled(s, w);
    if s.inbox[0].Entry? {
      EntryKeepsZone(s, w);
    } else if s.inbox[0].Posted? {
      PostKeepsZone(s.loop, s.inbox[0].post, s.inbox[1..], s.sending, w);
    } else {
      var c, rest := s.inbox[0].cause, s.inbox[1..] + s.sending;
      BehindTheHead(s);
      if OnAScreen(s.loop, [Closed(c)] + rest) {
        ClosedOnAScreen(s.loop, c, rest);
      } else {
        ClosedInAMenu(s.loop, c, rest);
      }
    }
  }

  // ---------- a key keeps the zone ----------

  /** What a screen key does: exactly the opening keys open a menu, over standby and without posting. */
  lemma ScreenKeyOpens(s: Loop, k: Key, w: World)
    requires s.active == NoMenu
    ensures var (t, posts) := OnScreenKey(s, k, w);
      && t.scratch == s.scratch && t.justOpened == s.justOpened
      && (Opening(s.mode, k) ==>
            && t.mode == Idle && t.active == MenuFor(s, k) && posts == []
            && t.origin == (if s.mode == Idle && k == Left then Root else s.origin))
      && (!Opening(s.mode, k) ==> t.active == NoMenu && t.origin == s.origin)
  {
    JogMeansStandby(s.mode, k, w);
  }

  /** The other keys stay with the owner of the screen, and post only what its zone may hold. */
  lemma OtherKeysStay(s: Loop, k: Key, w: World)
    requires s.active == NoMenu && !Opening(s.mode, k)
    ensures var (t, posts) := OnScreenKey(s, k, w);
      && OwnerOf(t.mode) == OwnerOf(s.mode)
      && (OwnerOf(s.mode) == Login ==> forall p :: p in posts ==> p == OpenRecordActions)
      && (OwnerOf(s.mode) == Settings ==> posts == [])
      && (s.mode == Idle && k != Fire ==> t.mode == Idle && posts == [])
  {
  }

  /** Over standby the key opens the menu that the zone of its screen leads to. */
  lemma OpenedZone(s: Loop, t: Loop, k: Key, q: seq<Msg>)
    requires OnAScreen(s, q) && s.active == NoMenu && Opening(s.mode, k) && KeepsBack(s.mode, s.origin, k, q)
    requires t.mode == Idle && t.active == MenuFor(s, k) && t.justOpened == s.justOpened
    requires t.origin == if s.mode == Idle && k == Left then Root else s.origin
    ensures InAMenu(t, q)
  {
    hide EndsInStandby, Opening, Dispatches, SharedOp, RecordOp, RECORD_ACTIONS;
    assert forall i :: 0 <= i < |q| ==> q[i] in q;
    if InRoot(s, q) {
      assert TopCloses(t, q) || InTop(t, q);
    } else if InLogin(s, q) {
      assert LoginCloses(t, q) || InSubmenu(t, q);
    } else if InSettings(s, q) {
      assert InSubmenu(t, q);
    } else {
      assert q[0] in q;
      assert TopCloses(t, q) || InSubmenu(t, q);
    }
  }

  /** With a close notice waiting an opening key opens a menu that the notice shuts. */
  lemma OpeningKeepsZone(s: System, k: Key, w: World)
    requires ZoneInv(s) && s.loop.active == NoMenu && Opening(s.loop.mode, k)
    requires KeepsBack(s.loop.mode, s.loop.origin, k, Waiting(s))
    ensures InAMenu(OnScreenKey(s.loop, k, w).0, Waiting(s))
    ensures Waiting(Next(s, Press(k, [], w))) == Waiting(s)
  {
    hide OnScreenKey, Inv, Opening, KeepsBack, OnAScreen, InSubmenu, InTop, TopCloses, LoginCloses, MenuFor;
    ScreenKeyOpens(s.loop, k, w);
    assert s.inbox + [] == s.inbox;
    assert OnAScreen(s.loop, Waiting(s)) by {
      NoMenuIsAScreen(s.loop, Waiting(s));
    }
    OpenedZone(s.loop, OnScreenKey(s.loop, k, w).0, k, Waiting(s));
  }

  lemma NoMenuIsAScreen(s: Loop, q: seq<Msg>)
    requires Zoned(s, q) && s.active == NoMenu
    ensures OnAScreen(s, q)
  {
  }

  lemma OtherKeyKeepsZone(s: Loop, k: Key, front: seq<Msg>, back: seq<Msg>, w: World)
    requires Zoned(s, front + back) && s.active == NoMenu && !Opening(s.mode, k)
    requires KeepsBack(s.mode, s.origin, k, front + back)
    ensures var (t, posts) := OnScreenKey(s, k, w); Zoned(t, Joined(front, posts, back))
  {
    ScreenKeyOpens(s, k, w);
    OtherKeysStay(s, k, w);
    hide OnScreenKey, Opening, Joined;
    var (t, posts) := OnScreenKey(s, k, w);
    var q, now := front + back, Joined(front, posts, back);
    if InRoot(s, q) {
      assert InRoot(t, now);
    } else if InLogin(s, q) {
      assert InLogin(t, now);
    } else if InSettings(s, q) {
      assert InSettings(t, now);
    } else {
      assert Leaving(s, q) && k != Fire;
      assert Leaving(t, now);
    }
  }

  lemma LeftInAMenuKeepsZone(s: Loop, q: seq<Msg>)
    requires Zoned(s, q) && s.active != NoMenu && forall m :: m in q ==> m.Posted?
    ensures Zoned(s, q + [Closed(AfterLeft)])
  {
    hide EndsInStandby, Dispatches, SharedOp, RecordOp;
    var now := q + [Closed(AfterLeft)];
    assert forall m :: m in now ==> m in q || m == Closed(AfterLeft);
    assert forall i :: 0 <= i < |now| ==> now[i] in now;
    if InSubmenu(s, q) {
      assert InSubmenu(s, now);
    } else if InTop(s, q) {
      WidgetsDoNotCount(s.mode == Idle, q, [Closed(AfterLeft)]);
      assert InTop(s, now);
    } else {
      assert InRoot(s, q) ==> InRoot(s, now);
      assert InLogin(s, q) ==> InLogin(s, now);
    }
  }

  lemma SelectionKeepsZone(s: Loop, q: seq<Msg>, op: VaultOp, c: Cause)
    requires Zoned(s, q) && ScratchFits(s) && s.active != NoMenu && forall m :: m in q ==> m.Posted?
    requires Dispatches(Shown(s), op)
    ensures Zoned(s, q + [Entry(op), Closed(c)])
  {
    hide EndsInStandby, Dispatches, ScratchFits, SharedOp, RecordOp, RECORD_ACTIONS;
    var ms := [Entry(op), Closed(c)];
    var now := q + ms;
    assert forall m :: m in now ==> m in q || m == Entry(op) || m == Closed(c);
    if s.active in {Login, Settings} {
      SubmenuShown(s);
      PostsOnly(q);
      OneMoreEntry(q, op, c, TableOf(s.active));
      assert InSubmenu(s, now);
    } else if s.active == Root {
      WidgetsDoNotCount(s.mode == Idle, q, ms);
      SubmenuShown(s);
      OneMoreEntry(q, op, c, ROOT_MENU);
      assert InTop(s, q);
      assert InTop(s, now);
    } else {
      ReplyOps(s, op);
      assert InTop(s, q) ==> InRoot(s, q);
      assert InRoot(s, q) ==> InRoot(s, now);
      assert InLogin(s, q) ==> InLogin(s, now);
    }
  }

  lemma OneMoreEntry(q: seq<Msg>, op: VaultOp, c: Cause, table: seq<MenuItem>)
    requires Dispatches(table, op) && forall m :: m in q ==> m.Posted?
    ensures OneEntry(q + [Entry(op), Closed(c)], table)
  {
    hide Dispatches;
    assert forall i :: 0 <= i < |q| ==> q[i] in q;
  }

  lemma SubmenuShown(s: Loop)
    requires s.active in {Root, Login, Settings}
    ensures Shown(s) == TableOf(s.active)
  {
  }

  /** A key answered by an open menu. */
  lemma MenuKeyKeepsZone(s: System, k: Key, reply: seq<Msg>, w: World)
    requires ZoneInv(s) && s.loop.active != NoMenu && Enabled(s, Press(k, reply, w))
    ensures Zoned(s.loop, s.inbox + reply)
  {
    NothingDue(s);
    assert Waiting(s) == s.inbox == s.inbox + [];
    hide Zoned, Dispatches, Shown, Due, ScratchFits;
    if k == Left {
      LeftInAMenuKeepsZone(s.loop, s.inbox);
    } else if reply != [] {
      var op :| Dispatches(Shown(s.loop), op) && reply == [Entry(op), Closed(AfterSelect(op))];
      SelectionKeepsZone(s.loop, s.inbox, op, AfterSelect(op));
    }
  }

  lemma ReplyOps(s: Loop, op: VaultOp)
    requires ScratchFits(s) && s.active in {RecordActions, PhotoActions, Confirm} && Dispatches(Shown(s), op)
    ensures SharedOp(op)
    ensures s.scratch == RECORD_ACTIONS ==> RecordOp(op)
  {
    PhotoOps(op);
    QrOps(op);
    ConfirmOps(op);
    RecordOps(op);
    hide Dispatches, SharedOp, RecordOp, PHOTO_ACTIONS, QR_ACTIONS, CONFIRM_MENU, RECORD_ACTIONS;
  }

  lemma PhotoOps(op: VaultOp)
    ensures Dispatches(PHOTO_ACTIONS, op) ==> SharedOp(op)
  {
  }

  lemma QrOps(op: VaultOp)
    ensures Dispatches(QR_ACTIONS, op) ==> SharedOp(op)
  {
  }

  lemma ConfirmOps(op: VaultOp)
    ensures Dispatches(CONFIRM_MENU, op) ==> SharedOp(op)
  {
  }

  lemma RecordOps(op: VaultOp)
    ensures Dispatches(RECORD_ACTIONS, op) ==> RecordOp(op) && SharedOp(op)
  {
  }

  lemma PressKeepsZone(s: System, k: Key, reply: seq<Msg>, w: World)
    requires ZoneInv(s) && Enabled(s, Press(k, reply, w)) && Steady(s, Press(k, reply, w))
    ensures ZoneInv(Next(s, Press(k, reply, w)))
  {
    StepKeepsInv(s, Press(k, reply, w));
    hide OnAScreen, InAMenu, OnScreenKey, Due, KeepsBack, Opening, Reply, Inv;
    if s.loop.active != NoMenu {
      MenuKeyKeepsZone(s, k, reply, w);
    } else if Opening(s.loop.mode, k) {
      OpeningKeepsZone(s, k, w);
    } else {
      OtherKeyKeepsZone(s.loop, k, s.inbox, s.sending, w);
      assert Waiting(Next(s, Press(k, reply, w))) == Joined(s.inbox, OnScreenKey(s.loop, k, w).1, s.sending);
    }
  }

  lemma StepKeepsZone(s: System, e: Event)
    requires ZoneInv(s) && Enabled(s, e) && Steady(s, e)
    ensures ZoneInv(Next(s, e))
  {
    hide Next, ZoneInv, Steady;
    match e
    case Send => SendKeepsZone(s);
    case Receive(w) => ReceiveKeepsZone(s, w);
    case Press(k, reply, w) => PressKeepsZone(s, k, reply, w);
  }

  lemma SteadyStep(states: seq<System>, events: seq<Event>, i: nat)
    requires IsSteadyRun(states, events) && i < |events|
    ensures |states| == |events| + 1
    ensures Enabled(states[i], events[i]) && Steady(states[i], events[i])
    ensures events[i].Send? ==> states[i].sending != []
    ensures events[i].Receive? ==> states[i].inbox != []
    ensures states[i + 1] == Next(states[i], events[i])
  {
    assert Enabled(states[i], events[i]);
  }

  lemma {:induction false} SteadyRunKeepsZone(states: seq<System>, events: seq<Event>, i: nat)
    requires IsSteadyRun(states, events) && i < |states|
    ensures ZoneInv(states[i])
    decreases i
  {
    if i > 0 {
      SteadyRunKeepsZone(states, events, i - 1);
      assert Enabled(states[i - 1], events[i - 1]) && Steady(states[i - 1], events[i - 1]);
      hide ZoneInv, Steady, Enabled, Next;
      StepKeepsZone(states[i - 1], events[i - 1]);
    } else {
      assert Waiting(states[0]) == [];
    }
  }
}
