// What a key does that is handled ahead of the wrong messages: from every state, whatever is
// waiting, a key the steady runs leave out can be carried on to where BACK opens the wrong menu.

module BackHarm {
  import opened IdleMenu
  import opened MainLoop
  import opened MenuProtocol
  import opened MenuZones
  import opened BackNavigation

  predicate Calm(s: System) { s.inbox == [] && s.sending == [] }

  /** BACK opens another menu than the owner of the screen, or the jog key in standby another than the top menu. */
  predicate Lost(s: Loop) {
    && s.active == NoMenu
    && if s.mode == Idle then MenuFor(s, Jog) != Root else MenuFor(s, Left) != OwnerOf(s.mode)
  }

  /** A run whose keys from the n-th event on are steady. */
  ghost predicate IsRunFrom(states: seq<System>, events: seq<Event>, n: nat) {
    && IsRun(states, events)
    && forall i :: n <= i < |events| ==> Steady(states[i], events[i])
  }

  /** The run goes on with the key, then steadily, and ends with nothing waiting and BACK lost. */
  ghost predicate LosingRun(
    states: seq<System>, events: seq<Event>, k: Key, s': seq<System>, e': seq<Event>)
  {
    && Grown(states, events, s', e')
    && e'[|events|].Press? && e'[|events|].key == k
    && IsRunFrom(s', e', |events| + 1)
    && Calm(s'[|e'|]) && Lost(s'[|e'|].loop)
  }

  // ---------- growing a run ----------

  /** A longer run with the same beginning. */
  ghost predicate Grown(states: seq<System>, events: seq<Event>, s': seq<System>, e': seq<Event>) {
    |states| == |events| + 1 && |s'| == |e'| + 1 && states <= s' && events < e'
  }

  lemma GrownTwice(
    s0: seq<System>, e0: seq<Event>, s1: seq<System>, e1: seq<Event>, s2: seq<System>, e2: seq<Event>)
    requires Grown(s0, e0, s1, e1) && Grown(s1, e1, s2, e2)
    ensures Grown(s0, e0, s2, e2)
  {
  }

  /** A run grown by one enabled event. */
  lemma Extend(states: seq<System>, events: seq<Event>, e: Event, n: nat) returns (s': seq<System>, e': seq<Event>)
    requires IsRunFrom(states, events, n) && Enabled(states[|events|], e)
    requires n <= |events| ==> Steady(states[|events|], e)
    ensures IsRunFrom(s', e', n) && |s'| == |e'| + 1 && s'[|e'|] == Next(states[|events|], e)
    ensures e' == events + [e] && Grown(states, events, s', e')
  {
    s' := states + [Next(states[|events|], e)];
    e' := events + [e];
    hide Next, Enabled, Steady;
    forall i | 0 <= i < |e'|
      ensures Enabled(s'[i], e'[i]) && s'[i + 1] == Next(s'[i], e'[i]) && (n <= i ==> Steady(s'[i], e'[i]))
    {
      assert i < |events| ==> s'[i] == states[i] && s'[i + 1] == states[i + 1] && e'[i] == events[i];
    }
  }

  /** What handling a widget's message does to the loop. */
  function AfterMessage(s: Loop, m: Msg, w: World): Loop
    requires FromWidget(m)
  {
    if m.Entry? then OnEntry(s, m.op, w) else OnClosed(s)
  }

  /** The widget's next message is sent and, with nothing ahead of it, handled. */
  lemma Deliver(states: seq<System>, events: seq<Event>, w: World, n: nat)
    returns (s': seq<System>, e': seq<Event>)
    requires IsRunFrom(states, events, n) && |states| == |events| + 1
    requires var s := states[|events|]; s.inbox == [] && s.sending != [] && FromWidget(s.sending[0])
    ensures IsRunFrom(s', e', n) && |s'| == |e'| + 1 && Grown(states, events, s', e')
    ensures var s, t := states[|events|], s'[|e'|];
      t.inbox == [] && t.sending == s.sending[1..] && t.loop == AfterMessage(s.loop, s.sending[0], w)
  {
    hide IsRunFrom, OnEntry, OnPost, OnClosed;
    s', e' := Extend(states, events, Send, n);
    s', e' := Extend(s', e', Receive(w), n);
  }

  /** The post at the head of the inbox is handled. */
  lemma HandlePost(states: seq<System>, events: seq<Event>, w: World, n: nat)
    returns (s': seq<System>, e': seq<Event>)
    requires IsRunFrom(states, events, n) && |states| == |events| + 1
    requires var s := states[|events|]; s.inbox != [] && s.inbox[0].Posted?
    ensures IsRunFrom(s', e', n) && |s'| == |e'| + 1 && Grown(states, events, s', e')
    ensures var s, t := states[|events|], s'[|e'|];
      && t.loop == OnPost(s.loop, s.inbox[0].post, w).0 && t.sending == s.sending
      && t.inbox == s.inbox[1..] + ToMessages(OnPost(s.loop, s.inbox[0].post, w).1)
  {
    hide IsRunFrom, OnEntry, OnPost, OnClosed;
    s', e' := Extend(states, events, Receive(w), n);
  }

  /** The jog key selects an entry of the open menu; the widget has both messages still to send. */
  lemma PressJog(states: seq<System>, events: seq<Event>, op: VaultOp, w: World, n: nat)
    returns (s': seq<System>, e': seq<Event>)
    requires IsRunFrom(states, events, n) && |states| == |events| + 1
    requires var s := states[|events|]; Due(s) == [] && s.loop.active != NoMenu && Dispatches(Shown(s.loop), op)
    ensures IsRunFrom(s', e', n) && |s'| == |e'| + 1 && Grown(states, events, s', e')
    ensures s'[|e'|] == states[|events|].(sending := [Entry(op), Closed(AfterSelect(op))])
  {
    var reply := [Entry(op), Closed(AfterSelect(op))];
    assert Reply(Shown(states[|events|].loop), Jog, reply);
    hide IsRunFrom, OnEntry, OnPost, OnClosed, Reply, Due;
    s', e' := Extend(states, events, Press(Jog, reply, w), n);
  }

  /** Both messages of a selection arrive. */
  lemma DeliverBoth(states: seq<System>, events: seq<Event>, op: VaultOp, w: World, n: nat)
    returns (s': seq<System>, e': seq<Event>)
    requires IsRunFrom(states, events, n) && |states| == |events| + 1
    requires var s := states[|events|]; s.inbox == [] && s.sending == [Entry(op), Closed(AfterSelect(op))]
    ensures IsRunFrom(s', e', n) && |s'| == |e'| + 1 && Grown(states, events, s', e')
    ensures Calm(s'[|e'|]) && s'[|e'|].loop == OnClosed(OnEntry(states[|events|].loop, op, w))
  {
    hide IsRunFrom, OnEntry, OnClosed;
    s', e' := Deliver(states, events, w, n);
    assert s'[|e'|].sending == [Closed(AfterSelect(op))];
    s', e' := Deliver(s', e', w, n);
  }

  /** Select an entry of the open menu and let both messages arrive. */
  lemma Select(states: seq<System>, events: seq<Event>, op: VaultOp, w: World, n: nat)
    returns (s': seq<System>, e': seq<Event>)
    requires IsRunFrom(states, events, n) && |states| == |events| + 1
    requires var s := states[|events|]; Calm(s) && s.loop.active != NoMenu && Dispatches(Shown(s.loop), op)
    ensures IsRunFrom(s', e', n) && |s'| == |e'| + 1 && Grown(states, events, s', e')
    ensures Calm(s'[|e'|]) && s'[|e'|].loop == OnClosed(OnEntry(states[|events|].loop, op, w))
  {
    assert Due(states[|events|]) == [];
    hide IsRunFrom, OnEntry, OnClosed, Due;
    s', e' := PressJog(states, events, op, w, n);
    s', e' := DeliverBoth(s', e', op, w, n);
  }

  // ---------- ahead of posts ----------

  /** Stores with something in them, and a camera that takes a picture. */
  const STOCKED := World(true, true, true, true, true, true, true, true, true, TookPhoto(true))

  /** The cable is out, and the camera reads an address. */
  const READING := STOCKED.(attached := false, camera := Decoded(Url(true)))

  lemma {:induction false} PostsAreNotWidgets(ms: seq<Msg>)
    requires forall m :: m in ms ==> m.Posted?
    ensures WidgetDue(ms) == []
  {
    if ms != [] {
      assert ms[0] in ms && forall m :: m in ms[1..] ==> m in ms;
      PostsAreNotWidgets(ms[1..]);
    }
  }

  /** All requests waiting are handled: the record menu is open. */
  lemma {:induction false} DrainRequests(states: seq<System>, events: seq<Event>, n: nat)
    returns (s': seq<System>, e': seq<Event>)
    requires IsRunFrom(states, events, n) && |states| == |events| + 1
    requires forall m :: m in states[|events|].inbox ==> m == Posted(OpenRecordActions)
    ensures IsRunFrom(s', e', n) && |s'| == |e'| + 1 && states <= s' && events <= e'
    ensures var s, t := states[|events|], s'[|e'|];
      && t.inbox == [] && t.sending == s.sending
      && t.loop.mode == s.loop.mode && t.loop.origin == s.loop.origin && t.loop.justOpened == s.loop.justOpened
      && t.loop.active == if s.inbox == [] then s.loop.active else RecordActions
    decreases |states[|events|].inbox|
  {
    hide IsRunFrom, OnPost;
    s', e' := states, events;
    var s := states[|events|];
    if s.inbox != [] {
      assert s.inbox[0] in s.inbox && forall m :: m in s.inbox[1..] ==> m in s.inbox;
      PostMoves(s.loop, OpenRecordActions, STOCKED);
      s', e' := HandlePost(states, events, STOCKED, n);
      s', e' := DrainRequests(s', e', n);
    }
  }

  function Scans(ms: seq<Msg>): nat {
    if ms == [] then 0 else (if ms[0] == Posted(ScanUrl) then 1 else 0) + Scans(ms[1..])
  }

  /** Behind everything else, an address that was read brings up its screen for good. */
  lemma {:induction false} EndsOnAddress(idle: bool, q: seq<Msg>)
    ensures !EndsInStandby(idle, q + [Posted(HandleQr(Url(true)))])
    ensures Scans(q + [Posted(HandleQr(Url(true)))]) == Scans(q)
    decreases |q|
  {
    var last := Posted(HandleQr(Url(true)));
    if q == [] {
      assert q + [last] == [last] && [last][1..] == [];
    } else {
      assert (q + [last])[1..] == q[1..] + [last];
      EndsOnAddress(true, q[1..]);
      EndsOnAddress(false, q[1..]);
    }
  }

  /** Not ending in standby stays so as the head is handled, and the camera runs out of turns. */
  lemma DoomedStep(s: Loop, q: seq<Msg>)
    requires q != [] && q[0].Posted? && !EndsInStandby(s.mode == Idle, q)
    ensures var (t, posts) := OnPost(s, q[0].post, READING); var now := q[1..] + ToMessages(posts);
      && !EndsInStandby(t.mode == Idle, now)
      && (Scans(now) < Scans(q) || (Scans(now) == Scans(q) && |now| < |q|))
      && forall m :: m in now ==> m in q || m.Posted?
  {
    hide Opened;
    PostMoves(s, q[0].post, READING);
    var posts := OnPost(s, q[0].post, READING).1;
    if q[0].post == ScanUrl {
      assert ToMessages(posts) == [Posted(HandleQr(Url(true)))];
      EndsOnAddress(true, q[1..]);
      EndsOnAddress(false, q[1..]);
    } else {
      assert posts == [] && q[1..] + ToMessages(posts) == q[1..];
    }
  }

  /** The top menu, or a menu requested over it, is open over standby or a screen of its own. */
  predicate OverTop(s: Loop) {
    s.active in {Root, RecordActions, PhotoActions} && OwnerOf(s.mode) == Root && !s.justOpened
  }

  /** All posts waiting are handled, in the world that leaves a screen up. */
  lemma {:induction false} DrainPosts(states: seq<System>, events: seq<Event>, n: nat)
    returns (s': seq<System>, e': seq<Event>)
    requires IsRunFrom(states, events, n) && |states| == |events| + 1
    requires var s := states[|events|];
      && (forall m :: m in s.inbox ==> m.Posted?)
      && !EndsInStandby(s.loop.mode == Idle, s.inbox) && OverTop(s.loop)
    ensures IsRunFrom(s', e', n) && |s'| == |e'| + 1 && states <= s' && events <= e'
    ensures var s, t := states[|events|], s'[|e'|];
      t.inbox == [] && t.sending == s.sending && OverTop(t.loop) && t.loop.mode != Idle
    decreases Scans(states[|events|].inbox), |states[|events|].inbox|
  {
    hide IsRunFrom, OnPost, Scans, EndsInStandby;
    s', e' := states, events;
    var s := states[|events|];
    if s.inbox == [] {
      EndOfNothing(s.loop.mode == Idle);
    } else {
      assert s.inbox[0] in s.inbox;
      DoomedStep(s.loop, s.inbox);
      PostMoves(s.loop, s.inbox[0].post, READING);
      s', e' := HandlePost(states, events, READING, n);
      s', e' := DrainPosts(s', e', n);
    }
  }

  /** "login deets" is open ahead of requests: the passkeys chosen from it get the record menu for their origin. */
  lemma RequestsOverLogin(states: seq<System>, events: seq<Event>, n: nat)
    returns (s': seq<System>, e': seq<Event>)
    requires IsRunFrom(states, events, n) && |states| == |events| + 1
    requires var s := states[|events|];
      && s.inbox != [] && s.sending == [] && (forall m :: m in s.inbox ==> m == Posted(OpenRecordActions))
      && s.loop.active == Login && !s.loop.justOpened
    ensures IsRunFrom(s', e', n) && |s'| == |e'| + 1 && states <= s' && events <= e'
    ensures Calm(s'[|e'|]) && Lost(s'[|e'|].loop)
  {
    hide IsRunFrom, Due, Dispatches, OnEntry, OnClosed, Lost;
    var s := states[|events|];
    PasskeysAreListed();
    PostsAreNotWidgets(s.inbox);
    assert Due(s) == [] by {
      DueInbox(s);
    }
    s', e' := PressJog(states, events, ListPasskeys, STOCKED, n);
    s', e' := DrainRequests(s', e', n);
    ScreenOverRecords(s'[|e'|].loop);
    s', e' := DeliverBoth(s', e', ListPasskeys, STOCKED, n);
  }

  lemma DueInbox(s: System)
    requires s.sending == []
    ensures Due(s) == WidgetDue(s.inbox)
  {
  }

  lemma PasskeysAreListed()
    ensures Dispatches(LOGIN_MENU, ListPasskeys)
  {
    assert LOGIN_MENU[1].op == ListPasskeys;
  }

  lemma ScreenOverRecords(s: Loop)
    requires s.active == RecordActions && !s.justOpened
    ensures Lost(OnClosed(OnEntry(s, ListPasskeys, STOCKED)))
  {
  }

  /** A screen is up under the submenu "settings": leaving through "screen off" records the wrong menu. */
  lemma ScreenOffOverAScreen(states: seq<System>, events: seq<Event>, n: nat)
    returns (s': seq<System>, e': seq<Event>)
    requires IsRunFrom(states, events, n) && |states| == |events| + 1
    requires var s := states[|events|];
      && Calm(s) && s.loop.active == Settings && !s.loop.justOpened
      && s.loop.mode != Idle && OwnerOf(s.loop.mode) == Root
    ensures IsRunFrom(s', e', n) && |s'| == |e'| + 1 && states <= s' && events <= e'
    ensures Calm(s'[|e'|]) && Lost(s'[|e'|].loop)
  {
    assert SETTINGS_MENU[2].op == ScreenOff;
    hide IsRunFrom;
    s', e' := Select(states, events, ScreenOff, STOCKED, n);
  }

  /** The top menu is open ahead of posts that end on a screen: "settings" chosen from it comes up over that. */
  lemma ScreenOverTop(states: seq<System>, events: seq<Event>, n: nat)
    returns (s': seq<System>, e': seq<Event>)
    requires IsRunFrom(states, events, n) && |states| == |events| + 1
    requires var s := states[|events|];
      && s.sending == [] && (forall m :: m in s.inbox ==> m.Posted?)
      && s.loop.active == Root && OverTop(s.loop) && !EndsInStandby(s.loop.mode == Idle, s.inbox)
    ensures IsRunFrom(s', e', n) && |s'| == |e'| + 1 && states <= s' && events <= e'
    ensures Calm(s'[|e'|]) && Lost(s'[|e'|].loop)
  {
    var s := states[|events|];
    assert ROOT_MENU[3].op == MenuSettings;
    PostsAreNotWidgets(s.inbox);
    assert Due(s) == [];
    hide IsRunFrom, Due, Dispatches, EndsInStandby, Lost;
    s', e' := PressJog(states, events, MenuSettings, STOCKED, n);
    s', e' := DrainPosts(s', e', n);
    s', e' := DeliverBoth(s', e', MenuSettings, STOCKED, n);
    s', e' := ScreenOffOverAScreen(s', e', n);
  }

  // ---------- ahead of a close notice ----------

  /** The one close notice due is handled, from the inbox or from the widget. */
  lemma DeliverClose(states: seq<System>, events: seq<Event>, w: World, n: nat)
    returns (s': seq<System>, e': seq<Event>)
    requires IsRunFrom(states, events, n) && |states| == |events| + 1
    requires var s := states[|events|]; |Waiting(s)| == 1 && Waiting(s)[0].Closed?
    ensures IsRunFrom(s', e', n) && |s'| == |e'| + 1 && Grown(states, events, s', e')
    ensures Calm(s'[|e'|]) && s'[|e'|].loop == OnClosed(states[|events|].loop)
  {
    var s := states[|events|];
    hide IsRunFrom, OnClosed, OnEntry, OnPost;
    if s.inbox == [] {
      assert Waiting(s) == s.sending;
      s', e' := Deliver(states, events, w, n);
    } else {
      assert s.sending == [] && s.inbox == Waiting(s);
      s', e' := Extend(states, events, Receive(w), n);
    }
  }

  /** The camera is started while the close notice of a menu left from inside is due. */
  lemma CameraAheadOfAClose(states: seq<System>, events: seq<Event>)
    returns (s': seq<System>, e': seq<Event>)
    requires IsRunFrom(states, events, 0) && |states| == |events| + 1
    requires Leaving(states[|events|].loop, Waiting(states[|events|]))
    ensures LosingRun(states, events, Fire, s', e')
  {
    var n, s := |events| + 1, states[|events|];
    assert IsRunFrom(states, events, n);
    hide IsRunFrom;
    s', e' := Extend(states, events, Press(Fire, [], STOCKED), n);
    assert s'[|e'|] == s.(loop := s.loop.(mode := PhotoPreview)) by {
      assert s.inbox + ToMessages([]) == s.inbox;
    }
    assert e'[|events|] == Press(Fire, [], STOCKED);
    hide OnScreenKey;
    s', e' := DeliverClose(s', e', STOCKED, n);
  }

  // ---------- exactly the steady keys are safe ----------

  /** On a screen with no close notice waiting only posts are, and all have reached the inbox. */
  lemma OnlyPosts(s: System)
    requires Inv(s) && OnAScreen(s.loop, Waiting(s)) && s.loop.active == NoMenu && !CloseIsWaiting(Waiting(s))
    ensures s.sending == [] && s.inbox == Waiting(s) && forall m :: m in s.inbox ==> m.Posted?
  {
    hide SharedOp, RecordOp, FlagFits, ScratchFits, HistoryFits;
    var q := Waiting(s);
    assert forall m :: m in q ==> m.Posted?;
    assert forall m :: m in s.sending ==> m in q;
    PostsOnly(s.sending);
  }

  lemma LeavingHasAClose(s: Loop, q: seq<Msg>)
    ensures Leaving(s, q) ==> CloseIsWaiting(q)
  {
    if Leaving(s, q) {
      assert q[0] in q;
    }
  }

  /** The menu the key opens when nothing shuts it again. */
  lemma OpensOver(s: System, k: Key)
    requires ZoneInv(s) && s.loop.active == NoMenu && Opening(s.loop.mode, k) && !CloseIsWaiting(Waiting(s))
    ensures var t := Next(s, Press(k, [], STOCKED));
      && t == s.(loop := t.loop) && t.loop.mode == Idle && !t.loop.justOpened
      && t.loop.active == OwnerOf(s.loop.mode)
    ensures OwnerOf(s.loop.mode) == Login ==> forall m :: m in s.inbox ==> m == Posted(OpenRecordActions)
    ensures OwnerOf(s.loop.mode) == Settings ==> s.inbox == []
  {
    ScreenKeyOpens(s.loop, k, STOCKED);
    NoMenuIsAScreen(s.loop, Waiting(s));
    OnlyPosts(s);
    hide OnScreenKey, SharedOp, RecordOp, Opening;
    assert s.inbox + ToMessages([]) == s.inbox;
    LeavingHasAClose(s.loop, s.inbox);
    PostsOnly(s.inbox);
  }

  /** A key that opens a menu ahead of the wrong posts. */
  lemma OpeningAheadOfPosts(states: seq<System>, events: seq<Event>, k: Key)
    returns (s': seq<System>, e': seq<Event>)
    requires IsRunFrom(states, events, 0) && |states| == |events| + 1
    requires var s := states[|events|];
      && ZoneInv(s) && s.loop.active == NoMenu && Opening(s.loop.mode, k) && !CloseIsWaiting(Waiting(s))
      && if OwnerOf(s.loop.mode) == Login then RequestIsWaiting(Waiting(s)) else !EndsInStandby(true, Waiting(s))
    ensures LosingRun(states, events, k, s', e')
  {
    var n, s := |events| + 1, states[|events|];
    assert IsRunFrom(states, events, n);
    NoMenuIsAScreen(s.loop, Waiting(s));
    OnlyPosts(s);
    OpensOver(s, k);
    EndOfNothing(true);
    hide IsRunFrom, OnScreenKey, Opening, ZoneInv, OnAScreen, EndsInStandby, Next, Lost;
    var s1, e1 := Extend(states, events, Press(k, [], STOCKED), n);
    assert e1[|events|] == Press(k, [], STOCKED);
    if OwnerOf(s.loop.mode) == Login {
      s', e' := RequestsOverLogin(s1, e1, n);
    } else {
      s', e' := ScreenOverTop(s1, e1, n);
    }
    assert e'[|events|] == e1[|events|];
  }

  /**
   * For every state of a steady run, with any messages waiting, the key is one the steady runs
   * allow if and only if nothing that may follow leaves BACK lost.
   */
  lemma SteadyKeysAreExactlyTheSafeOnes(states: seq<System>, events: seq<Event>, k: Key)
    requires IsSteadyRun(states, events) && |states| == |events| + 1
    requires states[|events|].loop.active == NoMenu
    ensures var s := states[|events|].loop;
      KeepsBack(s.mode, s.origin, k, Waiting(states[|events|])) <==>
      forall s': seq<System>, e': seq<Event> :: !LosingRun(states, events, k, s', e')
  {
    var s := states[|events|];
    SteadyRunKeepsZone(states, events, |events|);
    if KeepsBack(s.loop.mode, s.loop.origin, k, Waiting(s)) {
      forall s': seq<System>, e': seq<Event> ensures !LosingRun(states, events, k, s', e') {
        SteadyRunsNeverLose(states, events, k, s', e');
      }
    } else {
      var s', e' := SomeLosingRun(states, events, k);
      assert LosingRun(states, events, k, s', e');
    }
  }

  lemma SteadyRunsNeverLose(
    states: seq<System>, events: seq<Event>, k: Key, s': seq<System>, e': seq<Event>)
    requires IsSteadyRun(states, events)
    requires var s := states[|events|]; KeepsBack(s.loop.mode, s.loop.origin, k, Waiting(s))
    ensures !LosingRun(states, events, k, s', e')
  {
    if LosingRun(states, events, k, s', e') {
      forall i | 0 <= i < |e'| ensures Steady(s'[i], e'[i]) {
        if i < |events| {
          assert s'[i] == states[i] && e'[i] == events[i];
        } else if i == |events| {
          assert s'[i] == states[i];
        }
      }
      hide KeepsBack;
      BackMenuIsTheOwner(s', e', |e'|);
    }
  }

  lemma SomeLosingRun(states: seq<System>, events: seq<Event>, k: Key)
    returns (s': seq<System>, e': seq<Event>)
    requires IsSteadyRun(states, events) && |states| == |events| + 1
    requires var s := states[|events|];
      ZoneInv(s) && s.loop.active == NoMenu && !KeepsBack(s.loop.mode, s.loop.origin, k, Waiting(s))
    ensures LosingRun(states, events, k, s', e')
  {
    var s := states[|events|];
    assert IsRunFrom(states, events, 0);
    hide IsRunFrom, LosingRun, EndsInStandby;
    if Opening(s.loop.mode, k) {
      hide ZoneInv;
      s', e' := OpeningAheadOfPosts(states, events, k);
    } else {
      NoMenuIsAScreen(s.loop, Waiting(s));
      assert Leaving(s.loop, Waiting(s));
      s', e' := CameraAheadOfAClose(states, events);
    }
  }

  // ---------- such states are reached ----------

  /** LEFT in standby opens the top menu. */
  lemma RunToRoot() returns (states: seq<System>, events: seq<Event>)
    ensures IsRunFrom(states, events, 0) && |states| == |events| + 1 && Calm(states[|events|])
    ensures states[|events|].loop == Loop(Root, false, Nothing, Root, Idle, [], [])
  {
    states, events := [System(Loop(NoMenu, false, Nothing, Root, Idle, [], []), [], [], [], [], 0)], [];
    states, events := Extend(states, events, Press(Left, [], STOCKED), 0);
  }

  /** From there to a screen of the top menu. */
  lemma RunToScreen(op: VaultOp) returns (states: seq<System>, events: seq<Event>)
    requires op in {ListBookmarks, ListPhotos}
    ensures IsRunFrom(states, events, 0) && |states| == |events| + 1 && Calm(states[|events|])
    ensures states[|events|].loop == Loop(NoMenu, false, Nothing, Root, ScreenOf(op).value, [], [])
  {
    OwnTableLists(op);
    assert Dispatches(ROOT_MENU, op);
    ScreenOverRoot(op);
    hide IsRunFrom, Dispatches, ROOT_MENU, OnEntry, OnClosed;
    states, events := RunToRoot();
    states, events := Select(states, events, op, STOCKED, 0);
  }

  lemma ScreenOverRoot(op: VaultOp)
    requires op in {ListBookmarks, ListPhotos}
    ensures OnClosed(OnEntry(Loop(Root, false, Nothing, Root, Idle, [], []), op, STOCKED))
         == Loop(NoMenu, false, Nothing, Root, ScreenOf(op).value, [], [])
  {
  }

  lemma RunToLogin() returns (states: seq<System>, events: seq<Event>)
    ensures IsRunFrom(states, events, 0) && |states| == |events| + 1 && Calm(states[|events|])
    ensures states[|events|].loop == Loop(Login, false, Nothing, Root, Idle, [], [])
  {
    states, events := RunToRoot();
    assert ROOT_MENU[0].op == MenuLogin;
    hide IsRunFrom;
    states, events := Select(states, events, MenuLogin, STOCKED, 0);
  }

  /** A screen under "login deets" is up while the close notice of the menu is still due. */
  lemma CloseIsDue() returns (states: seq<System>, events: seq<Event>)
    ensures IsRunFrom(states, events, 0) && |states| == |events| + 1
    ensures var s := states[|events|];
      && s.loop == Loop(NoMenu, false, Nothing, Login, Passkeys, [], [])
      && s.inbox == [] && s.sending == [Closed(AfterSelect(ListPasskeys))]
  {
    states, events := RunToLogin();
    assert LOGIN_MENU[1].op == ListPasskeys;
    assert Due(states[|events|]) == [];
    hide IsRunFrom, Dispatches;
    states, events := PressJog(states, events, ListPasskeys, STOCKED, 0);
    states, events := Deliver(states, events, STOCKED, 0);
  }

  lemma RunToPasskeys() returns (states: seq<System>, events: seq<Event>)
    ensures IsRunFrom(states, events, 0) && |states| == |events| + 1 && Calm(states[|events|])
    ensures states[|events|].loop == Loop(NoMenu, false, Nothing, Login, Passkeys, [], [])
  {
    states, events := CloseIsDue();
    hide IsRunFrom;
    states, events := Deliver(states, events, STOCKED, 0);
  }

  /** LEFT out of it reopens "login deets", which stays the origin. */
  lemma RunBackToLogin() returns (states: seq<System>, events: seq<Event>)
    ensures IsRunFrom(states, events, 0) && |states| == |events| + 1 && Calm(states[|events|])
    ensures states[|events|].loop == Loop(Login, false, Nothing, Login, Idle, [], [])
  {
    hide IsRunFrom;
    states, events := RunToPasskeys();
    states, events := PressOn(states, events, Left, STOCKED);
  }

  /** "login deets" was left from inside by an entry, and its close notice is still due: the camera has to wait. */
  lemma LeavingIsReached() returns (states: seq<System>, events: seq<Event>)
    ensures IsRunFrom(states, events, 0) && |states| == |events| + 1
    ensures var s := states[|events|];
      Leaving(s.loop, Waiting(s)) && !KeepsBack(s.loop.mode, s.loop.origin, Fire, Waiting(s))
  {
    states, events := RunBackToLogin();
    assert Due(states[|events|]) == [];
    assert LOGIN_MENU[3].op == MenuUsernames;
    hide IsRunFrom, Due;
    states, events := PressJog(states, events, MenuUsernames, STOCKED, 0);
    states, events := Deliver(states, events, STOCKED, 0);
  }

  /** Every kind of post that can make a menu wait does make LEFT wait in some run. */
  lemma PostIsReached(post: Post) returns (states: seq<System>, events: seq<Event>)
    requires post in {OpenRecordActions, ScanUrl, HandleQr(Url(true)), BookmarkQrReady(true)}
    ensures IsRunFrom(states, events, 0) && |states| == |events| + 1
    ensures var s := states[|events|];
      && s.inbox == [Posted(post)] && s.sending == [] && s.loop.active == NoMenu
      && !KeepsBack(s.loop.mode, s.loop.origin, Left, Waiting(s))
  {
    hide IsRunFrom;
    if post == OpenRecordActions {
      states, events := RunToPasskeys();
      states, events := PressOn(states, events, Fire, STOCKED);
    } else if post == BookmarkQrReady(true) {
      states, events := RunToScreen(ListBookmarks);
      states, events := PressOn(states, events, Right, STOCKED);
    } else {
      states, events := CameraPostIsReached(post);
    }
    var s := states[|events|];
    assert s.inbox == [Posted(post)] && s.sending == [];
    AloneItWaits(s, post);
    hide OnScreenKey;
  }

  lemma AloneItWaits(s: System, post: Post)
    requires s.inbox == [Posted(post)] && s.sending == []
    ensures !CloseIsWaiting(Waiting(s))
    ensures RequestIsWaiting(Waiting(s)) <==> Request(post)
    ensures post in {ScanUrl, HandleQr(Url(true)), BookmarkQrReady(true)} ==> !EndsInStandby(true, Waiting(s))
  {
    var q := Waiting(s);
    assert q == [Posted(post)] && q[0] in q && q[1..] == [];
  }

  lemma CameraPostIsReached(post: Post) returns (states: seq<System>, events: seq<Event>)
    requires post in {ScanUrl, HandleQr(Url(true))}
    ensures IsRunFrom(states, events, 0) && |states| == |events| + 1
    ensures var s := states[|events|];
      && s.inbox == [Posted(post)] && s.sending == [] && s.loop.active == NoMenu && s.loop.mode == Idle
  {
    states, events := RunToStandby();
    hide IsRunFrom;
    if post == ScanUrl {
      states, events := PressOn(states, events, Fire, STOCKED);
      states, events := PressOn(states, events, Fire, STOCKED);
    } else {
      states, events := PressOn(states, events, Fire, STOCKED.(camera := Decoded(Url(true))));
    }
  }

  lemma RunToStandby() returns (states: seq<System>, events: seq<Event>)
    ensures IsRunFrom(states, events, 0) && |states| == |events| + 1 && Calm(states[|events|])
    ensures states[|events|].loop == Loop(NoMenu, false, Nothing, Root, Idle, [], [])
  {
    states, events := [System(Loop(NoMenu, false, Nothing, Root, Idle, [], []), [], [], [], [], 0)], [];
  }

  /** A key pressed on a screen with nothing waiting. */
  lemma PressOn(states: seq<System>, events: seq<Event>, k: Key, w: World)
    returns (s': seq<System>, e': seq<Event>)
    requires IsRunFrom(states, events, 0) && |states| == |events| + 1
    requires Calm(states[|events|]) && states[|events|].loop.active == NoMenu
    requires BackMenu(states[|events|].loop.origin) == OwnerOf(states[|events|].loop.mode)
    ensures IsRunFrom(s', e', 0) && |s'| == |e'| + 1
    ensures var (loop, posts) := OnScreenKey(states[|events|].loop, k, w);
      s'[|e'|].loop == loop && s'[|e'|].sending == [] && s'[|e'|].inbox == ToMessages(posts)
  {
    hide IsRunFrom, OnScreenKey;
    s', e' := Extend(states, events, Press(k, [], w), 0);
  }
}
