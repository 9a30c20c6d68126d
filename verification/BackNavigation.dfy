// Where BACK leads. A screen opened from a menu belongs to the menu whose table lists it, and
// leaving the screen has to reopen that menu. It does in every run whose keys respect what is
// waiting.

module BackNavigation {
  import opened IdleMenu
  import opened MainLoop
  import opened MenuProtocol
  import opened MenuZones

  // ---------- theorems over every steady run ----------

  /**
   * In every state the menu that BACK opens from a screen is its owner, and in standby it is the
   * top menu once no close notice is waiting.
   */
  lemma BackMenuIsTheOwner(states: seq<System>, events: seq<Event>, i: nat)
    requires IsSteadyRun(states, events) && i < |states|
    ensures var s := states[i].loop;
      && (s.mode != Idle ==> BackMenu(s.origin) == OwnerOf(s.mode))
      && (s.mode == Idle && s.active == NoMenu && !CloseIsWaiting(Waiting(states[i])) ==> BackMenu(s.origin) == Root)
  {
    SteadyRunKeepsZone(states, events, i);
    var q := Waiting(states[i]);
    if Leaving(states[i].loop, q) {
      assert q[0] in q;
    }
    hide IsSteadyRun, EndsInStandby, SharedOp, RecordOp, Dispatches;
  }

  /** A key that leaves its screen for a menu. */
  ghost predicate LeavesScreen(s: System, e: Event) {
    e.Press? && s.loop.active == NoMenu && s.loop.mode != Idle && Opening(s.loop.mode, e.key)
  }

  /**
   * Some steps after the owner was reopened with a close notice waiting or not, and a request
   * waiting or not.
   */
  ghost predicate Reopened(s: System, owner: ActiveMenu, closes: bool, requests: bool) {
    var q := Waiting(s);
    && !s.loop.justOpened && owner in {Root, Login, Settings}
    && s.loop.active in {owner, Root, RecordActions, PhotoActions, NoMenu}
    && (forall m :: m in q ==> !m.Entry?)
    && (!closes ==> !CloseIsWaiting(q) && EndsInStandby(s.loop.mode == Idle, q))
    && (!closes && !requests ==> s.loop.active == owner && !RequestIsWaiting(q))
    && (closes || requests ==> s.loop.active != owner || CloseIsWaiting(q) || RequestIsWaiting(q))
  }

  /** What of the queue is still waiting once its head is not. */
  lemma BehindHead(head: Msg, rest: seq<Msg>)
    ensures CloseIsWaiting([head] + rest) <==> head.Closed? || CloseIsWaiting(rest)
    ensures RequestIsWaiting([head] + rest) <==> (head.Posted? && Request(head.post)) || RequestIsWaiting(rest)
    ensures (forall m :: m in [head] + rest ==> !m.Entry?) <==> !head.Entry? && forall m :: m in rest ==> !m.Entry?
  {
    var q := [head] + rest;
    assert q[0] in q && forall m :: m in q <==> m == head || m in rest;
  }

  lemma ReopenedClosed(s: System, w: World, owner: ActiveMenu, closes: bool, requests: bool)
    requires Reopened(s, owner, closes, requests) && s.inbox != [] && s.inbox[0].Closed?
    ensures Reopened(Next(s, Receive(w)), owner, closes, requests)
  {
    hide CloseIsWaiting, RequestIsWaiting, EndsInStandby, Waiting, Next;
    Handled(s, w);
    BehindHead(s.inbox[0], s.inbox[1..] + s.sending);
  }

  /** Posting adds no request and no close notice. */
  lemma JoinedWaits(s: Loop, post: Post, front: seq<Msg>, back: seq<Msg>, w: World)
    ensures var now := Joined(front, OnPost(s, post, w).1, back);
      && (CloseIsWaiting(now) <==> CloseIsWaiting(front + back))
      && (RequestIsWaiting(now) <==> RequestIsWaiting(front + back))
      && ((forall m :: m in front + back ==> !m.Entry?) ==> forall m :: m in now ==> !m.Entry?)
  {
    var posts := OnPost(s, post, w).1;
    PostsAreNotRequests(s, post, w);
    hide OnPost;
    var now := Joined(front, posts, back);
    assert forall m :: m in front + back ==> m in now;
  }

  lemma PostsAreNotRequests(s: Loop, post: Post, w: World)
    ensures forall p :: p in OnPost(s, post, w).1 ==> !Request(p)
  {
    hide Opened;
  }

  lemma ReopenedPost(s: System, w: World, owner: ActiveMenu, closes: bool, requests: bool)
    requires Reopened(s, owner, closes, requests) && s.inbox != [] && s.inbox[0].Posted?
    ensures Reopened(Next(s, Receive(w)), owner, closes, requests)
  {
    hide CloseIsWaiting, RequestIsWaiting, EndsInStandby, Waiting, Next, OnPost, Joined;
    var post, front, back := s.inbox[0].post, s.inbox[1..], s.sending;
    Handled(s, w);
    BehindHead(s.inbox[0], front + back);
    JoinedWaits(s.loop, post, front, back, w);
    PostMoves(s.loop, post, w);
    if !closes {
      PostKeepsEnd(s.loop, post, front + back, w);
    }
  }

  lemma ReopenedStep(s: System, e: Event, owner: ActiveMenu, closes: bool, requests: bool)
    requires Inv(s) && Enabled(s, e) && !e.Press? && Reopened(s, owner, closes, requests)
    ensures Reopened(Next(s, e), owner, closes, requests)
  {
    if e.Send? {
      assert s.sending[0] in s.sending;
      SendKeepsDue(s);
    } else {
      hide Inv, Next;
      assert s.inbox[0] in Waiting(s);
      if s.inbox[0].Posted? {
        ReopenedPost(s, e.world, owner, closes, requests);
      } else {
        ReopenedClosed(s, e.world, owner, closes, requests);
      }
    }
  }

  lemma ScreenZone(s: Loop, q: seq<Msg>)
    requires OnAScreen(s, q) && s.active == NoMenu && s.mode != Idle
    ensures BackMenu(s.origin) == OwnerOf(s.mode) && !s.justOpened && forall m :: m in q ==> !m.Entry?
    ensures OwnerOf(s.mode) == Settings ==> forall m :: m in q ==> !m.Posted?
    ensures OwnerOf(s.mode) == Login ==> forall m :: m in q && m.Posted? ==> Request(m.post)
  {
    hide SharedOp, RecordOp;
  }

  /** With nothing to wait for, nothing changes. */
  lemma NothingWaits(q: seq<Msg>)
    requires !CloseIsWaiting(q) && forall m :: m in q ==> !m.Entry?
    ensures (forall m :: m in q ==> !m.Posted?) ==> q == []
  {
    if q != [] {
      assert q[0] in q && q[0].Posted?;
    }
  }

  lemma LeavingReopens(s: System, e: Event)
    requires ZoneInv(s) && Enabled(s, e) && Steady(s, e) && LeavesScreen(s, e)
    ensures Next(s, e).loop.active == OwnerOf(s.loop.mode)
    ensures Reopened(Next(s, e), OwnerOf(s.loop.mode), CloseIsWaiting(Waiting(s)), RequestIsWaiting(Waiting(s)))
  {
    hide OnScreenKey, OnAScreen, Inv, Opening, CloseIsWaiting, EndsInStandby;
    var q := Waiting(s);
    ScreenKeyOpens(s.loop, e.key, e.env);
    OpeningKeepsZone(s, e.key, e.env);
    NoMenuIsAScreen(s.loop, q);
    ScreenZone(s.loop, q);
    if !CloseIsWaiting(q) {
      NothingWaits(q);
      EndOfNothing(true);
    }
  }

  ghost predicate NoPress(events: seq<Event>, from: nat, to: nat) {
    forall n :: from <= n < to && n < |events| ==> !events[n].Press?
  }

  lemma SteadyLength(states: seq<System>, events: seq<Event>)
    requires IsSteadyRun(states, events)
    ensures |states| == |events| + 1
  {
  }

  lemma {:induction false} ReopenedStays(states: seq<System>, events: seq<Event>, i: nat, j: nat)
    requires IsSteadyRun(states, events) && i < j < |states| && LeavesScreen(states[i], events[i])
    requires NoPress(events, i + 1, j)
    ensures states[i + 1].loop.active == OwnerOf(states[i].loop.mode)
    ensures var q := Waiting(states[i]);
      Reopened(states[j], OwnerOf(states[i].loop.mode), CloseIsWaiting(q), RequestIsWaiting(q))
    decreases j
  {
    hide IsSteadyRun, Enabled, Steady, Next, Reopened, Zoned, LeavesScreen, Waiting;
    SteadyLength(states, events);
    SteadyRunKeepsZone(states, events, j - 1);
    SteadyStep(states, events, j - 1);
    var q := Waiting(states[i]);
    if j == i + 1 {
      LeavingReopens(states[i], events[i]);
    } else {
      ReopenedStays(states, events, i, j - 1);
      assert !events[j - 1].Press?;
      var owner := OwnerOf(states[i].loop.mode);
      ReopenedStep(states[j - 1], events[j - 1], owner, CloseIsWaiting(q), RequestIsWaiting(q));
    }
  }

  /**
   * BACK: the key that leaves a screen opens the menu that lists it, and once all that was
   * waiting is handled that menu is still up exactly when neither a close notice, which shuts
   * it, nor a request, which covers it, was waiting at the key. Without a close notice what is
   * left is standby.
   */
  lemma BackReopensTheOwnerIff(states: seq<System>, events: seq<Event>, i: nat, j: nat)
    requires IsSteadyRun(states, events) && i < j < |states| && LeavesScreen(states[i], events[i])
    requires NoPress(events, i + 1, j) && Waiting(states[j]) == []
    ensures states[i + 1].loop.active == OwnerOf(states[i].loop.mode)
    ensures var q := Waiting(states[i]);
      && (states[j].loop.active == OwnerOf(states[i].loop.mode) <==> !CloseIsWaiting(q) && !RequestIsWaiting(q))
      && (!CloseIsWaiting(q) ==> states[j].loop.mode == Idle)
  {
    ReopenedStays(states, events, i, j);
    EndOfNothing(states[j].loop.mode == Idle);
  }

  /** LEFT out of a photo or code shown from its list goes back to the list, out of a fresh photo to standby. */
  lemma LeftOutOfAShownItem(states: seq<System>, events: seq<Event>, i: nat)
    requires IsSteadyRun(states, events) && i < |events| && states[i].loop.active == NoMenu
    requires events[i].Press? && events[i].key == Left
    requires states[i].loop.mode in {PhotoView, ShowBookmarkQr, PhotoPreview}
    ensures var t := states[i + 1].loop;
      && t.mode == (match states[i].loop.mode
                    case PhotoView => PhotoList case ShowBookmarkQr => BookmarkList case _ => Idle)
      && t.active == NoMenu && BackMenu(t.origin) == Root
  {
    SteadyRunKeepsZone(states, events, i);
    assert Enabled(states[i], events[i]) && states[i + 1] == Next(states[i], events[i]);
  }
}
