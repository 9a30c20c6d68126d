// The main loop and the menu widgets as one system of messages. The widgets run on threads of
// their own: a selection sends the entry's opcode and then a close notice, LEFT sends only the
// notice, and nothing in either message says which menu it belongs to.

module MenuProtocol {
  import opened IdleMenu
  import opened MainLoop

  /** Why a widget closed. The message does not carry it; it is recorded to state the theorems. */
  datatype Cause = AfterSelect(op: VaultOp) | AfterLeft

  datatype Msg = Entry(op: VaultOp) | Closed(cause: Cause) | Posted(post: Post)

  /**
   * The loop's fields, its inbox, what a widget has still to send, and the history: the
   * entries that asked before acting, the guarded actions run (each with the number of the
   * question it answered), and the yes answers handled.
   */
  datatype System = System(
    loop: Loop, inbox: seq<Msg>, sending: seq<Msg>,
    asks: seq<VaultOp>, done: seq<(nat, Pending)>, yeses: nat)

  datatype Event =
    | Send                                       // the widget's next message enters the inbox
    | Receive(world: World)                      // the loop handles the head of its inbox
    | Press(key: Key, reply: seq<Msg>, env: World)  // the loop handles a key press

  predicate Initial(s: System) {
    s == System(Loop(NoMenu, false, Nothing, Root, Idle, [], []), [], [], [], [], 0)
  }

  predicate FromWidget(m: Msg) { !m.Posted? }

  /** The widget messages among ms, in order. */
  function WidgetDue(ms: seq<Msg>): seq<Msg> {
    if ms == [] then []
    else if FromWidget(ms[0]) then [ms[0]] + WidgetDue(ms[1..]) else WidgetDue(ms[1..])
  }

  function Due(s: System): seq<Msg> { WidgetDue(s.inbox) + s.sending }

  /** What the widget showing the table may answer a key with. */
  ghost predicate Reply(table: seq<MenuItem>, k: Key, reply: seq<Msg>) {
    if k == Left then reply == [Closed(AfterLeft)]
    else reply == [] || exists op :: Dispatches(table, op) && reply == [Entry(op), Closed(AfterSelect(op))]
  }

  /** A key press reaches a widget only when no earlier widget message is outstanding. */
  ghost predicate Enabled(s: System, e: Event) {
    match e
    case Send => s.sending != []
    case Receive(_) => s.inbox != []
    case Press(k, reply, _) =>
      if s.loop.active == NoMenu then reply == [] else Due(s) == [] && Reply(Shown(s.loop), k, reply)
  }

  function ToMessages(posts: seq<Post>): seq<Msg> {
    seq(|posts|, i requires 0 <= i < |posts| => Posted(posts[i]))
  }

  function Next(s: System, e: Event): System
    requires e.Send? ==> s.sending != []
    requires e.Receive? ==> s.inbox != []
  {
    match e
    case Send => s.(inbox := s.inbox + [s.sending[0]], sending := s.sending[1..])
    case Receive(w) =>
      var t := s.(inbox := s.inbox[1..]);
      (match s.inbox[0]
       case Closed(_) => t.(loop := OnClosed(s.loop))
       case Posted(p) =>
         var (loop, posts) := OnPost(s.loop, p, w);
         t.(loop := loop, inbox := t.inbox + ToMessages(posts))
       case Entry(op) =>
         t.(loop := OnEntry(s.loop, op, w),
            asks := if Question(op) == Nothing then s.asks else s.asks + [op],
            done := if Ran(s.loop, op) == Nothing then s.done
                    else s.done + [(if |s.asks| == 0 then 0 else |s.asks| - 1, Ran(s.loop, op))],
            yeses := if op == ConfirmYes then s.yeses + 1 else s.yeses))
    case Press(k, reply, w) =>
      if s.loop.active == NoMenu then
        var (loop, posts) := OnScreenKey(s.loop, k, w);
        s.(loop := loop, inbox := s.inbox + ToMessages(posts))
      else s.(sending := reply)
  }

  ghost predicate IsRun(states: seq<System>, events: seq<Event>) {
    && |states| == |events| + 1
    && Initial(states[0])
    && forall i :: 0 <= i < |events| ==> Enabled(states[i], events[i]) && states[i + 1] == Next(states[i], events[i])
  }

  // ---------- the invariant of every run ----------

  /** The widget messages outstanding are one selection or one close, and the flag knows which. */
  ghost predicate FlagFits(loop: Loop, due: seq<Msg>) {
    if due == [] then !loop.justOpened
    else if |due| == 2 then
      && due[0].Entry? && due[1] == Closed(AfterSelect(due[0].op))
      && !loop.justOpened
      && (due[0].op == ConfirmYes ==> loop.pending != Nothing)
    else
      && |due| == 1 && due[0].Closed?
      && (loop.justOpened <==> due[0].cause.AfterSelect? && OpensMenu(due[0].cause.op))
  }

  /** The shared menu holds the table the open menu stands for, and its labels are remembered. */
  ghost predicate ScratchFits(loop: Loop) {
    && loop.scratchItems == Labels(loop.scratch)
    && (loop.active == PhotoActions ==> loop.scratch == PHOTO_ACTIONS)
    && (loop.active == RecordActions ==> loop.scratch in {RECORD_ACTIONS, QR_ACTIONS})
    && (loop.active == Confirm ==> loop.scratch == CONFIRM_MENU && loop.pending != Nothing)
  }

  /** The action each entry that asks first is about. */
  const GUARDED: set<(VaultOp, Pending)> := {
    (PhotoDelete, DeletePhoto), (PhotoExportB64, ExportB64), (PhotoExportAscii, ExportAscii),
    (PhotoTypeB64, TypeB64), (PhotoTypeAscii, TypeAscii), (BookmarkDelete, DeleteBookmark)}

  /** An entry asks about the action it is there for, and the six are all that ask. */
  lemma EntriesAskAboutTheirAction(op: VaultOp, action: Pending)
    ensures (op, action) in GUARDED <==> Question(op) == action != Nothing
  {
  }

  /** The pending action is that of the entry asked about last, and the question is still unanswered. */
  ghost predicate HistoryFits(s: System) {
    && (s.loop.pending != Nothing ==>
          && s.asks != [] && (s.asks[|s.asks| - 1], s.loop.pending) in GUARDED
          && forall d :: d in s.done ==> d.0 < |s.asks| - 1)
    && (forall i :: 0 <= i < |s.done| ==> s.done[i].0 < |s.asks| && (s.asks[s.done[i].0], s.done[i].1) in GUARDED)
    && (forall i, j :: 0 <= i < j < |s.done| ==> s.done[i].0 < s.done[j].0)
    && |s.done| == s.yeses
  }

  ghost predicate Inv(s: System) {
    && (forall m :: m in s.sending ==> FromWidget(m))
    && FlagFits(s.loop, Due(s)) && ScratchFits(s.loop) && HistoryFits(s)
  }

  lemma {:induction false} WidgetDueAppend(a: seq<Msg>, b: seq<Msg>)
    ensures WidgetDue(a + b) == WidgetDue(a) + WidgetDue(b)
  {
    if a == [] {
      assert a + b == b;
    } else {
      assert (a + b)[1..] == a[1..] + b;
      WidgetDueAppend(a[1..], b);
    }
  }

  lemma {:induction false} PostsAreNotDue(posts: seq<Post>)
    ensures WidgetDue(ToMessages(posts)) == []
  {
    if posts != [] {
      assert ToMessages(posts)[1..] == ToMessages(posts[1..]);
      PostsAreNotDue(posts[1..]);
    }
  }

  /** Refilling the shared menu leaves just the new table. */
  lemma OpenedHolds(s: Loop, menu: ActiveMenu, entries: seq<MenuItem>)
    requires s.scratchItems == Labels(s.scratch)
    ensures Opened(s, menu, entries).scratch == entries
  {
    forall i | 0 <= i < |s.scratch| ensures s.scratch[i].name in s.scratchItems {
      assert s.scratchItems[i] == s.scratch[i].name;
    }
    WithoutOwnLabels(s.scratch, s.scratchItems);
  }

  /** Sending moves a message along without changing what is due or in what order. */
  lemma SendKeepsDue(s: System)
    requires s.sending != [] && FromWidget(s.sending[0])
    ensures Due(Next(s, Send)) == Due(s)
    ensures Next(s, Send).inbox + Next(s, Send).sending == s.inbox + s.sending
  {
    var m, rest := s.sending[0], s.sending[1..];
    WidgetDueAppend(s.inbox, [m]);
    assert WidgetDue([m]) == [m] by {
      assert [m][1..] == [];
    }
    hide WidgetDue, FromWidget;
    assert s.sending == [m] + rest;
    assert (s.inbox + [m]) + rest == s.inbox + s.sending;
    assert (WidgetDue(s.inbox) + [m]) + rest == WidgetDue(s.inbox) + s.sending;
  }

  lemma SendKeepsInv(s: System)
    requires Inv(s) && s.sending != []
    ensures Inv(Next(s, Send))
  {
    assert s.sending[0] in s.sending;
    SendKeepsDue(s);
    hide Due, FlagFits, ScratchFits;
    assert HistoryFits(s) ==> HistoryFits(Next(s, Send));
  }

  /** The head of the inbox, when a widget sent it, is the next widget message due. */
  lemma HeadIsDue(s: System)
    requires s.inbox != []
    ensures FromWidget(s.inbox[0]) ==> Due(s) == [s.inbox[0]] + (WidgetDue(s.inbox[1..]) + s.sending)
    ensures !FromWidget(s.inbox[0]) ==> Due(s) == WidgetDue(s.inbox[1..]) + s.sending
  {
  }

  lemma EntryKeepsFlag(loop: Loop, op: VaultOp, w: World)
    requires FlagFits(loop, [Entry(op), Closed(AfterSelect(op))])
    ensures FlagFits(OnEntry(loop, op, w), [Closed(AfterSelect(op))])
  {
  }

  lemma EntryKeepsScratch(loop: Loop, op: VaultOp, w: World)
    requires ScratchFits(loop)
    requires op == MenuClosed ==> !loop.justOpened
    ensures ScratchFits(OnEntry(loop, op, w))
  {
    if Question(op) != Nothing {
      OpenedHolds(loop.(pending := Question(op), justOpened := true), Confirm, CONFIRM_MENU);
      assert OnEntry(loop, op, w) == Asked(loop, Question(op));
    } else {
      PlainEntryLeavesScratch(loop, op, w);
      hide OnEntry;
    }
  }

  lemma PlainEntryLeavesScratch(loop: Loop, op: VaultOp, w: World)
    requires Question(op) == Nothing && (op == MenuClosed ==> !loop.justOpened)
    ensures var t := OnEntry(loop, op, w);
      t.scratch == loop.scratch && t.scratchItems == loop.scratchItems && t.active in {NoMenu, Root, Login, Settings}
  {
  }

  /** What an entry does to the pending question. */
  lemma EntryPending(loop: Loop, op: VaultOp, w: World)
    ensures Question(op) != Nothing ==> OnEntry(loop, op, w).pending == Question(op)
    ensures op in {ConfirmYes, ConfirmNo} ==> OnEntry(loop, op, w).pending == Nothing
    ensures Question(op) == Nothing && op !in {ConfirmYes, ConfirmNo} ==> OnEntry(loop, op, w).pending == loop.pending
  {
  }

  lemma EntryKeepsHistory(s: System, w: World)
    requires HistoryFits(s) && s.inbox != [] && s.inbox[0].Entry?
    requires s.inbox[0].op == ConfirmYes ==> s.loop.pending != Nothing
    ensures HistoryFits(Next(s, Receive(w)))
  {
    var op := s.inbox[0].op;
    EntryPending(s.loop, op, w);
    EntriesAskAboutTheirAction(op, Question(op));
    assert Question(op) != Nothing ==> op !in {ConfirmYes, ConfirmNo};
    hide OnEntry, Question, GUARDED;
    var t := Next(s, Receive(w));
    assert t.loop.pending == OnEntry(s.loop, op, w).pending;
    if Question(op) != Nothing {
      assert t.asks == s.asks + [op] && t.done == s.done;
    } else if op == ConfirmYes {
      assert t.asks == s.asks;
    }
  }

  lemma EntryKeepsInv(s: System, w: World)
    requires Inv(s) && s.inbox != [] && s.inbox[0].Entry?
    ensures Inv(Next(s, Receive(w)))
  {
    var t := Next(s, Receive(w));
    var op := s.inbox[0].op;
    HeadIsDue(s);
    assert Due(s) == [Entry(op), Closed(AfterSelect(op))] && Due(t) == [Closed(AfterSelect(op))];
    EntryKeepsFlag(s.loop, op, w);
    EntryKeepsScratch(s.loop, op, w);
    EntryKeepsHistory(s, w);
  }

  lemma ClosedKeepsInv(s: System, w: World)
    requires Inv(s) && s.inbox != [] && s.inbox[0].Closed?
    ensures Inv(Next(s, Receive(w)))
  {
    HeadIsDue(s);
    assert Due(Next(s, Receive(w))) == [];
  }

  lemma PostKeepsScratch(loop: Loop, post: Post, w: World)
    requires ScratchFits(loop)
    ensures ScratchFits(OnPost(loop, post, w).0)
    ensures OnPost(loop, post, w).0.justOpened == loop.justOpened
    ensures OnPost(loop, post, w).0.pending == loop.pending
  {
    match post
    case OpenRecordActions => OpenedHolds(loop, RecordActions, RECORD_ACTIONS);
    case OpenPhotoActions => OpenedHolds(loop, PhotoActions, PHOTO_ACTIONS);
    case OpenBookmarkActions => OpenedHolds(loop, RecordActions, QR_ACTIONS);
    case _ =>
  }

  lemma PostKeepsInv(s: System, w: World)
    requires Inv(s) && s.inbox != [] && s.inbox[0].Posted?
    ensures Inv(Next(s, Receive(w)))
  {
    var posts := OnPost(s.loop, s.inbox[0].post, w).1;
    HeadIsDue(s);
    WidgetDueAppend(s.inbox[1..], ToMessages(posts));
    PostsAreNotDue(posts);
    assert Due(Next(s, Receive(w))) == Due(s);
    PostKeepsScratch(s.loop, s.inbox[0].post, w);
  }

  /** A key on a screen leaves flag, question and shared menu alone. */
  lemma ScreenKeyLeaves(loop: Loop, k: Key, w: World)
    requires loop.active == NoMenu
    ensures var t := OnScreenKey(loop, k, w).0;
      && t.justOpened == loop.justOpened && t.pending == loop.pending
      && t.scratch == loop.scratch && t.scratchItems == loop.scratchItems
      && t.active in {NoMenu, Root, Login, Settings}
  {
    hide ScreenKey, CameraScan;
    JogMeansStandby(loop.mode, k, w);
  }

  lemma ScreenKeyKeepsInv(s: System, k: Key, w: World)
    requires Inv(s) && s.loop.active == NoMenu
    ensures Inv(Next(s, Press(k, [], w)))
  {
    hide OnScreenKey, WidgetDue;
    var (loop, posts) := OnScreenKey(s.loop, k, w);
    WidgetDueAppend(s.inbox, ToMessages(posts));
    PostsAreNotDue(posts);
    assert Due(Next(s, Press(k, [], w))) == Due(s);
    ScreenKeyLeaves(s.loop, k, w);
  }

  /** Only the confirm table dispatches the yes. */
  lemma YesIsConfirmed(s: Loop)
    requires ScratchFits(s) && s.active != NoMenu && Dispatches(Shown(s), ConfirmYes)
    ensures s.active == Confirm
  {
    var i :| 0 <= i < |Shown(s)| && Shown(s)[i].op == ConfirmYes;
  }

  /** Whatever the widget answers is one selection or one close. */
  lemma ReplyFits(loop: Loop, k: Key, reply: seq<Msg>)
    requires ScratchFits(loop) && loop.active != NoMenu && !loop.justOpened && Reply(Shown(loop), k, reply)
    ensures FlagFits(loop, reply) && forall m :: m in reply ==> FromWidget(m)
  {
    if k != Left && reply != [] {
      var op :| Dispatches(Shown(loop), op) && reply == [Entry(op), Closed(AfterSelect(op))];
      if op == ConfirmYes {
        YesIsConfirmed(loop);
      }
    }
  }

  lemma MenuKeyKeepsInv(s: System, k: Key, reply: seq<Msg>, w: World)
    requires Inv(s) && s.loop.active != NoMenu && Enabled(s, Press(k, reply, w))
    ensures Inv(Next(s, Press(k, reply, w)))
  {
    ReplyFits(s.loop, k, reply);
    hide Reply, FlagFits;
    var t := Next(s, Press(k, reply, w));
    assert t == s.(sending := reply);
    assert WidgetDue(s.inbox) == [] && Due(t) == reply;
    assert HistoryFits(s) ==> HistoryFits(t);
  }

  lemma StepKeepsInv(s: System, e: Event)
    requires Inv(s) && Enabled(s, e)
    ensures Inv(Next(s, e))
  {
    match e
    case Send => SendKeepsInv(s);
    case Receive(w) =>
      match s.inbox[0] {
        case Entry(_) => EntryKeepsInv(s, w);
        case Closed(_) => ClosedKeepsInv(s, w);
        case Posted(_) => PostKeepsInv(s, w);
      }
    case Press(k, reply, w) =>
      if s.loop.active == NoMenu {
        ScreenKeyKeepsInv(s, k, w);
      } else {
        MenuKeyKeepsInv(s, k, reply, w);
      }
  }

  lemma {:induction false} RunKeepsInv(states: seq<System>, events: seq<Event>, i: nat)
    requires IsRun(states, events) && i < |states|
    ensures Inv(states[i])
    decreases i
  {
    if i > 0 {
      RunKeepsInv(states, events, i - 1);
      StepKeepsInv(states[i - 1], events[i - 1]);
    }
  }

  // ---------- theorems over every run ----------

  /** With no widget message outstanding the flag is down, so the next close is the user's own. */
  lemma FlagIsDownWhenNothingIsDue(states: seq<System>, events: seq<Event>, i: nat)
    requires IsRun(states, events) && i < |states| && Due(states[i]) == []
    ensures !states[i].loop.justOpened
  {
    RunKeepsInv(states, events, i);
  }

  /**
   * A close notice is swallowed exactly when it comes from a selection that put another menu
   * on screen; the user's own LEFT and a "back" entry are never swallowed.
   */
  lemma SwallowsExactlyTheStaleNotice(states: seq<System>, events: seq<Event>, i: nat)
    requires IsRun(states, events) && i < |events| && events[i].Receive?
    ensures var m := states[i].inbox[0];
      (m.Closed? ==> (states[i].loop.justOpened <==> m.cause.AfterSelect? && OpensMenu(m.cause.op)))
      && (m.Entry? ==> !states[i].loop.justOpened)
    ensures states[i].inbox[0] == Closed(AfterLeft) ==>
      states[i + 1].loop.active == (if states[i].loop.active in {Login, Settings} then Root else NoMenu)
  {
    RunKeepsInv(states, events, i);
    assert Enabled(states[i], events[i]);
    HeadIsDue(states[i]);
  }

  /**
   * Confirmation soundness: every yes runs exactly one action, the one of the entry asked about
   * last, and no question is acted on twice.
   */
  lemma YesRunsTheLatestQuestionOnce(states: seq<System>, events: seq<Event>, i: nat)
    requires IsRun(states, events) && i < |events| && events[i].Receive?
    requires states[i].inbox[0] == Entry(ConfirmYes)
    ensures states[i].asks != []
    ensures states[i + 1].done == states[i].done + [(|states[i].asks| - 1, states[i].loop.pending)]
    ensures (states[i].asks[|states[i].asks| - 1], states[i].loop.pending) in GUARDED
    ensures forall d :: d in states[i].done ==> d.0 < |states[i].asks| - 1
    ensures states[i + 1].loop.pending == Nothing
  {
    RunKeepsInv(states, events, i);
    assert Enabled(states[i], events[i]);
    HeadIsDue(states[i]);
  }

  /** Nothing but a yes runs an action, and at any time each action run answered its own question. */
  lemma ActionsMatchYeses(states: seq<System>, events: seq<Event>, i: nat)
    requires IsRun(states, events) && i < |states|
    ensures |states[i].done| == states[i].yeses
    ensures forall j, k :: 0 <= j < k < |states[i].done| ==> states[i].done[j].0 < states[i].done[k].0
    ensures forall d :: d in states[i].done ==> d.0 < |states[i].asks| && (states[i].asks[d.0], d.1) in GUARDED
  {
    RunKeepsInv(states, events, i);
  }

  /** An open confirm menu shows the confirm table and guards the question asked last. */
  lemma OpenConfirmGuardsTheLatestQuestion(states: seq<System>, events: seq<Event>, i: nat)
    requires IsRun(states, events) && i < |states|
    ensures states[i].loop.scratchItems == Labels(states[i].loop.scratch)
    ensures states[i].loop.active == Confirm ==>
      && states[i].loop.scratch == CONFIRM_MENU
      && states[i].asks != [] && (states[i].asks[|states[i].asks| - 1], states[i].loop.pending) in GUARDED
      && forall d :: d in states[i].done ==> d.0 < |states[i].asks| - 1
  {
    RunKeepsInv(states, events, i);
  }

  // ---------- the loop object in any run ----------

  function Actions(done: seq<(nat, Pending)>): (r: seq<Pending>)
    ensures |r| == |done|
  {
    seq(|done|, i requires 0 <= i < |done| => done[i].1)
  }

  /** Handle one message the way the loop does. */
  method Handle(vault: VaultLoop, m: Msg, w: World) returns (ran: Pending, posts: seq<Post>)
    modifies vault, vault.scratchMenu
    ensures m.Closed? ==> vault.View() == OnClosed(old(vault.View())) && ran == Nothing && posts == []
    ensures m.Entry? ==>
      vault.View() == OnEntry(old(vault.View()), m.op, w) && ran == Ran(old(vault.View()), m.op) && posts == []
    ensures m.Posted? ==> (vault.View(), posts) == OnPost(old(vault.View()), m.post, w) && ran == Nothing
  {
    ran, posts := Nothing, [];
    match m
    case Closed(_) => vault.HandleMenuClosed();
    case Entry(op) => ran := vault.HandleEntry(op, w);
    case Posted(post) => posts := vault.HandlePost(post, w);
  }

  lemma RunStep(states: seq<System>, events: seq<Event>, i: nat)
    requires IsRun(states, events) && i < |events|
    ensures Enabled(states[i], events[i])
    ensures (events[i].Send? ==> states[i].sending != []) && (events[i].Receive? ==> states[i].inbox != [])
    ensures states[i + 1] == Next(states[i], events[i])
  {
    assert Enabled(states[i], events[i]);
  }

  /** What has run at the end of a run answers the questions asked, each at most once and in order. */
  ghost predicate Answered(ran: seq<Pending>, s: System) {
    && |ran| == |s.done| == s.yeses
    && (forall j :: 0 <= j < |ran| ==> s.done[j].0 < |s.asks| && (s.asks[s.done[j].0], ran[j]) in GUARDED)
    && forall j, k :: 0 <= j < k < |ran| ==> s.done[j].0 < s.done[k].0
  }

  lemma ActionsAnswer(states: seq<System>, events: seq<Event>)
    requires IsRun(states, events)
    ensures Answered(Actions(states[|events|].done), states[|events|])
  {
    var s := states[|events|];
    hide IsRun;
    LastState(states, events);
    ActionsMatchYeses(states, events, |events|);
    assert forall j :: 0 <= j < |s.done| ==> s.done[j] in s.done;
  }

  lemma LastState(states: seq<System>, events: seq<Event>)
    requires IsRun(states, events)
    ensures |states| == |events| + 1 && Initial(states[0])
  {
  }

  /**
   * The loop object through any run: its fields are those of the last state, the actions it
   * has run are one for each yes and answer their own questions, and with nothing outstanding
   * the flag is down.
   */
  method RunLoop(events: seq<Event>, ghost states: seq<System>) returns (vault: VaultLoop, ran: seq<Pending>)
    requires IsRun(states, events)
    ensures fresh(vault) && vault.View() == states[|events|].loop
    ensures Answered(ran, states[|events|])
    ensures Due(states[|events|]) == [] ==> !vault.menuJustOpened
  {
    hide IsRun, OnEntry, OnPost, OnClosed, OnScreenKey, Ran, Question, Due, Answered, Enabled;
    vault := new VaultLoop(Idle);
    ran := [];
    var inbox, sending := [], [];
    LastState(states, events);
    for i := 0 to |events|
      invariant fresh(vault) && fresh(vault.scratchMenu)
      invariant |states| == |events| + 1 && vault.View() == states[i].loop
      invariant inbox == states[i].inbox && sending == states[i].sending && ran == Actions(states[i].done)
    {
      RunStep(states, events, i);
      match events[i]
      case Send => inbox, sending := inbox + [sending[0]], sending[1..];
      case Receive(w) =>
        var action, posts := Handle(vault, inbox[0], w);
        inbox := inbox[1..] + ToMessages(posts);
        if action != Nothing {
          ran := ran + [action];
        }
      case Press(k, reply, w) =>
        if vault.activeMenu == NoMenu {
          var posts := vault.HandleScreenKey(k, w);
          inbox := inbox + ToMessages(posts);
        } else {
          sending := reply;
        }
    }
    ActionsAnswer(states, events);
    if Due(states[|events|]) == [] {
      FlagIsDownWhenNothingIsDue(states, events, |events|);
    }
  }
}
