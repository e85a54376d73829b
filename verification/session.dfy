/** The main process as one serialized event loop: every IPC request and
    every window event the registry reacts to, delivered one at a time.
    The lemmas here relate several transitions: identifiers are handed out
    in increasing order and never again, a close request is not a removal,
    and navigation back to the application UI undoes any number of
    navigations away from it. */
module Session {
  import opened Wrappers
  import opened WindowIds
  import opened Registry

  datatype Event =
    | OpenRequest(platform: string, url: string, created: Option<Handle>)
    | CloseRequest(id: string)
    | FocusRequest(id: string)
    | ListRequest
    | NavigateToUrlRequest(url: string)
    | NavigateToAppRequest
    | AIWindowClosedEvent(id: string)
    | MainWindowClosedEvent
    | MainWindowCreated

  /** What an IPC handler hands back to the renderer (`Done` for handlers
      and events with no answer). */
  datatype Reply =
    | Opened(result: Result<string, OpenError>)
    | Answer(ok: bool)
    | Windows(windows: seq<WindowInfo>)
    | Done

  /** Delivers one event. Only an open request moves the counter, and every
      transition keeps the registry invariant. */
  function Apply(s: State, e: Event): (r: Step<Reply>)
    requires Valid(s)
    ensures Valid(r.state)
    ensures r.state.windowCounter == s.windowCounter + (if e.OpenRequest? then 1 else 0)
    ensures r.reply.Opened? <==> e.OpenRequest?
    ensures r.reply.Opened? && r.reply.result.Success? ==>
      r.reply.result.value == WindowId(r.state.windowCounter)
    ensures !e.OpenRequest? && !e.AIWindowClosedEvent? ==> r.state.aiWindows == s.aiWindows
  {
    match e
    case OpenRequest(p, u, created) =>
      var st := OpenAIWindow(s, p, u, created);
      Step(st.state, Opened(st.reply), st.effects)
    case CloseRequest(id) =>
      var st := CloseAIWindow(s, id);
      Step(st.state, Answer(st.reply), st.effects)
    case FocusRequest(id) =>
      var st := Focus(s, id);
      Step(st.state, Answer(st.reply), st.effects)
    case ListRequest =>
      Step(s, Windows(GetOpenWindows(s)), [])
    case NavigateToUrlRequest(u) =>
      Step(NavigateToUrl(s, u), Done, [])
    case NavigateToAppRequest =>
      Step(NavigateToApp(s), Done, [])
    case AIWindowClosedEvent(id) =>
      var st := AIWindowClosed(s, id);
      Step(st.state, Done, st.effects)
    case MainWindowClosedEvent =>
      Step(MainWindowClosed(s), Done, [])
    case MainWindowCreated =>
      Step(CreateMainWindow(s), Done, [])
  }

  /** The identifier an event handed out, if it was a successful open. */
  function IssuedBy(reply: Reply): (ids: seq<string>)
    ensures |ids| <= 1
    ensures |ids| == 1 <==> reply.Opened? && reply.result.Success?
  {
    if reply.Opened? && reply.result.Success? then [reply.result.value] else []
  }

  /** Every identifier in `ids` was rendered from a counter value in
      `lo + 1 .. hi`. */
  predicate IssuedBetween(ids: seq<string>, lo: nat, hi: nat) {
    forall i | 0 <= i < |ids| :: Issued(ids[i], hi) && lo < Serial(ids[i])
  }

  predicate Ascending(ids: seq<string>) {
    forall i, j | 0 <= i < j < |ids| :: Serial(ids[i]) < Serial(ids[j])
  }

  /** An identifier from counter value `mid` followed by identifiers from
      values above `mid` is still fresh and ascending. */
  lemma PrependIssued(mine: seq<string>, rest: seq<string>, lo: nat, mid: nat, hi: nat)
    requires |mine| <= 1 && lo <= mid <= hi
    requires IssuedBetween(mine, lo, mid) && IssuedBetween(rest, mid, hi)
    requires forall i | 0 <= i < |mine| :: Serial(mine[i]) == mid
    requires Ascending(rest)
    ensures IssuedBetween(mine + rest, lo, hi)
    ensures Ascending(mine + rest)
  {
    var all := mine + rest;
    forall i | 0 <= i < |all| ensures Issued(all[i], hi) && lo < Serial(all[i]) {
      if i >= |mine| {
        assert all[i] == rest[i - |mine|];
      } else {
        assert all[i] == mine[i];
      }
    }
    forall i, j | 0 <= i < j < |all| ensures Serial(all[i]) < Serial(all[j]) {
      if i >= |mine| {
        assert all[i] == rest[i - |mine|] && all[j] == rest[j - |mine|];
      } else {
        assert all[j] == rest[j - |mine|];
      }
    }
  }

  /** Delivers `es` in order; returns the final state and every identifier
      handed out on the way. Those identifiers are all new (rendered from
      counter values above the starting one) and strictly increasing. */
  function Run(s: State, es: seq<Event>): (r: (State, seq<string>))
    requires Valid(s)
    ensures Valid(r.0)
    ensures r.0.windowCounter >= s.windowCounter
    ensures IssuedBetween(r.1, s.windowCounter, r.0.windowCounter)
    ensures Ascending(r.1)
    decreases |es|
  {
    if |es| == 0 then (s, [])
    else
      var step := Apply(s, es[0]);
      var rest := Run(step.state, es[1..]);
      var mine := IssuedBy(step.reply);
      var mid := step.state.windowCounter;
      assert forall i | 0 <= i < |mine| :: mine[i] == WindowId(mid) && Serial(mine[i]) == mid;
      assert IssuedBetween(mine, s.windowCounter, mid);
      assert IssuedBetween(rest.1, mid, rest.0.windowCounter);
      PrependIssued(mine, rest.1, s.windowCounter, mid, rest.0.windowCounter);
      (rest.0, mine + rest.1)
  }

  /** No identifier is handed out twice in a run, and none that was handed
      out before the run started, whether or not its window has closed
      since. */
  lemma RunNeverReissues(s: State, es: seq<Event>)
    requires Valid(s)
    ensures forall i, j | 0 <= i < j < |Run(s, es).1| :: Run(s, es).1[i] != Run(s, es).1[j]
    ensures forall k | Issued(k, s.windowCounter) :: k !in Run(s, es).1
  {
  }

  /** The first window opened after start-up is `ai-1`, the second `ai-2`. */
  lemma FirstIdentifiers(p1: string, u1: string, h1: Handle, p2: string, u2: string, h2: Handle)
    ensures OpenAIWindow(Init(), p1, u1, Some(h1)).reply == Success("ai-1")
    ensures OpenAIWindow(OpenAIWindow(Init(), p1, u1, Some(h1)).state, p2, u2, Some(h2)).reply
         == Success("ai-2")
  {
    assert WindowId(1) == "ai-1" by { assert Decimal(1) == "1"; }
    assert WindowId(2) == "ai-2" by { assert Decimal(2) == "2"; }
  }

  /** Closing is only a request: until the window's `closed` event fires the
      entry stays registered and listed, and a second close answers true
      again. */
  lemma CloseIsOnlyARequest(s: State, id: string)
    requires Valid(s)
    requires id in s.aiWindows
    ensures var c := CloseAIWindow(s, id);
      && c.reply
      && CloseAIWindow(c.state, id).reply
      && id in IdsOf(GetOpenWindows(c.state))
  {
  }

  /** After the `closed` event of a window, its identifier is no longer
      listed, closing or focusing it answers false, and every other entry is
      still listed as before. */
  lemma ClosedEventRemoves(s: State, id: string)
    requires Valid(s)
    requires id in s.aiWindows
    ensures var t := AIWindowClosed(CloseAIWindow(s, id).state, id).state;
      && id !in IdsOf(GetOpenWindows(t))
      && IdsOf(GetOpenWindows(t)) == IdsOf(GetOpenWindows(s)) - {id}
      && |GetOpenWindows(t)| == |GetOpenWindows(s)| - 1
      && !CloseAIWindow(t, id).reply
      && !Focus(t, id).reply
      && forall w | w in GetOpenWindows(s) && w.id != id :: w in GetOpenWindows(t)
  {
    var t := AIWindowClosed(CloseAIWindow(s, id).state, id).state;
    assert t.aiWindows.Keys == s.aiWindows.Keys - {id};
    ClosedRemovesRecord(s, id);
    WithoutKeepsOthers(GetOpenWindows(s), id);
  }

  /** A window fires `closed` only while its entry is still registered (the
      entry is removed by that very event), so the `window-closed` message
      the renderer receives always names an identifier `openAIWindow`
      handed out. */
  lemma ClosedNotifiesIssuedId(s: State, id: string)
    requires Valid(s)
    requires id in s.aiWindows
    ensures forall e | e in AIWindowClosed(s, id).effects ::
      e == SendWindowClosed(id) && Issued(id, s.windowCounter)
  {
  }

  /** Every `closed` event in the run belongs to a window that is still
      registered when it fires. In main.ts this holds by construction: the
      callback is registered only after `new BrowserWindow` succeeded, it
      captures the `windowId` under which that window is stored, and the
      entry is deleted only by that callback. */
  predicate ClosedEventsRegistered(s: State, es: seq<Event>)
    requires Valid(s)
    decreases |es|
  {
    |es| == 0 ||
    ((es[0].AIWindowClosedEvent? ==> es[0].id in s.aiWindows)
     && ClosedEventsRegistered(Apply(s, es[0]).state, es[1..]))
  }

  /** Every effect produced while delivering `es`, in order. */
  function RunEffects(s: State, es: seq<Event>): (fx: seq<Effect>)
    requires Valid(s)
    decreases |es|
  {
    if |es| == 0 then []
    else
      var step := Apply(s, es[0]);
      step.effects + RunEffects(step.state, es[1..])
  }

  /** One event: a `window-closed` message it sends comes from a `closed`
      event and names that event's identifier, which is registered. */
  lemma ApplyNotifiesRegistered(s: State, e: Event)
    requires Valid(s)
    requires e.AIWindowClosedEvent? ==> e.id in s.aiWindows
    ensures forall x | x in Apply(s, e).effects && x.SendWindowClosed? ::
      e.AIWindowClosedEvent? && x.id == e.id && x.id in s.aiWindows
  {
  }

  /** After one event every key was a key before or is the identifier the
      event handed out. */
  lemma ApplyKeys(s: State, e: Event)
    requires Valid(s)
    ensures forall k | k in Apply(s, e).state.aiWindows ::
      k in s.aiWindows || k in IssuedBy(Apply(s, e).reply)
  {
  }

  /** One step of a run, unfolded. */
  lemma RunUnfold(s: State, es: seq<Event>)
    requires Valid(s)
    requires |es| > 0
    ensures var step := Apply(s, es[0]);
      && Run(s, es).1 == IssuedBy(step.reply) + Run(step.state, es[1..]).1
      && RunEffects(s, es) == step.effects + RunEffects(step.state, es[1..])
      && (ClosedEventsRegistered(s, es) ==> ClosedEventsRegistered(step.state, es[1..]))
  {
  }

  /** In a run whose `closed` events come from registered windows, every
      `window-closed` message the renderer receives names a window that was
      registered when the run started or was opened during the run. */
  lemma {:induction false} RunNotifiesOnlyIssued(s: State, es: seq<Event>)
    requires Valid(s)
    requires ClosedEventsRegistered(s, es)
    ensures forall x | x in RunEffects(s, es) && x.SendWindowClosed? ::
      x.id in s.aiWindows || x.id in Run(s, es).1
    decreases |es|
  {
    if |es| > 0 {
      var step := Apply(s, es[0]);
      var rest := es[1..];
      RunUnfold(s, es);
      ApplyNotifiesRegistered(s, es[0]);
      ApplyKeys(s, es[0]);
      RunNotifiesOnlyIssued(step.state, rest);
      var mine := IssuedBy(step.reply);
      var later := Run(step.state, rest).1;
      forall x | x in RunEffects(s, es) && x.SendWindowClosed?
        ensures x.id in s.aiWindows || x.id in mine + later
      {
        if x in step.effects {
          assert x.id in s.aiWindows;
        } else {
          assert x in RunEffects(step.state, rest);
          assert x.id in step.state.aiWindows || x.id in later;
        }
      }
    }
  }

  /** A failed open registers no window, so no `closed` event can follow
      for the number it used up. */
  lemma FailedOpenHasNoClosedEvent()
    ensures !ClosedEventsRegistered(Init(), [OpenRequest("p", "u", None), AIWindowClosedEvent("ai-1")])
  {
    var es := [OpenRequest("p", "u", None), AIWindowClosedEvent("ai-1")];
    var t := Apply(Init(), es[0]).state;
    assert t.aiWindows == map[];
    assert es[1..][0] == AIWindowClosedEvent("ai-1");
  }

  /** Navigates the main window to each url in turn. */
  function NavigateAll(s: State, urls: seq<string>): (r: State)
    ensures r.aiWindows == s.aiWindows && r.windowCounter == s.windowCounter
    ensures r.mainWindow.Some? <==> s.mainWindow.Some?
    decreases |urls|
  {
    if |urls| == 0 then s else NavigateAll(NavigateToUrl(s, urls[0]), urls[1..])
  }

  /** After a non-empty series of navigations the main window shows the last
      url, and navigating back shows the application UI, however many
      navigations came before. With no main window nothing changes. */
  lemma {:induction false} NavigateBackRestoresApp(s: State, urls: seq<string>)
    ensures s.mainWindow.Some? && |urls| > 0 ==>
      NavigateAll(s, urls).mainWindow == Some(External(urls[|urls| - 1]))
    ensures s.mainWindow.Some? ==> NavigateToApp(NavigateAll(s, urls)).mainWindow == Some(AppUi)
    ensures s.mainWindow.None? ==> NavigateToApp(NavigateAll(s, urls)) == s
    decreases |urls|
  {
    if |urls| > 0 {
      var s' := NavigateToUrl(s, urls[0]);
      NavigateBackRestoresApp(s', urls[1..]);
      if |urls| > 1 {
        assert urls[1..][|urls[1..]| - 1] == urls[|urls| - 1];
      }
    }
  }

  /** The registry after opening ChatGPT and then Claude from start-up. */
  function ScenarioWindows(h1: Handle, h2: Handle): map<string, Entry> {
    map["ai-1" := Entry("ai-1", h1, "ChatGPT", "https://chat.openai.com"),
        "ai-2" := Entry("ai-2", h2, "Claude", "https://claude.ai")]
  }

  lemma ScenarioOpens(h1: Handle, h2: Handle)
    ensures var o1 := OpenAIWindow(Init(), "ChatGPT", "https://chat.openai.com", Some(h1));
      var o2 := OpenAIWindow(o1.state, "Claude", "https://claude.ai", Some(h2));
      && o1.reply == Success("ai-1")
      && o2.reply == Success("ai-2")
      && o2.state == State(Some(AppUi), ScenarioWindows(h1, h2), 2)
  {
    assert WindowId(1) == "ai-1" by { assert Decimal(1) == "1"; }
    assert WindowId(2) == "ai-2" by { assert Decimal(2) == "2"; }
  }

  lemma ScenarioListBoth(h1: Handle, h2: Handle)
    ensures ListUpTo(ScenarioWindows(h1, h2), 2)
         == [WindowInfo("ai-1", "ChatGPT", "https://chat.openai.com"),
             WindowInfo("ai-2", "Claude", "https://claude.ai")]
  {
    var w := ScenarioWindows(h1, h2);
    assert WindowId(1) == "ai-1" by { assert Decimal(1) == "1"; }
    assert WindowId(2) == "ai-2" by { assert Decimal(2) == "2"; }
    assert WindowId(1) in w && WindowId(2) in w;
    assert ListUpTo(w, 1) == ListUpTo(w, 0) + [Project(w[WindowId(1)])];
    assert ListUpTo(w, 2) == ListUpTo(w, 1) + [Project(w[WindowId(2)])];
  }

  lemma ScenarioListSecond(h1: Handle, h2: Handle)
    ensures ListUpTo(ScenarioWindows(h1, h2) - {"ai-1"}, 2)
         == [WindowInfo("ai-2", "Claude", "https://claude.ai")]
  {
    var w := ScenarioWindows(h1, h2) - {"ai-1"};
    assert WindowId(1) == "ai-1" by { assert Decimal(1) == "1"; }
    assert WindowId(2) == "ai-2" by { assert Decimal(2) == "2"; }
    assert WindowId(1) !in w && WindowId(2) in w;
    assert ListUpTo(w, 1) == ListUpTo(w, 0);
    assert ListUpTo(w, 2) == ListUpTo(w, 1) + [Project(w[WindowId(2)])];
  }

  /** Two windows opened from start-up, the first closed and its `closed`
      event delivered, then the first closed again. */
  lemma TwoWindowScenario(h1: Handle, h2: Handle)
    ensures
      var o1 := OpenAIWindow(Init(), "ChatGPT", "https://chat.openai.com", Some(h1));
      var o2 := OpenAIWindow(o1.state, "Claude", "https://claude.ai", Some(h2));
      var c1 := CloseAIWindow(o2.state, "ai-1");
      var ev := AIWindowClosed(c1.state, "ai-1");
      var c2 := CloseAIWindow(ev.state, "ai-1");
      && o1.reply == Success("ai-1")
      && o2.reply == Success("ai-2")
      && GetOpenWindows(o2.state)
         == [WindowInfo("ai-1", "ChatGPT", "https://chat.openai.com"),
             WindowInfo("ai-2", "Claude", "https://claude.ai")]
      && c1.reply && c1.effects == [CloseWindow(h1)]
      && GetOpenWindows(c1.state) == GetOpenWindows(o2.state)
      && ev.effects == [SendWindowClosed("ai-1")]
      && GetOpenWindows(ev.state) == [WindowInfo("ai-2", "Claude", "https://claude.ai")]
      && !c2.reply && c2.effects == []
  {
    ScenarioOpens(h1, h2);
    ScenarioListBoth(h1, h2);
    ScenarioListSecond(h1, h2);
  }
}
