/** The window bookkeeping of the Electron main process (`AIWrapperApp` in
    src/main/main.ts): a map from window identifier to AI window, a counter
    the identifiers are drawn from, and the main window, which is null once
    it has been closed. Every IPC handler and every window event is a pure
    transition from one `State` to the next; the calls it makes into the
    native window toolkit are returned as a list of `Effect`s. */
module Registry {
  import opened Wrappers
  import opened WindowIds

  /** A native `BrowserWindow`, owned by the host toolkit. The model only
      passes handles around and compares them. */
  type Handle(==)

  /** What the main window displays: the application's own UI (the renderer
      bundle or the dev server) or a platform's site loaded in its place. */
  datatype Content = AppUi | External(url: string)

  /** One tracked AI window (the `AIWindow` interface of main.ts). */
  datatype Entry = Entry(id: string, window: Handle, platform: string, url: string)

  /** The record `get-open-windows` sends to the renderer: an entry without
      its window handle. */
  datatype WindowInfo = WindowInfo(id: string, platform: string, url: string)

  datatype State = State(
    mainWindow: Option<Content>,
    aiWindows: map<string, Entry>,
    windowCounter: nat)

  /** Calls into the window toolkit and messages to the renderer. */
  datatype Effect =
    | LoadUrl(window: Handle, url: string)
    | FocusWindow(window: Handle)
    | CloseWindow(window: Handle)
    | SendWindowClosed(id: string)

  /** `new BrowserWindow` threw; the exception reaches the IPC caller. */
  datatype OpenError = WindowCreationFailed

  /** The outcome of one transition. */
  datatype Step<R> = Step(state: State, reply: R, effects: seq<Effect>)

  /** The counter value an identifier was rendered from (0 when it was not
      rendered by `WindowId`). */
  function Serial(id: string): nat {
    match ParseWindowId(id)
    case Some(n) => n
    case None => 0
  }

  /** `id` is one of the identifiers handed out while the counter went up to
      `counter`. */
  predicate Issued(id: string, counter: nat) {
    ParseWindowId(id).Some? && 1 <= Serial(id) <= counter && WindowId(Serial(id)) == id
  }

  /** The invariant of every reachable state: each key is the `id` of its own
      entry and an identifier already handed out. */
  predicate Valid(s: State) {
    forall k | k in s.aiWindows :: s.aiWindows[k].id == k && Issued(k, s.windowCounter)
  }

  function Project(e: Entry): WindowInfo {
    WindowInfo(e.id, e.platform, e.url)
  }

  function IdsOf(ws: seq<WindowInfo>): set<string> {
    set i | 0 <= i < |ws| :: ws[i].id
  }

  /** The state right after start-up: the main window shows the application,
      no AI window is open and the counter is 0. */
  function Init(): (s: State)
    ensures Valid(s)
    ensures s.mainWindow == Some(AppUi) && s.aiWindows == map[] && s.windowCounter == 0
  {
    State(Some(AppUi), map[], 0)
  }

  /** `createMainWindow`: a fresh main window loading the application UI
      (at start-up and on `activate`). The registry is not touched. */
  function CreateMainWindow(s: State): (r: State)
    ensures r.mainWindow == Some(AppUi)
    ensures r.aiWindows == s.aiWindows && r.windowCounter == s.windowCounter
    ensures Valid(s) ==> Valid(r)
  {
    s.(mainWindow := Some(AppUi))
  }

  /** The main window's `closed` event sets it to null. */
  function MainWindowClosed(s: State): (r: State)
    ensures r.mainWindow.None?
    ensures r.aiWindows == s.aiWindows && r.windowCounter == s.windowCounter
    ensures Valid(s) ==> Valid(r)
  {
    s.(mainWindow := None)
  }

  /** `openAIWindow(platform, url)`. The counter is incremented before the
      window is constructed, so the number is used up even when `created`
      (the toolkit's answer to `new BrowserWindow`) is a failure. On success
      the new window is told to load `url` and is registered under the new
      identifier; nothing else in the registry changes. */
  function OpenAIWindow(s: State, platform: string, url: string, created: Option<Handle>)
    : (r: Step<Result<string, OpenError>>)
    ensures r.state.windowCounter == s.windowCounter + 1
    ensures r.state.mainWindow == s.mainWindow
    ensures created.None? ==>
      && r.reply == Failure(WindowCreationFailed)
      && r.state.aiWindows == s.aiWindows
      && r.effects == []
    ensures created.Some? ==>
      && r.reply == Success(WindowId(r.state.windowCounter))
      && r.reply.value in r.state.aiWindows
      && r.state.aiWindows[r.reply.value] == Entry(r.reply.value, created.value, platform, url)
      && r.effects == [LoadUrl(created.value, url)]
    ensures forall k | k != WindowId(r.state.windowCounter) ::
      && (k in r.state.aiWindows <==> k in s.aiWindows)
      && (k in s.aiWindows ==> r.state.aiWindows[k] == s.aiWindows[k])
    ensures Valid(s) ==> Valid(r.state)
    ensures Valid(s) && created.Some? ==>
      r.reply.value !in s.aiWindows && |r.state.aiWindows| == |s.aiWindows| + 1
  {
    var counter := s.windowCounter + 1;
    var id := WindowId(counter);
    match created
    case None =>
      Step(s.(windowCounter := counter), Failure(WindowCreationFailed), [])
    case Some(h) =>
      FreshIdNotRegistered(s);
      var windows := s.aiWindows[id := Entry(id, h, platform, url)];
      Step(State(s.mainWindow, windows, counter), Success(id), [LoadUrl(h, url)])
  }

  /** The identifier the counter will produce next is not a key yet. */
  lemma FreshIdNotRegistered(s: State)
    ensures Valid(s) ==> WindowId(s.windowCounter + 1) !in s.aiWindows
  {
    assert Serial(WindowId(s.windowCounter + 1)) == s.windowCounter + 1;
  }

  /** `closeAIWindow(id)`: asks the toolkit to close the window and answers
      true when `id` is registered, answers false otherwise. Either way the
      state is untouched: the entry leaves the registry only when the
      window's `closed` event fires. */
  function CloseAIWindow(s: State, id: string): (r: Step<bool>)
    ensures r.state == s
    ensures r.reply <==> id in s.aiWindows
    ensures r.reply ==> r.effects == [CloseWindow(s.aiWindows[id].window)]
    ensures !r.reply ==> r.effects == []
  {
    if id in s.aiWindows then Step(s, true, [CloseWindow(s.aiWindows[id].window)])
    else Step(s, false, [])
  }

  /** The `focus-window` handler: focuses the window and answers true when
      `id` is registered, answers false otherwise; never changes the state. */
  function Focus(s: State, id: string): (r: Step<bool>)
    ensures r.state == s
    ensures r.reply <==> id in s.aiWindows
    ensures r.reply ==> r.effects == [FocusWindow(s.aiWindows[id].window)]
    ensures !r.reply ==> r.effects == []
  {
    if id in s.aiWindows then Step(s, true, [FocusWindow(s.aiWindows[id].window)])
    else Step(s, false, [])
  }

  /** The `closed` event of the AI window created under `id`: removes exactly
      that key and, if the main window still exists, tells the renderer. */
  function AIWindowClosed(s: State, id: string): (r: Step<()>)
    ensures id !in r.state.aiWindows
    ensures forall k | k != id ::
      && (k in r.state.aiWindows <==> k in s.aiWindows)
      && (k in s.aiWindows ==> r.state.aiWindows[k] == s.aiWindows[k])
    ensures r.state.mainWindow == s.mainWindow && r.state.windowCounter == s.windowCounter
    ensures r.effects == if s.mainWindow.Some? then [SendWindowClosed(id)] else []
    ensures Valid(s) ==> Valid(r.state)
  {
    var notify := if s.mainWindow.Some? then [SendWindowClosed(id)] else [];
    Step(s.(aiWindows := s.aiWindows - {id}), (), notify)
  }

  /** The `navigate-to-url` handler: the main window, if it exists, loads
      `url` in place of the application UI. */
  function NavigateToUrl(s: State, url: string): (r: State)
    ensures s.mainWindow.Some? ==> r.mainWindow == Some(External(url))
    ensures s.mainWindow.None? ==> r.mainWindow.None?
    ensures r.aiWindows == s.aiWindows && r.windowCounter == s.windowCounter
    ensures Valid(s) ==> Valid(r)
  {
    if s.mainWindow.Some? then s.(mainWindow := Some(External(url))) else s
  }

  /** The `navigate-to-app` handler: the main window, if it exists, goes back
      to the application UI. */
  function NavigateToApp(s: State): (r: State)
    ensures s.mainWindow.Some? ==> r.mainWindow == Some(AppUi)
    ensures s.mainWindow.None? ==> r.mainWindow.None?
    ensures r.aiWindows == s.aiWindows && r.windowCounter == s.windowCounter
    ensures Valid(s) ==> Valid(r)
  {
    if s.mainWindow.Some? then s.(mainWindow := Some(AppUi)) else s
  }

  /** The entries whose identifiers were rendered from 1..n, by ascending
      counter value. */
  function ListUpTo(windows: map<string, Entry>, n: nat): (r: seq<WindowInfo>)
    requires forall k | k in windows :: windows[k].id == k
    ensures forall i | 0 <= i < |r| :: r[i].id in windows && r[i] == Project(windows[r[i].id])
    ensures forall i | 0 <= i < |r| :: Issued(r[i].id, n)
    ensures forall i, j | 0 <= i < j < |r| :: Serial(r[i].id) < Serial(r[j].id)
    ensures IdsOf(r) == set k | k in windows && Issued(k, n)
    decreases n
  {
    if n == 0 then []
    else
      var prev := ListUpTo(windows, n - 1);
      var id := WindowId(n);
      var here := if id in windows then [Project(windows[id])] else [];
      IssuedStep(windows, n);
      assert IdsOf(prev + here) == IdsOf(prev) + IdsOf(here) by {
        IdsOfAppend(prev, here);
      }
      assert IdsOf(here) == if id in windows then {id} else {} by {
        if id in windows {
          assert here[0].id == id;
        }
      }
      prev + here
  }

  lemma IdsOfAppend(a: seq<WindowInfo>, b: seq<WindowInfo>)
    ensures IdsOf(a + b) == IdsOf(a) + IdsOf(b)
  {
    var ab := a + b;
    forall k | k in IdsOf(a + b) ensures k in IdsOf(a) + IdsOf(b) {
      var i :| 0 <= i < |ab| && ab[i].id == k;
      if i >= |a| {
        assert b[i - |a|].id == k;
      }
    }
    forall k | k in IdsOf(a) ensures k in IdsOf(a + b) {
      var i :| 0 <= i < |a| && a[i].id == k;
      assert ab[i].id == k;
    }
    forall k | k in IdsOf(b) ensures k in IdsOf(a + b) {
      var i :| 0 <= i < |b| && b[i].id == k;
      assert ab[|a| + i].id == k;
    }
  }

  /** Raising the bound from n - 1 to n adds exactly `WindowId(n)`. */
  lemma IssuedStep(windows: map<string, Entry>, n: nat)
    requires n >= 1
    ensures (set k | k in windows && Issued(k, n))
         == (set k | k in windows && Issued(k, n - 1))
            + (if WindowId(n) in windows then {WindowId(n)} else {})
  {
    assert Serial(WindowId(n)) == n;
  }

  /** The `get-open-windows` handler: one record per registered window, each
      the entry's id, platform and url and nothing else, by ascending
      identifier number, which is the order in which the windows were
      inserted into the map. */
  function GetOpenWindows(s: State): (r: seq<WindowInfo>)
    requires Valid(s)
    ensures forall i | 0 <= i < |r| :: r[i].id in s.aiWindows && r[i] == Project(s.aiWindows[r[i].id])
    ensures IdsOf(r) == s.aiWindows.Keys
    ensures forall i, j | 0 <= i < j < |r| :: Serial(r[i].id) < Serial(r[j].id)
    ensures |r| == |s.aiWindows|
  {
    var r := ListUpTo(s.aiWindows, s.windowCounter);
    assert (set k | k in s.aiWindows && Issued(k, s.windowCounter)) == s.aiWindows.Keys;
    DistinctIdsCount(r);
    r
  }

  /** A list whose identifiers are pairwise distinct has as many identifiers
      as records. */
  lemma {:induction false} DistinctIdsCount(ws: seq<WindowInfo>)
    requires forall i, j | 0 <= i < j < |ws| :: Serial(ws[i].id) < Serial(ws[j].id)
    ensures |IdsOf(ws)| == |ws|
  {
    if |ws| > 0 {
      var init := ws[..|ws| - 1];
      var last := ws[|ws| - 1];
      DistinctIdsCount(init);
      assert IdsOf(ws) == IdsOf(init) + {last.id};
      assert last.id !in IdsOf(init) by {
        forall i | 0 <= i < |init| ensures init[i].id != last.id {
          assert Serial(ws[i].id) < Serial(ws[|ws| - 1].id);
        }
      }
    }
  }

  /** Two maps that agree on the identifiers rendered from 1..n list the
      same records up to n. */
  lemma {:induction false} ListUpToAgree(w1: map<string, Entry>, w2: map<string, Entry>, n: nat)
    requires forall k | k in w1 :: w1[k].id == k
    requires forall k | k in w2 :: w2[k].id == k
    requires forall m | 1 <= m <= n ::
      (WindowId(m) in w1 <==> WindowId(m) in w2)
      && (WindowId(m) in w1 ==> w1[WindowId(m)] == w2[WindowId(m)])
    ensures ListUpTo(w1, n) == ListUpTo(w2, n)
    decreases n
  {
    if n > 0 {
      ListUpToAgree(w1, w2, n - 1);
    }
  }

  /** A successful open appends the new window's record at the end of the
      listing: the order of `get-open-windows` is the order of insertion. */
  lemma OpenAppendsRecord(s: State, platform: string, url: string, h: Handle)
    requires Valid(s)
    ensures GetOpenWindows(OpenAIWindow(s, platform, url, Some(h)).state)
         == GetOpenWindows(s) + [WindowInfo(WindowId(s.windowCounter + 1), platform, url)]
  {
    var t := OpenAIWindow(s, platform, url, Some(h)).state;
    var n := s.windowCounter;
    forall m | 1 <= m <= n
      ensures (WindowId(m) in t.aiWindows <==> WindowId(m) in s.aiWindows)
      ensures WindowId(m) in t.aiWindows ==> t.aiWindows[WindowId(m)] == s.aiWindows[WindowId(m)]
    {
      WindowIdInjective(m, n + 1);
    }
    ListUpToAgree(t.aiWindows, s.aiWindows, n);
  }

  /** `ws` without the records for `id`, order kept. */
  function Without(ws: seq<WindowInfo>, id: string): (r: seq<WindowInfo>)
    ensures |r| <= |ws|
    ensures forall i | 0 <= i < |r| :: r[i].id != id && r[i] in ws
    decreases |ws|
  {
    if |ws| == 0 then []
    else
      var last := ws[|ws| - 1];
      var init := Without(ws[..|ws| - 1], id);
      assert forall i | 0 <= i < |init| :: init[i] in ws by {
        forall i | 0 <= i < |init| ensures init[i] in ws {
          assert init[i] in ws[..|ws| - 1];
        }
      }
      init + (if last.id == id then [] else [last])
  }

  /** `Without` keeps every record whose id differs from `id`. */
  lemma {:induction false} WithoutKeepsOthers(ws: seq<WindowInfo>, id: string)
    ensures forall w | w in ws && w.id != id :: w in Without(ws, id)
    decreases |ws|
  {
    if |ws| > 0 {
      var init := ws[..|ws| - 1];
      WithoutKeepsOthers(init, id);
      assert ws == init + [ws[|ws| - 1]];
    }
  }

  /** One more counter value adds at most the record rendered from it. */
  lemma ListUpToStep(w: map<string, Entry>, n: nat)
    requires forall k | k in w :: w[k].id == k
    requires n >= 1
    ensures ListUpTo(w, n)
         == ListUpTo(w, n - 1) + (if WindowId(n) in w then [Project(w[WindowId(n)])] else [])
  {
  }

  /** Dropping records from a list with one more record at the end. */
  lemma WithoutSnoc(ws: seq<WindowInfo>, x: WindowInfo, id: string)
    ensures Without(ws + [x], id) == Without(ws, id) + (if x.id == id then [] else [x])
  {
    assert (ws + [x])[..|ws + [x]| - 1] == ws;
  }

  /** The step of `ListUpToWithout` from n - 1 to n, given the claim for
      n - 1. */
  lemma ListUpToWithoutStep(w: map<string, Entry>, id: string, n: nat)
    requires forall k | k in w :: w[k].id == k
    requires n >= 1
    requires ListUpTo(w - {id}, n - 1) == Without(ListUpTo(w, n - 1), id)
    ensures ListUpTo(w - {id}, n) == Without(ListUpTo(w, n), id)
  {
    var key := WindowId(n);
    if key in w {
      ListUpToWithoutPresent(w, id, n);
    } else {
      ListUpToStep(w, n);
      ListUpToStep(w - {id}, n);
      assert key !in w - {id};
      assert ListUpTo(w, n) == ListUpTo(w, n - 1);
      assert ListUpTo(w - {id}, n) == ListUpTo(w - {id}, n - 1);
    }
  }

  lemma ListUpToWithoutPresent(w: map<string, Entry>, id: string, n: nat)
    requires forall k | k in w :: w[k].id == k
    requires n >= 1 && WindowId(n) in w
    requires ListUpTo(w - {id}, n - 1) == Without(ListUpTo(w, n - 1), id)
    ensures ListUpTo(w - {id}, n) == Without(ListUpTo(w, n), id)
  {
    var key := WindowId(n);
    var rec := Project(w[key]);
    ListUpToStep(w, n);
    ListUpToStep(w - {id}, n);
    WithoutSnoc(ListUpTo(w, n - 1), rec, id);
    assert rec.id == key;
  }

  lemma {:induction false} ListUpToWithout(w: map<string, Entry>, id: string, n: nat)
    requires forall k | k in w :: w[k].id == k
    ensures ListUpTo(w - {id}, n) == Without(ListUpTo(w, n), id)
    decreases n
  {
    if n > 0 {
      ListUpToWithout(w, id, n - 1);
      ListUpToWithoutStep(w, id, n);
    }
  }

  /** The `closed` event removes exactly that window's record from the
      listing and keeps the order of the others. */
  lemma ClosedRemovesRecord(s: State, id: string)
    requires Valid(s)
    ensures GetOpenWindows(AIWindowClosed(s, id).state) == Without(GetOpenWindows(s), id)
  {
    ListUpToWithout(s.aiWindows, id, s.windowCounter);
  }
}
