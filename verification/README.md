# combine.ai window registry and platform catalog, in Dafny

This project models the two pieces of the combine.ai desktop shell that are
logic rather than UI:

- **The AI window registry of the Electron main process** (`AIWrapperApp` in
  `src/main/main.ts`). It is a map from window identifier to AI window, a
  counter that identifiers `ai-1`, `ai-2`, … are drawn from, and the main
  window, which becomes null once it has closed. The IPC handlers
  `open-ai-window`, `close-ai-window`, `focus-window`, `get-open-windows`,
  `navigate-to-url` and `navigate-to-app` are pure transitions. So are the
  windows' `closed` events. Each transition returns the next state, the
  handler's reply, and the calls it makes into the window toolkit (`Effect`).
- **The platform catalog** (`src/renderer/src/data/aiPlatforms.ts`). It is the
  eight-entry `aiPlatforms` constant with `getPlatformsByCategory` (a filter)
  and `getPlatformById` (a find).

Files:

- `wrappers.dfy`: `Option` and `Result`.
- `window_ids.dfy`: rendering `"ai-" + n` and a parser. The parser exists only
  to state that rendering is injective.
- `registry.dfy`: the state, the invariant `Valid`, and every handler and event.
- `session.dfy`: a single `Apply` for any event, runs of events, and lemmas
  that relate several transitions.
- `platforms.dfy`: the catalog and its lookups.

The native `BrowserWindow` is the abstract type `Registry.Handle`. The
toolkit's answer to `new BrowserWindow` is the `created` parameter of
`OpenAIWindow`: the new handle, or `None` when construction throws. The
counter is pre-incremented before construction. A failed open therefore
still uses up its number, and the error reaches the IPC caller as
`Failure(WindowCreationFailed)`.

`Valid` holds in every reachable state: each key is its own entry's `id` and
was rendered from a counter value in `1..windowCounter`. `Init` establishes
it, and every transition keeps it (`Session.Apply`). `GetOpenWindows`
assumes it, because listing walks the counter values.

JavaScript's `Map` iterates in insertion order. `GetOpenWindows` lists by
ascending counter value. Two lemmas show that this is the same order: a
successful open appends its record at the end of the listing
(`Registry.OpenAppendsRecord`), and a `closed` event drops one record and
keeps the others in order (`Registry.ClosedRemovesRecord`).

`closeAIWindow` only asks the window to close. The entry is deleted by the
window's `closed` event. Until that event, the entry is still listed and a
second close answers true again (`Session.CloseIsOnlyARequest`,
`Session.TwoWindowScenario`).

No mode variable tracks navigation. The model records what the main window
has loaded, as `mainWindow: Option<Content>`. It is `None` after the main
window's `closed` event, and the navigation handlers do nothing then.

An AI window's `closed` callback is registered only after `new BrowserWindow`
succeeds (src/main/main.ts:195-218). It captures the `windowId` under which
the window is stored, and the entry is deleted only by that callback. The
model delivers that id with the event. `Session.ClosedEventsRegistered`
states this of a run: every `closed` event names a registered window. Under
it, `Session.RunNotifiesOnlyIssued` proves that every `window-closed` message
names a window that was registered at the start or opened during the run.

## Model

| member | source | states |
|---|---|---|
| WindowIds.WindowId | src/main/main.ts:193 | the identifier for counter value n starts with `ai-` and reads back as n |
| WindowIds.DecimalRoundTrip | src/main/main.ts:193 | reading back the decimal rendering of n yields n |
| WindowIds.WindowIdInjective | src/main/main.ts:193 | two counter values give the same identifier only if they are equal |
| Registry.Init | src/main/main.ts:13-25 | at start-up the main window shows the app, no AI window is registered, the counter is 0, and the invariant holds |
| Registry.CreateMainWindow | src/main/main.ts:41-72 | a new main window shows the app UI; registry and counter are untouched |
| Registry.MainWindowClosed | src/main/main.ts:69-71 | the main window's `closed` event makes it null; registry and counter are untouched |
| Registry.OpenAIWindow | src/main/main.ts:192-234 | the counter goes up by one even if window creation fails. On success the reply is `ai-<counter>`, which was not a key before, its entry holds that id, the handle, platform and url, the new window loads url, and every other key and entry is unchanged. On failure the reply is `WindowCreationFailed` and the registry is unchanged |
| Registry.FreshIdNotRegistered | src/main/main.ts:193 | in a valid state the next identifier is not yet a key |
| Registry.CloseAIWindow | src/main/main.ts:236-243 | the reply is true iff the id is registered, and then exactly that window is asked to close. Otherwise there is no effect. The state never changes |
| Registry.Focus | src/main/main.ts:165-172 | the reply is true iff the id is registered, and then exactly that window is focused; the state never changes |
| Registry.AIWindowClosed | src/main/main.ts:215-218 | removes exactly the captured id, leaves every other entry and the counter unchanged, and sends `window-closed` with that id iff the main window is non-null |
| Registry.NavigateToUrl | src/main/main.ts:175-179 | an existing main window shows url; with no main window nothing changes; the registry is untouched |
| Registry.NavigateToApp | src/main/main.ts:181-189 | an existing main window shows the app UI; with no main window nothing changes; the registry is untouched |
| Registry.ListUpTo | src/main/main.ts:157-163 | lists exactly the entries whose identifiers were rendered from 1..n, each projected to id, platform and url, by strictly ascending counter value |
| Registry.GetOpenWindows | src/main/main.ts:157-163 | one record per registered window, with the ids being exactly the registry's keys. Each record is its entry's id, platform and url, with no handle. Records come by ascending counter value, and there are as many records as entries |
| Registry.OpenAppendsRecord | src/main/main.ts:226-233 | after a successful open, the listing is the old listing with the new window's record appended last, which is Map insertion order |
| Registry.Without | src/main/main.ts:216 | the list with the records for one id dropped has no record with that id, and only records of the input |
| Registry.ClosedRemovesRecord | src/main/main.ts:215-216 | after a `closed` event, the listing is the old listing without that id's record, with the others in the same order |
| Session.Apply | src/main/main.ts:148-190 | every handler and event keeps the invariant. Only an open moves the counter, by one, and a successful open replies with the identifier of the new counter value. Every handler except open and the `closed` event leaves the registry unchanged |
| Session.Run | src/main/main.ts:193 | over any run of events, the issued identifiers are rendered from counter values above the starting one, all within the final counter, and strictly increasing |
| Session.RunNeverReissues | src/main/main.ts:15 | no identifier is issued twice, and none issued before the run is issued again, even after its window has closed |
| Session.FirstIdentifiers | src/main/main.ts:193 | the first two windows opened after start-up get `ai-1` and `ai-2` |
| Session.CloseIsOnlyARequest | src/main/main.ts:236-243 | after closing a registered id the entry is still listed, and a second close answers true again |
| Session.ClosedEventRemoves | src/main/main.ts:215-216 | after the `closed` event the id is no longer listed and the list shrinks by exactly one. Every other record is still listed. Close and focus on that id then answer false |
| Session.ClosedNotifiesIssuedId | src/main/main.ts:217 | a `window-closed` message for a registered window names an identifier that was handed out |
| Session.ApplyNotifiesRegistered | src/main/main.ts:215-217 | a `window-closed` message sent by one event comes from a `closed` event, names that event's id, and that id was registered |
| Session.ApplyKeys | src/main/main.ts:226-233 | after one event, every key was a key before or is the id that event's open handed out |
| Session.FailedOpenHasNoClosedEvent | src/main/main.ts:193-215 | a failed open registers nothing, so a `closed` event for the number it used up breaks the run condition |
| Session.RunNotifiesOnlyIssued | src/main/main.ts:215-217 | in a run whose `closed` events name registered windows, every `window-closed` message names a window registered at the start or successfully opened during the run |
| Session.NavigateAll | src/main/main.ts:175-179 | a series of navigations never touches the registry and never brings back a null main window |
| Session.NavigateBackRestoresApp | src/main/main.ts:175-189 | after navigations the main window shows the last url. Navigating back shows the app UI, whatever came before. With no main window, both are no-ops |
| Session.ScenarioOpens | src/main/main.ts:192-234 | opening ChatGPT then Claude from start-up yields `ai-1` and `ai-2` and exactly those two entries |
| Session.ScenarioListBoth | src/main/main.ts:157-163 | those two entries are listed as `ai-1`, then `ai-2` |
| Session.ScenarioListSecond | src/main/main.ts:157-163 | after `ai-1`'s `closed` event only `ai-2` is listed |
| Session.TwoWindowScenario | src/main/main.ts:215-243 | open two, close `ai-1` (true, still listed), deliver its `closed` event (notifies, no longer listed), close `ai-1` again (false, no effect) |
| Platforms.SelectCategory | src/renderer/src/data/aiPlatforms.ts:78-80 | the filter is no longer than its input, and every platform it keeps has the requested category |
| Platforms.SelectIsSubsequence | src/renderer/src/data/aiPlatforms.ts:78-80 | the filter result is a subsequence of the input, so order is kept |
| Platforms.SelectCounts | src/renderer/src/data/aiPlatforms.ts:78-80 | the filter keeps every platform of the category as often as the input has it, and nothing else |
| Platforms.SelectMembership | src/renderer/src/data/aiPlatforms.ts:79 | a platform is in the filter result iff it is in the input with that category |
| Platforms.GetPlatformsByCategory | src/renderer/src/data/aiPlatforms.ts:78-80 | the result is a subsequence of the catalog, and holds exactly the catalog platforms of that category |
| Platforms.FindById | src/renderer/src/data/aiPlatforms.ts:83 | the result is none iff no platform has the id. Otherwise it has the id and is the first platform in list order that does |
| Platforms.GetPlatformById | src/renderer/src/data/aiPlatforms.ts:82-84 | a found platform is in the catalog and has the id; the result is none iff no catalog platform has it |
| Platforms.FindByIdUnique | src/renderer/src/data/aiPlatforms.ts:83 | with distinct ids, find answers p iff p is in the list with that id |
| Platforms.CatalogShape | src/renderer/src/data/aiPlatforms.ts:3-76 | the catalog has 8 platforms with pairwise distinct ids |
| Platforms.GetPlatformByIdExact | src/renderer/src/data/aiPlatforms.ts:82-84 | `getPlatformById(id)` is p iff p is the catalog platform with that id |
| Platforms.SelectionsDisjoint | src/renderer/src/data/aiPlatforms.ts:78-80 | filters for two different category names share no platform |
| Platforms.SelectionsPartition | src/renderer/src/types/index.ts:8 | the filters for the four categories together hold the list exactly, as a multiset |
| Platforms.CatalogCategories | src/renderer/src/data/aiPlatforms.ts:3-76 | the catalog has five chat, two coding and one research platform, and none is creative |
| Platforms.UnknownCategoryEmpty | src/renderer/src/data/aiPlatforms.ts:78-80 | a string that names no category selects nothing |

## Left out

- Electron's window options, `loadFile`, `ready-to-show`/`show`, `openDevTools`, `setWindowOpenHandler` and `shell.openExternal` (src/main/main.ts:42-67, 195-224) are foreign calls into the toolkit. The handle is opaque. The only recorded effects are the loads, focus and close calls on AI windows and the `window-closed` message.
- `isDev` (from `./utils`, which is not part of this model) chooses between the dev server and the bundled `index.html`. Both load the app UI, so `navigate-to-app` and `createMainWindow` set `AppUi` in either case.
- The menu (`setupMenu`), `window-all-closed` and the `activate` condition (src/main/main.ts:28-38, 74-146) are static configuration and platform lifecycle. `activate` is covered only as `Registry.CreateMainWindow`, with its "no windows left" test left to the caller.
- Session.Apply: accepts a `closed` event for any id. In main.ts the id is the one the window's callback captured at creation. That restriction is the predicate `Session.ClosedEventsRegistered`, a precondition of `Session.RunNotifiesOnlyIssued`, not of `Apply`.
- Registry.OpenAIWindow: the counter is an unbounded natural. In the source it is a JavaScript number that stops counting exactly after 2^53 opens, which is out of practical reach.
- Registry.GetOpenWindows: requires the reachable-state invariant `Valid`, which `Init` establishes and `Session.Apply` preserves.
- IPC delivery is asynchronous in the source. Here every request and event is one serialized transition, and no interleaving inside a handler is modelled.
- `src/main/preload.ts` is pure IPC pass-through. Its `open-external` and `open-auth-popup` channels have no handler in main.ts.
- `App.tsx` and the React components (Sidebar, MainContent, PlatformCard, OpenWindowsList, SettingsDialog, StatusIndicator, AIIcon) are presentation and webview embedding. Their helpers wrap builtins such as Unicode `toLowerCase`.
- `scripts/dev.js` does process spawning, timers and signals. `AppSettings` is plain configuration that nothing interprets.
- Both catalog lookups leave the catalog unchanged by construction, because `Catalog` is an immutable value. No member states that.
