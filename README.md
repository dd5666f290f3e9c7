# Background crossfade and deep-link launcher of a link-in-bio page

This project models the two event-driven parts of the page's script `app.js`
and proves properties of them in Dafny.

- **The background video crossfade** (`VideoBackground`). Two `<video>`
  elements, players 1 and 2, alternate. One is shown. The other holds the next
  clip, drawn at random from a pool of twenty clip URLs. Module `VideoPool`
  builds the pool and proves its twenty URLs distinct. Module
  `SourceSelection` models the two rejection-sampling loops:
  - the initial pair, drawn until the second index differs from the first;
  - `scheduleNextVideo`, drawn until the URL differs from both players'
    current sources.

  Module `Crossfade` holds the component as a class. Its fields are the
  shown player, the two sources, a ready flag per player
  (`readyState >= 4`), the one-shot `canplaythrough` listeners waiting on
  each player, the unsettled `play()` promises and the queued 1000 ms
  replacements. Each browser event is a method:
  - `HandleTransition` is `handleTransition`, which is also the `ended`
    handler;
  - `OnCanPlayThrough` is the `canplaythrough` event;
  - `OnPlaySettled` settles one play promise as played, `AbortError` or
    another error;
  - `HandlePlayerError` is the `error` handler;
  - `Tick` fires the oldest 1000 ms timer.

  The object invariant `Valid()` says that both players hold pool clips and
  never the same one. Every event preserves it.
- **The deep-link launcher** (`LinkCard`). Module `MobileDetection` models
  the user-agent test `/Mobi|Android|iPhone|iPad|iPod/i`. It is a search
  over positions, proved equal to "some marker occurs, ignoring ASCII case".
  Module `LinkCard` holds the click handler. Class `Page` stands for what the
  handler touches outside its closure:
  - `document.hidden`;
  - the registered `visibilitychange` listeners and the pending fallback
    timers, keyed by click number;
  - a log of navigations and new tabs.

  Its invariant says three things. A click's listener is registered exactly
  while its timer is pending. A cancelled click never opens its fallback.
  No click opens the fallback twice.

Randomness is an input. Each `Math.floor(Math.random() * 20)` is one entry of
a caller-supplied sequence `draws`. The real loops end only with probability
1, so a caller must supply a sequence that holds an acceptable draw.
`ThreeDrawsSuffice` shows that such a sequence always exists for a pool of
three or more distinct clips, the real one included: the draws 0, 1, 2.

## Model

| member | source | states |
|---|---|---|
| `VideoPool.DecimalStringInjective` | app.js:85 | two clip numbers with the same decimal rendering are equal |
| `VideoPool.ClipUrlInjective` | app.js:85 | different clip numbers give different clip URLs |
| `VideoPool.VideoSourcesDistinct` | app.js:85 | the pool has 20 entries and no two are equal |
| `SourceSelection.FirstFresh` | app.js:110-113 | the draw the replacement loop stops on: an index into the pool whose entry differs from both current sources, and every earlier draw was rejected |
| `SourceSelection.PickReplacement` | app.js:106-113 | the do-while loop returns the first drawn pool entry that differs from both current sources; every earlier draw hit one of them |
| `SourceSelection.PickInitialSources` | app.js:97-104 | player 1 gets the first draw; player 2 gets the first later draw whose index differs; for a distinct pool the two sources differ |
| `SourceSelection.ThreeDrawsSuffice` | app.js:110-113 | in any pool of three or more distinct clips, whatever the two current sources, the draws 0, 1, 2 hold one the replacement loop accepts, so the loop always has a target |
| `Crossfade.Other` | app.js:120 | the next player is never the current one |
| `Crossfade.ToggledParity` | app.js:120 | n transitions starting from a player show that player again exactly when n is even, and the other player otherwise |
| `Crossfade.DispatchAppend` | app.js:143-148 | listeners registered one after another issue their play requests in that order when `canplaythrough` fires |
| `Crossfade.DispatchCounts` | app.js:143-148 | a `canplaythrough` issues exactly one transition request for the player per waiting transition listener and one initial play per waiting initial listener |
| `Crossfade.DispatchOnlySlot` | app.js:143-148 | every request a `canplaythrough` issues is an initial play or a transition promoting that same player |
| `Crossfade.VideoBackground.constructor` | app.js:90-104 | at mount the two sources are distinct pool clips chosen by the initial loop, player 1 is shown, and `attemptInitialPlay` waits on player 1 |
| `Crossfade.VideoBackground.ScheduleNextVideo` | app.js:106-116 | the target player gets the first drawn clip that differs from both current sources; the other player's source, the shown player and all queues are unchanged; the two sources stay distinct |
| `Crossfade.VideoBackground.HandleTransition` | app.js:118-150 | the target is the player not shown; if it is ready a play request for it is issued now, otherwise a `PlayAndTransition` listener waits on it; the shown player and both sources are unchanged |
| `Crossfade.VideoBackground.OnCanPlayThrough` | app.js:143-148 | the player becomes ready and every listener waiting on it fires once, in order; nothing else changes |
| `Crossfade.VideoBackground.OnPlaySettled` | app.js:124-141 | a played transition shows its player and queues exactly one delayed replacement, for the player shown before; a non-abort failure replaces the failed player at once and leaves the shown player; an `AbortError` changes nothing; a failed initial play starts a transition, and an aborted or successful one changes nothing |
| `Crossfade.VideoBackground.HandlePlayerError` | app.js:152-158 | the errored player always gets a new source; a transition starts only if it was the shown player; the shown player does not change |
| `Crossfade.VideoBackground.Tick` | app.js:130-132 | the oldest queued replacement runs: its player gets a fresh source, the other player's source is unchanged |
| `Crossfade.EndedCycles` | app.js:118-150 | over n undisturbed ended-transition cycles, the shown player alternates with each transition and the two sources stay distinct pool clips |
| `Crossfade.ShownSlotReplacedScenario` | app.js:128-132 | transitions do not coalesce: an error between a transition and its delayed replacement leads the replacement to change the source of the player then shown |
| `Crossfade.TransitionFailureStallsScenario` | app.js:134-148 | after a transition's play fails with a non-abort error and the replacement clip becomes ready, player 1 is still shown and no play request, listener or replacement timer remains: nothing will ever play again |
| `MobileDetection.StartsWithFoldedMeans` | app.js:37 | the prefix matcher holds exactly when the marker equals, ignoring ASCII case, the string's prefix of the marker's length |
| `MobileDetection.AnyMarkerAtMeans` | app.js:37 | trying the alternatives at a position succeeds exactly when one of them occurs there |
| `MobileDetection.SearchFromMeans` | app.js:37 | the search from a position succeeds exactly when some marker occurs at or after that position |
| `MobileDetection.IsMobileIff` | app.js:37 | `isMobile` holds exactly when the user agent contains, ignoring case, "Mobi", "Android", "iPhone", "iPad" or "iPod" |
| `MobileDetection.IsMobileIgnoresCase` | app.js:37 | user agents equal up to ASCII case are classified alike |
| `MobileDetection.MarkerMakesMobile` | app.js:37 | a user agent with any marker written into it, in any case, is mobile |
| `LinkCard.Page.Click` | app.js:39-66 | the fallback is engaged exactly when the client is mobile and `mobileUrl` is set; it registers the listener, sets the timer and navigates to `mobileUrl`; otherwise nothing is registered and the anchor opens `link.url` in a new tab |
| `LinkCard.Page.VisibilityChange` | app.js:43-50 | turning hidden clears every pending timer and removes every listener, and no tab opens; turning visible changes nothing |
| `LinkCard.Page.FallbackTimerFires` | app.js:54-62 | a pending timer removes its listener and opens `link.url` only if the page is still visible; a cleared or already fired timer opens nothing; no click ever opens two fallback tabs |
| `LinkCard.ClickKeepsConsistent` | app.js:39-66 | a click opens no fallback tab, so every click's fallback count is unchanged, a newly armed click has opened none, and every earlier fallback tab still opens its own click's web URL |
| `LinkCard.FireKeepsConsistent` | app.js:54-62 | an armed click's timer, firing on a visible page, opens exactly one tab for that click, with its own web URL; after it no click has opened two fallback tabs |
| `LinkCard.AppOpensScenario` | app.js:43-62 | a deep-link click followed by the page turning hidden only navigates to the app URL; the web URL is never opened |
| `LinkCard.AppMissingScenario` | app.js:54-62 | a deep-link click on a page that stays visible navigates to the app URL and then opens the web URL exactly once |
| `LinkCard.DefaultClickScenario` | app.js:69-75 | a click that does not engage the deep link opens the web URL through the anchor, with no timer or listener |

## Left out

- `useLocalStorage`, the JSON-LD script, the audio toggle, the share button,
  the prompt and vanish timers, the rendering and the mount (app.js:6-33,
  214-424): persistence, DOM and UI wiring outside the two components.
- Unmount cleanup (app.js:180-184) only pauses the elements and removes the
  initial listener, so it is not modelled. The deep-link timer is not cleared
  on unmount either, and the model claims no teardown for it.
- Media loading and buffering are not modelled. `readyState >= 4` is a flag
  per player. `canplaythrough` sets it, a new source clears it, and it
  otherwise persists, including after a clip ends.
- Opacity transitions and the `console` diagnostics are not modelled.
- Real time is not modelled. The 1000 ms and 2500 ms delays are events. All
  1000 ms timers have the same delay, so `Tick` fires the oldest. Each
  fallback timer fires through its own event.
- Which promise settles, and how, is an input: the index `k` and the outcome
  of `OnPlaySettled`. In particular, the model does not tie an `AbortError`
  to the `load()` or source change that causes it in a browser.
- `play()` returning `undefined` (app.js:126) is not modelled, because every
  current browser returns a promise. The null checks on the element refs
  (app.js:123, 164) are not modelled either, because the elements are always
  attached while the component is mounted.
- `scheduleNextVideo` reads the elements' `src` (app.js:107-108). Two calls
  before a re-render could read stale values. The model reads the committed
  `videoSources` instead, and `activePlayerRef` is the `activePlayer` field
  itself.
- Liveness, that some player is eventually playing, is not claimed: the
  code does not have it. After a transition's `play()` fails with an error
  other than `AbortError`, nothing plays the replacement clip, even when
  every later load succeeds (see below).
- `SourceSelection.PickInitialSources`: the two sources are proved distinct
  only for a pool without repeated entries. The loop compares indices, not
  URLs. `VideoSourcesDistinct` proves that the real pool has no repeats.

## Behaviours kept as written

Four behaviours of `app.js` that the model keeps as written:

- Transitions are not coalesced. Two `ended` events, or `error` events on
  the shown player, before the hidden player is ready each add a `canplaythrough` listener, and each
  listener later issues its own play request. The model keeps a list of
  listeners per player for this reason.
- A late play result is not discarded. The delayed replacement targets the
  player that was shown when the transition began, not the player hidden
  when the timer fires. `Crossfade.ShownSlotReplacedScenario` shows a
  sequence of events where the replacement changes the source of the player
  being shown.
- A failed transition stalls the background. When a transition's `play()`
  fails with an error other than `AbortError` (app.js:134-138), only
  `scheduleNextVideo` runs. No listener then waits on the failed player, no
  replacement timer is pending, and the shown clip has already ended.
  `Crossfade.TransitionFailureStallsScenario` shows that, even after the new
  clip can play through, no play request, listener or timer is left.
- Sampling is not capped and has no fallback. The loops draw until they
  succeed.
