# Donor-alert pipeline of the helpchess widget pages

The widget pages (`dashboard`, `001`, `002`, `005`, `006`, `live/stats`, `live/alerts`) poll the
list of recent donors. They detect donors that were not in the previous snapshot, queue them as
on-screen donation alerts, and show them one at a time. Each alert has a sound and a dismissal
timeout. Most pages also have a bottom bar whose visible donor can be browsed while polling is
paused. Page 006 also runs a periodic "top donor" takeover that pauses polling and alerts. Page
001 only logs new donors and scrolls a marquee of all recent donors.

The model is one state record per mounted page (`Widgets.State`), changed by named transitions.
The seven pages share the record and differ in constants and policies (`Widgets.AlertMs`,
`Widgets.BrowsePolicy`, `Widgets.HasSync`, …). Timers are events. A timer that is not pending
never fires, except the dashboard's 1 s marks timeout, whose firing is a no-op when no marks are set. `Component.Widget` is the same page as an object: its fields are the React state
hooks, and each handler is a method proved to perform that transition.

Modules:

- `Donors`: the donor record, the poll reply, the new-donor detector, and name truncation.
- `Alerts`: the queue with its single on-screen slot, plus the interval cleanup as written (see Findings).
- `Browse`: the visible-donor cursor, with the three browse policies. Each handler exists as written and corrected.
- `TopDonors`: 006's takeover list and cycle.
- `Marquee`: 001's marquee string and its text toggle.
- `Widgets`: the per-page state record, the events, `Step`, `Run`, and the trace properties.
- `Component`: the class.

The main results:

- `Widgets.Step` keeps `Widgets.Valid`.
- With the corrected alert tick (one dismissal per alert started, see Findings), the alert line is first in, first out over any run. The donors shown are exactly a prefix of the donors queued, and each shown alert starts the sound at most once (`Widgets.RunConserves`, `Widgets.FromMount`). On 002, 005 and live/alerts the code as written does not keep this (`Alerts.StaleCleanupDropsTwo`).
- The first load never raises alerts.
- Re-running the diff changes nothing.
- The takeover pauses polling, alerts and sync, and always restores them.

## Model

| member | source | states |
|---|---|---|
| Donors.Find | src/pages/w/dashboard.jsx:654 | finds a donor exactly when one with the id exists in the previous snapshot, and then returns the first donor with that id, as `find` does |
| Donors.NewDonors | src/pages/w/dashboard.jsx:652-655 | a donor is new exactly when it is in the latest snapshot and its id is absent from the previous one; never longer than the latest snapshot |
| Donors.NewDonorsAppend | src/pages/w/005.jsx:373-376 | the detector distributes over concatenation, so it keeps the latest snapshot's order |
| Donors.NewDonorsSingle | src/pages/w/002.jsx:286-288 | one donor is new exactly when its id is not in the previous snapshot |
| Donors.EverythingNewOnFirstLoad | src/pages/w/001.jsx:234-236 | against an empty previous snapshot every donor is new, in order |
| Donors.NothingNewWhenAllKnown | src/pages/w/live/stats.jsx:219-221 | when every id is already known, nothing is new |
| Donors.NothingNewAgainstItself | src/pages/w/dashboard.jsx:652-662 | a snapshot compared with itself yields no new donor |
| Donors.FirstN | src/pages/w/dashboard.jsx:617 | `slice(0, n)`: a prefix of the list, exactly n elements long when the list is longer, the whole list otherwise |
| Donors.Truncate | src/pages/w/dashboard.jsx:712-715 | a name up to the limit is unchanged; a longer one is its first `limit` characters followed by "..." |
| Alerts.OnScreen | src/pages/w/dashboard.jsx:740-742 | the alert text is the queue head and nothing for an empty queue; while the box is shown it is the alert being displayed |
| Alerts.Enqueue | src/pages/w/dashboard.jsx:636-637 | new donors go after the existing entries; the flags and the pending timeout are untouched; the waiting line grows by exactly them |
| Alerts.Tick | src/pages/w/dashboard.jsx:527-551 | a tick starts an alert exactly when the queue is non-empty, no check is in progress and nothing blocks it; then it shows the head, sets both flags, schedules one dismissal and plays at most once; otherwise nothing changes; the head leaves the waiting line and nothing else does |
| Alerts.Dismiss | src/pages/w/dashboard.jsx:546-550 | the timeout drops exactly the head, keeps the rest in order and clears both flags; without a pending timeout nothing happens |
| Alerts.RawCheck | src/pages/w/005.jsx:256-274 | the callback as written: it starts an alert when its captured state allows, adding a timeout and a play to the live state |
| Alerts.RawTick | src/pages/w/005.jsx:276-284 | a tick as written with a startable queue starts it twice: two dismissal timeouts and, with audio on, two sounds; otherwise nothing changes |
| Alerts.RawFire | src/pages/w/005.jsx:268-272 | one of the timeouts as written: flags cleared, `slice(1)` on whatever the queue is then |
| Alerts.StaleCleanupDropsTwo | src/pages/w/005.jsx:276-284 | as written, one tick over [a, b] leaves two timeouts and two plays, and the two timeouts empty the queue without showing b |
| Alerts.EveryAlertShown | src/pages/w/live/alerts.jsx:133-151 | with one dismissal per start, [a, b] shows a, dismisses only a, then shows b, one sound each |
| Browse.Latest | src/pages/w/006.jsx:498-507 | the latest donor at index 0, or the placeholder exactly when the snapshot is empty |
| Browse.ToLatest | src/pages/w/005.jsx:391-403 | sync on, index 0, coherent with the snapshot |
| Browse.Prev | src/pages/w/005.jsx:405-415 | one step older with sync paused while an older donor exists; at the end 006 only pauses sync, 005 and stats stay put, 002 wraps to the latest donor with sync on; keeps the cursor coherent |
| Browse.Next | src/pages/w/006.jsx:538-546 | one step newer; reaching index 0 resumes sync on 006, 005 and stats (002 resumes only past 0); index 0 itself: 006 pauses sync, 005 stays, 002 returns to the latest; keeps the cursor coherent |
| Browse.Reset | src/pages/w/live/stats.jsx:278-285 | sync on and the latest donor at index 0, or the placeholder for an empty snapshot |
| Browse.PrevEnabled | src/pages/w/006.jsx:657-665 | 002's "previous" button is never disabled; on 006, 005 and stats, for a donor in range, it is enabled exactly when an older donor exists (and not during 006's takeover); with an empty snapshot it is enabled everywhere but 006 |
| Browse.NextEnabled | src/pages/w/006.jsx:651-656 | "next" is enabled only away from index 0, always away from it outside the takeover, never during 006's takeover |
| Browse.ResetEnabled | src/pages/w/006.jsx:648 | Reset is disabled only during 006's takeover |
| Browse.PrevAsWritten | src/pages/w/005.jsx:405-415 | `handlePrevDonor` of the three policies as written: 006 never faults, 005 and stats fault at or past the oldest donor, 002 only past it; with an older donor it shows that donor with sync paused |
| Browse.NextAsWritten | src/pages/w/005.jsx:417-430 | `handleNextDonor` as written: it faults past the end of the snapshot, on 005 and stats also at index 0, on 002 at index 0 of an empty snapshot; between index 2 and the end it steps one newer with sync paused |
| Browse.ResetAsWritten | src/pages/w/005.jsx:432-439 | `handleResetDonor` as written faults exactly on 005, stats and 002 with an empty snapshot; otherwise it shows the latest donor with sync on |
| Browse.AsWrittenAgreesWhenNoFault | src/pages/w/002.jsx:314-352 | wherever a handler as written does not throw, the model's handler gives the same cursor |
| Browse.AsWrittenSafeWhenEnabled | src/pages/w/005.jsx:498-507 | with a donor on record, the handlers as written never fault through an enabled button |
| Browse.EmptySnapshotFaults | src/pages/w/005.jsx:432-439 | with an empty snapshot, the enabled Reset and "previous" buttons of 005, stats and 002 fault as written |
| Browse.PrevThenNext | src/pages/w/live/stats.jsx:251-274 | previous then next returns to the same donor; sync is back on only when returning to index 0 outside 002 |
| Browse.PrevTimes | src/pages/w/002.jsx:314-327 | repeated "previous" clicks keep the cursor coherent |
| Browse.WrapWalks | src/pages/w/002.jsx:316-325 | on 002, n < length clicks from the latest donor reach index n with sync paused |
| Browse.WrapFullCycle | src/pages/w/002.jsx:316-325 | on 002, as many clicks as there are donors come back to the latest donor with sync on |
| Browse.ClampStops | src/pages/w/005.jsx:405-415 | on 005 and stats, n clicks from the latest donor stop at the oldest donor |
| TopDonors.KeepNamed | src/pages/w/006.jsx:378 | an entry survives the filter exactly when its slot is present and has a non-empty name; never more entries than it was given |
| TopDonors.KeepNamedAppend | src/pages/w/006.jsx:378 | the filter distributes over concatenation, so the survivors keep their order |
| TopDonors.KeepNamedSingle | src/pages/w/006.jsx:378 | one entry is kept exactly when it is present with a non-empty name |
| TopDonors.ToShow | src/pages/w/006.jsx:373-378 | at most three entries: All-Time, then Monthly, then Today, each only with a name, under its own caption |
| TopDonors.WeeklyIgnored | src/pages/w/006.jsx:374-377 | the weekly slot never changes the list |
| TopDonors.ShowList | src/pages/w/006.jsx:368-370 | a list exists exactly for an ok reply carrying `topDonors` |
| TopDonors.Begin | src/pages/w/006.jsx:368-387 | an invalid reply or an empty list goes straight to the `finally` state; otherwise the view is active on the first entry |
| TopDonors.Step | src/pages/w/006.jsx:389-394 | each step makes the next entry current; after the last one the view is inactive, nothing is current and the next cycle is due in 30 s |
| TopDonors.Fire | src/pages/w/006.jsx:404-407 | the 30 s timeout starts the next fetch, and only when it is pending |
| TopDonors.ShowEntries | src/pages/w/006.jsx:389-394 | the loop shows the first entry and then the rest in order, and ends in the restored state |
| TopDonors.Cycle | src/pages/w/006.jsx:360-408 | a whole cycle shows exactly the list (nothing for an invalid reply) and always ends inactive with the next cycle scheduled |
| Marquee.NatToString | src/pages/w/001.jsx:249 | the printed amount is a non-empty string of decimal digits that reads back as the number |
| Marquee.IntToString | src/pages/w/001.jsx:249 | a printed amount, with a minus sign when negative, reads back as the number |
| Marquee.Piece | src/pages/w/001.jsx:249 | one donor's piece is the name, " - ₹", the amount (reading back as the donor's amount) and " • " |
| Marquee.Pieces | src/pages/w/001.jsx:248-250 | one piece per donor, the k-th for the k-th donor |
| Marquee.MarqueeAppend | src/pages/w/001.jsx:248-250 | the marquee of two lists is the first marquee followed by the second |
| Marquee.MarqueeSingle | src/pages/w/001.jsx:249 | one donor's marquee is "name - ₹amount • " |
| Marquee.PieceAt | src/pages/w/001.jsx:248-250 | every donor's piece appears, right after all earlier donors' pieces |
| Marquee.DonorsString | src/pages/w/001.jsx:247-250 | the `forEach` loop builds exactly the in-order concatenation of the pieces |
| Marquee.NextTextIndex | src/pages/w/001.jsx:170 | the toggle yields 0 or 1 and flips 0 and 1 |
| Marquee.TextIndexAfter | src/pages/w/001.jsx:168-171 | the text index is always 0 or 1 |
| Marquee.TextAlternates | src/pages/w/001.jsx:168-171 | after n steps the index is n mod 2, so the two texts alternate |
| Widgets.BrowsePolicy | src/pages/w/002.jsx:314-352 | only pages with a sync flag have browse buttons |
| Widgets.Kept | src/pages/w/dashboard.jsx:615-617 | the dashboard keeps the first 8 donors of a reply; the other pages keep the whole list |
| Widgets.MountValid | src/pages/w/005.jsx:238-251 | every page mounts in a state satisfying the invariant |
| Widgets.PollAccepted | src/pages/w/006.jsx:480-486 | a reply is taken only when it is ok and carries `recentDonors`; never while sync is paused or 006's takeover is active; the dashboard and 001 take every such reply |
| Widgets.Detect | src/pages/w/006.jsx:509-526 | the diff replaces both snapshots by the latest one; queues the new donors only when some exist and the previous snapshot was non-empty (never on 001, which logs them); with an empty previous snapshot the queue is untouched; with sync on it shows the latest donor; the dashboard marks the new ids |
| Widgets.DiffRerunHarmless | src/pages/w/dashboard.jsx:652-662 | re-running the diff with an unchanged snapshot changes nothing |
| Widgets.Poll | src/pages/w/006.jsx:478-495 | a poll replaces the snapshot only on an ok reply with `recentDonors` that the page's guard accepts; it is skipped while sync is paused or the takeover is active; the dashboard snapshot holds at most 8 donors; the alert line only grows at its end |
| Widgets.Tick | src/pages/w/006.jsx:329-348 | a tick is a no-op without alert ticks, with an empty queue, while checking, or during 006's takeover; otherwise it shows the head, sets both flags, schedules the page's dismissal delay (`AlertMs`: 10000 ms on the dashboard, dashboard.jsx:550; 9000 ms on 002, 002.jsx:187; 12000 ms on 005, 006 and live/alerts, 005.jsx:272, 006.jsx:346, live/alerts.jsx:149) and plays only when `playAudio` holds; only 001 and live/stats have no alert interval (`HasAlertTicks`; the interval is at dashboard.jsx:556, 002.jsx:194, 005.jsx:277, 006.jsx:351, live/alerts.jsx:154) |
| Widgets.Timeout | src/pages/w/006.jsx:342-346 | the dismissal drops exactly the head and clears both flags; the waiting line and the play count stay the same |
| Widgets.TestAlert | src/pages/w/006.jsx:553-560 | on the dashboard, 005 and 006 outside the takeover, the test donor joins the end of the queue; elsewhere nothing happens |
| Widgets.ToggleAudio | src/pages/w/005.jsx:513-514 | the audio button flips `playAudio` on the pages that have it (`HasAudioToggle`: 002.jsx:392, 005.jsx:514, 006.jsx:678, live/alerts.jsx:269); elsewhere nothing changes, and `playAudio` stays on, so the dashboard always plays the sound |
| Widgets.PrevClick | src/pages/w/006.jsx:529-536 | an enabled "previous" button applies the page's policy; a disabled one, or 006 during the takeover, changes nothing |
| Widgets.NextClick | src/pages/w/006.jsx:538-546 | an enabled "next" button applies the page's policy; a disabled one changes nothing |
| Widgets.ResetClick | src/pages/w/006.jsx:548-551 | Reset turns sync on and shows the latest donor, except on 006 during the takeover |
| Widgets.CycleFetched | src/pages/w/006.jsx:360-387 | with entries the takeover becomes active and sync pauses; otherwise the view ends inactive at once, sync resumes on the latest donor and the next cycle is scheduled |
| Widgets.CycleStep | src/pages/w/006.jsx:389-408 | a step shows the next entry; after the last one the takeover ends, sync resumes on the latest donor and the next cycle is scheduled |
| Widgets.CycleTimer | src/pages/w/006.jsx:404-407 | the 30 s timeout starts the next cycle on 006 |
| Widgets.ClearMarks | src/pages/w/dashboard.jsx:646-649 | the animation timeout clears the marks |
| Widgets.Settle | src/pages/w/006.jsx:529-551 | the buttons, the audio toggle, the takeover and the marks never touch the alert queue |
| Widgets.Step | src/pages/w/005.jsx:256-284 | every event keeps the invariant; the new donors join the end of the waiting line and the alert shown leaves its front; plays grow by at most one per alert shown; 001 never queues |
| Widgets.Run | src/pages/w/005.jsx:256-284 | any run keeps the invariant, and on 001 never queues or shows alerts |
| Widgets.RunConserves | src/pages/w/dashboard.jsx:527-551 | over any run the waiting line is first in, first out, and plays grow by at most the alerts shown |
| Widgets.FromMount | src/pages/w/dashboard.jsx:527-551 | from mount, the alerts shown are a prefix of the donors queued, the rest wait in order, and there is at most one play per alert shown |
| Widgets.FirstLoadSilent | src/pages/w/005.jsx:362-368 | after mounting, the poll [a] queues nothing; the next poll [b, a] queues exactly b |
| Widgets.BottomName | src/pages/w/live/stats.jsx:305-309 | the visible name is cut to 25 (dashboard), 18 (005, 006) or 20 (stats) characters plus "..." only when longer; 002 shows it whole; without a donor the dashboard shows "Loading donors..." and the other pages "loading..." |
| Widgets.Counter | src/pages/w/006.jsx:667-668 | the counter's total is the snapshot length; with donors the position is index + 1, between 1 and the total; for an empty snapshot 006 shows 0 and 005 and stats show 1 |
| Widgets.MarkNewDonors | src/pages/w/dashboard.jsx:640-644 | the `forEach` loop adds exactly the new donors' ids to the marks |
| Component.Widget.constructor | src/pages/w/005.jsx:238-251 | the hooks' initial values form the mount state |
| Component.Widget.Store | src/pages/w/005.jsx:378-389 | the diff effect's setters change exactly their own fields |
| Component.Widget.DiffEffect | src/pages/w/005.jsx:362-389 | the effect performs the diff transition |
| Component.Widget.DonorsFetched | src/pages/w/005.jsx:333-350 | a completed fetch performs the poll transition |
| Component.Widget.CheckForAlerts | src/pages/w/005.jsx:256-274 | `checkForAlerts` performs the tick transition |
| Component.Widget.DismissAlert | src/pages/w/005.jsx:268-272 | the timeout callback performs the dismissal transition |
| Component.Widget.TestAlert | src/pages/w/005.jsx:441-448 | the test button performs the test-alert transition |
| Component.Widget.ToggleAudio | src/pages/w/005.jsx:513-514 | the audio button performs the toggle |
| Component.Widget.PrevDonor | src/pages/w/005.jsx:405-415 | the "previous" handler performs the browse transition |
| Component.Widget.NextDonor | src/pages/w/005.jsx:417-430 | the "next" handler performs the browse transition |
| Component.Widget.ResetDonor | src/pages/w/005.jsx:432-439 | the reset handler performs the reset transition |
| Component.Widget.TopDonorsFetched | src/pages/w/006.jsx:360-387 | the cycle's fetch completing performs the cycle-start transition |
| Component.Widget.TopDonorStep | src/pages/w/006.jsx:389-408 | a display step performs the cycle-step transition |
| Component.Widget.TopDonorTimer | src/pages/w/006.jsx:404-407 | the 30 s timeout performs the cycle-timer transition |
| Component.Widget.ClearAnimations | src/pages/w/dashboard.jsx:646-649 | the animation timeout performs the clear-marks transition |

## Left out

- Fetching, JSON parsing and the endpoint URLs are not modelled. A poll result is a `DonorReply` (failed, or a reply with `ok` and an optional list), and the top-donor fetch is a `StatsReply`.
- Timing is not modelled. Intervals and timeouts (2 s or 6 s alert ticks, 5 s polls, the 800 ms animation delay, 1 s marks, 4 s steps, 30 s cycles) are events. Only two delays are recorded, as the scheduled timeouts' values: the alert dismissal delay (`Alerts.Queue.dismissal`) and the 30 s cycle delay (`TopDonors.Phase.Scheduled`).
- React hook semantics are not modelled: batching, effect ordering and stale closures. A poll and the diff effect that follows it form one atomic transition. On 002, 005, stats and alerts the poll guard reads the current sync flag, as the code is written. With the `[]` dependency list the running interval actually keeps the flag's initial value, so on those pages polls are never paused.
- A fetch that was already in flight and lands after sync was paused or the takeover began is not modelled: polls are atomic.
- The sound, Lottie, styled-components, the logo toggle and `AnimateUp` are not modelled. The sound is a play counter.
- `moment(...).fromNow()` and `numeral` formatting are foreign libraries. The amount is an integer printed in plain decimal.
- Test donors get ids from `Date.now()` and `Math.random()` in the source. Here the test donor is a parameter.
- JavaScript strings are UTF-16, so `slice` and `length` count code units. The model counts characters of `seq<char>`.
- Amounts are integers. The source passes whatever number the JSON holds.
- `newVisibleDonor.index = …` tags the snapshot element in place, which aliases the snapshot. The model stores the index beside a copy of the donor.
- The counts and stats fetches (dashboard, 001.jsx:176-200, 002.jsx:217-241, 005.jsx:310-328, live/stats.jsx:156-174, 006) are not modelled. They feed presentation only.
- 006's overlay rendering (the label, `name.slice(0, nameCharLimit)`, the formatted amount) is not modelled. The takeover keeps the current entry, not its text.
- Browse.Prev: on 005 and stats the button is disabled at the oldest donor and the handler as written returns `undefined` there. The model keeps the cursor unchanged instead. It is reachable only through a disabled button.
- Browse.Next: on 005 and stats, index 0 as written reads `recentDonors[-1]`, which is also behind a disabled button. The model keeps the cursor unchanged there.
- Widgets.Tick: on 002, 005 and live/alerts the page model uses the corrected tick. The stale re-run of the callback by the interval cleanup is modelled only in `Alerts.RawTick`, for a single tick, and not in `Widgets.Step` or the run properties.
- 002 in the model starts alerts on the same tick events as the other pages. Its 6 s interval differs only in timing.

The weekly leaderboard slot is never listed (006.jsx:374-377). The takeover has its own overlay (006.jsx:566-584) and does not go through the alert queue.

## Findings

| source | as written | input that shows it | evidently intended | confidence | as-written member | corrected member |
|---|---|---|---|---|---|---|
| src/pages/w/005.jsx:276-284 | the interval effect's cleanup calls `clearTimeout(checkForAlerts())`, which runs the previous render's callback once more when a tick has just set `checking` (same in 002.jsx:192-200 and live/alerts.jsx:153-160) | queue [a, b], one tick: the sound plays twice, two dismissal timeouts are scheduled, and when they fire both a and b are gone; b is never shown | one dismissal per alert started, each queued alert shown once | high, not executed | Alerts.StaleCleanupDropsTwo | Alerts.Tick |
| src/pages/w/005.jsx:432-439 | `handleResetDonor` reads `recentDonors[0].index` with no empty check (same in 002.jsx:344-351 and live/stats.jsx:278-285) | Reset clicked before the first successful poll (empty snapshot; the button is enabled) throws a TypeError | show the "loading..." placeholder as `setVisibleToLatestDonor` does | high, not executed | Browse.EmptySnapshotFaults | Browse.Reset |
| src/pages/w/005.jsx:405-415 | `handlePrevDonor` reads `recentDonors[index + 1]` when the placeholder is shown at index 0 (same in 002.jsx:314-327 and live/stats.jsx:251-261) | empty snapshot: index 0 differs from length - 1 = -1, so the button is enabled and the handler throws a TypeError | stay at the placeholder | high, not executed | Browse.EmptySnapshotFaults | Browse.Prev |
