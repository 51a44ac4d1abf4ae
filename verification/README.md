# SENTINEL-OPS dashboard: a verified model

SENTINEL-OPS is a SIEM. Its dashboard keeps bounded, live windows on a server that never stops changing:
a list of incidents that pages, reloads and merges deltas at the same time, and a stack of alert cards fed
by a polled event log. This project models those state machines and the arithmetic around them in Dafny
4.11 and proves what they keep, over every run.

| part | files |
|---|---|
| The incident list: the window, the hook, its runs | `incidents.dfy`, `ranked_window.dfy`, `use_incidents.dfy`, `incident_runs.dfy`, `shown_rows.dfy` |
| The server contract, the change poller, and the three together | `incidents_server.dfy`, `change_feed.dfy`, `incident_sync.dfy`, `quiet_pages.dfy` |
| Where convergence ends: exact conditions, and inputs that break them | `sync_limits.dfy`, `sync_inputs.dfy` |
| Shared requests and whole lists (`apiGetAllPages` has no caller in the dashboard outside a test) | `auth_api.dfy` |
| The alert pipeline: feed, queue, cards, timers | `live_feed.dfy`, `toast_pipeline.dfy`, `toast_inputs.dfy`, `toast_stack.dfy`, `toast_timers.dfy`, `toast_lifetimes.dfy` |
| Report export | `incident_csv.dfy`, `incident_pdf.dfy` |
| Grouping, buckets, percentiles | `incident_grouping.dfy`, `time_series.dfy`, `percentile.dfy`, `stable_sort.dfy`, `arithmetic.dfy` |

Check everything with `dafny verify dfyconfig.toml`.

## How it is modelled

- Where the code updates state in place (the hooks, the poller, the card stack, its timers, the PDF cursor,
  the request table) there is a class or a loop whose contract equates the new state with a function of the
  old one; what the code promises is then proved about runs of those functions.
- Timestamps are integers in microseconds and ids are integers, each under one total order; (id, updated_at)
  determines a row. Where the code compares timestamps as dates, the model compares milliseconds. One promise
  callback together with the state updaters it calls is one atomic step, and so is an effect with the change
  that triggers it.
- Assumed of the server, and written out in `incidents_server.dfy`: a write is stamped with the clock at the
  write, later than any earlier reading; the bounds of a response are read before its rows, at a separate
  instant; the watermark is held before the oldest open writing transaction; a page is one query on committed
  rows; closed rows may be deleted. That a watermark then closes the past is proved, not assumed.
- Assumed of a batch of changes: distinct ids (it is one query over a table's primary key), since the live
  map is last-wins.
- The list may be reloaded at any time, with any filter and limit, while its poller goes on; a page with a new
  watermark starts the poller anew, one with the same watermark does not. The poller may also be stopped and
  started again at any time, with fetches of stopped polls still to arrive, and rows that a poller or a request
  from before the last start brings count as rows from outside.

## Where the code promises less than it seems to

Each point rests on theorems: an exact condition over all inputs where the code keeps the promise in part, and
inputs that break it.

- A reload keeps live rows the page does not mention and moves the watermark past them
  (`dashboard/src/hooks/useIncidents.js:62-76`). `SyncLimits.RefreshSafeExactly` says for every filter when no
  row can stay wrong: every kept row is at least as new as the new watermark, or there is no filter and the
  page has no cursor. Otherwise some server strands the row (`SyncLimits.UncleanStrands`); through every run of
  polls and of writes to other incidents it then stays, for good if nothing new enters the filter
  (`SyncLimits.StaysForGood`), else until a full list of newer rows pushes it out (`SyncLimits.StaysOrCrowds`).
  `SyncInputs.ReloadStrands`, from mounting, and `SyncInputs.CutReloadStrands` are legal runs that end so, with
  and without a filter. A reload that does not start the poller anew needs no condition
  (`IncidentSync.HeldWatermarkIsCareful`).
- Rows from outside can stay wrong as well. A delta of a poller from before the last start, a direct answer
  fetched before it or arriving before the first page, a callback that still closes over an old filter, and a
  "load more" sent between a reload and its page can each list a row that is never corrected.
  `SyncLimits.MergeSafeExactly` and `SyncLimits.MoreSafeExactly` are the conditions on the rows;
  `SyncInputs.OldAnswerStrands`, `SyncInputs.DirectBeforeFirstPageStrands`, `SyncInputs.OldCallbackStrands` and
  `SyncInputs.EarlyMoreStrands` are the runs. `IncidentSync.QuiescentConvergence` has these conditions as its
  hypothesis; after mounting, without reloads and such rows, they hold whatever the page holds
  (`IncidentSync.MountedConverges`).
- No delta tells of a deletion, so a deleted incident stays listed (`SyncLimits.DeletedStays`).
- A listed row may be replaced by an older delta version for a while, since the merge compares with recorded
  live times only: `SyncLimits.NeverLowersExactly` and `SyncLimits.NeverLowersWithRoom` say when,
  `SyncInputs.DelayedDeltaLowers` is an input.
- Two alerts of different sources and messages share a card when one source goes on, behind a bar, with the
  front of the other message (`ToastStack.GroupsTold`); with sources free of bars they never do
  (`ToastStack.PlainGroupsTold`).
- The first load alerts nobody. An event indexed after it was served is never shown as an alert if its time is
  one the cursor has reached, if it is indexed behind an answer on its way, the first one included, or if a full
  batch ends between two events of one time, because the next query is strictly after the last time
  (`servers/platform-api/app/events_api.py:49`). `ToastPipeline.NothingMissedExactly` says that these are all the
  ways, `ToastPipeline.EveryCriticalOnce` that otherwise every critical event is handed over, in order;
  `ToastInputs.TieIsMissed`, `ToastInputs.LateIsMissed`, `ToastInputs.BehindFirstIsMissed` and
  `ToastInputs.DuringFirstIsMissed` are runs that miss one.
- The comment at `dashboard/src/hooks/useLiveFeed.js:17-21` says that a burst beyond the cap does no harm and
  speaks of four cards. The code shows five, and hands a batch over whole exactly up to 50 new events
  (`ToastPipeline.HandedWhole`); the default batch is 40.
- A failed "load more" of a superseded epoch still sets the error (`IncidentRuns.FailuresKeepTheList`).
- Grouping at a finer IP tolerance does not always refine the coarser one: a key type named "ip", or a bar in
  a scenario id, can imitate an address key (`IncidentGrouping.LookalikeBreaksRefinement`);
  `IncidentGrouping.GroupsRefineExactly` says exactly when it does.

## Model

| member | source | states |
|---|---|---|
| `RankedWindow.CollectUnique` | dashboard/src/hooks/useIncidents.js:7-16 | The loop over an insertion-ordered map, its sort and its cut compute the window function for every input. |
| `RankedWindow.WindowCharacterised` | dashboard/src/hooks/useIncidents.js:7-16 | A list is the window if and only if it is strictly newest-first, holds at most 100 rows, each the newest (first of the newest) version of its id in the input, and every such version left out is outranked by a full list. |
| `RankedWindow.RankedIsNewest` | dashboard/src/hooks/useIncidents.js:7-13 | Before the cut, exactly the first newest version of every id is kept. |
| `RankedWindow.IncrementalEqualsBatch` | dashboard/src/hooks/useIncidents.js:7-16 | Truncating at every step loses nothing: folding the window over pieces equals the window of everything at once. |
| `RankedWindow.WindowShape` | dashboard/src/hooks/useIncidents.js:13-16 | Distinct ids, strictly newest-first, at most 100 rows, nothing that was not given. |
| `UseIncidents.IncidentList.constructor` | dashboard/src/hooks/useIncidents.js:28-42 | The state the hook mounts with. |
| `UseIncidents.IncidentList.SetIncidents` | dashboard/src/hooks/useIncidents.js:70-73 | The end of every list updater: the window of the given rows, and its size remembered. |
| `UseIncidents.IncidentList.Load` | dashboard/src/hooks/useIncidents.js:47-55 | A run of the load effect: new epoch, a ready list stays ready, the request carries epoch, limit and filter. |
| `UseIncidents.IncidentList.OnPage` | dashboard/src/hooks/useIncidents.js:56-57 | A page whose effect was cleaned up or whose epoch is over changes nothing; any other is accepted. |
| `UseIncidents.IncidentList.AcceptPage` | dashboard/src/hooks/useIncidents.js:58-78 | Accepting a page: rows overtaken by a live change dropped, live rows kept beside it, cursor, hasMore, watermark and status set. |
| `UseIncidents.IncidentList.SettlePage` | dashboard/src/hooks/useIncidents.js:75-79 | What follows the list updater: cursor, hasMore from the size remembered, watermark, status, no error. |
| `UseIncidents.IncidentList.OnPageError` | dashboard/src/hooks/useIncidents.js:80-84 | The error is recorded only for the current epoch. |
| `UseIncidents.IncidentList.LoadMore` | dashboard/src/hooks/useIncidents.js:91-99 | Refused without cursor, turn or room; otherwise one request for at most the room left. |
| `UseIncidents.IncidentList.OnMore` | dashboard/src/hooks/useIncidents.js:100-101 | A superseded answer only ends the flight; a current one is merged. |
| `UseIncidents.IncidentList.AcceptMore` | dashboard/src/hooks/useIncidents.js:102-115 | Merging a further page: filtered, not overtaken, through the window; cursor and hasMore follow. |
| `UseIncidents.IncidentList.OnMoreError` | dashboard/src/hooks/useIncidents.js:117-124 | The error is recorded and the flight ends. |
| `UseIncidents.IncidentList.MergeChanges` | dashboard/src/hooks/useIncidents.js:127-148 | Changes not older than recorded ones stamp the live map, replace their rows and enter if they match the filter of the callback. |
| `UseIncidents.Fresh` | dashboard/src/hooks/useIncidents.js:58-61 | Keeps exactly the rows that no recorded live change has overtaken. |
| `UseIncidents.Preserved` | dashboard/src/hooks/useIncidents.js:63-69 | Keeps exactly the listed rows at their live version that match the filter and that the page does not have at least as new. |
| `UseIncidents.LatestUpdatedAt` | dashboard/src/hooks/useIncidents.js:18-23 | To the millisecond an upper bound of all times of the rows, attained by a row or the fallback. |
| `ShownRows.PageShows` | dashboard/src/hooks/useIncidents.js:56-79 | After any accepted page the list is the best hundred of what the page gives it: its rows that no live change has overtaken, and the listed rows at their live version, in the filter and newer than on the page; newest first, no id twice, each at its newest given version, an incident left out only by a hundred rows in front of it. Cursor, hasMore, status and size follow and nothing else changes. |
| `ShownRows.PageWatermark` | dashboard/src/hooks/useIncidents.js:76 | The watermark of a page is the bound it came with, or else the time of one of its accepted rows that none is later than, to the millisecond. |
| `ShownRows.MoreShows` | dashboard/src/hooks/useIncidents.js:100-115 | The same after a further page: all rows listed and the rows of the page in the filter of the request that no live change has overtaken. |
| `ShownRows.MergeShows` | dashboard/src/hooks/useIncidents.js:127-148 | The same after a delta: every change in the filter that no newer one has overtaken is given, and every listed row that is not changed; nothing but list, size and live times changes. |
| `ShownRows.MergeStamps` | dashboard/src/hooks/useIncidents.js:130-136 | A delta records the time of every such change and of no other incident. |
| `IncidentRuns.AlwaysInv` | dashboard/src/hooks/useIncidents.js:47-148 | Window shape, live bound and single flight are kept by every run of loads, answers in any order, failures and deltas. |
| `IncidentRuns.ReachableStates` | dashboard/src/hooks/useIncidents.js:27-148 | They hold in every state reachable from mounting. |
| `IncidentRuns.NothingBeforeThePage` | dashboard/src/hooks/useIncidents.js:27-124 | Over every run from mounting without an accepted page the list is not ready and has no cursor, no watermark and no more to load, and it is empty unless changes came. |
| `IncidentRuns.PageKeepsBound` | dashboard/src/hooks/useIncidents.js:58-73 | After a page, every listed row whose id has a live time is at least that new, whatever the page held. |
| `IncidentRuns.MoreKeepsBound` | dashboard/src/hooks/useIncidents.js:102-111 | The same after a "load more" answer. |
| `IncidentRuns.MergeKeepsBound` | dashboard/src/hooks/useIncidents.js:127-147 | The same after a delta batch of distinct ids. |
| `IncidentRuns.StampedAt` | dashboard/src/hooks/useIncidents.js:134-136 | Stamping a batch of distinct ids records the time of each and leaves the others. |
| `IncidentRuns.MoreAsksWithinTheCap` | dashboard/src/hooks/useIncidents.js:91-96 | A "load more" is refused exactly without cursor, turn or room; otherwise it asks with the cursor and the filter of the moment for the limit, or for the room left up to 100 if that is less. |
| `IncidentRuns.MoreGoesOn` | dashboard/src/hooks/useIncidents.js:91-115 | Over every run, after an accepted answer and any that are not accepted, the next "load more" goes on with exactly the cursor of that answer, and is refused if it had none. |
| `IncidentRuns.FailuresKeepTheList` | dashboard/src/hooks/useIncidents.js:80-124 | A failure sets the error, for a page also the status, and ends the flight of a "load more"; nothing else changes. |
| `IncidentRuns.SupersededForGood` | dashboard/src/hooks/useIncidents.js:49-124 | Once a reload has begun, whatever happens next, the answer or failure of any request that was out before it leaves list, paging position, watermark and live map alone. |
| `IncidentRuns.OnlyAcceptedAnswersCount` | dashboard/src/hooks/useIncidents.js:47-148 | Over every run of loads, requests, failures and superseded answers, list, paging position, watermark and live map stay as they are. |
| `IncidentRuns.ReloadsCoverTheWindow` | dashboard/src/hooks/useIncidents.js:47-55 | In every reachable state a reload supersedes every page request out, takes over filter and limit, keeps a ready list ready and sets any other loading, and asks for the limit or the rows listed, whichever is more, up to 100. |
| `IncidentRuns.WatermarkIsThePages` | dashboard/src/hooks/useIncidents.js:57-84 | Until the next accepted page the watermark stays that of the last one, or the latest time of its rows when the server sent none, whatever else arrives. |
| `IncidentRuns.HasMoreIsOnlyShown` | dashboard/src/hooks/useIncidents.js:70-114 | Whatever value hasMore takes at every step, as when its size is read before the updater has run, the rest of the run is the same. |
| `IncidentRuns.EpochOnlyGrows` | dashboard/src/hooks/useIncidents.js:49 | Epochs never fall and every reload on the way raises them. |
| `IncidentRuns.LiveGrows` | dashboard/src/hooks/useIncidents.js:129-136 | The live time of an id is never forgotten and never goes back, over any run. |
| `IncidentRuns.NothingOlderReturns` | dashboard/src/hooks/useIncidents.js:39-42 | From any reachable state, no later answer lists a version older than the live time recorded then. |
| `IncidentRuns.NoResurrection` | dashboard/src/hooks/useIncidents.js:39-42 | Once a delta moved an incident out of the filter, no later page, "load more" answer or delta lists that version or an older one. |
| `IncidentRuns.MergeRemoves` | dashboard/src/hooks/useIncidents.js:137-146 | Merging a change that left the filter takes the incident off the list and records its time. |
| `IncidentRuns.RefreshKeepsLiveRows` | dashboard/src/hooks/useIncidents.js:57-73 | On an accepted page every listed in-filter row at its live version is represented at the newer of its own and the fetched version, and is cut only by a full list that outranks it. |
| `IncidentRuns.MoreIsBatch` | dashboard/src/hooks/useIncidents.js:102-111 | Loading more keeps the list equal to the window of every row loaded so far. |
| `IncidentsServer.ServerStaysOk` | servers/platform-api/app/incidents_api.py:104-111 | Versions of a row only grow, and an open write carries a time later than its transaction start. |
| `IncidentsServer.KnownLasts` | servers/platform-api/app/incidents_api.py:459-539 | A version that was committed once stays behind or equal to the committed one, or its incident is deleted. |
| `IncidentsServer.WatermarkExists` | servers/platform-api/app/incidents_api.py:115-134 | The clock held back to just before the oldest open writing transaction always exists. |
| `IncidentsServer.WatermarkCloses` | servers/platform-api/app/incidents_api.py:104-136 | No version stamped up to the watermark can still appear, although writers are open. |
| `IncidentsServer.StaysClosed` | servers/platform-api/tests/test_incident_lifecycle.py:167-244 | A closed past stays closed over commits, rollbacks, deletions and new writers, and only loses rows. |
| `IncidentsServer.OnPageOrAhead` | servers/platform-api/app/incidents_api.py:216-246 | A changed row is on the page or still ahead of its cursor. |
| `IncidentsServer.PageIdsDistinct` | servers/platform-api/app/incidents_api.py:234-248 | The rows of one page have distinct ids. |
| `ChangeFeed.IncidentsSocket.constructor` | dashboard/src/hooks/useIncidentsSocket.js:9-15 | A session starts at the given watermark, running and with nothing in flight. |
| `ChangeFeed.IncidentsSocket.Poll` | dashboard/src/hooks/useIncidentsSocket.js:16-36 | The cursor loop for any sequence of answers and any moment of cleanup: what it asks, hands over, when the watermark moves and to what. |
| `ChangeFeed.Lower` | dashboard/src/hooks/useIncidentsSocket.js:25-30 | To the millisecond the smaller of the bounds seen, none only if none was seen. |
| `ChangeFeed.EarliestBound` | dashboard/src/hooks/useIncidentsSocket.js:21-32 | A completed loop ends with the earliest bound any of its pages carried, compared to the millisecond, and with the first of those of one millisecond. |
| `ChangeFeed.TurnsTold` | dashboard/src/hooks/useIncidentsSocket.js:21-32 | The loop processes the answers up to the first failure, the first page without a cursor, or the stop. |
| `ChangeFeed.EndsTold` | dashboard/src/hooks/useIncidentsSocket.js:21-36 | It completes if and only if the last page it processed had no cursor or it was stopped, and waits if and only if the answers have run out before. |
| `ChangeFeed.HandsTold` | dashboard/src/hooks/useIncidentsSocket.js:23-24 | All rows of the pages it processes are handed over in order, that of a stopped loop included. |
| `ChangeFeed.AsksTold` | dashboard/src/hooks/useIncidentsSocket.js:22-32 | Each fetch but the first goes on with the cursor of the page before; there is one a page, and one more unless the loop is over. |
| `ChangeFeed.StopsTold` | dashboard/src/hooks/useIncidentsSocket.js:16-42 | The cleanup counts if and only if the loop got as far as the answer it came before. |
| `ChangeFeed.MovesAtTheEnd` | dashboard/src/hooks/useIncidentsSocket.js:32-36 | A loop that fails, waits or is stopped leaves the watermark alone; one that moves it moves it to the earliest bound. |
| `ChangeFeed.PollIsTheLoop` | dashboard/src/hooks/useIncidentsSocket.js:16-36 | Against the server, a poll hands over the rows and moves the watermark exactly as the loop does on the same answers. |
| `ChangeFeed.PollMoves` | dashboard/src/hooks/useIncidentsSocket.js:16-36 | A whole poll against the server moves the watermark as the loop does on its answers. |
| `ChangeFeed.FeedAlways` | dashboard/src/hooks/useIncidentsSocket.js:9-42 | Over every run, with polls failed, stopped and started again from the initial watermark, rows up to the watermark are delivered and the running loop has the rest ahead of its cursor. |
| `ChangeFeed.NoLostChange` | dashboard/src/hooks/useIncidentsSocket.js:9-42 | Over every run of commits, rollbacks, deletions, polls, failures and restarts, every row whose current version lies between the initial and the present watermark has been handed over at that version. |
| `IncidentSync.Always` | dashboard/src/views/IncidentsView.jsx:685-690 | In every careful run of loads, reloads, polls, answers and writes each listed row is current, deleted, or its replacement is still to be delivered, and all that was delivered is recorded in the live map. |
| `IncidentSync.CoveredMeansCurrent` | dashboard/src/hooks/useIncidents.js:127-148 | A watermark above every row leaves no wrong row in the list. |
| `IncidentSync.QuietAlways` | dashboard/src/hooks/useIncidentsSocket.js:16-36 | While nothing writes, every bound a poll reads is above all rows. |
| `IncidentSync.QuiescentConvergence` | dashboard/src/views/IncidentsView.jsx:685-690 | After any run with reloads of any filter and limit, restarts, failures and deletions, in which reloads and rows from outside are careful, once no transaction writes and one poll is started and completes, every listed incident is at the server version and matches the filter, or is deleted. |
| `IncidentSync.FirstLoadIsCareful` | dashboard/src/hooks/useIncidents.js:47-79 | A list that opens empty and sees no reload and no row from outside meets every condition of convergence, whatever its page holds. |
| `IncidentSync.MountedConverges` | dashboard/src/views/IncidentsView.jsx:571-690 | Convergence without conditions for such a list. |
| `IncidentSync.MountingOpens` | dashboard/src/hooks/useIncidents.js:27-55 | Mounting and the first load effect on any server open such an empty list. |
| `IncidentSync.ReloadOpens` | dashboard/src/hooks/useIncidents.js:47-55 | A reload at any moment of any careful run opens the list anew, with the invariant kept and the poller going on. |
| `IncidentSync.ConvergesFromMounting` | dashboard/src/views/IncidentsView.jsx:571-690 | Convergence from mounting, over any chain of careful reloads. |
| `IncidentSync.HeldWatermarkIsCareful` | dashboard/src/hooks/useIncidentsSocket.js:13-42 | While every load reads the watermark the poller started from, so that it is not started anew, reloads of any filter are careful whatever their pages hold. |
| `QuietPages.PageByPage` | dashboard/src/hooks/useIncidents.js:47-115 | From mounting on a server where nothing writes, over every run of the first load, "load more" requests, polls and failures: the list is exactly the newest rows of the filter down to the cursor, all of them without a cursor, up to 100, and at least the limit while a cursor is left. |
| `SyncLimits.RefreshSafeExactly` | dashboard/src/hooks/useIncidents.js:62-76 | For every filter, a reload that starts the poller anew can strand no row if and only if every kept row the page does not mention is at least as new as the new watermark, or there is no filter and the page has no cursor. |
| `SyncLimits.UncleanStrands` | dashboard/src/hooks/useIncidents.js:62-76 | For every reload that breaks the condition there is a server on which a kept row is listed, wrong, and mentioned by no delta to come. |
| `SyncLimits.StaysOrCrowds` | dashboard/src/hooks/useIncidentsSocket.js:9-42 | Through every run of polls, stopped and restarted, and of transactions on other incidents begun after the watermark, a wrong row that no delta mentions stays listed and wrong, unless a full list of rows that outrank it pushes it out. |
| `SyncLimits.StaysForGood` | dashboard/src/hooks/useIncidentsSocket.js:9-42 | If none of those transactions writes a version of the filter it stays for good. |
| `SyncLimits.DeletedStays` | servers/platform-api/app/log_retention.py:145-160 | A deleted incident stays listed through every such run, unless it is pushed out. |
| `SyncLimits.MergeSafeExactly` | dashboard/src/hooks/useIncidents.js:127-154 | A merge from outside the session can strand no row if and only if every row it lists anew is in the filter and no older than the origin of the session, or is still to be delivered, or stands beside a listed version that shows it. |
| `SyncLimits.CarelessMergeStrands` | dashboard/src/hooks/useIncidents.js:127-154 | For every merge that breaks the condition there is a session on which one of its rows is stranded. |
| `SyncLimits.MoreSafeExactly` | dashboard/src/hooks/useIncidents.js:91-115 | A "load more" answer read before the page can strand no row if and only if no row it adds for a new incident is older than the watermark of the page. |
| `SyncLimits.CarelessMoreStrands` | dashboard/src/hooks/useIncidents.js:91-115 | For every such answer that breaks the condition there is a session on which one of its rows is stranded. |
| `SyncLimits.NeverLowersExactly` | dashboard/src/hooks/useIncidents.js:127-148 | Merging never lowers the version of a listed incident if and only if every accepted change in the filter that is older than the listed row of its id is crowded out by a full list. |
| `SyncLimits.NeverLowersWithRoom` | dashboard/src/hooks/useIncidents.js:127-148 | With room for all rows it never does if and only if no accepted change in the filter is older than the listed row of its id. |
| `SyncLimits.ChangeIsMerged` | dashboard/src/hooks/useIncidents.js:137-144 | An accepted change in the filter is listed after the merge, or crowded out by a full list. |
| `SyncInputs.ReloadStrands` | dashboard/src/hooks/useIncidents.js:62-76 | A run from mounting, for any limit: an incident opens, a delta lists it, it is closed, and a reload keeps it under the filter, behind the watermark. |
| `SyncInputs.CutReloadStrands` | dashboard/src/hooks/useIncidents.js:62-76 | The same without a filter, on a page cut by its limit, for every limit below the size of the list. |
| `SyncInputs.OldAnswerStrands` | dashboard/src/hooks/useIncidents.js:127-154 | A run in which an old delta page or direct answer lists an old version behind the watermark. |
| `SyncInputs.DirectBeforeFirstPageStrands` | dashboard/src/views/IncidentsView.jsx:760-763 | A run from mounting in which a direct answer arrives before the first page and is kept by it. |
| `SyncInputs.OldCallbackStrands` | dashboard/src/hooks/useIncidents.js:138-154 | A run in which a callback with an old filter lists a row outside the present one. |
| `SyncInputs.EarlyMoreStrands` | dashboard/src/hooks/useIncidents.js:91-111 | A run in which a "load more" sent between a reload and its page brings a version from before the page. |
| `SyncInputs.StrandedStays` | dashboard/src/hooks/useIncidentsSocket.js:9-42 | Whatever polls follow those runs, and whatever is written to other incidents outside the filter, the stranded row stays listed and wrong. |
| `SyncInputs.DelayedDeltaLowers` | dashboard/src/hooks/useIncidents.js:127-148 | A delta delayed behind a page replaces a listed row by an older version. |
| `AuthApi.GetSharing.constructor` | dashboard/src/lib/authApi.js:89 | No request is shared at first. |
| `AuthApi.GetSharing.ApiGet` | dashboard/src/lib/authApi.js:91-99 | The caller gets the request in flight for its path, or a new one. |
| `AuthApi.GetSharing.Finally` | dashboard/src/lib/authApi.js:94-96 | A settled request clears the entry of its path. |
| `AuthApi.OneRequestPerPath` | dashboard/src/lib/authApi.js:78-99 | Over every run no two open requests are for one path, callers join the open one, and settling never takes the entry of another request away. |
| `AuthApi.ApiGetAllPages` | dashboard/src/lib/authApi.js:134-146 | The cursor loop on any sequence of answers: the cursors it asks with and the rows it returns. |
| `AuthApi.GatheredTold` | dashboard/src/lib/authApi.js:134-146 | The loop completes at the first page without a cursor, with all rows up to it in order, and breaks only at a failure before. |
| `AuthApi.LoopReturnsTheRun` | dashboard/src/lib/authApi.js:134-146 | On the answers of a finished run against the server the loop returns what the run gathered. |
| `AuthApi.NothingTwice` | dashboard/src/lib/authApi.js:134-146 | However rows change between the pages, no incident is gathered twice and the result is in list order. |
| `AuthApi.NothingSteadyMissed` | dashboard/src/lib/authApi.js:126-146 | Every matching row that does not change while the pages are read is in the result. |
| `AuthApi.QuietIsExact` | dashboard/src/lib/authApi.js:126-146 | On a quiet server the result is exactly the matching rows. |
| `LiveFeed.LiveAttackFeed.constructor` | dashboard/src/hooks/useLiveFeed.js:25-34 | Empty feed and queue, no cursor. |
| `LiveFeed.LiveAttackFeed.OnDocs` | dashboard/src/hooks/useLiveFeed.js:43-65 | What an answer does to cursor, feed and queue; a cancelled or empty one does nothing, and the first load alerts nobody. |
| `LiveFeed.QueueIsChronological` | dashboard/src/hooks/useLiveFeed.js:58-64 | A later batch is queued in the order it happened, behind what is queued, cut to the newest 50. |
| `LiveFeed.TickerShows` | dashboard/src/hooks/useLiveFeed.js:46-53 | After a batch the ticker shows its events in front of the old ones, newest first, up to the limit, although the first load comes newest first and a later batch oldest first. |
| `LiveFeed.CriticalsTold` | dashboard/src/hooks/useLiveFeed.js:58 | Exactly the events of severity 4 are critical, each as often as it comes. |
| `ToastPipeline.HandedWhole` | dashboard/src/components/CriticalToastStack.jsx:126-133 | The consumer hands over exactly the new events if and only if they are no more than the 50 slots, whether or not its last processed event has slid out. |
| `ToastPipeline.CaughtUpMeansNothingNew` | dashboard/src/components/CriticalToastStack.jsx:126-133 | Running the consumer again on a queue processed to its end hands over nothing. |
| `ToastPipeline.ExactlyOnce` | dashboard/src/hooks/useLiveFeed.js:38-74 | In every run with batches of at most 50, whatever the times of the events and the order of their indexing, what the reducer was given is a duplicate-free prefix of the critical events accepted since the first load, and all of them whenever the consumer has run. |
| `ToastPipeline.EveryAlertIsCounted` | dashboard/src/components/CriticalToastStack.jsx:113-158 | From the log to the cards, over every run: once the consumer has run, counts shown plus counts removed are the number of those events, on at most five active cards of distinct groups. |
| `ToastPipeline.TickerAndQueue` | dashboard/src/hooks/useLiveFeed.js:46-64 | Over every run the ticker shows the newest of all events taken, newest first, up to its limit, and the queue holds the last 50 alerts in order. |
| `ToastPipeline.AlertsAreTheCriticals` | dashboard/src/hooks/useLiveFeed.js:43-65 | In every reachable state the alerts are the critical events indexed after the first load up to the cursor, in the order of the endpoint, if and only if the cursor has passed over no critical event. |
| `ToastPipeline.NothingMissedExactly` | dashboard/src/hooks/useLiveFeed.js:38-74 | Over every run no event indexed after the first load is passed over if and only if none is indexed with a time the cursor has reached, none behind an answer on its way, the first one included, and no full batch ends between two events of one time. |
| `ToastPipeline.EveryCriticalOnce` | dashboard/src/hooks/useLiveFeed.js:38-74 | After every run that stays so in time, once the consumer has run, the reducer has been given exactly the critical events indexed after the first load up to the cursor, in the order of the endpoint. |
| `ToastPipeline.OvertakenExactly` | dashboard/src/hooks/useLiveFeed.js:42-65 | On an arrival, the first load included, the cursor passes over exactly the events indexed after the answer was served with a time up to its newest, and those the limit cut off at the last time of a batch. |
| `ToastPipeline.MissedForGood` | dashboard/src/hooks/useLiveFeed.js:42-65 | An event passed over is never accepted later. |
| `ToastPipeline.ChronologicalMissesNone` | dashboard/src/hooks/useLiveFeed.js:38-74 | On a log in the order of its distinct times every step stays in time. |
| `ToastPipeline.ChronologicalHandsAll` | dashboard/src/hooks/useLiveFeed.js:38-74 | On such a log, once the consumer has run, what the reducer was given is the critical events of the log after the first load up to the cursor, as they were logged. |
| `ToastPipeline.PollCatchesUp` | dashboard/src/hooks/useLiveFeed.js:42-53 | A batch that is not full brings everything later than the cursor that was indexed when it was served. |
| `ToastPipeline.AnswerAfter` | servers/platform-api/app/events_api.py:47-72 | A query with a cursor is answered in order with later events, and leaves one out only if the batch is full of earlier ones. |
| `ToastPipeline.AnswerFirst` | servers/platform-api/app/events_api.py:47-72 | The first query is answered with the newest events, newest first. |
| `ToastInputs.TieIsMissed` | servers/platform-api/app/events_api.py:49 | A run from mounting, for every limit and every full batch: of two events of one time on both sides of the limit the second is passed over. |
| `ToastInputs.LateIsMissed` | servers/platform-api/app/events_api.py:49 | A run from mounting: an event indexed behind a later one that is on its way is passed over. |
| `ToastInputs.BehindFirstIsMissed` | dashboard/src/hooks/useLiveFeed.js:43-53 | A run from mounting: an event indexed just after the first load with a time up to its newest is passed over. |
| `ToastInputs.DuringFirstIsMissed` | dashboard/src/hooks/useLiveFeed.js:43-53 | A run from mounting: so is one indexed while the answer of the first load is on its way. |
| `ToastStack.CriticalToastStack.constructor` | dashboard/src/components/CriticalToastStack.jsx:55-60 | No toast and nothing processed. |
| `ToastStack.CriticalToastStack.Consume` | dashboard/src/components/CriticalToastStack.jsx:126-158 | Everything behind the last processed event goes through the reducer, in order, and the last id moves to the end. |
| `ToastStack.ReduceOutcome` | dashboard/src/components/CriticalToastStack.jsx:135-158 | One event either is taken by the one active toast of its group, which then shows it, counts one more, is bumped and unbound, or is appended as a new toast, sending out exactly the oldest of five active toasts; every other toast stays as it is. |
| `ToastStack.ActionOutcome` | dashboard/src/components/CriticalToastStack.jsx:113-117 | An exit marks the active toast of the id with its reason, an incident is bound to the toast of the id, a removal takes it away; all other toasts stay, in their order. |
| `ToastStack.GroupsTold` | dashboard/src/components/CriticalToastStack.jsx:49-51 | Two events are of one group if and only if source and message agree, or one source goes on behind a bar with the front of the other message. |
| `ToastStack.PlainGroupsTold` | dashboard/src/components/CriticalToastStack.jsx:49-51 | For sources without a bar a group is a source and a message. |
| `ToastStack.CardsTellTheirEvents` | dashboard/src/components/CriticalToastStack.jsx:135-158 | Over every run each active card shows the last event of its group that was taken, counts all of its group since the one that made it, and is bound to the incident found for it since the last of them, if any. |
| `ToastStack.EveryReachableStack` | dashboard/src/components/CriticalToastStack.jsx:113-158 | In every reachable stack at most five toasts are active, active ones have distinct groups, and counts shown plus counts removed add up to the events consumed. |
| `ToastStack.ExitReasonIsFinal` | dashboard/src/components/CriticalToastStack.jsx:113-117 | A toast on its way out keeps its reason, event and count over any run. |
| `ToastStack.BatchRuns` | dashboard/src/components/CriticalToastStack.jsx:135-158 | A batch of new events is a legal run of the reducer, so its counts add up. |
| `ToastStack.VisibleLimit` | dashboard/src/components/CriticalToastStack.jsx:78-99 | Between one and five. |
| `ToastStack.VisibleLimitIsWhatFits` | dashboard/src/components/CriticalToastStack.jsx:86-99 | Two to five cards of the tallest height with 8 pixels between them fit into the available height if and only if they are within the limit. |
| `ToastStack.VisibleLimitFallsBack` | dashboard/src/components/CriticalToastStack.jsx:78-90 | Without room known, or without a card that has a height, the limit is five. |
| `ToastTimers.TimerTable.constructor` | dashboard/src/components/CriticalToastStack.jsx:59-72 | An empty table; the exit delay is 300 ms, or 0 with reduced motion. |
| `ToastTimers.TimerTable.SetTimeout` | dashboard/src/components/CriticalToastStack.jsx:181-193 | A new pending timeout under a handle never used before. |
| `ToastTimers.TimerTable.ClearTimeout` | dashboard/src/components/CriticalToastStack.jsx:180 | Clearing a handle, if there is one, removes that timeout and nothing else. |
| `ToastTimers.TimerTable.SyncOne` | dashboard/src/components/CriticalToastStack.jsx:176-223 | One turn of the effect: arm, re-arm, change the rest of a paused card, or send it out. |
| `ToastTimers.TimerTable.Sync` | dashboard/src/components/CriticalToastStack.jsx:172-229 | The whole effect, and entries of gone cards dropped. |
| `ToastTimers.TimerTable.Pause` | dashboard/src/components/CriticalToastStack.jsx:270-279 | Stops the timeout and keeps the rest, never below zero. |
| `ToastTimers.TimerTable.Resume` | dashboard/src/components/CriticalToastStack.jsx:281-287 | Starts a timeout for the rest that was kept. |
| `ToastTimers.SyncAll` | dashboard/src/components/CriticalToastStack.jsx:172-223 | The effect settles every card shown and disturbs no other. |
| `ToastTimers.AlwaysInv` | dashboard/src/components/CriticalToastStack.jsx:172-293 | Every run keeps one consistent entry per card: paused exactly while hovered, else one timeout due when the rest has run. |
| `ToastTimers.ExpiresOnTime` | dashboard/src/components/CriticalToastStack.jsx:189-222 | A card that expires by its timeout is not hovered and its un-hovered time since it was last armed has reached 15000 ms, or 2000 ms with an incident bound to it; exactly so with punctual timers. |
| `ToastTimers.ExpiryIsPending` | dashboard/src/components/CriticalToastStack.jsx:189-287 | With punctual timers every active card has exactly one timeout, due when 15000 ms, or 2000 ms with an incident, have run un-hovered, and none while hovered. |
| `ToastTimers.ReArmedWhileHovered` | dashboard/src/components/CriticalToastStack.jsx:200-210 | In every run, a bump or an activation of a hovered card leaves it paused with its full new lifetime, 15000 or 2000 ms, and no timeout; when the pointer leaves, its one timeout is due after exactly that. |
| `ToastLifetimes.CardStarts` | dashboard/src/components/CriticalToastStack.jsx:192-199 | In every reachable state a new card starts with one timeout, due 15000 ms later. |
| `ToastLifetimes.BumpStartsAnew` | dashboard/src/components/CriticalToastStack.jsx:200-221 | A bump starts 15000 ms anew, whatever was left and whatever the card was bound to: one timeout due then, or all of it kept while hovered. |
| `ToastLifetimes.FindingStartsAnew` | dashboard/src/components/CriticalToastStack.jsx:200-221 | An incident found for a card without one starts 2000 ms on it in the same way. |
| `ToastLifetimes.SentOutBy` | dashboard/src/components/CriticalToastStack.jsx:113-149 | A click sends out the clicked card as dismissed, a timeout its own as expired, and a batch only evicts. |
| `ToastLifetimes.SentOutGoes` | dashboard/src/components/CriticalToastStack.jsx:178-187 | A card sent out stays on its way until the exit time is over, whatever happens meanwhile, hovering included, and with punctual timers is gone for good after it. |
| `ToastLifetimes.EntriesAreOfCards` | dashboard/src/components/CriticalToastStack.jsx:225-228 | In every run only cards on the screen have a timer entry. |
| `IncidentCsv.CsvRoundTrip` | dashboard/src/lib/exportIncident.js:16-28 | Reading an emitted table by section 2 of RFC 4180 gives back every sanitised cell in its place, for all contents. |
| `IncidentCsv.ReportRoundTrip` | dashboard/src/lib/exportIncident.js:43-84 | A report reads back as the fifteen column names and one row per storyline entry, each cell under its name: the ten of the incident, empty where a value is missing, and the five of the entry, its detail on one line. |
| `IncidentCsv.QuotedIfNeeded` | dashboard/src/lib/exportIncident.js:24-27 | A cell is quoted if and only if it holds a quote, a comma or a line feed. |
| `IncidentCsv.ReadCell` | dashboard/src/lib/exportIncident.js:16-28 | One escaped cell followed by a comma, a row break or the end is read as the sanitised cell. |
| `IncidentCsv.NoNewline` | dashboard/src/lib/exportIncident.js:80 | The detail of an entry is on one line. |
| `IncidentCsv.SanitisedIsInert` | dashboard/src/lib/exportIncident.js:9-23 | No cell read back starts a formula, and only cells that would are changed. |
| `IncidentCsv.SanitisedMerges` | dashboard/src/lib/exportIncident.js:18-23 | Two cells become the same if and only if they were, or one is the other with its apostrophe already there. |
| `IncidentPdf.PdfReport.constructor` | dashboard/src/lib/exportIncident.js:101-103 | The cursor starts at the top margin of the first page. |
| `IncidentPdf.PdfReport.EnsureSpace` | dashboard/src/lib/exportIncident.js:105-110 | Afterwards the height fits above the bottom margin, on a new page exactly if it did not fit. |
| `IncidentPdf.PdfReport.WriteLines` | dashboard/src/lib/exportIncident.js:112-120 | Every line once, in order, the layout kept. |
| `IncidentPdf.PdfReport.WriteHead` | dashboard/src/lib/exportIncident.js:122-140 | Heading, title lines and facts. |
| `IncidentPdf.PdfReport.WriteDivider` | dashboard/src/lib/exportIncident.js:142-151 | The rule and the storyline heading. |
| `IncidentPdf.PdfReport.WriteEntry` | dashboard/src/lib/exportIncident.js:154-168 | The heading and the detail lines of an entry. |
| `IncidentPdf.PdfReport.WriteStory` | dashboard/src/lib/exportIncident.js:153-169 | All entries in order. |
| `IncidentPdf.PdfReport.WriteFooter` | dashboard/src/lib/exportIncident.js:171-175 | The last line. |
| `IncidentPdf.PdfReport.Export` | dashboard/src/lib/exportIncident.js:100-176 | For any lines, all marks of the report are drawn once and in order, every one between 15 and 282 mm, on one page at least 5 mm below the one before. |
| `IncidentPdf.ReportTold` | dashboard/src/lib/exportIncident.js:122-175 | The marks one by one: the heading, the title lines, each fact behind its label, the rule, the storyline, the footer. |
| `IncidentPdf.StoryTold` | dashboard/src/lib/exportIncident.js:153-169 | In the storyline each entry's heading comes right behind the entries before it, and its lines follow in order. |
| `IncidentPdf.PageCapacity` | dashboard/src/lib/exportIncident.js:90-110 | Marks on one page keep their distance, so a page holds at most 54. |
| `IncidentPdf.PagesAscend` | dashboard/src/lib/exportIncident.js:105-110 | Pages follow one another and none is skipped. |
| `IncidentGrouping.ParsesExactly` | dashboard/src/lib/incidentGrouping.js:16-24 | A value is an address if and only if it is four dotted parts that each read as an integer from 0 to 255, and those are its octets in order. |
| `IncidentGrouping.PrefixTellsOctets` | dashboard/src/lib/incidentGrouping.js:31-36 | Prefix keys agree if and only if the leading octets of the tolerance do. |
| `IncidentGrouping.PrefixIsDivision` | dashboard/src/lib/incidentGrouping.js:26-36 | At 32, 24 and 16 bits two valid addresses share a key if and only if they agree divided by 2^(32 - bits). |
| `IncidentGrouping.KeysTold` | dashboard/src/lib/incidentGrouping.js:42-53 | Exactly when two incidents share a key, for scenario ids without a bar and no key type named "ip". |
| `IncidentGrouping.SimilarExactly` | dashboard/src/lib/incidentGrouping.js:16-53 | For the same incidents: two are similar if and only if their scenarios agree and both are keyed by addresses that share one octet, two from 16 bits, three from 24, all from 32, or neither is and their key types and values read the same; a missing or empty scenario or type reads as its default. |
| `IncidentGrouping.StayTogetherExactly` | dashboard/src/lib/incidentGrouping.js:42-53 | For all incidents: two that share a key at a finer tolerance share it at a coarser one if and only if they are not an address and a look-alike. |
| `IncidentGrouping.LookalikeBreaksRefinement` | dashboard/src/lib/incidentGrouping.js:48-52 | A concrete pair that is together at 24 bits and apart at 16. |
| `IncidentGrouping.GroupSimilarIncidents` | dashboard/src/lib/incidentGrouping.js:61-76 | The loop and the sorts yield a grouping: one group per key with all its incidents newest first, groups by their newest incident. |
| `IncidentGrouping.ToGroups` | dashboard/src/lib/incidentGrouping.js:69-72 | Each bucket becomes one group. |
| `IncidentGrouping.GroupingPartitions` | dashboard/src/lib/incidentGrouping.js:61-76 | Every occurrence of an incident is in the group of its key and in no other; the representative is the newest. |
| `IncidentGrouping.GroupsInOrder` | dashboard/src/lib/incidentGrouping.js:69-76 | Groups come by their newest incident and members newest first, compared to the millisecond, members of one millisecond in input order; a group is counted by its members and represented by the first. |
| `IncidentGrouping.CountsAddUp` | dashboard/src/lib/incidentGrouping.js:71 | The counts of the groups add up to the number of incidents. |
| `IncidentGrouping.GroupsRefineExactly` | dashboard/src/lib/incidentGrouping.js:56-59 | The finer grouping refines the coarser one if and only if no address shares its finer key with something else. |
| `IncidentGrouping.PlainGroupsRefine` | dashboard/src/lib/incidentGrouping.js:56-59 | With scenario ids free of bars and no key type named "ip" it always does. |
| `TimeSeries.BuildBuckets` | dashboard/src/data/timeSeries.js:57-65 | The loop makes the evenly spaced buckets of the window, as many as the look-back divided by the width plus one. |
| `TimeSeries.BucketEvents` | dashboard/src/data/timeSeries.js:67-82 | The counting loop computes the tally; the index is always that of a bucket, so its guard never fires. |
| `TimeSeries.IndexInBounds` | dashboard/src/data/timeSeries.js:73-76 | The index of an event in range is that of the bucket whose interval holds it. |
| `TimeSeries.OneInterval` | dashboard/src/data/timeSeries.js:73-76 | An event in range falls into exactly one bucket interval. |
| `TimeSeries.BucketCounts` | dashboard/src/data/timeSeries.js:67-82 | Every bucket starts where it should and counts, per level, exactly the events of its interval. |
| `TimeSeries.Conservation` | dashboard/src/data/timeSeries.js:67-82 | The counts over all buckets and levels add up to the events in range. |
| `Percentile.NearestRank` | dashboard/src/data/mockLogs.js:138-145 | For 0 < p <= 100 the result is the smallest value with at least p percent of the values not above it. |
| `Percentile.ClampedRank` | dashboard/src/data/mockLogs.js:143 | Outside that range it is the smallest or the largest value. |
| `Percentile.PermutationInvariant` | dashboard/src/data/mockLogs.js:142 | For every percentile, inside 0 to 100 or not, the order of the input does not matter. |
| `Percentile.MonotoneInP` | dashboard/src/data/mockLogs.js:140-145 | A higher percentile is never smaller. |
| `Percentile.StatsInOrder` | dashboard/src/data/mockLogs.js:150-162 | Statistics exist if and only if some duration is a number, and p50 <= p90 <= p99 <= max. |
| `Percentile.StatsTold` | dashboard/src/data/mockLogs.js:150-162 | The statistics are of the numeric durations alone: how many there are, the largest of them, and the nearest ranks at 50, 90 and 99 percent. |
| `Percentile.AverageIsCentral` | dashboard/src/data/mockLogs.js:153-157 | The average is the mean to the nearest integer, halves up, where the mean is the last of the running sums divided by the count, and at most the maximum. |

## Left out

- `StaysClosed`: stamping a row and its transaction becoming visible to the watermark query is one step; in the database the transaction id is assigned just after the time is taken. One row is written per transaction.
- `SetIncidents`: React may run an updater after the statements that follow it; in the step hasMore is read from the new size. `IncidentRuns.HasMoreIsOnlyShown` proves that nothing else depends on it.
- `QuiescentConvergence`: a poller that is started anew leaves its earlier fetches and direct answers outside, where they must be careful; answers of superseded page requests, which do nothing, are dropped. Liveness of the poll timer is not modelled, a completed poll is given, with no reload meanwhile. The view filters the listed rows by status once more when it shows them.
- `NoResurrection`: the filter stays the same throughout, as it does in one mounted view of the list.
- `ExactlyOnce`: the consumer runs before each tick sends its request.
- `ExpiresOnTime`: hovering over a card before its first timer effect is not modelled; unmounting, which clears all timeouts, is not either.
- `Consume`: the polling that binds an event to its incident is reduced to an activation that may come at any time with any incident.
- `VisibleLimit`: measuring the page is a parameter.
- `ReportCsv`: the byte order mark, the blob and the download.
- `Export`: fonts, colours, horizontal positions and how the PDF library breaks text; any lines will do. Page height and advances are exact reals.
- `ParsesExactly`: `Number` on one part is a parameter, arbitrary but for being a function.
- `GroupSimilarIncidents`: parsing of dates; times are integers, compared to the millisecond.
- `BuildBuckets`: the bucket width is positive, since the loop of the code would not end otherwise; labels are locale text.
- `NearestRank`: rounding of floating-point products; numbers are exact.
- `ApiGetAllPages`: tokens, headers, error bodies and URL encoding.
- The spike detection and label formatting of the charts, the level distribution, the mock generators: small pure helpers with nothing to relate.
- Rendering, routing, the globe and the map, authentication, the correlation rules, the collectors and the load tests.
