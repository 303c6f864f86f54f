# Alternate content source warehouse — a Dafny model

This project models the failover download engine of the content warehouse
(`server/pulp/server/content/sources/warehouse.py`). It proves properties of
that model.

The engine keeps a registry of alternate content sources and a `cancelled`
flag. A download runs in these steps:
- it refreshes the content catalogue, which records which source can supply
  which unit until an expiry time;
- it resolves each download request's ordered candidates, which are the
  catalogued alternates and then the primary source;
- it runs rounds. Each round collates every pending request under the source
  of its next candidate and dispatches one batch per source.

A transport event bridge (`NectarListener`) turns the transport's
started/succeeded/failed events into request updates and listener calls. Once
the warehouse is cancelled, each event instead cancels the active downloader.

Layout:
- `model.dfy` (`Model`): source references, candidates, refresh reports, a
  request's observable state, and `next_source()` as a function.
- `catalog.dfy` (`Catalog`):
  - the catalogue as a map from source id to entries;
  - `has_entries`, `purge_expired` and `purge_orphans`;
  - candidate resolution (`find_sources`);
  - the catalogue manager as a class.
- `request.dfy` (`Requests`): the download request as a class. It has a
  candidate sequence, a cursor, `downloaded` and `errors`.
- `collation.dfy` (`Collating`):
  - one collation pass as a function of the requests' states;
  - its soundness, completeness and counting lemmas;
  - the decreasing measure that ends the rounds.
- `events.dfy` (`Events`):
  - the observable events;
  - the bridge's reaction to one transport event as a function;
  - lemmas tying that reaction to the next collation.
- `refresh.dfy` (`Refreshing`): one refresh pass as functions of its inputs,
  and its lemmas.
- `warehouse.dfy` (`Warehouse`): the `ContentWarehouse`, `NectarListener` and
  `Listener` classes. Their methods are proved against the functions above.

The warehouse keeps a ghost `trace` of what a caller can observe but the
source does not return:
- dispatched batches;
- downloader cancels;
- listener calls;
- per-source refreshes;
- expiry and orphan purges.

The environment becomes parameters:
- `order` is the registry's iteration order;
- `outcome(id)` is what `source.refresh()` of source `id` does: it either
  returns reports and writes entries, or raises;
- `cancelAt` is where a `cancel()` from another thread lands during a
  refresh pass;
- `transport(round, source)` is the sequence of events the downloader of
  `source` delivers in a round;
- `now` is the clock during the refresh pass, and `resolveNow`, no earlier,
  is the clock when candidates are resolved.

The model follows the code in two places a reader might not expect:
- A refresh pass that sees the cancel flag returns `None`. It does not return
  the reports collected so far, and it does not purge expired entries.
- Within a round, the batches of the collation are all dispatched. The flag is
  read only at the round boundary (`while not self.cancelled`) and inside the
  bridge.

## Model

| member | source | states |
|---|---|---|
| Collating.Collation | server/pulp/server/content/sources/warehouse.py:47-57 | the collation of a pass; a source key is present only with at least one job |
| Collating.AddJobAppends | server/pulp/server/content/sources/warehouse.py:54-56 | `setdefault(key, []).append(job)` adds the key if new, puts the job last after the jobs already listed, and leaves every other key's list alone |
| Collating.CollateTurn | server/pulp/server/content/sources/warehouse.py:49-56 | a downloaded or exhausted request adds nothing; any other adds one job for its candidate at the cursor, under that candidate's source |
| Collating.Advance | server/pulp/server/content/sources/warehouse.py:49-52 | a pass moves a request's cursor by exactly one when the request is pending (not downloaded, candidate left), and changes nothing else |
| Collating.CollationSound | server/pulp/server/content/sources/warehouse.py:49-56 | every job belongs to a request that is not downloaded and still had a candidate; the job sits under that candidate's source, with its address, the request's destination, and the request as data |
| Collating.CollationComplete | server/pulp/server/content/sources/warehouse.py:49-56 | every pending request gets its job under the source of its next candidate |
| Collating.CollationDistinct | server/pulp/server/content/sources/warehouse.py:48-56 | with distinct requests, no two jobs of a collation serve the same request |
| Collating.CollationTotal | server/pulp/server/content/sources/warehouse.py:48-56 | the number of jobs over all sources equals the number of pending requests |
| Collating.CollationEmptyIff | server/pulp/server/content/sources/warehouse.py:103-107 | a collation is empty exactly when no request is pending: all satisfied or all exhausted |
| Collating.IdleRound | server/pulp/server/content/sources/warehouse.py:103-107 | a pass that finds nothing pending changes no request |
| Collating.CollationServesListed | server/pulp/server/content/sources/warehouse.py:103-111 | every job of a collation serves one of the collated requests |
| Collating.AdvanceConsumes | server/pulp/server/content/sources/warehouse.py:48-56 | a pass uses up exactly one remaining candidate per pending request |
| Collating.MeasureFrame | server/pulp/server/content/sources/warehouse.py:108-111 | the remaining-candidates measure depends only on candidates and cursors, which the bridge never touches |
| Collating.RoundDecreases | server/pulp/server/content/sources/warehouse.py:102-111 | a non-empty round strictly lowers the total of remaining candidates, so the download loop ends |
| Collating.TotalAddJob | server/pulp/server/content/sources/warehouse.py:54-56 | `setdefault(...).append(...)` adds exactly one job to the total |
| Collating.TotalRemove | server/pulp/server/content/sources/warehouse.py:54-56 | the job count splits over any one source key |
| Warehouse.ContentWarehouse.Collated | server/pulp/server/content/sources/warehouse.py:36-57 | `collated` returns exactly the collation of the requests' states on entry and leaves every request in its advanced state |
| Warehouse.ContentWarehouse.constructor | server/pulp/server/content/sources/warehouse.py:59-69 | a new warehouse holds the given registry, listener and catalogue, is not cancelled, and has observed nothing |
| Warehouse.ContentWarehouse.CollateOne | server/pulp/server/content/sources/warehouse.py:49-56 | one request's turn: a downloaded or exhausted request adds nothing; otherwise its candidate adds one job; the request's state advances |
| Warehouse.ContentWarehouse.Cancel | server/pulp/server/content/sources/warehouse.py:71-75 | sets the flag and, by its frame, changes nothing else |
| Warehouse.ContentWarehouse.Reset | server/pulp/server/content/sources/warehouse.py:77-81 | clears the flag and, by its frame, changes nothing else |
| Warehouse.ContentWarehouse.Download | server/pulp/server/content/sources/warehouse.py:83-111 | after reset and one unforced refresh, the catalogue is the refreshed catalogue and the trace begins with exactly that refresh's events; every request then holds its candidates resolved from that catalogue at a time no earlier than the refresh, with the cursor at the first and its success flag and errors as before; from there the loop is a run of rounds as `RunRounds` states, so a cancel during the refresh means no round at all; on return the warehouse is cancelled or no request is pending |
| Warehouse.ContentWarehouse.ResolveAndRun | server/pulp/server/content/sources/warehouse.py:99-111 | resolving every request and then looping starts the run of rounds from the resolved requests, with the flag and trace as they were |
| Warehouse.ContentWarehouse.FindAllSources | server/pulp/server/content/sources/warehouse.py:100-101 | every request's candidates are the catalogued alternates in priority order followed by the primary, with the cursor at the first; its success flag and errors are unchanged |
| Warehouse.ContentWarehouse.RunRounds | server/pulp/server/content/sources/warehouse.py:102-111 | the loop is a run of rounds from its starting state to its final one: each round starts with the flag clear, dispatches a non-empty collation and is exactly what `DownloadRound` does; the loop ends at the first boundary that sees the flag set or an empty collation, so a warehouse cancelled on entry dispatches nothing and changes no request; there are at most as many rounds as candidates left at the start |
| Warehouse.ContentWarehouse.RoundStep | server/pulp/server/content/sources/warehouse.py:102-111 | one turn of the loop entered with the flag clear: an idle round leaves the run as it was with nothing left to collate; any other round extends the run by that round and lowers the remaining-candidates measure |
| Warehouse.ContentWarehouse.DownloadRound | server/pulp/server/content/sources/warehouse.py:103-111 | the round's batches are exactly the collation of the requests' states on entry, each dispatched once; every cursor moves exactly as that pass moves it; the flag, the requests and the trace then evolve as the bridge's fold over the round's events; an idle round changes neither the flag, the trace nor any request, and leaves no request pending; a round that dispatches strictly lowers the remaining-candidates measure |
| Warehouse.ContentWarehouse.DispatchRound | server/pulp/server/content/sources/warehouse.py:108-111 | every batch is dispatched once, whatever the flag says; the new flag, request states and trace are the fold of the bridge over the batches in dispatch order, each batch adding its dispatch and then its events; candidates and cursors stay |
| Warehouse.ContentWarehouse.Dispatch | server/pulp/server/content/sources/warehouse.py:109-111 | records the dispatch of the batch, then the flag, request states and trace are the fold of the bridge's reaction over the downloader's events; candidates and cursors stay |
| Warehouse.ContentWarehouse.RunTransport | server/pulp/server/content/sources/warehouse.py:111 | the downloader's events reach a bridge bound to it in order, and the state evolves as the fold of the bridge's reaction over them |
| Warehouse.ContentWarehouse.DeliverEvent | server/pulp/server/content/sources/warehouse.py:207-260 | one transport event changes the flag, the named request and the trace as one step of that fold prescribes |
| Warehouse.ContentWarehouse.Refresh | server/pulp/server/content/sources/warehouse.py:113-137 | `refresh(force)` returns, writes and traces exactly what the refresh-pass functions prescribe; the flag ends set exactly when a concurrent cancel arrived |
| Warehouse.ContentWarehouse.RefreshSources | server/pulp/server/content/sources/warehouse.py:124-135 | the loop stops at the first check that sees the flag and otherwise visits every source, with reports, catalogue and trace as prescribed |
| Warehouse.ContentWarehouse.VisitSource | server/pulp/server/content/sources/warehouse.py:124-135 | one turn of the refresh loop: a set flag stops the pass at this source; otherwise the source is refreshed or skipped as prescribed |
| Warehouse.ContentWarehouse.FinishRefresh | server/pulp/server/content/sources/warehouse.py:136-137 | a pass that ran to its end purges the expired entries once and returns every collected report |
| Warehouse.ContentWarehouse.RefreshSource | server/pulp/server/content/sources/warehouse.py:127-135 | a source is refreshed only when forced or without unexpired entries; a raised exception becomes a report with its text |
| Warehouse.ContentWarehouse.PurgeOrphans | server/pulp/server/content/sources/warehouse.py:139-147 | the catalogue keeps exactly the entries of registered source ids, unchanged |
| Refreshing.AttemptedIff | server/pulp/server/content/sources/warehouse.py:124-129 | a source's refresh() is called exactly when it is reached and is forced or has no unexpired entries |
| Refreshing.NotYetAttempted | server/pulp/server/content/sources/warehouse.py:124 | the registry visits each source once, so a source is not refreshed before its turn |
| Refreshing.ReportsForContains | server/pulp/server/content/sources/warehouse.py:128-135 | the returned reports are exactly the reports of the refreshed sources, those of failed refreshes included |
| Refreshing.RaisedReported | server/pulp/server/content/sources/warehouse.py:131-135 | a refresh that raises still yields a report for its id holding the exception text, and the pass goes on |
| Refreshing.WrittenFrame | server/pulp/server/content/sources/warehouse.py:127-130 | only refreshed sources' catalogue entries change |
| Refreshing.RefreshLogContains | server/pulp/server/content/sources/warehouse.py:127-129 | the refresh log names exactly the refreshed sources |
| Refreshing.CancelledRefreshStops | server/pulp/server/content/sources/warehouse.py:124-126 | a cancel seen at source `c` makes refresh return None; no source from `c` on is refreshed; expired entries are not purged |
| Refreshing.CompletedRefreshPurgesOnce | server/pulp/server/content/sources/warehouse.py:124-137 | a pass without cancel refreshes exactly the forced or entry-less sources, purges once after the last refresh, and returns reports |
| Catalog.FreshOnly | server/pulp/server/content/sources/warehouse.py:136 | keeps exactly the unexpired entries |
| Catalog.UnexpiredSound | server/pulp/server/content/sources/warehouse.py:136 | `purge_expired` drops exactly the stale entries, keeps every source key, and preserves `has_entries` |
| Catalog.PurgeExpiredKeepsLookup | server/pulp/server/content/sources/warehouse.py:136 | purging expired entries never changes what a lookup at the same time finds |
| Catalog.FreshOnlyKeepsFirst | server/pulp/server/content/sources/warehouse.py:136 | the first fresh entry for a unit survives the purge |
| Catalog.WithoutOrphans | server/pulp/server/content/sources/warehouse.py:145-147 | the kept source ids are exactly the catalogued ids that are registered; their entries are untouched |
| Catalog.FirstFresh | server/pulp/server/content/sources/warehouse.py:101 | finds an unexpired entry for the unit exactly when one exists |
| Catalog.Alternates | server/pulp/server/content/sources/warehouse.py:101 | there are at most as many alternates as ranked sources, and every one is an alternate source |
| Catalog.AlternatesSound | server/pulp/server/content/sources/warehouse.py:101 | every alternate candidate is the source at some position of the ranked registry, at the address its catalogue entry gives for the unit |
| Catalog.AlternatesOrdered | server/pulp/server/content/sources/warehouse.py:101 | an earlier alternate comes from an earlier ranked source, so alternates keep the registry's priority order |
| Catalog.AlternatesDistinct | server/pulp/server/content/sources/warehouse.py:101 | when each source is ranked once, no source appears twice among a unit's alternates |
| Catalog.HasEntriesIff | server/pulp/server/content/sources/warehouse.py:127 | `has_entries(id)` holds exactly when the source keeps some entry after purging expired ones; a source without it gives no lookup result for any unit |
| Catalog.AlternatesComplete | server/pulp/server/content/sources/warehouse.py:101 | every ranked source the catalogue lists for the unit becomes a candidate |
| Catalog.Resolve | server/pulp/server/content/sources/warehouse.py:99-101 | the candidates end with the primary source at the request's own url, and all others are alternates |
| Warehouse.AlternatesByPriority | server/pulp/server/content/sources/warehouse.py:99-101 | with the registry ranked by priority, a request's alternates are registered sources, none twice, in ascending priority |
| Catalog.ContentCatalogManager.PurgeExpired | server/pulp/server/content/sources/warehouse.py:136 | the catalogue becomes its unexpired part |
| Catalog.ContentCatalogManager.PurgeOrphans | server/pulp/server/content/sources/warehouse.py:147 | the catalogue loses the entries of unregistered ids |
| Catalog.ContentCatalogManager.Replace | server/pulp/server/content/sources/warehouse.py:129 | a source's refresh replaces that source's entries |
| Requests.Request.FindSources | server/pulp/server/content/sources/warehouse.py:101 | fills the candidates from the catalogue and starts at the first |
| Requests.Request.NextSource | server/pulp/server/content/sources/warehouse.py:51-53 | hands out the candidate at the cursor and moves past it, or None without change when exhausted |
| Requests.Request.HasSource | server/pulp/server/content/sources/warehouse.py:258 | `has_source()` holds exactly when `next_source()` would hand out a candidate |
| Model.NextSource | server/pulp/server/content/sources/warehouse.py:51-52 | hands out a candidate exactly when the cursor is before the end, that candidate is one of the request's, only the cursor changes and by at most one |
| Model.CallsInOrder | server/pulp/server/content/sources/warehouse.py:51-52 | successive `next_source()` calls hand out the remaining candidates once each in list order, then None |
| Events.React | server/pulp/server/content/sources/warehouse.py:207-260 | once cancelled, an event cancels the downloader and changes nothing. Otherwise: candidates and cursor are never touched; a success sets `downloaded`; a failure appends its message; a start changes nothing. Without a cancel, the only effect is a call of the listener method matching the outcome (`download_started`, `download_succeeded`, `download_failed`) for the reported request, never a downloader cancel. The listener hears of an event only when there is one, and of a failure only when no candidate is left |
| Events.SucceededNeverCollatedAgain | server/pulp/server/content/sources/warehouse.py:234-235 | after a success, the next collation has no job for the request |
| Events.SilentFailureRetried | server/pulp/server/content/sources/warehouse.py:253-259 | a failure with candidates left is not reported, and the next round retries the request at its next candidate |
| Events.TerminalFailureReported | server/pulp/server/content/sources/warehouse.py:253-260 | a failure on the last candidate is reported once to the listener, and the request gets no further job |
| Events.DeliverFrame | server/pulp/server/content/sources/warehouse.py:207-260 | the bridge never clears the flag, never adds or drops a request, and never touches destinations, candidates or cursors |
| Events.DeliverTrace | server/pulp/server/content/sources/warehouse.py:207-260 | the bridge only appends to the trace, and only downloader cancels and listener notifications |
| Events.DeliverCancelled | server/pulp/server/content/sources/warehouse.py:214-216 | once the flag is set, no request changes, and every event only cancels the downloader |
| Events.DeliverFailedIsTerminal | server/pulp/server/content/sources/warehouse.py:253-260 | a failure reaches the listener only for a request that had no candidate left when the batch's events began |
| Events.RoundDispatchesExactly | server/pulp/server/content/sources/warehouse.py:108-111 | a round dispatches a source's batch exactly when that source is in the round's order, with exactly the collated jobs |
| Events.RoundsExtend | server/pulp/server/content/sources/warehouse.py:102-111 | a round that dispatched the collation of the run's last state, with the flag clear, extends the run of rounds by one |
| Warehouse.NectarListener.Notify | server/pulp/server/content/sources/warehouse.py:182-195 | forwards to the listener and records exactly one notification |
| Warehouse.NectarListener.constructor | server/pulp/server/content/sources/warehouse.py:197-205 | a bridge is bound to the given warehouse and the active downloader |
| Warehouse.NectarListener.CancelDownloader | server/pulp/server/content/sources/warehouse.py:215 | records a cancel of the bound downloader |
| Warehouse.NectarListener.DownloadStarted | server/pulp/server/content/sources/warehouse.py:207-221 | the request and trace change exactly as `React` prescribes for a start |
| Warehouse.NectarListener.DownloadSucceeded | server/pulp/server/content/sources/warehouse.py:223-239 | the request and trace change exactly as `React` prescribes for a success |
| Warehouse.NectarListener.DownloadFailed | server/pulp/server/content/sources/warehouse.py:241-260 | the request and trace change exactly as `React` prescribes for a failure |
| Warehouse.Listener.DownloadStarted | server/pulp/server/content/sources/warehouse.py:155-160 | the default listener ignores a start and leaves the request alone |
| Warehouse.Listener.DownloadSucceeded | server/pulp/server/content/sources/warehouse.py:162-167 | the default listener ignores a success and leaves the request alone |
| Warehouse.Listener.DownloadFailed | server/pulp/server/content/sources/warehouse.py:169-174 | the default listener ignores a failure and leaves the request alone |

## Left out

- The transport library is not modelled: download requests, `downloader.download` and the `event_listener` wiring. Each batch download is modelled as the sequence of events `transport(round, source)` that its downloader delivers. A report names a job of its own batch, and reports naming an index outside the batch are ignored.
- The transport's concurrency is not modelled. A batch's events arrive one at a time, in the given order.
- A concurrent `cancel()` during a download is modelled as a `CancelRequested` transport event.
- What `downloader.cancel()` does inside the transport is not modelled; it is only recorded in the trace.
- Loading sources from descriptor files (`ContentSource.load_all`) is not modelled; the constructor takes the registry.
- The database behind `managers.content_catalog_manager()` is not modelled; the catalogue is a map from source id to entries.
- The network fetch inside `source.refresh()` is not modelled; its result is the `outcome` parameter.
- Logging is not modelled: `log.error` and `log.exception`.
- Python dict iteration order is not modelled. For the registry it is the `order` parameter, which holds every registered id once. For a collation, batches go out in an order the model leaves open.
- `ContentSource`, `PrimarySource` and `Request` in `model.py` are not part of this model. The model uses only what `warehouse.py` uses of them:
  - `next_source()`, `has_source()` and `find_sources()`;
  - the request fields.
- The priority ordering that `find_sources` applies is modelled by the `ranked` parameter. `ranked` is the registry sorted by ascending priority.
- A source's downloader is modelled by its `SourceRef` identity.
- Warehouse.NectarListener.Notify: exceptions raised by the caller's listener are not modelled. Dafny methods cannot raise, and `_notify` swallows them, so a notification's effect is the same either way.
- Listener subclasses are not modelled. The `Listener` class is the no-op interface, and only the fact of a call is recorded, in the trace.
- Warehouse.ContentWarehouse.Collated: callers must pass distinct request objects. The source does not state this, but with a request listed twice, `collated` would advance that request's cursor twice in one pass.
- Warehouse.ContentWarehouse.Download: time does not pass within the refresh pass or between rounds. The refresh pass reads one instant `now`; resolution reads one instant `resolveNow`, no earlier. An entry expiring while `find_sources` runs is not modelled.
- A source's `refresh()` is modelled as writing only its own id's entries, in one `Replace`. One that raises may leave its id's entries rewritten or untouched. Writes by one source to another source's entries are not modelled.
- Warehouse.ContentWarehouse.Download: ignores the reports `refresh()` returns, as the source does.
