/**
 * The content warehouse: a registry of alternate content sources, a
 * cancellation flag and the download rounds that walk each request through
 * its candidates; and the bridge that turns transport events into request
 * updates and listener calls.
 *
 * The ghost `trace` records what a caller can observe and the source does
 * not return: dispatched batches, downloader cancels, listener calls,
 * catalogue refreshes and purges.
 */
module Warehouse {
  import opened Model
  import opened Catalog
  import opened Requests
  import opened Collating
  import opened Events
  import opened Refreshing

  /** The download listener interface: every notification is a no-op. */
  class Listener {
    constructor () {}

    method DownloadStarted(request: Request)
      ensures unchanged(request)
    {}

    method DownloadSucceeded(request: Request)
      ensures unchanged(request)
    {}

    method DownloadFailed(request: Request)
      ensures unchanged(request)
    {}
  }

  /** `ranked` is the registry, each source once, in ascending priority. */
  ghost predicate RankedRegistry(ranked: seq<ContentSource>, sources: map<SourceId, ContentSource>) {
    && (forall s <- ranked :: s.id in sources && sources[s.id] == s)
    && (forall id <- sources :: exists s <- ranked :: s.id == id)
    && (forall i, j :: 0 <= i < j < |ranked| ==> ranked[i].priority <= ranked[j].priority)
    && (forall i, j :: 0 <= i < j < |ranked| ==> ranked[i].id != ranked[j].id)
  }

  /**
   * A request's alternates are registered sources, each at most once, tried
   * in ascending priority.
   */
  lemma AlternatesByPriority(ranked: seq<ContentSource>, sources: map<SourceId, ContentSource>,
                             entries: Entries, unit: UnitKey, now: int, i: nat, j: nat)
    requires RankedRegistry(ranked, sources)
    requires i < j < |Alternates(ranked, entries, unit, now)|
    ensures Alternates(ranked, entries, unit, now)[i].source.id in sources
    ensures Alternates(ranked, entries, unit, now)[j].source.id in sources
    ensures Alternates(ranked, entries, unit, now)[i].source != Alternates(ranked, entries, unit, now)[j].source
    ensures sources[Alternates(ranked, entries, unit, now)[i].source.id].priority
         <= sources[Alternates(ranked, entries, unit, now)[j].source.id].priority
  {
    var a, b := AlternatesOrdered(ranked, entries, unit, now, i, j);
    assert ranked[a] in ranked && ranked[b] in ranked;
  }

  /** `order` is one iteration of the registry dict: every id exactly once. */
  ghost predicate IterationOrder(order: seq<SourceId>, sources: map<SourceId, ContentSource>) {
    && Distinct(order)
    && (forall id <- order :: id in sources)
    && (forall id <- sources :: id in order)
  }

  /** Reading the requests' states through the map gives their states in list order. */
  lemma StatesThroughMap(requests: seq<Request>)
    ensures forall r <- requests :: r in StateMap(requests)
    ensures StatesOf(requests, StateMap(requests)) == States(requests)
  {
  }

  /** Requests whose states are unchanged, by position, are unchanged by request. */
  twostate lemma UnchangedByRequest(requests: seq<Request>)
    requires States(requests) == old(States(requests))
    ensures StateMap(requests) == old(StateMap(requests))
  {
    forall r | r in requests ensures StateMap(requests)[r] == old(StateMap(requests))[r] {
      var k :| 0 <= k < |requests| && requests[k] == r;
      assert States(requests)[k] == old(States(requests))[k];
    }
  }

  /** A pass that advances every request of a list, by position, advances each, by request. */
  twostate lemma AdvancedByRequest(requests: seq<Request>)
    requires States(requests) == AdvanceAll(old(States(requests)))
    ensures StateMap(requests) == AdvanceEach(old(StateMap(requests)))
  {
    forall r | r in requests ensures StateMap(requests)[r] == AdvanceEach(old(StateMap(requests)))[r] {
      var k :| 0 <= k < |requests| && requests[k] == r;
      assert States(requests)[k] == AdvanceAll(old(States(requests)))[k];
    }
  }

  /** No request's cursor has moved past its last candidate. */
  ghost predicate CursorsInRange(requests: seq<Request>)
    reads requests
  {
    forall k :: 0 <= k < |requests| ==> requests[k].cursor <= |requests[k].candidates|
  }

  class ContentWarehouse {
    const sources: map<SourceId, ContentSource>
    const listener: Listener?
    const catalog: ContentCatalogManager
    var cancelled: bool
    ghost var trace: seq<Event<Request>>

    /** The registry is loaded elsewhere and handed in. */
    constructor (sources: map<SourceId, ContentSource>, listener: Listener?, catalog: ContentCatalogManager)
      ensures this.sources == sources && this.listener == listener && this.catalog == catalog
      ensures !cancelled && trace == []
    {
      this.sources := sources;
      this.listener := listener;
      this.catalog := catalog;
      cancelled := false;
      trace := [];
    }

    method Cancel()
      modifies this`cancelled
      ensures cancelled
    {
      cancelled := true;
    }

    method Reset()
      modifies this`cancelled
      ensures !cancelled
    {
      cancelled := false;
    }

    /**
     * `collated(request_list)`: one job per pending request, keyed by the
     * source its next_source() returns; every pending cursor moves by one.
     */
    static method Collated(requests: seq<Request>) returns (collated: map<SourceRef, seq<Job<Request>>>)
      requires Distinct(requests)
      modifies requests
      ensures collated == Collation(requests, old(States(requests)))
      ensures States(requests) == AdvanceAll(old(States(requests)))
      ensures StateMap(requests) == AdvanceEach(old(StateMap(requests)))
    {
      ghost var before := States(requests);
      collated := map[];
      var i := 0;
      while i < |requests|
        invariant 0 <= i <= |requests|
        invariant collated == Collation(requests[..i], before[..i])
        invariant forall k :: 0 <= k < i ==> requests[k].State() == Advance(before[k])
        invariant forall k :: i <= k < |requests| ==> requests[k].State() == before[k]
      {
        var request := requests[i];
        CollationStep(requests, before, i);
        collated := CollateOne(collated, request);
        assert forall k :: 0 <= k < |requests| && k != i ==> requests[k] != request;
        i := i + 1;
      }
      assert requests[..i] == requests;
      assert before[..i] == before;
      AdvancedByRequest(requests);
    }

    /** The body of the loop of `collated` for one request. */
    static method CollateOne(collated: map<SourceRef, seq<Job<Request>>>, request: Request)
      returns (collated': map<SourceRef, seq<Job<Request>>>)
      modifies request`cursor
      ensures collated' == Collate(collated, request, old(request.State()))
      ensures request.State() == Advance(old(request.State()))
    {
      collated' := collated;
      if request.downloaded {
        return;
      }
      var source := request.NextSource();
      if source.None? {
        return;
      }
      var nectarList := if source.value.source in collated then collated[source.value.source] else [];
      collated' := collated[source.value.source := nectarList + [Job(source.value.address, request.destination, request)]];
    }

    /**
     * `refresh(force)`. A cancel() from another thread that lands before the
     * check of the source at index `cancelAt` is modelled by `cancelAt`.
     */
    method Refresh(force: bool, order: seq<SourceId>, outcome: SourceId -> RefreshOutcome, cancelAt: Option<nat>, now: int)
      returns (reports: Option<seq<RefreshReport>>)
      requires IterationOrder(order, sources)
      requires cancelAt.Some? ==> cancelAt.value <= |order|
      modifies this`cancelled, this`trace, catalog
      ensures cancelled == cancelAt.Some?
      ensures reports == RefreshResult(order, force, old(catalog.entries), outcome, cancelAt, now)
      ensures catalog.entries == RefreshedEntries(order, force, old(catalog.entries), outcome, cancelAt, now)
      ensures trace == old(trace) + RefreshTrace(order, force, old(catalog.entries), cancelAt, now)
    {
      ghost var initial := catalog.entries;
      Reset();
      var collected, stopped, done := RefreshSources(force, order, outcome, cancelAt, now);
      if stopped {
        StoppedEarly<Request>(order, force, initial, outcome, cancelAt, now);
        reports := None;
      } else {
        RanToEnd<Request>(order, force, initial, outcome, cancelAt, now);
        // a concurrent cancel() may land after the last check
        reports := FinishRefresh(collected, cancelAt == Some(|order|), now);
      }
    }

    /**
     * The end of a refresh pass that ran through every source: purge the
     * expired entries and return the reports. `lateCancel` is a concurrent
     * cancel() landing after the last check, which the pass does not see.
     */
    method FinishRefresh(collected: seq<RefreshReport>, lateCancel: bool, now: int) returns (reports: Option<seq<RefreshReport>>)
      requires !cancelled
      modifies this`cancelled, this`trace, catalog
      ensures cancelled == lateCancel
      ensures catalog.entries == Unexpired(old(catalog.entries), now)
      ensures trace == old(trace) + [ExpiredPurged]
      ensures reports == Some(collected)
    {
      if lateCancel {
        Cancel();
      }
      catalog.PurgeExpired(now);
      trace := trace + [ExpiredPurged];
      reports := Some(collected);
    }

    /**
     * The loop of `refresh(force)` over the registry: it stops at the first
     * check that finds the flag set, else collects every refreshed source's
     * reports.
     */
    method RefreshSources(force: bool, order: seq<SourceId>, outcome: SourceId -> RefreshOutcome, cancelAt: Option<nat>, now: int)
      returns (collected: seq<RefreshReport>, stopped: bool, ghost done: seq<SourceId>)
      requires !cancelled && Distinct(order)
      requires cancelAt.Some? ==> cancelAt.value <= |order|
      modifies this`cancelled, this`trace, catalog
      ensures stopped == (Stop(order, cancelAt) < |order|) && cancelled == stopped
      ensures done == Attempted(order, Stop(order, cancelAt), force, old(catalog.entries), now)
      ensures collected == ReportsFor(done, outcome)
      ensures catalog.entries == Written(old(catalog.entries), done, outcome)
      ensures trace == old(trace) + RefreshLog(done)
    {
      ghost var initial := catalog.entries;
      collected := [];
      done := [];
      stopped := false;
      var i := 0;
      while i < |order| && !stopped
        invariant i <= Stop(order, cancelAt)
        invariant cancelled == stopped && (stopped ==> i == Stop(order, cancelAt) < |order|)
        invariant done == Attempted(order, i, force, initial, now)
        invariant collected == ReportsFor(done, outcome)
        invariant catalog.entries == Written(initial, done, outcome)
        invariant trace == old(trace) + RefreshLog(done)
        decreases |order| - i, if stopped then 0 else 1
      {
        NotYetAttempted(order, i, force, initial, now);
        collected, stopped, done := VisitSource(order, i, force, outcome, cancelAt, now, collected, initial, done, old(trace));
        if !stopped {
          i := i + 1;
        }
      }
    }

    /**
     * One turn of the refresh loop, at the source `order[i]`: the check of
     * the flag, which a concurrent cancel() may just have set, and then that
     * source's refresh.
     */
    method VisitSource(order: seq<SourceId>, i: nat, force: bool, outcome: SourceId -> RefreshOutcome, cancelAt: Option<nat>, now: int,
                       reports: seq<RefreshReport>, ghost initial: Entries, ghost done: seq<SourceId>, ghost base: seq<Event<Request>>)
      returns (reports': seq<RefreshReport>, stopped: bool, ghost done': seq<SourceId>)
      requires i < |order| && i <= Stop(order, cancelAt) && !cancelled
      requires done == Attempted(order, i, force, initial, now) && order[i] !in done
      requires reports == ReportsFor(done, outcome)
      requires catalog.entries == Written(initial, done, outcome)
      requires trace == base + RefreshLog(done)
      modifies this`cancelled, this`trace, catalog
      ensures cancelled == stopped && stopped == (cancelAt == Some(i))
      ensures stopped ==> i == Stop(order, cancelAt) && done' == done
      ensures !stopped ==> i + 1 <= Stop(order, cancelAt) && done' == Attempted(order, i + 1, force, initial, now)
      ensures reports' == ReportsFor(done', outcome)
      ensures catalog.entries == Written(initial, done', outcome)
      ensures trace == base + RefreshLog(done')
    {
      if cancelAt == Some(i) {
        // the concurrent cancel() lands here
        Cancel();
      }
      if cancelled {
        // `return` at the first check that sees the flag
        return reports, true, done;
      }
      reports', done' := RefreshSource(order[i], force, outcome, now, reports, initial, done, base);
      stopped := false;
    }

    /**
     * The body of the refresh loop for one source: call its refresh() when
     * forced or when it has no unexpired entries, and turn an exception into
     * a report carrying the exception's text; either way the reports are
     * appended to `reports`. `done` are the sources refreshed so far, from
     * catalogue `initial`, with trace `base` before them.
     */
    method RefreshSource(id: SourceId, force: bool, outcome: SourceId -> RefreshOutcome, now: int, reports: seq<RefreshReport>,
                         ghost initial: Entries, ghost done: seq<SourceId>, ghost base: seq<Event<Request>>)
      returns (reports': seq<RefreshReport>, ghost done': seq<SourceId>)
      requires id !in done
      requires reports == ReportsFor(done, outcome)
      requires catalog.entries == Written(initial, done, outcome)
      requires trace == base + RefreshLog(done)
      modifies this`trace, catalog
      ensures done' == done + (if force || !HasEntries(initial, id, now) then [id] else [])
      ensures reports' == ReportsFor(done', outcome)
      ensures catalog.entries == Written(initial, done', outcome)
      ensures trace == base + RefreshLog(done')
    {
      WrittenFrame(initial, done, outcome, id);
      if force || !catalog.HasEntriesFor(id, now) {
        RefreshedStep(done, id, initial, outcome);
        RefreshLogStep<Request>(done, id);
        trace := trace + [SourceRefreshed(id)];
        match outcome(id) {
          case Refreshed(sourceReports, written) =>
            catalog.Replace(id, written);
            reports' := reports + sourceReports;
          case Raised(message, partial) =>
            if partial.Some? {
              catalog.Replace(id, partial.value);
            }
            reports' := reports + [RefreshReport(id, "", [message])];
        }
        done' := done + [id];
      } else {
        reports' := reports;
        done' := done;
      }
    }

    /** `purge_orphans()`: the catalogue keeps exactly the registered sources' entries. */
    method PurgeOrphans()
      modifies this`trace, catalog
      ensures catalog.entries == WithoutOrphans(old(catalog.entries), sources.Keys)
      ensures trace == old(trace) + [OrphansPurged(sources.Keys)]
    {
      var validIds := sources.Keys;
      catalog.PurgeOrphans(validIds);
      trace := trace + [OrphansPurged(validIds)];
    }

    /**
     * One iteration of the dispatch loop: hand `jobs` to the downloader of
     * `source`, with a bridge bound to that downloader, and let the transport
     * deliver `events`. The flag, the requests and the trace end as `Deliver`
     * prescribes.
     */
    method Dispatch(source: SourceRef, jobs: seq<Job<Request>>, events: seq<TransportEvent>, ghost requests: seq<Request>)
      requires forall k :: 0 <= k < |jobs| ==> jobs[k].data in requests
      modifies this`cancelled, this`trace, requests
      ensures Delivery(cancelled, StateMap(requests), trace)
           == Deliver(listener != null, source, jobs,
                      Delivery(old(cancelled), old(StateMap(requests)), old(trace) + [Dispatched(source, jobs)]), events)
      ensures forall r <- requests :: r.candidates == old(r.candidates) && r.cursor == old(r.cursor)
    {
      trace := trace + [Dispatched(source, jobs)];
      var bridge := new NectarListener(this, source);
      RunTransport(bridge, jobs, events, requests);
    }

    /**
     * `downloader.download(nectar_list)`: the transport delivers `events`,
     * one at a time and in order, to the bridge bound to the downloader.
     */
    method RunTransport(bridge: NectarListener, jobs: seq<Job<Request>>, events: seq<TransportEvent>, ghost requests: seq<Request>)
      requires bridge.warehouse == this
      requires forall k :: 0 <= k < |jobs| ==> jobs[k].data in requests
      modifies this`cancelled, this`trace, requests
      ensures Delivery(cancelled, StateMap(requests), trace)
           == Deliver(listener != null, bridge.downloader, jobs, old(Delivery(cancelled, StateMap(requests), trace)), events)
      ensures forall r <- requests :: r.candidates == old(r.candidates) && r.cursor == old(r.cursor)
    {
      ghost var start := Delivery(cancelled, StateMap(requests), trace);
      var k := 0;
      while k < |events|
        invariant 0 <= k <= |events|
        invariant Delivery(cancelled, StateMap(requests), trace) == Deliver(listener != null, bridge.downloader, jobs, start, events[..k])
      {
        DeliverStep(listener != null, bridge.downloader, jobs, start, events, k);
        DeliverEvent(bridge, jobs, events[k], requests);
        k := k + 1;
      }
      assert events[..k] == events;
      DeliverFrame(listener != null, bridge.downloader, jobs, start, events);
      forall r <- requests ensures r.candidates == old(r.candidates) && r.cursor == old(r.cursor) {
        assert StateMap(requests)[r] == r.State() && start.states[r] == old(r.State());
      }
    }

    /** The transport delivers one event `e` of the batch `jobs` to `bridge`. */
    method DeliverEvent(bridge: NectarListener, jobs: seq<Job<Request>>, e: TransportEvent, ghost requests: seq<Request>)
      requires bridge.warehouse == this
      requires forall k :: 0 <= k < |jobs| ==> jobs[k].data in requests
      modifies this`cancelled, this`trace, requests
      ensures Delivery(cancelled, StateMap(requests), trace)
           == DeliverOne(listener != null, bridge.downloader, jobs, old(Delivery(cancelled, StateMap(requests), trace)), e)
      ensures forall r <- requests :: r.candidates == old(r.candidates) && r.cursor == old(r.cursor)
    {
      match e {
        case CancelRequested =>
          Cancel();
        case Report(j, outcome) =>
          // the transport reports only on the jobs of its own batch
          if j < |jobs| {
            var request := jobs[j].data;
            match outcome {
              case Start => bridge.DownloadStarted(request);
              case Success => bridge.DownloadSucceeded(request);
              case Failure(errorMsg) => bridge.DownloadFailed(request, errorMsg);
            }
            assert StateMap(requests) == old(StateMap(requests))[request := request.State()];
          }
      }
    }

    /**
     * `download(downloader, request_list)`: refresh, resolve every request's
     * candidates, then run rounds until a round has nothing to collate or the
     * flag is set at a round boundary. `now` is the clock during the refresh
     * and `resolveNow`, no earlier, the clock when candidates are resolved.
     * `transport(round, source)` is what the downloader of `source` delivers
     * in that round.
     */
    method Download(requests: seq<Request>, ranked: seq<ContentSource>, order: seq<SourceId>,
                    outcome: SourceId -> RefreshOutcome, cancelAt: Option<nat>, now: int, resolveNow: int,
                    transport: (nat, SourceRef) -> seq<TransportEvent>)
      returns (ghost resolvedAt: nat, ghost history: seq<Delivery<Request>>, ghost orders: seq<seq<SourceRef>>)
      requires now <= resolveNow
      requires Distinct(requests)
      requires RankedRegistry(ranked, sources) && IterationOrder(order, sources)
      requires cancelAt.Some? ==> cancelAt.value <= |order|
      modifies this`cancelled, this`trace, catalog, requests
      ensures catalog.entries == RefreshedEntries(order, false, old(catalog.entries), outcome, cancelAt, now)
      ensures resolvedAt <= |trace|
      ensures trace[..resolvedAt] == old(trace) + RefreshTrace(order, false, old(catalog.entries), cancelAt, now)
      ensures forall k :: 0 <= k < |requests| ==>
        && requests[k].candidates == Resolve(ranked, catalog.entries, requests[k].unit, requests[k].url, resolveNow)
        && requests[k].cursor <= |requests[k].candidates|
      ensures cancelled || forall k :: 0 <= k < |requests| ==> !Pending(requests[k].State())
      // after the refresh and the resolution, the download loop is a run of rounds
      ensures Rounds(listener != null, transport, requests, history, orders)
      ensures history[0].cancelled == cancelAt.Some? && history[0].trace == trace[..resolvedAt]
      ensures forall k :: 0 <= k < |requests| ==>
        && requests[k] in history[0].states
        && history[0].states[requests[k]]
           == old(requests[k].State()).(candidates := Resolve(ranked, catalog.entries, requests[k].unit, requests[k].url, resolveNow), cursor := 0)
      ensures history[|history| - 1] == Delivery(cancelled, StateMap(requests), trace)
    {
      Reset();
      var _ := Refresh(false, order, outcome, cancelAt, now);
      resolvedAt := |trace|;
      history, orders := ResolveAndRun(requests, ranked, resolveNow, transport);
    }

    /**
     * The part of `download` after the refresh: resolve every request's
     * candidates, then run the rounds from there.
     */
    method ResolveAndRun(requests: seq<Request>, ranked: seq<ContentSource>, now: int,
                         transport: (nat, SourceRef) -> seq<TransportEvent>)
      returns (ghost history: seq<Delivery<Request>>, ghost orders: seq<seq<SourceRef>>)
      requires Distinct(requests)
      modifies this`cancelled, this`trace, requests
      ensures old(trace) <= trace
      ensures forall k :: 0 <= k < |requests| ==>
        && requests[k].candidates == Resolve(ranked, catalog.entries, requests[k].unit, requests[k].url, now)
        && requests[k].cursor <= |requests[k].candidates|
      ensures cancelled || forall k :: 0 <= k < |requests| ==> !Pending(requests[k].State())
      ensures Rounds(listener != null, transport, requests, history, orders)
      ensures history[0].cancelled == old(cancelled) && history[0].trace == old(trace)
      ensures forall k :: 0 <= k < |requests| ==>
        && requests[k] in history[0].states
        && history[0].states[requests[k]]
           == old(requests[k].State()).(candidates := Resolve(ranked, catalog.entries, requests[k].unit, requests[k].url, now), cursor := 0)
      ensures history[|history| - 1] == Delivery(cancelled, StateMap(requests), trace)
    {
      FindAllSources(requests, ranked, now);
      history, orders := RunRounds(requests, transport);
    }

    /** `while not self.cancelled`: download rounds until one finds nothing to collate. */
    method RunRounds(requests: seq<Request>, transport: (nat, SourceRef) -> seq<TransportEvent>)
      returns (ghost history: seq<Delivery<Request>>, ghost orders: seq<seq<SourceRef>>)
      requires Distinct(requests)
      requires CursorsInRange(requests)
      modifies this`cancelled, this`trace, requests
      ensures CursorsInRange(requests)
      ensures forall k :: 0 <= k < |requests| ==> requests[k].candidates == old(requests[k].candidates)
      ensures old(trace) <= trace
      ensures cancelled || forall k :: 0 <= k < |requests| ==> !Pending(requests[k].State())
      // the loop is its rounds: each starts with the flag clear and dispatches a non-empty collation ...
      ensures Rounds(listener != null, transport, requests, history, orders)
      ensures history[0] == old(Delivery(cancelled, StateMap(requests), trace))
      ensures history[|history| - 1] == Delivery(cancelled, StateMap(requests), trace)
      // ... and it stops at the first boundary that sees the flag or an empty collation
      ensures cancelled || |Collation(requests, States(requests))| == 0
      ensures old(cancelled) ==> trace == old(trace) && States(requests) == old(States(requests))
      // there are at most as many rounds as candidates left at the start
      ensures |orders| <= old(Measure(States(requests)))
    {
      history, orders := [Delivery(cancelled, StateMap(requests), trace)], [];
      var round := 0;
      while !cancelled
        invariant old(trace) <= trace
        invariant CursorsInRange(requests)
        invariant forall k :: 0 <= k < |requests| ==> requests[k].candidates == old(requests[k].candidates)
        invariant Rounds(listener != null, transport, requests, history, orders) && round == |orders|
        invariant history[0] == old(Delivery(cancelled, StateMap(requests), trace))
        invariant history[|history| - 1] == Delivery(cancelled, StateMap(requests), trace)
        invariant old(cancelled) ==> cancelled && trace == old(trace) && States(requests) == old(States(requests))
        invariant round + Measure(States(requests)) <= old(Measure(States(requests)))
        decreases Measure(States(requests))
      {
        var idle;
        idle, history, orders := RoundStep(requests, round, transport, history, orders);
        if idle {
          return;
        }
        round := round + 1;
      }
    }

    /**
     * One turn of `while not self.cancelled`, entered with the flag clear:
     * run a round and, unless it was idle, add it to the run so far.
     */
    method RoundStep(requests: seq<Request>, round: nat, transport: (nat, SourceRef) -> seq<TransportEvent>,
                     ghost history: seq<Delivery<Request>>, ghost orders: seq<seq<SourceRef>>)
      returns (idle: bool, ghost history': seq<Delivery<Request>>, ghost orders': seq<seq<SourceRef>>)
      requires Distinct(requests) && CursorsInRange(requests) && !cancelled
      requires Rounds(listener != null, transport, requests, history, orders) && round == |orders|
      requires history[|history| - 1] == Delivery(cancelled, StateMap(requests), trace)
      modifies this`cancelled, this`trace, requests
      ensures CursorsInRange(requests)
      ensures forall k :: 0 <= k < |requests| ==> requests[k].candidates == old(requests[k].candidates)
      ensures old(trace) <= trace
      ensures Rounds(listener != null, transport, requests, history', orders')
      ensures history'[0] == history[0] && history'[|history'| - 1] == Delivery(cancelled, StateMap(requests), trace)
      ensures idle ==> history' == history && orders' == orders
      ensures idle ==> |Collation(requests, States(requests))| == 0 && forall k :: 0 <= k < |requests| ==> !Pending(requests[k].State())
      ensures !idle ==> |orders'| == round + 1 && Measure(States(requests)) < old(Measure(States(requests)))
    {
      ghost var before := States(requests);
      StatesThroughMap(requests);
      ghost var collation, order;
      idle, collation, order := DownloadRound(requests, round, transport);
      if idle {
        UnchangedByRequest(requests);
        history', orders' := history, orders;
      } else {
        ghost var now := Delivery(cancelled, StateMap(requests), trace);
        RoundsExtend(listener != null, transport, requests, history, orders, collation, order, now);
        history', orders' := history + [now], orders + [order];
      }
    }

    /**
     * One pass of the download loop: collate, and stop when nothing is left
     * to collate; else dispatch every batch of the collation, in the order
     * `order`. A pass that dispatches uses up candidates, which is why the
     * loop ends.
     */
    method DownloadRound(requests: seq<Request>, round: nat, transport: (nat, SourceRef) -> seq<TransportEvent>)
      returns (idle: bool, ghost collation: map<SourceRef, seq<Job<Request>>>, ghost order: seq<SourceRef>)
      requires Distinct(requests) && CursorsInRange(requests)
      modifies this`cancelled, this`trace, requests
      ensures CursorsInRange(requests)
      ensures collation == Collation(requests, old(States(requests)))
      ensures idle <==> |collation| == 0
      ensures idle ==> forall k :: 0 <= k < |requests| ==> !Pending(requests[k].State())
      ensures idle ==> cancelled == old(cancelled) && trace == old(trace) && States(requests) == old(States(requests))
      ensures !idle ==> Measure(States(requests)) < old(Measure(States(requests)))
      ensures forall k :: 0 <= k < |requests| ==>
        requests[k].candidates == old(requests[k].candidates) && requests[k].cursor == Advance(old(requests[k].State())).cursor
      ensures old(trace) <= trace
      // the round's batches are exactly the collation's, each dispatched once
      ensures Distinct(order) && (forall key <- order :: key in collation) && (forall key <- collation :: key in order)
      ensures forall key, jobs :: Dispatched(key, jobs) in trace[|old(trace)|..] <==> key in collation && jobs == collation[key]
      // and the flag, the requests and the trace evolve as the bridge's fold over them
      ensures !idle ==>
        Delivery(cancelled, StateMap(requests), trace)
          == DeliverRound(listener != null, collation, transport, round, order,
                          Delivery(old(cancelled), AdvanceEach(old(StateMap(requests))), old(trace)))
    {
      ghost var before := States(requests);
      collation := Collation(requests, before);
      var collated: map<SourceRef, seq<Job<Request>>> := Collated(requests);
      ghost var mid := States(requests);
      forall k | 0 <= k < |requests|
        ensures requests[k].candidates == before[k].candidates
        ensures requests[k].cursor == Advance(before[k]).cursor
      {
        assert mid[k] == Advance(before[k]);
      }
      if |collated| == 0 {
        // either every source is used up or every request is satisfied
        CollationEmptyIff(requests, before);
        IdleRound(before);
        return true, collation, [];
      }
      RoundDecreases(requests, before);
      CollationServesListed(requests, before);
      order := DispatchRound(collated, transport, round, requests);
      idle := false;
    }

    /** `request.find_sources(primary, self.sources)` for every request, in list order. */
    method FindAllSources(requests: seq<Request>, ranked: seq<ContentSource>, now: int)
      modifies requests
      ensures forall k :: 0 <= k < |requests| ==>
        requests[k].candidates == Resolve(ranked, catalog.entries, requests[k].unit, requests[k].url, now) && requests[k].cursor == 0
      ensures forall k :: 0 <= k < |requests| ==>
        requests[k].downloaded == old(requests[k].downloaded) && requests[k].errors == old(requests[k].errors)
      ensures forall k :: 0 <= k < |requests| ==>
        requests[k].State()
          == old(requests[k].State()).(candidates := Resolve(ranked, catalog.entries, requests[k].unit, requests[k].url, now), cursor := 0)
    {
      var i := 0;
      while i < |requests|
        invariant 0 <= i <= |requests|
        invariant forall k :: 0 <= k < i ==>
          requests[k].candidates == Resolve(ranked, catalog.entries, requests[k].unit, requests[k].url, now) && requests[k].cursor == 0
        invariant forall k :: 0 <= k < |requests| ==>
          requests[k].downloaded == old(requests[k].downloaded) && requests[k].errors == old(requests[k].errors)
      {
        requests[i].FindSources(ranked, catalog, now);
        i := i + 1;
      }
    }

    /**
     * One round's `for source, nectar_list in collated.items()`: every batch
     * is dispatched, in an order `order` the model leaves open, whatever the
     * flag says.
     */
    method DispatchRound(collated: map<SourceRef, seq<Job<Request>>>, transport: (nat, SourceRef) -> seq<TransportEvent>, round: nat,
                         ghost requests: seq<Request>)
      returns (ghost order: seq<SourceRef>)
      requires forall source: SourceRef, k: int | source in collated && 0 <= k < |collated[source]| :: collated[source][k].data in requests
      modifies this`cancelled, this`trace, requests
      ensures Distinct(order) && (forall key <- order :: key in collated) && (forall key <- collated :: key in order)
      ensures Delivery(cancelled, StateMap(requests), trace)
           == DeliverRound(listener != null, collated, transport, round, order, Delivery(old(cancelled), old(StateMap(requests)), old(trace)))
      ensures forall k :: 0 <= k < |requests| ==> requests[k].candidates == old(requests[k].candidates) && requests[k].cursor == old(requests[k].cursor)
      ensures Measure(States(requests)) == old(Measure(States(requests)))
      ensures old(trace) <= trace
      ensures forall key, jobs :: Dispatched(key, jobs) in trace[|old(trace)|..] <==> key in collated && jobs == collated[key]
    {
      ghost var before := States(requests);
      ghost var start := Delivery(cancelled, StateMap(requests), trace);
      var keys := collated.Keys;
      order := [];
      while keys != {}
        invariant keys <= collated.Keys
        invariant Distinct(order) && (forall key <- order :: key in collated && key !in keys)
        invariant forall key <- collated :: key in keys || key in order
        invariant Delivery(cancelled, StateMap(requests), trace) == DeliverRound(listener != null, collated, transport, round, order, start)
        invariant forall r <- requests :: r.candidates == old(r.candidates) && r.cursor == old(r.cursor)
        decreases keys
      {
        var source :| source in keys;
        Dispatch(source, collated[source], transport(round, source), requests);
        ghost var prior := order;
        order := order + [source];
        assert order[..|order| - 1] == prior;
        keys := keys - {source};
      }
      MeasureFrame(before, States(requests));
      RoundDispatchesExactly(listener != null, collated, transport, round, order, start, Primary, []);
      forall key, jobs
        ensures Dispatched(key, jobs) in trace[|old(trace)|..] <==> key in collated && jobs == collated[key]
      {
        RoundDispatchesExactly(listener != null, collated, transport, round, order, start, key, jobs);
      }
    }
  }

  /** `NectarListener`: the bridge bound to one warehouse and one active downloader. */
  class NectarListener {
    const warehouse: ContentWarehouse
    const downloader: SourceRef

    constructor (warehouse: ContentWarehouse, downloader: SourceRef)
      ensures this.warehouse == warehouse && this.downloader == downloader
    {
      this.warehouse := warehouse;
      this.downloader := downloader;
    }

    /** `downloader.cancel()`: the transport's own reaction is not modelled. */
    method CancelDownloader()
      modifies warehouse`trace
      ensures warehouse.trace == old(warehouse.trace) + [DownloaderCancelled(downloader)]
    {
      warehouse.trace := warehouse.trace + [DownloaderCancelled(downloader)];
    }

    /** `_notify(method, request)`: forward; whatever the listener raises ends here. */
    method Notify(callback: Callback, request: Request)
      requires warehouse.listener != null
      modifies warehouse`trace
      ensures warehouse.trace == old(warehouse.trace) + [Notified(callback, request)]
    {
      var listener := warehouse.listener;
      match callback {
        case Started => listener.DownloadStarted(request);
        case Succeeded => listener.DownloadSucceeded(request);
        case Failed => listener.DownloadFailed(request);
      }
      warehouse.trace := warehouse.trace + [Notified(callback, request)];
    }

    method DownloadStarted(request: Request)
      modifies warehouse`trace
      ensures var r := React(old(warehouse.cancelled), warehouse.listener != null, downloader, request, old(request.State()), Start);
        request.State() == r.state && warehouse.trace == old(warehouse.trace) + r.events
    {
      if warehouse.cancelled {
        CancelDownloader();
        return;
      }
      var listener := warehouse.listener;
      if listener == null {
        return;
      }
      Notify(Started, request);
    }

    method DownloadSucceeded(request: Request)
      modifies warehouse`trace, request`downloaded
      ensures var r := React(old(warehouse.cancelled), warehouse.listener != null, downloader, request, old(request.State()), Success);
        request.State() == r.state && warehouse.trace == old(warehouse.trace) + r.events
    {
      if warehouse.cancelled {
        CancelDownloader();
        return;
      }
      request.downloaded := true;
      var listener := warehouse.listener;
      if listener == null {
        return;
      }
      Notify(Succeeded, request);
    }

    method DownloadFailed(request: Request, errorMsg: string)
      modifies warehouse`trace, request`errors
      ensures var r := React(old(warehouse.cancelled), warehouse.listener != null, downloader, request, old(request.State()), Failure(errorMsg));
        request.State() == r.state && warehouse.trace == old(warehouse.trace) + r.events
    {
      if warehouse.cancelled {
        CancelDownloader();
        return;
      }
      request.errors := request.errors + [errorMsg];
      var listener := warehouse.listener;
      if listener == null {
        return;
      }
      if request.HasSource() {
        return;
      }
      Notify(Failed, request);
    }
  }
}
