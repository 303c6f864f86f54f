/**
 * What the warehouse does that a caller can observe — dispatches, downloader
 * cancels, listener notifications, catalogue maintenance — and the reaction
 * of the transport event bridge to one transport event.
 */
module Events {
  import opened Model
  import opened Collating

  /** The three methods of the caller's listener. */
  datatype Callback = Started | Succeeded | Failed

  /** What the transport reports about one job. */
  datatype Outcome = Start | Success | Failure(errorMsg: string)

  /** The listener method the bridge forwards each outcome to. */
  function CallbackFor(outcome: Outcome): Callback {
    match outcome
    case Start => Started
    case Success => Succeeded
    case Failure(_) => Failed
  }

  /**
   * What the transport delivers while a batch is downloading: an outcome for
   * the job at an index of the batch, or a cancel() issued on the warehouse
   * by another thread meanwhile.
   */
  datatype TransportEvent =
    | Report(job: nat, outcome: Outcome)
    | CancelRequested

  /** One observable effect, recorded in the warehouse's trace. */
  datatype Event<R> =
    | Dispatched(source: SourceRef, jobs: seq<Job<R>>)
    | DownloaderCancelled(downloader: SourceRef)
    | Notified(callback: Callback, request: R)
    | SourceRefreshed(sourceId: SourceId)
    | ExpiredPurged
    | OrphansPurged(validIds: set<SourceId>)

  /** The request's new state and the effects of one bridge event. */
  datatype Reaction<R> = Reaction(state: RequestState, events: seq<Event<R>>)

  /**
   * The bridge's handling of one transport event for `request` (in state
   * `s`), given whether the warehouse is cancelled and has a listener.
   */
  function React<R>(cancelled: bool, hasListener: bool, downloader: SourceRef, request: R, s: RequestState, outcome: Outcome): (r: Reaction<R>)
    // once cancelled, an event only cancels the active downloader
    ensures cancelled ==> r.state == s && r.events == [DownloaderCancelled(downloader)]
    // otherwise the candidates and the cursor are never touched ...
    ensures !cancelled ==> r.state.candidates == s.candidates && r.state.cursor == s.cursor && r.state.destination == s.destination
    // ... a success marks the request downloaded, so it is never collated again ...
    ensures !cancelled && outcome == Success ==> r.state == s.(downloaded := true) && Advance(r.state) == r.state
    // ... a failure records its message, and a start changes nothing
    ensures !cancelled && outcome.Failure? ==> r.state == s.(errors := s.errors + [outcome.errorMsg])
    ensures !cancelled && outcome == Start ==> r.state == s
    // the listener hears of an event only with no cancel, and of a failure only when it is terminal
    ensures |r.events| <= 1
    ensures forall e <- r.events :: e.DownloaderCancelled? || e.Notified?
    ensures forall e <- r.events :: e.Notified? ==> !cancelled && hasListener && e.request == request
    // each outcome reaches its own listener method, and only a cancel cancels the downloader
    ensures !cancelled ==> forall e <- r.events :: e == Notified(CallbackFor(outcome), request)
    ensures !cancelled && hasListener && !outcome.Failure? ==> |r.events| == 1
    ensures !cancelled && hasListener && outcome.Failure? ==> (|r.events| == 1 <==> !HasSource(s))
    ensures !cancelled && !hasListener ==> r.events == []
  {
    if cancelled then Reaction(s, [DownloaderCancelled(downloader)])
    else
      match outcome
      case Start =>
        Reaction(s, if hasListener then [Notified(Started, request)] else [])
      case Success =>
        Reaction(s.(downloaded := true), if hasListener then [Notified(Succeeded, request)] else [])
      case Failure(msg) =>
        var failed := s.(errors := s.errors + [msg]);
        Reaction(failed, if hasListener && !HasSource(failed) then [Notified(Failed, request)] else [])
  }

  /** After a success, the next round gives the request no job. */
  lemma SucceededNeverCollatedAgain<R>(rs: seq<R>, ss: seq<RequestState>, i: nat, hasListener: bool, downloader: SourceRef)
    requires |rs| == |ss| && Distinct(rs) && i < |ss|
    ensures NoJobFor(Collation(rs, ss[i := React(false, hasListener, downloader, rs[i], ss[i], Success).state]), rs[i])
  {
    var next := ss[i := React(false, hasListener, downloader, rs[i], ss[i], Success).state];
    forall key, k | key in Collation(rs, next) && 0 <= k < |Collation(rs, next)[key]|
      ensures Collation(rs, next)[key][k].data != rs[i]
    {
      CollationSound(rs, next, key, k);
    }
  }

  /**
   * A failure with candidates left stays silent, and the next round retries
   * the request at its next candidate.
   */
  lemma SilentFailureRetried<R>(rs: seq<R>, ss: seq<RequestState>, i: nat, hasListener: bool, downloader: SourceRef, msg: string)
    requires |rs| == |ss| && i < |ss| && Pending(ss[i])
    ensures var r := React(false, hasListener, downloader, rs[i], ss[i], Failure(msg));
      var c := Collation(rs, ss[i := r.state]);
      var next := ss[i].candidates[ss[i].cursor];
      && r.events == []
      && next.source in c
      && Job(next.address, ss[i].destination, rs[i]) in c[next.source]
  {
    var r := React(false, hasListener, downloader, rs[i], ss[i], Failure(msg));
    CollationComplete(rs, ss[i := r.state], i);
  }

  /**
   * A failure on the last candidate is reported to a listener, once, and the
   * request gets no further job.
   */
  lemma TerminalFailureReported<R>(rs: seq<R>, ss: seq<RequestState>, i: nat, downloader: SourceRef, msg: string)
    requires |rs| == |ss| && Distinct(rs) && i < |ss| && !HasSource(ss[i])
    ensures var r := React(false, true, downloader, rs[i], ss[i], Failure(msg));
      && r.events == [Notified(Failed, rs[i])]
      && NoJobFor(Collation(rs, ss[i := r.state]), rs[i])
  {
    var next := ss[i := React(false, true, downloader, rs[i], ss[i], Failure(msg)).state];
    forall key, k | key in Collation(rs, next) && 0 <= k < |Collation(rs, next)[key]|
      ensures Collation(rs, next)[key][k].data != rs[i]
    {
      CollationSound(rs, next, key, k);
    }
  }

  /**
   * The bridge's view while one batch downloads: the warehouse's flag, every
   * request's state, and the trace so far.
   */
  datatype Delivery<R> = Delivery(cancelled: bool, states: map<R, RequestState>, trace: seq<Event<R>>)

  /**
   * One transport event of the batch `jobs`, handled by the bridge bound to
   * `downloader`: a report on a job of the batch goes through `React`; a
   * concurrent cancel() sets the flag.
   */
  ghost function DeliverOne<R>(hasListener: bool, downloader: SourceRef, jobs: seq<Job<R>>, d: Delivery<R>, e: TransportEvent): Delivery<R> {
    match e
    case CancelRequested => d.(cancelled := true)
    case Report(j, outcome) =>
      if j < |jobs| && jobs[j].data in d.states then
        var request := jobs[j].data;
        var r := React(d.cancelled, hasListener, downloader, request, d.states[request], outcome);
        Delivery(d.cancelled, d.states[request := r.state], d.trace + r.events)
      else d
  }

  /** The bridge's view after the transport has delivered `es`, in order. */
  ghost function Deliver<R>(hasListener: bool, downloader: SourceRef, jobs: seq<Job<R>>, d: Delivery<R>, es: seq<TransportEvent>): Delivery<R>
    decreases |es|
  {
    if |es| == 0 then d
    else DeliverOne(hasListener, downloader, jobs, Deliver(hasListener, downloader, jobs, d, es[..|es| - 1]), es[|es| - 1])
  }

  /** Delivering one more event of `es` is one more step of the bridge. */
  lemma DeliverStep<R>(hasListener: bool, downloader: SourceRef, jobs: seq<Job<R>>, d: Delivery<R>, es: seq<TransportEvent>, k: nat)
    requires k < |es|
    ensures Deliver(hasListener, downloader, jobs, d, es[..k + 1])
         == DeliverOne(hasListener, downloader, jobs, Deliver(hasListener, downloader, jobs, d, es[..k]), es[k])
  {
    assert es[..k + 1][..k] == es[..k];
  }

  /**
   * One round's dispatch loop, over the collation's keys in the order
   * `order`: each batch is recorded as dispatched and then delivers
   * `transport(round, key)` to its bridge.
   */
  ghost function DeliverRound<R>(hasListener: bool, collated: map<SourceRef, seq<Job<R>>>, transport: (nat, SourceRef) -> seq<TransportEvent>,
                                 round: nat, order: seq<SourceRef>, d: Delivery<R>): Delivery<R>
    requires forall key <- order :: key in collated
    decreases |order|
  {
    if |order| == 0 then d
    else
      var key := order[|order| - 1];
      var prior := DeliverRound(hasListener, collated, transport, round, order[..|order| - 1], d);
      Deliver(hasListener, key, collated[key], prior.(trace := prior.trace + [Dispatched(key, collated[key])]), transport(round, key))
  }

  /** The states of `rs`, in list order, read from a map that holds them all. */
  ghost function StatesOf<R>(rs: seq<R>, m: map<R, RequestState>): (ss: seq<RequestState>)
    requires forall r <- rs :: r in m
    ensures |ss| == |rs| && forall k :: 0 <= k < |rs| ==> ss[k] == m[rs[k]]
  {
    seq(|rs|, k requires 0 <= k < |rs| => m[rs[k]])
  }

  /**
   * One turn of `while not self.cancelled` that dispatched, from the state
   * `d` at its start to `d'` at its end: the flag was clear, the collation of
   * the requests was not empty, every request advanced, and the batches went
   * out in `order`, each followed by its downloader's events.
   */
  ghost predicate Round<R>(hasListener: bool, transport: (nat, SourceRef) -> seq<TransportEvent>, round: nat, rs: seq<R>,
                           d: Delivery<R>, order: seq<SourceRef>, d': Delivery<R>)
  {
    && (forall r <- rs :: r in d.states)
    && var collation := Collation(rs, StatesOf(rs, d.states));
       && !d.cancelled && |collation| > 0
       && Distinct(order) && (forall key <- order :: key in collation) && (forall key <- collation :: key in order)
       && d' == DeliverRound(hasListener, collation, transport, round, order, Delivery(d.cancelled, AdvanceEach(d.states), d.trace))
  }

  /** The download loop's rounds: round `i` runs from `history[i]` to `history[i + 1]`, dispatching in `orders[i]`. */
  ghost predicate Rounds<R>(hasListener: bool, transport: (nat, SourceRef) -> seq<TransportEvent>, rs: seq<R>,
                            history: seq<Delivery<R>>, orders: seq<seq<SourceRef>>)
  {
    && |history| == |orders| + 1
    && forall i :: 0 <= i < |orders| ==> Round(hasListener, transport, i, rs, history[i], orders[i], history[i + 1])
  }

  /** A round that dispatched `collation` in `order` from the last state of a run extends the run. */
  lemma RoundsExtend<R>(hasListener: bool, transport: (nat, SourceRef) -> seq<TransportEvent>, rs: seq<R>,
                        history: seq<Delivery<R>>, orders: seq<seq<SourceRef>>,
                        collation: map<SourceRef, seq<Job<R>>>, order: seq<SourceRef>, d': Delivery<R>)
    requires Rounds(hasListener, transport, rs, history, orders)
    requires var d := history[|history| - 1];
      && (forall r <- rs :: r in d.states)
      && collation == Collation(rs, StatesOf(rs, d.states)) && !d.cancelled && |collation| > 0
      && Distinct(order) && (forall key <- order :: key in collation) && (forall key <- collation :: key in order)
      && d' == DeliverRound(hasListener, collation, transport, |orders|, order, Delivery(d.cancelled, AdvanceEach(d.states), d.trace))
    ensures Rounds(hasListener, transport, rs, history + [d'], orders + [order])
  {
    var history', orders' := history + [d'], orders + [order];
    forall i | 0 <= i < |orders'| ensures Round(hasListener, transport, i, rs, history'[i], orders'[i], history'[i + 1]) {
      if i < |orders| {
        assert history'[i] == history[i] && history'[i + 1] == history[i + 1] && orders'[i] == orders[i];
      }
    }
  }

  /** The bridge only appends to the trace, and only downloader cancels and listener calls. */
  ghost predicate BridgeOnly<R>(t: seq<Event<R>>) {
    forall e <- t :: e.DownloaderCancelled? || e.Notified?
  }

  /**
   * Delivering a batch never touches the candidates, cursor or destination of
   * any request, and never clears the flag.
   */
  lemma {:induction false} DeliverFrame<R>(hasListener: bool, downloader: SourceRef, jobs: seq<Job<R>>, d: Delivery<R>, es: seq<TransportEvent>)
    ensures var d' := Deliver(hasListener, downloader, jobs, d, es);
      && (d.cancelled ==> d'.cancelled)
      && d'.states.Keys == d.states.Keys
      && (forall r <- d.states :: d'.states[r].candidates == d.states[r].candidates
                                  && d'.states[r].cursor == d.states[r].cursor
                                  && d'.states[r].destination == d.states[r].destination)
    decreases |es|
  {
    if |es| > 0 {
      DeliverFrame(hasListener, downloader, jobs, d, es[..|es| - 1]);
    }
  }

  /** One event only appends bridge events to the trace. */
  lemma DeliverOneAppends<R>(hasListener: bool, downloader: SourceRef, jobs: seq<Job<R>>, d: Delivery<R>, e: TransportEvent)
    ensures var d' := DeliverOne(hasListener, downloader, jobs, d, e);
      d.trace <= d'.trace && BridgeOnly(d'.trace[|d.trace|..])
  {
    var d' := DeliverOne(hasListener, downloader, jobs, d, e);
    if e.Report? && e.job < |jobs| && jobs[e.job].data in d.states {
      var r := React(d.cancelled, hasListener, downloader, jobs[e.job].data, d.states[jobs[e.job].data], e.outcome);
      assert d'.trace[|d.trace|..] == r.events;
    } else {
      assert d'.trace[|d.trace|..] == [];
    }
  }

  /** Delivering a batch only appends to the trace, and only downloader cancels and listener calls. */
  lemma {:induction false} DeliverTrace<R>(hasListener: bool, downloader: SourceRef, jobs: seq<Job<R>>, d: Delivery<R>, es: seq<TransportEvent>)
    ensures var d' := Deliver(hasListener, downloader, jobs, d, es);
      d.trace <= d'.trace && BridgeOnly(d'.trace[|d.trace|..])
    decreases |es|
  {
    if |es| > 0 {
      var prior := Deliver(hasListener, downloader, jobs, d, es[..|es| - 1]);
      DeliverTrace(hasListener, downloader, jobs, d, es[..|es| - 1]);
      DeliverOneAppends(hasListener, downloader, jobs, prior, es[|es| - 1]);
      var d' := Deliver(hasListener, downloader, jobs, d, es);
      assert d'.trace[|d.trace|..] == prior.trace[|d.trace|..] + d'.trace[|prior.trace|..];
    }
  }

  /**
   * Once the flag is set, a batch changes no request, and every effect it
   * has is a cancel of its own downloader.
   */
  lemma {:induction false} DeliverCancelled<R>(hasListener: bool, downloader: SourceRef, jobs: seq<Job<R>>, d: Delivery<R>, es: seq<TransportEvent>)
    requires d.cancelled
    ensures var d' := Deliver(hasListener, downloader, jobs, d, es);
      && d'.cancelled && d'.states == d.states && d.trace <= d'.trace
      && forall e <- d'.trace[|d.trace|..] :: e == DownloaderCancelled(downloader)
    decreases |es|
  {
    if |es| > 0 {
      var prior := Deliver(hasListener, downloader, jobs, d, es[..|es| - 1]);
      DeliverCancelled(hasListener, downloader, jobs, d, es[..|es| - 1]);
      var d' := Deliver(hasListener, downloader, jobs, d, es);
      assert d'.trace[|d.trace|..] == prior.trace[|d.trace|..] + d'.trace[|prior.trace|..];
    }
  }

  /** A failure reaches the listener only for a request with no candidate left. */
  lemma {:induction false} DeliverFailedIsTerminal<R>(hasListener: bool, downloader: SourceRef, jobs: seq<Job<R>>, d: Delivery<R>, es: seq<TransportEvent>, r: R)
    requires Notified(Failed, r) !in d.trace
    requires Notified(Failed, r) in Deliver(hasListener, downloader, jobs, d, es).trace
    ensures r in d.states && !HasSource(d.states[r])
    decreases |es|
  {
    var prior := Deliver(hasListener, downloader, jobs, d, es[..|es| - 1]);
    DeliverFrame(hasListener, downloader, jobs, d, es[..|es| - 1]);
    if Notified(Failed, r) in prior.trace {
      DeliverFailedIsTerminal(hasListener, downloader, jobs, d, es[..|es| - 1], r);
    } else {
      assert r in prior.states && !HasSource(prior.states[r]);
    }
  }

  /**
   * A round dispatches exactly the batches of its collation: the round's
   * trace records `Dispatched(key, jobs)` exactly for the keys it visits,
   * each with that key's own batch.
   */
  lemma {:induction false} RoundDispatchesExactly<R>(hasListener: bool, collated: map<SourceRef, seq<Job<R>>>, transport: (nat, SourceRef) -> seq<TransportEvent>,
                                                     round: nat, order: seq<SourceRef>, d: Delivery<R>, key: SourceRef, jobs: seq<Job<R>>)
    requires forall k <- order :: k in collated
    ensures d.trace <= DeliverRound(hasListener, collated, transport, round, order, d).trace
    ensures Dispatched(key, jobs) in DeliverRound(hasListener, collated, transport, round, order, d).trace[|d.trace|..]
            <==> key in order && jobs == collated[key]
    decreases |order|
  {
    if |order| > 0 {
      var n := |order| - 1;
      var last := order[n];
      var prior := DeliverRound(hasListener, collated, transport, round, order[..n], d);
      var sent := prior.(trace := prior.trace + [Dispatched(last, collated[last])]);
      var d' := DeliverRound(hasListener, collated, transport, round, order, d);
      RoundDispatchesExactly(hasListener, collated, transport, round, order[..n], d, key, jobs);
      DeliverTrace(hasListener, last, collated[last], sent, transport(round, last));
      assert d'.trace[|d.trace|..] == prior.trace[|d.trace|..] + [Dispatched(last, collated[last])] + d'.trace[|sent.trace|..];
      assert Dispatched(key, jobs) !in d'.trace[|sent.trace|..];
      assert order == order[..n] + [last];
    }
  }
}
