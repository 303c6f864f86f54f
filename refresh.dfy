/**
 * A catalogue refresh pass as a function of its inputs: which sources are
 * refreshed, which reports come back, what the catalogue holds afterwards
 * and what the pass leaves in the trace.
 */
module Refreshing {
  import opened Model
  import opened Catalog
  import opened Events

  /**
   * What `source.refresh()` does: it returns its reports after writing the
   * entries the source now advertises, or it raises with a message, possibly
   * after it has already rewritten its entries (`partial`). Either way it
   * writes only its own source's entries.
   */
  datatype RefreshOutcome =
    | Refreshed(reports: seq<RefreshReport>, written: seq<Entry>)
    | Raised(message: string, partial: Option<seq<Entry>>)

  /**
   * The sources among the first `n` of `order` whose refresh() is called:
   * forced, or without unexpired entries.
   */
  function Attempted(order: seq<SourceId>, n: nat, force: bool, entries: Entries, now: int): seq<SourceId>
    requires n <= |order|
  {
    if n == 0 then []
    else
      Attempted(order, n - 1, force, entries, now)
        + (if force || !HasEntries(entries, order[n - 1], now) then [order[n - 1]] else [])
  }

  /** The reports one refreshed source adds: its own, or one carrying the exception text. */
  function Contribution(id: SourceId, outcome: RefreshOutcome): seq<RefreshReport> {
    match outcome
    case Refreshed(reports, _) => reports
    case Raised(message, _) => [RefreshReport(id, "", [message])]
  }

  function ReportsFor(ids: seq<SourceId>, outcome: SourceId -> RefreshOutcome): seq<RefreshReport> {
    if |ids| == 0 then []
    else ReportsFor(ids[..|ids| - 1], outcome) + Contribution(ids[|ids| - 1], outcome(ids[|ids| - 1]))
  }

  /** The catalogue after one source's refresh: that source's entries as the refresh left them. */
  function Record(entries: Entries, id: SourceId, outcome: RefreshOutcome): Entries {
    match outcome
    case Refreshed(_, written) => entries[id := written]
    case Raised(_, partial) => if partial.Some? then entries[id := partial.value] else entries
  }

  /** The catalogue after the refreshes of `ids` have written their entries. */
  function Written(entries: Entries, ids: seq<SourceId>, outcome: SourceId -> RefreshOutcome): Entries {
    if |ids| == 0 then entries
    else
      var id := ids[|ids| - 1];
      Record(Written(entries, ids[..|ids| - 1], outcome), id, outcome(id))
  }

  /** How many sources the loop reaches before it sees the flag set by a concurrent cancel. */
  function Stop(order: seq<SourceId>, cancelAt: Option<nat>): nat {
    if cancelAt.Some? && cancelAt.value < |order| then cancelAt.value else |order|
  }

  function RefreshLog<R>(ids: seq<SourceId>): seq<Event<R>> {
    if |ids| == 0 then [] else RefreshLog(ids[..|ids| - 1]) + [SourceRefreshed(ids[|ids| - 1])]
  }

  /** What refresh() returns: None when it saw the cancel flag, else every report collected. */
  function RefreshResult(order: seq<SourceId>, force: bool, entries: Entries, outcome: SourceId -> RefreshOutcome, cancelAt: Option<nat>, now: int): Option<seq<RefreshReport>> {
    if Stop(order, cancelAt) < |order| then None
    else Some(ReportsFor(Attempted(order, |order|, force, entries, now), outcome))
  }

  /** The catalogue after refresh(): expired entries are purged only when the loop ran to its end. */
  function RefreshedEntries(order: seq<SourceId>, force: bool, entries: Entries, outcome: SourceId -> RefreshOutcome, cancelAt: Option<nat>, now: int): Entries {
    var stop := Stop(order, cancelAt);
    var written := Written(entries, Attempted(order, stop, force, entries, now), outcome);
    if stop < |order| then written else Unexpired(written, now)
  }

  /** The trace of refresh(): one event per refreshed source, then the purge unless cancelled. */
  function RefreshTrace<R>(order: seq<SourceId>, force: bool, entries: Entries, cancelAt: Option<nat>, now: int): seq<Event<R>> {
    var stop := Stop(order, cancelAt);
    RefreshLog(Attempted(order, stop, force, entries, now)) + (if stop < |order| then [] else [ExpiredPurged])
  }

  /** A pass that ran to its end: every attempted source, then the purge. */
  lemma RanToEnd<R>(order: seq<SourceId>, force: bool, entries: Entries, outcome: SourceId -> RefreshOutcome, cancelAt: Option<nat>, now: int)
    requires Stop(order, cancelAt) == |order|
    ensures var done := Attempted(order, |order|, force, entries, now);
      && RefreshResult(order, force, entries, outcome, cancelAt, now) == Some(ReportsFor(done, outcome))
      && RefreshedEntries(order, force, entries, outcome, cancelAt, now) == Unexpired(Written(entries, done, outcome), now)
      && RefreshTrace<R>(order, force, entries, cancelAt, now) == RefreshLog(done) + [ExpiredPurged]
  {
  }

  /** A pass that saw the flag at `Stop`: what was attempted before it, and no purge. */
  lemma StoppedEarly<R>(order: seq<SourceId>, force: bool, entries: Entries, outcome: SourceId -> RefreshOutcome, cancelAt: Option<nat>, now: int)
    requires Stop(order, cancelAt) < |order|
    ensures var done := Attempted(order, Stop(order, cancelAt), force, entries, now);
      && RefreshResult(order, force, entries, outcome, cancelAt, now) == None
      && RefreshedEntries(order, force, entries, outcome, cancelAt, now) == Written(entries, done, outcome)
      && RefreshTrace<R>(order, force, entries, cancelAt, now) == RefreshLog(done)
  {
  }

  /** One more refreshed source: its reports, catalogue write and trace event come last. */
  lemma RefreshedStep(ids: seq<SourceId>, id: SourceId, entries: Entries, outcome: SourceId -> RefreshOutcome)
    ensures ReportsFor(ids + [id], outcome) == ReportsFor(ids, outcome) + Contribution(id, outcome(id))
    ensures Written(entries, ids + [id], outcome) == Record(Written(entries, ids, outcome), id, outcome(id))
  {
    assert (ids + [id])[..|ids|] == ids;
  }

  lemma RefreshLogStep<R>(ids: seq<SourceId>, id: SourceId)
    ensures RefreshLog<R>(ids + [id]) == RefreshLog<R>(ids) + [SourceRefreshed(id)]
  {
    assert (ids + [id])[..|ids|] == ids;
  }

  /** A source is refreshed exactly when it is among the first `n` and forced or without unexpired entries. */
  lemma {:induction false} AttemptedIff(order: seq<SourceId>, n: nat, force: bool, entries: Entries, now: int, id: SourceId)
    requires n <= |order|
    ensures id in Attempted(order, n, force, entries, now) <==> id in order[..n] && (force || !HasEntries(entries, id, now))
  {
    if n > 0 {
      AttemptedIff(order, n - 1, force, entries, now, id);
      assert order[..n] == order[..n - 1] + [order[n - 1]];
    }
  }

  /** With every id once in the order, the source at `i` has not been refreshed before. */
  lemma NotYetAttempted(order: seq<SourceId>, i: nat, force: bool, entries: Entries, now: int)
    requires Distinct(order) && i < |order|
    ensures order[i] !in Attempted(order, i, force, entries, now)
  {
    AttemptedIff(order, i, force, entries, now, order[i]);
  }

  /**
   * Failures are contained: every refreshed source's reports, an exception's
   * report among them, are in the result, and the result holds nothing else.
   */
  lemma {:induction false} ReportsForContains(ids: seq<SourceId>, outcome: SourceId -> RefreshOutcome, report: RefreshReport)
    ensures report in ReportsFor(ids, outcome) <==> exists id <- ids :: report in Contribution(id, outcome(id))
  {
    if |ids| > 0 {
      var n := |ids| - 1;
      ReportsForContains(ids[..n], outcome, report);
      assert ids == ids[..n] + [ids[n]];
    }
  }

  /** A refresh that raises still yields a report, for its id, holding the exception text. */
  lemma RaisedReported(ids: seq<SourceId>, outcome: SourceId -> RefreshOutcome, id: SourceId)
    requires id in ids && outcome(id).Raised?
    ensures RefreshReport(id, "", [outcome(id).message]) in ReportsFor(ids, outcome)
  {
    ReportsForContains(ids, outcome, RefreshReport(id, "", [outcome(id).message]));
  }

  /** Only the refreshed sources' entries change. */
  lemma {:induction false} WrittenFrame(entries: Entries, ids: seq<SourceId>, outcome: SourceId -> RefreshOutcome, id: SourceId)
    requires id !in ids
    ensures (id in Written(entries, ids, outcome)) == (id in entries)
    ensures id in entries ==> Written(entries, ids, outcome)[id] == entries[id]
  {
    if |ids| > 0 {
      WrittenFrame(entries, ids[..|ids| - 1], outcome, id);
    }
  }

  /** The refresh log names exactly the refreshed sources and holds nothing but refresh events. */
  lemma {:induction false} RefreshLogContains<R>(ids: seq<SourceId>, e: Event<R>)
    ensures e in RefreshLog<R>(ids) <==> e.SourceRefreshed? && e.sourceId in ids
  {
    if |ids| > 0 {
      var n := |ids| - 1;
      RefreshLogContains<R>(ids[..n], e);
      assert ids == ids[..n] + [ids[n]];
    }
  }

  /**
   * A cancel seen at the check of source `c` ends the pass there: nothing is
   * returned, no source from `c` on is refreshed and the catalogue is not purged.
   */
  lemma CancelledRefreshStops<R>(order: seq<SourceId>, force: bool, entries: Entries, outcome: SourceId -> RefreshOutcome, c: nat, now: int)
    requires c < |order|
    ensures RefreshResult(order, force, entries, outcome, Some(c), now) == None
    ensures ExpiredPurged !in RefreshTrace<R>(order, force, entries, Some(c), now)
    ensures forall id :: SourceRefreshed(id) in RefreshTrace<R>(order, force, entries, Some(c), now) ==> id in order[..c]
  {
    RefreshLogContains<R>(Attempted(order, c, force, entries, now), ExpiredPurged);
    forall id | SourceRefreshed(id) in RefreshTrace<R>(order, force, entries, Some(c), now)
      ensures id in order[..c]
    {
      RefreshLogContains<R>(Attempted(order, c, force, entries, now), SourceRefreshed(id));
      AttemptedIff(order, c, force, entries, now, id);
    }
  }

  /**
   * A pass that sees no cancel refreshes every source it has to and purges
   * the catalogue exactly once, after the last refresh.
   */
  lemma CompletedRefreshPurgesOnce<R>(order: seq<SourceId>, force: bool, entries: Entries, outcome: SourceId -> RefreshOutcome, cancelAt: Option<nat>, now: int, id: SourceId)
    requires Stop(order, cancelAt) == |order|
    ensures var t := RefreshTrace<R>(order, force, entries, cancelAt, now);
      && |t| > 0 && t[|t| - 1] == ExpiredPurged && ExpiredPurged !in t[..|t| - 1]
      && (SourceRefreshed(id) in t <==> id in order && (force || !HasEntries(entries, id, now)))
    ensures RefreshResult(order, force, entries, outcome, cancelAt, now).Some?
  {
    var log := RefreshLog<R>(Attempted(order, |order|, force, entries, now));
    var t := RefreshTrace<R>(order, force, entries, cancelAt, now);
    assert t[..|t| - 1] == log;
    RefreshLogContains<R>(Attempted(order, |order|, force, entries, now), ExpiredPurged);
    RefreshLogContains<R>(Attempted(order, |order|, force, entries, now), SourceRefreshed(id));
    AttemptedIff(order, |order|, force, entries, now, id);
    assert order[..|order|] == order;
  }
}
