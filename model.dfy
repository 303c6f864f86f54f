/**
 * Values the alternate-content-source engine works on: content source
 * references, download candidates, refresh reports and the observable state
 * of one download request.
 */
module Model {

  type SourceId = string

  type UnitKey = string

  datatype Option<T> = None | Some(value: T)

  /** A registered alternate content source as the registry loads it. */
  datatype ContentSource = ContentSource(id: SourceId, priority: int)

  /**
   * What a collation is keyed by: a registered alternate source, or the
   * primary source wrapped around the caller's own downloader.
   */
  datatype SourceRef = Alternate(id: SourceId) | Primary

  /** One place a request may be fetched from: a source and an address there. */
  datatype Candidate = Candidate(source: SourceRef, address: string)

  /** The outcome of refreshing one source's catalogue entries. */
  datatype RefreshReport = RefreshReport(sourceId: SourceId, url: string, errors: seq<string>)

  /**
   * Everything the warehouse reads or writes of a request: where it is
   * written, the ordered candidates, the cursor into them, the success flag
   * and the errors collected so far.
   */
  datatype RequestState = RequestState(
    destination: string,
    candidates: seq<Candidate>,
    cursor: nat,
    downloaded: bool,
    errors: seq<string>)

  /** `has_source()`: some candidate has not been handed out yet. */
  predicate HasSource(s: RequestState) {
    s.cursor < |s.candidates|
  }

  /** A request that a collation pass gives a job to. */
  predicate Pending(s: RequestState) {
    !s.downloaded && HasSource(s)
  }

  /**
   * `next_source()`: the candidate at the cursor, with the cursor moved past
   * it, or None and no change once the candidates are used up.
   */
  function NextSource(s: RequestState): (r: (Option<Candidate>, RequestState))
    ensures r.0.Some? <==> HasSource(s)
    ensures r.0.Some? ==> r.0.value in s.candidates
    ensures r.1.(cursor := s.cursor) == s
    ensures s.cursor <= r.1.cursor <= s.cursor + 1
  {
    if HasSource(s) then (Some(s.candidates[s.cursor]), s.(cursor := s.cursor + 1))
    else (None, s)
  }

  /** What `n` successive `next_source()` calls hand out, in call order. */
  ghost function Calls(s: RequestState, n: nat): seq<Option<Candidate>>
    decreases n
  {
    if n == 0 then [] else [NextSource(s).0] + Calls(NextSource(s).1, n - 1)
  }

  /**
   * Successive `next_source()` calls hand out the remaining candidates once
   * each, in list order, and None from then on.
   */
  lemma {:induction false} CallsInOrder(s: RequestState, n: nat)
    ensures |Calls(s, n)| == n
    decreases n
    ensures forall k :: 0 <= k < n ==>
      Calls(s, n)[k] == (if s.cursor + k < |s.candidates| then Some(s.candidates[s.cursor + k]) else None)
  {
    if n > 0 {
      var next := NextSource(s).1;
      CallsInOrder(next, n - 1);
      forall k | 0 < k < n
        ensures Calls(s, n)[k] == (if s.cursor + k < |s.candidates| then Some(s.candidates[s.cursor + k]) else None)
      {
        assert Calls(s, n)[k] == Calls(next, n - 1)[k - 1];
        if HasSource(s) {
          assert next.cursor + (k - 1) == s.cursor + k;
        } else {
          assert next == s;
        }
      }
    }
  }

  ghost predicate Distinct<T>(s: seq<T>) {
    forall i, j :: 0 <= i < j < |s| ==> s[i] != s[j]
  }
}
