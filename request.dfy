/**
 * A download request as the warehouse uses it: fixed unit, url and
 * destination; a candidate list filled once; a cursor that only moves
 * forward; a success flag and the errors of failed attempts.
 */
module Requests {
  import opened Model
  import opened Catalog

  class Request {
    const unit: UnitKey
    const url: string
    const destination: string
    var candidates: seq<Candidate>
    var cursor: nat
    var downloaded: bool
    var errors: seq<string>

    constructor (unit: UnitKey, url: string, destination: string)
      ensures this.unit == unit && this.url == url && this.destination == destination
      ensures State() == RequestState(destination, [], 0, false, [])
    {
      this.unit := unit;
      this.url := url;
      this.destination := destination;
      candidates := [];
      cursor := 0;
      downloaded := false;
      errors := [];
    }

    function State(): RequestState
      reads this
    {
      RequestState(destination, candidates, cursor, downloaded, errors)
    }

    /** `has_source()`. */
    predicate HasSource()
      reads this
      ensures HasSource() <==> Model.NextSource(State()).0.Some?
    {
      cursor < |candidates|
    }

    /** `find_sources(primary, sources)`: fill the candidates and start at the first. */
    method FindSources(ranked: seq<ContentSource>, catalog: ContentCatalogManager, now: int)
      modifies this`candidates, this`cursor
      ensures candidates == Resolve(ranked, catalog.entries, unit, url, now)
      ensures cursor == 0
    {
      candidates := Resolve(ranked, catalog.entries, unit, url, now);
      cursor := 0;
    }

    /** `next_source()`: hand out the candidate at the cursor and move past it. */
    method NextSource() returns (source: Option<Candidate>)
      modifies this`cursor
      ensures (source, State()) == Model.NextSource(old(State()))
      ensures old(cursor) <= cursor <= old(cursor) + 1
    {
      if cursor < |candidates| {
        source := Some(candidates[cursor]);
        cursor := cursor + 1;
      } else {
        source := None;
      }
    }
  }

  /** The states of a list of requests, in list order. */
  ghost function States(rs: seq<Request>): (ss: seq<RequestState>)
    reads rs
    ensures |ss| == |rs|
    ensures forall i :: 0 <= i < |rs| ==> ss[i] == rs[i].State()
  {
    seq(|rs|, i reads rs requires 0 <= i < |rs| => rs[i].State())
  }

  /** The states of a list of requests, by request object. */
  ghost function StateMap(rs: seq<Request>): (m: map<Request, RequestState>)
    reads rs
    ensures m.Keys == set r | r in rs
    ensures forall r <- rs :: m[r] == r.State()
  {
    map r | r in rs :: r.State()
  }
}
