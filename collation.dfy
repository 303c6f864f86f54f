/**
 * One collation pass, as a function of the requests' states: which jobs it
 * emits under which source, how the requests' cursors move, and why the
 * rounds of a download come to an end.
 */
module Collating {
  import opened Model

  /** A transport-level download job: source address, destination, and the request it serves. */
  datatype Job<R> = Job(url: string, destination: string, data: R)

  /** The state a request is left in by one collation pass. */
  function Advance(s: RequestState): (r: RequestState)
    ensures r.cursor == if Pending(s) then s.cursor + 1 else s.cursor
    ensures r == s.(cursor := r.cursor)
  {
    if s.downloaded then s else NextSource(s).1
  }

  function AdvanceAll(ss: seq<RequestState>): seq<RequestState> {
    seq(|ss|, i requires 0 <= i < |ss| => Advance(ss[i]))
  }

  /** The states of requests, keyed by request, after one collation pass. */
  ghost function AdvanceEach<R>(m: map<R, RequestState>): (r: map<R, RequestState>)
    ensures r.Keys == m.Keys
  {
    map q | q in m :: Advance(m[q])
  }

  /** `collated.setdefault(key, []).append(job)`. */
  function AddJob<R>(c: map<SourceRef, seq<Job<R>>>, key: SourceRef, job: Job<R>): map<SourceRef, seq<Job<R>>> {
    c[key := (if key in c then c[key] else []) + [job]]
  }

  /**
   * `setdefault(key, []).append(job)` adds `key` if it is new, puts `job`
   * last in its list after the jobs already there, and leaves every other
   * key's list alone.
   */
  lemma AddJobAppends<R>(c: map<SourceRef, seq<Job<R>>>, key: SourceRef, job: Job<R>)
    ensures AddJob(c, key, job).Keys == c.Keys + {key}
    ensures var jobs := AddJob(c, key, job)[key];
      && |jobs| > 0 && jobs[|jobs| - 1] == job
      && jobs[..|jobs| - 1] == (if key in c then c[key] else [])
    ensures forall k | k in c && k != key :: AddJob(c, key, job)[k] == c[k]
  {
    var jobs := AddJob(c, key, job)[key];
    assert jobs[..|jobs| - 1] == (if key in c then c[key] else []);
  }

  /**
   * One request's turn in a collation pass: unless it is downloaded, its
   * next_source() candidate, if any, adds one job under that candidate's
   * source.
   */
  function Collate<R>(c: map<SourceRef, seq<Job<R>>>, r: R, s: RequestState): map<SourceRef, seq<Job<R>>> {
    if s.downloaded then c
    else
      match NextSource(s).0
      case None => c
      case Some(source) => AddJob(c, source.source, Job(source.address, s.destination, r))
  }

  /**
   * A request that is downloaded or out of candidates adds nothing; any
   * other adds one job, for its candidate at the cursor, under that
   * candidate's source.
   */
  lemma CollateTurn<R>(c: map<SourceRef, seq<Job<R>>>, r: R, s: RequestState)
    ensures !Pending(s) ==> Collate(c, r, s) == c
    ensures Pending(s) ==>
      Collate(c, r, s) == AddJob(c, s.candidates[s.cursor].source, Job(s.candidates[s.cursor].address, s.destination, r))
  {
  }

  /** The collation built from requests `rs` in states `ss`, in list order. */
  function Collation<R>(rs: seq<R>, ss: seq<RequestState>): (c: map<SourceRef, seq<Job<R>>>)
    requires |rs| == |ss|
    ensures forall key | key in c :: |c[key]| > 0
    decreases |rs|
  {
    if |rs| == 0 then map[]
    else
      var n := |rs| - 1;
      Collate(Collation(rs[..n], ss[..n]), rs[n], ss[n])
  }

  /** Collating one more request: it adds its job, if it has one, to the collation so far. */
  lemma CollationStep<R>(rs: seq<R>, ss: seq<RequestState>, i: nat)
    requires |rs| == |ss| && i < |rs|
    ensures Collation(rs[..i + 1], ss[..i + 1]) == Collate(Collation(rs[..i], ss[..i]), rs[i], ss[i])
  {
    assert rs[..i + 1][..i] == rs[..i];
    assert ss[..i + 1][..i] == ss[..i];
  }

  /** Request `r` in state `s` is owed `job` under `key` in the next collation. */
  ghost predicate Emits<R>(r: R, s: RequestState, key: SourceRef, job: Job<R>) {
    && Pending(s)
    && key == s.candidates[s.cursor].source
    && job == Job(s.candidates[s.cursor].address, s.destination, r)
  }

  /** No job of collation `c` serves request `r`. */
  ghost predicate NoJobFor<R>(c: map<SourceRef, seq<Job<R>>>, r: R) {
    forall key, k | key in c && 0 <= k < |c[key]| :: c[key][k].data != r
  }

  /** Every job of a collation is owed to some pending request. */
  lemma {:induction false} CollationSound<R>(rs: seq<R>, ss: seq<RequestState>, key: SourceRef, k: nat)
    requires |rs| == |ss|
    requires key in Collation(rs, ss) && k < |Collation(rs, ss)[key]|
    ensures exists i :: 0 <= i < |ss| && Emits(rs[i], ss[i], key, Collation(rs, ss)[key][k])
    decreases |rs|
  {
    var n := |rs| - 1;
    var prior := Collation(rs[..n], ss[..n]);
    if key in prior && k < |prior[key]| && Collation(rs, ss)[key][k] == prior[key][k] {
      CollationSound(rs[..n], ss[..n], key, k);
      var i :| 0 <= i < n && Emits(rs[..n][i], ss[..n][i], key, prior[key][k]);
      assert Emits(rs[i], ss[i], key, Collation(rs, ss)[key][k]);
    } else {
      assert Emits(rs[n], ss[n], key, Collation(rs, ss)[key][k]);
    }
  }

  /** Every job of a collation serves one of the listed requests. */
  lemma CollationServesListed<R>(rs: seq<R>, ss: seq<RequestState>)
    requires |rs| == |ss|
    ensures forall key, k | key in Collation(rs, ss) && 0 <= k < |Collation(rs, ss)[key]| :: Collation(rs, ss)[key][k].data in rs
  {
    forall key, k | key in Collation(rs, ss) && 0 <= k < |Collation(rs, ss)[key]|
      ensures Collation(rs, ss)[key][k].data in rs
    {
      CollationSound(rs, ss, key, k);
    }
  }

  /** Every pending request is owed a job, under the source of its next candidate. */
  lemma {:induction false} CollationComplete<R>(rs: seq<R>, ss: seq<RequestState>, i: nat)
    requires |rs| == |ss| && i < |ss| && Pending(ss[i])
    ensures var key := ss[i].candidates[ss[i].cursor].source;
      && key in Collation(rs, ss)
      && exists k :: 0 <= k < |Collation(rs, ss)[key]|
                     && Collation(rs, ss)[key][k] == Job(ss[i].candidates[ss[i].cursor].address, ss[i].destination, rs[i])
    decreases |rs|
  {
    var n := |rs| - 1;
    var key := ss[i].candidates[ss[i].cursor].source;
    var job := Job(ss[i].candidates[ss[i].cursor].address, ss[i].destination, rs[i]);
    var c := Collation(rs, ss);
    if i == n {
      assert c[key][|c[key]| - 1] == job;
    } else {
      var prior := Collation(rs[..n], ss[..n]);
      CollationComplete(rs[..n], ss[..n], i);
      var k :| 0 <= k < |prior[key]| && prior[key][k] == job;
      assert c[key][k] == job;
    }
  }

  /** No two jobs of a collation serve the same request. */
  lemma {:induction false} CollationDistinct<R>(rs: seq<R>, ss: seq<RequestState>, key1: SourceRef, k1: nat, key2: SourceRef, k2: nat)
    requires |rs| == |ss| && Distinct(rs)
    requires key1 in Collation(rs, ss) && k1 < |Collation(rs, ss)[key1]|
    requires key2 in Collation(rs, ss) && k2 < |Collation(rs, ss)[key2]|
    requires Collation(rs, ss)[key1][k1].data == Collation(rs, ss)[key2][k2].data
    ensures key1 == key2 && k1 == k2
    decreases |rs|
  {
    var n := |rs| - 1;
    var prior := Collation(rs[..n], ss[..n]);
    var c: map<SourceRef, seq<Job<R>>> := Collation(rs, ss);
    var old1 := key1 in prior && k1 < |prior[key1]| && c[key1][k1] == prior[key1][k1];
    var old2 := key2 in prior && k2 < |prior[key2]| && c[key2][k2] == prior[key2][k2];
    if old1 && old2 {
      CollationDistinct(rs[..n], ss[..n], key1, k1, key2, k2);
    } else if old1 {
      CollationSound(rs[..n], ss[..n], key1, k1);
    } else if old2 {
      CollationSound(rs[..n], ss[..n], key2, k2);
    }
  }

  /** The number of jobs in a collation, over all sources. */
  ghost function Total<K, V>(m: map<K, seq<V>>): nat
    decreases |m|
  {
    if |m| == 0 then 0
    else
      var key := PickKey(m);
      |m[key]| + Total(m - {key})
  }

  ghost function PickKey<K, V>(m: map<K, V>): (key: K)
    requires |m| > 0
    ensures key in m
  {
    assert m.Keys != {};
    var key :| key in m.Keys;
    key
  }

  lemma {:induction false} TotalRemove<K, V>(m: map<K, seq<V>>, key: K)
    requires key in m
    ensures Total(m) == |m[key]| + Total(m - {key})
    decreases |m|
  {
    var picked := PickKey(m);
    if picked != key {
      TotalRemove(m - {picked}, key);
      TotalRemove(m - {key}, picked);
      assert m - {picked} - {key} == m - {key} - {picked};
    }
  }

  lemma TotalAddJob<R>(c: map<SourceRef, seq<Job<R>>>, key: SourceRef, job: Job<R>)
    ensures Total(AddJob(c, key, job)) == Total(c) + 1
  {
    var c' := AddJob(c, key, job);
    TotalRemove(c', key);
    if key in c {
      TotalRemove(c, key);
      assert c' - {key} == c - {key};
    } else {
      assert c' - {key} == c;
    }
  }

  /** How many requests a collation pass finds pending. */
  function PendingCount(ss: seq<RequestState>): nat {
    if |ss| == 0 then 0
    else PendingCount(ss[..|ss| - 1]) + (if Pending(ss[|ss| - 1]) then 1 else 0)
  }

  /** The collation holds exactly one job per pending request. */
  lemma {:induction false} CollationTotal<R>(rs: seq<R>, ss: seq<RequestState>)
    requires |rs| == |ss|
    ensures Total(Collation(rs, ss)) == PendingCount(ss)
    decreases |rs|
  {
    if |rs| > 0 {
      var n := |rs| - 1;
      CollationTotal(rs[..n], ss[..n]);
      assert ss[..n] == ss[..|ss| - 1];
      if Pending(ss[n]) {
        var source := ss[n].candidates[ss[n].cursor];
        TotalAddJob(Collation(rs[..n], ss[..n]), source.source, Job(source.address, ss[n].destination, rs[n]));
      }
    }
  }

  /** A collation is empty exactly when no request is pending. */
  lemma CollationEmptyIff<R>(rs: seq<R>, ss: seq<RequestState>)
    requires |rs| == |ss|
    ensures |Collation(rs, ss)| == 0 <==> forall i :: 0 <= i < |ss| ==> !Pending(ss[i])
  {
    var c := Collation(rs, ss);
    if |c| > 0 {
      var key := PickKey(c);
      CollationSound(rs, ss, key, 0);
    }
    if i :| 0 <= i < |ss| && Pending(ss[i]) {
      CollationComplete(rs, ss, i);
    }
  }

  /** A pass that finds nothing pending changes no request. */
  lemma IdleRound(ss: seq<RequestState>)
    requires forall i :: 0 <= i < |ss| ==> !Pending(ss[i])
    ensures AdvanceAll(ss) == ss
  {
  }

  /** The candidates a request still has after its cursor. */
  function Remaining(s: RequestState): nat {
    if s.cursor < |s.candidates| then |s.candidates| - s.cursor else 0
  }

  /** The candidates all the requests still have: the loop's decreasing measure. */
  function Measure(ss: seq<RequestState>): nat {
    if |ss| == 0 then 0 else Measure(ss[..|ss| - 1]) + Remaining(ss[|ss| - 1])
  }

  /** A collation pass uses up exactly one candidate per pending request. */
  lemma {:induction false} AdvanceConsumes(ss: seq<RequestState>)
    ensures Measure(AdvanceAll(ss)) + PendingCount(ss) == Measure(ss)
  {
    if |ss| > 0 {
      var n := |ss| - 1;
      assert AdvanceAll(ss)[..n] == AdvanceAll(ss[..n]);
      AdvanceConsumes(ss[..n]);
    }
  }

  /** The measure only looks at the candidates and the cursors. */
  lemma {:induction false} MeasureFrame(ss: seq<RequestState>, ts: seq<RequestState>)
    requires |ss| == |ts|
    requires forall i :: 0 <= i < |ss| ==> ss[i].candidates == ts[i].candidates && ss[i].cursor == ts[i].cursor
    ensures Measure(ss) == Measure(ts)
  {
    if |ss| > 0 {
      MeasureFrame(ss[..|ss| - 1], ts[..|ts| - 1]);
    }
  }

  /** Each non-empty round strictly lowers the candidates left, so the rounds end. */
  lemma RoundDecreases<R>(rs: seq<R>, ss: seq<RequestState>)
    requires |rs| == |ss| && |Collation(rs, ss)| > 0
    ensures Measure(AdvanceAll(ss)) < Measure(ss)
  {
    var c := Collation(rs, ss);
    CollationTotal(rs, ss);
    TotalRemove(c, PickKey(c));
    AdvanceConsumes(ss);
  }
}
