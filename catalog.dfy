/**
 * The content catalogue: for each content source id, the units that source
 * advertised at its last refresh, where to find them, and until when that
 * knowledge holds. The database behind the catalogue manager is replaced by
 * a map; the clock is the `now` parameter.
 */
module Catalog {
  import opened Model

  /** One catalogue entry: a unit, its address at the source, its expiry time. */
  datatype Entry = Entry(unit: UnitKey, url: string, expiration: int)

  type Entries = map<SourceId, seq<Entry>>

  predicate Fresh(e: Entry, now: int) {
    now < e.expiration
  }

  /** `has_entries(source_id)`: the source has at least one unexpired entry. */
  predicate HasEntries(entries: Entries, id: SourceId, now: int) {
    id in entries && exists e <- entries[id] :: Fresh(e, now)
  }

  /** The entries of `es` that have not expired, in their order. */
  function FreshOnly(es: seq<Entry>, now: int): (r: seq<Entry>)
    ensures forall e :: e in r <==> e in es && Fresh(e, now)
  {
    if |es| == 0 then []
    else if Fresh(es[0], now) then [es[0]] + FreshOnly(es[1..], now)
    else FreshOnly(es[1..], now)
  }

  /** The catalogue after `purge_expired()`. */
  function Unexpired(entries: Entries, now: int): Entries {
    map id | id in entries :: FreshOnly(entries[id], now)
  }

  /**
   * Purging expired entries drops exactly the stale ones: every source keeps
   * its key, and whether it has unexpired entries does not change.
   */
  lemma UnexpiredSound(entries: Entries, now: int)
    ensures Unexpired(entries, now).Keys == entries.Keys
    ensures forall id, e | id in entries :: e in Unexpired(entries, now)[id] <==> e in entries[id] && Fresh(e, now)
    ensures forall id :: HasEntries(Unexpired(entries, now), id, now) == HasEntries(entries, id, now)
  {
  }

  /** The catalogue after `purge_orphans(valid_ids)`. */
  function WithoutOrphans(entries: Entries, valid: set<SourceId>): (r: Entries)
    ensures r.Keys == entries.Keys * valid
    ensures forall id | id in r :: r[id] == entries[id]
  {
    map id | id in entries && id in valid :: entries[id]
  }

  /** The address of the first unexpired entry for `unit` in `es`, if any. */
  function FirstFresh(es: seq<Entry>, unit: UnitKey, now: int): (r: Option<string>)
    ensures r.Some? ==> exists e <- es :: e.unit == unit && Fresh(e, now) && e.url == r.value
    ensures r.None? ==> forall e <- es :: !(e.unit == unit && Fresh(e, now))
  {
    if |es| == 0 then None
    else if es[0].unit == unit && Fresh(es[0], now) then Some(es[0].url)
    else FirstFresh(es[1..], unit, now)
  }

  /** Where the catalogue says source `id` can supply `unit`, while that is fresh. */
  function Lookup(entries: Entries, id: SourceId, unit: UnitKey, now: int): Option<string> {
    if id in entries then FirstFresh(entries[id], unit, now) else None
  }

  /**
   * The alternate candidates of a unit: one per source of `ranked` that the
   * catalogue says supplies it, in the order of `ranked`.
   */
  function Alternates(ranked: seq<ContentSource>, entries: Entries, unit: UnitKey, now: int): (r: seq<Candidate>)
    ensures |r| <= |ranked|
    ensures forall c <- r :: c.source.Alternate?
  {
    if |ranked| == 0 then []
    else
      var rest := Alternates(ranked[1..], entries, unit, now);
      match Lookup(entries, ranked[0].id, unit, now)
      case Some(address) => [Candidate(Alternate(ranked[0].id), address)] + rest
      case None => rest
  }

  /**
   * `find_sources(primary, sources)`: the catalogued alternates followed by
   * the primary source at the request's own url.
   */
  function Resolve(ranked: seq<ContentSource>, entries: Entries, unit: UnitKey, url: string, now: int): (r: seq<Candidate>)
    ensures |r| >= 1 && r[|r| - 1] == Candidate(Primary, url)
    ensures forall k :: 0 <= k < |r| - 1 ==> r[k].source.Alternate?
  {
    Alternates(ranked, entries, unit, now) + [Candidate(Primary, url)]
  }

  /**
   * Each alternate candidate comes from the source at some position `a` of
   * `ranked`, at the address the catalogue lists for the unit there.
   */
  lemma {:induction false} AlternatesSound(ranked: seq<ContentSource>, entries: Entries, unit: UnitKey, now: int, i: nat)
    returns (a: nat)
    requires i < |Alternates(ranked, entries, unit, now)|
    ensures a < |ranked|
    ensures Alternates(ranked, entries, unit, now)[i].source == Alternate(ranked[a].id)
    ensures Lookup(entries, ranked[a].id, unit, now) == Some(Alternates(ranked, entries, unit, now)[i].address)
  {
    var tail := ranked[1..];
    var rest := Alternates(tail, entries, unit, now);
    if Lookup(entries, ranked[0].id, unit, now).Some? && i == 0 {
      a := 0;
    } else {
      var i' := if Lookup(entries, ranked[0].id, unit, now).Some? then i - 1 else i;
      var a' := AlternatesSound(tail, entries, unit, now, i');
      a := a' + 1;
      assert tail[a'] == ranked[a];
    }
  }

  /**
   * The alternates keep the order of `ranked`: an earlier candidate comes
   * from an earlier source, so candidates are tried by ascending priority.
   */
  lemma {:induction false} AlternatesOrdered(ranked: seq<ContentSource>, entries: Entries, unit: UnitKey, now: int, i: nat, j: nat)
    returns (a: nat, b: nat)
    requires i < j < |Alternates(ranked, entries, unit, now)|
    ensures a < b < |ranked|
    ensures Alternates(ranked, entries, unit, now)[i].source == Alternate(ranked[a].id)
    ensures Alternates(ranked, entries, unit, now)[j].source == Alternate(ranked[b].id)
  {
    var r := Alternates(ranked, entries, unit, now);
    var tail := ranked[1..];
    var rest := Alternates(tail, entries, unit, now);
    if Lookup(entries, ranked[0].id, unit, now).Some? {
      var head := Candidate(Alternate(ranked[0].id), Lookup(entries, ranked[0].id, unit, now).value);
      assert r == [head] + rest;
      if i == 0 {
        var b' := AlternatesSound(tail, entries, unit, now, j - 1);
        a, b := 0, b' + 1;
        assert r[j] == rest[j - 1] && tail[b'] == ranked[b];
      } else {
        var a', b' := AlternatesOrdered(tail, entries, unit, now, i - 1, j - 1);
        a, b := a' + 1, b' + 1;
        assert r[i] == rest[i - 1] && r[j] == rest[j - 1] && tail[a'] == ranked[a] && tail[b'] == ranked[b];
      }
    } else {
      assert r == rest;
      var a', b' := AlternatesOrdered(tail, entries, unit, now, i, j);
      a, b := a' + 1, b' + 1;
      assert tail[a'] == ranked[a] && tail[b'] == ranked[b];
    }
  }

  /** With each source registered once, no source appears twice among the alternates. */
  lemma AlternatesDistinct(ranked: seq<ContentSource>, entries: Entries, unit: UnitKey, now: int)
    requires forall a, b :: 0 <= a < b < |ranked| ==> ranked[a].id != ranked[b].id
    ensures forall i, j :: 0 <= i < j < |Alternates(ranked, entries, unit, now)| ==>
      Alternates(ranked, entries, unit, now)[i].source != Alternates(ranked, entries, unit, now)[j].source
  {
    var r := Alternates(ranked, entries, unit, now);
    forall i, j | 0 <= i < j < |r| ensures r[i].source != r[j].source {
      var a, b := AlternatesOrdered(ranked, entries, unit, now, i, j);
    }
  }

  /**
   * `has_entries(id)` holds exactly when purging expired entries would leave
   * the source some entry, and a source without it supplies no candidate.
   */
  lemma HasEntriesIff(entries: Entries, id: SourceId, now: int)
    ensures HasEntries(entries, id, now) <==> id in entries && FreshOnly(entries[id], now) != []
    ensures !HasEntries(entries, id, now) ==> forall unit :: Lookup(entries, id, unit, now).None?
  {
    if id in entries && FreshOnly(entries[id], now) != [] {
      assert FreshOnly(entries[id], now)[0] in FreshOnly(entries[id], now);
    }
  }

  /** Every catalogued source of `ranked` becomes a candidate. */
  lemma {:induction false} AlternatesComplete(ranked: seq<ContentSource>, entries: Entries, unit: UnitKey, now: int, s: ContentSource)
    requires s in ranked && Lookup(entries, s.id, unit, now).Some?
    ensures Candidate(Alternate(s.id), Lookup(entries, s.id, unit, now).value) in Alternates(ranked, entries, unit, now)
  {
    if ranked[0] != s {
      AlternatesComplete(ranked[1..], entries, unit, now, s);
    }
  }

  /** Purging expired entries never changes what a lookup at the same time finds. */
  lemma {:induction false} FreshOnlyKeepsFirst(es: seq<Entry>, unit: UnitKey, now: int)
    ensures FirstFresh(FreshOnly(es, now), unit, now) == FirstFresh(es, unit, now)
  {
    if |es| > 0 {
      FreshOnlyKeepsFirst(es[1..], unit, now);
      if Fresh(es[0], now) {
        assert ([es[0]] + FreshOnly(es[1..], now))[1..] == FreshOnly(es[1..], now);
      }
    }
  }

  lemma PurgeExpiredKeepsLookup(entries: Entries, id: SourceId, unit: UnitKey, now: int)
    ensures Lookup(Unexpired(entries, now), id, unit, now) == Lookup(entries, id, unit, now)
  {
    if id in entries {
      FreshOnlyKeepsFirst(entries[id], unit, now);
    }
  }

  /** The catalogue manager's view of the catalogue; the store itself is abstract. */
  class ContentCatalogManager {
    var entries: Entries

    constructor (entries: Entries)
      ensures this.entries == entries
    {
      this.entries := entries;
    }

    predicate HasEntriesFor(id: SourceId, now: int)
      reads this
    {
      HasEntries(entries, id, now)
    }

    method PurgeExpired(now: int)
      modifies this
      ensures entries == Unexpired(old(entries), now)
    {
      entries := Unexpired(entries, now);
    }

    method PurgeOrphans(valid: set<SourceId>)
      modifies this
      ensures entries == WithoutOrphans(old(entries), valid)
    {
      entries := WithoutOrphans(entries, valid);
    }

    /** A source's refresh replaces that source's entries with what it advertises now. */
    method Replace(id: SourceId, written: seq<Entry>)
      modifies this
      ensures entries == old(entries)[id := written]
    {
      entries := entries[id := written];
    }
  }
}
