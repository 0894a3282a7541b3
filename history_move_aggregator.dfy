/**
 * `HistoryMoveAggregator`: the move detection of `MoveAggregator`, for
 * deletions observed on disk. A deleted file can no longer be hashed, so a
 * deletion arrives without a hash; before grouping, such a deletion takes
 * the hash of the last version the version history stores for its path.
 * Groups are keyed by the hash, events without one sharing the key
 * `"__empty_key"`. Everything after the grouping is `MoveAggregator`'s.
 */
module HistoryMoveAggregator {
  import opened Wrappers
  import opened Events
  import opened Seqs
  import opened Sorting
  import opened HashGrouping
  import opened VersionHistory
  import MoveAggregator

  /** A deletion without a hash for a path the history knows. */
  predicate Enrichable(history: History, e: Event) {
    e.Delete? && e.hash == None && HasVersions(history, e.path)
  }

  /**
   * A deletion without a hash takes the hash of its path's last stored
   * version; every other event is left as it is.
   */
  function Enrich(history: History, e: Event): (r: Event)
    ensures r.path == e.path && r.name == e.name && r.timestamp == e.timestamp
    ensures r.Create? == e.Create? && r.Modify? == e.Modify? && r.Delete? == e.Delete? && r.Move? == e.Move?
    ensures !Enrichable(history, e) ==> r == e
    ensures Enrichable(history, e) ==> r.hash == LastHash(history, e.path)
  {
    if Enrichable(history, e) then Delete(e.path, e.name, LastHash(history, e.path), e.timestamp) else e
  }

  /** The batch with every deletion enriched. */
  function EnrichAll(history: History, s: seq<Event>): seq<Event> {
    Map(s, (e: Event) => Enrich(history, e))
  }

  /** Enriching twice is enriching once. */
  lemma EnrichIdempotent(history: History, e: Event)
    ensures Enrich(history, Enrich(history, e)) == Enrich(history, e)
  {
  }

  /** Enrichment keeps the batch in timestamp order. */
  lemma EnrichAllSorted(history: History, s: seq<Event>)
    requires Sorted(s)
    ensures Sorted(EnrichAll(history, s))
  {
    MapSorted(s, (e: Event) => Enrich(history, e));
  }

  /** The name of the key shared by the events without a hash. */
  const EmptyKeyName: string := "__empty_key"

  /** The grouping key: the hash, or `"__empty_key"` for events without one. */
  function EmptyKey(h: Hash): (k: string)
    ensures h.Some? ==> k == h.value
    ensures h.None? ==> k == EmptyKeyName
  {
    if h.None? then EmptyKeyName else h.value
  }

  /** The aggregation of `events` against `history`, in timestamp order. */
  function Aggregated(events: seq<Event>, history: History): seq<Event> {
    MoveAggregator.AggregatedBy(EnrichAll(history, SortByTime(events)), EmptyKey, false)
  }

  /** The same with unpaired deletions and creations passed through. */
  function AggregatedCorrected(events: seq<Event>, history: History): seq<Event> {
    MoveAggregator.AggregatedBy(EnrichAll(history, SortByTime(events)), EmptyKey, true)
  }

  /** The enrichment pass over the sorted batch, one event at a time. */
  method EnrichEach(history: History, s: seq<Event>) returns (enriched: seq<Event>)
    ensures enriched == EnrichAll(history, s)
  {
    enriched := [];
    var i := 0;
    while i < |s|
      invariant 0 <= i <= |s|
      invariant enriched == EnrichAll(history, s[..i])
    {
      assert s[..i + 1][..i] == s[..i];
      enriched := enriched + [Enrich(history, s[i])];
      i := i + 1;
    }
    assert s[..i] == s;
  }

  /** `aggregate`: sort, enrich, group by key, fuse each group, sort. */
  method Aggregate(events: seq<Event>, history: History) returns (out: seq<Event>)
    ensures Sorted(out)
    ensures multiset(out) == multiset(Aggregated(events, history))
    ensures |out| <= |events|
  {
    var s := SortByTime(events);
    var enriched := EnrichEach(history, s);
    out := MoveAggregator.AggregateSorted(enriched, EmptyKey, false);
    AggregatedNoLonger(events, history);
    assert |out| == |multiset(out)| == |Aggregated(events, history)|;
  }

  /** The same with unpaired deletions and creations passed through. */
  method AggregateCorrected(events: seq<Event>, history: History) returns (out: seq<Event>)
    ensures Sorted(out)
    ensures multiset(out) == multiset(AggregatedCorrected(events, history))
    ensures |out| <= |events|
  {
    var s := SortByTime(events);
    var enriched := EnrichEach(history, s);
    out := MoveAggregator.AggregateSorted(enriched, EmptyKey, true);
    AggregatedNoLonger(events, history);
    assert |out| == |multiset(out)| == |AggregatedCorrected(events, history)|;
  }

  /** Aggregating never yields more events than the batch held, as written or corrected. */
  lemma AggregatedNoLonger(events: seq<Event>, history: History)
    ensures |Aggregated(events, history)| <= |events|
    ensures |AggregatedCorrected(events, history)| <= |events|
  {
    var s := SortByTime(events);
    assert |s| == |multiset(s)| == |multiset(events)|;
    MoveAggregator.AggregatedByNoLonger(EnrichAll(history, s), EmptyKey, false);
    MoveAggregator.AggregatedByNoLonger(EnrichAll(history, s), EmptyKey, true);
  }

  /** An event of the enriched batch is the enrichment of an event of the batch. */
  lemma EnrichedFrom(history: History, s: seq<Event>, y: Event)
    requires y in EnrichAll(history, s)
    ensures exists x :: x in s && Enrich(history, x) == y
  {
    var i :| 0 <= i < |s| && EnrichAll(history, s)[i] == y;
    assert s[i] in s;
  }

  /**
   * A deletion without a hash whose path's last stored version has hash
   * `h`, followed strictly later by a creation with hash `h`, becomes a
   * move from the deleted to the created path, provided no other deletion
   * or creation ends up with that key. Neither the deletion, with or
   * without the hash it was given, nor the creation remains.
   */
  lemma MoveDetectedWithHistory(events: seq<Event>, history: History, d: Event, c: Event)
    requires d.Delete? && d.hash == None && HasVersions(history, d.path)
    requires c.Create? && c.hash == LastHash(history, d.path) && c.hash.Some?
    requires d.timestamp < c.timestamp
    requires multiset(events)[d] == 1 && multiset(events)[c] == 1
    requires forall e :: (e in events && (e.Delete? || e.Create?) &&
                          EmptyKey(Enrich(history, e).hash) == EmptyKey(c.hash)) ==> e == d || e == c
    ensures Move(d.path, c.path, c.name, c.hash, c.timestamp) in Aggregated(events, history)
    ensures Enrich(history, d) !in Aggregated(events, history) && c !in Aggregated(events, history)
    ensures d !in Aggregated(events, history)
  {
    var s := SortByTime(events);
    var es := EnrichAll(history, s);
    var ed := Enrich(history, d);
    assert HistoryPair(events, history, d, c);
    EnrichedPairCounts(events, history, d, c);
    EnrichedPairAlone(events, history, d, c);
    MoveAggregator.MoveDetectedBy(es, EmptyKey, ed, c, false);
    if d in MoveAggregator.AggregatedBy(es, EmptyKey, false) {
      MoveAggregator.Provenance(es, EmptyKey, d, false);
      EnrichedFrom(history, s, d);
    }
  }

  /**
   * A deletion without a hash whose path has a history, and a later
   * creation carrying the last recorded hash, each once in the batch and
   * the only deletion and creation with that key.
   */
  ghost predicate HistoryPair(events: seq<Event>, history: History, d: Event, c: Event) {
    d.Delete? && d.hash == None && HasVersions(history, d.path) &&
    c.Create? && c.hash == LastHash(history, d.path) && c.hash.Some? &&
    multiset(events)[d] == 1 && multiset(events)[c] == 1 &&
    forall e :: (e in events && (e.Delete? || e.Create?) &&
                 EmptyKey(Enrich(history, e).hash) == EmptyKey(c.hash)) ==> e == d || e == c
  }

  /** The enriched deletion and the creation each occur once in the enriched batch. */
  lemma EnrichedPairCounts(events: seq<Event>, history: History, d: Event, c: Event)
    requires HistoryPair(events, history, d, c)
    ensures var es := EnrichAll(history, SortByTime(events));
            multiset(es)[Enrich(history, d)] == 1 && multiset(es)[c] == 1
  {
    var s := SortByTime(events);
    var f := (e: Event) => Enrich(history, e);
    forall e | e in s ensures e in events {
      InSorted(events, e);
    }
    forall x | x in s && f(x) == f(d) ensures x == d {
      assert EmptyKey(f(x).hash) == EmptyKey(c.hash);
    }
    forall x | x in s && f(x) == f(c) ensures x == c {
      assert EmptyKey(f(x).hash) == EmptyKey(c.hash);
    }
    MapCountUnique(s, f, d);
    MapCountUnique(s, f, c);
  }

  /** No other deletion or creation of the enriched batch has their key. */
  lemma EnrichedPairAlone(events: seq<Event>, history: History, d: Event, c: Event)
    requires HistoryPair(events, history, d, c)
    ensures var es := EnrichAll(history, SortByTime(events));
            var ed := Enrich(history, d);
            forall e :: e in es && EmptyKey(e.hash) == EmptyKey(ed.hash) && (e.Delete? || e.Create?) ==>
                        e == ed || e == c
  {
    var s := SortByTime(events);
    var es := EnrichAll(history, s);
    var ed := Enrich(history, d);
    forall e | e in es && EmptyKey(e.hash) == EmptyKey(ed.hash) && (e.Delete? || e.Create?)
      ensures e == ed || e == c
    {
      EnrichedFrom(history, s, e);
      var x :| x in s && Enrich(history, x) == e;
      InSorted(events, x);
    }
  }


  /**
   * As written, two or more creations without a hash
   * (directories) and nothing else all disappear.
   */
  lemma DirectoryCreationsLost(events: seq<Event>, history: History)
    requires |events| >= 2
    requires forall e :: e in events ==> e.Create? && e.hash == None
    ensures Aggregated(events, history) == []
  {
    var s := SortByTime(events);
    assert |s| == |multiset(s)| == |multiset(events)| == |events|;
    forall e | e in s ensures e.Create? && e.hash == None {
      InSorted(events, e);
    }
    MapFixes(s, (e: Event) => Enrich(history, e));
    assert s[0] in s;
    MoveAggregator.SameKeyCreationsLost(s, EmptyKey);
  }

  /** With unpaired events passed through, a batch of creations comes back whole. */
  lemma DirectoryCreationsKept(events: seq<Event>, history: History)
    requires forall e :: e in events ==> e.Create?
    ensures multiset(AggregatedCorrected(events, history)) == multiset(events)
  {
    var s := SortByTime(events);
    forall e | e in s ensures e.Create? {
      InSorted(events, e);
    }
    MapFixes(s, (e: Event) => Enrich(history, e));
    MoveAggregator.NoDeletionsNothingLost(s, EmptyKey);
  }

  /**
   * When the history enriches no deletion of the batch, and no hash is
   * literally `"__empty_key"`, the aggregation is `MoveAggregator`'s.
   */
  lemma WithoutHistoryIsMoveAggregation(events: seq<Event>, history: History)
    requires forall e :: e in events ==> !Enrichable(history, e)
    requires forall e :: e in events ==> e.hash != Some(EmptyKeyName)
    ensures multiset(Aggregated(events, history)) == multiset(MoveAggregator.Aggregated(events))
  {
    var s := SortByTime(events);
    forall e | e in s ensures !Enrichable(history, e) && e.hash != Some(EmptyKeyName) {
      InSorted(events, e);
    }
    MapFixes(s, (e: Event) => Enrich(history, e));
    forall x ensures multiset(MoveAggregator.AggregatedBy(s, EmptyKey, false))[x] ==
                     multiset(MoveAggregator.AggregatedBy(s, MoveAggregator.HashKey, false))[x]
    {
      SameCount(s, x);
    }
  }

  lemma SameCount(s: seq<Event>, x: Event)
    requires forall e :: e in s ==> e.hash != Some(EmptyKeyName)
    ensures multiset(MoveAggregator.AggregatedBy(s, EmptyKey, false))[x] ==
            multiset(MoveAggregator.AggregatedBy(s, MoveAggregator.HashKey, false))[x]
  {
    if x.hash == Some(EmptyKeyName) {
      NotAggregated(s, EmptyKey, x);
      NotAggregated(s, MoveAggregator.HashKey, x);
    } else {
      SameGroupsSameCount(s, x);
    }
  }

  /** An event whose group is the same under both keys is counted alike. */
  lemma SameGroupsSameCount(s: seq<Event>, x: Event)
    requires forall e :: e in s ==> e.hash != Some(EmptyKeyName)
    requires x.hash != Some(EmptyKeyName)
    ensures multiset(MoveAggregator.AggregatedBy(s, EmptyKey, false))[x] ==
            multiset(MoveAggregator.AggregatedBy(s, MoveAggregator.HashKey, false))[x]
  {
    SameGroups(s, x);
    assert MoveAggregator.ExpectedCount(s, EmptyKey, x) == MoveAggregator.ExpectedCount(s, MoveAggregator.HashKey, x);
    MoveAggregator.AsWrittenCount(s, EmptyKey, x);
    MoveAggregator.AsWrittenCount(s, MoveAggregator.HashKey, x);
  }

  /** An event whose hash no event of the batch carries is not in the result. */
  lemma NotAggregated<K>(s: seq<Event>, key: Hash -> K, x: Event)
    requires forall e :: e in s ==> e.hash != x.hash
    ensures x !in MoveAggregator.AggregatedBy(s, key, false)
  {
    if x in MoveAggregator.AggregatedBy(s, key, false) {
      MoveAggregator.Provenance(s, key, x, false);
      if x !in s {
        MoveAggregator.FusedFromBatch(s, key, x);
      }
    }
  }

  /** On a batch without the hash `"__empty_key"`, both keys form the same groups. */
  lemma SameGroups(s: seq<Event>, x: Event)
    requires forall e :: e in s ==> e.hash != Some(EmptyKeyName)
    requires x.hash != Some(EmptyKeyName)
    ensures MoveAggregator.GroupOf(s, EmptyKey, x) == MoveAggregator.GroupOf(s, MoveAggregator.HashKey, x)
  {
    var k := EmptyKey(x.hash);
    var h := MoveAggregator.HashKey(x.hash);
    forall e | e in s ensures (EmptyKey(e.hash) == k) == (MoveAggregator.HashKey(e.hash) == h) {
    }
    GroupKeysAgree(s, EmptyKey, k, MoveAggregator.HashKey, h);
  }
}
