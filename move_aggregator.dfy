/**
 * The move aggregator: events are grouped by content hash, and within a
 * group a single deletion followed (strictly later) by a single creation
 * becomes one move from the deleted path to the created path. Groups with
 * several deletions or several creations are left alone, because the
 * pairing would be ambiguous.
 *
 * The per-group logic and the walk over the groups are shared with the
 * history-aware variant, which differs only in how it keys the groups and
 * in enriching deletions before grouping.
 */
module MoveAggregator {
  import opened Wrappers
  import opened Events
  import opened Seqs
  import opened Sorting
  import opened HashGrouping

  /** The elements of `list` of one event kind, in their order (`getInstances`). */
  method GetInstances(list: seq<Event>, kind: Event -> bool) returns (hits: seq<Event>)
    ensures hits == Filter(list, kind)
  {
    hits := [];
    var i := 0;
    while i < |list|
      invariant 0 <= i <= |list|
      invariant hits == Filter(list[..i], kind)
    {
      assert list[..i + 1][..i] == list[..i];
      if kind(list[i]) {
        hits := hits + [list[i]];
      }
      i := i + 1;
    }
    assert list[..i] == list;
  }

  function Deletes(g: seq<Event>): seq<Event> { Filter(g, IsDelete) }
  function Creates(g: seq<Event>): seq<Event> { Filter(g, IsCreate) }
  function Modifies(g: seq<Event>): seq<Event> { Filter(g, IsModify) }
  function Moves(g: seq<Event>): seq<Event> { Filter(g, IsMove) }

  /** The move that replaces deletion `d` and creation `c`: it takes its name, hash and time from `c`. */
  function Fused(d: Event, c: Event): Event {
    Move(d.path, c.path, c.name, c.hash, c.timestamp)
  }

  /** The group holds exactly one deletion and one creation, the deletion strictly earlier. */
  predicate Fusable(g: seq<Event>) {
    |Deletes(g)| == 1 && |Creates(g)| == 1 && Deletes(g)[0].timestamp < Creates(g)[0].timestamp
  }

  /** The deletions and creations of a group that has both. */
  function PairOutput(ds: seq<Event>, cs: seq<Event>): seq<Event>
    requires ds != [] && cs != []
  {
    if |ds| > 1 then ds + cs
    else if |cs| > 1 then cs + ds
    else if ds[0].timestamp < cs[0].timestamp then [Fused(ds[0], cs[0])]
    else [ds[0], cs[0]]
  }

  /**
   * One group's contribution, as written: a group of two or more events
   * whose deletions or creations are missing loses the ones it has.
   */
  function GroupOutput(g: seq<Event>): seq<Event> {
    if |g| < 2 then g
    else
      var ds, cs := Deletes(g), Creates(g);
      Modifies(g) + Moves(g) + (if ds == [] || cs == [] then [] else PairOutput(ds, cs))
  }

  /** One group's contribution with unpaired deletions and creations passed through. */
  function GroupOutputCorrected(g: seq<Event>): seq<Event> {
    if |g| < 2 then g
    else
      var ds, cs := Deletes(g), Creates(g);
      Modifies(g) + Moves(g) + (if ds == [] || cs == [] then ds + cs else PairOutput(ds, cs))
  }

  /** The per-group step chosen by `keepUnpaired`. */
  function Fuser(keepUnpaired: bool): seq<Event> -> seq<Event> {
    if keepUnpaired then GroupOutputCorrected else GroupOutput
  }

  /** A group of two or more events with deletions but no creations, or the reverse. */
  predicate OneSided(g: seq<Event>) {
    |g| >= 2 && (Deletes(g) == [] || Creates(g) == []) && (Deletes(g) != [] || Creates(g) != [])
  }

  // ----- the per-group step -----

  /** Every event of a group is of exactly one of the four kinds. */
  lemma Partition(g: seq<Event>)
    ensures multiset(g) == multiset(Modifies(g)) + multiset(Moves(g)) + multiset(Deletes(g)) + multiset(Creates(g))
  {
    forall x
      ensures multiset(g)[x] ==
              (multiset(Modifies(g)) + multiset(Moves(g)) + multiset(Deletes(g)) + multiset(Creates(g)))[x]
    {
      FilterCount(g, IsModify, x);
      FilterCount(g, IsMove, x);
      FilterCount(g, IsDelete, x);
      FilterCount(g, IsCreate, x);
    }
  }

  lemma SingletonList(s: seq<Event>)
    requires |s| == 1
    ensures s == [s[0]] && multiset(s) == multiset{s[0]}
  {
  }

  /**
   * With unpaired events passed through, a group loses nothing: its output
   * is the group itself, except that a fusable deletion and creation are
   * replaced by their move.
   */
  lemma GroupCorrectedMultiset(g: seq<Event>)
    ensures multiset(GroupOutputCorrected(g)) ==
            if Fusable(g) then multiset(g) - multiset{Deletes(g)[0], Creates(g)[0]} + multiset{Fused(Deletes(g)[0], Creates(g)[0])}
            else multiset(g)
  {
    var ds, cs := Deletes(g), Creates(g);
    if |g| < 2 {
      SmallGroupNotFusable(g);
    } else if ds == [] || cs == [] {
      UnpairedGroupMultiset(g);
    } else {
      PairedGroupMultiset(g);
    }
  }

  lemma UnpairedGroupMultiset(g: seq<Event>)
    requires |g| >= 2 && (Deletes(g) == [] || Creates(g) == [])
    ensures multiset(GroupOutputCorrected(g)) == multiset(g)
  {
    Partition(g);
    assert GroupOutputCorrected(g) == Modifies(g) + Moves(g) + (Deletes(g) + Creates(g));
  }

  lemma PairedGroupMultiset(g: seq<Event>)
    requires |g| >= 2 && Deletes(g) != [] && Creates(g) != []
    ensures multiset(GroupOutputCorrected(g)) ==
            if Fusable(g) then multiset(g) - multiset{Deletes(g)[0], Creates(g)[0]} + multiset{Fused(Deletes(g)[0], Creates(g)[0])}
            else multiset(g)
  {
    var ds, cs := Deletes(g), Creates(g);
    Partition(g);
    PairMultiset(ds, cs);
    var rest := multiset(Modifies(g)) + multiset(Moves(g));
    assert GroupOutputCorrected(g) == Modifies(g) + Moves(g) + PairOutput(ds, cs);
    assert multiset(GroupOutputCorrected(g)) == rest + multiset(PairOutput(ds, cs));
    if Fusable(g) {
      SingletonList(ds);
      SingletonList(cs);
      ReplacePair(rest, multiset(ds), multiset(cs), ds[0], cs[0], Fused(ds[0], cs[0]));
    }
  }

  /** Replacing a pair inside one part of a sum is replacing it in the sum. */
  lemma ReplacePair(rest: multiset<Event>, a: multiset<Event>, b: multiset<Event>, d: Event, c: Event, m: Event)
    requires d in a && c in b
    ensures rest + (a + b - multiset{d, c} + multiset{m}) == rest + a + b - multiset{d, c} + multiset{m}
  {
  }

  lemma SmallGroupNotFusable(g: seq<Event>)
    requires |g| < 2
    ensures !Fusable(g)
  {
    if Fusable(g) {
      Partition(g);
      assert false;
    }
  }

  /** A deletion/creation pair loses nothing unless it becomes a move. */
  lemma PairMultiset(ds: seq<Event>, cs: seq<Event>)
    requires ds != [] && cs != []
    requires forall e :: e in ds ==> e.Delete?
    requires forall e :: e in cs ==> e.Create?
    ensures multiset(PairOutput(ds, cs)) ==
            if |ds| == 1 && |cs| == 1 && ds[0].timestamp < cs[0].timestamp
            then multiset(ds) + multiset(cs) - multiset{ds[0], cs[0]} + multiset{Fused(ds[0], cs[0])}
            else multiset(ds) + multiset(cs)
  {
    if |ds| == 1 && |cs| == 1 {
      SingletonList(ds);
      SingletonList(cs);
      assert ds[0] in ds && cs[0] in cs;
      assert ds[0] != cs[0];
    }
  }

  /**
   * As written, a group differs from the corrected step only when it is
   * one-sided, and then it keeps only its modifications and moves.
   */
  lemma GroupAsWrittenMultiset(g: seq<Event>)
    ensures multiset(GroupOutput(g)) ==
            if OneSided(g) then multiset(Modifies(g)) + multiset(Moves(g))
            else multiset(GroupOutputCorrected(g))
  {
    var ds, cs := Deletes(g), Creates(g);
    if |g| >= 2 && ds == [] && cs == [] {
      assert GroupOutputCorrected(g) == Modifies(g) + Moves(g) + [];
      assert GroupOutput(g) == Modifies(g) + Moves(g) + [];
    }
  }

  /** Neither per-group step emits more events than its group holds. */
  lemma GroupNoLonger(g: seq<Event>, keepUnpaired: bool)
    ensures |Fuser(keepUnpaired)(g)| <= |g|
  {
    if |g| >= 2 {
      var ds, cs := Deletes(g), Creates(g);
      Partition(g);
      assert |multiset(g)| == |Modifies(g)| + |Moves(g)| + |ds| + |cs|;
      if ds != [] && cs != [] {
        assert |PairOutput(ds, cs)| <= |ds| + |cs|;
      }
    }
  }

  lemma FusersShrink(keepUnpaired: bool)
    ensures Shrinks(Fuser(keepUnpaired))
  {
    forall g: seq<Event>
      ensures |Fuser(keepUnpaired)(g)| <= |g|
    {
      GroupNoLonger(g, keepUnpaired);
    }
  }

  /** Where a group's output comes from: the group itself, or the move of its fusable pair. */
  lemma GroupProvenance(g: seq<Event>, y: Event, keepUnpaired: bool)
    requires y in Fuser(keepUnpaired)(g)
    ensures y in g || (Fusable(g) && y == Fused(Deletes(g)[0], Creates(g)[0]))
  {
  }

  lemma FusersKeepHashes(keepUnpaired: bool)
    ensures KeepsHashes(Fuser(keepUnpaired))
  {
    var fuse := Fuser(keepUnpaired);
    forall g: seq<Event>, y: Event | y in fuse(g)
      ensures exists e :: e in g && e.hash == y.hash
    {
      GroupProvenance(g, y, keepUnpaired);
      if y in g {
        assert y in g && y.hash == y.hash;
      } else {
        var c := Creates(g)[0];
        assert c in Creates(g);
        assert c in g && c.hash == y.hash;
      }
    }
    assert KeepsHashes(fuse);
  }

  /** The per-group step, as the aggregator performs it on one map entry. */
  method AggregateGroup(g: seq<Event>, keepUnpaired: bool) returns (out: seq<Event>)
    ensures out == Fuser(keepUnpaired)(g)
  {
    if |g| < 2 {
      return g;
    }
    var modifyHits := GetInstances(g, IsModify);
    var moveHits := GetInstances(g, IsMove);
    out := modifyHits + moveHits;
    var deleteHits := GetInstances(g, IsDelete);
    var createHits := GetInstances(g, IsCreate);
    if deleteHits != [] && createHits != [] {
      var pair;
      if |deleteHits| > 1 {
        pair := deleteHits + createHits;
      } else if |createHits| > 1 {
        pair := createHits + deleteHits;
      } else {
        var deleteHit, createHit := deleteHits[0], createHits[0];
        if deleteHit.timestamp < createHit.timestamp {
          pair := [Fused(deleteHit, createHit)];
        } else {
          pair := [deleteHit, createHit];
        }
      }
      assert pair == PairOutput(deleteHits, createHits);
      out := out + pair;
    } else if keepUnpaired {
      out := out + (deleteHits + createHits);
    } else {
      out := out + [];
    }
  }

  // ----- the whole batch -----

  /** The map from key to events, filled in list order. */
  method GroupByKey<K(==)>(s: seq<Event>, key: Hash -> K) returns (groups: map<K, seq<Event>>)
    ensures groups.Keys == KeySet(s, key)
    ensures forall k :: k in groups ==> groups[k] == Group(s, key, k)
  {
    groups := map[];
    var i := 0;
    while i < |s|
      invariant 0 <= i <= |s|
      invariant Grouped(groups, s[..i], key)
    {
      assert s[..i + 1] == s[..i] + [s[i]];
      groups := AddToGroup(groups, s[i], key, s[..i]);
      i := i + 1;
    }
    assert s[..i] == s;
  }

  /** `groups` maps each key of `s` to its group, and holds no other key. */
  ghost predicate Grouped<K>(groups: map<K, seq<Event>>, s: seq<Event>, key: Hash -> K) {
    groups.Keys == KeySet(s, key) && forall k :: k in groups ==> groups[k] == Group(s, key, k)
  }

  /** One turn of the loop: `e` is appended to the list of its key, which is created when missing. */
  method AddToGroup<K(==)>(groups: map<K, seq<Event>>, e: Event, key: Hash -> K, ghost s: seq<Event>)
    returns (groups': map<K, seq<Event>>)
    requires Grouped(groups, s, key)
    ensures Grouped(groups', s + [e], key)
  {
    var k := key(e.hash);
    KeySetSnoc(s, e, key);
    groups' := groups;
    if k !in groups' {
      GroupEmpty(s, key, k);
      groups' := groups'[k := []];
    }
    GroupSnoc(s, e, key, k);
    groups' := groups'[k := groups'[k] + [e]];
    forall k' | k' in groups' && k' != k
      ensures groups'[k'] == Group(s + [e], key, k')
    {
      GroupSnoc(s, e, key, k');
    }
  }


  /**
   * All groups' outputs for a batch already in timestamp order: the map is
   * filled in list order, then its entries are visited in whatever order
   * the map yields them, and the result is sorted again.
   */
  method AggregateSorted<K(==)>(s: seq<Event>, key: Hash -> K, keepUnpaired: bool) returns (out: seq<Event>)
    ensures Sorted(out)
    ensures multiset(out) == multiset(AggregatedBy(s, key, keepUnpaired))
  {
    var groups := GroupByKey(s, key);
    var fuse := Fuser(keepUnpaired);
    var remaining := groups.Keys;
    ghost var visited: seq<K> := [];
    var aggregated := [];
    while remaining != {}
      invariant Visiting(groups.Keys, visited, remaining)
      invariant aggregated == FuseKeys(s, key, visited, fuse)
      decreases remaining
    {
      var k :| k in remaining;
      var part := AggregateGroup(groups[k], keepUnpaired);
      FuseKeysSnoc(s, key, visited, k, fuse);
      VisitOne(groups.Keys, visited, remaining, k);
      aggregated := aggregated + part;
      visited := visited + [k];
      remaining := remaining - {k};
    }
    AllKeysVisited(s, key, visited, keepUnpaired);
    out := SortByTime(aggregated);
  }

  /** `visited` lists without repetition the keys no longer `remaining`. */
  ghost predicate Visiting<K>(keys: set<K>, visited: seq<K>, remaining: set<K>) {
    remaining <= keys && Distinct(visited) &&
    (forall k :: k in visited ==> k in keys && k !in remaining) &&
    (forall k :: k in keys ==> k in visited || k in remaining)
  }

  /** Moving one remaining key to the visited ones. */
  lemma VisitOne<K>(keys: set<K>, visited: seq<K>, remaining: set<K>, k: K)
    requires Visiting(keys, visited, remaining) && k in remaining
    ensures Visiting(keys, visited + [k], remaining - {k})
  {
  }

  /** Visiting one more key appends the output of its group. */
  lemma FuseKeysSnoc<K>(s: seq<Event>, key: Hash -> K, visited: seq<K>, k: K, fuse: seq<Event> -> seq<Event>)
    ensures FuseKeys(s, key, visited + [k], fuse) == FuseKeys(s, key, visited, fuse) + fuse(Group(s, key, k))
  {
    assert (visited + [k])[..|visited|] == visited;
  }

  /** Once every key has been visited, the order of the visit does not matter. */
  lemma AllKeysVisited<K>(s: seq<Event>, key: Hash -> K, visited: seq<K>, keepUnpaired: bool)
    requires Visiting(KeySet(s, key), visited, {})
    ensures multiset(SortByTime(FuseKeys(s, key, visited, Fuser(keepUnpaired)))) ==
            multiset(AggregatedBy(s, key, keepUnpaired))
  {
    FusersKeepHashes(keepUnpaired);
    KeyOrderIrrelevant(s, key, visited, KeysOf(s, key), Fuser(keepUnpaired));
  }

  /**
   * The aggregation of a batch `s` already in timestamp order, grouped by
   * `key`, in timestamp order.
   */
  function AggregatedBy<K(==)>(s: seq<Event>, key: Hash -> K, keepUnpaired: bool): seq<Event> {
    SortByTime(FuseKeys(s, key, KeysOf(s, key), Fuser(keepUnpaired)))
  }

  /** The aggregation never holds more events than the batch. */
  lemma AggregatedByNoLonger<K>(s: seq<Event>, key: Hash -> K, keepUnpaired: bool)
    ensures |AggregatedBy(s, key, keepUnpaired)| <= |s|
  {
    var fused := FuseKeys(s, key, KeysOf(s, key), Fuser(keepUnpaired));
    FusersShrink(keepUnpaired);
    FuseKeysNoLonger(s, key, KeysOf(s, key), Fuser(keepUnpaired));
    GroupsNoLonger(s, key, KeysOf(s, key));
    assert |SortByTime(fused)| == |multiset(SortByTime(fused))| == |multiset(fused)|;
  }

  /** The group the events with `x`'s key form in `s`. */
  function GroupOf<K(==)>(s: seq<Event>, key: Hash -> K, x: Event): seq<Event> {
    Group(s, key, key(x.hash))
  }

  /** An event occurs in the result as often as in the output of its own group. */
  lemma AggregatedCount<K>(s: seq<Event>, key: Hash -> K, x: Event, keepUnpaired: bool)
    ensures multiset(AggregatedBy(s, key, keepUnpaired))[x] == multiset(Fuser(keepUnpaired)(GroupOf(s, key, x)))[x]
  {
    FusersKeepHashes(keepUnpaired);
    FuseAllCount(s, key, Fuser(keepUnpaired), x);
  }

  /** Group membership counts as the batch does. */
  lemma GroupOfCount<K>(s: seq<Event>, key: Hash -> K, x: Event, y: Event)
    requires key(y.hash) == key(x.hash)
    ensures multiset(GroupOf(s, key, x))[y] == multiset(s)[y]
  {
    GroupCount(s, key, y);
  }

  // ----- what the aggregation does to each event -----

  /** `x` is the deletion or the creation of a fusable group, which the move replaces. */
  predicate Consumed<K(==)>(s: seq<Event>, key: Hash -> K, x: Event) {
    var g := GroupOf(s, key, x);
    Fusable(g) && (x == Deletes(g)[0] || x == Creates(g)[0])
  }

  /** `x` is the move built from the fusable pair of its own group. */
  predicate IsFusedOf<K(==)>(s: seq<Event>, key: Hash -> K, x: Event) {
    var g := GroupOf(s, key, x);
    Fusable(g) && x == Fused(Deletes(g)[0], Creates(g)[0])
  }

  /**
   * How often `x` should occur in the result: as often as in the batch,
   * except that a consumed deletion or creation is gone and the move that
   * replaces them is added.
   */
  function ExpectedCount<K(==)>(s: seq<Event>, key: Hash -> K, x: Event): nat {
    (if Consumed(s, key, x) then 0 else multiset(s)[x]) + (if IsFusedOf(s, key, x) then 1 else 0)
  }

  /** A fusable group's pair occurs exactly once in it. */
  lemma FusablePairOnce(g: seq<Event>)
    requires Fusable(g)
    ensures multiset(g)[Deletes(g)[0]] == 1 && multiset(g)[Creates(g)[0]] == 1
  {
    var d, c := Deletes(g)[0], Creates(g)[0];
    SingletonList(Deletes(g));
    SingletonList(Creates(g));
    assert d in Deletes(g) && c in Creates(g);
    FilterCount(g, IsDelete, d);
    FilterCount(g, IsCreate, c);
  }

  /**
   * With unpaired deletions and creations passed through, nothing is lost:
   * every event occurs in the result exactly as often as in the batch,
   * except the single deletion and creation of a group that become a move.
   */
  lemma CorrectedCount<K>(s: seq<Event>, key: Hash -> K, x: Event)
    ensures multiset(AggregatedBy(s, key, true))[x] == ExpectedCount(s, key, x)
  {
    var g := GroupOf(s, key, x);
    AggregatedCount(s, key, x, true);
    GroupCorrectedMultiset(g);
    GroupOfCount(s, key, x, x);
    if Fusable(g) {
      ReplacedCount(g, x);
    }
  }

  /** Replacing a fusable group's pair by its move, counted for one event. */
  lemma ReplacedCount(g: seq<Event>, x: Event)
    requires Fusable(g)
    ensures var d, c := Deletes(g)[0], Creates(g)[0];
            (multiset(g) - multiset{d, c} + multiset{Fused(d, c)})[x] ==
            (if x == d || x == c then 0 else multiset(g)[x]) + (if x == Fused(d, c) then 1 else 0)
  {
    var d, c := Deletes(g)[0], Creates(g)[0];
    FusablePairOnce(g);
    assert d in Deletes(g) && c in Creates(g);
    assert d != c && d != Fused(d, c) && c != Fused(d, c);
  }

  /**
   * As written, the aggregation differs from that only in one-sided groups
   * (two or more events with the same key, deletions but no creations or
   * the reverse): there every deletion and creation is lost.
   */
  lemma AsWrittenCount<K>(s: seq<Event>, key: Hash -> K, x: Event)
    ensures multiset(AggregatedBy(s, key, false))[x] ==
            if OneSided(GroupOf(s, key, x)) && (x.Delete? || x.Create?) then 0
            else ExpectedCount(s, key, x)
  {
    var g := GroupOf(s, key, x);
    AggregatedCount(s, key, x, false);
    CorrectedCount(s, key, x);
    AggregatedCount(s, key, x, true);
    GroupAsWrittenMultiset(g);
    if OneSided(g) {
      FilterCount(g, IsModify, x);
      FilterCount(g, IsMove, x);
      GroupOfCount(s, key, x, x);
    }
  }

  /**
   * Events of the result come from the batch, or are a move fused from a
   * deletion and a strictly later creation of the batch with the same key.
   */
  lemma Provenance<K>(s: seq<Event>, key: Hash -> K, y: Event, keepUnpaired: bool)
    requires y in AggregatedBy(s, key, keepUnpaired)
    ensures y in s || IsFusedOf(s, key, y)
  {
    var g := GroupOf(s, key, y);
    AggregatedCount(s, key, y, keepUnpaired);
    assert y in Fuser(keepUnpaired)(g);
    GroupProvenance(g, y, keepUnpaired);
    if y in g {
      GroupOfCount(s, key, y, y);
    }
  }

  /** The move of a fusable group joins a deletion and a strictly later creation of the batch. */
  lemma FusedFromBatch<K>(s: seq<Event>, key: Hash -> K, y: Event)
    requires IsFusedOf(s, key, y)
    ensures exists d, c :: d in s && c in s && d.Delete? && c.Create? && key(d.hash) == key(c.hash) &&
                           d.timestamp < c.timestamp && y == Fused(d, c)
  {
    var g := GroupOf(s, key, y);
    var d, c := Deletes(g)[0], Creates(g)[0];
    assert d in Deletes(g) && c in Creates(g);
    assert d in s && c in s;
  }

  /**
   * A deletion followed strictly later by a creation with the same key,
   * with no other deletion or creation of that key in the batch, becomes
   * a single move; neither of the two remains.
   */
  lemma MoveDetectedBy<K>(s: seq<Event>, key: Hash -> K, d: Event, c: Event, keepUnpaired: bool)
    requires d.Delete? && c.Create? && key(d.hash) == key(c.hash) && d.timestamp < c.timestamp
    requires multiset(s)[d] == 1 && multiset(s)[c] == 1
    requires forall e :: e in s && key(e.hash) == key(d.hash) && (e.Delete? || e.Create?) ==> e == d || e == c
    ensures Fused(d, c) in AggregatedBy(s, key, keepUnpaired)
    ensures d !in AggregatedBy(s, key, keepUnpaired) && c !in AggregatedBy(s, key, keepUnpaired)
  {
    PairIsFusable(s, key, d, c);
    ConsumedCount(s, key, d, keepUnpaired);
    ConsumedCount(s, key, c, keepUnpaired);
    FusedCount(s, key, Fused(d, c), keepUnpaired);
  }

  /** A consumed deletion or creation of a two-sided group is gone from the result. */
  lemma ConsumedCount<K>(s: seq<Event>, key: Hash -> K, x: Event, keepUnpaired: bool)
    requires Consumed(s, key, x) && !OneSided(GroupOf(s, key, x))
    ensures multiset(AggregatedBy(s, key, keepUnpaired))[x] == 0
  {
    if keepUnpaired {
      CorrectedCount(s, key, x);
    } else {
      AsWrittenCount(s, key, x);
    }
  }

  /** The move built from a fusable pair is in the result. */
  lemma FusedCount<K>(s: seq<Event>, key: Hash -> K, x: Event, keepUnpaired: bool)
    requires IsFusedOf(s, key, x)
    ensures x in AggregatedBy(s, key, keepUnpaired)
  {
    var g := GroupOf(s, key, x);
    assert x.Move? && !Consumed(s, key, x) by {
      assert Deletes(g)[0] in Deletes(g) && Creates(g)[0] in Creates(g);
    }
    assert ExpectedCount(s, key, x) >= 1;
    if keepUnpaired {
      CorrectedCount(s, key, x);
    } else {
      AsWrittenCount(s, key, x);
    }
  }

  lemma PairIsFusable<K>(s: seq<Event>, key: Hash -> K, d: Event, c: Event)
    requires d.Delete? && c.Create? && key(d.hash) == key(c.hash) && d.timestamp < c.timestamp
    requires multiset(s)[d] == 1 && multiset(s)[c] == 1
    requires forall e :: e in s && key(e.hash) == key(d.hash) && (e.Delete? || e.Create?) ==> e == d || e == c
    ensures var g := GroupOf(s, key, d);
            Fusable(g) && !OneSided(g) && Deletes(g) == [d] && Creates(g) == [c] &&
            GroupOf(s, key, c) == g && GroupOf(s, key, Fused(d, c)) == g
  {
    OnlyOfKind(s, key, d, IsDelete, d, c);
    OnlyOfKind(s, key, d, IsCreate, c, d);
  }

  /** The group of `x`'s key holds `only` as its single event of kind `p`. */
  lemma OnlyOfKind<K>(s: seq<Event>, key: Hash -> K, x: Event, p: Event -> bool, only: Event, other: Event)
    requires p(only) && !p(other) && key(only.hash) == key(x.hash) && multiset(s)[only] == 1
    requires forall e :: e in s && key(e.hash) == key(x.hash) && p(e) ==> e == only || e == other
    ensures Filter(GroupOf(s, key, x), p) == [only]
  {
    var g := GroupOf(s, key, x);
    var f := Filter(g, p);
    forall y ensures multiset(f)[y] == multiset{only}[y] {
      OnlyOfKindCount(s, key, x, p, only, other, y);
    }
    assert multiset(f) == multiset{only};
    SingletonOfMultiset(f, only);
  }

  /** The count of one event among the group's events of kind `p`. */
  lemma OnlyOfKindCount<K>(s: seq<Event>, key: Hash -> K, x: Event, p: Event -> bool, only: Event, other: Event, y: Event)
    requires p(only) && !p(other) && key(only.hash) == key(x.hash) && multiset(s)[only] == 1
    requires forall e :: e in s && key(e.hash) == key(x.hash) && p(e) ==> e == only || e == other
    ensures multiset(Filter(GroupOf(s, key, x), p))[y] == multiset{only}[y]
  {
    var g := GroupOf(s, key, x);
    FilterCount(g, p, y);
    if key(y.hash) == key(x.hash) {
      GroupOfCount(s, key, x, y);
    } else {
      assert y !in g;
    }
  }

  /** A list whose multiset holds one element is that element alone. */
  lemma SingletonOfMultiset(f: seq<Event>, only: Event)
    requires multiset(f) == multiset{only}
    ensures f == [only]
  {
    assert |f| == |multiset(f)| == 1;
    assert f[0] in multiset(f);
  }

  /**
   * As written: a deletion (or creation) that shares its key with another
   * event, where the batch holds no creation (or deletion) of that key,
   * disappears from the result.
   */
  lemma OneSidedDroppedBy<K>(s: seq<Event>, key: Hash -> K, x: Event, other: Event)
    requires x.Delete? || x.Create?
    requires x in s && other in s && other != x && key(other.hash) == key(x.hash)
    requires forall e :: e in s && key(e.hash) == key(x.hash) ==> !(e.Delete? || e.Create?) || e.Delete? == x.Delete?
    ensures x !in AggregatedBy(s, key, false)
  {
    var g := GroupOf(s, key, x);
    var opposite := if x.Delete? then IsCreate else IsDelete;
    forall e | e in g
      ensures !opposite(e)
    {
      GroupOfCount(s, key, x, e);
    }
    GroupOfCount(s, key, x, x);
    GroupOfCount(s, key, x, other);
    TwoDistinct(g, x, other);
    if x.Delete? {
      NoneOfKind(g, IsCreate);
      assert x in Deletes(g);
    } else {
      NoneOfKind(g, IsDelete);
      assert x in Creates(g);
    }
    assert OneSided(g);
    AsWrittenCount(s, key, x);
  }

  lemma TwoDistinct(g: seq<Event>, x: Event, y: Event)
    requires x in g && y in g && x != y
    ensures |g| >= 2
  {
    assert multiset{x, y} <= multiset(g);
  }

  lemma NoneOfKind(g: seq<Event>, p: Event -> bool)
    requires forall e :: e in g ==> !p(e)
    ensures Filter(g, p) == []
  {
    if Filter(g, p) != [] {
      assert Filter(g, p)[0] in Filter(g, p);
    }
  }

  /** With no deletion in the batch, the corrected aggregation returns the batch unchanged, up to order. */
  lemma NoDeletionsNothingLost<K>(s: seq<Event>, key: Hash -> K)
    requires forall e :: e in s ==> !e.Delete?
    ensures multiset(AggregatedBy(s, key, true)) == multiset(s)
  {
    forall x ensures multiset(AggregatedBy(s, key, true))[x] == multiset(s)[x] {
      CorrectedCount(s, key, x);
      var g := GroupOf(s, key, x);
      forall e | e in g ensures !IsDelete(e) {
        GroupOfCount(s, key, x, e);
      }
      NoneOfKind(g, IsDelete);
    }
  }

  /** As written, two or more creations sharing one key, with nothing else in the batch, all vanish. */
  lemma SameKeyCreationsLost<K>(s: seq<Event>, key: Hash -> K)
    requires |s| >= 2
    requires forall e :: e in s ==> e.Create? && key(e.hash) == key(s[0].hash)
    ensures AggregatedBy(s, key, false) == []
  {
    var out := AggregatedBy(s, key, false);
    if out != [] {
      var y := out[0];
      assert y in out;
      Provenance(s, key, y, false);
      if y in s {
        SameKeyGroupOneSided(s, key, y);
        AsWrittenCount(s, key, y);
      } else {
        FusedFromBatch(s, key, y);
      }
    }
  }

  /** When every event of `s` has one key, the group of any of them is the whole batch. */
  lemma SameKeyGroupIsBatch<K>(s: seq<Event>, key: Hash -> K, y: Event)
    requires forall e :: e in s ==> key(e.hash) == key(y.hash)
    ensures multiset(GroupOf(s, key, y)) == multiset(s)
  {
    forall e
      ensures multiset(GroupOf(s, key, y))[e] == multiset(s)[e]
    {
      if e in s {
        GroupOfCount(s, key, y, e);
      }
    }
  }

  /** Two or more creations of one key form a group without deletions. */
  lemma SameKeyGroupOneSided<K>(s: seq<Event>, key: Hash -> K, y: Event)
    requires |s| >= 2 && y in s
    requires forall e :: e in s ==> e.Create? && key(e.hash) == key(s[0].hash)
    ensures y.Create? && OneSided(GroupOf(s, key, y))
  {
    var g := GroupOf(s, key, y);
    SameKeyGroupIsBatch(s, key, y);
    assert |g| == |multiset(g)| == |multiset(s)| == |s|;
    NoneOfKind(g, IsDelete);
    assert y in Creates(g);
  }

  // ----- `MoveAggregator` itself: groups keyed by the hash, a null hash being one key -----

  function HashKey(h: Hash): Hash { h }

  /** The aggregation of `events`, as written, in timestamp order. */
  function Aggregated(events: seq<Event>): seq<Event> {
    AggregatedBy(SortByTime(events), HashKey, false)
  }

  /** The aggregation with unpaired deletions and creations passed through. */
  function AggregatedCorrected(events: seq<Event>): seq<Event> {
    AggregatedBy(SortByTime(events), HashKey, true)
  }

  /** `aggregate`: sort, group by hash, fuse each group, sort. */
  method Aggregate(events: seq<Event>) returns (out: seq<Event>)
    ensures Sorted(out)
    ensures multiset(out) == multiset(Aggregated(events))
    ensures |out| <= |events|
  {
    var s := SortByTime(events);
    out := AggregateSorted(s, HashKey, false);
    AggregatedNoLonger(events);
    assert |out| == |multiset(out)| == |Aggregated(events)|;
  }

  /** The same with unpaired deletions and creations passed through. */
  method AggregateCorrected(events: seq<Event>) returns (out: seq<Event>)
    ensures Sorted(out)
    ensures multiset(out) == multiset(AggregatedCorrected(events))
    ensures |out| <= |events|
  {
    var s := SortByTime(events);
    out := AggregateSorted(s, HashKey, true);
    AggregatedNoLonger(events);
    assert |out| == |multiset(out)| == |AggregatedCorrected(events)|;
  }

  /** Aggregating never yields more events than the batch held, as written or corrected. */
  lemma AggregatedNoLonger(events: seq<Event>)
    ensures |Aggregated(events)| <= |events|
    ensures |AggregatedCorrected(events)| <= |events|
  {
    var s := SortByTime(events);
    assert |s| == |multiset(s)| == |multiset(events)|;
    AggregatedByNoLonger(s, HashKey, false);
    AggregatedByNoLonger(s, HashKey, true);
  }

  /**
   * A deletion followed strictly later by a creation of the same hash, the
   * only deletion and creation of that hash in the batch, becomes one move
   * from the deleted path to the created path.
   */
  lemma MoveDetected(events: seq<Event>, d: Event, c: Event)
    requires d.Delete? && c.Create? && d.hash == c.hash && d.timestamp < c.timestamp
    requires multiset(events)[d] == 1 && multiset(events)[c] == 1
    requires forall e :: e in events && e.hash == d.hash && (e.Delete? || e.Create?) ==> e == d || e == c
    ensures Move(d.path, c.path, c.name, c.hash, c.timestamp) in Aggregated(events)
    ensures d !in Aggregated(events) && c !in Aggregated(events)
  {
    var s := SortByTime(events);
    forall e | e in s ensures e in events {
      InSorted(events, e);
    }
    MoveDetectedBy(s, HashKey, d, c, false);
  }

  /**
   * As written, two or more creations with one hash (directories, whose
   * hash is null, for instance) and nothing else all disappear.
   */
  lemma DirectoryCreationsLost(events: seq<Event>)
    requires |events| >= 2
    requires forall e :: e in events ==> e.Create? && e.hash == None
    ensures Aggregated(events) == []
  {
    var s := SortByTime(events);
    assert |s| == |multiset(s)| == |multiset(events)| == |events|;
    forall e | e in s ensures e.Create? && e.hash == None {
      InSorted(events, e);
    }
    assert s[0] in s;
    SameKeyCreationsLost(s, HashKey);
  }

  /** With unpaired events passed through, a batch of creations comes back whole. */
  lemma DirectoryCreationsKept(events: seq<Event>)
    requires forall e :: e in events ==> e.Create?
    ensures multiset(AggregatedCorrected(events)) == multiset(events)
  {
    var s := SortByTime(events);
    forall e | e in s ensures !e.Delete? {
      InSorted(events, e);
    }
    NoDeletionsNothingLost(s, HashKey);
  }
}
