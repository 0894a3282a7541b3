/**
 * `EmptyHashAggregator`: a file system reports a new file first with empty
 * content, so its creation carries the hash of empty content; the real
 * hash arrives with a later modification. The aggregator merges the two:
 * a creation with the empty hash and a same-path modification with another
 * hash, found anywhere in the batch, earlier ones included, become one
 * creation carrying the modification's hash.
 *
 * Java events compare by identity, and the aggregator collects objects in
 * a `HashSet` and removes an ignore list from it. An object here is an
 * event together with its position in the sorted batch (`Original`), or a
 * creation the aggregator builds for the creation at a position
 * (`Repaired`).
 */
module EmptyHashAggregator {
  import opened Wrappers
  import opened Events
  import opened Seqs
  import opened Sorting

  datatype Obj = Original(pos: nat, event: Event) | Repaired(pos: nat, event: Event)

  function EventOf(o: Obj): Event { o.event }

  /** A creation carrying the hash of empty content. */
  predicate EmptyCreate(e: Event) {
    e.Create? && e.hash == Some(EmptyHash)
  }

  /** A modification of `p` whose hash is not the empty one (a missing hash included). */
  predicate Candidate(m: Event, p: Path) {
    m.Modify? && m.path == p && m.hash != Some(EmptyHash)
  }

  /** The position of the first candidate for `p` at or after `j`. */
  function MatchFrom(s: seq<Event>, p: Path, j: nat): (r: Option<nat>)
    requires j <= |s|
    ensures r.Some? ==> j <= r.value < |s| && Candidate(s[r.value], p)
    ensures r.Some? ==> forall k :: j <= k < r.value ==> !Candidate(s[k], p)
    ensures r.None? ==> forall k :: j <= k < |s| ==> !Candidate(s[k], p)
    decreases |s| - j
  {
    if j == |s| then None
    else if Candidate(s[j], p) then Some(j)
    else MatchFrom(s, p, j + 1)
  }

  /** The modification the inner scan stops at for a creation of `p`. */
  function Match(s: seq<Event>, p: Path): Option<nat>
  {
    MatchFrom(s, p, 0)
  }

  /** The creation built from an empty creation and its modification. */
  function Repair(c: Event, m: Event): (r: Event)
    ensures r.Create? && r.path == c.path && r.name == c.name && r.timestamp == c.timestamp && r.hash == m.hash
  {
    Create(c.path, c.name, m.hash, c.timestamp)
  }

  /**
   * The scan dereferences the hash of every creation, and the hash of the
   * candidate it stops at for an empty creation; neither may be missing.
   */
  predicate NoNullDereference(s: seq<Event>) {
    (forall i :: 0 <= i < |s| && s[i].Create? ==> s[i].hash.Some?) &&
    (forall i :: 0 <= i < |s| && EmptyCreate(s[i]) && Match(s, s[i].path).Some? ==>
       s[Match(s, s[i].path).value].hash.Some?)
  }

  /**
   * The object step `n` of the outer loop adds to the set, if any. With
   * `keepUnmatched`, an empty creation without a modification is kept
   * rather than lost.
   */
  function AddedAt(s: seq<Event>, n: nat, keepUnmatched: bool): seq<Obj>
    requires n < |s|
  {
    if EmptyCreate(s[n]) then
      match Match(s, s[n].path)
      case Some(j) => [Repaired(n, Repair(s[n], s[j]))]
      case None => if keepUnmatched then [Original(n, s[n])] else []
    else [Original(n, s[n])]
  }

  /** The objects steps `0 .. n-1` add to the set. */
  function Added(s: seq<Event>, n: nat, keepUnmatched: bool): (r: seq<Obj>)
    requires n <= |s|
    ensures forall o :: o in r ==> o.pos < n
    ensures Distinct(r)
    ensures |r| <= n
  {
    if n == 0 then []
    else
      var prefix := Added(s, n - 1, keepUnmatched);
      assert forall o :: o in AddedAt(s, n - 1, keepUnmatched) ==> o !in prefix;
      prefix + AddedAt(s, n - 1, keepUnmatched)
  }

  /** What step `n` appends to the ignore list: the empty creation and its modification. */
  function IgnoredAt(s: seq<Event>, n: nat): seq<Obj>
    requires n < |s|
  {
    if EmptyCreate(s[n]) then
      match Match(s, s[n].path)
      case Some(j) => [Original(n, s[n]), Original(j, s[j])]
      case None => []
    else []
  }

  /** The ignore list after steps `0 .. n-1`. */
  function Ignored(s: seq<Event>, n: nat): seq<Obj>
    requires n <= |s|
  {
    if n == 0 then [] else Ignored(s, n - 1) + IgnoredAt(s, n - 1)
  }

  /** The objects of the set after `removeAll`, in the order the loop added them. */
  function Survivors(s: seq<Event>, keepUnmatched: bool): seq<Obj> {
    var ignored := Ignored(s, |s|);
    Filter(Added(s, |s|, keepUnmatched), (o: Obj) => o !in ignored)
  }

  lemma SurvivorIff(s: seq<Event>, keepUnmatched: bool, o: Obj)
    ensures o in Survivors(s, keepUnmatched) <==> o in Added(s, |s|, keepUnmatched) && o !in Ignored(s, |s|)
  {
  }

  /** The aggregation of `events` as a list in timestamp order. */
  function Aggregated(events: seq<Event>, keepUnmatched: bool): seq<Event> {
    SortByTime(Map(Survivors(SortByTime(events), keepUnmatched), EventOf))
  }

  /**
   * The inner loop: scan the whole batch for the first modification of
   * `p` whose hash is not the empty one.
   */
  method FindCandidate(s: seq<Event>, p: Path) returns (r: Option<nat>)
    requires Match(s, p).Some? ==> s[Match(s, p).value].hash.Some?
    ensures r == Match(s, p)
  {
    var j := 0;
    r := None;
    while j < |s| && r.None?
      invariant 0 <= j <= |s|
      invariant r.None? ==> Match(s, p) == MatchFrom(s, p, j)
      invariant r.Some? ==> Match(s, p) == r
    {
      var candidate := s[j];
      if candidate.Modify? && p == candidate.path && candidate.hash.value != EmptyHash {
        r := Some(j);
      }
      j := j + 1;
    }
  }

  /** `aggregate`: sort, scan for empty creations, remove the ignored objects, sort. */
  method Aggregate(events: seq<Event>, keepUnmatched: bool) returns (out: seq<Event>)
    requires NoNullDereference(SortByTime(events))
    ensures Sorted(out)
    ensures multiset(out) == multiset(Aggregated(events, keepUnmatched))
  {
    var s := SortByTime(events);
    var aggregated: set<Obj> := {};
    var ignore: seq<Obj> := [];
    for i := 0 to |s|
      invariant forall o :: o in aggregated <==> o in Added(s, i, keepUnmatched)
      invariant ignore == Ignored(s, i)
    {
      aggregated, ignore := ScanStep(s, i, keepUnmatched, aggregated, ignore);
    }
    var kept := RemoveIgnored(s, keepUnmatched, aggregated, ignore);
    out := SortByTime(kept);
  }

  /** One turn of the outer loop, for the event at `i`. */
  method ScanStep(s: seq<Event>, i: nat, keepUnmatched: bool, aggregated: set<Obj>, ignore: seq<Obj>)
    returns (aggregated': set<Obj>, ignore': seq<Obj>)
    requires i < |s| && NoNullDereference(s)
    requires forall o :: o in aggregated <==> o in Added(s, i, keepUnmatched)
    requires ignore == Ignored(s, i)
    ensures forall o :: o in aggregated' <==> o in Added(s, i + 1, keepUnmatched)
    ensures ignore' == Ignored(s, i + 1)
  {
    aggregated', ignore' := aggregated, ignore;
    var event := s[i];
    if event.Create? && event.hash.value == EmptyHash {
      var found := FindCandidate(s, event.path);
      match found
      case Some(j) =>
        aggregated' := aggregated' + {Repaired(i, Repair(event, s[j]))};
        ignore' := ignore' + [Original(i, event), Original(j, s[j])];
      case None =>
        if keepUnmatched {
          aggregated' := aggregated' + {Original(i, event)};
        }
    } else {
      aggregated' := aggregated' + {Original(i, event)};
    }
  }

  /**
   * `removeAll` of the ignore list from the set, and the set's events in
   * whatever order the set yields them.
   */
  method RemoveIgnored(s: seq<Event>, keepUnmatched: bool, aggregated: set<Obj>, ignore: seq<Obj>)
    returns (kept: seq<Event>)
    requires forall o :: o in aggregated <==> o in Added(s, |s|, keepUnmatched)
    requires ignore == Ignored(s, |s|)
    ensures multiset(kept) == multiset(Map(Survivors(s, keepUnmatched), EventOf))
  {
    var remaining := aggregated - set o | o in ignore;
    var unique := ListOfSet(remaining);
    forall o ensures o in unique <==> o in Survivors(s, keepUnmatched) {
      assert o in unique <==> o in remaining;
      SurvivorIff(s, keepUnmatched, o);
    }
    FilterDistinct(Added(s, |s|, keepUnmatched), (o: Obj) => o !in Ignored(s, |s|));
    SameSetSameMultiset(unique, Survivors(s, keepUnmatched));
    MapPermutation(unique, Survivors(s, keepUnmatched), EventOf);
    kept := Map(unique, EventOf);
  }


  // ----- which objects survive -----

  /** The modification at `j` is the one the scan stops at for some empty creation. */
  predicate Consumed(s: seq<Event>, j: nat) {
    exists i :: 0 <= i < |s| && EmptyCreate(s[i]) && Match(s, s[i].path) == Some(j)
  }

  /**
   * The objects the aggregation returns: every event that is neither an
   * empty creation nor a consumed modification, and for each empty creation
   * with a modification, the creation carrying that modification's hash.
   * With `keepUnmatched`, an empty creation without one is kept as well.
   */
  predicate Survives(s: seq<Event>, keepUnmatched: bool, o: Obj) {
    o.pos < |s| &&
    match o
    case Original(i, e) =>
      e == s[i] && !Consumed(s, i) &&
      (!EmptyCreate(s[i]) || (keepUnmatched && Match(s, s[i].path).None?))
    case Repaired(i, e) =>
      EmptyCreate(s[i]) && Match(s, s[i].path).Some? &&
      e == Repair(s[i], s[Match(s, s[i].path).value])
  }

  lemma {:induction false} AddedIff(s: seq<Event>, n: nat, keepUnmatched: bool, o: Obj)
    requires n <= |s|
    ensures o in Added(s, n, keepUnmatched) <==> o.pos < n && o in AddedAt(s, o.pos, keepUnmatched)
  {
    if n > 0 {
      AddedIff(s, n - 1, keepUnmatched, o);
    }
  }

  lemma {:induction false} IgnoredIff(s: seq<Event>, n: nat, o: Obj)
    requires n <= |s|
    ensures o in Ignored(s, n) <==> exists m :: 0 <= m < n && o in IgnoredAt(s, m)
  {
    if n > 0 {
      IgnoredIff(s, n - 1, o);
      assert o in Ignored(s, n) <==> o in Ignored(s, n - 1) || o in IgnoredAt(s, n - 1);
      if exists m :: 0 <= m < n && o in IgnoredAt(s, m) {
        var m :| 0 <= m < n && o in IgnoredAt(s, m);
        assert m < n - 1 || o in IgnoredAt(s, n - 1);
      }
    }
  }

  /** An object on the ignore list is the original of a matched empty creation or of a consumed position. */
  lemma IgnoredIsConsumedOrEmpty(s: seq<Event>, o: Obj)
    ensures o in Ignored(s, |s|) <==>
            o.Original? && o.pos < |s| && o.event == s[o.pos] &&
            ((EmptyCreate(s[o.pos]) && Match(s, s[o.pos].path).Some?) || Consumed(s, o.pos))
  {
    IgnoredIff(s, |s|, o);
    if o in Ignored(s, |s|) {
      IgnoredOnlyOriginals(s, o);
    } else if o.Original? && o.pos < |s| && o.event == s[o.pos] &&
              ((EmptyCreate(s[o.pos]) && Match(s, s[o.pos].path).Some?) || Consumed(s, o.pos)) {
      ConsumedIgnored(s, o);
    }
  }

  lemma IgnoredOnlyOriginals(s: seq<Event>, o: Obj)
    requires exists m :: 0 <= m < |s| && o in IgnoredAt(s, m)
    ensures o.Original? && o.pos < |s| && o.event == s[o.pos]
    ensures (EmptyCreate(s[o.pos]) && Match(s, s[o.pos].path).Some?) || Consumed(s, o.pos)
  {
    var m :| 0 <= m < |s| && o in IgnoredAt(s, m);
  }

  lemma ConsumedIgnored(s: seq<Event>, o: Obj)
    requires o.Original? && o.pos < |s| && o.event == s[o.pos]
    requires (EmptyCreate(s[o.pos]) && Match(s, s[o.pos].path).Some?) || Consumed(s, o.pos)
    ensures exists m :: 0 <= m < |s| && o in IgnoredAt(s, m)
  {
    if EmptyCreate(s[o.pos]) && Match(s, s[o.pos].path).Some? {
      assert o in IgnoredAt(s, o.pos);
    } else {
      var i :| 0 <= i < |s| && EmptyCreate(s[i]) && Match(s, s[i].path) == Some(o.pos);
      assert o in IgnoredAt(s, i);
    }
  }

  /** The aggregation returns exactly the objects `Survives` describes. */
  lemma SurvivorsExactly(s: seq<Event>, keepUnmatched: bool, o: Obj)
    ensures o in Survivors(s, keepUnmatched) <==> Survives(s, keepUnmatched, o)
  {
    SurvivorIff(s, keepUnmatched, o);
    AddedIff(s, |s|, keepUnmatched, o);
    IgnoredIsConsumedOrEmpty(s, o);
  }

  /** A creation is never consumed: only modifications are. */
  lemma CreationNotConsumed(s: seq<Event>, j: nat)
    requires j < |s| && s[j].Create?
    ensures !Consumed(s, j)
  {
    forall i | 0 <= i < |s| && EmptyCreate(s[i]) ensures Match(s, s[i].path) != Some(j) {
    }
  }

  /**
   * An empty creation with a modification of its path is replaced by a
   * creation with the path, name and timestamp of the creation and the
   * hash of the first such modification; the modification is gone.
   */
  lemma CreationRepaired(s: seq<Event>, keepUnmatched: bool, i: nat, j: nat)
    requires i < |s| && EmptyCreate(s[i]) && Match(s, s[i].path) == Some(j)
    ensures Repaired(i, Create(s[i].path, s[i].name, s[j].hash, s[i].timestamp)) in Survivors(s, keepUnmatched)
    ensures Original(i, s[i]) !in Survivors(s, keepUnmatched)
    ensures Original(j, s[j]) !in Survivors(s, keepUnmatched)
  {
    SurvivorsExactly(s, keepUnmatched, Repaired(i, Create(s[i].path, s[i].name, s[j].hash, s[i].timestamp)));
    SurvivorsExactly(s, keepUnmatched, Original(i, s[i]));
    SurvivorsExactly(s, keepUnmatched, Original(j, s[j]));
  }

  /**
   * Two empty creations of one path are both repaired from the same
   * modification: a modification is not reserved for one creation.
   */
  lemma ModificationShared(s: seq<Event>, i1: nat, i2: nat, j: nat)
    requires i1 < |s| && i2 < |s| && EmptyCreate(s[i1]) && EmptyCreate(s[i2])
    requires s[i1].path == s[i2].path && Match(s, s[i1].path) == Some(j)
    ensures Repaired(i1, Repair(s[i1], s[j])) in Survivors(s, false)
    ensures Repaired(i2, Repair(s[i2], s[j])) in Survivors(s, false)
  {
    SurvivorsExactly(s, false, Repaired(i1, Repair(s[i1], s[j])));
    SurvivorsExactly(s, false, Repaired(i2, Repair(s[i2], s[j])));
  }

  /** Every other event that no creation consumes is returned unchanged. */
  lemma OthersKept(s: seq<Event>, keepUnmatched: bool, i: nat)
    requires i < |s| && !EmptyCreate(s[i]) && !Consumed(s, i)
    ensures Original(i, s[i]) in Survivors(s, keepUnmatched)
  {
    SurvivorsExactly(s, keepUnmatched, Original(i, s[i]));
  }

  /** As written, an empty creation without a modification of its path leaves no trace. */
  lemma UnmatchedCreationLost(s: seq<Event>, i: nat, o: Obj)
    requires i < |s| && EmptyCreate(s[i]) && Match(s, s[i].path).None?
    requires o in Survivors(s, false)
    ensures o.pos != i
  {
    SurvivorsExactly(s, false, o);
  }

  /** With unmatched empty creations kept, such a creation is returned unchanged. */
  lemma UnmatchedCreationKept(s: seq<Event>, i: nat)
    requires i < |s| && EmptyCreate(s[i]) && Match(s, s[i].path).None?
    ensures Original(i, s[i]) in Survivors(s, true)
  {
    CreationNotConsumed(s, i);
    SurvivorsExactly(s, true, Original(i, s[i]));
  }

  /** No object is returned twice, and there are no more objects than events. */
  lemma SurvivorsUnique(s: seq<Event>, keepUnmatched: bool)
    ensures Distinct(Survivors(s, keepUnmatched))
    ensures |Survivors(s, keepUnmatched)| <= |s|
  {
    FilterDistinct(Added(s, |s|, keepUnmatched), (o: Obj) => o !in Ignored(s, |s|));
  }

  /** A lone creation with the empty hash: lost as written, kept when corrected. */
  lemma LoneEmptyCreation(c: Event)
    requires EmptyCreate(c)
    ensures Aggregated([c], false) == []
    ensures Aggregated([c], true) == [c]
  {
    assert SortByTime([c]) == [c];
    assert Match([c], c.path) == None;
    assert Added([c], 1, false) == [];
    assert Added([c], 1, true) == [Original(0, c)];
    assert Ignored([c], 1) == [];
  }

  /** An empty creation followed by a modification with a real hash: one creation with that hash. */
  lemma CreationThenModification(p: Path, n: string, h: string)
    requires h != EmptyHash
    ensures Aggregated([Create(p, n, Some(EmptyHash), 123), Modify(p, n, Some(h), 1234)], false) ==
            [Create(p, n, Some(h), 123)]
  {
    PairAggregated([Create(p, n, Some(EmptyHash), 123), Modify(p, n, Some(h), 1234)], p, n, h);
  }

  /** The same, for the two-event batch as a parameter. */
  lemma PairAggregated(s: seq<Event>, p: Path, n: string, h: string)
    requires h != EmptyHash
    requires s == [Create(p, n, Some(EmptyHash), 123), Modify(p, n, Some(h), 1234)]
    ensures Aggregated(s, false) == [Create(p, n, Some(h), 123)]
  {
    assert SortByTime(s) == s by {
      SortSortedIsIdentity(s);
    }
    PairSurvivors(s, p, n, h);
    var r := Create(p, n, Some(h), 123);
    assert Map([Repaired(0, r)], EventOf) == [r];
    SortSortedIsIdentity([r]);
  }

  /** The repaired creation is the only object left after `removeAll`. */
  lemma PairSurvivors(s: seq<Event>, p: Path, n: string, h: string)
    requires h != EmptyHash
    requires s == [Create(p, n, Some(EmptyHash), 123), Modify(p, n, Some(h), 1234)]
    ensures Survivors(s, false) == [Repaired(0, Create(p, n, Some(h), 123))]
  {
    var c, m := s[0], s[1];
    assert Match(s, p) == Some(1);
    assert Added(s, 2, false) == [Repaired(0, Create(p, n, Some(h), 123)), Original(1, m)];
    assert IgnoredAt(s, 0) == [Original(0, c), Original(1, m)] && IgnoredAt(s, 1) == [];
    assert Ignored(s, 1) == Ignored(s, 0) + IgnoredAt(s, 0) == [Original(0, c), Original(1, m)];
    assert Ignored(s, 2) == Ignored(s, 1) + IgnoredAt(s, 1) == [Original(0, c), Original(1, m)];
    FilterTwo(Repaired(0, Create(p, n, Some(h), 123)), Original(1, m), (o: Obj) => o !in Ignored(s, 2));
  }


  /** A creation that already has its real hash is kept together with the modification. */
  lemma HashedCreationKept(p: Path, n: string, h: string)
    requires h != EmptyHash
    ensures Aggregated([Create(p, n, Some(h), 123), Modify(p, n, Some(h), 1234)], false) ==
            [Create(p, n, Some(h), 123), Modify(p, n, Some(h), 1234)]
  {
    HashedPairAggregated([Create(p, n, Some(h), 123), Modify(p, n, Some(h), 1234)], p, n, h);
  }

  /** The same, for the two-event batch as a parameter. */
  lemma HashedPairAggregated(s: seq<Event>, p: Path, n: string, h: string)
    requires h != EmptyHash
    requires s == [Create(p, n, Some(h), 123), Modify(p, n, Some(h), 1234)]
    ensures Aggregated(s, false) == s
  {
    assert SortByTime(s) == s by {
      SortSortedIsIdentity(s);
    }
    HashedPairSurvivors(s, p, n, h);
    assert Map([Original(0, s[0]), Original(1, s[1])], EventOf) == s;
  }

  /** Neither event is ignored: both objects stay in the set. */
  lemma HashedPairSurvivors(s: seq<Event>, p: Path, n: string, h: string)
    requires h != EmptyHash
    requires s == [Create(p, n, Some(h), 123), Modify(p, n, Some(h), 1234)]
    ensures Survivors(s, false) == [Original(0, s[0]), Original(1, s[1])]
  {
    var c, m := s[0], s[1];
    assert Added(s, 2, false) == [Original(0, c), Original(1, m)];
    assert IgnoredAt(s, 0) == [] && IgnoredAt(s, 1) == [];
    assert Ignored(s, 1) == Ignored(s, 0) + IgnoredAt(s, 0) == [];
    assert Ignored(s, 2) == Ignored(s, 1) + IgnoredAt(s, 1) == [];
    FilterTwo(Original(0, c), Original(1, m), (o: Obj) => o !in Ignored(s, 2));
  }

}
