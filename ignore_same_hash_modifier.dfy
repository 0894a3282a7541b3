/**
 * `IgnoreSameHashModifier`: drops modifications that change nothing. Over
 * the batch in timestamp order, a modification is dropped when a creation
 * of its path carries its hash; otherwise when the working copy of the
 * batch still holds another modification of its path with its hash (all
 * such others are then removed from the working copy); otherwise when the
 * last version the history stores for its path has its hash. Every other
 * event is kept, and the kept events come back in batch order.
 */
module IgnoreSameHashModifier {
  import opened Wrappers
  import opened Events
  import opened Seqs
  import opened Sorting
  import opened Objects
  import opened VersionHistory

  /** A creation of `m`'s path carrying `m`'s hash. */
  predicate SameHashCreate(c: Event, m: Event) {
    c.Create? && c.path == m.path && c.hash.Some? && c.hash == m.hash
  }

  /** Some creation among the first `k` events of `s` carries `m`'s hash for its path. */
  predicate CreateHitBefore(s: seq<Event>, m: Event, k: nat)
    requires k <= |s|
  {
    exists c :: c in s[..k] && SameHashCreate(c, m)
  }

  /** Some creation of the batch carries `m`'s hash for its path. */
  predicate CreateHit(s: seq<Event>, m: Event) {
    exists c :: c in s && SameHashCreate(c, m)
  }

  /**
   * The search for a creation dereferences the hash of every creation of
   * `m`'s path until it finds one with `m`'s hash.
   */
  predicate CreateScanSafe(s: seq<Event>, m: Event) {
    forall k :: 0 <= k < |s| && s[k].Create? && s[k].path == m.path && s[k].hash.None? ==>
      CreateHitBefore(s, m, k)
  }

  /** `o` is another modification of `m`'s path with `m`'s hash; `i` is `m`'s position. */
  predicate Duplicate(o: Obj, i: nat, m: Event) {
    o.event.Modify? && o.pos != i && o.event.path == m.path && o.event.hash.Some? && o.event.hash == m.hash
  }

  /** The filter that removes the duplicates of the modification at `i`. */
  function NotDuplicate(i: nat, m: Event): Obj -> bool {
    (o: Obj) => !Duplicate(o, i, m)
  }

  /** The working copy still holds a duplicate of the modification at `i`. */
  predicate HasDuplicate(clone: seq<Obj>, i: nat, m: Event) {
    exists o :: o in clone && Duplicate(o, i, m)
  }

  /** The scan of the working copy dereferences the hash of every other modification of `m`'s path. */
  predicate CloneScanSafe(clone: seq<Obj>, i: nat, m: Event) {
    forall o :: o in clone && o.event.Modify? && o.pos != i && o.event.path == m.path ==> o.event.hash.Some?
  }

  /**
   * The history does not show `m`'s change as stored: the lookup fails,
   * there is no version, or the last version has another hash.
   */
  predicate HistoryKeeps(history: History, m: Event) {
    !(HasVersions(history, m.path) && LastHash(history, m.path) == m.hash)
  }

  /** The comparison with the last version dereferences that version's hash. */
  predicate HistorySafe(history: History, m: Event) {
    HasVersions(history, m.path) ==> LastHash(history, m.path).Some?
  }

  /** The working copy and the objects kept so far. */
  datatype Pass = Pass(clone: seq<Obj>, kept: seq<Obj>)

  /** One turn of the loop over the sorted batch, for the event at `i`. */
  function Step(s: seq<Event>, history: History, st: Pass, i: nat): Pass
    requires i < |s|
  {
    var m := s[i];
    if !m.Modify? then Pass(st.clone, st.kept + [Obj(i, m)])
    else if CreateHit(s, m) then st
    else
      var clone := Filter(st.clone, NotDuplicate(i, m));
      if HasDuplicate(st.clone, i, m) then Pass(clone, st.kept)
      else if HistoryKeeps(history, m) then Pass(clone, st.kept + [Obj(i, m)])
      else Pass(clone, st.kept)
  }

  /** The state after the first `n` turns; the working copy starts as the whole batch. */
  function Run(s: seq<Event>, history: History, n: nat): Pass
    requires n <= |s|
  {
    if n == 0 then Pass(Numbered(s, |s|), [])
    else Step(s, history, Run(s, history, n - 1), n - 1)
  }

  /** The turn for the event at `i` dereferences only hashes that are present. */
  predicate StepSafe(s: seq<Event>, history: History, st: Pass, i: nat)
    requires i < |s|
  {
    var m := s[i];
    m.Modify? ==>
      CreateScanSafe(s, m) &&
      (!CreateHit(s, m) ==>
         CloneScanSafe(st.clone, i, m) &&
         (!HasDuplicate(st.clone, i, m) ==> HistorySafe(history, m)))
  }

  /** The first `n` turns dereference no missing hash. */
  predicate SafeUpTo(s: seq<Event>, history: History, n: nat)
    requires n <= |s|
  {
    n == 0 || (SafeUpTo(s, history, n - 1) && StepSafe(s, history, Run(s, history, n - 1), n - 1))
  }

  /** The modified batch: the kept events of the sorted batch, in its order. */
  function Modified(events: seq<Event>, history: History): seq<Event> {
    var s := SortByTime(events);
    Map(Run(s, history, |s|).kept, EventOf)
  }

  /** The search for a creation with the modification's hash, stopping at the first. */
  method FindCreate(s: seq<Event>, m: Event) returns (hit: bool)
    requires CreateScanSafe(s, m)
    ensures hit == CreateHit(s, m)
  {
    hit := false;
    var k := 0;
    while k < |s| && !hit
      invariant k <= |s|
      invariant hit == CreateHitBefore(s, m, k)
    {
      var c := s[k];
      assert s[..k + 1] == s[..k] + [c];
      if c.Create? && c.path == m.path && m.hash == Some(c.hash.value) {
        assert SameHashCreate(c, m);
        hit := true;
      } else {
        assert !SameHashCreate(c, m);
      }
      k := k + 1;
    }
    assert k == |s| ==> s[..k] == s;
    if hit {
      var c :| c in s[..k] && SameHashCreate(c, m);
    }
  }

  /** The scan of the working copy, removing every duplicate of the modification at `i`. */
  method RemoveDuplicates(clone: seq<Obj>, i: nat, m: Event) returns (rest: seq<Obj>, found: bool)
    requires CloneScanSafe(clone, i, m)
    ensures rest == Filter(clone, NotDuplicate(i, m))
    ensures found == HasDuplicate(clone, i, m)
  {
    rest, found := [], false;
    for j := 0 to |clone|
      invariant rest == Filter(clone[..j], NotDuplicate(i, m))
      invariant found == HasDuplicate(clone[..j], i, m)
    {
      var candidate := clone[j];
      CloneStep(clone, j, i, m);
      if candidate.event.Modify? && candidate.pos != i && candidate.event.path == m.path &&
         m.hash == Some(candidate.event.hash.value) {
        found := true;
      } else {
        rest := rest + [candidate];
      }
    }
    assert clone[..|clone|] == clone;
  }

  /** Scanning one more object of the working copy. */
  lemma CloneStep(clone: seq<Obj>, j: nat, i: nat, m: Event)
    requires j < |clone|
    ensures Filter(clone[..j + 1], NotDuplicate(i, m)) ==
            Filter(clone[..j], NotDuplicate(i, m)) + (if Duplicate(clone[j], i, m) then [] else [clone[j]])
    ensures HasDuplicate(clone[..j + 1], i, m) == (HasDuplicate(clone[..j], i, m) || Duplicate(clone[j], i, m))
  {
    assert clone[..j + 1] == clone[..j] + [clone[j]];
    assert clone[..j + 1][..j] == clone[..j];
  }

  /** The decision for the event at `i`: the new working copy, and whether the event is kept. */
  method Decide(s: seq<Event>, history: History, ghost st: Pass, clone: seq<Obj>, i: nat)
      returns (clone': seq<Obj>, keep: bool)
    requires i < |s| && st.clone == clone
    requires StepSafe(s, history, st, i)
    ensures Step(s, history, st, i).clone == clone'
    ensures Step(s, history, st, i).kept == if keep then st.kept + [Obj(i, s[i])] else st.kept
  {
    var event := s[i];
    clone', keep := clone, true;
    if event.Modify? {
      var ignored := FindCreate(s, event);
      if !ignored {
        clone', ignored := RemoveDuplicates(clone, i, event);
      }
      keep := !ignored;
      if keep && event.path in history && |history[event.path]| > 0 {
        var last := history[event.path][|history[event.path]| - 1];
        if event.hash == Some(last.value) {
          keep := false;
        }
      }
    }
  }

  /** After `i` turns, the loop's clone and output are those of the first `i` turns. */
  ghost predicate Tracks(s: seq<Event>, history: History, i: nat, clone: seq<Obj>, kept: seq<Obj>, out: seq<Event>)
    requires i <= |s|
  {
    Run(s, history, i) == Pass(clone, kept) && out == Map(kept, EventOf)
  }

  /** One turn of `modify` for the event at `i`: decide, then add a kept event to the output. */
  method Turn(s: seq<Event>, history: History, ghost kept: seq<Obj>, clone: seq<Obj>, out: seq<Event>, i: nat)
      returns (ghost kept': seq<Obj>, clone': seq<Obj>, out': seq<Event>)
    requires i < |s| && SafeUpTo(s, history, |s|)
    requires Tracks(s, history, i, clone, kept, out)
    ensures Tracks(s, history, i + 1, clone', kept', out')
  {
    SafeBefore(s, history, |s|, i);
    var keep;
    clone', keep := Decide(s, history, Pass(clone, kept), clone, i);
    kept', out' := kept, out;
    if keep {
      MapAppend(kept, [Obj(i, s[i])], EventOf);
      kept', out' := kept + [Obj(i, s[i])], out + [s[i]];
    }
  }

  /** `modify`: sort, then decide every event in turn against the batch, the working copy and the history. */
  method ModifyEvents(events: seq<Event>, history: History) returns (out: seq<Event>)
    requires SafeUpTo(SortByTime(events), history, |SortByTime(events)|)
    ensures out == Modified(events, history)
  {
    out := DecideAll(SortByTime(events), history);
  }

  /** The loop of `modify` over the sorted batch `s`. */
  method DecideAll(s: seq<Event>, history: History) returns (out: seq<Event>)
    requires SafeUpTo(s, history, |s|)
    ensures out == Map(Run(s, history, |s|).kept, EventOf)
  {
    out := [];
    var clone := Numbered(s, |s|);
    ghost var kept: seq<Obj> := [];
    for i := 0 to |s|
      invariant Tracks(s, history, i, clone, kept, out)
    {
      kept, clone, out := Turn(s, history, kept, clone, out, i);
    }
  }

  /** A turn for an event that is not a modification keeps it and leaves the working copy alone. */
  lemma RunKeepsOther(s: seq<Event>, history: History, i: nat)
    requires i < |s| && !s[i].Modify?
    ensures Run(s, history, i + 1) == Pass(Run(s, history, i).clone, Run(s, history, i).kept + [Obj(i, s[i])])
  {
  }

  /** A turn for a modification with a creation hit changes nothing. */
  lemma RunCreateHit(s: seq<Event>, history: History, i: nat)
    requires i < |s| && s[i].Modify? && CreateHit(s, s[i])
    ensures Run(s, history, i + 1) == Run(s, history, i)
  {
  }

  /** A turn for a modification with a duplicate in the working copy drops it and its duplicates. */
  lemma RunDuplicate(s: seq<Event>, history: History, i: nat)
    requires i < |s| && s[i].Modify? && !CreateHit(s, s[i])
    requires HasDuplicate(Run(s, history, i).clone, i, s[i])
    ensures Run(s, history, i + 1) ==
            Pass(Filter(Run(s, history, i).clone, NotDuplicate(i, s[i])), Run(s, history, i).kept)
  {
  }

  /** A turn for a modification without a creation hit or a duplicate asks the history. */
  lemma RunUnique(s: seq<Event>, history: History, i: nat)
    requires i < |s| && s[i].Modify? && !CreateHit(s, s[i])
    requires Filter(Run(s, history, i).clone, NotDuplicate(i, s[i])) == Run(s, history, i).clone
    requires !HasDuplicate(Run(s, history, i).clone, i, s[i])
    ensures Run(s, history, i + 1) ==
            Pass(Run(s, history, i).clone,
                 if HistoryKeeps(history, s[i]) then Run(s, history, i).kept + [Obj(i, s[i])] else Run(s, history, i).kept)
  {
  }

  /** A safe run is safe at each of its turns. */
  lemma {:induction false} SafeBefore(s: seq<Event>, history: History, n: nat, i: nat)
    requires i < n <= |s|
    requires SafeUpTo(s, history, n)
    ensures StepSafe(s, history, Run(s, history, i), i)
    decreases n
  {
    if i < n - 1 {
      SafeBefore(s, history, n - 1, i);
    }
  }

  /** Whether the turn for the event at `i` keeps it. */
  predicate KeptAt(s: seq<Event>, history: History, i: nat)
    requires i < |s|
  {
    var m := s[i];
    !m.Modify? || (!CreateHit(s, m) && !HasDuplicate(Run(s, history, i).clone, i, m) && HistoryKeeps(history, m))
  }

  /** The objects the turns keep. */
  function Keeps(s: seq<Event>, history: History): Obj -> bool {
    (o: Obj) => o.pos < |s| && KeptAt(s, history, o.pos)
  }

  /** The kept objects are the batch's objects the turns keep, in batch order. */
  lemma {:induction false} KeptIsSelection(s: seq<Event>, history: History, n: nat)
    requires n <= |s|
    ensures Run(s, history, n).kept == Filter(Numbered(s, n), Keeps(s, history))
    decreases n
  {
    if n > 0 {
      KeptIsSelection(s, history, n - 1);
      RunKeptSnoc(s, history, n);
      NumberedFilterSnoc(s, n, Keeps(s, history));
      assert Keeps(s, history)(Obj(n - 1, s[n - 1])) == KeptAt(s, history, n - 1);
    }
  }

  /** A turn appends its own object to the kept ones exactly when it keeps it. */
  lemma RunKeptSnoc(s: seq<Event>, history: History, n: nat)
    requires 0 < n <= |s|
    ensures Run(s, history, n).kept ==
            Run(s, history, n - 1).kept + (if KeptAt(s, history, n - 1) then [Obj(n - 1, s[n - 1])] else [])
  {
  }

  /** Selecting from the first `n` objects, one object at a time. */
  lemma NumberedFilterSnoc(s: seq<Event>, n: nat, p: Obj -> bool)
    requires 0 < n <= |s|
    ensures Filter(Numbered(s, n), p) ==
            Filter(Numbered(s, n - 1), p) + (if p(Obj(n - 1, s[n - 1])) then [Obj(n - 1, s[n - 1])] else [])
  {
    assert Numbered(s, n)[..n - 1] == Numbered(s, n - 1);
  }

  /** An object of the batch is kept exactly when its own turn keeps it. */
  lemma KeptIff(s: seq<Event>, history: History, i: nat)
    requires i < |s|
    ensures Obj(i, s[i]) in Run(s, history, |s|).kept <==> KeptAt(s, history, i)
  {
    KeptIsSelection(s, history, |s|);
    InNumbered(s, i);
  }

  /**
   * The modifier only deletes: its result is a subsequence of the batch in
   * timestamp order, and so is itself in timestamp order.
   */
  lemma ModifiedIsSubsequence(events: seq<Event>, history: History)
    ensures IsSubsequence(Modified(events, history), SortByTime(events))
    ensures Sorted(Modified(events, history))
  {
    var s := SortByTime(events);
    KeptIsSelection(s, history, |s|);
    MapFilterSubsequence(Numbered(s, |s|), Keeps(s, history), EventOf);
    NumberedEvents(s);
    SubsequenceSorted(Modified(events, history), s);
  }

  /** Every creation, deletion and move is kept, each copy of it. */
  lemma NonModificationsKept(events: seq<Event>, history: History, e: Event)
    requires !e.Modify?
    ensures multiset(Modified(events, history))[e] == multiset(events)[e]
  {
    var s := SortByTime(events);
    KeptIsSelection(s, history, |s|);
    SelectedCount(s, |s|, Keeps(s, history), e);
    assert s[..|s|] == s;
  }

  /** A modification whose path and hash a creation of the batch carries is dropped, every copy of it. */
  lemma SameHashCreateDrops(events: seq<Event>, history: History, m: Event)
    requires m.Modify? && CreateHit(events, m)
    ensures m !in Modified(events, history)
  {
    var s := SortByTime(events);
    var c :| c in events && SameHashCreate(c, m);
    assert c in multiset(s);
    assert CreateHit(s, m);
    if m in Modified(events, history) {
      var kept := Run(s, history, |s|).kept;
      var k :| 0 <= k < |kept| && Map(kept, EventOf)[k] == m;
      KeptModification(s, history, kept[k]);
    }
  }

  /** A kept modification has no creation hit. */
  lemma KeptModification(s: seq<Event>, history: History, o: Obj)
    requires o in Run(s, history, |s|).kept && o.event.Modify?
    ensures !CreateHit(s, o.event)
  {
    KeptIsSelection(s, history, |s|);
    NumberedIff(s, o);
  }

  /**
   * A modification with a duplicate still in the working copy is dropped,
   * and every such duplicate leaves the working copy.
   */
  lemma DuplicateDrops(s: seq<Event>, history: History, i: nat)
    requires i < |s| && s[i].Modify? && !CreateHit(s, s[i])
    requires HasDuplicate(Run(s, history, i).clone, i, s[i])
    ensures Obj(i, s[i]) !in Run(s, history, |s|).kept
    ensures forall o :: o in Run(s, history, i + 1).clone <==>
                        o in Run(s, history, i).clone && !Duplicate(o, i, s[i])
  {
    KeptIff(s, history, i);
  }

  /**
   * A modification without a creation hit and without a duplicate in the
   * working copy is dropped exactly when the history's last version has
   * its hash; a failed lookup or an empty history keeps it.
   */
  lemma HistoryDecides(s: seq<Event>, history: History, i: nat)
    requires i < |s| && s[i].Modify? && !CreateHit(s, s[i])
    requires !HasDuplicate(Run(s, history, i).clone, i, s[i])
    ensures Obj(i, s[i]) in Run(s, history, |s|).kept <==>
            !(HasVersions(history, s[i].path) && LastHash(history, s[i].path) == s[i].hash)
    ensures !HasVersions(history, s[i].path) ==> Obj(i, s[i]) in Run(s, history, |s|).kept
  {
    KeptIff(s, history, i);
  }

  /**
   * As written, two modifications of one path to the same new hash, with no
   * creation in the batch, are both dropped whatever the history says: the
   * first removes the second from the working copy and drops itself, the
   * second then finds the first there.
   */
  lemma SameChangeTwiceLost(m1: Event, m2: Event, history: History)
    requires m1.Modify? && m2.Modify? && m1.path == m2.path
    requires m1.hash.Some? && m1.hash == m2.hash
    requires m1.timestamp <= m2.timestamp
    ensures Modified([m1, m2], history) == []
  {
    var s := [m1, m2];
    assert Sorted(s);
    SortSortedIsIdentity(s);
    TwoEqualTurns(s, history);
  }

  /** The two turns over two equal modifications: each finds the other in the working copy. */
  lemma TwoEqualTurns(s: seq<Event>, history: History)
    requires |s| == 2 && s[0].Modify? && s[1].Modify? && s[0].path == s[1].path
    requires s[0].hash.Some? && s[0].hash == s[1].hash
    ensures Run(s, history, |s|).kept == []
  {
    var o0 := Obj(0, s[0]);
    TwoEqualFirstTurn(s, history);
    assert !CreateHit(s, s[1]);
    assert o0 in [o0] && Duplicate(o0, 1, s[1]);
    RunDuplicate(s, history, 1);
    assert [o0][..0] == [];
  }

  /** The first turn over two equal modifications removes the second from the working copy. */
  lemma TwoEqualFirstTurn(s: seq<Event>, history: History)
    requires |s| == 2 && s[0].Modify? && s[1].Modify? && s[0].path == s[1].path
    requires s[0].hash.Some? && s[0].hash == s[1].hash
    ensures Run(s, history, 1) == Pass([Obj(0, s[0])], [])
  {
    var o0, o1 := Obj(0, s[0]), Obj(1, s[1]);
    assert Numbered(s, |s|) == [o0, o1];
    assert !CreateHit(s, s[0]);
    assert o1 in [o0, o1] && Duplicate(o1, 0, s[0]);
    RunDuplicate(s, history, 0);
    FilterTwo(o0, o1, NotDuplicate(0, s[0]));
  }

  /**
   * As written, the modifier is not idempotent: four equal modifications
   * the history does not know leave the last two, and those two are then
   * both dropped.
   */
  lemma NotIdempotent(m: Event, history: History)
    requires m.Modify? && m.hash.Some? && HistoryKeeps(history, m)
    ensures Modified([m, m, m, m], history) == [m, m]
    ensures Modified(Modified([m, m, m, m], history), history) == []
  {
    FourEqualModified([m, m, m, m], m, history);
    SameChangeTwiceLost(m, m, history);
  }

  /** Four equal modifications the history does not know leave the last two. */
  lemma FourEqualModified(s: seq<Event>, m: Event, history: History)
    requires s == [m, m, m, m]
    requires m.Modify? && m.hash.Some? && HistoryKeeps(history, m)
    ensures Modified(s, history) == [m, m]
  {
    FourEqualSorted(s, m);
    FourEqualTurns(s, m, history);
    assert Map(Run(s, history, |s|).kept, EventOf) == [m, m] by {
      MapTwo(Obj(2, m), Obj(3, m));
    }
  }

  /** Four copies of one event are already in timestamp order. */
  lemma FourEqualSorted(s: seq<Event>, m: Event)
    requires s == [m, m, m, m]
    ensures SortByTime(s) == s
  {
    assert Sorted(s);
    SortSortedIsIdentity(s);
  }

  /** The last two turns over four equal modifications find the working copy empty and keep both. */
  lemma FourEqualTurns(s: seq<Event>, m: Event, history: History)
    requires s == [m, m, m, m] && m.Modify? && m.hash.Some? && HistoryKeeps(history, m)
    ensures Run(s, history, |s|).kept == [Obj(2, m), Obj(3, m)]
  {
    FourEqualFirstTurns(s, m, history);
    assert !CreateHit(s, m);
    RunUnique(s, history, 2);
    RunUnique(s, history, 3);
  }

  /**
   * The first two turns over four equal modifications: the first removes
   * the other three from the working copy, the second removes the first.
   */
  lemma FourEqualFirstTurns(s: seq<Event>, m: Event, history: History)
    requires s == [m, m, m, m] && m.Modify? && m.hash.Some?
    ensures Run(s, history, 2) == Pass([], [])
  {
    var all := Numbered(s, |s|);
    assert all == [Obj(0, m), Obj(1, m), Obj(2, m), Obj(3, m)];
    assert !CreateHit(s, m);
    assert all[1] in all && Duplicate(all[1], 0, m);
    RunDuplicate(s, history, 0);
    FilterOnlyFirst(all, NotDuplicate(0, m));
    assert Run(s, history, 1) == Pass([Obj(0, m)], []);
    assert Obj(0, m) in [Obj(0, m)] && Duplicate(Obj(0, m), 1, m);
    RunDuplicate(s, history, 1);
    assert [Obj(0, m)][..0] == [];
  }

  /** A modification of `m`'s path to `m`'s hash. */
  predicate SameChange(x: Event, m: Event) {
    x.Modify? && x.path == m.path && x.hash.Some? && x.hash == m.hash
  }

  /**
   * The rule the working copy was meant to implement: of several
   * modifications of a path to the same hash only the last one counts.
   * A modification is kept when no creation of the batch carries its path
   * and hash, no later modification makes the same change, and the history
   * does not show the change as stored.
   */
  predicate KeepsCorrected(e: Event, later: seq<Event>, batch: seq<Event>, history: History) {
    !e.Modify? ||
    (!CreateHit(batch, e) && (forall x :: x in later ==> !SameChange(x, e)) && HistoryKeeps(history, e))
  }

  /** The events of `s` the corrected rule keeps, in order; creations are looked up in `batch`. */
  function Dedup(s: seq<Event>, batch: seq<Event>, history: History): (r: seq<Event>)
    ensures forall x :: x in r ==> x in s
    ensures forall x :: x in s && !x.Modify? ==> x in r
    decreases |s|
  {
    if s == [] then []
    else (if KeepsCorrected(s[0], s[1..], batch, history) then [s[0]] else []) + Dedup(s[1..], batch, history)
  }

  /** The corrected modifier on a batch. */
  function ModifiedCorrected(events: seq<Event>, history: History): seq<Event> {
    var s := SortByTime(events);
    Dedup(s, s, history)
  }

  /** The corrected rule keeps a sorted list sorted. */
  lemma {:induction false} DedupSorted(s: seq<Event>, batch: seq<Event>, history: History)
    requires Sorted(s)
    ensures Sorted(Dedup(s, batch, history))
    decreases |s|
  {
    if s != [] {
      var rest := Dedup(s[1..], batch, history);
      DedupSorted(s[1..], batch, history);
      var r := Dedup(s, batch, history);
      if KeepsCorrected(s[0], s[1..], batch, history) {
        forall i, j | 0 <= i < j < |r| ensures r[i].timestamp <= r[j].timestamp {
          if i == 0 {
            assert r[j] in rest;
            var k :| 0 <= k < |s[1..]| && s[1..][k] == r[j];
            assert s[k + 1] == r[j];
          } else {
            assert r[i] == rest[i - 1] && r[j] == rest[j - 1];
          }
        }
      }
    }
  }

  /** Applying the corrected rule to its own result, with the same creations, changes nothing. */
  lemma {:induction false} DedupIdempotent(s: seq<Event>, batch: seq<Event>, batch': seq<Event>, history: History)
    requires forall m :: CreateHit(batch, m) <==> CreateHit(batch', m)
    ensures Dedup(Dedup(s, batch, history), batch', history) == Dedup(s, batch, history)
    decreases |s|
  {
    if s != [] {
      var rest := Dedup(s[1..], batch, history);
      DedupIdempotent(s[1..], batch, batch', history);
      if KeepsCorrected(s[0], s[1..], batch, history) {
        var r := [s[0]] + rest;
        assert r[0] == s[0] && r[1..] == rest;
        forall x | x in rest && s[0].Modify? ensures !SameChange(x, s[0]) {
          assert x in s[1..];
        }
        assert KeepsCorrected(s[0], rest, batch', history);
        assert Dedup(s, batch, history) == r;
        assert Dedup(r, batch', history) == [s[0]] + Dedup(rest, batch', history);
      } else {
        assert Dedup(s, batch, history) == [] + rest;
        assert [] + rest == rest;
      }
    }
  }

  /** The corrected modifier is idempotent. */
  lemma CorrectedIdempotent(events: seq<Event>, history: History)
    ensures ModifiedCorrected(ModifiedCorrected(events, history), history) == ModifiedCorrected(events, history)
  {
    var s := SortByTime(events);
    var t := Dedup(s, s, history);
    DedupSorted(s, s, history);
    SortSortedIsIdentity(t);
    forall m ensures CreateHit(s, m) <==> CreateHit(t, m) {
      if CreateHit(s, m) {
        var c :| c in s && SameHashCreate(c, m);
        assert c in t;
      }
    }
    DedupIdempotent(s, s, t, history);
  }

  /** With the corrected rule, of two equal changes the later one is kept. */
  lemma SameChangeTwiceKeptOnce(m1: Event, m2: Event, history: History)
    requires m1.Modify? && m2.Modify? && m1.path == m2.path
    requires m1.hash.Some? && m1.hash == m2.hash
    requires m1.timestamp <= m2.timestamp
    requires HistoryKeeps(history, m2)
    ensures ModifiedCorrected([m1, m2], history) == [m2]
  {
    var s := [m1, m2];
    assert SortByTime(s) == s by {
      SortSortedIsIdentity(s);
    }
    assert !CreateHit(s, m2);
    assert s[1..] == [m2] && SameChange(m2, m1);
    assert Dedup([m2], s, history) == [m2];
  }

  /**
   * The five-event batch of the module's test: a creation of `p1` with
   * hash `a`, then modifications of `p1` to `a` and to `b`, of `p2` to `a`
   * and of `p3` to `a`, against a history whose last versions of `p1` and
   * `p2` have hash `a` and which does not know `p3`. The creation, the
   * change to `b` and the change of the unknown path survive, in order.
   */
  lemma FiveEventBatch(s: seq<Event>, p1: Path, p2: Path, p3: Path, n1: string, n2: string, n3: string,
                       a: string, b: string, t0: int, t1: int, t2: int, t3: int, t4: int, history: History)
    requires p1 != p2 && p1 != p3 && p2 != p3 && a != b
    requires t0 <= t1 <= t2 <= t3 <= t4
    requires s == [Create(p1, n1, Some(a), t0), Modify(p1, n1, Some(a), t1), Modify(p1, n1, Some(b), t2),
                   Modify(p2, n2, Some(a), t3), Modify(p3, n3, Some(a), t4)]
    requires p1 in history && history[p1] == [Some(a)]
    requires p2 in history && history[p2] == [Some(a)]
    requires p3 !in history
    ensures Modified(s, history) == [s[0], s[2], s[4]]
  {
    assert SortByTime(s) == s by {
      assert Sorted(s);
      SortSortedIsIdentity(s);
    }
    FiveEventRun(s, p1, p2, p3, n1, n2, n3, a, b, t0, t1, t2, t3, t4, history);
    EventsOfThree(Obj(0, s[0]), Obj(2, s[2]), Obj(4, s[4]));
  }

  lemma EventsOfThree(o0: Obj, o1: Obj, o2: Obj)
    ensures Map([o0, o1, o2], EventOf) == [o0.event, o1.event, o2.event]
  {
    assert [o0, o1, o2][..2] == [o0, o1];
  }

  /** The five turns over the test batch: the working copy never changes. */
  lemma FiveEventRun(s: seq<Event>, p1: Path, p2: Path, p3: Path, n1: string, n2: string, n3: string,
                     a: string, b: string, t0: int, t1: int, t2: int, t3: int, t4: int, history: History)
    requires p1 != p2 && p1 != p3 && p2 != p3 && a != b
    requires s == [Create(p1, n1, Some(a), t0), Modify(p1, n1, Some(a), t1), Modify(p1, n1, Some(b), t2),
                   Modify(p2, n2, Some(a), t3), Modify(p3, n3, Some(a), t4)]
    requires p1 in history && history[p1] == [Some(a)]
    requires p2 in history && history[p2] == [Some(a)]
    requires p3 !in history
    ensures Run(s, history, |s|).kept == [Obj(0, s[0]), Obj(2, s[2]), Obj(4, s[4])]
  {
    var all := Numbered(s, |s|);
    assert all == [Obj(0, s[0]), Obj(1, s[1]), Obj(2, s[2]), Obj(3, s[3]), Obj(4, s[4])];
    FiveEventFirstTurns(s, all, history);
    UniqueChange(s, all, 2);
    RunUnique(s, history, 2);
    assert HistoryKeeps(history, s[2]) by {
      assert LastHash(history, p1) == Some(a);
    }
    UniqueChange(s, all, 3);
    RunUnique(s, history, 3);
    assert !HistoryKeeps(history, s[3]) by {
      assert LastHash(history, p2) == Some(a);
    }
    UniqueChange(s, all, 4);
    RunUnique(s, history, 4);
    assert HistoryKeeps(history, s[4]);
  }

  /** The first two turns over the test batch: the creation is kept, the modification back to its hash is not. */
  lemma FiveEventFirstTurns(s: seq<Event>, all: seq<Obj>, history: History)
    requires |s| == 5 && s[0].Create? && s[0].hash.Some?
    requires s[1].Modify? && s[1].path == s[0].path && s[1].hash == s[0].hash
    requires all == Numbered(s, |s|)
    ensures Run(s, history, 2) == Pass(all, [Obj(0, s[0])])
  {
    RunKeepsOther(s, history, 0);
    assert CreateHit(s, s[1]) by {
      assert s[0] in s && SameHashCreate(s[0], s[1]);
    }
    RunCreateHit(s, history, 1);
  }

  /** A modification of the test batch without a creation hit and without a duplicate. */
  lemma UniqueChange(s: seq<Event>, all: seq<Obj>, i: nat)
    requires 2 <= i < |s| == 5 && s[0].Create? && s[0].hash.Some?
    requires s[1].Modify? && s[2].Modify? && s[3].Modify? && s[4].Modify?
    requires s[1].hash.Some? && s[2].hash.Some? && s[3].hash.Some? && s[4].hash.Some?
    requires s[1].path == s[0].path && s[1].hash == s[0].hash
    requires s[2].path == s[0].path && s[2].hash != s[0].hash
    requires s[3].path != s[0].path && s[4].path != s[0].path && s[3].path != s[4].path
    requires all == [Obj(0, s[0]), Obj(1, s[1]), Obj(2, s[2]), Obj(3, s[3]), Obj(4, s[4])]
    ensures !CreateHit(s, s[i]) && !HasDuplicate(all, i, s[i])
    ensures Filter(all, NotDuplicate(i, s[i])) == all
  {
    forall o | o in all ensures !Duplicate(o, i, s[i]) {
    }
    FilterAll(all, NotDuplicate(i, s[i]));
  }
}
