/**
 * `FixFileSystemCreationModifier`: some file systems report a new file as
 * a creation with its real hash, then a modification with the hash of
 * empty content, then a modification with the real hash again. For every
 * creation with a real hash, if the same path has both kinds of
 * modification, the empty-hash one is dropped (the last of them, if there
 * are several). Nothing else changes; the survivors come back as a set,
 * sorted by timestamp.
 */
module FixCreationModifier {
  import opened Wrappers
  import opened Events
  import opened Seqs
  import opened Sorting
  import opened Objects

  /** A creation whose hash is not the hash of empty content. */
  predicate RealCreate(e: Event) {
    e.Create? && e.hash != Some(EmptyHash)
  }

  /** A modification of `p` carrying the hash of empty content. */
  predicate EmptyModify(m: Event, p: Path) {
    m.Modify? && m.path == p && m.hash == Some(EmptyHash)
  }

  /** A modification of `c`'s path that is not an empty one and carries `c`'s hash. */
  predicate CorrectModify(m: Event, c: Event) {
    m.Modify? && m.path == c.path && m.hash != Some(EmptyHash) && m.hash == c.hash
  }

  /** The last position before `n` holding an empty modification of `p`. */
  function LastEmpty(s: seq<Event>, p: Path, n: nat): (r: Option<nat>)
    requires n <= |s|
    ensures r.Some? ==> r.value < n && EmptyModify(s[r.value], p)
    ensures r.Some? ==> forall k :: r.value < k < n ==> !EmptyModify(s[k], p)
    ensures r.None? ==> forall k :: 0 <= k < n ==> !EmptyModify(s[k], p)
  {
    if n == 0 then None
    else if EmptyModify(s[n - 1], p) then Some(n - 1)
    else LastEmpty(s, p, n - 1)
  }

  /** The last position before `n` holding a correct modification for `c`. */
  function LastCorrect(s: seq<Event>, c: Event, n: nat): (r: Option<nat>)
    requires n <= |s|
    ensures r.Some? ==> r.value < n && CorrectModify(s[r.value], c)
    ensures r.Some? ==> forall k :: r.value < k < n ==> !CorrectModify(s[k], c)
    ensures r.None? ==> forall k :: 0 <= k < n ==> !CorrectModify(s[k], c)
  {
    if n == 0 then None
    else if CorrectModify(s[n - 1], c) then Some(n - 1)
    else LastCorrect(s, c, n - 1)
  }

  /** The position the creation at `i` puts on the ignore list, if any. */
  function DropBy(s: seq<Event>, i: nat): Option<nat>
    requires i < |s|
  {
    if RealCreate(s[i]) && LastCorrect(s, s[i], |s|).Some? then LastEmpty(s, s[i].path, |s|)
    else None
  }

  /** Some creation puts position `j` on the ignore list. */
  predicate Dropped(s: seq<Event>, j: nat) {
    exists i :: 0 <= i < |s| && DropBy(s, i) == Some(j)
  }

  /**
   * The hash of every creation is dereferenced, and for a creation with a
   * real hash, the hash of every modification of its path.
   */
  predicate NoNullDereference(s: seq<Event>) {
    (forall i :: 0 <= i < |s| && s[i].Create? ==> s[i].hash.Some?) &&
    (forall i, k :: 0 <= i < |s| && 0 <= k < |s| && RealCreate(s[i]) && s[k].Modify? && s[k].path == s[i].path ==>
       s[k].hash.Some?)
  }

  /** The objects left after `removeAll`, in batch order. */
  function Survivors(s: seq<Event>): seq<Obj> {
    Filter(Numbered(s, |s|), (o: Obj) => !Dropped(s, o.pos))
  }

  /** The modified batch, in timestamp order. */
  function Modified(events: seq<Event>): seq<Event> {
    SortByTime(Map(Survivors(SortByTime(events)), EventOf))
  }

  /** The scan over the whole batch for the last empty and the last correct modification. */
  method ScanModifications(s: seq<Event>, c: Event) returns (empty: Option<nat>, correct: Option<nat>)
    requires c.hash.Some?
    requires forall k :: 0 <= k < |s| && s[k].Modify? && s[k].path == c.path ==> s[k].hash.Some?
    ensures empty == LastEmpty(s, c.path, |s|)
    ensures correct == LastCorrect(s, c, |s|)
  {
    empty, correct := None, None;
    for k := 0 to |s|
      invariant empty == LastEmpty(s, c.path, k)
      invariant correct == LastCorrect(s, c, k)
    {
      var m := s[k];
      if m.Modify? && m.path == c.path {
        if m.hash.value == EmptyHash {
          empty := Some(k);
        } else if m.hash.value == c.hash.value {
          correct := Some(k);
        }
      }
    }
  }

  /** What the ignore list gains from visiting `o`. */
  function IgnoredFor(s: seq<Event>, o: Obj): seq<Obj>
    requires o.pos < |s|
  {
    match DropBy(s, o.pos)
    case Some(j) => [Obj(j, s[j])]
    case None => []
  }

  /**
   * The body of the loop over the objects: a creation with a real hash
   * scans the batch for its modifications; the empty one goes on the
   * ignore list when a correct one exists. Every object visited and every
   * modification found is in the set.
   */
  method Visit(s: seq<Event>, o: Obj, modified: set<Obj>, ignore: seq<Obj>)
      returns (modified': set<Obj>, ignore': seq<Obj>)
    requires NoNullDereference(s)
    requires IsObjOf(s, o)
    ensures ignore' == ignore + IgnoredFor(s, o)
    ensures modified + {o} <= modified'
    ensures forall q :: q in modified' ==> q in modified || IsObjOf(s, q)
  {
    var event := o.event;
    modified', ignore' := modified + {o}, ignore;
    if event.Create? && event.hash.value != EmptyHash {
      var empty, correct := ScanModifications(s, event);
      if empty.Some? && correct.None? {
        modified' := modified' + {Obj(empty.value, s[empty.value])};
      } else if empty.Some? && correct.Some? {
        modified' := modified' + {Obj(correct.value, s[correct.value])};
        ignore' := ignore' + [Obj(empty.value, s[empty.value])];
      }
    }
  }

  /**
   * The loop over all objects (over the per-path sets of the map, whose
   * order does not matter): afterwards the set holds every object and the
   * ignore list exactly the dropped ones.
   */
  method VisitAll(s: seq<Event>) returns (modified: set<Obj>, ignore: seq<Obj>)
    requires NoNullDereference(s)
    ensures forall q :: q in modified <==> IsObjOf(s, q)
    ensures forall q :: q in ignore <==> IgnoredBySome(s, modified, q)
  {
    var all := set o | o in Numbered(s, |s|);
    forall q ensures q in all <==> IsObjOf(s, q) {
      NumberedIff(s, q);
    }
    modified, ignore := {}, [];
    var rest := all;
    ghost var done: set<Obj> := {};
    while rest != {}
      invariant rest + done == all && rest !! done
      invariant done <= modified <= all
      invariant forall q :: q in ignore <==> IgnoredBySome(s, done, q)
      decreases rest
    {
      var o :| o in rest;
      ghost var before := ignore;
      modified, ignore := Visit(s, o, modified, ignore);
      IgnoredStep(s, done, o, before, ignore);
      rest := rest - {o};
      done := done + {o};
    }
  }

  /** `modify`: sort, visit every object, remove the ignore list from the set, sort. */
  method ModifyEvents(events: seq<Event>) returns (out: seq<Event>)
    requires NoNullDereference(SortByTime(events))
    ensures Sorted(out)
    ensures multiset(out) == multiset(Modified(events))
  {
    var s := SortByTime(events);
    var modified, ignore := VisitAll(s);
    ghost var all := modified;
    modified := modified - set o | o in ignore;
    var unique := ListOfSet(modified);
    forall q ensures q in unique <==> q in Survivors(s) {
      assert q in unique <==> q in (set x | x in unique);
      assert q in ignore <==> IgnoredBySome(s, all, q);
      Remaining(s, all, ignore, q);
    }
    FilterDistinct(Numbered(s, |s|), (o: Obj) => !Dropped(s, o.pos));
    SameSetSameMultiset(unique, Survivors(s));
    MapPermutation(unique, Survivors(s), EventOf);
    out := SortByTime(Map(unique, EventOf));
  }

  /** Some visited object puts `q` on the ignore list. */
  predicate IgnoredBySome(s: seq<Event>, done: set<Obj>, q: Obj) {
    exists d :: d in done && d.pos < |s| && q in IgnoredFor(s, d)
  }

  lemma IgnoredStep(s: seq<Event>, done: set<Obj>, o: Obj, before: seq<Obj>, after: seq<Obj>)
    requires o.pos < |s|
    requires forall q :: q in before <==> IgnoredBySome(s, done, q)
    requires after == before + IgnoredFor(s, o)
    ensures forall q :: q in after <==> IgnoredBySome(s, done + {o}, q)
  {
    forall q ensures q in after <==> IgnoredBySome(s, done + {o}, q) {
      if q in IgnoredFor(s, o) {
        assert o in done + {o};
      }
      if IgnoredBySome(s, done + {o}, q) {
        var d :| d in done + {o} && d.pos < |s| && q in IgnoredFor(s, d);
        if d != o {
          assert IgnoredBySome(s, done, q);
        }
      }
    }
  }

  /** Removing the ignore list from all objects leaves the survivors. */
  lemma Remaining(s: seq<Event>, all: set<Obj>, ignore: seq<Obj>, q: Obj)
    requires forall o :: o in all <==> IsObjOf(s, o)
    requires q in ignore <==> IgnoredBySome(s, all, q)
    ensures q in all - (set o | o in ignore) <==> q in Survivors(s)
  {
    SurvivorIff(s, q);
    if IsObjOf(s, q) {
      if Dropped(s, q.pos) {
        DroppedIgnored(s, all, q);
      } else if q in ignore {
        IgnoredDropped(s, all, q);
      }
    }
  }

  /** Once every object is visited, each dropped object is on the ignore list ... */
  lemma DroppedIgnored(s: seq<Event>, all: set<Obj>, q: Obj)
    requires forall o :: IsObjOf(s, o) ==> o in all
    requires IsObjOf(s, q) && Dropped(s, q.pos)
    ensures IgnoredBySome(s, all, q)
  {
    var i :| 0 <= i < |s| && DropBy(s, i) == Some(q.pos);
    var d := Obj(i, s[i]);
    assert IsObjOf(s, d);
    assert IgnoredFor(s, d) == [q];
  }

  /** ... and only dropped objects are. */
  lemma IgnoredDropped(s: seq<Event>, all: set<Obj>, q: Obj)
    requires IgnoredBySome(s, all, q)
    ensures Dropped(s, q.pos)
  {
    var d :| d in all && d.pos < |s| && q in IgnoredFor(s, d);
    IgnoredForPos(s, d, q);
  }

  lemma IgnoredForPos(s: seq<Event>, d: Obj, q: Obj)
    requires d.pos < |s| && q in IgnoredFor(s, d)
    ensures DropBy(s, d.pos) == Some(q.pos) && IsObjOf(s, q)
  {
  }

  lemma SurvivorIff(s: seq<Event>, o: Obj)
    ensures o in Survivors(s) <==> IsObjOf(s, o) && !Dropped(s, o.pos)
  {
    NumberedIff(s, o);
  }

  /** Some creation of `p` with a real hash has a correct modification in the batch. */
  predicate Repaired(s: seq<Event>, p: Path) {
    exists i, k :: 0 <= i < |s| && 0 <= k < |s| && RealCreate(s[i]) && s[i].path == p && CorrectModify(s[k], s[i])
  }

  /** `s[j]` is the last empty modification of its path. */
  predicate LastEmptyOfPath(s: seq<Event>, j: nat)
    requires j < |s|
  {
    EmptyModify(s[j], s[j].path) && forall k :: j < k < |s| ==> !EmptyModify(s[k], s[j].path)
  }

  /**
   * Exactly the last empty modification of a path is dropped, and only
   * when some creation of that path with a real hash also has a correct
   * modification.
   */
  lemma DroppedIff(s: seq<Event>, j: nat)
    requires j < |s|
    ensures Dropped(s, j) <==> LastEmptyOfPath(s, j) && Repaired(s, s[j].path)
  {
    if Dropped(s, j) {
      var i :| 0 <= i < |s| && DropBy(s, i) == Some(j);
      var k := LastCorrect(s, s[i], |s|).value;
      assert RealCreate(s[i]) && CorrectModify(s[k], s[i]);
    }
    if LastEmptyOfPath(s, j) && Repaired(s, s[j].path) {
      var i, k :| 0 <= i < |s| && 0 <= k < |s| && RealCreate(s[i]) && s[i].path == s[j].path && CorrectModify(s[k], s[i]);
      assert LastCorrect(s, s[i], |s|).Some?;
      var r := LastEmpty(s, s[i].path, |s|);
      assert r.Some? && r.value == j;
      assert DropBy(s, i) == Some(j);
    }
  }

  /** Everything but an empty modification is kept, creations with a real hash in particular. */
  lemma KeptUnlessEmptyModification(s: seq<Event>, j: nat)
    requires j < |s|
    requires !(s[j].Modify? && s[j].hash == Some(EmptyHash))
    ensures Obj(j, s[j]) in Survivors(s)
  {
    DroppedIff(s, j);
    SurvivorIff(s, Obj(j, s[j]));
  }

  /**
   * A creation with a real hash, a correct modification of its path and a
   * last empty modification of its path: the empty one is dropped and the
   * correct one kept.
   */
  lemma EmptyModificationDropped(s: seq<Event>, i: nat, k: nat, j: nat)
    requires i < |s| && k < |s| && j < |s|
    requires RealCreate(s[i]) && CorrectModify(s[k], s[i])
    requires EmptyModify(s[j], s[i].path)
    requires forall l :: j < l < |s| ==> !EmptyModify(s[l], s[i].path)
    ensures Obj(j, s[j]) !in Survivors(s)
    ensures Obj(k, s[k]) in Survivors(s)
  {
    DroppedIff(s, j);
    SurvivorIff(s, Obj(j, s[j]));
    KeptUnlessEmptyModification(s, k);
  }

  /** An empty modification followed by another one of the same path is kept. */
  lemma EarlierEmptyModificationKept(s: seq<Event>, j: nat, l: nat)
    requires j < l < |s|
    requires EmptyModify(s[j], s[j].path) && EmptyModify(s[l], s[j].path)
    ensures Obj(j, s[j]) in Survivors(s)
  {
    DroppedIff(s, j);
    SurvivorIff(s, Obj(j, s[j]));
  }

  /**
   * On a path where no creation with a real hash has a correct
   * modification, every event is kept: in particular a lone empty
   * modification after such a creation, and every event of a path without
   * one.
   */
  lemma UnrepairedPathKept(s: seq<Event>, j: nat)
    requires j < |s|
    requires !Repaired(s, s[j].path)
    ensures Obj(j, s[j]) in Survivors(s)
  {
    DroppedIff(s, j);
    SurvivorIff(s, Obj(j, s[j]));
  }

  /** The survivors are distinct objects, so the modified batch holds no object twice. */
  lemma SurvivorsDistinct(s: seq<Event>)
    ensures Distinct(Survivors(s))
  {
    FilterDistinct(Numbered(s, |s|), (o: Obj) => !Dropped(s, o.pos));
  }

  /** The modifier only removes events: no event is made up, none gains copies. */
  lemma OnlyRemoves(events: seq<Event>)
    ensures multiset(Modified(events)) <= multiset(events)
    ensures |Modified(events)| <= |events|
  {
    var s := SortByTime(events);
    SelectedEvents(Numbered(s, |s|), (o: Obj) => !Dropped(s, o.pos));
    NumberedEvents(s);
    assert |Modified(events)| == |multiset(Modified(events))| <= |multiset(events)| == |events|;
  }

  /**
   * A creation with hash `h`, then a modification to the empty hash, then
   * one back to `h` become the creation and the last modification.
   */
  lemma CreationFixed(p: Path, n: string, h: string, t0: int, t1: int, t2: int)
    requires h != EmptyHash
    requires t0 <= t1 <= t2
    ensures Modified([Create(p, n, Some(h), t0), Modify(p, n, Some(EmptyHash), t1), Modify(p, n, Some(h), t2)]) ==
            [Create(p, n, Some(h), t0), Modify(p, n, Some(h), t2)]
  {
    var s := [Create(p, n, Some(h), t0), Modify(p, n, Some(EmptyHash), t1), Modify(p, n, Some(h), t2)];
    FixtureSurvivors(s);
    ModifiedOfThree(s);
  }

  /** A sorted batch of three whose middle object alone is dropped comes back as its outer events. */
  lemma ModifiedOfThree(s: seq<Event>)
    requires |s| == 3 && s[0].timestamp <= s[1].timestamp <= s[2].timestamp
    requires Survivors(s) == [Obj(0, s[0]), Obj(2, s[2])]
    ensures Modified(s) == [s[0], s[2]]
  {
    SortedTriple(s);
    MapTwo(Obj(0, s[0]), Obj(2, s[2]));
    SortedPair(s[0], s[2]);
  }

  lemma FixtureSurvivors(s: seq<Event>)
    requires |s| == 3 && RealCreate(s[0]) && CorrectModify(s[2], s[0]) && EmptyModify(s[1], s[0].path)
    ensures Survivors(s) == [Obj(0, s[0]), Obj(2, s[2])]
  {
    var all := Numbered(s, 3);
    assert all == [Obj(0, s[0]), Obj(1, s[1]), Obj(2, s[2])];
    EmptyModificationDropped(s, 0, 2, 1);
    KeptUnlessEmptyModification(s, 0);
    var keep := (o: Obj) => !Dropped(s, o.pos);
    SurvivorIff(s, Obj(0, s[0]));
    SurvivorIff(s, Obj(1, s[1]));
    SurvivorIff(s, Obj(2, s[2]));
    FilterTwo(Obj(0, s[0]), Obj(1, s[1]), keep);
    assert all[..2] == [Obj(0, s[0]), Obj(1, s[1])];
  }
}
