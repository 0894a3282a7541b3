/**
 * Events compare by timestamp only, and every stage orders its batch with
 * `Collections.sort`, which is stable: events with equal timestamps keep
 * their relative order. `SortByTime` is that stable sort, written as an
 * insertion sort over values.
 */
module Sorting {
  import opened Events
  import opened Seqs

  /** Ascending by timestamp. */
  predicate Sorted(s: seq<Event>) {
    forall i, j :: 0 <= i < j < |s| ==> s[i].timestamp <= s[j].timestamp
  }

  /** `x` placed in front of the first event of `s` that is not earlier than it. */
  function Insert(x: Event, s: seq<Event>): (r: seq<Event>)
    ensures multiset(r) == multiset(s) + multiset{x}
    decreases |s|
  {
    if s == [] then [x]
    else if x.timestamp <= s[0].timestamp then [x] + s
    else
      assert s == [s[0]] + s[1..];
      [s[0]] + Insert(x, s[1..])
  }

  lemma {:induction false} InsertSorted(x: Event, s: seq<Event>)
    requires Sorted(s)
    ensures Sorted(Insert(x, s))
    decreases |s|
  {
    if s != [] && x.timestamp > s[0].timestamp {
      InsertSorted(x, s[1..]);
      InsertLowerBound(x, s[1..], s[0].timestamp);
      ConsSorted(s[0], Insert(x, s[1..]));
    }
  }

  /** Inserting an event no earlier than `b` into events no earlier than `b`. */
  lemma InsertLowerBound(x: Event, s: seq<Event>, b: int)
    requires b <= x.timestamp
    requires forall j :: 0 <= j < |s| ==> b <= s[j].timestamp
    ensures forall j :: 0 <= j < |Insert(x, s)| ==> b <= Insert(x, s)[j].timestamp
  {
    var r := Insert(x, s);
    forall j | 0 <= j < |r| ensures b <= r[j].timestamp {
      assert r[j] in multiset(r);
      assert r[j] == x || r[j] in multiset(s);
    }
  }

  /** An event no later than the first of a sorted list goes in front of it. */
  lemma ConsSorted(h: Event, r: seq<Event>)
    requires Sorted(r)
    requires forall j :: 0 <= j < |r| ==> h.timestamp <= r[j].timestamp
    ensures Sorted([h] + r)
  {
  }

  /** The stable sort by timestamp. */
  function SortByTime(s: seq<Event>): (r: seq<Event>)
    ensures Sorted(r)
    ensures multiset(r) == multiset(s)
    decreases |s|
  {
    if s == [] then []
    else
      assert s == [s[0]] + s[1..];
      InsertSorted(s[0], SortByTime(s[1..]));
      Insert(s[0], SortByTime(s[1..]))
  }

  /** Sorting keeps exactly the events of the batch. */
  lemma InSorted(events: seq<Event>, e: Event)
    ensures e in SortByTime(events) <==> e in events
  {
    assert e in SortByTime(events) <==> e in multiset(SortByTime(events));
  }

  /** The events of `s` with timestamp `t`, in their order in `s`. */
  function AtTime(s: seq<Event>, t: int): (r: seq<Event>)
    ensures |r| <= |s|
    decreases |s|
  {
    if s == [] then []
    else (if s[0].timestamp == t then [s[0]] else []) + AtTime(s[1..], t)
  }

  lemma AtTimeCons(x: Event, s: seq<Event>, t: int)
    ensures AtTime([x] + s, t) == (if x.timestamp == t then [x] else []) + AtTime(s, t)
  {
    assert ([x] + s)[1..] == s;
  }

  lemma {:induction false} InsertAtTime(x: Event, s: seq<Event>, t: int)
    ensures AtTime(Insert(x, s), t) == (if x.timestamp == t then [x] else []) + AtTime(s, t)
    decreases |s|
  {
    if s == [] {
      AtTimeCons(x, [], t);
      assert [x] + [] == [x];
    } else if x.timestamp <= s[0].timestamp {
      AtTimeCons(x, s, t);
    } else {
      InsertAtTimeStep(x, s, t);
    }
  }

  lemma {:induction false} InsertAtTimeStep(x: Event, s: seq<Event>, t: int)
    requires s != [] && x.timestamp > s[0].timestamp
    ensures AtTime(Insert(x, s), t) == (if x.timestamp == t then [x] else []) + AtTime(s, t)
    decreases |s|, 0
  {
    var h, rest := s[0], s[1..];
    var own: seq<Event> := if h.timestamp == t then [h] else [];
    var xs: seq<Event> := if x.timestamp == t then [x] else [];
    assert s == [h] + rest;
    assert Insert(x, s) == [h] + Insert(x, rest);
    InsertAtTime(x, rest, t);
    AtTimeCons(h, Insert(x, rest), t);
    AtTimeCons(h, rest, t);
    assert xs == [] || own == [];
    SwapEmpty(own, xs, AtTime(rest, t));
  }

  /** Of two lists at most one of which is non-empty, either may go first. */
  lemma SwapEmpty(a: seq<Event>, b: seq<Event>, c: seq<Event>)
    requires a == [] || b == []
    ensures a + (b + c) == b + (a + c)
  {
    if a == [] {
      assert a + (b + c) == b + c == b + (a + c);
    } else {
      assert a + (b + c) == a + c == b + (a + c);
    }
  }

  /**
   * Stability: among events with the same timestamp, the sort keeps the
   * input order. Together with `Sorted` and the multiset, this pins the
   * result of the sort down completely.
   */
  lemma {:induction false} SortIsStable(s: seq<Event>, t: int)
    ensures AtTime(SortByTime(s), t) == AtTime(s, t)
    decreases |s|
  {
    if s != [] {
      SortIsStable(s[1..], t);
      InsertAtTime(s[0], SortByTime(s[1..]), t);
      AtTimeCons(s[0], s[1..], t);
      assert s == [s[0]] + s[1..];
    }
  }

  /** Sorting a list that is already in timestamp order changes nothing. */
  lemma {:induction false} SortSortedIsIdentity(s: seq<Event>)
    requires Sorted(s)
    ensures SortByTime(s) == s
    decreases |s|
  {
    if s != [] {
      SortSortedIsIdentity(s[1..]);
    }
  }

  /** Two events in timestamp order are already sorted. */
  lemma SortedPair(a: Event, b: Event)
    requires a.timestamp <= b.timestamp
    ensures SortByTime([a, b]) == [a, b]
  {
    assert Sorted([a, b]);
    SortSortedIsIdentity([a, b]);
  }

  /** Three events in timestamp order are already sorted. */
  lemma SortedTriple(s: seq<Event>)
    requires |s| == 3 && s[0].timestamp <= s[1].timestamp <= s[2].timestamp
    ensures SortByTime(s) == s
  {
    assert Sorted(s);
    SortSortedIsIdentity(s);
  }

  /** A subsequence chosen by a filter stays in timestamp order. */
  lemma {:induction false} FilterSorted(s: seq<Event>, p: Event -> bool)
    requires Sorted(s)
    ensures Sorted(Filter(s, p))
    decreases |s|
  {
    if s != [] {
      var init := s[..|s| - 1];
      FilterSorted(init, p);
      var last := s[|s| - 1];
      assert forall e :: e in Filter(init, p) ==> e in init;
      assert forall e :: e in init ==> e.timestamp <= last.timestamp;
    }
  }

  /** A rewrite that keeps timestamps keeps a sorted list sorted. */
  lemma MapSorted(s: seq<Event>, f: Event -> Event)
    requires Sorted(s)
    requires forall e :: f(e).timestamp == e.timestamp
    ensures Sorted(Map(s, f))
  {
  }

  /** A subsequence of a list in timestamp order is in timestamp order. */
  lemma {:induction false} SubsequenceSorted(a: seq<Event>, b: seq<Event>)
    requires IsSubsequence(a, b) && Sorted(b)
    ensures Sorted(a)
    decreases |b|
  {
    if a != [] {
      var a', b' := a[..|a| - 1], b[..|b| - 1];
      if a[|a| - 1] == b[|b| - 1] {
        SubsequenceSorted(a', b');
        forall k | 0 <= k < |a'| ensures a'[k].timestamp <= a[|a| - 1].timestamp {
          SubsequenceMembers(a', b', a'[k]);
        }
      } else {
        SubsequenceSorted(a, b');
      }
    }
  }
}
