/**
 * Java events are objects compared by identity: two events with equal
 * fields are still two elements of a `HashSet`. An object here is an
 * event together with its position in the batch, which keeps equal
 * events at different positions apart.
 */
module Objects {
  import opened Events
  import opened Seqs

  datatype Obj = Obj(pos: nat, event: Event)

  function EventOf(o: Obj): Event { o.event }

  /** `o` is the object at its position of `s`. */
  predicate IsObjOf(s: seq<Event>, o: Obj) {
    o.pos < |s| && o.event == s[o.pos]
  }

  /** The objects of the first `n` events of `s`, in order. */
  function Numbered(s: seq<Event>, n: nat): (r: seq<Obj>)
    requires n <= |s|
    ensures |r| == n
    ensures forall k :: 0 <= k < n ==> r[k] == Obj(k, s[k])
    ensures Distinct(r)
  {
    if n == 0 then [] else Numbered(s, n - 1) + [Obj(n - 1, s[n - 1])]
  }

  /** The objects of the batch are exactly the events at their positions. */
  lemma NumberedIff(s: seq<Event>, o: Obj)
    ensures o in Numbered(s, |s|) <==> IsObjOf(s, o)
  {
    if IsObjOf(s, o) {
      InNumbered(s, o.pos);
    }
  }

  /** The object at a position is one of the batch's objects. */
  lemma InNumbered(s: seq<Event>, i: nat)
    requires i < |s|
    ensures Obj(i, s[i]) in Numbered(s, |s|)
  {
    assert Numbered(s, |s|)[i] == Obj(i, s[i]);
  }

  /** Forgetting the positions gives the batch back. */
  lemma NumberedEvents(s: seq<Event>)
    ensures Map(Numbered(s, |s|), EventOf) == s
  {
  }

  /** Forgetting the positions of two objects. */
  lemma MapTwo(a: Obj, b: Obj)
    ensures Map([a, b], EventOf) == [a.event, b.event]
  {
  }

  /** Keeping some of the objects keeps at most the events of the batch. */
  lemma {:induction false} SelectedEvents(xs: seq<Obj>, p: Obj -> bool)
    ensures multiset(Map(Filter(xs, p), EventOf)) <= multiset(Map(xs, EventOf))
    decreases |xs|
  {
    if xs != [] {
      var init, last := xs[..|xs| - 1], xs[|xs| - 1];
      assert xs == init + [last];
      SelectedEvents(init, p);
      MapAppend(init, [last], EventOf);
      MapAppend(Filter(init, p), if p(last) then [last] else [], EventOf);
    }
  }

  /** A filter that keeps every object holding `e` keeps every copy of `e`. */
  lemma {:induction false} SelectedCount(s: seq<Event>, n: nat, p: Obj -> bool, e: Event)
    requires n <= |s|
    requires forall k :: 0 <= k < n && s[k] == e ==> p(Obj(k, s[k]))
    ensures multiset(Map(Filter(Numbered(s, n), p), EventOf))[e] == multiset(s[..n])[e]
    decreases n
  {
    if n == 0 {
      assert Filter(Numbered(s, n), p) == [];
      assert s[..n] == [];
    } else {
      SelectedCount(s, n - 1, p, e);
      var last := if p(Obj(n - 1, s[n - 1])) then [s[n - 1]] else [];
      SelectedSnoc(s, n, p);
      TakeSnoc(s, n);
      CountSnoc(Map(Filter(Numbered(s, n - 1), p), EventOf), last, s[..n - 1], s[n - 1], e);
    }
  }

  /** Counting `e` after one step that keeps `x`, or drops an `x` other than `e`. */
  lemma CountSnoc(kept: seq<Event>, last: seq<Event>, prefix: seq<Event>, x: Event, e: Event)
    requires multiset(kept)[e] == multiset(prefix)[e]
    requires last == [x] || (last == [] && x != e)
    ensures multiset(kept + last)[e] == multiset(prefix + [x])[e]
  {
    assert multiset(kept + last) == multiset(kept) + multiset(last);
    assert multiset(prefix + [x]) == multiset(prefix) + multiset{x};
  }

  /** The selection from the first `n` objects, one object at a time. */
  lemma SelectedSnoc(s: seq<Event>, n: nat, p: Obj -> bool)
    requires 0 < n <= |s|
    ensures Map(Filter(Numbered(s, n), p), EventOf) ==
            Map(Filter(Numbered(s, n - 1), p), EventOf) + (if p(Obj(n - 1, s[n - 1])) then [s[n - 1]] else [])
  {
    var o := Obj(n - 1, s[n - 1]);
    assert Numbered(s, n)[..n - 1] == Numbered(s, n - 1);
    var tail := if p(o) then [o] else [];
    assert Filter(Numbered(s, n), p) == Filter(Numbered(s, n - 1), p) + tail;
    MapAppend(Filter(Numbered(s, n - 1), p), tail, EventOf);
  }
}
