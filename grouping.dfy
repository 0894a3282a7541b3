/**
 * The `HashMap` from a key to the list of events with that key, as both
 * move aggregators build it, and the concatenation of per-group outputs
 * they produce while walking the map's entries.
 */
module HashGrouping {
  import opened Events
  import opened Seqs

  /** The events of `s` whose hash maps to `k`, in their order in `s`. */
  function Group<K(==)>(s: seq<Event>, key: Hash -> K, k: K): (r: seq<Event>)
    ensures forall e :: e in r <==> e in s && key(e.hash) == k
  {
    Filter(s, (e: Event) => key(e.hash) == k)
  }

  lemma GroupCount<K>(s: seq<Event>, key: Hash -> K, x: Event)
    ensures multiset(Group(s, key, key(x.hash)))[x] == multiset(s)[x]
  {
    FilterCount(s, (e: Event) => key(e.hash) == key(x.hash), x);
  }

  /** The keys of the map after all of `s` has been put in it. */
  function KeySet<K>(s: seq<Event>, key: Hash -> K): set<K> {
    set e | e in s :: key(e.hash)
  }

  lemma KeySetSnoc<K>(s: seq<Event>, e: Event, key: Hash -> K)
    ensures KeySet(s + [e], key) == KeySet(s, key) + {key(e.hash)}
  {
    assert forall x :: x in s + [e] <==> x in s || x == e;
  }

  /** A key no event of `s` has selects the empty group. */
  lemma {:induction false} GroupEmpty<K>(s: seq<Event>, key: Hash -> K, k: K)
    requires k !in KeySet(s, key)
    ensures Group(s, key, k) == []
    decreases |s|
  {
    if s != [] {
      var init, last := s[..|s| - 1], s[|s| - 1];
      assert s == init + [last];
      KeySetSnoc(init, last, key);
      GroupEmpty(init, key, k);
      GroupSnoc(init, last, key, k);
    }
  }

  /** Putting one more event into the map extends exactly the group of its key. */
  lemma GroupSnoc<K>(s: seq<Event>, e: Event, key: Hash -> K, k: K)
    ensures Group(s + [e], key, k) == Group(s, key, k) + (if key(e.hash) == k then [e] else [])
  {
    assert (s + [e])[..|s|] == s;
  }

  /** Two keyings that pick out the same events of `s` form the same group. */
  lemma {:induction false} GroupKeysAgree<K, L>(s: seq<Event>, key: Hash -> K, k: K, key': Hash -> L, k': L)
    requires forall e :: e in s ==> (key(e.hash) == k) == (key'(e.hash) == k')
    ensures Group(s, key, k) == Group(s, key', k')
    decreases |s|
  {
    if s != [] {
      var init, last := s[..|s| - 1], s[|s| - 1];
      assert s == init + [last];
      GroupKeysAgree(init, key, k, key', k');
      GroupSnoc(init, last, key, k);
      GroupSnoc(init, last, key', k');
    }
  }

  /** The keys of the map after all of `s` has been put in it, once each. */
  function KeysOf<K(==)>(s: seq<Event>, key: Hash -> K): (ks: seq<K>)
    ensures Distinct(ks)
    ensures forall k :: k in ks ==> k in KeySet(s, key)
    ensures forall k :: k in KeySet(s, key) ==> k in ks
    decreases |s|
  {
    if s == [] then []
    else
      var init := s[..|s| - 1];
      var last := s[|s| - 1];
      assert s == init + [last];
      KeySetSnoc(init, last, key);
      var ks := KeysOf(init, key);
      if key(last.hash) in ks then ks else ks + [key(last.hash)]
  }

  /** What a per-group step may emit: only events with the hash of some event of the group. */
  ghost predicate KeepsHashes(fuse: seq<Event> -> seq<Event>) {
    forall g: seq<Event>, y: Event :: y in fuse(g) ==> exists e :: e in g && e.hash == y.hash
  }

  /** The per-group outputs for the keys `ks`, appended in the order of `ks`. */
  function FuseKeys<K(==)>(s: seq<Event>, key: Hash -> K, ks: seq<K>, fuse: seq<Event> -> seq<Event>): (r: seq<Event>)
    decreases |ks|
  {
    if ks == [] then []
    else FuseKeys(s, key, ks[..|ks| - 1], fuse) + fuse(Group(s, key, ks[|ks| - 1]))
  }

  /**
   * However the entries are ordered, an event occurs in the concatenation
   * exactly as often as it occurs in the output of its own group.
   */
  lemma {:induction false} FuseKeysCount<K>(s: seq<Event>, key: Hash -> K, ks: seq<K>,
                                               fuse: seq<Event> -> seq<Event>, x: Event)
    requires Distinct(ks)
    requires KeepsHashes(fuse)
    ensures multiset(FuseKeys(s, key, ks, fuse))[x] ==
            if key(x.hash) in ks then multiset(fuse(Group(s, key, key(x.hash))))[x] else 0
    decreases |ks|
  {
    if ks != [] {
      var init := ks[..|ks| - 1];
      var k := ks[|ks| - 1];
      assert ks == init + [k];
      FuseKeysCount(s, key, init, fuse, x);
      if key(x.hash) != k {
        assert x !in fuse(Group(s, key, k));
      } else {
        assert k !in init;
      }
    }
  }

  /** Two key orders that cover the same keys give the same events. */
  lemma KeyOrderIrrelevant<K>(s: seq<Event>, key: Hash -> K, ks: seq<K>, ks': seq<K>,
                                  fuse: seq<Event> -> seq<Event>)
    requires Distinct(ks) && Distinct(ks')
    requires forall k :: k in ks ==> k in ks'
    requires forall k :: k in ks' ==> k in ks
    requires KeepsHashes(fuse)
    ensures multiset(FuseKeys(s, key, ks, fuse)) == multiset(FuseKeys(s, key, ks', fuse))
  {
    forall x
      ensures multiset(FuseKeys(s, key, ks, fuse))[x] == multiset(FuseKeys(s, key, ks', fuse))[x]
    {
      FuseKeysCount(s, key, ks, fuse, x);
      FuseKeysCount(s, key, ks', fuse, x);
    }
  }

  /**
   * Over all keys of `s`: an event occurs in the result exactly as often as
   * in the output of the group its hash selects.
   */
  lemma FuseAllCount<K>(s: seq<Event>, key: Hash -> K, fuse: seq<Event> -> seq<Event>, x: Event)
    requires KeepsHashes(fuse)
    ensures multiset(FuseKeys(s, key, KeysOf(s, key), fuse))[x] ==
            multiset(fuse(Group(s, key, key(x.hash))))[x]
  {
    FuseKeysCount(s, key, KeysOf(s, key), fuse, x);
    if key(x.hash) !in KeysOf(s, key) {
      assert x !in fuse(Group(s, key, key(x.hash)));
    }
  }

  /** The per-group step that emits the group as it is. */
  function Whole(g: seq<Event>): seq<Event> { g }

  lemma WholeKeepsHashes()
    ensures KeepsHashes(Whole)
  {
    var fuse := Whole;
    forall g: seq<Event>, y: Event | y in fuse(g)
      ensures exists e :: e in g && e.hash == y.hash
    {
      assert y in g && y.hash == y.hash;
    }
    assert KeepsHashes(fuse);
  }

  /** A per-group step that never emits more events than its group holds. */
  ghost predicate Shrinks(fuse: seq<Event> -> seq<Event>) {
    forall g: seq<Event> :: |fuse(g)| <= |g|
  }

  /** Over any keys, a shrinking step emits no more events than the groups hold together. */
  lemma {:induction false} FuseKeysNoLonger<K>(s: seq<Event>, key: Hash -> K, ks: seq<K>,
                                                  fuse: seq<Event> -> seq<Event>)
    requires Shrinks(fuse)
    ensures |FuseKeys(s, key, ks, fuse)| <= |FuseKeys(s, key, ks, Whole)|
    decreases |ks|
  {
    if ks != [] {
      FuseKeysNoLonger(s, key, ks[..|ks| - 1], fuse);
      var g := Group(s, key, ks[|ks| - 1]);
      assert |fuse(g)| <= |g|;
    }
  }

  /** The groups of distinct keys hold, together, no more events than the batch. */
  lemma GroupsNoLonger<K>(s: seq<Event>, key: Hash -> K, ks: seq<K>)
    requires Distinct(ks)
    ensures |FuseKeys(s, key, ks, Whole)| <= |s|
  {
    var all := multiset(FuseKeys(s, key, ks, Whole));
    WholeKeepsHashes();
    forall x
      ensures all[x] <= multiset(s)[x]
    {
      FuseKeysCount(s, key, ks, Whole, x);
      GroupCount(s, key, x);
    }
    assert all <= multiset(s);
    assert multiset(s) == all + (multiset(s) - all);
  }
}
