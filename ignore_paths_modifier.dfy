/**
 * `IgnorePathsModifier`: drops every event that lies under one of the
 * ignored paths or matches one of the ignored glob patterns. A move is
 * dropped when either its old or its new path does. Kept events are not
 * changed; the result is in timestamp order.
 */
module IgnorePathsModifier {
  import opened Events
  import opened Seqs
  import opened Sorting

  /**
   * The glob matcher of the file system, `getPathMatcher("glob:" + pattern)
   * .matches(path)`, as a parameter of the model.
   */
  type Glob = (string, Path) -> bool

  /** The modifier's configuration: the ignored paths and the ignored patterns. */
  datatype Config = Config(ignoredPaths: seq<Path>, ignoredPatterns: seq<string>)

  /** The constructor without patterns. */
  function PathsOnly(ignoredPaths: seq<Path>): (c: Config)
    ensures c.ignoredPaths == ignoredPaths && c.ignoredPatterns == []
  {
    Config(ignoredPaths, [])
  }

  /** The event lies under the ignored path `q`. */
  predicate Under(e: Event, q: Path) {
    StartsWith(e.path, q) || (e.Move? && StartsWith(e.newPath, q))
  }

  /** The event matches the pattern `g`. */
  predicate Matches(e: Event, g: string, glob: Glob) {
    glob(g, e.path) || (e.Move? && glob(g, e.newPath))
  }

  /** The event lies under some ignored path or matches some ignored pattern. */
  predicate Ignored(e: Event, config: Config, glob: Glob) {
    (exists q :: q in config.ignoredPaths && Under(e, q)) ||
    (exists g :: g in config.ignoredPatterns && Matches(e, g, glob))
  }

  /** The filter the modifier applies. */
  function Keep(config: Config, glob: Glob): Event -> bool {
    (e: Event) => !Ignored(e, config, glob)
  }

  /** The modified batch: the events not ignored, in timestamp order. */
  function Modified(events: seq<Event>, config: Config, glob: Glob): seq<Event> {
    SortByTime(Filter(SortByTime(events), Keep(config, glob)))
  }

  /** The loop over the ignored paths, stopping at the first one the event lies under. */
  method UnderSome(e: Event, paths: seq<Path>) returns (found: bool)
    ensures found == exists q :: q in paths && Under(e, q)
  {
    found := false;
    var k := 0;
    while k < |paths| && !found
      invariant k <= |paths|
      invariant found == exists q :: q in paths[..k] && Under(e, q)
    {
      var path := paths[k];
      assert paths[..k + 1] == paths[..k] + [path];
      if e.Create? || e.Modify? || e.Delete? {
        found := |path| <= |e.path| && e.path[..|path|] == path;
      } else {
        found := (|path| <= |e.path| && e.path[..|path|] == path) ||
                 (|path| <= |e.newPath| && e.newPath[..|path|] == path);
      }
      assert found == Under(e, path);
      if found {
        assert path in paths[..k + 1];
      }
      k := k + 1;
    }
    if !found {
      assert paths[..k] == paths;
    }
  }

  /** The loop over the ignored patterns, stopping at the first one the event matches. */
  method MatchesSome(e: Event, patterns: seq<string>, glob: Glob) returns (found: bool)
    ensures found == exists g :: g in patterns && Matches(e, g, glob)
  {
    found := false;
    var k := 0;
    while k < |patterns| && !found
      invariant k <= |patterns|
      invariant found == exists g :: g in patterns[..k] && Matches(e, g, glob)
    {
      var pattern := patterns[k];
      assert patterns[..k + 1] == patterns[..k] + [pattern];
      if e.Create? || e.Modify? || e.Delete? {
        found := glob(pattern, e.path);
      } else {
        found := glob(pattern, e.path) || glob(pattern, e.newPath);
      }
      assert found == Matches(e, pattern, glob);
      if found {
        assert pattern in patterns[..k + 1];
      }
      k := k + 1;
    }
    if !found {
      assert patterns[..k] == patterns;
    }
  }

  /** The ignored paths are checked first; the patterns only when no path applies. */
  method IsIgnored(e: Event, config: Config, glob: Glob) returns (ignored: bool)
    ensures ignored == Ignored(e, config, glob)
  {
    ignored := UnderSome(e, config.ignoredPaths);
    if !ignored {
      ignored := MatchesSome(e, config.ignoredPatterns, glob);
    }
  }

  /** `modify`: sort, keep the events neither under an ignored path nor matching a pattern, sort. */
  method ModifyEvents(events: seq<Event>, config: Config, glob: Glob) returns (out: seq<Event>)
    ensures out == Modified(events, config, glob)
  {
    var s := SortByTime(events);
    out := [];
    for i := 0 to |s|
      invariant out == Filter(s[..i], Keep(config, glob))
    {
      var event := s[i];
      FilterTakeSnoc(s, i, Keep(config, glob));
      var ignored := IsIgnored(event, config, glob);
      if !ignored {
        out := out + [event];
      }
    }
    assert s[..|s|] == s;
    out := SortByTime(out);
  }

  /** Each event is kept with all its copies when it is not ignored, and dropped entirely when it is. */
  lemma KeptIff(events: seq<Event>, config: Config, glob: Glob, e: Event)
    ensures multiset(Modified(events, config, glob))[e] ==
            if Ignored(e, config, glob) then 0 else multiset(events)[e]
    ensures e in Modified(events, config, glob) <==> e in events && !Ignored(e, config, glob)
  {
    var s := SortByTime(events);
    FilterCount(s, Keep(config, glob), e);
    assert e in events <==> multiset(events)[e] > 0;
  }

  /** The final sort changes nothing: the kept events stay in the order of the sorted batch. */
  lemma ModifiedIsSubsequence(events: seq<Event>, config: Config, glob: Glob)
    ensures Modified(events, config, glob) == Filter(SortByTime(events), Keep(config, glob))
    ensures IsSubsequence(Modified(events, config, glob), SortByTime(events))
    ensures Sorted(Modified(events, config, glob))
  {
    var kept := Filter(SortByTime(events), Keep(config, glob));
    FilterSorted(SortByTime(events), Keep(config, glob));
    SortSortedIsIdentity(kept);
    FilterIsSubsequence(SortByTime(events), Keep(config, glob));
  }

  /** Without ignored paths and patterns every event is kept. */
  lemma NothingIgnored(events: seq<Event>, glob: Glob)
    ensures Modified(events, PathsOnly([]), glob) == SortByTime(events)
  {
    forall e | e in SortByTime(events) ensures Keep(PathsOnly([]), glob)(e) {
    }
    FilterAll(SortByTime(events), Keep(PathsOnly([]), glob));
    SortSortedIsIdentity(SortByTime(events));
  }

  /** The decision depends on the event alone, so a second application changes nothing. */
  lemma Idempotent(events: seq<Event>, config: Config, glob: Glob)
    ensures Modified(Modified(events, config, glob), config, glob) == Modified(events, config, glob)
  {
    var once := Modified(events, config, glob);
    ModifiedIsSubsequence(events, config, glob);
    SortSortedIsIdentity(once);
    forall e | e in once ensures Keep(config, glob)(e) {
    }
    FilterAll(once, Keep(config, glob));
    SortSortedIsIdentity(once);
  }

  /**
   * The module's test: with `root + [d]` ignored, a creation and a
   * modification under it and the two moves out of or into it are dropped;
   * a deletion and a move outside it are kept, in order.
   */
  lemma IgnoredDirectory(s: seq<Event>, root: Path, d: string, f: string, g: string, sub: string, h: Hash,
                         glob: Glob, t0: int, t1: int, t2: int, t3: int, t4: int, t5: int)
    requires d != f && d != g
    requires t0 <= t1 <= t2 <= t3 <= t4 <= t5
    requires s == [Create(root + [d, f], f, h, t0), Modify(root + [d, sub, f], f, h, t1),
                   Delete(root + [f], f, h, t2), Move(root + [f], root + [g], g, h, t3),
                   Move(root + [d, f], root + [g], g, h, t4), Move(root + [f], root + [d, g], g, h, t5)]
    ensures Modified(s, PathsOnly([root + [d]]), glob) == [s[2], s[3]]
  {
    var config := PathsOnly([root + [d]]);
    IgnoredDirectoryDecisions(s, root, d, f, g, sub, h, glob, t0, t1, t2, t3, t4, t5);
    FilterSix(s, Keep(config, glob));
    SortedSix(s);
    KeptOfSorted(s, config, glob);
  }

  /** A batch already in order whose kept events are `r` is modified into `r`. */
  lemma KeptOfSorted(s: seq<Event>, config: Config, glob: Glob)
    requires Sorted(s)
    ensures Modified(s, config, glob) == Filter(s, Keep(config, glob))
  {
    SortSortedIsIdentity(s);
    FilterSorted(s, Keep(config, glob));
    SortSortedIsIdentity(Filter(s, Keep(config, glob)));
  }

  /** Six events whose timestamps do not decrease are in order. */
  lemma SortedSix(s: seq<Event>)
    requires |s| == 6
    requires s[0].timestamp <= s[1].timestamp <= s[2].timestamp <= s[3].timestamp <= s[4].timestamp <= s[5].timestamp
    ensures Sorted(s)
  {
  }

  /** The decision for each event of the test batch. */
  lemma IgnoredDirectoryDecisions(s: seq<Event>, root: Path, d: string, f: string, g: string, sub: string, h: Hash,
                                  glob: Glob, t0: int, t1: int, t2: int, t3: int, t4: int, t5: int)
    requires d != f && d != g
    requires s == [Create(root + [d, f], f, h, t0), Modify(root + [d, sub, f], f, h, t1),
                   Delete(root + [f], f, h, t2), Move(root + [f], root + [g], g, h, t3),
                   Move(root + [d, f], root + [g], g, h, t4), Move(root + [f], root + [d, g], g, h, t5)]
    ensures var keep := Keep(PathsOnly([root + [d]]), glob);
            !keep(s[0]) && !keep(s[1]) && keep(s[2]) && keep(s[3]) && !keep(s[4]) && !keep(s[5])
  {
    var ignored := root + [d];
    assert Under(s[0], ignored) && Under(s[1], ignored) && Under(s[4], ignored) && Under(s[5], ignored) by {
      assert (root + [d, f])[..|ignored|] == ignored;
      assert (root + [d, sub, f])[..|ignored|] == ignored;
      assert (root + [d, g])[..|ignored|] == ignored;
    }
    assert !StartsWith(root + [f], ignored) by {
      assert (root + [f])[|root|] == f && ignored[|root|] == d;
    }
    assert !StartsWith(root + [g], ignored) by {
      assert (root + [g])[|root|] == g && ignored[|root|] == d;
    }
  }

  /** Filtering six elements, one at a time. */
  lemma FilterSix<T>(s: seq<T>, p: T -> bool)
    requires |s| == 6
    requires !p(s[0]) && !p(s[1]) && p(s[2]) && p(s[3]) && !p(s[4]) && !p(s[5])
    ensures Filter(s, p) == [s[2], s[3]]
  {
    assert s[..0] == [];
    FilterTakeSnoc(s, 0, p);
    FilterTakeSnoc(s, 1, p);
    FilterTakeSnoc(s, 2, p);
    FilterTakeSnoc(s, 3, p);
    FilterTakeSnoc(s, 4, p);
    FilterTakeSnoc(s, 5, p);
    assert s[..6] == s;
  }

}
