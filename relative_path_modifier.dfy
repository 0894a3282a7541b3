/**
 * `RelativePathModifier`: rewrites every event so that its path (and, for a
 * move, its new path) is relative to the root of the synchronised folder.
 * The kind, name, hash and timestamp of each event are kept; the result is
 * in timestamp order.
 *
 * `Path.relativize` of the Java library is modelled on the components of
 * two normalised paths of the same kind: the components the two share at
 * the front are dropped, every remaining component of the root becomes
 * `..`, and the rest of the path follows.
 */
module RelativePathModifier {
  import opened Events
  import opened Seqs
  import opened Sorting

  /** The parent-directory component. */
  const Up: string := ".."

  /** The number of components `a` and `b` share at the front. */
  function CommonPrefix(a: Path, b: Path): (c: nat)
    ensures c <= |a| && c <= |b|
    ensures a[..c] == b[..c]
    ensures c < |a| && c < |b| ==> a[c] != b[c]
    decreases |a|
  {
    if a == [] || b == [] || a[0] != b[0] then 0
    else
      var c := 1 + CommonPrefix(a[1..], b[1..]);
      assert a[..c] == [a[0]] + a[1..][..c - 1];
      assert b[..c] == [b[0]] + b[1..][..c - 1];
      c
  }

  /** `n` parent-directory components. */
  function Ups(n: nat): (r: Path)
    ensures |r| == n
    ensures forall i :: 0 <= i < n ==> r[i] == Up
  {
    if n == 0 then [] else Ups(n - 1) + [Up]
  }

  /** `root.relativize(p)`. */
  function Relativize(root: Path, p: Path): (r: Path)
  {
    var c := CommonPrefix(root, p);
    Ups(|root| - c) + p[c..]
  }

  /** A path under the root becomes the components after the root. */
  lemma RelativizeUnderRoot(root: Path, p: Path)
    requires StartsWith(p, root)
    ensures root + Relativize(root, p) == p
    ensures |Relativize(root, p)| == |p| - |root|
  {
    assert forall j :: 0 <= j < |root| ==> p[j] == p[..|root|][j] == root[j];
    assert p == p[..|root|] + p[|root|..];
  }

  /** The number of `..` components at the front of `r`. */
  function LeadingUps(r: Path): (k: nat)
    ensures k <= |r|
    ensures forall i :: 0 <= i < k ==> r[i] == Up
    ensures k < |r| ==> r[k] != Up
    decreases |r|
  {
    if r == [] || r[0] != Up then 0
    else
      var k := 1 + LeadingUps(r[1..]);
      assert forall i :: 1 <= i < k ==> r[i] == r[1..][i - 1];
      k
  }

  /**
   * `root.resolve(r).normalize()` for a relative path `r`: every leading
   * `..` climbs one component up from the root, never above its top.
   */
  function Resolve(root: Path, r: Path): (p: Path)
  {
    var k := LeadingUps(r);
    var up := if k <= |root| then k else |root|;
    root[..|root| - up] + r[k..]
  }

  /** `n` parent components followed by a path that does not start with one. */
  lemma {:induction false} LeadingUpsOf(n: nat, q: Path)
    requires q != [] ==> q[0] != Up
    ensures LeadingUps(Ups(n) + q) == n
  {
    var r := Ups(n) + q;
    assert forall i :: 0 <= i < n ==> r[i] == Up;
    assert q != [] ==> r[n] == q[0];
  }

  /** Resolving `m` parent components and a path `q` climbs `m` components up from the root. */
  lemma ResolveUps(root: Path, m: nat, q: Path)
    requires m <= |root|
    requires q != [] ==> q[0] != Up
    ensures Resolve(root, Ups(m) + q) == root[..|root| - m] + q
  {
    LeadingUpsOf(m, q);
    assert (Ups(m) + q)[m..] == q;
  }

  /**
   * The partner of `Relativize`: resolving the relative path against the
   * root gives back the original path, for every path without `..`.
   */
  lemma ResolveRelativize(root: Path, p: Path)
    requires forall i :: 0 <= i < |p| ==> p[i] != Up
    ensures Resolve(root, Relativize(root, p)) == p
  {
    var c := CommonPrefix(root, p);
    var q := p[c..];
    assert q != [] ==> q[0] == p[c];
    ResolveUps(root, |root| - c, q);
    assert root[..|root| - (|root| - c)] == root[..c] == p[..c];
    TakeDrop(p, c);
  }

  /** The rewrite the modifier applies to one event. */
  function Relativized(root: Path): Event -> Event {
    (e: Event) => WithPaths(e, (p: Path) => Relativize(root, p))
  }

  /** The modified batch: every event of the sorted batch relativised, sorted again. */
  function Modified(events: seq<Event>, root: Path): seq<Event> {
    SortByTime(Map(SortByTime(events), Relativized(root)))
  }

  /** `modify`: sort, rewrite each event in turn, sort. */
  method ModifyEvents(events: seq<Event>, root: Path) returns (out: seq<Event>)
    ensures out == Modified(events, root)
  {
    var s := SortByTime(events);
    out := [];
    for i := 0 to |s|
      invariant out == Map(s[..i], Relativized(root))
    {
      var e := RelativizeEvent(root, s[i]);
      TakeSnoc(s, i + 1);
      MapSnoc(s[..i], s[i], Relativized(root));
      out := out + [e];
    }
    assert s[..|s|] == s;
    out := SortByTime(out);
  }

  /** One turn of the loop: a new event of the same kind with the path (and new path) relativised. */
  method RelativizeEvent(root: Path, event: Event) returns (e: Event)
    ensures e == Relativized(root)(event)
  {
    var relativePath := Relativize(root, event.path);
    match event {
      case Create(_, name, hash, timestamp) => e := Create(relativePath, name, hash, timestamp);
      case Modify(_, name, hash, timestamp) => e := Modify(relativePath, name, hash, timestamp);
      case Delete(_, name, hash, timestamp) => e := Delete(relativePath, name, hash, timestamp);
      case Move(_, newPath, name, hash, timestamp) =>
        var newRelativePath := Relativize(root, newPath);
        e := Move(relativePath, newRelativePath, name, hash, timestamp);
    }
  }

  /**
   * The final sort changes nothing: the output is the sorted batch with
   * each event rewritten in place, so it is sorted, has the length of the
   * input, and holds a rewrite of each input event.
   */
  lemma ModifiedIsMap(events: seq<Event>, root: Path)
    ensures Modified(events, root) == Map(SortByTime(events), Relativized(root))
    ensures Sorted(Modified(events, root))
    ensures |Modified(events, root)| == |events|
    ensures multiset(Modified(events, root)) == multiset(Map(events, Relativized(root)))
  {
    var s := SortByTime(events);
    MapSorted(s, Relativized(root));
    SortSortedIsIdentity(Map(s, Relativized(root)));
    MapPermutation(s, events, Relativized(root));
    assert |s| == |multiset(s)| == |multiset(events)| == |events|;
  }

  /**
   * Event by event, the output keeps the kind, name, hash and timestamp of
   * the sorted input and relativises its path and, for a move, its new path.
   */
  lemma ModifiedEvent(events: seq<Event>, root: Path, i: int)
    requires 0 <= i < |events|
    ensures var s := SortByTime(events);
            var r := Modified(events, root);
            |s| == |events| && |r| == |events| &&
            r[i].Create? == s[i].Create? && r[i].Modify? == s[i].Modify? &&
            r[i].Delete? == s[i].Delete? && r[i].Move? == s[i].Move? &&
            r[i].name == s[i].name && r[i].hash == s[i].hash && r[i].timestamp == s[i].timestamp &&
            r[i].path == Relativize(root, s[i].path) &&
            (s[i].Move? ==> r[i].newPath == Relativize(root, s[i].newPath))
  {
    ModifiedIsMap(events, root);
    var s := SortByTime(events);
    var r := Modified(events, root);
    assert r[i] == WithPaths(s[i], (p: Path) => Relativize(root, p));
  }

  /** An event under the root ends up with the components after the root, for both paths of a move. */
  lemma ModifiedUnderRoot(events: seq<Event>, root: Path, i: int)
    requires 0 <= i < |SortByTime(events)|
    requires StartsWith(SortByTime(events)[i].path, root)
    requires SortByTime(events)[i].Move? ==> StartsWith(SortByTime(events)[i].newPath, root)
    ensures var s := SortByTime(events);
            var r := Modified(events, root);
            |r| == |s| &&
            root + r[i].path == s[i].path &&
            (s[i].Move? ==> r[i].Move? && root + r[i].newPath == s[i].newPath)
  {
    var s := SortByTime(events);
    assert |s| == |multiset(s)| == |multiset(events)| == |events|;
    ModifiedEvent(events, root, i);
    RelativizeUnderRoot(root, s[i].path);
    if s[i].Move? {
      RelativizeUnderRoot(root, s[i].newPath);
    }
  }

  /**
   * The module's test: against `/tmp/dir`, a file in a sub-directory keeps
   * the sub-directory, and a file beside the root climbs out of it.
   */
  lemma RelativizeExamples()
    ensures Relativize(["tmp", "dir"], ["tmp", "dir", "myDir", "someFile.txt"]) == ["myDir", "someFile.txt"]
    ensures Relativize(["tmp", "dir"], ["tmp", "dir", "someFile.txt"]) == ["someFile.txt"]
    ensures Relativize(["tmp", "dir"], ["tmp", "other", "f"]) == [Up, "other", "f"]
    ensures Relativize(["tmp", "dir"], ["tmp", "dir"]) == []
  {
    var root: Path := ["tmp", "dir"];
    RelativizeUnderRoot(root, ["tmp", "dir", "myDir", "someFile.txt"]);
    RelativizeUnderRoot(root, ["tmp", "dir", "someFile.txt"]);
    RelativizeUnderRoot(root, ["tmp", "dir"]);
    assert CommonPrefix(root, ["tmp", "other", "f"]) == 1;
  }
}
