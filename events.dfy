/**
 * The four kinds of file-system event that flow through the pipeline.
 * Every event carries the path it concerns, the name of that path's last
 * component, the content hash (absent for directories and for deletions
 * observed on disk) and a timestamp in milliseconds. A move additionally
 * carries the path it moved to; its `path` is the old path.
 */
module Events {
  import opened Wrappers

  /** A path as the sequence of its name components. */
  type Path = seq<string>

  /** A content hash, or `None` where the Java object holds `null`. */
  type Hash = Option<string>

  datatype Event =
    | Create(path: Path, name: string, hash: Hash, timestamp: int)
    | Modify(path: Path, name: string, hash: Hash, timestamp: int)
    | Delete(path: Path, name: string, hash: Hash, timestamp: int)
    | Move(path: Path, newPath: Path, name: string, hash: Hash, timestamp: int)

  /** The SHA-256 digest of empty content, which a freshly created file carries. */
  const EmptyHash: string := "e3b0c44298fc1c149afbf4c8996fb92427ae41e4649b934ca495991b7852b855"

  predicate IsCreate(e: Event) { e.Create? }
  predicate IsModify(e: Event) { e.Modify? }
  predicate IsDelete(e: Event) { e.Delete? }
  predicate IsMove(e: Event) { e.Move? }

  /** `Path.startsWith`: the components of `prefix` lead the components of `p`. */
  predicate StartsWith(p: Path, prefix: Path) {
    |prefix| <= |p| && p[..|prefix|] == prefix
  }

  /** The last component of a path, as `Path.getFileName()` gives it; empty for the empty path. */
  function FileName(p: Path): (r: string)
    ensures p != [] ==> r == p[|p| - 1]
  {
    if p == [] then "" else p[|p| - 1]
  }

  /** The same event with its path (and, for a move, its new path) rewritten by `f`. */
  function WithPaths(e: Event, f: Path -> Path): (r: Event)
    ensures r.timestamp == e.timestamp && r.hash == e.hash && r.name == e.name
    ensures r.path == f(e.path)
    ensures r.Create? == e.Create? && r.Modify? == e.Modify?
    ensures r.Delete? == e.Delete? && r.Move? == e.Move?
    ensures e.Move? ==> r.newPath == f(e.newPath)
  {
    match e
    case Create(p, n, h, t) => Create(f(p), n, h, t)
    case Modify(p, n, h, t) => Modify(f(p), n, h, t)
    case Delete(p, n, h, t) => Delete(f(p), n, h, t)
    case Move(p, q, n, h, t) => Move(f(p), f(q), n, h, t)
  }
}
