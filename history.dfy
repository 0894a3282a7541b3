/**
 * The version store the aggregator and the modifiers consult, reduced to
 * what they read from it: for a path, the hashes of its stored versions,
 * oldest first. A path without an entry stands for a lookup that fails
 * with an I/O error (the store does not know the path or its object).
 */
module VersionHistory {
  import opened Events

  type History = map<Path, seq<Hash>>

  /** The history holds at least one version for `p`. */
  predicate HasVersions(history: History, p: Path) {
    p in history && |history[p]| > 0
  }

  /** The hash of the last stored version of `p`. */
  function LastHash(history: History, p: Path): Hash
    requires HasVersions(history, p)
  {
    history[p][|history[p]| - 1]
  }
}
