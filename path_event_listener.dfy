/**
 * `PathEventListener`: the bag that collects the events the path watcher
 * reports and hands them, sorted, to the registered listeners each time
 * the scheduler runs it.
 *
 * Hashing the file on disk and the clock are parameters: `isFile` says
 * whether the path is a regular file, `digest` is the hash of its content
 * or `None` when hashing failed with an I/O error, `now` is the current
 * time in milliseconds.
 */
module PathEvents {
  import opened Wrappers
  import opened Events
  import opened Seqs
  import opened Sorting
  import opened Listeners

  /** The hash a new or modified path is recorded with: that of a regular file, otherwise none. */
  function HashOf(isFile: bool, digest: Option<string>): (h: Hash)
    ensures h.Some? <==> isFile && digest.Some?
    ensures h.Some? ==> h == digest
  {
    if isFile then digest else None
  }

  class PathEventListener {
    /** The events collected since the last run. */
    var eventBag: seq<Event>
    /** The listeners notified on each run. */
    var eventListeners: seq<Listener>
    /** Every notification made so far, oldest first. */
    ghost var delivered: seq<Delivery>

    constructor()
      ensures eventBag == [] && eventListeners == [] && delivered == []
    {
      eventBag := [];
      eventListeners := [];
      delivered := [];
    }

    /** `onPathCreated`: one creation event at the end of the bag. */
    method OnPathCreated(path: Path, isFile: bool, digest: Option<string>, now: int)
      modifies this
      ensures eventBag == old(eventBag) + [Create(path, FileName(path), HashOf(isFile, digest), now)]
      ensures eventListeners == old(eventListeners) && delivered == old(delivered)
    {
      var hash: Hash := None;
      if isFile {
        hash := digest;
      }
      eventBag := eventBag + [Create(path, FileName(path), hash, now)];
    }

    /** `onPathModified`: one modification event at the end of the bag. */
    method OnPathModified(path: Path, isFile: bool, digest: Option<string>, now: int)
      modifies this
      ensures eventBag == old(eventBag) + [Modify(path, FileName(path), HashOf(isFile, digest), now)]
      ensures eventListeners == old(eventListeners) && delivered == old(delivered)
    {
      var hash: Hash := None;
      if isFile {
        hash := digest;
      }
      eventBag := eventBag + [Modify(path, FileName(path), hash, now)];
    }

    /** `onPathDeleted`: one deletion event without a hash at the end of the bag. */
    method OnPathDeleted(path: Path, now: int)
      modifies this
      ensures eventBag == old(eventBag) + [Delete(path, FileName(path), None, now)]
      ensures eventListeners == old(eventListeners) && delivered == old(delivered)
    {
      eventBag := eventBag + [Delete(path, FileName(path), None, now)];
    }

    /**
     * `run`: nothing happens on an empty bag; otherwise the bag is copied
     * and emptied, and every listener is handed the copy in timestamp order.
     */
    method Run()
      modifies this
      ensures old(eventBag) == [] ==> eventBag == [] && delivered == old(delivered)
      ensures old(eventBag) != [] ==>
                eventBag == [] && delivered == old(delivered) + Deliveries(eventListeners, SortByTime(old(eventBag)))
      ensures eventListeners == old(eventListeners)
    {
      if |eventBag| < 1 {
        return;
      }
      var aggregatedEvents: seq<Event> := [];
      for i := 0 to |eventBag|
        invariant aggregatedEvents == eventBag[..i]
      {
        var event := eventBag[i];
        match event {
          case Create(path, name, hash, timestamp) =>
            aggregatedEvents := aggregatedEvents + [Create(path, name, hash, timestamp)];
          case Modify(path, name, hash, timestamp) =>
            aggregatedEvents := aggregatedEvents + [Modify(path, name, hash, timestamp)];
          case Delete(path, name, hash, timestamp) =>
            aggregatedEvents := aggregatedEvents + [Delete(path, name, hash, timestamp)];
          case Move(path, newPath, name, hash, timestamp) =>
            aggregatedEvents := aggregatedEvents + [Move(path, newPath, name, hash, timestamp)];
        }
      }
      assert aggregatedEvents == old(eventBag);
      eventBag := [];
      aggregatedEvents := SortByTime(aggregatedEvents);
      for i := 0 to |eventListeners|
        invariant eventBag == [] && eventListeners == old(eventListeners)
        invariant delivered == old(delivered) + Deliveries(eventListeners[..i], aggregatedEvents)
      {
        DeliveriesAppend(eventListeners[..i], eventListeners[i], aggregatedEvents);
        assert eventListeners[..i + 1] == eventListeners[..i] + [eventListeners[i]];
        delivered := delivered + [Delivery(eventListeners[i], aggregatedEvents)];
      }
      assert eventListeners[..|eventListeners|] == eventListeners;
    }

    /** `addListener`: the listener is registered last. */
    method AddListener(listener: Listener)
      modifies this
      ensures eventListeners == old(eventListeners) + [listener]
      ensures eventBag == old(eventBag) && delivered == old(delivered)
    {
      eventListeners := eventListeners + [listener];
    }

    /** `removeListener`: the first registration of the listener is withdrawn. */
    method RemoveListener(listener: Listener)
      modifies this
      ensures eventListeners == RemoveFirst(old(eventListeners), (l: Listener) => l == listener)
      ensures eventBag == old(eventBag) && delivered == old(delivered)
    {
      eventListeners := RemoveFirst(eventListeners, (l: Listener) => l == listener);
    }

    /** `getListener`. */
    function GetListener(): seq<Listener>
      reads this
    {
      eventListeners
    }
  }
}
