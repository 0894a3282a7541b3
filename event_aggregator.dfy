/**
 * `EventAggregator`: receives each batch the event bag hands over, passes
 * it through the registered modifiers and then the registered aggregators,
 * and notifies its own listeners of a non-empty result.
 *
 * A modifier or an aggregator is a function from a batch to a batch with
 * an identity; the ones of this model are `MoveAggregator.Aggregate`,
 * `IgnorePathsModifier.Modified` and the others, each partially applied to
 * its configuration.
 */
module Aggregation {
  import opened Events
  import opened Seqs
  import opened Sorting
  import opened Listeners

  /** Java's `long`. */
  newtype Long = x: int | -0x8000_0000_0000_0000 <= x < 0x8000_0000_0000_0000

  /** `DEFAULT_AGGREGATION_INTERVAL`, in milliseconds. */
  const DefaultAggregationInterval: Long := 5000

  /** A registered modifier or aggregator; `id` stands for the object's identity. */
  datatype Stage = Stage(id: nat, apply: seq<Event> -> seq<Event>)

  /** The batch after each stage in turn has been applied to the previous one's output. */
  function Apply(stages: seq<Stage>, events: seq<Event>): seq<Event>
    decreases |stages|
  {
    if stages == [] then events else Apply(stages[1..], stages[0].apply(events))
  }

  /** Running two lists of stages one after the other is running their concatenation. */
  lemma {:induction false} ApplyAppend(a: seq<Stage>, b: seq<Stage>, events: seq<Event>)
    ensures Apply(a + b, events) == Apply(b, Apply(a, events))
    decreases |a|
  {
    if a != [] {
      assert (a + b)[1..] == a[1..] + b;
      ApplyAppend(a[1..], b, a[0].apply(events));
    } else {
      assert a + b == b;
    }
  }

  /** The stage registered last runs last, on the output of all the others. */
  lemma ApplyLast(stages: seq<Stage>, last: Stage, events: seq<Event>)
    ensures Apply(stages + [last], events) == last.apply(Apply(stages, events))
  {
    ApplyAppend(stages, [last], events);
  }

  /** What `onChange` makes of a batch: sorted, then modified, then aggregated. */
  function Pipeline(events: seq<Event>, modifiers: seq<Stage>, aggregators: seq<Stage>): seq<Event> {
    Apply(aggregators, Apply(modifiers, SortByTime(events)))
  }

  /** The modifiers and then the aggregators form one chain, each stage fed the previous one's output. */
  lemma PipelineIsOneChain(events: seq<Event>, modifiers: seq<Stage>, aggregators: seq<Stage>)
    ensures Pipeline(events, modifiers, aggregators) == Apply(modifiers + aggregators, SortByTime(events))
  {
    ApplyAppend(modifiers, aggregators, SortByTime(events));
  }

  /** With nothing registered, the batch passes through sorted and otherwise unchanged. */
  lemma NoStages(events: seq<Event>)
    ensures Pipeline(events, [], []) == SortByTime(events)
    ensures Sorted(Pipeline(events, [], [])) && multiset(Pipeline(events, [], [])) == multiset(events)
  {
  }

  /** The calls `onChange` makes for a batch: none for an empty result, otherwise one per registration. */
  function Notifications(listeners: seq<Listener>, result: seq<Event>): (r: seq<Delivery>)
    ensures result == [] ==> r == []
    ensures result != [] ==> |r| == |listeners| &&
                             forall i :: 0 <= i < |listeners| ==> r[i] == Delivery(listeners[i], result)
  {
    DeliveredOncePerRegistration(listeners, result, Listener(0));
    if result == [] then [] else Deliveries(listeners, result)
  }

  /** Each stage in registration order, fed the previous one's output. */
  method RunStages(stages: seq<Stage>, events: seq<Event>) returns (current: seq<Event>)
    ensures current == Apply(stages, events)
  {
    current := events;
    for i := 0 to |stages|
      invariant current == Apply(stages[..i], events)
    {
      ApplyLast(stages[..i], stages[i], events);
      assert stages[..i + 1] == stages[..i] + [stages[i]];
      current := stages[i].apply(current);
    }
    assert stages[..|stages|] == stages;
  }

  class EventAggregator {
    /** The root of the synchronised folder, fixed once constructed. */
    const rootPath: Path
    var eventListener: seq<Listener>
    var modifiers: seq<Stage>
    var aggregators: seq<Stage>
    var aggregationInterval: Long
    /** Every notification made so far, oldest first. */
    ghost var delivered: seq<Delivery>

    /** Registries empty, the default interval; the path watcher is not part of this model. */
    constructor(rootPath: Path)
      ensures this.rootPath == rootPath
      ensures eventListener == [] && modifiers == [] && aggregators == [] && delivered == []
      ensures aggregationInterval == DefaultAggregationInterval
    {
      this.rootPath := rootPath;
      aggregationInterval := DefaultAggregationInterval;
      eventListener := [];
      aggregators := [];
      modifiers := [];
      delivered := [];
    }

    method AddListener(listener: Listener)
      modifies this
      ensures eventListener == old(eventListener) + [listener]
      ensures modifiers == old(modifiers) && aggregators == old(aggregators)
      ensures aggregationInterval == old(aggregationInterval) && delivered == old(delivered)
    {
      eventListener := eventListener + [listener];
    }

    method RemoveListener(listener: Listener)
      modifies this
      ensures eventListener == RemoveFirst(old(eventListener), (l: Listener) => l == listener)
      ensures modifiers == old(modifiers) && aggregators == old(aggregators)
      ensures aggregationInterval == old(aggregationInterval) && delivered == old(delivered)
    {
      eventListener := RemoveFirst(eventListener, (l: Listener) => l == listener);
    }

    function GetListeners(): seq<Listener>
      reads this
    {
      eventListener
    }

    method AddAggregator(aggregator: Stage)
      modifies this
      ensures aggregators == old(aggregators) + [aggregator]
      ensures eventListener == old(eventListener) && modifiers == old(modifiers)
      ensures aggregationInterval == old(aggregationInterval) && delivered == old(delivered)
    {
      aggregators := aggregators + [aggregator];
    }

    method RemoveAggregator(aggregator: Stage)
      modifies this
      ensures aggregators == RemoveFirst(old(aggregators), (s: Stage) => s.id == aggregator.id)
      ensures eventListener == old(eventListener) && modifiers == old(modifiers)
      ensures aggregationInterval == old(aggregationInterval) && delivered == old(delivered)
    {
      aggregators := RemoveFirst(aggregators, (s: Stage) => s.id == aggregator.id);
    }

    function GetAggregators(): seq<Stage>
      reads this
    {
      aggregators
    }

    method AddModifier(modifier: Stage)
      modifies this
      ensures modifiers == old(modifiers) + [modifier]
      ensures eventListener == old(eventListener) && aggregators == old(aggregators)
      ensures aggregationInterval == old(aggregationInterval) && delivered == old(delivered)
    {
      modifiers := modifiers + [modifier];
    }

    method RemoveModifier(modifier: Stage)
      modifies this
      ensures modifiers == RemoveFirst(old(modifiers), (s: Stage) => s.id == modifier.id)
      ensures eventListener == old(eventListener) && aggregators == old(aggregators)
      ensures aggregationInterval == old(aggregationInterval) && delivered == old(delivered)
    {
      modifiers := RemoveFirst(modifiers, (s: Stage) => s.id == modifier.id);
    }

    function GetModifiers(): seq<Stage>
      reads this
    {
      modifiers
    }

    method SetAggregationInterval(milliSeconds: Long)
      modifies this
      ensures aggregationInterval == milliSeconds
      ensures eventListener == old(eventListener) && modifiers == old(modifiers)
      ensures aggregators == old(aggregators) && delivered == old(delivered)
    {
      aggregationInterval := milliSeconds;
    }

    function GetAggregationInterval(): (ms: Long)
      reads this
    {
      aggregationInterval
    }

    /**
     * `onChange`: sort the batch, run it through each modifier and then
     * each aggregator in registration order, and hand a non-empty result
     * to every listener.
     */
    method OnChange(events: seq<Event>)
      modifies this
      ensures delivered == old(delivered) + Notifications(eventListener, Pipeline(events, modifiers, aggregators))
      ensures eventListener == old(eventListener) && modifiers == old(modifiers)
      ensures aggregators == old(aggregators) && aggregationInterval == old(aggregationInterval)
    {
      var sorted := SortByTime(events);
      var modified := RunStages(modifiers, sorted);
      var aggregated := RunStages(aggregators, modified);
      if aggregated == [] {
        return;
      }
      Notify(aggregated);
    }

    /** Hands the result to every registered listener, in registration order. */
    method Notify(result: seq<Event>)
      modifies this
      ensures delivered == old(delivered) + Deliveries(eventListener, result)
      ensures eventListener == old(eventListener) && modifiers == old(modifiers)
      ensures aggregators == old(aggregators) && aggregationInterval == old(aggregationInterval)
    {
      for i := 0 to |eventListener|
        invariant eventListener == old(eventListener) && modifiers == old(modifiers)
        invariant aggregators == old(aggregators) && aggregationInterval == old(aggregationInterval)
        invariant delivered == old(delivered) + Deliveries(eventListener[..i], result)
      {
        DeliveriesAppend(eventListener[..i], eventListener[i], result);
        assert eventListener[..i + 1] == eventListener[..i] + [eventListener[i]];
        delivered := delivered + [Delivery(eventListener[i], result)];
      }
      assert eventListener[..|eventListener|] == eventListener;
    }
  }

  /** Registering a stage and withdrawing it again restores a registry that held no stage of that identity. */
  lemma AddThenRemoveStage(stages: seq<Stage>, stage: Stage)
    requires forall k :: 0 <= k < |stages| ==> stages[k].id != stage.id
    ensures RemoveFirst(stages + [stage], (s: Stage) => s.id == stage.id) == stages
  {
    AddThenRemove(stages, stage, (s: Stage) => s.id == stage.id);
  }

  /** Registering a listener and withdrawing it again restores a registry it was not in. */
  lemma AddThenRemoveListener(listeners: seq<Listener>, listener: Listener)
    requires listener !in listeners
    ensures RemoveFirst(listeners + [listener], (l: Listener) => l == listener) == listeners
  {
    AddThenRemove(listeners, listener, (l: Listener) => l == listener);
  }
}
