/**
 * The promise of the transactional outbox, with three actions and nothing
 * about locks, leases, workers or retries: an event is enqueued once, may be
 * delivered any number of times after that, and is acknowledged only after a
 * delivery.
 */
module DeliverySpec {
  import opened OutboxModel

  datatype Fact = Fact(message: Message, createdAt: Time)

  datatype Spec = Spec(events: map<EventId, Fact>, log: seq<Message>, acked: set<EventId>)

  datatype SpecAction =
    | Stutter
    | Enqueue(more: map<EventId, Fact>)
    | Deliver(id: EventId)
    | Acknowledge(id: EventId)

  const EMPTY := Spec(map[], [], {})

  predicate SpecEnabled(x: Spec, a: SpecAction) {
    match a
    case Stutter => true
    case Enqueue(more) => more.Keys !! x.events.Keys
    case Deliver(id) => id in x.events
    case Acknowledge(id) => id in x.events && x.events[id].message in x.log
  }

  function SpecStep(x: Spec, a: SpecAction): Spec
    requires SpecEnabled(x, a)
  {
    match a
    case Stutter => x
    case Enqueue(more) => x.(events := x.events + more)
    case Deliver(id) => x.(log := x.log + [x.events[id].message])
    case Acknowledge(id) => x.(acked := x.acked + {id})
  }

  predicate SpecRun(x: Spec, run: seq<SpecAction>)
    decreases |run|
  {
    run == [] || (SpecEnabled(x, run[0]) && SpecRun(SpecStep(x, run[0]), run[1..]))
  }

  function SpecExec(x: Spec, run: seq<SpecAction>): Spec
    requires SpecRun(x, run)
    decreases |run|
  {
    if run == [] then x else SpecExec(SpecStep(x, run[0]), run[1..])
  }

  /** Acknowledged means delivered, and only enqueued events are delivered. */
  ghost predicate Safe(x: Spec) {
    && (forall id | id in x.acked :: id in x.events && x.events[id].message in x.log)
    && (forall m | m in x.log :: exists id :: id in x.events && x.events[id].message == m)
  }

  /** Nothing is forgotten, altered or un-acknowledged. */
  ghost predicate Extends(x: Spec, y: Spec) {
    && x.events.Keys <= y.events.Keys
    && (forall id | id in x.events :: y.events[id] == x.events[id])
    && x.log <= y.log
    && x.acked <= y.acked
  }

  lemma SpecStepSafe(x: Spec, a: SpecAction)
    requires SpecEnabled(x, a) && Safe(x)
    ensures Safe(SpecStep(x, a)) && Extends(x, SpecStep(x, a))
  {
    var y := SpecStep(x, a);
    forall m | m in y.log
      ensures exists id :: id in y.events && y.events[id].message == m
    {
      if m in x.log {
        var id :| id in x.events && x.events[id].message == m;
        assert y.events[id].message == m;
      }
    }
  }

  lemma {:induction false} SpecRunSafe(x: Spec, run: seq<SpecAction>)
    requires SpecRun(x, run) && Safe(x)
    ensures Safe(SpecExec(x, run)) && Extends(x, SpecExec(x, run))
    decreases |run|
  {
    if run != [] {
      SpecStepSafe(x, run[0]);
      SpecRunSafe(SpecStep(x, run[0]), run[1..]);
    }
  }
}
