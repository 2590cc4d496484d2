/**
  The backend's queue operations read as queue traffic: a capture that is
  not opted out is an `Add` of the event it queues, a drain is a `Take`,
  and completing the `i`-th batch still in flight is a `Settle`. Because the
  backend moves events exactly as the traffic model does, the traffic
  lemmas (nothing lost or duplicated; capture order kept when flushes do not
  overlap) hold of the backend itself. Events are compared as queued; what
  their shared `$groups` map holds when posted is `JvmBackend.Sent`'s concern.
*/
module BackendTraffic {
  import opened Wrappers
  import opened JsonValues
  import opened EventQueue
  import FlagStore
  import JvmBackend

  /** The backend, the batches its drains took that are still being posted, and what the server received. */
  datatype System = System(backend: JvmBackend.Backend, inFlight: seq<seq<Event>>, delivered: seq<Event>)

  /** A backend call that touches the queue. */
  datatype Call =
    | CaptureCall(name: string, props: Option<map<string, Json>>, now: string)
    | DrainCall                                 // the first half of a `flushEvents()`
    | CompleteCall(index: nat, outcome: Outcome) // the second half of the `index`-th one still in flight

  function Perform(s: System, c: Call): System {
    match c
    case CaptureCall(name, props, now) => s.(backend := JvmBackend.Capture(s.backend, name, props, now).next)
    case DrainCall =>
      var d := JvmBackend.FlushDrain(s.backend);
      if d.batch == [] then s.(backend := d.next) else s.(backend := d.next, inFlight := s.inFlight + [d.batch])
    case CompleteCall(i, o) =>
      if i >= |s.inFlight| then s
      else
        var batch := s.inFlight[i];
        s.(backend := JvmBackend.FlushComplete(s.backend, batch, o),
           inFlight := s.inFlight[..i] + s.inFlight[i + 1..],
           delivered := if o == Delivered then s.delivered + batch else s.delivered)
  }

  /**
    The traffic a call amounts to: nothing for a capture while opted out or a
    drain without configuration or client.
  */
  function ActionsOf(s: System, c: Call): seq<Action> {
    match c
    case CaptureCall(name, props, now) =>
      if s.backend.optedOut then [] else [Add(JvmBackend.CapturedEvent(s.backend, name, props, now))]
    case DrainCall => if s.backend.config.Some? && s.backend.hasClient then [Take] else []
    case CompleteCall(i, o) => [Settle(i, o)]
  }

  function TrafficOf(s: System): Traffic {
    Traffic(s.backend.queue, s.inFlight, s.delivered)
  }

  lemma CaptureIsAdd(s: System, name: string, props: Option<map<string, Json>>, now: string)
    ensures TrafficOf(Perform(s, CaptureCall(name, props, now)))
            == Run(TrafficOf(s), ActionsOf(s, CaptureCall(name, props, now)))
  {
    if !s.backend.optedOut {
      RunSnoc(TrafficOf(s), [], Add(JvmBackend.CapturedEvent(s.backend, name, props, now)));
    }
  }

  lemma DrainIsTake(s: System)
    ensures TrafficOf(Perform(s, DrainCall)) == Run(TrafficOf(s), ActionsOf(s, DrainCall))
  {
    if s.backend.config.Some? && s.backend.hasClient {
      RunSnoc(TrafficOf(s), [], Take);
    }
  }

  lemma CompleteIsSettle(s: System, i: nat, o: Outcome)
    ensures TrafficOf(Perform(s, CompleteCall(i, o))) == Run(TrafficOf(s), ActionsOf(s, CompleteCall(i, o)))
  {
    RunSnoc(TrafficOf(s), [], Settle(i, o));
  }

  /** One backend call moves queue, batches and deliveries exactly as its traffic actions do. */
  lemma PerformIsApply(s: System, c: Call)
    ensures TrafficOf(Perform(s, c)) == Run(TrafficOf(s), ActionsOf(s, c))
  {
    match c
    case CaptureCall(name, props, now) => CaptureIsAdd(s, name, props, now);
    case DrainCall => DrainIsTake(s);
    case CompleteCall(i, o) => CompleteIsSettle(s, i, o);
  }

  /** The system after `calls`, in order. */
  function Final(s: System, calls: seq<Call>): System
    decreases |calls|
  {
    if calls == [] then s else Perform(Final(s, calls[..|calls| - 1]), calls[|calls| - 1])
  }

  /** The traffic actions `calls` amount to, each read in the state it runs in. */
  function Abstract(s: System, calls: seq<Call>): seq<Action>
    decreases |calls|
  {
    if calls == [] then []
    else
      var init := calls[..|calls| - 1];
      Abstract(s, init) + ActionsOf(Final(s, init), calls[|calls| - 1])
  }

  /** Any sequence of backend calls moves events exactly as the traffic it amounts to. */
  lemma {:induction false} TraceIsRun(s: System, calls: seq<Call>)
    ensures TrafficOf(Final(s, calls)) == Run(TrafficOf(s), Abstract(s, calls))
    decreases |calls|
  {
    if calls == [] {
    } else {
      var init := calls[..|calls| - 1];
      var last := calls[|calls| - 1];
      TraceIsRun(s, init);
      PerformIsApply(Final(s, init), last);
      RunAppend(TrafficOf(s), Abstract(s, init), ActionsOf(Final(s, init), last));
    }
  }

  /** The system of a backend with an empty queue and nothing in flight. */
  function Idle(b: JvmBackend.Backend): System {
    System(b, [], [])
  }

  /**
    From an empty queue, whatever calls follow, every event the backend
    queued is exactly once delivered, in flight or queued.
  */
  lemma BackendLosesNothing(b: JvmBackend.Backend, calls: seq<Call>)
    requires b.queue == []
    ensures var s := Final(Idle(b), calls);
      multiset(s.delivered) + multiset(Flatten(s.inFlight)) + multiset(s.backend.queue)
        == multiset(Added(Abstract(Idle(b), calls)))
  {
    TraceIsRun(Idle(b), calls);
    assert TrafficOf(Idle(b)) == Quiet;
    NothingLostOrDuplicated(Abstract(Idle(b), calls));
  }

  /**
    From an empty queue, when no drain starts while a batch is in flight,
    the server receives events in the order they were queued.
  */
  lemma BackendSerialFlushesKeepOrder(b: JvmBackend.Backend, calls: seq<Call>)
    requires b.queue == [] && Serial(Abstract(Idle(b), calls))
    ensures var s := Final(Idle(b), calls);
      s.delivered + Flatten(s.inFlight) + s.backend.queue == Added(Abstract(Idle(b), calls))
  {
    TraceIsRun(Idle(b), calls);
    assert TrafficOf(Idle(b)) == Quiet;
    SerialFlushesKeepCaptureOrder(Abstract(Idle(b), calls));
  }

  /** A flush task run to its end is a drain followed at once by completing that batch. */
  lemma FlushTaskIsDrainThenComplete(s: System, delivery: Outcome, sync: FlagStore.SyncOutcome)
    requires !s.backend.scopeCancelled
    ensures Final(s, [DrainCall, CompleteCall(|s.inFlight|, delivery)]).backend
            == JvmBackend.RunTask(s.backend, JvmBackend.FlushTask, delivery, sync).next
  {
    var calls := [DrainCall, CompleteCall(|s.inFlight|, delivery)];
    assert calls[..1] == [DrainCall] && [DrainCall][..0] == [];
    var drained := Perform(s, DrainCall);
    assert Final(s, calls) == Perform(drained, CompleteCall(|s.inFlight|, delivery));
  }
}
