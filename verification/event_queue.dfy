/**
  The backend's ordered event queue, and a model of the traffic through it:
  captures append, a flush takes the whole queue as one batch, and a batch
  whose delivery threw goes back to the head of the queue.
*/
module EventQueue {
  import opened Wrappers
  import opened JsonValues

  /**
    A queued event: name, merged properties as they were at capture time, and
    ISO-8601 timestamp. The properties map holds references, not copies: when
    its `$groups` entry is one of the membership maps the backend created and
    keeps changing in place, `sharedGroups` says which one, and the event is
    sent with that map's content at send time.
  */
  datatype Event = Event(name: string, properties: map<string, Json>, timestamp: string,
                         sharedGroups: Option<nat>)

  /** `eventQueue.add(e)`: one event at the tail, earlier events untouched. */
  function Enqueue(q: seq<Event>, e: Event): (r: seq<Event>)
    ensures |r| == |q| + 1
    ensures r[..|q|] == q && r[|q|] == e
  {
    q + [e]
  }

  /** `eventQueue.addAll(0, batch)`: the batch, in order, ahead of everything queued. */
  function Requeue(batch: seq<Event>, q: seq<Event>): (r: seq<Event>)
    ensures |r| == |batch| + |q|
    ensures r[..|batch|] == batch && r[|batch|..] == q
  {
    batch + q
  }

  /** How a delivery attempt ended: any HTTP status counts as delivered. */
  datatype Outcome = Delivered | Threw

  /**
    One step of queue traffic. `Take` is a flush draining the queue; `Settle`
    ends the delivery of the `index`-th batch still in flight. Flushes are not
    serialised, so several batches can be in flight at once.
  */
  datatype Action = Add(e: Event) | Take | Settle(index: nat, outcome: Outcome)

  /** The queue, the batches in flight (oldest first) and what the server received. */
  datatype Traffic = Traffic(queue: seq<Event>, inFlight: seq<seq<Event>>, delivered: seq<Event>)

  const Quiet: Traffic := Traffic([], [], [])

  function Apply(t: Traffic, a: Action): Traffic {
    match a
    case Add(e) => t.(queue := Enqueue(t.queue, e))
    case Take =>
      if t.queue == [] then t else t.(queue := [], inFlight := t.inFlight + [t.queue])
    case Settle(i, o) =>
      if i >= |t.inFlight| then t
      else
        var batch := t.inFlight[i];
        var rest := t.inFlight[..i] + t.inFlight[i + 1..];
        match o
        case Delivered => t.(inFlight := rest, delivered := t.delivered + batch)
        case Threw => t.(inFlight := rest, queue := Requeue(batch, t.queue))
  }

  /** The traffic after `actions`, applied in order from `t`. */
  function Run(t: Traffic, actions: seq<Action>): Traffic
    decreases |actions|
  {
    if actions == [] then t
    else Apply(Run(t, actions[..|actions| - 1]), actions[|actions| - 1])
  }

  /** The events captured by `actions`, in capture order. */
  function Added(actions: seq<Action>): seq<Event>
    decreases |actions|
  {
    if actions == [] then []
    else
      var last := actions[|actions| - 1];
      Added(actions[..|actions| - 1]) + (if last.Add? then [last.e] else [])
  }

  /** A run in which a flush only starts when no other batch is in flight. */
  predicate Serial(actions: seq<Action>)
    decreases |actions|
  {
    actions == [] ||
    (Serial(actions[..|actions| - 1]) &&
     (actions[|actions| - 1].Take? ==> Run(Quiet, actions[..|actions| - 1]).inFlight == []))
  }

  function Flatten(batches: seq<seq<Event>>): seq<Event>
    decreases |batches|
  {
    if batches == [] then [] else batches[0] + Flatten(batches[1..])
  }

  lemma {:induction false} FlattenAppend(xs: seq<seq<Event>>, ys: seq<seq<Event>>)
    ensures Flatten(xs + ys) == Flatten(xs) + Flatten(ys)
    decreases |xs|
  {
    if xs == [] {
      assert xs + ys == ys;
    } else {
      assert (xs + ys)[1..] == xs[1..] + ys;
      FlattenAppend(xs[1..], ys);
    }
  }

  /** Removing the `i`-th batch removes exactly its events from the flattened view. */
  lemma FlattenRemove(bs: seq<seq<Event>>, i: nat)
    requires i < |bs|
    ensures var rest := bs[..i] + bs[i + 1..];
      multiset(Flatten(bs)) == multiset(Flatten(rest)) + multiset(bs[i])
  {
    assert bs == bs[..i] + ([bs[i]] + bs[i + 1..]);
    FlattenAppend(bs[..i], [bs[i]] + bs[i + 1..]);
    FlattenAppend([bs[i]], bs[i + 1..]);
    FlattenAppend(bs[..i], bs[i + 1..]);
    assert Flatten([bs[i]]) == bs[i] + Flatten([]);
  }

  /** Every event of the traffic, counted wherever it is. */
  function Accounted(t: Traffic): multiset<Event> {
    multiset(t.delivered) + multiset(Flatten(t.inFlight)) + multiset(t.queue)
  }

  /** Taking the queue moves its events into flight. */
  lemma TakeAccounts(t: Traffic)
    ensures Accounted(Apply(t, Take)) == Accounted(t)
  {
    if t.queue != [] {
      FlattenAppend(t.inFlight, [t.queue]);
      assert Flatten([t.queue]) == t.queue + Flatten([]);
    }
  }

  /** Settling a batch moves its events out of flight, to the server or back to the queue. */
  lemma SettleAccounts(t: Traffic, i: nat, o: Outcome)
    ensures Accounted(Apply(t, Settle(i, o))) == Accounted(t)
  {
    if i < |t.inFlight| {
      FlattenRemove(t.inFlight, i);
      var rest := t.inFlight[..i] + t.inFlight[i + 1..];
      assert multiset(Flatten(t.inFlight)) == multiset(Flatten(rest)) + multiset(t.inFlight[i]);
    }
  }

  /** One step moves events around but only `Add` brings a new one in. */
  lemma ApplyAccounts(t: Traffic, a: Action)
    ensures Accounted(Apply(t, a)) == Accounted(t) + (if a.Add? then multiset{a.e} else multiset{})
  {
    match a
    case Add(e) =>
    case Take => TakeAccounts(t);
    case Settle(i, o) => SettleAccounts(t, i, o);
  }

  /** Every event captured by `actions` is counted exactly once in the traffic they leave. */
  predicate Conserved(actions: seq<Action>) {
    Accounted(Run(Quiet, actions)) == multiset(Added(actions))
  }

  /**
    Whatever the interleaving of captures, flushes and delivery outcomes,
    every captured event is exactly once either delivered, in flight or
    queued: no event is lost and none is duplicated.
  */
  lemma {:induction false} NothingLostOrDuplicated(actions: seq<Action>)
    ensures Conserved(actions)
    decreases |actions|
  {
    if actions != [] {
      var init := actions[..|actions| - 1];
      var last := actions[|actions| - 1];
      NothingLostOrDuplicated(init);
      ApplyAccounts(Run(Quiet, init), last);
      assert Added(actions) == Added(init) + (if last.Add? then [last.e] else []);
    }
  }

  /** The order view of traffic: delivered, then in flight, then queued. */
  function Order(t: Traffic): seq<Event> {
    t.delivered + Flatten(t.inFlight) + t.queue
  }

  /** Settling the only batch in flight keeps the order view. */
  lemma SettleOnlyBatchKeepsOrder(t: Traffic, i: nat, o: Outcome)
    requires |t.inFlight| <= 1
    ensures |Apply(t, Settle(i, o)).inFlight| <= 1
    ensures Order(Apply(t, Settle(i, o))) == Order(t)
  {
    if i < |t.inFlight| {
      assert i == 0 && t.inFlight == [t.inFlight[0]];
      assert Flatten(t.inFlight) == t.inFlight[0] + Flatten([]);
      assert t.inFlight[..i] + t.inFlight[i + 1..] == [];
    }
  }

  /** One serial step keeps at most one batch in flight and only appends to the order view. */
  lemma SerialStep(t: Traffic, a: Action)
    requires |t.inFlight| <= 1
    requires a.Take? ==> t.inFlight == []
    ensures |Apply(t, a).inFlight| <= 1
    ensures Order(Apply(t, a)) == Order(t) + (if a.Add? then [a.e] else [])
  {
    match a
    case Add(e) =>
      assert t.delivered + Flatten(t.inFlight) + (t.queue + [e])
          == (t.delivered + Flatten(t.inFlight) + t.queue) + [e];
    case Take =>
      if t.queue != [] {
        assert t.inFlight + [t.queue] == [t.queue];
        assert Flatten([t.queue]) == t.queue + Flatten([]);
      }
    case Settle(i, o) =>
      SettleOnlyBatchKeepsOrder(t, i, o);
  }

  /** In a serial run at most one batch is in flight, and order is never disturbed. */
  lemma {:induction false} SerialInvariant(actions: seq<Action>)
    requires Serial(actions)
    ensures var t := Run(Quiet, actions);
      |t.inFlight| <= 1 && Order(t) == Added(actions)
    decreases |actions|
  {
    if actions != [] {
      var init := actions[..|actions| - 1];
      var last := actions[|actions| - 1];
      SerialInvariant(init);
      SerialStep(Run(Quiet, init), last);
    }
  }

  /**
    When flushes do not overlap, the server receives events in capture order,
    across any number of failed attempts: what was delivered, then what is in
    flight, then what is queued, is exactly the capture sequence.
  */
  lemma SerialFlushesKeepCaptureOrder(actions: seq<Action>)
    requires Serial(actions)
    ensures var t := Run(Quiet, actions);
      t.delivered + Flatten(t.inFlight) + t.queue == Added(actions)
    ensures Run(Quiet, actions).delivered <= Added(actions)
  {
    SerialInvariant(actions);
  }

  lemma RunSnoc(t: Traffic, actions: seq<Action>, a: Action)
    ensures Run(t, actions + [a]) == Apply(Run(t, actions), a)
  {
    assert (actions + [a])[..|actions|] == actions;
  }

  /** Running two action lists one after the other is running their concatenation. */
  lemma {:induction false} RunAppend(t: Traffic, xs: seq<Action>, ys: seq<Action>)
    ensures Run(t, xs + ys) == Run(Run(t, xs), ys)
    decreases |ys|
  {
    if ys == [] {
      assert xs + ys == xs;
    } else {
      var init := ys[..|ys| - 1];
      var last := ys[|ys| - 1];
      assert xs + ys == (xs + init) + [last];
      assert ys == init + [last];
      RunSnoc(t, xs + init, last);
      RunAppend(t, xs, init);
      RunSnoc(Run(t, xs), init, last);
    }
  }

  /** The events captured by two action lists in a row. */
  lemma {:induction false} AddedAppend(xs: seq<Action>, ys: seq<Action>)
    ensures Added(xs + ys) == Added(xs) + Added(ys)
    decreases |ys|
  {
    if ys == [] {
      assert xs + ys == xs;
    } else {
      var init := ys[..|ys| - 1];
      var last := ys[|ys| - 1];
      assert (xs + ys)[..|xs + ys| - 1] == xs + init;
      AddedAppend(xs, init);
    }
  }

  /** The queue after two overlapping flushes of `a` and `b` that both threw, the older settling first. */
  lemma OverlappingRun(a: Event, b: Event)
    ensures Run(Quiet, [Add(a), Take, Add(b), Take, Settle(0, Threw), Settle(0, Threw)]).queue == [b, a]
  {
    var s0: seq<Action> := [];
    var s1 := s0 + [Add(a)];
    var s2 := s1 + [Take];
    var s3 := s2 + [Add(b)];
    var s4 := s3 + [Take];
    var s5 := s4 + [Settle(0, Threw)];
    var s6 := s5 + [Settle(0, Threw)];
    RunSnoc(Quiet, s0, Add(a));
    RunSnoc(Quiet, s1, Take);
    RunSnoc(Quiet, s2, Add(b));
    RunSnoc(Quiet, s3, Take);
    RunSnoc(Quiet, s4, Settle(0, Threw));
    RunSnoc(Quiet, s5, Settle(0, Threw));
    assert Run(Quiet, s4) == Traffic([], [[a], [b]], []);
    assert Run(Quiet, s5) == Traffic([a], [[b]], []);
    assert s6 == [Add(a), Take, Add(b), Take, Settle(0, Threw), Settle(0, Threw)];
  }

  /** The events captured by that run: `a`, then `b`. */
  lemma OverlappingAdded(a: Event, b: Event)
    ensures Added([Add(a), Take, Add(b), Take, Settle(0, Threw), Settle(0, Threw)]) == [a, b]
  {
    var s0: seq<Action> := [];
    var s1 := s0 + [Add(a)];
    var s2 := s1 + [Take];
    var s3 := s2 + [Add(b)];
    var s4 := s3 + [Take];
    var s5 := s4 + [Settle(0, Threw)];
    var s6 := s5 + [Settle(0, Threw)];
    assert s6 == [Add(a), Take, Add(b), Take, Settle(0, Threw), Settle(0, Threw)];
    assert s6[..5] == s5 && s5[..4] == s4 && s4[..3] == s3 && s3[..2] == s2 && s2[..1] == s1 && s1[..0] == s0;
    assert Added(s1) == [a];
    assert Added(s3) == Added(s2) + [b] == [a, b];
    assert Added(s6) == Added(s5) == Added(s4) == Added(s3);
  }

  /**
    Flushes are not serialised: when two overlapping flushes both throw and
    the older one settles first, the newer batch is requeued ahead of it and
    the queue ends up in the reverse of capture order.
  */
  lemma OverlappingFailedFlushesReorder(a: Event, b: Event)
    requires a != b
    ensures var actions := [Add(a), Take, Add(b), Take, Settle(0, Threw), Settle(0, Threw)];
      Added(actions) == [a, b] && Run(Quiet, actions).queue == [b, a]
  {
    OverlappingRun(a, b);
    OverlappingAdded(a, b);
  }
}
