/** The queue worker: each delivery is acknowledged or rejected, and a failed message is published again once. */
module WorkerQueue {
  import opened Common

  /** lineage: the message first published; retries: the payload's retry_count, absent in a fresh message. */
  datatype Message = Message(lineage: nat, retries: Option<nat>)

  /** A delivery settled by the worker. */
  datatype Settlement = Settlement(message: Message, acknowledged: bool)

  /** The queue, the rows of failed events and what was settled so far. */
  datatype Broker = Broker(queue: seq<Message>, failedEvents: seq<Message>, settled: seq<Settlement>)

  const MAX_HANDLINGS: nat := 2

  function RetryCount(m: Message): nat {
    if m.retries.Some? then m.retries.value else 0
  }

  /** The payload after a failure. */
  function Failed(m: Message): Message {
    m.(retries := Some(RetryCount(m) + 1))
  }

  /** Delivery of the i-th message; the broker may deliver in any order. */
  function Deliver(b: Broker, i: nat, fails: bool): Broker {
    if i >= |b.queue| then b
    else
      var m, rest := b.queue[i], b.queue[..i] + b.queue[i + 1..];
      if !fails then b.(queue := rest, settled := b.settled + [Settlement(m, true)])
      else Broker(if RetryCount(m) + 1 < MAX_HANDLINGS then rest + [Failed(m)] else rest,
                  b.failedEvents + [Failed(m)], b.settled + [Settlement(m, false)])
  }

  /** The message a failure records: the same lineage, one more retry. */
  predicate IsRetryOf(m: Message, failed: Message) {
    failed.lineage == m.lineage
    && failed.retries == Some(if m.retries == None then 1 else m.retries.value + 1)
  }

  /**
   What handling one message does: it leaves the queue and is acknowledged or rejected. A failure is recorded with its
   retry, which goes to the end of the queue when the message was not a retry itself.
   */
  ghost predicate Handles(before: Broker, m: Message, rest: seq<Message>, fails: bool, after: Broker) {
    && after.settled == before.settled + [Settlement(m, !fails)]
    && (!fails ==> after.queue == rest && after.failedEvents == before.failedEvents)
    && (fails ==>
          && |after.failedEvents| == |before.failedEvents| + 1 && before.failedEvents <= after.failedEvents
          && var failed := after.failedEvents[|before.failedEvents|];
             && IsRetryOf(m, failed)
             && after.queue == if m.retries == None || m.retries == Some(0) then rest + [failed] else rest)
  }

  lemma DeliverHandles(b: Broker, i: nat, fails: bool)
    requires i < |b.queue|
    ensures Handles(b, b.queue[i], b.queue[..i] + b.queue[i + 1..], fails, Deliver(b, i, fails))
  {
  }

  datatype Delivery = Delivery(index: nat, fails: bool)

  function Deliveries(b: Broker, run: seq<Delivery>): Broker {
    if run == [] then b
    else Deliver(Deliveries(b, run[..|run| - 1]), run[|run| - 1].index, run[|run| - 1].fails)
  }

  // ---------------------------------------------------------------- how often a lineage can still be handled

  /** The deliveries a message can still cause, its republication included. */
  function Chances(m: Message): nat {
    if RetryCount(m) < MAX_HANDLINGS - 1 then MAX_HANDLINGS - RetryCount(m) else 1
  }

  /** Whose messages to count: one lineage's, or everyone's. */
  predicate Counts(who: Option<nat>, m: Message) {
    who == None || who.value == m.lineage
  }

  function Pending(queue: seq<Message>, who: Option<nat>): nat {
    if queue == [] then 0
    else Pending(queue[..|queue| - 1], who) + if Counts(who, queue[|queue| - 1]) then Chances(queue[|queue| - 1]) else 0
  }

  /** Settlement deliveries, each with the chances it gave up by succeeding early. */
  function Used(settled: seq<Settlement>, who: Option<nat>): nat {
    if settled == [] then 0
    else
      var s := settled[|settled| - 1];
      Used(settled[..|settled| - 1], who)
      + (if !Counts(who, s.message) then 0 else if s.acknowledged then Chances(s.message) else 1)
  }

  /** The deliveries handled for who, and those of them that failed. */
  function Handled(settled: seq<Settlement>, who: Option<nat>): nat {
    if settled == [] then 0
    else Handled(settled[..|settled| - 1], who) + if Counts(who, settled[|settled| - 1].message) then 1 else 0
  }

  function Rejections(settled: seq<Settlement>): seq<Message> {
    if settled == [] then []
    else
      var s := settled[|settled| - 1];
      Rejections(settled[..|settled| - 1]) + if s.acknowledged then [] else [Failed(s.message)]
  }

  lemma {:induction false} PendingConcat(a: seq<Message>, b: seq<Message>, who: Option<nat>)
    ensures Pending(a + b, who) == Pending(a, who) + Pending(b, who)
  {
    if b == [] {
      assert a + b == a;
    } else {
      assert (a + b)[..|a + b| - 1] == a + b[..|b| - 1];
      PendingConcat(a, b[..|b| - 1], who);
    }
  }

  lemma PendingOfOne(m: Message, who: Option<nat>)
    ensures Pending([m], who) == if Counts(who, m) then Chances(m) else 0
  {
    assert [m][..0] == [];
  }

  lemma PendingWithout(queue: seq<Message>, i: nat, who: Option<nat>)
    requires i < |queue|
    ensures Pending(queue, who) ==
              Pending(queue[..i] + queue[i + 1..], who) + if Counts(who, queue[i]) then Chances(queue[i]) else 0
  {
    assert queue == queue[..i] + ([queue[i]] + queue[i + 1..]);
    PendingConcat(queue[..i], [queue[i]] + queue[i + 1..], who);
    PendingConcat([queue[i]], queue[i + 1..], who);
    PendingConcat(queue[..i], queue[i + 1..], who);
    PendingOfOne(queue[i], who);
  }

  /** One delivery turns chances into use, one for one. */
  lemma DeliverConserves(b: Broker, i: nat, fails: bool, who: Option<nat>)
    ensures var after := Deliver(b, i, fails);
            Pending(after.queue, who) + Used(after.settled, who) == Pending(b.queue, who) + Used(b.settled, who)
  {
    if i < |b.queue| {
      var m, rest := b.queue[i], b.queue[..i] + b.queue[i + 1..];
      PendingWithout(b.queue, i, who);
      assert (b.settled + [Settlement(m, !fails)])[..|b.settled|] == b.settled;
      if fails {
        PendingConcat(rest, [Failed(m)], who);
        PendingOfOne(Failed(m), who);
      }
    }
  }

  /** Whatever is delivered in whatever order, the chances left and used add up to those at the start. */
  lemma {:induction false} RunConserves(queue: seq<Message>, run: seq<Delivery>, who: Option<nat>)
    ensures var after := Deliveries(Broker(queue, [], []), run);
            Pending(after.queue, who) + Used(after.settled, who) == Pending(queue, who)
  {
    if run == [] {
    } else {
      RunConserves(queue, run[..|run| - 1], who);
      DeliverConserves(Deliveries(Broker(queue, [], []), run[..|run| - 1]), run[|run| - 1].index,
          run[|run| - 1].fails, who);
    }
  }

  lemma {:induction false} HandledIsUsed(settled: seq<Settlement>, who: Option<nat>)
    ensures Handled(settled, who) <= Used(settled, who)
    ensures (forall s :: s in settled ==> !s.acknowledged) ==> Handled(settled, who) == Used(settled, who)
  {
    if settled == [] {
    } else {
      HandledIsUsed(settled[..|settled| - 1], who);
    }
  }

  // ---------------------------------------------------------------- the queue drains

  predicate Fresh(queue: seq<Message>) {
    && (forall i :: 0 <= i < |queue| ==> queue[i].retries == None)
    && (forall i, j :: 0 <= i < j < |queue| ==> queue[i].lineage != queue[j].lineage)
  }

  lemma {:induction false} FreshChances(queue: seq<Message>, lineage: nat)
    requires Fresh(queue)
    ensures Pending(queue, None) == 2 * |queue|
    ensures Pending(queue, Some(lineage)) <= 2
    ensures (forall m :: m in queue ==> m.lineage != lineage) ==> Pending(queue, Some(lineage)) == 0
  {
    if queue == [] {
    } else {
      FreshChances(queue[..|queue| - 1], lineage);
    }
  }

  /** Every delivery of a run that finds a message. */
  ghost predicate AllDelivered(b: Broker, run: seq<Delivery>) {
    forall k :: 0 <= k < |run| ==> run[k].index < |Deliveries(b, run[..k]).queue|
  }

  lemma {:induction false} EachDeliverySettles(b: Broker, run: seq<Delivery>)
    requires AllDelivered(b, run)
    ensures |Deliveries(b, run).settled| == |b.settled| + |run|
  {
    if run == [] {
    } else {
      var front := run[..|run| - 1];
      forall k | 0 <= k < |front| ensures front[k].index < |Deliveries(b, front[..k]).queue| {
        assert front[..k] == run[..k];
      }
      EachDeliverySettles(b, front);
      assert run[|run| - 1].index < |Deliveries(b, front).queue|;
    }
  }

  lemma {:induction false} HandledAll(settled: seq<Settlement>)
    ensures Handled(settled, None) == |settled|
  {
    if settled == [] {
    } else {
      HandledAll(settled[..|settled| - 1]);
    }
  }

  lemma {:induction false} EmptyIfNothingPending(queue: seq<Message>)
    ensures Pending(queue, None) >= |queue|
  {
    if queue == [] {
    } else {
      EmptyIfNothingPending(queue[..|queue| - 1]);
    }
  }

  /**
   Fresh messages are drained by at most two deliveries each, in any order and with any failures: a run of
   deliveries is never longer than 2n, and one of that length leaves the queue empty.
   */
  lemma FreshQueueDrains(queue: seq<Message>, run: seq<Delivery>)
    requires Fresh(queue) && AllDelivered(Broker(queue, [], []), run)
    ensures |run| + |Deliveries(Broker(queue, [], []), run).queue| <= 2 * |queue|
  {
    var after := Deliveries(Broker(queue, [], []), run);
    FreshChances(queue, 0);
    RunConserves(queue, run, None);
    EachDeliverySettles(Broker(queue, [], []), run);
    HandledAll(after.settled);
    HandledIsUsed(after.settled, None);
    EmptyIfNothingPending(after.queue);
  }

  /** If every delivery fails it takes exactly that many. */
  lemma AllFailuresTakeTwice(queue: seq<Message>, run: seq<Delivery>)
    requires Fresh(queue) && AllDelivered(Broker(queue, [], []), run)
    requires var after := Deliveries(Broker(queue, [], []), run);
             after.queue == [] && forall s :: s in after.settled ==> !s.acknowledged
    ensures |run| == 2 * |queue|
  {
    var after := Deliveries(Broker(queue, [], []), run);
    FreshChances(queue, 0);
    RunConserves(queue, run, None);
    EachDeliverySettles(Broker(queue, [], []), run);
    HandledAll(after.settled);
    HandledIsUsed(after.settled, None);
  }

  /** Each lineage is handled at most twice. */
  lemma LineageHandledTwice(queue: seq<Message>, run: seq<Delivery>, lineage: nat)
    requires Fresh(queue)
    ensures Handled(Deliveries(Broker(queue, [], []), run).settled, Some(lineage)) <= 2
  {
    FreshChances(queue, lineage);
    RunConserves(queue, run, Some(lineage));
    HandledIsUsed(Deliveries(Broker(queue, [], []), run).settled, Some(lineage));
  }

  /** The failed events are the rejected deliveries, one row each, in order, with the raised retry count. */
  lemma {:induction false} FailedEventsAreRejections(queue: seq<Message>, run: seq<Delivery>)
    ensures var after := Deliveries(Broker(queue, [], []), run); after.failedEvents == Rejections(after.settled)
  {
    if run == [] {
    } else {
      FailedEventsAreRejections(queue, run[..|run| - 1]);
      var before := Deliveries(Broker(queue, [], []), run[..|run| - 1]);
      var d := run[|run| - 1];
      if d.index < |before.queue| {
        assert (before.settled + [Settlement(before.queue[d.index], !d.fails)])[..|before.settled|] == before.settled;
      }
    }
  }

  // ---------------------------------------------------------------- the worker in place

  class Worker {
    var queue: seq<Message>
    var failedEvents: seq<Message>
    var settled: seq<Settlement>

    function Now(): Broker
      reads this
    {
      Broker(queue, failedEvents, settled)
    }

    /**
     process_message for the i-th message; fails is whether its handler raises. One more delivery is settled, a failed
     fresh message comes back once, what every lineage can still cause and has used adds up as before, and failed events
     stay the rejected deliveries.
     */
    method ProcessMessage(i: nat, fails: bool)
      requires i < |queue|
      modifies this
      ensures Now() == Deliver(old(Now()), i, fails)
      ensures Handles(old(Now()), old(queue[i]), old(queue[..i] + queue[i + 1..]), fails, Now())
      ensures forall who :: Pending(queue, who) + Used(settled, who) ==
                Pending(old(queue), who) + Used(old(settled), who)
      ensures old(failedEvents == Rejections(settled)) ==> failedEvents == Rejections(settled)
    {
      ghost var before := Now();
      var message := queue[i];
      queue := queue[..i] + queue[i + 1..];
      if fails {
        HandleException(message);
      } else {
        settled := settled + [Settlement(message, true)];
      }
      assert Now() == Deliver(before, i, fails);
      DeliverHandles(before, i, fails);
      forall who ensures Pending(queue, who) + Used(settled, who) ==
          Pending(before.queue, who) + Used(before.settled, who)
      {
        DeliverConserves(before, i, fails, who);
      }
      assert settled[..|before.settled|] == before.settled;
    }

    /** handle_exception: record the failure, publish again below the limit, and reject without requeueing. */
    method HandleException(message: Message)
      modifies this
      ensures Handles(old(Now()), message, old(queue), true, Now())
      ensures Now() == Broker(
                if RetryCount(message) + 1 < MAX_HANDLINGS then old(queue) + [Failed(message)] else old(queue),
                old(failedEvents) + [Failed(message)],
                old(settled) + [Settlement(message, false)])
    {
      var payload := message;
      payload := payload.(retries := Some((if payload.retries.Some? then payload.retries.value else 0) + 1));
      failedEvents := failedEvents + [payload];
      if payload.retries.value < MAX_HANDLINGS {
        queue := queue + [payload];
      }
      settled := settled + [Settlement(message, false)];
    }
  }
}
