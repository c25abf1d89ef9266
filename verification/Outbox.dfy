/** Draining the transactional outbox: one drain as a loop, and many drains interleaved with crashes. */
module Outbox {
  import opened Collections
  import opened EventLog

  /** The publisher's answer; `Threw` is an exception, which the consumer turns into a failure. */
  datatype PublishAnswer = Received(publishedAt: Option<string>) | Refused(code: string, retryable: bool) | Threw

  datatype PublishedRecord = PublishedRecord(eventId: string, cursor: string, publishedAt: string)

  datatype FailedRecord = FailedRecord(eventId: string, cursor: string, code: string, retryable: bool)

  datatype RunResult = RunResult(attempted: nat, published: seq<PublishedRecord>, failed: seq<FailedRecord>)

  type Publisher = OutboxRecord -> PublishAnswer

  /** The clock's reading after a record was published. */
  type Clock = OutboxRecord -> string

  const PUBLISH_THREW := "event_outbox_publish_threw"

  function Delivered(record: OutboxRecord, at: string): OutboxRecord {
    record.(status := Published, publishedAt := Some(at))
  }

  function DeliveryTime(answer: PublishAnswer, now: string): string
    requires answer.Received?
  {
    if answer.publishedAt.Some? then answer.publishedAt.value else now
  }

  // ---- the reference: walk the outbox once, spending a budget on its pending records ----

  function AfterAttempt(record: OutboxRecord, publish: Publisher, clock: Clock): OutboxRecord {
    var answer := publish(record);
    if answer.Received? then Delivered(record, DeliveryTime(answer, clock(record))) else record
  }

  function Drained(outbox: seq<OutboxRecord>, budget: nat, publish: Publisher, clock: Clock): (r: seq<OutboxRecord>)
    ensures |r| == |outbox|
  {
    if outbox == [] || budget == 0 then outbox
    else if outbox[0].status.Pending? then
      [AfterAttempt(outbox[0], publish, clock)] + Drained(outbox[1..], budget - 1, publish, clock)
    else [outbox[0]] + Drained(outbox[1..], budget, publish, clock)
  }

  function Deliveries(batch: seq<OutboxRecord>, publish: Publisher, clock: Clock): seq<PublishedRecord> {
    if batch == [] then []
    else
      var record := batch[|batch| - 1];
      var answer := publish(record);
      Deliveries(batch[..|batch| - 1], publish, clock) +
      if answer.Received? then [PublishedRecord(record.eventId, record.cursor, DeliveryTime(answer, clock(record)))] else []
  }

  function FailureOf(record: OutboxRecord, answer: PublishAnswer): FailedRecord
    requires !answer.Received?
  {
    if answer.Threw? then FailedRecord(record.eventId, record.cursor, PUBLISH_THREW, true)
    else FailedRecord(record.eventId, record.cursor, answer.code, answer.retryable)
  }

  function Failures(batch: seq<OutboxRecord>, publish: Publisher): seq<FailedRecord> {
    if batch == [] then []
    else
      var record := batch[|batch| - 1];
      var answer := publish(record);
      Failures(batch[..|batch| - 1], publish) + if answer.Received? then [] else [FailureOf(record, answer)]
  }

  ghost predicate DistinctEvents(outbox: seq<OutboxRecord>) {
    forall i, j :: 0 <= i < j < |outbox| ==> outbox[i].eventId != outbox[j].eventId
  }

  lemma {:induction false} DrainedCons(outbox: seq<OutboxRecord>, k: nat, publish: Publisher, clock: Clock)
    requires outbox != []
    ensures var attempt := outbox[0].status.Pending? && k > 0;
            Drained(outbox, k, publish, clock) ==
            [if attempt then AfterAttempt(outbox[0], publish, clock) else outbox[0]] +
            Drained(outbox[1..], if attempt then k - 1 else k, publish, clock)
  {
  }

  lemma {:induction false} AttemptBehind(outbox: seq<OutboxRecord>, k: nat, publish: Publisher, clock: Clock, q: nat)
    requires outbox != [] && !(outbox[0].status.Pending? && k == 0) && q < |outbox| - 1
    requires var k', rest := if outbox[0].status.Pending? then k - 1 else k, outbox[1..];
             && Drained(rest, k', publish, clock)[q] == rest[q]
             && Drained(rest, k' + 1, publish, clock) == Drained(rest, k', publish, clock)[q := AfterAttempt(rest[q], publish, clock)]
    ensures Drained(outbox, k, publish, clock)[q + 1] == outbox[q + 1]
    ensures Drained(outbox, k + 1, publish, clock)
            == Drained(outbox, k, publish, clock)[q + 1 := AfterAttempt(outbox[q + 1], publish, clock)]
  {
    DrainedCons(outbox, k, publish, clock);
    DrainedCons(outbox, k + 1, publish, clock);
    hide Drained, AfterAttempt;
    var k' := if outbox[0].status.Pending? then k - 1 else k;
    var head := if outbox[0].status.Pending? then AfterAttempt(outbox[0], publish, clock) else outbox[0];
    UpdateBehind(head, Drained(outbox[1..], k', publish, clock), q, AfterAttempt(outbox[1..][q], publish, clock));
  }

  /** Attempting the k-th pending record by its id is one more unit of budget in the reference. */
  lemma {:induction false} AttemptNext(outbox: seq<OutboxRecord>, k: nat, publish: Publisher,
          clock: Clock) returns (p: nat)
    requires k < |PendingRecords(outbox)|
    ensures p < |outbox| && outbox[p] == PendingRecords(outbox)[k]
    ensures Drained(outbox, k, publish, clock)[p] == outbox[p]
    ensures Drained(outbox, k + 1, publish, clock) ==
            Drained(outbox, k, publish, clock)[p := AfterAttempt(outbox[p], publish, clock)]
  {
    if outbox[0].status.Pending? && k == 0 {
      DrainedCons(outbox, k, publish, clock);
      DrainedCons(outbox, k + 1, publish, clock);
      p := 0;
    } else {
      hide Drained, AfterAttempt;
      var k' := if outbox[0].status.Pending? then k - 1 else k;
      var q := AttemptNext(outbox[1..], k', publish, clock);
      AttemptBehind(outbox, k, publish, clock, q);
      p := q + 1;
    }
  }

  class EventOutboxConsumer {
    const eventLog: InMemoryEventLogStore
    const batchSize: nat

    constructor (eventLog: InMemoryEventLogStore, batchSize: nat)
      requires batchSize > 0
      ensures this.eventLog == eventLog && this.batchSize == batchSize
    {
      this.eventLog := eventLog;
      this.batchSize := batchSize;
    }

    /** Publish one record and, when it was received, mark it; `p` is its place in the outbox. */
    method Attempt(record: OutboxRecord, ghost p: nat, publish: Publisher, clock: Clock)
      returns (outcome: Result<PublishedRecord, FailedRecord>)
      requires eventLog.Valid()
      requires p < |eventLog.state.outbox| && eventLog.state.outbox[p] == record
      modifies eventLog`state
      ensures eventLog.Valid()
      ensures eventLog.state ==
              old(eventLog.state).(outbox := old(eventLog.state.outbox)[p := AfterAttempt(record, publish, clock)])
      ensures var answer := publish(record);
              outcome == if answer.Received?
                         then Ok(PublishedRecord(record.eventId, record.cursor, DeliveryTime(answer, clock(record))))
                         else Err(FailureOf(record, answer))
    {
      var answer := publish(record);
      if !answer.Received? {
        return Err(FailureOf(record, answer));
      }
      DistinctInHistory(eventLog.state, eventLog.history);
      ghost var index := FindIndex(eventLog.state.outbox, (o: OutboxRecord) => o.eventId == record.eventId);
      assert index == p;
      var publishedAt := DeliveryTime(answer, clock(record));
      var marked := eventLog.MarkOutboxPublished(record.eventId, publishedAt);
      outcome := Ok(PublishedRecord(record.eventId, marked.value, publishedAt));
    }

    /**
     * `publish` answers for every record of this drain; `clock` is read for each that was received without a
     * time. Exactly the received records of the batch are published; the refused ones stay as they were.
     */
    method DrainPending(publish: Publisher, clock: Clock) returns (result: RunResult)
      requires eventLog.Valid()
      modifies eventLog`state
      ensures eventLog.Valid()
      ensures |eventLog.state.outbox| == |old(eventLog.state.outbox)|
      ensures forall i :: 0 <= i < |eventLog.state.outbox| ==>
                var r := old(eventLog.state.outbox)[i];
                eventLog.state.outbox[i] ==
                if r.status.Pending? && PendingBefore(old(eventLog.state.outbox), i) < batchSize && publish(r).Received?
                then OutboxRecord(r.outboxId, r.eventId, r.cursor, Published, r.createdAt,
                                  Some(if publish(r).publishedAt.Some? then publish(r).publishedAt.value else clock(r)))
                else r
      ensures eventLog.state == old(eventLog.state).(outbox := Drained(old(eventLog.state.outbox), batchSize, publish, clock))
      ensures var batch := Slice(PendingRecords(old(eventLog.state.outbox)), 0, batchSize);
              result == RunResult(|batch|, Deliveries(batch, publish, clock), Failures(batch, publish))
    {
      hide Represents;
      ghost var before := eventLog.state;
      var pending := eventLog.ListPendingOutbox();
      var batch := Slice(pending, 0, batchSize);
      var published, failed := [], [];
      for k := 0 to |batch|
        invariant eventLog.Valid()
        invariant eventLog.state == before.(outbox := Drained(before.outbox, k, publish, clock))
        invariant published == Deliveries(batch[..k], publish, clock)
        invariant failed == Failures(batch[..k], publish)
      {
        ghost var p := AttemptNext(before.outbox, k, publish, clock);
        assert batch[..k + 1][..k] == batch[..k];
        hide Drained, PendingRecords, AfterAttempt;
        var outcome := Attempt(batch[k], p, publish, clock);
        match outcome
        case Ok(record) => published := published + [record];
        case Err(record) => failed := failed + [record];
      }
      assert batch[..|batch|] == batch;
      if |batch| < batchSize {
        BudgetBeyondPending(before.outbox, |batch|, batchSize, publish, clock);
      }
      DrainedEverywhere(before.outbox, batchSize, publish, clock);
      result := RunResult(|batch|, published, failed);
    }
  }

  lemma {:induction false} DistinctInHistory(s: State, accepted: seq<EventRecord>)
    requires Represents(s, accepted)
    ensures DistinctEvents(s.outbox)
  {
    assert forall i :: 0 <= i < |accepted| ==> Describes(s.outbox[i], accepted[i]);
  }

  lemma {:induction false} BudgetBeyondPending(outbox: seq<OutboxRecord>, a: nat, b: nat, publish: Publisher,
          clock: Clock)
    requires |PendingRecords(outbox)| <= a <= b
    ensures Drained(outbox, a, publish, clock) == Drained(outbox, b, publish, clock)
  {
    if outbox != [] {
      if outbox[0].status.Pending? {
        BudgetBeyondPending(outbox[1..], a - 1, b - 1, publish, clock);
      } else {
        BudgetBeyondPending(outbox[1..], a, b, publish, clock);
        assert outbox == [outbox[0]] + outbox[1..];
      }
    }
  }

  /** Every attempted record is either delivered or reported as failed, never both and never neither. */
  lemma {:induction false} AttemptedIsPublishedPlusFailed(batch: seq<OutboxRecord>, publish: Publisher, clock: Clock)
    ensures |Deliveries(batch, publish, clock)| + |Failures(batch, publish)| == |batch|
  {
    if batch != [] {
      AttemptedIsPublishedPlusFailed(batch[..|batch| - 1], publish, clock);
    }
  }

  /**
   * A drain publishes the received ones among its first `budget` pending records, at the publisher's time
   * or else at the clock's, and leaves every other record as it was: the refused ones, the ones whose
   * publication threw, those beyond the budget and those that were published before.
   */
  lemma {:induction false} DrainedExactly(outbox: seq<OutboxRecord>, budget: nat, publish: Publisher, clock: Clock,
          i: nat)
    requires i < |outbox|
    ensures var r := outbox[i];
            var received := r.status.Pending? && PendingBefore(outbox, i) < budget && publish(r).Received?;
            Drained(outbox, budget, publish, clock)[i] ==
            if received
            then OutboxRecord(r.outboxId, r.eventId, r.cursor, Published, r.createdAt,
                              Some(if publish(r).publishedAt.Some? then publish(r).publishedAt.value else clock(r)))
            else r
  {
    DrainedAt(outbox, budget, publish, clock, i);
    PendingOfPrefix(outbox, i);
    hide Drained, PendingRecords, PendingBefore;
  }

  lemma {:induction false} DrainedEverywhere(outbox: seq<OutboxRecord>, budget: nat, publish: Publisher, clock: Clock)
    ensures forall i :: 0 <= i < |outbox| ==>
              var r := outbox[i];
              Drained(outbox, budget, publish, clock)[i] ==
              if r.status.Pending? && PendingBefore(outbox, i) < budget && publish(r).Received?
              then OutboxRecord(r.outboxId, r.eventId, r.cursor, Published, r.createdAt,
                                Some(if publish(r).publishedAt.Some? then publish(r).publishedAt.value else clock(r)))
              else r
  {
    hide Drained, PendingBefore;
    forall i | 0 <= i < |outbox| {
      DrainedExactly(outbox, budget, publish, clock, i);
    }
  }

  lemma {:induction false} DrainedAt(outbox: seq<OutboxRecord>, budget: nat, publish: Publisher, clock: Clock, i: nat)
    requires i < |outbox|
    ensures Drained(outbox, budget, publish, clock)[i] ==
            if outbox[i].status.Pending? && |PendingRecords(outbox[..i])| < budget
            then AfterAttempt(outbox[i], publish, clock) else outbox[i]
  {
    if i == 0 {
      assert outbox[..0] == [];
    } else if budget > 0 {
      assert outbox[..i][1..] == outbox[1..][..i - 1];
      DrainedAt(outbox[1..], if outbox[0].status.Pending? then budget - 1 else budget, publish, clock, i - 1);
    }
  }

  /** A drain reports a record of its batch as published exactly when it was received, and else as failed and why. */
  lemma {:induction false} ReportedExactly(batch: seq<OutboxRecord>, publish: Publisher, clock: Clock)
    ensures forall p :: p in Deliveries(batch, publish, clock) <==>
              exists r :: r in batch && publish(r).Received?
                && p == PublishedRecord(r.eventId, r.cursor, if publish(r).publishedAt.Some? then publish(r).publishedAt.value else clock(r))
    ensures forall f :: f in Failures(batch, publish) <==>
              exists r :: r in batch
                && match publish(r)
                   case Received(_) => false
                   case Refused(code, retryable) => f == FailedRecord(r.eventId, r.cursor, code, retryable)
                   case Threw => f == FailedRecord(r.eventId, r.cursor, "event_outbox_publish_threw", true)
    ensures |Deliveries(batch, publish, clock)| + |Failures(batch, publish)| == |batch|
  {
    AttemptedIsPublishedPlusFailed(batch, publish, clock);
    if batch != [] {
      var before, last := batch[..|batch| - 1], batch[|batch| - 1];
      ReportedExactly(before, publish, clock);
      assert forall r :: r in batch <==> r in before || r == last;
    }
  }

  // ---- an always-accepting publisher ----

  ghost predicate AlwaysAccepts(publish: Publisher) {
    forall record :: publish(record).Received?
  }

  function DrainedTimes(outbox: seq<OutboxRecord>, batchSize: nat, publish: Publisher, clock: Clock,
          times: nat): seq<OutboxRecord> {
    if times == 0 then outbox
    else Drained(DrainedTimes(outbox, batchSize, publish, clock, times - 1), batchSize, publish, clock)
  }

  lemma {:induction false} OneDrainTakesABatch(outbox: seq<OutboxRecord>, budget: nat, publish: Publisher, clock: Clock)
    requires AlwaysAccepts(publish)
    ensures |PendingRecords(Drained(outbox, budget, publish, clock))| == Max(0, |PendingRecords(outbox)| - budget)
  {
    if outbox != [] && budget > 0 {
      OneDrainTakesABatch(outbox[1..], if outbox[0].status.Pending? then budget - 1 else budget, publish, clock);
      assert Drained(outbox, budget, publish, clock)[1..] ==
             Drained(outbox[1..], if outbox[0].status.Pending? then budget - 1 else budget, publish, clock);
    }
  }

  lemma {:induction false} DrainsTakeBatches(outbox: seq<OutboxRecord>, batchSize: nat, publish: Publisher,
          clock: Clock, times: nat)
    requires AlwaysAccepts(publish)
    ensures |PendingRecords(DrainedTimes(outbox, batchSize, publish, clock, times))| ==
            Max(0, |PendingRecords(outbox)| - times * batchSize)
  {
    if times > 0 {
      DrainsTakeBatches(outbox, batchSize, publish, clock, times - 1);
      OneDrainTakesABatch(DrainedTimes(outbox, batchSize, publish, clock, times - 1), batchSize, publish, clock);
      assert times * batchSize == (times - 1) * batchSize + batchSize;
    }
  }

  function CeilingOf(n: nat, d: nat): nat
    requires d > 0
  {
    (n + d - 1) / d
  }

  /** The n pending records are gone after ceil(n / batch) drains, and not before. */
  lemma {:induction false} EmptyAfterCeilingDrains(outbox: seq<OutboxRecord>, batchSize: nat, publish: Publisher,
          clock: Clock, times: nat)
    requires AlwaysAccepts(publish) && batchSize > 0
    ensures PendingRecords(DrainedTimes(outbox, batchSize, publish, clock, times)) == []
            <==> times >= CeilingOf(|PendingRecords(outbox)|, batchSize)
  {
    var n := |PendingRecords(outbox)|;
    DrainsTakeBatches(outbox, batchSize, publish, clock, times);
    CeilingCovers(n, batchSize, times);
  }

  lemma {:induction false} CeilingCovers(n: nat, d: nat, k: nat)
    requires d > 0
    ensures n <= k * d <==> k >= CeilingOf(n, d)
  {
    var c := CeilingOf(n, d);
    assert c * d <= n + d - 1 < c * d + d;
    hide CeilingOf;
    Multiples(c, k, d);
    Multiples(k, c, d);
  }
}
