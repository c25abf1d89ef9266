/**
 * Many outbox consumers on one event log, interleaved call by call: each `listOutbox`, publisher
 * answer and `markOutboxPublished` is a step of its own, and a consumer may crash between any two.
 */
module OutboxRuns {
  import opened Collections
  import opened EventLog
  import opened Outbox

  /** A consumer inside `drainPending`; `received` is the gap between acceptance and marking. */
  datatype Consumer =
    | Idle
    | Draining(batch: seq<OutboxRecord>, next: nat, received: bool, published: nat, failed: nat)

  datatype World = World(log: State, history: seq<EventRecord>, consumers: map<nat, Consumer>,
                         deliveries: seq<string>, crashes: nat)

  datatype Action =
    | Append(input: AppendInput, retentionLimit: nat)
    | Begin(who: nat, batchSize: nat)
    | Answer(who: nat, received: bool)
    | Mark(who: nat, at: string)
    | Finish(who: nat)
    | Crash(who: nat)

  const START := World(EMPTY_STATE, [], map[], [], 0)

  function ConsumerOf(w: World, who: nat): Consumer {
    if who in w.consumers then w.consumers[who] else Idle
  }

  /** A step whose consumer is not at the matching point of `drainPending` does nothing. */
  function Step(w: World, action: Action): World {
    match action
    case Append(input, retentionLimit) =>
      if retentionLimit == 0 then w
      else w.(log := EventLog.Append(w.log, retentionLimit, input).1, history := Accept(w.history, input))
    case Begin(who, batchSize) =>
      if !ConsumerOf(w, who).Idle? then w
      else w.(consumers := w.consumers[who := Draining(Slice(PendingRecords(w.log.outbox), 0, batchSize), 0, false, 0, 0)])
    case Answer(who, received) =>
      var c := ConsumerOf(w, who);
      if c.Idle? || c.received || c.next >= |c.batch| then w
      else if received then
        w.(consumers := w.consumers[who := c.(received := true)],
           deliveries := w.deliveries + [c.batch[c.next].eventId])
      else w.(consumers := w.consumers[who := c.(next := c.next + 1, failed := c.failed + 1)])
    case Mark(who, at) =>
      var c := ConsumerOf(w, who);
      if c.Idle? || !c.received || c.next >= |c.batch| then w
      else
        var (result, log) := MarkPublished(w.log, c.batch[c.next].eventId, at);
        var c' := c.(next := c.next + 1, received := false);
        w.(log := log,
           consumers := w.consumers[who := if result.Ok? then c'.(published := c.published + 1)
                                           else c'.(failed := c.failed + 1)])
    case Finish(who) =>
      var c := ConsumerOf(w, who);
      if c.Idle? || c.next < |c.batch| then w else w.(consumers := w.consumers[who := Idle])
    case Crash(who) => w.(consumers := w.consumers[who := Idle], crashes := w.crashes + 1)
  }

  function Run(actions: seq<Action>): World {
    if actions == [] then START else Step(Run(actions[..|actions| - 1]), actions[|actions| - 1])
  }

  // ---- what every interleaving keeps ----

  /** No record of this event has been published (an unknown event has no record at all). */
  ghost predicate Unpublished(outbox: seq<OutboxRecord>, eventId: string) {
    forall i :: 0 <= i < |outbox| && outbox[i].eventId == eventId ==> outbox[i].status.Pending?
  }

  ghost predicate ConsumerInv(w: World, c: Consumer) {
    c.Draining? ==>
      && c.next <= |c.batch|
      && c.next == c.published + c.failed
      && (forall j :: 0 <= j < |c.batch| ==> Knows(w.history, c.batch[j].eventId))
      && (c.received ==> c.next < |c.batch| && c.batch[c.next].eventId in w.deliveries)
  }

  ghost predicate Inv(w: World) {
    && Represents(w.log, w.history)
    && (forall id :: id !in w.deliveries ==> Unpublished(w.log.outbox, id))
    && (forall who :: who in w.consumers ==> ConsumerInv(w, w.consumers[who]))
  }

  lemma {:induction false} PendingRecordsFacts(outbox: seq<OutboxRecord>)
    ensures forall r :: r in PendingRecords(outbox) ==> r in outbox && r.status.Pending?
    ensures DistinctEvents(outbox) ==> DistinctEvents(PendingRecords(outbox))
  {
    if outbox != [] {
      PendingRecordsFacts(outbox[1..]);
      assert forall r :: r in outbox[1..] ==> r in outbox;
      assert DistinctEvents(outbox) ==> DistinctEvents(outbox[1..]);
      assert DistinctEvents(outbox) ==> forall r :: r in outbox[1..] ==> r.eventId != outbox[0].eventId;
    }
  }

  lemma {:induction false} BatchIsKnown(w: World, batchSize: nat)
    requires Represents(w.log, w.history)
    ensures var batch := Slice(PendingRecords(w.log.outbox), 0, batchSize);
            && DistinctEvents(batch)
            && forall j :: 0 <= j < |batch| ==>
                 Knows(w.history, batch[j].eventId) && Unpublished(w.log.outbox, batch[j].eventId)
  {
    PendingRecordsFacts(w.log.outbox);
    DistinctInHistory(w.log, w.history);
    var batch := Slice(PendingRecords(w.log.outbox), 0, batchSize);
    forall j | 0 <= j < |batch|
      ensures Knows(w.history, batch[j].eventId) && Unpublished(w.log.outbox, batch[j].eventId)
    {
      assert batch[j] in PendingRecords(w.log.outbox);
      var i :| 0 <= i < |w.log.outbox| && w.log.outbox[i] == batch[j];
      assert Describes(w.log.outbox[i], w.history[i]);
    }
  }

  /** Appending adds at most one record, which is pending; the records before it stay as they are. */
  lemma {:induction false} AppendExtendsOutbox(w: World, input: AppendInput, retentionLimit: nat)
    requires Represents(w.log, w.history) && retentionLimit > 0
    ensures var w' := Step(w, Append(input, retentionLimit));
            && Represents(w'.log, w'.history)
            && w.history <= w'.history && w.log.outbox <= w'.log.outbox
            && forall id :: Unpublished(w'.log.outbox, id) <==> Unpublished(w.log.outbox, id)
  {
    AppendRefinesAccept(w.log, w.history, retentionLimit, input);
    var record := AppendedRecord(w.log, retentionLimit, input);
    hide EventLog.Append, Represents, Accept;
    PendingDoesNotPublish(w.log.outbox, record);
  }

  lemma {:induction false} AppendedRecord(s: State, retentionLimit: nat,
          input: AppendInput) returns (record: OutboxRecord)
    requires retentionLimit > 0
    ensures record.status.Pending?
    ensures EventLog.Append(s, retentionLimit, input).1.outbox in {s.outbox, s.outbox + [record]}
  {
    hide CursorFromSequence, FindIndex, RetainEvents;
    var after := EventLog.Append(s, retentionLimit, input).1.outbox;
    record := if after != s.outbox then after[|after| - 1] else OutboxRecord("", "", "", Pending, "", None);
  }

  lemma {:induction false} PendingDoesNotPublish(outbox: seq<OutboxRecord>, record: OutboxRecord)
    requires record.status.Pending?
    ensures forall id :: Unpublished(outbox + [record], id) <==> Unpublished(outbox, id)
  {
    var after := outbox + [record];
    forall id ensures Unpublished(after, id) <==> Unpublished(outbox, id) {
      assert forall i :: 0 <= i < |outbox| ==> outbox[i] == after[i];
      assert after[|outbox|] == record;
    }
  }

  lemma {:induction false} PublishingOneRecord(outbox: seq<OutboxRecord>, p: nat, record: OutboxRecord)
    requires p < |outbox| && record.eventId == outbox[p].eventId && record.status.Published?
    ensures !Unpublished(outbox[p := record], record.eventId)
    ensures forall id :: id != record.eventId ==> (Unpublished(outbox[p := record], id) <==> Unpublished(outbox, id))
  {
    var after := outbox[p := record];
    assert after[p] == record;
    forall id | id != record.eventId ensures Unpublished(after, id) <==> Unpublished(outbox, id) {
      assert forall i :: 0 <= i < |outbox| ==> i == p || after[i] == outbox[i];
    }
  }

  lemma {:induction false} MarkOnlyPublishes(s: State, history: seq<EventRecord>, eventId: string, at: string)
    requires Represents(s, history) && Knows(history, eventId)
    ensures var (result, s') := MarkPublished(s, eventId, at);
            && result.Ok? && Represents(s', history)
            && !Unpublished(s'.outbox, eventId)
            && forall id :: id != eventId ==> (Unpublished(s'.outbox, id) <==> Unpublished(s.outbox, id))
  {
    MarkKeepsRepresentation(s, history, eventId, at);
    LookupInHistory(s, history, eventId);
    hide Represents, Unpublished;
    var p := FindIndex(s.outbox, (r: OutboxRecord) => r.eventId == eventId);
    PublishingOneRecord(s.outbox, p, Delivered(s.outbox[p], at));
  }

  lemma {:induction false} StepKeepsInv(w: World, action: Action)
    requires Inv(w)
    ensures Inv(Step(w, action))
  {
    hide Represents, PendingRecords, EventLog.Append, MarkPublished;
    match action
    case Append(input, retentionLimit) =>
      if retentionLimit > 0 {
        AppendExtendsOutbox(w, input, retentionLimit);
        KnownStaysKnown(w.history, Step(w, action).history);
      }
    case Begin(who, batchSize) => BatchIsKnown(w, batchSize);
    case Answer(who, received) =>
    case Mark(who, at) =>
      var c := ConsumerOf(w, who);
      if c.Draining? && c.received && c.next < |c.batch| {
        MarkOnlyPublishes(w.log, w.history, c.batch[c.next].eventId, at);
      }
    case Finish(who) =>
    case Crash(who) =>
  }

  lemma {:induction false} KnownStaysKnown(history: seq<EventRecord>, more: seq<EventRecord>)
    requires history <= more
    ensures forall id :: Knows(history, id) ==> Knows(more, id)
  {
    assert forall i :: 0 <= i < |history| ==> history[i] == more[i];
  }

  /**
   * In every interleaving with any number of consumers, refusals, exceptions and crashes: the
   * outbox still describes the accepted events one for one, a published event was received by the
   * publisher, and each running drain has attempted exactly what it has published or failed.
   */
  lemma {:induction false} PublishedOnlyIfReceived(actions: seq<Action>)
    ensures Inv(Run(actions))
  {
    if actions != [] {
      PublishedOnlyIfReceived(actions[..|actions| - 1]);
      StepKeepsInv(Run(actions[..|actions| - 1]), actions[|actions| - 1]);
    }
  }

  /** A published event stays published for ever, whatever happens afterwards. */
  lemma {:induction false} PublishedStaysPublished(actions: seq<Action>, more: seq<Action>, eventId: string)
    requires !Unpublished(Run(actions).log.outbox, eventId)
    ensures !Unpublished(Run(actions + more).log.outbox, eventId)
  {
    hide Represents, PendingRecords, EventLog.Append, MarkPublished, Unpublished, ConsumerInv;
    if more == [] {
      assert actions + more == actions;
    } else {
      var before, action := more[..|more| - 1], more[|more| - 1];
      PublishedStaysPublished(actions, before, eventId);
      assert (actions + more)[..|actions + more| - 1] == actions + before;
      PublishedOnlyIfReceived(actions + before);
      var w := Run(actions + before);
      StepKeepsPublished(w, action, eventId);
    }
  }

  lemma {:induction false} StepKeepsPublished(w: World, action: Action, eventId: string)
    requires Inv(w) && !Unpublished(w.log.outbox, eventId)
    ensures !Unpublished(Step(w, action).log.outbox, eventId)
  {
    hide Represents, PendingRecords, EventLog.Append, MarkPublished, Unpublished;
    if action.Append? && action.retentionLimit > 0 {
      AppendExtendsOutbox(w, action.input, action.retentionLimit);
    }
    if action.Mark? {
      var c := ConsumerOf(w, action.who);
      if c.Draining? && c.received && c.next < |c.batch| {
        MarkOnlyPublishes(w.log, w.history, c.batch[c.next].eventId, action.at);
      }
    }
  }

  // ---- one consumer: how often can an event reach the publisher? ----

  ghost predicate OnlyConsumer(actions: seq<Action>, who: nat) {
    forall i :: 0 <= i < |actions| && !actions[i].Append? ==> actions[i].who == who
  }

  ghost predicate Holds(c: Consumer, eventId: string) {
    c.Draining? && c.received && c.next < |c.batch| && c.batch[c.next].eventId == eventId
  }

  ghost predicate BatchUntouched(w: World, c: Consumer) {
    c.Draining? ==>
      && DistinctEvents(c.batch)
      && forall j :: c.next <= j < |c.batch| ==> Unpublished(w.log.outbox, c.batch[j].eventId)
  }

  ghost predicate AtMostOncePerCrash(w: World, c: Consumer, eventId: string) {
    multiset(w.deliveries)[eventId] <=
      w.crashes + if !Unpublished(w.log.outbox, eventId) || Holds(c, eventId) then 1 else 0
  }

  lemma {:induction false} SingleConsumerStep(w: World, who: nat, action: Action, eventId: string)
    requires Inv(w) && w.consumers.Keys <= {who}
    requires action.Append? || action.who == who
    requires BatchUntouched(w, ConsumerOf(w, who)) && AtMostOncePerCrash(w, ConsumerOf(w, who), eventId)
    ensures var w' := Step(w, action);
            && w'.consumers.Keys <= {who}
            && BatchUntouched(w', ConsumerOf(w', who))
            && AtMostOncePerCrash(w', ConsumerOf(w', who), eventId)
  {
    hide Represents, PendingRecords, EventLog.Append, MarkPublished, Unpublished;
    match action
    case Append(input, retentionLimit) =>
      if retentionLimit > 0 {
        AppendExtendsOutbox(w, input, retentionLimit);
      }
    case Begin(_, batchSize) => BatchIsKnown(w, batchSize);
    case Answer(_, received) =>
    case Mark(_, at) =>
      var c := ConsumerOf(w, who);
      if c.Draining? && c.received && c.next < |c.batch| {
        MarkOnlyPublishes(w.log, w.history, c.batch[c.next].eventId, at);
      }
    case Finish(_) =>
    case Crash(_) =>
  }

  /** How many of the steps are crashes. */
  function CrashSteps(actions: seq<Action>): nat {
    if actions == [] then 0 else CrashSteps(actions[..|actions| - 1]) + if actions[|actions| - 1].Crash? then 1 else 0
  }

  /** With one consumer an event reaches the publisher at most once, plus once per crash. */
  lemma {:induction false} SingleConsumerDeliversOncePerCrash(actions: seq<Action>, who: nat, eventId: string)
    requires OnlyConsumer(actions, who)
    ensures multiset(Run(actions).deliveries)[eventId] <= CrashSteps(actions) + 1
    ensures Run(actions).crashes == CrashSteps(actions)
    ensures Run(actions).consumers.Keys <= {who}
    ensures BatchUntouched(Run(actions), ConsumerOf(Run(actions), who))
    ensures AtMostOncePerCrash(Run(actions), ConsumerOf(Run(actions), who), eventId)
  {
    if actions != [] {
      var before := actions[..|actions| - 1];
      SingleConsumerDeliversOncePerCrash(before, who, eventId);
      PublishedOnlyIfReceived(before);
      SingleConsumerStep(Run(before), who, actions[|actions| - 1], eventId);
    }
  }

  // ---- one drain is such a run ----

  function After(w: World, actions: seq<Action>): World {
    if actions == [] then w else Step(After(w, actions[..|actions| - 1]), actions[|actions| - 1])
  }

  /** What a drain does about the records of its batch, one after the other. */
  function Attempts(who: nat, batch: seq<OutboxRecord>, publish: Publisher, clock: Clock): seq<Action> {
    if batch == [] then []
    else
      var record := batch[|batch| - 1];
      Attempts(who, batch[..|batch| - 1], publish, clock)
      + match publish(record)
        case Received(at) => [Answer(who, true), Mark(who, if at.Some? then at.value else clock(record))]
        case Refused(_, _) => [Answer(who, false)]
        case Threw => [Answer(who, false)]
  }

  /** The publisher has received these, in order. */
  function ReceivedOf(batch: seq<OutboxRecord>, publish: Publisher): seq<string> {
    if batch == [] then []
    else
      ReceivedOf(batch[..|batch| - 1], publish)
      + if publish(batch[|batch| - 1]).Received? then [batch[|batch| - 1].eventId] else []
  }

  lemma {:induction false} AfterConcat(w: World, a: seq<Action>, b: seq<Action>)
    ensures After(w, a + b) == After(After(w, a), b)
  {
    hide Step;
    if b == [] {
      assert a + b == a;
    } else {
      assert (a + b)[..|a + b| - 1] == a + b[..|b| - 1];
      AfterConcat(w, a, b[..|b| - 1]);
    }
  }

  lemma {:induction false} AfterOne(w: World, action: Action)
    ensures After(w, [action]) == Step(w, action)
  {
    hide Step;
    assert [action][..0] == [];
    assert After(w, []) == w;
  }

  lemma {:induction false} AfterTwo(w: World, a: Action, b: Action)
    ensures After(w, [a, b]) == Step(Step(w, a), b)
  {
    hide Step, After;
    assert [a, b] == [a] + [b];
    AfterConcat(w, [a], [b]);
    AfterOne(w, a);
    AfterOne(Step(w, a), b);
  }

  function Middle(w: World, who: nat, batch: seq<OutboxRecord>, k: nat, outbox: seq<OutboxRecord>, published: nat, failed: nat,
          received: seq<string>): World {
    w.(log := w.log.(outbox := outbox),
       consumers := w.consumers[who := Draining(batch, k, false, published, failed)],
       deliveries := w.deliveries + received)
  }

  /** The world in the middle of a drain that nothing disturbs: the first `k` records are attempted. */
  function Midway(w: World, who: nat, batch: seq<OutboxRecord>, k: nat, publish: Publisher, clock: Clock): World
    requires k <= |batch|
  {
    Middle(w, who, batch, k, Drained(w.log.outbox, k, publish, clock), |Deliveries(batch[..k], publish, clock)|,
           |Failures(batch[..k], publish)|, ReceivedOf(batch[..k], publish))
  }

  lemma {:induction false} MarkAtPlace(log: State, eventId: string, p: nat, at: string)
    requires DistinctEvents(log.outbox) && p < |log.outbox| && log.outbox[p].eventId == eventId
    ensures MarkPublished(log, eventId, at) == (Ok(log.outbox[p].cursor), log.(outbox := log.outbox[p := Delivered(log.outbox[p], at)]))
  {
    hide FindIndex;
  }

  lemma {:induction false} DrainedKeepsIds(outbox: seq<OutboxRecord>, k: nat, publish: Publisher, clock: Clock)
    ensures forall i :: 0 <= i < |outbox| ==> Drained(outbox, k, publish, clock)[i].eventId == outbox[i].eventId
    ensures DistinctEvents(outbox) ==> DistinctEvents(Drained(outbox, k, publish, clock))
  {
    forall i | 0 <= i < |outbox| ensures Drained(outbox, k, publish, clock)[i].eventId == outbox[i].eventId {
      DrainedExactly(outbox, k, publish, clock, i);
    }
    hide Drained;
  }

  lemma {:induction false} ReportsStep(batch: seq<OutboxRecord>, k: nat, publish: Publisher, clock: Clock)
    requires k < |batch|
    ensures var one := if publish(batch[k]).Received? then 1 else 0;
            && |Deliveries(batch[..k + 1], publish, clock)| == |Deliveries(batch[..k], publish, clock)| + one
            && |Failures(batch[..k + 1], publish)| == |Failures(batch[..k], publish)| + 1 - one
    ensures ReceivedOf(batch[..k + 1], publish)
            == ReceivedOf(batch[..k], publish) + if publish(batch[k]).Received? then [batch[k].eventId] else []
  {
    assert batch[..k + 1][..k] == batch[..k];
  }

  lemma {:induction false} ReceivedThenMarked(w: World, who: nat, batch: seq<OutboxRecord>, k: nat, outbox: seq<OutboxRecord>,
          published: nat, failed: nat, received: seq<string>, p: nat, time: string)
    requires k < |batch| && DistinctEvents(outbox) && p < |outbox| && outbox[p].eventId == batch[k].eventId
    ensures Step(Step(Middle(w, who, batch, k, outbox, published, failed, received), Answer(who, true)), Mark(who, time))
            == Middle(w, who, batch, k + 1, outbox[p := Delivered(outbox[p], time)], published + 1, failed, received + [batch[k].eventId])
  {
    hide MarkPublished, DistinctEvents;
    var mid := Middle(w, who, batch, k, outbox, published, failed, received);
    var after := Middle(w, who, batch, k + 1, outbox[p := Delivered(outbox[p], time)], published + 1, failed, received + [batch[k].eventId]);
    MarkAtPlace(mid.log, batch[k].eventId, p, time);
    var marked := Step(Step(mid, Answer(who, true)), Mark(who, time));
    assert marked.consumers == after.consumers;
    assert marked.deliveries == after.deliveries;
  }

  lemma {:induction false} AttemptReceived(w: World, who: nat, batch: seq<OutboxRecord>, k: nat, publish: Publisher, clock: Clock)
    requires DistinctEvents(w.log.outbox) && k < |batch| && publish(batch[k]).Received?
    requires k < |PendingRecords(w.log.outbox)| && batch[k] == PendingRecords(w.log.outbox)[k]
    ensures var time := if publish(batch[k]).publishedAt.Some? then publish(batch[k]).publishedAt.value else clock(batch[k]);
            Step(Step(Midway(w, who, batch, k, publish, clock), Answer(who, true)), Mark(who, time))
            == Midway(w, who, batch, k + 1, publish, clock)
  {
    var p := AttemptNext(w.log.outbox, k, publish, clock);
    DrainedKeepsIds(w.log.outbox, k, publish, clock);
    ReportsStep(batch, k, publish, clock);
    hide Drained, PendingRecords, Step, Middle, Deliveries, Failures, ReceivedOf, DistinctEvents;
    var time := if publish(batch[k]).publishedAt.Some? then publish(batch[k]).publishedAt.value else clock(batch[k]);
    ReceivedThenMarked(w, who, batch, k, Drained(w.log.outbox, k, publish, clock), |Deliveries(batch[..k], publish, clock)|,
                       |Failures(batch[..k], publish)|, ReceivedOf(batch[..k], publish), p, time);
  }

  lemma {:induction false} AttemptFailed(w: World, who: nat, batch: seq<OutboxRecord>, k: nat, publish: Publisher, clock: Clock)
    requires k < |batch| && !publish(batch[k]).Received?
    requires k < |PendingRecords(w.log.outbox)| && batch[k] == PendingRecords(w.log.outbox)[k]
    ensures Step(Midway(w, who, batch, k, publish, clock), Answer(who, false)) == Midway(w, who, batch, k + 1, publish, clock)
  {
    var mid := Midway(w, who, batch, k, publish, clock);
    var p := AttemptNext(w.log.outbox, k, publish, clock);
    ReportsStep(batch, k, publish, clock);
    hide Drained, PendingRecords, Deliveries, Failures, ReceivedOf;
    var failed, after := Step(mid, Answer(who, false)), Midway(w, who, batch, k + 1, publish, clock);
    assert failed.consumers == after.consumers;
    assert failed.deliveries == after.deliveries;
    assert failed.log == after.log;
  }

  lemma {:induction false} AttemptsReachMidway(w: World, who: nat, batch: seq<OutboxRecord>, k: nat, publish: Publisher, clock: Clock)
    requires DistinctEvents(w.log.outbox) && k <= |batch|
    requires batch <= PendingRecords(w.log.outbox)
    ensures After(Midway(w, who, batch, 0, publish, clock), Attempts(who, batch[..k], publish, clock))
            == Midway(w, who, batch, k, publish, clock)
  {
    hide Midway, Step, PendingRecords, After;
    var start := Midway(w, who, batch, 0, publish, clock);
    if k == 0 {
      NothingHappens(start);
    } else {
      var record := batch[k - 1];
      AttemptsReachMidway(w, who, batch, k - 1, publish, clock);
      assert batch[..k][..k - 1] == batch[..k - 1] && batch[..k][k - 1] == record;
      match publish(record)
      case Received(at) =>
        var time := if at.Some? then at.value else clock(record);
        AfterConcat(start, Attempts(who, batch[..k - 1], publish, clock), [Answer(who, true), Mark(who, time)]);
        AfterTwo(Midway(w, who, batch, k - 1, publish, clock), Answer(who, true), Mark(who, time));
        AttemptReceived(w, who, batch, k - 1, publish, clock);
      case Refused(_, _) =>
        AfterConcat(start, Attempts(who, batch[..k - 1], publish, clock), [Answer(who, false)]);
        AfterOne(Midway(w, who, batch, k - 1, publish, clock), Answer(who, false));
        AttemptFailed(w, who, batch, k - 1, publish, clock);
      case Threw =>
        AfterConcat(start, Attempts(who, batch[..k - 1], publish, clock), [Answer(who, false)]);
        AfterOne(Midway(w, who, batch, k - 1, publish, clock), Answer(who, false));
        AttemptFailed(w, who, batch, k - 1, publish, clock);
    }
  }

  lemma {:induction false} NothingHappens(w: World)
    ensures After(w, []) == w
  {
  }

  /**
   * A drain that nothing disturbs is a run of these steps: listing the outbox, then for each record of
   * the batch the publisher's answer and, if it was received, the marking, then the end. It leaves the
   * outbox that the drain loop leaves, and the publisher has received what it reports as published.
   */
  lemma {:induction false} DrainIsARun(w: World, who: nat, batchSize: nat, publish: Publisher, clock: Clock)
    requires DistinctEvents(w.log.outbox) && ConsumerOf(w, who).Idle?
    ensures var batch := Slice(PendingRecords(w.log.outbox), 0, batchSize);
            var after := After(w, [Begin(who, batchSize)] + Attempts(who, batch, publish, clock) + [Finish(who)]);
            && after.log == w.log.(outbox := Drained(w.log.outbox, batchSize, publish, clock))
            && after.deliveries == w.deliveries + ReceivedOf(batch, publish)
            && |ReceivedOf(batch, publish)| == |Deliveries(batch, publish, clock)|
            && after.consumers == w.consumers[who := Idle] && after.history == w.history && after.crashes == w.crashes
  {
    var batch := Slice(PendingRecords(w.log.outbox), 0, batchSize);
    var done := Midway(w, who, batch, |batch|, publish, clock);
    DrainReachesEnd(w, who, batchSize, publish, clock);
    FinishesDrain(w, who, batchSize, publish, clock);
    AsManyAsReported(batch, publish, clock);
    hide PendingRecords, Slice, After, Step, Midway, Attempts, Drained, Deliveries, ReceivedOf, ConsumerOf, DistinctEvents;
    AfterConcat(w, [Begin(who, batchSize)] + Attempts(who, batch, publish, clock), [Finish(who)]);
    AfterOne(done, Finish(who));
  }

  lemma {:induction false} DrainReachesEnd(w: World, who: nat, batchSize: nat, publish: Publisher, clock: Clock)
    requires DistinctEvents(w.log.outbox) && ConsumerOf(w, who).Idle?
    ensures var batch := Slice(PendingRecords(w.log.outbox), 0, batchSize);
            After(w, [Begin(who, batchSize)] + Attempts(who, batch, publish, clock)) == Midway(w, who, batch, |batch|, publish, clock)
  {
    var batch := Slice(PendingRecords(w.log.outbox), 0, batchSize);
    BeginsMidway(w, who, batchSize, publish, clock);
    assert batch[..|batch|] == batch;
    assert batch <= PendingRecords(w.log.outbox);
    hide PendingRecords, Slice, After, Step, Midway, Attempts, DistinctEvents;
    AttemptsReachMidway(w, who, batch, |batch|, publish, clock);
    AfterOne(w, Begin(who, batchSize));
    AfterConcat(w, [Begin(who, batchSize)], Attempts(who, batch, publish, clock));
  }

  lemma {:induction false} FinishesDrain(w: World, who: nat, batchSize: nat, publish: Publisher, clock: Clock)
    ensures var batch := Slice(PendingRecords(w.log.outbox), 0, batchSize);
            var after := Step(Midway(w, who, batch, |batch|, publish, clock), Finish(who));
            && after.log == w.log.(outbox := Drained(w.log.outbox, batchSize, publish, clock))
            && after.deliveries == w.deliveries + ReceivedOf(batch, publish)
            && after.consumers == w.consumers[who := Idle] && after.history == w.history && after.crashes == w.crashes
  {
    var batch := Slice(PendingRecords(w.log.outbox), 0, batchSize);
    assert batch[..|batch|] == batch;
    hide PendingRecords, Drained, Deliveries, Failures, ReceivedOf;
    if |batch| < batchSize {
      BudgetBeyondPending(w.log.outbox, |batch|, batchSize, publish, clock);
    }
    var done := Midway(w, who, batch, |batch|, publish, clock);
    assert done.consumers[who := Idle] == w.consumers[who := Idle];
  }

  lemma {:induction false} BeginsMidway(w: World, who: nat, batchSize: nat, publish: Publisher, clock: Clock)
    requires ConsumerOf(w, who).Idle?
    ensures Step(w, Begin(who, batchSize)) == Midway(w, who, Slice(PendingRecords(w.log.outbox), 0, batchSize), 0, publish, clock)
  {
    hide PendingRecords;
    var batch := Slice(PendingRecords(w.log.outbox), 0, batchSize);
    assert batch[..0] == [];
    assert Drained(w.log.outbox, 0, publish, clock) == w.log.outbox;
    assert w.deliveries + [] == w.deliveries;
  }

  lemma {:induction false} AsManyAsReported(batch: seq<OutboxRecord>, publish: Publisher, clock: Clock)
    ensures |ReceivedOf(batch, publish)| == |Deliveries(batch, publish, clock)|
  {
    if batch != [] {
      AsManyAsReported(batch[..|batch| - 1], publish, clock);
    }
  }
}
