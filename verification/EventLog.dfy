/** The append-only event log with a retention limit, its cursors and its replay. */
module EventLog {
  import opened Collections
  import opened Text

  const CURSOR_PREFIX := "eventlog:"

  datatype PayloadValue = Scalar(text: string) | Nested

  type Payload = map<string, PayloadValue>

  /** `timestampIsDate` stands for the answer of `Date.parse` on the timestamp. */
  datatype AppendInput = AppendInput(id: string, eventType: string, timestamp: string,
                                     timestampIsDate: bool, source: string, payload: Payload)

  datatype EventRecord = EventRecord(id: string, cursor: string, eventType: string,
                                     timestamp: string, source: string, payload: Payload)

  datatype OutboxStatus = Pending | Published

  datatype OutboxRecord = OutboxRecord(outboxId: string, eventId: string, cursor: string,
                                       status: OutboxStatus, createdAt: string,
                                       publishedAt: Option<string>)

  datatype State = State(nextSequence: nat, events: seq<EventRecord>, outbox: seq<OutboxRecord>)

  datatype Failure = Conflict | UnsafePayload | Rejected | RecordNotFound

  datatype CursorStatus = NoCursor | CursorOk | Expired | NotFound

  datatype ReplayResult = ReplayResult(events: seq<EventRecord>, status: CursorStatus,
                                       oldest: Option<string>, latest: Option<string>)

  const EMPTY_STATE := State(1, [], [])

  // ---- cursors ----

  function CursorFromSequence(sequence: nat): string {
    CURSOR_PREFIX + Numeral(sequence)
  }

  function SequenceFromCursor(cursor: string): Option<nat> {
    if !(CURSOR_PREFIX <= cursor) then None
    else match ParseInt(cursor[|CURSOR_PREFIX|..])
      case Some(n) => if 0 < n <= MAX_SAFE_INTEGER then Some(n) else None
      case None => None
  }

  predicate IsExpiredCursor(cursor: string, oldest: Option<string>) {
    && SequenceFromCursor(cursor).Some?
    && oldest.Some?
    && SequenceFromCursor(oldest.value).Some?
    && SequenceFromCursor(cursor).value < SequenceFromCursor(oldest.value).value
  }

  lemma {:induction false} CursorRoundTrip(n: nat)
    ensures SequenceFromCursor(CursorFromSequence(n)) ==
            if 0 < n <= MAX_SAFE_INTEGER then Some(n) else None
  {
    ParseIntOfNumeral(n);
    assert CursorFromSequence(n)[|CURSOR_PREFIX|..] == Numeral(n);
  }

  lemma {:induction false} CursorInjective(m: nat, n: nat)
    requires CursorFromSequence(m) == CursorFromSequence(n)
    ensures m == n
  {
    assert CursorFromSequence(m)[|CURSOR_PREFIX|..] == Numeral(m);
    assert CursorFromSequence(n)[|CURSOR_PREFIX|..] == Numeral(n);
    NumeralInjective(m, n);
  }

  function OutboxIdOf(eventId: string): string {
    "outbox:" + eventId
  }

  // ---- event records ----

  predicate IsTokenChar(c: char) {
    'A' <= c <= 'Z' || 'a' <= c <= 'z' || IsDigit(c) || c in {'_', '.', ':', '-'}
  }

  predicate IsSafeToken(s: string) {
    s != "" && forall i :: 0 <= i < |s| ==> IsTokenChar(s[i])
  }

  /** What the record constructor demands of an input, whatever cursor it is given. */
  predicate IsAcceptable(input: AppendInput) {
    && IsSafeToken(input.id) && IsSafeToken(input.eventType) && IsSafeToken(input.source)
    && input.timestampIsDate
    && forall key :: key in input.payload ==> IsSafeToken(key) && input.payload[key].Scalar?
  }

  function RecordOf(input: AppendInput, cursor: string): EventRecord {
    EventRecord(input.id, cursor, input.eventType, input.timestamp, input.source, input.payload)
  }

  function CreateRecord(input: AppendInput, cursor: string): Option<EventRecord> {
    if IsSafeToken(cursor) && IsAcceptable(input) then Some(RecordOf(input, cursor)) else None
  }

  lemma {:induction false} CursorIsSafeToken(n: nat)
    ensures IsSafeToken(CursorFromSequence(n))
  {
    var c := CursorFromSequence(n);
    forall i | 0 <= i < |c| ensures IsTokenChar(c[i]) {
      if i >= |CURSOR_PREFIX| {
        assert c[i] == Numeral(n)[i - |CURSOR_PREFIX|];
      }
    }
  }

  lemma {:induction false} SafeTokens(s: string)
    ensures IsSafeToken(s) <==> IsToken(s)
  {
    forall i | 0 <= i < |s| ensures IsTokenChar(s[i]) <==> s[i] in TOKEN_CHARACTERS {
      TokenCharacters(s[i]);
    }
    hide IsTokenChar;
  }

  // ---- operations on the state ----

  function RetainEvents(events: seq<EventRecord>, retentionLimit: nat): seq<EventRecord> {
    events[Max(0, |events| - retentionLimit)..]
  }

  function Append(s: State, retentionLimit: nat, input: AppendInput): (Result<EventRecord, Failure>, State) {
    var existing := FindIndex(s.events, (e: EventRecord) => e.id == input.id);
    if existing >= 0 then (Ok(s.events[existing]), s)
    else if FindIndex(s.outbox, (r: OutboxRecord) => r.eventId == input.id) >= 0 then (Err(Conflict), s)
    else match CreateRecord(input, CursorFromSequence(s.nextSequence))
      case None => (Err(UnsafePayload), s)
      case Some(event) =>
        var record := OutboxRecord(OutboxIdOf(event.id), event.id, event.cursor, Pending, event.timestamp, None);
        (Ok(event), State(NumberSuccessor(s.nextSequence),
                          RetainEvents(s.events + [event], retentionLimit),
                          s.outbox + [record]))
  }

  function Replay(events: seq<EventRecord>, cursor: Option<string>, limit: int): Result<ReplayResult, Failure> {
    if limit <= 0 then Err(Rejected)
    else
      var oldest := if events == [] then None else Some(events[0].cursor);
      var latest := if events == [] then None else Some(events[|events| - 1].cursor);
      match cursor
      case None => Ok(ReplayResult(Slice(events, 0, limit), NoCursor, oldest, latest))
      case Some(c) =>
        var index := FindIndex(events, (e: EventRecord) => e.cursor == c);
        if index >= 0 then
          Ok(ReplayResult(Slice(events, index + 1, index + 1 + limit), CursorOk, oldest, latest))
        else
          Ok(ReplayResult([], if IsExpiredCursor(c, oldest) then Expired else NotFound, oldest, latest))
  }

  function PendingRecords(outbox: seq<OutboxRecord>): seq<OutboxRecord> {
    if outbox == [] then []
    else if outbox[0].status.Pending? then [outbox[0]] + PendingRecords(outbox[1..])
    else PendingRecords(outbox[1..])
  }

  /** How many of the first `n` records are pending. */
  function PendingBefore(outbox: seq<OutboxRecord>, n: nat): nat
    requires n <= |outbox|
  {
    |set i | 0 <= i < n && outbox[i].status.Pending?|
  }

  lemma {:induction false} OneMoreRecord(outbox: seq<OutboxRecord>, n: nat)
    requires n < |outbox|
    ensures PendingBefore(outbox, n + 1) == PendingBefore(outbox, n) + if outbox[n].status.Pending? then 1 else 0
  {
    var before, after := set i | 0 <= i < n && outbox[i].status.Pending?, set i | 0 <= i < n + 1 && outbox[i].status.Pending?;
    assert after == if outbox[n].status.Pending? then before + {n} else before;
  }

  lemma {:induction false} PendingOfPrefix(outbox: seq<OutboxRecord>, n: nat)
    requires n <= |outbox|
    ensures |PendingRecords(outbox[..n])| == PendingBefore(outbox, n)
    ensures forall i :: 0 <= i < n && outbox[i].status.Pending? ==>
              PendingBefore(outbox, i) < |PendingRecords(outbox[..n])| && PendingRecords(outbox[..n])[PendingBefore(outbox, i)] == outbox[i]
  {
    hide PendingBefore;
    if n == 0 {
      assert outbox[..0] == [];
      assert PendingBefore(outbox, 0) == 0 by { NothingBeforeFirst(outbox); }
    } else {
      PendingOfPrefix(outbox, n - 1);
      OneMoreRecord(outbox, n - 1);
      assert outbox[..n] == outbox[..n - 1] + [outbox[n - 1]];
      PendingOfExtension(outbox[..n - 1], outbox[n - 1]);
      hide PendingRecords;
    }
  }

  lemma {:induction false} NothingBeforeFirst(outbox: seq<OutboxRecord>)
    ensures PendingBefore(outbox, 0) == 0
  {
  }

  lemma {:induction false} PendingOfExtension(outbox: seq<OutboxRecord>, record: OutboxRecord)
    ensures PendingRecords(outbox + [record]) == PendingRecords(outbox) + if record.status.Pending? then [record] else []
  {
    if outbox == [] {
      assert [] + [record] == [record] && [record][1..] == [];
    } else {
      assert (outbox + [record])[1..] == outbox[1..] + [record];
      PendingOfExtension(outbox[1..], record);
    }
  }

  /** The pending records are listed in the order of the outbox, each at the place that the ones before it leave, and no others. */
  lemma {:induction false} PendingInOrder(outbox: seq<OutboxRecord>)
    ensures |PendingRecords(outbox)| == PendingBefore(outbox, |outbox|)
    ensures forall i :: 0 <= i < |outbox| && outbox[i].status.Pending? ==>
              PendingBefore(outbox, i) < |PendingRecords(outbox)| && PendingRecords(outbox)[PendingBefore(outbox, i)] == outbox[i]
  {
    PendingOfPrefix(outbox, |outbox|);
    assert outbox[..|outbox|] == outbox;
  }

  function MarkPublished(s: State, eventId: string, publishedAt: string): (Result<string, Failure>, State) {
    var index := FindIndex(s.outbox, (r: OutboxRecord) => r.eventId == eventId);
    if index < 0 then (Err(RecordNotFound), s)
    else
      var record := s.outbox[index].(status := Published, publishedAt := Some(publishedAt));
      (Ok(record.cursor), s.(outbox := s.outbox[index := record]))
  }

  // ---- what a state stands for: the list of every event accepted so far ----

  /** The cursor of the event accepted after `k` others; it sticks when the counter sticks. */
  function CursorAt(k: nat): string {
    CursorFromSequence(NumberSuccessor(k))
  }

  ghost predicate IsHistory(accepted: seq<EventRecord>) {
    && (forall i :: 0 <= i < |accepted| ==> accepted[i].cursor == CursorAt(i))
    && (forall i, j :: 0 <= i < j < |accepted| ==> accepted[i].id != accepted[j].id)
  }

  ghost predicate Describes(record: OutboxRecord, event: EventRecord) {
    && record.outboxId == OutboxIdOf(event.id)
    && record.eventId == event.id
    && record.cursor == event.cursor
    && record.createdAt == event.timestamp
    && (record.status.Pending? <==> record.publishedAt.None?)
  }

  /** The log keeps a suffix of the history, and never an empty one. */
  ghost predicate IsRetained(events: seq<EventRecord>, accepted: seq<EventRecord>) {
    && |events| <= |accepted|
    && (accepted != [] ==> events != [])
    && IsStretch(events, accepted, |accepted| - |events|)
  }

  ghost predicate IsOutboxOf(outbox: seq<OutboxRecord>, accepted: seq<EventRecord>) {
    && |outbox| == |accepted|
    && forall i :: 0 <= i < |accepted| ==> Describes(outbox[i], accepted[i])
  }

  ghost predicate Represents(s: State, accepted: seq<EventRecord>) {
    && IsHistory(accepted)
    && s.nextSequence == NumberSuccessor(|accepted|)
    && IsRetained(s.events, accepted)
    && IsOutboxOf(s.outbox, accepted)
  }

  /** How many of the accepted events have been dropped by the retention limit. */
  function Evicted(s: State): nat
    requires |s.events| <= |s.outbox|
  {
    |s.outbox| - |s.events|
  }

  predicate Knows(accepted: seq<EventRecord>, id: string) {
    exists i :: 0 <= i < |accepted| && accepted[i].id == id
  }

  /** The history after one more submission, said without the log and without the limit. */
  function Accept(accepted: seq<EventRecord>, input: AppendInput): seq<EventRecord> {
    if Knows(accepted, input.id) || !IsAcceptable(input) then accepted
    else accepted + [RecordOf(input, CursorAt(|accepted|))]
  }

  /** Finding an id in the log or in its outbox, told in terms of the history. */
  lemma {:induction false} LookupInHistory(s: State, accepted: seq<EventRecord>, id: string)
    requires Represents(s, accepted)
    ensures var j := FindIndex(s.events, (e: EventRecord) => e.id == id);
            && (j >= 0 ==> accepted[Evicted(s) + j] == s.events[j] && Knows(accepted, id))
            && (j < 0 ==> forall i :: Evicted(s) <= i < |accepted| ==> accepted[i].id != id)
    ensures FindIndex(s.outbox, (r: OutboxRecord) => r.eventId == id) >= 0 <==> Knows(accepted, id)
  {
    LookupRetained(s, accepted, id);
    LookupOutbox(s, accepted, id);
    hide Represents, FindIndex;
  }

  lemma {:induction false} LookupRetained(s: State, accepted: seq<EventRecord>, id: string)
    requires Represents(s, accepted)
    ensures var j := FindIndex(s.events, (e: EventRecord) => e.id == id);
            && (j >= 0 ==> accepted[Evicted(s) + j] == s.events[j] && Knows(accepted, id))
            && (j < 0 ==> forall i :: Evicted(s) <= i < |accepted| ==> accepted[i].id != id)
  {
    hide CursorFromSequence, OutboxIdOf, FindIndex, IsHistory, Describes;
    assert forall i :: Evicted(s) <= i < |accepted| ==> accepted[i] == s.events[i - Evicted(s)];
  }

  lemma {:induction false} LookupOutbox(s: State, accepted: seq<EventRecord>, id: string)
    requires Represents(s, accepted)
    ensures FindIndex(s.outbox, (r: OutboxRecord) => r.eventId == id) >= 0 <==> Knows(accepted, id)
  {
    hide CursorFromSequence, OutboxIdOf, FindIndex, IsHistory, IsRetained;
    assert forall i :: 0 <= i < |accepted| ==> Describes(s.outbox[i], accepted[i]);
  }

  lemma {:induction false} RetainKeepsSuffix(events: seq<EventRecord>, accepted: seq<EventRecord>, event: EventRecord,
          retentionLimit: nat)
    requires IsRetained(events, accepted) && retentionLimit > 0
    ensures IsRetained(RetainEvents(events + [event], retentionLimit), accepted + [event])
    ensures |RetainEvents(events + [event], retentionLimit)| == Min(retentionLimit, |events| + 1)
  {
    var all := events + [event];
    assert IsStretch(all, accepted + [event], |accepted| - |events|);
    StretchOfStretch(all, accepted + [event], |accepted| - |events|, Max(0, |all| - retentionLimit), |all|);
  }

  lemma {:induction false} AppendRefinesAccept(s: State, accepted: seq<EventRecord>, retentionLimit: nat,
          input: AppendInput)
    requires Represents(s, accepted) && retentionLimit > 0
    ensures Represents(Append(s, retentionLimit, input).1, Accept(accepted, input))
  {
    hide CursorFromSequence, OutboxIdOf, IsRetained, RetainEvents, IsSafeToken;
    var event := RecordOf(input, CursorFromSequence(s.nextSequence));
    LookupInHistory(s, accepted, input.id);
    CursorIsSafeToken(s.nextSequence);
    RetainKeepsSuffix(s.events, accepted, event, retentionLimit);
  }

  /** Submitting a known id never changes the log; it is answered from the log or refused. */
  lemma {:induction false} ResubmissionChangesNothing(s: State, accepted: seq<EventRecord>, retentionLimit: nat,
                                   input: AppendInput, i: nat)
    requires Represents(s, accepted)
    requires i < |accepted| && accepted[i].id == input.id
    ensures Append(s, retentionLimit, input) ==
            (if i >= Evicted(s) then Ok(accepted[i]) else Err(Conflict), s)
  {
    hide CursorFromSequence;
    LookupInHistory(s, accepted, input.id);
  }

  /**
   * Submitting a new id: it is accepted exactly when its id, type, source and payload keys are tokens, its
   * timestamp is a date and its payload holds scalars only. The event then carries the input and the next
   * cursor, the log keeps it with as many of the events before it as the limit allows, and the outbox gets
   * its pending record. A refused input changes nothing.
   */
  lemma {:induction false} SubmissionOutcome(s: State, accepted: seq<EventRecord>, retentionLimit: nat, input: AppendInput)
    requires Represents(s, accepted) && retentionLimit > 0 && |accepted| <= MAX_SAFE_INTEGER
    requires forall e :: e in accepted ==> e.id != input.id
    ensures var (r, after) := Append(s, retentionLimit, input);
            var acceptable :=
              && IsToken(input.id) && IsToken(input.eventType) && IsToken(input.source)
              && input.timestampIsDate
              && (forall key :: key in input.payload ==> IsToken(key) && input.payload[key].Scalar?);
            if acceptable then
              && r == Ok(EventRecord(input.id, "eventlog:" + Numeral(|accepted| + 1), input.eventType, input.timestamp,
                                     input.source, input.payload))
              && |after.events| == Min(retentionLimit, |s.events| + 1)
              && IsStretch(after.events, accepted + [r.value], |accepted| + 1 - |after.events|)
              && after.outbox == s.outbox + [OutboxRecord("outbox:" + input.id, input.id, r.value.cursor, Pending, input.timestamp, None)]
            else r == Err(UnsafePayload) && after == s
  {
    hide IsAcceptable, FindIndex, IsHistory, Describes, Numeral, IsStretch, IsSafeToken, IsToken;
    assert !Knows(accepted, input.id);
    LookupInHistory(s, accepted, input.id);
    CursorIsSafeToken(s.nextSequence);
    AcceptableInputs(input);
    RetainKeepsSuffix(s.events, accepted, RecordOf(input, CursorFromSequence(s.nextSequence)), retentionLimit);
  }

  lemma {:induction false} AcceptableInputs(input: AppendInput)
    ensures IsAcceptable(input)
            <==> && IsToken(input.id) && IsToken(input.eventType) && IsToken(input.source)
                 && input.timestampIsDate
                 && (forall key :: key in input.payload ==> IsToken(key) && input.payload[key].Scalar?)
  {
    SafeTokens(input.id);
    SafeTokens(input.eventType);
    SafeTokens(input.source);
    forall key | key in input.payload ensures IsSafeToken(key) <==> IsToken(key) {
      SafeTokens(key);
    }
    hide IsSafeToken, IsToken;
  }

  lemma {:induction false} CursorsOfHistory(accepted: seq<EventRecord>, i: nat, j: nat)
    requires IsHistory(accepted) && i < |accepted| && j < |accepted|
    ensures accepted[i].cursor == accepted[j].cursor <==> NumberSuccessor(i) == NumberSuccessor(j)
  {
    hide CursorFromSequence;
    if accepted[i].cursor == accepted[j].cursor {
      CursorInjective(NumberSuccessor(i), NumberSuccessor(j));
    }
  }

  /** Cursors identify events exactly until the sequence counter reaches 2^53 and sticks. */
  lemma {:induction false} CursorsDistinctIff(accepted: seq<EventRecord>)
    requires IsHistory(accepted)
    ensures (forall i, j :: 0 <= i < j < |accepted| ==> accepted[i].cursor != accepted[j].cursor)
            <==> |accepted| <= MAX_SAFE_INTEGER + 1
  {
    hide CursorFromSequence;
    if |accepted| <= MAX_SAFE_INTEGER + 1 {
      forall i, j | 0 <= i < j < |accepted| ensures accepted[i].cursor != accepted[j].cursor {
        CursorsOfHistory(accepted, i, j);
      }
    } else {
      CursorsOfHistory(accepted, MAX_SAFE_INTEGER, MAX_SAFE_INTEGER + 1);
    }
  }

  lemma {:induction false} RetainedCursor(s: State, accepted: seq<EventRecord>, k: nat, j: nat)
    requires Represents(s, accepted) && k < |accepted| && j < |s.events|
    ensures s.events[j].cursor == accepted[k].cursor <==> NumberSuccessor(k) == NumberSuccessor(Evicted(s) + j)
  {
    hide CursorFromSequence, Describes;
    assert s.events[j] == accepted[Evicted(s) + j];
    CursorsOfHistory(accepted, k, Evicted(s) + j);
  }

  /** The retained events hold the k-th cursor when the event is retained or the counter has stuck. */
  lemma {:induction false} CursorLookup(s: State, accepted: seq<EventRecord>, k: nat) returns (index: int)
    requires Represents(s, accepted) && k < |accepted|
    ensures index == FindIndex(s.events, (e: EventRecord) => e.cursor == accepted[k].cursor)
    ensures index >= 0 ==> NumberSuccessor(k) == NumberSuccessor(Evicted(s) + index)
    ensures index < 0 <==> k < Evicted(s) && k < MAX_SAFE_INTEGER
  {
    index := FindIndex(s.events, (e: EventRecord) => e.cursor == accepted[k].cursor);
    var j := if index >= 0 then index else if k >= Evicted(s) then k - Evicted(s) else 0;
    RetainedCursor(s, accepted, k, j);
    hide IsHistory, Describes, FindIndex, IsStretch;
  }

  /** An evicted cursor reads as expired unless the oldest cursor is past the safe integers. */
  lemma {:induction false} EvictedCursorExpires(s: State, accepted: seq<EventRecord>, k: nat)
    requires Represents(s, accepted) && k < Evicted(s) && k < MAX_SAFE_INTEGER
    ensures s.events != []
    ensures IsExpiredCursor(accepted[k].cursor, Some(s.events[0].cursor)) <==> Evicted(s) < MAX_SAFE_INTEGER
  {
    hide CursorFromSequence, SequenceFromCursor, Describes;
    assert s.events[0] == accepted[Evicted(s)];
    CursorRoundTrip(NumberSuccessor(k));
    CursorRoundTrip(NumberSuccessor(Evicted(s)));
  }

  /** Replay after the cursor of the k-th event, for every k ever issued, retained or evicted. */
  lemma {:induction false} ReplayFromIssuedCursor(s: State, accepted: seq<EventRecord>, k: nat, limit: int)
    requires Represents(s, accepted) && k < |accepted| && limit > 0
    ensures var r := Replay(s.events, Some(accepted[k].cursor), limit);
            && r.Ok?
            && (r.value.status == NotFound <==> k < MAX_SAFE_INTEGER <= Evicted(s))
            && (|accepted| <= MAX_SAFE_INTEGER ==>
                  if k < Evicted(s) then r.value.status == Expired && r.value.events == []
                  else && r.value.status == CursorOk
                       && IsStretch(r.value.events, accepted, k + 1)
                       && |r.value.events| == Min(limit, |accepted| - (k + 1)))
  {
    hide IsHistory, Describes, IsExpiredCursor, FindIndex;
    var off := Evicted(s);
    var index := CursorLookup(s, accepted, k);
    if index < 0 {
      EvictedCursorExpires(s, accepted, k);
    } else {
      StretchOfStretch(s.events, accepted, off, index + 1, Min(index + 1 + limit, |s.events|));
    }
  }

  // ---- runs: submissions, publications, reopening the durable file, and one reader ----

  datatype Action =
    | Submit(input: AppendInput)
    | Publish(eventId: string, at: string)
    | Reopen(retentionLimit: int)
    | ReadPage(limit: int)

  /** A client that follows the cursor of its last event until it is told `expired`. */
  datatype Reader = Reader(cursor: Option<string>, received: seq<EventRecord>, expired: bool, lost: bool)

  datatype System = System(log: State, retentionLimit: nat, reader: Reader)

  function TakePage(reader: Reader, page: ReplayResult): Reader {
    if page.status == Expired then reader.(expired := true)
    else if page.status == NotFound then reader.(lost := true)
    else if page.events == [] then reader
    else reader.(cursor := Some(page.events[|page.events| - 1].cursor),
                 received := reader.received + page.events)
  }

  function Read(reader: Reader, s: State, limit: int): Reader {
    if reader.expired || reader.lost then reader
    else match Replay(s.events, reader.cursor, limit)
      case Err(_) => reader
      case Ok(page) => TakePage(reader, page)
  }

  /** A store opened with a limit that is not positive fails to open and changes nothing. */
  function Step(sys: System, action: Action): System {
    match action
    case Submit(input) => sys.(log := Append(sys.log, sys.retentionLimit, input).1)
    case Publish(eventId, at) => sys.(log := MarkPublished(sys.log, eventId, at).1)
    case Reopen(limit) => if limit > 0 then sys.(retentionLimit := limit) else sys
    case ReadPage(limit) => sys.(reader := Read(sys.reader, sys.log, limit))
  }

  function Run(retentionLimit: nat, actions: seq<Action>): System {
    if actions == [] then System(EMPTY_STATE, retentionLimit, Reader(None, [], false, false))
    else Step(Run(retentionLimit, actions[..|actions| - 1]), actions[|actions| - 1])
  }

  /** Every event accepted in a run, read off the submissions alone. */
  function Accepted(actions: seq<Action>): seq<EventRecord> {
    if actions == [] then []
    else
      var before := Accepted(actions[..|actions| - 1]);
      match actions[|actions| - 1]
      case Submit(input) => Accept(before, input)
      case _ => before
  }

  lemma {:induction false} MarkKeepsRepresentation(s: State, accepted: seq<EventRecord>, eventId: string, at: string)
    requires Represents(s, accepted)
    ensures Represents(MarkPublished(s, eventId, at).1, accepted)
  {
    hide CursorFromSequence, OutboxIdOf, IsRetained;
    var index := FindIndex(s.outbox, (r: OutboxRecord) => r.eventId == eventId);
    if index >= 0 {
      assert Describes(s.outbox[index], accepted[index]);
    }
  }

  /** Marking turns the record of that event, and no other, to published at that time, and keeps its other fields. */
  lemma {:induction false} MarkOutcome(s: State, accepted: seq<EventRecord>, eventId: string, at: string)
    requires Represents(s, accepted)
    ensures var (r, after) := MarkPublished(s, eventId, at);
            && after.nextSequence == s.nextSequence && after.events == s.events && |after.outbox| == |s.outbox|
            && (forall i :: 0 <= i < |s.outbox| && s.outbox[i].eventId != eventId ==> after.outbox[i] == s.outbox[i])
            && (forall i :: 0 <= i < |s.outbox| && s.outbox[i].eventId == eventId ==>
                  && r == Ok(s.outbox[i].cursor)
                  && after.outbox[i]
                     == OutboxRecord(s.outbox[i].outboxId, eventId, s.outbox[i].cursor, Published, s.outbox[i].createdAt, Some(at)))
            && ((forall i :: 0 <= i < |s.outbox| ==> s.outbox[i].eventId != eventId) ==> r == Err(RecordNotFound))
  {
    hide CursorFromSequence, OutboxIdOf, IsRetained;
    assert forall i :: 0 <= i < |s.outbox| ==> Describes(s.outbox[i], accepted[i]);
  }

  /** One outbox record per accepted event, in order, with cursors 1, 2, 3 and so on, in every run. */
  lemma {:induction false} EveryEventHasOneOutboxRecord(retentionLimit: nat, actions: seq<Action>)
    requires retentionLimit > 0
    ensures Represents(Run(retentionLimit, actions).log, Accepted(actions))
    ensures Run(retentionLimit, actions).retentionLimit > 0
  {
    hide CursorFromSequence;
    if actions != [] {
      var before := actions[..|actions| - 1];
      EveryEventHasOneOutboxRecord(retentionLimit, before);
      var sys := Run(retentionLimit, before);
      match actions[|actions| - 1]
      case Submit(input) => AppendRefinesAccept(sys.log, Accepted(before), sys.retentionLimit, input);
      case Publish(eventId, at) => MarkKeepsRepresentation(sys.log, Accepted(before), eventId, at);
      case Reopen(_) =>
      case ReadPage(_) =>
    }
  }

  // ---- runs that keep one retention limit ----

  ghost predicate NeverReopens(actions: seq<Action>) {
    forall i :: 0 <= i < |actions| ==> !actions[i].Reopen?
  }

  lemma {:induction false} AppendKeepsNewest(s: State, accepted: seq<EventRecord>, retentionLimit: nat, input: AppendInput)
    requires Represents(s, accepted) && retentionLimit > 0
    ensures |Append(s, retentionLimit, input).1.events|
            == if Accept(accepted, input) == accepted then |s.events| else Min(retentionLimit, |s.events| + 1)
  {
    LookupInHistory(s, accepted, input.id);
    CursorIsSafeToken(s.nextSequence);
    hide IsAcceptable, FindIndex, IsHistory, Describes, Numeral, IsStretch, IsSafeToken;
  }

  /** The log holds the newest of all accepted events, as many as the limit allows. */
  lemma {:induction false} RunKeepsNewest(retentionLimit: nat, actions: seq<Action>)
    requires retentionLimit > 0 && NeverReopens(actions)
    ensures var log, accepted := Run(retentionLimit, actions).log, Accepted(actions);
            log.events == accepted[|accepted| - Min(retentionLimit, |accepted|)..]
    ensures Run(retentionLimit, actions).retentionLimit == retentionLimit
  {
    hide Run, Accepted, IsRetained, IsHistory, Describes;
    EveryEventHasOneOutboxRecord(retentionLimit, actions);
    RunKeepsCount(retentionLimit, actions);
    RetainedIsNewest(Run(retentionLimit, actions).log.events, Accepted(actions));
  }

  lemma {:induction false} RetainedIsNewest(events: seq<EventRecord>, accepted: seq<EventRecord>)
    requires IsRetained(events, accepted)
    ensures |events| <= |accepted| && events == accepted[|accepted| - |events|..]
  {
  }

  lemma {:induction false} RunKeepsCount(retentionLimit: nat, actions: seq<Action>)
    requires retentionLimit > 0 && NeverReopens(actions)
    ensures |Run(retentionLimit, actions).log.events| == Min(retentionLimit, |Accepted(actions)|)
    ensures Run(retentionLimit, actions).retentionLimit == retentionLimit
  {
    hide Append, Represents, Read;
    if actions != [] {
      var before := actions[..|actions| - 1];
      assert NeverReopens(before);
      RunKeepsCount(retentionLimit, before);
      EveryEventHasOneOutboxRecord(retentionLimit, before);
      assert !actions[|actions| - 1].Reopen?;
      match actions[|actions| - 1]
      case Submit(input) => AppendKeepsNewest(Run(retentionLimit, before).log, Accepted(before), retentionLimit, input);
      case Publish(_, _) =>
      case ReadPage(_) =>
    }
  }

  /** After a reopening with a positive limit that limit counts, from the next accepted event on; with another, nothing changes. */
  lemma {:induction false} ReopenedWithLimit(retentionLimit: nat, actions: seq<Action>, limit: int, input: AppendInput)
    requires retentionLimit > 0 && Accepted(actions + [Submit(input)]) != Accepted(actions)
    ensures var before, after := Run(retentionLimit, actions), Run(retentionLimit, actions + [Reopen(limit)] + [Submit(input)]);
            && Run(retentionLimit, actions + [Reopen(limit)]).log == before.log
            && |after.log.events| == Min(if limit > 0 then limit else before.retentionLimit, |before.log.events| + 1)
  {
    var reopened := actions + [Reopen(limit)];
    assert reopened[..|actions|] == actions && (reopened + [Submit(input)])[..|reopened|] == reopened;
    assert (actions + [Submit(input)])[..|actions|] == actions;
    EveryEventHasOneOutboxRecord(retentionLimit, actions);
    hide Append, Accept, Represents, Read;
    var sys := Run(retentionLimit, reopened);
    AppendKeepsNewest(sys.log, Accepted(actions), sys.retentionLimit, input);
  }

  /**
   * What a request for the events after number `n` is answered, for every `n`, in a run with one limit:
   * the numbers that the limit has dropped have expired, those still kept are answered with the events
   * that come next, and all others are not found. The bounds are the first and the last kept cursor.
   */
  lemma {:induction false} ReplayByNumber(retentionLimit: nat, actions: seq<Action>, n: nat, limit: int)
    requires retentionLimit > 0 && NeverReopens(actions) && |Accepted(actions)| <= MAX_SAFE_INTEGER && limit > 0
    ensures var accepted := Accepted(actions);
            var r := Replay(Run(retentionLimit, actions).log.events, Some("eventlog:" + Numeral(n)), limit);
            && r.Ok?
            && r.value.status == (if n == 0 || n > |accepted| then NotFound
                                  else if n <= |accepted| - retentionLimit then Expired
                                  else CursorOk)
            && r.value.events == (if r.value.status == CursorOk then accepted[n..Min(n + limit, |accepted|)] else [])
            && (accepted == [] ==> r.value.oldest.None? && r.value.latest.None?)
            && (accepted != [] ==>
                  && r.value.oldest == Some("eventlog:" + Numeral(Max(1, |accepted| - retentionLimit + 1)))
                  && r.value.latest == Some("eventlog:" + Numeral(|accepted|)))
  {
    hide Run, Accepted, Represents, Replay, Numeral, NeverReopens;
    EveryEventHasOneOutboxRecord(retentionLimit, actions);
    RunKeepsCount(retentionLimit, actions);
    var s, accepted := Run(retentionLimit, actions).log, Accepted(actions);
    AllCursorsReplay(s, accepted, n, limit);
    BoundsOfReplay(s, accepted, Some(CursorFromSequence(n)), limit);
  }

  lemma {:induction false} BoundsOfReplay(s: State, accepted: seq<EventRecord>, cursor: Option<string>, limit: int)
    requires Represents(s, accepted) && |accepted| <= MAX_SAFE_INTEGER && limit > 0
    ensures var r := Replay(s.events, cursor, limit);
            && r.Ok?
            && (accepted == [] ==> r.value.oldest.None? && r.value.latest.None?)
            && (accepted != [] ==>
                  && r.value.oldest == Some(CursorFromSequence(|accepted| - |s.events| + 1))
                  && r.value.latest == Some(CursorFromSequence(|accepted|)))
  {
    hide CursorFromSequence, Describes, FindIndex, IsExpiredCursor, Slice;
    assert forall i :: 0 <= i < |s.events| ==> s.events[i] == accepted[|accepted| - |s.events| + i];
  }

  lemma {:induction false} AllCursorsReplay(s: State, accepted: seq<EventRecord>, n: nat, limit: int)
    requires Represents(s, accepted) && |accepted| <= MAX_SAFE_INTEGER && limit > 0
    ensures var r := Replay(s.events, Some(CursorFromSequence(n)), limit);
            && r.Ok?
            && r.value.status == (if n == 0 || n > |accepted| then NotFound
                                  else if n <= |accepted| - |s.events| then Expired
                                  else CursorOk)
            && r.value.events == (if r.value.status == CursorOk then accepted[n..Min(n + limit, |accepted|)] else [])
  {
    hide Replay, CursorFromSequence, Represents;
    if 0 < n <= |accepted| {
      IssuedCursor(s, accepted, n, limit);
    } else {
      UnissuedCursor(s, accepted, n, limit);
    }
  }

  lemma {:induction false} IssuedCursor(s: State, accepted: seq<EventRecord>, n: nat, limit: int)
    requires Represents(s, accepted) && |accepted| <= MAX_SAFE_INTEGER && limit > 0 && 0 < n <= |accepted|
    ensures |s.events| <= |accepted|
    ensures var r := Replay(s.events, Some(CursorFromSequence(n)), limit);
            && r.Ok?
            && r.value.status == (if n <= |accepted| - |s.events| then Expired else CursorOk)
            && r.value.events == (if r.value.status == CursorOk then accepted[n..Min(n + limit, |accepted|)] else [])
  {
    assert |s.outbox| == |accepted| && |s.events| <= |accepted|;
    assert accepted[n - 1].cursor == CursorFromSequence(n) by { hide CursorFromSequence, IsRetained, IsOutboxOf; }
    ReplayFromIssuedCursor(s, accepted, n - 1, limit);
    hide Replay, CursorFromSequence, Represents;
    var page := Replay(s.events, Some(CursorFromSequence(n)), limit).value;
    if page.status == CursorOk {
      SameStretch(page.events, accepted, n);
    }
  }

  lemma {:induction false} SameStretch(part: seq<EventRecord>, whole: seq<EventRecord>, from: nat)
    requires IsStretch(part, whole, from)
    ensures part == whole[from..from + |part|]
  {
  }

  lemma {:induction false} UnissuedCursor(s: State, accepted: seq<EventRecord>, n: nat, limit: int)
    requires Represents(s, accepted) && |accepted| <= MAX_SAFE_INTEGER && limit > 0
    requires n == 0 || n > |accepted|
    ensures |s.events| <= |accepted|
    ensures var r := Replay(s.events, Some(CursorFromSequence(n)), limit);
            r.Ok? && r.value.status == NotFound && r.value.events == []
  {
    hide CursorFromSequence, SequenceFromCursor, Describes;
    CursorRoundTrip(n);
    forall i | 0 <= i < |s.events| ensures s.events[i].cursor != CursorFromSequence(n) {
      assert s.events[i] == accepted[|accepted| - |s.events| + i];
      if s.events[i].cursor == CursorFromSequence(n) {
        CursorInjective(NumberSuccessor(|accepted| - |s.events| + i), n);
      }
    }
    if s.events != [] {
      assert s.events[0] == accepted[|accepted| - |s.events|];
      CursorRoundTrip(NumberSuccessor(|accepted| - |s.events|));
    }
    hide FindIndex, IsHistory, IsStretch;
  }

  /** The reader holds a stretch of the accepted events and the cursor of its last one. */
  ghost predicate ReaderAt(reader: Reader, accepted: seq<EventRecord>, start: nat) {
    && IsStretch(reader.received, accepted, start)
    && (reader.received == [] ==> reader.cursor.None?)
    && (reader.received != [] ==> reader.cursor == Some(reader.received[|reader.received| - 1].cursor))
    && !reader.lost
  }

  /** The page is the stretch of the history that comes next, as long as the limit allows. */
  ghost predicate IsNextPage(page: ReplayResult, accepted: seq<EventRecord>, from: nat, limit: nat) {
    page.status != Expired ==>
      && from <= |accepted|
      && IsStretch(page.events, accepted, from)
      && |page.events| == Min(limit, |accepted| - from)
  }

  lemma {:induction false} NextPage(reader: Reader, s: State, accepted: seq<EventRecord>, start: nat, limit: int)
    returns (page: ReplayResult, from: nat)
    requires Represents(s, accepted) && |accepted| <= MAX_SAFE_INTEGER
    requires ReaderAt(reader, accepted, start) && limit > 0
    ensures Replay(s.events, reader.cursor, limit) == Ok(page)
    ensures page.status != NotFound
    ensures IsNextPage(page, accepted, from, limit)
    ensures reader.received != [] ==> from == start + |reader.received|
  {
    hide Replay, Represents, IsStretch;
    if reader.received == [] {
      FirstPage(s, accepted, limit);
      from := |accepted| - |s.events|;
    } else {
      from := start + |reader.received|;
      LastReceived(reader, accepted, start);
      ReplayFromIssuedCursor(s, accepted, from - 1, limit);
    }
    page := Replay(s.events, reader.cursor, limit).value;
  }

  lemma {:induction false} FirstPage(s: State, accepted: seq<EventRecord>, limit: int)
    requires Represents(s, accepted) && limit > 0
    ensures var r := Replay(s.events, None, limit);
            && r.Ok? && r.value.status == NoCursor
            && |s.events| <= |accepted|
            && IsNextPage(r.value, accepted, |accepted| - |s.events|, limit)
  {
    hide IsHistory, Describes, FindIndex, IsExpiredCursor;
    StretchOfStretch(s.events, accepted, |accepted| - |s.events|, 0, Min(limit, |s.events|));
  }

  lemma {:induction false} LastReceived(reader: Reader, accepted: seq<EventRecord>, start: nat)
    requires ReaderAt(reader, accepted, start) && reader.received != []
    ensures var k := start + |reader.received| - 1;
            k < |accepted| && reader.cursor == Some(accepted[k].cursor)
  {
  }

  lemma {:induction false} TakePageKeepsPlace(reader: Reader, page: ReplayResult, accepted: seq<EventRecord>,
          start: nat, from: nat)
    requires ReaderAt(reader, accepted, start)
    requires page.status != Expired && page.status != NotFound && IsStretch(page.events, accepted, from)
    requires reader.received != [] ==> from == start + |reader.received|
    ensures ReaderAt(TakePage(reader, page), accepted, if reader.received == [] then from else start)
  {
    var start' := if reader.received == [] then from else start;
    assert IsStretch(reader.received, accepted, start');
    AdjacentStretches(reader.received, page.events, accepted, start');
    hide IsStretch;
  }

  lemma {:induction false} ReadKeepsPlace(reader: Reader, s: State, accepted: seq<EventRecord>, start: nat,
          limit: int) returns (start': nat)
    requires Represents(s, accepted) && |accepted| <= MAX_SAFE_INTEGER
    requires ReaderAt(reader, accepted, start)
    ensures ReaderAt(Read(reader, s, limit), accepted, start')
    ensures reader.received != [] ==> start' == start
  {
    start' := start;
    if limit > 0 && !reader.expired {
      var page, from := NextPage(reader, s, accepted, start, limit);
      hide Replay, Represents, IsStretch;
      if page.status != Expired {
        TakePageKeepsPlace(reader, page, accepted, start, from);
        hide TakePage;
        start' := if reader.received == [] then from else start;
      }
    }
  }

  /**
   * In every run, whatever is evicted and whatever page sizes are read, the reader has received a
   * gapless, repeat-free stretch of the accepted events, and its cursor was never unknown.
   */
  lemma {:induction false} ReaderSeesNoGap(retentionLimit: nat, actions: seq<Action>) returns (start: nat)
    requires retentionLimit > 0
    requires |Accepted(actions)| <= MAX_SAFE_INTEGER
    ensures ReaderAt(Run(retentionLimit, actions).reader, Accepted(actions), start)
  {
    start := 0;
    if actions != [] {
      var before, action := actions[..|actions| - 1], actions[|actions| - 1];
      start := ReaderSeesNoGap(retentionLimit, before);
      EveryEventHasOneOutboxRecord(retentionLimit, before);
      var sys, accepted := Run(retentionLimit, before), Accepted(before);
      assert accepted <= Accepted(actions);
      hide Represents, Replay, Append, ReaderAt, Accept, Read, MarkPublished;
      if action.ReadPage? {
        start := ReadKeepsPlace(sys.reader, sys.log, accepted, start, action.limit);
      } else {
        PlaceInLongerHistory(sys.reader, accepted, Accepted(actions), start);
      }
    }
  }

  lemma {:induction false} PlaceInLongerHistory(reader: Reader, accepted: seq<EventRecord>, longer: seq<EventRecord>,
          start: nat)
    requires ReaderAt(reader, accepted, start) && accepted <= longer
    ensures ReaderAt(reader, longer, start)
  {
  }

  /** A page with room to spare means that the reader has caught up with the log. */
  lemma {:induction false} ShortPageMeansCaughtUp(reader: Reader, s: State, accepted: seq<EventRecord>, start: nat,
          limit: int)
    returns (start': nat)
    requires Represents(s, accepted) && |accepted| <= MAX_SAFE_INTEGER
    requires ReaderAt(reader, accepted, start) && !reader.expired && limit > 0
    ensures var after := Read(reader, s, limit);
            !after.expired && |after.received| < |reader.received| + limit ==>
              ReaderAt(after, accepted, start') && start' + |after.received| == |accepted|
  {
    var page, from := NextPage(reader, s, accepted, start, limit);
    hide Replay, Represents, IsStretch;
    start' := if reader.received == [] then from else start;
    if page.status != Expired {
      TakePageKeepsPlace(reader, page, accepted, start, from);
      hide ReaderAt;
    }
  }

  // ---- a log that has counted past the safe integers ----

  function Submission(i: nat): Action {
    Submit(AppendInput(Numeral(i), "event", "", true, "source", map[]))
  }

  function Submissions(n: nat): seq<Action> {
    if n == 0 then [] else Submissions(n - 1) + [Submission(n - 1)]
  }

  lemma {:induction false} SubmissionIsAcceptable(i: nat)
    ensures IsAcceptable(Submission(i).input)
  {
  }

  lemma {:induction false} LastSubmission(n: nat)
    requires n > 0
    ensures Run(1, Submissions(n)) == Step(Run(1, Submissions(n - 1)), Submission(n - 1))
    ensures Accepted(Submissions(n)) == Accept(Accepted(Submissions(n - 1)), Submission(n - 1).input)
  {
    hide Numeral, Accept, Append;
    assert Submissions(n)[..|Submissions(n)| - 1] == Submissions(n - 1);
  }

  lemma {:induction false} NoSubmissions()
    ensures Accepted(Submissions(0)) == []
    ensures Run(1, Submissions(0)).log == EMPTY_STATE && Run(1, Submissions(0)).retentionLimit == 1
  {
  }

  lemma {:induction false} AcceptsNewId(before: seq<EventRecord>)
    requires forall i :: 0 <= i < |before| ==> before[i].id == Numeral(i)
    ensures var after := Accept(before, Submission(|before|).input);
            |after| == |before| + 1 && forall i :: 0 <= i < |after| ==> after[i].id == Numeral(i)
  {
    hide Numeral, IsAcceptable;
    SubmissionIsAcceptable(|before|);
    forall i | 0 <= i < |before| ensures before[i].id != Numeral(|before|) {
      if Numeral(i) == Numeral(|before|) {
        NumeralInjective(i, |before|);
      }
    }
  }

  lemma {:induction false} SubmissionsAreAccepted(n: nat)
    ensures |Accepted(Submissions(n))| == n
    ensures forall i :: 0 <= i < n ==> Accepted(Submissions(n))[i].id == Numeral(i)
  {
    hide Numeral, Accept, Run, Accepted, Submissions;
    if n == 0 {
      NoSubmissions();
    } else {
      SubmissionsAreAccepted(n - 1);
      LastSubmission(n);
      AcceptsNewId(Accepted(Submissions(n - 1)));
    }
  }

  lemma {:induction false} AppendRetains(s: State, retentionLimit: nat, input: AppendInput)
    requires |s.events| <= retentionLimit && retentionLimit > 0
    ensures |Append(s, retentionLimit, input).1.events| <= retentionLimit
  {
    hide Numeral, CreateRecord, FindIndex;
  }

  lemma {:induction false} OneIsRetained(n: nat)
    ensures |Run(1, Submissions(n)).log.events| <= 1 && Run(1, Submissions(n)).retentionLimit == 1
  {
    hide Numeral, Append, Submissions, Run;
    if n == 0 {
      NoSubmissions();
    } else {
      OneIsRetained(n - 1);
      LastSubmission(n);
      AppendRetains(Run(1, Submissions(n - 1)).log, 1, Submission(n - 1).input);
    }
  }

  /**
   * With one event retained, after more than 2^53 - 1 submissions the cursor that was issued first is
   * neither found nor expired any more; and the last two cursors are the same once there is one more.
   */
  lemma {:induction false} FirstCursorIsForgotten(n: nat)
    requires n > MAX_SAFE_INTEGER
    ensures var log, accepted := Run(1, Submissions(n)).log, Accepted(Submissions(n));
            && |accepted| == n
            && Replay(log.events, Some(accepted[0].cursor), 1).Ok?
            && Replay(log.events, Some(accepted[0].cursor), 1).value.status == NotFound
            && (n > MAX_SAFE_INTEGER + 1 ==> accepted[n - 2].cursor == accepted[n - 1].cursor)
  {
    SubmissionsAreAccepted(n);
    OneIsRetained(n);
    EveryEventHasOneOutboxRecord(1, Submissions(n));
    hide Submissions, Run, Accepted, Replay, CursorFromSequence, Numeral, Describes;
    ReplayFromIssuedCursor(Run(1, Submissions(n)).log, Accepted(Submissions(n)), 0, 1);
  }

  // ---- the store object ----

  class InMemoryEventLogStore {
    var state: State
    const retentionLimit: nat
    ghost var history: seq<EventRecord>

    ghost predicate Valid()
      reads this
    {
      retentionLimit > 0 && Represents(state, history)
    }

    constructor (retentionLimit: nat)
      requires retentionLimit > 0
      ensures Valid() && state == EMPTY_STATE && this.retentionLimit == retentionLimit
    {
      this.retentionLimit := retentionLimit;
      state := EMPTY_STATE;
      history := [];
    }

    method AppendEvent(input: AppendInput) returns (r: Result<EventRecord, Failure>)
      requires Valid()
      modifies this
      ensures Valid() && history == Accept(old(history), input)
      ensures (r, state) == Append(old(state), retentionLimit, input)
      ensures |state.events| == if history == old(history) then |old(state.events)| else Min(retentionLimit, |old(state.events)| + 1)
      ensures r.Ok? ==> r.value in history
    {
      hide CursorFromSequence, OutboxIdOf;
      AppendRefinesAccept(state, history, retentionLimit, input);
      AppendKeepsNewest(state, history, retentionLimit, input);
      LookupInHistory(state, history, input.id);
      var existing := FindIndex(state.events, (e: EventRecord) => e.id == input.id);
      if existing >= 0 {
        return Ok(state.events[existing]);
      }
      var recorded := FindIndex(state.outbox, (o: OutboxRecord) => o.eventId == input.id);
      if recorded >= 0 {
        return Err(Conflict);
      }
      CursorIsSafeToken(state.nextSequence);
      var created := CreateRecord(input, CursorFromSequence(state.nextSequence));
      if created.None? {
        return Err(UnsafePayload);
      }
      var event := created.value;
      var record := OutboxRecord(OutboxIdOf(event.id), event.id, event.cursor, Pending, event.timestamp, None);
      history := Accept(history, input);
      state := State(NumberSuccessor(state.nextSequence),
                     RetainEvents(state.events + [event], retentionLimit),
                     state.outbox + [record]);
      r := Ok(event);
      assert history[|history| - 1] == event;
    }

    method ReplayEvents(cursor: Option<string>, limit: int) returns (r: Result<ReplayResult, Failure>)
      requires Valid()
      ensures r == Replay(state.events, cursor, limit)
      ensures r.Ok? ==> forall e :: e in r.value.events ==> e in history
    {
      r := Replay(state.events, cursor, limit);
    }

    method ListPendingOutbox() returns (records: seq<OutboxRecord>)
      ensures records == PendingRecords(state.outbox)
    {
      records := PendingRecords(state.outbox);
    }

    method MarkOutboxPublished(eventId: string, publishedAt: string) returns (r: Result<string, Failure>)
      requires Valid()
      modifies this`state
      ensures Valid()
      ensures (r, state) == MarkPublished(old(state), eventId, publishedAt)
      ensures r.Ok? <==> Knows(history, eventId)
    {
      hide CursorFromSequence, OutboxIdOf;
      MarkKeepsRepresentation(state, history, eventId, publishedAt);
      var index := FindIndex(state.outbox, (o: OutboxRecord) => o.eventId == eventId);
      if index < 0 {
        assert forall i :: 0 <= i < |history| ==> Describes(state.outbox[i], history[i]);
        return Err(RecordNotFound);
      }
      assert Describes(state.outbox[index], history[index]);
      var record := state.outbox[index].(status := Published, publishedAt := Some(publishedAt));
      state := state.(outbox := state.outbox[index := record]);
      r := Ok(record.cursor);
    }
  }
}
