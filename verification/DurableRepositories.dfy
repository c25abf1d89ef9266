/**
 * The durable message repository over a state file, replaced by writing a temporary file and renaming
 * it, against its in-memory twin. A process may stop at any point of a call and be started again.
 */
module DurableRepositories {
  import opened Collections

  datatype Message = Message(id: string, status: string, body: string)

  // ---- the in-memory repository ----

  datatype Twin = Twin(records: seq<Message>, messageIds: map<string, string>)

  datatype Operation = SaveMessage(message: Message) | RecordKey(key: string, messageId: string)

  function IndexOf(records: seq<Message>, id: string): (i: int)
    ensures -1 <= i < |records|
    ensures i >= 0 ==> records[i].id == id
    ensures i < 0 ==> forall m :: m in records ==> m.id != id
  {
    FindIndex(records, (m: Message) => m.id == id)
  }

  /** `Map.set`: a known id keeps its place. */
  function Put(records: seq<Message>, message: Message): seq<Message> {
    var i := IndexOf(records, message.id);
    if i >= 0 then records[i := message] else records + [message]
  }

  function TwinApply(t: Twin, op: Operation): Twin {
    match op
    case SaveMessage(message) => t.(records := Put(t.records, message))
    case RecordKey(key, messageId) => t.(messageIds := t.messageIds[key := messageId])
  }

  const EMPTY_TWIN := Twin([], map[])

  function TwinRun(ops: seq<Operation>): Twin {
    if ops == [] then EMPTY_TWIN else TwinApply(TwinRun(ops[..|ops| - 1]), ops[|ops| - 1])
  }

  // ---- the durable repository: records and named indexes, kept in one file ----

  type Indexes = map<string, map<string, string>>

  datatype Repository = Repository(records: seq<Message>, indexes: Indexes)

  const EMPTY_REPOSITORY := Repository([], map[])

  function SetIndexValue(indexes: Indexes, name: string, key: string, value: string): Indexes {
    indexes[name := (if name in indexes then indexes[name] else map[])[key := value]]
  }

  function Change(r: Repository, op: Operation): Repository {
    match op
    case SaveMessage(message) => r.(records := Put(r.records, message))
    case RecordKey(key, messageId) => r.(indexes := SetIndexValue(r.indexes, "idempotency", key, messageId))
  }

  /** `loadState` puts the records of the file into an empty map, one after the other. */
  function LoadRecords(stored: seq<Message>): seq<Message> {
    if stored == [] then [] else Put(LoadRecords(stored[..|stored| - 1]), stored[|stored| - 1])
  }

  datatype File = Absent | Torn | Whole(content: Repository)

  /** What a freshly started process reads; `None` when parsing the file throws. */
  function Reopen(target: File): Option<Repository> {
    match target
    case Absent => Some(EMPTY_REPOSITORY)
    case Torn => None
    case Whole(content) => Some(Repository(LoadRecords(content.records), content.indexes))
  }

  // ---- questions ----

  datatype Question =
    | ById(id: string)
    | ByStatus(status: string)
    | ByKey(key: string)
    | RecoverableBy(ownerContext: string)

  function Select(records: seq<Message>, p: Message -> bool): seq<Message> {
    if records == [] then [] else (if p(records[0]) then [records[0]] else []) + Select(records[1..], p)
  }

  function LookUp(records: seq<Message>, id: string): seq<Message> {
    var i := IndexOf(records, id);
    if i < 0 then [] else [records[i]]
  }

  function Recoverable(records: seq<Message>, ownerContext: string): seq<Message> {
    if ownerContext != "messaging" then []
    else Select(records, (m: Message) => m.status in {"queued", "processing", "failed"})
  }

  function TwinAnswer(t: Twin, q: Question): seq<Message> {
    match q
    case ById(id) => LookUp(t.records, id)
    case ByStatus(status) => Select(t.records, (m: Message) => m.status == status)
    case ByKey(key) => if key in t.messageIds then LookUp(t.records, t.messageIds[key]) else []
    case RecoverableBy(ownerContext) => Recoverable(t.records, ownerContext)
  }

  function Answer(r: Repository, q: Question): seq<Message> {
    match q
    case ById(id) => LookUp(r.records, id)
    case ByStatus(status) => Select(r.records, (m: Message) => m.status == status)
    case ByKey(key) =>
      if "idempotency" in r.indexes && key in r.indexes["idempotency"]
      then LookUp(r.records, r.indexes["idempotency"][key]) else []
    case RecoverableBy(ownerContext) => Recoverable(r.records, ownerContext)
  }

  // ---- the process and its disk, step by step ----

  /** Where a call stands: the state has changed in memory, then goes to the disk in two steps. */
  datatype Phase = Idle | Changed(op: Operation) | Written(op: Operation) | Renamed(op: Operation)

  datatype Process = Down | Failed | Up(repository: Repository, phase: Phase)

  datatype Fate = Completed | Lost | Survived

  datatype Issued = Issued(op: Operation, fate: Fate)

  /** `issued` is bookkeeping of ours: every call that has ended, and how. */
  datatype World = World(target: File, temporary: File, process: Process, issued: seq<Issued>)

  datatype Step =
    | Start
    | Call(op: Operation)
    | WriteTemporary
    | RenameTemporary
    | Return
    | Crash(midWrite: bool)

  const FRESH_DISK := World(Absent, Absent, Down, [])

  /** A step that does not fit the phase does nothing. A crash while writing leaves a torn temporary file. */
  function Next(w: World, step: Step): World {
    match (step, w.process)
    case (Start, Down) =>
      var loaded := Reopen(w.target);
      w.(process := if loaded.None? then Failed else Up(loaded.value, Idle))
    case (Call(op), Up(r, Idle)) => w.(process := Up(Change(r, op), Changed(op)))
    case (WriteTemporary, Up(r, Changed(op))) => w.(temporary := Whole(r), process := Up(r, Written(op)))
    case (RenameTemporary, Up(r, Written(op))) => w.(target := w.temporary, temporary := Absent, process := Up(r, Renamed(op)))
    case (Return, Up(r, Renamed(op))) => w.(process := Up(r, Idle), issued := w.issued + [Issued(op, Completed)])
    case (Crash(midWrite), Up(r, Idle)) => w.(process := Down)
    case (Crash(midWrite), Up(r, Changed(op))) =>
      w.(process := Down, temporary := if midWrite then Torn else w.temporary, issued := w.issued + [Issued(op, Lost)])
    case (Crash(midWrite), Up(r, Written(op))) => w.(process := Down, issued := w.issued + [Issued(op, Lost)])
    case (Crash(midWrite), Up(r, Renamed(op))) => w.(process := Down, issued := w.issued + [Issued(op, Survived)])
    case _ => w
  }

  function Run(steps: seq<Step>): World {
    if steps == [] then FRESH_DISK else Next(Run(steps[..|steps| - 1]), steps[|steps| - 1])
  }

  /** The calls that count: all that completed, and of the interrupted ones those that survived. */
  function Effective(issued: seq<Issued>): seq<Operation> {
    if issued == [] then []
    else
      var last := issued[|issued| - 1];
      Effective(issued[..|issued| - 1]) + if last.fate.Lost? then [] else [last.op]
  }

  // ---- the repository represents its twin ----

  ghost predicate UniqueIds(records: seq<Message>) {
    forall i, j :: 0 <= i < j < |records| ==> records[i].id != records[j].id
  }

  ghost predicate Represents(r: Repository, t: Twin) {
    && r.records == t.records && UniqueIds(r.records)
    && (if "idempotency" in r.indexes then r.indexes["idempotency"] else map[]) == t.messageIds
  }

  lemma {:induction false} PutKeepsUnique(records: seq<Message>, message: Message)
    requires UniqueIds(records)
    ensures UniqueIds(Put(records, message))
  {
    hide FindIndex;
    assert forall i :: 0 <= i < |records| ==> records[i] in records;
  }

  lemma {:induction false} ChangeRepresents(r: Repository, t: Twin, op: Operation)
    requires Represents(r, t)
    ensures Represents(Change(r, op), TwinApply(t, op))
  {
    if op.SaveMessage? {
      PutKeepsUnique(r.records, op.message);
    }
  }

  /** Reading the records back gives the same list, because no id occurs twice. */
  lemma {:induction false} LoadRecordsIsIdentity(stored: seq<Message>)
    requires UniqueIds(stored)
    ensures LoadRecords(stored) == stored
  {
    hide Put;
    if stored != [] {
      var before, last := stored[..|stored| - 1], stored[|stored| - 1];
      LoadRecordsIsIdentity(before);
      PutAppends(before, last);
      assert stored == before + [last];
    }
  }

  lemma {:induction false} PutAppends(records: seq<Message>, message: Message)
    requires forall i :: 0 <= i < |records| ==> records[i].id != message.id
    ensures Put(records, message) == records + [message]
  {
    hide IndexOf;
  }

  lemma {:induction false} SameAnswers(r: Repository, t: Twin, q: Question)
    requires Represents(r, t)
    ensures Answer(r, q) == TwinAnswer(t, q)
  {
    hide IndexOf, Select;
  }

  /** The file on disk is the state that `t` describes, or there is none and nothing was ever done. */
  ghost predicate FileHolds(target: File, t: Twin) {
    match target
    case Absent => t == EMPTY_TWIN
    case Torn => false
    case Whole(content) => Represents(content, t)
  }

  ghost predicate Inv(w: World) {
    var t := TwinRun(Effective(w.issued));
    match w.process
    case Down => FileHolds(w.target, t)
    case Failed => false
    case Up(r, Idle) => FileHolds(w.target, t) && Represents(r, t)
    case Up(r, Changed(op)) => FileHolds(w.target, t) && Represents(r, TwinApply(t, op))
    case Up(r, Written(op)) => FileHolds(w.target, t) && Represents(r, TwinApply(t, op)) && w.temporary == Whole(r)
    case Up(r, Renamed(op)) => FileHolds(w.target, TwinApply(t, op)) && Represents(r, TwinApply(t, op)) && w.temporary.Absent?
  }

  lemma {:induction false} OneMoreIssued(issued: seq<Issued>, op: Operation, fate: Fate)
    ensures TwinRun(Effective(issued + [Issued(op, fate)]))
            == if fate.Lost? then TwinRun(Effective(issued)) else TwinApply(TwinRun(Effective(issued)), op)
  {
    hide TwinApply;
    assert (issued + [Issued(op, fate)])[..|issued|] == issued;
    var ops := Effective(issued);
    assert (ops + [op])[..|ops|] == ops;
    assert ops + [] == ops;
  }

  lemma {:induction false} ReopenRepresents(target: File, t: Twin)
    requires FileHolds(target, t)
    ensures Reopen(target).Some? && Represents(Reopen(target).value, t)
  {
    hide LoadRecords;
    if target.Whole? {
      LoadRecordsIsIdentity(target.content.records);
    }
  }

  lemma {:induction false} NextKeepsInv(w: World, step: Step)
    requires Inv(w)
    ensures Inv(Next(w, step))
  {
    var t := TwinRun(Effective(w.issued));
    hide TwinRun, Effective, Represents, Change, TwinApply, FileHolds, Reopen;
    match (step, w.process)
    case (Start, Down) => ReopenRepresents(w.target, t);
    case (Call(op), Up(r, Idle)) => ChangeRepresents(r, t, op);
    case (RenameTemporary, Up(r, Written(op))) => WholeFileHolds(r, TwinApply(t, op));
    case (Return, Up(r, Renamed(op))) => OneMoreIssued(w.issued, op, Completed);
    case (Crash(_), Up(r, Changed(op))) => OneMoreIssued(w.issued, op, Lost);
    case (Crash(_), Up(r, Written(op))) => OneMoreIssued(w.issued, op, Lost);
    case (Crash(_), Up(r, Renamed(op))) => OneMoreIssued(w.issued, op, Survived);
    case _ =>
  }

  lemma {:induction false} WholeFileHolds(r: Repository, t: Twin)
    requires Represents(r, t)
    ensures FileHolds(Whole(r), t)
  {
  }

  lemma {:induction false} EveryRunKeepsInv(steps: seq<Step>)
    ensures Inv(Run(steps))
  {
    if steps != [] {
      hide Inv, Next;
      EveryRunKeepsInv(steps[..|steps| - 1]);
      NextKeepsInv(Run(steps[..|steps| - 1]), steps[|steps| - 1]);
    } else {
      assert TwinRun(Effective([])) == EMPTY_TWIN;
    }
  }

  /**
   * After any run with crashes at any step, a repository that is up and idle answers every question as
   * the in-memory twin does that was given the completed calls and, of the interrupted ones, each
   * either whole or not at all. Opening the file never fails.
   */
  lemma {:induction false} DurableAnswersAsTwin(steps: seq<Step>, q: Question)
    ensures !Run(steps).process.Failed?
    ensures var w := Run(steps);
            w.process.Up? && w.process.phase.Idle? ==>
              Answer(w.process.repository, q) == TwinAnswer(TwinRun(Effective(w.issued)), q)
  {
    EveryRunKeepsInv(steps);
    var w := Run(steps);
    hide Run, TwinRun, Effective, Represents, Answer, TwinAnswer;
    if w.process.Up? && w.process.phase.Idle? {
      SameAnswers(w.process.repository, TwinRun(Effective(w.issued)), q);
    }
  }

  /** A call that returned is never lost, and every call that was begun and has ended is counted once. */
  lemma {:induction false} CompletedCallsCount(steps: seq<Step>, k: nat)
    requires k < |Run(steps).issued| && Run(steps).issued[k].fate.Completed?
    ensures Run(steps).issued[k].op in Effective(Run(steps).issued)
  {
    IssuedIsEffective(Run(steps).issued, k);
  }

  lemma {:induction false} IssuedIsEffective(issued: seq<Issued>, k: nat)
    requires k < |issued| && !issued[k].fate.Lost?
    ensures issued[k].op in Effective(issued)
  {
    if k < |issued| - 1 {
      IssuedIsEffective(issued[..|issued| - 1], k);
    }
  }

  /** The call that a step begins, if any: one that finds the process up and idle. */
  function BegunBy(w: World, step: Step): seq<Operation> {
    if step.Call? && w.process.Up? && w.process.phase.Idle? then [step.op] else []
  }

  /** The calls that a run begins, in order. */
  function Begun(steps: seq<Step>): seq<Operation> {
    if steps == [] then []
    else Begun(steps[..|steps| - 1]) + BegunBy(Run(steps[..|steps| - 1]), steps[|steps| - 1])
  }

  function OpsOf(issued: seq<Issued>): seq<Operation> {
    if issued == [] then [] else OpsOf(issued[..|issued| - 1]) + [issued[|issued| - 1].op]
  }

  function InProgress(process: Process): seq<Operation> {
    if process.Up? && !process.phase.Idle? then [process.phase.op] else []
  }

  lemma {:induction false} OpsOfExtension(issued: seq<Issued>, last: Issued)
    ensures OpsOf(issued + [last]) == OpsOf(issued) + [last.op]
  {
    assert (issued + [last])[..|issued|] == issued;
  }

  lemma {:induction false} StepAccounts(w: World, step: Step)
    ensures OpsOf(Next(w, step).issued) + InProgress(Next(w, step).process)
            == OpsOf(w.issued) + InProgress(w.process) + BegunBy(w, step)
  {
    hide OpsOf, Change, Reopen;
    match (step, w.process)
    case (Return, Up(r, Renamed(op))) => OpsOfExtension(w.issued, Issued(op, Completed));
    case (Crash(_), Up(r, Changed(op))) => OpsOfExtension(w.issued, Issued(op, Lost));
    case (Crash(_), Up(r, Written(op))) => OpsOfExtension(w.issued, Issued(op, Lost));
    case (Crash(_), Up(r, Renamed(op))) => OpsOfExtension(w.issued, Issued(op, Survived));
    case _ =>
  }

  /** Every call that was begun is accounted for, once and in order: it ended with its fate, or it is under way. */
  lemma {:induction false} EveryCallIsAccounted(steps: seq<Step>)
    ensures Begun(steps) == OpsOf(Run(steps).issued) + InProgress(Run(steps).process)
  {
    if steps != [] {
      EveryCallIsAccounted(steps[..|steps| - 1]);
      hide OpsOf, Next, InProgress, BegunBy;
      StepAccounts(Run(steps[..|steps| - 1]), steps[|steps| - 1]);
    }
  }

  // ---- the answers, read off the calls alone ----

  function LatestSaved(ops: seq<Operation>, id: string): Option<Message> {
    if ops == [] then None
    else
      var last := ops[|ops| - 1];
      if last.SaveMessage? && last.message.id == id then Some(last.message) else LatestSaved(ops[..|ops| - 1], id)
  }

  function LatestRecorded(ops: seq<Operation>, key: string): Option<string> {
    if ops == [] then None
    else
      var last := ops[|ops| - 1];
      if last.RecordKey? && last.key == key then Some(last.messageId) else LatestRecorded(ops[..|ops| - 1], key)
  }

  /** The ids in the order in which they were first saved. */
  function SavedIds(ops: seq<Operation>): seq<string> {
    if ops == [] then []
    else
      var before, last := SavedIds(ops[..|ops| - 1]), ops[|ops| - 1];
      if last.SaveMessage? && last.message.id !in before then before + [last.message.id] else before
  }

  ghost predicate HoldsLatest(t: Twin, ops: seq<Operation>) {
    && |t.records| == |SavedIds(ops)|
    && (forall i :: 0 <= i < |t.records| ==> t.records[i].id == SavedIds(ops)[i] && LatestSaved(ops, t.records[i].id) == Some(t.records[i]))
    && (forall id :: LatestSaved(ops, id).Some? <==> id in SavedIds(ops))
    && (forall key :: LatestRecorded(ops, key) == if key in t.messageIds then Some(t.messageIds[key]) else None)
    && UniqueIds(t.records)
  }

  lemma {:induction false} OneMoreOperation(ops: seq<Operation>, op: Operation)
    ensures TwinRun(ops + [op]) == TwinApply(TwinRun(ops), op)
    ensures forall id :: LatestSaved(ops + [op], id)
              == if op.SaveMessage? && op.message.id == id then Some(op.message) else LatestSaved(ops, id)
    ensures forall key :: LatestRecorded(ops + [op], key)
              == if op.RecordKey? && op.key == key then Some(op.messageId) else LatestRecorded(ops, key)
    ensures SavedIds(ops + [op])
            == if op.SaveMessage? && op.message.id !in SavedIds(ops) then SavedIds(ops) + [op.message.id] else SavedIds(ops)
  {
    hide TwinApply;
    assert (ops + [op])[..|ops|] == ops;
  }

  lemma {:induction false} SaveHoldsLatest(t: Twin, ops: seq<Operation>, message: Message)
    requires HoldsLatest(t, ops)
    ensures HoldsLatest(TwinApply(t, SaveMessage(message)), ops + [SaveMessage(message)])
  {
    OneMoreOperation(ops, SaveMessage(message));
    PutKeepsUnique(t.records, message);
    hide LatestSaved, LatestRecorded, SavedIds, FindIndex, UniqueIds, TwinRun;
    var i := IndexOf(t.records, message.id);
    if i < 0 {
      assert message.id !in SavedIds(ops);
    } else {
      assert SavedIds(ops)[i] == message.id;
      assert forall j :: 0 <= j < |t.records| && j != i ==> t.records[j].id != message.id by { OnlyOneId(t.records, i); }
    }
  }

  lemma {:induction false} OnlyOneId(records: seq<Message>, i: nat)
    requires UniqueIds(records) && i < |records|
    ensures forall j :: 0 <= j < |records| && j != i ==> records[j].id != records[i].id
  {
  }

  lemma {:induction false} TwinHoldsLatest(ops: seq<Operation>)
    ensures HoldsLatest(TwinRun(ops), ops)
  {
    hide HoldsLatest;
    if ops == [] {
      EmptyHoldsLatest();
    } else {
      var before, last := ops[..|ops| - 1], ops[|ops| - 1];
      assert ops == before + [last];
      TwinHoldsLatest(before);
      OneMoreOperation(before, last);
      match last
      case SaveMessage(message) => SaveHoldsLatest(TwinRun(before), before, message);
      case RecordKey(key, messageId) => RecordHoldsLatest(TwinRun(before), before, key, messageId);
    }
  }

  lemma {:induction false} RecordHoldsLatest(t: Twin, ops: seq<Operation>, key: string, messageId: string)
    requires HoldsLatest(t, ops)
    ensures HoldsLatest(TwinApply(t, RecordKey(key, messageId)), ops + [RecordKey(key, messageId)])
  {
    OneMoreOperation(ops, RecordKey(key, messageId));
    hide LatestSaved, LatestRecorded, SavedIds, UniqueIds, TwinRun;
  }

  lemma {:induction false} EmptyHoldsLatest()
    ensures HoldsLatest(TwinRun([]), [])
  {
  }

  lemma {:induction false} SelectInOrder(records: seq<Message>, p: Message -> bool) returns (places: seq<nat>)
    ensures ArePlaces(places, Select(records, p), records)
    ensures forall m :: m in Select(records, p) <==> m in records && p(m)
  {
    hide ArePlaces, Shifted;
    if records == [] {
      places := [];
      NoPlaces<Message>();
    } else {
      places := SelectInOrder(records[1..], p);
      PlacesBehindHead(places, Select(records[1..], p), records);
      places := if p(records[0]) then [0] + Shifted(places) else Shifted(places);
      assert [] + Select(records[1..], p) == Select(records[1..], p);
    }
  }

  /** The latest version of the message, or nothing. */
  function OneOrNone(message: Option<Message>): seq<Message> {
    if message.None? then [] else [message.value]
  }

  /** The messages whose latest version is of these statuses, each once, in the order of first saving. */
  ghost predicate AreLatestOf(answer: seq<Message>, ops: seq<Operation>, statuses: set<string>) {
    && (forall m :: m in answer <==> LatestSaved(ops, m.id) == Some(m) && m.status in statuses)
    && UniqueIds(answer)
    && exists places :: |places| == |answer| && ArePlaces(places, IdsOf(answer), SavedIds(ops))
  }

  function IdsOf(records: seq<Message>): (ids: seq<string>)
    ensures |ids| == |records| && forall i :: 0 <= i < |ids| ==> ids[i] == records[i].id
  {
    if records == [] then [] else [records[0].id] + IdsOf(records[1..])
  }

  lemma {:induction false} SelectionIsLatest(ops: seq<Operation>, statuses: set<string>, p: Message -> bool)
    requires forall m :: p(m) <==> m.status in statuses
    ensures AreLatestOf(Select(TwinRun(ops).records, p), ops, statuses)
  {
    TwinHoldsLatest(ops);
    var t := TwinRun(ops);
    var places := SelectInOrder(t.records, p);
    hide LatestSaved, LatestRecorded, SavedIds, TwinRun, Select, IdsOf;
    var answer := Select(t.records, p);
    assert ArePlaces(places, IdsOf(answer), SavedIds(ops));
    forall m: Message ensures m in t.records <==> LatestSaved(ops, m.id) == Some(m) {
      if LatestSaved(ops, m.id) == Some(m) {
        var i :| 0 <= i < |SavedIds(ops)| && SavedIds(ops)[i] == m.id;
        assert t.records[i] == m;
      }
    }
    PlacesKeepUnique(t.records, answer, places);
  }

  lemma {:induction false} PlacesKeepUnique(records: seq<Message>, part: seq<Message>, places: seq<nat>)
    requires UniqueIds(records) && ArePlaces(places, part, records)
    ensures UniqueIds(part)
  {
  }

  /**
   * After any calls: a message is found by its id in its latest version, by a status if that is the status of
   * its latest version, by a key if the key was last recorded for it, and as recoverable work of messaging,
   * and of no other context, if its latest version is queued, processing or failed.
   */
  lemma {:induction false} AnswerOutcome(ops: seq<Operation>, q: Question)
    ensures var answer := TwinAnswer(TwinRun(ops), q);
            match q
            case ById(id) => answer == OneOrNone(LatestSaved(ops, id))
            case ByStatus(status) => AreLatestOf(answer, ops, {status})
            case ByKey(key) =>
              answer == if LatestRecorded(ops, key).Some? then OneOrNone(LatestSaved(ops, LatestRecorded(ops, key).value)) else []
            case RecoverableBy(ownerContext) =>
              if ownerContext == "messaging" then AreLatestOf(answer, ops, {"queued", "processing", "failed"}) else answer == []
  {
    TwinHoldsLatest(ops);
    hide TwinRun, Select, AreLatestOf, LatestSaved, LatestRecorded, SavedIds;
    match q
    case ById(id) => LookUpIsLatest(ops, id);
    case ByStatus(status) => SelectionIsLatest(ops, {status}, (m: Message) => m.status == status);
    case ByKey(key) =>
      if LatestRecorded(ops, key).Some? {
        LookUpIsLatest(ops, LatestRecorded(ops, key).value);
      }
    case RecoverableBy(ownerContext) =>
      SelectionIsLatest(ops, {"queued", "processing", "failed"}, (m: Message) => m.status in {"queued", "processing", "failed"});
  }

  lemma {:induction false} LookUpIsLatest(ops: seq<Operation>, id: string)
    ensures LookUp(TwinRun(ops).records, id) == OneOrNone(LatestSaved(ops, id))
  {
    TwinHoldsLatest(ops);
    hide TwinRun, LatestSaved, LatestRecorded, SavedIds, FindIndex;
    var t := TwinRun(ops);
    if id in SavedIds(ops) {
      var i :| 0 <= i < |SavedIds(ops)| && SavedIds(ops)[i] == id;
      assert t.records[i].id == id;
    }
  }

  // ---- the store and repository objects ----

  class DurableJsonStateStore {
    var target: File
    var temporary: File

    constructor ()
      ensures target == Absent && temporary == Absent
    {
      target, temporary := Absent, Absent;
    }

    method Read() returns (content: Option<Repository>)
      ensures content == if target.Absent? then Some(EMPTY_REPOSITORY) else if target.Torn? then None else Some(target.content)
    {
      if target.Absent? {
        return Some(EMPTY_REPOSITORY);
      }
      if target.Torn? {
        return None;
      }
      content := Some(target.content);
    }

    /** Undisturbed, the write goes through the temporary file and leaves none behind. */
    method Write(content: Repository)
      modifies this
      ensures target == Whole(content) && temporary == Absent
    {
      temporary := Whole(content);
      target, temporary := temporary, Absent;
    }
  }

  class DurableJsonMessageRepository {
    const store: DurableJsonStateStore
    var records: seq<Message>
    var indexes: Indexes

    ghost predicate Valid(t: Twin)
      reads this, store
    {
      Represents(Repository(records, indexes), t) && FileHolds(store.target, t)
    }

    constructor (store: DurableJsonStateStore, ghost t: Twin)
      requires FileHolds(store.target, t)
      ensures Valid(t) && this.store == store
    {
      this.store := store;
      records, indexes := [], map[];
      new;
      var content := store.Read();
      assert content.Some?;
      var i := 0;
      while i < |content.value.records|
        invariant i <= |content.value.records| && records == LoadRecords(content.value.records[..i])
        invariant indexes == map[] && this.store == store && store.target == old(store.target)
      {
        assert content.value.records[..i + 1][..i] == content.value.records[..i];
        records := Put(records, content.value.records[i]);
        i := i + 1;
      }
      indexes := content.value.indexes;
      assert content.value.records[..i] == content.value.records;
      LoadRecordsIsIdentity(content.value.records);
    }

    method Persist(ghost t: Twin)
      requires Represents(Repository(records, indexes), t)
      modifies store
      ensures Valid(t)
    {
      store.Write(Repository(records, indexes));
    }

    method Save(message: Message, ghost t: Twin)
      requires Valid(t)
      modifies this, store
      ensures Valid(TwinApply(t, SaveMessage(message)))
    {
      ChangeRepresents(Repository(records, indexes), t, SaveMessage(message));
      records := Put(records, message);
      Persist(TwinApply(t, SaveMessage(message)));
    }

    method RecordIdempotencyKey(key: string, messageId: string, ghost t: Twin)
      requires Valid(t)
      modifies this, store
      ensures Valid(TwinApply(t, RecordKey(key, messageId)))
    {
      ChangeRepresents(Repository(records, indexes), t, RecordKey(key, messageId));
      indexes := SetIndexValue(indexes, "idempotency", key, messageId);
      Persist(TwinApply(t, RecordKey(key, messageId)));
    }

    method FindByIdempotencyKey(key: string, ghost t: Twin) returns (found: seq<Message>)
      requires Valid(t)
      ensures found == TwinAnswer(t, ByKey(key))
    {
      SameAnswers(Repository(records, indexes), t, ByKey(key));
      found := Answer(Repository(records, indexes), ByKey(key));
    }
  }

  class InMemoryMessageRepository {
    var records: seq<Message>
    var messageIdByIdempotencyKey: map<string, string>

    constructor ()
      ensures Twin(records, messageIdByIdempotencyKey) == EMPTY_TWIN
    {
      records, messageIdByIdempotencyKey := [], map[];
    }

    method Save(message: Message)
      modifies this
      ensures Twin(records, messageIdByIdempotencyKey)
              == TwinApply(Twin(old(records), old(messageIdByIdempotencyKey)), SaveMessage(message))
    {
      var i := IndexOf(records, message.id);
      records := if i >= 0 then records[i := message] else records + [message];
    }

    method RecordIdempotencyKey(key: string, messageId: string)
      modifies this
      ensures Twin(records, messageIdByIdempotencyKey)
              == TwinApply(Twin(old(records), old(messageIdByIdempotencyKey)), RecordKey(key, messageId))
    {
      messageIdByIdempotencyKey := messageIdByIdempotencyKey[key := messageId];
    }
  }
}
