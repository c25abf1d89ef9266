/** Outbound text intents: storing, re-storing and binding them to messages, and looking them up. */
module Intents {
  import opened Collections
  import opened Text

  datatype Input = Input(ref: Option<string>, recipientRef: string, text: string, expiresAt: Option<int>)

  datatype Intent = Intent(ref: string, recipientRef: string, text: string, createdAt: int, expiresAt: Option<int>,
                           messageId: Option<string>, messageIds: Option<seq<string>>)

  datatype Failure = NotFound | Expired | Rejected

  /** A store call carries the reference to generate when the input brings none, and its clock reading. */
  datatype Operation =
    | Store(input: Input, generated: string, now: int)
    | Bind(ref: string, messageId: string)

  predicate IsSafeInteger(n: int) {
    -(MAX_SAFE_INTEGER as int) <= n <= MAX_SAFE_INTEGER
  }

  predicate IsAccepted(input: Input) {
    Trim(input.recipientRef) != "" && Trim(input.text) != "" && (input.expiresAt.Some? ==> IsSafeInteger(input.expiresAt.value))
  }

  /** `^[A-Za-z0-9_.:-]+$` after trimming: what a receipt demands of a reference. */
  predicate IsSafeRef(ref: string) {
    var trimmed := Trim(ref);
    trimmed != "" && forall i :: 0 <= i < |trimmed| ==>
      'A' <= trimmed[i] <= 'Z' || 'a' <= trimmed[i] <= 'z' || IsDigit(trimmed[i]) || trimmed[i] in {'_', '.', ':', '-'}
  }

  function RefOf(input: Input, generated: string): string {
    if input.ref.Some? then input.ref.value else generated
  }

  datatype Receipt = Receipt(ref: string, createdAt: int, expiresAt: Option<int>)

  /** Making the receipt refuses a reference that is not a safe token. */
  function ReceiptFor(intent: Intent): Result<Receipt, Failure> {
    if IsSafeRef(intent.ref) then Ok(Receipt(Trim(intent.ref), intent.createdAt, intent.expiresAt)) else Err(Rejected)
  }

  function ReceiptOf(found: Result<Intent, Failure>): Result<Receipt, Failure> {
    match found
    case Ok(intent) => ReceiptFor(intent)
    case Err(failure) => Err(failure)
  }

  // ---- the store's operations ----

  function IndexOf(intents: seq<Intent>, ref: string): (i: int)
    ensures -1 <= i < |intents|
    ensures i >= 0 ==> intents[i].ref == ref
    ensures i < 0 ==> forall j :: 0 <= j < |intents| ==> intents[j].ref != ref
  {
    FindIndex(intents, (intent: Intent) => intent.ref == ref)
  }

  /** Adding to a set that remembers insertion order. */
  function AddDistinct(ids: seq<string>, id: string): (r: seq<string>)
    ensures ids <= r
    ensures forall x :: x in r <==> x in ids || x == id
    ensures Distinct(ids) ==> Distinct(r)
  {
    if id in ids then ids else ids + [id]
  }

  /** The distinct known ids, the current one and the new one, in this order. */
  function AddBinding(existing: Intent, messageId: string): seq<string> {
    var known := DistinctOf(if existing.messageIds.Some? then existing.messageIds.value else []);
    AddDistinct(if existing.messageId.Some? then AddDistinct(known, existing.messageId.value) else known, messageId)
  }

  function DistinctOf(ids: seq<string>): seq<string> {
    if ids == [] then [] else AddDistinct(DistinctOf(ids[..|ids| - 1]), ids[|ids| - 1])
  }

  function MergeExistingBinding(next: Intent, existing: Intent): Intent {
    if existing.messageId.None? then next.(messageIds := existing.messageIds)
    else next.(messageId := existing.messageId, messageIds := Some(AddBinding(existing, existing.messageId.value)))
  }

  function NewIntent(input: Input, ref: string, createdAt: int): Intent {
    Intent(ref, Trim(input.recipientRef), input.text, createdAt, input.expiresAt, None, None)
  }

  function StoreText(intents: seq<Intent>, input: Input, generated: string, now: int): seq<Intent> {
    if !IsAccepted(input) then intents
    else
      var i := IndexOf(intents, RefOf(input, generated));
      if i < 0 then intents + [NewIntent(input, RefOf(input, generated), now)]
      else intents[i := MergeExistingBinding(NewIntent(input, RefOf(input, generated), intents[i].createdAt), intents[i])]
  }

  function BindMessage(intents: seq<Intent>, ref: string, messageId: string): seq<Intent> {
    var i := IndexOf(intents, ref);
    if i < 0 then intents
    else intents[i := intents[i].(messageId := Some(messageId), messageIds := Some(AddBinding(intents[i], messageId)))]
  }

  function Apply(intents: seq<Intent>, op: Operation): seq<Intent> {
    match op
    case Store(input, generated, now) => StoreText(intents, input, generated, now)
    case Bind(ref, messageId) => BindMessage(intents, ref, messageId)
  }

  function Run(ops: seq<Operation>): seq<Intent> {
    if ops == [] then [] else Apply(Run(ops[..|ops| - 1]), ops[|ops| - 1])
  }

  predicate IsExpired(intent: Intent, now: int) {
    intent.expiresAt.Some? && intent.expiresAt.value <= now
  }

  predicate IsBoundTo(intent: Intent, messageId: string) {
    intent.messageId == Some(messageId) || (intent.messageIds.Some? && messageId in intent.messageIds.value)
  }

  function Available(intents: seq<Intent>, i: int, now: int): Result<Intent, Failure>
    requires -1 <= i < |intents|
  {
    if i < 0 then Err(NotFound) else if IsExpired(intents[i], now) then Err(Expired) else Ok(intents[i])
  }

  function FindByRef(intents: seq<Intent>, ref: string, now: int): Result<Intent, Failure> {
    Available(intents, IndexOf(intents, ref), now)
  }

  function FindByMessage(intents: seq<Intent>, messageId: string, now: int): Result<Intent, Failure> {
    Available(intents, FindIndex(intents, (intent: Intent) => IsBoundTo(intent, messageId)), now)
  }

  // ---- the same, read off the history of calls alone ----

  predicate Stores(op: Operation, ref: string) {
    op.Store? && IsAccepted(op.input) && RefOf(op.input, op.generated) == ref
  }

  function FirstStoredAt(ops: seq<Operation>, ref: string): Option<int> {
    if ops == [] then None
    else
      var earlier, last := FirstStoredAt(ops[..|ops| - 1], ref), ops[|ops| - 1];
      if earlier.Some? then earlier else if Stores(last, ref) then Some(last.now) else None
  }

  function LatestInput(ops: seq<Operation>, ref: string): Option<Input> {
    if ops == [] then None
    else if Stores(ops[|ops| - 1], ref) then Some(ops[|ops| - 1].input)
    else LatestInput(ops[..|ops| - 1], ref)
  }

  /** A binding counts when its reference had been stored before. */
  predicate Binds(ops: seq<Operation>, k: nat, ref: string, messageId: string)
    requires k < |ops|
  {
    ops[k] == Bind(ref, messageId) && FirstStoredAt(ops[..k], ref).Some?
  }

  /** The messages bound to a reference, each once, in the order of their first binding. */
  function Bound(ops: seq<Operation>, ref: string): (ids: seq<string>)
    ensures Distinct(ids)
  {
    if ops == [] then []
    else
      var earlier, last := Bound(ops[..|ops| - 1], ref), ops[|ops| - 1];
      if last.Bind? && last.ref == ref && FirstStoredAt(ops[..|ops| - 1], ref).Some? then AddDistinct(earlier, last.messageId) else earlier
  }

  function LastBound(ops: seq<Operation>, ref: string): (id: Option<string>)
    ensures id.Some? <==> Bound(ops, ref) != []
    ensures id.Some? ==> id.value in Bound(ops, ref)
  {
    if ops == [] then None
    else
      var last := ops[|ops| - 1];
      if last.Bind? && last.ref == ref && FirstStoredAt(ops[..|ops| - 1], ref).Some? then Some(last.messageId)
      else LastBound(ops[..|ops| - 1], ref)
  }

  /** The references in the order in which they were first stored. */
  function Refs(ops: seq<Operation>): (refs: seq<string>)
    ensures forall ref :: ref in refs <==> FirstStoredAt(ops, ref).Some?
    ensures Distinct(refs)
  {
    if ops == [] then []
    else
      var earlier, last := Refs(ops[..|ops| - 1]), ops[|ops| - 1];
      if last.Store? && IsAccepted(last.input) && RefOf(last.input, last.generated) !in earlier
      then earlier + [RefOf(last.input, last.generated)] else earlier
  }

  /** What a record should be: first time, latest content, and every binding there ever was. */
  function RecordOf(ops: seq<Operation>, ref: string): Intent
    requires FirstStoredAt(ops, ref).Some?
  {
    LatestExists(ops, ref);
    var input := LatestInput(ops, ref).value;
    Intent(ref, Trim(input.recipientRef), input.text, FirstStoredAt(ops, ref).value, input.expiresAt,
           LastBound(ops, ref), if Bound(ops, ref) == [] then None else Some(Bound(ops, ref)))
  }

  lemma {:induction false} LatestExists(ops: seq<Operation>, ref: string)
    ensures FirstStoredAt(ops, ref).Some? <==> LatestInput(ops, ref).Some?
  {
    if ops != [] {
      LatestExists(ops[..|ops| - 1], ref);
    }
  }

  /** One record per reference, in the order of first storing, and each record is what the history says. */
  ghost predicate Represents(intents: seq<Intent>, ops: seq<Operation>) {
    && |intents| == |Refs(ops)|
    && forall i :: 0 <= i < |intents| ==> Refs(ops)[i] in Refs(ops) && intents[i] == RecordOf(ops, Refs(ops)[i])
  }

  // ---- every run keeps the records that its history describes ----

  lemma {:induction false} DistinctOfDistinct(ids: seq<string>)
    requires Distinct(ids)
    ensures DistinctOf(ids) == ids
  {
    if ids != [] {
      DistinctOfDistinct(ids[..|ids| - 1]);
      assert ids[|ids| - 1] !in ids[..|ids| - 1];
      assert ids == ids[..|ids| - 1] + [ids[|ids| - 1]];
    }
  }

  lemma {:induction false} NeverStoredNeverBound(ops: seq<Operation>, ref: string)
    requires FirstStoredAt(ops, ref).None?
    ensures Bound(ops, ref) == []
  {
    if ops != [] {
      NeverStoredNeverBound(ops[..|ops| - 1], ref);
    }
  }

  lemma {:induction false} BindingsOfRecord(ops: seq<Operation>, ref: string, messageId: string)
    requires FirstStoredAt(ops, ref).Some?
    ensures AddBinding(RecordOf(ops, ref), messageId) == AddDistinct(Bound(ops, ref), messageId)
  {
    hide FirstStoredAt, LatestInput, Bound, LastBound;
    DistinctOfDistinct(Bound(ops, ref));
    DistinctOfDistinct([]);
  }

  /** How one call changes what the history says about one reference. */
  lemma {:induction false} HistoryStep(ops: seq<Operation>, op: Operation, ref: string)
    ensures FirstStoredAt(ops + [op], ref)
            == if FirstStoredAt(ops, ref).Some? then FirstStoredAt(ops, ref) else if Stores(op, ref) then Some(op.now) else None
    ensures LatestInput(ops + [op], ref) == if Stores(op, ref) then Some(op.input) else LatestInput(ops, ref)
    ensures var binds := op.Bind? && op.ref == ref && FirstStoredAt(ops, ref).Some?;
            && Bound(ops + [op], ref) == (if binds then AddDistinct(Bound(ops, ref), op.messageId) else Bound(ops, ref))
            && LastBound(ops + [op], ref) == (if binds then Some(op.messageId) else LastBound(ops, ref))
  {
    hide Stores, AddDistinct;
    assert (ops + [op])[..|ops|] == ops;
  }

  lemma {:induction false} RefsStep(ops: seq<Operation>, op: Operation)
    ensures Refs(ops + [op])
            == if op.Store? && IsAccepted(op.input) && RefOf(op.input, op.generated) !in Refs(ops)
               then Refs(ops) + [RefOf(op.input, op.generated)] else Refs(ops)
  {
    hide IsAccepted, RefOf, FirstStoredAt;
    assert (ops + [op])[..|ops|] == ops;
  }

  lemma {:induction false} RecordStays(ops: seq<Operation>, op: Operation, ref: string)
    requires FirstStoredAt(ops, ref).Some? && !Stores(op, ref) && !(op.Bind? && op.ref == ref)
    ensures FirstStoredAt(ops + [op], ref).Some? && RecordOf(ops + [op], ref) == RecordOf(ops, ref)
  {
    HistoryStep(ops, op, ref);
    hide FirstStoredAt, LatestInput, Bound, LastBound, Stores;
  }

  lemma {:induction false} RecordAfterStore(ops: seq<Operation>, op: Operation, ref: string)
    requires Stores(op, ref)
    ensures FirstStoredAt(ops + [op], ref).Some?
    ensures RecordOf(ops + [op], ref)
            == if FirstStoredAt(ops, ref).Some?
               then MergeExistingBinding(NewIntent(op.input, ref, RecordOf(ops, ref).createdAt), RecordOf(ops, ref))
               else NewIntent(op.input, ref, op.now)
  {
    HistoryStep(ops, op, ref);
    if FirstStoredAt(ops, ref).Some? {
      if LastBound(ops, ref).Some? {
        BindingsOfRecord(ops, ref, LastBound(ops, ref).value);
      }
    } else {
      NeverStoredNeverBound(ops, ref);
    }
    hide FirstStoredAt, LatestInput, Bound, LastBound, Stores, AddBinding, IsAccepted;
  }

  lemma {:induction false} RecordAfterBind(ops: seq<Operation>, ref: string, messageId: string)
    requires FirstStoredAt(ops, ref).Some?
    ensures FirstStoredAt(ops + [Bind(ref, messageId)], ref).Some?
    ensures var r := RecordOf(ops, ref);
            RecordOf(ops + [Bind(ref, messageId)], ref)
            == r.(messageId := Some(messageId), messageIds := Some(AddBinding(r, messageId)))
  {
    HistoryStep(ops, Bind(ref, messageId), ref);
    BindingsOfRecord(ops, ref, messageId);
    hide FirstStoredAt, LatestInput, Bound, LastBound, AddBinding, IsAccepted;
  }

  /** A reference is found at its place in the order of first storing. */
  lemma {:induction false} PlaceOfRef(intents: seq<Intent>, ops: seq<Operation>, ref: string)
    requires Represents(intents, ops)
    ensures IndexOf(intents, ref) >= 0 <==> FirstStoredAt(ops, ref).Some?
    ensures IndexOf(intents, ref) >= 0 ==> Refs(ops)[IndexOf(intents, ref)] == ref && intents[IndexOf(intents, ref)] == RecordOf(ops, ref)
  {
    var refs := Refs(ops);
    hide FirstStoredAt, LatestInput, Bound, LastBound, Refs, FindIndex, IndexOf;
    if ref in refs {
      var k :| 0 <= k < |refs| && refs[k] == ref;
      assert intents[k].ref == ref;
    }
  }

  ghost predicate OthersStay(ops: seq<Operation>, op: Operation, ref: string) {
    forall i :: 0 <= i < |Refs(ops)| && Refs(ops)[i] != ref ==>
      && Refs(ops)[i] in Refs(ops) && FirstStoredAt(ops + [op], Refs(ops)[i]).Some?
      && RecordOf(ops + [op], Refs(ops)[i]) == RecordOf(ops, Refs(ops)[i])
  }

  lemma {:induction false} RecordReplaced(intents: seq<Intent>, ops: seq<Operation>, op: Operation, k: nat, r: Intent)
    requires Represents(intents, ops) && k < |intents| && Refs(ops + [op]) == Refs(ops)
    requires OthersStay(ops, op, Refs(ops)[k])
    requires FirstStoredAt(ops + [op], Refs(ops)[k]).Some? && r == RecordOf(ops + [op], Refs(ops)[k])
    ensures Represents(intents[k := r], ops + [op])
  {
    hide FirstStoredAt, RecordOf, Refs;
    var refs, after := Refs(ops), intents[k := r];
    assert Distinct(refs);
    forall i | 0 <= i < |after| ensures refs[i] in refs && after[i] == RecordOf(ops + [op], refs[i]) {
      if i != k {
        assert refs[i] != refs[k];
        assert after[i] == intents[i] == RecordOf(ops, refs[i]);
      }
    }
  }

  lemma {:induction false} RecordAppended(intents: seq<Intent>, ops: seq<Operation>, op: Operation, ref: string,
          r: Intent)
    requires Represents(intents, ops) && Refs(ops + [op]) == Refs(ops) + [ref] && ref !in Refs(ops)
    requires OthersStay(ops, op, ref)
    requires FirstStoredAt(ops + [op], ref).Some? && r == RecordOf(ops + [op], ref)
    ensures Represents(intents + [r], ops + [op])
  {
    hide FirstStoredAt, RecordOf, Refs;
    var refs, after := Refs(ops), intents + [r];
    assert Refs(ops + [op]) == refs + [ref];
    forall i | 0 <= i < |refs| ensures refs[i] in refs && after[i] == RecordOf(ops + [op], refs[i]) {
      assert refs[i] in refs;
      assert after[i] == intents[i] == RecordOf(ops, refs[i]);
    }
  }

  lemma {:induction false} OthersStayAfter(ops: seq<Operation>, op: Operation, ref: string)
    requires forall x :: x != ref ==> !Stores(op, x)
    requires op.Bind? ==> op.ref == ref
    ensures OthersStay(ops, op, ref)
  {
    var refs := Refs(ops);
    hide FirstStoredAt, RecordOf, Refs, Stores;
    forall i | 0 <= i < |refs| && refs[i] != ref
      ensures refs[i] in refs && FirstStoredAt(ops + [op], refs[i]).Some? && RecordOf(ops + [op], refs[i]) == RecordOf(ops, refs[i])
    {
      assert refs[i] in refs;
      RecordStays(ops, op, refs[i]);
    }
  }

  lemma {:induction false} StoreKeepsHistory(intents: seq<Intent>, ops: seq<Operation>, op: Operation)
    requires Represents(intents, ops) && op.Store? && IsAccepted(op.input)
    ensures Represents(StoreText(intents, op.input, op.generated, op.now), ops + [op])
  {
    var ref := RefOf(op.input, op.generated);
    PlaceOfRef(intents, ops, ref);
    RefsStep(ops, op);
    assert Stores(op, ref);
    RecordAfterStore(ops, op, ref);
    OthersStayAfter(ops, op, ref);
    hide FirstStoredAt, IndexOf, RecordOf, MergeExistingBinding, NewIntent, IsAccepted, Stores, RefOf, Refs, OthersStay, Represents;
    var k := IndexOf(intents, ref);
    if k >= 0 {
      RecordReplaced(intents, ops, op, k, MergeExistingBinding(NewIntent(op.input, ref, intents[k].createdAt), intents[k]));
    } else {
      RecordAppended(intents, ops, op, ref, NewIntent(op.input, ref, op.now));
    }
  }

  lemma {:induction false} BindKeepsHistory(intents: seq<Intent>, ops: seq<Operation>, ref: string, messageId: string)
    requires Represents(intents, ops)
    ensures Represents(BindMessage(intents, ref, messageId), ops + [Bind(ref, messageId)])
  {
    var op := Bind(ref, messageId);
    PlaceOfRef(intents, ops, ref);
    RefsStep(ops, op);
    assert forall x :: !Stores(op, x);
    OthersStayAfter(ops, op, ref);
    hide FirstStoredAt, IndexOf, RecordOf, Stores, Refs, AddBinding, OthersStay;
    if FirstStoredAt(ops, ref).Some? {
      RecordAfterBind(ops, ref, messageId);
      var k := IndexOf(intents, ref);
      RecordReplaced(intents, ops, op, k, intents[k].(messageId := Some(messageId), messageIds := Some(AddBinding(intents[k], messageId))));
    } else {
      NoneReplaced(intents, ops, op, ref);
    }
  }

  lemma {:induction false} NoneReplaced(intents: seq<Intent>, ops: seq<Operation>, op: Operation, ref: string)
    requires Represents(intents, ops) && Refs(ops + [op]) == Refs(ops) && OthersStay(ops, op, ref) && ref !in Refs(ops)
    ensures Represents(intents, ops + [op])
  {
    var refs := Refs(ops);
    assert forall i :: 0 <= i < |refs| ==> refs[i] in refs;
    hide FirstStoredAt, RecordOf, Refs;
  }

  lemma {:induction false} RejectedStoreKeepsHistory(intents: seq<Intent>, ops: seq<Operation>, op: Operation)
    requires Represents(intents, ops) && op.Store? && !IsAccepted(op.input)
    ensures Represents(intents, ops + [op])
  {
    RefsStep(ops, op);
    assert forall x :: !Stores(op, x);
    hide FirstStoredAt, RecordOf, Stores, Refs, IsAccepted;
    forall i | 0 <= i < |intents|
      ensures FirstStoredAt(ops + [op], Refs(ops)[i]).Some? && RecordOf(ops + [op], Refs(ops)[i]) == RecordOf(ops, Refs(ops)[i])
    {
      RecordStays(ops, op, Refs(ops)[i]);
    }
  }

  lemma {:induction false} ApplyKeepsHistory(intents: seq<Intent>, ops: seq<Operation>, op: Operation)
    requires Represents(intents, ops)
    ensures Represents(Apply(intents, op), ops + [op])
  {
    hide Represents, IsAccepted, BindMessage;
    match op
    case Store(input, generated, now) =>
      if IsAccepted(input) {
        StoreKeepsHistory(intents, ops, op);
      } else {
        RejectedStoreKeepsHistory(intents, ops, op);
      }
    case Bind(ref, messageId) => BindKeepsHistory(intents, ops, ref, messageId);
  }

  /**
   * In every run of storing, re-storing and binding there is one record per reference, in the order
   * of first storing, with the time of its first store, its latest content and all its bindings.
   */
  lemma {:induction false} EveryRunKeepsHistory(ops: seq<Operation>)
    ensures Represents(Run(ops), ops)
  {
    hide Represents, Apply;
    if ops != [] {
      var before := ops[..|ops| - 1];
      EveryRunKeepsHistory(before);
      ApplyKeepsHistory(Run(before), before, ops[|ops| - 1]);
      assert ops == before + [ops[|ops| - 1]];
    } else {
      EmptyHistory();
    }
  }

  lemma {:induction false} EmptyHistory()
    ensures Represents([], [])
  {
  }

  // ---- lookups ----

  /** Bound is bound for good: later calls only append to the list of bindings. */
  lemma {:induction false} BoundStaysBound(ops: seq<Operation>, more: seq<Operation>, ref: string)
    ensures Bound(ops, ref) <= Bound(ops + more, ref)
    decreases |more|
  {
    hide Bound, LastBound, FirstStoredAt;
    if more == [] {
      assert ops + more == ops;
    } else {
      var before, last := more[..|more| - 1], more[|more| - 1];
      BoundStaysBound(ops, before, ref);
      assert ops + more == (ops + before) + [last];
      HistoryStep(ops + before, last, ref);
    }
  }

  ghost predicate EverBound(ops: seq<Operation>, ref: string, messageId: string) {
    exists k :: 0 <= k < |ops| && Binds(ops, k, ref, messageId)
  }

  lemma {:induction false} EverBoundStep(ops: seq<Operation>, op: Operation, ref: string, messageId: string)
    ensures EverBound(ops + [op], ref, messageId)
            <==> EverBound(ops, ref, messageId) || (op == Bind(ref, messageId) && FirstStoredAt(ops, ref).Some?)
  {
    hide FirstStoredAt;
    var all := ops + [op];
    forall k | 0 <= k <= |ops| ensures all[..k] == ops[..k] && (k < |ops| ==> all[k] == ops[k]) {
    }
    assert ops[..|ops|] == ops;
    assert Binds(all, |ops|, ref, messageId) <==> op == Bind(ref, messageId) && FirstStoredAt(ops, ref).Some?;
    if EverBound(ops, ref, messageId) {
      var k :| 0 <= k < |ops| && Binds(ops, k, ref, messageId);
      assert Binds(all, k, ref, messageId);
    }
    if EverBound(all, ref, messageId) {
      var k :| 0 <= k < |all| && Binds(all, k, ref, messageId);
      assert k < |ops| ==> Binds(ops, k, ref, messageId);
    }
  }

  /** A message is bound to a reference exactly when some call bound it after the reference was stored. */
  lemma {:induction false} BoundIff(ops: seq<Operation>, ref: string, messageId: string)
    ensures messageId in Bound(ops, ref) <==> EverBound(ops, ref, messageId)
  {
    if ops != [] {
      hide Bound, LastBound, FirstStoredAt, EverBound;
      var before, last := ops[..|ops| - 1], ops[|ops| - 1];
      assert ops == before + [last];
      BoundIff(before, ref, messageId);
      HistoryStep(before, last, ref);
      EverBoundStep(before, last, ref, messageId);
    }
  }

  /** The reference that was stored first among those that the message was ever bound to, if any. */
  function FirstRefBoundTo(ops: seq<Operation>, messageId: string): int {
    FindIndex(Refs(ops), (ref: string) => messageId in Bound(ops, ref))
  }

  /** Looking a message up answers for the first-stored reference among all it was ever bound to. */
  lemma {:induction false} LookupByMessage(ops: seq<Operation>, messageId: string, now: int)
    ensures var k := FirstRefBoundTo(ops, messageId);
            FindByMessage(Run(ops), messageId, now)
            == if k < 0 then Err(NotFound)
               else
                 assert Refs(ops)[k] in Refs(ops);
                 var record := RecordOf(ops, Refs(ops)[k]);
                 if record.expiresAt.Some? && record.expiresAt.value <= now then Err(Expired) else Ok(record)
  {
    EveryRunKeepsHistory(ops);
    var intents, refs := Run(ops), Refs(ops);
    hide Run, Refs, FirstStoredAt, LatestInput, Bound, LastBound;
    forall i | 0 <= i < |intents| ensures IsBoundTo(intents[i], messageId) <==> messageId in Bound(ops, refs[i]) {
      assert refs[i] in refs;
      assert intents[i] == RecordOf(ops, refs[i]);
    }
    var found, k := FindIndex(intents, (intent: Intent) => IsBoundTo(intent, messageId)), FirstRefBoundTo(ops, messageId);
    hide FindIndex, RecordOf, IsBoundTo;
    assert found == k;
  }

  /** Looking a reference up answers for its one record, until that expires. */
  lemma {:induction false} LookupByRef(ops: seq<Operation>, ref: string, now: int)
    ensures FindByRef(Run(ops), ref, now)
            == if FirstStoredAt(ops, ref).None? then Err(NotFound)
               else
                 var record := RecordOf(ops, ref);
                 if record.expiresAt.Some? && record.expiresAt.value <= now then Err(Expired) else Ok(record)
  {
    EveryRunKeepsHistory(ops);
    hide Run, Refs, FirstStoredAt, RecordOf, IndexOf;
    PlaceOfRef(Run(ops), ops, ref);
  }

  // ---- what is accepted ----

  ghost predicate HasInk(s: string) {
    exists i :: 0 <= i < |s| && !IsWhiteSpace(s[i])
  }

  lemma {:induction false} BlankIffNoInk(s: string)
    ensures Trim(s) != "" <==> HasInk(s)
  {
    hide IsWhiteSpace;
    var start := TrimStart(s);
    var t := TrimEnd(start);
    if t != "" {
      assert start[0] == s[|s| - |start|];
    }
  }

  /** An intent needs a recipient and a text that are not blank, and an expiry, if any, that is a safe integer. */
  lemma {:induction false} AcceptedIff(input: Input)
    ensures IsAccepted(input)
            <==> HasInk(input.recipientRef) && HasInk(input.text)
                 && (input.expiresAt.Some? ==> -9007199254740991 <= input.expiresAt.value <= 9007199254740991)
  {
    hide Trim;
    BlankIffNoInk(input.recipientRef);
    BlankIffNoInk(input.text);
  }

  /** A receipt needs a reference that is a token once trimmed, and names it trimmed. */
  lemma {:induction false} ReceiptIff(intent: Intent)
    ensures ReceiptFor(intent)
            == if IsToken(Trim(intent.ref)) then Ok(Receipt(Trim(intent.ref), intent.createdAt, intent.expiresAt)) else Err(Rejected)
  {
    var trimmed := Trim(intent.ref);
    hide Trim;
    forall i | 0 <= i < |trimmed|
      ensures trimmed[i] in TOKEN_CHARACTERS
              <==> 'A' <= trimmed[i] <= 'Z' || 'a' <= trimmed[i] <= 'z' || IsDigit(trimmed[i]) || trimmed[i] in {'_', '.', ':', '-'}
    {
      TokenCharacters(trimmed[i]);
    }
    hide IsDigit;
  }

  /**
   * A store that is not accepted changes nothing. After one that is, its reference, or the generated one, is
   * found with the trimmed recipient, the text and the expiry just stored and the time of the first store,
   * until it expires.
   */
  lemma {:induction false} StoreOutcome(ops: seq<Operation>, input: Input, generated: string, now: int, later: int)
    ensures var after := ops + [Store(input, generated, now)];
            var ref := if input.ref.Some? then input.ref.value else generated;
            if !(HasInk(input.recipientRef) && HasInk(input.text)
                 && (input.expiresAt.Some? ==> -9007199254740991 <= input.expiresAt.value <= 9007199254740991))
            then Run(after) == Run(ops)
            else
              var found := FindByRef(Run(after), ref, later);
              if input.expiresAt.Some? && input.expiresAt.value <= later then found == Err(Expired)
              else
                && found.Ok? && found.value.ref == ref && found.value.recipientRef == Trim(input.recipientRef)
                && found.value.text == input.text && found.value.expiresAt == input.expiresAt
                && found.value.createdAt == (if FirstStoredAt(ops, ref).Some? then FirstStoredAt(ops, ref).value else now)
  {
    var op := Store(input, generated, now);
    AcceptedIff(input);
    RunOneMore(ops, op);
    hide Run, Trim, HasInk, FirstStoredAt, LatestInput, Bound, LastBound, FindByRef;
    if IsAccepted(input) {
      assert Stores(op, RefOf(input, generated));
      HistoryStep(ops, op, RefOf(input, generated));
      LookupByRef(ops + [op], RefOf(input, generated), later);
    }
    hide IsAccepted;
  }

  lemma {:induction false} RunOneMore(ops: seq<Operation>, op: Operation)
    ensures Run(ops + [op]) == Apply(Run(ops), op)
  {
    hide Apply;
    assert (ops + [op])[..|ops|] == ops;
  }

  // ---- the store object ----

  class InMemoryOutboundMessageIntentStore {
    var intents: seq<Intent>
    ghost var history: seq<Operation>

    ghost predicate Valid()
      reads this
    {
      Represents(intents, history)
    }

    constructor ()
      ensures Valid() && history == [] && intents == []
    {
      intents, history := [], [];
      EmptyHistory();
    }

    /** An unsafe reference is refused only after the intent was stored under it. */
    method StoreTextIntent(input: Input, generated: string, now: int) returns (r: Result<Receipt, Failure>)
      requires Valid()
      modifies this
      ensures Valid() && history == old(history) + [Store(input, generated, now)]
      ensures intents == Apply(old(intents), Store(input, generated, now))
      ensures r.Ok? <==> IsAccepted(input) && IsSafeRef(RefOf(input, generated))
      ensures r.Err? ==> r.error == Rejected
      ensures r.Ok? ==> r.value.createdAt == FirstStoredAt(history, RefOf(input, generated)).value
    {
      hide Represents, IsAccepted, FirstStoredAt, IsSafeRef, Trim;
      ApplyKeepsHistory(intents, history, Store(input, generated, now));
      PlaceOfRef(intents, history, RefOf(input, generated));
      if IsAccepted(input) {
        StoredTime(history, input, generated, now);
      }
      history := history + [Store(input, generated, now)];
      if !IsAccepted(input) {
        return Err(Rejected);
      }
      var ref := RefOf(input, generated);
      var i := IndexOf(intents, ref);
      var stored := NewIntent(input, ref, if i < 0 then now else intents[i].createdAt);
      intents := if i < 0 then intents + [stored] else intents[i := MergeExistingBinding(stored, intents[i])];
      r := ReceiptFor(stored);
    }

    method BindMessageIntent(ref: string, messageId: string) returns (r: Result<(), Failure>)
      requires Valid()
      modifies this
      ensures Valid() && history == old(history) + [Bind(ref, messageId)]
      ensures intents == Apply(old(intents), Bind(ref, messageId))
      ensures r.Ok? <==> FirstStoredAt(old(history), ref).Some?
      ensures r.Ok? ==> messageId in Bound(history, ref)
    {
      hide Represents, FirstStoredAt, AddBinding;
      ApplyKeepsHistory(intents, history, Bind(ref, messageId));
      PlaceOfRef(intents, history, ref);
      HistoryStep(history, Bind(ref, messageId), ref);
      history := history + [Bind(ref, messageId)];
      var index := IndexOf(intents, ref);
      if index < 0 {
        return Err(NotFound);
      }
      intents := intents[index := intents[index].(messageId := Some(messageId), messageIds := Some(AddBinding(intents[index], messageId)))];
      r := Ok(());
    }

    method FindTextIntentByMessage(messageId: string, now: int) returns (r: Result<Receipt, Failure>)
      ensures r == ReceiptOf(FindByMessage(intents, messageId, now))
    {
      var index := FindIndex(intents, (intent: Intent) => IsBoundTo(intent, messageId));
      if index < 0 {
        return Err(NotFound);
      }
      if IsExpired(intents[index], now) {
        return Err(Expired);
      }
      r := ReceiptFor(intents[index]);
    }
  }

  lemma {:induction false} StoredTime(ops: seq<Operation>, input: Input, generated: string, now: int)
    requires IsAccepted(input)
    ensures FirstStoredAt(ops + [Store(input, generated, now)], RefOf(input, generated))
            == Some(if FirstStoredAt(ops, RefOf(input, generated)).Some? then FirstStoredAt(ops, RefOf(input, generated)).value else now)
  {
    assert (ops + [Store(input, generated, now)])[..|ops|] == ops;
  }
}
