/** The scheduler: ticks that enqueue each due definition once per aligned window. */
module Scheduler {
  import opened Collections
  import opened Text
  import opened Windows

  datatype Definition = Definition(id: string, ownerRef: string, workType: string, interval: nat)

  datatype Dispatch = Dispatch(definitionId: string, workType: string, ownerRef: string, idempotencyKey: string,
                               windowStart: nat, accepted: bool)

  /** The window that was last enqueued successfully, by definition id. */
  type Checkpoints = map<string, nat>

  ghost predicate ValidDefinitions(definitions: seq<Definition>) {
    forall d :: d in definitions ==> d.interval > 0
  }

  ghost predicate DistinctIds(definitions: seq<Definition>) {
    forall i, j :: 0 <= i < j < |definitions| ==> definitions[i].id != definitions[j].id
  }

  function IdempotencyKey(definitionId: string, windowStart: nat): string {
    "scheduler:" + definitionId + ":" + Numeral(windowStart)
  }

  predicate IsDue(d: Definition, now: nat, checkpoints: Checkpoints)
    requires d.interval > 0
  {
    !(d.id in checkpoints && checkpoints[d.id] == WindowStart(now, d.interval))
  }

  function DueDefinitions(definitions: seq<Definition>, now: nat, checkpoints: Checkpoints): (due: seq<Definition>)
    requires ValidDefinitions(definitions)
    ensures forall d :: d in due <==> d in definitions && IsDue(d, now, checkpoints)
  {
    if definitions == [] then []
    else
      assert definitions[0] in definitions;
      (if IsDue(definitions[0], now, checkpoints) then [definitions[0]] else []) + DueDefinitions(definitions[1..], now, checkpoints)
  }

  datatype Ticked = Ticked(checkpoints: Checkpoints, dispatched: seq<Dispatch>)

  /** The due definitions, which were chosen before the first of them is enqueued; `accepts` is the queue's answer. */
  function DispatchAll(due: seq<Definition>, now: nat, checkpoints: Checkpoints, accepts: set<string>): Ticked
    requires ValidDefinitions(due)
  {
    if due == [] then Ticked(checkpoints, [])
    else
      var before := DispatchAll(due[..|due| - 1], now, checkpoints, accepts);
      var d := due[|due| - 1];
      assert d in due;
      var start := WindowStart(now, d.interval);
      Ticked(if d.id in accepts then before.checkpoints[d.id := start] else before.checkpoints,
             before.dispatched + [Dispatch(d.id, d.workType, d.ownerRef, IdempotencyKey(d.id, start), start, d.id in accepts)])
  }

  function TickOnce(definitions: seq<Definition>, now: nat, checkpoints: Checkpoints, accepts: set<string>): Ticked
    requires ValidDefinitions(definitions)
  {
    DispatchAll(DueDefinitions(definitions, now, checkpoints), now, checkpoints, accepts)
  }

  // ---- runs ----

  datatype Tick = Tick(now: nat, accepts: set<string>)

  /** All dispatches of a run, in order, and the checkpoints at its end. */
  function Run(definitions: seq<Definition>, ticks: seq<Tick>): Ticked
    requires ValidDefinitions(definitions)
  {
    if ticks == [] then Ticked(map[], [])
    else
      var before, tick := Run(definitions, ticks[..|ticks| - 1]), ticks[|ticks| - 1];
      var after := TickOnce(definitions, tick.now, before.checkpoints, tick.accepts);
      Ticked(after.checkpoints, before.dispatched + after.dispatched)
  }

  ghost predicate ClockNeverGoesBack(ticks: seq<Tick>) {
    forall i, j :: 0 <= i < j < |ticks| ==> ticks[i].now <= ticks[j].now
  }

  /** How often a definition was enqueued successfully for one window. */
  function Successes(log: seq<Dispatch>, id: string, start: nat): nat {
    if log == [] then 0
    else
      var last := log[|log| - 1];
      Successes(log[..|log| - 1], id, start) + if last.accepted && last.definitionId == id && last.windowStart == start then 1 else 0
  }

  /** The queue would accept the definition at some tick inside the window. */
  ghost predicate AcceptedWithin(ticks: seq<Tick>, d: Definition, start: nat)
    requires d.interval > 0
  {
    exists i :: 0 <= i < |ticks| && WindowStart(ticks[i].now, d.interval) == start && d.id in ticks[i].accepts
  }

  // ---- one tick, seen from one definition ----

  lemma {:induction false} SuccessesOfConcat(a: seq<Dispatch>, b: seq<Dispatch>, id: string, start: nat)
    ensures Successes(a + b, id, start) == Successes(a, id, start) + Successes(b, id, start)
  {
    if b == [] {
      assert a + b == a;
    } else {
      assert (a + b)[..|a + b| - 1] == a + b[..|b| - 1];
      SuccessesOfConcat(a, b[..|b| - 1], id, start);
    }
  }

  /** Definitions with other ids neither count for `id` nor touch its checkpoint. */
  lemma {:induction false} OthersDoNotCount(due: seq<Definition>, now: nat, checkpoints: Checkpoints,
          accepts: set<string>, id: string, start: nat)
    requires ValidDefinitions(due) && forall d :: d in due ==> d.id != id
    ensures var after := DispatchAll(due, now, checkpoints, accepts);
            && Successes(after.dispatched, id, start) == 0
            && (id in after.checkpoints <==> id in checkpoints)
            && (id in checkpoints ==> after.checkpoints[id] == checkpoints[id])
  {
    hide IdempotencyKey, WindowStart;
    if due != [] {
      OthersDoNotCount(due[..|due| - 1], now, checkpoints, accepts, id, start);
      var before := DispatchAll(due[..|due| - 1], now, checkpoints, accepts);
      var after := DispatchAll(due, now, checkpoints, accepts);
      assert after.dispatched[..|after.dispatched| - 1] == before.dispatched;
      assert due[|due| - 1] in due;
    }
  }

  lemma {:induction false} DispatchedOnce(due: seq<Definition>, now: nat, checkpoints: Checkpoints,
          accepts: set<string>, d: Definition, start: nat)
    requires ValidDefinitions(due) && DistinctIds(due) && d in due
    ensures var after := DispatchAll(due, now, checkpoints, accepts);
            && Successes(after.dispatched, d.id, start) == (if d.id in accepts && start == WindowStart(now, d.interval) then 1 else 0)
            && (d.id in accepts ==> d.id in after.checkpoints && after.checkpoints[d.id] == WindowStart(now, d.interval))
            && (d.id !in accepts ==> (d.id in after.checkpoints <==> d.id in checkpoints)
                                     && (d.id in checkpoints ==> after.checkpoints[d.id] == checkpoints[d.id]))
  {
    hide IdempotencyKey, WindowStart;
    var earlier, last := due[..|due| - 1], due[|due| - 1];
    var before, after := DispatchAll(earlier, now, checkpoints, accepts), DispatchAll(due, now, checkpoints, accepts);
    assert after.dispatched[..|after.dispatched| - 1] == before.dispatched;
    assert last in due;
    if last == d {
      OthersDoNotCount(earlier, now, checkpoints, accepts, d.id, start);
    } else {
      assert d in earlier;
      DispatchedOnce(earlier, now, checkpoints, accepts, d, start);
    }
  }

  lemma {:induction false} DueIdsAreDistinct(definitions: seq<Definition>, now: nat, checkpoints: Checkpoints)
    requires ValidDefinitions(definitions) && DistinctIds(definitions)
    ensures DistinctIds(DueDefinitions(definitions, now, checkpoints)) && ValidDefinitions(DueDefinitions(definitions, now, checkpoints))
  {
    hide IsDue;
    if definitions != [] {
      DueIdsAreDistinct(definitions[1..], now, checkpoints);
      assert forall d :: d in definitions[1..] ==> d.id != definitions[0].id;
      assert definitions[0] in definitions;
    }
  }

  // ---- what one tick enqueues ----

  /** The due definitions keep their order: they are at increasing places of the list. */
  lemma {:induction false} DueInOrder(definitions: seq<Definition>, now: nat, checkpoints: Checkpoints) returns (places: seq<nat>)
    requires ValidDefinitions(definitions)
    ensures ArePlaces(places, DueDefinitions(definitions, now, checkpoints), definitions)
  {
    hide IsDue, Shifted, ArePlaces;
    if definitions == [] {
      places := [];
      NoPlaces<Definition>();
    } else {
      assert definitions[0] in definitions;
      places := DueInOrder(definitions[1..], now, checkpoints);
      PlacesBehindHead(places, DueDefinitions(definitions[1..], now, checkpoints), definitions);
      places := if IsDue(definitions[0], now, checkpoints) then [0] + Shifted(places) else Shifted(places);
      assert [] + DueDefinitions(definitions[1..], now, checkpoints) == DueDefinitions(definitions[1..], now, checkpoints);
    }
  }

  lemma {:induction false} DispatchesOf(due: seq<Definition>, now: nat, checkpoints: Checkpoints, accepts: set<string>)
    requires ValidDefinitions(due)
    ensures var dispatched := DispatchAll(due, now, checkpoints, accepts).dispatched;
            && |dispatched| == |due|
            && forall i :: 0 <= i < |due| ==>
                 var d := due[i];
                 && d in due
                 && dispatched[i] == Dispatch(d.id, d.workType, d.ownerRef,
                                              "scheduler:" + d.id + ":" + Numeral(WindowStart(now, d.interval)),
                                              WindowStart(now, d.interval), d.id in accepts)
  {
    hide WindowStart;
    if due != [] {
      DispatchesOf(due[..|due| - 1], now, checkpoints, accepts);
    }
  }

  /**
   * A tick enqueues, in the order of the definitions, one piece of work for each whose checkpoint is not the
   * start of the window that the tick is in, with that definition's owner, work type and key, and for no other.
   */
  lemma {:induction false} TickOutcome(definitions: seq<Definition>, now: nat, checkpoints: Checkpoints, accepts: set<string>)
    requires ValidDefinitions(definitions)
    ensures var due, dispatched := DueDefinitions(definitions, now, checkpoints), TickOnce(definitions, now, checkpoints, accepts).dispatched;
            && |dispatched| == |due|
            && (forall d :: d in due <==> d in definitions && CheckpointOf(checkpoints, d.id) != Some(WindowStart(now, d.interval)))
            && forall i :: 0 <= i < |due| ==>
                 var d := due[i];
                 && d in due
                 && dispatched[i] == Dispatch(d.id, d.workType, d.ownerRef,
                                              "scheduler:" + d.id + ":" + Numeral(WindowStart(now, d.interval)),
                                              WindowStart(now, d.interval), d.id in accepts)
  {
    hide WindowStart, DispatchAll;
    DispatchesOf(DueDefinitions(definitions, now, checkpoints), now, checkpoints, accepts);
  }

  function CheckpointOf(checkpoints: Checkpoints, id: string): Option<nat> {
    if id in checkpoints then Some(checkpoints[id]) else None
  }

  lemma {:induction false} TickOnDefinition(definitions: seq<Definition>, d: Definition, now: nat,
          checkpoints: Checkpoints, accepts: set<string>, start: nat)
    requires ValidDefinitions(definitions) && DistinctIds(definitions) && d in definitions
    ensures var after := TickOnce(definitions, now, checkpoints, accepts);
            var enqueued := IsDue(d, now, checkpoints) && d.id in accepts;
            && Successes(after.dispatched, d.id, start) == (if enqueued && start == WindowStart(now, d.interval) then 1 else 0)
            && CheckpointOf(after.checkpoints, d.id)
               == if enqueued then Some(WindowStart(now, d.interval)) else CheckpointOf(checkpoints, d.id)
  {
    var due := DueDefinitions(definitions, now, checkpoints);
    DueIdsAreDistinct(definitions, now, checkpoints);
    hide WindowStart, DispatchAll, DueDefinitions, Successes;
    if IsDue(d, now, checkpoints) {
      DispatchedOnce(due, now, checkpoints, accepts, d, start);
    } else {
      forall x | x in due ensures x.id != d.id {
        SameIdSameDefinition(definitions, x, d);
      }
      OthersDoNotCount(due, now, checkpoints, accepts, d.id, start);
    }
  }

  lemma {:induction false} SameIdSameDefinition(definitions: seq<Definition>, a: Definition, b: Definition)
    requires DistinctIds(definitions) && a in definitions && b in definitions
    ensures a.id == b.id ==> a == b
  {
  }

  // ---- whole runs ----

  lemma {:induction false} AcceptedStep(ticks: seq<Tick>, d: Definition, start: nat)
    requires ticks != [] && d.interval > 0
    ensures var tick := ticks[|ticks| - 1];
            AcceptedWithin(ticks, d, start) <==>
              AcceptedWithin(ticks[..|ticks| - 1], d, start) || (WindowStart(tick.now, d.interval) == start && d.id in tick.accepts)
  {
    hide WindowStart;
    var before := ticks[..|ticks| - 1];
    if AcceptedWithin(before, d, start) {
      var i :| 0 <= i < |before| && WindowStart(before[i].now, d.interval) == start && d.id in before[i].accepts;
      assert ticks[i] == before[i];
    }
    if AcceptedWithin(ticks, d, start) {
      var i :| 0 <= i < |ticks| && WindowStart(ticks[i].now, d.interval) == start && d.id in ticks[i].accepts;
      if i < |before| {
        assert before[i] == ticks[i];
      }
    }
  }

  /** Nothing was accepted in a window that has not begun. */
  lemma {:induction false} NotAcceptedYet(ticks: seq<Tick>, d: Definition, start: nat, now: nat)
    requires d.interval > 0 && WindowStart(now, d.interval) < start
    requires forall i :: 0 <= i < |ticks| ==> ticks[i].now <= now
    ensures !AcceptedWithin(ticks, d, start)
  {
    hide WindowStart;
    forall i | 0 <= i < |ticks| ensures WindowStart(ticks[i].now, d.interval) < start {
      WindowsAreAligned(now, ticks[i].now, d.interval);
    }
  }

  /** From the window of the last tick on, the checkpoint tells in which window the queue has accepted. */
  ghost predicate CheckpointTells(checkpoints: Checkpoints, ticks: seq<Tick>, d: Definition, start: nat)
    requires d.interval > 0
  {
    CheckpointOf(checkpoints, d.id) == Some(start) <==> AcceptedWithin(ticks, d, start)
  }

  /** A tick at or after the last one: its window is due unless the queue has accepted in it already. */
  lemma {:induction false} TickKeepsCheckpoint(definitions: seq<Definition>, d: Definition, ticks: seq<Tick>,
          earlier: Ticked, start: nat)
    requires ValidDefinitions(definitions) && DistinctIds(definitions) && d in definitions && ClockNeverGoesBack(ticks) && ticks != []
    requires var tick, before := ticks[|ticks| - 1], ticks[..|ticks| - 1];
             var now := WindowStart(tick.now, d.interval);
             && CheckpointTells(earlier.checkpoints, before, d, now)
             && (now <= start ==> CheckpointTells(earlier.checkpoints, before, d, start))
             && Successes(earlier.dispatched, d.id, start) == if AcceptedWithin(before, d, start) then 1 else 0
    ensures var tick := ticks[|ticks| - 1];
            var after := TickOnce(definitions, tick.now, earlier.checkpoints, tick.accepts);
            && Successes(earlier.dispatched + after.dispatched, d.id, start) == (if AcceptedWithin(ticks, d, start) then 1 else 0)
            && (WindowStart(tick.now, d.interval) <= start ==> CheckpointTells(after.checkpoints, ticks, d, start))
  {
    var tick, before := ticks[|ticks| - 1], ticks[..|ticks| - 1];
    var after := TickOnce(definitions, tick.now, earlier.checkpoints, tick.accepts);
    TickOnDefinition(definitions, d, tick.now, earlier.checkpoints, tick.accepts, start);
    SuccessesOfConcat(earlier.dispatched, after.dispatched, d.id, start);
    AcceptedStep(ticks, d, start);
    if WindowStart(tick.now, d.interval) < start {
      NotAcceptedYet(before, d, start, tick.now);
    }
    hide TickOnce, WindowStart, Successes, AcceptedWithin;
  }

  lemma {:induction false} RunKeepsCheckpoint(definitions: seq<Definition>, d: Definition, ticks: seq<Tick>, start: nat)
    requires ValidDefinitions(definitions) && DistinctIds(definitions) && d in definitions && ClockNeverGoesBack(ticks)
    ensures Successes(Run(definitions, ticks).dispatched, d.id, start) == if AcceptedWithin(ticks, d, start) then 1 else 0
    ensures ticks == [] || WindowStart(ticks[|ticks| - 1].now, d.interval) <= start ==>
              CheckpointTells(Run(definitions, ticks).checkpoints, ticks, d, start)
  {
    if ticks != [] {
      var before, tick := ticks[..|ticks| - 1], ticks[|ticks| - 1];
      hide WindowStart;
      var now := WindowStart(tick.now, d.interval);
      if before != [] {
        assert before[|before| - 1] == ticks[|ticks| - 2];
        WindowsAreAligned(tick.now, before[|before| - 1].now, d.interval);
      }
      hide Successes, AcceptedWithin, TickOnce, CheckpointTells;
      RunKeepsCheckpoint(definitions, d, before, start);
      RunKeepsCheckpoint(definitions, d, before, now);
      TickKeepsCheckpoint(definitions, d, ticks, Run(definitions, before), start);
    }
  }

  /**
   * In every run with a clock that never goes back, a definition is enqueued successfully at most once
   * per aligned window, and exactly once if the queue accepts it at some tick in the window.
   */
  lemma {:induction false} OncePerWindow(definitions: seq<Definition>, d: Definition, ticks: seq<Tick>, start: nat)
    requires ValidDefinitions(definitions) && DistinctIds(definitions) && d in definitions && ClockNeverGoesBack(ticks)
    ensures Successes(Run(definitions, ticks).dispatched, d.id, start) == if AcceptedWithin(ticks, d, start) then 1 else 0
  {
    RunKeepsCheckpoint(definitions, d, ticks, start);
  }

  // ---- idempotency keys ----

  /** A text ends in one run of digits after its last colon, whatever colons come before. */
  lemma {:induction false} CutLastToken(headA: string, a: string, headB: string, b: string)
    requires !Contains(a, ':') && !Contains(b, ':')
    requires headA + [':'] + a == headB + [':'] + b
    ensures headA == headB && a == b
  {
    var s := headA + [':'] + a;
    assert s[|headA|] == ':' && s[|headB|] == ':';
    assert forall i :: |headA| < i < |s| ==> s[i] == a[i - |headA| - 1];
    assert forall i :: |headB| < i < |s| ==> s[i] == b[i - |headB| - 1];
    assert |headA| == |headB|;
    assert headA == s[..|headA|] && headB == s[..|headB|];
    assert a == s[|headA| + 1..] && b == s[|headB| + 1..];
  }

  /** Different definitions or windows have different idempotency keys, colons in the ids included. */
  lemma {:induction false} KeysIdentifyDispatches(idA: string, startA: nat, idB: string, startB: nat)
    ensures IdempotencyKey(idA, startA) == IdempotencyKey(idB, startB) <==> idA == idB && startA == startB
  {
    if IdempotencyKey(idA, startA) == IdempotencyKey(idB, startB) {
      NumeralHasOnlyDigits(startA, ':');
      NumeralHasOnlyDigits(startB, ':');
      hide Numeral, Contains;
      CutLastToken("scheduler:" + idA, Numeral(startA), "scheduler:" + idB, Numeral(startB));
      assert ("scheduler:" + idA)[10..] == idA && ("scheduler:" + idB)[10..] == idB;
      NumeralInjective(startA, startB);
    }
  }

  // ---- the runtime object ----

  class InMemorySchedulerCheckpointStore {
    var windowsByDefinitionId: Checkpoints

    constructor ()
      ensures windowsByDefinitionId == map[]
    {
      windowsByDefinitionId := map[];
    }

    method RecordDispatchedWindow(definitionId: string, windowStart: nat)
      modifies this
      ensures windowsByDefinitionId == old(windowsByDefinitionId)[definitionId := windowStart]
    {
      windowsByDefinitionId := windowsByDefinitionId[definitionId := windowStart];
    }
  }

  class SchedulerRuntime {
    const definitions: seq<Definition>
    const checkpointStore: InMemorySchedulerCheckpointStore

    constructor (definitions: seq<Definition>, checkpointStore: InMemorySchedulerCheckpointStore)
      ensures this.definitions == definitions && this.checkpointStore == checkpointStore
    {
      this.definitions := definitions;
      this.checkpointStore := checkpointStore;
    }

    method Tick(now: nat, accepts: set<string>) returns (dispatched: seq<Dispatch>)
      requires ValidDefinitions(definitions)
      modifies checkpointStore
      ensures Ticked(checkpointStore.windowsByDefinitionId, dispatched)
              == TickOnce(definitions, now, old(checkpointStore.windowsByDefinitionId), accepts)
    {
      hide WindowStart, IdempotencyKey;
      var due := DueDefinitions(definitions, now, checkpointStore.windowsByDefinitionId);
      dispatched := [];
      for i := 0 to |due|
        invariant Ticked(checkpointStore.windowsByDefinitionId, dispatched)
                  == DispatchAll(due[..i], now, old(checkpointStore.windowsByDefinitionId), accepts)
      {
        var d := due[i];
        assert due[..i + 1][..i] == due[..i];
        var start := WindowStart(now, d.interval);
        var accepted := d.id in accepts;
        if accepted {
          checkpointStore.RecordDispatchedWindow(d.id, start);
        }
        dispatched := dispatched + [Dispatch(d.id, d.workType, d.ownerRef, IdempotencyKey(d.id, start), start, accepted)];
      }
      assert due[..|due|] == due;
    }
  }
}
