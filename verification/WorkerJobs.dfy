/**
 * Reserving worker jobs and recovering their expired leases, as transactions that interleave.
 * A SELECT .. FOR UPDATE SKIP LOCKED sees committed rows only, locks what it picks and passes over
 * rows locked by others; an UPDATE stays private to its transaction until COMMIT.
 */
module WorkerJobs {
  import opened Collections

  datatype JobStatus = Queued | Reserved | Running | Retrying | Completed | Dead

  /** A row of the job table; the aggregate column carries the same status and the attempt. */
  datatype Row = Row(workType: string, status: JobStatus, attempt: Option<nat>, maxAttempts: nat, visibleAt: Option<int>)

  datatype Event =
    | HandedOut(id: string, askedFor: string, attempt: nat, deadline: int)
    | Recovered(id: string, at: int)

  // ---- the callbacks of the queue provider ----

  function NextReservationAttempt(row: Row): nat {
    match row.attempt
    case Some(n) => if row.status.Retrying? then n else n + 1
    case None => 1
  }

  /** The reserve callback; `None` when it throws because the retry budget is exceeded. */
  function ReserveRow(row: Row, deadline: int): Option<Row> {
    var attempt := NextReservationAttempt(row);
    if attempt == 0 || attempt > row.maxAttempts then None
    else Some(row.(status := Reserved, attempt := Some(attempt), visibleAt := Some(deadline)))
  }

  /** The recover callback, with the visibility that the repository stores beside its result. */
  function RecoverRow(row: Row, now: int): Row {
    var next := (if row.attempt.Some? then row.attempt.value else 0) + 1;
    if next > row.maxAttempts then row.(status := Dead, visibleAt := None)
    else row.(status := Retrying, attempt := Some(next), visibleAt := Some(now))
  }

  // ---- the transactions ----

  datatype Transaction =
    | Reserving(askedFor: string, id: string, read: Row, deadline: int, written: Option<Row>)
    | Recovering(ids: seq<string>, now: int, next: nat)

  type Jobs = map<string, Row>

  datatype World = World(clock: int, jobs: Jobs, locks: map<string, nat>, open: map<nat, Transaction>, history: seq<Event>)

  datatype Action =
    | Wait(milliseconds: nat)
    | Enqueue(id: string, workType: string, maxAttempts: nat)
    | StartJob(id: string)
    | BeginReserve(tx: nat, workType: string, now: int, deadline: int, pick: string)
    | WriteReserved(tx: nat)
    | BeginRecover(tx: nat, workTypes: set<string>, now: int, picks: seq<string>)
    | WriteRecovered(tx: nat)
    | Commit(tx: nat)
    | Abort(tx: nat)

  function VisibleFrom(row: Row): int {
    if row.visibleAt.Some? then row.visibleAt.value else 0
  }

  predicate IsActive(row: Row) {
    row.status.Reserved? || row.status.Running?
  }

  predicate IsReservable(row: Row, workType: string, now: int) {
    row.workType == workType && (row.status.Queued? || (row.status.Retrying? && VisibleFrom(row) <= now))
  }

  predicate IsRecoverable(row: Row, workTypes: set<string>, now: int) {
    row.workType in workTypes && IsActive(row) && VisibleFrom(row) <= now
  }

  function IdsOf(t: Transaction): seq<string> {
    if t.Reserving? then [t.id] else t.ids
  }

  function LockAll(locks: map<string, nat>, ids: seq<string>, tx: nat): map<string, nat> {
    map id | id in locks.Keys + (set x | x in ids) :: if id in ids then tx else locks[id]
  }

  function Unlock(locks: map<string, nat>, tx: nat): map<string, nat> {
    map id | id in locks && locks[id] != tx :: locks[id]
  }

  function RecoverAll(jobs: Jobs, history: seq<Event>, ids: seq<string>, now: int, at: int): (Jobs, seq<Event>)
  {
    if ids == [] then (jobs, history)
    else
      var (jobs', history') := RecoverAll(jobs, history, ids[..|ids| - 1], now, at);
      var id := ids[|ids| - 1];
      (if id in jobs' then jobs'[id := RecoverRow(jobs'[id], now)] else jobs', history' + [Recovered(id, at)])
  }

  function CommitOf(w: World, tx: nat, t: Transaction): World {
    var closed := w.(open := w.open - {tx}, locks := Unlock(w.locks, tx));
    match t
    case Reserving(askedFor, id, _, deadline, Some(row)) =>
      closed.(jobs := w.jobs[id := row],
              history := w.history + [HandedOut(id, askedFor, if row.attempt.Some? then row.attempt.value else 0, deadline)])
    case Recovering(ids, now, _) =>
      var (jobs, history) := RecoverAll(w.jobs, w.history, ids, now, w.clock);
      closed.(jobs := jobs, history := history)
    case _ => closed
  }

  /**
   * One step. A pick that the query would not return makes the step do nothing; the query's ORDER BY
   * is not used, so the results hold whichever eligible row comes first.
   */
  function Step(w: World, action: Action): World {
    match action
    case Wait(milliseconds) => w.(clock := w.clock + milliseconds)
    case Enqueue(id, workType, maxAttempts) =>
      if id in w.jobs then w
      else w.(jobs := w.jobs[id := Row(workType, Queued, None, maxAttempts, Some(w.clock))])
    case StartJob(id) =>
      if id !in w.jobs || id in w.locks || !w.jobs[id].status.Reserved? then w
      else w.(jobs := w.jobs[id := w.jobs[id].(status := Running)])
    case BeginReserve(tx, workType, now, deadline, pick) =>
      if tx in w.open || now > w.clock || pick !in w.jobs || pick in w.locks
         || !IsReservable(w.jobs[pick], workType, now) then w
      else w.(locks := LockAll(w.locks, [pick], tx),
              open := w.open[tx := Reserving(workType, pick, w.jobs[pick], deadline, None)])
    case WriteReserved(tx) =>
      if tx !in w.open || !w.open[tx].Reserving? then w
      else
        var t := w.open[tx];
        var row := ReserveRow(t.read, t.deadline);
        if row.None? then w.(open := w.open - {tx}, locks := Unlock(w.locks, tx))
        else w.(open := w.open[tx := t.(written := row)])
    case BeginRecover(tx, workTypes, now, picks) =>
      if tx in w.open || now > w.clock || !Distinct(picks)
         || exists i :: 0 <= i < |picks| && (picks[i] !in w.jobs || picks[i] in w.locks
                                             || !IsRecoverable(w.jobs[picks[i]], workTypes, now)) then w
      else w.(locks := LockAll(w.locks, picks, tx), open := w.open[tx := Recovering(picks, now, 0)])
    case WriteRecovered(tx) =>
      if tx !in w.open || !w.open[tx].Recovering? || w.open[tx].next >= |w.open[tx].ids| then w
      else w.(open := w.open[tx := w.open[tx].(next := w.open[tx].next + 1)])
    case Commit(tx) =>
      if tx !in w.open then w
      else
        var t := w.open[tx];
        if (t.Reserving? && t.written.None?) || (t.Recovering? && t.next < |t.ids|) then w
        else CommitOf(w, tx, t)
    case Abort(tx) => w.(open := w.open - {tx}, locks := Unlock(w.locks, tx))
  }

  function Run(clock: int, actions: seq<Action>): World {
    if actions == [] then World(clock, map[], map[], map[], [])
    else Step(Run(clock, actions[..|actions| - 1]), actions[|actions| - 1])
  }

  // ---- what the history says about a job ----

  function LastEvent(history: seq<Event>, id: string): Option<Event> {
    if history == [] then None
    else if history[|history| - 1].id == id then Some(history[|history| - 1])
    else LastEvent(history[..|history| - 1], id)
  }

  function Handouts(history: seq<Event>, id: string): nat {
    if history == [] then 0
    else
      Handouts(history[..|history| - 1], id)
      + (if history[|history| - 1].HandedOut? && history[|history| - 1].id == id then 1 else 0)
  }

  /**
   * Handouts and recoveries of one job alternate, the n-th handout is attempt n, and a recovery
   * comes no earlier than the deadline stored by the handout that it revokes.
   */
  predicate Follows(before: seq<Event>, e: Event) {
    var last := LastEvent(before, e.id);
    match e
    case HandedOut(id, _, attempt, _) =>
      !(last.Some? && last.value.HandedOut?) && attempt == Handouts(before, id) + 1
    case Recovered(_, at) => last.Some? && last.value.HandedOut? && last.value.deadline <= at
  }

  ghost predicate IsOrderly(history: seq<Event>) {
    forall k :: 0 <= k < |history| ==> Follows(history[..k], history[k])
  }

  /** The committed row of a job and the events of that job tell the same story. */
  ghost predicate RowMatches(row: Row, history: seq<Event>, id: string) {
    var last, n := LastEvent(history, id), Handouts(history, id);
    && n <= row.maxAttempts
    && match row.status
       case Queued => last.None? && n == 0 && row.attempt.None?
       case Retrying => last.Some? && last.value.Recovered? && row.attempt == Some(n + 1) && n < row.maxAttempts
       case Completed => false
       case Dead => last.Some? && last.value.Recovered? && n == row.maxAttempts
       case _ => row.visibleAt.Some? && last == Some(HandedOut(id, row.workType, n, row.visibleAt.value)) && row.attempt == Some(n)
  }

  ghost predicate JobsMatch(jobs: Jobs, history: seq<Event>) {
    && IsOrderly(history)
    && (forall id :: id in jobs ==> RowMatches(jobs[id], history, id))
    && (forall id :: id !in jobs ==> LastEvent(history, id).None? && Handouts(history, id) == 0)
  }

  lemma {:induction false} OneMoreEvent(history: seq<Event>, e: Event, id: string)
    ensures LastEvent(history + [e], id) == if e.id == id then Some(e) else LastEvent(history, id)
    ensures Handouts(history + [e], id) == Handouts(history, id) + if e.HandedOut? && e.id == id then 1 else 0
  {
    assert (history + [e])[..|history|] == history;
  }

  lemma {:induction false} OrderlyExtension(history: seq<Event>, e: Event)
    requires IsOrderly(history) && Follows(history, e)
    ensures IsOrderly(history + [e])
  {
    hide Follows;
    forall k | 0 <= k < |history + [e]| ensures Follows((history + [e])[..k], (history + [e])[k]) {
      assert (history + [e])[..k] == history[..k];
      assert history[..|history|] == history;
    }
  }

  /** An event of one job, with that job's new row, leaves the match of every other job alone. */
  lemma {:induction false} MatchAfterEvent(jobs: Jobs, history: seq<Event>, e: Event, row: Row)
    requires JobsMatch(jobs, history) && e.id in jobs
    requires Follows(history, e) && RowMatches(row, history + [e], e.id)
    ensures JobsMatch(jobs[e.id := row], history + [e])
  {
    hide Follows, LastEvent, Handouts, IsOrderly, RowMatches;
    OrderlyExtension(history, e);
    forall id | id in jobs && id != e.id ensures RowMatches(jobs[id], history + [e], id) {
      RowStaysMatched(jobs[id], history, e, id);
    }
    forall id | id !in jobs ensures LastEvent(history + [e], id).None? && Handouts(history + [e], id) == 0 {
      OneMoreEvent(history, e, id);
    }
  }

  lemma {:induction false} RowStaysMatched(row: Row, history: seq<Event>, e: Event, id: string)
    requires RowMatches(row, history, id) && id != e.id
    ensures RowMatches(row, history + [e], id)
  {
    OneMoreEvent(history, e, id);
    hide LastEvent, Handouts;
  }

  lemma {:induction false} HandOutKeepsMatch(jobs: Jobs, history: seq<Event>, id: string, deadline: int)
    requires JobsMatch(jobs, history) && id in jobs && (jobs[id].status.Queued? || jobs[id].status.Retrying?)
    requires ReserveRow(jobs[id], deadline).Some?
    ensures var row := ReserveRow(jobs[id], deadline).value;
            JobsMatch(jobs[id := row], history + [HandedOut(id, jobs[id].workType, NextReservationAttempt(jobs[id]), deadline)])
  {
    var e := HandedOut(id, jobs[id].workType, NextReservationAttempt(jobs[id]), deadline);
    assert RowMatches(jobs[id], history, id);
    OneMoreEvent(history, e, id);
    hide LastEvent, Handouts, JobsMatch;
    MatchAfterEvent(jobs, history, e, ReserveRow(jobs[id], deadline).value);
  }

  lemma {:induction false} RecoveryKeepsMatch(jobs: Jobs, history: seq<Event>, id: string, now: int, at: int)
    requires JobsMatch(jobs, history) && id in jobs && IsActive(jobs[id]) && VisibleFrom(jobs[id]) <= now <= at
    ensures JobsMatch(jobs[id := RecoverRow(jobs[id], now)], history + [Recovered(id, at)])
  {
    var e := Recovered(id, at);
    assert RowMatches(jobs[id], history, id);
    OneMoreEvent(history, e, id);
    hide LastEvent, Handouts, JobsMatch;
    MatchAfterEvent(jobs, history, e, RecoverRow(jobs[id], now));
  }

  ghost predicate AllDue(jobs: Jobs, ids: seq<string>, now: int) {
    forall i :: 0 <= i < |ids| ==> ids[i] in jobs && IsActive(jobs[ids[i]]) && VisibleFrom(jobs[ids[i]]) <= now
  }

  lemma {:induction false} RecoverAllKeepsMatch(jobs: Jobs, history: seq<Event>, ids: seq<string>, now: int, at: int)
    requires JobsMatch(jobs, history) && AllDue(jobs, ids, now) && Distinct(ids) && now <= at
    ensures var (jobs', history') := RecoverAll(jobs, history, ids, now, at);
            && JobsMatch(jobs', history') && jobs'.Keys == jobs.Keys
            && forall id :: id in jobs && id !in ids ==> jobs'[id] == jobs[id]
  {
    hide JobsMatch, RecoverRow;
    if ids != [] {
      var last := ids[|ids| - 1];
      RecoverAllKeepsMatch(jobs, history, ids[..|ids| - 1], now, at);
      var (jobs', history') := RecoverAll(jobs, history, ids[..|ids| - 1], now, at);
      assert last !in ids[..|ids| - 1];
      RecoveryKeepsMatch(jobs', history', last, now, at);
    }
  }

  // ---- the invariant of every interleaving ----

  /** Locks and open transactions agree: a transaction holds exactly the rows it picked. */
  ghost predicate LocksMatch(w: World) {
    && (forall id :: id in w.locks ==> w.locks[id] in w.open && id in IdsOf(w.open[w.locks[id]]))
    && (forall tx, id :: tx in w.open && id in IdsOf(w.open[tx]) ==> id in w.locks && w.locks[id] == tx)
  }

  /** What a transaction has read is still committed, because it holds the locks. */
  ghost predicate ReadsAreCurrent(w: World, t: Transaction) {
    match t
    case Reserving(askedFor, id, read, deadline, written) =>
      && id in w.jobs && w.jobs[id] == read && read.workType == askedFor
      && (read.status.Queued? || read.status.Retrying?)
      && (written.Some? ==> written == ReserveRow(read, deadline))
    case Recovering(ids, now, _) => now <= w.clock && Distinct(ids) && AllDue(w.jobs, ids, now)
  }

  ghost predicate Inv(w: World) {
    && JobsMatch(w.jobs, w.history)
    && LocksMatch(w)
    && forall tx :: tx in w.open ==> ReadsAreCurrent(w, w.open[tx])
  }

  lemma {:induction false} ReadsSurvive(w: World, w': World, t: Transaction)
    requires ReadsAreCurrent(w, t) && w.clock <= w'.clock
    requires forall id :: id in IdsOf(t) && id in w.jobs ==> id in w'.jobs && w'.jobs[id] == w.jobs[id]
    ensures ReadsAreCurrent(w', t)
  {
    hide ReserveRow, VisibleFrom;
    if t.Recovering? {
      assert forall i :: 0 <= i < |t.ids| ==> t.ids[i] in IdsOf(t);
    }
  }

  /** Ending a transaction releases its rows; nothing changed but, possibly, those rows. */
  lemma {:induction false} EndKeepsInv(w: World, tx: nat, jobs: Jobs, history: seq<Event>)
    requires Inv(w) && JobsMatch(jobs, history)
    requires forall id :: id in w.jobs && !(id in w.locks && w.locks[id] == tx) ==> id in jobs && jobs[id] == w.jobs[id]
    ensures Inv(w.(open := w.open - {tx}, locks := Unlock(w.locks, tx), jobs := jobs, history := history))
  {
    hide JobsMatch, ReadsAreCurrent, IdsOf;
    var w' := w.(open := w.open - {tx}, locks := Unlock(w.locks, tx), jobs := jobs, history := history);
    forall other | other in w'.open ensures ReadsAreCurrent(w', w'.open[other]) {
      ReadsSurvive(w, w', w.open[other]);
    }
  }

  lemma {:induction false} CommitKeepsInv(w: World, tx: nat)
    requires Inv(w) && tx in w.open
    ensures Inv(CommitOf(w, tx, w.open[tx]))
  {
    var t := w.open[tx];
    assert ReadsAreCurrent(w, t);
    assert forall id :: id in IdsOf(t) ==> id in w.locks && w.locks[id] == tx;
    hide Inv, Unlock, AllDue, ReserveRow, RecoverAll, NextReservationAttempt;
    if t.Recovering? {
      CommitRecovery(w, tx, t);
    } else if t.written.Some? {
      CommitReservation(w, tx, t);
    } else {
      AbortKeepsInv(w, tx);
    }
  }

  lemma {:induction false} CommitReservation(w: World, tx: nat, t: Transaction)
    requires Inv(w) && t.Reserving? && t.written.Some? && ReadsAreCurrent(w, t)
    requires t.id in w.locks && w.locks[t.id] == tx
    ensures Inv(CommitOf(w, tx, t))
  {
    hide LocksMatch, JobsMatch, Unlock, ReadsAreCurrent;
    CurrentRead(w, t);
    HandOutKeepsMatch(w.jobs, w.history, t.id, t.deadline);
    var result := CommitOf(w, tx, t);
    EndKeepsInv(w, tx, result.jobs, result.history);
  }

  lemma {:induction false} CurrentRead(w: World, t: Transaction)
    requires t.Reserving? && ReadsAreCurrent(w, t)
    ensures t.id in w.jobs && w.jobs[t.id] == t.read && t.read.workType == t.askedFor && (t.read.status.Queued? || t.read.status.Retrying?)
    ensures t.written.Some? ==> t.written == ReserveRow(t.read, t.deadline)
  {
  }

  lemma {:induction false} CommitRecovery(w: World, tx: nat, t: Transaction)
    requires Inv(w) && t.Recovering? && ReadsAreCurrent(w, t)
    requires forall id :: id in t.ids ==> id in w.locks && w.locks[id] == tx
    ensures Inv(CommitOf(w, tx, t))
  {
    hide LocksMatch, JobsMatch, Unlock, AllDue, RecoverAll;
    RecoverAllKeepsMatch(w.jobs, w.history, t.ids, t.now, w.clock);
    var result := CommitOf(w, tx, t);
    EndKeepsInv(w, tx, result.jobs, result.history);
  }

  /** Opening a transaction on unlocked rows, and writing inside a transaction. */
  lemma {:induction false} OpenKeepsInv(w: World, tx: nat, t: Transaction)
    requires Inv(w) && tx !in w.open && ReadsAreCurrent(w, t)
    requires forall id :: id in IdsOf(t) ==> id !in w.locks
    ensures Inv(w.(locks := LockAll(w.locks, IdsOf(t), tx), open := w.open[tx := t]))
  {
    hide JobsMatch, ReadsAreCurrent, IdsOf;
    var w' := w.(locks := LockAll(w.locks, IdsOf(t), tx), open := w.open[tx := t]);
    forall other | other in w'.open ensures ReadsAreCurrent(w', w'.open[other]) {
      ReadsSurvive(w, w', w'.open[other]);
    }
  }

  lemma {:induction false} WriteKeepsInv(w: World, tx: nat, t: Transaction)
    requires Inv(w) && tx in w.open && IdsOf(t) == IdsOf(w.open[tx]) && ReadsAreCurrent(w, t)
    ensures Inv(w.(open := w.open[tx := t]))
  {
    hide JobsMatch, ReadsAreCurrent, IdsOf;
    var w' := w.(open := w.open[tx := t]);
    forall other | other in w'.open ensures ReadsAreCurrent(w', w'.open[other]) {
      ReadsSurvive(w, w', w'.open[other]);
    }
  }

  /** A statement outside any transaction that changes or adds one unlocked row. */
  lemma {:induction false} UnlockedWriteKeepsInv(w: World, id: string, row: Row)
    requires Inv(w) && id !in w.locks && RowMatches(row, w.history, id)
    ensures Inv(w.(jobs := w.jobs[id := row]))
  {
    hide ReadsAreCurrent, RowMatches, IdsOf, IsOrderly;
    var w' := w.(jobs := w.jobs[id := row]);
    forall other | other in w'.open ensures ReadsAreCurrent(w', w'.open[other]) {
      ReadsSurvive(w, w', w.open[other]);
    }
  }

  lemma {:induction false} WaitKeepsInv(w: World, milliseconds: nat)
    requires Inv(w)
    ensures Inv(w.(clock := w.clock + milliseconds))
  {
    hide ReadsAreCurrent, JobsMatch, IdsOf;
    var w' := w.(clock := w.clock + milliseconds);
    forall other | other in w'.open ensures ReadsAreCurrent(w', w'.open[other]) {
      ReadsSurvive(w, w', w.open[other]);
    }
  }

  lemma {:induction false} BeginKeepsInv(w: World, action: Action)
    requires Inv(w) && (action.BeginReserve? || action.BeginRecover?)
    ensures Inv(Step(w, action))
  {
    if Step(w, action) != w {
      hide Inv, LockAll, Unlock, CommitOf, ReserveRow;
      var t := if action.BeginReserve? then Reserving(action.workType, action.pick, w.jobs[action.pick], action.deadline, None)
               else Recovering(action.picks, action.now, 0);
      assert forall id :: id in IdsOf(t) ==> id !in w.locks;
      assert ReadsAreCurrent(w, t);
      OpenKeepsInv(w, action.tx, t);
      assert IdsOf(t) == if action.BeginReserve? then [action.pick] else action.picks;
    }
  }

  lemma {:induction false} WriteReservedKeepsInv(w: World, tx: nat)
    requires Inv(w)
    ensures Inv(Step(w, WriteReserved(tx)))
  {
    if tx in w.open && w.open[tx].Reserving? {
      var t := w.open[tx];
      assert ReadsAreCurrent(w, t);
      hide Inv, Unlock, LockAll, CommitOf, ReserveRow, AllDue, LocksMatch, JobsMatch;
      if ReserveRow(t.read, t.deadline).Some? {
        WriteKeepsInv(w, tx, t.(written := ReserveRow(t.read, t.deadline)));
      } else {
        AbortKeepsInv(w, tx);
      }
    }
  }

  lemma {:induction false} WriteRecoveredKeepsInv(w: World, tx: nat)
    requires Inv(w)
    ensures Inv(Step(w, WriteRecovered(tx)))
  {
    if tx in w.open && w.open[tx].Recovering? && w.open[tx].next < |w.open[tx].ids| {
      var t := w.open[tx];
      assert ReadsAreCurrent(w, t);
      hide Inv, AllDue, LocksMatch, JobsMatch;
      WriteKeepsInv(w, tx, t.(next := t.next + 1));
    }
  }

  lemma {:induction false} AbortKeepsInv(w: World, tx: nat)
    requires Inv(w)
    ensures Inv(w.(open := w.open - {tx}, locks := Unlock(w.locks, tx)))
  {
    hide JobsMatch, Unlock, ReadsAreCurrent, LocksMatch;
    EndKeepsInv(w, tx, w.jobs, w.history);
  }

  lemma {:induction false} RowStepKeepsInv(w: World, action: Action)
    requires Inv(w) && (action.Enqueue? || action.StartJob?)
    ensures Inv(Step(w, action))
  {
    hide Unlock, LockAll, CommitOf, ReserveRow, LastEvent, Handouts, IsOrderly, LocksMatch, ReadsAreCurrent;
    match action
    case Enqueue(id, workType, maxAttempts) =>
      if id !in w.jobs {
        NoLockOnAbsentRow(w, id);
        UnlockedWriteKeepsInv(w, id, Row(workType, Queued, None, maxAttempts, Some(w.clock)));
      }
    case StartJob(id) =>
      if id in w.jobs && id !in w.locks && w.jobs[id].status.Reserved? {
        assert RowMatches(w.jobs[id], w.history, id);
        UnlockedWriteKeepsInv(w, id, w.jobs[id].(status := Running));
      }
  }

  lemma {:induction false} StepKeepsInv(w: World, action: Action)
    requires Inv(w)
    ensures Inv(Step(w, action))
  {
    hide Inv, Unlock, LockAll, CommitOf, ReserveRow;
    match action
    case Wait(milliseconds) => WaitKeepsInv(w, milliseconds);
    case Enqueue(_, _, _) => RowStepKeepsInv(w, action);
    case StartJob(_) => RowStepKeepsInv(w, action);
    case BeginReserve(_, _, _, _, _) => BeginKeepsInv(w, action);
    case BeginRecover(_, _, _, _) => BeginKeepsInv(w, action);
    case WriteReserved(tx) => WriteReservedKeepsInv(w, tx);
    case WriteRecovered(tx) => WriteRecoveredKeepsInv(w, tx);
    case Commit(tx) =>
      if tx in w.open {
        CommitKeepsInv(w, tx);
      }
    case Abort(tx) => AbortKeepsInv(w, tx);
  }

  lemma {:induction false} NoLockOnAbsentRow(w: World, id: string)
    requires Inv(w) && id !in w.jobs
    ensures id !in w.locks
  {
    assert forall tx :: tx in w.open ==> forall x :: x in IdsOf(w.open[tx]) ==> x in w.jobs by {
      forall tx, x | tx in w.open && x in IdsOf(w.open[tx]) ensures x in w.jobs {
        assert ReadsAreCurrent(w, w.open[tx]);
      }
    }
  }

  /** In every interleaving of any number of transactions, rows, locks and history agree. */
  lemma {:induction false} EveryRunKeepsInv(clock: int, actions: seq<Action>)
    ensures Inv(Run(clock, actions))
  {
    if actions != [] {
      hide Inv, Step;
      EveryRunKeepsInv(clock, actions[..|actions| - 1]);
      StepKeepsInv(Run(clock, actions[..|actions| - 1]), actions[|actions| - 1]);
    }
  }

  // ---- what every interleaving promises ----

  /**
   * Between two handouts of one job there is a recovery of it, and the first recovery after a
   * handout comes no earlier than the visibility deadline which that handout stored.
   */
  lemma {:induction false} NoDoubleHandout(clock: int, actions: seq<Action>, i: nat, j: nat) returns (k: nat)
    requires i < j < |Run(clock, actions).history|
    requires Run(clock, actions).history[i].HandedOut? && Run(clock, actions).history[j].HandedOut?
    requires Run(clock, actions).history[i].id == Run(clock, actions).history[j].id
    ensures i < k < j
    ensures var history := Run(clock, actions).history;
            history[k].Recovered? && history[k].id == history[i].id && history[i].deadline <= history[k].at
  {
    EveryRunKeepsInv(clock, actions);
    hide Run, LastEvent, Handouts, LocksMatch, IsOrderly;
    k := RecoveryAfterHandout(Run(clock, actions).history, i, j);
  }

  lemma {:induction false} RecoveryAfterHandout(history: seq<Event>, i: nat, j: nat) returns (k: nat)
    requires IsOrderly(history) && i < j < |history|
    requires history[i].HandedOut? && history[j].HandedOut? && history[i].id == history[j].id
    ensures i < k < j
    ensures history[k].Recovered? && history[k].id == history[i].id && history[i].deadline <= history[k].at
  {
    hide Handouts, LastEvent;
    k := i + 1;
    LastEventAt(history, i, history[i].id);
    while history[k].id != history[i].id
      invariant i < k <= j
      invariant LastEvent(history[..k], history[i].id) == Some(history[i])
      decreases j - k
    {
      LastEventAt(history, k, history[i].id);
      k := k + 1;
    }
    assert Follows(history[..k], history[k]);
  }

  lemma {:induction false} LastEventAt(history: seq<Event>, k: nat, id: string)
    requires k < |history|
    ensures LastEvent(history[..k + 1], id) == if history[k].id == id then Some(history[k]) else LastEvent(history[..k], id)
  {
    assert history[..k + 1][..k] == history[..k];
  }

  /** A recovery revokes a handout whose deadline has passed, and no event came in between. */
  lemma {:induction false} RecoveryIsDue(clock: int, actions: seq<Action>, k: nat)
    requires k < |Run(clock, actions).history| && Run(clock, actions).history[k].Recovered?
    ensures var history := Run(clock, actions).history;
            var last := LastEvent(history[..k], history[k].id);
            last.Some? && last.value.HandedOut? && last.value.deadline <= history[k].at
  {
    EveryRunKeepsInv(clock, actions);
    hide LastEvent, Handouts;
    assert Follows(Run(clock, actions).history[..k], Run(clock, actions).history[k]);
  }

  /** A job is handed out at most `maxAttempts` times, as attempts 1, 2, 3 and so on. */
  lemma {:induction false} HandoutsWithinBudget(clock: int, actions: seq<Action>, k: nat)
    requires k < |Run(clock, actions).history| && Run(clock, actions).history[k].HandedOut?
    ensures var w := Run(clock, actions);
            var e := w.history[k];
            && e.id in w.jobs
            && e.attempt == Handouts(w.history[..k], e.id) + 1
            && e.attempt <= Handouts(w.history, e.id) <= w.jobs[e.id].maxAttempts
  {
    EveryRunKeepsInv(clock, actions);
    var w := Run(clock, actions);
    assert Follows(w.history[..k], w.history[k]);
    MoreHandouts(w.history, w.history[k].id, k);
    hide Run, LastEvent, Handouts;
    assert w.history[k].id in w.jobs ==> RowMatches(w.jobs[w.history[k].id], w.history, w.history[k].id);
  }

  lemma {:induction false} MoreHandouts(history: seq<Event>, id: string, k: nat)
    requires k < |history|
    ensures Handouts(history[..k], id) + (if history[k].HandedOut? && history[k].id == id then 1 else 0) <= Handouts(history, id)
  {
    var before := history[..|history| - 1];
    if k < |before| {
      MoreHandouts(before, id, k);
      assert before[..k] == history[..k];
    }
  }

  /** A job that is handed out and not recovered cannot be handed out: no reserve query selects its row. */
  lemma {:induction false} HandedOutIsNotReservable(clock: int, actions: seq<Action>, id: string, tx: nat, workType: string,
          now: int, deadline: int)
    requires LastEvent(Run(clock, actions).history, id).Some? && LastEvent(Run(clock, actions).history, id).value.HandedOut?
    ensures var w := Run(clock, actions);
            && id in w.jobs && w.jobs[id].status in {Reserved, Running}
            && w.jobs[id].visibleAt == Some(LastEvent(w.history, id).value.deadline)
            && Step(w, BeginReserve(tx, workType, now, deadline, id)) == w
  {
    EveryRunKeepsInv(clock, actions);
    hide Run, LastEvent, Handouts;
    var w := Run(clock, actions);
    assert id in w.jobs ==> RowMatches(w.jobs[id], w.history, id);
  }

  // ---- what the queries select ----

  /**
   * A reserve query selects a row exactly when no transaction has it locked, it is of the asked work type,
   * and it is queued, or retrying with a stored visibility, or else zero, that is not in the future.
   */
  lemma {:induction false} ReserveSelects(w: World, tx: nat, workType: string, now: int, deadline: int, id: string)
    requires tx !in w.open && now <= w.clock
    ensures var after := Step(w, BeginReserve(tx, workType, now, deadline, id));
            var selected :=
              && id in w.jobs && id !in w.locks && w.jobs[id].workType == workType
              && (|| w.jobs[id].status == Queued
                  || (w.jobs[id].status == Retrying && (w.jobs[id].visibleAt == None ==> 0 <= now)
                      && (w.jobs[id].visibleAt.Some? ==> w.jobs[id].visibleAt.value <= now)));
            if selected then
              && after.open == w.open[tx := Reserving(workType, id, w.jobs[id], deadline, None)]
              && after.locks == w.locks[id := tx] && after.jobs == w.jobs && after.history == w.history && after.clock == w.clock
            else after == w
  {
    assert LockAll(w.locks, [id], tx) == w.locks[id := tx];
    hide LockAll;
  }

  /**
   * A recovery query selects rows exactly when they are different, unlocked, of the asked work types,
   * reserved or running, and their stored deadline, or else zero, has passed.
   */
  lemma {:induction false} RecoverSelects(w: World, tx: nat, workTypes: set<string>, now: int, ids: seq<string>)
    requires tx !in w.open && now <= w.clock
    ensures var after := Step(w, BeginRecover(tx, workTypes, now, ids));
            var selected := Distinct(ids) && forall id :: id in ids ==>
              && id in w.jobs && id !in w.locks && w.jobs[id].workType in workTypes
              && w.jobs[id].status in {Reserved, Running}
              && (w.jobs[id].visibleAt == None ==> 0 <= now)
              && (w.jobs[id].visibleAt.Some? ==> w.jobs[id].visibleAt.value <= now);
            if selected then
              && after.open == w.open[tx := Recovering(ids, now, 0)]
              && (forall id :: id in after.locks <==> id in w.locks || id in ids)
              && (forall id :: id in after.locks ==> after.locks[id] == if id in ids then tx else w.locks[id])
              && after.jobs == w.jobs && after.history == w.history && after.clock == w.clock
            else after == w
  {
    NoneIsWrong(w, workTypes, now, ids);
    LockedByAll(w.locks, ids, tx);
    hide IsRecoverable, LockAll;
    RecoverableJobs(w.jobs, workTypes, now);
  }

  lemma {:induction false} NoneIsWrong(w: World, workTypes: set<string>, now: int, ids: seq<string>)
    ensures (exists i :: 0 <= i < |ids| && (ids[i] !in w.jobs || ids[i] in w.locks || !IsRecoverable(w.jobs[ids[i]], workTypes, now)))
            <==> !(forall id :: id in ids ==> id in w.jobs && id !in w.locks && IsRecoverable(w.jobs[id], workTypes, now))
  {
    hide IsRecoverable;
  }

  lemma {:induction false} LockedByAll(locks: map<string, nat>, ids: seq<string>, tx: nat)
    ensures forall id :: id in LockAll(locks, ids, tx) <==> id in locks || id in ids
    ensures forall id :: id in LockAll(locks, ids, tx) ==> LockAll(locks, ids, tx)[id] == if id in ids then tx else locks[id]
  {
  }

  // ---- what becomes of a job ----

  /** Every job was handed out to a caller that asked for its work type. */
  lemma {:induction false} HandedOutAsAsked(clock: int, actions: seq<Action>, k: nat)
    requires k < |Run(clock, actions).history| && Run(clock, actions).history[k].HandedOut?
    ensures var w := Run(clock, actions);
            w.history[k].id in w.jobs && w.jobs[w.history[k].id].workType == w.history[k].askedFor
  {
    RunKeepsTypes(clock, actions);
  }

  ghost predicate TypesMatch(jobs: Jobs, history: seq<Event>) {
    forall k :: 0 <= k < |history| && history[k].HandedOut? ==>
      history[k].id in jobs && jobs[history[k].id].workType == history[k].askedFor
  }

  lemma {:induction false} RecoverAllKeepsTypes(jobs: Jobs, history: seq<Event>, ids: seq<string>, now: int, at: int)
    requires TypesMatch(jobs, history)
    ensures TypesMatch(RecoverAll(jobs, history, ids, now, at).0, RecoverAll(jobs, history, ids, now, at).1)
  {
    if ids != [] {
      RecoverAllKeepsTypes(jobs, history, ids[..|ids| - 1], now, at);
    }
  }

  lemma {:induction false} RunKeepsTypes(clock: int, actions: seq<Action>)
    ensures TypesMatch(Run(clock, actions).jobs, Run(clock, actions).history)
  {
    if actions != [] {
      RunKeepsTypes(clock, actions[..|actions| - 1]);
      EveryRunKeepsInv(clock, actions[..|actions| - 1]);
      hide Run;
      StepKeepsTypes(Run(clock, actions[..|actions| - 1]), actions[|actions| - 1]);
    }
  }

  lemma {:induction false} StepKeepsTypes(w: World, action: Action)
    requires TypesMatch(w.jobs, w.history) && Inv(w)
    ensures TypesMatch(Step(w, action).jobs, Step(w, action).history)
  {
    hide JobsMatch, LocksMatch, Unlock, LockAll, NextReservationAttempt, IsReservable, IsRecoverable;
    match action
    case Commit(tx) =>
      if tx in w.open {
        assert ReadsAreCurrent(w, w.open[tx]);
        if w.open[tx].Recovering? {
          RecoverAllKeepsTypes(w.jobs, w.history, w.open[tx].ids, w.open[tx].now, w.clock);
        }
        hide RecoverAll;
      }
    case _ =>
  }

  /**
   * In every interleaving, reserving a queued or retrying job makes its row reserved until the deadline,
   * for the attempt after those handed out so far; it fails only for a job that allows no attempt at all.
   */
  lemma {:induction false} HandoutRow(clock: int, actions: seq<Action>, id: string, deadline: int)
    requires id in Run(clock, actions).jobs && Run(clock, actions).jobs[id].status in {Queued, Retrying}
    ensures var w := Run(clock, actions);
            var row := w.jobs[id];
            ReserveRow(row, deadline)
            == if row.maxAttempts == 0 then None
               else Some(Row(row.workType, Reserved, Some(Handouts(w.history, id) + 1), row.maxAttempts, Some(deadline)))
  {
    EveryRunKeepsInv(clock, actions);
    hide Run, LastEvent, Handouts, LocksMatch;
    var w := Run(clock, actions);
    assert RowMatches(w.jobs[id], w.history, id);
  }

  /**
   * In every interleaving, recovering a job makes it visible at once for its next attempt while attempts
   * are left, and dead when it has been handed out as often as it may be.
   */
  lemma {:induction false} RecoveredRow(clock: int, actions: seq<Action>, id: string, now: int)
    requires id in Run(clock, actions).jobs && Run(clock, actions).jobs[id].status in {Reserved, Running}
    ensures var w := Run(clock, actions);
            var row, n := w.jobs[id], Handouts(w.history, id);
            && n <= row.maxAttempts
            && RecoverRow(row, now)
               == if n < row.maxAttempts then Row(row.workType, Retrying, Some(n + 1), row.maxAttempts, Some(now))
                  else Row(row.workType, Dead, Some(n), row.maxAttempts, None)
  {
    EveryRunKeepsInv(clock, actions);
    hide Run, LastEvent, Handouts, LocksMatch;
    var w := Run(clock, actions);
    assert RowMatches(w.jobs[id], w.history, id);
  }

  // ---- transactions that nothing interrupts ----

  /**
   * Begin, write and commit with no other step in between: a queued job, or a retrying one for its next
   * attempt, that is due and within its budget is reserved and handed out, and no other row changes.
   */
  lemma {:induction false} ReserveAlone(w: World, tx: nat, workType: string, now: int, deadline: int, pick: string, attempt: nat)
    requires tx !in w.open && now <= w.clock && pick in w.jobs && pick !in w.locks
    requires forall id :: id in w.locks ==> w.locks[id] != tx
    requires var row := w.jobs[pick];
             && row.workType == workType && 1 <= attempt <= row.maxAttempts
             && (|| (row.status == Queued && row.attempt == None && attempt == 1)
                 || (row.status == Retrying && row.attempt == Some(attempt) && row.visibleAt.Some? && row.visibleAt.value <= now))
    ensures var after := Step(Step(Step(w, BeginReserve(tx, workType, now, deadline, pick)), WriteReserved(tx)), Commit(tx));
            && after.jobs == w.jobs[pick := Row(workType, Reserved, Some(attempt), w.jobs[pick].maxAttempts, Some(deadline))]
            && after.history == w.history + [HandedOut(pick, workType, attempt, deadline)]
            && after.open == w.open && after.locks == w.locks && after.clock == w.clock
  {
    var begun := Reserving(workType, pick, w.jobs[pick], deadline, None);
    var written := begun.(written := ReserveRow(w.jobs[pick], deadline));
    assert w.open[tx := begun][tx := written] - {tx} == w.open;
    assert Unlock(LockAll(w.locks, [pick], tx), tx) == w.locks;
    hide LockAll, Unlock;
  }

  function Writes(tx: nat, n: nat): seq<Action> {
    if n == 0 then [] else Writes(tx, n - 1) + [WriteRecovered(tx)]
  }

  function After(w: World, actions: seq<Action>): World {
    if actions == [] then w else Step(After(w, actions[..|actions| - 1]), actions[|actions| - 1])
  }

  lemma {:induction false} OneWrite(w: World, tx: nat, ids: seq<string>, now: int, k: nat)
    requires k < |ids|
    ensures Step(w.(open := w.open[tx := Recovering(ids, now, k)]), WriteRecovered(tx))
            == w.(open := w.open[tx := Recovering(ids, now, k + 1)])
  {
    assert w.open[tx := Recovering(ids, now, k)][tx := Recovering(ids, now, k + 1)] == w.open[tx := Recovering(ids, now, k + 1)];
  }

  lemma {:induction false} WritesAdvance(w: World, tx: nat, ids: seq<string>, now: int, n: nat)
    requires tx in w.open && w.open[tx] == Recovering(ids, now, 0) && n <= |ids|
    ensures After(w, Writes(tx, n)) == w.(open := w.open[tx := Recovering(ids, now, n)])
  {
    hide Step;
    if n == 0 {
      assert w.open[tx := Recovering(ids, now, 0)] == w.open;
    } else {
      WritesAdvance(w, tx, ids, now, n - 1);
      OneWrite(w, tx, ids, now, n - 1);
      assert Writes(tx, n)[..|Writes(tx, n)| - 1] == Writes(tx, n - 1);
    }
  }

  /**
   * A recovery with no other step in between: each selected job that has used all its attempts is dead, each
   * other one is retrying and visible at once, every one of them has its event, and no other row changes.
   */
  lemma {:induction false} RecoverAlone(w: World, tx: nat, workTypes: set<string>, now: int, ids: seq<string>)
    requires tx !in w.open && now <= w.clock && Distinct(ids)
    requires forall id :: id in w.locks ==> w.locks[id] != tx
    requires forall id :: id in ids ==>
               && id in w.jobs && id !in w.locks && w.jobs[id].workType in workTypes && w.jobs[id].status in {Reserved, Running}
               && w.jobs[id].attempt.Some? && w.jobs[id].visibleAt.Some? && w.jobs[id].visibleAt.value <= now
    ensures var after := Step(After(Step(w, BeginRecover(tx, workTypes, now, ids)), Writes(tx, |ids|)), Commit(tx));
            && after.jobs.Keys == w.jobs.Keys
            && (forall id :: id in w.jobs && id !in ids ==> after.jobs[id] == w.jobs[id])
            && (forall id :: id in ids ==>
                  var row, n := w.jobs[id], w.jobs[id].attempt.value;
                  after.jobs[id] == if n < row.maxAttempts then Row(row.workType, Retrying, Some(n + 1), row.maxAttempts, Some(now))
                                    else Row(row.workType, Dead, Some(n), row.maxAttempts, None))
            && |after.history| == |w.history| + |ids| && after.history[..|w.history|] == w.history
            && (forall i :: 0 <= i < |ids| ==> after.history[|w.history| + i] == Recovered(ids[i], w.clock))
            && after.open == w.open && after.locks == w.locks && after.clock == w.clock
  {
    hide Step, RecoverAll, After, Writes;
    RecoverSelects(w, tx, workTypes, now, ids);
    var begun := Step(w, BeginRecover(tx, workTypes, now, ids));
    WritesAdvance(begun, tx, ids, now, |ids|);
    var written := begun.(open := begun.open[tx := Recovering(ids, now, |ids|)]);
    CommitsRecovery(written, tx, ids, now);
    RecoverAllIsPointwise(w.jobs, w.history, ids, now, w.clock);
    RecoverAllTells(w.jobs, w.history, ids, now, w.clock);
    assert Unlock(written.locks, tx) == w.locks;
    assert written.open - {tx} == w.open;
  }

  lemma {:induction false} CommitsRecovery(w: World, tx: nat, ids: seq<string>, now: int)
    requires tx in w.open && w.open[tx] == Recovering(ids, now, |ids|)
    ensures var (jobs, history) := RecoverAll(w.jobs, w.history, ids, now, w.clock);
            Step(w, Commit(tx)) == w.(open := w.open - {tx}, locks := Unlock(w.locks, tx), jobs := jobs, history := history)
  {
    hide RecoverAll, Unlock;
  }

  lemma {:induction false} RecoverAllTells(jobs: Jobs, history: seq<Event>, ids: seq<string>, now: int, at: int)
    ensures var after := RecoverAll(jobs, history, ids, now, at).1;
            && |after| == |history| + |ids| && after[..|history|] == history
            && forall i :: 0 <= i < |ids| ==> after[|history| + i] == Recovered(ids[i], at)
  {
    hide RecoverRow;
    if ids != [] {
      RecoverAllTells(jobs, history, ids[..|ids| - 1], now, at);
    }
  }

  /** The loop over the candidates changes every candidate by the recover callback, and nothing else. */
  lemma {:induction false} RecoverAllIsPointwise(jobs: Jobs, history: seq<Event>, ids: seq<string>, now: int, at: int)
    requires Distinct(ids) && forall i :: 0 <= i < |ids| ==> ids[i] in jobs
    ensures RecoverAll(jobs, history, ids, now, at).0
            == map id | id in jobs :: if id in ids then RecoverRow(jobs[id], now) else jobs[id]
  {
    hide RecoverRow;
    if ids != [] {
      RecoverAllIsPointwise(jobs, history, ids[..|ids| - 1], now, at);
      assert ids[|ids| - 1] !in ids[..|ids| - 1];
      assert forall id :: id in ids <==> id in ids[..|ids| - 1] || id == ids[|ids| - 1];
    }
  }

  // ---- the repository object ----

  /** The order of ids in the database, whatever its collation. */
  type Order = (string, string) -> bool

  ghost predicate IsTotalOrder(precedes: Order) {
    && (forall a, b :: precedes(a, b) ==> !precedes(b, a))
    && (forall a, b :: a != b ==> precedes(a, b) || precedes(b, a))
    && (forall a, b, c :: precedes(a, b) && precedes(b, c) ==> precedes(a, c))
  }

  ghost predicate IsFirst(id: string, ids: set<string>, precedes: Order) {
    id in ids && forall other :: other in ids && other != id ==> precedes(id, other)
  }

  /** The first row of ORDER BY id. */
  method FirstOf(ids: set<string>, precedes: Order) returns (first: string)
    requires ids != {} && IsTotalOrder(precedes)
    ensures IsFirst(first, ids, precedes)
  {
    first :| first in ids;
    var seen := {first};
    while seen != ids
      invariant seen <= ids && IsFirst(first, seen, precedes)
      decreases |ids - seen|
    {
      var id :| id in ids - seen;
      assert ids - (seen + {id}) < ids - seen;
      seen := seen + {id};
      if precedes(id, first) {
        first := id;
      }
    }
  }

  class PostgresqlWorkerJobRepository {
    /** The committed rows; no other transaction is open. */
    var jobs: Jobs
    const precedes: Order

    constructor (precedes: Order)
      ensures jobs == map[] && this.precedes == precedes
    {
      this.precedes := precedes;
      jobs := map[];
    }

    /**
     * `Ok(None)` when no row of the work type is queued, or retrying and visible; otherwise the first such
     * row by id is reserved, or is the error when the callback throws, after a rollback.
     */
    method ReserveNextVisibleWorkerJob(workType: string, now: int, deadline: int) returns (r: Result<Option<string>, string>)
      requires IsTotalOrder(precedes)
      modifies this`jobs
      ensures var due := set id | id in old(jobs) && old(jobs)[id].workType == workType
                                  && (|| old(jobs)[id].status == Queued
                                      || (old(jobs)[id].status == Retrying && (old(jobs)[id].visibleAt == None ==> 0 <= now)
                                          && (old(jobs)[id].visibleAt.Some? ==> old(jobs)[id].visibleAt.value <= now)));
              && (r == Ok(None) <==> due == {})
              && (r != Ok(None) ==> IsFirst(if r.Ok? then r.value.value else r.error, due, precedes))
      ensures r != Ok(None) ==>
                var id := if r.Ok? then r.value.value else r.error;
                && (r.Ok? <==> ReserveRow(old(jobs)[id], deadline).Some?)
                && jobs == if r.Ok? then old(jobs)[id := ReserveRow(old(jobs)[id], deadline).value] else old(jobs)
      ensures r == Ok(None) ==> jobs == old(jobs)
    {
      hide ReserveRow, IsTotalOrder;
      var candidates := set id | id in jobs && IsReservable(jobs[id], workType, now);
      if candidates == {} {
        assert forall id :: id in jobs && IsReservable(jobs[id], workType, now) ==> id in candidates;
        return Ok(None);
      }
      var id := FirstOf(candidates, precedes);
      var reserved := ReserveRow(jobs[id], deadline);
      if reserved.None? {
        return Err(id);
      }
      jobs := jobs[id := reserved.value];
      r := Ok(Some(id));
    }

    /**
     * The rows of the asked work types that are reserved or running and past their deadline are recovered,
     * in the order of their ids, and no others; none of them is left reserved or running.
     */
    method RecoverExpiredWorkerJobLeases(workTypes: set<string>, now: int) returns (recovered: seq<string>)
      requires IsTotalOrder(precedes)
      modifies this`jobs
      ensures forall i, j :: 0 <= i < j < |recovered| ==> precedes(recovered[i], recovered[j])
      ensures Distinct(recovered)
      ensures forall id :: id in recovered <==>
                && id in old(jobs) && old(jobs)[id].workType in workTypes && old(jobs)[id].status in {Reserved, Running}
                && (old(jobs)[id].visibleAt == None ==> 0 <= now)
                && (old(jobs)[id].visibleAt.Some? ==> old(jobs)[id].visibleAt.value <= now)
      ensures jobs.Keys == old(jobs).Keys
      ensures forall id :: id in jobs ==> jobs[id] == if id in recovered then RecoverRow(old(jobs)[id], now) else old(jobs)[id]
      ensures forall id :: id in recovered ==> jobs[id].status in {Retrying, Dead}
    {
      hide RecoverRow, VisibleFrom, IsTotalOrder, IsRecoverable;
      var candidates := set id | id in jobs && IsRecoverable(jobs[id], workTypes, now);
      RecoverableJobs(jobs, workTypes, now);
      var todo := candidates;
      recovered := [];
      while todo != {}
        invariant Distinct(recovered) && todo <= candidates
        invariant forall id :: id in candidates <==> id in todo || id in recovered
        invariant forall id :: id in todo ==> id !in recovered
        invariant forall i, id :: 0 <= i < |recovered| && id in todo ==> precedes(recovered[i], id)
        invariant forall i, j :: 0 <= i < j < |recovered| ==> precedes(recovered[i], recovered[j])
        invariant jobs == map id | id in old(jobs) :: if id in recovered then RecoverRow(old(jobs)[id], now) else old(jobs)[id]
        decreases |todo|
      {
        var id := FirstOf(todo, precedes);
        jobs := jobs[id := RecoverRow(jobs[id], now)];
        recovered := recovered + [id];
        todo := todo - {id};
      }
      forall id | id in recovered ensures jobs[id].status in {Retrying, Dead} {
        RecoveredIsInactive(old(jobs)[id], now);
      }
    }
  }

  lemma {:induction false} RecoverableJobs(jobs: Jobs, workTypes: set<string>, now: int)
    ensures forall id :: id in jobs ==>
              (IsRecoverable(jobs[id], workTypes, now)
               <==> && jobs[id].workType in workTypes && jobs[id].status in {Reserved, Running}
                    && (jobs[id].visibleAt == None ==> 0 <= now)
                    && (jobs[id].visibleAt.Some? ==> jobs[id].visibleAt.value <= now))
  {
  }

  lemma {:induction false} RecoveredIsInactive(row: Row, now: int)
    ensures RecoverRow(row, now).status in {Retrying, Dead}
  {
  }
}
