/**
 * The PostgreSQL guard under concurrency: any number of processes whose calls interleave statement
 * by statement. Every statement carries a clock reading taken when its parameters were built, so it
 * may run long after that reading; an acquire that finds no owner after losing starts over.
 */
module LeaseProtocol {
  import opened Collections
  import opened OwnershipGuards

  /**
   * Where a process stands in a call; the `Sent` phases hold the reading that was sent along, and
   * `Done` the answer of the call.
   */
  datatype Phase =
    | Done(answer: Answer)
    | DeleteReady
    | DeleteSent(t: int)
    | LeaseReady
    | LeaseMade(made: int)
    | UpsertSent(made: int, t: int)
    | CheckReady
    | CheckSent(t: int)
    | SelectReady
    | SelectSent(t: int)
    | ReleaseSent

  datatype Process = Process(call: Call, ttl: Lifetime, phase: Phase)

  type Grants = map<(string, string), int>

  /** `grants` is bookkeeping of ours: the expiry an owner last wrote for a key and has not released. */
  datatype World = World(clock: int, rows: Table, processes: map<nat, Process>, grants: Grants)

  datatype Action =
    | Wait(milliseconds: nat)
    | Begin(who: nat, call: Call, ttl: Lifetime)
    | Continue(who: nat)
    | Crash(who: nat)

  function Start(clock: int): World {
    World(clock, map[], map[], map[])
  }

  function KeyOf(call: Call): string {
    SessionKey(call.session)
  }

  function FirstPhase(call: Call): Phase {
    match call
    case Acquire(_, _) => DeleteReady
    case Release(_, _) => ReleaseSent
    case CurrentOwner(_) => CheckReady
  }

  function At(w: World, who: nat, p: Process, phase: Phase): World {
    w.(processes := w.processes[who := p.(phase := phase)])
  }

  /** The next clock reading or the next statement of a process. */
  function Advance(w: World, who: nat, p: Process): World {
    match p.phase
    case Done(_) => w
    case DeleteReady => At(w, who, p, DeleteSent(w.clock))
    case DeleteSent(t) => At(w.(rows := DeleteExpired(w.rows, t)), who, p, LeaseReady)
    case LeaseReady => At(w, who, p, LeaseMade(w.clock))
    case LeaseMade(made) => At(w, who, p, UpsertSent(made, w.clock))
    case UpsertSent(made, t) =>
      if !p.call.Acquire? then w
      else
        var lease := CreateLease(p.call.session, p.call.ownerRef, p.ttl, made);
        var (acquired, rows) := Upsert(w.rows, lease, t);
        if acquired then
          At(w.(rows := rows, grants := w.grants[(lease.sessionKey, lease.ownerRef) := lease.expiresAt]), who, p, Done(Decided(Granted)))
        else At(w, who, p, CheckReady)
    case CheckReady => At(w, who, p, CheckSent(w.clock))
    case CheckSent(t) => At(w.(rows := DeleteExpired(w.rows, t)), who, p, SelectReady)
    case SelectReady => At(w, who, p, SelectSent(w.clock))
    case SelectSent(t) =>
      var owner := SelectOwner(w.rows, KeyOf(p.call), t);
      At(w, who, p, if !p.call.Acquire? then Done(Owner(owner))
                    else if owner.None? then DeleteReady
                    else Done(Decided(Refused(owner.value))))
    case ReleaseSent =>
      if !p.call.Release? then w
      else
        var key := KeyOf(p.call);
        var (released, rows) := DeleteOwned(w.rows, key, p.call.ownerRef);
        At(w.(rows := rows, grants := w.grants - {(key, p.call.ownerRef)}), who, p, Done(Released(released)))
  }

  function Step(w: World, action: Action): World {
    match action
    case Wait(milliseconds) => w.(clock := w.clock + milliseconds)
    case Begin(who, call, ttl) =>
      if who in w.processes && !w.processes[who].phase.Done? then w
      else w.(processes := w.processes[who := Process(call, ttl, FirstPhase(call))])
    case Continue(who) => if who in w.processes then Advance(w, who, w.processes[who]) else w
    case Crash(who) => w.(processes := w.processes - {who})
  }

  function Run(clock: int, actions: seq<Action>): World {
    if actions == [] then Start(clock)
    else Step(Run(clock, actions[..|actions| - 1]), actions[|actions| - 1])
  }

  // ---- the invariant of every interleaving ----

  predicate ReadingsArePast(phase: Phase, clock: int) {
    match phase
    case DeleteSent(t) => t <= clock
    case LeaseMade(made) => made <= clock
    case UpsertSent(made, t) => made <= clock && t <= clock
    case CheckSent(t) => t <= clock
    case SelectSent(t) => t <= clock
    case _ => true
  }

  ghost predicate RowsMatchGrants(rows: Table, grants: Grants, clock: int) {
    // Every row carries the expiry that its owner wrote last.
    && (forall key :: key in rows ==>
          var grant := (key, rows[key].ownerRef);
          rows[key].sessionKey == key && grant in grants && grants[grant] == rows[key].expiresAt)
    // Every grant that has not run out is in its row.
    && (forall grant :: grant in grants && grants[grant] > clock ==>
          grant.0 in rows && rows[grant.0].ownerRef == grant.1)
  }

  ghost predicate Inv(w: World) {
    && (forall who :: who in w.processes ==> ReadingsArePast(w.processes[who].phase, w.clock))
    && RowsMatchGrants(w.rows, w.grants, w.clock)
  }

  lemma {:induction false} DeleteKeepsMatch(rows: Table, grants: Grants, clock: int, t: int)
    requires RowsMatchGrants(rows, grants, clock) && t <= clock
    ensures RowsMatchGrants(DeleteExpired(rows, t), grants, clock)
  {
  }

  lemma {:induction false} UpsertKeepsMatch(rows: Table, grants: Grants, clock: int, lease: Lease, t: int)
    requires RowsMatchGrants(rows, grants, clock) && t <= clock
    requires Upsert(rows, lease, t).0
    ensures RowsMatchGrants(Upsert(rows, lease, t).1, grants[(lease.sessionKey, lease.ownerRef) := lease.expiresAt], clock)
  {
  }

  lemma {:induction false} ReleaseKeepsMatch(rows: Table, grants: Grants, clock: int, key: string, ownerRef: string)
    requires RowsMatchGrants(rows, grants, clock)
    ensures RowsMatchGrants(DeleteOwned(rows, key, ownerRef).1, grants - {(key, ownerRef)}, clock)
  {
  }

  lemma {:induction false} AdvanceKeepsInv(w: World, who: nat)
    requires Inv(w) && who in w.processes
    ensures Inv(Advance(w, who, w.processes[who]))
  {
    hide SessionKey, RowsMatchGrants, DeleteExpired, Upsert, DeleteOwned, SelectOwner;
    var p := w.processes[who];
    match p.phase
    case DeleteSent(t) => DeleteKeepsMatch(w.rows, w.grants, w.clock, t);
    case CheckSent(t) => DeleteKeepsMatch(w.rows, w.grants, w.clock, t);
    case UpsertSent(made, t) =>
      if p.call.Acquire? {
        var lease := CreateLease(p.call.session, p.call.ownerRef, p.ttl, made);
        if Upsert(w.rows, lease, t).0 {
          UpsertKeepsMatch(w.rows, w.grants, w.clock, lease, t);
        }
      }
    case ReleaseSent =>
      if p.call.Release? {
        ReleaseKeepsMatch(w.rows, w.grants, w.clock, KeyOf(p.call), p.call.ownerRef);
      }
    case _ =>
  }

  lemma {:induction false} EveryRunKeepsInv(clock: int, actions: seq<Action>)
    ensures Inv(Run(clock, actions))
  {
    if actions != [] {
      var before, action := actions[..|actions| - 1], actions[|actions| - 1];
      EveryRunKeepsInv(clock, before);
      hide Advance, SessionKey;
      match action
      case Continue(who) =>
        if who in Run(clock, before).processes {
          AdvanceKeepsInv(Run(clock, before), who);
        }
      case Wait(_) =>
      case Begin(_, _, _) =>
      case Crash(_) =>
    }
  }

  // ---- mutual exclusion ----

  /** `ownerRef` was granted the key, has not released it since, and the grant has not run out. */
  predicate Holds(w: World, key: string, ownerRef: string) {
    (key, ownerRef) in w.grants && w.grants[(key, ownerRef)] > w.clock
  }

  /** In no interleaving do two owners hold one key. */
  lemma {:induction false} AtMostOneHolder(clock: int, actions: seq<Action>, key: string, a: string,
          b: string)
    requires Holds(Run(clock, actions), key, a) && Holds(Run(clock, actions), key, b)
    ensures a == b
  {
    EveryRunKeepsInv(clock, actions);
  }

  // ---- how an owner can lose a key ----

  predicate IsOwner(w: World, key: string, ownerRef: string) {
    key in w.rows && w.rows[key].ownerRef == ownerRef
  }

  /** The action is the DELETE statement of a release call for this key by this owner. */
  predicate Releases(w: World, action: Action, key: string, ownerRef: string) {
    && action.Continue? && action.who in w.processes
    && w.processes[action.who].phase.ReleaseSent?
    && w.processes[action.who].call.Release?
    && KeyOf(w.processes[action.who].call) == key && w.processes[action.who].call.ownerRef == ownerRef
  }

  /** The expiry that this owner's latest upsert of the key set has passed. */
  predicate RanOut(w: World, key: string, ownerRef: string) {
    (key, ownerRef) in w.grants && w.grants[(key, ownerRef)] <= w.clock
  }

  lemma {:induction false} OneStepLoss(w: World, action: Action, key: string, ownerRef: string)
    requires Inv(w) && IsOwner(w, key, ownerRef)
    requires !IsOwner(Step(w, action), key, ownerRef)
    ensures Releases(w, action, key, ownerRef) || RanOut(w, key, ownerRef)
  {
    hide SessionKey;
  }

  /**
   * Between any two moments of any interleaving, an owner that had the key and has it no longer
   * either released it in between, or the expiry set by its own latest upsert had passed.
   */
  lemma {:induction false} OwnerChangesOnlyWhenEntitled(clock: int, actions: seq<Action>, more: seq<Action>,
                                     key: string, ownerRef: string) returns (at: nat)
    requires IsOwner(Run(clock, actions), key, ownerRef)
    requires !IsOwner(Run(clock, actions + more), key, ownerRef)
    ensures at < |more|
    ensures var w := Run(clock, actions + more[..at]);
            && IsOwner(w, key, ownerRef)
            && (Releases(w, more[at], key, ownerRef) || RanOut(w, key, ownerRef))
  {
    at := 0;
    assert actions + [] == actions;
    if more != [] {
      hide Step, IsOwner, Releases, RanOut;
      var before := more[..|more| - 1];
      assert (actions + more)[..|actions + more| - 1] == actions + before;
      if IsOwner(Run(clock, actions + before), key, ownerRef) {
        at := |more| - 1;
        EveryRunKeepsInv(clock, actions + before);
        OneStepLoss(Run(clock, actions + before), more[at], key, ownerRef);
      } else {
        at := OwnerChangesOnlyWhenEntitled(clock, actions, before, key, ownerRef);
        assert before[..at] == more[..at];
      }
    }
  }

  // ---- what the answers mean ----

  /** The statement of process `who` that comes at step `k` of a run, and the world it finds. */
  ghost predicate IsStatement(clock: int, actions: seq<Action>, k: nat, who: nat) {
    && k < |actions| && actions[k] == Continue(who)
    && who in Run(clock, actions[..k]).processes
  }

  /** Each way in which a process comes to stand at the end of a call. */
  lemma {:induction false} HowItEnded(w: World, action: Action, who: nat)
    requires who in Step(w, action).processes && Step(w, action).processes[who].phase.Done?
    ensures (who in w.processes && w.processes[who] == Step(w, action).processes[who])
            || (action == Continue(who) && who in w.processes
                && w.processes[who].call == Step(w, action).processes[who].call
                && w.processes[who].ttl == Step(w, action).processes[who].ttl
                && !w.processes[who].phase.Done?)
  {
    hide SessionKey, DeleteExpired, Upsert, DeleteOwned, SelectOwner;
  }

  /** A call that has ended ended by one statement of its own, and nothing has happened to it since. */
  lemma {:induction false} EndOfCall(clock: int, actions: seq<Action>, who: nat) returns (k: nat)
    requires who in Run(clock, actions).processes && Run(clock, actions).processes[who].phase.Done?
    ensures IsStatement(clock, actions, k, who)
    ensures var p, q := Run(clock, actions[..k]).processes[who], Run(clock, actions).processes[who];
            && !p.phase.Done? && p.call == q.call && p.ttl == q.ttl
            && who in Run(clock, actions[..k + 1]).processes && Run(clock, actions[..k + 1]).processes[who] == q
  {
    hide Step;
    assert actions != [];
    var before, last := actions[..|actions| - 1], actions[|actions| - 1];
    HowItEnded(Run(clock, before), last, who);
    if who in Run(clock, before).processes && Run(clock, before).processes[who] == Run(clock, actions).processes[who] {
      k := EndOfCall(clock, before, who);
      assert actions[..k] == before[..k] && actions[..k + 1] == before[..k + 1];
    } else {
      k := |actions| - 1;
      assert actions[..k] == before && actions[..k + 1] == actions;
    }
  }

  /**
   * In every interleaving, an acquire that answered granted wrote the row with its upsert, at a
   * moment when nobody else had it live by the reading that was sent along; from that moment its
   * owner is the key's owner, and the key's holder exactly if the upsert was not slower than the lease.
   */
  lemma {:induction false} GrantedMeansOwner(clock: int, actions: seq<Action>, who: nat) returns (k: nat)
    requires who in Run(clock, actions).processes
    requires Run(clock, actions).processes[who].phase == Done(Decided(Granted))
    ensures IsStatement(clock, actions, k, who)
    ensures var w, w', q := Run(clock, actions[..k]), Run(clock, actions[..k + 1]), Run(clock, actions).processes[who];
            && q.call.Acquire? && w.processes[who].phase.UpsertSent?
            && var phase, key := w.processes[who].phase, KeyOf(q.call);
               && phase.made <= w.clock && phase.t <= w.clock
               && (key in w.rows && w.rows[key].ownerRef != q.call.ownerRef ==> !IsLive(w.rows[key], phase.t))
               && IsOwner(w', key, q.call.ownerRef) && w'.rows[key].expiresAt == phase.made + q.ttl
               && (Holds(w', key, q.call.ownerRef) <==> phase.made + q.ttl > w'.clock)
  {
    k := EndOfCall(clock, actions, who);
    EveryRunKeepsInv(clock, actions[..k]);
    assert actions[..k + 1][..k] == actions[..k];
    assert Run(clock, actions[..k + 1]) == Step(Run(clock, actions[..k]), actions[k]);
    GrantedByUpsert(Run(clock, actions[..k]), who);
  }

  lemma {:induction false} GrantedByUpsert(w: World, who: nat)
    requires Inv(w) && who in w.processes && !w.processes[who].phase.Done?
    requires Step(w, Continue(who)).processes[who].phase == Done(Decided(Granted))
    ensures var p, w' := w.processes[who], Step(w, Continue(who));
            && p.call.Acquire? && p.phase.UpsertSent? && p.phase.made <= w.clock && p.phase.t <= w.clock
            && var key := KeyOf(p.call);
               && (key in w.rows && w.rows[key].ownerRef != p.call.ownerRef ==> !IsLive(w.rows[key], p.phase.t))
               && IsOwner(w', key, p.call.ownerRef) && w'.rows[key].expiresAt == p.phase.made + p.ttl
               && (Holds(w', key, p.call.ownerRef) <==> p.phase.made + p.ttl > w'.clock)
  {
    hide SessionKey;
  }

  /**
   * In every interleaving, an acquire that answered refused names the owner that the key had at its
   * SELECT, with a lease that was live at a reading of this call, and so was granted to that owner.
   */
  lemma {:induction false} RefusedMeansOwned(clock: int, actions: seq<Action>, who: nat, ownerRef: string) returns (k: nat)
    requires who in Run(clock, actions).processes
    requires Run(clock, actions).processes[who].phase == Done(Decided(Refused(ownerRef)))
    ensures IsStatement(clock, actions, k, who)
    ensures var w, call := Run(clock, actions[..k]), Run(clock, actions).processes[who].call;
            && w.processes[who].phase.SelectSent? && w.processes[who].phase.t <= w.clock
            && IsOwner(w, KeyOf(call), ownerRef) && IsLive(w.rows[KeyOf(call)], w.processes[who].phase.t)
            && (KeyOf(call), ownerRef) in w.grants && w.grants[(KeyOf(call), ownerRef)] > w.processes[who].phase.t
  {
    k := EndOfCall(clock, actions, who);
    EveryRunKeepsInv(clock, actions[..k]);
    assert actions[..k + 1][..k] == actions[..k];
    assert Run(clock, actions[..k + 1]) == Step(Run(clock, actions[..k]), actions[k]);
    RefusedBySelect(Run(clock, actions[..k]), who, ownerRef);
  }

  lemma {:induction false} RefusedBySelect(w: World, who: nat, ownerRef: string)
    requires Inv(w) && who in w.processes && !w.processes[who].phase.Done?
    requires Step(w, Continue(who)).processes[who].phase == Done(Decided(Refused(ownerRef)))
    ensures var p := w.processes[who];
            && p.phase.SelectSent? && p.phase.t <= w.clock
            && IsOwner(w, KeyOf(p.call), ownerRef) && IsLive(w.rows[KeyOf(p.call)], p.phase.t)
            && (KeyOf(p.call), ownerRef) in w.grants && w.grants[(KeyOf(p.call), ownerRef)] > p.phase.t
  {
    hide SessionKey;
  }

  // ---- calls that nothing interrupts ----

  function Continued(w: World, who: nat, n: nat): World {
    if n == 0 then w else Step(Continued(w, who, n - 1), Continue(who))
  }

  lemma {:induction false} FirstContinues(w: World, who: nat)
    ensures Continued(w, who, 1) == Step(w, Continue(who))
    ensures Continued(w, who, 2) == Step(Continued(w, who, 1), Continue(who))
    ensures Continued(w, who, 3) == Step(Continued(w, who, 2), Continue(who))
    ensures Continued(w, who, 4) == Step(Continued(w, who, 3), Continue(who))
    ensures Continued(w, who, 5) == Step(Continued(w, who, 4), Continue(who))
  {
    hide Step;
    assert Continued(w, who, 0) == w;
  }

  lemma {:induction false} MoreContinues(w: World, who: nat)
    ensures Continued(w, who, 6) == Step(Continued(w, who, 5), Continue(who))
    ensures Continued(w, who, 7) == Step(Continued(w, who, 6), Continue(who))
    ensures Continued(w, who, 8) == Step(Continued(w, who, 7), Continue(who))
    ensures Continued(w, who, 9) == Step(Continued(w, who, 8), Continue(who))
  {
    hide Step;
  }

  /** Another owner has the row, and its expiry is still to come. */
  predicate IsTaken(rows: Table, key: string, ownerRef: string, now: int) {
    key in rows && rows[key].ownerRef != ownerRef && now < rows[key].expiresAt
  }

  /** The rows whose expiry is still to come. */
  ghost predicate AreLiveRows(live: Table, rows: Table, now: int) {
    && (forall key :: key in live <==> key in rows && now < rows[key].expiresAt)
    && (forall key :: key in live ==> live[key] == rows[key])
  }

  lemma {:induction false} LiveRows(rows: Table, now: int)
    ensures AreLiveRows(DeleteExpired(rows, now), rows, now)
    ensures DeleteExpired(DeleteExpired(rows, now), now) == DeleteExpired(rows, now)
  {
  }

  /**
   * An acquire with no step of another process in between is granted in five steps exactly unless another
   * owner has the key unexpired; the expired rows are gone and the key's row is this owner's until the lease
   * time is over. Otherwise it is refused in nine steps, naming that owner, and only expired rows are gone.
   */
  lemma {:induction false} AcquireAlone(w: World, who: nat, session: SessionRef, ownerRef: string, ttl: Lifetime)
    requires who in w.processes ==> w.processes[who].phase.Done?
    ensures var begun := Step(w, Begin(who, Acquire(session, ownerRef), ttl));
            var key := SessionKey(session);
            exists live :: AreLiveRows(live, w.rows, w.clock)
              && if !IsTaken(w.rows, key, ownerRef, w.clock) then
                   var after := Continued(begun, who, 5);
                   && who in after.processes && after.processes[who].phase == Done(Decided(Granted)) && after.clock == w.clock
                   && after.rows == live[key := Lease(key, session, ownerRef, w.clock, w.clock + ttl)]
                 else
                   var after := Continued(begun, who, 9);
                   && who in after.processes && after.processes[who].phase == Done(Decided(Refused(w.rows[key].ownerRef)))
                   && after.rows == live && after.clock == w.clock
  {
    var live := DeleteExpired(w.rows, w.clock);
    LiveRows(w.rows, w.clock);
    var begun := Step(w, Begin(who, Acquire(session, ownerRef), ttl));
    AcquireReachesUpsert(w, who, session, ownerRef, ttl);
    hide Continued, Step, DeleteExpired, SessionKey;
    UpsertAlone(Continued(begun, who, 4), who, session, ownerRef, ttl);
    FirstContinues(begun, who);
    if IsTaken(w.rows, SessionKey(session), ownerRef, w.clock) {
      RefusalAlone(Continued(begun, who, 5), who, session, ownerRef, ttl);
      MoreContinues(begun, who);
    }
  }

  lemma {:induction false} AcquireReachesUpsert(w: World, who: nat, session: SessionRef, ownerRef: string, ttl: Lifetime)
    requires who in w.processes ==> w.processes[who].phase.Done?
    ensures var after := Continued(Step(w, Begin(who, Acquire(session, ownerRef), ttl)), who, 4);
            && who in after.processes && after.processes[who] == Process(Acquire(session, ownerRef), ttl, UpsertSent(w.clock, w.clock))
            && after.rows == DeleteExpired(w.rows, w.clock) && after.clock == w.clock
  {
    hide SessionKey, DeleteExpired, Continued;
    FirstContinues(Step(w, Begin(who, Acquire(session, ownerRef), ttl)), who);
  }

  lemma {:induction false} UpsertAlone(w: World, who: nat, session: SessionRef, ownerRef: string, ttl: Lifetime)
    requires who in w.processes && w.processes[who] == Process(Acquire(session, ownerRef), ttl, UpsertSent(w.clock, w.clock))
    ensures var after, key := Step(w, Continue(who)), SessionKey(session);
            && who in after.processes && after.clock == w.clock
            && after.processes[who].call == Acquire(session, ownerRef)
            && if !IsTaken(w.rows, key, ownerRef, w.clock) then
                 && after.processes[who].phase == Done(Decided(Granted))
                 && after.rows == w.rows[key := Lease(key, session, ownerRef, w.clock, w.clock + ttl)]
               else after.processes[who].phase == CheckReady && after.rows == w.rows
  {
    hide SessionKey;
  }

  lemma {:induction false} RefusalAlone(w: World, who: nat, session: SessionRef, ownerRef: string, ttl: Lifetime)
    requires who in w.processes && w.processes[who].call == Acquire(session, ownerRef) && w.processes[who].phase == CheckReady
    requires IsTaken(w.rows, SessionKey(session), ownerRef, w.clock) && DeleteExpired(w.rows, w.clock) == w.rows
    ensures var after := Step(Step(Step(Step(w, Continue(who)), Continue(who)), Continue(who)), Continue(who));
            && who in after.processes && after.rows == w.rows && after.clock == w.clock
            && after.processes[who].phase == Done(Decided(Refused(w.rows[SessionKey(session)].ownerRef)))
  {
    hide SessionKey, DeleteExpired;
  }

  /** A release with no step of another process in between takes the key's row away exactly if it is this owner's, and says so. */
  lemma {:induction false} ReleaseAlone(w: World, who: nat, session: SessionRef, ownerRef: string, ttl: Lifetime)
    requires who in w.processes ==> w.processes[who].phase.Done?
    ensures var after, key := Step(Step(w, Begin(who, Release(session, ownerRef), ttl)), Continue(who)), SessionKey(session);
            var owned := key in w.rows && w.rows[key].ownerRef == ownerRef;
            && who in after.processes && after.processes[who].phase == Done(Released(owned))
            && after.rows == (if owned then w.rows - {key} else w.rows) && after.clock == w.clock
  {
    hide SessionKey;
  }

  /** A lookup with no step of another process in between answers the owner of the key's row unless it has expired. */
  lemma {:induction false} LookupAlone(w: World, who: nat, session: SessionRef, ttl: Lifetime)
    requires who in w.processes ==> w.processes[who].phase.Done?
    ensures var after, key := Continued(Step(w, Begin(who, CurrentOwner(session), ttl)), who, 4), SessionKey(session);
            && who in after.processes && AreLiveRows(after.rows, w.rows, w.clock) && after.clock == w.clock
            && after.processes[who].phase
               == Done(Owner(if key in w.rows && w.clock < w.rows[key].expiresAt then Some(w.rows[key].ownerRef) else None))
  {
    var begun := Step(w, Begin(who, CurrentOwner(session), ttl));
    CheckAlone(begun, who);
    LiveRows(w.rows, w.clock);
    hide SessionKey, DeleteExpired, Continued;
    FirstContinues(begun, who);
    SelectAlone(Continued(begun, who, 2), who, session);
  }

  lemma {:induction false} CheckAlone(w: World, who: nat)
    requires who in w.processes && w.processes[who].phase == CheckReady
    ensures var after := Step(Step(w, Continue(who)), Continue(who));
            && who in after.processes && after.processes[who] == w.processes[who].(phase := SelectReady)
            && after.rows == DeleteExpired(w.rows, w.clock) && after.clock == w.clock
  {
    hide SessionKey, DeleteExpired;
  }

  lemma {:induction false} SelectAlone(w: World, who: nat, session: SessionRef)
    requires who in w.processes && w.processes[who].phase == SelectReady && w.processes[who].call == CurrentOwner(session)
    ensures var after, key := Step(Step(w, Continue(who)), Continue(who)), SessionKey(session);
            && who in after.processes && after.rows == w.rows && after.clock == w.clock
            && after.processes[who].phase
               == Done(Owner(if key in w.rows && w.clock < w.rows[key].expiresAt then Some(w.rows[key].ownerRef) else None))
  {
    hide SessionKey;
  }
}
