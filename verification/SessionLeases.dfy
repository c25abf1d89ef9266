/**
 * Sessions and their leases over whole ticks and whole runs: which steps give a supervisor's lease of a
 * key and which take it away, and when a session is active without one.
 */
module SessionLeases {
  import opened Collections
  import opened Text
  import opened OwnershipGuards
  import opened SessionKeys
  import opened Supervisor

  // ---- who owns a key after an operation, for every key ----

  function OwnerOf(leases: seq<Lease>, ref: Ref, now: int): Option<string> {
    JsonCurrentOwner(leases, GuardSession(ref), now)
  }

  lemma {:induction false} OwnerAfterAcquire(shared: Shared, ref: Ref, owner: string, ttl: Lifetime, now: int, other: Ref)
    requires UniqueKeys(shared.leases)
    ensures var (granted, after) := AcquireFor(shared, ref, owner, ttl, now);
            && UniqueKeys(after.leases)
            && OwnerOf(after.leases, other, now)
               == if granted && GuardKey(other) == GuardKey(ref) then Some(owner) else OwnerOf(shared.leases, other, now)
  {
    AcquireEffect(shared, ref, owner, ttl, now);
    var (granted, after) := AcquireFor(shared, ref, owner, ttl, now);
    hide JsonCurrentOwner, SessionKey, AcquireFor, UniqueKeys;
    OwnerOfKey(shared.leases, other, now);
    OwnerOfKey(after.leases, other, now);
    assert granted ==> CreateLease(GuardSession(ref), owner, ttl, now) in after.leases;
  }

  lemma {:induction false} OwnerAfterRelease(shared: Shared, ref: Ref, owner: string, now: int, other: Ref)
    requires UniqueKeys(shared.leases)
    ensures var after := ReleaseFor(shared, ref, owner, now);
            var before := OwnerOf(shared.leases, other, now);
            && UniqueKeys(after.leases)
            && OwnerOf(after.leases, other, now) == if GuardKey(other) == GuardKey(ref) && before == Some(owner) then None else before
  {
    ReleaseEffect(shared, ref, owner, now);
    var after := ReleaseFor(shared, ref, owner, now);
    hide JsonCurrentOwner, SessionKey, ReleaseFor, UniqueKeys;
    OwnerOfKey(shared.leases, other, now);
    OwnerOfKey(after.leases, other, now);
  }

  lemma {:induction false} OwnerAfterDrain(s: Session, shared: Shared, ds: seq<Delivery>, owner: string, now: int, other: Ref)
    requires UniqueKeys(shared.leases)
    ensures var after := DrainAll(s, shared, ds, owner, now).shared;
            var before := OwnerOf(shared.leases, other, now);
            && UniqueKeys(after.leases)
            && OwnerOf(after.leases, other, now)
               == if GuardKey(other) == GuardKey(s.ref) && before == Some(owner) && AnySurrenders(ds) then None else before
  {
    hide OwnerOf, ReleaseFor, Surrenders, Deliver, UniqueKeys, SessionKey;
    if ds != [] {
      var before, d := ds[..|ds| - 1], ds[|ds| - 1];
      OwnerAfterDrain(s, shared, before, owner, now, other);
      OwnerAfterRelease(DrainAll(s, shared, before, owner, now).shared, s.ref, owner, now, other);
      AnySurrendersStep(ds);
    }
  }

  lemma {:induction false} AnySurrendersStep(ds: seq<Delivery>)
    requires ds != []
    ensures AnySurrenders(ds) <==> AnySurrenders(ds[..|ds| - 1]) || Surrenders(ds[|ds| - 1])
  {
    hide Surrenders;
    var before := ds[..|ds| - 1];
    if i :| 0 <= i < |before| && Surrenders(before[i]) {
      assert Surrenders(ds[i]);
    }
    if i :| 0 <= i < |ds| && Surrenders(ds[i]) {
      assert i < |before| ==> before[i] == ds[i];
    }
  }

  /** The state that a batch of deliveries leads to, whatever the leases are. */
  function StateAfter(state: SessionState, ds: seq<Delivery>): SessionState {
    if ds == [] then state
    else
      var before, d := StateAfter(state, ds[..|ds| - 1]), ds[|ds| - 1];
      if d.eventId.None? then DISCONNECTED
      else
        var next := StateFromSignal(d.signal, before);
        if next.Some? then next.value else before
  }

  lemma {:induction false} DrainReachesState(s: Session, shared: Shared, ds: seq<Delivery>, owner: string, now: int)
    ensures DrainAll(s, shared, ds, owner, now).session.state == StateAfter(s.state, ds)
  {
    if ds != [] {
      DrainReachesState(s, shared, ds[..|ds| - 1], owner, now);
      hide StateFromSignal, FailureFromSignal, ReleaseFor, Surrenders;
    }
  }

  /** The states in which a supervisor has to hold the lease of a session. */
  const ACTIVE: set<SessionState> := {STARTING, QR_REQUIRED, PAIRING, CONNECTED, RECONNECTING}

  predicate IsOthers(current: Option<string>, owner: string) {
    current.Some? && current.value != owner
  }

  /** The owner of a session's key after the session's own turn, from the owner that the turn finds. */
  ghost function OwnerAfterTurn(state: SessionState, current: Option<string>, owner: string, ds: seq<Delivery>): Option<string> {
    if state == DESTROYED || IsOthers(current, owner) then current
    else if AnySurrenders(ds) then None
    else if state in ACTIVE then Some(owner)
    else current
  }

  /** A turn decides about its own guard key, whatever references share it, and about no other. */
  lemma {:induction false} TurnDecidesOwner(s: Session, shared: Shared, inbox: Inbox, owner: string, ttl: Lifetime, now: int, other: Ref)
    requires UniqueKeys(shared.leases)
    ensures var (out, rest) := TickSession(s, shared, inbox, owner, ttl, now);
            var before := OwnerOf(shared.leases, other, now);
            var drained := s.state != DESTROYED && !(s.state in ACTIVE && IsOthers(OwnerOf(shared.leases, s.ref, now), owner));
            && UniqueKeys(out.shared.leases)
            && OwnerOf(out.shared.leases, other, now)
               == (if GuardKey(other) != GuardKey(s.ref) then before else OwnerAfterTurn(s.state, before, owner, WaitingFor(inbox, s.ref)))
            && rest == (if drained then inbox - {s.ref.sessionId} else inbox)
            && out.session.state == (if drained then StateAfter(s.state, WaitingFor(inbox, s.ref))
                                     else if s.state == DESTROYED then DESTROYED else DISCONNECTED)
  {
    hide AcquireFor, DrainAll, StateAfter, AnySurrenders, OwnerOf, UniqueKeys, SessionKey;
    var ds := WaitingFor(inbox, s.ref);
    var (granted, renewed) := AcquireFor(shared, s.ref, owner, ttl, now);
    SameKeySameOwner(shared.leases, s.ref, other, now);
    GrantedUnlessOthers(shared, s.ref, owner, ttl, now);
    OwnerAfterAcquire(shared, s.ref, owner, ttl, now, other);
    if s.state in ACTIVE {
      OwnerAfterDrain(s, renewed, ds, owner, now, other);
      DrainReachesState(s, renewed, ds, owner, now);
    } else {
      OwnerAfterDrain(s, shared, ds, owner, now, other);
      DrainReachesState(s, shared, ds, owner, now);
    }
  }

  lemma {:induction false} GrantedUnlessOthers(shared: Shared, ref: Ref, owner: string, ttl: Lifetime, now: int)
    requires UniqueKeys(shared.leases)
    ensures AcquireFor(shared, ref, owner, ttl, now).0 <==> !IsOthers(OwnerOf(shared.leases, ref, now), owner)
  {
    hide AcquireFor, JsonCurrentOwner, UniqueKeys;
    GrantedIff(shared, ref, owner, ttl, now);
  }

  lemma {:induction false} SameKeySameOwner(leases: seq<Lease>, a: Ref, b: Ref, now: int)
    ensures GuardKey(a) == GuardKey(b) ==> OwnerOf(leases, a, now) == OwnerOf(leases, b, now)
  {
  }

  // ---- a whole tick ----

  /** A tick of the supervisor `owner`, and what it finds. */
  datatype TickCall = TickCall(sessions: seq<Session>, shared: Shared, inbox: Inbox, owner: string, ttl: Lifetime, now: int) {
    function After(n: nat): Ticked
      requires n <= |sessions|
    {
      TickFirst(sessions, n, shared, inbox, owner, ttl, now)
    }

    function Found(ref: Ref): Option<string> {
      OwnerOf(shared.leases, ref, now)
    }

    /** The tick gives a session its waiting signals unless it is DESTROYED or its renewal is refused. */
    predicate IsDrained(j: nat)
      requires j < |sessions|
    {
      sessions[j].state != DESTROYED && !(sessions[j].state in ACTIVE && IsOthers(Found(sessions[j].ref), owner))
    }

    ghost predicate TakenBefore(id: string, n: nat)
      requires n <= |sessions|
    {
      exists k :: 0 <= k < n && sessions[k].ref.sessionId == id && IsDrained(k)
    }

    /** The signals of a session; an earlier session with the same session id takes them away. */
    ghost function Batch(j: nat): seq<Delivery>
      requires j < |sessions|
    {
      if TakenBefore(sessions[j].ref.sessionId, j) then [] else WaitingFor(inbox, sessions[j].ref)
    }

    ghost predicate GivesUp(j: nat, ref: Ref)
      requires j < |sessions|
    {
      GuardKey(sessions[j].ref) == GuardKey(ref) && IsDrained(j) && AnySurrenders(Batch(j))
    }

    predicate Renews(j: nat, ref: Ref)
      requires j < |sessions|
    {
      GuardKey(sessions[j].ref) == GuardKey(ref) && sessions[j].state in ACTIVE
    }

    /**
     * No other owner had the key, and the supervisor had it before the tick or renewed it in some
     * turn, and no turn since then surrendered it.
     */
    ghost predicate Holds(n: nat, ref: Ref)
      requires n <= |sessions|
    {
      && !IsOthers(Found(ref), owner)
      && (|| (Found(ref) == Some(owner) && forall k :: 0 <= k < n ==> !GivesUp(k, ref))
          || exists j :: 0 <= j < n && Renews(j, ref) && forall k :: j <= k < n ==> !GivesUp(k, ref))
    }

    ghost function StateAtEnd(i: nat): SessionState
      requires i < |sessions|
    {
      if IsDrained(i) then StateAfter(sessions[i].state, Batch(i))
      else if sessions[i].state == DESTROYED then DESTROYED
      else DISCONNECTED
    }
  }

  /** Keys of other owners stay theirs throughout a tick; the rest are free or this supervisor's. */
  lemma {:induction false} OthersKeepTheirKeys(t: TickCall, n: nat, ref: Ref)
    requires n <= |t.sessions| && UniqueKeys(t.shared.leases)
    ensures var now := OwnerOf(t.After(n).shared.leases, ref, t.now);
            && UniqueKeys(t.After(n).shared.leases)
            && if IsOthers(t.Found(ref), t.owner) then now == t.Found(ref) else !IsOthers(now, t.owner)
  {
    hide OwnerOf, UniqueKeys, TickSession, AnySurrenders, SessionKey;
    if n > 0 {
      OthersKeepTheirKeys(t, n - 1, ref);
      var before := t.After(n - 1);
      TurnDecidesOwner(t.sessions[n - 1], before.shared, before.inbox, t.owner, t.ttl, t.now, ref);
    }
  }

  /** A turn drains exactly the sessions that the owners before the tick say. */
  lemma {:induction false} TurnDrains(t: TickCall, j: nat)
    requires j < |t.sessions| && UniqueKeys(t.shared.leases)
    ensures var s, before, after := t.sessions[j], t.After(j), t.After(j + 1);
            && after.inbox == (if t.IsDrained(j) then before.inbox - {s.ref.sessionId} else before.inbox)
            && after.sessions[j].state == (if t.IsDrained(j) then StateAfter(s.state, WaitingFor(before.inbox, s.ref))
                                           else if s.state == DESTROYED then DESTROYED else DISCONNECTED)
  {
    hide OwnerOf, UniqueKeys, TickSession, AnySurrenders, SessionKey, StateAfter;
    var s, before := t.sessions[j], t.After(j);
    OthersKeepTheirKeys(t, j, s.ref);
    TurnDecidesOwner(s, before.shared, before.inbox, t.owner, t.ttl, t.now, s.ref);
  }

  lemma {:induction false} InboxAtTurn(t: TickCall, n: nat, id: string)
    requires n <= |t.sessions| && UniqueKeys(t.shared.leases)
    ensures var inbox := t.After(n).inbox;
            && (id in inbox <==> id in t.inbox && !t.TakenBefore(id, n))
            && (id in inbox ==> inbox[id] == t.inbox[id])
  {
    hide UniqueKeys, TickFirst;
    if n == 0 {
      assert t.After(0).inbox == t.inbox by { EmptyTick(t); }
    } else {
      InboxAtTurn(t, n - 1, id);
      TurnDrains(t, n - 1);
    }
  }

  lemma {:induction false} EmptyTick(t: TickCall)
    ensures t.After(0) == Ticked([], t.shared, t.inbox, [])
  {
  }

  lemma {:induction false} BatchIsWaiting(t: TickCall, j: nat)
    requires j < |t.sessions| && UniqueKeys(t.shared.leases)
    ensures WaitingFor(t.After(j).inbox, t.sessions[j].ref) == t.Batch(j)
  {
    hide UniqueKeys, TickFirst;
    InboxAtTurn(t, j, t.sessions[j].ref.sessionId);
  }

  lemma {:induction false} HoldsStep(t: TickCall, n: nat, ref: Ref)
    requires n < |t.sessions|
    ensures t.Holds(n + 1, ref) <==> !IsOthers(t.Found(ref), t.owner) && !t.GivesUp(n, ref) && (t.Renews(n, ref) || t.Holds(n, ref))
  {
    hide TickCall.GivesUp, TickCall.Renews;
  }

  /**
   * A whole tick leaves the supervisor with the lease of a key exactly when no other owner had the key,
   * the supervisor had it or renewed it in the turn of some session that shares it, and no turn of such
   * a session surrendered it since.
   */
  lemma {:induction false} TickKeepsLeaseIff(t: TickCall, n: nat, ref: Ref)
    requires n <= |t.sessions| && UniqueKeys(t.shared.leases)
    ensures HoldsLease(t.After(n).shared.leases, ref, t.owner, t.now) <==> t.Holds(n, ref)
  {
    hide UniqueKeys, TickSession, JsonCurrentOwner, SessionKey, AnySurrenders;
    if n > 0 {
      TickKeepsLeaseIff(t, n - 1, ref);
      OthersKeepTheirKeys(t, n - 1, ref);
      BatchIsWaiting(t, n - 1);
      HoldsStep(t, n - 1, ref);
      var s, before := t.sessions[n - 1], t.After(n - 1);
      SameKeySameOwner(t.shared.leases, s.ref, ref, t.now);
      TurnDecidesOwner(s, before.shared, before.inbox, t.owner, t.ttl, t.now, ref);
    }
  }

  /** Later turns leave a session's record alone. */
  lemma {:induction false} StateAfterTick(t: TickCall, n: nat, i: nat)
    requires i < n <= |t.sessions| && UniqueKeys(t.shared.leases)
    ensures t.After(n).sessions[i].state == t.StateAtEnd(i)
  {
    hide UniqueKeys, TickSession, StateAfter, OwnerOf;
    if i < n - 1 {
      StateAfterTick(t, n - 1, i);
    } else {
      TurnDrains(t, i);
      BatchIsWaiting(t, i);
    }
  }

  /**
   * What a whole tick finds tells which sessions it leaves active without a lease: those that their own
   * batch leaves active, when another owner has the key, or it was given up after the last renewal by any
   * session that shares it, or it was free and no such session renewed it.
   */
  lemma {:induction false} ActiveWithoutLeaseIff(t: TickCall, i: nat)
    requires i < |t.sessions| && UniqueKeys(t.shared.leases)
    ensures var after := t.After(|t.sessions|);
            after.sessions[i].state in ACTIVE && !HoldsLease(after.shared.leases, t.sessions[i].ref, t.owner, t.now)
            <==> t.StateAtEnd(i) in ACTIVE && !t.Holds(|t.sessions|, t.sessions[i].ref)
  {
    hide UniqueKeys, TickFirst;
    StateAfterTick(t, |t.sessions|, i);
    TickKeepsLeaseIff(t, |t.sessions|, t.sessions[i].ref);
  }

  // ---- whole runs: the log of takings and releases tells who holds a lease ----

  lemma {:induction false} MatchTellsHolder(shared: Shared, ref: Ref, owner: string, now: int)
    requires Exclusive(shared, now)
    ensures HoldsLease(shared.leases, ref, owner, now) <==> StillRuns(LatestEvent(shared.log, GuardKey(ref), owner), now)
  {
    hide JsonCurrentOwner, SessionKey, LatestEvent, IsExclusive;
    OwnerOfKey(shared.leases, ref, now);
  }

  /** In every run an owner holds a key exactly when its latest event on that key took it, for a time that has not run out. */
  lemma {:induction false} HoldsLeaseIff(clock: int, actions: seq<Action>, ref: Ref, owner: string)
    ensures var w := Run(clock, actions);
            HoldsLease(w.shared.leases, ref, owner, w.clock) <==> StillRuns(LatestEvent(w.shared.log, GuardKey(ref), owner), w.clock)
  {
    EveryRunKeepsInv(clock, actions);
    hide Run, Exclusive, HoldsLease, LatestEvent;
    var w := Run(clock, actions);
    MatchTellsHolder(w.shared, ref, owner, w.clock);
  }

  /** Every record stands for a session whose key its supervisor was granted at some time. */
  ghost predicate WereGranted(sessions: seq<Session>, log: seq<GuardEvent>, owner: string) {
    forall s :: s in sessions ==> LatestEvent(log, GuardKey(s.ref), owner).Some?
  }

  lemma {:induction false} LatestStays(log: seq<GuardEvent>, more: seq<GuardEvent>, key: string, ownerRef: string)
    requires log <= more && LatestEvent(log, key, ownerRef).Some?
    ensures LatestEvent(more, key, ownerRef).Some?
    decreases |more|
  {
    if log != more {
      var before := more[..|more| - 1];
      assert more == before + [more[|more| - 1]];
      LatestStays(log, before, key, ownerRef);
      LatestAfter(before, more[|more| - 1], key, ownerRef);
    }
  }

  lemma {:induction false} GrantsStay(sessions: seq<Session>, log: seq<GuardEvent>, more: seq<GuardEvent>, owner: string)
    requires WereGranted(sessions, log, owner) && log <= more
    ensures WereGranted(sessions, more, owner)
  {
    hide LatestEvent;
    forall s | s in sessions ensures LatestEvent(more, GuardKey(s.ref), owner).Some? {
      LatestStays(log, more, GuardKey(s.ref), owner);
    }
  }

  lemma {:induction false} DrainGrowsLog(s: Session, shared: Shared, ds: seq<Delivery>, owner: string, now: int)
    ensures shared.log <= DrainAll(s, shared, ds, owner, now).shared.log
  {
    hide JsonRelease, Surrenders, Deliver;
    if ds != [] {
      DrainGrowsLog(s, shared, ds[..|ds| - 1], owner, now);
    }
  }

  lemma {:induction false} TickKeepsGrants(t: TickCall, n: nat)
    requires n <= |t.sessions|
    ensures t.shared.log <= t.After(n).shared.log
    ensures forall i :: 0 <= i < n ==> t.After(n).sessions[i].ref == t.sessions[i].ref
  {
    hide JsonAcquire, DrainAll;
    if n > 0 {
      TickKeepsGrants(t, n - 1);
      var s, before := t.sessions[n - 1], t.After(n - 1);
      var ds, renewed := WaitingFor(before.inbox, s.ref), AcquireFor(before.shared, s.ref, t.owner, t.ttl, t.now).1;
      DrainGrowsLog(s, before.shared, ds, t.owner, t.now);
      DrainGrowsLog(s, renewed, ds, t.owner, t.now);
      TickSessionKeepsLog(s, before.shared, before.inbox, t.owner, t.ttl, t.now);
    }
  }

  lemma {:induction false} StartKeepsGrants(sessions: seq<Session>, shared: Shared, ref: Ref, socketStarts: bool,
          owner: string, ttl: Lifetime, now: int)
    requires WereGranted(sessions, shared.log, owner)
    ensures var a := StartSession(sessions, shared, ref, socketStarts, owner, ttl, now);
            shared.log <= a.shared.log && WereGranted(a.sessions, a.shared.log, owner)
  {
    hide JsonAcquire, JsonRelease, LatestEvent, SessionKey, IndexOf, WereGranted;
    var a := StartSession(sessions, shared, ref, socketStarts, owner, ttl, now);
    var (granted, leased) := AcquireFor(shared, ref, owner, ttl, now);
    GrantsStay(sessions, shared.log, a.shared.log, owner);
    if a.sessions != sessions {
      LatestAfter(shared.log, KeyTaken(GuardKey(ref), owner, now, now + ttl), GuardKey(ref), owner);
      LatestStays(leased.log, a.shared.log, GuardKey(ref), owner);
      var s := Transition(NewSession(ref), STARTING, None, None);
      PutKeepsGrants(sessions, s, a.shared.log, owner);
      PutKeepsGrants(sessions, Transition(s, DISCONNECTED, None, Some(START_FAILED)), a.shared.log, owner);
    }
  }

  lemma {:induction false} PutKeepsGrants(sessions: seq<Session>, s: Session, log: seq<GuardEvent>, owner: string)
    requires WereGranted(sessions, log, owner) && LatestEvent(log, GuardKey(s.ref), owner).Some?
    ensures WereGranted(Put(sessions, s), log, owner)
  {
    hide IndexOf, LatestEvent, SessionKey;
  }

  lemma {:induction false} StopKeepsGrants(sessions: seq<Session>, shared: Shared, ref: Ref, socketCloses: bool,
          owner: string, now: int)
    requires WereGranted(sessions, shared.log, owner)
    ensures var a := StopSession(sessions, shared, ref, socketCloses, owner, now);
            shared.log <= a.shared.log && WereGranted(a.sessions, a.shared.log, owner)
  {
    hide JsonRelease, LatestEvent, SessionKey, IndexOf;
    var a := StopSession(sessions, shared, ref, socketCloses, owner, now);
    assert shared.log <= a.shared.log;
    GrantsStay(sessions, shared.log, a.shared.log, owner);
  }

  lemma {:induction false} StepKeepsGrants(w: World, action: Action, owner: string)
    requires WereGranted(SessionsOf(w, owner), w.shared.log, owner)
    requires action.Start? || action.Stop? || action.Tick? ==> WereGranted(SessionsOf(w, action.owner), w.shared.log, action.owner)
    ensures var after := Step(w, action); WereGranted(SessionsOf(after, owner), after.shared.log, owner)
  {
    var after := Step(w, action);
    hide LatestEvent, SessionKey, StartSession, StopSession, TickFirst;
    match action
    case Wait(_) =>
    case Crash(_) =>
    case Start(o, ref, socketStarts, ttl) => StartKeepsGrants(SessionsOf(w, o), w.shared, ref, socketStarts, o, ttl, w.clock);
      GrantsStay(SessionsOf(w, owner), w.shared.log, after.shared.log, owner);
    case Stop(o, ref, socketCloses) => StopKeepsGrants(SessionsOf(w, o), w.shared, ref, socketCloses, o, w.clock);
      GrantsStay(SessionsOf(w, owner), w.shared.log, after.shared.log, owner);
    case Tick(o, inbox, ttl) =>
      var t := TickCall(SessionsOf(w, o), w.shared, inbox, o, ttl, w.clock);
      TickKeepsGrants(t, |t.sessions|);
      GrantsStay(SessionsOf(w, owner), w.shared.log, after.shared.log, owner);
  }

  lemma {:induction false} RecordsWereGranted(clock: int, actions: seq<Action>, owner: string)
    ensures WereGranted(SessionsOf(Run(clock, actions), owner), Run(clock, actions).shared.log, owner)
    decreases |actions|
  {
    if actions != [] {
      var before, action := actions[..|actions| - 1], actions[|actions| - 1];
      var w := Run(clock, before);
      assert Run(clock, actions) == Step(w, action);
      hide WereGranted, Run, Step;
      RecordsWereGranted(clock, before, owner);
      if action.Start? || action.Stop? || action.Tick? {
        RecordsWereGranted(clock, before, action.owner);
      }
      StepKeepsGrants(w, action, owner);
    }
  }

  /**
   * In every run a record's key was once granted to its supervisor, and the session is without its lease
   * exactly when the supervisor's latest event on that key gave it up or took it for a time that has run
   * out. This is so in every state, so it tells which sessions are CONNECTED without a lease.
   */
  lemma {:induction false} UnleasedIff(clock: int, actions: seq<Action>, owner: string, s: Session)
    requires s in SessionsOf(Run(clock, actions), owner)
    ensures var w := Run(clock, actions);
            var latest := LatestEvent(w.shared.log, GuardKey(s.ref), owner);
            && latest.Some?
            && (!HoldsLease(w.shared.leases, s.ref, owner, w.clock) <==> latest.value.KeyFreed? || latest.value.until <= w.clock)
  {
    RecordsWereGranted(clock, actions, owner);
    HoldsLeaseIff(clock, actions, s.ref, owner);
    hide Run, HoldsLease, LatestEvent, SessionKey;
  }

  // ---- which steps give a lease and which take it away ----

  /** The supervisor has no undestroyed record of the session, and no other owner has its key. */
  predicate StartIsGranted(w: World, owner: string, ref: Ref) {
    var sessions := SessionsOf(w, owner);
    var i := IndexOf(sessions, SupervisorKey(ref));
    (i < 0 || sessions[i].state == DESTROYED) && !IsOthers(OwnerOf(w.shared.leases, ref, w.clock), owner)
  }

  /** Whether an owner has the lease of a key after a step, told from what the step finds. */
  ghost predicate HoldsAfter(w: World, action: Action, ref: Ref, owner: string) {
    var holds := HoldsLease(w.shared.leases, ref, owner, w.clock);
    match action
    case Wait(milliseconds) => StillRuns(LatestEvent(w.shared.log, GuardKey(ref), owner), w.clock + milliseconds)
    case Start(o, started, socketStarts, _) =>
      if o == owner && GuardKey(started) == GuardKey(ref) && StartIsGranted(w, owner, started) then socketStarts else holds
    case Stop(o, stopped, _) =>
      holds && !(o == owner && GuardKey(stopped) == GuardKey(ref) && IndexOf(SessionsOf(w, owner), SupervisorKey(stopped)) >= 0)
    case Tick(o, inbox, ttl) =>
      if o != owner then holds
      else
        var t := TickCall(SessionsOf(w, owner), w.shared, inbox, owner, ttl, w.clock);
        t.Holds(|t.sessions|, ref)
    case Crash(_) => holds
  }

  lemma {:induction false} StartDecidesHolder(w: World, o: string, started: Ref, socketStarts: bool, ttl: Lifetime, ref: Ref, owner: string)
    requires UniqueKeys(w.shared.leases)
    ensures var after := StartSession(SessionsOf(w, o), w.shared, started, socketStarts, o, ttl, w.clock).shared;
            HoldsLease(after.leases, ref, owner, w.clock) <==> HoldsAfter(w, Action.Start(o, started, socketStarts, ttl), ref, owner)
  {
    hide AcquireFor, ReleaseFor, JsonCurrentOwner, SessionKey, IndexOf, UniqueKeys;
    var leased := AcquireFor(w.shared, started, o, ttl, w.clock).1;
    GrantedUnlessOthers(w.shared, started, o, ttl, w.clock);
    OwnerAfterAcquire(w.shared, started, o, ttl, w.clock, ref);
    OwnerAfterRelease(leased, started, o, w.clock, ref);
    SameKeySameOwner(w.shared.leases, started, ref, w.clock);
  }

  lemma {:induction false} StopDecidesHolder(w: World, o: string, stopped: Ref, socketCloses: bool, ref: Ref, owner: string)
    requires UniqueKeys(w.shared.leases)
    ensures var after := StopSession(SessionsOf(w, o), w.shared, stopped, socketCloses, o, w.clock).shared;
            HoldsLease(after.leases, ref, owner, w.clock) <==> HoldsAfter(w, Action.Stop(o, stopped, socketCloses), ref, owner)
  {
    hide ReleaseFor, JsonCurrentOwner, SessionKey, IndexOf, UniqueKeys;
    OwnerAfterRelease(w.shared, stopped, o, w.clock, ref);
  }

  /** A tick of one supervisor neither gives nor takes the lease of another. */
  lemma {:induction false} TickLeavesOthersAlone(t: TickCall, n: nat, ref: Ref, owner: string)
    requires n <= |t.sessions| && UniqueKeys(t.shared.leases) && owner != t.owner
    ensures HoldsLease(t.After(n).shared.leases, ref, owner, t.now) <==> HoldsLease(t.shared.leases, ref, owner, t.now)
  {
    hide JsonCurrentOwner, SessionKey, UniqueKeys, TickFirst;
    OthersKeepTheirKeys(t, n, ref);
  }

  /**
   * In every run, for every step: a supervisor's lease of a key passes only with the time it was granted
   * for, and is given or taken only by the supervisor's own starts, stops and ticks, whichever references
   * to that key they name, exactly as the step finds them.
   */
  lemma {:induction false} LeaseAfterStepIff(clock: int, actions: seq<Action>, action: Action, ref: Ref, owner: string)
    ensures var w := Run(clock, actions);
            var after := Step(w, action);
            HoldsLease(after.shared.leases, ref, owner, after.clock) <==> HoldsAfter(w, action, ref, owner)
  {
    EveryRunKeepsInv(clock, actions);
    var w := Run(clock, actions);
    hide Run, JsonCurrentOwner, SessionKey, LatestEvent, LeasesMatchLog, IsExclusive, UniqueKeys, StartSession, StopSession, TickFirst, IndexOf;
    match action
    case Wait(milliseconds) =>
      WaitKeepsExclusive(w.shared, w.clock, w.clock + milliseconds);
      MatchTellsHolder(w.shared, ref, owner, w.clock + milliseconds);
    case Start(o, started, socketStarts, ttl) => StartDecidesHolder(w, o, started, socketStarts, ttl, ref, owner);
    case Stop(o, stopped, socketCloses) => StopDecidesHolder(w, o, stopped, socketCloses, ref, owner);
    case Tick(o, inbox, ttl) =>
      var t := TickCall(SessionsOf(w, o), w.shared, inbox, o, ttl, w.clock);
      if o == owner {
        TickKeepsLeaseIff(t, |t.sessions|, ref);
      } else {
        TickLeavesOthersAlone(t, |t.sessions|, ref, owner);
      }
    case Crash(_) =>
  }

  // ---- inputs that leave a session CONNECTED without a lease ----

  const REPLACED := Delivery(Signal(FailureSignal, "connection_replaced", "occurrence_1"), Some("event_1"))
  const RECONNECTED := Delivery(Signal(Connection, "connected", "occurrence_2"), Some("event_2"))

  /** A batch that surrenders the key and then connects leaves the session CONNECTED while any other owner is granted the key. */
  lemma {:induction false} ConnectedButTakenOver(s: Session, shared: Shared, owner: string, other: string, ttl: Lifetime,
          now: int)
    requires UniqueKeys(shared.leases) && s.state in ACTIVE
    requires AcquireFor(shared, s.ref, owner, ttl, now).0
    ensures var out := TickSession(s, shared, map[s.ref.sessionId := [REPLACED, RECONNECTED]], owner, ttl, now).0;
            && out.session.state == CONNECTED
            && AcquireFor(out.shared, s.ref, other, ttl, now).0
  {
    hide AcquireFor, StateAfter, DrainAll, JsonCurrentOwner, Surrenders, TickSession, UniqueKeys;
    var inbox := map[s.ref.sessionId := [REPLACED, RECONNECTED]];
    var renewed := AcquireFor(shared, s.ref, owner, ttl, now).1;
    GrantedIff(shared, s.ref, owner, ttl, now);
    ActiveSessionDrainsOnlyAsHolder(s, shared, inbox, owner, ttl, now);
    var out := TickSession(s, shared, inbox, owner, ttl, now).0;
    assert out == DrainAll(s, renewed, [REPLACED, RECONNECTED], owner, now);
    ExampleBatch(s.state);
    DrainReachesState(s, renewed, [REPLACED, RECONNECTED], owner, now);
    SurrenderFreesKey(s, renewed, owner, now);
    GrantedIff(out.shared, s.ref, other, ttl, now);
  }

  /**
   * A session that lost its key to another owner is DISCONNECTED, but its socket still delivers: one
   * connected signal makes it CONNECTED while the other owner keeps the lease.
   */
  lemma {:induction false} LostButConnected(s: Session, shared: Shared, owner: string, other: string, ttl: Lifetime, now: int)
    requires UniqueKeys(shared.leases) && owner != other && HoldsLease(shared.leases, s.ref, other, now)
    requires s.state == DISCONNECTED && s.failure == Some(OWNERSHIP_LOST)
    ensures var out := TickSession(s, shared, map[s.ref.sessionId := [RECONNECTED]], owner, ttl, now).0;
            && out.session.state == CONNECTED && out.session.failure.None?
            && HoldsLease(out.shared.leases, s.ref, other, now) && !HoldsLease(out.shared.leases, s.ref, owner, now)
  {
    ExampleCodes();
    hide LastSegment, JsonCurrentOwner, UniqueKeys;
    var ds := [RECONNECTED];
    assert ds[..0] == [];
    assert !AnySurrenders(ds);
    DrainKeepsLeaseIff(s, shared, ds, owner, now);
  }

  lemma {:induction false} PlainSegment(code: string)
    requires !Contains(code, '.')
    ensures LastSegment(code) == code
  {
    SplitToken(code, "", '.');
    hide Split, Contains;
  }

  lemma {:induction false} ExampleCodes()
    ensures LastSegment("connection_replaced") == "connection_replaced"
    ensures LastSegment("connected") == "connected"
  {
    hide LastSegment;
    PlainSegment("connection_replaced");
    PlainSegment("connected");
  }

  lemma {:induction false} ExampleBatch(state: SessionState)
    ensures Surrenders(REPLACED) && !Surrenders(RECONNECTED)
    ensures StateAfter(state, [REPLACED, RECONNECTED]) == CONNECTED
  {
    ExampleCodes();
    hide LastSegment;
    var ds := [REPLACED, RECONNECTED];
    assert ds[..1] == [REPLACED] && ds[..1][..0] == [];
    assert StateAfter(state, ds[..1]) == DISCONNECTED;
  }

  lemma {:induction false} SurrenderFreesKey(s: Session, shared: Shared, owner: string, now: int)
    requires UniqueKeys(shared.leases) && HoldsLease(shared.leases, s.ref, owner, now)
    requires Surrenders(REPLACED) && !Surrenders(RECONNECTED)
    ensures var after := DrainAll(s, shared, [REPLACED, RECONNECTED], owner, now).shared;
            UniqueKeys(after.leases) && JsonCurrentOwner(after.leases, GuardSession(s.ref), now).None?
  {
    var ds := [REPLACED, RECONNECTED];
    assert ds[..1] == [REPLACED] && ds[..1][..0] == [];
    hide Deliver, Surrenders;
    assert DrainAll(s, shared, ds[..1], owner, now).shared == ReleaseFor(shared, s.ref, owner, now);
    assert DrainAll(s, shared, ds, owner, now).shared == ReleaseFor(shared, s.ref, owner, now);
    ReleasedKeyIsFree(shared, s.ref, owner, now);
  }

  // Two sessions of one instance whose ids differ and whose guard keys do not.
  const SHARED_A := Ref("i", "p:x", "y")
  const SHARED_B := Ref("i", "p", "x:y")

  lemma {:induction false} SharedGuardKey()
    ensures GuardKey(SHARED_A) == GuardKey(SHARED_B) && SupervisorKey(SHARED_A) != SupervisorKey(SHARED_B)
  {
    JoinedKey(SHARED_A);
    JoinedKey(SHARED_B);
    hide SessionKey;
    assert "i" + [':'] + ("p:x" + [':'] + "y") == "i:p:x:y" == "i" + [':'] + ("p" + [':'] + "x:y");
    assert |SupervisorKey(SHARED_A)| == 4 && |SupervisorKey(SHARED_B)| == 6;
  }

  /** Both sessions are renewed, then the second surrenders the key they share: the first stays CONNECTED without a lease. */
  lemma {:induction false} SurrenderedByAnother(a: Session, b: Session, shared: Shared, owner: string, ttl: Lifetime, now: int)
    requires UniqueKeys(shared.leases) && !IsOthers(OwnerOf(shared.leases, SHARED_A, now), owner)
    requires a.ref == SHARED_A && b.ref == SHARED_B && a.state == b.state == CONNECTED
    ensures var after := TickCall([a, b], shared, map["x:y" := [REPLACED]], owner, ttl, now).After(2);
            && after.sessions[0].ref == SHARED_A && after.sessions[0].state == CONNECTED
            && !HoldsLease(after.shared.leases, SHARED_A, owner, now)
  {
    var t := TickCall([a, b], shared, map["x:y" := [REPLACED]], owner, ttl, now);
    SecondSurrenders(t);
    hide UniqueKeys, TickFirst, OwnerOf, SessionKey, HoldsLease, Surrenders, TickCall.GivesUp, TickCall.IsDrained, TickCall.Batch;
    TickKeepsGrants(t, 2);
    StateAfterTick(t, 2, 0);
    TickKeepsLeaseIff(t, 2, SHARED_A);
  }

  lemma {:induction false} SecondSurrenders(t: TickCall)
    requires |t.sessions| == 2 && t.sessions[0].ref == SHARED_A && t.sessions[1].ref == SHARED_B
    requires t.sessions[0].state == t.sessions[1].state == CONNECTED && t.inbox == map["x:y" := [REPLACED]]
    requires !IsOthers(t.Found(SHARED_A), t.owner)
    ensures t.StateAtEnd(0) == CONNECTED && t.GivesUp(1, SHARED_A)
  {
    SharedGuardKey();
    ExampleBatch(CONNECTED);
    hide UniqueKeys, OwnerOf, SessionKey, Surrenders;
    SameKeySameOwner(t.shared.leases, SHARED_A, SHARED_B, t.now);
    assert !t.TakenBefore("x:y", 1);
    assert t.Batch(0) == [] && t.Batch(1)[0] == REPLACED;
  }

  /** A start of the second whose socket fails frees the key under the active first. */
  lemma {:induction false} FreedByFailedStart(a: Session, shared: Shared, owner: string, ttl: Lifetime, now: int)
    requires UniqueKeys(shared.leases) && !IsOthers(OwnerOf(shared.leases, SHARED_A, now), owner)
    requires a.ref == SHARED_A && a.state == CONNECTED
    ensures var after := StartSession([a], shared, SHARED_B, false, owner, ttl, now);
            && after.answer == Err(START_FAILED) && after.sessions[0] == a
            && !HoldsLease(after.shared.leases, SHARED_A, owner, now)
  {
    SharedGuardKey();
    hide UniqueKeys, JsonCurrentOwner, SessionKey, AcquireFor, ReleaseFor, IndexOf;
    SameKeySameOwner(shared.leases, SHARED_A, SHARED_B, now);
    GrantedUnlessOthers(shared, SHARED_B, owner, ttl, now);
    var leased := AcquireFor(shared, SHARED_B, owner, ttl, now).1;
    OwnerAfterAcquire(shared, SHARED_B, owner, ttl, now, SHARED_A);
    OwnerAfterRelease(leased, SHARED_B, owner, now, SHARED_A);
  }

  /** Started, connected by a tick, and not ticked again before the lease runs out. */
  lemma {:induction false} LeaseRunsOut(clock: int, owner: string, ref: Ref, ttl: Lifetime)
    ensures var w := Run(clock, [Action.Start(owner, ref, true, ttl), Action.Tick(owner, map[ref.sessionId := [RECONNECTED]], ttl),
                                 Action.Wait(ttl)]);
            && |SessionsOf(w, owner)| == 1 && SessionsOf(w, owner)[0].ref == ref && SessionsOf(w, owner)[0].state == CONNECTED
            && !HoldsLease(w.shared.leases, ref, owner, w.clock)
  {
    var start, tick := Action.Start(owner, ref, true, ttl), Action.Tick(owner, map[ref.sessionId := [RECONNECTED]], ttl);
    var actions := [start, tick, Action.Wait(ttl)];
    assert actions[..2] == [start, tick];
    var w0 := World(clock, Shared([], []), map[]);
    var w := Step(Step(w0, start), tick);
    hide Step;
    assert Run(clock, []) == w0;
    assert [start][..0] == [] && [start, tick][..1] == [start];
    assert Run(clock, [start]) == Step(w0, start);
    assert Run(clock, [start, tick]) == w;
    assert Run(clock, actions) == Step(w, Action.Wait(ttl));
    hide Run, JsonCurrentOwner, LatestEvent, SessionKey, LastSegment;
    ConnectedAlone(clock, owner, ref, ttl);
    WaitPassesTime(w, ttl);
    HoldsLeaseIff(clock, actions, ref, owner);
  }

  lemma {:induction false} WaitPassesTime(w: World, milliseconds: nat)
    ensures Step(w, Action.Wait(milliseconds)) == w.(clock := w.clock + milliseconds)
  {
  }

  lemma {:induction false} ConnectedAlone(clock: int, owner: string, ref: Ref, ttl: Lifetime)
    ensures var w := Step(Step(World(clock, Shared([], []), map[]), Action.Start(owner, ref, true, ttl)),
                          Action.Tick(owner, map[ref.sessionId := [RECONNECTED]], ttl));
            && w.clock == clock && |SessionsOf(w, owner)| == 1
            && SessionsOf(w, owner)[0].ref == ref && SessionsOf(w, owner)[0].state == CONNECTED
            && LatestEvent(w.shared.log, GuardKey(ref), owner) == Some(KeyTaken(GuardKey(ref), owner, clock, clock + ttl))
  {
    var started := StartSession([], Shared([], []), ref, true, owner, ttl, clock);
    var s := Transition(NewSession(ref), STARTING, None, None);
    var ds := [RECONNECTED];
    ExampleCodes();
    StartAlone(ref, owner, ttl, clock);
    hide JsonAcquire, JsonCurrentOwner, LatestEvent, SessionKey, LastSegment, StartSession, UniqueKeys;
    assert ds[..0] == [] && !AnySurrenders(ds);
    GrantedIff(started.shared, ref, owner, ttl, clock);
    var renewed := AcquireFor(started.shared, ref, owner, ttl, clock).1;
    LatestAfter(started.shared.log, KeyTaken(GuardKey(ref), owner, clock, clock + ttl), GuardKey(ref), owner);
    DrainKeepsLeaseIff(s, renewed, ds, owner, clock);
    DrainReachesState(s, renewed, ds, owner, clock);
    DrainKeepsIdentity(s, renewed, ds, owner, clock);
    hide DrainAll;
    var t := TickFirst([s], 1, started.shared, map[ref.sessionId := ds], owner, ttl, clock);
    assert TickFirst([s], 0, started.shared, map[ref.sessionId := ds], owner, ttl, clock).sessions == [];
    assert t.shared == renewed;
  }
}
