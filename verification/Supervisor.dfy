/**
 * Provider runtime supervisors over one shared lease file: starting and stopping sessions, and the
 * tick that renews each lease and drains the provider's signals. A call is one atomic step with one
 * reading of the clock.
 */
module Supervisor {
  import opened Collections
  import opened Text
  import opened OwnershipGuards
  import opened SessionKeys

  datatype SessionState =
    | CREATED | STARTING | QR_REQUIRED | PAIRING | CONNECTED | RECONNECTING | DISCONNECTED | LOGGED_OUT | DESTROYED

  datatype Source = Runtime | Provider | Ingress

  datatype Failure = Failure(code: string, retryable: bool, source: Source)

  datatype Session = Session(ref: Ref, state: SessionState, transitions: seq<SessionState>,
                             lastSignalRef: Option<string>, failure: Option<Failure>)

  datatype Kind = Auth | Connection | FailureSignal | OtherSignal

  datatype Signal = Signal(kind: Kind, signalRef: string, occurrenceRef: string)

  /** A signal waiting at the provider socket, and the event that ingesting it yields, if it succeeds. */
  datatype Delivery = Delivery(signal: Signal, eventId: Option<string>)

  datatype DrainResult = DrainResult(signalRef: string, occurrenceRef: string, state: SessionState,
                                     eventId: Option<string>, failure: Option<Failure>)

  /** The waiting signals, by session id. */
  type Inbox = map<string, seq<Delivery>>

  predicate ShouldHoldOwnership(state: SessionState) {
    state in {STARTING, QR_REQUIRED, PAIRING, CONNECTED, RECONNECTING}
  }

  function LastSegment(signalRef: string): string {
    var parts := Split(signalRef, '.');
    parts[|parts| - 1]
  }

  function StateFromSignal(signal: Signal, current: SessionState): Option<SessionState> {
    var code := LastSegment(signal.signalRef);
    match signal.kind
    case Auth =>
      if code == "qr_required" then Some(QR_REQUIRED)
      else if code == "pairing" then Some(PAIRING)
      else if code == "authenticated" then Some(CONNECTED)
      else Some(current)
    case Connection =>
      if code == "connecting" then Some(STARTING)
      else if code == "connected" then Some(CONNECTED)
      else if code == "reconnecting" then Some(RECONNECTING)
      else if code == "logged_out" then Some(LOGGED_OUT)
      else if code == "disconnected" then Some(DISCONNECTED)
      else Some(current)
    case FailureSignal => if code == "logged_out" then Some(LOGGED_OUT) else Some(DISCONNECTED)
    case OtherSignal => None
  }

  function FailureFromSignal(signal: Signal): Option<Failure> {
    if !signal.kind.FailureSignal? then None
    else
      var code := LastSegment(signal.signalRef);
      Some(Failure("provider_signal_" + code, code != "logged_out" && code != "connection_replaced", Provider))
  }

  predicate ShouldSurrender(signal: Signal) {
    signal.kind.FailureSignal? && LastSegment(signal.signalRef) == "connection_replaced"
  }

  const INGRESS_FAILED := Failure("provider_runtime_supervisor_ingress_failed", true, Ingress)
  const OWNERSHIP_LOST := Failure("provider_runtime_supervisor_ownership_lost", true, Runtime)
  const START_FAILED := Failure("provider_runtime_supervisor_start_failed", true, Provider)
  const STOP_FAILED := Failure("provider_runtime_supervisor_stop_failed", true, Provider)
  const ALREADY_ACTIVE := Failure("provider_runtime_supervisor_session_already_active", true, Runtime)
  const SESSION_MISSING := Failure("provider_runtime_supervisor_session_missing", false, Runtime)

  // ---- a session record ----

  function NewSession(ref: Ref): Session {
    Session(ref, CREATED, [CREATED], None, None)
  }

  function Transition(s: Session, state: SessionState, signalRef: Option<string>, failure: Option<Failure>): Session {
    s.(state := state,
       transitions := if s.state != state then s.transitions + [state] else s.transitions,
       lastSignalRef := if signalRef.Some? then signalRef else s.lastSignalRef,
       failure := failure)
  }

  /** The log of a record starts CREATED, STARTING, never repeats a neighbour and ends in the current state. */
  predicate IsTransitionLog(s: Session) {
    && |s.transitions| >= 2 && s.transitions[0] == CREATED && s.transitions[1] == STARTING
    && (forall i :: 1 <= i < |s.transitions| ==> s.transitions[i - 1] != s.transitions[i])
    && s.transitions[|s.transitions| - 1] == s.state
  }

  // ---- the shared leases, with a log of who got and gave up which key ----

  datatype GuardEvent =
    | KeyTaken(key: string, ownerRef: string, at: int, until: int)
    | KeyFreed(key: string, ownerRef: string)

  datatype Shared = Shared(leases: seq<Lease>, log: seq<GuardEvent>)

  function AcquireFor(shared: Shared, ref: Ref, owner: string, ttl: Lifetime, now: int): (bool, Shared) {
    var (decision, leases) := JsonAcquire(shared.leases, GuardSession(ref), owner, ttl, now);
    if decision.Granted? then (true, Shared(leases, shared.log + [KeyTaken(GuardKey(ref), owner, now, now + ttl)]))
    else (false, Shared(leases, shared.log))
  }

  function ReleaseFor(shared: Shared, ref: Ref, owner: string, now: int): Shared {
    var (released, leases) := JsonRelease(shared.leases, GuardSession(ref), owner, now);
    Shared(leases, if released then shared.log + [KeyFreed(GuardKey(ref), owner)] else shared.log)
  }

  /** `owner` has the live lease of the session's guard key. */
  predicate HoldsLease(leases: seq<Lease>, ref: Ref, owner: string, now: int) {
    JsonCurrentOwner(leases, GuardSession(ref), now) == Some(owner)
  }

  // ---- the operations ----

  function Deliver(s: Session, d: Delivery): Session {
    if d.eventId.None? then Transition(s, DISCONNECTED, Some(d.signal.signalRef), Some(INGRESS_FAILED))
    else
      var next := StateFromSignal(d.signal, s.state);
      if next.Some? then Transition(s, next.value, Some(d.signal.signalRef), FailureFromSignal(d.signal))
      else s.(lastSignalRef := Some(d.signal.signalRef))
  }

  predicate Surrenders(d: Delivery) {
    d.eventId.Some? && ShouldSurrender(d.signal)
  }

  /** What is reported for one signal: the event it became, or the failure to ingest it. */
  function ResultOf(d: Delivery, state: SessionState): DrainResult {
    DrainResult(d.signal.signalRef, d.signal.occurrenceRef, state, d.eventId, if d.eventId.None? then Some(INGRESS_FAILED) else None)
  }

  datatype Drained = Drained(session: Session, shared: Shared, results: seq<DrainResult>)

  function DrainAll(s: Session, shared: Shared, ds: seq<Delivery>, owner: string, now: int): Drained {
    if ds == [] then Drained(s, shared, [])
    else
      var before, d := DrainAll(s, shared, ds[..|ds| - 1], owner, now), ds[|ds| - 1];
      var after := Deliver(before.session, d);
      Drained(after,
              if Surrenders(d) then ReleaseFor(before.shared, s.ref, owner, now) else before.shared,
              before.results + [ResultOf(d, after.state)])
  }

  function WaitingFor(inbox: Inbox, ref: Ref): seq<Delivery> {
    if ref.sessionId in inbox then inbox[ref.sessionId] else []
  }

  /** The part of a tick that concerns one session. */
  function TickSession(s: Session, shared: Shared, inbox: Inbox, owner: string, ttl: Lifetime, now: int): (Drained, Inbox) {
    if s.state == DESTROYED then (Drained(s, shared, []), inbox)
    else
      var (granted, renewed) := if ShouldHoldOwnership(s.state) then AcquireFor(shared, s.ref, owner, ttl, now) else (true, shared);
      if !granted then (Drained(Transition(s, DISCONNECTED, None, Some(OWNERSHIP_LOST)), renewed, []), inbox)
      else (DrainAll(s, renewed, WaitingFor(inbox, s.ref), owner, now), inbox - {s.ref.sessionId})
  }

  datatype Ticked = Ticked(sessions: seq<Session>, shared: Shared, inbox: Inbox, results: seq<DrainResult>)

  /** A tick that has visited the first `n` sessions. */
  function TickFirst(sessions: seq<Session>, n: nat, shared: Shared, inbox: Inbox, owner: string, ttl: Lifetime,
          now: int): (r: Ticked)
    requires n <= |sessions|
    ensures |r.sessions| == n
  {
    if n == 0 then Ticked([], shared, inbox, [])
    else
      var before := TickFirst(sessions, n - 1, shared, inbox, owner, ttl, now);
      var (drained, rest) := TickSession(sessions[n - 1], before.shared, before.inbox, owner, ttl, now);
      Ticked(before.sessions + [drained.session], drained.shared, rest, before.results + drained.results)
  }

  function IndexOf(sessions: seq<Session>, key: string): (i: int)
    ensures -1 <= i < |sessions|
    ensures i >= 0 ==> SupervisorKey(sessions[i].ref) == key
    ensures i < 0 ==> forall j :: 0 <= j < |sessions| ==> SupervisorKey(sessions[j].ref) != key
  {
    FindIndex(sessions, (s: Session) => SupervisorKey(s.ref) == key)
  }

  /** `Map.set`: a known key keeps its place. */
  function Put(sessions: seq<Session>, s: Session): seq<Session> {
    var i := IndexOf(sessions, SupervisorKey(s.ref));
    if i >= 0 then sessions[i := s] else sessions + [s]
  }

  datatype Answered = Answered(answer: Result<Session, Failure>, sessions: seq<Session>, shared: Shared)

  function StartSession(sessions: seq<Session>, shared: Shared, ref: Ref, socketStarts: bool, owner: string, ttl: Lifetime,
          now: int): Answered {
    var i := IndexOf(sessions, SupervisorKey(ref));
    if i >= 0 && sessions[i].state != DESTROYED then Answered(Err(ALREADY_ACTIVE), sessions, shared)
    else
      var (granted, leased) := AcquireFor(shared, ref, owner, ttl, now);
      if !granted then Answered(Err(ALREADY_ACTIVE), sessions, leased)
      else
        var s := Transition(NewSession(ref), STARTING, None, None);
        if socketStarts then Answered(Ok(s), Put(sessions, s), leased)
        else Answered(Err(START_FAILED), Put(sessions, Transition(s, DISCONNECTED, None, Some(START_FAILED))),
                      ReleaseFor(leased, ref, owner, now))
  }

  /** The lease given up is the one of the requested reference, which may name another provider. */
  function StopSession(sessions: seq<Session>, shared: Shared, ref: Ref, socketCloses: bool, owner: string,
          now: int): Answered {
    var i := IndexOf(sessions, SupervisorKey(ref));
    if i < 0 then Answered(Err(SESSION_MISSING), sessions, shared)
    else
      var freed := ReleaseFor(shared, ref, owner, now);
      if socketCloses then
        var s := Transition(sessions[i], DESTROYED, None, None);
        Answered(Ok(s), sessions[i := s], freed)
      else Answered(Err(STOP_FAILED), sessions[i := Transition(sessions[i], DISCONNECTED, None, Some(STOP_FAILED))], freed)
  }

  // ---- what the guard answers ----

  lemma {:induction false} OwnerOfKey(leases: seq<Lease>, ref: Ref, now: int)
    requires UniqueKeys(leases)
    ensures forall l :: l in leases && l.sessionKey == GuardKey(ref) && IsLive(l, now) ==>
              JsonCurrentOwner(leases, GuardSession(ref), now) == Some(l.ownerRef)
    ensures JsonCurrentOwner(leases, GuardSession(ref), now).Some? ==>
              exists l :: l in leases && l.sessionKey == GuardKey(ref) && IsLive(l, now)
                          && l.ownerRef == JsonCurrentOwner(leases, GuardSession(ref), now).value
  {
    hide FindKey, SessionKey, LiveLeases;
    FindKeyFinds(LiveLeases(leases, now), GuardKey(ref));
  }

  /** A key is granted exactly when no other owner has it live; the grant then makes its owner the holder. */
  lemma {:induction false} GrantedIff(shared: Shared, ref: Ref, owner: string, ttl: Lifetime, now: int)
    requires UniqueKeys(shared.leases)
    ensures var current := JsonCurrentOwner(shared.leases, GuardSession(ref), now);
            var (granted, after) := AcquireFor(shared, ref, owner, ttl, now);
            && UniqueKeys(after.leases)
            && (granted <==> current.None? || current == Some(owner))
            && (granted ==> HoldsLease(after.leases, ref, owner, now))
            && (!granted ==> JsonCurrentOwner(after.leases, GuardSession(ref), now) == current)
  {
    var live := LiveLeases(shared.leases, now);
    var (granted, after) := AcquireFor(shared, ref, owner, ttl, now);
    FindKeyFinds(live, GuardKey(ref));
    assert granted ==> CreateLease(GuardSession(ref), owner, ttl, now) in after.leases;
    hide FindKey, SessionKey, LiveLeases, WithoutKey, JsonCurrentOwner;
    OwnerOfKey(shared.leases, ref, now);
    OwnerOfKey(after.leases, ref, now);
  }

  /** If nothing else happens, a granted key is held for the lease time and no longer. */
  lemma {:induction false} GrantLasts(shared: Shared, ref: Ref, owner: string, ttl: Lifetime, now: int, t: int)
    requires UniqueKeys(shared.leases) && AcquireFor(shared, ref, owner, ttl, now).0 && now <= t
    ensures HoldsLease(AcquireFor(shared, ref, owner, ttl, now).1.leases, ref, owner, t) <==> t < now + ttl
  {
    AcquireEffect(shared, ref, owner, ttl, now);
    var after := AcquireFor(shared, ref, owner, ttl, now).1;
    hide JsonCurrentOwner, SessionKey, AcquireFor;
    OwnerOfKey(after.leases, ref, t);
    assert CreateLease(GuardSession(ref), owner, ttl, now) in after.leases;
  }

  lemma {:induction false} ReleaseEndsHolding(shared: Shared, ref: Ref, owner: string, now: int)
    requires UniqueKeys(shared.leases)
    ensures var after := ReleaseFor(shared, ref, owner, now);
            && UniqueKeys(after.leases)
            && !HoldsLease(after.leases, ref, owner, now)
            && forall l :: l in after.leases ==> l in shared.leases
  {
    var live := LiveLeases(shared.leases, now);
    FindKeyFinds(live, GuardKey(ref));
    var after := ReleaseFor(shared, ref, owner, now);
    hide FindKey, SessionKey, LiveLeases, WithoutKey, JsonCurrentOwner;
    OwnerOfKey(after.leases, ref, now);
  }

  lemma {:induction false} ReleasedKeyIsFree(shared: Shared, ref: Ref, owner: string, now: int)
    requires UniqueKeys(shared.leases) && HoldsLease(shared.leases, ref, owner, now)
    ensures var after := ReleaseFor(shared, ref, owner, now);
            UniqueKeys(after.leases) && JsonCurrentOwner(after.leases, GuardSession(ref), now).None?
  {
    ReleaseEndsHolding(shared, ref, owner, now);
    var after := ReleaseFor(shared, ref, owner, now);
    hide SessionKey, JsonCurrentOwner, ReleaseFor;
    OwnerOfKey(shared.leases, ref, now);
    OwnerOfKey(after.leases, ref, now);
  }

  // ---- one session in one tick ----

  lemma {:induction false} DrainKeepsIdentity(s: Session, shared: Shared, ds: seq<Delivery>, owner: string, now: int)
    ensures var out := DrainAll(s, shared, ds, owner, now);
            out.session.ref == s.ref && (IsTransitionLog(s) ==> IsTransitionLog(out.session))
  {
    if ds != [] {
      var before, d := ds[..|ds| - 1], ds[|ds| - 1];
      hide Deliver, ReleaseFor, Surrenders, IsTransitionLog;
      DrainKeepsIdentity(s, shared, before, owner, now);
      DeliverKeepsIdentity(DrainAll(s, shared, before, owner, now).session, d);
    }
  }

  lemma {:induction false} DeliverKeepsIdentity(s: Session, d: Delivery)
    ensures Deliver(s, d).ref == s.ref && (IsTransitionLog(s) ==> IsTransitionLog(Deliver(s, d)))
  {
    hide StateFromSignal, FailureFromSignal;
  }

  /**
   * Every waiting signal reaches the session as the signals before it left it, and is reported once, in order:
   * as ingested or not as the ingress decided, with the state it led to.
   */
  lemma {:induction false} DrainReportsEverySignal(s: Session, shared: Shared, ds: seq<Delivery>, owner: string,
          now: int)
    ensures var results := DrainAll(s, shared, ds, owner, now).results;
            && |results| == |ds|
            && forall i :: 0 <= i < |ds| ==>
                 var before, after := DrainAll(s, shared, ds[..i], owner, now).session, DrainAll(s, shared, ds[..i + 1], owner, now).session;
                 && after == Deliver(before, ds[i])
                 && results[i] == DrainResult(ds[i].signal.signalRef, ds[i].signal.occurrenceRef, after.state, ds[i].eventId,
                                              if ds[i].eventId.None? then Some(INGRESS_FAILED) else None)
                 && (ds[i].eventId.None? ==> after.state == DISCONNECTED)
    ensures ds == [] ==> DrainAll(s, shared, ds, owner, now).session == s
  {
    if ds != [] {
      var n := |ds| - 1;
      DrainReportsEverySignal(s, shared, ds[..n], owner, now);
      hide StateFromSignal, FailureFromSignal, ReleaseFor, Surrenders;
      forall i | 0 <= i <= n ensures ds[..i + 1][..i] == ds[..i] && (i < n ==> ds[..n][..i] == ds[..i] && ds[..n][..i + 1] == ds[..i + 1]) {
      }
      assert ds[..n + 1] == ds;
    }
  }

  ghost predicate AnySurrenders(ds: seq<Delivery>) {
    exists i :: 0 <= i < |ds| && Surrenders(ds[i])
  }

  /** After a batch the lease is held exactly if it was before and no ingested signal says that the connection was replaced. */
  lemma {:induction false} DrainKeepsLeaseIff(s: Session, shared: Shared, ds: seq<Delivery>, owner: string, now: int)
    requires UniqueKeys(shared.leases)
    ensures var after := DrainAll(s, shared, ds, owner, now).shared;
            && UniqueKeys(after.leases)
            && (HoldsLease(after.leases, s.ref, owner, now) <==> HoldsLease(shared.leases, s.ref, owner, now) && !AnySurrenders(ds))
            && (!AnySurrenders(ds) ==> after == shared)
  {
    hide HoldsLease, ReleaseFor, Surrenders, Deliver, UniqueKeys;
    if ds != [] {
      var before, d := ds[..|ds| - 1], ds[|ds| - 1];
      DrainKeepsLeaseIff(s, shared, before, owner, now);
      if Surrenders(d) {
        assert AnySurrenders(ds);
        ReleaseEndsHolding(DrainAll(s, shared, before, owner, now).shared, s.ref, owner, now);
      } else {
        assert AnySurrenders(before) ==> AnySurrenders(ds);
        assert AnySurrenders(ds) ==> AnySurrenders(before) by {
          if i :| 0 <= i < |ds| && Surrenders(ds[i]) {
            assert before[i] == ds[i];
          }
        }
      }
    }
  }

  /**
   * A session found in an active state is drained exactly when no other owner has its key live, and
   * it is drained as the holder of a lease renewed in this very tick. A refused renewal drains
   * nothing, leaves the other owner's lease alone and leaves the session DISCONNECTED.
   */
  lemma {:induction false} ActiveSessionDrainsOnlyAsHolder(s: Session, shared: Shared, inbox: Inbox, owner: string,
          ttl: Lifetime, now: int)
    requires UniqueKeys(shared.leases) && s.state in {STARTING, QR_REQUIRED, PAIRING, CONNECTED, RECONNECTING}
    ensures var current := JsonCurrentOwner(shared.leases, GuardSession(s.ref), now);
            var (granted, renewed) := AcquireFor(shared, s.ref, owner, ttl, now);
            var (out, rest) := TickSession(s, shared, inbox, owner, ttl, now);
            if current.Some? && current.value != owner then
              && out.results == [] && rest == inbox
              && out.session.state == DISCONNECTED && out.session.failure == Some(OWNERSHIP_LOST)
              && JsonCurrentOwner(out.shared.leases, GuardSession(s.ref), now) == current
            else
              && granted && HoldsLease(renewed.leases, s.ref, owner, now)
              && renewed.log == shared.log + [KeyTaken(GuardKey(s.ref), owner, now, now + ttl)]
              && out == DrainAll(s, renewed, WaitingFor(inbox, s.ref), owner, now)
              && rest == inbox - {s.ref.sessionId}
  {
    hide JsonAcquire, JsonCurrentOwner, SessionKey, DrainAll;
    GrantedIff(shared, s.ref, owner, ttl, now);
  }

  lemma {:induction false} TickSessionKeepsLog(s: Session, shared: Shared, inbox: Inbox, owner: string, ttl: Lifetime,
          now: int)
    ensures var out := TickSession(s, shared, inbox, owner, ttl, now).0.session;
            && out.ref == s.ref
            && (IsTransitionLog(s) ==> IsTransitionLog(out))
            && (s.state == DESTROYED ==> out == s)
  {
    hide AcquireFor, DrainAll;
    DrainKeepsIdentity(s, AcquireFor(shared, s.ref, owner, ttl, now).1, WaitingFor(inbox, s.ref), owner, now);
    DrainKeepsIdentity(s, shared, WaitingFor(inbox, s.ref), owner, now);
  }

  // ---- exclusion between owners ----

  predicate SameHolder(e: GuardEvent, f: GuardEvent) {
    e.key == f.key && e.ownerRef == f.ownerRef
  }

  /** Event `i` is not its owner's latest on its key before `j`: the key was taken again or freed since. */
  ghost predicate FollowedUp(log: seq<GuardEvent>, i: nat, j: nat)
    requires i < j <= |log|
  {
    exists k :: i < k < j && SameHolder(log[k], log[i])
  }

  /** `later` gives the key to another owner while the time that `earlier` granted still runs. */
  predicate TakesOver(earlier: GuardEvent, later: GuardEvent) {
    && earlier.KeyTaken? && later.KeyTaken? && earlier.key == later.key
    && earlier.ownerRef != later.ownerRef && later.at < earlier.until
  }

  /** A key that was last taken by one owner passes to another only when the time of that taking has run out. */
  ghost predicate IsExclusive(log: seq<GuardEvent>) {
    forall i, j :: 0 <= i < j < |log| && TakesOver(log[i], log[j]) ==> FollowedUp(log, i, j)
  }

  /** The latest event of this owner on this key. */
  function LatestEvent(log: seq<GuardEvent>, key: string, ownerRef: string): (e: Option<GuardEvent>)
    ensures e.Some? ==> e.value.key == key && e.value.ownerRef == ownerRef
  {
    if log == [] then None
    else
      var last := log[|log| - 1];
      if last.key == key && last.ownerRef == ownerRef then Some(last) else LatestEvent(log[..|log| - 1], key, ownerRef)
  }

  /** The event took the key, for a time that has not run out. */
  predicate StillRuns(e: Option<GuardEvent>, now: int) {
    e.Some? && e.value.KeyTaken? && now < e.value.until
  }

  predicate IsLeaseOf(l: Lease, e: GuardEvent) {
    e.KeyTaken? && l.sessionKey == e.key && l.ownerRef == e.ownerRef && l.expiresAt == e.until
  }

  /** The live leases in the file are those that their owners' latest events took. */
  ghost predicate LeasesMatchLog(shared: Shared, now: int) {
    && (forall l :: l in shared.leases && IsLive(l, now) ==>
          var e := LatestEvent(shared.log, l.sessionKey, l.ownerRef);
          e.Some? && IsLeaseOf(l, e.value))
    && (forall key, ownerRef :: StillRuns(LatestEvent(shared.log, key, ownerRef), now) ==>
          exists l :: l in shared.leases && IsLeaseOf(l, LatestEvent(shared.log, key, ownerRef).value))
  }

  ghost predicate Exclusive(shared: Shared, now: int) {
    UniqueKeys(shared.leases) && IsExclusive(shared.log) && LeasesMatchLog(shared, now)
  }

  lemma {:induction false} LatestAfter(log: seq<GuardEvent>, e: GuardEvent, key: string, ownerRef: string)
    ensures LatestEvent(log + [e], key, ownerRef)
            == if e.key == key && e.ownerRef == ownerRef then Some(e) else LatestEvent(log, key, ownerRef)
  {
    assert (log + [e])[..|log|] == log;
  }

  lemma {:induction false} NotFollowedUpIsLatest(log: seq<GuardEvent>, i: nat)
    requires i < |log| && !FollowedUp(log, i, |log|)
    ensures LatestEvent(log, log[i].key, log[i].ownerRef) == Some(log[i])
  {
    var before, last := log[..|log| - 1], log[|log| - 1];
    assert log == before + [last];
    if i < |log| - 1 {
      assert before[i] == log[i];
      FollowUpsStay(before, last, i, |before|);
      NotFollowedUpIsLatest(before, i);
      LatestAfter(before, last, log[i].key, log[i].ownerRef);
    }
  }

  lemma {:induction false} FollowUpsStay(log: seq<GuardEvent>, e: GuardEvent, i: nat, j: nat)
    requires i < j <= |log|
    ensures FollowedUp(log + [e], i, j) == FollowedUp(log, i, j)
    ensures FollowedUp(log + [e], i, |log| + 1) == (FollowedUp(log, i, |log|) || SameHolder(e, log[i]))
  {
    hide SameHolder;
    assert forall k :: 0 <= k < |log| ==> (log + [e])[k] == log[k];
    assert (log + [e])[|log|] == e;
    if k :| i < k < |log| && SameHolder(log[k], log[i]) {
      assert SameHolder((log + [e])[k], (log + [e])[i]);
    }
    if SameHolder(e, log[i]) {
      assert SameHolder((log + [e])[|log|], (log + [e])[i]);
    }
  }

  /** Which leases are in the file after an acquire. */
  lemma {:induction false} AcquireEffect(shared: Shared, ref: Ref, owner: string, ttl: Lifetime, now: int)
    requires UniqueKeys(shared.leases)
    ensures var (granted, after) := AcquireFor(shared, ref, owner, ttl, now);
            && UniqueKeys(after.leases)
            && (forall l :: l in after.leases <==>
                  || (granted && l == CreateLease(GuardSession(ref), owner, ttl, now))
                  || (l in shared.leases && IsLive(l, now) && (!granted || l.sessionKey != GuardKey(ref))))
            && (granted ==> forall l :: l in shared.leases && IsLive(l, now) && l.sessionKey == GuardKey(ref) ==> l.ownerRef == owner)
  {
    FindKeyFinds(LiveLeases(shared.leases, now), GuardKey(ref));
    hide FindKey, SessionKey, LiveLeases, WithoutKey;
  }

  lemma {:induction false} AcquireKeepsExclusive(shared: Shared, ref: Ref, owner: string, ttl: Lifetime, now: int)
    requires Exclusive(shared, now)
    ensures Exclusive(AcquireFor(shared, ref, owner, ttl, now).1, now)
  {
    AcquireEffect(shared, ref, owner, ttl, now);
    var (granted, after) := AcquireFor(shared, ref, owner, ttl, now);
    var e := KeyTaken(GuardKey(ref), owner, now, now + ttl);
    assert after.log == if granted then shared.log + [e] else shared.log;
    assert IsLeaseOf(CreateLease(GuardSession(ref), owner, ttl, now), e);
    hide SessionKey, JsonAcquire, AcquireFor, UniqueKeys;
    EventKeepsMatch(shared, after, e, now);
    if granted {
      GrantKeepsExclusion(shared, e, now);
    }
  }

  /** A key that is granted was not taken by another owner whose time still runs. */
  lemma {:induction false} GrantKeepsExclusion(shared: Shared, e: GuardEvent, now: int)
    requires IsExclusive(shared.log) && LeasesMatchLog(shared, now) && e.KeyTaken? && e.at == now
    requires forall l :: l in shared.leases && IsLive(l, now) && l.sessionKey == e.key ==> l.ownerRef == e.ownerRef
    ensures IsExclusive(shared.log + [e])
  {
    hide FollowedUp, LatestEvent;
    var after := shared.log + [e];
    forall i, j | 0 <= i < j < |after| && TakesOver(after[i], after[j])
      ensures FollowedUp(after, i, j)
    {
      FollowUpsStay(shared.log, e, i, j);
      if j == |shared.log| && !FollowedUp(shared.log, i, j) {
        NotFollowedUpIsLatest(shared.log, i);
      }
    }
  }

  /** `e` is what happened to its key, if anything did: it was taken, or freed by the owner that had it. */
  lemma {:induction false} EventKeepsMatch(shared: Shared, after: Shared, e: GuardEvent, now: int)
    requires LeasesMatchLog(shared, now)
    requires after.log in {shared.log, shared.log + [e]}
    requires var changed := after.log == shared.log + [e];
             && (forall l :: l in after.leases && IsLive(l, now) ==>
                  || (changed && IsLeaseOf(l, e)) || (l in shared.leases && (!changed || l.sessionKey != e.key)))
             && (forall l :: l in shared.leases && IsLive(l, now) && (!changed || l.sessionKey != e.key) ==> l in after.leases)
             && (changed && e.KeyTaken? ==> exists l :: l in after.leases && IsLeaseOf(l, e))
             && (changed ==> forall l :: l in shared.leases && IsLive(l, now) && l.sessionKey == e.key ==> l.ownerRef == e.ownerRef)
    ensures LeasesMatchLog(after, now)
  {
    hide LatestEvent;
    assert shared.log != shared.log + [e];
    forall key, ownerRef
      ensures LatestEvent(shared.log + [e], key, ownerRef)
              == if e.key == key && e.ownerRef == ownerRef then Some(e) else LatestEvent(shared.log, key, ownerRef)
    {
      LatestAfter(shared.log, e, key, ownerRef);
    }
  }

  lemma {:induction false} ReleaseKeepsExclusive(shared: Shared, ref: Ref, owner: string, now: int)
    requires Exclusive(shared, now)
    ensures Exclusive(ReleaseFor(shared, ref, owner, now), now)
  {
    ReleaseEffect(shared, ref, owner, now);
    var after := ReleaseFor(shared, ref, owner, now);
    var e := KeyFreed(GuardKey(ref), owner);
    hide SessionKey, JsonRelease, ReleaseFor, UniqueKeys, FollowedUp;
    EventKeepsMatch(shared, after, e, now);
    forall i, j | 0 <= i < j < |after.log| && TakesOver(after.log[i], after.log[j])
      ensures FollowedUp(after.log, i, j)
    {
      FollowUpsStay(shared.log, e, i, j);
    }
  }

  /** Which leases are in the file after a release. */
  lemma {:induction false} ReleaseEffect(shared: Shared, ref: Ref, owner: string, now: int)
    requires UniqueKeys(shared.leases)
    ensures var after := ReleaseFor(shared, ref, owner, now);
            var freed := after.log == shared.log + [KeyFreed(GuardKey(ref), owner)];
            && UniqueKeys(after.leases)
            && (freed || after.log == shared.log)
            && (forall l :: l in after.leases <==> l in shared.leases && IsLive(l, now) && (!freed || l.sessionKey != GuardKey(ref)))
            && (forall l :: l in shared.leases && IsLive(l, now) && l.sessionKey == GuardKey(ref) ==> (freed <==> l.ownerRef == owner))
  {
    FindKeyFinds(LiveLeases(shared.leases, now), GuardKey(ref));
    assert shared.log != shared.log + [KeyFreed(GuardKey(ref), owner)];
    hide FindKey, SessionKey, LiveLeases, WithoutKey;
  }

  lemma {:induction false} WaitKeepsExclusive(shared: Shared, now: int, later: int)
    requires Exclusive(shared, now) && now <= later
    ensures Exclusive(shared, later)
  {
    hide FollowedUp, LatestEvent;
  }

  lemma {:induction false} DrainKeepsExclusive(s: Session, shared: Shared, ds: seq<Delivery>, owner: string, now: int)
    requires Exclusive(shared, now)
    ensures Exclusive(DrainAll(s, shared, ds, owner, now).shared, now)
  {
    hide Exclusive, Deliver, Surrenders, ReleaseFor;
    if ds != [] {
      DrainKeepsExclusive(s, shared, ds[..|ds| - 1], owner, now);
      ReleaseKeepsExclusive(DrainAll(s, shared, ds[..|ds| - 1], owner, now).shared, s.ref, owner, now);
    }
  }

  lemma {:induction false} TickKeeps(sessions: seq<Session>, n: nat, shared: Shared, inbox: Inbox, owner: string,
          ttl: Lifetime, now: int)
    requires n <= |sessions| && Exclusive(shared, now)
    requires forall s :: s in sessions ==> IsTransitionLog(s)
    ensures var after := TickFirst(sessions, n, shared, inbox, owner, ttl, now);
            Exclusive(after.shared, now) && forall s :: s in after.sessions ==> IsTransitionLog(s)
  {
    hide Exclusive, IsTransitionLog, AcquireFor, DrainAll;
    if n > 0 {
      TickKeeps(sessions, n - 1, shared, inbox, owner, ttl, now);
      var before, s := TickFirst(sessions, n - 1, shared, inbox, owner, ttl, now), sessions[n - 1];
      var ds, renewed := WaitingFor(before.inbox, s.ref), AcquireFor(before.shared, s.ref, owner, ttl, now).1;
      TickSessionKeepsLog(s, before.shared, before.inbox, owner, ttl, now);
      AcquireKeepsExclusive(before.shared, s.ref, owner, ttl, now);
      DrainKeepsExclusive(s, before.shared, ds, owner, now);
      DrainKeepsExclusive(s, renewed, ds, owner, now);
    }
  }

  // ---- runs of any number of supervisors ----

  datatype World = World(clock: int, shared: Shared, supervisors: map<string, seq<Session>>)

  datatype Action =
    | Wait(milliseconds: nat)
    | Start(owner: string, ref: Ref, socketStarts: bool, ttl: Lifetime)
    | Stop(owner: string, ref: Ref, socketCloses: bool)
    | Tick(owner: string, inbox: Inbox, ttl: Lifetime)
    | Crash(owner: string)

  function SessionsOf(w: World, owner: string): seq<Session> {
    if owner in w.supervisors then w.supervisors[owner] else []
  }

  function Step(w: World, action: Action): World {
    match action
    case Wait(milliseconds) => w.(clock := w.clock + milliseconds)
    case Start(owner, ref, socketStarts, ttl) =>
      var a := StartSession(SessionsOf(w, owner), w.shared, ref, socketStarts, owner, ttl, w.clock);
      w.(shared := a.shared, supervisors := w.supervisors[owner := a.sessions])
    case Stop(owner, ref, socketCloses) =>
      var a := StopSession(SessionsOf(w, owner), w.shared, ref, socketCloses, owner, w.clock);
      w.(shared := a.shared, supervisors := w.supervisors[owner := a.sessions])
    case Tick(owner, inbox, ttl) =>
      var sessions := SessionsOf(w, owner);
      var a := TickFirst(sessions, |sessions|, w.shared, inbox, owner, ttl, w.clock);
      w.(shared := a.shared, supervisors := w.supervisors[owner := a.sessions])
    case Crash(owner) => w.(supervisors := w.supervisors - {owner})
  }

  function Run(clock: int, actions: seq<Action>): World {
    if actions == [] then World(clock, Shared([], []), map[])
    else Step(Run(clock, actions[..|actions| - 1]), actions[|actions| - 1])
  }

  ghost predicate Inv(w: World) {
    && Exclusive(w.shared, w.clock)
    && forall owner, s :: owner in w.supervisors && s in w.supervisors[owner] ==> IsTransitionLog(s)
  }

  lemma {:induction false} PutKeepsLogs(sessions: seq<Session>, s: Session)
    requires IsTransitionLog(s) && forall x :: x in sessions ==> IsTransitionLog(x)
    ensures forall x :: x in Put(sessions, s) ==> IsTransitionLog(x)
  {
    hide IndexOf, IsTransitionLog;
  }

  lemma {:induction false} StartKeeps(sessions: seq<Session>, shared: Shared, ref: Ref, socketStarts: bool,
          owner: string, ttl: Lifetime, now: int)
    requires Exclusive(shared, now)
    requires forall s :: s in sessions ==> IsTransitionLog(s)
    ensures var a := StartSession(sessions, shared, ref, socketStarts, owner, ttl, now);
            Exclusive(a.shared, now) && forall s :: s in a.sessions ==> IsTransitionLog(s)
  {
    hide Exclusive, AcquireFor, ReleaseFor, IndexOf, Put;
    AcquireKeepsExclusive(shared, ref, owner, ttl, now);
    ReleaseKeepsExclusive(AcquireFor(shared, ref, owner, ttl, now).1, ref, owner, now);
    PutKeepsLogs(sessions, Transition(NewSession(ref), STARTING, None, None));
    PutKeepsLogs(sessions, Transition(Transition(NewSession(ref), STARTING, None, None), DISCONNECTED, None, Some(START_FAILED)));
  }

  lemma {:induction false} StopKeeps(sessions: seq<Session>, shared: Shared, ref: Ref, socketCloses: bool,
          owner: string, now: int)
    requires Exclusive(shared, now)
    requires forall s :: s in sessions ==> IsTransitionLog(s)
    ensures var a := StopSession(sessions, shared, ref, socketCloses, owner, now);
            Exclusive(a.shared, now) && forall s :: s in a.sessions ==> IsTransitionLog(s)
  {
    hide Exclusive, ReleaseFor, IndexOf;
    ReleaseKeepsExclusive(shared, ref, owner, now);
    assert forall i :: 0 <= i < |sessions| ==> IsTransitionLog(sessions[i]);
  }

  lemma {:induction false} EveryRunKeepsInv(clock: int, actions: seq<Action>)
    ensures Inv(Run(clock, actions))
  {
    if actions != [] {
      var before := actions[..|actions| - 1];
      EveryRunKeepsInv(clock, before);
      var w := Run(clock, before);
      assert Run(clock, actions) == Step(w, actions[|actions| - 1]);
      hide Exclusive, IsTransitionLog, StartSession, StopSession, TickFirst, Run;
      match actions[|actions| - 1]
      case Wait(milliseconds) => WaitKeepsExclusive(w.shared, w.clock, w.clock + milliseconds);
      case Start(owner, ref, socketStarts, ttl) => StartKeeps(SessionsOf(w, owner), w.shared, ref, socketStarts, owner, ttl, w.clock);
      case Stop(owner, ref, socketCloses) => StopKeeps(SessionsOf(w, owner), w.shared, ref, socketCloses, owner, w.clock);
      case Tick(owner, inbox, ttl) => TickKeeps(SessionsOf(w, owner), |SessionsOf(w, owner)|, w.shared, inbox, owner, ttl, w.clock);
      case Crash(_) =>
    }
  }

  /**
   * In every run, whatever starts, stops, ticks, time-outs and crashes there are and whatever lease
   * times the owners use: when one key is granted to two owners in turn, the latest event of the first
   * on that key before the second's grant freed it, or took it for a time that had run out.
   */
  lemma {:induction false} KeyChangesHandsOnlyWhenFree(clock: int, actions: seq<Action>, i: nat, j: nat) returns (k: nat)
    requires i < j < |Run(clock, actions).shared.log|
    requires var log := Run(clock, actions).shared.log;
             log[i].KeyTaken? && log[j].KeyTaken? && log[i].key == log[j].key && log[i].ownerRef != log[j].ownerRef
    ensures var log := Run(clock, actions).shared.log;
            && i <= k < j && SameHolder(log[k], log[i])
            && (forall m :: k < m < j ==> !SameHolder(log[m], log[i]))
            && (log[k].KeyFreed? || log[k].until <= log[j].at)
  {
    EveryRunKeepsInv(clock, actions);
    hide Run, LeasesMatchLog, UniqueKeys;
    var log := Run(clock, actions).shared.log;
    k := j - 1;
    while !SameHolder(log[k], log[i])
      invariant i <= k < j && forall m :: k < m < j ==> !SameHolder(log[m], log[i])
      decreases k
    {
      k := k - 1;
    }
    assert !FollowedUp(log, k, j);
    assert !TakesOver(log[k], log[j]);
  }

  /**
   * In every run, a tick adds results for a session that it finds active only if no other owner has
   * the session's key live at that moment; it then holds the key's one lease, renewed until `ttl` later.
   */
  lemma {:induction false} EveryTickDrainsOnlyAsHolder(clock: int, actions: seq<Action>, owner: string,
          inbox: Inbox, ttl: Lifetime, i: nat)
    requires i < |SessionsOf(Run(clock, actions), owner)|
    requires SessionsOf(Run(clock, actions), owner)[i].state in {STARTING, QR_REQUIRED, PAIRING, CONNECTED, RECONNECTING}
    ensures var w := Run(clock, actions);
            var sessions := SessionsOf(w, owner);
            var s := sessions[i];
            var before := TickFirst(sessions, i, w.shared, inbox, owner, ttl, w.clock);
            var after := TickFirst(sessions, i + 1, w.shared, inbox, owner, ttl, w.clock);
            var current := JsonCurrentOwner(before.shared.leases, GuardSession(s.ref), w.clock);
            if current.Some? && current.value != owner then
              after.results == before.results && after.inbox == before.inbox && after.sessions[i].state == DISCONNECTED
            else
              var (granted, renewed) := AcquireFor(before.shared, s.ref, owner, ttl, w.clock);
              && granted && HoldsLease(renewed.leases, s.ref, owner, w.clock) && UniqueKeys(renewed.leases)
              && CreateLease(GuardSession(s.ref), owner, ttl, w.clock) in renewed.leases
              && after.results == before.results + DrainAll(s, renewed, WaitingFor(before.inbox, s.ref), owner, w.clock).results
  {
    EveryRunKeepsInv(clock, actions);
    var w := Run(clock, actions);
    var sessions := SessionsOf(w, owner);
    TickKeeps(sessions, i, w.shared, inbox, owner, ttl, w.clock);
    var before := TickFirst(sessions, i, w.shared, inbox, owner, ttl, w.clock);
    assert UniqueKeys(before.shared.leases);
    hide Run, SessionKey, JsonAcquire, JsonCurrentOwner, DrainAll, Exclusive, IsTransitionLog, UniqueKeys;
    ActiveSessionDrainsOnlyAsHolder(sessions[i], before.shared, before.inbox, owner, ttl, w.clock);
    AcquireEffect(before.shared, sessions[i].ref, owner, ttl, w.clock);
  }

  /** Every record of every supervisor keeps an orderly transition log. */
  lemma {:induction false} EveryRecordHasAnOrderlyLog(clock: int, actions: seq<Action>, owner: string,
          s: Session)
    requires s in SessionsOf(Run(clock, actions), owner)
    ensures IsTransitionLog(s)
  {
    EveryRunKeepsInv(clock, actions);
  }

  // ---- starting ----

  /**
   * A start succeeds exactly when this supervisor has no undestroyed record of the session, no other
   * owner has its key live, and the socket starts. It then holds the lease and shows STARTING; a
   * socket that does not start leaves the key free and the record DISCONNECTED; a refusal leaves the
   * records and the owner of the key as they were. The record takes the place of a destroyed one or
   * comes last, and all others stay.
   */
  lemma {:induction false} StartOutcome(sessions: seq<Session>, shared: Shared, ref: Ref, socketStarts: bool,
          owner: string, ttl: Lifetime, now: int)
    requires UniqueKeys(shared.leases)
    ensures var a := StartSession(sessions, shared, ref, socketStarts, owner, ttl, now);
            var i := IndexOf(sessions, SupervisorKey(ref));
            var current := JsonCurrentOwner(shared.leases, GuardSession(ref), now);
            var free := (i < 0 || sessions[i].state == DESTROYED) && (current.None? || current == Some(owner));
            if !free then
              && a.answer == Err(Failure("provider_runtime_supervisor_session_already_active", true, Runtime))
              && a.sessions == sessions && JsonCurrentOwner(a.shared.leases, GuardSession(ref), now) == current
            else
              var failure := Failure("provider_runtime_supervisor_start_failed", true, Provider);
              var record := if socketStarts then Session(ref, STARTING, [CREATED, STARTING], None, None)
                            else Session(ref, DISCONNECTED, [CREATED, STARTING, DISCONNECTED], None, Some(failure));
              && a.answer == (if socketStarts then Ok(record) else Err(failure))
              && a.sessions == (if i >= 0 then sessions[i := record] else sessions + [record])
              && (socketStarts ==> HoldsLease(a.shared.leases, ref, owner, now))
              && (!socketStarts ==> JsonCurrentOwner(a.shared.leases, GuardSession(ref), now).None?)
  {
    hide SessionKey, JsonAcquire, JsonRelease, JsonCurrentOwner, IndexOf;
    GrantedIff(shared, ref, owner, ttl, now);
    var (granted, leased) := AcquireFor(shared, ref, owner, ttl, now);
    assert [CREATED] + [STARTING] == [CREATED, STARTING];
    assert [CREATED, STARTING] + [DISCONNECTED] == [CREATED, STARTING, DISCONNECTED];
    if granted {
      assert HoldsLease(leased.leases, ref, owner, now);
      ReleasedKeyIsFree(leased, ref, owner, now);
    }
  }

  // ---- stopping ----

  /** A stop of a known session marks its record, DESTROYED or after a failed close DISCONNECTED, and no other. */
  lemma {:induction false} StopOutcome(sessions: seq<Session>, shared: Shared, ref: Ref, socketCloses: bool, owner: string, now: int)
    ensures var a := StopSession(sessions, shared, ref, socketCloses, owner, now);
            var i := IndexOf(sessions, SupervisorKey(ref));
            if i < 0 then
              && a.answer == Err(Failure("provider_runtime_supervisor_session_missing", false, Runtime))
              && a.sessions == sessions && a.shared == shared
            else
              var state, failure := if socketCloses then DESTROYED else DISCONNECTED,
                                    Failure("provider_runtime_supervisor_stop_failed", true, Provider);
              && |a.sessions| == |sessions| && (forall j :: 0 <= j < |sessions| && j != i ==> a.sessions[j] == sessions[j])
              && a.sessions[i].ref == sessions[i].ref && a.sessions[i].state == state
              && a.sessions[i].lastSignalRef == sessions[i].lastSignalRef
              && a.sessions[i].failure == (if socketCloses then None else Some(failure))
              && a.answer == (if socketCloses then Ok(a.sessions[i]) else Err(failure))
  {
    hide IndexOf, ReleaseFor;
  }

  /**
   * Whether the close succeeds or fails, a stop frees the lease of the session that its key finds exactly
   * when the guard keys agree; for the ids of one session that is when it names the session's provider.
   */
  lemma {:induction false} StopFreesLeaseIff(sessions: seq<Session>, shared: Shared, ref: Ref, socketCloses: bool,
          owner: string, now: int)
    requires UniqueKeys(shared.leases)
    requires var i := IndexOf(sessions, SupervisorKey(ref));
             i >= 0 && HoldsLease(shared.leases, sessions[i].ref, owner, now)
    ensures var s := sessions[IndexOf(sessions, SupervisorKey(ref))];
            var after := StopSession(sessions, shared, ref, socketCloses, owner, now).shared;
            && (!HoldsLease(after.leases, s.ref, owner, now) <==> GuardKey(s.ref) == GuardKey(ref))
            && (s.ref.instanceId == ref.instanceId && s.ref.sessionId == ref.sessionId ==>
                  (GuardKey(s.ref) == GuardKey(ref) <==> s.ref.providerId == ref.providerId))
  {
    var s := sessions[IndexOf(sessions, SupervisorKey(ref))];
    if s.ref.instanceId == ref.instanceId && s.ref.sessionId == ref.sessionId {
      GuardKeysAgreeIff(s.ref, ref);
    }
    ReleaseEndsHolding(shared, ref, owner, now);
    ReleaseEffect(shared, ref, owner, now);
    var after := ReleaseFor(shared, ref, owner, now);
    hide JsonCurrentOwner, SessionKey, ReleaseFor, IndexOf;
    OwnerOfKey(shared.leases, s.ref, now);
    OwnerOfKey(after.leases, s.ref, now);
    OwnerOfKey(after.leases, ref, now);
  }

  const FIRST_REF := Ref("instance_1", "provider_1", "session_1")
  const OTHER_PROVIDER := Ref("instance_1", "provider_2", "session_1")

  /** Started with one provider and stopped with another, a session is DESTROYED and keeps its lease. */
  lemma {:induction false} DestroyedButLeased(owner: string, ttl: Lifetime, now: int)
    ensures var started := StartSession([], Shared([], []), FIRST_REF, true, owner, ttl, now);
            var stopped := StopSession(started.sessions, started.shared, OTHER_PROVIDER, true, owner, now);
            && stopped.answer.Ok? && stopped.answer.value.ref == FIRST_REF && stopped.answer.value.state == DESTROYED
            && HoldsLease(stopped.shared.leases, FIRST_REF, owner, now)
  {
    StartAlone(FIRST_REF, owner, ttl, now);
    var started := StartSession([], Shared([], []), FIRST_REF, true, owner, ttl, now);
    ProvidersDiffer();
    hide JsonCurrentOwner, SessionKey, ReleaseFor, AcquireFor, StartSession, UniqueKeys;
    StopFreesLeaseIff(started.sessions, started.shared, OTHER_PROVIDER, true, owner, now);
  }

  lemma {:induction false} ProvidersDiffer()
    ensures SupervisorKey(FIRST_REF) == SupervisorKey(OTHER_PROVIDER) && FIRST_REF.providerId != OTHER_PROVIDER.providerId
  {
    assert "provider_1"[9] == '1' && "provider_2"[9] == '2';
  }

  lemma {:induction false} StartAlone(ref: Ref, owner: string, ttl: Lifetime, now: int)
    ensures var started := StartSession([], Shared([], []), ref, true, owner, ttl, now);
            && UniqueKeys(started.shared.leases) && HoldsLease(started.shared.leases, ref, owner, now)
            && started.sessions == [Transition(NewSession(ref), STARTING, None, None)]
  {
    OwnerOfKey([], ref, now);
    GrantedIff(Shared([], []), ref, owner, ttl, now);
    hide JsonCurrentOwner, SessionKey, AcquireFor, UniqueKeys;
  }

  /**
   * DESTROYED is left in two ways only: a new start of the same key, and a second stop whose close
   * fails, which turns the record DISCONNECTED and so lets ticks drain it again.
   */
  lemma {:induction false} DestroyedIsLeftIff(w: World, action: Action, owner: string, i: nat)
    requires i < |SessionsOf(w, owner)| && SessionsOf(w, owner)[i].state == DESTROYED
    requires action != Crash(owner)
    requires action.Start? && action.owner == owner ==>
               IndexOf(SessionsOf(w, owner), SupervisorKey(action.ref)) != i
    ensures i < |SessionsOf(Step(w, action), owner)|
    ensures var after := SessionsOf(Step(w, action), owner)[i];
            var reopened := action.Stop? && action.owner == owner && !action.socketCloses
                            && IndexOf(SessionsOf(w, owner), SupervisorKey(action.ref)) == i;
            after.state == if reopened then DISCONNECTED else DESTROYED
  {
    hide IndexOf, AcquireFor, ReleaseFor, DrainAll;
    if action.Tick? && action.owner == owner {
      var sessions := SessionsOf(w, owner);
      TickSkipsDestroyed(sessions, |sessions|, w.shared, action.inbox, owner, action.ttl, w.clock, i);
    }
  }

  /** Started, stopped, and stopped again by a close that fails: the record is DISCONNECTED. */
  lemma {:induction false} DestroyedComesBack(owner: string, ttl: Lifetime, now: int)
    ensures var started := StartSession([], Shared([], []), FIRST_REF, true, owner, ttl, now);
            var stopped := StopSession(started.sessions, started.shared, FIRST_REF, true, owner, now);
            var again := StopSession(stopped.sessions, stopped.shared, FIRST_REF, false, owner, now);
            && |stopped.sessions| == |again.sessions| == 1
            && stopped.sessions[0].state == DESTROYED && again.sessions[0].state == DISCONNECTED
  {
    StartAlone(FIRST_REF, owner, ttl, now);
    hide SessionKey, ReleaseFor, StartSession;
  }

  lemma {:induction false} TickSkipsDestroyed(sessions: seq<Session>, n: nat, shared: Shared, inbox: Inbox,
          owner: string, ttl: Lifetime, now: int, i: nat)
    requires i < n <= |sessions| && sessions[i].state == DESTROYED
    ensures TickFirst(sessions, n, shared, inbox, owner, ttl, now).sessions[i] == sessions[i]
  {
    hide AcquireFor, DrainAll;
    if i < n - 1 {
      TickSkipsDestroyed(sessions, n - 1, shared, inbox, owner, ttl, now, i);
    }
  }

  // ---- the supervisor object ----

  class ProviderRuntimeSupervisor {
    const ownerRef: string
    const guard: DurableJsonOwnershipGuard
    /** The session table, in insertion order. */
    var sessions: seq<Session>

    constructor (guard: DurableJsonOwnershipGuard, ownerRef: string)
      ensures this.guard == guard && this.ownerRef == ownerRef && sessions == []
    {
      this.guard := guard;
      this.ownerRef := ownerRef;
      sessions := [];
    }

    method Start(ref: Ref, socketStarts: bool, now: int) returns (r: Result<Session, Failure>)
      requires UniqueKeys(guard.leases)
      modifies this, guard
      ensures UniqueKeys(guard.leases)
      ensures var a := StartSession(old(sessions), Shared(old(guard.leases), []), ref, socketStarts, ownerRef, guard.ttl, now);
              r == a.answer && sessions == a.sessions && guard.leases == a.shared.leases
    {
      hide SessionKey, JsonAcquire, JsonRelease;
      var i := IndexOf(sessions, SupervisorKey(ref));
      if i >= 0 && sessions[i].state != DESTROYED {
        return Err(ALREADY_ACTIVE);
      }
      var ownership := guard.Acquire(GuardSession(ref), ownerRef, now);
      if !ownership.Granted? {
        return Err(ALREADY_ACTIVE);
      }
      var s := Transition(NewSession(ref), STARTING, None, None);
      if !socketStarts {
        sessions := Put(sessions, Transition(s, DISCONNECTED, None, Some(START_FAILED)));
        var _ := guard.Release(GuardSession(ref), ownerRef, now);
        return Err(START_FAILED);
      }
      sessions := Put(sessions, s);
      r := Ok(s);
    }

    method Stop(ref: Ref, socketCloses: bool, now: int) returns (r: Result<Session, Failure>)
      requires UniqueKeys(guard.leases)
      modifies this, guard
      ensures UniqueKeys(guard.leases)
      ensures var a := StopSession(old(sessions), Shared(old(guard.leases), []), ref, socketCloses, ownerRef, now);
              r == a.answer && sessions == a.sessions && guard.leases == a.shared.leases
    {
      hide SessionKey, JsonRelease;
      var i := IndexOf(sessions, SupervisorKey(ref));
      if i < 0 {
        return Err(SESSION_MISSING);
      }
      if !socketCloses {
        sessions := sessions[i := Transition(sessions[i], DISCONNECTED, None, Some(STOP_FAILED))];
        r := Err(STOP_FAILED);
      }
      var _ := guard.Release(GuardSession(ref), ownerRef, now);
      if socketCloses {
        sessions := sessions[i := Transition(sessions[i], DESTROYED, None, None)];
        r := Ok(sessions[i]);
      }
    }

    method Drain(s: Session, ds: seq<Delivery>, now: int, ghost shared: Shared)
      returns (session: Session, results: seq<DrainResult>, ghost after: Shared)
      requires UniqueKeys(guard.leases) && shared.leases == guard.leases
      modifies guard
      ensures Drained(session, after, results) == DrainAll(s, shared, ds, ownerRef, now)
      ensures UniqueKeys(guard.leases) && after.leases == guard.leases
    {
      hide SessionKey, JsonRelease, UniqueKeys, Deliver;
      session, results, after := s, [], shared;
      for i := 0 to |ds|
        invariant UniqueKeys(guard.leases) && after.leases == guard.leases
        invariant Drained(session, after, results) == DrainAll(s, shared, ds[..i], ownerRef, now)
        invariant session.ref == s.ref
      {
        assert ds[..i + 1][..i] == ds[..i];
        DrainKeepsIdentity(s, shared, ds[..i + 1], ownerRef, now);
        session := Deliver(session, ds[i]);
        if Surrenders(ds[i]) {
          after := ReleaseFor(after, s.ref, ownerRef, now);
          var _ := guard.Release(GuardSession(s.ref), ownerRef, now);
        }
        results := results + [ResultOf(ds[i], session.state)];
      }
      assert ds[..|ds|] == ds;
    }

    method Tick(inbox: Inbox, now: int) returns (results: seq<DrainResult>, waiting: Inbox)
      requires UniqueKeys(guard.leases)
      modifies this, guard
      ensures UniqueKeys(guard.leases)
      ensures var t := TickFirst(old(sessions), |old(sessions)|, Shared(old(guard.leases), []), inbox, ownerRef, guard.ttl, now);
              sessions == t.sessions && guard.leases == t.shared.leases && results == t.results && waiting == t.inbox
    {
      hide SessionKey, JsonAcquire, DrainAll, UniqueKeys;
      ghost var start, shared := sessions, Shared(guard.leases, []);
      results, waiting := [], inbox;
      for i := 0 to |sessions|
        invariant |sessions| == |start| && sessions[i..] == start[i..]
        invariant UniqueKeys(guard.leases) && shared.leases == guard.leases
        invariant Ticked(sessions[..i], shared, waiting, results)
                  == TickFirst(start, i, Shared(old(guard.leases), []), inbox, ownerRef, guard.ttl, now)
      {
        var s := sessions[i];
        assert s == sessions[i..][0] == start[i];
        assert sessions[i + 1..] == sessions[i..][1..] == start[i + 1..];
        if s.state != DESTROYED {
          var granted := true;
          if ShouldHoldOwnership(s.state) {
            shared := AcquireFor(shared, s.ref, ownerRef, guard.ttl, now).1;
            var renewal := guard.Acquire(GuardSession(s.ref), ownerRef, now);
            granted := renewal.Granted?;
          }
          if !granted {
            sessions := sessions[i := Transition(s, DISCONNECTED, None, Some(OWNERSHIP_LOST))];
          } else {
            var session, drained, after := Drain(s, WaitingFor(waiting, s.ref), now, shared);
            sessions := sessions[i := session];
            results, shared := results + drained, after;
            waiting := waiting - {s.ref.sessionId};
          }
        }
        assert sessions[..i + 1] == sessions[..i] + [sessions[i]];
      }
      assert sessions[..|sessions|] == sessions;
    }
  }
}
