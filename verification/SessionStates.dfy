/** What a tick does to a session in each of its states, and where each signal leads. */
module SessionStates {
  import opened Collections
  import opened Text
  import opened OwnershipGuards
  import opened SessionKeys
  import opened Supervisor

  // ---- signals, by the last segment of their reference ----

  const AUTH_STATES := map["qr_required" := QR_REQUIRED, "pairing" := PAIRING, "authenticated" := CONNECTED]

  const CONNECTION_STATES := map["connecting" := STARTING, "connected" := CONNECTED, "reconnecting" := RECONNECTING,
                                 "logged_out" := LOGGED_OUT, "disconnected" := DISCONNECTED]

  /** The references of one code: the code alone, or after any segments. */
  ghost predicate IsReferenceTo(signalRef: string, code: string) {
    !Contains(code, '.') && (signalRef == code || exists head: nat :: IsHeadOf(signalRef, code, head))
  }

  predicate IsHeadOf(signalRef: string, code: string, head: nat) {
    head + 1 + |code| == |signalRef| && signalRef[head] == '.' && signalRef[head + 1..] == code
  }

  lemma {:induction false} CodeOfReference(signalRef: string, code: string)
    requires IsReferenceTo(signalRef, code)
    ensures LastSegment(signalRef) == code
  {
    SplitToken(code, "", '.');
    if signalRef != code {
      var head: nat :| IsHeadOf(signalRef, code, head);
      hide Split, Contains;
      assert signalRef == signalRef[..head] + ['.'] + code;
      SplitOfConcat(signalRef[..head], code, '.');
    }
  }

  /** Every reference has one code: what follows its last point. */
  lemma {:induction false} CodeIsTail(signalRef: string)
    ensures IsReferenceTo(signalRef, LastSegment(signalRef))
    decreases |signalRef|
  {
    var n := TokenLength(signalRef, '.');
    if n == |signalRef| {
      OneSegment(signalRef);
    } else {
      CodeIsTail(signalRef[n + 1..]);
      FirstSegmentDropped(signalRef, n);
      CodeBehind(signalRef, n, LastSegment(signalRef));
    }
  }

  lemma {:induction false} OneSegment(signalRef: string)
    requires TokenLength(signalRef, '.') == |signalRef|
    ensures IsReferenceTo(signalRef, signalRef) && LastSegment(signalRef) == signalRef
  {
    assert signalRef[..|signalRef|] == signalRef;
  }

  lemma {:induction false} FirstSegmentDropped(signalRef: string, n: nat)
    requires n == TokenLength(signalRef, '.') < |signalRef|
    ensures LastSegment(signalRef) == LastSegment(signalRef[n + 1..])
  {
    var rest := signalRef[n + 1..];
    assert Split(signalRef, '.') == [signalRef[..n]] + Split(rest, '.');
    assert |Split(rest, '.')| > 0;
    hide Split, TokenLength;
  }

  lemma {:induction false} CodeBehind(signalRef: string, n: nat, code: string)
    requires n < |signalRef| && signalRef[n] == '.' && IsReferenceTo(signalRef[n + 1..], code)
    ensures IsReferenceTo(signalRef, code)
  {
    hide Contains;
    var rest := signalRef[n + 1..];
    if rest == code {
      assert IsHeadOf(signalRef, code, n);
    } else {
      var head: nat :| IsHeadOf(rest, code, head);
      assert rest[head + 1..] == signalRef[n + 1 + head + 1..];
      assert IsHeadOf(signalRef, code, n + 1 + head);
    }
  }

  /**
   * After a batch the supervisor holds the key exactly if it did before and the batch has no ingested
   * failure signal with the code of a replaced connection.
   */
  lemma {:induction false} BatchKeepsLeaseIff(s: Session, shared: Shared, ds: seq<Delivery>, owner: string, now: int)
    requires UniqueKeys(shared.leases)
    ensures HoldsLease(DrainAll(s, shared, ds, owner, now).shared.leases, s.ref, owner, now)
            <==> && HoldsLease(shared.leases, s.ref, owner, now)
                 && !exists i :: 0 <= i < |ds| && ds[i].eventId.Some? && ds[i].signal.kind == FailureSignal
                                 && IsReferenceTo(ds[i].signal.signalRef, "connection_replaced")
  {
    hide DrainAll, HoldsLease, UniqueKeys, Surrenders;
    DrainKeepsLeaseIff(s, shared, ds, owner, now);
    forall i | 0 <= i < |ds|
      ensures Surrenders(ds[i])
              <==> ds[i].eventId.Some? && ds[i].signal.kind == FailureSignal && IsReferenceTo(ds[i].signal.signalRef, "connection_replaced")
    {
      SurrendersIff(ds[i]);
    }
  }

  lemma {:induction false} SurrendersIff(d: Delivery)
    ensures Surrenders(d)
            <==> d.eventId.Some? && d.signal.kind == FailureSignal && IsReferenceTo(d.signal.signalRef, "connection_replaced")
  {
    CodeIsTail(d.signal.signalRef);
    hide LastSegment, IsReferenceTo;
    if IsReferenceTo(d.signal.signalRef, "connection_replaced") {
      CodeOfReference(d.signal.signalRef, "connection_replaced");
    }
  }

  /**
   * One ingested signal: auth and connection signals lead to the state of their code and leave an unknown
   * code's session where it is, without a failure; failure signals lead to LOGGED_OUT or DISCONNECTED and
   * leave their failure; any other signal is only remembered. A signal that is not ingested leaves
   * DISCONNECTED and the failure of the ingress.
   */
  lemma {:induction false} DeliveryOutcome(s: Session, signal: Signal, code: string, eventId: Option<string>)
    requires IsReferenceTo(signal.signalRef, code)
    ensures var after := Deliver(s, Delivery(signal, eventId));
            && after.ref == s.ref && after.lastSignalRef == Some(signal.signalRef)
            && after.transitions == (if after.state == s.state then s.transitions else s.transitions + [after.state])
            && if eventId.None? then
                 after.state == DISCONNECTED && after.failure == Some(Failure("provider_runtime_supervisor_ingress_failed", true, Ingress))
               else match signal.kind
                 case Auth => after.failure.None? && after.state == if code in AUTH_STATES then AUTH_STATES[code] else s.state
                 case Connection =>
                   after.failure.None? && after.state == if code in CONNECTION_STATES then CONNECTION_STATES[code] else s.state
                 case FailureSignal =>
                   && after.state == (if code == "logged_out" then LOGGED_OUT else DISCONNECTED)
                   && after.failure == Some(Failure("provider_signal_" + code, code !in {"logged_out", "connection_replaced"}, Provider))
                 case OtherSignal => after.failure == s.failure && after.state == s.state
  {
    CodeOfReference(signal.signalRef, code);
    hide LastSegment, IsReferenceTo, StateFromSignal;
    AuthOutcome(signal, code, s.state);
    ConnectionOutcome(signal, code, s.state);
    FailureOutcome(signal, code, s.state);
  }

  lemma {:induction false} AuthOutcome(signal: Signal, code: string, current: SessionState)
    requires LastSegment(signal.signalRef) == code
    ensures signal.kind.Auth? ==> StateFromSignal(signal, current) == Some(if code in AUTH_STATES then AUTH_STATES[code] else current)
  {
    hide LastSegment;
  }

  lemma {:induction false} ConnectionOutcome(signal: Signal, code: string, current: SessionState)
    requires LastSegment(signal.signalRef) == code
    ensures signal.kind.Connection? ==>
              StateFromSignal(signal, current) == Some(if code in CONNECTION_STATES then CONNECTION_STATES[code] else current)
  {
    hide LastSegment;
  }

  lemma {:induction false} FailureOutcome(signal: Signal, code: string, current: SessionState)
    requires LastSegment(signal.signalRef) == code
    ensures signal.kind.FailureSignal? ==>
              StateFromSignal(signal, current) == Some(if code == "logged_out" then LOGGED_OUT else DISCONNECTED)
    ensures signal.kind.OtherSignal? ==> StateFromSignal(signal, current).None?
  {
    hide LastSegment;
  }

  // ---- states ----

  /** Sessions that are not active are drained without asking for the lease, whoever has it; destroyed ones are left alone. */
  lemma {:induction false} InactiveSessionTakesNoLease(s: Session, shared: Shared, inbox: Inbox, owner: string, ttl: Lifetime, now: int)
    requires s.state in {CREATED, DISCONNECTED, LOGGED_OUT, DESTROYED}
    ensures var (out, rest) := TickSession(s, shared, inbox, owner, ttl, now);
            if s.state == DESTROYED then out == Drained(s, shared, []) && rest == inbox
            else
              && out == DrainAll(s, shared, WaitingFor(inbox, s.ref), owner, now)
              && rest == inbox - {s.ref.sessionId}
              && shared.log <= out.shared.log
              && forall i :: |shared.log| <= i < |out.shared.log| ==> out.shared.log[i].KeyFreed?
  {
    if s.state != DESTROYED {
      DrainTakesNothing(s, shared, WaitingFor(inbox, s.ref), owner, now);
    }
    hide DrainAll, AcquireFor;
  }

  lemma {:induction false} DrainTakesNothing(s: Session, shared: Shared, ds: seq<Delivery>, owner: string, now: int)
    ensures var after := DrainAll(s, shared, ds, owner, now).shared.log;
            && shared.log <= after
            && forall i :: |shared.log| <= i < |after| ==> after[i].KeyFreed?
  {
    hide JsonRelease, Surrenders, Deliver;
    if ds != [] {
      DrainTakesNothing(s, shared, ds[..|ds| - 1], owner, now);
    }
  }
}
