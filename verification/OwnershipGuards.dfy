/** Session ownership by leases: the JSON-file guard, the PostgreSQL guard, and their agreement. */
module OwnershipGuards {
  import opened Collections
  import opened Text

  datatype SessionRef = SessionRef(instanceId: string, providerId: string, sessionId: Option<string>)

  datatype Lease = Lease(sessionKey: string, session: SessionRef, ownerRef: string, acquiredAt: int, expiresAt: int)

  datatype Decision = Granted | Refused(ownerRef: string)

  /** The lease time of a guard, in milliseconds; each guard has its own. */
  type Lifetime = n: nat | n > 0 witness 1

  function SessionKey(session: SessionRef): string {
    Join([session.instanceId, session.providerId,
          if session.sessionId.None? then "session:none" else session.sessionId.value], ':')
  }

  /** `now` is the reading of the clock that the record is built from. */
  function CreateLease(session: SessionRef, ownerRef: string, ttl: Lifetime, now: int): Lease {
    Lease(SessionKey(session), session, ownerRef, now, now + ttl)
  }

  predicate IsLive(lease: Lease, now: int) {
    lease.expiresAt > now
  }

  // ---- the JSON guard: a list of leases, rewritten as a whole ----

  function LiveLeases(leases: seq<Lease>, now: int): (r: seq<Lease>)
    ensures forall l :: l in r <==> l in leases && IsLive(l, now)
  {
    if leases == [] then []
    else (if IsLive(leases[0], now) then [leases[0]] else []) + LiveLeases(leases[1..], now)
  }

  function WithoutKey(leases: seq<Lease>, key: string): (r: seq<Lease>)
    ensures forall l :: l in r <==> l in leases && l.sessionKey != key
  {
    if leases == [] then []
    else (if leases[0].sessionKey != key then [leases[0]] else []) + WithoutKey(leases[1..], key)
  }

  function FindKey(leases: seq<Lease>, key: string): Option<Lease> {
    var i := FindIndex(leases, (l: Lease) => l.sessionKey == key);
    if i < 0 then None else Some(leases[i])
  }

  function JsonAcquire(leases: seq<Lease>, session: SessionRef, ownerRef: string, ttl: Lifetime,
          now: int): (Decision, seq<Lease>) {
    var live := LiveLeases(leases, now);
    var key := SessionKey(session);
    var existing := FindKey(live, key);
    if existing.Some? && existing.value.ownerRef != ownerRef then (Refused(existing.value.ownerRef), live)
    else (Granted, WithoutKey(live, key) + [CreateLease(session, ownerRef, ttl, now)])
  }

  function JsonRelease(leases: seq<Lease>, session: SessionRef, ownerRef: string, now: int): (bool, seq<Lease>) {
    var live := LiveLeases(leases, now);
    var key := SessionKey(session);
    var existing := FindKey(live, key);
    if existing.None? || existing.value.ownerRef != ownerRef then (false, live)
    else (true, WithoutKey(live, key))
  }

  function JsonCurrentOwner(leases: seq<Lease>, session: SessionRef, now: int): Option<string> {
    var lease := FindKey(LiveLeases(leases, now), SessionKey(session));
    if lease.None? then None else Some(lease.value.ownerRef)
  }

  // ---- the PostgreSQL guard: a table with the session key as its primary key ----

  type Table = map<string, Lease>

  function DeleteExpired(rows: Table, now: int): Table {
    map key | key in rows && IsLive(rows[key], now) :: rows[key]
  }

  /** INSERT .. ON CONFLICT DO UPDATE .. WHERE same owner or expired; true when a row was written. */
  function Upsert(rows: Table, lease: Lease, now: int): (bool, Table) {
    if lease.sessionKey !in rows
       || rows[lease.sessionKey].ownerRef == lease.ownerRef
       || rows[lease.sessionKey].expiresAt <= now
    then (true, rows[lease.sessionKey := lease])
    else (false, rows)
  }

  function SelectOwner(rows: Table, key: string, now: int): Option<string> {
    if key in rows && IsLive(rows[key], now) then Some(rows[key].ownerRef) else None
  }

  function DeleteOwned(rows: Table, key: string, ownerRef: string): (bool, Table) {
    if key in rows && rows[key].ownerRef == ownerRef then (true, rows - {key}) else (false, rows)
  }

  /** One acquire call run without interference and with one reading of the clock throughout. */
  function SqlAcquire(rows: Table, session: SessionRef, ownerRef: string, ttl: Lifetime, now: int): (Decision, Table) {
    var live := DeleteExpired(rows, now);
    var (acquired, after) := Upsert(live, CreateLease(session, ownerRef, ttl, now), now);
    if acquired then (Granted, after) else (Refused(live[SessionKey(session)].ownerRef), live)
  }

  function SqlCurrentOwner(rows: Table, session: SessionRef, now: int): Option<string> {
    SelectOwner(DeleteExpired(rows, now), SessionKey(session), now)
  }

  // ---- agreement of the two guards ----

  ghost predicate UniqueKeys(leases: seq<Lease>) {
    forall l, m :: l in leases && m in leases && l.sessionKey == m.sessionKey ==> l == m
  }

  /** The live leases of the file and of the table are the same, and no key has two. */
  ghost predicate SameLive(leases: seq<Lease>, rows: Table, now: int) {
    && UniqueKeys(leases)
    && (forall key :: key in rows ==> rows[key].sessionKey == key)
    && forall l :: IsLive(l, now) ==> (l in leases <==> l.sessionKey in rows && rows[l.sessionKey] == l)
  }

  lemma {:induction false} FindKeyFinds(leases: seq<Lease>, key: string)
    ensures FindKey(leases, key).Some? ==> FindKey(leases, key).value in leases && FindKey(leases, key).value.sessionKey == key
    ensures FindKey(leases, key).None? ==> forall l :: l in leases ==> l.sessionKey != key
  {
  }

  /** With the file and the table in agreement, looking a key up gives the same live lease. */
  lemma {:induction false} SameLookup(leases: seq<Lease>, rows: Table, key: string, now: int)
    requires SameLive(leases, rows, now)
    ensures FindKey(LiveLeases(leases, now), key) ==
            if key in rows && IsLive(rows[key], now) then Some(rows[key]) else None
    ensures SameLive(LiveLeases(leases, now), DeleteExpired(rows, now), now)
  {
    FindKeyFinds(LiveLeases(leases, now), key);
    hide FindKey, LiveLeases;
  }

  lemma {:induction false} AcquireAgrees(leases: seq<Lease>, rows: Table, session: SessionRef, ownerRef: string,
          ttl: Lifetime, now: int)
    requires SameLive(leases, rows, now)
    ensures var (json, leases') := JsonAcquire(leases, session, ownerRef, ttl, now);
            var (sql, rows') := SqlAcquire(rows, session, ownerRef, ttl, now);
            json == sql && SameLive(leases', rows', now)
  {
    hide FindKey, SessionKey, LiveLeases, WithoutKey;
    SameLookup(leases, rows, SessionKey(session), now);
  }

  lemma {:induction false} ReleaseAgrees(leases: seq<Lease>, rows: Table, session: SessionRef, ownerRef: string,
          now: int)
    requires SameLive(leases, rows, now)
    ensures var (json, leases') := JsonRelease(leases, session, ownerRef, now);
            var (sql, rows') := DeleteOwned(rows, SessionKey(session), ownerRef);
            && SameLive(leases', rows', now)
            && (json != sql <==>
                  var key := SessionKey(session);
                  key in rows && rows[key].ownerRef == ownerRef && !IsLive(rows[key], now))
            && (json != sql ==> sql)
  {
    hide FindKey, SessionKey, LiveLeases, WithoutKey;
    SameLookup(leases, rows, SessionKey(session), now);
  }

  /** A lease that has run out and is still in the table is such a case. */
  lemma {:induction false} ExpiredReleaseDiffers(session: SessionRef, ownerRef: string, ttl: Lifetime, made: int)
    ensures var lease := CreateLease(session, ownerRef, ttl, made);
            var leases, rows, now := [lease], map[lease.sessionKey := lease], made + ttl;
            && SameLive(leases, rows, now)
            && !JsonRelease(leases, session, ownerRef, now).0
            && DeleteOwned(rows, SessionKey(session), ownerRef).0
  {
    hide SessionKey;
    var lease := CreateLease(session, ownerRef, ttl, made);
    ReleaseAgrees([lease], map[lease.sessionKey := lease], session, ownerRef, made + ttl);
  }

  // ---- runs of calls, one at a time ----

  datatype Call =
    | Acquire(session: SessionRef, ownerRef: string)
    | Release(session: SessionRef, ownerRef: string)
    | CurrentOwner(session: SessionRef)

  datatype Answer = Decided(decision: Decision) | Released(released: bool) | Owner(ownerRef: Option<string>)

  /** One call with its clock reading and the lease time of the guard it is made on. */
  datatype Timed = Timed(call: Call, now: int, ttl: Lifetime)

  function JsonCall(leases: seq<Lease>, step: Timed): (Answer, seq<Lease>) {
    match step.call
    case Acquire(session, owner) =>
      var (d, after) := JsonAcquire(leases, session, owner, step.ttl, step.now); (Decided(d), after)
    case Release(session, owner) =>
      var (r, after) := JsonRelease(leases, session, owner, step.now); (Released(r), after)
    case CurrentOwner(session) =>
      (Owner(JsonCurrentOwner(leases, session, step.now)), LiveLeases(leases, step.now))
  }

  function SqlCall(rows: Table, step: Timed): (Answer, Table) {
    match step.call
    case Acquire(session, owner) =>
      var (d, after) := SqlAcquire(rows, session, owner, step.ttl, step.now); (Decided(d), after)
    case Release(session, owner) =>
      var (r, after) := DeleteOwned(rows, SessionKey(session), owner); (Released(r), after)
    case CurrentOwner(session) =>
      (Owner(SqlCurrentOwner(rows, session, step.now)), DeleteExpired(rows, step.now))
  }

  function JsonRun(steps: seq<Timed>): seq<Lease> {
    if steps == [] then [] else JsonCall(JsonRun(steps[..|steps| - 1]), steps[|steps| - 1]).1
  }

  function SqlRun(steps: seq<Timed>): Table {
    if steps == [] then map[] else SqlCall(SqlRun(steps[..|steps| - 1]), steps[|steps| - 1]).1
  }

  ghost predicate ClockNeverGoesBack(steps: seq<Timed>) {
    forall i, j :: 0 <= i < j < |steps| ==> steps[i].now <= steps[j].now
  }

  /** The call releases a lease of this owner that has run out and is still in the table. */
  predicate ReleasesExpired(rows: Table, step: Timed) {
    && step.call.Release?
    && var key := SessionKey(step.call.session);
       key in rows && rows[key].ownerRef == step.call.ownerRef && !IsLive(rows[key], step.now)
  }

  lemma {:induction false} OneCallAgrees(leases: seq<Lease>, rows: Table, step: Timed)
    requires SameLive(leases, rows, step.now)
    ensures var (json, leases') := JsonCall(leases, step);
            var (sql, rows') := SqlCall(rows, step);
            && SameLive(leases', rows', step.now)
            && (json != sql <==> ReleasesExpired(rows, step))
            && (json != sql ==> json == Released(false) && sql == Released(true))
  {
    hide FindKey, SessionKey, LiveLeases, WithoutKey, DeleteExpired, JsonAcquire, SqlAcquire, DeleteOwned, JsonRelease, SameLive;
    match step.call
    case Acquire(session, owner) => AcquireAgrees(leases, rows, session, owner, step.ttl, step.now);
    case Release(session, owner) =>
      ReleaseAgrees(leases, rows, session, owner, step.now);
    case CurrentOwner(session) =>
      SameLookup(leases, rows, SessionKey(session), step.now);
      SelectAfterDelete(rows, SessionKey(session), step.now);
  }

  lemma {:induction false} SelectAfterDelete(rows: Table, key: string, now: int)
    ensures SelectOwner(DeleteExpired(rows, now), key, now) == SelectOwner(rows, key, now)
  {
  }

  lemma {:induction false} LiveLater(leases: seq<Lease>, rows: Table, now: int, later: int)
    requires SameLive(leases, rows, now) && now <= later
    ensures SameLive(leases, rows, later)
  {
  }

  /**
   * Any run of calls, one at a time: the guards hold the same live leases and give the same
   * answers, except exactly where the SQL release also reports an expired lease it had to delete.
   */
  lemma {:induction false} GuardsAgree(steps: seq<Timed>, now: int)
    requires ClockNeverGoesBack(steps)
    requires forall i :: 0 <= i < |steps| ==> steps[i].now <= now
    ensures SameLive(JsonRun(steps), SqlRun(steps), now)
    ensures steps != [] ==>
              var before, last := steps[..|steps| - 1], steps[|steps| - 1];
              var json := JsonCall(JsonRun(before), last).0;
              var sql := SqlCall(SqlRun(before), last).0;
              && (json != sql <==> ReleasesExpired(SqlRun(before), last))
              && (json != sql ==> json == Released(false) && sql == Released(true))
    decreases |steps|
  {
    if steps != [] {
      var before, last := steps[..|steps| - 1], steps[|steps| - 1];
      GuardsAgree(before, last.now);
      OneCallAgrees(JsonRun(before), SqlRun(before), last);
      LiveLater(JsonRun(steps), SqlRun(steps), last.now, now);
    }
  }

  // ---- the guard objects ----

  class DurableJsonOwnershipGuard {
    /** The content of the state file. */
    var leases: seq<Lease>
    const ttl: Lifetime

    constructor (ttl: Lifetime)
      ensures leases == [] && this.ttl == ttl
    {
      leases := [];
      this.ttl := ttl;
    }

    method ReadWithoutExpiredLeases(now: int) returns (live: seq<Lease>)
      modifies this
      ensures live == leases == LiveLeases(old(leases), now)
    {
      live := LiveLeases(leases, now);
      if |live| != |leases| {
        leases := live;
      }
      NothingExpired(old(leases), now);
    }

    method Acquire(session: SessionRef, ownerRef: string, now: int) returns (decision: Decision)
      requires UniqueKeys(leases)
      modifies this
      ensures (decision, leases) == JsonAcquire(old(leases), session, ownerRef, ttl, now)
      ensures UniqueKeys(leases)
      ensures decision.Granted? <==> CreateLease(session, ownerRef, ttl, now) in leases
    {
      hide SessionKey;
      var live := ReadWithoutExpiredLeases(now);
      var key := SessionKey(session);
      var existing := FindKey(live, key);
      FindKeyFinds(live, key);
      if existing.Some? && existing.value.ownerRef != ownerRef {
        return Refused(existing.value.ownerRef);
      }
      leases := WithoutKey(live, key) + [CreateLease(session, ownerRef, ttl, now)];
      decision := Granted;
    }

    method Release(session: SessionRef, ownerRef: string, now: int) returns (released: bool)
      requires UniqueKeys(leases)
      modifies this
      ensures (released, leases) == JsonRelease(old(leases), session, ownerRef, now)
      ensures UniqueKeys(leases)
      ensures released ==> JsonCurrentOwner(leases, session, now).None?
    {
      hide SessionKey;
      var live := ReadWithoutExpiredLeases(now);
      var key := SessionKey(session);
      var existing := FindKey(live, key);
      FindKeyFinds(live, key);
      if existing.None? || existing.value.ownerRef != ownerRef {
        return false;
      }
      leases := WithoutKey(live, key);
      FindKeyFinds(LiveLeases(leases, now), key);
      released := true;
    }
  }

  lemma {:induction false} NothingExpired(leases: seq<Lease>, now: int)
    ensures |LiveLeases(leases, now)| <= |leases|
    ensures |LiveLeases(leases, now)| == |leases| ==> LiveLeases(leases, now) == leases
  {
    if leases != [] {
      NothingExpired(leases[1..], now);
    }
  }

  class PostgresqlOwnershipGuard {
    /** The lease table. */
    var rows: Table
    const ttl: Lifetime

    constructor (ttl: Lifetime)
      ensures rows == map[] && this.ttl == ttl
    {
      rows := map[];
      this.ttl := ttl;
    }

    method DeleteExpiredLeases(now: int)
      modifies this
      ensures rows == DeleteExpired(old(rows), now)
    {
      rows := DeleteExpired(rows, now);
    }

    method TryAcquireLease(lease: Lease, now: int) returns (acquired: bool)
      modifies this
      ensures (acquired, rows) == Upsert(old(rows), lease, now)
    {
      acquired := true;
      if lease.sessionKey in rows {
        var row := rows[lease.sessionKey];
        acquired := row.ownerRef == lease.ownerRef || row.expiresAt <= now;
      }
      if acquired {
        rows := rows[lease.sessionKey := lease];
      }
    }

    method CurrentOwner(session: SessionRef, now: int) returns (owner: Option<string>)
      modifies this
      ensures rows == DeleteExpired(old(rows), now)
      ensures owner == SqlCurrentOwner(old(rows), session, now)
    {
      DeleteExpiredLeases(now);
      owner := SelectOwner(rows, SessionKey(session), now);
    }

    /** Without interference the owner of the refusing row is found, so the call never starts over. */
    method Acquire(session: SessionRef, ownerRef: string, now: int) returns (decision: Decision)
      modifies this
      ensures (decision, rows) == SqlAcquire(old(rows), session, ownerRef, ttl, now)
      ensures decision.Granted? ==> SqlCurrentOwner(rows, session, now) == Some(ownerRef)
    {
      hide SessionKey;
      DeleteExpiredLeases(now);
      var lease := CreateLease(session, ownerRef, ttl, now);
      var acquired := TryAcquireLease(lease, now);
      if acquired {
        return Granted;
      }
      assert DeleteExpired(rows, now) == rows;
      var owner := CurrentOwner(session, now);
      decision := Refused(owner.value);
    }

    method Release(session: SessionRef, ownerRef: string) returns (released: bool)
      modifies this
      ensures (released, rows) == DeleteOwned(old(rows), SessionKey(session), ownerRef)
    {
      var key := SessionKey(session);
      released := key in rows && rows[key].ownerRef == ownerRef;
      if released {
        rows := rows - {key};
      }
    }
  }
}
