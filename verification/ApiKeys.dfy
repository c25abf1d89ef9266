/**
 * API keys: provisioning, revoking and rotating them in the in-memory store and in the durable store,
 * which order the records differently, and verifying a presented key against the records.
 */
module ApiKeys {
  import opened Collections
  import opened Text

  datatype Status = Active | Revoked

  /** `credential` stands for the rest of the credential: kind, scopes and allowed instances. */
  datatype Record = Record(keyHash: string, keyId: string, credential: string, status: Status, rotatedFrom: Option<string>,
                           createdAt: string, updatedAt: string, revokedAt: Option<string>, revocationReason: Option<string>)

  datatype Failure = KeyIdExists | EmptyKey | SecretRegistered | NotFound | NotActive | EmptyField

  /** `hashApiKey` after normalization. */
  type KeyHash = string -> string

  // ---- records ----

  /** Optional texts are stored trimmed; `None` when one is empty and the freeze throws. */
  function FreezeRecord(r: Record): Option<Record> {
    if (r.rotatedFrom.Some? && Trim(r.rotatedFrom.value) == "") || (r.revocationReason.Some? && Trim(r.revocationReason.value) == "")
    then None
    else Some(r.(rotatedFrom := if r.rotatedFrom.Some? then Some(Trim(r.rotatedFrom.value)) else None,
                 revocationReason := if r.revocationReason.Some? then Some(Trim(r.revocationReason.value)) else None))
  }

  function NewRecord(keyHash: string, keyId: string, credential: string, rotatedFrom: Option<string>,
          at: string): Record {
    Record(keyHash, keyId, credential, Active, rotatedFrom, at, at, None, None)
  }

  function RevokedRecord(current: Record, at: string, reason: Option<string>): Record {
    current.(status := Revoked, updatedAt := at, revokedAt := Some(at),
             revocationReason := if reason.Some? then reason else current.revocationReason)
  }

  // ---- the two stores ----

  datatype StoreKind = InMemory | DurableJson

  function IndexOf(rs: seq<Record>, keyId: string): (i: int)
    ensures -1 <= i < |rs|
    ensures i >= 0 ==> rs[i].keyId == keyId
    ensures i < 0 ==> forall r :: r in rs ==> r.keyId != keyId
  {
    FindIndex(rs, (r: Record) => r.keyId == keyId)
  }

  function Load(rs: seq<Record>, keyId: string): (found: Option<Record>)
    ensures found.Some? ==> found.value in rs && found.value.keyId == keyId
    ensures found.None? ==> forall r :: r in rs ==> r.keyId != keyId
  {
    var i := IndexOf(rs, keyId);
    if i < 0 then None else Some(rs[i])
  }

  function Without(rs: seq<Record>, keyId: string): (r: seq<Record>)
    ensures forall x :: x in r <==> x in rs && x.keyId != keyId
  {
    if rs == [] then []
    else (if rs[0].keyId != keyId then [rs[0]] else []) + Without(rs[1..], keyId)
  }

  /** The map keeps the place of a known key; the file writes the saved record last. */
  function Save(kind: StoreKind, rs: seq<Record>, r: Record): seq<Record> {
    match kind
    case InMemory => var i := IndexOf(rs, r.keyId); if i >= 0 then rs[i := r] else rs + [r]
    case DurableJson => Without(rs, r.keyId) + [r]
  }

  predicate HashRegistered(rs: seq<Record>, keyHash: string) {
    exists r :: r in rs && r.keyHash == keyHash
  }

  // ---- the service ----

  datatype Operation =
    | Provision(key: string, keyId: string, credential: string, at: string)
    | Revoke(keyId: string, reason: Option<string>, at: string)
    | Rotate(keyId: string, nextKey: string, nextKeyId: string, nextCredential: string, reason: Option<string>, at: string, stops: bool)

  /** `Interrupted`: the process stopped between the two saves of a rotation. */
  datatype Answer = Saved(record: Record) | Rotated(revoked: Record, replacement: Record) | Interrupted | Failed(failure: Failure)

  function ApplyProvision(kind: StoreKind, rs: seq<Record>, key: string, keyId: string, credential: string,
          at: string, hash: KeyHash)
    : (Answer, seq<Record>)
  {
    if Load(rs, keyId).Some? then (Failed(KeyIdExists), rs)
    else if Trim(key) == "" then (Failed(EmptyKey), rs)
    else if HashRegistered(rs, hash(Trim(key))) then (Failed(SecretRegistered), rs)
    else
      var record := NewRecord(hash(Trim(key)), keyId, credential, None, at);
      (Saved(record), Save(kind, rs, record))
  }

  function ApplyRevoke(kind: StoreKind, rs: seq<Record>, keyId: string, reason: Option<string>,
          at: string): (Answer, seq<Record>) {
    var current := Load(rs, keyId);
    if current.None? then (Failed(NotFound), rs)
    else if current.value.status.Revoked? then (Saved(current.value), rs)
    else
      var revoked := FreezeRecord(RevokedRecord(current.value, at, reason));
      if revoked.None? then (Failed(EmptyField), rs)
      else (Saved(revoked.value), Save(kind, rs, revoked.value))
  }

  function ApplyRotate(kind: StoreKind, rs: seq<Record>, keyId: string, nextKey: string, nextKeyId: string,
          nextCredential: string,
                       reason: Option<string>, at: string, stops: bool, hash: KeyHash): (Answer, seq<Record>)
  {
    var current := Load(rs, keyId);
    if current.None? then (Failed(NotFound), rs)
    else if !current.value.status.Active? then (Failed(NotActive), rs)
    else if Load(rs, nextKeyId).Some? then (Failed(KeyIdExists), rs)
    else if Trim(nextKey) == "" then (Failed(EmptyKey), rs)
    else if HashRegistered(rs, hash(Trim(nextKey))) then (Failed(SecretRegistered), rs)
    else
      var revoked := FreezeRecord(RevokedRecord(current.value, at, if reason.Some? then reason else Some("rotated")));
      var replacement := FreezeRecord(NewRecord(hash(Trim(nextKey)), nextKeyId, nextCredential, Some(current.value.keyId), at));
      if revoked.None? || replacement.None? then (Failed(EmptyField), rs)
      else
        var once := Save(kind, rs, revoked.value);
        if stops then (Interrupted, once)
        else (Rotated(revoked.value, replacement.value), Save(kind, once, replacement.value))
  }

  function Apply(kind: StoreKind, rs: seq<Record>, op: Operation, hash: KeyHash): (Answer, seq<Record>) {
    match op
    case Provision(key, keyId, credential, at) => ApplyProvision(kind, rs, key, keyId, credential, at, hash)
    case Revoke(keyId, reason, at) => ApplyRevoke(kind, rs, keyId, reason, at)
    case Rotate(keyId, nextKey, nextKeyId, nextCredential, reason, at, stops) =>
      ApplyRotate(kind, rs, keyId, nextKey, nextKeyId, nextCredential, reason, at, stops, hash)
  }

  function Run(kind: StoreKind, ops: seq<Operation>, hash: KeyHash): seq<Record> {
    if ops == [] then [] else Apply(kind, Run(kind, ops[..|ops| - 1], hash), ops[|ops| - 1], hash).1
  }

  // ---- uniqueness and lineages, on the in-memory order, which is the order of creation ----

  ghost predicate UniqueKeys(rs: seq<Record>) {
    forall i, j :: 0 <= i < j < |rs| ==> rs[i].keyId != rs[j].keyId && rs[i].keyHash != rs[j].keyHash
  }

  /** Record `j` replaced record `i`. */
  predicate IsParent(rs: seq<Record>, i: nat, j: nat)
    requires i < |rs| && j < |rs|
  {
    rs[j].rotatedFrom == Some(rs[i].keyId)
  }

  ghost predicate HasOlderParent(rs: seq<Record>, j: nat)
    requires j < |rs|
  {
    exists i :: 0 <= i < j && IsParent(rs, i, j) && rs[i].status.Revoked?
  }

  /** Links lead to an older, revoked record, and no record is replaced twice. */
  ghost predicate LinksInOrder(rs: seq<Record>) {
    && (forall j :: 0 <= j < |rs| && rs[j].rotatedFrom.Some? ==> HasOlderParent(rs, j))
    && (forall i, j :: 0 <= i < j < |rs| && rs[i].rotatedFrom.Some? ==> rs[i].rotatedFrom != rs[j].rotatedFrom)
  }

  ghost predicate Inv(rs: seq<Record>) {
    UniqueKeys(rs) && LinksInOrder(rs)
  }

  /** `after` is `before` revoked: same id, hash, credential and link. */
  predicate IsRevocationOf(before: Record, after: Record) {
    && after.status.Revoked? && after.keyId == before.keyId && after.keyHash == before.keyHash
    && after.credential == before.credential && after.rotatedFrom == before.rotatedFrom
  }

  lemma {:induction false} RevokingKeepsInv(rs: seq<Record>, r: Record)
    requires Inv(rs) && Load(rs, r.keyId).Some? && IsRevocationOf(Load(rs, r.keyId).value, r)
    ensures Inv(Save(InMemory, rs, r))
  {
    var k, after := IndexOf(rs, r.keyId), Save(InMemory, rs, r);
    assert after == rs[k := r];
    forall j | 0 <= j < |after| && after[j].rotatedFrom.Some? ensures HasOlderParent(after, j) {
      assert HasOlderParent(rs, j);
      var i :| 0 <= i < j && IsParent(rs, i, j) && rs[i].status.Revoked?;
      assert IsParent(after, i, j);
    }
  }

  lemma {:induction false} AddingKeepsInv(rs: seq<Record>, r: Record)
    requires Inv(rs) && Load(rs, r.keyId).None? && !HashRegistered(rs, r.keyHash)
    requires r.rotatedFrom.Some? ==> Load(rs, r.rotatedFrom.value).Some? && Load(rs, r.rotatedFrom.value).value.status.Revoked?
    requires r.rotatedFrom.Some? ==> forall x :: x in rs ==> x.rotatedFrom != r.rotatedFrom
    ensures Inv(Save(InMemory, rs, r))
  {
    var after := rs + [r];
    assert Save(InMemory, rs, r) == after;
    forall i | 0 <= i < |rs| ensures rs[i].keyId != r.keyId && rs[i].keyHash != r.keyHash {
      assert rs[i] in rs;
    }
    forall j | 0 <= j < |after| && after[j].rotatedFrom.Some? ensures HasOlderParent(after, j) {
      if j < |rs| {
        assert HasOlderParent(rs, j);
        var i :| 0 <= i < j && IsParent(rs, i, j) && rs[i].status.Revoked?;
        assert IsParent(after, i, j);
      } else {
        assert IsParent(after, IndexOf(rs, r.rotatedFrom.value), j);
      }
    }
  }

  /** Nothing links to an active record. */
  lemma {:induction false} ActiveHasNoReplacement(rs: seq<Record>, current: Record)
    requires Inv(rs) && current in rs && current.status.Active?
    ensures forall x :: x in rs ==> x.rotatedFrom != Some(current.keyId)
  {
    forall j | 0 <= j < |rs| ensures rs[j].rotatedFrom != Some(current.keyId) {
      if rs[j].rotatedFrom.Some? {
        assert HasOlderParent(rs, j);
      }
    }
  }

  predicate IsTrimmed(op: Operation) {
    match op
    case Provision(_, keyId, _, _) => Trim(keyId) == keyId
    case Revoke(_, _, _) => true
    case Rotate(_, _, nextKeyId, _, _, _, _) => Trim(nextKeyId) == nextKeyId
  }

  /** The ids of the records are trimmed, and so are the links, as the freeze leaves them. */
  ghost predicate AllTrimmed(rs: seq<Record>) {
    forall r :: r in rs ==>
      && Trim(r.keyId) == r.keyId
      && (r.rotatedFrom.Some? ==> Trim(r.rotatedFrom.value) == r.rotatedFrom.value && r.rotatedFrom.value != "")
      && (r.revocationReason.Some? ==> Trim(r.revocationReason.value) == r.revocationReason.value)
  }

  lemma {:induction false} TrimIdempotent(s: string)
    ensures Trim(Trim(s)) == Trim(s)
  {
    var start := TrimStart(s);
    var t := TrimEnd(start);
    assert t != "" ==> t[0] == start[0];
    hide TrimStart, TrimEnd;
    TrimKeepsSolid(t);
  }

  lemma {:induction false} FrozenRevocation(current: Record, at: string, reason: Option<string>)
    requires current.rotatedFrom.Some? ==> Trim(current.rotatedFrom.value) == current.rotatedFrom.value
    ensures var frozen := FreezeRecord(RevokedRecord(current, at, reason));
            frozen.Some? ==> IsRevocationOf(current, frozen.value)
  {
  }

  lemma {:induction false} MembersOfSave(kind: StoreKind, rs: seq<Record>, r: Record)
    requires UniqueKeys(rs)
    ensures forall x :: x in Save(kind, rs, r) <==> x == r || (x in rs && x.keyId != r.keyId)
  {
    if kind.InMemory? {
      var i, after := IndexOf(rs, r.keyId), Save(kind, rs, r);
      if i >= 0 {
        assert after[i] == r;
        forall x | x in rs && x.keyId != r.keyId ensures x in after {
          var j :| 0 <= j < |rs| && rs[j] == x;
          assert after[j] == x;
        }
        assert forall j :: 0 <= j < |rs| && j != i ==> after[j] == rs[j] && rs[j].keyId != r.keyId;
      }
    }
  }

  lemma {:induction false} RevokeKeepsInv(rs: seq<Record>, keyId: string, reason: Option<string>, at: string)
    requires Inv(rs) && AllTrimmed(rs)
    ensures Inv(ApplyRevoke(InMemory, rs, keyId, reason, at).1) && AllTrimmed(ApplyRevoke(InMemory, rs, keyId, reason, at).1)
  {
    hide Trim, Save, Inv, IndexOf;
    var current := Load(rs, keyId);
    if current.Some? {
      var revoked := FreezeRecord(RevokedRecord(current.value, at, reason));
      if revoked.Some? {
        if reason.Some? { TrimIdempotent(reason.value); }
        FrozenRevocation(current.value, at, reason);
        RevokingKeepsInv(rs, revoked.value);
        SaveKeepsTrimmed(rs, revoked.value);
      }
    }
  }

  lemma {:induction false} SaveKeepsTrimmed(rs: seq<Record>, r: Record)
    requires Inv(rs) && AllTrimmed(rs) && AllTrimmed([r])
    ensures AllTrimmed(Save(InMemory, rs, r))
  {
    MembersOfSave(InMemory, rs, r);
    assert r in [r];
    hide Save, Trim;
  }

  lemma {:induction false} ProvisionKeepsInv(rs: seq<Record>, key: string, keyId: string, credential: string,
          at: string, hash: KeyHash)
    requires Inv(rs) && AllTrimmed(rs) && Trim(keyId) == keyId
    ensures var after := ApplyProvision(InMemory, rs, key, keyId, credential, at, hash).1;
            Inv(after) && AllTrimmed(after)
  {
    hide Trim, Save, Inv, IndexOf, Load, HashRegistered;
    if Load(rs, keyId).None? && Trim(key) != "" && !HashRegistered(rs, hash(Trim(key))) {
      var record := NewRecord(hash(Trim(key)), keyId, credential, None, at);
      AddingKeepsInv(rs, record);
      SaveKeepsTrimmed(rs, record);
    }
  }

  lemma {:induction false} RotateKeepsInv(rs: seq<Record>, keyId: string, nextKey: string, nextKeyId: string,
          nextCredential: string, reason: Option<string>, at: string, stops: bool, hash: KeyHash)
    requires Inv(rs) && AllTrimmed(rs) && Trim(nextKeyId) == nextKeyId
    ensures var after := ApplyRotate(InMemory, rs, keyId, nextKey, nextKeyId, nextCredential, reason, at, stops, hash).1;
            Inv(after) && AllTrimmed(after)
  {
    hide Trim, Save, Inv, IndexOf, HashRegistered;
    var current := Load(rs, keyId);
    if current.Some? && current.value.status.Active? && Load(rs, nextKeyId).None? && !HashRegistered(rs, hash(Trim(nextKey))) {
      var why := if reason.Some? then reason else Some("rotated");
      var revoked := FreezeRecord(RevokedRecord(current.value, at, why));
      var replacement := FreezeRecord(NewRecord(hash(Trim(nextKey)), nextKeyId, nextCredential, Some(current.value.keyId), at));
      if revoked.Some? && replacement.Some? {
        TrimIdempotent(why.value);
        FrozenRevocation(current.value, at, why);
        RevokingKeepsInv(rs, revoked.value);
        SaveKeepsTrimmed(rs, revoked.value);
        ReplacementKeepsInv(rs, current.value, revoked.value, replacement.value);
      }
    }
  }

  lemma {:induction false} ReplacementKeepsInv(rs: seq<Record>, current: Record, revoked: Record, replacement: Record)
    requires Inv(rs) && Load(rs, current.keyId) == Some(current) && current.status.Active? && IsRevocationOf(current, revoked)
    requires var once := Save(InMemory, rs, revoked); Inv(once) && AllTrimmed(once)
    requires replacement.rotatedFrom == Some(current.keyId) && Load(rs, replacement.keyId).None? && !HashRegistered(rs, replacement.keyHash)
    requires AllTrimmed([replacement])
    ensures var twice := Save(InMemory, Save(InMemory, rs, revoked), replacement);
            Inv(twice) && AllTrimmed(twice)
  {
    ActiveHasNoReplacement(rs, current);
    MembersOfSave(InMemory, rs, revoked);
    hide Trim, Save, IndexOf, LinksInOrder;
    var once := Save(InMemory, rs, revoked);
    assert revoked in once;
    UniqueLoad(once, revoked);
    AddingKeepsInv(once, replacement);
    SaveKeepsTrimmed(once, replacement);
  }

  lemma {:induction false} UniqueLoad(rs: seq<Record>, r: Record)
    requires UniqueKeys(rs) && r in rs
    ensures Load(rs, r.keyId) == Some(r)
  {
  }

  /** In every run with trimmed key ids, ids and hashes stay unique and the links stay in order. */
  lemma {:induction false} EveryRunKeepsInv(ops: seq<Operation>, hash: KeyHash)
    requires forall i :: 0 <= i < |ops| ==> IsTrimmed(ops[i])
    ensures Inv(Run(InMemory, ops, hash)) && AllTrimmed(Run(InMemory, ops, hash))
  {
    hide Trim, ApplyProvision, ApplyRevoke, ApplyRotate;
    if ops != [] {
      var rs := Run(InMemory, ops[..|ops| - 1], hash);
      EveryRunKeepsInv(ops[..|ops| - 1], hash);
      hide Inv, AllTrimmed;
      assert IsTrimmed(ops[|ops| - 1]);
      match ops[|ops| - 1]
      case Provision(key, keyId, credential, at) => ProvisionKeepsInv(rs, key, keyId, credential, at, hash);
      case Revoke(keyId, reason, at) => RevokeKeepsInv(rs, keyId, reason, at);
      case Rotate(keyId, nextKey, nextKeyId, nextCredential, reason, at, stops) =>
        RotateKeepsInv(rs, keyId, nextKey, nextKeyId, nextCredential, reason, at, stops, hash);
    }
  }

  // ---- lineages ----

  /** Following the links back from record `i`, ever to an older one, ends at the first key of its lineage. */
  function ParentOf(rs: seq<Record>, j: nat): (i: int)
    requires j < |rs|
    ensures -1 <= i < j
    ensures i >= 0 ==> IsParent(rs, i, j)
  {
    if rs[j].rotatedFrom.None? then -1
    else
      var i := IndexOf(rs[..j], rs[j].rotatedFrom.value);
      assert i >= 0 ==> rs[..j][i] == rs[i];
      i
  }

  function Root(rs: seq<Record>, j: nat): (r: nat)
    requires j < |rs|
    ensures r <= j
    decreases j
  {
    var i := ParentOf(rs, j);
    if i < 0 then j else Root(rs, i)
  }

  /** A key that replaced another is of its lineage, and a key without a link begins one. */
  lemma {:induction false} LineageFollowsLinks(rs: seq<Record>, i: nat, j: nat)
    requires Inv(rs) && i < |rs| && j < |rs|
    ensures IsParent(rs, i, j) ==> Root(rs, j) == Root(rs, i)
    ensures rs[j].rotatedFrom.None? ==> Root(rs, j) == j
  {
    if IsParent(rs, i, j) {
      ParentIsRevoked(rs, i, j);
    }
  }

  lemma {:induction false} ParentIsRevoked(rs: seq<Record>, i: nat, j: nat)
    requires Inv(rs) && i < |rs| && j < |rs| && IsParent(rs, i, j)
    ensures rs[i].status.Revoked? && i < j && ParentOf(rs, j) == i
  {
    assert HasOlderParent(rs, j);
    var k :| 0 <= k < j && IsParent(rs, k, j) && rs[k].status.Revoked?;
    assert rs[k].keyId == rs[i].keyId;
    assert rs[..j][k].keyId == rs[j].rotatedFrom.value;
  }

  /** Of two records of one lineage the older one was replaced. */
  lemma {:induction false} OlderWasReplaced(rs: seq<Record>, i: nat, j: nat) returns (child: nat)
    requires Inv(rs) && i < j < |rs| && Root(rs, i) == Root(rs, j)
    ensures i < child <= j && IsParent(rs, i, child)
    decreases i + j
  {
    hide LinksInOrder, UniqueKeys;
    var parent := ParentOf(rs, j);
    assert parent >= 0;
    child := j;
    if parent > i {
      child := OlderWasReplaced(rs, i, parent);
    } else if parent < i {
      var other := OlderWasReplaced(rs, parent, i);
      ReplacedOnce(rs, parent, other, j);
    }
  }

  lemma {:induction false} ReplacedOnce(rs: seq<Record>, i: nat, a: nat, b: nat)
    requires Inv(rs) && i < |rs| && a < |rs| && b < |rs| && IsParent(rs, i, a) && IsParent(rs, i, b)
    ensures a == b
  {
  }

  /** In every run with trimmed key ids, each lineage has at most one active key: its newest. */
  lemma {:induction false} OneActiveKeyPerLineage(ops: seq<Operation>, hash: KeyHash, i: nat, j: nat)
    requires forall k :: 0 <= k < |ops| ==> IsTrimmed(ops[k])
    requires i < |Run(InMemory, ops, hash)| && j < |Run(InMemory, ops, hash)|
    requires Root(Run(InMemory, ops, hash), i) == Root(Run(InMemory, ops, hash), j)
    requires Run(InMemory, ops, hash)[i].status.Active?
    ensures j <= i
    ensures Run(InMemory, ops, hash)[j].status.Active? ==> i == j
  {
    EveryRunKeepsInv(ops, hash);
    var rs := Run(InMemory, ops, hash);
    hide Run, Inv, Root;
    if i < j {
      var child := OlderWasReplaced(rs, i, j);
      ParentIsRevoked(rs, i, child);
    } else if j < i {
      var child := OlderWasReplaced(rs, j, i);
      ParentIsRevoked(rs, j, child);
    }
  }

  /** A replacement names the key it replaced exactly when that key's id was trimmed. */
  lemma {:induction false} LinkNamesParentIff(kind: StoreKind, rs: seq<Record>, op: Operation, hash: KeyHash)
    requires op.Rotate? && Apply(kind, rs, op, hash).0.Rotated?
    ensures Apply(kind, rs, op, hash).0.replacement.rotatedFrom == Some(op.keyId) <==> Trim(op.keyId) == op.keyId
  {
    hide Trim, HashRegistered, IndexOf;
  }

  /** Without trimming the links can branch: these calls leave two keys that both name "a" as the key they replaced. */
  const BRANCHING_RUN: seq<Operation> :=
    [Provision("1", "a", "", "t"), Provision("2", " a", "", "t"),
     Rotate("a", "3", "b", "", None, "t", false), Rotate(" a", "4", "c", "", None, "t", false)]

  lemma {:induction false} RunOfFour(kind: StoreKind, a: Operation, b: Operation, c: Operation, d: Operation,
          hash: KeyHash)
    ensures Run(kind, [a, b, c, d], hash)
            == Apply(kind, Apply(kind, Apply(kind, Apply(kind, [], a, hash).1, b, hash).1, c, hash).1, d, hash).1
  {
    hide Apply;
    assert [a, b, c, d][..3] == [a, b, c] && [a, b, c][..2] == [a, b] && [a, b][..1] == [a] && [a][..0] == [];
    assert Run(kind, [], hash) == [];
    assert Run(kind, [a], hash) == Apply(kind, [], a, hash).1;
    assert Run(kind, [a, b], hash) == Apply(kind, Run(kind, [a], hash), b, hash).1;
    assert Run(kind, [a, b, c], hash) == Apply(kind, Run(kind, [a, b], hash), c, hash).1;
  }

  lemma {:induction false} SmallTrims()
    ensures Trim("1") == "1" && Trim("2") == "2" && Trim("3") == "3" && Trim("4") == "4"
    ensures Trim("a") == "a" && Trim(" a") == "a" && Trim("rotated") == "rotated"
  {
    hide Trim;
    TrimKeepsSolid("1");
    TrimKeepsSolid("2");
    TrimKeepsSolid("3");
    TrimKeepsSolid("4");
    TrimKeepsSolid("a");
    TrimKeepsSolid("rotated");
    TrimDropsSpace("a");
    assert [' '] + "a" == " a";
  }

  const ONE := NewRecord("1", "a", "", None, "t")
  const TWO := NewRecord("2", " a", "", None, "t")

  lemma {:induction false} FirstKeys(hash: KeyHash)
    requires forall s: string :: hash(s) == s
    ensures Apply(InMemory, [], BRANCHING_RUN[0], hash).1 == [ONE]
    ensures Apply(InMemory, [ONE], BRANCHING_RUN[1], hash).1 == [ONE, TWO]
  {
    SmallTrims();
    hide Trim;
  }

  lemma {:induction false} FirstRotation(hash: KeyHash)
    requires forall s: string :: hash(s) == s
    ensures Apply(InMemory, [ONE, TWO], BRANCHING_RUN[2], hash).1
            == [RevokedRecord(ONE, "t", Some("rotated")), TWO, NewRecord("3", "b", "", Some("a"), "t")]
  {
    SmallTrims();
    hide Trim, FindIndex;
  }

  lemma {:induction false} SecondRotation(hash: KeyHash)
    requires forall s: string :: hash(s) == s
    ensures Apply(InMemory, [RevokedRecord(ONE, "t", Some("rotated")), TWO, NewRecord("3", "b", "", Some("a"), "t")],
                  BRANCHING_RUN[3], hash).1
            == [RevokedRecord(ONE, "t", Some("rotated")), RevokedRecord(TWO, "t", Some("rotated")),
                NewRecord("3", "b", "", Some("a"), "t"), NewRecord("4", "c", "", Some("a"), "t")]
  {
    SmallTrims();
    hide Trim, FindIndex;
  }

  lemma {:induction false} LinksCanBranch()
    ensures var rs := Run(InMemory, BRANCHING_RUN, (s: string) => s);
            && |rs| == 4 && rs[2].keyId != rs[3].keyId
            && rs[2].rotatedFrom == rs[3].rotatedFrom == Some("a")
  {
    var hash := (s: string) => s;
    FirstKeys(hash);
    FirstRotation(hash);
    SecondRotation(hash);
    hide Apply, Run;
    RunOfFour(InMemory, BRANCHING_RUN[0], BRANCHING_RUN[1], BRANCHING_RUN[2], BRANCHING_RUN[3], hash);
  }

  // ---- nothing is undone ----

  /** Every record of `before` is still there, with its hash, credential and link, and revoked if it was. */
  ghost predicate Extends(before: seq<Record>, after: seq<Record>) {
    forall r :: r in before ==> exists x :: x in after && (x == r || IsRevocationOf(r, x))
  }

  lemma {:induction false} ExtendsTransitive(a: seq<Record>, b: seq<Record>, c: seq<Record>)
    requires Extends(a, b) && Extends(b, c)
    ensures Extends(a, c)
  {
    forall r | r in a ensures exists x :: x in c && (x == r || IsRevocationOf(r, x)) {
      var y :| y in b && (y == r || IsRevocationOf(r, y));
      var x :| x in c && (x == y || IsRevocationOf(y, x));
      assert x in c && (x == r || IsRevocationOf(r, x));
    }
  }

  lemma {:induction false} Unchanged(rs: seq<Record>)
    ensures Extends(rs, rs)
  {
  }

  /** Links are stored trimmed, whatever the key ids. */
  ghost predicate LinksTrimmed(rs: seq<Record>) {
    forall r :: r in rs && r.rotatedFrom.Some? ==> Trim(r.rotatedFrom.value) == r.rotatedFrom.value
  }

  ghost predicate Sound(rs: seq<Record>) {
    UniqueKeys(rs) && LinksTrimmed(rs)
  }

  /** A save either adds a record with a new id and hash, or revokes the one with its id. */
  ghost predicate IsSoundSave(rs: seq<Record>, r: Record) {
    && (r.rotatedFrom.Some? ==> Trim(r.rotatedFrom.value) == r.rotatedFrom.value)
    && if Load(rs, r.keyId).None? then !HashRegistered(rs, r.keyHash) else IsRevocationOf(Load(rs, r.keyId).value, r)
  }

  lemma {:induction false} SoundSave(kind: StoreKind, rs: seq<Record>, r: Record)
    requires Sound(rs) && IsSoundSave(rs, r)
    ensures Sound(Save(kind, rs, r)) && Extends(rs, Save(kind, rs, r))
    ensures forall x :: x in Save(kind, rs, r) <==> x == r || (x in rs && x.keyId != r.keyId)
  {
    MembersOfSave(kind, rs, r);
    SoundSaveIsUnique(kind, rs, r);
    hide Save, IndexOf, Trim, UniqueKeys;
    forall x | x in rs ensures exists y :: y in Save(kind, rs, r) && (y == x || IsRevocationOf(x, y)) {
      assert x in rs;
      if x.keyId == r.keyId {
        UniqueLoad(rs, x);
        assert r in Save(kind, rs, r);
      } else {
        assert x in Save(kind, rs, r);
      }
    }
  }

  lemma {:induction false} SoundSaveIsUnique(kind: StoreKind, rs: seq<Record>, r: Record)
    requires Sound(rs) && IsSoundSave(rs, r)
    ensures UniqueKeys(Save(kind, rs, r))
  {
    hide Save, Trim;
    assert forall x :: x in rs && x.keyId != r.keyId ==> x.keyHash != r.keyHash;
    UniqueAfterSave(kind, rs, r);
  }

  lemma {:induction false} FrozenLink(r: Record)
    ensures FreezeRecord(r).Some? && r.rotatedFrom.Some? ==>
              var link := FreezeRecord(r).value.rotatedFrom;
              link == Some(Trim(r.rotatedFrom.value)) && Trim(link.value) == link.value
    ensures FreezeRecord(r).Some? ==> FreezeRecord(r).value.keyId == r.keyId && FreezeRecord(r).value.keyHash == r.keyHash
    ensures FreezeRecord(r).Some? && r.rotatedFrom.None? ==> FreezeRecord(r).value.rotatedFrom.None?
  {
    if r.rotatedFrom.Some? {
      TrimIdempotent(r.rotatedFrom.value);
    }
    hide Trim;
  }

  lemma {:induction false} RevocationIsSound(rs: seq<Record>, current: Record, at: string, reason: Option<string>)
    requires Sound(rs) && current in rs
    ensures var r := FreezeRecord(RevokedRecord(current, at, reason));
            r.Some? ==> IsRevocationOf(current, r.value) && IsSoundSave(rs, r.value)
  {
    FrozenRevocation(current, at, reason);
    FrozenLink(RevokedRecord(current, at, reason));
    UniqueLoad(rs, current);
    hide Trim, UniqueKeys, FreezeRecord;
  }

  /** A rotation is two saves: the revocation, and then a key with a new id and hash and the trimmed link. */
  lemma {:induction false} RotationSaves(kind: StoreKind, rs: seq<Record>, op: Operation, hash: KeyHash)
    returns (revoked: Record, replacement: Record)
    requires Sound(rs) && op.Rotate? && !Apply(kind, rs, op, hash).0.Failed?
    ensures Load(rs, op.keyId).Some? && IsRevocationOf(Load(rs, op.keyId).value, revoked) && IsSoundSave(rs, revoked)
    ensures var once := Save(kind, rs, revoked);
            && Load(once, replacement.keyId).None? && IsSoundSave(once, replacement)
            && replacement.rotatedFrom == Some(Trim(op.keyId))
            && Apply(kind, rs, op, hash).1 == if op.stops then once else Save(kind, once, replacement)
    ensures Apply(kind, rs, op, hash).0 == if op.stops then Interrupted else Rotated(revoked, replacement)
  {
    hide Trim, Save, IndexOf, HashRegistered, UniqueKeys, FreezeRecord;
    var current := Load(rs, op.keyId).value;
    var why := if op.reason.Some? then op.reason else Some("rotated");
    var next := NewRecord(hash(Trim(op.nextKey)), op.nextKeyId, op.nextCredential, Some(current.keyId), op.at);
    revoked := FreezeRecord(RevokedRecord(current, op.at, why)).value;
    replacement := FreezeRecord(next).value;
    RevocationIsSound(rs, current, op.at, why);
    FrozenLink(next);
    SoundSave(kind, rs, revoked);
    NewAfterRevocation(rs, Save(kind, rs, revoked), current, revoked, replacement);
  }

  lemma {:induction false} NewAfterRevocation(rs: seq<Record>, once: seq<Record>, current: Record, revoked: Record, next: Record)
    requires current in rs && IsRevocationOf(current, revoked)
    requires forall x :: x in once <==> x == revoked || (x in rs && x.keyId != revoked.keyId)
    requires Load(rs, next.keyId).None? && !HashRegistered(rs, next.keyHash)
    ensures Load(once, next.keyId).None? && !HashRegistered(once, next.keyHash)
  {
    hide IndexOf;
    assert forall x :: x in rs ==> x.keyHash != next.keyHash && x.keyId != next.keyId;
  }

  lemma {:induction false} ApplyIsSound(kind: StoreKind, rs: seq<Record>, op: Operation, hash: KeyHash)
    requires Sound(rs)
    ensures Sound(Apply(kind, rs, op, hash).1) && Extends(rs, Apply(kind, rs, op, hash).1)
  {
    var (answer, after) := Apply(kind, rs, op, hash);
    hide Trim, Save, IndexOf, HashRegistered, Sound, Extends, FreezeRecord;
    Unchanged(rs);
    match op
    case Provision(key, keyId, credential, at) =>
      if !answer.Failed? {
        SoundSave(kind, rs, NewRecord(hash(Trim(key)), keyId, credential, None, at));
      }
    case Revoke(keyId, reason, at) =>
      if after != rs {
        RevocationIsSound(rs, Load(rs, keyId).value, at, reason);
        SoundSave(kind, rs, FreezeRecord(RevokedRecord(Load(rs, keyId).value, at, reason)).value);
      }
    case Rotate(_, _, _, _, _, _, stops) =>
      if !answer.Failed? {
        RotateIsSound(kind, rs, op, hash);
      }
  }

  lemma {:induction false} RotateIsSound(kind: StoreKind, rs: seq<Record>, op: Operation, hash: KeyHash)
    requires Sound(rs) && op.Rotate? && !Apply(kind, rs, op, hash).0.Failed?
    ensures Sound(Apply(kind, rs, op, hash).1) && Extends(rs, Apply(kind, rs, op, hash).1)
  {
    hide Apply, Trim, Save, Sound, Extends, IsSoundSave, Load;
    var revoked, replacement := RotationSaves(kind, rs, op, hash);
    var once := Save(kind, rs, revoked);
    SoundSave(kind, rs, revoked);
    SoundSave(kind, once, replacement);
    ExtendsTransitive(rs, once, Save(kind, once, replacement));
  }

  /** In every run over either store, whatever the key ids, ids and hashes are unique and links are trimmed. */
  lemma {:induction false} EveryRunIsSound(kind: StoreKind, ops: seq<Operation>, hash: KeyHash)
    ensures Sound(Run(kind, ops, hash))
  {
    if ops != [] {
      hide Apply, Sound;
      EveryRunIsSound(kind, ops[..|ops| - 1], hash);
      ApplyIsSound(kind, Run(kind, ops[..|ops| - 1], hash), ops[|ops| - 1], hash);
    }
  }

  /** Over either store, whatever follows: no record vanishes or changes its hash, and no revocation is undone. */
  lemma {:induction false} NothingIsUndone(kind: StoreKind, ops: seq<Operation>, more: seq<Operation>, hash: KeyHash)
    ensures Extends(Run(kind, ops, hash), Run(kind, ops + more, hash))
    decreases |more|
  {
    hide Extends, Apply;
    if more == [] {
      assert ops + more == ops;
      Unchanged(Run(kind, ops, hash));
    } else {
      var all, last := ops + more[..|more| - 1], more[|more| - 1];
      assert (ops + more)[..|ops + more| - 1] == all && (ops + more)[|ops + more| - 1] == last;
      NothingIsUndone(kind, ops, more[..|more| - 1], hash);
      EveryRunIsSound(kind, all, hash);
      ApplyIsSound(kind, Run(kind, all, hash), last, hash);
      ExtendsTransitive(Run(kind, ops, hash), Run(kind, all, hash), Run(kind, ops + more, hash));
    }
  }

  // ---- when rotation links branch ----

  /** Two keys claim to have replaced the same key. */
  ghost predicate Branches(rs: seq<Record>) {
    exists x, y :: x in rs && y in rs && x.keyId != y.keyId && x.rotatedFrom.Some? && x.rotatedFrom == y.rotatedFrom
  }

  predicate HasLink(rs: seq<Record>, link: string) {
    exists x :: x in rs && x.rotatedFrom == Some(link)
  }

  /** A completed rotation makes the first branch exactly when some key already names the trimmed id. */
  lemma {:induction false} RotationBranchesIff(kind: StoreKind, rs: seq<Record>, op: Operation, hash: KeyHash)
    requires Sound(rs) && op.Rotate? && Apply(kind, rs, op, hash).0.Rotated?
    ensures Branches(Apply(kind, rs, op, hash).1) <==> Branches(rs) || HasLink(rs, Trim(op.keyId))
    ensures forall link :: HasLink(Apply(kind, rs, op, hash).1, link) <==> HasLink(rs, link) || link == Trim(op.keyId)
  {
    hide Apply, Trim, Save, UniqueKeys, LinksTrimmed, IsSoundSave, Branches, HasLink;
    var revoked, replacement := RotationSaves(kind, rs, op, hash);
    var once := Save(kind, rs, revoked);
    SoundSave(kind, rs, revoked);
    SoundSave(kind, once, replacement);
    RevocationKeepsLinks(rs, once, revoked);
    NewLinkBranches(once, Save(kind, once, replacement), replacement);
  }

  lemma {:induction false} RevocationKeepsLinks(rs: seq<Record>, once: seq<Record>, revoked: Record)
    requires UniqueKeys(rs) && Load(rs, revoked.keyId).Some? && IsRevocationOf(Load(rs, revoked.keyId).value, revoked)
    requires forall x :: x in once <==> x == revoked || (x in rs && x.keyId != revoked.keyId)
    ensures Branches(once) <==> Branches(rs)
    ensures forall link :: HasLink(once, link) <==> HasLink(rs, link)
  {
    var current := Load(rs, revoked.keyId).value;
    hide IndexOf;
    forall x | x in rs ensures x == current || x in once {
      UniqueLoad(rs, x);
    }
    hide Load, UniqueKeys;
    if Branches(rs) {
      var x, y :| x in rs && y in rs && x.keyId != y.keyId && x.rotatedFrom.Some? && x.rotatedFrom == y.rotatedFrom;
      var x', y' := if x == current then revoked else x, if y == current then revoked else y;
      assert x' in once && y' in once;
    }
    if Branches(once) {
      var x, y :| x in once && y in once && x.keyId != y.keyId && x.rotatedFrom.Some? && x.rotatedFrom == y.rotatedFrom;
      var x', y' := if x == revoked then current else x, if y == revoked then current else y;
      assert x' in rs && y' in rs;
    }
    forall link ensures HasLink(once, link) <==> HasLink(rs, link) {
      if HasLink(rs, link) {
        var x :| x in rs && x.rotatedFrom == Some(link);
        assert (if x == current then revoked else x) in once;
      }
      if HasLink(once, link) {
        var x :| x in once && x.rotatedFrom == Some(link);
        assert (if x == revoked then current else x) in rs;
      }
    }
  }

  lemma {:induction false} NewLinkBranches(rs: seq<Record>, after: seq<Record>, r: Record)
    requires Load(rs, r.keyId).None?
    requires forall x :: x in after <==> x == r || (x in rs && x.keyId != r.keyId)
    ensures Branches(after) <==> Branches(rs) || (r.rotatedFrom.Some? && HasLink(rs, r.rotatedFrom.value))
    ensures forall link :: HasLink(after, link) <==> HasLink(rs, link) || r.rotatedFrom == Some(link)
  {
    hide IndexOf;
    assert forall x :: x in rs ==> x in after && x.keyId != r.keyId;
    assert r in after;
    hide Load;
    if r.rotatedFrom.Some? && HasLink(rs, r.rotatedFrom.value) {
      var x :| x in rs && x.rotatedFrom == r.rotatedFrom;
      assert x in after && x.keyId != r.keyId;
    }
  }

  /** The ids of the keys that a run replaced, in order. */
  function ReplacedIds(ops: seq<Operation>, hash: KeyHash): seq<string> {
    if ops == [] then []
    else
      var before, last := ops[..|ops| - 1], ops[|ops| - 1];
      ReplacedIds(before, hash)
      + if last.Rotate? && Apply(InMemory, Run(InMemory, before, hash), last, hash).0.Rotated? then [last.keyId] else []
  }

  /** Two of the ids are the same text but for the white space around it. */
  ghost predicate SameWhenTrimmed(ids: seq<string>) {
    exists i, j :: 0 <= i < j < |ids| && Trim(ids[i]) == Trim(ids[j])
  }

  ghost predicate TrimmedIn(ids: seq<string>, link: string) {
    exists i :: 0 <= i < |ids| && Trim(ids[i]) == link
  }

  lemma {:induction false} OneMoreId(ids: seq<string>, id: string)
    ensures SameWhenTrimmed(ids + [id]) <==> SameWhenTrimmed(ids) || TrimmedIn(ids, Trim(id))
    ensures forall link :: TrimmedIn(ids + [id], link) <==> TrimmedIn(ids, link) || Trim(id) == link
  {
    hide Trim;
    var more := ids + [id];
    assert more[|ids|] == id && forall i :: 0 <= i < |ids| ==> more[i] == ids[i];
    if SameWhenTrimmed(ids) {
      var i, j :| 0 <= i < j < |ids| && Trim(ids[i]) == Trim(ids[j]);
      assert Trim(more[i]) == Trim(more[j]);
    }
    if TrimmedIn(ids, Trim(id)) {
      var i :| 0 <= i < |ids| && Trim(ids[i]) == Trim(id);
      assert Trim(more[i]) == Trim(more[|ids|]);
    }
    forall link | TrimmedIn(ids, link) || Trim(id) == link ensures TrimmedIn(more, link) {
      if TrimmedIn(ids, link) {
        var i :| 0 <= i < |ids| && Trim(ids[i]) == link;
        assert Trim(more[i]) == link;
      } else {
        assert Trim(more[|ids|]) == link;
      }
    }
  }

  /** A call that completes no rotation leaves the links as they are. */
  lemma {:induction false} OtherCallsKeepLinks(kind: StoreKind, rs: seq<Record>, op: Operation, hash: KeyHash)
    requires Sound(rs) && !Apply(kind, rs, op, hash).0.Rotated?
    ensures Branches(Apply(kind, rs, op, hash).1) <==> Branches(rs)
    ensures forall link :: HasLink(Apply(kind, rs, op, hash).1, link) <==> HasLink(rs, link)
  {
    var (answer, after) := Apply(kind, rs, op, hash);
    hide Trim, Save, IndexOf, HashRegistered, Branches, HasLink, FreezeRecord, Sound;
    if after != rs {
      match op
      case Provision(key, keyId, credential, at) =>
        var record := NewRecord(hash(Trim(key)), keyId, credential, None, at);
        SoundSave(kind, rs, record);
        NewLinkBranches(rs, after, record);
      case Revoke(keyId, reason, at) =>
        var revoked := FreezeRecord(RevokedRecord(Load(rs, keyId).value, at, reason)).value;
        RevocationIsSound(rs, Load(rs, keyId).value, at, reason);
        SoundSave(kind, rs, revoked);
        SoundIsUnique(rs);
        RevocationKeepsLinks(rs, after, revoked);
      case Rotate(_, _, _, _, _, _, _) =>
        var revoked, _ := RotationSaves(kind, rs, op, hash);
        SoundSave(kind, rs, revoked);
        SoundIsUnique(rs);
        RevocationKeepsLinks(rs, after, revoked);
    }
  }

  lemma {:induction false} SoundIsUnique(rs: seq<Record>)
    requires Sound(rs)
    ensures UniqueKeys(rs)
  {
  }

  lemma {:induction false} LinksFollowIds(ops: seq<Operation>, hash: KeyHash)
    ensures Branches(Run(InMemory, ops, hash)) <==> SameWhenTrimmed(ReplacedIds(ops, hash))
    ensures forall link :: HasLink(Run(InMemory, ops, hash), link) <==> TrimmedIn(ReplacedIds(ops, hash), link)
  {
    if ops != [] {
      var before, last := ops[..|ops| - 1], ops[|ops| - 1];
      hide Apply, Trim, Branches, HasLink, SameWhenTrimmed, TrimmedIn, Sound;
      LinksFollowIds(before, hash);
      EveryRunIsSound(InMemory, before, hash);
      var rs := Run(InMemory, before, hash);
      if last.Rotate? && Apply(InMemory, rs, last, hash).0.Rotated? {
        RotationBranchesIff(InMemory, rs, last, hash);
        OneMoreId(ReplacedIds(before, hash), last.keyId);
      } else {
        OnlyRotateRotates(InMemory, rs, last, hash);
        OtherCallsKeepLinks(InMemory, rs, last, hash);
        assert ReplacedIds(ops, hash) == ReplacedIds(before, hash);
      }
    }
  }

  lemma {:induction false} OnlyRotateRotates(kind: StoreKind, rs: seq<Record>, op: Operation, hash: KeyHash)
    ensures Apply(kind, rs, op, hash).0.Rotated? ==> op.Rotate?
  {
    hide Trim, Save, IndexOf, HashRegistered;
  }

  /**
   * Over every run, whatever the key ids, and over either store: two keys claim to have replaced the
   * same key exactly when two replaced keys have ids that differ only by surrounding white space.
   */
  lemma {:induction false} LinksBranchIff(kind: StoreKind, ops: seq<Operation>, hash: KeyHash)
    ensures Branches(Run(kind, ops, hash)) <==> SameWhenTrimmed(ReplacedIds(ops, hash))
  {
    hide Run, SameWhenTrimmed, UniqueKeys;
    LinksFollowIds(ops, hash);
    StoresAgree(ops, hash);
  }

  // ---- the two stores hold the same records ----

  ghost predicate SameRecords(a: seq<Record>, b: seq<Record>) {
    UniqueKeys(a) && UniqueKeys(b) && forall r :: r in a <==> r in b
  }

  lemma {:induction false} SameLoad(a: seq<Record>, b: seq<Record>, keyId: string)
    requires SameRecords(a, b)
    ensures Load(a, keyId) == Load(b, keyId)
  {
    if Load(a, keyId).Some? {
      UniqueLoad(b, Load(a, keyId).value);
    }
  }

  lemma {:induction false} UniqueAfterSave(kind: StoreKind, rs: seq<Record>, r: Record)
    requires UniqueKeys(rs) && forall x :: x in rs && x.keyId != r.keyId ==> x.keyHash != r.keyHash
    ensures UniqueKeys(Save(kind, rs, r))
  {
    if kind.DurableJson? {
      WithoutIsUnique(rs, r.keyId);
    }
  }

  lemma {:induction false} WithoutIsUnique(rs: seq<Record>, keyId: string)
    requires UniqueKeys(rs)
    ensures UniqueKeys(Without(rs, keyId))
  {
    if rs != [] {
      WithoutIsUnique(rs[1..], keyId);
      assert forall r :: r in rs[1..] ==> r.keyId != rs[0].keyId && r.keyHash != rs[0].keyHash;
    }
  }

  lemma {:induction false} SaveKeepsSame(a: seq<Record>, b: seq<Record>, r: Record)
    requires SameRecords(a, b) && forall x :: x in a && x.keyId != r.keyId ==> x.keyHash != r.keyHash
    ensures SameRecords(Save(InMemory, a, r), Save(DurableJson, b, r))
  {
    MembersOfSave(InMemory, a, r);
    MembersOfSave(DurableJson, b, r);
    UniqueAfterSave(InMemory, a, r);
    UniqueAfterSave(DurableJson, b, r);
    hide Save, UniqueKeys;
  }

  lemma {:induction false} ApplyAgrees(a: seq<Record>, b: seq<Record>, op: Operation, hash: KeyHash)
    requires SameRecords(a, b)
    ensures var (answerA, a') := Apply(InMemory, a, op, hash);
            var (answerB, b') := Apply(DurableJson, b, op, hash);
            answerA == answerB && SameRecords(a', b')
  {
    match op
    case Provision(key, keyId, credential, at) => ProvisionAgrees(a, b, op, hash);
    case Revoke(keyId, reason, at) => RevokeAgrees(a, b, op, hash);
    case Rotate(keyId, nextKey, nextKeyId, nextCredential, reason, at, stops) => RotateAgrees(a, b, op, hash);
  }

  lemma {:induction false} ProvisionAgrees(a: seq<Record>, b: seq<Record>, op: Operation, hash: KeyHash)
    requires SameRecords(a, b) && op.Provision?
    ensures var (answerA, a') := Apply(InMemory, a, op, hash);
            var (answerB, b') := Apply(DurableJson, b, op, hash);
            answerA == answerB && SameRecords(a', b')
  {
    SameLoad(a, b, op.keyId);
    assert HashRegistered(a, hash(Trim(op.key))) == HashRegistered(b, hash(Trim(op.key)));
    if !HashRegistered(a, hash(Trim(op.key))) {
      assert forall x :: x in a ==> x.keyHash != hash(Trim(op.key));
      hide Trim, Save, Load, HashRegistered, UniqueKeys;
      SaveKeepsSame(a, b, NewRecord(hash(Trim(op.key)), op.keyId, op.credential, None, op.at));
    }
  }

  /** A revoked version of a stored record clashes with no other hash. */
  lemma {:induction false} RevokedClashesWithNone(rs: seq<Record>, current: Record, at: string, reason: Option<string>)
    requires UniqueKeys(rs) && current in rs && FreezeRecord(RevokedRecord(current, at, reason)).Some?
    ensures var r := FreezeRecord(RevokedRecord(current, at, reason)).value;
            r.keyId == current.keyId && forall x :: x in rs && x.keyId != r.keyId ==> x.keyHash != r.keyHash
  {
    hide Trim;
  }

  lemma {:induction false} RevokeAgrees(a: seq<Record>, b: seq<Record>, op: Operation, hash: KeyHash)
    requires SameRecords(a, b) && op.Revoke?
    ensures var (answerA, a') := Apply(InMemory, a, op, hash);
            var (answerB, b') := Apply(DurableJson, b, op, hash);
            answerA == answerB && SameRecords(a', b')
  {
    hide Trim, Save, IndexOf, UniqueKeys;
    SameLoad(a, b, op.keyId);
    var current := Load(a, op.keyId);
    if current.Some? {
      var r := FreezeRecord(RevokedRecord(current.value, op.at, op.reason));
      if r.Some? {
        RevokedClashesWithNone(a, current.value, op.at, op.reason);
        SaveKeepsSame(a, b, r.value);
      }
    }
  }

  lemma {:induction false} RotateAgrees(a: seq<Record>, b: seq<Record>, op: Operation, hash: KeyHash)
    requires SameRecords(a, b) && op.Rotate?
    ensures var (answerA, a') := Apply(InMemory, a, op, hash);
            var (answerB, b') := Apply(DurableJson, b, op, hash);
            answerA == answerB && SameRecords(a', b')
  {
    hide Trim, Save, IndexOf, Load, UniqueKeys, SameRecords, HashRegistered, FreezeRecord;
    SameLoad(a, b, op.keyId);
    SameLoad(a, b, op.nextKeyId);
    SameHashes(a, b, hash(Trim(op.nextKey)));
    var answer := Apply(InMemory, a, op, hash).0;
    if !answer.Failed? {
      var current := Load(a, op.keyId).value;
      var why := if op.reason.Some? then op.reason else Some("rotated");
      var replacement := FreezeRecord(NewRecord(hash(Trim(op.nextKey)), op.nextKeyId, op.nextCredential, Some(current.keyId), op.at)).value;
      FrozenHash(NewRecord(hash(Trim(op.nextKey)), op.nextKeyId, op.nextCredential, Some(current.keyId), op.at));
      SavesAgree(a, b, current, op.at, why, replacement);
    }
  }

  lemma {:induction false} FrozenHash(r: Record)
    ensures FreezeRecord(r).Some? ==> FreezeRecord(r).value.keyHash == r.keyHash
  {
  }

  lemma {:induction false} SameHashes(a: seq<Record>, b: seq<Record>, keyHash: string)
    requires SameRecords(a, b)
    ensures HashRegistered(a, keyHash) == HashRegistered(b, keyHash)
  {
  }

  lemma {:induction false} SavesAgree(a: seq<Record>, b: seq<Record>, current: Record, at: string,
          why: Option<string>, replacement: Record)
    requires SameRecords(a, b) && current in a && FreezeRecord(RevokedRecord(current, at, why)).Some?
    requires !HashRegistered(a, replacement.keyHash)
    ensures var r := FreezeRecord(RevokedRecord(current, at, why)).value;
            var onceA, onceB := Save(InMemory, a, r), Save(DurableJson, b, r);
            SameRecords(onceA, onceB) && SameRecords(Save(InMemory, onceA, replacement), Save(DurableJson, onceB, replacement))
  {
    var r := FreezeRecord(RevokedRecord(current, at, why)).value;
    assert r.keyHash == current.keyHash;
    hide FreezeRecord, Save, UniqueKeys, HashRegistered;
    RevokedClashesWithNone(a, current, at, why);
    SaveKeepsSame(a, b, r);
    MembersOfSave(InMemory, a, r);
    NewHashClashesWithNone(a, replacement.keyHash);
    SaveKeepsSame(Save(InMemory, a, r), Save(DurableJson, b, r), replacement);
  }

  lemma {:induction false} NewHashClashesWithNone(rs: seq<Record>, keyHash: string)
    requires !HashRegistered(rs, keyHash)
    ensures forall x :: x in rs ==> x.keyHash != keyHash
  {
  }

  /** Whatever the key ids, a run answers the same over either store and leaves the same records. */
  lemma {:induction false} StoresAgree(ops: seq<Operation>, hash: KeyHash)
    ensures SameRecords(Run(InMemory, ops, hash), Run(DurableJson, ops, hash))
    ensures ops != [] ==>
              var before, last := ops[..|ops| - 1], ops[|ops| - 1];
              Apply(InMemory, Run(InMemory, before, hash), last, hash).0
              == Apply(DurableJson, Run(DurableJson, before, hash), last, hash).0
  {
    if ops != [] {
      hide Apply, SameRecords;
      StoresAgree(ops[..|ops| - 1], hash);
      ApplyAgrees(Run(InMemory, ops[..|ops| - 1], hash), Run(DurableJson, ops[..|ops| - 1], hash), ops[|ops| - 1], hash);
    } else {
      assert SameRecords([], []);
    }
  }

  // ---- verifying a presented key ----

  /** The loop keeps going after a match, so the last match counts. */
  function LastMatch(rs: seq<Record>, keyHash: string): Option<string> {
    if rs == [] then None
    else
      var last := rs[|rs| - 1];
      if last.keyHash == keyHash && last.status.Active? then Some(last.credential)
      else LastMatch(rs[..|rs| - 1], keyHash)
  }

  function VerifyKey(rs: seq<Record>, provided: Option<string>, hash: KeyHash): Option<string> {
    if provided.None? || Trim(provided.value) == "" then None else LastMatch(rs, hash(Trim(provided.value)))
  }

  class StaticHashedApiKeyVerifier {
    const records: seq<Record>
    const hash: KeyHash

    constructor (records: seq<Record>, hash: KeyHash)
      ensures this.records == records && this.hash == hash
    {
      this.records := records;
      this.hash := hash;
    }

    method Verify(provided: Option<string>) returns (matched: Option<string>)
      ensures matched == VerifyKey(records, provided, hash)
    {
      if provided.None? || Trim(provided.value) == "" {
        return None;
      }
      var digest := hash(Trim(provided.value));
      matched := None;
      for i := 0 to |records|
        invariant matched == LastMatch(records[..i], digest)
      {
        assert records[..i + 1][..i] == records[..i];
        if records[i].keyHash == digest && records[i].status.Active? {
          matched := Some(records[i].credential);
        }
      }
      assert records[..|records|] == records;
    }
  }

  /** With unique hashes, a key verifies exactly when an active record has its hash, and as that record. */
  lemma {:induction false} VerifiesIff(rs: seq<Record>, keyHash: string, credential: string)
    requires UniqueKeys(rs)
    ensures LastMatch(rs, keyHash) == Some(credential) <==>
            exists r :: r in rs && r.keyHash == keyHash && r.status.Active? && r.credential == credential
  {
    if rs != [] {
      var before, last := rs[..|rs| - 1], rs[|rs| - 1];
      assert rs == before + [last];
      VerifiesIff(before, keyHash, credential);
      assert forall r :: r in before ==> r.keyHash != last.keyHash;
      assert forall r :: r in rs <==> r in before || r == last;
    }
  }

  /** After any run, every presented key verifies alike over the two stores. */
  lemma {:induction false} StoresVerifyAlike(ops: seq<Operation>, provided: Option<string>, hash: KeyHash)
    ensures VerifyKey(Run(InMemory, ops, hash), provided, hash) == VerifyKey(Run(DurableJson, ops, hash), provided, hash)
  {
    StoresAgree(ops, hash);
    var a, b := Run(InMemory, ops, hash), Run(DurableJson, ops, hash);
    hide Run, Trim, UniqueKeys, LastMatch;
    if provided.Some? {
      var digest := hash(Trim(provided.value));
      forall credential
        ensures LastMatch(a, digest) == Some(credential) <==> LastMatch(b, digest) == Some(credential)
      {
        VerifiesIff(a, digest, credential);
        VerifiesIff(b, digest, credential);
      }
      assert LastMatch(a, digest).Some? ==> LastMatch(b, digest) == Some(LastMatch(a, digest).value);
      assert LastMatch(b, digest).Some? ==> LastMatch(a, digest) == Some(LastMatch(b, digest).value);
    }
  }

  // ---- the store and service objects ----

  class InMemoryApiKeyLifecycleStore {
    /** The map's values in insertion order. */
    var records: seq<Record>

    constructor ()
      ensures records == []
    {
      records := [];
    }

    method SaveApiKeyRecord(r: Record)
      modifies this
      ensures records == Save(InMemory, old(records), r)
      ensures Load(records, r.keyId) == Some(r)
    {
      var i := IndexOf(records, r.keyId);
      if i >= 0 {
        FirstStaysFirst(records, i, r);
        records := records[i := r];
      } else {
        AppendedIsFound(records, r);
        records := records + [r];
      }
    }
  }

  lemma {:induction false} FirstStaysFirst(rs: seq<Record>, i: nat, r: Record)
    requires i < |rs| && IndexOf(rs, r.keyId) == i
    ensures Load(rs[i := r], r.keyId) == Some(r)
  {
    assert rs[i := r][i] == r;
    var k := IndexOf(rs[i := r], r.keyId);
    assert forall j :: 0 <= j < i ==> rs[i := r][j] == rs[j] && rs[j].keyId != r.keyId;
  }

  lemma {:induction false} AppendedIsFound(rs: seq<Record>, r: Record)
    requires forall x :: x in rs ==> x.keyId != r.keyId
    ensures Load(rs + [r], r.keyId) == Some(r)
  {
    assert (rs + [r])[|rs|] == r;
    assert forall j :: 0 <= j < |rs| ==> (rs + [r])[j] in rs;
  }

  class DurableJsonApiKeyLifecycleStore {
    /** The records of the state file. */
    var records: seq<Record>

    constructor ()
      ensures records == []
    {
      records := [];
    }

    method SaveApiKeyRecord(r: Record)
      modifies this
      ensures records == Save(DurableJson, old(records), r)
      ensures Load(records, r.keyId) == Some(r)
    {
      AppendedIsFound(Without(records, r.keyId), r);
      records := Without(records, r.keyId) + [r];
    }
  }

  datatype StoreRef = MemoryStore(memory: InMemoryApiKeyLifecycleStore) | FileStore(file: DurableJsonApiKeyLifecycleStore) {
    function Objects(): set<object> {
      match this
      case MemoryStore(memory) => {memory}
      case FileStore(file) => {file}
    }

    function Kind(): StoreKind {
      if MemoryStore? then InMemory else DurableJson
    }

    function Records(): seq<Record>
      reads Objects()
    {
      match this
      case MemoryStore(memory) => memory.records
      case FileStore(file) => file.records
    }

    method SaveApiKeyRecord(r: Record)
      modifies Objects()
      ensures Records() == Save(Kind(), old(Records()), r)
    {
      match this
      case MemoryStore(memory) => memory.SaveApiKeyRecord(r);
      case FileStore(file) => file.SaveApiKeyRecord(r);
    }
  }

  class ApiKeyLifecycleService {
    const store: StoreRef
    const hash: KeyHash

    constructor (store: StoreRef, hash: KeyHash)
      ensures this.store == store && this.hash == hash
    {
      this.store := store;
      this.hash := hash;
    }

    method Provision(key: string, keyId: string, credential: string, at: string) returns (answer: Answer)
      modifies store.Objects()
      ensures (answer, store.Records()) == ApplyProvision(store.Kind(), old(store.Records()), key, keyId, credential, at, hash)
    {
      hide Trim, Save;
      if Load(store.Records(), keyId).Some? {
        return Failed(KeyIdExists);
      }
      if Trim(key) == "" {
        return Failed(EmptyKey);
      }
      if HashRegistered(store.Records(), hash(Trim(key))) {
        return Failed(SecretRegistered);
      }
      var record := NewRecord(hash(Trim(key)), keyId, credential, None, at);
      store.SaveApiKeyRecord(record);
      answer := Saved(record);
    }

    method Revoke(keyId: string, reason: Option<string>, at: string) returns (answer: Answer)
      modifies store.Objects()
      ensures (answer, store.Records()) == ApplyRevoke(store.Kind(), old(store.Records()), keyId, reason, at)
    {
      hide Trim, Save;
      var current := Load(store.Records(), keyId);
      if current.None? {
        return Failed(NotFound);
      }
      if current.value.status.Revoked? {
        return Saved(current.value);
      }
      var revoked := FreezeRecord(RevokedRecord(current.value, at, reason));
      if revoked.None? {
        return Failed(EmptyField);
      }
      store.SaveApiKeyRecord(revoked.value);
      answer := Saved(revoked.value);
    }

    /** `stops` says that the process stops after the first of the two saves. */
    method Rotate(keyId: string, nextKey: string, nextKeyId: string, nextCredential: string, reason: Option<string>,
            at: string, stops: bool)
      returns (answer: Answer)
      modifies store.Objects()
      ensures (answer, store.Records())
              == ApplyRotate(store.Kind(), old(store.Records()), keyId, nextKey, nextKeyId, nextCredential, reason, at, stops, hash)
    {
      hide Trim, Save, FreezeRecord;
      var current := Load(store.Records(), keyId);
      if current.None? {
        return Failed(NotFound);
      }
      if !current.value.status.Active? {
        return Failed(NotActive);
      }
      if Load(store.Records(), nextKeyId).Some? {
        return Failed(KeyIdExists);
      }
      if Trim(nextKey) == "" {
        return Failed(EmptyKey);
      }
      if HashRegistered(store.Records(), hash(Trim(nextKey))) {
        return Failed(SecretRegistered);
      }
      var revoked := FreezeRecord(RevokedRecord(current.value, at, if reason.Some? then reason else Some("rotated")));
      var replacement := FreezeRecord(NewRecord(hash(Trim(nextKey)), nextKeyId, nextCredential, Some(current.value.keyId), at));
      if revoked.None? || replacement.None? {
        return Failed(EmptyField);
      }
      store.SaveApiKeyRecord(revoked.value);
      if stops {
        return Interrupted;
      }
      store.SaveApiKeyRecord(replacement.value);
      answer := Rotated(revoked.value, replacement.value);
    }
  }
}
