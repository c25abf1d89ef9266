/**
 * What each call of the API key service answers, stores and does to the verification of presented keys,
 * in every state that a run over either store can reach.
 */
module KeyOutcomes {
  import opened Collections
  import opened Text
  import opened ApiKeys

  // ---- verification, by the records ----

  lemma {:induction false} VerifiesAs(rs: seq<Record>, r: Record)
    requires UniqueKeys(rs) && r in rs
    ensures LastMatch(rs, r.keyHash) == if r.status.Active? then Some(r.credential) else None
  {
    hide LastMatch, UniqueKeys;
    if r.status.Active? {
      VerifiesIff(rs, r.keyHash, r.credential);
    } else if LastMatch(rs, r.keyHash).Some? {
      VerifiesIff(rs, r.keyHash, LastMatch(rs, r.keyHash).value);
      var x :| x in rs && x.keyHash == r.keyHash && x.status.Active?;
      OneRecordPerHash(rs, x, r);
    }
  }

  lemma {:induction false} OneRecordPerHash(rs: seq<Record>, x: Record, y: Record)
    requires UniqueKeys(rs) && x in rs && y in rs && x.keyHash == y.keyHash
    ensures x == y
  {
  }

  /** The records with one hash decide whether that hash verifies. */
  lemma {:induction false} OtherHashesVerifyAlike(before: seq<Record>, after: seq<Record>, keyHash: string)
    requires UniqueKeys(before) && UniqueKeys(after)
    requires forall r: Record :: r.keyHash == keyHash ==> (r in before <==> r in after)
    ensures LastMatch(before, keyHash) == LastMatch(after, keyHash)
  {
    hide LastMatch, UniqueKeys;
    forall c ensures LastMatch(before, keyHash) == Some(c) <==> LastMatch(after, keyHash) == Some(c) {
      VerifiesIff(before, keyHash, c);
      VerifiesIff(after, keyHash, c);
    }
    assert LastMatch(before, keyHash).Some? ==> LastMatch(after, keyHash) == Some(LastMatch(before, keyHash).value);
    assert LastMatch(after, keyHash).Some? ==> LastMatch(before, keyHash) == Some(LastMatch(after, keyHash).value);
  }

  /** A presented key is trimmed and hashed; nothing, and white space, never verifies. */
  lemma {:induction false} PresentedKey(rs: seq<Record>, provided: Option<string>, hash: KeyHash)
    ensures VerifyKey(rs, provided, hash)
            == if provided.Some? && (exists i :: 0 <= i < |provided.value| && !IsWhiteSpace(provided.value[i]))
               then LastMatch(rs, hash(Trim(provided.value))) else None
  {
    hide IsWhiteSpace, LastMatch;
    if provided.Some? {
      BlankIffWhite(provided.value);
    }
  }

  lemma {:induction false} BlankIffWhite(s: string)
    ensures Trim(s) == "" <==> forall i :: 0 <= i < |s| ==> IsWhiteSpace(s[i])
  {
    hide IsWhiteSpace;
    var start := TrimStart(s);
    var t := TrimEnd(start);
    if t != "" {
      assert start[0] == s[|s| - |start|];
    }
  }

  lemma {:induction false} AdditionVerifies(kind: StoreKind, rs: seq<Record>, added: Record)
    requires Sound(rs) && Load(rs, added.keyId).None? && IsSoundSave(rs, added) && added.status.Active?
    ensures var after := Save(kind, rs, added);
            && OnlyAdds(rs, after, {added}, {})
            && LastMatch(after, added.keyHash) == Some(added.credential)
            && (forall other :: other != added.keyHash ==> LastMatch(after, other) == LastMatch(rs, other))
  {
    var after := Save(kind, rs, added);
    hide Trim, Save, IndexOf, LastMatch, LinksTrimmed, UniqueKeys, IsSoundSave;
    SoundSave(kind, rs, added);
    VerifiesAs(after, added);
    forall other | other != added.keyHash ensures LastMatch(after, other) == LastMatch(rs, other) {
      OtherHashesVerifyAlike(rs, after, other);
    }
  }

  // ---- provisioning ----

  /** The other records are as they were. */
  ghost predicate OnlyAdds(before: seq<Record>, after: seq<Record>, added: set<Record>, replacedIds: set<string>) {
    forall r :: r in after <==> r in added || (r in before && r.keyId !in replacedIds)
  }

  /**
   * A new key is refused when its id is taken, when it is blank, or when its hash is registered already, in
   * this order, and nothing changes. Otherwise it is stored as active and verifies as its credential, and
   * every other hash verifies as before.
   */
  lemma {:induction false} ProvisionOutcome(kind: StoreKind, ops: seq<Operation>, key: string, keyId: string, credential: string,
          at: string, hash: KeyHash)
    ensures var rs := Run(kind, ops, hash);
            var (answer, after) := Apply(kind, rs, Provision(key, keyId, credential, at), hash);
            if exists r :: r in rs && r.keyId == keyId then answer == Failed(KeyIdExists) && after == rs
            else if Trim(key) == "" then answer == Failed(EmptyKey) && after == rs
            else if exists r :: r in rs && r.keyHash == hash(Trim(key)) then answer == Failed(SecretRegistered) && after == rs
            else
              var record := Record(hash(Trim(key)), keyId, credential, Active, None, at, at, None, None);
              && answer == Saved(record) && OnlyAdds(rs, after, {record}, {})
              && VerifyKey(after, Some(key), hash) == Some(credential)
              && (forall other :: other != record.keyHash ==> LastMatch(after, other) == LastMatch(rs, other))
  {
    var rs := Run(kind, ops, hash);
    EveryRunIsSound(kind, ops, hash);
    hide Run, Trim, Save, IndexOf, LastMatch, LinksTrimmed, UniqueKeys;
    var record := NewRecord(hash(Trim(key)), keyId, credential, None, at);
    if Load(rs, keyId).None? && Trim(key) != "" && !HashRegistered(rs, hash(Trim(key))) {
      AdditionVerifies(kind, rs, record);
    }
  }

  // ---- revoking ----

  /** `current` as a revocation at this time leaves it. */
  function RevokedAt(current: Record, at: string, reason: Option<string>): Record {
    Record(current.keyHash, current.keyId, current.credential, Revoked, current.rotatedFrom, current.createdAt, at, Some(at), reason)
  }

  lemma {:induction false} FreshRevocation(current: Record, at: string, reason: Option<string>)
    requires current.revocationReason.None?
    requires current.rotatedFrom.Some? ==> current.rotatedFrom.value != "" && Trim(current.rotatedFrom.value) == current.rotatedFrom.value
    ensures FreezeRecord(RevokedRecord(current, at, reason))
            == if reason.Some? && Trim(reason.value) == "" then None
               else Some(RevokedAt(current, at, if reason.Some? then Some(Trim(reason.value)) else None))
  {
    hide Trim;
  }

  /** A record that is active has no reason for a revocation, and a link names something. */
  ghost predicate IsFresh(rs: seq<Record>) {
    forall r :: r in rs ==>
      && (r.status.Active? ==> r.revocationReason.None?)
      && (r.rotatedFrom.Some? ==> r.rotatedFrom.value != "" && Trim(r.rotatedFrom.value) == r.rotatedFrom.value)
  }

  lemma {:induction false} SaveKeepsFresh(kind: StoreKind, rs: seq<Record>, r: Record)
    requires Sound(rs) && IsFresh(rs) && IsSoundSave(rs, r) && IsFresh([r])
    ensures IsFresh(Save(kind, rs, r))
  {
    hide Save, Trim, Sound, IsSoundSave;
    SoundSave(kind, rs, r);
    assert r in [r];
  }

  lemma {:induction false} FrozenIsFresh(r: Record)
    requires r.status.Active? ==> r.revocationReason.None?
    ensures FreezeRecord(r).Some? ==> IsFresh([FreezeRecord(r).value])
  {
    FrozenLink(r);
    hide Trim;
  }

  lemma {:induction false} ApplyKeepsFresh(kind: StoreKind, rs: seq<Record>, op: Operation, hash: KeyHash)
    requires Sound(rs) && IsFresh(rs)
    ensures IsFresh(Apply(kind, rs, op, hash).1)
  {
    var (answer, after) := Apply(kind, rs, op, hash);
    hide Trim, Save, IndexOf, HashRegistered, Sound, FreezeRecord, IsSoundSave;
    if after != rs {
      match op
      case Provision(key, keyId, credential, at) => ProvisionKeepsFresh(kind, rs, op, hash);
      case Revoke(keyId, reason, at) =>
        var current := Load(rs, keyId).value;
        RevocationIsSound(rs, current, at, reason);
        FrozenIsFresh(RevokedRecord(current, at, reason));
        SaveKeepsFresh(kind, rs, FreezeRecord(RevokedRecord(current, at, reason)).value);
      case Rotate(_, _, _, _, _, _, _) => RotateKeepsFresh(kind, rs, op, hash);
    }
  }

  lemma {:induction false} ProvisionKeepsFresh(kind: StoreKind, rs: seq<Record>, op: Operation, hash: KeyHash)
    requires Sound(rs) && IsFresh(rs) && op.Provision?
    ensures IsFresh(Apply(kind, rs, op, hash).1)
  {
    hide Trim, Save, IndexOf, Sound;
    var record := NewRecord(hash(Trim(op.key)), op.keyId, op.credential, None, op.at);
    if Load(rs, op.keyId).None? && !HashRegistered(rs, hash(Trim(op.key))) {
      SaveKeepsFresh(kind, rs, record);
    }
  }

  lemma {:induction false} RotateKeepsFresh(kind: StoreKind, rs: seq<Record>, op: Operation, hash: KeyHash)
    requires Sound(rs) && IsFresh(rs) && op.Rotate? && !Apply(kind, rs, op, hash).0.Failed?
    ensures IsFresh(Apply(kind, rs, op, hash).1)
  {
    hide Apply, Trim, Save, IsSoundSave, Sound;
    var revoked, replacement := RotationSaves(kind, rs, op, hash);
    RotationRecords(kind, rs, op, hash);
    var current := Load(rs, op.keyId).value;
    assert IsFresh([revoked]);
    SoundSave(kind, rs, revoked);
    SaveKeepsFresh(kind, rs, revoked);
    if !op.stops {
      SaveKeepsFresh(kind, Save(kind, rs, revoked), replacement);
    }
  }

  /** What a rotation that fits stores, from what it finds. */
  lemma {:induction false} RotationRecords(kind: StoreKind, rs: seq<Record>, op: Operation, hash: KeyHash)
    requires op.Rotate? && !Apply(kind, rs, op, hash).0.Failed?
    ensures Load(rs, op.keyId).Some? && Load(rs, op.keyId).value.status.Active?
    ensures Apply(kind, rs, op, hash).0.Rotated? ==> IsFresh([Apply(kind, rs, op, hash).0.replacement])
  {
    FrozenIsFresh(NewRecord(hash(Trim(op.nextKey)), op.nextKeyId, op.nextCredential, Some(op.keyId), op.at));
    hide Trim, Save, IndexOf, HashRegistered, FreezeRecord;
  }

  lemma {:induction false} RunIsFresh(kind: StoreKind, ops: seq<Operation>, hash: KeyHash)
    ensures IsFresh(Run(kind, ops, hash))
  {
    hide Apply, IsFresh, Sound;
    if ops == [] {
      NothingIsFresh();
    } else {
      RunIsFresh(kind, ops[..|ops| - 1], hash);
      EveryRunIsSound(kind, ops[..|ops| - 1], hash);
      ApplyKeepsFresh(kind, Run(kind, ops[..|ops| - 1], hash), ops[|ops| - 1], hash);
    }
  }

  lemma {:induction false} NothingIsFresh()
    ensures IsFresh([])
  {
  }

  /**
   * A revocation of an unknown id fails; one of a revoked key answers its record and changes nothing; one
   * with a blank reason fails. Otherwise the record is stored as revoked at that time, its hash stops
   * verifying, every other hash verifies as before, and every other record stays.
   */
  lemma {:induction false} RevokeOutcome(kind: StoreKind, ops: seq<Operation>, current: Record, reason: Option<string>, at: string,
          hash: KeyHash)
    requires current in Run(kind, ops, hash)
    ensures var rs := Run(kind, ops, hash);
            var (answer, after) := Apply(kind, rs, Revoke(current.keyId, reason, at), hash);
            if current.status == Revoked then answer == Saved(current) && after == rs
            else if reason.Some? && Trim(reason.value) == "" then answer == Failed(EmptyField) && after == rs
            else
              var revoked := RevokedAt(current, at, if reason.Some? then Some(Trim(reason.value)) else None);
              && answer == Saved(revoked) && Load(after, current.keyId) == Some(revoked)
              && OnlyAdds(rs, after, {revoked}, {current.keyId})
              && LastMatch(after, current.keyHash) == None
              && (forall other :: other != current.keyHash ==> LastMatch(after, other) == LastMatch(rs, other))
  {
    EveryRunIsSound(kind, ops, hash);
    RunIsFresh(kind, ops, hash);
    var rs := Run(kind, ops, hash);
    hide Run, Trim, Save, IndexOf, LastMatch, FreezeRecord, LinksTrimmed, UniqueKeys, IsSoundSave;
    UniqueLoad(rs, current);
    if current.status.Active? {
      FreshRevocation(current, at, reason);
      if !(reason.Some? && Trim(reason.value) == "") {
        RevocationIsSound(rs, current, at, reason);
        RevocationVerifies(kind, rs, current, RevokedAt(current, at, if reason.Some? then Some(Trim(reason.value)) else None));
      }
    }
  }

  lemma {:induction false} RevocationVerifies(kind: StoreKind, rs: seq<Record>, current: Record, revoked: Record)
    requires Sound(rs) && current in rs && IsSoundSave(rs, revoked) && IsRevocationOf(current, revoked)
    ensures var after := Save(kind, rs, revoked);
            && Sound(after) && Load(after, current.keyId) == Some(revoked)
            && OnlyAdds(rs, after, {revoked}, {current.keyId})
            && LastMatch(after, current.keyHash) == None
            && (forall other :: other != current.keyHash ==> LastMatch(after, other) == LastMatch(rs, other))
  {
    var after := Save(kind, rs, revoked);
    hide Trim, Save, IndexOf, LastMatch, LinksTrimmed, UniqueKeys, IsSoundSave;
    SoundSave(kind, rs, revoked);
    UniqueLoad(after, revoked);
    VerifiesAs(after, revoked);
    forall r: Record | r.keyHash != current.keyHash ensures r in rs <==> r in after {
      if r.keyId == current.keyId && r in rs {
        OneRecordPerId(rs, r, current);
      }
    }
    forall other | other != current.keyHash ensures LastMatch(after, other) == LastMatch(rs, other) {
      OtherHashesVerifyAlike(rs, after, other);
    }
  }

  lemma {:induction false} OneRecordPerId(rs: seq<Record>, x: Record, y: Record)
    requires UniqueKeys(rs) && x in rs && y in rs && x.keyId == y.keyId
    ensures x == y
  {
  }

  lemma {:induction false} UnknownIsNotRevoked(kind: StoreKind, rs: seq<Record>, keyId: string, reason: Option<string>, at: string,
          hash: KeyHash)
    requires forall r :: r in rs ==> r.keyId != keyId
    ensures Apply(kind, rs, Revoke(keyId, reason, at), hash) == (Failed(NotFound), rs)
  {
    hide FindIndex;
  }

  // ---- rotating ----

  /**
   * A rotation needs a known and active key, a new id that is free, and a new key that is neither blank nor
   * registered, and neither a blank reason nor a blank id to link to; else it fails, with the first of these
   * reasons, and changes nothing. Otherwise the old key is stored as revoked and stops verifying, and, unless
   * the process stops in between, the new key is stored as active with its link and verifies as its
   * credential. Every other hash verifies as before and every other record stays.
   */
  lemma {:induction false} RotateOutcome(kind: StoreKind, ops: seq<Operation>, op: Operation, hash: KeyHash)
    requires op.Rotate?
    ensures var rs := Run(kind, ops, hash);
            var (answer, after) := Apply(kind, rs, op, hash);
            if forall r :: r in rs ==> r.keyId != op.keyId then answer == Failed(NotFound) && after == rs
            else if !exists r :: r in rs && r.keyId == op.keyId && r.status == Active then answer == Failed(NotActive) && after == rs
            else if exists r :: r in rs && r.keyId == op.nextKeyId then answer == Failed(KeyIdExists) && after == rs
            else if Trim(op.nextKey) == "" then answer == Failed(EmptyKey) && after == rs
            else if exists r :: r in rs && r.keyHash == hash(Trim(op.nextKey)) then answer == Failed(SecretRegistered) && after == rs
            else if (op.reason.Some? && Trim(op.reason.value) == "") || Trim(op.keyId) == "" then answer == Failed(EmptyField) && after == rs
            else exists current :: current in rs && current.keyId == op.keyId && IsRotation(rs, op, hash, current, answer, after)
  {
    EveryRunIsSound(kind, ops, hash);
    RunIsFresh(kind, ops, hash);
    var rs := Run(kind, ops, hash);
    hide Run, Trim, Save, IndexOf, LastMatch, FreezeRecord, LinksTrimmed, UniqueKeys, IsSoundSave, IsRotation;
    var found := Load(rs, op.keyId);
    if found.Some? {
      OnlyRecordOfId(rs, found.value);
      if found.value.status.Active? && Load(rs, op.nextKeyId).None? && Trim(op.nextKey) != "" && !HashRegistered(rs, hash(Trim(op.nextKey))) {
        FreshRotation(found.value, op, hash);
        if !(op.reason.Some? && Trim(op.reason.value) == "") && Trim(op.keyId) != "" {
          RotationIsDone(kind, rs, op, hash, found.value);
        }
      }
    }
  }

  lemma {:induction false} OnlyRecordOfId(rs: seq<Record>, current: Record)
    requires UniqueKeys(rs) && current in rs
    ensures forall r :: r in rs && r.keyId == current.keyId ==> r == current
  {
  }

  lemma {:induction false} RotatedIsSolid()
    ensures Trim("rotated") == "rotated"
  {
    hide Trim;
    TrimKeepsSolid("rotated");
  }

  lemma {:induction false} FreshRotation(current: Record, op: Operation, hash: KeyHash)
    requires op.Rotate? && current.keyId == op.keyId && current.status.Active? && current.revocationReason.None?
    requires current.rotatedFrom.Some? ==> current.rotatedFrom.value != "" && Trim(current.rotatedFrom.value) == current.rotatedFrom.value
    ensures FreezeRecord(RevokedRecord(current, op.at, if op.reason.Some? then op.reason else Some("rotated")))
            == if op.reason.Some? && Trim(op.reason.value) == "" then None
               else Some(RevokedAt(current, op.at, Some(if op.reason.Some? then Trim(op.reason.value) else "rotated")))
    ensures FreezeRecord(NewRecord(hash(Trim(op.nextKey)), op.nextKeyId, op.nextCredential, Some(current.keyId), op.at))
            == if Trim(op.keyId) == "" then None
               else Some(Record(hash(Trim(op.nextKey)), op.nextKeyId, op.nextCredential, Active, Some(Trim(op.keyId)), op.at, op.at, None, None))
  {
    hide Trim, RevokedRecord, RevokedAt, FreezeRecord;
    RotatedIsSolid();
    FreshRevocation(current, op.at, if op.reason.Some? then op.reason else Some("rotated"));
    FreshReplacement(hash(Trim(op.nextKey)), op);
  }

  lemma {:induction false} FreshReplacement(keyHash: string, op: Operation)
    requires op.Rotate?
    ensures FreezeRecord(NewRecord(keyHash, op.nextKeyId, op.nextCredential, Some(op.keyId), op.at))
            == if Trim(op.keyId) == "" then None
               else Some(Record(keyHash, op.nextKeyId, op.nextCredential, Active, Some(Trim(op.keyId)), op.at, op.at, None, None))
  {
    hide Trim;
  }

  ghost predicate IsRotation(rs: seq<Record>, op: Operation, hash: KeyHash, current: Record, answer: Answer, after: seq<Record>)
    requires op.Rotate?
  {
    var revoked := RevokedAt(current, op.at, Some(if op.reason.Some? then Trim(op.reason.value) else "rotated"));
    var next := Record(hash(Trim(op.nextKey)), op.nextKeyId, op.nextCredential, Active, Some(Trim(op.keyId)), op.at, op.at, None, None);
    && answer == (if op.stops then Interrupted else Rotated(revoked, next))
    && OnlyAdds(rs, after, if op.stops then {revoked} else {revoked, next}, {current.keyId})
    && LastMatch(after, current.keyHash) == None
    && VerifyKey(after, Some(op.nextKey), hash) == (if op.stops then None else Some(op.nextCredential))
    && (forall other :: other != current.keyHash && other != next.keyHash ==> LastMatch(after, other) == LastMatch(rs, other))
  }

  lemma {:induction false} UnregisteredVerifiesNot(rs: seq<Record>, keyHash: string)
    requires !HashRegistered(rs, keyHash)
    ensures LastMatch(rs, keyHash) == None
  {
    if rs != [] {
      assert rs[|rs| - 1] in rs && forall r :: r in rs[..|rs| - 1] ==> r in rs;
      UnregisteredVerifiesNot(rs[..|rs| - 1], keyHash);
    }
  }

  lemma {:induction false} RotationIsDone(kind: StoreKind, rs: seq<Record>, op: Operation, hash: KeyHash, current: Record)
    requires Sound(rs) && IsFresh(rs) && op.Rotate? && Load(rs, op.keyId) == Some(current) && current.status.Active?
    requires Load(rs, op.nextKeyId).None? && Trim(op.nextKey) != "" && !HashRegistered(rs, hash(Trim(op.nextKey)))
    requires !(op.reason.Some? && Trim(op.reason.value) == "") && Trim(op.keyId) != ""
    ensures IsRotation(rs, op, hash, current, Apply(kind, rs, op, hash).0, Apply(kind, rs, op, hash).1)
  {
    hide Trim, Save, IndexOf, LastMatch, FreezeRecord, LinksTrimmed, UniqueKeys, IsSoundSave;
    var revoked := RevokedAt(current, op.at, Some(if op.reason.Some? then Trim(op.reason.value) else "rotated"));
    FreshRotation(current, op, hash);
    var _, replacement := RotationSaves(kind, rs, op, hash);
    RevocationIsSound(rs, current, op.at, if op.reason.Some? then op.reason else Some("rotated"));
    RevocationVerifies(kind, rs, current, revoked);
    var once := Save(kind, rs, revoked);
    var next := Record(hash(Trim(op.nextKey)), op.nextKeyId, op.nextCredential, Active, Some(Trim(op.keyId)), op.at, op.at, None, None);
    if op.stops {
      UnregisteredVerifiesNot(rs, next.keyHash);
    } else {
      AdditionVerifies(kind, once, next);
    }
  }
}
