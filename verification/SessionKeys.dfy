/** The two keys of a provider session: the supervisor's own and the lease guard's, and who shares them. */
module SessionKeys {
  import opened Collections
  import opened Text
  import opened OwnershipGuards

  datatype Ref = Ref(instanceId: string, providerId: string, sessionId: string)

  /** The key of a supervisor's own session table leaves the provider out; the guard's does not. */
  function SupervisorKey(ref: Ref): string {
    ref.instanceId + "::" + ref.sessionId
  }

  function GuardSession(ref: Ref): SessionRef {
    SessionRef(ref.instanceId, ref.providerId, Some(ref.sessionId))
  }

  function GuardKey(ref: Ref): string {
    SessionKey(GuardSession(ref))
  }

  /** The guard keys of two references to one session agree exactly when their providers do. */
  lemma {:induction false} GuardKeysAgreeIff(a: Ref, b: Ref)
    requires a.instanceId == b.instanceId && a.sessionId == b.sessionId
    ensures SupervisorKey(a) == SupervisorKey(b)
    ensures GuardKey(a) == GuardKey(b) <==> a.providerId == b.providerId
  {
    JoinedKey(a);
    JoinedKey(b);
    var head := a.instanceId + [':'];
    var n := |head|;
    assert GuardKey(a)[n..n + |a.providerId|] == a.providerId;
    assert GuardKey(b)[n..n + |b.providerId|] == b.providerId;
    assert |GuardKey(a)| == n + |a.providerId| + 1 + |a.sessionId|;
    assert |GuardKey(b)| == n + |b.providerId| + 1 + |b.sessionId|;
  }

  lemma {:induction false} JoinedKey(ref: Ref)
    ensures GuardKey(ref) == ref.instanceId + [':'] + (ref.providerId + [':'] + ref.sessionId)
  {
    JoinCons([ref.instanceId, ref.providerId, ref.sessionId], ':');
    JoinCons([ref.providerId, ref.sessionId], ':');
    JoinOne(ref.sessionId, ':');
    assert [ref.instanceId, ref.providerId, ref.sessionId][1..] == [ref.providerId, ref.sessionId];
    assert [ref.providerId, ref.sessionId][1..] == [ref.sessionId];
  }

  /** The guard keys of any two references agree exactly when the tokens of their ids, end to end, do. */
  lemma {:induction false} GuardKeysCollideIff(a: Ref, b: Ref)
    ensures GuardKey(a) == GuardKey(b) <==> GuardTokens(a) == GuardTokens(b)
  {
    GuardKeyTokens(a);
    GuardKeyTokens(b);
    JoinOfSplit(GuardKey(a), ':');
    JoinOfSplit(GuardKey(b), ':');
  }

  function GuardTokens(ref: Ref): seq<string> {
    Split(ref.instanceId, ':') + (Split(ref.providerId, ':') + Split(ref.sessionId, ':'))
  }

  lemma {:induction false} GuardKeyTokens(ref: Ref)
    ensures Split(GuardKey(ref), ':') == GuardTokens(ref)
  {
    hide Split, SessionKey;
    JoinedKey(ref);
    SplitOfConcat(ref.instanceId, ref.providerId + [':'] + ref.sessionId, ':');
    SplitOfConcat(ref.providerId, ref.sessionId, ':');
  }

  /** The supervisor's keys agree exactly when the tokens around the empty one do. */
  lemma {:induction false} SupervisorKeysCollideIff(a: Ref, b: Ref)
    ensures SupervisorKey(a) == SupervisorKey(b)
            <==> Split(a.instanceId, ':') + ([""] + Split(a.sessionId, ':')) == Split(b.instanceId, ':') + ([""] + Split(b.sessionId, ':'))
  {
    SupervisorKeyTokens(a);
    SupervisorKeyTokens(b);
    JoinOfSplit(SupervisorKey(a), ':');
    JoinOfSplit(SupervisorKey(b), ':');
  }

  lemma {:induction false} SupervisorKeyTokens(ref: Ref)
    ensures Split(SupervisorKey(ref), ':') == Split(ref.instanceId, ':') + ([""] + Split(ref.sessionId, ':'))
  {
    SplitToken("", "", ':');
    hide Split;
    assert SupervisorKey(ref) == ref.instanceId + [':'] + ("" + [':'] + ref.sessionId);
    SplitOfConcat(ref.instanceId, "" + [':'] + ref.sessionId, ':');
    SplitOfConcat("", ref.sessionId, ':');
  }

  /** Colons in ids make different sessions share a key, in either table. */
  lemma {:induction false} KeysCanCollide()
    ensures GuardKey(Ref("a:b", "c", "d")) == GuardKey(Ref("a", "b:c", "d"))
    ensures SupervisorKey(Ref("a::b", "p", "c")) == SupervisorKey(Ref("a", "p", "b::c"))
  {
    JoinedKey(Ref("a:b", "c", "d"));
    JoinedKey(Ref("a", "b:c", "d"));
    hide SessionKey;
    assert "a:b" + [':'] + ("c" + [':'] + "d") == "a:b:c:d" == "a" + [':'] + ("b:c" + [':'] + "d");
  }

  // ---- which references have a key to themselves ----

  predicate IsSafeCharacter(c: char) {
    'A' <= c <= 'Z' || 'a' <= c <= 'z' || '0' <= c <= '9' || c in {'.', '_', ':', '-'}
  }

  predicate IsSafeId(id: string) {
    id != "" && forall i :: 0 <= i < |id| ==> IsSafeCharacter(id[i])
  }

  predicate IsSafe(ref: Ref) {
    IsSafeId(ref.instanceId) && IsSafeId(ref.providerId) && IsSafeId(ref.sessionId)
  }

  lemma {:induction false} SafeIds(id: string)
    ensures IsSafeId(id) <==> IsToken(id)
  {
    forall i | 0 <= i < |id| ensures IsSafeCharacter(id[i]) <==> id[i] in TOKEN_CHARACTERS {
      TokenCharacters(id[i]);
    }
    hide IsSafeCharacter;
  }

  /** The three parts of a text around two places. */
  function RefAt(key: string, c: nat, d: nat): Ref
    requires c < d < |key|
  {
    Ref(key[..c], key[c + 1..d], key[d + 1..])
  }

  lemma {:induction false} RefAtHasKey(key: string, c: nat, d: nat)
    requires c < d < |key| && key[c] == key[d] == ':'
    ensures GuardKey(RefAt(key, c, d)) == key
    ensures IsSafe(RefAt(key, c, d)) <==> 0 < c < d - 1 < |key| - 2 && IsSafeId(key)
  {
    JoinedKey(RefAt(key, c, d));
    hide SessionKey, IsSafeCharacter;
    assert key == key[..c] + [':'] + (key[c + 1..d] + [':'] + key[d + 1..]);
    SafeParts(key, c, d);
  }

  lemma {:induction false} SafeParts(key: string, c: nat, d: nat)
    requires c < d < |key| && key[c] == key[d] == ':'
    ensures IsSafe(RefAt(key, c, d)) <==> 0 < c < d - 1 < |key| - 2 && IsSafeId(key)
  {
    hide IsSafeCharacter;
    assert IsSafeCharacter(':') by { ColonIsSafe(); }
    var ref := RefAt(key, c, d);
    assert forall i :: 0 <= i < c ==> ref.instanceId[i] == key[i];
    assert forall i :: c < i < d ==> ref.providerId[i - c - 1] == key[i];
    assert forall i :: d < i < |key| ==> ref.sessionId[i - d - 1] == key[i];
    if IsSafe(ref) {
      forall i | 0 <= i < |key| ensures IsSafeCharacter(key[i]) {
        if i < c {
          assert IsSafeCharacter(ref.instanceId[i]);
        } else if c < i < d {
          assert IsSafeCharacter(ref.providerId[i - c - 1]);
        } else if d < i {
          assert IsSafeCharacter(ref.sessionId[i - d - 1]);
        }
      }
    }
  }

  lemma {:induction false} ColonIsSafe()
    ensures IsSafeCharacter(':')
  {
  }

  /** Where the ids of a reference are in its key. */
  lemma {:induction false} CutsOf(ref: Ref)
    ensures var key, c := GuardKey(ref), |ref.instanceId|;
            var d := c + 1 + |ref.providerId|;
            && d < |key| && key[c] == key[d] == ':' && RefAt(key, c, d) == ref
            && |key| == d + 1 + |ref.sessionId|
            && (forall i :: 0 <= i < c ==> key[i] == ref.instanceId[i])
            && (forall i :: c < i < d ==> key[i] == ref.providerId[i - c - 1])
            && (forall i :: d < i < |key| ==> key[i] == ref.sessionId[i - d - 1])
  {
    JoinedKey(ref);
    hide SessionKey;
  }

  /** An id has a colon at which the reference can be divided differently, leaving no id empty. */
  predicate CanBeDividedElsewhere(ref: Ref)
    requires IsSafe(ref)
  {
    || Contains(ref.instanceId[1..], ':')
    || (Contains(ref.providerId, ':') && ref.providerId != ":")
    || Contains(ref.sessionId[..|ref.sessionId| - 1], ':')
  }

  /**
   * Some other reference shares a reference's guard key exactly when the reference's instance id has a
   * colon after its first character, its session id has one before its last, or its provider id has one
   * and is not a lone colon.
   */
  lemma {:induction false} SharesGuardKeyIff(a: Ref)
    requires IsSafe(a)
    ensures (exists b :: IsSafe(b) && b != a && GuardKey(b) == GuardKey(a)) <==> CanBeDividedElsewhere(a)
  {
    hide GuardKey, IsSafe;
    if b :| IsSafe(b) && b != a && GuardKey(b) == GuardKey(a) {
      OtherDivision(a, b);
    }
    if CanBeDividedElsewhere(a) {
      var b := Divided(a);
    }
  }

  lemma {:induction false} OtherDivision(a: Ref, b: Ref)
    requires IsSafe(a) && IsSafe(b) && b != a && GuardKey(b) == GuardKey(a)
    ensures CanBeDividedElsewhere(a)
  {
    CutsOf(a);
    CutsOf(b);
    hide GuardKey, IsSafeCharacter;
    var key, c, d := GuardKey(a), |a.instanceId|, |a.instanceId| + 1 + |a.providerId|;
    var e, f := |b.instanceId|, |b.instanceId| + 1 + |b.providerId|;
    assert (e, f) != (c, d);
    ColonInside(a, e);
    ColonInside(a, f);
  }

  /** A colon of the key that is not one of the two joins is in one of the ids. */
  lemma {:induction false} ColonInside(a: Ref, i: nat)
    requires IsSafe(a) && i < |GuardKey(a)| && GuardKey(a)[i] == ':'
    ensures var c := |a.instanceId|;
            var d := c + 1 + |a.providerId|;
            && (0 < i < c ==> Contains(a.instanceId[1..], ':'))
            && (c < i < d ==> Contains(a.providerId, ':'))
            && (d < i < |GuardKey(a)| - 1 ==> Contains(a.sessionId[..|a.sessionId| - 1], ':'))
  {
    CutsOf(a);
    hide GuardKey, IsSafeCharacter, RefAt;
    var c := |a.instanceId|;
    var d := c + 1 + |a.providerId|;
    if 0 < i < c {
      assert a.instanceId[1..][i - 1] == ':';
    } else if c < i < d {
      assert a.providerId[i - c - 1] == ':';
    } else if d < i < |GuardKey(a)| - 1 {
      assert a.sessionId[..|a.sessionId| - 1][i - d - 1] == ':';
    }
  }

  lemma {:induction false} Divided(a: Ref) returns (b: Ref)
    requires IsSafe(a) && CanBeDividedElsewhere(a)
    ensures IsSafe(b) && b != a && GuardKey(b) == GuardKey(a)
  {
    CutsOf(a);
    hide GuardKey, IsSafeCharacter, Contains;
    var key, c := GuardKey(a), |a.instanceId|;
    var d := c + 1 + |a.providerId|;
    if Contains(a.instanceId[1..], ':') {
      var i := PlaceOf(a.instanceId[1..], ':');
      b := CutAt(a, i + 1, d);
    } else if Contains(a.sessionId[..|a.sessionId| - 1], ':') {
      var i := PlaceOf(a.sessionId[..|a.sessionId| - 1], ':');
      b := CutAt(a, c, d + 1 + i);
    } else {
      var i := PlaceOf(a.providerId, ':');
      if i > 0 {
        b := CutAt(a, c, c + 1 + i);
      } else {
        b := CutAt(a, c + 1, d);
      }
    }
  }

  lemma {:induction false} PlaceOf(s: string, c: char) returns (i: nat)
    requires Contains(s, c)
    ensures i < |s| && s[i] == c
  {
    i :| 0 <= i < |s| && s[i] == c;
  }

  /** The key of `a` divided at two other places. */
  lemma {:induction false} CutAt(a: Ref, e: nat, f: nat) returns (b: Ref)
    requires IsSafe(a) && 0 < e < f - 1 < |GuardKey(a)| - 2 && GuardKey(a)[e] == GuardKey(a)[f] == ':'
    requires e != |a.instanceId| || f != |a.instanceId| + 1 + |a.providerId|
    ensures IsSafe(b) && b != a && GuardKey(b) == GuardKey(a)
  {
    CutsOf(a);
    var key, c := GuardKey(a), |a.instanceId|;
    hide GuardKey, IsSafeCharacter;
    SafeParts(key, c, c + 1 + |a.providerId|);
    RefAtHasKey(key, e, f);
    b := RefAt(key, e, f);
    assert |b.instanceId| == e && |b.providerId| == f - e - 1;
  }

  predicate HasDoubleColon(s: string) {
    exists i :: 0 <= i < |s| - 1 && s[i] == s[i + 1] == ':'
  }

  predicate CanBePairedElsewhere(ref: Ref)
    requires IsSafe(ref)
  {
    HasDoubleColon(ref.instanceId[1..] + ":") || HasDoubleColon(":" + ref.sessionId[..|ref.sessionId| - 1])
  }

  /**
   * Some other session shares a session's key in the supervisor's table exactly when the instance id has
   * a double colon after its first character or ends with a further colon, or the session id has a double
   * colon before its last character or starts with a colon that is not all of it.
   */
  lemma {:induction false} SharesSupervisorKeyIff(a: Ref)
    requires IsSafe(a)
    ensures (exists b :: IsSafe(b) && SupervisorKey(b) == SupervisorKey(a)
                         && (b.instanceId != a.instanceId || b.sessionId != a.sessionId))
            <==> CanBePairedElsewhere(a)
  {
    hide SupervisorKey, IsSafe, CanBePairedElsewhere;
    if b :| IsSafe(b) && SupervisorKey(b) == SupervisorKey(a) && (b.instanceId != a.instanceId || b.sessionId != a.sessionId) {
      OtherPair(a, b);
    }
    if CanBePairedElsewhere(a) {
      var b := DividedPair(a);
    }
  }

  lemma {:induction false} OtherPair(a: Ref, b: Ref)
    requires IsSafe(a) && IsSafe(b) && SupervisorKey(b) == SupervisorKey(a)
    requires b.instanceId != a.instanceId || b.sessionId != a.sessionId
    ensures CanBePairedElsewhere(a)
  {
    hide IsSafeCharacter;
    var key, c, e := SupervisorKey(a), |a.instanceId|, |b.instanceId|;
    assert b.instanceId == key[..e] && b.sessionId == key[e + 2..];
    assert a.instanceId == key[..c] && a.sessionId == key[c + 2..];
    assert e != c && 0 < e < |key| - 2;
    assert key[e] == key[e + 1] == ':';
    PairSides(a);
    hide SupervisorKey;
    if e < c {
      assert (a.instanceId[1..] + ":")[e - 1] == (a.instanceId[1..] + ":")[e] == ':';
    } else {
      assert (":" + a.sessionId[..|a.sessionId| - 1])[e - c - 1] == (":" + a.sessionId[..|a.sessionId| - 1])[e - c] == ':';
    }
  }

  lemma {:induction false} PairSides(a: Ref)
    requires IsSafe(a)
    ensures var key, c := SupervisorKey(a), |a.instanceId|;
            var left, right := a.instanceId[1..] + ":", ":" + a.sessionId[..|a.sessionId| - 1];
            && |left| == c && |right| == |key| - c - 2 && IsSafeId(key)
            && (forall i :: 0 <= i < |left| ==> left[i] == key[i + 1])
            && (forall i :: 0 <= i < |right| ==> right[i] == key[c + 1 + i])
  {
    assert IsSafeCharacter(':') by { ColonIsSafe(); }
    hide IsSafeCharacter;
  }

  lemma {:induction false} PairAt(key: string, e: nat, providerId: string)
    requires IsSafeId(key) && 0 < e < |key| - 2 && key[e] == key[e + 1] == ':'
    ensures var b := Ref(key[..e], providerId, key[e + 2..]);
            SupervisorKey(b) == key && IsSafeId(b.instanceId) && IsSafeId(b.sessionId)
  {
    hide IsSafeCharacter;
    assert key == key[..e] + "::" + key[e + 2..];
  }

  lemma {:induction false} PlaceOfDoubleColon(s: string) returns (i: nat)
    requires HasDoubleColon(s)
    ensures i < |s| - 1 && s[i] == s[i + 1] == ':'
  {
    i :| 0 <= i < |s| - 1 && s[i] == s[i + 1] == ':';
  }

  lemma {:induction false} DividedPair(a: Ref) returns (b: Ref)
    requires IsSafe(a) && CanBePairedElsewhere(a)
    ensures IsSafe(b) && SupervisorKey(b) == SupervisorKey(a) && b.instanceId != a.instanceId
  {
    PairSides(a);
    var key, c := SupervisorKey(a), |a.instanceId|;
    assert |key| == c + 2 + |a.sessionId|;
    hide IsSafeCharacter, SupervisorKey, HasDoubleColon;
    var e: nat := c;
    if HasDoubleColon(a.instanceId[1..] + ":") {
      var i := PlaceOfDoubleColon(a.instanceId[1..] + ":");
      e := i + 1;
    } else {
      var i := PlaceOfDoubleColon(":" + a.sessionId[..|a.sessionId| - 1]);
      e := i + c + 1;
    }
    PairAt(key, e, a.providerId);
    b := Ref(key[..e], a.providerId, key[e + 2..]);
    assert |b.instanceId| == e;
  }

  /** Ids without colons have their keys to themselves, in both tables. */
  lemma {:induction false} PlainIdsHaveTheirOwnKeys(a: Ref, b: Ref)
    requires !Contains(a.instanceId, ':') && !Contains(a.providerId, ':') && !Contains(a.sessionId, ':')
    ensures GuardKey(a) == GuardKey(b) ==> a == b
    ensures SupervisorKey(a) == SupervisorKey(b) ==> a.instanceId == b.instanceId && a.sessionId == b.sessionId
  {
    if GuardKey(a) == GuardKey(b) {
      PlainGuardKey(a, b);
    }
    if SupervisorKey(a) == SupervisorKey(b) {
      PlainSupervisorKey(a, b);
    }
  }

  lemma {:induction false} PlainGuardKey(a: Ref, b: Ref)
    requires !Contains(a.instanceId, ':') && !Contains(a.providerId, ':') && !Contains(a.sessionId, ':')
    requires GuardKey(a) == GuardKey(b)
    ensures a == b
  {
    CutsOf(a);
    CutsOf(b);
    hide GuardKey;
    var key, c, d := GuardKey(a), |a.instanceId|, |a.instanceId| + 1 + |a.providerId|;
    assert forall i :: 0 <= i < |key| && key[i] == ':' ==> i == c || i == d;
  }

  lemma {:induction false} PlainSupervisorKey(a: Ref, b: Ref)
    requires !Contains(a.instanceId, ':') && !Contains(a.sessionId, ':') && SupervisorKey(a) == SupervisorKey(b)
    ensures a.instanceId == b.instanceId && a.sessionId == b.sessionId
  {
    var key, c, e := SupervisorKey(a), |a.instanceId|, |b.instanceId|;
    assert key[e] == key[e + 1] == ':';
    assert forall i :: 0 <= i < c ==> key[i] == a.instanceId[i];
    assert forall i :: c + 2 <= i < |key| ==> key[i] == a.sessionId[i - c - 2];
    assert e == c;
    assert key[..c] == a.instanceId && key[..e] == b.instanceId;
    assert key[c + 2..] == a.sessionId && key[e + 2..] == b.sessionId;
  }
}
