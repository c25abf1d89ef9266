/**
 * The links between rotated keys as a graph of key ids, for key ids of any form: when following the
 * links leads in a circle, and when two active keys are linked.
 */
module KeyLineages {
  import opened Collections
  import opened Text
  import opened ApiKeys

  type Graph = set<(string, string)>

  /** From the id of each key that has a link to the id that the link names. */
  function Links(rs: seq<Record>): Graph {
    set r | r in rs && r.rotatedFrom.Some? :: (r.keyId, r.rotatedFrom.value)
  }

  function ActiveIds(rs: seq<Record>): set<string> {
    set r | r in rs && r.status.Active? :: r.keyId
  }

  // ---- walks ----

  predicate IsWalk(links: Graph, ids: seq<string>) {
    forall i :: 0 <= i < |ids| - 1 ==> (ids[i], ids[i + 1]) in links
  }

  /** Following links from `a` leads to `b`, in no step or more. */
  ghost predicate Leads(links: Graph, a: string, b: string) {
    exists ids: seq<string> :: ids != [] && ids[0] == a && ids[|ids| - 1] == b && IsWalk(links, ids)
  }

  lemma {:induction false} LeadsToItself(links: Graph, a: string)
    ensures Leads(links, a, a)
  {
    assert [a][0] == a && IsWalk(links, [a]);
  }

  lemma {:induction false} LeadsOn(links: Graph, a: string, b: string, c: string)
    requires Leads(links, a, b) && Leads(links, b, c)
    ensures Leads(links, a, c)
  {
    var p: seq<string> :| p != [] && p[0] == a && p[|p| - 1] == b && IsWalk(links, p);
    var q: seq<string> :| q != [] && q[0] == b && q[|q| - 1] == c && IsWalk(links, q);
    var ids := p + q[1..];
    assert IsWalk(links, ids) by {
      forall i | 0 <= i < |ids| - 1 ensures (ids[i], ids[i + 1]) in links {
        if i < |p| - 1 {
          assert (p[i], p[i + 1]) in links;
        } else {
          assert ids[i] == q[i - |p| + 1] && ids[i + 1] == q[i - |p| + 2];
        }
      }
    }
    assert ids[|ids| - 1] == c;
  }

  lemma {:induction false} OneStep(links: Graph, a: string, b: string)
    requires (a, b) in links
    ensures Leads(links, a, b)
  {
    assert [a, b][0] == a && IsWalk(links, [a, b]);
  }

  lemma {:induction false} MoreLinks(links: Graph, more: Graph, a: string, b: string)
    requires Leads(links, a, b) && links <= more
    ensures Leads(more, a, b)
  {
    var ids: seq<string> :| ids != [] && ids[0] == a && ids[|ids| - 1] == b && IsWalk(links, ids);
    assert IsWalk(more, ids);
  }

  /** With one more link, one walks as before or over the new link. */
  lemma {:induction false} LeadsAfterLink(links: Graph, x: string, y: string, a: string, b: string)
    ensures Leads(links + {(x, y)}, a, b) <==> Leads(links, a, b) || (Leads(links, a, x) && Leads(links, y, b))
  {
    var more := links + {(x, y)};
    hide Leads;
    if Leads(links, a, b) {
      MoreLinks(links, more, a, b);
    }
    if Leads(links, a, x) && Leads(links, y, b) {
      MoreLinks(links, more, a, x);
      MoreLinks(links, more, y, b);
      OneStep(more, x, y);
      LeadsOn(more, a, x, y);
      LeadsOn(more, a, y, b);
    }
    if Leads(more, a, b) {
      var ids := WalkOf(more, a, b);
      WalkAvoidsOrCrosses(links, x, y, ids);
    }
  }

  lemma {:induction false} WalkOf(links: Graph, a: string, b: string) returns (ids: seq<string>)
    requires Leads(links, a, b)
    ensures ids != [] && ids[0] == a && ids[|ids| - 1] == b && IsWalk(links, ids)
  {
    ids :| ids != [] && ids[0] == a && ids[|ids| - 1] == b && IsWalk(links, ids);
  }

  lemma {:induction false} WalkAvoidsOrCrosses(links: Graph, x: string, y: string, ids: seq<string>)
    requires ids != [] && IsWalk(links + {(x, y)}, ids)
    ensures var a, b := ids[0], ids[|ids| - 1];
            Leads(links, a, b) || (Leads(links, a, x) && Leads(links, y, b))
  {
    hide Leads;
    var a, b := ids[0], ids[|ids| - 1];
    LeadsToItself(links, a);
    if |ids| > 1 {
      var c := ids[1];
      assert (ids[0], ids[1]) in links + {(x, y)};
      assert ids[1..][0] == c && ids[1..][|ids| - 2] == b;
      TailIsWalk(links + {(x, y)}, ids);
      WalkAvoidsOrCrosses(links, x, y, ids[1..]);
      if (a, c) in links {
        OneStep(links, a, c);
        if Leads(links, c, b) {
          LeadsOn(links, a, c, b);
        } else {
          LeadsOn(links, a, c, x);
        }
      }
    }
  }

  lemma {:induction false} TailIsWalk(links: Graph, ids: seq<string>)
    requires |ids| > 1 && IsWalk(links, ids)
    ensures IsWalk(links, ids[1..])
  {
    assert forall i :: 0 <= i < |ids| - 1 ==> ids[1..][i] == ids[i + 1];
  }

  // ---- circles ----

  /** Some link leads back to where it starts. */
  ghost predicate HasCircle(links: Graph) {
    exists a, b :: (a, b) in links && Leads(links, b, a)
  }

  lemma {:induction false} LinkClosesCircleIff(links: Graph, x: string, y: string)
    ensures HasCircle(links + {(x, y)}) <==> HasCircle(links) || Leads(links, y, x)
  {
    var more := links + {(x, y)};
    hide Leads;
    if HasCircle(links) {
      var a, b :| (a, b) in links && Leads(links, b, a);
      MoreLinks(links, more, b, a);
      assert (a, b) in more;
    }
    if Leads(links, y, x) {
      MoreLinks(links, more, y, x);
      assert (x, y) in more;
    }
    if HasCircle(more) {
      var a, b :| (a, b) in more && Leads(more, b, a);
      LeadsAfterLink(links, x, y, b, a);
      if (a, b) in links && !Leads(links, b, a) {
        OneStep(links, a, b);
        LeadsOn(links, y, a, b);
        LeadsOn(links, y, b, x);
      }
    }
  }

  // ---- what calls do to the links ----

  lemma {:induction false} LinksAfterRotation(kind: StoreKind, rs: seq<Record>, op: Operation, hash: KeyHash)
    requires Sound(rs) && op.Rotate? && Apply(kind, rs, op, hash).0.Rotated?
    ensures var after := Apply(kind, rs, op, hash).1;
            && Links(after) == Links(rs) + {(op.nextKeyId, Trim(op.keyId))}
            && op.keyId in ActiveIds(rs) && op.nextKeyId !in ActiveIds(rs)
            && ActiveIds(after) == ActiveIds(rs) - {op.keyId} + {op.nextKeyId}
  {
    RotationIds(kind, rs, op, hash);
    hide Apply, Trim, Save, UniqueKeys, LinksTrimmed, IsSoundSave, Load;
    var revoked, replacement := RotationSaves(kind, rs, op, hash);
    var once := Save(kind, rs, revoked);
    SoundSave(kind, rs, revoked);
    SoundSave(kind, once, replacement);
    RevocationKeepsGraph(rs, once, revoked);
    NewKeyJoinsGraph(once, Save(kind, once, replacement), replacement);
  }

  lemma {:induction false} RotationIds(kind: StoreKind, rs: seq<Record>, op: Operation, hash: KeyHash)
    requires op.Rotate? && Apply(kind, rs, op, hash).0.Rotated?
    ensures Load(rs, op.keyId).Some? && Load(rs, op.keyId).value.status.Active? && Load(rs, op.nextKeyId).None?
    ensures Apply(kind, rs, op, hash).0.replacement.keyId == op.nextKeyId && Apply(kind, rs, op, hash).0.replacement.status.Active?
  {
    hide Trim, Save, IndexOf, HashRegistered;
  }

  lemma {:induction false} RevocationKeepsGraph(rs: seq<Record>, once: seq<Record>, revoked: Record)
    requires UniqueKeys(rs) && Load(rs, revoked.keyId).Some? && IsRevocationOf(Load(rs, revoked.keyId).value, revoked)
    requires forall x :: x in once <==> x == revoked || (x in rs && x.keyId != revoked.keyId)
    ensures Links(once) == Links(rs) && ActiveIds(once) == ActiveIds(rs) - {revoked.keyId}
  {
    var current := Load(rs, revoked.keyId).value;
    hide IndexOf;
    forall x | x in rs ensures x == current || (x in once && x.keyId != revoked.keyId) {
      UniqueLoad(rs, x);
    }
    hide Load, UniqueKeys;
    forall link ensures link in Links(once) <==> link in Links(rs) {
      if link in Links(rs) {
        var x :| x in rs && x.rotatedFrom.Some? && link == (x.keyId, x.rotatedFrom.value);
        assert (if x == current then revoked else x) in once;
      }
      if link in Links(once) {
        var x :| x in once && x.rotatedFrom.Some? && link == (x.keyId, x.rotatedFrom.value);
        assert (if x == revoked then current else x) in rs;
      }
    }
  }

  lemma {:induction false} NewKeyJoinsGraph(rs: seq<Record>, after: seq<Record>, r: Record)
    requires Load(rs, r.keyId).None?
    requires forall x :: x in after <==> x == r || (x in rs && x.keyId != r.keyId)
    ensures Links(after) == Links(rs) + if r.rotatedFrom.Some? then {(r.keyId, r.rotatedFrom.value)} else {}
    ensures ActiveIds(after) == ActiveIds(rs) + if r.status.Active? then {r.keyId} else {}
  {
    hide IndexOf;
    assert forall x :: x in rs ==> x in after && x.keyId != r.keyId;
    assert r in after;
  }

  lemma {:induction false} GraphAfterProvision(kind: StoreKind, rs: seq<Record>, op: Operation, hash: KeyHash)
    requires Sound(rs) && op.Provision? && Apply(kind, rs, op, hash).0.Saved?
    ensures var after := Apply(kind, rs, op, hash).1;
            && Links(after) == Links(rs) && op.keyId !in ActiveIds(rs) && ActiveIds(after) == ActiveIds(rs) + {op.keyId}
  {
    hide Trim, Save, IndexOf, HashRegistered, Links, ActiveIds, UniqueKeys, LinksTrimmed;
    var record := NewRecord(hash(Trim(op.key)), op.keyId, op.credential, None, op.at);
    SoundSave(kind, rs, record);
    NewKeyJoinsGraph(rs, Save(kind, rs, record), record);
    NotStoredNotActive(rs, op.keyId);
  }

  lemma {:induction false} NotStoredNotActive(rs: seq<Record>, keyId: string)
    requires Load(rs, keyId).None?
    ensures keyId !in ActiveIds(rs)
  {
  }

  /** Every call but a completed rotation leaves the links alone, and every call but that and a provision makes no key active. */
  lemma {:induction false} GraphAfterOtherCalls(kind: StoreKind, rs: seq<Record>, op: Operation, hash: KeyHash)
    requires Sound(rs) && !Apply(kind, rs, op, hash).0.Rotated?
    ensures Links(Apply(kind, rs, op, hash).1) == Links(rs)
    ensures !op.Provision? ==> ActiveIds(Apply(kind, rs, op, hash).1) <= ActiveIds(rs)
  {
    var (answer, after) := Apply(kind, rs, op, hash);
    hide Trim, Save, IndexOf, HashRegistered, Links, ActiveIds, FreezeRecord, Sound;
    if after != rs {
      match op
      case Provision(_, _, _, _) => GraphAfterProvision(kind, rs, op, hash);
      case Revoke(keyId, reason, at) =>
        var revoked := FreezeRecord(RevokedRecord(Load(rs, keyId).value, at, reason)).value;
        RevocationIsSound(rs, Load(rs, keyId).value, at, reason);
        SoundSave(kind, rs, revoked);
        SoundIsUnique(rs);
        RevocationKeepsGraph(rs, after, revoked);
      case Rotate(_, _, _, _, _, _, _) =>
        var revoked, _ := RotationSaves(kind, rs, op, hash);
        SoundSave(kind, rs, revoked);
        SoundIsUnique(rs);
        RevocationKeepsGraph(rs, after, revoked);
    }
  }

  // ---- when links lead in a circle ----

  /** The call completes a rotation to an id from which the links already lead to the id it replaces, trimmed. */
  ghost predicate ClosesCircle(kind: StoreKind, rs: seq<Record>, op: Operation, hash: KeyHash) {
    op.Rotate? && Apply(kind, rs, op, hash).0.Rotated? && Leads(Links(rs), Trim(op.keyId), op.nextKeyId)
  }

  lemma {:induction false} CallClosesCircleIff(kind: StoreKind, rs: seq<Record>, op: Operation, hash: KeyHash)
    requires Sound(rs)
    ensures HasCircle(Links(Apply(kind, rs, op, hash).1)) <==> HasCircle(Links(rs)) || ClosesCircle(kind, rs, op, hash)
  {
    hide Apply, Trim, Sound, HasCircle, Leads, Links;
    if Apply(kind, rs, op, hash).0.Rotated? {
      OnlyRotateRotates(kind, rs, op, hash);
      LinksAfterRotation(kind, rs, op, hash);
      LinkClosesCircleIff(Links(rs), op.nextKeyId, Trim(op.keyId));
    } else {
      GraphAfterOtherCalls(kind, rs, op, hash);
    }
  }

  ghost predicate SomeCallClosesCircle(kind: StoreKind, ops: seq<Operation>, hash: KeyHash) {
    exists n :: 0 <= n < |ops| && ClosesCircle(kind, Run(kind, ops[..n], hash), ops[n], hash)
  }

  lemma {:induction false} OneMoreCall(kind: StoreKind, before: seq<Operation>, last: Operation, hash: KeyHash)
    ensures SomeCallClosesCircle(kind, before + [last], hash)
            <==> SomeCallClosesCircle(kind, before, hash) || ClosesCircle(kind, Run(kind, before, hash), last, hash)
  {
    hide ClosesCircle, Run;
    var ops := before + [last];
    assert ops[..|before|] == before && ops[|before|] == last;
    assert forall n :: 0 <= n < |before| ==> before[..n] == ops[..n] && before[n] == ops[n];
    if SomeCallClosesCircle(kind, before, hash) {
      var n :| 0 <= n < |before| && ClosesCircle(kind, Run(kind, before[..n], hash), before[n], hash);
      assert ClosesCircle(kind, Run(kind, ops[..n], hash), ops[n], hash);
    }
    if ClosesCircle(kind, Run(kind, before, hash), last, hash) {
      assert ClosesCircle(kind, Run(kind, ops[..|before|], hash), ops[|before|], hash);
    }
  }

  /**
   * Over every run and either store, whatever the key ids: the links of the keys lead in a circle exactly
   * when some call completed a rotation whose new id the links already led to from the trimmed old id.
   */
  lemma {:induction false} LinksCircleIff(kind: StoreKind, ops: seq<Operation>, hash: KeyHash)
    ensures HasCircle(Links(Run(kind, ops, hash))) <==> SomeCallClosesCircle(kind, ops, hash)
  {
    hide Apply, HasCircle, Links, Sound, ClosesCircle;
    if ops == [] {
      NoLinksNoCircle();
    } else {
      var before, last := ops[..|ops| - 1], ops[|ops| - 1];
      assert ops == before + [last];
      hide SomeCallClosesCircle;
      LinksCircleIff(kind, before, hash);
      EveryRunIsSound(kind, before, hash);
      OneMoreCall(kind, before, last, hash);
      CallClosesCircleIff(kind, Run(kind, before, hash), last, hash);
    }
  }

  lemma {:induction false} NoLinksNoCircle()
    ensures !HasCircle(Links([]))
  {
  }

  /** With trimmed key ids every link leads to an older key, so there is no circle. */
  lemma {:induction false} TrimmedRunsHaveNoCircle(ops: seq<Operation>, hash: KeyHash)
    requires forall i :: 0 <= i < |ops| ==> IsTrimmed(ops[i])
    ensures !HasCircle(Links(Run(InMemory, ops, hash)))
  {
    EveryRunKeepsInv(ops, hash);
    var rs := Run(InMemory, ops, hash);
    hide Run, Leads, ApiKeys.Inv, Links, IndexOf;
    if a, b :| (a, b) in Links(rs) && Leads(Links(rs), b, a) {
      LinkLeadsBack(rs, a, b);
      var ids := WalkOf(Links(rs), b, a);
      WalkLeadsBack(rs, ids);
    }
  }

  lemma {:induction false} LinkLeadsBack(rs: seq<Record>, a: string, b: string)
    requires Inv(rs) && (a, b) in Links(rs)
    ensures 0 <= IndexOf(rs, b) < IndexOf(rs, a)
  {
    hide FindIndex;
    var j := IndexOf(rs, a);
    assert rs[j].rotatedFrom == Some(b);
    assert HasOlderParent(rs, j);
  }

  lemma {:induction false} WalkLeadsBack(rs: seq<Record>, ids: seq<string>)
    requires Inv(rs) && ids != [] && IsWalk(Links(rs), ids)
    ensures IndexOf(rs, ids[|ids| - 1]) <= IndexOf(rs, ids[0])
  {
    hide ApiKeys.Inv, Links, IndexOf;
    if |ids| > 1 {
      TailIsWalk(Links(rs), ids);
      WalkLeadsBack(rs, ids[1..]);
      assert (ids[0], ids[1]) in Links(rs);
      LinkLeadsBack(rs, ids[0], ids[1]);
    }
  }

  // ---- when two active keys are linked ----

  /** The links in both directions. */
  function BothWays(links: Graph): Graph {
    links + set l | l in links :: (l.1, l.0)
  }

  /** The links join two ids, in whichever direction. */
  ghost predicate Joined(links: Graph, a: string, b: string) {
    Leads(BothWays(links), a, b)
  }

  lemma {:induction false} JoinedIsSymmetric(links: Graph, a: string, b: string)
    requires Joined(links, a, b)
    ensures Joined(links, b, a)
  {
    hide Leads;
    var ids := WalkOf(BothWays(links), a, b);
    WalkBack(links, ids);
  }

  lemma {:induction false} WalkBack(links: Graph, ids: seq<string>)
    requires ids != [] && IsWalk(BothWays(links), ids)
    ensures Leads(BothWays(links), ids[|ids| - 1], ids[0])
  {
    hide Leads;
    if |ids| == 1 {
      LeadsToItself(BothWays(links), ids[0]);
    } else {
      TailIsWalk(BothWays(links), ids);
      WalkBack(links, ids[1..]);
      assert (ids[0], ids[1]) in BothWays(links);
      OneStep(BothWays(links), ids[1], ids[0]);
      LeadsOn(BothWays(links), ids[|ids| - 1], ids[1], ids[0]);
    }
  }

  lemma {:induction false} JoinedAfterLink(links: Graph, x: string, y: string, a: string, b: string)
    ensures Joined(links + {(x, y)}, a, b)
            <==> || Joined(links, a, b)
                 || (Joined(links, a, x) && Joined(links, y, b))
                 || (Joined(links, a, y) && Joined(links, x, b))
  {
    var both := BothWays(links);
    assert BothWays(links + {(x, y)}) == (both + {(x, y)}) + {(y, x)};
    hide Leads, BothWays;
    LeadsAfterLink(both + {(x, y)}, y, x, a, b);
    LeadsAfterLink(both, x, y, a, b);
    LeadsAfterLink(both, x, y, a, y);
    LeadsAfterLink(both, x, y, x, b);
    JoinsEitherWay(links, x, y, a, b);
  }

  /** What joins over both new directions are joins over one of them. */
  lemma {:induction false} JoinsEitherWay(links: Graph, x: string, y: string, a: string, b: string)
    ensures Joined(links, x, x) && Joined(links, y, y)
    ensures Joined(links, x, y) ==> Joined(links, y, x)
    ensures Joined(links, a, x) && Joined(links, x, b) ==> Joined(links, a, b)
    ensures Joined(links, a, y) && Joined(links, y, b) ==> Joined(links, a, b)
  {
    hide Leads;
    var both := BothWays(links);
    LeadsToItself(both, x);
    LeadsToItself(both, y);
    if Joined(links, x, y) {
      JoinedIsSymmetric(links, x, y);
    }
    if Joined(links, a, x) && Joined(links, x, b) {
      LeadsOn(both, a, x, b);
    }
    if Joined(links, a, y) && Joined(links, y, b) {
      LeadsOn(both, a, y, b);
    }
  }

  /** Two different active keys are of one lineage. */
  ghost predicate TwoActive(links: Graph, active: set<string>) {
    exists a, b :: a in active && b in active && a != b && Joined(links, a, b)
  }

  ghost predicate ActiveJoined(links: Graph, active: set<string>, id: string) {
    exists a :: a in active && Joined(links, a, id)
  }

  lemma {:induction false} NewActiveId(links: Graph, active: set<string>, id: string)
    requires !TwoActive(links, active) && id !in active
    ensures TwoActive(links, active + {id}) <==> ActiveJoined(links, active, id)
  {
    hide Joined;
    if TwoActive(links, active + {id}) {
      var a, b :| a in active + {id} && b in active + {id} && a != b && Joined(links, a, b);
      JoinedIsSymmetric(links, a, b);
    }
    if a :| a in active && Joined(links, a, id) {
      assert a in active + {id} && id in active + {id};
    }
  }

  lemma {:induction false} NewActiveLink(links: Graph, active: set<string>, id: string, link: string)
    requires !TwoActive(links, active) && id !in active
    ensures TwoActive(links + {(id, link)}, active + {id})
            <==> ActiveJoined(links, active, id) || ActiveJoined(links, active, link)
  {
    var more := links + {(id, link)};
    hide Joined;
    forall a, b ensures JoinsThrough(links, id, link, a, b) {
      JoinedAfterLink(links, id, link, a, b);
      JoinsEitherWay(links, id, link, a, b);
    }
    if TwoActive(more, active + {id}) {
      var a, b :| a in active + {id} && b in active + {id} && a != b && Joined(more, a, b);
      JoinedIsSymmetric(more, a, b);
      assert JoinsThrough(links, id, link, a, b) && JoinsThrough(links, id, link, b, a);
    }
    if a :| a in active && (Joined(links, a, id) || Joined(links, a, link)) {
      assert JoinsThrough(links, id, link, a, id);
      assert a in active + {id} && id in active + {id};
    }
  }

  ghost predicate JoinsThrough(links: Graph, id: string, link: string, a: string, b: string) {
    && (Joined(links + {(id, link)}, a, b)
        <==> || Joined(links, a, b)
             || (Joined(links, a, id) && Joined(links, link, b))
             || (Joined(links, a, link) && Joined(links, id, b)))
    && Joined(links, id, id)
  }

  /**
   * While no lineage has two active keys: a provision gives one two exactly when an active key's lineage
   * already contains the new id; a rotation exactly when that of another active key contains the new id
   * or the trimmed old one; no other call does.
   */
  lemma {:induction false} CallLeavesTwoActiveIff(kind: StoreKind, rs: seq<Record>, op: Operation, hash: KeyHash)
    requires Sound(rs) && !TwoActive(Links(rs), ActiveIds(rs))
    ensures var (answer, after) := Apply(kind, rs, op, hash);
            var links, active := Links(rs), ActiveIds(rs);
            TwoActive(Links(after), ActiveIds(after))
            <==> || (op.Provision? && answer.Saved? && ActiveJoined(links, active, op.keyId))
                 || (op.Rotate? && answer.Rotated?
                     && (ActiveJoined(links, active - {op.keyId}, op.nextKeyId)
                         || ActiveJoined(links, active - {op.keyId}, Trim(op.keyId))))
  {
    hide Apply, Trim, Sound, Leads, Links, ActiveIds, Joined;
    var (answer, after) := Apply(kind, rs, op, hash);
    OnlyRotateRotates(kind, rs, op, hash);
    if answer.Rotated? {
      LinksAfterRotation(kind, rs, op, hash);
      NewActiveLink(Links(rs), ActiveIds(rs) - {op.keyId}, op.nextKeyId, Trim(op.keyId));
    } else if op.Provision? && answer.Saved? {
      GraphAfterProvision(kind, rs, op, hash);
      NewActiveId(Links(rs), ActiveIds(rs), op.keyId);
    } else {
      GraphAfterOtherCalls(kind, rs, op, hash);
      ProvisionSavesOrNothing(kind, rs, op, hash);
    }
  }

  lemma {:induction false} ProvisionSavesOrNothing(kind: StoreKind, rs: seq<Record>, op: Operation, hash: KeyHash)
    ensures op.Provision? && !Apply(kind, rs, op, hash).0.Saved? ==> Apply(kind, rs, op, hash).1 == rs
  {
    hide Trim, Save, IndexOf, HashRegistered;
  }

  // ---- inputs ----

  const FIRST := NewRecord("1", " a", "", None, "t")

  /** Rotating " a" to the new id "a" leaves an active key that names itself as the key it replaced. */
  lemma {:induction false} LinksCanCircle()
    ensures var rs := Run(InMemory, [Provision("1", " a", "", "t"), Rotate(" a", "2", "a", "", None, "t", false)], (s: string) => s);
            && |rs| == 2 && rs[1].keyId == "a" && rs[1].status.Active? && rs[1].rotatedFrom == Some("a")
            && HasCircle(Links(rs))
  {
    var hash := (s: string) => s;
    FirstOnly(hash);
    SelfRotation(hash);
    hide Apply, Run, Links, HasCircle;
    RunOfTwo(InMemory, Provision("1", " a", "", "t"), Rotate(" a", "2", "a", "", None, "t", false), hash);
    SelfCircle([RevokedRecord(FIRST, "t", Some("rotated")), NewRecord("2", "a", "", Some("a"), "t")]);
  }

  lemma {:induction false} RunOfTwo(kind: StoreKind, a: Operation, b: Operation, hash: KeyHash)
    ensures Run(kind, [a, b], hash) == Apply(kind, Apply(kind, [], a, hash).1, b, hash).1
  {
    hide Apply;
    assert [a, b][..1] == [a] && [a][..0] == [];
    assert Run(kind, [], hash) == [];
    assert Run(kind, [a], hash) == Apply(kind, [], a, hash).1;
  }

  lemma {:induction false} SelfCircle(rs: seq<Record>)
    requires |rs| == 2 && rs[1].rotatedFrom == Some(rs[1].keyId)
    ensures HasCircle(Links(rs))
  {
    hide Leads;
    var id := rs[1].keyId;
    assert rs[1] in rs;
    assert (id, id) in Links(rs);
    LeadsToItself(Links(rs), id);
  }

  lemma {:induction false} FirstOnly(hash: KeyHash)
    requires forall s: string :: hash(s) == s
    ensures Apply(InMemory, [], Provision("1", " a", "", "t"), hash).1 == [FIRST]
  {
    SmallTrims();
    hide Trim;
  }

  lemma {:induction false} SelfRotation(hash: KeyHash)
    requires forall s: string :: hash(s) == s
    ensures Apply(InMemory, [FIRST], Rotate(" a", "2", "a", "", None, "t", false), hash).1
            == [RevokedRecord(FIRST, "t", Some("rotated")), NewRecord("2", "a", "", Some("a"), "t")]
  {
    SmallTrims();
    hide Trim, FindIndex;
  }

  /** With "a" and " a" provisioned, rotating " a" to "b" leaves "b" active and naming "a", which is active too. */
  lemma {:induction false} TwoActiveInLineage()
    ensures var hash := (s: string) => s;
            var rs := Apply(InMemory, [ONE, TWO], Rotate(" a", "3", "b", "", None, "t", false), hash).1;
            && Run(InMemory, [Provision("1", "a", "", "t"), Provision("2", " a", "", "t")], hash) == [ONE, TWO]
            && TwoActive(Links(rs), ActiveIds(rs))
  {
    var hash := (s: string) => s;
    FirstKeys(hash);
    OtherRotation(hash);
    hide Apply, Run, Links, ActiveIds, TwoActive;
    RunOfTwo(InMemory, Provision("1", "a", "", "t"), Provision("2", " a", "", "t"), hash);
    assert "a"[0] != "b"[0];
    LinkedAndActive([ONE, RevokedRecord(TWO, "t", Some("rotated")), NewRecord("3", "b", "", Some("a"), "t")]);
  }

  lemma {:induction false} LinkedAndActive(rs: seq<Record>)
    requires |rs| == 3 && rs[2].rotatedFrom == Some(rs[0].keyId) && rs[0].keyId != rs[2].keyId
    requires rs[0].status.Active? && rs[2].status.Active?
    ensures TwoActive(Links(rs), ActiveIds(rs))
  {
    hide Leads;
    var a, b := rs[0].keyId, rs[2].keyId;
    assert rs[0] in rs && rs[2] in rs;
    assert (b, a) in Links(rs) && a in ActiveIds(rs) && b in ActiveIds(rs);
    OneStep(BothWays(Links(rs)), b, a);
    assert Joined(Links(rs), b, a);
  }

  lemma {:induction false} OtherRotation(hash: KeyHash)
    requires forall s: string :: hash(s) == s
    ensures Apply(InMemory, [ONE, TWO], Rotate(" a", "3", "b", "", None, "t", false), hash).1
            == [ONE, RevokedRecord(TWO, "t", Some("rotated")), NewRecord("3", "b", "", Some("a"), "t")]
  {
    SmallTrims();
    hide Trim, FindIndex;
  }
}
