/** Fixed-window rate limiting: the local limiter, the shared limiter, and its two counter stores. */
module RateLimiter {
  import opened Collections
  import opened Text
  import opened Windows

  datatype EndpointClass = Read | Write | MessageSend | Admin | EventStream

  datatype ScopeKind = InstanceScope | ResourceScope | GlobalScope

  datatype Request = Request(keyId: string, endpointClass: EndpointClass,
                             instanceRef: Option<string>, targetRef: Option<string>)

  datatype Descriptor = Descriptor(keyId: string, endpointClass: EndpointClass, scopeKind: ScopeKind, scopeRef: string)

  datatype Config = Config(maxRequests: nat, window: nat, classLimits: map<EndpointClass, nat>)

  datatype Decision =
    | Allowed(limit: nat, remaining: nat, resetAt: nat, bucketKey: string)
    | Denied(limit: nat, resetAt: nat, retryAfter: nat, bucketKey: string)

  datatype Bucket = Bucket(windowStart: nat, count: nat)

  type Buckets = map<string, Bucket>

  // ---- bucket keys ----

  function ClassName(c: EndpointClass): string {
    match c
    case Read => "read"
    case Write => "write"
    case MessageSend => "message_send"
    case Admin => "admin"
    case EventStream => "event_stream"
  }

  function ScopeName(k: ScopeKind): string {
    match k
    case InstanceScope => "instance"
    case ResourceScope => "resource"
    case GlobalScope => "global"
  }

  function DescriptorOf(r: Request): Descriptor {
    if r.instanceRef.Some? then Descriptor(r.keyId, r.endpointClass, InstanceScope, r.instanceRef.value)
    else if r.targetRef.Some? then Descriptor(r.keyId, r.endpointClass, ResourceScope, r.targetRef.value)
    else Descriptor(r.keyId, r.endpointClass, GlobalScope, "global")
  }

  function BucketKey(d: Descriptor): string {
    Join([d.keyId, ClassName(d.endpointClass), ScopeName(d.scopeKind), d.scopeRef], ':')
  }

  function KeyOf(r: Request): string {
    BucketKey(DescriptorOf(r))
  }

  lemma {:induction false} BucketKeyParts(d: Descriptor)
    ensures BucketKey(d) == d.keyId + [':'] + (ClassName(d.endpointClass) + [':'] + (ScopeName(d.scopeKind) + [':'] + d.scopeRef))
  {
    hide ClassName, ScopeName, Join;
    var class_, scope := ClassName(d.endpointClass), ScopeName(d.scopeKind);
    JoinCons([d.keyId, class_, scope, d.scopeRef], ':');
    assert [d.keyId, class_, scope, d.scopeRef][1..] == [class_, scope, d.scopeRef];
    JoinCons([class_, scope, d.scopeRef], ':');
    assert [class_, scope, d.scopeRef][1..] == [scope, d.scopeRef];
    JoinCons([scope, d.scopeRef], ':');
    assert [scope, d.scopeRef][1..] == [d.scopeRef];
    JoinOne(d.scopeRef, ':');
  }

  lemma {:induction false} NamesAreTokens(a: Descriptor, b: Descriptor)
    ensures !Contains(ClassName(a.endpointClass), ':') && !Contains(ScopeName(a.scopeKind), ':')
    ensures ClassName(a.endpointClass) == ClassName(b.endpointClass) ==> a.endpointClass == b.endpointClass
    ensures ScopeName(a.scopeKind) == ScopeName(b.scopeKind) ==> a.scopeKind == b.scopeKind
  {
    match a.endpointClass {
      case Read => assert "read"[0] == 'r';
      case Write => assert "write"[0] == 'w';
      case MessageSend => assert "message_send"[0] == 'm';
      case Admin => assert "admin"[0] == 'a';
      case EventStream => assert "event_stream"[0] == 'e';
    }
    match a.scopeKind {
      case InstanceScope => assert "instance"[0] == 'i';
      case ResourceScope => assert "resource"[0] == 'r';
      case GlobalScope => assert "global"[0] == 'g';
    }
    assert ClassName(b.endpointClass)[0] in {'r', 'w', 'm', 'a', 'e'};
    assert ScopeName(b.scopeKind)[0] in {'i', 'r', 'g'};
  }

  /** Two descriptors whose key ids have no colon share a budget only when they are the same. */
  lemma {:induction false} BucketsAreSeparate(a: Descriptor, b: Descriptor)
    requires !Contains(a.keyId, ':') && !Contains(b.keyId, ':')
    ensures BucketKey(a) == BucketKey(b) <==> a == b
  {
    hide BucketKey, ClassName, ScopeName;
    if BucketKey(a) == BucketKey(b) {
      BucketKeyParts(a);
      BucketKeyParts(b);
      NamesAreTokens(a, b);
      NamesAreTokens(b, a);
      CutToken(a.keyId, ClassName(a.endpointClass) + [':'] + (ScopeName(a.scopeKind) + [':'] + a.scopeRef),
               b.keyId, ClassName(b.endpointClass) + [':'] + (ScopeName(b.scopeKind) + [':'] + b.scopeRef), ':');
      CutToken(ClassName(a.endpointClass), ScopeName(a.scopeKind) + [':'] + a.scopeRef,
               ClassName(b.endpointClass), ScopeName(b.scopeKind) + [':'] + b.scopeRef, ':');
      CutToken(ScopeName(a.scopeKind), a.scopeRef, ScopeName(b.scopeKind), b.scopeRef, ':');
    }
  }

  /**
   * Requests whose key ids have no colon share a budget exactly when they have the same key id and class and
   * name the same instance, or no instance and the same target, or neither.
   */
  lemma {:induction false} RequestsShareIff(r: Request, q: Request)
    requires !Contains(r.keyId, ':') && !Contains(q.keyId, ':')
    ensures KeyOf(r) == KeyOf(q)
            <==> && r.keyId == q.keyId && r.endpointClass == q.endpointClass && r.instanceRef == q.instanceRef
                 && (r.instanceRef.None? ==> r.targetRef == q.targetRef)
  {
    hide BucketKey;
    BucketsAreSeparate(DescriptorOf(r), DescriptorOf(q));
  }

  lemma {:induction false} Regroup(a: string, b: string, c: string, d: string)
    ensures a + [':'] + (b + [':'] + (c + [':'] + d)) == a + [':'] + (b + [':'] + c) + [':'] + d
  {
  }

  /** A colon in a key id can make the requests of two clients share one budget. */
  lemma {:induction false} ColonSharesABudget(client: string)
    ensures var targeted := Request(client, Read, None, Some("write" + [':'] + ("global" + [':'] + "global")));
            var untargeted := Request(client + [':'] + ("read" + [':'] + "resource"), Write, None, None);
            KeyOf(targeted) == KeyOf(untargeted)
  {
    hide BucketKey;
    var target := "write" + [':'] + ("global" + [':'] + "global");
    BucketKeyParts(Descriptor(client, Read, ResourceScope, target));
    BucketKeyParts(Descriptor(client + [':'] + ("read" + [':'] + "resource"), Write, GlobalScope, "global"));
    Regroup(client, "read", "resource", target);
  }

  // ---- which key ids can share a budget ----

  function KeyHead(keyId: string, class_: EndpointClass, scope: ScopeKind): string {
    keyId + [':'] + (ClassName(class_) + [':'] + ScopeName(scope))
  }

  /**
   * `longer` is `shorter` followed by a class name and a scope that takes a reference, and possibly by
   * a colon and anything more.
   */
  predicate Extends(longer: string, shorter: string) {
    exists class_: EndpointClass, scope: ScopeKind :: ExtendsBy(longer, shorter, class_, scope)
  }

  predicate ExtendsBy(longer: string, shorter: string, class_: EndpointClass, scope: ScopeKind) {
    var head := KeyHead(shorter, class_, scope);
    scope != GlobalScope && (longer == head || head + [':'] <= longer)
  }

  ghost predicate CanShare(a: string, b: string) {
    exists r: Request, q: Request :: r.keyId == a && q.keyId == b && KeyOf(r) == KeyOf(q)
  }

  /** The first token of a text ends at its first colon, or is the whole text. */
  lemma {:induction false} FirstTokenOf(token: string, rest: string, other: string, tail: string)
    requires !Contains(token, ':')
    requires token + [':'] + rest == other + [':'] + tail
    ensures (other == token && tail == rest)
            || (|other| > |token| && other[..|token|] == token && other[|token|] == ':'
                && rest == other[|token| + 1..] + [':'] + tail)
  {
    var s := token + [':'] + rest;
    assert s == other + [':'] + tail;
    assert forall i :: 0 <= i < |token| ==> s[i] == token[i];
    assert s[|other|] == ':';
    assert |other| >= |token|;
    assert forall i :: 0 <= i < |token| ==> s[i] == other[i];
    assert other[..|token|] == token;
    assert rest == s[|token| + 1..];
    if |other| == |token| {
      assert tail == s[|token| + 1..];
    } else {
      assert other[|token|] == s[|token|] == ':';
      assert s[|token| + 1..] == other[|token| + 1..] + [':'] + tail;
    }
  }

  lemma {:induction false} ScopesAreNoClasses(k: ScopeKind, c: EndpointClass)
    ensures ScopeName(k) != ClassName(c)
    ensures !Contains("global", ':')
  {
    assert |ScopeName(InstanceScope)| == 8 && |ScopeName(ResourceScope)| == 8 && |ScopeName(GlobalScope)| == 6;
    assert |ClassName(Read)| == 4 && |ClassName(Write)| == 5 && |ClassName(MessageSend)| == 12;
    assert |ClassName(Admin)| == 5 && |ClassName(EventStream)| == 12;
  }

  /** A bucket key shared by two key ids puts the class and the scope of one request into the other key id. */
  lemma {:induction false} SharedKeyExtends(d: Descriptor, e: Descriptor)
    requires BucketKey(d) == BucketKey(e) && |d.keyId| < |e.keyId|
    requires d.scopeKind.GlobalScope? ==> d.scopeRef == "global"
    ensures Extends(e.keyId, d.keyId)
  {
    BucketKeyParts(d);
    BucketKeyParts(e);
    NamesAreTokens(d, e);
    NamesAreTokens(e, d);
    ScopesAreNoClasses(d.scopeKind, d.endpointClass);
    hide BucketKey, ClassName, ScopeName, Contains, Extends;
    var class_, scope := ClassName(d.endpointClass), ScopeName(d.scopeKind);
    var tailD, tailE := class_ + [':'] + (scope + [':'] + d.scopeRef),
        ClassName(e.endpointClass) + [':'] + (ScopeName(e.scopeKind) + [':'] + e.scopeRef);
    var middle := e.keyId[|d.keyId| + 1..];
    KeyIsCut(d.keyId, tailD, e.keyId, tailE);
    MiddleExtends(d, e, middle);
  }

  lemma {:induction false} KeyIsCut(a: string, tailA: string, b: string, tailB: string)
    requires a + [':'] + tailA == b + [':'] + tailB && |a| < |b|
    ensures b == a + [':'] + b[|a| + 1..] && tailA == b[|a| + 1..] + [':'] + tailB
  {
    var s := a + [':'] + tailA;
    assert forall i :: 0 <= i < |b| ==> b[i] == s[i];
    assert b[..|a|] == a && b[|a|] == ':';
    assert tailA == s[|a| + 1..];
  }

  lemma {:induction false} MiddleExtends(d: Descriptor, e: Descriptor, middle: string)
    requires e.keyId == d.keyId + [':'] + middle
    requires ClassName(d.endpointClass) + [':'] + (ScopeName(d.scopeKind) + [':'] + d.scopeRef)
          == middle + [':'] + (ClassName(e.endpointClass) + [':'] + (ScopeName(e.scopeKind) + [':'] + e.scopeRef))
    requires d.scopeKind.GlobalScope? ==> d.scopeRef == "global"
    ensures Extends(e.keyId, d.keyId)
  {
    NamesAreTokens(d, e);
    NamesAreTokens(e, d);
    ScopesAreNoClasses(d.scopeKind, e.endpointClass);
    hide BucketKey, ClassName, ScopeName, Contains, Extends;
    var class_, scope := ClassName(d.endpointClass), ScopeName(d.scopeKind);
    var tailE := ClassName(e.endpointClass) + [':'] + (ScopeName(e.scopeKind) + [':'] + e.scopeRef);
    FirstTokenOf(class_, scope + [':'] + d.scopeRef, middle, tailE);
    if middle == class_ {
      CutToken(scope, d.scopeRef, ClassName(e.endpointClass), ScopeName(e.scopeKind) + [':'] + e.scopeRef, ':');
      assert false;
    }
    var rest := middle[|class_| + 1..];
    assert middle == class_ + [':'] + rest;
    FirstTokenOf(scope, d.scopeRef, rest, tailE);
    var more := if |rest| > |scope| then rest[|scope| + 1..] else "";
    assert rest == scope || rest == scope + [':'] + more;
    assert d.scopeRef == tailE || d.scopeRef == more + [':'] + tailE;
    HasColon(ClassName(e.endpointClass), ScopeName(e.scopeKind) + [':'] + e.scopeRef);
    HasColon(more, tailE);
    HeadIsExtended(e.keyId, d.keyId, d.endpointClass, d.scopeKind, rest, more);
  }

  lemma {:induction false} HasColon(a: string, b: string)
    ensures Contains(a + [':'] + b, ':')
  {
    assert (a + [':'] + b)[|a|] == ':';
  }

  lemma {:induction false} HeadIsExtended(longer: string, shorter: string, class_: EndpointClass, scope: ScopeKind,
          rest: string, more: string)
    requires longer == shorter + [':'] + (ClassName(class_) + [':'] + rest) && scope != GlobalScope
    requires rest == ScopeName(scope) || rest == ScopeName(scope) + [':'] + more
    ensures Extends(longer, shorter)
  {
    hide ClassName, ScopeName;
    var head := KeyHead(shorter, class_, scope);
    if rest == ScopeName(scope) {
      assert longer == head;
    } else {
      assert longer == head + [':'] + more;
      assert head + [':'] <= longer;
    }
    assert ExtendsBy(longer, shorter, class_, scope);
  }

  function ScopedRequest(keyId: string, class_: EndpointClass, scope: ScopeKind, ref: string): Request {
    if scope == InstanceScope then Request(keyId, class_, Some(ref), None) else Request(keyId, class_, None, Some(ref))
  }

  lemma {:induction false} ScopedKey(keyId: string, class_: EndpointClass, scope: ScopeKind, ref: string)
    requires scope != GlobalScope
    ensures KeyOf(ScopedRequest(keyId, class_, scope, ref)) == KeyHead(keyId, class_, scope) + [':'] + ref
  {
    BucketKeyParts(Descriptor(keyId, class_, scope, ref));
    Regroup(keyId, ClassName(class_), ScopeName(scope), ref);
    hide ClassName, ScopeName, BucketKey;
  }

  lemma {:induction false} GlobalKey(keyId: string) returns (tail: string)
    ensures KeyOf(Request(keyId, Read, None, None)) == keyId + [':'] + tail
  {
    BucketKeyParts(Descriptor(keyId, Read, GlobalScope, "global"));
    hide ClassName, ScopeName, BucketKey;
    tail := ClassName(Read) + [':'] + (ScopeName(GlobalScope) + [':'] + "global");
  }

  /** From such an id, the shorter one reaches the longer one's global bucket by naming the right reference. */
  lemma {:induction false} ExtensionShares(longer: string, shorter: string) returns (r: Request, q: Request)
    requires Extends(longer, shorter)
    ensures r.keyId == shorter && q.keyId == longer && KeyOf(r) == KeyOf(q)
  {
    hide KeyHead, KeyOf;
    var class_, scope :| ExtendsBy(longer, shorter, class_, scope);
    hide Extends;
    var head := KeyHead(shorter, class_, scope);
    q := Request(longer, Read, None, None);
    var tail := GlobalKey(longer);
    if longer == head {
      r := ScopedRequest(shorter, class_, scope, tail);
      ScopedKey(shorter, class_, scope, tail);
    } else {
      var more := longer[|head| + 1..];
      assert longer == head + [':'] + more;
      r := ScopedRequest(shorter, class_, scope, more + [':'] + tail);
      ScopedKey(shorter, class_, scope, more + [':'] + tail);
      Reassociated(head, more, tail, ':');
    }
  }

  /** Two different key ids can share a budget exactly when one extends the other. */
  lemma {:induction false} KeysShareIff(a: string, b: string)
    requires a != b
    ensures CanShare(a, b) <==> Extends(a, b) || Extends(b, a)
  {
    if CanShare(a, b) {
      var r: Request, q: Request :| r.keyId == a && q.keyId == b && KeyOf(r) == KeyOf(q);
      hide BucketKey, Extends;
      if |a| < |b| {
        SharedKeyExtends(DescriptorOf(r), DescriptorOf(q));
      } else if |b| < |a| {
        SharedKeyExtends(DescriptorOf(q), DescriptorOf(r));
      } else {
        SameLengthSameKey(DescriptorOf(r), DescriptorOf(q));
      }
    }
    hide BucketKey, Extends;
    if Extends(a, b) {
      var r, q := ExtensionShares(a, b);
      assert q.keyId == a && r.keyId == b && KeyOf(q) == KeyOf(r);
    }
    if Extends(b, a) {
      var r, q := ExtensionShares(b, a);
      assert r.keyId == a && q.keyId == b && KeyOf(r) == KeyOf(q);
    }
  }

  lemma {:induction false} SameLengthSameKey(d: Descriptor, e: Descriptor)
    requires BucketKey(d) == BucketKey(e) && |d.keyId| == |e.keyId|
    ensures d.keyId == e.keyId
  {
    BucketKeyParts(d);
    BucketKeyParts(e);
    hide BucketKey, ClassName, ScopeName;
    var key := BucketKey(d);
    assert d.keyId == key[..|d.keyId|] == e.keyId;
  }

  // ---- the local limiter ----

  ghost predicate IsConfig(c: Config) {
    c.maxRequests > 0 && c.window > 0 && forall k :: k in c.classLimits ==> c.classLimits[k] > 0
  }

  function LimitFor(c: Config, k: EndpointClass): nat {
    if k in c.classLimits then c.classLimits[k] else c.maxRequests
  }

  function CountIn(buckets: Buckets, key: string, windowStart: nat): nat {
    if key in buckets && buckets[key].windowStart == windowStart then buckets[key].count else 0
  }

  function CheckLocal(c: Config, buckets: Buckets, r: Request, now: nat): (Decision, Buckets)
    requires c.window > 0
  {
    var key, limit, start := KeyOf(r), LimitFor(c, r.endpointClass), WindowStart(now, c.window);
    var count, resetAt := CountIn(buckets, key, start), start + c.window;
    if count >= limit then
      (Denied(limit, resetAt, Max(0, resetAt - now), key), buckets[key := Bucket(start, count)])
    else
      (Allowed(limit, limit - (count + 1), resetAt, key), buckets[key := Bucket(start, count + 1)])
  }

  // ---- the shared limiter and its stores ----

  datatype ConsumeInput = ConsumeInput(bucketKey: string, limit: nat, windowStart: nat, resetAt: nat, expiresAfter: nat)

  datatype Consumed = Consumed(allowed: bool, count: nat, resetAt: nat)

  function InputFor(c: Config, r: Request, now: nat): ConsumeInput
    requires c.window > 0
  {
    var start := WindowStart(now, c.window);
    ConsumeInput(KeyOf(r), LimitFor(c, r.endpointClass), start, start + c.window, Max(1, start + c.window - now))
  }

  function DecisionFrom(i: ConsumeInput, result: Consumed, now: nat): Decision {
    if result.allowed then Allowed(i.limit, Max(0, i.limit - result.count), result.resetAt, i.bucketKey)
    else Denied(i.limit, result.resetAt, Max(0, result.resetAt - now), i.bucketKey)
  }

  function ConsumeMemory(buckets: Buckets, i: ConsumeInput): (Consumed, Buckets) {
    var count := CountIn(buckets, i.bucketKey, i.windowStart);
    if count >= i.limit then (Consumed(false, count, i.resetAt), buckets[i.bucketKey := Bucket(i.windowStart, count)])
    else (Consumed(true, count + 1, i.resetAt), buckets[i.bucketKey := Bucket(i.windowStart, count + 1)])
  }

  /** A Redis hash; the server drops it once its clock is past `expiresAt`. */
  datatype RedisHash = RedisHash(windowStart: string, count: nat, expiresAt: nat)

  type Redis = map<string, RedisHash>

  function RedisCount(redis: Redis, key: string, windowStart: string, now: nat): nat {
    if key in redis && now <= redis[key].expiresAt && redis[key].windowStart == windowStart then redis[key].count else 0
  }

  /** The script, run at server time `now` on the digest of the bucket key. */
  function ConsumeRedis(redis: Redis, digest: string -> string, i: ConsumeInput, now: nat): (Consumed, Redis) {
    var key, start := digest(i.bucketKey), Numeral(i.windowStart);
    var unseen := !(key in redis && now <= redis[key].expiresAt && redis[key].windowStart == start);
    var count := RedisCount(redis, key, start, now);
    var begun := if unseen then redis[key := RedisHash(start, 0, now + i.expiresAfter)] else redis;
    if count >= i.limit then (Consumed(false, count, i.resetAt), begun)
    else (Consumed(true, count + 1, i.resetAt), redis[key := RedisHash(start, count + 1, now + i.expiresAfter)])
  }

  // ---- runs ----

  datatype Timed = Timed(request: Request, now: nat)

  ghost predicate ClockNeverGoesBack(steps: seq<Timed>) {
    forall i, j :: 0 <= i < j < |steps| ==> steps[i].now <= steps[j].now
  }

  function LocalRun(c: Config, steps: seq<Timed>): (seq<Decision>, Buckets)
    requires c.window > 0
  {
    if steps == [] then ([], map[])
    else
      var (decisions, buckets) := LocalRun(c, steps[..|steps| - 1]);
      var last := steps[|steps| - 1];
      var (decision, after) := CheckLocal(c, buckets, last.request, last.now);
      (decisions + [decision], after)
  }

  function MemoryRun(c: Config, steps: seq<Timed>): (seq<Decision>, Buckets)
    requires c.window > 0
  {
    if steps == [] then ([], map[])
    else
      var (decisions, buckets) := MemoryRun(c, steps[..|steps| - 1]);
      var last := steps[|steps| - 1];
      var input := InputFor(c, last.request, last.now);
      var (result, after) := ConsumeMemory(buckets, input);
      (decisions + [DecisionFrom(input, result, last.now)], after)
  }

  function RedisRun(c: Config, digest: string -> string, steps: seq<Timed>): (seq<Decision>, Redis)
    requires c.window > 0
  {
    if steps == [] then ([], map[])
    else
      var (decisions, redis) := RedisRun(c, digest, steps[..|steps| - 1]);
      var last := steps[|steps| - 1];
      var input := InputFor(c, last.request, last.now);
      var (result, after) := ConsumeRedis(redis, digest, input, last.now);
      (decisions + [DecisionFrom(input, result, last.now)], after)
  }

  lemma {:induction false} MemoryAgrees(c: Config, steps: seq<Timed>)
    requires IsConfig(c)
    ensures MemoryRun(c, steps) == LocalRun(c, steps)
  {
    hide KeyOf;
    if steps != [] {
      MemoryAgrees(c, steps[..|steps| - 1]);
    }
  }

  ghost predicate CollisionFree(digest: string -> string) {
    forall a, b :: digest(a) == digest(b) ==> a == b
  }

  /** From `now` on, at every time, Redis shows the count of the local bucket for the open window. */
  ghost predicate SameCounts(c: Config, buckets: Buckets, redis: Redis, digest: string -> string, now: nat)
    requires c.window > 0
  {
    forall key, t :: now <= t ==> SameCount(c, buckets, redis, digest, key, t)
  }

  predicate SameCount(c: Config, buckets: Buckets, redis: Redis, digest: string -> string, key: string, t: nat)
    requires c.window > 0
  {
    var start := WindowStart(t, c.window);
    RedisCount(redis, digest(key), Numeral(start), t) == CountIn(buckets, key, start)
  }

  lemma {:induction false} TouchedBucket(c: Config, buckets: Buckets, redis: Redis, digest: string -> string,
          key: string, count: nat, now: nat, t: nat)
    requires IsConfig(c) && now <= t
    requires var start := WindowStart(now, c.window);
             && key in buckets && buckets[key] == Bucket(start, count)
             && digest(key) in redis && redis[digest(key)] == RedisHash(Numeral(start), count, start + c.window)
    ensures SameCount(c, buckets, redis, digest, key, t)
  {
    var start := WindowStart(now, c.window);
    WindowsAreAligned(t, now, c.window);
    hide Numeral, WindowStart;
    if Numeral(WindowStart(t, c.window)) == Numeral(start) {
      NumeralInjective(WindowStart(t, c.window), start);
    }
  }

  /** The Redis expiry never drops a count while its window is open, so one check keeps the match. */
  lemma {:induction false} RedisStepAgrees(c: Config, buckets: Buckets, redis: Redis, digest: string -> string,
          r: Request, now: nat)
    requires IsConfig(c) && CollisionFree(digest)
    requires SameCounts(c, buckets, redis, digest, now)
    ensures var (decision, buckets') := CheckLocal(c, buckets, r, now);
            var input := InputFor(c, r, now);
            var (result, redis') := ConsumeRedis(redis, digest, input, now);
            && DecisionFrom(input, result, now) == decision
            && SameCounts(c, buckets', redis', digest, now)
  {
    hide Numeral, KeyOf;
    var key, start := KeyOf(r), WindowStart(now, c.window);
    var (decision, buckets') := CheckLocal(c, buckets, r, now);
    var (result, redis') := ConsumeRedis(redis, digest, InputFor(c, r, now), now);
    assert SameCount(c, buckets, redis, digest, key, now);
    forall other, t | now <= t ensures SameCount(c, buckets', redis', digest, other, t) {
      assert SameCount(c, buckets, redis, digest, other, t);
      if other == key && decision.Allowed? {
        TouchedBucket(c, buckets', redis', digest, key, buckets'[key].count, now, t);
      } else if other == key {
        SameBucketStays(buckets, key, start, WindowStart(t, c.window));
      }
    }
  }

  lemma {:induction false} SameBucketStays(buckets: Buckets, key: string, start: nat, window: nat)
    requires CountIn(buckets, key, start) > 0
    ensures buckets[key := Bucket(start, CountIn(buckets, key, start))] == buckets
  {
  }

  /**
   * One algorithm in three forms: over every run with a clock that never goes back, the local
   * limiter, the shared limiter over memory and the shared limiter over Redis decide alike.
   */
  lemma {:induction false} LimitersAgree(c: Config, digest: string -> string, steps: seq<Timed>, now: nat)
    requires IsConfig(c) && CollisionFree(digest)
    requires ClockNeverGoesBack(steps) && forall i :: 0 <= i < |steps| ==> steps[i].now <= now
    ensures LocalRun(c, steps).0 == MemoryRun(c, steps).0 == RedisRun(c, digest, steps).0
    ensures SameCounts(c, LocalRun(c, steps).1, RedisRun(c, digest, steps).1, digest, now)
    decreases |steps|
  {
    MemoryAgrees(c, steps);
    hide MemoryRun, Numeral;
    if steps != [] {
      var before, last := steps[..|steps| - 1], steps[|steps| - 1];
      LimitersAgree(c, digest, before, last.now);
      RedisStepAgrees(c, LocalRun(c, before).1, RedisRun(c, digest, before).1, digest, last.request, last.now);
      hide CheckLocal, ConsumeRedis, DecisionFrom, InputFor, SameCount;
    }
  }

  // ---- budgets ----

  predicate IsHit(c: Config, step: Timed, key: string, windowStart: nat)
    requires c.window > 0
  {
    KeyOf(step.request) == key && WindowStart(step.now, c.window) == windowStart
  }

  function Hits(c: Config, steps: seq<Timed>, key: string, windowStart: nat): nat
    requires c.window > 0
  {
    if steps == [] then 0
    else Hits(c, steps[..|steps| - 1], key, windowStart) +
         if IsHit(c, steps[|steps| - 1], key, windowStart) then 1 else 0
  }

  function LastDecision(c: Config, steps: seq<Timed>): Decision
    requires c.window > 0 && steps != []
  {
    var last := steps[|steps| - 1];
    CheckLocal(c, LocalRun(c, steps[..|steps| - 1]).1, last.request, last.now).0
  }

  function AcceptedIn(c: Config, steps: seq<Timed>, key: string, windowStart: nat): nat
    requires c.window > 0
  {
    if steps == [] then 0
    else AcceptedIn(c, steps[..|steps| - 1], key, windowStart) +
         if IsHit(c, steps[|steps| - 1], key, windowStart) && LastDecision(c, steps).Allowed? then 1 else 0
  }

  /** The limits of the requests that reach one bucket in one window, in order. */
  function HitLimits(c: Config, steps: seq<Timed>, key: string, windowStart: nat): (limits: seq<nat>)
    requires c.window > 0
    ensures |limits| == Hits(c, steps, key, windowStart)
  {
    if steps == [] then []
    else
      var last := steps[|steps| - 1];
      HitLimits(c, steps[..|steps| - 1], key, windowStart)
      + if IsHit(c, last, key, windowStart) then [LimitFor(c, last.request.endpointClass)] else []
  }

  /** How many of the requests a bucket takes when each is taken if fewer than its own limit were taken before. */
  function Taken(limits: seq<nat>): nat {
    if limits == [] then 0
    else
      var before := Taken(limits[..|limits| - 1]);
      if before < limits[|limits| - 1] then before + 1 else before
  }

  lemma {:induction false} TakenOneMore(limits: seq<nat>, limit: nat)
    ensures Taken(limits + [limit]) == if Taken(limits) < limit then Taken(limits) + 1 else Taken(limits)
  {
    assert (limits + [limit])[..|limits|] == limits;
  }

  /** Between the smallest and the largest of the limits, and with one limit exactly that many. */
  lemma {:induction false} TakenBetween(limits: seq<nat>, low: nat, high: nat)
    requires forall i :: 0 <= i < |limits| ==> low <= limits[i] <= high
    ensures Min(|limits|, low) <= Taken(limits) <= Min(|limits|, high)
  {
    if limits != [] {
      TakenBetween(limits[..|limits| - 1], low, high);
    }
  }

  /** Every request that shares the bucket of `d` has the limit of the class of `d`. */
  ghost predicate OneLimit(c: Config, steps: seq<Timed>, d: Descriptor) {
    forall i :: 0 <= i < |steps| && KeyOf(steps[i].request) == BucketKey(d) ==>
      LimitFor(c, steps[i].request.endpointClass) == LimitFor(c, d.endpointClass)
  }

  lemma {:induction false} ColonFreeKeysHaveOneLimit(c: Config, steps: seq<Timed>, d: Descriptor)
    requires !Contains(d.keyId, ':')
    requires forall i :: 0 <= i < |steps| ==> !Contains(steps[i].request.keyId, ':')
    ensures OneLimit(c, steps, d)
  {
    hide BucketKey, LimitFor, Contains;
    forall i | 0 <= i < |steps| && KeyOf(steps[i].request) == BucketKey(d)
      ensures LimitFor(c, steps[i].request.endpointClass) == LimitFor(c, d.endpointClass)
    {
      BucketsAreSeparate(DescriptorOf(steps[i].request), d);
    }
  }

  lemma {:induction false} NoHitsYet(c: Config, steps: seq<Timed>, key: string, windowStart: nat)
    requires c.window > 0 && ClockNeverGoesBack(steps)
    requires steps != [] ==> WindowStart(steps[|steps| - 1].now, c.window) < windowStart
    ensures Hits(c, steps, key, windowStart) == 0
  {
    hide KeyOf, WindowStart;
    if steps != [] {
      var before, last := steps[..|steps| - 1], steps[|steps| - 1];
      if before != [] {
        WindowsAreAligned(last.now, before[|before| - 1].now, c.window);
      }
      NoHitsYet(c, before, key, windowStart);
    }
  }

  /**
   * In each aligned window any bucket, also one that classes with different limits share, accepts a
   * request exactly if it has accepted fewer than that request's own limit.
   */
  lemma {:induction false} SharedWindowBudget(c: Config, steps: seq<Timed>, key: string, windowStart: nat)
    requires IsConfig(c) && ClockNeverGoesBack(steps)
    ensures AcceptedIn(c, steps, key, windowStart) == Taken(HitLimits(c, steps, key, windowStart))
    ensures (steps == [] || WindowStart(steps[|steps| - 1].now, c.window) <= windowStart) ==>
              CountIn(LocalRun(c, steps).1, key, windowStart) == AcceptedIn(c, steps, key, windowStart)
  {
    hide KeyOf, WindowStart, LimitFor, Join, Taken;
    assert Taken([]) == 0 by { TakenBetween([], 0, 0); }
    if steps != [] {
      var before, last := steps[..|steps| - 1], steps[|steps| - 1];
      SharedWindowBudget(c, before, key, windowStart);
      TakenOneMore(HitLimits(c, before, key, windowStart), LimitFor(c, last.request.endpointClass));
      if before != [] {
        WindowsAreAligned(last.now, before[|before| - 1].now, c.window);
      }
      if WindowStart(last.now, c.window) < windowStart {
        NoHitsYet(c, steps, key, windowStart);
      }
      if !IsHit(c, last, key, windowStart) {
        assert HitLimits(c, steps, key, windowStart) == HitLimits(c, before, key, windowStart);
      }
    }
  }

  /**
   * A request is allowed exactly if fewer than its limit were accepted from its bucket in the open window;
   * it is told how many are left, or how long to wait, and when the window ends. The limit is that of its
   * class where the configuration has one, and the general limit otherwise.
   */
  lemma {:induction false} DecisionOutcome(c: Config, steps: seq<Timed>, request: Request, now: nat)
    requires IsConfig(c) && ClockNeverGoesBack(steps) && (steps != [] ==> steps[|steps| - 1].now <= now)
    ensures var limit := if request.endpointClass in c.classLimits then c.classLimits[request.endpointClass] else c.maxRequests;
            var start := WindowStart(now, c.window);
            var accepted := AcceptedIn(c, steps, KeyOf(request), start);
            CheckLocal(c, LocalRun(c, steps).1, request, now).0
            == if accepted < limit then Allowed(limit, limit - accepted - 1, start + c.window, KeyOf(request))
               else Denied(limit, start + c.window, start + c.window - now, KeyOf(request))
  {
    hide KeyOf, WindowStart, AcceptedIn;
    SharedWindowBudget(c, steps, KeyOf(request), WindowStart(now, c.window));
    if steps != [] {
      WindowsAreAligned(now, steps[|steps| - 1].now, c.window);
    }
  }

  /** Every request to the bucket has a limit in this range. */
  ghost predicate LimitsWithin(c: Config, steps: seq<Timed>, key: string, low: nat, high: nat) {
    forall i :: 0 <= i < |steps| && KeyOf(steps[i].request) == key ==> low <= LimitFor(c, steps[i].request.endpointClass) <= high
  }

  lemma {:induction false} HitLimitsWithin(c: Config, steps: seq<Timed>, key: string, windowStart: nat, low: nat, high: nat)
    requires c.window > 0 && LimitsWithin(c, steps, key, low, high)
    ensures forall i :: 0 <= i < Hits(c, steps, key, windowStart) ==> low <= HitLimits(c, steps, key, windowStart)[i] <= high
  {
    hide KeyOf, WindowStart, LimitFor;
    if steps != [] {
      HitLimitsWithin(c, steps[..|steps| - 1], key, windowStart, low, high);
    }
  }

  /** A bucket accepts in a window at least min(requests, smallest limit) and at most min(requests, largest limit). */
  lemma {:induction false} WindowBudgetWithin(c: Config, steps: seq<Timed>, key: string, windowStart: nat, low: nat, high: nat)
    requires IsConfig(c) && ClockNeverGoesBack(steps) && LimitsWithin(c, steps, key, low, high)
    ensures Min(Hits(c, steps, key, windowStart), low) <= AcceptedIn(c, steps, key, windowStart)
            <= Min(Hits(c, steps, key, windowStart), high)
  {
    hide LimitsWithin, AcceptedIn, Hits, HitLimits, Taken;
    SharedWindowBudget(c, steps, key, windowStart);
    HitLimitsWithin(c, steps, key, windowStart, low, high);
    TakenBetween(HitLimits(c, steps, key, windowStart), low, high);
  }

  /**
   * With one limit a bucket accepts exactly min(requests, limit) in each aligned window: the limit of its
   * class where the configuration has one, and the general limit otherwise.
   */
  lemma {:induction false} WindowBudget(c: Config, steps: seq<Timed>, d: Descriptor, windowStart: nat)
    requires IsConfig(c) && ClockNeverGoesBack(steps) && OneLimit(c, steps, d)
    ensures d.endpointClass in c.classLimits ==>
              AcceptedIn(c, steps, BucketKey(d), windowStart)
              == Min(Hits(c, steps, BucketKey(d), windowStart), c.classLimits[d.endpointClass])
    ensures d.endpointClass !in c.classLimits ==>
              AcceptedIn(c, steps, BucketKey(d), windowStart) == Min(Hits(c, steps, BucketKey(d), windowStart), c.maxRequests)
  {
    hide BucketKey, AcceptedIn, Hits;
    WindowBudgetWithin(c, steps, BucketKey(d), windowStart, LimitFor(c, d.endpointClass), LimitFor(c, d.endpointClass));
  }

  function AcceptedBetween(c: Config, steps: seq<Timed>, key: string, from: nat, to: nat): nat
    requires c.window > 0
  {
    if steps == [] then 0
    else AcceptedBetween(c, steps[..|steps| - 1], key, from, to) +
         var last := steps[|steps| - 1];
         if KeyOf(last.request) == key && from <= last.now < to && LastDecision(c, steps).Allowed? then 1 else 0
  }

  lemma {:induction false} BetweenIsAtMostTwoWindows(c: Config, steps: seq<Timed>, key: string, from: nat)
    requires c.window > 0
    ensures AcceptedBetween(c, steps, key, from, from + c.window) <=
            AcceptedIn(c, steps, key, WindowStart(from, c.window)) +
            AcceptedIn(c, steps, key, WindowStart(from, c.window) + c.window)
  {
    hide KeyOf, LastDecision;
    if steps != [] {
      var last := steps[|steps| - 1];
      BetweenIsAtMostTwoWindows(c, steps[..|steps| - 1], key, from);
      if from <= last.now < from + c.window {
        WindowsAreAligned(last.now, from, c.window);
      }
      hide WindowStart;
    }
  }

  /** In any stretch of one window length, wherever it starts, a bucket accepts at most twice the largest limit of its requests. */
  lemma {:induction false} SlidingBudget(c: Config, steps: seq<Timed>, key: string, from: nat, limit: nat)
    requires IsConfig(c) && ClockNeverGoesBack(steps) && LimitsWithin(c, steps, key, 0, limit)
    ensures AcceptedBetween(c, steps, key, from, from + c.window) <= 2 * limit
  {
    hide KeyOf, WindowStart, LimitFor, LimitsWithin, AcceptedIn, AcceptedBetween, Hits;
    var start := WindowStart(from, c.window);
    BetweenIsAtMostTwoWindows(c, steps, key, from);
    WindowBudgetWithin(c, steps, key, start, 0, limit);
    WindowBudgetWithin(c, steps, key, start + c.window, 0, limit);
  }

  // ---- the limiter and store objects ----

  class InMemoryFixedWindowRateLimiter {
    const config: Config
    var buckets: Buckets

    constructor (config: Config)
      requires IsConfig(config)
      ensures this.config == config && buckets == map[]
    {
      this.config := config;
      buckets := map[];
    }

    /** The bucket of the open window, put in place of one of an earlier window. */
    method GetCurrentBucket(key: string, now: nat) returns (bucket: Bucket)
      requires config.window > 0
      modifies this
      ensures buckets == old(buckets)[key := bucket]
      ensures bucket == Bucket(WindowStart(now, config.window), CountIn(old(buckets), key, WindowStart(now, config.window)))
    {
      var start := WindowStart(now, config.window);
      if key in buckets && buckets[key].windowStart == start {
        bucket := buckets[key];
        assert buckets == buckets[key := bucket];
        return;
      }
      bucket := Bucket(start, 0);
      buckets := buckets[key := bucket];
    }

    method Check(request: Request, now: nat) returns (decision: Decision)
      requires config.window > 0
      modifies this
      ensures (decision, buckets) == CheckLocal(config, old(buckets), request, now)
    {
      hide KeyOf;
      var key, limit := KeyOf(request), LimitFor(config, request.endpointClass);
      var bucket := GetCurrentBucket(key, now);
      var resetAt := bucket.windowStart + config.window;
      if bucket.count >= limit {
        return Denied(limit, resetAt, Max(0, resetAt - now), key);
      }
      bucket := bucket.(count := bucket.count + 1);
      buckets := buckets[key := bucket];
      decision := Allowed(limit, limit - bucket.count, resetAt, key);
      assert buckets == CheckLocal(config, old(buckets), request, now).1;
    }
  }

  class InMemoryRateLimitCounterStore {
    var buckets: Buckets

    constructor ()
      ensures buckets == map[]
    {
      buckets := map[];
    }

    method Consume(input: ConsumeInput) returns (result: Consumed)
      modifies this
      ensures (result, buckets) == ConsumeMemory(old(buckets), input)
    {
      var bucket := Bucket(input.windowStart, 0);
      if input.bucketKey in buckets && buckets[input.bucketKey].windowStart == input.windowStart {
        bucket := buckets[input.bucketKey];
      }
      buckets := buckets[input.bucketKey := bucket];
      if bucket.count >= input.limit {
        return Consumed(false, bucket.count, input.resetAt);
      }
      bucket := bucket.(count := bucket.count + 1);
      buckets := buckets[input.bucketKey := bucket];
      result := Consumed(true, bucket.count, input.resetAt);
      assert buckets == ConsumeMemory(old(buckets), input).1;
    }
  }

  class RedisRateLimitCounterStore {
    /** The hashes on the server, under the digests of the bucket keys. */
    var hashes: Redis
    const digest: string -> string

    constructor (digest: string -> string)
      ensures hashes == map[] && this.digest == digest
    {
      hashes := map[];
      this.digest := digest;
    }

    /** The script step by step; `now` is the time of the server. */
    method Consume(input: ConsumeInput, now: nat) returns (result: Consumed)
      modifies this
      ensures (result, hashes) == ConsumeRedis(old(hashes), digest, input, now)
    {
      hide Numeral;
      var key, start, count := digest(input.bucketKey), Numeral(input.windowStart), 0;
      if key in hashes && now <= hashes[key].expiresAt && hashes[key].windowStart == start {
        count := hashes[key].count;
      } else {
        hashes := hashes[key := RedisHash(start, 0, now + input.expiresAfter)];
      }
      if count >= input.limit {
        return Consumed(false, count, input.resetAt);
      }
      count := count + 1;
      hashes := hashes[key := RedisHash(start, count, now + input.expiresAfter)];
      result := Consumed(true, count, input.resetAt);
      assert hashes == ConsumeRedis(old(hashes), digest, input, now).1;
    }
  }

  /** The stores that a shared limiter can be given. */
  datatype CounterStore = Memory(memory: InMemoryRateLimitCounterStore) | Remote(redis: RedisRateLimitCounterStore)

  class SharedFixedWindowRateLimiter {
    const config: Config
    const store: CounterStore

    constructor (config: Config, store: CounterStore)
      requires IsConfig(config)
      ensures this.config == config && this.store == store
    {
      this.config := config;
      this.store := store;
    }

    ghost function StoreObject(): object {
      if store.Memory? then store.memory else store.redis
    }

    method Check(request: Request, now: nat) returns (decision: Decision)
      requires config.window > 0
      modifies StoreObject()
      ensures var input := InputFor(config, request, now);
              match store
              case Memory(memory) =>
                var (result, after) := ConsumeMemory(old(memory.buckets), input);
                decision == DecisionFrom(input, result, now) && memory.buckets == after
              case Remote(redis) =>
                var (result, after) := ConsumeRedis(old(redis.hashes), redis.digest, input, now);
                decision == DecisionFrom(input, result, now) && redis.hashes == after
    {
      hide KeyOf, ConsumeMemory, ConsumeRedis, WindowStart;
      var input, result := InputFor(config, request, now), Consumed(false, 0, 0);
      match store {
        case Memory(memory) => result := memory.Consume(input);
        case Remote(redis) => result := redis.Consume(input, now);
      }
      decision := DecisionFrom(input, result, now);
    }
  }
}
