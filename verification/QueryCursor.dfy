/** Collection queries: reading the parameters, the context text, and cursors bound to that context. */
module QueryCursor {
  import opened Collections
  import opened Text

  datatype Failure =
    | InvalidParameter(name: string)
    | InvalidLimit
    | InvalidSort
    | UnsupportedSort
    | UnsupportedFilter(name: string)
    | InvalidCursor

  /** SHA-256 of a text, cut to 16 hexadecimal digits. */
  type Digest = string -> string

  const CURSOR_PREFIX := "omniwa_cursor_v1"
  const DEFAULT_LIMIT: nat := 50
  const MAX_LIMIT: nat := 200

  // ---- validation of single values ----

  predicate IsLetter(c: char) {
    'A' <= c <= 'Z' || 'a' <= c <= 'z'
  }

  /** `[A-Za-z0-9_.:@/ -]` */
  predicate IsSafeChar(c: char) {
    IsLetter(c) || IsDigit(c) || c in {'_', '.', ':', '@', '/', ' ', '-'}
  }

  /** `^[A-Za-z][A-Za-z0-9]*$` */
  predicate IsFieldName(s: string) {
    s != "" && IsLetter(s[0]) && forall i :: 0 <= i < |s| ==> IsLetter(s[i]) || IsDigit(s[i])
  }

  predicate IsSafeValue(value: string, maxLength: nat) {
    var trimmed := Trim(value);
    0 < |trimmed| <= maxLength && forall i :: 0 <= i < |trimmed| ==> IsSafeChar(trimmed[i])
  }

  function ParseLimit(value: string): Option<nat> {
    var trimmed := Trim(value);
    if trimmed == "" || !AllDigits(trimmed) then None
    else
      var parsed := NumeralValue(trimmed);
      if parsed > MAX_SAFE_INTEGER || parsed < 1 then None else Some(parsed)
  }

  function AllowedSortFields(queryName: string): seq<string> {
    match queryName
    case "ListInstances" => ["id", "status", "createdAt", "updatedAt", "displayName"]
    case "ListInstanceSessions" => ["id", "status", "createdAt", "updatedAt"]
    case "ListInstanceMessages" => ["id", "status", "type", "direction", "createdAt", "updatedAt"]
    case "ListChats" => ["id", "status", "updatedAt", "displayName"]
    case "ListInstanceChats" => ["id", "status", "updatedAt", "displayName"]
    case "ListContacts" => ["id", "status", "updatedAt", "displayName"]
    case "ListInstanceContacts" => ["id", "status", "updatedAt", "displayName"]
    case "ListLabels" => ["id", "status", "updatedAt", "name"]
    case "ListInstanceLabels" => ["id", "status", "updatedAt", "name"]
    case "ListInstanceGroups" => ["id", "status", "updatedAt", "subject"]
    case "ListGroupMembers" => ["memberRef", "role", "joinedAt"]
    case "ListEvents" => ["timestamp", "type", "source"]
    case "ListWorkerJobs" => ["id", "status", "workType", "createdAt", "updatedAt"]
    case "ListWebhookSubscriptions" => ["id", "status", "updatedAt"]
    case "ListWebhookDeliveries" => ["id", "status", "createdAt", "updatedAt"]
    case "QueryAuditRecords" => ["id", "status", "category", "createdAt"]
    case _ => []
  }

  /**
   * The filter fields of a query in the order of `localeCompare`: the fields of one query begin with
   * different lower-case letters, so the first letter decides.
   */
  function AllowedFilterFields(queryName: string): (fields: seq<string>)
    ensures forall i, j :: 0 <= i < j < |fields| ==> fields[i] != "" && fields[j] != "" && fields[i][0] < fields[j][0]
  {
    match queryName
    case "ListInstances" => ["status"]
    case "ListInstanceSessions" => ["status"]
    case "ListInstanceMessages" => ["direction", "status", "type"]
    case "ListChats" => ["labelId", "status"]
    case "ListInstanceChats" => ["labelId", "status"]
    case "ListContacts" => ["status"]
    case "ListInstanceContacts" => ["status"]
    case "ListLabels" => ["status"]
    case "ListInstanceLabels" => ["status"]
    case "ListInstanceGroups" => ["status"]
    case "ListGroupMembers" => ["role", "status"]
    case "ListEvents" => ["resourceRef", "source", "type"]
    case "ListWorkerJobs" => ["ownerContext", "status", "workType"]
    case "ListWebhookSubscriptions" => ["status"]
    case "ListWebhookDeliveries" => ["failureCategory", "reasonCode", "status", "webhookId"]
    case "QueryAuditRecords" => ["category", "status"]
    case _ => []
  }

  /** `sort` names a field, with a leading minus for descending order. */
  function SortField(sort: string): string {
    if sort != "" && sort[0] == '-' then sort[1..] else sort
  }

  function SortFailure(queryName: string, value: string): Option<Failure> {
    var trimmed := Trim(value);
    if trimmed == "" || |trimmed| > 80 then Some(InvalidSort)
    else if !IsFieldName(SortField(trimmed)) || SortField(trimmed) !in AllowedSortFields(queryName) then Some(UnsupportedSort)
    else None
  }

  /** What is wrong with one parameter, if anything. */
  function ParameterFailure(queryName: string, key: string, value: string): Option<Failure> {
    if key == "cursor" then if IsSafeValue(value, 256) then None else Some(InvalidParameter("cursor"))
    else if key == "limit" then if ParseLimit(value).Some? then None else Some(InvalidLimit)
    else if key == "sort" then SortFailure(queryName, value)
    else if key == "search" then if IsSafeValue(value, 100) then None else Some(InvalidParameter("search"))
    else if key !in AllowedFilterFields(queryName) then Some(UnsupportedFilter(key))
    else if IsSafeValue(value, 120) then None else Some(InvalidParameter(key))
  }

  // ---- the context of a query ----

  datatype Query = Query(name: string, limit: nat, filters: map<string, string>, sort: Option<string>, search: Option<string>)

  function OptionalPart(tag: string, value: Option<string>): seq<string> {
    if value.None? then [] else [tag + value.value]
  }

  function FilterPart(key: string, value: string): string {
    "filter:" + key + "=" + value
  }

  function FilterParts(filters: map<string, string>, fields: seq<string>): seq<string> {
    if fields == [] then []
    else (if fields[0] in filters then [FilterPart(fields[0], filters[fields[0]])] else []) + FilterParts(filters, fields[1..])
  }

  function ContextParts(q: Query): seq<string> {
    ["query=" + q.name, "limit=" + Numeral(q.limit)]
    + (OptionalPart("sort=", q.sort) + (OptionalPart("search=", q.search) + FilterParts(q.filters, AllowedFilterFields(q.name))))
  }

  function CursorContext(q: Query): string {
    Join(ContextParts(q), '|')
  }

  // ---- cursors ----

  function EncodeCursor(offset: nat, context: string, digest: Digest): string {
    Join([CURSOR_PREFIX, Numeral(offset), digest(context)], ':')
  }

  function DecodeCursor(cursor: string, context: string, digest: Digest): Option<nat> {
    var parts := Split(cursor, ':');
    if |parts| != 3 || parts[0] != CURSOR_PREFIX then None
    else if parts[1] == "" || !AllDigits(parts[1]) || NumeralValue(parts[1]) > MAX_SAFE_INTEGER then None
    else if parts[2] == digest(context) then Some(NumeralValue(parts[1]))
    else None
  }

  predicate IsHexDigit(c: char) {
    IsDigit(c) || 'a' <= c <= 'f'
  }

  ghost predicate IsHexDigest(digest: Digest) {
    forall text :: |digest(text)| == 16 && forall i :: 0 <= i < 16 ==> IsHexDigit(digest(text)[i])
  }

  /**
   * A cursor decodes under a context exactly when the digests agree, and then to the offset it was
   * made from, for every offset that is a safe integer and for no other.
   */
  lemma {:induction false} DecodeOfEncode(offset: nat, made: string, read: string, digest: Digest)
    requires IsHexDigest(digest)
    ensures DecodeCursor(EncodeCursor(offset, made, digest), read, digest)
            == if offset <= MAX_SAFE_INTEGER && digest(made) == digest(read) then Some(offset) else None
  {
    CursorParts(offset, made, digest);
    NumeralRoundTrip(offset);
    hide Numeral, NumeralValue, Split, Join;
  }

  lemma {:induction false} CursorParts(offset: nat, context: string, digest: Digest)
    requires IsHexDigest(digest)
    ensures Split(EncodeCursor(offset, context, digest), ':') == [CURSOR_PREFIX, Numeral(offset), digest(context)]
  {
    var parts := [CURSOR_PREFIX, Numeral(offset), digest(context)];
    NumeralHasOnlyDigits(offset, ':');
    assert !Contains(parts[2], ':') by {
      assert forall i :: 0 <= i < |parts[2]| ==> IsHexDigit(parts[2][i]);
    }
    PrefixHasNoColon();
    hide Numeral, Contains;
    SplitOfJoin(parts, ':');
  }

  lemma {:induction false} PrefixHasNoColon()
    ensures !Contains(CURSOR_PREFIX, ':')
  {
  }

  /** Whatever decodes is the prefix, a run of digits and the digest of that very context. */
  lemma {:induction false} DecodesOnlyOwnCursors(cursor: string, context: string, digest: Digest)
    requires DecodeCursor(cursor, context, digest).Some?
    ensures exists digits: string ::
              && AllDigits(digits) && NumeralValue(digits) == DecodeCursor(cursor, context, digest).value
              && cursor == Join([CURSOR_PREFIX, digits, digest(context)], ':')
  {
    var parts := Split(cursor, ':');
    JoinOfSplit(cursor, ':');
    assert parts == [CURSOR_PREFIX, parts[1], digest(context)];
    hide Split, Join, NumeralValue;
  }

  // ---- a cursor that was handed out passes validation when it comes back ----

  function PowerOfTen(k: nat): nat {
    if k == 0 then 1 else 10 * PowerOfTen(k - 1)
  }

  lemma {:induction false} NumeralLength(n: nat, k: nat)
    requires k > 0 && n < PowerOfTen(k)
    ensures |Numeral(n)| <= k
  {
    if n >= 10 {
      assert k > 1;
      assert n / 10 < PowerOfTen(k - 1);
      NumeralLength(n / 10, k - 1);
    }
  }

  lemma {:induction false} SafeNumeralLength(n: nat)
    requires n <= MAX_SAFE_INTEGER
    ensures |Numeral(n)| <= 16
  {
    assert PowerOfTen(4) == 10000;
    assert PowerOfTen(8) == 100000000;
    assert PowerOfTen(12) == 1000000000000;
    assert PowerOfTen(16) == 10000000000000000;
    NumeralLength(n, 16);
  }

  lemma {:induction false} EncodedCursorPassesValidation(queryName: string, offset: nat, context: string,
          digest: Digest)
    requires IsHexDigest(digest) && offset <= MAX_SAFE_INTEGER
    ensures ParameterFailure(queryName, "cursor", EncodeCursor(offset, context, digest)).None?
  {
    var parts := [CURSOR_PREFIX, Numeral(offset), digest(context)];
    var cursor := EncodeCursor(offset, context, digest);
    SafeNumeralLength(offset);
    JoinCons(parts, ':');
    JoinCons(parts[1..], ':');
    JoinOne(parts[2], ':');
    assert parts[1..][1..] == [parts[2]];
    hide Join, Numeral, Trim, PowerOfTen;
    assert cursor == CURSOR_PREFIX + [':'] + (parts[1] + [':'] + parts[2]);
    assert forall i :: 0 <= i < |CURSOR_PREFIX| ==> IsSafeChar(CURSOR_PREFIX[i]);
    assert forall i :: 0 <= i < |parts[1]| ==> IsSafeChar(parts[1][i]);
    assert forall i :: 0 <= i < |parts[2]| ==> IsHexDigit(parts[2][i]);
    assert forall i :: 0 <= i < |cursor| ==> IsSafeChar(cursor[i]);
    assert cursor[|cursor| - 1] == parts[2][15];
    TrimKeepsSolid(cursor);
  }

  // ---- different queries have different contexts ----

  ghost predicate IsValidated(q: Query) {
    && !Contains(q.name, '|')
    && (q.sort.Some? ==> SortFailure(q.name, q.sort.value).None?)
    && (q.search.Some? ==> IsSafeValue(q.search.value, 100))
    && forall key :: key in q.filters ==> key in AllowedFilterFields(q.name) && IsSafeValue(q.filters[key], 120)
  }

  /** `^[A-Za-z]*$` */
  predicate IsWord(s: string) {
    forall i :: 0 <= i < |s| ==> IsLetter(s[i])
  }

  predicate IsFilterField(f: string) {
    || f == "status" || f == "direction" || f == "type" || f == "labelId" || f == "role" || f == "resourceRef" || f == "source"
    || f == "ownerContext" || f == "workType" || f == "failureCategory" || f == "reasonCode" || f == "webhookId" || f == "category"
  }

  lemma {:induction false} FilterFieldsAreWords(f: string)
    requires IsFilterField(f)
    ensures IsWord(f)
  {
  }

  lemma {:induction false} FieldsAreFilterFields(queryName: string)
    ensures forall i :: 0 <= i < |AllowedFilterFields(queryName)| ==> IsFilterField(AllowedFilterFields(queryName)[i])
  {
  }

  lemma {:induction false} FieldsAreWords(queryName: string)
    ensures forall f :: f in AllowedFilterFields(queryName) ==> IsWord(f)
  {
    hide IsWord, AllowedFilterFields, IsFilterField;
    FieldsAreFilterFields(queryName);
    var fields := AllowedFilterFields(queryName);
    forall i | 0 <= i < |fields| ensures IsWord(fields[i]) {
      FilterFieldsAreWords(fields[i]);
    }
  }

  /** What is left of a value around its trimmed middle is white space. */
  lemma {:induction false} AroundTrimmed(value: string, c: char)
    requires Contains(value, c) && !IsWhiteSpace(c)
    ensures Contains(Trim(value), c)
  {
    hide IsWhiteSpace, TrimStart, TrimEnd;
    var i :| 0 <= i < |value| && value[i] == c;
    var start, trimmed := TrimStart(value), Trim(value);
    var cut := |value| - |start|;
    assert cut <= i && start[i - cut] == c;
    assert i - cut < |trimmed| && trimmed[i - cut] == c;
  }

  lemma {:induction false} SafeValueHasNoBar(value: string, maxLength: nat)
    requires IsSafeValue(value, maxLength)
    ensures !Contains(value, '|')
  {
    hide Trim;
    if Contains(value, '|') {
      AroundTrimmed(value, '|');
      assert false;
    }
  }

  lemma {:induction false} SortHasNoBar(queryName: string, value: string)
    requires SortFailure(queryName, value).None?
    ensures !Contains(value, '|')
  {
    hide Trim, AllowedSortFields;
    var trimmed, field := Trim(value), SortField(Trim(value));
    assert trimmed == field || trimmed == ['-'] + field;
    assert forall i :: 0 <= i < |trimmed| ==> trimmed[i] != '|';
    if Contains(value, '|') {
      AroundTrimmed(value, '|');
      assert false;
    }
  }

  lemma {:induction false} ConcatHasNone(a: string, b: string, c: char)
    requires !Contains(a, c) && !Contains(b, c)
    ensures !Contains(a + b, c)
  {
  }

  ghost predicate NoBars(parts: seq<string>) {
    forall i :: 0 <= i < |parts| ==> !Contains(parts[i], '|')
  }

  lemma {:induction false} FilterPartsHaveNoBar(filters: map<string, string>, fields: seq<string>)
    requires forall f :: f in fields ==> IsWord(f)
    requires forall key :: key in filters ==> !Contains(filters[key], '|')
    ensures NoBars(FilterParts(filters, fields))
  {
    if fields != [] {
      FilterPartsHaveNoBar(filters, fields[1..]);
      if fields[0] in filters {
        assert IsWord(fields[0]);
        assert !Contains(fields[0], '|');
        hide IsWord;
        ConcatHasNone("filter:", fields[0], '|');
        ConcatHasNone("filter:" + fields[0], "=", '|');
        ConcatHasNone("filter:" + fields[0] + "=", filters[fields[0]], '|');
        hide Contains;
      }
    }
  }

  lemma {:induction false} ContextPartsHaveNoBar(q: Query)
    requires IsValidated(q)
    ensures NoBars(ContextParts(q))
  {
    hide Contains, AllowedFilterFields, FilterParts, OptionalPart, Numeral, IsSafeValue, SortFailure, IsWord, NoBars;
    HeadPartsHaveNoBar(q);
    TailPartsHaveNoBar(q);
    var sort, search := OptionalPart("sort=", q.sort), OptionalPart("search=", q.search);
    var filters := FilterParts(q.filters, AllowedFilterFields(q.name));
    NoBarsInConcat(search, filters);
    NoBarsInConcat(sort, search + filters);
    NoBarsInConcat(["query=" + q.name, "limit=" + Numeral(q.limit)], sort + (search + filters));
  }

  lemma {:induction false} NoBarsInConcat(a: seq<string>, b: seq<string>)
    requires NoBars(a) && NoBars(b)
    ensures NoBars(a + b)
  {
    hide Contains;
  }

  lemma {:induction false} HeadPartsHaveNoBar(q: Query)
    requires IsValidated(q)
    ensures NoBars(["query=" + q.name, "limit=" + Numeral(q.limit)])
  {
    hide Numeral;
    NumeralHasOnlyDigits(q.limit, '|');
    ConcatHasNone("query=", q.name, '|');
    ConcatHasNone("limit=", Numeral(q.limit), '|');
  }

  lemma {:induction false} TailPartsHaveNoBar(q: Query)
    requires IsValidated(q)
    ensures NoBars(OptionalPart("sort=", q.sort)) && NoBars(OptionalPart("search=", q.search))
    ensures NoBars(FilterParts(q.filters, AllowedFilterFields(q.name)))
  {
    hide AllowedFilterFields, FilterParts, OptionalPart, IsWord, SortFailure, IsSafeValue, NoBars;
    FieldsAreWords(q.name);
    forall key | key in q.filters ensures !Contains(q.filters[key], '|') {
      SafeValueHasNoBar(q.filters[key], 120);
    }
    FilterPartsHaveNoBar(q.filters, AllowedFilterFields(q.name));
    if q.sort.Some? { SortHasNoBar(q.name, q.sort.value); }
    if q.search.Some? { SafeValueHasNoBar(q.search.value, 100); }
    OptionalPartHasNoBar("sort=", q.sort);
    OptionalPartHasNoBar("search=", q.search);
  }

  lemma {:induction false} OptionalPartHasNoBar(tag: string, value: Option<string>)
    requires !Contains(tag, '|') && (value.Some? ==> !Contains(value.value, '|'))
    ensures NoBars(OptionalPart(tag, value))
  {
    if value.Some? {
      ConcatHasNone(tag, value.value, '|');
    }
  }

  lemma {:induction false} FilterPartInjective(f: string, v: string, g: string, w: string)
    requires IsWord(f) && IsWord(g) && FilterPart(f, v) == FilterPart(g, w)
    ensures f == g && v == w
  {
    var fv, gw := f + ['='] + v, g + ['='] + w;
    assert FilterPart(f, v) == "filter:" + fv && FilterPart(g, w) == "filter:" + gw;
    assert ("filter:" + fv)[7..] == fv && ("filter:" + gw)[7..] == gw;
    assert !Contains(f, '=') && !Contains(g, '=');
    hide IsWord, Contains, FilterPart;
    CutToken(f, v, g, w, '=');
  }

  /** The parts begin with the first field that has a filter. */
  lemma {:induction false} FirstFilterPart(filters: map<string, string>, fields: seq<string>)
    requires FilterParts(filters, fields) != []
    ensures exists f :: f in fields && f in filters && FilterParts(filters, fields)[0] == FilterPart(f, filters[f])
  {
    hide FilterPart;
    if fields[0] in filters {
      assert FilterParts(filters, fields)[0] == FilterPart(fields[0], filters[fields[0]]);
    } else {
      FirstFilterPart(filters, fields[1..]);
    }
  }

  lemma {:induction false} FilterPartsAgree(a: map<string, string>, b: map<string, string>, fields: seq<string>)
    requires FilterParts(a, fields) == FilterParts(b, fields)
    requires Distinct(fields) && forall f :: f in fields ==> IsWord(f)
    ensures forall f :: f in fields ==> (f in a <==> f in b) && (f in a && f in b ==> a[f] == b[f])
  {
    hide IsWord, FilterPart;
    if fields != [] {
      var f, rest := fields[0], fields[1..];
      assert f !in rest;
      FirstPartsAgree(a, b, fields);
      FirstPartsAgree(b, a, fields);
      if f in a && f in b {
        assert FilterParts(a, fields)[0] == FilterPart(f, a[f]);
        assert FilterParts(b, fields)[0] == FilterPart(f, b[f]);
        FilterPartInjective(f, a[f], f, b[f]);
        assert FilterParts(a, rest) == FilterParts(a, fields)[1..];
        assert FilterParts(b, rest) == FilterParts(b, fields)[1..];
      } else {
        assert FilterParts(a, rest) == FilterParts(a, fields);
        assert FilterParts(b, rest) == FilterParts(b, fields);
      }
      FilterPartsAgree(a, b, rest);
    }
  }

  lemma {:induction false} FirstPartsAgree(a: map<string, string>, b: map<string, string>, fields: seq<string>)
    requires fields != [] && FilterParts(a, fields) == FilterParts(b, fields)
    requires fields[0] !in fields[1..] && forall f :: f in fields ==> IsWord(f)
    ensures fields[0] in a ==> fields[0] in b
  {
    hide IsWord, FilterPart;
    var f := fields[0];
    if f in a && f !in b {
      assert FilterParts(a, fields)[0] == FilterPart(f, a[f]);
      FirstFilterPart(b, fields[1..]);
      var g :| g in fields[1..] && g in b && FilterParts(b, fields[1..])[0] == FilterPart(g, b[g]);
      FilterPartInjective(f, a[f], g, b[g]);
      assert false;
    }
  }

  /** A part that begins with `tag` is the optional part, when nothing else can begin that way. */
  lemma {:induction false} OptionalPartsAgree(tag: string, a: Option<string>, restA: seq<string>, b: Option<string>,
          restB: seq<string>)
    requires OptionalPart(tag, a) + restA == OptionalPart(tag, b) + restB
    requires restA != [] ==> !(tag <= restA[0])
    requires restB != [] ==> !(tag <= restB[0])
    ensures a == b && restA == restB
  {
    if a.Some? {
      assert (OptionalPart(tag, a) + restA)[0] == tag + a.value;
    }
    if b.Some? {
      assert (OptionalPart(tag, b) + restB)[0] == tag + b.value;
    }
    assert a.Some? == b.Some?;
    if a.Some? && b.Some? {
      assert (tag + a.value)[|tag|..] == a.value && (tag + b.value)[|tag|..] == b.value;
      assert restA == (OptionalPart(tag, a) + restA)[1..];
      assert restB == (OptionalPart(tag, b) + restB)[1..];
    } else {
      assert restA == OptionalPart(tag, a) + restA;
      assert restB == OptionalPart(tag, b) + restB;
    }
  }

  lemma {:induction false} FiltersBeginOtherwise(filters: map<string, string>, fields: seq<string>)
    ensures var parts := FilterParts(filters, fields);
            parts != [] ==> !("search=" <= parts[0]) && !("sort=" <= parts[0])
  {
    if FilterParts(filters, fields) != [] {
      FirstFilterPart(filters, fields);
      var f :| f in fields && f in filters && FilterParts(filters, fields)[0] == FilterPart(f, filters[f]);
      assert FilterPart(f, filters[f])[1] == 'i';
      assert "search="[1] == 'e' && "sort="[1] == 'o';
    }
  }

  lemma {:induction false} SearchBeginsOtherwise(search: Option<string>, rest: seq<string>)
    requires rest != [] ==> !("sort=" <= rest[0])
    ensures var parts := OptionalPart("search=", search) + rest;
            parts != [] ==> !("sort=" <= parts[0])
  {
    if search.Some? {
      assert ("search=" + search.value)[1] == 'e' && "sort="[1] == 'o';
      assert (OptionalPart("search=", search) + rest)[0] == "search=" + search.value;
    } else {
      assert OptionalPart("search=", search) + rest == rest;
    }
  }

  lemma {:induction false} TailsAgree(a: Query, b: Query)
    requires a.name == b.name
    requires OptionalPart("sort=", a.sort) + (OptionalPart("search=", a.search) + FilterParts(a.filters, AllowedFilterFields(a.name)))
          == OptionalPart("sort=", b.sort) + (OptionalPart("search=", b.search) + FilterParts(b.filters, AllowedFilterFields(b.name)))
    ensures a.sort == b.sort && a.search == b.search
    ensures FilterParts(a.filters, AllowedFilterFields(a.name)) == FilterParts(b.filters, AllowedFilterFields(a.name))
  {
    var fields := AllowedFilterFields(a.name);
    var fa, fb := FilterParts(a.filters, fields), FilterParts(b.filters, fields);
    FiltersBeginOtherwise(a.filters, fields);
    FiltersBeginOtherwise(b.filters, fields);
    SearchBeginsOtherwise(a.search, fa);
    SearchBeginsOtherwise(b.search, fb);
    hide AllowedFilterFields, FilterParts, OptionalPart;
    OptionalPartsAgree("sort=", a.sort, OptionalPart("search=", a.search) + fa, b.sort, OptionalPart("search=", b.search) + fb);
    OptionalPartsAgree("search=", a.search, fa, b.search, fb);
  }

  lemma {:induction false} TaggedAgree(tag: string, a: string, b: string)
    requires tag + a == tag + b
    ensures a == b
  {
    assert (tag + a)[|tag|..] == a && (tag + b)[|tag|..] == b;
  }

  /** Two validated queries with the same context agree in name, limit, sort, search and every filter. */
  lemma {:induction false} ContextIdentifiesQuery(a: Query, b: Query)
    requires IsValidated(a) && IsValidated(b) && CursorContext(a) == CursorContext(b)
    ensures a == b
  {
    ContextPartsHaveNoBar(a);
    ContextPartsHaveNoBar(b);
    SplitOfJoin(ContextParts(a), '|');
    SplitOfJoin(ContextParts(b), '|');
    assert ContextParts(a) == ContextParts(b);
    hide ContextParts, AllowedFilterFields, SortFailure, IsSafeValue, CursorContext;
    PartsIdentifyQuery(a, b);
  }

  lemma {:induction false} PartsIdentifyQuery(a: Query, b: Query)
    requires ContextParts(a) == ContextParts(b)
    requires forall key :: key in a.filters ==> key in AllowedFilterFields(a.name)
    requires forall key :: key in b.filters ==> key in AllowedFilterFields(b.name)
    ensures a == b
  {
    var pa, pb := ContextParts(a), ContextParts(b);
    FieldsAreWords(a.name);
    assert Distinct(AllowedFilterFields(a.name));
    hide AllowedFilterFields, FilterParts, OptionalPart, Numeral, IsWord;
    assert pa[0] == "query=" + a.name && pb[0] == "query=" + b.name;
    assert pa[1] == "limit=" + Numeral(a.limit) && pb[1] == "limit=" + Numeral(b.limit);
    TaggedAgree("query=", a.name, b.name);
    TaggedAgree("limit=", Numeral(a.limit), Numeral(b.limit));
    NumeralInjective(a.limit, b.limit);
    assert pa[2..] == pb[2..];
    TailsAgree(a, b);
    FilterPartsAgree(a.filters, b.filters, AllowedFilterFields(a.name));
    assert a.filters == b.filters;
  }

  // ---- reading the parameters of a request ----

  type Parameters = seq<(string, string)>

  datatype Options = Options(query: Query, cursorOffset: nat, cursorContext: string, cursor: Option<string>)

  /** The failure of the first parameter that has one. */
  function FirstFailure(queryName: string, params: Parameters): Option<Failure> {
    if params == [] then None
    else
      var earlier := FirstFailure(queryName, params[..|params| - 1]);
      if earlier.Some? then earlier else ParameterFailure(queryName, params[|params| - 1].0, params[|params| - 1].1)
  }

  function LastValue(params: Parameters, key: string): Option<string> {
    if params == [] then None
    else if params[|params| - 1].0 == key then Some(params[|params| - 1].1)
    else LastValue(params[..|params| - 1], key)
  }

  function LimitOf(params: Parameters): nat {
    match LastValue(params, "limit")
    case Some(value) => if ParseLimit(value).Some? then Min(ParseLimit(value).value, MAX_LIMIT) else DEFAULT_LIMIT
    case None => DEFAULT_LIMIT
  }

  function FiltersOf(queryName: string, params: Parameters): map<string, string> {
    map key | key in AllowedFilterFields(queryName) && LastValue(params, key).Some? :: LastValue(params, key).value
  }

  /** The last value of each parameter counts. */
  function QueryOf(queryName: string, params: Parameters): Query {
    Query(queryName, LimitOf(params), FiltersOf(queryName, params), LastValue(params, "sort"), LastValue(params, "search"))
  }

  function Normalized(queryName: string, params: Parameters, digest: Digest): Result<Options, Failure> {
    var failure := FirstFailure(queryName, params);
    if failure.Some? then Err(failure.value)
    else
      var query := QueryOf(queryName, params);
      var context := CursorContext(query);
      match LastValue(params, "cursor")
      case None => Ok(Options(query, 0, context, None))
      case Some(cursor) =>
        var offset := DecodeCursor(cursor, context, digest);
        if offset.None? then Err(InvalidCursor) else Ok(Options(query, offset.value, context, Some(cursor)))
  }

  lemma {:induction false} OneMoreParameter(queryName: string, params: Parameters, i: nat)
    requires i < |params|
    ensures FirstFailure(queryName, params[..i + 1])
            == if FirstFailure(queryName, params[..i]).Some? then FirstFailure(queryName, params[..i])
               else ParameterFailure(queryName, params[i].0, params[i].1)
  {
    hide ParameterFailure;
    assert params[..i + 1][..i] == params[..i];
  }

  lemma {:induction false} OneMoreValue(params: Parameters, i: nat, key: string)
    requires i < |params|
    ensures LastValue(params[..i + 1], key) == if params[i].0 == key then Some(params[i].1) else LastValue(params[..i], key)
  {
    assert params[..i + 1][..i] == params[..i];
  }

  /** What the query becomes when one more valid parameter is read. */
  function WithParameter(q: Query, key: string, value: string): Query {
    if key == "cursor" then q
    else if key == "limit" then q.(limit := if ParseLimit(value).Some? then Min(ParseLimit(value).value, MAX_LIMIT) else DEFAULT_LIMIT)
    else if key == "sort" then q.(sort := Some(value))
    else if key == "search" then q.(search := Some(value))
    else q.(filters := q.filters[key := value])
  }

  lemma {:induction false} OneMoreSetting(queryName: string, params: Parameters, i: nat)
    requires i < |params| && ParameterFailure(queryName, params[i].0, params[i].1).None?
    ensures QueryOf(queryName, params[..i + 1]) == WithParameter(QueryOf(queryName, params[..i]), params[i].0, params[i].1)
  {
    var (key, value) := params[i];
    assert key !in {"cursor", "limit", "sort", "search"} ==> key in AllowedFilterFields(queryName);
    ReservedNamesAreNoFilters(queryName);
    hide LastValue, ParseLimit, AllowedFilterFields, IsSafeValue, SortFailure;
    OneMoreValue(params, i, "limit");
    OneMoreValue(params, i, "sort");
    OneMoreValue(params, i, "search");
    forall f | f in AllowedFilterFields(queryName)
      ensures LastValue(params[..i + 1], f) == if key == f then Some(value) else LastValue(params[..i], f)
    {
      OneMoreValue(params, i, f);
    }
    FiltersStep(queryName, params, i);
    hide FiltersOf;
  }

  lemma {:induction false} FiltersStep(queryName: string, params: Parameters, i: nat)
    requires i < |params|
    requires forall f :: f in AllowedFilterFields(queryName) ==>
               LastValue(params[..i + 1], f) == if params[i].0 == f then Some(params[i].1) else LastValue(params[..i], f)
    ensures FiltersOf(queryName, params[..i + 1])
            == if params[i].0 in AllowedFilterFields(queryName) then FiltersOf(queryName, params[..i])[params[i].0 := params[i].1]
               else FiltersOf(queryName, params[..i])
  {
    hide LastValue, AllowedFilterFields;
  }

  lemma {:induction false} FailureStays(queryName: string, params: Parameters, i: nat)
    requires i <= |params| && FirstFailure(queryName, params[..i]).Some?
    ensures FirstFailure(queryName, params) == FirstFailure(queryName, params[..i])
    decreases |params| - i
  {
    hide ParameterFailure;
    assert params[..|params|] == params;
    if i < |params| {
      OneMoreParameter(queryName, params, i);
      FailureStays(queryName, params, i + 1);
    }
  }

  /** A filter that the query does not allow is never confused with the four reserved names. */
  lemma {:induction false} ReservedNamesAreNoFilters(queryName: string)
    ensures forall key :: key in {"cursor", "limit", "sort", "search"} ==> key !in AllowedFilterFields(queryName)
  {
  }

  lemma {:induction false} NoParameters(queryName: string)
    ensures FirstFailure(queryName, []).None? && LastValue([], "cursor").None?
    ensures QueryOf(queryName, []) == Query(queryName, DEFAULT_LIMIT, map[], None, None)
  {
    hide AllowedFilterFields;
  }

  method NormalizeCollectionQueryOptions(queryName: string, params: Parameters, digest: Digest)
    returns (r: Result<Options, Failure>)
    ensures r == Normalized(queryName, params, digest)
  {
    hide AllowedFilterFields, DecodeCursor, CursorContext, IsSafeValue, SortFailure, FirstFailure, LastValue, QueryOf;
    var filters: map<string, string> := map[];
    var cursor, sort, search := None, None, None;
    var limit: nat := DEFAULT_LIMIT;
    NoParameters(queryName);
    assert params[..0] == [];
    for i := 0 to |params|
      invariant FirstFailure(queryName, params[..i]).None?
      invariant cursor == LastValue(params[..i], "cursor")
      invariant Query(queryName, limit, filters, sort, search) == QueryOf(queryName, params[..i])
    {
      OneMoreParameter(queryName, params, i);
      OneMoreValue(params, i, "cursor");
      var (key, value) := params[i];
      var failure := ParameterFailure(queryName, key, value);
      if failure.Some? {
        FailureStays(queryName, params, i + 1);
        return Err(failure.value);
      }
      OneMoreSetting(queryName, params, i);
      if key == "cursor" {
        cursor := Some(value);
      } else if key == "limit" {
        limit := Min(ParseLimit(value).value, MAX_LIMIT);
      } else if key == "sort" {
        sort := Some(value);
      } else if key == "search" {
        search := Some(value);
      } else {
        filters := filters[key := value];
      }
    }
    assert params[..|params|] == params;
    var query := Query(queryName, limit, filters, sort, search);
    var context := CursorContext(query);
    if cursor.None? {
      return Ok(Options(query, 0, context, None));
    }
    var offset := DecodeCursor(cursor.value, context, digest);
    if offset.None? {
      return Err(InvalidCursor);
    }
    r := Ok(Options(query, offset.value, context, cursor));
  }

  // ---- whole requests ----

  lemma {:induction false} NoFailureMeansEachValid(queryName: string, params: Parameters, key: string)
    requires FirstFailure(queryName, params).None? && LastValue(params, key).Some?
    ensures ParameterFailure(queryName, key, LastValue(params, key).value).None?
  {
    hide ParameterFailure;
    if params[|params| - 1].0 != key {
      NoFailureMeansEachValid(queryName, params[..|params| - 1], key);
    }
  }

  /** Parameters that are accepted make a validated query, with a limit from 1 to 200. */
  lemma {:induction false} AcceptedIsValidated(queryName: string, params: Parameters)
    requires !Contains(queryName, '|') && FirstFailure(queryName, params).None?
    ensures IsValidated(QueryOf(queryName, params))
    ensures 1 <= QueryOf(queryName, params).limit <= MAX_LIMIT
  {
    hide AllowedFilterFields, IsSafeValue, SortFailure, LastValue, FirstFailure, Contains;
    ReservedNamesAreNoFilters(queryName);
    forall key | LastValue(params, key).Some?
      ensures ParameterFailure(queryName, key, LastValue(params, key).value).None?
    {
      NoFailureMeansEachValid(queryName, params, key);
    }
  }

  lemma {:induction false} CursorDoesNotChangeQuery(queryName: string, params: Parameters, cursor: string)
    requires FirstFailure(queryName, params).None?
    requires ParameterFailure(queryName, "cursor", cursor).None?
    ensures var more := params + [("cursor", cursor)];
            && FirstFailure(queryName, more).None?
            && QueryOf(queryName, more) == QueryOf(queryName, params)
            && LastValue(more, "cursor") == Some(cursor)
  {
    var more := params + [("cursor", cursor)];
    assert more[..|params|] == params && more[..|params| + 1] == more;
    hide FirstFailure, LastValue, QueryOf, ParameterFailure;
    OneMoreParameter(queryName, more, |params|);
    OneMoreSetting(queryName, more, |params|);
    OneMoreValue(more, |params|, "cursor");
  }

  /** A cursor handed out for a request is accepted when that request is repeated with it. */
  lemma {:induction false} RepeatedRequestTakesCursor(queryName: string, params: Parameters, offset: nat,
          digest: Digest)
    requires IsHexDigest(digest) && offset <= MAX_SAFE_INTEGER && FirstFailure(queryName, params).None?
    ensures var query := QueryOf(queryName, params);
            var cursor := EncodeCursor(offset, CursorContext(query), digest);
            Normalized(queryName, params + [("cursor", cursor)], digest)
            == Ok(Options(query, offset, CursorContext(query), Some(cursor)))
  {
    hide FirstFailure, LastValue, QueryOf, ParameterFailure, CursorContext, EncodeCursor, DecodeCursor;
    var context := CursorContext(QueryOf(queryName, params));
    var cursor := EncodeCursor(offset, context, digest);
    EncodedCursorPassesValidation(queryName, offset, context, digest);
    CursorDoesNotChangeQuery(queryName, params, cursor);
    DecodeOfEncode(offset, context, context, digest);
  }

  /**
   * A cursor handed out for one request is refused by every request that asks for another name,
   * limit, sort, search or filter, unless the digests of the two different contexts collide.
   */
  lemma {:induction false} OtherRequestRefusesCursor(nameA: string, paramsA: Parameters, nameB: string,
          paramsB: Parameters, offset: nat, digest: Digest)
    requires IsHexDigest(digest) && offset <= MAX_SAFE_INTEGER
    requires !Contains(nameA, '|') && FirstFailure(nameA, paramsA).None?
    requires !Contains(nameB, '|') && FirstFailure(nameB, paramsB).None?
    requires QueryOf(nameA, paramsA) != QueryOf(nameB, paramsB)
    ensures var contextA, contextB := CursorContext(QueryOf(nameA, paramsA)), CursorContext(QueryOf(nameB, paramsB));
            && contextA != contextB
            && (Normalized(nameB, paramsB + [("cursor", EncodeCursor(offset, contextA, digest))], digest) == Err(InvalidCursor)
                <==> digest(contextA) != digest(contextB))
  {
    AcceptedIsValidated(nameA, paramsA);
    AcceptedIsValidated(nameB, paramsB);
    var a, b := QueryOf(nameA, paramsA), QueryOf(nameB, paramsB);
    if CursorContext(a) == CursorContext(b) {
      ContextIdentifiesQuery(a, b);
    }
    hide FirstFailure, LastValue, QueryOf, ParameterFailure, CursorContext, EncodeCursor, DecodeCursor, IsValidated, Contains;
    var cursor := EncodeCursor(offset, CursorContext(a), digest);
    EncodedCursorPassesValidation(nameB, offset, CursorContext(a), digest);
    CursorDoesNotChangeQuery(nameB, paramsB, cursor);
    DecodeOfEncode(offset, CursorContext(a), CursorContext(b), digest);
  }

  /** An accepted sort value names an allowed field exactly when nothing was trimmed to check it. */
  lemma {:induction false} SortNamesAllowedFieldIff(queryName: string, value: string)
    requires SortFailure(queryName, value).None?
    ensures SortField(value) in AllowedSortFields(queryName) && IsFieldName(SortField(value)) <==> value == Trim(value)
  {
    hide AllowedSortFields;
    if value != Trim(value) {
      SpaceAtAnEnd(value);
      hide Trim, IsWhiteSpace;
      if IsWhiteSpace(value[0]) {
        NoWhiteSpaceInNames(value[0]);
        assert SortField(value) == value;
      } else {
        NoWhiteSpaceInNames(value[|value| - 1]);
        assert SortField(value) != "" ==> SortField(value)[|SortField(value)| - 1] == value[|value| - 1];
      }
    }
  }

  lemma {:induction false} SpaceAtAnEnd(value: string)
    requires value != Trim(value)
    ensures value != "" && (IsWhiteSpace(value[0]) || IsWhiteSpace(value[|value| - 1]))
  {
    hide IsWhiteSpace, Trim;
    if value == "" {
      TrimKeepsSolid(value);
    } else if !IsWhiteSpace(value[0]) && !IsWhiteSpace(value[|value| - 1]) {
      TrimKeepsSolid(value);
    }
  }

  lemma {:induction false} NoWhiteSpaceInNames(c: char)
    requires IsWhiteSpace(c)
    ensures !IsLetter(c) && !IsDigit(c) && c != '-'
  {
  }

  lemma {:induction false} EventSortFields()
    ensures AllowedSortFields("ListEvents") == ["timestamp", "type", "source"]
  {
  }

  lemma {:induction false} PaddedType()
    ensures Trim(" type") == "type"
  {
    hide Trim;
    TrimDropsSpace("type");
    assert [' '] + "type" == " type";
  }

  /** " type" is such a value: it is accepted for events, and names none of their sort fields. */
  lemma {:induction false} PaddedSortIsAccepted()
    ensures SortFailure("ListEvents", " type").None?
    ensures SortField(" type") !in AllowedSortFields("ListEvents")
  {
    hide Trim, AllowedSortFields;
    EventSortFields();
    PaddedType();
    var fields := ["timestamp", "type", "source"];
    assert fields[1] == "type" && fields[0][0] == 't' && fields[2][0] == 's';
  }
}
