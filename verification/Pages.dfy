/** Public collections: filter, stable sort and page, and what following the page cursors delivers. */
module Pages {
  import opened Collections
  import opened Text
  import opened QueryCursor

  /** A public value; a number carries the text that `String` gives for it, `Other` is any other value. */
  datatype Value = Str(s: string) | Number(shown: string) | Flag(flag: bool) | StrArray(values: seq<string>) | Other

  type Item = map<string, Value>

  /** `toLocaleLowerCase("en-US")`, and `localeCompare` with numeric collation and base sensitivity. */
  datatype Locale = Locale(lower: string -> string, compare: (string, string) -> int)

  // ---- filtering ----

  function Field(item: Item, name: string): Option<Value> {
    if name in item then Some(item[name]) else None
  }

  function Comparable(value: Option<Value>): Option<string> {
    match value
    case Some(Str(s)) => Some(s)
    case Some(Number(shown)) => Some(shown)
    case Some(Flag(flag)) => Some(if flag then "true" else "false")
    case _ => None
  }

  predicate MatchesFilters(item: Item, filters: map<string, string>) {
    forall key :: key in filters ==> Comparable(Field(item, key)) == Some(filters[key])
  }

  predicate Includes(s: string, part: string) {
    part <= s || (s != "" && Includes(s[1..], part))
  }

  predicate ValueMatches(value: Value, expected: string, locale: Locale) {
    match value
    case Str(s) => Includes(locale.lower(s), expected)
    case StrArray(values) => exists i :: 0 <= i < |values| && Includes(locale.lower(values[i]), expected)
    case _ => false
  }

  predicate MatchesSearch(item: Item, search: Option<string>, locale: Locale) {
    search.Some? ==> exists key :: key in item && ValueMatches(item[key], locale.lower(search.value), locale)
  }

  predicate Matches(item: Item, q: Query, locale: Locale) {
    MatchesFilters(item, q.filters) && MatchesSearch(item, q.search, locale)
  }

  function Filter(items: seq<Item>, q: Query, locale: Locale): (r: seq<Item>)
    ensures |r| <= |items|
  {
    if items == [] then []
    else (if Matches(items[0], q, locale) then [items[0]] else []) + Filter(items[1..], q, locale)
  }

  // ---- sorting ----

  /** Values that cannot be compared come last. */
  function CompareValues(left: Option<Value>, right: Option<Value>, locale: Locale): int {
    var l, r := Comparable(left), Comparable(right);
    if l.None? && r.None? then 0
    else if l.None? then 1
    else if r.None? then -1
    else locale.compare(l.value, r.value)
  }

  datatype Entry = Entry(item: Item, index: nat)

  predicate IsDescending(sort: string) {
    sort != "" && sort[0] == '-'
  }

  function CompareEntries(left: Entry, right: Entry, sort: string, locale: Locale): int {
    var comparison := CompareValues(Field(left.item, SortField(sort)), Field(right.item, SortField(sort)), locale);
    if comparison != 0 then if IsDescending(sort) then -comparison else comparison
    else left.index - right.index
  }

  /** An insertion sort; by `OnlyOneSorting` no other sort can return anything else. */
  function Insert(e: Entry, es: seq<Entry>, sort: string, locale: Locale): seq<Entry> {
    if es == [] || CompareEntries(e, es[0], sort, locale) < 0 then [e] + es
    else [es[0]] + Insert(e, es[1..], sort, locale)
  }

  function SortEntries(es: seq<Entry>, sort: string, locale: Locale): seq<Entry> {
    if es == [] then [] else Insert(es[0], SortEntries(es[1..], sort, locale), sort, locale)
  }

  function Indexed(items: seq<Item>, from: nat): (es: seq<Entry>)
    ensures |es| == |items| && forall i :: 0 <= i < |es| ==> es[i] == Entry(items[i], from + i)
  {
    if items == [] then [] else [Entry(items[0], from)] + Indexed(items[1..], from + 1)
  }

  function ItemsOf(es: seq<Entry>): (items: seq<Item>)
    ensures |items| == |es| && forall i :: 0 <= i < |es| ==> items[i] == es[i].item
  {
    if es == [] then [] else [es[0].item] + ItemsOf(es[1..])
  }

  function SortItems(items: seq<Item>, sort: Option<string>, locale: Locale): seq<Item> {
    if sort.None? then items else ItemsOf(SortEntries(Indexed(items, 0), sort.value, locale))
  }

  /** The whole list that is paged: everything that matches, in order. */
  function Selection(items: seq<Item>, q: Query, locale: Locale): seq<Item> {
    SortItems(Filter(items, q, locale), q.sort, locale)
  }

  // ---- the order ----

  /** What `localeCompare` promises: a total preorder. */
  ghost predicate IsCollation(compare: (string, string) -> int) {
    && (forall a, b :: compare(a, b) > 0 <==> compare(b, a) < 0)
    && (forall a, b, c :: compare(a, b) <= 0 && compare(b, c) <= 0 ==> compare(a, c) <= 0)
  }

  lemma {:induction false} ValuesAreOrdered(a: Option<Value>, b: Option<Value>, c: Option<Value>, locale: Locale)
    requires IsCollation(locale.compare)
    ensures CompareValues(a, b, locale) > 0 <==> CompareValues(b, a, locale) < 0
    ensures CompareValues(a, b, locale) <= 0 && CompareValues(b, c, locale) <= 0 ==> CompareValues(a, c, locale) <= 0
  {
    hide Comparable;
  }

  lemma {:induction false} EntriesAreOrdered(a: Entry, b: Entry, c: Entry, sort: string, locale: Locale)
    requires IsCollation(locale.compare)
    ensures CompareEntries(a, b, sort, locale) > 0 <==> CompareEntries(b, a, sort, locale) < 0
    ensures CompareEntries(a, b, sort, locale) < 0 && CompareEntries(b, c, sort, locale) < 0 ==> CompareEntries(a, c, sort, locale) < 0
  {
    var field := SortField(sort);
    var x, y, z := Field(a.item, field), Field(b.item, field), Field(c.item, field);
    ValuesAreOrdered(x, y, z, locale);
    ValuesAreOrdered(y, z, x, locale);
    ValuesAreOrdered(z, x, y, locale);
    ValuesAreOrdered(z, y, x, locale);
    ValuesAreOrdered(y, x, z, locale);
    ValuesAreOrdered(x, z, y, locale);
    hide CompareValues, Field, IsCollation;
  }

  /** Strictly increasing: by the field, and by position in the filtered list where the field ties. */
  ghost predicate IsSorted(es: seq<Entry>, sort: string, locale: Locale) {
    forall i, j :: 0 <= i < j < |es| ==> CompareEntries(es[i], es[j], sort, locale) < 0
  }

  ghost predicate DistinctIndices(es: seq<Entry>) {
    forall i, j :: 0 <= i < j < |es| ==> es[i].index != es[j].index
  }

  lemma {:induction false} ItemsOfCons(e: Entry, es: seq<Entry>)
    ensures ItemsOf([e] + es) == [e.item] + ItemsOf(es)
    ensures multiset([e] + es) == multiset{e} + multiset(es)
    ensures multiset(ItemsOf([e] + es)) == multiset{e.item} + multiset(ItemsOf(es))
  {
    assert ([e] + es)[1..] == es;
    hide ItemsOf;
  }

  /** Insertion puts the new entry between two parts of the list. */
  lemma {:induction false} InsertionPoint(e: Entry, es: seq<Entry>, sort: string, locale: Locale) returns (k: nat)
    ensures k <= |es| && Insert(e, es, sort, locale) == es[..k] + ([e] + es[k..])
  {
    hide CompareEntries;
    k := 0;
    if es != [] && CompareEntries(e, es[0], sort, locale) >= 0 {
      var rest := InsertionPoint(e, es[1..], sort, locale);
      k := rest + 1;
      assert es[..k] == [es[0]] + es[1..][..rest] && es[k..] == es[1..][rest..];
    } else {
      assert es[..0] == [] && es[0..] == es;
    }
  }

  lemma {:induction false} ItemsOfConcat(a: seq<Entry>, b: seq<Entry>)
    ensures ItemsOf(a + b) == ItemsOf(a) + ItemsOf(b)
    ensures multiset(a + b) == multiset(a) + multiset(b)
    ensures multiset(ItemsOf(a + b)) == multiset(ItemsOf(a)) + multiset(ItemsOf(b))
  {
    var all := ItemsOf(a + b);
    assert forall i :: 0 <= i < |all| ==> all[i] == (ItemsOf(a) + ItemsOf(b))[i];
    hide ItemsOf;
  }

  lemma {:induction false} InsertKeepsElements(e: Entry, es: seq<Entry>, sort: string, locale: Locale)
    ensures multiset(Insert(e, es, sort, locale)) == multiset{e} + multiset(es)
    ensures multiset(ItemsOf(Insert(e, es, sort, locale))) == multiset{e.item} + multiset(ItemsOf(es))
  {
    hide CompareEntries, ItemsOf, Insert;
    var k := InsertionPoint(e, es, sort, locale);
    var before, after := es[..k], es[k..];
    assert es == before + after;
    ItemsOfConcat(before, after);
    ItemsOfConcat(before, [e] + after);
    ItemsOfCons(e, after);
  }

  lemma {:induction false} MembersOfInsert(e: Entry, es: seq<Entry>, sort: string, locale: Locale)
    ensures forall x :: x in Insert(e, es, sort, locale) <==> x == e || x in es
  {
    hide CompareEntries;
    if es != [] {
      MembersOfInsert(e, es[1..], sort, locale);
    }
  }

  lemma {:induction false} InsertKeepsSorted(e: Entry, es: seq<Entry>, sort: string, locale: Locale)
    requires IsCollation(locale.compare) && IsSorted(es, sort, locale)
    requires forall x :: x in es ==> x.index != e.index
    ensures IsSorted(Insert(e, es, sort, locale), sort, locale)
  {
    hide CompareValues, IsCollation;
    if es != [] {
      EntriesAreOrdered(e, es[0], es[0], sort, locale);
      if CompareEntries(e, es[0], sort, locale) < 0 {
        forall j | 0 <= j < |es| ensures CompareEntries(e, es[j], sort, locale) < 0 {
          EntriesAreOrdered(e, es[0], es[j], sort, locale);
        }
      } else {
        EntriesDiffer(e, es[0], sort, locale);
        InsertKeepsSorted(e, es[1..], sort, locale);
        MembersOfInsert(e, es[1..], sort, locale);
        HeadFirst(es[0], Insert(e, es[1..], sort, locale), sort, locale);
      }
    }
  }

  lemma {:induction false} EntriesDiffer(a: Entry, b: Entry, sort: string, locale: Locale)
    requires a.index != b.index
    ensures CompareEntries(a, b, sort, locale) != 0
  {
  }

  lemma {:induction false} HeadFirst(head: Entry, tail: seq<Entry>, sort: string, locale: Locale)
    requires IsSorted(tail, sort, locale)
    requires forall x :: x in tail ==> CompareEntries(head, x, sort, locale) < 0
    ensures IsSorted([head] + tail, sort, locale)
  {
    hide CompareEntries;
  }

  lemma {:induction false} SortKeepsElements(es: seq<Entry>, sort: string, locale: Locale)
    ensures multiset(SortEntries(es, sort, locale)) == multiset(es)
    ensures multiset(ItemsOf(SortEntries(es, sort, locale))) == multiset(ItemsOf(es))
  {
    hide Insert, ItemsOf;
    if es != [] {
      SortKeepsElements(es[1..], sort, locale);
      InsertKeepsElements(es[0], SortEntries(es[1..], sort, locale), sort, locale);
      assert es == [es[0]] + es[1..];
      ItemsOfCons(es[0], es[1..]);
    }
  }

  lemma {:induction false} SortSorts(es: seq<Entry>, sort: string, locale: Locale)
    requires IsCollation(locale.compare) && DistinctIndices(es)
    ensures IsSorted(SortEntries(es, sort, locale), sort, locale)
  {
    hide IsCollation, Insert, CompareEntries;
    if es != [] {
      SortSorts(es[1..], sort, locale);
      SortKeepsElements(es[1..], sort, locale);
      var sorted := SortEntries(es[1..], sort, locale);
      forall x | x in sorted ensures x.index != es[0].index {
        assert x in multiset(sorted);
        assert x in es[1..];
      }
      InsertKeepsSorted(es[0], sorted, sort, locale);
    }
  }

  lemma {:induction false} SameHead(a: seq<Entry>, b: seq<Entry>, sort: string, locale: Locale)
    requires IsCollation(locale.compare) && a != [] && b != []
    requires IsSorted(a, sort, locale) && IsSorted(b, sort, locale) && multiset(a) == multiset(b)
    ensures a[0] == b[0]
  {
    hide CompareEntries, IsCollation;
    assert a[0] in multiset(b) && b[0] in multiset(a);
    var i :| 0 <= i < |b| && b[i] == a[0];
    var j :| 0 <= j < |a| && a[j] == b[0];
    EntriesAreOrdered(a[0], b[0], a[0], sort, locale);
    assert i == 0 || j == 0;
  }

  lemma {:induction false} SortedTail(es: seq<Entry>, sort: string, locale: Locale)
    requires es != [] && IsSorted(es, sort, locale)
    ensures IsSorted(es[1..], sort, locale)
  {
    hide CompareEntries;
  }

  lemma {:induction false} SameSize(a: seq<Entry>, b: seq<Entry>)
    requires multiset(a) == multiset(b)
    ensures |a| == |b|
  {
    assert |a| == |multiset(a)| == |multiset(b)| == |b|;
  }

  /** Two sorted arrangements of the same entries are the same list. */
  lemma {:induction false} OnlyOneSorting(a: seq<Entry>, b: seq<Entry>, sort: string, locale: Locale)
    requires IsCollation(locale.compare)
    requires IsSorted(a, sort, locale) && IsSorted(b, sort, locale) && multiset(a) == multiset(b)
    ensures a == b
  {
    hide IsSorted, IsCollation;
    SameSize(a, b);
    if a != [] {
      SameHead(a, b, sort, locale);
      SortedTail(a, sort, locale);
      SortedTail(b, sort, locale);
      TailElements(a);
      TailElements(b);
      OnlyOneSorting(a[1..], b[1..], sort, locale);
      assert a == [a[0]] + a[1..] && b == [b[0]] + b[1..];
    }
  }

  lemma {:induction false} TailElements(es: seq<Entry>)
    requires es != []
    ensures multiset(es[1..]) == multiset(es) - multiset{es[0]}
  {
    assert es == [es[0]] + es[1..];
  }

  /** The selection is the filtered list rearranged: nothing lost, nothing added, nothing twice. */
  lemma {:induction false} SelectionKeepsMatches(items: seq<Item>, q: Query, locale: Locale)
    requires IsCollation(locale.compare)
    ensures multiset(Selection(items, q, locale)) == multiset(Filter(items, q, locale))
    ensures |Selection(items, q, locale)| == |Filter(items, q, locale)|
  {
    hide Filter, SortEntries;
    var filtered := Filter(items, q, locale);
    if q.sort.Some? {
      SortKeepsElements(Indexed(filtered, 0), q.sort.value, locale);
      assert ItemsOf(Indexed(filtered, 0)) == filtered;
    }
    assert |Selection(items, q, locale)| == |multiset(Selection(items, q, locale))|;
  }

  /** Stability: two neighbours or non-neighbours that tie keep the order of the filtered list. */
  lemma {:induction false} SelectionIsSortedAndStable(items: seq<Item>, q: Query,
          locale: Locale) returns (es: seq<Entry>)
    requires IsCollation(locale.compare) && q.sort.Some?
    ensures Selection(items, q, locale) == ItemsOf(es)
    ensures IsSorted(es, q.sort.value, locale)
    ensures multiset(es) == multiset(Indexed(Filter(items, q, locale), 0))
  {
    hide Filter, SortEntries, IsSorted, IsCollation, ItemsOf;
    es := SortEntries(Indexed(Filter(items, q, locale), 0), q.sort.value, locale);
    SortSorts(Indexed(Filter(items, q, locale), 0), q.sort.value, locale);
    SortKeepsElements(Indexed(Filter(items, q, locale), 0), q.sort.value, locale);
  }

  /** A sort field that no item can be compared by leaves the filtered list as it is. */
  lemma {:induction false} UnknownFieldKeepsOrder(items: seq<Item>, q: Query, locale: Locale)
    requires IsCollation(locale.compare) && q.sort.Some?
    requires forall item :: item in Filter(items, q, locale) ==> Comparable(Field(item, SortField(q.sort.value))).None?
    ensures Selection(items, q, locale) == Filter(items, q, locale)
  {
    hide Filter, IsCollation, SortEntries, IsSorted;
    var filtered := Filter(items, q, locale);
    var es, sort := Indexed(filtered, 0), q.sort.value;
    assert forall i :: 0 <= i < |es| ==> es[i].item in filtered;
    TiesKeepOrder(es, sort, locale);
    SortSorts(es, sort, locale);
    SortKeepsElements(es, sort, locale);
    OnlyOneSorting(SortEntries(es, sort, locale), es, sort, locale);
    assert ItemsOf(es) == filtered;
  }

  lemma {:induction false} TiesKeepOrder(es: seq<Entry>, sort: string, locale: Locale)
    requires forall i :: 0 <= i < |es| ==> Comparable(Field(es[i].item, SortField(sort))).None?
    requires forall i, j :: 0 <= i < j < |es| ==> es[i].index < es[j].index
    ensures IsSorted(es, sort, locale)
  {
    hide Comparable, Field, SortField;
  }

  // ---- pages ----

  datatype Page = Page(items: seq<Item>, nextCursor: Option<string>, previousCursor: Option<string>, hasMore: bool)

  function PageOf(selection: seq<Item>, options: Options, digest: Digest): Page {
    var start := Min(options.cursorOffset, |selection|);
    var end := Min(start + options.query.limit, |selection|);
    Page(selection[start..end],
         if end < |selection| then Some(EncodeCursor(end, options.cursorContext, digest)) else None,
         if start > 0 then Some(EncodeCursor(Max(0, start - options.query.limit), options.cursorContext, digest)) else None,
         end < |selection|)
  }

  /** A request for the collection, with the cursor appended to its parameters when there is one. */
  function Fetch(items: seq<Item>, queryName: string, params: Parameters, cursor: Option<string>, locale: Locale,
          digest: Digest)
    : Result<Page, Failure>
  {
    match Normalized(queryName, if cursor.Some? then params + [("cursor", cursor.value)] else params, digest)
    case Err(failure) => Err(failure)
    case Ok(options) => Ok(PageOf(Selection(items, options.query, locale), options, digest))
  }

  /** The parameters are accepted and carry no cursor of their own. */
  ghost predicate IsFreshRequest(queryName: string, params: Parameters) {
    && !Contains(queryName, '|')
    && FirstFailure(queryName, params).None? && LastValue(params, "cursor").None?
  }

  /** The page that begins at `offset` of the selection. */
  function PageAt(selection: seq<Item>, q: Query, offset: nat, digest: Digest): Page {
    PageOf(selection, Options(q, offset, CursorContext(q), None), digest)
  }

  /** The offset that a cursor carries is the one that the next request starts from. */
  lemma {:induction false} FetchAtOffset(items: seq<Item>, queryName: string, params: Parameters, offset: nat,
          locale: Locale, digest: Digest)
    requires IsFreshRequest(queryName, params) && IsHexDigest(digest) && offset <= MAX_SAFE_INTEGER
    ensures var q := QueryOf(queryName, params);
            && Fetch(items, queryName, params, Some(EncodeCursor(offset, CursorContext(q), digest)), locale, digest)
               == Ok(PageAt(Selection(items, q, locale), q, offset, digest))
            && Fetch(items, queryName, params, None, locale, digest) == Ok(PageAt(Selection(items, q, locale), q, 0, digest))
  {
    hide FirstFailure, LastValue, QueryOf, CursorContext, EncodeCursor, DecodeCursor, Selection;
    RepeatedRequestTakesCursor(queryName, params, offset, digest);
  }

  /** `next` is what fetching by the next cursor of `page` gives. */
  predicate LeadsTo(page: Page, next: Page, items: seq<Item>, queryName: string, params: Parameters, locale: Locale,
          digest: Digest) {
    page.nextCursor.Some? && Fetch(items, queryName, params, page.nextCursor, locale, digest) == Ok(next)
  }

  ghost predicate IsChain(pages: seq<Page>, items: seq<Item>, queryName: string, params: Parameters, locale: Locale,
          digest: Digest) {
    forall i, j :: 0 <= i && j == i + 1 < |pages| ==> LeadsTo(pages[i], pages[j], items, queryName, params, locale, digest)
  }

  lemma {:induction false} LongerChain(pages: seq<Page>, next: Page, items: seq<Item>, queryName: string,
          params: Parameters, locale: Locale, digest: Digest)
    requires pages != [] && IsChain(pages, items, queryName, params, locale, digest)
    requires LeadsTo(pages[|pages| - 1], next, items, queryName, params, locale, digest)
    ensures IsChain(pages + [next], items, queryName, params, locale, digest)
  {
    hide LeadsTo;
  }

  /** Pages fetched one after the other, each by the next cursor of the one before, until there is none. */
  ghost predicate IsWalk(pages: seq<Page>, items: seq<Item>, queryName: string, params: Parameters, locale: Locale,
          digest: Digest) {
    && pages != []
    && Fetch(items, queryName, params, None, locale, digest) == Ok(pages[0])
    && IsChain(pages, items, queryName, params, locale, digest)
    && pages[|pages| - 1].nextCursor.None?
  }

  function Concatenation(pages: seq<Page>): seq<Item> {
    if pages == [] then [] else Concatenation(pages[..|pages| - 1]) + pages[|pages| - 1].items
  }

  /** One page takes the selection from one offset to the next, and ends it when it has no next cursor. */
  lemma {:induction false} PageAdvances(selection: seq<Item>, q: Query, offset: nat, digest: Digest)
    requires q.limit > 0
    ensures var page, n := PageAt(selection, q, offset, digest), |selection|;
            && (page.nextCursor.Some? <==> page.hasMore) && (page.hasMore <==> offset + q.limit < n)
            && (page.hasMore ==> page.nextCursor == Some(EncodeCursor(offset + q.limit, CursorContext(q), digest)))
            && selection[..Min(offset, n)] + page.items == selection[..Min(offset + q.limit, n)]
  {
    hide EncodeCursor, CursorContext;
  }

  lemma {:induction false} NextFetch(items: seq<Item>, queryName: string, params: Parameters, offset: nat,
          locale: Locale, digest: Digest)
    requires IsFreshRequest(queryName, params) && IsHexDigest(digest) && |items| <= MAX_SAFE_INTEGER && IsCollation(locale.compare)
    requires PageAt(Selection(items, QueryOf(queryName, params), locale), QueryOf(queryName, params), offset, digest).nextCursor.Some?
    ensures var q := QueryOf(queryName, params);
            var selection := Selection(items, q, locale);
            && offset + q.limit < |selection|
            && Fetch(items, queryName, params, PageAt(selection, q, offset, digest).nextCursor, locale, digest)
               == Ok(PageAt(selection, q, offset + q.limit, digest))
  {
    hide FirstFailure, LastValue, QueryOf, CursorContext, EncodeCursor, Selection, Fetch, Contains, IsCollation, PageAt, IsHexDigest;
    var q := QueryOf(queryName, params);
    AcceptedLimit(queryName, params);
    SelectionKeepsMatches(items, q, locale);
    hide IsFreshRequest, Filter;
    PageAdvances(Selection(items, q, locale), q, offset, digest);
    FetchAtOffset(items, queryName, params, offset + q.limit, locale, digest);
  }

  /** The pages of a walk begin at offset 0, then at the limit, at twice the limit and so on. */
  lemma {:induction false} WalkStep(pages: seq<Page>, items: seq<Item>, queryName: string, params: Parameters,
          locale: Locale, digest: Digest, i: nat) returns (offset: nat)
    requires IsFreshRequest(queryName, params) && IsHexDigest(digest) && |items| <= MAX_SAFE_INTEGER && IsCollation(locale.compare)
    requires IsWalk(pages, items, queryName, params, locale, digest) && i < |pages|
    ensures var q := QueryOf(queryName, params);
            var selection := Selection(items, q, locale);
            && offset == i * q.limit && (i > 0 ==> offset < |selection|)
            && pages[i] == PageAt(selection, q, offset, digest)
            && Concatenation(pages[..i]) == selection[..Min(offset, |selection|)]
  {
    hide FirstFailure, LastValue, QueryOf, Selection, Fetch, Contains, IsCollation, PageAt, LeadsTo, IsHexDigest;
    var q := QueryOf(queryName, params);
    offset := 0;
    if i == 0 {
      FetchAtOffset(items, queryName, params, 0, locale, digest);
    } else {
      var before := i - 1;
      var earlier := WalkStep(pages, items, queryName, params, locale, digest, before);
      offset := earlier + q.limit;
      assert LeadsTo(pages[before], pages[i], items, queryName, params, locale, digest);
      assert pages[..i][..before] == pages[..before] && pages[..i][before] == pages[before];
      hide IsWalk, IsFreshRequest;
      LedToNextPage(items, queryName, params, locale, digest, earlier, pages[i]);
      assert Concatenation(pages[..i]) == Concatenation(pages[..before]) + pages[before].items;
    }
  }

  lemma {:induction false} LedToNextPage(items: seq<Item>, queryName: string, params: Parameters, locale: Locale,
          digest: Digest, offset: nat, next: Page)
    requires IsFreshRequest(queryName, params) && IsHexDigest(digest) && |items| <= MAX_SAFE_INTEGER && IsCollation(locale.compare)
    requires LeadsTo(PageAt(Selection(items, QueryOf(queryName, params), locale), QueryOf(queryName, params), offset, digest), next,
                     items, queryName, params, locale, digest)
    ensures var q := QueryOf(queryName, params);
            var selection := Selection(items, q, locale);
            && next == PageAt(selection, q, offset + q.limit, digest) && offset + q.limit < |selection|
            && selection[..Min(offset, |selection|)] + PageAt(selection, q, offset, digest).items
               == selection[..Min(offset + q.limit, |selection|)]
  {
    hide FirstFailure, LastValue, QueryOf, Selection, Fetch, Contains, IsCollation, PageAt, IsHexDigest;
    NextFetch(items, queryName, params, offset, locale, digest);
    AcceptedLimit(queryName, params);
    hide IsFreshRequest;
    PageAdvances(Selection(items, QueryOf(queryName, params), locale), QueryOf(queryName, params), offset, digest);
  }

  lemma {:induction false} AcceptedLimit(queryName: string, params: Parameters)
    requires IsFreshRequest(queryName, params)
    ensures 1 <= QueryOf(queryName, params).limit <= MAX_LIMIT
  {
    hide FirstFailure, LastValue, QueryOf, Contains, IsValidated;
    AcceptedIsValidated(queryName, params);
  }

  /**
   * Following the next cursor from the first page delivers the selection: every matching item once,
   * in order, in as many pages as the limit needs, and one empty page when nothing matches.
   */
  lemma {:induction false} WalkDeliversSelection(pages: seq<Page>, items: seq<Item>, queryName: string,
          params: Parameters, locale: Locale, digest: Digest)
    requires IsFreshRequest(queryName, params) && IsHexDigest(digest) && |items| <= MAX_SAFE_INTEGER && IsCollation(locale.compare)
    requires IsWalk(pages, items, queryName, params, locale, digest)
    ensures var q := QueryOf(queryName, params);
            && Concatenation(pages) == Selection(items, q, locale)
            && multiset(Concatenation(pages)) == multiset(Filter(items, q, locale))
            && var n := |Filter(items, q, locale)|;
               if n == 0 then |pages| == 1 else (|pages| - 1) * q.limit < n <= |pages| * q.limit
  {
    hide FirstFailure, LastValue, QueryOf, Selection, Fetch, Contains, IsCollation, PageAt, Filter;
    var q, last := QueryOf(queryName, params), |pages| - 1;
    var selection := Selection(items, q, locale);
    AcceptedLimit(queryName, params);
    var offset := WalkStep(pages, items, queryName, params, locale, digest, last);
    SelectionKeepsMatches(items, q, locale);
    PageAdvances(selection, q, offset, digest);
    assert selection[..|selection|] == selection;
    assert |pages| * q.limit == offset + q.limit;
    assert last == 0 || offset > 0 by {
      if last > 0 { Product(last, q.limit); }
    }
  }

  lemma {:induction false} Product(a: nat, b: nat)
    requires a > 0 && b > 0
    ensures a * b > 0
  {
  }

  /** Such a walk exists, so the pages never lead in a circle. */
  lemma {:induction false} WalkExists(items: seq<Item>, queryName: string, params: Parameters, locale: Locale,
          digest: Digest)
    returns (pages: seq<Page>)
    requires IsFreshRequest(queryName, params) && IsHexDigest(digest) && |items| <= MAX_SAFE_INTEGER && IsCollation(locale.compare)
    ensures IsWalk(pages, items, queryName, params, locale, digest)
  {
    hide FirstFailure, LastValue, QueryOf, Selection, Fetch, Contains, IsCollation, PageAt;
    var q, offset := QueryOf(queryName, params), 0;
    var selection := Selection(items, q, locale);
    FetchAtOffset(items, queryName, params, 0, locale, digest);
    AcceptedLimit(queryName, params);
    pages := [PageAt(selection, q, 0, digest)];
    while pages[|pages| - 1].nextCursor.Some?
      invariant pages != [] && Fetch(items, queryName, params, None, locale, digest) == Ok(pages[0])
      invariant pages[|pages| - 1] == PageAt(selection, q, offset, digest)
      invariant IsChain(pages, items, queryName, params, locale, digest)
      decreases |selection| - offset
    {
      NextFetch(items, queryName, params, offset, locale, digest);
      offset := offset + q.limit;
      LongerChain(pages, PageAt(selection, q, offset, digest), items, queryName, params, locale, digest);
      pages := pages + [PageAt(selection, q, offset, digest)];
    }
  }

  /**
   * The previous page of a page leads on to that page again exactly when at least a limit of items
   * comes before it and at least one item is on it.
   */
  lemma {:induction false} PreviousThenNextIff(items: seq<Item>, queryName: string, params: Parameters, offset: nat,
          locale: Locale, digest: Digest)
    requires IsFreshRequest(queryName, params) && IsHexDigest(digest) && |items| <= MAX_SAFE_INTEGER && IsCollation(locale.compare)
    requires PageAt(Selection(items, QueryOf(queryName, params), locale), QueryOf(queryName, params), offset, digest).previousCursor.Some?
    ensures var q := QueryOf(queryName, params);
            var selection := Selection(items, q, locale);
            var page := PageAt(selection, q, offset, digest);
            var back := Fetch(items, queryName, params, page.previousCursor, locale, digest);
            && back.Ok?
            && (back.value.nextCursor.Some? && Fetch(items, queryName, params, back.value.nextCursor, locale, digest) == Ok(page)
                <==> q.limit <= offset < |selection|)
  {
    var q := QueryOf(queryName, params);
    var selection := Selection(items, q, locale);
    AcceptedLimit(queryName, params);
    SelectionKeepsMatches(items, q, locale);
    assert |selection| <= |items|;
    hide FirstFailure, LastValue, QueryOf, Selection, Fetch, Contains, IsCollation, EncodeCursor, CursorContext, PageAt, IsHexDigest;
    PreviousCursorOf(selection, q, offset, digest);
    var from := Max(0, Min(offset, |selection|) - q.limit);
    FetchAtOffset(items, queryName, params, from, locale, digest);
    PageAdvances(selection, q, from, digest);
    if from + q.limit < |selection| {
      FetchAtOffset(items, queryName, params, from + q.limit, locale, digest);
      PagesDiffer(selection, q, from + q.limit, offset, digest);
    }
  }

  lemma {:induction false} PreviousCursorOf(selection: seq<Item>, q: Query, offset: nat, digest: Digest)
    ensures var start := Min(offset, |selection|);
            PageAt(selection, q, offset, digest).previousCursor
            == if start > 0 then Some(EncodeCursor(Max(0, start - q.limit), CursorContext(q), digest)) else None
  {
    hide EncodeCursor, CursorContext;
  }

  /** Two pages that begin at different places inside the selection are different pages. */
  lemma {:induction false} PagesDiffer(selection: seq<Item>, q: Query, a: nat, b: nat, digest: Digest)
    requires IsHexDigest(digest) && |selection| <= MAX_SAFE_INTEGER && a < |selection| && q.limit > 0
    ensures PageAt(selection, q, a, digest) == PageAt(selection, q, b, digest) <==> a == b
  {
    var n, context := |selection|, CursorContext(q);
    var endA, endB := Min(Min(a, n) + q.limit, n), Min(Min(b, n) + q.limit, n);
    DecodeOfEncode(endA, context, context, digest);
    DecodeOfEncode(endB, context, context, digest);
    var x, y := PageAt(selection, q, a, digest), PageAt(selection, q, b, digest);
    assert |x.items| == endA - Min(a, n) && |y.items| == endB - Min(b, n);
    assert x.nextCursor == if endA < n then Some(EncodeCursor(endA, context, digest)) else None;
    assert y.nextCursor == if endB < n then Some(EncodeCursor(endB, context, digest)) else None;
    hide PageAt, EncodeCursor, DecodeCursor, CursorContext;
  }

  const PLAIN_DIGEST: Digest := text => "0123456789abcdef"
  const PLAIN_LOCALE := Locale(s => s, (a, b) => |a| - |b|)
  const THREE_ITEMS: seq<Item> := [map[], map[], map[]]

  /** A request without parameters, a digest and a collation that are all that is asked of them above. */
  lemma {:induction false} PlainRequest()
    ensures IsFreshRequest("ListEvents", [])
    ensures IsHexDigest(PLAIN_DIGEST) && IsCollation(PLAIN_LOCALE.compare)
  {
  }

  lemma {:induction false} ThreeMatches(q: Query)
    requires q.filters == map[] && q.search.None? && q.sort.None?
    ensures Selection(THREE_ITEMS, q, PLAIN_LOCALE) == THREE_ITEMS
  {
    hide ValueMatches, Comparable;
    assert Filter([], q, PLAIN_LOCALE) == [];
    assert Filter([map[]], q, PLAIN_LOCALE) == [map[]];
    assert Filter([map[], map[]], q, PLAIN_LOCALE) == [map[], map[]];
  }

  /** Of three items, the page at offset 1 has a previous page, and that page has no next one. */
  lemma {:induction false} PreviousCanMiss()
    ensures var q := QueryOf("ListEvents", []);
            var page := PageAt(Selection(THREE_ITEMS, q, PLAIN_LOCALE), q, 1, PLAIN_DIGEST);
            var back := Fetch(THREE_ITEMS, "ListEvents", [], page.previousCursor, PLAIN_LOCALE, PLAIN_DIGEST);
            page.previousCursor.Some? && back.Ok? && back.value.nextCursor.None?
  {
    PlainRequest();
    NoParameters("ListEvents");
    var q := QueryOf("ListEvents", []);
    ThreeMatches(q);
    hide FirstFailure, LastValue, QueryOf, Selection, Fetch, IsFreshRequest, IsHexDigest, IsCollation, PageAt, EncodeCursor, CursorContext;
    PreviousCursorOf(THREE_ITEMS, q, 1, PLAIN_DIGEST);
    FetchAtOffset(THREE_ITEMS, "ListEvents", [], 0, PLAIN_LOCALE, PLAIN_DIGEST);
    PageAdvances(THREE_ITEMS, q, 0, PLAIN_DIGEST);
  }
}
