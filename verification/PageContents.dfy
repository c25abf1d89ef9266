/** Which items the pages of a collection hold, in which order, and where its cursors lead. */
module PageContents {
  import opened Collections
  import opened Text
  import opened QueryCursor
  import opened Pages

  // ---- which items match ----

  /** The field holds this text: a string, the text of a number, or the name of a truth value. */
  predicate HasText(item: Item, field: string, text: string) {
    && field in item
    && (|| item[field] == Str(text) || item[field] == Number(text)
        || (item[field] == Flag(true) && text == "true") || (item[field] == Flag(false) && text == "false"))
  }

  predicate IsAt(part: string, s: string, i: nat) {
    i + |part| <= |s| && s[i..i + |part|] == part
  }

  ghost predicate Occurs(part: string, s: string) {
    exists i: nat :: IsAt(part, s, i)
  }

  /** The search looks at this text: a string, or an element of a list of strings. */
  predicate IsSearched(value: Value, text: string) {
    value == Str(text) || (value.StrArray? && text in value.values)
  }

  /** Every filter is the text of its field, and the search text is in some text, whatever its case. */
  ghost predicate IsAskedFor(item: Item, q: Query, locale: Locale) {
    && (forall field :: field in q.filters ==> HasText(item, field, q.filters[field]))
    && (q.search.Some? ==>
          exists field, text :: field in item && IsSearched(item[field], text) && Occurs(locale.lower(q.search.value), locale.lower(text)))
  }

  lemma {:induction false} IncludesIff(s: string, part: string)
    ensures Includes(s, part) <==> Occurs(part, s)
  {
    if part <= s {
      assert IsAt(part, s, 0);
    } else if s != "" {
      IncludesIff(s[1..], part);
      if Occurs(part, s[1..]) {
        var i: nat :| IsAt(part, s[1..], i);
        assert IsAt(part, s, i + 1);
      }
      if Occurs(part, s) {
        var i: nat :| IsAt(part, s, i);
        assert IsAt(part, s[1..], i - 1);
      }
    } else {
      assert forall i: nat :: !IsAt(part, s, i);
    }
  }

  lemma {:induction false} FilterTextIff(item: Item, field: string, text: string)
    ensures Comparable(Field(item, field)) == Some(text) <==> HasText(item, field, text)
  {
  }

  lemma {:induction false} ValueMatchesIff(value: Value, expected: string, locale: Locale)
    ensures ValueMatches(value, expected, locale) <==> exists text :: IsSearched(value, text) && Occurs(expected, locale.lower(text))
  {
    hide Includes, Occurs;
    match value
    case Str(s) =>
      IncludesIff(locale.lower(s), expected);
      assert IsSearched(value, s);
    case StrArray(values) =>
      forall i | 0 <= i < |values| ensures Includes(locale.lower(values[i]), expected) <==> Occurs(expected, locale.lower(values[i])) {
        IncludesIff(locale.lower(values[i]), expected);
      }
      assert forall i :: 0 <= i < |values| ==> IsSearched(value, values[i]);
    case _ =>
  }

  lemma {:induction false} MatchesIff(item: Item, q: Query, locale: Locale)
    ensures Matches(item, q, locale) <==> IsAskedFor(item, q, locale)
  {
    hide Comparable, Field, HasText, ValueMatches, IsSearched, Occurs;
    forall field | field in q.filters
      ensures Comparable(Field(item, field)) == Some(q.filters[field]) <==> HasText(item, field, q.filters[field])
    {
      FilterTextIff(item, field, q.filters[field]);
    }
    if q.search.Some? {
      forall field | field in item
        ensures ValueMatches(item[field], locale.lower(q.search.value), locale)
                <==> exists text :: IsSearched(item[field], text) && Occurs(locale.lower(q.search.value), locale.lower(text))
      {
        ValueMatchesIff(item[field], locale.lower(q.search.value), locale);
      }
    }
  }

  /** Filtering keeps an item as often as it occurs if it is asked for, and else drops it; the rest keep their order. */
  lemma {:induction false} FilterKeepsAskedFor(items: seq<Item>, q: Query, locale: Locale) returns (places: seq<nat>)
    ensures ArePlaces(places, Filter(items, q, locale), items)
    ensures forall item ::
              multiset(Filter(items, q, locale))[item] == if IsAskedFor(item, q, locale) then multiset(items)[item] else 0
  {
    hide Matches, IsAskedFor, ArePlaces, Shifted;
    if items == [] {
      places := [];
      NoPlaces<Item>();
    } else {
      var head, rest := items[0], Filter(items[1..], q, locale);
      places := FilterKeepsAskedFor(items[1..], q, locale);
      MatchesIff(head, q, locale);
      PlacesBehindHead(places, rest, items);
      assert items == [head] + items[1..];
      places := if Matches(head, q, locale) then [0] + Shifted(places) else Shifted(places);
      assert [] + rest == rest;
    }
  }

  /**
   * Following the next cursors delivers each item as often as it occurs in the data, if every filter is the
   * text of its field and the search text is found in it, and never otherwise.
   */
  lemma {:induction false} WalkDeliversMatches(pages: seq<Page>, items: seq<Item>, queryName: string,
          params: Parameters, locale: Locale, digest: Digest, item: Item)
    requires IsFreshRequest(queryName, params) && IsHexDigest(digest) && |items| <= MAX_SAFE_INTEGER && IsCollation(locale.compare)
    requires IsWalk(pages, items, queryName, params, locale, digest)
    ensures multiset(Concatenation(pages))[item]
            == if IsAskedFor(item, QueryOf(queryName, params), locale) then multiset(items)[item] else 0
  {
    hide IsFreshRequest, IsWalk, Concatenation, IsAskedFor, Filter, Selection, QueryOf, IsCollation;
    WalkDeliversSelection(pages, items, queryName, params, locale, digest);
    var places := FilterKeepsAskedFor(items, QueryOf(queryName, params), locale);
  }

  /** Without a sort the pages follow the order of the data. */
  lemma {:induction false} UnsortedKeepsOrder(items: seq<Item>, q: Query, locale: Locale) returns (places: seq<nat>)
    requires q.sort.None?
    ensures ArePlaces(places, Selection(items, q, locale), items)
  {
    hide Filter, ArePlaces, IsAskedFor;
    places := FilterKeepsAskedFor(items, q, locale);
  }

  // ---- their order ----

  /** The text of a field, if it has one. */
  ghost predicate IsTextOf(text: Option<string>, item: Item, field: string) {
    if text.Some? then HasText(item, field, text.value) else forall t :: !HasText(item, field, t)
  }

  /**
   * Which of two entries comes first: by the texts of the field, upwards, or downwards after a minus sign;
   * an entry without a text comes after those with one, or before them after a minus sign; and where that
   * does not decide, the one that comes first in the filtered list.
   */
  lemma {:induction false} ComesFirstIff(a: Entry, b: Entry, field: string, descending: bool, left: Option<string>, right: Option<string>,
          locale: Locale)
    requires field == "" || field[0] != '-'
    requires IsTextOf(left, a.item, field) && IsTextOf(right, b.item, field) && IsCollation(locale.compare)
    ensures var sort := if descending then ['-'] + field else field;
            var order := if left.Some? && right.Some? then locale.compare(left.value, right.value)
                         else if left.Some? then -1 else if right.Some? then 1 else 0;
            CompareEntries(a, b, sort, locale) < 0
            <==> if order == 0 then a.index < b.index else if descending then order > 0 else order < 0
  {
    var sort := if descending then ['-'] + field else field;
    assert SortField(sort) == field;
    TextIsComparable(left, a.item, field);
    TextIsComparable(right, b.item, field);
    hide Comparable, Field, IsTextOf, SortField, IsCollation;
  }

  lemma {:induction false} TextIsComparable(text: Option<string>, item: Item, field: string)
    requires IsTextOf(text, item, field)
    ensures Comparable(Field(item, field)) == text
  {
    hide Comparable, Field, HasText;
    if text.Some? {
      FilterTextIff(item, field, text.value);
    } else if Comparable(Field(item, field)).Some? {
      FilterTextIff(item, field, Comparable(Field(item, field)).value);
    }
  }

  // ---- one page ----

  /**
   * A page holds the items from its offset on, as many as the limit allows. There is more exactly if items
   * are left; the next cursor then leads to the first of them. The previous cursor is there exactly if items
   * come before, and leads one limit back or to the start.
   */
  lemma {:induction false} PageOutcome(selection: seq<Item>, q: Query, offset: nat, digest: Digest)
    requires IsHexDigest(digest) && |selection| <= MAX_SAFE_INTEGER && q.limit > 0
    ensures var page, n, context := PageAt(selection, q, offset, digest), |selection|, CursorContext(q);
            && |page.items| == Max(0, Min(q.limit, n - offset))
            && (forall i :: 0 <= i < |page.items| ==> page.items[i] == selection[offset + i])
            && page.hasMore == (offset + q.limit < n)
            && page.nextCursor.Some? == page.hasMore
            && (page.nextCursor.Some? ==> DecodeCursor(page.nextCursor.value, context, digest) == Some(offset + q.limit))
            && page.previousCursor.Some? == (offset > 0 && n > 0)
            && (page.previousCursor.Some? ==>
                  DecodeCursor(page.previousCursor.value, context, digest) == Some(Max(0, Min(offset, n) - q.limit)))
  {
    var context := CursorContext(q);
    hide CursorContext, EncodeCursor, DecodeCursor;
    if offset + q.limit < |selection| {
      DecodeOfEncode(offset + q.limit, context, context, digest);
    }
    DecodeOfEncode(Max(0, Min(offset, |selection|) - q.limit), context, context, digest);
  }
}
