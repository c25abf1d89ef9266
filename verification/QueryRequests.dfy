/** What a collection request is refused for, and how its parameters are read. */
module QueryRequests {
  import opened Collections
  import opened Text
  import opened QueryCursor
  import opened QueryFields

  // ---- single values ----

  const VALUE_CHARACTERS := UPPER + LOWER + DIGITS + "_.:@/ -"

  lemma {:induction false} ValueCharacters(c: char)
    ensures c in VALUE_CHARACTERS
            <==> 'A' <= c <= 'Z' || 'a' <= c <= 'z' || IsDigit(c) || c in {'_', '.', ':', '@', '/', ' ', '-'}
  {
    NameCharacters(c);
    InConcat(UPPER + LOWER + DIGITS, "_.:@/ -", c);
    hide IsDigit;
  }

  lemma {:induction false} NameCharacters(c: char)
    ensures c in UPPER + LOWER <==> 'A' <= c <= 'Z' || 'a' <= c <= 'z'
    ensures c in UPPER + LOWER + DIGITS <==> c in UPPER + LOWER || IsDigit(c)
  {
    UpperCase(c);
    LowerCase(c);
    Digits(c);
    InConcat(UPPER + LOWER, DIGITS, c);
    InConcat(UPPER, LOWER, c);
    hide IsDigit;
  }

  /** Without surrounding white space the value has at most that many of these characters, and one at least. */
  ghost predicate IsShort(value: string, maxLength: nat) {
    0 < |Trim(value)| <= maxLength && OnlyOf(Trim(value), VALUE_CHARACTERS)
  }

  lemma {:induction false} SafeValueIff(value: string, maxLength: nat)
    ensures IsSafeValue(value, maxLength) <==> IsShort(value, maxLength)
  {
    var trimmed := Trim(value);
    hide Trim;
    forall i | 0 <= i < |trimmed| ensures IsSafeChar(trimmed[i]) <==> trimmed[i] in VALUE_CHARACTERS {
      ValueCharacters(trimmed[i]);
    }
    hide IsSafeChar;
  }

  /** A numeral between any white space is read as its number if that is from 1 to the largest safe integer. */
  lemma {:induction false} LimitReads(before: string, n: nat, after: string)
    requires AllWhite(before) && AllWhite(after)
    ensures ParseLimit(before + Numeral(n) + after) == if 1 <= n <= 9007199254740991 then Some(n) else None
  {
    hide Trim, NumeralValue, Numeral, IsWhiteSpace, AllWhite;
    var numeral := Numeral(n);
    DigitIsSolid(numeral[0]);
    DigitIsSolid(numeral[|numeral| - 1]);
    TrimsToSolid(before, numeral, after);
    NumeralRoundTrip(n);
  }

  /** A limit is a run of digits between white space; anything else is no limit. */
  lemma {:induction false} LimitIsDigits(value: string)
    requires ParseLimit(value).Some?
    ensures Trim(value) != "" && OnlyOf(Trim(value), DIGITS) && ParseLimit(value) == Some(NumeralValue(Trim(value)))
  {
    var trimmed := Trim(value);
    hide Trim, NumeralValue;
    forall i | 0 <= i < |trimmed| ensures trimmed[i] in DIGITS {
      Digits(trimmed[i]);
    }
  }

  ghost predicate IsName(s: string) {
    s != "" && s[0] in UPPER + LOWER && OnlyOf(s, UPPER + LOWER + DIGITS)
  }

  lemma {:induction false} FieldNameIff(s: string)
    ensures IsFieldName(s) <==> IsName(s)
  {
    forall i | 0 <= i < |s|
      ensures IsLetter(s[i]) <==> s[i] in UPPER + LOWER
      ensures IsLetter(s[i]) || IsDigit(s[i]) <==> s[i] in UPPER + LOWER + DIGITS
    {
      NameCharacters(s[i]);
    }
    hide IsLetter, IsDigit;
  }

  /** The field of a sort value, behind a minus sign or without one. */
  ghost predicate SortsBy(sort: string, field: string) {
    (sort == field && (field == "" || field[0] != '-')) || sort == ['-'] + field
  }

  lemma {:induction false} SortOutcome(queryName: string, value: string, field: string)
    requires SortsBy(Trim(value), field)
    ensures SortFailure(queryName, value)
            == if Trim(value) == "" || |Trim(value)| > 80 then Some(InvalidSort)
               else if IsName(field) && queryName in QueriesSortedBy(field) then None
               else Some(UnsupportedSort)
  {
    hide IsFieldName, IsName, AllowedSortFields, QueriesSortedBy, Trim, SortsBy, SortField;
    FieldNameIff(field);
    SortFieldsIff(queryName, field);
    FieldBehindSign(Trim(value), field);
  }

  /** What a request is refused for on account of one parameter, if anything. */
  lemma {:induction false} ParameterOutcome(queryName: string, key: string, value: string, field: string)
    requires SortsBy(Trim(value), field)
    ensures ParameterFailure(queryName, key, value)
            == if key == "cursor" then if IsShort(value, 256) then None else Some(InvalidParameter("cursor"))
               else if key == "search" then if IsShort(value, 100) then None else Some(InvalidParameter("search"))
               else if key == "limit" then if ParseLimit(value).Some? then None else Some(InvalidLimit)
               else if key == "sort" then
                 if Trim(value) == "" || |Trim(value)| > 80 then Some(InvalidSort)
                 else if IsName(field) && queryName in QueriesSortedBy(field) then None
                 else Some(UnsupportedSort)
               else if queryName !in QueriesFilteredBy(key) then Some(UnsupportedFilter(key))
               else if IsShort(value, 120) then None else Some(InvalidParameter(key))
  {
    hide IsSafeValue, IsShort, IsName, ParseLimit, SortFailure, AllowedFilterFields, QueriesSortedBy, QueriesFilteredBy, Trim, SortsBy;
    SortOutcome(queryName, value, field);
    SafeValueIff(value, 256);
    SafeValueIff(value, 100);
    SafeValueIff(value, 120);
    FilterFieldsIff(queryName, key);
  }

  lemma {:induction false} FieldBehindSign(sort: string, field: string)
    requires SortsBy(sort, field)
    ensures SortField(sort) == field
  {
  }

  // ---- whole requests ----

  /** The parameter at `i` is the last one of its name. */
  ghost predicate IsLast(params: Parameters, i: nat, key: string, value: string) {
    i < |params| && params[i] == (key, value) && forall j :: i < j < |params| ==> params[j].0 != key
  }

  /** The value of a parameter that counts: its last one. */
  ghost predicate Counts(params: Parameters, key: string, value: string) {
    exists i: nat :: IsLast(params, i, key, value)
  }

  lemma {:induction false} LastValueIff(params: Parameters, key: string, value: string)
    ensures LastValue(params, key) == Some(value) <==> Counts(params, key, value)
  {
    if params != [] {
      var before, last := params[..|params| - 1], params[|params| - 1];
      LastValueIff(before, key, value);
      if last == (key, value) {
        assert IsLast(params, |params| - 1, key, value);
      }
      forall i: nat | i < |before| && last.0 != key ensures IsLast(before, i, key, value) <==> IsLast(params, i, key, value) {
      }
    }
  }

  lemma {:induction false} NoValue(params: Parameters, key: string)
    ensures LastValue(params, key).None? <==> forall i :: 0 <= i < |params| ==> params[i].0 != key
  {
    if params != [] {
      NoValue(params[..|params| - 1], key);
    }
  }

  /** A request is refused for its first parameter that is wrong, and for nothing else before its cursor is read. */
  lemma {:induction false} FailureIsFirst(queryName: string, params: Parameters)
    ensures match FirstFailure(queryName, params)
            case Some(failure) =>
              exists i :: 0 <= i < |params| && ParameterFailure(queryName, params[i].0, params[i].1) == Some(failure)
                && forall j :: 0 <= j < i ==> ParameterFailure(queryName, params[j].0, params[j].1).None?
            case None => forall i :: 0 <= i < |params| ==> ParameterFailure(queryName, params[i].0, params[i].1).None?
  {
    hide ParameterFailure;
    if params != [] {
      FailureIsFirst(queryName, params[..|params| - 1]);
    }
  }

  /**
   * Of an accepted request the last value of each parameter counts: the sort, the search, the limit, which is
   * 50 without one and 200 at most, and all other parameters as filters.
   */
  lemma {:induction false} AcceptedRequest(queryName: string, params: Parameters, key: string, value: string)
    requires FirstFailure(queryName, params).None?
    ensures var q := QueryOf(queryName, params);
            && q.name == queryName
            && (q.sort == Some(value) <==> Counts(params, "sort", value))
            && (q.search == Some(value) <==> Counts(params, "search", value))
            && (key in q.filters && q.filters[key] == value
                <==> key !in {"cursor", "limit", "sort", "search"} && Counts(params, key, value))
            && (Counts(params, "limit", value) ==> ParseLimit(value).Some? && q.limit == Min(ParseLimit(value).value, 200))
            && ((forall i :: 0 <= i < |params| ==> params[i].0 != "limit") ==> q.limit == 50)
  {
    hide LastValue, Counts, ParseLimit, FirstFailure, AllowedFilterFields, ParameterFailure;
    LastValueIff(params, "sort", value);
    LastValueIff(params, "search", value);
    LastValueIff(params, "limit", value);
    LastValueIff(params, key, value);
    NoValue(params, "limit");
    ReservedNamesAreNoFilters(queryName);
    if Counts(params, "limit", value) {
      NoFailureMeansEachValid(queryName, params, "limit");
      LimitIsRead(queryName, value);
    }
    if LastValue(params, key) == Some(value) && key !in {"cursor", "limit", "sort", "search"} {
      NoFailureMeansEachValid(queryName, params, key);
      FilterIsAllowed(queryName, key, value);
    }
  }

  lemma {:induction false} LimitIsRead(queryName: string, value: string)
    requires ParameterFailure(queryName, "limit", value).None?
    ensures ParseLimit(value).Some?
  {
    hide AllowedFilterFields, IsSafeValue, SortFailure, ParseLimit;
  }

  lemma {:induction false} FilterIsAllowed(queryName: string, key: string, value: string)
    requires ParameterFailure(queryName, key, value).None? && key !in {"cursor", "limit", "sort", "search"}
    ensures key in AllowedFilterFields(queryName)
  {
    hide AllowedFilterFields, IsSafeValue, SortFailure, ParseLimit;
  }
}
