/** The SQL replay of the event log (serial histories), compared with the index-and-slice replay. */
module SqlEventLog {
  import opened Collections
  import opened Text
  import opened EventLog

  /** A row of the event table; the cursor of its event is computed from the sequence number. */
  datatype Row = Row(sequence: nat, event: EventRecord)

  const SQL_PAGE_LIMIT := 1000

  /** The largest `bigint`; a parameter above it makes the statement fail. */
  const MAX_BIGINT: nat := 0x7FFF_FFFF_FFFF_FFFF

  // ---- BigInt(text) ----

  function HexDigit(c: char): Option<nat> {
    if IsDigit(c) then Some(DigitValue(c))
    else if 'a' <= c <= 'f' then Some(c as int - 'a' as int + 10)
    else if 'A' <= c <= 'F' then Some(c as int - 'A' as int + 10)
    else None
  }

  function RadixValue(s: string, radix: nat): Option<nat> {
    if s == "" then Some(0)
    else match (RadixValue(s[..|s| - 1], radix), HexDigit(s[|s| - 1]))
      case (Some(high), Some(low)) => if low < radix then Some(high * radix + low) else None
      case _ => None
  }

  /** `BigInt(text)`, with `None` for the SyntaxError. */
  function BigIntOf(text: string): Option<int> {
    var t := Trim(text);
    if t == "" then Some(0)
    else if |t| > 2 && t[0] == '0' && t[1] in {'x', 'X'} then RadixValue(t[2..], 16)
    else if |t| > 2 && t[0] == '0' && t[1] in {'o', 'O'} then RadixValue(t[2..], 8)
    else if |t| > 2 && t[0] == '0' && t[1] in {'b', 'B'} then RadixValue(t[2..], 2)
    else
      var digits := if t[0] in {'+', '-'} then t[1..] else t;
      if digits == "" || !AllDigits(digits) then None
      else
        var value: int := NumeralValue(digits);
        Some(if t[0] == '-' then -value else value)
  }

  /** Decimal digits, with a sign or none, are read between any white space. */
  lemma {:induction false} BigIntReads(before: string, sign: string, digits: string, after: string)
    requires AllWhite(before) && AllWhite(after) && sign in {"", "+", "-"} && digits != "" && AllDigits(digits)
    ensures var value: int := NumeralValue(digits);
            BigIntOf(before + (sign + digits) + after) == Some(if sign == "-" then -value else value)
  {
    hide NumeralValue, RadixValue, AllWhite, Trim, IsWhiteSpace;
    var number := sign + digits;
    DigitIsSolid(digits[0]);
    DigitIsSolid(digits[|digits| - 1]);
    SignedParts(sign, digits);
    assert number[|number| - 1] == digits[|digits| - 1];
    TrimsToSolid(before, number, after);
    assert sign != "" ==> number[0] == sign[0];
    assert sign == "" ==> number == digits;
  }

  /** Behind a prefix the digits count in its radix. */
  lemma {:induction false} RadixDigits(high: string, c: char, radix: nat)
    requires RadixValue(high, radix).Some? && HexDigit(c).Some? && HexDigit(c).value < radix
    ensures RadixValue(high + [c], radix) == Some(RadixValue(high, radix).value * radix + HexDigit(c).value)
  {
    assert (high + [c])[..|high|] == high;
    hide HexDigit;
  }

  lemma {:induction false} OneDigit(c: char, radix: nat)
    requires radix > 0
    ensures RadixValue([c], radix) == if HexDigit(c).Some? && HexDigit(c).value < radix then HexDigit(c) else None
  {
    assert [c][..0] == "";
    hide HexDigit;
  }

  /** The digits up to fifteen, in both cases, and nothing else. */
  lemma {:induction false} HexDigitsInOrder(c: char, i: nat)
    requires i < 16
    ensures HexDigit("0123456789abcdef"[i]) == HexDigit("0123456789ABCDEF"[i]) == Some(i)
    ensures HexDigit(c).Some? ==> c == "0123456789abcdef"[HexDigit(c).value % 16] || c == "0123456789ABCDEF"[HexDigit(c).value % 16]
  {
  }

  /** White space alone is zero. */
  lemma {:induction false} NoDigits(white: string)
    requires AllWhite(white)
    ensures BigIntOf(white) == Some(0)
  {
    WhiteTrimsAway(white);
    hide Trim, AllWhite, NumeralValue, RadixValue;
  }

  lemma {:induction false} PrefixIsSolid(letter: char)
    requires letter in {'x', 'X', 'o', 'O', 'b', 'B'}
    ensures !IsWhiteSpace('0') && !IsWhiteSpace(letter) && !IsDigit(letter)
  {
  }

  /** A prefix alone is no number. */
  lemma {:induction false} PrefixAlone(letter: char)
    requires letter in {'x', 'X', 'o', 'O', 'b', 'B'}
    ensures BigIntOf(['0', letter]) == None
  {
    hide Trim, IsWhiteSpace, IsDigit, NumeralValue, RadixValue;
    var text := ['0', letter];
    PrefixIsSolid(letter);
    TrimKeepsSolid(text);
    assert !IsDigit(text[1]);
  }

  lemma {:induction false} WhiteTrimsAway(white: string)
    requires AllWhite(white)
    ensures Trim(white) == ""
  {
    hide IsWhiteSpace;
    assert white + "" == white;
    TrimStartDropsWhite(white, "");
  }

  /** Behind a prefix, what follows is read in its radix. */
  lemma {:induction false} PrefixedReads(letter: char, digits: string)
    requires letter in {'x', 'X', 'o', 'O', 'b', 'B'} && digits != "" && !IsWhiteSpace(digits[|digits| - 1])
    ensures BigIntOf(['0', letter] + digits)
            == RadixValue(digits, if letter in {'x', 'X'} then 16 else if letter in {'o', 'O'} then 8 else 2)
  {
    hide NumeralValue, RadixValue, Trim, IsWhiteSpace, IsDigit;
    var text := ['0', letter] + digits;
    assert text[0] == '0' && text[1] == letter && text[2..] == digits && text[|text| - 1] == digits[|digits| - 1];
    PrefixIsSolid(letter);
    TrimKeepsSolid(text);
  }

  function SqlSequenceFromCursor(cursor: string): Option<nat> {
    if !(CURSOR_PREFIX <= cursor) then None
    else match BigIntOf(cursor[|CURSOR_PREFIX|..])
      case Some(n) => if n > 0 then Some(n) else None
      case None => None
  }

  lemma {:induction false} BigIntOfDigits(s: string)
    requires s != "" && AllDigits(s)
    ensures BigIntOf(s) == Some(NumeralValue(s))
  {
    assert forall i :: 0 <= i < |s| ==> IsDigit(s[i]);
    TrimKeepsSolid(s);
    hide NumeralValue, RadixValue, Trim;
  }

  lemma {:induction false} SqlCursorRoundTrip(n: nat)
    ensures SqlSequenceFromCursor(CursorFromSequence(n)) == if n > 0 then Some(n) else None
  {
    assert CursorFromSequence(n)[|CURSOR_PREFIX|..] == Numeral(n);
    BigIntOfDigits(Numeral(n));
    NumeralRoundTrip(n);
    hide Numeral, NumeralValue, BigIntOf;
  }

  // ---- the queries ----

  function RowsAbove(rows: seq<Row>, sequence: nat): seq<Row> {
    if rows == [] then []
    else (if rows[0].sequence > sequence then [rows[0]] else []) + RowsAbove(rows[1..], sequence)
  }

  function EventsOf(rows: seq<Row>): (events: seq<EventRecord>)
    ensures |events| == |rows| && forall i :: 0 <= i < |rows| ==> events[i] == rows[i].event
  {
    if rows == [] then [] else [rows[0].event] + EventsOf(rows[1..])
  }

  predicate SequenceExists(rows: seq<Row>, sequence: nat) {
    exists i :: 0 <= i < |rows| && rows[i].sequence == sequence
  }

  function BoundCursor(rows: seq<Row>, i: int): Option<string> {
    if 0 <= i < |rows| then Some(CursorFromSequence(rows[i].sequence)) else None
  }

  function SqlReplay(rows: seq<Row>, cursor: Option<string>, requested: int): Result<ReplayResult, Failure> {
    if requested <= 0 then Err(Rejected)
    else
      var limit := Min(requested, SQL_PAGE_LIMIT);
      var oldest, latest := BoundCursor(rows, 0), BoundCursor(rows, |rows| - 1);
      if cursor.None? then Ok(ReplayResult(EventsOf(Slice(rows, 0, limit)), NoCursor, oldest, latest))
      else match SqlSequenceFromCursor(cursor.value)
        case None => Ok(ReplayResult([], NotFound, oldest, latest))
        case Some(sequence) =>
          if sequence > MAX_BIGINT then Err(Rejected)
          else if SequenceExists(rows, sequence) then
            Ok(ReplayResult(EventsOf(Slice(RowsAbove(rows, sequence), 0, limit)), CursorOk, oldest, latest))
          else if rows != [] && sequence < rows[0].sequence then
            Ok(ReplayResult([], Expired, oldest, latest))
          else Ok(ReplayResult([], NotFound, oldest, latest))
  }

  // ---- agreement ----

  ghost predicate IsTable(rows: seq<Row>) {
    && (forall i :: 0 <= i < |rows| ==>
          0 < rows[i].sequence <= MAX_BIGINT && rows[i].event.cursor == CursorFromSequence(rows[i].sequence))
    && (forall i, j :: 0 <= i < j < |rows| ==> rows[i].sequence < rows[j].sequence)
  }

  lemma {:induction false} RowsAboveIsSuffix(rows: seq<Row>, i: nat)
    requires IsTable(rows) && i < |rows|
    ensures RowsAbove(rows, rows[i].sequence) == rows[i + 1..]
  {
    hide CursorFromSequence;
    if i > 0 {
      RowsAboveIsSuffix(rows[1..], i - 1);
    } else {
      AllRowsAbove(rows[1..], rows[0].sequence);
    }
  }

  lemma {:induction false} AllRowsAbove(rows: seq<Row>, sequence: nat)
    requires forall i :: 0 <= i < |rows| ==> rows[i].sequence > sequence
    ensures RowsAbove(rows, sequence) == rows
  {
    if rows != [] {
      AllRowsAbove(rows[1..], sequence);
    }
  }

  /** The row found by sequence number is the event found by cursor text. */
  lemma {:induction false} CursorFindsRow(rows: seq<Row>, n: nat)
    requires IsTable(rows)
    ensures var index := FindIndex(EventsOf(rows), (e: EventRecord) => e.cursor == CursorFromSequence(n));
            if index < 0 then !SequenceExists(rows, n) else rows[index].sequence == n
  {
    hide CursorFromSequence;
    var events := EventsOf(rows);
    forall i | 0 <= i < |rows| ensures rows[i].sequence == n <==> events[i].cursor == CursorFromSequence(n) {
      if events[i].cursor == CursorFromSequence(n) {
        CursorInjective(rows[i].sequence, n);
      }
    }
  }

  /** How many events a reader of this cursor is still owed. */
  function Owed(rows: seq<Row>, cursor: Option<nat>): nat {
    if cursor.None? then |rows| else |RowsAbove(rows, cursor.value)|
  }

  /** The sequence number comes before the first row, so a cursor for it has expired. */
  predicate IsBelow(sequence: Option<nat>, rows: seq<Row>) {
    sequence.Some? && rows != [] && sequence.value < rows[0].sequence
  }

  /**
   * What the two logs read in a cursor text, and the page, decide whether they answer alike: a number
   * above the bigints fails in SQL only; a number that a row has must be written as its own cursor and
   * the page must fit in 1000 events; for any other text both must find it expired, or both not.
   */
  predicate ReplaysAgree(rows: seq<Row>, cursor: Option<string>, requested: int) {
    if requested <= 0 then true
    else if cursor.None? then Min(requested, Owed(rows, None)) <= SQL_PAGE_LIMIT
    else
      var sql, log := SqlSequenceFromCursor(cursor.value), SequenceFromCursor(cursor.value);
      if sql.Some? && sql.value > MAX_BIGINT then false
      else if sql.Some? && SequenceExists(rows, sql.value) then
        cursor.value == CursorFromSequence(sql.value) && Min(requested, Owed(rows, sql)) <= SQL_PAGE_LIMIT
      else IsBelow(sql, rows) == (IsBelow(log, rows) && rows[0].sequence <= MAX_SAFE_INTEGER)
  }

  function CursorText(cursor: Option<nat>): Option<string> {
    if cursor.None? then None else Some(CursorFromSequence(cursor.value))
  }

  lemma {:induction false} BoundsAgree(rows: seq<Row>)
    requires IsTable(rows)
    ensures var events := EventsOf(rows);
            && BoundCursor(rows, 0) == (if events == [] then None else Some(events[0].cursor))
            && BoundCursor(rows, |rows| - 1) == (if events == [] then None else Some(events[|events| - 1].cursor))
  {
  }

  lemma {:induction false} SameEvents(taken: seq<Row>, sliced: seq<EventRecord>, rows: seq<Row>, from: nat)
    requires IsStretch(taken, rows, from) && IsStretch(sliced, EventsOf(rows), from) && |taken| == |sliced|
    ensures EventsOf(taken) == sliced
  {
  }

  lemma {:induction false} TakeAgrees(rows: seq<Row>, tail: seq<Row>, from: nat, requested: nat)
    requires IsStretch(tail, rows, from) && from + |tail| == |rows|
    ensures EventsOf(Slice(tail, 0, Min(requested, SQL_PAGE_LIMIT))) == Slice(EventsOf(rows), from, from + requested)
            <==> Min(requested, |tail|) <= SQL_PAGE_LIMIT
  {
    hide Slice, IsStretch;
    assert from + |tail| == |rows|;
    var taken := Slice(tail, 0, Min(requested, SQL_PAGE_LIMIT));
    var sliced := Slice(EventsOf(rows), from, from + requested);
    StretchTransitive(taken, tail, rows, 0, from);
    if |taken| == |sliced| {
      SameEvents(taken, sliced, rows, from);
    }
  }

  /** The answer of the log for a sequence number that no row has. */
  function AbsentAnswer(rows: seq<Row>, expired: bool): Result<ReplayResult, Failure> {
    Ok(ReplayResult([], if expired then Expired else NotFound, BoundCursor(rows, 0), BoundCursor(rows, |rows| - 1)))
  }

  function PresentAnswer(rows: seq<Row>, events: seq<EventRecord>): Result<ReplayResult, Failure> {
    Ok(ReplayResult(events, CursorOk, BoundCursor(rows, 0), BoundCursor(rows, |rows| - 1)))
  }

  ghost predicate IsRowText(rows: seq<Row>, text: string) {
    exists i :: 0 <= i < |rows| && CursorFromSequence(rows[i].sequence) == text
  }

  /** The log looks a cursor up by its text; it answers expired or not found for a text that no row has. */
  lemma {:induction false} LogAnswersAbsent(rows: seq<Row>, text: string, requested: nat)
    requires IsTable(rows) && requested > 0 && !IsRowText(rows, text)
    ensures Replay(EventsOf(rows), Some(text), requested) ==
            AbsentAnswer(rows, IsBelow(SequenceFromCursor(text), rows) && rows[0].sequence <= MAX_SAFE_INTEGER)
  {
    hide FindIndex, SequenceFromCursor, BoundCursor, Numeral;
    BoundsAgree(rows);
    if rows != [] {
      CursorRoundTrip(rows[0].sequence);
      assert EventsOf(rows)[0].cursor == CursorFromSequence(rows[0].sequence);
    }
    assert forall i :: 0 <= i < |rows| ==> EventsOf(rows)[i].cursor != text;
    hide CursorFromSequence;
  }

  lemma {:induction false} LogAnswersPresent(rows: seq<Row>, n: nat, requested: nat) returns (index: nat)
    requires IsTable(rows) && requested > 0 && SequenceExists(rows, n)
    ensures n > 0 && index < |rows| && rows[index].sequence == n
    ensures Replay(EventsOf(rows), Some(CursorFromSequence(n)), requested) ==
            PresentAnswer(rows, Slice(EventsOf(rows), index + 1, index + 1 + requested))
  {
    hide CursorFromSequence, FindIndex, SequenceExists, BoundCursor, Slice, IsExpiredCursor;
    CursorFindsRow(rows, n);
    BoundsAgree(rows);
    index := FindIndex(EventsOf(rows), (e: EventRecord) => e.cursor == CursorFromSequence(n));
  }

  lemma {:induction false} SqlAnswers(rows: seq<Row>, text: string, requested: nat)
    requires requested > 0
    ensures var sql := SqlSequenceFromCursor(text);
            SqlReplay(rows, Some(text), requested) ==
            if sql.Some? && sql.value > MAX_BIGINT then Err(Rejected)
            else if sql.Some? && SequenceExists(rows, sql.value)
            then PresentAnswer(rows, EventsOf(Slice(RowsAbove(rows, sql.value), 0, Min(requested, SQL_PAGE_LIMIT))))
            else AbsentAnswer(rows, IsBelow(sql, rows))
  {
    hide CursorFromSequence, SqlSequenceFromCursor, SequenceExists, BoundCursor, Slice, EventsOf, RowsAbove;
  }

  /** SQL reads the text of a row as the number of that row. */
  lemma {:induction false} RowTextsAreRead(rows: seq<Row>, text: string)
    requires IsTable(rows)
    ensures IsRowText(rows, text) <==>
              var sql := SqlSequenceFromCursor(text);
              sql.Some? && SequenceExists(rows, sql.value) && text == CursorFromSequence(sql.value)
  {
    hide CursorFromSequence, SqlSequenceFromCursor;
    forall i | 0 <= i < |rows| ensures SqlSequenceFromCursor(CursorFromSequence(rows[i].sequence)) == Some(rows[i].sequence) {
      SqlCursorRoundTrip(rows[i].sequence);
    }
  }

  lemma {:induction false} PresentRowAgrees(rows: seq<Row>, n: nat, requested: nat)
    requires IsTable(rows) && requested > 0 && SequenceExists(rows, n)
    ensures PresentAnswer(rows, EventsOf(Slice(RowsAbove(rows, n), 0, Min(requested, SQL_PAGE_LIMIT))))
            == Replay(EventsOf(rows), Some(CursorFromSequence(n)), requested)
            <==> Min(requested, Owed(rows, Some(n))) <= SQL_PAGE_LIMIT
  {
    hide CursorFromSequence, RowsAbove, Slice, IsTable, EventsOf, BoundCursor, SequenceExists, Replay;
    var index := LogAnswersPresent(rows, n, requested);
    SuffixIsStretch(rows, index + 1);
    RowsAboveIsSuffix(rows, index);
    TakeAgrees(rows, RowsAbove(rows, n), index + 1, requested);
  }

  lemma {:induction false} TextAgrees(rows: seq<Row>, text: string, requested: nat)
    requires IsTable(rows) && requested > 0
    ensures SqlReplay(rows, Some(text), requested) == Replay(EventsOf(rows), Some(text), requested)
            <==> ReplaysAgree(rows, Some(text), requested)
  {
    hide CursorFromSequence, RowsAbove, Slice, IsTable, EventsOf, BoundCursor, SequenceExists, Replay, SqlReplay,
         SqlSequenceFromCursor, SequenceFromCursor, IsRowText, Owed, IsBelow;
    SqlAnswers(rows, text, requested);
    RowTextsAreRead(rows, text);
    if IsRowText(rows, text) {
      PresentRowAgrees(rows, SqlSequenceFromCursor(text).value, requested);
      RowsAreBigints(rows, SqlSequenceFromCursor(text).value);
    } else {
      LogAnswersAbsent(rows, text, requested);
    }
  }

  lemma {:induction false} RowsAreBigints(rows: seq<Row>, n: nat)
    requires IsTable(rows) && SequenceExists(rows, n)
    ensures n <= MAX_BIGINT
  {
  }

  /**
   * For every table in sequence order, every cursor text whatever and every limit, the SQL replay and
   * the index-and-slice replay give the same answer exactly when `ReplaysAgree` says so.
   */
  lemma {:induction false} SqlReplayAgreesIff(rows: seq<Row>, cursor: Option<string>, requested: int)
    requires IsTable(rows)
    ensures SqlReplay(rows, cursor, requested) == Replay(EventsOf(rows), cursor, requested)
            <==> ReplaysAgree(rows, cursor, requested)
  {
    if requested > 0 {
      if cursor.None? {
        hide CursorFromSequence, FindIndex, SqlSequenceFromCursor, SequenceFromCursor;
        BoundsAgree(rows);
        TakeAgrees(rows, rows, 0, requested);
        hide IsTable, BoundCursor, Slice, EventsOf;
      } else {
        hide ReplaysAgree, Replay, SqlReplay, CursorFromSequence;
        TextAgrees(rows, cursor.value, requested);
      }
    }
  }

  /**
   * Within the page limit and the safe integers, canonical cursors, issued or not, are answered alike
   * exactly up to the largest bigint.
   */
  lemma {:induction false} AgreeWithinLimitsIff(rows: seq<Row>, cursor: Option<nat>, requested: int)
    requires IsTable(rows) && requested <= SQL_PAGE_LIMIT
    requires forall i :: 0 <= i < |rows| ==> rows[i].sequence <= MAX_SAFE_INTEGER
    ensures SqlReplay(rows, CursorText(cursor), requested) == Replay(EventsOf(rows), CursorText(cursor), requested)
            <==> requested <= 0 || cursor.None? || cursor.value <= MAX_BIGINT
  {
    hide CursorFromSequence, SqlSequenceFromCursor, SequenceFromCursor, Replay, SqlReplay, RowsAbove, SequenceExists, Owed, IsTable;
    SqlReplayAgreesIff(rows, CursorText(cursor), requested);
    if cursor.Some? {
      SqlCursorRoundTrip(cursor.value);
      CursorRoundTrip(cursor.value);
    }
  }

  /** The first number above the bigints: SQL refuses the request, the other log answers not found. */
  lemma {:induction false} HugeCursorIsRejected(rows: seq<Row>, requested: nat)
    requires IsTable(rows) && requested > 0
    requires forall i :: 0 <= i < |rows| ==> rows[i].sequence <= MAX_SAFE_INTEGER
    ensures var cursor := Some(CursorFromSequence(0x8000_0000_0000_0000));
            && SqlReplay(rows, cursor, requested) == Err(Rejected)
            && Replay(EventsOf(rows), cursor, requested).Ok?
            && Replay(EventsOf(rows), cursor, requested).value.status == NotFound
  {
    var n: nat := 0x8000_0000_0000_0000;
    SqlCursorRoundTrip(n);
    CursorRoundTrip(n);
    hide CursorFromSequence, SqlSequenceFromCursor, SequenceFromCursor, SqlReplay, Replay;
    SqlAnswers(rows, CursorFromSequence(n), requested);
    RowTextsAreRead(rows, CursorFromSequence(n));
    LogAnswersAbsent(rows, CursorFromSequence(n), requested);
  }

  lemma {:induction false} ValueOfLeadingZero()
    ensures NumeralValue("01") == 1
  {
    assert "01"[..1] == "0";
    assert "0"[..0] == "";
  }

  lemma {:induction false} LeadingZeroIsRead()
    ensures SqlSequenceFromCursor(CURSOR_PREFIX + "01") == Some(1) && SequenceFromCursor(CURSOR_PREFIX + "01") == Some(1)
  {
    hide NumeralValue, ParseInt, BigIntOf;
    assert (CURSOR_PREFIX + "01")[|CURSOR_PREFIX|..] == "01";
    ValueOfLeadingZero();
    BigIntOfDigits("01");
    ParseIntOfDigits("01");
  }

  /** A cursor that is not canonical can be known to the SQL log and unknown to the other. */
  lemma {:induction false} NonCanonicalCursorDiffers(event: EventRecord)
    requires event.cursor == CursorFromSequence(1)
    ensures var rows, cursor := [Row(1, event)], Some(CURSOR_PREFIX + "01");
            && IsTable(rows)
            && SqlReplay(rows, cursor, 1).Ok? && SqlReplay(rows, cursor, 1).value.status == CursorOk
            && Replay(EventsOf(rows), cursor, 1).Ok? && Replay(EventsOf(rows), cursor, 1).value.status == NotFound
  {
    hide SequenceFromCursor, SqlSequenceFromCursor, CursorFromSequence, RowsAbove, Slice, FindIndex, EventsOf;
    var rows, cursor := [Row(1, event)], CURSOR_PREFIX + "01";
    FirstCursorIsShort(cursor);
    LeadingZeroIsRead();
    CursorRoundTrip(1);
    assert rows[0].sequence == 1 && EventsOf(rows)[0] == event;
  }

  lemma {:induction false} FirstCursorIsShort(cursor: string)
    requires |cursor| == |CURSOR_PREFIX| + 2
    ensures cursor != CursorFromSequence(1)
  {
    assert Numeral(1) == "1";
  }

  // ---- serial histories of the SQL log ----

  datatype SqlState = SqlState(nextSequence: nat, rows: seq<Row>, outbox: seq<OutboxRecord>)

  const EMPTY_TABLES := SqlState(1, [], [])

  /**
   * INSERT .. ON CONFLICT DO NOTHING draws a sequence number even when the id is taken, and fails when
   * the bigints are used up.
   */
  function SqlAppend(s: SqlState, input: AppendInput): (Result<EventRecord, Failure>, SqlState) {
    if !IsAcceptable(input) || s.nextSequence > MAX_BIGINT then (Err(UnsafePayload), s)
    else
      var i := FindIndex(s.rows, (row: Row) => row.event.id == input.id);
      if i >= 0 then (Ok(s.rows[i].event), s.(nextSequence := s.nextSequence + 1))
      else
        var event := RecordOf(input, CursorFromSequence(s.nextSequence));
        (Ok(event), SqlState(s.nextSequence + 1, s.rows + [Row(s.nextSequence, event)],
                             s.outbox + [OutboxRecord(OutboxIdOf(event.id), event.id, event.cursor, Pending, event.timestamp, None)]))
  }

  function SqlMark(s: SqlState, eventId: string, publishedAt: string): (Result<string, Failure>, SqlState) {
    var i := FindIndex(s.outbox, (r: OutboxRecord) => r.eventId == eventId);
    if i < 0 then (Err(RecordNotFound), s)
    else (Ok(s.outbox[i].cursor), s.(outbox := s.outbox[i := s.outbox[i].(status := Published, publishedAt := Some(publishedAt))]))
  }

  /** `RolledBack` is an append that failed after its INSERT: only the sequence number is used up. */
  datatype SqlAction = SqlSubmit(input: AppendInput) | RolledBack | SqlPublish(eventId: string, at: string)

  function SqlStep(s: SqlState, action: SqlAction): SqlState {
    match action
    case SqlSubmit(input) => SqlAppend(s, input).1
    case RolledBack => if s.nextSequence > MAX_BIGINT then s else s.(nextSequence := s.nextSequence + 1)
    case SqlPublish(eventId, at) => SqlMark(s, eventId, at).1
  }

  function SqlRun(actions: seq<SqlAction>): SqlState {
    if actions == [] then EMPTY_TABLES else SqlStep(SqlRun(actions[..|actions| - 1]), actions[|actions| - 1])
  }

  /** Sequence numbers grow, ids are unique, and every event has its one outbox record. */
  ghost predicate SqlInv(s: SqlState) {
    && IsTable(s.rows)
    && (forall i :: 0 <= i < |s.rows| ==> s.rows[i].sequence < s.nextSequence)
    && s.nextSequence > 0
    && (forall i, j :: 0 <= i < j < |s.rows| ==> s.rows[i].event.id != s.rows[j].event.id)
    && IsOutboxOf(s.outbox, EventsOf(s.rows))
  }

  lemma {:induction false} SqlAppendKeepsInv(s: SqlState, input: AppendInput)
    requires SqlInv(s)
    ensures SqlInv(SqlAppend(s, input).1)
  {
    hide CursorFromSequence, OutboxIdOf, IsAcceptable;
  }

  lemma {:induction false} SqlMarkKeepsInv(s: SqlState, eventId: string, publishedAt: string)
    requires SqlInv(s)
    ensures SqlInv(SqlMark(s, eventId, publishedAt).1)
  {
    hide CursorFromSequence, OutboxIdOf, IsTable;
    var i := FindIndex(s.outbox, (r: OutboxRecord) => r.eventId == eventId);
    if i >= 0 {
      assert Describes(s.outbox[i], EventsOf(s.rows)[i]);
    }
  }

  lemma {:induction false} OutboxOfRows(s: SqlState)
    requires SqlInv(s)
    ensures |s.outbox| == |s.rows|
    ensures forall i :: 0 <= i < |s.rows| ==> s.outbox[i].eventId == s.rows[i].event.id
  {
    hide CursorFromSequence, OutboxIdOf, IsTable;
    assert forall i :: 0 <= i < |s.rows| ==> Describes(s.outbox[i], EventsOf(s.rows)[i]);
  }

  /** Every serial run: the table is in sequence order, with gaps but without repeats, below a growing counter. */
  lemma {:induction false} SqlRunKeepsInv(actions: seq<SqlAction>)
    ensures SqlInv(SqlRun(actions)) && SqlRun(actions).nextSequence <= |actions| + 1
  {
    if actions != [] {
      var before := actions[..|actions| - 1];
      SqlRunKeepsInv(before);
      var s := SqlRun(before);
      match actions[|actions| - 1]
      case SqlSubmit(input) =>
        hide IsTable, CursorFromSequence, IsAcceptable, OutboxIdOf, FindIndex;
        SqlAppendKeepsInv(s, input);
      case RolledBack =>
      case SqlPublish(eventId, at) =>
        hide IsTable, CursorFromSequence, FindIndex;
        SqlMarkKeepsInv(s, eventId, at);
    }
  }

  /**
   * After any serial run, however full of gaps, a canonical cursor is answered as the index-and-slice
   * log over the same events answers it, exactly up to the largest bigint.
   */
  lemma {:induction false} SqlRunReplaysLikeLogIff(actions: seq<SqlAction>, cursor: Option<nat>, requested: int)
    requires |actions| <= MAX_SAFE_INTEGER && requested <= SQL_PAGE_LIMIT
    ensures var rows := SqlRun(actions).rows;
            SqlReplay(rows, CursorText(cursor), requested) == Replay(EventsOf(rows), CursorText(cursor), requested)
            <==> requested <= 0 || cursor.None? || cursor.value <= MAX_BIGINT
  {
    SqlRunKeepsInv(actions);
    hide IsTable, SqlRun, SqlReplay, Replay, CursorText;
    AgreeWithinLimitsIff(SqlRun(actions).rows, cursor, requested);
  }

  /** Submitting a stored id again answers the stored event and changes no row, while bigints are left. */
  lemma {:induction false} SqlResubmissionIsIdempotent(actions: seq<SqlAction>, input: AppendInput, i: nat)
    requires i < |SqlRun(actions).rows| && SqlRun(actions).rows[i].event.id == input.id && IsAcceptable(input)
    ensures var s := SqlRun(actions);
            var (r, s') := SqlAppend(s, input);
            && s'.rows == s.rows && s'.outbox == s.outbox
            && (r == Ok(s.rows[i].event) <==> s.nextSequence <= MAX_BIGINT)
  {
    SqlRunKeepsInv(actions);
    hide SqlRun, IsTable, IsOutboxOf;
  }

  /**
   * One more append after any serial run: unusable input, or no bigint left, changes nothing; a stored id is
   * answered with its event; a new one becomes the last row with the next number, and its pending record the
   * last of the outbox.
   */
  lemma {:induction false} SqlSubmissionOutcome(actions: seq<SqlAction>, input: AppendInput)
    ensures var s := SqlRun(actions);
            var (r, after) := SqlAppend(s, input);
            var acceptable :=
              && IsToken(input.id) && IsToken(input.eventType) && IsToken(input.source) && input.timestampIsDate
              && (forall key :: key in input.payload ==> IsToken(key) && input.payload[key].Scalar?);
            if !acceptable || s.nextSequence > 0x7FFF_FFFF_FFFF_FFFF then r.Err? && after == s
            else if exists i :: 0 <= i < |s.rows| && s.rows[i].event.id == input.id then
              && (exists i :: 0 <= i < |s.rows| && s.rows[i].event.id == input.id && r == Ok(s.rows[i].event))
              && after == SqlState(s.nextSequence + 1, s.rows, s.outbox)
            else
              var event := EventRecord(input.id, "eventlog:" + Numeral(s.nextSequence), input.eventType, input.timestamp,
                                       input.source, input.payload);
              && r == Ok(event)
              && after == SqlState(s.nextSequence + 1, s.rows + [Row(s.nextSequence, event)],
                                   s.outbox + [OutboxRecord("outbox:" + input.id, input.id, event.cursor, Pending, input.timestamp, None)])
  {
    AcceptableInputs(input);
    hide IsAcceptable, SqlRun, IsToken, Numeral;
  }

  /** An append that fails after its INSERT uses up its number and leaves the rows as they are. */
  lemma {:induction false} RollbackUsesNumber(actions: seq<SqlAction>)
    ensures var s := SqlRun(actions);
            SqlRun(actions + [RolledBack])
            == SqlState(if s.nextSequence <= 0x7FFF_FFFF_FFFF_FFFF then s.nextSequence + 1 else s.nextSequence, s.rows, s.outbox)
  {
    assert (actions + [RolledBack])[..|actions|] == actions;
  }

  /** Marking in the tables turns the record of that event, and no other, to published at that time. */
  lemma {:induction false} SqlMarkOutcome(actions: seq<SqlAction>, eventId: string, at: string)
    ensures var s := SqlRun(actions);
            var (r, after) := SqlMark(s, eventId, at);
            && after.nextSequence == s.nextSequence && after.rows == s.rows && |after.outbox| == |s.outbox|
            && (forall i :: 0 <= i < |s.outbox| && s.outbox[i].eventId != eventId ==> after.outbox[i] == s.outbox[i])
            && (forall i :: 0 <= i < |s.outbox| && s.outbox[i].eventId == eventId ==>
                  && r == Ok(s.outbox[i].cursor)
                  && after.outbox[i]
                     == OutboxRecord(s.outbox[i].outboxId, eventId, s.outbox[i].cursor, Published, s.outbox[i].createdAt, Some(at)))
            && ((forall i :: 0 <= i < |s.outbox| ==> s.outbox[i].eventId != eventId) ==> r == Err(RecordNotFound))
  {
    SqlRunKeepsInv(actions);
    OutboxOfRows(SqlRun(actions));
    hide SqlRun, IsTable, IsOutboxOf;
  }

  class PostgresqlEventLogStore {
    var nextSequence: nat
    var rows: seq<Row>
    var outbox: seq<OutboxRecord>

    ghost predicate Valid()
      reads this
    {
      SqlInv(SqlState(nextSequence, rows, outbox))
    }

    constructor ()
      ensures Valid() && SqlState(nextSequence, rows, outbox) == EMPTY_TABLES
    {
      nextSequence, rows, outbox := 1, [], [];
    }

    /** One append transaction from BEGIN to COMMIT, with no other in between. */
    method AppendEvent(input: AppendInput) returns (r: Result<EventRecord, Failure>)
      requires Valid()
      modifies this
      ensures Valid()
      ensures (r, SqlState(nextSequence, rows, outbox)) == SqlAppend(SqlState(old(nextSequence), old(rows), old(outbox)), input)
      ensures r.Ok? ==> exists i :: 0 <= i < |rows| && rows[i].event == r.value && outbox[i].eventId == input.id
    {
      hide CursorFromSequence, OutboxIdOf, IsAcceptable, SqlInv;
      ghost var start := SqlState(nextSequence, rows, outbox);
      SqlAppendKeepsInv(start, input);
      OutboxOfRows(start);
      if !IsAcceptable(input) || nextSequence > MAX_BIGINT {
        return Err(UnsafePayload);
      }
      var sequence := nextSequence;
      nextSequence := nextSequence + 1;
      var i := FindIndex(rows, (row: Row) => row.event.id == input.id);
      if i >= 0 {
        return Ok(rows[i].event);
      }
      var event := RecordOf(input, CursorFromSequence(sequence));
      rows := rows + [Row(sequence, event)];
      outbox := outbox + [OutboxRecord(OutboxIdOf(event.id), event.id, event.cursor, Pending, event.timestamp, None)];
      r := Ok(event);
      assert rows[|rows| - 1].event == event && outbox[|rows| - 1].eventId == input.id;
    }

    method MarkOutboxPublished(eventId: string, publishedAt: string) returns (r: Result<string, Failure>)
      requires Valid()
      modifies this`outbox
      ensures Valid()
      ensures (r, SqlState(nextSequence, rows, outbox)) == SqlMark(SqlState(nextSequence, rows, old(outbox)), eventId, publishedAt)
    {
      SqlMarkKeepsInv(SqlState(nextSequence, rows, outbox), eventId, publishedAt);
      var i := FindIndex(outbox, (o: OutboxRecord) => o.eventId == eventId);
      if i < 0 {
        return Err(RecordNotFound);
      }
      r := Ok(outbox[i].cursor);
      outbox := outbox[i := outbox[i].(status := Published, publishedAt := Some(publishedAt))];
    }
  }
}
