/** Numerals, numeral parsing and token joining, as the JavaScript runtime performs them. */
module Text {
  import opened Collections

  /** `Number.MAX_SAFE_INTEGER`. */
  const MAX_SAFE_INTEGER: nat := 9007199254740991

  /** `n + 1` on an IEEE double holding an integer of at most 2^53: the sum sticks at 2^53. */
  function NumberSuccessor(n: nat): nat {
    if n <= MAX_SAFE_INTEGER then n + 1 else MAX_SAFE_INTEGER + 1
  }

  // ---- numerals ----

  predicate IsDigit(c: char) {
    '0' <= c <= '9'
  }

  predicate AllDigits(s: string) {
    forall i :: 0 <= i < |s| ==> IsDigit(s[i])
  }

  function DigitOf(d: nat): char
    requires d < 10
  {
    "0123456789"[d]
  }

  function DigitValue(c: char): (d: nat)
    requires IsDigit(c)
    ensures d < 10
  {
    c as int - '0' as int
  }

  /** `String(n)` for a non-negative integer below 10^21. */
  function Numeral(n: nat): (s: string)
    ensures s != "" && AllDigits(s)
    ensures s[0] == '0' ==> n == 0 && s == "0"
  {
    if n < 10 then [DigitOf(n)] else Numeral(n / 10) + [DigitOf(n % 10)]
  }

  function NumeralValue(s: string): nat
    requires AllDigits(s)
  {
    if s == "" then 0 else NumeralValue(s[..|s| - 1]) * 10 + DigitValue(s[|s| - 1])
  }

  lemma {:induction false} NumeralRoundTrip(n: nat)
    ensures NumeralValue(Numeral(n)) == n
  {
    if n >= 10 {
      NumeralRoundTrip(n / 10);
      var s := Numeral(n);
      assert s[..|s| - 1] == Numeral(n / 10);
    } else {
      assert Numeral(n)[..0] == "";
    }
  }

  lemma {:induction false} NumeralInjective(m: nat, n: nat)
    requires Numeral(m) == Numeral(n)
    ensures m == n
  {
    NumeralRoundTrip(m);
    NumeralRoundTrip(n);
  }

  function LeadingDigits(s: string): (r: string)
    ensures r <= s && AllDigits(r)
    ensures |r| < |s| ==> !IsDigit(s[|r|])
  {
    if s == "" || !IsDigit(s[0]) then "" else [s[0]] + LeadingDigits(s[1..])
  }

  lemma {:induction false} LeadingDigitsOfNumeral(s: string)
    requires AllDigits(s)
    ensures LeadingDigits(s) == s
  {
    if s != "" {
      LeadingDigitsOfNumeral(s[1..]);
    }
  }

  /** The white space that `trim`, `parseInt` and `BigInt` skip. */
  predicate IsWhiteSpace(c: char) {
    c in {'\t', '\n', '\U{0B}', '\U{0C}', '\r', ' ', '\U{A0}', '\U{1680}', '\U{2028}', '\U{2029}',
          '\U{202F}', '\U{205F}', '\U{3000}', '\U{FEFF}'} || '\U{2000}' <= c <= '\U{200A}'
  }

  /** The same by code points: the spaces, tabs, line ends and separators, and the byte order mark. */
  lemma {:induction false} WhiteSpaceCodes(c: char)
    ensures IsWhiteSpace(c)
            <==> var n := c as int;
                 9 <= n <= 13 || n in {32, 160, 5760, 8232, 8233, 8239, 8287, 12288, 65279} || 8192 <= n <= 8202
  {
  }

  function TrimStart(s: string): (r: string)
    ensures |r| <= |s| && r == s[|s| - |r|..]
    ensures r != "" ==> !IsWhiteSpace(r[0])
    ensures forall i :: 0 <= i < |s| - |r| ==> IsWhiteSpace(s[i])
  {
    if s != "" && IsWhiteSpace(s[0]) then TrimStart(s[1..]) else s
  }

  function TrimEnd(s: string): (r: string)
    ensures r <= s
    ensures r != "" ==> !IsWhiteSpace(r[|r| - 1])
    ensures forall i :: |r| <= i < |s| ==> IsWhiteSpace(s[i])
  {
    if s != "" && IsWhiteSpace(s[|s| - 1]) then TrimEnd(s[..|s| - 1]) else s
  }

  function Trim(s: string): string {
    TrimEnd(TrimStart(s))
  }

  lemma {:induction false} TrimKeepsSolid(s: string)
    requires s != "" ==> !IsWhiteSpace(s[0]) && !IsWhiteSpace(s[|s| - 1])
    ensures Trim(s) == s
  {
  }

  lemma {:induction false} TrimDropsSpace(s: string)
    requires s != "" && !IsWhiteSpace(s[0]) && !IsWhiteSpace(s[|s| - 1])
    ensures Trim([' '] + s) == s
  {
    TrimKeepsSolid(s);
    assert ([' '] + s)[1..] == s;
    assert IsWhiteSpace(' ');
    assert TrimStart([' '] + s) == TrimStart(s);
  }

  /** `Number.parseInt(s, 10)`, with `None` for NaN; exact where the double would round. */
  function ParseInt(s: string): Option<int> {
    var t := TrimStart(s);
    var negative := t != "" && t[0] == '-';
    var digits := LeadingDigits(if t != "" && t[0] in {'-', '+'} then t[1..] else t);
    if digits == "" then None
    else
      var value: int := NumeralValue(digits);
      Some(if negative then -value else value)
  }

  lemma {:induction false} ParseIntOfDigits(s: string)
    requires s != "" && AllDigits(s)
    ensures ParseInt(s) == Some(NumeralValue(s))
  {
    hide NumeralValue, LeadingDigits;
    assert IsDigit(s[0]);
    LeadingDigitsOfNumeral(s);
  }

  lemma {:induction false} ParseIntOfNumeral(n: nat)
    ensures ParseInt(Numeral(n)) == Some(n)
  {
    hide Numeral, NumeralValue, ParseInt;
    ParseIntOfDigits(Numeral(n));
    NumeralRoundTrip(n);
  }

  ghost predicate AllWhite(s: string) {
    forall i :: 0 <= i < |s| ==> IsWhiteSpace(s[i])
  }

  lemma {:induction false} TrimStartDropsWhite(white: string, rest: string)
    requires AllWhite(white) && (rest != "" ==> !IsWhiteSpace(rest[0]))
    ensures TrimStart(white + rest) == rest
  {
    hide IsWhiteSpace;
    if white == "" {
      assert white + rest == rest;
    } else {
      assert (white + rest)[1..] == white[1..] + rest;
      TrimStartDropsWhite(white[1..], rest);
    }
  }

  lemma {:induction false} TrimsToSolid(before: string, middle: string, after: string)
    requires AllWhite(before) && AllWhite(after) && middle != "" && !IsWhiteSpace(middle[0]) && !IsWhiteSpace(middle[|middle| - 1])
    ensures Trim(before + middle + after) == middle
  {
    hide IsWhiteSpace;
    assert before + middle + after == before + (middle + after);
    TrimStartDropsWhite(before, middle + after);
    TrimEndDropsWhite(middle, after);
  }

  lemma {:induction false} TrimEndDropsWhite(middle: string, white: string)
    requires AllWhite(white) && middle != "" && !IsWhiteSpace(middle[|middle| - 1])
    ensures TrimEnd(middle + white) == middle
  {
    hide IsWhiteSpace;
    if white == "" {
      assert middle + white == middle;
    } else {
      assert (middle + white)[..|middle + white| - 1] == middle + white[..|white| - 1];
      TrimEndDropsWhite(middle, white[..|white| - 1]);
    }
  }

  lemma {:induction false} LeadingDigitsOfRun(digits: string, rest: string)
    requires AllDigits(digits) && (rest != "" ==> !IsDigit(rest[0]))
    ensures LeadingDigits(digits + rest) == digits
  {
    if digits == "" {
      assert digits + rest == rest;
    } else {
      assert (digits + rest)[1..] == digits[1..] + rest;
      LeadingDigitsOfRun(digits[1..], rest);
    }
  }

  lemma {:induction false} SignedParts(sign: string, number: string)
    requires sign in {"", "+", "-"} && (number != "" ==> number[0] !in {'+', '-'} && !IsWhiteSpace(number[0]))
    ensures var all := sign + number;
            && (all != "" ==> !IsWhiteSpace(all[0]))
            && (if all != "" && all[0] in {'-', '+'} then all[1..] else all) == number
            && (all != "" && all[0] == '-' <==> sign == "-")
  {
    var all := sign + number;
    if sign == "" {
      assert all == number;
    } else {
      assert all[0] == sign[0] && all[1..] == number;
    }
  }

  lemma {:induction false} DigitIsSolid(c: char)
    requires IsDigit(c)
    ensures !IsWhiteSpace(c) && c !in {'+', '-'}
  {
  }

  /** White space and one sign are read over, then a run of digits is the number, whatever follows it. */
  lemma {:induction false} ParseIntReads(white: string, sign: string, digits: string, rest: string)
    requires AllWhite(white) && sign in {"", "+", "-"} && AllDigits(digits) && (rest != "" ==> !IsDigit(rest[0]))
    requires digits == "" && rest != "" ==> !IsWhiteSpace(rest[0]) && rest[0] !in {'+', '-'}
    ensures var value: int := NumeralValue(digits);
            ParseInt(white + (sign + (digits + rest))) == if digits == "" then None else Some(if sign == "-" then -value else value)
  {
    hide NumeralValue, TrimStart, LeadingDigits, IsWhiteSpace, AllWhite;
    var number := digits + rest;
    if digits != "" {
      DigitIsSolid(digits[0]);
      assert number[0] == digits[0];
    } else {
      assert number == rest;
    }
    SignedParts(sign, number);
    LeadingDigitsOfRun(digits, rest);
    TrimStartDropsWhite(white, sign + number);
  }

  // ---- characters ----

  const UPPER := "ABCDEFGHIJKLMNOPQRSTUVWXYZ"
  const LOWER := "abcdefghijklmnopqrstuvwxyz"
  const DIGITS := "0123456789"

  ghost predicate OnlyOf(s: string, characters: string) {
    forall i :: 0 <= i < |s| ==> s[i] in characters
  }

  const TOKEN_CHARACTERS := UPPER + LOWER + DIGITS + "_.:-"

  /** `^[A-Za-z0-9_.:-]+$` */
  ghost predicate IsToken(s: string) {
    s != "" && OnlyOf(s, TOKEN_CHARACTERS)
  }

  lemma {:induction false} TokenCharacters(c: char)
    ensures c in TOKEN_CHARACTERS <==> 'A' <= c <= 'Z' || 'a' <= c <= 'z' || IsDigit(c) || c == '_' || c == '.' || c == ':' || c == '-'
  {
    UpperCase(c);
    LowerCase(c);
    Digits(c);
    InConcat(UPPER + LOWER + DIGITS, "_.:-", c);
    InConcat(UPPER + LOWER, DIGITS, c);
    InConcat(UPPER, LOWER, c);
    hide IsDigit;
  }

  lemma {:induction false} InConcat(a: string, b: string, c: char)
    ensures c in a + b <==> c in a || c in b
  {
  }

  lemma {:induction false} UpperCase(c: char)
    ensures c in UPPER <==> 'A' <= c <= 'Z'
  {
    if 'A' <= c <= 'Z' {
      assert UPPER[c as int - 'A' as int] == c;
    }
  }

  lemma {:induction false} LowerCase(c: char)
    ensures c in LOWER <==> 'a' <= c <= 'z'
  {
    if 'a' <= c <= 'z' {
      assert LOWER[c as int - 'a' as int] == c;
    }
  }

  lemma {:induction false} Digits(c: char)
    ensures c in DIGITS <==> IsDigit(c)
  {
    if IsDigit(c) {
      assert DIGITS[c as int - '0' as int] == c;
    }
  }

  // ---- tokens ----

  predicate Contains(s: string, c: char) {
    exists i :: 0 <= i < |s| && s[i] == c
  }

  lemma {:induction false} NumeralHasOnlyDigits(n: nat, c: char)
    requires !IsDigit(c)
    ensures !Contains(Numeral(n), c)
  {
  }

  /** `parts.join(sep)`. */
  function Join(parts: seq<string>, sep: char): string {
    if parts == [] then ""
    else if |parts| == 1 then parts[0]
    else parts[0] + [sep] + Join(parts[1..], sep)
  }

  lemma {:induction false} JoinOne(part: string, sep: char)
    ensures Join([part], sep) == part
  {
  }

  lemma {:induction false} JoinCons(parts: seq<string>, sep: char)
    requires |parts| > 1
    ensures Join(parts, sep) == parts[0] + [sep] + Join(parts[1..], sep)
  {
  }

  /** The length of the first token of `s`: the index of the first `sep`, or the whole length. */
  function TokenLength(s: string, sep: char): (n: nat)
    ensures n <= |s| && !Contains(s[..n], sep)
    ensures n < |s| ==> s[n] == sep
  {
    if s == "" || s[0] == sep then 0
    else
      var n := TokenLength(s[1..], sep);
      assert s[..n + 1] == [s[0]] + s[1..][..n];
      n + 1
  }

  /** `s.split(sep)`. */
  function Split(s: string, sep: char): (parts: seq<string>)
    ensures parts != []
    decreases |s|
  {
    var n := TokenLength(s, sep);
    if n == |s| then [s] else [s[..n]] + Split(s[n + 1..], sep)
  }

  lemma {:induction false} TokenLengthOfToken(token: string, rest: string, sep: char)
    requires !Contains(token, sep)
    requires rest == "" || rest[0] == sep
    ensures TokenLength(token + rest, sep) == |token|
  {
    if token == "" {
      assert token + rest == rest;
    } else {
      forall i | 0 <= i < |token[1..]| ensures token[1..][i] != sep {
        assert token[1..][i] == token[i + 1];
      }
      assert token[0] != sep;
      assert (token + rest)[1..] == token[1..] + rest;
      TokenLengthOfToken(token[1..], rest, sep);
    }
  }

  /** A token without the separator can be cut off the front of a joined text. */
  lemma {:induction false} SplitToken(token: string, rest: string, sep: char)
    requires !Contains(token, sep)
    ensures Split(token + [sep] + rest, sep) == [token] + Split(rest, sep)
    ensures Split(token, sep) == [token]
  {
    assert token + [sep] + rest == token + ([sep] + rest);
    TokenLengthOfToken(token, [sep] + rest, sep);
    assert (token + [sep] + rest)[..|token|] == token;
    assert (token + [sep] + rest)[|token| + 1..] == rest;
    assert token + "" == token;
    TokenLengthOfToken(token, "", sep);
  }

  lemma {:induction false} SplitOfJoin(parts: seq<string>, sep: char)
    requires parts != []
    requires forall i :: 0 <= i < |parts| ==> !Contains(parts[i], sep)
    ensures Split(Join(parts, sep), sep) == parts
  {
    hide Split, Join, Contains;
    if |parts| == 1 {
      JoinOne(parts[0], sep);
      SplitToken(parts[0], "", sep);
      assert parts == [parts[0]];
    } else {
      JoinCons(parts, sep);
      SplitToken(parts[0], Join(parts[1..], sep), sep);
      SplitOfJoin(parts[1..], sep);
    }
  }

  lemma {:induction false} JoinOfSplit(s: string, sep: char)
    ensures Join(Split(s, sep), sep) == s
    decreases |s|
  {
    var n := TokenLength(s, sep);
    if n < |s| {
      var rest := Split(s[n + 1..], sep);
      JoinOfSplit(s[n + 1..], sep);
      assert Split(s, sep) == [s[..n]] + rest;
      hide Split, Join, TokenLength;
      JoinCons([s[..n]] + rest, sep);
      assert ([s[..n]] + rest)[1..] == rest;
      assert s == s[..n] + [sep] + s[n + 1..];
    } else {
      JoinOne(s, sep);
    }
  }

  lemma {:induction false} FirstToken(s: string, sep: char) returns (token: string, rest: string)
    ensures !Contains(token, sep)
    ensures s == token || (s == token + [sep] + rest && |rest| < |s|)
  {
    var n := TokenLength(s, sep);
    hide TokenLength, Contains;
    token, rest := s[..n], if n < |s| then s[n + 1..] else "";
  }

  /** Splitting texts that were joined by the separator gives the tokens of one after those of the other. */
  lemma {:induction false} SplitOfConcat(a: string, b: string, sep: char)
    ensures Split(a + [sep] + b, sep) == Split(a, sep) + Split(b, sep)
    decreases |a|
  {
    hide Split, Contains;
    var token, rest := FirstToken(a, sep);
    if a == token {
      SplitToken(a, b, sep);
    } else {
      SplitOfConcat(rest, b, sep);
      SplitConcatStep(token, rest, b, sep);
    }
  }

  lemma {:induction false} SplitConcatStep(token: string, rest: string, b: string, sep: char)
    requires !Contains(token, sep) && Split(rest + [sep] + b, sep) == Split(rest, sep) + Split(b, sep)
    ensures Split(token + [sep] + rest + [sep] + b, sep) == Split(token + [sep] + rest, sep) + Split(b, sep)
  {
    hide Split, Contains;
    SplitToken(token, rest, sep);
    SplitToken(token, rest + [sep] + b, sep);
    Reassociated(token, rest, b, sep);
  }

  lemma {:induction false} Reassociated(a: string, b: string, c: string, sep: char)
    ensures a + [sep] + b + [sep] + c == a + [sep] + (b + [sep] + c)
  {
  }

  /** Joined texts that agree, with separator-free first tokens, agree token by token. */
  lemma {:induction false} CutToken(a: string, restA: string, b: string, restB: string, sep: char)
    requires !Contains(a, sep) && !Contains(b, sep)
    requires a + [sep] + restA == b + [sep] + restB
    ensures a == b && restA == restB
  {
    var s := a + [sep] + restA;
    assert s == a + ([sep] + restA) == b + ([sep] + restB);
    TokenLengthOfToken(a, [sep] + restA, sep);
    TokenLengthOfToken(b, [sep] + restB, sep);
    assert a == s[..|a|] && b == s[..|b|];
    assert restA == s[|a| + 1..] && restB == s[|b| + 1..];
  }
}
