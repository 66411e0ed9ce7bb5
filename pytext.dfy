/** The parts of Python's `str` behaviour that the bot's code relies on:
    `isspace`, `strip`, `split()`, `split(sep)`, `sep.join`, `lower()`
    (on ASCII letters), `startswith`, and the decimal conversions
    `str(n)` and `int(s)`. Strings are sequences of Unicode code points,
    as Python's are. */
module PyText {
  import opened Python

  /** `c.isspace()`: the characters that `str.split()` and `str.strip()`
      treat as whitespace. */
  predicate IsSpace(c: char) {
    || '\U{0009}' <= c <= '\U{000D}'
    || '\U{001C}' <= c <= '\U{001F}'
    || c == ' ' || c == '\U{0085}' || c == '\U{00A0}' || c == '\U{1680}'
    || '\U{2000}' <= c <= '\U{200A}'
    || c == '\U{2028}' || c == '\U{2029}' || c == '\U{202F}'
    || c == '\U{205F}' || c == '\U{3000}'
  }

  predicate StartsWith(s: string, prefix: string) {
    prefix <= s
  }

  /** `x in s` for two strings: `x` occurs in `s` at some position. */
  predicate IsSubstring(x: string, s: string)
    decreases |s|
  {
    x <= s || (s != [] && IsSubstring(x, s[1..]))
  }

  // ---------------------------------------------------------------- strip

  /** How many leading characters `drop` removes. */
  function LeadingCount(s: string, drop: char -> bool): (n: nat)
    ensures n <= |s|
    ensures forall k :: 0 <= k < n ==> drop(s[k])
    ensures n < |s| ==> !drop(s[n])
  {
    if s == [] || !drop(s[0]) then 0 else 1 + LeadingCount(s[1..], drop)
  }

  /** How many trailing characters `drop` removes. */
  function TrailingCount(s: string, drop: char -> bool): (n: nat)
    ensures n <= |s|
    ensures forall k :: |s| - n <= k < |s| ==> drop(s[k])
    ensures n < |s| ==> !drop(s[|s| - 1 - n])
  {
    if s == [] || !drop(s[|s| - 1]) then 0 else 1 + TrailingCount(s[..|s| - 1], drop)
  }

  /** The bounds `[start, end)` of what `s.strip(chars)` keeps, where `drop`
      tells which characters are in `chars`: everything before `start` and
      from `end` on is dropped, and the kept part neither begins nor ends
      with a dropped character. */
  function StripSpan(s: string, drop: char -> bool): (span: (nat, nat))
    ensures span.0 <= span.1 <= |s|
    ensures forall k :: 0 <= k < span.0 ==> drop(s[k])
    ensures forall k :: span.1 <= k < |s| ==> drop(s[k])
    ensures span.0 < span.1 ==> !drop(s[span.0]) && !drop(s[span.1 - 1])
  {
    var a := LeadingCount(s, drop);
    var b := TrailingCount(s[a..], drop);
    TrailingCountOfSuffix(s, a, drop);
    (a, |s| - b)
  }

  /** What `TrailingCount` of `s[a..]` says about `s` itself. */
  lemma TrailingCountOfSuffix(s: string, a: nat, drop: char -> bool)
    requires a <= |s|
    ensures TrailingCount(s[a..], drop) <= |s| - a
    ensures forall k :: |s| - TrailingCount(s[a..], drop) <= k < |s| ==> drop(s[k])
    ensures TrailingCount(s[a..], drop) < |s| - a ==> !drop(s[|s| - 1 - TrailingCount(s[a..], drop)])
  {
    var rest := s[a..];
    var b := TrailingCount(rest, drop);
    assert forall k :: a <= k < |s| ==> s[k] == rest[k - a];
  }

  /** `s.strip(chars)`. */
  function Strip(s: string, drop: char -> bool): string {
    s[StripSpan(s, drop).0..StripSpan(s, drop).1]
  }

  /** `s.strip()`. */
  function StripSpaces(s: string): string {
    Strip(s, IsSpace)
  }

  /** `s.strip()` is empty exactly when every character of `s` is whitespace. */
  lemma StripSpacesEmpty(s: string)
    ensures StripSpaces(s) == [] <==> forall k :: 0 <= k < |s| ==> IsSpace(s[k])
  {
    var span := StripSpan(s, IsSpace);
    if span.0 < span.1 {
      assert !IsSpace(s[span.0]);
    }
  }

  /** When something survives the strip, a character is cut off the front
      exactly when it and everything before it is dropped, and cut off the
      back exactly when it and everything after it is dropped. */
  lemma StripSpanEdges(s: string, drop: char -> bool, k: nat)
    requires k < |s|
    requires StripSpan(s, drop).0 < StripSpan(s, drop).1
    ensures k < StripSpan(s, drop).0 <==> forall i :: 0 <= i <= k ==> drop(s[i])
    ensures StripSpan(s, drop).1 <= k <==> forall i :: k <= i < |s| ==> drop(s[i])
  {
    var span := StripSpan(s, drop);
    assert !drop(s[span.0]) && !drop(s[span.1 - 1]);
  }

  /** Stripping trailing whitespace from `head + tail` leaves `head` whole when
      `head` ends in a non-whitespace character. */
  lemma {:induction false} TrailingCountAppend(head: string, tail: string)
    requires head != [] && !IsSpace(head[|head| - 1])
    ensures TrailingCount(head + tail, IsSpace) <= |tail|
  {
    var s := head + tail;
    var n := TrailingCount(s, IsSpace);
    assert s[|head| - 1] == head[|head| - 1];
  }

  // ---------------------------------------------------------------- lower

  /** `lower()` on one character, for the ASCII letters. */
  function LowerChar(c: char): char {
    if 'A' <= c <= 'Z' then (c as int + 32) as char else c
  }

  /** `s.lower()`, folding ASCII letters only. */
  function Lower(s: string): (r: string)
    ensures |r| == |s|
    ensures forall k :: 0 <= k < |s| ==> r[k] == LowerChar(s[k])
  {
    if s == [] then [] else [LowerChar(s[0])] + Lower(s[1..])
  }

  /** Lower-casing neither makes nor unmakes whitespace. */
  lemma LowerCharKeepsSpace(c: char)
    ensures IsSpace(LowerChar(c)) <==> IsSpace(c)
  {
  }

  lemma LowerIdempotent(s: string)
    ensures Lower(Lower(s)) == Lower(s)
  {
    assert forall k :: 0 <= k < |s| ==> Lower(Lower(s))[k] == Lower(s)[k];
  }

  // ---------------------------------------------------------------- split()

  /** The end of the run of non-whitespace characters that starts at `i`. */
  function RunEnd(s: string, i: nat): (j: nat)
    requires i <= |s|
    ensures i <= j <= |s|
    ensures forall k :: i <= k < j ==> !IsSpace(s[k])
    ensures j < |s| ==> IsSpace(s[j])
    decreases |s| - i
  {
    if i == |s| || IsSpace(s[i]) then i else RunEnd(s, i + 1)
  }

  /** The words of `s` that begin at or after position `i`. */
  function SplitFrom(s: string, i: nat): seq<string>
    requires i <= |s|
    decreases |s| - i
  {
    if i == |s| then []
    else if IsSpace(s[i]) then SplitFrom(s, i + 1)
    else
      var j := RunEnd(s, i);
      [s[i..j]] + SplitFrom(s, j)
  }

  /** `s.split()`: the whitespace-separated words of `s`, in order. */
  function Split(s: string): seq<string> {
    SplitFrom(s, 0)
  }

  /** `s[a..b]` is a maximal run of non-whitespace characters of `s`. */
  ghost predicate WordAt(s: string, a: int, b: int) {
    && 0 <= a < b <= |s|
    && (forall k :: a <= k < b ==> !IsSpace(s[k]))
    && (a == 0 || IsSpace(s[a - 1]))
    && (b == |s| || IsSpace(s[b]))
  }

  ghost predicate IsWordOf(s: string, t: string) {
    exists a, b :: WordAt(s, a, b) && t == s[a..b]
  }

  lemma {:induction false} SplitFromWords(s: string, i: nat, t: string)
    requires i <= |s|
    requires i == 0 || i == |s| || IsSpace(s[i - 1]) || IsSpace(s[i])
    ensures t in SplitFrom(s, i) <==> exists a, b :: i <= a && WordAt(s, a, b) && t == s[a..b]
    decreases |s| - i
  {
    if i == |s| {
    } else if IsSpace(s[i]) {
      SplitFromWords(s, i + 1, t);
    } else {
      var j := RunEnd(s, i);
      SplitFromWords(s, j, t);
      assert SplitFrom(s, i) == [s[i..j]] + SplitFrom(s, j);
      assert WordAt(s, i, j);
      if exists a, b :: i <= a && WordAt(s, a, b) && t == s[a..b] {
        var a, b :| i <= a && WordAt(s, a, b) && t == s[a..b];
        WordAfter(s, i, a, b);
      }
    }
  }

  /** A word starting at or after the non-whitespace position `i` is either
      the run starting at `i` or starts after that run ends. */
  lemma WordAfter(s: string, i: nat, a: int, b: int)
    requires i < |s| && !IsSpace(s[i])
    requires i <= a && WordAt(s, a, b)
    ensures (a == i && b == RunEnd(s, i)) || RunEnd(s, i) <= a
  {
  }

  /** The words `split()` returns are exactly the maximal runs of
      non-whitespace characters. */
  lemma SplitWords(s: string, t: string)
    ensures t in Split(s) <==> IsWordOf(s, t)
  {
    SplitFromWords(s, 0, t);
  }

  // ---------------------------------------------------------------- split(sep), join

  /** The index of the first `c` in `s`, or `|s|` when there is none. */
  function IndexOf(s: string, c: char): (k: nat)
    ensures k <= |s|
    ensures forall i :: 0 <= i < k ==> s[i] != c
    ensures k < |s| ==> s[k] == c
  {
    if s == [] || s[0] == c then 0 else 1 + IndexOf(s[1..], c)
  }

  /** `s.split(sep)` for a one-character separator. */
  function SplitOn(s: string, sep: char): (parts: seq<string>)
    ensures |parts| >= 1
    decreases |s|
  {
    var k := IndexOf(s, sep);
    if k == |s| then [s] else [s[..k]] + SplitOn(s[k + 1..], sep)
  }

  /** The first part of `s.split(sep)` is everything before the first separator. */
  lemma SplitOnHead(s: string, sep: char)
    ensures SplitOn(s, sep)[0] == s[..IndexOf(s, sep)]
  {
  }

  /** `sep.join(parts)`. */
  function Join(parts: seq<string>, sep: string): string {
    if parts == [] then []
    else if |parts| == 1 then parts[0]
    else parts[0] + sep + Join(parts[1..], sep)
  }

  lemma SplitOnNoSep(s: string, sep: char)
    requires sep !in s
    ensures SplitOn(s, sep) == [s]
  {
    assert forall i :: 0 <= i < |s| ==> s[i] in s;
  }

  /** Splitting at the first separator. */
  lemma SplitOnCons(a: string, sep: char, b: string)
    requires sep !in a
    ensures SplitOn(a + [sep] + b, sep) == [a] + SplitOn(b, sep)
  {
    var s := a + [sep] + b;
    var k := IndexOf(s, sep);
    assert s[|a|] == sep;
    assert forall i :: 0 <= i < |a| ==> s[i] == a[i] && a[i] in a;
    assert k == |a|;
    assert s[..k] == a;
    assert s[k + 1..] == b;
  }

  /** `sep.join(parts).split(sep) == parts` when no part holds the separator. */
  lemma {:induction false} SplitOnJoin(parts: seq<string>, sep: char)
    requires parts != []
    requires forall p :: p in parts ==> sep !in p
    ensures SplitOn(Join(parts, [sep]), sep) == parts
    decreases |parts|
  {
    if |parts| == 1 {
      SplitOnNoSep(parts[0], sep);
    } else {
      SplitOnJoin(parts[1..], sep);
      SplitOnCons(parts[0], sep, Join(parts[1..], [sep]));
      assert parts == [parts[0]] + parts[1..];
    }
  }

  /** A join with a non-empty separator is empty only for `[]` and `[""]`. */
  lemma JoinEmpty(parts: seq<string>, sep: string)
    requires sep != []
    ensures Join(parts, sep) == [] <==> parts == [] || parts == [[]]
  {
    if |parts| >= 2 {
      assert |Join(parts, sep)| >= |sep|;
    }
  }

  // ---------------------------------------------------------------- str(int), int(str)

  predicate IsDigit(c: char) {
    '0' <= c <= '9'
  }

  predicate AllDigits(s: string) {
    forall k :: 0 <= k < |s| ==> IsDigit(s[k])
  }

  function DigitChar(d: nat): (c: char)
    requires d < 10
    ensures IsDigit(c) && c as int - '0' as int == d
  {
    ('0' as int + d) as char
  }

  /** The decimal digits of `n`, most significant first, without leading zeros. */
  function Digits(n: nat): (s: string)
    ensures s != [] && AllDigits(s)
    decreases n
  {
    if n < 10 then [DigitChar(n)] else Digits(n / 10) + [DigitChar(n % 10)]
  }

  /** `str(n)`. */
  function DecimalString(n: int): (s: string)
    ensures s != []
  {
    if n < 0 then "-" + Digits(-n) else Digits(n)
  }

  /** The value of a string of decimal digits. */
  function DigitsValue(s: string): nat
    requires AllDigits(s)
    decreases |s|
  {
    if s == [] then 0 else DigitsValue(s[..|s| - 1]) * 10 + (s[|s| - 1] as int - '0' as int)
  }

  /** `int(s)` on a string of digits with an optional leading `-`; `None`
      stands for every other form, which `str(n)` never produces. */
  function ParseInt(s: string): Option<int> {
    if |s| > 1 && s[0] == '-' && AllDigits(s[1..]) then Some(-(DigitsValue(s[1..]) as int))
    else if s != [] && AllDigits(s) then Some(DigitsValue(s))
    else None
  }

  lemma {:induction false} DigitsRoundTrip(n: nat)
    ensures DigitsValue(Digits(n)) == n
    decreases n
  {
    if n >= 10 {
      DigitsRoundTrip(n / 10);
      var s := Digits(n);
      assert s[..|s| - 1] == Digits(n / 10);
    }
  }

  /** `int(str(n)) == n`. */
  lemma DecimalRoundTrip(n: int)
    ensures ParseInt(DecimalString(n)) == Some(n)
  {
    if n < 0 {
      DigitsRoundTrip(-n);
      assert DecimalString(n)[1..] == Digits(-n);
    } else {
      DigitsRoundTrip(n);
    }
  }

  /** Different integers have different decimal strings. */
  lemma DecimalStringInjective(m: int, n: int)
    ensures DecimalString(m) == DecimalString(n) ==> m == n
  {
    DecimalRoundTrip(m);
    DecimalRoundTrip(n);
  }
}
