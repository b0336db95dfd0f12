/** String operations the classifier and the page shaping use, each written to
    behave as the Python built-in or regular expression it stands for. Only
    ASCII letters are case-mapped and only ASCII digits count as digits. */
module Text {
  import opened Wrappers

  // ---------------------------------------------------------------------------
  // Characters and case

  predicate IsDigit(c: char) { '0' <= c <= '9' }

  predicate IsLower(c: char) { 'a' <= c <= 'z' }

  predicate AllDigits(d: string) { forall j :: 0 <= j < |d| ==> IsDigit(d[j]) }

  function UpperChar(c: char): char {
    if IsLower(c) then (c as int - 32) as char else c
  }

  /** Python's `s.upper()`, restricted to the ASCII letters. */
  function Upper(s: string): (r: string)
    ensures |r| == |s|
    ensures forall i :: 0 <= i < |r| ==> !IsLower(r[i])
    ensures forall i :: 0 <= i < |s| && !IsLower(s[i]) ==> r[i] == s[i]
    ensures forall i :: 0 <= i < |s| && IsLower(s[i]) ==> r[i] as int == s[i] as int - 32
  {
    seq(|s|, i requires 0 <= i < |s| => UpperChar(s[i]))
  }

  /** Upper-casing twice is upper-casing once. */
  lemma {:induction false} UpperIdempotent(s: string)
    ensures Upper(Upper(s)) == Upper(s)
  {
  }

  // ---------------------------------------------------------------------------
  // Substring search

  /** `t[j..]` occurs in `s` at position `i + j`, compared character by character. */
  predicate MatchesAt(s: string, t: string, i: nat, j: nat)
    decreases |t| - j
  {
    j >= |t| || (i + j < |s| && s[i + j] == t[j] && MatchesAt(s, t, i, j + 1))
  }

  /** `t` occurs in `s` at some position `i` or later. */
  predicate OccursFrom(s: string, t: string, i: nat)
    decreases |s| - i
  {
    i + |t| <= |s| && (MatchesAt(s, t, i, 0) || OccursFrom(s, t, i + 1))
  }

  /** Python's `t in s`, which the source writes `s.__contains__(t)`. */
  predicate Contains(s: string, t: string) {
    OccursFrom(s, t, 0)
  }

  lemma {:induction false} MatchesAtIsSlice(s: string, t: string, i: nat, j: nat)
    requires i + |t| <= |s| && j <= |t|
    ensures MatchesAt(s, t, i, j) <==> s[i + j..i + |t|] == t[j..]
    decreases |t| - j
  {
    if j < |t| {
      MatchesAtIsSlice(s, t, i, j + 1);
      assert s[i + j..i + |t|] == [s[i + j]] + s[i + j + 1..i + |t|];
      assert t[j..] == [t[j]] + t[j + 1..];
    }
  }

  /** `t` occurs in `s` at position `k`. */
  ghost predicate SliceAt(s: string, t: string, k: nat) {
    k + |t| <= |s| && s[k..k + |t|] == t
  }

  lemma {:induction false} OccursFromIsSlice(s: string, t: string, i: nat)
    ensures OccursFrom(s, t, i) <==> exists k :: i <= k && SliceAt(s, t, k)
    decreases |s| - i
  {
    if i + |t| <= |s| {
      MatchesAtIsSlice(s, t, i, 0);
      OccursFromIsSlice(s, t, i + 1);
      assert t[0..] == t;
      assert MatchesAt(s, t, i, 0) <==> SliceAt(s, t, i);
      if exists k :: i <= k && SliceAt(s, t, k) {
        var k :| i <= k && SliceAt(s, t, k);
        if k > i {
          assert i + 1 <= k && SliceAt(s, t, k);
        }
      }
    } else {
      forall k | i <= k
        ensures !SliceAt(s, t, k)
      {
      }
    }
  }

  /** The character-by-character search finds exactly the substrings of `s`. */
  lemma {:induction false} ContainsIsSubstring(s: string, t: string)
    ensures Contains(s, t) <==> exists k :: SliceAt(s, t, k)
  {
    OccursFromIsSlice(s, t, 0);
  }

  // ---------------------------------------------------------------------------
  // Digit runs and decimal numbers

  /** Number of digits at the start of `s`, at most `max`: a greedy `\d{0,max}`. */
  function LeadingDigits(s: string, max: nat): (k: nat)
    ensures k <= max && k <= |s|
    ensures forall j :: 0 <= j < k ==> IsDigit(s[j])
    ensures k < max && k < |s| ==> !IsDigit(s[k])
  {
    if max == 0 || |s| == 0 || !IsDigit(s[0]) then 0 else 1 + LeadingDigits(s[1..], max - 1)
  }

  /** Position of the first digit of `s`. */
  function FirstDigitIndex(s: string): (r: Option<nat>)
    ensures r.Some? ==> r.value < |s|
  {
    if |s| == 0 then None
    else if IsDigit(s[0]) then Some(0)
    else
      match FirstDigitIndex(s[1..])
      case None => None
      case Some(i) => Some(i + 1)
  }

  /** The position found holds a digit and none comes before it. */
  lemma {:induction false} FirstDigitIndexFinds(s: string)
    ensures FirstDigitIndex(s).None? ==> forall j :: 0 <= j < |s| ==> !IsDigit(s[j])
    ensures FirstDigitIndex(s).Some? ==> IsDigit(s[FirstDigitIndex(s).value])
    ensures FirstDigitIndex(s).Some? ==> forall j :: 0 <= j < FirstDigitIndex(s).value ==> !IsDigit(s[j])
    decreases |s|
  {
    if |s| > 0 && !IsDigit(s[0]) {
      FirstDigitIndexFinds(s[1..]);
    }
  }

  /** `d` is the leftmost maximal run of digits in `s`, and it starts at `i`. */
  ghost predicate IsFirstDigitRun(s: string, i: nat, d: string) {
    && |d| > 0 && AllDigits(d)
    && i + |d| <= |s| && s[i..i + |d|] == d
    && (forall j :: 0 <= j < i ==> !IsDigit(s[j]))
    && (i + |d| == |s| || !IsDigit(s[i + |d|]))
  }

  /** The first element of Python's `re.findall(r"(\d+)", s)`, or None when the list is empty. */
  function FirstDigitRun(s: string): (r: Option<string>)
  {
    match FirstDigitIndex(s)
    case None => None
    case Some(i) => Some(s[i..i + LeadingDigits(s[i..], |s| - i)])
  }

  /** A run is found exactly when `s` holds a digit, and it is the leftmost maximal one. */
  lemma {:induction false} FirstDigitRunIs(s: string)
    ensures FirstDigitRun(s).None? <==> forall j :: 0 <= j < |s| ==> !IsDigit(s[j])
    ensures FirstDigitRun(s).Some? ==> |FirstDigitRun(s).value| > 0 && AllDigits(FirstDigitRun(s).value)
    ensures FirstDigitRun(s).Some? ==> exists i :: IsFirstDigitRun(s, i, FirstDigitRun(s).value)
  {
    FirstDigitIndexFinds(s);
    match FirstDigitIndex(s)
    case None =>
    case Some(i) =>
      var n := LeadingDigits(s[i..], |s| - i);
      assert s[i..][..n] == s[i..i + n];
      assert IsFirstDigitRun(s, i, s[i..i + n]);
  }

  function DigitValue(c: char): nat
    requires IsDigit(c)
  {
    c as int - '0' as int
  }

  function DigitChar(n: nat): (c: char)
    requires n < 10
    ensures IsDigit(c) && DigitValue(c) == n
  {
    ('0' as int + n) as char
  }

  /** Python's `int(d)` on a string of ASCII digits. */
  function DecimalValue(d: string): nat
    requires AllDigits(d)
    decreases |d|
  {
    if |d| == 0 then 0 else 10 * DecimalValue(d[..|d| - 1]) + DigitValue(d[|d| - 1])
  }

  /** Python's `str(n)` for a natural number: digits without a leading zero. */
  function Decimal(n: nat): (r: string)
    ensures |r| >= 1 && AllDigits(r)
    ensures |r| > 1 ==> r[0] != '0'
    decreases n
  {
    if n < 10 then [DigitChar(n)] else Decimal(n / 10) + [DigitChar(n % 10)]
  }

  /** Reading back a rendered number gives the number. */
  lemma {:induction false} DecimalRoundTrip(n: nat)
    ensures DecimalValue(Decimal(n)) == n
    decreases n
  {
    if n >= 10 {
      DecimalRoundTrip(n / 10);
      var r := Decimal(n);
      assert r[..|r| - 1] == Decimal(n / 10);
    }
  }

  /** Python's `str(n)` for any integer. */
  function IntText(n: int): (r: string)
    ensures |r| >= 1
    ensures n < 0 <==> r[0] == '-'
  {
    if n < 0 then "-" + Decimal(-n) else Decimal(n)
  }

  // ---------------------------------------------------------------------------
  // Removing and splitting

  /** Position of the first `c` in `s`. */
  function IndexOf(s: string, c: char): (r: Option<nat>)
    ensures r.Some? ==> r.value < |s|
  {
    if |s| == 0 then None
    else if s[0] == c then Some(0)
    else
      match IndexOf(s[1..], c)
      case None => None
      case Some(i) => Some(i + 1)
  }

  /** The position found holds `c` and none comes before it; none is found only when `s` has no `c`. */
  lemma {:induction false} IndexOfFinds(s: string, c: char)
    ensures IndexOf(s, c).None? <==> c !in s
    ensures IndexOf(s, c).Some? ==> s[IndexOf(s, c).value] == c && c !in s[..IndexOf(s, c).value]
    decreases |s|
  {
    if |s| > 0 && s[0] != c {
      IndexOfFinds(s[1..], c);
      assert s == [s[0]] + s[1..];
      if IndexOf(s[1..], c).Some? {
        var i := IndexOf(s[1..], c).value;
        assert s[..i + 1] == [s[0]] + s[1..][..i];
      }
    }
  }

  /** Python's `s.replace(c, "", 1)`: the first `c` is deleted, everything else kept in order. */
  function RemoveFirst(s: string, c: char): (r: string)
    ensures c !in s ==> r == s
    ensures c in s ==> |r| == |s| - 1
  {
    IndexOfFinds(s, c);
    match IndexOf(s, c)
    case None => s
    case Some(i) => s[..i] + s[i + 1..]
  }

  /** The character deleted is the first `c`, and the rest keeps its order;
      one `c` fewer and nothing else changes in the count of characters. */
  lemma {:induction false} RemoveFirstDeletesFirst(s: string, c: char)
    requires c in s
    ensures exists i :: 0 <= i < |s| && s[i] == c && c !in s[..i] && RemoveFirst(s, c) == s[..i] + s[i + 1..]
    ensures multiset(RemoveFirst(s, c)) + multiset{c} == multiset(s)
  {
    IndexOfFinds(s, c);
    var i := IndexOf(s, c).value;
    assert RemoveFirst(s, c) == s[..i] + s[i + 1..];
    assert s == s[..i] + [s[i]] + s[i + 1..];
  }

  /** `[sep].join(parts)`. */
  function Join(parts: seq<string>, sep: char): string
    decreases |parts|
  {
    if |parts| == 0 then ""
    else if |parts| == 1 then parts[0]
    else parts[0] + [sep] + Join(parts[1..], sep)
  }

  /** Python's `s.split(sep)` for a one-character separator: never empty, and
      no part holds the separator. */
  function Split(s: string, sep: char): (parts: seq<string>)
    ensures |parts| >= 1
    ensures forall k :: 0 <= k < |parts| ==> sep !in parts[k]
    decreases |s|
  {
    if |s| == 0 then [""]
    else
      var rest := Split(s[1..], sep);
      if s[0] == sep then [""] + rest
      else [[s[0]] + rest[0]] + rest[1..]
  }

  /** Joining the parts gives `s` back. */
  lemma {:induction false} JoinSplit(s: string, sep: char)
    ensures Join(Split(s, sep), sep) == s
    decreases |s|
  {
    if |s| > 0 {
      var rest := Split(s[1..], sep);
      JoinSplit(s[1..], sep);
      assert s == [s[0]] + s[1..];
      if s[0] != sep {
        var parts := [[s[0]] + rest[0]] + rest[1..];
        assert parts[1..] == rest[1..];
      }
    }
  }

  lemma {:induction false} SplitWithoutSeparator(w: string, sep: char)
    requires sep !in w
    ensures Split(w, sep) == [w]
    decreases |w|
  {
    if |w| > 0 {
      SplitWithoutSeparator(w[1..], sep);
      assert [w[0]] + w[1..] == w;
    }
  }

  lemma {:induction false} SplitAfterPart(w: string, sep: char, rest: string)
    requires sep !in w
    ensures Split(w + [sep] + rest, sep) == [w] + Split(rest, sep)
    decreases |w|
  {
    var s := w + [sep] + rest;
    if |w| == 0 {
      assert s == [sep] + rest;
      assert s[1..] == rest;
    } else {
      assert s[1..] == w[1..] + [sep] + rest;
      SplitAfterPart(w[1..], sep, rest);
      assert [w[0]] + w[1..] == w;
    }
  }

  /** Splitting undoes joining, when no part holds the separator. */
  lemma {:induction false} SplitJoin(parts: seq<string>, sep: char)
    requires |parts| >= 1
    requires forall k :: 0 <= k < |parts| ==> sep !in parts[k]
    ensures Split(Join(parts, sep), sep) == parts
    decreases |parts|
  {
    if |parts| == 1 {
      SplitWithoutSeparator(parts[0], sep);
    } else {
      SplitJoin(parts[1..], sep);
      SplitAfterPart(parts[0], sep, Join(parts[1..], sep));
      assert [parts[0]] + parts[1..] == parts;
    }
  }

  // ---------------------------------------------------------------------------
  // The date pattern of the amount parser

  /** `TH`, `ND` or `ST`, the suffixes of an ordinal day number. */
  predicate OrdinalSuffix(c: char, d: char) {
    (c == 'T' && d == 'H') || (c == 'N' && d == 'D') || (c == 'S' && d == 'T')
  }

  /** Number of digits of `s` from position `i` on, at most `max`: a greedy
      `\d{0,max}` at `i`. */
  function DigitsFrom(s: string, i: nat, max: nat): (k: nat)
    requires i <= |s|
    ensures k <= max && i + k <= |s|
    decreases max
  {
    if max == 0 || i == |s| || !IsDigit(s[i]) then 0 else 1 + DigitsFrom(s, i + 1, max - 1)
  }

  /** A greedy `\d{0,max}` at `i` takes exactly `n` digits when they stop at
      `max` or before a non-digit. */
  lemma {:induction false} DigitsFromIs(s: string, i: nat, n: nat, max: nat)
    requires i + n <= |s| && n <= max
    requires forall j :: i <= j < i + n ==> IsDigit(s[j])
    requires n == max || i + n == |s| || !IsDigit(s[i + n])
    ensures DigitsFrom(s, i, max) == n
    decreases n
  {
    if n > 0 {
      assert IsDigit(s[i]);
      DigitsFromIs(s, i + 1, n - 1, max - 1);
    }
  }

  /** Length of the match of `\d{1,2}/\d{1,2}/?\d{0,4}|\d{1,2}TH|\d{1,2}ND|\d{1,2}ST`
      at the start of `s`, as Python's backtracking matcher finds it: alternatives
      are tried in order, every quantifier is greedy, and the first success is kept. */
  function DateMatch(s: string): (r: Option<nat>)
    ensures r.Some? ==> 2 <= r.value <= |s| && IsDigit(s[0])
  {
    var a := DigitsFrom(s, 0, 2);
    if a == 0 then None
    else if a < |s| && s[a] == '/' && DigitsFrom(s, a + 1, 2) > 0 then
      var j := a + 1 + DigitsFrom(s, a + 1, 2);
      var k := if j < |s| && s[j] == '/' then j + 1 else j;
      Some(k + DigitsFrom(s, k, 4))
    else if a + 2 <= |s| && OrdinalSuffix(s[a], s[a + 1]) then Some(a + 2)
    else None
  }

  /** The slash alternative read off a text: `a` day digits, a slash, `b`
      month digits, then no second slash and `y` year digits. */
  lemma {:induction false} DateMatchSlash(s: string, a: nat, b: nat, y: nat)
    requires 0 < a == DigitsFrom(s, 0, 2) && a < |s| && s[a] == '/'
    requires 0 < b == DigitsFrom(s, a + 1, 2)
    requires a + 1 + b == |s| || s[a + 1 + b] != '/'
    requires y == DigitsFrom(s, a + 1 + b, 4)
    ensures DateMatch(s) == Some(a + 1 + b + y)
  {
  }

  /** The same with a second slash before the `y` year digits. */
  lemma {:induction false} DateMatchSlashYear(s: string, a: nat, b: nat, y: nat)
    requires 0 < a == DigitsFrom(s, 0, 2) && a < |s| && s[a] == '/'
    requires 0 < b == DigitsFrom(s, a + 1, 2)
    requires a + 1 + b < |s| && s[a + 1 + b] == '/'
    requires y == DigitsFrom(s, a + 2 + b, 4)
    ensures DateMatch(s) == Some(a + 2 + b + y)
  {
  }

  /** Where the day, the slash and the month of `d1/d2<rest>` fall. */
  lemma {:induction false} DayMonthLayout(s: string, d1: string, d2: string, rest: string)
    requires s == d1 + "/" + d2 + rest
    requires 1 <= |d1| <= 2 && AllDigits(d1)
    requires 1 <= |d2| <= 2 && AllDigits(d2)
    requires |d2| == 2 || |rest| == 0 || !IsDigit(rest[0])
    ensures DigitsFrom(s, 0, 2) == |d1| && s[|d1|] == '/'
    ensures DigitsFrom(s, |d1| + 1, 2) == |d2|
    ensures s[|d1| + 1 + |d2|..] == rest
  {
    var a, j := |d1|, |d1| + 1 + |d2|;
    forall m | 0 <= m < a ensures IsDigit(s[m]) {
      assert s[m] == d1[m];
    }
    DigitsFromIs(s, 0, a, 2);
    assert s[a] == '/';
    forall m | a + 1 <= m < j ensures IsDigit(s[m]) {
      assert s[m] == d2[m - a - 1];
    }
    if j < |s| {
      assert s[j] == rest[0];
    }
    DigitsFromIs(s, a + 1, |d2|, 2);
  }

  /** After the month: a slash, then `t`, whose digits are the year's. */
  lemma {:induction false} TailLayout(s: string, j: nat, t: string)
    requires j <= |s| && s[j..] == "/" + t
    ensures j < |s| && s[j] == '/'
    ensures DigitsFrom(s, j + 1, 4) == DigitsFrom(t, 0, 4)
  {
    assert s[j] == s[j..][0];
    assert s[j + 1..] == t;
    DigitsFromShift(s, j + 1, 4);
  }

  /** Counting digits at `i` is counting them at the start of `s[i..]`. */
  lemma {:induction false} DigitsFromShift(s: string, i: nat, max: nat)
    requires i <= |s|
    ensures DigitsFrom(s, i, max) == DigitsFrom(s[i..], 0, max)
    decreases max
  {
    if max > 0 && i < |s| {
      assert s[i..][0] == s[i];
      DigitsFromShift(s, i + 1, max - 1);
      DigitsFromShift(s[i..], 1, max - 1);
      assert s[i..][1..] == s[i + 1..];
    }
  }

  /** After the month, neither a digit nor a slash: no year. */
  lemma {:induction false} NoYearLayout(s: string, j: nat, rest: string)
    requires j <= |s| && s[j..] == rest
    requires |rest| == 0 || (!IsDigit(rest[0]) && rest[0] != '/')
    ensures j == |s| || s[j] != '/'
    ensures DigitsFrom(s, j, 4) == 0
  {
    if j < |s| {
      assert s[j] == s[j..][0];
    }
    DigitsFromIs(s, j, 0, 4);
  }

  /** `D/D` and `DD/DD`-style dates without a year: the match is the day, the
      slash and the month, when nothing date-like follows. */
  lemma {:induction false} DateMatchDayMonth(d1: string, d2: string, rest: string)
    requires 1 <= |d1| <= 2 && AllDigits(d1)
    requires 1 <= |d2| <= 2 && AllDigits(d2)
    requires |rest| == 0 || (!IsDigit(rest[0]) && rest[0] != '/')
    ensures DateMatch(d1 + "/" + d2 + rest) == Some(|d1| + 1 + |d2|)
  {
    var s := d1 + "/" + d2 + rest;
    var j := |d1| + 1 + |d2|;
    DayMonthLayout(s, d1, d2, rest);
    NoYearLayout(s, j, rest);
    DateMatchSlash(s, |d1|, |d2|, 0);
  }

  /** Dates with a second slash: the match runs through the slash and the
      year digits at the start of what follows, at most four of them. */
  lemma {:induction false} DateMatchSecondSlash(d1: string, d2: string, t: string)
    requires 1 <= |d1| <= 2 && AllDigits(d1)
    requires 1 <= |d2| <= 2 && AllDigits(d2)
    ensures DateMatch(d1 + "/" + d2 + ("/" + t)) == Some(|d1| + |d2| + 2 + DigitsFrom(t, 0, 4))
  {
    var s := d1 + "/" + d2 + ("/" + t);
    var j := |d1| + 1 + |d2|;
    assert DigitsFrom(s, 0, 2) == |d1| && s[|d1|] == '/' && DigitsFrom(s, |d1| + 1, 2) == |d2|
      && j < |s| && s[j] == '/' && DigitsFrom(s, j + 1, 4) == DigitsFrom(t, 0, 4) by {
      DayMonthLayout(s, d1, d2, "/" + t);
      TailLayout(s, j, t);
    }
    DateMatchSlashYear(s, |d1|, |d2|, DigitsFrom(t, 0, 4));
  }

  /** The same with the year spelt out: 0 to 4 year digits, which stop at
      four or before a non-digit. */
  lemma {:induction false} DateMatchWithYear(d1: string, d2: string, y: string, rest: string)
    requires 1 <= |d1| <= 2 && AllDigits(d1)
    requires 1 <= |d2| <= 2 && AllDigits(d2)
    requires |y| <= 4 && AllDigits(y)
    requires |y| == 4 || |rest| == 0 || !IsDigit(rest[0])
    ensures DateMatch(d1 + "/" + d2 + ("/" + (y + rest))) == Some(|d1| + |d2| + 2 + |y|)
  {
    DateMatchSecondSlash(d1, d2, y + rest);
    forall m | 0 <= m < |y| ensures IsDigit((y + rest)[m]) {
      assert (y + rest)[m] == y[m];
    }
    if |y| < |y + rest| {
      assert (y + rest)[|y|] == rest[0];
    }
    DigitsFromIs(y + rest, 0, |y|, 4);
  }

  /** Ordinal day numbers: one or two digits followed by `TH`, `ND` or `ST`
      match together with the suffix. */
  lemma {:induction false} DateMatchOrdinal(d: string, suffix: string, rest: string)
    requires 1 <= |d| <= 2 && AllDigits(d)
    requires suffix in ["TH", "ND", "ST"]
    ensures DateMatch(d + suffix + rest) == Some(|d| + 2)
  {
    var s := d + suffix + rest;
    forall m | 0 <= m < |d| ensures IsDigit(s[m]) {
      assert s[m] == d[m];
    }
    assert s[|d|] == suffix[0] && s[|d| + 1] == suffix[1];
    DigitsFromIs(s, 0, |d|, 2);
  }

  /** A three-digit number before an ordinal suffix is no date at its first
      digit: that digit is kept, and the date is matched from the next one. */
  lemma {:induction false} StripDatesThreeDigitOrdinal(c: char, d: string, suffix: string, rest: string)
    requires IsDigit(c) && |d| == 2 && AllDigits(d)
    requires suffix in ["TH", "ND", "ST"]
    ensures StripDates([c] + d + suffix + rest) == [c] + StripDates(rest)
  {
    var s := [c] + d + suffix + rest;
    assert s[0] == c && s[1] == d[0] && s[2] == d[1] && s[3] == suffix[0];
    DigitsFromIs(s, 0, 2, 2);
    assert DateMatch(s).None?;
    assert s[1..] == d + suffix + rest;
    DateMatchOrdinal(d, suffix, rest);
    assert (d + suffix + rest)[|d| + 2..] == rest;
  }

  /** Python's `re.sub(<date pattern>, "", s)`: scans left to right, deletes each
      match and resumes after it. The pattern looks at no character before the
      match, so scanning the suffix from its start is the same as scanning `s`
      from that position. */
  function StripDates(s: string): (r: string)
    ensures |r| <= |s|
    decreases |s|
  {
    if |s| == 0 then ""
    else
      match DateMatch(s)
      case Some(n) => StripDates(s[n..])
      case None => [s[0]] + StripDates(s[1..])
  }

  /** A text without digits holds no date and comes back unchanged. */
  lemma {:induction false} StripDatesWithoutDigits(s: string)
    requires forall i :: 0 <= i < |s| ==> !IsDigit(s[i])
    ensures StripDates(s) == s
    decreases |s|
  {
    if |s| > 0 {
      StripDatesWithoutDigits(s[1..]);
      StripDatesKeepsNonDigit(s);
      assert s == [s[0]] + s[1..];
    }
  }

  /** A non-digit never starts a date, so it is kept. */
  lemma {:induction false} StripDatesKeepsNonDigit(s: string)
    requires |s| > 0 && !IsDigit(s[0])
    ensures StripDates(s) == [s[0]] + StripDates(s[1..])
  {
    assert DateMatch(s).None?;
  }
}
