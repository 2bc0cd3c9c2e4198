/**
 * Finding the origin AS number in `whois` output (getASNumberByWhois in
 * main.go): the leftmost match of the regular expression
 * `OriginAS:\s+AS(\d+)`, whose digit group is then converted by
 * `strconv.Atoi`. Only this one pattern is modelled, by a dedicated matcher.
 */
module OriginAS {
  import opened Wrappers

  const Label: string := "OriginAS:"
  const Tag: string := "AS"

  /** The range of Go's `int` on a 64-bit platform. */
  const MinInt: int := -0x8000_0000_0000_0000
  const MaxInt: int := 0x7FFF_FFFF_FFFF_FFFF

  /** Why no AS number came out of a `whois` answer. */
  datatype LookupError =
    | WhoisFailed   // the `whois` command could not be run or exited with an error
    | NotFound      // the answer holds no match of the pattern
    | NotAnInt      // the matched digits do not fit in an int

  /** RE2's `\s`, which is `[\t\n\f\r ]` (no vertical tab). */
  predicate IsRegexSpace(c: char) {
    c == '\t' || c == '\n' || c == '\U{0C}' || c == '\r' || c == ' '
  }

  /** RE2's `\d`, the ASCII digits. */
  predicate IsDigit(c: char) {
    '0' <= c <= '9'
  }

  predicate AllRegexSpace(s: string) {
    forall k :: 0 <= k < |s| ==> IsRegexSpace(s[k])
  }

  predicate AllDigits(s: string) {
    forall k :: 0 <= k < |s| ==> IsDigit(s[k])
  }

  /**
   * The text starting at position `i` of `s` begins with a string the pattern
   * matches, `ws` being the text of `\s+` and `ds` that of the group `(\d+)`.
   */
  predicate Occurrence(s: string, i: nat, ws: string, ds: string) {
    |ws| >= 1 && AllRegexSpace(ws) && |ds| >= 1 && AllDigits(ds) &&
    i + |Label| + |ws| + |Tag| + |ds| <= |s| &&
    s[i..i + |Label| + |ws| + |Tag| + |ds|] == Label + ws + Tag + ds
  }

  /**
   * The occurrence the regular expression reports at `i`: `\d+` is greedy, so
   * the group takes every digit there is.
   */
  predicate GreedyOccurrence(s: string, i: nat, ws: string, ds: string) {
    Occurrence(s, i, ws, ds) &&
    var end := i + |Label| + |ws| + |Tag| + |ds|;
    end == |s| || !IsDigit(s[end])
  }

  /** The length of the longest run of `\s` characters starting at `j`. */
  function SpaceRun(s: string, j: nat): (n: nat)
    requires j <= |s|
    ensures j + n <= |s|
    ensures forall k :: j <= k < j + n ==> IsRegexSpace(s[k])
    ensures j + n == |s| || !IsRegexSpace(s[j + n])
    decreases |s| - j
  {
    if j < |s| && IsRegexSpace(s[j]) then 1 + SpaceRun(s, j + 1) else 0
  }

  /** The length of the longest run of digits starting at `j`. */
  function DigitRun(s: string, j: nat): (n: nat)
    requires j <= |s|
    ensures j + n <= |s|
    ensures forall k :: j <= k < j + n ==> IsDigit(s[k])
    ensures j + n == |s| || !IsDigit(s[j + n])
    decreases |s| - j
  {
    if j < |s| && IsDigit(s[j]) then 1 + DigitRun(s, j + 1) else 0
  }

  /** The digit group of the pattern's match starting exactly at `i`, if any. */
  function MatchAt(s: string, i: nat): Option<string> {
    if i + |Label| <= |s| && s[i..i + |Label|] == Label then
      var j := i + |Label|;
      var w := SpaceRun(s, j);
      var k := j + w;
      if w >= 1 && k + |Tag| <= |s| && s[k..k + |Tag|] == Tag then
        var d := DigitRun(s, k + |Tag|);
        if d >= 1 then Some(s[k + |Tag|..k + |Tag| + d]) else None
      else None
    else None
  }

  /** What MatchAt reports is an occurrence of the pattern, with all its digits. */
  lemma MatchAtSound(s: string, i: nat)
    requires MatchAt(s, i).Some?
    ensures exists ws :: GreedyOccurrence(s, i, ws, MatchAt(s, i).value)
  {
    var j := i + |Label|;
    var k := j + SpaceRun(s, j);
    var a := k + |Tag|;
    var e := a + DigitRun(s, a);
    var ws, ds := s[j..k], s[a..e];
    assert MatchAt(s, i).value == ds;
    forall t | 0 <= t < |ws| ensures IsRegexSpace(ws[t]) {
      assert ws[t] == s[j + t];
    }
    forall t | 0 <= t < |ds| ensures IsDigit(ds[t]) {
      assert ds[t] == s[a + t];
    }
    OccurrenceFromParts(s, i, ws, ds);
    assert e == |s| || !IsDigit(s[e]);
    assert GreedyOccurrence(s, i, ws, ds);
  }

  /** The converse of OccurrenceParts: the pieces in place make an occurrence. */
  lemma OccurrenceFromParts(s: string, i: nat, ws: string, ds: string)
    requires |ws| >= 1 && AllRegexSpace(ws) && |ds| >= 1 && AllDigits(ds)
    requires i + |Label| + |ws| + |Tag| + |ds| <= |s|
    requires s[i..i + |Label|] == Label
    requires s[i + |Label|..i + |Label| + |ws|] == ws
    requires s[i + |Label| + |ws|..i + |Label| + |ws| + |Tag|] == Tag
    requires s[i + |Label| + |ws| + |Tag|..i + |Label| + |ws| + |Tag| + |ds|] == ds
    ensures Occurrence(s, i, ws, ds)
  {
    var j := i + |Label|;
    var k := j + |ws|;
    var a := k + |Tag|;
    var e := a + |ds|;
    assert s[i..e] == s[i..j] + s[j..k] + s[k..a] + s[a..e];
  }

  /**
   * Every occurrence of the pattern at `i` is found by MatchAt, whose group
   * extends the occurrence's digits and equals them when they are greedy.
   */
  lemma MatchAtComplete(s: string, i: nat, ws: string, ds: string)
    requires Occurrence(s, i, ws, ds)
    ensures MatchAt(s, i).Some?
    ensures ds <= MatchAt(s, i).value
    ensures GreedyOccurrence(s, i, ws, ds) ==> MatchAt(s, i).value == ds
  {
    var j := i + |Label|;
    var k := j + |ws|;
    OccurrenceParts(s, i, ws, ds);
    SpaceRunIs(s, j, |ws|);
    DigitRunAtLeast(s, k + |Tag|, |ds|);
    var d := DigitRun(s, k + |Tag|);
    assert MatchAt(s, i) == Some(s[k + |Tag|..k + |Tag| + d]);
    var a := k + |Tag|;
    assert d >= |ds|;
    assert s[a..a + d][..|ds|] == s[a..a + |ds|];
  }

  /** An occurrence, read off piece by piece from the text. */
  lemma OccurrenceParts(s: string, i: nat, ws: string, ds: string)
    requires Occurrence(s, i, ws, ds)
    ensures s[i..i + |Label|] == Label
    ensures forall t :: i + |Label| <= t < i + |Label| + |ws| ==> IsRegexSpace(s[t])
    ensures s[i + |Label| + |ws|] == 'A'
    ensures s[i + |Label| + |ws|..i + |Label| + |ws| + |Tag|] == Tag
    ensures forall t :: i + |Label| + |ws| + |Tag| <= t < i + |Label| + |ws| + |Tag| + |ds| ==> IsDigit(s[t])
    ensures s[i + |Label| + |ws| + |Tag|..i + |Label| + |ws| + |Tag| + |ds|] == ds
  {
    var j := i + |Label|;
    var k := j + |ws|;
    var e := k + |Tag| + |ds|;
    var m := s[i..e];
    assert m == Label + ws + Tag + ds;
    assert s[i..j] == m[..|Label|];
    assert s[k] == m[k - i] == 'A' && s[k + 1] == m[k - i + 1] == 'S';
    assert s[k..k + |Tag|] == Tag;
    assert s[k + |Tag|..e] == m[k - i + |Tag|..];
    forall t | j <= t < k ensures IsRegexSpace(s[t]) {
      assert s[t] == m[t - i] == ws[t - j];
    }
    forall t | k + |Tag| <= t < e ensures IsDigit(s[t]) {
      assert s[t] == m[t - i] == ds[t - k - |Tag|];
    }
  }

  /** A run of `\s` that ends before a non-space is the whole run. */
  lemma {:induction false} SpaceRunIs(s: string, j: nat, n: nat)
    requires j + n < |s|
    requires forall t :: j <= t < j + n ==> IsRegexSpace(s[t])
    requires !IsRegexSpace(s[j + n])
    ensures SpaceRun(s, j) == n
    decreases n
  {
    if n > 0 {
      SpaceRunIs(s, j + 1, n - 1);
    }
  }

  /** A run of `n` digits at `j` makes the longest digit run there at least `n` long. */
  lemma {:induction false} DigitRunAtLeast(s: string, j: nat, n: nat)
    requires j + n <= |s|
    requires forall t :: j <= t < j + n ==> IsDigit(s[t])
    ensures DigitRun(s, j) >= n
    decreases n
  {
    if n > 0 {
      DigitRunAtLeast(s, j + 1, n - 1);
    }
  }

  /**
   * The leftmost match at or after position `i`, as Go's regexp reports it:
   * its position and its digit group.
   */
  function FindFrom(s: string, i: nat): (r: Option<(nat, string)>)
    requires i <= |s|
    ensures r.Some? ==> i <= r.value.0 <= |s| && MatchAt(s, r.value.0) == Some(r.value.1)
    ensures forall j :: i <= j <= |s| && (r.None? || j < r.value.0) ==> MatchAt(s, j).None?
    decreases |s| - i
  {
    match MatchAt(s, i)
    case Some(ds) => Some((i, ds))
    case None => if i == |s| then None else FindFrom(s, i + 1)
  }

  /** Go's `strconv.Atoi` on a 64-bit platform: optional sign, decimal digits, range check. */
  function Atoi(s: string): Option<int> {
    if |s| == 0 then None
    else
      var body := if s[0] == '+' || s[0] == '-' then s[1..] else s;
      if |body| == 0 || !AllDigits(body) then None
      else
        var v: int := if s[0] == '-' then -(DecimalValue(body) as int) else DecimalValue(body);
        if MinInt <= v <= MaxInt then Some(v) else None
  }

  function DigitValue(c: char): nat
    requires IsDigit(c)
  {
    c as int - '0' as int
  }

  /** The number a string of decimal digits denotes (most significant first). */
  function DecimalValue(ds: string): nat
    requires AllDigits(ds)
  {
    if ds == [] then 0 else 10 * DecimalValue(ds[..|ds| - 1]) + DigitValue(ds[|ds| - 1])
  }

  function Pow10(n: nat): nat {
    if n == 0 then 1 else 10 * Pow10(n - 1)
  }

  /** `n` digits denote a number below 10^n. */
  lemma {:induction false} DecimalValueBound(ds: string)
    requires AllDigits(ds)
    ensures DecimalValue(ds) < Pow10(|ds|)
  {
    if ds != [] {
      DecimalValueBound(ds[..|ds| - 1]);
    }
  }

  /** Leading zeros do not change the value. */
  lemma {:induction false} DecimalValueLeadingZero(ds: string)
    requires AllDigits(ds)
    ensures AllDigits("0" + ds) && DecimalValue("0" + ds) == DecimalValue(ds)
  {
    if ds != [] {
      var z := "0" + ds;
      assert z[..|z| - 1] == "0" + ds[..|ds| - 1];
      DecimalValueLeadingZero(ds[..|ds| - 1]);
    }
  }

  /**
   * A group of at most 18 digits always fits in an int (this covers every AS
   * number); Atoi then returns its decimal value, leading zeros and all.
   */
  lemma AtoiShortDigits(ds: string)
    requires 1 <= |ds| <= 18 && AllDigits(ds)
    ensures Atoi(ds) == Some(DecimalValue(ds) as int)
  {
    DecimalValueBound(ds);
    Pow10Monotone(|ds|, 18);
    assert Pow10(6) == 1_000_000;
    Pow10Add(6, 6);
    Pow10Add(12, 6);
  }

  lemma {:induction false} Pow10Monotone(m: nat, n: nat)
    requires m <= n
    ensures Pow10(m) <= Pow10(n)
    decreases n
  {
    if m < n {
      Pow10Monotone(m, n - 1);
    }
  }

  lemma {:induction false} Pow10Add(m: nat, n: nat)
    ensures Pow10(m + n) == Pow10(m) * Pow10(n)
    decreases m
  {
    if m > 0 {
      Pow10Add(m - 1, n);
    }
  }

  /** A digit group too large for an int makes Atoi fail. */
  lemma AtoiTooLarge(ds: string)
    requires |ds| >= 1 && AllDigits(ds) && DecimalValue(ds) > MaxInt
    ensures Atoi(ds) == None
  {
  }

  /**
   * getASNumberByWhois once `whois` has answered `text`: the leftmost match's
   * digits, converted by Atoi.
   */
  function ASNumber(text: string): Result<int, LookupError> {
    match FindFrom(text, 0)
    case None => Failure(NotFound)
    case Some((_, ds)) =>
      match Atoi(ds)
      case None => Failure(NotAnInt)
      case Some(n) => Success(n)
  }

  /** getASNumberByWhois as a whole: `whois` answers with its output, or fails. */
  function LookupAS(whoisOutput: Option<string>): Result<int, LookupError> {
    match whoisOutput
    case None => Failure(WhoisFailed)
    case Some(text) => ASNumber(text)
  }

  /**
   * The leftmost occurrence decides: whatever follows it, including further
   * `OriginAS:` lines, is ignored, and if its digits do not fit in an int the
   * lookup fails rather than trying a later occurrence.
   */
  lemma ASNumberLeftmost(text: string, p: nat, ws: string, ds: string)
    requires GreedyOccurrence(text, p, ws, ds)
    requires forall j: nat, ws', ds' :: j < p ==> !Occurrence(text, j, ws', ds')
    ensures ASNumber(text) == if Atoi(ds).Some? then Success(Atoi(ds).value) else Failure(NotAnInt)
  {
    MatchAtComplete(text, p, ws, ds);
    forall j | 0 <= j < p ensures MatchAt(text, j).None? {
      if MatchAt(text, j).Some? {
        MatchAtSound(text, j);
      }
    }
    var r := FindFrom(text, 0);
    assert r.Some? && r.value.0 == p;
  }

  /** The lookup reports NotFound exactly when the pattern occurs nowhere. */
  lemma ASNumberNotFound(text: string)
    ensures ASNumber(text) == Failure(NotFound) <==>
            forall j, ws, ds :: !Occurrence(text, j, ws, ds)
  {
    if ASNumber(text) == Failure(NotFound) {
      forall j, ws, ds ensures !Occurrence(text, j, ws, ds) {
        if Occurrence(text, j, ws, ds) {
          MatchAtComplete(text, j, ws, ds);
        }
      }
    } else {
      var r := FindFrom(text, 0);
      assert r.Some?;
      MatchAtSound(text, r.value.0);
    }
  }

  /** Every successful lookup is a non-negative number that fits in an int. */
  lemma ASNumberRange(text: string)
    ensures ASNumber(text).Success? ==> 0 <= ASNumber(text).value <= MaxInt
  {
    var r := FindFrom(text, 0);
    if r.Some? {
      MatchAtSound(text, r.value.0);
    }
  }
}
