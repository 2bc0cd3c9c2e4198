/**
 * Turning a block of text into lines, as main.go does twice with
 * `strings.Split(strings.TrimSpace(text), "\n")`: once for the domains file
 * (readDomainsFromFile) and once for the standard output of `dig +short`
 * (getIPsByDig).
 */
module Lines {

  /**
   * Go's `unicode.IsSpace`: the characters of Unicode's White_Space property.
   * This is the predicate `strings.TrimSpace` trims with.
   */
  predicate IsSpace(c: char) {
    ('\t' <= c <= '\r') || c == ' ' || c == '\U{85}' || c == '\U{A0}' ||
    c == '\U{1680}' || ('\U{2000}' <= c <= '\U{200A}') ||
    c == '\U{2028}' || c == '\U{2029}' || c == '\U{202F}' || c == '\U{205F}' ||
    c == '\U{3000}'
  }

  predicate AllSpace(s: string) {
    forall k :: 0 <= k < |s| ==> IsSpace(s[k])
  }

  /** Positions `lo` up to `hi` of `s` hold white space. */
  predicate SpaceBetween(s: string, lo: int, hi: int) {
    forall k :: lo <= k < hi && 0 <= k < |s| ==> IsSpace(s[k])
  }

  /** Drops the leading white space: what is left is a suffix of `s`. */
  function TrimLeft(s: string): (r: string)
    ensures |r| <= |s| && r == s[|s| - |r|..]
    ensures SpaceBetween(s, 0, |s| - |r|)
    ensures r == [] || !IsSpace(r[0])
  {
    if s != [] && IsSpace(s[0]) then TrimLeft(s[1..]) else s
  }

  /** Drops the trailing white space: what is left is a prefix of `s`. */
  function TrimRight(s: string): (r: string)
    ensures |r| <= |s| && r == s[..|r|]
    ensures SpaceBetween(s, |r|, |s|)
    ensures r == [] || !IsSpace(r[|r| - 1])
  {
    if s != [] && IsSpace(s[|s| - 1]) then TrimRight(s[..|s| - 1]) else s
  }

  /**
   * `strings.TrimSpace`: the part of `s` between its leading and its trailing
   * white space. It is empty exactly when `s` is all white space.
   * TrimSpaceUnique shows that these properties determine the result.
   */
  function TrimSpace(s: string): (r: string)
    ensures |r| <= |s|
    ensures r == [] || (!IsSpace(r[0]) && !IsSpace(r[|r| - 1]))
    ensures r == [] <==> AllSpace(s)
  {
    TrimRight(TrimLeft(s))
  }

  /**
   * `strings.Split(s, "\n")`: the pieces of `s` between newlines. There is
   * always one piece more than there are newlines, so the empty text gives
   * one empty piece.
   */
  function Split(s: string): (r: seq<string>)
    ensures |r| >= 1
    ensures forall i :: 0 <= i < |r| ==> '\n' !in r[i]
  {
    if s == [] then [""]
    else
      var rest := Split(s[1..]);
      if s[0] == '\n' then [""] + rest
      else [[s[0]] + rest[0]] + rest[1..]
  }

  /** `strings.Join(parts, "\n")`, the inverse of Split. */
  function Join(parts: seq<string>): string {
    if |parts| == 0 then ""
    else if |parts| == 1 then parts[0]
    else parts[0] + "\n" + Join(parts[1..])
  }

  /** The lines of a text, after trimming it (main.go, lines 44 and 58). */
  function SplitTrimmed(text: string): seq<string> {
    Split(TrimSpace(text))
  }

  function NewlineCount(s: string): nat {
    if s == [] then 0 else (if s[0] == '\n' then 1 else 0) + NewlineCount(s[1..])
  }

  /** Split makes exactly one piece more than there are newlines. */
  lemma {:induction false} SplitLength(s: string)
    ensures |Split(s)| == NewlineCount(s) + 1
  {
    if s != [] {
      SplitLength(s[1..]);
    }
  }

  /** Joining the pieces with newlines gives back the text: nothing is lost. */
  lemma {:induction false} JoinSplit(s: string)
    ensures Join(Split(s)) == s
  {
    if s != [] {
      var rest := Split(s[1..]);
      JoinSplit(s[1..]);
      if s[0] == '\n' {
        assert Split(s) == [""] + rest;
        if |rest| == 1 {
          assert Join(Split(s)) == "" + "\n" + Join(rest);
        }
        assert Join(Split(s)) == "" + "\n" + s[1..];
      } else if |rest| == 1 {
        assert Split(s) == [[s[0]] + rest[0]];
        assert Join(rest) == rest[0];
      } else {
        var parts := Split(s);
        assert parts == [[s[0]] + rest[0]] + rest[1..];
        assert parts[1..] == rest[1..];
        calc {
          Join(parts);
          ([s[0]] + rest[0]) + "\n" + Join(rest[1..]);
          [s[0]] + (rest[0] + "\n" + Join(rest[1..]));
          [s[0]] + Join(rest);
        }
        assert [s[0]] + s[1..] == s;
      }
    }
  }

  /** A text without newlines is one piece. */
  lemma {:induction false} SplitNoNewline(a: string)
    requires '\n' !in a
    ensures Split(a) == [a]
  {
    if a != [] {
      SplitNoNewline(a[1..]);
      assert [a[0]] + a[1..] == a;
    }
  }

  /** A newline-free first line comes off the front of a text as one piece. */
  lemma {:induction false} SplitFirstLine(a: string, b: string)
    requires '\n' !in a
    ensures Split(a + "\n" + b) == [a] + Split(b)
  {
    if a == [] {
      assert a + "\n" + b == "\n" + b;
      assert ("\n" + b)[1..] == b;
    } else {
      SplitFirstLine(a[1..], b);
      var s := a + "\n" + b;
      assert s[0] == a[0];
      assert s[1..] == a[1..] + "\n" + b;
      assert [a[0]] + a[1..] == a;
    }
  }

  /** Splitting newline-free pieces joined with newlines gives the pieces back. */
  lemma {:induction false} SplitJoin(parts: seq<string>)
    requires |parts| >= 1
    requires forall i :: 0 <= i < |parts| ==> '\n' !in parts[i]
    ensures Split(Join(parts)) == parts
  {
    if |parts| == 1 {
      SplitNoNewline(parts[0]);
    } else {
      SplitJoin(parts[1..]);
      SplitFirstLine(parts[0], Join(parts[1..]));
      assert [parts[0]] + parts[1..] == parts;
    }
  }

  /** TrimLeft stops at the first character that is not white space. */
  lemma {:induction false} TrimLeftStopsAt(s: string, lo: nat)
    requires lo <= |s| && SpaceBetween(s, 0, lo)
    requires lo == |s| || !IsSpace(s[lo])
    ensures TrimLeft(s) == s[lo..]
  {
    if lo > 0 {
      assert IsSpace(s[0]);
      TrimLeftStopsAt(s[1..], lo - 1);
      assert s[1..][lo - 1..] == s[lo..];
    }
  }

  /** TrimRight stops at the last character that is not white space. */
  lemma {:induction false} TrimRightStopsAt(s: string, hi: nat)
    requires hi <= |s| && SpaceBetween(s, hi, |s|)
    requires hi == 0 || !IsSpace(s[hi - 1])
    ensures TrimRight(s) == s[..hi]
  {
    if hi < |s| {
      var n := |s|;
      assert IsSpace(s[n - 1]);
      TrimRightStopsAt(s[..n - 1], hi);
      assert s[..n - 1][..hi] == s[..hi];
    } else {
      assert s[..hi] == s;
    }
  }

  /**
   * TrimSpace is pinned down by what it promises: any piece of `s` that is
   * surrounded only by white space and has none at its ends is the result.
   */
  lemma TrimSpaceUnique(s: string, lo: nat, hi: nat)
    requires lo <= hi <= |s|
    requires SpaceBetween(s, 0, lo) && SpaceBetween(s, hi, |s|)
    requires lo == hi || (!IsSpace(s[lo]) && !IsSpace(s[hi - 1]))
    ensures TrimSpace(s) == s[lo..hi]
  {
    if lo < hi {
      TrimSpaceBetween(s, lo, hi);
    } else {
      forall k | 0 <= k < |s| ensures IsSpace(s[k]) {
        assert k < lo || hi <= k;
      }
    }
  }

  /** The non-empty case of TrimSpaceUnique: first trim the left, then the right. */
  lemma TrimSpaceBetween(s: string, lo: nat, hi: nat)
    requires lo < hi <= |s|
    requires SpaceBetween(s, 0, lo) && SpaceBetween(s, hi, |s|)
    requires !IsSpace(s[lo]) && !IsSpace(s[hi - 1])
    ensures TrimSpace(s) == s[lo..hi]
  {
    TrimLeftStopsAt(s, lo);
    TrimRightOfSuffix(s, lo, hi);
  }

  /** Trimming the right of a suffix that ends in white space only. */
  lemma TrimRightOfSuffix(s: string, lo: nat, hi: nat)
    requires lo < hi <= |s|
    requires SpaceBetween(s, hi, |s|) && !IsSpace(s[hi - 1])
    ensures TrimRight(s[lo..]) == s[lo..hi]
  {
    var t := s[lo..];
    forall k | hi - lo <= k < |t| ensures IsSpace(t[k]) {
      assert t[k] == s[lo + k];
    }
    assert t[hi - lo - 1] == s[hi - 1];
    TrimRightStopsAt(t, hi - lo);
    assert t[..hi - lo] == s[lo..hi];
  }

  /** Trimming twice is trimming once. */
  lemma TrimSpaceIdempotent(s: string)
    ensures TrimSpace(TrimSpace(s)) == TrimSpace(s)
  {
    var t := TrimSpace(s);
    TrimSpaceUnique(t, 0, |t|);
  }

  /**
   * The lines of any text: at least one, none containing a newline, and joined
   * back with newlines they give exactly the trimmed text.
   */
  lemma SplitTrimmedRoundTrip(text: string)
    ensures |SplitTrimmed(text)| >= 1
    ensures forall i :: 0 <= i < |SplitTrimmed(text)| ==> '\n' !in SplitTrimmed(text)[i]
    ensures Join(SplitTrimmed(text)) == TrimSpace(text)
  {
    JoinSplit(TrimSpace(text));
  }

  /**
   * Blank text does not give zero lines: it gives exactly one empty line, and
   * no other text does.
   */
  lemma {:induction false} SplitTrimmedBlank(text: string)
    ensures SplitTrimmed(text) == [""] <==> AllSpace(text)
  {
    if SplitTrimmed(text) == [""] {
      JoinSplit(TrimSpace(text));
    }
  }
  /**
   * Whatever follows the first line of a text does not change that line, as
   * long as the line itself neither starts nor ends with white space.
   */
  lemma FirstLineSurvives(a: string, b: string)
    requires '\n' !in a && a != []
    requires !IsSpace(a[0]) && !IsSpace(a[|a| - 1])
    ensures SplitTrimmed(a + "\n" + b)[0] == a
  {
    TrimKeepsFirstLine(a, b);
    if TrimSpace(a + "\n" + b) == a {
      SplitNoNewline(a);
    } else {
      SplitFirstLine(a, TrimRight(b));
    }
  }

  /** Trimming a text whose first line has no white space at its ends keeps that line whole. */
  lemma TrimKeepsFirstLine(a: string, b: string)
    requires a != [] && !IsSpace(a[0]) && !IsSpace(a[|a| - 1])
    ensures TrimSpace(a + "\n" + b) == a || TrimSpace(a + "\n" + b) == a + "\n" + TrimRight(b)
  {
    var t := a + "\n" + b;
    var rb := TrimRight(b);
    var hi := if rb == [] then |a| else |a| + 1 + |rb|;
    forall k | hi <= k < |t| ensures IsSpace(t[k]) {
      if k > |a| { assert t[k] == b[k - |a| - 1]; }
    }
    assert t[hi - 1] == if rb == [] then a[|a| - 1] else rb[|rb| - 1];
    TrimSpaceUnique(t, 0, hi);
    assert t[0..hi] == if rb == [] then a else a + "\n" + rb;
  }
}
