/**
  Reading a point value out of free text, as `extractPoints` does:
  the first match of the regular expression `(\d+)\s*p`, its digit group
  converted with `Integer.parseInt`, 0 when there is no match.
*/
module Points {
  import opened Wrappers

  /** Largest Java `int`. */
  const MaxInt: int := 0x7fff_ffff

  /** Java's `int`. */
  type Int32 = x: int | -0x8000_0000 <= x <= MaxInt

  /**
    The outcome of a step that may throw Java's NumberFormatException, which
    `Integer.parseInt` raises for a digit run too large for an `int` and which
    nothing in the extractor catches.
  */
  datatype Parsed<+T> = Ok(value: T) | NumberFormatError(digits: string)

  /** `\d` without the UNICODE_CHARACTER_CLASS flag: ASCII digits only. */
  predicate IsDigit(c: char)
  {
    '0' <= c <= '9'
  }

  /** `\s` without the UNICODE_CHARACTER_CLASS flag: [ \t\n\x0B\f\r]. */
  predicate IsSpace(c: char)
  {
    c == ' ' || c == '\t' || c == '\n' || c == '\U{000B}' || c == '\U{000C}' || c == '\r'
  }

  predicate AllDigits(ds: string)
  {
    forall m :: 0 <= m < |ds| ==> IsDigit(ds[m])
  }

  /** Value of a decimal digit string, most significant digit first. */
  function DecimalValue(ds: string): nat
    requires AllDigits(ds)
  {
    if ds == [] then 0
    else 10 * DecimalValue(ds[..|ds| - 1]) + (ds[|ds| - 1] as int - '0' as int)
  }

  /** Decimal notation of a natural number, without leading zeros (`Integer.toString`). */
  function DecimalString(n: nat): (ds: string)
    ensures |ds| > 0 && AllDigits(ds)
  {
    if n < 10 then [('0' as int + n) as char]
    else DecimalString(n / 10) + [('0' as int + n % 10) as char]
  }

  lemma {:induction false} DecimalRoundTrip(n: nat)
    ensures DecimalValue(DecimalString(n)) == n
  {
    var ds := DecimalString(n);
    if n >= 10 {
      assert ds[..|ds| - 1] == DecimalString(n / 10);
      DecimalRoundTrip(n / 10);
    }
  }

  /** Leading zeros do not change the value: "007" is 7. */
  lemma {:induction false} DecimalLeadingZero(ds: string)
    requires AllDigits(ds)
    ensures AllDigits("0" + ds) && DecimalValue("0" + ds) == DecimalValue(ds)
  {
    var zs := "0" + ds;
    assert AllDigits(zs) by {
      forall m | 0 <= m < |zs|
        ensures IsDigit(zs[m])
      {
        if m > 0 {
          assert zs[m] == ds[m - 1];
        }
      }
    }
    if ds != [] {
      assert zs[..|zs| - 1] == "0" + ds[..|ds| - 1];
      assert zs[|zs| - 1] == ds[|ds| - 1];
      DecimalLeadingZero(ds[..|ds| - 1]);
    }
  }

  /** `Integer.parseInt` on a run of ASCII digits. */
  function ParseInt(ds: string): Parsed<int>
    requires AllDigits(ds)
  {
    var v := DecimalValue(ds);
    if v <= MaxInt then Ok(v) else NumberFormatError(ds)
  }

  /**
    `parseInt` reads back the decimal notation of every value up to
    2147483647, and throws on the notation of every larger value.
  */
  lemma ParseIntDecimalString(n: nat)
    ensures n <= MaxInt ==> ParseInt(DecimalString(n)) == Ok(n)
    ensures n > MaxInt ==> ParseInt(DecimalString(n)) == NumberFormatError(DecimalString(n))
  {
    DecimalRoundTrip(n);
  }

  /** End of the maximal run of digits starting at `i`. */
  function DigitRunEnd(s: string, i: nat): (j: nat)
    requires i <= |s|
    ensures i <= j <= |s|
    ensures forall m :: i <= m < j ==> IsDigit(s[m])
    ensures j == |s| || !IsDigit(s[j])
    decreases |s| - i
  {
    if i < |s| && IsDigit(s[i]) then DigitRunEnd(s, i + 1) else i
  }

  /** End of the maximal run of whitespace starting at `i`. */
  function SpaceRunEnd(s: string, i: nat): (j: nat)
    requires i <= |s|
    ensures i <= j <= |s|
    ensures forall m :: i <= m < j ==> IsSpace(s[m])
    ensures j == |s| || !IsSpace(s[j])
    decreases |s| - i
  {
    if i < |s| && IsSpace(s[i]) then SpaceRunEnd(s, i + 1) else i
  }

  /**
    The regular expression `(\d+)\s*p` matches `s[i..k+1]` with the digit
    group `s[i..j]`: the reference relation, independent of how it is searched.
  */
  ghost predicate MatchesAt(s: string, i: int, j: int, k: int)
  {
    && 0 <= i < j <= k < |s|
    && (forall m :: i <= m < j ==> IsDigit(s[m]))
    && (forall m :: j <= m < k ==> IsSpace(s[m]))
    && s[k] == 'p'
  }

  ghost predicate MatchStartsAt(s: string, i: int)
  {
    exists j, k :: MatchesAt(s, i, j, k)
  }

  /**
    The match attempt at `i` with greedy quantifiers: all digits, then all
    whitespace, then a `p`. Digits, whitespace and `p` are disjoint, so
    backtracking never finds another way to match.
  */
  predicate GreedyMatch(s: string, i: nat)
    requires i <= |s|
  {
    i < |s| && IsDigit(s[i]) && SpaceRunEnd(s, DigitRunEnd(s, i)) < |s| && s[SpaceRunEnd(s, DigitRunEnd(s, i))] == 'p'
  }

  /** A match at `i` is unique: its group is the whole digit run and its spaces the whole whitespace run. */
  lemma MatchIsGreedy(s: string, i: int, j: int, k: int)
    requires MatchesAt(s, i, j, k)
    ensures j == DigitRunEnd(s, i) && k == SpaceRunEnd(s, j)
  {
    // s[j] is whitespace or the `p`, s[k] is the `p`: neither run can reach past them
    assert !IsDigit(s[j]);
    assert !IsSpace(s[k]);
  }

  lemma GreedyMatchIffMatch(s: string, i: nat)
    requires i <= |s|
    ensures GreedyMatch(s, i) <==> MatchStartsAt(s, i)
  {
    if GreedyMatch(s, i) {
      var j := DigitRunEnd(s, i);
      assert MatchesAt(s, i, j, SpaceRunEnd(s, j));
    }
    if MatchStartsAt(s, i) {
      var j, k :| MatchesAt(s, i, j, k);
      MatchIsGreedy(s, i, j, k);
    }
  }

  /**
    `Matcher.find` from position `i`: the leftmost start `a >= i` at which the
    pattern matches, with the end of its digit group.
  */
  function FindMarker(s: string, i: nat): (r: Option<(nat, nat)>)
    requires i <= |s|
    ensures r.Some? ==> i <= r.value.0 < r.value.1 <= |s|
    decreases |s| - i
  {
    if i == |s| then None
    else if GreedyMatch(s, i) then Some((i, DigitRunEnd(s, i)))
    else FindMarker(s, i + 1)
  }

  /** The search finds the leftmost match, and finds one whenever there is one. */
  lemma {:induction false} FindMarkerIsLeftmost(s: string, i: nat)
    requires i <= |s|
    ensures var r := FindMarker(s, i);
            && (r.Some? ==> MatchesAt(s, r.value.0, r.value.1, SpaceRunEnd(s, r.value.1)))
            && (r.Some? ==> forall a :: i <= a < r.value.0 ==> !MatchStartsAt(s, a))
            && (r.None? ==> forall a :: i <= a < |s| ==> !MatchStartsAt(s, a))
    decreases |s| - i
  {
    if i < |s| {
      GreedyMatchIffMatch(s, i);
      if !GreedyMatch(s, i) {
        FindMarkerIsLeftmost(s, i + 1);
      }
    }
  }

  /**
    `extractPoints`: 0 for empty text or text without a point marker,
    otherwise `Integer.parseInt` of the first marker's digits.
  */
  function ExtractPoints(t: string): (r: Parsed<int>)
    ensures r.Ok? ==> 0 <= r.value <= MaxInt
  {
    FindMarkerIsLeftmost(t, 0);
    if t == "" then Ok(0)
    else
      match FindMarker(t, 0)
      case None => Ok(0)
      case Some((i, j)) => ParseInt(t[i..j])
  }

  /** The leftmost match decides the points; everything after it is ignored. */
  lemma ExtractPointsLeftmost(t: string, i: int, j: int, k: int)
    requires MatchesAt(t, i, j, k)
    requires forall a :: 0 <= a < i ==> !MatchStartsAt(t, a)
    ensures AllDigits(t[i..j]) && j - i >= 1
    ensures ExtractPoints(t) == ParseInt(t[i..j])
  {
    MatchIsGreedy(t, i, j, k);
    assert MatchStartsAt(t, i);
    FindMarkerIsLeftmost(t, 0);
    var r := FindMarker(t, 0);
    assert r.Some?;
    assert MatchStartsAt(t, r.value.0);
    assert r.value.0 == i;
    MatchIsGreedy(t, i, r.value.1, SpaceRunEnd(t, r.value.1));
  }

  /** Text without any point marker is worth 0 points. */
  lemma ExtractPointsNoMatch(t: string)
    requires forall a :: 0 <= a < |t| ==> !MatchStartsAt(t, a)
    ensures ExtractPoints(t) == Ok(0)
  {
    if t != "" {
      FindMarkerIsLeftmost(t, 0);
      var r := FindMarker(t, 0);
      if r.Some? {
        assert MatchStartsAt(t, r.value.0);
      }
    }
  }

  /** Every representable point value written as "<n> p" is read back, whatever follows. */
  lemma ExtractPointsRoundTrip(n: nat, rest: string)
    requires n <= MaxInt
    ensures ExtractPoints(DecimalString(n) + " p" + rest) == Ok(n)
  {
    var ds := DecimalString(n);
    var t := ds + " p" + rest;
    var L := |ds|;
    assert t[..L] == ds;
    assert MatchesAt(t, 0, L, L + 1);
    assert t[0..L] == ds;
    ExtractPointsLeftmost(t, 0, L, L + 1);
    DecimalRoundTrip(n);
  }

  /** A marker that follows a number not followed by `p` is the one used: "3 (12 p.)" is worth 12. */
  lemma ExtractPointsSkipsUnmarkedNumber()
    ensures ExtractPoints("3 (12 p.)") == Ok(12)
  {
    var t := "3 (12 p.)";
    assert MatchesAt(t, 3, 5, 6);
    // the run "3" is followed by " (", not by `p`
    assert DigitRunEnd(t, 0) == 1 && SpaceRunEnd(t, 1) == 2;
    forall a | 0 <= a < 3
      ensures !MatchStartsAt(t, a)
    {
      GreedyMatchIffMatch(t, a);
    }
    assert t[3..5] == "12";
    assert DecimalValue("12") == 12 by {
      assert "12"[..1] == "1";
    }
    ExtractPointsLeftmost(t, 3, 5, 6);
  }

  /** A marker without digits is worth 0: "p." gives 0. */
  lemma ExtractPointsNoDigits()
    ensures ExtractPoints("p.") == Ok(0)
  {
    forall a | 0 <= a < 2
      ensures !MatchStartsAt("p.", a)
    {
      GreedyMatchIffMatch("p.", a);
    }
    ExtractPointsNoMatch("p.");
  }
}
