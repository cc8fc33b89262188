/** Cutting a text to a token budget: a binary search over prefix lengths. */
module Truncation {
  import opened Text
  import opened Tokenization
  import opened TokenCounting

  const ELLIPSIS: string := " \U{2026}"

  /** The longest fitting prefix length up to `high`, by trying every length. */
  function LongestFit(value: string, maximum: nat, high: nat): (r: nat)
    requires high <= |value|
    ensures r <= high
  {
    if high == 0 || TokenCount(value[..high]) <= maximum then high
    else LongestFit(value, maximum, high - 1)
  }

  /** The position of the last blank or line break, or -1. */
  function LastBreak(s: string): (r: int)
    ensures -1 <= r < |s|
  {
    if s == [] then -1
    else if s[|s| - 1] == ' ' || s[|s| - 1] == '\n' then |s| - 1
    else LastBreak(s[..|s| - 1])
  }

  /** The word-boundary trim; the 0.7 threshold is taken as an exact fraction. */
  function TrimmedToWord(prefix: string): string {
    if LastBreak(prefix) >= 7 * |prefix| / 10
    then RStrip(prefix[..LastBreak(prefix)])
    else prefix
  }

  function Truncated(value: string, maximum: int): string {
    if maximum < 1 then ""
    else if TokenCount(value) <= maximum then value
    else
      var prefix := RStrip(value[..LongestFit(value, maximum, |value|)]);
      if prefix == "" then "" else TrimmedToWord(prefix) + ELLIPSIS
  }

  predicate IsBreak(c: char) {
    c in " \n"
  }

  /** The trim cuts at the last blank or line break, if one lies in the last three
      tenths, and strips what is left; otherwise it cuts nothing. */
  lemma TrimIsAtBreak(prefix: string, k: nat)
    ensures TrimmedToWord(prefix) <= prefix
    ensures 7 * |prefix| / 10 <= k < |prefix| && IsBreak(prefix[k]) && (forall i :: k < i < |prefix| ==> !IsBreak(prefix[i])) ==>
              TrimmedToWord(prefix) == RStrip(prefix[..k])
    ensures (forall i :: 7 * |prefix| / 10 <= i < |prefix| ==> !IsBreak(prefix[i])) ==> TrimmedToWord(prefix) == prefix
  {
    hide IsBreak, RStrip, LastBreak;
    LastBreakIs(prefix);
    var at := LastBreak(prefix);
    if at >= 7 * |prefix| / 10 { StripCuts(prefix, at); }
  }

  lemma StripCuts(s: string, k: nat)
    requires k <= |s|
    ensures RStrip(s[..k]) <= s
  {
  }

  lemma {:induction false} LastBreakIs(s: string)
    ensures LastBreak(s) >= 0 ==> IsBreak(s[LastBreak(s)])
    ensures forall i :: LastBreak(s) < i < |s| ==> !IsBreak(s[i])
  {
    if s != [] { LastBreakIs(s[..|s| - 1]); }
  }

  lemma PaddedCount(s: string)
    ensures TokenCount(RStrip(s) + ELLIPSIS) == TokenCount(s)
  {
    var r := RStrip(s);
    assert s == r + s[|r|..];
    BlankIsInert(s[|r|..]);
    CountInert(r, s[|r|..]);
    CountInert(r, ELLIPSIS);
    CountIsTokenCount(s);
    CountIsTokenCount(r + ELLIPSIS);
  }

  /** Fitting is monotone in the prefix length, so there is a longest one. */
  lemma {:induction false} LongestFitIsLongest(value: string, maximum: nat, high: nat, m: nat)
    requires m <= high <= |value|
    ensures TokenCount(value[..m]) <= maximum <==> m <= LongestFit(value, maximum, high)
    decreases high
  {
    CountIsTokenCount(value[..m]);
    CountIsTokenCount(value[..high]);
    if high == 0 {
    } else if TokenCount(value[..high]) <= maximum {
      CountPrefix(value, m, high);
    } else if m < high {
      LongestFitIsLongest(value, maximum, high - 1, m);
    }
  }

  lemma ProbeDecides(value: string, maximum: nat, middle: nat)
    requires middle <= |value|
    ensures TokenCount(RStrip(value[..middle]) + ELLIPSIS) <= maximum <==>
            middle <= LongestFit(value, maximum, |value|)
  {
    PaddedCount(value[..middle]);
    LongestFitIsLongest(value, maximum, |value|, middle);
  }

  /** The bisection: its probe counts the stripped prefix with the ellipsis. */
  method BisectPrefix(value: string, maximum: nat) returns (low: nat)
    ensures low == LongestFit(value, maximum, |value|)
  {
    low := 0;
    var high := |value|;
    while low < high
      invariant 0 <= low <= high <= |value|
      invariant low <= LongestFit(value, maximum, |value|) <= high
    {
      var middle := (low + high + 1) / 2;
      ProbeDecides(value, maximum, middle);
      if TokenCount(RStrip(value[..middle]) + ELLIPSIS) <= maximum {
        low := middle;
      } else {
        high := middle - 1;
      }
    }
  }

  method TruncateToBudget(value: string, maximum: int) returns (r: string)
    ensures r == Truncated(value, maximum)
  {
    if maximum < 1 {
      return "";
    }
    if TokenCount(value) <= maximum {
      return value;
    }
    var low := BisectPrefix(value, maximum);
    var prefix := RStrip(value[..low]);
    if prefix == "" {
      return "";
    }
    var whitespace := LastBreak(prefix);
    if whitespace >= 7 * |prefix| / 10 {
      prefix := RStrip(prefix[..whitespace]);
    }
    return prefix + ELLIPSIS;
  }

  /** A truncated text fits the budget, and it is lost only when there is none. */
  lemma TruncatedFits(value: string, maximum: int)
    requires maximum >= 1
    ensures TokenCount(Truncated(value, maximum)) <= maximum
    ensures Blank(Truncated(value, maximum)) ==> Blank(value)
  {
    if TokenCount(value) > maximum {
      var length := LongestFit(value, maximum, |value|);
      LongestFitIsLongest(value, maximum, |value|, length);
      var prefix := RStrip(value[..length]);
      PaddedCount(value[..length]);
      FitIsVisible(value, maximum);
      var word := TrimmedToWord(prefix);
      assert ELLIPSIS[1] in word + ELLIPSIS;
      TrimFits(prefix);
      CountIsTokenCount(prefix + ELLIPSIS);
      CountIsTokenCount(word + ELLIPSIS);
      CountInert(prefix, ELLIPSIS);
      CountInert(word, ELLIPSIS);
    }
  }

  lemma TrimFits(prefix: string)
    ensures Count(TrimmedToWord(prefix)) <= Count(prefix)
  {
    var word := TrimmedToWord(prefix);
    assert word == prefix[..|word|];
    CountPrefix(prefix, |word|, |prefix|);
    assert prefix[..|prefix|] == prefix;
  }

  /** The longest fitting prefix of a text that does not fit is not blank: it
      reaches at least past the first token's first character. */
  lemma FitIsVisible(value: string, maximum: nat)
    requires maximum >= 1 && TokenCount(value) > maximum
    ensures RStrip(value[..LongestFit(value, maximum, |value|)]) != ""
  {
    var length := LongestFit(value, maximum, |value|);
    CountIsTokenCount(value);
    NoTokens(value);
    var k := FirstToken(value);
    CountSnoc(value, k);
    CountIsTokenCount(value[..k + 1]);
    LongestFitIsLongest(value, maximum, |value|, k + 1);
    assert value[k] == value[..length][k];
    assert !IsSpace(value[k]);
  }

  lemma FirstToken(value: string) returns (k: nat)
    requires HasToken(value)
    ensures k < |value| && (IsWord(value[k]) || IsCjk(value[k]))
    ensures Count(value[..k + 1]) == 1
  {
    var c :| c in value && (IsWord(c) || IsCjk(c));
    var i :| 0 <= i < |value| && value[i] == c;
    k := 0;
    while k < i && !IsWord(value[k]) && !IsCjk(value[k])
      invariant k <= i && Inert(value[..k])
    {
      k := k + 1;
      assert value[..k] == value[..k - 1] + [value[k - 1]];
    }
    NoTokens(value[..k]);
    CountSnoc(value, k);
    if k >= 1 { assert value[k - 1] in value[..k]; }
  }
}
