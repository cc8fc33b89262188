/** The deterministic tokenizer shared by chunking, BM25 and context budgets.

    Text is taken after NFKC and case folding, which keep every character of the
    texts considered here in its class. */
module Tokenization {
  /** `[a-z0-9]` with IGNORECASE, which also matches the dotless i. */
  predicate IsWord(c: char) {
    'a' <= c <= 'z' || 'A' <= c <= 'Z' || '0' <= c <= '9' || c == '\U{131}'
  }

  predicate IsCjk(c: char) {
    '\U{3400}' <= c <= '\U{4dbf}' || '\U{4e00}' <= c <= '\U{9fff}'
  }

  predicate IsJoiner(c: char) {
    c == '-' || c == '\''
  }

  // ----- the pattern -----

  /** The end of the longest word token whose word character at `i` is inside it. */
  function TokenEnd(s: string, i: nat): (e: nat)
    requires i < |s| && IsWord(s[i])
    ensures i < e <= |s| && IsWord(s[e - 1])
    ensures e < |s| ==> !IsWord(s[e])
    ensures e + 1 < |s| && IsJoiner(s[e]) ==> !IsWord(s[e + 1])
    decreases |s| - i
  {
    if i + 1 < |s| && IsWord(s[i + 1]) then TokenEnd(s, i + 1)
    else if i + 2 < |s| && IsJoiner(s[i + 1]) && IsWord(s[i + 2]) then TokenEnd(s, i + 2)
    else i + 1
  }

  /** The successive matches from position `i` on. */
  function RawTokens(s: string, i: nat): (r: seq<string>)
    ensures forall t :: t in r ==> t != []
    decreases |s| - i
  {
    if i >= |s| then []
    else if IsWord(s[i]) then [s[i..TokenEnd(s, i)]] + RawTokens(s, TokenEnd(s, i))
    else if IsCjk(s[i]) then [[s[i]]] + RawTokens(s, i + 1)
    else RawTokens(s, i + 1)
  }

  // ----- the matches are cut out of the text -----

  /** A match of the word pattern begins at `i`. */
  predicate WordStart(s: string, i: nat)
    requires i < |s|
  {
    && IsWord(s[i])
    && !(i >= 1 && IsWord(s[i - 1]))
    && !(i >= 2 && IsJoiner(s[i - 1]) && IsWord(s[i - 2]))
  }

  /** A position where the pattern search can stand. */
  predicate Boundary(s: string, i: nat) {
    && i <= |s|
    && (i < |s| && IsWord(s[i]) ==> WordStart(s, i))
    && (i + 1 < |s| && IsJoiner(s[i]) && IsWord(s[i + 1]) ==> !(i >= 1 && IsWord(s[i - 1])))
  }

  datatype Span = Span(start: nat, end: nat)

  /** Word characters joined by single joiners, as long as they go on both sides. */
  predicate WordSpan(s: string, w: Span)
    requires w.start < w.end <= |s|
  {
    && IsWord(s[w.start]) && IsWord(s[w.end - 1])
    && (forall p :: w.start < p < w.end - 1 && !IsWord(s[p]) ==> s[p] in "-'" && IsWord(s[p - 1]) && IsWord(s[p + 1]))
    && !(w.start >= 1 && IsWord(s[w.start - 1]))
    && !(w.start >= 2 && s[w.start - 1] in "-'" && IsWord(s[w.start - 2]))
    && !(w.end < |s| && IsWord(s[w.end]))
    && !(w.end + 1 < |s| && s[w.end] in "-'" && IsWord(s[w.end + 1]))
  }

  /** One CJK character, or a word. */
  predicate MatchSpan(s: string, w: Span) {
    && w.start < w.end <= |s|
    && if IsCjk(s[w.start]) then w.end == w.start + 1 else WordSpan(s, w)
  }

  predicate Within(w: Span, p: nat) {
    w.start <= p < w.end
  }

  /** `raw` is the text at disjoint spans in order, from position `i` on; each is a
      match, and every word or CJK character behind `i` lies in one of them. */
  ghost predicate CutFrom(s: string, i: nat, raw: seq<string>, spans: seq<Span>) {
    && |spans| == |raw|
    && (forall k :: 0 <= k < |raw| ==> MatchSpan(s, spans[k]) && i <= spans[k].start && raw[k] == s[spans[k].start..spans[k].end])
    && (forall k, m :: 0 <= k < m < |raw| ==> spans[k].end <= spans[m].start)
    && (forall p: nat :: i <= p < |s| && (IsWord(s[p]) || IsCjk(s[p])) ==> exists k :: 0 <= k < |raw| && Within(spans[k], p))
  }

  /** Inside a word, what is no word character joins two of them. */
  lemma {:induction false} TokenRun(s: string, i: nat)
    requires i < |s| && IsWord(s[i])
    ensures forall p :: i < p < TokenEnd(s, i) && !IsWord(s[p]) ==>
              p + 1 < |s| && IsJoiner(s[p]) && IsWord(s[p - 1]) && IsWord(s[p + 1])
    decreases |s| - i
  {
    hide IsWord, IsJoiner;
    if i + 1 < |s| && IsWord(s[i + 1]) {
      TokenRun(s, i + 1);
    } else if i + 2 < |s| && IsJoiner(s[i + 1]) && IsWord(s[i + 2]) {
      TokenRun(s, i + 2);
    }
  }

  lemma WordIsNotCjk(c: char)
    ensures !(IsWord(c) && IsCjk(c)) && !(IsWord(c) && IsJoiner(c))
  {
  }

  lemma CutCons(s: string, w: Span, i: nat, rest: seq<string>, spans: seq<Span>)
    requires MatchSpan(s, w) && i <= w.start && CutFrom(s, w.end, rest, spans)
    requires forall p: nat :: i <= p < w.start ==> !IsWord(s[p]) && !IsCjk(s[p])
    ensures CutFrom(s, i, [s[w.start..w.end]] + rest, [w] + spans)
  {
    hide MatchSpan, IsWord, IsCjk;
    MatchInside(s, w);
    var all, raw := [w] + spans, [s[w.start..w.end]] + rest;
    forall p: nat | i <= p < |s| && (IsWord(s[p]) || IsCjk(s[p])) ensures exists k :: 0 <= k < |raw| && Within(all[k], p) {
      if p < w.end {
        assert Within(all[0], p);
      } else {
        var k :| 0 <= k < |rest| && Within(spans[k], p);
        assert Within(all[k + 1], p);
      }
    }
  }

  lemma MatchInside(s: string, w: Span)
    requires MatchSpan(s, w)
    ensures w.start < w.end <= |s|
  {
  }

  lemma CutSkip(s: string, i: nat, raw: seq<string>, spans: seq<Span>)
    requires i < |s| && !IsWord(s[i]) && !IsCjk(s[i]) && CutFrom(s, i + 1, raw, spans)
    ensures CutFrom(s, i, raw, spans)
  {
    hide MatchSpan, IsWord, IsCjk;
  }

  lemma {:induction false} RawTokensAreCut(s: string, i: nat) returns (spans: seq<Span>)
    requires Boundary(s, i)
    ensures CutFrom(s, i, RawTokens(s, i), spans)
    decreases |s| - i
  {
    hide CutFrom;
    if i == |s| {
      spans := [];
      NothingCut(s);
    } else if IsWord(s[i]) {
      var end := TokenEnd(s, i);
      TokenRun(s, i);
      WordIsNotCjk(s[i]);
      assert MatchSpan(s, Span(i, end));
      var rest := RawTokensAreCut(s, end);
      CutCons(s, Span(i, end), i, RawTokens(s, end), rest);
      spans := [Span(i, end)] + rest;
    } else if IsCjk(s[i]) {
      var rest := RawTokensAreCut(s, i + 1);
      CutCons(s, Span(i, i + 1), i, RawTokens(s, i + 1), rest);
      assert s[i..i + 1] == [s[i]];
      spans := [Span(i, i + 1)] + rest;
    } else {
      spans := RawTokensAreCut(s, i + 1);
      CutSkip(s, i, RawTokens(s, i + 1), spans);
    }
  }

  lemma NothingCut(s: string)
    ensures CutFrom(s, |s|, RawTokens(s, |s|), [])
  {
  }

  /** The matches are the text at disjoint spans, in order, each a CJK character or a
      word that cannot be made longer, and together they cover every word and CJK
      character. */
  lemma MatchesAreCut(s: string) returns (spans: seq<Span>)
    ensures CutFrom(s, 0, RawTokens(s, 0), spans)
  {
    spans := RawTokensAreCut(s, 0);
  }

  predicate CjkToken(t: string) {
    |t| == 1 && '\U{3400}' <= t[0] <= '\U{9fff}'
  }

  // ----- runs of CJK characters -----

  function Pairs(run: seq<string>): (r: seq<string>)
    ensures |r| == if run == [] then 0 else |run| - 1
  {
    if |run| < 2 then [] else Pairs(run[..|run| - 1]) + [run[|run| - 2] + run[|run| - 1]]
  }

  function Flushed(run: seq<string>): seq<string> {
    run + Pairs(run)
  }

  /** The token list for the rest `raw`, with `run` the CJK run read so far. */
  function Scan(raw: seq<string>, run: seq<string>): seq<string> {
    if raw == [] then Flushed(run)
    else if CjkToken(raw[0]) then Scan(raw[1..], run + [raw[0]])
    else Flushed(run) + [raw[0]] + Scan(raw[1..], [])
  }

  function Tokens(value: string): seq<string> {
    Scan(RawTokens(value, 0), [])
  }

  function TokenCount(value: string): nat {
    |Tokens(value)|
  }

  /** The loop over the matches with its flush of the pending CJK run. */
  method Tokenize(value: string) returns (tokens: seq<string>)
    ensures tokens == Tokens(value)
  {
    hide RawTokens, CjkToken, Pairs;
    var raw := RawTokens(value, 0);
    tokens := [];
    var run: seq<string> := [];
    for i := 0 to |raw|
      invariant tokens + Scan(raw[i..], run) == Tokens(value)
    {
      assert raw[i..][1..] == raw[i + 1..];
      if CjkToken(raw[i]) {
        run := run + [raw[i]];
      } else {
        var pairs := FlushPairs(run);
        tokens := tokens + run + pairs + [raw[i]];
        run := [];
      }
    }
    var pairs := FlushPairs(run);
    tokens := tokens + run + pairs;
  }

  method FlushPairs(run: seq<string>) returns (pairs: seq<string>)
    ensures pairs == Pairs(run)
  {
    pairs := [];
    for index := 0 to if run == [] then 0 else |run| - 1
      invariant pairs == Pairs(run[..if run == [] then 0 else index + 1])
    {
      assert run[..index + 2][..index + 1] == run[..index + 1];
      pairs := pairs + [run[index] + run[index + 1]];
    }
    assert run == run[..|run|];
  }

  /** The adjacent pairs of CJK tokens anywhere in the match list. */
  function AdjacentPairs(raw: seq<string>): seq<string> {
    if |raw| < 2 then []
    else if CjkToken(raw[0]) && CjkToken(raw[1]) then [raw[0] + raw[1]] + AdjacentPairs(raw[1..])
    else AdjacentPairs(raw[1..])
  }

  lemma NoPairs()
    ensures Pairs([]) == []
    ensures forall t: string :: Pairs([t]) == []
  {
  }

  lemma {:induction false} AdjacentPairsSplit(run: seq<string>, raw: seq<string>)
    requires forall t :: t in run ==> CjkToken(t)
    requires raw == [] || !CjkToken(raw[0])
    ensures AdjacentPairs(run + raw) == Pairs(run) + AdjacentPairs(raw)
    decreases |run|
  {
    hide CjkToken, Pairs;
    if run == [] {
      NoPairs();
      assert run + raw == raw;
    } else {
      AdjacentPairsSplit(run[1..], raw);
      assert (run + raw)[1..] == run[1..] + raw;
      PairsFront(run);
    }
  }

  lemma {:induction false} PairsFront(run: seq<string>)
    ensures |run| >= 2 ==> Pairs(run) == [run[0] + run[1]] + Pairs(run[1..])
  {
    if |run| > 2 {
      PairsFront(run[..|run| - 1]);
      assert run[1..][..|run| - 2] == run[..|run| - 1][1..];
    } else if |run| == 2 {
      assert Pairs(run[..1]) == [];
    }
  }

  /** The run-flushing loop yields exactly the matches and the adjacent CJK pairs. */
  lemma {:induction false} ScanContents(raw: seq<string>, run: seq<string>)
    requires forall t :: t in run ==> CjkToken(t)
    ensures multiset(Scan(raw, run)) == multiset(run + raw) + multiset(AdjacentPairs(run + raw))
    decreases |raw|
  {
    hide CjkToken, AdjacentPairs, Flushed;
    if raw == [] {
      ScanEnd(run);
      assert run + raw == run;
    } else if CjkToken(raw[0]) {
      ScanContents(raw[1..], run + [raw[0]]);
      assert run + [raw[0]] + raw[1..] == run + raw;
    } else {
      ScanContents(raw[1..], []);
      var rest := Scan(raw[1..], []);
      assert [] + raw[1..] == raw[1..];
      ScanFlush(raw, run, rest);
    }
  }

  lemma ScanEnd(run: seq<string>)
    requires forall t :: t in run ==> CjkToken(t)
    ensures multiset(Flushed(run)) == multiset(run) + multiset(AdjacentPairs(run))
  {
    AdjacentPairsSplit(run, []);
    assert run + [] == run && Pairs(run) + AdjacentPairs([]) == Pairs(run);
  }

  lemma ScanFlush(raw: seq<string>, run: seq<string>, rest: seq<string>)
    requires forall t :: t in run ==> CjkToken(t)
    requires raw != [] && !CjkToken(raw[0])
    requires multiset(rest) == multiset(raw[1..]) + multiset(AdjacentPairs(raw[1..]))
    ensures multiset(Flushed(run) + [raw[0]] + rest) == multiset(run + raw) + multiset(AdjacentPairs(run + raw))
  {
    AdjacentPairsSplit(run, raw);
    assert AdjacentPairs(raw) == AdjacentPairs(raw[1..]);
    assert raw == [raw[0]] + raw[1..];
    assert multiset(raw) == multiset{raw[0]} + multiset(raw[1..]);
    assert multiset(Flushed(run)) == multiset(run) + multiset(Pairs(run));
    assert multiset(run + raw) == multiset(run) + multiset(raw);
  }

  lemma TokensAreMatchesAndPairs(value: string)
    ensures var raw := RawTokens(value, 0);
            && multiset(Tokens(value)) == multiset(raw) + multiset(AdjacentPairs(raw))
            && TokenCount(value) == |raw| + |AdjacentPairs(raw)|
  {
    var raw := RawTokens(value, 0);
    ScanContents(raw, []);
    assert [] + raw == raw;
    assert |multiset(Tokens(value))| == |Tokens(value)|;
  }

  // ----- the BM25 variant -----

  /** The non-empty pieces between hyphens. */
  function HyphenParts(t: string, piece: string): seq<string> {
    if t == [] then if piece == [] then [] else [piece]
    else if t[0] == '-' then (if piece == [] then [] else [piece]) + HyphenParts(t[1..], [])
    else HyphenParts(t[1..], piece + [t[0]])
  }

  function WithoutHyphens(t: string): (r: string)
    ensures '-' !in r && forall c :: c in r ==> c in t
  {
    if t == [] then []
    else (if t[0] == '-' then [] else [t[0]]) + WithoutHyphens(t[1..])
  }

  function Joined(parts: seq<string>): string {
    if parts == [] then [] else parts[0] + Joined(parts[1..])
  }

  lemma JoinedFront(piece: string, parts: seq<string>)
    ensures Joined((if piece == [] then [] else [piece]) + parts) == piece + Joined(parts)
  {
    if piece == [] {
      assert [] + parts == parts;
    } else {
      assert ([piece] + parts)[1..] == parts;
    }
  }

  /** The parts have characters, none of them a hyphen, and together they are the
      token's other characters in order. */
  lemma {:induction false} HyphenPartsAre(t: string, piece: string)
    requires '-' !in piece
    ensures forall part :: part in HyphenParts(t, piece) ==> part != [] && '-' !in part
    ensures Joined(HyphenParts(t, piece)) == piece + WithoutHyphens(t)
  {
    hide Joined;
    if t == [] {
      JoinedFront(piece, []);
      NoneJoined();
      assert HyphenParts(t, piece) == HyphenParts(t, piece) + [] && piece + [] == piece;
    } else {
      HyphenPartsAre(t[1..], if t[0] == '-' then [] else piece + [t[0]]);
      JoinedFront(piece, HyphenParts(t[1..], []));
      assert piece + ([t[0]] + WithoutHyphens(t[1..])) == piece + [t[0]] + WithoutHyphens(t[1..]);
    }
  }

  lemma NoneJoined()
    ensures Joined([]) == []
  {
  }

  /** Every hyphen cuts and nothing else does. */
  lemma {:induction false} HyphensCut(a: string, b: string, piece: string)
    ensures HyphenParts(a + "-" + b, piece) == HyphenParts(a, piece) + HyphenParts(b, [])
    ensures '-' !in a ==> HyphenParts(a, piece) == if piece + a == [] then [] else [piece + a]
  {
    if a == [] {
      assert (a + "-" + b)[1..] == b;
      assert piece + a == piece;
    } else {
      HyphensCut(a[1..], b, if a[0] == '-' then [] else piece + [a[0]]);
      assert (a + "-" + b)[1..] == a[1..] + "-" + b;
      assert piece + [a[0]] + a[1..] == piece + a;
      assert a[0] in a;
    }
  }

  function Bm25Terms(tokens: seq<string>): seq<string> {
    if tokens == [] then []
    else
      var last := tokens[|tokens| - 1];
      Bm25Terms(tokens[..|tokens| - 1]) + [last] + if '-' in last then HyphenParts(last, []) else []
  }

  method TokenizeBm25(value: string) returns (expanded: seq<string>)
    ensures expanded == Bm25Terms(Tokens(value))
  {
    var tokens := Tokenize(value);
    expanded := [];
    for i := 0 to |tokens|
      invariant expanded == Bm25Terms(tokens[..i])
    {
      assert tokens[..i + 1][..i] == tokens[..i];
      expanded := expanded + [tokens[i]];
      if '-' in tokens[i] {
        expanded := expanded + HyphenParts(tokens[i], []);
      }
    }
    assert tokens[..|tokens|] == tokens;
  }
}
