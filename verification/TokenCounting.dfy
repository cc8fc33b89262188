/** The counting law behind every token budget: the count as a left-to-right
    total, equal to the length of the token list, and what concatenation and
    joining by white space do to it. */
module TokenCounting {
  import opened Text
  import opened Tokenization

  // ----- the count, character by character -----

  /** The last token of `s` is a CJK character. */
  predicate LastCjk(s: string) {
    s != [] && (IsCjk(s[|s| - 1]) || (!IsWord(s[|s| - 1]) && LastCjk(s[..|s| - 1])))
  }

  /** The first token of `s` is a CJK character. */
  predicate FirstCjk(s: string) {
    s != [] && (IsCjk(s[0]) || (!IsWord(s[0]) && FirstCjk(s[1..])))
  }

  predicate HasToken(s: string) {
    exists c :: c in s && (IsWord(c) || IsCjk(c))
  }

  /** Tokens the last character of `s` completes or starts. */
  function Gain(s: string): nat
    requires s != []
  {
    var n := |s| - 1;
    if IsCjk(s[n]) then if LastCjk(s[..n]) then 2 else 1
    else if WordStart(s, n) then 1
    else 0
  }

  function Count(s: string): nat {
    if s == [] then 0 else Count(s[..|s| - 1]) + Gain(s)
  }

  // ----- it is the length of the token list -----

  lemma CountSnoc(s: string, i: nat)
    requires i < |s|
    ensures Count(s[..i + 1]) == Count(s[..i]) + Gain(s[..i + 1])
    ensures LastCjk(s[..i + 1]) == (IsCjk(s[i]) || (!IsWord(s[i]) && LastCjk(s[..i])))
    ensures Gain(s[..i + 1]) == if IsCjk(s[i]) then if LastCjk(s[..i]) then 2 else 1
                                else if WordStart(s, i) then 1 else 0
  {
    assert s[..i + 1][..i] == s[..i];
  }

  lemma JoinerIsNotCjk(c: char)
    ensures !(IsJoiner(c) && IsCjk(c)) && !(IsJoiner(c) && IsWord(c))
  {
  }

  /** Inside one match nothing more is counted. */
  lemma {:induction false} CountInToken(s: string, i: nat)
    requires i < |s| && IsWord(s[i])
    ensures Count(s[..TokenEnd(s, i)]) == Count(s[..i + 1])
    ensures !LastCjk(s[..TokenEnd(s, i)])
    decreases |s| - i
  {
    hide Count, Gain, LastCjk, IsCjk;
    WordIsNotCjk(s[i]);
    CountSnoc(s, i);
    if i + 1 < |s| && IsWord(s[i + 1]) {
      CountSnoc(s, i + 1);
      WordIsNotCjk(s[i + 1]);
      CountInToken(s, i + 1);
    } else if i + 2 < |s| && IsJoiner(s[i + 1]) && IsWord(s[i + 2]) {
      CountSnoc(s, i + 1);
      CountSnoc(s, i + 2);
      JoinerIsNotCjk(s[i + 1]);
      WordIsNotCjk(s[i + 2]);
      CountInToken(s, i + 2);
    }
  }

  /** The pair that joins the tokens before a position to those after it. */
  predicate PairAcross(s: string, i: nat)
    requires i <= |s|
  {
    LastCjk(s[..i]) && RawTokens(s, i) != [] && CjkToken(RawTokens(s, i)[0])
  }

  lemma WordTokenNotCjk(s: string, i: nat)
    requires i < |s| && IsWord(s[i])
    ensures !CjkToken(s[i..TokenEnd(s, i)])
  {
  }

  lemma {:induction false} CountFrom(s: string, i: nat)
    requires Boundary(s, i)
    ensures Count(s) == Count(s[..i]) + |RawTokens(s, i)| + |AdjacentPairs(RawTokens(s, i))|
                        + if PairAcross(s, i) then 1 else 0
    decreases |s| - i
  {
    hide Count, Gain, LastCjk;
    if i == |s| {
      assert s[..i] == s;
    } else if IsWord(s[i]) {
      var e := TokenEnd(s, i);
      CountSnoc(s, i);
      CountInToken(s, i);
      CountFrom(s, e);
      WordTokenNotCjk(s, i);
      assert RawTokens(s, i)[1..] == RawTokens(s, e);
    } else {
      CountSnoc(s, i);
      CountFrom(s, i + 1);
      if IsCjk(s[i]) {
        assert RawTokens(s, i)[1..] == RawTokens(s, i + 1);
      }
    }
  }

  /** The character-by-character total is the length of the token list. */
  lemma CountIsTokenCount(s: string)
    ensures Count(s) == TokenCount(s)
  {
    CountFrom(s, 0);
    TokensAreMatchesAndPairs(s);
    assert s[..0] == [];
  }

  // ----- prefixes -----

  lemma {:induction false} CountPrefix(s: string, i: nat, j: nat)
    requires i <= j <= |s|
    ensures Count(s[..i]) <= Count(s[..j])
    decreases j
  {
    if i < j {
      CountSnoc(s, j - 1);
      CountPrefix(s, i, j - 1);
    }
  }

  // ----- concatenation -----

  /** No match can continue past the end of `p`. */
  predicate Clean(p: string) {
    p == [] || (!IsWord(p[|p| - 1]) && !(|p| >= 2 && IsJoiner(p[|p| - 1]) && IsWord(p[|p| - 2])))
  }

  lemma {:induction false} LastCjkConcat(p: string, b: string)
    ensures LastCjk(p + b) == if HasToken(b) then LastCjk(b) else LastCjk(p)
  {
    if b == [] {
      assert p + b == p;
    } else {
      var init := b[..|b| - 1];
      assert (p + b)[..|p + b| - 1] == p + init;
      LastCjkConcat(p, init);
      assert b[|b| - 1] in b;
      assert forall c :: c in b <==> c in init || c == b[|b| - 1];
    }
  }

  lemma {:induction false} FirstCjkSnoc(b: string, c: char)
    ensures FirstCjk(b + [c]) == if HasToken(b) then FirstCjk(b) else IsCjk(c)
  {
    if b != [] {
      FirstCjkSnoc(b[1..], c);
      assert (b + [c])[1..] == b[1..] + [c];
      assert b[0] in b;
      assert forall x :: x in b <==> x in b[1..] || x == b[0];
    }
  }

  lemma GainConcat(p: string, b: string)
    requires Clean(p) && b != []
    ensures Gain(p + b) == Gain(b) +
            if IsCjk(b[|b| - 1]) && !HasToken(b[..|b| - 1]) && LastCjk(p) then 1 else 0
  {
    hide LastCjk, HasToken;
    var init := b[..|b| - 1];
    assert (p + b)[..|p + b| - 1] == p + init;
    LastCjkConcat(p, init);
    LastCjkConcat([], init);
    assert [] + init == init && !LastCjk([]) by { NoLastCjk(); }
    WordStartConcat(p, b);
  }

  lemma NoLastCjk()
    ensures !LastCjk([])
  {
  }

  lemma WordStartConcat(p: string, b: string)
    requires Clean(p) && b != []
    ensures WordStart(p + b, |p + b| - 1) <==> WordStart(b, |b| - 1)
  {
    hide IsWord, IsJoiner;
    var s, n := p + b, |p + b| - 1;
    assert s[n] == b[|b| - 1];
    assert n >= 1 ==> s[n - 1] == if |b| >= 2 then b[|b| - 2] else p[|p| - 1];
    assert n >= 2 ==> s[n - 2] == if |b| >= 3 then b[|b| - 3] else p[|p| - 3 + |b|];
  }

  /** Texts meeting at a clean boundary: the counts add up, plus one when a CJK
      token meets a CJK token. */
  lemma {:induction false} CountConcat(p: string, b: string)
    requires Clean(p)
    ensures Count(p + b) == Count(p) + Count(b) + if LastCjk(p) && FirstCjk(b) then 1 else 0
  {
    if b == [] {
      assert p + b == p;
    } else {
      var init, last := b[..|b| - 1], b[|b| - 1];
      assert (p + b)[..|p + b| - 1] == p + init;
      assert b == init + [last];
      CountConcat(p, init);
      GainConcat(p, b);
      FirstCjkSnoc(init, last);
      NoTokenNoFirst(init);
    }
  }

  lemma {:induction false} NoTokenNoFirst(b: string)
    ensures FirstCjk(b) ==> HasToken(b)
  {
    if b != [] {
      NoTokenNoFirst(b[1..]);
      assert b[0] in b;
      assert forall x :: x in b <==> x in b[1..] || x == b[0];
    }
  }

  /** Characters that belong to no token and end every match. */
  predicate Inert(s: string) {
    forall c :: c in s ==> !IsWord(c) && !IsCjk(c)
  }

  lemma {:induction false} CountInert(a: string, t: string)
    requires Inert(t)
    ensures Count(a + t) == Count(a)
    ensures LastCjk(a + t) == LastCjk(a)
  {
    if t == [] {
      assert a + t == a;
    } else {
      assert (a + t)[..|a + t| - 1] == a + t[..|t| - 1];
      CountInert(a, t[..|t| - 1]);
      assert t[|t| - 1] in t;
    }
  }

  lemma BlankIsInert(s: string)
    requires Blank(s)
    ensures Inert(s)
    ensures s != [] ==> forall a: string :: Clean(a + s)
  {
    if s != [] {
      forall a: string ensures Clean(a + s) {
        assert (a + s)[|a + s| - 1] == s[|s| - 1];
        assert s[|s| - 1] in s;
      }
    }
  }

  /** Joining by white space adds nothing, or one pair. */
  lemma CountSpaced(a: string, sep: string, b: string)
    requires Blank(sep) && sep != []
    ensures Count(a + sep + b) == Count(a) + Count(b) + if LastCjk(a) && FirstCjk(b) then 1 else 0
  {
    BlankIsInert(sep);
    CountInert(a, sep);
    assert Clean(a + sep);
    CountConcat(a + sep, b);
  }

  lemma {:induction false} NoTokens(s: string)
    ensures Count(s) == 0 <==> !HasToken(s)
    ensures LastCjk(s) ==> Count(s) > 0
    ensures Inert(s) <==> !HasToken(s)
  {
    if s != [] {
      var init := s[..|s| - 1];
      NoTokens(init);
      assert s[|s| - 1] in s;
      assert forall c :: c in s <==> c in init || c == s[|s| - 1];
      if |init| > 0 { assert init[|init| - 1] in init; }
      if |init| > 1 { assert init[|init| - 2] in init; }
    }
  }

  // ----- joins -----

  /** The count with room for the pair a neighbour may add. */
  function Weight(s: string): nat {
    Count(s) + if Count(s) > 0 then 1 else 0
  }

  function SumCount(parts: seq<string>): nat {
    if parts == [] then 0 else SumCount(parts[..|parts| - 1]) + Count(parts[|parts| - 1])
  }

  function SumWeight(parts: seq<string>): nat {
    if parts == [] then 0 else SumWeight(parts[..|parts| - 1]) + Weight(parts[|parts| - 1])
  }

  lemma {:induction false} SumWeightBound(parts: seq<string>)
    ensures SumWeight(parts) <= 2 * SumCount(parts)
  {
    if parts != [] {
      SumWeightBound(parts[..|parts| - 1]);
    }
  }

  lemma WeightSpaced(a: string, sep: string, b: string)
    requires Blank(sep) && sep != []
    ensures Weight(a + sep + b) <= Weight(a) + Weight(b)
  {
    CountSpaced(a, sep, b);
    NoTokens(a);
    NoTokens(b);
    NoTokenNoFirst(b);
  }

  lemma {:induction false} WeightJoin(parts: seq<string>, sep: string)
    requires Blank(sep) && sep != []
    ensures Weight(Join(parts, sep)) <= SumWeight(parts)
  {
    if |parts| == 1 {
      assert parts[..0] == [];
    } else if parts != [] {
      WeightJoin(parts[..|parts| - 1], sep);
      WeightSpaced(Join(parts[..|parts| - 1], sep), sep, parts[|parts| - 1]);
    }
  }

  /** Parts that weigh at most 2n together join to at most 2n - 1 tokens. */
  lemma JoinBound(parts: seq<string>, sep: string, n: nat)
    requires Blank(sep) && sep != [] && n >= 1
    requires SumWeight(parts) <= 2 * n
    ensures Count(Join(parts, sep)) <= 2 * n - 1
  {
    WeightJoin(parts, sep);
  }

  predicate NoCjk(s: string) {
    forall c :: c in s ==> !IsCjk(c)
  }

  lemma {:induction false} NoCjkLast(s: string)
    requires NoCjk(s)
    ensures !LastCjk(s)
  {
    if s != [] {
      assert s[|s| - 1] in s;
      NoCjkLast(s[..|s| - 1]);
    }
  }

  /** Without CJK characters the count of a join is the sum of the counts. */
  lemma {:induction false} NoCjkJoin(parts: seq<string>, sep: string)
    requires Blank(sep) && sep != []
    requires forall part :: part in parts ==> NoCjk(part)
    ensures Count(Join(parts, sep)) == SumCount(parts)
    ensures NoCjk(Join(parts, sep))
  {
    if |parts| == 1 {
      assert parts[..0] == [];
      assert parts[0] in parts;
    } else if parts != [] {
      var init, last := parts[..|parts| - 1], parts[|parts| - 1];
      NoCjkJoin(init, sep);
      NoCjkLast(Join(init, sep));
      CountSpaced(Join(init, sep), sep, last);
      BlankIsInert(sep);
      assert last in parts;
    }
  }
}
