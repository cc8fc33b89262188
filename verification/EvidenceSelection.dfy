/** Greedy selection of verified evidence under a token budget, a result limit
    and a per-source limit. */
module EvidenceSelection {
  import opened Wrappers
  import opened Sequences
  import Ordering
  import Tokenization

  datatype Evidence = Evidence(
    id: string, isLocal: bool, documentId: string, chunkId: string, canonicalId: Option<string>,
    relationPath: seq<string>, pageStart: int, pageEnd: int, content: string, score: real, selected: bool)

  datatype SelectedEvidence = SelectedEvidence(evidence: Evidence, rank: nat, tokenCount: nat)

  datatype Limits = Limits(budget: int, topK: int, perSource: nat)

  function EvidenceTokens(value: string): (r: nat)
    ensures r >= 1 && (|Tokenization.Tokens(value)| >= 1 ==> r == |Tokenization.Tokens(value)|)
    ensures Tokenization.Tokens(value) == [] ==> r == 1
  {
    var n := |Tokenization.Tokens(value)|;
    if n > 1 then n else 1
  }

  /** The document, else the canonical id, else the evidence id; "" and None do not count. */
  function SourceGroup(e: Evidence): (r: string)
    ensures e.documentId != "" ==> r == e.documentId
    ensures e.documentId == "" && e.canonicalId.Some? && e.canonicalId != Some("") ==> Some(r) == e.canonicalId
    ensures e.documentId == "" && (e.canonicalId == None || e.canonicalId == Some("")) ==> r == e.id
  {
    if e.documentId != "" then e.documentId
    else if e.canonicalId.Some? && e.canonicalId.value != "" then e.canonicalId.value
    else e.id
  }

  predicate HigherScore(a: Evidence, b: Evidence) {
    a.score > b.score || (a.score == b.score && Ordering.StringLess(a.id, b.id))
  }

  lemma HigherScoreIsWeakOrder()
    ensures Ordering.WeakOrder(HigherScore)
  {
    forall a: Evidence, b: Evidence | HigherScore(a, b) ensures !HigherScore(b, a) {
      Ordering.StringLessTotal(a.id, b.id);
    }
    forall a: Evidence, b: Evidence, c: Evidence | HigherScore(a, c)
      ensures HigherScore(a, b) || HigherScore(b, c)
    {
      Ordering.StringLessTotal(a.id, b.id);
      if Ordering.StringLess(b.id, a.id) && Ordering.StringLess(a.id, c.id) {
        Ordering.StringLessTransitive(b.id, a.id, c.id);
      }
    }
  }

  /** `ordered` is all the evidence, best score first and equal scores by id;
      records with the same score and id keep their input order. */
  ghost predicate RanksAll(evidence: seq<Evidence>, ordered: seq<Evidence>) {
    && multiset(ordered) == multiset(evidence) && Ordering.Ordered(ordered, HigherScore)
    && forall e :: Filter(ordered, SameRecord(e)) == Filter(evidence, SameRecord(e))
  }

  function SameRecord(e: Evidence): Evidence -> bool {
    (x: Evidence) => x.score == e.score && x.id == e.id
  }

  lemma SortRanksAll(evidence: seq<Evidence>)
    ensures RanksAll(evidence, Ordering.Sort(evidence, HigherScore))
  {
    HigherScoreIsWeakOrder();
    Ordering.SortKeeps(evidence, HigherScore);
    Ordering.SortOrders(evidence, HigherScore);
    forall e: Evidence
      ensures Filter(Ordering.Sort(evidence, HigherScore), SameRecord(e)) == Filter(evidence, SameRecord(e))
    {
      Ordering.SortIsStable(evidence, HigherScore, e);
      SameRankIsSameRecord(evidence, e);
      SameRankIsSameRecord(Ordering.Sort(evidence, HigherScore), e);
    }
  }

  lemma SameRankOne(x: Evidence, e: Evidence)
    ensures Ordering.SameRank(HigherScore, e)(x) <==> SameRecord(e)(x)
  {
    Ordering.StringLessTotal(x.id, e.id);
    Ordering.StringLessTotal(e.id, e.id);
    assert Ordering.SameRank(HigherScore, e)(x) <==> !HigherScore(x, e) && !HigherScore(e, x);
  }

  lemma {:induction false} SameRankIsSameRecord(evidence: seq<Evidence>, e: Evidence)
    ensures Filter(evidence, Ordering.SameRank(HigherScore, e)) == Filter(evidence, SameRecord(e))
  {
    if evidence != [] {
      SameRankIsSameRecord(evidence[..|evidence| - 1], e);
      SameRankOne(evidence[|evidence| - 1], e);
    }
  }

  // ----- choices: increasing positions in the ranked list -----

  function Used(ordered: seq<Evidence>, chosen: seq<nat>): nat
    requires forall j :: 0 <= j < |chosen| ==> chosen[j] < |ordered|
  {
    if chosen == [] then 0
    else Used(ordered, chosen[..|chosen| - 1]) + EvidenceTokens(ordered[chosen[|chosen| - 1]].content)
  }

  function FromSource(ordered: seq<Evidence>, chosen: seq<nat>, group: string): nat
    requires forall j :: 0 <= j < |chosen| ==> chosen[j] < |ordered|
  {
    if chosen == [] then 0
    else FromSource(ordered, chosen[..|chosen| - 1], group)
         + if SourceGroup(ordered[chosen[|chosen| - 1]]) == group then 1 else 0
  }

  ghost predicate Choice(ordered: seq<Evidence>, chosen: seq<nat>) {
    && (forall j :: 0 <= j < |chosen| ==> chosen[j] < |ordered|)
    && (forall i, j :: 0 <= i < j < |chosen| ==> chosen[i] < chosen[j])
  }

  /** Adding position `i` to `chosen` would break no limit. */
  ghost predicate Fits(ordered: seq<Evidence>, limits: Limits, chosen: seq<nat>, i: nat)
    requires Choice(ordered, chosen) && i < |ordered|
  {
    && |chosen| < limits.topK
    && Used(ordered, chosen) + EvidenceTokens(ordered[i].content) <= limits.budget
    && FromSource(ordered, chosen, SourceGroup(ordered[i])) < limits.perSource
  }

  ghost predicate WithinLimits(ordered: seq<Evidence>, limits: Limits, chosen: seq<nat>)
    requires Choice(ordered, chosen)
  {
    && (chosen != [] ==> |chosen| <= limits.topK)
    && (chosen != [] ==> Used(ordered, chosen) <= limits.budget)
    && forall group :: FromSource(ordered, chosen, group) <= limits.perSource
  }

  function Prefix(chosen: seq<nat>, i: nat): (r: seq<nat>)
    ensures |r| <= |chosen| && r == chosen[..|r|]
  {
    if chosen != [] && chosen[|chosen| - 1] >= i then Prefix(chosen[..|chosen| - 1], i) else chosen
  }

  /** What greedy means, position by position: `i` is taken exactly when it fits
      beside everything taken before it. */
  ghost predicate Greedy(ordered: seq<Evidence>, limits: Limits, chosen: seq<nat>, upTo: nat)
    requires Choice(ordered, chosen) && upTo <= |ordered|
  {
    forall i: nat :: i < upTo ==> (i in chosen <==> Fits(ordered, limits, Prefix(chosen, i), i))
  }

  lemma UsedSnoc(ordered: seq<Evidence>, chosen: seq<nat>, i: nat)
    requires Choice(ordered, chosen) && i < |ordered|
    requires forall j :: 0 <= j < |chosen| ==> chosen[j] < i
    ensures Choice(ordered, chosen + [i])
    ensures Used(ordered, chosen + [i]) == Used(ordered, chosen) + EvidenceTokens(ordered[i].content)
    ensures forall g :: FromSource(ordered, chosen + [i], g) ==
                        FromSource(ordered, chosen, g) + if SourceGroup(ordered[i]) == g then 1 else 0
  {
    assert (chosen + [i])[..|chosen|] == chosen;
  }

  lemma {:induction false} PrefixGrows(ordered: seq<Evidence>, chosen: seq<nat>, n: nat)
    requires Choice(ordered, chosen) && n <= |chosen|
    ensures Choice(ordered, chosen[..n])
    ensures Used(ordered, chosen[..n]) <= Used(ordered, chosen)
    ensures forall g :: FromSource(ordered, chosen[..n], g) <= FromSource(ordered, chosen, g)
    decreases |chosen|
  {
    if n == |chosen| {
      assert chosen[..n] == chosen;
    } else {
      var front := chosen[..|chosen| - 1];
      PrefixGrows(ordered, front, n);
      assert front[..n] == chosen[..n];
    }
  }

  lemma {:induction false} PrefixOfSnoc(chosen: seq<nat>, i: nat, k: nat)
    requires i <= k
    ensures Prefix(chosen + [k], i) == Prefix(chosen, i)
  {
    assert (chosen + [k])[..|chosen|] == chosen;
  }

  lemma {:induction false} PrefixAll(chosen: seq<nat>, i: nat)
    requires forall j :: 0 <= j < |chosen| ==> chosen[j] < i
    ensures Prefix(chosen, i) == chosen
  {
    if chosen != [] { assert chosen[|chosen| - 1] < i; }
  }

  lemma StepTaken(ordered: seq<Evidence>, limits: Limits, chosen: seq<nat>, n: nat)
    requires Choice(ordered, chosen) && n < |ordered| && Greedy(ordered, limits, chosen, n)
    requires forall j :: 0 <= j < |chosen| ==> chosen[j] < n
    requires WithinLimits(ordered, limits, chosen) && Fits(ordered, limits, chosen, n)
    ensures Choice(ordered, chosen + [n]) && Greedy(ordered, limits, chosen + [n], n + 1)
    ensures WithinLimits(ordered, limits, chosen + [n])
  {
    hide Used, FromSource, Prefix;
    UsedSnoc(ordered, chosen, n);
    PrefixAll(chosen, n);
    forall i: nat | i < n + 1
      ensures i in chosen + [n] <==> Fits(ordered, limits, Prefix(chosen + [n], i), i)
    {
      PrefixOfSnoc(chosen, i, n);
      if i == n { assert (chosen + [n])[|chosen|] == n; }
    }
  }

  lemma StepSkipped(ordered: seq<Evidence>, limits: Limits, chosen: seq<nat>, n: nat)
    requires Choice(ordered, chosen) && n < |ordered| && Greedy(ordered, limits, chosen, n)
    requires forall j :: 0 <= j < |chosen| ==> chosen[j] < n
    requires !Fits(ordered, limits, chosen, n)
    ensures Greedy(ordered, limits, chosen, n + 1)
  {
    PrefixAll(chosen, n);
    forall i: nat | i < n + 1
      ensures i in chosen <==> Fits(ordered, limits, Prefix(chosen, i), i)
    {
    }
  }

  /** A full result takes nothing more. */
  lemma {:induction false} FullStays(ordered: seq<Evidence>, limits: Limits, chosen: seq<nat>, n: nat)
    requires Choice(ordered, chosen) && n <= |ordered| && Greedy(ordered, limits, chosen, n)
    requires forall j :: 0 <= j < |chosen| ==> chosen[j] < n
    requires |chosen| >= limits.topK
    ensures Greedy(ordered, limits, chosen, |ordered|)
    decreases |ordered| - n
  {
    if n < |ordered| {
      StepSkipped(ordered, limits, chosen, n);
      FullStays(ordered, limits, chosen, n + 1);
    }
  }

  /** Nothing left out could still be added to the finished selection. */
  lemma GreedyIsMaximal(ordered: seq<Evidence>, limits: Limits, chosen: seq<nat>, i: nat)
    requires Choice(ordered, chosen) && Greedy(ordered, limits, chosen, |ordered|)
    requires i < |ordered| && i !in chosen
    ensures !Fits(ordered, limits, chosen, i)
  {
    PrefixGrows(ordered, chosen, |Prefix(chosen, i)|);
  }

  /** The greedy choice is unique. */
  lemma {:induction false} GreedyIsUnique(ordered: seq<Evidence>, limits: Limits, a: seq<nat>, b: seq<nat>)
    requires Choice(ordered, a) && Choice(ordered, b)
    requires Greedy(ordered, limits, a, |ordered|) && Greedy(ordered, limits, b, |ordered|)
    ensures a == b
  {
    SamePrefix(ordered, limits, a, b, |ordered|);
    PrefixAll(a, |ordered|);
    PrefixAll(b, |ordered|);
  }

  lemma {:induction false} PrefixStep(ordered: seq<Evidence>, chosen: seq<nat>, n: nat)
    requires Choice(ordered, chosen)
    ensures Prefix(chosen, n + 1) == Prefix(chosen, n) + if n in chosen then [n] else []
    decreases |chosen|
  {
    if chosen != [] {
      var last, front := chosen[|chosen| - 1], chosen[..|chosen| - 1];
      assert chosen == front + [last];
      if last > n {
        PrefixStep(ordered, front, n);
        assert n in chosen <==> n in front;
      } else {
        PrefixAll(chosen, n + 1);
        if last == n {
          PrefixAll(front, n);
        } else {
          PrefixAll(chosen, n);
          assert n !in chosen;
        }
      }
    }
  }

  lemma GreedyAt(ordered: seq<Evidence>, limits: Limits, chosen: seq<nat>, i: nat)
    requires Choice(ordered, chosen) && i < |ordered| && Greedy(ordered, limits, chosen, |ordered|)
    ensures Choice(ordered, Prefix(chosen, i))
    ensures i in chosen <==> Fits(ordered, limits, Prefix(chosen, i), i)
  {
    hide Used, FromSource, Fits;
  }

  lemma {:induction false} SamePrefix(ordered: seq<Evidence>, limits: Limits, a: seq<nat>, b: seq<nat>, n: nat)
    requires Choice(ordered, a) && Choice(ordered, b) && n <= |ordered|
    requires Greedy(ordered, limits, a, |ordered|) && Greedy(ordered, limits, b, |ordered|)
    ensures Prefix(a, n) == Prefix(b, n)
  {
    hide *;
    if n == 0 {
      NothingBeforeZero(a);
      NothingBeforeZero(b);
    } else {
      GreedyAt(ordered, limits, a, n - 1);
      GreedyAt(ordered, limits, b, n - 1);
      SamePrefix(ordered, limits, a, b, n - 1);
      PrefixStep(ordered, a, n - 1);
      PrefixStep(ordered, b, n - 1);
    }
  }

  lemma {:induction false} NothingBeforeZero(chosen: seq<nat>)
    ensures Prefix(chosen, 0) == []
  {
    if chosen != [] { NothingBeforeZero(chosen[..|chosen| - 1]); }
  }

  // ----- the selection itself -----

  /** `selected` is `ordered` at the chosen positions, marked, ranked 1.. and weighed. */
  ghost predicate Reports(ordered: seq<Evidence>, chosen: seq<nat>, selected: seq<SelectedEvidence>) {
    && Choice(ordered, chosen) && |selected| == |chosen|
    && forall j :: 0 <= j < |selected| ==>
         var e := ordered[chosen[j]];
         selected[j] == SelectedEvidence(e.(selected := true), j + 1, EvidenceTokens(e.content))
  }

  lemma StartsEmpty(ordered: seq<Evidence>, limits: Limits)
    ensures Choice(ordered, []) && Reports(ordered, [], [])
    ensures Greedy(ordered, limits, [], 0) && WithinLimits(ordered, limits, [])
    ensures Used(ordered, []) == 0 && forall g :: FromSource(ordered, [], g) == 0
  {
  }

  lemma FitsIff(ordered: seq<Evidence>, limits: Limits, chosen: seq<nat>, i: nat)
    requires Choice(ordered, chosen) && i < |ordered|
    ensures Choice(ordered, chosen) && (Fits(ordered, limits, chosen, i) <==>
              && |chosen| < limits.topK
              && Used(ordered, chosen) + EvidenceTokens(ordered[i].content) <= limits.budget
              && FromSource(ordered, chosen, SourceGroup(ordered[i])) < limits.perSource)
  {
  }

  lemma ReportsSnoc(ordered: seq<Evidence>, chosen: seq<nat>, selected: seq<SelectedEvidence>, n: nat)
    requires Reports(ordered, chosen, selected) && n < |ordered|
    requires forall j :: 0 <= j < |chosen| ==> chosen[j] < n
    ensures Reports(ordered, chosen + [n],
              selected + [SelectedEvidence(ordered[n].(selected := true), |selected| + 1, EvidenceTokens(ordered[n].content))])
  {
  }

  lemma ReportsLength(ordered: seq<Evidence>, chosen: seq<nat>, selected: seq<SelectedEvidence>)
    requires Reports(ordered, chosen, selected)
    ensures Choice(ordered, chosen) && |selected| == |chosen|
    ensures forall j :: 0 <= j < |chosen| ==> chosen[j] < |ordered|
  {
  }

  /** No higher score follows a lower one, and equal scores come by id. */
  ghost predicate ByScore(selected: seq<SelectedEvidence>) {
    forall i, k :: 0 <= i < k < |selected| ==>
      var a, b := selected[i].evidence, selected[k].evidence;
      a.score > b.score || (a.score == b.score && !Ordering.StringLess(b.id, a.id))
  }

  lemma ReportsByScore(ordered: seq<Evidence>, chosen: seq<nat>, selected: seq<SelectedEvidence>)
    requires Reports(ordered, chosen, selected) && Ordering.Ordered(ordered, HigherScore)
    ensures ByScore(selected)
  {
    forall i, k | 0 <= i < k < |selected|
      ensures var a, b := selected[i].evidence, selected[k].evidence;
              a.score > b.score || (a.score == b.score && !Ordering.StringLess(b.id, a.id))
    {
      assert !HigherScore(ordered[chosen[k]], ordered[chosen[i]]);
    }
  }

  method Select(evidence: seq<Evidence>, limits: Limits)
    returns (r: Result<seq<SelectedEvidence>, string>, used: nat, ghost chosen: seq<nat>)
    ensures r.Err? <==> limits.budget < 1
    ensures r.Ok? ==>
              var ordered := Ordering.Sort(evidence, HigherScore);
              && RanksAll(evidence, ordered) && Reports(ordered, chosen, r.value) && ByScore(r.value)
              && Greedy(ordered, limits, chosen, |ordered|)
              && WithinLimits(ordered, limits, chosen)
              && used == Used(ordered, chosen)
  {
    hide *;
    used, chosen := 0, [];
    if limits.budget < 1 { return Err("token_budget"), used, chosen; }
    var ordered := Ordering.Sort(evidence, HigherScore);
    SortRanksAll(evidence);
    var selected: seq<SelectedEvidence> := [];
    var counts: map<string, nat> := map[];
    var n := 0;
    StartsEmpty(ordered, limits);
    while n < |ordered| && |selected| < limits.topK
      invariant n <= |ordered| && Choice(ordered, chosen) && Reports(ordered, chosen, selected)
      invariant forall j :: 0 <= j < |chosen| ==> chosen[j] < |ordered|
      invariant forall j :: 0 <= j < |chosen| ==> chosen[j] < n
      invariant Greedy(ordered, limits, chosen, n) && WithinLimits(ordered, limits, chosen)
      invariant used == Used(ordered, chosen)
      invariant forall g :: (if g in counts then counts[g] else 0) == FromSource(ordered, chosen, g)
    {
      ReportsLength(ordered, chosen, selected);
      FitsIff(ordered, limits, chosen, n);
      var count, group := EvidenceTokens(ordered[n].content), SourceGroup(ordered[n]);
      var taken := if group in counts then counts[group] else 0;
      if used + count > limits.budget || taken >= limits.perSource {
        StepSkipped(ordered, limits, chosen, n);
      } else {
        StepTaken(ordered, limits, chosen, n);
        UsedSnoc(ordered, chosen, n);
        ReportsSnoc(ordered, chosen, selected, n);
        selected := selected + [SelectedEvidence(ordered[n].(selected := true), |selected| + 1, count)];
        used := used + count;
        counts := counts[group := taken + 1];
        chosen := chosen + [n];
      }
      n := n + 1;
    }
    ReportsLength(ordered, chosen, selected);
    if n < |ordered| { FullStays(ordered, limits, chosen, n); }
    RanksAreOrdered(evidence, ordered);
    ReportsByScore(ordered, chosen, selected);
    r := Ok(selected);
  }

  lemma RanksAreOrdered(evidence: seq<Evidence>, ordered: seq<Evidence>)
    requires RanksAll(evidence, ordered)
    ensures Ordering.Ordered(ordered, HigherScore)
  {
  }
}
