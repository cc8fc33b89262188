/** The context builder that consumes a selection. */
module SelectedContext {
  import opened Wrappers
  import opened EvidenceSelection
  import opened Text
  import opened TokenCounting
  import Tokenization
  import ContextBundles

  datatype ContextPack = ContextPack(evidence: seq<SelectedEvidence>, rendered: string, tokenCount: nat, budget: int)

  datatype BuildError = NotSelected | BudgetNotPositive | OverBudget

  function TotalTokens(evidence: seq<SelectedEvidence>): nat {
    if evidence == [] then 0
    else TotalTokens(evidence[..|evidence| - 1]) + evidence[|evidence| - 1].tokenCount
  }

  function Label(e: Evidence, index: nat): string {
    "[E" + ContextBundles.Decimal(index) + "] " + e.documentId
  }

  function Pages(e: Evidence): string {
    "pp. " + ContextBundles.IntText(e.pageStart) + "-" + ContextBundles.IntText(e.pageEnd)
  }

  function Line(e: Evidence, index: nat): string {
    Label(e, index) + " " + Pages(e) + "\n" + e.content
  }

  function Lines(evidence: seq<SelectedEvidence>): seq<string> {
    if evidence == [] then []
    else Lines(evidence[..|evidence| - 1]) + [Line(evidence[|evidence| - 1].evidence, |evidence|)]
  }

  function Rendered(evidence: seq<SelectedEvidence>): string {
    Join(Lines(evidence), "\n\n")
  }

  function Build(evidence: seq<SelectedEvidence>, budget: int): Result<ContextPack, BuildError> {
    if exists e :: e in evidence && !e.evidence.selected then Err(NotSelected)
    else if budget < 1 then Err(BudgetNotPositive)
    else if TotalTokens(evidence) > budget then Err(OverBudget)
    else Ok(ContextPack(evidence, Rendered(evidence), TotalTokens(evidence), budget))
  }

  lemma {:induction false} TotalIsUsed(ordered: seq<Evidence>, chosen: seq<nat>, selected: seq<SelectedEvidence>)
    requires Reports(ordered, chosen, selected)
    ensures TotalTokens(selected) == Used(ordered, chosen)
  {
    if selected != [] {
      TotalIsUsed(ordered, chosen[..|chosen| - 1], selected[..|selected| - 1]);
    }
  }

  /** The builder accepts every selection made under its own budget. */
  lemma SelectionBuilds(ordered: seq<Evidence>, limits: Limits, chosen: seq<nat>, selected: seq<SelectedEvidence>)
    requires Reports(ordered, chosen, selected) && WithinLimits(ordered, limits, chosen) && limits.budget >= 1
    ensures Build(selected, limits.budget) == Ok(ContextPack(selected, Rendered(selected), Used(ordered, chosen), limits.budget))
  {
    TotalIsUsed(ordered, chosen, selected);
  }

  // ----- what the recorded count leaves out -----

  lemma LabelHasToken(e: Evidence, index: nat)
    ensures Count(Label(e, index)) >= 1 && Count(Pages(e)) >= 1
  {
    assert Label(e, index)[1] == 'E' && Pages(e)[0] == 'p';
    assert Label(e, index)[1] in Label(e, index) && Pages(e)[0] in Pages(e);
    assert HasToken(Label(e, index)) && HasToken(Pages(e));
    NoTokens(Label(e, index));
    NoTokens(Pages(e));
  }

  lemma IntTextEnds(i: int)
    ensures ContextBundles.IntText(i) != []
    ensures var t := ContextBundles.IntText(i); '0' <= t[|t| - 1] <= '9'
  {
  }

  /** Labels and page ranges begin and end with words, so no CJK pair forms across
      them. */
  lemma LabelFences(e: Evidence, index: nat)
    ensures !FirstCjk(Line(e, index)) && !FirstCjk(Pages(e)) && !LastCjk(Label(e, index) + " " + Pages(e))
  {
    hide Count;
    var line, head := Line(e, index), Label(e, index) + " " + Pages(e);
    assert line[0] == '[' && line[1..][0] == 'E';
    assert Pages(e)[0] == 'p';
    IntTextEnds(e.pageEnd);
    var t := ContextBundles.IntText(e.pageEnd);
    assert head[|head| - 1] == t[|t| - 1];
  }

  /** A rendered line counts its label, its pages and its content, no more. */
  lemma LineCount(e: Evidence, index: nat)
    ensures Count(Line(e, index)) == Count(Label(e, index)) + Count(Pages(e)) + Count(e.content)
  {
    LabelFences(e, index);
    hide Count, Label, Pages, LastCjk, FirstCjk;
    assert Blank(" ") && Blank("\n");
    CountSpaced(Label(e, index), " ", Pages(e));
    CountSpaced(Label(e, index) + " " + Pages(e), "\n", e.content);
  }

  lemma {:induction false} JoinCounts(parts: seq<string>)
    requires forall part :: part in parts ==> !FirstCjk(part)
    ensures Count(Join(parts, "\n\n")) == SumCount(parts)
  {
    hide Count, FirstCjk, LastCjk;
    assert Blank("\n\n");
    if parts == [] {
      NoCount();
    } else if |parts| == 1 {
      assert parts[..0] == [];
    } else {
      JoinCounts(parts[..|parts| - 1]);
      CountSpaced(Join(parts[..|parts| - 1], "\n\n"), "\n\n", parts[|parts| - 1]);
    }
  }

  lemma NoCount()
    ensures Count("") == 0
  {
  }

  /** Every record stands in the rendered text under its number: its document, its
      pages and its whole content, in this order. */
  lemma RenderedShows(evidence: seq<SelectedEvidence>, k: nat)
    requires k < |evidence|
    ensures var e := evidence[k].evidence;
            ContextBundles.Contains(
              Rendered(evidence),
              "[E" + ContextBundles.Decimal(k + 1) + "] " + e.documentId + " pp. " + ContextBundles.IntText(e.pageStart) + "-"
              + ContextBundles.IntText(e.pageEnd) + "\n" + e.content)
  {
    hide ContextBundles.Contains, ContextBundles.Decimal, ContextBundles.IntText, Lines, Join;
    var e := evidence[k].evidence;
    LineAt(evidence, k);
    ContextBundles.JoinContains(Lines(evidence), k, "\n\n");
    assert Line(e, k + 1) ==
           "[E" + ContextBundles.Decimal(k + 1) + "] " + e.documentId + " pp. " + ContextBundles.IntText(e.pageStart) + "-"
           + ContextBundles.IntText(e.pageEnd) + "\n" + e.content;
  }

  lemma {:induction false} LineAt(evidence: seq<SelectedEvidence>, k: nat)
    requires k < |evidence|
    ensures |Lines(evidence)| == |evidence| && Lines(evidence)[k] == Line(evidence[k].evidence, k + 1)
  {
    hide Line;
    LinesLength(evidence);
    if k < |evidence| - 1 {
      LineAt(evidence[..|evidence| - 1], k);
    } else {
      LinesLength(evidence[..|evidence| - 1]);
    }
  }

  lemma {:induction false} LinesLength(evidence: seq<SelectedEvidence>)
    ensures |Lines(evidence)| == |evidence|
  {
    hide Line;
    if evidence != [] { LinesLength(evidence[..|evidence| - 1]); }
  }

  /** Tokens of the labels and page ranges. */
  function HeaderTokens(evidence: seq<SelectedEvidence>): nat {
    if evidence == [] then 0
    else
      var e := evidence[|evidence| - 1].evidence;
      HeaderTokens(evidence[..|evidence| - 1])
      + Tokenization.TokenCount(Label(e, |evidence|)) + Tokenization.TokenCount(Pages(e))
  }

  function ContentTokens(evidence: seq<SelectedEvidence>): nat {
    if evidence == [] then 0
    else ContentTokens(evidence[..|evidence| - 1]) + Tokenization.TokenCount(evidence[|evidence| - 1].evidence.content)
  }

  lemma {:induction false} LinesCount(evidence: seq<SelectedEvidence>)
    ensures SumCount(Lines(evidence)) == HeaderTokens(evidence) + ContentTokens(evidence)
    ensures forall line :: line in Lines(evidence) ==> !FirstCjk(line)
  {
    hide Count, Line, Label, Pages, FirstCjk, Tokenization.TokenCount;
    if evidence != [] {
      var n := |evidence| - 1;
      var e := evidence[n].evidence;
      LinesCount(evidence[..n]);
      LineCount(e, |evidence|);
      LabelFences(e, |evidence|);
      CountIsTokenCount(Label(e, |evidence|));
      CountIsTokenCount(Pages(e));
      CountIsTokenCount(e.content);
      assert Lines(evidence)[..|Lines(evidence)| - 1] == Lines(evidence[..n]);
    }
  }

  /** The rendered context counts its headers and its contents, exactly. */
  lemma RenderedIsHeadersAndContents(evidence: seq<SelectedEvidence>)
    ensures Tokenization.TokenCount(Rendered(evidence)) == HeaderTokens(evidence) + ContentTokens(evidence)
  {
    LinesCount(evidence);
    JoinCounts(Lines(evidence));
    CountIsTokenCount(Rendered(evidence));
  }

  /** What the builder records weighs contents only, an empty one as one token. */
  lemma {:induction false} RecordedCounts(evidence: seq<SelectedEvidence>)
    requires forall k :: 0 <= k < |evidence| ==> evidence[k].tokenCount == EvidenceTokens(evidence[k].evidence.content)
    ensures ContentTokens(evidence) <= TotalTokens(evidence)
    ensures HeaderTokens(evidence) + ContentTokens(evidence) >= TotalTokens(evidence) + |evidence|
  {
    hide Label, Pages, Tokenization.Tokens;
    if evidence != [] {
      var n := |evidence| - 1;
      var e := evidence[n].evidence;
      RecordedCounts(evidence[..n]);
      LabelHasToken(e, |evidence|);
      CountIsTokenCount(Label(e, |evidence|));
      CountIsTokenCount(Pages(e));
    }
  }

  /** The rendered context of a pack the builder accepts fits the budget exactly
      when the headers fit beside the contents; the recorded count, which is what
      the builder tests, is lower by at least one token for each item. */
  lemma RenderedFitsIff(ordered: seq<Evidence>, chosen: seq<nat>, selected: seq<SelectedEvidence>, budget: int)
    requires Reports(ordered, chosen, selected)
    ensures Tokenization.TokenCount(Rendered(selected)) <= budget <==>
            HeaderTokens(selected) + ContentTokens(selected) <= budget
    ensures Tokenization.TokenCount(Rendered(selected)) >= TotalTokens(selected) + |selected|
    ensures selected != [] && TotalTokens(selected) == budget ==> Tokenization.TokenCount(Rendered(selected)) > budget
  {
    RenderedIsHeadersAndContents(selected);
    RecordedCounts(selected);
  }

  const OVERFLOWING: Evidence := Evidence("e", true, "d", "c", None, [], 1, 1, "a", 0.0, true)

  /** One short passage under a budget of one token: accepted, and over budget as
      rendered. */
  lemma PackCanOverflow()
    ensures var selected := [SelectedEvidence(OVERFLOWING, 1, EvidenceTokens("a"))];
            && Reports([OVERFLOWING], [0], selected) && WithinLimits([OVERFLOWING], Limits(1, 1, 1), [0])
            && Build(selected, 1) == Ok(ContextPack(selected, Rendered(selected), 1, 1))
            && Tokenization.TokenCount(Rendered(selected)) > 1
  {
    var selected := [SelectedEvidence(OVERFLOWING, 1, EvidenceTokens("a"))];
    OneToken();
    hide EvidenceTokens, Rendered, Label, Pages;
    assert selected[..0] == [] && TotalTokens(selected) == 1;
    StartsEmpty([OVERFLOWING], Limits(1, 1, 1));
    UsedSnoc([OVERFLOWING], [], 0);
    assert [] + [0] == [0];
    RenderedIsHeadersAndContents(selected);
    RecordedCounts(selected);
  }

  lemma OneToken()
    ensures EvidenceTokens("a") == 1
  {
    CountIsTokenCount("a");
    assert "a"[..0] == "" && Count("") == 0;
    assert Tokenization.WordStart("a", 0);
  }
}
