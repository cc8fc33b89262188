/** `_split_oversized_text`: sentences first, then words, then fixed windows. */
module Oversized {
  import opened Text
  import opened Tokenization
  import opened TokenCounting
  import opened Splitting

  /** The size promise for one piece of text: at most 2n - 1 tokens, and at most
      n if it has no CJK character. (A weight of 0 is an empty count.) */
  predicate SizeOk(s: string, n: nat) {
    Weight(s) <= 2 * n && (NoCjk(s) ==> Count(s) <= n)
  }

  lemma SizeOkMeans(s: string, n: nat)
    requires n >= 1
    ensures SizeOk(s, n) <==> TokenCount(s) <= 2 * n - 1 && (NoCjk(s) ==> TokenCount(s) <= n)
  {
    CountIsTokenCount(s);
  }

  lemma SizeOkCount(s: string, n: nat)
    requires Count(s) <= n
    ensures SizeOk(s, n)
  {
  }

  lemma {:induction false} NoCjkInJoin(parts: seq<string>, sep: string)
    requires NoCjk(Join(parts, sep))
    ensures forall part :: part in parts ==> NoCjk(part)
  {
    if |parts| > 1 {
      var init := parts[..|parts| - 1];
      assert forall c :: c in Join(init, sep) ==> c in Join(parts, sep);
      NoCjkInJoin(init, sep);
      assert forall part :: part in parts <==> part in init || part == parts[|parts| - 1];
    }
  }

  /** Parts whose own counts add up to at most n make a text of allowed size. */
  lemma JoinSizeOk(parts: seq<string>, sep: string, n: nat)
    requires Blank(sep) && sep != [] && SumCount(parts) <= n
    ensures SizeOk(Join(parts, sep), n)
  {
    hide Blank, Weight, Count, Join, NoCjk;
    WeightJoin(parts, sep);
    SumWeightBound(parts);
    if NoCjk(Join(parts, sep)) {
      NoCjkInJoin(parts, sep);
      NoCjkJoin(parts, sep);
    }
  }

  lemma LineSizeOk(parts: seq<string>, n: nat)
    requires SumCount(parts) <= n
    ensures SizeOk(Join(parts, " "), n)
  {
    hide SizeOk, SumCount;
    JoinSizeOk(parts, " ", n);
  }

  lemma VisibleSnoc(parts: seq<string>, part: string)
    ensures VisibleAll(parts + [part]) == VisibleAll(parts) + Visible(part)
  {
    assert (parts + [part])[..|parts|] == parts;
  }

  lemma VisibleSnocJoin(parts: seq<string>, current: seq<string>)
    ensures VisibleAll(parts + [Join(current, " ")]) == VisibleAll(parts + current)
  {
    VisibleSnoc(parts, Join(current, " "));
    VisibleJoin(current, " ");
    VisibleAllConcat(parts, current);
  }

  // ----- greedy grouping -----

  function Size(item: string, least: nat): (r: nat)
    ensures r >= Count(item) && r >= least
  {
    CountIsTokenCount(item);
    if TokenCount(item) >= least then TokenCount(item) else least
  }

  function SumSize(items: seq<string>, least: nat): nat {
    if items == [] then 0 else SumSize(items[..|items| - 1], least) + Size(items[|items| - 1], least)
  }

  /** Each item joins the group before it if it fits there, else it opens one. */
  function Groups(items: seq<string>, least: nat, maximum: nat): (r: seq<seq<string>>)
    ensures r == [] <==> items == []
  {
    if items == [] then []
    else
      var before, last := Groups(items[..|items| - 1], least, maximum), items[|items| - 1];
      if before != [] && SumSize(before[|before| - 1], least) + Size(last, least) <= maximum
      then before[..|before| - 1] + [before[|before| - 1] + [last]]
      else before + [[last]]
  }

  /** What the grouping is: nothing lost or reordered, a group of several fits,
      and no group could have taken the first item of the next. */
  ghost predicate Greedy(groups: seq<seq<string>>, least: nat, maximum: nat) {
    && (forall k :: 0 <= k < |groups| ==> groups[k] != [] && (|groups[k]| == 1 || SumSize(groups[k], least) <= maximum))
    && (forall i, k :: 0 <= i < k < |groups| && k == i + 1 ==>
          groups[k] != [] && SumSize(groups[i], least) + Size(groups[k][0], least) > maximum)
  }

  lemma SumSizeSnoc(items: seq<string>, item: string, least: nat)
    ensures SumSize(items + [item], least) == SumSize(items, least) + Size(item, least)
  {
    assert (items + [item])[..|items|] == items;
  }

  lemma GreedyGrows(front: seq<seq<string>>, open: seq<string>, item: string, least: nat, maximum: nat)
    requires Greedy(front + [open], least, maximum) && SumSize(open, least) + Size(item, least) <= maximum
    ensures Greedy(front + [open + [item]], least, maximum)
  {
    hide Size, SumSize;
    SumSizeSnoc(open, item, least);
    var was, now := front + [open], front + [open + [item]];
    assert was[|front|] == open && now[|front|] == open + [item];
    assert forall k :: 0 <= k < |front| ==> now[k] == was[k] == front[k];
  }

  lemma GreedyOpens(before: seq<seq<string>>, item: string, least: nat, maximum: nat)
    requires Greedy(before, least, maximum)
    requires before != [] ==> SumSize(before[|before| - 1], least) + Size(item, least) > maximum
    ensures Greedy(before + [[item]], least, maximum)
  {
    hide Size, SumSize;
  }

  lemma FlattenSnoc(groups: seq<seq<string>>, group: seq<string>)
    ensures Flatten(groups + [group]) == Flatten(groups) + group
  {
    assert (groups + [group])[..|groups|] == groups;
  }

  lemma {:induction false} GroupsAreGreedy(items: seq<string>, least: nat, maximum: nat)
    ensures Greedy(Groups(items, least, maximum), least, maximum)
    ensures Flatten(Groups(items, least, maximum)) == items
  {
    hide Size, SumSize, Greedy, Flatten;
    if items == [] {
      NoGroups(least, maximum);
    } else {
      var before, last := Groups(items[..|items| - 1], least, maximum), items[|items| - 1];
      GroupsAreGreedy(items[..|items| - 1], least, maximum);
      assert items == items[..|items| - 1] + [last];
      if before != [] && SumSize(before[|before| - 1], least) + Size(last, least) <= maximum {
        var front, open := before[..|before| - 1], before[|before| - 1];
        assert before == front + [open];
        GreedyGrows(front, open, last, least, maximum);
        FlattenSnoc(front, open);
        FlattenSnoc(front, open + [last]);
      } else {
        GreedyOpens(before, last, least, maximum);
        FlattenSnoc(before, [last]);
      }
    }
  }

  lemma NoGroups(least: nat, maximum: nat)
    ensures Greedy([], least, maximum) && Flatten<string>([]) == []
  {
  }

  lemma {:induction false} FlattenMember(groups: seq<seq<string>>, k: nat, item: string)
    requires k < |groups| && item in groups[k]
    ensures item in Flatten(groups)
  {
    if k < |groups| - 1 { FlattenMember(groups[..|groups| - 1], k, item); }
  }

  function JoinEach(groups: seq<seq<string>>): seq<string> {
    if groups == [] then [] else JoinEach(groups[..|groups| - 1]) + [Join(groups[|groups| - 1], " ")]
  }

  lemma JoinEachSnoc(groups: seq<seq<string>>, group: seq<string>)
    ensures JoinEach(groups + [group]) == JoinEach(groups) + [Join(group, " ")]
  {
    assert (groups + [group])[..|groups|] == groups;
  }

  /** The loop's open group is the last group of the items seen so far. */
  ghost predicate Opened(items: seq<string>, done: seq<seq<string>>, current: seq<string>, least: nat, maximum: nat) {
    Groups(items, least, maximum) == done + if current == [] then [] else [current]
  }

  lemma OpenedStep(items: seq<string>, done: seq<seq<string>>, current: seq<string>, item: string, least: nat, maximum: nat)
    requires Opened(items, done, current, least, maximum)
    requires current == [] ==> done == [] || SumSize(done[|done| - 1], least) > maximum
    ensures if current != [] && SumSize(current, least) + Size(item, least) <= maximum
            then Opened(items + [item], done, current + [item], least, maximum)
            else Opened(items + [item], done + if current == [] then [] else [current], [item], least, maximum)
  {
    assert (items + [item])[..|items|] == items;
    if current != [] {
      assert (done + [current])[..|done|] == done;
    }
  }

  /** Greedy packing of words; a word counts at least one. */
  method PackWords(words: seq<string>, maximum: nat) returns (parts: seq<string>)
    requires maximum >= 1
    ensures parts == JoinEach(Groups(words, 1, maximum))
    ensures VisibleAll(parts) == VisibleAll(words)
    ensures forall part :: part in parts ==> SizeOk(part, maximum) || part in words
  {
    hide *;
    parts := [];
    var current: seq<string>, currentTokens := [], 0;
    ghost var done: seq<seq<string>> := [];
    StartGroups(1, maximum);
    assert words[..0] == [];
    for i := 0 to |words|
      invariant parts == JoinEach(done) && Opened(words[..i], done, current, 1, maximum)
      invariant currentTokens == SumSize(current, 1)
      invariant current == [] ==> done == []
    {
      var word := words[i];
      var count := if TokenCount(word) >= 1 then TokenCount(word) else 1;
      SizeIs(word, 1);
      assert words[..i + 1] == words[..i] + [word];
      OpenedStep(words[..i], done, current, word, 1, maximum);
      if current != [] && currentTokens + count > maximum {
        JoinEachSnoc(done, current);
        parts, done := parts + [Join(current, " ")], done + [current];
        current, currentTokens := [], 0;
        StartGroups(1, maximum);
      }
      assert done + [] == done;
      SumSizeSnoc(current, word, 1);
      assert [] + [word] == [word];
      current := current + [word];
      currentTokens := currentTokens + count;
    }
    assert words[..|words|] == words;
    OpenedMeans(words, done, current, 1, maximum);
    if current != [] {
      JoinEachSnoc(done, current);
      parts := parts + [Join(current, " ")];
    }
    GroupsKeep(words, 1, maximum);
    WordGroupsSize(words, maximum);
  }

  lemma StartGroups(least: nat, maximum: nat)
    ensures Opened([], [], [], least, maximum) && JoinEach([]) == [] && SumSize([], least) == 0
  {
  }

  lemma SizeIs(item: string, least: nat)
    ensures Size(item, least) == if TokenCount(item) >= least then TokenCount(item) else least
    ensures Size(item, 0) == TokenCount(item)
  {
  }

  lemma OpenedMeans(items: seq<string>, done: seq<seq<string>>, current: seq<string>, least: nat, maximum: nat)
    requires Opened(items, done, current, least, maximum)
    ensures Groups(items, least, maximum) == if current == [] then done else done + [current]
  {
  }

  lemma {:induction false} JoinEachKeeps(groups: seq<seq<string>>)
    ensures VisibleAll(JoinEach(groups)) == VisibleAll(Flatten(groups))
  {
    if groups == [] {
      assert JoinEach(groups) == [] && Flatten(groups) == [];
    } else {
      hide VisibleAll, Visible, Join;
      var n := |groups| - 1;
      JoinEachKeeps(groups[..n]);
      VisibleSnocJoin(JoinEach(groups[..n]), groups[n]);
      VisibleAllConcat(JoinEach(groups[..n]), groups[n]);
      VisibleAllConcat(Flatten(groups[..n]), groups[n]);
    }
  }

  lemma GroupsKeep(items: seq<string>, least: nat, maximum: nat)
    ensures VisibleAll(JoinEach(Groups(items, least, maximum))) == VisibleAll(items)
  {
    GroupsAreGreedy(items, least, maximum);
    JoinEachKeeps(Groups(items, least, maximum));
  }

  lemma {:induction false} SumSizeCovers(items: seq<string>, least: nat)
    ensures SumCount(items) <= SumSize(items, least)
  {
    if items != [] { SumSizeCovers(items[..|items| - 1], least); }
  }

  lemma GroupSize(group: seq<string>, least: nat, maximum: nat)
    requires group != [] && (|group| == 1 || SumSize(group, least) <= maximum)
    ensures if |group| == 1 then Join(group, " ") == group[0] else SizeOk(Join(group, " "), maximum)
  {
    hide SizeOk, Count, SumCount, SumSize;
    if |group| == 1 {
      assert Join(group, " ") == group[0];
    } else {
      SumSizeCovers(group, least);
      LineSizeOk(group, maximum);
    }
  }

  lemma {:induction false} EachSize(groups: seq<seq<string>>, least: nat, maximum: nat)
    requires forall k :: 0 <= k < |groups| ==> groups[k] != [] && (|groups[k]| == 1 || SumSize(groups[k], least) <= maximum)
    ensures forall part :: part in JoinEach(groups) ==> SizeOk(part, maximum) || part in Flatten(groups)
  {
    hide SizeOk, Count, SumSize, Join;
    if groups != [] {
      EachSize(groups[..|groups| - 1], least, maximum);
      GroupSize(groups[|groups| - 1], least, maximum);
    }
  }

  lemma WordGroupsSize(words: seq<string>, maximum: nat)
    ensures forall part :: part in JoinEach(Groups(words, 1, maximum)) ==> SizeOk(part, maximum) || part in words
  {
    hide SizeOk, Count, SumSize, Join;
    GroupsAreGreedy(words, 1, maximum);
    EachSize(Groups(words, 1, maximum), 1, maximum);
  }

  lemma SumCountEmpty()
    ensures SumCount([]) == 0
  {
  }

  // ----- the whole splitting -----

  function Window(maximum: nat): (r: nat)
    ensures r >= 200 && r >= 3 * maximum && (r == 200 || r == 3 * maximum)
  {
    if maximum * 3 >= 200 then maximum * 3 else 200
  }

  function WindowParts(value: string, window: nat): seq<string>
    requires window >= 1
    decreases |value|
  {
    if |value| <= window then if value == "" then [] else [value]
    else [value[..window]] + WindowParts(value[window..], window)
  }

  lemma {:induction false} WindowsKeep(value: string, window: nat)
    requires window >= 1
    ensures VisibleAll(WindowParts(value, window)) == Visible(value)
    decreases |value|
  {
    hide Visible, VisibleAll;
    if |value| <= window {
      if value == "" { NothingVisible(); } else { AllOfOne(value); }
    } else {
      WindowsKeep(value[window..], window);
      VisibleConcat(value[..window], value[window..]);
      assert value == value[..window] + value[window..];
      AllOfOne(value[..window]);
      VisibleAllConcat([value[..window]], WindowParts(value[window..], window));
    }
  }

  lemma WindowsStep(value: string, window: nat)
    requires window >= 1 && value != ""
    ensures var end := if window <= |value| then window else |value|;
            WindowParts(value, window) == [value[..end]] + WindowParts(value[end..], window)
  {
    if |value| <= window {
      assert value[..|value|] == value && value[|value|..] == "";
      assert WindowParts("", window) == [];
    }
  }

  /** `range(0, len(value), window)` slices. */
  method Windows(value: string, window: nat) returns (parts: seq<string>)
    requires window >= 1
    ensures parts == WindowParts(value, window)
  {
    hide *;
    parts := [];
    var index := 0;
    assert value[0..] == value && [] + WindowParts(value, window) == WindowParts(value, window);
    while index < |value|
      invariant 0 <= index
      invariant parts + WindowParts(value[if index <= |value| then index else |value|..], window) == WindowParts(value, window)
    {
      var end := if index + window <= |value| then index + window else |value|;
      assert value[index..][..end - index] == value[index..end] && value[index..][end - index..] == value[end..];
      WindowsStep(value[index..], window);
      assert parts + ([value[index..end]] + WindowParts(value[end..], window))
          == parts + [value[index..end]] + WindowParts(value[end..], window);
      parts := parts + [value[index..end]];
      index := index + window;
    }
    NoWindows(window);
    assert parts + [] == parts && value[|value|..] == "";
  }

  lemma NoWindows(window: nat)
    requires window >= 1
    ensures WindowParts("", window) == []
  {
  }

  /** All items of the groups are shorter than `bound`. */
  ghost predicate Shorter(groups: seq<seq<string>>, bound: nat) {
    forall k :: 0 <= k < |groups| ==> groups[k] != [] && forall j :: 0 <= j < |groups[k]| ==> |groups[k][j]| < bound
  }

  lemma SentenceGroupsShorter(value: string, maximum: nat)
    requires |Sentences(value)| > 1
    ensures Shorter(Groups(Sentences(value), 0, maximum), |value|)
  {
    hide Groups, Size, SumSize, Sentences, Flatten;
    var groups := Groups(Sentences(value), 0, maximum);
    GroupsAreGreedy(Sentences(value), 0, maximum);
    forall k, j | 0 <= k < |groups| && 0 <= j < |groups[k]| ensures |groups[k][j]| < |value| {
      FlattenMember(groups, k, groups[k][j]);
      var i :| 0 <= i < |Sentences(value)| && Sentences(value)[i] == groups[k][j];
      SentenceShorter(value, i);
    }
  }

  predicate TooBig(group: seq<string>, maximum: nat) {
    |group| == 1 && TokenCount(group[0]) > maximum
  }

  /** Sentences grouped greedily, an oversized one split further; a text that is
      one oversized sentence is split into greedy groups of words, and a single
      oversized word into windows. */
  ghost function SplitParts(value: string, maximum: nat): seq<string>
    requires maximum >= 1
    decreases |value|, 1, 0
  {
    if TokenCount(value) <= maximum then [value]
    else if |Sentences(value)| > 1 then
      SentenceGroupsShorter(value, maximum);
      ExpandGroups(Groups(Sentences(value), 0, maximum), maximum, |value|)
    else if |Words(value)| <= 1 then WindowParts(value, Window(maximum))
    else JoinEach(Groups(Words(value), 1, maximum))
  }

  ghost function ExpandGroups(groups: seq<seq<string>>, maximum: nat, bound: nat): seq<string>
    requires maximum >= 1 && Shorter(groups, bound)
    decreases bound, 0, |groups|
  {
    if groups == [] then []
    else
      var group := groups[|groups| - 1];
      ExpandGroups(groups[..|groups| - 1], maximum, bound)
      + if TooBig(group, maximum) then SplitParts(group[0], maximum) else [Join(group, " ")]
  }

  lemma ExpandSnoc(groups: seq<seq<string>>, group: seq<string>, maximum: nat, bound: nat)
    requires maximum >= 1 && Shorter(groups + [group], bound)
    ensures Shorter(groups, bound)
    ensures ExpandGroups(groups + [group], maximum, bound) == ExpandGroups(groups, maximum, bound) +
            if TooBig(group, maximum) then SplitParts(group[0], maximum) else [Join(group, " ")]
  {
    assert (groups + [group])[..|groups|] == groups;
    assert forall k :: 0 <= k < |groups| ==> (groups + [group])[k] == groups[k];
  }

  /** Splitting loses, adds and reorders no visible character. */
  lemma {:induction false} SplitKeeps(value: string, maximum: nat)
    requires maximum >= 1
    ensures VisibleAll(SplitParts(value, maximum)) == Visible(value)
    decreases |value|, 1, 0
  {
    hide Visible, VisibleAll, Sentences, Words, Join;
    if TokenCount(value) <= maximum {
      AllOfOne(value);
    } else if |Sentences(value)| > 1 {
      SentenceGroupsShorter(value, maximum);
      GroupsAreGreedy(Sentences(value), 0, maximum);
      ExpandKeeps(Groups(Sentences(value), 0, maximum), maximum, |value|);
      SentencesKeep(value);
    } else if |Words(value)| <= 1 {
      WindowsKeep(value, Window(maximum));
    } else {
      WordsAreSolid(value);
      GroupsKeep(Words(value), 1, maximum);
    }
  }

  lemma {:induction false} ExpandKeeps(groups: seq<seq<string>>, maximum: nat, bound: nat)
    requires maximum >= 1 && Shorter(groups, bound)
    ensures VisibleAll(ExpandGroups(groups, maximum, bound)) == VisibleAll(Flatten(groups))
    decreases bound, 0, |groups|
  {
    hide Visible, VisibleAll, Join, TokenCount, SplitParts;
    if groups == [] {
      assert ExpandGroups(groups, maximum, bound) == [] && Flatten(groups) == [];
    } else {
      var front, group := groups[..|groups| - 1], groups[|groups| - 1];
      assert groups == front + [group];
      ExpandKeeps(front, maximum, bound);
      ExpandSnoc(front, group, maximum, bound);
      FlattenSnoc(front, group);
      VisibleAllConcat(Flatten(front), group);
      if TooBig(group, maximum) {
        SplitKeeps(group[0], maximum);
        AllOfOne(group[0]);
        assert group == [group[0]];
        VisibleAllConcat(ExpandGroups(front, maximum, bound), SplitParts(group[0], maximum));
      } else {
        VisibleSnocJoin(ExpandGroups(front, maximum, bound), group);
        VisibleAllConcat(ExpandGroups(front, maximum, bound), group);
      }
    }
  }

  predicate AllSizeOk(parts: seq<string>, maximum: nat) {
    forall part :: part in parts ==> SizeOk(part, maximum)
  }

  /** A part has an allowed size or holds at most one word. */
  predicate PartOk(part: string, maximum: nat) {
    SizeOk(part, maximum) || |Words(part)| <= 1
  }

  lemma ShorterSentence(value: string, s: string)
    requires |Sentences(value)| > 1 && s in Sentences(value)
    ensures |s| < |value|
  {
    var i :| 0 <= i < |Sentences(value)| && Sentences(value)[i] == s;
    SentenceShorter(value, i);
  }

  /** What a text must be like to be cut into parts of allowed size: it fits, or
      its sentences are like that, or its words, or the windows of its one word,
      have an allowed size. */
  ghost predicate Manageable(value: string, maximum: nat)
    decreases |value|
  {
    || TokenCount(value) <= maximum
    || (|Sentences(value)| > 1 && forall s :: s in Sentences(value) ==> (ShorterSentence(value, s); Manageable(s, maximum)))
    || (|Sentences(value)| <= 1 && |Words(value)| <= 1 && AllSizeOk(WindowParts(value, Window(maximum)), maximum))
    || (|Sentences(value)| <= 1 && |Words(value)| > 1 && AllSizeOk(Words(value), maximum))
  }

  ghost predicate AllManageable(items: seq<string>, maximum: nat) {
    forall s :: s in items ==> Manageable(s, maximum)
  }

  lemma ManageableIs(value: string, maximum: nat)
    ensures TokenCount(value) <= maximum ==> Manageable(value, maximum)
    ensures TokenCount(value) > maximum && |Sentences(value)| > 1 ==>
              (Manageable(value, maximum) <==> AllManageable(Sentences(value), maximum))
    ensures TokenCount(value) > maximum && |Sentences(value)| <= 1 ==>
              (Manageable(value, maximum) <==>
               AllSizeOk(if |Words(value)| <= 1 then WindowParts(value, Window(maximum)) else Words(value), maximum))
  {
    hide Sentences, Words, TokenCount, AllSizeOk, WindowParts;
  }

  lemma {:induction false} WindowsOneWord(value: string, window: nat)
    requires window >= 1 && |Words(value)| <= 1
    ensures forall part :: part in WindowParts(value, window) ==> |Words(part)| <= 1
    decreases |value|
  {
    hide Words;
    if |value| > window {
      assert value == value[..window] + value[window..];
      WordsGrow(value[..window], value[window..]);
      WindowsOneWord(value[window..], window);
    }
  }

  lemma WordsOneEach(words: seq<string>, s: string)
    requires words == Words(s)
    ensures forall w :: w in words ==> |Words(w)| == 1
  {
    hide Words, Solid;
    WordsAreSolid(s);
    forall w | w in words ensures |Words(w)| == 1 { SolidIsOneWord(w); }
  }

  /** Every part of any text has an allowed size or holds at most one word. */
  lemma {:induction false} SplitSizes(value: string, maximum: nat)
    requires maximum >= 1
    ensures forall part :: part in SplitParts(value, maximum) ==> PartOk(part, maximum)
    decreases |value|, 1, 0
  {
    hide Visible, VisibleAll, Sentences, Words, Join, SizeOk, Count, SumSize;
    CountIsTokenCount(value);
    if TokenCount(value) <= maximum {
      SizeOkCount(value, maximum);
    } else if |Sentences(value)| > 1 {
      SentenceGroupsShorter(value, maximum);
      GroupsAreGreedy(Sentences(value), 0, maximum);
      ExpandSizes(Groups(Sentences(value), 0, maximum), maximum, |value|);
    } else if |Words(value)| <= 1 {
      WindowsOneWord(value, Window(maximum));
    } else {
      WordGroupsSize(Words(value), maximum);
      WordsOneEach(Words(value), value);
    }
  }

  lemma {:induction false} ExpandSizes(groups: seq<seq<string>>, maximum: nat, bound: nat)
    requires maximum >= 1 && Shorter(groups, bound)
    requires forall k :: 0 <= k < |groups| ==> |groups[k]| == 1 || SumSize(groups[k], 0) <= maximum
    ensures forall part :: part in ExpandGroups(groups, maximum, bound) ==> PartOk(part, maximum)
    decreases bound, 0, |groups|
  {
    hide SumSize, SizeOk, Join, TokenCount, SplitParts, Count, Words;
    if groups != [] {
      var front, group := groups[..|groups| - 1], groups[|groups| - 1];
      assert groups == front + [group];
      ExpandSizes(front, maximum, bound);
      ExpandSnoc(front, group, maximum, bound);
      if TooBig(group, maximum) {
        SplitSizes(group[0], maximum);
      } else {
        OneGroup(group, 0, maximum);
      }
    }
  }

  /** A group that is not one big item is a line of allowed size, its items fit. */
  lemma OneGroup(group: seq<string>, least: nat, maximum: nat)
    requires group != [] && (|group| == 1 || SumSize(group, least) <= maximum) && !TooBig(group, maximum)
    ensures SizeOk(Join(group, " "), maximum)
    ensures forall s :: s in group ==> TokenCount(s) <= maximum
  {
    hide SizeOk, Join, TokenCount, Count, SumSize;
    GroupSize(group, least, maximum);
    if |group| == 1 {
      CountIsTokenCount(group[0]);
      SizeOkCount(group[0], maximum);
    } else {
      forall s | s in group ensures TokenCount(s) <= maximum {
        CountIsTokenCount(s);
        SumSizeMember(group, s, least);
      }
    }
  }

  /** The parts of a text all have an allowed size exactly when it is manageable. */
  lemma {:induction false} SplitSizesIff(value: string, maximum: nat)
    requires maximum >= 1
    ensures AllSizeOk(SplitParts(value, maximum), maximum) <==> Manageable(value, maximum)
    decreases |value|, 1, 0
  {
    hide *;
    SplitPartsIs(value, maximum);
    ManageableIs(value, maximum);
    if TokenCount(value) <= maximum {
      CountIsTokenCount(value);
      SizeOkCount(value, maximum);
      OneSizeOk(value, maximum);
    } else if |Sentences(value)| > 1 {
      var groups := Groups(Sentences(value), 0, maximum);
      GroupsAreGreedy(Sentences(value), 0, maximum);
      forall k: nat | k < |groups| ensures |groups[k]| == 1 || SumSize(groups[k], 0) <= maximum {
        GreedyFits(groups, 0, maximum, k);
      }
      ExpandSizesIff(groups, maximum, |value|);
    } else if |Words(value)| > 1 {
      GroupsAreGreedy(Words(value), 1, maximum);
      var groups := Groups(Words(value), 1, maximum);
      forall k: nat | k < |groups| ensures groups[k] != [] && (|groups[k]| == 1 || SumSize(groups[k], 1) <= maximum) {
        GreedyFits(groups, 1, maximum, k);
      }
      EachSizeIff(groups, 1, maximum);
    }
  }

  lemma OneSizeOk(part: string, maximum: nat)
    ensures AllSizeOk([part], maximum) <==> SizeOk(part, maximum)
  {
  }

  lemma AllSizeOkConcat(a: seq<string>, b: seq<string>, maximum: nat)
    ensures AllSizeOk(a + b, maximum) <==> AllSizeOk(a, maximum) && AllSizeOk(b, maximum)
  {
    hide SizeOk;
    assert forall part :: part in a + b <==> part in a || part in b;
  }

  lemma AllManageableConcat(a: seq<string>, b: seq<string>, maximum: nat)
    ensures AllManageable(a + b, maximum) <==> AllManageable(a, maximum) && AllManageable(b, maximum)
  {
    hide Manageable;
    assert forall s :: s in a + b <==> s in a || s in b;
  }

  lemma OneManageable(s: string, maximum: nat)
    ensures AllManageable([s], maximum) <==> Manageable(s, maximum)
  {
  }

  lemma {:induction false} ExpandSizesIff(groups: seq<seq<string>>, maximum: nat, bound: nat)
    requires maximum >= 1 && Shorter(groups, bound)
    requires forall k: nat :: k < |groups| ==> |groups[k]| == 1 || SumSize(groups[k], 0) <= maximum
    ensures AllSizeOk(ExpandGroups(groups, maximum, bound), maximum) <==> AllManageable(Flatten(groups), maximum)
    decreases bound, 0, |groups|
  {
    hide *;
    if groups == [] {
      NothingShorter(maximum, bound);
      NoGroups(0, maximum);
      NothingToSize(maximum);
    } else {
      var front, group := groups[..|groups| - 1], groups[|groups| - 1];
      assert groups == front + [group];
      ExpandSnoc(front, group, maximum, bound);
      ExpandSizesIff(front, maximum, bound);
      FlattenSnoc(front, group);
      ShorterAt(groups, bound, |front|);
      AllManageableConcat(Flatten(front), group, maximum);
      if TooBig(group, maximum) {
        TooBigIs(group, maximum);
        OneManageable(group[0], maximum);
        SplitSizesIff(group[0], maximum);
        AllSizeOkConcat(ExpandGroups(front, maximum, bound), SplitParts(group[0], maximum), maximum);
      } else {
        OneGroup(group, 0, maximum);
        OneSizeOk(Join(group, " "), maximum);
        AllSizeOkConcat(ExpandGroups(front, maximum, bound), [Join(group, " ")], maximum);
        FitsAreManageable(group, maximum);
      }
    }
  }

  lemma NothingToSize(maximum: nat)
    ensures AllSizeOk([], maximum) && AllManageable([], maximum)
  {
  }

  lemma ShorterAt(groups: seq<seq<string>>, bound: nat, k: nat)
    requires Shorter(groups, bound) && k < |groups|
    ensures groups[k] != [] && |groups[k][0]| < bound
  {
  }

  lemma TooBigIs(group: seq<string>, maximum: nat)
    requires TooBig(group, maximum)
    ensures group == [group[0]]
  {
  }

  lemma FitsAreManageable(items: seq<string>, maximum: nat)
    requires forall s :: s in items ==> TokenCount(s) <= maximum
    ensures AllManageable(items, maximum)
  {
    hide TokenCount, Manageable;
    forall s | s in items ensures Manageable(s, maximum) { ManageableIs(s, maximum); }
  }

  lemma {:induction false} EachSizeIff(groups: seq<seq<string>>, least: nat, maximum: nat)
    requires forall k: nat :: k < |groups| ==> groups[k] != [] && (|groups[k]| == 1 || SumSize(groups[k], least) <= maximum)
    ensures AllSizeOk(JoinEach(groups), maximum) <==> AllSizeOk(Flatten(groups), maximum)
  {
    hide *;
    if groups == [] {
      NoGroups(least, maximum);
      StartGroups(least, maximum);
    } else {
      var front, group := groups[..|groups| - 1], groups[|groups| - 1];
      assert groups == front + [group];
      EachSizeIff(front, least, maximum);
      JoinEachSnoc(front, group);
      FlattenSnoc(front, group);
      AllSizeOkConcat(JoinEach(front), [Join(group, " ")], maximum);
      AllSizeOkConcat(Flatten(front), group, maximum);
      OneSizeOk(Join(group, " "), maximum);
      GroupSizeIff(group, least, maximum);
    }
  }

  lemma GroupSizeIff(group: seq<string>, least: nat, maximum: nat)
    requires group != [] && (|group| == 1 || SumSize(group, least) <= maximum)
    ensures AllSizeOk(group, maximum) <==> SizeOk(Join(group, " "), maximum)
  {
    hide SizeOk, Join, Count, SumSize;
    GroupSize(group, least, maximum);
    if |group| > 1 {
      forall s | s in group ensures SizeOk(s, maximum) {
        SumSizeMember(group, s, least);
        SizeOkCount(s, maximum);
      }
    }
  }

  /** A text is manageable when no word of it has more than `maximum` tokens. */
  lemma {:induction false} SmallIsManageable(value: string, maximum: nat)
    requires maximum >= 1 && SmallWords(value, maximum)
    ensures Manageable(value, maximum)
    decreases |value|
  {
    hide Sentences, Words, TokenCount, SizeOk, WindowParts, Count, Manageable;
    ManageableIs(value, maximum);
    if TokenCount(value) > maximum {
      if |Sentences(value)| > 1 {
        forall s | s in Sentences(value) ensures Manageable(s, maximum) {
          ShorterSentence(value, s);
          var i: nat :| i < |Sentences(value)| && Sentences(value)[i] == s;
          SmallSentence(value, i, maximum);
          SmallIsManageable(s, maximum);
        }
      } else if |Words(value)| <= 1 {
        CountIsTokenCount(value);
        OneWord(value, maximum);
      } else {
        forall w | w in Words(value) ensures SizeOk(w, maximum) { SizeOkCount(w, maximum); }
      }
    }
  }

  // ----- a text that is not manageable -----

  /** `a,a,...,a` with `n + 1` letters: one word of as many tokens. */
  function Commas(n: nat): (r: string)
    ensures r != [] && r[|r| - 1] == 'a' && forall c :: c in r ==> c == 'a' || c == ','
  {
    if n == 0 then "a" else Commas(n - 1) + [','] + ['a']
  }

  lemma OneMoreToken(s: string)
    requires s != [] && s[|s| - 1] == 'a'
    ensures Count(s + [','] + ['a']) == Count(s) + 1
  {
    var comma, more := s + [','], s + [','] + ['a'];
    assert comma[..|s|] == s && more[..|comma|] == comma;
    assert Gain(comma) == 0 && Gain(more) == 1;
  }

  lemma OneToken()
    ensures Count("a") == 1
  {
    assert "a"[..0] == [];
  }

  lemma {:induction false} CommasCount(n: nat)
    ensures Count(Commas(n)) == n + 1
  {
    hide Count;
    if n == 0 {
      OneToken();
    } else {
      CommasCount(n - 1);
      OneMoreToken(Commas(n - 1));
    }
  }

  function Tangle(n: nat): string {
    "x " + Commas(n)
  }

  /** A word of twice the maximum among several words makes a text unmanageable:
      it becomes a part above both bounds. */
  lemma BigWordIsUnmanageable(value: string, word: string, maximum: nat)
    requires maximum >= 1 && TokenCount(value) > maximum && |Sentences(value)| <= 1
    requires |Words(value)| >= 2 && word in Words(value) && TokenCount(word) >= 2 * maximum
    ensures !Manageable(value, maximum) && word in SplitParts(value, maximum) && !SizeOk(word, maximum)
  {
    hide *;
    ManageableIs(value, maximum);
    LongWordStays(value, maximum, word);
    SizeOkMeans(word, maximum);
    NotAllSizeOk(Words(value), word, maximum);
  }

  /** For every maximum there is such a text. */
  lemma TangleIsUnmanageable(maximum: nat)
    requires maximum >= 1
    ensures !Manageable(Tangle(2 * maximum - 1), maximum)
    ensures Words(Tangle(2 * maximum - 1)) == ["x", Commas(2 * maximum - 1)]
    ensures TokenCount(Commas(2 * maximum - 1)) == 2 * maximum
  {
    var n: nat := 2 * maximum - 1;
    var value, word := Tangle(n), Commas(n);
    hide *;
    CommasCount(n);
    CountIsTokenCount(word);
    TangleIs(n);
    assert word == Words(value)[1];
    BigWordIsUnmanageable(value, word, maximum);
  }

  lemma NotAllSizeOk(parts: seq<string>, part: string, maximum: nat)
    requires part in parts && !SizeOk(part, maximum)
    ensures !AllSizeOk(parts, maximum)
  {
  }

  lemma TangleIs(n: nat)
    ensures Words(Tangle(n)) == ["x", Commas(n)] && |Sentences(Tangle(n))| <= 1
    ensures TokenCount(Tangle(n)) > n
  {
    var word := Commas(n);
    hide Commas, Words, Sentences, Count, TokenCount, IsWord, IsCjk;
    assert "x" + " " == "x ";
    SolidIsOneWord("x");
    SolidIsOneWord(word);
    WordsConcat("x", " ");
    WordsConcat("x ", word);
    forall c | c in "x " + word ensures !EndsSentence(c) {
      assert c in "x " || c in word;
    }
    NoEndOneSentence("x " + word);
    CommasCount(n);
    CountIsTokenCount(Tangle(n));
    CountSpaceBefore(word);
  }

  lemma CountSpaceBefore(word: string)
    ensures Count("x " + word) >= Count(word)
  {
    hide Count;
    CountConcat("x ", word);
  }

  lemma {:induction false} InSomeGroup(groups: seq<seq<string>>, item: string) returns (k: nat)
    requires item in Flatten(groups)
    ensures k < |groups| && item in groups[k]
  {
    var n := |groups| - 1;
    if item in groups[n] {
      k := n;
    } else {
      k := InSomeGroup(groups[..n], item);
    }
  }

  lemma {:induction false} SumSizeMember(items: seq<string>, item: string, least: nat)
    requires item in items
    ensures Size(item, least) <= SumSize(items, least)
  {
    hide Size;
    var n := |items| - 1;
    if item != items[n] {
      assert items == items[..n] + [items[n]];
      SumSizeMember(items[..n], item, least);
    }
  }

  lemma {:induction false} JoinEachHas(groups: seq<seq<string>>, k: nat)
    requires k < |groups|
    ensures Join(groups[k], " ") in JoinEach(groups)
  {
    hide Join;
    if k < |groups| - 1 { JoinEachHas(groups[..|groups| - 1], k); }
  }

  /** A word above the maximum in a sentence of several words stays whole, as a part
      of its own: there is no absolute bound on the size of a part. */
  lemma LongWordStays(value: string, maximum: nat, word: string)
    requires maximum >= 1 && TokenCount(value) > maximum && |Sentences(value)| <= 1
    requires |Words(value)| >= 2 && word in Words(value) && TokenCount(word) > maximum
    ensures word in SplitParts(value, maximum)
  {
    hide *;
    SplitPartsIs(value, maximum);
    var groups := Groups(Words(value), 1, maximum);
    GroupsAreGreedy(Words(value), 1, maximum);
    var k := InSomeGroup(groups, word);
    SizeIs(word, 1);
    SumSizeMember(groups[k], word, 1);
    GreedyFits(groups, 1, maximum, k);
    assert groups[k] == [word];
    JoinEachHas(groups, k);
    JoinOne(word);
  }

  lemma GreedyFits(groups: seq<seq<string>>, least: nat, maximum: nat, k: nat)
    requires Greedy(groups, least, maximum) && k < |groups|
    ensures groups[k] != [] && (|groups[k]| == 1 || SumSize(groups[k], least) <= maximum)
  {
  }

  lemma JoinOne(part: string)
    ensures Join([part], " ") == part
  {
  }

  lemma OpenedClose(items: seq<string>, done: seq<seq<string>>, current: seq<string>, least: nat, maximum: nat)
    requires Opened(items, done, current, least, maximum) && current != []
    ensures Opened(items, done + [current], [], least, maximum)
  {
  }

  lemma ShorterSnoc(groups: seq<seq<string>>, group: seq<string>, bound: nat)
    requires Shorter(groups, bound) && group != [] && forall j :: 0 <= j < |group| ==> |group[j]| < bound
    ensures Shorter(groups + [group], bound)
  {
  }

  lemma NothingShorter(maximum: nat, bound: nat)
    requires maximum >= 1
    ensures Shorter([], bound) && ExpandGroups([], maximum, bound) == []
  {
  }

  lemma SumSizeOne(item: string, least: nat)
    ensures SumSize([item], least) == Size(item, least)
  {
    assert [item] == [] + [item];
    SumSizeSnoc([], item, least);
  }

  lemma SplitPartsIs(value: string, maximum: nat)
    requires maximum >= 1
    ensures TokenCount(value) <= maximum ==> SplitParts(value, maximum) == [value]
    ensures TokenCount(value) > maximum && |Sentences(value)| > 1 ==>
              Shorter(Groups(Sentences(value), 0, maximum), |value|)
              && SplitParts(value, maximum) == ExpandGroups(Groups(Sentences(value), 0, maximum), maximum, |value|)
    ensures TokenCount(value) > maximum && |Sentences(value)| <= 1 ==>
              SplitParts(value, maximum) ==
                if |Words(value)| <= 1 then WindowParts(value, Window(maximum))
                else JoinEach(Groups(Words(value), 1, maximum))
  {
    hide Sentences, Words, TokenCount, Groups, WindowParts, JoinEach, ExpandGroups, Shorter;
    if |Sentences(value)| > 1 { SentenceGroupsShorter(value, maximum); }
  }

  method SplitSentences(value: string, maximum: nat) returns (parts: seq<string>)
    requires maximum >= 1 && TokenCount(value) > maximum && |Sentences(value)| > 1
    ensures parts == SplitParts(value, maximum)
    decreases |value|, 0
  {
    hide *;
    var sentences := Sentences(value);
    parts := [];
    var current: seq<string>, currentTokens := [], 0;
    ghost var done: seq<seq<string>> := [];
    StartGroups(0, maximum);
    NothingShorter(maximum, |value|);
    assert sentences[..0] == [];
    for i := 0 to |sentences|
      invariant Shorter(done, |value|) && parts == ExpandGroups(done, maximum, |value|)
      invariant Opened(sentences[..i], done, current, 0, maximum)
      invariant forall j :: 0 <= j < |current| ==> |current[j]| < |value|
      invariant currentTokens == SumSize(current, 0) <= maximum
      invariant current == [] ==> done == [] || SumSize(done[|done| - 1], 0) > maximum
    {
      var sentence := sentences[i];
      var count := TokenCount(sentence);
      SizeIs(sentence, 0);
      SentenceShorter(value, i);
      assert sentences[..i + 1] == sentences[..i] + [sentence];
      OpenedStep(sentences[..i], done, current, sentence, 0, maximum);
      if current != [] && currentTokens + count > maximum {
        NotTooBig(current, maximum);
        ShorterSnoc(done, current, |value|);
        ExpandSnoc(done, current, maximum, |value|);
        parts, done := parts + [Join(current, " ")], done + [current];
        current, currentTokens := [], 0;
        StartGroups(0, maximum);
      }
      assert done + [] == done;
      if count > maximum {
        var nested := SplitOversizedText(sentence, maximum);
        ShorterSnoc(done, [sentence], |value|);
        TooBigOne(sentence, maximum);
        ExpandSnoc(done, [sentence], maximum, |value|);
        OpenedClose(sentences[..i + 1], done, [sentence], 0, maximum);
        SumSizeOne(sentence, 0);
        parts, done := parts + nested, done + [[sentence]];
      } else {
        SumSizeSnoc(current, sentence, 0);
        assert [] + [sentence] == [sentence];
        current := current + [sentence];
        currentTokens := currentTokens + count;
      }
    }
    assert sentences[..|sentences|] == sentences;
    OpenedMeans(sentences, done, current, 0, maximum);
    SplitPartsIs(value, maximum);
    if current != [] {
      NotTooBig(current, maximum);
      ShorterSnoc(done, current, |value|);
      ExpandSnoc(done, current, maximum, |value|);
      parts := parts + [Join(current, " ")];
    }
  }

  lemma NotTooBig(group: seq<string>, maximum: nat)
    requires SumSize(group, 0) <= maximum
    ensures !TooBig(group, maximum)
  {
    if |group| == 1 {
      SumSizeOne(group[0], 0);
      assert group == [group[0]];
    }
  }

  lemma TooBigOne(item: string, maximum: nat)
    ensures TooBig([item], maximum) <==> TokenCount(item) > maximum
  {
  }

  /** `_split_oversized_text`. */
  method SplitOversizedText(value: string, maximum: nat) returns (parts: seq<string>)
    requires maximum >= 1
    ensures parts == SplitParts(value, maximum)
    ensures VisibleAll(parts) == Visible(value)
    ensures forall part :: part in parts ==> PartOk(part, maximum)
    ensures AllSizeOk(parts, maximum) <==> Manageable(value, maximum)
    decreases |value|, 1
  {
    hide *;
    SplitPartsIs(value, maximum);
    SplitKeeps(value, maximum);
    SplitSizes(value, maximum);
    SplitSizesIff(value, maximum);
    if TokenCount(value) <= maximum {
      return [value];
    }
    var sentences := Sentences(value);
    if |sentences| > 1 {
      parts := SplitSentences(value, maximum);
      return;
    }
    var words := Words(value);
    if |words| <= 1 {
      parts := Windows(value, Window(maximum));
      return;
    }
    parts := PackWords(words, maximum);
  }

  lemma SmallSentence(value: string, i: nat, maximum: nat)
    requires i < |Sentences(value)|
    ensures SmallWords(value, maximum) ==> SmallWords(Sentences(value)[i], maximum)
  {
    hide Sentences, Words, Count;
    SentencesKeep(value);
    forall w | w in Words(Sentences(value)[i]) ensures w in Words(value) {
      WordsAllMember(Sentences(value), i, w);
    }
  }
}
