/** Words, sentences, and the nested splitting of an oversized block text. */
module Splitting {
  import opened Text
  import opened TokenCounting

  // ----- words -----

  /** `str.split`: the maximal runs without white space. */
  function Words(s: string): (r: seq<string>)
    ensures r == [] <==> Blank(s)
  {
    if s == [] then []
    else
      var init, c := s[..|s| - 1], s[|s| - 1];
      if IsSpace(c) then Words(init)
      else if init == [] || IsSpace(init[|init| - 1]) then Words(init) + [[c]]
      else
        assert init[|init| - 1] in init;
        Words(init)[..|Words(init)| - 1] + [Words(init)[|Words(init)| - 1] + [c]]
  }

  lemma EndsInInk(s: string)
    requires s != [] && !IsSpace(s[|s| - 1])
    ensures Words(s) != []
  {
    hide IsSpace, Words;
    assert s[|s| - 1] in s;
  }

  lemma WordsSnoc(s: string, c: char)
    ensures var ws := Words(s);
            if IsSpace(c) then Words(s + [c]) == ws
            else if s == [] || IsSpace(s[|s| - 1]) then Words(s + [c]) == ws + [[c]]
            else ws != [] && Words(s + [c]) == ws[..|ws| - 1] + [ws[|ws| - 1] + [c]]
  {
    hide IsSpace, Blank;
    assert (s + [c])[..|s|] == s;
    if s != [] && !IsSpace(s[|s| - 1]) { EndsInInk(s); }
  }

  lemma {:induction false} WordsConcat(a: string, b: string)
    requires a == [] || IsSpace(a[|a| - 1]) || b == [] || IsSpace(b[0])
    ensures Words(a + b) == Words(a) + Words(b)
  {
    hide IsSpace, Blank, Words;
    assert Words([]) == [] by { NoWords(); }
    if b == [] {
      assert a + b == a;
    } else {
      var init, c := b[..|b| - 1], b[|b| - 1];
      assert a + b == (a + init) + [c] && b == init + [c];
      WordsConcat(a, init);
      WordsSnoc(a + init, c);
      WordsSnoc(init, c);
    }
  }

  lemma NoWords()
    ensures Words([]) == []
  {
  }

  /** A part of a text has no more words than the text. */
  lemma {:induction false} WordsGrow(a: string, b: string)
    ensures |Words(a)| <= |Words(a + b)| && |Words(b)| <= |Words(a + b)|
  {
    hide IsSpace, Blank, Words;
    if b == [] {
      assert a + b == a;
      NoWords();
    } else {
      var init, c := b[..|b| - 1], b[|b| - 1];
      assert a + b == (a + init) + [c] && b == init + [c];
      WordsGrow(a, init);
      WordsSnoc(a + init, c);
      WordsSnoc(init, c);
      if init == [] {
        NoWords();
        assert a + init == a;
      }
    }
  }

  lemma WordsPad(left: string, s: string, right: string)
    requires Blank(left) && Blank(right)
    ensures Words(left + s + right) == Words(s)
  {
    hide IsSpace, Words;
    if right != [] { assert right[0] in right; }
    if left != [] { assert left[|left| - 1] in left; }
    WordsConcat(left + s, right);
    WordsConcat(left, s);
  }

  lemma WordsStrip(s: string)
    ensures Words(Strip(s)) == Words(s)
  {
    var left, right := StripParts(s);
    WordsPad(left, Strip(s), right);
  }

  /** Words have characters, all visible. */
  predicate Solid(w: string) {
    w != [] && forall c :: c in w ==> !IsSpace(c)
  }

  lemma VisibleOne(c: char)
    ensures Visible([c]) == if IsSpace(c) then [] else [c]
  {
    hide IsSpace;
    assert [c][..0] == [];
  }

  lemma AppendToLast(ws: seq<string>, c: char)
    requires ws != [] && !IsSpace(c)
    ensures VisibleAll(ws[..|ws| - 1] + [ws[|ws| - 1] + [c]]) == VisibleAll(ws) + [c]
  {
    hide *;
    var init, last := ws[..|ws| - 1], ws[|ws| - 1];
    AppendToWord(init, last, c);
    assert init + [last] == ws;
  }

  lemma AppendToWord(init: seq<string>, last: string, c: char)
    requires !IsSpace(c)
    ensures VisibleAll(init + [last + [c]]) == VisibleAll(init + [last]) + [c]
  {
    hide *;
    VisibleOne(c);
    VisibleConcat(last, [c]);
    AllOfOne(last);
    AllOfOne(last + [c]);
    VisibleAllConcat(init, [last]);
    VisibleAllConcat(init, [last + [c]]);
    ConcatAssociative(VisibleAll(init), Visible(last), [c]);
  }

  lemma SolidSnoc(w: string, c: char)
    requires !IsSpace(c) && (w == [] || Solid(w))
    ensures Solid(w + [c])
  {
    hide IsSpace;
  }

  lemma {:induction false} WordsAreSolid(s: string)
    ensures forall w :: w in Words(s) ==> Solid(w)
    ensures VisibleAll(Words(s)) == Visible(s)
  {
    hide IsSpace, Blank, Visible, VisibleAll, Words, Solid;
    if s == [] {
      NoWords();
      assert VisibleAll([]) == [] && Visible([]) == [] by { NothingVisible(); }
    } else {
      var init, c := s[..|s| - 1], s[|s| - 1];
      var ws := Words(init);
      WordsAreSolid(init);
      assert s == init + [c];
      WordsSnoc(init, c);
      VisibleConcat(init, [c]);
      VisibleOne(c);
      if !IsSpace(c) {
        if init == [] || IsSpace(init[|init| - 1]) {
          VisibleAllConcat(ws, [[c]]);
          AllOfOne([c]);
          SolidSnoc([], c);
          assert [] + [c] == [c];
        } else {
          AppendToLast(ws, c);
          SolidSnoc(ws[|ws| - 1], c);
        }
      }
    }
  }

  lemma NothingVisible()
    ensures VisibleAll([]) == [] && Visible([]) == []
  {
  }

  predicate SmallWords(s: string, maximum: nat) {
    forall w :: w in Words(s) ==> Count(w) <= maximum
  }

  lemma CountPad(left: string, s: string, right: string)
    requires Blank(left) && Blank(right)
    ensures Count(left + s + right) == Count(s)
  {
    BlankIsInert(left);
    BlankIsInert(right);
    CountInert(left + s, right);
    CountInert([], left);
    assert [] + left == left;
    assert Clean(left) by { if left != [] { assert [] + left == left; } }
    CountConcat(left, s);
  }

  lemma CountStrip(s: string)
    ensures Count(Strip(s)) == Count(s)
  {
    var left, right := StripParts(s);
    CountPad(left, Strip(s), right);
  }

  /** A text with at most one word counts what that word counts. */
  lemma OneWord(s: string, maximum: nat)
    requires |Words(s)| <= 1 && SmallWords(s, maximum)
    ensures Count(s) <= maximum
  {
    hide IsSpace, Count, Blank, Words, Strip;
    var t := Strip(s);
    WordsStrip(s);
    CountStrip(s);
    if t == [] {
      CountEmpty();
    } else {
      OneWordSolid(t);
      SolidIsOneWord(t);
    }
  }

  lemma OneWordSolid(t: string)
    requires |Words(t)| <= 1 && t != [] && !IsSpace(t[0]) && !IsSpace(t[|t| - 1])
    ensures Solid(t)
  {
    hide IsSpace, Words;
    forall c | c in t ensures !IsSpace(c) {
      var i :| 0 <= i < |t| && t[i] == c;
      InnerSpaceSplits(t, i);
    }
  }

  lemma InnerSpaceSplits(t: string, i: nat)
    requires i < |t| && !IsSpace(t[0]) && !IsSpace(t[|t| - 1])
    ensures IsSpace(t[i]) ==> |Words(t)| >= 2
  {
    hide IsSpace;
    if IsSpace(t[i]) {
      var left, right := t[..i], t[i..];
      assert t == left + right;
      WordsConcat(left, right);
      assert left[0] in left && right[|right| - 1] in right;
    }
  }

  lemma CountEmpty()
    ensures Count([]) == 0
  {
  }

  lemma {:induction false} SolidIsOneWord(t: string)
    requires Solid(t)
    ensures Words(t) == [t]
  {
    hide IsSpace;
    var init := t[..|t| - 1];
    assert t == init + [t[|t| - 1]] && t[|t| - 1] in t;
    WordsSnoc(init, t[|t| - 1]);
    if init != [] {
      assert init[|init| - 1] in t;
      SolidIsOneWord(init);
    } else {
      NoWords();
    }
  }

  // ----- sentences -----

  predicate EndsSentence(c: char) {
    c == '.' || c == '!' || c == '?' || c == '\U{3002}' || c == '\U{ff01}' || c == '\U{ff1f}'
  }

  /** Splitting at white space that directly follows a sentence end; `piece` is
      what has been read since the last split. */
  function Pieces(s: string, piece: string): seq<string>
    decreases |s|
  {
    if s == [] then [piece]
    else if IsSpace(s[0]) && piece != [] && EndsSentence(piece[|piece| - 1]) then
      [piece] + Pieces(LStrip(s[1..]), [])
    else Pieces(s[1..], piece + [s[0]])
  }

  function StrippedInk(pieces: seq<string>): (r: seq<string>)
    ensures forall x :: x in r ==> !Blank(x)
  {
    if pieces == [] then []
    else
      var init, last := StrippedInk(pieces[..|pieces| - 1]), Strip(pieces[|pieces| - 1]);
      if last == [] then init else assert last[0] in last; init + [last]
  }

  function Sentences(value: string): (r: seq<string>)
    ensures forall x :: x in r ==> !Blank(x)
  {
    StrippedInk(Pieces(Strip(value), []))
  }

  // ----- where sentences are cut -----

  /** No sentence end inside `x` stands directly before white space. */
  predicate Unbroken(x: string) {
    forall i :: 0 <= i < |x| - 1 && EndsSentence(x[i]) ==> !IsSpace(x[i + 1])
  }

  predicate Ended(x: string) {
    x != [] && EndsSentence(x[|x| - 1])
  }

  /** The parts lie in `text` one after the other, from `starts` on, never touching. */
  ghost predicate CutOut(text: string, parts: seq<string>, starts: seq<nat>) {
    && |starts| == |parts|
    && (forall k :: 0 <= k < |parts| ==>
          starts[k] + |parts[k]| <= |text| && text[starts[k]..starts[k] + |parts[k]|] == parts[k])
    && forall i, k :: 0 <= i < k < |parts| ==> starts[i] + |parts[i]| < starts[k]
  }

  lemma CutOne(text: string, x: string, at: nat)
    requires at + |x| <= |text| && text[at..at + |x|] == x
    ensures CutOut(text, [x], [at])
  {
  }

  lemma CutCons(text: string, x: string, at: nat, parts: seq<string>, starts: seq<nat>)
    requires CutOut(text, parts, starts) && (starts != [] ==> at + |x| < starts[0])
    requires at + |x| <= |text| && text[at..at + |x|] == x
    ensures CutOut(text, [x] + parts, [at] + starts)
  {
    var xs, ats := [x] + parts, [at] + starts;
    forall i, k | 0 <= i < k < |xs| ensures ats[i] + |xs[i]| < ats[k] {
      if i > 0 {
        assert starts[i - 1] + |parts[i - 1]| < starts[k - 1];
      } else if k > 1 {
        assert starts[0] + |parts[0]| < starts[k - 1];
      }
    }
  }

  lemma CutSnoc(text: string, parts: seq<string>, starts: seq<nat>, x: string, at: nat)
    requires CutOut(text, parts, starts) && at + |x| <= |text| && text[at..at + |x|] == x
    requires starts != [] ==> starts[|starts| - 1] + |parts[|parts| - 1]| < at
    ensures CutOut(text, parts + [x], starts + [at])
  {
    forall i | 0 <= i < |parts| ensures starts[i] + |parts[i]| < at {
      if i < |parts| - 1 { assert starts[i] + |parts[i]| < starts[|starts| - 1]; }
    }
  }

  lemma CutFront(text: string, parts: seq<string>, starts: seq<nat>)
    requires CutOut(text, parts, starts) && parts != []
    ensures var n := |parts| - 1;
            && |starts| == n + 1 && CutOut(text, parts[..n], starts[..n])
            && starts[n] + |parts[n]| <= |text| && text[starts[n]..starts[n] + |parts[n]|] == parts[n]
            && (n > 0 ==> starts[n - 1] + |parts[n - 1]| < starts[n])
  {
  }

  /** All unbroken, and all but the last ended. */
  ghost predicate Proper(parts: seq<string>) {
    && (forall k :: 0 <= k < |parts| ==> Unbroken(parts[k]))
    && (forall k :: 0 <= k < |parts| - 1 ==> Ended(parts[k]))
  }

  lemma ProperCons(x: string, parts: seq<string>)
    requires Unbroken(x) && Ended(x) && Proper(parts)
    ensures Proper([x] + parts)
  {
    hide Unbroken, Ended;
    var xs := [x] + parts;
    assert forall k :: 0 <= k < |parts| ==> xs[k + 1] == parts[k];
    forall k | 0 <= k < |xs| - 1 ensures Ended(xs[k]) {
      if k > 0 { assert xs[k] == parts[k - 1]; }
    }
  }

  lemma UnbrokenSnoc(x: string, c: char)
    requires Unbroken(x) && !(IsSpace(c) && Ended(x))
    ensures Unbroken(x + [c])
  {
    hide IsSpace, EndsSentence;
    assert forall i :: 0 <= i < |x| ==> (x + [c])[i] == x[i];
  }

  /** `piece` is `text[at..i]` and what is still to be read is `text[i..]`. */
  lemma {:induction false} PiecesAre(text: string, at: nat, i: nat) returns (starts: seq<nat>)
    requires at <= i <= |text| && Unbroken(text[at..i])
    ensures var pieces := Pieces(text[i..], text[at..i]);
            pieces != [] && CutOut(text, pieces, starts) && starts != [] && starts[0] == at && Proper(pieces)
    decreases |text| - i
  {
    hide IsSpace, EndsSentence, LStrip, CutOut, Unbroken, Ended, Proper, Pieces;
    var s, piece := text[i..], text[at..i];
    PiecesIs(s, piece);
    if s == [] {
      starts := [at];
      CutOne(text, piece, at);
      ProperOne(piece);
    } else if IsSpace(s[0]) && Ended(piece) {
      var next := |text| - |LStrip(s[1..])|;
      assert LStrip(s[1..]) == text[next..] && text[next..next] == [];
      UnbrokenEmpty();
      var rest := PiecesAre(text, next, next);
      starts := [at] + rest;
      CutCons(text, piece, at, Pieces(text[next..], []), rest);
      ProperCons(piece, Pieces(text[next..], []));
    } else {
      assert text[at..i + 1] == piece + [s[0]] && text[i + 1..] == s[1..];
      UnbrokenSnoc(piece, s[0]);
      starts := PiecesAre(text, at, i + 1);
    }
  }

  lemma PiecesIs(s: string, piece: string)
    ensures s == [] ==> Pieces(s, piece) == [piece]
    ensures s != [] && IsSpace(s[0]) && Ended(piece) ==>
              Pieces(s, piece) == [piece] + Pieces(LStrip(s[1..]), []) && |LStrip(s[1..])| < |s| && piece != []
    ensures s != [] && !(IsSpace(s[0]) && Ended(piece)) ==> Pieces(s, piece) == Pieces(s[1..], piece + [s[0]])
  {
    hide IsSpace, EndsSentence, LStrip;
  }

  lemma UnbrokenEmpty()
    ensures Unbroken([])
  {
  }

  lemma ProperOne(x: string)
    requires Unbroken(x)
    ensures Proper([x])
  {
  }

  lemma EndIsInk(c: char)
    requires EndsSentence(c)
    ensures !IsSpace(c)
  {
  }

  /** Stripping cuts a part out of a part, and cuts no mark off its end. */
  lemma StripInside(x: string) returns (from: nat)
    ensures from + |Strip(x)| <= |x| && x[from..from + |Strip(x)|] == Strip(x)
  {
    hide IsSpace, Strip;
    var left, right := StripParts(x);
    from := |left|;
  }

  lemma UnbrokenInside(x: string, from: nat, y: string)
    requires Unbroken(x) && from + |y| <= |x| && x[from..from + |y|] == y
    ensures Unbroken(y)
  {
    hide IsSpace, EndsSentence;
    assert forall i :: 0 <= i < |y| ==> y[i] == x[from + i];
  }

  lemma StripEnded(x: string)
    requires Ended(x)
    ensures Ended(Strip(x))
  {
    hide IsSpace, EndsSentence, LStrip, Blank;
    EndIsInk(x[|x| - 1]);
    InkNotBlank(x, |x| - 1);
    assert RStrip(x) == x;
    assert Strip(x) == LStrip(x) && LStrip(x) == x[|x| - |LStrip(x)|..];
  }

  lemma InkNotBlank(x: string, i: nat)
    requires i < |x| && !IsSpace(x[i])
    ensures !Blank(x)
  {
    hide IsSpace;
    assert x[i] in x;
  }

  lemma {:induction false} InkIsCut(text: string, pieces: seq<string>, starts: seq<nat>) returns (cuts: seq<nat>)
    requires CutOut(text, pieces, starts)
    ensures CutOut(text, StrippedInk(pieces), cuts)
    ensures |cuts| == |StrippedInk(pieces)| && |starts| == |pieces|
    ensures cuts != [] ==>
              && pieces != []
              && cuts[|cuts| - 1] + |StrippedInk(pieces)[|cuts| - 1]| <= starts[|pieces| - 1] + |pieces[|pieces| - 1]|
  {
    hide Strip, Blank, CutOut;
    if pieces == [] {
      cuts := [];
      NothingCut(text, starts);
    } else {
      var n := |pieces| - 1;
      var front, last := pieces[..n], pieces[n];
      CutFront(text, pieces, starts);
      cuts := InkIsCut(text, front, starts[..n]);
      var from := StripInside(last);
      if Strip(last) != [] {
        var at, y := starts[n] + from, Strip(last);
        PartOfPart(text, starts[n], last, from, y);
        CutSnoc(text, StrippedInk(front), cuts, y, at);
        cuts := cuts + [at];
      }
    }
  }

  lemma PartOfPart(text: string, at: nat, x: string, from: nat, y: string)
    requires at + |x| <= |text| && text[at..at + |x|] == x && from + |y| <= |x| && x[from..from + |y|] == y
    ensures text[at + from..at + from + |y|] == y
  {
    assert forall i :: 0 <= i < |y| ==> y[i] == x[from + i] == text[at + (from + i)];
  }

  lemma NothingCut(text: string, starts: seq<nat>)
    requires CutOut(text, [], starts)
    ensures CutOut(text, [], []) && starts == []
  {
  }

  lemma {:induction false} InkIsProper(pieces: seq<string>)
    requires Proper(pieces)
    ensures Proper(StrippedInk(pieces))
    ensures pieces != [] && Ended(pieces[|pieces| - 1]) ==>
              StrippedInk(pieces) != [] && Ended(StrippedInk(pieces)[|StrippedInk(pieces)| - 1])
  {
    hide Strip, Blank, Unbroken, EndsSentence, Proper;
    if pieces == [] {
      ProperNothing();
    } else {
      var front, last := pieces[..|pieces| - 1], pieces[|pieces| - 1];
      ProperFront(pieces);
      InkIsProper(front);
      var from := StripInside(last);
      UnbrokenInside(last, from, Strip(last));
      if Ended(last) { StripEnded(last); }
      if Strip(last) != [] { ProperSnoc(StrippedInk(front), Strip(last)); }
    }
  }

  lemma ProperNothing()
    ensures Proper([]) && StrippedInk([]) == []
  {
  }

  lemma ProperFront(parts: seq<string>)
    requires Proper(parts) && parts != []
    ensures Proper(parts[..|parts| - 1]) && Unbroken(parts[|parts| - 1])
    ensures |parts| > 1 ==> Ended(parts[..|parts| - 1][|parts| - 2])
  {
    hide Unbroken, Ended;
  }

  lemma ProperSnoc(parts: seq<string>, x: string)
    requires Proper(parts) && Unbroken(x) && (parts != [] ==> Ended(parts[|parts| - 1]))
    ensures Proper(parts + [x])
  {
    hide Unbroken, Ended;
  }

  const MARKS: string := ".!?\U{3002}\U{ff01}\U{ff1f}"

  /** A text is cut into sentences exactly where white space directly follows one of
      the six marks: sentences are disjoint parts of the text, all but the last end
      with a mark, and in none of them a mark stands before white space. */
  lemma SentencesAreCut(value: string) returns (starts: seq<nat>)
    ensures CutOut(value, Sentences(value), starts)
    ensures forall k :: 0 <= k < |Sentences(value)| - 1 ==>
              var x := Sentences(value)[k]; x != [] && x[|x| - 1] in MARKS
    ensures forall k, i :: 0 <= k < |Sentences(value)| && 0 <= i < |Sentences(value)[k]| - 1 ==>
              Sentences(value)[k][i] in MARKS ==> !IsSpace(Sentences(value)[k][i + 1])
  {
    hide IsSpace, EndsSentence, Strip, Pieces, CutOut, Proper;
    var text := Strip(value);
    assert text[0..] == text && text[0..0] == [];
    UnbrokenEmpty();
    var at := PiecesAre(text, 0, 0);
    var cuts := InkIsCut(text, Pieces(text, []), at);
    InkIsProper(Pieces(text, []));
    var from := StripInside(value);
    starts := CutShift(value, from, text, Sentences(value), cuts);
    ProperMarks(Sentences(value));
  }

  lemma CutShift(value: string, from: nat, text: string, parts: seq<string>, cuts: seq<nat>) returns (starts: seq<nat>)
    requires from + |text| <= |value| && value[from..from + |text|] == text && CutOut(text, parts, cuts)
    ensures CutOut(value, parts, starts)
  {
    starts := seq(|cuts|, k requires 0 <= k < |cuts| => from + cuts[k]);
    forall k | 0 <= k < |parts| ensures value[starts[k]..starts[k] + |parts[k]|] == parts[k] {
      PartOfPart(value, from, text, cuts[k], parts[k]);
    }
  }

  lemma ProperMarks(parts: seq<string>)
    requires Proper(parts)
    ensures forall k :: 0 <= k < |parts| - 1 ==> parts[k] != [] && parts[k][|parts[k]| - 1] in MARKS
    ensures forall k, i :: 0 <= k < |parts| && 0 <= i < |parts[k]| - 1 ==>
              parts[k][i] in MARKS ==> !IsSpace(parts[k][i + 1])
  {
    hide IsSpace, EndsSentence;
    forall k | 0 <= k < |parts| - 1 ensures parts[k] != [] && parts[k][|parts[k]| - 1] in MARKS {
      assert Ended(parts[k]);
      MarksAre(parts[k][|parts[k]| - 1]);
    }
    forall k, i | 0 <= k < |parts| && 0 <= i < |parts[k]| - 1 && parts[k][i] in MARKS
      ensures !IsSpace(parts[k][i + 1])
    {
      MarksAre(parts[k][i]);
      assert Unbroken(parts[k]);
    }
  }

  lemma MarksAre(c: char)
    ensures EndsSentence(c) <==> c in MARKS
  {
    assert MARKS[0] == '.' && MARKS[1] == '!' && MARKS[2] == '?' && MARKS[3] == '\U{3002}'
           && MARKS[4] == '\U{ff01}' && MARKS[5] == '\U{ff1f}';
  }

  function WordsAll(parts: seq<string>): seq<string> {
    if parts == [] then [] else WordsAll(parts[..|parts| - 1]) + Words(parts[|parts| - 1])
  }

  lemma {:induction false} WordsAllConcat(a: seq<string>, b: seq<string>)
    ensures WordsAll(a + b) == WordsAll(a) + WordsAll(b)
  {
    hide Words;
    if b == [] {
      assert a + b == a;
    } else {
      WordsAllConcat(a, b[..|b| - 1]);
      assert (a + b)[..|a + b| - 1] == a + b[..|b| - 1];
    }
  }

  lemma AllOfOne(piece: string)
    ensures WordsAll([piece]) == Words(piece) && VisibleAll([piece]) == Visible(piece)
  {
    assert [piece][..0] == [];
  }

  lemma SkipSpace(s: string)
    ensures Words(LStrip(s)) == Words(s) && Visible(LStrip(s)) == Visible(s)
  {
    hide IsSpace, Words, LStrip, Visible;
    var left := LStripParts(s);
    WordsPad(left, LStrip(s), []);
    VisiblePad(left, LStrip(s), []);
    assert left + LStrip(s) + [] == s;
  }

  lemma SkipOne(s: string)
    requires s != [] && IsSpace(s[0])
    ensures Words(s) == Words(s[1..]) && Visible(s) == Visible(s[1..])
  {
    hide IsSpace, Words, Visible;
    WordsPad([s[0]], s[1..], []);
    VisiblePad([s[0]], s[1..], []);
    assert [s[0]] + s[1..] + [] == s;
  }

  /** Splitting into sentences keeps the words and the visible characters. */
  lemma {:induction false} PiecesKeep(s: string, piece: string)
    ensures WordsAll(Pieces(s, piece)) == Words(piece + s)
    ensures VisibleAll(Pieces(s, piece)) == Visible(piece + s)
    decreases |s|
  {
    hide IsSpace, EndsSentence, Words, Visible, LStrip, Blank;
    if s == [] {
      AllOfOne(piece);
      assert piece + s == piece;
    } else if IsSpace(s[0]) && piece != [] && EndsSentence(piece[|piece| - 1]) {
      var rest := LStrip(s[1..]);
      PiecesKeep(rest, []);
      assert [] + rest == rest;
      AllOfOne(piece);
      WordsAllConcat([piece], Pieces(rest, []));
      VisibleAllConcat([piece], Pieces(rest, []));
      SkipSpace(s[1..]);
      WordsConcat(piece, s);
      VisibleConcat(piece, s);
      SkipOne(s);
    } else {
      PiecesKeep(s[1..], piece + [s[0]]);
      assert piece + [s[0]] + s[1..] == piece + s;
    }
  }

  lemma NoInk()
    ensures Visible([]) == []
  {
  }

  lemma {:induction false} StrippedInkKeeps(pieces: seq<string>)
    ensures WordsAll(StrippedInk(pieces)) == WordsAll(pieces)
    ensures VisibleAll(StrippedInk(pieces)) == VisibleAll(pieces)
  {
    hide Words, Visible, Strip;
    if pieces != [] {
      var init, last := pieces[..|pieces| - 1], pieces[|pieces| - 1];
      NoWords();
      NoInk();
      StrippedInkKeeps(init);
      WordsStrip(last);
      VisibleStrip(last);
      if Strip(last) != [] {
        assert StrippedInk(pieces)[..|StrippedInk(init)|] == StrippedInk(init);
      }
    }
  }

  lemma SentencesKeep(value: string)
    ensures WordsAll(Sentences(value)) == Words(value)
    ensures VisibleAll(Sentences(value)) == Visible(value)
  {
    var s := Strip(value);
    PiecesKeep(s, []);
    assert [] + s == s;
    StrippedInkKeeps(Pieces(s, []));
    WordsStrip(value);
    VisibleStrip(value);
  }

  lemma {:induction false} WordsAllMember(parts: seq<string>, k: nat, w: string)
    requires k < |parts| && w in Words(parts[k])
    ensures w in WordsAll(parts)
  {
    if k < |parts| - 1 {
      WordsAllMember(parts[..|parts| - 1], k, w);
    }
  }

  function TotalLength(parts: seq<string>): nat {
    if parts == [] then 0 else TotalLength(parts[..|parts| - 1]) + |parts[|parts| - 1]|
  }

  lemma {:induction false} TotalLengthConcat(a: seq<string>, b: seq<string>)
    ensures TotalLength(a + b) == TotalLength(a) + TotalLength(b)
  {
    if b == [] {
      assert a + b == a;
    } else {
      TotalLengthConcat(a, b[..|b| - 1]);
      assert (a + b)[..|a + b| - 1] == a + b[..|b| - 1];
    }
  }

  lemma {:induction false} PiecesLength(s: string, piece: string)
    ensures TotalLength(Pieces(s, piece)) <= |piece| + |s|
    decreases |s|
  {
    if s == [] {
      assert [piece][..0] == [];
    } else if IsSpace(s[0]) && piece != [] && EndsSentence(piece[|piece| - 1]) {
      PiecesLength(LStrip(s[1..]), []);
      TotalLengthConcat([piece], Pieces(LStrip(s[1..]), []));
      assert [piece][..0] == [];
    } else {
      PiecesLength(s[1..], piece + [s[0]]);
    }
  }

  lemma {:induction false} StrippedInkLength(pieces: seq<string>)
    ensures TotalLength(StrippedInk(pieces)) <= TotalLength(pieces)
  {
    if pieces != [] {
      StrippedInkLength(pieces[..|pieces| - 1]);
      var init := StrippedInk(pieces[..|pieces| - 1]);
      if Strip(pieces[|pieces| - 1]) != [] {
        assert StrippedInk(pieces)[..|init|] == init;
      }
    }
  }

  lemma {:induction false} LengthMember(parts: seq<string>, k: nat)
    requires k < |parts| && forall i :: 0 <= i < |parts| ==> parts[i] != []
    ensures |parts[k]| + |parts| - 1 <= TotalLength(parts)
  {
    var init := parts[..|parts| - 1];
    if k < |parts| - 1 {
      LengthMember(init, k);
    } else if init != [] {
      LengthMember(init, 0);
    }
  }

  /** Every sentence of a text with several is shorter than the text. */
  lemma SentenceShorter(value: string, k: nat)
    requires |Sentences(value)| > 1 && k < |Sentences(value)|
    ensures |Sentences(value)[k]| < |value|
  {
    var sentences := Sentences(value);
    PiecesLength(Strip(value), []);
    StrippedInkLength(Pieces(Strip(value), []));
    forall i | 0 <= i < |sentences| ensures sentences[i] != [] {
      assert !Blank(sentences[i]) by { assert sentences[i] in sentences; }
    }
    LengthMember(sentences, k);
  }

  lemma {:induction false} NoEndOnePiece(s: string, piece: string)
    requires forall c :: c in s || c in piece ==> !EndsSentence(c)
    ensures Pieces(s, piece) == [piece + s]
    decreases |s|
  {
    if s == [] {
      assert piece + s == piece;
    } else {
      assert s[0] in s;
      NoEndOnePiece(s[1..], piece + [s[0]]);
      assert piece + [s[0]] + s[1..] == piece + s;
    }
  }

  lemma NoEndOneSentence(value: string)
    requires forall c :: c in value ==> !EndsSentence(c)
    ensures |Sentences(value)| <= 1
  {
    hide EndsSentence, Strip;
    var left, right := StripParts(value);
    NoEndOnePiece(Strip(value), []);
    assert [] + Strip(value) == Strip(value);
    OnePieceInk(Strip(value));
  }

  lemma OnePieceInk(piece: string)
    ensures |StrippedInk([piece])| <= 1
  {
    assert [piece][..0] == [];
  }
}
