/** When two contents count as the same text. */
module Fingerprints {
  import opened Text
  import opened Splitting

  /** White-space runs collapsed to one blank. */
  function Collapsed(s: string): string {
    if s == [] then []
    else if !IsSpace(s[|s| - 1]) then Collapsed(s[..|s| - 1]) + [s[|s| - 1]]
    else if |s| >= 2 && IsSpace(s[|s| - 2]) then Collapsed(s[..|s| - 1])
    else Collapsed(s[..|s| - 1]) + [' ']
  }

  /** The text whose digest identifies a content; the digest is taken as injective. */
  function Fingerprint(s: string): string {
    Strip(Collapsed(s))
  }

  lemma {:induction false} RStripOf(t: string, right: string)
    requires Blank(right) && t != [] && !IsSpace(t[|t| - 1])
    ensures RStrip(t + right) == t
  {
    hide IsSpace;
    if right == [] {
      assert t + right == t;
    } else {
      assert (t + right)[..|t + right| - 1] == t + right[..|right| - 1];
      assert right[|right| - 1] in right;
      RStripOf(t, right[..|right| - 1]);
    }
  }

  lemma {:induction false} LStripOf(left: string, t: string)
    requires Blank(left) && t != [] && !IsSpace(t[0])
    ensures LStrip(left + t) == t
  {
    hide IsSpace;
    if left == [] {
      assert left + t == t;
    } else {
      assert (left + t)[1..] == left[1..] + t;
      assert left[0] in left;
      LStripOf(left[1..], t);
    }
  }

  lemma StripOf(left: string, t: string, right: string)
    requires Blank(left) && Blank(right) && t != [] && !IsSpace(t[0]) && !IsSpace(t[|t| - 1])
    ensures Strip(left + t + right) == t
  {
    hide IsSpace, RStrip, LStrip, Blank;
    RStripOf(left + t, right);
    LStripOf(left, t);
  }

  lemma JoinSnoc(ws: seq<string>, w: string)
    requires ws != []
    ensures Join(ws + [w], " ") == Join(ws, " ") + " " + w
  {
    assert (ws + [w])[..|ws|] == ws;
  }

  lemma JoinGrows(ws: seq<string>, c: char)
    requires ws != []
    ensures Join(ws[..|ws| - 1] + [ws[|ws| - 1] + [c]], " ") == Join(ws, " ") + [c]
  {
    hide Join;
    var init, last := ws[..|ws| - 1], ws[|ws| - 1];
    assert ws == init + [last];
    if init == [] {
      assert ws == [last] && init + [last + [c]] == [last + [c]];
      JoinOne(last);
      JoinOne(last + [c]);
    } else {
      JoinSnoc(init, last);
      JoinSnoc(init, last + [c]);
      ConcatAssociative(Join(init, " ") + " ", last, [c]);
    }
  }

  function Edge(c: char): string {
    if IsSpace(c) then " " else ""
  }

  /** Collapsing leaves the words joined by single blanks, and one blank for white
      space at either end. */
  lemma {:induction false} CollapsedIs(s: string)
    ensures Words(s) == [] ==> Blank(Collapsed(s))
    ensures Words(s) != [] ==> s != [] && Collapsed(s) == Edge(s[0]) + Join(Words(s), " ") + Edge(s[|s| - 1])
    ensures Words(s) == [] && s != [] ==> Collapsed(s) == " "
  {
    hide IsSpace, Words, Blank, Join;
    if s == [] {
      NoWords();
      EmptyBlank();
    } else {
      var init, c := s[..|s| - 1], s[|s| - 1];
      assert s == init + [c];
      CollapsedIs(init);
      WordsSnoc(init, c);
      BlankLine();
      if init == [] {
        NoWords();
        CollapsedOne(c);
        JoinOne([c]);
        assert init + [c] == [c] && [] + [[c]] == [[c]];
      } else if !IsSpace(c) {
        if Words(init) == [] {
          BlankEnds(init);
          JoinOne([c]);
          assert s[0] == init[0] && Words(init) + [[c]] == [[c]];
        } else if IsSpace(init[|init| - 1]) {
          JoinSnoc(Words(init), [c]);
        } else {
          JoinGrows(Words(init), c);
        }
      } else if Words(init) == [] {
        BlankEnds(init);
      }
    }
  }

  lemma EmptyBlank()
    ensures Blank([]) && Collapsed([]) == []
  {
  }

  lemma BlankLine()
    ensures Blank(" ") && IsSpace(' ')
  {
  }

  lemma CollapsedOne(c: char)
    ensures Collapsed([c]) == if IsSpace(c) then " " else [c]
  {
    assert [c][..0] == [];
  }

  lemma JoinOne(w: string)
    ensures Join([w], " ") == w
  {
  }

  lemma BlankEnds(s: string)
    requires Words(s) == [] && s != []
    ensures IsSpace(s[0]) && IsSpace(s[|s| - 1])
  {
    assert s[0] in s && s[|s| - 1] in s;
  }

  /** Words are the pieces of the joined line again. */
  lemma {:induction false} WordsOfLine(ws: seq<string>)
    requires forall w :: w in ws ==> Solid(w)
    ensures Words(Join(ws, " ")) == ws
  {
    hide Words, Solid, Join, Blank;
    if ws == [] {
      NoWords();
      NothingJoined();
    } else {
      var init, last := ws[..|ws| - 1], ws[|ws| - 1];
      assert ws == init + [last];
      WordsOfLine(init);
      SolidIsOneWord(last);
      if init == [] {
        JoinOne(last);
        assert [last] == ws;
      } else {
        JoinSnoc(init, last);
        BlankLine();
        WordsConcat(Join(init, " "), " ");
        WordsConcat(Join(init, " ") + " ", last);
        BlankHasNone(" ");
      }
    }
  }

  lemma NothingJoined()
    ensures Join([], " ") == []
  {
  }

  lemma BlankHasNone(s: string)
    requires Blank(s)
    ensures Words(s) == []
  {
  }

  lemma LineEnds(ws: seq<string>)
    requires ws != [] && forall w :: w in ws ==> Solid(w)
    ensures var line := Join(ws, " "); line != [] && !IsSpace(line[0]) && !IsSpace(line[|line| - 1])
  {
    LineStarts(ws);
    var last := ws[|ws| - 1];
    assert Solid(last) && last[|last| - 1] in last;
  }

  lemma {:induction false} LineStarts(ws: seq<string>)
    requires ws != [] && forall w :: w in ws ==> Solid(w)
    ensures var line := Join(ws, " "); line != [] && !IsSpace(line[0])
  {
    hide IsSpace;
    if |ws| == 1 {
      assert Solid(ws[0]) && ws[0][0] in ws[0];
    } else {
      LineStarts(ws[..|ws| - 1]);
    }
  }

  /** The fingerprint is the words of the text joined by single blanks. */
  lemma FingerprintIs(s: string)
    ensures Fingerprint(s) == Join(Words(s), " ")
  {
    hide IsSpace, Words, Join, Collapsed, Solid, Strip, Blank;
    CollapsedIs(s);
    WordsAreSolid(s);
    if Words(s) == [] {
      NothingJoined();
      StripsToNothing(Collapsed(s));
    } else {
      LineEnds(Words(s));
      EdgeIsBlank(s[0]);
      EdgeIsBlank(s[|s| - 1]);
      StripOf(Edge(s[0]), Join(Words(s), " "), Edge(s[|s| - 1]));
    }
  }

  lemma StripsToNothing(s: string)
    requires Blank(s)
    ensures Strip(s) == []
  {
  }

  lemma EdgeIsBlank(c: char)
    ensures Blank(Edge(c))
  {
  }

  /** Two contents count as one exactly when they have the same words in order. */
  lemma SameFingerprintIff(a: string, b: string)
    ensures Fingerprint(a) == Fingerprint(b) <==> Words(a) == Words(b)
  {
    hide *;
    FingerprintIs(a);
    FingerprintIs(b);
    WordsAreSolid(a);
    WordsAreSolid(b);
    WordsOfLine(Words(a));
    WordsOfLine(Words(b));
  }
}
