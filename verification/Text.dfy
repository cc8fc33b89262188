/** The string operations the text components share. */
module Text {
  /** What `str.isspace`, `str.strip`, `str.split` and `\s` treat as white space. */
  predicate IsSpace(c: char) {
    || '\t' <= c <= '\r' || '\U{1c}' <= c <= ' ' || c == '\U{85}' || c == '\U{a0}' || c == '\U{1680}'
    || '\U{2000}' <= c <= '\U{200a}' || c == '\U{2028}' || c == '\U{2029}' || c == '\U{202f}'
    || c == '\U{205f}' || c == '\U{3000}'
  }

  predicate Blank(s: string) {
    forall c :: c in s ==> IsSpace(c)
  }

  function RStrip(s: string): (r: string)
    ensures r <= s && Blank(s[|r|..])
    ensures r != [] ==> !IsSpace(r[|r| - 1])
    ensures r == [] <==> Blank(s)
  {
    if s == [] || !IsSpace(s[|s| - 1]) then s else RStrip(s[..|s| - 1])
  }

  function LStrip(s: string): (r: string)
    ensures |r| <= |s| && r == s[|s| - |r|..] && Blank(s[..|s| - |r|])
    ensures r != [] ==> !IsSpace(r[0])
    ensures r == [] <==> Blank(s)
  {
    if s == [] || !IsSpace(s[0]) then s else LStrip(s[1..])
  }

  function Strip(s: string): (r: string)
    ensures r == [] <==> Blank(s)
    ensures |r| <= |s|
    ensures r != [] ==> !IsSpace(r[0]) && !IsSpace(r[|r| - 1])
  {
    var right := RStrip(s);
    assert Blank(right) ==> Blank(s) by { assert s == right + s[|right|..]; }
    LStrip(right)
  }

  function Join(parts: seq<string>, sep: string): string {
    if parts == [] then []
    else if |parts| == 1 then parts[0]
    else Join(parts[..|parts| - 1], sep) + sep + parts[|parts| - 1]
  }

  /** The characters that are not white space, in order. */
  function Visible(s: string): (r: string)
    ensures r == [] <==> Blank(s)
  {
    if s == [] then []
    else if IsSpace(s[|s| - 1]) then Visible(s[..|s| - 1])
    else Visible(s[..|s| - 1]) + [s[|s| - 1]]
  }

  lemma {:induction false} VisibleConcat(a: string, b: string)
    ensures Visible(a + b) == Visible(a) + Visible(b)
  {
    if b == [] {
      assert a + b == a;
    } else {
      VisibleConcat(a, b[..|b| - 1]);
      assert (a + b)[..|a + b| - 1] == a + b[..|b| - 1];
    }
  }

  lemma ConcatAssociative<T>(a: seq<T>, b: seq<T>, c: seq<T>)
    ensures (a + b) + c == a + (b + c)
  {
  }

  function Flatten<T>(parts: seq<seq<T>>): seq<T> {
    if parts == [] then [] else Flatten(parts[..|parts| - 1]) + parts[|parts| - 1]
  }

  lemma {:induction false} FlattenConcat<T>(a: seq<seq<T>>, b: seq<seq<T>>)
    ensures Flatten(a + b) == Flatten(a) + Flatten(b)
  {
    if b == [] {
      assert a + b == a;
    } else {
      FlattenConcat(a, b[..|b| - 1]);
      assert (a + b)[..|a + b| - 1] == a + b[..|b| - 1];
    }
  }

  /** Joining by white space changes no visible character. */
  lemma {:induction false} VisibleJoin(parts: seq<string>, sep: string)
    requires Blank(sep)
    ensures Visible(Join(parts, sep)) == VisibleAll(parts)
  {
    if |parts| == 1 {
      assert parts[..0] == [];
    } else if parts != [] {
      var init, last := parts[..|parts| - 1], parts[|parts| - 1];
      VisibleJoin(init, sep);
      VisibleConcat(Join(init, sep) + sep, last);
      VisibleConcat(Join(init, sep), sep);
    }
  }

  /** The visible characters of several texts, in order. */
  function VisibleAll(parts: seq<string>): string {
    if parts == [] then [] else VisibleAll(parts[..|parts| - 1]) + Visible(parts[|parts| - 1])
  }

  lemma {:induction false} VisibleAllConcat(a: seq<string>, b: seq<string>)
    ensures VisibleAll(a + b) == VisibleAll(a) + VisibleAll(b)
  {
    hide Visible;
    if b == [] {
      assert a + b == a;
    } else {
      VisibleAllConcat(a, b[..|b| - 1]);
      assert (a + b)[..|a + b| - 1] == a + b[..|b| - 1];
    }
  }

  lemma VisiblePad(left: string, s: string, right: string)
    requires Blank(left) && Blank(right)
    ensures Visible(left + s + right) == Visible(s)
  {
    VisibleConcat(left + s, right);
    VisibleConcat(left, s);
  }

  lemma LStripParts(s: string) returns (left: string)
    ensures Blank(left) && s == left + LStrip(s)
  {
    left := s[..|s| - |LStrip(s)|];
  }

  lemma RStripParts(s: string) returns (right: string)
    ensures Blank(right) && s == RStrip(s) + right
  {
    right := s[|RStrip(s)|..];
  }

  /** `Strip` cuts white space from both ends and nothing else. */
  lemma StripParts(s: string) returns (left: string, right: string)
    ensures Blank(left) && Blank(right)
    ensures s == left + Strip(s) + right
  {
    right := RStripParts(s);
    left := LStripParts(RStrip(s));
  }

  lemma VisibleStrip(s: string)
    ensures Visible(Strip(s)) == Visible(s)
  {
    var left, right := StripParts(s);
    VisiblePad(left, Strip(s), right);
  }
}
