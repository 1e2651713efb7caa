/** The formatter: a chain of replacements on the protected text. */
module SqlFormat {
  import opened SqlText
  import opened SqlTokens
  import opened SqlProtect
  import opened SqlLexemes
  import opened SqlShape

  // ----- The replacements -----

  /** `trim()`. */
  function TrimText(w: string): string {
    var leading, trailing := Leading(w), Trailing(w);
    if leading + trailing >= |w| then "" else w[leading..|w| - trailing]
  }

  /** `/\s+/g` by one space. */
  function CollapseSpace(w: string): string {
    if w == "" then ""
    else if IsSpace(w[0]) then " " + CollapseSpace(w[SpaceEnd(w, 0)..])
    else [w[0]] + CollapseSpace(w[1..])
  }

  predicate IsKeyword(run: string) {
    Lower(run) in SQL_KEYWORDS
  }

  /** `/\b(keywords)\b/gi` by upper case; the boundaries make a match a whole run of word characters. */
  function UpcaseKeywords(w: string, afterWord: bool): string {
    if w == "" then ""
    else
      var n := WordEnd(w, 0);
      if !afterWord && n > 0 && IsKeyword(w[..n]) then Upper(w[..n]) + UpcaseKeywords(w[n..], true)
      else [w[0]] + UpcaseKeywords(w[1..], IsWord(w[0]))
  }

  /** `/\s*c\s*&#47;g` by `c` and one white-space character. */
  function SpaceSeparator(w: string, c: char, space: char): string {
    if w == "" then ""
    else
      var n := SpaceEnd(w, 0);
      if At(w, n, c) then [c, space] + SpaceSeparator(w[SpaceEnd(w, n + 1)..], c, space)
      else [w[0]] + SpaceSeparator(w[1..], c, space)
  }

  datatype Break = Clause | Joining | Logic

  const CLAUSES: seq<string> := [
    "FROM", "WHERE", "GROUP BY", "HAVING", "ORDER BY", "LIMIT", "UNION", "EXCEPT", "INTERSECT", "VALUES"
  ]

  const SIDES: seq<string> := ["LEFT", "RIGHT", "FULL", "INNER", "CROSS"]

  /** The first of the phrases found at the front, ending at a word boundary; 0 when there is none. */
  function OneOf(phrases: seq<string>, w: string): (n: nat)
    ensures n <= |w|
    ensures n > 0 ==> n < |w| ==> !IsWord(w[n])
  {
    if phrases == [] then 0
    else if phrases[0] <= w && !(|phrases[0]| < |w| && IsWord(w[|phrases[0]|])) then |phrases[0]|
    else OneOf(phrases[1..], w)
  }

  /** `(?:LEFT|RIGHT|FULL|INNER|CROSS)\s+JOIN|JOIN` at the front, ending at a word boundary. */
  function JoinLength(w: string): (n: nat)
    ensures n <= |w|
    ensures n > 0 ==> n < |w| ==> !IsWord(w[n])
  {
    var side := OneOf(SIDES, w);
    var gap := SpaceEnd(w, side);
    var join := OneOf(["JOIN"], w[gap..]);
    if side > 0 && gap > side && join > 0 then gap + join
    else OneOf(["JOIN"], w)
  }

  function PhraseLength(kind: Break, w: string): (n: nat)
    ensures n <= |w|
    ensures n > 0 ==> n < |w| ==> !IsWord(w[n])
  {
    match kind
    case Clause => OneOf(CLAUSES, w)
    case Joining => JoinLength(w)
    case Logic => OneOf(["AND", "OR"], w)
  }

  function Indent(kind: Break): string {
    if kind == Logic then "\n  " else "\n"
  }

  /** White space before a phrase of the kind becomes a line break, with two spaces for AND and OR. */
  function BreakLines(w: string, kind: Break): string
    decreases |w|, 1
  {
    if w == "" then "" else var n := SpaceEnd(w, 0); BreakAt(w, kind, n, PhraseLength(kind, w[n..]))
  }

  /** ... when `n` characters of white space and a phrase of `m` are at the front. */
  function BreakAt(w: string, kind: Break, n: nat, m: nat): string
    requires w != "" && n + m <= |w|
    decreases |w|, 0
  {
    if n > 0 && m > 0 then Indent(kind) + w[n..n + m] + BreakLines(w[n + m..], kind)
    else [w[0]] + BreakLines(w[1..], kind)
  }

  predicate BlankToLineEnd(w: string) {
    w == "" || w[0] == '\n' || (IsSpace(w[0]) && BlankToLineEnd(w[1..]))
  }

  /** Every line without its trailing white space. */
  function TrimLineEnds(w: string): string {
    if w == "" then ""
    else if w[0] != '\n' && BlankToLineEnd(w) then TrimLineEnds(w[1..])
    else [w[0]] + TrimLineEnds(w[1..])
  }

  function NewlinesEnd(w: string, i: nat): (e: nat)
    requires i <= |w|
    ensures i <= e <= |w|
    ensures forall k :: i <= k < e ==> w[k] == '\n'
    decreases |w| - i
  {
    if i < |w| && w[i] == '\n' then NewlinesEnd(w, i + 1) else i
  }

  /** `/\n{3,}/g` by two newlines. */
  function CollapseNewlines(w: string): string {
    if w == "" then ""
    else
      var n := NewlinesEnd(w, 0);
      if n >= 3 then "\n\n" + CollapseNewlines(w[n..])
      else [w[0]] + CollapseNewlines(w[1..])
  }

  function Layout(w: string): string {
    var separated := SpaceSeparator(SpaceSeparator(w, ',', ' '), ';', '\n');
    var broken := BreakLines(BreakLines(BreakLines(separated, Clause), Joining), Logic);
    TrimText(CollapseNewlines(TrimLineEnds(broken)))
  }

  function FormatSqlText(sql: string): string {
    var work := CollapseSpace(TrimText(Work(sql, 0, 0)));
    if work == "" then ""
    else RestoreSqlSegments(Layout(UpcaseKeywords(work, false)), Values(sql, 0))
  }

  // ----- Layout keeps the marks -----

  /** The shape of a text taken character by character, placeholders included. */
  function Marks(w: string, apart: bool): seq<Mark> {
    if w == "" then []
    else if IsSpace(w[0]) then Marks(w[1..], true)
    else if IsSeparator(w[0]) then [Mark(Ch(w[0]), true)] + Marks(w[1..], true)
    else [Mark(Ch(w[0]), apart)] + Marks(w[1..], false)
  }

  /** Two texts with the same marks, however they are entered. */
  ghost predicate SameMarks(w: string, v: string) {
    Marks(w, true) == Marks(v, true) && Marks(w, false) == Marks(v, false)
  }

  lemma {:induction false} MarksSpace(w: string, n: nat, apart: bool)
    requires n <= |w| && SpaceBetween(w, 0, n)
    ensures Marks(w, apart) == Marks(w[n..], apart || n > 0)
  {
    hide IsSpace;
    if n == 0 {
      assert w[0..] == w;
    } else {
      assert forall k :: 0 <= k < n - 1 ==> w[1..][k] == w[k + 1];
      MarksSpace(w[1..], n - 1, true);
      assert w[1..][n - 1..] == w[n..];
    }
  }

  lemma {:induction false} MarksPrefix(p: string, w: string, v: string)
    requires SameMarks(w, v)
    ensures SameMarks(p + w, p + v)
  {
    hide IsSpace, IsSeparator;
    if p == "" {
      assert p + w == w && p + v == v;
    } else {
      MarksPrefix(p[1..], w, v);
      assert (p + w)[1..] == p[1..] + w && (p + v)[1..] == p[1..] + v;
    }
  }

  lemma SpaceSlice(w: string, a: nat, b: nat)
    requires a <= b <= |w| && SpaceBetween(w, a, b)
    ensures SpaceBetween(w[a..], 0, b - a)
  {
    hide IsSpace;
  }

  lemma {:induction false} CollapseKeepsMarks(w: string)
    ensures SameMarks(CollapseSpace(w), w)
  {
    hide IsSpace, IsSeparator;
    if w != "" {
      if IsSpace(w[0]) {
        var n := SpaceEnd(w, 0);
        CollapseKeepsMarks(w[n..]);
        SpacesAre();
        var c := " " + CollapseSpace(w[n..]);
        assert c[1..] == CollapseSpace(w[n..]);
        MarksSpace(w, n, true);
        MarksSpace(w, n, false);
      } else {
        CollapseKeepsMarks(w[1..]);
        MarksPrefix([w[0]], CollapseSpace(w[1..]), w[1..]);
        assert w == [w[0]] + w[1..];
      }
    }
  }

  lemma SpacesAre()
    ensures IsSpace(' ') && IsSpace('\n')
  {}

  lemma {:induction false} SeparatorKeepsMarks(w: string, c: char, space: char)
    requires IsSeparator(c) && IsSpace(space)
    ensures SameMarks(SpaceSeparator(w, c, space), w)
  {
    hide IsSpace, IsSeparator;
    if w != "" {
      var n := SpaceEnd(w, 0);
      if At(w, n, c) {
        var m := SpaceEnd(w, n + 1);
        var rest := SpaceSeparator(w[m..], c, space);
        SeparatorKeepsMarks(w[m..], c, space);
        MarksOfSeparator(w, n, m, true);
        MarksOfSeparator(w, n, m, false);
        assert SpaceSeparator(w, c, space) == [c, space] + rest;
        MarksOfPair(c, space, rest, true);
        MarksOfPair(c, space, rest, false);
      } else {
        SeparatorKeepsMarks(w[1..], c, space);
        MarksPrefix([w[0]], SpaceSeparator(w[1..], c, space), w[1..]);
        assert w == [w[0]] + w[1..];
      }
    }
  }

  lemma MarksOfSeparator(w: string, n: nat, m: nat, apart: bool)
    requires n < m <= |w| && SpaceBetween(w, 0, n) && SpaceBetween(w, n + 1, m) && IsSeparator(w[n])
    ensures Marks(w, apart) == [Mark(Ch(w[n]), true)] + Marks(w[m..], true)
  {
    hide IsSpace;
    MarksSpace(w, n, apart);
    var v := w[n..];
    assert v[0] == w[n] && v[1..] == w[n + 1..];
    SpacesAreNoWords(w[n]);
    SpaceSlice(w, n + 1, m);
    MarksSpace(w[n + 1..], m - n - 1, true);
    assert w[n + 1..][m - n - 1..] == w[m..];
  }

  lemma MarksOfPair(c: char, space: char, rest: string, apart: bool)
    requires IsSeparator(c) && IsSpace(space)
    ensures Marks([c, space] + rest, apart) == [Mark(Ch(c), true)] + Marks(rest, true)
  {
    hide IsSpace;
    SpacesAreNoWords(c);
    var w := [c, space] + rest;
    assert w[1..] == [space] + rest;
    assert w[1..][1..] == rest;
  }

  lemma {:induction false} BreaksKeepMarks(w: string, kind: Break)
    ensures SameMarks(BreakLines(w, kind), w)
  {
    hide IsSpace, IsSeparator, PhraseLength, Indent;
    if w != "" {
      var n := SpaceEnd(w, 0);
      var m := PhraseLength(kind, w[n..]);
      if n > 0 && m > 0 {
        BreaksKeepMarks(w[n + m..], kind);
        BreakOnce(w, kind, n, m);
      } else {
        BreaksKeepMarks(w[1..], kind);
        MarksPrefix([w[0]], BreakLines(w[1..], kind), w[1..]);
        assert w == [w[0]] + w[1..];
      }
    }
  }

  lemma BreakOnce(w: string, kind: Break, n: nat, m: nat)
    requires w != "" && n == SpaceEnd(w, 0) > 0 && m == PhraseLength(kind, w[n..]) > 0
    requires SameMarks(BreakLines(w[n + m..], kind), w[n + m..])
    ensures SameMarks(BreakLines(w, kind), w)
  {
    hide IsSpace, PhraseLength, Indent, SameMarks, BreakLines;
    var gap, phrase, behind, rest := w[..n], w[n..n + m], w[n + m..], BreakLines(w[n + m..], kind);
    BreakUnfolds(w, kind, n, m);
    MarksPrefix(phrase, rest, behind);
    SameMarksBack(phrase + rest, phrase + behind);
    IndentIsSpace(kind);
    assert SpaceBetween(gap, 0, |gap|);
    MarksOfGap(gap, Indent(kind), phrase + behind, phrase + rest);
    assert w == gap + (phrase + behind);
    SameMarksBack(w, BreakLines(w, kind));
  }

  lemma BreakUnfolds(w: string, kind: Break, n: nat, m: nat)
    requires w != "" && n == SpaceEnd(w, 0) > 0 && m == PhraseLength(kind, w[n..]) > 0
    ensures BreakLines(w, kind) == Indent(kind) + (w[n..n + m] + BreakLines(w[n + m..], kind))
  {
    hide PhraseLength, SpaceEnd, Indent, BreakAt;
    assert BreakLines(w, kind) == BreakAt(w, kind, n, m);
    BreakAtGap(w, kind, n, m);
  }

  lemma BreakAtGap(w: string, kind: Break, n: nat, m: nat)
    requires w != "" && n + m <= |w| && n > 0 && m > 0
    ensures BreakAt(w, kind, n, m) == Indent(kind) + (w[n..n + m] + BreakLines(w[n + m..], kind))
  {
    hide BreakLines, Indent;
    ConcatAssociates(Indent(kind), w[n..n + m], BreakLines(w[n + m..], kind));
  }

  lemma SameMarksBack(w: string, v: string)
    ensures SameMarks(w, v) <==> SameMarks(v, w)
  {}

  /** Two gaps in front of texts with the same marks leave them the same. */
  lemma MarksOfGap(gap: string, other: string, w: string, v: string)
    requires gap != "" && SpaceBetween(gap, 0, |gap|) && other != "" && SpaceBetween(other, 0, |other|)
    requires SameMarks(w, v)
    ensures SameMarks(gap + w, other + v)
  {
    hide IsSpace, Marks;
    assert (gap + w)[|gap|..] == w && (other + v)[|other|..] == v;
    MarksSpace(gap + w, |gap|, true);
    MarksSpace(gap + w, |gap|, false);
    MarksSpace(other + v, |other|, true);
    MarksSpace(other + v, |other|, false);
  }

  lemma IndentIsSpace(kind: Break)
    ensures |Indent(kind)| > 0 && forall k :: 0 <= k < |Indent(kind)| ==> IsSpace(Indent(kind)[k])
  {}

  lemma {:induction false} BlankMarks(w: string)
    requires BlankToLineEnd(w)
    ensures Marks(w, true) == Marks(w, false)
  {
    hide IsSpace, IsSeparator;
    SpacesAre();
  }

  lemma {:induction false} LineEndsKeepMarks(w: string)
    ensures SameMarks(TrimLineEnds(w), w)
  {
    hide IsSpace, IsSeparator;
    if w != "" {
      LineEndsKeepMarks(w[1..]);
      if w[0] != '\n' && BlankToLineEnd(w) {
        BlankMarks(w[1..]);
      } else {
        MarksPrefix([w[0]], TrimLineEnds(w[1..]), w[1..]);
        assert w == [w[0]] + w[1..];
      }
    }
  }

  lemma {:induction false} NewlinesKeepMarks(w: string)
    ensures SameMarks(CollapseNewlines(w), w)
  {
    hide IsSpace, IsSeparator;
    if w != "" {
      var n := NewlinesEnd(w, 0);
      if n >= 3 {
        NewlinesKeepMarks(w[n..]);
        SpacesAre();
        MarksSpace(w, n, true);
        MarksSpace(w, n, false);
        var v := "\n\n" + CollapseNewlines(w[n..]);
        assert v[2..] == CollapseNewlines(w[n..]);
        MarksSpace(v, 2, true);
        MarksSpace(v, 2, false);
      } else {
        NewlinesKeepMarks(w[1..]);
        MarksPrefix([w[0]], CollapseNewlines(w[1..]), w[1..]);
        assert w == [w[0]] + w[1..];
      }
    }
  }

  lemma {:induction false} MarksBack(w: string, n: nat, apart: bool)
    requires n <= |w| && SpaceBetween(w, n, |w|)
    ensures Marks(w[..n], apart) == Marks(w, apart)
  {
    hide IsSpace, IsSeparator;
    if n == 0 {
      MarksSpace(w, |w|, apart);
      assert w[|w|..] == "" && w[..0] == "";
    } else {
      assert forall k :: n - 1 <= k < |w| - 1 ==> w[1..][k] == w[k + 1];
      MarksBack(w[1..], n - 1, true);
      MarksBack(w[1..], n - 1, false);
      assert w[..n][1..] == w[1..][..n - 1];
    }
  }

  lemma TrimKeepsMarks(w: string)
    ensures Marks(TrimText(w), true) == Marks(w, true)
  {
    hide IsSpace, Marks;
    var leading, trailing := Leading(w), Trailing(w);
    MarksSpace(w, leading, true);
    if leading + trailing >= |w| {
      assert SpaceBetween(w, 0, |w|);
      MarksSpace(w, |w|, true);
      assert w[|w|..] == "";
    } else {
      var v := w[leading..];
      assert forall k :: |v| - trailing <= k < |v| ==> v[k] == w[leading + k];
      MarksBack(v, |v| - trailing, true);
      assert v[..|v| - trailing] == w[leading..|w| - trailing];
    }
  }

  lemma LayoutKeepsMarks(w: string)
    ensures Marks(Layout(w), true) == Marks(w, true)
  {
    hide Marks, SpaceSeparator, BreakLines, TrimLineEnds, CollapseNewlines, TrimText, IsSpace;
    SpacesAre();
    var w1 := SpaceSeparator(w, ',', ' ');
    var w2 := SpaceSeparator(w1, ';', '\n');
    var w3 := BreakLines(w2, Clause);
    var w4 := BreakLines(w3, Joining);
    var w5 := BreakLines(w4, Logic);
    var w6 := TrimLineEnds(w5);
    SeparatorKeepsMarks(w, ',', ' ');
    SeparatorKeepsMarks(w1, ';', '\n');
    BreaksKeepMarks(w2, Clause);
    BreaksKeepMarks(w3, Joining);
    BreaksKeepMarks(w4, Logic);
    LineEndsKeepMarks(w5);
    NewlinesKeepMarks(w6);
    TrimKeepsMarks(CollapseNewlines(w6));
  }

  // ----- Keywords in upper case -----

  predicate IsShortWord(run: string) {
    0 < |run| <= 9 && forall k :: 0 <= k < |run| ==> 'a' <= run[k] <= 'z'
  }

  lemma KeywordsAtoC(run: string)
    requires run in KEYWORDS_A_C
    ensures IsShortWord(run)
  {}

  lemma KeywordsDtoF(run: string)
    requires run in KEYWORDS_D_F
    ensures IsShortWord(run)
  {}

  lemma KeywordsGtoL(run: string)
    requires run in KEYWORDS_G_L
    ensures IsShortWord(run)
  {}

  lemma KeywordsNtoT(run: string)
    requires run in KEYWORDS_N_T
    ensures IsShortWord(run)
  {}

  lemma KeywordsUtoW(run: string)
    requires run in KEYWORDS_U_W
    ensures IsShortWord(run)
  {}

  lemma KeywordsAreShortWords(run: string)
    requires run in SQL_KEYWORDS
    ensures IsShortWord(run)
  {
    if run in KEYWORDS_A_C { KeywordsAtoC(run); }
    else if run in KEYWORDS_D_F { KeywordsDtoF(run); }
    else if run in KEYWORDS_G_L { KeywordsGtoL(run); }
    else if run in KEYWORDS_N_T { KeywordsNtoT(run); }
    else { KeywordsUtoW(run); }
  }
}
