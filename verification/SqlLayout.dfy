/** The chain of layout replacements as one pass over the text: every gap is decided by what stands behind it. */
module SqlLayout {
  import opened SqlText
  import opened SqlTokens
  import opened SqlProtect
  import opened SqlShape
  import opened SqlFormat
  import opened SqlNextLine
  import opened SqlCommute
  import opened SqlMeaning
  import opened SqlTwice

  // ----- Phrases, by name -----

  /** The word or words stand in front, and no word character behind them. */
  predicate Whole(phrase: string, r: string) {
    phrase <= r && (|phrase| < |r| ==> !IsWord(r[|phrase|]))
  }

  /** The length of the clause that begins here. */
  function ClauseAhead(r: string): nat {
    if Whole("FROM", r) then 4
    else if Whole("WHERE", r) then 5
    else if Whole("GROUP BY", r) then 8
    else if Whole("HAVING", r) then 6
    else if Whole("ORDER BY", r) then 8
    else if Whole("LIMIT", r) then 5
    else if Whole("UNION", r) then 5
    else if Whole("EXCEPT", r) then 6
    else if Whole("INTERSECT", r) then 9
    else if Whole("VALUES", r) then 6
    else 0
  }

  /** The side of a join, when one is named here. */
  function SideAhead(r: string): nat {
    if Whole("LEFT", r) then 4
    else if Whole("RIGHT", r) then 5
    else if Whole("FULL", r) then 4
    else if Whole("INNER", r) then 5
    else if Whole("CROSS", r) then 5
    else 0
  }

  /** JOIN, alone or behind its side and white space. */
  function JoinPhrase(r: string): nat {
    var side := SideAhead(r);
    if 0 < side <= |r| && side < SpaceEnd(r, side) && Whole("JOIN", r[SpaceEnd(r, side)..]) then SpaceEnd(r, side) + 4
    else if Whole("JOIN", r) then 4
    else 0
  }

  function LogicAhead(r: string): nat {
    if Whole("AND", r) then 3 else if Whole("OR", r) then 2 else 0
  }

  lemma OneOfFront(phrases: seq<string>, r: string)
    ensures OneOf(phrases, r) ==
      if phrases == [] then 0 else if Whole(phrases[0], r) then |phrases[0]| else OneOf(phrases[1..], r)
  {
    hide IsWord;
  }

  lemma ClausesByName(r: string)
    ensures PhraseLength(Clause, r) == ClauseAhead(r)
  {
    hide OneOf, Whole;
    var c := CLAUSES;
    OneOfFront(c, r);
    OneOfFront(c[1..], r);
    OneOfFront(c[2..], r);
    OneOfFront(c[3..], r);
    OneOfFront(c[4..], r);
    OneOfFront(c[5..], r);
    OneOfFront(c[6..], r);
    OneOfFront(c[7..], r);
    OneOfFront(c[8..], r);
    OneOfFront(c[9..], r);
    OneOfFront(c[10..], r);
    forall k: nat | k < 10 ensures c[k..][1..] == c[k + 1..] && c[k..][0] == c[k] {}
  }

  lemma SidesByName(r: string)
    ensures OneOf(SIDES, r) == SideAhead(r)
  {
    hide OneOf, Whole;
    var c := SIDES;
    OneOfFront(c, r);
    OneOfFront(c[1..], r);
    OneOfFront(c[2..], r);
    OneOfFront(c[3..], r);
    OneOfFront(c[4..], r);
    OneOfFront(c[5..], r);
    forall k: nat | k < 5 ensures c[k..][1..] == c[k + 1..] && c[k..][0] == c[k] {}
  }

  lemma JoinsByName(r: string)
    ensures PhraseLength(Joining, r) == JoinPhrase(r)
  {
    hide OneOf, Whole, SpaceEnd, SideAhead;
    SidesByName(r);
    var side := OneOf(SIDES, r);
    JoiningUnfolds(r, side, SpaceEnd(r, side));
    OneOfFront(["JOIN"], r);
    OneOfFront(["JOIN"], r[SpaceEnd(r, side)..]);
    OneOfFront([], r);
    OneOfFront([], r[SpaceEnd(r, side)..]);
    assert ["JOIN"][1..] == [];
  }

  lemma LogicByName(r: string)
    ensures PhraseLength(Logic, r) == LogicAhead(r)
  {
    hide OneOf, Whole;
    var c := ["AND", "OR"];
    OneOfFront(c, r);
    OneOfFront(c[1..], r);
    OneOfFront(c[2..], r);
  }

  lemma LowerIs(word: string, lower: string)
    requires |word| == |lower| && forall k :: 0 <= k < |word| ==> lower[k] == LowerChar(word[k])
    ensures Lower(word) == lower
  {}

  lemma KeywordIs(word: string, lower: string)
    requires |word| == |lower| && (forall k :: 0 <= k < |word| ==> lower[k] == LowerChar(word[k])) && IsPhrased(lower)
    ensures IsKeyword(word)
  {
    hide SQL_KEYWORDS, Lower, IsPhrased;
    LowerIs(word, lower);
    PhraseIsListed(lower);
  }

  predicate IsPhrased(word: string) {
    word in ["from", "where", "group", "by", "having", "order", "limit", "union", "except", "intersect",
      "values", "left", "right", "full", "inner", "cross", "join", "and", "or"]
  }

  lemma ClauseKeywords(word: string)
    requires word in ["FROM", "WHERE", "GROUP", "BY"]
    ensures IsKeyword(word)
  {
    hide SQL_KEYWORDS, Lower, IsKeyword;
    if word == "FROM" {
      KeywordIs(word, "from");
    } else if word == "WHERE" {
      KeywordIs(word, "where");
    } else if word == "GROUP" {
      KeywordIs(word, "group");
    } else if word == "BY" {
      KeywordIs(word, "by");
    }
  }

  lemma MoreClauseKeywords(word: string)
    requires word in ["HAVING", "ORDER", "LIMIT", "UNION"]
    ensures IsKeyword(word)
  {
    hide SQL_KEYWORDS, Lower, IsKeyword;
    if word == "HAVING" {
      KeywordIs(word, "having");
    } else if word == "ORDER" {
      KeywordIs(word, "order");
    } else if word == "LIMIT" {
      KeywordIs(word, "limit");
    } else if word == "UNION" {
      KeywordIs(word, "union");
    }
  }

  lemma LastClauseKeywords(word: string)
    requires word in ["EXCEPT", "INTERSECT", "VALUES"]
    ensures IsKeyword(word)
  {
    hide SQL_KEYWORDS, Lower, IsKeyword;
    if word == "EXCEPT" {
      KeywordIs(word, "except");
    } else if word == "INTERSECT" {
      KeywordIs(word, "intersect");
    } else if word == "VALUES" {
      KeywordIs(word, "values");
    }
  }

  lemma SideKeywords(word: string)
    requires word in ["LEFT", "RIGHT", "FULL", "INNER"]
    ensures IsKeyword(word)
  {
    hide SQL_KEYWORDS, Lower, IsKeyword;
    if word == "LEFT" {
      KeywordIs(word, "left");
    } else if word == "RIGHT" {
      KeywordIs(word, "right");
    } else if word == "FULL" {
      KeywordIs(word, "full");
    } else if word == "INNER" {
      KeywordIs(word, "inner");
    }
  }

  lemma OtherKeywords(word: string)
    requires word in ["CROSS", "JOIN", "AND", "OR"]
    ensures IsKeyword(word)
  {
    hide SQL_KEYWORDS, Lower, IsKeyword;
    if word == "CROSS" {
      KeywordIs(word, "cross");
    } else if word == "JOIN" {
      KeywordIs(word, "join");
    } else if word == "AND" {
      KeywordIs(word, "and");
    } else if word == "OR" {
      KeywordIs(word, "or");
    }
  }

  /** Every word of a phrase is a keyword, so that the phrases are found whatever their case in the source. */
  lemma PhrasesAreKeywords(word: string)
    requires word in [
      "FROM", "WHERE", "GROUP", "BY", "HAVING", "ORDER", "LIMIT", "UNION", "EXCEPT", "INTERSECT", "VALUES",
      "LEFT", "RIGHT", "FULL", "INNER", "CROSS", "JOIN", "AND", "OR"]
    ensures IsKeyword(word)
  {
    hide IsKeyword;
    if word in ["FROM", "WHERE", "GROUP", "BY"] {
      ClauseKeywords(word);
    } else if word in ["HAVING", "ORDER", "LIMIT", "UNION"] {
      MoreClauseKeywords(word);
    } else if word in ["EXCEPT", "INTERSECT", "VALUES"] {
      LastClauseKeywords(word);
    } else if word in ["LEFT", "RIGHT", "FULL", "INNER"] {
      SideKeywords(word);
    } else {
      OtherKeywords(word);
    }
  }

  lemma PhraseIsListed(word: string)
    requires IsPhrased(word)
    ensures word in SQL_KEYWORDS
  {}

  // ----- One pass -----

  /** White space in front of a clause or a join becomes a line break, in front of AND and OR one with two spaces, and
      stays in front of anything else. */
  function Laid(d: string): string
    decreases |d|
  {
    if d == "" then ""
    else
      var n := SpaceEnd(d, 0);
      var r := d[n..];
      if n == 0 then [d[0]] + Laid(d[1..])
      else if 0 < ClauseAhead(r) <= |r| then "\n" + r[..ClauseAhead(r)] + Laid(r[ClauseAhead(r)..])
      else if 0 < JoinPhrase(r) <= |r| then "\n" + r[..JoinPhrase(r)] + Laid(r[JoinPhrase(r)..])
      else if 0 < LogicAhead(r) <= |r| then "\n  " + r[..LogicAhead(r)] + Laid(r[LogicAhead(r)..])
      else d[..n] + Laid(r)
  }

  /** The three replacements in a row. */
  function Passes(d: string): string {
    BreakLines(BreakLines(BreakLines(d, Clause), Joining), Logic)
  }

  // ----- One replacement at a time -----

  predicate IsGap(g: string) {
    g != "" && SpaceBetween(g, 0, |g|)
  }

  predicate NoSpaceAhead(r: string) {
    r == "" || !IsSpace(r[0])
  }

  lemma {:induction false} GapEnds(g: string, r: string, i: nat)
    requires SpaceBetween(g, 0, |g|) && NoSpaceAhead(r) && i <= |g|
    ensures SpaceEnd(g + r, i) == |g|
    decreases |g| - i
  {
    hide IsSpace;
    if i < |g| { GapEnds(g, r, i + 1); }
  }

  lemma SolidStays(c: char, d: string, kind: Break)
    requires !IsSpace(c)
    ensures BreakLines([c] + d, kind) == [c] + BreakLines(d, kind)
  {
    hide PhraseLength, IsSpace;
    assert SpaceEnd([c] + d, 0) == 0 && ([c] + d)[1..] == d;
    NoBreakUnfolds([c] + d, kind);
  }

  lemma {:induction false} GapStays(g: string, r: string, kind: Break)
    requires SpaceBetween(g, 0, |g|) && NoSpaceAhead(r) && PhraseLength(kind, r) == 0
    ensures BreakLines(g + r, kind) == g + BreakLines(r, kind)
  {
    hide PhraseLength, IsSpace, BreakLines;
    if g == "" {
      assert g + r == r && g + BreakLines(r, kind) == BreakLines(r, kind);
    } else {
      GapEnds(g, r, 0);
      assert (g + r)[|g|..] == r && (g + r)[1..] == g[1..] + r;
      NoBreakUnfolds(g + r, kind);
      GapStays(g[1..], r, kind);
      assert g == [g[0]] + g[1..];
      ConcatAssociates([g[0]], g[1..], BreakLines(r, kind));
    }
  }

  lemma GapBreaks(g: string, q: string, t: string, kind: Break)
    requires IsGap(g) && q != "" && NoSpaceAhead(q) && PhraseLength(kind, q + t) == |q|
    ensures BreakLines(g + (q + t), kind) == Indent(kind) + (q + BreakLines(t, kind))
  {
    hide PhraseLength, IsSpace, BreakLines, Indent;
    var w := g + (q + t);
    GapEnds(g, q + t, 0);
    assert w[|g|..] == q + t && w[|g|..|g| + |q|] == q && w[|g| + |q|..] == t;
    BreakUnfolds(w, kind, |g|, |q|);
  }

  lemma WordStays(p: string, t: string, kind: Break)
    requires IsPhraseWord(p)
    ensures BreakLines(p + t, kind) == p + BreakLines(t, kind)
  {
    hide BreakLines, IsPhraseWord;
    PhraseWordIsSolid(p);
    BreaksKeepWord(p, p + t, kind);
    assert (p + t)[|p|..] == t && p <= p + t;
  }

  /** Two words and a gap that is none of the replacement's. */
  lemma TwoWordsStay(p: string, g: string, q: string, t: string, kind: Break)
    requires IsPhraseWord(p) && IsGap(g) && IsPhraseWord(q) && PhraseLength(kind, q + t) == 0
    ensures BreakLines(p + g + q + t, kind) == p + g + q + BreakLines(t, kind)
  {
    CapitalIsNoSpace(q);
    hide BreakLines, IsPhraseWord, PhraseLength, IsSpace;
    WordStays(q, t, kind);
    GapStays(g, q + t, kind);
    WordStays(p, g + (q + t), kind);
    FourInARow(p, g, q, t);
    FourInARow(p, g, q, BreakLines(t, kind));
  }

  lemma CapitalIsNoSpace(q: string)
    requires IsPhraseWord(q)
    ensures !IsSpace(q[0]) && forall t :: NoSpaceAhead(q + t)
  {}

  lemma FourInARow(p: string, g: string, q: string, t: string)
    ensures p + g + q + t == p + (g + (q + t))
  {}

  // ----- What is no phrase of another kind -----

  lemma OtherInitial(r: string)
    requires r != ""
    ensures r[0] !in "FWGHOLUEIV" ==> ClauseAhead(r) == 0
    ensures r[0] !in "LRFICJ" ==> JoinPhrase(r) == 0
    ensures r[0] !in "AO" ==> LogicAhead(r) == 0
  {}

  /** A clause is neither a join nor AND or OR, whatever follows it. */
  lemma ClauseIsNoOther(r: string, t: string)
    requires 0 < ClauseAhead(r) <= |r|
    ensures var q := r[..ClauseAhead(r)]; JoinPhrase(q + t) == 0 && LogicAhead(q + t) == 0
  {
    hide ClauseAhead, JoinPhrase, LogicAhead, OneOf;
    ClausesByName(r);
    SideIsPhrase(CLAUSES, r);
    ClauseNamed(r[..ClauseAhead(r)], t);
  }

  /** The first three characters of a clause set it apart from the other phrases. */
  predicate OpensClause(w: string) {
    |w| > 2 && (w[0] in "WGHUEV" || w[..2] == "FR" || w[..2] == "LI" || w[..3] == "INT" || w[..3] == "ORD")
  }

  lemma ClauseOpens(q: string)
    requires q in CLAUSES
    ensures OpensClause(q)
  {}

  lemma OpeningStays(q: string, t: string)
    requires OpensClause(q)
    ensures OpensClause(q + t)
  {
    var w := q + t;
    assert w[0] == q[0] && w[..2] == q[..2] && w[..3] == q[..3];
  }

  lemma OpeningIsNoOther(w: string)
    requires OpensClause(w)
    ensures JoinPhrase(w) == 0 && LogicAhead(w) == 0
  {
    hide SpaceEnd;
    assert w[0] == w[..2][0] == w[..3][0] && w[1] == w[..2][1] == w[..3][1] && w[2] == w[..3][2];
    assert IsWord('D');
  }

  lemma ClauseNamed(q: string, t: string)
    requires q in CLAUSES
    ensures JoinPhrase(q + t) == 0 && LogicAhead(q + t) == 0
  {
    hide CLAUSES, OpensClause, JoinPhrase, LogicAhead;
    ClauseOpens(q);
    OpeningStays(q, t);
    OpeningIsNoOther(q + t);
  }

  // ----- Phrases through the replacements -----

  /** A clause stays as it is through a replacement of another kind. */
  lemma ClausePasses(q: string, t: string, kind: Break)
    requires q in CLAUSES && kind != Clause
    ensures q != "" && !IsSpace(q[0]) && BreakLines(q + t, kind) == q + BreakLines(t, kind)
  {
    hide BreakLines, PhraseLength, IsPhraseWord;
    ClauseWords();
    if IsPhraseWord(q) {
      CapitalIsNoSpace(q);
      WordStays(q, t, kind);
    } else {
      var p := q[..5];
      assert q == p + " " + "BY" && IsPhraseWord(p) by { assert p == "GROUP" || p == "ORDER"; }
      CapitalIsNoSpace(p);
      ByIsNoPhrase(t, kind);
      SpaceIsGap();
      TwoWordsStay(p, " ", "BY", t, kind);
    }
  }

  lemma SpaceIsGap()
    ensures IsGap(" ") && IsGap("\n")
  {}

  lemma ByIsNoPhrase(t: string, kind: Break)
    requires kind != Clause
    ensures PhraseLength(kind, "BY" + t) == 0 && IsPhraseWord("BY")
  {
    hide PhraseLength, JoinPhrase, LogicAhead;
    JoinsByName("BY" + t);
    LogicByName("BY" + t);
    assert ("BY" + t)[0] == 'B';
    OtherInitial("BY" + t);
  }

  /** The parts of a join: alone, or a side and a gap in front. */
  ghost predicate IsJoin(q: string, side: string, gap: string) {
    if side == "" then q == "JOIN" && gap == ""
    else side in SIDES && IsGap(gap) && q == side + gap + "JOIN"
  }

  lemma JoinParts(r: string) returns (side: string, gap: string)
    requires JoinPhrase(r) > 0
    ensures JoinPhrase(r) <= |r| && IsJoin(r[..JoinPhrase(r)], side, gap)
    ensures var t := r[JoinPhrase(r)..]; t != "" ==> !IsWord(t[0])
  {
    hide SideAhead, IsSpace, IsWord;
    var n, m := SideAhead(r), JoinPhrase(r);
    if 0 < n <= |r| && n < SpaceEnd(r, n) && Whole("JOIN", r[SpaceEnd(r, n)..]) {
      SidesByName(r);
      SideIsPhrase(SIDES, r);
      side, gap := r[..n], r[n..SpaceEnd(r, n)];
      var rest := r[SpaceEnd(r, n)..];
      assert rest[..4] == "JOIN" && m == SpaceEnd(r, n) + 4;
      assert r[..m] == side + gap + rest[..4];
      assert rest[4..] == r[m..];
    } else {
      side, gap := "", "";
    }
  }

  /** A join stays as it is through a replacement of another kind that finds nothing at JOIN itself. */
  lemma JoinPasses(q: string, side: string, gap: string, t: string, kind: Break)
    requires IsJoin(q, side, gap) && kind != Joining
    ensures q != "" && !IsSpace(q[0]) && BreakLines(q + t, kind) == q + BreakLines(t, kind)
  {
    hide BreakLines, PhraseLength, IsPhraseWord;
    PhraseWords();
    JoinIsNoOther(t, kind);
    if side == "" {
      CapitalIsNoSpace(q);
      WordStays(q, t, kind);
    } else {
      CapitalIsNoSpace(side);
      TwoWordsStay(side, gap, "JOIN", t, kind);
    }
  }

  lemma JoinIsNoOther(t: string, kind: Break)
    requires kind != Joining
    ensures PhraseLength(kind, "JOIN" + t) == 0
  {
    hide PhraseLength, ClauseAhead, LogicAhead;
    ClausesByName("JOIN" + t);
    LogicByName("JOIN" + t);
    assert ("JOIN" + t)[0] == 'J';
    OtherInitial("JOIN" + t);
  }

  /** A join is found whatever follows it, but a word character. */
  lemma JoinIsFound(q: string, side: string, gap: string, t: string)
    requires IsJoin(q, side, gap) && (t != "" ==> !IsWord(t[0]))
    ensures PhraseLength(Joining, q + t) == |q| && LogicAhead(q + t) == 0
  {
    hide PhraseLength, SideAhead, SpaceEnd, Whole, IsWord, SIDES, LogicAhead, IsSpace;
    JoinsByName(q + t);
    JoinAhead(t);
    if side != "" {
      SideIsFound(side, gap, "JOIN" + t);
      JoinStands(side, gap, t);
      OtherInitial(q + t);
    }
  }

  lemma JoinAhead(t: string)
    requires t != "" ==> !IsWord(t[0])
    ensures var w := "JOIN" + t; w[0] == 'J' && Whole("JOIN", w) && SideAhead(w) == 0 && LogicAhead(w) == 0
  {
    hide IsWord;
    var w := "JOIN" + t;
    assert w[0] == 'J' && w[..4] == "JOIN" && (|w| > 4 ==> w[4] == t[0]);
  }

  lemma JoinStands(side: string, gap: string, t: string)
    ensures side + gap + "JOIN" + t == side + (gap + ("JOIN" + t))
    ensures (side + gap + "JOIN" + t)[|side| + |gap|..] == "JOIN" + t
  {
    FourInARow(side, gap, "JOIN", t);
  }

  lemma SideIsFound(side: string, gap: string, rest: string)
    requires side in SIDES && IsGap(gap) && rest != "" && rest[0] == 'J'
    ensures var w := side + (gap + rest);
      SideAhead(w) == |side| && SpaceEnd(w, |side|) == |side| + |gap| && w[0] !in "AO"
  {
    hide SpaceEnd, SideAhead, IsSpace, IsWord;
    var w := side + (gap + rest);
    GapIsNoWord(gap);
    SideNamed(side, gap + rest);
    JIsNoSpace();
    GapEnds(gap, rest, 0);
    SpaceEndFrom(w, |side|);
    assert w[|side|..] == gap + rest;
  }

  lemma GapIsNoWord(gap: string)
    requires IsGap(gap)
    ensures !IsWord(gap[0])
  {
    SpacesAreNoWords(gap[0]);
  }

  lemma JIsNoSpace()
    ensures !IsSpace('J')
  {}

  lemma SideNamed(side: string, u: string)
    requires side in SIDES && u != "" && !IsWord(u[0])
    ensures SideAhead(side + u) == |side| && (side + u)[0] !in "AO"
  {
    hide IsWord;
    var w := side + u;
    assert side <= w && w[|side|] == u[0] && w[0] == side[0];
    assert Whole(side, w);
  }

  // ----- Three in a row are one -----

  lemma IndentsAre()
    ensures Indent(Clause) == "\n" && Indent(Joining) == "\n" && Indent(Logic) == "\n  "
  {}

  lemma ClauseCase(g: string, q: string, t: string)
    requires IsGap(g) && q in CLAUSES && PhraseLength(Clause, q + t) == |q|
    ensures Passes(g + (q + t)) == "\n" + (q + Passes(t))
  {
    hide BreakLines, PhraseLength, JoinPhrase, LogicAhead, IsSpace, OneOf, CLAUSES;
    var t1 := BreakLines(t, Clause);
    var t2 := BreakLines(t1, Joining);
    ClausePasses(q, t1, Joining);
    ClausePasses(q, t2, Logic);
    IndentsAre();
    SpaceIsGap();
    GapBreaks(g, q, t, Clause);
    ClauseNamed(q, t1);
    JoinsByName(q + t1);
    GapStays("\n", q + t1, Joining);
    ClauseNamed(q, t2);
    LogicByName(q + t2);
    GapStays("\n", q + t2, Logic);
  }

  lemma JoinCase(g: string, q: string, side: string, gap: string, t: string)
    requires IsGap(g) && IsJoin(q, side, gap) && PhraseLength(Clause, q + t) == 0 && (t != "" ==> !IsWord(t[0]))
    ensures Passes(g + (q + t)) == "\n" + (q + Passes(t))
  {
    hide BreakLines, PhraseLength, JoinPhrase, LogicAhead, IsSpace, IsWord, IsJoin, WordNext;
    var t1 := BreakLines(t, Clause);
    var t2 := BreakLines(t1, Joining);
    IndentsAre();
    SpaceIsGap();
    JoinPasses(q, side, gap, t, Clause);
    GapStays(g, q + t, Clause);
    NextStays(t, Clause);
    JoinIsFound(q, side, gap, t1);
    GapBreaks(g, q, t1, Joining);
    NextStays(t1, Joining);
    JoinIsFound(q, side, gap, t2);
    LogicByName(q + t2);
    GapStays("\n", q + t2, Logic);
    JoinPasses(q, side, gap, t2, Logic);
  }

  lemma NextStays(t: string, kind: Break)
    requires t != "" ==> !IsWord(t[0])
    ensures var z := BreakLines(t, kind); z != "" ==> !IsWord(z[0])
  {
    hide BreakLines, IsWord;
    BreaksKeepWordNext(t, kind);
  }

  lemma LogicCase(g: string, q: string, t: string)
    requires IsGap(g) && (q == "AND" || q == "OR") && PhraseLength(Clause, q + t) == 0 && (t != "" ==> !IsWord(t[0]))
    ensures Passes(g + (q + t)) == "\n  " + (q + Passes(t))
  {
    PhraseWords();
    CapitalIsNoSpace(q);
    hide BreakLines, PhraseLength, JoinPhrase, LogicAhead, IsSpace, IsWord, WordNext, IsPhraseWord;
    var t1 := BreakLines(t, Clause);
    var t2 := BreakLines(t1, Joining);
    IndentsAre();
    WordStays(q, t, Clause);
    GapStays(g, q + t, Clause);
    LogicIsNoJoin(q, t1);
    WordStays(q, t1, Joining);
    GapStays(g, q + t1, Joining);
    NextStays(t, Clause);
    NextStays(t1, Joining);
    LogicIsFound(q, t2);
    GapBreaks(g, q, t2, Logic);
  }

  lemma LogicIsNoJoin(q: string, t: string)
    requires q == "AND" || q == "OR"
    ensures PhraseLength(Joining, q + t) == 0
  {
    hide PhraseLength, JoinPhrase;
    JoinsByName(q + t);
    assert (q + t)[0] == q[0];
    OtherInitial(q + t);
  }

  lemma LogicIsFound(q: string, t: string)
    requires (q == "AND" || q == "OR") && (t != "" ==> !IsWord(t[0]))
    ensures PhraseLength(Logic, q + t) == |q|
  {
    hide PhraseLength, IsWord;
    LogicByName(q + t);
    var w := q + t;
    assert q <= w && w[0] == q[0] && (|q| < |w| ==> w[|q|] == t[0]);
  }

  lemma GapCase(g: string, r: string)
    requires IsGap(g) && NoSpaceAhead(r)
    requires PhraseLength(Clause, r) == 0 && PhraseLength(Joining, r) == 0 && PhraseLength(Logic, r) == 0
    ensures Passes(g + r) == g + Passes(r)
  {
    hide BreakLines, PhraseLength, IsSpace;
    var r1 := BreakLines(r, Clause);
    var r2 := BreakLines(r1, Joining);
    PhrasesThroughClauses(r);
    LogicThroughJoins(r1);
    FrontStays(r, Clause);
    FrontStays(r1, Joining);
    GapStays(g, r, Clause);
    GapStays(g, r1, Joining);
    GapStays(g, r2, Logic);
  }

  lemma FrontStays(r: string, kind: Break)
    requires NoSpaceAhead(r)
    ensures NoSpaceAhead(BreakLines(r, kind))
  {
    hide BreakLines, IsSpace;
    if r == "" {
      BreakNothing(kind);
    } else {
      SolidStays(r[0], r[1..], kind);
      assert r == [r[0]] + r[1..];
    }
  }

  lemma SolidCase(c: char, d: string)
    requires !IsSpace(c)
    ensures Passes([c] + d) == [c] + Passes(d)
  {
    hide BreakLines, IsSpace;
    SolidStays(c, d, Clause);
    SolidStays(c, BreakLines(d, Clause), Joining);
    SolidStays(c, BreakLines(BreakLines(d, Clause), Joining), Logic);
  }

  lemma PhraseParts(d: string, n: nat, m: nat)
    requires n <= |d| && n + m <= |d|
    ensures var r := d[n..]; d == d[..n] + (r[..m] + r[m..]) && r == r[..m] + r[m..]
  {}

  /** The three replacements are one pass. */
  lemma {:induction false} PassesAreOne(d: string)
    ensures Passes(d) == Laid(d)
    decreases |d|
  {
    hide ClauseAhead, JoinPhrase, LogicAhead, Passes, SpaceEnd, IsSpace;
    if d == "" {
      NothingPasses();
    } else {
      var n := SpaceEnd(d, 0);
      var g, r := d[..n], d[n..];
      if n == 0 {
        SolidCase(d[0], d[1..]);
        PassesAreOne(d[1..]);
        assert d == [d[0]] + d[1..];
      } else {
        assert d == g + r;
        ByName(r);
        assert IsGap(g) && NoSpaceAhead(r);
        if ClauseAhead(r) > 0 {
          ClausePassed(g, r);
          PassesAreOne(r[ClauseAhead(r)..]);
        } else if JoinPhrase(r) > 0 {
          JoinPassed(g, r);
          PassesAreOne(r[JoinPhrase(r)..]);
        } else if LogicAhead(r) > 0 {
          LogicPassed(g, r);
          PassesAreOne(r[LogicAhead(r)..]);
        } else {
          GapCase(g, r);
          PassesAreOne(r);
        }
      }
    }
  }

  lemma ByName(r: string)
    ensures PhraseLength(Clause, r) == ClauseAhead(r) <= |r|
    ensures PhraseLength(Joining, r) == JoinPhrase(r) <= |r|
    ensures PhraseLength(Logic, r) == LogicAhead(r) <= |r|
  {
    hide PhraseLength, ClauseAhead, JoinPhrase, LogicAhead;
    ClausesByName(r);
    JoinsByName(r);
    LogicByName(r);
  }

  lemma NothingPasses()
    ensures Passes("") == ""
  {
    BreakNothing(Clause);
    BreakNothing(Joining);
    BreakNothing(Logic);
  }

  lemma ClausePassed(g: string, r: string)
    requires IsGap(g) && 0 < ClauseAhead(r) <= |r|
    ensures Passes(g + r) == "\n" + r[..ClauseAhead(r)] + Passes(r[ClauseAhead(r)..])
  {
    hide ClauseAhead, Passes, OneOf, CLAUSES;
    ClausesByName(r);
    SideIsPhrase(CLAUSES, r);
    var q, t := r[..ClauseAhead(r)], r[ClauseAhead(r)..];
    assert r == q + t;
    ClauseCase(g, q, t);
    ConcatAssociates("\n", q, Passes(t));
  }

  lemma JoinPassed(g: string, r: string)
    requires IsGap(g) && ClauseAhead(r) == 0 && 0 < JoinPhrase(r) <= |r|
    ensures Passes(g + r) == "\n" + r[..JoinPhrase(r)] + Passes(r[JoinPhrase(r)..])
  {
    hide ClauseAhead, JoinPhrase, Passes, IsJoin, PhraseLength;
    ClausesByName(r);
    var side, gap := JoinParts(r);
    var q, t := r[..JoinPhrase(r)], r[JoinPhrase(r)..];
    assert r == q + t;
    JoinCase(g, q, side, gap, t);
    ConcatAssociates("\n", q, Passes(t));
  }

  lemma LogicPassed(g: string, r: string)
    requires IsGap(g) && ClauseAhead(r) == 0 && 0 < LogicAhead(r) <= |r|
    ensures Passes(g + r) == "\n  " + r[..LogicAhead(r)] + Passes(r[LogicAhead(r)..])
  {
    hide ClauseAhead, Passes, IsWord, PhraseLength;
    ClausesByName(r);
    var q, t := r[..LogicAhead(r)], r[LogicAhead(r)..];
    assert r == q + t && (q == "AND" || q == "OR");
    assert t != "" ==> t[0] == r[LogicAhead(r)];
    LogicCase(g, q, t);
    ConcatAssociates("\n  ", q, Passes(t));
  }

  // ----- The last two replacements find nothing to do -----

  /** Every gap is one character, a space or a newline. */
  predicate HasShortGaps(d: string)
    decreases |d|
  {
    if d == "" then true
    else
      var n := SpaceEnd(d, 0);
      if n == 0 then HasShortGaps(d[1..]) else d[..n] in [" ", "\n"] && HasShortGaps(d[n..])
  }

  /** Every gap is a space, a line break, or a line break and two spaces with something behind them. */
  predicate Neat(x: string)
    decreases |x|
  {
    if x == "" then true
    else
      var n := SpaceEnd(x, 0);
      if n == 0 then Neat(x[1..])
      else (x[..n] in [" ", "\n"] || (x[..n] == "\n  " && n < |x|)) && Neat(x[n..])
  }

  lemma NeatSolid(c: char, x: string)
    requires !IsSpace(c)
    ensures Neat([c] + x) <==> Neat(x)
    ensures HasShortGaps([c] + x) <==> HasShortGaps(x)
  {
    hide IsSpace;
    assert SpaceEnd([c] + x, 0) == 0 && ([c] + x)[1..] == x;
  }

  lemma NeatGap(g: string, x: string)
    requires IsGap(g) && NoSpaceAhead(x)
    ensures Neat(g + x) <==> (g in [" ", "\n"] || (g == "\n  " && x != "")) && Neat(x)
    ensures HasShortGaps(g + x) <==> g in [" ", "\n"] && HasShortGaps(x)
  {
    GapEnds(g, x, 0);
    hide IsSpace, SpaceEnd;
    assert (g + x)[|g|..] == x && (g + x)[..|g|] == g;
  }

  lemma IndentIsGap()
    ensures IsGap("\n  ")
  {}

  /** Short gaps in what is copied stay short. */
  lemma {:induction false} CopyIsNeat(q: string, t: string, z: string)
    requires HasShortGaps(q + t) && Neat(z) && (q != "" ==> !IsSpace(q[|q| - 1]))
    ensures Neat(q + z)
    decreases |q|
  {
    hide IsSpace, Neat, HasShortGaps;
    if q == "" {
      assert q + z == z;
    } else {
      var n := SpaceEnd(q, 0);
      if n == 0 {
        assert q + t == [q[0]] + (q[1..] + t) && q + z == [q[0]] + (q[1..] + z);
        NeatSolid(q[0], q[1..] + t);
        NeatSolid(q[0], q[1..] + z);
        CopyIsNeat(q[1..], t, z);
      } else {
        var g, p := q[..n], q[n..];
        assert n < |q| && p[|p| - 1] == q[|q| - 1] && p[0] == q[n];
        assert q + t == g + (p + t) && q + z == g + (p + z);
        NeatGap(g, p + t);
        NeatGap(g, p + z);
        CopyIsNeat(p, t, z);
      }
    }
  }

  lemma {:induction false} ShortBehind(q: string, t: string)
    requires HasShortGaps(q + t) && (q != "" ==> !IsSpace(q[|q| - 1]))
    ensures HasShortGaps(t)
    decreases |q|
  {
    hide IsSpace;
    if q == "" {
      assert q + t == t;
    } else {
      var n := SpaceEnd(q, 0);
      if n == 0 {
        assert q + t == [q[0]] + (q[1..] + t);
        NeatSolid(q[0], q[1..] + t);
        ShortBehind(q[1..], t);
      } else {
        var g, p := q[..n], q[n..];
        assert n < |q| && p[|p| - 1] == q[|q| - 1] && p[0] == q[n];
        assert q + t == g + (p + t);
        NeatGap(g, p + t);
        ShortBehind(p, t);
      }
    }
  }

  /** Phrases end in a letter. */
  lemma PhraseEnds(r: string)
    ensures 0 < ClauseAhead(r) ==> ClauseAhead(r) <= |r| && !IsSpace(r[ClauseAhead(r) - 1])
    ensures 0 < LogicAhead(r) ==> LogicAhead(r) <= |r| && !IsSpace(r[LogicAhead(r) - 1])
  {
    if 0 < ClauseAhead(r) {
      ByName(r);
      SideIsPhrase(CLAUSES, r);
      ClauseEnds(r[..ClauseAhead(r)]);
    }
  }

  lemma ClauseEnds(q: string)
    requires q in CLAUSES
    ensures q != "" && !IsSpace(q[|q| - 1])
  {}

  lemma JoinEnds(r: string)
    requires 0 < JoinPhrase(r)
    ensures JoinPhrase(r) <= |r| && !IsSpace(r[JoinPhrase(r) - 1])
  {
    hide SpaceEnd, SideAhead, JoinPhrase, IsWord;
    var side, gap := JoinParts(r);
    var q := r[..JoinPhrase(r)];
    assert q[|q| - 1] == "JOIN"[3] && !IsSpace('N');
  }

  lemma {:induction false} LaidIsNeat(d: string)
    requires HasShortGaps(d)
    ensures Neat(Laid(d)) && (d != "" && !IsSpace(d[0]) ==> Laid(d) != "" && Laid(d)[0] == d[0])
    decreases |d|
  {
    hide ClauseAhead, JoinPhrase, LogicAhead, IsSpace, SpaceEnd, HasShortGaps, Neat;
    if d == "" {
      NothingIsNeat();
    } else {
      var n := SpaceEnd(d, 0);
      var g, r := d[..n], d[n..];
      if n == 0 {
        assert d == [d[0]] + d[1..];
        NeatSolid(d[0], d[1..]);
        LaidIsNeat(d[1..]);
        NeatSolid(d[0], Laid(d[1..]));
      } else {
        assert d == g + r;
        NeatGap(g, r);
        PhraseEnds(r);
        if JoinPhrase(r) > 0 { JoinEnds(r); }
        if ClauseAhead(r) > 0 {
          LaidIsNeat2(r, ClauseAhead(r), "\n");
        } else if JoinPhrase(r) > 0 {
          LaidIsNeat2(r, JoinPhrase(r), "\n");
        } else if LogicAhead(r) > 0 {
          LaidIsNeat2(r, LogicAhead(r), "\n  ");
        } else {
          LaidIsNeat(r);
          LaidNothing();
          NeatGap(g, Laid(r));
        }
      }
    }
  }

  lemma NothingIsNeat()
    ensures Neat("") && Laid("") == ""
  {}

  lemma LaidNothing()
    ensures Laid("") == ""
  {}

  lemma {:induction false} LaidIsNeat2(r: string, m: nat, indent: string)
    requires HasShortGaps(r) && NoSpaceAhead(r) && 0 < m <= |r| && !IsSpace(r[m - 1])
    requires indent == "\n" || indent == "\n  "
    ensures Neat(indent + r[..m] + Laid(r[m..]))
    decreases |r|, 0
  {
    hide Laid, IsSpace, HasShortGaps, Neat;
    var q, t := r[..m], r[m..];
    assert r == q + t && q[|q| - 1] == r[m - 1] && q[0] == r[0];
    ShortBehind(q, t);
    LaidIsNeat(t);
    CopyIsNeat(q, t, Laid(t));
    SpaceIsGap();
    IndentIsGap();
    NeatGap(indent, q + Laid(t));
    ConcatAssociates(indent, q, Laid(t));
  }

  /** Without a space at its end, as a neat text has at most one. */
  function Bare(x: string): string {
    if x != "" && x[|x| - 1] == ' ' then x[..|x| - 1] else x
  }

  lemma {:induction false} NeatIsClean(x: string)
    requires Neat(x)
    ensures TrimLineEnds(x) == Bare(x) && CollapseNewlines(Bare(x)) == Bare(x)
    decreases |x|
  {
    hide IsSpace, TrimLineEnds, CollapseNewlines, Bare;
    NewlineIsSpace();
    if x == "" {
      NothingIsClean();
    } else {
      var n := SpaceEnd(x, 0);
      var g, r := x[..n], x[n..];
      if n == 0 {
        NeatIsClean(x[1..]);
        assert x == [x[0]] + x[1..];
        BareFront([x[0]], x[1..]);
        CleanSolid(x[0], x[1..]);
        CleanSolid(x[0], Bare(x[1..]));
      } else {
        assert x == g + r;
        NeatIsClean(r);
        if r == "" { GapAtEnd(g); } else { BareFront(g, r); CleanGap(g, r); }
      }
    }
  }

  lemma NothingIsClean()
    ensures Bare("") == "" == TrimLineEnds("") && CollapseNewlines("") == ""
  {}

  lemma BareFront(g: string, r: string)
    requires g != "" && (r == "" ==> g[|g| - 1] != ' ')
    ensures Bare(g + r) == g + Bare(r)
  {
    if r != "" { assert (g + r)[|g + r| - 1] == r[|r| - 1]; }
  }

  /** One character through the two replacements. */
  lemma OneClean(c: char, u: string)
    ensures BlankToLineEnd([c] + u) <==> c == '\n' || (IsSpace(c) && BlankToLineEnd(u))
    ensures TrimLineEnds([c] + u) ==
            if c != '\n' && BlankToLineEnd([c] + u) then TrimLineEnds(u) else [c] + TrimLineEnds(u)
    ensures c != '\n' || u == "" || u[0] != '\n' ==> CollapseNewlines([c] + u) == [c] + CollapseNewlines(u)
  {
    hide IsSpace;
    var x := [c] + u;
    assert x[1..] == u && x[0] == c;
    if c != '\n' || u == "" || u[0] != '\n' {
      assert u != "" ==> x[1] == u[0];
      assert NewlinesEnd(x, 1) == 1 || c != '\n';
      assert NewlinesEnd(x, 0) <= 1;
    }
  }

  lemma CleanSolid(c: char, r: string)
    requires !IsSpace(c)
    ensures TrimLineEnds([c] + r) == [c] + TrimLineEnds(r)
    ensures CollapseNewlines([c] + r) == [c] + CollapseNewlines(r)
  {
    NewlineIsSpace();
    hide IsSpace, TrimLineEnds, CollapseNewlines, BlankToLineEnd;
    OneClean(c, r);
  }

  lemma GapAtEnd(g: string)
    requires g == " " || g == "\n"
    ensures TrimLineEnds(g + "") == Bare(g + "") && CollapseNewlines(Bare(g + "")) == Bare(g + "")
  {
    NewlineIsSpace();
    assert TrimLineEnds("") == "" && CollapseNewlines("") == "" && BlankToLineEnd("");
    hide IsSpace, TrimLineEnds, CollapseNewlines, BlankToLineEnd;
    OneClean(g[0], "");
    assert g + "" == g == [g[0]] + "";
  }

  lemma CleanGap(g: string, r: string)
    requires (g == " " || g == "\n" || g == "\n  ") && r != "" && !IsSpace(r[0])
    ensures TrimLineEnds(g + r) == g + TrimLineEnds(r)
    ensures CollapseNewlines(g + Bare(r)) == g + CollapseNewlines(Bare(r))
  {
    SolidIsNotBlank(r);
    hide IsSpace, TrimLineEnds, CollapseNewlines, BlankToLineEnd, Bare;
    var b := Bare(r);
    OneClean(' ', r);
    OneClean(' ', b);
    OneClean('\n', r);
    OneClean('\n', b);
    OneClean(' ', [' '] + r);
    OneClean(' ', [' '] + b);
    OneClean('\n', [' '] + ([' '] + r));
    OneClean('\n', [' '] + ([' '] + b));
    ThreeInFront(r, TrimLineEnds(r));
    ThreeInFront(b, CollapseNewlines(b));
  }

  lemma SolidIsNotBlank(r: string)
    requires r != "" && !IsSpace(r[0])
    ensures !BlankToLineEnd(r) && Bare(r) != "" && Bare(r)[0] == r[0] && r[0] != '\n'
  {
    NewlineIsSpace();
  }

  lemma ThreeInFront(x: string, y: string)
    ensures "\n  " + x == ['\n'] + ([' '] + ([' '] + x)) && "\n  " + y == ['\n'] + ([' '] + ([' '] + y))
  {}

  // ----- The whole layout -----

  lemma {:induction false} MarksAreSolid(w: string, a: bool)
    ensures forall k :: 0 <= k < |Marks(w, a)| ==> IsSolidMark(Marks(w, a)[k])
    decreases |w|
  {
    hide IsSpace;
    if w != "" {
      if IsSpace(w[0]) { MarksAreSolid(w[1..], true); } else { MarksAreSolid(w[1..], IsSeparator(w[0])); }
    }
  }

  predicate IsSolidMark(m: Mark) {
    m.sym.Ch? && !IsSpace(m.sym.c)
  }

  lemma {:induction false} PrintedHasShortGaps(m: seq<Mark>, clear: bool)
    requires forall k :: 0 <= k < |m| ==> IsSolidMark(m[k])
    ensures HasShortGaps(Printed(m, clear)) && (clear ==> NoSpaceAhead(Printed(m, clear)))
    ensures m != [] && NoSpaceAhead(Printed(m, clear)) ==> Printed(m, clear) != ""
  {
    NewlineIsSpace();
    SpaceIsGap();
    hide IsSpace, HasShortGaps;
    if m == [] {
      NothingIsShort();
    } else {
      var c, next := m[0].sym.c, Printed(m[1..], true);
      assert IsSolidMark(m[0]);
      PrintedHasShortGaps(m[1..], true);
      if c == ',' {
        NeatSolid(',', next);
        NeatGap(" ", next);
        NeatSolid(',', " " + next);
        assert "," + "" + next == [','] + next && "," + " " + next == [','] + (" " + next);
      } else if c == ';' {
        NeatGap("\n", next);
        NeatSolid(';', "\n" + next);
        assert ";\n" + next == [';'] + ("\n" + next);
      } else {
        var rest := Printed(m[1..], false);
        PrintedHasShortGaps(m[1..], false);
        NeatSolid(c, rest);
        NeatGap(" ", [c] + rest);
        assert "" + [c] + rest == [c] + rest && " " + [c] + rest == " " + ([c] + rest);
      }
    }
  }

  lemma NothingIsShort()
    ensures HasShortGaps("")
  {}

  lemma TrimmedOnce(y: string)
    ensures TrimText(y + " ") == TrimText(y)
  {
    NewlineIsSpace();
    hide IsSpace;
    var x := y + " ";
    assert x[..|x| - 1] == y && x[|x| - 1] == ' ';
    assert Trailing(x) == 1 + Trailing(y);
    hide Trailing;
    LeadingOfLonger(y);
    if Leading(y) + Trailing(y) < |y| {
      assert x[Leading(y)..|x| - Trailing(x)] == y[Leading(y)..|y| - Trailing(y)];
    }
  }

  lemma LeadingOfLonger(y: string)
    ensures Leading(y + " ") == if Leading(y) == |y| then |y| + 1 else Leading(y)
    ensures Leading(y) + Trailing(y) < |y| <==> Leading(y) < |y|
  {
    NewlineIsSpace();
    hide IsSpace, Leading, Trailing;
    var x := y + " ";
    assert forall k :: 0 <= k < |y| ==> x[k] == y[k];
    if Leading(y) < |y| {
      assert !IsSpace(y[Leading(y)]);
      assert Trailing(y) < |y|;
      assert |y| - Trailing(y) > Leading(y);
    }
  }

  /** Layout is the separators, one pass over the gaps, and a trim. */
  lemma LayoutIsOnePass(w: string)
    requires HasShortGaps(Separated(w))
    ensures Layout(w) == TrimText(Laid(Separated(w)))
  {
    hide SpaceSeparator, BreakLines, TrimLineEnds, CollapseNewlines, TrimText, HasShortGaps, Neat, Laid;
    var d := Separated(w);
    var x := Laid(d);
    PassesAreOne(d);
    LaidIsNeat(d);
    NeatIsClean(x);
    if Bare(x) != x {
      assert x == Bare(x) + " ";
      TrimmedOnce(Bare(x));
    }
  }

  /** The protected text is laid out as its marks are printed, line breaks
      put in by what stands behind each gap, and the ends trimmed. */
  lemma LaidOutInOnePass(s: string)
    ensures LaidOut(s) ==
            TrimText(Laid(Printed(Marks(TrimText(UpcaseKeywords(Work(s, 0, 0), false)), true), true)))
  {
    hide Layout, UpcaseKeywords, CollapseSpace, TrimText, Marks, Laid, Printed, HasShortGaps;
    var w := Work(s, 0, 0);
    var u := UpcaseKeywords(w, false);
    UpcaseCollapse(TrimText(w), false);
    UpcaseTrim(w);
    assert LaidOut(s) == Layout(CollapseSpace(TrimText(u)));
    TightPrints(u);
    MarksAreSolid(TrimText(u), true);
    PrintedHasShortGaps(Marks(TrimText(u), true), true);
    LayoutIsOnePass(CollapseSpace(TrimText(u)));
  }
}
