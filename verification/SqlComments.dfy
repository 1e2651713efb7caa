/** Exactly when formatting keeps the meaning: what is laid out behind each line comment must start a new line. */
module SqlComments {
  import opened Options
  import opened SqlText
  import opened SqlTokens
  import opened SqlProtect
  import opened SqlLexemes
  import opened SqlShape
  import opened SqlFaithful
  import opened SqlFormat
  import opened SqlNextLine
  import opened SqlUpcase
  import opened SqlLift
  import opened SqlCommute
  import opened SqlRestore
  import opened SqlMeaning
  import opened SqlStray

  // ----- A lost newline changes the meaning -----

  lemma {:induction false} WellShapedRest(y: seq<Mark>, values: seq<string>, n: nat)
    requires n <= |y| && WellShaped(y, values)
    ensures WellShaped(y[n..], values)
  {
    hide FrontOk;
    if n == 0 {
      assert y[0..] == y;
    } else {
      WellShapedRest(y[1..], values, n - 1);
      assert y[1..][n - 1..] == y[n..];
    }
  }

  lemma {:induction false} LinesEndRest(x: seq<Sym>, values: seq<string>, n: nat)
    requires n <= |x| && forall k :: 0 <= k < n ==> x[k].Ch?
    ensures LinesEnd(x, values) <==> LinesEnd(x[n..], values)
  {
    if n == 0 {
      assert x[0..] == x;
    } else {
      LinesEndRest(x[1..], values, n - 1);
      assert x[1..][n - 1..] == x[n..];
    }
  }

  lemma CommentSaysItself(v: string)
    requires |v| >= 2 && v[0] == '-' && v[1] == '-'
    ensures Canonical(v) == v
  {}

  /** A line comment that swallows what follows it is another lexeme. */
  lemma SwallowedLine(x: seq<Sym>, apart: bool, values: seq<string>, afterWord: bool)
    requires Readable(x, values) && x != [] && x[0].Hole?
    requires IsLineComment(TextOf(x[0], values)) && !LineEnds(x, values)
    ensures Canonicals(Lexemes(Full(x, values), afterWord)) !=
      Canonicals(ShapeLexemes(Shape(x, apart), values, afterWord))
  {
    hide IsSpace, Canonical, Key;
    var v, z, t := TextOf(x[0], values), Full(x[1..], values), Full(x, values);
    assert t == v + z && t[0] == '-' && t[1] == '-';
    LinePrefix(v, z, 2);
    var n := FrontLength(t, afterWord);
    assert n > |v|;
    SpacesAreNoWords('-');
    LexemesStep(t, afterWord);
    CommentSaysItself(t[..n]);
    CommentSaysItself(v);
    var y := Shape(x, apart);
    assert y[0].sym == x[0];
    assert ShapeLexemes(y, values, afterWord)[0] == v;
    assert Canonicals(Lexemes(t, afterWord))[0] == t[..n];
    assert Canonicals(ShapeLexemes(y, values, afterWord))[0] == v;
  }

  lemma HeadsEqualTailsDiffer(head: string, s: seq<string>, t: seq<string>)
    requires Canonicals(s) != Canonicals(t)
    ensures Canonicals([head] + s) != Canonicals([head] + t)
  {
    hide Canonical;
    assert ([head] + s)[1..] == s && ([head] + t)[1..] == t;
    assert Canonicals([head] + s)[1..] == Canonicals(s) && Canonicals([head] + t)[1..] == Canonicals(t);
  }

  lemma {:induction false} LostNewline(x: seq<Sym>, apart: bool, values: seq<string>, afterWord: bool)
    requires Readable(x, values) && WellShaped(Shape(x, apart), values)
    requires apart ==> !afterWord
    requires !LinesEnd(x, values)
    ensures Canonicals(Lexemes(Full(x, values), afterWord)) !=
      Canonicals(ShapeLexemes(Shape(x, apart), values, afterWord))
    decreases |x|
  {
    hide Key, IsSpace, IsSeparator, IsWord, FrontLength, PlainLength, Chunk,
      Lexemes, Shape, Full, Canonicals, FrontOk, LineEnds, FaithfulFront;
    if x[0].Ch? && IsSpace(x[0].c) {
      LexSpace(x, apart, values, afterWord);
      SpaceIsFaithful(x, values);
      LostNewline(x[1..], true, values, false);
    } else if x[0].Hole? && IsLineComment(TextOf(x[0], values)) && !LineEnds(x, values) {
      SwallowedLine(x, apart, values, afterWord);
    } else {
      if !(x[0].Hole? && IsLineComment(TextOf(x[0], values))) { CharacterLineEnds(x, values); }
      FrontByShape(x, apart, values);
      var y := Shape(x, apart);
      if x[0].Hole? {
        LexHole(x, apart, values, afterWord);
        var v := TextOf(x[0], values);
        assert y[1..] == Shape(x[1..], false);
        LostNewline(x[1..], false, values, LastIsWord(v));
        HeadsEqualTailsDiffer(v, Lexemes(Full(x[1..], values), LastIsWord(v)),
          ShapeLexemes(Shape(x[1..], false), values, LastIsWord(v)));
      } else {
        LostBehindCharacters(x, apart, values, afterWord);
      }
    }
  }

  lemma CharacterLineEnds(x: seq<Sym>, values: seq<string>)
    requires x != []
    requires !(x[0].Hole? && IsLineComment(TextOf(x[0], values)))
    ensures LineEnds(x, values)
  {}

  lemma {:induction false} LostBehindCharacters(x: seq<Sym>, apart: bool, values: seq<string>, afterWord: bool)
    requires Readable(x, values) && WellShaped(Shape(x, apart), values)
    requires apart ==> !afterWord
    requires x != [] && x[0].Ch? && !IsSpace(x[0].c) && FaithfulFront(x, values) && !LinesEnd(x, values)
    ensures Canonicals(Lexemes(Full(x, values), afterWord)) !=
      Canonicals(ShapeLexemes(Shape(x, apart), values, afterWord))
    decreases |x|, 0
  {
    hide Key, IsSpace, IsSeparator, IsWord, FrontLength, PlainLength, Lexemes, Shape,
      Full, Canonicals, FrontOk, LineEnds, FaithfulFront, LinesEnd, WellShaped;
    LexChunk(x, apart, values, afterWord);
    ChunkIsFront(x, apart, values);
    var y := Shape(x, apart);
    var g := Chunk(y);
    var n := PlainLength(g, afterWord && !y[0].apart);
    LinesEndRest(x, values, n);
    WellShapedRest(y, values, n);
    SeparatorIsNoWord(g[n - 1]);
    LostNewline(x[n..], IsSeparator(g[n - 1]), values, IsWord(g[n - 1]));
    HeadsEqualTailsDiffer(g[..n], Lexemes(Full(x[n..], values), IsWord(g[n - 1])),
      ShapeLexemes(y[n..], values, IsWord(g[n - 1])));
  }

  /** Exactly the texts whose laid-out line comments keep a newline behind them keep their meaning. */
  lemma FormatKeepsMeaningIff(s: string)
    requires PlaceholdersAlone(s, 0, 0)
    ensures Meaning(FormatSqlText(s)) == Meaning(s) <==> LinesEnd(FormattedSymbols(s), Values(s, 0))
  {
    hide Faithful, UpcaseSymbols, IsValue, StartsLikeSegment, Lift, Shape, WellShaped,
      LinesEnd, FormatSqlText, Full, Meaning, Lexemes, Canonicals, PlaceholdersAlone;
    var source, x, values := UpcasedSource(s), FormattedSymbols(s), Values(s, 0);
    if LinesEnd(x, values) {
      FormatKeepsMeaning(s);
    } else {
      UpcasedFacts(s);
      FormattedFacts(s);
      FormatIsRestored(s);
      LostNewline(x, true, values, false);
      LexShape(source, true, values, false);
      MeaningFromFront(FormatSqlText(s));
    }
  }

  // ----- What is laid out behind a comment -----

  predicate EndsInUnderscore(p: string) {
    p != "" && p[|p| - 1] == '_'
  }

  lemma SolidUnderscore()
    ensures IsSolid('_') && !IsSpace('_') && !IsSeparator('_')
  {}

  lemma UnderscoreIsNoSpace(p: string)
    requires EndsInUnderscore(p)
    ensures !IsSpace('_') && !IsSeparator('_') && SpaceEnd(p, 0) < |p|
  {
    assert p[|p| - 1] == '_';
  }

  lemma {:induction false} SpaceEndLocal(p: string, z: string, i: nat)
    requires i < |p| && EndsInUnderscore(p)
    ensures SpaceEnd(p + z, i) == SpaceEnd(p, i) < |p|
    decreases |p| - i
  {
    hide IsSpace;
    SolidUnderscore();
    if i + 1 < |p| && IsSpace(p[i]) { SpaceEndLocal(p, z, i + 1); }
  }

  lemma UnderscoreTail(p: string, n: nat)
    requires EndsInUnderscore(p) && n < |p|
    ensures EndsInUnderscore(p[n..])
  {}

  lemma {:induction false} CollapseSplits(p: string, z: string)
    requires EndsInUnderscore(p)
    ensures CollapseSpace(p + z) == CollapseSpace(p) + CollapseSpace(z)
    ensures EndsInUnderscore(CollapseSpace(p))
    decreases |p|
  {
    hide IsSpace;
    UnderscoreIsNoSpace(p);
    SpaceEndLocal(p, z, 0);
    var n := if IsSpace(p[0]) then SpaceEnd(p, 0) else 1;
    assert (p + z)[n..] == p[n..] + z;
    if n < |p| {
      CollapseSplits(p[n..], z);
    } else {
      assert p[n..] + z == z;
      assert CollapseSpace(p) == p;
    }
  }

  lemma {:induction false} SeparatorSplits(p: string, z: string, c: char, space: char)
    requires EndsInUnderscore(p) && c != '_'
    ensures SpaceSeparator(p + z, c, space) == SpaceSeparator(p, c, space) + SpaceSeparator(z, c, space)
    ensures EndsInUnderscore(SpaceSeparator(p, c, space))
    decreases |p|
  {
    hide IsSpace, SpaceSeparator, SpaceEnd;
    SpaceEndLocal(p, z, 0);
    SeparatorUnfolds(p, c, space);
    SeparatorUnfolds(p + z, c, space);
    var n := SpaceEnd(p, 0);
    if At(p, n, c) {
      SpaceEndLocal(p, z, n + 1);
      var m := SpaceEnd(p, n + 1);
      DropOfConcat(p, z, m);
      UnderscoreTail(p, m);
      SeparatorSplits(p[m..], z, c, space);
      ConcatAssociates([c, space], SpaceSeparator(p[m..], c, space), SpaceSeparator(z, c, space));
    } else {
      DropOfConcat(p, z, 1);
      assert (p + z)[0] == p[0];
      if |p| > 1 {
        UnderscoreTail(p, 1);
        SeparatorSplits(p[1..], z, c, space);
        ConcatAssociates([p[0]], SpaceSeparator(p[1..], c, space), SpaceSeparator(z, c, space));
      } else {
        SeparatorNothing(c, space);
        assert p[1..] + z == z;
        assert SpaceSeparator(p, c, space) == p;
      }
    }
  }

  lemma PhraseBeforeUnderscore(phrase: string, q: string, z: string)
    requires EndsInUnderscore(q) && '_' !in phrase
    ensures phrase <= q ==> |phrase| < |q|
    ensures phrase <= q + z <==> phrase <= q
    ensures |phrase| < |q| ==> (q + z)[|phrase|] == q[|phrase|]
  {
    var t := q + z;
    assert t[|q| - 1] == q[|q| - 1] == '_';
    assert t[..|q|] == q;
    assert phrase <= t ==> |phrase| < |q|;
  }

  lemma {:induction false} OneOfLocal(phrases: seq<string>, q: string, z: string)
    requires EndsInUnderscore(q)
    requires forall phrase :: phrase in phrases ==> '_' !in phrase
    ensures OneOf(phrases, q + z) == OneOf(phrases, q) < |q|
  {
    hide IsWord;
    if phrases != [] {
      assert phrases[0] in phrases;
      PhraseBeforeUnderscore(phrases[0], q, z);
      OneOfLocal(phrases[1..], q, z);
    }
  }

  lemma PhrasesHaveNoUnderscore()
    ensures forall phrase :: phrase in CLAUSES ==> '_' !in phrase
    ensures forall phrase :: phrase in SIDES ==> '_' !in phrase
    ensures '_' !in "JOIN" && '_' !in "AND" && '_' !in "OR"
  {}

  lemma PhraseLocal(kind: Break, q: string, z: string)
    requires EndsInUnderscore(q)
    ensures PhraseLength(kind, q + z) == PhraseLength(kind, q) < |q|
  {
    hide IsSpace, OneOf, SpaceEnd;
    PhrasesHaveNoUnderscore();
    match kind
    case Clause => OneOfLocal(CLAUSES, q, z);
    case Logic => OneOfLocal(["AND", "OR"], q, z);
    case Joining =>
      OneOfLocal(SIDES, q, z);
      OneOfLocal(["JOIN"], q, z);
      var side := OneOf(SIDES, q);
      SpaceEndLocal(q, z, side);
      var gap := SpaceEnd(q, side);
      UnderscoreTail(q, gap);
      OneOfLocal(["JOIN"], q[gap..], z);
      assert (q + z)[gap..] == q[gap..] + z;
  }

  lemma {:induction false} BreaksSplit(p: string, z: string, kind: Break)
    requires EndsInUnderscore(p)
    ensures BreakLines(p + z, kind) == BreakLines(p, kind) + BreakLines(z, kind)
    ensures EndsInUnderscore(BreakLines(p, kind))
    decreases |p|
  {
    hide IsSpace, PhraseLength, Indent, SpaceEnd, BreakLines;
    SpaceEndLocal(p, z, 0);
    var n := SpaceEnd(p, 0);
    UnderscoreTail(p, n);
    PhraseLocal(kind, p[n..], z);
    DropOfConcat(p, z, n);
    var m := PhraseLength(kind, p[n..]);
    if n > 0 && m > 0 {
      DropOfConcat(p, z, n + m);
      SliceOfConcat(p, z, n, n + m);
      UnderscoreTail(p, n + m);
      BreaksSplit(p[n + m..], z, kind);
      BreakUnfolds(p, kind, n, m);
      BreakUnfolds(p + z, kind, n, m);
      BreakJoins(Indent(kind), p[n..n + m], BreakLines(p[n + m..], kind), BreakLines(z, kind));
    } else {
      NoBreakUnfolds(p, kind);
      NoBreakUnfolds(p + z, kind);
      DropOfConcat(p, z, 1);
      assert (p + z)[0] == p[0];
      if |p| > 1 {
        UnderscoreTail(p, 1);
        BreaksSplit(p[1..], z, kind);
        ConcatAssociates([p[0]], BreakLines(p[1..], kind), BreakLines(z, kind));
      } else {
        assert p[1..] + z == z;
        assert BreakLines(p, kind) == p;
      }
    }
  }

  lemma BreakJoins(indent: string, phrase: string, rest: string, tail: string)
    ensures indent + (phrase + (rest + tail)) == indent + (phrase + rest) + tail
    ensures EndsInUnderscore(rest) ==> EndsInUnderscore(indent + (phrase + rest))
  {}

  lemma {:induction false} BlankLocal(p: string, z: string)
    requires EndsInUnderscore(p)
    ensures BlankToLineEnd(p + z) == BlankToLineEnd(p)
  {
    hide IsSpace;
    SolidUnderscore();
    if |p| > 1 {
      BlankLocal(p[1..], z);
      assert (p + z)[1..] == p[1..] + z;
    }
  }

  lemma {:induction false} LineEndsSplit(p: string, z: string)
    requires EndsInUnderscore(p)
    ensures TrimLineEnds(p + z) == TrimLineEnds(p) + TrimLineEnds(z)
    ensures EndsInUnderscore(TrimLineEnds(p))
  {
    hide IsSpace;
    SolidUnderscore();
    BlankLocal(p, z);
    assert (p + z)[1..] == p[1..] + z;
    if |p| > 1 {
      LineEndsSplit(p[1..], z);
    } else {
      assert p[1..] + z == z;
      assert TrimLineEnds(p) == p;
    }
  }

  lemma {:induction false} NewlinesEndLocal(p: string, z: string, i: nat)
    requires i < |p| && EndsInUnderscore(p)
    ensures NewlinesEnd(p + z, i) == NewlinesEnd(p, i) < |p|
    decreases |p| - i
  {
    if i + 1 < |p| && p[i] == '\n' { NewlinesEndLocal(p, z, i + 1); }
  }

  lemma {:induction false} NewlinesSplit(p: string, z: string)
    requires EndsInUnderscore(p)
    ensures CollapseNewlines(p + z) == CollapseNewlines(p) + CollapseNewlines(z)
    ensures EndsInUnderscore(CollapseNewlines(p))
    decreases |p|
  {
    NewlinesEndLocal(p, z, 0);
    var n := if NewlinesEnd(p, 0) >= 3 then NewlinesEnd(p, 0) else 1;
    assert (p + z)[n..] == p[n..] + z;
    if n < |p| {
      NewlinesSplit(p[n..], z);
    } else {
      assert p[n..] + z == z;
      assert CollapseNewlines(p) == p;
    }
  }

  lemma ArrangeSplits(p: string, z: string)
    requires EndsInUnderscore(p)
    ensures Arrange(p + z) == Arrange(p) + Arrange(z)
    ensures EndsInUnderscore(Arrange(p))
  {
    hide SpaceSeparator, BreakLines, TrimLineEnds, CollapseNewlines;
    var p1, z1 := SpaceSeparator(p, ',', ' '), SpaceSeparator(z, ',', ' ');
    var p2, z2 := SpaceSeparator(p1, ';', '\n'), SpaceSeparator(z1, ';', '\n');
    var p3, z3 := BreakLines(p2, Clause), BreakLines(z2, Clause);
    var p4, z4 := BreakLines(p3, Joining), BreakLines(z3, Joining);
    var p5, z5 := BreakLines(p4, Logic), BreakLines(z4, Logic);
    SeparatorSplits(p, z, ',', ' ');
    SeparatorSplits(p1, z1, ';', '\n');
    BreaksSplit(p2, z2, Clause);
    BreaksSplit(p3, z3, Joining);
    BreaksSplit(p4, z4, Logic);
    LineEndsSplit(p5, z5);
    NewlinesSplit(TrimLineEnds(p5), TrimLineEnds(z5));
  }

  lemma TrailingInConcat(p: string, z: string)
    requires EndsInUnderscore(p)
    ensures Trailing(p + z) == Trailing(z)
  {
    hide IsSpace;
    SolidUnderscore();
    var w, n, m := p + z, Trailing(p + z), Trailing(z);
    assert w[|p| - 1] == '_';
    assert forall k :: |p| <= k < |w| ==> w[k] == z[k - |p|];
    if m < |z| { assert w[|w| - m - 1] == z[|z| - m - 1]; }
  }

  lemma LeadingInConcat(p: string, z: string)
    requires EndsInUnderscore(p)
    ensures Leading(p + z) == Leading(p) < |p|
  {
    hide IsSpace;
    SolidUnderscore();
    var w := p + z;
    assert w[|p| - 1] == p[|p| - 1] == '_';
    assert forall k :: 0 <= k < |p| ==> w[k] == p[k];
  }

  lemma TrimIsSlice(w: string)
    requires Leading(w) + Trailing(w) < |w|
    ensures TrimText(w) == w[Leading(w)..|w| - Trailing(w)]
  {
    hide Leading, Trailing;
  }

  lemma TrimSplits(p: string, z: string)
    requires EndsInUnderscore(p)
    ensures TrimText(p + z) == p[Leading(p)..] + TrimBack(z)
    ensures Leading(p) < |p| && EndsInUnderscore(p[Leading(p)..])
  {
    hide IsSpace, Leading, Trailing, TrimText;
    TrailingInConcat(p, z);
    LeadingInConcat(p, z);
    var l, k := Leading(p), |z| - Trailing(z);
    UnderscoreTail(p, l);
    var w := p + z;
    TrimIsSlice(w);
    assert |w| - Trailing(w) == |p| + k;
    SliceAcross(p, z, l, k);
    assert TrimText(w) == p[l..] + z[..k];
  }

  /** The whole chain: what stands behind a placeholder is laid out on its own. */
  lemma LayoutSplits(p: string, z: string) returns (head: string)
    requires EndsInUnderscore(p)
    ensures Layout(CollapseSpace(TrimText(p + z))) == head + LayoutTail(z)
    ensures EndsInUnderscore(head)
  {
    hide IsSpace, Leading, Trailing, TrimText, TrimBack, CollapseSpace,
      SpaceSeparator, BreakLines, TrimLineEnds, CollapseNewlines;
    TrimSplits(p, z);
    var p1 := p[Leading(p)..];
    CollapseSplits(p1, TrimBack(z));
    var p2 := CollapseSpace(p1);
    ArrangeSplits(p2, CollapseSpace(TrimBack(z)));
    var p3 := Arrange(p2);
    TrimSplits(p3, Arrange(CollapseSpace(TrimBack(z))));
    head := p3[Leading(p3)..];
  }

  lemma TrimBackKeepsMarks(w: string)
    ensures SameMarks(TrimBack(w), w)
  {
    hide IsSpace, Marks;
    MarksBack(w, |w| - Trailing(w), true);
    MarksBack(w, |w| - Trailing(w), false);
  }

  lemma LayoutTailKeepsMarks(z: string)
    ensures SameMarks(LayoutTail(z), z)
  {
    hide Marks, SpaceSeparator, BreakLines, TrimLineEnds, CollapseNewlines, CollapseSpace, TrimBack, IsSpace;
    SpacesAre();
    var w0 := CollapseSpace(TrimBack(z));
    var w1 := SpaceSeparator(w0, ',', ' ');
    var w2 := SpaceSeparator(w1, ';', '\n');
    var w3 := BreakLines(w2, Clause);
    var w4 := BreakLines(w3, Joining);
    var w5 := BreakLines(w4, Logic);
    var w6 := TrimLineEnds(w5);
    TrimBackKeepsMarks(z);
    CollapseKeepsMarks(TrimBack(z));
    SeparatorKeepsMarks(w0, ',', ' ');
    SeparatorKeepsMarks(w1, ';', '\n');
    BreaksKeepMarks(w2, Clause);
    BreaksKeepMarks(w3, Joining);
    BreaksKeepMarks(w4, Logic);
    LineEndsKeepMarks(w5);
    NewlinesKeepMarks(w6);
    TrimBackKeepsMarks(CollapseNewlines(w6));
  }

  // ----- Matching the parts of the laid-out text -----

  lemma {:induction false} MoreMarks(p: string, z: string, a: bool)
    ensures |Marks(p + z, a)| >= |Marks(z, false)|
    ensures EndsInUnderscore(p) ==> |Marks(p + z, a)| > |Marks(z, false)|
    decreases |p|
  {
    hide IsSpace, IsSeparator;
    SolidUnderscore();
    MarksCount(z);
    if p == "" {
      assert p + z == z;
    } else {
      assert (p + z)[1..] == p[1..] + z && (p + z)[0] == p[0];
      MoreMarks(p[1..], z, true);
      MoreMarks(p[1..], z, false);
    }
  }

  lemma {:induction false} MarksCount(z: string)
    ensures |Marks(z, true)| == |Marks(z, false)|
  {
    hide IsSpace, IsSeparator;
  }

  /** Two ways to cut a text behind an underscore, with the same marks behind the cut, are one. */
  lemma SameCut(a: string, x: string, b: string, y: string)
    requires a + x == b + y && EndsInUnderscore(a) && EndsInUnderscore(b)
    requires Marks(x, false) == Marks(y, false)
    ensures x == y
  {
    hide Marks;
    var t := a + x;
    if |x| < |y| {
      CutLater(a, x, b, y);
    } else if |y| < |x| {
      CutLater(b, y, a, x);
    } else {
      assert t[|a|..] == x && t[|b|..] == y;
    }
  }

  lemma CutLater(a: string, x: string, b: string, y: string)
    requires a + x == b + y && EndsInUnderscore(a) && |x| < |y|
    ensures |Marks(y, false)| > |Marks(x, false)|
  {
    hide Marks;
    LongerTail(a, x, b, y);
    UnderscoreTail(a, |b|);
    MoreMarks(a[|b|..], x, false);
  }

  // ----- The condition -----

  predicate CommentsKeepLines(x: seq<Sym>, values: seq<string>) {
    x == [] || ((x[0].Hole? && IsLineComment(TextOf(x[0], values)) ==> StartsLine(Render(x[1..], values, 0)))
                && CommentsKeepLines(x[1..], values))
  }

  lemma FrontIsNewline(x: seq<Sym>, values: seq<string>)
    requires Readable(x, values)
    ensures (Full(x, values) == "" || Full(x, values)[0] == '\n') <==>
      (Render(x, values, 0) == "" || Render(x, values, 0)[0] == '\n')
  {
    if x != [] {
      FrontOfText(x, values);
      assert Render(x, values, 0)[0] == RenderSym(x[0], values, 0)[0];
    }
  }

  /** The text up to somewhere in the source, and how far it is laid out. */
  ghost predicate InStep(source: string, prefix: string, rest: string, done: string, w: string) {
    source == prefix + rest && Layout(CollapseSpace(TrimText(source))) == done + w
  }

  lemma StepOver(source: string, prefix: string, p: string, rest: string, done: string, d: string, w: string)
    requires InStep(source, prefix, p + rest, done, d + w)
    ensures InStep(source, prefix + p, rest, done + d, w)
  {
    hide Layout, CollapseSpace, TrimText;
    ConcatAssociates(prefix, p, rest);
    ConcatAssociates(done, d, w);
  }

  lemma KeyEndsInUnderscore(t: string, k: nat)
    ensures EndsInUnderscore(t + Key(k))
  {
    var key := Key(k);
    assert key[|key| - 1] == '_';
    assert (t + key)[|t + key| - 1] == key[|key| - 1];
  }

  /** Behind a placeholder the laid-out text is what its rest is laid out to. */
  lemma BehindPlaceholder(source: string, prefix: string, k: nat, rest: string, done: string, v: string)
    requires InStep(source, prefix, Key(k) + rest, done, Key(k) + v)
    requires Marks(v, false) == Marks(rest, false)
    ensures v == LayoutTail(rest)
  {
    hide Layout, CollapseSpace, TrimText, Key, Marks, LayoutTail, EndsInUnderscore;
    StepOver(source, prefix, Key(k), rest, done, Key(k), v);
    KeyEndsInUnderscore(prefix, k);
    KeyEndsInUnderscore(done, k);
    var head := LayoutSplits(prefix + Key(k), rest);
    LayoutTailKeepsMarks(rest);
    SameCut(done + Key(k), v, head, LayoutTail(rest));
  }

  lemma {:induction false} LiftedLines(w: string, x: seq<Sym>, values: seq<string>, a: bool, b: bool,
                                       source: string, prefix: string, done: string)
    requires Readable(x, values)
    requires Marks(w, a) == Marks(Render(x, values, 0), b)
    requires InStep(source, prefix, Render(x, values, 0), done, w)
    ensures LinesEnd(Lift(w, x), values) <==> CommentsKeepLines(x, values)
    decreases |w| + |x|
  {
    hide IsSpace, IsSeparator, Key, Marks, InStep, Render, IsLineComment,
      StartsLine, LinesEnd, CommentsKeepLines, Lift, AreValues;
    if w != "" && IsSpace(w[0]) {
      LinesAtSpace(w, x, values);
      SpaceMarks(w, a);
      assert w == [w[0]] + w[1..];
      var t := Render(x, values, 0);
      assert "" + t == t;
      StepOver(source, prefix, "", t, done, [w[0]], w[1..]);
      LiftedLines(w[1..], x, values, true, b, source, prefix + "", done + [w[0]]);
    } else if x == [] {
      LiftNothing(w, values, a, b);
      LinesAtEnd(values);
    } else if x[0].Ch? {
      LinesAtCharacter(w, x, values, a, b, source, prefix, done);
    } else {
      LinesAtHole(w, x, values, a, b, source, prefix, done);
    }
  }

  lemma SpaceMarks(w: string, a: bool)
    requires w != "" && IsSpace(w[0])
    ensures Marks(w, a) == Marks(w[1..], true)
  {}

  lemma LinesAtSpace(w: string, x: seq<Sym>, values: seq<string>)
    requires w != "" && IsSpace(w[0])
    ensures LinesEnd(Lift(w, x), values) <==> LinesEnd(Lift(w[1..], x), values)
  {
    hide IsSpace;
    var rest := Lift(w[1..], x);
    assert Lift(w, x) == [Ch(w[0])] + rest;
    assert ([Ch(w[0])] + rest)[1..] == rest;
  }

  lemma LinesAtEnd(values: seq<string>)
    ensures LinesEnd(Lift("", []), values) && CommentsKeepLines([], values)
  {}

  lemma {:induction false} LinesAtCharacter(w: string, x: seq<Sym>, values: seq<string>, a: bool, b: bool,
                                            source: string, prefix: string, done: string)
    requires Readable(x, values)
    requires Marks(w, a) == Marks(Render(x, values, 0), b)
    requires InStep(source, prefix, Render(x, values, 0), done, w)
    requires (w != "" ==> !IsSpace(w[0])) && x != [] && x[0].Ch?
    ensures LinesEnd(Lift(w, x), values) <==> CommentsKeepLines(x, values)
    decreases |w| + |x|, 0
  {
    hide IsSpace, IsSeparator, Key, Marks, InStep, IsLineComment, StartsLine;
    var c, z := x[0].c, Render(x[1..], values, 0);
    assert Render(x, values, 0) == [c] + z && ([c] + z)[1..] == z;
    if IsSpace(c) {
      RenderedSpace(x, values, b);
      assert "" + w == w;
      StepOver(source, prefix, [c], z, done, "", w);
      LiftedLines(w, x[1..], values, a, true, source, prefix + [c], done + "");
    } else {
      MarksFront([c] + z, b);
      if w == "" { NoMarks(a); }
      MarksFront(w, a);
      var sep := IsSeparator(c);
      assert w == [c] + w[1..];
      StepOver(source, prefix, [c], z, done, [c], w[1..]);
      LiftedLines(w[1..], x[1..], values, sep, sep, source, prefix + [c], done + [c]);
      var rest := Lift(w[1..], x[1..]);
      assert Lift(w, x) == [x[0]] + rest;
      assert ([x[0]] + rest)[1..] == rest;
    }
  }

  lemma {:induction false} LinesAtHole(w: string, x: seq<Sym>, values: seq<string>, a: bool, b: bool,
                                       source: string, prefix: string, done: string)
    requires Readable(x, values)
    requires Marks(w, a) == Marks(Render(x, values, 0), b)
    requires InStep(source, prefix, Render(x, values, 0), done, w)
    requires (w != "" ==> !IsSpace(w[0])) && x != [] && x[0].Hole?
    ensures LinesEnd(Lift(w, x), values) <==> CommentsKeepLines(x, values)
    decreases |w| + |x|, 0
  {
    hide IsSpace, IsSeparator, Key, Marks, InStep, IsLineComment, LayoutTail, IsSolid;
    var key, z := Key(x[0].k), Render(x[1..], values, 0);
    assert Render(x, values, 0) == key + z;
    KeyIsSolid(x[0].k);
    SolidIsNoSpace(key[0]);
    MarksFront(key + z, b);
    if w == "" { NoMarks(a); }
    SolidFront(key, z, w, a, b);
    var v := w[|key|..];
    assert w == key + v;
    BehindPlaceholder(source, prefix, x[0].k, z, done, v);
    StepOver(source, prefix, key, z, done, key, v);
    LiftedLines(v, x[1..], values, false, false, source, prefix + key, done + key);
    var rest := Lift(v, x[1..]);
    assert Lift(w, x) == [x[0]] + rest;
    assert ([x[0]] + rest)[1..] == rest;
    Lifted(v, x[1..], values, false, false);
    LiftHoles(v, x[1..], values);
    FrontIsNewline(rest, values);
  }

  // ----- The condition read off the source -----

  /** Behind every line comment of the source from `i` on, the protected text, with its keywords in
      upper case, is blank or goes on with a phrase that the formatter puts on a new line. */
  predicate CommentsKept(s: string, i: nat, n: nat)
    requires i <= |s|
    decreases |s| - i
  {
    if i == |s| then true
    else match SegmentEnd(s, i)
      case Some(e) =>
        && (s[i] == '-' ==> OpensLine(UpcaseKeywords(Work(s, e, n + 1), true)))
        && CommentsKept(s, e, n + 1)
      case None => CommentsKept(s, i + 1, n)
  }

  predicate CommentsKeptIn(x: seq<Sym>, values: seq<string>) {
    x == [] || ((x[0].Hole? && IsLineComment(TextOf(x[0], values)) ==>
      StartsLine(Render(UpcaseSymbols(x[1..], true), values, 0)))
                && CommentsKeptIn(x[1..], values))
  }

  lemma {:induction false} KeptBehindCharacters(x: seq<Sym>, values: seq<string>, n: nat)
    requires n <= |x| && forall k :: 0 <= k < n ==> x[k].Ch?
    ensures CommentsKeptIn(x, values) <==> CommentsKeptIn(x[n..], values)
    ensures CommentsKeepLines(x, values) <==> CommentsKeepLines(x[n..], values)
  {
    hide StartsLine;
    if n == 0 {
      assert x[0..] == x;
    } else {
      KeptBehindCharacters(x[1..], values, n - 1);
      assert x[1..][n - 1..] == x[n..];
    }
  }

  lemma {:induction false} KeptAfterUpcase(x: seq<Sym>, values: seq<string>, afterWord: bool)
    ensures CommentsKeepLines(UpcaseSymbols(x, afterWord), values) <==> CommentsKeptIn(x, values)
    decreases |x|
  {
    hide IsWord, KeywordAt, WordRun, Characters, Upper, Symbolic, StartsLine, Render;
    if x != [] {
      if x[0].Ch? && !afterWord && KeywordAt(x) {
        var n := WordRun(x);
        var run, rest := Upper(Characters(x[..n])), UpcaseSymbols(x[n..], true);
        KeywordRunIsLong(x);
        KeptAfterUpcase(x[n..], values, true);
        KeptBehindCharacters(x, values, n);
        SymbolicFront(run, rest);
        KeptBehindCharacters(Symbolic(run) + rest, values, |run|);
      } else {
        var next := x[0].Hole? || IsWord(x[0].c);
        KeptAfterUpcase(x[1..], values, next);
        assert ([x[0]] + UpcaseSymbols(x[1..], next))[1..] == UpcaseSymbols(x[1..], next);
      }
    }
  }

  lemma SymbolicFront(run: string, rest: seq<Sym>)
    ensures var all := Symbolic(run) + rest;
            |run| <= |all| && all[|run|..] == rest && forall k :: 0 <= k < |run| ==> all[k].Ch?
  {}

  lemma {:induction false} KeptInSource(s: string, i: nat, n: nat, values: seq<string>)
    requires i <= |s| && n <= |values| && values[n..] == Values(s, i)
    ensures CommentsKeptIn(Symbols(s, i, n), values) <==> CommentsKept(s, i, n)
    decreases |s| - i
  {
    hide SegmentEnd, Key, StartsLine, OpensLine, IsLineComment, UpcaseKeywords;
    if i < |s| {
      var x := Symbols(s, i, n);
      match SegmentEnd(s, i)
      case Some(e) =>
        assert values[n] == values[n..][0] && values[n + 1..] == values[n..][1..];
        assert x[1..] == Symbols(s, e, n + 1);
        KeptInSource(s, e, n + 1, values);
        SymbolsRender(s, e, n + 1, values);
        UpcaseRendered(x[1..], values, true);
        DashIsLineComment(s, i, e);
        if s[i] == '-' {
          BehindComment(s, i, e, n + 1);
          StartsLineBySyntax(UpcaseKeywords(Work(s, e, n + 1), true));
        }
      case None =>
        assert x[1..] == Symbols(s, i + 1, n);
        KeptInSource(s, i + 1, n, values);
    }
  }

  lemma {:induction false} LineEndIsNewline(s: string, i: nat)
    requires i <= |s|
    ensures LineEnd(s, i) < |s| ==> s[LineEnd(s, i)] == '\n'
    decreases |s| - i
  {
    if i < |s| && s[i] != '\n' { LineEndIsNewline(s, i + 1); }
  }

  /** What follows a line comment is nothing or a newline. */
  lemma BehindComment(s: string, i: nat, e: nat, n: nat)
    requires i < |s| && SegmentEnd(s, i) == Some(e) && s[i] == '-'
    ensures e <= |s|
    ensures var z := UpcaseKeywords(Work(s, e, n), true); z != "" ==> IsSpace(z[0])
  {
    LineEndIsNewline(s, i + 2);
    if e < |s| {
      assert s[e] == '\n' && SegmentEnd(s, e) == None;
      var w := Work(s, e, n);
      assert w[0] == '\n';
      UpcaseSpaceStep(w, true);
    }
  }

  lemma DashIsLineComment(s: string, i: nat, e: nat)
    requires i < |s| && SegmentEnd(s, i) == Some(e)
    ensures IsLineComment(s[i..e]) <==> s[i] == '-'
  {
    hide SegmentEnd;
    ShiftSegment(s, i);
    SegmentIsValue(s[i..]);
    assert s[i..][..e - i] == s[i..e];
  }

  lemma LinesByComments(s: string)
    ensures LinesEnd(FormattedSymbols(s), Values(s, 0)) <==> CommentsKept(s, 0, 0)
  {
    hide UpcaseSymbols, IsValue, StartsLikeSegment, Lift, Marks, LinesEnd, Render, CommentsKeepLines,
      CommentsKept, CommentsKeptIn, Layout, CollapseSpace, TrimText, UpcaseKeywords, Faithful;
    var x, values := UpcasedSource(s), Values(s, 0);
    var w := UpcaseKeywords(Work(s, 0, 0), false);
    assert values[0..] == values;
    UpcasedFacts(s);
    LaidOutMarks(s);
    UpcaseCollapse(TrimText(Work(s, 0, 0)), false);
    UpcaseTrim(Work(s, 0, 0));
    assert Layout(CollapseSpace(TrimText(w))) == LaidOut(s);
    assert "" + w == w && "" + LaidOut(s) == LaidOut(s);
    LiftedLines(LaidOut(s), x, values, true, true, w, "", "");
    KeptAfterUpcase(Symbols(s, 0, 0), values, false);
    KeptInSource(s, 0, 0, values);
  }

  /** A placeholder that is replaced where it was not put shows in the meaning. */
  lemma StrayPlaceholderShows(s: string)
    requires !PlaceholdersAlone(s, 0, 0)
    ensures Meaning(FormatSqlText(s)) != Meaning(s)
  {
    hide Faithful, UpcaseSymbols, IsValue, StartsLikeSegment, Lift, Shape, WellShaped, LinesEnd, FormatSqlText,
      Full, Meaning, Lexemes, Canonicals, PlaceholdersAlone, ShapeLexemes, LaidOut, Render, FormattedSymbols;
    var source, x, values, f := UpcasedSource(s), FormattedSymbols(s), Values(s, 0), FormatSqlText(s);
    UpcasedFacts(s);
    FormattedFacts(s);
    FormatIsRestored(s);
    var h: nat :| Clash(f, Full(x, values), h);
    ClashSays(x, true, values, f, h, false);
    LexShape(source, true, values, false);
    MeaningFromFront(f);
  }

  /** For every text: the formatter keeps what it says if and only if every placeholder stands alone and every line
      comment is followed by nothing or by one of the formatter's phrases. */
  lemma FormattingKeepsMeaning(s: string)
    ensures Meaning(FormatSqlText(s)) == Meaning(s) <==> PlaceholdersAlone(s, 0, 0) && CommentsKept(s, 0, 0)
  {
    hide PlaceholdersAlone, LinesEnd, CommentsKept, FormatSqlText, Meaning, FormattedSymbols;
    if PlaceholdersAlone(s, 0, 0) {
      FormatKeepsMeaningIff(s);
      LinesByComments(s);
    } else {
      StrayPlaceholderShows(s);
    }
  }

  /** The same for every text without the placeholder word. */
  lemma FormattingPlainText(s: string)
    requires NoWord(s)
    ensures Meaning(FormatSqlText(s)) == Meaning(s) <==> CommentsKept(s, 0, 0)
  {
    hide NoWord, PlaceholdersAlone, CommentsKept, FormatSqlText, Meaning;
    NoWordStandsAlone(s);
    FormattingKeepsMeaning(s);
  }

  /** In particular it keeps every text without a line comment. */
  lemma {:induction false} NoLineCommentsAreKept(s: string, i: nat, n: nat)
    requires i <= |s| && forall sp :: sp in Protected(s, i) ==> sp.start < |s| && s[sp.start] != '-'
    ensures CommentsKept(s, i, n)
    decreases |s| - i
  {
    hide SegmentEnd, OpensLine;
    if i < |s| {
      match SegmentEnd(s, i)
      case Some(e) =>
        assert Span(i, e) in Protected(s, i);
        assert forall sp :: sp in Protected(s, e) ==> sp in Protected(s, i);
        NoLineCommentsAreKept(s, e, n + 1);
      case None => NoLineCommentsAreKept(s, i + 1, n);
    }
  }

  lemma FormattingWithoutLineComments(s: string)
    requires forall sp :: sp in Protected(s, 0) ==> sp.start < |s| && s[sp.start] != '-'
    ensures Meaning(FormatSqlText(s)) == Meaning(s) <==> PlaceholdersAlone(s, 0, 0)
  {
    hide PlaceholdersAlone, CommentsKept, FormatSqlText, Meaning, Protected;
    NoLineCommentsAreKept(s, 0, 0);
    FormattingKeepsMeaning(s);
  }

  /** A comment in front of a number swallows it: the newline between them becomes a space. */
  lemma FormattingCanSwallow()
    ensures var s := "a--\n1"; NoWord(s) && Meaning(FormatSqlText(s)) != Meaning(s)
  {
    hide FormatSqlText, Meaning, OpensLine;
    var s := "a--\n1";
    ShortTextHasNoWord(s);
    assert SegmentEnd(s, 0) == None;
    assert LineEnd(s, 3) == 3;
    assert SegmentEnd(s, 1) == Some(3);
    SwallowedTail();
    assert !CommentsKept(s, 1, 0);
    assert CommentsKept(s, 0, 0) == CommentsKept(s, 1, 0);
    FormattingPlainText(s);
  }

  lemma {:induction false} ShortTextHasNoWord(s: string)
    requires |s| < |WORD|
    ensures NoWord(s)
  {
    if s != "" { ShortTextHasNoWord(s[1..]); }
  }

  lemma SwallowedTail()
    ensures !OpensLine(UpcaseKeywords(Work("a--\n1", 3, 1), true))
  {
    var s := "a--\n1";
    assert SegmentEnd(s, 3) == None && SegmentEnd(s, 4) == None;
    assert Work(s, 5, 1) == "" && Work(s, 4, 1) == "1";
    assert Work(s, 3, 1) == "\n" + Work(s, 4, 1) == ['\n', '1'];
    NoPhraseBehindLine('1');
  }

  lemma NoPhraseBehindLine(c: char)
    requires !IsLetter(c) && !IsSpace(c)
    ensures !OpensLine(UpcaseKeywords(['\n', c], true))
  {
    CharacterStays(c);
    CharacterIsTrimmed(c);
    NoPhraseAtMark([c]);
  }

  lemma CharacterStays(c: char)
    requires !IsLetter(c) && !IsSpace(c)
    ensures UpcaseKeywords(['\n', c], true) == ['\n', c]
  {
    hide IsSpace, IsKeyword;
    var w := ['\n', c];
    assert w[1..] == [c] && IsSpace('\n') by { NewlineIsSpace(); }
    UpcaseSpaceStep(w, true);
    UpcaseEmpty(true);
    UpcaseEmpty(false);
    assert [c][1..] == "" && [c][..1] == [c];
    assert LowerChar(c) == c;
    LetterInKeyword(c);
    assert WordEnd([c], 0) <= 1;
    assert UpcaseKeywords([c], false) == [c] + "";
  }

  lemma LetterInKeyword(c: char)
    ensures IsKeyword([c]) ==> IsLetter(c)
  {
    if IsKeyword([c]) { KeywordsAreShortWords(Lower([c])); }
    assert Lower([c])[0] == LowerChar(c);
  }

  lemma CharacterIsTrimmed(c: char)
    requires !IsSpace(c)
    ensures var z := ['\n', c]; !SpaceBetween(z, 0, |z|) && CollapseSpace(TrimText(z)) == [c]
  {
    var z := ['\n', c];
    assert !IsSpace(z[1]) && IsSpace(z[0]);
    assert Leading(z) == 1 && Trailing(z) == 0;
    assert TrimText(z) == [c] && [c][1..] == "";
  }
}
