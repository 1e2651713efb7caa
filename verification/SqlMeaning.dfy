/** The formatter puts its segments back and keeps what the text says, when no line comment loses its newline. */
module SqlMeaning {
  import opened SqlText
  import opened SqlTokens
  import opened SqlProtect
  import opened SqlRestore
  import opened SqlAlone
  import opened SqlLexemes
  import opened SqlShape
  import opened SqlFaithful
  import opened SqlFormat
  import opened SqlUpcase
  import opened SqlLift
  import opened SqlCommute

  // ----- Upper-casing keeps the holes readable -----

  lemma {:induction false} UpcaseHoles(x: seq<Sym>, values: seq<string>, afterWord: bool)
    requires HolesIn(x, values)
    ensures HolesIn(UpcaseSymbols(x, afterWord), values)
    decreases |x|
  {
    hide IsWord, KeywordAt, WordRun, Characters, Upper, Symbolic;
    if x != [] {
      if x[0].Ch? && !afterWord && KeywordAt(x) {
        var n := WordRun(x);
        KeywordRunIsLong(x);
        UpcaseHoles(x[n..], values, true);
        KeywordHoles(Upper(Characters(x[..n])), UpcaseSymbols(x[n..], true), values);
      } else {
        UpcaseHoles(x[1..], values, x[0].Hole? || IsWord(x[0].c));
      }
    }
  }

  lemma KeywordHoles(run: string, rest: seq<Sym>, values: seq<string>)
    requires HolesIn(rest, values)
    ensures HolesIn(Symbolic(run) + rest, values)
  {}

  lemma {:induction false} WordsAreFaithful(run: string, rest: seq<Sym>, values: seq<string>)
    requires Faithful(rest, values) && forall k :: 0 <= k < |run| ==> IsWord(run[k])
    ensures Faithful(Symbolic(run) + rest, values)
  {
    hide FaithfulFront, Key;
    if run == "" {
      assert Symbolic(run) + rest == rest;
    } else {
      var all := Symbolic(run) + rest;
      WordsAreFaithful(run[1..], rest, values);
      assert all[1..] == Symbolic(run[1..]) + rest;
      WordIsFaithful(all, values);
    }
  }

  lemma WordIsFaithful(x: seq<Sym>, values: seq<string>)
    requires x != [] && x[0].Ch? && IsWord(x[0].c)
    ensures FaithfulFront(x, values)
  {
    assert Full(x, values)[0] == x[0].c;
  }

  lemma {:induction false} UpcaseFaithful(x: seq<Sym>, values: seq<string>, afterWord: bool)
    requires HolesIn(x, values) && Faithful(x, values)
    requires forall k :: 0 <= k < |values| ==> StartsLikeSegment(values[k])
    ensures Faithful(UpcaseSymbols(x, afterWord), values)
    decreases |x|
  {
    hide IsWord, KeywordAt, WordRun, Characters, Upper, Symbolic, FaithfulFront, Key;
    if x != [] {
      if x[0].Ch? && !afterWord && KeywordAt(x) {
        var n := WordRun(x);
        KeywordRunIsLong(x);
        FaithfulRest(x, values, n);
        UpcaseFaithful(x[n..], values, true);
        KeywordIsWord(x);
        WordsAreFaithful(Upper(Characters(x[..n])), UpcaseSymbols(x[n..], true), values);
      } else {
        var next := x[0].Hole? || IsWord(x[0].c);
        UpcaseFaithful(x[1..], values, next);
        StayingIsFaithful(x, values, afterWord, next);
        assert ([x[0]] + UpcaseSymbols(x[1..], next))[1..] == UpcaseSymbols(x[1..], next);
      }
    }
  }

  lemma KeywordIsWord(x: seq<Sym>)
    ensures var run := Upper(Characters(x[..WordRun(x)])); forall k :: 0 <= k < |run| ==> IsWord(run[k])
  {
    var run := Characters(x[..WordRun(x)]);
    forall k | 0 <= k < |run|
      ensures IsWord(Upper(run)[k])
    {
      assert x[k].Ch? && IsWord(x[k].c);
    }
  }

  lemma StayingIsFaithful(x: seq<Sym>, values: seq<string>, afterWord: bool, next: bool)
    requires HolesIn(x, values) && x != [] && FaithfulFront(x, values)
    requires UpcaseSymbols(x, afterWord) == [x[0]] + UpcaseSymbols(x[1..], next)
    ensures FaithfulFront(UpcaseSymbols(x, afterWord), values)
  {
    hide UpcaseSymbols, SegmentEnd, Key;
    UpcaseIsCaseLike(x, values, afterWord);
    CaseSegment(Full(x, values), Full(UpcaseSymbols(x, afterWord), values));
  }

  // ----- The formatter -----

  /** The symbols of the text with its keywords in upper case, white space as in the source. */
  function UpcasedSource(s: string): seq<Sym> {
    UpcaseSymbols(Symbols(s, 0, 0), false)
  }

  /** The protected text as the formatter lays it out. */
  function LaidOut(s: string): string {
    Layout(UpcaseKeywords(CollapseSpace(TrimText(Work(s, 0, 0))), false))
  }

  /** The symbols of the laid-out text. */
  function FormattedSymbols(s: string): seq<Sym> {
    Lift(LaidOut(s), UpcasedSource(s))
  }

  /** What is known of the source: readable and faithful. */
  lemma SourceFacts(s: string)
    ensures var x, values := Symbols(s, 0, 0), Values(s, 0);
            && Readable(x, values) && Faithful(x, values) && Full(x, values) == s
            && Render(x, values, 0) == Work(s, 0, 0) && Numbered(x, 0, |values|)
  {
    hide Faithful;
    var values := Values(s, 0);
    assert values[0..] == values && s[0..] == s;
    SymbolsRender(s, 0, 0, values);
    SourceIsFaithful(s, 0, 0, values);
    AloneInSource(s, 0, 0, values);
  }

  lemma UpcasedFacts(s: string)
    ensures var x, values := UpcasedSource(s), Values(s, 0);
            && Readable(x, values) && Faithful(x, values) && Numbered(x, 0, |values|)
            && Canonicals(Lexemes(Full(x, values), false)) == Meaning(s)
            && Render(x, values, 0) == UpcaseKeywords(Work(s, 0, 0), false)
  {
    hide Faithful, UpcaseSymbols, IsValue, StartsLikeSegment;
    var x, values := Symbols(s, 0, 0), Values(s, 0);
    SourceFacts(s);
    UpcaseHoles(x, values, false);
    UpcaseNumbered(x, false, 0, |values|);
    UpcaseFaithful(x, values, false);
    UpcaseSaysSame(x, values, false, false);
    MeaningFromFront(s);
    UpcaseRendered(x, values, false);
  }

  lemma {:induction false} NumberedCharacters(x: seq<Sym>, k: nat, n: nat, m: nat)
    requires k <= |x| && forall l :: 0 <= l < k ==> x[l].Ch?
    ensures Numbered(x, n, m) <==> Numbered(x[k..], n, m)
  {
    if k == 0 {
      assert x[0..] == x;
    } else {
      NumberedCharacters(x[1..], k - 1, n, m);
      DropOfDrop(x, 1, k - 1);
    }
  }

  lemma {:induction false} UpcaseNumbered(x: seq<Sym>, afterWord: bool, n: nat, m: nat)
    requires Numbered(x, n, m)
    ensures Numbered(UpcaseSymbols(x, afterWord), n, m)
    decreases |x|
  {
    hide IsWord, KeywordAt, WordRun, Characters, Upper, Symbolic;
    if x != [] {
      if x[0].Ch? && !afterWord && KeywordAt(x) {
        var k := WordRun(x);
        var run, rest := Upper(Characters(x[..k])), UpcaseSymbols(x[k..], true);
        KeywordRunIsLong(x);
        NumberedCharacters(x, k, n, m);
        UpcaseNumbered(x[k..], true, n, m);
        NumberedRun(run, rest, n, m);
      } else {
        var next := x[0].Hole? || IsWord(x[0].c);
        UpcaseNumbered(x[1..], next, if x[0].Ch? then n else n + 1, m);
        assert ([x[0]] + UpcaseSymbols(x[1..], next))[1..] == UpcaseSymbols(x[1..], next);
      }
    }
  }

  lemma NumberedRun(run: string, rest: seq<Sym>, n: nat, m: nat)
    requires Numbered(rest, n, m)
    ensures Numbered(Symbolic(run) + rest, n, m)
  {
    var all := Symbolic(run) + rest;
    assert all[|run|..] == rest;
    NumberedCharacters(all, |run|, n, m);
  }

  lemma {:induction false} LiftNumbered(w: string, x: seq<Sym>, n: nat, m: nat)
    requires Numbered(x, n, m)
    ensures Numbered(Lift(w, x), n, m)
    decreases |w| + |x|
  {
    hide IsSpace, Key;
    if w != "" && IsSpace(w[0]) {
      LiftNumbered(w[1..], x, n, m);
      assert ([Ch(w[0])] + Lift(w[1..], x))[1..] == Lift(w[1..], x);
    } else if x != [] {
      if x[0].Ch? && IsSpace(x[0].c) {
        LiftNumbered(w, x[1..], n, m);
      } else {
        var v := if x[0].Ch? then (if w != "" then w[1..] else w) else if Key(x[0].k) <=
          w then w[|Key(x[0].k)|..] else w;
        LiftNumbered(v, x[1..], if x[0].Ch? then n else n + 1, m);
        assert ([x[0]] + Lift(v, x[1..]))[1..] == Lift(v, x[1..]);
      }
    }
  }

  /** Laying out moves white space only. */
  lemma LaidOutMarks(s: string)
    ensures Marks(LaidOut(s), true) == Marks(UpcaseKeywords(Work(s, 0, 0), false), true)
  {
    hide Marks, Layout, UpcaseKeywords, CollapseSpace, TrimText;
    var w := Work(s, 0, 0);
    var u := UpcaseKeywords(w, false);
    UpcaseCollapse(TrimText(w), false);
    UpcaseTrim(w);
    LayoutKeepsMarks(CollapseSpace(TrimText(u)));
    CollapseKeepsMarks(TrimText(u));
    TrimKeepsMarks(u);
    assert LaidOut(s) == Layout(CollapseSpace(TrimText(u)));
  }

  lemma FormattedFacts(s: string)
    ensures var x, values := FormattedSymbols(s), Values(s, 0);
            && Readable(x, values) && Numbered(x, 0, |values|)
            && Render(x, values, 0) == LaidOut(s)
            && Shape(x, true) == Shape(UpcasedSource(s), true)
            && WellShaped(Shape(x, true), values)
  {
    hide Faithful, UpcaseSymbols, IsValue, StartsLikeSegment, Lift, Marks, Shape, WellShaped, LinesEnd, Render;
    var source, values := UpcasedSource(s), Values(s, 0);
    UpcasedFacts(s);
    LaidOutMarks(s);
    Lifted(LaidOut(s), source, values, true, true);
    LiftHoles(LaidOut(s), source, values);
    LiftNumbered(LaidOut(s), source, 0, |values|);
    FaithfulByShape(source, true, values);
  }

  lemma FormatRestores(s: string)
    ensures FormatSqlText(s) == RestoreSqlSegments(LaidOut(s), Values(s, 0))
  {
    hide Layout, UpcaseKeywords, CollapseSpace, TrimText, Work;
    if CollapseSpace(TrimText(Work(s, 0, 0))) == "" {
      LayoutOfNothing();
      UpcaseEmpty(false);
      RestoreNothing(Values(s, 0), 0);
    }
  }

  /** A placeholder stands alone in the laid-out text exactly when it does in the source. */
  lemma LaidOutAlone(s: string)
    ensures Alone(FormattedSymbols(s), "", Values(s, 0)) <==> PlaceholdersAlone(s, 0, 0)
  {
    hide Faithful, UpcaseSymbols, IsValue, StartsLikeSegment, Lift, Shape, WellShaped,
      Render, Alone, LaidOut, Numbered, PlaceholdersAlone, FormattedSymbols;
    var x, values := Symbols(s, 0, 0), Values(s, 0);
    assert values[0..] == values && s[..0] == "";
    SourceFacts(s);
    UpcasedFacts(s);
    FormattedFacts(s);
    AloneInSource(s, 0, 0, values);
    UpcaseAlone(x, values);
    ShapeAlone(FormattedSymbols(s), UpcasedSource(s), values);
  }

  /** The formatter puts its segments back, all and nothing else, if and
      only if every placeholder stands alone in the source. */
  lemma FormatIsRestored(s: string)
    ensures FormatSqlText(s) == Full(FormattedSymbols(s), Values(s, 0)) <==> PlaceholdersAlone(s, 0, 0)
    ensures RestoredIf(PlaceholdersAlone(s, 0, 0), FormatSqlText(s), Full(FormattedSymbols(s), Values(s, 0)))
  {
    hide LaidOut, Full, Lift, Shape, WellShaped, Render, Alone,
      FormatSqlText, RestoreFrom, Numbered, IsValue, PlaceholdersAlone;
    var x, values := FormattedSymbols(s), Values(s, 0);
    FormattedFacts(s);
    FormatRestores(s);
    assert "" + Render(x, values, 0) == Render(x, values, 0) && "" + Full(x, values) == Full(x, values);
    ValuesStart(values);
    RestoredFromHole("", x, values, 0);
    LaidOutAlone(s);
  }

  lemma ValuesStart(values: seq<string>)
    requires AreValues(values)
    ensures AllValues(values)
  {}

  lemma LayoutOfNothing()
    ensures Layout("") == ""
  {}

  lemma {:induction false} RestoreNothing(values: seq<string>, i: nat)
    requires i <= |values|
    ensures RestoreFrom("", values, i) == ""
    decreases |values| - i
  {
    hide Key;
    if i < |values| {
      KeyIsText(i);
      RestoreNothing(values, i + 1);
    }
  }

  /** Formatting keeps the meaning of every text whose segments are
      restored and whose line comments keep the newline behind them. */
  lemma FormatKeepsMeaning(s: string)
    requires PlaceholdersAlone(s, 0, 0) && LinesEnd(FormattedSymbols(s), Values(s, 0))
    ensures Meaning(FormatSqlText(s)) == Meaning(s)
  {
    hide Faithful, UpcaseSymbols, IsValue, StartsLikeSegment, Lift, Shape,
      WellShaped, LinesEnd, FormatSqlText, Full, Meaning, PlaceholdersAlone;
    var source, x, values := UpcasedSource(s), FormattedSymbols(s), Values(s, 0);
    UpcasedFacts(s);
    FormattedFacts(s);
    FormatIsRestored(s);
    FaithfulByShape(x, true, values);
    LexShape(x, true, values, false);
    LexShape(source, true, values, false);
    MeaningFromFront(FormatSqlText(s));
  }
}
