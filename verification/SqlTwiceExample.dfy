/** A text on which formatting twice is not formatting once: a comment swallows the first line of a quote. */
module SqlTwiceExample {
  import opened Options
  import opened SqlText
  import opened SqlTokens
  import opened SqlProtect
  import opened SqlRestore
  import opened SqlLexemes
  import opened SqlShape
  import opened SqlFormat
  import opened SqlNextLine
  import opened SqlUpcase
  import opened SqlCommute
  import opened SqlMeaning
  import opened SqlComments

  // ----- A text without separators, line breaks and phrases is laid out already -----

  /** Nothing for the formatter to do: no separator, no two blanks in a row, and behind a blank no phrase. */
  predicate Calm(w: string) {
    w == "" || (!IsSeparatorOrLine(w[0]) && (IsSpace(w[0]) ==> w[0] == ' ' && |w| > 1 && w[1] == '_') && Calm(w[1..]))
  }

  predicate IsSeparatorOrLine(c: char) {
    c == ',' || c == ';' || c == '\n'
  }

  lemma CalmTail(w: string)
    requires Calm(w) && w != ""
    ensures SpaceEnd(w, 0) == (if w[0] == ' ' then 1 else 0)
  {
    assert IsSpace(' ') && !IsSpace('_');
    hide IsSpace;
    if IsSpace(w[0]) { assert SpaceEnd(w, 1) == 1; }
  }

  lemma {:induction false} CalmWord(p: string, z: string)
    requires Calm(z) && forall k :: 0 <= k < |p| ==> IsWord(p[k])
    ensures Calm(p + z)
  {
    if p == "" {
      assert p + z == z;
    } else {
      SpacesAreNoWords(p[0]);
      assert !IsSeparatorOrLine(p[0]);
      hide IsSpace, IsWord;
      CalmWord(p[1..], z);
      assert (p + z)[1..] == p[1..] + z;
    }
  }

  lemma {:induction false} CalmBack(w: string)
    requires Calm(w) && w != ""
    ensures !IsSpace(w[|w| - 1])
  {
    hide IsSpace;
    if |w| > 1 { CalmBack(w[1..]); }
  }

  lemma {:induction false} CalmCollapse(w: string)
    requires Calm(w)
    ensures CollapseSpace(w) == w
  {
    hide IsSpace, SpaceEnd;
    if w != "" {
      CalmTail(w);
      CalmCollapse(w[1..]);
      assert w == [w[0]] + w[1..];
    }
  }

  lemma {:induction false} CalmSeparator(w: string, c: char, space: char)
    requires Calm(w) && (c == ',' || c == ';')
    ensures SpaceSeparator(w, c, space) == w
  {
    hide IsSpace, SpaceEnd;
    if w != "" {
      CalmTail(w);
      CalmSeparator(w[1..], c, space);
      assert w == [w[0]] + w[1..];
    }
  }

  lemma {:induction false} CalmBreaks(w: string, kind: Break)
    requires Calm(w)
    ensures BreakLines(w, kind) == w
  {
    hide IsSpace, SpaceEnd, BreakLines, PhraseLength;
    if w == "" {
      BreakNothing(kind);
    } else {
      CalmTail(w);
      CalmBreaks(w[1..], kind);
      if w[0] == ' ' { NoPhraseOfKind(w[1..], kind); }
      NoBreakUnfolds(w, kind);
      assert w == [w[0]] + w[1..];
    }
  }

  lemma NoPhraseOfKind(c: string, kind: Break)
    requires c != "" && c[0] == '_'
    ensures PhraseLength(kind, c) == 0
  {
    hide PhraseLength;
    NoPhraseAtMark(c);
  }

  lemma {:induction false} CalmLineEnds(w: string)
    requires Calm(w)
    ensures TrimLineEnds(w) == w && CollapseNewlines(w) == w
    ensures w != "" ==> !BlankToLineEnd(w)
  {
    hide IsSpace;
    if w != "" {
      CalmTail(w);
      CalmLineEnds(w[1..]);
      NewlinesEndHere(w);
      assert w == [w[0]] + w[1..];
    }
  }

  lemma NewlinesEndHere(w: string)
    requires w != "" && !IsSeparatorOrLine(w[0])
    ensures NewlinesEnd(w, 0) == 0
  {}

  lemma CalmTrim(w: string)
    requires Calm(w) && w != "" && !IsSpace(w[0])
    ensures TrimText(w) == w
  {
    hide IsSpace, Calm;
    CalmBack(w);
    assert Leading(w) == 0 && Trailing(w) == 0;
  }

  lemma CalmLayout(w: string)
    requires Calm(w) && w != "" && !IsSpace(w[0])
    ensures Layout(w) == w
  {
    hide Calm, IsSpace, SpaceSeparator, BreakLines, TrimLineEnds, CollapseNewlines, TrimText;
    CalmSeparator(w, ',', ' ');
    CalmSeparator(w, ';', '\n');
    CalmBreaks(w, Clause);
    CalmBreaks(w, Joining);
    CalmBreaks(w, Logic);
    CalmLineEnds(w);
    CalmTrim(w);
  }

  // ----- The text -----

  const TEXT := "--\n'\n'"
  const FORMATTED := "-- '\n'"

  lemma WorkOfText()
    ensures Work(TEXT, 0, 0) == Key(0) + ("\n" + Key(1)) && Values(TEXT, 0) == ["--", "'\n'"]
  {
    hide Key;
    assert LineEnd(TEXT, 2) == 2;
    assert SegmentEnd(TEXT, 0) == Some(2) && SegmentEnd(TEXT, 2) == None;
    assert QuoteTail(TEXT, 5, '\'') == Some(6);
    assert QuoteTail(TEXT, 4, '\'') == Some(6);
    assert SegmentEnd(TEXT, 3) == Some(6);
    assert Work(TEXT, 6, 2) == "" && Values(TEXT, 6) == [];
    assert TEXT[3..6] == "'\n'" && TEXT[0..2] == "--" && Key(1) + "" == Key(1);
    assert Work(TEXT, 3, 1) == Key(1) + "" && Values(TEXT, 3) == ["'\n'"] + [];
    assert Work(TEXT, 2, 1) == "\n" + Key(1);
    assert Values(TEXT, 2) == ["'\n'"];
  }

  lemma CalmKey(k: nat, z: string)
    requires Calm(z)
    ensures Calm(Key(k) + z) && Key(k) + z != "" && (Key(k) + z)[0] == '_' && Calm(Key(k)) && EndsInUnderscore(Key(k))
  {
    KeyIsLongWord(k);
    var key := Key(k);
    assert key[0] == '_' && key[|key| - 1] == '_' && key + "" == key;
    hide Key, Calm;
    assert Calm("") by { CalmNothing(); }
    CalmWord(key, z);
    CalmWord(key, "");
  }

  lemma CalmNothing()
    ensures Calm("")
  {}

  lemma TwoKeys()
    ensures var w := Key(0) + (" " + Key(1));
      Calm(w) && Calm(Key(0)) && Calm(Key(1)) && w != "" && !IsSpace(w[0]) && EndsInUnderscore(Key(0))
      && Key(1) != "" && !IsSpace(Key(1)[0])
  {
    hide Key;
    var z := " " + Key(1);
    CalmNothing();
    CalmKey(1, "");
    assert Key(1) + "" == Key(1) && z[1..] == Key(1) && z[1] == '_';
    assert Calm(z);
    CalmKey(0, z);
  }

  lemma TextIsLaidOut()
    ensures LaidOut(TEXT) == Key(0) + (" " + Key(1))
  {
    hide Key, TrimText, CollapseSpace, Layout, UpcaseKeywords, Calm, Work, IsSpace;
    WorkOfText();
    TwoKeys();
    var w := Key(0) + (" " + Key(1));
    assert LaidOut(TEXT) == Layout(UpcaseKeywords(CollapseSpace(TrimText(Work(TEXT, 0, 0))), false));
    TextIsTrimmed();
    TextIsCollapsed();
    KeysStay();
    CalmLayout(w);
  }

  lemma TextIsTrimmed()
    ensures var w := Key(0) + ("\n" + Key(1)); TrimText(w) == w
  {
    KeyIsLongWord(0);
    KeyIsLongWord(1);
    hide Key;
    var w := Key(0) + ("\n" + Key(1));
    assert w[0] == Key(0)[0] && w[|w| - 1] == Key(1)[|Key(1)| - 1];
    SpacesAreNoWords(w[0]);
    SpacesAreNoWords(w[|w| - 1]);
    assert Leading(w) == 0 && Trailing(w) == 0;
  }

  lemma TextIsCollapsed()
    ensures CollapseSpace(Key(0) + ("\n" + Key(1))) == Key(0) + (" " + Key(1))
  {
    hide Key, CollapseSpace, Calm, IsSpace;
    TwoKeys();
    CollapseSplits(Key(0), "\n" + Key(1));
    CalmCollapse(Key(0));
    CalmCollapse(Key(1));
    NewlineBecomesSpace(Key(1));
  }

  lemma NewlineBecomesSpace(z: string)
    requires z != "" && !IsSpace(z[0])
    ensures CollapseSpace("\n" + z) == " " + CollapseSpace(z)
  {
    var w := "\n" + z;
    NewlineIsSpace();
    assert w[1..] == z && SpaceEnd(w, 1) == 1;
  }

  lemma KeysStay()
    ensures var w := Key(0) + (" " + Key(1)); UpcaseKeywords(w, false) == w
  {
    hide Key, UpcaseKeywords;
    var z := " " + Key(1);
    assert z[1..] == Key(1) && Key(1) + "" == Key(1);
    NewlineIsSpace();
    UpcaseKey(0, z, false);
    UpcaseSpaceStep(z, true);
    UpcaseKey(1, "", false);
    UpcaseEmpty(true);
  }

  lemma FormattedText()
    ensures FormatSqlText(TEXT) == FORMATTED
  {
    hide Key, LaidOut, RestoreFrom, FormatSqlText, NoWord, Work, Values;
    var x, values := [Hole(0), Ch(' '), Hole(1)], ["--", "'\n'"];
    WorkOfText();
    TextIsLaidOut();
    FormatRestores(TEXT);
    FullOfText(x, values);
    ShortTextHasNoWord(FORMATTED);
    RestoreAll(x, values, 0);
  }

  lemma FullOfText(x: seq<Sym>, values: seq<string>)
    requires x == [Hole(0), Ch(' '), Hole(1)] && values == ["--", "'\n'"]
    ensures Render(x, values, 0) == Key(0) + (" " + Key(1))
    ensures Full(x, values) == FORMATTED && HolesIn(x, values) && AllValues(values)
  {
    hide Key;
    ThreeSymbols(x[0], x[1], x[2], values, 0);
    ThreeSymbols(x[0], x[1], x[2], values, 2);
  }

  lemma ThreeSymbols(a: Sym, b: Sym, c: Sym, values: seq<string>, i: nat)
    ensures Render([a, b, c], values, i) ==
            RenderSym(a, values, i) + (RenderSym(b, values, i) + RenderSym(c, values, i))
  {
    hide RenderSym;
    assert [a, b, c] == [a] + ([b] + ([c] + []));
    RenderFront(a, [b] + ([c] + []), values, i);
    RenderFront(b, [c] + [], values, i);
    RenderFront(c, [], values, i);
    RenderNothing(values, i);
  }

  lemma FormattedSwallows()
    ensures !CommentsKept(FORMATTED, 0, 0)
  {
    hide OpensLine;
    assert LineEnd(FORMATTED, 2) == 4;
    assert SegmentEnd(FORMATTED, 0) == Some(4) && SegmentEnd(FORMATTED, 4) == None;
    assert QuoteTail(FORMATTED, 6, '\'') == None;
    assert SegmentEnd(FORMATTED, 5) == None;
    assert Work(FORMATTED, 6, 1) == "" && Work(FORMATTED, 5, 1) == "'" && Work(FORMATTED, 4, 1) == ['\n', '\''];
    NoPhraseBehindLine('\'');
  }

  /** Here the second formatting changes what the first one made. */
  lemma FormattingTwiceCanDiffer()
    ensures FormatSqlText(FormatSqlText(TEXT)) != FormatSqlText(TEXT)
  {
    hide FormatSqlText, CommentsKept, PlaceholdersAlone, Meaning;
    FormattedText();
    FormattedSwallows();
    FormattingKeepsMeaning(FORMATTED);
  }
}
