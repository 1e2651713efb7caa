/** Formatting what has been formatted: which texts stay as they are. */
module SqlTwice {
  import opened Options
  import opened SqlText
  import opened SqlTokens
  import opened SqlProtect
  import opened SqlRestore
  import opened SqlLexemes
  import opened SqlShape
  import opened SqlFaithful
  import opened SqlFormat
  import opened SqlNextLine
  import opened SqlUpcase
  import opened SqlLift
  import opened SqlCommute
  import opened SqlMeaning
  import opened SqlComments

  // ----- Separators print the marks -----

  /** Single spaces only, each with something behind. */
  predicate Tight(w: string) {
    w == "" || ((if w[0] == ' ' then |w| > 1 && !IsSpace(w[1]) else !IsSpace(w[0])) && Tight(w[1..]))
  }

  /** Both separators with the white space that the formatter gives them. */
  function Separated(w: string): string {
    SpaceSeparator(SpaceSeparator(w, ',', ' '), ';', '\n')
  }

  predicate NextIsSemicolon(m: seq<Mark>) {
    m != [] && m[0].sym == Ch(';')
  }

  /** The same told from the marks alone; `clear` when a separator or nothing is in front. */
  function Printed(m: seq<Mark>, clear: bool): string {
    if m == [] || !m[0].sym.Ch? then ""
    else if m[0].sym.c == ',' then "," + (if NextIsSemicolon(m[1..]) then "" else " ") + Printed(m[1..], true)
    else if m[0].sym.c == ';' then ";\n" + Printed(m[1..], true)
    else (if m[0].apart && !clear then " " else "") + [m[0].sym.c] + Printed(m[1..], false)
  }

  /** What is behind the white space at the front. */
  function Skip(z: string): string {
    z[SpaceEnd(z, 0)..]
  }

  lemma SkipFrom(w: string, n: nat)
    requires n <= |w|
    ensures w[SpaceEnd(w, n)..] == Skip(w[n..])
  {
    SpaceEndFrom(w, n);
    DropOfDrop(w, n, SpaceEnd(w[n..], 0));
  }

  lemma SkipNothing(z: string)
    requires z != "" ==> !IsSpace(z[0])
    ensures Skip(z) == z
  {}

  lemma SkipOne(z: string)
    requires |z| > 1 && IsSpace(z[0]) && !IsSpace(z[1])
    ensures Skip(z) == z[1..]
  {
    SpaceEndFrom(z, 1);
  }

  lemma SeparatorAt(w: string, ch: char, space: char)
    requires w != "" && !IsSpace(w[0])
    ensures SpaceSeparator(w, ch, space) ==
            if w[0] == ch then [ch, space] + SpaceSeparator(Skip(w[1..]), ch,
              space) else [w[0]] + SpaceSeparator(w[1..], ch, space)
  {
    SeparatorUnfolds(w, ch, space);
    assert SpaceEnd(w, 0) == 0;
    hide SpaceSeparator, IsSpace;
    SkipFrom(w, 1);
  }

  lemma SeparatorAtSpace(x: string, ch: char, space: char)
    requires (x != "" ==> !IsSpace(x[0])) && !IsSpace(ch)
    ensures SpaceSeparator(" " + x, ch, space) ==
            if Front(x, ch) then SpaceSeparator(x, ch, space) else " " + SpaceSeparator(x, ch, space)
  {
    NewlineIsSpace();
    var w := " " + x;
    assert w[1..] == x;
    SpaceEndFrom(w, 1);
    SeparatorUnfolds(w, ch, space);
    SeparatorNothing(ch, space);
    assert SpaceEnd(w, 0) == 1;
    hide SpaceSeparator, IsSpace, SpaceEnd;
    if Front(x, ch) {
      SkipFrom(w, 2);
      SeparatorAt(x, ch, space);
      DropOfDrop(w, 1, 1);
    }
  }

  lemma SeparatedCharacter(w: string)
    requires w != "" && !IsSpace(w[0]) && !IsSeparator(w[0])
    ensures Separated(w) == [w[0]] + Separated(w[1..])
  {
    hide IsSpace, SpaceSeparator;
    SeparatorAt(w, ',', ' ');
    var v := SpaceSeparator(w, ',', ' ');
    assert v[1..] == SpaceSeparator(w[1..], ',', ' ');
    SeparatorAt(v, ';', '\n');
  }

  /** A separated text starts as it does, white space at the front aside. */
  lemma SeparatorFront(u: string, c: char)
    requires u != "" ==> !IsSpace(u[0])
    ensures Front(SpaceSeparator(u, ',', ' '), c) <==> Front(u, c)
    ensures SpaceSeparator(u, ',', ' ') != "" ==> !IsSpace(SpaceSeparator(u, ',', ' ')[0])
  {
    hide IsSpace, SpaceSeparator;
    if u == "" { SeparatorNothing(',', ' '); } else { SeparatorAt(u, ',', ' '); }
  }

  lemma SeparatedComma(w: string)
    requires Front(w, ',')
    ensures var u := Skip(w[1..]); Separated(w) == "," + (if Front(u, ';') then "" else " ") + Separated(u)
  {
    MarksAreNoSpace();
    var u := Skip(w[1..]);
    assert u != "" ==> !IsSpace(u[0]);
    hide IsSpace, SpaceSeparator, Skip;
    SeparatorAt(w, ',', ' ');
    var x := SpaceSeparator(u, ',', ' ');
    SeparatorFront(u, ';');
    CommaInFront(x);
    var v := SpaceSeparator(w, ',', ' ');
    SeparatorAt(v, ';', '\n');
    SeparatorAtSpace(x, ';', '\n');
    CommaInFront(SpaceSeparator(x, ';', '\n'));
  }

  lemma CommaInFront(x: string)
    ensures [',', ' '] + x == "," + " " + x == [','] + (" " + x)
    ensures ([',', ' '] + x)[1..] == " " + x
    ensures [','] + x == "," + "" + x
  {}

  lemma SeparatedSpace(x: string)
    requires x != "" && !IsSpace(x[0])
    ensures Separated(" " + x) == if IsSeparator(x[0]) then Separated(x) else " " + Separated(x)
  {
    MarksAreNoSpace();
    hide IsSpace, SpaceSeparator;
    SeparatorAtSpace(x, ',', ' ');
    var v := SpaceSeparator(x, ',', ' ');
    SeparatorFront(x, x[0]);
    SeparatorAtSpace(v, ';', '\n');
  }

  lemma SeparatedSemicolon(w: string)
    requires Front(w, ';') && Tight(w[1..])
    ensures Separated(w) == ";\n" + Separated(Skip(w[1..]))
  {
    MarksAreNoSpace();
    var z := w[1..];
    SeparatorAt(w, ',', ' ');
    var v := SpaceSeparator(w, ',', ' ');
    var x := SpaceSeparator(z, ',', ' ');
    assert v[1..] == x;
    SeparatorAt(v, ';', '\n');
    if z != "" && z[0] == ' ' {
      var y := z[1..];
      SkipOne(z);
      assert z == " " + y;
      hide IsSpace, SpaceSeparator, Tight;
      SeparatorAtSpace(y, ',', ' ');
      SeparatorFront(y, ',');
      SkipSeparated(y, SpaceSeparator(y, ',', ' '), x);
    } else {
      hide IsSpace, SpaceSeparator;
      SkipNothing(z);
      SeparatorFront(z, ',');
      SkipNothing(x);
    }
  }

  lemma SkipSeparated(y: string, s: string, x: string)
    requires s != "" && !IsSpace(s[0])
    requires x == s || x == " " + s
    ensures Skip(x) == s
  {
    if x == s {
      SkipNothing(x);
    } else {
      assert x[1..] == s;
      SkipOne(x);
    }
  }

  lemma MarksOfSkip(z: string)
    requires Tight(z)
    ensures Marks(Skip(z), true) == Marks(z, true) && Tight(Skip(z)) && (Skip(z) != "" ==> !IsSpace(Skip(z)[0]))
    ensures |Skip(z)| <= |z|
  {
    if z != "" && z[0] == ' ' { SkipOne(z); } else { SkipNothing(z); }
  }

  lemma PrintedAtSpace(x: string)
    requires x != "" && !IsSpace(x[0])
    ensures Printed(Marks(x, true), false) ==
            (if IsSeparator(x[0]) then "" else " ") + Printed(Marks(x, true), true)
  {
    hide IsSpace;
    MarksFront(x, true);
    hide Marks;
  }

  lemma PrintedAtComma(w: string, a: bool, clear: bool)
    requires Front(w, ',') && Tight(w[1..])
    ensures var u := Skip(w[1..]);
      Printed(Marks(w, a), clear) == "," + (if Front(u, ';') then "" else " ") + Printed(Marks(u, true), true)
  {
    MarksAreNoSpace();
    hide IsSpace;
    MarksOfSkip(w[1..]);
    MarksFront(w, a);
    var u := Skip(w[1..]);
    if u != "" { MarksFront(u, true); }
    hide Marks, Skip;
  }

  lemma PrintedAtSemicolon(w: string, a: bool, clear: bool)
    requires Front(w, ';') && Tight(w[1..])
    ensures Printed(Marks(w, a), clear) == ";\n" + Printed(Marks(Skip(w[1..]), true), true)
  {
    MarksAreNoSpace();
    hide IsSpace;
    MarksOfSkip(w[1..]);
    MarksFront(w, a);
    hide Marks, Skip;
  }

  lemma PrintedAtCharacter(w: string, a: bool, clear: bool)
    requires w != "" && !IsSpace(w[0]) && !IsSeparator(w[0]) && (a ==> clear)
    ensures Printed(Marks(w, a), clear) == [w[0]] + Printed(Marks(w[1..], false), false)
  {
    hide IsSpace;
    MarksFront(w, a);
    hide Marks;
  }

  /** The separators of a tight text print its marks. */
  lemma {:induction false} PrintsMarks(w: string, a: bool, clear: bool)
    requires Tight(w)
    requires if w != "" && w[0] == ' ' then !clear else a ==> clear
    ensures Separated(w) == Printed(Marks(w, a), clear)
    decreases |w|
  {
    if w == "" {
      SeparatedNothing();
    } else if w[0] == ' ' {
      PrintsSpace(w, a);
    } else {
      assert !IsSpace(w[0]);
      hide IsSpace, SpaceSeparator, Separated, Skip, Printed, Marks;
      if w[0] == ',' {
        MarksOfSkip(w[1..]);
        SeparatedComma(w);
        PrintsMarks(Skip(w[1..]), true, true);
        PrintedAtComma(w, a, clear);
      } else if w[0] == ';' {
        MarksOfSkip(w[1..]);
        SeparatedSemicolon(w);
        PrintsMarks(Skip(w[1..]), true, true);
        PrintedAtSemicolon(w, a, clear);
      } else {
        SeparatedCharacter(w);
        PrintsMarks(w[1..], false, false);
        PrintedAtCharacter(w, a, clear);
      }
    }
  }

  lemma {:induction false} PrintsSpace(w: string, a: bool)
    requires w != "" && Tight(w) && w[0] == ' '
    ensures Separated(w) == Printed(Marks(w, a), false)
    decreases |w|, 0
  {
    var x := w[1..];
    assert w == " " + x && IsSpace(w[0]) && x != "" && !IsSpace(x[0]);
    SpaceMarks(w, a);
    hide IsSpace, SpaceSeparator, Separated, Printed, Marks;
    SeparatedSpace(x);
    PrintsMarks(x, true, true);
    PrintedAtSpace(x);
  }

  lemma SeparatedNothing()
    ensures Separated("") == ""
  {}

  // ----- The collapsed text is tight -----

  lemma {:induction false} CollapsedIsTight(w: string)
    requires w != "" ==> !IsSpace(w[|w| - 1])
    ensures Tight(CollapseSpace(w))
    ensures w != "" && !IsSpace(w[0]) ==> CollapseSpace(w) != "" && CollapseSpace(w)[0] == w[0]
    decreases |w|
  {
    NewlineIsSpace();
    hide IsSpace;
    if w != "" {
      if IsSpace(w[0]) {
        var n := SpaceEnd(w, 0);
        assert forall k :: 0 <= k < n ==> IsSpace(w[k]);
        assert n < |w|;
        var z := w[n..];
        assert z[0] == w[n] && z[|z| - 1] == w[|w| - 1];
        CollapsedIsTight(z);
        assert (" " + CollapseSpace(z))[1..] == CollapseSpace(z);
      } else {
        if |w| > 1 { assert w[1..][|w| - 2] == w[|w| - 1]; }
        CollapsedIsTight(w[1..]);
        assert ([w[0]] + CollapseSpace(w[1..]))[1..] == CollapseSpace(w[1..]);
      }
    }
  }

  lemma TrimmedEnds(w: string)
    ensures var t := TrimText(w); t != "" ==> !IsSpace(t[0]) && !IsSpace(t[|t| - 1])
  {
    hide IsSpace, Leading, Trailing;
  }

  /** What the layout starts from: its separators print its marks. */
  lemma LayoutOfMarks(w: string, v: string)
    requires Marks(TrimText(w), true) == Marks(TrimText(v), true)
    ensures Layout(CollapseSpace(TrimText(w))) == Layout(CollapseSpace(TrimText(v)))
  {
    hide IsSpace, Marks, TrimText, CollapseSpace, BreakLines, TrimLineEnds, CollapseNewlines, SpaceSeparator;
    TightPrints(w);
    TightPrints(v);
  }

  lemma TightPrints(w: string)
    ensures Separated(CollapseSpace(TrimText(w))) == Printed(Marks(TrimText(w), true), true)
  {
    var t := TrimText(w);
    TrimmedEnds(w);
    assert IsSpace(' ');
    hide IsSpace, Marks, TrimText, CollapseSpace, Separated, Printed;
    CollapsedIsTight(t);
    CollapseKeepsMarks(t);
    if t == "" { CollapseNothing(); }
    PrintsMarks(CollapseSpace(t), true, true);
  }

  lemma CollapseNothing()
    ensures CollapseSpace("") == ""
  {}

  // ----- Upper-casing twice -----

  lemma {:induction false} UpcaseTwice(w: string, afterWord: bool)
    ensures UpcaseKeywords(UpcaseKeywords(w, afterWord), afterWord) == UpcaseKeywords(w, afterWord)
    decreases |w|
  {
    if w != "" {
      UpcaseStart(w, afterWord);
      var u, n := UpcaseKeywords(w, afterWord), WordEnd(w, 0);
      CaseWord(w, u, 0);
      SameKeyword(w, u, n);
      if !afterWord && n > 0 && IsKeyword(w[..n]) {
        UpcaseTwice(w[n..], true);
        assert u[..n] == Upper(w[..n]) && u[n..] == UpcaseKeywords(w[n..], true);
        UpperTwice(w[..n]);
      } else {
        UpcaseTwice(w[1..], IsWord(w[0]));
        assert u[0] == w[0] && u[1..] == UpcaseKeywords(w[1..], IsWord(w[0]));
      }
    }
  }

  lemma SameKeyword(w: string, u: string, n: nat)
    requires CaseLike(w, u) && n <= |w|
    ensures |u| == |w| && (IsKeyword(u[..n]) <==> IsKeyword(w[..n]))
  {
    assert Lower(u[..n]) == Lower(w[..n]);
  }

  lemma UpperTwice(s: string)
    ensures Upper(Upper(s)) == Upper(s)
  {}

  // ----- Upper-casing, seen from the marks -----

  predicate IsWordMark(m: Mark) {
    m.sym.Ch? && IsWord(m.sym.c)
  }

  /** The word at the front of the marks. */
  function MarkedWord(m: seq<Mark>): (n: nat)
    ensures n <= |m| && forall k :: 0 <= k < n ==> IsWordMark(m[k])
  {
    if m == [] || !IsWordMark(m[0]) then 0
    else if |m| > 1 && m[1].apart then 1
    else 1 + MarkedWord(m[1..])
  }

  function MarkedText(m: seq<Mark>): string {
    seq(|m|, k requires 0 <= k < |m| => if m[k].sym.Ch? then m[k].sym.c else ' ')
  }

  function UpperMarks(m: seq<Mark>): seq<Mark> {
    seq(|m|, k requires 0 <= k < |m| => if m[k].sym.Ch? then Mark(Ch(UpperChar(m[k].sym.c)), m[k].apart) else m[k])
  }

  function UpcaseMarks(m: seq<Mark>, afterWord: bool): seq<Mark> {
    if m == [] then []
    else
      var n := MarkedWord(m);
      if (m[0].apart || !afterWord) && n > 0 &&
        IsKeyword(MarkedText(m[..n])) then UpperMarks(m[..n]) + UpcaseMarks(m[n..], true)
      else [m[0]] + UpcaseMarks(m[1..], IsWordMark(m[0]))
  }

  /** A word at the front, in the text and in its marks. */
  lemma {:induction false} WordMarks(w: string, a: bool, n: nat)
    requires w != "" && n == WordEnd(w, 0) > 0
    ensures var m := Marks(w, a);
      && MarkedWord(m) == n && n <= |m| && m[0].apart == a
      && MarkedText(m[..n]) == w[..n] && m[n..] == Marks(w[n..], false)
    decreases |w|
  {
    var m, rest := Marks(w, a), w[1..];
    StayingMarks(w, rest, a);
    assert w == [w[0]] + rest;
    WordEndFrom(w, 1);
    hide IsSpace, IsWord, Marks, WordEnd;
    if n == 1 {
      NoWordMarks(rest);
      assert m[1..] == Marks(rest, false);
      assert MarkedText(m[..1]) == w[..1];
    } else {
      WordMarks(rest, false, n - 1);
      LongerWord(w, m, n);
    }
  }

  lemma LongerWord(w: string, m: seq<Mark>, n: nat)
    requires 1 < n <= |m| && n <= |w| && m[0].sym == Ch(w[0]) && MarkedText(m[1..][..n - 1]) == w[1..][..n - 1]
    ensures MarkedText(m[..n]) == w[..n]
    ensures m[1..][n - 1..] == m[n..] && w[1..][n - 1..] == w[n..]
  {
    assert m[..n] == [m[0]] + m[1..][..n - 1];
    assert MarkedText(m[..n]) == [w[0]] + MarkedText(m[1..][..n - 1]);
    assert w[..n] == [w[0]] + w[1..][..n - 1];
    DropOfDrop(m, 1, n - 1);
    DropOfDrop(w, 1, n - 1);
  }

  lemma {:induction false} WordEndFrom(w: string, i: nat)
    requires i <= |w|
    ensures WordEnd(w, i) == i + WordEnd(w[i..], 0)
    decreases |w| - i
  {
    hide IsWord;
    if i < |w| && IsWord(w[i]) {
      WordEndFrom(w, i + 1);
      WordEndFrom(w[i..], 1);
      assert w[i..][1..] == w[i + 1..];
    }
  }

  /** Behind a word no word goes on. */
  lemma NoWordMarks(z: string)
    requires z != "" ==> !IsWord(z[0])
    ensures var m := Marks(z, false); m != [] ==> m[0].apart || !IsWordMark(m[0])
  {
    hide IsSpace, IsWord;
    if z != "" {
      if IsSpace(z[0]) { MarksAfterSpace(z[1..]); } else { MarksFront(z, false); }
    }
  }

  lemma MarksJoin(run: string, z: string, a: bool)
    requires run != "" && forall k :: 0 <= k < |run| ==> IsWord(run[k])
    requires z != "" ==> !IsWord(z[0])
    ensures var m := Marks(run + z, a);
      |run| <= |m| && m[|run|..] == Marks(z, false) && MarkedText(m[..|run|]) == run && MarkedWord(m) == |run| &&
        m[0].apart == a
  {
    var w := run + z;
    assert w[..|run|] == run && w[|run|..] == z;
    WordEndPast(run, z);
    assert WordEnd(z, 0) == 0;
    WordMarks(w, a, |run|);
  }

  /** The marks of a word are told by its text and by what is in front. */
  lemma {:induction false} MarksOfWord(m: seq<Mark>, v: seq<Mark>, n: nat)
    requires n <= |m| && n <= |v| && MarkedWord(m) == n && MarkedWord(v) == n
    requires n > 0 ==> m[0].apart == v[0].apart
    requires MarkedText(v[..n]) == Upper(MarkedText(m[..n]))
    ensures v[..n] == UpperMarks(m[..n])
  {
    forall k | 0 <= k < n ensures v[k] == UpperMarks(m[..n])[k] {
      LaterInWord(m, k);
      LaterInWord(v, k);
      assert MarkedText(v[..n])[k] == UpperChar(MarkedText(m[..n])[k]);
    }
  }

  lemma {:induction false} LaterInWord(m: seq<Mark>, k: nat)
    requires k < MarkedWord(m)
    ensures IsWordMark(m[k]) && (k > 0 ==> !m[k].apart)
  {
    if k > 0 && !(|m| > 1 && m[1].apart) {
      LaterInWord(m[1..], k - 1);
      assert k > 1 ==> m[1..][k - 1] == m[k];
    }
  }

  /** Upper-casing the text upper-cases its marks. */
  lemma {:induction false} UpcaseMarked(w: string, afterWord: bool, a: bool)
    requires a ==> !afterWord
    ensures Marks(UpcaseKeywords(w, afterWord), a) == UpcaseMarks(Marks(w, a), afterWord)
    decreases |w|
  {
    hide IsSpace, IsKeyword, Upper;
    if w == "" {
      UpcaseEmpty(afterWord);
    } else if IsSpace(w[0]) {
      UpcaseAtSpace(w, afterWord, a);
    } else if !IsWord(w[0]) {
      UpcaseMarked(w[1..], false, IsSeparator(w[0]));
      UpcaseNoWord(w, afterWord, a);
    } else {
      UpcaseAtWord(w, afterWord, a);
    }
  }

  lemma {:induction false} UpcaseAtSpace(w: string, afterWord: bool, a: bool)
    requires w != "" && IsSpace(w[0])
    ensures Marks(UpcaseKeywords(w, afterWord), a) == UpcaseMarks(Marks(w, a), afterWord)
    decreases |w|, 0
  {
    hide IsSpace, UpcaseKeywords, IsKeyword, UpperMarks, MarkedText, MarkedWord, IsWordMark;
    UpcaseSpaceStep(w, afterWord);
    UpcaseMarked(w[1..], false, true);
    var z := UpcaseKeywords(w[1..], false);
    assert ([w[0]] + z)[1..] == z;
    SpaceMarks([w[0]] + z, a);
    SpaceMarks(w, a);
    MarksAfterSpace(w[1..]);
  }

  lemma UpcaseNoWord(w: string, afterWord: bool, a: bool)
    requires w != "" && !IsSpace(w[0]) && !IsWord(w[0])
    requires Marks(UpcaseKeywords(w[1..], false), IsSeparator(w[0])) ==
      UpcaseMarks(Marks(w[1..], IsSeparator(w[0])), false)
    ensures Marks(UpcaseKeywords(w, afterWord), a) == UpcaseMarks(Marks(w, a), afterWord)
  {
    hide IsSpace, IsKeyword, IsSeparator;
    var z := UpcaseKeywords(w[1..], false);
    assert UpcaseKeywords(w, afterWord) == [w[0]] + z;
    assert ([w[0]] + z)[1..] == z;
    MarksFront([w[0]] + z, a);
    MarksFront(w, a);
  }

  lemma UpcaseMarksUnfold(m: seq<Mark>, afterWord: bool)
    requires m != []
    ensures var n := MarkedWord(m);
      UpcaseMarks(m, afterWord) ==
        if (m[0].apart || !afterWord) && n > 0 && IsKeyword(MarkedText(m[..n])) then
          UpperMarks(m[..n]) + UpcaseMarks(m[n..], true)
        else [m[0]] + UpcaseMarks(m[1..], IsWordMark(m[0]))
  {
    hide IsKeyword, IsWordMark, UpperMarks, MarkedText, MarkedWord;
  }

  lemma {:induction false} UpcaseAtWord(w: string, afterWord: bool, a: bool)
    requires w != "" && IsWord(w[0]) && (a ==> !afterWord)
    ensures Marks(UpcaseKeywords(w, afterWord), a) == UpcaseMarks(Marks(w, a), afterWord)
    decreases |w|, 0
  {
    var n, m := WordEnd(w, 0), Marks(w, a);
    assert n > 0;
    WordMarks(w, a, n);
    UpcaseUnfolds(w, afterWord);
    UpcaseMarksUnfold(m, afterWord);
    hide UpcaseKeywords, UpcaseMarks, IsKeyword, IsWord, IsSpace,
      UpperMarks, MarkedText, WordEnd, MarkedWord, Marks, Upper;
    if !afterWord && IsKeyword(w[..n]) {
      UpcaseMarked(w[n..], true, false);
      KeywordMarks(w, n, a);
    } else {
      UpcaseMarked(w[1..], true, false);
      StayingMarks(w, UpcaseKeywords(w[1..], true), a);
      StayingMarks(w, w[1..], a);
      assert w == [w[0]] + w[1..];
    }
  }

  lemma StayingMarks(w: string, z: string, a: bool)
    requires w != "" && IsWord(w[0])
    ensures Marks([w[0]] + z, a) == [Mark(Ch(w[0]), a)] + Marks(z, false)
    ensures IsWordMark(Mark(Ch(w[0]), a))
  {
    SpacesAreNoWords(w[0]);
    SeparatorIsNoWord(w[0]);
    assert ([w[0]] + z)[1..] == z;
    hide IsSpace, IsWord;
    MarksFront([w[0]] + z, a);
  }

  lemma KeywordMarks(w: string, n: nat, a: bool)
    requires w != "" && n == WordEnd(w, 0) > 0 && n <= |Marks(w, a)|
    ensures Marks(Upper(w[..n]) + UpcaseKeywords(w[n..], true), a) ==
            UpperMarks(Marks(w, a)[..n]) + Marks(UpcaseKeywords(w[n..], true), false)
  {
    KeywordRun(w, n);
    hide IsKeyword, IsWord, IsSpace, UpperMarks, MarkedText, WordEnd, UpcaseKeywords, Marks, MarkedWord, Upper;
    var m, run, z := Marks(w, a), Upper(w[..n]), UpcaseKeywords(w[n..], true);
    WordMarks(w, a, n);
    MarksJoin(run, z, a);
    var v := Marks(run + z, a);
    WordOfMarks(m, v, n, w[..n]);
    TwoParts(v, n, UpperMarks(m[..n]), Marks(z, false));
  }

  lemma WordOfMarks(m: seq<Mark>, v: seq<Mark>, n: nat, text: string)
    requires 0 < n <= |m| && n <= |v| && MarkedWord(m) == n && MarkedWord(v) == n && m[0].apart == v[0].apart
    requires MarkedText(m[..n]) == text && MarkedText(v[..n]) == Upper(text)
    ensures v[..n] == UpperMarks(m[..n])
  {
    hide MarkedText, Upper, UpperMarks, MarkedWord;
    MarksOfWord(m, v, n);
  }

  lemma TwoParts(v: seq<Mark>, n: nat, x: seq<Mark>, y: seq<Mark>)
    requires n <= |v| && v[..n] == x && v[n..] == y
    ensures v == x + y
  {}

  /** The upper-cased word is a word, and the rest does not go on with it. */
  lemma KeywordRun(w: string, n: nat)
    requires w != "" && n == WordEnd(w, 0) > 0
    ensures var run, z := Upper(w[..n]), UpcaseKeywords(w[n..], true);
      && run != "" && (forall k :: 0 <= k < |run| ==> IsWord(run[k]))
      && (z != "" ==> !IsWord(z[0]))
  {
    var run, z := Upper(w[..n]), UpcaseKeywords(w[n..], true);
    UpcaseStart(w[n..], true);
    hide UpcaseKeywords, IsWord;
    forall k | 0 <= k < |run| ensures IsWord(run[k]) { SameKind(w[k], run[k]); }
    if z != "" { SameKind(w[n..][0], z[0]); }
  }

  // ----- Reading back what was formatted -----

  /** A text that is read hole by hole gives its symbols and values back. */
  lemma {:induction false} SymbolsOfFaithful(t: string, i: nat, y: seq<Sym>, values: seq<string>, n: nat)
    requires i <= |t| && t[i..] == Full(y, values) && Faithful(y, values)
    requires n <= |values| && Numbered(y, n, |values|)
    ensures Symbols(t, i, n) == y && Values(t, i) == values[n..]
    decreases |y|
  {
    hide SegmentEnd, Key, Symbols, Values, Full, FaithfulFront;
    SymbolsUnfold(t, i, n);
    if y == [] {
      FullNothing(values);
      assert |t[i..]| == 0;
    } else {
      var part, rest := RenderSym(y[0], values, |values|), Full(y[1..], values);
      FullFront(y, values);
      FrontSymbol(t, i, part, rest);
      if y[0].Hole? { NumberedGrows(y[1..], n + 1, |values|); }
      FrontIsRead(t, i, y, values);
      hide RenderSym, Faithful;
      if y[0].Ch? {
        SymbolsOfFaithful(t, i + 1, y[1..], values, n);
        assert y == [Ch(t[i])] + y[1..];
      } else {
        SymbolsOfFaithful(t, i + |part|, y[1..], values, n + 1);
        assert values[n..] == [values[n]] + values[n + 1..];
        assert y == [Hole(n)] + y[1..];
      }
    }
  }

  lemma FullNothing(values: seq<string>)
    ensures Full([], values) == ""
  {}

  lemma FullFront(y: seq<Sym>, values: seq<string>)
    requires y != []
    ensures Full(y, values) == RenderSym(y[0], values, |values|) + Full(y[1..], values)
  {
    hide RenderSym;
  }

  lemma SymbolsUnfold(t: string, i: nat, n: nat)
    requires i <= |t|
    ensures i == |t| ==> Symbols(t, i, n) == [] && Values(t, i) == []
    ensures i < |t| ==> match SegmentEnd(t, i)
      case Some(e) => Symbols(t, i, n) == [Hole(n)] + Symbols(t, e, n + 1) && Values(t, i) == [t[i..e]] + Values(t, e)
      case None => Symbols(t, i, n) == [Ch(t[i])] + Symbols(t, i + 1, n) && Values(t, i) == Values(t, i + 1)
  {
    hide SegmentEnd;
  }

  /** The front symbol of the rest is what the expression finds there. */
  lemma FrontIsRead(t: string, i: nat, y: seq<Sym>, values: seq<string>)
    requires i <= |t| && t[i..] == Full(y, values) && y != [] && Faithful(y, values)
    requires y[0].Hole? ==> y[0].k < |values|
    ensures i < |t|
    ensures y[0].Ch? ==> SegmentEnd(t, i) == None
    ensures y[0].Hole? ==> SegmentEnd(t, i) == Some(i + |values[y[0].k]|)
  {
    hide SegmentEnd, Full, Key;
    assert t[i..] != "";
    ShiftSegment(t, i);
  }

  lemma FrontSymbol(t: string, i: nat, part: string, rest: string)
    requires i <= |t| && t[i..] == part + rest
    ensures i + |part| <= |t| && t[i + |part|..] == rest && t[i..i + |part|] == part
    ensures part + rest != "" ==> i < |t| && t[i] == (part + rest)[0]
  {
    DropOfDrop(t, i, |part|);
    assert t[i..][|part|..] == rest && t[i..][..|part|] == part;
    assert t[i..i + |part|] == t[i..][..|part|];
  }

  /** Formatting twice is formatting once for every text whose placeholders stand alone and whose line comments swallow
      nothing; in general, exactly when the formatted text is one that the formatter leaves. */
  lemma FormattingTwice(s: string)
    ensures PlaceholdersAlone(s, 0, 0) && CommentsKept(s, 0, 0) ==> FormatSqlText(FormatSqlText(s)) == FormatSqlText(s)
    ensures FormatSqlText(FormatSqlText(s)) == FormatSqlText(s) <==>
            var f := FormatSqlText(s); PlaceholdersAlone(f, 0, 0) && LaidOut(f) == Work(f, 0, 0)
  {
    hide PlaceholdersAlone, CommentsKept, FormatSqlText, LaidOut, Work;
    FormattingLeaves(FormatSqlText(s));
    if PlaceholdersAlone(s, 0, 0) && CommentsKept(s, 0, 0) { KeptTwice(s); }
  }

  lemma KeptTwice(s: string)
    requires PlaceholdersAlone(s, 0, 0) && CommentsKept(s, 0, 0)
    ensures FormatSqlText(FormatSqlText(s)) == FormatSqlText(s)
  {
    var f := FormatSqlText(s);
    FormattedIsReadBack(s);
    LaidOutTwice(s);
    hide PlaceholdersAlone, CommentsKept, FormatSqlText, LaidOut, RestoreFrom;
    FormatRestores(s);
    FormatRestores(f);
  }

  /** In particular for every text without the placeholder word and without line comments. */
  lemma FormattingPlainTextTwice(s: string)
    requires NoWord(s) && forall sp :: sp in Protected(s, 0) ==> sp.start < |s| && s[sp.start] != '-'
    ensures FormatSqlText(FormatSqlText(s)) == FormatSqlText(s)
  {
    hide NoWord, PlaceholdersAlone, CommentsKept, FormatSqlText, Protected;
    NoWordStandsAlone(s);
    NoLineCommentsAreKept(s, 0, 0);
    KeptTwice(s);
  }

  /** Exactly which texts the formatter leaves as they are: those with
      every placeholder alone whose protected text is laid out. */
  lemma FormattingLeaves(t: string)
    ensures FormatSqlText(t) == t <==> PlaceholdersAlone(t, 0, 0) && LaidOut(t) == Work(t, 0, 0)
  {
    hide PlaceholdersAlone, CommentsKept, FormatSqlText, LaidOut, RestoreFrom, Meaning, Work;
    FormatRestores(t);
    RestoredIffAlone(t);
    if FormatSqlText(t) == t {
      FormattingKeepsMeaning(t);
      FormattedIsReadBack(t);
    }
  }

  lemma FormattedIsReadBack(s: string)
    requires PlaceholdersAlone(s, 0, 0) && CommentsKept(s, 0, 0)
    ensures var f := FormatSqlText(s); Work(f, 0, 0) == LaidOut(s) && Values(f, 0) == Values(s, 0)
  {
    hide PlaceholdersAlone, CommentsKept, FormatSqlText, LaidOut, Faithful, Shape,
      WellShaped, LinesEnd, Render, Full, Lift, Work, Values, IsValue, Numbered;
    var f, x, values := FormatSqlText(s), FormattedSymbols(s), Values(s, 0);
    LinesByComments(s);
    FormattedFacts(s);
    FaithfulByShape(x, true, values);
    FormatIsRestored(s);
    assert f[0..] == f && values[0..] == values;
    SymbolsOfFaithful(f, 0, x, values, 0);
    SymbolsRender(f, 0, 0, values);
  }

  /** Laying out what was laid out, keywords in upper case, changes nothing. */
  lemma LaidOutTwice(s: string)
    ensures Layout(UpcaseKeywords(CollapseSpace(TrimText(LaidOut(s))), false)) == LaidOut(s)
  {
    hide Layout, UpcaseKeywords, CollapseSpace, TrimText, Marks, Work;
    var w := UpcaseKeywords(Work(s, 0, 0), false);
    var l := LaidOut(s);
    UpcaseCollapse(TrimText(Work(s, 0, 0)), false);
    UpcaseTrim(Work(s, 0, 0));
    assert l == Layout(CollapseSpace(TrimText(w)));
    UpcaseCollapse(TrimText(l), false);
    UpcaseTrim(l);
    var u := UpcaseKeywords(l, false);
    LaidOutMarks(s);
    UpcaseMarked(l, false, true);
    UpcaseMarked(w, false, true);
    UpcaseTwice(Work(s, 0, 0), false);
    assert Marks(u, true) == Marks(w, true);
    TrimKeepsMarks(u);
    TrimKeepsMarks(w);
    LayoutOfMarks(u, w);
  }
}
