/** What the formatter makes of the text behind a placeholder, and when that starts on a new line. */
module SqlNextLine {
  import opened SqlText
  import opened SqlTokens
  import opened SqlShape
  import opened SqlFormat

  /** The formatter's chain on what follows a placeholder: all but the trimming at the front. */
  function LayoutTail(z: string): string {
    TrimBack(Arrange(CollapseSpace(TrimBack(z))))
  }

  function TrimBack(w: string): string {
    w[..|w| - Trailing(w)]
  }

  function Arrange(w: string): string {
    var separated := SpaceSeparator(SpaceSeparator(w, ',', ' '), ';', '\n');
    var broken := BreakLines(BreakLines(BreakLines(separated, Clause), Joining), Logic);
    CollapseNewlines(TrimLineEnds(broken))
  }

  /** Nothing is laid out behind the placeholder, or a new line. */
  predicate StartsLine(z: string) {
    LayoutTail(z) == "" || LayoutTail(z)[0] == '\n'
  }

  predicate HasPhrase(c: string) {
    PhraseLength(Clause, c) > 0 || PhraseLength(Joining, c) > 0 || PhraseLength(Logic, c) > 0
  }

  /** The text is blank, or its first words are a phrase that the formatter puts on a new line. */
  predicate OpensLine(z: string) {
    SpaceBetween(z, 0, |z|) || HasPhrase(CollapseSpace(TrimText(z)))
  }

  // ----- The front of a text through the chain -----

  lemma SeparatorUnfolds(w: string, c: char, space: char)
    requires w != ""
    ensures var n := SpaceEnd(w, 0);
            SpaceSeparator(w, c, space) ==
            if At(w, n, c) then [c, space] + SpaceSeparator(w[SpaceEnd(w, n + 1)..], c, space)
            else [w[0]] + SpaceSeparator(w[1..], c, space)
  {
    hide SpaceEnd, IsSpace, At;
  }

  lemma SeparatorNothing(c: char, space: char)
    ensures SpaceSeparator("", c, space) == ""
  {}

  lemma NoBreakUnfolds(w: string, kind: Break)
    requires w != "" && (SpaceEnd(w, 0) == 0 || PhraseLength(kind, w[SpaceEnd(w, 0)..]) == 0)
    ensures BreakLines(w, kind) == [w[0]] + BreakLines(w[1..], kind)
    ensures BreakLines("", kind) == ""
  {
    hide SpaceEnd, PhraseLength;
  }

  /** A text starts with this character. */
  predicate Front(w: string, c: char) {
    w != "" && w[0] == c
  }

  lemma FrontThroughBreaks(w: string, kind: Break, c: char)
    requires Front(w, c) && (!IsSpace(c) || c == '\n')
    ensures Front(BreakLines(w, kind), c)
  {
    hide IsSpace, PhraseLength, SpaceEnd, BreakLines;
    var n := SpaceEnd(w, 0);
    var m := PhraseLength(kind, w[n..]);
    if n > 0 && m > 0 { BreakUnfolds(w, kind, n, m); } else { NoBreakUnfolds(w, kind); }
  }

  lemma FrontThroughSeparator(w: string, ch: char, space: char, c: char)
    requires Front(w, c) && !IsSpace(c) && (!IsSpace(ch))
    ensures Front(SpaceSeparator(w, ch, space), c)
  {
    hide IsSpace;
    SeparatorUnfolds(w, ch, space);
  }

  lemma FrontThroughEnds(w: string, c: char)
    requires Front(w, c) && (!IsSpace(c) || c == '\n')
    ensures Front(CollapseNewlines(TrimLineEnds(w)), c)
  {
    hide IsSpace;
    assert Front(TrimLineEnds(w), c);
  }

  /** A single space stays when what follows is neither a separator nor a phrase. */
  lemma SpaceThroughSeparator(c: string, ch: char, space: char)
    requires c != "" && !IsSpace(c[0]) && !IsSpace(ch)
    ensures if c[0] == ch then Front(SpaceSeparator(" " + c, ch, space), ch)
            else SpaceSeparator(" " + c, ch, space) == " " + SpaceSeparator(c, ch, space)
  {
    var w := " " + c;
    assert w[1..] == c && SpaceEnd(w, 0) == 1;
    SeparatorUnfolds(w, ch, space);
  }

  lemma SpaceThroughBreaks(c: string, kind: Break)
    requires c != "" && !IsSpace(c[0])
    ensures if PhraseLength(kind, c) > 0 then Front(BreakLines(" " + c, kind), '\n')
            else BreakLines(" " + c, kind) == " " + BreakLines(c, kind)
  {
    var w := " " + c;
    assert w[1..] == c && SpaceEnd(w, 0) == 1;
    hide PhraseLength, IsSpace, SpaceEnd, BreakLines;
    if PhraseLength(kind, c) > 0 { BreakUnfolds(w, kind, 1, PhraseLength(kind, c)); } else { NoBreakUnfolds(w, kind); }
  }

  lemma SpaceThroughEnds(c: string)
    requires c != "" && !IsSpace(c[0])
    ensures Front(CollapseNewlines(TrimLineEnds(" " + c)), ' ')
  {
    assert c[0] != '\n' && IsSpace(' ');
    hide IsSpace;
    var w := " " + c;
    assert w[1..] == c && w[0] != '\n';
    assert !BlankToLineEnd(c);
    assert Front(TrimLineEnds(w), ' ');
  }

  // ----- Phrases through the chain -----

  /** No separator in it, and every white space in it is one space with something behind. */
  predicate Tame(phrase: string, ch: char) {
    phrase == "" || (phrase[0] != ch && (IsSpace(phrase[0]) ==>
      phrase[0] == ' ' && |phrase| > 1 && !IsSpace(phrase[1])) && Tame(phrase[1..], ch))
  }

  lemma NoPhraseAtSeparator(phrase: string, w: string, ch: char)
    requires phrase != "" && Tame(phrase, ch) && At(w, SpaceEnd(w, 0), ch)
    ensures !(phrase <= w)
  {
    hide IsSpace;
    var n := SpaceEnd(w, 0);
    assert n == 0 ==> w[0] != phrase[0];
    assert n > 0 && IsSpace(phrase[0]) ==> phrase[1..][0] != ch && w[1] != phrase[1];
  }

  lemma {:induction false} SeparatorKeepsPhrase(phrase: string, w: string, ch: char, space: char)
    requires Tame(phrase, ch)
    ensures phrase <= SpaceSeparator(w, ch, space) <==> phrase <= w
    ensures phrase <= w ==> SpaceSeparator(w, ch, space) == phrase + SpaceSeparator(w[|phrase|..], ch, space)
    decreases |phrase|
  {
    hide IsSpace, SpaceSeparator, SpaceEnd;
    if phrase == "" {
      assert w[0..] == w && "" + SpaceSeparator(w, ch, space) == SpaceSeparator(w, ch, space);
    } else if w == "" {
      SeparatorNothing(ch, space);
    } else {
      SeparatorUnfolds(w, ch, space);
      if At(w, SpaceEnd(w, 0), ch) {
        NoPhraseAtSeparator(phrase, w, ch);
        assert SpaceSeparator(w, ch, space)[0] == ch;
      } else {
        SeparatorKeepsPhrase(phrase[1..], w[1..], ch, space);
        PhraseStep(phrase, w, SpaceSeparator(w, ch, space), SpaceSeparator(w[1..], ch, space));
        if phrase <= w {
          DropOfDrop(w, 1, |phrase| - 1);
          ConcatAssociates([phrase[0]], phrase[1..], SpaceSeparator(w[|phrase|..], ch, space));
        }
      }
    }
  }

  lemma PhraseStep(phrase: string, w: string, v: string, rest: string)
    requires phrase != "" && w != "" && v == [w[0]] + rest
    ensures phrase <= w <==> phrase[0] == w[0] && phrase[1..] <= w[1..]
    ensures phrase <= v <==> phrase[0] == w[0] && phrase[1..] <= rest
    ensures phrase == [phrase[0]] + phrase[1..]
  {
    assert v[1..] == rest;
    PrefixStep(phrase, w);
    PrefixStep(phrase, v);
  }

  lemma PrefixStep(phrase: string, w: string)
    requires phrase != "" && w != ""
    ensures phrase <= w <==> phrase[0] == w[0] && phrase[1..] <= w[1..]
  {
    assert w == [w[0]] + w[1..] && phrase == [phrase[0]] + phrase[1..];
    if phrase[0] == w[0] && phrase[1..] <= w[1..] {
      assert w[1..] == phrase[1..] + w[1..][|phrase| - 1..];
      assert w == phrase + w[1..][|phrase| - 1..];
    }
    if phrase <= w {
      assert phrase[1..] == w[..|phrase|][1..] == w[1..][..|phrase| - 1];
    }
  }

  /** A word character comes next. */
  predicate WordNext(w: string) {
    w != "" && IsWord(w[0])
  }

  lemma SeparatorKeepsWordNext(w: string, ch: char, space: char)
    requires !IsSpace(ch) && !IsWord(ch)
    ensures WordNext(SpaceSeparator(w, ch, space)) <==> WordNext(w)
  {
    hide IsSpace, IsWord;
    if w == "" {
      SeparatorNothing(ch, space);
    } else {
      SeparatorUnfolds(w, ch, space);
      if At(w, SpaceEnd(w, 0), ch) && SpaceEnd(w, 0) > 0 { SpacesAreNoWords(w[0]); }
    }
  }

  lemma {:induction false} SeparatorKeepsOneOf(phrases: seq<string>, w: string, ch: char, space: char)
    requires !IsSpace(ch) && !IsWord(ch)
    requires forall phrase :: phrase in phrases ==> Tame(phrase, ch)
    ensures OneOf(phrases, SpaceSeparator(w, ch, space)) == OneOf(phrases, w)
  {
    hide IsSpace, IsWord, SpaceSeparator, Tame;
    if phrases != [] {
      var p, v := phrases[0], SpaceSeparator(w, ch, space);
      assert p in phrases && forall phrase :: phrase in phrases[1..] ==> phrase in phrases;
      SeparatorKeepsPhrase(p, w, ch, space);
      SeparatorKeepsOneOf(phrases[1..], w, ch, space);
      if p <= w {
        SeparatorKeepsWordNext(w[|p|..], ch, space);
        assert v[|p|..] == SpaceSeparator(w[|p|..], ch, space);
        assert |p| < |v| ==> v[|p|] == v[|p|..][0];
        assert |p| < |w| ==> w[|p|] == w[|p|..][0];
        assert WordNext(v[|p|..]) <==> WordNext(w[|p|..]);
      }
    }
  }

  /** Words without white space, or two of them with a space between, are tame. */
  lemma {:induction false} WordIsTame(word: string, tail: string, ch: char)
    requires forall k :: 0 <= k < |word| ==> word[k] != ch && !IsSpace(word[k])
    requires Tame(tail, ch)
    ensures Tame(word + tail, ch)
  {
    hide IsSpace;
    if word == "" {
      assert word + tail == tail;
    } else {
      WordIsTame(word[1..], tail, ch);
      assert (word + tail)[1..] == word[1..] + tail;
    }
  }

  lemma TwoWordsAreTame(first: string, second: string, ch: char)
    requires ch != ' ' && second != ""
    requires forall k :: 0 <= k < |first| ==> first[k] != ch && !IsSpace(first[k])
    requires forall k :: 0 <= k < |second| ==> second[k] != ch && !IsSpace(second[k])
    ensures Tame(first + " " + second, ch)
  {
    WordIsTame(second, "", ch);
    assert second + "" == second;
    var tail := " " + second;
    assert tail[1..] == second;
    assert Tame(tail, ch);
    WordIsTame(first, tail, ch);
    assert first + " " + second == first + tail;
  }

  /** One of the formatter's words: letters only. */
  predicate IsPhraseWord(word: string) {
    word != "" && forall k :: 0 <= k < |word| ==> 'A' <= word[k] <= 'Z'
  }

  lemma PhraseWords()
    ensures forall phrase :: phrase in SIDES ==> IsPhraseWord(phrase)
    ensures IsPhraseWord("JOIN") && IsPhraseWord("AND") && IsPhraseWord("OR")
  {}

  lemma ClauseWords()
    ensures IsPhraseWord("GROUP") && IsPhraseWord("ORDER") && IsPhraseWord("BY")
    ensures forall phrase :: phrase in CLAUSES ==>
      IsPhraseWord(phrase) || phrase == "GROUP" + " " + "BY" || phrase == "ORDER" + " " + "BY"
  {
    var c := CLAUSES;
    assert c[2] == "GROUP" + " " + "BY" && c[4] == "ORDER" + " " + "BY";
    assert IsPhraseWord(c[0]) && IsPhraseWord(c[1]) && IsPhraseWord(c[3]) && IsPhraseWord(c[5]);
    assert IsPhraseWord(c[6]) && IsPhraseWord(c[7]) && IsPhraseWord(c[8]) && IsPhraseWord(c[9]);
    hide IsPhraseWord;
    forall phrase | phrase in c ensures IsPhraseWord(phrase) || phrase == c[2] || phrase == c[4] {}
  }

  lemma PhrasesAreTame(ch: char)
    requires ch == ',' || ch == ';'
    ensures forall phrase :: phrase in CLAUSES ==> Tame(phrase, ch)
    ensures forall phrase :: phrase in SIDES ==> Tame(phrase, ch)
    ensures Tame("JOIN", ch) && Tame("AND", ch) && Tame("OR", ch)
  {
    PhraseWords();
    ClauseWords();
    TwoWordsAreTame("GROUP", "BY", ch);
    TwoWordsAreTame("ORDER", "BY", ch);
    forall phrase | IsPhraseWord(phrase) ensures Tame(phrase, ch) {
      WordIsTame(phrase, "", ch);
      assert phrase + "" == phrase;
    }
  }

  // ----- Joins -----

  /** JOIN behind the white space at the front, if any. */
  predicate JoinBehindSpace(u: string) {
    OneOf(["JOIN"], u[SpaceEnd(u, 0)..]) > 0
  }

  predicate JoinAhead(u: string) {
    u != "" && IsSpace(u[0]) && JoinBehindSpace(u)
  }

  lemma {:induction false} SpaceEndFrom(w: string, i: nat)
    requires i <= |w|
    ensures SpaceEnd(w, i) == i + SpaceEnd(w[i..], 0)
    decreases |w| - i
  {
    hide IsSpace;
    if i < |w| && IsSpace(w[i]) {
      SpaceEndFrom(w, i + 1);
      SpaceEndFrom(w[i..], 1);
      assert w[i..][1..] == w[i + 1..];
    }
  }

  lemma JoinByParts(w: string)
    ensures PhraseLength(Joining, w) > 0 <==>
      (OneOf(SIDES, w) > 0 && JoinAhead(w[OneOf(SIDES, w)..])) || OneOf(["JOIN"], w) > 0
  {
    hide OneOf, SpaceEnd, IsSpace, SIDES, PhraseLength, JoinAhead;
    var side := OneOf(SIDES, w);
    var gap := SpaceEnd(w, side);
    JoiningUnfolds(w, side, gap);
    SpaceEndFrom(w, side);
    DropOfDrop(w, side, gap - side);
    AheadByGap(w[side..]);
  }

  lemma JoiningUnfolds(w: string, side: nat, gap: nat)
    requires side == OneOf(SIDES, w) && gap == SpaceEnd(w, side)
    ensures gap <= |w| && PhraseLength(Joining, w) ==
      if side > 0 && gap > side && OneOf(["JOIN"], w[gap..]) > 0 then gap + OneOf(["JOIN"], w[gap..])
      else OneOf(["JOIN"], w)
  {
    hide OneOf, SpaceEnd, SIDES;
  }

  lemma AheadByGap(u: string)
    ensures JoinAhead(u) <==> SpaceEnd(u, 0) > 0 && OneOf(["JOIN"], u[SpaceEnd(u, 0)..]) > 0
  {
    hide OneOf;
    GapIsSpace(u);
    hide SpaceEnd, IsSpace;
  }

  lemma GapIsSpace(u: string)
    ensures SpaceEnd(u, 0) > 0 <==> u != "" && IsSpace(u[0])
  {}

  /** White space in front of what JOIN is behind may go. */
  lemma JoinSkips(u: string)
    requires u != "" && IsSpace(u[0])
    ensures JoinBehindSpace(u) <==> JoinBehindSpace(u[1..])
  {
    hide OneOf, IsSpace;
    SpaceEndFrom(u, 1);
    DropOfDrop(u, 1, SpaceEnd(u[1..], 0));
  }

  lemma JoinStays(u: string)
    requires u != "" ==> !IsSpace(u[0])
    ensures JoinBehindSpace(u) <==> OneOf(["JOIN"], u) > 0
  {
    hide OneOf, IsSpace;
    assert u[0..] == u;
  }

  lemma NoJoinBehind(u: string)
    requires SpaceEnd(u, 0) < |u| && u[SpaceEnd(u, 0)] != 'J'
    ensures !JoinBehindSpace(u)
  {
    NoJoinHere(u[SpaceEnd(u, 0)..]);
  }

  lemma {:induction false} SeparatorKeepsJoin(u: string, ch: char, space: char)
    requires ch == ',' || ch == ';'
    ensures JoinBehindSpace(SpaceSeparator(u, ch, space)) <==> JoinBehindSpace(u)
    decreases |u|
  {
    MarksAreNoSpace();
    hide SpaceSeparator, JoinBehindSpace, OneOf, IsSpace;
    var v := SpaceSeparator(u, ch, space);
    if u == "" {
      SeparatorNothing(ch, space);
    } else {
      SeparatorUnfolds(u, ch, space);
      if At(u, SpaceEnd(u, 0), ch) {
        assert v[0] == ch;
        NoJoinBehind(v);
        NoJoinBehind(u);
      } else if IsSpace(u[0]) {
        SeparatorKeepsJoin(u[1..], ch, space);
        assert v[1..] == SpaceSeparator(u[1..], ch, space);
        JoinSkips(u);
        JoinSkips(v);
      } else {
        PhrasesAreTame(ch);
        SeparatorKeepsOneOf(["JOIN"], u, ch, space);
        JoinStays(u);
        JoinStays(v);
      }
    }
  }

  // ----- Words through the line breaks -----

  lemma BreaksUnfold(w: string, kind: Break)
    requires w != ""
    ensures if SpaceEnd(w, 0) > 0 && PhraseLength(kind, w[SpaceEnd(w, 0)..]) > 0 then
              IsSpace(w[0]) && Front(BreakLines(w, kind), '\n')
            else BreakLines(w, kind) == [w[0]] + BreakLines(w[1..], kind)
  {
    var n := SpaceEnd(w, 0);
    assert n > 0 ==> IsSpace(w[0]);
    hide IsSpace, PhraseLength, SpaceEnd, BreakLines;
    var m := PhraseLength(kind, w[n..]);
    if n > 0 && m > 0 { BreakUnfolds(w, kind, n, m); } else { NoBreakUnfolds(w, kind); }
  }

  predicate IsSolidWord(word: string) {
    word == "" || (!IsSpace(word[0]) && IsSolidWord(word[1..]))
  }

  lemma {:induction false} PhraseWordIsSolid(word: string)
    requires word != "" ==> IsPhraseWord(word)
    ensures IsSolidWord(word)
  {
    if word != "" { PhraseWordIsSolid(word[1..]); }
  }

  lemma SpaceStartsNoWord(word: string, w: string)
    requires word != "" && IsSolidWord(word) && w != "" && IsSpace(w[0])
    ensures !(word <= w)
  {
    hide IsSpace;
    assert word[0] != w[0];
  }

  /** The word is at the front of both texts or of neither, and stays in front of what follows it. */
  predicate KeepsWord(word: string, w: string, kind: Break) {
    && (word <= BreakLines(w, kind) <==> word <= w)
    && (word <= w ==> BreakLines(w, kind) == word + BreakLines(w[|word|..], kind))
  }

  lemma {:induction false} BreaksKeepWord(word: string, w: string, kind: Break)
    requires IsSolidWord(word)
    ensures KeepsWord(word, w, kind)
    decreases |word|
  {
    hide KeepsWord, IsSpace, PhraseLength, SpaceEnd, BreakLines;
    if word == "" || w == "" {
      KeepsNothing(word, w, kind);
    } else if SpaceEnd(w, 0) > 0 && PhraseLength(kind, w[SpaceEnd(w, 0)..]) > 0 {
      KeepsAtBreak(word, w, kind);
    } else {
      BreaksKeepWord(word[1..], w[1..], kind);
      KeepsOneMore(word, w, kind);
    }
  }

  lemma KeepsNothing(word: string, w: string, kind: Break)
    requires word == "" || w == ""
    ensures KeepsWord(word, w, kind)
  {
    hide BreakLines;
    BreakNothing(kind);
    assert w[0..] == w && "" + BreakLines(w, kind) == BreakLines(w, kind);
  }

  lemma KeepsAtBreak(word: string, w: string, kind: Break)
    requires word != "" && IsSolidWord(word) && w != ""
    requires SpaceEnd(w, 0) > 0 && PhraseLength(kind, w[SpaceEnd(w, 0)..]) > 0
    ensures KeepsWord(word, w, kind)
  {
    assert IsSpace('\n');
    hide IsSpace, PhraseLength, SpaceEnd, BreakLines, IsSolidWord;
    BreaksUnfold(w, kind);
    SpaceStartsNoWord(word, w);
    SpaceStartsNoWord(word, BreakLines(w, kind));
  }

  lemma KeepsOneMore(word: string, w: string, kind: Break)
    requires word != "" && w != "" && KeepsWord(word[1..], w[1..], kind)
    requires !(SpaceEnd(w, 0) > 0 && PhraseLength(kind, w[SpaceEnd(w, 0)..]) > 0)
    ensures KeepsWord(word, w, kind)
  {
    hide IsSpace, PhraseLength, SpaceEnd, BreakLines;
    BreaksUnfold(w, kind);
    PrefixStep(word, w);
    var tail := if word <= w then w[|word|..] else "";
    if word <= w { DropOfDrop(w, 1, |word| - 1); }
    WordStep(word, w, BreakLines(w, kind), BreakLines(w[1..], kind), BreakLines(tail, kind));
  }

  lemma WordStep(word: string, w: string, v: string, rest: string, tail: string)
    requires word != "" && w != "" && v == [w[0]] + rest
    requires word[1..] <= rest <==> word[1..] <= w[1..]
    requires word <= w ==> rest == word[1..] + tail
    ensures word <= v <==> word <= w
    ensures word <= w ==> v == word + tail
  {
    PhraseStep(word, w, v, rest);
    ConcatAssociates([word[0]], word[1..], tail);
  }

  lemma BreakNothing(kind: Break)
    ensures BreakLines("", kind) == ""
  {}

  lemma BreaksKeepWordNext(w: string, kind: Break)
    ensures WordNext(BreakLines(w, kind)) <==> WordNext(w)
  {
    NewlineIsSpace();
    SpacesAreNoWords('\n');
    hide IsSpace, IsWord, PhraseLength, SpaceEnd, BreakLines;
    if w == "" {
      BreakNothing(kind);
    } else {
      BreaksUnfold(w, kind);
      if IsSpace(w[0]) { SpacesAreNoWords(w[0]); }
    }
  }

  lemma {:induction false} BreaksKeepOneOf(words: seq<string>, w: string, kind: Break)
    requires forall word :: word in words ==> IsPhraseWord(word)
    ensures OneOf(words, BreakLines(w, kind)) == OneOf(words, w)
  {
    hide IsWord, BreakLines;
    if words != [] {
      var p, v := words[0], BreakLines(w, kind);
      assert p in words && forall word :: word in words[1..] ==> word in words;
      PhraseWordIsSolid(p);
      BreaksKeepWord(p, w, kind);
      BreaksKeepOneOf(words[1..], w, kind);
      if p <= w {
        BreaksKeepWordNext(w[|p|..], kind);
        assert v[|p|..] == BreakLines(w[|p|..], kind);
        assert |p| < |v| ==> v[|p|] == v[|p|..][0];
        assert |p| < |w| ==> w[|p|] == w[|p|..][0];
        assert WordNext(v[|p|..]) <==> WordNext(w[|p|..]);
      }
    }
  }

  /** A clause is no join. */
  lemma ClauseIsNoJoin(w: string)
    requires OneOf(CLAUSES, w) > 0
    ensures w != "" && w[0] != 'J' && !IsSpace(w[0])
  {
    FrontOfClause(CLAUSES, w);
  }

  lemma {:induction false} FrontOfClause(phrases: seq<string>, w: string)
    requires OneOf(phrases, w) > 0
    requires forall phrase :: phrase in phrases ==> phrase != "" && 'A' <= phrase[0] <= 'Z' && phrase[0] != 'J'
    ensures w != "" && w[0] != 'J' && 'A' <= w[0] <= 'Z'
  {
    assert phrases[0] in phrases && forall phrase :: phrase in phrases[1..] ==> phrase in phrases;
    if !(phrases[0] <= w && !(|phrases[0]| < |w| && IsWord(w[|phrases[0]|]))) { FrontOfClause(phrases[1..], w); }
  }

  lemma NoJoinHere(w: string)
    requires w != "" && w[0] != 'J'
    ensures OneOf(["JOIN"], w) == 0
  {}

  lemma {:induction false} BreaksKeepJoin(u: string)
    ensures JoinBehindSpace(BreakLines(u, Clause)) <==> JoinBehindSpace(u)
    decreases |u|
  {
    NewlineIsSpace();
    hide BreakLines, IsSpace, OneOf, JoinBehindSpace;
    var v := BreakLines(u, Clause);
    if u == "" {
      BreakNothing(Clause);
    } else {
      var n := SpaceEnd(u, 0);
      var m := PhraseLength(Clause, u[n..]);
      if n > 0 && m > 0 {
        ClauseIsNoJoin(u[n..]);
        NoJoinBehind(u);
        BreakUnfolds(u, Clause, n, m);
        var rest := u[n..n + m] + BreakLines(u[n + m..], Clause);
        assert rest[0] == u[n];
        assert v == "\n" + rest && v[1..] == rest;
        JoinSkips(v);
        NoJoinBehind(rest);
      } else {
        NoBreakUnfolds(u, Clause);
        assert v[1..] == BreakLines(u[1..], Clause);
        if n > 0 {
          BreaksKeepJoin(u[1..]);
          JoinSkips(u);
          JoinSkips(v);
        } else {
          PhraseWords();
          BreaksKeepOneOf(["JOIN"], u, Clause);
          JoinStays(u);
          JoinStays(v);
        }
      }
    }
  }

  lemma NewlineIsSpace()
    ensures IsSpace('\n') && IsSpace(' ')
  {}

  // ----- The syntactic condition -----

  lemma SpaceEndIsLeading(z: string)
    ensures SpaceEnd(z, 0) == Leading(z)
  {
    hide IsSpace;
    var n, m := SpaceEnd(z, 0), Leading(z);
    assert n < |z| ==> !IsSpace(z[n]);
  }

  lemma CollapsedFront(z: string)
    requires z != "" && IsSpace(z[0]) && !SpaceBetween(z, 0, |z|)
    ensures var c := CollapseSpace(TrimText(z));
      CollapseSpace(TrimBack(z)) == " " + c && c != "" && !IsSpace(c[0])
  {
    hide IsSpace, SpaceEnd;
    var leading, trailing := Leading(z), Trailing(z);
    assert leading + trailing < |z|;
    var u, v := TrimBack(z), TrimText(z);
    SpaceEndIsLeading(u);
    assert u[leading] == z[leading];
    assert forall k :: 0 <= k < leading ==> u[k] == z[k];
    assert Leading(u) == leading;
    assert u[leading..] == v;
    assert v[0] == z[leading] && CollapseSpace(v) == [v[0]] + CollapseSpace(v[1..]);
  }

  lemma ClauseThroughSeparators(c: string)
    ensures var d := SpaceSeparator(SpaceSeparator(c, ',', ' '), ';', '\n');
      && PhraseLength(Clause, d) == PhraseLength(Clause, c)
      && PhraseLength(Logic, d) == PhraseLength(Logic, c)
      && (PhraseLength(Joining, d) > 0 <==> PhraseLength(Joining, c) > 0)
  {
    hide SpaceSeparator;
    PhrasesThroughSeparator(c, ',', ' ');
    PhrasesThroughSeparator(SpaceSeparator(c, ',', ' '), ';', '\n');
  }

  lemma PhrasesThroughSeparator(c: string, ch: char, space: char)
    requires ch == ',' || ch == ';'
    requires IsSpace(space)
    ensures PhraseLength(Clause, SpaceSeparator(c, ch, space)) == PhraseLength(Clause, c)
    ensures PhraseLength(Logic, SpaceSeparator(c, ch, space)) == PhraseLength(Logic, c)
    ensures PhraseLength(Joining, SpaceSeparator(c, ch, space)) > 0 <==> PhraseLength(Joining, c) > 0
  {
    hide SpaceSeparator, OneOf, Tame;
    var d := SpaceSeparator(c, ch, space);
    PhrasesAreTame(ch);
    SeparatorKeepsOneOf(CLAUSES, c, ch, space);
    SeparatorKeepsOneOf(["AND", "OR"], c, ch, space);
    SeparatorKeepsOneOf(["JOIN"], c, ch, space);
    SeparatorKeepsOneOf(SIDES, c, ch, space);
    JoinByParts(c);
    JoinByParts(d);
    var side := OneOf(SIDES, c);
    if side > 0 {
      SideIsPhrase(SIDES, c);
      SeparatorKeepsPhrase(c[..side], c, ch, space);
      assert d[side..] == SpaceSeparator(c[side..], ch, space);
      SeparatorKeepsAhead(c[side..], ch, space);
    }
  }

  /** What is found at the front is one of the phrases. */
  lemma {:induction false} SideIsPhrase(phrases: seq<string>, w: string)
    requires OneOf(phrases, w) > 0
    ensures w[..OneOf(phrases, w)] in phrases
  {
    var phrase := phrases[0];
    if phrase <= w && !(|phrase| < |w| && IsWord(w[|phrase|])) {
      assert w[..|phrase|] == phrase;
    } else {
      SideIsPhrase(phrases[1..], w);
      assert w[..OneOf(phrases, w)] in phrases[1..];
    }
  }

  lemma SeparatorKeepsAhead(u: string, ch: char, space: char)
    requires (ch == ',' || ch == ';') && IsSpace(space)
    ensures JoinAhead(SpaceSeparator(u, ch, space)) <==> JoinAhead(u)
  {
    hide SpaceSeparator, OneOf;
    SeparatorKeepsJoin(u, ch, space);
    if u == "" {
      SeparatorNothing(ch, space);
    } else {
      SeparatorUnfolds(u, ch, space);
      if At(u, SpaceEnd(u, 0), ch) {
        assert u[SpaceEnd(u, 0)..][0] == ch;
        NoJoinHere(u[SpaceEnd(u, 0)..]);
      }
    }
  }

  lemma PhrasesThroughClauses(c: string)
    ensures PhraseLength(Logic, BreakLines(c, Clause)) == PhraseLength(Logic, c)
    ensures PhraseLength(Joining, BreakLines(c, Clause)) > 0 <==> PhraseLength(Joining, c) > 0
  {
    hide BreakLines, OneOf;
    var d := BreakLines(c, Clause);
    PhraseWords();
    BreaksKeepOneOf(["AND", "OR"], c, Clause);
    BreaksKeepOneOf(["JOIN"], c, Clause);
    BreaksKeepOneOf(SIDES, c, Clause);
    JoinByParts(c);
    JoinByParts(d);
    var side := OneOf(SIDES, c);
    if side > 0 {
      SideIsPhrase(SIDES, c);
      assert IsPhraseWord(c[..side]);
      PhraseWordIsSolid(c[..side]);
      BreaksKeepWord(c[..side], c, Clause);
      assert d[side..] == BreakLines(c[side..], Clause);
      BreaksKeepAhead(c[side..]);
    }
  }

  lemma BreaksKeepAhead(u: string)
    ensures JoinAhead(BreakLines(u, Clause)) <==> JoinAhead(u)
  {
    hide BreakLines, OneOf, PhraseLength, SpaceEnd;
    NewlineIsSpace();
    BreaksKeepJoin(u);
    if u == "" {
      BreakNothing(Clause);
    } else {
      BreaksUnfold(u, Clause);
    }
  }

  lemma LogicThroughJoins(c: string)
    ensures PhraseLength(Logic, BreakLines(c, Joining)) == PhraseLength(Logic, c)
  {
    hide BreakLines;
    PhraseWords();
    BreaksKeepOneOf(["AND", "OR"], c, Joining);
  }

  /** How the arranged text starts, when a single space and then other characters are in front. */
  lemma ArrangedFront(c: string)
    requires c != "" && !IsSpace(c[0])
    ensures if HasPhrase(c) then Front(Arrange(" " + c), '\n')
            else Arrange(" " + c) != "" && Arrange(" " + c)[0] in {' ', ',', ';'}
  {
    hide PhraseLength, SpaceSeparator, BreakLines, TrimLineEnds, CollapseNewlines;
    NewlineIsSpace();
    if c[0] == ',' || c[0] == ';' {
      NoPhraseAtMark(c);
      FrontOfArranged(c);
    } else {
      FrontBySteps(c);
    }
  }

  lemma ClauseFronts()
    ensures forall phrase :: phrase in CLAUSES ==> phrase != "" && 'A' <= phrase[0] <= 'Z'
  {}

  /** No phrase starts with anything but a capital letter. */
  lemma NoPhraseAtMark(c: string)
    requires c != "" && !('A' <= c[0] <= 'Z')
    ensures !HasPhrase(c)
  {
    ClauseFronts();
    PhraseWords();
    hide CLAUSES, SIDES, OneOf;
    NothingAtMark(CLAUSES, c);
    NothingAtMark(SIDES, c);
    NothingAtMark(["JOIN"], c);
    NothingAtMark(["AND", "OR"], c);
  }

  lemma {:induction false} NothingAtMark(phrases: seq<string>, c: string)
    requires c != "" && !('A' <= c[0] <= 'Z')
    requires forall phrase :: phrase in phrases ==> phrase != "" && 'A' <= phrase[0] <= 'Z'
    ensures OneOf(phrases, c) == 0
  {
    if phrases != [] {
      assert phrases[0] in phrases && forall phrase :: phrase in phrases[1..] ==> phrase in phrases;
      NothingAtMark(phrases[1..], c);
    }
  }

  lemma FrontOfArranged(c: string)
    requires c != "" && (c[0] == ',' || c[0] == ';')
    ensures Front(Arrange(" " + c), c[0])
  {
    hide SpaceSeparator, BreakLines, TrimLineEnds, CollapseNewlines;
    SpaceThroughSeparator(c, ',', ' ');
    var w1 := SpaceSeparator(" " + c, ',', ' ');
    if c[0] == ',' {
      FrontThroughSeparator(w1, ';', '\n', ',');
    } else {
      FrontThroughSeparator(c, ',', ' ', ';');
      SpaceThroughSeparator(SpaceSeparator(c, ',', ' '), ';', '\n');
    }
    var w2 := SpaceSeparator(w1, ';', '\n');
    FrontThroughRest(w2, c[0]);
  }

  lemma FrontThroughRest(w: string, c: char)
    requires Front(w, c) && (!IsSpace(c) || c == '\n')
    ensures Front(CollapseNewlines(TrimLineEnds(BreakLines(BreakLines(BreakLines(w, Clause), Joining), Logic))), c)
  {
    hide BreakLines, TrimLineEnds, CollapseNewlines, IsSpace;
    FrontThroughBreaks(w, Clause, c);
    FrontThroughBreaks(BreakLines(w, Clause), Joining, c);
    FrontThroughBreaks(BreakLines(BreakLines(w, Clause), Joining), Logic, c);
    FrontThroughEnds(BreakLines(BreakLines(BreakLines(w, Clause), Joining), Logic), c);
  }

  lemma FrontBySteps(c: string)
    requires c != "" && !IsSpace(c[0]) && c[0] != ',' && c[0] != ';'
    ensures Front(Arrange(" " + c), if HasPhrase(c) then '\n' else ' ')
  {
    NewlineIsSpace();
    hide IsSpace, PhraseLength, SpaceSeparator, BreakLines, TrimLineEnds, CollapseNewlines;
    MarksAreNoSpace();
    SpaceThroughSeparator(c, ',', ' ');
    var c1 := SpaceSeparator(c, ',', ' ');
    FrontThroughSeparator(c, ',', ' ', c[0]);
    SpaceThroughSeparator(c1, ';', '\n');
    var c2 := SpaceSeparator(c1, ';', '\n');
    FrontThroughSeparator(c1, ';', '\n', c[0]);
    ClauseThroughSeparators(c);
    SpaceThroughBreaks(c2, Clause);
    var w3 := BreakLines(" " + c2, Clause);
    if PhraseLength(Clause, c2) > 0 {
      FrontThroughBreaks(w3, Joining, '\n');
      FrontThroughBreaks(BreakLines(w3, Joining), Logic, '\n');
      FrontThroughEnds(BreakLines(BreakLines(w3, Joining), Logic), '\n');
    } else {
      var c3 := BreakLines(c2, Clause);
      FrontThroughBreaks(c2, Clause, c[0]);
      PhrasesThroughClauses(c2);
      SpaceThroughBreaks(c3, Joining);
      var w4 := BreakLines(" " + c3, Joining);
      if PhraseLength(Joining, c3) > 0 {
        FrontThroughBreaks(w4, Logic, '\n');
        FrontThroughEnds(BreakLines(w4, Logic), '\n');
      } else {
        var c4 := BreakLines(c3, Joining);
        FrontThroughBreaks(c3, Joining, c[0]);
        LogicThroughJoins(c3);
        SpaceThroughBreaks(c4, Logic);
        if PhraseLength(Logic, c4) > 0 {
          FrontThroughEnds(BreakLines(" " + c4, Logic), '\n');
        } else {
          FrontThroughBreaks(c4, Logic, c[0]);
          SpaceThroughEnds(BreakLines(c4, Logic));
        }
      }
    }
  }

  lemma MarksAreNoSpace()
    ensures !IsSpace(',') && !IsSpace(';')
  {}

  lemma ArrangeNothing()
    ensures LayoutTail("") == ""
  {
    assert TrimBack("") == "" && CollapseSpace("") == "";
    SeparatorNothing(',', ' ');
    SeparatorNothing(';', '\n');
    BreakNothing(Clause);
    BreakNothing(Joining);
    BreakNothing(Logic);
  }

  lemma TrimBackOfFront(w: string, k: nat)
    requires k < |w| && !IsSpace(w[k])
    ensures Front(TrimBack(w), w[0])
  {
    hide IsSpace;
  }

  /** Behind white space, the next thing is laid out on a new line if
      and only if it is one of the formatter's phrases. */
  lemma StartsLineBySyntax(z: string)
    requires z != "" ==> IsSpace(z[0])
    ensures StartsLine(z) <==> OpensLine(z)
  {
    hide IsSpace, Arrange, CollapseSpace, TrimText, HasPhrase;
    ArrangeNothing();
    if SpaceBetween(z, 0, |z|) {
      BlankIsTrimmed(z);
      assert TrimBack("") == "";
    } else {
      CollapsedFront(z);
      var c := CollapseSpace(TrimText(z));
      ArrangedFront(c);
      var w := Arrange(" " + c);
      ArrangedIsSolid(c);
      var k: nat :| k < |w| && !IsSpace(w[k]);
      TrimBackOfFront(w, k);
    }
  }

  lemma BlankIsTrimmed(z: string)
    ensures TrimBack(z) != "" ==> !SpaceBetween(z, 0, |z|)
  {
    hide IsSpace;
    if TrimBack(z) != "" { assert !IsSpace(z[|z| - Trailing(z) - 1]); }
  }

  lemma ArrangedIsSolid(c: string)
    requires c != "" && !IsSpace(c[0])
    ensures exists k: nat :: k < |Arrange(" " + c)| && !IsSpace(Arrange(" " + c)[k])
  {
    hide IsSpace, Marks, Arrange;
    var w := " " + c;
    ArrangeKeepsMarks(w);
    NewlineIsSpace();
    assert w[1..] == c;
    SolidHasMarks(w, 1);
    if forall k: nat :: k < |Arrange(w)| ==> IsSpace(Arrange(w)[k]) {
      BlankHasNoMarks(Arrange(w));
    }
  }

  lemma ArrangeKeepsMarks(w: string)
    ensures SameMarks(Arrange(w), w)
  {
    hide Marks, SpaceSeparator, BreakLines, TrimLineEnds, CollapseNewlines;
    SpacesAre();
    var w1 := SpaceSeparator(w, ',', ' ');
    var w2 := SpaceSeparator(w1, ';', '\n');
    var w3 := BreakLines(w2, Clause);
    var w4 := BreakLines(w3, Joining);
    var w5 := BreakLines(w4, Logic);
    SeparatorKeepsMarks(w, ',', ' ');
    SeparatorKeepsMarks(w1, ';', '\n');
    BreaksKeepMarks(w2, Clause);
    BreaksKeepMarks(w3, Joining);
    BreaksKeepMarks(w4, Logic);
    LineEndsKeepMarks(w5);
    NewlinesKeepMarks(TrimLineEnds(w5));
  }

  lemma {:induction false} BlankHasNoMarks(w: string)
    requires forall k: nat :: k < |w| ==> IsSpace(w[k])
    ensures Marks(w, true) == []
  {
    hide IsSpace;
    if w != "" {
      assert w[0] == w[..][0];
      forall k: nat | k < |w| - 1 ensures IsSpace(w[1..][k]) { assert w[1..][k] == w[k + 1]; }
      BlankHasNoMarks(w[1..]);
    }
  }

  lemma {:induction false} SolidHasMarks(w: string, k: nat)
    requires k < |w| && !IsSpace(w[k])
    ensures Marks(w, true) != []
  {
    hide IsSpace;
    if IsSpace(w[0]) { SolidHasMarks(w[1..], k - 1); }
  }
}