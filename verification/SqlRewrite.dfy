/** What formatting writes, token by token: keywords in upper case unless
    a quote or comment touches them, and all else as it was. */
module SqlRewrite {
  import opened Options
  import opened SqlText
  import opened SqlTokens
  import opened SqlProtect
  import opened SqlRestore
  import opened SqlLexemes
  import opened SqlShape
  import opened SqlFaithful
  import opened SqlFormat
  import opened SqlNextLine
  import opened SqlUpcase
  import opened SqlLift
  import opened SqlMeaning
  import opened SqlComments

  // ----- The runs of word characters, one by one -----

  /** A whole run of word characters. */
  predicate IsRun(w: string, a: nat, b: nat) {
    && a < b <= |w| && WordMayStart(w, a) && (forall k :: a <= k < b ==> IsWord(w[k])) && WordMayEnd(w, b)
  }

  lemma {:induction false} UpcaseLength(w: string, afterWord: bool)
    ensures |UpcaseKeywords(w, afterWord)| == |w|
    decreases |w|
  {
    hide IsWord, IsKeyword, WordEnd;
    if w == "" {
      assert UpcaseKeywords(w, afterWord) == "";
    } else {
      UpcaseUnfolds(w, afterWord);
      var n := WordEnd(w, 0);
      if !afterWord && n > 0 && IsKeyword(w[..n]) { UpcaseLength(w[n..], true); }
      else { UpcaseLength(w[1..], IsWord(w[0])); }
    }
  }

  function Changed(run: string): string {
    if Lower(run) in SQL_KEYWORDS then Upper(run) else run
  }

  /** Of every whole run the keywords are put in upper case, and no other character changes. */
  lemma RunsAreUpcased(w: string, a: nat, b: nat)
    requires IsRun(w, a, b)
    ensures |UpcaseKeywords(w, false)| == |w|
    ensures UpcaseKeywords(w, false)[a..b] == if Lower(w[a..b]) in SQL_KEYWORDS then Upper(w[a..b]) else w[a..b]
  {
    hide UpcaseKeywords, IsRun, SQL_KEYWORDS, Upper, Lower;
    RunChanges(w, false, a, b);
  }

  lemma {:induction false} RunChanges(w: string, afterWord: bool, a: nat, b: nat)
    requires IsRun(w, a, b) && (a == 0 ==> !afterWord)
    ensures a <= b <= |w| == |UpcaseKeywords(w, afterWord)|
    ensures UpcaseKeywords(w, afterWord)[a..b] == Changed(w[a..b])
    decreases |w|
  {
    hide UpcaseKeywords, Changed, Upper, IsKeyword, IsWord;
    UpcaseLength(w, afterWord);
    UpcaseUnfolds(w, afterWord);
    var n := WordEnd(w, 0);
    if a == 0 {
      WordIsWhole(w, 0, b);
      FirstRun(w, b);
    } else if !afterWord && n > 0 && IsKeyword(w[..n]) {
      assert n < a;
      RunBehind(w, n, a, b);
      RunChanges(w[n..], true, a - n, b - n);
      ChangeShifts(w, n, Upper(w[..n]), UpcaseKeywords(w[n..], true), a, b);
    } else {
      RunBehind(w, 1, a, b);
      RunChanges(w[1..], IsWord(w[0]), a - 1, b - 1);
      ChangeShifts(w, 1, [w[0]], UpcaseKeywords(w[1..], IsWord(w[0])), a, b);
    }
  }

  lemma ChangeShifts(w: string, n: nat, head: string, rest: string, a: nat, b: nat)
    requires |head| == n <= a <= b <= |w| && |rest| == |w| - n && rest[a - n..b - n] == Changed(w[n..][a - n..b - n])
    ensures (head + rest)[a..b] == Changed(w[a..b])
  {
    hide Changed;
    SliceBehind(head, rest, a, b);
    SliceBehind(w[..n], w[n..], a, b);
    assert w == w[..n] + w[n..];
  }

  lemma SliceBehind(head: string, rest: string, a: nat, b: nat)
    requires |head| <= a <= b <= |head| + |rest|
    ensures (head + rest)[a..b] == rest[a - |head|..b - |head|]
  {}

  lemma RunBehind(w: string, n: nat, a: nat, b: nat)
    requires IsRun(w, a, b) && 0 < n <= a
    ensures IsRun(w[n..], a - n, b - n)
    ensures a == n ==> !IsWord(w[n - 1])
  {
    hide IsWord;
    var rest := w[n..];
    assert forall k :: 0 <= k < |rest| ==> rest[k] == w[n + k];
  }

  lemma FirstRun(w: string, b: nat)
    requires IsRun(w, 0, b) && WordEnd(w, 0) == b
    ensures |UpcaseKeywords(w, false)| == |w|
    ensures UpcaseKeywords(w, false)[0..b] == Changed(w[0..b])
  {
    hide UpcaseKeywords, SQL_KEYWORDS, Lower, Upper, IsWord;
    UpcaseLength(w, false);
    UpcaseUnfolds(w, false);
    assert w[0..b] == w[..b];
    if !IsKeyword(w[..b]) {
      var p, t := w[1..b], w[b..];
      assert w[1..] == p + t;
      if p == "" { assert p + t == t; } else { UpcasePast(p, t); }
      StaysInFront(w, b, UpcaseKeywords(w[1..], true), UpcaseKeywords(t, true));
    }
  }

  lemma StaysInFront(w: string, b: nat, rest: string, t: string)
    requires 0 < b <= |w| && (b == 1 || rest == w[1..b] + t)
    requires |rest| == |w| - 1
    ensures ([w[0]] + rest)[0..b] == w[..b]
  {
    if b > 1 { assert [w[0]] + rest == w[..b] + t; }
  }

  lemma {:induction false} OthersStay(w: string, afterWord: bool, k: nat)
    requires k < |w| && !IsWord(w[k])
    ensures |UpcaseKeywords(w, afterWord)| == |w| && UpcaseKeywords(w, afterWord)[k] == w[k]
    decreases |w|
  {
    hide UpcaseKeywords, IsKeyword, Upper, IsWord;
    UpcaseLength(w, afterWord);
    UpcaseUnfolds(w, afterWord);
    var n := WordEnd(w, 0);
    if !afterWord && n > 0 && IsKeyword(w[..n]) {
      UpcaseLength(w[n..], true);
      OthersStay(w[n..], true, k - n);
    } else if k > 0 {
      UpcaseLength(w[1..], IsWord(w[0]));
      OthersStay(w[1..], IsWord(w[0]), k - 1);
    }
  }

  // ----- Token by token -----

  predicate SegmentAt(t: string, i: nat) {
    i < |t| && SegmentEnd(t, i).Some?
  }

  /** A keyword in upper case, unless a quote or comment touches it in front or behind; any other token as it is. */
  function Styled(token: string, touched: bool): string {
    if SqlTokenClass(token) == Keyword && !touched then Upper(token) else token
  }

  /** The tokens of the text from the front, without white space, as they are to be written. */
  function RestyledFront(t: string, afterWord: bool, touched: bool): seq<string> {
    if t == "" then []
    else
      var n := FrontLength(t, afterWord);
      if SegmentAt(t, 0) then [t[..n]] + RestyledFront(t[n..], IsWord(t[n - 1]), true)
      else if IsSpace(t[0]) then RestyledFront(t[n..], IsWord(t[n - 1]), false)
      else [Styled(t[..n], touched || SegmentAt(t, n))] + RestyledFront(t[n..], IsWord(t[n - 1]), false)
  }

  /** The same from a place in the text. */
  function Restyled(s: string, i: nat, touched: bool): seq<string>
    requires i <= |s|
    decreases |s| - i
  {
    if i == |s| then []
    else
      var e := TokenEnd(s, i);
      if SegmentAt(s, i) then [s[i..e]] + Restyled(s, e, true)
      else if IsSpace(s[i]) then Restyled(s, e, false)
      else [Styled(s[i..e], touched || SegmentAt(s, e))] + Restyled(s, e, false)
  }

  lemma ShiftSegmentAt(s: string, i: nat, k: nat)
    requires i + k <= |s|
    ensures SegmentAt(s, i + k) == SegmentAt(s[i..], k)
  {
    hide SegmentEnd;
    if i + k < |s| {
      ShiftSegment(s, i + k);
      ShiftSegment(s[i..], k);
      DropOfDrop(s, i, k);
    }
  }

  lemma RestyledUnfolds(s: string, i: nat, touched: bool)
    requires i < |s|
    ensures var e := TokenEnd(s, i);
      Restyled(s, i, touched) ==
      if SegmentAt(s, i) then [s[i..e]] + Restyled(s, e, true)
      else if IsSpace(s[i]) then Restyled(s, e, false)
      else [Styled(s[i..e], touched || SegmentAt(s, e))] + Restyled(s, e, false)
  {
    hide TokenEnd, SegmentAt, IsSpace, Styled;
  }

  lemma RestyledFrontUnfolds(t: string, afterWord: bool, touched: bool)
    requires t != ""
    ensures var n := FrontLength(t, afterWord);
      RestyledFront(t, afterWord, touched) ==
      if SegmentAt(t, 0) then [t[..n]] + RestyledFront(t[n..], IsWord(t[n - 1]), true)
      else if IsSpace(t[0]) then RestyledFront(t[n..], IsWord(t[n - 1]), false)
      else [Styled(t[..n], touched || SegmentAt(t, n))] + RestyledFront(t[n..], IsWord(t[n - 1]), false)
  {
    hide FrontLength, SegmentAt, IsSpace, Styled, IsWord;
  }

  lemma {:induction false} RestyledFromFront(s: string, i: nat, touched: bool)
    requires i <= |s|
    ensures Restyled(s, i, touched) == RestyledFront(s[i..], AfterWord(s, i), touched)
    decreases |s| - i
  {
    hide TokenEnd, FrontLength, IsSpace, IsWord, SegmentAt, Styled, Restyled, RestyledFront;
    if i == |s| {
      RestyledNothing(s, touched);
    } else {
      var t, n := s[i..], FrontLength(s[i..], AfterWord(s, i));
      var e := i + n;
      ShiftToken(s, i);
      ShiftSegmentAt(s, i, 0);
      ShiftSegmentAt(s, i, n);
      assert t[n..] == s[e..] && t[..n] == s[i..e] && t[n - 1] == s[e - 1] && t[0] == s[i];
      RestyledUnfolds(s, i, touched);
      RestyledFrontUnfolds(t, AfterWord(s, i), touched);
      RestyledFromFront(s, e, true);
      RestyledFromFront(s, e, false);
    }
  }

  lemma RestyledNothing(s: string, touched: bool)
    ensures Restyled(s, |s|, touched) == [] == RestyledFront(s[|s|..], AfterWord(s, |s|), touched)
  {}

  lemma SpaceWritesNothing(c: char, rest: string, afterWord: bool, touched: bool)
    requires IsSpace(c)
    ensures RestyledFront([c] + rest, afterWord, touched) == RestyledFront(rest, false, false)
  {
    var t := [c] + rest;
    assert t[1..] == rest;
    SpaceIsNoSegment(t);
    SpaceIsOneToken(t, afterWord);
    ShiftSpace(t, 1, 0);
    if rest != "" && IsSpace(rest[0]) {
      SpaceIsNoSegment(rest);
      SpaceIsOneToken(rest, false);
      var n := SpaceEnd(rest, 0);
      assert rest[n..] == t[n + 1..];
      assert IsSpace(rest[n - 1]);
    }
  }

  lemma SpaceIsNoSegment(t: string)
    requires t != "" && IsSpace(t[0])
    ensures !SegmentAt(t, 0)
  {
    hide QuoteTail, BlockTail, LineEnd;
    SpacesAreNoWords(t[0]);
  }

  // ----- On symbols -----

  /** Every keyword has two letters or more, all of them letters. */
  lemma KeywordsAreWords(token: string)
    requires SqlTokenClass(token) == Keyword
    ensures |token| >= 2 && IsLetter(token[0])
  {
    hide SQL_KEYWORDS, SQL_FUNCTIONS;
    TokenClassIs(token);
    KeywordsAreLonger(Lower(token));
  }

  lemma KeywordsAreLonger(run: string)
    requires run in SQL_KEYWORDS
    ensures |run| >= 2
  {
    if run in KEYWORDS_A_C { LongerAtoC(run); }
    else if run in KEYWORDS_D_F { LongerDtoF(run); }
    else if run in KEYWORDS_G_L { LongerGtoL(run); }
    else if run in KEYWORDS_N_T { LongerNtoT(run); }
    else { LongerUtoW(run); }
  }

  lemma LongerAtoC(run: string)
    requires run in KEYWORDS_A_C
    ensures |run| >= 2
  {}

  lemma LongerDtoF(run: string)
    requires run in KEYWORDS_D_F
    ensures |run| >= 2
  {}

  lemma LongerGtoL(run: string)
    requires run in KEYWORDS_G_L
    ensures |run| >= 2
  {}

  lemma LongerNtoT(run: string)
    requires run in KEYWORDS_N_T
    ensures |run| >= 2
  {}

  lemma LongerUtoW(run: string)
    requires run in KEYWORDS_U_W
    ensures |run| >= 2
  {}

  /** The run at the front is a keyword by itself exactly when its token is one and no hole touches it. */
  lemma ChangesIff(x: seq<Sym>, values: seq<string>, afterText: bool, touched: bool)
    requires Readable(x, values) && Faithful(x, values) && x != [] && x[0].Ch? && !IsSpace(x[0].c)
    ensures var t := Full(x, values);
      t != "" && var n := FrontLength(t, afterText);
      KeywordChanges(x, afterText || touched) <==>
        SqlTokenClass(t[..n]) == Keyword && !touched && !SegmentAt(t, n)
  {
    hide SegmentEnd, Key, IsSpace, IsKeyword, SQL_KEYWORDS, SQL_FUNCTIONS;
    var t := Full(x, values);
    FrontOfText(x, values);
    SpacesAreNoWords(t[0]);
    assert t[0] == x[0].c;
    var n := FrontLength(t, afterText);
    if IsLetter(x[0].c) && !afterText {
      RunInText(x, values);
      var m := WordRun(x);
      LetterToken(t, m);
      assert n == m;
      RenderCharacters(x, values, |values|, m);
      assert t[..m] == Characters(x[..m]);
      FaithfulRest(x, values, m);
      FullDrop(x, values, m);
      HoleIsSegment(x, values, m);
      ClassOfRun(Characters(x[..m]));
    } else if afterText && IsWord(x[0].c) {
      assert n == 1;
      if SqlTokenClass(t[..n]) == Keyword { KeywordsAreWords(t[..n]); }
    } else {
      NoLetterNoKeyword(x, t[..n]);
    }
  }

  lemma LetterToken(t: string, m: nat)
    requires t != "" && IsLetter(t[0]) && WordEnd(t, 0) == m && SegmentEnd(t, 0) == None
    ensures FrontLength(t, false) == m
  {
    hide SegmentEnd, WordEnd;
    assert !IsDigit(t[0]);
    assert NumberEnd(t, 0) == None;
  }

  lemma HoleIsSegment(x: seq<Sym>, values: seq<string>, m: nat)
    requires m <= |x| && Faithful(x[m..], values) && m <= |Full(x, values)|
    requires Full(x, values)[m..] == Full(x[m..], values)
    ensures SegmentAt(Full(x, values), m) <==> m < |x| && x[m].Hole?
  {
    hide SegmentEnd;
    var t := Full(x, values);
    ShiftSegmentAt(t, m, 0);
    assert m + 0 == m;
    if m < |x| { assert FaithfulFront(x[m..], values); }
  }

  lemma ClassOfRun(run: string)
    requires run != "" && IsLetter(run[0])
    ensures SqlTokenClass(run) == Keyword <==> IsKeyword(run)
  {
    hide SQL_KEYWORDS, SQL_FUNCTIONS, Lower;
    TokenClassIs(run);
  }

  lemma NoLetterNoKeyword(x: seq<Sym>, token: string)
    requires x != [] && x[0].Ch? && !IsLetter(x[0].c) && token != "" && token[0] == x[0].c
    ensures !KeywordAt(x) && SqlTokenClass(token) != Keyword
  {
    hide SQL_KEYWORDS, SQL_FUNCTIONS, Lower;
    TokenClassIs(token);
    DigitRunsAreNoKeywords(x);
  }

  lemma LexemesOfFront(x: seq<Sym>, values: seq<string>, afterText: bool, afterWork: bool, n: nat)
    requires FrontSaysSame(x, values, afterText, afterWork, n) && !IsSpace(Full(x, values)[0])
    ensures 0 < n <= |x|
    ensures var t, u := Full(x, values), Full(UpcaseSymbols(x, afterWork), values);
      t != "" && u != "" && var m := FrontLength(t, afterText);
      && t[m..] == Full(x[n..], values)
      && Lexemes(u, afterText) ==
         [if KeywordChanges(x, afterWork) then Upper(t[..m]) else t[..m]] +
         Lexemes(Full(UpcaseSymbols(x[n..], IsWord(t[m - 1]) || x[0].Hole?), values), IsWord(t[m - 1]))
  {
    hide IsSpace, IsWord, FrontLength, Lexemes, Canonical, UpcaseSymbols, Full, KeywordChanges;
    LexFront(Full(UpcaseSymbols(x, afterWork), values), afterText);
  }

  /** The symbol in front tells what the text starts with. */
  lemma FrontKind(x: seq<Sym>, values: seq<string>)
    requires Readable(x, values) && x != [] && Faithful(x, values)
    ensures var t := Full(x, values);
      && t != "" && (SegmentAt(t, 0) <==> x[0].Hole?)
      && (IsSpace(t[0]) <==> x[0].Ch? && IsSpace(x[0].c))
      && (x[0].Ch? ==> t[0] == x[0].c && t == [x[0].c] + Full(x[1..], values))
  {
    hide SegmentEnd, Key;
    FrontOfText(x, values);
    SpacesAreNoWords(Full(x, values)[0]);
  }

  /** Upper-casing symbols writes their tokens as they are to be written. */
  lemma {:induction false} UpcaseWrites(x: seq<Sym>, values: seq<string>, afterText: bool, touched: bool)
    requires Readable(x, values) && Faithful(x, values)
    ensures Lexemes(Full(UpcaseSymbols(x, afterText || touched), values), afterText) ==
            RestyledFront(Full(x, values), afterText, touched)
    decreases |x|
  {
    hide IsSpace, IsWord, Key, Lexemes, UpcaseSymbols, FrontSaysSame,
      KeywordChanges, SegmentAt, RestyledFront, Full, FrontLength, IsValue;
    if x == [] {
      NothingWritten(values, afterText, touched);
    } else {
      var t, afterWork := Full(x, values), afterText || touched;
      FrontKind(x, values);
      if x[0].Ch? && IsSpace(x[0].c) {
        UpcaseSpace(x, values, afterText, afterWork);
        SpaceWritesNothing(x[0].c, Full(x[1..], values), afterText, touched);
        UpcaseWrites(x[1..], values, false, false);
      } else {
        var n := FrontFound(x, values, afterText, afterWork);
        LexemesOfFront(x, values, afterText, afterWork, n);
        RestyledFrontUnfolds(t, afterText, touched);
        FaithfulRest(x, values, n);
        UpcaseWrites(x[n..], values, IsWord(t[FrontLength(t, afterText) - 1]), x[0].Hole?);
        FrontIsStyled(x, values, afterText, touched);
      }
    }
  }

  lemma FrontIsStyled(x: seq<Sym>, values: seq<string>, afterText: bool, touched: bool)
    requires Readable(x, values) && Faithful(x, values) && x != [] && !(x[0].Ch? && IsSpace(x[0].c))
    ensures var t := Full(x, values);
      t != "" && var n := FrontLength(t, afterText);
      (if KeywordChanges(x, afterText || touched) then Upper(t[..n]) else t[..n]) ==
      if x[0].Hole? then t[..n] else Styled(t[..n], touched || SegmentAt(t, n))
  {
    hide IsSpace, FrontLength, SegmentAt, KeywordAt, Upper, SqlTokenClass, Full, Faithful;
    FrontKind(x, values);
    if x[0].Ch? { ChangesIff(x, values, afterText, touched); }
  }

  lemma NothingWritten(values: seq<string>, afterText: bool, touched: bool)
    ensures Lexemes(Full(UpcaseSymbols([], afterText || touched), values), afterText) == []
    ensures RestyledFront(Full([], values), afterText, touched) == []
  {
    assert UpcaseSymbols([], afterText || touched) == [] && Full([], values) == "";
  }

  // ----- The formatter -----

  /** The tokens of a text, without white space. */
  function Spoken(s: string, tokens: seq<Span>): seq<string>
    requires forall sp :: sp in tokens ==> sp.start < sp.end <= |s|
  {
    if tokens == [] then []
    else
      assert tokens[0] in tokens;
      assert forall sp :: sp in tokens[1..] ==> sp in tokens;
      (if IsSpace(s[tokens[0].start]) then [] else [Text(s, tokens[0])]) + Spoken(s, tokens[1..])
  }

  lemma {:induction false} SpokenFromFront(s: string, i: nat)
    requires i <= |s|
    ensures forall sp :: sp in Tokens(s, i) ==> sp.start < sp.end <= |s|
    ensures Spoken(s, Tokens(s, i)) == Lexemes(s[i..], AfterWord(s, i))
    decreases |s| - i
  {
    hide TokenEnd, FrontLength, Lexemes, Spoken, IsSpace, IsWord, Tokens, AfterWord;
    TokensStartLater(s, i);
    TokensUnfold(s, i);
    if i == |s| {
      NothingSpoken(s);
    } else {
      ShiftToken(s, i);
      var t, n := s[i..], FrontLength(s[i..], AfterWord(s, i));
      var e := i + n;
      SpokenFromFront(s, e);
      TokensUnfold(s, e);
      assert t[n..] == s[e..] && t[..n] == s[i..e] && t[n - 1] == s[e - 1] && t[0] == s[i];
      SpokenStep(s, Span(i, e), Tokens(s, e));
      LexemesUnfold(t, AfterWord(s, i));
    }
  }

  lemma TokensUnfold(s: string, i: nat)
    requires i <= |s|
    ensures Tokens(s, i) == if i == |s| then [] else [Span(i, TokenEnd(s, i))] + Tokens(s, TokenEnd(s, i))
    ensures i > 0 ==> AfterWord(s, i) == IsWord(s[i - 1])
  {
    hide TokenEnd;
  }

  lemma NothingSpoken(s: string)
    ensures Spoken(s, []) == [] == Lexemes(s[|s|..], AfterWord(s, |s|))
  {}

  lemma SpokenStep(s: string, sp: Span, rest: seq<Span>)
    requires sp.start < sp.end <= |s|
    requires forall other :: other in rest ==> other.start < other.end <= |s|
    ensures Spoken(s, [sp] + rest) == (if IsSpace(s[sp.start]) then [] else [Text(s, sp)]) + Spoken(s, rest)
  {
    hide IsSpace;
    assert ([sp] + rest)[1..] == rest;
  }

  lemma LexemesUnfold(t: string, afterWord: bool)
    requires t != ""
    ensures var n := FrontLength(t, afterWord);
      Lexemes(t, afterWord) == (if IsSpace(t[0]) then [] else [t[..n]]) + Lexemes(t[n..], IsWord(t[n - 1]))
  {
    hide FrontLength, IsSpace, IsWord;
  }

  /** The tokens of the formatted text are those of the source, in order, keywords in upper case unless a quote or
      comment touches them, and all others as they were. */
  lemma FormattedTokens(s: string)
    requires PlaceholdersAlone(s, 0, 0) && CommentsKept(s, 0, 0)
    ensures var f := FormatSqlText(s);
      && (forall sp :: sp in Tokens(f, 0) ==> sp.start < sp.end <= |f|)
      && Spoken(f, Tokens(f, 0)) == Restyled(s, 0, false)
  {
    hide Faithful, UpcaseSymbols, IsValue, StartsLikeSegment, Lift, Shape, WellShaped,
      LinesEnd, FormatSqlText, Full, Lexemes, PlaceholdersAlone, ShapeLexemes, LaidOut,
      Render, FormattedSymbols, Spoken, RestyledFront, Restyled, Tokens, CommentsKept;
    var source, x, values, f := Symbols(s, 0, 0), FormattedSymbols(s), Values(s, 0), FormatSqlText(s);
    SourceFacts(s);
    UpcasedFacts(s);
    FormattedFacts(s);
    FormatIsRestored(s);
    LinesByComments(s);
    FaithfulByShape(x, true, values);
    LexShape(x, true, values, false);
    LexShape(UpcasedSource(s), true, values, false);
    UpcaseWrites(source, values, false, false);
    RestyledFromFront(s, 0, false);
    SpokenFromFront(f, 0);
    assert s[0..] == s && f[0..] == f;
  }

  predicate KeywordsAreUpper(tokens: seq<string>) {
    forall k :: 0 <= k < |tokens| && SqlTokenClass(tokens[k]) == Keyword ==> tokens[k] == Upper(tokens[k])
  }

  /** Every keyword of the source that a quote or comment touches is in upper case already. */
  predicate TouchedAreUpper(s: string, i: nat, touched: bool)
    requires i <= |s|
    decreases |s| - i
  {
    if i == |s| then true
    else
      var e := TokenEnd(s, i);
      && TouchedAreUpper(s, e, SegmentAt(s, i))
      && (!SegmentAt(s, i) && !IsSpace(s[i]) && (touched || SegmentAt(s, e)) ==> KeywordsAreUpper([s[i..e]]))
  }

  lemma {:induction false} RestyledAreUpper(s: string, i: nat, touched: bool)
    requires i <= |s|
    ensures KeywordsAreUpper(Restyled(s, i, touched)) <==> TouchedAreUpper(s, i, touched)
    decreases |s| - i
  {
    hide TokenEnd, SegmentAt, IsSpace, Restyled, KeywordsAreUpper, Styled;
    if i == |s| {
      RestyledNothing(s, touched);
      NoneIsLower();
    } else {
      var e := TokenEnd(s, i);
      RestyledUnfolds(s, i, touched);
      RestyledAreUpper(s, e, SegmentAt(s, i));
      if SegmentAt(s, i) {
        SegmentIsNoKeyword(s, i);
        OneAndOthers(s[i..e], Restyled(s, e, true));
      } else if !IsSpace(s[i]) {
        var token := Styled(s[i..e], touched || SegmentAt(s, e));
        StyledIsUpper(s[i..e], touched || SegmentAt(s, e));
        OneAndOthers(token, Restyled(s, e, false));
      }
    }
  }

  lemma NoneIsLower()
    ensures KeywordsAreUpper([])
  {}

  lemma OneAndOthers(token: string, rest: seq<string>)
    ensures KeywordsAreUpper([token] + rest) <==> KeywordsAreUpper([token]) && KeywordsAreUpper(rest)
  {
    hide SqlTokenClass, Upper;
    var all := [token] + rest;
    assert forall k :: 0 <= k < |rest| ==> all[k + 1] == rest[k];
    if KeywordsAreUpper(all) {
      assert all[0] == token;
      forall k | 0 <= k < |rest| && SqlTokenClass(rest[k]) == Keyword ensures rest[k] == Upper(rest[k]) {
        assert all[k + 1] == rest[k];
      }
    }
  }

  lemma StyledIsUpper(token: string, touched: bool)
    ensures KeywordsAreUpper([Styled(token, touched)]) <==> touched ==> KeywordsAreUpper([token])
  {
    hide SqlTokenClass;
    UpperIsCaseLike(token);
    assert [token][0] == token && [Styled(token, touched)][0] == Styled(token, touched);
  }

  lemma SegmentIsNoKeyword(s: string, i: nat)
    requires SegmentAt(s, i)
    ensures KeywordsAreUpper([s[i..TokenEnd(s, i)]])
  {
    hide SegmentEnd, SQL_KEYWORDS, SQL_FUNCTIONS, Upper;
    var token := s[i..TokenEnd(s, i)];
    assert token[0] == s[i];
    TokenClassIs(token);
  }

  /** Formatting leaves every keyword in upper case if and only if those that a quote or comment touches were. */
  lemma FormattedKeywordsAreUpper(s: string)
    requires PlaceholdersAlone(s, 0, 0) && CommentsKept(s, 0, 0)
    ensures var f := FormatSqlText(s);
      && (forall sp :: sp in Tokens(f, 0) ==> sp.start < sp.end <= |f|)
      && (KeywordsAreUpper(Spoken(f, Tokens(f, 0))) <==> TouchedAreUpper(s, 0, false))
  {
    hide PlaceholdersAlone, CommentsKept, FormatSqlText, Tokens, Spoken, Restyled, TouchedAreUpper, KeywordsAreUpper;
    FormattedTokens(s);
    RestyledAreUpper(s, 0, false);
  }

  /** A keyword that touches a string stays in lower case. */
  lemma KeywordsCanStayLower()
    ensures var f := FormatSqlText("select'x'");
      && (forall sp :: sp in Tokens(f, 0) ==> sp.start < sp.end <= |f|)
      && !KeywordsAreUpper(Spoken(f, Tokens(f, 0)))
  {
    var s := "select'x'";
    hide FormatSqlText, Tokens, Spoken, KeywordsAreUpper, CommentsKept, PlaceholdersAlone;
    ShortTextHasNoWord(s);
    NoWordStandsAlone(s);
    FirstTouched();
    FormattedKeywordsAreUpper(s);
  }

  lemma FirstTouched()
    ensures CommentsKept("select'x'", 0, 0) && !TouchedAreUpper("select'x'", 0, false)
  {
    hide SegmentEnd, QuoteTail, WordEnd, CommentsKept;
    var s := "select'x'";
    FirstSegments();
    NothingCommented(s, 6);
    FirstWord();
    assert TokenEnd(s, 0) == 6 && s[0..6] == "select";
    SelectIsLower();
  }

  lemma FirstSegments()
    ensures var s := "select'x'"; SegmentEnd(s, 6) == Some(9) && forall i :: 0 <= i < 6 ==> SegmentEnd(s, i) == None
  {
    var s := "select'x'";
    assert QuoteTail(s, 8, '\'') == Some(9);
    assert QuoteTail(s, 7, '\'') == Some(9);
  }

  lemma FirstWord()
    ensures WordEnd("select'x'", 0) == 6
  {
    var s := "select'x'";
    assert WordEnd(s, 6) == 6 && WordEnd(s, 5) == 6 && WordEnd(s, 4) == 6 && WordEnd(s, 3) == 6;
    assert WordEnd(s, 2) == 6 && WordEnd(s, 1) == 6;
  }

  lemma {:induction false} NothingCommented(s: string, n: nat)
    requires n <= |s| && (forall i :: 0 <= i < n ==> SegmentEnd(s, i) == None)
    requires n < |s| && SegmentEnd(s, n) == Some(|s|) && s[n] != '-'
    ensures CommentsKept(s, 0, 0)
  {
    hide SegmentEnd, OpensLine;
    NothingCommentedFrom(s, 0, n);
  }

  lemma {:induction false} NothingCommentedFrom(s: string, i: nat, n: nat)
    requires i <= n < |s| && (forall j :: i <= j < n ==> SegmentEnd(s, j) == None)
    requires SegmentEnd(s, n) == Some(|s|) && s[n] != '-'
    ensures CommentsKept(s, i, 0)
    decreases n - i
  {
    hide SegmentEnd, OpensLine;
    if i < n {
      NothingCommentedFrom(s, i + 1, n);
    } else {
      assert CommentsKept(s, |s|, 1);
    }
  }

  lemma SelectIsLower()
    ensures !KeywordsAreUpper(["select"])
  {
    assert "select" in KEYWORDS_N_T by { assert KEYWORDS_N_T[7] == "select"; }
    assert Lower("select") == "select" && Upper("select")[0] == 'S';
    assert ["select"][0] == "select";
    TokenClassIs("select");
  }
}
