/** Keywords in upper case: the same tokens, saying the same. */
module SqlUpcase {
  import opened Options
  import opened SqlText
  import opened SqlTokens
  import opened SqlProtect
  import opened Printing
  import opened SqlLexemes
  import opened SqlShape
  import opened SqlFormat

  // ----- The replacement on symbols -----

  /** The run of word characters at the front, up to the first hole or other character. */
  function WordRun(x: seq<Sym>): (n: nat)
    ensures n <= |x|
    ensures forall k :: 0 <= k < n ==> x[k].Ch? && IsWord(x[k].c)
    ensures n < |x| && x[n].Ch? ==> !IsWord(x[n].c)
  {
    if x == [] || x[0].Hole? || !IsWord(x[0].c) then 0 else 1 + WordRun(x[1..])
  }

  function Characters(x: seq<Sym>): (t: string)
    requires forall k :: 0 <= k < |x| ==> x[k].Ch?
    ensures |t| == |x| && forall k :: 0 <= k < |x| ==> x[k] == Ch(t[k])
  {
    seq(|x|, k requires 0 <= k < |x| => x[k].c)
  }

  function Symbolic(t: string): (x: seq<Sym>)
    ensures |x| == |t| && forall k :: 0 <= k < |t| ==> x[k] == Ch(t[k])
  {
    seq(|t|, k requires 0 <= k < |t| => Ch(t[k]))
  }

  /** A whole run of word characters, a placeholder not part of it, that spells a keyword. */
  predicate KeywordAt(x: seq<Sym>) {
    var n := WordRun(x);
    n > 0 && !(n < |x| && x[n].Hole?) && IsKeyword(Characters(x[..n]))
  }

  function UpcaseSymbols(x: seq<Sym>, afterWord: bool): seq<Sym> {
    if x == [] then []
    else if x[0].Hole? then [x[0]] + UpcaseSymbols(x[1..], true)
    else
      var n := WordRun(x);
      if !afterWord && KeywordAt(x) then Symbolic(Upper(Characters(x[..n]))) + UpcaseSymbols(x[n..], true)
      else [x[0]] + UpcaseSymbols(x[1..], IsWord(x[0].c))
  }

  lemma UpcaseUnfolds(w: string, afterWord: bool)
    requires w != ""
    ensures var n := WordEnd(w, 0);
      UpcaseKeywords(w, afterWord) ==
        if !afterWord && n > 0 && IsKeyword(w[..n]) then Upper(w[..n]) + UpcaseKeywords(w[n..], true)
        else [w[0]] + UpcaseKeywords(w[1..], IsWord(w[0]))
  {
    hide IsKeyword, IsWord, Upper;
  }

  lemma KeyIsLongWord(k: nat)
    ensures |Key(k)| > 9 && forall d :: 0 <= d < |Key(k)| ==> IsWord(Key(k)[d])
  {
    var key, d := Key(k), Digits(k);
    var n := |STEM|;
    forall p | 0 <= p < |key|
      ensures IsWord(key[p])
    {
      if p < n { assert key[p] == STEM[p]; StemIsWord(p); }
      else if p < n + |d| { assert key[p] == d[p - n]; }
    }
  }

  lemma StemIsWord(p: nat)
    requires p < |STEM|
    ensures IsWord(STEM[p])
  {}

  lemma LongRunsAreNoKeywords(run: string)
    requires |run| > 9
    ensures !IsKeyword(run)
  {
    if IsKeyword(run) { KeywordsAreShortWords(Lower(run)); }
  }

  lemma {:induction false} WordEndPast(p: string, t: string)
    requires forall k :: 0 <= k < |p| ==> IsWord(p[k])
    ensures WordEnd(p + t, 0) == |p| + WordEnd(t, 0)
  {
    if p == "" {
      assert p + t == t;
    } else {
      WordEndPast(p[1..], t);
      ShiftWord(p + t, 1, 0);
      assert (p + t)[1..] == p[1..] + t;
    }
  }

  /** In the middle of a run of word characters nothing changes. */
  lemma {:induction false} UpcasePast(p: string, t: string)
    requires p != "" && forall k :: 0 <= k < |p| ==> IsWord(p[k])
    ensures UpcaseKeywords(p + t, true) == p + UpcaseKeywords(t, true)
  {
    hide IsWord, IsKeyword, WordEnd;
    assert (p + t)[1..] == p[1..] + t;
    if |p| == 1 {
      assert p[1..] + t == t;
    } else {
      UpcasePast(p[1..], t);
    }
  }

  /** A placeholder is left alone, and so is whatever word it is part of. */
  lemma UpcaseKey(k: nat, t: string, afterWord: bool)
    ensures UpcaseKeywords(Key(k) + t, afterWord) == Key(k) + UpcaseKeywords(t, true)
  {
    hide IsWord, IsKeyword, Key, WordEnd;
    var key := Key(k);
    KeyIsLongWord(k);
    WordEndPast(key, t);
    LongRunsAreNoKeywords((key + t)[..WordEnd(key + t, 0)]);
    assert (key + t)[1..] == key[1..] + t;
    UpcasePast(key[1..], t);
    assert IsWord(key[0]);
  }

  lemma {:induction false} RenderCharacters(x: seq<Sym>, values: seq<string>, i: nat, n: nat)
    requires n <= |x| && forall k :: 0 <= k < n ==> x[k].Ch?
    ensures Render(x, values, i) == Characters(x[..n]) + Render(x[n..], values, i)
  {
    hide Render, Characters;
    if n == 0 {
      assert x[0..] == x && x[..0] == [];
      NoCharacters(Render(x, values, i));
    } else {
      RenderCharacters(x[1..], values, i, n - 1);
      assert x[1..][n - 1..] == x[n..] && x[1..][..n - 1] == x[..n][1..];
      RenderOne(x, values, i);
      CharactersOne(x[..n], Render(x[n..], values, i));
    }
  }

  lemma NoCharacters(rest: string)
    ensures Characters([]) + rest == rest
  {}

  lemma RenderOne(x: seq<Sym>, values: seq<string>, i: nat)
    requires x != [] && x[0].Ch?
    ensures Render(x, values, i) == [x[0].c] + Render(x[1..], values, i)
  {}

  lemma CharactersOne(x: seq<Sym>, rest: string)
    requires x != [] && forall k :: 0 <= k < |x| ==> x[k].Ch?
    ensures Characters(x) + rest == [x[0].c] + (Characters(x[1..]) + rest)
  {
    assert Characters(x) == [x[0].c] + Characters(x[1..]);
  }

  lemma RenderSymbolic(t: string, x: seq<Sym>, values: seq<string>, i: nat)
    ensures Render(Symbolic(t) + x, values, i) == t + Render(x, values, i)
  {
    var all := Symbolic(t) + x;
    RenderCharacters(all, values, i, |t|);
    assert all[|t|..] == x;
    assert Characters(all[..|t|]) == t;
  }

  /** How a run of characters goes on in the work text: past its end only with a placeholder. */
  lemma RunInWork(x: seq<Sym>, values: seq<string>)
    requires x != [] && x[0].Ch?
    ensures var w, n := Render(x, values, 0), WordRun(x);
            && n <= WordEnd(w, 0)
            && (n > 0 && n < |x| && x[n].Hole? ==> WordEnd(w, 0) > 9)
            && (!(n < |x| && x[n].Hole?) ==> WordEnd(w, 0) == n && n <= |w| && w[..n] == Characters(x[..n]))
  {
    hide IsWord, Key;
    var w, n := Render(x, values, 0), WordRun(x);
    var run, rest := Characters(x[..n]), Render(x[n..], values, 0);
    RenderCharacters(x, values, 0, n);
    forall k | 0 <= k < |run|
      ensures IsWord(run[k])
    {
      assert x[k].Ch? && IsWord(x[k].c);
    }
    WordEndPast(run, rest);
    if n < |x| && x[n].Hole? {
      KeyIsLongWord(x[n].k);
      WordEndPast(Key(x[n].k), Render(x[n..][1..], values, 0));
    } else if n < |x| {
      assert rest[0] == x[n].c;
    }
  }

  /** Upper-casing the work text is upper-casing its symbols. */
  lemma {:induction false} UpcaseRendered(x: seq<Sym>, values: seq<string>, afterWord: bool)
    ensures UpcaseKeywords(Render(x, values, 0), afterWord) == Render(UpcaseSymbols(x, afterWord), values, 0)
    decreases |x|
  {
    hide IsWord, Key, WordRun, WordEnd, IsKeyword, KeywordAt, Characters, Symbolic, Upper;
    if x != [] {
      var w := Render(x, values, 0);
      if x[0].Hole? {
        UpcaseKey(x[0].k, Render(x[1..], values, 0), afterWord);
        UpcaseRendered(x[1..], values, true);
        assert ([x[0]] + UpcaseSymbols(x[1..], true))[1..] == UpcaseSymbols(x[1..], true);
      } else if !afterWord && KeywordAt(x) {
        var n := WordRun(x);
        KeywordInWork(x, values);
        UpcaseRendered(x[n..], values, true);
        RenderSymbolic(Upper(Characters(x[..n])), UpcaseSymbols(x[n..], true), values, 0);
      } else {
        if !afterWord { NoKeywordInWork(x, values); }
        UpcaseRendered(x[1..], values, IsWord(x[0].c));
        assert w == [x[0].c] + Render(x[1..], values, 0);
        assert ([x[0]] + UpcaseSymbols(x[1..], IsWord(x[0].c)))[1..] == UpcaseSymbols(x[1..], IsWord(x[0].c));
      }
    }
  }

  lemma KeywordInWork(x: seq<Sym>, values: seq<string>)
    requires x != [] && x[0].Ch? && KeywordAt(x)
    ensures var w, n := Render(x, values, 0), WordRun(x);
            && WordEnd(w, 0) == n && 0 < n <= |w| && IsKeyword(w[..n])
            && w[..n] == Characters(x[..n]) && w[n..] == Render(x[n..], values, 0)
  {
    hide IsWord, Key, IsKeyword;
    RunInWork(x, values);
    RenderCharacters(x, values, 0, WordRun(x));
  }

  lemma NoKeywordInWork(x: seq<Sym>, values: seq<string>)
    requires x != [] && x[0].Ch? && !KeywordAt(x)
    ensures var w := Render(x, values, 0);
            !(WordEnd(w, 0) > 0 && IsKeyword(w[..WordEnd(w, 0)]))
  {
    hide IsWord, Key, IsKeyword;
    var w, n := Render(x, values, 0), WordRun(x);
    RunInWork(x, values);
    if n < |x| && x[n].Hole? { LongRunsAreNoKeywords(w[..WordEnd(w, 0)]); }
  }

  // ----- Texts that differ only in the case of letters -----

  predicate CaseLike(s: string, t: string) {
    |s| == |t| && forall k :: 0 <= k < |s| ==> LowerChar(s[k]) == LowerChar(t[k])
  }

  lemma SameKind(c: char, d: char)
    requires LowerChar(c) == LowerChar(d)
    ensures IsWord(c) == IsWord(d) && IsDigit(c) == IsDigit(d) && IsLetter(c) == IsLetter(d) && IsSpace(c) == IsSpace(d)
    ensures !IsLetter(c) ==> c == d
    ensures UpperChar(c) == UpperChar(d)
  {}

  lemma {:induction false} CaseLine(s: string, t: string, i: nat)
    requires CaseLike(s, t) && i <= |s|
    ensures LineEnd(s, i) == LineEnd(t, i)
    decreases |s| - i
  {
    hide IsSpace;
    if i < |s| {
      SameKind(s[i], t[i]);
      CaseLine(s, t, i + 1);
    }
  }

  lemma {:induction false} CaseBlock(s: string, t: string, i: nat)
    requires CaseLike(s, t) && i <= |s|
    ensures BlockTail(s, i) == BlockTail(t, i)
    decreases |s| - i
  {
    hide IsSpace;
    if i < |s| {
      SameKind(s[i], t[i]);
      if i + 1 < |s| { SameKind(s[i + 1], t[i + 1]); }
      CaseBlock(s, t, i + 1);
    }
  }

  lemma {:induction false} CaseQuote(s: string, t: string, i: nat, q: char)
    requires CaseLike(s, t) && i <= |s| && !IsLetter(q)
    ensures QuoteTail(s, i, q) == QuoteTail(t, i, q)
    decreases |s| - i
  {
    hide IsSpace;
    if i < |s| {
      SameKind(s[i], t[i]);
      if s[i] != q {
        CaseQuote(s, t, i + 1, q);
      } else if i + 1 < |s| {
        SameKind(s[i + 1], t[i + 1]);
        if s[i + 1] == q { CaseQuote(s, t, i + 2, q); }
      }
    }
  }

  lemma CaseSegment(s: string, t: string)
    requires CaseLike(s, t) && s != ""
    ensures SegmentEnd(s, 0) == SegmentEnd(t, 0)
  {
    hide IsSpace, QuoteTail, BlockTail, LineEnd, LowerChar;
    SameKind(s[0], t[0]);
    if |s| > 1 {
      SameKind(s[1], t[1]);
      CaseLine(s, t, 2);
      CaseBlock(s, t, 2);
    }
    CaseQuote(s, t, 1, '\'');
    CaseQuote(s, t, 1, '"');
  }

  lemma {:induction false} CaseDigits(s: string, t: string, i: nat)
    requires CaseLike(s, t) && i <= |s|
    ensures DigitsEnd(s, i) == DigitsEnd(t, i)
    decreases |s| - i
  {
    hide IsSpace;
    if i < |s| {
      SameKind(s[i], t[i]);
      CaseDigits(s, t, i + 1);
    }
  }

  lemma {:induction false} CaseWord(s: string, t: string, i: nat)
    requires CaseLike(s, t) && i <= |s|
    ensures WordEnd(s, i) == WordEnd(t, i)
    decreases |s| - i
  {
    hide IsSpace;
    if i < |s| {
      SameKind(s[i], t[i]);
      CaseWord(s, t, i + 1);
    }
  }

  lemma {:induction false} CaseSpace(s: string, t: string, i: nat)
    requires CaseLike(s, t) && i <= |s|
    ensures SpaceEnd(s, i) == SpaceEnd(t, i)
    decreases |s| - i
  {
    hide IsSpace;
    if i < |s| {
      SameKind(s[i], t[i]);
      CaseSpace(s, t, i + 1);
    }
  }

  lemma CaseBoundary(s: string, t: string, i: nat)
    requires CaseLike(s, t) && i <= |s|
    ensures Boundary(s, i) == Boundary(t, i)
  {
    hide IsSpace;
    if i > 0 { SameKind(s[i - 1], t[i - 1]); }
    if i < |s| { SameKind(s[i], t[i]); }
  }

  lemma CaseFront(s: string, t: string, afterWord: bool)
    requires CaseLike(s, t) && s != ""
    ensures FrontLength(s, afterWord) == FrontLength(t, afterWord)
  {
    hide IsSpace, SegmentEnd, Boundary, DigitsEnd, WordEnd, SpaceEnd, LowerChar;
    SameKind(s[0], t[0]);
    CaseSegment(s, t);
    CaseBoundary(s, t, 0);
    CaseDigits(s, t, 0);
    var whole := DigitsEnd(s, 0);
    CaseBoundary(s, t, whole);
    if whole < |s| {
      SameKind(s[whole], t[whole]);
      CaseDigits(s, t, whole + 1);
      CaseBoundary(s, t, DigitsEnd(s, whole + 1));
    }
    CaseWord(s, t, 0);
    CaseSpace(s, t, 0);
  }

  lemma CaseConcat(a: string, b: string, s: string, t: string)
    requires CaseLike(a, b) && CaseLike(s, t)
    ensures CaseLike(a + s, b + t)
  {
    hide LowerChar;
  }

  lemma UpperIsCaseLike(t: string)
    ensures CaseLike(t, Upper(t))
    ensures Upper(Upper(t)) == Upper(t) && Lower(Upper(t)) == Lower(t)
  {}

  lemma KeywordRunIsLong(x: seq<Sym>)
    requires KeywordAt(x)
    ensures WordRun(x) > 0 && x[0].Ch?
  {}

  lemma {:induction false} UpcaseIsCaseLike(x: seq<Sym>, values: seq<string>, afterWord: bool)
    ensures CaseLike(Full(x, values), Full(UpcaseSymbols(x, afterWord), values))
    decreases |x|
  {
    hide IsWord, Key, WordRun, KeywordAt, Characters, Symbolic, Upper, LowerChar;
    if x != [] {
      var part, y := RenderSym(x[0], values, |values|), UpcaseSymbols(x, afterWord);
      if x[0].Ch? && !afterWord && KeywordAt(x) {
        var n := WordRun(x);
        var run := Characters(x[..n]);
        KeywordRunIsLong(x);
        UpcaseIsCaseLike(x[n..], values, true);
        RenderCharacters(x, values, |values|, n);
        RenderSymbolic(Upper(run), UpcaseSymbols(x[n..], true), values, |values|);
        UpperIsCaseLike(run);
        CaseConcat(run, Upper(run), Full(x[n..], values), Full(UpcaseSymbols(x[n..], true), values));
      } else {
        var next := x[0].Hole? || IsWord(x[0].c);
        var rest := UpcaseSymbols(x[1..], next);
        assert y == [x[0]] + rest;
        assert y[1..] == rest;
        UpcaseIsCaseLike(x[1..], values, next);
        CaseConcat(part, part, Full(x[1..], values), Full(rest, values));
      }
    }
  }

  // ----- Which symbols stay -----

  /** Behind a word character the rest of the run stays. */
  lemma {:induction false} RunStays(x: seq<Sym>, n: nat)
    requires n <= WordRun(x)
    ensures UpcaseSymbols(x, true) == x[..n] + UpcaseSymbols(x[n..], true)
  {
    hide IsWord, KeywordAt;
    if n == 0 {
      assert x[0..] == x;
    } else {
      RunStays(x[1..], n - 1);
      PrependStays(x, n, UpcaseSymbols(x[n..], true));
    }
  }

  lemma PrependStays(x: seq<Sym>, n: nat, rest: seq<Sym>)
    requires 0 < n <= |x|
    ensures [x[0]] + (x[1..][..n - 1] + rest) == x[..n] + rest
    ensures x[1..][n - 1..] == x[n..]
  {
    assert x[..n] == [x[0]] + x[1..][..n - 1];
    ConcatAssociates([x[0]], x[1..][..n - 1], rest);
  }

  /** The front of a run stays when the run is no keyword. */
  lemma OtherRunStays(x: seq<Sym>, afterWord: bool, n: nat)
    requires 0 < n <= WordRun(x)
    requires afterWord || !KeywordAt(x)
    ensures UpcaseSymbols(x, afterWord) == x[..n] + UpcaseSymbols(x[n..], true)
  {
    hide IsWord, KeywordAt;
    RunStays(x[1..], n - 1);
    PrependStays(x, n, UpcaseSymbols(x[n..], true));
  }

  lemma DigitRunsAreNoKeywords(x: seq<Sym>)
    requires x != [] && x[0].Ch? && !IsLetter(x[0].c)
    ensures !KeywordAt(x)
  {
    var run := Characters(x[..WordRun(x)]);
    assert run != "" ==> Lower(run)[0] == LowerChar(x[0].c);
    if KeywordAt(x) { KeywordsAreShortWords(Lower(run)); }
  }

  /** The front of the text, as far as it holds only word characters and dots, is made of the first symbols. */
  lemma {:induction false} FrontIsSymbols(x: seq<Sym>, values: seq<string>, n: nat)
    requires HolesIn(x, values) && n <= |Full(x, values)|
    requires forall k :: 0 <= k < |values| ==> StartsLikeSegment(values[k])
    requires forall k :: 0 <= k < n ==> IsWord(Full(x, values)[k]) || Full(x, values)[k] == '.'
    ensures n <= |x| && forall k :: 0 <= k < n ==> x[k] == Ch(Full(x, values)[k])
  {
    hide Key;
    if n > 0 {
      var t := Full(x, values);
      FrontOfText(x, values);
      assert x[0].Ch?;
      assert t[1..] == Full(x[1..], values);
      FrontIsSymbols(x[1..], values, n - 1);
      assert forall k :: 0 < k < n ==> x[k] == x[1..][k - 1] && t[k] == t[1..][k - 1];
    }
  }

  lemma {:induction false} RunLength(x: seq<Sym>, n: nat)
    requires n <= |x| && forall k :: 0 <= k < n ==> x[k].Ch? && IsWord(x[k].c)
    ensures n <= WordRun(x)
    ensures (n < |x| ==> x[n].Hole? || !IsWord(x[n].c)) ==> WordRun(x) == n
  {
    hide IsWord;
    if n > 0 {
      RunLength(x[1..], n - 1);
      assert n < |x| ==> x[1..][n - 1] == x[n];
    }
  }

  // ----- The meaning stays -----

  /** The run at the front is a keyword by itself. */
  predicate KeywordChanges(x: seq<Sym>, afterWork: bool) {
    x != [] && x[0].Ch? && !afterWork && KeywordAt(x)
  }

  /** The front token of a text and of its upper-cased form: as many
      symbols, the same saying, and the rest goes on alike. */
  ghost predicate FrontSaysSame(x: seq<Sym>, values: seq<string>, afterText: bool, afterWork: bool, n: nat) {
    var y := UpcaseSymbols(x, afterWork);
    var t, u := Full(x, values), Full(y, values);
    && 0 < n <= |x|
    && t != "" && u != ""
    && var m := FrontLength(t, afterText);
       && FrontLength(u, afterText) == m
       && t[m..] == Full(x[n..], values)
       && IsWord(t[m - 1]) == IsWord(u[m - 1])
       && IsSpace(t[0]) == IsSpace(u[0])
       && Canonical(t[..m]) == Canonical(u[..m])
       && u[..m] == (if KeywordChanges(x, afterWork) then Upper(t[..m]) else t[..m])
       && u[m..] == Full(UpcaseSymbols(x[n..], IsWord(t[m - 1]) || x[0].Hole?), values)
  }

  lemma UpcaseFront(x: seq<Sym>, values: seq<string>, afterText: bool, afterWork: bool)
    requires HolesIn(x, values) && x != []
    requires forall k :: 0 <= k < |values| ==> StartsLikeSegment(values[k])
    ensures var t, u := Full(x, values), Full(UpcaseSymbols(x, afterWork), values);
            && t != "" && u != "" && CaseLike(t, u)
            && FrontLength(u, afterText) == FrontLength(t, afterText)
            && IsSpace(t[0]) == IsSpace(u[0])
            && var m := FrontLength(t, afterText);
               IsWord(t[m - 1]) == IsWord(u[m - 1])
  {
    hide IsWord, IsSpace, FrontLength, UpcaseSymbols, LowerChar, Key;
    var t, u := Full(x, values), Full(UpcaseSymbols(x, afterWork), values);
    FrontOfText(x, values);
    UpcaseIsCaseLike(x, values, afterWork);
    CaseFront(t, u, afterText);
    SameKind(t[0], u[0]);
    SameKind(t[FrontLength(t, afterText) - 1], u[FrontLength(t, afterText) - 1]);
  }

  /** Two lists of symbols with the same `n` characters in front. */
  lemma SameCharacters(x: seq<Sym>, y: seq<Sym>, values: seq<string>, n: nat)
    requires 0 < n <= |x| && n <= |y| && y[..n] == x[..n] && forall k :: 0 <= k < n ==> x[k].Ch?
    ensures var t, u := Full(x, values), Full(y, values);
      && n <= |t| && n <= |u| && t[..n] == u[..n] && t[n - 1] == x[n - 1].c
      && t[n..] == Full(x[n..], values) && u[n..] == Full(y[n..], values)
  {
    hide Render;
    RenderCharacters(x, values, |values|, n);
    assert forall k :: 0 <= k < n ==> y[..n][k] == x[..n][k];
    RenderCharacters(y, values, |values|, n);
    assert |Characters(x[..n])| == n && Characters(x[..n])[n - 1] == x[n - 1].c;
  }

  /** The first `n` symbols are characters, make up the front token, and stay as they are. */
  lemma StayingFront(x: seq<Sym>, values: seq<string>, afterText: bool, afterWork: bool, n: nat)
    requires HolesIn(x, values) && 0 < n <= |x|
    requires forall k :: 0 <= k < |values| ==> StartsLikeSegment(values[k])
    requires forall k :: 0 <= k < n ==> x[k].Ch?
    requires Full(x, values) != "" && FrontLength(Full(x, values), afterText) == n
    requires UpcaseSymbols(x, afterWork) == x[..n] + UpcaseSymbols(x[n..], IsWord(x[n - 1].c))
    requires !KeywordChanges(x, afterWork)
    ensures FrontSaysSame(x, values, afterText, afterWork, n)
  {
    hide IsWord, IsSpace, FrontLength, UpcaseSymbols, Canonical, Key,
      KeywordChanges, Full, HolesIn, Upper, StartsLikeSegment, CaseLike;
    var y := UpcaseSymbols(x, afterWork);
    UpcaseFront(x, values, afterText, afterWork);
    assert y[..n] == x[..n] && y[n..] == UpcaseSymbols(x[n..], IsWord(x[n - 1].c));
    SameCharacters(x, y, values, n);
  }

  lemma StaysOne(x: seq<Sym>, afterWord: bool)
    requires x != [] && x[0].Ch? && (afterWord || !KeywordAt(x))
    ensures UpcaseSymbols(x, afterWord) == x[..1] + UpcaseSymbols(x[1..], IsWord(x[0].c))
  {
    hide IsWord, KeywordAt;
  }

  /** A character in the middle of a word, or one that is no word character and no white space, is a token by itself. */
  lemma SingleFront(x: seq<Sym>, values: seq<string>, afterText: bool, afterWork: bool)
    requires HolesIn(x, values) && x != [] && x[0].Ch? && !IsSpace(x[0].c)
    requires forall k :: 0 <= k < |values| ==> StartsLikeSegment(values[k])
    requires FaithfulFront(x, values) && (afterText ==> afterWork)
    requires afterText || !IsWord(x[0].c)
    ensures FrontSaysSame(x, values, afterText, afterWork, 1)
  {
    hide IsSpace, SegmentEnd, Key;
    FrontOfText(x, values);
    if !IsWord(x[0].c) { DigitRunsAreNoKeywords(x); }
    StaysOne(x, afterWork);
    StayingFront(x, values, afterText, afterWork, 1);
  }

  /** A token that starts with a digit: a number, or one digit of a longer word. */
  lemma NumberFront(x: seq<Sym>, values: seq<string>, afterWork: bool) returns (n: nat)
    requires HolesIn(x, values) && x != [] && x[0].Ch? && IsDigit(x[0].c)
    requires forall k :: 0 <= k < |values| ==> StartsLikeSegment(values[k])
    requires FaithfulFront(x, values)
    ensures FrontSaysSame(x, values, false, afterWork, n)
    ensures forall k :: 0 <= k < n ==> x[k].Ch?
  {
    hide IsSpace, SegmentEnd, Key, FrontSaysSame, KeywordAt;
    var t := Full(x, values);
    FrontOfText(x, values);
    SpacesAreNoWords(t[0]);
    DigitRunsAreNoKeywords(x);
    var whole := DigitsEnd(t, 0);
    FrontIsSymbols(x, values, whole);
    RunLength(x, whole);
    if NumberEnd(t, 0).None? {
      n := 1;
      StaysOne(x, afterWork);
    } else if NumberEnd(t, 0) == Some(whole) {
      n := whole;
      OtherRunStays(x, afterWork, n);
    } else {
      n := NumberEnd(t, 0).value;
      FrontIsSymbols(x, values, n);
      FractionStays(x, afterWork, whole, n);
    }
    StayingFront(x, values, false, afterWork, n);
  }

  lemma FractionStays(x: seq<Sym>, afterWork: bool, whole: nat, n: nat)
    requires 0 < whole < whole + 1 < n <= |x|
    requires forall k :: 0 <= k < n ==> x[k].Ch?
    requires forall k :: 0 <= k < n && k != whole ==> IsDigit(x[k].c)
    requires x[whole] == Ch('.')
    ensures UpcaseSymbols(x, afterWork) == x[..n] + UpcaseSymbols(x[n..], IsWord(x[n - 1].c))
  {
    hide KeywordAt, UpcaseSymbols, WordRun;
    var dot, fraction, m := x[whole..], x[whole + 1..], n - whole - 1;
    var rest := UpcaseSymbols(x[n..], true);
    DigitRunsAreNoKeywords(x);
    RunLength(x, whole);
    OtherRunStays(x, afterWork, whole);
    DotStays(dot);
    assert dot[1..] == fraction;
    assert forall k :: 0 <= k < m ==> fraction[k] == x[whole + 1 + k];
    DigitRunsAreNoKeywords(fraction);
    RunLength(fraction, m);
    OtherRunStays(fraction, false, m);
    assert fraction[m..] == x[n..];
    JoinFraction(x, whole, n, rest);
  }

  lemma DotStays(x: seq<Sym>)
    requires x != [] && x[0] == Ch('.')
    ensures UpcaseSymbols(x, true) == x[..1] + UpcaseSymbols(x[1..], false)
  {
    hide KeywordAt;
  }

  lemma JoinFraction(x: seq<Sym>, whole: nat, n: nat, rest: seq<Sym>)
    requires whole < n <= |x|
    ensures x[..whole] + (x[whole..][..1] + (x[whole + 1..][..n - whole - 1] + rest)) == x[..n] + rest
  {
    var a, b, c := x[..whole], x[whole..][..1], x[whole + 1..][..n - whole - 1];
    assert x[..n] == a + (b + c);
    ConcatAssociates(b, c, rest);
    ConcatAssociates(a, b + c, rest);
  }

  lemma RunInText(x: seq<Sym>, values: seq<string>)
    requires HolesIn(x, values) && x != [] && x[0].Ch?
    requires forall k :: 0 <= k < |values| ==> StartsLikeSegment(values[k])
    ensures WordEnd(Full(x, values), 0) == WordRun(x)
  {
    hide IsWord, Key;
    var n := WordRun(x);
    var run, rest := Characters(x[..n]), Full(x[n..], values);
    RenderCharacters(x, values, |values|, n);
    forall k | 0 <= k < |run|
      ensures IsWord(run[k])
    {
      assert x[k].Ch? && IsWord(x[k].c);
    }
    WordEndPast(run, rest);
    if n < |x| {
      FrontOfText(x[n..], values);
      if x[n].Hole? { BreaksStop(rest[0]); }
    }
  }

  /** A whole word that is no keyword, or that touches a placeholder. */
  lemma OtherWordFront(x: seq<Sym>, values: seq<string>, afterWork: bool)
    requires HolesIn(x, values) && x != [] && x[0].Ch? && IsLetter(x[0].c)
    requires forall k :: 0 <= k < |values| ==> StartsLikeSegment(values[k])
    requires FaithfulFront(x, values) && (afterWork || !KeywordAt(x))
    ensures FrontSaysSame(x, values, false, afterWork, WordRun(x))
  {
    hide SegmentEnd, Key, FrontSaysSame, KeywordAt, UpcaseSymbols;
    FrontOfText(x, values);
    SpacesAreNoWords(x[0].c);
    RunInText(x, values);
    OtherRunStays(x, afterWork, WordRun(x));
    StayingFront(x, values, false, afterWork, WordRun(x));
  }

  lemma KeywordSaysSame(run: string)
    requires IsKeyword(run) && run != "" && IsLetter(run[0])
    ensures Canonical(run) == Canonical(Upper(run))
  {
    UpperIsCaseLike(run);
    SameKind(run[0], Upper(run)[0]);
    KeywordClass(run);
    KeywordClass(Upper(run));
  }

  lemma KeywordClass(run: string)
    requires IsKeyword(run) && run != "" && IsLetter(run[0])
    ensures SqlTokenClass(run) == Keyword
  {
    hide SQL_KEYWORDS, SQL_FUNCTIONS, Lower;
  }

  /** A keyword changes its case and nothing else. */
  lemma KeywordFront(x: seq<Sym>, values: seq<string>)
    requires HolesIn(x, values) && x != [] && x[0].Ch? && IsLetter(x[0].c)
    requires forall k :: 0 <= k < |values| ==> StartsLikeSegment(values[k])
    requires FaithfulFront(x, values) && KeywordAt(x)
    ensures FrontSaysSame(x, values, false, false, WordRun(x))
  {
    hide SegmentEnd, Key, UpcaseSymbols, IsKeyword, Canonical, IsSpace;
    var n := WordRun(x);
    var run := Characters(x[..n]);
    var t, rest := Full(x, values), UpcaseSymbols(x[n..], true);
    FrontOfText(x, values);
    SpacesAreNoWords(x[0].c);
    RunInText(x, values);
    KeywordUnfolds(x);
    UpcaseFront(x, values, false, false);
    RenderCharacters(x, values, |values|, n);
    RenderSymbolic(Upper(run), rest, values, |values|);
    var u := Full(UpcaseSymbols(x, false), values);
    assert t[..n] == run && t[n..] == Full(x[n..], values);
    assert u[..n] == Upper(run) && u[n..] == Full(rest, values);
    KeywordSaysSame(run);
    assert IsWord(t[n - 1]);
  }

  lemma KeywordUnfolds(x: seq<Sym>)
    requires x != [] && x[0].Ch? && KeywordAt(x)
    ensures UpcaseSymbols(x, false) ==
      Symbolic(Upper(Characters(x[..WordRun(x)]))) + UpcaseSymbols(x[WordRun(x)..], true)
    ensures IsKeyword(Characters(x[..WordRun(x)]))
  {
    hide IsWord, IsKeyword, Upper;
  }

  lemma UpcaseNothing(values: seq<string>, afterText: bool, afterWork: bool)
    ensures Full([], values) == Full(UpcaseSymbols([], afterWork), values)
  {}

  lemma UpcaseSpace(x: seq<Sym>, values: seq<string>, afterText: bool, afterWork: bool)
    requires x != [] && x[0].Ch? && IsSpace(x[0].c)
    ensures Lexemes(Full(x, values), afterText) == Lexemes(Full(x[1..], values), false)
    ensures Lexemes(Full(UpcaseSymbols(x, afterWork), values), afterText) ==
            Lexemes(Full(UpcaseSymbols(x[1..], false), values), false)
  {
    hide IsSpace, Lexemes;
    var rest := UpcaseSymbols(x[1..], false);
    SpacesAreNoWords(x[0].c);
    assert UpcaseSymbols(x, afterWork) == [x[0]] + rest;
    assert ([x[0]] + rest)[1..] == rest;
    assert Full(x, values) == [x[0].c] + Full(x[1..], values);
    assert Full([x[0]] + rest, values) == [x[0].c] + Full(rest, values);
    SpaceSaysNothing(x[0].c, Full(x[1..], values), afterText);
    SpaceSaysNothing(x[0].c, Full(rest, values), afterText);
  }

  lemma HoleFront(x: seq<Sym>, values: seq<string>, afterText: bool, afterWork: bool)
    requires HolesIn(x, values) && x != [] && x[0].Hole?
    requires forall k :: 0 <= k < |values| ==> StartsLikeSegment(values[k])
    requires FaithfulFront(x, values)
    ensures FrontSaysSame(x, values, afterText, afterWork, 1)
  {
    hide IsSpace, IsWord, SegmentEnd, Canonical;
    var v, t, rest := TextOf(x[0], values), Full(x, values), UpcaseSymbols(x[1..], true);
    var u := Full(UpcaseSymbols(x, afterWork), values);
    UpcaseFront(x, values, afterText, afterWork);
    assert UpcaseSymbols(x, afterWork) == [x[0]] + rest;
    assert ([x[0]] + rest)[1..] == rest;
    assert t == v + Full(x[1..], values) && u == v + Full(rest, values);
    assert t[..|v|] == v == u[..|v|];
    assert t[|v|..] == Full(x[1..], values) && u[|v|..] == Full(rest, values);
  }

  lemma WordIsLetterOrDigit(c: char)
    ensures IsWord(c) ==> IsLetter(c) || IsDigit(c)
  {}

  lemma SameFrontSame(x: seq<Sym>, values: seq<string>, afterText: bool, afterWork: bool, n: nat)
    requires FrontSaysSame(x, values, afterText, afterWork, n)
    ensures 0 < n <= |x|
    ensures var t := Full(x, values);
            && t != ""
            && var last := IsWord(t[FrontLength(t, afterText) - 1]);
               Canonicals(Lexemes(Full(x[n..], values), last)) ==
               Canonicals(Lexemes(Full(UpcaseSymbols(x[n..], last || x[0].Hole?), values), last)) ==>
               Canonicals(Lexemes(t, afterText)) ==
                 Canonicals(Lexemes(Full(UpcaseSymbols(x, afterWork), values), afterText))
  {
    hide IsSpace, IsWord, FrontLength, Lexemes, Canonicals, Canonical, UpcaseSymbols, Full, KeywordChanges;
    LexemesStep(Full(x, values), afterText);
    LexemesStep(Full(UpcaseSymbols(x, afterWork), values), afterText);
  }

  /** Whatever stands in front. */
  lemma FrontFound(x: seq<Sym>, values: seq<string>, afterText: bool, afterWork: bool) returns (n: nat)
    requires HolesIn(x, values) && x != [] && !(x[0].Ch? && IsSpace(x[0].c))
    requires forall k :: 0 <= k < |values| ==> StartsLikeSegment(values[k])
    requires Faithful(x, values) && (afterText ==> afterWork)
    ensures FrontSaysSame(x, values, afterText, afterWork, n)
  {
    hide IsSpace, IsWord, Key, UpcaseSymbols, FrontSaysSame, KeywordAt, WordRun;
    n := 1;
    if x[0].Hole? {
      HoleFront(x, values, afterText, afterWork);
    } else if afterText || !IsWord(x[0].c) {
      SingleFront(x, values, afterText, afterWork);
    } else if IsDigit(x[0].c) {
      n := NumberFront(x, values, afterWork);
    } else if !afterWork && KeywordAt(x) {
      WordIsLetterOrDigit(x[0].c);
      n := WordRun(x);
      KeywordFront(x, values);
    } else {
      WordIsLetterOrDigit(x[0].c);
      n := WordRun(x);
      OtherWordFront(x, values, afterWork);
    }
  }

  /** Upper-casing keywords keeps what the text says, whatever words touch its placeholders. */
  lemma {:induction false} UpcaseSaysSame(x: seq<Sym>, values: seq<string>, afterText: bool, afterWork: bool)
    requires HolesIn(x, values)
    requires forall k :: 0 <= k < |values| ==> StartsLikeSegment(values[k])
    requires Faithful(x, values) && (afterText ==> afterWork)
    ensures Canonicals(Lexemes(Full(x, values), afterText)) ==
            Canonicals(Lexemes(Full(UpcaseSymbols(x, afterWork), values), afterText))
    decreases |x|
  {
    hide IsSpace, IsWord, Key, Lexemes, Canonicals, UpcaseSymbols, FrontSaysSame, KeywordAt, WordRun;
    if x == [] {
      UpcaseNothing(values, afterText, afterWork);
    } else if x[0].Ch? && IsSpace(x[0].c) {
      UpcaseSpace(x, values, afterText, afterWork);
      UpcaseSaysSame(x[1..], values, false, false);
    } else {
      var n := FrontFound(x, values, afterText, afterWork);
      var t := Full(x, values);
      SameFrontSame(x, values, afterText, afterWork, n);
      FaithfulRest(x, values, n);
      var last := IsWord(t[FrontLength(t, afterText) - 1]);
      UpcaseSaysSame(x[n..], values, last, last || x[0].Hole?);
    }
  }
}
