/** What a text says: its tokens without white space, keywords in one case. */
module SqlLexemes {
  import opened Options
  import opened SqlText
  import opened SqlTokens

  function UpperChar(c: char): char {
    if 'a' <= c <= 'z' then c - 'a' + 'A' else c
  }

  function Upper(s: string): (r: string)
    ensures |r| == |s|
    ensures forall k :: 0 <= k < |s| ==> r[k] == UpperChar(s[k])
  {
    seq(|s|, k requires 0 <= k < |s| => UpperChar(s[k]))
  }

  /** A keyword counts as the same in either case; every other token only as itself. */
  function Canonical(token: string): string {
    if SqlTokenClass(token) == Keyword then Upper(token) else token
  }

  /** The meaning of the tokens: what they say, in order, white space left out. */
  function Said(s: string, tokens: seq<Span>): seq<string>
    requires forall sp :: sp in tokens ==> sp.start < sp.end <= |s|
  {
    if tokens == [] then []
    else
      assert tokens[0] in tokens;
      assert forall sp :: sp in tokens[1..] ==> sp in tokens;
      (if IsSpace(s[tokens[0].start]) then [] else [Canonical(Text(s, tokens[0]))]) + Said(s, tokens[1..])
  }

  function Meaning(s: string): seq<string> {
    TokensStartLater(s, 0);
    Said(s, Tokens(s, 0))
  }

  // ----- The same, read off the front of a text -----

  /** Length of the token at the front, when the character before it is a word character or not. */
  function FrontLength(t: string, afterWord: bool): (n: nat)
    requires t != ""
    ensures 0 < n <= |t|
  {
    if SegmentEnd(t, 0).Some? then SegmentEnd(t, 0).value
    else if afterWord && IsWord(t[0]) then 1
    else TokenEnd(t, 0)
  }

  function Lexemes(t: string, afterWord: bool): seq<string> {
    if t == "" then []
    else
      var n := FrontLength(t, afterWord);
      (if IsSpace(t[0]) then [] else [t[..n]]) + Lexemes(t[n..], IsWord(t[n - 1]))
  }

  function Canonicals(tokens: seq<string>): seq<string> {
    if tokens == [] then [] else [Canonical(tokens[0])] + Canonicals(tokens[1..])
  }

  lemma {:induction false} ShiftLine(s: string, i: nat, j: nat)
    requires i + j <= |s|
    ensures LineEnd(s, i + j) == i + LineEnd(s[i..], j)
    decreases |s| - j
  {
    if i + j < |s| { ShiftLine(s, i, j + 1); }
  }

  lemma {:induction false} ShiftBlock(s: string, i: nat, j: nat)
    requires i + j <= |s|
    ensures BlockTail(s, i + j) == Shifted(BlockTail(s[i..], j), i)
    decreases |s| - j
  {
    if i + j < |s| { ShiftBlock(s, i, j + 1); }
  }

  lemma {:induction false} ShiftQuote(s: string, i: nat, j: nat, q: char)
    requires i + j <= |s|
    ensures QuoteTail(s, i + j, q) == Shifted(QuoteTail(s[i..], j, q), i)
    decreases |s| - j
  {
    if i + j < |s| {
      var t := s[i..];
      assert t[j] == s[i + j];
      if s[i + j] != q {
        ShiftQuote(s, i, j + 1, q);
      } else if At(s, i + j + 1, q) {
        assert t[j + 1] == s[i + j + 1];
        ShiftQuote(s, i, j + 2, q);
      }
    }
  }

  function Shifted(r: Option<nat>, i: nat): Option<nat> {
    match r
    case None => None
    case Some(e) => Some(i + e)
  }

  lemma ShiftSegment(s: string, i: nat)
    requires i < |s|
    ensures SegmentEnd(s, i) == Shifted(SegmentEnd(s[i..], 0), i)
  {
    hide LineEnd, BlockTail, QuoteTail;
    if At(s, i + 1, '-') { ShiftLine(s, i, 2); }
    if At(s, i + 1, '*') { ShiftBlock(s, i, 2); }
    ShiftQuote(s, i, 1, '\'');
    ShiftQuote(s, i, 1, '"');
  }

  lemma {:induction false} ShiftDigits(s: string, i: nat, j: nat)
    requires i + j <= |s|
    ensures DigitsEnd(s, i + j) == i + DigitsEnd(s[i..], j)
    decreases |s| - j
  {
    if i + j < |s| { ShiftDigits(s, i, j + 1); }
  }

  lemma {:induction false} ShiftWord(s: string, i: nat, j: nat)
    requires i + j <= |s|
    ensures WordEnd(s, i + j) == i + WordEnd(s[i..], j)
    decreases |s| - j
  {
    if i + j < |s| { ShiftWord(s, i, j + 1); }
  }

  lemma {:induction false} ShiftSpace(s: string, i: nat, j: nat)
    requires i + j <= |s|
    ensures SpaceEnd(s, i + j) == i + SpaceEnd(s[i..], j)
    decreases |s| - j
  {
    if i + j < |s| { ShiftSpace(s, i, j + 1); }
  }

  predicate AfterWord(s: string, i: nat)
    requires i <= |s|
  {
    i > 0 && IsWord(s[i - 1])
  }

  lemma ShiftNumber(s: string, i: nat)
    requires i < |s|
    ensures AfterWord(s, i) && IsWord(s[i]) ==> NumberEnd(s, i).None?
    ensures !(AfterWord(s, i) && IsWord(s[i])) ==> NumberEnd(s, i) == Shifted(NumberEnd(s[i..], 0), i)
  {
    var t := s[i..];
    ShiftDigits(s, i, 0);
    var whole := DigitsEnd(t, 0);
    if At(t, whole, '.') { ShiftDigits(s, i, whole + 1); }
  }

  lemma ShiftToken(s: string, i: nat)
    requires i < |s|
    ensures TokenEnd(s, i) == i + FrontLength(s[i..], AfterWord(s, i))
  {
    hide SegmentEnd, NumberEnd;
    ShiftSegment(s, i);
    ShiftNumber(s, i);
    ShiftWord(s, i, 0);
    ShiftSpace(s, i, 0);
  }

  /** Both readings give the same lexemes. */
  lemma {:induction false} SaidFromFront(s: string, i: nat)
    requires i <= |s|
    ensures forall sp :: sp in Tokens(s, i) ==> sp.start < sp.end <= |s|
    ensures Said(s, Tokens(s, i)) == Canonicals(Lexemes(s[i..], AfterWord(s, i)))
    decreases |s| - i
  {
    hide TokenEnd, FrontLength, Canonical, Canonicals, Lexemes, Said, IsSpace, IsWord;
    TokensStartLater(s, i);
    if i == |s| {
      NothingSaid(s);
    } else {
      ShiftToken(s, i);
      var t, n := s[i..], FrontLength(s[i..], AfterWord(s, i));
      var e := i + n;
      SaidFromFront(s, e);
      assert t[n..] == s[e..] && t[..n] == s[i..e] && t[n - 1] == s[e - 1];
      SaidStep(s, Span(i, e), Tokens(s, e));
      LexemesStep(t, AfterWord(s, i));
    }
  }

  lemma NothingSaid(s: string)
    ensures Said(s, []) == [] && Canonicals(Lexemes(s[|s|..], AfterWord(s, |s|))) == []
  {}

  lemma SaidStep(s: string, sp: Span, rest: seq<Span>)
    requires sp.start < sp.end <= |s|
    requires forall other :: other in rest ==> other.start < other.end <= |s|
    ensures Said(s, [sp] + rest) == (if IsSpace(s[sp.start]) then [] else [Canonical(Text(s, sp))]) + Said(s, rest)
  {
    assert ([sp] + rest)[1..] == rest;
  }

  lemma LexemesStep(t: string, afterWord: bool)
    requires t != ""
    ensures var n := FrontLength(t, afterWord);
            Canonicals(Lexemes(t, afterWord)) ==
            (if IsSpace(t[0]) then [] else [Canonical(t[..n])]) + Canonicals(Lexemes(t[n..], IsWord(t[n - 1])))
  {
    hide FrontLength, Canonical, IsSpace, IsWord;
    var n := FrontLength(t, afterWord);
    var rest := Lexemes(t[n..], IsWord(t[n - 1]));
    if IsSpace(t[0]) {
      assert Lexemes(t, afterWord) == rest;
    } else {
      assert Lexemes(t, afterWord) == [t[..n]] + rest;
      assert ([t[..n]] + rest)[1..] == rest;
    }
  }

  lemma MeaningFromFront(s: string)
    ensures Meaning(s) == Canonicals(Lexemes(s, false))
  {
    assert s[0..] == s;
    SaidFromFront(s, 0);
  }
}
