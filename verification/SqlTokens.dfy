/** The editor's regular-expression lexers, and their agreement with the hand-written scanner. */
module SqlTokens {
  import opened Options
  import opened SqlText
  import opened SqlScanner

  /** The half-open stretch of the text from `start` to `end`. */
  datatype Span = Span(start: nat, end: nat)

  // ----- Quotes and comments: the alternatives both expressions share -----

  /** `[^\n]*` from `i`. */
  function LineEnd(s: string, i: nat): (e: nat)
    requires i <= |s|
    ensures i <= e <= |s|
    decreases |s| - i
  {
    if i < |s| && s[i] != '\n' then LineEnd(s, i + 1) else i
  }

  /** `[\s\S]*?` and the closing mark of a block comment, from `i`: the shortest way through. */
  function BlockTail(s: string, i: nat): (r: Option<nat>)
    requires i <= |s|
    ensures r.Some? ==> i + 2 <= r.value <= |s|
    decreases |s| - i
  {
    if At(s, i, '*') && At(s, i + 1, '/') then Some(i + 2)
    else if i < |s| then BlockTail(s, i + 1)
    else None
  }

  /** `(?:qq|[^q])*q` from `i`, with the engine's backtracking: another round of the star if that leads to
      a match, and only then the closing quote. */
  function QuoteTail(s: string, i: nat, q: char): (r: Option<nat>)
    requires i <= |s|
    ensures r.Some? ==> i < r.value <= |s|
    decreases |s| - i
  {
    var pair := if At(s, i, q) && At(s, i + 1, q) then QuoteTail(s, i + 2, q) else None;
    var other := if i < |s| && s[i] != q then QuoteTail(s, i + 1, q) else None;
    if pair.Some? then pair
    else if other.Some? then other
    else if At(s, i, q) then Some(i + 1)
    else None
  }

  /** Where the comment, string or quoted identifier starting at `i` ends, by the first alternative that matches. */
  function SegmentEnd(s: string, i: nat): (r: Option<nat>)
    requires i < |s|
    ensures r.Some? ==> i + 2 <= r.value <= |s|
    ensures r.Some? ==> s[i] in "-/'\""
  {
    if s[i] == '-' && At(s, i + 1, '-') then Some(LineEnd(s, i + 2))
    else if s[i] == '/' && At(s, i + 1, '*') && BlockTail(s, i + 2).Some? then BlockTail(s, i + 2)
    else if s[i] == '\'' && QuoteTail(s, i + 1, '\'').Some? then QuoteTail(s, i + 1, '\'')
    else if s[i] == '"' then QuoteTail(s, i + 1, '"')
    else None
  }

  /** The segments a global replace of those alternatives visits, from `i` on. */
  function Protected(s: string, i: nat): seq<Span>
    requires i <= |s|
    decreases |s| - i
  {
    if i == |s| then []
    else match SegmentEnd(s, i)
      case Some(e) => [Span(i, e)] + Protected(s, e)
      case None => Protected(s, i + 1)
  }

  // ----- All tokens -----

  /** `\b` at `i`. */
  predicate Boundary(s: string, i: nat)
    requires i <= |s|
  {
    (i > 0 && IsWord(s[i - 1])) != (i < |s| && IsWord(s[i]))
  }

  function DigitsEnd(s: string, i: nat): (e: nat)
    requires i <= |s|
    ensures i <= e <= |s|
    ensures forall k :: i <= k < e ==> IsDigit(s[k])
    decreases |s| - i
  {
    if i < |s| && IsDigit(s[i]) then DigitsEnd(s, i + 1) else i
  }

  function WordEnd(s: string, i: nat): (e: nat)
    requires i <= |s|
    ensures i <= e <= |s|
    ensures forall k :: i <= k < e ==> IsWord(s[k])
    ensures e < |s| ==> !IsWord(s[e])
    decreases |s| - i
  {
    if i < |s| && IsWord(s[i]) then WordEnd(s, i + 1) else i
  }

  function SpaceEnd(s: string, i: nat): (e: nat)
    requires i <= |s|
    ensures i <= e <= |s|
    ensures SpaceBetween(s, i, e)
    ensures e < |s| ==> !IsSpace(s[e])
    decreases |s| - i
  {
    if i < |s| && IsSpace(s[i]) then SpaceEnd(s, i + 1) else i
  }

  /** `\b\d+(?:\.\d+)?\b` at `i`. A shorter run of digits is followed by a digit, so only whole runs can match. */
  function NumberEnd(s: string, i: nat): (r: Option<nat>)
    requires i < |s|
    ensures r.Some? ==> i < r.value <= |s|
    ensures r.Some? ==> forall k :: i <= k < r.value ==> IsDigit(s[k]) || s[k] == '.'
  {
    var whole := DigitsEnd(s, i);
    if !Boundary(s, i) || whole == i then None
    else if At(s, whole, '.') && DigitsEnd(s, whole + 1) > whole + 1 && Boundary(s, DigitsEnd(s, whole + 1)) then
      Some(DigitsEnd(s, whole + 1))
    else if Boundary(s, whole) then Some(whole)
    else None
  }

  /** The end of the token at `i`; the last alternatives take white space and any other single character. */
  function TokenEnd(s: string, i: nat): (e: nat)
    requires i < |s|
    ensures i < e <= |s|
  {
    if SegmentEnd(s, i).Some? then SegmentEnd(s, i).value
    else if NumberEnd(s, i).Some? then NumberEnd(s, i).value
    else if Boundary(s, i) && IsLetter(s[i]) then WordEnd(s, i)
    else if IsSpace(s[i]) then SpaceEnd(s, i)
    else i + 1
  }

  function Tokens(s: string, i: nat): seq<Span>
    requires i <= |s|
    decreases |s| - i
  {
    if i == |s| then [] else [Span(i, TokenEnd(s, i))] + Tokens(s, TokenEnd(s, i))
  }

  // ----- What a token is -----

  /** No word goes on to `i` from before. */
  predicate WordMayStart(s: string, i: nat)
    requires i <= |s|
  {
    i == 0 || !IsWord(s[i - 1])
  }

  predicate WordMayEnd(s: string, e: nat)
    requires e <= |s|
  {
    e == |s| || !IsWord(s[e])
  }

  predicate AllDigits(s: string, a: nat, b: nat)
    requires b <= |s|
  {
    forall k :: a <= k < b ==> IsDigit(s[k])
  }

  /** Digits, or digits, a point and digits. */
  ghost predicate IsNumber(s: string, i: nat, e: nat)
    requires e <= |s|
  {
    (i < e && AllDigits(s, i, e)) || exists p: nat :: IsFraction(s, i, p, e)
  }

  predicate IsFraction(s: string, i: nat, p: nat, e: nat)
    requires e <= |s|
  {
    i < p < e - 1 && AllDigits(s, i, p) && s[p] == '.' && AllDigits(s, p + 1, e)
  }

  /** A number stands here by itself. */
  ghost predicate NumberStands(s: string, i: nat, e: nat)
    requires i < |s|
  {
    i < e <= |s| && WordMayStart(s, i) && IsNumber(s, i, e) && WordMayEnd(s, e)
  }

  /** From `i` to `e` is one token: a quote or comment; else the longest number that stands here; else a whole word that
      begins with a letter; else a whole stretch of white space; else one character. */
  ghost predicate IsToken(s: string, i: nat, e: nat)
    requires i < |s|
  {
    && i < e <= |s|
    && if SegmentEnd(s, i).Some? then SegmentEnd(s, i) == Some(e)
       else if exists m: nat :: NumberStands(s, i, m) then
         NumberStands(s, i, e) && forall m: nat :: NumberStands(s, i, m) ==> m <= e
       else if WordMayStart(s, i) && IsLetter(s[i]) then
         (forall k :: i <= k < e ==> IsWord(s[k])) && WordMayEnd(s, e)
       else if IsSpace(s[i]) then
         (forall k :: i <= k < e ==> IsSpace(s[k])) && (e < |s| ==> !IsSpace(s[e]))
       else e == i + 1
  }

  lemma {:induction false} DigitsAreAll(s: string, i: nat, e: nat)
    requires i <= e <= |s| && AllDigits(s, i, e)
    ensures e <= DigitsEnd(s, i) && (e == |s| || !IsDigit(s[e]) ==> e == DigitsEnd(s, i))
    decreases e - i
  {
    hide IsDigit;
    if i < e { DigitsAreAll(s, i + 1, e); }
  }

  /** The expression finds the longest number, if there is one. */
  lemma NumberIsLongest(s: string, i: nat)
    requires i < |s|
    ensures NumberEnd(s, i).Some? ==> NumberStands(s, i, NumberEnd(s, i).value)
    ensures forall m: nat :: NumberStands(s, i, m) ==> NumberEnd(s, i).Some? && m <= NumberEnd(s, i).value
  {
    var whole := DigitsEnd(s, i);
    if NumberEnd(s, i).Some? { FoundNumberStands(s, i); }
    forall m: nat | NumberStands(s, i, m) ensures NumberEnd(s, i).Some? && m <= NumberEnd(s, i).value {
      StandingNumberIsFound(s, i, m);
    }
  }

  lemma FoundNumberStands(s: string, i: nat)
    requires i < |s| && NumberEnd(s, i).Some?
    ensures NumberStands(s, i, NumberEnd(s, i).value)
  {
    hide DigitsEnd, IsLetter;
    var whole, e := DigitsEnd(s, i), NumberEnd(s, i).value;
    if e != whole { assert IsFraction(s, i, whole, e); }
  }

  lemma StandingNumberIsFound(s: string, i: nat, m: nat)
    requires i < |s| && NumberStands(s, i, m)
    ensures NumberEnd(s, i).Some? && m <= NumberEnd(s, i).value
  {
    var whole := DigitsEnd(s, i);
    if AllDigits(s, i, m) {
      DigitsAreAll(s, i, m);
      assert m == whole;
    } else {
      var p: nat :| IsFraction(s, i, p, m);
      DigitsAreAll(s, i, p);
      DigitsAreAll(s, p + 1, m);
      assert p == whole && m == DigitsEnd(s, whole + 1);
    }
  }

  /** The alternatives of the expression find the tokens, and nothing else is one. */
  lemma TokenIs(s: string, i: nat, e: nat)
    requires i < |s|
    ensures IsToken(s, i, e) <==> e == TokenEnd(s, i)
  {
    hide NumberEnd, NumberStands;
    NumberIsLongest(s, i);
    if SegmentEnd(s, i).None? && NumberEnd(s, i).None? && IsToken(s, i, e) {
      if Boundary(s, i) && IsLetter(s[i]) { WordIsWhole(s, i, e); } else if IsSpace(s[i]) { SpaceIsWhole(s, i, e); }
    }
  }

  lemma {:induction false} WordIsWhole(s: string, i: nat, e: nat)
    requires i <= e <= |s| && (forall k :: i <= k < e ==> IsWord(s[k])) && WordMayEnd(s, e)
    ensures WordEnd(s, i) == e
    decreases e - i
  {
    hide IsWord;
    if i < e { WordIsWhole(s, i + 1, e); }
  }

  lemma {:induction false} SpaceIsWhole(s: string, i: nat, e: nat)
    requires i <= e <= |s| && (forall k :: i <= k < e ==> IsSpace(s[k])) && (e < |s| ==> !IsSpace(s[e]))
    ensures SpaceEnd(s, i) == e
    decreases e - i
  {
    hide IsSpace;
    if i < e { SpaceIsWhole(s, i + 1, e); }
  }

  /** The spans cover the text from `i` on, one behind the other, and each is a token. */
  ghost predicate IsTokenList(s: string, i: nat, spans: seq<Span>)
    requires i <= |s|
    decreases |spans|
  {
    if spans == [] then i == |s|
    else i < |s| && spans[0].start == i && IsToken(s, i, spans[0].end) && IsTokenList(s, spans[0].end, spans[1..])
  }

  /** One and only one list of spans is that of the tokens. */
  lemma {:induction false} TokensCharacterized(s: string, i: nat, spans: seq<Span>)
    requires i <= |s|
    ensures IsTokenList(s, i, spans) <==> spans == Tokens(s, i)
    decreases |s| - i
  {
    hide IsToken, TokenEnd;
    if i < |s| {
      var e := TokenEnd(s, i);
      if spans != [] { TokenIs(s, i, spans[0].end); }
      TokenIs(s, i, e);
      TokensCharacterized(s, e, Tokens(s, e));
      if spans != [] && spans[0] == Span(i, e) { TokensCharacterized(s, e, spans[1..]); }
    }
  }

  // ----- The scanner's quote and comment runs -----

  /** Not in a quote or comment; the newline after a line comment is
      the scanner's last step inside it but no part of it. */
  predicate Outside(s: string, i: nat)
    requires i <= |s|
  {
    StateAt(s, i) == Start || (StateAt(s, i) == Cursor(LineComment, false) && (i == |s| || s[i] == '\n'))
  }

  /** The scanner leaves the run it is in at `i`; the end of the text ends every run. */
  function Leave(s: string, i: nat): (e: nat)
    requires i <= |s|
    ensures i <= e <= |s|
    decreases |s| - i
  {
    if i == |s| || Outside(s, i) then i else Leave(s, i + 1)
  }

  predicate Opens(s: string, i: nat)
    requires i < |s|
  {
    StateAt(s, i) == Start && StateAt(s, i + 1) != Start
  }

  function ScanRuns(s: string, i: nat): seq<Span>
    requires i <= |s|
    decreases |s| - i
  {
    if i == |s| then []
    else if Opens(s, i) then [Span(i, Leave(s, i + 1))] + ScanRuns(s, Leave(s, i + 1))
    else ScanRuns(s, i + 1)
  }

  /** The scanner ends outside every quote and block comment. */
  predicate Terminated(s: string) {
    StateAt(s, |s|).mode == Normal || StateAt(s, |s|).mode == LineComment
  }

  // ----- One run, two readings -----

  lemma {:induction false} LeaveAt(s: string, i: nat, e: nat)
    requires i <= e <= |s|
    requires forall k: nat :: i <= k < e ==> !Outside(s, k)
    requires e == |s| || Outside(s, e)
    ensures Leave(s, i) == e
    decreases |s| - i
  {
    hide Outside;
    if i < e { LeaveAt(s, i + 1, e); }
  }

  lemma {:induction false} LineRun(s: string, i: nat)
    requires i <= |s| && StateAt(s, i) == Cursor(LineComment, false)
    ensures Outside(s, LineEnd(s, i))
    ensures forall k: nat :: i <= k < LineEnd(s, i) ==> !Outside(s, k)
    decreases |s| - i
  {
    if i < |s| && s[i] != '\n' { LineRun(s, i + 1); }
  }

  lemma {:induction false} BlockRun(s: string, i: nat)
    requires i <= |s| && StateAt(s, i) == Cursor(BlockComment, false)
    ensures BlockTail(s, i).Some? ==> StateAt(s, BlockTail(s, i).value) == Start
    ensures BlockTail(s, i).None? ==> StateAt(s, |s|) == Cursor(BlockComment, false)
    ensures forall k: nat :: i <= k < (if BlockTail(s, i).Some? then BlockTail(s, i).value else |s|) ==> !Outside(s, k)
    decreases |s| - i
  {
    if i < |s| {
      if s[i] == '*' && At(s, i + 1, '/') {
        assert StateAt(s, i + 1) == Cursor(Normal, true);
      } else {
        assert StateAt(s, i + 1) == Cursor(BlockComment, false);
        BlockRun(s, i + 1);
      }
    }
  }

  function QuoteOf(mode: Mode): char
    requires mode == SingleQuote || mode == DoubleQuote
  {
    if mode == SingleQuote then '\'' else '"'
  }

  /** The end of the quote by the scanner's rule, which never goes back. */
  function ScanQuote(s: string, i: nat, q: char): Option<nat>
    requires i <= |s|
    decreases |s| - i
  {
    if i == |s| then None
    else if s[i] != q then ScanQuote(s, i + 1, q)
    else if At(s, i + 1, q) then ScanQuote(s, i + 2, q)
    else Some(i + 1)
  }

  /** Where the scanner closes a quote the expression does too; where
      it does not, the expression gives up or falls short. */
  lemma {:induction false} QuoteReadings(s: string, i: nat, q: char)
    requires i <= |s|
    ensures match ScanQuote(s, i, q)
            case Some(e) => QuoteTail(s, i, q) == Some(e)
            case None => QuoteTail(s, i, q) != Some(|s|)
    decreases |s| - i
  {
    if i < |s| {
      if s[i] != q { QuoteReadings(s, i + 1, q); }
      else if At(s, i + 1, q) { QuoteReadings(s, i + 2, q); }
    }
  }

  lemma {:induction false} QuoteRun(s: string, i: nat, mode: Mode)
    requires mode == SingleQuote || mode == DoubleQuote
    requires i <= |s| && StateAt(s, i) == Cursor(mode, false)
    ensures var r := ScanQuote(s, i, QuoteOf(mode));
            match r
            case Some(e) => i < e <= |s| && StateAt(s, e) == Start
            case None => StateAt(s, |s|) == Cursor(mode, false)
    ensures var r := ScanQuote(s, i, QuoteOf(mode));
            forall k: nat :: i <= k < (if r.Some? then r.value else |s|) && k <= |s| ==> !Outside(s, k)
    decreases |s| - i
  {
    var q := QuoteOf(mode);
    if i < |s| {
      if s[i] != q {
        assert StateAt(s, i + 1) == Cursor(mode, false);
        QuoteRun(s, i + 1, mode);
      } else if At(s, i + 1, q) {
        assert StateAt(s, i + 1) == Cursor(mode, true);
        assert StateAt(s, i + 2) == Cursor(mode, false);
        QuoteRun(s, i + 2, mode);
      }
    }
  }

  /** An opening mark: the scanner's run and the expression's segment end together, unless the run is never closed. */
  lemma RunAt(s: string, i: nat)
    requires i < |s| && Opens(s, i)
    ensures var e := Leave(s, i + 1);
            && Outside(s, e) ==> SegmentEnd(s, i) == Some(e)
    ensures !Outside(s, Leave(s, i + 1)) ==> Leave(s, i + 1) == |s| && SegmentEnd(s, i) != Some(|s|)
  {
    var next := StateAt(s, i + 1);
    if next.mode == LineComment {
      LineRun(s, i + 2);
      LeaveAt(s, i + 1, LineEnd(s, i + 2));
    } else if next.mode == BlockComment {
      BlockRun(s, i + 2);
      LeaveAt(s, i + 1, if BlockTail(s, i + 2).Some? then BlockTail(s, i + 2).value else |s|);
    } else {
      var q := QuoteOf(next.mode);
      QuoteRun(s, i + 1, next.mode);
      QuoteReadings(s, i + 1, q);
      LeaveAt(s, i + 1, if ScanQuote(s, i + 1, q).Some? then ScanQuote(s, i + 1, q).value else |s|);
    }
  }

  lemma {:induction false} ProtectedStartLater(s: string, i: nat)
    requires i <= |s|
    ensures forall sp :: sp in Protected(s, i) ==> i <= sp.start < sp.end <= |s|
    decreases |s| - i
  {
    if i < |s| {
      match SegmentEnd(s, i)
      case Some(e) => ProtectedStartLater(s, e);
      case None => ProtectedStartLater(s, i + 1);
    }
  }

  /** Outside quotes and comments, an index that opens nothing starts no segment either. */
  lemma NoRunAt(s: string, i: nat)
    requires i < |s| && Outside(s, i) && !Opens(s, i)
    ensures SegmentEnd(s, i).None?
    ensures StateAt(s, i + 1) == Start && Outside(s, i + 1)
  {}

  lemma TerminatedIsOutside(s: string)
    ensures Terminated(s) <==> Outside(s, |s|)
  {
    if StateAt(s, |s|).consumed { ConsumedHasCharacter(s, |s|); }
  }

  /** Equal, or equal up to one last run that reaches the end of the text and that the expression does not see. */
  ghost predicate SameReadings(s: string, segments: seq<Span>, runs: seq<Span>) {
    if Terminated(s) then segments == runs
    else
      && segments != runs
      && runs != [] && runs[|runs| - 1].end == |s|
      && |runs| - 1 <= |segments|
      && segments[..|runs| - 1] == runs[..|runs| - 1]
  }

  lemma SameReadingsPrepend(s: string, sp: Span, segments: seq<Span>, runs: seq<Span>)
    requires SameReadings(s, segments, runs)
    ensures SameReadings(s, [sp] + segments, [sp] + runs)
  {
    hide Terminated;
    assert ([sp] + segments)[1..] == segments;
    assert ([sp] + runs)[1..] == runs;
    if !Terminated(s) {
      assert ([sp] + segments)[..|runs|] == [sp] + segments[..|runs| - 1];
      assert ([sp] + runs)[..|runs|] == [sp] + runs[..|runs| - 1];
    }
  }

  /** Both readings of the text from `i` on. */
  lemma {:induction false} ReadingsFrom(s: string, i: nat)
    requires i <= |s| && Outside(s, i)
    ensures SameReadings(s, Protected(s, i), ScanRuns(s, i))
    decreases |s| - i
  {
    hide StateAt, Opens, Outside, Leave, SegmentEnd;
    if i == |s| {
      TerminatedIsOutside(s);
    } else if !Opens(s, i) {
      NoRunAt(s, i);
      ReadingsFrom(s, i + 1);
    } else {
      var e := Leave(s, i + 1);
      RunAt(s, i);
      if Outside(s, e) {
        ReadingsFrom(s, e);
        SameReadingsPrepend(s, Span(i, e), Protected(s, e), ScanRuns(s, e));
      } else {
        UnclosedIsLast(s, i);
      }
    }
  }

  lemma UnclosedIsLast(s: string, i: nat)
    requires i < |s| && Opens(s, i) && !Outside(s, Leave(s, i + 1))
    ensures ScanRuns(s, i) == [Span(i, |s|)]
    ensures Protected(s, i) != ScanRuns(s, i)
    ensures !Terminated(s)
  {
    hide StateAt, Opens;
    RunAt(s, i);
    TerminatedIsOutside(s);
    assert Span(i, |s|) !in Protected(s, i) by {
      match SegmentEnd(s, i)
      case Some(e) => ProtectedStartLater(s, e);
      case None => ProtectedStartLater(s, i + 1);
    }
    assert Span(i, |s|) in ScanRuns(s, i);
  }

  /** The two lexers see the same quotes and comments exactly when the scanner ends outside all of them. */
  lemma LexersAgree(s: string)
    ensures Protected(s, 0) == ScanRuns(s, 0) <==> Terminated(s)
  {
    ReadingsFrom(s, 0);
  }

  /** And they always agree up to the quote or block comment that is never closed. */
  lemma LexersAgreeUntilUnclosed(s: string)
    requires !Terminated(s)
    ensures var runs := ScanRuns(s, 0);
            && runs != [] && runs[|runs| - 1].end == |s|
            && |runs| - 1 <= |Protected(s, 0)|
            && Protected(s, 0)[..|runs| - 1] == runs[..|runs| - 1]
  {
    ReadingsFrom(s, 0);
  }

  // ----- Token classes -----

  datatype TokenClass = Comment | Str | Identifier | Number | Keyword | Function | Plain

  const KEYWORDS_A_C: seq<string> := ["all", "alter", "and", "as", "asc", "between", "by", "case", "cast", "create",
    "cross"]
  const KEYWORDS_D_F: seq<string> := ["delete", "desc", "describe", "distinct", "drop", "else", "end", "except",
    "exists",
                                      "explain", "false", "from", "full"]
  const KEYWORDS_G_L: seq<string> := ["group", "having", "if", "in", "inner", "insert", "intersect", "into", "is",
    "join",
                                      "left", "like", "limit"]
  const KEYWORDS_N_T: seq<string> := ["not", "null", "on", "or", "order", "outer", "right", "select", "set", "show",
                                      "table", "then", "true"]
  const KEYWORDS_U_W: seq<string> := ["union", "update", "use", "values", "when", "where", "with"]

  const SQL_KEYWORDS := KEYWORDS_A_C + KEYWORDS_D_F + KEYWORDS_G_L + KEYWORDS_N_T + KEYWORDS_U_W

  const SQL_FUNCTIONS: seq<string> := [
    "avg", "coalesce", "count", "date_trunc", "format", "json_extract", "lower", "max", "min", "regexp_like",
    "sum", "try", "upper"
  ]

  /** Lower case for the ASCII letters, the only ones a keyword or function token can hold. */
  function LowerChar(c: char): char {
    if 'A' <= c <= 'Z' then c - 'A' + 'a' else c
  }

  function Lower(s: string): (r: string)
    ensures |r| == |s|
    ensures forall k :: 0 <= k < |s| ==> r[k] == LowerChar(s[k])
  {
    seq(|s|, k requires 0 <= k < |s| => LowerChar(s[k]))
  }

  function SqlTokenClass(token: string): TokenClass {
    if token == [] then Plain
    else if At(token, 0, '-') && At(token, 1, '-') then Comment
    else if At(token, 0, '/') && At(token, 1, '*') then Comment
    else if token[0] == '\'' then Str
    else if token[0] == '"' then Identifier
    else if IsDigit(token[0]) then Number
    else if IsLetter(token[0]) && Lower(token) in SQL_KEYWORDS then Keyword
    else if IsLetter(token[0]) && Lower(token) in SQL_FUNCTIONS then Function
    else Plain
  }

  /** The class of a token, told from its text. */
  lemma TokenClassIs(token: string)
    ensures SqlTokenClass(token) == Comment <==> "--" <= token || "/*" <= token
    ensures SqlTokenClass(token) == Str <==> "\'" <= token
    ensures SqlTokenClass(token) == Identifier <==> "\"" <= token
    ensures SqlTokenClass(token) == Number <==> token != "" && token[0] in "0123456789"
    ensures SqlTokenClass(token) == Keyword <==> token != "" && IsLetter(token[0]) && Lower(token) in SQL_KEYWORDS
    ensures SqlTokenClass(token) == Function <==>
      token != "" && IsLetter(token[0]) && Lower(token) in SQL_FUNCTIONS && Lower(token) !in SQL_KEYWORDS
  {
    hide SQL_KEYWORDS, SQL_FUNCTIONS, Lower;
    if token != "" { DigitIsOneOfTen(token[0]); }
  }

  lemma DigitIsOneOfTen(c: char)
    ensures c in "0123456789" <==> IsDigit(c)
  {
    var ten := "0123456789";
    if IsDigit(c) { assert ten[c as int - '0' as int] == c; }
  }

  function Text(s: string, sp: Span): string
    requires sp.start <= sp.end <= |s|
  {
    s[sp.start..sp.end]
  }

  /** Painted as a comment, string or quoted identifier, and more than a stray quote mark. */
  predicate IsQuoteOrComment(s: string, sp: Span) {
    && sp.start + 2 <= sp.end <= |s|
    && SqlTokenClass(Text(s, sp)) in {Comment, Str, Identifier}
  }

  function QuotesAndComments(s: string, tokens: seq<Span>): seq<Span> {
    if tokens == [] then []
    else (if IsQuoteOrComment(s, tokens[0]) then [tokens[0]] else []) + QuotesAndComments(s, tokens[1..])
  }

  lemma SegmentIsQuoteOrComment(s: string, i: nat)
    requires i < |s|
    ensures SegmentEnd(s, i).Some? <==> IsQuoteOrComment(s, Span(i, TokenEnd(s, i)))
  {
    hide QuoteTail, BlockTail, LineEnd, Lower;
    var text := s[i..TokenEnd(s, i)];
    assert text[0] == s[i];
    if |text| > 1 { assert text[1] == s[i + 1]; }
  }

  /** Inside a token that is neither, no quote or comment starts. */
  lemma NoSegmentInside(s: string, i: nat, k: nat)
    requires i < |s| && SegmentEnd(s, i).None? && i < k < TokenEnd(s, i)
    ensures SegmentEnd(s, k).None?
    ensures s[k] != ';'
  {
    hide SegmentEnd, NumberEnd, Boundary;
    var e := TokenEnd(s, i);
    assert IsDigit(s[k]) || s[k] == '.' || IsWord(s[k]) || IsSpace(s[k]);
    assert s[k] !in "-/'\"";
  }

  lemma {:induction false} ProtectedPass(s: string, i: nat, e: nat)
    requires i <= e <= |s|
    requires forall k: nat :: i <= k < e ==> SegmentEnd(s, k).None?
    ensures Protected(s, i) == Protected(s, e)
    decreases e - i
  {
    hide SegmentEnd;
    if i < e { ProtectedPass(s, i + 1, e); }
  }

  /** The formatter protects exactly the tokens the highlighter paints as comment, string or quoted identifier. */
  lemma {:induction false} ProtectedAreTokens(s: string, i: nat)
    requires i <= |s|
    ensures Protected(s, i) == QuotesAndComments(s, Tokens(s, i))
    decreases |s| - i
  {
    hide SegmentEnd, IsQuoteOrComment;
    if i < |s| {
      var e := TokenEnd(s, i);
      assert Tokens(s, i)[1..] == Tokens(s, e);
      SegmentIsQuoteOrComment(s, i);
      ProtectedAreTokens(s, e);
      if SegmentEnd(s, i).None? {
        forall k: nat | i < k < e
          ensures SegmentEnd(s, k).None?
        {
          NoSegmentInside(s, i, k);
        }
        ProtectedPass(s, i, e);
      }
    }
  }

  // ----- Semicolons -----

  /** A token that is no quote or comment is code from end to end, and so is what follows it. */
  lemma {:induction false} CodeToken(s: string, i: nat, k: nat)
    requires i < |s| && Outside(s, i) && SegmentEnd(s, i).None? && Terminated(s)
    requires i <= k < TokenEnd(s, i)
    ensures StateAt(s, k + 1) == Start
    decreases k
  {
    hide StateAt, Terminated, TokenEnd, SegmentEnd;
    if k > i {
      CodeToken(s, i, k - 1);
      NoSegmentInside(s, i, k);
    }
    if Opens(s, k) {
      RunAt(s, k);
      TerminatedIsOutside(s);
    } else {
      NoRunAt(s, k);
    }
  }

  lemma {:induction false} LeaveInside(s: string, i: nat, k: nat)
    requires i <= |s| && i <= k < Leave(s, i)
    ensures !Outside(s, k)
    decreases |s| - i
  {
    hide Outside;
    if i < k { LeaveInside(s, i + 1, k); }
  }

  /** A quote or comment token spans one scanner run, so the scanner is outside again behind it. */
  lemma SegmentToken(s: string, i: nat)
    requires i < |s| && Outside(s, i) && SegmentEnd(s, i).Some? && Terminated(s)
    ensures Outside(s, TokenEnd(s, i))
    ensures forall k: nat :: i < k < TokenEnd(s, i) ==> !InCode(s, k)
  {
    hide StateAt, Terminated, SegmentEnd, Leave;
    if !Opens(s, i) { NoRunAt(s, i); }
    RunAt(s, i);
    TerminatedIsOutside(s);
    forall k: nat | i < k < TokenEnd(s, i)
      ensures !InCode(s, k)
    {
      LeaveInside(s, i + 1, k);
    }
  }

  lemma {:induction false} TokensStartLater(s: string, i: nat)
    requires i <= |s|
    ensures forall sp :: sp in Tokens(s, i) ==> i <= sp.start < sp.end <= |s|
    decreases |s| - i
  {
    hide TokenEnd;
    if i < |s| { TokensStartLater(s, TokenEnd(s, i)); }
  }

  lemma {:induction false} SemicolonsFrom(s: string, i: nat, k: nat)
    requires i <= k < |s| && s[k] == ';' && Outside(s, i) && Terminated(s)
    ensures CodeSemicolon(s, k) <==> Span(k, k + 1) in Tokens(s, i)
    decreases |s| - i
  {
    hide StateAt, Terminated, SegmentEnd, TokenEnd, CodeSemicolon, Outside, Tokens;
    var e := TokenEnd(s, i);
    TokenInList(s, i, k);
    if e <= k {
      TokenLeadsOutside(s, i);
      SemicolonsFrom(s, e, k);
    } else if SegmentEnd(s, i).Some? {
      SegmentToken(s, i);
      SemicolonInRun(s, i, k);
    } else {
      if i < k { NoSegmentInside(s, i, k); }
      SemicolonStandsAlone(s, i);
      SemicolonOutside(s, i);
    }
  }

  /** Among the tokens from `i` on, the one at `k` is the front one or in the rest. */
  lemma TokenInList(s: string, i: nat, k: nat)
    requires i <= k < |s|
    ensures Span(k, k + 1) in Tokens(s, i) <==>
            if TokenEnd(s, i) <= k then Span(k, k + 1) in Tokens(s, TokenEnd(s, i))
            else k == i && TokenEnd(s, i) == i + 1
  {
    hide TokenEnd;
    TokensStartLater(s, TokenEnd(s, i));
  }

  lemma TokenLeadsOutside(s: string, i: nat)
    requires i < |s| && Outside(s, i) && Terminated(s)
    ensures Outside(s, TokenEnd(s, i))
  {
    hide StateAt, Terminated, SegmentEnd, TokenEnd;
    if SegmentEnd(s, i).Some? { SegmentToken(s, i); } else { CodeToken(s, i, TokenEnd(s, i) - 1); }
  }

  lemma SemicolonInRun(s: string, i: nat, k: nat)
    requires i <= k < |s| && s[k] == ';' && SegmentEnd(s, i).Some?
    requires i < k ==> !InCode(s, k)
    ensures !CodeSemicolon(s, k) && k != i
  {
    hide StateAt, QuoteTail, BlockTail;
  }

  lemma SemicolonOutside(s: string, i: nat)
    requires i < |s| && s[i] == ';' && Outside(s, i)
    ensures CodeSemicolon(s, i)
  {
    hide StateAt;
  }

  lemma SemicolonStandsAlone(s: string, i: nat)
    requires i < |s| && s[i] == ';'
    ensures TokenEnd(s, i) == i + 1 && SegmentEnd(s, i).None?
  {
    hide QuoteTail, BlockTail, Boundary;
  }

  /** A semicolon ends a statement exactly when the highlighter makes it a token of its own. */
  lemma SemicolonsAgree(s: string, k: nat)
    requires Terminated(s) && k < |s| && s[k] == ';'
    ensures CodeSemicolon(s, k) <==> Span(k, k + 1) in Tokens(s, 0)
  {
    SemicolonsFrom(s, 0, k);
  }

  // ----- Semicolons in a text that is never closed -----

  ghost predicate Spanned(spans: seq<Span>, k: nat) {
    exists n :: 0 <= n < |spans| && spans[n].start <= k < spans[n].end
  }

  lemma SpannedFirst(sp: Span, spans: seq<Span>, k: nat)
    ensures Spanned([sp] + spans, k) <==> sp.start <= k < sp.end || Spanned(spans, k)
  {
    var all := [sp] + spans;
    assert all[0] == sp;
    if Spanned(spans, k) {
      var n :| 0 <= n < |spans| && spans[n].start <= k < spans[n].end;
      assert all[n + 1] == spans[n];
    }
  }

  /** A semicolon is a token of its own unless the expression has it in a quote or comment. */
  lemma {:induction false} SemicolonIsToken(s: string, i: nat, k: nat)
    requires i <= k < |s| && s[k] == ';'
    ensures Span(k, k + 1) in Tokens(s, i) <==> !Spanned(Protected(s, i), k)
    decreases |s| - i
  {
    hide SegmentEnd, TokenEnd, Spanned;
    var e := TokenEnd(s, i);
    TokensStartLater(s, e);
    ProtectedStartLater(s, e);
    NotSpanned(Protected(s, e), e, k);
    match SegmentEnd(s, i)
    case Some(end) =>
      SegmentIsToken(s, i);
      SpannedFirst(Span(i, e), Protected(s, e), k);
      if e <= k { SemicolonIsToken(s, e, k); }
    case None =>
      forall l: nat | i < l < e ensures SegmentEnd(s, l).None? { NoSegmentInside(s, i, l); }
      ProtectedPass(s, i, e);
      if e <= k {
        SemicolonIsToken(s, e, k);
      } else {
        if i < k { NoSegmentInside(s, i, k); }
        SemicolonStandsAlone(s, i);
      }
  }

  lemma SegmentIsToken(s: string, i: nat)
    requires i < |s| && SegmentEnd(s, i).Some?
    ensures TokenEnd(s, i) == SegmentEnd(s, i).value
  {}

  lemma NotSpanned(spans: seq<Span>, from: nat, k: nat)
    requires forall sp :: sp in spans ==> from <= sp.start
    ensures k < from ==> !Spanned(spans, k)
  {
    forall n | 0 <= n < |spans| ensures from <= spans[n].start { assert spans[n] in spans; }
  }

  lemma {:induction false} RunsStartLater(s: string, i: nat)
    requires i <= |s|
    ensures forall sp :: sp in ScanRuns(s, i) ==> i <= sp.start < sp.end <= |s|
    decreases |s| - i
  {
    hide Opens, Leave;
    if i < |s| { RunsStartLater(s, if Opens(s, i) then Leave(s, i + 1) else i + 1); }
  }

  /** A semicolon splits unless the scanner has it in a quote or comment. */
  lemma {:induction false} SemicolonIsCode(s: string, i: nat, k: nat)
    requires i <= k < |s| && s[k] == ';' && Outside(s, i)
    ensures CodeSemicolon(s, k) <==> !Spanned(ScanRuns(s, i), k)
    decreases |s| - i
  {
    hide StateAt, Opens, Leave, Spanned, Outside;
    RunsStartLater(s, i + 1);
    if !Opens(s, i) {
      NoRunAt(s, i);
      NotSpanned(ScanRuns(s, i + 1), i + 1, k);
      if i < k { SemicolonIsCode(s, i + 1, k); } else { OutsideSemicolon(s, i); }
    } else {
      var e := Leave(s, i + 1);
      RunsStartLater(s, e);
      NotSpanned(ScanRuns(s, e), e, k);
      SpannedFirst(Span(i, e), ScanRuns(s, e), k);
      if k < e {
        OpeningIsNoSemicolon(s, i);
        LeaveInside(s, i + 1, k);
        InsideIsNoCode(s, k);
      } else {
        LeaveIsOutsideOrEnd(s, i + 1);
        SemicolonIsCode(s, e, k);
      }
    }
  }

  lemma OutsideSemicolon(s: string, i: nat)
    requires i < |s| && s[i] == ';' && Outside(s, i)
    ensures CodeSemicolon(s, i)
  {}

  lemma OpeningIsNoSemicolon(s: string, i: nat)
    requires i < |s| && Opens(s, i)
    ensures s[i] != ';'
  {}

  lemma InsideIsNoCode(s: string, k: nat)
    requires k < |s| && !Outside(s, k)
    ensures !CodeSemicolon(s, k)
  {}

  lemma {:induction false} LeaveIsOutsideOrEnd(s: string, i: nat)
    requires i <= |s|
    ensures Leave(s, i) < |s| ==> Outside(s, Leave(s, i))
    decreases |s| - i
  {
    hide Outside;
    if i < |s| && !Outside(s, i) { LeaveIsOutsideOrEnd(s, i + 1); }
  }

  /** Where the readings part, the expression's go on behind the opening mark that the scanner never closes. */
  lemma {:induction false} ReadingsPartAt(s: string, i: nat)
    requires i <= |s| && Outside(s, i) && !Terminated(s)
    ensures var segments, runs := Protected(s, i), ScanRuns(s, i);
      && SameReadings(s, segments, runs)
      && forall n :: |runs| - 1 <= n < |segments| ==> runs[|runs| - 1].start <= segments[n].start
    decreases |s| - i
  {
    hide StateAt, Opens, Outside, Leave, SegmentEnd;
    ReadingsFrom(s, i);
    if i == |s| {
      TerminatedIsOutside(s);
    } else if !Opens(s, i) {
      NoRunAt(s, i);
      ReadingsPartAt(s, i + 1);
    } else {
      var e := Leave(s, i + 1);
      RunAt(s, i);
      if Outside(s, e) {
        ReadingsPartAt(s, e);
        assert ScanRuns(s, i) == [Span(i, e)] + ScanRuns(s, e) && Protected(s, i) == [Span(i, e)] + Protected(s, e);
      } else {
        UnclosedIsLast(s, i);
        ProtectedStartLater(s, i);
        forall n | 0 <= n < |Protected(s, i)| ensures i <= Protected(s, i)[n].start { assert Protected(s,
          i)[n] in Protected(s, i); }
      }
    }
  }

  lemma SpannedByParts(spans: seq<Span>, m: nat, k: nat)
    requires m <= |spans|
    ensures Spanned(spans, k) <==> Spanned(spans[..m], k) || Spanned(spans[m..], k)
  {
    if Spanned(spans, k) {
      var n :| 0 <= n < |spans| && spans[n].start <= k < spans[n].end;
      if n < m { assert spans[..m][n] == spans[n]; } else { assert spans[m..][n - m] == spans[n]; }
    }
  }

  /** The opening mark that the scanner finds no end for. */
  function UnclosedAt(s: string): nat
    requires ScanRuns(s, 0) != []
  {
    ScanRuns(s, 0)[|ScanRuns(s, 0)| - 1].start
  }

  lemma SemicolonBeforeUnclosed(s: string, k: nat)
    requires !Terminated(s) && k < |s| && s[k] == ';'
    ensures ScanRuns(s, 0) != []
    ensures k < UnclosedAt(s) ==> (Spanned(ScanRuns(s, 0), k) <==> Spanned(Protected(s, 0), k))
    ensures k >= UnclosedAt(s) ==> Spanned(ScanRuns(s, 0), k)
  {
    assert Outside(s, 0);
    hide Terminated, StateAt;
    ReadingsPartAt(s, 0);
    var segments, runs := Protected(s, 0), ScanRuns(s, 0);
    var m := |runs| - 1;
    SpannedByParts(runs, m, k);
    SpannedByParts(segments, m, k);
    assert runs[m..] == [runs[m]];
    forall sp | sp in segments[m..] ensures runs[m].start <= sp.start {
      var n :| 0 <= n < |segments[m..]| && segments[m..][n] == sp;
      assert segments[m + n] == sp;
    }
    NotSpanned(segments[m..], runs[m].start, k);
    assert runs[m].end == |s|;
    assert k >= runs[m].start ==> runs[m].start <= k < runs[m].end;
  }

  /** In a text with an unclosed quote or comment no semicolon behind its mark splits; so splitter and highlighter
      agree on all semicolons if and only if the expression has every one of those in some quote or comment. */
  lemma SemicolonsAgreeIff(s: string)
    requires !Terminated(s)
    ensures ScanRuns(s, 0) != []
    ensures (forall k: nat :: k < |s| && s[k] == ';' ==> (CodeSemicolon(s, k) <==> Span(k, k + 1) in Tokens(s, 0))) <==>
            (forall k: nat :: UnclosedAt(s) <= k < |s| && s[k] == ';' ==> Spanned(Protected(s, 0), k))
    ensures forall k: nat :: k < UnclosedAt(s) && k < |s| && s[k] == ';' ==> (CodeSemicolon(s, k) <==>
      Span(k, k + 1) in Tokens(s, 0))
    ensures forall k: nat :: UnclosedAt(s) <= k < |s| && s[k] == ';' ==> !CodeSemicolon(s, k)
  {
    hide Terminated, CodeSemicolon, UnclosedAt, Spanned;
    ReadingsFrom(s, 0);
    forall k: nat | k < |s| && s[k] == ';'
      ensures (CodeSemicolon(s, k) <==> Span(k, k + 1) in Tokens(s, 0)) <==>
        (k < UnclosedAt(s) || Spanned(Protected(s, 0), k))
      ensures UnclosedAt(s) <= k ==> !CodeSemicolon(s, k)
    {
      SemicolonIsToken(s, 0, k);
      SemicolonIsCode(s, 0, k);
      SemicolonBeforeUnclosed(s, k);
    }
  }

  /** In a text with an unclosed quote the two can part ways: the splitter keeps reading, the highlighter goes on. */
  lemma SemicolonsDisagreeWhenUnclosed()
    ensures var s := "';"; !CodeSemicolon(s, 1) && Span(1, 2) in Tokens(s, 0)
  {
    var s := "';";
    assert StateAt(s, 1) == Cursor(SingleQuote, false);
    assert QuoteTail(s, 2, '\'') == None;
    assert QuoteTail(s, 1, '\'') == None;
    assert SegmentEnd(s, 0) == None && SegmentEnd(s, 1) == None;
    SemicolonStandsAlone(s, 1);
    assert TokenEnd(s, 0) == 1;
    assert Tokens(s, 1)[0] == Span(1, 2);
  }
}
