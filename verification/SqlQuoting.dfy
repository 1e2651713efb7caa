/** Identifier quoting for the schema browser's inserted snippets: no name can break out of its quotes. */
module SqlQuoting {
  import opened Printing
  import opened Options
  import opened SqlText
  import opened SqlScanner
  import opened SqlTokens

  /** Every pair of double quotes made one, from the left. */
  function Undoubled(s: string): string {
    if s == [] then []
    else if s[0] == '"' && At(s, 1, '"') then "\"" + Undoubled(s[2..])
    else [s[0]] + Undoubled(s[1..])
  }

  function QuotedPathPart(value: string): string {
    "\"" + Doubled(value) + "\""
  }

  function UnquoteIdentifier(text: string): string {
    if |text| >= 2 && text[0] == '"' && text[|text| - 1] == '"' then Undoubled(text[1..|text| - 1])
    else
      var front := if text != [] && text[0] == '"' then text[1..] else text;
      if front != [] && front[|front| - 1] == '"' then front[..|front| - 1] else front
  }

  lemma {:induction false} UndoubledDoubled(s: string)
    ensures Undoubled(Doubled(s)) == s
  {
    if s != [] {
      var d, rest := Doubled(s), Doubled(s[1..]);
      UndoubledDoubled(s[1..]);
      if s[0] == '"' {
        assert d[0] == '"' && d[1] == '"' && d[2..] == rest;
      } else {
        assert d[0] == s[0] && d[1..] == rest;
      }
    }
  }

  /** Completion reads back the name that was quoted. */
  lemma UnquoteQuoted(name: string)
    ensures UnquoteIdentifier(QuotedPathPart(name)) == name
  {
    var text := QuotedPathPart(name);
    assert text[1..|text| - 1] == Doubled(name);
    UndoubledDoubled(name);
  }

  function QuotedTablePath(catalog: string, schema: string, table: string): string {
    QuotedPathPart(catalog) + "." + QuotedPathPart(schema) + "." + QuotedPathPart(table)
  }

  datatype Action = InsertSelect | InsertDescribe | InsertShowCreate

  function Before(action: Action): string {
    match action
    case InsertSelect => "SELECT *\nFROM "
    case InsertDescribe => "DESCRIBE "
    case InsertShowCreate => "SHOW CREATE TABLE "
  }

  function After(action: Action): string {
    match action
    case InsertSelect => "\nLIMIT 10;"
    case InsertDescribe => ";"
    case InsertShowCreate => ";"
  }

  function Snippet(action: Action, catalog: string, schema: string, table: string): string {
    Before(action) + QuotedTablePath(catalog, schema, table) + After(action)
  }

  // ----- Scanning a quoted name -----

  predicate HoldsAt(s: string, a: nat, part: string) {
    a + |part| <= |s| && s[a..a + |part|] == part
  }

  lemma {:induction false} ScanDoubled(s: string, i: nat, name: string)
    requires i + |Doubled(name)| < |s| && HoldsAt(s, i, Doubled(name))
    requires s[i + |Doubled(name)|] == '"' && !At(s, i + |Doubled(name)| + 1, '"')
    ensures ScanQuote(s, i, '"') == Some(i + |Doubled(name)| + 1)
    decreases name
  {
    var d := Doubled(name);
    assert forall k :: 0 <= k < |d| ==> s[i + k] == d[k];
    if name != [] {
      var rest := Doubled(name[1..]);
      var step := |d| - |rest|;
      assert rest == d[step..];
      assert step == if name[0] == '"' then 2 else 1;
      assert s[i] == d[0] && (step == 2 ==> s[i + 1] == d[1] == '"');
      SliceOfSlice(s, i, i + |d|, step, |d|);
      hide Doubled;
      ScanDoubled(s, i + step, name[1..]);
      assert ScanQuote(s, i, '"') == ScanQuote(s, i + step, '"');
    }
  }

  /** A quoted name in code, with no quote right behind it, is one
      run of the scanner and one segment of the expression. */
  lemma ScanName(s: string, a: nat, name: string)
    requires InCode(s, a) && HoldsAt(s, a, QuotedPathPart(name))
    requires !At(s, a + |QuotedPathPart(name)|, '"')
    ensures var e := a + |QuotedPathPart(name)|;
            && Opens(s, a) && Leave(s, a + 1) == e
            && StateAt(s, e) == Start && SegmentEnd(s, a) == Some(e)
            && forall k: nat :: a < k < e ==> !InCode(s, k)
  {
    var q := QuotedPathPart(name);
    var e := a + |q|;
    assert s[a] == q[0];
    assert s[e - 1] == q[|q| - 1];
    assert q[1..|q| - 1] == Doubled(name);
    SliceOfSlice(s, a, e, 1, |q| - 1);
    ScanDoubled(s, a + 1, name);
    assert StateAt(s, a + 1) == Cursor(DoubleQuote, false);
    QuoteRun(s, a + 1, DoubleQuote);
    LeaveAt(s, a + 1, e);
    RunAt(s, a);
    forall k: nat | a < k < e
      ensures !InCode(s, k)
    {
      assert !Outside(s, k);
    }
  }

  predicate IsPlain(c: char) {
    c !in "-/'\";"
  }

  lemma {:induction false} ScanPlain(s: string, a: nat, b: nat)
    requires a <= b <= |s| && StateAt(s, a) == Start
    requires forall k :: a <= k < b ==> IsPlain(s[k])
    ensures StateAt(s, b) == Start
    ensures forall k: nat :: a <= k < b ==> !CodeSemicolon(s, k)
  {
    if a < b {
      ScanPlain(s, a, b - 1);
      assert IsPlain(s[b - 1]);
    }
  }

  /** A stretch that is one quoted name: a single token painted as an identifier, without a code-level semicolon. */
  ghost predicate IsNameToken(s: string, a: nat, e: nat) {
    && a < e <= |s|
    && Opens(s, a) && Leave(s, a + 1) == e
    && StateAt(s, e) == Start
    && s[a] == '"'
    && forall k: nat :: a <= k < e ==> !CodeSemicolon(s, k)
  }

  lemma NameToken(s: string, a: nat, name: string)
    requires InCode(s, a) && HoldsAt(s, a, QuotedPathPart(name))
    requires !At(s, a + |QuotedPathPart(name)|, '"')
    ensures IsNameToken(s, a, a + |QuotedPathPart(name)|)
  {
    hide StateAt, Leave;
    ScanName(s, a, name);
    assert s[a] == QuotedPathPart(name)[0];
  }

  /** The three names of a path in code, one token each, with the dots between them. */
  lemma ScanPath(s: string, a: nat, catalog: string, schema: string, table: string)
    requires InCode(s, a) && HoldsAt(s, a, QuotedTablePath(catalog, schema, table))
    requires !At(s, a + |QuotedTablePath(catalog, schema, table)|, '"')
    ensures var b := a + |QuotedPathPart(catalog)| + 1;
            var c := b + |QuotedPathPart(schema)| + 1;
            var e := c + |QuotedPathPart(table)|;
            && e == a + |QuotedTablePath(catalog, schema, table)|
            && IsNameToken(s, a, b - 1) && IsNameToken(s, b, c - 1) && IsNameToken(s, c, e)
            && StateAt(s, e) == Start
            && forall k: nat :: a <= k < e ==> !CodeSemicolon(s, k)
  {
    hide StateAt, QuotedPathPart, QuotedTablePath, IsNameToken, CodeSemicolon;
    var b := a + |QuotedPathPart(catalog)| + 1;
    var c := b + |QuotedPathPart(schema)| + 1;
    var e := c + |QuotedPathPart(table)|;
    PathParts(s, a, catalog, schema, table);
    NameToken(s, a, catalog);
    NameTokenEnds(s, a, b - 1);
    NameToken(s, b, schema);
    NameTokenEnds(s, b, c - 1);
    NameToken(s, c, table);
    NameTokenEnds(s, c, e);
  }

  lemma PathParts(s: string, a: nat, catalog: string, schema: string, table: string)
    requires HoldsAt(s, a, QuotedTablePath(catalog, schema, table))
    ensures var b := a + |QuotedPathPart(catalog)| + 1;
            var c := b + |QuotedPathPart(schema)| + 1;
            && c < c + |QuotedPathPart(table)| == a + |QuotedTablePath(catalog, schema, table)| <= |s|
            && HoldsAt(s, a, QuotedPathPart(catalog)) && s[b - 1] == '.'
            && HoldsAt(s, b, QuotedPathPart(schema)) && s[c - 1] == '.'
            && HoldsAt(s, c, QuotedPathPart(table))
  {
    var q1, q2, q3 := QuotedPathPart(catalog), QuotedPathPart(schema), QuotedPathPart(table);
    assert |q3| > 0;
    hide QuotedPathPart, HoldsAt;
    HoldsParts(s, a, q1 + "." + q2 + ".", q3);
    HoldsParts(s, a, q1 + "." + q2, ".");
    HoldsParts(s, a, q1 + ".", q2);
    HoldsParts(s, a, q1, ".");
    HoldsCharacter(s, a + |q1|, '.');
    HoldsCharacter(s, a + |q1| + 1 + |q2|, '.');
  }

  lemma HoldsParts(s: string, a: nat, x: string, y: string)
    requires HoldsAt(s, a, x + y)
    ensures HoldsAt(s, a, x) && HoldsAt(s, a + |x|, y)
    ensures a + |x| + |y| <= |s|
  {
    var xy := x + y;
    assert xy[..|x|] == x && xy[|x|..] == y;
    SliceOfSlice(s, a, a + |xy|, 0, |x|);
    SliceOfSlice(s, a, a + |xy|, |x|, |xy|);
  }

  lemma HoldsCharacter(s: string, a: nat, c: char)
    requires HoldsAt(s, a, [c])
    ensures a < |s| && s[a] == c
  {
    assert s[a..a + 1][0] == c;
  }

  /** Behind a name token the scanner is in code; a dot there keeps it so and ends no statement. */
  lemma NameTokenEnds(s: string, a: nat, e: nat)
    requires IsNameToken(s, a, e)
    ensures StateAt(s, e) == Start
    ensures forall k: nat :: a <= k < e ==> !CodeSemicolon(s, k)
    ensures At(s, e, '.') && e + 1 < |s| ==> InCode(s, e + 1) && !CodeSemicolon(s, e)
  {}

  lemma TemplatesArePlain(action: Action)
    ensures |Before(action)| > 0 && !IsSpace(Before(action)[0])
    ensures forall k :: 0 <= k < |Before(action)| ==> IsPlain(Before(action)[k])
    ensures |After(action)| > 0 && After(action)[|After(action)| - 1] == ';'
    ensures forall k :: 0 <= k < |After(action)| - 1 ==> IsPlain(After(action)[k])
    ensures After(action)[0] != '"'
    ensures |After(action)| > 1 ==> !IsSpace(After(action)[|After(action)| - 2])
  {}

  /** Where the path and the tail of a snippet are, and how the scanner gets through all three. */
  lemma ScanSnippet(action: Action, catalog: string, schema: string, table: string)
    ensures var s, a, e := Snippet(action, catalog, schema, table), |Before(action)|,
      |Before(action)| + |QuotedTablePath(catalog, schema, table)|;
            && |s| == e + |After(action)| > 2
            && InCode(s, a) && HoldsAt(s, a, QuotedTablePath(catalog, schema, table)) && !At(s, e, '"')
            && StateAt(s, |s| - 1) == Start && s[|s| - 1] == ';'
            && (forall k: nat :: k < |s| - 1 ==> !CodeSemicolon(s, k))
            && !IsSpace(s[0]) && !IsSpace(s[|s| - 2])
  {
    hide StateAt, Before, After, QuotedTablePath, CodeSemicolon, IsNameToken, IsSpace, IsPlain;
    var path := QuotedTablePath(catalog, schema, table);
    var s := Snippet(action, catalog, schema, table);
    var a := |Before(action)|;
    var e := a + |path|;
    TemplatesArePlain(action);
    assert forall k :: 0 <= k < a ==> s[k] == Before(action)[k];
    assert s[a..e] == path;
    assert forall k :: e <= k < |s| ==> s[k] == After(action)[k - e];
    ScanStarts(s);
    ScanPlain(s, 0, a);
    ScanPath(s, a, catalog, schema, table);
    ScanPlain(s, e, |s| - 1);
    PathEndsInQuote(catalog, schema, table);
  }

  lemma PathEndsInQuote(catalog: string, schema: string, table: string)
    ensures var path := QuotedTablePath(catalog, schema, table);
            |path| > 2 && path[|path| - 1] == '"' && !IsSpace('"')
  {}

  /** Whatever the names hold, an inserted snippet is one statement: all of it but the closing semicolon. */
  lemma SnippetIsOneStatement(action: Action, catalog: string, schema: string, table: string)
    ensures var s := Snippet(action, catalog, schema, table);
            Split(s) == [Statement(s[..|s| - 1], 0, |s| - 1)]
  {
    hide StateAt, Snippet, Before, After, QuotedTablePath, IsSpace;
    var s := Snippet(action, catalog, schema, table);
    ScanSnippet(action, catalog, schema, table);
    var whole := Statement(s[..|s| - 1], 0, |s| - 1);
    assert s[0..|s| - 1] == s[..|s| - 1];
    assert IsStatement(s, whole);
    forall k: nat | k < |s| && !Covered([whole], k)
      ensures CodeSemicolon(s, k)
    {
      assert !([whole][0].start <= k < [whole][0].end);
    }
    OnlySplit(s, 0, 0, [whole]);
  }

  // ----- The names as tokens -----

  lemma {:induction false} RunIsListed(s: string, i: nat, a: nat)
    requires i <= a < |s| && Opens(s, a)
    requires Outside(s, i)
    ensures Span(a, Leave(s, a + 1)) in ScanRuns(s, i)
    decreases |s| - i
  {
    hide StateAt, Opens;
    if i < a {
      if Opens(s, i) {
        var e := Leave(s, i + 1);
        OpensOutside(s, a);
        if a < e { LeaveInside(s, i + 1, a); }
        LeaveIsOutside(s, i + 1);
        RunIsListed(s, e, a);
      } else {
        NoRunAt(s, i);
        RunIsListed(s, i + 1, a);
      }
    }
  }

  lemma OpensOutside(s: string, a: nat)
    requires a < |s| && Opens(s, a)
    ensures Outside(s, a)
  {}

  lemma {:induction false} LeaveIsOutside(s: string, i: nat)
    requires i <= |s|
    ensures Leave(s, i) == |s| || Outside(s, Leave(s, i))
    decreases |s| - i
  {
    hide Outside;
    if i < |s| && !Outside(s, i) { LeaveIsOutside(s, i + 1); }
  }

  /** In a text whose quotes all close, a name token of the scanner
      is a token the highlighter paints as an identifier. */
  lemma NameIsPainted(s: string, a: nat, e: nat)
    requires IsNameToken(s, a, e) && Terminated(s)
    ensures Span(a, e) in Tokens(s, 0)
    ensures SqlTokenClass(s[a..e]) == Identifier
  {
    hide StateAt, SqlTokenClass, Tokens, Protected, ScanRuns;
    ScanStarts(s);
    RunIsListed(s, 0, a);
    LexersAgree(s);
    ProtectedAreTokens(s, 0);
    FilteredAreTokens(s, Tokens(s, 0), Span(a, e));
    assert s[a..e][0] == '"';
    DoubleQuoteIsIdentifier(s[a..e]);
  }

  lemma {:induction false} FilteredAreTokens(s: string, tokens: seq<Span>, sp: Span)
    requires sp in QuotesAndComments(s, tokens)
    ensures sp in tokens
  {
    hide IsQuoteOrComment;
    if !(IsQuoteOrComment(s, tokens[0]) && sp == tokens[0]) { FilteredAreTokens(s, tokens[1..], sp); }
  }

  lemma DoubleQuoteIsIdentifier(token: string)
    requires token != "" && token[0] == '"'
    ensures SqlTokenClass(token) == Identifier
  {}

  /** Each of the three names in a snippet is one token, painted as a quoted identifier, and reads back as the name. */
  lemma SnippetNamesAreTokens(action: Action, catalog: string, schema: string, table: string)
    ensures var s := Snippet(action, catalog, schema, table);
            var a := |Before(action)|;
            var b := a + |QuotedPathPart(catalog)| + 1;
            var c := b + |QuotedPathPart(schema)| + 1;
            var e := c + |QuotedPathPart(table)|;
            && e <= |s|
            && Span(a, b - 1) in Tokens(s, 0) && UnquoteIdentifier(s[a..b - 1]) == catalog
            && Span(b, c - 1) in Tokens(s, 0) && UnquoteIdentifier(s[b..c - 1]) == schema
            && Span(c, e) in Tokens(s, 0) && UnquoteIdentifier(s[c..e]) == table
            && SqlTokenClass(s[a..b - 1]) == Identifier
            && SqlTokenClass(s[b..c - 1]) == Identifier
            && SqlTokenClass(s[c..e]) == Identifier
  {
    hide StateAt, Snippet, Before, After, QuotedTablePath, QuotedPathPart,
      UnquoteIdentifier, SqlTokenClass, Tokens, IsSpace, IsNameToken;
    var s := Snippet(action, catalog, schema, table);
    var a := |Before(action)|;
    var b := a + |QuotedPathPart(catalog)| + 1;
    var c := b + |QuotedPathPart(schema)| + 1;
    var e := c + |QuotedPathPart(table)|;
    ScanSnippet(action, catalog, schema, table);
    ScanPath(s, a, catalog, schema, table);
    PathParts(s, a, catalog, schema, table);
    SemicolonTerminates(s);
    NameIsPainted(s, a, b - 1);
    NameIsPainted(s, b, c - 1);
    NameIsPainted(s, c, e);
    UnquoteQuoted(catalog);
    UnquoteQuoted(schema);
    UnquoteQuoted(table);
  }

  lemma SemicolonTerminates(s: string)
    requires s != "" && CodeSemicolon(s, |s| - 1)
    ensures Terminated(s)
  {}
}
