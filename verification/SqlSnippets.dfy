/** What the inserted snippets say, token by token. */
module SqlSnippets {
  import opened Options
  import opened SqlText
  import opened SqlScanner
  import opened SqlTokens
  import opened SqlLexemes
  import opened SqlShape
  import opened SqlQuoting

  // ----- Tokens at the front -----

  lemma {:induction false} WholeWord(word: string, rest: string, i: nat)
    requires i <= |word| && (forall k :: 0 <= k < |word| ==> IsWord(word[k])) && (rest == "" || !IsWord(rest[0]))
    ensures WordEnd(word + rest, i) == |word|
    decreases |word| - i
  {
    hide IsWord;
    if i < |word| { WholeWord(word, rest, i + 1); }
  }

  lemma WordSays(word: string, rest: string)
    requires word != "" && IsLetter(word[0]) && (forall k :: 0 <= k < |word| ==> IsWord(word[k]))
    requires rest == "" || !IsWord(rest[0])
    ensures Lexemes(word + rest, false) == [word] + Lexemes(rest, true)
  {
    hide WordEnd, QuoteTail, BlockTail, LineEnd;
    var t := word + rest;
    assert t[0] == word[0];
    WholeWord(word, rest, 0);
    assert SegmentEnd(t, 0) == None && NumberEnd(t, 0) == None;
    SpaceIsNoLetter(t[0]);
    hide Lexemes, IsWord, IsSpace, SegmentEnd, NumberEnd;
    LexFront(t, false);
    assert t[..|word|] == word && t[|word|..] == rest && t[|word| - 1] == word[|word| - 1];
  }

  lemma SpaceIsNoLetter(c: char)
    ensures IsLetter(c) ==> !IsSpace(c) && !IsDigit(c) && IsWord(c)
  {}

  lemma SignSays(c: char, rest: string, afterWord: bool)
    requires c in ".;*"
    ensures Lexemes([c] + rest, afterWord) == [[c]] + Lexemes(rest, false)
  {
    hide WordEnd, QuoteTail, BlockTail, LineEnd, DigitsEnd;
    var t := [c] + rest;
    assert t[0] == c && !IsWord(c) && !IsSpace(c);
    assert SegmentEnd(t, 0) == None && NumberEnd(t, 0) == None;
    assert FrontLength(t, afterWord) == 1;
    hide Lexemes, IsWord, IsSpace, FrontLength;
    LexFront(t, afterWord);
    assert t[..1] == [c] && t[1..] == rest;
  }

  lemma NameSays(name: string, rest: string)
    requires rest != "" && rest[0] != '"'
    ensures Lexemes(QuotedPathPart(name) + rest, false) == [QuotedPathPart(name)] + Lexemes(rest, false)
  {
    var q := QuotedPathPart(name);
    var t := q + rest;
    assert StateAt(t, 0) == Start && q[0] == '"' && q[|q| - 1] == '"' && !IsSpace('"') && !IsWord('"');
    assert t[0] == q[0] && t[|q|] == rest[0] && t[|q| - 1] == q[|q| - 1];
    assert t[0..0 + |q|] == q;
    hide QuotedPathPart, Lexemes, StateAt, IsSpace, IsWord;
    ScanName(t, 0, name);
    LexFront(t, false);
    assert t[..|q|] == q && t[|q|..] == rest;
  }

  lemma PathSays(catalog: string, schema: string, table: string, rest: string)
    requires rest != "" && rest[0] != '"'
    ensures Lexemes(QuotedTablePath(catalog, schema, table) + rest, false) ==
      [QuotedPathPart(catalog), ".", QuotedPathPart(schema), ".", QuotedPathPart(table)] + Lexemes(rest, false)
  {
    hide QuotedPathPart, Lexemes;
    var c, s, t := QuotedPathPart(catalog), QuotedPathPart(schema), QuotedPathPart(table);
    var behindC, behindS := s + ("." + (t + rest)), t + rest;
    NameSays(table, rest);
    SignSays('.', behindS, false);
    NameSays(schema, "." + behindS);
    SignSays('.', behindC, false);
    NameSays(catalog, "." + behindC);
    PathInParts(c, s, t, rest);
  }

  lemma PathInParts(c: string, s: string, t: string, rest: string)
    ensures c + "." + s + "." + t + rest == c + ("." + (s + ("." + (t + rest))))
  {}

  // ----- The snippets -----

  lemma GapSays(rest: string, afterWord: bool)
    ensures Lexemes(" " + rest, afterWord) == Lexemes(rest, false)
    ensures Lexemes("\n" + rest, afterWord) == Lexemes(rest, false)
  {
    SpacesHere();
    hide IsSpace, Lexemes;
    SpaceSaysNothing(' ', rest, afterWord);
    SpaceSaysNothing('\n', rest, afterWord);
  }

  lemma SpacesHere()
    ensures IsSpace(' ') && IsSpace('\n') && !IsWord(' ') && !IsWord('\n') && !IsWord(';')
  {}

  lemma EndSays(afterWord: bool)
    ensures Lexemes(";", afterWord) == [";"]
  {
    SignSays(';', "", afterWord);
    assert [';'] + "" == ";" && Lexemes("", false) == [];
  }

  /** A word and a gap in front of a text. */
  lemma WordAndGap(word: string, rest: string)
    requires word in ["DESCRIBE", "SHOW", "CREATE", "TABLE", "SELECT", "FROM", "LIMIT"]
    ensures Lexemes(word + (" " + rest), false) == [word] + Lexemes(rest, false)
  {
    SpacesHere();
    CapitalsAreWords(word);
    hide Lexemes, IsWord;
    GapSays(rest, true);
    WordSays(word, " " + rest);
  }

  lemma CapitalsAreWords(word: string)
    requires word in ["DESCRIBE", "SHOW", "CREATE", "TABLE", "SELECT", "FROM", "LIMIT"]
    ensures word != "" && IsLetter(word[0]) && forall k :: 0 <= k < |word| ==> IsWord(word[k])
  {
    forall k | 0 <= k < |word| ensures 'A' <= word[k] <= 'Z' {}
  }

  lemma InFront<T>(head: seq<T>, t: seq<T>)
    ensures forall a, b :: head == [a, b] ==> [a] + ([b] + t) == head + t
    ensures forall a, b, c :: head == [a, b, c] ==> [a] + ([b] + ([c] + t)) == head + t
  {}

  lemma ShortTexts(path: string)
    ensures "DESCRIBE " + path + ";" == "DESCRIBE" + (" " + (path + ";"))
    ensures "SHOW CREATE TABLE " + path + ";" == "SHOW" + (" " + ("CREATE" + (" " + ("TABLE" + (" " + (path + ";"))))))
  {
    assert "DESCRIBE " == "DESCRIBE" + " ";
    assert "SHOW CREATE TABLE " == "SHOW" + (" " + ("CREATE" + (" " + ("TABLE" + " "))));
  }

  /** Describing a table. */
  lemma DescribeSnippetSays(catalog: string, schema: string, table: string)
    ensures Lexemes(Snippet(InsertDescribe, catalog, schema, table), false) ==
      ["DESCRIBE"] +
      [QuotedPathPart(catalog), ".", QuotedPathPart(schema), ".", QuotedPathPart(table)] + [";"]
  {
    hide QuotedPathPart, Lexemes, QuotedTablePath;
    var path := QuotedTablePath(catalog, schema, table);
    PathSays(catalog, schema, table, ";");
    EndSays(false);
    WordAndGap("DESCRIBE", path + ";");
    ShortTexts(path);
  }

  /** Showing how it was created. */
  lemma ShowCreateSnippetSays(catalog: string, schema: string, table: string)
    ensures Lexemes(Snippet(InsertShowCreate, catalog, schema, table), false) ==
      ["SHOW", "CREATE", "TABLE"] +
      ([QuotedPathPart(catalog), ".", QuotedPathPart(schema), ".", QuotedPathPart(table)] + [";"])
  {
    hide QuotedPathPart, Lexemes, QuotedTablePath;
    var path := QuotedTablePath(catalog, schema, table);
    PathSays(catalog, schema, table, ";");
    EndSays(false);
    ThreeWordsSay("SHOW", "CREATE", "TABLE", path + ";");
    ShortTexts(path);
  }

  lemma ThreeWordsSay(one: string, two: string, three: string, rest: string)
    requires forall word :: word in [one, two, three] ==> word in ["SHOW", "CREATE", "TABLE"]
    ensures Lexemes(one + (" " + (two + (" " + (three + (" " + rest))))), false) ==
      [one, two, three] + Lexemes(rest, false)
  {
    hide Lexemes;
    assert one in [one, two, three] && two in [one, two, three] && three in [one, two, three];
    WordAndGap(three, rest);
    WordAndGap(two, three + (" " + rest));
    WordAndGap(one, two + (" " + (three + (" " + rest))));
    InFront([one, two, three], Lexemes(rest, false));
  }

  lemma SelectText(path: string)
    ensures "SELECT *\nFROM " + path + "\nLIMIT 10;" ==
            "SELECT" + (" " + ("*" + ("\n" + ("FROM" + (" " + (path + ("\n" + ("LIMIT" + (" " + "10;")))))))))
  {
    assert "SELECT *\nFROM " == "SELECT" + (" " + ("*" + ("\n" + ("FROM" + " "))));
    assert "\nLIMIT 10;" == "\n" + ("LIMIT" + (" " + "10;"));
  }

  /** Selecting from a table: ten rows of all columns. */
  lemma SelectSnippetSays(catalog: string, schema: string, table: string)
    ensures Lexemes(Snippet(InsertSelect, catalog, schema, table), false) ==
      ["SELECT", "*", "FROM"] +
      ([QuotedPathPart(catalog), ".", QuotedPathPart(schema), ".", QuotedPathPart(table)] + ["LIMIT", "10", ";"])
  {
    hide QuotedPathPart, Lexemes, QuotedTablePath;
    var path, last := QuotedTablePath(catalog, schema, table), "\n" + ("LIMIT" + (" " + "10;"));
    LimitSays();
    PathSays(catalog, schema, table, last);
    AllFromSays(path + last);
    SelectText(path);
  }

  lemma AllFromSays(rest: string)
    ensures Lexemes("SELECT" + (" " + ("*" + ("\n" + ("FROM" + (" " + rest))))), false) ==
      ["SELECT", "*", "FROM"] + Lexemes(rest, false)
  {
    hide Lexemes;
    var from := "FROM" + (" " + rest);
    WordAndGap("FROM", rest);
    GapSays(from, false);
    SignSays('*', "\n" + from, false);
    WordAndGap("SELECT", "*" + ("\n" + from));
    InFront(["SELECT", "*", "FROM"], Lexemes(rest, false));
  }

  lemma LimitSays()
    ensures Lexemes("\n" + ("LIMIT" + (" " + "10;")), false) == ["LIMIT", "10", ";"]
  {
    hide Lexemes;
    NumberSays();
    WordAndGap("LIMIT", "10;");
    GapSays("LIMIT" + (" " + "10;"), false);
  }

  lemma NumberSays()
    ensures Lexemes("10;", false) == ["10", ";"]
  {
    var t := "10;";
    assert DigitsEnd(t, 2) == 2;
    assert DigitsEnd(t, 1) == 2;
    assert NumberEnd(t, 0) == Some(2) && SegmentEnd(t, 0) == None;
    assert t[..2] == "10" && t[2..] == ";";
    EndSays(true);
    assert !IsSpace('1');
  }
}
