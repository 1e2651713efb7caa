/** Why the placeholder word may not stand in the text: a text that restoring damages. */
module SqlProtectExample {
  import opened Options
  import opened SqlText
  import opened SqlTokens
  import opened SqlProtect
  import opened Printing
  import opened SqlLexemes
  import opened SqlFaithful

  lemma {:induction false} SplitJoinAbsent(text: string, key: string, value: string)
    requires key != "" && forall d :: 0 <= d < |text| ==> !(key <= text[d..])
    ensures SplitJoin(text, key, value) == text
  {
    if text != "" {
      assert text[0..] == text;
      forall d | 0 <= d < |text| - 1
        ensures !(key <= text[1..][d..])
      {
        assert text[1..][d..] == text[d + 1..];
      }
      SplitJoinAbsent(text[1..], key, value);
    }
  }

  lemma SmallKeys()
    ensures Key(0) == "__SQL_PLACEHOLDER_0__" && Key(1) == "__SQL_PLACEHOLDER_1__"
  {
    assert Digits(0) == "0" && Digits(1) == "1";
    hide Digits;
    assert "__" + WORD == "__SQL_PLACEHOLDER";
    hide WORD;
  }

  lemma CutElsewhere()
    ensures Key(1) + "SQL_PLACEHOLDER_0__" == "__SQL_PLACEHOLDER_1" + Key(0)
  {
    SmallKeys();
    hide Key;
    assert "__SQL_PLACEHOLDER_1__" == "__SQL_PLACEHOLDER_1" + "__";
    assert "__SQL_PLACEHOLDER_0__" == "__" + "SQL_PLACEHOLDER_0__";
  }

  lemma NoKeyInCut(d: nat)
    requires d < |"__SQL_PLACEHOLDER_1"|
    ensures !(Key(0) <= "__SQL_PLACEHOLDER_1"[d..] + Key(0))
  {
    var cut := "__SQL_PLACEHOLDER_1";
    SmallKeys();
    hide Key;
    var key := Key(0);
    var t := cut[d..] + key;
    assert t[0] == cut[d];
    assert d + 1 < |cut| ==> t[1] == cut[d + 1];
    assert d == 0 ==> t[18] == '1';
    assert key[0] == '_' && key[1] == '_' && key[18] == '0';
  }

  lemma FirstRestored()
    ensures SplitJoin(Key(0) + Key(1) + "SQL_PLACEHOLDER_0__", Key(0), "\"x\"") == "\"x\"__SQL_PLACEHOLDER_1\"x\""
  {
    var v, cut, tail := "\"x\"", "__SQL_PLACEHOLDER_1", "SQL_PLACEHOLDER_0__";
    hide Key, SplitJoin;
    var key := Key(0);
    KeyIsText(0);
    CutElsewhere();
    ConcatAssociates(key, Key(1), tail);
    KeyFilled(Key(1) + tail, 0, v);
    forall d | 0 <= d < |cut|
      ensures !(key <= cut[d..] + key)
    {
      NoKeyInCut(d);
    }
    SplitJoinSkips(cut, key, key, v);
    KeyAlone(0, v);
  }

  lemma KeyAlone(i: nat, v: string)
    ensures Key(i) != "" && SplitJoin(Key(i), Key(i), v) == v
  {
    KeyIsText(i);
    hide Key;
    KeyFilled("", i, v);
    assert Key(i) + "" == Key(i) && SplitJoin("", Key(i), v) == "";
  }

  lemma SecondRestored()
    ensures SplitJoin("\"x\"__SQL_PLACEHOLDER_1\"x\"", Key(1), "'y'") == "\"x\"__SQL_PLACEHOLDER_1\"x\""
  {
    var t := "\"x\"__SQL_PLACEHOLDER_1\"x\"";
    SmallKeys();
    hide Key;
    var key := Key(1);
    forall d | 0 <= d < |t|
      ensures !(key <= t[d..])
    {
      var u := t[d..];
      assert u[0] == t[d];
      assert d + 1 < |t| ==> u[1] == t[d + 1];
      assert d == 3 ==> u[19] == '"';
    }
    SplitJoinAbsent(t, key, "'y'");
  }

  lemma {:induction false} PlainWork(s: string, i: nat, n: nat)
    requires i <= |s| && forall k :: i <= k < |s| ==> s[k] !in "-/'\""
    ensures Work(s, i, n) == s[i..] && Values(s, i) == []
    decreases |s| - i
  {
    if i < |s| { PlainWork(s, i + 1, n); }
  }

  const DAMAGED: string := "\"x\"" + ("'y'" + "SQL_PLACEHOLDER_0__")

  /** Two quotes and a text that finishes a placeholder behind them:
      restoring the first overwrites the second's mark. */
  lemma RestoringCanFail()
    ensures RestoreSqlSegments(Work(DAMAGED, 0, 0), Values(DAMAGED, 0)) != DAMAGED
  {
    hide Key, SplitJoin, Work, Values;
    var tail, values := "SQL_PLACEHOLDER_0__", ["\"x\"", "'y'"];
    ProtectedExample();
    FirstRestored();
    SecondRestored();
    ConcatAssociates(Key(0), Key(1), tail);
    RestoreTwo(Work(DAMAGED, 0, 0), values);
    DamageShows();
  }

  lemma RestoreTwo(text: string, values: seq<string>)
    requires |values| == 2
    ensures Key(0) != "" && Key(1) != ""
    ensures RestoreSqlSegments(text, values) == SplitJoin(SplitJoin(text, Key(0), values[0]), Key(1), values[1])
  {
    KeyIsText(0);
    KeyIsText(1);
    hide Key, SplitJoin;
    var once := SplitJoin(text, Key(0), values[0]);
    var twice := SplitJoin(once, Key(1), values[1]);
    assert RestoreFrom(twice, values, 2) == twice;
    assert RestoreFrom(once, values, 1) == RestoreFrom(twice, values, 2);
    assert RestoreFrom(text, values, 0) == RestoreFrom(once, values, 1);
  }

  lemma DamageShows()
    ensures "\"x\"__SQL_PLACEHOLDER_1\"x\"" != DAMAGED
  {
    assert "\"x\"__SQL_PLACEHOLDER_1\"x\""[3] == '_' && DAMAGED[3] == '\'';
  }

  lemma ValuesOfExample()
    ensures IsValue("\"x\"") && IsQuoted("\"x\"", '"') && !IsLineComment("\"x\"") && !IsQuoted("\"x\"", '\'')
    ensures IsValue("'y'") && IsQuoted("'y'", '\'') && !IsLineComment("'y'") && !IsQuoted("'y'", '"')
  {
    var v, w := "\"x\"", "'y'";
    assert ScanQuote(v, 2, '"') == Some(3) && ScanQuote(v, 1, '"') == Some(3);
    assert ScanQuote(w, 2, '\'') == Some(3) && ScanQuote(w, 1, '\'') == Some(3);
  }

  lemma DamagedParts()
    ensures DAMAGED == "\"x\"" + ("'y'" + "SQL_PLACEHOLDER_0__")
    ensures DAMAGED[0..3] == "\"x\"" && DAMAGED[3..6] == "'y'"
    ensures DAMAGED[3..] == "'y'" + "SQL_PLACEHOLDER_0__" && DAMAGED[6..] == "SQL_PLACEHOLDER_0__"
  {
    var v, w, tail := "\"x\"", "'y'", "SQL_PLACEHOLDER_0__";
    DropOfConcat(v, w + tail, 3);
    DropOfConcat(w, tail, 3);
    assert DAMAGED[3..][3..] == DAMAGED[6..] && DAMAGED[3..6] == DAMAGED[3..][..3];
  }

  lemma SegmentsOfExample()
    ensures SegmentEnd(DAMAGED, 0) == Some(3) && SegmentEnd(DAMAGED, 3) == Some(6)
  {
    hide SegmentEnd, IsQuoted, IsValue, IsLineComment, ScanQuote;
    var v, w, tail := "\"x\"", "'y'", "SQL_PLACEHOLDER_0__";
    ValuesOfExample();
    DamagedParts();
    ValueFront(v, w + tail);
    ValueFront(w, tail);
    ShiftSegment(DAMAGED, 3);
  }

  lemma ProtectedExample()
    ensures Work(DAMAGED, 0, 0) == Key(0) + (Key(1) + "SQL_PLACEHOLDER_0__")
    ensures Values(DAMAGED, 0) == ["\"x\"", "'y'"]
  {
    hide Key, SegmentEnd;
    SegmentsOfExample();
    DamagedParts();
    PlainTail();
    assert Work(DAMAGED, 3, 1) == Key(1) + Work(DAMAGED, 6, 2);
    assert Values(DAMAGED, 3) == [DAMAGED[3..6]] + Values(DAMAGED, 6);
    assert Values(DAMAGED, 0) == [DAMAGED[0..3]] + Values(DAMAGED, 3);
  }

  lemma PlainTail()
    ensures Work(DAMAGED, 6, 2) == "SQL_PLACEHOLDER_0__" && Values(DAMAGED, 6) == []
  {
    DamagedParts();
    var tail := "SQL_PLACEHOLDER_0__";
    forall k | 6 <= k < |DAMAGED|
      ensures DAMAGED[k] !in "-/'\""
    {
      assert DAMAGED[k] == DAMAGED[6..][k - 6];
      TailIsPlain(k - 6);
    }
    PlainWork(DAMAGED, 6, 2);
  }

  lemma TailIsPlain(d: nat)
    requires d < |"SQL_PLACEHOLDER_0__"|
    ensures "SQL_PLACEHOLDER_0__"[d] !in "-/'\""
  {}
}
