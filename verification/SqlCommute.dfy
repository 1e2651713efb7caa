/** Upper-casing keywords before or after the white space is trimmed and collapsed: the same text. */
module SqlCommute {
  import opened SqlText
  import opened SqlTokens
  import opened SqlLexemes
  import opened SqlShape
  import opened SqlFormat
  import opened SqlUpcase

  lemma UpcaseSpaceStep(w: string, afterWord: bool)
    requires w != "" && IsSpace(w[0])
    ensures UpcaseKeywords(w, afterWord) == [w[0]] + UpcaseKeywords(w[1..], false)
  {
    hide IsSpace, IsKeyword;
    SpacesAreNoWords(w[0]);
  }

  lemma {:induction false} UpcaseSpaces(p: string, z: string, afterWord: bool)
    requires p != "" && SpaceBetween(p, 0, |p|)
    ensures UpcaseKeywords(p + z, afterWord) == p + UpcaseKeywords(z, false)
  {
    hide IsSpace, UpcaseKeywords;
    UpcaseSpaceStep(p + z, afterWord);
    assert (p + z)[1..] == p[1..] + z;
    if |p| == 1 {
      assert p[1..] + z == z;
    } else {
      UpcaseSpaces(p[1..], z, false);
    }
  }

  lemma {:induction false} UpcaseStart(w: string, afterWord: bool)
    ensures |UpcaseKeywords(w, afterWord)| == |w|
    ensures CaseLike(w, UpcaseKeywords(w, afterWord))
  {
    hide IsKeyword, IsWord, LowerChar, Upper;
    if w != "" {
      var n := WordEnd(w, 0);
      if !afterWord && n > 0 && IsKeyword(w[..n]) {
        UpcaseStart(w[n..], true);
        UpperIsCaseLike(w[..n]);
        CaseConcat(w[..n], Upper(w[..n]), w[n..], UpcaseKeywords(w[n..], true));
        assert w == w[..n] + w[n..];
      } else {
        UpcaseStart(w[1..], IsWord(w[0]));
        CaseConcat([w[0]], [w[0]], w[1..], UpcaseKeywords(w[1..], IsWord(w[0])));
        assert w == [w[0]] + w[1..];
      }
    }
  }

  // ----- Collapsing -----

  lemma {:induction false} CollapsePast(p: string, z: string)
    requires forall k :: 0 <= k < |p| ==> !IsSpace(p[k])
    ensures CollapseSpace(p + z) == p + CollapseSpace(z)
  {
    hide IsSpace;
    if p == "" {
      assert p + z == z;
    } else {
      assert (p + z)[1..] == p[1..] + z;
      CollapsePast(p[1..], z);
    }
  }

  lemma CollapseGap(p: string, z: string)
    requires p != "" && SpaceBetween(p, 0, |p|)
    requires z != "" ==> !IsSpace(z[0])
    ensures CollapseSpace(p + z) == " " + CollapseSpace(z)
  {
    hide IsSpace;
    SpaceEndAt(p, z);
    assert (p + z)[|p|..] == z;
  }

  lemma {:induction false} SpaceEndAt(p: string, z: string)
    requires SpaceBetween(p, 0, |p|)
    requires z != "" ==> !IsSpace(z[0])
    ensures SpaceEnd(p + z, 0) == |p|
  {
    hide IsSpace;
    if p == "" {
      assert p + z == z;
    } else {
      SpaceEndAt(p[1..], z);
      ShiftSpace(p + z, 1, 0);
      assert (p + z)[1..] == p[1..] + z;
    }
  }

  /** Words end in the collapsed text where they end in the text. */
  lemma CollapseWord(w: string)
    ensures var n := WordEnd(w, 0);
            && WordEnd(CollapseSpace(w), 0) == n <= |CollapseSpace(w)|
            && CollapseSpace(w) == w[..n] + CollapseSpace(w[n..])
            && CollapseSpace(w)[..n] == w[..n]
  {
    hide IsSpace, IsWord, CollapseSpace;
    var n := WordEnd(w, 0);
    forall k | 0 <= k < n
      ensures !IsSpace(w[..n][k])
    {
      SpacesAreNoWords(w[k]);
    }
    assert w == w[..n] + w[n..];
    CollapsePast(w[..n], w[n..]);
    WordEndPast(w[..n], CollapseSpace(w[n..]));
    CollapseStart(w[n..]);
  }

  lemma CollapseStart(w: string)
    requires w != "" ==> !IsWord(w[0])
    ensures WordEnd(CollapseSpace(w), 0) == 0
  {
    hide IsSpace;
  }

  lemma {:induction false} UpcaseCollapse(w: string, afterWord: bool)
    ensures UpcaseKeywords(CollapseSpace(w), afterWord) == CollapseSpace(UpcaseKeywords(w, afterWord))
    decreases |w|
  {
    hide IsSpace, IsWord, IsKeyword, Upper, UpcaseKeywords;
    if w == "" {
      UpcaseEmpty(afterWord);
    } else if IsSpace(w[0]) {
      var n := SpaceEnd(w, 0);
      UpcaseCollapse(w[n..], false);
      CollapsedGapUpcased(w, afterWord);
    } else {
      var n := WordEnd(w, 0);
      if !afterWord && n > 0 && IsKeyword(w[..n]) {
        UpcaseCollapse(w[n..], true);
        CollapsedKeywordUpcased(w);
      } else {
        UpcaseCollapse(w[1..], IsWord(w[0]));
        CollapsedCharacterUpcased(w, afterWord);
      }
    }
  }

  lemma UpcaseEmpty(afterWord: bool)
    ensures UpcaseKeywords("", afterWord) == ""
  {}

  lemma CollapsedGapUpcased(w: string, afterWord: bool)
    requires w != "" && IsSpace(w[0])
    requires var z := w[SpaceEnd(w, 0)..];
      UpcaseKeywords(CollapseSpace(z), false) == CollapseSpace(UpcaseKeywords(z, false))
    ensures UpcaseKeywords(CollapseSpace(w), afterWord) == CollapseSpace(UpcaseKeywords(w, afterWord))
  {
    hide IsSpace, IsKeyword, UpcaseKeywords, CollapseSpace;
    var n := SpaceEnd(w, 0);
    var p, z := w[..n], w[n..];
    assert w == p + z;
    CollapseGap(p, z);
    SpacesAre();
    UpcaseSpaces(" ", CollapseSpace(z), afterWord);
    UpcaseSpaces(p, z, afterWord);
    UpcaseStart(z, false);
    if z != "" { SameKind(z[0], UpcaseKeywords(z, false)[0]); }
    CollapseGap(p, UpcaseKeywords(z, false));
  }

  lemma CollapsedKeywordUpcased(w: string)
    requires w != "" && WordEnd(w, 0) > 0 && IsKeyword(w[..WordEnd(w, 0)])
    requires var z := w[WordEnd(w, 0)..];
      UpcaseKeywords(CollapseSpace(z), true) == CollapseSpace(UpcaseKeywords(z, true))
    ensures UpcaseKeywords(CollapseSpace(w), false) == CollapseSpace(UpcaseKeywords(w, false))
  {
    hide IsSpace, IsKeyword, CollapseSpace, IsWord;
    var n := WordEnd(w, 0);
    var run, z, c := w[..n], w[n..], CollapseSpace(w);
    CollapseWord(w);
    assert c[n..] == CollapseSpace(z) && c[..n] == run;
    forall k | 0 <= k < n
      ensures !IsSpace(Upper(run)[k])
    {
      UpperIsCaseLike(run);
      SameKind(run[k], Upper(run)[k]);
      SpacesAreNoWords(run[k]);
      assert run[k] == w[k];
    }
    CollapsePast(Upper(run), UpcaseKeywords(z, true));
  }

  lemma CollapsedCharacterUpcased(w: string, afterWord: bool)
    requires w != "" && !IsSpace(w[0])
    requires afterWord || WordEnd(w, 0) == 0 || !IsKeyword(w[..WordEnd(w, 0)])
    requires UpcaseKeywords(CollapseSpace(w[1..]), IsWord(w[0])) == CollapseSpace(UpcaseKeywords(w[1..], IsWord(w[0])))
    ensures UpcaseKeywords(CollapseSpace(w), afterWord) == CollapseSpace(UpcaseKeywords(w, afterWord))
  {
    hide IsSpace, IsKeyword, CollapseSpace, IsWord;
    var c := CollapseSpace(w);
    CollapseWord(w);
    assert w == [w[0]] + w[1..];
    CollapsePast([w[0]], w[1..]);
    assert c[1..] == CollapseSpace(w[1..]);
    CollapsePast([w[0]], UpcaseKeywords(w[1..], IsWord(w[0])));
  }

  // ----- Trimming -----

  lemma {:induction false} UpcaseTail(m: string, b: string, afterWord: bool)
    requires SpaceBetween(b, 0, |b|)
    ensures UpcaseKeywords(m + b, afterWord) == UpcaseKeywords(m, afterWord) + b
    decreases |m|
  {
    hide IsSpace, IsKeyword, IsWord, WordEnd, UpcaseKeywords;
    if m == "" {
      UpcaseEmpty(true);
      UpcaseEmpty(false);
      assert m + b == b && b + "" == b;
      if b != "" { UpcaseSpaces(b, "", afterWord); }
    } else {
      var n := WordEnd(m, 0);
      WordEndInside(m, b);
      DropOfConcat(m, b, n);
      DropOfConcat(m, b, 1);
      UpcaseUnfolds(m, afterWord);
      UpcaseUnfolds(m + b, afterWord);
      if !afterWord && n > 0 && IsKeyword(m[..n]) {
        UpcaseTail(m[n..], b, true);
        ConcatAssociates(Upper(m[..n]), UpcaseKeywords(m[n..], true), b);
      } else {
        UpcaseTail(m[1..], b, IsWord(m[0]));
        ConcatAssociates([m[0]], UpcaseKeywords(m[1..], IsWord(m[0])), b);
      }
    }
  }

  lemma WordEndInside(m: string, b: string)
    requires SpaceBetween(b, 0, |b|)
    ensures WordEnd(m + b, 0) == WordEnd(m, 0)
  {
    if b != "" { SpacesAreNoWords(b[0]); }
    assert b != "" ==> Stops(b);
    WordLocal(m, b, 0);
  }

  lemma TrimParts(a: string, m: string, b: string)
    requires SpaceBetween(a, 0, |a|) && SpaceBetween(b, 0, |b|)
    requires m != "" && !IsSpace(m[0]) && !IsSpace(m[|m| - 1])
    ensures TrimText(a + m + b) == m
  {
    hide IsSpace, Leading, Trailing;
    var w := a + m + b;
    assert w[|a|] == m[0] && w[|a| + |m| - 1] == m[|m| - 1];
    assert forall k :: 0 <= k < |a| ==> w[k] == a[k];
    assert forall k :: |a| + |m| <= k < |w| ==> w[k] == b[k - |a| - |m|];
    assert Leading(w) == |a|;
    assert Trailing(w) == |b|;
    assert w[|a|..|w| - |b|] == m;
  }

  lemma UpcaseBlank(w: string)
    requires SpaceBetween(w, 0, |w|)
    ensures UpcaseKeywords(w, false) == w
  {
    hide IsSpace, UpcaseKeywords;
    UpcaseEmpty(false);
    if w != "" {
      UpcaseSpaces(w, "", false);
      assert w + "" == w && w + UpcaseKeywords("", false) == w;
    }
  }

  lemma BlankByEnds(w: string)
    requires Leading(w) + Trailing(w) >= |w|
    ensures SpaceBetween(w, 0, |w|)
  {
    hide IsSpace, Leading, Trailing;
  }

  /** A text in three: the white space at its ends, and what is between. */
  lemma ThreeParts(w: string) returns (a: string, m: string, b: string)
    requires Leading(w) + Trailing(w) < |w|
    ensures w == a + m + b
    ensures SpaceBetween(a, 0, |a|) && SpaceBetween(b, 0, |b|)
    ensures m != "" && !IsSpace(m[0]) && !IsSpace(m[|m| - 1])
  {
    hide IsSpace, Leading, Trailing;
    var la, lb := Leading(w), Trailing(w);
    assert !IsSpace(w[la]) && !IsSpace(w[|w| - lb - 1]);
    SpaceEnds(w);
    hide SpaceBetween;
    InThree(w, la, |w| - lb);
    a, m, b := w[..la], w[la..|w| - lb], w[|w| - lb..];
  }

  lemma InThree(w: string, x: nat, y: nat)
    requires x < y <= |w|
    ensures w == w[..x] + w[x..y] + w[y..]
    ensures w[x..y][0] == w[x] && w[x..y][y - x - 1] == w[y - 1]
  {}

  lemma SpaceEnds(w: string)
    ensures SpaceBetween(w[..Leading(w)], 0, Leading(w))
    ensures SpaceBetween(w[|w| - Trailing(w)..], 0, Trailing(w))
  {
    hide IsSpace, Leading, Trailing;
  }

  lemma UpcaseTrim(w: string)
    ensures UpcaseKeywords(TrimText(w), false) == TrimText(UpcaseKeywords(w, false))
  {
    if Leading(w) + Trailing(w) >= |w| {
      assert TrimText(w) == "";
      hide IsSpace, UpcaseKeywords, TrimText;
      BlankByEnds(w);
      UpcaseBlank(w);
      UpcaseEmpty(false);
    } else {
      hide IsSpace, UpcaseKeywords, TrimText, Leading, Trailing, SpaceBetween;
      var a, m, b := ThreeParts(w);
      TrimmedUpcased(a, m, b);
      TrimParts(a, m, b);
    }
  }

  lemma TrimmedUpcased(a: string, m: string, b: string)
    requires SpaceBetween(a, 0, |a|) && SpaceBetween(b, 0, |b|)
    requires m != "" && !IsSpace(m[0]) && !IsSpace(m[|m| - 1])
    ensures TrimText(UpcaseKeywords(a + m + b, false)) == UpcaseKeywords(m, false)
  {
    hide IsSpace, UpcaseKeywords, TrimText, SpaceBetween;
    UpcasedParts(a, m, b);
    UpcasedEnds(m);
    TrimParts(a, UpcaseKeywords(m, false), b);
  }

  lemma UpcasedParts(a: string, m: string, b: string)
    requires SpaceBetween(a, 0, |a|) && SpaceBetween(b, 0, |b|)
    ensures UpcaseKeywords(a + m + b, false) == a + UpcaseKeywords(m, false) + b
  {
    hide IsSpace, UpcaseKeywords, SpaceBetween;
    ConcatAssociates(a, m, b);
    ConcatAssociates(a, UpcaseKeywords(m, false), b);
    UpcaseTail(m, b, false);
    if a == "" {
      assert a + (m + b) == m + b && a + (UpcaseKeywords(m, false) + b) == UpcaseKeywords(m, false) + b;
    } else {
      UpcaseSpaces(a, m + b, false);
    }
  }

  lemma UpcasedEnds(m: string)
    requires m != "" && !IsSpace(m[0]) && !IsSpace(m[|m| - 1])
    ensures var u := UpcaseKeywords(m, false); u != "" && !IsSpace(u[0]) && !IsSpace(u[|u| - 1])
  {
    hide IsSpace, UpcaseKeywords;
    var u := UpcaseKeywords(m, false);
    UpcaseStart(m, false);
    SameKind(m[0], u[0]);
    SameKind(m[|m| - 1], u[|m| - 1]);
  }
}
