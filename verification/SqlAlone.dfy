/** Whether every placeholder stands alone does not change when keywords are put in upper case or white space moves. */
module SqlAlone {
  import opened SqlText
  import opened SqlProtect
  import opened SqlRestore
  import opened SqlLexemes
  import opened SqlShape
  import opened SqlFormat
  import opened SqlUpcase

  // ----- The long words of a text -----

  predicate AllWord(t: string) {
    forall k :: 0 <= k < |t| ==> IsWord(t[k])
  }

  /** Longer than every keyword, as placeholders are. */
  function LongWord(run: string): seq<string> {
    if |run| > 9 then [run] else []
  }

  /** The long runs of word characters, in order; `run` is what the text before ends in. */
  function LongWords(t: string, run: string): seq<string> {
    if t == "" then LongWord(run)
    else if IsWord(t[0]) then LongWords(t[1..], run + [t[0]])
    else LongWord(run) + LongWords(t[1..], "")
  }

  /** The same long words, whatever stands in front. */
  ghost predicate SameWords(t: string, u: string) {
    forall run :: LongWords(t, run) == LongWords(u, run)
  }

  predicate Absent(key: string, t: string) {
    forall d :: 0 <= d <= |t| ==> !(key <= t[d..])
  }

  /** A placeholder is found in a text exactly when it is found in one of its long words. */
  lemma {:induction false} AbsentInWords(key: string, t: string, run: string)
    requires |key| > 9 && AllWord(key) && AllWord(run)
    ensures Absent(key, run + t) <==> forall word :: word in LongWords(t, run) ==> Absent(key, word)
    decreases |t|
  {
    hide IsWord, Absent;
    if t == "" {
      assert run + t == run;
      if |run| <= 9 { TooShort(key, run); }
    } else if IsWord(t[0]) {
      assert run + [t[0]] + t[1..] == run + t;
      AbsentInWords(key, t[1..], run + [t[0]]);
    } else {
      assert run + t == run + [t[0]] + t[1..] && "" + t[1..] == t[1..];
      AbsentAround(key, run, t[0], t[1..]);
      AbsentInWords(key, t[1..], "");
      if |run| <= 9 { TooShort(key, run); }
    }
  }

  lemma TooShort(key: string, run: string)
    requires |run| < |key|
    ensures Absent(key, run)
  {}

  lemma AbsentAround(key: string, p: string, c: char, t: string)
    requires key != "" && AllWord(key) && !IsWord(c)
    ensures Absent(key, p + [c] + t) <==> Absent(key, p) && Absent(key, t)
  {
    hide IsWord;
    var all := p + [c] + t;
    forall d | 0 <= d <= |t| ensures all[|p| + 1 + d..] == t[d..] {}
    forall d | 0 <= d <= |p| ensures key <= all[d..] <==> key <= p[d..] {
      BeforeOther(key, p[d..], c, t);
      assert all[d..] == p[d..] + [c] + t;
    }
    forall d | 0 <= d <= |all| ensures d <= |p| || all[d..] == t[d - |p| - 1..] {}
  }

  /** A run of word characters at the front ends before another character. */
  lemma BeforeOther(key: string, p: string, c: char, t: string)
    requires AllWord(key) && !IsWord(c)
    ensures key <= p + [c] + t <==> key <= p
  {
    hide IsWord;
    var all := p + [c] + t;
    if key <= all {
      assert all[|p|] == c;
      assert forall k :: 0 <= k < |key| ==> key[k] == all[k];
      assert |key| <= |p|;
      assert all[..|key|] == p[..|key|];
    }
    assert all[..|p|] == p;
  }

  // ----- Which words two texts share -----

  lemma {:induction false} SameBehind(part: string, t: string, u: string)
    requires SameWords(t, u)
    ensures SameWords(part + t, part + u)
  {
    hide IsWord;
    if part == "" {
      assert part + t == t && part + u == u;
    } else {
      SameBehind(part[1..], t, u);
      assert (part + t)[1..] == part[1..] + t && (part + u)[1..] == part[1..] + u;
      forall run ensures LongWords(part + t, run) == LongWords(part + u, run) {}
    }
  }

  lemma WordsAtBlank(c: char, t: string, run: string)
    requires !IsWord(c)
    ensures LongWords([c] + t, run) == LongWord(run) + LongWords(t, "")
  {
    assert ([c] + t)[1..] == t;
  }

  lemma {:induction false} WordsPastRun(word: string, z: string, run: string)
    requires AllWord(word)
    ensures LongWords(word + z, run) == LongWords(z, run + word)
  {
    hide IsWord;
    if word == "" {
      assert word + z == z && run + word == run;
    } else {
      assert (word + z)[1..] == word[1..] + z && run + word == run + [word[0]] + word[1..];
      WordsPastRun(word[1..], z, run + [word[0]]);
    }
  }

  /** A short word of its own has no part in it. */
  lemma ShortWord(word: string, z: string)
    requires AllWord(word) && |word| <= 9 && (z == "" || !IsWord(z[0]))
    ensures LongWords(word + z, "") == LongWords(z, "")
  {
    hide IsWord;
    WordsPastRun(word, z, "");
    assert "" + word == word;
    if z != "" { assert z == [z[0]] + z[1..]; WordsAtBlank(z[0], z[1..], word); WordsAtBlank(z[0], z[1..], ""); }
  }

  /** The shape written out, a space in front of every mark that stands apart. */
  function Spaced(y: seq<Mark>, values: seq<string>): string {
    if y == [] then ""
    else (if y[0].apart then " " else "") + TextOf(y[0].sym, values) + Spaced(y[1..], values)
  }

  /** The long words of a text are those of its shape. */
  lemma {:induction false} WordsOfShape(x: seq<Sym>, apart: bool, values: seq<string>, run: string)
    ensures LongWords(Spaced(Shape(x, apart), values), run) ==
            if apart then LongWord(run) + LongWords(Full(x, values), "") else LongWords(Full(x, values), run)
    decreases |x|
  {
    hide IsSpace, IsSeparator, IsWord, LongWord, Key;
    if x == [] {
      WordsOfNothing(run);
    } else {
      var y, t, part := Shape(x, apart), Full(x[1..], values), TextOf(x[0], values);
      if x[0].Ch? && IsSpace(x[0].c) {
        SpacesAreNoWords(x[0].c);
        WordsAtBlank(x[0].c, t, run);
        WordsAtBlank(x[0].c, t, "");
        WordsOfShape(x[1..], true, values, run);
        WordsOfNothing("");
      } else {
        var sep := x[0].Ch? && IsSeparator(x[0].c);
        var u := Spaced(Shape(x[1..], sep), values);
        if sep {
          BreaksStop(x[0].c);
          WordsOfShape(x[1..], true, values, "");
        } else {
          forall r ensures LongWords(u, r) == LongWords(t, r) { WordsOfShape(x[1..], false, values, r); }
        }
        assert y == [Mark(x[0], apart || sep)] + Shape(x[1..], sep);
        WordsAtMark(Mark(x[0], apart || sep), Shape(x[1..], sep), values, t, run, sep);
      }
    }
  }

  lemma WordsAtMark(mark: Mark, rest: seq<Mark>, values: seq<string>, t: string, run: string, sep: bool)
    requires sep ==> mark.apart && mark.sym.Ch? && !IsWord(mark.sym.c)
    requires
      if sep then LongWords(Spaced(rest, values), "") == LongWord("") + LongWords(t, "")
      else SameWords(Spaced(rest, values), t)
    ensures LongWords(Spaced([mark] + rest, values), run) ==
      if mark.apart then LongWord(run) + LongWords(TextOf(mark.sym, values) + t, "")
      else LongWords(TextOf(mark.sym, values) + t, run)
    ensures sep ==> LongWords(Spaced([mark] + rest, values), run) == LongWords(TextOf(mark.sym, values) + t, run)
  {
    hide IsWord, Key, LongWords, LongWord, SameWords, Spaced;
    var part, u := TextOf(mark.sym, values), Spaced(rest, values);
    SpacedFront(mark, rest, values);
    NoWordSpace();
    WordsAtBlank(' ', part + u, run);
    if sep {
      WordsAtSeparator(mark.sym.c, u, t, run);
    } else {
      SameBehind(part, u, t);
      SameNow(part + u, part + t, run);
      SameNow(part + u, part + t, "");
    }
  }

  lemma SameNow(t: string, u: string, run: string)
    requires SameWords(t, u)
    ensures LongWords(t, run) == LongWords(u, run)
  {
    hide LongWords;
  }

  lemma WordsAtSeparator(c: char, u: string, t: string, run: string)
    requires !IsWord(c) && LongWords(u, "") == LongWord("") + LongWords(t, "")
    ensures LongWords([c] + u, "") == LongWords([c] + t, "")
    ensures LongWord(run) + LongWords([c] + t, "") == LongWords([c] + t, run)
  {
    hide IsWord, LongWords;
    WordsOfNothing("");
    WordsAtBlank(c, t, run);
    WordsAtBlank(c, t, "");
    WordsAtBlank(c, u, "");
    assert LongWord("") + LongWords(t, "") == LongWords(t, "");
  }

  lemma SpacedFront(mark: Mark, rest: seq<Mark>, values: seq<string>)
    ensures Spaced([mark] + rest, values) ==
      if mark.apart then [' '] + (TextOf(mark.sym, values) + Spaced(rest, values))
      else TextOf(mark.sym, values) + Spaced(rest, values)
  {
    hide Key, RenderSym;
    assert ([mark] + rest)[1..] == rest;
    ConcatAssociates([' '], TextOf(mark.sym, values), Spaced(rest, values));
  }

  lemma NoWordSpace()
    ensures !IsWord(' ')
  {}

  lemma WordsOfNothing(run: string)
    ensures LongWord("") == [] && LongWords("", run) == LongWord(run)
  {}

  /** Keywords are too short to count, and all other words stay. */
  lemma {:induction false} WordsOfUpcased(x: seq<Sym>, values: seq<string>, afterWord: bool, run: string)
    requires afterWord || run == ""
    ensures LongWords(Full(UpcaseSymbols(x, afterWord), values), run) == LongWords(Full(x, values), run)
    decreases |x|
  {
    hide IsWord, Key, KeywordAt, WordRun, Characters, Symbolic, Upper, LongWord;
    if x != [] {
      if x[0].Ch? && !afterWord && KeywordAt(x) {
        var n := WordRun(x);
        KeywordRunIsLong(x);
        WordsOfUpcased(x[n..], values, true, "");
        WordsOfKeyword(x, values);
      } else {
        var next, part, t := x[0].Hole? || IsWord(x[0].c), TextOf(x[0], values), Full(x[1..], values);
        var rest := UpcaseSymbols(x[1..], next);
        var u := Full(rest, values);
        assert ([x[0]] + rest)[1..] == rest && UpcaseSymbols(x, afterWord) == [x[0]] + rest;
        if next {
          forall r ensures LongWords(t, r) == LongWords(u, r) { WordsOfUpcased(x[1..], values, true, r); }
          SameBehind(part, t, u);
        } else {
          WordsOfUpcased(x[1..], values, false, "");
          WordsAtBlank(x[0].c, t, run);
          WordsAtBlank(x[0].c, u, run);
        }
      }
    }
  }

  lemma WordsOfKeyword(x: seq<Sym>, values: seq<string>)
    requires x != [] && x[0].Ch? && KeywordAt(x)
    requires var z := x[WordRun(x)..];
      LongWords(Full(UpcaseSymbols(z, true), values), "") == LongWords(Full(z, values), "")
    ensures LongWords(Full(UpcaseSymbols(x, false), values), "") == LongWords(Full(x, values), "")
  {
    hide IsWord, Key, UpcaseSymbols, IsKeyword, LongWords;
    var n := WordRun(x);
    var z, word := x[n..], Characters(x[..n]);
    KeywordUnfolds(x);
    RenderSymbolic(Upper(word), UpcaseSymbols(z, true), values, |values|);
    RenderCharacters(x, values, |values|, n);
    if |word| > 9 { LongRunsAreNoKeywords(word); }
    forall k | 0 <= k < n ensures IsWord(word[k]) && IsWord(Upper(word)[k]) {
      assert x[k].Ch? && IsWord(x[k].c);
      UpperIsCaseLike(word);
      SameKind(word[k], Upper(word)[k]);
    }
    BehindKeyword(z, values);
    ShortWord(word, Full(z, values));
    ShortWord(Upper(word), Full(UpcaseSymbols(z, true), values));
  }

  lemma BehindKeyword(z: seq<Sym>, values: seq<string>)
    requires z != [] ==> z[0].Ch? && !IsWord(z[0].c)
    ensures var t := Full(z, values); t == "" || !IsWord(t[0])
    ensures var t := Full(UpcaseSymbols(z, true), values); t == "" || !IsWord(t[0])
  {
    hide IsWord, KeywordAt;
    if z != [] {
      assert UpcaseSymbols(z, true)[0] == z[0];
    }
  }

  // ----- The text up to a hole and behind it -----

  function UpTo(x: seq<Sym>, k: nat): seq<Sym> {
    if x == [] then [] else if x[0] == Hole(k) then [x[0]] else [x[0]] + UpTo(x[1..], k)
  }

  function Behind(x: seq<Sym>, k: nat): seq<Sym> {
    if x == [] then [] else if x[0] == Hole(k) then x[1..] else Behind(x[1..], k)
  }

  /** The values before number `k`, and all but the last character of its placeholder. */
  function Filled(values: seq<string>, k: nat): seq<string>
    requires k < |values|
  {
    KeyIsText(k);
    values[..k] + [Key(k)[..|Key(k)| - 1]]
  }

  /** The restored text before hole `k` and the beginning of its placeholder:
      the whole is found here only when it starts before the hole. */
  function TextUpTo(x: seq<Sym>, values: seq<string>, k: nat): string
    requires k < |values|
  {
    Full(UpTo(x, k), Filled(values, k))
  }

  /** The text behind hole `k`, whose holes show their placeholders. */
  function TextBehind(x: seq<Sym>, k: nat): string {
    Full(Behind(x, k), [])
  }

  predicate HoleAlone(x: seq<Sym>, before: string, values: seq<string>, k: nat)
    requires k < |values|
  {
    Absent(Key(k), before + TextUpTo(x, values, k)) && Absent(Key(k), TextBehind(x, k))
  }

  lemma AbsentIsNoHit(key: string, before: string, t: string)
    requires key != ""
    ensures NoHit(before, key, key) <==> Absent(key, before + key[..|key| - 1])
    ensures NoHit(t, "", key) <==> Absent(key, t)
  {
    var last, short := |key| - 1, before + key[..|key| - 1];
    forall d | 0 <= d < |before| ensures key <= before[d..] + key <==> key <= short[d..] {
      assert before[d..] + key == short[d..] + [key[last]];
      assert |short[d..]| >= |key|;
      assert (before[d..] + key)[..|key|] == short[d..][..|key|];
    }
    forall d | 0 <= d < |t| ensures t[d..] + "" == t[d..] {}
  }

  /** The condition, hole by hole. */
  lemma {:induction false} AloneByHoles(x: seq<Sym>, before: string, values: seq<string>, n: nat)
    requires Numbered(x, n, |values|) && n <= |values|
    ensures Alone(x, before, values) <==> forall k :: n <= k < |values| ==> HoleAlone(x, before, values, k)
    decreases |x|
  {
    hide Key, NoHit, Absent, HoleAlone;
    if x != [] {
      if x[0].Ch? {
        AloneByHoles(x[1..], before + [x[0].c], values, n);
        forall k | n <= k < |values|
          ensures HoleAlone(x, before, values, k) <==> HoleAlone(x[1..], before + [x[0].c], values, k)
        {
          HoleAlonePast(x, before, values, k);
        }
      } else {
        NumberedGrows(x[1..], n + 1, |values|);
        AloneByHoles(x[1..], before + values[n], values, n + 1);
        HoleAloneHere(x, before, values);
        forall k | n < k < |values|
          ensures HoleAlone(x, before, values, k) <==> HoleAlone(x[1..], before + values[n], values, k)
        {
          HoleAlonePast(x, before, values, k);
        }
      }
    }
  }

  lemma HoleAlonePast(x: seq<Sym>, before: string, values: seq<string>, k: nat)
    requires x != [] && k < |values| && (x[0].Hole? ==> x[0].k < k)
    ensures HoleAlone(x, before, values, k) <==>
            HoleAlone(x[1..], before + RenderSym(x[0], values, |values|), values, k)
  {
    hide Key, Absent;
    var filled, rest := Filled(values, k), UpTo(x[1..], k);
    KeyIsText(k);
    RenderFront(x[0], rest, filled, |filled|);
    assert TextOf(x[0], filled) == RenderSym(x[0], values, |values|);
    ConcatAssociates(before, TextOf(x[0], filled), Full(rest, filled));
  }

  lemma HoleAloneHere(x: seq<Sym>, before: string, values: seq<string>)
    requires x != [] && x[0].Hole? && x[0].k < |values|
    ensures var key := Key(x[0].k);
      HoleAlone(x, before, values, x[0].k) <==> NoHit(before, key, key) && NoHit(Render(x[1..], values, 0), "", key)
  {
    hide Key, Absent, NoHit;
    var k, key := x[0].k, Key(x[0].k);
    KeyIsText(k);
    OneHole(k, Filled(values, k));
    ShowsPlaceholders(x[1..], values);
    AbsentIsNoHit(key, before, Render(x[1..], values, 0));
  }

  lemma OneHole(k: nat, filled: seq<string>)
    requires k < |filled|
    ensures Full([Hole(k)], filled) == filled[k]
  {
    assert [Hole(k)] + [] == [Hole(k)];
    RenderFront(Hole(k), [], filled, |filled|);
    RenderNothing(filled, |filled|);
  }

  lemma {:induction false} ShowsPlaceholders(x: seq<Sym>, values: seq<string>)
    ensures Render(x, values, 0) == Full(x, [])
  {
    hide Key;
    if x != [] { ShowsPlaceholders(x[1..], values); }
  }

  // ----- Upper-casing and layout, up to a hole and behind it -----

  lemma {:induction false} PastCharacters(x: seq<Sym>, n: nat, k: nat)
    requires n <= |x| && forall j :: 0 <= j < n ==> x[j].Ch?
    ensures UpTo(x, k) == x[..n] + UpTo(x[n..], k) && Behind(x, k) == Behind(x[n..], k)
  {
    if n == 0 {
      assert x[0..] == x;
    } else {
      PastCharacters(x[1..], n - 1, k);
      PrependStays(x, n, UpTo(x[n..], k));
    }
  }

  lemma {:induction false} RunUpTo(x: seq<Sym>, k: nat)
    ensures WordRun(UpTo(x, k)) == WordRun(x) && UpTo(x, k)[..WordRun(x)] == x[..WordRun(x)]
    ensures var n := WordRun(x); n < |x| && x[n].Hole? <==> n < |UpTo(x, k)| && UpTo(x, k)[n].Hole?
  {
    hide IsWord;
    var n := WordRun(x);
    PastCharacters(x, n, k);
    var y, z := UpTo(x, k), UpTo(x[n..], k);
    assert y == x[..n] + z && (z == [] <==> x[n..] == []) && (z != [] ==> z[0] == x[n]);
    RunIs(y, n);
  }

  lemma {:induction false} RunIs(y: seq<Sym>, n: nat)
    requires n <= |y| && forall j :: 0 <= j < n ==> y[j].Ch? && IsWord(y[j].c)
    requires n < |y| && y[n].Ch? ==> !IsWord(y[n].c)
    ensures WordRun(y) == n
  {
    hide IsWord;
    if n > 0 { RunIs(y[1..], n - 1); }
  }

  lemma KeywordUpTo(x: seq<Sym>, k: nat)
    ensures KeywordAt(UpTo(x, k)) <==> KeywordAt(x)
  {
    hide IsKeyword, IsWord, WordRun;
    RunUpTo(x, k);
  }

  /** Upper-casing up to a hole is upper-casing, and so it is behind one. */
  lemma {:induction false} UpcaseUpTo(x: seq<Sym>, afterWord: bool, k: nat)
    ensures UpTo(UpcaseSymbols(x, afterWord), k) == UpcaseSymbols(UpTo(x, k), afterWord)
    ensures Behind(UpcaseSymbols(x, afterWord), k) == UpcaseSymbols(Behind(x, k), true)
    decreases |x|
  {
    hide IsWord, KeywordAt, WordRun, Characters, Symbolic, Upper;
    if x != [] {
      var u := UpTo(x, k);
      KeywordUpTo(x, k);
      if x[0].Ch? && !afterWord && KeywordAt(x) {
        var n := WordRun(x);
        var run := Symbolic(Upper(Characters(x[..n])));
        KeywordRunIsLong(x);
        UpcaseUpTo(x[n..], true, k);
        RunUpTo(x, k);
        PastCharacters(x, n, k);
        PastRun(run, UpcaseSymbols(x[n..], true), k);
        assert u[n..] == UpTo(x[n..], k);
      } else {
        var next := x[0].Hole? || IsWord(x[0].c);
        var rest := UpcaseSymbols(x[1..], next);
        UpcaseUpTo(x[1..], next, k);
        assert ([x[0]] + rest)[1..] == rest && UpcaseSymbols(x, afterWord) == [x[0]] + rest;
        if x[0] != Hole(k) { assert u == [x[0]] + UpTo(x[1..], k); }
      }
    }
  }

  lemma PastRun(run: seq<Sym>, rest: seq<Sym>, k: nat)
    requires forall j :: 0 <= j < |run| ==> run[j].Ch?
    ensures UpTo(run + rest, k) == run + UpTo(rest, k) && Behind(run + rest, k) == Behind(rest, k)
  {
    var all := run + rest;
    assert all[|run|..] == rest && all[..|run|] == run;
    PastCharacters(all, |run|, k);
  }

  function MarksUpTo(y: seq<Mark>, k: nat): seq<Mark> {
    if y == [] then [] else if y[0].sym == Hole(k) then [y[0]] else [y[0]] + MarksUpTo(y[1..], k)
  }

  function MarksBehind(y: seq<Mark>, k: nat): seq<Mark> {
    if y == [] then [] else if y[0].sym == Hole(k) then y[1..] else MarksBehind(y[1..], k)
  }

  lemma {:induction false} ShapeUpTo(x: seq<Sym>, apart: bool, k: nat)
    ensures Shape(UpTo(x, k), apart) == MarksUpTo(Shape(x, apart), k)
    ensures Shape(Behind(x, k), false) == MarksBehind(Shape(x, apart), k)
    decreases |x|
  {
    hide IsSpace, IsSeparator;
    if x != [] {
      var u := UpTo(x, k);
      if x[0] == Hole(k) {
        assert Shape(x[1..], false) == Shape(x, apart)[1..];
      } else {
        assert u[1..] == UpTo(x[1..], k);
        var space := x[0].Ch? && IsSpace(x[0].c);
        var a := x[0].Ch? && (IsSpace(x[0].c) || IsSeparator(x[0].c));
        ShapeUpTo(x[1..], a, k);
        if !space { assert Shape(x, apart)[1..] == Shape(x[1..], a); }
      }
    }
  }

  // ----- The condition does not change -----

  /** The placeholder of hole `k` is found before or behind the hole in both texts or in neither. */
  lemma SameAlone(x: seq<Sym>, y: seq<Sym>, values: seq<string>, k: nat)
    requires k < |values|
    requires LongWords(TextUpTo(x, values, k), "") == LongWords(TextUpTo(y, values, k), "")
    requires LongWords(TextBehind(x, k), "") == LongWords(TextBehind(y, k), "")
    ensures HoleAlone(x, "", values, k) <==> HoleAlone(y, "", values, k)
  {
    hide Key, TextUpTo, TextBehind, Absent, LongWords, IsWord;
    KeyIsLongWord(k);
    AbsentInWords(Key(k), TextUpTo(x, values, k), "");
    AbsentInWords(Key(k), TextUpTo(y, values, k), "");
    AbsentInWords(Key(k), TextBehind(x, k), "");
    AbsentInWords(Key(k), TextBehind(y, k), "");
    assert "" + TextBehind(x, k) == TextBehind(x, k) && "" + TextBehind(y, k) == TextBehind(y, k);
  }

  /** Upper-casing the keywords neither makes nor unmakes a placeholder. */
  lemma UpcaseAlone(x: seq<Sym>, values: seq<string>)
    requires Numbered(x, 0, |values|) && Numbered(UpcaseSymbols(x, false), 0, |values|)
    ensures Alone(UpcaseSymbols(x, false), "", values) <==> Alone(x, "", values)
  {
    hide Numbered, Alone, UpcaseSymbols, HoleAlone, LongWords;
    AloneByHoles(x, "", values, 0);
    AloneByHoles(UpcaseSymbols(x, false), "", values, 0);
    forall k: nat | k < |values|
      ensures HoleAlone(UpcaseSymbols(x, false), "", values, k) <==> HoleAlone(x, "", values, k)
    {
      UpcaseUpTo(x, false, k);
      WordsOfUpcased(UpTo(x, k), Filled(values, k), false, "");
      WordsOfUpcased(Behind(x, k), [], true, "");
      SameAlone(UpcaseSymbols(x, false), x, values, k);
    }
  }

  /** Nor does moving white space. */
  lemma ShapeAlone(x: seq<Sym>, y: seq<Sym>, values: seq<string>)
    requires Numbered(x, 0, |values|) && Numbered(y, 0, |values|) && Shape(x, true) == Shape(y, true)
    ensures Alone(x, "", values) <==> Alone(y, "", values)
  {
    hide Numbered, Alone, Shape, HoleAlone, LongWords;
    AloneByHoles(x, "", values, 0);
    AloneByHoles(y, "", values, 0);
    forall k: nat | k < |values| ensures HoleAlone(x, "", values, k) <==> HoleAlone(y, "", values, k) {
      ShapeUpTo(x, true, k);
      ShapeUpTo(y, true, k);
      SameShapeWords(UpTo(x, k), UpTo(y, k), true, Filled(values, k));
      SameShapeWords(Behind(x, k), Behind(y, k), false, []);
      SameAlone(x, y, values, k);
    }
  }

  lemma SameShapeWords(x: seq<Sym>, y: seq<Sym>, apart: bool, values: seq<string>)
    requires Shape(x, apart) == Shape(y, apart)
    ensures LongWords(Full(x, values), "") == LongWords(Full(y, values), "")
  {
    hide Shape, LongWords, LongWord, Full;
    var t, u := LongWords(Full(x, values), ""), LongWords(Full(y, values), "");
    WordsOfShape(x, apart, values, "");
    WordsOfShape(y, apart, values, "");
    WordsOfNothing("");
    assert LongWord("") + t == t && LongWord("") + u == u;
  }
}
