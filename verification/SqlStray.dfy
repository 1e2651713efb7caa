/** A placeholder that is replaced where it was not put shows in the meaning, whatever else formatting does. */
module SqlStray {
  import opened SqlText
  import opened SqlTokens
  import opened SqlProtect
  import opened SqlRestore
  import opened SqlLexemes
  import opened SqlShape
  import opened SqlFaithful

  lemma CanonicalKeeps(token: string)
    ensures |Canonical(token)| == |token|
    ensures forall k :: 0 <= k < |token| && (IsMark(token[k]) || token[k] == '_') ==> Canonical(token)[k] == token[k]
  {
    hide SqlTokenClass;
  }

  lemma FrontOverClash(r: string, t: string, h: nat, n: nat)
    requires Clash(r, t, h) && h < n <= |r| && n <= |t|
    ensures Canonical(r[..n]) != Canonical(t[..n])
  {
    hide Canonical;
    CanonicalKeeps(r[..n]);
    CanonicalKeeps(t[..n]);
    assert r[..n][h] == r[h] && t[..n][h] == t[h];
    assert Canonical(r[..n])[h] == r[h] && Canonical(t[..n])[h] == t[h];
  }

  /** Front tokens of two texts that part at `h` say the same only when they end before that. */
  lemma SameFront(r: string, t: string, h: nat, m: nat, n: nat)
    requires Clash(r, t, h) && m <= |r| && n <= |t|
    requires Canonical(r[..m]) == Canonical(t[..n])
    ensures m == n <= h && r[..n] == t[..n]
  {
    hide Canonical;
    CanonicalKeeps(r[..m]);
    CanonicalKeeps(t[..n]);
    if h < n { FrontOverClash(r, t, h, n); }
    assert r[..n] == r[..h][..n] && t[..n] == t[..h][..n];
  }

  lemma ClashBehind(r: string, t: string, h: nat, n: nat)
    requires Clash(r, t, h) && n <= h
    ensures Clash(r[n..], t[n..], h - n)
  {
    assert r[n..][..h - n] == r[..h][n..] && t[n..][..h - n] == t[..h][n..];
  }

  /** The front lexeme of a shape: its text, and what is left. */
  lemma FrontLexeme(x: seq<Sym>, apart: bool, values: seq<string>, afterWord: bool)
    returns (n: nat, rest: seq<Sym>, a: bool)
    requires Readable(x, values) && x != [] && !(x[0].Ch? && IsSpace(x[0].c)) && (apart ==> !afterWord)
    ensures var t := Full(x, values);
      && 0 < n <= |t| && t[n..] == Full(rest, values) && |rest| < |x| && Readable(rest, values)
      && (a ==> !IsWord(t[n - 1]))
      && ShapeLexemes(Shape(x, apart), values, afterWord) ==
         [t[..n]] + ShapeLexemes(Shape(rest, a), values, IsWord(t[n - 1]))
  {
    hide Key, IsSpace, IsSeparator, IsWord, PlainLength, Chunk, Shape, Full;
    var t, y := Full(x, values), Shape(x, apart);
    if x[0].Hole? {
      HoleInFront(x, apart, values);
      n, rest, a := |TextOf(x[0], values)|, x[1..], false;
    } else {
      ShapeStep(x, apart);
      ChunkIsFront(x, apart, values);
      var g := Chunk(y);
      n := PlainLength(g, afterWord && !y[0].apart);
      rest, a := x[n..], IsSeparator(g[n - 1]);
      FullDrop(x, values, n);
      ShapeDrop(x, apart, g, n);
      SeparatorIsNoWord(g[n - 1]);
      assert t[..n] == g[..n] && t[n - 1] == g[n - 1];
    }
  }

  lemma HoleInFront(x: seq<Sym>, apart: bool, values: seq<string>)
    requires Readable(x, values) && x != [] && x[0].Hole?
    ensures var t, v := Full(x, values), TextOf(x[0], values);
      && v != "" && |v| <= |t| && t[..|v|] == v && t[|v|..] == Full(x[1..], values) && t[|v| - 1] == v[|v| - 1]
      && Shape(x, apart) == [Mark(x[0], apart)] + Shape(x[1..], false)
  {
    hide Key, IsSpace, IsSeparator;
    FrontOfText(x, values);
  }

  predicate SpaceInFront(x: seq<Sym>) {
    x != [] && x[0].Ch? && IsSpace(x[0].c)
  }

  /** Neither text has white space where they part, and before that they are the same. */
  lemma NoSpaceAtClash(x: seq<Sym>, values: seq<string>, r: string, h: nat)
    requires Readable(x, values) && Clash(r, Full(x, values), h)
    ensures x != [] && r != "" && if SpaceInFront(x) then h > 0 else !IsSpace(r[0])
  {
    var t := Full(x, values);
    hide Key, IsValue;
    if x != [] { FrontOfText(x, values); }
    SpacesAreNoWords(t[0]);
    if h > 0 { assert r[0] == r[..h][0] == t[..h][0] == t[0]; }
  }

  /** The text says something else than the symbols. */
  predicate SaysOther(x: seq<Sym>, apart: bool, values: seq<string>, r: string, afterWord: bool) {
    Canonicals(Lexemes(r, afterWord)) != Canonicals(ShapeLexemes(Shape(x, apart), values, afterWord))
  }

  /** A text that parts from the symbols' at a mark or underscore says something else. */
  lemma {:induction false} ClashSays(x: seq<Sym>, apart: bool, values: seq<string>, r: string, h: nat, afterWord: bool)
    requires Readable(x, values) && Clash(r, Full(x, values), h) && (apart ==> !afterWord)
    ensures SaysOther(x, apart, values, r, afterWord)
    decreases |x|
  {
    hide SpaceInFront, Clash, Full, SaysOther, Readable;
    NoSpaceAtClash(x, values, r, h);
    if SpaceInFront(x) {
      SpaceBeforeClash(x, apart, values, r, h, afterWord);
      ClashSays(x[1..], true, values, r[1..], h - 1, false);
    } else {
      var same, n, rest, a, w := TokenBeforeClash(x, apart, values, r, h, afterWord);
      if same { ClashSays(rest, a, values, r[n..], h - n, w); }
    }
  }

  /** The front tokens differ, or they are the same and the rest decides. */
  lemma TokenBeforeClash(x: seq<Sym>, apart: bool, values: seq<string>, r: string, h: nat, afterWord: bool)
    returns (same: bool, n: nat, rest: seq<Sym>, a: bool, w: bool)
    requires Readable(x, values) && Clash(r, Full(x, values), h) && (apart ==> !afterWord)
    requires x != [] && !SpaceInFront(x) && r != "" && !IsSpace(r[0])
    ensures |rest| < |x| && Readable(rest, values) && (a ==> !w)
    ensures !same ==> SaysOther(x, apart, values, r, afterWord)
    ensures same ==> n <= h && n <= |r| && Clash(r[n..], Full(rest, values), h - n)
    ensures same && SaysOther(rest, a, values, r[n..], w) ==> SaysOther(x, apart, values, r, afterWord)
  {
    hide Key, IsSpace, IsSeparator, IsWord, FrontLength, Lexemes,
      Shape, Canonicals, Canonical, ShapeLexemes, Clash, Full;
    var t, m := Full(x, values), FrontLength(r, afterWord);
    LexFront(r, afterWord);
    n, rest, a := FrontLexeme(x, apart, values, afterWord);
    w := IsWord(t[n - 1]);
    CanonicalsDiffer(r[..m], Lexemes(r[m..], IsWord(r[m - 1])), t[..n], ShapeLexemes(Shape(rest, a), values, w));
    same := Canonical(r[..m]) == Canonical(t[..n]);
    if same {
      SameFront(r, t, h, m, n);
      ClashBehind(r, t, h, n);
      assert r[n - 1] == r[..n][n - 1] == t[n - 1];
    }
  }

  lemma SpaceBeforeClash(x: seq<Sym>, apart: bool, values: seq<string>, r: string, h: nat, afterWord: bool)
    requires SpaceInFront(x) && Readable(x, values) && Clash(r, Full(x, values), h) && h > 0
    ensures x != [] && r != "" && Readable(x[1..], values) && Clash(r[1..], Full(x[1..], values), h - 1)
    ensures SaysOther(x, apart, values, r, afterWord) <==> SaysOther(x[1..], true, values, r[1..], false)
  {
    hide IsSpace, IsSeparator, Shape, Lexemes, ShapeLexemes;
    var t := Full(x, values);
    assert t[0] == x[0].c && t[1..] == Full(x[1..], values);
    assert r[0] == r[..h][0] == t[..h][0] == t[0];
    assert r == [r[0]] + r[1..];
    LexSpace(x, apart, values, afterWord);
    SpaceSaysNothing(r[0], r[1..], afterWord);
    ClashBehind(r, t, h, 1);
  }

  lemma CanonicalsDiffer(token: string, s: seq<string>, other: string, t: seq<string>)
    ensures Canonicals([token] + s) == Canonicals([other] + t) ==>
      Canonical(token) == Canonical(other) && Canonicals(s) == Canonicals(t)
  {
    hide Canonical;
    assert ([token] + s)[1..] == s && ([other] + t)[1..] == t;
    var one, two := [Canonical(token)] + Canonicals(s), [Canonical(other)] + Canonicals(t);
    assert one[0] == Canonical(token) && two[0] == Canonical(other);
    assert one[1..] == Canonicals(s) && two[1..] == Canonicals(t);
  }
}
