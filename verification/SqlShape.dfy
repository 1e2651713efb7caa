/** What formatting must keep: the non-blank symbols of a text, and which of them stand apart. */
module SqlShape {
  import opened Options
  import opened SqlText
  import opened SqlTokens
  import opened SqlProtect
  import opened SqlLexemes

  /** A symbol other than white space. It is apart when white space, a comma or a semicolon is between it and the
      one before, or when it is a comma or semicolon itself: there white space may come and go. */
  datatype Mark = Mark(sym: Sym, apart: bool)

  predicate IsSeparator(c: char) {
    c == ',' || c == ';'
  }

  function Shape(x: seq<Sym>, apart: bool): seq<Mark> {
    if x == [] then []
    else if x[0].Ch? && IsSpace(x[0].c) then Shape(x[1..], true)
    else if x[0].Ch? && IsSeparator(x[0].c) then [Mark(x[0], true)] + Shape(x[1..], true)
    else [Mark(x[0], apart)] + Shape(x[1..], false)
  }

  function TextOf(sym: Sym, values: seq<string>): string {
    RenderSym(sym, values, |values|)
  }

  predicate LastIsWord(t: string) {
    t != "" && IsWord(t[|t| - 1])
  }

  // ----- Lexemes of a shape -----

  /** The characters from the front mark on, up to the next hole or mark that stands apart. */
  function Chunk(y: seq<Mark>): (g: string)
    requires y != [] && y[0].sym.Ch?
    ensures 0 < |g| <= |y|
  {
    [y[0].sym.c] + (if |y| > 1 && y[1].sym.Ch? && !y[1].apart then Chunk(y[1..]) else "")
  }

  /** Length of the front token of a text that starts with neither white space nor a quote or comment. */
  function PlainLength(t: string, afterWord: bool): (n: nat)
    requires t != ""
    ensures 0 < n <= |t|
  {
    if afterWord && IsWord(t[0]) then 1
    else if NumberEnd(t, 0).Some? then NumberEnd(t, 0).value
    else if Boundary(t, 0) && IsLetter(t[0]) then WordEnd(t, 0)
    else 1
  }

  function ShapeLexemes(y: seq<Mark>, values: seq<string>, afterWord: bool): seq<string> {
    if y == [] then []
    else if y[0].sym.Hole? then
      [TextOf(y[0].sym, values)] + ShapeLexemes(y[1..], values, LastIsWord(TextOf(y[0].sym, values)))
    else
      var g := Chunk(y);
      var n := PlainLength(g, afterWord && !y[0].apart);
      [g[..n]] + ShapeLexemes(y[n..], values, IsWord(g[n - 1]))
  }

  /** What the text after a chunk may start with, so that no token of the chunk can reach into it. */
  predicate Stops(z: string) {
    z == "" || (!IsWord(z[0]) && z[0] != '.')
  }

  lemma {:induction false} DigitsLocal(g: string, z: string, i: nat)
    requires i <= |g| && Stops(z)
    ensures DigitsEnd(g + z, i) == DigitsEnd(g, i)
    decreases |g| - i
  {
    if i < |g| { DigitsLocal(g, z, i + 1); }
  }

  lemma {:induction false} WordLocal(g: string, z: string, i: nat)
    requires i <= |g| && Stops(z)
    ensures WordEnd(g + z, i) == WordEnd(g, i)
    decreases |g| - i
  {
    if i < |g| { WordLocal(g, z, i + 1); }
  }

  lemma NumberLocal(g: string, z: string)
    requires g != "" && Stops(z)
    ensures NumberEnd(g + z, 0) == NumberEnd(g, 0)
  {
    hide DigitsEnd;
    DigitsLocal(g, z, 0);
    var whole := DigitsEnd(g, 0);
    if whole < |g| {
      assert (g + z)[whole] == g[whole];
      if g[whole] == '.' { DigitsLocal(g, z, whole + 1); }
    }
  }

  lemma PlainLocal(g: string, z: string, afterWord: bool)
    requires g != "" && (Stops(z) || !IsWord(g[0]))
    ensures PlainLength(g + z, afterWord) == PlainLength(g, afterWord)
  {
    assert (g + z)[0] == g[0];
    if Stops(z) {
      NumberLocal(g, z);
      WordLocal(g, z, 0);
    }
  }

  /** `g` is the front of the text, and what follows stops its tokens or it is a lone separator. */
  ghost predicate IsFront(x: seq<Sym>, values: seq<string>, g: string) {
    && 0 < |g| <= |x|
    && (forall k :: 0 <= k < |g| ==> x[k] == Ch(g[k]))
    && Full(x, values) == g + Full(x[|g|..], values)
    && (Stops(Full(x[|g|..], values)) || (IsSeparator(g[0]) && |g| == 1))
    && (|g| > 1 ==> forall k :: 0 <= k < |g| ==> !IsSeparator(g[k]) && !IsSpace(g[k]))
  }

  lemma FrontAlone(x: seq<Sym>, values: seq<string>)
    requires x != [] && x[0].Ch?
    requires IsSeparator(x[0].c) || Stops(Full(x[1..], values))
    ensures IsFront(x, values, [x[0].c])
  {}

  lemma FrontLonger(x: seq<Sym>, values: seq<string>, g: string)
    requires x != [] && x[0].Ch? && !IsSpace(x[0].c) && !IsSeparator(x[0].c)
    requires IsFront(x[1..], values, g) && !IsSpace(g[0]) && !IsSeparator(g[0])
    ensures IsFront(x, values, [x[0].c] + g)
  {
    hide IsSpace, Stops;
    var rest, all := x[1..], [x[0].c] + g;
    assert x[|all|..] == rest[|g|..];
    forall k | 0 <= k < |all|
      ensures x[k] == Ch(all[k]) && !IsSeparator(all[k]) && !IsSpace(all[k])
    {
      if k > 0 { assert x[k] == rest[k - 1] && all[k] == g[k - 1]; }
    }
    assert Full(x, values) == [x[0].c] + Full(rest, values);
  }

  lemma {:induction false} ChunkIsFront(x: seq<Sym>, apart: bool, values: seq<string>)
    requires HolesIn(x, values)
    requires forall k :: 0 <= k < |values| ==> StartsLikeSegment(values[k])
    requires x != [] && x[0].Ch? && !IsSpace(x[0].c)
    ensures Shape(x, apart) != [] && Shape(x, apart)[0].sym == x[0]
    ensures IsFront(x, values, Chunk(Shape(x, apart)))
  {
    hide Key, IsFront, IsSpace, IsWord;
    var y, rest := Shape(x, apart), x[1..];
    if IsSeparator(x[0].c) {
      NextIsApart(rest);
      assert Chunk(y) == [x[0].c];
      FrontAlone(x, values);
    } else if rest != [] && rest[0].Ch? && !IsSpace(rest[0].c) && !IsSeparator(rest[0].c) {
      ChunkIsFront(rest, false, values);
      assert y[1..] == Shape(rest, false);
      FrontLonger(x, values, Chunk(Shape(rest, false)));
    } else {
      if rest != [] {
        FrontOfText(rest, values);
        if rest[0].Ch? { NextAfterBreak(rest); BreaksStop(rest[0].c); }
      }
      assert Chunk(y) == [x[0].c];
      FrontAlone(x, values);
    }
  }

  lemma BreaksStop(c: char)
    ensures IsSpace(c) || IsSeparator(c) ==> !IsWord(c) && c != '.'
    ensures c in "-/'\"" ==> !IsWord(c) && c != '.'
  {}

  lemma NextIsApart(x: seq<Sym>)
    ensures Shape(x, true) != [] ==> Shape(x, true)[0].apart
  {
    if x != [] && x[0].Ch? && IsSpace(x[0].c) { NextIsApart(x[1..]); }
  }

  lemma NextAfterBreak(x: seq<Sym>)
    requires x != [] && x[0].Ch? && (IsSpace(x[0].c) || IsSeparator(x[0].c))
    ensures Shape(x, false) != [] ==> Shape(x, false)[0].apart
  {
    if IsSpace(x[0].c) { NextIsApart(x[1..]); }
  }

  lemma FrontOfText(x: seq<Sym>, values: seq<string>)
    requires HolesIn(x, values)
    requires forall k :: 0 <= k < |values| ==> StartsLikeSegment(values[k])
    requires x != []
    ensures TextOf(x[0], values) != "" && Full(x, values) != "" && Full(x, values)[0] == TextOf(x[0], values)[0]
    ensures x[0].Hole? ==> Full(x, values)[0] in "-/'\"" && Stops(Full(x, values))
  {}

  // ----- Texts whose holes are read as their values -----

  /** The front symbol is read as what it stands for: a hole as one whole quote or comment, a character as none. */
  predicate FaithfulFront(x: seq<Sym>, values: seq<string>)
    requires x != []
  {
    var t := Full(x, values);
    && t != ""
    && match x[0]
       case Ch(_) => SegmentEnd(t, 0) == None
       case Hole(_) => SegmentEnd(t, 0) == Some(|TextOf(x[0], values)|)
  }

  predicate Faithful(x: seq<Sym>, values: seq<string>) {
    x == [] || (FaithfulFront(x, values) && Faithful(x[1..], values))
  }

  lemma {:induction false} FaithfulRest(x: seq<Sym>, values: seq<string>, n: nat)
    requires n <= |x| && Faithful(x, values)
    ensures Faithful(x[n..], values)
  {
    if n > 0 {
      FaithfulRest(x[1..], values, n - 1);
      assert x[1..][n - 1..] == x[n..];
    } else {
      assert x[0..] == x;
    }
  }

  lemma SpaceSaysNothing(c: char, rest: string, afterWord: bool)
    requires IsSpace(c)
    ensures Lexemes([c] + rest, afterWord) == Lexemes(rest, false)
  {
    var t := [c] + rest;
    assert t[1..] == rest;
    SpaceIsOneToken(t, afterWord);
    ShiftSpace(t, 1, 0);
    if rest != "" && IsSpace(rest[0]) {
      SpaceIsOneToken(rest, false);
      var n := SpaceEnd(rest, 0);
      assert rest[n..] == t[n + 1..];
      assert IsSpace(rest[n - 1]);
    }
  }

  lemma SpaceIsOneToken(t: string, afterWord: bool)
    requires t != "" && IsSpace(t[0])
    ensures FrontLength(t, afterWord) == SpaceEnd(t, 0)
    ensures !IsWord(t[SpaceEnd(t, 0) - 1])
    ensures Lexemes(t, afterWord) == Lexemes(t[SpaceEnd(t, 0)..], false)
  {
    var n := SpaceEnd(t, 0);
    assert IsSpace(t[n - 1]);
    SpacesAreNoWords(t[0]);
    SpacesAreNoWords(t[n - 1]);
    assert SegmentEnd(t, 0) == None && NumberEnd(t, 0) == None;
  }

  lemma SpacesAreNoWords(c: char)
    ensures IsSpace(c) ==> !IsWord(c) && c !in "-/'\"" && !IsSeparator(c)
  {}

  lemma ShapeStep(x: seq<Sym>, apart: bool)
    requires x != [] && x[0].Ch? && !IsSpace(x[0].c)
    ensures var sep := IsSeparator(x[0].c);
            Shape(x, apart) == [Mark(x[0], apart || sep)] + Shape(x[1..], sep)
  {}

  /** Dropping characters of the front chunk drops as many marks. */
  lemma {:induction false} ShapeDrop(x: seq<Sym>, apart: bool, g: string, n: nat)
    requires 0 < n <= |g| <= |x|
    requires forall k :: 0 <= k < n ==> x[k] == Ch(g[k]) && !IsSpace(g[k])
    requires forall k :: 0 <= k < n - 1 ==> !IsSeparator(g[k])
    ensures n <= |Shape(x, apart)|
    ensures Shape(x, apart)[n..] == Shape(x[n..], IsSeparator(g[n - 1]))
    decreases n
  {
    hide IsSpace, IsSeparator, Shape;
    var sep := IsSeparator(x[0].c);
    ShapeStep(x, apart);
    var head, rest := Mark(x[0], apart || sep), Shape(x[1..], sep);
    assert ([head] + rest)[1..] == rest;
    if n > 1 {
      forall k | 0 <= k < n - 1
        ensures x[1..][k] == Ch(g[1..][k]) && !IsSpace(g[1..][k])
      {
        assert x[k + 1] == Ch(g[k + 1]);
      }
      forall k | 0 <= k < n - 2
        ensures !IsSeparator(g[1..][k])
      {
        assert g[1..][k] == g[k + 1];
      }
      ShapeDrop(x[1..], sep, g[1..], n - 1);
      assert x[1..][n - 1..] == x[n..];
      assert ([head] + rest)[n..] == rest[n - 1..];
    }
  }

  lemma {:induction false} FullDrop(x: seq<Sym>, values: seq<string>, n: nat)
    requires n <= |x| && forall k :: 0 <= k < n ==> x[k].Ch?
    ensures n <= |Full(x, values)|
    ensures Full(x, values)[n..] == Full(x[n..], values)
  {
    if n == 0 {
      assert x[0..] == x;
    } else {
      FullDrop(x[1..], values, n - 1);
      assert x[1..][n - 1..] == x[n..];
      assert Full(x, values)[1..] == Full(x[1..], values);
    }
  }

  lemma FrontIsPlain(t: string, afterWord: bool)
    requires t != "" && SegmentEnd(t, 0) == None && !IsSpace(t[0])
    ensures FrontLength(t, afterWord) == PlainLength(t, afterWord)
  {}

  lemma ApartIsPlain(g: string, afterWord: bool, apart: bool)
    requires g != "" && (apart ==> !afterWord || IsSeparator(g[0]))
    ensures PlainLength(g, afterWord) == PlainLength(g, afterWord && !apart)
  {}

  /** The lexemes of a text whose holes are read as their values depend on its shape alone. */
  lemma {:induction false} LexShape(x: seq<Sym>, apart: bool, values: seq<string>, afterWord: bool)
    requires HolesIn(x, values)
    requires forall k :: 0 <= k < |values| ==> StartsLikeSegment(values[k])
    requires Faithful(x, values)
    requires apart ==> !afterWord
    ensures Lexemes(Full(x, values), afterWord) == ShapeLexemes(Shape(x, apart), values, afterWord)
    decreases |x|
  {
    hide Key, IsSpace, IsSeparator, IsWord, FrontLength, PlainLength, Chunk, Lexemes, Shape, Full;
    if x == [] {
      LexNothing(values, apart, afterWord);
    } else if x[0].Ch? && IsSpace(x[0].c) {
      LexSpace(x, apart, values, afterWord);
      LexShape(x[1..], true, values, false);
    } else if x[0].Hole? {
      LexHole(x, apart, values, afterWord);
      LexShape(x[1..], false, values, LastIsWord(TextOf(x[0], values)));
    } else {
      LexChunk(x, apart, values, afterWord);
      var y := Shape(x, apart);
      var g := Chunk(y);
      var n := PlainLength(g, afterWord && !y[0].apart);
      FaithfulRest(x, values, n);
      SeparatorIsNoWord(g[n - 1]);
      LexShape(x[n..], IsSeparator(g[n - 1]), values, IsWord(g[n - 1]));
    }
  }

  lemma LexNothing(values: seq<string>, apart: bool, afterWord: bool)
    ensures Full([], values) == "" && Lexemes("", afterWord) == [] && Shape([], apart) == []
  {}

  lemma LexSpace(x: seq<Sym>, apart: bool, values: seq<string>, afterWord: bool)
    requires x != [] && x[0].Ch? && IsSpace(x[0].c)
    ensures Lexemes(Full(x, values), afterWord) == Lexemes(Full(x[1..], values), false)
    ensures Shape(x, apart) == Shape(x[1..], true)
    ensures ShapeLexemes(Shape(x, apart), values, afterWord) == ShapeLexemes(Shape(x, apart), values, false)
  {
    hide IsSpace, Lexemes, Chunk, PlainLength;
    assert Full(x, values) == [x[0].c] + Full(x[1..], values);
    SpaceSaysNothing(x[0].c, Full(x[1..], values), afterWord);
    NextIsApart(x[1..]);
    ApartForgets(Shape(x, apart), values, afterWord);
  }

  lemma ApartForgets(y: seq<Mark>, values: seq<string>, afterWord: bool)
    requires y != [] ==> y[0].apart
    ensures ShapeLexemes(y, values, afterWord) == ShapeLexemes(y, values, false)
  {}

  lemma SeparatorIsNoWord(c: char)
    ensures IsSeparator(c) ==> !IsWord(c)
  {}

  lemma LexHole(x: seq<Sym>, apart: bool, values: seq<string>, afterWord: bool)
    requires HolesIn(x, values) && x != [] && x[0].Hole?
    requires forall k :: 0 <= k < |values| ==> StartsLikeSegment(values[k])
    requires FaithfulFront(x, values)
    ensures var v := TextOf(x[0], values);
            Lexemes(Full(x, values), afterWord) == [v] + Lexemes(Full(x[1..], values), LastIsWord(v))
    ensures Shape(x, apart) == [Mark(x[0], apart)] + Shape(x[1..], false)
  {
    hide IsSpace, IsWord, SegmentEnd;
    var t, v := Full(x, values), TextOf(x[0], values);
    FrontOfText(x, values);
    SpacesAreNoWords(t[0]);
    assert t[..|v|] == v && t[|v|..] == Full(x[1..], values) && t[|v| - 1] == v[|v| - 1];
  }

  lemma LexFront(t: string, afterWord: bool)
    requires t != "" && !IsSpace(t[0])
    ensures var n := FrontLength(t, afterWord);
            Lexemes(t, afterWord) == [t[..n]] + Lexemes(t[n..], IsWord(t[n - 1]))
  {
    hide FrontLength, IsSpace;
  }

  /** The front token of the text is the front token of its first chunk. */
  lemma FrontOfChunk(t: string, g: string, z: string, afterWord: bool, apart: bool)
    requires t == g + z && g != "" && (Stops(z) || IsSeparator(g[0]))
    requires SegmentEnd(t, 0) == None && !IsSpace(t[0])
    requires apart ==> !afterWord || IsSeparator(g[0])
    ensures FrontLength(t, afterWord) == PlainLength(g, afterWord && !apart)
  {
    hide PlainLength, FrontLength, Stops;
    FrontIsPlain(t, afterWord);
    SeparatorIsNoWord(g[0]);
    PlainLocal(g, z, afterWord);
    ApartIsPlain(g, afterWord, apart);
  }

  lemma LexChunk(x: seq<Sym>, apart: bool, values: seq<string>, afterWord: bool)
    requires HolesIn(x, values) && x != [] && x[0].Ch? && !IsSpace(x[0].c)
    requires forall k :: 0 <= k < |values| ==> StartsLikeSegment(values[k])
    requires FaithfulFront(x, values) && (apart ==> !afterWord)
    ensures var y := Shape(x, apart);
            && y != [] && y[0].sym == x[0]
            && var g := Chunk(y);
               var n := PlainLength(g, afterWord && !y[0].apart);
               && n <= |x|
               && Lexemes(Full(x, values), afterWord) == [g[..n]] + Lexemes(Full(x[n..], values), IsWord(g[n - 1]))
               && y[n..] == Shape(x[n..], IsSeparator(g[n - 1]))
  {
    hide IsSpace, IsWord, SegmentEnd, PlainLength, Chunk, Stops, Key, Lexemes, FrontLength, Shape, IsSeparator;
    var t, y := Full(x, values), Shape(x, apart);
    ChunkIsFront(x, apart, values);
    ShapeStep(x, apart);
    var g := Chunk(y);
    FrontOfChunk(t, g, Full(x[|g|..], values), afterWord, y[0].apart);
    var n := FrontLength(t, afterWord);
    LexFront(t, afterWord);
    FullDrop(x, values, n);
    ShapeDrop(x, apart, g, n);
    assert t[..n] == g[..n] && t[n - 1] == g[n - 1];
  }
}
