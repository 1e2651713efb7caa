/** When holes are read as their values: a property of the shape, apart from the newline a line comment needs. */
module SqlFaithful {
  import opened Options
  import opened SqlText
  import opened SqlTokens
  import opened SqlProtect
  import opened SqlLexemes
  import opened SqlShape

  // ----- The three kinds of value -----

  predicate IsLineComment(v: string) {
    |v| >= 2 && v[0] == '-' && v[1] == '-' && '\n' !in v
  }

  predicate IsBlockComment(v: string) {
    |v| >= 2 && v[0] == '/' && v[1] == '*' && BlockTail(v, 2) == Some(|v|)
  }

  predicate IsQuoted(v: string, q: char) {
    |v| >= 2 && v[0] == q && ScanQuote(v, 1, q) == Some(|v|)
  }

  predicate IsValue(v: string) {
    IsLineComment(v) || IsBlockComment(v) || IsQuoted(v, '\'') || IsQuoted(v, '"')
  }

  predicate AreValues(values: seq<string>) {
    forall k :: 0 <= k < |values| ==> IsValue(values[k]) && StartsLikeSegment(values[k])
  }

  predicate StartsWith(t: string, c: char) {
    At(t, 0, c)
  }

  lemma {:induction false} LinePrefix(v: string, z: string, i: nat)
    requires i <= |v| && forall k :: i <= k < |v| ==> v[k] != '\n'
    ensures LineEnd(v + z, i) == |v| + LineEnd(z, 0)
    decreases |v| - i
  {
    if i < |v| {
      LinePrefix(v, z, i + 1);
    } else {
      ShiftLine(v + z, |v|, 0);
      assert (v + z)[|v|..] == z;
    }
  }

  lemma {:induction false} BlockPrefix(v: string, z: string, i: nat)
    requires i <= |v| && BlockTail(v, i).Some?
    ensures BlockTail(v + z, i) == BlockTail(v, i)
    decreases |v| - i
  {
    if !(At(v, i, '*') && At(v, i + 1, '/')) {
      BlockPrefix(v, z, i + 1);
    }
  }

  lemma {:induction false} QuoteTailFinds(t: string, i: nat, q: char)
    requires i <= |t|
    ensures QuoteTail(t, i, q).Some? <==> q in t[i..]
    decreases |t| - i
  {
    if i < |t| && t[i] != q {
      QuoteTailFinds(t, i + 1, q);
      assert t[i..] == [t[i]] + t[i + 1..];
    } else if i < |t| {
      assert t[i..][0] == q;
    }
  }

  /** A closed quote is read as such unless the same mark follows and some later one can close what it reopens. */
  lemma {:induction false} QuotePrefix(v: string, z: string, i: nat, q: char)
    requires i <= |v| && ScanQuote(v, i, q) == Some(|v|)
    ensures QuoteTail(v + z, i, q).Some?
    ensures QuoteTail(v + z, i, q) == Some(|v|) <==> !(StartsWith(z, q) && q in z[1..])
    decreases |v| - i
  {
    var t := v + z;
    if v[i] != q {
      QuotePrefix(v, z, i + 1, q);
    } else if At(v, i + 1, q) {
      QuotePrefix(v, z, i + 2, q);
    } else {
      assert i + 1 == |v|;
      if StartsWith(z, q) {
        assert At(t, i + 1, q);
        ShiftQuote(t, |v|, 1, q);
        assert t[|v|..] == z;
        QuoteTailFinds(z, 1, q);
      } else {
        assert !At(t, i + 1, q);
      }
    }
  }

  // ----- Closing marks of block comments -----

  predicate Closes(t: string) {
    |t| >= 2 && ((t[0] == '*' && t[1] == '/') || Closes(t[1..]))
  }

  lemma {:induction false} BlockTailFinds(t: string, i: nat)
    requires i <= |t|
    ensures BlockTail(t, i).Some? <==> Closes(t[i..])
    decreases |t| - i
  {
    if i < |t| {
      BlockTailFinds(t, i + 1);
      assert t[i..][1..] == t[i + 1..];
      assert t[i..][0] == t[i];
      if i + 1 < |t| { assert t[i..][1] == t[i + 1]; }
    }
  }

  predicate EndsWith(t: string, c: char) {
    t != "" && t[|t| - 1] == c
  }

  lemma {:induction false} ClosesConcat(v: string, t: string)
    ensures Closes(v + t) <==> Closes(v) || (EndsWith(v, '*') && StartsWith(t, '/')) || Closes(t)
  {
    if v == "" {
      assert v + t == t;
    } else {
      ClosesConcat(v[1..], t);
      assert (v + t)[1..] == v[1..] + t;
      if |v| == 1 { assert v[1..] + t == t; }
    }
  }

  // ----- One symbol in front of a text -----

  lemma CharacterFront(c: char, z: string)
    ensures var t := [c] + z;
            SegmentEnd(t, 0) == None <==>
              && (c == '-' ==> !StartsWith(z, '-'))
              && (c == '/' ==> !(StartsWith(z, '*') && Closes(z[1..])))
              && (c == '\'' || c == '"' ==> c !in z)
  {
    var t := [c] + z;
    assert t[1..] == z;
    if z != "" {
      assert t[1] == z[0];
      BlockTailFinds(t, 2);
      assert t[2..] == z[1..];
    }
    QuoteTailFinds(t, 1, '\'');
    QuoteTailFinds(t, 1, '"');
  }

  lemma ValueFront(v: string, z: string)
    requires IsValue(v)
    ensures var t := v + z;
            SegmentEnd(t, 0) == Some(|v|) <==>
              && (IsLineComment(v) ==> z == "" || z[0] == '\n')
              && (IsQuoted(v, '\'') ==> !(StartsWith(z, '\'') && '\'' in z[1..]))
              && (IsQuoted(v, '"') ==> !(StartsWith(z, '"') && '"' in z[1..]))
  {
    var t := v + z;
    assert t[0] == v[0] && t[1] == v[1];
    if IsLineComment(v) {
      LinePrefix(v, z, 2);
    } else if IsBlockComment(v) {
      BlockPrefix(v, z, 2);
    } else if IsQuoted(v, '\'') {
      QuotePrefix(v, z, 1, '\'');
    } else {
      QuotePrefix(v, z, 1, '"');
    }
  }

  // ----- The same on shapes -----

  predicate Has(y: seq<Mark>, values: seq<string>, q: char) {
    y != [] && (q in TextOf(y[0].sym, values) || Has(y[1..], values, q))
  }

  /** The next mark is not apart and starts with `c`. */
  predicate NextIs(y: seq<Mark>, values: seq<string>, c: char) {
    |y| > 1 && !y[1].apart && StartsWith(TextOf(y[1].sym, values), c)
  }

  predicate HasClose(y: seq<Mark>, values: seq<string>) {
    && y != []
    && (|| Closes(TextOf(y[0].sym, values))
        || (EndsWith(TextOf(y[0].sym, values), '*') && NextIs(y, values, '/'))
        || HasClose(y[1..], values))
  }

  predicate FrontOk(y: seq<Mark>, values: seq<string>)
    requires y != []
  {
    match y[0].sym
    case Ch(c) =>
      && (c == '-' ==> !NextIs(y, values, '-'))
      && (c == '/' ==> !(NextIs(y, values, '*') && HasClose(y[2..], values)))
      && (c == '\'' || c == '"' ==> !Has(y[1..], values, c))
    case Hole(_) =>
      var v := TextOf(y[0].sym, values);
      && (IsQuoted(v, '\'') ==> !Reopens(y, values, '\''))
      && (IsQuoted(v, '"') ==> !Reopens(y, values, '"'))
  }

  /** The same mark directly behind a quote, and another one later. */
  predicate Reopens(y: seq<Mark>, values: seq<string>, q: char)
    requires y != []
  {
    NextIs(y, values, q) && (y[1].sym.Hole? || Has(y[2..], values, q))
  }

  predicate WellShaped(y: seq<Mark>, values: seq<string>) {
    y == [] || (FrontOk(y, values) && WellShaped(y[1..], values))
  }

  /** Every line comment is followed by a newline or by nothing. */
  predicate LinesEnd(x: seq<Sym>, values: seq<string>) {
    x == [] || (LineEnds(x, values) && LinesEnd(x[1..], values))
  }

  predicate LineEnds(x: seq<Sym>, values: seq<string>)
    requires x != []
  {
    x[0].Hole? && IsLineComment(TextOf(x[0], values)) ==>
      Full(x[1..], values) == "" || Full(x[1..], values)[0] == '\n'
  }

  predicate Readable(x: seq<Sym>, values: seq<string>) {
    HolesIn(x, values) && AreValues(values)
  }

  lemma {:induction false} HasInFull(x: seq<Sym>, apart: bool, values: seq<string>, q: char)
    requires Readable(x, values) && !IsSpace(q)
    ensures Has(Shape(x, apart), values, q) <==> q in Full(x, values)
    decreases |x|
  {
    hide IsSpace, Key;
    if x != [] {
      var part, rest := TextOf(x[0], values), Full(x[1..], values);
      assert Full(x, values) == part + rest;
      HasInFull(x[1..], true, values, q);
      HasInFull(x[1..], false, values, q);
      var y := Shape(x, apart);
      if x[0].Ch? && IsSpace(x[0].c) {
        assert y == Shape(x[1..], true);
      } else {
        assert y[0].sym == x[0] && (y[1..] == Shape(x[1..], true) || y[1..] == Shape(x[1..], false));
      }
    }
  }

  predicate Telling(c: char) {
    !IsSpace(c) && !IsSeparator(c)
  }

  /** The mark after a symbol that is no separator tells how the text goes on. */
  lemma NextInFull(x: seq<Sym>, apart: bool, values: seq<string>, c: char)
    requires Readable(x, values) && x != []
    requires x[0].Ch? ==> Telling(x[0].c)
    requires Telling(c)
    ensures NextIs(Shape(x, apart), values, c) <==> StartsWith(Full(x[1..], values), c)
    ensures StartsWith(Full(x[1..], values), c) ==> |Shape(x, apart)| > 1 && Shape(x, apart)[1].sym == x[1]
    ensures StartsWith(Full(x[1..], values), c) ==>
      |x| > 1 && Shape(x, apart)[1..] == Shape(x[1..], false) && Shape(x, apart)[2..] == Shape(x[2..], false)
  {
    hide IsSpace, Key, IsSeparator;
    var y, rest := Shape(x, apart), x[1..];
    assert y == [Mark(x[0], apart)] + Shape(rest, false);
    assert y[1..] == Shape(rest, false);
    if rest != [] {
      FrontOfText(rest, values);
      if rest[0].Ch? && (IsSpace(rest[0].c) || IsSeparator(rest[0].c)) {
        NextAfterBreak(rest);
      } else {
        assert Shape(rest, false) == [Mark(rest[0], false)] + Shape(rest[1..], false);
        assert y[2..] == Shape(rest[1..], false);
        assert rest[1..] == x[2..];
      }
    }
  }

  lemma {:induction false} ClosesInFull(x: seq<Sym>, apart: bool, values: seq<string>)
    requires Readable(x, values)
    ensures HasClose(Shape(x, apart), values) <==> Closes(Full(x, values))
    decreases |x|
  {
    hide IsSpace, Key, IsSeparator, NextIs;
    if x != [] {
      var part, rest := TextOf(x[0], values), Full(x[1..], values);
      assert Full(x, values) == part + rest;
      ClosesConcat(part, rest);
      ClosesInFull(x[1..], true, values);
      ClosesInFull(x[1..], false, values);
      var y := Shape(x, apart);
      TellingMarks();
      if x[0].Ch? && IsSpace(x[0].c) {
        assert y == Shape(x[1..], true);
      } else {
        assert y[0].sym == x[0] && (y[1..] == Shape(x[1..], true) || y[1..] == Shape(x[1..], false));
        if x[0].Hole? || Telling(x[0].c) { NextInFull(x, apart, values, '/'); }
      }
    }
  }

  lemma TellingMarks()
    ensures Telling('*') && Telling('/') && Telling('-') && Telling('\'') && Telling('"')
  {}

  /** How the front symbol is read, told from the shape and from what a line comment is followed by. */
  lemma FrontByShape(x: seq<Sym>, apart: bool, values: seq<string>)
    requires Readable(x, values) && x != []
    requires x[0].Ch? ==> !IsSpace(x[0].c)
    ensures Shape(x, apart) != []
    ensures FaithfulFront(x, values) <==> FrontOk(Shape(x, apart), values) && LineEnds(x, values)
  {
    hide IsSpace, Key, IsSeparator, Has, HasClose, NextIs, Closes, IsQuoted, IsLineComment, IsBlockComment;
    TellingMarks();
    var y, z := Shape(x, apart), Full(x[1..], values);
    assert y[0].sym == x[0];
    assert Full(x, values) == TextOf(x[0], values) + z;
    FrontOfText(x, values);
    match x[0]
    case Ch(c) =>
      CharacterFront(c, z);
      CharacterByShape(x, apart, values);
    case Hole(k) =>
      ValueFront(TextOf(x[0], values), z);
      ReopensInFull(x, apart, values, '\'');
      ReopensInFull(x, apart, values, '"');
  }

  lemma CharacterByShape(x: seq<Sym>, apart: bool, values: seq<string>)
    requires Readable(x, values) && x != [] && x[0].Ch? && !IsSpace(x[0].c)
    ensures var c, y, z := x[0].c, Shape(x, apart), Full(x[1..], values);
            && y != []
            && (c == '-' ==> (NextIs(y, values, '-') <==> StartsWith(z, '-')))
            && (c == '/' ==> (NextIs(y, values, '*') && HasClose(y[2..], values) <==>
              StartsWith(z, '*') && Closes(z[1..])))
            && (c == '\'' || c == '"' ==> (Has(y[1..], values, c) <==> c in z))
  {
    hide IsSpace, Key, IsSeparator, Has, HasClose, NextIs, Closes;
    TellingMarks();
    var c, y, z := x[0].c, Shape(x, apart), Full(x[1..], values);
    if Telling(c) {
      NextInFull(x, apart, values, '-');
      NextInFull(x, apart, values, '*');
      assert y[1..] == Shape(x[1..], false);
      HasInFull(x[1..], false, values, c);
      if StartsWith(z, '*') {
        FrontOfText(x[1..], values);
        ClosesInFull(x[2..], false, values);
        assert z[1..] == Full(x[2..], values);
      }
    }
  }

  lemma ReopensInFull(x: seq<Sym>, apart: bool, values: seq<string>, q: char)
    requires Readable(x, values) && x != [] && x[0].Hole? && (q == '\'' || q == '"')
    ensures var z := Full(x[1..], values);
            && Shape(x, apart) != []
            && (Reopens(Shape(x, apart), values, q) <==> StartsWith(z, q) && q in z[1..])
  {
    hide IsSpace, Key, IsSeparator, Has, NextIs;
    TellingMarks();
    var y, z := Shape(x, apart), Full(x[1..], values);
    NextInFull(x, apart, values, q);
    if StartsWith(z, q) {
      FrontOfText(x[1..], values);
      if x[1].Ch? {
        assert z[1..] == Full(x[2..], values);
        HasInFull(x[2..], false, values, q);
      } else {
        ValueClosesItself(TextOf(x[1], values), q);
        assert z[1..] == TextOf(x[1], values)[1..] + Full(x[2..], values);
      }
    }
  }

  lemma ValueClosesItself(v: string, q: char)
    requires IsValue(v) && v[0] == q && (q == '\'' || q == '"')
    ensures q in v[1..]
  {
    ScanFinds(v, 1, q);
  }

  lemma {:induction false} ScanFinds(v: string, i: nat, q: char)
    requires i <= |v| && ScanQuote(v, i, q).Some?
    ensures q in v[i..]
    decreases |v| - i
  {
    if v[i] != q {
      ScanFinds(v, i + 1, q);
      assert v[i..] == [v[i]] + v[i + 1..];
    } else {
      assert v[i..][0] == q;
    }
  }

  /** A text is read hole by hole exactly when its shape allows it and its line comments keep their newlines. */
  lemma {:induction false} FaithfulByShape(x: seq<Sym>, apart: bool, values: seq<string>)
    requires Readable(x, values)
    ensures Faithful(x, values) <==> WellShaped(Shape(x, apart), values) && LinesEnd(x, values)
    decreases |x|
  {
    hide IsSpace, Key, IsSeparator, FrontOk, FaithfulFront, LineEnds;
    if x != [] {
      if x[0].Ch? && IsSpace(x[0].c) {
        FaithfulByShape(x[1..], true, values);
        SpaceIsFaithful(x, values);
      } else {
        FrontByShape(x, apart, values);
        FaithfulByShape(x[1..], true, values);
        FaithfulByShape(x[1..], false, values);
        var y := Shape(x, apart);
        assert y[1..] == Shape(x[1..], true) || y[1..] == Shape(x[1..], false);
      }
    }
  }

  lemma SpaceIsFaithful(x: seq<Sym>, values: seq<string>)
    requires Readable(x, values) && x != [] && x[0].Ch? && IsSpace(x[0].c)
    ensures FaithfulFront(x, values) && LineEnds(x, values)
  {
    SpacesAreNoWords(x[0].c);
    CharacterFront(x[0].c, Full(x[1..], values));
    assert Full(x, values) == [x[0].c] + Full(x[1..], values);
  }

  // ----- The source text -----

  lemma {:induction false} LineEndClean(t: string, j: nat)
    requires j <= |t|
    ensures forall k :: j <= k < LineEnd(t, j) ==> t[k] != '\n'
    decreases |t| - j
  {
    if j < |t| && t[j] != '\n' { LineEndClean(t, j + 1); }
  }

  lemma {:induction false} BlockCut(t: string, j: nat, m: nat)
    requires j <= m <= |t| && BlockTail(t, j) == Some(m)
    ensures BlockTail(t[..m], j) == Some(m)
    decreases |t| - j
  {
    if !(At(t, j, '*') && At(t, j + 1, '/')) { BlockCut(t, j + 1, m); }
  }

  lemma {:induction false} QuoteCut(t: string, j: nat, m: nat, q: char)
    requires j <= m <= |t| && QuoteTail(t, j, q) == Some(m)
    ensures ScanQuote(t[..m], j, q) == Some(m)
    decreases |t| - j
  {
    if j < |t| && t[j] != q {
      QuoteCut(t, j + 1, m, q);
    } else if At(t, j + 1, q) && QuoteTail(t, j + 2, q).Some? {
      QuoteCut(t, j + 2, m, q);
    }
  }

  /** A protected segment is a value. */
  lemma SegmentIsValue(t: string)
    requires t != "" && SegmentEnd(t, 0).Some?
    ensures var v := t[..SegmentEnd(t, 0).value]; IsValue(v) && StartsLikeSegment(v)
  {
    var m := SegmentEnd(t, 0).value;
    var v := t[..m];
    if t[0] == '-' {
      LineEndClean(t, 2);
      assert IsLineComment(v);
    } else if t[0] == '/' {
      BlockCut(t, 2, m);
      assert IsBlockComment(v);
    } else {
      QuoteCut(t, 1, m, t[0]);
      assert IsQuoted(v, t[0]);
    }
  }

  lemma {:induction false} SourceIsFaithful(s: string, i: nat, n: nat, values: seq<string>)
    requires i <= |s| && n <= |values| && values[n..] == Values(s, i)
    ensures Faithful(Symbols(s, i, n), values)
    ensures forall k :: n <= k < |values| ==> IsValue(values[k]) && StartsLikeSegment(values[k])
    decreases |s| - i
  {
    hide SegmentEnd, IsValue, StartsLikeSegment, Key;
    if i < |s| {
      ShiftSegment(s, i);
      SymbolsRender(s, i, n, values);
      var x := Symbols(s, i, n);
      match SegmentEnd(s, i)
      case Some(e) =>
        assert values[n] == values[n..][0] && values[n + 1..] == values[n..][1..];
        SourceIsFaithful(s, e, n + 1, values);
        SegmentIsValue(s[i..]);
        assert s[i..][..e - i] == s[i..e];
        assert x[1..] == Symbols(s, e, n + 1);
        assert FaithfulFront(x, values);
      case None =>
        SourceIsFaithful(s, i + 1, n, values);
        assert x[1..] == Symbols(s, i + 1, n);
        assert FaithfulFront(x, values);
    }
  }
}
