/** The formatter's placeholders: quotes and comments taken out of the text and put back. */
module SqlProtect {
  import opened SqlText
  import opened SqlTokens
  import opened Printing

  // ----- Placeholders -----

  const WORD := "SQL_PLACEHOLDER"

  function Key(n: nat): string {
    "__" + WORD + "_" + Digits(n) + "__"
  }

  /** The protected text from `i` on, when `n` segments have been taken out before. */
  function Work(s: string, i: nat, n: nat): string
    requires i <= |s|
    decreases |s| - i
  {
    if i == |s| then ""
    else match SegmentEnd(s, i)
      case Some(e) => Key(n) + Work(s, e, n + 1)
      case None => [s[i]] + Work(s, i + 1, n)
  }

  function Values(s: string, i: nat): seq<string>
    requires i <= |s|
    decreases |s| - i
  {
    if i == |s| then []
    else match SegmentEnd(s, i)
      case Some(e) => [s[i..e]] + Values(s, e)
      case None => Values(s, i + 1)
  }

  /** `text.split(key).join(value)`. */
  function SplitJoin(text: string, key: string, value: string): string
    requires key != ""
  {
    if text == "" then ""
    else if key <= text then value + SplitJoin(text[|key|..], key, value)
    else [text[0]] + SplitJoin(text[1..], key, value)
  }

  /** The placeholders from number `i` on replaced by their values, one number after the other. */
  function RestoreFrom(text: string, values: seq<string>, i: nat): string
    requires i <= |values|
    decreases |values| - i
  {
    if i == |values| then text
    else RestoreFrom(SplitJoin(text, Key(i), values[i]), values, i + 1)
  }

  function RestoreSqlSegments(text: string, values: seq<string>): string {
    RestoreFrom(text, values, 0)
  }

  // ----- The protected text as symbols -----

  /** A character of the text, or the hole a taken-out segment leaves. */
  datatype Sym = Ch(c: char) | Hole(k: nat)

  function Symbols(s: string, i: nat, n: nat): seq<Sym>
    requires i <= |s|
    decreases |s| - i
  {
    if i == |s| then []
    else match SegmentEnd(s, i)
      case Some(e) => [Hole(n)] + Symbols(s, e, n + 1)
      case None => [Ch(s[i])] + Symbols(s, i + 1, n)
  }

  function RenderSym(sym: Sym, values: seq<string>, i: nat): string {
    match sym
    case Ch(c) => [c]
    case Hole(k) => if k < i && k < |values| then values[k] else Key(k)
  }

  /** The text when the first `i` holes are filled and the others show their placeholders. */
  function Render(x: seq<Sym>, values: seq<string>, i: nat): string {
    if x == [] then "" else RenderSym(x[0], values, i) + Render(x[1..], values, i)
  }

  function Full(x: seq<Sym>, values: seq<string>): string {
    Render(x, values, |values|)
  }

  predicate HolesIn(x: seq<Sym>, values: seq<string>) {
    forall sym :: sym in x && sym.Hole? ==> sym.k < |values|
  }

  /** A value is a quote or comment: it starts with one of their marks. */
  predicate StartsLikeSegment(v: string) {
    v != "" && v[0] in "-/'\""
  }

  lemma {:induction false} SymbolsRender(s: string, i: nat, n: nat, values: seq<string>)
    requires i <= |s| && n <= |values| && values[n..] == Values(s, i)
    ensures HolesIn(Symbols(s, i, n), values)
    ensures Render(Symbols(s, i, n), values, 0) == Work(s, i, n)
    ensures Full(Symbols(s, i, n), values) == s[i..]
    ensures forall k :: n <= k < |values| ==> StartsLikeSegment(values[k])
    decreases |s| - i
  {
    hide SegmentEnd, Key, Render, StartsLikeSegment;
    if i == |s| {
      RenderNothing(values, 0);
      RenderNothing(values, |values|);
    } else {
      match SegmentEnd(s, i)
      case Some(e) =>
        assert values[n] == values[n..][0] && values[n + 1..] == values[n..][1..];
        SymbolsRender(s, e, n + 1, values);
        SegmentStarts(s, i);
        assert s[i..] == s[i..e] + s[e..];
        RenderFront(Hole(n), Symbols(s, e, n + 1), values, 0);
        RenderFront(Hole(n), Symbols(s, e, n + 1), values, |values|);
      case None =>
        SymbolsRender(s, i + 1, n, values);
        assert s[i..] == [s[i]] + s[i + 1..];
        RenderFront(Ch(s[i]), Symbols(s, i + 1, n), values, 0);
        RenderFront(Ch(s[i]), Symbols(s, i + 1, n), values, |values|);
    }
  }

  lemma RenderNothing(values: seq<string>, i: nat)
    ensures Render([], values, i) == ""
  {}

  lemma RenderFront(sym: Sym, rest: seq<Sym>, values: seq<string>, i: nat)
    ensures Render([sym] + rest, values, i) == RenderSym(sym, values, i) + Render(rest, values, i)
  {
    hide Key;
    assert ([sym] + rest)[1..] == rest;
  }

  lemma SegmentStarts(s: string, i: nat)
    requires i < |s| && SegmentEnd(s, i).Some?
    ensures StartsLikeSegment(s[i..SegmentEnd(s, i).value])
  {
    hide SegmentEnd;
    assert s[i..SegmentEnd(s, i).value][0] == s[i];
  }

  // ----- Where placeholders can be found -----

  predicate NoWord(t: string) {
    t == "" || (!(WORD <= t) && NoWord(t[1..]))
  }

  lemma {:induction false} NoWordSuffix(t: string, d: nat)
    requires NoWord(t) && d <= |t|
    ensures NoWord(t[d..])
    ensures !(WORD <= t[d..])
    decreases d
  {
    if d == 0 {
      assert t[0..] == t;
    } else {
      NoWordSuffix(t[1..], d - 1);
      assert t[1..][d - 1..] == t[d..];
    }
  }

  lemma TailMissesKey(j: nat, k: nat, rest: string)
    requires j < |WORD|
    ensures !(WORD[j..] <= Key(k) + rest)
  {
    var w, t := WORD[j..], Key(k) + rest;
    assert t[0] == '_' && t[1] == '_';
    assert w[0] == WORD[j] && (j + 1 < |WORD| ==> w[1] == WORD[j + 1]);
    assert WORD[j] == '_' ==> j == 3;
  }

  lemma PrefixSplits(w: string, part: string, rest: string)
    requires w <= part + rest
    ensures var m := if |part| < |w| then |part| else |w|;
            w[..m] == part[..m] && w[m..] <= rest
  {
    var t := part + rest;
    var m := if |part| < |w| then |part| else |w|;
    assert t[..m] == part[..m] && t[|part|..] == rest;
    assert w == t[..|w|];
    if m < |w| { assert w[m..] == t[m..|w|]; }
  }

  lemma PrefixJoins(w: string, part: string, rest: string)
    requires var m := if |part| < |w| then |part| else |w|; w[..m] == part[..m] && w[m..] <= rest
    ensures w <= part + rest
  {
    var t := part + rest;
    var m := if |part| < |w| then |part| else |w|;
    forall k | 0 <= k < |w|
      ensures k < |t| && t[k] == w[k]
    {
      if k < m { assert w[..m][k] == part[..m][k]; } else { assert w[m..][k - m] == rest[k - m]; }
    }
  }

  /** A tail of the word found in a half-restored text is there in the
      restored one too: it cannot reach into a placeholder. */
  lemma {:induction false} TailThrough(x: seq<Sym>, values: seq<string>, i: nat, j: nat)
    requires HolesIn(x, values) && i <= |values| && j <= |WORD|
    requires WORD[j..] <= Render(x, values, i)
    ensures WORD[j..] <= Full(x, values)
  {
    hide Key;
    var w := WORD[j..];
    if w != "" && x != [] {
      var part, rest := RenderSym(x[0], values, i), Render(x[1..], values, i);
      PrefixSplits(w, part, rest);
      if x[0].Hole? && x[0].k >= i { TailMissesKey(j, x[0].k, rest); }
      var m := if |part| < |w| then |part| else |w|;
      assert WORD[j + m..] == w[m..];
      TailThrough(x[1..], values, i, j + m);
      PrefixJoins(w, part, Full(x[1..], values));
    }
  }

  // ----- Restoring -----

  const STEM := "__" + WORD + "_"

  /** One placeholder is found at another only when they have the same number. */
  lemma KeyAtKey(i: nat, k: nat, rest: string)
    requires Key(i) <= Key(k) + rest
    ensures i == k
  {
    hide Digits;
    var di, dk := Digits(i), Digits(k);
    var a, t := Key(i), Key(k) + rest;
    var n := |STEM|;
    assert forall p :: 0 <= p < |di| ==> a[n + p] == di[p];
    assert forall p :: 0 <= p < |dk| ==> t[n + p] == dk[p];
    assert a[n + |di|] == '_' && t[n + |dk|] == '_';
    assert forall p :: 0 <= p < |a| ==> a[p] == t[p];
    assert |di| >= |dk|;
    assert |dk| >= |di|;
    assert di == dk;
    DigitsDiffer(i, k);
  }

  /** No placeholder starts inside another, unless the text behind it goes on with the word. */
  lemma NoKeyInsideKey(i: nat, k: nat, d: nat, rest: string)
    requires 0 < d < |Key(k)|
    requires !(WORD <= rest)
    requires rest != "" && rest[0] == '_' ==> !(WORD <= rest[1..])
    ensures !(Key(i) <= Key(k)[d..] + rest)
  {
    var key, t := Key(k), Key(k)[d..] + rest;
    var n := |key|;
    assert d == n - 2 ==> t[2..] == rest;
    assert d == n - 1 ==> t[1..] == rest;
    assert d == n - 1 && rest != "" ==> t[2..] == rest[1..];
    if d < n - 2 { KeyUnderscores(k, d); }
    if Key(i) <= t { KeyHoldsWord(i, t); }
  }

  lemma KeyHoldsWord(i: nat, t: string)
    requires Key(i) <= t
    ensures |t| > 2 && t[0] == '_' && t[1] == '_' && t[2] == 'S'
    ensures WORD <= t[2..]
  {
    var key := Key(i);
    assert key[2..2 + |WORD|] == WORD;
    assert t[2..][..|WORD|] == t[2..2 + |WORD|] == key[2..2 + |WORD|];
    assert key[0] == '_' && key[1] == '_' && key[2] == 'S';
  }

  lemma KeyUnderscores(k: nat, d: nat)
    requires 0 < d < |Key(k)| - 2
    ensures Key(k)[d] != '_' || Key(k)[d + 1] != '_'
  {
    var dk, key := Digits(k), Key(k);
    var n := |STEM|;
    if d >= n {
      assert key[d] == dk[d - n];
    } else if d == n - 1 {
      assert key[d + 1] == dk[0];
    } else {
      assert key[d] == STEM[d] && key[d + 1] == STEM[d + 1];
    }
  }

  lemma {:induction false} SplitJoinSkips(part: string, rest: string, key: string, value: string)
    requires key != ""
    requires forall d :: 0 <= d < |part| ==> !(key <= part[d..] + rest)
    ensures SplitJoin(part + rest, key, value) == part + SplitJoin(rest, key, value)
  {
    if part == "" {
      assert part + rest == rest;
    } else {
      assert part[0..] == part;
      forall d | 0 <= d < |part| - 1
        ensures !(key <= part[1..][d..] + rest)
      {
        assert part[1..][d..] == part[d + 1..];
      }
      SplitJoinSkips(part[1..], rest, key, value);
      assert (part + rest)[1..] == part[1..] + rest;
      assert part == [part[0]] + part[1..];
    }
  }

  /** Behind an unfilled hole nothing can complete another placeholder. */
  lemma RestIsNoTail(x: seq<Sym>, values: seq<string>, i: nat)
    requires HolesIn(x, values) && i <= |values| && NoWord(Full(x, values))
    requires forall k :: 0 <= k < |values| ==> StartsLikeSegment(values[k])
    ensures var t := Render(x, values, i);
            && !(WORD <= t)
            && (t != "" && t[0] == '_' ==> !(WORD <= t[1..]))
  {
    hide Key;
    var t := Render(x, values, i);
    assert WORD[0..] == WORD;
    NoWordSuffix(Full(x, values), 0);
    assert Full(x, values)[0..] == Full(x, values);
    if WORD <= t { TailThrough(x, values, i, 0); }
    UnderscoreFirst(x, values, i);
    if x != [] && x[0].Ch? {
      assert t[1..] == Render(x[1..], values, i);
      assert Full(x, values)[1..] == Full(x[1..], values);
      NoWordSuffix(Full(x, values), 1);
      if WORD <= t[1..] { TailThrough(x[1..], values, i, 0); }
    }
  }

  lemma UnderscoreFirst(x: seq<Sym>, values: seq<string>, i: nat)
    requires HolesIn(x, values) && i <= |values|
    requires forall k :: 0 <= k < |values| ==> StartsLikeSegment(values[k])
    ensures var t := Render(x, values, i);
            t != "" && t[0] == '_' && WORD <= t[1..] ==> x != [] && x[0].Ch?
  {
    var t := Render(x, values, i);
    if x != [] && x[0].Hole? {
      var part := RenderSym(x[0], values, i);
      assert t[0] == part[0];
      if !(x[0].k < i) {
        assert t[1] == part[1] == '_';
        assert t[1..][0] == '_' && WORD[0] == 'S';
      }
    }
  }

  lemma NoWordTail(x: seq<Sym>, values: seq<string>)
    requires x != [] && NoWord(Full(x, values))
    ensures NoWord(Full(x[1..], values))
  {
    var part := RenderSym(x[0], values, |values|);
    NoWordSuffix(Full(x, values), |part|);
    assert Full(x, values)[|part|..] == Full(x[1..], values);
  }

  /** A filled hole or a plain character, and what follows, hold no placeholder that starts inside it. */
  lemma NoKeyInsideText(x: seq<Sym>, values: seq<string>, i: nat, n: nat, d: nat)
    requires HolesIn(x, values) && i <= |values| && NoWord(Full(x, values))
    requires forall k :: 0 <= k < |values| ==> StartsLikeSegment(values[k])
    requires x != [] && (x[0].Hole? ==> x[0].k < i)
    requires d < |RenderSym(x[0], values, i)|
    ensures !(Key(n) <= RenderSym(x[0], values, i)[d..] + Render(x[1..], values, i))
  {
    hide Key, Render, NoWord;
    var part, rest := RenderSym(x[0], values, i), Render(x[1..], values, i);
    var t := part[d..] + rest;
    NoWordTail(x, values);
    RestIsNoTail(x[1..], values, i);
    assert |part| - d == 1 ==> t[1..] == rest;
    assert |part| - d == 1 && rest != "" ==> t[2..] == rest[1..];
    assert |part| - d >= 2 ==> t[2..] == part[d + 2..] + rest;
    if Key(n) <= t {
      KeyHoldsWord(n, t);
      if |part| - d >= 2 {
        WordThroughPart(x, values, i, d + 2);
        NoWordSuffix(Full(x, values), d + 2);
      }
    }
  }

  /** The word in the middle of a half-restored text, at `d` characters, shows up there in the restored one. */
  lemma WordThroughPart(x: seq<Sym>, values: seq<string>, i: nat, d: nat)
    requires HolesIn(x, values) && i <= |values|
    requires x != [] && (x[0].Hole? ==> x[0].k < i)
    requires d <= |RenderSym(x[0], values, i)|
    requires WORD <= RenderSym(x[0], values, i)[d..] + Render(x[1..], values, i)
    ensures d <= |Full(x, values)| && WORD <= Full(x, values)[d..]
  {
    hide Key;
    var part, rest := RenderSym(x[0], values, i), Render(x[1..], values, i);
    var m := if |part| - d < |WORD| then |part| - d else |WORD|;
    PrefixSplits(WORD, part[d..], rest);
    TailThrough(x[1..], values, i, m);
    PrefixJoins(WORD, part[d..], Full(x[1..], values));
    var full := Full(x[1..], values);
    assert Full(x, values) == part + full;
    hide Render, Full, RenderSym;
    DropOfConcat(part, full, d);
  }

  /** Filling hole `i` in a text that has the holes before it filled replaces its placeholders and nothing else. */
  lemma {:induction false} RestoreStep(x: seq<Sym>, values: seq<string>, i: nat)
    requires HolesIn(x, values) && i < |values| && NoWord(Full(x, values))
    requires forall k :: 0 <= k < |values| ==> StartsLikeSegment(values[k])
    ensures SplitJoin(Render(x, values, i), Key(i), values[i]) == Render(x, values, i + 1)
  {
    hide Key, NoWord;
    if x != [] {
      var part, rest := RenderSym(x[0], values, i), Render(x[1..], values, i);
      var key, value := Key(i), values[i];
      NoWordTail(x, values);
      RestoreStep(x[1..], values, i);
      if x[0] == Hole(i) {
        KeyFilled(rest, i, value);
      } else {
        RestIsNoTail(x[1..], values, i);
        forall d | 0 <= d < |part|
          ensures !(key <= part[d..] + rest)
        {
          if x[0].Ch? || x[0].k < i {
            NoKeyInsideText(x, values, i, i, d);
          } else if d == 0 {
            assert part[0..] == part;
            if key <= part + rest { KeyAtKey(i, x[0].k, rest); }
          } else {
            NoKeyInsideKey(i, x[0].k, d, rest);
          }
        }
        KeyIsText(i);
        SplitJoinSkips(part, rest, key, value);
      }
    }
  }

  lemma KeyIsText(i: nat)
    ensures Key(i) != ""
  {}

  lemma KeyFilled(rest: string, i: nat, value: string)
    ensures SplitJoin(Key(i) + rest, Key(i), value) == value + SplitJoin(rest, Key(i), value)
  {
    assert (Key(i) + rest)[|Key(i)|..] == rest;
  }

  lemma {:induction false} RestoreAll(x: seq<Sym>, values: seq<string>, i: nat)
    requires HolesIn(x, values) && i <= |values| && NoWord(Full(x, values))
    requires forall k :: 0 <= k < |values| ==> StartsLikeSegment(values[k])
    ensures RestoreFrom(Render(x, values, i), values, i) == Full(x, values)
    decreases |values| - i
  {
    hide Key, NoWord, Render, SplitJoin;
    if i < |values| {
      RestoreStep(x, values, i);
      RestoreAll(x, values, i + 1);
    }
  }

  /** Restoring puts every taken-out segment back, for every text without the placeholder word. */
  lemma RestoreProtected(s: string)
    requires NoWord(s)
    ensures RestoreSqlSegments(Work(s, 0, 0), Values(s, 0)) == s
  {
    hide NoWord;
    var values := Values(s, 0);
    assert values[0..] == values && s[0..] == s;
    SymbolsRender(s, 0, 0, values);
    RestoreAll(Symbols(s, 0, 0), values, 0);
  }
}
