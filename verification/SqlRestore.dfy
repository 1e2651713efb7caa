/** Exactly when restoring puts the segments back: when no placeholder is found but where it was put. */
module SqlRestore {
  import opened SqlText
  import opened SqlTokens
  import opened SqlProtect
  import opened Printing

  predicate IsMark(c: char) {
    c in "-/'\""
  }

  predicate AllValues(values: seq<string>) {
    forall k :: 0 <= k < |values| ==> StartsLikeSegment(values[k])
  }

  /** The holes are numbered from `n` up to `m`, in order. */
  predicate Numbered(x: seq<Sym>, n: nat, m: nat) {
    if x == [] then n == m
    else if x[0].Ch? then Numbered(x[1..], n, m)
    else x[0].k == n && Numbered(x[1..], n + 1, m)
  }

  /** The key is not found at any place of `p`, when `rest` follows. */
  predicate NoHit(p: string, rest: string, key: string) {
    forall d :: 0 <= d < |p| ==> !(key <= p[d..] + rest)
  }

  /** No placeholder of a hole in `x` is found in the restored text before it, `before`
      included, nor in the text behind it, whose holes still show theirs. */
  predicate Alone(x: seq<Sym>, before: string, values: seq<string>) {
    if x == [] then true
    else match x[0]
      case Ch(c) => Alone(x[1..], before + [c], values)
      case Hole(k) =>
        && NoHit(before, Key(k), Key(k))
        && NoHit(Render(x[1..], values, 0), "", Key(k))
        && Alone(x[1..], before + RenderSym(Hole(k), values, |values|), values)
  }

  // ----- Hits -----

  lemma FirstHit(p: string, rest: string, key: string, value: string) returns (g: nat, tail: string)
    requires key != "" && !NoHit(p, rest, key)
    ensures g < |p| && key <= p[g..] + rest
    ensures SplitJoin(p + rest, key, value) == p[..g] + value + tail
  {
    var d: nat :| d < |p| && key <= p[d..] + rest;
    g, tail := FirstHitUpTo(p, rest, key, value, d);
  }

  lemma {:induction false} FirstHitUpTo(p: string, rest: string,
      key: string, value: string, d: nat) returns (g: nat, tail: string)
    requires key != "" && d < |p| && key <= p[d..] + rest
    ensures g < |p| && key <= p[g..] + rest
    ensures SplitJoin(p + rest, key, value) == p[..g] + value + tail
    decreases d
  {
    assert p[0..] == p;
    hide SplitJoin;
    if key <= p + rest {
      g, tail := 0, SplitJoin((p + rest)[|key|..], key, value);
      SplitJoinHits(p + rest, key, value);
      assert p[..0] + value + tail == value + tail;
    } else {
      DropOfDrop(p, 1, d - 1);
      SplitJoinPasses(p, rest, key, value);
      var g1, tail1 := FirstHitUpTo(p[1..], rest, key, value, d - 1);
      g, tail := g1 + 1, tail1;
      DropOfDrop(p, 1, g1);
      OneMoreInFront(p, g1, value, tail);
    }
  }

  lemma OneMoreInFront(p: string, g: nat, value: string, tail: string)
    requires p != "" && g < |p|
    ensures [p[0]] + (p[1..][..g] + value + tail) == p[..g + 1] + value + tail
  {
    assert p[..g + 1] == [p[0]] + p[1..][..g];
  }

  lemma SplitJoinHits(t: string, key: string, value: string)
    requires key != "" && key <= t
    ensures SplitJoin(t, key, value) == value + SplitJoin(t[|key|..], key, value)
  {}

  lemma SplitJoinPasses(p: string, rest: string, key: string, value: string)
    requires key != "" && p != "" && !(key <= p + rest)
    ensures SplitJoin(p + rest, key, value) == [p[0]] + SplitJoin(p[1..] + rest, key, value)
  {
    assert (p + rest)[1..] == p[1..] + rest && (p + rest)[0] == p[0];
  }

  lemma NoHits(p: string, rest: string, key: string, value: string)
    requires key != "" && NoHit(p, rest, key)
    ensures SplitJoin(p + rest, key, value) == p + SplitJoin(rest, key, value)
  {
    SplitJoinSkips(p, rest, key, value);
  }

  /** A placeholder is made of underscores, letters and digits, and longer than two. */
  lemma KeyCharacters(n: nat)
    ensures |Key(n)| > 2 && Key(n)[0] == '_' && Key(n)[1] == '_'
    ensures forall j :: 0 <= j < |Key(n)| ==> !IsMark(Key(n)[j])
  {
    var key, d := Key(n), Digits(n);
    assert forall j :: |STEM| <= j < |STEM| + |d| ==> key[j] == d[j - |STEM|];
    assert forall j :: 0 <= j < |STEM| ==> key[j] == STEM[j];
  }

  lemma NoHitAtMark(u: string, n: nat)
    requires u != "" && IsMark(u[0])
    ensures !(Key(n) <= u)
  {
    KeyCharacters(n);
  }

  lemma SplitJoinAtMark(u: string, n: nat, value: string)
    requires u != "" && IsMark(u[0])
    ensures Key(n) != ""
    ensures SplitJoin(u, Key(n), value) != "" && SplitJoin(u, Key(n), value)[0] == u[0]
  {
    KeyCharacters(n);
    NoHitAtMark(u, n);
  }

  // ----- What is off stays off -----

  /** The text has a quote or comment mark where the source has an underscore. */
  predicate Off(t: string, s: string, h: nat) {
    h < |t| && h < |s| && t[..h] == s[..h] && IsMark(t[h]) && s[h] == '_'
  }

  /** The two texts part where one has a quote or comment mark and the other an underscore. */
  predicate Clash(t: string, s: string, h: nat) {
    && h < |t| && h < |s| && t[..h] == s[..h]
    && ((IsMark(t[h]) && s[h] == '_') || (t[h] == '_' && IsMark(s[h])))
  }

  ghost predicate Clashes(t: string, s: string) {
    exists h: nat :: Clash(t, s, h)
  }

  lemma {:induction false} OffStays(t: string, s: string, h: nat, values: seq<string>, n: nat)
    requires Off(t, s, h) && n <= |values| && AllValues(values)
    ensures Clashes(RestoreFrom(t, values, n), s)
    decreases |values| - n
  {
    hide Key, SplitJoin;
    if n == |values| {
      assert Clash(t, s, h);
    } else {
      KeyCharacters(n);
      var h' := OffByOne(t, s, h, n, values[n]);
      OffStays(SplitJoin(t, Key(n), values[n]), s, h', values, n + 1);
    }
  }

  lemma OffByOne(t: string, s: string, h: nat, n: nat, value: string) returns (g: nat)
    requires Off(t, s, h) && StartsLikeSegment(value)
    ensures Key(n) != "" && Off(SplitJoin(t, Key(n), value), s, g)
  {
    hide Key, SplitJoin;
    var key, p, rest := Key(n), t[..h], t[h..];
    KeyCharacters(n);
    assert t == p + rest;
    if NoHit(p, rest, key) {
      NoHits(p, rest, key, value);
      SplitJoinAtMark(rest, n, value);
      g := h;
    } else {
      g := HitIsOff(p, rest, s, n, value);
    }
  }

  /** A hit in what is right so far puts a mark where an underscore should be. */
  lemma HitIsOff(p: string, rest: string, s: string, n: nat, value: string) returns (g: nat)
    requires p <= s && !NoHit(p, rest, Key(n)) && StartsLikeSegment(value)
    ensures Key(n) != "" && Off(SplitJoin(p + rest, Key(n), value), s, g)
  {
    hide Key, SplitJoin, NoHit;
    KeyCharacters(n);
    var tail;
    g, tail := FirstHit(p, rest, Key(n), value);
    assert (p[g..] + rest)[0] == p[g];
    var t := p[..g] + value + tail;
    assert t[g] == value[0] && t[..g] == p[..g] == s[..g];
    assert s[g] == p[g] == '_';
  }

  /** The beginning of a placeholder, cut off by a mark. */
  ghost predicate Stuck(u: string) {
    exists k: nat, d: nat :: StuckAt(u, k, d)
  }

  predicate StuckAt(u: string, k: nat, d: nat) {
    0 < d < |Key(k)| && d < |u| && u[..d] == Key(k)[..d] && IsMark(u[d])
  }

  lemma StuckStays(u: string, n: nat, value: string)
    requires Stuck(u)
    ensures Key(n) != "" && Stuck(SplitJoin(u, Key(n), value))
  {
    hide Key, SplitJoin;
    KeyCharacters(n);
    var k: nat, d: nat :| StuckAt(u, k, d);
    var p, rest := u[..d], u[d..];
    assert u == p + rest;
    forall o | 0 <= o < |p| ensures !(Key(n) <= p[o..] + rest) {
      assert p[o..] + rest == u[o..];
      NoHitInStuck(u, k, d, n, o);
    }
    NoHits(p, rest, Key(n), value);
    SplitJoinAtMark(rest, n, value);
    assert StuckAt(p + SplitJoin(rest, Key(n), value), k, d);
  }

  lemma MarkStops(key: string, u: string, d: nat)
    requires key <= u && d < |u| && IsMark(u[d])
    requires forall j :: 0 <= j < |key| ==> !IsMark(key[j])
    ensures |key| <= d
  {
    assert forall j :: 0 <= j < |key| ==> key[j] == u[j];
  }

  lemma PrefixOfKey(n: nat, u: string, k: nat, d: nat)
    requires Key(n) <= u && d <= |Key(k)| && d < |u| && u[..d] == Key(k)[..d] && IsMark(u[d])
    ensures Key(n) <= Key(k) + ""
  {
    KeyCharacters(n);
    hide Key;
    MarkStops(Key(n), u, d);
    assert Key(n) == u[..d][..|Key(n)|];
  }

  lemma NoHitInStuck(u: string, k: nat, d: nat, n: nat, o: nat)
    requires StuckAt(u, k, d) && o < d
    ensures !(Key(n) <= u[o..])
  {
    hide Key;
    var key := Key(n);
    KeyCharacters(n);
    KeyCharacters(k);
    if o == 0 {
      assert u[0..] == u;
      if key <= u {
        PrefixOfKey(n, u, k, d);
        KeyAtKey(n, k, "");
      }
    } else {
      assert u[o] == u[..d][o] == Key(k)[o];
      assert o + 1 < d ==> u[o + 1] == u[..d][o + 1] == Key(k)[o + 1];
      if o < |Key(k)| - 2 { KeyUnderscores(k, o); }
      assert u[o] != '_' || u[o + 1] != '_';
      assert key[0] == '_' && key[1] == '_' && u[o..][0] == u[o] && u[o..][1] == u[o + 1];
    }
  }

  lemma StuckFront(u: string)
    requires Stuck(u)
    ensures u != "" && u[0] == '_'
  {
    hide Key;
    var k: nat, d: nat :| StuckAt(u, k, d);
    KeyCharacters(k);
    assert u[0] == u[..d][0] == Key(k)[..d][0];
  }

  lemma {:induction false} StuckStaysOff(p: string, u: string, s: string, values: seq<string>, n: nat)
    requires p <= s && |p| < |s| && IsMark(s[|p|]) && Stuck(u) && n <= |values| && AllValues(values)
    ensures Clashes(RestoreFrom(p + u, values, n), s)
    decreases |values| - n
  {
    hide Key, SplitJoin, Stuck;
    KeyIsText(n);
    if n == |values| {
      StuckFront(u);
      assert Clash(p + u, s, |p|);
    } else if NoHit(p, u, Key(n)) {
      NoHits(p, u, Key(n), values[n]);
      StuckStays(u, n, values[n]);
      StuckStaysOff(p, SplitJoin(u, Key(n), values[n]), s, values, n + 1);
    } else {
      var g := HitIsOff(p, u, s, n, values[n]);
      OffStays(SplitJoin(p + u, Key(n), values[n]), s, g, values, n + 1);
    }
  }

  /** What follows in the text can no longer become what follows in the source. */
  ghost predicate Lost(u: string, target: string) {
    && u != "" && target != ""
    && ((IsMark(u[0]) && target[0] == '_') || (Stuck(u) && IsMark(target[0])))
  }

  lemma LostStays(u: string, target: string, n: nat, value: string)
    requires Lost(u, target)
    ensures Key(n) != "" && Lost(SplitJoin(u, Key(n), value), target)
  {
    hide Key, SplitJoin, Stuck;
    if Stuck(u) && IsMark(target[0]) {
      StuckStays(u, n, value);
      StuckFront(SplitJoin(u, Key(n), value));
    } else {
      SplitJoinAtMark(u, n, value);
    }
  }

  // ----- Hits behind the hole -----

  lemma {:induction false} RenderJoins(x: seq<Sym>, y: seq<Sym>, values: seq<string>, i: nat)
    ensures Render(x + y, values, i) == Render(x, values, i) + Render(y, values, i)
  {
    hide RenderSym;
    if x == [] {
      assert x + y == y;
    } else {
      assert (x + y)[1..] == x[1..] + y;
      RenderJoins(x[1..], y, values, i);
    }
  }

  /** Where a character of the rendered text comes from: the symbols before, and how far it is into its own. */
  lemma {:induction false} Locate(y: seq<Sym>, values: seq<string>, g: nat) returns (m: nat, d: nat)
    requires g < |Render(y, values, 0)|
    ensures m < |y| && d < |RenderSym(y[m], values, 0)| && g == |Render(y[..m], values, 0)| + d
    ensures Render(y, values, 0)[..g] == Render(y[..m], values, 0) + RenderSym(y[m], values, 0)[..d]
    ensures Render(y, values, 0)[g..] == RenderSym(y[m], values, 0)[d..] + Render(y[m + 1..], values, 0)
  {
    hide RenderSym;
    var part, rest := RenderSym(y[0], values, 0), Render(y[1..], values, 0);
    if g < |part| {
      m, d := 0, g;
      assert Render(y[..0], values, 0) == "";
    } else {
      m, d := Locate(y[1..], values, g - |part|);
      m := m + 1;
      assert y[..m] == [y[0]] + y[1..][..m - 1] && y[1..][m..] == y[m + 1..];
      RenderFront(y[0], y[1..][..m - 1], values, 0);
      LocateFurther(part, rest, Render(y[1..][..m - 1], values, 0), RenderSym(y[m], values, 0)[..d], g);
    }
  }

  lemma LocateFurther(part: string, rest: string, before: string, into: string, g: nat)
    requires |part| <= g <= |part| + |rest| && rest[..g - |part|] == before + into
    ensures (part + rest)[..g] == part + before + into
    ensures (part + rest)[g..] == rest[g - |part|..]
  {
    assert (part + rest)[..g] == part + rest[..g - |part|];
  }

  lemma {:induction false} NumberedParts(y: seq<Sym>, n: nat, m: nat, k: nat)
    requires Numbered(y, n, m) && k < |y|
    ensures n <= m
    ensures exists l: nat :: n <= l <= m && Numbered(y[..k], n, l) && (y[k].Hole? ==> y[k].k == l && l < m)
  {
    NumberedGrows(y, n, m);
    if k == 0 {
      assert Numbered(y[..0], n, n);
      if y[0].Hole? { NumberedGrows(y[1..], n + 1, m); }
    } else {
      var n' := if y[0].Ch? then n else n + 1;
      NumberedParts(y[1..], n', m, k - 1);
      var l: nat :| n' <= l <= m && Numbered(y[1..][..k - 1], n', l) && (y[1..][k - 1].Hole? ==>
        y[1..][k - 1].k == l && l < m);
      assert y[..k][1..] == y[1..][..k - 1];
      assert Numbered(y[..k], n, l);
    }
  }

  lemma {:induction false} NumberedGrows(y: seq<Sym>, n: nat, m: nat)
    requires Numbered(y, n, m)
    ensures n <= m
  {
    if y != [] { NumberedGrows(y[1..], if y[0].Ch? then n else n + 1, m); }
  }

  /** A hit behind the hole: the symbols before it stay, and the rest of the text is lost. */
  lemma HitIsLost(y: seq<Sym>, values: seq<string>, n: nat, m: nat, w: string, target: string, key: nat)
    returns (k: nat, l: nat, u: string, goal: string)
    requires Numbered(y, n, m) && key < n <= m <= |values| && AllValues(values)
    requires !NoHit(Render(y, values, 0), w, Key(key))
    ensures k < |y| && n <= l <= m && Numbered(y[..k], n, l)
    ensures Key(key) != ""
    ensures SplitJoin(Render(y, values, 0) + w, Key(key), values[key]) == Render(y[..k], values, 0) + u
    ensures Full(y, values) + target == Full(y[..k], values) + goal
    ensures Lost(u, goal)
  {
    hide Key, SplitJoin, Render, RenderSym, NoHit, Lost, Numbered, Stuck;
    KeyCharacters(key);
    var g, tail := FirstHit(Render(y, values, 0), w, Key(key), values[key]);
    var d;
    k, d := Locate(y, values, g);
    NumberedParts(y, n, m, k);
    l :| n <= l <= m && Numbered(y[..k], n, l) && (y[k].Hole? ==> y[k].k == l && l < m);
    var part, rest := RenderSym(y[k], values, 0), Render(y[k + 1..], values, 0);
    u := part[..d] + values[key] + tail;
    LostAssociates(Render(y[..k], values, 0), part[..d], values[key], tail);
    goal := RenderSym(y[k], values, |values|) + Full(y[k + 1..], values) + target;
    assert y == y[..k] + ([y[k]] + y[k + 1..]);
    RenderJoins(y[..k], [y[k]] + y[k + 1..], values, |values|);
    RenderFront(y[k], y[k + 1..], values, |values|);
    LostAssociates(Full(y[..k], values), RenderSym(y[k], values, |values|), Full(y[k + 1..], values), target);
    assert Render(y, values, 0)[g..] + w == part[d..] + (rest + w);
    HitInSymbol(y[k], values, key, d, rest + w, tail, Full(y[k + 1..], values) + target);
    ConcatAssociates(RenderSym(y[k], values, |values|), Full(y[k + 1..], values), target);
  }

  lemma LostAssociates(a: string, b: string, c: string, d: string)
    ensures a + b + c + d == a + (b + c + d)
    ensures a + (b + c) + d == a + (b + c + d)
  {}

  lemma HitInSymbol(sym: Sym, values: seq<string>, key: nat, d: nat, rest: string, tail: string, behind: string)
    requires key < |values| && AllValues(values) && (sym.Hole? ==> key < sym.k < |values|)
    requires d < |RenderSym(sym, values, 0)| && Key(key) <= RenderSym(sym, values, 0)[d..] + rest
    ensures Lost(RenderSym(sym, values, 0)[..d] + values[key] + tail, RenderSym(sym, values, |values|) + behind)
  {
    hide Key;
    KeyCharacters(key);
    var part, value := RenderSym(sym, values, 0), values[key];
    var u := part[..d] + value + tail;
    assert (part[d..] + rest)[0] == part[d];
    if sym.Ch? {
      assert d == 0 && u[0] == value[0];
    } else {
      KeyCharacters(sym.k);
      if d == 0 {
        assert part[0..] == part;
        KeyAtKey(key, sym.k, rest);
        assert false;
      }
      assert u[..d] == Key(sym.k)[..d] && u[d] == value[0];
      assert StuckAt(u, sym.k, d);
      assert (values[sym.k] + behind)[0] == values[sym.k][0];
    }
  }

  // ----- The condition -----

  /** A lost text is never restored: not the part that is right so
      far, not the symbols `y` behind it, not what is lost. */
  lemma {:induction false} LostForGood(p: string, y: seq<Sym>,
      u: string, goal: string, values: seq<string>, n: nat, m: nat)
    requires Numbered(y, n, m) && n <= m <= |values| && AllValues(values) && Lost(u, goal)
    ensures Clashes(RestoreFrom(p + Render(y, values, 0) + u, values, n), p + Full(y, values) + goal)
    decreases |y|, 0
  {
    hide Key, SplitJoin, Lost, NoHit;
    KeyIsText(n);
    if y == [] {
      assert p + Render(y, values, 0) == p && p + Full(y, values) == p;
      LostAtOnce(p, u, goal, values, n);
    } else if y[0].Ch? {
      var c, z := y[0].c, y[1..];
      assert y == [y[0]] + z;
      RenderFront(y[0], z, values, 0);
      RenderFront(y[0], z, values, |values|);
      LostForGood(p + [c], z, u, goal, values, n, m);
      ConcatAssociates(p, [c], Render(z, values, 0));
      ConcatAssociates(p, [c], Full(z, values));
    } else {
      NumberedGrows(y[1..], n + 1, m);
      LostBehindHole(p, y[1..], u, goal, values, n, m);
      assert y == [y[0]] + y[1..];
      RenderFront(y[0], y[1..], values, 0);
      RenderFront(y[0], y[1..], values, |values|);
    }
  }

  lemma LostAtOnce(p: string, u: string, goal: string, values: seq<string>, n: nat)
    requires Lost(u, goal) && n <= |values| && AllValues(values)
    ensures Clashes(RestoreFrom(p + u, values, n), p + goal)
  {
    hide RestoreFrom, Stuck;
    var t, s := p + u, p + goal;
    assert t[|p|] == u[0] && s[|p|] == goal[0] && t[..|p|] == p == s[..|p|];
    if Stuck(u) && IsMark(goal[0]) {
      StuckStaysOff(p, u, s, values, n);
    } else {
      OffStays(t, s, |p|, values, n);
    }
  }

  lemma {:induction false} LostBehindHole(p: string, z: seq<Sym>,
      u: string, goal: string, values: seq<string>, n: nat, m: nat)
    requires Numbered(z, n + 1, m) && n + 1 <= m <= |values| && AllValues(values) && Lost(u, goal)
    ensures Clashes(RestoreFrom(p + (Key(n) + Render(z, values, 0)) + u, values, n),
                    p + (values[n] + Full(z, values)) + goal)
    decreases |z|, 1
  {
    hide Key, SplitJoin, Lost, NoHit, Render;
    KeyIsText(n);
    var key, value, b, full := Key(n), values[n], Render(z, values, 0), Full(z, values);
    var t, s := p + (key + b) + u, p + (value + full) + goal;
    assert t == p + (key + (b + u)) && s == p + value + (full + goal) == p + (value + full + goal);
    if !NoHit(p, key + (b + u), key) {
      var g := HitIsOff(p, key + (b + u), s, n, value);
      OffStays(SplitJoin(t, key, value), s, g, values, n + 1);
    } else {
      NoHits(p, key + (b + u), key, value);
      KeyFilled(b + u, n, value);
      assert SplitJoin(t, key, value) == p + value + SplitJoin(b + u, key, value);
      if NoHit(b, u, key) {
        NoHits(b, u, key, value);
        LostStays(u, goal, n, value);
        LostForGood(p + value, z, SplitJoin(u, key, value), goal, values, n + 1, m);
        ConcatAssociates(p + value, b, SplitJoin(u, key, value));
        ConcatAssociates(p + value, full, goal);
      } else {
        var k, l, u', goal' := HitIsLost(z, values, n + 1, m, u, goal, n);
        LostForGood(p + value, z[..k], u', goal', values, n + 1, l);
        ConcatAssociates(p + value, Render(z[..k], values, 0), u');
        ConcatAssociates(p + value, Full(z[..k], values), goal');
      }
    }
  }

  /** The text is the one aimed at, or has a mark where that has an underscore, or the other way round. */
  ghost predicate RestoredIf(alone: bool, t: string, s: string) {
    if alone then t == s else Clashes(t, s)
  }

  /** From hole `n` on, with the text before it restored: the rest is
      restored if and only if every placeholder stands alone. */
  lemma {:induction false} RestoredFromHole(p: string, x: seq<Sym>, values: seq<string>, n: nat)
    requires Numbered(x, n, |values|) && n <= |values| && AllValues(values)
    ensures RestoredIf(Alone(x, p, values), RestoreFrom(p + Render(x, values, 0), values, n), p + Full(x, values))
    decreases |x|, 0
  {
    hide Key, SplitJoin, NoHit;
    if x == [] {
    } else if x[0].Ch? {
      var c, z := x[0].c, x[1..];
      ConcatAssociates(p, [c], Render(z, values, 0));
      ConcatAssociates(p, [c], Full(z, values));
      RestoredFromHole(p + [c], z, values, n);
    } else {
      NumberedGrows(x[1..], n + 1, |values|);
      RestoredAtHole(p, x[1..], values, n);
    }
  }

  lemma {:induction false} RestoredAtHole(p: string, z: seq<Sym>, values: seq<string>, n: nat)
    requires Numbered(z, n + 1, |values|) && n < |values| && AllValues(values)
    ensures RestoredIf(
      NoHit(p, Key(n), Key(n)) && NoHit(Render(z, values, 0), "", Key(n)) && Alone(z, p + values[n], values),
      RestoreFrom(p + (Key(n) + Render(z, values, 0)), values, n), p + (values[n] + Full(z, values)))
    decreases |z|, 1
  {
    hide Key, SplitJoin, NoHit, Render, Alone, Numbered;
    KeyIsText(n);
    var key, value, b, full := Key(n), values[n], Render(z, values, 0), Full(z, values);
    var t, s := p + (key + b), p + (value + full);
    NoHitBeforeKey(p, key, b);
    ConcatAssociates(p, value, full);
    if !NoHit(p, key + b, key) {
      var g := HitIsOff(p, key + b, s, n, value);
      OffStays(SplitJoin(t, key, value), s, g, values, n + 1);
    } else {
      NoHits(p, key + b, key, value);
      KeyFilled(b, n, value);
      ConcatAssociates(p, value, SplitJoin(b, key, value));
      assert b + "" == b && full + "" == full;
      if NoHit(b, "", key) {
        NoHits(b, "", key, value);
        assert SplitJoin("", key, value) == "" by { SplitJoinNothing(key, value); }
        RestoredFromHole(p + value, z, values, n + 1);
      } else {
        var k, l, u, goal := HitIsLost(z, values, n + 1, |values|, "", "", n);
        LostForGood(p + value, z[..k], u, goal, values, n + 1, l);
        ConcatAssociates(p + value, Render(z[..k], values, 0), u);
        ConcatAssociates(p + value, Full(z[..k], values), goal);
      }
    }
  }

  lemma SplitJoinNothing(key: string, value: string)
    requires key != ""
    ensures SplitJoin("", key, value) == ""
  {}

  /** Whether a hit starts before the hole does not depend on what follows it. */
  lemma NoHitBeforeKey(p: string, key: string, b: string)
    ensures NoHit(p, key + b, key) <==> NoHit(p, key, key)
  {
    forall d | 0 <= d < |p| ensures key <= p[d..] + (key + b) <==> key <= p[d..] + key {
      assert p[d..] + (key + b) == (p[d..] + key) + b;
    }
  }

  /** The same read off the source: no placeholder `n` in the source before
      segment `n` and its placeholder, none in the protected text behind it. */
  predicate PlaceholdersAlone(s: string, i: nat, n: nat)
    requires i <= |s|
    decreases |s| - i
  {
    if i == |s| then true
    else match SegmentEnd(s, i)
      case Some(e) => NoHit(s[..i], Key(n), Key(n)) && NoHit(Work(s, e, n + 1), "", Key(n)) &&
        PlaceholdersAlone(s, e, n + 1)
      case None => PlaceholdersAlone(s, i + 1, n)
  }

  lemma {:induction false} AloneInSource(s: string, i: nat, n: nat, values: seq<string>)
    requires i <= |s| && n <= |values| && values[n..] == Values(s, i)
    ensures Alone(Symbols(s, i, n), s[..i], values) <==> PlaceholdersAlone(s, i, n)
    ensures Numbered(Symbols(s, i, n), n, |values|)
    decreases |s| - i
  {
    hide SegmentEnd, Key, NoHit, Render;
    if i < |s| {
      var x := Symbols(s, i, n);
      match SegmentEnd(s, i)
      case Some(e) =>
        assert values[n] == values[n..][0] && values[n + 1..] == values[n..][1..];
        assert x[1..] == Symbols(s, e, n + 1);
        AloneInSource(s, e, n + 1, values);
        SymbolsRender(s, e, n + 1, values);
        assert s[..e] == s[..i] + s[i..e];
      case None =>
        assert x[1..] == Symbols(s, i + 1, n);
        assert s[..i + 1] == s[..i] + [s[i]];
        AloneInSource(s, i + 1, n, values);
    }
  }

  /** Restoring gives the source back if and only if every placeholder stands alone. */
  lemma RestoredIffAlone(s: string)
    ensures RestoreSqlSegments(Work(s, 0, 0), Values(s, 0)) == s <==> PlaceholdersAlone(s, 0, 0)
  {
    hide RestoreFrom, Work, Values, PlaceholdersAlone, Alone, Numbered, Render;
    var values := Values(s, 0);
    assert values[0..] == values && s[0..] == s && s[..0] == "";
    SymbolsRender(s, 0, 0, values);
    AloneInSource(s, 0, 0, values);
    var x := Symbols(s, 0, 0);
    assert "" + Render(x, values, 0) == Render(x, values, 0) && "" + Full(x, values) == Full(x, values);
    RestoredFromHole("", x, values, 0);
    if !PlaceholdersAlone(s, 0, 0) { ClashesDiffer(RestoreSqlSegments(Work(s, 0, 0), values), s); }
  }

  lemma ClashesDiffer(t: string, s: string)
    requires Clashes(t, s)
    ensures t != s
  {}

  /** In particular for every text without the placeholder word. */
  lemma NoWordStandsAlone(s: string)
    requires NoWord(s)
    ensures PlaceholdersAlone(s, 0, 0)
  {
    RestoreProtected(s);
    RestoredIffAlone(s);
  }
}
