/** The bracket finder: a second copy of the five-state scan, and bracket matching by depth counting. */
module SqlBrackets {
  import opened Options
  import opened SqlText
  import opened SqlScanner

  datatype Bracket = Bracket(index: nat, symbol: char)

  predicate IsOpening(c: char) {
    c == '(' || c == '[' || c == '{'
  }

  predicate IsClosing(c: char) {
    c == ')' || c == ']' || c == '}'
  }

  /** The bracket that pairs with `c`, in either direction. */
  function Partner(c: char): char
    requires IsOpening(c) || IsClosing(c)
  {
    match c
    case '(' => ')'
    case '[' => ']'
    case '{' => '}'
    case ')' => '('
    case ']' => '['
    case _ => '{'
  }

  predicate IsBracketAt(s: string, i: nat) {
    InCode(s, i) && (IsOpening(s[i]) || IsClosing(s[i]))
  }

  // ----- Positions -----

  function BracketsFrom(s: string, i: nat): seq<Bracket>
    requires i <= |s|
    decreases |s| - i
  {
    if i == |s| then []
    else if IsBracketAt(s, i) then [Bracket(i, s[i])] + BracketsFrom(s, i + 1)
    else BracketsFrom(s, i + 1)
  }

  lemma BracketsPass(s: string, i: nat, next: nat)
    requires i < next <= i + 2 && next <= |s|
    requires forall k :: i <= k < next ==> !IsBracketAt(s, k)
    ensures BracketsFrom(s, i) == BracketsFrom(s, next)
  {}

  method SqlBracketPositions(sql: string) returns (positions: seq<Bracket>)
    ensures positions == BracketsFrom(sql, 0)
  {
    hide StateAt;
    ScanStarts(sql);
    positions := [];
    var state := Normal;
    var index := 0;
    while index < |sql|
      invariant index <= |sql|
      invariant StateAt(sql, index) == Cursor(state, false)
      invariant positions + BracketsFrom(sql, index) == BracketsFrom(sql, 0)
    {
      ghost var visited, visit := index, Visit(sql, index, state);
      VisitAdvances(sql, index, state);
      var c := sql[index];
      if state == LineComment {
        if c == '\n' { state := Normal; }
      } else if state == BlockComment {
        if c == '*' && At(sql, index + 1, '/') {
          state := Normal;
          index := index + 1;
        }
      } else if state == SingleQuote {
        if c == '\'' && At(sql, index + 1, '\'') {
          index := index + 1;
        } else if c == '\'' {
          state := Normal;
        }
      } else if state == DoubleQuote {
        if c == '"' && At(sql, index + 1, '"') {
          index := index + 1;
        } else if c == '"' {
          state := Normal;
        }
      } else if c == '-' && At(sql, index + 1, '-') {
        state := LineComment;
        index := index + 1;
      } else if c == '/' && At(sql, index + 1, '*') {
        state := BlockComment;
        index := index + 1;
      } else if c == '\'' {
        state := SingleQuote;
      } else if c == '"' {
        state := DoubleQuote;
      } else if c in "()[]{}" {
        positions := positions + [Bracket(index, c)];
      }
      index := index + 1;
      assert (state, index - visited) == visit;
      if !IsBracketAt(sql, visited) { BracketsPass(sql, visited, index); }
    }
  }

  ghost predicate Listed(ps: seq<Bracket>, k: nat) {
    exists n :: 0 <= n < |ps| && ps[n].index == k
  }

  /** The positions are code-level brackets in order of their place in the text. */
  lemma {:induction false} PositionsAreBrackets(s: string, i: nat)
    requires i <= |s|
    ensures forall b :: b in BracketsFrom(s, i) ==> i <= b.index && IsBracketAt(s, b.index) && s[b.index] == b.symbol
    ensures forall m, n :: 0 <= m < n < |BracketsFrom(s, i)| ==>
      BracketsFrom(s, i)[m].index < BracketsFrom(s, i)[n].index
    decreases |s| - i
  {
    hide StateAt;
    if i < |s| {
      PositionsAreBrackets(s, i + 1);
    }
  }

  /** No code-level bracket is missed. */
  lemma {:induction false} PositionsAreComplete(s: string, i: nat, k: nat)
    requires i <= k < |s| && IsBracketAt(s, k)
    ensures Listed(BracketsFrom(s, i), k)
    decreases |s| - i
  {
    hide IsBracketAt;
    var ps := BracketsFrom(s, i);
    if i == k {
      assert ps[0].index == k;
    } else {
      PositionsAreComplete(s, i + 1, k);
      var rest := BracketsFrom(s, i + 1);
      var n :| 0 <= n < |rest| && rest[n].index == k;
      assert ps[|ps| - |rest| + n].index == k;
    }
  }

  // ----- Matching -----

  /** Code-level openings minus closings of one kind of bracket before index `k`. */
  function Level(s: string, open: char, k: nat): int
    requires k <= |s| && IsOpening(open)
  {
    if k == 0 then 0
    else Level(s, open, k - 1) + Weight(s, open, k - 1)
  }

  function Weight(s: string, open: char, i: nat): int
    requires i < |s| && IsOpening(open)
  {
    if !InCode(s, i) then 0
    else if s[i] == open then 1
    else if s[i] == Partner(open) then -1
    else 0
  }

  /** `p` opens and `q` closes the same enclosed stretch, counting one kind of bracket. */
  ghost predicate Paired(s: string, p: nat, q: nat) {
    && p < q < |s|
    && InCode(s, p) && InCode(s, q)
    && IsOpening(s[p]) && s[q] == Partner(s[p])
    && Level(s, s[p], q + 1) == Level(s, s[p], p)
    && forall k :: p < k <= q ==> Level(s, s[p], k) > Level(s, s[p], p)
  }

  /** The bracket next to the caret, the one before it first. */
  function Anchor(s: string, caret: nat): Option<nat> {
    if caret > 0 && IsBracketAt(s, caret - 1) then Some(caret - 1)
    else if IsBracketAt(s, caret) then Some(caret)
    else None
  }

  /** What the editor highlights: the pair the anchor belongs to, or the lone anchor. */
  ghost function BracketMatch(s: string, caret: nat): seq<nat> {
    match Anchor(s, caret)
    case None => []
    case Some(a) =>
      if exists q :: Paired(s, a, q) then
        var q :| Paired(s, a, q); [a, q]
      else if exists p :: Paired(s, p, a) then
        var p :| Paired(s, p, a); [p, a]
      else [a]
  }

  lemma {:induction false} LevelFlat(s: string, open: char, x: nat, y: nat)
    requires x <= y <= |s| && IsOpening(open)
    requires forall k :: x <= k < y ==> !IsBracketAt(s, k)
    ensures forall k :: x <= k <= y ==> Level(s, open, k) == Level(s, open, x)
    decreases y - x
  {
    hide StateAt;
    if x < y {
      LevelFlat(s, open, x, y - 1);
      assert !IsBracketAt(s, y - 1);
      assert Level(s, open, y) == Level(s, open, y - 1);
    }
  }

  lemma PairedUnique(s: string, p: nat, q: nat, p': nat, q': nat)
    requires Paired(s, p, q) && Paired(s, p', q')
    requires p == p' || q == q'
    ensures p == p' && q == q'
  {
    hide StateAt;
  }

  /** Pairs of one kind are nested or apart. */
  lemma PairsDoNotCross(s: string, p: nat, q: nat, p': nat, q': nat)
    requires Paired(s, p, q) && Paired(s, p', q')
    requires s[p] == s[p'] && p < p'
    ensures q < p' || q' < q
  {
    hide StateAt;
  }

  /** Asking at either bracket of a pair gives the pair, and nothing else gives one. */
  lemma MatchIsSymmetric(s: string, p: nat, q: nat)
    ensures Paired(s, p, q) <==> BracketMatch(s, p + 1) == [p, q] && p < q
    ensures Paired(s, p, q) <==> BracketMatch(s, q + 1) == [p, q] && p < q
  {
    hide StateAt, Level;
    if Paired(s, p, q) {
      assert Anchor(s, p + 1) == Some(p) && Anchor(s, q + 1) == Some(q);
      forall q' | Paired(s, p, q')
        ensures q' == q
      {
        PairedUnique(s, p, q, p, q');
      }
      forall p' | Paired(s, p', q)
        ensures p' == p
      {
        PairedUnique(s, p, q, p', q);
      }
      assert !exists q' :: Paired(s, q, q');
    }
  }

  // ----- Finding the match -----

  /** How far the text is accounted for after the first `n` positions. */
  ghost function Frontier(ps: seq<Bracket>, n: nat): nat
    requires n <= |ps|
  {
    if n == 0 then 0 else ps[n - 1].index + 1
  }

  /** The level changes only at listed positions, by one, at a bracket of its kind. */
  lemma LevelBetween(s: string, open: char, n: nat)
    requires IsOpening(open)
    requires n <= |BracketsFrom(s, 0)|
    ensures var ps := BracketsFrom(s, 0);
            var from, to := Frontier(ps, n), if n < |ps| then ps[n].index else |s|;
            && from <= to <= |s|
            && (forall k: nat :: from <= k < to ==> !IsBracketAt(s, k))
            && (forall k: nat :: from <= k <= to ==> Level(s, open, k) == Level(s, open, from))
            && (n < |ps| ==>
                  && to < |s| && s[to] == ps[n].symbol && IsBracketAt(s, to)
                  && Level(s, open, to + 1) == Level(s, open,
                    to) + (if s[to] == open then 1 else if s[to] == Partner(open) then -1 else 0))
  {
    hide StateAt, Level, BracketsFrom;
    PositionsAreBrackets(s, 0);
    var ps := BracketsFrom(s, 0);
    var from, to := Frontier(ps, n), if n < |ps| then ps[n].index else |s|;
    assert forall m :: 0 <= m < |ps| ==> ps[m].index < from || to <= ps[m].index;
    forall k: nat | from <= k < to
      ensures !IsBracketAt(s, k)
    {
      assert !Listed(ps, k);
      if IsBracketAt(s, k) { PositionsAreComplete(s, 0, k); }
    }
    LevelFlat(s, open, from, to);
    if n < |ps| { LevelStep(s, open, to); }
  }

  lemma LevelStep(s: string, open: char, k: nat)
    requires IsOpening(open) && IsBracketAt(s, k)
    ensures Level(s, open, k + 1) == Level(s, open,
      k) + (if s[k] == open then 1 else if s[k] == Partner(open) then -1 else 0)
  {}

  method FindClosing(sql: string, positions: seq<Bracket>, anchor: nat) returns (r: seq<nat>)
    requires positions == BracketsFrom(sql, 0)
    requires IsBracketAt(sql, anchor) && IsOpening(sql[anchor])
    ensures r == BracketMatch(sql, anchor + 1)
  {
    hide StateAt, Level, Weight, BracketsFrom, BracketMatch;
    var c := sql[anchor];
    var depth := 0;
    for n := 0 to |positions|
      invariant Frontier(positions, n) <= |sql|
      invariant depth == if Frontier(positions, n) <= anchor then 0
                         else Level(sql, c, Frontier(positions, n)) - Level(sql, c, anchor)
      invariant forall k :: anchor < k <= Frontier(positions, n) ==> Level(sql, c, k) > Level(sql, c, anchor)
    {
      var item := positions[n];
      LevelBetween(sql, c, n);
      if item.index >= anchor {
        if item.symbol == c { depth := depth + 1; }
        if item.symbol == Partner(c) { depth := depth - 1; }
        assert depth == Level(sql, c, item.index + 1) - Level(sql, c, anchor);
        if depth == 0 {
          assert Paired(sql, anchor, item.index);
          MatchIsSymmetric(sql, anchor, item.index);
          return [anchor, item.index];
        }
      }
    }
    LevelBetween(sql, c, |positions|);
    NoClosing(sql, anchor);
    return [anchor];
  }

  lemma NoClosing(s: string, a: nat)
    requires IsBracketAt(s, a) && IsOpening(s[a])
    requires forall k :: a < k <= |s| ==> Level(s, s[a], k) > Level(s, s[a], a)
    ensures BracketMatch(s, a + 1) == [a]
  {
    hide StateAt, Level;
    forall q: nat
      ensures !Paired(s, a, q)
    {
      assert q < |s| && a < q ==> Level(s, s[a], q + 1) > Level(s, s[a], a);
    }
  }

  method FindOpening(sql: string, positions: seq<Bracket>, anchor: nat) returns (r: seq<nat>)
    requires positions == BracketsFrom(sql, 0)
    requires IsBracketAt(sql, anchor) && IsClosing(sql[anchor])
    ensures r == BracketMatch(sql, anchor + 1)
  {
    hide StateAt, Level, Weight, BracketsFrom, BracketMatch;
    var open := Partner(sql[anchor]);
    var depth := 0;
    var index := |positions|;
    LevelBetween(sql, open, index);
    while index > 0
      invariant 0 <= index <= |positions|
      invariant Frontier(positions, index) <= |sql|
      invariant depth == if Frontier(positions, index) > anchor + 1 then 0
                         else Level(sql, open, Frontier(positions, index)) - Level(sql, open, anchor + 1)
      invariant forall k :: Frontier(positions, index) <= k <= anchor ==>
        Level(sql, open, k) > Level(sql, open, anchor + 1)
    {
      index := index - 1;
      var item := positions[index];
      LevelBetween(sql, open, index);
      if item.index <= anchor {
        if item.symbol == sql[anchor] { depth := depth + 1; }
        if item.symbol == open { depth := depth - 1; }
        assert depth == Level(sql, open, item.index) - Level(sql, open, anchor + 1);
        if depth == 0 {
          assert Paired(sql, item.index, anchor);
          MatchIsSymmetric(sql, item.index, anchor);
          return [item.index, anchor];
        }
      }
    }
    NoOpening(sql, anchor);
    return [anchor];
  }

  lemma NoOpening(s: string, a: nat)
    requires IsBracketAt(s, a) && IsClosing(s[a])
    requires forall k :: 0 <= k <= a ==> Level(s, Partner(s[a]), k) > Level(s, Partner(s[a]), a + 1)
    ensures BracketMatch(s, a + 1) == [a]
  {
    hide StateAt, Level;
    assert forall p: nat :: Paired(s, p, a) ==> Level(s, Partner(s[a]), p) == Level(s, Partner(s[a]), a + 1);
  }

  method FindSqlBracketMatch(sql: string, caret: nat) returns (r: seq<nat>)
    ensures r == BracketMatch(sql, caret)
  {
    hide StateAt, Level, BracketsFrom;
    var positions := SqlBracketPositions(sql);
    var byIndex := IndexPositions(sql, positions);
    var anchor;
    if caret > 0 && caret - 1 in byIndex { anchor := caret - 1; }
    else if caret in byIndex { anchor := caret; }
    else { return []; }
    assert BracketMatch(sql, caret) == BracketMatch(sql, anchor + 1);
    if IsOpening(byIndex[anchor]) {
      r := FindClosing(sql, positions, anchor);
    } else {
      r := FindOpening(sql, positions, anchor);
    }
  }

  method IndexPositions(sql: string, positions: seq<Bracket>) returns (byIndex: map<nat, char>)
    requires positions == BracketsFrom(sql, 0)
    ensures forall k: nat :: k in byIndex <==> IsBracketAt(sql, k)
    ensures forall k: nat :: k in byIndex ==> k < |sql| && byIndex[k] == sql[k]
  {
    hide StateAt, BracketsFrom;
    PositionsAreBrackets(sql, 0);
    byIndex := map[];
    for n := 0 to |positions|
      invariant forall k: nat :: k in byIndex ==> IsBracketAt(sql, k) && byIndex[k] == sql[k]
      invariant forall m :: 0 <= m < n ==> positions[m].index in byIndex
    {
      byIndex := byIndex[positions[n].index := positions[n].symbol];
    }
    forall k: nat | IsBracketAt(sql, k)
      ensures k in byIndex
    {
      PositionsAreComplete(sql, 0, k);
    }
  }

  /** No bracket inside a quote or a comment is ever highlighted. */
  lemma OnlyCodeIsMatched(s: string, caret: nat)
    ensures forall k :: k in BracketMatch(s, caret) ==> IsBracketAt(s, k)
    ensures |BracketMatch(s, caret)| <= 2
  {
    hide StateAt, Level;
  }

  // ----- The same, told from the characters -----

  /** Exactly the six characters are brackets, and they pair by kind. */
  lemma BracketsAre(s: string, k: nat)
    ensures IsBracketAt(s, k) <==> InCode(s, k) && s[k] in "()[]{}"
    ensures forall q: nat :: Paired(s, k, q) ==> [s[k], s[q]] in {"()", "[]", "{}"}
  {
    hide StateAt, Level;
    forall q: nat | Paired(s, k, q) ensures [s[k], s[q]] in {"()", "[]", "{}"} {
      assert s[k] == '(' || s[k] == '[' || s[k] == '{';
    }
  }

  /** The bracket in front of the caret is asked first, then the one behind it; alone it is returned alone. */
  lemma CaretAsks(s: string, caret: nat)
    ensures var before, behind := caret > 0 && InCode(s, caret - 1) && s[caret - 1] in "()[]{}",
        InCode(s, caret) && s[caret] in "()[]{}";
      && (!before && !behind <==> BracketMatch(s, caret) == [])
      && (before ==> caret - 1 in BracketMatch(s, caret))
      && (!before && behind ==> caret in BracketMatch(s, caret))
      && ((before || behind) && |BracketMatch(s, caret)| == 1 ==>
          var a := if before then caret - 1 else caret;
          forall p: nat, q: nat :: Paired(s, p, q) ==> p != a && q != a)
  {
    hide StateAt, Level;
    if caret > 0 { BracketsAre(s, caret - 1); }
    BracketsAre(s, caret);
    hide IsBracketAt, Paired;
  }

  /** Between a pair every bracket of its kind is paired, or has its partner in between. */
  lemma PairEncloses(s: string, p: nat, q: nat, k: nat)
    requires Paired(s, p, q) && p < k < q && InCode(s, k)
    ensures s[k] == s[p] ==> forall e: nat :: Paired(s, k, e) ==> e < q
    ensures s[k] == s[q] ==> forall o: nat :: Paired(s, o, k) ==> p < o
  {
    hide StateAt;
    forall e: nat | s[k] == s[p] && Paired(s, k, e) ensures e < q {
      PairsDoNotCross(s, p, q, k, e);
    }
    forall o: nat | s[k] == s[q] && Paired(s, o, k) ensures p < o {
      if o == p { PairedUnique(s, p, q, o, k); }
      if o < p { PairsDoNotCross(s, o, k, p, q); }
    }
  }
}
