/** The editor's five-state scanner, and the statement splitter and bracket finder built on it. */
module SqlScanner {
  import opened Options
  import opened SqlText

  datatype Mode = Normal | LineComment | BlockComment | SingleQuote | DoubleQuote

  /** The scanner's state before an index: its mode, and whether an earlier two-character match already consumed it. */
  datatype Cursor = Cursor(mode: Mode, consumed: bool)

  const Start := Cursor(Normal, false)

  function Advance(s: string, i: nat, at: Cursor): Cursor
    requires i < |s|
  {
    if at.consumed then Cursor(at.mode, false)
    else match at.mode
      case LineComment =>
        if s[i] == '\n' then Start else at
      case BlockComment =>
        if s[i] == '*' && At(s, i + 1, '/') then Cursor(Normal, true) else at
      case SingleQuote => InQuote(s, i, '\'', at)
      case DoubleQuote => InQuote(s, i, '"', at)
      case Normal =>
        if s[i] == '-' && At(s, i + 1, '-') then Cursor(LineComment, true)
        else if s[i] == '/' && At(s, i + 1, '*') then Cursor(BlockComment, true)
        else if s[i] == '\'' then Cursor(SingleQuote, false)
        else if s[i] == '"' then Cursor(DoubleQuote, false)
        else at
  }

  function InQuote(s: string, i: nat, quote: char, at: Cursor): Cursor
    requires i < |s|
  {
    if s[i] != quote then at
    else if At(s, i + 1, quote) then Cursor(at.mode, true)
    else Start
  }

  /** What the scanner knows on reaching index `i`. */
  function StateAt(s: string, i: nat): Cursor
    requires i <= |s|
  {
    if i == 0 then Start else Advance(s, i - 1, StateAt(s, i - 1))
  }

  /** The scanner inspects index `i` as code: not inside, and not closing, a quote or a comment. */
  predicate InCode(s: string, i: nat) {
    i < |s| && StateAt(s, i) == Start
  }

  predicate CodeSemicolon(s: string, i: nat) {
    InCode(s, i) && s[i] == ';'
  }

  lemma {:induction false} ConsumedHasCharacter(s: string, i: nat)
    requires i <= |s| && StateAt(s, i).consumed
    ensures i < |s|
  {}

  /** Scanning a slice that starts in code agrees with scanning the whole text. */
  lemma {:induction false} ScanSlice(s: string, a: nat, b: nat, k: nat)
    requires a + k < b <= |s| && StateAt(s, a) == Start
    ensures StateAt(s[a..b], k) == StateAt(s, a + k)
  {
    if k > 0 {
      ScanSlice(s, a, b, k - 1);
      assert s[a..b][k - 1] == s[a + k - 1] && s[a..b][k] == s[a + k];
    }
  }

  // ----- Statements -----

  datatype Statement = Statement(sql: string, start: nat, end: nat)

  /** The piece `raw`, found at `start`, without surrounding white space; None when nothing is left. */
  function TrimStatement(raw: string, start: nat): (r: Option<Statement>)
    ensures r.None? <==> SpaceBetween(raw, 0, |raw|)
    ensures r.Some? ==>
              && start <= r.value.start < r.value.end <= start + |raw|
              && r.value.sql == raw[r.value.start - start..r.value.end - start]
              && !IsSpace(raw[r.value.start - start])
              && !IsSpace(raw[r.value.end - start - 1])
              && SpaceBetween(raw, 0, r.value.start - start)
              && SpaceBetween(raw, r.value.end - start, |raw|)
  {
    var leading := Leading(raw);
    var trailing := Trailing(raw);
    var end := start + |raw| - trailing;
    var trimmedStart := start + leading;
    if trimmedStart >= end then None
    else Some(Statement(raw[leading..|raw| - trailing], trimmedStart, end))
  }

  function Piece(s: string, a: nat, b: nat): seq<Statement>
    requires a <= b <= |s|
  {
    match TrimStatement(s[a..b], a)
    case None => []
    case Some(statement) => [statement]
  }

  /** The statements found from index `i` on, when the one being read began at `start`. */
  function SplitFrom(s: string, start: nat, i: nat): seq<Statement>
    requires start <= i <= |s|
    decreases |s| - i
  {
    if i == |s| then Piece(s, start, i)
    else if CodeSemicolon(s, i) then Piece(s, start, i) + SplitFrom(s, i + 1, i + 1)
    else SplitFrom(s, start, i + 1)
  }

  function Split(s: string): seq<Statement> {
    SplitFrom(s, 0, 0)
  }

  /** The loops' view of one visit: the mode it leads to and how far the index moves. */
  function Visit(s: string, i: nat, mode: Mode): (Mode, nat)
    requires i < |s|
  {
    var next := Advance(s, i, Cursor(mode, false));
    (next.mode, if next.consumed then 2 else 1)
  }

  lemma VisitAdvances(s: string, i: nat, mode: Mode)
    requires i < |s| && StateAt(s, i) == Cursor(mode, false)
    ensures var (next, step) := Visit(s, i, mode);
            i + step <= |s| && StateAt(s, i + step) == Cursor(next, false)
    ensures forall k :: i < k < i + Visit(s, i, mode).1 ==> !InCode(s, k)
  {}

  lemma SplitPasses(s: string, start: nat, i: nat, next: nat)
    requires start <= i < next <= i + 2 && next <= |s|
    requires forall k :: i <= k < next ==> !CodeSemicolon(s, k)
    ensures SplitFrom(s, start, i) == SplitFrom(s, start, next)
  {}

  lemma ScanStarts(s: string)
    ensures StateAt(s, 0) == Start
  {}

  method SplitSqlStatements(sql: string) returns (statements: seq<Statement>)
    ensures statements == Split(sql)
  {
    hide StateAt, TrimStatement;
    ScanStarts(sql);
    statements := [];
    var statementStart := 0;
    var state := Normal;
    var index := 0;
    while index < |sql|
      invariant statementStart <= index <= |sql|
      invariant StateAt(sql, index) == Cursor(state, false)
      invariant statements + SplitFrom(sql, statementStart, index) == Split(sql)
    {
      ghost var visited, visit := index, Visit(sql, index, state);
      VisitAdvances(sql, index, state);
      var c := sql[index];
      if state == LineComment {
        if c == '\n' { state := Normal; }
      } else if state == BlockComment {
        if c == '*' && At(sql, index + 1, '/') {
          state := Normal;
          index := index + 1;
        }
      } else if state == SingleQuote {
        if c == '\'' && At(sql, index + 1, '\'') {
          index := index + 1;
        } else if c == '\'' {
          state := Normal;
        }
      } else if state == DoubleQuote {
        if c == '"' && At(sql, index + 1, '"') {
          index := index + 1;
        } else if c == '"' {
          state := Normal;
        }
      } else if c == '-' && At(sql, index + 1, '-') {
        state := LineComment;
        index := index + 1;
      } else if c == '/' && At(sql, index + 1, '*') {
        state := BlockComment;
        index := index + 1;
      } else if c == '\'' {
        state := SingleQuote;
      } else if c == '"' {
        state := DoubleQuote;
      } else if c == ';' {
        var statement := TrimStatement(sql[statementStart..index], statementStart);
        if statement.Some? { statements := statements + [statement.value]; }
        statementStart := index + 1;
      }
      index := index + 1;
      assert (state, index - visited) == visit;
      if statementStart <= visited { SplitPasses(sql, statementStart, visited, index); }
    }
    var last := TrimStatement(sql[statementStart..], statementStart);
    assert sql[statementStart..] == sql[statementStart..|sql|];
    if last.Some? { statements := statements + [last.value]; }
  }

  // ----- What splitting means -----

  ghost predicate IsStatement(s: string, st: Statement) {
    && st.start < st.end <= |s|
    && st.sql == s[st.start..st.end]
    && !IsSpace(s[st.start])
    && !IsSpace(s[st.end - 1])
    && forall k :: st.start <= k < st.end ==> !CodeSemicolon(s, k)
  }

  ghost predicate Separated(s: string, left: Statement, right: Statement) {
    exists k :: left.end <= k < right.start && CodeSemicolon(s, k)
  }

  ghost predicate Covered(sts: seq<Statement>, k: nat) {
    exists j :: 0 <= j < |sts| && sts[j].start <= k < sts[j].end
  }

  /** The editor's contract for the text from `a` on: trimmed slices without a code-level semicolon,
      in order, every two neighbours apart by one, and nothing else left out but white space and semicolons. */
  ghost predicate IsSplit(s: string, a: nat, sts: seq<Statement>) {
    && (forall j :: 0 <= j < |sts| ==> IsStatement(s, sts[j]) && a <= sts[j].start)
    && (forall i, j :: 0 <= i < j < |sts| ==> Separated(s, sts[i], sts[j]))
    && forall k :: a <= k < |s| && !Covered(sts, k) ==> IsSpace(s[k]) || CodeSemicolon(s, k)
  }

  lemma {:induction false} SplitIsSplit(s: string, start: nat, i: nat)
    requires start <= i <= |s|
    requires forall k :: start <= k < i ==> !CodeSemicolon(s, k)
    ensures IsSplit(s, start, SplitFrom(s, start, i))
    decreases |s| - i
  {
    hide CodeSemicolon, IsSplit, IsPiece, Piece;
    if i < |s| && !CodeSemicolon(s, i) {
      SplitIsSplit(s, start, i + 1);
    } else {
      PieceIsPiece(s, start, i);
      if i == |s| {
        PieceIsSplit(s, start, Piece(s, start, i));
      } else {
        SplitIsSplit(s, i + 1, i + 1);
        JoinSplits(s, start, i, Piece(s, start, i), SplitFrom(s, i + 1, i + 1));
      }
    }
  }

  /** One trimmed piece accounts for a stretch without code-level semicolons. */
  ghost predicate IsPiece(s: string, a: nat, b: nat, piece: seq<Statement>)
    requires a <= b <= |s|
  {
    if piece == [] then SpaceBetween(s, a, b)
    else
      && |piece| == 1
      && IsStatement(s, piece[0])
      && a <= piece[0].start && piece[0].end <= b
      && SpaceBetween(s, a, piece[0].start)
      && SpaceBetween(s, piece[0].end, b)
  }

  lemma PieceIsPiece(s: string, a: nat, b: nat)
    requires a <= b <= |s|
    requires forall k :: a <= k < b ==> !CodeSemicolon(s, k)
    ensures IsPiece(s, a, b, Piece(s, a, b))
  {
    hide CodeSemicolon, IsSpace, TrimStatement;
    var raw, piece := s[a..b], Piece(s, a, b);
    forall k | a <= k < b
      ensures s[k] == raw[k - a]
    {}
    if piece != [] {
      var st := piece[0];
      SliceOfSlice(s, a, b, st.start - a, st.end - a);
    }
  }

  lemma PieceIsUnique(s: string, a: nat, b: nat, piece: seq<Statement>, other: seq<Statement>)
    requires a <= b <= |s|
    requires IsPiece(s, a, b, piece) && IsPiece(s, a, b, other)
    ensures piece == other
  {
    hide CodeSemicolon, IsSpace;
    if piece != [] && other != [] {
      var x, y := piece[0], other[0];
      assert !IsSpace(s[x.start]) && !IsSpace(s[y.start]) && !IsSpace(s[x.end - 1]) && !IsSpace(s[y.end - 1]);
    }
  }

  lemma PieceIsSplit(s: string, a: nat, piece: seq<Statement>)
    requires a <= |s| && IsPiece(s, a, |s|, piece)
    ensures IsSplit(s, a, piece)
  {
    hide CodeSemicolon, IsSpace, IsStatement;
    forall k: nat | a <= k < |s| && !Covered(piece, k)
      ensures IsSpace(s[k])
    {
      if piece != [] { assert !(piece[0].start <= k < piece[0].end); }
    }
  }

  lemma JoinSplits(s: string, a: nat, b: nat, piece: seq<Statement>, rest: seq<Statement>)
    requires a <= b < |s| && CodeSemicolon(s, b)
    requires IsPiece(s, a, b, piece) && IsSplit(s, b + 1, rest)
    ensures IsSplit(s, a, piece + rest)
  {
    hide CodeSemicolon, IsSpace, IsStatement;
    var all := piece + rest;
    forall i, j | 0 <= i < j < |all|
      ensures Separated(s, all[i], all[j])
    {
      if i < |piece| {
        assert all[i].end <= b < all[j].start;
      } else {
        assert Separated(s, rest[i - |piece|], rest[j - |piece|]);
      }
    }
    forall k: nat | a <= k < |s| && !Covered(all, k)
      ensures IsSpace(s[k]) || CodeSemicolon(s, k)
    {
      if k < b {
        if piece != [] { assert !(all[0].start <= k < all[0].end); }
      } else if k > b {
        assert !Covered(rest, k) by {
          forall j | 0 <= j < |rest|
            ensures !(rest[j].start <= k < rest[j].end)
          {
            assert rest[j] == all[|piece| + j];
          }
        }
      }
    }
  }

  /** Nothing else meets that contract. */
  lemma {:induction false} OnlySplit(s: string, start: nat, i: nat, sts: seq<Statement>)
    requires start <= i <= |s|
    requires forall k :: start <= k < i ==> !CodeSemicolon(s, k)
    requires IsSplit(s, start, sts)
    ensures sts == SplitFrom(s, start, i)
    decreases |s| - i
  {
    hide CodeSemicolon, IsSplit, Piece;
    if i < |s| && !CodeSemicolon(s, i) {
      OnlySplit(s, start, i + 1, sts);
    } else {
      var own := FirstPiece(s, start, i, sts);
      if i < |s| {
        OnlySplit(s, i + 1, i + 1, sts[own..]);
        assert sts == sts[..own] + sts[own..];
      }
    }
  }

  /** A list that meets the contract starts with the piece up to the first code-level semicolon, or the end. */
  lemma FirstPiece(s: string, a: nat, b: nat, sts: seq<Statement>) returns (own: nat)
    requires a <= b <= |s|
    requires b < |s| ==> CodeSemicolon(s, b)
    requires forall k :: a <= k < b ==> !CodeSemicolon(s, k)
    requires IsSplit(s, a, sts)
    ensures own <= |sts|
    ensures sts[..own] == Piece(s, a, b)
    ensures b < |s| ==> IsSplit(s, b + 1, sts[own..])
    ensures b == |s| ==> own == |sts|
  {
    hide CodeSemicolon, IsSpace, IsSplit, IsPiece, Piece;
    own := if sts != [] && sts[0].start < b then 1 else 0;
    LaterStatements(s, a, b, sts, own);
    OwnPiece(s, a, b, sts, own);
    PieceIsPiece(s, a, b);
    PieceIsUnique(s, a, b, sts[..own], Piece(s, a, b));
    if b < |s| {
      RestIsSplit(s, a, b, sts, own);
    }
  }

  lemma LaterStatements(s: string, a: nat, b: nat, sts: seq<Statement>, own: nat)
    requires a <= b <= |s| && IsSplit(s, a, sts)
    requires b < |s| ==> CodeSemicolon(s, b)
    requires forall k :: a <= k < b ==> !CodeSemicolon(s, k)
    requires own == if sts != [] && sts[0].start < b then 1 else 0
    ensures own == 1 ==> sts[0].end <= b
    ensures forall j :: own <= j < |sts| ==> b < |s| && b < sts[j].start
    ensures b == |s| ==> own == |sts|
  {
    hide CodeSemicolon, IsSpace;
    if own == 1 { assert IsStatement(s, sts[0]); }
    forall j | own <= j < |sts|
      ensures b < |s| && b < sts[j].start
    {
      assert IsStatement(s, sts[j]);
      if j > 0 { assert Separated(s, sts[0], sts[j]); }
    }
    if own < |sts| { assert b < sts[own].start; }
  }

  lemma OwnPiece(s: string, a: nat, b: nat, sts: seq<Statement>, own: nat)
    requires a <= b <= |s| && IsSplit(s, a, sts)
    requires forall k :: a <= k < b ==> !CodeSemicolon(s, k)
    requires own <= |sts| && own <= 1
    requires own == 1 ==> sts[0].end <= b
    requires forall j :: own <= j < |sts| ==> b < sts[j].start
    ensures IsPiece(s, a, b, sts[..own])
  {
    hide CodeSemicolon, IsSpace, Separated;
    forall k: nat | a <= k < b && (own == 1 ==> k < sts[0].start || sts[0].end <= k)
      ensures IsSpace(s[k])
    {
      assert !Covered(sts, k);
    }
    if own == 1 { assert IsStatement(s, sts[0]); }
  }

  lemma RestIsSplit(s: string, a: nat, b: nat, sts: seq<Statement>, own: nat)
    requires a <= b < |s| && own <= |sts| && IsSplit(s, a, sts)
    requires forall j :: 0 <= j < own ==> sts[j].end <= b
    requires forall j :: own <= j < |sts| ==> b < sts[j].start
    ensures IsSplit(s, b + 1, sts[own..])
  {
    hide CodeSemicolon, IsSpace, IsStatement, Separated;
    forall k: nat | b + 1 <= k && Covered(sts, k)
      ensures Covered(sts[own..], k)
    {
      var j :| 0 <= j < |sts| && sts[j].start <= k < sts[j].end;
      assert sts[own..][j - own] == sts[j];
    }
  }

  /** The statement list is the one and only list that meets the editor's contract. */
  lemma SplitCharacterized(s: string, sts: seq<Statement>)
    ensures sts == Split(s) <==> IsSplit(s, 0, sts)
  {
    SplitIsSplit(s, 0, 0);
    if IsSplit(s, 0, sts) { OnlySplit(s, 0, 0, sts); }
  }

  // ----- Running a statement again -----

  lemma {:induction false} SpaceStaysInCode(s: string, a: nat, b: nat)
    requires a <= b <= |s| && StateAt(s, a) == Start && SpaceBetween(s, a, b)
    ensures StateAt(s, b) == Start
  {
    if a < b {
      SpaceStaysInCode(s, a, b - 1);
      assert IsSpace(s[b - 1]);
    }
  }

  lemma {:induction false} StatementsStartInCode(s: string, start: nat, i: nat)
    requires start <= i <= |s| && StateAt(s, start) == Start
    requires forall k :: start <= k < i ==> !CodeSemicolon(s, k)
    ensures forall st :: st in SplitFrom(s, start, i) ==> InCode(s, st.start)
    decreases |s| - i
  {
    hide IsSpace, Piece;
    if i < |s| && !CodeSemicolon(s, i) {
      StatementsStartInCode(s, start, i + 1);
    } else {
      var piece := Piece(s, start, i);
      PieceIsPiece(s, start, i);
      if piece != [] {
        assert IsStatement(s, piece[0]);
        SpaceStaysInCode(s, start, piece[0].start);
      }
      if i < |s| {
        StatementsStartInCode(s, i + 1, i + 1);
      }
    }
  }

  lemma AloneIsStatement(s: string, st: Statement)
    requires IsStatement(s, st) && InCode(s, st.start)
    ensures IsStatement(st.sql, Statement(st.sql, 0, |st.sql|))
  {
    hide StateAt, IsSpace;
    forall k: nat | k < |st.sql|
      ensures !CodeSemicolon(st.sql, k)
    {
      ScanSlice(s, st.start, st.end, k);
      assert !CodeSemicolon(s, st.start + k);
    }
  }

  lemma SplitYieldsStatements(s: string, st: Statement)
    requires st in Split(s)
    ensures IsStatement(s, st) && InCode(s, st.start)
  {
    hide IsSpace, CodeSemicolon, SplitFrom, Separated, Covered;
    ScanStarts(s);
    StatementsStartInCode(s, 0, 0);
    SplitIsSplit(s, 0, 0);
  }

  /** Each statement the editor runs is, on its own, exactly one statement. */
  lemma SplitAgain(s: string, st: Statement)
    requires st in Split(s)
    ensures Split(st.sql) == [Statement(st.sql, 0, |st.sql|)]
  {
    hide IsSpace, CodeSemicolon, SplitFrom, IsStatement, IsSplit;
    var whole := Statement(st.sql, 0, |st.sql|);
    SplitYieldsStatements(s, st);
    AloneIsStatement(s, st);
    assert IsPiece(st.sql, 0, |st.sql|, [whole]);
    PieceIsSplit(st.sql, 0, [whole]);
    OnlySplit(st.sql, 0, 0, [whole]);
  }

  lemma SplitIsOrdered(s: string)
    ensures var sts := Split(s);
            && (forall i :: 0 <= i < |sts| ==> sts[i].start < sts[i].end)
            && forall i, j :: 0 <= i < j < |sts| ==> sts[i].end < sts[j].start
  {
    hide CodeSemicolon, SplitFrom, IsSpace;
    SplitIsSplit(s, 0, 0);
    var sts := Split(s);
    forall i | 0 <= i < |sts|
      ensures sts[i].start < sts[i].end
    {
      assert IsStatement(s, sts[i]);
    }
    forall i, j | 0 <= i < j < |sts|
      ensures sts[i].end < sts[j].start
    {
      assert Separated(s, sts[i], sts[j]);
    }
  }

  predicate Touches(st: Statement, cursor: nat) {
    st.start <= cursor <= st.end
  }

  /** The one statement the cursor touches, else the nearest one before it, else the first. */
  method CurrentSqlStatement(sql: string, cursor: nat) returns (r: Option<Statement>)
    ensures r.None? <==> Split(sql) == []
    ensures r.Some? ==> r.value in Split(sql)
    ensures forall i :: 0 <= i < |Split(sql)| && Split(sql)[i].start <= cursor <= Split(sql)[i].end ==>
      r == Some(Split(sql)[i])
    ensures r.Some? && cursor < r.value.start ==> r.value == Split(sql)[0]
    ensures r.Some? && r.value.end <= cursor ==>
              forall i :: 0 <= i < |Split(sql)| && Split(sql)[i].end <= cursor ==> Split(sql)[i].end <= r.value.end
  {
    hide Split;
    var statements := SplitSqlStatements(sql);
    SplitIsOrdered(sql);
    if |statements| == 0 { return None; }
    var i := 0;
    while i < |statements|
      invariant i <= |statements|
      invariant forall j :: 0 <= j < i ==> !Touches(statements[j], cursor)
    {
      if Touches(statements[i], cursor) { return Some(statements[i]); }
      i := i + 1;
    }
    var index := |statements|;
    while index > 0
      invariant 0 <= index <= |statements|
      invariant forall j :: index <= j < |statements| ==> cursor < statements[j].end
    {
      index := index - 1;
      if statements[index].end <= cursor { return Some(statements[index]); }
    }
    return Some(statements[0]);
  }
}
