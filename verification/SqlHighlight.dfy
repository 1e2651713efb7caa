/** The highlighter: tokens and overlapping decorations printed as HTML, and what a browser reads back from it. */
module SqlHighlight {
  import opened Printing
  import opened Options
  import opened SqlText
  import opened SqlTokens

  datatype Style = Search | ActiveSearch | BracketMatched | BracketUnmatched

  /** A style for the stretch from `start` to `end`; nothing keeps the two in order or inside the text. */
  datatype Decoration = Decoration(start: int, end: int, style: Style)

  function StyleName(style: Style): string {
    match style
    case Search => "sql-token-search"
    case ActiveSearch => "sql-token-search sql-token-search-active"
    case BracketMatched => "sql-token-bracket-match"
    case BracketUnmatched => "sql-token-bracket-unmatched"
  }

  function ClassName(class_: TokenClass): string {
    match class_
    case Comment => "sql-token-comment"
    case Str => "sql-token-string"
    case Identifier => "sql-token-identifier"
    case Number => "sql-token-number"
    case Keyword => "sql-token-keyword"
    case Function => "sql-token-function"
    case Plain => ""
  }

  // ----- Escaping -----

  /** A global replace of one character. */
  function ReplaceChar(s: string, c: char, replacement: string): string {
    if s == [] then [] else (if s[0] == c then replacement else [s[0]]) + ReplaceChar(s[1..], c, replacement)
  }

  function EscapeHtml(value: string): string {
    ReplaceChar(ReplaceChar(ReplaceChar(ReplaceChar(ReplaceChar(value,
      '&', "&amp;"), '<', "&lt;"), '>', "&gt;"), '"', "&quot;"), '\'', "&#039;")
  }

  function Entity(c: char): string {
    match c
    case '&' => "&amp;"
    case '<' => "&lt;"
    case '>' => "&gt;"
    case '"' => "&quot;"
    case '\'' => "&#039;"
    case _ => [c]
  }

  lemma {:induction false} ReplaceAppends(s: string, t: string, c: char, replacement: string)
    ensures ReplaceChar(s + t, c, replacement) == ReplaceChar(s, c, replacement) + ReplaceChar(t, c, replacement)
  {
    if s == [] {
      assert s + t == t;
    } else {
      assert (s + t)[1..] == s[1..] + t;
      ReplaceAppends(s[1..], t, c, replacement);
    }
  }

  /** Five passes over the text do what one pass per character would: no pass rewrites an earlier one's output. */
  lemma {:induction false} EscapeByCharacter(c: char, s: string)
    ensures EscapeHtml([c] + s) == Entity(c) + EscapeHtml(s)
  {
    var s1 := ReplaceChar(s, '&', "&amp;");
    var s2 := ReplaceChar(s1, '<', "&lt;");
    var s3 := ReplaceChar(s2, '>', "&gt;");
    var s4 := ReplaceChar(s3, '"', "&quot;");
    var c1 := ReplaceChar([c], '&', "&amp;");
    var c2 := ReplaceChar(c1, '<', "&lt;");
    var c3 := ReplaceChar(c2, '>', "&gt;");
    var c4 := ReplaceChar(c3, '"', "&quot;");
    ReplaceAppends([c], s, '&', "&amp;");
    ReplaceAppends(c1, s1, '<', "&lt;");
    ReplaceAppends(c2, s2, '>', "&gt;");
    ReplaceAppends(c3, s3, '"', "&quot;");
    ReplaceAppends(c4, s4, '\'', "&#039;");
    EscapeOne(c);
  }

  lemma {:induction false} NothingToReplace(s: string, c: char, replacement: string)
    requires c !in s
    ensures ReplaceChar(s, c, replacement) == s
  {
    if s != [] { NothingToReplace(s[1..], c, replacement); }
  }

  lemma EscapeOne(c: char)
    ensures EscapeHtml([c]) == Entity(c)
  {
    hide ReplaceChar, Entity;
    EscapePass(c, '&');
    EscapePass(c, '<');
    EscapePass(c, '>');
    EscapePass(c, '"');
    EscapePass(c, '\'');
    EntityNames();
    if PassRank(c) == 5 { PlainEntity(c); }
  }

  lemma EntityNames()
    ensures Entity('&') == "&amp;" && Entity('<') == "&lt;" && Entity('>') == "&gt;"
    ensures Entity('"') == "&quot;" && Entity('\'') == "&#039;"
  {}

  lemma PlainEntity(c: char)
    requires PassRank(c) == 5
    ensures Entity(c) == [c]
  {}

  /** The order of the passes; 5 for a character none of them touches. */
  function PassRank(c: char): nat {
    match c
    case '&' => 0
    case '<' => 1
    case '>' => 2
    case '"' => 3
    case '\'' => 4
    case _ => 5
  }

  /** What the pass for `next` does to what the passes before it made of `c`. */
  lemma EscapePass(c: char, next: char)
    requires PassRank(next) < 5
    ensures ReplaceChar(if PassRank(c) < PassRank(next) then Entity(c) else [c], next, Entity(next))
         == if PassRank(c) <= PassRank(next) then Entity(c) else [c]
  {
    if c == next {
      assert ReplaceChar([c], next, Entity(next)) == Entity(next) + ReplaceChar([], next, Entity(next));
    } else if PassRank(c) < PassRank(next) {
      assert next !in Entity(c);
      NothingToReplace(Entity(c), next, Entity(next));
    } else {
      NothingToReplace([c], next, Entity(next));
    }
  }

  // ----- Printing -----

  predicate Meets(d: Decoration, from: int, to: int) {
    d.start < to && d.end > from
  }

  function StylesMeeting(decs: seq<Decoration>, from: int, to: int): seq<string> {
    if decs == [] then []
    else (if Meets(decs[0], from, to) then [StyleName(decs[0].style)] else []) + StylesMeeting(decs[1..], from, to)
  }

  /** The stretch of a token between two neighbouring points, in a span when any class applies. */
  function PieceHtml(token: string, start: nat, decs: seq<Decoration>, point: nat, next: nat): string
    requires point <= next <= |token|
  {
    var text := token[point..next];
    var tokenClass := ClassName(SqlTokenClass(token));
    var classes := (if tokenClass != "" then [tokenClass] else []) + StylesMeeting(decs, start + point, start + next);
    if text == "" then ""
    else if classes != [] then "<span class=\"" + Join(classes, ' ') + "\">" + EscapeHtml(text) + "</span>"
    else EscapeHtml(text)
  }

  /** A place where the token is cut: its ends, and the clipped ends of every decoration that meets it. */
  predicate IsPoint(length: nat, start: nat, decs: seq<Decoration>, p: nat) {
    || p == 0
    || p == length
    || exists d :: d in decs && Meets(d, start, start + length)
                   && (p == Max(0, d.start - start) || p == Min(length, d.end - start))
  }

  /** The points from `p` on, in order. */
  function Points(length: nat, start: nat, decs: seq<Decoration>, p: nat): seq<nat>
    decreases length + 1 - p
  {
    if p > length then []
    else (if IsPoint(length, start, decs, p) then [p] else []) + Points(length, start, decs, p + 1)
  }

  function PiecesHtml(token: string, start: nat, decs: seq<Decoration>, points: seq<nat>): string
    requires forall i :: 0 <= i < |points| ==> points[i] <= |token|
    requires forall i, j :: 0 <= i < j < |points| ==> points[i] <= points[j]
  {
    if |points| < 2 then ""
    else PieceHtml(token, start, decs, points[0], points[1]) + PiecesHtml(token, start, decs, points[1..])
  }

  lemma {:induction false} PointsAreOrdered(length: nat, start: nat, decs: seq<Decoration>, p: nat)
    ensures forall i :: 0 <= i < |Points(length, start, decs, p)| ==> p <= Points(length, start, decs, p)[i] <= length
    ensures forall i, j :: 0 <= i < j < |Points(length, start, decs, p)| ==>
                             Points(length, start, decs, p)[i] <= Points(length, start, decs, p)[j]
    decreases length + 1 - p
  {
    hide IsPoint;
    if p <= length { PointsAreOrdered(length, start, decs, p + 1); }
  }

  function DecoratedSqlTokenHtml(token: string, start: nat, decs: seq<Decoration>): string {
    PointsAreOrdered(|token|, start, decs, 0);
    PiecesHtml(token, start, decs, Points(|token|, start, decs, 0))
  }

  function HighlightFrom(s: string, i: nat, decs: seq<Decoration>): string
    requires i <= |s|
    decreases |s| - i
  {
    if i == |s| then ""
    else DecoratedSqlTokenHtml(s[i..TokenEnd(s, i)], i, decs) + HighlightFrom(s, TokenEnd(s, i), decs)
  }

  /** A newline at the very end gets a space after it. */
  function PadFinalNewline(html: string): string {
    if html != [] && html[|html| - 1] == '\n' then html + " " else html
  }

  method HighlightSql(sql: string, decorations: seq<Decoration>) returns (html: string)
    ensures html == PadFinalNewline(HighlightFrom(sql, 0, decorations))
  {
    hide TokenEnd, DecoratedSqlTokenHtml;
    html := "";
    var index := 0;
    while index < |sql|
      invariant index <= |sql|
      invariant html + HighlightFrom(sql, index, decorations) == HighlightFrom(sql, 0, decorations)
    {
      var end := TokenEnd(sql, index);
      var piece := DecoratedSqlTokenHtml(sql[index..end], index, decorations);
      assert html + (piece + HighlightFrom(sql, end, decorations)) ==
        html + piece + HighlightFrom(sql, end, decorations);
      html := html + piece;
      index := end;
    }
    html := PadFinalNewline(html);
  }

  // ----- Reading back -----

  /** A character with the class attribute of the span around it, empty when there is none. */
  datatype Painted = Painted(ch: char, classes: string)

  predicate StartsWith(h: string, prefix: string) {
    prefix <= h
  }

  /** The character an entity at the front stands for, and the entity's length. */
  function EntityAt(h: string): (r: Option<(char, nat)>)
    ensures r.Some? ==> 1 < r.value.1 <= |h|
  {
    if "&amp;" <= h then Some(('&', 5))
    else if "&lt;" <= h then Some(('<', 4))
    else if "&gt;" <= h then Some(('>', 4))
    else if "&quot;" <= h then Some(('"', 6))
    else if "&#039;" <= h then Some(('\'', 6))
    else None
  }

  function QuoteIndex(h: string, i: nat): (n: nat)
    requires i <= |h|
    ensures i <= n <= |h|
    decreases |h| - i
  {
    if i < |h| && h[i] != '"' then QuoteIndex(h, i + 1) else i
  }

  const OPEN_SPAN := "<span class=\""
  const CLOSE_SPAN := "</span>"

  /** A small HTML reader: spans set the class of what they enclose, entities stand for characters. */
  function ReadHtml(h: string, classes: string): seq<Painted>
    decreases |h|
  {
    if h == [] then []
    else if CLOSE_SPAN <= h then ReadHtml(h[|CLOSE_SPAN|..], "")
    else if OPEN_SPAN <= h then
      var n := QuoteIndex(h, |OPEN_SPAN|);
      if n + 1 < |h| then ReadHtml(h[n + 2..], h[|OPEN_SPAN|..n]) else []
    else match EntityAt(h)
      case Some((c, length)) => [Painted(c, classes)] + ReadHtml(h[length..], classes)
      case None => [Painted(h[0], classes)] + ReadHtml(h[1..], classes)
  }

  function Paint(text: string, classes: string): seq<Painted> {
    seq(|text|, k requires 0 <= k < |text| => Painted(text[k], classes))
  }

  lemma ReadEntity(c: char, rest: string, classes: string)
    ensures ReadHtml(Entity(c) + rest, classes) == [Painted(c, classes)] + ReadHtml(rest, classes)
  {
    var e := Entity(c);
    var h := e + rest;
    assert h[|e|..] == rest;
    assert e[0] != '<' && h[0] == e[0];
    EntityIsRead(c, rest);
  }

  lemma EntityIsRead(c: char, rest: string)
    ensures EntityAt(Entity(c) + rest) == if PassRank(c) < 5 then Some((c, |Entity(c)|)) else None
  {
    var e := Entity(c);
    var h := e + rest;
    assert h[0] == e[0];
    if h[0] == '&' { assert e <= h && h[1] == e[1] && h[2] == e[2]; }
  }

  lemma {:induction false} ReadText(text: string, rest: string, classes: string)
    ensures ReadHtml(EscapeHtml(text) + rest, classes) == Paint(text, classes) + ReadHtml(rest, classes)
  {
    hide ReadHtml, EscapeHtml, Entity;
    if text == [] {
      EscapeEmpty();
      assert EscapeHtml(text) + rest == rest;
      assert Paint(text, classes) + ReadHtml(rest, classes) == ReadHtml(rest, classes);
    } else {
      var tail := EscapeHtml(text[1..]);
      EscapeByCharacter(text[0], text[1..]);
      assert [text[0]] + text[1..] == text;
      assert EscapeHtml(text) + rest == Entity(text[0]) + (tail + rest);
      ReadEntity(text[0], tail + rest, classes);
      ReadText(text[1..], rest, classes);
      assert Paint(text, classes) == [Painted(text[0], classes)] + Paint(text[1..], classes);
    }
  }

  lemma EscapeEmpty()
    ensures EscapeHtml("") == ""
  {}

  lemma {:induction false} QuoteIndexAt(h: string, i: nat, n: nat)
    requires i <= n < |h| && h[n] == '"'
    requires forall k :: i <= k < n ==> h[k] != '"'
    ensures QuoteIndex(h, i) == n
    decreases n - i
  {
    if i < n { QuoteIndexAt(h, i + 1, n); }
  }

  lemma ReadSpan(attribute: string, body: string)
    requires '"' !in attribute
    ensures ReadHtml(OPEN_SPAN + attribute + "\">" + body, "") == ReadHtml(body, attribute)
  {
    var h := OPEN_SPAN + attribute + "\">" + body;
    var n := |OPEN_SPAN| + |attribute|;
    assert OPEN_SPAN <= h;
    assert h[0] == '<' && h[1] == 's';
    assert h[n] == '"' && h[|OPEN_SPAN|..n] == attribute && h[n + 2..] == body;
    forall k | |OPEN_SPAN| <= k < n
      ensures h[k] != '"'
    {
      assert h[k] == attribute[k - |OPEN_SPAN|];
    }
    QuoteIndexAt(h, |OPEN_SPAN|, n);
  }

  lemma ReadClose(rest: string, classes: string)
    ensures ReadHtml(CLOSE_SPAN + rest, classes) == ReadHtml(rest, "")
  {
    assert (CLOSE_SPAN + rest)[|CLOSE_SPAN|..] == rest;
  }

  lemma StyleHoldsNoQuote(style: Style)
    ensures '"' !in StyleName(style)
  {}

  lemma ClassHoldsNoQuote(class_: TokenClass)
    ensures '"' !in ClassName(class_)
  {}

  lemma {:induction false} JoinHoldsNoQuote(parts: seq<string>)
    requires forall part :: part in parts ==> '"' !in part
    ensures '"' !in Join(parts, ' ')
  {
    if |parts| > 1 { JoinHoldsNoQuote(parts[1..]); }
  }

  lemma {:induction false} StylesHoldNoQuote(decs: seq<Decoration>, from: int, to: int)
    ensures forall part :: part in StylesMeeting(decs, from, to) ==> '"' !in part
  {
    hide StyleName;
    if decs != [] { StyleHoldsNoQuote(decs[0].style); StylesHoldNoQuote(decs[1..], from, to); }
  }

  // ----- What each character carries -----

  function StylesCovering(decs: seq<Decoration>, k: int): seq<string> {
    if decs == [] then []
    else (if decs[0].start <= k < decs[0].end then [StyleName(decs[0].style)] else []) + StylesCovering(decs[1..], k)
  }

  /** The classes of the character at `k`, inside a token: the token's own, then every decoration over it, in order. */
  function ClassesAt(token: string, decs: seq<Decoration>, k: int): string {
    var tokenClass := ClassName(SqlTokenClass(token));
    Join((if tokenClass != "" then [tokenClass] else []) + StylesCovering(decs, k), ' ')
  }

  function PaintToken(token: string, start: nat, decs: seq<Decoration>, p: nat): seq<Painted>
    requires p <= |token|
  {
    seq(|token| - p, k requires 0 <= k < |token| - p => Painted(token[p + k], ClassesAt(token, decs, start + p + k)))
  }

  /** The specification: every character of the text once, with the classes of its token and its decorations. */
  function PaintFrom(s: string, i: nat, decs: seq<Decoration>): seq<Painted>
    requires i <= |s|
    decreases |s| - i
  {
    if i == |s| then []
    else PaintToken(s[i..TokenEnd(s, i)], i, decs, 0) + PaintFrom(s, TokenEnd(s, i), decs)
  }

  /** No decoration that meets the token starts or ends strictly inside the piece. */
  ghost predicate Uncut(length: nat, start: nat, decs: seq<Decoration>, point: nat, next: nat) {
    forall p: nat :: point < p < next ==> !IsPoint(length, start, decs, p)
  }

  lemma {:induction false} MeetingIsCovering(length: nat, start: nat, decs: seq<Decoration>, rest: seq<Decoration>,
                                             point: nat, next: nat, k: int)
    requires point < next <= length && Uncut(length, start, decs, point, next)
    requires start + point <= k < start + next
    requires forall d :: d in rest ==> d in decs
    ensures StylesMeeting(rest, start + point, start + next) == StylesCovering(rest, k)
    decreases rest
  {
    hide StyleName;
    if rest != [] {
      var d := rest[0];
      MeetingIsCovering(length, start, decs, rest[1..], point, next, k);
      if Meets(d, start + point, start + next) {
        assert Meets(d, start, start + length);
        assert IsPoint(length, start, decs, Max(0, d.start - start));
        assert IsPoint(length, start, decs, Min(length, d.end - start));
      }
    }
  }

  lemma ReadPiece(token: string, start: nat, decs: seq<Decoration>, point: nat, next: nat, rest: string)
    requires point < next <= |token| && Uncut(|token|, start, decs, point, next)
    ensures ReadHtml(PieceHtml(token, start, decs, point, next) + rest, "")
         == PaintToken(token, start, decs, point)[..next - point] + ReadHtml(rest, "")
  {
    hide ReadHtml, EscapeHtml, StyleName, ClassName, IsPoint,
      StylesMeeting, StylesCovering, SqlTokenClass, Join, PaintToken, Paint;
    var text := token[point..next];
    var tokenClass := ClassName(SqlTokenClass(token));
    var classes := (if tokenClass != "" then [tokenClass] else []) + StylesMeeting(decs, start + point, start + next);
    var attribute := Join(classes, ' ');
    forall k: int | start + point <= k < start + next
      ensures ClassesAt(token, decs, k) == attribute
    {
      MeetingIsCovering(|token|, start, decs, decs, point, next, k);
    }
    PaintPiece(token, start, decs, point, next, attribute);
    if classes != [] {
      ClassHoldsNoQuote(SqlTokenClass(token));
      StylesHoldNoQuote(decs, start + point, start + next);
      JoinHoldsNoQuote(classes);
      ReadSpanned(text, attribute, rest);
    } else {
      JoinNothing(classes);
      ReadText(text, rest, "");
    }
  }

  lemma ReadSpanned(text: string, attribute: string, rest: string)
    requires '"' !in attribute
    ensures ReadHtml(OPEN_SPAN + attribute + "\">" + EscapeHtml(text) + CLOSE_SPAN + rest, "")
         == Paint(text, attribute) + ReadHtml(rest, "")
  {
    hide ReadHtml, EscapeHtml;
    var body := EscapeHtml(text) + (CLOSE_SPAN + rest);
    assert OPEN_SPAN + attribute + "\">" + EscapeHtml(text) + CLOSE_SPAN + rest == OPEN_SPAN + attribute + "\">" + body;
    ReadSpan(attribute, body);
    ReadText(text, CLOSE_SPAN + rest, attribute);
    ReadClose(rest, attribute);
  }

  lemma PaintPiece(token: string, start: nat, decs: seq<Decoration>, point: nat, next: nat, attribute: string)
    requires point <= next <= |token|
    requires forall k: int :: start + point <= k < start + next ==> ClassesAt(token, decs, k) == attribute
    ensures PaintToken(token, start, decs, point)[..next - point] == Paint(token[point..next], attribute)
  {
    hide ClassesAt;
  }

  lemma JoinNothing(parts: seq<string>)
    requires parts == []
    ensures Join(parts, ' ') == ""
  {}

  /** The pieces from the point `p` on, when the next point is not before `k`. */
  function PiecesFrom(token: string, start: nat, decs: seq<Decoration>, p: nat, k: nat): string
    requires p < k <= |token|
  {
    PointsAreOrdered(|token|, start, decs, k);
    PiecesHtml(token, start, decs, [p] + Points(|token|, start, decs, k))
  }

  lemma PiecesStep(token: string, start: nat, decs: seq<Decoration>, p: nat, k: nat)
    requires p < k <= |token|
    ensures k < |token| && !IsPoint(|token|, start, decs, k) ==>
              PiecesFrom(token, start, decs, p, k) == PiecesFrom(token, start, decs, p, k + 1)
    ensures k < |token| && IsPoint(|token|, start, decs, k) ==>
              PiecesFrom(token, start, decs, p, k) ==
                PieceHtml(token, start, decs, p, k) + PiecesFrom(token, start, decs, k, k + 1)
    ensures k == |token| ==> PiecesFrom(token, start, decs, p, k) == PieceHtml(token, start, decs, p, k)
  {
    hide PieceHtml, IsPoint;
    var n := |token|;
    var points := [p] + Points(n, start, decs, k);
    if k == n {
      LastPoint(n, start, decs);
      assert points == [p, k];
      assert points[1..] == [k];
      assert PiecesHtml(token, start, decs, [k]) == "";
    } else if IsPoint(n, start, decs, k) {
      assert points[0] == p && points[1] == k && points[1..] == [k] + Points(n, start, decs, k + 1);
    } else {
      assert Points(n, start, decs, k) == Points(n, start, decs, k + 1);
    }
  }

  lemma LastPoint(length: nat, start: nat, decs: seq<Decoration>)
    ensures Points(length, start, decs, length) == [length]
  {
    assert IsPoint(length, start, decs, length);
    assert Points(length, start, decs, length + 1) == [];
  }

  lemma {:induction false} ReadPieces(token: string, start: nat, decs: seq<Decoration>, p: nat, k: nat, rest: string)
    requires p < k <= |token| && Uncut(|token|, start, decs, p, k)
    ensures ReadHtml(PiecesFrom(token, start, decs, p, k) + rest, "") ==
      PaintToken(token, start, decs, p) + ReadHtml(rest, "")
    decreases |token| - k
  {
    hide ReadHtml, PieceHtml, ClassesAt, IsPoint, PiecesFrom;
    PiecesStep(token, start, decs, p, k);
    var piece := PieceHtml(token, start, decs, p, k);
    if k == |token| {
      ReadPiece(token, start, decs, p, k, rest);
      assert PaintToken(token, start, decs, p)[..k - p] == PaintToken(token, start, decs, p);
    } else if IsPoint(|token|, start, decs, k) {
      var others := PiecesFrom(token, start, decs, k, k + 1);
      assert piece + others + rest == piece + (others + rest);
      ReadPiece(token, start, decs, p, k, others + rest);
      ReadPieces(token, start, decs, k, k + 1, rest);
      assert PaintToken(token, start, decs, p) ==
        PaintToken(token, start, decs, p)[..k - p] + PaintToken(token, start, decs, k);
    } else {
      ReadPieces(token, start, decs, p, k + 1, rest);
    }
  }

  lemma ReadToken(token: string, start: nat, decs: seq<Decoration>, rest: string)
    requires token != ""
    ensures ReadHtml(DecoratedSqlTokenHtml(token, start, decs) + rest, "")
         == PaintToken(token, start, decs, 0) + ReadHtml(rest, "")
  {
    hide ReadHtml, PaintToken, PiecesHtml;
    ReadPieces(token, start, decs, 0, 1, rest);
    assert IsPoint(|token|, start, decs, 0);
    assert Points(|token|, start, decs, 0) == [0] + Points(|token|, start, decs, 1);
  }

  lemma {:induction false} ReadHighlight(s: string, i: nat, decs: seq<Decoration>, rest: string)
    requires i <= |s|
    ensures ReadHtml(HighlightFrom(s, i, decs) + rest, "") == PaintFrom(s, i, decs) + ReadHtml(rest, "")
    decreases |s| - i
  {
    hide ReadHtml, PaintToken, DecoratedSqlTokenHtml, TokenEnd;
    if i == |s| {
      assert HighlightFrom(s, i, decs) + rest == rest;
    } else {
      var e := TokenEnd(s, i);
      var token, others := s[i..e], HighlightFrom(s, e, decs);
      assert HighlightFrom(s, i, decs) + rest == DecoratedSqlTokenHtml(token, i, decs) + (others + rest);
      ReadToken(token, i, decs, others + rest);
      ReadHighlight(s, e, decs, rest);
    }
  }

  /** What the browser shows: every character of the text, with its classes, and at most one padding space. */
  lemma HighlightingIsLossless(s: string, decs: seq<Decoration>)
    ensures var html := HighlightFrom(s, 0, decs);
            ReadHtml(PadFinalNewline(html), "") ==
            PaintFrom(s, 0, decs) + (if html != [] && html[|html| - 1] == '\n' then [Painted(' ', "")] else [])
  {
    hide ReadHtml, PaintFrom, HighlightFrom;
    var html := HighlightFrom(s, 0, decs);
    ReadHighlight(s, 0, decs, "");
    ReadHighlight(s, 0, decs, " ");
    ReadRest();
    assert html + "" == html;
  }

  lemma ReadRest()
    ensures ReadHtml("", "") == []
    ensures ReadHtml(" ", "") == [Painted(' ', "")]
  {
    assert EntityAt(" ") == None;
    assert " "[1..] == "";
    assert ReadHtml("", "") == [];
  }

  /** The token over the character at `k`. */
  function TokenOver(s: string, i: nat, k: nat): (sp: Span)
    requires i <= k < |s|
    ensures sp.start <= k < sp.end <= |s| && sp in Tokens(s, i)
    decreases |s| - i
  {
    if k < TokenEnd(s, i) then Span(i, TokenEnd(s, i)) else TokenOver(s, TokenEnd(s, i), k)
  }

  /** Character by character: itself, with the class of its own token and of every decoration whose range covers it. */
  lemma {:induction false} PaintedCharacter(s: string, i: nat, decs: seq<Decoration>, k: nat)
    requires i <= k < |s|
    ensures |PaintFrom(s, i, decs)| == |s| - i
    ensures PaintFrom(s, i, decs)[k - i] == Painted(s[k], ClassesAt(Text(s, TokenOver(s, i, k)), decs, k))
    decreases |s| - i
  {
    hide TokenEnd, ClassesAt, PaintToken;
    var e := TokenEnd(s, i);
    var token, rest := PaintToken(s[i..e], i, decs, 0), PaintFrom(s, e, decs);
    PaintedLength(s, i, decs);
    PaintedLength(s, e, decs);
    if e <= k {
      PaintedCharacter(s, e, decs, k);
      assert (token + rest)[k - i] == rest[k - e];
    } else {
      PaintedInToken(s, i, e, decs, k);
      assert (token + rest)[k - i] == token[k - i];
    }
  }

  lemma PaintedInToken(s: string, i: nat, e: nat, decs: seq<Decoration>, k: nat)
    requires i <= k < e <= |s|
    ensures |PaintToken(s[i..e], i, decs, 0)| == e - i
    ensures PaintToken(s[i..e], i, decs, 0)[k - i] == Painted(s[k], ClassesAt(s[i..e], decs, k))
  {
    hide ClassesAt;
  }

  lemma {:induction false} PaintedLength(s: string, i: nat, decs: seq<Decoration>)
    requires i <= |s|
    ensures |PaintFrom(s, i, decs)| == |s| - i
    decreases |s| - i
  {
    hide TokenEnd, ClassesAt;
    if i < |s| { PaintedLength(s, TokenEnd(s, i), decs); }
  }

  // ----- The classes by name -----

  /** Without decorations a character has the class of its token's kind, and none in any other token. */
  lemma OwnClass(token: string, k: int)
    ensures "--" <= token || "/*" <= token ==> ClassesAt(token, [], k) == "sql-token-comment"
    ensures "\'" <= token ==> ClassesAt(token, [], k) == "sql-token-string"
    ensures "\"" <= token ==> ClassesAt(token, [], k) == "sql-token-identifier"
    ensures token != "" && token[0] in "0123456789" ==> ClassesAt(token, [], k) == "sql-token-number"
    ensures token != "" && IsLetter(token[0]) && Lower(token) in SQL_KEYWORDS ==>
      ClassesAt(token, [], k) == "sql-token-keyword"
    ensures token != "" && IsLetter(token[0]) && Lower(token) in SQL_FUNCTIONS && Lower(token) !in SQL_KEYWORDS ==>
      ClassesAt(token, [], k) == "sql-token-function"
    ensures SqlTokenClass(token) == Plain ==> ClassesAt(token, [], k) == ""
  {
    hide SQL_KEYWORDS, SQL_FUNCTIONS, Lower, SqlTokenClass;
    TokenClassIs(token);
    JoinOfOne(ClassName(SqlTokenClass(token)));
  }

  lemma JoinOfOne(name: string)
    ensures Join([name] + [], ' ') == name && Join([], ' ') == ""
  {
    assert [name] + [] == [name];
  }

  /** A token is cut at its ends, and inside where a decoration that meets it begins or ends, and nowhere else. */
  lemma {:induction false} CutsAre(length: nat, start: nat, decs: seq<Decoration>, from: nat, p: nat)
    ensures p in Points(length, start, decs, from) <==>
      && from <= p <= length
      && (p in {0, length} || exists d :: d in decs && Cuts(d, length, start, p))
    decreases length + 1 - from
  {
    hide Meets;
    if from <= length { CutsAre(length, start, decs, from + 1, p); }
    if 0 < p < length { CutIsPoint(length, start, decs, p); }
  }

  /** The decoration meets the token and has an end at this place in it. */
  predicate Cuts(d: Decoration, length: nat, start: nat, p: nat) {
    d.start < start + length && start < d.end && (d.start == start + p || d.end == start + p)
  }

  lemma CutIsPoint(length: nat, start: nat, decs: seq<Decoration>, p: nat)
    requires 0 < p < length
    ensures IsPoint(length, start, decs, p) <==> exists d :: d in decs && Cuts(d, length, start, p)
  {}

  /** A decoration adds its class behind those of the token and of the decorations before it, inside its range. */
  lemma {:induction false} DecorationsAdd(token: string, decs: seq<Decoration>, d: Decoration, k: int)
    ensures StylesCovering(decs + [d], k) == StylesCovering(decs, k) +
      if d.start <= k < d.end then [match d.style
        case Search => "sql-token-search"
        case ActiveSearch => "sql-token-search sql-token-search-active"
        case BracketMatched => "sql-token-bracket-match"
        case BracketUnmatched => "sql-token-bracket-unmatched"]
      else []
  {
    if decs == [] {
      assert [] + [d] == [d] && [d][1..] == [];
    } else {
      assert (decs + [d])[1..] == decs[1..] + [d];
      DecorationsAdd(token, decs[1..], d, k);
    }
  }

  /** In the list of tokens, wherever a character stands, it is painted by the token it stands in. */
  lemma {:induction false} PaintedByToken(s: string, i: nat, spans: seq<Span>, decs: seq<Decoration>, n: nat, k: nat)
    requires i <= |s| && IsTokenList(s, i, spans) && n < |spans| && i <= k && spans[n].start <= k < spans[n].end
    ensures spans[n].end <= |s| && |PaintFrom(s, i, decs)| == |s| - i
    ensures PaintFrom(s, i, decs)[k - i] == Painted(s[k], ClassesAt(s[spans[n].start..spans[n].end], decs, k))
    decreases |spans|
  {
    hide ClassesAt, IsToken, PaintFrom, TokenEnd;
    TokensCharacterized(s, i, spans);
    TokensStartLater(s, i);
    assert spans[n] in spans;
    PaintedCharacter(s, i, decs, k);
    TokenOverIs(s, i, spans, n, k);
  }

  lemma {:induction false} TokenOverIs(s: string, i: nat, spans: seq<Span>, n: nat, k: nat)
    requires i <= |s| && spans == Tokens(s, i) && n < |spans| && i <= k < |s| && spans[n].start <= k < spans[n].end
    ensures TokenOver(s, i, k) == spans[n]
    decreases |spans|
  {
    hide TokenEnd;
    var e := TokenEnd(s, i);
    TokensStartLater(s, e);
    if n > 0 {
      assert spans[n] in Tokens(s, e);
      TokenOverIs(s, e, spans[1..], n - 1, k);
    }
  }
}
