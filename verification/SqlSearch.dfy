/** Search and replace in the editor, whatever the case fold does to the length of a text. */
module SqlSearch {
  import opened Printing
  import opened Options
  import opened SqlText
  import opened SqlTokens

  predicate OccursAt(haystack: string, needle: string, k: nat) {
    k + |needle| <= |haystack| && haystack[k..k + |needle|] == needle
  }

  function IndexOf(haystack: string, needle: string, i: nat): (r: Option<nat>)
    ensures r.Some? ==> i <= r.value && OccursAt(haystack, needle, r.value)
    ensures r.Some? ==> forall k :: i <= k < r.value ==> !OccursAt(haystack, needle, k)
    ensures r.None? ==> forall k :: i <= k ==> !OccursAt(haystack, needle, k)
    decreases |haystack| - i
  {
    if i + |needle| > |haystack| then None
    else if OccursAt(haystack, needle, i) then Some(i)
    else IndexOf(haystack, needle, i + 1)
  }

  /** The matches from `i` on: each is found in the folded text, and has the size of the query before folding. */
  function MatchesFrom(haystack: string, needle: string, size: nat, i: nat): seq<Span>
    requires needle != "" && size > 0
    decreases |haystack| - i
  {
    match IndexOf(haystack, needle, i)
    case None => []
    case Some(k) => [Span(k, k + size)] + MatchesFrom(haystack, needle, size, k + size)
  }

  method FindSqlSearchMatches(fold: string -> string, sql: string, query: string) returns (matches: seq<Span>)
    requires query != "" ==> fold(query) != ""
    ensures matches == if query == "" then [] else MatchesFrom(fold(sql), fold(query), |query|, 0)
  {
    hide IndexOf, MatchesFrom;
    if query == "" { return []; }
    matches := [];
    var haystack, needle := fold(sql), fold(query);
    var index := IndexOf(haystack, needle, 0);
    ghost var from := 0;
    while index.Some?
      invariant index == IndexOf(haystack, needle, from)
      invariant matches + MatchesFrom(haystack, needle, |query|, from) == MatchesFrom(haystack, needle, |query|, 0)
      decreases |haystack| - from
    {
      var found := Span(index.value, index.value + |query|);
      NextMatch(haystack, needle, |query|, from);
      ConcatAssociates(matches, [found], MatchesFrom(haystack, needle, |query|, found.end));
      matches := matches + [found];
      from := index.value + |query|;
      index := IndexOf(haystack, needle, index.value + Max(1, |query|));
    }
    NextMatch(haystack, needle, |query|, from);
  }

  lemma NextMatch(haystack: string, needle: string, size: nat, i: nat)
    requires needle != "" && size > 0
    ensures MatchesFrom(haystack, needle, size, i) ==
      match IndexOf(haystack, needle, i)
      case None => []
      case Some(k) => [Span(k, k + size)] + MatchesFrom(haystack, needle, size, k + size)
  {
    hide IndexOf;
  }

  /** In order, without overlap, between `i` and `length`. */
  ghost predicate Ordered(matches: seq<Span>, i: nat, length: nat) {
    if matches == [] then i <= length
    else i <= matches[0].start <= matches[0].end <= length && Ordered(matches[1..], matches[0].end, length)
  }

  ghost predicate Covers(matches: seq<Span>, k: nat) {
    matches != [] && (matches[0].start <= k < matches[0].end || Covers(matches[1..], k))
  }

  /** Within the text when folding lengthens the text by no more than the query. */
  lemma {:induction false} MatchesAreOrdered(haystack: string, needle: string, size: nat, i: nat, length: nat)
    requires needle != "" && size > 0 && i <= length && |haystack| - |needle| <= length - size
    ensures Ordered(MatchesFrom(haystack, needle, size, i), i, length)
    decreases |haystack| - i
  {
    var index := IndexOf(haystack, needle, i);
    if index.Some? { MatchesAreOrdered(haystack, needle, size, index.value + size, length); }
  }

  lemma {:induction false} MatchesOccur(haystack: string, needle: string, size: nat, i: nat, sp: Span)
    requires needle != "" && size > 0 && sp in MatchesFrom(haystack, needle, size, i)
    ensures sp.end == sp.start + size && OccursAt(haystack, needle, sp.start)
    decreases |haystack| - i
  {
    hide OccursAt;
    var index := IndexOf(haystack, needle, i);
    if sp != Span(index.value, index.value + size) {
      MatchesOccur(haystack, needle, size, index.value + size, sp);
    }
  }

  /** Leftmost first, and none is missed: every occurrence begins inside a match, so none fits in a gap. */
  lemma {:induction false} MatchesAreGreedy(haystack: string, needle: string, size: nat, i: nat, k: nat)
    requires needle != "" && size > 0 && i <= k && OccursAt(haystack, needle, k)
    ensures Covers(MatchesFrom(haystack, needle, size, i), k)
    decreases |haystack| - i
  {
    hide OccursAt;
    var index := IndexOf(haystack, needle, i);
    var all, rest := MatchesFrom(haystack, needle, size, i), MatchesFrom(haystack, needle, size, index.value + size);
    assert all[1..] == rest;
    if index.value + size <= k {
      MatchesAreGreedy(haystack, needle, size, index.value + size, k);
    }
  }

  /** The fold of a text character by character, each kept in its place. */
  function InPlace(fold: char -> char, s: string): (r: string)
    ensures |r| == |s|
    ensures forall k :: 0 <= k < |s| ==> r[k] == fold(s[k])
  {
    seq(|s|, k requires 0 <= k < |s| => fold(s[k]))
  }

  /** Under such a fold what stands at a match is the query, up to case. */
  lemma MatchedTextIsQuery(fold: char -> char, sql: string, query: string, sp: Span)
    requires query != "" && sp in MatchesFrom(InPlace(fold, sql), InPlace(fold, query), |query|, 0)
    ensures sp.start <= sp.end <= |sql| && InPlace(fold, sql[sp.start..sp.end]) == InPlace(fold, query)
  {
    var haystack, needle := InPlace(fold, sql), InPlace(fold, query);
    hide MatchesFrom, InPlace;
    MatchesOccur(haystack, needle, |query|, 0, sp);
    InPlaceSlice(fold, sql, sp.start, sp.end);
  }

  lemma InPlaceSlice(fold: char -> char, s: string, a: nat, b: nat)
    requires a <= b <= |s|
    ensures InPlace(fold, s[a..b]) == InPlace(fold, s)[a..b]
  {
    hide InPlace;
    assert forall k :: 0 <= k < b - a ==> InPlace(fold, s[a..b])[k] == fold(s[a..b][k]) == InPlace(fold, s)[a + k];
  }

  /** The one letter whose lower case is longer: a dotted capital I folds to an i and a combining dot. */
  function DottedFold(s: string): string {
    if s == "" then "" else (if s[0] == '\U{130}' then "i\U{307}" else [s[0]]) + DottedFold(s[1..])
  }

  /** It moves the matches behind it, here out of the text. */
  lemma MatchesCanLeaveTheText()
    ensures !Ordered(MatchesFrom(DottedFold("\U{130}a"), DottedFold("a"), |"a"|, 0), 0, |"\U{130}a"|)
  {
    var haystack := "i\U{307}a";
    assert "\U{130}a"[1..] == "a" && "a"[1..] == "";
    assert DottedFold("a") == "a" + "" && DottedFold("\U{130}a") == "i\U{307}" + "a" == haystack;
    assert haystack[0..1] == "i" && haystack[1..2] == "\U{307}" && haystack[2..3] == "a";
    assert IndexOf(haystack, "a", 2) == Some(2);
    assert IndexOf(haystack, "a", 1) == Some(2);
    assert MatchesFrom(haystack, "a", 1, 0)[0] == Span(2, 3);
  }

  // ----- Replacing -----

  /** All matches replaced at once: the gaps of the text with the replacement between them. */
  function Substitute(text: string, matches: seq<Span>, replacement: string, at: nat): string
    requires Ordered(matches, at, |text|)
  {
    if matches == [] then text[at..]
    else text[at..matches[0].start] + replacement + Substitute(text, matches[1..], replacement, matches[0].end)
  }

  ghost function EndBefore(matches: seq<Span>, j: nat): nat
    requires j <= |matches|
  {
    if j == 0 then 0 else matches[j - 1].end
  }

  lemma {:induction false} OrderedSuffix(matches: seq<Span>, i: nat, length: nat, j: nat)
    requires Ordered(matches, i, length) && j <= |matches|
    ensures Ordered(matches[j..], if j == 0 then i else matches[j - 1].end, length)
  {
    if j == 0 {
      assert matches[0..] == matches;
    } else {
      OrderedSuffix(matches[1..], matches[0].end, length, j - 1);
      assert matches[1..][j - 1..] == matches[j..];
    }
  }

  lemma SubstituteStep(text: string, matches: seq<Span>, replacement: string, j: nat)
    requires j < |matches|
    requires Ordered(matches[j..], EndBefore(matches, j), |text|)
    ensures var m, at := matches[j], EndBefore(matches, j);
            && at <= m.start <= m.end <= |text|
            && Ordered(matches[j + 1..], m.end, |text|)
            && Substitute(text, matches[j..], replacement, at)
            == text[at..m.start] + replacement + Substitute(text, matches[j + 1..], replacement, m.end)
  {
    assert matches[j..][1..] == matches[j + 1..];
  }

  /** The edits run from the last match to the first, so no edit moves a match still to come. */
  method ReplaceAllSqlMatches(text: string, matches: seq<Span>, replacement: string) returns (nextValue: string)
    requires Ordered(matches, 0, |text|)
    ensures nextValue == Substitute(text, matches, replacement, 0)
  {
    hide Substitute, Ordered;
    nextValue := text;
    var j := |matches|;
    OrderedSuffix(matches, 0, |text|, j);
    NothingToSubstitute(text, matches[j..], replacement, EndBefore(matches, j));
    while j > 0
      invariant 0 <= j <= |matches|
      invariant EndBefore(matches, j) <= |text|
      invariant Ordered(matches[j..], EndBefore(matches, j), |text|)
      invariant nextValue == text[..EndBefore(matches, j)] +
        Substitute(text, matches[j..], replacement, EndBefore(matches, j))
    {
      j := j - 1;
      var m := matches[j];
      ghost var tail := Substitute(text, matches[j + 1..], replacement, m.end);
      OrderedSuffix(matches, 0, |text|, j);
      SubstituteStep(text, matches, replacement, j);
      EditStep(text, nextValue, replacement, tail, EndBefore(matches, j), m.start, m.end);
      nextValue := nextValue[..m.start] + replacement + nextValue[m.end..];
    }
    assert matches[0..] == matches;
  }

  lemma NothingToSubstitute(text: string, matches: seq<Span>, replacement: string, at: nat)
    requires matches == [] && Ordered(matches, at, |text|)
    ensures text[..at] + Substitute(text, matches, replacement, at) == text
  {}

  lemma EditStep(text: string, value: string, replacement: string, tail: string, at: nat, start: nat, end: nat)
    requires at <= start <= end <= |text|
    requires value == text[..end] + tail
    ensures value[..start] + replacement + value[end..] == text[..at] + (text[at..start] + replacement + tail)
  {
    assert value[end..] == tail;
    assert value[..start] == text[..at] + text[at..start];
  }

  lemma {:induction false} SubstituteLength(text: string, matches: seq<Span>, replacement: string, at: nat, size: nat)
    requires Ordered(matches, at, |text|)
    requires forall sp :: sp in matches ==> sp.end == sp.start + size
    ensures |Substitute(text, matches, replacement, at)| == |text| - at + |matches| * (|replacement| - size)
  {
    if matches == [] {
      assert |matches| * (|replacement| - size) == 0;
    } else {
      SubstituteLength(text, matches[1..], replacement, matches[0].end, size);
      Distribute(|matches|, |replacement| - size);
    }
  }

  lemma Distribute(n: nat, d: int)
    requires n > 0
    ensures n * d == d + (n - 1) * d
  {}

  /** Putting back what was there changes nothing. */
  lemma {:induction false} SubstituteSame(text: string, matches: seq<Span>, replacement: string, at: nat)
    requires Ordered(matches, at, |text|)
    requires forall sp :: sp in matches ==> sp.start <= sp.end <= |text| && text[sp.start..sp.end] == replacement
    ensures Substitute(text, matches, replacement, at) == text[at..]
  {
    if matches != [] {
      var m := matches[0];
      SubstituteSame(text, matches[1..], replacement, m.end);
      assert m in matches && text[m.start..m.end] == replacement;
      JoinThree(text, at, m.start, m.end);
    }
  }

  lemma JoinThree(text: string, a: nat, b: nat, c: nat)
    requires a <= b <= c <= |text|
    ensures text[a..b] + text[b..c] + text[c..] == text[a..]
  {}

  /** Replace-all on the search's own matches: a simultaneous substitution of known length, for any replacement, when
      folding lengthens the text by no more than the query. */
  lemma ReplaceAllSearched(fold: string -> string, sql: string, query: string, replacement: string)
    requires query != "" && fold(query) != "" && |fold(sql)| - |sql| <= |fold(query)| - |query|
    ensures var matches := MatchesFrom(fold(sql), fold(query), |query|, 0);
            && Ordered(matches, 0, |sql|)
            && |Substitute(sql, matches, replacement, 0)| == |sql| + |matches| * (|replacement| - |query|)
  {
    hide Ordered, Substitute, MatchesFrom;
    var haystack, needle := fold(sql), fold(query);
    var matches := MatchesFrom(haystack, needle, |query|, 0);
    MatchesAreOrdered(haystack, needle, |query|, 0, |sql|);
    forall sp | sp in matches
      ensures sp.end == sp.start + |query|
    {
      MatchesOccur(haystack, needle, |query|, 0, sp);
    }
    SubstituteLength(sql, matches, replacement, 0, |query|);
  }
}
