/** Character classes and small text utilities shared by the SQL editor's modules. */
module SqlText {
  /** The white-space class of a JavaScript regular expression, which is also what String.trim removes. */
  predicate IsSpace(c: char) {
    || '\t' <= c <= '\r'
    || c == ' '
    || c == '\U{00A0}'
    || c == '\U{1680}'
    || '\U{2000}' <= c <= '\U{200A}'
    || c == '\U{2028}'
    || c == '\U{2029}'
    || c == '\U{202F}'
    || c == '\U{205F}'
    || c == '\U{3000}'
    || c == '\U{FEFF}'
  }

  /** The characters of white space, one by one. */
  const WHITE_SPACE: set<char> := {
    '\t', '\n', '\U{000B}', '\U{000C}', '\r', ' ', '\U{00A0}', '\U{1680}',
    '\U{2000}', '\U{2001}', '\U{2002}', '\U{2003}', '\U{2004}', '\U{2005}', '\U{2006}', '\U{2007}', '\U{2008}',
    '\U{2009}', '\U{200A}', '\U{2028}', '\U{2029}', '\U{202F}', '\U{205F}', '\U{3000}', '\U{FEFF}'
  }

  lemma WhiteSpaceIs(c: char)
    ensures IsSpace(c) <==> c in WHITE_SPACE
  {}

  predicate IsDigit(c: char) {
    '0' <= c <= '9'
  }

  predicate IsLetter(c: char) {
    'A' <= c <= 'Z' || 'a' <= c <= 'z' || c == '_'
  }

  predicate IsWord(c: char) {
    IsLetter(c) || IsDigit(c)
  }

  /** `s[i]` is `c`; false past the end, as a JavaScript lookahead is undefined there. */
  predicate At(s: string, i: nat, c: char) {
    i < |s| && s[i] == c
  }

  predicate SpaceBetween(s: string, a: nat, b: nat)
    requires b <= |s|
  {
    forall k :: a <= k < b ==> IsSpace(s[k])
  }

  lemma ConcatAssociates<T>(a: seq<T>, b: seq<T>, c: seq<T>)
    ensures a + b + c == a + (b + c)
  {}

  lemma DropOfConcat<T>(a: seq<T>, b: seq<T>, n: nat)
    requires n <= |a|
    ensures (a + b)[n..] == a[n..] + b && (a + b)[..n] == a[..n]
  {}

  lemma SliceAcross<T>(a: seq<T>, b: seq<T>, n: nat, k: nat)
    requires n <= |a| && k <= |b|
    ensures (a + b)[n..|a| + k] == a[n..] + b[..k]
  {}

  lemma LongerTail<T>(a: seq<T>, x: seq<T>, b: seq<T>, y: seq<T>)
    requires a + x == b + y && |x| < |y|
    ensures |b| < |a| && y == a[|b|..] + x
  {
    assert |a + x| == |b + y|;
    DropOfConcat(a, x, |b|);
    DropOfConcat(b, y, |b|);
    assert b[|b|..] == [];
  }

  lemma SliceOfConcat<T>(a: seq<T>, b: seq<T>, n: nat, m: nat)
    requires n <= m <= |a|
    ensures (a + b)[n..m] == a[n..m]
  {}

  lemma SliceOfSlice<T>(s: seq<T>, a: nat, b: nat, x: nat, y: nat)
    requires x <= y && a + y <= b <= |s|
    ensures s[a..b][x..y] == s[a + x..a + y]
  {
    var piece := s[a..b];
    assert forall k :: 0 <= k < |piece| ==> piece[k] == s[a + k];
    assert |piece[x..y]| == |s[a + x..a + y]|;
    assert forall k :: 0 <= k < y - x ==> piece[x..y][k] == piece[x + k];
  }

  lemma DropOfDrop<T>(s: seq<T>, a: nat, b: nat)
    requires a + b <= |s|
    ensures s[a..][b..] == s[a + b..]
  {}

  /** Length of the white-space run at the front. */
  function Leading(s: string): (n: nat)
    ensures n <= |s|
    ensures forall k :: 0 <= k < n ==> IsSpace(s[k])
    ensures n < |s| ==> !IsSpace(s[n])
  {
    if s == [] || !IsSpace(s[0]) then 0 else 1 + Leading(s[1..])
  }

  /** Length of the white-space run at the back. */
  function Trailing(s: string): (n: nat)
    ensures n <= |s|
    ensures forall k :: |s| - n <= k < |s| ==> IsSpace(s[k])
    ensures n < |s| ==> !IsSpace(s[|s| - n - 1])
  {
    if s == [] || !IsSpace(s[|s| - 1]) then 0 else 1 + Trailing(s[..|s| - 1])
  }
}
