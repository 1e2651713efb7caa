/** Numbers, lists and quotes as they are printed. */
module Printing {
  function Max(a: int, b: int): int {
    if a < b then b else a
  }

  function Min(a: int, b: int): int {
    if a < b then a else b
  }

  /** Every double quote doubled. */
  function Doubled(s: string): string {
    if s == [] then [] else (if s[0] == '"' then "\"\"" else [s[0]]) + Doubled(s[1..])
  }

  function Digits(n: nat): (r: string)
    ensures |r| > 0 && forall k :: 0 <= k < |r| ==> '0' <= r[k] <= '9'
  {
    (if n < 10 then "" else Digits(n / 10)) + ['0' + (n % 10) as char]
  }

  /** The number that a text of digits stands for. */
  function ValueOf(s: string): int {
    if s == "" then 0 else 10 * ValueOf(s[..|s| - 1]) + (s[|s| - 1] as int - '0' as int)
  }

  function Digit(n: nat): char {
    '0' + (n % 10) as char
  }

  lemma LastDigit(n: nat)
    ensures Digits(n)[|Digits(n)| - 1] == Digit(n)
    ensures Digits(n)[..|Digits(n)| - 1] == if n < 10 then "" else Digits(n / 10)
  {}

  lemma DigitStands(n: nat)
    ensures Digit(n) as int - '0' as int == n % 10
    ensures n > 0 && n < 10 ==> Digit(n) != '0'
  {}

  lemma ValueOfFront(s: string)
    ensures ValueOf(s) == if s == "" then 0 else 10 * ValueOf(s[..|s| - 1]) + (s[|s| - 1] as int - '0' as int)
  {}

  /** Numbers are printed in decimal, without leading zeros. */
  lemma {:induction false} DigitsAreRead(n: nat)
    ensures ValueOf(Digits(n)) == n && (n > 0 ==> Digits(n)[0] != '0')
  {
    hide Digits, Digit, ValueOf;
    LastDigit(n);
    DigitStands(n);
    ValueOfFront(Digits(n));
    if n >= 10 {
      DigitsAreRead(n / 10);
      assert Digits(n)[0] == Digits(n)[..|Digits(n)| - 1][0];
    } else {
      ValueOfFront("");
    }
  }

  lemma DigitDiffers(i: nat, k: nat)
    requires Digit(i) == Digit(k)
    ensures i % 10 == k % 10
  {}

  lemma {:induction false} DigitsDiffer(i: nat, k: nat)
    requires Digits(i) == Digits(k)
    ensures i == k
  {
    hide Digits, Digit;
    LastDigit(i);
    LastDigit(k);
    DigitDiffers(i, k);
    if i >= 10 && k >= 10 { DigitsDiffer(i / 10, k / 10); }
  }

  function Join(parts: seq<string>, separator: char): string {
    if parts == [] then ""
    else if |parts| == 1 then parts[0]
    else parts[0] + [separator] + Join(parts[1..], separator)
  }

  lemma JoinFront(part: string, rest: seq<string>, separator: char)
    ensures Join([part] + rest, separator) == if rest == [] then part else part + [separator] + Join(rest, separator)
  {
    assert ([part] + rest)[1..] == rest;
  }

  /** What is before the first separator, and what is behind it. */
  function SplitAt(s: string, separator: char): (r: seq<string>)
    ensures r != []
  {
    if s == "" then [""]
    else
      var rest := SplitAt(s[1..], separator);
      if s[0] == separator then [""] + rest else [[s[0]] + rest[0]] + rest[1..]
  }

  lemma {:induction false} SplitOfOne(part: string, rest: string, separator: char)
    requires separator !in part
    ensures SplitAt(part, separator) == [part]
    ensures SplitAt(part + [separator] + rest, separator) == [part] + SplitAt(rest, separator)
  {
    var s := part + [separator] + rest;
    if part == "" {
      assert s[1..] == rest;
    } else {
      assert part[0] in part && s[0] == part[0];
      assert s[1..] == part[1..] + [separator] + rest;
      SplitOfOne(part[1..], rest, separator);
      assert part == [part[0]] + part[1..];
    }
  }

  /** A joined list is read back when its parts do not have the separator in them. */
  lemma {:induction false} SplitOfJoin(parts: seq<string>, separator: char)
    requires parts != [] && forall i :: 0 <= i < |parts| ==> separator !in parts[i]
    ensures SplitAt(Join(parts, separator), separator) == parts
  {
    if |parts| == 1 {
      SplitOfOne(parts[0], "", separator);
    } else {
      SplitOfOne(parts[0], Join(parts[1..], separator), separator);
      SplitOfJoin(parts[1..], separator);
      assert parts == [parts[0]] + parts[1..];
    }
  }

  /** Two texts without the separator are told apart in the text that they make with it. */
  lemma PartsDiffer(a: string, x: string, b: string, y: string, separator: char)
    requires separator !in a && separator !in b
    requires a + [separator] + x == b + [separator] + y
    ensures a == b && x == y
  {
    var s := a + [separator] + x;
    assert forall k :: 0 <= k < |a| ==> s[k] == a[k] && a[k] in a;
    assert forall k :: 0 <= k < |b| ==> s[k] == b[k] && b[k] in b;
    assert s[|a|] == separator && s[|b|] == separator;
    assert |a| == |b|;
    assert s[..|a|] == a && s[..|b|] == b;
    assert s[|a| + 1..] == x && s[|b| + 1..] == y;
  }
}
