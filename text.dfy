/**
 * String helpers behind the menu text: decimal rendering of integers (what a
 * JavaScript template literal does with a number), and the
 * `split(' ').join('+')` idiom used to build search links.
 */
module Text {

  /** Prefix of every search link attached to a menu item. */
  const SearchPrefix: string := "https://www.google.com/search?q="

  predicate IsDigit(c: char) {
    '0' <= c <= '9'
  }

  predicate AllDigits(s: string) {
    forall i :: 0 <= i < |s| ==> IsDigit(s[i])
  }

  function DigitChar(d: nat): (c: char)
    requires d < 10
    ensures IsDigit(c) && c as int - '0' as int == d
  {
    ('0' as int + d) as char
  }

  /** Decimal digits of `n`, most significant first, without leading zeros. */
  function NatToString(n: nat): (s: string)
    ensures |s| >= 1 && AllDigits(s)
    ensures s[0] == '0' ==> n == 0
    decreases n
  {
    if n < 10 then [DigitChar(n)] else NatToString(n / 10) + [DigitChar(n % 10)]
  }

  /** Reads a run of decimal digits back as a number. */
  function ParseNat(s: string): nat
    requires AllDigits(s)
  {
    if s == [] then 0 else ParseNat(s[..|s| - 1]) * 10 + (s[|s| - 1] as int - '0' as int)
  }

  lemma {:induction false} NatToStringRoundTrip(n: nat)
    ensures ParseNat(NatToString(n)) == n
    decreases n
  {
    if n >= 10 {
      var s := NatToString(n);
      assert s[..|s| - 1] == NatToString(n / 10);
      NatToStringRoundTrip(n / 10);
    }
  }

  /** Decimal text of an integer, with a leading '-' when it is negative. */
  function IntToString(i: int): (s: string)
    ensures |s| >= 1
    ensures s[0] == '-' <==> i < 0
    ensures forall k :: 0 <= k < |s| ==> IsDigit(s[k]) || s[k] == '-'
  {
    if i < 0 then "-" + NatToString(-i) else NatToString(i)
  }

  predicate IsIntText(s: string) {
    AllDigits(s) || (|s| > 1 && s[0] == '-' && AllDigits(s[1..]))
  }

  /** Reads the text of `IntToString` back as an integer. */
  function ParseInt(s: string): int
    requires IsIntText(s)
  {
    if |s| > 0 && s[0] == '-' then -(ParseNat(s[1..]) as int) else ParseNat(s)
  }

  lemma IntToStringRoundTrip(i: int)
    ensures IsIntText(IntToString(i))
    ensures ParseInt(IntToString(i)) == i
  {
    var s := IntToString(i);
    if i < 0 {
      assert s[1..] == NatToString(-i);
      NatToStringRoundTrip(-i);
    } else {
      NatToStringRoundTrip(i);
    }
  }

  /** Distinct numbers never render to the same text. */
  lemma IntToStringInjective(a: int, b: int)
    requires IntToString(a) == IntToString(b)
    ensures a == b
  {
    IntToStringRoundTrip(a);
    IntToStringRoundTrip(b);
  }

  /** JavaScript's `s.split(sep)` for a one-character separator: always at least one piece. */
  function Split(s: string, sep: char): (parts: seq<string>)
    ensures |parts| >= 1
    ensures forall k :: 0 <= k < |parts| ==> sep !in parts[k]
    decreases |s|
  {
    if s == [] then [[]]
    else
      var rest := Split(s[1..], sep);
      if s[0] == sep then [[]] + rest
      else [[s[0]] + rest[0]] + rest[1..]
  }

  /** JavaScript's `parts.join(glue)` for a one-character glue. */
  function Join(parts: seq<string>, glue: char): string
  {
    if |parts| == 0 then []
    else if |parts| == 1 then parts[0]
    else parts[0] + [glue] + Join(parts[1..], glue)
  }

  /** Reference definition: every occurrence of `from` replaced by `to`, nothing else touched. */
  function ReplaceChar(s: string, from: char, to: char): string
  {
    seq(|s|, i requires 0 <= i < |s| => if s[i] == from then to else s[i])
  }

  lemma ReplaceCharConcat(a: string, b: string, from: char, to: char)
    ensures ReplaceChar(a + b, from, to) == ReplaceChar(a, from, to) + ReplaceChar(b, from, to)
  {
  }

  lemma {:induction false} JoinSplitIsReplace(s: string, sep: char, glue: char)
    ensures Join(Split(s, sep), glue) == ReplaceChar(s, sep, glue)
    decreases |s|
  {
    if s != [] {
      var rest := Split(s[1..], sep);
      JoinSplitIsReplace(s[1..], sep, glue);
      assert ReplaceChar(s, sep, glue)
        == [if s[0] == sep then glue else s[0]] + ReplaceChar(s[1..], sep, glue);
      if s[0] != sep {
        var parts := [[s[0]] + rest[0]] + rest[1..];
        assert parts[1..] == rest[1..];
      }
    }
  }

  /** `name.split(' ').join('+')`: the name as a search-query term. */
  function SpacesToPlus(s: string): (r: string)
    ensures r == ReplaceChar(s, ' ', '+')
    ensures |r| == |s| && ' ' !in r
  {
    JoinSplitIsReplace(s, ' ', '+');
    Join(Split(s, ' '), '+')
  }

  /** A name without '+' is recovered from its query term. */
  lemma PlusToSpacesRoundTrip(s: string)
    requires '+' !in s
    ensures ReplaceChar(SpacesToPlus(s), '+', ' ') == s
  {
  }

  /** Search link for a query text. */
  function SearchLink(query: string): (url: string)
    ensures |url| == |SearchPrefix| + |query| && url[..|SearchPrefix|] == SearchPrefix
    ensures url[|SearchPrefix|..] == ReplaceChar(query, ' ', '+')
  {
    SearchPrefix + SpacesToPlus(query)
  }
}
