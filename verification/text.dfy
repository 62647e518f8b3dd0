/** String helpers: prefixes, infixes, decimal rendering and splitting on a separator. */
module Text {

  predicate StartsWith(s: string, prefix: string) {
    |prefix| <= |s| && s[..|prefix|] == prefix
  }

  /** `needle` occurs in `s` starting at position `i`. */
  predicate InfixAt(needle: string, s: string, i: int) {
    0 <= i <= |s| - |needle| && s[i..i + |needle|] == needle
  }

  predicate IsInfix(needle: string, s: string) {
    exists i :: 0 <= i <= |s| && InfixAt(needle, s, i)
  }

  lemma InfixSelf(needle: string)
    ensures IsInfix(needle, needle)
  {
    assert InfixAt(needle, needle, 0);
  }

  lemma InfixLeft(needle: string, a: string, b: string)
    requires IsInfix(needle, a)
    ensures IsInfix(needle, a + b)
  {
    var i :| 0 <= i <= |a| && InfixAt(needle, a, i);
    assert (a + b)[i..i + |needle|] == a[i..i + |needle|];
    assert InfixAt(needle, a + b, i);
  }

  lemma InfixRight(needle: string, a: string, b: string)
    requires IsInfix(needle, b)
    ensures IsInfix(needle, a + b)
  {
    var i :| 0 <= i <= |b| && InfixAt(needle, b, i);
    assert (a + b)[|a| + i..|a| + i + |needle|] == b[i..i + |needle|];
    assert InfixAt(needle, a + b, |a| + i);
  }

  /** The infix at the end of `a + needle`, kept inside any further suffixes. */
  lemma InfixAfter(a: string, needle: string)
    ensures IsInfix(needle, a + needle)
  {
    InfixSelf(needle);
    InfixRight(needle, a, needle);
  }

  function DigitChar(d: nat): char
    requires d < 10
  {
    "0123456789"[d]
  }

  /** Decimal rendering of a natural number, as template literals print it. */
  function NatToString(n: nat): (s: string)
    ensures |s| >= 1
    decreases n
  {
    if n < 10 then [DigitChar(n)] else NatToString(n / 10) + [DigitChar(n % 10)]
  }

  function IntToString(n: int): (s: string)
    ensures |s| >= 1
  {
    if n < 0 then "-" + NatToString(-n) else NatToString(n)
  }

  /** The number of occurrences of `c` in `s`. */
  function Count(s: string, c: char): nat
  {
    if s == [] then 0 else (if s[0] == c then 1 else 0) + Count(s[1..], c)
  }

  /** `s.split(c)` for a one-character separator. */
  function Split(s: string, c: char): (parts: seq<string>)
    ensures |parts| == Count(s, c) + 1
    ensures forall i :: 0 <= i < |parts| ==> c !in parts[i]
  {
    if s == [] then [""]
    else
      var rest := Split(s[1..], c);
      if s[0] == c then [""] + rest
      else [[s[0]] + rest[0]] + rest[1..]
  }

  /** `parts.join(c)`. */
  function Join(parts: seq<string>, c: char): string
    requires |parts| >= 1
  {
    if |parts| == 1 then parts[0] else parts[0] + [c] + Join(parts[1..], c)
  }

  /** Splitting and re-joining on the same separator gives the string back. */
  lemma {:induction false} JoinSplit(s: string, c: char)
    ensures Join(Split(s, c), c) == s
    decreases |s|
  {
    if s == [] {
    } else {
      var rest := Split(s[1..], c);
      JoinSplit(s[1..], c);
      if s[0] == c {
        assert Split(s, c)[1..] == rest;
      } else {
        var parts := Split(s, c);
        if |rest| == 1 {
          assert parts == [[s[0]] + rest[0]];
        } else {
          assert parts[1..] == rest[1..];
          assert Join(rest, c) == rest[0] + [c] + Join(rest[1..], c);
        }
      }
    }
  }
}
