/** ASCII character classes: the word characters of the regular expression `\w`, case
    folding by `str.lower()`, and the length of the longest prefix drawn from a class. */
module Ascii {

  predicate IsUpper(c: char) { 'A' <= c <= 'Z' }

  predicate IsLowerLetter(c: char) { 'a' <= c <= 'z' }

  predicate IsDigit(c: char) { '0' <= c <= '9' }

  /** `\w`: letters, digits and the underscore. */
  predicate IsWordChar(c: char) { IsUpper(c) || IsLowerLetter(c) || IsDigit(c) || c == '_' }

  function LowerChar(c: char): (r: char)
    ensures !IsUpper(r)
    ensures IsUpper(c) ==> IsLowerLetter(r) && r as int == c as int + 32
    ensures !IsUpper(c) ==> r == c
    ensures IsWordChar(r) == IsWordChar(c)
  {
    if IsUpper(c) then (c as int + 32) as char else c
  }

  /** `str.lower()`, restricted to ASCII. */
  function Lower(s: string): (r: string)
    ensures |r| == |s|
    ensures forall i :: 0 <= i < |r| ==> !IsUpper(r[i])
    ensures forall i :: 0 <= i < |s| && !IsUpper(s[i]) ==> r[i] == s[i]
  {
    seq(|s|, i requires 0 <= i < |s| => LowerChar(s[i]))
  }

  lemma LowerIdempotent(s: string)
    ensures Lower(Lower(s)) == Lower(s)
  {
  }

  /** Length of the longest prefix of `s` whose characters all satisfy `p`. */
  function Span(p: char -> bool, s: string): (n: nat)
    ensures n <= |s|
    ensures n > 0 <==> s != [] && p(s[0])
  {
    if s == [] || !p(s[0]) then 0 else 1 + Span(p, s[1..])
  }

  /** Every character of the span satisfies `p`, and the one after it does not. */
  lemma {:induction false} SpanBounds(p: char -> bool, s: string)
    ensures forall i :: 0 <= i < Span(p, s) ==> p(s[i])
    ensures Span(p, s) < |s| ==> !p(s[Span(p, s)])
    decreases |s|
  {
    if s != [] && p(s[0]) {
      SpanBounds(p, s[1..]);
      forall i | 0 <= i < Span(p, s) ensures p(s[i]) {
        if i > 0 {
          assert s[i] == s[1..][i - 1];
        }
      }
      if Span(p, s) < |s| {
        assert s[Span(p, s)] == s[1..][Span(p, s[1..])];
      }
    }
  }

  /** A span stops exactly at the end of a prefix made of `p`-characters that is
      followed by the end of the string or by a character outside `p`. */
  lemma {:induction false} SpanOfPrefix(p: char -> bool, w: string, rest: string)
    requires forall i :: 0 <= i < |w| ==> p(w[i])
    requires rest == [] || !p(rest[0])
    ensures Span(p, w + rest) == |w|
  {
    if w != [] {
      assert (w + rest)[1..] == w[1..] + rest;
      SpanOfPrefix(p, w[1..], rest);
    }
  }
}
