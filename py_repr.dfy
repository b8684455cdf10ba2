/** Python's `repr` of a string and of a list of strings, which is how an f-string such as
    `f"Columns: {header}"` renders a CSV header row, and a reader that inverts it. */
module PyRepr {
  import opened Outcomes

  predicate IsQuote(q: char) { q == '\'' || q == '"' }

  /** `repr` quotes with `'` unless the text holds a `'` and no `"`, so the quote never
      occurs in the text unless the text holds both kinds. */
  function QuoteFor(s: string): (q: char)
    ensures IsQuote(q)
    ensures q == '"' <==> '\'' in s && '"' !in s
    ensures !('\'' in s && '"' in s) ==> q !in s
  {
    if '\'' in s && '"' !in s then '"' else '\''
  }

  /** The lower-case hexadecimal digit for `d`. */
  function HexDigit(d: nat): (c: char)
    requires d < 16
  {
    if d < 10 then ('0' as int + d) as char else ('a' as int + d - 10) as char
  }

  function HexValue(c: char): (r: Option<nat>)
    ensures r.Some? ==> r.value < 16
  {
    if '0' <= c <= '9' then Some(c as int - '0' as int)
    else if 'a' <= c <= 'f' then Some(c as int - 'a' as int + 10)
    else None
  }

  lemma HexValueOfDigit(d: nat)
    requires d < 16
    ensures HexValue(HexDigit(d)) == Some(d)
  {
  }

  /** ASCII characters that `repr` shows as a `\xhh` escape. */
  predicate IsHexEscaped(c: char) { c < ' ' || c as int == 0x7f }

  /** The characters `repr`, quoting with `q`, shows as a backslash escape. */
  predicate NeedsEscape(c: char, q: char)
  {
    c == q || c == '\\' || c == '\t' || c == '\n' || c == '\r' || IsHexEscaped(c)
  }

  /** How `repr`, quoting with `q`, shows one character. Characters outside ASCII are
      shown as they are. */
  function EscapeChar(c: char, q: char): (r: string)
    ensures |r| > 0
  {
    if c == q || c == '\\' then ['\\', c]
    else if c == '\t' then "\\t"
    else if c == '\n' then "\\n"
    else if c == '\r' then "\\r"
    else if IsHexEscaped(c) then ['\\', 'x', HexDigit(c as int / 16), HexDigit(c as int % 16)]
    else [c]
  }

  function Escape(s: string, q: char): string
  {
    if s == [] then [] else EscapeChar(s[0], q) + Escape(s[1..], q)
  }

  /** `repr(s)` for a string `s`. */
  function StrRepr(s: string): string
  {
    var q := QuoteFor(s);
    [q] + Escape(s, q) + [q]
  }

  function JoinReprs(xs: seq<string>): string
  {
    if xs == [] then ""
    else if |xs| == 1 then StrRepr(xs[0])
    else StrRepr(xs[0]) + ", " + JoinReprs(xs[1..])
  }

  /** `repr(xs)` for a list of strings: `['a', 'b']`. */
  function ListRepr(xs: seq<string>): string
  {
    "[" + JoinReprs(xs) + "]"
  }

  // ---------------------------------------------------------------------------
  // Reading back.

  /** Reads what follows a backslash: the character it stands for and how many
      characters the escape used. */
  function ReadEscape(t: string, q: char): (r: Option<(char, nat)>)
    ensures r.Some? ==> 0 < r.value.1 <= |t|
  {
    if t == [] then None
    else if t[0] == q || t[0] == '\\' then Some((t[0], 1))
    else if t[0] == 't' then Some(('\t', 1))
    else if t[0] == 'n' then Some(('\n', 1))
    else if t[0] == 'r' then Some(('\r', 1))
    else if t[0] == 'x' && |t| >= 3 && HexValue(t[1]).Some? && HexValue(t[2]).Some? then
      Some(((HexValue(t[1]).value * 16 + HexValue(t[2]).value) as char, 3))
    else None
  }

  /** Reads the body of a literal quoted with `q`, up to and including the closing
      quote: the text it stands for and how many characters it used. */
  function ReadBody(t: string, q: char): (r: Option<(string, nat)>)
    ensures r.Some? ==> 0 < r.value.1 <= |t|
    decreases |t|
  {
    if t == [] then None
    else if t[0] == q then Some(("", 1))
    else if t[0] == '\\' then
      match ReadEscape(t[1..], q)
      case None => None
      case Some((c, k)) =>
        match ReadBody(t[1 + k..], q)
        case None => None
        case Some((s, m)) => Some(([c] + s, 1 + k + m))
    else
      match ReadBody(t[1..], q)
      case None => None
      case Some((s, m)) => Some(([t[0]] + s, 1 + m))
  }

  /** Reads one quoted literal at the start of `t`. */
  function ReadLiteral(t: string): (r: Option<(string, nat)>)
    ensures r.Some? ==> 0 < r.value.1 <= |t|
  {
    if t == [] || !IsQuote(t[0]) then None
    else
      match ReadBody(t[1..], t[0])
      case None => None
      case Some((s, m)) => Some((s, 1 + m))
  }

  /** Reads `lit, lit, ..., lit]` to the end of `t`. */
  function ReadItems(t: string): Option<seq<string>>
    decreases |t|
  {
    match ReadLiteral(t)
    case None => None
    case Some((s, k)) =>
      var after := t[k..];
      if after == "]" then Some([s])
      else if |after| >= 2 && after[..2] == ", " then
        match ReadItems(after[2..])
        case None => None
        case Some(ss) => Some([s] + ss)
      else None
  }

  /** Reads a whole list display of string literals. */
  function ReadList(t: string): Option<seq<string>>
  {
    if t == "[]" then Some([])
    else if |t| > 0 && t[0] == '[' then ReadItems(t[1..])
    else None
  }

  // ---------------------------------------------------------------------------
  // Round trips.

  lemma ReadEscapeOf(c: char, q: char, rest: string)
    requires IsQuote(q)
    requires NeedsEscape(c, q)
    ensures EscapeChar(c, q)[0] == '\\'
    ensures ReadEscape(EscapeChar(c, q)[1..] + rest, q) == Some((c, |EscapeChar(c, q)| - 1))
  {
    var e := EscapeChar(c, q);
    if !(c == q || c == '\\' || c == '\t' || c == '\n' || c == '\r') {
      var hi, lo := c as int / 16, c as int % 16;
      HexValueOfDigit(hi);
      HexValueOfDigit(lo);
      var t := e[1..] + rest;
      assert t[0] == 'x' && t[1] == HexDigit(hi) && t[2] == HexDigit(lo);
      assert (hi * 16 + lo) as char == c;
    }
  }

  /** One shown character, then more of the body, reads back as that character
      followed by the rest of the body. */
  lemma ReadBodyStep(c: char, q: char, tail: string, text: string, m: nat)
    requires IsQuote(q)
    requires ReadBody(tail, q) == Some((text, m))
    ensures ReadBody(EscapeChar(c, q) + tail, q) == Some(([c] + text, |EscapeChar(c, q)| + m))
  {
    var e := EscapeChar(c, q);
    if !NeedsEscape(c, q) {
      ReadBodyPlain(c, q, tail, text, m);
    } else {
      ReadEscapeOf(c, q, tail);
      ReadBodyEscaped(c, q, e, tail, text, m);
    }
  }

  /** A character shown as itself. */
  lemma ReadBodyPlain(c: char, q: char, tail: string, text: string, m: nat)
    requires c != q && c != '\\'
    requires ReadBody(tail, q) == Some((text, m))
    ensures ReadBody([c] + tail, q) == Some(([c] + text, 1 + m))
  {
    var t := [c] + tail;
    assert t[0] == c && t[1..] == tail;
    assert ReadBody(t[1..], q) == ReadBody(tail, q);
  }

  /** A character shown as a backslash escape `e`. */
  lemma ReadBodyEscaped(c: char, q: char, e: string, tail: string, text: string, m: nat)
    requires IsQuote(q) && |e| > 1 && e[0] == '\\'
    requires ReadEscape(e[1..] + tail, q) == Some((c, |e| - 1))
    requires ReadBody(tail, q) == Some((text, m))
    ensures ReadBody(e + tail, q) == Some(([c] + text, |e| + m))
  {
    var t := e + tail;
    assert t[0] == '\\';
    assert t[1..] == e[1..] + tail;
    assert t[1 + (|e| - 1)..] == tail;
    assert ReadEscape(t[1..], q) == Some((c, |e| - 1));
    assert ReadBody(t[1 + (|e| - 1)..], q) == ReadBody(tail, q);
  }

  /** The closing quote ends the body. */
  lemma ReadBodyAtQuote(q: char, rest: string)
    ensures ReadBody([q] + rest, q) == Some(("", 1))
  {
  }

  /** One more escaped character in front of a body that reads back. */
  lemma ReadBodyCons(c: char, q: char, e: string, body: string, rest: string, text: string)
    requires IsQuote(q) && e == EscapeChar(c, q)
    requires ReadBody(body + [q] + rest, q) == Some((text, |body| + 1))
    ensures ReadBody(e + body + [q] + rest, q) == Some(([c] + text, |e + body| + 1))
  {
    ReadBodyStep(c, q, body + [q] + rest, text, |body| + 1);
    assert e + body + [q] + rest == e + (body + [q] + rest);
  }

  /** The inductive step of `ReadBodyOfEscape`: from the rest of the text to the whole. */
  lemma ReadBodyOfEscapeStep(s: string, q: char, rest: string)
    requires IsQuote(q) && s != []
    requires ReadBody(Escape(s[1..], q) + [q] + rest, q) == Some((s[1..], |Escape(s[1..], q)| + 1))
    ensures ReadBody(Escape(s, q) + [q] + rest, q) == Some((s, |Escape(s, q)| + 1))
  {
    var e, body := EscapeChar(s[0], q), Escape(s[1..], q);
    ReadBodyCons(s[0], q, e, body, rest, s[1..]);
    assert Escape(s, q) == e + body;
    assert [s[0]] + s[1..] == s;
  }

  /** The escaped body of a literal, then its closing quote, reads back as the text. */
  lemma {:induction false} ReadBodyOfEscape(s: string, q: char, rest: string)
    requires IsQuote(q)
    ensures ReadBody(Escape(s, q) + [q] + rest, q) == Some((s, |Escape(s, q)| + 1))
    decreases |s|
  {
    if s == [] {
      assert Escape(s, q) + [q] + rest == [q] + rest;
      ReadBodyAtQuote(q, rest);
    } else {
      ReadBodyOfEscape(s[1..], q, rest);
      ReadBodyOfEscapeStep(s, q, rest);
    }
  }

  /** `repr(s)` reads back as `s`. */
  lemma ReadLiteralOfRepr(s: string, rest: string)
    ensures ReadLiteral(StrRepr(s) + rest) == Some((s, |StrRepr(s)|))
  {
    var q := QuoteFor(s);
    var t := StrRepr(s) + rest;
    assert t[0] == q;
    assert t[1..] == Escape(s, q) + [q] + rest;
    ReadBodyOfEscape(s, q, rest);
    assert ReadBody(t[1..], q) == ReadBody(Escape(s, q) + [q] + rest, q);
  }

  /** The last literal of a list display, then its closing bracket. */
  lemma ReadItemsOfLast(x: string)
    ensures ReadItems(StrRepr(x) + "]") == Some([x])
  {
    var r := StrRepr(x);
    ReadLiteralOfRepr(x, "]");
    assert (r + "]")[|r|..] == "]";
  }

  /** A literal, a separator, then more items. */
  lemma ReadItemsStep(x: string, tail: string, ys: seq<string>)
    requires ReadItems(tail) == Some(ys)
    ensures ReadItems(StrRepr(x) + (", " + tail)) == Some([x] + ys)
  {
    var r := StrRepr(x);
    var t := r + (", " + tail);
    ReadLiteralOfRepr(x, ", " + tail);
    assert t[|r|..] == ", " + tail;
    assert t[|r|..][2..] == tail;
  }

  lemma {:induction false} ReadItemsOfJoin(xs: seq<string>)
    requires xs != []
    ensures ReadItems(JoinReprs(xs) + "]") == Some(xs)
    decreases |xs|
  {
    if |xs| == 1 {
      assert JoinReprs(xs) + "]" == StrRepr(xs[0]) + "]";
      ReadItemsOfLast(xs[0]);
      assert [xs[0]] == xs;
      assert ReadItems(JoinReprs(xs) + "]") == ReadItems(StrRepr(xs[0]) + "]");
    } else {
      var tail := JoinReprs(xs[1..]) + "]";
      assert [xs[0]] + xs[1..] == xs;
      JoinReprsCons(xs[0], xs[1..]);
      assert JoinReprs(xs) + "]" == StrRepr(xs[0]) + (", " + tail);
      ReadItemsOfJoin(xs[1..]);
      ReadItemsStep(xs[0], tail, xs[1..]);
      assert ReadItems(JoinReprs(xs) + "]") == ReadItems(StrRepr(xs[0]) + (", " + tail));
    }
  }

  /** `repr` of a list of strings reads back as the same list. */
  lemma ReadListOfRepr(xs: seq<string>)
    ensures ReadList(ListRepr(xs)) == Some(xs)
  {
    if xs != [] {
      var t := ListRepr(xs);
      assert |StrRepr(xs[0])| >= 2;
      assert |t| > 2;
      assert t[1..] == JoinReprs(xs) + "]";
      ReadItemsOfJoin(xs);
    }
  }

  /** The header of the CSV example renders as `['a', 'b', 'c']`. */
  lemma ListReprExample()
    ensures ListRepr(["a", "b", "c"]) == "[" + "'a'" + ", " + "'b'" + ", " + "'c'" + "]"
  {
    ListReprOfThree("a", "b", "c");
    assert StrRepr("a") == "'a'" && StrRepr("b") == "'b'" && StrRepr("c") == "'c'";
  }

  lemma ListReprOfThree(x: string, y: string, z: string)
    ensures ListRepr([x, y, z]) == "[" + StrRepr(x) + ", " + StrRepr(y) + ", " + StrRepr(z) + "]"
  {
    JoinReprsOfTwo(y, z);
    JoinReprsCons(x, [y, z]);
  }

  lemma JoinReprsOfTwo(y: string, z: string)
    ensures JoinReprs([y, z]) == StrRepr(y) + ", " + StrRepr(z)
  {
    assert [y, z][1..] == [z];
  }

  lemma JoinReprsCons(x: string, ys: seq<string>)
    requires ys != []
    ensures JoinReprs([x] + ys) == StrRepr(x) + ", " + JoinReprs(ys)
  {
    assert ([x] + ys)[1..] == ys;
  }
}
