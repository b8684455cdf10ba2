/** The word-frequency summary of the text pipeline: lower-case the text, find every
    maximal run of word characters (`re.findall(r'\w+', ...)`), count the runs with a
    `Counter` (whose iteration order is the order of first occurrence) and render one
    `word: count` line per distinct word. */
module WordCount {
  import opened Ascii
  import opened Decimal
  import opened Outcomes

  /** A token as `\w+` matches it: non-empty and made only of word characters. */
  predicate IsWord(w: string) { |w| > 0 && forall i :: 0 <= i < |w| ==> IsWordChar(w[i]) }

  predicate NoWordChar(s: string) { forall i :: 0 <= i < |s| ==> !IsWordChar(s[i]) }

  /** `re.findall(r'\w+', s)`: scanning left to right, skip a non-word character or take
      the longest run of word characters that starts here. */
  function Tokens(s: string): (ts: seq<string>)
    ensures forall k :: 0 <= k < |ts| ==> IsWord(ts[k])
    decreases |s|
  {
    if s == [] then []
    else if !IsWordChar(s[0]) then Tokens(s[1..])
    else
      var n := Span(IsWordChar, s);
      SpanBounds(IsWordChar, s);
      [s[..n]] + Tokens(s[n..])
  }

  // ---------------------------------------------------------------------------
  // A second, independent description of the tokens: cut the text at every
  // non-word character and keep the non-empty pieces.

  /** The pieces between non-word characters (there is always at least one). */
  function Pieces(s: string): (ps: seq<string>)
    ensures |ps| > 0
  {
    if s == [] then [""]
    else
      var rest := Pieces(s[1..]);
      if IsWordChar(s[0]) then [[s[0]] + rest[0]] + rest[1..] else [""] + rest
  }

  function NonEmpty(ps: seq<string>): seq<string>
  {
    if ps == [] then [] else (if ps[0] == "" then [] else [ps[0]]) + NonEmpty(ps[1..])
  }

  /** The first `k` word characters of `s` open its first piece. */
  lemma {:induction false} PiecesOfRun(s: string, k: nat)
    requires k <= Span(IsWordChar, s)
    ensures Pieces(s) == [s[..k] + Pieces(s[k..])[0]] + Pieces(s[k..])[1..]
    decreases k
  {
    if k == 0 {
      var p := Pieces(s);
      assert s[..0] == "" && s[0..] == s;
      assert "" + p[0] == p[0];
      assert [p[0]] + p[1..] == p;
    } else {
      assert Span(IsWordChar, s) == 1 + Span(IsWordChar, s[1..]);
      PiecesOfRun(s[1..], k - 1);
      PiecesOfRunStep(s, k);
    }
  }

  /** The inductive step of `PiecesOfRun`. */
  lemma PiecesOfRunStep(s: string, k: nat)
    requires 0 < k <= |s| && IsWordChar(s[0])
    requires Pieces(s[1..]) == [s[1..][..k - 1] + Pieces(s[1..][k - 1..])[0]] + Pieces(s[1..][k - 1..])[1..]
    ensures Pieces(s) == [s[..k] + Pieces(s[k..])[0]] + Pieces(s[k..])[1..]
  {
    var t := s[1..];
    var q := Pieces(s[k..]);
    assert t[k - 1..] == s[k..];
    assert Pieces(t) == [t[..k - 1] + q[0]] + q[1..];
    assert [s[0]] + (t[..k - 1] + q[0]) == s[..k] + q[0];
  }

  /** A run of word characters is one non-empty piece, followed by the pieces after it. */
  lemma NonEmptyPiecesOfRun(s: string)
    requires s != [] && IsWordChar(s[0])
    ensures var n := Span(IsWordChar, s);
      NonEmpty(Pieces(s)) == [s[..n]] + NonEmpty(Pieces(s[n..]))
  {
    var n := Span(IsWordChar, s);
    var q := Pieces(s[n..]);
    SpanBounds(IsWordChar, s);
    PiecesOfRun(s, n);
    if n < |s| {
      assert s[n..][1..] == s[n + 1..];
      assert q == [""] + Pieces(s[n + 1..]);
    }
    assert q[0] == "";
    assert s[..n] + q[0] == s[..n];
    var ps := [s[..n]] + q[1..];
    assert Pieces(s) == ps;
    assert ps[1..] == q[1..];
    assert NonEmpty(ps) == [s[..n]] + NonEmpty(q[1..]);
    assert NonEmpty(q) == NonEmpty(q[1..]);
  }

  /** The scanner finds exactly the non-empty pieces between non-word characters. */
  lemma {:induction false} TokensAreNonEmptyPieces(s: string)
    ensures Tokens(s) == NonEmpty(Pieces(s))
    decreases |s|
  {
    if s == [] {
    } else if !IsWordChar(s[0]) {
      TokensAreNonEmptyPieces(s[1..]);
      assert ([""] + Pieces(s[1..]))[1..] == Pieces(s[1..]);
    } else {
      var n := Span(IsWordChar, s);
      NonEmptyPiecesOfRun(s);
      TokensAreNonEmptyPieces(s[n..]);
    }
  }

  /** Text without word characters has no tokens, and text with one has at least one. */
  lemma {:induction false} NoTokensIffNoWordChar(s: string)
    ensures Tokens(s) == [] <==> NoWordChar(s)
    decreases |s|
  {
    if s != [] && !IsWordChar(s[0]) {
      NoTokensIffNoWordChar(s[1..]);
      assert NoWordChar(s) <==> NoWordChar(s[1..]);
    }
  }

  /** Tokens of a text without upper-case letters have none either. */
  lemma {:induction false} TokensOfLowerText(s: string)
    requires forall i :: 0 <= i < |s| ==> !IsUpper(s[i])
    ensures forall k, j :: 0 <= k < |Tokens(s)| && 0 <= j < |Tokens(s)[k]| ==> !IsUpper(Tokens(s)[k][j])
    decreases |s|
  {
    if s != [] {
      if !IsWordChar(s[0]) {
        TokensOfLowerText(s[1..]);
      } else {
        var n := Span(IsWordChar, s);
        TokensOfLowerText(s[n..]);
        assert Tokens(s) == [s[..n]] + Tokens(s[n..]);
      }
    }
  }

  // ---------------------------------------------------------------------------
  // Counting: the `Counter` built from the token list.

  /** One item of the counter: a word and how often it occurred. */
  datatype Entry = Entry(word: string, count: nat)

  function Words(es: seq<Entry>): seq<string>
  {
    seq(|es|, i requires 0 <= i < |es| => es[i].word)
  }

  /** Number of times `w` occurs in `ts`. */
  function Occurrences(ts: seq<string>, w: string): (n: nat)
    ensures n > 0 <==> w in ts
  {
    if ts == [] then 0
    else
      assert ts == ts[..|ts| - 1] + [ts[|ts| - 1]];
      Occurrences(ts[..|ts| - 1], w) + (if ts[|ts| - 1] == w then 1 else 0)
  }

  /** Index of the first occurrence of `w` in `ts`. */
  function FirstIndex(ts: seq<string>, w: string): (i: nat)
    requires w in ts
    ensures i < |ts| && ts[i] == w && w !in ts[..i]
  {
    var last := |ts| - 1;
    assert ts == ts[..last] + [ts[last]];
    if w in ts[..last] then
      var i := FirstIndex(ts[..last], w);
      assert ts[..last][..i] == ts[..i];
      i
    else last
  }

  /** `counter[w] += 1`: an existing word keeps its place, a new word goes last. */
  function Bump(es: seq<Entry>, w: string): seq<Entry>
  {
    if w in Words(es) then
      var i := FirstIndex(Words(es), w);
      es[i := Entry(w, es[i].count + 1)]
    else
      es + [Entry(w, 1)]
  }

  /** `Counter(ts)`: the tokens counted one after another. */
  function CountWords(ts: seq<string>): seq<Entry>
  {
    if ts == [] then [] else Bump(CountWords(ts[..|ts| - 1]), ts[|ts| - 1])
  }

  function Total(es: seq<Entry>): nat
  {
    if es == [] then 0 else Total(es[..|es| - 1]) + es[|es| - 1].count
  }

  lemma {:induction false} TotalAfterIncrement(es: seq<Entry>, i: nat, e: Entry)
    requires i < |es| && e.count == es[i].count + 1
    ensures Total(es[i := e]) == Total(es) + 1
    decreases |es|
  {
    var last := |es| - 1;
    if i < last {
      assert es[i := e][..last] == es[..last][i := e];
      TotalAfterIncrement(es[..last], i, e);
    } else {
      assert es[i := e][..last] == es[..last];
    }
  }

  predicate DistinctWords(es: seq<Entry>)
  {
    forall i, j :: 0 <= i < j < |es| ==> es[i].word != es[j].word
  }

  /** The counter's words are exactly the tokens. */
  predicate Covers(ts: seq<string>, es: seq<Entry>)
  {
    && (forall i :: 0 <= i < |es| ==> es[i].word in ts)
    && (forall k :: 0 <= k < |ts| ==> ts[k] in Words(es))
  }

  predicate CountsOccurrences(ts: seq<string>, es: seq<Entry>)
  {
    forall i :: 0 <= i < |es| ==> es[i].count == Occurrences(ts, es[i].word)
  }

  predicate InFirstOccurrenceOrder(ts: seq<string>, es: seq<Entry>)
    requires Covers(ts, es)
  {
    forall i, j :: 0 <= i < j < |es| ==> FirstIndex(ts, es[i].word) < FirstIndex(ts, es[j].word)
  }

  /** What the counter holds: each token once, in order of first occurrence, with its
      number of occurrences; the counts add up to the number of tokens. */
  predicate Counts(ts: seq<string>, es: seq<Entry>)
  {
    && DistinctWords(es)
    && Covers(ts, es)
    && CountsOccurrences(ts, es)
    && InFirstOccurrenceOrder(ts, es)
    && Total(es) == |ts|
  }

  lemma {:induction false} CountWordsCounts(ts: seq<string>)
    ensures Counts(ts, CountWords(ts))
    decreases |ts|
  {
    if ts != [] {
      var pre, w := ts[..|ts| - 1], ts[|ts| - 1];
      assert ts == pre + [w];
      CountWordsCounts(pre);
      var es := CountWords(pre);
      BumpDistinct(es, w);
      BumpCovers(pre, es, w);
      BumpOccurrences(pre, es, w);
      BumpOrder(pre, es, w);
      BumpTotal(es, w);
    }
  }

  lemma BumpWords(es: seq<Entry>, w: string)
    ensures |Bump(es, w)| == |es| + (if w in Words(es) then 0 else 1)
    ensures forall i :: 0 <= i < |es| ==> Bump(es, w)[i].word == es[i].word
    ensures w !in Words(es) ==> Bump(es, w)[|es|] == Entry(w, 1)
    ensures Words(Bump(es, w)) == if w in Words(es) then Words(es) else Words(es) + [w]
  {
    if w in Words(es) {
      assert Words(Bump(es, w)) == Words(es);
    } else {
      assert Words(Bump(es, w)) == Words(es) + [w];
    }
  }

  lemma BumpDistinct(es: seq<Entry>, w: string)
    requires DistinctWords(es)
    ensures DistinctWords(Bump(es, w))
  {
    BumpWords(es, w);
  }

  lemma BumpCovers(pre: seq<string>, es: seq<Entry>, w: string)
    requires Covers(pre, es)
    ensures Covers(pre + [w], Bump(es, w))
  {
    var ts := pre + [w];
    BumpWords(es, w);
    forall k | 0 <= k < |ts| ensures ts[k] in Words(Bump(es, w)) {
      if k < |pre| { assert ts[k] == pre[k]; }
    }
  }

  lemma OccurrencesAppend(pre: seq<string>, w: string, x: string)
    ensures Occurrences(pre + [w], x) == Occurrences(pre, x) + (if w == x then 1 else 0)
  {
    assert (pre + [w])[..|pre|] == pre;
  }

  lemma BumpOccurrences(pre: seq<string>, es: seq<Entry>, w: string)
    requires DistinctWords(es) && Covers(pre, es) && CountsOccurrences(pre, es)
    ensures CountsOccurrences(pre + [w], Bump(es, w))
  {
    var es' := Bump(es, w);
    BumpWords(es, w);
    forall j | 0 <= j < |es'| ensures es'[j].count == Occurrences(pre + [w], es'[j].word) {
      OccurrencesAppend(pre, w, es'[j].word);
      if w in Words(es) {
        var i := FirstIndex(Words(es), w);
        if j != i {
          assert es'[j] == es[j];
          assert es[j].word != es[i].word;
        }
      } else if j < |es| {
        assert es'[j] == es[j];
        assert es[j].word in Words(es);
      } else {
        assert w !in pre;
      }
    }
  }

  lemma BumpOrder(pre: seq<string>, es: seq<Entry>, w: string)
    requires Covers(pre, es) && InFirstOccurrenceOrder(pre, es)
    ensures Covers(pre + [w], Bump(es, w))
    ensures InFirstOccurrenceOrder(pre + [w], Bump(es, w))
  {
    var ts := pre + [w];
    var es' := Bump(es, w);
    BumpCovers(pre, es, w);
    BumpWords(es, w);
    assert ts[..|pre|] == pre;
    forall i | 0 <= i < |es| ensures FirstIndex(ts, es'[i].word) == FirstIndex(pre, es[i].word) {
      assert es'[i].word == es[i].word;
    }
    if w !in Words(es) {
      assert w !in pre;
      assert FirstIndex(ts, w) == |pre|;
    }
  }

  lemma BumpTotal(es: seq<Entry>, w: string)
    ensures Total(Bump(es, w)) == Total(es) + 1
  {
    if w in Words(es) {
      var i := FirstIndex(Words(es), w);
      TotalAfterIncrement(es, i, Entry(w, es[i].count + 1));
    } else {
      assert (es + [Entry(w, 1)])[..|es|] == es;
    }
  }

  // ---------------------------------------------------------------------------
  // Rendering: one `word: count` line per counter item, in the counter's order.

  function Line(e: Entry): string
  {
    e.word + ": " + NatToString(e.count) + "\n"
  }

  function Render(es: seq<Entry>): string
  {
    if es == [] then "" else Line(es[0]) + Render(es[1..])
  }

  /** The summary that `process_txt_file` writes for the text of its input file. */
  function WordSummary(text: string): string
  {
    Render(CountWords(Tokens(Lower(text))))
  }

  /** Writing the lines one after another builds the rendering of the whole counter. */
  lemma {:induction false} RenderAppend(es: seq<Entry>, e: Entry)
    ensures Render(es + [e]) == Render(es) + Line(e)
    decreases |es|
  {
    if es == [] {
      assert [e][1..] == [];
    } else {
      assert (es + [e])[1..] == es[1..] + [e];
      RenderAppend(es[1..], e);
    }
  }

  // ---------------------------------------------------------------------------
  // Reading a summary back.

  /** Reads one `word: count` line; gives the entry and the number of characters read. */
  function ParseLine(s: string): (r: Option<(Entry, nat)>)
    ensures r.Some? ==> 0 < r.value.1 <= |s|
  {
    var n := Span(IsWordChar, s);
    if n == 0 || |s| < n + 2 || s[n] != ':' || s[n + 1] != ' ' then None
    else
      var count := ReadCount(s[n + 2..]);
      if count.None? then None else Some((Entry(s[..n], count.value.0), n + 2 + count.value.1))
  }

  /** Reads a whole summary as a sequence of lines. */
  function ParseWordSummary(s: string): Option<seq<Entry>>
    decreases |s|
  {
    if s == [] then Some([])
    else
      match ParseLine(s)
      case None => None
      case Some((e, k)) =>
        match ParseWordSummary(s[k..])
        case None => None
        case Some(es) => Some([e] + es)
  }

  /** A word, `": "`, then a numeral line reads back as one entry. */
  lemma ParseLineParts(w: string, d: string, rest: string, c: nat)
    requires IsWord(w)
    requires ReadCount(d + "\n" + rest) == Some((c, |d| + 1))
    ensures ParseLine(w + ": " + d + "\n" + rest) == Some((Entry(w, c), |w + ": " + d + "\n"|))
  {
    var tail := d + "\n" + rest;
    var after := ": " + tail;
    var s := w + ": " + d + "\n" + rest;
    LineShape(w, d, rest);
    SpanOfPrefix(IsWordChar, w, after);
    var n := |w|;
    assert s[..n] == w;
    assert s[n..] == after;
    assert after[..2] == ": " && after[2..] == tail;
    assert s[n..n + 2] == after[..2];
    assert s[n + 2..] == after[2..];
    assert ReadCount(s[n + 2..]) == ReadCount(tail);
    ParseLineFrom(s, n, c, |d| + 1);
  }

  /** `ParseLine` on a text already cut into a word, `": "` and a numeral line. */
  lemma ParseLineFrom(s: string, n: nat, c: nat, k: nat)
    requires 0 < n && Span(IsWordChar, s) == n && |s| >= n + 2 && s[n] == ':' && s[n + 1] == ' '
    requires ReadCount(s[n + 2..]) == Some((c, k))
    ensures ParseLine(s) == Some((Entry(s[..n], c), n + 2 + k))
  {
    var r := ParseLine(s);
    assert r.Some? && r.value.0.word == s[..n] && r.value.0.count == c && r.value.1 == n + 2 + k;
    SomeEntryOf(r, Entry(s[..n], c), n + 2 + k);
  }

  /** An optional entry-and-length pair, compared field by field. */
  lemma SomeEntryOf(r: Option<(Entry, nat)>, e: Entry, k: nat)
    requires r.Some? && r.value.0.word == e.word && r.value.0.count == e.count && r.value.1 == k
    ensures r == Some((e, k))
  {
  }

  lemma ParseLineOf(e: Entry, rest: string)
    requires IsWord(e.word)
    ensures ParseLine(Line(e) + rest) == Some((e, |Line(e)|))
  {
    var w, d := e.word, NatToString(e.count);
    ReadCountOf(e.count, rest);
    ParseLineParts(w, d, rest, e.count);
    assert Line(e) == w + ": " + d + "\n";
    assert ParseLine(Line(e) + rest) == ParseLine(w + ": " + d + "\n" + rest);
  }

  lemma LineShape(w: string, d: string, rest: string)
    ensures w + ": " + d + "\n" + rest == w + (": " + (d + "\n" + rest))
    ensures |w + ": " + d + "\n"| == |w| + 2 + (|d| + 1)
  {
  }

  /** One more line in front of a readable summary. */
  lemma ParseWordSummaryStep(e: Entry, rest: string, es: seq<Entry>)
    requires IsWord(e.word) && ParseWordSummary(rest) == Some(es)
    ensures ParseWordSummary(Line(e) + rest) == Some([e] + es)
  {
    ParseLineOf(e, rest);
    var s := Line(e) + rest;
    assert s[|Line(e)|..] == rest;
    assert ParseWordSummary(s[|Line(e)|..]) == ParseWordSummary(rest);
  }

  /** The inductive step of `ParseRender`. */
  lemma ParseRenderStep(es: seq<Entry>)
    requires es != [] && IsWord(es[0].word)
    requires ParseWordSummary(Render(es[1..])) == Some(es[1..])
    ensures ParseWordSummary(Render(es)) == Some(es)
  {
    ParseWordSummaryStep(es[0], Render(es[1..]), es[1..]);
    assert [es[0]] + es[1..] == es;
    assert Render(es) == Line(es[0]) + Render(es[1..]);
    assert ParseWordSummary(Render(es)) == ParseWordSummary(Line(es[0]) + Render(es[1..]));
  }

  /** A rendered counter reads back as the same counter. */
  lemma {:induction false} ParseRender(es: seq<Entry>)
    requires forall i :: 0 <= i < |es| ==> IsWord(es[i].word)
    ensures ParseWordSummary(Render(es)) == Some(es)
    decreases |es|
  {
    if es != [] {
      ParseRender(es[1..]);
      ParseRenderStep(es);
    }
  }

  // ---------------------------------------------------------------------------
  // Properties of the summary.

  /** The summary lists exactly the counter of the lower-cased tokens, one line each:
      every listed word is a lower-case token, each distinct token appears once, in
      order of first occurrence, with its number of occurrences. */
  lemma WordSummaryReadsBack(text: string)
    ensures var ts := Tokens(Lower(text));
      && ParseWordSummary(WordSummary(text)) == Some(CountWords(ts))
      && Counts(ts, CountWords(ts))
      && (forall k, j :: 0 <= k < |ts| && 0 <= j < |ts[k]| ==> IsWordChar(ts[k][j]) && !IsUpper(ts[k][j]))
  {
    var ts := Tokens(Lower(text));
    CountWordsCounts(ts);
    TokensOfLowerText(Lower(text));
    ParseRender(CountWords(ts));
  }

  /** The summary is empty exactly when the text has no word character. */
  lemma EmptySummaryIffNoWords(text: string)
    ensures WordSummary(text) == "" <==> NoWordChar(text)
  {
    var ts := Tokens(Lower(text));
    NoTokensIffNoWordChar(Lower(text));
    assert NoWordChar(Lower(text)) <==> NoWordChar(text) by {
      assert forall i :: 0 <= i < |text| ==> Lower(text)[i] == LowerChar(text[i]);
    }
    CountWordsCounts(ts);
    if ts != [] {
      assert ts[0] in Words(CountWords(ts));
      assert CountWords(ts) != [];
    }
  }

  /** Case does not matter: a text and its lower-case form have the same summary. */
  lemma SummaryIgnoresCase(text: string)
    ensures WordSummary(Lower(text)) == WordSummary(text)
  {
    LowerIdempotent(text);
  }

  /** A word followed by separators is the first token; scanning resumes after them. */
  lemma TokensAfterWord(w: string, sep: string, rest: string)
    requires IsWord(w) && |sep| > 0 && NoWordChar(sep)
    ensures Tokens(w + sep + rest) == [w] + Tokens(rest)
  {
    var s := w + sep + rest;
    assert s == w + (sep + rest);
    SpanOfPrefix(IsWordChar, w, sep + rest);
    assert s[..|w|] == w;
    assert s[|w|..] == sep + rest;
    SkipSeparators(sep, rest);
  }

  /** Leading non-word characters produce no token. */
  lemma {:induction false} SkipSeparators(sep: string, rest: string)
    requires NoWordChar(sep)
    ensures Tokens(sep + rest) == Tokens(rest)
    decreases |sep|
  {
    if sep != [] {
      var s := sep + rest;
      assert s[0] == sep[0] && !IsWordChar(s[0]);
      assert s[1..] == sep[1..] + rest;
      assert Tokens(s) == Tokens(s[1..]);
      SkipSeparators(sep[1..], rest);
    } else {
      assert sep + rest == rest;
    }
  }

  // The worked example: "The cat sat. The dog sat." gives the lines
  // `the: 2`, `cat: 1`, `sat: 2`, `dog: 1`, in order of first occurrence.

  lemma ExampleLower(text: string)
    requires text == "The cat sat. The dog sat."
    ensures Lower(text) == "the cat sat. the dog sat."
  {
  }

  lemma ExampleTokens(text: string)
    requires text == "the cat sat. the dog sat."
    ensures Tokens(text) == ["the", "cat", "sat", "the", "dog", "sat"]
  {
    ExampleTextShape(text);
    ExampleWordsAndGaps();
    ExampleTokenChain(text, "the", "cat", "sat", "dog", " ", ". ", ".");
  }

  lemma ExampleTextShape(text: string)
    requires text == "the cat sat. the dog sat."
    ensures text == "the" + " " + ("cat" + " " + ("sat" + ". " + ("the" + " " + ("dog" + " " + ("sat" + "." + [])))))
  {
  }

  lemma ExampleWordsAndGaps()
    ensures IsWord("the") && IsWord("cat") && IsWord("sat") && IsWord("dog")
    ensures NoWordChar(" ") && NoWordChar(". ") && NoWordChar(".")
  {
  }

  /** Two sentences of three words each. */
  lemma ExampleTokenChain(text: string, the: string, cat: string, sat: string, dog: string, sp: string, dotSp: string, dot: string)
    requires IsWord(the) && IsWord(cat) && IsWord(sat) && IsWord(dog)
    requires |sp| > 0 && NoWordChar(sp) && |dotSp| > 0 && NoWordChar(dotSp) && |dot| > 0 && NoWordChar(dot)
    requires text == the + sp + (cat + sp + (sat + dotSp + (the + sp + (dog + sp + (sat + dot + [])))))
    ensures Tokens(text) == [the, cat, sat, the, dog, sat]
  {
    var second := the + sp + (dog + sp + (sat + dot + []));
    ThreeTokens(the, sp, dog, sp, sat, dot, []);
    assert Tokens([]) == [];
    ThreeTokens(the, sp, cat, sp, sat, dotSp, second);
  }

  lemma ThreeTokens(a: string, s1: string, b: string, s2: string, c: string, s3: string, rest: string)
    requires IsWord(a) && IsWord(b) && IsWord(c)
    requires |s1| > 0 && NoWordChar(s1) && |s2| > 0 && NoWordChar(s2) && |s3| > 0 && NoWordChar(s3)
    ensures Tokens(a + s1 + (b + s2 + (c + s3 + rest))) == [a, b, c] + Tokens(rest)
  {
    TokensAfterWord(c, s3, rest);
    TokensAfterWord(b, s2, c + s3 + rest);
    TokensAfterWord(a, s1, b + s2 + (c + s3 + rest));
  }

  lemma ExampleCounts()
    ensures CountWords(["the", "cat", "sat", "the", "dog", "sat"]) == [Entry("the", 2), Entry("cat", 1), Entry("sat", 2), Entry("dog", 1)]
  {
    CountsOfTwoSentences("the", "cat", "sat", "dog");
  }

  /** Counting one more token is bumping its entry. */
  lemma CountWordsSnoc(ts: seq<string>, w: string)
    ensures CountWords(ts + [w]) == Bump(CountWords(ts), w)
  {
    assert (ts + [w])[..|ts|] == ts;
  }

  /** A first sentence `a b c` of three distinct words. */
  lemma CountsOfOneSentence(a: string, b: string, c: string)
    requires a != b && a != c && b != c
    ensures CountWords([a, b, c]) == [Entry(a, 1), Entry(b, 1), Entry(c, 1)]
  {
    CountWordsSnoc([], a);
    assert [] + [a] == [a];
    assert Words([]) == [];
    assert CountWords([a]) == [Entry(a, 1)];
    CountWordsSnoc([a], b);
    assert [a] + [b] == [a, b];
    assert Words([Entry(a, 1)]) == [a];
    assert CountWords([a, b]) == [Entry(a, 1), Entry(b, 1)];
    CountWordsSnoc([a, b], c);
    assert [a, b] + [c] == [a, b, c];
    assert Words([Entry(a, 1), Entry(b, 1)]) == [a, b];
  }

  /** The first word again: its entry goes up to 2. */
  lemma CountsOfRepeat(a: string, b: string, c: string)
    requires a != b && a != c && b != c
    ensures CountWords([a, b, c, a]) == [Entry(a, 2), Entry(b, 1), Entry(c, 1)]
  {
    var e3 := [Entry(a, 1), Entry(b, 1), Entry(c, 1)];
    CountsOfOneSentence(a, b, c);
    CountWordsSnoc([a, b, c], a);
    assert [a, b, c] + [a] == [a, b, c, a];
    assert Words(e3) == [a, b, c];
    assert FirstIndex(Words(e3), a) == 0;
  }

  /** Then a new word `d`: a fourth entry. */
  lemma CountsOfNewWord(a: string, b: string, c: string, d: string)
    requires a != b && a != c && a != d && b != c && b != d && c != d
    ensures CountWords([a, b, c, a, d]) == [Entry(a, 2), Entry(b, 1), Entry(c, 1), Entry(d, 1)]
  {
    var e4 := [Entry(a, 2), Entry(b, 1), Entry(c, 1)];
    CountsOfRepeat(a, b, c);
    CountWordsSnoc([a, b, c, a], d);
    assert [a, b, c, a] + [d] == [a, b, c, a, d];
    assert Words(e4) == [a, b, c];
  }

  /** Two sentences `a b c` and `a d c` over four distinct words. */
  lemma CountsOfTwoSentences(a: string, b: string, c: string, d: string)
    requires a != b && a != c && a != d && b != c && b != d && c != d
    ensures CountWords([a, b, c, a, d, c]) == [Entry(a, 2), Entry(b, 1), Entry(c, 2), Entry(d, 1)]
  {
    var e5 := [Entry(a, 2), Entry(b, 1), Entry(c, 1), Entry(d, 1)];
    CountsOfNewWord(a, b, c, d);
    CountWordsSnoc([a, b, c, a, d], c);
    assert [a, b, c, a, d] + [c] == [a, b, c, a, d, c];
    assert Words(e5) == [a, b, c, d];
    assert FirstIndex(Words(e5), c) == 2;
  }

  lemma ExampleRender(es: seq<Entry>)
    requires es == [Entry("the", 2), Entry("cat", 1), Entry("sat", 2), Entry("dog", 1)]
    ensures Render(es) == "the: 2\n" + "cat: 1\n" + "sat: 2\n" + "dog: 1\n"
  {
    RenderOfFour(es);
    ExampleLines();
  }

  lemma RenderOfFour(es: seq<Entry>)
    requires |es| == 4
    ensures Render(es) == Line(es[0]) + Line(es[1]) + Line(es[2]) + Line(es[3])
  {
    assert Render(es[3..]) == Line(es[3]) + Render(es[4..]);
    assert Render(es[2..]) == Line(es[2]) + Render(es[3..]);
    assert Render(es[1..]) == Line(es[1]) + Render(es[2..]);
  }

  lemma ExampleLines()
    ensures Line(Entry("the", 2)) == "the: 2\n" && Line(Entry("cat", 1)) == "cat: 1\n"
    ensures Line(Entry("sat", 2)) == "sat: 2\n" && Line(Entry("dog", 1)) == "dog: 1\n"
  {
    assert NatToString(1) == "1" && NatToString(2) == "2";
  }

  lemma Example(text: string)
    requires text == "The cat sat. The dog sat."
    ensures WordSummary(text) == "the: 2\n" + "cat: 1\n" + "sat: 2\n" + "dog: 1\n"
  {
    ExampleLower(text);
    ExampleTokens(Lower(text));
    ExampleCounts();
    ExampleRender(CountWords(Tokens(Lower(text))));
  }
}
