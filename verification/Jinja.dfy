/** Placeholders for template tokens: conversion/workload_converter.py, _jinja_substitute and _jinja_restore. */
module Jinja {

  const MARK := "__J_"

  // ----- placeholders

  function Digit(d: nat): char
    requires d < 10
  {
    "0123456789"[d]
  }

  function Decimal(n: nat): (s: string)
    ensures s != ""
  {
    (if n < 10 then "" else Decimal(n / 10)) + [Digit(n % 10)]
  }

  function Placeholder(idx: nat): string {
    "\"" + MARK + Decimal(idx) + "__\""
  }

  // ----- the program

  /** A matched span of the text; a quoted one includes its quotes. */
  datatype Span = Span(start: nat, end: nat, quoted: bool)

  datatype Token = Token(original: string, wasQuoted: bool)

  function SourceOf(token: Token): string {
    if token.wasQuoted then "\"" + token.original + "\"" else token.original
  }

  /** Matches are not empty, in order and disjoint, and a quoted one starts and ends with its quotes. */
  ghost predicate ValidSpans(text: string, spans: seq<Span>, from: nat) {
    && from <= |text|
    && (spans != [] ==>
          && from <= spans[0].start < spans[0].end <= |text|
          && (spans[0].quoted ==>
                spans[0].end - spans[0].start >= 2
                && text[spans[0].start] == '"' && text[spans[0].end - 1] == '"')
          && ValidSpans(text, spans[1..], spans[0].end))
  }

  function TokenOf(text: string, span: Span): Token
    requires span.start < span.end <= |text| && (span.quoted ==> span.end - span.start >= 2)
  {
    if span.quoted then Token(text[span.start + 1..span.end - 1], true) else Token(text[span.start..span.end], false)
  }

  /** The leftmost, non-overlapping replacement of Python strings. */
  function ReplaceAll(s: string, pattern: string, sub: string): string
    requires pattern != ""
    decreases |s|
  {
    if s == "" then s
    else if pattern <= s then sub + ReplaceAll(s[|pattern|..], pattern, sub)
    else [s[0]] + ReplaceAll(s[1..], pattern, sub)
  }

  method Substitute(text: string, spans: seq<Span>) returns (modified: string, tokens: seq<Token>)
    requires ValidSpans(text, spans, 0)
    ensures modified == Text(Split(text, spans, 0, 0))
    ensures tokens == Tokens(text, spans, 0)
  {
    modified, tokens := "", [];
    var from: nat := 0;
    for k := 0 to |spans|
      invariant ValidSpans(text, spans[k..], from) && |tokens| == k
      invariant modified + Text(Split(text, spans[k..], from, k)) == Text(Split(text, spans, 0, 0))
      invariant tokens + Tokens(text, spans[k..], from) == Tokens(text, spans, 0)
    {
      hide Placeholder, Text, Split, Tokens;
      var span := spans[k];
      NextMatch(text, spans, from, k, modified, tokens);
      var replacement := Placeholder(|tokens|);
      modified := modified + text[from..span.start] + replacement;
      tokens := tokens + [TokenOf(text, span)];
      from := span.end;
    }
    modified := modified + text[from..];
  }

  lemma {:induction false} NextMatch(text: string, spans: seq<Span>, from: nat, k: nat, modified: string,
                                     tokens: seq<Token>)
    requires k < |spans| && ValidSpans(text, spans[k..], from)
    ensures var span := spans[k];
            && ValidSpans(text, spans[k + 1..], span.end)
            && modified + Text(Split(text, spans[k..], from, k))
               == modified + text[from..span.start] + Placeholder(k)
                 + Text(Split(text, spans[k + 1..], span.end, k + 1))
            && tokens + Tokens(text, spans[k..], from)
               == tokens + [TokenOf(text, span)] + Tokens(text, spans[k + 1..], span.end)
  {
    hide Placeholder;
    assert spans[k..][1..] == spans[k + 1..];
  }

  method Restore(jsonText: string, tokens: seq<Token>) returns (text: string)
    ensures text == Restored(jsonText, tokens, |tokens|)
  {
    text := jsonText;
    for idx := 0 to |tokens|
      invariant text == Restored(jsonText, tokens, idx)
    {
      if tokens[idx].wasQuoted {
        text := ReplaceAll(text, Placeholder(idx), "\"" + tokens[idx].original + "\"");
      } else {
        text := ReplaceAll(text, Placeholder(idx), tokens[idx].original);
      }
    }
  }

  function Restored(jsonText: string, tokens: seq<Token>, n: nat): string
    requires n <= |tokens|
  {
    if n == 0 then jsonText
    else ReplaceAll(Restored(jsonText, tokens, n - 1), Placeholder(n - 1), SourceOf(tokens[n - 1]))
  }

  /** What placeholders look like. */
  lemma {:induction false} PlaceholderIs()
    ensures Placeholder(0) == "\"__J_0__\"" && Placeholder(12) == "\"__J_12__\""
  {
    assert Decimal(0) == "0" && Decimal(1) == "1";
    assert Decimal(12) == Decimal(1) + "2";
  }

  /** The k-th token is the k-th match, its quotes apart. */
  lemma {:induction false} TokenAt(text: string, spans: seq<Span>, from: nat, k: nat)
    requires ValidSpans(text, spans, from) && k < |spans|
    ensures var span, token := spans[k], Tokens(text, spans, from)[k];
            && token.wasQuoted == span.quoted && span.start < span.end <= |text|
            && text[span.start..span.end] == if span.quoted then "\"" + token.original + "\"" else token.original
    decreases |spans|
  {
    if k > 0 {
      TokenAt(text, spans[1..], spans[0].end, k - 1);
    } else {
      assert ValidSpans(text, [spans[0]], 0) by {
        assert [spans[0]][1..] == [];
      }
      SourceOfMatch(text, spans[0]);
    }
  }

  // ----- texts with holes

  /** Literal pieces with numbered holes between them. */
  datatype Doc = End(lit: string) | Hole(lit: string, idx: nat, rest: Doc)

  /** The text with a placeholder in every hole. */
  function Text(doc: Doc): string {
    match doc
    case End(lit) => lit
    case Hole(lit, idx, rest) => lit + (Placeholder(idx) + Text(rest))
  }

  /** The text with the tokens in the holes. */
  function Meant(doc: Doc, tokens: seq<Token>): string
    requires HolesBelow(doc, |tokens|)
  {
    match doc
    case End(lit) => lit
    case Hole(lit, idx, rest) => lit + (SourceOf(tokens[idx]) + Meant(rest, tokens))
  }

  predicate HolesBelow(doc: Doc, n: nat) {
    doc.Hole? ==> doc.idx < n && HolesBelow(doc.rest, n)
  }

  function Split(text: string, spans: seq<Span>, from: nat, idx: nat): Doc
    requires ValidSpans(text, spans, from)
    decreases |spans|
  {
    if spans == [] then End(text[from..])
    else Hole(text[from..spans[0].start], idx, Split(text, spans[1..], spans[0].end, idx + 1))
  }

  function Tokens(text: string, spans: seq<Span>, from: nat): (tokens: seq<Token>)
    requires ValidSpans(text, spans, from)
    ensures |tokens| == |spans|
    decreases |spans|
  {
    if spans == [] then [] else [TokenOf(text, spans[0])] + Tokens(text, spans[1..], spans[0].end)
  }

  function Prepend(s: string, doc: Doc): Doc {
    match doc
    case End(lit) => End(s + lit)
    case Hole(lit, idx, rest) => Hole(s + lit, idx, rest)
  }

  /** All holes with one number filled; the pieces around them grow together. */
  function Fill(doc: Doc, i: nat, sub: string): Doc {
    match doc
    case End(_) => doc
    case Hole(lit, idx, rest) =>
      if idx == i then Prepend(lit + sub, Fill(rest, i, sub)) else Hole(lit, idx, Fill(rest, i, sub))
  }

  // ----- no marker but in the placeholders

  ghost predicate MarkAt(s: string, p: int) {
    0 <= p <= |s| - 4 && s[p..p + 4] == MARK
  }

  ghost predicate NoMark(s: string) {
    forall p :: !MarkAt(s, p)
  }

  ghost predicate Clean(doc: Doc) {
    NoMark(doc.lit) && (doc.Hole? ==> Clean(doc.rest))
  }

  lemma {:induction false} PartHasNoMark(s: string, a: string, b: string, c: string)
    requires s == a + (b + c) && NoMark(s)
    ensures NoMark(b) && NoMark(b + c)
  {
    forall p ensures !MarkAt(b, p) && !MarkAt(b + c, p) {
      assert !MarkAt(s, |a| + p);
      if 0 <= p <= |b + c| - 4 {
        assert (b + c)[p..p + 4] == s[|a| + p..|a| + p + 4];
      }
      if 0 <= p <= |b| - 4 {
        assert b[p..p + 4] == (b + c)[p..p + 4];
      }
    }
  }

  /** If the finished text has no marker, neither has any literal piece. */
  lemma {:induction false} CleanPieces(doc: Doc, tokens: seq<Token>)
    requires HolesBelow(doc, |tokens|) && NoMark(Meant(doc, tokens))
    ensures Clean(doc)
    decreases doc
  {
    match doc
    case End(_) =>
    case Hole(lit, idx, rest) =>
      var tail := Meant(rest, tokens);
      var s := Meant(doc, tokens);
      assert s == "" + (lit + (SourceOf(tokens[idx]) + tail));
      PartHasNoMark(s, "", lit, SourceOf(tokens[idx]) + tail);
      assert s == (lit + SourceOf(tokens[idx])) + (tail + "");
      PartHasNoMark(s, lit + SourceOf(tokens[idx]), tail, "");
      CleanPieces(rest, tokens);
  }

  // ----- decimals are prefix-free before an underscore

  lemma {:induction false} DecimalDigits(n: nat)
    ensures forall c :: c in Decimal(n) ==> '0' <= c <= '9'
  {
    if n >= 10 {
      DecimalDigits(n / 10);
    }
  }

  lemma {:induction false} DecimalInjective(m: nat, n: nat)
    requires Decimal(m) == Decimal(n)
    ensures m == n
  {
    var s := Decimal(m);
    assert s[|s| - 1] == Digit(m % 10) == Digit(n % 10);
    assert s[..|s| - 1] == (if m < 10 then "" else Decimal(m / 10)) == (if n < 10 then "" else Decimal(n / 10));
    if m >= 10 && n >= 10 {
      DecimalInjective(m / 10, n / 10);
    }
  }

  /** One placeholder starts another's text only if they are the same. */
  lemma {:induction false} PlaceholdersDiffer(i: nat, j: nat, tail: string)
    requires Placeholder(i) <= Placeholder(j) + tail
    ensures i == j
  {
    hide Decimal;
    var a, b := Decimal(i), Decimal(j);
    var x, y := "__\"", "__\"" + tail;
    assert Placeholder(i)[5..] == a + x;
    assert (Placeholder(j) + tail)[5..] == b + y;
    DecimalDigits(i);
    DecimalDigits(j);
    PrefixFree(a, x, b, y);
    DecimalInjective(i, j);
  }

  lemma {:induction false} PrefixFree(a: string, x: string, b: string, y: string)
    requires a + x <= b + y && x != "" && y != "" && x[0] == y[0] == '_'
    requires '_' !in a && '_' !in b
    ensures a == b
  {
    assert (a + x)[0] == (b + y)[0];
    assert (a != "" ==> (a + x)[0] in a) && (b != "" ==> (b + y)[0] in b);
    if a != "" && b != "" {
      assert (a + x)[1..] == a[1..] + x && (b + y)[1..] == b[1..] + y;
      PrefixFree(a[1..], x, b[1..], y);
      assert a == [a[0]] + a[1..] && b == [b[0]] + b[1..];
    }
  }

  // ----- one replacement

  /** A text that goes on with a placeholder or ends. */
  predicate Bounded(tail: string) {
    tail == "" || tail[0] == '"'
  }

  lemma {:induction false} NoMarkAhead(lit: string, tail: string)
    requires NoMark(lit) && Bounded(tail) && |lit + tail| >= 4
    ensures (lit + tail)[..4] != MARK
  {
    var s := lit + tail;
    if |lit| >= 4 {
      assert !MarkAt(lit, 0) && s[..4] == lit[0..0 + 4];
    } else {
      assert s[|lit|] == '"' && s[..4][|lit|] == s[|lit|];
      assert MARK[|lit|] != '"';
    }
  }

  lemma {:induction false} SkipChar(c: char, s: string, i: nat, sub: string)
    requires c != '"' || |s| < 4 || s[..4] != MARK
    ensures ReplaceAll([c] + s, Placeholder(i), sub) == [c] + ReplaceAll(s, Placeholder(i), sub)
  {
    var t := [c] + s;
    assert t[1..] == s;
    if Placeholder(i) <= t {
      NotHere(c, s, i);
    }
  }

  lemma {:induction false} NotHere(c: char, s: string, i: nat)
    requires Placeholder(i) <= [c] + s
    ensures c == '"' && |s| >= 4 && s[..4] == MARK
  {
    var t, p := [c] + s, Placeholder(i);
    assert c == t[0] == p[0];
    assert p[1..5] == MARK && p[1..5] == t[1..5] && t[1..5] == s[..4];
  }

  lemma {:induction false} SkipLiteral(lit: string, tail: string, i: nat, sub: string)
    requires NoMark(lit) && Bounded(tail)
    ensures ReplaceAll(lit + tail, Placeholder(i), sub) == lit + ReplaceAll(tail, Placeholder(i), sub)
  {
    hide ReplaceAll, NoMark, Placeholder;
    if lit == "" {
      assert lit + tail == tail;
    } else {
      var rest := lit[1..];
      assert lit == [lit[0]] + (rest + "");
      PartHasNoMark(lit, [lit[0]], rest, "");
      assert lit + tail == [lit[0]] + (rest + tail);
      if |rest + tail| >= 4 {
        NoMarkAhead(rest, tail);
      }
      SkipChar(lit[0], rest + tail, i, sub);
      SkipLiteral(rest, tail, i, sub);
    }
  }

  /** Inside a placeholder no occurrence can start, for want of a quote; nor at its closing quote, for want of a
      marker. */
  lemma {:induction false} SkipInside(inside: string, tail: string, i: nat, sub: string)
    requires '"' !in inside && (|tail| < 4 || tail[..4] != MARK)
    ensures ReplaceAll(inside + ("\"" + tail), Placeholder(i), sub)
            == inside + ("\"" + ReplaceAll(tail, Placeholder(i), sub))
  {
    if inside == "" {
      SkipChar('"', tail, i, sub);
      assert inside + ("\"" + tail) == ['"'] + tail;
    } else {
      assert inside + ("\"" + tail) == [inside[0]] + (inside[1..] + ("\"" + tail));
      SkipChar(inside[0], inside[1..] + ("\"" + tail), i, sub);
      SkipInside(inside[1..], tail, i, sub);
    }
  }

  lemma {:induction false} AtHole(j: nat, tail: string, i: nat, sub: string)
    requires |tail| < 4 || tail[..4] != MARK
    ensures ReplaceAll(Placeholder(j) + tail, Placeholder(i), sub)
         == (if i == j then sub else Placeholder(j)) + ReplaceAll(tail, Placeholder(i), sub)
  {
    hide Decimal;
    var s, p := Placeholder(j) + tail, Placeholder(i);
    if i == j {
      assert p <= s && s[|p|..] == tail;
    } else {
      var inside := MARK + Decimal(j) + "__";
      DecimalDigits(j);
      assert s == ['"'] + (inside + ("\"" + tail));
      if p <= s {
        PlaceholdersDiffer(i, j, tail);
      }
      assert s[1..] == inside + ("\"" + tail);
      SkipInside(inside, tail, i, sub);
      assert ['"'] + (inside + ("\"" + ReplaceAll(tail, p, sub))) == Placeholder(j) + ReplaceAll(tail, p, sub);
    }
  }

  lemma {:induction false} AfterHole(doc: Doc)
    requires Clean(doc)
    ensures |Text(doc)| < 4 || Text(doc)[..4] != MARK
  {
    var tail := if doc.End? then "" else Placeholder(doc.idx) + Text(doc.rest);
    assert Text(doc) == doc.lit + tail;
    if |Text(doc)| >= 4 {
      NoMarkAhead(doc.lit, tail);
    }
  }

  lemma {:induction false} TextOfPrepend(s: string, doc: Doc)
    ensures Text(Prepend(s, doc)) == s + Text(doc)
  {
  }

  /** In a clean text the replacement fills exactly the holes with this number. */
  lemma {:induction false} ReplaceFills(doc: Doc, i: nat, sub: string)
    requires Clean(doc)
    ensures ReplaceAll(Text(doc), Placeholder(i), sub) == Text(Fill(doc, i, sub))
    decreases doc
  {
    match doc
    case End(lit) =>
      SkipLiteral(lit, "", i, sub);
      assert lit + "" == lit;
    case Hole(lit, idx, rest) =>
      var tail := Placeholder(idx) + Text(rest);
      SkipLiteral(lit, tail, i, sub);
      AfterHole(rest);
      AtHole(idx, Text(rest), i, sub);
      ReplaceFills(rest, i, sub);
      if idx == i {
        TextOfPrepend(lit + sub, Fill(rest, i, sub));
      }
  }

  // ----- all replacements

  /** The holes with numbers below n filled with their tokens. */
  function FilledBelow(doc: Doc, tokens: seq<Token>, n: nat): Doc
    requires n <= |tokens|
  {
    if n == 0 then doc else Fill(FilledBelow(doc, tokens, n - 1), n - 1, SourceOf(tokens[n - 1]))
  }

  predicate NoHolesBelow(doc: Doc, n: nat) {
    doc.Hole? ==> doc.idx >= n && NoHolesBelow(doc.rest, n)
  }

  /** Filling a hole with its own token does not change what is meant. */
  lemma {:induction false} FillKeepsMeaning(doc: Doc, tokens: seq<Token>, i: nat)
    requires HolesBelow(doc, |tokens|) && i < |tokens| && NoHolesBelow(doc, i)
    ensures var d := Fill(doc, i, SourceOf(tokens[i]));
            HolesBelow(d, |tokens|) && NoHolesBelow(d, i + 1) && Meant(d, tokens) == Meant(doc, tokens)
    decreases doc
  {
    if doc.Hole? {
      FillKeepsMeaning(doc.rest, tokens, i);
      var rest := Fill(doc.rest, i, SourceOf(tokens[i]));
      if doc.idx == i {
        MeantOfPrepend(doc.lit + SourceOf(tokens[i]), rest, tokens, i + 1);
      }
    }
  }

  lemma {:induction false} MeantOfPrepend(s: string, doc: Doc, tokens: seq<Token>, n: nat)
    requires HolesBelow(doc, |tokens|) && NoHolesBelow(doc, n)
    ensures HolesBelow(Prepend(s, doc), |tokens|) && NoHolesBelow(Prepend(s, doc), n)
    ensures Meant(Prepend(s, doc), tokens) == s + Meant(doc, tokens)
  {
  }

  lemma {:induction false} RestoreStep(doc: Doc, tokens: seq<Token>, n: nat)
    requires HolesBelow(doc, |tokens|) && n <= |tokens| && NoMark(Meant(doc, tokens))
    ensures var d := FilledBelow(doc, tokens, n);
            && HolesBelow(d, |tokens|) && NoHolesBelow(d, n) && Meant(d, tokens) == Meant(doc, tokens)
            && Restored(Text(doc), tokens, n) == Text(d)
    decreases n
  {
    if n == 0 {
      NothingBelowZero(doc);
    } else {
      RestoreStep(doc, tokens, n - 1);
      var d := FilledBelow(doc, tokens, n - 1);
      FillKeepsMeaning(d, tokens, n - 1);
      CleanPieces(d, tokens);
      ReplaceFills(d, n - 1, SourceOf(tokens[n - 1]));
    }
  }

  lemma {:induction false} NothingBelowZero(doc: Doc)
    ensures NoHolesBelow(doc, 0)
    decreases doc
  {
    if doc.Hole? {
      NothingBelowZero(doc.rest);
    }
  }

  /** Whatever happened to the placeholders in between, dropped, doubled or put in another order: each one that is left
      gets back exactly its own token, provided the finished text has no marker of its own. */
  lemma {:induction false} SurvivorsGetTheirTokens(doc: Doc, tokens: seq<Token>)
    requires HolesBelow(doc, |tokens|) && NoMark(Meant(doc, tokens))
    ensures Restored(Text(doc), tokens, |tokens|) == Meant(doc, tokens)
  {
    RestoreStep(doc, tokens, |tokens|);
    var d := FilledBelow(doc, tokens, |tokens|);
    assert d.End?;
  }

  /** The finished text has no marker if no piece and no token has one and tokens begin and end with other characters
      than those of the marker, as template expressions do. */
  lemma {:induction false} TokensMakeNoMark(doc: Doc, tokens: seq<Token>)
    requires HolesBelow(doc, |tokens|) && Clean(doc)
    requires forall i :: 0 <= i < |tokens| ==> var t := SourceOf(tokens[i]);
               t != "" && NoMark(t) && t[0] !in {'_', 'J'} && t[|t| - 1] !in {'_', 'J'}
    ensures NoMark(Meant(doc, tokens))
    decreases doc
  {
    if doc.Hole? {
      var t, tail := SourceOf(tokens[doc.idx]), Meant(doc.rest, tokens);
      TokensMakeNoMark(doc.rest, tokens);
      NoMarkAcross(t, tail);
      NoMarkAcross(doc.lit, t + tail);
    }
  }

  lemma {:induction false} NoMarkAcross(a: string, b: string)
    requires NoMark(a) && NoMark(b)
    requires a == "" || b == "" || a[|a| - 1] !in {'_', 'J'} || b[0] !in {'_', 'J'}
    ensures NoMark(a + b)
  {
    forall p ensures !MarkAt(a + b, p) {
      NoMarkAcrossAt(a, b, p);
    }
  }

  lemma {:induction false} NoMarkAcrossAt(a: string, b: string, p: int)
    requires !MarkAt(a, p) && !MarkAt(b, p - |a|)
    requires a == "" || b == "" || a[|a| - 1] !in {'_', 'J'} || b[0] !in {'_', 'J'}
    ensures !MarkAt(a + b, p)
  {
    var s := a + b;
    if 0 <= p <= |s| - 4 {
      if p + 4 <= |a| {
        assert s[p..p + 4] == a[p..p + 4];
      } else if p >= |a| {
        assert s[p..p + 4] == b[p - |a|..p - |a| + 4];
      } else {
        var w, k := s[p..p + 4], |a| - 1 - p;
        assert w[k] == a[|a| - 1] && w[k + 1] == b[0];
        assert MARK[k] in {'_', 'J'} && MARK[k + 1] in {'_', 'J'};
      }
    }
  }

  // ----- the round trip

  lemma {:induction false} SplitMeansText(text: string, spans: seq<Span>, from: nat, tokens: seq<Token>, idx: nat)
    requires ValidSpans(text, spans, from)
    requires idx <= |tokens| && tokens[idx..] == Tokens(text, spans, from)
    ensures HolesBelow(Split(text, spans, from, idx), |tokens|)
    ensures Meant(Split(text, spans, from, idx), tokens) == text[from..]
    decreases |spans|
  {
    hide TokenOf, SourceOf;
    if spans != [] {
      var span := spans[0];
      assert tokens[idx + 1..] == tokens[idx..][1..];
      SplitMeansText(text, spans[1..], span.end, tokens, idx + 1);
      assert tokens[idx] == tokens[idx..][0] == TokenOf(text, span);
      SourceOfMatch(text, span);
      Reassemble(text, from, span.start, span.end);
    }
  }

  lemma {:induction false} SourceOfMatch(text: string, span: Span)
    requires ValidSpans(text, [span], 0)
    ensures SourceOf(TokenOf(text, span)) == text[span.start..span.end]
  {
  }

  lemma {:induction false} Reassemble(text: string, i: nat, j: nat, k: nat)
    requires i <= j <= k <= |text|
    ensures text[i..j] + (text[j..k] + text[k..]) == text[i..]
  {
  }

  /** Restoring undoes substituting, for every text without the marker and every set of disjoint matches. */
  lemma {:induction false} RestoreUndoesSubstitute(text: string, spans: seq<Span>)
    requires ValidSpans(text, spans, 0) && NoMark(text)
    ensures Restored(Text(Split(text, spans, 0, 0)), Tokens(text, spans, 0), |spans|) == text
  {
    assert Tokens(text, spans, 0)[0..] == Tokens(text, spans, 0) && text[0..] == text;
    SplitMeansText(text, spans, 0, Tokens(text, spans, 0), 0);
    SurvivorsGetTheirTokens(Split(text, spans, 0, 0), Tokens(text, spans, 0));
  }

  /** A text that already holds a placeholder is not restored: the placeholder is taken for the first token. */
  lemma {:induction false} MarkerIsTaken(token: string)
    requires token != "" && token[0] != '_'
    ensures var text := Placeholder(0) + token;
            var spans := [Span(|Placeholder(0)|, |text|, false)];
            && ValidSpans(text, spans, 0)
            && Restored(Text(Split(text, spans, 0, 0)), Tokens(text, spans, 0), 1) == token + token
            && (token != Placeholder(0) ==> token + token != text)
  {
    var p := Placeholder(0);
    var text := p + token;
    var spans := [Span(|p|, |text|, false)];
    TakenText(text, spans, p);
    assert text[|p|..|text|] == token && Tokens(text, spans, 0) == [Token(token, false)];
    assert p[..4] != MARK by {
      assert p[..4][0] == '"';
    }
    AtHole(0, "", 0, token);
    AtHole(0, p, 0, token);
    assert p + "" == p && token + "" == token;
    assert Restored(p + p, [Token(token, false)], 1) == ReplaceAll(Restored(p + p, [Token(token, false)], 0), p, token);
    if token + token == text {
      assert |token| == |p| && (token + token)[..|token|] == token && text[..|p|] == p;
    }
  }

  lemma {:induction false} TakenText(text: string, spans: seq<Span>, p: string)
    requires p == Placeholder(0) && p <= text && |p| < |text| && spans == [Span(|p|, |text|, false)]
    ensures ValidSpans(text, spans, 0) && Text(Split(text, spans, 0, 0)) == p + p
  {
    assert ValidSpans(text, [], |text|);
    assert text[0..|p|] == p && text[|text|..] == "" && p + "" == p;
    assert Split(text, spans, 0, 0) == Hole(p, 0, End(""));
  }
}
