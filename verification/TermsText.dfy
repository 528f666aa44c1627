/** The text of a terms clause: escaping of values and phrases in conversion/query.py, and reading the text back. */
module TermsText {

  // ----- writing

  /** The characters that mean something in Solr query syntax. */
  const RESERVED := "+-&&||!(){}[]^\"~*?:\\/"

  function EscapeChar(c: char): string {
    if c in RESERVED then ['\\', c] else [c]
  }

  function Escaped(value: string): string {
    if value == "" then "" else EscapeChar(value[0]) + Escaped(value[1..])
  }

  method EscapeSolrValue(value: string) returns (result: string)
    ensures result == Escaped(value)
  {
    result := "";
    for i := 0 to |value|
      invariant result + Escaped(value[i..]) == Escaped(value)
    {
      var c := value[i];
      assert Escaped(value[i..]) == EscapeChar(c) + Escaped(value[i + 1..]) by {
        assert value[i..][1..] == value[i + 1..];
      }
      assert result + (EscapeChar(c) + Escaped(value[i + 1..])) == result + EscapeChar(c) + Escaped(value[i + 1..]);
      if c in RESERVED {
        result := result + ['\\', c];
      } else {
        result := result + [c];
      }
    }
  }

  /** Replacing every occurrence of one character, as a string method does it. */
  function Replace(s: string, c: char, sub: string): string {
    if s == "" then "" else (if s[0] == c then sub else [s[0]]) + Replace(s[1..], c, sub)
  }

  function EscapeSolrPhrase(value: string): string {
    Replace(Replace(value, '\\', "\\\\"), '"', "\\\"")
  }

  function ClauseText(values: seq<string>): string {
    if values == [] then ""
    else TermText(values[0]) + if |values| == 1 then "" else " " + ClauseText(values[1..])
  }

  function TermText(value: string): string {
    if ' ' in value then "\"" + EscapeSolrPhrase(value) + "\"" else Escaped(value)
  }

  // ----- reading

  predicate Whitespace(c: char) {
    c == ' ' || c == '\t' || c == '\n' || c == '\r'
  }

  datatype Token = Value(text: string) | Operator(text: string)

  datatype Mode = Between | InWord | InPhrase

  function Word(text: string): Token {
    if text in {"AND", "OR", "NOT"} then Operator(text) else Value(text)
  }

  /** Words and quoted phrases between white space; a backslash makes the next character an ordinary one. */
  function Read(s: string, mode: Mode, acc: string): seq<Token>
    decreases |s|
  {
    if s == "" then
      if mode == InWord then [Word(acc)] else if mode == InPhrase then [Value(acc)] else []
    else if s[0] == '\\' && |s| > 1 then
      Read(s[2..], if mode == Between then InWord else mode, acc + [s[1]])
    else
      match mode
      case Between =>
        if Whitespace(s[0]) then Read(s[1..], Between, "")
        else if s[0] == '"' then Read(s[1..], InPhrase, "")
        else Read(s[1..], InWord, [s[0]])
      case InWord =>
        if Whitespace(s[0]) then [Word(acc)] + Read(s[1..], Between, "") else Read(s[1..], InWord, acc + [s[0]])
      case InPhrase =>
        if s[0] == '"' then [Value(acc)] + Read(s[1..], Between, "") else Read(s[1..], InPhrase, acc + [s[0]])
  }

  function Values(values: seq<string>): (tokens: seq<Token>)
    ensures |tokens| == |values|
  {
    seq(|values|, i requires 0 <= i < |values| => Value(values[i]))
  }

  // ----- what escaping achieves

  /** Both replacements together act on every character once. */
  function PhraseChar(c: char): string {
    if c == '\\' then "\\\\" else if c == '"' then "\\\"" else [c]
  }

  function EscapedPhrase(value: string): string {
    if value == "" then "" else PhraseChar(value[0]) + EscapedPhrase(value[1..])
  }

  lemma {:induction false} ReplaceSum(s: string, t: string, c: char, sub: string)
    ensures Replace(s + t, c, sub) == Replace(s, c, sub) + Replace(t, c, sub)
  {
    if s == "" {
      assert s + t == t;
    } else {
      assert (s + t)[1..] == s[1..] + t;
      ReplaceSum(s[1..], t, c, sub);
    }
  }

  /** The two replacements, one after the other, escape quotes and backslashes simultaneously. */
  lemma {:induction false} PhraseEscapeIsSimultaneous(value: string)
    ensures EscapeSolrPhrase(value) == EscapedPhrase(value)
  {
    if value != "" {
      var c := value[0];
      var first := if c == '\\' then "\\\\" else [c];
      PhraseEscapeIsSimultaneous(value[1..]);
      ReplaceSum(first, Replace(value[1..], '\\', "\\\\"), '"', "\\\"");
      assert Replace(first, '"', "\\\"") == PhraseChar(c) by {
        assert first[1..] == if c == '\\' then "\\" else "";
        assert c == '\\' ==> first[1..][1..] == "";
      }
    }
  }

  /** The characters that no backslash protects. */
  function Bare(s: string): string
    decreases |s|
  {
    if s == "" then ""
    else if s[0] == '\\' && |s| > 1 then Bare(s[2..])
    else [s[0]] + Bare(s[1..])
  }

  lemma {:induction false} NoBareReserved(value: string)
    ensures forall c :: c in Bare(Escaped(value)) ==> c !in RESERVED
  {
    if value != "" {
      NoBareReserved(value[1..]);
      var c, rest := value[0], Escaped(value[1..]);
      var s := EscapeChar(c) + rest;
      if c in RESERVED {
        assert s[0] == '\\' && s[2..] == rest;
      } else {
        assert s[0] == c != '\\' && s[1..] == rest;
      }
    }
  }

  /** The characters of Lucene's query syntax, and no others, are given a backslash. */
  lemma {:induction false} OnlySyntaxIsEscaped(value: string)
    ensures forall c :: c in Bare(Escaped(value)) ==> c !in "+-&|!(){}[]^\"~*?:\\/"
    ensures (forall c :: c in value ==> c !in "+-&|!(){}[]^\"~*?:\\/") ==> Escaped(value) == value
  {
    NoBareReserved(value);
    forall c ensures c in RESERVED <==> c in "+-&|!(){}[]^\"~*?:\\/" {
      SyntaxIsReserved(c);
    }
    if forall c :: c in value ==> c !in RESERVED {
      NothingToEscape(value);
    }
  }

  lemma {:induction false} SyntaxIsReserved(c: char)
    ensures c in RESERVED <==> c in "+-&|!(){}[]^\"~*?:\\/"
  {
    var a, b := RESERVED, "+-&|!(){}[]^\"~*?:\\/";
    assert a[..3] == b[..3] && a[4] == b[3] && a[6..] == b[4..] && a[3] == b[2] && a[5] == b[3];
    assert a == a[..3] + [a[3], a[4], a[5]] + a[6..] && b == b[..3] + [b[3]] + b[4..];
  }

  lemma {:induction false} NothingToEscape(value: string)
    requires forall c :: c in value ==> c !in RESERVED
    ensures Escaped(value) == value
  {
    if value != "" {
      assert forall c :: c in value[1..] ==> c in value;
      NothingToEscape(value[1..]);
      assert value[0] in value;
      assert [value[0]] + value[1..] == value;
    }
  }

  // ----- reading back

  /** A value that the clause text carries unharmed: it is not empty, and unless quotes protect it, it has no white
      space and is no operator word. */
  predicate Readable(value: string) {
    value != "" && (' ' in value || (value !in {"AND", "OR", "NOT"} && forall c :: c in value ==> !Whitespace(c)))
  }

  lemma {:induction false} ReadEscaped(c: char, rest: string, mode: Mode, acc: string)
    requires mode != InPhrase && !Whitespace(c)
    ensures Read(EscapeChar(c) + rest, mode, if mode == Between then "" else acc)
         == Read(rest, InWord, (if mode == Between then "" else acc) + [c])
  {
    var s := EscapeChar(c) + rest;
    if c in RESERVED {
      assert s[0] == '\\' && s[1] == c && s[2..] == rest;
    } else {
      assert s[0] == c && s[1..] == rest;
      assert "" + [c] == [c];
    }
  }

  lemma {:induction false} ReadWhitespace(c: char, rest: string, mode: Mode, acc: string)
    requires mode != InPhrase && Whitespace(c)
    ensures Read(EscapeChar(c) + rest, mode, acc)
            == (if mode == InWord then [Word(acc)] else []) + Read(rest, Between, "")
  {
    var s := EscapeChar(c) + rest;
    assert s[0] == c && s[1..] == rest;
  }

  /** A word without white space is read to its end. */
  lemma {:induction false} ReadWord(value: string, rest: string, acc: string)
    requires forall c :: c in value ==> !Whitespace(c)
    ensures Read(Escaped(value) + rest, InWord, acc) == Read(rest, InWord, acc + value)
  {
    if value == "" {
      assert Escaped(value) + rest == rest && acc + value == acc;
    } else {
      var tail := Escaped(value[1..]) + rest;
      assert Escaped(value) + rest == EscapeChar(value[0]) + tail;
      ReadEscaped(value[0], tail, InWord, acc);
      ReadWord(value[1..], rest, acc + [value[0]]);
      assert acc + [value[0]] + value[1..] == acc + value;
    }
  }

  /** A phrase is read to its closing quote, white space and all. */
  lemma {:induction false} ReadPhrase(value: string, rest: string, acc: string)
    ensures Read(EscapedPhrase(value) + ("\"" + rest), InPhrase, acc) == [Value(acc + value)] + Read(rest, Between, "")
  {
    var s := EscapedPhrase(value) + ("\"" + rest);
    if value == "" {
      assert s == "\"" + rest && s[1..] == rest && acc + value == acc;
    } else {
      var c, tail := value[0], EscapedPhrase(value[1..]) + ("\"" + rest);
      assert s == PhraseChar(c) + tail;
      ReadPhrase(value[1..], rest, acc + [c]);
      assert acc + [c] + value[1..] == acc + value;
      if c == '\\' || c == '"' {
        assert s[0] == '\\' && s[1] == c && s[2..] == tail;
      } else {
        assert s[0] == c && s[1..] == tail;
      }
    }
  }

  /** After a separator the reader starts afresh. */
  lemma {:induction false} ReadSeparated(value: string, rest: string, mode: Mode, acc: string)
    requires mode != InPhrase
    ensures Read(Escaped(value) + (" " + rest), mode, if mode == Between then "" else acc)
         == Read(Escaped(value), mode, if mode == Between then "" else acc) + Read(rest, Between, "")
    decreases value
  {
    hide Read;
    var acc' := if mode == Between then "" else acc;
    if value == "" {
      assert Escaped(value) + (" " + rest) == EscapeChar(' ') + rest;
      ReadWhitespace(' ', rest, mode, acc');
      ReadEnd(mode, acc');
    } else {
      var c, tail := value[0], Escaped(value[1..]);
      assert Escaped(value) + (" " + rest) == EscapeChar(c) + (tail + (" " + rest));
      if Whitespace(c) {
        ReadWhitespace(c, tail + (" " + rest), mode, acc');
        ReadWhitespace(c, tail, mode, acc');
        ReadSeparated(value[1..], rest, Between, "");
      } else {
        ReadEscaped(c, tail + (" " + rest), mode, acc');
        ReadEscaped(c, tail, mode, acc');
        ReadSeparated(value[1..], rest, InWord, acc' + [c]);
      }
    }
  }

  lemma {:induction false} TermSeparated(value: string, rest: string)
    ensures Read(TermText(value) + (" " + rest), Between, "")
            == Read(TermText(value), Between, "") + Read(rest, Between, "")
    ensures ' ' in value ==> Read(TermText(value), Between, "") == [Value(value)]
  {
    if ' ' in value {
      PhraseEscapeIsSimultaneous(value);
      QuotedTerm(value, " " + rest);
      QuotedTerm(value, "");
      assert TermText(value) + "" == TermText(value);
      assert (" " + rest)[1..] == rest;
    } else {
      ReadSeparated(value, rest, Between, "");
    }
  }

  lemma {:induction false} QuotedTerm(value: string, rest: string)
    requires ' ' in value
    ensures Read(TermText(value) + rest, Between, "") == [Value(value)] + Read(rest, Between, "")
  {
    hide Read, EscapeSolrPhrase, EscapedPhrase;
    PhraseEscapeIsSimultaneous(value);
    var body := EscapedPhrase(value) + ("\"" + rest);
    assert TermText(value) + rest == "\"" + body;
    OpenQuote(body);
    ReadPhrase(value, rest, "");
    assert "" + value == value;
  }

  lemma {:induction false} OpenQuote(body: string)
    ensures Read("\"" + body, Between, "") == Read(body, InPhrase, "")
  {
    assert ("\"" + body)[1..] == body;
  }

  lemma {:induction false} ReadableTerm(value: string)
    requires Readable(value)
    ensures Read(TermText(value), Between, "") == [Value(value)]
  {
    if ' ' in value {
      TermSeparated(value, "");
    } else {
      var tail := Escaped(value[1..]);
      ReadEscaped(value[0], tail, Between, "");
      ReadWord(value[1..], "", [value[0]]);
      assert tail + "" == tail && [value[0]] + value[1..] == value && "" + [value[0]] == [value[0]];
    }
  }

  /** Whatever the reader finds in an unquoted word is readable. */
  lemma {:induction false} FindsReadable(value: string, mode: Mode, acc: string)
    requires mode != InPhrase && ' ' !in value && ' ' !in acc
    requires (mode == InWord <==> acc != "") && forall c :: c in acc ==> !Whitespace(c)
    ensures forall t :: t in Read(Escaped(value), mode, acc) && t.Value? ==> Readable(t.text)
    decreases value
  {
    if value != "" {
      var c, tail := value[0], Escaped(value[1..]);
      if Whitespace(c) {
        ReadWhitespace(c, tail, mode, acc);
        FindsReadable(value[1..], Between, "");
      } else {
        ReadEscaped(c, tail, mode, acc);
        FindsReadable(value[1..], InWord, acc + [c]);
      }
    }
  }

  lemma {:induction false} FindsReadableTerm(value: string)
    ensures forall t :: t in Read(TermText(value), Between, "") && t.Value? ==> Readable(t.text)
  {
    if ' ' in value {
      TermSeparated(value, "");
    } else {
      FindsReadable(value, Between, "");
    }
  }

  lemma {:induction false} ReadEnd(mode: Mode, acc: string)
    requires mode != InPhrase
    ensures Read("", mode, acc) == if mode == InWord then [Word(acc)] else []
  {
  }

  lemma {:induction false} ClauseTokens(values: seq<string>)
    ensures forall t :: t in Read(ClauseText(values), Between, "") && t.Value? ==> Readable(t.text)
    ensures (forall i :: 0 <= i < |values| ==> Readable(values[i])) ==>
              Read(ClauseText(values), Between, "") == Values(values)
  {
    hide Read, TermText, Readable;
    ReadEnd(Between, "");
    if values != [] {
      var v, rest := values[0], values[1..];
      ClauseTokens(rest);
      TermSeparated(v, ClauseText(rest));
      FindsReadableTerm(v);
      if |values| == 1 {
        assert TermText(v) + "" == TermText(v);
      }
      if forall i :: 0 <= i < |values| ==> Readable(values[i]) {
        assert forall i :: 0 <= i < |rest| ==> rest[i] == values[i + 1];
        ReadableTerm(v);
        assert Values(values) == [Value(v)] + Values(rest);
      }
    }
  }

  /** The clause reads back as the list of its values iff every value is readable. */
  lemma {:induction false} ReadsBack(values: seq<string>)
    ensures Read(ClauseText(values), Between, "") == Values(values)
            <==> forall i :: 0 <= i < |values| ==> Readable(values[i])
  {
    ClauseTokens(values);
    if Read(ClauseText(values), Between, "") == Values(values) {
      forall i | 0 <= i < |values| ensures Readable(values[i]) {
        assert Values(values)[i] in Read(ClauseText(values), Between, "");
      }
    }
  }

  // ----- the terms parser of fq: values joined by commas

  function Join(values: seq<string>): string
    requires values != []
  {
    if |values| == 1 then values[0] else values[0] + "," + Join(values[1..])
  }

  function Split(s: string, acc: string): (parts: seq<string>)
    ensures parts != []
    decreases |s|
  {
    if s == "" then [acc]
    else if s[0] == ',' then [acc] + Split(s[1..], "")
    else Split(s[1..], acc + [s[0]])
  }

  lemma {:induction false} SplitPart(value: string, rest: string, acc: string)
    requires ',' !in value
    ensures Split(value + rest, acc) == Split(rest, acc + value)
  {
    if value == "" {
      assert value + rest == rest && acc + value == acc;
    } else {
      assert (value + rest)[1..] == value[1..] + rest;
      SplitPart(value[1..], rest, acc + [value[0]]);
      assert acc + [value[0]] + value[1..] == acc + value;
    }
  }

  lemma {:induction false} PartsHaveNoComma(s: string, acc: string)
    requires ',' !in acc
    ensures forall p :: p in Split(s, acc) ==> ',' !in p
    decreases |s|
  {
    if s != "" {
      if s[0] == ',' {
        PartsHaveNoComma(s[1..], "");
      } else {
        PartsHaveNoComma(s[1..], acc + [s[0]]);
      }
    }
  }

  lemma {:induction false} SplitJoined(values: seq<string>)
    requires values != [] && forall i :: 0 <= i < |values| ==> ',' !in values[i]
    ensures Split(Join(values), "") == values
  {
    var v := values[0];
    if |values| == 1 {
      SplitPart(v, "", "");
      assert v + "" == v && "" + v == v;
    } else {
      var tail := "," + Join(values[1..]);
      assert Join(values) == v + tail;
      SplitPart(v, tail, "");
      SplitJoined(values[1..]);
      assert tail[1..] == Join(values[1..]) && "" + v == v;
    }
  }

  /** A terms filter reaches Solr unharmed iff no value contains the comma that separates the values. */
  lemma {:induction false} TermsFilterReadsBack(values: seq<string>)
    requires values != []
    ensures Split(Join(values), "") == values <==> forall i :: 0 <= i < |values| ==> ',' !in values[i]
  {
    PartsHaveNoComma(Join(values), "");
    if forall i :: 0 <= i < |values| ==> ',' !in values[i] {
      SplitJoined(values);
    }
  }
}
