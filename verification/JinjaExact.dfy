/** When exactly restoring undoes substituting: a difference that a misplaced replacement makes is never made good. */
module JinjaExact {
  import opened Jinja

  // ----- occurrences

  predicate Occurs(pattern: string, s: string) {
    pattern <= s || (s != "" && Occurs(pattern, s[1..]))
  }

  /** What comes before the next quote, and the quote. */
  function UpToQuote(lit: string, tail: string): string {
    if tail == "" then lit else lit + "\""
  }

  /** A placeholder without its closing quote. */
  function Stem(i: nat): string {
    "\"" + MARK + Decimal(i) + "__"
  }

  lemma {:induction false} StemAndQuote(i: nat, tail: string)
    ensures Stem(i) + "\"" == Placeholder(i) && Stem(i) + ("\"" + tail) == Placeholder(i) + tail
    ensures Stem(i)[0] == '"' && Stem(i)[1] == '_' && '"' !in Stem(i)[1..] && |Stem(i)| > 5
  {
    DecimalDigits(i);
    var inside := MARK + Decimal(i) + "__";
    assert Stem(i)[1..] == inside;
    assert '"' !in MARK && '"' !in "__";
  }

  lemma {:induction false} NotFound(s: string, i: nat, sub: string)
    requires !Occurs(Placeholder(i), s)
    ensures ReplaceAll(s, Placeholder(i), sub) == s
  {
    hide Placeholder;
    if s != "" {
      NotFound(s[1..], i, sub);
      assert s == [s[0]] + s[1..];
    }
  }

  lemma {:induction false} NoQuoteInside(i: nat)
    ensures forall q :: 1 <= q < |Placeholder(i)| - 1 ==> Placeholder(i)[q] != '"'
  {
    StemAndQuote(i, "");
    var p := Placeholder(i);
    forall q | 1 <= q < |p| - 1 ensures p[q] != '"' {
      assert p[q] == Stem(i)[1..][q - 1];
    }
  }

  /** A placeholder that starts in a text with a quote behind it ends at that quote at the latest. */
  lemma {:induction false} EndsAtQuote(lit: string, tail: string, i: nat)
    requires lit != "" && Bounded(tail) && Placeholder(i) <= lit + tail
    ensures Placeholder(i) <= UpToQuote(lit, tail)
  {
    var p, s := Placeholder(i), lit + tail;
    assert |lit| < |p| && tail != "" ==> p[|lit|] == s[|lit|] == '"';
    NoQuoteInside(i);
    assert p == s[..|p|];
  }

  lemma {:induction false} UpToQuoteStep(lit: string, tail: string)
    requires lit != ""
    ensures UpToQuote(lit, tail) != "" && UpToQuote(lit, tail)[1..] == UpToQuote(lit[1..], tail)
  {
  }

  lemma {:induction false} PassLiteral(lit: string, tail: string, i: nat, sub: string)
    requires Bounded(tail) && !Occurs(Placeholder(i), UpToQuote(lit, tail))
    ensures ReplaceAll(lit + tail, Placeholder(i), sub) == lit + ReplaceAll(tail, Placeholder(i), sub)
    ensures Occurs(Placeholder(i), lit + tail) <==> Occurs(Placeholder(i), tail)
  {
    hide Placeholder, UpToQuote;
    if lit == "" {
      assert lit + tail == tail;
    } else {
      if Placeholder(i) <= lit + tail {
        EndsAtQuote(lit, tail, i);
        assert false;
      }
      UpToQuoteStep(lit, tail);
      PassLiteral(lit[1..], tail, i, sub);
      assert (lit + tail)[1..] == lit[1..] + tail && lit == [lit[0]] + lit[1..];
    }
  }

  /** Nothing starts where there is no quote. */
  lemma {:induction false} PassPlain(inside: string, tail: string, i: nat, sub: string)
    requires '"' !in inside
    ensures ReplaceAll(inside + tail, Placeholder(i), sub) == inside + ReplaceAll(tail, Placeholder(i), sub)
    ensures Occurs(Placeholder(i), inside + tail) <==> Occurs(Placeholder(i), tail)
  {
    if inside == "" {
      assert inside + tail == tail;
    } else {
      assert (inside + tail)[0] == inside[0] && Placeholder(i)[0] == '"';
      PassPlain(inside[1..], tail, i, sub);
      assert (inside + tail)[1..] == inside[1..] + tail && inside == [inside[0]] + inside[1..];
    }
  }

  lemma {:induction false} PassStem(k: nat, tail: string, i: nat, sub: string)
    requires !(Placeholder(i) <= Stem(k) + tail)
    ensures ReplaceAll(Stem(k) + tail, Placeholder(i), sub) == Stem(k) + ReplaceAll(tail, Placeholder(i), sub)
    ensures Occurs(Placeholder(i), Stem(k) + tail) <==> Occurs(Placeholder(i), tail)
  {
    StemAndQuote(k, "");
    var s, inside := Stem(k) + tail, Stem(k)[1..];
    hide Stem, Placeholder;
    assert s[1..] == inside + tail;
    PassPlain(inside, tail, i, sub);
    assert Stem(k) == [s[0]] + inside;
  }

  lemma {:induction false} StemOfAnother(k: nat, tail: string, i: nat)
    requires Placeholder(i) <= Stem(k) + tail
    ensures i == k && tail != "" && tail[0] == '"'
  {
    hide Decimal;
    var a, b := Decimal(i), Decimal(k);
    assert Placeholder(i)[5..] == a + "__\"";
    assert (Stem(k) + tail)[5..] == b + ("__" + tail);
    DecimalDigits(i);
    DecimalDigits(k);
    PrefixFree(a, "__\"", b, "__" + tail);
    DecimalInjective(i, k);
    assert |Placeholder(i)| == |Stem(k)| + 1;
    assert Placeholder(i)[|Stem(k)|] == (Stem(k) + tail)[|Stem(k)|];
  }

  // ----- differences

  /** How a token begins: with a brace, or with a quote and a brace. */
  predicate Opens(s: string) {
    s != "" && (s[0] == '{' || (|s| > 1 && s[0] == '"' && s[1] == '{'))
  }

  predicate BeginsMark(s: string) {
    |s| > 1 && s[0] == '"' && s[1] == '_'
  }

  /** A token where a placeholder should be. */
  predicate Taken(right: string, wrong: string) {
    (BeginsMark(right) && Opens(wrong))
    || (right != "" && wrong != "" && right[0] == wrong[0] && Taken(right[1..], wrong[1..]))
  }

  /** That, or a brace for an underscore, or a spoilt placeholder where a token should be. */
  ghost predicate Differs(right: string, wrong: string) {
    || (BeginsMark(right) && Opens(wrong))
    || (right != "" && wrong != "" && right[0] == '_' && wrong[0] == '{')
    || (Opens(right) && exists j :: Stem(j) + "{" <= wrong)
  }

  ghost predicate Off(right: string, wrong: string) {
    Differs(right, wrong)
    || (right != "" && wrong != "" && right[0] == wrong[0] && Off(right[1..], wrong[1..]))
  }

  lemma {:induction false} OffIsDifferent(s: string)
    ensures !Off(s, s)
  {
    if Opens(s) {
      forall j ensures !(Stem(j) + "{" <= s) {
        StemAndQuote(j, "");
        assert (Stem(j) + "{")[1] == '_' && (Stem(j) + "{")[0] == '"';
      }
    }
    if s != "" {
      OffIsDifferent(s[1..]);
    }
  }

  lemma {:induction false} TakenIsOff(right: string, wrong: string)
    requires Taken(right, wrong)
    ensures Off(right, wrong)
  {
    hide Stem;
    if !(BeginsMark(right) && Opens(wrong)) {
      TakenIsOff(right[1..], wrong[1..]);
    }
  }

  lemma {:induction false} OffBehind(s: string, right: string, wrong: string)
    ensures Off(right, wrong) ==> Off(s + right, s + wrong)
    ensures Taken(right, wrong) ==> Taken(s + right, s + wrong)
  {
    hide Differs;
    if s == "" {
      assert s + right == right && s + wrong == wrong;
    } else {
      OffBehind(s[1..], right, wrong);
      assert (s + right)[1..] == s[1..] + right && (s + wrong)[1..] == s[1..] + wrong;
    }
  }

  lemma {:induction false} OffBefore(right: string, wrong: string, more: string)
    requires Off(right, wrong)
    ensures Off(right + more, wrong)
  {
    hide Stem;
    if !Differs(right, wrong) {
      OffBefore(right[1..], wrong[1..], more);
      assert (right + more)[1..] == right[1..] + more;
    }
  }

  // ----- they stay

  lemma {:induction false} OpeningStays(s: string, i: nat, sub: string)
    requires Opens(s)
    ensures Opens(ReplaceAll(s, Placeholder(i), sub)) && !(Placeholder(i) <= s)
    ensures s[0] == '{' ==> ReplaceAll(s, Placeholder(i), sub)[0] == '{'
  {
    var p := Placeholder(i);
    assert p[0] == '"' && p[1] == '_';
    if s[0] == '"' {
      assert s[1..][0] == '{';
      assert !(p <= s[1..]);
      assert ReplaceAll(s, p, sub) == [s[0]] + ([s[1]] + ReplaceAll(s[1..][1..], p, sub));
    }
  }

  lemma {:induction false} StubStays(j: nat, s: string, i: nat, sub: string)
    requires Stem(j) + "{" <= s
    ensures Stem(j) + "{" <= ReplaceAll(s, Placeholder(i), sub) && !(Placeholder(i) <= s)
  {
    var tail := s[|Stem(j)|..];
    assert s == Stem(j) + tail && tail[0] == '{';
    if Placeholder(i) <= Stem(j) + tail {
      StemOfAnother(j, tail, i);
      assert false;
    }
    PassStem(j, tail, i, sub);
    OpeningStays(tail, i, sub);
  }

  lemma {:induction false} TakenStays(right: string, wrong: string, i: nat, sub: string)
    requires Taken(right, wrong) && Opens(sub)
    ensures Taken(right, ReplaceAll(wrong, Placeholder(i), sub))
  {
    var p := Placeholder(i);
    assert p[0] == '"' && p[1] == '_';
    if BeginsMark(right) && Opens(wrong) {
      OpeningStays(wrong, i, sub);
    } else if p <= wrong {
      assert wrong[1..][0] == '_';
      assert Taken(right[1..], wrong[1..]);
    } else {
      TakenStays(right[1..], wrong[1..], i, sub);
    }
  }

  lemma {:induction false} OffStays(right: string, wrong: string, i: nat, sub: string)
    requires Off(right, wrong) && Opens(sub)
    ensures Off(right, ReplaceAll(wrong, Placeholder(i), sub))
  {
    var p := Placeholder(i);
    assert p[0] == '"' && p[1] == '_';
    if Differs(right, wrong) {
      DifferenceStays(right, wrong, i, sub);
    } else if p <= wrong {
      assert wrong[1..][0] == '_';
      NoDifferenceAtUnderscore(right[1..], wrong[1..]);
      hide Stem, Placeholder;
      assert BeginsMark(right);
    } else {
      hide Differs, Placeholder;
      OffStays(right[1..], wrong[1..], i, sub);
    }
  }

  lemma {:induction false} NoDifferenceAtUnderscore(right: string, wrong: string)
    requires wrong != "" && wrong[0] == '_'
    ensures !Differs(right, wrong)
  {
    forall j ensures !(Stem(j) + "{" <= wrong) {
      StemAndQuote(j, "");
      assert (Stem(j) + "{")[0] == '"';
    }
  }

  lemma {:induction false} DifferenceStays(right: string, wrong: string, i: nat, sub: string)
    requires Differs(right, wrong)
    ensures Differs(right, ReplaceAll(wrong, Placeholder(i), sub))
  {
    hide Stem, Placeholder, ReplaceAll;
    if (BeginsMark(right) && Opens(wrong)) || (right != "" && wrong != "" && right[0] == '_' && wrong[0] == '{') {
      OpeningStays(wrong, i, sub);
    } else {
      var j :| Stem(j) + "{" <= wrong;
      StubStays(j, wrong, i, sub);
    }
  }

  /** A placeholder found in a literal is replaced there, or another before it. */
  lemma {:induction false} FoundIsTaken(lit: string, tail: string, i: nat, sub: string)
    requires Bounded(tail) && Occurs(Placeholder(i), UpToQuote(lit, tail)) && Opens(sub)
    ensures Taken(lit, ReplaceAll(lit + tail, Placeholder(i), sub))
  {
    var p := Placeholder(i);
    assert p[0] == '"' && p[1] == '_';
    if lit == "" {
      NotInQuote(i, UpToQuote(lit, tail));
    } else if p <= lit + tail {
      assert (lit + tail)[1] == '_';
      assert BeginsMark(lit);
    } else {
      UpToQuoteStep(lit, tail);
      NotBeforeQuote(lit, tail, i);
      FoundIsTaken(lit[1..], tail, i, sub);
      assert (lit + tail)[1..] == lit[1..] + tail && (lit + tail)[0] == lit[0];
    }
  }

  lemma {:induction false} NotBeforeQuote(lit: string, tail: string, i: nat)
    requires Bounded(tail) && !(Placeholder(i) <= lit + tail)
    ensures !(Placeholder(i) <= UpToQuote(lit, tail))
  {
    hide Placeholder;
    assert UpToQuote(lit, tail) <= lit + tail;
  }

  lemma {:induction false} NotInQuote(i: nat, s: string)
    requires |s| <= 1
    ensures !Occurs(Placeholder(i), s)
  {
    assert |Placeholder(i)| > 1;
    if s != "" {
      assert s[1..] == "";
    }
  }

  // ----- texts with holes

  /** The wrong text agrees with the text of the pieces up to a place where a token is for a placeholder: in a
      piece, at the closing quote of a hole, or further on. */
  predicate Strays(doc: Doc, wrong: string) {
    || Taken(doc.lit, wrong)
    || (doc.Hole? && doc.lit <= wrong &&
        var tail := wrong[|doc.lit|..];
        || (Stem(doc.idx) <= tail && Opens(tail[|Stem(doc.idx)|..]) && doc.rest.lit != "" && doc.rest.lit[0] == '_')
        || (Placeholder(doc.idx) <= tail && Strays(doc.rest, tail[|Placeholder(doc.idx)|..])))
  }

  lemma {:induction false} StraysBegins(doc: Doc, wrong: string)
    requires Strays(doc, wrong) && wrong != "" && wrong[0] == '_'
    ensures doc.lit != "" && doc.lit[0] == '_'
  {
    assert doc.lit == "" ==> wrong[|doc.lit|..] == wrong;
    StemAndQuote(if doc.Hole? then doc.idx else 0, "");
  }

  /** What the replacement makes of a hole with another number. */
  lemma {:induction false} PassHole(k: nat, tail: string, i: nat, sub: string)
    requires i != k
    ensures var replaced := ReplaceAll(Placeholder(k) + tail, Placeholder(i), sub);
            if Placeholder(i) <= "\"" + tail
            then Stem(k) + sub <= replaced && tail != "" && tail[0] == '_'
            else replaced == Placeholder(k) + ReplaceAll(tail, Placeholder(i), sub)
                 && (Occurs(Placeholder(i), Placeholder(k) + tail) <==> Occurs(Placeholder(i), tail))
  {
    StemAndQuote(k, tail);
    if Placeholder(i) <= Stem(k) + ("\"" + tail) {
      StemOfAnother(k, "\"" + tail, i);
      assert false;
    }
    PassStem(k, "\"" + tail, i, sub);
    var s := "\"" + tail;
    assert s[1..] == tail;
    if Placeholder(i) <= s {
      assert s[1] == Placeholder(i)[1] == '_';
    } else {
      assert ReplaceAll(s, Placeholder(i), sub) == "\"" + ReplaceAll(tail, Placeholder(i), sub);
      StemAndQuote(k, ReplaceAll(tail, Placeholder(i), sub));
    }
  }

  lemma {:induction false} StraysStays(doc: Doc, wrong: string, i: nat, sub: string)
    requires Strays(doc, wrong) && NoHolesBelow(doc, i + 1) && Opens(sub)
    ensures Strays(doc, ReplaceAll(wrong, Placeholder(i), sub))
    decreases doc
  {
    if Taken(doc.lit, wrong) {
      TakenStays(doc.lit, wrong, i, sub);
    } else {
      var lit, k, tail := doc.lit, doc.idx, wrong[|doc.lit|..];
      StemAndQuote(k, "");
      assert wrong == lit + tail && Bounded(tail);
      if Occurs(Placeholder(i), UpToQuote(lit, tail)) {
        FoundIsTaken(lit, tail, i, sub);
      } else {
        PassLiteral(lit, tail, i, sub);
        TailStays(doc, tail, i, sub);
      }
    }
  }

  /** The part behind the literal. */
  predicate StraysBehind(doc: Doc, tail: string)
    requires doc.Hole?
  {
    || (Stem(doc.idx) <= tail && Opens(tail[|Stem(doc.idx)|..]) && doc.rest.lit != "" && doc.rest.lit[0] == '_')
    || (Placeholder(doc.idx) <= tail && Strays(doc.rest, tail[|Placeholder(doc.idx)|..]))
  }

  lemma {:induction false} TailStays(doc: Doc, tail: string, i: nat, sub: string)
    requires doc.Hole? && StraysBehind(doc, tail) && NoHolesBelow(doc, i + 1) && Opens(sub)
    ensures StraysBehind(doc, ReplaceAll(tail, Placeholder(i), sub))
    decreases doc, 0
  {
    var k := doc.idx;
    if Placeholder(k) <= tail && Strays(doc.rest, tail[|Placeholder(k)|..]) {
      var after := tail[|Placeholder(k)|..];
      assert tail == Placeholder(k) + after;
      PassHole(k, after, i, sub);
      if Placeholder(i) <= "\"" + after {
        StraysBegins(doc.rest, after);
        OpensLonger(sub, ReplaceAll(tail, Placeholder(i), sub), Stem(k));
      } else {
        StraysStays(doc.rest, after, i, sub);
      }
    } else {
      var after := tail[|Stem(k)|..];
      assert tail == Stem(k) + after;
      if Placeholder(i) <= Stem(k) + after {
        StemOfAnother(k, after, i);
        assert false;
      }
      PassStem(k, after, i, sub);
      OpeningStays(after, i, sub);
    }
  }

  lemma {:induction false} OpensLonger(sub: string, s: string, front: string)
    requires Opens(sub) && front + sub <= s
    ensures front <= s && Opens(s[|front|..])
  {
    var rest := s[|front|..];
    assert (front + sub)[|front|] == s[|front|] == rest[0];
    if |sub| > 1 {
      assert (front + sub)[|front| + 1] == s[|front| + 1] == rest[1];
    }
  }

  lemma {:induction false} StraysStarts(doc: Doc, i: nat, sub: string)
    requires Occurs(Placeholder(i), Text(doc)) && NoHolesBelow(doc, i + 1) && Opens(sub)
    ensures Strays(doc, ReplaceAll(Text(doc), Placeholder(i), sub))
    decreases doc
  {
    match doc
    case End(lit) =>
      assert lit + "" == lit;
      FoundIsTaken(lit, "", i, sub);
    case Hole(lit, k, rest) =>
      var tail := Placeholder(k) + Text(rest);
      if Occurs(Placeholder(i), UpToQuote(lit, tail)) {
        FoundIsTaken(lit, tail, i, sub);
      } else {
        PassLiteral(lit, tail, i, sub);
        PassHole(k, Text(rest), i, sub);
        var replaced := ReplaceAll(tail, Placeholder(i), sub);
        if Placeholder(i) <= "\"" + Text(rest) {
          TextBegins(rest);
          OpensLonger(sub, replaced, Stem(k));
        } else {
          StraysStarts(rest, i, sub);
          assert replaced[|Placeholder(k)|..] == ReplaceAll(Text(rest), Placeholder(i), sub);
        }
        assert (lit + replaced)[|lit|..] == replaced;
      }
  }

  lemma {:induction false} TextBegins(doc: Doc)
    requires Text(doc) != "" && Text(doc)[0] == '_'
    ensures doc.lit != "" && doc.lit[0] == '_'
  {
  }

  // ----- one replacement after another

  /** The number of the first hole occurs neither before it nor behind it. */
  predicate FirstIsApart(doc: Doc)
    requires doc.Hole?
  {
    !Occurs(Placeholder(doc.idx), doc.lit + "\"") && !Occurs(Placeholder(doc.idx), Text(doc.rest))
  }

  ghost predicate Wrong(doc: Doc, s: string) {
    Off(doc.lit, s) || Strays(doc, s)
  }

  lemma {:induction false} FillFirst(doc: Doc, sub: string)
    requires doc.Hole? && FirstIsApart(doc)
    ensures ReplaceAll(Text(doc), Placeholder(doc.idx), sub) == doc.lit + sub + Text(doc.rest)
  {
    var i, tail := doc.idx, Placeholder(doc.idx) + Text(doc.rest);
    StemAndQuote(i, Text(doc.rest));
    PassLiteral(doc.lit, tail, i, sub);
    AtPlaceholder(i, Text(doc.rest), sub);
    NotFound(Text(doc.rest), i, sub);
  }

  lemma {:induction false} AtPlaceholder(i: nat, tail: string, sub: string)
    ensures ReplaceAll(Placeholder(i) + tail, Placeholder(i), sub) == sub + ReplaceAll(tail, Placeholder(i), sub)
  {
    var p, s := Placeholder(i), Placeholder(i) + tail;
    assert p <= s && s[|p|..] == tail;
  }

  lemma {:induction false} StraysBehindLiteral(s: string, doc: Doc, wrong: string)
    requires Strays(doc, wrong)
    ensures Wrong(Prepend(s, doc), s + wrong)
  {
    if Taken(doc.lit, wrong) {
      OffBehind(s, doc.lit, wrong);
    } else {
      assert (s + wrong)[|s + doc.lit|..] == wrong[|doc.lit|..];
    }
  }

  lemma {:induction false} GoesWrong(doc: Doc, sub: string)
    requires doc.Hole? && !FirstIsApart(doc) && NoHolesBelow(doc.rest, doc.idx + 1) && Opens(sub)
    ensures Wrong(Prepend(doc.lit + sub, doc.rest), ReplaceAll(Text(doc), Placeholder(doc.idx), sub))
  {
    var lit, i, tail := doc.lit, doc.idx, Placeholder(doc.idx) + Text(doc.rest);
    StemAndQuote(i, Text(doc.rest));
    assert UpToQuote(lit, tail) == lit + "\"" && Bounded(tail);
    hide Wrong, Stem, Placeholder, ReplaceAll, Occurs, UpToQuote, Bounded, Opens, Strays, Taken;
    if Occurs(Placeholder(i), lit + "\"") {
      FoundIsTaken(lit, tail, i, sub);
      LiteralIsOff(doc, sub, ReplaceAll(Text(doc), Placeholder(i), sub));
    } else {
      PassLiteral(lit, tail, i, sub);
      AtPlaceholder(i, Text(doc.rest), sub);
      StraysStarts(doc.rest, i, sub);
      var wrong := ReplaceAll(Text(doc.rest), Placeholder(i), sub);
      assert lit + (sub + wrong) == (lit + sub) + wrong;
      StraysBehindLiteral(lit + sub, doc.rest, wrong);
    }
  }

  lemma {:induction false} LiteralIsOff(doc: Doc, sub: string, wrong: string)
    requires doc.Hole? && (Off(doc.lit, wrong) || Taken(doc.lit, wrong))
    ensures Wrong(Prepend(doc.lit + sub, doc.rest), wrong)
  {
    if Taken(doc.lit, wrong) {
      TakenIsOff(doc.lit, wrong);
    }
    OffBefore(doc.lit, wrong, sub + doc.rest.lit);
    assert doc.lit + (sub + doc.rest.lit) == (doc.lit + sub) + doc.rest.lit;
  }

  lemma {:induction false} StaysWrong(doc: Doc, s: string, sub: string)
    requires doc.Hole? && Wrong(doc, s) && NoHolesBelow(doc.rest, doc.idx + 1) && Opens(sub)
    ensures Wrong(Prepend(doc.lit + sub, doc.rest), ReplaceAll(s, Placeholder(doc.idx), sub))
  {
    var lit, i := doc.lit, doc.idx;
    var replaced := ReplaceAll(s, Placeholder(i), sub);
    if Off(lit, s) {
      OffStays(lit, s, i, sub);
      LiteralIsOff(doc, sub, replaced);
    } else if Taken(lit, s) {
      TakenStays(lit, s, i, sub);
      LiteralIsOff(doc, sub, replaced);
    } else {
      var tail := s[|lit|..];
      StemAndQuote(i, "");
      assert s == lit + tail && Bounded(tail);
      if Occurs(Placeholder(i), UpToQuote(lit, tail)) {
        FoundIsTaken(lit, tail, i, sub);
        LiteralIsOff(doc, sub, replaced);
      } else {
        PassLiteral(lit, tail, i, sub);
        FirstStaysWrong(doc, tail, sub);
      }
    }
  }

  lemma {:induction false} FirstStaysWrong(doc: Doc, tail: string, sub: string)
    requires doc.Hole? && StraysBehind(doc, tail) && NoHolesBelow(doc.rest, doc.idx + 1) && Opens(sub)
    ensures Wrong(Prepend(doc.lit + sub, doc.rest), doc.lit + ReplaceAll(tail, Placeholder(doc.idx), sub))
  {
    var lit, i := doc.lit, doc.idx;
    if Placeholder(i) <= tail && Strays(doc.rest, tail[|Placeholder(i)|..]) {
      var after := tail[|Placeholder(i)|..];
      assert tail == Placeholder(i) + after;
      AtPlaceholder(i, after, sub);
      StraysStays(doc.rest, after, i, sub);
      var wrong := ReplaceAll(after, Placeholder(i), sub);
      assert lit + (sub + wrong) == (lit + sub) + wrong;
      StraysBehindLiteral(lit + sub, doc.rest, wrong);
    } else {
      var after := tail[|Stem(i)|..];
      assert tail == Stem(i) + after;
      SpoiltPlaceholder(doc, after, sub);
    }
  }

  lemma {:induction false} SpoiltPlaceholder(doc: Doc, after: string, sub: string)
    requires doc.Hole? && Opens(after) && doc.rest.lit != "" && doc.rest.lit[0] == '_' && Opens(sub)
    ensures Wrong(Prepend(doc.lit + sub, doc.rest),
              doc.lit + ReplaceAll(Stem(doc.idx) + after, Placeholder(doc.idx), sub))
  {
    var lit, i := doc.lit, doc.idx;
    var p, right := Placeholder(i), sub + doc.rest.lit;
    var replaced := ReplaceAll(Stem(i) + after, p, sub);
    assert Off(right, replaced) by {
      if after[0] == '"' {
        var brace := after[1..];
        assert after == "\"" + brace && brace[0] == '{';
        StemAndQuote(i, brace);
        AtPlaceholder(i, brace, sub);
        OpeningStays(brace, i, sub);
        OffBehind(sub, doc.rest.lit, ReplaceAll(brace, p, sub));
      } else {
        if p <= Stem(i) + after {
          StemOfAnother(i, after, i);
          assert false;
        }
        PassStem(i, after, i, sub);
        OpeningStays(after, i, sub);
        assert Stem(i) + "{" <= replaced;
        assert Opens(right);
      }
    }
    OffBehind(lit, right, replaced);
    assert lit + right == (lit + sub) + doc.rest.lit;
  }

  // ----- the round trip

  /** Where the text behind the first k matches begins. */
  function Behind(spans: seq<Span>, k: nat): nat
    requires k <= |spans|
  {
    if k == 0 then 0 else spans[k - 1].end
  }

  lemma {:induction false} SpansBehind(text: string, spans: seq<Span>, from: nat, k: nat)
    requires ValidSpans(text, spans, from) && k <= |spans|
    ensures ValidSpans(text, spans[k..], if k == 0 then from else spans[k - 1].end)
    decreases k
  {
    if k > 0 {
      SpansBehind(text, spans[1..], spans[0].end, k - 1);
      assert spans[1..][k - 1..] == spans[k..];
    }
  }

  lemma {:induction false} SpansFrom(text: string, spans: seq<Span>, k: nat)
    requires ValidSpans(text, spans, 0) && k <= |spans|
    ensures ValidSpans(text, spans[k..], Behind(spans, k))
    ensures k < |spans| ==>
              spans[k..][1..] == spans[k + 1..] && Behind(spans, k) <= spans[k].start < spans[k].end <= |text|
  {
    SpansBehind(text, spans, 0, k);
  }

  /** Placeholder k occurs neither in the text before match k, with a quote behind it, nor in the placeholder text
      behind. */
  ghost predicate Apart(text: string, spans: seq<Span>, k: nat)
    requires ValidSpans(text, spans, 0) && k < |spans|
  {
    SpansFrom(text, spans, k);
    SpansFrom(text, spans, k + 1);
    && !Occurs(Placeholder(k), text[..spans[k].start] + "\"")
    && !Occurs(Placeholder(k), Text(Split(text, spans[k + 1..], spans[k].end, k + 1)))
  }

  /** The text with its first k matches as they are, and placeholders for the others. */
  function Stage(text: string, spans: seq<Span>, k: nat): Doc
    requires ValidSpans(text, spans, 0) && k <= |spans|
  {
    SpansFrom(text, spans, k);
    Prepend(text[..Behind(spans, k)], Split(text, spans[k..], Behind(spans, k), k))
  }

  lemma {:induction false} StageStep(text: string, spans: seq<Span>, k: nat)
    requires ValidSpans(text, spans, 0) && k < |spans|
    ensures spans[k].start <= spans[k].end <= |text|
    ensures var doc, sub := Stage(text, spans, k), text[spans[k].start..spans[k].end];
            && doc.Hole? && doc.idx == k && NoHolesBelow(doc.rest, k + 1)
            && (FirstIsApart(doc) <==> Apart(text, spans, k))
            && Prepend(doc.lit + sub, doc.rest) == Stage(text, spans, k + 1)
            && Text(Stage(text, spans, k + 1)) == doc.lit + sub + Text(doc.rest)
  {
    SpansFrom(text, spans, k);
    SpansFrom(text, spans, k + 1);
    var doc, from, span := Stage(text, spans, k), Behind(spans, k), spans[k];
    assert spans[k..][0] == span;
    assert doc.lit == text[..from] + text[from..span.start] == text[..span.start];
    assert doc.lit + text[span.start..span.end] == text[..span.end];
    SplitIsNumbered(text, spans[k + 1..], span.end, k + 1);
    TextOfPrepend(text[..span.end], doc.rest);
  }

  lemma {:induction false} SplitIsNumbered(text: string, spans: seq<Span>, from: nat, idx: nat)
    requires ValidSpans(text, spans, from)
    ensures NoHolesBelow(Split(text, spans, from, idx), idx)
    decreases |spans|
  {
    if spans != [] {
      SplitIsNumbered(text, spans[1..], spans[0].end, idx + 1);
      HolesStillAbove(Split(text, spans[1..], spans[0].end, idx + 1), idx);
    }
  }

  lemma {:induction false} HolesStillAbove(doc: Doc, n: nat)
    requires NoHolesBelow(doc, n + 1)
    ensures NoHolesBelow(doc, n)
    decreases doc
  {
    if doc.Hole? {
      HolesStillAbove(doc.rest, n);
    }
  }

  lemma {:induction false} TokenAt(text: string, spans: seq<Span>, from: nat, k: nat)
    requires ValidSpans(text, spans, from) && k < |spans|
    ensures spans[k].start <= spans[k].end <= |text|
    ensures SourceOf(Tokens(text, spans, from)[k]) == text[spans[k].start..spans[k].end]
    decreases k
  {
    if k == 0 {
      SourceOfMatch(text, spans[0]);
    } else {
      TokenAt(text, spans[1..], spans[0].end, k - 1);
    }
  }

  /** Every match begins as a template expression or block does. */
  ghost predicate Templates(text: string, spans: seq<Span>)
    requires ValidSpans(text, spans, 0)
  {
    forall k :: 0 <= k < |spans| ==> Opens(SourceOf(Tokens(text, spans, 0)[k]))
  }

  ghost predicate AllApart(text: string, spans: seq<Span>, n: nat)
    requires ValidSpans(text, spans, 0) && n <= |spans|
  {
    forall k :: 0 <= k < n ==> Apart(text, spans, k)
  }

  lemma {:induction false} AfterStages(text: string, spans: seq<Span>, n: nat)
    requires ValidSpans(text, spans, 0) && Templates(text, spans) && n <= |spans|
    ensures var s := Restored(Text(Split(text, spans, 0, 0)), Tokens(text, spans, 0), n);
            if AllApart(text, spans, n) then s == Text(Stage(text, spans, n)) else Wrong(Stage(text, spans, n), s)
  {
    if n == 0 {
      assert spans[0..] == spans && text[..0] == "";
      TextOfPrepend("", Split(text, spans, 0, 0));
      assert Text(Stage(text, spans, 0)) == Text(Split(text, spans, 0, 0));
    } else {
      var s := Restored(Text(Split(text, spans, 0, 0)), Tokens(text, spans, 0), n - 1);
      AfterStages(text, spans, n - 1);
      NextStage(text, spans, n - 1, s);
    }
  }

  lemma {:induction false} NextStage(text: string, spans: seq<Span>, k: nat, s: string)
    requires ValidSpans(text, spans, 0) && Templates(text, spans) && k < |spans|
    requires if AllApart(text, spans, k) then s == Text(Stage(text, spans, k)) else Wrong(Stage(text, spans, k), s)
    ensures var s' := ReplaceAll(s, Placeholder(k), SourceOf(Tokens(text, spans, 0)[k]));
            if AllApart(text, spans, k + 1) then s' == Text(Stage(text, spans, k + 1))
            else Wrong(Stage(text, spans, k + 1), s')
  {
    hide Apart, FirstIsApart, Stage, Wrong, Tokens, Split, SourceOf, Placeholder, ReplaceAll, Prepend, ValidSpans,
      Text, Opens;
    StageStep(text, spans, k);
    TokenAt(text, spans, 0, k);
    var doc, sub := Stage(text, spans, k), SourceOf(Tokens(text, spans, 0)[k]);
    if !AllApart(text, spans, k) {
      StaysWrong(doc, s, sub);
    } else if Apart(text, spans, k) {
      FillFirst(doc, sub);
    } else {
      GoesWrong(doc, sub);
    }
  }

  /** Restoring undoes substituting exactly if every placeholder occurs only where its own match was. */
  lemma {:induction false} RestoredExactlyWhen(text: string, spans: seq<Span>)
    requires ValidSpans(text, spans, 0) && Templates(text, spans)
    ensures Restored(Text(Split(text, spans, 0, 0)), Tokens(text, spans, 0), |spans|) == text
            <==> AllApart(text, spans, |spans|)
  {
    var n := |spans|;
    AfterStages(text, spans, n);
    SpansFrom(text, spans, n);
    var doc := Stage(text, spans, n);
    assert spans[n..] == [];
    assert text[..Behind(spans, n)] + text[Behind(spans, n)..] == text;
    assert doc == End(text);
    hide Apart, Stage;
    if Wrong(doc, text) {
      if Taken(text, text) {
        TakenIsOff(text, text);
      }
      OffIsDifferent(text);
      assert false;
    }
  }

  /** It is not enough that no piece of the text and no token holds a placeholder: a piece may end with one that
      lacks only its closing quote, and the quote of the placeholder behind it closes it. */
  lemma {:induction false} ClosedByTheNext(token: string)
    requires token != "" && token[0] == '{'
    ensures var text, spans := Stem(0) + token, [Span(|Stem(0)|, |Stem(0) + token|, false)];
            && ValidSpans(text, spans, 0) && Tokens(text, spans, 0) == [Token(token, false)]
            && Text(Split(text, spans, 0, 0)) == Stem(0) + Placeholder(0) && !Occurs(Placeholder(0), Stem(0))
            && Restored(Text(Split(text, spans, 0, 0)), Tokens(text, spans, 0), 1) != text
  {
    var text := Stem(0) + token;
    var spans := [Span(|Stem(0)|, |text|, false)];
    OneMatch(text, Stem(0), token);
    assert Placeholder(0) + "" == Placeholder(0);
    StemAndQuote(0, "");
    StemHoldsNone(Stem(0), 0);
    assert !Apart(text, spans, 0) by {
      assert Placeholder(0) <= text[..spans[0].start] + "\"";
    }
    assert Opens(SourceOf(Tokens(text, spans, 0)[0]));
    RestoredExactlyWhen(text, spans);
  }

  lemma {:induction false} OneMatch(text: string, front: string, token: string)
    requires text == front + token && token != ""
    ensures var spans := [Span(|front|, |text|, false)];
            && ValidSpans(text, spans, 0) && Tokens(text, spans, 0) == [Token(token, false)]
            && Split(text, spans, 0, 0) == Hole(front, 0, End("")) && text[..|front|] == front
  {
    var spans := [Span(|front|, |text|, false)];
    assert spans[1..] == [] && ValidSpans(text, [], |text|);
    assert text[|front|..|text|] == token && text[0..|front|] == front && text[|text|..] == "";
  }

  lemma {:induction false} StemHoldsNone(s: string, i: nat)
    requires |s| < |Placeholder(i)|
    ensures !Occurs(Placeholder(i), s)
  {
    hide Placeholder;
    if s != "" {
      StemHoldsNone(s[1..], i);
    }
  }
}
