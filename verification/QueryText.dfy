/** The text of a query as tokens, and the parser that reads it back: parentheses and prefixes are placed so that the
    text has exactly one reading. */
module QueryText {
  import opened Wrappers
  import opened QueryModel

  datatype Token = Plus | Minus | Open | Close | Star | Word(leaf: SolrQuery)

  // ----- printing

  function Print(cs: seq<Clause>): seq<Token>
    decreases cs
  {
    if cs == [] then [] else Print(cs[..|cs| - 1]) + PrintClause(cs[|cs| - 1])
  }

  function PrintClause(c: Clause): seq<Token>
    decreases c
  {
    match c.occur
    case Must => [Plus] + PrintQuery(c.query)
    case MustNot => [Minus] + PrintQuery(c.query)
    case Should => PrintQuery(c.query)
  }

  function PrintQuery(q: SolrQuery): seq<Token>
    decreases q
  {
    match q
    case Everything => [Star]
    case Group(clauses) => [Open] + Print(clauses) + [Close]
    case _ => [Word(q)]
  }

  /** Texts put side by side are clauses put side by side. */
  lemma {:induction false} PrintSum(cs: seq<Clause>, ds: seq<Clause>)
    ensures Print(cs + ds) == Print(cs) + Print(ds)
    decreases |ds|
  {
    hide PrintClause;
    if ds == [] {
      assert cs + ds == cs;
    } else {
      var n := |ds| - 1;
      PrintSum(cs, ds[..n]);
      assert (cs + ds)[..|cs| + n] == cs + ds[..n];
    }
  }

  lemma {:induction false} PrintFirst(cs: seq<Clause>)
    requires cs != []
    ensures Print(cs) == PrintClause(cs[0]) + Print(cs[1..])
  {
    assert cs == [cs[0]] + cs[1..] && [cs[0]][..0] == [];
    PrintSum([cs[0]], cs[1..]);
  }

  /** What the text looks like: required and excluded groups have their prefix before the parenthesis, and optional
      clauses stand for themselves. */
  lemma {:induction false} LooksLike(a: SolrQuery, b: SolrQuery, c: SolrQuery)
    requires a.Leaf? && b.Leaf? && c.Leaf?
    ensures Print([Clause(Must, Group([Clause(Should, a)])), Clause(MustNot, Group([Clause(Should, b)])),
                   Clause(Should, c)])
            == [Plus, Open, Word(a), Close, Minus, Open, Word(b), Close, Word(c)]
  {
    var x, y, z := Clause(Must, Group([Clause(Should, a)])), Clause(MustNot, Group([Clause(Should, b)])),
        Clause(Should, c);
    PrintOne(Clause(Should, a));
    PrintOne(Clause(Should, b));
    PrintOne(x);
    PrintOne(y);
    PrintOne(z);
    PrintSum([x], [y]);
    PrintSum([x, y], [z]);
    assert [x] + [y] == [x, y] && [x, y] + [z] == [x, y, z];
    hide Print;
  }

  lemma {:induction false} PrintOne(c: Clause)
    ensures Print([c]) == PrintClause(c)
  {
    hide PrintClause;
    assert [c][..0] == [];
  }

  // ----- parsing

  /** Clauses up to a closing parenthesis or the end, and what is left. */
  function Parse(ts: seq<Token>): (r: Option<(seq<Clause>, seq<Token>)>)
    ensures r.Some? ==> |r.value.1| <= |ts| && (r.value.1 == [] || r.value.1[0] == Close)
    decreases |ts|, 1
  {
    if ts == [] || ts[0] == Close then Some(([], ts))
    else
      match ParseClause(ts)
      case None => None
      case Some((c, rest)) =>
        match Parse(rest)
        case None => None
        case Some((cs, end)) => Some(([c] + cs, end))
  }

  function ParseClause(ts: seq<Token>): (r: Option<(Clause, seq<Token>)>)
    requires ts != []
    ensures r.Some? ==> |r.value.1| < |ts|
    decreases |ts|, 0
  {
    var occur := if ts[0] == Plus then Must else if ts[0] == Minus then MustNot else Should;
    var body := if occur == Should then ts else ts[1..];
    if body == [] then None
    else
      match body[0]
      case Star => Some((Clause(occur, Everything), body[1..]))
      case Word(leaf) => Some((Clause(occur, leaf), body[1..]))
      case Open =>
        (match Parse(body[1..])
         case None => None
         case Some((cs, rest)) => if rest == [] then None else Some((Clause(occur, Group(cs)), rest[1..])))
      case _ => None
  }

  // ----- the text has one reading

  predicate Closed(rest: seq<Token>) {
    rest == [] || rest[0] == Close
  }

  lemma {:induction false} ParsePrinted(cs: seq<Clause>, rest: seq<Token>)
    requires Closed(rest)
    ensures Parse(Print(cs) + rest) == Some((cs, rest))
    decreases cs, 1
  {
    if cs == [] {
      assert Print(cs) + rest == rest;
    } else {
      PrintFirst(cs);
      var tail := Print(cs[1..]) + rest;
      assert Print(cs) + rest == PrintClause(cs[0]) + tail;
      ParsePrintedClause(cs[0], tail);
      ParsePrinted(cs[1..], rest);
      assert [cs[0]] + cs[1..] == cs;
    }
  }

  lemma {:induction false} ParsePrintedClause(c: Clause, rest: seq<Token>)
    ensures var ts := PrintClause(c) + rest;
            ts != [] && ts[0] != Close && ParseClause(ts) == Some((c, rest))
    decreases c, 0
  {
    hide Print, Parse;
    match c.query
    case Group(cs) =>
      ParsePrinted(cs, [Close] + rest);
      ParsePrintedGroup(c, cs, rest);
    case _ =>
      BodyIsQuery(c, rest);
      assert (PrintQuery(c.query) + rest)[1..] == rest;
  }

  /** The prefix is read off, and what is left is the query. */
  lemma {:induction false} BodyIsQuery(c: Clause, rest: seq<Token>)
    ensures var ts, body := PrintClause(c) + rest, PrintQuery(c.query) + rest;
            && ts != [] && (if c.occur == Should then ts else ts[1..]) == body
            && ts[0] == match c.occur case Must => Plus case MustNot => Minus case Should => body[0]
    ensures PrintQuery(c.query) != [] && PrintQuery(c.query)[0] !in {Plus, Minus, Close}
  {
    hide Print;
  }

  lemma {:induction false} GroupBody(cs: seq<Clause>, rest: seq<Token>)
    ensures var body := PrintQuery(Group(cs)) + rest;
            body[0] == Open && body[1..] == Print(cs) + ([Close] + rest) && ([Close] + rest)[1..] == rest
  {
  }

  lemma {:induction false} ParsePrintedGroup(c: Clause, cs: seq<Clause>, rest: seq<Token>)
    requires c.query == Group(cs) && Parse(Print(cs) + ([Close] + rest)) == Some((cs, [Close] + rest))
    ensures var ts := PrintClause(c) + rest;
            ts != [] && ts[0] != Close && ParseClause(ts) == Some((c, rest))
  {
    hide Print, Parse, PrintClause, PrintQuery;
    BodyIsQuery(c, rest);
    GroupBody(cs, rest);
  }

  /** Reading back what was printed gives the clauses again. */
  lemma {:induction false} RoundTrip(cs: seq<Clause>)
    ensures Parse(Print(cs)) == Some((cs, []))
  {
    assert Print(cs) + [] == Print(cs);
    ParsePrinted(cs, []);
  }
}
