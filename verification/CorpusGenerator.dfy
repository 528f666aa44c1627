/** Generating a corpus and its offset table: scripts/expand-data-corpus.py, DocGenerator and generate_docs. */
module CorpusGenerator {
  import opened LineOffsets

  function Digits(n: nat): string {
    (if n < 10 then "" else Digits(n / 10)) + ["0123456789"[n % 10]]
  }

  /** str(n) */
  function Str(n: int): string {
    if n < 0 then "-" + Digits(-n) else Digits(n)
  }

  const Prefix := "{\"@timestamp\": "

  /** A document: a line of the input with its first 24 characters replaced. */
  function Doc(timestamp: int, line: string): string {
    Prefix + Str(timestamp) + if |line| > 24 then line[24..] else ""
  }

  /** One line: a line feed at the end and nowhere else. */
  ghost predicate IsLine(s: string) {
    s != "" && s[|s| - 1] == '\n' && '\n' !in s[..|s| - 1]
  }

  /** The timestamp of a document. With a negative interval every -interval documents share one, but for the first,
      which is alone. */
  function Timestamp(start: int, interval: int, i: nat): int {
    if interval >= 0 then start + i * interval else start + (i + -interval - 1) / -interval
  }

  /** The first n documents: the lines of the input over and over. */
  function Docs(lines: seq<string>, start: int, interval: int, n: nat): (docs: seq<string>)
    requires lines != []
    ensures |docs| == n
  {
    if n == 0 then []
    else Docs(lines, start, interval, n - 1) + [Doc(Timestamp(start, interval, n - 1), lines[(n - 1) % |lines|])]
  }

  function Concat(docs: seq<string>): string {
    if docs == [] then "" else Concat(docs[..|docs| - 1]) + docs[|docs| - 1]
  }

  /** The generator between two documents; the next line to read is lineNum modulo the number of lines. */
  class DocGenerator {
    const lines: seq<string>
    const interval: int
    ghost const start: int
    var timestamp: int
    var lineNum: nat
    var row: nat

    ghost predicate Valid()
      reads this
    {
      && lines != [] && row <= |lines|
      && (row < |lines| ==> row == lineNum % |lines|) && (row == |lines| ==> lineNum % |lines| == 0)
      && timestamp == Timestamp(start, interval, lineNum)
    }

    constructor (lines: seq<string>, start: int, interval: int)
      requires lines != []
      ensures Valid() && lineNum == 0 && this.lines == lines && this.interval == interval && this.start == start
    {
      this.lines, this.interval, this.start := lines, interval, start;
      timestamp, lineNum, row := start, 0, 0;
      new;
      FirstTimestamp(start, interval);
    }

    method Next() returns (doc: string)
      requires Valid()
      modifies this
      ensures Valid() && lineNum == old(lineNum) + 1
      ensures doc == Doc(Timestamp(start, interval, old(lineNum)), lines[old(lineNum) % |lines|])
    {
      if row == |lines| {
        row := 0;
      }
      doc := Doc(timestamp, lines[row]);
      NextTimestamp(start, interval, lineNum);
      NextRow(lineNum, |lines|);
      if interval < 0 {
        if lineNum % -interval == 0 {
          timestamp := timestamp + 1;
        }
      } else {
        timestamp := timestamp + interval;
      }
      row := row + 1;
      lineNum := lineNum + 1;
    }
  }

  lemma {:induction false} FirstTimestamp(start: int, interval: int)
    ensures Timestamp(start, interval, 0) == start
  {
    if interval < 0 {
      Quotient(-interval - 1, -interval, 0, -interval - 1);
    }
  }

  lemma {:induction false} NextTimestamp(start: int, interval: int, i: nat)
    ensures Timestamp(start, interval, i + 1) == Timestamp(start, interval, i)
              + (if interval >= 0 then interval else if i % -interval == 0 then 1 else 0)
  {
    if interval < 0 {
      var n := -interval;
      QuotientNext(i + n, n);
      SameRemainder(i, n);
    }
  }

  lemma {:induction false} SameRemainder(i: nat, n: nat)
    requires n > 0
    ensures (i + n) % n == i % n
  {
    var q := i / n;
    assert i + n == (q + 1) * n + i % n;
    Quotient(i + n, n, q + 1, i % n);
  }

  lemma {:induction false} NextRow(i: nat, n: nat)
    requires n > 0
    ensures (i + 1) % n == if i % n + 1 == n then 0 else i % n + 1
  {
    var q := i / n;
    if i % n + 1 == n {
      assert i + 1 == (q + 1) * n;
      Quotient(i + 1, n, q + 1, 0);
    } else {
      Quotient(i + 1, n, q, i % n + 1);
    }
  }

  // ----- documents are lines

  lemma {:induction false} DigitsAreDigits(n: nat)
    ensures Digits(n) != "" && '\n' !in Digits(n)
  {
    if n >= 10 {
      DigitsAreDigits(n / 10);
    }
  }

  /** A document is one line exactly if its input line is longer than what is replaced. */
  lemma {:induction false} DocIsLine(timestamp: int, line: string)
    requires IsLine(line)
    ensures IsLine(Doc(timestamp, line)) <==> |line| > 24
  {
    DocIsFileLine(timestamp, line);
  }

  function DigitValue(c: char): int {
    c as int - '0' as int
  }

  /** The number that some digits read as. */
  function NumberOf(digits: string): int {
    if digits == "" then 0 else 10 * NumberOf(digits[..|digits| - 1]) + DigitValue(digits[|digits| - 1])
  }

  function Reading(number: string): int {
    if "-" <= number then -NumberOf(number[1..]) else NumberOf(number)
  }

  ghost predicate AllDigits(s: string) {
    s != "" && forall c :: c in s ==> '0' <= c <= '9'
  }

  lemma {:induction false} DigitsRead(n: nat)
    ensures AllDigits(Digits(n)) && NumberOf(Digits(n)) == n
  {
    var front, d := if n < 10 then "" else Digits(n / 10), "0123456789"[n % 10];
    assert Digits(n) == front + [d];
    hide Digits, DigitValue, NumberOf, AllDigits;
    DigitReads(n % 10);
    if n >= 10 {
      DigitsRead(n / 10);
    }
    OneMoreDigit(front, d);
  }

  lemma {:induction false} DigitReads(d: nat)
    requires d < 10
    ensures '0' <= "0123456789"[d] <= '9' && DigitValue("0123456789"[d]) == d
  {
  }

  lemma {:induction false} OneMoreDigit(front: string, d: char)
    ensures NumberOf(front + [d]) == 10 * NumberOf(front) + DigitValue(d) && NumberOf("") == 0
    ensures '0' <= d <= '9' && (front == "" || AllDigits(front)) ==> AllDigits(front + [d])
  {
    assert (front + [d])[..|front|] == front;
  }

  /** A document is its line but for the timestamp: behind the key, nine digits give way to a number that reads as the
      new timestamp, and what follows stays as it is. */
  lemma {:induction false} DocKeepsTheRest(timestamp: int, digits: string, rest: string) returns (number: string)
    requires |digits| == 9
    ensures Doc(timestamp, "{\"@timestamp\": " + digits + rest) == "{\"@timestamp\": " + number + rest
    ensures Reading(number) == timestamp && AllDigits(if timestamp < 0 then number[1..] else number)
  {
    number := Str(timestamp);
    DigitsRead(if timestamp < 0 then -timestamp else timestamp);
    var line := "{\"@timestamp\": " + digits + rest;
    assert line[24..] == rest;
    if timestamp < 0 {
      assert number[1..] == Digits(-timestamp);
    } else {
      assert number[0] in number && number[0] != '-';
    }
    hide Digits, NumberOf;
  }

  ghost predicate LongLines(lines: seq<string>) {
    forall i :: 0 <= i < |lines| ==> IsLine(lines[i]) && |lines[i]| > 24
  }

  lemma {:induction false} DocsAreLines(lines: seq<string>, start: int, interval: int, n: nat)
    requires lines != [] && LongLines(lines)
    ensures forall i :: 0 <= i < n ==> IsLine(Docs(lines, start, interval, n)[i])
  {
    hide IsLine, Doc;
    if n > 0 {
      DocsAreLines(lines, start, interval, n - 1);
      DocIsLine(Timestamp(start, interval, n - 1), lines[(n - 1) % |lines|]);
    }
  }

  lemma {:induction false} ConcatOfFewer(docs: seq<string>, m: nat)
    requires m <= |docs|
    ensures Concat(docs[..m]) <= Concat(docs)
  {
    var n := |docs| - 1;
    if m == |docs| {
      assert docs[..m] == docs;
    } else {
      ConcatOfFewer(docs[..n], m);
      assert docs[..n][..m] == docs[..m];
    }
  }

  lemma {:induction false} LineEndOfLine(file: Bytes, pos: nat, line: string)
    requires pos + |line| <= |file| && file[pos..pos + |line|] == line && IsLine(line)
    ensures LineEnd(file, pos) == pos + |line|
    decreases |line|
  {
    assert file[pos] == line[0];
    if |line| > 1 {
      var rest := line[1..];
      assert line[0] == line[..|line| - 1][0];
      assert rest[..|rest| - 1] == line[..|line| - 1][1..];
      assert file[pos + 1..pos + 1 + |rest|] == rest;
      LineEndOfLine(file, pos + 1, rest);
    }
  }

  /** Plain reading of k lines leads past the first k documents, if they are lines. */
  lemma {:induction false} AfterDocs(docs: seq<string>, k: nat)
    requires k <= |docs| && forall i :: 0 <= i < k ==> IsLine(docs[i])
    ensures After(Concat(docs), 0, k) == |Concat(docs[..k])|
  {
    hide IsLine;
    if k > 0 {
      AfterDocs(docs, k - 1);
      ConcatOfFewer(docs, k);
      assert docs[..k][..k - 1] == docs[..k - 1];
      LineEndOfLine(Concat(docs), |Concat(docs[..k - 1])|, docs[k - 1]);
    }
  }

  // ----- the program

  /** What is known of the table while documents are written: offsets are the lengths of that many documents. */
  ghost predicate BatchTable(docs: seq<string>, table: seq<Entry>, batchSize: nat) {
    forall i :: 0 <= i < |table| ==>
      && table[i].line == (i + 1) * batchSize && table[i].line <= |docs|
      && table[i].offset == |Concat(docs[..table[i].line])|
  }

  lemma {:induction false} BatchTableGrows(docs: seq<string>, doc: string, table: seq<Entry>, batchSize: nat)
    requires BatchTable(docs, table, batchSize)
    ensures BatchTable(docs + [doc], table, batchSize)
    ensures Concat(docs + [doc]) == Concat(docs) + doc
  {
    assert (docs + [doc])[..|docs|] == docs;
    forall i | 0 <= i < |table| ensures (docs + [doc])[..table[i].line] == docs[..table[i].line] {
    }
  }

  lemma {:induction false} BatchTableIsTable(docs: seq<string>, table: seq<Entry>, batchSize: nat)
    requires BatchTable(docs, table, batchSize) && batchSize > 0
    requires forall i :: 0 <= i < |table| * batchSize && i < |docs| ==> IsLine(docs[i])
    ensures TableOf(Concat(docs), table)
  {
    hide Concat, After, IsLine;
    var file := Concat(docs);
    forall i | 0 <= i < |table| ensures table[i].offset == After(file, 0, table[i].line) {
      Multiples(i + 1, |table|, batchSize);
      AfterDocs(docs, table[i].line);
    }
    forall i, j | 0 <= i < j < |table| ensures table[i].line < table[j].line && table[i].offset < table[j].offset {
      Multiples(i + 1, j + 1, batchSize);
      Multiples(j + 1, |table|, batchSize);
      StillInside(docs, table[j].line);
      AfterGrows(file, table[i].line, table[j].line);
    }
  }

  lemma {:induction false} Multiples(m: nat, n: nat, batchSize: nat)
    requires m <= n && batchSize > 0
    ensures m * batchSize <= n * batchSize && (m < n ==> m * batchSize < n * batchSize)
  {
    assert n * batchSize - m * batchSize == (n - m) * batchSize;
  }

  /** Before the last of k documents the file is not at its end. */
  lemma {:induction false} StillInside(docs: seq<string>, k: nat)
    requires 0 < k <= |docs| && forall i :: 0 <= i < k ==> IsLine(docs[i])
    ensures After(Concat(docs), 0, k - 1) < |Concat(docs)|
  {
    AfterDocs(docs, k - 1);
    ConcatOfFewer(docs, k);
    assert docs[..k][..k - 1] == docs[..k - 1];
    assert IsLine(docs[k - 1]);
  }

  /** The entries there are before document n is written. */
  ghost predicate EntriesBefore(table: seq<Entry>, n: nat, batchSize: nat)
    requires batchSize > 0
  {
    |table| == if n == 0 then 0 else (n - 1) / batchSize
  }

  /** The table after the check for a new batch before document n, counted from 0. */
  function WithBatch(table: seq<Entry>, n: nat, offset: nat, batchSize: nat): seq<Entry>
    requires batchSize > 0
  {
    if n > 0 && n % batchSize == 0 then table + [Entry(n, offset)] else table
  }

  lemma {:induction false} NextBatch(docs: seq<string>, table: seq<Entry>, batchSize: nat, n: nat)
    requires batchSize > 0 && BatchTable(docs, table, batchSize) && n == |docs| && EntriesBefore(table, n, batchSize)
    ensures var next := WithBatch(table, n, |Concat(docs)|, batchSize);
            BatchTable(docs, next, batchSize) && EntriesBefore(next, n + 1, batchSize)
  {
    if n > 0 {
      QuotientNext(n, batchSize);
    } else {
      Quotient(0, batchSize, 0, 0);
    }
    assert docs[..n] == docs;
  }

  // ----- the table of any input

  /** A line of a file: only the last one may lack its line feed. */
  ghost predicate FileLine(s: string) {
    s != "" && '\n' !in s[..|s| - 1]
  }

  function Feeds(s: string): nat {
    if s == "" then 0 else Feeds(s[..|s| - 1]) + if s[|s| - 1] == '\n' then 1 else 0
  }

  lemma {:induction false} FeedsOfSum(a: string, b: string)
    ensures Feeds(a + b) == Feeds(a) + Feeds(b)
    decreases |b|
  {
    if b == "" {
      assert a + b == a;
    } else {
      assert (a + b)[..|a + b| - 1] == a + b[..|b| - 1];
      FeedsOfSum(a, b[..|b| - 1]);
    }
  }

  lemma {:induction false} NoFeeds(s: string)
    requires '\n' !in s
    ensures Feeds(s) == 0
  {
    if s != "" {
      NoFeeds(s[..|s| - 1]);
    }
  }

  lemma {:induction false} FeedsOfFileLine(s: string)
    requires FileLine(s)
    ensures Feeds(s) <= 1 && (Feeds(s) == 1 <==> IsLine(s))
  {
    NoFeeds(s[..|s| - 1]);
  }

  /** A line that does not end the file has a line feed. */
  lemma {:induction false} FeedsOfLine(file: Bytes, pos: nat)
    requires pos <= |file| && LineEnd(file, pos) < |file|
    ensures Feeds(file[pos..LineEnd(file, pos)]) == 1
    decreases |file| - pos
  {
    var end := LineEnd(file, pos);
    if file[pos] == '\n' {
      assert file[pos..end] == "" + ['\n'];
      assert Feeds("") == 0 && (['\n'])[..0] == "";
    } else {
      FeedsOfLine(file, pos + 1);
      assert Feeds([file[pos]]) == 0 by {
        assert ([file[pos]])[..0] == "";
      }
      FeedsOfSum([file[pos]], file[pos + 1..end]);
      assert file[pos..end] == [file[pos]] + file[pos + 1..end];
    }
  }

  /** Before the end of the file, n plain line reads lead past n line feeds. */
  lemma {:induction false} FeedsAfter(file: Bytes, n: nat)
    requires After(file, 0, n) < |file|
    ensures Feeds(file[..After(file, 0, n)]) == n
  {
    if n > 0 {
      var pos := After(file, 0, n - 1);
      FeedsAfter(file, n - 1);
      FeedsOfLine(file, pos);
      FeedsOfSum(file[..pos], file[pos..LineEnd(file, pos)]);
      assert file[..LineEnd(file, pos)] == file[..pos] + file[pos..LineEnd(file, pos)];
    }
  }

  ghost predicate FileLines(lines: seq<string>) {
    forall i :: 0 <= i < |lines| ==> FileLine(lines[i])
  }

  lemma {:induction false} FeedsOfDocs(docs: seq<string>, k: nat)
    requires FileLines(docs) && k <= |docs|
    ensures Feeds(Concat(docs[..k])) <= k
    ensures Feeds(Concat(docs[..k])) == k <==> forall i :: 0 <= i < k ==> IsLine(docs[i])
  {
    if k > 0 {
      FeedsOfDocs(docs, k - 1);
      assert docs[..k][..k - 1] == docs[..k - 1];
      FeedsOfSum(Concat(docs[..k - 1]), docs[k - 1]);
      FeedsOfFileLine(docs[k - 1]);
      hide IsLine;
    }
  }

  /** The offset of documents with others behind them is right exactly if they are all lines. */
  lemma {:induction false} OffsetExactlyWhen(docs: seq<string>, k: nat)
    requires FileLines(docs) && k < |docs|
    ensures After(Concat(docs), 0, k) == |Concat(docs[..k])| <==> forall i :: 0 <= i < k ==> IsLine(docs[i])
  {
    hide IsLine, After, FileLine;
    var file, offset := Concat(docs), |Concat(docs[..k])|;
    if forall i :: 0 <= i < k ==> IsLine(docs[i]) {
      AfterDocs(docs, k);
    }
    if After(file, 0, k) == offset {
      ConcatOfFewer(docs, k);
      ConcatIsShorter(docs, k);
      FeedsAfter(file, k);
      FeedsOfDocs(docs, k);
      assert file[..offset] == Concat(docs[..k]);
    }
  }

  lemma {:induction false} ConcatIsShorter(docs: seq<string>, k: nat)
    requires FileLines(docs) && k < |docs|
    ensures |Concat(docs[..k])| < |Concat(docs)|
  {
    ConcatOfFewer(docs, k + 1);
    assert docs[..k + 1][..k] == docs[..k];
    assert docs[k] != "";
  }

  /** For any documents, the table is one of the output exactly if all documents before its last entry are lines. */
  lemma {:induction false} TableExactlyWhen(docs: seq<string>, table: seq<Entry>, batchSize: nat)
    requires batchSize > 0 && docs != [] && FileLines(docs) && BatchTable(docs, table, batchSize)
    requires EntriesBefore(table, |docs|, batchSize)
    ensures |table| * batchSize < |docs|
    ensures TableOf(Concat(docs), table) <==> forall i :: 0 <= i < |table| * batchSize ==> IsLine(docs[i])
  {
    hide IsLine, FileLine, Concat, After;
    var k, n := |table| * batchSize, |docs| - 1;
    assert n == |table| * batchSize + n % batchSize;
    if forall i :: 0 <= i < k ==> IsLine(docs[i]) {
      BatchTableIsTable(docs, table, batchSize);
    }
    if TableOf(Concat(docs), table) && table != [] {
      assert table[|table| - 1].line == k;
      OffsetExactlyWhen(docs, k);
    }
  }

  /** A document has at most one line feed, at its end, and has one exactly if its line has one behind the part that is
      replaced. */
  lemma {:induction false} DocIsFileLine(timestamp: int, line: string)
    requires FileLine(line)
    ensures FileLine(Doc(timestamp, line)) && (IsLine(Doc(timestamp, line)) <==> IsLine(line) && |line| > 24)
  {
    hide Digits;
    DigitsAreDigits(if timestamp < 0 then -timestamp else timestamp);
    var head := Prefix + Str(timestamp);
    assert '\n' !in head;
    if |line| > 24 {
      var tail := line[24..];
      assert Doc(timestamp, line) == head + tail;
      assert (head + tail)[..|head + tail| - 1] == head + line[..|line| - 1][24..];
      assert (head + tail)[|head + tail| - 1] == line[|line| - 1];
    } else {
      assert Doc(timestamp, line) == head;
      assert head[|head| - 1] in head;
    }
  }

  /** The first k lines that are read, over and over, have a line feed and are longer than what is replaced. */
  ghost predicate LongUpTo(lines: seq<string>, k: nat)
    requires lines != []
  {
    forall i :: 0 <= i < k ==> IsLine(lines[i % |lines|]) && |lines[i % |lines|]| > 24
  }

  lemma {:induction false} DocsOfFile(lines: seq<string>, start: int, interval: int, n: nat)
    requires lines != [] && FileLines(lines)
    ensures var docs := Docs(lines, start, interval, n);
            FileLines(docs) && forall i :: 0 <= i < n ==>
              (IsLine(docs[i]) <==> IsLine(lines[i % |lines|]) && |lines[i % |lines|]| > 24)
  {
    hide IsLine, FileLine, Doc, Timestamp;
    if n > 0 {
      DocsOfFile(lines, start, interval, n - 1);
      DocIsFileLine(Timestamp(start, interval, n - 1), lines[(n - 1) % |lines|]);
    }
  }

  /** The line of the last entry, if there is one. */
  function LastLine(table: seq<Entry>, batchSize: nat): nat {
    |table| * batchSize
  }

  /** For any input file: the table is one of the output exactly if all lines read before its last entry have a line
      feed and are longer than what is replaced. */
  lemma {:induction false} OutputTableExactlyWhen(lines: seq<string>, start: int, interval: int, n: nat,
                                                  table: seq<Entry>, batchSize: nat)
    requires lines != [] && FileLines(lines) && n > 0 && batchSize > 0
    requires BatchTable(Docs(lines, start, interval, n), table, batchSize) && EntriesBefore(table, n, batchSize)
    ensures TableOf(Concat(Docs(lines, start, interval, n)), table) <==> LongUpTo(lines, LastLine(table, batchSize))
  {
    hide IsLine, FileLine, Concat, BatchTable;
    DocsOfFile(lines, start, interval, n);
    TableExactlyWhen(Docs(lines, start, interval, n), table, batchSize);
  }

  /** What the method promises, once the loop is done. */
  ghost predicate Generated(docs: seq<string>, out: string, table: seq<Entry>, batchSize: nat)
    requires batchSize > 0 && |docs| > 0
  {
    && out == Concat(docs) && TableOf(out, table)
    && |table| == (|docs| - 1) / batchSize && (forall i :: 0 <= i < |table| ==> table[i].line == (i + 1) * batchSize)
    && After(out, 0, |docs|) == |out| && After(out, 0, |docs| - 1) < |out|
  }

  lemma {:induction false} AllGenerated(docs: seq<string>, table: seq<Entry>, batchSize: nat)
    requires batchSize > 0 && |docs| > 0 && BatchTable(docs, table, batchSize)
             && EntriesBefore(table, |docs|, batchSize)
    requires forall i :: 0 <= i < |docs| ==> IsLine(docs[i])
    ensures Generated(docs, Concat(docs), table, batchSize)
  {
    BatchTableIsTable(docs, table, batchSize);
    AfterDocs(docs, |docs|);
    StillInside(docs, |docs|);
    assert docs[..|docs|] == docs;
  }

  lemma {:induction false} OneMoreDoc(lines: seq<string>, start: int, interval: int, n: nat)
    requires lines != []
    ensures var doc := Doc(Timestamp(start, interval, n), lines[n % |lines|]);
            Docs(lines, start, interval, n + 1) == Docs(lines, start, interval, n) + [doc] && doc != ""
  {
  }

  const GB := 1000000000

  /** Write documents until there are enough of them, or enough bytes; the offset table gets an entry for every
      batch. */
  method GenerateDocs(generator: DocGenerator, nDocs: nat, corpusSize: nat, batchSize: nat)
    returns (out: string, table: seq<Entry>, n: nat)
    requires generator.Valid() && generator.lineNum == 0 && batchSize > 0 && (nDocs > 0 || corpusSize > 0)
    modifies generator
    ensures n > 0 && (nDocs > 0 ==> n <= nDocs)
    ensures n == nDocs || (corpusSize > 0 && |out| >= corpusSize * GB)
    ensures var docs := Docs(generator.lines, generator.start, generator.interval, n);
            && out == Concat(docs) && BatchTable(docs, table, batchSize) && EntriesBefore(table, n, batchSize)
            && (LongLines(generator.lines) ==> Generated(docs, out, table, batchSize))
    ensures FileLines(generator.lines) ==>
              (TableOf(out, table) <==> LongUpTo(generator.lines, LastLine(table, batchSize)))
  {
    hide Docs, Timestamp, Doc, IsLine, FileLine, LongLines, LongUpTo, BatchTable, Concat, EntriesBefore, TableOf,
      Generated;
    out, table, n := "", [], 0;
    var offset := 0;
    ghost var docs := [];
    NothingWritten(generator.lines, generator.start, generator.interval, batchSize);
    while true
      invariant generator.Valid() && generator.lineNum == n
      invariant docs == Docs(generator.lines, generator.start, generator.interval, n)
      invariant out == Concat(docs) && offset == |out|
      invariant BatchTable(docs, table, batchSize) && EntriesBefore(table, n, batchSize)
      invariant nDocs > 0 ==> n <= nDocs
      invariant n == 0 ==> out == ""
      decreases if nDocs > 0 then nDocs - n else corpusSize * GB - |out|
    {
      if nDocs > 0 && n >= nDocs {
        break;
      }
      if corpusSize > 0 && offset >= corpusSize * GB {
        break;
      }
      NextBatch(docs, table, batchSize, n);
      if n > 0 && n % batchSize == 0 {
        table := table + [Entry(n, offset)];
      }
      OneMoreDoc(generator.lines, generator.start, generator.interval, n);
      var line := generator.Next();
      BatchTableGrows(docs, line, table, batchSize);
      out := out + line;
      offset := offset + |line|;
      n := n + 1;
      docs := docs + [line];
    }
    if LongLines(generator.lines) {
      DocsAreLines(generator.lines, generator.start, generator.interval, n);
      AllGenerated(docs, table, batchSize);
    }
    if FileLines(generator.lines) {
      OutputTableExactlyWhen(generator.lines, generator.start, generator.interval, n, table, batchSize);
    }
  }

  lemma {:induction false} NothingWritten(lines: seq<string>, start: int, interval: int, batchSize: nat)
    requires lines != [] && batchSize > 0
    ensures Docs(lines, start, interval, 0) == [] && Concat([]) == "" && BatchTable([], [], batchSize)
    ensures EntriesBefore([], 0, batchSize)
  {
  }
}
