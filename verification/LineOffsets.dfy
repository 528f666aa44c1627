/** Line offsets of data files: utils/io.py, FileOffsetTable, prepare_file_offset_table and skip_lines. */
module LineOffsets {
  import opened Wrappers

  /** One character stands for one byte; lines end with a line feed. */
  type Bytes = string

  // ----- plain reading

  /** Where the line that starts at a position ends. */
  function LineEnd(file: Bytes, pos: nat): (end: nat)
    requires pos <= |file|
    ensures pos <= end <= |file| && (pos < |file| ==> pos < end)
    decreases |file| - pos
  {
    if pos == |file| then pos else if file[pos] == '\n' then pos + 1 else LineEnd(file, pos + 1)
  }

  /** Where n plain line reads lead. */
  function After(file: Bytes, pos: nat, n: nat): (end: nat)
    requires pos <= |file|
    ensures pos <= end <= |file|
  {
    if n == 0 then pos else LineEnd(file, After(file, pos, n - 1))
  }

  lemma {:induction false} AfterInTwo(file: Bytes, pos: nat, m: nat, n: nat)
    requires pos <= |file|
    ensures After(file, After(file, pos, m), n) == After(file, pos, m + n)
  {
    if n > 0 {
      AfterInTwo(file, pos, m, n - 1);
    }
  }

  lemma {:induction false} AfterGrows(file: Bytes, m: nat, n: nat)
    requires m < n && After(file, 0, n - 1) < |file|
    ensures After(file, 0, m) < After(file, 0, n)
    decreases n
  {
    if m < n - 1 {
      AfterGrows(file, m, n - 1);
    }
  }

  // ----- tables

  datatype Entry = Entry(line: nat, offset: nat)

  /** Every entry tells where plain reading of that many lines leads; both lines and offsets increase. */
  ghost predicate TableOf(file: Bytes, table: seq<Entry>) {
    && (forall i :: 0 <= i < |table| ==> table[i].offset == After(file, 0, table[i].line))
    && (forall i, j :: 0 <= i < j < |table| ==> table[i].line < table[j].line && table[i].offset < table[j].offset)
  }

  class DataFile {
    const bytes: Bytes
    var pos: nat

    ghost predicate Valid()
      reads this
    {
      pos <= |bytes|
    }

    constructor (bytes: Bytes)
      ensures this.bytes == bytes && pos == 0 && Valid()
    {
      this.bytes, pos := bytes, 0;
    }

    method Seek(offset: nat)
      requires offset <= |bytes|
      modifies this
      ensures Valid() && pos == offset
    {
      pos := offset;
    }

    method ReadLine() returns (line: Bytes)
      requires Valid()
      modifies this
      ensures Valid() && pos == After(bytes, old(pos), 1) && line == bytes[old(pos)..pos]
      ensures line == [] <==> old(pos) == |bytes|
    {
      var end := LineEnd(bytes, pos);
      assert After(bytes, pos, 0) == pos;
      line := bytes[pos..end];
      pos := end;
    }
  }

  /** An entry for every so many of the first lines. */
  ghost predicate EntryForEvery(table: seq<Entry>, every: nat, lines: nat)
    requires every > 0
  {
    |table| == lines / every && forall i :: 0 <= i < |table| ==> table[i].line == (i + 1) * every
  }

  /** The number of lines. */
  ghost predicate LinesOf(file: Bytes, lines: nat) {
    After(file, 0, lines) == |file| && (lines > 0 ==> After(file, 0, lines - 1) < |file|)
  }

  /** The table once the first lines are read. */
  ghost predicate TableUpTo(file: Bytes, table: seq<Entry>, every: nat, lines: nat)
    requires every > 0
  {
    && TableOf(file, table) && EntryForEvery(table, every, lines)
    && (lines > 0 ==> After(file, 0, lines - 1) < |file|)
  }

  /** Build the table of a file: an entry for every so many lines; the result is the number of lines. */
  method PrepareTable(file: DataFile, every: nat) returns (table: seq<Entry>, lines: nat)
    requires file.pos == 0 && every > 0
    modifies file
    ensures TableOf(file.bytes, table) && EntryForEvery(table, every, lines) && LinesOf(file.bytes, lines)
  {
    table, lines := [], 0;
    NothingRead(file.bytes, every);
    while true
      invariant file.Valid() && file.pos == After(file.bytes, 0, lines)
      invariant TableUpTo(file.bytes, table, every, lines)
      decreases |file.bytes| - file.pos
    {
      hide After, TableUpTo;
      var line := file.ReadLine();
      AfterInTwo(file.bytes, 0, lines, 1);
      if |line| == 0 {
        break;
      }
      LineRead(file.bytes, table, every, lines);
      lines := lines + 1;
      if lines % every == 0 {
        table := table + [Entry(lines, file.pos)];
      }
    }
  }

  lemma {:induction false} NothingRead(file: Bytes, every: nat)
    requires every > 0
    ensures After(file, 0, 0) == 0 && TableUpTo(file, [], every, 0)
  {
    Quotient(0, every, 0, 0);
  }

  lemma {:induction false} LineRead(file: Bytes, table: seq<Entry>, every: nat, lines: nat)
    requires every > 0 && TableUpTo(file, table, every, lines) && After(file, 0, lines) < |file|
    ensures var n := lines + 1;
            TableUpTo(file, if n % every == 0 then table + [Entry(n, After(file, 0, n))] else table, every, n)
  {
    var n := lines + 1;
    QuotientNext(n, every);
    if n % every == 0 {
      forall i | 0 <= i < |table| ensures table[i].line < n {
        NotBeyond(i + 1, |table|, every);
      }
      NextEntry(file, table, n);
    }
  }

  lemma {:induction false} NotBeyond(m: nat, n: nat, every: nat)
    requires m <= n && every > 0
    ensures m * every < (n + 1) * every
  {
    assert (n + 1) * every - m * every == (n - m) * every + every;
  }

  lemma {:induction false} QuotientNext(n: nat, every: nat)
    requires n > 0 && every > 0
    ensures n / every == (n - 1) / every + (if n % every == 0 then 1 else 0)
    ensures n % every == 0 ==> n == (n / every) * every
  {
    var q, r := (n - 1) / every, (n - 1) % every;
    assert n - 1 == q * every + r;
    if r + 1 == every {
      assert n == (q + 1) * every;
      Quotient(n, every, q + 1, 0);
    } else {
      Quotient(n, every, q, r + 1);
    }
  }

  lemma {:induction false} Quotient(n: nat, every: nat, q: nat, r: nat)
    requires every > 0 && r < every && n == q * every + r
    ensures n / every == q && n % every == r
  {
    var d := n / every - q;
    assert n == (n / every) * every + n % every;
    assert d * every == r - n % every;
    if d != 0 {
      NotSmall(d, every);
      assert false;
    }
  }

  lemma {:induction false} NotSmall(d: int, every: nat)
    requires d != 0
    ensures d * every >= every || d * every + every <= 0
  {
    if d > 0 {
      assert (d - 1) * every >= 0;
    } else {
      assert (-d - 1) * every >= 0;
    }
  }

  lemma {:induction false} NextEntry(file: Bytes, table: seq<Entry>, lines: nat)
    requires TableOf(file, table) && lines > 0 && After(file, 0, lines - 1) < |file|
    requires forall i :: 0 <= i < |table| ==> table[i].line < lines
    ensures TableOf(file, table + [Entry(lines, After(file, 0, lines))])
  {
    forall i | 0 <= i < |table| ensures table[i].offset < After(file, 0, lines) {
      AfterGrows(file, table[i].line, lines);
    }
  }

  /** The closest entry at or before a line, and the lines that are left. */
  method FindClosestOffset(file: Bytes, table: seq<Entry>, target: nat) returns (offset: nat, remaining: nat)
    requires TableOf(file, table)
    ensures remaining <= target && offset == After(file, 0, target - remaining)
    ensures forall i :: 0 <= i < |table| && table[i].line <= target ==> table[i].line <= target - remaining
    ensures remaining == target || Entry(target - remaining, offset) in table
  {
    offset, remaining := 0, target;
    var i := 0;
    while i < |table|
      invariant i <= |table| && remaining <= target && offset == After(file, 0, target - remaining)
      invariant forall j :: 0 <= j < i ==> table[j].line <= target - remaining
      invariant remaining == target || Entry(target - remaining, offset) in table
    {
      if table[i].line <= target {
        offset, remaining := table[i].offset, target - table[i].line;
        assert table[i] == Entry(target - remaining, offset);
      } else {
        break;
      }
      i := i + 1;
    }
  }

  /** Skipping leads where as many plain line reads lead, past the end of the file too. */
  method SkipLines(file: DataFile, table: Option<seq<Entry>>, n: nat)
    requires file.pos == 0 && (table.Some? ==> TableOf(file.bytes, table.value))
    modifies file
    ensures file.Valid() && file.pos == After(file.bytes, 0, n)
  {
    if n == 0 {
      return;
    }
    hide TableOf, LineEnd;
    var offset, remaining := 0, n;
    if table.Some? {
      offset, remaining := FindClosestOffset(file.bytes, table.value, n);
    }
    file.Seek(offset);
    for i := 0 to remaining
      invariant file.Valid() && file.pos == After(file.bytes, 0, n - remaining + i)
    {
      AfterInTwo(file.bytes, 0, n - remaining + i, 1);
      var _ := file.ReadLine();
    }
  }
}
