/** Vector data sets read through a file cursor, and by slicing: utils/dataset.py. */
module DataSets {
  import opened Wrappers

  newtype Byte = b: int | 0 <= b < 256

  /** A row of numbers, each the little-endian value of its bytes. */
  type Row = seq<int>

  function LittleEndian(bytes: seq<Byte>): nat {
    if bytes == [] then 0 else bytes[0] as nat + 256 * LittleEndian(bytes[1..])
  }

  // ----- the format

  datatype Kind = U8Bin | FBin | GroundTruth

  function BytesPerNum(kind: Kind): (n: nat)
    ensures n > 0
  {
    if kind == U8Bin then 1 else 4
  }

  /** Ground truth has identifiers, then as many distances. */
  function Parts(kind: Kind): (n: nat)
    ensures n == 1 || n == 2
  {
    if kind == GroundTruth then 2 else 1
  }

  const HEADER := 8

  function RowsIn(disk: seq<Byte>): nat
    requires |disk| >= HEADER
  {
    LittleEndian(disk[..4])
  }

  function RowLengthIn(disk: seq<Byte>): nat
    requires |disk| >= HEADER
  {
    LittleEndian(disk[4..8])
  }

  function Times(n: nat, size: nat): nat {
    n * size
  }

  lemma {:induction false} TimesNext(n: nat, size: nat)
    ensures Times(0, size) == 0 && Times(n + 1, size) == Times(n, size) + size
  {
  }

  lemma {:induction false} TimesMonotone(m: nat, n: nat, size: nat)
    requires m <= n
    ensures Times(m, size) <= Times(n, size)
  {
  }

  /** The bytes of a row. */
  function Width(kind: Kind, rowLength: nat): nat {
    Times(rowLength, BytesPerNum(kind))
  }

  /** Where row i is stored. */
  function Offset(disk: seq<Byte>, kind: Kind, i: nat): nat
    requires |disk| >= HEADER
  {
    HEADER + Times(i, Width(kind, RowLengthIn(disk)))
  }

  /** The size agrees with the header. */
  predicate WellFormed(disk: seq<Byte>, kind: Kind) {
    |disk| >= HEADER && |disk| - HEADER == Parts(kind) * (RowsIn(disk) * RowLengthIn(disk) * BytesPerNum(kind))
  }

  /** What a read of n bytes returns: fewer at the end of the file. */
  function Bytes(disk: seq<Byte>, at: nat, n: nat): seq<Byte> {
    if at >= |disk| then [] else if at + n > |disk| then disk[at..] else disk[at..at + n]
  }

  /** The row that is stored at a place in the file. */
  function RowAt(disk: seq<Byte>, kind: Kind, at: nat, n: nat): (row: Row)
    requires at + Times(n, BytesPerNum(kind)) <= |disk|
    ensures |row| == n
  {
    if n == 0 then []
    else
      TimesNext(n - 1, BytesPerNum(kind));
      var from := at + Times(n - 1, BytesPerNum(kind));
      RowAt(disk, kind, at, n - 1) + [LittleEndian(disk[from..from + BytesPerNum(kind)])]
  }

  /** Row i of a file. */
  function RowOf(disk: seq<Byte>, kind: Kind, i: nat): (row: Row)
    requires WellFormed(disk, kind) && i < RowsIn(disk)
  {
    RowIsInside(disk, kind, i);
    RowAt(disk, kind, Offset(disk, kind, i), RowLengthIn(disk))
  }

  /** The rows of a file: those that the slicing reader holds. */
  function Data(disk: seq<Byte>, kind: Kind): (rows: seq<Row>)
    requires WellFormed(disk, kind)
    ensures |rows| == RowsIn(disk)
  {
    seq(RowsIn(disk), i requires 0 <= i < RowsIn(disk) => RowOf(disk, kind, i))
  }

  /** Where the rows end: of ground truth they are the first half of the body. */
  function RowsEnd(disk: seq<Byte>, kind: Kind): nat
    requires |disk| >= HEADER
  {
    HEADER + (|disk| - HEADER) / Parts(kind)
  }

  /** All rows lie in their part of the body. */
  lemma {:induction false} RowIsInside(disk: seq<Byte>, kind: Kind, i: nat)
    requires WellFormed(disk, kind) && i < RowsIn(disk)
    ensures Offset(disk, kind, i) + Width(kind, RowLengthIn(disk)) <= RowsEnd(disk, kind) <= |disk|
  {
    var width := Width(kind, RowLengthIn(disk));
    TimesNext(i, width);
    TimesMonotone(i + 1, RowsIn(disk), width);
    RowsEndThere(disk, kind);
  }

  /** The rows end exactly where their part of the body does. */
  lemma {:induction false} RowsEndThere(disk: seq<Byte>, kind: Kind)
    requires WellFormed(disk, kind)
    ensures Offset(disk, kind, RowsIn(disk)) == RowsEnd(disk, kind) <= |disk|
  {
    var n := RowsIn(disk) * RowLengthIn(disk) * BytesPerNum(kind);
    Product(RowLengthIn(disk), BytesPerNum(kind), RowsIn(disk));
    assert RowLengthIn(disk) * BytesPerNum(kind) * RowsIn(disk) == n;
    PartOf(n, Parts(kind));
  }

  lemma {:induction false} PartOf(n: nat, parts: nat)
    requires parts == 1 || parts == 2
    ensures parts * n / parts == n <= parts * n
  {
  }

  lemma {:induction false} AtLeastOnce(n: nat, parts: nat)
    requires parts > 0
    ensures n <= parts * n
  {
  }

  // ----- reading by slices

  /** data[from:to] in Python: negative positions count from the end. */
  function Slice(data: seq<Row>, from: int, to: int): seq<Row> {
    var a, b := Position(|data|, from), Position(|data|, to);
    if a <= b then data[a..b] else []
  }

  function Position(n: nat, i: int): (p: nat)
    ensures p <= n
  {
    if i < 0 then (if n + i < 0 then 0 else n + i) else if i > n then n else i
  }

  function EndOffset(n: nat, current: int, chunk: int): int {
    if current + chunk > n then n else current + chunk
  }

  /** The file position of a row. */
  function ByteOffset(rowLength: nat, bytesPerNum: nat, offset: nat): nat {
    HEADER + rowLength * bytesPerNum * offset
  }

  /** What a read returns, None at the end, and where it leaves the reader. */
  function ReadFrom(data: seq<Row>, current: int, chunk: int): (Option<seq<Row>>, int) {
    if current >= |data| then (None, current)
    else (Some(Slice(data, current, EndOffset(|data|, current, chunk))), EndOffset(|data|, current, chunk))
  }

  predicate SeekFails(n: nat, offset: int) {
    offset < 0 || offset >= n
  }

  class SlicingDataSet {
    const data: seq<Row>
    var current: int

    constructor (data: seq<Row>)
      ensures this.data == data && current == 0
    {
      this.data, current := data, 0;
    }

    method Read(chunk: int) returns (rows: Option<seq<Row>>)
      modifies this
      ensures (rows, current) == ReadFrom(data, old(current), chunk)
    {
      if current >= |data| {
        return None;
      }
      var end := current + chunk;
      if end > |data| {
        end := |data|;
      }
      rows := Some(Slice(data, current, end));
      current := end;
    }

    method Seek(offset: int) returns (ok: bool)
      modifies this
      ensures ok <==> !SeekFails(|data|, offset)
      ensures current == if ok then offset else old(current)
    {
      if offset < 0 || offset >= |data| {
        return false;
      }
      current := offset;
      return true;
    }

    method Reset()
      modifies this
      ensures current == 0
    {
      current := 0;
    }
  }

  // ----- reading with a cursor

  /** The reader: the fields are those of the header once the file is open. */
  datatype Cursor = Cursor(isOpen: bool, position: nat, current: int, rows: nat, rowLength: nat, bytesPerNum: nat)

  const Unopened := Cursor(false, 0, 0, 0, 0, 0)

  datatype Error = InvalidFile | ShortRead | BadOffset

  /** The file position after a read of n bytes. */
  function Advance(disk: seq<Byte>, at: nat, n: nat): nat {
    at + |Bytes(disk, at, n)|
  }

  /** Opening happens once: a file that fails the check stays open, and is not checked again. */
  function Opened(disk: seq<Byte>, kind: Kind, c: Cursor): Cursor {
    if c.isOpen then c
    else if |disk| < HEADER then c.(isOpen := true, position := |disk|)
    else Cursor(true, HEADER, c.current, RowsIn(disk), RowLengthIn(disk), BytesPerNum(kind))
  }

  predicate OpenFails(disk: seq<Byte>, kind: Kind, c: Cursor) {
    !c.isOpen && !WellFormed(disk, kind)
  }

  /** A number as it is read: a float that is cut off is an error, a cut off integer is not. */
  function ReadNumber(disk: seq<Byte>, kind: Kind, at: nat): Result<int, Error> {
    var bytes := Bytes(disk, at, BytesPerNum(kind));
    if kind == FBin && |bytes| < 4 then Err(ShortRead) else Ok(LittleEndian(bytes))
  }

  function ReadRow(disk: seq<Byte>, kind: Kind, at: nat, n: nat): Result<Row, Error> {
    if n == 0 then Ok([])
    else
      var row := ReadRow(disk, kind, at, n - 1);
      if row.Err? then row
      else
        var number := ReadNumber(disk, kind, Advance(disk, at, Times(n - 1, BytesPerNum(kind))));
        if number.Err? then Err(number.error) else Ok(row.value + [number.value])
  }

  function ReadRows(disk: seq<Byte>, kind: Kind, at: nat, rowLength: nat, n: nat): Result<seq<Row>, Error> {
    if n == 0 then Ok([])
    else
      var rows := ReadRows(disk, kind, at, rowLength, n - 1);
      if rows.Err? then rows
      else
        var row := ReadRow(disk, kind, Advance(disk, at, Times(n - 1, Width(kind, rowLength))), rowLength);
        if row.Err? then Err(row.error) else Ok(rows.value + [row.value])
  }

  /** How many rows a read takes: none for a negative size. */
  function Count(c: Cursor, chunk: int): nat {
    var end := EndOffset(c.rows, c.current, chunk);
    if end < c.current then 0 else end - c.current
  }

  function CursorRead(disk: seq<Byte>, kind: Kind, c: Cursor, chunk: int): Result<Option<seq<Row>>, Error> {
    var open := Opened(disk, kind, c);
    if OpenFails(disk, kind, c) then Err(InvalidFile)
    else if open.current >= open.rows then Ok(None)
    else
      var rows := ReadRows(disk, kind, open.position, open.rowLength, Count(open, chunk));
      if rows.Err? then Err(rows.error) else Ok(Some(rows.value))
  }

  /** The reader after a read that is cut short: the file is at its end, the reader is not. */
  function AfterShortRead(disk: seq<Byte>, kind: Kind, c: Cursor): Cursor {
    var open := Opened(disk, kind, c);
    open.(position := Exhausted(disk, open.position))
  }

  function Exhausted(disk: seq<Byte>, at: nat): nat {
    if at > |disk| then at else |disk|
  }

  /** The reader after a read that raises no error. */
  function AfterRead(disk: seq<Byte>, kind: Kind, c: Cursor, chunk: int): Cursor {
    var open := Opened(disk, kind, c);
    if open.current >= open.rows then open
    else
      open.(position := Advance(disk, open.position, Times(Count(open, chunk), Width(kind, open.rowLength))),
            current := EndOffset(open.rows, open.current, chunk))
  }

  class CursorDataSet {
    const disk: seq<Byte>
    const kind: Kind
    var isOpen: bool
    var position: nat
    var current: int
    var rows: nat
    var rowLength: nat
    var bytesPerNum: nat

    function Now(): Cursor
      reads this
    {
      Cursor(isOpen, position, current, rows, rowLength, bytesPerNum)
    }

    constructor (disk: seq<Byte>, kind: Kind)
      ensures this.disk == disk && this.kind == kind && Now() == Unopened
    {
      this.disk, this.kind := disk, kind;
      isOpen, position, current, rows, rowLength, bytesPerNum := false, 0, 0, 0, 0, 0;
    }

    method Load() returns (ok: bool)
      modifies this
      ensures ok <==> !OpenFails(disk, kind, old(Now()))
      ensures Now() == Opened(disk, kind, old(Now())) && isOpen
    {
      if isOpen {
        return true;
      }
      isOpen := true;
      position := |disk|;
      if |disk| < HEADER {
        return false;
      }
      rows, rowLength := LittleEndian(disk[..4]), LittleEndian(disk[4..8]);
      position := HEADER;
      bytesPerNum := BytesPerNum(kind);
      return |disk| - HEADER == Parts(kind) * (rows * rowLength * bytesPerNum);
    }

    method ReadVector() returns (row: Result<Row, Error>)
      requires isOpen
      modifies this`position
      ensures row == ReadRow(disk, kind, old(position), rowLength)
      ensures position == if row.Ok? then Advance(disk, old(position), Width(kind, rowLength))
              else Exhausted(disk, old(position))
    {
      var numbers: Row := [];
      hide Times, Bytes, ReadNumber;
      TimesNext(0, BytesPerNum(kind));
      AdvanceNothing(disk, position);
      for i := 0 to rowLength
        invariant ReadRow(disk, kind, old(position), i) == Ok(numbers)
        invariant position == Advance(disk, old(position), Times(i, BytesPerNum(kind)))
      {
        TimesNext(i, BytesPerNum(kind));
        var number := ReadNumber(disk, kind, position);
        AdvanceTwice(disk, old(position), Times(i, BytesPerNum(kind)), BytesPerNum(kind));
        position := Advance(disk, position, BytesPerNum(kind));
        if number.Err? {
          ShortIsExhausted(disk, kind, old(position), Times(i, BytesPerNum(kind)));
          ErrorInRow(disk, kind, old(position), i + 1, rowLength);
          return Err(number.error);
        }
        numbers := numbers + [number.value];
      }
      return Ok(numbers);
    }

    method ReadVectors(n: nat) returns (vectors: Result<seq<Row>, Error>)
      requires isOpen
      modifies this`position
      ensures vectors == ReadRows(disk, kind, old(position), rowLength, n)
      ensures position == if vectors.Ok? then Advance(disk, old(position), Times(n, Width(kind, rowLength)))
                          else Exhausted(disk, old(position))
    {
      hide Times, Width, Bytes, ReadRow;
      var rows: seq<Row> := [];
      TimesNext(0, Width(kind, rowLength));
      AdvanceNothing(disk, position);
      for i := 0 to n
        invariant position == Advance(disk, old(position), Times(i, Width(kind, rowLength)))
        invariant ReadRows(disk, kind, old(position), rowLength, i) == Ok(rows)
      {
        TimesNext(i, Width(kind, rowLength));
        AdvanceTwice(disk, old(position), Times(i, Width(kind, rowLength)), Width(kind, rowLength));
        var row := ReadVector();
        if row.Err? {
          ExhaustedAfter(disk, old(position), Times(i, Width(kind, rowLength)));
          ErrorInRows(disk, kind, old(position), rowLength, i + 1, n);
          return Err(row.error);
        }
        rows := rows + [row.value];
      }
      return Ok(rows);
    }

    method Read(chunk: int) returns (result: Result<Option<seq<Row>>, Error>)
      modifies this
      ensures result == CursorRead(disk, kind, old(Now()), chunk)
      ensures Now() == match result
                       case Ok(_) => AfterRead(disk, kind, old(Now()), chunk)
                       case Err(InvalidFile) => Opened(disk, kind, old(Now()))
                       case Err(_) => AfterShortRead(disk, kind, old(Now()))
    {
      hide ReadRows, Advance, Times, Width, OpenFails, Opened;
      var ok := Load();
      if !ok {
        return Err(InvalidFile);
      }
      if current >= rows {
        return Ok(None);
      }
      var end := current + chunk;
      if end > rows {
        end := rows;
      }
      ReadErrors(disk, kind, position, rowLength, if end < current then 0 else end - current);
      var vectors := ReadVectors(if end < current then 0 else end - current);
      if vectors.Err? {
        return Err(vectors.error);
      }
      current := end;
      return Ok(Some(vectors.value));
    }

    method Seek(offset: int) returns (result: Result<bool, Error>)
      modifies this
      ensures result == if OpenFails(disk, kind, old(Now())) then Err(InvalidFile)
                        else if SeekFails(Opened(disk, kind, old(Now())).rows, offset) then Err(BadOffset)
                        else Ok(true)
      ensures Now() == var open := Opened(disk, kind, old(Now()));
                if result.Err? then open
                else open.(position := ByteOffset(open.rowLength, open.bytesPerNum, offset), current := offset)
    {
      hide OpenFails, Opened, ByteOffset;
      var ok := Load();
      if !ok {
        return Err(InvalidFile);
      }
      if offset < 0 || offset >= rows {
        return Err(BadOffset);
      }
      position := ByteOffset(rowLength, bytesPerNum, offset);
      current := offset;
      return Ok(true);
    }

    method Reset()
      modifies this
      ensures Now() == old(Now()).(current := 0, position := if isOpen then HEADER else old(position))
    {
      if isOpen {
        position := HEADER;
      }
      current := 0;
    }
  }

  lemma {:induction false} AdvanceNothing(disk: seq<Byte>, at: nat)
    ensures Advance(disk, at, 0) == at
  {
  }

  lemma {:induction false} AdvanceTwice(disk: seq<Byte>, at: nat, m: nat, n: nat)
    ensures Advance(disk, Advance(disk, at, m), n) == Advance(disk, at, m + n)
  {
  }

  lemma {:induction false} ExhaustedAfter(disk: seq<Byte>, at: nat, n: nat)
    ensures Exhausted(disk, Advance(disk, at, n)) == Exhausted(disk, at)
  {
  }

  lemma {:induction false} ShortIsExhausted(disk: seq<Byte>, kind: Kind, at: nat, n: nat)
    requires ReadNumber(disk, kind, Advance(disk, at, n)).Err?
    ensures Advance(disk, at, n + BytesPerNum(kind)) == Exhausted(disk, at)
  {
  }

  lemma {:induction false} ErrorInRow(disk: seq<Byte>, kind: Kind, at: nat, m: nat, n: nat)
    requires m <= n && ReadRow(disk, kind, at, m).Err?
    ensures ReadRow(disk, kind, at, n) == ReadRow(disk, kind, at, m)
    decreases n
  {
    hide ReadNumber, Advance, Times;
    if m < n {
      ErrorInRow(disk, kind, at, m, n - 1);
    }
  }

  lemma {:induction false} ErrorInRows(disk: seq<Byte>, kind: Kind, at: nat, rowLength: nat, m: nat, n: nat)
    requires m <= n && ReadRows(disk, kind, at, rowLength, m).Err?
    ensures ReadRows(disk, kind, at, rowLength, n) == ReadRows(disk, kind, at, rowLength, m)
    decreases n
  {
    hide ReadRow, Advance, Times, Width;
    if m < n {
      ErrorInRows(disk, kind, at, rowLength, m, n - 1);
    }
  }

  // ----- the cursor reader refines the slicing reader

  /** The fields are those of the header, and the file position is that of the current row. */
  ghost predicate Valid(disk: seq<Byte>, kind: Kind, c: Cursor) {
    && WellFormed(disk, kind)
    && if c.isOpen then
         && c.rows == RowsIn(disk) && c.rowLength == RowLengthIn(disk) && c.bytesPerNum == BytesPerNum(kind)
         && 0 <= c.current <= c.rows && c.position == Offset(disk, kind, c.current)
       else
         c.current == 0
  }

  lemma {:induction false} OpenedIsValid(disk: seq<Byte>, kind: Kind, c: Cursor)
    requires Valid(disk, kind, c)
    ensures Valid(disk, kind, Opened(disk, kind, c)) && Opened(disk, kind, c).isOpen && !OpenFails(disk, kind, c)
    ensures Opened(disk, kind, c).current == c.current
  {
    hide Times;
    TimesNext(0, Width(kind, RowLengthIn(disk)));
  }

  lemma {:induction false} BytesInside(disk: seq<Byte>, at: nat, n: nat)
    requires at + n <= |disk|
    ensures Bytes(disk, at, n) == disk[at..at + n] && Advance(disk, at, n) == at + n
  {
  }

  lemma {:induction false} ReadRowReadsRow(disk: seq<Byte>, kind: Kind, at: nat, n: nat)
    requires at + Times(n, BytesPerNum(kind)) <= |disk|
    ensures ReadRow(disk, kind, at, n) == Ok(RowAt(disk, kind, at, n))
  {
    hide Times, Bytes, Advance;
    if n > 0 {
      var size := BytesPerNum(kind);
      TimesNext(n - 1, size);
      ReadRowReadsRow(disk, kind, at, n - 1);
      BytesInside(disk, at, Times(n - 1, size));
      BytesInside(disk, at + Times(n - 1, size), size);
    }
  }

  lemma {:induction false} ReadRowsInTurn(disk: seq<Byte>, kind: Kind, at: nat, length: nat, rows: seq<Row>, n: nat)
    requires n <= |rows| && forall j :: 0 <= j < |rows| ==> RowReadAt(disk, kind, at, length, rows, j)
    ensures ReadRows(disk, kind, at, length, n) == Ok(rows[..n])
  {
    hide Advance, ReadRow, Times, Width;
    if n > 0 {
      ReadRowsInTurn(disk, kind, at, length, rows, n - 1);
      assert RowReadAt(disk, kind, at, length, rows, n - 1);
      assert rows[..n] == rows[..n - 1] + [rows[n - 1]];
    }
  }

  ghost predicate RowReadAt(disk: seq<Byte>, kind: Kind, at: nat, length: nat, rows: seq<Row>, j: nat)
    requires j < |rows|
  {
    ReadRow(disk, kind, Advance(disk, at, Times(j, Width(kind, length))), length) == Ok(rows[j])
  }

  lemma {:induction false} ReadRowsReadsData(disk: seq<Byte>, kind: Kind, i: nat, n: nat)
    requires WellFormed(disk, kind) && i + n <= RowsIn(disk)
    ensures ReadRows(disk, kind, Offset(disk, kind, i), RowLengthIn(disk), n) == Ok(Data(disk, kind)[i..i + n])
    ensures Advance(disk, Offset(disk, kind, i), Times(n, Width(kind, RowLengthIn(disk)))) == Offset(disk, kind, i + n)
  {
    var rows := Data(disk, kind)[i..i + n];
    hide ReadRows, ReadRow, RowAt, Advance, Times, Data, Width, Offset, WellFormed, RowOf;
    forall j | 0 <= j < |rows| ensures RowReadAt(disk, kind, Offset(disk, kind, i), RowLengthIn(disk), rows, j) {
      RowIsRead(disk, kind, i, n, j);
    }
    AdvanceRows(disk, kind, i, n);
    ReadRowsInTurn(disk, kind, Offset(disk, kind, i), RowLengthIn(disk), rows, n);
    assert rows[..n] == rows;
  }

  lemma {:induction false} RowIsRead(disk: seq<Byte>, kind: Kind, i: nat, n: nat, j: nat)
    requires WellFormed(disk, kind) && i + n <= RowsIn(disk) && j < n
    ensures RowReadAt(disk, kind, Offset(disk, kind, i), RowLengthIn(disk), Data(disk, kind)[i..i + n], j)
  {
    hide ReadRow, RowAt, Advance, Times, Data, Width, Offset, WellFormed, RowOf;
    AdvanceRows(disk, kind, i, j);
    OneRowRead(disk, kind, i + j);
  }

  lemma {:induction false} AdvanceRows(disk: seq<Byte>, kind: Kind, i: nat, n: nat)
    requires WellFormed(disk, kind) && i + n <= RowsIn(disk)
    ensures Advance(disk, Offset(disk, kind, i), Times(n, Width(kind, RowLengthIn(disk)))) == Offset(disk, kind, i + n)
  {
    hide Advance, Times;
    var width := Width(kind, RowLengthIn(disk));
    if n == 0 {
      TimesNext(0, width);
      AdvanceNothing(disk, Offset(disk, kind, i));
    } else {
      AdvanceRows(disk, kind, i, n - 1);
      RowIsInside(disk, kind, i + n - 1);
      BytesInside(disk, Offset(disk, kind, i + n - 1), width);
      TimesNext(n - 1, width);
      TimesNext(i + n - 1, width);
      AdvanceTwice(disk, Offset(disk, kind, i), Times(n - 1, width), width);
    }
  }

  lemma {:induction false} OneRowRead(disk: seq<Byte>, kind: Kind, i: nat)
    requires WellFormed(disk, kind) && i < RowsIn(disk)
    ensures ReadRow(disk, kind, Offset(disk, kind, i), RowLengthIn(disk)) == Ok(Data(disk, kind)[i])
  {
    RowIsInside(disk, kind, i);
    ReadRowReadsRow(disk, kind, Offset(disk, kind, i), RowLengthIn(disk));
  }

  /** A read of the cursor reader returns the rows the slicing reader returns, and leaves the cursor at the same row. */
  lemma {:induction false} ReadRefines(disk: seq<Byte>, kind: Kind, c: Cursor, chunk: nat)
    requires Valid(disk, kind, c)
    ensures var (rows, current) := ReadFrom(Data(disk, kind), c.current, chunk);
            && CursorRead(disk, kind, c, chunk) == Ok(rows)
            && AfterRead(disk, kind, c, chunk).current == current
            && Valid(disk, kind, AfterRead(disk, kind, c, chunk))
  {
    hide WellFormed, Data, ReadRows, Advance, Times;
    OpenedIsValid(disk, kind, c);
    var open := Opened(disk, kind, c);
    if open.current < open.rows {
      ReadRowsReadsData(disk, kind, open.current, Count(open, chunk));
    }
  }

  /** The bytes that a read asks for end within the part of the body that has the rows. */
  lemma {:induction false} ReadStaysInside(disk: seq<Byte>, kind: Kind, c: Cursor, chunk: int)
    requires Valid(disk, kind, c)
    ensures var open := Opened(disk, kind, c);
            open.position + Times(Count(open, chunk), Width(kind, open.rowLength)) <= RowsEnd(disk, kind) <= |disk|
  {
    OpenedIsValid(disk, kind, c);
    var open := Opened(disk, kind, c);
    var n, width := Count(open, chunk), Width(kind, RowLengthIn(disk));
    RowsEndThere(disk, kind);
    hide WellFormed, Opened;
    TimesSum(open.current, n, width);
    TimesMonotone(open.current + n, open.rows, width);
  }

  lemma {:induction false} TimesSum(m: nat, n: nat, size: nat)
    ensures Times(m, size) + Times(n, size) == Times(m + n, size)
  {
  }

  /** A negative size before the end: no rows, the cursor moves back, the file does not. */
  lemma {:induction false} NegativeReadLosesPlace(disk: seq<Byte>, kind: Kind, c: Cursor, chunk: int)
    requires Valid(disk, kind, c) && chunk < 0 && c.current < RowsIn(disk)
    ensures CursorRead(disk, kind, c, chunk) == Ok(Some([]))
    ensures var after := AfterRead(disk, kind, c, chunk);
            && after.current == c.current + chunk
            && (Valid(disk, kind, after) <==> c.current + chunk >= 0 && RowLengthIn(disk) == 0)
  {
    OpenedIsValid(disk, kind, c);
    var open := Opened(disk, kind, c);
    var width := Width(kind, RowLengthIn(disk));
    hide WellFormed, Times;
    TimesNext(0, width);
    AdvanceNothing(disk, open.position);
    if c.current + chunk >= 0 {
      SamePlace(c.current, c.current + chunk, width);
      SizeIsZero(RowLengthIn(disk), BytesPerNum(kind));
    }
  }

  lemma {:induction false} NegativeSlice(data: seq<Row>, current: nat, chunk: int)
    requires current < |data| && chunk < 0
    ensures ReadFrom(data, current, chunk).0 == Some([]) <==> current + chunk >= 0 || |data| + chunk <= 0
  {
  }

  /** For every size, the readers return the same exactly if it is not negative, if the reader is at the end, or if the
      slice is empty: a slice that begins below zero counts from the end and may return rows. */
  lemma {:induction false} ReadAgreesExactlyWhen(disk: seq<Byte>, kind: Kind, c: Cursor, chunk: int)
    requires Valid(disk, kind, c)
    ensures CursorRead(disk, kind, c, chunk) == Ok(ReadFrom(Data(disk, kind), c.current, chunk).0)
            <==> chunk >= 0 || c.current >= RowsIn(disk) || c.current + chunk >= 0 || RowsIn(disk) + chunk <= 0
  {
    hide Data;
    if chunk >= 0 {
      ReadRefines(disk, kind, c, chunk);
    } else if c.current >= RowsIn(disk) {
      ReadAtEnd(disk, kind, c, chunk);
    } else {
      NegativeReadLosesPlace(disk, kind, c, chunk);
      NegativeSlice(Data(disk, kind), c.current, chunk);
    }
  }

  lemma {:induction false} ReadAtEnd(disk: seq<Byte>, kind: Kind, c: Cursor, chunk: int)
    requires Valid(disk, kind, c) && c.current >= RowsIn(disk)
    ensures CursorRead(disk, kind, c, chunk) == Ok(None)
            && ReadFrom(Data(disk, kind), c.current, chunk) == (None, c.current)
    ensures AfterRead(disk, kind, c, chunk) == Opened(disk, kind, c) && Valid(disk, kind, Opened(disk, kind, c))
  {
    OpenedIsValid(disk, kind, c);
  }

  lemma {:induction false} SamePlace(m: nat, n: nat, size: nat)
    requires n < m
    ensures Times(m, size) == Times(n, size) <==> size == 0
  {
    assert m * size - n * size == (m - n) * size;
    if size > 0 {
      AtLeastOnce(size, m - n);
    }
  }

  lemma {:induction false} SizeIsZero(n: nat, size: nat)
    requires size > 0
    ensures Times(n, size) == 0 <==> n == 0
  {
    AtLeastOnce(n, size);
  }

  // ----- reads that are cut short

  /** Floats that are cut off are an error, and only they: a read of rows fails exactly if it asks for floats beyond the
      end of the file. */
  lemma {:induction false} ShortReadExactlyWhen(disk: seq<Byte>, kind: Kind, at: nat, rowLength: nat, n: nat)
    requires at <= |disk|
    ensures ReadRows(disk, kind, at, rowLength, n).Err? <==>
              kind == FBin && at + Times(n, Width(kind, rowLength)) > |disk|
  {
    hide Times, Advance, ReadRow;
    var width := Width(kind, rowLength);
    if n == 0 {
      TimesNext(0, width);
    } else {
      ShortReadExactlyWhen(disk, kind, at, rowLength, n - 1);
      TimesNext(n - 1, width);
      AdvanceIs(disk, at, Times(n - 1, width));
      ShortRowExactlyWhen(disk, kind, Advance(disk, at, Times(n - 1, width)), rowLength);
      hide Width;
    }
  }

  lemma {:induction false} AdvanceIs(disk: seq<Byte>, at: nat, n: nat)
    requires at <= |disk|
    ensures Advance(disk, at, n) == if at + n > |disk| then |disk| else at + n
  {
  }

  lemma {:induction false} ShortRowExactlyWhen(disk: seq<Byte>, kind: Kind, at: nat, n: nat)
    requires at <= |disk|
    ensures ReadRow(disk, kind, at, n).Err? <==> kind == FBin && at + Times(n, BytesPerNum(kind)) > |disk|
  {
    hide Times, Advance, LittleEndian;
    var size := BytesPerNum(kind);
    if n == 0 {
      TimesNext(0, size);
    } else {
      ShortRowExactlyWhen(disk, kind, at, n - 1);
      TimesNext(n - 1, size);
      AdvanceIs(disk, at, Times(n - 1, size));
    }
  }

  // ----- runs

  datatype Op = Read(chunk: int) | Seek(offset: int) | Reset

  datatype Output = Rows(rows: Option<seq<Row>>) | Done | Failed(error: Error)

  function SlicingStep(data: seq<Row>, current: int, op: Op): (Output, int) {
    match op
    case Read(chunk) => var (rows, next) := ReadFrom(data, current, chunk); (Rows(rows), next)
    case Seek(offset) => if SeekFails(|data|, offset) then (Failed(BadOffset), current) else (Done, offset)
    case Reset => (Done, 0)
  }

  function SlicingRun(data: seq<Row>, current: int, ops: seq<Op>): seq<Output>
    decreases |ops|
  {
    if ops == [] then []
    else var (output, next) := SlicingStep(data, current, ops[0]); [output] + SlicingRun(data, next, ops[1..])
  }

  function CursorStep(disk: seq<Byte>, kind: Kind, c: Cursor, op: Op): (Output, Cursor) {
    var open := Opened(disk, kind, c);
    match op
    case Read(chunk) =>
      var rows := CursorRead(disk, kind, c, chunk);
      (if rows.Ok? then Rows(rows.value) else Failed(rows.error),
       match rows
       case Ok(_) => AfterRead(disk, kind, c, chunk)
       case Err(InvalidFile) => open
       case Err(_) => AfterShortRead(disk, kind, c))
    case Seek(offset) =>
      if OpenFails(disk, kind, c) then (Failed(InvalidFile), open)
      else if SeekFails(open.rows, offset) then (Failed(BadOffset), open)
      else (Done, open.(position := ByteOffset(open.rowLength, open.bytesPerNum, offset), current := offset))
    case Reset => (Done, c.(current := 0, position := if c.isOpen then HEADER else c.position))
  }

  function CursorRun(disk: seq<Byte>, kind: Kind, c: Cursor, ops: seq<Op>): seq<Output>
    decreases |ops|
  {
    if ops == [] then []
    else var (output, next) := CursorStep(disk, kind, c, ops[0]); [output] + CursorRun(disk, kind, next, ops[1..])
  }

  lemma {:induction false} StepRefines(disk: seq<Byte>, kind: Kind, c: Cursor, op: Op)
    requires Valid(disk, kind, c) && (op.Read? ==> op.chunk >= 0 || c.current >= RowsIn(disk))
    ensures var (output, next) := CursorStep(disk, kind, c, op);
            && (output, next.current) == SlicingStep(Data(disk, kind), c.current, op)
            && Valid(disk, kind, next)
  {
    hide Data;
    OpenedIsValid(disk, kind, c);
    match op
    case Read(chunk) =>
      if chunk >= 0 {
        ReadRefines(disk, kind, c, chunk);
      } else {
        ReadAtEnd(disk, kind, c, chunk);
      }
    case Seek(offset) =>
      if 0 <= offset < RowsIn(disk) {
        Product(RowLengthIn(disk), BytesPerNum(kind), offset);
      }
    case Reset =>
      hide Times;
      TimesNext(0, Width(kind, RowLengthIn(disk)));
  }

  lemma {:induction false} Product(rowLength: nat, size: nat, n: nat)
    ensures rowLength * size * n == Times(n, Times(rowLength, size))
  {
  }

  /** No read of negative size but at the end. */
  predicate Forward(data: seq<Row>, current: int, ops: seq<Op>)
    decreases |ops|
  {
    ops == [] || ((ops[0].Read? ==> ops[0].chunk >= 0 || current >= |data|)
                  && Forward(data, SlicingStep(data, current, ops[0]).1, ops[1..]))
  }

  /** Over every sequence of operations both readers return the same. */
  lemma {:induction false} RunRefines(disk: seq<Byte>, kind: Kind, c: Cursor, ops: seq<Op>)
    requires Valid(disk, kind, c) && Forward(Data(disk, kind), c.current, ops)
    ensures CursorRun(disk, kind, c, ops) == SlicingRun(Data(disk, kind), c.current, ops)
    decreases |ops|
  {
    hide CursorStep, SlicingStep;
    if ops != [] {
      StepRefines(disk, kind, c, ops[0]);
      hide Valid, Data;
      RunRefines(disk, kind, CursorStep(disk, kind, c, ops[0]).1, ops[1..]);
    }
  }

  /** Seeking works exactly for the rows there are, and the next read begins with the row. */
  lemma {:induction false} SeekThenRead(data: seq<Row>, current: int, offset: int)
    ensures SlicingRun(data, current, [Seek(offset), Read(1)]) ==
            if 0 <= offset < |data| then [Done, Rows(Some([data[offset]]))]
            else [Failed(BadOffset), Rows(ReadFrom(data, current, 1).0)]
  {
    var ops := [Seek(offset), Read(1)];
    assert ops[1..] == [Read(1)] && [Read(1)][1..] == [];
    var next := SlicingStep(data, current, Seek(offset)).1;
    if 0 <= offset < |data| {
      assert Slice(data, offset, offset + 1) == [data[offset]];
    }
    assert SlicingRun(data, next, [Read(1)]) == [Rows(ReadFrom(data, next, 1).0)];
  }

  // ----- runs with negative sizes

  /** The file is where the counter says, or the place is lost and only the counter is right. */
  ghost predicate Tracks(disk: seq<Byte>, kind: Kind, c: Cursor, lost: bool) {
    if !lost then Valid(disk, kind, c)
    else WellFormed(disk, kind) && c.isOpen
         && c.rows == RowsIn(disk) && c.rowLength == RowLengthIn(disk) && c.bytesPerNum == BytesPerNum(kind)
  }

  /** A negative size before the end: the place is lost until the next seek or reset. */
  predicate Backward(data: seq<Row>, current: int, op: Op) {
    op.Read? && op.chunk < 0 && current < |data|
  }

  predicate Lost(data: seq<Row>, current: int, lost: bool, op: Op) {
    match op
    case Read(_) => lost || Backward(data, current, op)
    case Seek(offset) => lost && SeekFails(|data|, offset)
    case Reset => false
  }

  /** No rows are asked for while the place is lost. */
  predicate Careful(data: seq<Row>, current: int, lost: bool, ops: seq<Op>)
    decreases |ops|
  {
    ops == []
    || ((lost && ops[0].Read? && ops[0].chunk > 0 ==> current >= |data|)
        && Careful(data, SlicingStep(data, current, ops[0]).1, Lost(data, current, lost, ops[0]), ops[1..]))
  }

  /** Every slice of negative size before the end is empty. */
  predicate EmptySlices(data: seq<Row>, current: int, ops: seq<Op>)
    decreases |ops|
  {
    ops == [] || ((Backward(data, current, ops[0]) ==> ReadFrom(data, current, ops[0].chunk).0 == Some([]))
                  && EmptySlices(data, SlicingStep(data, current, ops[0]).1, ops[1..]))
  }

  lemma {:induction false} StepTracks(disk: seq<Byte>, kind: Kind, c: Cursor, lost: bool, op: Op)
    requires Tracks(disk, kind, c, lost)
    requires lost && op.Read? && op.chunk > 0 ==> c.current >= RowsIn(disk)
    ensures var ((output, next), (sliced, current)) :=
              (CursorStep(disk, kind, c, op), SlicingStep(Data(disk, kind), c.current, op));
            && next.current == current && Tracks(disk, kind, next, Lost(Data(disk, kind), c.current, lost, op))
            && (output == sliced <==>
                  (Backward(Data(disk, kind), c.current, op) ==>
                     ReadFrom(Data(disk, kind), c.current, op.chunk).0 == Some([])))
  {
    hide Data, WellFormed;
    if !lost {
      if Backward(Data(disk, kind), c.current, op) {
        NegativeReadLosesPlace(disk, kind, c, op.chunk);
        OpenedIsValid(disk, kind, c);
      } else {
        StepRefines(disk, kind, c, op);
      }
    } else {
      LostStep(disk, kind, c, op);
    }
  }

  lemma {:induction false} LostStep(disk: seq<Byte>, kind: Kind, c: Cursor, op: Op)
    requires Tracks(disk, kind, c, true)
    requires op.Read? && op.chunk > 0 ==> c.current >= RowsIn(disk)
    ensures var ((output, next), (sliced, current)) :=
              (CursorStep(disk, kind, c, op), SlicingStep(Data(disk, kind), c.current, op));
            && next.current == current && Tracks(disk, kind, next, Lost(Data(disk, kind), c.current, true, op))
            && (output == sliced <==>
                  (Backward(Data(disk, kind), c.current, op) ==>
                     ReadFrom(Data(disk, kind), c.current, op.chunk).0 == Some([])))
  {
    hide Data;
    match op
    case Read(chunk) =>
      if chunk <= 0 && c.current < RowsIn(disk) {
        assert Count(c, chunk) == 0 && EndOffset(c.rows, c.current, chunk) == c.current + chunk;
        assert CursorRead(disk, kind, c, chunk) == Ok(Some([]));
        assert chunk == 0 ==> Slice(Data(disk, kind), c.current, c.current + chunk) == [];
      }
    case Seek(offset) =>
      if 0 <= offset < RowsIn(disk) {
        Product(RowLengthIn(disk), BytesPerNum(kind), offset);
      }
    case Reset =>
      hide Times;
      TimesNext(0, Width(kind, RowLengthIn(disk)));
  }

  /** Over every sequence of operations in which no rows are asked for between a read of negative size before the end
      and the next seek or reset: both readers return the same exactly if every slice of negative size is empty. */
  lemma {:induction false} RunsAgreeExactlyWhen(disk: seq<Byte>, kind: Kind, c: Cursor, lost: bool, ops: seq<Op>)
    requires Tracks(disk, kind, c, lost) && Careful(Data(disk, kind), c.current, lost, ops)
    ensures CursorRun(disk, kind, c, ops) == SlicingRun(Data(disk, kind), c.current, ops)
            <==> EmptySlices(Data(disk, kind), c.current, ops)
    decreases |ops|
  {
    if ops != [] {
      hide CursorStep, SlicingStep, Tracks, Data, Lost, Backward;
      StepTracks(disk, kind, c, lost, ops[0]);
      var (output, next) := CursorStep(disk, kind, c, ops[0]);
      var (sliced, current) := SlicingStep(Data(disk, kind), c.current, ops[0]);
      RunsAgreeExactlyWhen(disk, kind, next, Lost(Data(disk, kind), c.current, lost, ops[0]), ops[1..]);
      SameFirst(output, CursorRun(disk, kind, next, ops[1..]), sliced, SlicingRun(Data(disk, kind), current, ops[1..]));
    }
  }

  lemma {:induction false} SameFirst(a: Output, more: seq<Output>, b: Output, others: seq<Output>)
    ensures [a] + more == [b] + others <==> a == b && more == others
  {
    assert ([a] + more)[0] == a && ([a] + more)[1..] == more;
    assert ([b] + others)[0] == b && ([b] + others)[1..] == others;
  }

  // ----- files that fail the check

  /** The first operation that opens the file. */
  predicate FirstUse(ops: seq<Op>, i: nat) {
    i < |ops| && !ops[i].Reset? && forall j :: 0 <= j < i ==> ops[j].Reset?
  }

  lemma {:induction false} ReadErrors(disk: seq<Byte>, kind: Kind, at: nat, rowLength: nat, n: nat)
    ensures ReadRow(disk, kind, at, n).Err? ==> ReadRow(disk, kind, at, n).error == ShortRead
    ensures ReadRows(disk, kind, at, rowLength, n).Err? ==> ReadRows(disk, kind, at, rowLength, n).error == ShortRead
    decreases n, rowLength
  {
    hide Advance, Times, Width;
    if n > 0 {
      ReadErrors(disk, kind, at, rowLength, n - 1);
      RowErrors(disk, kind, Advance(disk, at, Times(n - 1, Width(kind, rowLength))), rowLength);
    }
  }

  lemma {:induction false} RowErrors(disk: seq<Byte>, kind: Kind, at: nat, n: nat)
    ensures ReadRow(disk, kind, at, n).Err? ==> ReadRow(disk, kind, at, n).error == ShortRead
  {
    hide Advance, Times;
    if n > 0 {
      RowErrors(disk, kind, at, n - 1);
    }
  }

  lemma {:induction false} OpenFileIsNotChecked(disk: seq<Byte>, kind: Kind, c: Cursor, ops: seq<Op>, i: nat)
    requires c.isOpen && i < |ops|
    ensures |CursorRun(disk, kind, c, ops)| == |ops| && CursorRun(disk, kind, c, ops)[i] != Failed(InvalidFile)
    decreases |ops|
  {
    var next := CursorStep(disk, kind, c, ops[0]).1;
    RunLength(disk, kind, c, ops);
    if ops[0].Read? {
      ReadErrors(disk, kind, c.position, c.rowLength, Count(c, ops[0].chunk));
    }
    if i > 0 {
      hide CursorRead, AfterRead;
      OpenFileIsNotChecked(disk, kind, next, ops[1..], i - 1);
    }
  }

  lemma {:induction false} RunLength(disk: seq<Byte>, kind: Kind, c: Cursor, ops: seq<Op>)
    ensures |CursorRun(disk, kind, c, ops)| == |ops|
    decreases |ops|
  {
    hide CursorStep;
    if ops != [] {
      RunLength(disk, kind, CursorStep(disk, kind, c, ops[0]).1, ops[1..]);
    }
  }

  /** In every run over every file, a file is found invalid exactly if it is, and then exactly at its first use. */
  lemma {:induction false} CheckedAtFirstUseOnly(disk: seq<Byte>, kind: Kind, c: Cursor, ops: seq<Op>, i: nat)
    requires !c.isOpen && i < |ops|
    ensures |CursorRun(disk, kind, c, ops)| == |ops|
    ensures CursorRun(disk, kind, c, ops)[i] == Failed(InvalidFile) <==> !WellFormed(disk, kind) && FirstUse(ops, i)
    decreases |ops|
  {
    RunLength(disk, kind, c, ops);
    var next := CursorStep(disk, kind, c, ops[0]).1;
    if ops[0].Reset? {
      assert !next.isOpen;
      hide CursorRead, AfterRead, WellFormed;
      if i > 0 {
        CheckedAtFirstUseOnly(disk, kind, next, ops[1..], i - 1);
        assert FirstUse(ops, i) <==> FirstUse(ops[1..], i - 1);
      }
    } else if i > 0 {
      assert next.isOpen;
      OpenFileIsNotChecked(disk, kind, next, ops[1..], i - 1);
    } else if ops[0].Read? && WellFormed(disk, kind) {
      var open := Opened(disk, kind, c);
      ReadErrors(disk, kind, open.position, open.rowLength, Count(open, ops[0].chunk));
    }
  }

  /** What is inside a file reads the same with something behind it. */
  lemma {:induction false} RowsWithJunk(disk: seq<Byte>, junk: seq<Byte>, kind: Kind, at: nat, rowLength: nat, n: nat)
    requires at + Times(n, Width(kind, rowLength)) <= |disk|
    ensures ReadRows(disk + junk, kind, at, rowLength, n) == ReadRows(disk, kind, at, rowLength, n)
    ensures Advance(disk + junk, at, Times(n, Width(kind, rowLength))) == at + Times(n, Width(kind, rowLength))
  {
    hide Times, Width, ReadRow;
    var width := Width(kind, rowLength);
    if n == 0 {
      TimesNext(0, width);
    } else {
      TimesNext(n - 1, width);
      RowsWithJunk(disk, junk, kind, at, rowLength, n - 1);
      BytesInside(disk, at, Times(n - 1, width));
      BytesInside(disk + junk, at, Times(n - 1, width));
      RowWithJunk(disk, junk, kind, at + Times(n - 1, width), rowLength);
    }
    BytesInside(disk + junk, at, Times(n, width));
  }

  lemma {:induction false} RowWithJunk(disk: seq<Byte>, junk: seq<Byte>, kind: Kind, at: nat, n: nat)
    requires at + Width(kind, n) <= |disk|
    ensures ReadRow(disk + junk, kind, at, n) == ReadRow(disk, kind, at, n)
  {
    hide Times, LittleEndian;
    var size := BytesPerNum(kind);
    if n > 0 {
      TimesNext(n - 1, size);
      RowWithJunk(disk, junk, kind, at, n - 1);
      var from := at + Times(n - 1, size);
      BytesInside(disk, at, Times(n - 1, size));
      BytesInside(disk + junk, at, Times(n - 1, size));
      BytesInside(disk, from, size);
      BytesInside(disk + junk, from, size);
      assert (disk + junk)[from..from + size] == disk[from..from + size];
    }
  }

  lemma {:induction false} StepWithJunk(disk: seq<Byte>, junk: seq<Byte>, kind: Kind, c: Cursor, op: Op)
    requires Valid(disk, kind, c) && c.isOpen && (op.Read? ==> op.chunk >= 0 || c.current >= RowsIn(disk))
    ensures CursorStep(disk + junk, kind, c, op) == CursorStep(disk, kind, c, op)
    ensures Valid(disk, kind, CursorStep(disk, kind, c, op).1) && CursorStep(disk, kind, c, op).1.isOpen
  {
    hide WellFormed, Times, ReadRows, Advance;
    StepRefines(disk, kind, c, op);
    if op.Read? {
      var n, width := Count(c, op.chunk), Width(kind, c.rowLength);
      ReadStaysInside(disk, kind, c, op.chunk);
      RowsWithJunk(disk, junk, kind, c.position, c.rowLength, n);
      BytesInside(disk, c.position, Times(n, width));
    }
  }

  /** A file with something behind its rows fails once, and is then read as if nothing were wrong with it. */
  lemma {:induction false} JunkIsIgnored(disk: seq<Byte>, junk: seq<Byte>, kind: Kind, first: Op, ops: seq<Op>)
    requires WellFormed(disk, kind) && junk != [] && !first.Reset? && Forward(Data(disk, kind), 0, ops)
    ensures CursorRun(disk + junk, kind, Unopened, [first] + ops)
            == [Failed(InvalidFile)] + SlicingRun(Data(disk, kind), 0, ops)
  {
    var c := Opened(disk + junk, kind, Unopened);
    assert (disk + junk)[..4] == disk[..4] && (disk + junk)[4..8] == disk[4..8];
    assert c == Opened(disk, kind, Unopened) && !WellFormed(disk + junk, kind);
    OpenedIsValid(disk, kind, Unopened);
    assert ([first] + ops)[1..] == ops;
    hide Data, WellFormed, Opened;
    RunWithJunk(disk, junk, kind, c, ops);
    RunRefines(disk, kind, c, ops);
  }

  lemma {:induction false} RunWithJunk(disk: seq<Byte>, junk: seq<Byte>, kind: Kind, c: Cursor, ops: seq<Op>)
    requires Valid(disk, kind, c) && c.isOpen && Forward(Data(disk, kind), c.current, ops)
    ensures CursorRun(disk + junk, kind, c, ops) == CursorRun(disk, kind, c, ops)
    decreases |ops|
  {
    hide CursorStep, SlicingStep, Data;
    if ops != [] {
      StepWithJunk(disk, junk, kind, c, ops[0]);
      StepRefines(disk, kind, c, ops[0]);
      hide Valid;
      RunWithJunk(disk, junk, kind, CursorStep(disk, kind, c, ops[0]).1, ops[1..]);
    }
  }

  /** A file too short for a header fails at its first use and has no rows from then on, whatever the run. */
  lemma {:induction false} ShortFileHasNoRows(disk: seq<Byte>, kind: Kind, c: Cursor, ops: seq<Op>, i: nat)
    requires |disk| < HEADER && c.rows == 0 && c.current >= 0 && i < |ops|
    ensures |CursorRun(disk, kind, c, ops)| == |ops|
    ensures CursorRun(disk, kind, c, ops)[i] ==
              if ops[i].Reset? then Done
              else if !c.isOpen && FirstUse(ops, i) then Failed(InvalidFile)
              else if ops[i].Read? then Rows(None)
              else Failed(BadOffset)
    decreases |ops|
  {
    RunLength(disk, kind, c, ops);
    if i > 0 {
      ShortFileHasNoRows(disk, kind, CursorStep(disk, kind, c, ops[0]).1, ops[1..], i - 1);
      assert ops[0].Reset? ==> (FirstUse(ops, i) <==> FirstUse(ops[1..], i - 1));
    }
  }

  /** Reading on until None returns every row once, in order, whatever the size of the reads. */
  lemma {:induction false} ReadsCoverTheData(data: seq<Row>, current: nat, chunk: nat)
    requires current <= |data| && chunk > 0
    ensures ReadToEnd(data, current, chunk) == data[current..]
    decreases |data| - current
  {
    if current < |data| {
      var (rows, next) := ReadFrom(data, current, chunk);
      ReadsCoverTheData(data, next, chunk);
    }
  }

  function ReadToEnd(data: seq<Row>, current: nat, chunk: nat): seq<Row>
    requires chunk > 0
    decreases |data| - current
  {
    var (rows, next) := ReadFrom(data, current, chunk);
    if rows.None? then [] else rows.value + ReadToEnd(data, next, chunk)
  }
}
