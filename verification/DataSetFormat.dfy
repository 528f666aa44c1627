/** What the files of vector data sets mean: a writer of the Big ANN format, and what the readers of utils/dataset.py
    make of its files. */
module DataSetFormat {
  import opened Wrappers
  import opened DataSets

  // ----- the writer

  /** An unsigned number of 32 bits, its lowest byte first. */
  function FourBytes(n: nat): (bytes: seq<Byte>)
    requires n < 0x1_0000_0000
    ensures |bytes| == 4
  {
    [(n % 256) as Byte, (n / 256 % 256) as Byte, (n / 65536 % 256) as Byte, (n / 16777216) as Byte]
  }

  predicate Fits(kind: Kind, x: int) {
    0 <= x < if kind == U8Bin then 256 else 0x1_0000_0000
  }

  /** A number: a byte, the bits of a float, or an identifier. */
  function NumberBytes(kind: Kind, x: int): (bytes: seq<Byte>)
    requires Fits(kind, x)
    ensures |bytes| == if kind == U8Bin then 1 else 4
  {
    if kind == U8Bin then [x as Byte] else FourBytes(x)
  }

  function Flat(pieces: seq<seq<Byte>>): seq<Byte> {
    if pieces == [] then [] else Flat(pieces[..|pieces| - 1]) + pieces[|pieces| - 1]
  }

  ghost predicate AllFit(kind: Kind, row: Row) {
    forall i :: 0 <= i < |row| ==> Fits(kind, row[i])
  }

  function RowBytes(kind: Kind, row: Row): seq<Byte>
    requires AllFit(kind, row)
  {
    Flat(seq(|row|, i requires 0 <= i < |row| => NumberBytes(kind, row[i])))
  }

  /** Rows of one length, with numbers that fit. */
  ghost predicate Rectangular(kind: Kind, rows: seq<Row>, length: nat) {
    && |rows| < 0x1_0000_0000 && length < 0x1_0000_0000
    && forall i :: 0 <= i < |rows| ==> |rows[i]| == length && AllFit(kind, rows[i])
  }

  function Body(kind: Kind, rows: seq<Row>, length: nat): seq<Byte>
    requires Rectangular(kind, rows, length)
  {
    Flat(seq(|rows|, i requires 0 <= i < |rows| => RowBytes(kind, rows[i])))
  }

  /** The number of rows, their length, the rows, and for ground truth as many bytes with distances. */
  function Written(kind: Kind, rows: seq<Row>, length: nat, distances: seq<Byte>): seq<Byte>
    requires Rectangular(kind, rows, length)
  {
    FourBytes(|rows|) + FourBytes(length) + Body(kind, rows, length) + distances
  }

  ghost predicate HasDistances(kind: Kind, rows: seq<Row>, length: nat, distances: seq<Byte>)
    requires Rectangular(kind, rows, length)
  {
    |distances| == if kind == GroundTruth then |Body(kind, rows, length)| else 0
  }

  // ----- pieces of one size

  ghost predicate Even(pieces: seq<seq<Byte>>, size: nat) {
    forall i :: 0 <= i < |pieces| ==> |pieces[i]| == size
  }

  lemma {:induction false} FlatLength(pieces: seq<seq<Byte>>, size: nat)
    requires Even(pieces, size)
    ensures |Flat(pieces)| == Times(|pieces|, size)
  {
    if pieces == [] {
      TimesNext(0, size);
    } else {
      FlatLength(pieces[..|pieces| - 1], size);
      TimesNext(|pieces| - 1, size);
    }
  }

  lemma {:induction false} PieceAt(pieces: seq<seq<Byte>>, size: nat, i: nat)
    requires Even(pieces, size) && i < |pieces|
    ensures Times(i, size) + size <= |Flat(pieces)| == Times(|pieces|, size)
    ensures Flat(pieces)[Times(i, size)..Times(i, size) + size] == pieces[i]
    decreases |pieces|
  {
    hide Times;
    var n := |pieces| - 1;
    FlatLength(pieces, size);
    FlatLength(pieces[..n], size);
    TimesNext(n, size);
    if i < n {
      PieceAt(pieces[..n], size, i);
    }
  }

  // ----- reading what was written

  lemma {:induction false} FourBytesMean(n: nat)
    requires n < 0x1_0000_0000
    ensures LittleEndian(FourBytes(n)) == n
  {
    var bytes := FourBytes(n);
    var a, b, c, d := bytes[0] as nat, bytes[1] as nat, bytes[2] as nat, bytes[3] as nat;
    assert bytes[1..][1..] == bytes[2..] && bytes[2..][1..] == bytes[3..] && bytes[3..][1..] == [];
    assert LittleEndian(bytes[3..]) == d;
    assert LittleEndian(bytes[2..]) == c + 256 * d;
    assert LittleEndian(bytes[1..]) == b + 256 * (c + 256 * d);
    InBytes(n);
  }

  lemma {:induction false} InBytes(n: nat)
    ensures n == n % 256 + 256 * (n / 256 % 256 + 256 * (n / 65536 % 256 + 256 * (n / 16777216)))
  {
    assert n / 65536 == n / 256 / 256 && n / 16777216 == n / 65536 / 256;
  }

  lemma {:induction false} NumberMeans(kind: Kind, x: int)
    requires Fits(kind, x)
    ensures LittleEndian(NumberBytes(kind, x)) == x && |NumberBytes(kind, x)| == BytesPerNum(kind)
  {
    if kind == U8Bin {
      assert [x as Byte][1..] == [];
    } else {
      FourBytesMean(x);
    }
  }

  ghost predicate Stored(disk: seq<Byte>, at: nat, bytes: seq<Byte>) {
    at + |bytes| <= |disk| && disk[at..at + |bytes|] == bytes
  }

  /** The first n numbers of a row that is stored somewhere in a file. */
  lemma {:induction false} StoredRow(disk: seq<Byte>, kind: Kind, at: nat, row: Row, n: nat)
    requires AllFit(kind, row) && n <= |row| && Stored(disk, at, RowBytes(kind, row))
    ensures at + Times(n, BytesPerNum(kind)) <= |disk|
    ensures RowAt(disk, kind, at, n) == row[..n]
    decreases n
  {
    hide Times, LittleEndian, RowBytes, NumberBytes, Flat, Fits, Stored, RowAt, BytesPerNum;
    RowFits(disk, kind, at, row, n);
    if n == 0 {
      NoNumbers(disk, kind, at);
    } else {
      StoredRow(disk, kind, at, row, n - 1);
      StoredNumber(disk, kind, at, row, n - 1);
      NextNumber(disk, kind, at, n - 1);
      assert row[..n] == row[..n - 1] + [row[n - 1]];
    }
  }

  lemma {:induction false} RowFits(disk: seq<Byte>, kind: Kind, at: nat, row: Row, n: nat)
    requires AllFit(kind, row) && n <= |row| && Stored(disk, at, RowBytes(kind, row))
    ensures at + Times(n, BytesPerNum(kind)) <= |disk|
  {
    hide Times, RowBytes;
    NumbersInRow(kind, row, n);
  }

  lemma {:induction false} NoNumbers(disk: seq<Byte>, kind: Kind, at: nat)
    requires at + Times(0, BytesPerNum(kind)) <= |disk|
    ensures RowAt(disk, kind, at, 0) == []
  {
  }

  lemma {:induction false} NextNumber(disk: seq<Byte>, kind: Kind, at: nat, n: nat)
    requires at + Times(n + 1, BytesPerNum(kind)) <= |disk|
    ensures var from := at + Times(n, BytesPerNum(kind));
            from + BytesPerNum(kind) <= |disk|
            && RowAt(disk, kind, at, n + 1)
               == RowAt(disk, kind, at, n) + [LittleEndian(disk[from..from + BytesPerNum(kind)])]
  {
    TimesNext(n, BytesPerNum(kind));
    hide Times, LittleEndian;
  }

  lemma {:induction false} StoredNumber(disk: seq<Byte>, kind: Kind, at: nat, row: Row, n: nat)
    requires AllFit(kind, row) && n < |row| && Stored(disk, at, RowBytes(kind, row))
    ensures var from := at + Times(n, BytesPerNum(kind));
            from + BytesPerNum(kind) <= |disk| && LittleEndian(disk[from..from + BytesPerNum(kind)]) == row[n]
    ensures Times(n + 1, BytesPerNum(kind)) == Times(n, BytesPerNum(kind)) + BytesPerNum(kind)
  {
    hide Times, LittleEndian, RowBytes, NumberBytes, Flat;
    NumbersInRow(kind, row, n);
    NumberMeans(kind, row[n]);
    TimesNext(n, BytesPerNum(kind));
    Inside(disk, at, RowBytes(kind, row), Times(n, BytesPerNum(kind)), BytesPerNum(kind));
  }

  /** Where the numbers of a row are. */
  lemma {:induction false} NumbersInRow(kind: Kind, row: Row, n: nat)
    requires AllFit(kind, row) && n <= |row|
    ensures var size, bytes := BytesPerNum(kind), RowBytes(kind, row);
            && |bytes| == Times(|row|, size) >= Times(n, size)
            && (n < |row| ==>
                  Times(n, size) + size <= |bytes|
                  && bytes[Times(n, size)..Times(n, size) + size] == NumberBytes(kind, row[n]))
  {
    var size := BytesPerNum(kind);
    var pieces := seq(|row|, i requires 0 <= i < |row| => NumberBytes(kind, row[i]));
    assert Even(pieces, size);
    FlatLength(pieces, size);
    TimesMonotone(n, |row|, size);
    hide Times, NumberBytes, Flat;
    if n < |row| {
      PieceAt(pieces, size, n);
    }
  }

  lemma {:induction false} Inside(disk: seq<Byte>, at: nat, bytes: seq<Byte>, from: nat, size: nat)
    requires from + size <= |bytes| && Stored(disk, at, bytes)
    ensures disk[at + from..at + from + size] == bytes[from..from + size]
  {
    var a, b := disk[at + from..at + from + size], bytes[from..from + size];
    forall k | 0 <= k < size ensures a[k] == b[k] {
      assert a[k] == disk[at + from + k] == disk[at..at + |bytes|][from + k];
    }
  }

  lemma {:induction false} Header(kind: Kind, rows: seq<Row>, length: nat, distances: seq<Byte>)
    requires Rectangular(kind, rows, length)
    ensures var disk := Written(kind, rows, length, distances);
            |disk| >= HEADER && RowsIn(disk) == |rows| && RowLengthIn(disk) == length
            && disk[HEADER..] == Body(kind, rows, length) + distances
  {
    var disk := Written(kind, rows, length, distances);
    FourBytesMean(|rows|);
    FourBytesMean(length);
    assert disk[..4] == FourBytes(|rows|) && disk[4..8] == FourBytes(length);
  }

  lemma {:induction false} RowLengths(kind: Kind, rows: seq<Row>, length: nat)
    requires Rectangular(kind, rows, length)
    ensures forall i :: 0 <= i < |rows| ==> |RowBytes(kind, rows[i])| == Width(kind, length)
    ensures |Body(kind, rows, length)| == Times(|rows|, Width(kind, length))
  {
    forall i | 0 <= i < |rows| ensures |RowBytes(kind, rows[i])| == Width(kind, length) {
      FlatLength(seq(length, j requires 0 <= j < length => NumberBytes(kind, rows[i][j])), BytesPerNum(kind));
    }
    var pieces := seq(|rows|, i requires 0 <= i < |rows| => RowBytes(kind, rows[i]));
    assert Even(pieces, Width(kind, length));
    FlatLength(pieces, Width(kind, length));
  }

  lemma {:induction false} StoredAt(kind: Kind, rows: seq<Row>, length: nat, distances: seq<Byte>, i: nat)
    requires Rectangular(kind, rows, length) && i < |rows|
    ensures Stored(Written(kind, rows, length, distances), HEADER + Times(i, Width(kind, length)),
              RowBytes(kind, rows[i]))
  {
    var pieces := seq(|rows|, i requires 0 <= i < |rows| => RowBytes(kind, rows[i]));
    var disk, width := Written(kind, rows, length, distances), Width(kind, length);
    RowLengths(kind, rows, length);
    assert Even(pieces, width);
    PieceAt(pieces, width, i);
    Header(kind, rows, length, distances);
    hide Written, Times, Width, RowBytes, Flat;
    var body := Body(kind, rows, length);
    assert disk[HEADER..HEADER + |body|] == body;
    Inside(disk, HEADER, body, Times(i, width), width);
  }

  lemma {:induction false} WrittenIsWellFormed(kind: Kind, rows: seq<Row>, length: nat, distances: seq<Byte>)
    requires Rectangular(kind, rows, length) && HasDistances(kind, rows, length, distances)
    ensures WellFormed(Written(kind, rows, length, distances), kind)
  {
    Header(kind, rows, length, distances);
    RowLengths(kind, rows, length);
    var disk, body := Written(kind, rows, length, distances), |Body(kind, rows, length)|;
    hide Written, Body;
    assert |disk| - HEADER == |disk[HEADER..]| == body + |distances|;
    Reordered(|rows|, length, BytesPerNum(kind));
    assert body == RowsIn(disk) * RowLengthIn(disk) * BytesPerNum(kind);
    hide Times, RowsIn, RowLengthIn;
  }

  lemma {:induction false} Reordered(n: nat, length: nat, size: nat)
    ensures Times(n, Times(length, size)) == n * length * size
  {
  }

  /** The rows of a file are the rows that were written to it. */
  lemma {:induction false} DataIsWhatWasWritten(kind: Kind, rows: seq<Row>, length: nat, distances: seq<Byte>)
    requires Rectangular(kind, rows, length) && HasDistances(kind, rows, length, distances)
    ensures var disk := Written(kind, rows, length, distances);
            WellFormed(disk, kind) && Data(disk, kind) == rows
  {
    var disk := Written(kind, rows, length, distances);
    WrittenIsWellFormed(kind, rows, length, distances);
    Header(kind, rows, length, distances);
    hide Written, WellFormed, Times, RowAt, RowsIn, RowLengthIn;
    forall i | 0 <= i < |rows| ensures Data(disk, kind)[i] == rows[i] {
      StoredAt(kind, rows, length, distances, i);
      StoredRow(disk, kind, Offset(disk, kind, i), rows[i], length);
      RowIsInside(disk, kind, i);
      assert rows[i][..length] == rows[i];
    }
  }

  /** Over every sequence of operations the cursor reader returns the rows that were written, just as if it had sliced
      the list of them. */
  lemma {:induction false} WrittenIsRead(kind: Kind, rows: seq<Row>, length: nat, distances: seq<Byte>, ops: seq<Op>)
    requires Rectangular(kind, rows, length) && HasDistances(kind, rows, length, distances) && Forward(rows, 0, ops)
    ensures CursorRun(Written(kind, rows, length, distances), kind, Unopened, ops) == SlicingRun(rows, 0, ops)
  {
    hide Written;
    var disk := Written(kind, rows, length, distances);
    DataIsWhatWasWritten(kind, rows, length, distances);
    RunRefines(disk, kind, Unopened, ops);
  }
}
