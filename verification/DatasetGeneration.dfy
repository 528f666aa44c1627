/** Writing a data set into files of limited size: synthetic_data_generator/synthetic_data_generator.py,
    generate_dataset, and synthetic_data_generator/helpers.py. */
module DatasetGeneration {

  /** A document: its bytes as a line of JSON, which are written, and pickled, which are counted. */
  datatype Doc = Doc(json: nat, pickled: nat)

  type Chunk = seq<Doc>

  /** What the workers return at each turn, in the order in which it is written. */
  type Batches = nat -> seq<Chunk>

  datatype Sum = Sum(docs: nat, json: nat, pickled: nat)

  const Zero := Sum(0, 0, 0)

  function Plus(a: Sum, b: Sum): Sum {
    Sum(a.docs + b.docs, a.json + b.json, a.pickled + b.pickled)
  }

  function OfChunk(chunk: Chunk): (s: Sum) {
    if chunk == [] then Zero
    else Plus(OfChunk(chunk[..|chunk| - 1]), Sum(1, chunk[|chunk| - 1].json, chunk[|chunk| - 1].pickled))
  }

  /** The first n chunks. */
  function OfFirst(chunks: seq<Chunk>, n: nat): Sum
    requires n <= |chunks|
  {
    if n == 0 then Zero else Plus(OfFirst(chunks, n - 1), OfChunk(chunks[n - 1]))
  }

  function OfChunks(chunks: seq<Chunk>): Sum {
    OfFirst(chunks, |chunks|)
  }

  /** All that the first n turns returned. */
  function Upto(batches: Batches, n: nat): Sum {
    if n == 0 then Zero else Plus(Upto(batches, n - 1), OfChunks(batches(n - 1)))
  }

  /** What is counted of documents: each of them, the bytes that are written, and the bytes they take pickled. */
  lemma {:induction false} ChunksAddUp(a: Chunk, b: Chunk, doc: Doc)
    ensures OfChunk(a + b) == Plus(OfChunk(a), OfChunk(b))
    ensures OfChunk([doc]).docs == 1 && OfChunk([doc]).json == doc.json && OfChunk([doc]).pickled == doc.pickled
    decreases |b|
  {
    OneDocument([], doc);
    assert [] + [doc] == [doc];
    if b == [] {
      assert a + b == a;
    } else {
      var n := |b| - 1;
      ChunksAddUp(a, b[..n], doc);
      OneDocument(a + b[..n], b[n]);
      OneDocument(b[..n], b[n]);
      assert a + b == a + b[..n] + [b[n]] && b == b[..n] + [b[n]];
    }
    hide OfChunk;
  }

  lemma {:induction false} OneDocument(chunk: Chunk, doc: Doc)
    ensures OfChunk(chunk + [doc]) == Plus(OfChunk(chunk), Sum(1, doc.json, doc.pickled)) && OfChunk([]) == Zero
  {
    assert (chunk + [doc])[..|chunk|] == chunk;
  }

  /** All documents of the first n turns, one after the other. */
  function AllDocs(batches: Batches, n: nat): Chunk {
    if n == 0 then [] else AllDocs(batches, n - 1) + Joined(batches(n - 1), |batches(n - 1)|)
  }

  function Joined(chunks: seq<Chunk>, n: nat): Chunk
    requires n <= |chunks|
  {
    if n == 0 then [] else Joined(chunks, n - 1) + chunks[n - 1]
  }

  lemma {:induction false} JoinedAddUp(chunks: seq<Chunk>, n: nat)
    requires n <= |chunks|
    ensures OfFirst(chunks, n) == OfChunk(Joined(chunks, n))
  {
    if n > 0 {
      JoinedAddUp(chunks, n - 1);
      ChunksAddUp(Joined(chunks, n - 1), chunks[n - 1], Doc(0, 0));
    }
  }

  /** The sums are those of all documents so far. */
  lemma {:induction false} TurnsAddUp(batches: Batches, n: nat)
    ensures Upto(batches, n) == OfChunk(AllDocs(batches, n)) && Upto(batches, n).docs == |AllDocs(batches, n)|
  {
    if n > 0 {
      TurnsAddUp(batches, n - 1);
      var chunks := batches(n - 1);
      JoinedAddUp(chunks, |chunks|);
      ChunksAddUp(AllDocs(batches, n - 1), Joined(chunks, |chunks|), Doc(0, 0));
    }
    DocsAreCounted(AllDocs(batches, n));
  }

  lemma {:induction false} DocsAreCounted(chunk: Chunk)
    ensures OfChunk(chunk).docs == |chunk|
  {
    if chunk != [] {
      DocsAreCounted(chunk[..|chunk| - 1]);
    }
  }

  /** Every turn returns something. */
  ghost predicate Productive(batches: Batches) {
    forall n: nat :: var s := OfChunks(batches(n)); s.json > 0 && s.pickled > 0
  }

  datatype Detail = Detail(file: nat, docs: nat, size: nat)

  type Disk = map<nat, nat>

  function SizeOn(disk: Disk, file: nat): nat {
    if file in disk then disk[file] else 0
  }

  method WriteChunk(chunk: Chunk, file: nat, disk: Disk) returns (docs: nat, written: nat, disk': Disk)
    ensures docs == OfChunk(chunk).docs && written == OfChunk(chunk).pickled
    ensures disk' == disk[file := SizeOn(disk, file) + OfChunk(chunk).json]
  {
    written := 0;
    disk' := disk[file := SizeOn(disk, file)];
    for k := 0 to |chunk|
      invariant OfChunk(chunk[..k]).docs == k && OfChunk(chunk[..k]).pickled == written
      invariant disk' == disk[file := SizeOn(disk, file) + OfChunk(chunk[..k]).json]
    {
      assert chunk[..k + 1][..k] == chunk[..k];
      disk' := disk'[file := disk'[file] + chunk[k].json];
      written := written + chunk[k].pickled;
    }
    assert chunk[..|chunk|] == chunk;
    docs := |chunk|;
  }

  /** A file that has grown, and no other. */
  ghost predicate Grown(before: Disk, disk: Disk, file: nat, bytes: nat) {
    && SizeOn(disk, file) == SizeOn(before, file) + bytes
    && forall other: nat :: other != file ==> SizeOn(disk, other) == SizeOn(before, other)
  }

  lemma {:induction false} GrownMore(before: Disk, disk: Disk, file: nat, bytes: nat, more: nat)
    requires Grown(before, disk, file, bytes)
    ensures Grown(before, disk[file := SizeOn(disk, file) + more], file, bytes + more)
  {
  }

  method WriteChunks(chunks: seq<Chunk>, file: nat, disk: Disk) returns (docs: nat, written: nat, disk': Disk)
    ensures docs == OfChunks(chunks).docs && written == OfChunks(chunks).pickled
    ensures Grown(disk, disk', file, OfChunks(chunks).json)
  {
    docs, written, disk' := 0, 0, disk;
    for k := 0 to |chunks|
      invariant OfFirst(chunks, k) == Sum(docs, OfFirst(chunks, k).json, written)
      invariant Grown(disk, disk', file, OfFirst(chunks, k).json)
    {
      hide Grown, OfChunk, SizeOn;
      GrownMore(disk, disk', file, OfFirst(chunks, k).json, OfChunk(chunks[k]).json);
      var docsFromChunk, writtenFromChunk;
      docsFromChunk, writtenFromChunk, disk' := WriteChunk(chunks[k], file, disk');
      docs := docs + docsFromChunk;
      written := written + writtenFromChunk;
    }
  }

  // ----- what is recorded

  /** The size of a file that holds what was returned between two turns, behind what was there before. */
  function FileSize(batches: Batches, before: Disk, file: nat, from: nat, to: nat): int {
    SizeOn(before, file) + Upto(batches, to).json - Upto(batches, from).json
  }

  /** A file is finished: it is full, or there is enough data. */
  predicate Finished(batches: Batches, before: Disk, file: nat, from: nat, to: nat, total: int, max: int) {
    FileSize(batches, before, file, from, to) >= max || Upto(batches, to).pickled >= total
  }

  /** A file that is not finished at any turn so far. */
  ghost predicate Going(batches: Batches, before: Disk, file: nat, from: nat, to: nat, total: int, max: int) {
    forall k: nat :: from < k < to ==> !Finished(batches, before, file, from, k, total, max)
  }

  /** A file recorded for the turns from one to another: it was not finished any earlier. */
  ghost predicate Recorded(batches: Batches, before: Disk, detail: Detail, from: nat, to: nat, total: int, max: int) {
    && from < to && Upto(batches, from).pickled < total
    && detail.docs == Upto(batches, to).docs - Upto(batches, from).docs
    && detail.size == FileSize(batches, before, detail.file, from, to)
    && Finished(batches, before, detail.file, from, to, total, max)
    && Going(batches, before, detail.file, from, to, total, max)
  }

  /** One record for each file in turn; cuts tells the turns at which files begin and end. */
  ghost predicate Records(batches: Batches, before: Disk, details: seq<Detail>, cuts: seq<nat>, first: nat,
                          total: int, max: int) {
    && |cuts| == |details| + 1 && cuts[0] == 0
    && forall i :: 0 <= i < |details| ==>
         details[i].file == first + i && Recorded(batches, before, details[i], cuts[i], cuts[i + 1], total, max)
  }

  /** The sizes on disk once the files from first on are written. */
  ghost predicate OnDisk(before: Disk, disk: Disk, details: seq<Detail>, first: nat) {
    forall file: nat :: SizeOn(disk, file) ==
      if first <= file < first + |details| then details[file - first].size else SizeOn(before, file)
  }

  /** One more record. */
  lemma {:induction false} NextRecord(batches: Batches, before: Disk, details: seq<Detail>, cuts: seq<nat>, first: nat,
                                      total: int, max: int, detail: Detail, to: nat)
    requires Records(batches, before, details, cuts, first, total, max) && detail.file == first + |details|
    requires Recorded(batches, before, detail, cuts[|details|], to, total, max)
    ensures Records(batches, before, details + [detail], cuts + [to], first, total, max)
  {
    hide Recorded;
  }

  method GenerateDataset(batches: Batches, total: int, max: int, first: nat, before: Disk)
    returns (details: seq<Detail>, disk: Disk, turns: nat, ghost cuts: seq<nat>)
    requires Productive(batches) && max > 0
    ensures Records(batches, before, details, cuts, first, total, max) && cuts[|details|] == turns
    ensures Upto(batches, turns).pickled >= total
    ensures OnDisk(before, disk, details, first)
  {
    hide Upto, Finished, Going, Records, Recorded, OfChunks;
    var currentSize, fileCounter := 0, first;
    details, disk, turns, cuts := [], before, 0, [0];
    NothingRecorded(batches, before, first, total, max);
    while currentSize < total
      invariant fileCounter == first + |details| && currentSize == Upto(batches, turns).pickled
      invariant |cuts| == |details| + 1 && cuts[|details|] == turns
      invariant Records(batches, before, details, cuts, first, total, max)
      invariant OnDisk(before, disk, details, first)
      decreases total - currentSize
    {
      ghost var from, was, recorded := turns, disk, details;
      var fileSize, docsWritten := 0, 0;
      NothingInFile(batches, before, fileCounter, from, total, max);
      while fileSize < max
        invariant from <= turns && currentSize == Upto(batches, turns).pickled >= Upto(batches, from).pickled
        invariant turns > from ==> currentSize > Upto(batches, from).pickled && fileSize == SizeOn(disk, fileCounter)
        invariant fileSize <= SizeOn(disk, fileCounter)
        invariant docsWritten == Upto(batches, turns).docs - Upto(batches, from).docs
        invariant SizeOn(disk, fileCounter) == FileSize(batches, before, fileCounter, from, turns)
        invariant forall file: nat :: file != fileCounter ==> SizeOn(disk, file) == SizeOn(was, file)
        invariant details == recorded || (turns > from && fileSize >= max
                    && details == recorded + [Detail(fileCounter, docsWritten, fileSize)])
        invariant details == recorded ==>
                    fileSize < max && Going(batches, before, fileCounter, from, turns + 1, total, max)
        invariant details != recorded ==>
                    Recorded(batches, before, Detail(fileCounter, docsWritten, fileSize), from, turns, total, max)
        decreases max - fileSize
      {
        OneTurn(batches, before, fileCounter, from, turns, total, max);
        var docs, written;
        docs, written, disk := WriteChunks(batches(turns), fileCounter, disk);
        turns := turns + 1;
        docsWritten := docsWritten + docs;
        currentSize := currentSize + written;
        fileSize := SizeOn(disk, fileCounter);
        ghost var detail := Detail(fileCounter, docsWritten, fileSize);
        EndOfTurn(batches, before, detail, from, turns, total, max);
        if fileSize >= max {
          details := details + [Detail(fileCounter, docsWritten, fileSize)];
          if currentSize >= total {
            break;
          }
        }
        if currentSize >= total {
          details := details + [Detail(fileCounter, docsWritten, fileSize)];
          break;
        }
      }
      NextRecord(batches, before, recorded, cuts, first, total, max, details[|recorded|], turns);
      cuts := cuts + [turns];
      fileCounter := fileCounter + 1;
    }
  }

  lemma {:induction false} NothingRecorded(batches: Batches, before: Disk, first: nat, total: int, max: int)
    ensures Upto(batches, 0) == Zero && Records(batches, before, [], [0], first, total, max)
  {
  }

  lemma {:induction false} NothingInFile(batches: Batches, before: Disk, file: nat, from: nat, total: int, max: int)
    ensures Going(batches, before, file, from, from + 1, total, max)
  {
  }

  lemma {:induction false} OneTurn(batches: Batches, before: Disk, file: nat, from: nat, n: nat, total: int, max: int)
    requires Productive(batches)
    ensures var s := OfChunks(batches(n));
            && s.json > 0 && s.pickled > 0 && Upto(batches, n + 1) == Plus(Upto(batches, n), s)
  {
  }

  /** After a turn the file is finished, and recorded, or still going. */
  lemma {:induction false} EndOfTurn(batches: Batches, before: Disk, detail: Detail, from: nat, n: nat, total: int,
                                     max: int)
    requires from < n && Upto(batches, from).pickled < total
    requires Going(batches, before, detail.file, from, n, total, max)
    requires detail.docs == Upto(batches, n).docs - Upto(batches, from).docs
    requires detail.size == FileSize(batches, before, detail.file, from, n)
    ensures detail.size >= max || Upto(batches, n).pickled >= total ==>
              Recorded(batches, before, detail, from, n, total, max)
    ensures detail.size < max && Upto(batches, n).pickled < total ==>
              Going(batches, before, detail.file, from, n + 1, total, max)
  {
  }

  // ----- conservation

  function TotalDocs(details: seq<Detail>, n: nat): nat
    requires n <= |details|
  {
    if n == 0 then 0 else TotalDocs(details, n - 1) + details[n - 1].docs
  }

  function TotalSize(details: seq<Detail>, n: nat): nat
    requires n <= |details|
  {
    if n == 0 then 0 else TotalSize(details, n - 1) + details[n - 1].size
  }

  function SizesBefore(before: Disk, first: nat, n: nat): nat {
    if n == 0 then 0 else SizesBefore(before, first, n - 1) + SizeOn(before, first + n - 1)
  }

  /** The totals of the record that is written at the end. */
  method BuildRecord(details: seq<Detail>) returns (docs: nat, size: nat)
    ensures docs == TotalDocs(details, |details|) && size == TotalSize(details, |details|)
  {
    docs, size := 0, 0;
    for k := 0 to |details|
      invariant docs == TotalDocs(details, k) && size == TotalSize(details, k)
    {
      docs := docs + details[k].docs;
      size := size + details[k].size;
    }
  }

  /** The recorded documents are all that were generated, and the recorded bytes all that were written, with what was in
      the files before. */
  lemma {:induction false} NothingIsLost(batches: Batches, before: Disk, details: seq<Detail>, cuts: seq<nat>,
                                         first: nat, 
                                         total: int, max: int, n: nat)
    requires Records(batches, before, details, cuts, first, total, max) && n <= |details|
    ensures TotalDocs(details, n) == Upto(batches, cuts[n]).docs
    ensures TotalSize(details, n) == Upto(batches, cuts[n]).json + SizesBefore(before, first, n)
  {
    hide Upto, Finished, Going;
    if n == 0 {
      assert Upto(batches, cuts[0]) == Zero by {
        NothingRecorded(batches, before, first, total, max);
      }
    } else {
      NothingIsLost(batches, before, details, cuts, first, total, max, n - 1);
      assert Recorded(batches, before, details[n - 1], cuts[n - 1], cuts[n], total, max);
    }
  }

  /** Every file but the last has reached the maximum size; only the last can have been cut short by the total. */
  lemma {:induction false} AllButTheLastAreFull(batches: Batches, before: Disk, details: seq<Detail>, cuts: seq<nat>,
                                                first: nat, total: int, max: int, i: nat)
    requires Records(batches, before, details, cuts, first, total, max) && i + 1 < |details|
    ensures details[i].size >= max
  {
    hide Upto, Going;
    assert Recorded(batches, before, details[i], cuts[i], cuts[i + 1], total, max);
    assert Recorded(batches, before, details[i + 1], cuts[i + 1], cuts[i + 2], total, max);
  }

  /** A file ends at the first turn at which its bytes reach the maximum or the bytes counted reach the total. */
  lemma {:induction false} CutAtFirstChance(batches: Batches, before: Disk, details: seq<Detail>, cuts: seq<nat>,
                                            first: nat, total: int, max: int, i: nat, k: nat)
    requires Records(batches, before, details, cuts, first, total, max) && i < |details| && cuts[i] < k <= cuts[i + 1]
    ensures var bytes := SizeOn(before, first + i) + Upto(batches, k).json - Upto(batches, cuts[i]).json;
            bytes >= max || Upto(batches, k).pickled >= total <==> k == cuts[i + 1]
  {
    hide Upto, SizeOn;
    assert Recorded(batches, before, details[i], cuts[i], cuts[i + 1], total, max);
    assert Finished(batches, before, first + i, cuts[i], k, total, max) <==> k == cuts[i + 1];
  }

  /** What is recorded when the total is reached is determined: by the batches, the sizes before, and the limits. */
  lemma {:induction false} RecordsAreDetermined(batches: Batches, before: Disk, first: nat, total: int, max: int,
                                                details: seq<Detail>, cuts: seq<nat>,
                                                details': seq<Detail>, cuts': seq<nat>)
    requires Records(batches, before, details, cuts, first, total, max)
    requires Records(batches, before, details', cuts', first, total, max)
    requires Upto(batches, cuts[|details|]).pickled >= total && Upto(batches, cuts'[|details'|]).pickled >= total
    ensures details == details' && cuts == cuts'
  {
    var n := if |details| < |details'| then |details| else |details'|;
    hide Upto, Finished, Going;
    forall i | 0 <= i <= n ensures cuts[i] == cuts'[i] && details[..i] == details'[..i] {
      CommonRecords(batches, before, first, total, max, details, cuts, details', cuts', i);
    }
    assert |details| == |details'| by {
      NoRecordBeyond(batches, before, details, cuts, first, total, max, n);
      NoRecordBeyond(batches, before, details', cuts', first, total, max, n);
    }
    assert details[..n] == details && details'[..n] == details';
  }

  lemma {:induction false} NoRecordBeyond(batches: Batches, before: Disk, details: seq<Detail>, cuts: seq<nat>,
                                          first: nat, 
                                          total: int, max: int, n: nat)
    requires Records(batches, before, details, cuts, first, total, max) && n <= |details|
    ensures Upto(batches, cuts[n]).pickled >= total ==> n == |details|
  {
    hide Upto, Finished, Going;
    assert n < |details| ==> Recorded(batches, before, details[n], cuts[n], cuts[n + 1], total, max);
  }

  lemma {:induction false} CommonRecords(batches: Batches, before: Disk, first: nat, total: int, max: int,
                                         details: seq<Detail>, cuts: seq<nat>,
                                         details': seq<Detail>, cuts': seq<nat>, n: nat)
    requires Records(batches, before, details, cuts, first, total, max)
    requires Records(batches, before, details', cuts', first, total, max)
    requires n <= |details| && n <= |details'|
    ensures cuts[n] == cuts'[n] && details[..n] == details'[..n]
  {
    if n > 0 {
      var i := n - 1;
      CommonRecords(batches, before, first, total, max, details, cuts, details', cuts', i);
      hide Upto, Finished;
      assert Recorded(batches, before, details[i], cuts[i], cuts[n], total, max);
      assert Recorded(batches, before, details'[i], cuts'[i], cuts'[n], total, max);
      assert details[..n] == details[..i] + [details[i]] && details'[..n] == details'[..i] + [details'[i]];
    }
  }
}
