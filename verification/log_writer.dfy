/** The log files on disk: the one being written, and those that a swap has left behind. */
module LogWriter {
  import opened Wrappers
  import opened Kv
  import opened Log
  import opened Disks

  class WALWriterImpl {
    const disk: Disk
    const number: nat
    var pos: nat

    ghost predicate Valid()
      reads this, disk
    {
      disk.Valid() && number in LogFiles(disk.files) && pos <= |LogFiles(disk.files)[number]|
    }

    ghost function File(): Bytes
      requires number in LogFiles(disk.files)
      reads disk
    {
      LogFiles(disk.files)[number]
    }

    ghost function Length(): nat
      reads disk
    {
      if number in LogFiles(disk.files) then |LogFiles(disk.files)[number]| else 0
    }

    constructor (disk: Disk, number: nat, pos: nat)
      ensures this.disk == disk && this.number == number && this.pos == pos
    {
      this.disk, this.number, this.pos := disk, number, pos;
    }

    /** Writes at the position; an operation that does not fit in a message is refused. */
    method WriteEntry(op: Operation) returns (ok: bool)
      requires Valid()
      modifies this, disk
      ensures Valid() && OtherFiles(disk.files) == old(OtherFiles(disk.files))
      ensures disk.history == old(disk.history) + if ok then [disk.files] else []
      ensures ok <==> Fits(op)
      ensures ok <==> |EncodeOperation(op)| < 0x8000_0000
      ensures ok ==> LogFiles(disk.files) ==
                     old(LogFiles(disk.files))[number := Overwrite(old(File()), old(pos), EncodeEntry(op))]
      ensures ok ==> pos == old(pos) + |EncodeEntry(op)|
      ensures !ok ==> disk.files == old(disk.files) && pos == old(pos)
    {
      hide LogFiles, OtherFiles, EncodeEntry;
      if !Fits(op) {
        return false;
      }
      LogFilesAt(disk.files, number);
      ok := disk.Write(LogFile(number), Overwrite(disk.files[LogFile(number)], pos, EncodeEntry(op)), false);
      pos := pos + |EncodeEntry(op)|;
    }
  }

  /** `NewWALWriter` */
  method NewWALWriter(disk: Disk, number: nat, faulty: bool) returns (writer: WALWriterImpl?)
    requires disk.Valid()
    modifies disk
    ensures disk.Valid() && OtherFiles(disk.files) == old(OtherFiles(disk.files))
    ensures disk.history == old(disk.history) + if faulty then [] else [disk.files]
    ensures writer == null <==> faulty
    ensures writer == null ==> disk.files == old(disk.files)
    ensures writer != null ==>
              && fresh(writer) && writer.Valid() && writer.disk == disk && writer.number == number && writer.pos == 0
              && LogFiles(disk.files) == old(LogFiles(disk.files))[number := []]
  {
    hide LogFiles, OtherFiles;
    var ok := disk.Write(LogFile(number), [], faulty);
    if !ok {
      return null;
    }
    writer := new WALWriterImpl(disk, number, 0);
  }

  /** `LoadWALWriter`: opens for reading and writing, so the old bytes stay, and seeks. */
  method LoadWALWriter(disk: Disk, number: nat, seek: nat, faulty: bool) returns (writer: WALWriterImpl?)
    requires disk.Valid() && number in LogFiles(disk.files) && seek <= |LogFiles(disk.files)[number]|
    ensures writer == null <==> faulty
    ensures writer != null ==>
              fresh(writer) && writer.Valid() && writer.disk == disk && writer.number == number && writer.pos == seek
  {
    if faulty {
      return null;
    }
    writer := new WALWriterImpl(disk, number, seek);
  }

  // ---------------------------------------------------------------- the logs together

  /** The operations of the log files, in the given order. */
  function Decoded(logs: map<nat, Bytes>, order: seq<nat>): (r: seq<seq<Operation>>)
    requires forall i :: 0 <= i < |order| ==> order[i] in logs
    ensures |r| == |order|
  {
    seq(|order|, i requires 0 <= i < |order| => DecodeLog(logs[order[i]]).ops)
  }

  /** The list names each log file once. */
  ghost predicate IsListing(logs: map<nat, Bytes>, dir: seq<nat>) {
    && (forall i :: 0 <= i < |dir| ==> dir[i] in logs)
    && (forall i, j :: 0 <= i < j < |dir| ==> dir[i] != dir[j])
    && (forall n :: n in logs ==> n in dir)
  }

  /** Every log file consists of complete entries. */
  ghost predicate Untorn(logs: map<nat, Bytes>) {
    forall n :: n in logs ==> DecodeLog(logs[n]).valid == |logs[n]|
  }

  /** A log file and the offset at which its complete entries end. */
  datatype Span = Span(number: nat, end: nat)

  function FileNumbers(spans: seq<Span>): (ns: seq<nat>)
    ensures |ns| == |spans|
  {
    seq(|spans|, i requires 0 <= i < |spans| => spans[i].number)
  }

  /** The spans are the log files of the directory, each once, and hold these operations. */
  ghost predicate LogsHold(files: map<nat, Bytes>, spans: seq<Span>, logs: seq<seq<Operation>>) {
    && |spans| == |logs|
    && (forall i :: 0 <= i < |spans| ==>
              spans[i].number in files && Holds(files[spans[i].number], spans[i].end, logs[i]))
    && (forall i, j :: 0 <= i < j < |spans| ==> spans[i].number != spans[j].number)
    && (forall n :: n in files ==> exists i :: 0 <= i < |spans| && spans[i].number == n)
  }

  lemma LogFilesAreNumbered(files: map<nat, Bytes>, spans: seq<Span>, logs: seq<seq<Operation>>, number: nat)
    requires LogsHold(files, spans, logs)
    ensures number in files <==> number in FileNumbers(spans)
  {
    hide Holds;
    if number in files {
      var i :| 0 <= i < |spans| && spans[i].number == number;
      assert FileNumbers(spans)[i] == number;
    }
    if number in FileNumbers(spans) {
      var i :| 0 <= i < |spans| && FileNumbers(spans)[i] == number;
    }
  }

  /** Every span ends where its file ends. */
  ghost predicate Whole(files: map<nat, Bytes>, spans: seq<Span>) {
    forall i :: 0 <= i < |spans| ==> spans[i].number in files && spans[i].end == |files[spans[i].number]|
  }

  lemma SpansAreListing(files: map<nat, Bytes>, spans: seq<Span>, logs: seq<seq<Operation>>)
    requires LogsHold(files, spans, logs)
    ensures IsListing(files, FileNumbers(spans))
  {
    hide Holds;
    var ns := FileNumbers(spans);
    forall n | n in files
      ensures n in ns
    {
      LogFilesAreNumbered(files, spans, logs, n);
    }
  }

  /** When no file has a tail, `ReadWAL` returns from every log exactly the operations that it holds. */
  lemma LogsAreRead(files: map<nat, Bytes>, spans: seq<Span>, logs: seq<seq<Operation>>)
    requires LogsHold(files, spans, logs) && Whole(files, spans)
    ensures IsListing(files, FileNumbers(spans)) && Decoded(files, FileNumbers(spans)) == logs
    ensures Untorn(files)
  {
    SpansAreListing(files, spans, logs);
    forall i | 0 <= i < |spans|
      ensures DecodeLog(files[spans[i].number]) == Contents(logs[i], spans[i].end)
    {
      HoldsExact(files[spans[i].number], spans[i].end, logs[i]);
    }
    hide Holds, DecodeLog, FileNumbers;
    forall n | n in files
      ensures DecodeLog(files[n]).valid == |files[n]|
    {
      var i :| 0 <= i < |spans| && spans[i].number == n;
    }
    assert forall i :: 0 <= i < |spans| ==> Decoded(files, FileNumbers(spans))[i] == logs[i];
  }

  /**
   A crash in the middle of writing an entry to a whole log: a reader still finds in all the logs what was there
   before.
   */
  lemma TornAppendIsUnread(files: map<nat, Bytes>, ages: seq<nat>, number: nat, next: Operation, cut: nat)
    requires IsListing(files, ages) && Untorn(files) && number in files && Fits(next) && cut < |EncodeEntry(next)|
    ensures var torn := files[number := files[number] + EncodeEntry(next)[..cut]];
            IsListing(torn, ages) && Decoded(torn, ages) == Decoded(files, ages)
  {
    TornAppend(files[number], next, cut);
    hide DecodeLog, EncodeEntry, Fits;
    var torn := files[number := files[number] + EncodeEntry(next)[..cut]];
    assert forall i :: 0 <= i < |ages| ==> Decoded(torn, ages)[i] == Decoded(files, ages)[i];
  }

  class SwappableWalWriterImpl {
    const disk: Disk
    var writer: WALWriterImpl

    /** The log files, oldest first; the last is the one being written. */
    ghost var spans: seq<Span>
    ghost var logs: seq<seq<Operation>>

    ghost predicate Valid()
      reads this, writer, disk
    {
      && writer.disk == disk && writer.Valid()
      && spans != [] && |logs| == |spans| && spans[|spans| - 1] == Span(writer.number, writer.pos)
      && LogsHold(LogFiles(disk.files), spans, logs)
    }

    /** No log file has a tail after its complete entries. */
    ghost predicate Settled()
      reads this, disk
    {
      Whole(LogFiles(disk.files), spans)
    }

    /** No log file but perhaps the current one has a tail. */
    ghost predicate OldSettled()
      reads this, disk
    {
      spans != [] && Whole(LogFiles(disk.files), spans[..|spans| - 1])
    }

    constructor (writer: WALWriterImpl, ghost spans: seq<Span>, ghost logs: seq<seq<Operation>>)
      requires writer.Valid() && spans != [] && spans[|spans| - 1] == Span(writer.number, writer.pos)
      requires LogsHold(LogFiles(writer.disk.files), spans, logs)
      ensures Valid() && this.writer == writer && this.disk == writer.disk && this.spans == spans && this.logs == logs
    {
      assert |logs| == |spans|;
      hide LogsHold, LogFiles;
      this.disk, this.writer, this.spans, this.logs := writer.disk, writer, spans, logs;
    }

    /**
     `Insert` and `Remove`: both write one entry to the current log. While no file has a tail, all that a reader
     finds is what has been written; and a tail of the current file is gone exactly when the entry covers it.
     */
    method WriteEntry(op: Operation) returns (ok: bool)
      requires Valid()
      modifies this`spans, this`logs, writer, disk
      ensures Valid() && OtherFiles(disk.files) == old(OtherFiles(disk.files))
      ensures disk.history == old(disk.history) + if ok then [disk.files] else []
      ensures ok <==> Fits(op)
      ensures |logs| == old(|logs|) && FileNumbers(spans) == FileNumbers(old(spans))
      ensures logs == old(logs[..|logs| - 1]) + [old(logs[|logs| - 1]) + if ok then [op] else []]
      ensures !ok ==> disk.files == old(disk.files) && logs == old(logs) && spans == old(spans)
      ensures old(Settled()) ==> Settled()
      ensures ok && old(OldSettled()) ==> (Settled() <==> old(writer.Length()) <= writer.pos)
      ensures Settled() ==> IsListing(LogFiles(disk.files), FileNumbers(spans))
                            && Decoded(LogFiles(disk.files), FileNumbers(spans)) == logs
    {
      hide LogFiles, OtherFiles, EncodeEntry, Fits, LogsHold, Whole, Overwrite, IsListing, Decoded, FileNumbers;
      hide EncodeOperation;
      ghost var n, files, file, pos := |spans| - 1, LogFiles(disk.files), writer.File(), writer.pos;
      LastEnds(LogFiles(disk.files), spans, logs);
      if Settled() {
        LogsAreRead(LogFiles(disk.files), spans, logs);
      }
      ok := writer.WriteEntry(op);
      if !ok {
        LastReplaced(logs, logs[n]);
        AppendNothing(logs[n], []);
        return;
      }
      ghost var grown, more := spans[n := Span(writer.number, writer.pos)], logs[n := logs[n] + [op]];
      EntryAdded(files, spans, logs, op, LogFiles(disk.files), grown, more, writer.number, file, pos);
      spans, logs := grown, more;
      if Settled() {
        LogsAreRead(LogFiles(disk.files), spans, logs);
      }
    }

    /** `Swap`: further entries go to a new file. The callback that it returns is the number of the old one. */
    method Swap(number: nat, faulty: bool) returns (r: Result<nat>)
      requires Valid() && number !in LogFiles(disk.files)
      modifies this, disk
      ensures Valid() && OtherFiles(disk.files) == old(OtherFiles(disk.files))
      ensures disk.history == old(disk.history) + if faulty then [] else [disk.files]
      ensures r.Err? <==> faulty
      ensures r.Err? ==> logs == old(logs) && writer == old(writer) && disk.files == old(disk.files)
      ensures r.Ok? ==> logs == old(logs) + [[]] && fresh(writer)
      ensures r.Ok? ==> |spans| >= 2 && FileNumbers(spans)[|spans| - 2] == r.value
      ensures old(Settled()) ==> Settled()
    {
      hide LogFiles, OtherFiles, LogsHold;
      var got := NewWALWriter(disk, number, faulty);
      if got == null {
        return Err;
      }
      var path := writer.number;
      writer := got;
      AddedHolds(old(LogFiles(disk.files)), spans, logs, number);
      spans, logs := spans + [Span(number, 0)], logs + [[]];
      return Ok(path);
    }

    /** The callback: an error while the file is removed is ignored. */
    method RemoveOld(number: nat, faulty: bool)
      requires Valid() && |spans| >= 2 && FileNumbers(spans)[|spans| - 2] == number
      modifies this`spans, this`logs, disk
      ensures Valid() && OtherFiles(disk.files) == old(OtherFiles(disk.files))
      ensures disk.history == old(disk.history) + if faulty then [] else [disk.files]
      ensures logs == if faulty then old(logs) else old(logs)[..|old(logs)| - 2] + [old(logs)[|old(logs)| - 1]]
      ensures old(Settled()) ==> Settled()
    {
      hide LogFiles, OtherFiles, LogsHold;
      CurrentStays(LogFiles(disk.files), spans, logs);
      if !faulty {
        ghost var n := |spans|;
        disk.Delete(LogFile(number));
        RemovedHolds(old(LogFiles(disk.files)), spans, logs);
        WholeWithout(old(LogFiles(disk.files)), spans, logs);
        spans, logs := spans[..n - 2] + [spans[n - 1]], logs[..n - 2] + [logs[n - 1]];
      }
    }
  }

  lemma SameNumbers(spans: seq<Span>, end: nat)
    requires spans != []
    ensures var n := |spans| - 1; FileNumbers(spans[n := Span(spans[n].number, end)]) == FileNumbers(spans)
  {
  }

  lemma LastReplaced<T>(logs: seq<T>, log: T)
    requires logs != []
    ensures var n := |logs| - 1; logs[n := log] == logs[..n] + [log]
  {
  }

  lemma CurrentStays(files: map<nat, Bytes>, spans: seq<Span>, logs: seq<seq<Operation>>)
    requires LogsHold(files, spans, logs) && |spans| >= 2
    ensures spans[|spans| - 1].number != spans[|spans| - 2].number
  {
  }

  lemma ReplacedHolds(files: map<nat, Bytes>, spans: seq<Span>, logs: seq<seq<Operation>>,
                      file: Bytes, end: nat, log: seq<Operation>)
    requires LogsHold(files, spans, logs) && spans != [] && Holds(file, end, log)
    ensures var n := |spans| - 1;
            var number := spans[n].number;
            LogsHold(files[number := file], spans[n := Span(number, end)], logs[n := log])
  {
    hide Holds;
    var n := |spans| - 1;
    var more := files[spans[n].number := file];
    var grown := spans[n := Span(spans[n].number, end)];
    forall m | m in more
      ensures exists i :: 0 <= i < |grown| && grown[i].number == m
    {
      var i :| 0 <= i <= n && spans[i].number == m;
      assert grown[i].number == m;
    }
  }

  lemma LastHolds(files: map<nat, Bytes>, spans: seq<Span>, logs: seq<seq<Operation>>)
    requires LogsHold(files, spans, logs) && spans != []
    ensures |logs| == |spans| && spans[|spans| - 1].number in files
    ensures Holds(files[spans[|spans| - 1].number], spans[|spans| - 1].end, logs[|logs| - 1])
  {
    hide Holds;
  }

  lemma GrownHolds(files: map<nat, Bytes>, spans: seq<Span>, logs: seq<seq<Operation>>, op: Operation)
    requires LogsHold(files, spans, logs) && spans != [] && Fits(op)
    requires var last := spans[|spans| - 1]; last.number in files && last.end <= |files[last.number]|
    ensures |logs| == |spans|
    ensures var n := |spans| - 1;
            var last := spans[n];
            LogsHold(files[last.number := Overwrite(files[last.number], last.end, EncodeEntry(op))],
                     spans[n := Span(last.number, last.end + |EncodeEntry(op)|)], logs[n := logs[n] + [op]])
  {
    hide *;
    var n := |spans| - 1;
    LastHolds(files, spans, logs);
    HoldsOneMore(files[spans[n].number], spans[n].end, logs[n], op);
    ReplacedHolds(files, spans, logs, Overwrite(files[spans[n].number], spans[n].end, EncodeEntry(op)),
                  spans[n].end + |EncodeEntry(op)|, logs[n] + [op]);
  }

  lemma WholeReplaced(files: map<nat, Bytes>, spans: seq<Span>, logs: seq<seq<Operation>>, file: Bytes, end: nat)
    requires LogsHold(files, spans, logs) && spans != [] && Whole(files, spans[..|spans| - 1])
    ensures var n := |spans| - 1;
            var number := spans[n].number;
            Whole(files[number := file], spans[n := Span(number, end)]) <==> end == |file|
  {
    hide Holds;
    var n := |spans| - 1;
    var number := spans[n].number;
    var after, grown := files[number := file], spans[n := Span(number, end)];
    assert grown[n] == Span(number, end) && after[number] == file;
    forall i | 0 <= i < n
      ensures grown[i].number in after && grown[i].end == |after[grown[i].number]|
    {
      assert grown[i] == spans[..n][i] && grown[i].number != number;
    }
  }

  /** Writing an entry over the current file's tail, if it has one. */
  lemma WholeAfter(files: map<nat, Bytes>, spans: seq<Span>, logs: seq<seq<Operation>>, entry: Bytes)
    requires LogsHold(files, spans, logs) && spans != [] && Whole(files, spans[..|spans| - 1])
    ensures var n := |spans| - 1;
            var last := spans[n];
            && last.number in files && last.end <= |files[last.number]|
            && (Whole(files[last.number := Overwrite(files[last.number], last.end, entry)],
                      spans[n := Span(last.number, last.end + |entry|)])
                <==> |files[last.number]| <= last.end + |entry|)
  {
    hide *;
    LastEnds(files, spans, logs);
    var last := spans[|spans| - 1];
    OverwriteEnds(files[last.number], last.end, entry);
    var file := Overwrite(files[last.number], last.end, entry);
    WholeReplaced(files, spans, logs, file, last.end + |entry|);
  }

  lemma OverwriteEnds(file: Bytes, pos: nat, entry: Bytes)
    requires pos <= |file|
    ensures pos + |entry| == |Overwrite(file, pos, entry)| <==> |file| <= pos + |entry|
  {
  }

  lemma LastEnds(files: map<nat, Bytes>, spans: seq<Span>, logs: seq<seq<Operation>>)
    requires LogsHold(files, spans, logs) && spans != []
    ensures var last := spans[|spans| - 1]; last.number in files && last.end <= |files[last.number]|
    ensures Whole(files, spans) ==>
              Whole(files, spans[..|spans| - 1]) && spans[|spans| - 1].end == |files[spans[|spans| - 1].number]|
  {
    hide DecodeLog;
  }

  lemma WholeWithout(files: map<nat, Bytes>, spans: seq<Span>, logs: seq<seq<Operation>>)
    requires LogsHold(files, spans, logs) && |spans| >= 2
    ensures var n := |spans|;
            Whole(files, spans) ==> Whole(files - {spans[n - 2].number}, spans[..n - 2] + [spans[n - 1]])
  {
    hide Holds;
  }

  /** One entry more in the current file. */
  lemma EntryAdded(files: map<nat, Bytes>, spans: seq<Span>, logs: seq<seq<Operation>>, op: Operation,
                   after: map<nat, Bytes>, grown: seq<Span>, more: seq<seq<Operation>>, number: nat, file: Bytes,
                   pos: nat)
    requires LogsHold(files, spans, logs) && spans != [] && |logs| == |spans| && Fits(op)
    requires number in files && file == files[number] && pos <= |file| && spans[|spans| - 1] == Span(number, pos)
    requires after == files[number := Overwrite(file, pos, EncodeEntry(op))]
    requires grown == spans[|spans| - 1 := Span(number, pos + |EncodeEntry(op)|)]
    requires more == logs[|logs| - 1 := logs[|logs| - 1] + [op]]
    ensures |more| == |grown| == |spans| && LogsHold(after, grown, more) && FileNumbers(grown) == FileNumbers(spans)
    ensures more == logs[..|logs| - 1] + [logs[|logs| - 1] + [op]]
    ensures Whole(files, spans) ==> Whole(after, grown)
    ensures var last := grown[|grown| - 1];
            last.number in files
            && (Whole(files, spans[..|spans| - 1]) ==> (Whole(after, grown) <==> |files[last.number]| <= last.end))
  {
    var n := |spans| - 1;
    hide *;
    SameNumbers(spans, spans[n].end + |EncodeEntry(op)|);
    LastReplaced(logs, logs[n] + [op]);
    GrownHolds(files, spans, logs, op);
    LastEnds(files, spans, logs);
    if Whole(files, spans[..n]) {
      WholeAfter(files, spans, logs, EncodeEntry(op));
    }
  }

  lemma AddedHolds(files: map<nat, Bytes>, spans: seq<Span>, logs: seq<seq<Operation>>, number: nat)
    requires LogsHold(files, spans, logs) && number !in files
    ensures LogsHold(files[number := []], spans + [Span(number, 0)], logs + [[]])
  {
    DecodeNothing();
    var nothing: Bytes := [];
    assert nothing[..0] == [];
    assert Holds(nothing, 0, []);
    hide Holds, DecodeLog;
    var more := spans + [Span(number, 0)];
    var grown := files[number := []];
    forall n | n in grown
      ensures exists i :: 0 <= i < |more| && more[i].number == n
    {
      if n == number {
        assert more[|spans|].number == n;
      } else {
        var i :| 0 <= i < |spans| && spans[i].number == n;
        assert more[i].number == n;
      }
    }
  }

  lemma RemovedHolds(files: map<nat, Bytes>, spans: seq<Span>, logs: seq<seq<Operation>>)
    requires LogsHold(files, spans, logs) && |spans| >= 2
    ensures var n := |spans|;
            LogsHold(files - {spans[n - 2].number}, spans[..n - 2] + [spans[n - 1]], logs[..n - 2] + [logs[n - 1]])
  {
    hide Holds, DecodeLog;
    var n := |spans|;
    var fewer := spans[..n - 2] + [spans[n - 1]];
    var rest := files - {spans[n - 2].number};
    forall m | m in rest
      ensures exists i :: 0 <= i < |fewer| && fewer[i].number == m
    {
      var i :| 0 <= i < n && spans[i].number == m;
      assert fewer[if i < n - 2 then i else n - 2].number == m;
    }
  }
}
