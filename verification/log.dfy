/** The write-ahead log as bytes: wal.proto messages in length-delimited frames. */
module Log {
  import opened Wrappers
  import opened Kv
  import opened Wire

  function InnerFields(op: Operation): seq<Field> {
    match op
    case Insert(key, value, version) => [Blob(1, key), Blob(2, value), Number(3, version)]
    case Remove(key, version) => [Blob(1, key), Number(2, version)]
  }

  /** A `wal.Entry` message: the operation in field 1 (remove) or 2 (insert). */
  function EncodeOperation(op: Operation): Bytes {
    EncodeFields([Blob(if op.Remove? then 1 else 2, EncodeFields(InnerFields(op)))])
  }

  /** Protocol Buffers refuses to write a message of 2 GB or more. */
  predicate Fits(op: Operation) {
    |EncodeOperation(op)| < MAX_SIZE
  }

  ghost predicate AllFit(ops: seq<Operation>) {
    forall i :: 0 <= i < |ops| ==> Fits(ops[i])
  }

  /**
   Folds the fields of a `wal.Entry` in order. The two operations are alternatives of one `oneof`:
   a repeated alternative is merged, a different one replaces what was there.
   */
  function MergeEntry(fs: seq<Field>, acc: Option<Operation>): Option<Option<Operation>>
    decreases |fs|
  {
    if fs == [] then
      Some(acc)
    else if fs[0].Blob? && fs[0].num == 1 then
      match ParseFields(fs[0].data)
      case None => None
      case Some(inner) =>
        var base := if acc.Some? && acc.value.Remove? then acc.value else Remove([], 0);
        MergeEntry(fs[1..], Some(Remove(GetBlob(inner, 1, base.key), GetNumber(inner, 2, base.version))))
    else if fs[0].Blob? && fs[0].num == 2 then
      match ParseFields(fs[0].data)
      case None => None
      case Some(inner) =>
        var base := if acc.Some? && acc.value.Insert? then acc.value else Insert([], [], 0);
        MergeEntry(fs[1..], Some(Insert(GetBlob(inner, 1, base.key), GetBlob(inner, 2, base.value),
                                        GetNumber(inner, 3, base.version))))
    else
      MergeEntry(fs[1..], acc)
  }

  /** Absent for bytes that are no message; `Some(None)` for a message without an operation. */
  function DecodeOperation(body: Bytes): Option<Option<Operation>> {
    match ParseFields(body)
    case None => None
    case Some(fs) => MergeEntry(fs, None)
  }

  /** Fields that are not known are skipped, and an operation that is no message spoils the entry. */
  lemma OtherFields(f: Field, fs: seq<Field>, acc: Option<Operation>)
    ensures !(f.Blob? && (f.num == 1 || f.num == 2)) ==> MergeEntry([f] + fs, acc) == MergeEntry(fs, acc)
    ensures f.Blob? && (f.num == 1 || f.num == 2) && ParseFields(f.data).None? ==> MergeEntry([f] + fs, acc) == None
    ensures MergeEntry([], acc) == Some(acc)
  {
    hide ParseFields, GetBlob, GetNumber;
    assert ([f] + fs)[1..] == fs;
  }

  /** One part of an operation, over what its earlier parts have said. */
  function Part(kind: nat, inner: seq<Field>, base: Operation): Operation {
    if kind == 1 then
      Remove(GetBlob(inner, 1, base.key), GetNumber(inner, 2, base.version))
    else
      Insert(GetBlob(inner, 1, base.key), GetBlob(inner, 2, if base.Insert? then base.value else []),
             GetNumber(inner, 3, base.version))
  }

  lemma MergePart(kind: nat, data: Bytes, fs: seq<Field>, acc: Option<Operation>)
    requires (kind == 1 || kind == 2) && ParseFields(data).Some?
    ensures var base := if acc.Some? && (acc.value.Remove? <==> kind == 1) then acc.value
                        else if kind == 1 then Remove([], 0) else Insert([], [], 0);
            MergeEntry([Blob(kind, data)] + fs, acc) == MergeEntry(fs, Some(Part(kind, ParseFields(data).value, base)))
  {
    hide ParseFields, GetBlob, GetNumber;
    assert ([Blob(kind, data)] + fs)[1..] == fs;
  }

  /** An operation that comes in two parts is the operation of both parts together. */
  lemma PartsAreMerged(kind: nat, a: Bytes, b: Bytes, c: Bytes)
    requires kind == 1 || kind == 2
    requires ParseFields(a).Some? && ParseFields(b).Some?
    requires ParseFields(c) == Some(ParseFields(a).value + ParseFields(b).value)
    ensures MergeEntry([Blob(kind, a), Blob(kind, b)], None) == MergeEntry([Blob(kind, c)], None)
  {
    var x, y := ParseFields(a).value, ParseFields(b).value;
    var base := if kind == 1 then Remove([], 0) else Insert([], [], 0);
    FieldsTogether(x, y, 1, [], 0);
    FieldsTogether(x, y, 2, [], 0);
    FieldsTogether(x, y, 3, [], 0);
    hide ParseFields, GetBlob, GetNumber, MergeEntry;
    MergePart(kind, a, [Blob(kind, b)], None);
    MergePart(kind, b, [], Some(Part(kind, x, base)));
    MergePart(kind, c, [], None);
    assert [Blob(kind, a)] + [Blob(kind, b)] == [Blob(kind, a), Blob(kind, b)];
    AppendNothing([Blob(kind, b)], []);
    AppendNothing([Blob(kind, c)], []);
  }

  /** Of two different operations in one entry the later one counts. */
  lemma LaterOperationCounts(kind: nat, a: Bytes, b: Bytes)
    requires kind == 1 || kind == 2
    requires ParseFields(a).Some? && ParseFields(b).Some?
    ensures MergeEntry([Blob(3 - kind, a), Blob(kind, b)], None) == MergeEntry([Blob(kind, b)], None)
  {
    hide ParseFields, GetBlob, GetNumber;
    assert [Blob(3 - kind, a), Blob(kind, b)][1..] == [Blob(kind, b)] && [Blob(kind, b)][1..] == [];
  }

  lemma InnerFieldsValid(op: Operation)
    requires |EncodeFields(InnerFields(op))| < MAX_SIZE
    ensures ValidFields(InnerFields(op))
  {
    var fs := InnerFields(op);
    forall i | 0 <= i < |fs|
      ensures ValidField(fs[i])
    {
      if fs[i].Blob? {
        FieldsLength(fs, i);
      }
    }
  }

  lemma InnerValues(op: Operation)
    ensures GetBlob(InnerFields(op), 1, []) == op.key
    ensures op.Insert? ==> GetBlob(InnerFields(op), 2, []) == op.value && GetNumber(InnerFields(op), 3, 0) == op.version
    ensures op.Remove? ==> GetNumber(InnerFields(op), 2, 0) == op.version
  {
    var fs := InnerFields(op);
    if op.Insert? {
      assert fs[..2] == [Blob(1, op.key), Blob(2, op.value)];
      assert fs[..2][..1] == [Blob(1, op.key)];
      assert GetBlob(fs, 1, []) == GetBlob(fs[..2], 1, []) == GetBlob(fs[..2][..1], 1, []);
    } else {
      assert fs[..1] == [Blob(1, op.key)];
    }
  }

  lemma MergeOne(op: Operation, inner: Bytes)
    requires ParseFields(inner) == Some(InnerFields(op))
    ensures MergeEntry([Blob(if op.Remove? then 1 else 2, inner)], None) == Some(Some(op))
  {
    InnerValues(op);
    hide ParseFields, InnerFields, GetBlob, GetNumber;
    assert [Blob(if op.Remove? then 1 else 2, inner)][1..] == [];
  }

  /** Every operation that can be written is read back, whatever its strings hold. */
  lemma OperationRoundTrip(op: Operation)
    requires Fits(op)
    ensures DecodeOperation(EncodeOperation(op)) == Some(Some(op))
  {
    var fs := [Blob(if op.Remove? then 1 else 2, EncodeFields(InnerFields(op)))];
    FieldsLength(fs, 0);
    FieldsRoundTrip(fs);
    InnerFieldsValid(op);
    FieldsRoundTrip(InnerFields(op));
    MergeOne(op, EncodeFields(InnerFields(op)));
  }

  // ---------------------------------------------------------------- the file

  /** `ParseDelimitedFromZeroCopyStream` of one `wal.Entry`. */
  function ReadEntry(bs: Bytes): (r: Delimited<Option<Operation>>)
    ensures r.Good? ==> 0 < r.size <= |bs|
  {
    match ReadFrame(bs)
    case Eof => Eof
    case Bad => Bad
    case Good(body, size) =>
      match DecodeOperation(body)
      case None => Bad
      case Some(op) => Good(op, size)
  }

  /** The operations of a log file, and the offset at which its complete entries end. */
  datatype Contents = Contents(ops: seq<Operation>, valid: nat)

  function OpsOf(op: Option<Operation>): seq<Operation> {
    if op.Some? then [op.value] else []
  }

  function DecodeLog(bs: Bytes): (c: Contents)
    ensures c.valid <= |bs|
  {
    match ReadEntry(bs)
    case Eof => Contents([], 0)
    case Bad => Contents([], 0)
    case Good(op, size) =>
      var rest := DecodeLog(bs[size..]);
      Contents(OpsOf(op) + rest.ops, size + rest.valid)
  }

  function EncodeEntry(op: Operation): Bytes {
    EncodeFrame(EncodeOperation(op))
  }

  function EncodeLog(ops: seq<Operation>): Bytes {
    if ops == [] then [] else EncodeEntry(ops[0]) + EncodeLog(ops[1..])
  }

  /** A reader that has taken `result` from the first `position` bytes is on its way to `DecodeLog`. */
  ghost predicate Reading(bs: Bytes, result: seq<Operation>, position: nat) {
    && position <= |bs|
    && DecodeLog(bs).ops == result + DecodeLog(bs[position..]).ops
    && DecodeLog(bs).valid == position + DecodeLog(bs[position..]).valid
  }

  lemma ReadingStep(bs: Bytes, result: seq<Operation>, position: nat)
    requires Reading(bs, result, position)
    ensures position <= |bs|
    ensures match ReadEntry(bs[position..])
            case Good(op, size) => Reading(bs, result + OpsOf(op), position + size)
            case _ => DecodeLog(bs) == Contents(result, position)
  {
    hide ReadEntry;
    match ReadEntry(bs[position..]) {
      case Good(op, size) =>
        assert bs[position..][size..] == bs[position + size..];
        ConcatIsAssociative(result, OpsOf(op), DecodeLog(bs[position + size..]).ops);
      case _ =>
        AppendNothing(result, []);
    }
  }

  lemma ReadingStart(bs: Bytes)
    ensures Reading(bs, [], 0)
  {
    hide ReadEntry;
    assert bs[0..] == bs;
  }

  /** `ReadWAL`: `file` is absent when the file cannot be opened. */
  method ReadWAL(file: Option<Bytes>) returns (r: Result<Contents>)
    ensures r.Err? <==> file.None?
    ensures r.Ok? ==> r.value == DecodeLog(file.value)
  {
    hide *;
    if file.None? {
      return Err;
    }
    var bs := file.value;
    var result: seq<Operation> := [];
    var position := 0;
    ReadingStart(bs);
    while true
      invariant position <= |bs| && Reading(bs, result, position)
      decreases |bs| - position
    {
      var lastValid := position;
      ReadingStep(bs, result, position);
      match ReadEntry(bs[position..]) {
        case Eof =>
          return Ok(Contents(result, lastValid));
        case Bad =>
          return Ok(Contents(result, lastValid));
        case Good(op, size) =>
          result := result + OpsOf(op);
          position := position + size;
          ReadingStep(bs, result, position);
      }
    }
  }

  /** An entry without an operation is passed over, and one that is cut short or no message ends the log. */
  lemma OtherEntries(bs: Bytes)
    ensures !ReadFrame(bs).Good? || DecodeOperation(ReadFrame(bs).value).None? ==> DecodeLog(bs) == Contents([], 0)
    ensures ReadFrame(bs).Good? && DecodeOperation(ReadFrame(bs).value) == Some(None) ==>
              var rest := DecodeLog(bs[ReadFrame(bs).size..]);
              DecodeLog(bs) == Contents(rest.ops, ReadFrame(bs).size + rest.valid)
  {
    hide DecodeOperation;
    var frame := ReadFrame(bs);
    if frame.Good? {
      assert [] + DecodeLog(bs[frame.size..]).ops == DecodeLog(bs[frame.size..]).ops;
    }
  }

  lemma EntryRoundTrip(op: Operation, rest: Bytes)
    requires Fits(op)
    ensures ReadEntry(EncodeEntry(op) + rest) == Good(Some(op), |EncodeEntry(op)|)
  {
    OperationRoundTrip(op);
    FrameRoundTrip(EncodeOperation(op), rest);
  }

  lemma DecodeOneMore(op: Operation, rest: Bytes)
    requires Fits(op)
    ensures DecodeLog(EncodeEntry(op) + rest) ==
            Contents([op] + DecodeLog(rest).ops, |EncodeEntry(op)| + DecodeLog(rest).valid)
  {
    EntryRoundTrip(op, rest);
    assert (EncodeEntry(op) + rest)[|EncodeEntry(op)|..] == rest;
  }

  /** What was logged is decoded first, whatever bytes follow it. */
  lemma {:induction false} DecodeAfterLog(ops: seq<Operation>, tail: Bytes)
    requires AllFit(ops)
    ensures DecodeLog(EncodeLog(ops) + tail) ==
            Contents(ops + DecodeLog(tail).ops, |EncodeLog(ops)| + DecodeLog(tail).valid)
  {
    hide DecodeLog, EncodeEntry, Fits;
    if ops == [] {
      assert EncodeLog(ops) + tail == tail;
      assert ops + DecodeLog(tail).ops == DecodeLog(tail).ops;
    } else {
      var rest := EncodeLog(ops[1..]) + tail;
      ConcatIsAssociative(EncodeEntry(ops[0]), EncodeLog(ops[1..]), tail);
      DecodeOneMore(ops[0], rest);
      DecodeAfterLog(ops[1..], tail);
      ConcatIsAssociative([ops[0]], ops[1..], DecodeLog(tail).ops);
      assert [ops[0]] + ops[1..] == ops;
    }
  }

  lemma TornEntry(op: Operation, cut: nat)
    requires Fits(op) && cut < |EncodeEntry(op)|
    ensures DecodeLog(EncodeEntry(op)[..cut]) == Contents([], 0)
  {
    FramePrefix(EncodeOperation(op), cut);
  }

  /**
   A log whose last write was cut anywhere yields exactly the operations before it, and the offset
   where they end.
   */
  lemma TornLog(ops: seq<Operation>, next: Operation, cut: nat)
    requires AllFit(ops) && Fits(next) && cut < |EncodeEntry(next)|
    ensures DecodeLog(EncodeLog(ops) + EncodeEntry(next)[..cut]) == Contents(ops, |EncodeLog(ops)|)
  {
    TornEntry(next, cut);
    DecodeAfterLog(ops, EncodeEntry(next)[..cut]);
  }

  /** Cutting a log anywhere leaves the operations that lie wholly before the cut, and no others. */
  lemma {:induction false} CutLog(ops: seq<Operation>, cut: nat) returns (kept: nat)
    requires AllFit(ops) && cut <= |EncodeLog(ops)|
    ensures kept <= |ops| && |EncodeLog(ops[..kept])| <= cut
    ensures kept < |ops| ==> cut < |EncodeLog(ops[..kept + 1])|
    ensures DecodeLog(EncodeLog(ops)[..cut]) == Contents(ops[..kept], |EncodeLog(ops[..kept])|)
  {
    hide DecodeLog, EncodeEntry, Fits;
    kept := WholeBefore(ops, cut);
    var before := EncodeLog(ops[..kept]);
    EncodeLogSplit(ops, kept);
    TakeOfConcat(before, EncodeLog(ops[kept..]), cut);
    if kept < |ops| {
      EncodeLogSnoc(ops[..kept], ops[kept]);
      assert ops[..kept + 1] == ops[..kept] + [ops[kept]];
      TakeInFirst(EncodeEntry(ops[kept]), EncodeLog(ops[kept..][1..]), cut - |before|);
      TornLog(ops[..kept], ops[kept], cut - |before|);
    } else {
      assert ops[..kept] == ops;
      TornNothing(ops, cut);
    }
  }

  lemma TornNothing(ops: seq<Operation>, cut: nat)
    requires AllFit(ops) && cut == |EncodeLog(ops)|
    ensures DecodeLog(EncodeLog(ops)[..cut]) == Contents(ops, cut)
  {
    hide ReadEntry;
    DecodeAfterLog(ops, []);
    AppendNothing(ops, []);
    AppendNothing(EncodeLog(ops), []);
    assert EncodeLog(ops)[..cut] == EncodeLog(ops);
  }

  lemma {:induction false} EncodeLogSplit(ops: seq<Operation>, k: nat)
    requires k <= |ops|
    ensures EncodeLog(ops) == EncodeLog(ops[..k]) + EncodeLog(ops[k..])
  {
    hide EncodeEntry;
    if k == 0 {
      assert ops[0..] == ops;
    } else {
      EncodeLogSplit(ops[1..], k - 1);
      assert ops[..k][1..] == ops[1..][..k - 1];
      assert ops[1..][k - 1..] == ops[k..];
      ConcatIsAssociative(EncodeEntry(ops[0]), EncodeLog(ops[1..][..k - 1]), EncodeLog(ops[k..]));
    }
  }

  lemma {:induction false} WholeBefore(ops: seq<Operation>, cut: nat) returns (kept: nat)
    requires cut <= |EncodeLog(ops)|
    ensures kept <= |ops| && |EncodeLog(ops[..kept])| <= cut
    ensures kept < |ops| ==> cut < |EncodeLog(ops[..kept + 1])|
  {
    kept := |ops|;
    assert ops[..kept] == ops;
    while cut < |EncodeLog(ops[..kept])|
      invariant kept <= |ops|
      invariant kept < |ops| ==> cut < |EncodeLog(ops[..kept + 1])|
      decreases kept
    {
      kept := kept - 1;
    }
  }

  lemma {:induction false} EncodeLogSnoc(ops: seq<Operation>, op: Operation)
    ensures EncodeLog(ops + [op]) == EncodeLog(ops) + EncodeEntry(op)
  {
    if ops == [] {
      assert [op][1..] == [];
    } else {
      assert (ops + [op])[1..] == ops[1..] + [op];
      EncodeLogSnoc(ops[1..], op);
    }
  }

  // ---------------------------------------------------------------- the writer

  /** Writing at a position that is not past the end: the file is overwritten, never truncated. */
  function Overwrite(file: Bytes, pos: nat, bytes: Bytes): (r: Bytes)
    requires pos <= |file|
    ensures pos + |bytes| <= |r|
  {
    file[..pos] + bytes + (if pos + |bytes| <= |file| then file[pos + |bytes|..] else [])
  }

  /** What is left of the old tail when `written` bytes have been put at `pos`. */
  function Leftover(file: Bytes, pos: nat, written: nat): Bytes {
    if pos + written <= |file| then file[pos + written..] else []
  }

  lemma EntryLocal(a: Bytes, b: Bytes)
    requires ReadEntry(a).Good? && ReadEntry(a).size <= |b|
    requires a[..ReadEntry(a).size] == b[..ReadEntry(a).size]
    ensures ReadEntry(b) == ReadEntry(a)
  {
    FrameLocal(a, b);
  }

  lemma ReadEntrySplit(file: Bytes, valid: nat, tail: Bytes)
    requires ReadEntry(file).Good? && ReadEntry(file).size <= valid <= |file|
    ensures ReadEntry(file[..valid] + tail) == ReadEntry(file)
    ensures (file[..valid] + tail)[ReadEntry(file).size..] ==
            file[ReadEntry(file).size..][..valid - ReadEntry(file).size] + tail
  {
    var size := ReadEntry(file).size;
    TakeInFirst(file[..valid], tail, size);
    assert file[..valid][..size] == file[..size];
    EntryLocal(file, file[..valid] + tail);
  }

  /** The complete entries of any file are still decoded when the bytes after them are replaced. */
  lemma {:induction false} DecodeSplit(file: Bytes, tail: Bytes)
    ensures DecodeLog(file[..DecodeLog(file).valid] + tail) ==
            Contents(DecodeLog(file).ops + DecodeLog(tail).ops, DecodeLog(file).valid + DecodeLog(tail).valid)
    decreases |file|
  {
    hide ReadEntry;
    var valid := DecodeLog(file).valid;
    var joined := file[..valid] + tail;
    match ReadEntry(file) {
      case Good(op, size) =>
        var rest := file[size..];
        DecodeSplit(rest, tail);
        ReadEntrySplit(file, valid, tail);
        ConcatIsAssociative(OpsOf(op), DecodeLog(rest).ops, DecodeLog(tail).ops);
      case _ =>
        assert joined == tail;
    }
  }

  /** The first `end` bytes of a file are complete entries, and these are their operations. */
  ghost predicate Holds(file: Bytes, end: nat, ops: seq<Operation>) {
    end <= |file| && DecodeLog(file[..end]) == Contents(ops, end)
  }

  /** `ReadWAL` reports what a file holds. */
  lemma DecodedHolds(file: Bytes)
    ensures Holds(file, DecodeLog(file).valid, DecodeLog(file).ops)
  {
    hide DecodeLog;
    DecodeSplit(file, []);
    AppendNothing(file[..DecodeLog(file).valid], []);
    DecodeNothing();
    AppendNothing(DecodeLog(file).ops, []);
  }

  lemma DecodeNothing()
    ensures DecodeLog([]) == Contents([], 0)
  {
  }

  /** What a file holds is what `ReadWAL` returns, just when the bytes after it decode to nothing. */
  lemma HoldsExact(file: Bytes, end: nat, ops: seq<Operation>)
    requires Holds(file, end, ops)
    ensures DecodeLog(file).ops == ops <==> DecodeLog(file[end..]).ops == []
    ensures end == |file| ==> DecodeLog(file) == Contents(ops, end)
  {
    hide DecodeLog;
    DecodeSplit(file[..end], file[end..]);
    assert file[..end][..end] == file[..end] && file[..end] + file[end..] == file;
    AppendNothing(ops, DecodeLog(file[end..]).ops);
    if end == |file| {
      assert file[..end] == file;
    }
  }

  /** A reader of a file that is whole does not notice the beginning of one more entry. */
  lemma TornAppend(file: Bytes, next: Operation, cut: nat)
    requires DecodeLog(file).valid == |file| && Fits(next) && cut < |EncodeEntry(next)|
    ensures DecodeLog(file + EncodeEntry(next)[..cut]) == DecodeLog(file)
  {
    hide DecodeLog, EncodeEntry, Fits;
    TornEntry(next, cut);
    DecodeSplit(file, EncodeEntry(next)[..cut]);
    assert file[..|file|] == file;
    AppendNothing(DecodeLog(file).ops, []);
  }

  /** Writing one more entry at the end of what a file holds. */
  lemma HoldsOneMore(file: Bytes, end: nat, ops: seq<Operation>, op: Operation)
    requires Holds(file, end, ops) && Fits(op)
    ensures Holds(Overwrite(file, end, EncodeEntry(op)), end + |EncodeEntry(op)|, ops + [op])
  {
    hide DecodeLog, EncodeEntry, Fits;
    var entry := EncodeEntry(op);
    DecodeSplit(file[..end], entry);
    assert file[..end][..end] == file[..end];
    assert Overwrite(file, end, entry)[..end + |entry|] == file[..end] + entry;
    DecodeNothing();
    DecodeOneMore(op, []);
    AppendNothing(entry, []);
    AppendNothing([op], []);
  }

  /** The file after `ops` have been appended by a writer opened at the offset that `ReadWAL` reported. */
  function Resumed(file: Bytes, ops: seq<Operation>): Bytes {
    Overwrite(file, DecodeLog(file).valid, EncodeLog(ops))
  }

  /**
   Resuming any log file, torn or not. The next `ReadWAL` returns the old operations, the new ones, and
   then whatever the unoverwritten rest of the old tail happens to decode to.
   */
  lemma ResumedIs(file: Bytes, ops: seq<Operation>)
    ensures DecodeLog(file).valid <= |file|
    ensures Resumed(file, ops) == file[..DecodeLog(file).valid]
                                  + (EncodeLog(ops) + Leftover(file, DecodeLog(file).valid, |EncodeLog(ops)|))
  {
    DecodedHolds(file);
    hide DecodeLog, EncodeLog;
    var valid := DecodeLog(file).valid;
    ConcatIsAssociative(file[..valid], EncodeLog(ops), Leftover(file, valid, |EncodeLog(ops)|));
  }

  lemma ResumeLog(file: Bytes, ops: seq<Operation>)
    requires AllFit(ops)
    ensures var left := Leftover(file, DecodeLog(file).valid, |EncodeLog(ops)|);
            DecodeLog(Resumed(file, ops)).ops == DecodeLog(file).ops + ops + DecodeLog(left).ops
  {
    ResumedIs(file, ops);
    hide *;
    var left := Leftover(file, DecodeLog(file).valid, |EncodeLog(ops)|);
    DecodeSplit(file, EncodeLog(ops) + left);
    DecodeAfterLog(ops, left);
    ConcatIsAssociative(DecodeLog(file).ops, ops, DecodeLog(left).ops);
  }

  lemma ResumeClean(file: Bytes, ops: seq<Operation>)
    requires AllFit(ops) && |file| <= DecodeLog(file).valid + |EncodeLog(ops)|
    ensures DecodeLog(Resumed(file, ops)) == Contents(DecodeLog(file).ops + ops, |Resumed(file, ops)|)
  {
    AppendNothing(EncodeLog(ops), []);
    AppendNothing(ops, []);
    AppendNothing(file[..DecodeLog(file).valid] + EncodeLog(ops), []);
    DecodeAfterLog(ops, []);
    DecodeSplit(file, EncodeLog(ops));
  }

  /** Resuming is exact just when the leftover of the torn tail decodes to no operation. */
  lemma ResumeExact(file: Bytes, ops: seq<Operation>)
    requires AllFit(ops)
    ensures DecodeLog(Resumed(file, ops)).ops == DecodeLog(file).ops + ops
       <==> DecodeLog(Leftover(file, DecodeLog(file).valid, |EncodeLog(ops)|)).ops == []
    ensures |file| <= DecodeLog(file).valid + |EncodeLog(ops)|
       ==> DecodeLog(Resumed(file, ops)) == Contents(DecodeLog(file).ops + ops, |Resumed(file, ops)|)
  {
    var valid := DecodeLog(file).valid;
    ResumeLog(file, ops);
    AppendNothing(DecodeLog(file).ops + ops, DecodeLog(Leftover(file, valid, |EncodeLog(ops)|)).ops);
    if |file| <= valid + |EncodeLog(ops)| {
      ResumeClean(file, ops);
    }
  }

  lemma InnerBytes(op: Operation)
    requires |op.key| + (if op.Insert? then |op.value| else 0) < 100 && op.version < 128
    ensures EncodeFields(InnerFields(op)) ==
            match op
            case Insert(key, value, version) => [10, |key|] + key + ([18, |value|] + value) + [24, version]
            case Remove(key, version) => [10, |key|] + key + [16, version]
  {
    match op {
      case Insert(key, value, version) => ThreeShort(Blob(1, key), Blob(2, value), Number(3, version));
      case Remove(key, version) => TwoShort(Blob(1, key), Number(2, version));
    }
    hide EncodeFields;
  }

  /** The very bytes of an entry with short strings and a small version. */
  lemma EntryBytes(op: Operation)
    requires |op.key| + (if op.Insert? then |op.value| else 0) < 100 && op.version < 128
    ensures EncodeEntry(op) ==
            match op
            case Insert(key, value, version) =>
              [|key| + |value| + 8] + ([18, |key| + |value| + 6]
                                       + ([10, |key|] + key + ([18, |value|] + value) + [24, version]))
            case Remove(key, version) => [|key| + 6] + ([10, |key| + 4] + ([10, |key|] + key + [16, version]))
  {
    InnerBytes(op);
    var inner := EncodeFields(InnerFields(op));
    OneShort(Blob(if op.Remove? then 1 else 2, inner));
    hide InnerFields, EncodeFields;
    assert |inner| < 120;
    assert EncodeVarint(|EncodeOperation(op)|) == [|EncodeOperation(op)|];
  }

  /**
   Resuming is not always exact: the torn entry's key holds the bytes of a whole log entry, a shorter
   new entry ends just before them, and the next `ReadWAL` reports the removal twice.
   */
  lemma ResumeCanRepeat() returns (op: Operation, next: Operation, cut: nat)
    ensures Fits(op) && Fits(next) && cut < |EncodeEntry(next)|
    ensures DecodeLog(Resumed(EncodeEntry(next)[..cut], [op])).ops == [op, op]
  {
    op, next, cut := Remove([], 0), Insert([0, 0, 6, 10, 4, 10, 0, 16, 0], [], 0), 14;
    RepeatedBytes();
    hide DecodeLog, EncodeEntry, Fits;
    TornEntry(next, cut);
    ResumeRepeats(EncodeEntry(next)[..cut], op);
  }

  /** The torn insertion, from its eighth byte on, is a whole removal. */
  lemma RepeatedBytes()
    ensures Fits(Remove([], 0)) && EncodeEntry(Remove([], 0)) == [6, 10, 4, 10, 0, 16, 0]
    ensures var next := Insert([0, 0, 6, 10, 4, 10, 0, 16, 0], [], 0);
            Fits(next) && 14 < |EncodeEntry(next)| && EncodeEntry(next)[..14][7..] == [6, 10, 4, 10, 0, 16, 0]
  {
    var next := Insert([0, 0, 6, 10, 4, 10, 0, 16, 0], [], 0);
    EntryBytes(Remove([], 0));
    EntryBytes(next);
    hide EncodeEntry, Fits;
    assert [18, |next.value|] + next.value == [18, 0];
    MiddleOf([17], [18, 15], [10, 9], next.key, [18, 0], [24, 0]);
    FitsIfShort(Remove([], 0));
    FitsIfShort(next);
  }

  lemma MiddleOf(a: Bytes, b: Bytes, c: Bytes, key: Bytes, d: Bytes, e: Bytes)
    requires |a| == 1 && |b| == |c| == 2 && |key| == 9 && |d| == |e| == 2
    ensures (a + (b + (c + key + d + e)))[..14][7..] == key[2..]
  {
  }

  lemma FitsIfShort(op: Operation)
    requires |EncodeEntry(op)| < 1000
    ensures Fits(op)
  {
  }

  lemma ResumeRepeats(file: Bytes, op: Operation)
    requires Fits(op) && DecodeLog(file) == Contents([], 0)
    requires |EncodeEntry(op)| <= |file| && file[|EncodeEntry(op)|..] == EncodeEntry(op)
    ensures DecodeLog(Resumed(file, [op])).ops == [op, op]
  {
    hide DecodeLog, EncodeEntry, Fits;
    assert EncodeLog([op]) == EncodeEntry(op) by { assert [op][1..] == []; }
    ResumeLog(file, [op]);
    TornNothing([op], |EncodeEntry(op)|);
    assert EncodeLog([op])[..|EncodeEntry(op)|] == EncodeEntry(op);
  }
}
