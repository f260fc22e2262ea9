/** The LevelDB log: what parseLevelDBLog makes of a file, and the file a log writer produces. */
module LogFormat {
  import opened Wrappers
  import opened Bytes
  import opened WriteBatch

  const BLOCK := 32768
  const HEADER := 7

  const FULL: Byte := 1
  const FIRST: Byte := 2
  const MIDDLE: Byte := 3
  const LAST: Byte := 4

  function Min(a: int, b: int): (m: int)
    ensures m <= a && m <= b && (m == a || m == b)
  {
    if a < b then a else b
  }

  // ----- The reader's walk over headers -----

  /** End of the block holding offset, cut off at the end of the file. */
  function BlockEnd(data: seq<Byte>, offset: nat): (end: nat)
    ensures offset < |data| ==> offset < end <= |data|
  {
    Min((offset / BLOCK + 1) * BLOCK, |data|)
  }

  function Length(data: seq<Byte>, offset: nat): (n: nat)
    requires offset + HEADER <= |data|
    ensures n < 0x1_0000
  {
    DecodeLE(data, offset + 4, 2)
  }

  /** A record header is read at offset: it lies within its block and is not the zero padding of the block. */
  predicate HeaderAt(data: seq<Byte>, offset: nat) {
    offset < |data| && offset + HEADER <= BlockEnd(data, offset) &&
    !(Length(data, offset) == 0 && data[offset + 6] == 0)
  }

  /** The record at offset declares more bytes than the file has. */
  predicate Overruns(data: seq<Byte>, offset: nat)
    requires HeaderAt(data, offset)
  {
    offset + HEADER + Length(data, offset) > |data|
  }

  function Payload(data: seq<Byte>, offset: nat): (p: seq<Byte>)
    requires HeaderAt(data, offset) && !Overruns(data, offset)
  {
    data[offset + HEADER..offset + HEADER + Length(data, offset)]
  }

  /** Where the reader looks next. A record that overruns its block is pulled back to the end of that block. */
  function Advance(data: seq<Byte>, offset: nat): (next: nat)
    requires offset < |data|
    ensures offset < next <= |data|
  {
    if HeaderAt(data, offset) then Min(offset + HEADER + Length(data, offset), BlockEnd(data, offset))
    else BlockEnd(data, offset)
  }

  // ----- Reassembly -----

  /** The fragment kept for later records, and the logical record completed by this one, if any. */
  datatype Assembly = Assembly(fragment: seq<Byte>, complete: Option<seq<Byte>>)

  function Assemble(kind: Byte, payload: seq<Byte>, fragment: seq<Byte>): (a: Assembly) {
    if kind == FULL then Assembly(fragment, Some(payload))
    else if kind == FIRST then Assembly(payload, None)
    else if kind == MIDDLE then Assembly(fragment + payload, None)
    else if kind == LAST then Assembly([], Some(fragment + payload))
    else Assembly([], None)
  }

  /** The logical records completed from offset on, and whether the walk ended at a record that overruns the file. */
  datatype Frames = Frames(records: seq<seq<Byte>>, truncated: bool) {
    function Prepend(record: Option<seq<Byte>>): (f: Frames) {
      if record.None? then this else Frames([record.value] + records, truncated)
    }
  }

  function ReadFrames(data: seq<Byte>, offset: nat, fragment: seq<Byte>): (f: Frames)
    decreases |data| - offset
  {
    if offset >= |data| then Frames([], false)
    else if !HeaderAt(data, offset) then ReadFrames(data, Advance(data, offset), fragment)
    else if Overruns(data, offset) then Frames([], true)
    else
      var a := Assemble(data[offset + 6], Payload(data, offset), fragment);
      ReadFrames(data, Advance(data, offset), a.fragment).Prepend(a.complete)
  }

  /** The walk that starts at from visits the offset to. */
  ghost predicate Reaches(data: seq<Byte>, from: nat, to: nat)
    decreases |data| - from
  {
    from == to ||
    (from < |data| && !(HeaderAt(data, from) && Overruns(data, from)) && Reaches(data, Advance(data, from), to))
  }

  /** On arbitrary bytes, reading fails exactly when a reached header declares more bytes than the file has. */
  lemma {:induction false} TruncatedExactly(data: seq<Byte>, from: nat, fragment: seq<Byte>)
    ensures ReadFrames(data, from, fragment).truncated <==>
            exists o: nat :: Reaches(data, from, o) && HeaderAt(data, o) && Overruns(data, o)
    decreases |data| - from
  {
    if from < |data| {
      if HeaderAt(data, from) && Overruns(data, from) {
        assert Reaches(data, from, from);
      } else {
        var next := Advance(data, from);
        var kept := if HeaderAt(data, from) then Assemble(data[from + 6], Payload(data, from), fragment).fragment
                    else fragment;
        TruncatedExactly(data, next, kept);
        assert forall o: nat :: Reaches(data, next, o) ==> Reaches(data, from, o);
      }
    }
  }

  // ----- Rows -----

  datatype LogResult = Rows(rows: seq<Row>) | UnexpectedEOF | Panic

  /** The rows of the records that parse, in order; None when parsing one of them panics. */
  function CollectRows(records: seq<seq<Byte>>): (r: Option<seq<Row>>) {
    if records == [] then Some([])
    else
      var head, tail := RowsFrom(Some(records[0])), CollectRows(records[1..]);
      if head.None? || tail.None? then None else Some(head.value + tail.value)
  }

  /** The outcome of reading on from offset with rows already collected. */
  function ReadOn(data: seq<Byte>, offset: nat, fragment: seq<Byte>, rows: seq<Row>): (r: LogResult) {
    var frames := ReadFrames(data, offset, fragment);
    var more := CollectRows(frames.records);
    if more.None? then Panic
    else if frames.truncated then LogResult.UnexpectedEOF
    else Rows(rows + more.value)
  }

  function ParseLog(data: seq<Byte>): (r: LogResult) {
    ReadOn(data, 0, [], [])
  }

  /** The rows a completed record adds; None when parsing it panics. */
  function RowsFrom(complete: Option<seq<Byte>>): (r: Option<seq<Row>>) {
    if complete.None? then Some([])
    else
      var parsed := ParseBatch(complete.value);
      if parsed.Panicked? then None else Some(if parsed.Parsed? then parsed.rows else [])
  }

  lemma ReadOnSkips(data: seq<Byte>, offset: nat, fragment: seq<Byte>, rows: seq<Row>)
    requires offset < |data| && !HeaderAt(data, offset)
    ensures ReadOn(data, offset, fragment, rows) == ReadOn(data, BlockEnd(data, offset), fragment, rows)
  {
  }

  lemma ReadOnEnds(data: seq<Byte>, offset: nat, fragment: seq<Byte>, rows: seq<Row>)
    ensures offset >= |data| ==> ReadOn(data, offset, fragment, rows) == Rows(rows)
    ensures HeaderAt(data, offset) && Overruns(data, offset)
        ==> ReadOn(data, offset, fragment, rows) == LogResult.UnexpectedEOF
  {
    assert rows + [] == rows;
  }

  lemma ReadOnRecord(data: seq<Byte>, offset: nat, fragment: seq<Byte>, rows: seq<Row>)
    requires HeaderAt(data, offset) && !Overruns(data, offset)
    ensures var a := Assemble(data[offset + 6], Payload(data, offset), fragment);
            var more := RowsFrom(a.complete);
            ReadOn(data, offset, fragment, rows)
              == if more.None? then Panic
                 else ReadOn(data, Advance(data, offset), a.fragment, rows + more.value)
  {
    var a := Assemble(data[offset + 6], Payload(data, offset), fragment);
    var more := RowsFrom(a.complete);
    var later := ReadFrames(data, Advance(data, offset), a.fragment);
    assert [] + later.records == later.records;
    if more.Some? && CollectRows(later.records).Some? {
      var tail := CollectRows(later.records).value;
      assert rows + (more.value + tail) == (rows + more.value) + tail;
      assert rows + [] == rows;
    }
    if a.complete.Some? {
      assert ([a.complete.value] + later.records)[1..] == later.records;
    }
  }

  ghost predicate SomePanics(records: seq<seq<Byte>>) {
    exists i :: 0 <= i < |records| && ParseBatch(records[i]).Panicked?
  }

  lemma {:induction false} CollectPanicsExactly(records: seq<seq<Byte>>)
    ensures CollectRows(records).None? <==> SomePanics(records)
  {
    if records != [] {
      CollectPanicsExactly(records[1..]);
      assert forall i | 0 < i < |records| :: records[i] == records[1..][i - 1];
      assert forall i | 0 <= i < |records| - 1 :: records[1..][i] == records[i + 1];
    }
  }

  /** The whole-file outcome is a panic exactly when parsing one of the completed records panics. */
  lemma ParseLogPanicsExactly(data: seq<Byte>)
    ensures ParseLog(data) == Panic <==> SomePanics(ReadFrames(data, 0, []).records)
  {
    CollectPanicsExactly(ReadFrames(data, 0, []).records);
  }

  // ----- The writer, after LevelDB's log format -----

  /** The checksum bytes are skipped by the reader, so any function may fill them. */
  type Checksum = (Byte, seq<Byte>) -> nat

  function Chunk(crc: Checksum, kind: Byte, part: seq<Byte>): (s: seq<Byte>)
    ensures |s| == HEADER + |part|
  {
    EncodeLE(crc(kind, part), 4) + (EncodeLE(|part|, 2) + ([kind] + part))
  }

  function Leftover(pos: nat): (n: nat)
    ensures 0 < n <= BLOCK && (pos + n) % BLOCK == 0
  {
    BLOCK - pos % BLOCK
  }

  lemma NextBlock(pos: nat)
    ensures Leftover(pos + Leftover(pos)) == BLOCK
  {
  }

  function Zeros(n: nat): (s: seq<Byte>)
    ensures |s| == n
  {
    seq(n, _ => 0)
  }

  function Kind(begin: bool, end: bool): (kind: Byte)
    ensures FULL <= kind <= LAST
  {
    if begin then (if end then FULL else FIRST) else (if end then LAST else MIDDLE)
  }

  /** The bytes written for one logical record when the file already has pos bytes. */
  function EmitRecord(crc: Checksum, pos: nat, record: seq<Byte>, begin: bool): (s: seq<Byte>)
    decreases |record|, if Leftover(pos) <= HEADER then 1 else 0
  {
    if Leftover(pos) < HEADER then
      Zeros(Leftover(pos)) + EmitRecord(crc, pos + Leftover(pos), record, begin)
    else
      var avail := Leftover(pos) - HEADER;
      if |record| <= avail then Chunk(crc, Kind(begin, true), record)
      else
        Chunk(crc, Kind(begin, false), record[..avail])
          + EmitRecord(crc, pos + Leftover(pos), record[avail..], false)
  }

  function EncodeLog(crc: Checksum, pos: nat, records: seq<seq<Byte>>): (s: seq<Byte>)
    decreases |records|
  {
    if records == [] then []
    else
      var first := EmitRecord(crc, pos, records[0], true);
      first + EncodeLog(crc, pos + |first|, records[1..])
  }

  // ----- Round trip -----

  lemma ReadChunk(data: seq<Byte>, pos: nat, crc: Checksum, kind: Byte, part: seq<Byte>)
    requires FULL <= kind <= LAST && HEADER + |part| <= Leftover(pos) && At(data, pos, Chunk(crc, kind, part))
    ensures HeaderAt(data, pos) && !Overruns(data, pos)
    ensures data[pos + 6] == kind && Payload(data, pos) == part
    ensures Advance(data, pos) == pos + HEADER + |part|
  {
    AtSplit(data, pos, EncodeLE(crc(kind, part), 4), EncodeLE(|part|, 2) + ([kind] + part));
    AtSplit(data, pos + 4, EncodeLE(|part|, 2), [kind] + part);
    AtSplit(data, pos + 6, [kind], part);
    assert [kind][0] == data[pos + 6 + 0];
    assert Power256(2) == 0x1_0000;
    LittleEndianRoundTrip(data, pos + 4, |part|, 2);
    AtSlice(data, pos + 7, part);
  }

  lemma ReadOnePart(
    data: seq<Byte>, pos: nat, crc: Checksum, kind: Byte, part: seq<Byte>, fragment: seq<Byte>)
    requires FULL <= kind <= LAST && HEADER + |part| <= Leftover(pos) && At(data, pos, Chunk(crc, kind, part))
    ensures ReadFrames(data, pos, fragment)
         == ReadFrames(data, pos + HEADER + |part|, Assemble(kind, part, fragment).fragment)
              .Prepend(Assemble(kind, part, fragment).complete)
  {
    ReadChunk(data, pos, crc, kind, part);
  }

  lemma SkipTrailer(data: seq<Byte>, pos: nat, fragment: seq<Byte>)
    requires Leftover(pos) < HEADER && pos + Leftover(pos) <= |data|
    ensures ReadFrames(data, pos, fragment) == ReadFrames(data, pos + Leftover(pos), fragment)
  {
  }

  /** What reading from pos gives when a record beginning or going on there is completed just before next. */
  ghost predicate Completes(
    data: seq<Byte>, pos: nat, next: nat, record: seq<Byte>, begin: bool, fragment: seq<Byte>, left: seq<Byte>)
  {
    ReadFrames(data, pos, fragment)
      == ReadFrames(data, next, left).Prepend(Some((if begin then [] else fragment) + record))
  }

  lemma CompletesAfterTrailer(
    data: seq<Byte>, pos: nat, next: nat, record: seq<Byte>, begin: bool, fragment: seq<Byte>, left: seq<Byte>)
    requires Leftover(pos) < HEADER && pos + Leftover(pos) <= |data|
    requires Completes(data, pos + Leftover(pos), next, record, begin, fragment, left)
    ensures Completes(data, pos, next, record, begin, fragment, left)
  {
    SkipTrailer(data, pos, fragment);
  }

  lemma CompletesInOnePart(
    crc: Checksum, data: seq<Byte>, pos: nat, record: seq<Byte>, begin: bool, fragment: seq<Byte>)
    requires HEADER + |record| <= Leftover(pos) && At(data, pos, Chunk(crc, Kind(begin, true), record))
    ensures Completes(data, pos, pos + HEADER + |record|, record, begin, fragment,
                      Assemble(Kind(begin, true), record, fragment).fragment)
  {
    ReadOnePart(data, pos, crc, Kind(begin, true), record, fragment);
    assert [] + record == record;
  }

  lemma CompletesInMoreParts(
    crc: Checksum, data: seq<Byte>, pos: nat, next: nat, part: seq<Byte>, later: seq<Byte>, begin: bool,
    fragment: seq<Byte>, left: seq<Byte>)
    requires HEADER + |part| <= Leftover(pos) && At(data, pos, Chunk(crc, Kind(begin, false), part))
    requires Completes(data, pos + HEADER + |part|, next, later, false,
                       Assemble(Kind(begin, false), part, fragment).fragment, left)
    ensures Completes(data, pos, next, part + later, begin, fragment, left)
  {
    ReadOnePart(data, pos, crc, Kind(begin, false), part, fragment);
    assert Assemble(Kind(begin, false), part, fragment).fragment + later
        == (if begin then [] else fragment) + (part + later);
  }

  /**
   * Reading the bytes emitted for a record completes exactly that record, whatever fragment was kept before a
   * beginning record; left is the fragment kept afterwards.
   */
  lemma {:induction false} EmitRoundTrip(
    crc: Checksum, data: seq<Byte>, pos: nat, record: seq<Byte>, begin: bool, fragment: seq<Byte>)
    returns (left: seq<Byte>)
    requires At(data, pos, EmitRecord(crc, pos, record, begin))
    ensures Completes(data, pos, pos + |EmitRecord(crc, pos, record, begin)|, record, begin, fragment, left)
    decreases |record|, if Leftover(pos) <= HEADER then 1 else 0
  {
    NextBlock(pos);
    hide At, ReadFrames, Chunk, Assemble, Completes, Leftover;
    var n := Leftover(pos);
    if n < HEADER {
      var emitted := EmitRecord(crc, pos + n, record, begin);
      AtSplit(data, pos, Zeros(n), emitted);
      AtFits(data, pos, Zeros(n));
      left := EmitRoundTrip(crc, data, pos + n, record, begin, fragment);
      CompletesAfterTrailer(data, pos, pos + n + |emitted|, record, begin, fragment, left);
    } else if |record| <= n - HEADER {
      left := Assemble(Kind(begin, true), record, fragment).fragment;
      CompletesInOnePart(crc, data, pos, record, begin, fragment);
    } else {
      var kind, part, later := Kind(begin, false), record[..n - HEADER], record[n - HEADER..];
      var emitted := EmitRecord(crc, pos + n, later, false);
      AtSplit(data, pos, Chunk(crc, kind, part), emitted);
      left := EmitRoundTrip(crc, data, pos + n, later, false, Assemble(kind, part, fragment).fragment);
      CompletesInMoreParts(crc, data, pos, pos + n + |emitted|, part, later, begin, fragment, left);
      assert part + later == record;
    }
  }

  lemma HeadAndTail(records: seq<seq<Byte>>)
    requires records != []
    ensures [] + records[0] == records[0] && [records[0]] + records[1..] == records
  {
  }

  /** Every list of records, of any size, comes back from its log exactly and in order. */
  lemma {:induction false} FramesRoundTrip(
    crc: Checksum, data: seq<Byte>, pos: nat, records: seq<seq<Byte>>, fragment: seq<Byte>)
    requires At(data, pos, EncodeLog(crc, pos, records)) && |data| == pos + |EncodeLog(crc, pos, records)|
    ensures ReadFrames(data, pos, fragment) == Frames(records, false)
    decreases |records|
  {
    if records != [] {
      var first := EmitRecord(crc, pos, records[0], true);
      AtSplit(data, pos, first, EncodeLog(crc, pos + |first|, records[1..]));
      var left := EmitRoundTrip(crc, data, pos, records[0], true, fragment);
      hide At, EmitRecord;
      FramesRoundTrip(crc, data, pos + |first|, records[1..], left);
      HeadAndTail(records);
    }
  }

  function EncodeBatches(batches: seq<Batch>): (records: seq<seq<Byte>>)
    ensures |records| == |batches|
  {
    if batches == [] then [] else [EncodeBatch(batches[0])] + EncodeBatches(batches[1..])
  }

  function AllRows(batches: seq<Batch>): (rows: seq<Row>) {
    if batches == [] then [] else RowsOf(batches[0].ops) + AllRows(batches[1..])
  }

  lemma {:induction false} CollectEncoded(batches: seq<Batch>)
    requires forall b | b in batches :: WellFormedBatch(b)
    ensures CollectRows(EncodeBatches(batches)) == Some(AllRows(batches))
  {
    if batches != [] {
      BatchRoundTrip(batches[0]);
      CollectEncoded(batches[1..]);
      assert EncodeBatches(batches)[1..] == EncodeBatches(batches[1..]);
    }
  }

  /** For every list of well-formed batches, reading the log written for them returns exactly their rows in order. */
  lemma {:induction false} LogRoundTrip(crc: Checksum, batches: seq<Batch>)
    requires forall b | b in batches :: WellFormedBatch(b)
    ensures ParseLog(EncodeLog(crc, 0, EncodeBatches(batches))) == Rows(AllRows(batches))
  {
    var data := EncodeLog(crc, 0, EncodeBatches(batches));
    AtStart(data);
    FramesRoundTrip(crc, data, 0, EncodeBatches(batches), []);
    CollectEncoded(batches);
    assert [] + AllRows(batches) == AllRows(batches);
  }

  /** Such a file exists: the log of a single record that declares a key of 2^63 bytes. */
  lemma HugeKeyLogPanics(crc: Checksum)
    ensures ParseLog(EncodeLog(crc, 0, [HugeKeyBatch()])) == Panic
  {
    var data, records := EncodeLog(crc, 0, [HugeKeyBatch()]), [HugeKeyBatch()];
    hide EncodeLog, ReadFrames, HugeKeyBatch, ParseBatch;
    AtStart(data);
    FramesRoundTrip(crc, data, 0, records, []);
    HugeKeyPanics();
    ParseLogPanicsExactly(data);
    assert ParseBatch(records[0]).Panicked?;
  }
}
