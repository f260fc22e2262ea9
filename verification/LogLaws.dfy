/** What the log reader does on arbitrary bytes, in terms of the bytes themselves. */
module LogLaws {
  import opened Wrappers
  import opened Bytes
  import opened Texts
  import opened WriteBatch
  import opened LogFormat

  // ----- Numbers -----

  /** Two-, four- and eight-byte integers stand with the low byte first. */
  lemma LittleEndianFields(data: seq<Byte>, pos: nat)
    ensures pos + 2 <= |data| ==> DecodeLE(data, pos, 2) == data[pos] as int + 0x100 * data[pos + 1] as int
    ensures pos + 4 <= |data| ==>
              DecodeLE(data, pos, 4) == DecodeLE(data, pos, 2) + 0x1_0000 * DecodeLE(data, pos + 2, 2)
    ensures pos + 8 <= |data| ==>
              DecodeLE(data, pos, 8) == DecodeLE(data, pos, 4) + 0x1_0000_0000 * DecodeLE(data, pos + 4, 4)
  {
  }

  function Power128(n: nat): (p: nat) {
    if n == 0 then 1 else 128 * Power128(n - 1)
  }

  /** The sum of the low seven bits of n bytes, the lowest group first. */
  function Groups(data: seq<Byte>, pos: nat, n: nat): (sum: nat)
    requires pos + n <= |data|
  {
    if n == 0 then 0 else Groups(data, pos, n - 1) + Power128(n - 1) * (data[pos + n - 1] % 128)
  }

  lemma {:induction false} GroupsShift(data: seq<Byte>, pos: nat, n: nat)
    requires pos + n < |data|
    ensures Groups(data, pos, n + 1) == data[pos] as int % 128 + 128 * Groups(data, pos + 1, n)
  {
    if n > 0 {
      GroupsShift(data, pos, n - 1);
      GroupsNext(data, pos, n);
      GroupsNext(data, pos + 1, n - 1);
      hide Groups;
      Distribute(Groups(data, pos + 1, n - 1), Power128(n - 1), data[pos + n] as int % 128);
    }
  }

  lemma GroupsNext(data: seq<Byte>, pos: nat, n: nat)
    requires pos + n < |data|
    ensures Groups(data, pos, n + 1) == Groups(data, pos, n) + Power128(n) * (data[pos + n] as int % 128)
  {
  }

  lemma Distribute(sum: int, power: int, group: int)
    ensures 128 * sum + (128 * power) * group == 128 * (sum + power * group)
  {
  }

  /** The bytes from pos on, as far as the n-th, are not the last of their varint. */
  predicate GoOn(data: seq<Byte>, pos: nat, n: nat) {
    pos + n <= |data| && forall j | pos <= j < pos + n :: data[j] >= 128
  }

  lemma LowBits(b: Byte)
    ensures b as int % 128 == if b < 128 then b as int else b as int - 128
  {
  }

  /** A varint ends at its first byte below 128, and its value is the sum of its groups. */
  lemma {:induction false} VarintIsBase128(data: seq<Byte>, pos: nat, i: nat)
    requires i <= 9
    ensures var r := DecodeUvarint(data, pos, i);
            r.Some? ==>
              GoOn(data, pos, r.value.size - 1) && pos + r.value.size <= |data| &&
              data[pos + r.value.size - 1] < 128 && r.value.value == Groups(data, pos, r.value.size)
    decreases 9 - i
  {
    var r := DecodeUvarint(data, pos, i);
    if r.Some? {
      GroupsShift(data, pos, r.value.size - 1);
      LowBits(data[pos]);
      assert Groups(data, pos + 1, 0) == 0;
      hide Groups, VarintRoom;
      if data[pos] >= 128 {
        VarintIsBase128(data, pos + 1, i + 1);
      }
    }
  }

  // ----- Record headers -----

  /** A header is read where seven bytes fit into the block of 32768 and are not those of a zero record. */
  lemma HeaderExactly(data: seq<Byte>, offset: nat)
    ensures HeaderAt(data, offset) <==>
            offset + 7 <= |data| && offset % 32768 <= 32761 &&
            !(data[offset + 4] == 0 && data[offset + 5] == 0 && data[offset + 6] == 0)
  {
    if offset + 7 <= |data| {
      LittleEndianFields(data, offset + 4);
    }
  }

  /** The record's bytes follow its header; the next one is looked for after them, but not beyond the block. */
  lemma RecordAtHeader(data: seq<Byte>, offset: nat)
    requires HeaderAt(data, offset)
    ensures var length := data[offset + 4] as int + 256 * data[offset + 5] as int;
            (Overruns(data, offset) <==> offset + 7 + length > |data|) &&
            (!Overruns(data, offset) ==>
              Payload(data, offset) == data[offset + 7..offset + 7 + length] &&
              var blockEnd := offset - offset % 32768 + 32768;
              Advance(data, offset) == if offset + 7 + length <= blockEnd then offset + 7 + length else blockEnd)
  {
    LittleEndianFields(data, offset + 4);
  }

  /** Elsewhere the rest of the block is skipped. */
  lemma NoHeaderSkipsBlock(data: seq<Byte>, offset: nat)
    requires offset < |data| && !HeaderAt(data, offset)
    ensures var blockEnd := offset - offset % 32768 + 32768;
            Advance(data, offset) == if blockEnd <= |data| then blockEnd else |data|
  {
  }

  // ----- Reassembly -----

  datatype Piece = Piece(kind: Byte, payload: seq<Byte>)

  /** The records read from offset on. */
  function PiecesFrom(data: seq<Byte>, offset: nat): (pieces: seq<Piece>)
    decreases |data| - offset
  {
    if offset >= |data| then []
    else if !HeaderAt(data, offset) then PiecesFrom(data, Advance(data, offset))
    else if Overruns(data, offset) then []
    else [Piece(data[offset + 6], Payload(data, offset))] + PiecesFrom(data, Advance(data, offset))
  }

  /**
   * What is kept of the pieces: those since the last of kind 2, joined by those of kind 3. Pieces of kind 1 leave it
   * alone, all others drop it.
   */
  function Kept(fragment: seq<Byte>, pieces: seq<Piece>): (r: seq<Byte>) {
    if pieces == [] then fragment
    else
      var n := |pieces| - 1;
      var last := pieces[n];
      if last.kind == 1 then Kept(fragment, pieces[..n])
      else if last.kind == 2 then last.payload
      else if last.kind == 3 then Kept(fragment, pieces[..n]) + last.payload
      else []
  }

  /** A piece of kind 1 is a record of its own, one of kind 4 completes what is kept. */
  function Completed(fragment: seq<Byte>, pieces: seq<Piece>): (records: seq<seq<Byte>>) {
    if pieces == [] then []
    else
      var n := |pieces| - 1;
      var last, before := pieces[n], Completed(fragment, pieces[..n]);
      if last.kind == 1 then before + [last.payload]
      else if last.kind == 4 then before + [Kept(fragment, pieces[..n]) + last.payload]
      else before
  }

  lemma {:induction false} FirstPiece(fragment: seq<Byte>, first: Piece, rest: seq<Piece>)
    ensures var a := Assemble(first.kind, first.payload, fragment);
            Kept(fragment, [first] + rest) == Kept(a.fragment, rest) &&
            Completed(fragment, [first] + rest)
              == (if a.complete.Some? then [a.complete.value] else []) + Completed(a.fragment, rest)
  {
    if rest == [] {
      assert [first] + rest == [first];
    } else {
      var n := |rest| - 1;
      FirstPiece(fragment, first, rest[..n]);
      assert ([first] + rest)[..n + 1] == [first] + rest[..n];
    }
  }

  /** On arbitrary bytes the reader completes exactly these records. */
  lemma {:induction false} ReaderCompletes(data: seq<Byte>, offset: nat, fragment: seq<Byte>)
    ensures ReadFrames(data, offset, fragment).records == Completed(fragment, PiecesFrom(data, offset))
    decreases |data| - offset
  {
    if offset < |data| && !(HeaderAt(data, offset) && Overruns(data, offset)) {
      var next := Advance(data, offset);
      if HeaderAt(data, offset) {
        var piece := Piece(data[offset + 6], Payload(data, offset));
        hide Assemble;
        ReaderCompletes(data, next, Assemble(piece.kind, piece.payload, fragment).fragment);
        FirstPiece(fragment, piece, PiecesFrom(data, next));
      } else {
        ReaderCompletes(data, next, fragment);
      }
    }
  }

  // ----- Rows -----

  /** A row that is read shows bytes of the payload as its key, and has a value exactly for records of kind 1. */
  lemma RowShowsPayload(payload: seq<Byte>, pos: nat)
    requires pos < |payload| && ReadRow(payload, pos).NextRow?
    ensures var r := ReadRow(payload, pos);
            (r.row.value.Some? <==> payload[pos] == 1) &&
            exists i, j | pos + 1 < i <= j <= r.next :: ReadHex(r.row.keyHex) == Some(payload[i..j])
  {
    var key := ReadVarString(payload, pos + 1);
    HexReadsBack(payload[key.start..key.end]);
    assert key.end <= ReadRow(payload, pos).next;
  }

  function AllOps(batches: seq<Batch>): (ops: seq<Op>) {
    if batches == [] then [] else batches[0].ops + AllOps(batches[1..])
  }

  /** The row spells the operation's key and has its value, if it is a put. */
  predicate Spells(row: Row, op: Op) {
    ReadHex(row.keyHex) == Some(op.key) && row.value == if op.Put? then Some(op.value) else None
  }

  lemma {:induction false} RowsSpell(ops: seq<Op>)
    ensures forall i | 0 <= i < |ops| :: Spells(RowsOf(ops)[i], ops[i])
  {
    if ops != [] {
      RowsSpell(ops[1..]);
      HexReadsBack(ops[0].key);
      assert forall i | 0 < i < |ops| :: RowsOf(ops)[i] == RowsOf(ops[1..])[i - 1];
    }
  }

  lemma {:induction false} AllRowsSpell(batches: seq<Batch>)
    ensures |AllRows(batches)| == |AllOps(batches)|
    ensures forall i | 0 <= i < |AllOps(batches)| :: Spells(AllRows(batches)[i], AllOps(batches)[i])
  {
    if batches != [] {
      hide Spells;
      RowsSpell(batches[0].ops);
      AllRowsSpell(batches[1..]);
    }
  }

  /** The rows read from the log of some batches spell their operations, one by one and in order. */
  lemma LogSpellsOps(crc: Checksum, batches: seq<Batch>)
    requires forall b | b in batches :: WellFormedBatch(b)
    ensures var r, ops := ParseLog(EncodeLog(crc, 0, EncodeBatches(batches))), AllOps(batches);
            r.Rows? && |r.rows| == |ops| && forall i | 0 <= i < |ops| :: Spells(r.rows[i], ops[i])
  {
    LogRoundTrip(crc, batches);
    AllRowsSpell(batches);
  }

  /** The records that parse or panic. */
  function WithoutFailed(records: seq<seq<Byte>>): (r: seq<seq<Byte>>) {
    if records == [] then []
    else (if ParseBatch(records[0]).Failed? then [] else [records[0]]) + WithoutFailed(records[1..])
  }

  lemma {:induction false} FailedCollectNothing(records: seq<seq<Byte>>)
    ensures CollectRows(records) == CollectRows(WithoutFailed(records))
  {
    if records != [] {
      hide ParseBatch;
      FailedCollectNothing(records[1..]);
      var tail := WithoutFailed(records[1..]);
      assert ([records[0]] + tail)[1..] == tail && [] + tail == tail;
      assert CollectRows(tail).Some? ==> [] + CollectRows(tail).value == CollectRows(tail).value;
    }
  }

  /** Batches that fail to parse add nothing, not even the rows read before the failure. */
  lemma FailedBatchesAreDropped(crc: Checksum, records: seq<seq<Byte>>)
    ensures ParseLog(EncodeLog(crc, 0, records)) == ParseLog(EncodeLog(crc, 0, WithoutFailed(records)))
  {
    var all, good := EncodeLog(crc, 0, records), EncodeLog(crc, 0, WithoutFailed(records));
    AtStart(all);
    AtStart(good);
    FramesRoundTrip(crc, all, 0, records, []);
    FramesRoundTrip(crc, good, 0, WithoutFailed(records), []);
    FailedCollectNothing(records);
  }

  /** The rows of the records that parse, one record after the other. */
  function ParsedRows(records: seq<seq<Byte>>): (rows: seq<Row>) {
    if records == [] then []
    else
      var first := ParseBatch(records[0]);
      (if first.Parsed? then first.rows else []) + ParsedRows(records[1..])
  }

  lemma {:induction false} CollectsParsedRows(records: seq<seq<Byte>>)
    requires !SomePanics(records)
    ensures CollectRows(records) == Some(ParsedRows(records))
  {
    if records != [] {
      hide ParseBatch;
      assert forall i | 0 <= i < |records| - 1 :: records[1..][i] == records[i + 1];
      CollectsParsedRows(records[1..]);
    }
  }

  /**
   * The outcome on any bytes at all: a panic when one of the completed records panics, otherwise an error when a
   * reached header overruns the file, otherwise the rows of the completed records that parse.
   */
  lemma ParseLogExactly(data: seq<Byte>)
    ensures var records := Completed([], PiecesFrom(data, 0));
            ParseLog(data)
              == if SomePanics(records) then Panic
                 else if exists o: nat :: Reaches(data, 0, o) && HeaderAt(data, o) && Overruns(data, o)
                 then LogResult.UnexpectedEOF
                 else Rows(ParsedRows(records))
  {
    hide ReadFrames, CollectRows, SomePanics, HeaderAt, Reaches, ParsedRows, Completed, PiecesFrom;
    var records := ReadFrames(data, 0, []).records;
    ReaderCompletes(data, 0, []);
    TruncatedExactly(data, 0, []);
    CollectPanicsExactly(records);
    if !SomePanics(records) {
      CollectsParsedRows(records);
      assert [] + ParsedRows(records) == ParsedRows(records);
    }
  }
}
