/** LevelDB write batches: what main.go's readVarString and parseBatch read, and the layout a writer produces. */
module WriteBatch {
  import opened Wrappers
  import opened Bytes

  // ----- Length-prefixed strings -----

  /** OutOfRange is the run-time panic of the slice expression data[pos:end] when end is below pos. */
  datatype VarString = Found(start: nat, end: nat) | BadVarint | CutShort | OutOfRange

  function ReadVarString(data: seq<Byte>, pos: nat): (r: VarString)
    requires pos <= |data|
    ensures r.Found? ==> pos < r.start <= r.end <= |data|
  {
    var prefix := DecodeUvarint(data, pos, 0);
    if prefix.None? then BadVarint
    else
      var start := pos + prefix.value.size;
      var end := ToInt64(start + ToInt64(prefix.value.value));
      if end > |data| then CutShort
      else if end < start then OutOfRange
      else Found(start, end)
  }

  function EncodeVarString(s: seq<Byte>): (e: seq<Byte>) {
    EncodeUvarint(|s|) + s
  }

  /** A length-prefixed string is read back with its exact contents, up to exactly where it ends. */
  lemma VarStringRoundTrip(data: seq<Byte>, pos: nat, s: seq<Byte>)
    requires |data| < TWO_63 && At(data, pos, EncodeVarString(s))
    ensures pos <= |data| && ReadVarString(data, pos).Found?
    ensures var r := ReadVarString(data, pos); r.end == pos + |EncodeVarString(s)| && data[r.start..r.end] == s
  {
    AtSplit(data, pos, EncodeUvarint(|s|), s);
    AtSlice(data, pos + |EncodeUvarint(|s|)|, s);
    VarintRoomIs64Bits();
    VarintRoundTrip(data, pos, 0, |s|);
  }

  /** Converting the declared length to int makes the slice expression panic exactly for lengths that leave int64. */
  lemma OutOfRangeExactly(data: seq<Byte>, pos: nat)
    requires pos <= |data| < TWO_63
    ensures ReadVarString(data, pos).OutOfRange? <==>
            var prefix := DecodeUvarint(data, pos, 0);
            prefix.Some? && prefix.value.value >= TWO_63 - (pos + prefix.value.size)
  {
    VarintRoomIs64Bits();
    var prefix := DecodeUvarint(data, pos, 0);
    if prefix.Some? {
      var start, v := pos + prefix.value.size, prefix.value.value;
      assert TWO_63 <= v ==> ToInt64(start + ToInt64(v)) == start + v - TWO_64;
    }
  }

  // ----- Batches -----

  /** One row shown by the reader; a deletion has no value. */
  datatype Row = Row(keyHex: string, value: Option<seq<Byte>>)

  datatype BatchResult = Parsed(rows: seq<Row>) | Failed(rows: seq<Row>) | Panicked

  const BATCH_HEADER := 12
  const KIND_PUT := 1
  const KIND_DELETE := 0

  /** The outcome of reading one tagged record. */
  datatype RowResult = NextRow(row: Row, next: nat) | BadRow | RowPanic

  function ReadRow(payload: seq<Byte>, pos: nat): (r: RowResult)
    requires pos < |payload|
    ensures r.NextRow? ==> pos < r.next <= |payload|
  {
    var key := ReadVarString(payload, pos + 1);
    if key.OutOfRange? then RowPanic
    else if !key.Found? then BadRow
    else
      var keyHex := HexEncode(payload[key.start..key.end]);
      if payload[pos] != KIND_PUT then NextRow(Row(keyHex, None), key.end)
      else
        var value := ReadVarString(payload, key.end);
        if value.OutOfRange? then RowPanic
        else if !value.Found? then BadRow
        else NextRow(Row(keyHex, Some(payload[value.start..value.end])), value.end)
  }

  function ParseRows(payload: seq<Byte>, pos: nat, count: nat, rows: seq<Row>): (r: BatchResult)
    requires pos <= |payload|
    decreases count
  {
    if count == 0 || pos == |payload| then Parsed(rows)
    else
      match ReadRow(payload, pos)
      case RowPanic => Panicked
      case BadRow => Failed(rows)
      case NextRow(row, next) => ParseRows(payload, next, count - 1, rows + [row])
  }

  function ParseBatch(payload: seq<Byte>): (r: BatchResult) {
    if |payload| < BATCH_HEADER then Failed([])
    else ParseRows(payload, BATCH_HEADER, DecodeLE(payload, 8, 4), [])
  }

  // ----- The writer's layout: 8-byte sequence number, 4-byte count, tagged records -----

  datatype Op = Put(key: seq<Byte>, value: seq<Byte>) | Delete(key: seq<Byte>)

  datatype Batch = Batch(sequence: nat, ops: seq<Op>)

  function EncodeOp(op: Op): (s: seq<Byte>)
    ensures |s| > 0
  {
    match op
    case Put(key, value) => [KIND_PUT] + (EncodeVarString(key) + EncodeVarString(value))
    case Delete(key) => [KIND_DELETE] + EncodeVarString(key)
  }

  function EncodeOps(ops: seq<Op>): (s: seq<Byte>) {
    if ops == [] then [] else EncodeOp(ops[0]) + EncodeOps(ops[1..])
  }

  function EncodeBatch(b: Batch): (s: seq<Byte>) {
    (EncodeLE(b.sequence, 8) + EncodeLE(|b.ops|, 4)) + EncodeOps(b.ops)
  }

  function RowOf(op: Op): (r: Row) {
    match op
    case Put(key, value) => Row(HexEncode(key), Some(value))
    case Delete(key) => Row(HexEncode(key), None)
  }

  function RowsOf(ops: seq<Op>): (rows: seq<Row>)
    ensures |rows| == |ops|
  {
    if ops == [] then [] else [RowOf(ops[0])] + RowsOf(ops[1..])
  }

  /** The count field is four bytes wide; the payload's size is an int. */
  ghost predicate WellFormedBatch(b: Batch) {
    |b.ops| < 0x1_0000_0000 && |EncodeBatch(b)| < TWO_63
  }

  lemma PutRoundTrip(payload: seq<Byte>, pos: nat, key: seq<Byte>, value: seq<Byte>)
    requires |payload| < TWO_63 && At(payload, pos, EncodeOp(Put(key, value)))
    ensures ReadRow(payload, pos) == NextRow(RowOf(Put(key, value)), pos + |EncodeOp(Put(key, value))|)
  {
    hide EncodeVarString, HexEncode, ReadVarString;
    var k, v := EncodeVarString(key), EncodeVarString(value);
    assert EncodeOp(Put(key, value))[0] == payload[pos + 0];
    AtSplit(payload, pos, [KIND_PUT], k + v);
    AtSplit(payload, pos + 1, k, v);
    hide At;
    VarStringRoundTrip(payload, pos + 1, key);
    VarStringRoundTrip(payload, pos + 1 + |k|, value);
  }

  /** A record of any other kind than a put is read as a deletion. */
  lemma OtherKindsDelete(payload: seq<Byte>, pos: nat, kind: Byte, key: seq<Byte>)
    requires |payload| < TWO_63 && At(payload, pos, [kind] + EncodeVarString(key)) && kind != 1
    ensures ReadRow(payload, pos) == NextRow(Row(HexEncode(key), None), pos + 1 + |EncodeVarString(key)|)
  {
    hide EncodeVarString, HexEncode, ReadVarString;
    assert ([kind] + EncodeVarString(key))[0] == payload[pos + 0];
    AtSplit(payload, pos, [kind], EncodeVarString(key));
    hide At;
    VarStringRoundTrip(payload, pos + 1, key);
  }

  /** Every encoded operation is read back as its row, up to exactly the next operation. */
  lemma OpRoundTrip(payload: seq<Byte>, pos: nat, op: Op)
    requires |payload| < TWO_63 && At(payload, pos, EncodeOp(op))
    ensures ReadRow(payload, pos) == NextRow(RowOf(op), pos + |EncodeOp(op)|)
  {
    match op
    case Put(key, value) => PutRoundTrip(payload, pos, key, value);
    case Delete(key) => OtherKindsDelete(payload, pos, KIND_DELETE, key);
  }

  lemma ParseOneRow(payload: seq<Byte>, pos: nat, count: nat, rows: seq<Row>, row: Row, next: nat)
    requires pos < |payload| && ReadRow(payload, pos) == NextRow(row, next) && count > 0
    ensures ParseRows(payload, pos, count, rows) == ParseRows(payload, next, count - 1, rows + [row])
  {
  }

  lemma RowsMove(rows: seq<Row>, ops: seq<Op>)
    requires ops != []
    ensures rows + [RowOf(ops[0])] + RowsOf(ops[1..]) == rows + RowsOf(ops)
  {
  }

  /** The operations that are read when count are declared. */
  function Declared(ops: seq<Op>, count: nat): (r: seq<Op>) {
    if count < |ops| then ops[..count] else ops
  }

  lemma DeclaredNext(ops: seq<Op>, count: nat)
    requires ops != [] && count > 0
    ensures var d := Declared(ops, count); d != [] && d[0] == ops[0] && d[1..] == Declared(ops[1..], count - 1)
  {
  }

  lemma {:induction false} ParseOps(payload: seq<Byte>, pos: nat, count: nat, ops: seq<Op>, rows: seq<Row>)
    requires |payload| < TWO_63 && At(payload, pos, EncodeOps(ops)) && pos + |EncodeOps(ops)| == |payload|
    ensures ParseRows(payload, pos, count, rows) == Parsed(rows + RowsOf(Declared(ops, count)))
    decreases |ops|
  {
    hide ReadRow, EncodeOp, At, RowOf;
    if ops == [] || count == 0 {
      assert rows + RowsOf(Declared(ops, count)) == rows;
    } else {
      var next := pos + |EncodeOp(ops[0])|;
      AtSplit(payload, pos, EncodeOp(ops[0]), EncodeOps(ops[1..]));
      OpRoundTrip(payload, pos, ops[0]);
      ParseOneRow(payload, pos, count, rows, RowOf(ops[0]), next);
      ParseOps(payload, next, count - 1, ops[1..], rows + [RowOf(ops[0])]);
      DeclaredNext(ops, count);
      RowsMove(rows, Declared(ops, count));
    }
  }

  lemma CountRoundTrip(payload: seq<Byte>, count: nat)
    requires count < 0x1_0000_0000 && At(payload, 8, EncodeLE(count, 4))
    ensures DecodeLE(payload, 8, 4) == count
  {
    assert Power256(4) == 0x1_0000_0000;
    LittleEndianRoundTrip(payload, 8, count, 4);
  }

  /** A batch that declares count operations, however many it holds. */
  function EncodeDeclared(sequence: nat, count: nat, ops: seq<Op>): (s: seq<Byte>) {
    (EncodeLE(sequence, 8) + EncodeLE(count, 4)) + EncodeOps(ops)
  }

  /** As many rows are read as are declared, or as there are. */
  lemma DeclaredRoundTrip(sequence: nat, count: nat, ops: seq<Op>)
    requires count < 0x1_0000_0000 && |EncodeDeclared(sequence, count, ops)| < TWO_63
    ensures ParseBatch(EncodeDeclared(sequence, count, ops)) == Parsed(RowsOf(Declared(ops, count)))
  {
    hide At, EncodeLE, EncodeOps, ParseRows, DecodeLE, Declared;
    var payload := EncodeDeclared(sequence, count, ops);
    AtStart(payload);
    AtSplit(payload, 0, EncodeLE(sequence, 8) + EncodeLE(count, 4), EncodeOps(ops));
    AtSplit(payload, 0, EncodeLE(sequence, 8), EncodeLE(count, 4));
    CountRoundTrip(payload, count);
    ParseOps(payload, BATCH_HEADER, count, ops, []);
    assert [] + RowsOf(Declared(ops, count)) == RowsOf(Declared(ops, count));
  }

  /** Parsing an encoded batch returns exactly its operations, in order: puts with their values, deletes without. */
  lemma BatchRoundTrip(b: Batch)
    requires WellFormedBatch(b)
    ensures ParseBatch(EncodeBatch(b)) == Parsed(RowsOf(b.ops))
  {
    DeclaredRoundTrip(b.sequence, |b.ops|, b.ops);
  }

  /** A record of a key that is declared to be 2^63 bytes long: it has no bytes to be sliced. */
  function HugeKey(): (record: seq<Byte>) {
    [KIND_DELETE] + EncodeUvarint(TWO_63)
  }

  lemma HugeKeyIsOutOfRange(payload: seq<Byte>, pos: nat)
    requires |payload| < TWO_63 && At(payload, pos, HugeKey())
    ensures pos < |payload| && ReadRow(payload, pos) == RowPanic
  {
    hide EncodeUvarint, DecodeUvarint, VarintRoom, ReadVarString;
    AtSplit(payload, pos, [KIND_DELETE], EncodeUvarint(TWO_63));
    hide At;
    AtFits(payload, pos, HugeKey());
    VarintRoomIs64Bits();
    VarintRoundTrip(payload, pos + 1, 0, TWO_63);
    OutOfRangeExactly(payload, pos + 1);
  }

  /** A batch with this one record. */
  function HugeKeyBatch(): (payload: seq<Byte>) {
    (EncodeLE(0, 8) + EncodeLE(1, 4)) + HugeKey()
  }

  lemma HugeKeyPanics()
    ensures ParseBatch(HugeKeyBatch()) == Panicked
  {
    VarintRoomIs64Bits();
    VarintFits(0, TWO_63);
    assert |HugeKey()| <= 11;
    hide At, EncodeLE, DecodeLE, HugeKey, ReadRow, EncodeUvarint, VarintRoom;
    var payload, sequence, count := HugeKeyBatch(), EncodeLE(0, 8), EncodeLE(1, 4);
    AtStart(payload);
    AtSplit(payload, 0, sequence + count, HugeKey());
    AtSplit(payload, 0, sequence, count);
    CountRoundTrip(payload, 1);
    HugeKeyIsOutOfRange(payload, BATCH_HEADER);
  }
}
