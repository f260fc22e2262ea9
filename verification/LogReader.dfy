/**
 * main.go's LevelDB log reader in its imperative form. Row values are slices into the payload or fragment they were
 * parsed from, and the fragment's backing array is reused by later FIRST records.
 */
module LogReader {
  import opened Wrappers
  import opened Bytes
  import opened GoSlices
  import opened WriteBatch
  import opened LogFormat

  /** A batchRow: the key as text, the value as a slice of the parsed record, or nil for a deletion. */
  datatype HeapRow = HeapRow(keyHex: string, value: Option<Slice<Byte>>)

  ghost function ArraysOf(rows: seq<HeapRow>): (arrays: set<array<Byte>>) {
    set r | r in rows && r.value.Some? :: r.value.value.arr
  }

  /** The row as it reads in the current heap. */
  ghost predicate Shows(r: HeapRow, row: Row)
    reads if r.value.Some? then {r.value.value.arr} else {}
  {
    r.keyHex == row.keyHex && r.value.Some? == row.value.Some? &&
    (r.value.Some? ==> r.value.value.Valid() && r.value.value.Contents() == row.value.value)
  }

  ghost predicate AllShow(rows: seq<HeapRow>, spec: seq<Row>)
    reads ArraysOf(rows)
  {
    |rows| == |spec| && forall i | 0 <= i < |rows| :: Shows(rows[i], spec[i])
  }

  lemma AllShowAppend(rows: seq<HeapRow>, spec: seq<Row>, moreRows: seq<HeapRow>, moreSpec: seq<Row>)
    requires AllShow(rows, spec) && AllShow(moreRows, moreSpec)
    ensures AllShow(rows + moreRows, spec + moreSpec)
    ensures ArraysOf(rows + moreRows) == ArraysOf(rows) + ArraysOf(moreRows)
  {
    forall r | r in rows + moreRows && r.value.Some? ensures r.value.value.arr in ArraysOf(rows) + ArraysOf(moreRows) {
      assert r in rows || r in moreRows;
    }
  }

  lemma NothingShows()
    ensures AllShow([], [])
  {
  }

  datatype Outcome = Ok | Error | Panicking

  method ReadVarStringAt(data: Slice<Byte>, pos: nat) returns (r: VarString, s: Slice<Byte>)
    requires data.Valid() && pos <= data.len
    ensures r == ReadVarString(data.Contents(), pos)
    ensures s.Valid() && s.arr == data.arr
    ensures r.Found? ==> s.Contents() == data.Contents()[r.start..r.end]
  {
    r, s := ReadVarString(data.Contents(), pos), data;
    if r.Found? {
      s := Slice(data.arr, data.off + r.start, r.end - r.start, data.cap - r.start);
      SubSlice(data, r.start, r.end);
    }
  }

  lemma SubSlice(data: Slice<Byte>, i: nat, j: nat)
    requires data.Valid() && i <= j <= data.len
    ensures Slice(data.arr, data.off + i, j - i, data.cap - i).Contents() == data.Contents()[i..j]
  {
    var s, t := data.Contents(), Slice(data.arr, data.off + i, j - i, data.cap - i).Contents();
    assert forall k | 0 <= k < |t| :: t[k] == data.arr[data.off + i + k] == s[i + k];
    IsPart(s, t, i);
  }

  lemma IsPart(s: seq<Byte>, t: seq<Byte>, i: nat)
    requires i + |t| <= |s| && forall k | 0 <= k < |t| :: t[k] == s[i + k]
    ensures t == s[i..i + |t|]
  {
  }

  /** One iteration of the batch loop: the row at pos, and where the next one starts. */
  method ReadRowAt(payload: Slice<Byte>, pos: nat) returns (row: HeapRow, next: nat, outcome: Outcome)
    requires payload.Valid() && pos < payload.len
    ensures ArraysOf([row]) <= {payload.arr}
    ensures match ReadRow(payload.Contents(), pos)
            case NextRow(spec, end) => outcome == Ok && next == end && Shows(row, spec)
            case BadRow => outcome == Error
            case RowPanic => outcome == Panicking
  {
    hide ReadVarString, HexEncode;
    row, next := HeapRow("", None), pos;
    var kind := payload.arr[payload.off + pos];
    var key, keyBytes := ReadVarStringAt(payload, pos + 1);
    if !key.Found? {
      outcome := if key.OutOfRange? then Panicking else Error;
      return;
    }
    next := key.end;
    var value: Option<Slice<Byte>> := None;
    if kind == KIND_PUT {
      var found, valueBytes := ReadVarStringAt(payload, next);
      if !found.Found? {
        outcome := if found.OutOfRange? then Panicking else Error;
        return;
      }
      value, next := Some(valueBytes), found.end;
    }
    row, outcome := HeapRow(HexEncode(keyBytes.Contents()), value), Ok;
  }

  method ParseBatchRows(payload: Slice<Byte>) returns (rows: seq<HeapRow>, outcome: Outcome)
    requires payload.Valid()
    ensures ArraysOf(rows) <= {payload.arr}
    ensures match ParseBatch(payload.Contents())
            case Parsed(spec) => outcome == Ok && AllShow(rows, spec)
            case Failed(spec) => outcome == Error && AllShow(rows, spec)
            case Panicked => outcome == Panicking
  {
    hide DecodeLE, ReadRow;
    rows := [];
    if payload.len < BATCH_HEADER {
      return rows, Error;
    }
    ghost var bytes := payload.Contents();
    ghost var spec := [];
    var count := DecodeLE(payload.Contents(), 8, 4);
    var pos := BATCH_HEADER;
    var i := 0;
    while i < count && pos < payload.len
      invariant BATCH_HEADER <= pos <= payload.len && 0 <= i <= count
      invariant ParseRows(bytes, pos, count - i, spec) == ParseBatch(bytes)
      invariant AllShow(rows, spec) && ArraysOf(rows) <= {payload.arr}
      decreases count - i
    {
      var row, next, read := ReadRowAt(payload, pos);
      if read != Ok {
        return rows, read;
      }
      AllShowAppend(rows, spec, [row], [ReadRow(bytes, pos).row]);
      spec := spec + [ReadRow(bytes, pos).row];
      rows, pos, i := rows + [row], next, i + 1;
    }
    outcome := Ok;
  }

  /** The switch over the record kinds. */
  method TakeRecord(kind: Byte, payload: Slice<Byte>, fragment: Slice<Byte>)
    returns (batch: seq<HeapRow>, kept: Slice<Byte>, outcome: Outcome)
    requires payload.Valid() && fragment.Valid() && payload.arr != fragment.arr
    modifies fragment.arr
    ensures kept.Valid() && (kept.arr == fragment.arr || fresh(kept.arr)) && kept.arr !in ArraysOf(batch)
    ensures var a := old(Assemble(kind, payload.Contents(), fragment.Contents()));
            kept.Contents() == a.fragment &&
            match RowsFrom(a.complete)
            case None => outcome == Panicking
            case Some(spec) => outcome != Panicking && AllShow(batch, spec)
  {
    ghost var a := Assemble(kind, payload.Contents(), fragment.Contents());
    batch, kept, outcome := [], fragment, Ok;
    if kind == FULL {
      batch, outcome := ParseBatchRows(payload);
    } else if kind == FIRST {
      kept := Append(fragment.(len := 0), payload.Contents());
      assert [] + payload.Contents() == payload.Contents();
    } else if kind == MIDDLE {
      kept := Append(fragment, payload.Contents());
    } else if kind == LAST {
      var whole := Append(fragment, payload.Contents());
      batch, outcome := ParseBatchRows(whole);
      kept := NilSlice();
    } else {
      kept := NilSlice();
    }
    if outcome == Error {
      batch := [];
    }
  }

  /**
   * The rows returned still show, in the heap the reader leaves behind, exactly what the log format prescribes: no
   * later record has changed the bytes an earlier row's value refers to.
   */
  method ParseLevelDBLog(data: seq<Byte>) returns (rows: seq<HeapRow>, outcome: Outcome)
    ensures match ParseLog(data)
            case Rows(spec) => outcome == Ok && AllShow(rows, spec)
            case UnexpectedEOF => outcome == Error
            case Panic => outcome == Panicking
  {
    hide ReadOn, AllShow, Assemble, RowsFrom, DecodeLE;
    NothingShows();
    var offset := 0;
    var fragment := NilSlice<Byte>();
    rows := [];
    ghost var spec: seq<Row> := [];
    while offset < |data|
      invariant 0 <= offset <= |data|
      invariant fragment.Valid() && fresh(fragment.arr) && fragment.arr !in ArraysOf(rows)
      invariant AllShow(rows, spec)
      invariant ReadOn(data, offset, fragment.Contents(), spec) == ParseLog(data)
      decreases |data| - offset
    {
      ghost var blockStart := offset;
      var blockEnd := BlockEnd(data, offset);
      while offset + HEADER <= blockEnd
        invariant blockStart <= offset && blockEnd == BlockEnd(data, blockStart) <= |data|
        invariant fragment.Valid() && fresh(fragment.arr) && fragment.arr !in ArraysOf(rows)
        invariant AllShow(rows, spec)
        invariant ReadOn(data, Min(offset, blockEnd), fragment.Contents(), spec) == ParseLog(data)
        decreases |data| - offset
      {
        assert BlockEnd(data, offset) == blockEnd;
        var length := Length(data, offset);
        var kind := data[offset + 6];
        ghost var header := offset;
        offset := offset + HEADER;
        if length == 0 && kind == 0 {
          ReadOnSkips(data, header, fragment.Contents(), spec);
          offset := blockEnd;
          break;
        }
        if offset + length > |data| {
          ReadOnEnds(data, header, fragment.Contents(), spec);
          return rows, Error;
        }
        ReadOnRecord(data, header, fragment.Contents(), spec);
        ghost var a := Assemble(kind, Payload(data, header), fragment.Contents());
        var payload := MakeSlice(data[offset..offset + length]);
        offset := offset + length;
        var batch, kept, taken := TakeRecord(kind, payload, fragment);
        if taken == Panicking {
          return rows, Panicking;
        }
        AllShowAppend(rows, spec, batch, RowsFrom(a.complete).value);
        rows, fragment := rows + batch, kept;
        spec := spec + RowsFrom(a.complete).value;
      }
      if offset < blockEnd {
        assert BlockEnd(data, offset) == blockEnd;
        ReadOnSkips(data, offset, fragment.Contents(), spec);
      }
      offset := blockEnd;
    }
    ReadOnEnds(data, offset, fragment.Contents(), spec);
    outcome := Ok;
  }
}
