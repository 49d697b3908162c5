// Storing what a log dataset has extracted never panics: the shape checks are exactly what
// the row accessors index on.
module LogSafety {
  import opened Prelude
  import opened RpcParams
  import opened Columns
  import opened LogDatasets

  predicate NoPanic(row: Row) {
    forall e | e in row :: e.cell != Err(Panic)
  }

  lemma {:induction false} PutAllFailsWithACell(schema: Schema, cells: Cells, row: Row)
    requires NoPanic(row)
    ensures PutAll(schema, cells, row).error != Some(Panic)
    decreases |row|
  {
    if row == [] {
    } else {
      assert row[0] in row;
      var first := Put(schema, cells, row[0]);
      if first.error.None? {
        PutAllFailsWithACell(schema, first.state, row[1..]);
      }
    }
  }

  lemma PlaceCellsNoPanic(log: Log)
    requires Located(log)
    ensures NoPanic(PlaceCells(log))
  {
  }

  lemma OwnCellsPanicIff(dt: Datatype, log: Log)
    requires !dt.Other? && !dt.Logs?
    ensures NoPanic(OwnCells(dt, log)) <==>
            match dt
            case Erc721Transfers => |log.topics| > 3
            case Erc20WrapperEvents => |log.topics| > 1 && |log.data| <= 32
            case _ => |log.topics| > 2 && |log.data| <= 32
  {
    var cells := OwnCells(dt, log);
    assert cells[1] in cells && cells[2] in cells && cells[3] in cells;
  }

  lemma RawCellsNoPanic(log: Log)
    ensures NoPanic(OwnCells(Logs, log))
  {
  }

  lemma ShapedRowNoPanic(dt: Datatype, log: Log)
    requires Located(log) && ScalarShape(dt, log)
    ensures NoPanic(RowOf(dt, log))
  {
    PlaceCellsNoPanic(log);
    if dt == Logs {
      RawCellsNoPanic(log);
    } else {
      OwnCellsPanicIff(dt, log);
    }
  }

  lemma {:induction false} ProcessShapedNoPanic(dt: Datatype, s: LogSchema, f: Frame, logs: seq<Log>)
    requires DecoderFits(s) && forall log | log in logs :: ScalarShape(dt, log)
    ensures Process(dt, s, f, logs).error != Some(Panic)
    decreases |logs|
  {
    if logs == [] {
    } else {
      assert logs[0] in logs;
      ProcessLogNoPanic(dt, s, f, logs[0]);
      ProcessShapedNoPanic(dt, s, ProcessLog(dt, s, f, logs[0]).state, logs[1..]);
    }
  }

  lemma ProcessLogNoPanic(dt: Datatype, s: LogSchema, f: Frame, log: Log)
    requires DecoderFits(s) && ScalarShape(dt, log)
    ensures ProcessLog(dt, s, f, log).error != Some(Panic)
  {
    if Located(log) {
      ShapedRowNoPanic(dt, log);
      PutAllFailsWithACell(s.columns, f.cells, RowOf(dt, log));
      if dt == Logs && s.decoder.Some? && s.decoder.value.decode(log).Some? {
        DecodeNoPanic(s, f.events, s.decoder.value.decode(log).value);
      }
    }
  }

  lemma DecodeNoPanic(s: LogSchema, events: Events, values: (seq<Cell>, seq<Cell>))
    requires s.decoder.Some?
    requires |values.0| == |s.decoder.value.indexedNames| && |values.1| == |s.decoder.value.bodyNames|
    ensures DecodeInto(s.decoder.value, events, values).error.None?
  {
    var d := s.decoder.value;
    PushEventsCounts(events, d.indexedNames, values.0, "");
    PushEventsCounts(PushEvents(events, d.indexedNames, values.0).state, d.bodyNames, values.1, "");
  }

  // Whatever the node holds and whatever the parameters are, storing the logs of a dataset's
  // own by-block extraction, or of its by-transaction extraction, never panics.
  lemma ExtractThenStoreNeverPanics(dt: Datatype, p: Params, universe: seq<Mined>, receipt: seq<Log>, s: LogSchema,
                                    f: Frame)
    requires !dt.Other? && DecoderFits(s)
    ensures ScalarExtract(dt, p, universe).Ok? ==>
              Process(dt, s, f, ScalarExtract(dt, p, universe).value).error != Some(Panic)
    ensures Process(dt, s, f, ScalarTxExtract(dt, p, receipt)).error != Some(Panic)
  {
    if ScalarExtract(dt, p, universe).Ok? {
      FilterMembers(Shaped(dt), GetLogs(universe, ScalarFilter(dt, p).value));
      ProcessShapedNoPanic(dt, s, f, ScalarExtract(dt, p, universe).value);
    }
    FilterMembers(ScalarTxKept(dt, p), receipt);
    ProcessShapedNoPanic(dt, s, f, ScalarTxExtract(dt, p, receipt));
  }
}
