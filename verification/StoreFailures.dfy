// When a call that stores rows fails: exactly when a number that a selected column has to hold does
// not fit it, or something that the column cannot be without is missing.
module StoreFailures {
  import opened Prelude
  import opened RpcParams
  import opened Columns
  import opened LogDatasets
  import opened Traces
  import opened TraceColumns
  import opened Contracts
  import opened Erc1155Transfers

  // A 32-bit column that is selected holds the number.
  predicate Fits32(schema: Schema, c: Column, n: nat) {
    c in schema ==> n < 0x1_0000_0000
  }

  // ... the number there is, if any,
  predicate FitsIfAny(schema: Schema, c: Column, n: Option<nat>) {
    n.Some? ==> Fits32(schema, c, n.value)
  }

  // ... or the number that there must be.
  predicate FitsAndThere(schema: Schema, c: Column, n: Option<nat>) {
    c in schema ==> n.Some? && n.value < 0x1_0000_0000
  }

  predicate There<T>(schema: Schema, c: Column, x: Option<T>) {
    c in schema ==> x.Some?
  }

  // --- rows ---

  predicate CellStores(schema: Schema, e: Entry) {
    e.column in schema ==> e.cell.Ok?
  }

  predicate RowStores(schema: Schema, row: Row) {
    forall i | 0 <= i < |row| :: CellStores(schema, row[i])
  }

  lemma RowStoresJoin(schema: Schema, a: Row, b: Row)
    ensures RowStores(schema, a + b) <==> RowStores(schema, a) && RowStores(schema, b)
  {
    if RowStores(schema, a + b) {
      assert forall i | 0 <= i < |a| :: (a + b)[i] == a[i];
      assert forall i | 0 <= i < |b| :: (a + b)[|a| + i] == b[i];
    }
  }

  lemma RowStoresIff(schema: Schema, f: Frame, row: Row)
    ensures AddRow(schema, f, row).error.None? <==> RowStores(schema, row)
  {
    PutAllFailsIff(schema, f.cells, row);
    if forall i | 0 <= i < |row| && row[i].column in schema :: row[i].cell.Ok? {
      assert RowStores(schema, row);
    }
    if RowStores(schema, row) {
      assert forall i | 0 <= i < |row| :: CellStores(schema, row[i]);
    }
  }

  lemma {:induction false} RowsStoreIff(schema: Schema, f: Frame, rows: seq<Row>)
    ensures AddRows(schema, f, rows).error.None? <==> forall i | 0 <= i < |rows| :: RowStores(schema, rows[i])
    decreases |rows|
  {
    if rows == [] {
    } else {
      RowStoresIff(schema, f, rows[0]);
      RowsStoreIff(schema, AddRow(schema, f, rows[0]).state, rows[1..]);
      if forall i | 0 <= i < |rows| :: RowStores(schema, rows[i]) {
        assert forall i | 0 <= i < |rows[1..]| :: rows[1..][i] == rows[i + 1];
      }
      if RowStores(schema, rows[0]) && forall i | 0 <= i < |rows[1..]| :: RowStores(schema, rows[1..][i]) {
        forall i | 0 <= i < |rows|
          ensures RowStores(schema, rows[i])
        {
          assert i > 0 ==> rows[1..][i - 1] == rows[i];
        }
      }
    }
  }

  // --- traces ---

  predicate ActionFits(schema: Schema, a: Action) {
    match a
    case Call(_, _, _, gas, _, _) => Fits32(schema, ActionGas, gas)
    case Create(_, _, gas, _) => Fits32(schema, ActionGas, gas)
    case Selfdestruct(_, _, _) => true
    case Reward(_, _, _) => true
  }

  predicate ResultFits(schema: Schema, r: Option<TraceOutput>) {
    r.Some? ==> Fits32(schema, ResultGasUsed, r.value.gasUsed)
  }

  predicate PlaceFits(schema: Schema, t: Trace) {
    && Fits32(schema, Subtraces, t.subtraces) && FitsIfAny(schema, TransactionIndex, t.transactionPosition)
    && FitsAndThere(schema, BlockNumber, t.blockNumber) && There(schema, BlockHash, t.blockHash)
  }

  lemma ActionFitsIff(schema: Schema, a: Action)
    ensures RowStores(schema, ActionCells(a)) <==> ActionFits(schema, a)
  {
    assert RowStores(schema, ActionCells(a)) ==> CellStores(schema, ActionCells(a)[3]);
  }

  lemma ResultFitsIff(schema: Schema, r: Option<TraceOutput>)
    ensures RowStores(schema, ResultCells(r)) <==> ResultFits(schema, r)
  {
    assert RowStores(schema, ResultCells(r)) ==> CellStores(schema, ResultCells(r)[0]);
  }

  lemma PlaceFitsIff(schema: Schema, t: Trace)
    ensures RowStores(schema, TraceColumns.PlaceCells(t)) <==> PlaceFits(schema, t)
  {
    var row := TraceColumns.PlaceCells(t);
    assert RowStores(schema, row) ==> CellStores(schema, row[2]) && CellStores(schema, row[3]);
    assert RowStores(schema, row) ==> CellStores(schema, row[5]) && CellStores(schema, row[6]);
  }

  predicate TraceFits(schema: Schema, t: Trace) {
    ActionFits(schema, t.action) && ResultFits(schema, t.result) && PlaceFits(schema, t)
  }

  lemma TraceFitsIff(schema: Schema, t: Trace)
    ensures RowStores(schema, TraceRow(t)) <==> TraceFits(schema, t)
  {
    ActionFitsIff(schema, t.action);
    ResultFitsIff(schema, t.result);
    PlaceFitsIff(schema, t);
    RowStoresJoin(schema, ActionCells(t.action), ResultCells(t.result));
    RowStoresJoin(schema, ActionCells(t.action) + ResultCells(t.result), TraceColumns.PlaceCells(t));
  }

  // Storing traces succeeds exactly when every gas, count and position fits 32 bits and every trace
  // says its block, as far as these columns are selected.
  lemma TracesStoreIff(schema: Schema, f: Frame, traces: seq<Trace>)
    ensures AddRows(schema, f, TraceRows(traces)).error.None? <==>
            forall i | 0 <= i < |traces| :: TraceFits(schema, traces[i])
  {
    RowsStoreIff(schema, f, TraceRows(traces));
    forall i | 0 <= i < |traces|
      ensures RowStores(schema, TraceRows(traces)[i]) <==> TraceFits(schema, traces[i])
    {
      TraceFitsIff(schema, traces[i]);
    }
  }

  // --- contracts ---

  predicate ContractFits(schema: Schema, d: Deployment)
    requires IsCreation(d.trace)
  {
    && FitsAndThere(schema, BlockNumber, d.trace.blockNumber) && There(schema, BlockHash, d.trace.blockHash)
    && Fits32(schema, NInitCodeBytes, |d.trace.action.init|)
    && Fits32(schema, NCodeBytes, |d.trace.result.value.code|)
  }

  lemma CreationFitsIff(schema: Schema, d: Deployment)
    requires IsCreation(d.trace)
    ensures RowStores(schema, CreationCells(d)) <==>
            FitsAndThere(schema, BlockNumber, d.trace.blockNumber) && There(schema, BlockHash, d.trace.blockHash)
  {
    var row := CreationCells(d);
    assert RowStores(schema, row) ==> CellStores(schema, row[0]) && CellStores(schema, row[1]);
  }

  lemma CodeFitsIff(schema: Schema, d: Deployment, keccak: Bytes -> B256)
    requires IsCreation(d.trace)
    ensures RowStores(schema, CodeCells(d, keccak)) <==>
            Fits32(schema, NInitCodeBytes, |d.trace.action.init|) &&
            Fits32(schema, NCodeBytes, |d.trace.result.value.code|)
  {
    var row := CodeCells(d, keccak);
    assert RowStores(schema, row) ==> CellStores(schema, row[5]) && CellStores(schema, row[6]);
  }

  // Storing contracts succeeds exactly when every creation says its block and its codes are fewer
  // than 2^32 bytes each, as far as these columns are selected.
  lemma ContractsStoreIff(schema: Schema, f: Frame, ds: seq<Deployment>, keccak: Bytes -> B256)
    requires forall d | d in ds :: IsCreation(d.trace)
    ensures AddRows(schema, f, ContractRows(ds, keccak)).error.None? <==>
            forall i | 0 <= i < |ds| :: ContractFits(schema, ds[i])
  {
    RowsStoreIff(schema, f, ContractRows(ds, keccak));
    forall i | 0 <= i < |ds|
      ensures RowStores(schema, ContractRows(ds, keccak)[i]) <==> ContractFits(schema, ds[i])
    {
      CreationFitsIff(schema, ds[i]);
      CodeFitsIff(schema, ds[i], keccak);
      RowStoresJoin(schema, CreationCells(ds[i]), CodeCells(ds[i], keccak));
    }
  }

  // --- logs ---

  predicate LogPlaceFits(schema: Schema, log: Log)
    requires Located(log)
  {
    && Fits32(schema, BlockNumber, log.blockNumber.value)
    && Fits32(schema, TransactionIndex, log.transactionIndex.value)
    && Fits32(schema, LogIndex, log.logIndex.value)
  }

  predicate LogFits(dt: Datatype, schema: Schema, log: Log)
    requires Located(log)
  {
    LogPlaceFits(schema, log) && (dt == Logs ==> Fits32(schema, NDataBytes, |log.data|))
  }

  lemma LogPlaceFitsIff(schema: Schema, log: Log)
    requires Located(log)
    ensures RowStores(schema, LogDatasets.PlaceCells(log)) <==> LogPlaceFits(schema, log)
  {
    var row := LogDatasets.PlaceCells(log);
    assert RowStores(schema, row) ==> CellStores(schema, row[0]) && CellStores(schema, row[2]);
    assert RowStores(schema, row) ==> CellStores(schema, row[3]);
  }

  lemma OwnFitsIff(dt: Datatype, schema: Schema, log: Log)
    requires IsOf(dt, log)
    ensures RowStores(schema, OwnCells(dt, log)) <==> (dt == Logs ==> Fits32(schema, NDataBytes, |log.data|))
  {
    var row := OwnCells(dt, log);
    assert dt == Logs && RowStores(schema, row) ==> CellStores(schema, row[2]);
  }

  lemma LogFitsIff(dt: Datatype, s: LogSchema, f: Frame, log: Log)
    requires DecoderFits(s) && (Stores(dt, s, log) ==> IsOf(dt, log))
    ensures ProcessLog(dt, s, f, log).error.None? <==> (Stores(dt, s, log) ==> LogFits(dt, s.columns, log))
  {
    if Stores(dt, s, log) {
      LogPlaceFitsIff(s.columns, log);
      OwnFitsIff(dt, s.columns, log);
      RowStoresJoin(s.columns, LogDatasets.PlaceCells(log), OwnCells(dt, log));
      RowStoresIff(s.columns, f, RowOf(dt, log));
      if dt == Logs && s.decoder.Some? {
        DecodeFits(s, f, log);
      }
    }
  }

  lemma DecodeFits(s: LogSchema, f: Frame, log: Log)
    requires DecoderFits(s) && s.decoder.Some? && s.decoder.value.decode(log).Some? && Located(log)
    ensures ProcessLog(Logs, s, f, log).error.None? <==> RowStores(s.columns, RowOf(Logs, log))
  {
    var d, values := s.decoder.value, s.decoder.value.decode(log).value;
    PushEventsCounts(f.events, d.indexedNames, values.0, "");
    var indexed := PushEvents(f.events, d.indexedNames, values.0).state;
    PushEventsCounts(indexed, d.bodyNames, values.1, "");
    RowStoresIff(s.columns, f.(events := DecodeInto(d, f.events, values).state), RowOf(Logs, log));
  }

  // Storing logs of a dataset succeeds exactly when the place of every log that is stored fits 32
  // bits, and for raw logs their size, as far as these columns are selected.
  lemma {:induction false} LogsStoreIff(dt: Datatype, s: LogSchema, f: Frame, logs: seq<Log>)
    requires DecoderFits(s) && forall log | log in logs && Stores(dt, s, log) :: IsOf(dt, log)
    ensures Process(dt, s, f, logs).error.None? <==>
            forall log | log in logs && Stores(dt, s, log) :: LogFits(dt, s.columns, log)
    decreases |logs|
  {
    if logs == [] {
    } else {
      assert logs[0] in logs;
      LogFitsIff(dt, s, f, logs[0]);
      LogsStoreIff(dt, s, ProcessLog(dt, s, f, logs[0]).state, logs[1..]);
      assert logs == [logs[0]] + logs[1..];
    }
  }

  // --- ERC-1155 ---

  predicate MoveFits(schema: Schema, m: Move)
    requires IsMove(m)
  {
    LogPlaceFits(schema, m.log) && Fits32(schema, TokenIdIndex, m.index)
  }

  lemma MoveFitsIff(schema: Schema, m: Move)
    requires IsMove(m)
    ensures RowStores(schema, MovePlaceCells(m)) <==> MoveFits(schema, m)
  {
    var row := MovePlaceCells(m);
    assert RowStores(schema, row) ==> CellStores(schema, row[0]) && CellStores(schema, row[2]);
    assert RowStores(schema, row) ==> CellStores(schema, row[3]) && CellStores(schema, row[4]);
  }

  // Storing ERC-1155 transfers succeeds exactly when the place of every log that gives rows, and
  // the position of every item, fits 32 bits, as far as these columns are selected.
  lemma MovesStoreIff(schema: Schema, f: Frame, moves: seq<Move>)
    requires forall m | m in moves :: IsMove(m)
    ensures AddRows(schema, f, MoveRows(moves)).error.None? <==>
            forall i | 0 <= i < |moves| :: MoveFits(schema, moves[i])
  {
    RowsStoreIff(schema, f, MoveRows(moves));
    forall i | 0 <= i < |moves|
      ensures RowStores(schema, MoveRows(moves)[i]) <==> MoveFits(schema, moves[i])
    {
      MoveFitsIff(schema, moves[i]);
      RowStoresJoin(schema, MovePlaceCells(moves[i]), MovePartyCells(moves[i]));
    }
  }
}
