// The traces table: one row a trace, the same twenty columns for every kind of action.
module TraceColumns {
  import opened Prelude
  import opened RpcParams
  import opened Columns
  import opened TraceAddress
  import opened Traces

  const NULL_CELL: Result<Cell> := Ok(Null)

  function ActionCells(a: Action): Row {
    match a
    case Call(from, to, value, gas, input, callType) =>
      [Entry(ActionFrom, Ok(Num(from))), Entry(ActionTo, Ok(Num(to))), Entry(ActionValue, Ok(Text(Decimal(value)))),
       Entry(ActionGas, NumCell(ToU32(gas))), Entry(ActionInput, Ok(Bin(input))),
       Entry(ActionCallType, Ok(Text(callType))), Entry(ActionInit, NULL_CELL), Entry(ActionRewardType, NULL_CELL)]
    case Create(from, value, gas, init) =>
      [Entry(ActionFrom, Ok(Num(from))), Entry(ActionTo, NULL_CELL), Entry(ActionValue, Ok(Text(Decimal(value)))),
       Entry(ActionGas, NumCell(ToU32(gas))), Entry(ActionInput, NULL_CELL), Entry(ActionCallType, NULL_CELL),
       Entry(ActionInit, Ok(Bin(init))), Entry(ActionRewardType, NULL_CELL)]
    case Selfdestruct(address, balance, refundAddress) =>
      [Entry(ActionFrom, Ok(Num(address))), Entry(ActionTo, Ok(Num(refundAddress))),
       Entry(ActionValue, Ok(Text(Decimal(balance)))), Entry(ActionGas, NULL_CELL), Entry(ActionInput, NULL_CELL),
       Entry(ActionCallType, NULL_CELL), Entry(ActionInit, NULL_CELL), Entry(ActionRewardType, NULL_CELL)]
    case Reward(author, value, rewardType) =>
      [Entry(ActionFrom, Ok(Num(author))), Entry(ActionTo, NULL_CELL), Entry(ActionValue, Ok(Text(Decimal(value)))),
       Entry(ActionGas, NULL_CELL), Entry(ActionInput, NULL_CELL), Entry(ActionCallType, NULL_CELL),
       Entry(ActionInit, NULL_CELL), Entry(ActionRewardType, Ok(Text(rewardType)))]
  }

  function ResultCells(r: Option<TraceOutput>): Row {
    match r
    case Some(CallOutput(gasUsed, output)) =>
      [Entry(ResultGasUsed, NumCell(ToU32(gasUsed))), Entry(ResultOutput, Ok(Bin(output))),
       Entry(ResultCode, NULL_CELL), Entry(ResultAddress, NULL_CELL)]
    case Some(CreateOutput(gasUsed, code, address)) =>
      [Entry(ResultGasUsed, NumCell(ToU32(gasUsed))), Entry(ResultOutput, NULL_CELL),
       Entry(ResultCode, Ok(Bin(code))), Entry(ResultAddress, Ok(Num(address)))]
    case None =>
      [Entry(ResultGasUsed, NULL_CELL), Entry(ResultOutput, NULL_CELL), Entry(ResultCode, NULL_CELL),
       Entry(ResultAddress, NULL_CELL)]
  }

  function ActionTypeText(a: Action): string {
    match a
    case Call(_, _, _, _, _, _) => "call"
    case Create(_, _, _, _) => "create"
    case Reward(_, _, _) => "reward"
    case Selfdestruct(_, _, _) => "suicide"
  }

  function PositionCell(n: Option<nat>): Result<Cell> {
    if n.Some? then NumCell(ToU32(n.value)) else NULL_CELL
  }

  function UnwrapCell(n: Option<nat>): Result<Cell> {
    if n.Some? then Ok(Num(n.value)) else Err(Panic)
  }

  function PlaceCells(t: Trace): Row {
    [Entry(ActionType, Ok(Text(ActionTypeText(t.action)))),
     Entry(TraceAddress, Ok(Text(Format(t.path, '_')))),
     Entry(Subtraces, NumCell(ToU32(t.subtraces))),
     Entry(TransactionIndex, PositionCell(t.transactionPosition)),
     Entry(TransactionHash, OptNumCell(t.transactionHash)),
     Entry(BlockNumber, UnwrapU32Cell(t.blockNumber)),
     Entry(BlockHash, UnwrapCell(t.blockHash)),
     Entry(ErrorText, Ok(if t.error.Some? then Text(t.error.value) else Null))]
  }

  function TraceRow(t: Trace): Row {
    ActionCells(t.action) + ResultCells(t.result) + PlaceCells(t)
  }

  function TraceRows(traces: seq<Trace>): (rows: seq<Row>)
    ensures |rows| == |traces| && forall i | 0 <= i < |rows| :: rows[i] == TraceRow(traces[i])
  {
    seq(|traces|, i requires 0 <= i < |traces| => TraceRow(traces[i]))
  }

  method ProcessTraces(traces: seq<Trace>, table: Table, schema: Schema) returns (error: Option<Error>)
    modifies table
    ensures Outcome(table.View(), error) == AddRows(schema, old(table.View()), TraceRows(traces))
  {
    error := None;
    ghost var rows := TraceRows(traces);
    for i := 0 to |traces|
      invariant error.None?
      invariant AddRows(schema, table.View(), rows[i..]) == AddRows(schema, old(table.View()), rows)
    {
      AddRowsFrom(schema, table.View(), rows, i);
      error := table.PushRow(schema, TraceRow(traces[i]));
      if error.Some? {
        return;
      }
    }
  }

  // --- alignment ---

  const ACTION_NAMES: seq<Column> :=
    [ActionFrom, ActionTo, ActionValue, ActionGas, ActionInput, ActionCallType, ActionInit, ActionRewardType]
  const RESULT_NAMES: seq<Column> := [ResultGasUsed, ResultOutput, ResultCode, ResultAddress]
  const PLACE_NAMES: seq<Column> :=
    [ActionType, TraceAddress, Subtraces, TransactionIndex, TransactionHash, BlockNumber, BlockHash, ErrorText]
  const TRACE_NAMES: seq<Column> := ACTION_NAMES + RESULT_NAMES + PLACE_NAMES

  // The columns that a trace is put together from: all of them.
  const TRACE_COLUMNS: set<Column> :=
    {ActionFrom, ActionTo, ActionValue, ActionGas, ActionInput, ActionCallType, ActionInit, ActionRewardType,
     ResultGasUsed, ResultOutput, ResultCode, ResultAddress,
     ActionType, TraceAddress, Subtraces, TransactionIndex, TransactionHash, BlockNumber, BlockHash, ErrorText}

  lemma ActionNames(a: Action)
    ensures Names(ActionCells(a), ACTION_NAMES)
  {
  }

  lemma ResultNames(r: Option<TraceOutput>)
    ensures Names(ResultCells(r), RESULT_NAMES)
  {
  }

  lemma PlaceNames(t: Trace)
    ensures Names(PlaceCells(t), PLACE_NAMES)
  {
  }

  lemma ActionDistinct()
    ensures Unique(ACTION_NAMES)
  {
  }

  lemma PlaceDistinct()
    ensures Unique(PLACE_NAMES)
  {
  }

  lemma TraceNames(t: Trace)
    ensures Names(TraceRow(t), TRACE_NAMES)
  {
    ActionNames(t.action);
    ResultNames(t.result);
    PlaceNames(t);
    NamesJoin(ActionCells(t.action), ACTION_NAMES, ResultCells(t.result), RESULT_NAMES);
    NamesJoin(ActionCells(t.action) + ResultCells(t.result), ACTION_NAMES + RESULT_NAMES, PlaceCells(t), PLACE_NAMES);
  }

  lemma TraceNamesDistinct()
    ensures Unique(TRACE_NAMES)
  {
    ActionDistinct();
    PlaceDistinct();
    UniqueJoinIff(ACTION_NAMES, RESULT_NAMES);
    UniqueJoinIff(ACTION_NAMES + RESULT_NAMES, PLACE_NAMES);
  }

  // Whatever the mixture of actions and results, after a successful call every selected
  // column has one cell a trace, in order, and no other column has any.
  lemma TracesKeepColumnsAligned(traces: seq<Trace>, schema: Schema, f: Frame)
    requires Aligned(schema, TRACE_NAMES, f)
    requires AddRows(schema, f, TraceRows(traces)).error.None?
    ensures var g := AddRows(schema, f, TraceRows(traces)).state;
            Aligned(schema, TRACE_NAMES, g) && g.nRows == f.nRows + |traces|
    ensures forall c | c in schema ::
              Col(AddRows(schema, f, TraceRows(traces)).state.cells, c) ==
              Col(f.cells, c) + ColumnOf(TraceRows(traces), c)
  {
    TraceNamesDistinct();
    forall r | r in TraceRows(traces)
      ensures Names(r, TRACE_NAMES)
    {
      var i :| 0 <= i < |traces| && r == TraceRow(traces[i]);
      TraceNames(traces[i]);
    }
    RowsTranspose(schema, TRACE_NAMES, f, TraceRows(traces));
  }

  // --- a row holds its whole trace ---

  function RebuildAction(read: Reader): Action {
    var value := ReadComponent(TextAt(read, ActionValue));
    match KindOf(TextAt(read, ActionType))
    case 0 =>
      Call(NumAt(read, ActionFrom), NumAt(read, ActionTo), value, NumAt(read, ActionGas), BinAt(read, ActionInput),
           TextAt(read, ActionCallType))
    case 1 => Create(NumAt(read, ActionFrom), value, NumAt(read, ActionGas), BinAt(read, ActionInit))
    case 2 => Reward(NumAt(read, ActionFrom), value, TextAt(read, ActionRewardType))
    case _ => Selfdestruct(NumAt(read, ActionFrom), value, NumAt(read, ActionTo))
  }

  function KindOf(text: string): nat {
    if text == "call" then 0 else if text == "create" then 1 else if text == "reward" then 2 else 3
  }

  lemma KindOfText(a: Action)
    ensures KindOf(ActionTypeText(a)) == if a.Call? then 0 else if a.Create? then 1 else if a.Reward? then 2 else 3
  {
    assert |"call"| == 4 && |"create"| == 6 && |"reward"| == 6 && |"suicide"| == 7 && "create"[0] != "reward"[0];
  }

  function RebuildResult(read: Reader): Option<TraceOutput> {
    if OptNumAt(read, ResultGasUsed).None? then None
    else if OptNumAt(read, ResultAddress).Some?
    then Some(CreateOutput(NumAt(read, ResultGasUsed), BinAt(read, ResultCode), NumAt(read, ResultAddress)))
    else Some(CallOutput(NumAt(read, ResultGasUsed), BinAt(read, ResultOutput)))
  }

  function RebuildTrace(read: Reader): Trace {
    Trace(RebuildAction(read), RebuildResult(read), OptTextAt(read, ErrorText), Parse(TextAt(read, TraceAddress), '_'),
          NumAt(read, Subtraces), OptNumAt(read, TransactionIndex), OptNumAt(read, TransactionHash),
          OptNumAt(read, BlockNumber), OptNumAt(read, BlockHash))
  }

  lemma ActionSaid(schema: Schema, read: Reader, cells: Row)
    requires Says(schema, read, ACTION_NAMES, cells) && TRACE_COLUMNS <= schema
    ensures |cells| == 8 && forall k | 0 <= k < 8 :: cells[k].cell.Ok?
    ensures read(ActionFrom) == cells[0].cell && read(ActionTo) == cells[1].cell && read(ActionValue) == cells[2].cell
    ensures read(ActionGas) == cells[3].cell && read(ActionInput) == cells[4].cell
    ensures read(ActionCallType) == cells[5].cell && read(ActionInit) == cells[6].cell
    ensures read(ActionRewardType) == cells[7].cell
  {
    var names := ACTION_NAMES;
    assert SaysAt(schema, read, names[0], cells[0].cell) && SaysAt(schema, read, names[1], cells[1].cell);
    assert SaysAt(schema, read, names[2], cells[2].cell) && SaysAt(schema, read, names[3], cells[3].cell);
    assert SaysAt(schema, read, names[4], cells[4].cell) && SaysAt(schema, read, names[5], cells[5].cell);
    assert SaysAt(schema, read, names[6], cells[6].cell) && SaysAt(schema, read, names[7], cells[7].cell);
  }

  lemma ActionHeld(schema: Schema, read: Reader, a: Action)
    requires Says(schema, read, ACTION_NAMES, ActionCells(a)) && TRACE_COLUMNS <= schema
    requires read(ActionType) == Ok(Text(ActionTypeText(a)))
    ensures RebuildAction(read) == a
  {
    ActionSaid(schema, read, ActionCells(a));
    assert ActionCells(a)[3].cell.Ok?;
    KindOfText(a);
    ReadDecimalText(if a.Selfdestruct? then a.balance else a.value);
  }

  lemma ResultHeld(schema: Schema, read: Reader, r: Option<TraceOutput>)
    requires Says(schema, read, RESULT_NAMES, ResultCells(r)) && TRACE_COLUMNS <= schema
    ensures RebuildResult(read) == r
  {
    var names, cells := RESULT_NAMES, ResultCells(r);
    assert SaysAt(schema, read, names[0], cells[0].cell) && SaysAt(schema, read, names[1], cells[1].cell);
    assert SaysAt(schema, read, names[2], cells[2].cell) && SaysAt(schema, read, names[3], cells[3].cell);
  }

  lemma PlaceHeld(schema: Schema, read: Reader, t: Trace)
    requires Says(schema, read, PLACE_NAMES, PlaceCells(t)) && TRACE_COLUMNS <= schema
    ensures read(ActionType) == Ok(Text(ActionTypeText(t.action)))
    ensures OptTextAt(read, ErrorText) == t.error && Parse(TextAt(read, TraceAddress), '_') == t.path
    ensures NumAt(read, Subtraces) == t.subtraces && OptNumAt(read, TransactionIndex) == t.transactionPosition
    ensures OptNumAt(read, TransactionHash) == t.transactionHash
    ensures OptNumAt(read, BlockNumber) == t.blockNumber && OptNumAt(read, BlockHash) == t.blockHash
  {
    var names, cells := PLACE_NAMES, PlaceCells(t);
    assert SaysAt(schema, read, names[0], cells[0].cell) && SaysAt(schema, read, names[1], cells[1].cell);
    assert SaysAt(schema, read, names[2], cells[2].cell) && SaysAt(schema, read, names[3], cells[3].cell);
    assert SaysAt(schema, read, names[4], cells[4].cell) && SaysAt(schema, read, names[5], cells[5].cell);
    assert SaysAt(schema, read, names[6], cells[6].cell) && SaysAt(schema, read, names[7], cells[7].cell);
    ParseFormat(t.path, '_');
  }

  lemma RowParts(schema: Schema, read: Reader, t: Trace)
    requires Says(schema, read, TRACE_NAMES, TraceRow(t))
    ensures Says(schema, read, ACTION_NAMES, ActionCells(t.action))
    ensures Says(schema, read, RESULT_NAMES, ResultCells(t.result))
    ensures Says(schema, read, PLACE_NAMES, PlaceCells(t))
  {
    var first := ActionCells(t.action) + ResultCells(t.result);
    ActionNames(t.action);
    ResultNames(t.result);
    PlaceNames(t);
    TraceNames(t);
    SaysParts(schema, read, TRACE_NAMES, first, PlaceCells(t));
    SaysParts(schema, read, TRACE_NAMES[..12], ActionCells(t.action), ResultCells(t.result));
    NamesAgree(ActionCells(t.action), TRACE_NAMES[..12][..8], ACTION_NAMES);
    NamesAgree(ResultCells(t.result), TRACE_NAMES[..12][8..], RESULT_NAMES);
    NamesAgree(PlaceCells(t), TRACE_NAMES[12..], PLACE_NAMES);
  }

  // A row says the whole trace it came from.
  lemma RowSaysTrace(schema: Schema, t: Trace)
    requires TRACE_COLUMNS <= schema
    ensures Parses(schema, RebuildTrace, TRACE_NAMES, TraceRow(t), t)
  {
    forall read: Reader | Says(schema, read, TRACE_NAMES, TraceRow(t))
      ensures RebuildTrace(read) == t
    {
      RowParts(schema, read, t);
      PlaceHeld(schema, read, t);
      ResultHeld(schema, read, t.result);
      ActionHeld(schema, read, t.action);
    }
  }

  // With all columns selected, the table that a successful call leaves gives back every trace:
  // action, result, place and error, in order.
  lemma TracesRecovered(traces: seq<Trace>, schema: Schema, f: Frame)
    requires Aligned(schema, TRACE_NAMES, f) && TRACE_COLUMNS <= schema
    requires AddRows(schema, f, TraceRows(traces)).error.None?
    ensures ReadTable(AddRows(schema, f, TraceRows(traces)).state, f.nRows, RebuildTrace) == traces
  {
    var rows := TraceRows(traces);
    TraceNamesDistinct();
    forall i | 0 <= i < |rows|
      ensures Names(rows[i], TRACE_NAMES) && Parses(schema, RebuildTrace, TRACE_NAMES, rows[i], traces[i])
    {
      TraceNames(traces[i]);
      RowSaysTrace(schema, traces[i]);
    }
    ReadStored(schema, TRACE_NAMES, f, rows, RebuildTrace, traces);
  }

  // --- selection by the stored addresses ---

  // The kind and the two addresses that a row says.
  datatype Parties = Parties(kind: string, from: Option<nat>, to: Option<nat>)

  function ReadParties(read: Reader): Parties {
    Parties(TextAt(read, ActionType), OptNumAt(read, ActionFrom), OptNumAt(read, ActionTo))
  }

  // What a row must carry to be selected: the sender beside `--from-address`, except that a reward
  // has none, and the receiver beside `--to-address`, which for a reward is the author whom it
  // stores as its sender, and which a creation has not.
  predicate Admits(p: Parties, from: Option<Address>, to: Option<Address>) {
    && (from.Some? ==> p.kind != "reward" && p.from == from)
    && (to.Some? ==> if p.kind == "reward" then p.from == to else p.to == to)
  }

  function PartiesOf(a: Action): Parties {
    match a
    case Call(from, to, _, _, _, _) => Parties("call", Some(from), Some(to))
    case Create(from, _, _, _) => Parties("create", Some(from), None)
    case Selfdestruct(address, _, refundAddress) => Parties("suicide", Some(address), Some(refundAddress))
    case Reward(author, _, _) => Parties("reward", Some(author), None)
  }

  lemma PartiesAdmitted(t: Trace, from: Option<Address>, to: Option<Address>)
    ensures FromMatches(t, from) && ToMatches(t, to) <==> Admits(PartiesOf(t.action), from, to)
  {
    KindOfText(t.action);
  }

  lemma RowSaysParties(schema: Schema, t: Trace)
    requires {ActionType, ActionFrom, ActionTo} <= schema
    ensures Parses(schema, ReadParties, TRACE_NAMES, TraceRow(t), PartiesOf(t.action))
  {
    forall read: Reader | Says(schema, read, TRACE_NAMES, TraceRow(t))
      ensures ReadParties(read) == PartiesOf(t.action)
    {
      RowParts(schema, read, t);
      assert SaysAt(schema, read, ACTION_NAMES[0], ActionCells(t.action)[0].cell);
      assert SaysAt(schema, read, ACTION_NAMES[1], ActionCells(t.action)[1].cell);
      assert SaysAt(schema, read, PLACE_NAMES[0], PlaceCells(t)[0].cell);
    }
  }

  function PartiesOfAll(traces: seq<Trace>): (parties: seq<Parties>)
    ensures |parties| == |traces| && forall i | 0 <= i < |parties| :: parties[i] == PartiesOf(traces[i].action)
  {
    seq(|traces|, i requires 0 <= i < |traces| => PartiesOf(traces[i].action))
  }

  lemma PartiesStored(traces: seq<Trace>, schema: Schema, f: Frame)
    requires Aligned(schema, TRACE_NAMES, f) && {ActionType, ActionFrom, ActionTo} <= schema
    requires AddRows(schema, f, TraceRows(traces)).error.None?
    ensures ReadTable(AddRows(schema, f, TraceRows(traces)).state, f.nRows, ReadParties) == PartiesOfAll(traces)
  {
    var rows := TraceRows(traces);
    TraceNamesDistinct();
    forall i | 0 <= i < |rows|
      ensures Names(rows[i], TRACE_NAMES) && Parses(schema, ReadParties, TRACE_NAMES, rows[i], PartiesOfAll(traces)[i])
    {
      TraceNames(traces[i]);
      RowSaysParties(schema, traces[i]);
    }
    ReadStored(schema, TRACE_NAMES, f, rows, ReadParties, PartiesOfAll(traces));
  }

  lemma SelectedIffAdmitted(traces: seq<Trace>, from: Option<Address>, to: Option<Address>, t: Trace)
    requires t in traces
    ensures t in SelectByAddress(traces, from, to) <==> Admits(PartiesOf(t.action), from, to)
  {
    FilterMembers(FromFilter(from), traces);
    FilterMembers(ToFilter(to), Filter(FromFilter(from), traces));
    PartiesAdmitted(t, from, to);
  }

  // A trace is selected by address if and only if the row that the table has for it carries the
  // addresses asked for.
  lemma SelectedIffStored(traces: seq<Trace>, from: Option<Address>, to: Option<Address>, schema: Schema, f: Frame)
    requires Aligned(schema, TRACE_NAMES, f) && {ActionType, ActionFrom, ActionTo} <= schema
    requires AddRows(schema, f, TraceRows(traces)).error.None?
    ensures var seen := ReadTable(AddRows(schema, f, TraceRows(traces)).state, f.nRows, ReadParties);
            |seen| == |traces| &&
            forall i | 0 <= i < |traces| ::
              traces[i] in SelectByAddress(traces, from, to) <==> Admits(seen[i], from, to)
  {
    PartiesStored(traces, schema, f);
    forall i | 0 <= i < |traces|
      ensures traces[i] in SelectByAddress(traces, from, to) <==> Admits(PartiesOfAll(traces)[i], from, to)
    {
      SelectedIffAdmitted(traces, from, to, traces[i]);
    }
  }
}
