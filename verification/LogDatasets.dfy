// The five log datasets on their own: shape predicates, the log filter each one sends
// to the node, and the rows each one stores.
module LogDatasets {
  import opened Prelude
  import opened RpcParams
  import opened Columns

  datatype Datatype =
    | Logs
    | Erc20Transfers
    | Erc20Approvals
    | Erc721Transfers
    | Erc20WrapperEvents
    | Other(name: string)

  // Event signature hashes. ERC-20 and ERC-721 `Transfer` share one.
  const TRANSFER: B256 := 0xddf252ad1be2c89b69c2b068fc378daa952ba7f163c4a11628f55a4df523b3ef
  const APPROVAL: B256 := 0x8c5be1e5ebec7d5bd14f71427d1e84f3dd0314c0f7b2291e5b200ac8c7c3b925
  const DEPOSIT: B256 := 0xe1fffcc4923d04b559f4d29a8bfc6cda04eb5b0d3c460751c2402c5c5cc9109c
  const WITHDRAWAL: B256 := 0x7fcf532c15f0a6db0bd6d0e038bea71d30d808c7d98cb3bf7268a95bf5081b65

  predicate HasSignature(log: Log, signatures: set<B256>) {
    |log.topics| > 0 && log.topics[0] in signatures
  }

  predicate IsErc20Transfer(log: Log) {
    |log.topics| == 3 && |log.data| == 32 && HasSignature(log, {TRANSFER})
  }

  predicate IsErc20Approval(log: Log) {
    |log.topics| == 3 && |log.data| == 32 && HasSignature(log, {APPROVAL})
  }

  predicate IsErc721Transfer(log: Log) {
    |log.topics| == 4 && log.data == [] && HasSignature(log, {TRANSFER})
  }

  predicate IsWrapperEventShape(log: Log) {
    |log.topics| == 2 && |log.data| == 32
  }

  predicate IsWrapperEvent(log: Log) {
    IsWrapperEventShape(log) && HasSignature(log, {DEPOSIT, WITHDRAWAL})
  }

  // --- by-block extraction ---

  function AddressSlot(dim: Option<Bytes>, what: string): Result<set<B256>> {
    match dim
    case None => Ok({})
    case Some(b) => match AddressDimAsTopic(b)
      case None => Err(TooWide(what))
      case Some(t) => Ok({t})
  }

  function TransferFilter(signature: B256, p: Params): Result<LogFilter> {
    var from :- AddressSlot(p.fromAddress, "from_address");
    var to :- AddressSlot(p.toAddress, "to_address");
    var base :- EthersLogFilter(p);
    Ok(base.(topics := [{signature}, from, to, {}]))
  }

  function WrapperFilter(p: Params): Result<LogFilter> {
    var account :- OptionalTopic(p.topic1, "topic1");
    var base :- EthersLogFilter(p);
    Ok(base.(topics := [{DEPOSIT, WITHDRAWAL}, account, {}, {}]))
  }

  // The filter a dataset sends when it is collected on its own.
  function ScalarFilter(dt: Datatype, p: Params): Result<LogFilter>
    requires !dt.Other?
  {
    match dt
    case Logs => EthersLogFilter(p)
    case Erc20Transfers => TransferFilter(TRANSFER, p)
    case Erc20Approvals => TransferFilter(APPROVAL, p)
    case Erc721Transfers => TransferFilter(TRANSFER, p)
    case Erc20WrapperEvents => WrapperFilter(p)
  }

  // The shape check a dataset applies to the node's answer.
  predicate ScalarShape(dt: Datatype, log: Log) {
    match dt
    case Logs => true
    case Erc20Transfers => |log.topics| == 3 && |log.data| == 32
    case Erc20Approvals => |log.topics| == 3 && |log.data| == 32
    case Erc721Transfers => |log.topics| == 4 && log.data == []
    case Erc20WrapperEvents => IsWrapperEventShape(log)
    case Other(_) => false
  }

  function Shaped(dt: Datatype): Log -> bool {
    log => ScalarShape(dt, log)
  }

  function ScalarExtract(dt: Datatype, p: Params, universe: seq<Mined>): Result<seq<Log>>
    requires !dt.Other?
  {
    var f :- ScalarFilter(dt, p);
    Ok(Filter(Shaped(dt), GetLogs(universe, f)))
  }

  // The transfer-like extractors: assign the topic slots, then query and check the shape.
  method ExtractTransfers(dt: Datatype, p: Params, universe: seq<Mined>) returns (r: Result<seq<Log>>)
    requires dt in {Erc20Transfers, Erc20Approvals, Erc721Transfers}
    ensures r == ScalarExtract(dt, p, universe)
  {
    var topics := ANY_TOPICS;
    topics := topics[0 := {if dt == Erc20Approvals then APPROVAL else TRANSFER}];
    if p.fromAddress.Some? {
      match AddressDimAsTopic(p.fromAddress.value)
      case None => return Err(TooWide("from_address"));
      case Some(v) => topics := topics[1 := {v}];
    }
    if p.toAddress.Some? {
      match AddressDimAsTopic(p.toAddress.value)
      case None => return Err(TooWide("to_address"));
      case Some(v) => topics := topics[2 := {v}];
    }
    var base :- EthersLogFilter(p);
    var f := base.(topics := topics);
    assert topics == ScalarFilter(dt, p).value.topics;
    r := Ok(Filter(Shaped(dt), GetLogs(universe, f)));
  }

  // --- by-transaction extraction: the dimensions are re-applied on the client ---

  predicate ScalarTxKeeps(dt: Datatype, p: Params, log: Log) {
    LogAddressMatches(log, p.address) &&
    match dt
    case Logs =>
      TopicMatches(log, 0, p.topic0) && TopicMatches(log, 1, p.topic1) &&
      TopicMatches(log, 2, p.topic2) && TopicMatches(log, 3, p.topic3)
    case Erc20Transfers =>
      IsErc20Transfer(log) && AddressTopicMatches(log, 1, p.fromAddress) && AddressTopicMatches(log, 2, p.toAddress)
    case Erc20Approvals =>
      IsErc20Approval(log) && AddressTopicMatches(log, 1, p.fromAddress) && AddressTopicMatches(log, 2, p.toAddress)
    case Erc721Transfers =>
      IsErc721Transfer(log) && AddressTopicMatches(log, 1, p.fromAddress) && AddressTopicMatches(log, 2, p.toAddress)
    case Erc20WrapperEvents => IsWrapperEvent(log) && TopicMatches(log, 1, p.topic1)
    case Other(_) => false
  }

  function ScalarTxExtract(dt: Datatype, p: Params, logs: seq<Log>): seq<Log> {
    Filter(ScalarTxKept(dt, p), logs)
  }

  function ScalarTxKept(dt: Datatype, p: Params): Log -> bool {
    log => ScalarTxKeeps(dt, p, log)
  }

  // --- rows ---

  // How decoded event columns are obtained: the parameter names of the event, and a
  // decoder that returns the indexed and the body values, or nothing.
  datatype Decoder = Decoder(
    indexedNames: seq<string>,
    bodyNames: seq<string>,
    decode: Log -> Option<(seq<Cell>, seq<Cell>)>
  )

  datatype LogSchema = LogSchema(columns: Schema, decoder: Option<Decoder>)

  predicate Located(log: Log) {
    log.blockNumber.Some? && log.transactionHash.Some? && log.transactionIndex.Some? && log.logIndex.Some?
  }

  // `topics()[i][12..]`
  function AccountCell(log: Log, i: nat): Result<Cell> {
    if i < |log.topics| then Ok(Num(log.topics[i] % ADDRESS_LIMIT)) else Err(Panic)
  }

  // `U256::from_be_slice`
  function WordCell(b: Bytes): Result<Cell> {
    if |b| <= 32 then Ok(Num(FromBytes(b))) else Err(Panic)
  }

  function TopicCell(log: Log, i: nat): Result<Cell> {
    Ok(if i < |log.topics| then Num(log.topics[i]) else Null)
  }

  function EventTypeCell(log: Log): Result<Cell> {
    Ok(Text(if HasSignature(log, {DEPOSIT}) then "deposit" else "withdrawal"))
  }

  function PlaceCells(log: Log): Row
    requires Located(log)
  {
    [Entry(BlockNumber, NumCell(ToU32(log.blockNumber.value))),
     Entry(BlockHash, OptNumCell(log.blockHash)),
     Entry(TransactionIndex, NumCell(ToU32(log.transactionIndex.value))),
     Entry(LogIndex, NumCell(ToU32(log.logIndex.value))),
     Entry(TransactionHash, OptNumCell(log.transactionHash))]
  }

  function PartyCells(log: Log): Row {
    [Entry(Erc20, Ok(Num(log.address))),
     Entry(FromAddress, AccountCell(log, 1)),
     Entry(ToAddress, AccountCell(log, 2))]
  }

  function RowOf(dt: Datatype, log: Log): Row
    requires Located(log)
  {
    PlaceCells(log) + OwnCells(dt, log)
  }

  // The cells of a row that are the dataset's own.
  function OwnCells(dt: Datatype, log: Log): Row {
    match dt
    case Logs =>
      [Entry(ContractAddress, Ok(Num(log.address))),
       Entry(Data, Ok(Bin(log.data))),
       Entry(NDataBytes, NumCell(ToU32(|log.data|))),
       Entry(Topic0, TopicCell(log, 0)),
       Entry(Topic1, TopicCell(log, 1)),
       Entry(Topic2, TopicCell(log, 2)),
       Entry(Topic3, TopicCell(log, 3))]
    case Erc20Transfers => PartyCells(log) + [Entry(Value, WordCell(log.data))]
    case Erc20Approvals => PartyCells(log) + [Entry(Value, WordCell(log.data))]
    case Erc721Transfers =>
      PartyCells(log) + [Entry(TokenId, if 3 < |log.topics| then Ok(Num(log.topics[3])) else Err(Panic))]
    case Erc20WrapperEvents =>
      [Entry(Erc20, Ok(Num(log.address))),
       Entry(EventType, EventTypeCell(log)),
       Entry(Account, AccountCell(log, 1)),
       Entry(Value, WordCell(log.data))]
    case Other(_) => []
  }

  function PushEvents(events: Events, names: seq<string>, values: seq<Cell>): Outcome<Events>
    decreases |values|
  {
    if values == [] then Outcome(events, None)
    else if names == [] then Outcome(events, Some(Panic))
    else
      var column := if names[0] in events then events[names[0]] else [];
      PushEvents(events[names[0] := column + [values[0]]], names[1..], values[1..])
  }

  function DecodeInto(d: Decoder, events: Events, values: (seq<Cell>, seq<Cell>)): Outcome<Events> {
    var indexed := PushEvents(events, d.indexedNames, values.0);
    if indexed.error.Some? then indexed else PushEvents(indexed.state, d.bodyNames, values.1)
  }

  function ProcessLog(dt: Datatype, s: LogSchema, f: Frame, log: Log): Outcome<Frame> {
    if dt == Erc20WrapperEvents && !IsWrapperEvent(log) then Outcome(f, None)
    else if !Located(log) then Outcome(f, None)
    else if dt == Logs && s.decoder.Some? then
      match s.decoder.value.decode(log)
      case None => Outcome(f, None)
      case Some(values) =>
        var decoded := DecodeInto(s.decoder.value, f.events, values);
        if decoded.error.Some? then Outcome(f.(events := decoded.state), decoded.error)
        else AddRow(s.columns, f.(events := decoded.state), RowOf(dt, log))
    else AddRow(s.columns, f, RowOf(dt, log))
  }

  function Process(dt: Datatype, s: LogSchema, f: Frame, logs: seq<Log>): Outcome<Frame>
    decreases |logs|
  {
    if logs == [] then Outcome(f, None)
    else
      var first := ProcessLog(dt, s, f, logs[0]);
      if first.error.Some? then first else Process(dt, s, first.state, logs[1..])
  }

  method PushValues(table: Table, names: seq<string>, values: seq<Cell>) returns (error: Option<Error>)
    modifies table`events
    ensures Outcome(table.events, error) == PushEvents(old(table.events), names, values)
  {
    error := None;
    for i := 0 to |values|
      invariant i <= |names|
      invariant PushEvents(table.events, names[i..], values[i..]) == PushEvents(old(table.events), names, values)
    {
      assert values[i..][1..] == values[i + 1..];
      if i == |names| {
        return Some(Panic);
      }
      assert names[i..][1..] == names[i + 1..];
      var column := if names[i] in table.events then table.events[names[i]] else [];
      table.events := table.events[names[i] := column + [values[i]]];
    }
  }

  // One turn of the loop below.
  method StoreLog(dt: Datatype, s: LogSchema, table: Table, log: Log) returns (error: Option<Error>)
    modifies table
    ensures Outcome(table.View(), error) == ProcessLog(dt, s, old(table.View()), log)
  {
    if (dt == Erc20WrapperEvents && !IsWrapperEvent(log)) || !Located(log) {
      return None;
    }
    if dt == Logs && s.decoder.Some? {
      var d := s.decoder.value;
      match d.decode(log) {
        case None => return None;
        case Some(values) =>
          error := PushValues(table, d.indexedNames, values.0);
          if error.Some? {
            return;
          }
          error := PushValues(table, d.bodyNames, values.1);
          if error.Some? {
            return;
          }
      }
    }
    error := table.PushRow(s.columns, RowOf(dt, log));
  }

  // `process_logs`, `process_erc20_transfers`, `process_erc20_approval`,
  // `process_erc721_transfers` and `process_wrapper_events`.
  method ProcessLogs(dt: Datatype, s: LogSchema, table: Table, logs: seq<Log>) returns (error: Option<Error>)
    modifies table
    ensures Outcome(table.View(), error) == Process(dt, s, old(table.View()), logs)
  {
    error := None;
    for i := 0 to |logs|
      invariant error.None?
      invariant Process(dt, s, table.View(), logs[i..]) == Process(dt, s, old(table.View()), logs)
    {
      assert logs[i..][1..] == logs[i + 1..];
      error := StoreLog(dt, s, table, logs[i]);
      if error.Some? {
        return;
      }
    }
  }

  // --- properties of the rows ---

  const PLACE_NAMES: seq<Column> := [BlockNumber, BlockHash, TransactionIndex, LogIndex, TransactionHash]

  function ColumnNames(dt: Datatype): seq<Column> {
    PLACE_NAMES + OwnNames(dt)
  }

  function OwnNames(dt: Datatype): seq<Column> {
    match dt
    case Logs => [ContractAddress, Data, NDataBytes, Topic0, Topic1, Topic2, Topic3]
    case Erc20Transfers => [Erc20, FromAddress, ToAddress, Value]
    case Erc20Approvals => [Erc20, FromAddress, ToAddress, Value]
    case Erc721Transfers => [Erc20, FromAddress, ToAddress, TokenId]
    case Erc20WrapperEvents => [Erc20, EventType, Account, Value]
    case Other(_) => []
  }

  function CountName(names: seq<string>, name: string): nat {
    if names == [] then 0 else (if names[0] == name then 1 else 0) + CountName(names[1..], name)
  }

  function EventCol(events: Events, name: string): seq<Cell> {
    if name in events then events[name] else []
  }

  lemma {:induction false} PushEventsCounts(events: Events, names: seq<string>, values: seq<Cell>, name: string)
    requires |names| == |values|
    ensures PushEvents(events, names, values).error.None?
    ensures |EventCol(PushEvents(events, names, values).state, name)| ==
            |EventCol(events, name)| + CountName(names, name)
    decreases |values|
  {
    if values == [] {
    } else {
      var column := if names[0] in events then events[names[0]] else [];
      PushEventsCounts(events[names[0] := column + [values[0]]], names[1..], values[1..], name);
    }
  }

  ghost predicate DecoderFits(s: LogSchema) {
    s.decoder.Some? ==>
      forall log :: s.decoder.value.decode(log).Some? ==>
        var values := s.decoder.value.decode(log).value;
        |values.0| == |s.decoder.value.indexedNames| && |values.1| == |s.decoder.value.bodyNames|
  }

  // How many event parameters carry a name.
  function Multiplicity(dt: Datatype, s: LogSchema, name: string): nat {
    if dt == Logs && s.decoder.Some?
    then CountName(s.decoder.value.indexedNames, name) + CountName(s.decoder.value.bodyNames, name)
    else 0
  }

  ghost predicate EventsAligned(dt: Datatype, s: LogSchema, f: Frame) {
    forall name: string :: |EventCol(f.events, name)| == Multiplicity(dt, s, name) * f.nRows
  }

  lemma OwnNamesDistinct(dt: Datatype)
    ensures Unique(OwnNames(dt)) && forall c | c in PLACE_NAMES :: c !in OwnNames(dt)
  {
  }

  lemma NamesDistinct(dt: Datatype)
    ensures Unique(ColumnNames(dt))
  {
    assert Unique(PLACE_NAMES);
    OwnNamesDistinct(dt);
    UniqueJoinIff(PLACE_NAMES, OwnNames(dt));
  }

  lemma PlaceNames(log: Log)
    requires Located(log)
    ensures Names(PlaceCells(log), PLACE_NAMES)
  {
  }

  lemma OwnCellNames(dt: Datatype, log: Log)
    ensures Names(OwnCells(dt, log), OwnNames(dt))
  {
  }

  lemma RowNames(dt: Datatype, log: Log)
    requires Located(log)
    ensures Names(RowOf(dt, log), ColumnNames(dt)) && Unique(ColumnNames(dt))
  {
    NamesDistinct(dt);
    PlaceNames(log);
    OwnCellNames(dt, log);
    NamesJoin(PlaceCells(log), PLACE_NAMES, OwnCells(dt, log), OwnNames(dt));
  }

  // After any successful processing, every selected column of the dataset has one cell
  // a row, every other column none, and a decoded event column has one cell a row for
  // each event parameter that carries its name.
  lemma {:induction false} ProcessKeepsColumnsAligned(dt: Datatype, s: LogSchema, f: Frame, logs: seq<Log>)
    requires DecoderFits(s)
    requires Aligned(s.columns, ColumnNames(dt), f) && EventsAligned(dt, s, f)
    requires Process(dt, s, f, logs).error.None?
    ensures var g := Process(dt, s, f, logs).state;
            Aligned(s.columns, ColumnNames(dt), g) && EventsAligned(dt, s, g)
    decreases |logs|
  {
    if logs == [] {
    } else {
      ProcessLogKeepsColumnsAligned(dt, s, f, logs[0]);
      ProcessKeepsColumnsAligned(dt, s, ProcessLog(dt, s, f, logs[0]).state, logs[1..]);
    }
  }

  lemma ProcessLogKeepsColumnsAligned(dt: Datatype, s: LogSchema, f: Frame, log: Log)
    requires DecoderFits(s)
    requires Aligned(s.columns, ColumnNames(dt), f) && EventsAligned(dt, s, f)
    requires ProcessLog(dt, s, f, log).error.None?
    ensures var g := ProcessLog(dt, s, f, log).state;
            Aligned(s.columns, ColumnNames(dt), g) && EventsAligned(dt, s, g)
  {
    if (dt == Erc20WrapperEvents && !IsWrapperEvent(log)) || !Located(log) {
    } else if dt == Logs && s.decoder.Some? {
      match s.decoder.value.decode(log)
      case None =>
      case Some(values) =>
        var g := f.(events := DecodeInto(s.decoder.value, f.events, values).state);
        DecodeCounts(s, f, values);
        RowKeepsAligned(dt, s, g, log);
    } else {
      RowKeepsAligned(dt, s, f, log);
    }
  }

  lemma RowKeepsAligned(dt: Datatype, s: LogSchema, f: Frame, log: Log)
    requires Located(log)
    requires Aligned(s.columns, ColumnNames(dt), f)
    requires AddRow(s.columns, f, RowOf(dt, log)).error.None?
    ensures Aligned(s.columns, ColumnNames(dt), AddRow(s.columns, f, RowOf(dt, log)).state)
  {
    var row := RowOf(dt, log);
    RowNames(dt, log);
    assert AddRows(s.columns, f, [row]) == AddRow(s.columns, f, row) by {
      assert [row][1..] == [];
    }
    RowsTranspose(s.columns, ColumnNames(dt), f, [row]);
  }

  lemma DecodeCounts(s: LogSchema, f: Frame, values: (seq<Cell>, seq<Cell>))
    requires s.decoder.Some? && EventsAligned(Logs, s, f)
    requires |values.0| == |s.decoder.value.indexedNames| && |values.1| == |s.decoder.value.bodyNames|
    ensures var r := DecodeInto(s.decoder.value, f.events, values);
            r.error.None? &&
            forall name: string :: |EventCol(r.state, name)| == Multiplicity(Logs, s, name) * (f.nRows + 1)
  {
    var d := s.decoder.value;
    PushEventsCounts(f.events, d.indexedNames, values.0, "");
    var indexed := PushEvents(f.events, d.indexedNames, values.0).state;
    PushEventsCounts(indexed, d.bodyNames, values.1, "");
    forall name: string
      ensures |EventCol(DecodeInto(d, f.events, values).state, name)| == Multiplicity(Logs, s, name) * (f.nRows + 1)
    {
      PushEventsCounts(f.events, d.indexedNames, values.0, name);
      PushEventsCounts(indexed, d.bodyNames, values.1, name);
      OneMoreTime(Multiplicity(Logs, s, name), f.nRows);
    }
  }

  lemma OneMoreTime(m: nat, n: nat)
    ensures m * (n + 1) == m * n + m
  {
  }

  // --- a table holds its whole logs ---

  function TopicsAt(read: Reader, columns: seq<Column>): seq<B256> {
    if columns == [] || OptNumAt(read, columns[0]).None? then []
    else [NumAt(read, columns[0])] + TopicsAt(read, columns[1..])
  }

  function ReadEventType(text: string): B256 {
    if text == "deposit" then DEPOSIT else if text == "withdrawal" then WITHDRAWAL else 0
  }

  function RebuildTopics(dt: Datatype, read: Reader): seq<B256> {
    match dt
    case Logs => TopicsAt(read, TOPIC_COLUMNS)
    case Erc20Transfers => [TRANSFER, NumAt(read, FromAddress), NumAt(read, ToAddress)]
    case Erc20Approvals => [APPROVAL, NumAt(read, FromAddress), NumAt(read, ToAddress)]
    case Erc721Transfers => [TRANSFER, NumAt(read, FromAddress), NumAt(read, ToAddress), NumAt(read, TokenId)]
    case Erc20WrapperEvents =>
      [ReadEventType(TextAt(read, EventType)), NumAt(read, Account)]
    case Other(_) => []
  }

  ghost function RebuildData(dt: Datatype, read: Reader): Bytes {
    match dt
    case Logs => BinAt(read, Data)
    case Erc721Transfers => []
    case _ => BytesOf(NumAt(read, Value), 32)
  }

  function RebuildAddress(dt: Datatype, read: Reader): Address {
    NumAt(read, if dt == Logs then ContractAddress else Erc20)
  }

  // The log that a stored row describes.
  ghost function RebuildLog(dt: Datatype): Reader -> Log {
    (read: Reader) =>
      Log(RebuildAddress(dt, read), RebuildTopics(dt, read), RebuildData(dt, read),
          OptNumAt(read, BlockNumber), OptNumAt(read, BlockHash), OptNumAt(read, TransactionHash),
          OptNumAt(read, TransactionIndex), OptNumAt(read, LogIndex))
  }

  const TOPIC_COLUMNS: seq<Column> := [Topic0, Topic1, Topic2, Topic3]

  // A log of the dataset, by signature and shape.
  predicate IsOf(dt: Datatype, log: Log) {
    match dt
    case Logs => true
    case Erc20Transfers => IsErc20Transfer(log)
    case Erc20Approvals => IsErc20Approval(log)
    case Erc721Transfers => IsErc721Transfer(log)
    case Erc20WrapperEvents => IsWrapperEvent(log)
    case Other(_) => false
  }

  // The log as its row tells it: an indexed address loses its high bytes, and there is no column
  // for a fifth topic.
  function Told(dt: Datatype, log: Log): Log
    requires IsOf(dt, log)
  {
    match dt
    case Logs => log.(topics := if |log.topics| <= 4 then log.topics else log.topics[..4])
    case Erc20WrapperEvents => log.(topics := [log.topics[0], log.topics[1] % ADDRESS_LIMIT])
    case Other(_) => log
    case _ =>
      log.(topics := [log.topics[0], log.topics[1] % ADDRESS_LIMIT, log.topics[2] % ADDRESS_LIMIT] + log.topics[3..])
  }

  // No topic is more than its column holds.
  predicate Fits(dt: Datatype, log: Log)
    requires IsOf(dt, log)
  {
    match dt
    case Logs => |log.topics| <= 4
    case Erc20WrapperEvents => log.topics[1] < ADDRESS_LIMIT
    case Other(_) => true
    case _ => log.topics[1] < ADDRESS_LIMIT && log.topics[2] < ADDRESS_LIMIT
  }

  lemma ToldWholeIff(dt: Datatype, log: Log)
    requires IsOf(dt, log)
    ensures Told(dt, log) == log <==> Fits(dt, log)
  {
    var told := Told(dt, log).topics;
    match dt
    case Logs =>
    case Erc20WrapperEvents =>
      assert told[1] == log.topics[1] % ADDRESS_LIMIT;
      assert Fits(dt, log) ==> told == log.topics;
    case Other(_) =>
    case _ =>
      assert told[1] == log.topics[1] % ADDRESS_LIMIT && told[2] == log.topics[2] % ADDRESS_LIMIT;
      assert Fits(dt, log) ==> told == log.topics;
  }

  // The columns that a log is put together from. The block hash is not among them: no default
  // selection has it.
  function LogColumns(dt: Datatype): set<Column> {
    {BlockNumber, TransactionIndex, LogIndex, TransactionHash} +
    match dt
    case Logs => {ContractAddress, Data, Topic0, Topic1, Topic2, Topic3}
    case Erc20Transfers => {Erc20, FromAddress, ToAddress, Value}
    case Erc20Approvals => {Erc20, FromAddress, ToAddress, Value}
    case Erc721Transfers => {Erc20, FromAddress, ToAddress, TokenId}
    case Erc20WrapperEvents => {Erc20, EventType, Account, Value}
    case Other(_) => {}
  }

  // A log as the selected columns show it: with its block hash only if that is selected.
  function Shown(schema: Schema, log: Log): Log {
    log.(blockHash := SeenOpt(schema, BlockHash, log.blockHash))
  }

  lemma PlaceSaid(schema: Schema, read: Reader, log: Log)
    requires Located(log) && Says(schema, read, PLACE_NAMES, PlaceCells(log))
    requires {BlockNumber, TransactionIndex, LogIndex, TransactionHash} <= schema
    ensures OptNumAt(read, BlockNumber) == log.blockNumber
    ensures OptNumAt(read, BlockHash) == SeenOpt(schema, BlockHash, log.blockHash)
    ensures OptNumAt(read, TransactionIndex) == log.transactionIndex && OptNumAt(read, LogIndex) == log.logIndex
    ensures OptNumAt(read, TransactionHash) == log.transactionHash
  {
    var names, cells := PLACE_NAMES, PlaceCells(log);
    assert SaysAt(schema, read, names[0], cells[0].cell) && SaysAt(schema, read, names[1], cells[1].cell);
    assert SaysAt(schema, read, names[2], cells[2].cell) && SaysAt(schema, read, names[3], cells[3].cell);
    assert SaysAt(schema, read, names[4], cells[4].cell);
  }

  lemma PartiesSaid(schema: Schema, read: Reader, dt: Datatype, log: Log)
    requires dt in {Erc20Transfers, Erc20Approvals, Erc721Transfers} && IsOf(dt, log)
    requires Says(schema, read, OwnNames(dt), OwnCells(dt, log)) && LogColumns(dt) <= schema
    ensures RebuildAddress(dt, read) == log.address
    ensures NumAt(read, FromAddress) == log.topics[1] % ADDRESS_LIMIT
    ensures NumAt(read, ToAddress) == log.topics[2] % ADDRESS_LIMIT
  {
    var names, cells := OwnNames(dt), OwnCells(dt, log);
    assert SaysAt(schema, read, names[0], cells[0].cell) && SaysAt(schema, read, names[1], cells[1].cell);
    assert SaysAt(schema, read, names[2], cells[2].cell);
  }

  lemma AmountSaid(schema: Schema, read: Reader, dt: Datatype, log: Log)
    requires dt in {Erc20Transfers, Erc20Approvals, Erc721Transfers} && IsOf(dt, log)
    requires Says(schema, read, OwnNames(dt), OwnCells(dt, log)) && LogColumns(dt) <= schema
    ensures RebuildData(dt, read) == log.data
    ensures dt == Erc721Transfers ==> NumAt(read, TokenId) == log.topics[3]
  {
    var names, cells := OwnNames(dt), OwnCells(dt, log);
    assert SaysAt(schema, read, names[3], cells[3].cell);
    BytesOfRoundTrip(log.data);
  }

  lemma TransferSaid(schema: Schema, read: Reader, dt: Datatype, log: Log)
    requires dt in {Erc20Transfers, Erc20Approvals, Erc721Transfers} && IsOf(dt, log)
    requires Says(schema, read, OwnNames(dt), OwnCells(dt, log)) && LogColumns(dt) <= schema
    ensures RebuildAddress(dt, read) == log.address && RebuildData(dt, read) == log.data
    ensures RebuildTopics(dt, read) == Told(dt, log).topics
  {
    PartiesSaid(schema, read, dt, log);
    AmountSaid(schema, read, dt, log);
    assert dt != Erc721Transfers ==> log.topics[3..] == [];
    assert dt == Erc721Transfers ==> log.topics[3..] == [log.topics[3]];
  }

  lemma WrapperSaid(schema: Schema, read: Reader, log: Log)
    requires IsWrapperEvent(log) && LogColumns(Erc20WrapperEvents) <= schema
    requires Says(schema, read, OwnNames(Erc20WrapperEvents), OwnCells(Erc20WrapperEvents, log))
    ensures RebuildAddress(Erc20WrapperEvents, read) == log.address
    ensures RebuildData(Erc20WrapperEvents, read) == log.data
    ensures RebuildTopics(Erc20WrapperEvents, read) == Told(Erc20WrapperEvents, log).topics
  {
    var names, cells := OwnNames(Erc20WrapperEvents), OwnCells(Erc20WrapperEvents, log);
    assert SaysAt(schema, read, names[0], cells[0].cell) && SaysAt(schema, read, names[1], cells[1].cell);
    assert SaysAt(schema, read, names[2], cells[2].cell) && SaysAt(schema, read, names[3], cells[3].cell);
    BytesOfRoundTrip(log.data);
    assert |"withdrawal"| != |"deposit"|;
    assert ReadEventType(TextAt(read, EventType)) == log.topics[0];
  }

  lemma RawSaid(schema: Schema, read: Reader, log: Log)
    requires Says(schema, read, OwnNames(Logs), OwnCells(Logs, log)) && LogColumns(Logs) <= schema
    ensures RebuildAddress(Logs, read) == log.address && RebuildData(Logs, read) == log.data
    ensures RebuildTopics(Logs, read) == Told(Logs, log).topics
  {
    var names, cells := OwnNames(Logs), OwnCells(Logs, log);
    assert SaysAt(schema, read, names[0], cells[0].cell) && SaysAt(schema, read, names[1], cells[1].cell);
    assert SaysAt(schema, read, names[3], cells[3].cell) && SaysAt(schema, read, names[4], cells[4].cell);
    assert SaysAt(schema, read, names[5], cells[5].cell) && SaysAt(schema, read, names[6], cells[6].cell);
    TopicsSaid(read, log, TOPIC_COLUMNS, 0);
  }

  lemma {:induction false} TopicsSaid(read: Reader, log: Log, columns: seq<Column>, from: nat)
    requires from <= |columns|
    requires forall i: nat | i < |columns| :: read(columns[i]) == TopicCell(log, i)
    ensures var n := if |log.topics| <= |columns| then |log.topics| else |columns|;
            TopicsAt(read, columns[from..]) == if from <= n then log.topics[from..n] else []
    decreases |columns| - from
  {
    if from < |columns| {
      assert columns[from..][0] == columns[from] && columns[from..][1..] == columns[from + 1..];
      TopicsSaid(read, log, columns, from + 1);
    }
  }

  lemma OwnSaid(schema: Schema, read: Reader, dt: Datatype, log: Log)
    requires IsOf(dt, log) && Says(schema, read, OwnNames(dt), OwnCells(dt, log)) && LogColumns(dt) <= schema
    ensures RebuildAddress(dt, read) == log.address && RebuildData(dt, read) == log.data
    ensures RebuildTopics(dt, read) == Told(dt, log).topics
  {
    match dt
    case Logs => RawSaid(schema, read, log);
    case Erc20WrapperEvents => WrapperSaid(schema, read, log);
    case _ => TransferSaid(schema, read, dt, log);
  }

  lemma RowParts(schema: Schema, read: Reader, dt: Datatype, log: Log)
    requires Located(log) && Says(schema, read, ColumnNames(dt), RowOf(dt, log))
    ensures Says(schema, read, PLACE_NAMES, PlaceCells(log)) && Says(schema, read, OwnNames(dt), OwnCells(dt, log))
  {
    RowNames(dt, log);
    PlaceNames(log);
    OwnCellNames(dt, log);
    SaysParts(schema, read, ColumnNames(dt), PlaceCells(log), OwnCells(dt, log));
    NamesAgree(PlaceCells(log), ColumnNames(dt)[..5], PLACE_NAMES);
    NamesAgree(OwnCells(dt, log), ColumnNames(dt)[5..], OwnNames(dt));
  }

  // A row says its log, but for what its columns cannot hold and what is not selected.
  lemma RowSaysLog(schema: Schema, dt: Datatype, log: Log)
    requires Located(log) && IsOf(dt, log) && LogColumns(dt) <= schema
    ensures Parses(schema, RebuildLog(dt), ColumnNames(dt), RowOf(dt, log), Shown(schema, Told(dt, log)))
  {
    forall read: Reader | Says(schema, read, ColumnNames(dt), RowOf(dt, log))
      ensures RebuildLog(dt)(read) == Shown(schema, Told(dt, log))
    {
      RowParts(schema, read, dt, log);
      PlaceSaid(schema, read, log);
      OwnSaid(schema, read, dt, log);
    }
  }

  // The logs that a call stores as rows.
  predicate Stores(dt: Datatype, s: LogSchema, log: Log) {
    && (dt == Erc20WrapperEvents ==> IsWrapperEvent(log)) && Located(log)
    && (dt == Logs && s.decoder.Some? ==> s.decoder.value.decode(log).Some?)
  }

  function Stored(dt: Datatype, s: LogSchema): Log -> bool {
    log => Stores(dt, s, log)
  }

  function RowsOf(dt: Datatype, logs: seq<Log>): (rows: seq<Row>)
    requires forall log | log in logs :: Located(log)
    ensures |rows| == |logs| && forall i | 0 <= i < |rows| :: rows[i] == RowOf(dt, logs[i])
  {
    seq(|logs|, i requires 0 <= i < |logs| => RowOf(dt, logs[i]))
  }

  // Two tables but for their decoded columns.
  predicate SameColumns(f: Frame, g: Frame) {
    f.nRows == g.nRows && f.cells == g.cells
  }

  lemma ProcessLogRow(dt: Datatype, s: LogSchema, f: Frame, g: Frame, log: Log)
    requires SameColumns(f, g) && ProcessLog(dt, s, f, log).error.None?
    ensures Stores(dt, s, log) ==>
              AddRow(s.columns, g, RowOf(dt, log)).error.None? &&
              SameColumns(ProcessLog(dt, s, f, log).state, AddRow(s.columns, g, RowOf(dt, log)).state)
    ensures !Stores(dt, s, log) ==> SameColumns(ProcessLog(dt, s, f, log).state, g)
  {
  }

  lemma AddRowsCons(schema: Schema, f: Frame, row: Row, rest: seq<Row>)
    requires AddRow(schema, f, row).error.None?
    ensures AddRows(schema, f, [row] + rest) == AddRows(schema, AddRow(schema, f, row).state, rest)
  {
    assert ([row] + rest)[1..] == rest;
  }

  // Storing the rows of `kept` takes the columns of `g` to those of `after`.
  predicate AddsRows(dt: Datatype, schema: Schema, g: Frame, kept: seq<Log>, after: Frame) {
    && (forall log | log in kept :: Located(log))
    && var r := AddRows(schema, g, RowsOf(dt, kept));
       r.error.None? && SameColumns(r.state, after)
  }

  lemma RowsOfCons(dt: Datatype, log: Log, rest: seq<Log>)
    requires Located(log) && forall l | l in rest :: Located(l)
    ensures forall l | l in [log] + rest :: Located(l)
    ensures RowsOf(dt, [log] + rest) == [RowOf(dt, log)] + RowsOf(dt, rest)
  {
    LocatedCons(log, rest);
    RowsOfBoth(dt, log, rest, [log] + rest);
  }

  lemma RowsOfBoth(dt: Datatype, log: Log, rest: seq<Log>, both: seq<Log>)
    requires both == [log] + rest && Located(log)
    requires (forall l | l in rest :: Located(l)) && forall l | l in both :: Located(l)
    ensures RowsOf(dt, both) == [RowOf(dt, log)] + RowsOf(dt, rest)
  {
    assert both[0] == log && both[1..] == rest;
  }

  lemma LocatedCons(log: Log, rest: seq<Log>)
    requires Located(log) && forall l | l in rest :: Located(l)
    ensures forall l | l in [log] + rest :: Located(l)
  {
  }

  lemma AddsRowsCons(dt: Datatype, schema: Schema, g: Frame, log: Log, rest: seq<Log>, after: Frame)
    requires Located(log) && AddRow(schema, g, RowOf(dt, log)).error.None?
    requires AddsRows(dt, schema, AddRow(schema, g, RowOf(dt, log)).state, rest, after)
    ensures AddsRows(dt, schema, g, [log] + rest, after)
  {
    AddRowsCons(schema, g, RowOf(dt, log), RowsOf(dt, rest));
    RowsOfCons(dt, log, rest);
  }

  // A successful call adds exactly the rows of the logs it stores.
  lemma {:induction false} ProcessAddsRows(dt: Datatype, s: LogSchema, f: Frame, g: Frame, logs: seq<Log>)
    requires SameColumns(f, g) && Process(dt, s, f, logs).error.None?
    ensures AddsRows(dt, s.columns, g, Filter(Stored(dt, s), logs), Process(dt, s, f, logs).state)
    decreases |logs|
  {
    if logs == [] {
    } else {
      var next, rest := ProcessLog(dt, s, f, logs[0]).state, Filter(Stored(dt, s), logs[1..]);
      ProcessLogRow(dt, s, f, g, logs[0]);
      if Stores(dt, s, logs[0]) {
        var row := AddRow(s.columns, g, RowOf(dt, logs[0])).state;
        ProcessAddsRows(dt, s, next, row, logs[1..]);
        AddsRowsCons(dt, s.columns, g, logs[0], rest, Process(dt, s, next, logs[1..]).state);
      } else {
        ProcessAddsRows(dt, s, next, g, logs[1..]);
      }
    }
  }

  function ToldAll(schema: Schema, dt: Datatype, logs: seq<Log>): (told: seq<Log>)
    requires forall log | log in logs :: IsOf(dt, log)
    ensures |told| == |logs| && forall i | 0 <= i < |told| :: told[i] == Shown(schema, Told(dt, logs[i]))
  {
    seq(|logs|, i requires 0 <= i < |logs| => Shown(schema, Told(dt, logs[i])))
  }

  function ShownAll(schema: Schema, logs: seq<Log>): (shown: seq<Log>)
    ensures |shown| == |logs| && forall i | 0 <= i < |shown| :: shown[i] == Shown(schema, logs[i])
    ensures BlockHash in schema ==> shown == logs
  {
    seq(|logs|, i requires 0 <= i < |logs| => Shown(schema, logs[i]))
  }

  lemma RowsSayLogs(dt: Datatype, schema: Schema, f: Frame, logs: seq<Log>)
    requires forall log | log in logs :: Located(log) && IsOf(dt, log)
    requires Aligned(schema, ColumnNames(dt), f) && LogColumns(dt) <= schema
    requires AddRows(schema, f, RowsOf(dt, logs)).error.None?
    ensures ReadTable(AddRows(schema, f, RowsOf(dt, logs)).state, f.nRows, RebuildLog(dt)) == ToldAll(schema, dt, logs)
  {
    var rows := RowsOf(dt, logs);
    NamesDistinct(dt);
    forall i | 0 <= i < |rows|
      ensures Names(rows[i], ColumnNames(dt))
      ensures Parses(schema, RebuildLog(dt), ColumnNames(dt), rows[i], ToldAll(schema, dt, logs)[i])
    {
      RowNames(dt, logs[i]);
      RowSaysLog(schema, dt, logs[i]);
    }
    ReadStored(schema, ColumnNames(dt), f, rows, RebuildLog(dt), ToldAll(schema, dt, logs));
  }

  // With the columns that it takes selected, whatever others are, the table that a successful
  // call leaves gives back every log it stored, in order, exactly when none has more in a topic
  // than the topic's column holds. The block hash comes with it where it is selected.
  lemma LogsRecoveredIff(dt: Datatype, s: LogSchema, f: Frame, logs: seq<Log>)
    requires Aligned(s.columns, ColumnNames(dt), f) && LogColumns(dt) <= s.columns
    requires Process(dt, s, f, logs).error.None?
    requires forall log | log in logs && Stores(dt, s, log) :: IsOf(dt, log)
    ensures var kept := Filter(Stored(dt, s), logs);
            && (forall log | log in kept :: IsOf(dt, log))
            && (ReadTable(Process(dt, s, f, logs).state, f.nRows, RebuildLog(dt)) == ShownAll(s.columns, kept) <==>
                forall log | log in kept :: Fits(dt, log))
  {
    var kept := Filter(Stored(dt, s), logs);
    FilterMembers(Stored(dt, s), logs);
    ProcessAddsRows(dt, s, f, f, logs);
    RowsSayLogs(dt, s.columns, f, kept);
    SameTable(Process(dt, s, f, logs).state, AddRows(s.columns, f, RowsOf(dt, kept)).state, f.nRows, RebuildLog(dt));
    ToldAllIff(s.columns, dt, kept);
  }

  lemma SizeSaid(schema: Schema, read: Reader, log: Log)
    requires Located(log) && Says(schema, read, ColumnNames(Logs), RowOf(Logs, log)) && {Data, NDataBytes} <= schema
    ensures read(Data) == Ok(Bin(log.data)) && read(NDataBytes) == Ok(Num(|log.data|))
  {
    RowParts(schema, read, Logs, log);
    var names, cells := OwnNames(Logs), OwnCells(Logs, log);
    assert SaysAt(schema, read, names[1], cells[1].cell) && SaysAt(schema, read, names[2], cells[2].cell);
  }

  predicate SaysSize(read: Reader) {
    read(Data).Ok? && read(NDataBytes) == Ok(Num(|BinAt(read, Data)|))
  }

  lemma SizesOfRows(schema: Schema, f: Frame, kept: seq<Log>, i: nat)
    requires (forall log | log in kept :: Located(log)) && i < |kept|
    requires Aligned(schema, ColumnNames(Logs), f) && {Data, NDataBytes} <= schema
    requires AddRows(schema, f, RowsOf(Logs, kept)).error.None?
    ensures SaysSize(TableRow(AddRows(schema, f, RowsOf(Logs, kept)).state, f.nRows + i))
  {
    var rows := RowsOf(Logs, kept);
    NamesDistinct(Logs);
    forall r | r in rows
      ensures Names(r, ColumnNames(Logs))
    {
      var k :| 0 <= k < |kept| && r == RowOf(Logs, kept[k]);
      RowNames(Logs, kept[k]);
    }
    StoredRowsSay(schema, ColumnNames(Logs), f, rows, i);
    SizeSaid(schema, TableRow(AddRows(schema, f, rows).state, f.nRows + i), kept[i]);
  }

  // Beside the data of a raw log stands its number of bytes.
  lemma SizesStored(s: LogSchema, f: Frame, logs: seq<Log>)
    requires Aligned(s.columns, ColumnNames(Logs), f) && {Data, NDataBytes} <= s.columns
    requires Process(Logs, s, f, logs).error.None?
    ensures var g := Process(Logs, s, f, logs).state; forall i | f.nRows <= i < g.nRows :: SaysSize(TableRow(g, i))
  {
    var g, kept := Process(Logs, s, f, logs).state, Filter(Stored(Logs, s), logs);
    ProcessAddsRows(Logs, s, f, f, logs);
    RowsCount(s.columns, f, RowsOf(Logs, kept));
    forall i | f.nRows <= i < g.nRows
      ensures SaysSize(TableRow(g, i))
    {
      SizesOfRows(s.columns, f, kept, i - f.nRows);
      assert TableRow(g, i) == TableRow(AddRows(s.columns, f, RowsOf(Logs, kept)).state, i);
    }
  }

  predicate SaysPlace(read: Reader) {
    read(BlockNumber).Ok? && read(TransactionIndex).Ok? && read(LogIndex).Ok? && read(TransactionHash).Ok? &&
    read(BlockNumber).value.Num? && read(TransactionIndex).value.Num? && read(LogIndex).value.Num? &&
    read(TransactionHash).value.Num?
  }

  lemma PlaceShown(schema: Schema, read: Reader, dt: Datatype, log: Log)
    requires Located(log) && Says(schema, read, ColumnNames(dt), RowOf(dt, log))
    requires {BlockNumber, TransactionIndex, LogIndex, TransactionHash} <= schema
    ensures SaysPlace(read)
  {
    RowParts(schema, read, dt, log);
    PlaceSaid(schema, read, log);
  }

  lemma PlacesOfRows(dt: Datatype, schema: Schema, f: Frame, kept: seq<Log>, i: nat)
    requires (forall log | log in kept :: Located(log)) && i < |kept|
    requires Aligned(schema, ColumnNames(dt), f)
    requires {BlockNumber, TransactionIndex, LogIndex, TransactionHash} <= schema
    requires AddRows(schema, f, RowsOf(dt, kept)).error.None?
    ensures SaysPlace(TableRow(AddRows(schema, f, RowsOf(dt, kept)).state, f.nRows + i))
  {
    var rows := RowsOf(dt, kept);
    NamesDistinct(dt);
    forall r | r in rows
      ensures Names(r, ColumnNames(dt))
    {
      var k :| 0 <= k < |kept| && r == RowOf(dt, kept[k]);
      RowNames(dt, kept[k]);
    }
    StoredRowsSay(schema, ColumnNames(dt), f, rows, i);
    PlaceShown(schema, TableRow(AddRows(schema, f, rows).state, f.nRows + i), dt, kept[i]);
  }

  // No row of a log has a blank in its place: its block, its transaction with its hash, and its
  // position in the block.
  lemma PlacesStored(dt: Datatype, s: LogSchema, f: Frame, logs: seq<Log>)
    requires Aligned(s.columns, ColumnNames(dt), f)
    requires {BlockNumber, TransactionIndex, LogIndex, TransactionHash} <= s.columns
    requires Process(dt, s, f, logs).error.None?
    ensures var g := Process(dt, s, f, logs).state; forall i | f.nRows <= i < g.nRows :: SaysPlace(TableRow(g, i))
  {
    var g, kept := Process(dt, s, f, logs).state, Filter(Stored(dt, s), logs);
    ProcessAddsRows(dt, s, f, f, logs);
    RowsCount(s.columns, f, RowsOf(dt, kept));
    forall i | f.nRows <= i < g.nRows
      ensures SaysPlace(TableRow(g, i))
    {
      PlacesOfRows(dt, s.columns, f, kept, i - f.nRows);
      assert TableRow(g, i) == TableRow(AddRows(s.columns, f, RowsOf(dt, kept)).state, i);
    }
  }

  lemma SameTable<T>(f: Frame, g: Frame, from: nat, parse: Reader -> T)
    requires SameColumns(f, g)
    ensures ReadTable(f, from, parse) == ReadTable(g, from, parse)
  {
    forall i: nat
      ensures TableRow(f, i) == TableRow(g, i)
    {
    }
  }

  lemma ShownIff(schema: Schema, dt: Datatype, log: Log)
    requires IsOf(dt, log)
    ensures Shown(schema, Told(dt, log)) == Shown(schema, log) <==> Fits(dt, log)
  {
    ToldWholeIff(dt, log);
    assert Told(dt, log) == log.(topics := Told(dt, log).topics);
  }

  lemma ToldAllIff(schema: Schema, dt: Datatype, logs: seq<Log>)
    requires forall log | log in logs :: IsOf(dt, log)
    ensures ToldAll(schema, dt, logs) == ShownAll(schema, logs) <==> forall log | log in logs :: Fits(dt, log)
  {
    var told, shown := ToldAll(schema, dt, logs), ShownAll(schema, logs);
    forall i | 0 <= i < |logs|
      ensures told[i] == shown[i] <==> Fits(dt, logs[i])
    {
      ShownIff(schema, dt, logs[i]);
    }
    if told == shown {
      forall log | log in logs
        ensures Fits(dt, log)
      {
        var i :| 0 <= i < |logs| && logs[i] == log;
        assert told[i] == shown[i];
      }
    }
  }
}
