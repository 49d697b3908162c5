// ERC-1155 transfers: single and batch events as one row a token id, from which the batches
// can be put together again.
module Erc1155Transfers {
  import opened Prelude
  import opened RpcParams
  import opened Columns
  import opened LogDatasets

  const SINGLE: B256 := 0xc3d58168c5ae7397731d063d5bbf3d657854427343f4c083240f7aacaa2d0f62
  const BATCH: B256 := 0x4a39dc06d4c0dbc64b70af90fd698a233a518aa5d07e595d983b8c0526c8f7fb

  // --- extraction ---

  predicate IsErc1155Transfer(log: Log) {
    |log.topics| == 4 && HasSignature(log, {SINGLE, BATCH})
  }

  function Transfers(): Log -> bool {
    log => IsErc1155Transfer(log)
  }

  function TransferSlots(p: Params): Result<Topics> {
    var operator :- OptionalTopic(p.topic1, "topic1");
    var from :- AddressSlot(p.fromAddress, "from_address");
    var to :- AddressSlot(p.toAddress, "to_address");
    Ok([{SINGLE, BATCH}, operator, from, to])
  }

  // `operator` is indexed first, so the parties sit one slot later than for ERC-20.
  method ExtractByBlock(p: Params, universe: seq<Mined>) returns (r: Result<seq<Log>>)
    ensures TransferSlots(p).Err? ==> r == Err(TransferSlots(p).error)
    ensures TransferSlots(p).Ok? && EthersLogFilter(p).Err? ==> r == Err(EthersLogFilter(p).error)
    ensures TransferSlots(p).Ok? && EthersLogFilter(p).Ok? ==>
              r == Ok(Filter(ByTransactionKept(p), GetLogs(universe, RangeFilter(p))))
  {
    var topics := ANY_TOPICS;
    topics := topics[0 := {SINGLE, BATCH}];
    if p.topic1.Some? {
      var operator :- FixedTopic(p.topic1.value, "topic1");
      topics := topics[1 := {operator}];
    }
    if p.fromAddress.Some? {
      match AddressDimAsTopic(p.fromAddress.value)
      case None => return Err(TooWide("from_address"));
      case Some(v) => topics := topics[2 := {v}];
    }
    if p.toAddress.Some? {
      match AddressDimAsTopic(p.toAddress.value)
      case None => return Err(TooWide("to_address"));
      case Some(v) => topics := topics[3 := {v}];
    }
    assert topics == TransferSlots(p).value;
    var base :- EthersLogFilter(p);
    r := Ok(Filter(Transfers(), GetLogs(universe, base.(topics := topics))));
    ExtractionsAgree(p, universe);
  }

  // The by-transaction extractor: the dimensions are re-applied on the client.
  predicate ByTransactionKeeps(p: Params, log: Log) {
    && IsErc1155Transfer(log) && LogAddressMatches(log, p.address) && TopicMatches(log, 1, p.topic1)
    && AddressTopicMatches(log, 2, p.fromAddress) && AddressTopicMatches(log, 3, p.toAddress)
  }

  function ByTransactionKept(p: Params): Log -> bool {
    log => ByTransactionKeeps(p, log)
  }

  // Every log of the block range, whatever its address and topics.
  function RangeFilter(p: Params): LogFilter
    requires EthersLogFilter(p).Ok?
  {
    EthersLogFilter(p).value.(address := None, topics := ANY_TOPICS)
  }

  lemma NodeThenShape(p: Params, m: Mined)
    requires TransferSlots(p).Ok? && EthersLogFilter(p).Ok?
    ensures NodeSelects(EthersLogFilter(p).value.(topics := TransferSlots(p).value), m) && IsErc1155Transfer(m.log) <==>
            NodeSelects(RangeFilter(p), m) && ByTransactionKeeps(p, m.log)
  {
    var slots := TransferSlots(p).value;
    assert SlotAdmits(slots[1], m.log, 1) <==> SlotAdmits(OptionalTopic(p.topic1, "topic1").value, m.log, 1);
    assert SlotAdmits(slots[2], m.log, 2) <==> SlotAdmits(AddressSlot(p.fromAddress, "from_address").value, m.log, 2);
    assert SlotAdmits(slots[3], m.log, 3) <==> SlotAdmits(AddressSlot(p.toAddress, "to_address").value, m.log, 3);
  }

  // Asking the node for the narrowed topics and checking the shape gives exactly the logs of
  // the range that the by-transaction check keeps.
  lemma ExtractionsAgree(p: Params, universe: seq<Mined>)
    requires TransferSlots(p).Ok? && EthersLogFilter(p).Ok?
    ensures Filter(Transfers(), GetLogs(universe, EthersLogFilter(p).value.(topics := TransferSlots(p).value))) ==
            Filter(ByTransactionKept(p), GetLogs(universe, RangeFilter(p)))
  {
    var narrow, wide := EthersLogFilter(p).value.(topics := TransferSlots(p).value), RangeFilter(p);
    var both := (m: Mined) => NodeSelects(narrow, m) && IsErc1155Transfer(m.log);
    FilterLogs(Transfers(), Filter(Selector(narrow), universe));
    FilterLogs(ByTransactionKept(p), Filter(Selector(wide), universe));
    FilterTwice(Selector(narrow), OnLog(Transfers()), both, universe);
    forall m | m in universe
      ensures both(m) <==> Selector(wide)(m) && OnLog(ByTransactionKept(p))(m)
    {
      NodeThenShape(p, m);
    }
    FilterTwice(Selector(wide), OnLog(ByTransactionKept(p)), both, universe);
  }

  // --- decoding ---

  datatype SingleEvent = SingleEvent(operator: Address, from: Address, to: Address, id: nat, value: nat)
  datatype BatchEvent = BatchEvent(operator: Address, from: Address, to: Address, ids: seq<nat>, values: seq<nat>)

  // The ABI decoders, which reject a body that is no such event.
  datatype Abi = Abi(single: Log -> Option<SingleEvent>, batch: Log -> Option<BatchEvent>)

  datatype Transfer = Transfer(
    operator: Address,
    from: Address,
    to: Address,
    isBatch: bool,
    items: seq<(nat, nat)>
  )

  function Zip(ids: seq<nat>, values: seq<nat>): seq<(nat, nat)>
    requires |ids| == |values|
  {
    seq(|ids|, i requires 0 <= i < |ids| => (ids[i], values[i]))
  }

  function DecodeTransfer(abi: Abi, log: Log): Option<Transfer> {
    if log.topics == [] then None
    else if log.topics[0] == SINGLE then
      match abi.single(log)
      case None => None
      case Some(e) => Some(Transfer(e.operator, e.from, e.to, false, [(e.id, e.value)]))
    else if log.topics[0] == BATCH then
      match abi.batch(log)
      case None => None
      case Some(e) =>
        if |e.ids| != |e.values| then None
        else Some(Transfer(e.operator, e.from, e.to, true, Zip(e.ids, e.values)))
    else None
  }

  // --- rows ---

  // One item of one transfer log.
  datatype Move = Move(log: Log, transfer: Transfer, index: nat)

  predicate IsMove(m: Move) {
    Located(m.log) && m.index < |m.transfer.items|
  }

  function MoveRow(m: Move): Row
    requires IsMove(m)
  {
    MovePlaceCells(m) + MovePartyCells(m)
  }

  function MovePlaceCells(m: Move): Row
    requires IsMove(m)
  {
    [Entry(BlockNumber, NumCell(ToU32(m.log.blockNumber.value))),
     Entry(BlockHash, OptNumCell(m.log.blockHash)),
     Entry(TransactionIndex, NumCell(ToU32(m.log.transactionIndex.value))),
     Entry(LogIndex, NumCell(ToU32(m.log.logIndex.value))),
     Entry(TokenIdIndex, NumCell(ToU32(m.index))),
     Entry(TransactionHash, OptNumCell(m.log.transactionHash)),
     Entry(Erc1155, Ok(Num(m.log.address)))]
  }

  function MovePartyCells(m: Move): Row
    requires IsMove(m)
  {
    var (id, value) := m.transfer.items[m.index];
    [Entry(Operator, Ok(Num(m.transfer.operator))),
     Entry(FromAddress, Ok(Num(m.transfer.from))),
     Entry(ToAddress, Ok(Num(m.transfer.to))),
     Entry(TokenId, Ok(Num(id))),
     Entry(Value, Ok(Num(value))),
     Entry(IsBatch, Ok(Flag(m.transfer.isBatch))),
     Entry(IsMint, Ok(Flag(m.transfer.from == 0))),
     Entry(IsBurn, Ok(Flag(m.transfer.to == 0)))]
  }

  function TransferMoves(log: Log, t: Transfer, from: nat): (moves: seq<Move>)
    requires Located(log) && from <= |t.items|
    ensures forall m | m in moves :: IsMove(m)
    decreases |t.items| - from
  {
    if from == |t.items| then [] else [Move(log, t, from)] + TransferMoves(log, t, from + 1)
  }

  // A log without its place, and one that is no recoverable transfer, contributes nothing.
  function LogMoves(abi: Abi, log: Log): (moves: seq<Move>)
    ensures forall m | m in moves :: IsMove(m)
  {
    if !Located(log) || DecodeTransfer(abi, log).None? then []
    else TransferMoves(log, DecodeTransfer(abi, log).value, 0)
  }

  function Moves(abi: Abi, logs: seq<Log>): (moves: seq<Move>)
    ensures forall m | m in moves :: IsMove(m)
  {
    if logs == [] then [] else LogMoves(abi, logs[0]) + Moves(abi, logs[1..])
  }

  function MoveRows(moves: seq<Move>): (rows: seq<Row>)
    requires forall m | m in moves :: IsMove(m)
    ensures |rows| == |moves| && forall i | 0 <= i < |rows| :: rows[i] == MoveRow(moves[i])
  {
    seq(|moves|, i requires 0 <= i < |moves| => MoveRow(moves[i]))
  }

  lemma MoveRowsJoin(a: seq<Move>, b: seq<Move>)
    requires (forall m | m in a :: IsMove(m)) && (forall m | m in b :: IsMove(m))
    ensures MoveRows(a + b) == MoveRows(a) + MoveRows(b)
  {
  }

  method StoreTransfer(log: Log, t: Transfer, table: Table, schema: Schema) returns (error: Option<Error>)
    requires Located(log)
    modifies table
    ensures Outcome(table.View(), error) == AddRows(schema, old(table.View()), MoveRows(TransferMoves(log, t, 0)))
  {
    error := None;
    for k := 0 to |t.items|
      invariant error.None?
      invariant AddRows(schema, table.View(), MoveRows(TransferMoves(log, t, k))) ==
                AddRows(schema, old(table.View()), MoveRows(TransferMoves(log, t, 0)))
    {
      MoveRowsJoin([Move(log, t, k)], TransferMoves(log, t, k + 1));
      assert MoveRows(TransferMoves(log, t, k))[1..] == MoveRows(TransferMoves(log, t, k + 1));
      error := table.PushRow(schema, MoveRow(Move(log, t, k)));
      if error.Some? {
        return;
      }
    }
  }

  method ProcessTransfers(abi: Abi, logs: seq<Log>, table: Table, schema: Schema) returns (error: Option<Error>)
    modifies table
    ensures Outcome(table.View(), error) == AddRows(schema, old(table.View()), MoveRows(Moves(abi, logs)))
  {
    error := None;
    for i := 0 to |logs|
      invariant error.None?
      invariant AddRows(schema, table.View(), MoveRows(Moves(abi, logs[i..]))) ==
                AddRows(schema, old(table.View()), MoveRows(Moves(abi, logs)))
    {
      var log := logs[i];
      assert logs[i..][1..] == logs[i + 1..];
      MoveRowsJoin(LogMoves(abi, log), Moves(abi, logs[i + 1..]));
      AddRowsAppend(schema, table.View(), MoveRows(LogMoves(abi, log)), MoveRows(Moves(abi, logs[i + 1..])));
      if !Located(log) {
        continue;
      }
      var transfer := DecodeTransfer(abi, log);
      if transfer.None? {
        continue;
      }
      error := StoreTransfer(log, transfer.value, table, schema);
      if error.Some? {
        return;
      }
    }
  }
}
