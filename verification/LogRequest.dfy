// What the user asked for, in the user's own terms: a block range, the bytes given for each
// dimension, and the kind of a log. The single and the coalesced log collections return exactly
// that.
module LogRequest {
  import opened Prelude
  import opened RpcParams
  import opened Columns
  import opened LogDatasets
  import opened LogEvents
  import opened LogEquivalence
  import opened Erc1155Transfers

  // --- the request ---

  predicate InRange(range: Option<(nat, nat)>, block: nat) {
    range.Some? && range.value.0 <= block <= range.value.1
  }

  // Emitted by the 20 bytes given, if any are.
  predicate EmittedBy(dim: Option<Bytes>, log: Log) {
    dim.Some? ==> |dim.value| == 20 && log.address == FromBytes(dim.value)
  }

  // The topic at this position is the 32 bytes given, if any are.
  predicate HasWord(dim: Option<Bytes>, log: Log, pos: nat) {
    dim.Some? ==> |dim.value| == 32 && pos < |log.topics| && log.topics[pos] == FromBytes(dim.value)
  }

  function Zeros(n: nat): Bytes {
    seq(n, _ => 0)
  }

  // The topic at this position is a word that ends in the bytes given and is zero before them.
  predicate HasParty(dim: Option<Bytes>, log: Log, pos: nat) {
    dim.Some? ==>
      |dim.value| <= 32 && pos < |log.topics| && log.topics[pos] == FromBytes(Zeros(32 - |dim.value|) + dim.value)
  }

  predicate HasParties(p: Params, log: Log, pos: nat) {
    HasParty(p.fromAddress, log, pos) && HasParty(p.toAddress, log, pos + 1)
  }

  predicate StartsWith(log: Log, signatures: set<B256>) {
    log.topics != [] && log.topics[0] in signatures
  }

  // A log of the dataset, with the topics that the user asked for.
  predicate IsAsked(dt: Datatype, p: Params, log: Log) {
    match dt
    case Logs =>
      HasWord(p.topic0, log, 0) && HasWord(p.topic1, log, 1) && HasWord(p.topic2, log, 2) && HasWord(p.topic3, log, 3)
    case Erc20Transfers =>
      |log.topics| == 3 && |log.data| == 32 && StartsWith(log, {TRANSFER}) && HasParties(p, log, 1)
    case Erc20Approvals =>
      |log.topics| == 3 && |log.data| == 32 && StartsWith(log, {APPROVAL}) && HasParties(p, log, 1)
    case Erc721Transfers =>
      |log.topics| == 4 && |log.data| == 0 && StartsWith(log, {TRANSFER}) && HasParties(p, log, 1)
    case Erc20WrapperEvents =>
      |log.topics| == 2 && |log.data| == 32 && StartsWith(log, {DEPOSIT, WITHDRAWAL}) && HasWord(p.topic1, log, 1)
    case Other(_) => false
  }

  function Asked(dt: Datatype, p: Params): Mined -> bool {
    (m: Mined) => InRange(p.blockRange, m.block) && EmittedBy(p.address, m.log) && IsAsked(dt, p, m.log)
  }

  // --- which requests are accepted ---

  predicate Wide(dim: Option<Bytes>, width: nat) {
    dim.Some? ==> |dim.value| == width
  }

  predicate AtMost(dim: Option<Bytes>, width: nat) {
    dim.Some? ==> |dim.value| <= width
  }

  predicate BaseAcceptable(p: Params) {
    && p.blockRange.Some? && Wide(p.address, 20)
    && Wide(p.topic0, 32) && Wide(p.topic1, 32) && Wide(p.topic2, 32) && Wide(p.topic3, 32)
  }

  predicate Acceptable(dt: Datatype, p: Params) {
    BaseAcceptable(p) &&
    (dt in {Erc20Transfers, Erc20Approvals, Erc721Transfers} ==> AtMost(p.fromAddress, 32) && AtMost(p.toAddress, 32))
  }

  lemma BaseAcceptedIff(p: Params)
    ensures EthersLogFilter(p).Ok? <==> BaseAcceptable(p)
  {
    assert OptionalTopic(p.topic0, "topic0").Ok? <==> Wide(p.topic0, 32);
    assert OptionalTopic(p.topic1, "topic1").Ok? <==> Wide(p.topic1, 32);
    assert OptionalTopic(p.topic2, "topic2").Ok? <==> Wide(p.topic2, 32);
    assert OptionalTopic(p.topic3, "topic3").Ok? <==> Wide(p.topic3, 32);
  }

  lemma AcceptedIff(dt: Datatype, p: Params)
    requires !dt.Other?
    ensures ScalarFilter(dt, p).Ok? <==> Acceptable(dt, p)
  {
    BaseAcceptedIff(p);
    assert AddressSlot(p.fromAddress, "from_address").Ok? <==> AtMost(p.fromAddress, 32);
    assert AddressSlot(p.toAddress, "to_address").Ok? <==> AtMost(p.toAddress, 32);
    assert OptionalTopic(p.topic1, "topic1").Ok? <==> Wide(p.topic1, 32);
  }

  // The dimension that the user gave under this name.
  function Named(p: Params, name: string): Option<Bytes> {
    if name == "address" then p.address
    else if name == "topic0" then p.topic0
    else if name == "topic1" then p.topic1
    else if name == "topic2" then p.topic2
    else if name == "topic3" then p.topic3
    else if name == "from_address" then p.fromAddress
    else if name == "to_address" then p.toAddress
    else None
  }

  // An error that names a dimension which the user gave, and what is wrong with its width.
  predicate IsRefusal(p: Params, e: Error) {
    match e
    case Missing(_) => p.blockRange.None?
    case WrongWidth(name, want, got) =>
      Named(p, name).Some? && |Named(p, name).value| == got != want && want == if name == "address" then 20 else 32
    case TooWide(name) => Named(p, name).Some? && |Named(p, name).value| > 32
    case _ => false
  }

  lemma TopicRefusal(p: Params, name: string)
    requires name in {"topic0", "topic1", "topic2", "topic3"}
    ensures OptionalTopic(Named(p, name), name).Err? ==> IsRefusal(p, OptionalTopic(Named(p, name), name).error)
  {
  }

  lemma PartyRefusal(p: Params, name: string)
    requires name in {"from_address", "to_address"}
    ensures AddressSlot(Named(p, name), name).Err? ==> IsRefusal(p, AddressSlot(Named(p, name), name).error)
  {
  }

  lemma BaseRefusal(p: Params)
    requires EthersLogFilter(p).Err?
    ensures IsRefusal(p, EthersLogFilter(p).error)
  {
    TopicRefusal(p, "topic0");
    TopicRefusal(p, "topic1");
    TopicRefusal(p, "topic2");
    TopicRefusal(p, "topic3");
  }

  // A collection that is not accepted ends with an error that says which dimension is at fault.
  lemma RefusalNamesDimension(dt: Datatype, p: Params)
    requires !dt.Other? && ScalarFilter(dt, p).Err?
    ensures IsRefusal(p, ScalarFilter(dt, p).error)
  {
    if EthersLogFilter(p).Err? {
      BaseRefusal(p);
    }
    TopicRefusal(p, "topic1");
    PartyRefusal(p, "from_address");
    PartyRefusal(p, "to_address");
  }

  // --- the two ways of saying it ---

  lemma BaseIsAsked(p: Params, m: Mined)
    requires BaseAcceptable(p)
    ensures InBase(p, m) <==> InRange(p.blockRange, m.block) && EmittedBy(p.address, m.log)
  {
    BaseAcceptedIff(p);
    assert p.address.Some? ==> FixedAddress(p.address.value, "address") == Ok(FromBytes(p.address.value));
  }

  lemma PartyIsAsked(dim: Option<Bytes>, log: Log, pos: nat)
    ensures AddressTopicMatches(log, pos, dim) <==> HasParty(dim, log, pos)
  {
    if dim.Some? && |dim.value| <= 32 {
      LeftPadKeepsNumber(32 - |dim.value|, dim.value);
    }
  }

  lemma MatchIsAsked(dt: Datatype, p: Params, log: Log)
    ensures Matches(dt, p, log) <==> IsAsked(dt, p, log)
  {
    PartyIsAsked(p.fromAddress, log, 1);
    PartyIsAsked(p.toAddress, log, 2);
  }

  // Nothing is asked of a dataset that the request is not acceptable for.
  lemma UnacceptableAsksNothing(dt: Datatype, p: Params, m: Mined)
    requires BaseAcceptable(p) && !Acceptable(dt, p)
    ensures !Asked(dt, p)(m)
  {
  }

  lemma WantedIsAsked(dt: Datatype, p: Params, m: Mined)
    requires BaseAcceptable(p)
    ensures Wanted(dt, p)(m) <==> Asked(dt, p)(m)
  {
    BaseIsAsked(p, m);
    MatchIsAsked(dt, p, m.log);
  }

  // A single collection is accepted exactly when the given bytes have the right widths, and then
  // returns exactly the logs that were asked for, in their order.
  lemma SingleReturnsAsked(dt: Datatype, p: Params, universe: seq<Mined>)
    requires !dt.Other?
    ensures ScalarExtract(dt, p, universe).Ok? <==> Acceptable(dt, p)
    ensures Acceptable(dt, p) ==> ScalarExtract(dt, p, universe) == Ok(LogsIn(Filter(Asked(dt, p), universe)))
  {
    AcceptedIff(dt, p);
    if Acceptable(dt, p) {
      ScalarRows(dt, p, universe);
      forall m | m in universe
        ensures Wanted(dt, p)(m) == Asked(dt, p)(m)
      {
        WantedIsAsked(dt, p, m);
      }
      FilterCongruent(Wanted(dt, p), Asked(dt, p), universe);
    }
  }

  // The share of a coalesced collection is what was asked of each member, in order, whenever the
  // shared part of the request is acceptable.
  lemma ShareReturnsAsked(dt: Datatype, p: Params, active: set<Datatype>, universe: seq<Mined>)
    requires dt in active && !dt.Other?
    ensures UnionFilter(p, active).Ok? <==> BaseAcceptable(p)
    ensures BaseAcceptable(p) ==>
              Share(dt, p, GetLogs(universe, UnionFilter(p, active).value)) == LogsIn(Filter(Asked(dt, p), universe))
  {
    BaseAcceptedIff(p);
    if BaseAcceptable(p) {
      UnionRows(dt, p, active, universe);
      forall m | m in universe
        ensures Wanted(dt, p)(m) == Asked(dt, p)(m)
      {
        WantedIsAsked(dt, p, m);
      }
      FilterCongruent(Wanted(dt, p), Asked(dt, p), universe);
    }
  }

  function AskedLogs(dt: Datatype, p: Params): Log -> bool {
    (log: Log) => EmittedBy(p.address, log) && IsAsked(dt, p, log)
  }

  // By transaction: the checks of a dataset on its own keep what was asked for, in order, but for
  // the range, which a transaction has no need of.
  lemma TransactionReturnsAsked(dt: Datatype, p: Params, receipt: seq<Log>)
    ensures ScalarTxExtract(dt, p, receipt) == Filter(AskedLogs(dt, p), receipt)
  {
    forall log | log in receipt
      ensures ScalarTxKept(dt, p)(log) == AskedLogs(dt, p)(log)
    {
      PartyIsAsked(p.fromAddress, log, 1);
      PartyIsAsked(p.toAddress, log, 2);
    }
    FilterCongruent(ScalarTxKept(dt, p), AskedLogs(dt, p), receipt);
  }

  // --- ERC-1155, with its parties one position later ---

  function Asked1155(p: Params): Mined -> bool {
    (m: Mined) =>
      && InRange(p.blockRange, m.block) && EmittedBy(p.address, m.log)
      && |m.log.topics| == 4 && StartsWith(m.log, {SINGLE, BATCH})
      && HasWord(p.topic1, m.log, 1) && HasParties(p, m.log, 2)
  }

  lemma Accepted1155Iff(p: Params)
    ensures TransferSlots(p).Ok? && EthersLogFilter(p).Ok? <==>
            BaseAcceptable(p) && AtMost(p.fromAddress, 32) && AtMost(p.toAddress, 32)
  {
    BaseAcceptedIff(p);
    assert AddressSlot(p.fromAddress, "from_address").Ok? <==> AtMost(p.fromAddress, 32);
    assert AddressSlot(p.toAddress, "to_address").Ok? <==> AtMost(p.toAddress, 32);
    assert OptionalTopic(p.topic1, "topic1").Ok? <==> Wide(p.topic1, 32);
  }

  lemma Refusal1155NamesDimension(p: Params)
    requires TransferSlots(p).Err?
    ensures IsRefusal(p, TransferSlots(p).error)
  {
    TopicRefusal(p, "topic1");
    PartyRefusal(p, "from_address");
    PartyRefusal(p, "to_address");
  }

  lemma Match1155IsAsked(p: Params, m: Mined)
    requires BaseAcceptable(p) && EthersLogFilter(p).Ok?
    ensures NodeSelects(RangeFilter(p), m) && ByTransactionKeeps(p, m.log) <==> Asked1155(p)(m)
  {
    PartyIsAsked(p.fromAddress, m.log, 2);
    PartyIsAsked(p.toAddress, m.log, 3);
  }

  // What the ERC-1155 extractor returns.
  lemma TransfersAreAsked(p: Params, universe: seq<Mined>)
    requires EthersLogFilter(p).Ok?
    ensures Filter(ByTransactionKept(p), GetLogs(universe, RangeFilter(p))) ==
            LogsIn(Filter(Asked1155(p), universe))
  {
    BaseAcceptedIff(p);
    FilterLogs(ByTransactionKept(p), Filter(Selector(RangeFilter(p)), universe));
    forall m | m in universe
      ensures Asked1155(p)(m) <==> Selector(RangeFilter(p))(m) && OnLog(ByTransactionKept(p))(m)
    {
      Match1155IsAsked(p, m);
    }
    FilterTwice(Selector(RangeFilter(p)), OnLog(ByTransactionKept(p)), Asked1155(p), universe);
  }

  // --- what is stored of the parties ---

  lemma PartyBytes(b: Bytes, log: Log, pos: nat)
    requires |b| == 20 && HasParty(Some(b), log, pos)
    ensures BytesOf(log.topics[pos], 32) == Zeros(12) + b
    ensures AccountCell(log, pos) == Ok(Num(FromBytes(b)))
  {
    LeftPadKeepsNumber(12, b);
    BytesOfRoundTrip(Zeros(12) + b);
    BytesFit(b);
  }

  // Every row of a log that was asked for by a 20-byte sender or receiver stores that party.
  lemma AskedPartyStored(dt: Datatype, p: Params, m: Mined)
    requires dt in {Erc20Transfers, Erc20Approvals, Erc721Transfers} && Asked(dt, p)(m)
    ensures p.fromAddress.Some? && |p.fromAddress.value| == 20 ==>
              OwnCells(dt, m.log)[1] == Entry(FromAddress, Ok(Num(FromBytes(p.fromAddress.value))))
    ensures p.toAddress.Some? && |p.toAddress.value| == 20 ==>
              OwnCells(dt, m.log)[2] == Entry(ToAddress, Ok(Num(FromBytes(p.toAddress.value))))
  {
    if p.fromAddress.Some? && |p.fromAddress.value| == 20 {
      PartyBytes(p.fromAddress.value, m.log, 1);
    }
    if p.toAddress.Some? && |p.toAddress.value| == 20 {
      PartyBytes(p.toAddress.value, m.log, 2);
    }
  }

  lemma PartyCellStored(dt: Datatype, log: Log, k: nat)
    requires dt in {Erc20Transfers, Erc20Approvals, Erc721Transfers} && Located(log) && (k == 1 || k == 2)
    ensures 5 + k < |RowOf(dt, log)| && RowOf(dt, log)[5 + k] == OwnCells(dt, log)[k]
    ensures 5 + k < |ColumnNames(dt)| && ColumnNames(dt)[5 + k] == if k == 1 then FromAddress else ToAddress
  {
  }

  // The columns of a single collection: with a 20-byte sender or receiver given, every new cell
  // of the column that names that party holds those bytes.
  lemma PartyColumns(dt: Datatype, p: Params, s: LogSchema, f: Frame, universe: seq<Mined>, k: nat, b: Bytes)
    requires dt in {Erc20Transfers, Erc20Approvals, Erc721Transfers} && Aligned(s.columns, ColumnNames(dt), f)
    requires (k == 1 && p.fromAddress == Some(b)) || (k == 2 && p.toAddress == Some(b))
    requires |b| == 20 && (if k == 1 then FromAddress else ToAddress) in s.columns
    requires ScalarCollect(dt, p, s, universe, f).error.None?
    ensures var g, c := ScalarCollect(dt, p, s, universe, f).state, if k == 1 then FromAddress else ToAddress;
            |Col(g.cells, c)| == g.nRows && forall i | f.nRows <= i < g.nRows :: Col(g.cells, c)[i] == Num(FromBytes(b))
  {
    var c := if k == 1 then FromAddress else ToAddress;
    var logs := ScalarExtract(dt, p, universe).value;
    var kept := Filter(Stored(dt, s), logs);
    SingleReturnsAsked(dt, p, universe);
    FilterMembers(Stored(dt, s), logs);
    FilterMembers(Asked(dt, p), universe);
    ProcessAddsRows(dt, s, f, f, logs);
    PartyRows(dt, s.columns, f, kept, k, c, FromBytes(b), p, universe);
  }

  lemma PartyRows(dt: Datatype, schema: Schema, f: Frame, kept: seq<Log>, k: nat, c: Column, party: nat, p: Params,
                  universe: seq<Mined>)
    requires dt in {Erc20Transfers, Erc20Approvals, Erc721Transfers} && Aligned(schema, ColumnNames(dt), f)
    requires (k == 1 || k == 2) && c == (if k == 1 then FromAddress else ToAddress) && c in schema
    requires forall log | log in kept :: Located(log) && log in LogsIn(Filter(Asked(dt, p), universe))
    requires AddRows(schema, f, RowsOf(dt, kept)).error.None?
    requires var dim := if k == 1 then p.fromAddress else p.toAddress;
             dim.Some? && |dim.value| == 20 && party == FromBytes(dim.value)
    ensures var g := AddRows(schema, f, RowsOf(dt, kept)).state;
            |Col(g.cells, c)| == g.nRows && forall i | f.nRows <= i < g.nRows :: Col(g.cells, c)[i] == Num(party)
  {
    var rows := RowsOf(dt, kept);
    NamesDistinct(dt);
    forall i | 0 <= i < |rows|
      ensures Names(rows[i], ColumnNames(dt)) && 5 + k < |rows[i]| && rows[i][5 + k] == Entry(c, Ok(Num(party)))
    {
      RowNames(dt, kept[i]);
      PartyCellStored(dt, kept[i], k);
      AskedLog(dt, p, universe, kept[i]);
    }
    PartyCellStoredAt(dt, k);
    ConstantColumn(schema, ColumnNames(dt), f, rows, 5 + k, Num(party));
  }

  lemma PartyCellStoredAt(dt: Datatype, k: nat)
    requires dt in {Erc20Transfers, Erc20Approvals, Erc721Transfers} && (k == 1 || k == 2)
    ensures 5 + k < |ColumnNames(dt)| && ColumnNames(dt)[5 + k] == if k == 1 then FromAddress else ToAddress
  {
  }

  // A column in which every new row has the same cell.
  lemma ConstantColumn(schema: Schema, names: seq<Column>, f: Frame, rows: seq<Row>, k: nat, cell: Cell)
    requires Aligned(schema, names, f) && Unique(names) && k < |names| && names[k] in schema
    requires forall r | r in rows :: Names(r, names)
    requires forall i | 0 <= i < |rows| :: k < |rows[i]| && rows[i][k].cell == Ok(cell)
    requires AddRows(schema, f, rows).error.None?
    ensures var g := AddRows(schema, f, rows).state;
            |Col(g.cells, names[k])| == g.nRows &&
            forall i | f.nRows <= i < g.nRows :: Col(g.cells, names[k])[i] == cell
  {
    var g := AddRows(schema, f, rows).state;
    RowsTranspose(schema, names, f, rows);
    forall i | f.nRows <= i < g.nRows
      ensures Col(g.cells, names[k])[i] == cell
    {
      assert Names(rows[i - f.nRows], names);
      StoredCell(schema, names, f, rows, i - f.nRows, k);
    }
  }

  lemma AskedLog(dt: Datatype, p: Params, universe: seq<Mined>, log: Log)
    requires dt in {Erc20Transfers, Erc20Approvals, Erc721Transfers} && log in LogsIn(Filter(Asked(dt, p), universe))
    ensures p.fromAddress.Some? && |p.fromAddress.value| == 20 ==>
              OwnCells(dt, log)[1] == Entry(FromAddress, Ok(Num(FromBytes(p.fromAddress.value))))
    ensures p.toAddress.Some? && |p.toAddress.value| == 20 ==>
              OwnCells(dt, log)[2] == Entry(ToAddress, Ok(Num(FromBytes(p.toAddress.value))))
  {
    FilterMembers(Asked(dt, p), universe);
    var mined := Filter(Asked(dt, p), universe);
    var i :| 0 <= i < |mined| && mined[i].log == log;
    assert mined[i] in mined;
    AskedPartyStored(dt, p, mined[i]);
  }
}
