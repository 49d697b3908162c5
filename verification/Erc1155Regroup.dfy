// Putting exploded ERC-1155 transfers together again, and the key of their rows.
module Erc1155Regroup {
  import opened Prelude
  import opened RpcParams
  import opened Columns
  import opened LogDatasets
  import opened Erc1155Transfers

  // --- reading a row ---

  // A transfer log as the rows tell it, without its items.
  datatype Place = Place(block: nat, logIndex: nat)
  datatype Parties = Parties(operator: Address, from: Address, to: Address)
  datatype Kind = Kind(isBatch: bool, isMint: bool, isBurn: bool)
  // What else the selected columns show of where the log stood.
  datatype Origin = Origin(transactionIndex: Option<nat>, transactionHash: Option<B256>, blockHash: Option<B256>)
  datatype Header = Header(place: Place, origin: Origin, contract: Address, parties: Parties, kind: Kind)

  datatype Said = Said(header: Header, index: nat, id: nat, value: nat)

  function PlaceOf(log: Log): Place
    requires Located(log)
  {
    Place(log.blockNumber.value, log.logIndex.value)
  }

  function OriginOf(schema: Schema, log: Log): Origin {
    Origin(SeenOpt(schema, TransactionIndex, log.transactionIndex),
           SeenOpt(schema, TransactionHash, log.transactionHash), SeenOpt(schema, BlockHash, log.blockHash))
  }

  // A transfer from the zero address is a mint, one to it a burn.
  function HeaderOf(schema: Schema, log: Log, t: Transfer): Header
    requires Located(log)
  {
    Header(PlaceOf(log), OriginOf(schema, log), log.address, Parties(t.operator, t.from, t.to),
           Kind(t.isBatch, t.from == 0, t.to == 0))
  }

  function SaidBy(schema: Schema, m: Move): Said
    requires IsMove(m)
  {
    Said(HeaderOf(schema, m.log, m.transfer), m.index, m.transfer.items[m.index].0, m.transfer.items[m.index].1)
  }

  function FlagAt(read: Reader, c: Column): bool {
    read(c) == Ok(Flag(true))
  }

  function ReadPlace(read: Reader): Place {
    Place(NumAt(read, BlockNumber), NumAt(read, LogIndex))
  }

  function ReadOrigin(read: Reader): Origin {
    Origin(OptNumAt(read, TransactionIndex), OptNumAt(read, TransactionHash), OptNumAt(read, BlockHash))
  }

  function ReadParties(read: Reader): Parties {
    Parties(NumAt(read, Operator), NumAt(read, FromAddress), NumAt(read, ToAddress))
  }

  function ReadKind(read: Reader): Kind {
    Kind(FlagAt(read, IsBatch), FlagAt(read, IsMint), FlagAt(read, IsBurn))
  }

  function ReadSaid(read: Reader): Said {
    Said(Header(ReadPlace(read), ReadOrigin(read), NumAt(read, Erc1155), ReadParties(read), ReadKind(read)),
         NumAt(read, TokenIdIndex), NumAt(read, TokenId), NumAt(read, Value))
  }

  const PLACE_NAMES: seq<Column> :=
    [BlockNumber, BlockHash, TransactionIndex, LogIndex, TokenIdIndex, TransactionHash, Erc1155]
  const PARTY_NAMES: seq<Column> :=
    [Operator, FromAddress, ToAddress, TokenId, Value, IsBatch, IsMint, IsBurn]
  const MOVE_NAMES: seq<Column> := PLACE_NAMES + PARTY_NAMES

  // The columns that a transfer log is put together from; the default selection has them all.
  const BATCH_COLUMNS: set<Column> :=
    {BlockNumber, LogIndex, TokenIdIndex, Erc1155, Operator, FromAddress, ToAddress, TokenId, Value, IsBatch, IsMint,
     IsBurn}

  lemma PartyNamesDistinct()
    ensures Unique(PARTY_NAMES) && forall c | c in PLACE_NAMES :: c !in PARTY_NAMES
  {
  }

  lemma MoveNamesDistinct()
    ensures Unique(MOVE_NAMES)
  {
    assert Unique(PLACE_NAMES);
    PartyNamesDistinct();
    UniqueJoinIff(PLACE_NAMES, PARTY_NAMES);
  }

  lemma PlaceNames(m: Move)
    requires IsMove(m)
    ensures Names(MovePlaceCells(m), PLACE_NAMES)
  {
  }

  lemma PartyNames(m: Move)
    requires IsMove(m)
    ensures Names(MovePartyCells(m), PARTY_NAMES)
  {
  }

  lemma MoveRowNames(m: Move)
    requires IsMove(m)
    ensures Names(MoveRow(m), MOVE_NAMES)
  {
    PlaceNames(m);
    PartyNames(m);
    NamesJoin(MovePlaceCells(m), PLACE_NAMES, MovePartyCells(m), PARTY_NAMES);
  }

  lemma PlaceSaid(schema: Schema, read: Reader, names: seq<Column>, m: Move)
    requires IsMove(m) && Names(MovePlaceCells(m), names) && Says(schema, read, names, MovePlaceCells(m))
    requires {BlockNumber, LogIndex, TokenIdIndex, Erc1155} <= schema
    ensures ReadPlace(read) == PlaceOf(m.log)
    ensures NumAt(read, TokenIdIndex) == m.index && NumAt(read, Erc1155) == m.log.address
  {
    var row := MovePlaceCells(m);
    assert read(BlockNumber) == row[0].cell by { SaysCell(schema, read, names, row, 0, row[0]); }
    assert read(LogIndex) == row[3].cell by { SaysCell(schema, read, names, row, 3, row[3]); }
    assert read(TokenIdIndex) == row[4].cell by { SaysCell(schema, read, names, row, 4, row[4]); }
    assert read(Erc1155) == row[6].cell by { SaysCell(schema, read, names, row, 6, row[6]); }
  }

  lemma OriginSaid(schema: Schema, read: Reader, names: seq<Column>, m: Move)
    requires IsMove(m) && Names(MovePlaceCells(m), names) && Says(schema, read, names, MovePlaceCells(m))
    ensures ReadOrigin(read) == OriginOf(schema, m.log)
  {
    var row := MovePlaceCells(m);
    SaysCell(schema, read, names, row, 1, row[1]);
    SaysCell(schema, read, names, row, 2, row[2]);
    SaysCell(schema, read, names, row, 5, row[5]);
  }

  lemma PartiesSaid(schema: Schema, read: Reader, names: seq<Column>, m: Move)
    requires IsMove(m) && Names(MovePartyCells(m), names) && Says(schema, read, names, MovePartyCells(m))
    requires {Operator, FromAddress, ToAddress} <= schema
    ensures ReadParties(read) == Parties(m.transfer.operator, m.transfer.from, m.transfer.to)
  {
    var row := MovePartyCells(m);
    assert read(Operator) == row[0].cell by { SaysCell(schema, read, names, row, 0, row[0]); }
    assert read(FromAddress) == row[1].cell by { SaysCell(schema, read, names, row, 1, row[1]); }
    assert read(ToAddress) == row[2].cell by { SaysCell(schema, read, names, row, 2, row[2]); }
  }

  lemma AmountSaid(schema: Schema, read: Reader, names: seq<Column>, m: Move)
    requires IsMove(m) && Names(MovePartyCells(m), names) && Says(schema, read, names, MovePartyCells(m))
    requires {TokenId, Value} <= schema
    ensures (NumAt(read, TokenId), NumAt(read, Value)) == m.transfer.items[m.index]
  {
    var row := MovePartyCells(m);
    assert read(TokenId) == row[3].cell by { SaysCell(schema, read, names, row, 3, row[3]); }
    assert read(Value) == row[4].cell by { SaysCell(schema, read, names, row, 4, row[4]); }
  }

  lemma KindSaid(schema: Schema, read: Reader, names: seq<Column>, m: Move)
    requires IsMove(m) && Names(MovePartyCells(m), names) && Says(schema, read, names, MovePartyCells(m))
    requires {IsBatch, IsMint, IsBurn} <= schema
    ensures ReadKind(read) == Kind(m.transfer.isBatch, m.transfer.from == 0, m.transfer.to == 0)
  {
    var row := MovePartyCells(m);
    assert read(IsBatch) == row[5].cell by { SaysCell(schema, read, names, row, 5, row[5]); }
    assert read(IsMint) == row[6].cell by { SaysCell(schema, read, names, row, 6, row[6]); }
    assert read(IsBurn) == row[7].cell by { SaysCell(schema, read, names, row, 7, row[7]); }
  }

  // A row says its log's place, contract, parties and kind, and its own item.
  lemma RowSaysMove(schema: Schema, names: seq<Column>, m: Move)
    requires IsMove(m) && Names(MoveRow(m), names) && BATCH_COLUMNS <= schema
    ensures Parses(schema, ReadSaid, names, MoveRow(m), SaidBy(schema, m))
  {
    forall read: Reader | Says(schema, read, names, MovePlaceCells(m) + MovePartyCells(m))
      ensures ReadSaid(read) == SaidBy(schema, m)
    {
      SaysParts(schema, read, names, MovePlaceCells(m), MovePartyCells(m));
      PlaceSaid(schema, read, names[..7], m);
      OriginSaid(schema, read, names[..7], m);
      PartiesSaid(schema, read, names[7..], m);
      AmountSaid(schema, read, names[7..], m);
      KindSaid(schema, read, names[7..], m);
    }
  }

  function SaidAll(schema: Schema, moves: seq<Move>): (said: seq<Said>)
    requires forall m | m in moves :: IsMove(m)
    ensures |said| == |moves| && forall i | 0 <= i < |said| :: said[i] == SaidBy(schema, moves[i])
  {
    seq(|moves|, i requires 0 <= i < |moves| => SaidBy(schema, moves[i]))
  }

  // What a table says from row `from` on.
  function TableSaid(f: Frame, from: nat): seq<Said> {
    ReadTable(f, from, ReadSaid)
  }

  // With these columns selected, the table that a successful call leaves says every move.
  lemma MovesStored(schema: Schema, f: Frame, moves: seq<Move>)
    requires forall m | m in moves :: IsMove(m)
    requires Aligned(schema, MOVE_NAMES, f) && BATCH_COLUMNS <= schema
    requires AddRows(schema, f, MoveRows(moves)).error.None?
    ensures TableSaid(AddRows(schema, f, MoveRows(moves)).state, f.nRows) == SaidAll(schema, moves)
  {
    var rows := MoveRows(moves);
    MoveNamesDistinct();
    forall i | 0 <= i < |rows|
      ensures Names(rows[i], MOVE_NAMES)
    {
      MoveRowNames(moves[i]);
    }
    forall i | 0 <= i < |rows|
      ensures Parses(schema, ReadSaid, MOVE_NAMES, rows[i], SaidAll(schema, moves)[i])
    {
      RowSaysMove(schema, MOVE_NAMES, moves[i]);
    }
    ReadStored(schema, MOVE_NAMES, f, rows, ReadSaid, SaidAll(schema, moves));
  }

  // --- regrouping ---

  // One transfer log, put together from its rows.
  datatype Group = Group(header: Header, items: seq<(nat, nat)>)

  // How many rows at the head go on with the transfer before them.
  function Run(said: seq<Said>): (n: nat)
    ensures n <= |said|
  {
    if said == [] || said[0].index == 0 then 0 else 1 + Run(said[1..])
  }

  function ItemsOf(said: seq<Said>): (items: seq<(nat, nat)>)
    ensures |items| == |said| && forall i | 0 <= i < |items| :: items[i] == (said[i].id, said[i].value)
  {
    seq(|said|, i requires 0 <= i < |said| => (said[i].id, said[i].value))
  }

  // A row at index 0 opens a transfer.
  function Regroup(said: seq<Said>): seq<Group>
    decreases |said|
  {
    if said == [] then []
    else
      var n := 1 + Run(said[1..]);
      [Group(said[0].header, ItemsOf(said[..n]))] + Regroup(said[n..])
  }

  // The logs that produce rows: located, decodable, with something moved.
  predicate Produces(abi: Abi, log: Log) {
    Located(log) && DecodeTransfer(abi, log).Some? && DecodeTransfer(abi, log).value.items != []
  }

  function Groups(schema: Schema, abi: Abi, logs: seq<Log>): seq<Group> {
    if logs == [] then []
    else if Produces(abi, logs[0]) then
      var t := DecodeTransfer(abi, logs[0]).value;
      [Group(HeaderOf(schema, logs[0], t), t.items)] + Groups(schema, abi, logs[1..])
    else Groups(schema, abi, logs[1..])
  }

  // A log produces rows exactly when it is located and is a readable single transfer, or a
  // readable batch of as many ids as values and at least one.
  lemma ProducesIff(abi: Abi, log: Log)
    ensures LogMoves(abi, log) != [] <==> Produces(abi, log)
    ensures Produces(abi, log) <==>
              Located(log) && log.topics != [] &&
              ((log.topics[0] == SINGLE && abi.single(log).Some?) ||
               (log.topics[0] == BATCH && abi.batch(log).Some? &&
                0 < |abi.batch(log).value.ids| == |abi.batch(log).value.values|))
  {
    if log.topics != [] && log.topics[0] == BATCH && abi.batch(log).Some? {
      var e := abi.batch(log).value;
      if |e.ids| == |e.values| {
        assert |Zip(e.ids, e.values)| == |e.ids|;
      }
    }
  }

  lemma {:induction false} MovesOfTransfer(log: Log, t: Transfer, from: nat)
    requires Located(log) && from <= |t.items|
    ensures |TransferMoves(log, t, from)| == |t.items| - from
    ensures forall i | 0 <= i < |t.items| - from :: TransferMoves(log, t, from)[i] == Move(log, t, from + i)
    decreases |t.items| - from
  {
    if from == |t.items| {
    } else {
      MovesOfTransfer(log, t, from + 1);
    }
  }

  lemma {:induction false} RunJoin(a: seq<Said>, b: seq<Said>)
    requires (forall s | s in a :: s.index != 0) && (b == [] || b[0].index == 0)
    ensures Run(a + b) == |a|
  {
    if a == [] {
      assert a + b == b;
    } else {
      assert (a + b)[1..] == a[1..] + b && a[0] in a;
      RunJoin(a[1..], b);
    }
  }

  lemma RegroupFirst(first: seq<Said>, rest: seq<Said>)
    requires first != [] && (forall i | 1 <= i < |first| :: first[i].index != 0)
    requires rest == [] || rest[0].index == 0
    ensures Regroup(first + rest) == [Group(first[0].header, ItemsOf(first))] + Regroup(rest)
  {
    var said := first + rest;
    assert said[1..] == first[1..] + rest;
    RunJoin(first[1..], rest);
    assert said[..|first|] == first && said[|first|..] == rest;
  }

  lemma SaidJoin(schema: Schema, a: seq<Move>, b: seq<Move>)
    requires (forall m | m in a :: IsMove(m)) && (forall m | m in b :: IsMove(m))
    ensures SaidAll(schema, a + b) == SaidAll(schema, a) + SaidAll(schema, b)
  {
  }

  lemma ProducerSays(schema: Schema, abi: Abi, log: Log)
    requires Produces(abi, log)
    ensures var t, said := DecodeTransfer(abi, log).value, SaidAll(schema, LogMoves(abi, log));
            && |said| == |t.items| && ItemsOf(said) == t.items
            && forall i | 0 <= i < |said| :: said[i].header == HeaderOf(schema, log, t) && said[i].index == i
  {
    MovesOfTransfer(log, DecodeTransfer(abi, log).value, 0);
  }

  lemma GroupInFront(first: seq<Said>, rest: seq<Said>, header: Header, items: seq<(nat, nat)>)
    requires first != [] && ItemsOf(first) == items && (rest == [] || rest[0].index == 0)
    requires forall i | 0 <= i < |first| :: first[i].header == header && first[i].index == i
    ensures Regroup(first + rest) == [Group(header, items)] + Regroup(rest)
  {
    RegroupFirst(first, rest);
  }

  lemma {:induction false} MovesRegroup(schema: Schema, abi: Abi, logs: seq<Log>)
    ensures var said := SaidAll(schema, Moves(abi, logs));
            Regroup(said) == Groups(schema, abi, logs) && (said != [] ==> said[0].index == 0)
    decreases |logs|
  {
    if logs == [] {
    } else {
      var first, rest := LogMoves(abi, logs[0]), Moves(abi, logs[1..]);
      MovesRegroup(schema, abi, logs[1..]);
      SaidJoin(schema, first, rest);
      ProducesIff(abi, logs[0]);
      if Produces(abi, logs[0]) {
        var t := DecodeTransfer(abi, logs[0]).value;
        ProducerSays(schema, abi, logs[0]);
        GroupInFront(SaidAll(schema, first), SaidAll(schema, rest), HeaderOf(schema, logs[0], t), t.items);
      } else {
        assert first + rest == rest;
      }
    }
  }

  // What a group says of a log as the event that the log is: one item of its own, or as many as
  // there are ids and values, each id beside its value.
  predicate TellsSingle(e: SingleEvent, g: Group) {
    g.header.parties == Parties(e.operator, e.from, e.to) && !g.header.kind.isBatch && g.items == [(e.id, e.value)]
  }

  predicate TellsBatch(e: BatchEvent, g: Group) {
    && g.header.parties == Parties(e.operator, e.from, e.to) && g.header.kind.isBatch
    && |g.items| == |e.ids| == |e.values| && forall i | 0 <= i < |g.items| :: g.items[i] == (e.ids[i], e.values[i])
  }

  predicate Tells(schema: Schema, abi: Abi, log: Log, g: Group) {
    && Located(log) && log.topics != []
    && (g.header.place, g.header.origin, g.header.contract) == (PlaceOf(log), OriginOf(schema, log), log.address)
    && (g.header.kind.isMint <==> g.header.parties.from == 0) && (g.header.kind.isBurn <==> g.header.parties.to == 0)
    && (if log.topics[0] == SINGLE
        then abi.single(log).Some? && TellsSingle(abi.single(log).value, g)
        else abi.batch(log).Some? && TellsBatch(abi.batch(log).value, g))
  }

  function Producing(abi: Abi): Log -> bool {
    log => Produces(abi, log)
  }

  ghost predicate TellAll(schema: Schema, abi: Abi, logs: seq<Log>, groups: seq<Group>) {
    |groups| == |logs| && forall i | 0 <= i < |groups| :: Tells(schema, abi, logs[i], groups[i])
  }

  lemma GroupTells(schema: Schema, abi: Abi, log: Log)
    requires Produces(abi, log)
    ensures var t := DecodeTransfer(abi, log).value;
            Tells(schema, abi, log, Group(HeaderOf(schema, log, t), t.items))
  {
  }

  lemma {:induction false} GroupsTell(schema: Schema, abi: Abi, logs: seq<Log>)
    ensures TellAll(schema, abi, Filter(Producing(abi), logs), Groups(schema, abi, logs))
  {
    if logs == [] {
    } else {
      GroupsTell(schema, abi, logs[1..]);
      if Produces(abi, logs[0]) {
        GroupTells(schema, abi, logs[0]);
      }
    }
  }

  // With the columns that it takes selected, whatever others are, the rows of the table that a
  // successful call leaves, put together, are one group for every transfer log that produced a row,
  // in order: who moved what to whom, whether it was a batch, a mint or a burn, with its (id, value)
  // list in emitted order, as its event tells it.
  lemma BatchesRecovered(abi: Abi, logs: seq<Log>, schema: Schema, f: Frame)
    requires Aligned(schema, MOVE_NAMES, f) && BATCH_COLUMNS <= schema
    requires AddRows(schema, f, MoveRows(Moves(abi, logs))).error.None?
    ensures var g := AddRows(schema, f, MoveRows(Moves(abi, logs))).state;
            TellAll(schema, abi, Filter(Producing(abi), logs), Regroup(TableSaid(g, f.nRows)))
  {
    MovesStored(schema, f, Moves(abi, logs));
    MovesRegroup(schema, abi, logs);
    GroupsTell(schema, abi, logs);
  }

  // --- the key ---

  // Block, log index and token id index of a row.
  datatype RowKey = RowKey(place: Place, index: nat)

  function KeysOf(said: seq<Said>): (keys: seq<RowKey>)
    ensures |keys| == |said| && forall i | 0 <= i < |keys| :: keys[i] == RowKey(said[i].header.place, said[i].index)
  {
    seq(|said|, i requires 0 <= i < |said| => RowKey(said[i].header.place, said[i].index))
  }

  function Places(abi: Abi, logs: seq<Log>): seq<Place> {
    if logs == [] then []
    else if Produces(abi, logs[0]) then [PlaceOf(logs[0])] + Places(abi, logs[1..])
    else Places(abi, logs[1..])
  }

  function RowKeys(schema: Schema, abi: Abi, logs: seq<Log>): seq<RowKey> {
    KeysOf(SaidAll(schema, Moves(abi, logs)))
  }

  lemma KeysOfJoin(a: seq<Said>, b: seq<Said>)
    ensures KeysOf(a + b) == KeysOf(a) + KeysOf(b)
  {
  }

  lemma KeysJoin(schema: Schema, abi: Abi, logs: seq<Log>)
    requires logs != []
    ensures RowKeys(schema, abi, logs) ==
            KeysOf(SaidAll(schema, LogMoves(abi, logs[0]))) + RowKeys(schema, abi, logs[1..])
  {
    var first, rest := LogMoves(abi, logs[0]), Moves(abi, logs[1..]);
    SaidJoin(schema, first, rest);
    KeysOfJoin(SaidAll(schema, first), SaidAll(schema, rest));
  }

  lemma ProducerKeys(schema: Schema, abi: Abi, log: Log)
    ensures var keys := KeysOf(SaidAll(schema, LogMoves(abi, log)));
            && Unique(keys) && (!Produces(abi, log) ==> keys == [])
            && (Produces(abi, log) ==>
                RowKey(PlaceOf(log), 0) in keys && forall k | k in keys :: k.place == PlaceOf(log))
  {
    ProducesIff(abi, log);
    if Produces(abi, log) {
      ProducerSays(schema, abi, log);
      assert KeysOf(SaidAll(schema, LogMoves(abi, log)))[0] == RowKey(PlaceOf(log), 0);
    }
  }

  lemma {:induction false} KeysHavePlaces(schema: Schema, abi: Abi, logs: seq<Log>)
    ensures forall k | k in RowKeys(schema, abi, logs) :: k.place in Places(abi, logs)
    ensures forall p | p in Places(abi, logs) :: RowKey(p, 0) in RowKeys(schema, abi, logs)
  {
    if logs == [] {
    } else {
      KeysJoin(schema, abi, logs);
      ProducerKeys(schema, abi, logs[0]);
      KeysHavePlaces(schema, abi, logs[1..]);
    }
  }

  // The rows of a producing log share a key with later rows if and only if a later producing
  // log has the same place.
  lemma SharedKeyIff(schema: Schema, abi: Abi, log: Log, rest: seq<Log>)
    requires Produces(abi, log)
    ensures var own := KeysOf(SaidAll(schema, LogMoves(abi, log)));
            (forall k | k in own :: k !in RowKeys(schema, abi, rest)) <==> PlaceOf(log) !in Places(abi, rest)
  {
    ProducerKeys(schema, abi, log);
    KeysHavePlaces(schema, abi, rest);
  }

  lemma KeysStepIff(schema: Schema, abi: Abi, logs: seq<Log>)
    requires logs != [] && Produces(abi, logs[0])
    ensures Unique(RowKeys(schema, abi, logs)) <==>
            Unique(RowKeys(schema, abi, logs[1..])) && PlaceOf(logs[0]) !in Places(abi, logs[1..])
  {
    KeysJoin(schema, abi, logs);
    ProducerKeys(schema, abi, logs[0]);
    SharedKeyIff(schema, abi, logs[0], logs[1..]);
    UniqueJoinIff(KeysOf(SaidAll(schema, LogMoves(abi, logs[0]))), RowKeys(schema, abi, logs[1..]));
  }

  lemma PlacesStepIff(abi: Abi, logs: seq<Log>)
    requires logs != [] && Produces(abi, logs[0])
    ensures Unique(Places(abi, logs)) <==>
            Unique(Places(abi, logs[1..])) && PlaceOf(logs[0]) !in Places(abi, logs[1..])
  {
    var place := PlaceOf(logs[0]);
    UniqueJoinIff([place], Places(abi, logs[1..]));
    assert place in [place];
  }

  // Block, log index and token id index identify a row if and only if no two logs that
  // produce rows share a block and a log index.
  lemma {:induction false} KeyUniqueIff(schema: Schema, abi: Abi, logs: seq<Log>)
    ensures Unique(RowKeys(schema, abi, logs)) <==> Unique(Places(abi, logs))
  {
    if logs == [] {
    } else if Produces(abi, logs[0]) {
      KeysStepIff(schema, abi, logs);
      PlacesStepIff(abi, logs);
      KeyUniqueIff(schema, abi, logs[1..]);
    } else {
      KeysJoin(schema, abi, logs);
      ProducerKeys(schema, abi, logs[0]);
      assert RowKeys(schema, abi, logs) == RowKeys(schema, abi, logs[1..]);
      assert Places(abi, logs) == Places(abi, logs[1..]);
      KeyUniqueIff(schema, abi, logs[1..]);
    }
  }
}
