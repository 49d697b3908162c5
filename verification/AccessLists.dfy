// Access lists: one row an entry and storage key, from which the lists can be put together again.
module AccessLists {
  import opened Prelude
  import opened RpcParams
  import opened Columns

  datatype AccessEntry = AccessEntry(address: Address, keys: seq<B256>)

  // `accessList` is absent for a legacy transaction.
  datatype Transaction = Transaction(
    accessList: Option<seq<AccessEntry>>,
    hash: B256,
    index: Option<nat>,
    kind: nat
  )

  // --- exploding ---

  datatype Origin = Origin(blockNumber: nat, index: Option<nat>, hash: B256, kind: nat)

  // What one row says: an entry by its position, and one of its keys by its position.
  datatype Item = Item(entry: nat, address: Address, keyIndex: Option<nat>, key: Option<B256>)

  datatype Placed = Placed(origin: Origin, item: Item)

  function ItemRow(p: Placed): Row {
    [Entry(BlockNumber, Ok(Num(p.origin.blockNumber))),
     Entry(TransactionIndex, OptNumCell(p.origin.index)),
     Entry(TransactionHash, Ok(Num(p.origin.hash))),
     Entry(TransactionType, Ok(Num(p.origin.kind))),
     Entry(EntryIndex, Ok(Num(p.item.entry))),
     Entry(AccountAddress, Ok(Num(p.item.address))),
     Entry(StorageKeyIndex, OptNumCell(p.item.keyIndex)),
     Entry(StorageKey, OptNumCell(p.item.key))]
  }

  function KeyItems(o: Origin, e: nat, entry: AccessEntry, from: nat): seq<Placed>
    requires from <= |entry.keys|
    decreases |entry.keys| - from
  {
    if from == |entry.keys| then []
    else [Placed(o, Item(e, entry.address, Some(from), Some(entry.keys[from])))] + KeyItems(o, e, entry, from + 1)
  }

  // An entry without keys still has a row.
  function EntryItems(o: Origin, e: nat, entry: AccessEntry): seq<Placed> {
    if entry.keys == [] then [Placed(o, Item(e, entry.address, None, None))] else KeyItems(o, e, entry, 0)
  }

  function ListItems(o: Origin, entries: seq<AccessEntry>, from: nat): seq<Placed>
    requires from <= |entries|
    decreases |entries| - from
  {
    if from == |entries| then [] else EntryItems(o, from, entries[from]) + ListItems(o, entries, from + 1)
  }

  function Entries(tx: Transaction): seq<AccessEntry> {
    if tx.accessList.Some? then tx.accessList.value else []
  }

  function OriginOf(tx: Transaction, blockNumber: nat): Origin {
    Origin(blockNumber, tx.index, tx.hash, tx.kind)
  }

  function TransactionItems(tx: Transaction, blockNumber: nat): seq<Placed> {
    ListItems(OriginOf(tx, blockNumber), Entries(tx), 0)
  }

  function BlockItems(txs: seq<Transaction>, blockNumber: nat): seq<Placed> {
    if txs == [] then [] else TransactionItems(txs[0], blockNumber) + BlockItems(txs[1..], blockNumber)
  }

  // An entry position that is no `u32` is reported before a key position that is none.
  function Misfit(i: Item): Option<Error> {
    if ToU32(i.entry).Err? then Some(ToU32(i.entry).error)
    else if i.keyIndex.Some? && ToU32(i.keyIndex.value).Err? then Some(ToU32(i.keyIndex.value).error)
    else None
  }

  // Rows go in until the first item whose positions do not fit.
  function AddItems(schema: Schema, f: Frame, items: seq<Placed>): Outcome<Frame>
    decreases |items|
  {
    if items == [] then Outcome(f, None)
    else if Misfit(items[0].item).Some? then Outcome(f, Misfit(items[0].item))
    else AddItems(schema, AddRow(schema, f, ItemRow(items[0])).state, items[1..])
  }

  lemma ItemRowStores(schema: Schema, f: Frame, p: Placed)
    ensures AddRow(schema, f, ItemRow(p)).error.None?
  {
    PutAllFailsIff(schema, f.cells, ItemRow(p));
  }

  method PushItem(p: Placed, table: Table, schema: Schema) returns (error: Option<Error>)
    modifies table
    ensures error == Misfit(p.item)
    ensures table.View() == if error.None? then AddRow(schema, old(table.View()), ItemRow(p)).state
            else old(table.View())
  {
    if ToU32(p.item.entry).Err? {
      return Some(ToU32(p.item.entry).error);
    }
    if p.item.keyIndex.Some? && ToU32(p.item.keyIndex.value).Err? {
      return Some(ToU32(p.item.keyIndex.value).error);
    }
    ItemRowStores(schema, table.View(), p);
    error := table.PushRow(schema, ItemRow(p));
  }

  lemma AddFirst(schema: Schema, f: Frame, p: Placed, rest: seq<Placed>)
    ensures AddItems(schema, f, [p] + rest) ==
            if Misfit(p.item).Some? then Outcome(f, Misfit(p.item))
            else AddItems(schema, AddRow(schema, f, ItemRow(p)).state, rest)
  {
    assert ([p] + rest)[1..] == rest;
  }

  // The rows of one entry, in front of what is left to do.
  method ProcessEntry(o: Origin, e: nat, entry: AccessEntry, table: Table, schema: Schema, ghost left: seq<Placed>)
    returns (error: Option<Error>)
    modifies table
    ensures AddItems(schema, old(table.View()), EntryItems(o, e, entry) + left) ==
            if error.Some? then Outcome(table.View(), error) else AddItems(schema, table.View(), left)
  {
    if entry.keys == [] {
      AddFirst(schema, table.View(), Placed(o, Item(e, entry.address, None, None)), left);
      error := PushItem(Placed(o, Item(e, entry.address, None, None)), table, schema);
      return;
    }
    error := None;
    for k := 0 to |entry.keys|
      invariant error.None?
      invariant AddItems(schema, table.View(), KeyItems(o, e, entry, k) + left) ==
                AddItems(schema, old(table.View()), EntryItems(o, e, entry) + left)
    {
      var p := Placed(o, Item(e, entry.address, Some(k), Some(entry.keys[k])));
      AddFirst(schema, table.View(), p, KeyItems(o, e, entry, k + 1) + left);
      assert KeyItems(o, e, entry, k) + left == [p] + (KeyItems(o, e, entry, k + 1) + left);
      error := PushItem(p, table, schema);
      if error.Some? {
        return;
      }
    }
    assert KeyItems(o, e, entry, |entry.keys|) + left == left;
  }

  method ProcessAccessList(tx: Transaction, blockNumber: nat, table: Table, schema: Schema)
    returns (error: Option<Error>)
    modifies table
    ensures Outcome(table.View(), error) == AddItems(schema, old(table.View()), TransactionItems(tx, blockNumber))
  {
    error := None;
    if tx.accessList.None? {
      return;
    }
    var o, entries := OriginOf(tx, blockNumber), tx.accessList.value;
    for e := 0 to |entries|
      invariant error.None?
      invariant AddItems(schema, table.View(), ListItems(o, entries, e)) ==
                AddItems(schema, old(table.View()), TransactionItems(tx, blockNumber))
    {
      error := ProcessEntry(o, e, entries[e], table, schema, ListItems(o, entries, e + 1));
      if error.Some? {
        return;
      }
    }
  }

  lemma {:induction false} AddItemsJoin(schema: Schema, f: Frame, a: seq<Placed>, b: seq<Placed>)
    ensures var first := AddItems(schema, f, a);
            AddItems(schema, f, a + b) == if first.error.Some? then first else AddItems(schema, first.state, b)
    decreases |a|
  {
    if a == [] {
      assert a + b == b;
    } else {
      assert (a + b)[1..] == a[1..] + b;
      AddItemsJoin(schema, AddRow(schema, f, ItemRow(a[0])).state, a[1..], b);
    }
  }

  // A block response; a node may answer with hashes in place of transactions.
  datatype Block = Block(number: nat, transactions: Option<seq<Transaction>>)

  method Transform(block: Block, table: Table, schema: Schema) returns (error: Option<Error>)
    modifies table
    ensures block.transactions.None? ==>
              error == Some(Invalid("transaction hashes for a full-block request")) && table.View() == old(table.View())
    ensures block.transactions.Some? && block.number >= U32_LIMIT ==>
              error == Some(OutOfRange(block.number)) && table.View() == old(table.View())
    ensures block.transactions.Some? && block.number < U32_LIMIT ==>
              Outcome(table.View(), error) ==
              AddItems(schema, old(table.View()), BlockItems(block.transactions.value, block.number))
  {
    error := None;
    if block.transactions.None? {
      return Some(Invalid("transaction hashes for a full-block request"));
    }
    if ToU32(block.number).Err? {
      return Some(ToU32(block.number).error);
    }
    var txs := block.transactions.value;
    for i := 0 to |txs|
      invariant error.None?
      invariant AddItems(schema, table.View(), BlockItems(txs[i..], block.number)) ==
                AddItems(schema, old(table.View()), BlockItems(txs, block.number))
    {
      assert txs[i..][0] == txs[i] && txs[i..][1..] == txs[i + 1..];
      AddItemsJoin(schema, table.View(), TransactionItems(txs[i], block.number),
                   BlockItems(txs[i + 1..], block.number));
      error := ProcessAccessList(txs[i], block.number, table, schema);
      if error.Some? {
        return;
      }
    }
  }

  // --- what is stored ---

  function ItemRows(items: seq<Placed>): (rows: seq<Row>)
    ensures |rows| == |items| && forall i | 0 <= i < |rows| :: rows[i] == ItemRow(items[i])
  {
    seq(|items|, i requires 0 <= i < |items| => ItemRow(items[i]))
  }

  // A call succeeds if and only if every position fits, and then stores one row an item.
  lemma {:induction false} StoresEveryItemIff(schema: Schema, f: Frame, items: seq<Placed>)
    ensures AddItems(schema, f, items).error.None? <==> forall i | 0 <= i < |items| :: Misfit(items[i].item).None?
    ensures AddItems(schema, f, items).error.None? ==>
              AddItems(schema, f, items) == AddRows(schema, f, ItemRows(items))
    decreases |items|
  {
    if items == [] {
    } else {
      var next := AddRow(schema, f, ItemRow(items[0])).state;
      ItemRowStores(schema, f, items[0]);
      StoresEveryItemIff(schema, next, items[1..]);
      assert ItemRows(items)[1..] == ItemRows(items[1..]);
      assert forall i | 1 <= i < |items| :: items[i] == items[1..][i - 1];
      assert forall i | 0 <= i < |items[1..]| :: items[1..][i] == items[i + 1];
    }
  }

  const ITEM_NAMES: seq<Column> :=
    [BlockNumber, TransactionIndex, TransactionHash, TransactionType, EntryIndex, AccountAddress, StorageKeyIndex,
     StorageKey]

  lemma ItemNamesDistinct()
    ensures Unique(ITEM_NAMES)
  {
  }

  function ReadOrigin(read: Reader): Origin {
    Origin(NumAt(read, BlockNumber), OptNumAt(read, TransactionIndex), NumAt(read, TransactionHash),
           NumAt(read, TransactionType))
  }

  function ReadItem(read: Reader): Item {
    Item(NumAt(read, EntryIndex), NumAt(read, AccountAddress), OptNumAt(read, StorageKeyIndex),
         OptNumAt(read, StorageKey))
  }

  function ReadPlaced(read: Reader): Placed {
    Placed(ReadOrigin(read), ReadItem(read))
  }

  // An item as the selected columns show it; what is not selected reads as 0 or as nothing.
  function Shown(schema: Schema, p: Placed): Placed {
    Placed(ShownOrigin(schema, p.origin), ShownItem(schema, p.item))
  }

  function ShownOrigin(schema: Schema, o: Origin): Origin {
    Origin(Seen(schema, BlockNumber, o.blockNumber), SeenOpt(schema, TransactionIndex, o.index),
           Seen(schema, TransactionHash, o.hash), Seen(schema, TransactionType, o.kind))
  }

  function ShownItem(schema: Schema, i: Item): Item {
    Item(Seen(schema, EntryIndex, i.entry), Seen(schema, AccountAddress, i.address),
         SeenOpt(schema, StorageKeyIndex, i.keyIndex), SeenOpt(schema, StorageKey, i.key))
  }

  function ShownAll(schema: Schema, items: seq<Placed>): (shown: seq<Placed>)
    ensures |shown| == |items| && forall i | 0 <= i < |shown| :: shown[i] == Shown(schema, items[i])
  {
    seq(|items|, i requires 0 <= i < |items| => Shown(schema, items[i]))
  }

  lemma ItemSaid(schema: Schema, read: Reader, names: seq<Column>, row: Row, i: Item)
    requires Names(row, names) && Says(schema, read, names, row) && |row| == 8
    requires row[4] == Entry(EntryIndex, Ok(Num(i.entry))) && row[5] == Entry(AccountAddress, Ok(Num(i.address)))
    requires row[6] == Entry(StorageKeyIndex, OptNumCell(i.keyIndex)) && row[7] == Entry(StorageKey, OptNumCell(i.key))
    ensures ReadItem(read) == ShownItem(schema, i)
  {
    SaysNum(schema, read, names, row, 4, EntryIndex, i.entry);
    SaysNum(schema, read, names, row, 5, AccountAddress, i.address);
    SaysOptNum(schema, read, names, row, 6, StorageKeyIndex, i.keyIndex);
    SaysOptNum(schema, read, names, row, 7, StorageKey, i.key);
  }

  lemma OriginSaid(schema: Schema, read: Reader, names: seq<Column>, row: Row, o: Origin)
    requires Names(row, names) && Says(schema, read, names, row) && |row| == 8
    requires row[0] == Entry(BlockNumber, Ok(Num(o.blockNumber))) &&
             row[1] == Entry(TransactionIndex, OptNumCell(o.index))
    requires row[2] == Entry(TransactionHash, Ok(Num(o.hash))) && row[3] == Entry(TransactionType, Ok(Num(o.kind)))
    ensures ReadOrigin(read) == ShownOrigin(schema, o)
  {
    SaysNum(schema, read, names, row, 0, BlockNumber, o.blockNumber);
    SaysOptNum(schema, read, names, row, 1, TransactionIndex, o.index);
    SaysNum(schema, read, names, row, 2, TransactionHash, o.hash);
    SaysNum(schema, read, names, row, 3, TransactionType, o.kind);
  }

  // A row says of its entry, its key and its transaction what the selected columns show.
  lemma RowSaysPlaced(schema: Schema, names: seq<Column>, p: Placed)
    requires Names(ItemRow(p), names)
    ensures Parses(schema, ReadPlaced, names, ItemRow(p), Shown(schema, p))
  {
    forall read: Reader | Says(schema, read, names, ItemRow(p))
      ensures ReadPlaced(read) == Shown(schema, p)
    {
      ItemSaid(schema, read, names, ItemRow(p), p.item);
      OriginSaid(schema, read, names, ItemRow(p), p.origin);
    }
  }

  lemma ItemRowNames(p: Placed)
    ensures Names(ItemRow(p), ITEM_NAMES)
  {
  }

  // The items of a table from row `from` on.
  function TableItems(f: Frame, from: nat): seq<Placed> {
    ReadTable(f, from, ReadPlaced)
  }

  // The table that a successful call leaves says of every item what the selected columns show.
  lemma ItemsStored(schema: Schema, f: Frame, items: seq<Placed>)
    requires Aligned(schema, ITEM_NAMES, f) && AddItems(schema, f, items).error.None?
    ensures TableItems(AddItems(schema, f, items).state, f.nRows) == ShownAll(schema, items)
  {
    StoresEveryItemIff(schema, f, items);
    ItemNamesDistinct();
    var rows := ItemRows(items);
    forall i | 0 <= i < |rows|
      ensures Names(rows[i], ITEM_NAMES)
      ensures Parses(schema, ReadPlaced, ITEM_NAMES, rows[i], ShownAll(schema, items)[i])
    {
      ItemRowNames(items[i]);
      RowSaysPlaced(schema, ITEM_NAMES, items[i]);
    }
    ReadStored(schema, ITEM_NAMES, f, rows, ReadPlaced, ShownAll(schema, items));
  }

  // --- regrouping ---

  // How many items at the head of the list belong to the entry at position `e`.
  function Span(items: seq<Placed>, e: nat): (n: nat)
    ensures n <= |items|
  {
    if items == [] || items[0].item.entry != e then 0 else 1 + Span(items[1..], e)
  }

  function KeysOf(items: seq<Placed>): seq<B256> {
    if items == [] then []
    else if items[0].item.key.Some? then [items[0].item.key.value] + KeysOf(items[1..])
    else KeysOf(items[1..])
  }

  // Puts the entries together again: equal positions in a row are one entry.
  function Regroup(items: seq<Placed>): seq<AccessEntry>
    decreases |items|
  {
    if items == [] then []
    else
      var n := 1 + Span(items[1..], items[0].item.entry);
      [AccessEntry(items[0].item.address, KeysOf(items[..n]))] + Regroup(items[n..])
  }

  // The items are all of the entry at position `e`.
  predicate OfEntry(items: seq<Placed>, e: nat, address: Address) {
    forall i | 0 <= i < |items| :: items[i].item.entry == e && items[i].item.address == address
  }

  predicate StartsOther(items: seq<Placed>, e: nat) {
    items == [] || items[0].item.entry != e
  }

  lemma {:induction false} SpanJoin(a: seq<Placed>, b: seq<Placed>, e: nat, address: Address)
    requires OfEntry(a, e, address) && StartsOther(b, e)
    ensures Span(a + b, e) == |a|
  {
    if a == [] {
      assert a + b == b;
    } else {
      assert (a + b)[1..] == a[1..] + b;
      SpanJoin(a[1..], b, e, address);
    }
  }

  lemma RegroupFirst(first: seq<Placed>, rest: seq<Placed>, e: nat, address: Address)
    requires first != [] && OfEntry(first, e, address) && StartsOther(rest, e)
    ensures Regroup(first + rest) == [AccessEntry(address, KeysOf(first))] + Regroup(rest)
  {
    var items := first + rest;
    assert items[1..] == first[1..] + rest;
    SpanJoin(first[1..], rest, e, address);
    assert items[..|first|] == first && items[|first|..] == rest;
  }

  lemma {:induction false} KeysRecovered(o: Origin, e: nat, entry: AccessEntry, from: nat)
    requires from <= |entry.keys|
    ensures KeysOf(KeyItems(o, e, entry, from)) == entry.keys[from..]
    ensures |KeyItems(o, e, entry, from)| == |entry.keys| - from &&
            OfEntry(KeyItems(o, e, entry, from), e, entry.address)
    decreases |entry.keys| - from
  {
    if from == |entry.keys| {
    } else {
      KeysRecovered(o, e, entry, from + 1);
      var rest := KeyItems(o, e, entry, from + 1);
      assert KeyItems(o, e, entry, from)[1..] == rest;
    }
  }

  lemma EntryRecovered(o: Origin, e: nat, entry: AccessEntry)
    ensures var items := EntryItems(o, e, entry);
            items != [] && KeysOf(items) == entry.keys && OfEntry(items, e, entry.address)
  {
    KeysRecovered(o, e, entry, 0);
  }

  lemma LaterEntries(o: Origin, entries: seq<AccessEntry>, from: nat)
    requires from <= |entries|
    ensures forall e: nat | e < from :: StartsOther(ListItems(o, entries, from), e)
  {
    if from < |entries| {
      EntryRecovered(o, from, entries[from]);
    }
  }

  lemma {:induction false} ListRecovered(o: Origin, entries: seq<AccessEntry>, from: nat)
    requires from <= |entries|
    ensures Regroup(ListItems(o, entries, from)) == entries[from..]
    decreases |entries| - from
  {
    if from == |entries| {
    } else {
      EntryRecovered(o, from, entries[from]);
      LaterEntries(o, entries, from + 1);
      RegroupFirst(EntryItems(o, from, entries[from]), ListItems(o, entries, from + 1), from, entries[from].address);
      ListRecovered(o, entries, from + 1);
    }
  }

  lemma {:induction false} KeysOrigin(o: Origin, e: nat, entry: AccessEntry, from: nat)
    requires from <= |entry.keys|
    ensures forall p | p in KeyItems(o, e, entry, from) :: p.origin == o
    decreases |entry.keys| - from
  {
    if from < |entry.keys| {
      KeysOrigin(o, e, entry, from + 1);
    }
  }

  lemma {:induction false} ListOrigin(o: Origin, entries: seq<AccessEntry>, from: nat)
    requires from <= |entries|
    ensures forall p | p in ListItems(o, entries, from) :: p.origin == o
    decreases |entries| - from
  {
    if from < |entries| {
      KeysOrigin(o, from, entries[from], 0);
      ListOrigin(o, entries, from + 1);
    }
  }

  function FromHash(hash: B256): Placed -> bool {
    (p: Placed) => p.origin.hash == hash
  }

  predicate DistinctHashes(txs: seq<Transaction>) {
    forall i, j | 0 <= i < j < |txs| :: txs[i].hash != txs[j].hash
  }

  lemma {:induction false} ItemsOfTransaction(txs: seq<Transaction>, blockNumber: nat, k: nat)
    requires DistinctHashes(txs) && k < |txs|
    ensures Filter(FromHash(txs[k].hash), BlockItems(txs, blockNumber)) == TransactionItems(txs[k], blockNumber)
    decreases |txs|
  {
    var keep := FromHash(txs[k].hash);
    var first, rest := TransactionItems(txs[0], blockNumber), BlockItems(txs[1..], blockNumber);
    FilterAppend(keep, first, rest);
    ListOrigin(OriginOf(txs[0], blockNumber), Entries(txs[0]), 0);
    if k == 0 {
      FilterAll(keep, first);
      OtherHashes(txs[1..], blockNumber, txs[0].hash);
    } else {
      FilterNone(keep, first);
      ItemsOfTransaction(txs[1..], blockNumber, k - 1);
    }
  }

  lemma {:induction false} OtherHashes(txs: seq<Transaction>, blockNumber: nat, hash: B256)
    requires forall tx | tx in txs :: tx.hash != hash
    ensures Filter(FromHash(hash), BlockItems(txs, blockNumber)) == []
  {
    if txs == [] {
    } else {
      assert txs[0] in txs;
      FilterAppend(FromHash(hash), TransactionItems(txs[0], blockNumber), BlockItems(txs[1..], blockNumber));
      ListOrigin(OriginOf(txs[0], blockNumber), Entries(txs[0]), 0);
      FilterNone(FromHash(hash), TransactionItems(txs[0], blockNumber));
      OtherHashes(txs[1..], blockNumber, hash);
    }
  }

  // The columns that an access list is put together from.
  const LIST_COLUMNS: set<Column> := {TransactionHash, EntryIndex, AccountAddress, StorageKey}

  // Two items alike in everything that a list is put together from.
  predicate Alike(p: Placed, q: Placed) {
    p.origin.hash == q.origin.hash && p.item.entry == q.item.entry && p.item.address == q.item.address &&
    p.item.key == q.item.key
  }

  predicate AllAlike(a: seq<Placed>, b: seq<Placed>) {
    |a| == |b| && forall i | 0 <= i < |a| :: Alike(a[i], b[i])
  }

  lemma {:induction false} SpanAlike(a: seq<Placed>, b: seq<Placed>, e: nat)
    requires AllAlike(a, b)
    ensures Span(a, e) == Span(b, e)
  {
    if a == [] {
    } else {
      assert Alike(a[0], b[0]);
      SpanAlike(a[1..], b[1..], e);
    }
  }

  lemma {:induction false} KeysAlike(a: seq<Placed>, b: seq<Placed>)
    requires AllAlike(a, b)
    ensures KeysOf(a) == KeysOf(b)
  {
    if a == [] {
    } else {
      assert Alike(a[0], b[0]);
      KeysAlike(a[1..], b[1..]);
    }
  }

  lemma {:induction false} RegroupAlike(a: seq<Placed>, b: seq<Placed>)
    requires AllAlike(a, b)
    ensures Regroup(a) == Regroup(b)
    decreases |a|
  {
    if a == [] {
    } else {
      assert Alike(a[0], b[0]);
      SpanAlike(a[1..], b[1..], a[0].item.entry);
      var n := 1 + Span(a[1..], a[0].item.entry);
      KeysAlike(a[..n], b[..n]);
      RegroupAlike(a[n..], b[n..]);
    }
  }

  lemma ConsAlike(p: Placed, q: Placed, a: seq<Placed>, b: seq<Placed>)
    requires Alike(p, q) && AllAlike(a, b)
    ensures AllAlike([p] + a, [q] + b)
  {
  }

  lemma {:induction false} FilterAlike(hash: B256, a: seq<Placed>, b: seq<Placed>)
    requires AllAlike(a, b)
    ensures AllAlike(Filter(FromHash(hash), a), Filter(FromHash(hash), b))
  {
    if a == [] {
    } else {
      assert Alike(a[0], b[0]);
      FilterAlike(hash, a[1..], b[1..]);
      if a[0].origin.hash == hash {
        ConsAlike(a[0], b[0], Filter(FromHash(hash), a[1..]), Filter(FromHash(hash), b[1..]));
      }
    }
  }

  // With the columns that it takes selected, whatever others are, the table that a block's call
  // leaves gives back the access list of each transaction: every entry, in order, with its keys
  // in order, also an entry without keys and an address listed twice. A list that is empty or
  // absent gives no rows and comes back empty.
  lemma AccessListRecovered(txs: seq<Transaction>, blockNumber: nat, k: nat, schema: Schema, f: Frame)
    requires DistinctHashes(txs) && k < |txs|
    requires Aligned(schema, ITEM_NAMES, f) && LIST_COLUMNS <= schema
    requires AddItems(schema, f, BlockItems(txs, blockNumber)).error.None?
    ensures var g := AddItems(schema, f, BlockItems(txs, blockNumber)).state;
            Regroup(Filter(FromHash(txs[k].hash), TableItems(g, f.nRows))) == Entries(txs[k])
  {
    var items, hash := BlockItems(txs, blockNumber), txs[k].hash;
    ItemsStored(schema, f, items);
    assert AllAlike(ShownAll(schema, items), items);
    FilterAlike(hash, ShownAll(schema, items), items);
    RegroupAlike(Filter(FromHash(hash), ShownAll(schema, items)), Filter(FromHash(hash), items));
    ItemsOfTransaction(txs, blockNumber, k);
    ListRecovered(OriginOf(txs[k], blockNumber), Entries(txs[k]), 0);
    assert Entries(txs[k])[0..] == Entries(txs[k]);
  }
}
