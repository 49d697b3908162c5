// State diffs of geth: one pass over the accounts of each transaction fills up to four tables.
// Accounts and slots come out of hash sets, so their order is left open.
module GethStateDiffs {
  import opened Prelude
  import opened RpcParams
  import opened Columns

  datatype AccountState = AccountState(
    balance: Option<nat>,
    code: Option<Bytes>,
    nonce: Option<nat>,
    storage: map<B256, B256>
  )

  const BLANK: AccountState := AccountState(None, None, None, map[])

  datatype Diff = Diff(pre: map<Address, AccountState>, post: map<Address, AccountState>)

  datatype Kind = Balances | Codes | Nonces | Storages

  // Which transaction a row belongs to.
  datatype Index = Index(blockNumber: Option<nat>, transactionIndex: nat, transactionHash: Option<Bytes>)

  // --- what a diff says ---

  // A place in the state: an account, or one slot of it.
  datatype Key = Key(address: Address, slot: Option<B256>)

  function AccountIn(accounts: map<Address, AccountState>, address: Address): AccountState {
    if address in accounts then accounts[address] else BLANK
  }

  function OrElse<T>(value: Option<T>, blank: T): T {
    if value.Some? then value.value else blank
  }

  // The value of one place in an account; an absent field is blank.
  function Field(kind: Kind, account: AccountState, slot: B256): Cell {
    match kind
    case Balances => Num(OrElse(account.balance, 0))
    case Codes => Bin(OrElse(account.code, []))
    case Nonces => Num(OrElse(account.nonce, 0))
    case Storages => Num(if slot in account.storage then account.storage[slot] else 0)
  }

  function From(kind: Kind, d: Diff, key: Key): Cell {
    Field(kind, AccountIn(d.pre, key.address), OrElse(key.slot, 0))
  }

  function To(kind: Kind, d: Diff, key: Key): Cell {
    Field(kind, AccountIn(d.post, key.address), OrElse(key.slot, 0))
  }

  function Touched(d: Diff): set<Address> {
    d.pre.Keys + d.post.Keys
  }

  function Slots(d: Diff, address: Address): set<B256> {
    AccountIn(d.pre, address).storage.Keys + AccountIn(d.post, address).storage.Keys
  }

  // The places a diff has a row for.
  predicate IsKey(kind: Kind, d: Diff, key: Key) {
    && key.address in Touched(d)
    && if kind.Storages? then key.slot.Some? && key.slot.value in Slots(d, key.address) else key.slot.None?
  }

  // --- rows ---

  function HashCell(hash: Option<Bytes>): Cell {
    if hash.Some? then Bin(hash.value) else Null
  }

  // The slot cell stands between the address and the values, in the storage table only.
  function DiffRow(index: Index, key: Key, from: Cell, to: Cell): Row {
    if key.slot.Some? then
      [Entry(BlockNumber, OptNumCell(index.blockNumber)), Entry(TransactionIndex, Ok(Num(index.transactionIndex))),
       Entry(TransactionHash, Ok(HashCell(index.transactionHash))), Entry(AccountAddress, Ok(Num(key.address))),
       Entry(Slot, Ok(Num(key.slot.value))), Entry(FromValue, Ok(from)), Entry(ToValue, Ok(to))]
    else
      [Entry(BlockNumber, OptNumCell(index.blockNumber)), Entry(TransactionIndex, Ok(Num(index.transactionIndex))),
       Entry(TransactionHash, Ok(HashCell(index.transactionHash))), Entry(AccountAddress, Ok(Num(key.address))),
       Entry(FromValue, Ok(from)), Entry(ToValue, Ok(to))]
  }

  function KeyRow(kind: Kind, d: Diff, index: Index, key: Key): Row {
    DiffRow(index, key, From(kind, d, key), To(kind, d, key))
  }

  function KeyRows(kind: Kind, d: Diff, index: Index, keys: seq<Key>): (rows: seq<Row>)
    ensures |rows| == |keys| && forall i | 0 <= i < |rows| :: rows[i] == KeyRow(kind, d, index, keys[i])
  {
    seq(|keys|, i requires 0 <= i < |keys| => KeyRow(kind, d, index, keys[i]))
  }

  // --- an order in which the hash sets may be walked ---

  datatype Visit = Visit(address: Address, slots: seq<B256>)

  ghost predicate Enumerates<T(!new)>(order: seq<T>, s: set<T>) {
    && (forall i, j | 0 <= i < j < |order| :: order[i] != order[j])
    && (forall x :: x in order <==> x in s)
  }

  function Addresses(visits: seq<Visit>): (addresses: seq<Address>)
    ensures |addresses| == |visits| && forall i | 0 <= i < |visits| :: addresses[i] == visits[i].address
  {
    seq(|visits|, i requires 0 <= i < |visits| => visits[i].address)
  }

  // The visits walk the accounts `done` of the diff, each with all its slots.
  ghost predicate Walks(visits: seq<Visit>, d: Diff, done: set<Address>) {
    Enumerates(Addresses(visits), done) && forall v | v in visits :: Enumerates(v.slots, Slots(d, v.address))
  }

  function VisitKeys(kind: Kind, v: Visit): seq<Key> {
    if kind.Storages? then seq(|v.slots|, i requires 0 <= i < |v.slots| => Key(v.address, Some(v.slots[i])))
    else [Key(v.address, None)]
  }

  function Keys(kind: Kind, visits: seq<Visit>): seq<Key> {
    if visits == [] then [] else VisitKeys(kind, visits[0]) + Keys(kind, visits[1..])
  }

  // The rows of a whole response: transaction by transaction, in the order of each walk.
  function BlockRows(kind: Kind, blockNumber: Option<nat>, txs: seq<Option<Bytes>>, diffs: seq<Diff>,
                     walks: seq<seq<Visit>>): seq<Row>
    requires |walks| <= |txs| && |walks| <= |diffs|
  {
    if walks == [] then []
    else
      var n := |walks| - 1;
      BlockRows(kind, blockNumber, txs, diffs, walks[..n])
      + KeyRows(kind, diffs[n], Index(blockNumber, n, txs[n]), Keys(kind, walks[n]))
  }

  // --- filling one table ---

  // What rows without failing cells leave in a table.
  function Filled(schema: Schema, f: Frame, rows: seq<Row>): Frame {
    AddRows(schema, f, rows).state
  }

  lemma DiffRowSound(index: Index, key: Key, from: Cell, to: Cell)
    ensures Sound(DiffRow(index, key, from, to))
  {
  }

  lemma KeyRowsSound(kind: Kind, d: Diff, index: Index, keys: seq<Key>)
    ensures forall row | row in KeyRows(kind, d, index, keys) :: Sound(row)
  {
    forall row | row in KeyRows(kind, d, index, keys)
      ensures Sound(row)
    {
      var i :| 0 <= i < |keys| && row == KeyRow(kind, d, index, keys[i]);
      DiffRowSound(index, keys[i], From(kind, d, keys[i]), To(kind, d, keys[i]));
    }
  }

  lemma FilledAppend(schema: Schema, f: Frame, a: seq<Row>, b: seq<Row>)
    requires forall row | row in a :: Sound(row)
    ensures Filled(schema, f, a + b) == Filled(schema, Filled(schema, f, a), b)
  {
    SoundRowsFill(schema, f, a);
    AddRowsAppend(schema, f, a, b);
  }

  function ParsePrePost<T>(pre: Option<T>, post: Option<T>, blank: T): (T, T) {
    match (pre, post)
    case (Some(pre), Some(post)) => (pre, post)
    case (Some(pre), None) => (pre, blank)
    case (None, Some(post)) => (blank, post)
    case (None, None) => (blank, blank)
  }

  method PushDiff(index: Index, key: Key, from: Cell, to: Cell, table: Table, schema: Schema)
    modifies table
    ensures table.View() == Filled(schema, old(table.View()), [DiffRow(index, key, from, to)])
  {
    var row := DiffRow(index, key, from, to);
    ghost var before := table.View();
    var error := table.PushRow(schema, row);
    DiffRowSound(index, key, from, to);
    SoundRowsFill(schema, before, [row]);
    assert AddRows(schema, table.View(), [row][1..]).state == table.View();
  }

  method AddBalances(d: Diff, address: Address, pre: AccountState, post: AccountState, index: Index, table: Table,
                     schema: Schema)
    requires pre == AccountIn(d.pre, address) && post == AccountIn(d.post, address)
    modifies table
    ensures table.View() == Filled(schema, old(table.View()), KeyRows(Balances, d, index, [Key(address, None)]))
  {
    var (from, to) := ParsePrePost(pre.balance, post.balance, 0);
    PushDiff(index, Key(address, None), Num(from), Num(to), table, schema);
    assert KeyRows(Balances, d, index, [Key(address, None)]) ==
           [DiffRow(index, Key(address, None), Num(from), Num(to))];
  }

  method AddCodes(d: Diff, address: Address, pre: AccountState, post: AccountState, index: Index, table: Table,
                  schema: Schema)
    requires pre == AccountIn(d.pre, address) && post == AccountIn(d.post, address)
    modifies table
    ensures table.View() == Filled(schema, old(table.View()), KeyRows(Codes, d, index, [Key(address, None)]))
  {
    var (from, to) := ParsePrePost(pre.code, post.code, []);
    PushDiff(index, Key(address, None), Bin(from), Bin(to), table, schema);
    assert KeyRows(Codes, d, index, [Key(address, None)]) == [DiffRow(index, Key(address, None), Bin(from), Bin(to))];
  }

  method AddNonces(d: Diff, address: Address, pre: AccountState, post: AccountState, index: Index, table: Table,
                   schema: Schema)
    requires pre == AccountIn(d.pre, address) && post == AccountIn(d.post, address)
    modifies table
    ensures table.View() == Filled(schema, old(table.View()), KeyRows(Nonces, d, index, [Key(address, None)]))
  {
    var (from, to) := ParsePrePost(pre.nonce, post.nonce, 0);
    PushDiff(index, Key(address, None), Num(from), Num(to), table, schema);
    assert KeyRows(Nonces, d, index, [Key(address, None)]) == [DiffRow(index, Key(address, None), Num(from), Num(to))];
  }

  function StorageRows(d: Diff, index: Index, address: Address, slots: seq<B256>): seq<Row> {
    KeyRows(Storages, d, index, VisitKeys(Storages, Visit(address, slots)))
  }

  lemma StorageStep(schema: Schema, f: Frame, d: Diff, index: Index, address: Address, slots: seq<B256>, slot: B256)
    ensures var row := KeyRow(Storages, d, index, Key(address, Some(slot)));
            Filled(schema, f, StorageRows(d, index, address, slots + [slot])) ==
            Filled(schema, Filled(schema, f, StorageRows(d, index, address, slots)), [row])
  {
    var keys := VisitKeys(Storages, Visit(address, slots));
    var row := KeyRow(Storages, d, index, Key(address, Some(slot)));
    assert VisitKeys(Storages, Visit(address, slots + [slot])) == keys + [Key(address, Some(slot))];
    assert StorageRows(d, index, address, slots + [slot]) == StorageRows(d, index, address, slots) + [row];
    KeyRowsSound(Storages, d, index, keys);
    FilledAppend(schema, f, StorageRows(d, index, address, slots), [row]);
  }

  lemma EnumeratesStep<T(!new)>(order: seq<T>, all: set<T>, remaining: set<T>, x: T)
    requires x in remaining && remaining <= all && Enumerates(order, all - remaining)
    ensures Enumerates(order + [x], all - (remaining - {x}))
  {
  }

  method AddSlot(d: Diff, address: Address, pre: AccountState, post: AccountState, slot: B256, index: Index,
                 table: Table, schema: Schema)
    requires pre == AccountIn(d.pre, address) && post == AccountIn(d.post, address)
    modifies table
    ensures table.View() ==
            Filled(schema, old(table.View()), [KeyRow(Storages, d, index, Key(address, Some(slot)))])
  {
    var from := if slot in pre.storage then pre.storage[slot] else 0;
    var to := if slot in post.storage then post.storage[slot] else 0;
    PushDiff(index, Key(address, Some(slot)), Num(from), Num(to), table, schema);
  }

  // The slots come out in any order; `slots` is the one in which they did.
  method AddStorages(d: Diff, address: Address, pre: AccountState, post: AccountState, index: Index, table: Table,
                     schema: Schema)
    returns (ghost slots: seq<B256>)
    requires pre == AccountIn(d.pre, address) && post == AccountIn(d.post, address)
    modifies table
    ensures Enumerates(slots, Slots(d, address))
    ensures table.View() == Filled(schema, old(table.View()), StorageRows(d, index, address, slots))
  {
    var remaining := pre.storage.Keys + post.storage.Keys;
    slots := [];
    while remaining != {}
      invariant remaining <= Slots(d, address) && Enumerates(slots, Slots(d, address) - remaining)
      invariant table.View() == Filled(schema, old(table.View()), StorageRows(d, index, address, slots))
      decreases |remaining|
    {
      var slot :| slot in remaining;
      EnumeratesStep(slots, Slots(d, address), remaining, slot);
      StorageStep(schema, old(table.View()), d, index, address, slots, slot);
      remaining := remaining - {slot};
      AddSlot(d, address, pre, post, slot, index, table, schema);
      slots := slots + [slot];
    }
    assert Slots(d, address) - remaining == Slots(d, address);
  }

  // --- four tables in one pass ---

  // A table with its schema; without either, the pass skips it.
  datatype Sink = Sink(table: Table?, schema: Option<Schema>) {
    predicate Active() {
      table != null && schema.Some?
    }

    ghost function Repr(): set<object> {
      if table == null then {} else {table}
    }

    function Contents(): Frame
      reads Repr()
    {
      if table == null then EMPTY else table.View()
    }
  }

  datatype Sinks = Sinks(balances: Sink, codes: Sink, nonces: Sink, storages: Sink) {
    function Of(kind: Kind): Sink {
      match kind
      case Balances => balances
      case Codes => codes
      case Nonces => nonces
      case Storages => storages
    }

    ghost function Repr(): set<object> {
      balances.Repr() + codes.Repr() + nonces.Repr() + storages.Repr()
    }

    // Exclusive references: no table serves two kinds.
    ghost predicate Apart() {
      && balances.Repr() !! codes.Repr() && balances.Repr() !! nonces.Repr() && balances.Repr() !! storages.Repr()
      && codes.Repr() !! nonces.Repr() && codes.Repr() !! storages.Repr() && nonces.Repr() !! storages.Repr()
    }

    function Contents(): Frames
      reads Repr()
    {
      Frames(balances.Contents(), codes.Contents(), nonces.Contents(), storages.Contents())
    }
  }

  datatype Frames = Frames(balances: Frame, codes: Frame, nonces: Frame, storages: Frame) {
    function Of(kind: Kind): Frame {
      match kind
      case Balances => balances
      case Codes => codes
      case Nonces => nonces
      case Storages => storages
    }
  }

  function Grow(sink: Sink, before: Frame, rows: seq<Row>): Frame {
    if sink.Active() then Filled(sink.schema.value, before, rows) else before
  }

  // One list of rows for each table.
  datatype RowSets = RowSets(balances: seq<Row>, codes: seq<Row>, nonces: seq<Row>, storages: seq<Row>)

  function VisitRows(d: Diff, index: Index, v: Visit): RowSets {
    RowSets(KeyRows(Balances, d, index, VisitKeys(Balances, v)), KeyRows(Codes, d, index, VisitKeys(Codes, v)),
            KeyRows(Nonces, d, index, VisitKeys(Nonces, v)), KeyRows(Storages, d, index, VisitKeys(Storages, v)))
  }

  function WalkRows(d: Diff, index: Index, visits: seq<Visit>): RowSets {
    RowSets(KeyRows(Balances, d, index, Keys(Balances, visits)), KeyRows(Codes, d, index, Keys(Codes, visits)),
            KeyRows(Nonces, d, index, Keys(Nonces, visits)), KeyRows(Storages, d, index, Keys(Storages, visits)))
  }

  function ResponseRows(blockNumber: Option<nat>, txs: seq<Option<Bytes>>, diffs: seq<Diff>,
                        walks: seq<seq<Visit>>): RowSets
    requires |walks| <= |txs| && |walks| <= |diffs|
  {
    RowSets(BlockRows(Balances, blockNumber, txs, diffs, walks), BlockRows(Codes, blockNumber, txs, diffs, walks),
            BlockRows(Nonces, blockNumber, txs, diffs, walks), BlockRows(Storages, blockNumber, txs, diffs, walks))
  }

  // From `before` to `after`, every active table has gained its rows and every other stayed.
  predicate Grown(sinks: Sinks, before: Frames, rows: RowSets, after: Frames) {
    && after.balances == Grow(sinks.balances, before.balances, rows.balances)
    && after.codes == Grow(sinks.codes, before.codes, rows.codes)
    && after.nonces == Grow(sinks.nonces, before.nonces, rows.nonces)
    && after.storages == Grow(sinks.storages, before.storages, rows.storages)
  }

  lemma GrowAppend(sink: Sink, before: Frame, a: seq<Row>, b: seq<Row>)
    requires AllSound(a)
    ensures Grow(sink, before, a + b) == Grow(sink, Grow(sink, before, a), b)
  {
    if sink.Active() {
      FilledAppend(sink.schema.value, before, a, b);
    }
  }

  lemma {:induction false} KeysAppend(kind: Kind, visits: seq<Visit>, v: Visit)
    ensures Keys(kind, visits + [v]) == Keys(kind, visits) + VisitKeys(kind, v)
  {
    if visits == [] {
    } else {
      assert (visits + [v])[1..] == visits[1..] + [v];
      KeysAppend(kind, visits[1..], v);
    }
  }

  lemma WalkStep(kind: Kind, d: Diff, index: Index, visits: seq<Visit>, v: Visit)
    ensures KeyRows(kind, d, index, Keys(kind, visits + [v])) ==
            KeyRows(kind, d, index, Keys(kind, visits)) + KeyRows(kind, d, index, VisitKeys(kind, v))
    ensures AllSound(KeyRows(kind, d, index, Keys(kind, visits)))
  {
    KeysAppend(kind, visits, v);
    KeyRowsSound(kind, d, index, Keys(kind, visits));
  }

  lemma {:induction false} BlockRowsSound(kind: Kind, blockNumber: Option<nat>, txs: seq<Option<Bytes>>,
                                          diffs: seq<Diff>, walks: seq<seq<Visit>>)
    requires |walks| <= |txs| && |walks| <= |diffs|
    ensures AllSound(BlockRows(kind, blockNumber, txs, diffs, walks))
  {
    if walks == [] {
    } else {
      var n := |walks| - 1;
      BlockRowsSound(kind, blockNumber, txs, diffs, walks[..n]);
      KeyRowsSound(kind, diffs[n], Index(blockNumber, n, txs[n]), Keys(kind, walks[n]));
    }
  }

  lemma {:induction false} SomeOrder<T(!new)>(s: set<T>) returns (order: seq<T>)
    ensures Enumerates(order, s)
    decreases |s|
  {
    if s == {} {
      order := [];
    } else {
      var x :| x in s;
      order := SomeOrder(s - {x});
      order := order + [x];
    }
  }

  method FeedBalances(d: Diff, address: Address, pre: AccountState, post: AccountState, index: Index, sink: Sink)
    requires pre == AccountIn(d.pre, address) && post == AccountIn(d.post, address)
    modifies sink.Repr()
    ensures sink.Contents() == Grow(sink, old(sink.Contents()), KeyRows(Balances, d, index, [Key(address, None)]))
  {
    if sink.Active() {
      AddBalances(d, address, pre, post, index, sink.table, sink.schema.value);
    }
  }

  method FeedCodes(d: Diff, address: Address, pre: AccountState, post: AccountState, index: Index, sink: Sink)
    requires pre == AccountIn(d.pre, address) && post == AccountIn(d.post, address)
    modifies sink.Repr()
    ensures sink.Contents() == Grow(sink, old(sink.Contents()), KeyRows(Codes, d, index, [Key(address, None)]))
  {
    if sink.Active() {
      AddCodes(d, address, pre, post, index, sink.table, sink.schema.value);
    }
  }

  method FeedNonces(d: Diff, address: Address, pre: AccountState, post: AccountState, index: Index, sink: Sink)
    requires pre == AccountIn(d.pre, address) && post == AccountIn(d.post, address)
    modifies sink.Repr()
    ensures sink.Contents() == Grow(sink, old(sink.Contents()), KeyRows(Nonces, d, index, [Key(address, None)]))
  {
    if sink.Active() {
      AddNonces(d, address, pre, post, index, sink.table, sink.schema.value);
    }
  }

  method FeedStorages(d: Diff, address: Address, pre: AccountState, post: AccountState, index: Index, sink: Sink)
    returns (ghost slots: seq<B256>)
    requires pre == AccountIn(d.pre, address) && post == AccountIn(d.post, address)
    modifies sink.Repr()
    ensures Enumerates(slots, Slots(d, address))
    ensures sink.Contents() ==
            Grow(sink, old(sink.Contents()), KeyRows(Storages, d, index, VisitKeys(Storages, Visit(address, slots))))
  {
    slots := SomeOrder(Slots(d, address));
    if sink.Active() {
      slots := AddStorages(d, address, pre, post, index, sink.table, sink.schema.value);
    }
  }

  // One account: a row in each active table, and one a slot in the storage table.
  method VisitAddress(d: Diff, address: Address, index: Index, sinks: Sinks) returns (ghost v: Visit)
    requires sinks.Apart()
    modifies sinks.Repr()
    ensures v.address == address && Enumerates(v.slots, Slots(d, address))
    ensures Grown(sinks, old(sinks.Contents()), VisitRows(d, index, v), sinks.Contents())
  {
    var pre, post := AccountIn(d.pre, address), AccountIn(d.post, address);
    FeedBalances(d, address, pre, post, index, sinks.balances);
    FeedCodes(d, address, pre, post, index, sinks.codes);
    FeedNonces(d, address, pre, post, index, sinks.nonces);
    ghost var slots := FeedStorages(d, address, pre, post, index, sinks.storages);
    v := Visit(address, slots);
  }

  lemma GrowWalk(kind: Kind, sink: Sink, before: Frame, d: Diff, index: Index, visits: seq<Visit>, v: Visit)
    ensures Grow(sink, before, KeyRows(kind, d, index, Keys(kind, visits + [v]))) ==
            Grow(sink, Grow(sink, before, KeyRows(kind, d, index, Keys(kind, visits))),
                 KeyRows(kind, d, index, VisitKeys(kind, v)))
  {
    WalkStep(kind, d, index, visits, v);
    GrowAppend(sink, before, KeyRows(kind, d, index, Keys(kind, visits)), KeyRows(kind, d, index, VisitKeys(kind, v)));
  }

  lemma GrowWalks(sinks: Sinks, before: Frames, mid: Frames, after: Frames, d: Diff, index: Index,
                  visits: seq<Visit>, v: Visit)
    requires Grown(sinks, before, WalkRows(d, index, visits), mid) && Grown(sinks, mid, VisitRows(d, index, v), after)
    ensures Grown(sinks, before, WalkRows(d, index, visits + [v]), after)
  {
    GrowWalk(Balances, sinks.balances, before.balances, d, index, visits, v);
    GrowWalk(Codes, sinks.codes, before.codes, d, index, visits, v);
    GrowWalk(Nonces, sinks.nonces, before.nonces, d, index, visits, v);
    GrowWalk(Storages, sinks.storages, before.storages, d, index, visits, v);
  }

  lemma WalksStep(visits: seq<Visit>, d: Diff, remaining: set<Address>, v: Visit)
    requires v.address in remaining && remaining <= Touched(d) && Walks(visits, d, Touched(d) - remaining)
    requires Enumerates(v.slots, Slots(d, v.address))
    ensures Walks(visits + [v], d, Touched(d) - (remaining - {v.address}))
  {
    EnumeratesStep(Addresses(visits), Touched(d), remaining, v.address);
    assert Addresses(visits + [v]) == Addresses(visits) + [v.address];
  }

  // One transaction: every account of the diff once, in the order its hash set yields.
  method ProcessDiff(d: Diff, index: Index, sinks: Sinks) returns (ghost visits: seq<Visit>)
    requires sinks.Apart()
    modifies sinks.Repr()
    ensures Walks(visits, d, Touched(d)) &&
            Grown(sinks, old(sinks.Contents()), WalkRows(d, index, visits), sinks.Contents())
  {
    var remaining := d.pre.Keys + d.post.Keys;
    visits := [];
    while remaining != {}
      invariant remaining <= Touched(d) && Walks(visits, d, Touched(d) - remaining)
      invariant Grown(sinks, old(sinks.Contents()), WalkRows(d, index, visits), sinks.Contents())
      decreases |remaining|
    {
      var address :| address in remaining;
      ghost var mid := sinks.Contents();
      ghost var v := VisitAddress(d, address, index, sinks);
      GrowWalks(sinks, old(sinks.Contents()), mid, sinks.Contents(), d, index, visits, v);
      WalksStep(visits, d, remaining, v);
      remaining := remaining - {address};
      visits := visits + [v];
    }
    assert Touched(d) - remaining == Touched(d);
  }

  lemma GrowBlock(kind: Kind, sink: Sink, before: Frame, blockNumber: Option<nat>, txs: seq<Option<Bytes>>,
                  diffs: seq<Diff>, walks: seq<seq<Visit>>, visits: seq<Visit>)
    requires |walks| < |txs| && |walks| < |diffs|
    ensures var n := |walks|;
            Grow(sink, before, BlockRows(kind, blockNumber, txs, diffs, walks + [visits])) ==
            Grow(sink, Grow(sink, before, BlockRows(kind, blockNumber, txs, diffs, walks)),
                 KeyRows(kind, diffs[n], Index(blockNumber, n, txs[n]), Keys(kind, visits)))
  {
    var n := |walks|;
    assert (walks + [visits])[..n] == walks;
    BlockRowsSound(kind, blockNumber, txs, diffs, walks);
    GrowAppend(sink, before, BlockRows(kind, blockNumber, txs, diffs, walks),
               KeyRows(kind, diffs[n], Index(blockNumber, n, txs[n]), Keys(kind, visits)));
  }

  lemma GrowBlocks(sinks: Sinks, before: Frames, mid: Frames, after: Frames, blockNumber: Option<nat>,
                   txs: seq<Option<Bytes>>, diffs: seq<Diff>, walks: seq<seq<Visit>>, visits: seq<Visit>)
    requires |walks| < |txs| && |walks| < |diffs|
    requires Grown(sinks, before, ResponseRows(blockNumber, txs, diffs, walks), mid)
    requires Grown(sinks, mid, WalkRows(diffs[|walks|], Index(blockNumber, |walks|, txs[|walks|]), visits), after)
    ensures Grown(sinks, before, ResponseRows(blockNumber, txs, diffs, walks + [visits]), after)
  {
    GrowBlock(Balances, sinks.balances, before.balances, blockNumber, txs, diffs, walks, visits);
    GrowBlock(Codes, sinks.codes, before.codes, blockNumber, txs, diffs, walks, visits);
    GrowBlock(Nonces, sinks.nonces, before.nonces, blockNumber, txs, diffs, walks, visits);
    GrowBlock(Storages, sinks.storages, before.storages, blockNumber, txs, diffs, walks, visits);
  }

  function Min(a: nat, b: nat): nat {
    if a < b then a else b
  }

  ghost predicate WalksAll(walks: seq<seq<Visit>>, diffs: seq<Diff>)
    requires |walks| <= |diffs|
  {
    forall i | 0 <= i < |walks| :: Walks(walks[i], diffs[i], Touched(diffs[i]))
  }

  // One turn of the loop over transactions, on top of what earlier turns have left.
  method ProcessTransaction(blockNumber: Option<nat>, txs: seq<Option<Bytes>>, diffs: seq<Diff>, i: nat, sinks: Sinks,
                            ghost before: Frames, ghost walks: seq<seq<Visit>>) returns (ghost visits: seq<Visit>)
    requires sinks.Apart() && i == |walks| < |txs| && i < |diffs|
    requires WalksAll(walks, diffs) &&
             Grown(sinks, before, ResponseRows(blockNumber, txs, diffs, walks), sinks.Contents())
    modifies sinks.Repr()
    ensures WalksAll(walks + [visits], diffs)
    ensures Grown(sinks, before, ResponseRows(blockNumber, txs, diffs, walks + [visits]), sinks.Contents())
  {
    ghost var mid := sinks.Contents();
    visits := ProcessDiff(diffs[i], Index(blockNumber, i, txs[i]), sinks);
    GrowBlocks(sinks, before, mid, sinks.Contents(), blockNumber, txs, diffs, walks, visits);
  }

  // The whole response. Transaction hashes and diffs are paired up, the shorter list
  // decides, and a transaction index that is no `u32` ends the call.
  method ProcessGethDiffs(blockNumber: Option<nat>, txs: seq<Option<Bytes>>, diffs: seq<Diff>, sinks: Sinks)
    returns (error: Option<Error>, ghost walks: seq<seq<Visit>>)
    requires sinks.Apart()
    modifies sinks.Repr()
    ensures |walks| == Min(Min(|txs|, |diffs|), U32_LIMIT) && WalksAll(walks, diffs)
    ensures error == if Min(|txs|, |diffs|) > U32_LIMIT then Some(OutOfRange(U32_LIMIT)) else None
    ensures Grown(sinks, old(sinks.Contents()), ResponseRows(blockNumber, txs, diffs, walks), sinks.Contents())
  {
    walks := [];
    var i := 0;
    while i < |txs| && i < |diffs|
      invariant i <= |txs| && i <= |diffs| && i <= U32_LIMIT && |walks| == i && WalksAll(walks, diffs)
      invariant Grown(sinks, old(sinks.Contents()), ResponseRows(blockNumber, txs, diffs, walks), sinks.Contents())
    {
      if ToU32(i).Err? {
        error := Some(ToU32(i).error);
        return;
      }
      ghost var visits := ProcessTransaction(blockNumber, txs, diffs, i, sinks, old(sinks.Contents()), walks);
      walks := walks + [visits];
      i := i + 1;
    }
    error := None;
  }
}
