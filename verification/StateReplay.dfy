// What the rows of the state diff tables say: one row a touched place, in whatever order the
// hash sets are walked, and enough to replay a block forwards and backwards.
module StateReplay {
  import opened Prelude
  import opened RpcParams
  import opened Columns
  import opened GethStateDiffs

  // --- one row a place ---

  lemma {:induction false} KeysOfVisits(kind: Kind, d: Diff, visits: seq<Visit>)
    requires Unique(Addresses(visits)) && forall v | v in visits :: Enumerates(v.slots, Slots(d, v.address))
    ensures Unique(Keys(kind, visits))
    ensures forall key :: key in Keys(kind, visits) <==>
              key.address in Addresses(visits) &&
              if kind.Storages? then key.slot.Some? && key.slot.value in Slots(d, key.address) else key.slot.None?
  {
    if visits == [] {
    } else {
      var v, rest := visits[0], visits[1..];
      assert Addresses(visits) == [v.address] + Addresses(rest);
      assert Unique(Addresses(rest)) && v.address !in Addresses(rest) by {
        assert forall i | 0 <= i < |rest| :: Addresses(rest)[i] == Addresses(visits)[i + 1];
      }
      KeysOfVisits(kind, d, rest);
      VisitKeysOf(kind, d, v);
      UniqueJoinIff(VisitKeys(kind, v), Keys(kind, rest));
    }
  }

  lemma VisitKeysOf(kind: Kind, d: Diff, v: Visit)
    requires Enumerates(v.slots, Slots(d, v.address))
    ensures Unique(VisitKeys(kind, v))
    ensures forall key :: key in VisitKeys(kind, v) <==>
              key.address == v.address &&
              if kind.Storages? then key.slot.Some? && key.slot.value in Slots(d, key.address) else key.slot.None?
  {
    var keys := VisitKeys(kind, v);
    if kind.Storages? {
      forall key: Key | key.address == v.address && key.slot.Some? && key.slot.value in Slots(d, v.address)
        ensures key in keys
      {
        var i :| 0 <= i < |v.slots| && v.slots[i] == key.slot.value;
        assert keys[i] == key;
      }
    }
  }

  // Walking a diff meets every place it touches, and each of them once.
  lemma WalkMeetsEachKeyOnce(kind: Kind, d: Diff, visits: seq<Visit>)
    requires Walks(visits, d, Touched(d))
    ensures Unique(Keys(kind, visits)) && forall key :: key in Keys(kind, visits) <==> IsKey(kind, d, key)
  {
    KeysOfVisits(kind, d, visits);
    assert forall a :: a in Addresses(visits) <==> a in Touched(d);
  }

  // --- reading a table ---

  const PLAIN_NAMES: seq<Column> :=
    [BlockNumber, TransactionIndex, TransactionHash, AccountAddress, FromValue, ToValue]
  const SLOT_NAMES: seq<Column> :=
    [BlockNumber, TransactionIndex, TransactionHash, AccountAddress, Slot, FromValue, ToValue]

  function DiffNames(kind: Kind): (names: seq<Column>)
    ensures Unique(names)
  {
    if kind.Storages? then SLOT_NAMES else PLAIN_NAMES
  }

  // The columns that a change is read from.
  function ChangeColumns(kind: Kind): set<Column> {
    {AccountAddress, FromValue, ToValue} + if kind.Storages? then {Slot} else {}
  }

  // A place as the rows of one table give it: only the storage table has a slot column.
  predicate Placed(kind: Kind, key: Key) {
    key.slot.Some? <==> kind.Storages?
  }

  // What a row of any of the four tables says.
  datatype Change = Change(key: Key, from: Result<Cell>, to: Result<Cell>)

  function ReadKey(kind: Kind, read: Reader): Key {
    Key(NumAt(read, AccountAddress), if kind.Storages? then OptNumAt(read, Slot) else None)
  }

  function ReadChange(kind: Kind): Reader -> Change {
    (read: Reader) => Change(ReadKey(kind, read), read(FromValue), read(ToValue))
  }

  // What a table says from row `from` on.
  function TableChanges(kind: Kind, f: Frame, from: nat): seq<Change> {
    ReadTable(f, from, ReadChange(kind))
  }

  function KeyChange(kind: Kind, d: Diff, key: Key): Change {
    Change(key, Ok(From(kind, d, key)), Ok(To(kind, d, key)))
  }

  function KeyChanges(kind: Kind, d: Diff, keys: seq<Key>): (r: seq<Change>)
    ensures |r| == |keys| && forall i | 0 <= i < |r| :: r[i] == KeyChange(kind, d, keys[i])
  {
    seq(|keys|, i requires 0 <= i < |keys| => KeyChange(kind, d, keys[i]))
  }

  lemma DiffRowNames(kind: Kind, d: Diff, index: Index, key: Key)
    requires Placed(kind, key)
    ensures Names(KeyRow(kind, d, index, key), DiffNames(kind))
  {
  }

  lemma KeySaid(schema: Schema, read: Reader, kind: Kind, row: Row, key: Key)
    requires Placed(kind, key) && Names(row, DiffNames(kind)) && Says(schema, read, DiffNames(kind), row)
    requires row[3] == Entry(AccountAddress, Ok(Num(key.address)))
    requires kind.Storages? ==> row[4] == Entry(Slot, Ok(Num(key.slot.value)))
    requires ChangeColumns(kind) <= schema
    ensures ReadKey(kind, read) == key
  {
    SaysCell(schema, read, DiffNames(kind), row, 3, row[3]);
    if kind.Storages? {
      SaysCell(schema, read, DiffNames(kind), row, 4, row[4]);
    }
  }

  lemma ValuesSaid(schema: Schema, read: Reader, names: seq<Column>, row: Row, k: nat, from: Cell, to: Cell)
    requires Names(row, names) && Says(schema, read, names, row) && k + 2 == |row|
    requires row[k] == Entry(FromValue, Ok(from)) && row[k + 1] == Entry(ToValue, Ok(to))
    requires {FromValue, ToValue} <= schema
    ensures read(FromValue) == Ok(from) && read(ToValue) == Ok(to)
  {
    SaysCell(schema, read, names, row, k, row[k]);
    SaysCell(schema, read, names, row, k + 1, row[k + 1]);
  }

  lemma ReadsChange(schema: Schema, kind: Kind, row: Row, key: Key, from: Cell, to: Cell)
    requires Placed(kind, key) && Names(row, DiffNames(kind)) && ChangeColumns(kind) <= schema
    requires row[3] == Entry(AccountAddress, Ok(Num(key.address)))
    requires kind.Storages? ==> row[4] == Entry(Slot, Ok(Num(key.slot.value)))
    requires row[|row| - 2] == Entry(FromValue, Ok(from)) && row[|row| - 1] == Entry(ToValue, Ok(to))
    ensures Parses(schema, ReadChange(kind), DiffNames(kind), row, Change(key, Ok(from), Ok(to)))
  {
    forall read: Reader | Says(schema, read, DiffNames(kind), row)
      ensures ReadChange(kind)(read) == Change(key, Ok(from), Ok(to))
    {
      KeySaid(schema, read, kind, row, key);
      ValuesSaid(schema, read, DiffNames(kind), row, |row| - 2, from, to);
    }
  }

  // A row says its place, with the value there before and after.
  lemma RowSaysChange(schema: Schema, kind: Kind, d: Diff, index: Index, key: Key)
    requires Placed(kind, key) && ChangeColumns(kind) <= schema
    ensures Parses(schema, ReadChange(kind), DiffNames(kind), KeyRow(kind, d, index, key), KeyChange(kind, d, key))
  {
    var from, to := From(kind, d, key), To(kind, d, key);
    DiffRowNames(kind, d, index, key);
    ReadsChange(schema, kind, DiffRow(index, key, from, to), key, from, to);
  }

  ghost predicate RowSays(schema: Schema, kind: Kind, row: Row, change: Change) {
    Names(row, DiffNames(kind)) && Sound(row) && Parses(schema, ReadChange(kind), DiffNames(kind), row, change)
  }

  ghost predicate RowsSay(schema: Schema, kind: Kind, rows: seq<Row>, changes: seq<Change>) {
    && |changes| == |rows|
    && forall i | 0 <= i < |rows| :: RowSays(schema, kind, rows[i], changes[i])
  }

  lemma KeyRowsSay(schema: Schema, kind: Kind, d: Diff, index: Index, keys: seq<Key>)
    requires ChangeColumns(kind) <= schema && forall key | key in keys :: Placed(kind, key)
    ensures RowsSay(schema, kind, KeyRows(kind, d, index, keys), KeyChanges(kind, d, keys))
  {
    forall i | 0 <= i < |keys|
      ensures RowSays(schema, kind, KeyRow(kind, d, index, keys[i]), KeyChange(kind, d, keys[i]))
    {
      DiffRowNames(kind, d, index, keys[i]);
      DiffRowSound(index, keys[i], From(kind, d, keys[i]), To(kind, d, keys[i]));
      RowSaysChange(schema, kind, d, index, keys[i]);
    }
  }

  lemma RowsSayJoin(schema: Schema, kind: Kind, a: seq<Row>, changesA: seq<Change>, b: seq<Row>, changesB: seq<Change>)
    requires RowsSay(schema, kind, a, changesA) && RowsSay(schema, kind, b, changesB)
    ensures RowsSay(schema, kind, a + b, changesA + changesB)
  {
    forall i | 0 <= i < |a + b|
      ensures RowSays(schema, kind, (a + b)[i], (changesA + changesB)[i])
    {
      if i < |a| {
        assert RowSays(schema, kind, a[i], changesA[i]);
      } else {
        assert RowSays(schema, kind, b[i - |a|], changesB[i - |a|]);
      }
    }
  }

  // A table that stores every column a change is read from.
  ghost predicate StoresChanges(kind: Kind, schema: Schema, f: Frame) {
    Aligned(schema, DiffNames(kind), f) && ChangeColumns(kind) <= schema
  }

  lemma ChangesStored(kind: Kind, schema: Schema, f: Frame, rows: seq<Row>, changes: seq<Change>)
    requires StoresChanges(kind, schema, f) && RowsSay(schema, kind, rows, changes)
    ensures TableChanges(kind, Filled(schema, f, rows), f.nRows) == changes
  {
    SoundRowsFill(schema, f, rows);
    ReadStored(schema, DiffNames(kind), f, rows, ReadChange(kind), changes);
  }

  lemma ChangesOfKeys(kind: Kind, d: Diff, keys: seq<Key>)
    requires Unique(keys)
    ensures forall i, j | 0 <= i < j < |keys| :: KeyChanges(kind, d, keys)[i].key != KeyChanges(kind, d, keys)[j].key
    ensures forall change :: change in KeyChanges(kind, d, keys) <==>
              change.key in keys && change == KeyChange(kind, d, change.key)
  {
    var changes := KeyChanges(kind, d, keys);
    forall key | key in keys
      ensures KeyChange(kind, d, key) in changes
    {
      var i :| 0 <= i < |keys| && keys[i] == key;
      assert changes[i] == KeyChange(kind, d, key);
    }
  }

  // --- the transaction of a row ---

  function ReadIndex(read: Reader): Index {
    Index(OptNumAt(read, BlockNumber), NumAt(read, TransactionIndex), OptBinAt(read, TransactionHash))
  }

  // The transactions that the rows of a table name, from row `from` on.
  function TableIndices(f: Frame, from: nat): seq<Index> {
    ReadTable(f, from, ReadIndex)
  }

  // A transaction as the selected columns show it.
  function ShownIndex(schema: Schema, at: Index): Index {
    Index(SeenOpt(schema, BlockNumber, at.blockNumber), Seen(schema, TransactionIndex, at.transactionIndex),
          SeenBin(schema, TransactionHash, at.transactionHash))
  }

  function ShownIndices(schema: Schema, ats: seq<Index>): (r: seq<Index>)
    ensures |r| == |ats| && forall i | 0 <= i < |r| :: r[i] == ShownIndex(schema, ats[i])
  {
    seq(|ats|, i requires 0 <= i < |ats| => ShownIndex(schema, ats[i]))
  }

  lemma IndexSaid(schema: Schema, read: Reader, names: seq<Column>, row: Row, at: Index)
    requires Names(row, names) && Says(schema, read, names, row) && |row| >= 3
    requires row[0] == Entry(BlockNumber, OptNumCell(at.blockNumber))
    requires row[1] == Entry(TransactionIndex, Ok(Num(at.transactionIndex)))
    requires row[2] == Entry(TransactionHash, Ok(HashCell(at.transactionHash)))
    ensures ReadIndex(read) == ShownIndex(schema, at)
  {
    SaysOptNum(schema, read, names, row, 0, BlockNumber, at.blockNumber);
    SaysNum(schema, read, names, row, 1, TransactionIndex, at.transactionIndex);
    SaysCell(schema, read, names, row, 2, row[2]);
  }

  ghost predicate RowNames(schema: Schema, kind: Kind, row: Row, at: Index) {
    Names(row, DiffNames(kind)) && Sound(row) && Parses(schema, ReadIndex, DiffNames(kind), row, ShownIndex(schema, at))
  }

  ghost predicate RowsName(schema: Schema, kind: Kind, rows: seq<Row>, ats: seq<Index>) {
    |ats| == |rows| && forall i | 0 <= i < |rows| :: RowNames(schema, kind, rows[i], ats[i])
  }

  // A row names its transaction.
  lemma RowNamesIndex(schema: Schema, kind: Kind, d: Diff, index: Index, key: Key)
    requires Placed(kind, key)
    ensures RowNames(schema, kind, KeyRow(kind, d, index, key), index)
  {
    var row := KeyRow(kind, d, index, key);
    DiffRowNames(kind, d, index, key);
    DiffRowSound(index, key, From(kind, d, key), To(kind, d, key));
    forall read: Reader | Says(schema, read, DiffNames(kind), row)
      ensures ReadIndex(read) == ShownIndex(schema, index)
    {
      IndexSaid(schema, read, DiffNames(kind), row, index);
    }
  }

  function Times(index: Index, n: nat): (r: seq<Index>)
    ensures |r| == n && forall i | 0 <= i < n :: r[i] == index
  {
    seq(n, _ => index)
  }

  lemma KeyRowsName(schema: Schema, kind: Kind, d: Diff, index: Index, keys: seq<Key>)
    requires forall key | key in keys :: Placed(kind, key)
    ensures RowsName(schema, kind, KeyRows(kind, d, index, keys), Times(index, |keys|))
  {
    forall i | 0 <= i < |keys|
      ensures RowNames(schema, kind, KeyRow(kind, d, index, keys[i]), index)
    {
      RowNamesIndex(schema, kind, d, index, keys[i]);
    }
  }

  lemma RowsNameJoin(schema: Schema, kind: Kind, a: seq<Row>, atsA: seq<Index>, b: seq<Row>, atsB: seq<Index>)
    requires RowsName(schema, kind, a, atsA) && RowsName(schema, kind, b, atsB)
    ensures RowsName(schema, kind, a + b, atsA + atsB)
  {
    forall i | 0 <= i < |a + b|
      ensures RowNames(schema, kind, (a + b)[i], (atsA + atsB)[i])
    {
      if i < |a| {
        assert RowNames(schema, kind, a[i], atsA[i]);
      } else {
        assert RowNames(schema, kind, b[i - |a|], atsB[i - |a|]);
      }
    }
  }

  lemma IndicesStored(kind: Kind, schema: Schema, f: Frame, rows: seq<Row>, ats: seq<Index>)
    requires Aligned(schema, DiffNames(kind), f) && RowsName(schema, kind, rows, ats)
    ensures TableIndices(Filled(schema, f, rows), f.nRows) == ShownIndices(schema, ats)
  {
    SoundRowsFill(schema, f, rows);
    ReadStored(schema, DiffNames(kind), f, rows, ReadIndex, ShownIndices(schema, ats));
  }

  // What an account list says of a place; nothing, where the account, the field or the slot is
  // missing.
  function Told(kind: Kind, accounts: map<Address, AccountState>, key: Key): Option<Cell> {
    if key.address !in accounts then None
    else match kind
      case Balances => ToldNumber(accounts[key.address].balance)
      case Codes => if accounts[key.address].code.Some? then Some(Bin(accounts[key.address].code.value)) else None
      case Nonces => ToldNumber(accounts[key.address].nonce)
      case Storages =>
        if key.slot.Some? && key.slot.value in accounts[key.address].storage
        then Some(Num(accounts[key.address].storage[key.slot.value])) else None
  }

  function ToldNumber(n: Option<nat>): Option<Cell> {
    if n.Some? then Some(Num(n.value)) else None
  }

  // What a place without a value holds: zero, or empty code.
  function Blank(kind: Kind): Cell {
    if kind.Codes? then Bin([]) else Num(0)
  }

  lemma ValuesAreTold(kind: Kind, d: Diff, key: Key)
    requires Placed(kind, key)
    ensures From(kind, d, key) == OrElse(Told(kind, d.pre, key), Blank(kind))
    ensures To(kind, d, key) == OrElse(Told(kind, d.post, key), Blank(kind))
  {
  }

  // A change of a place that the diff touches, with the values that the node tells.
  predicate IsTold(kind: Kind, d: Diff, change: Change) {
    && IsKey(kind, d, change.key)
    && change.from == Ok(OrElse(Told(kind, d.pre, change.key), Blank(kind)))
    && change.to == Ok(OrElse(Told(kind, d.post, change.key), Blank(kind)))
  }

  predicate OneAKey(changes: seq<Change>) {
    forall i, j | 0 <= i < j < |changes| :: changes[i].key != changes[j].key
  }

  lemma ToldChange(kind: Kind, d: Diff, change: Change)
    requires IsKey(kind, d, change.key)
    ensures change == KeyChange(kind, d, change.key) <==> IsTold(kind, d, change)
  {
    ValuesAreTold(kind, d, change.key);
  }

  lemma ToldChanges(kind: Kind, d: Diff, keys: seq<Key>)
    requires Unique(keys) && forall key :: key in keys <==> IsKey(kind, d, key)
    ensures OneAKey(KeyChanges(kind, d, keys))
    ensures forall change :: change in KeyChanges(kind, d, keys) <==> IsTold(kind, d, change)
  {
    ChangesOfKeys(kind, d, keys);
    forall change: Change
      ensures change in KeyChanges(kind, d, keys) <==> IsTold(kind, d, change)
    {
      if IsKey(kind, d, change.key) {
        ToldChange(kind, d, change);
      }
    }
  }

  // What a walk of one diff leaves in a table is exactly one row for every place the diff
  // touches, with the value that the node tells before it and after it; a missing account, field or
  // slot reads as zero, for code as empty. Each row names the transaction of the diff.
  lemma OneRowAKey(kind: Kind, d: Diff, index: Index, visits: seq<Visit>, schema: Schema, f: Frame)
    requires Walks(visits, d, Touched(d)) && StoresChanges(kind, schema, f)
    ensures var changes := TableChanges(kind, Filled(schema, f, KeyRows(kind, d, index, Keys(kind, visits))), f.nRows);
            OneAKey(changes) && forall change :: change in changes <==> IsTold(kind, d, change)
    ensures var g := Filled(schema, f, KeyRows(kind, d, index, Keys(kind, visits)));
            forall at | at in TableIndices(g, f.nRows) :: at == ShownIndex(schema, index)
  {
    var keys := Keys(kind, visits);
    WalkMeetsEachKeyOnce(kind, d, visits);
    ToldChanges(kind, d, keys);
    KeysStored(kind, d, index, keys, schema, f);
  }

  lemma KeysStored(kind: Kind, d: Diff, index: Index, keys: seq<Key>, schema: Schema, f: Frame)
    requires StoresChanges(kind, schema, f) && forall key | key in keys :: Placed(kind, key)
    ensures var g := Filled(schema, f, KeyRows(kind, d, index, keys));
            && TableChanges(kind, g, f.nRows) == KeyChanges(kind, d, keys)
            && forall at | at in TableIndices(g, f.nRows) :: at == ShownIndex(schema, index)
  {
    KeyRowsSay(schema, kind, d, index, keys);
    ChangesStored(kind, schema, f, KeyRows(kind, d, index, keys), KeyChanges(kind, d, keys));
    KeyRowsName(schema, kind, d, index, keys);
    IndicesStored(kind, schema, f, KeyRows(kind, d, index, keys), Times(index, |keys|));
  }

  // --- the order does not matter ---

  lemma {:induction false} UniqueCounts<T>(s: seq<T>)
    requires Unique(s)
    ensures forall x | x in s :: multiset(s)[x] == 1
  {
    if s == [] {
    } else {
      assert s == [s[0]] + s[1..];
      UniqueCounts(s[1..]);
      assert s[0] !in s[1..] by {
        assert forall i | 0 <= i < |s[1..]| :: s[1..][i] == s[i + 1];
      }
    }
  }

  lemma SameMembersSameMultiset<T>(a: seq<T>, b: seq<T>)
    requires Unique(a) && Unique(b) && (forall x | x in a :: x in b) && (forall x | x in b :: x in a)
    ensures multiset(a) == multiset(b)
  {
    UniqueCounts(a);
    UniqueCounts(b);
    forall x
      ensures multiset(a)[x] == multiset(b)[x]
    {
      assert x in multiset(a) <==> x in a;
      assert x in multiset(b) <==> x in b;
    }
  }

  function Map<T, R>(f: T -> R, s: seq<T>): (r: seq<R>)
    ensures |r| == |s| && forall i | 0 <= i < |s| :: r[i] == f(s[i])
  {
    seq(|s|, i requires 0 <= i < |s| => f(s[i]))
  }

  lemma Pull<T>(s: seq<T>, k: nat)
    requires k < |s|
    ensures multiset(s) == multiset(s[..k] + s[k + 1..]) + multiset{s[k]}
  {
    assert s == s[..k] + [s[k]] + s[k + 1..];
  }

  lemma PullMapped<T, R>(f: T -> R, s: seq<T>, k: nat)
    requires k < |s|
    ensures multiset(Map(f, s)) == multiset(Map(f, s[..k] + s[k + 1..])) + multiset{f(s[k])}
  {
    Pull(Map(f, s), k);
    assert Map(f, s[..k] + s[k + 1..]) == Map(f, s)[..k] + Map(f, s)[k + 1..];
  }

  lemma Cancel<T>(m: multiset<T>, n: multiset<T>, x: T)
    requires m + multiset{x} == n + multiset{x}
    ensures m == n
  {
    assert m == (m + multiset{x}) - multiset{x} && n == (n + multiset{x}) - multiset{x};
  }

  lemma PulledPermute<T>(a: seq<T>, b: seq<T>, k: nat)
    requires a != [] && k < |b| && b[k] == a[0] && multiset(a) == multiset(b)
    ensures multiset(a[..0] + a[1..]) == multiset(b[..k] + b[k + 1..])
  {
    Pull(a, 0);
    Pull(b, k);
    Cancel(multiset(a[..0] + a[1..]), multiset(b[..k] + b[k + 1..]), a[0]);
  }

  lemma {:induction false} MapPermutes<T, R>(f: T -> R, a: seq<T>, b: seq<T>)
    requires multiset(a) == multiset(b)
    ensures multiset(Map(f, a)) == multiset(Map(f, b))
    decreases |a|
  {
    if a == [] {
      assert |multiset(b)| == 0;
    } else {
      assert a[0] in multiset(b);
      var k :| 0 <= k < |b| && b[k] == a[0];
      PulledPermute(a, b, k);
      MapPermutes(f, a[..0] + a[1..], b[..k] + b[k + 1..]);
      PullMapped(f, a, 0);
      PullMapped(f, b, k);
    }
  }

  lemma RowsOfPermutedKeys(kind: Kind, d: Diff, index: Index, a: seq<Key>, b: seq<Key>)
    requires multiset(a) == multiset(b)
    ensures multiset(KeyRows(kind, d, index, a)) == multiset(KeyRows(kind, d, index, b))
  {
    var f := (key: Key) => KeyRow(kind, d, index, key);
    MapPermutes(f, a, b);
    assert KeyRows(kind, d, index, a) == Map(f, a) && KeyRows(kind, d, index, b) == Map(f, b);
  }

  // Any two walks of the same response give the same rows, as a multiset: a table filled
  // beside the others holds what it would hold filled alone.
  lemma {:induction false} OrderIrrelevant(kind: Kind, blockNumber: Option<nat>, txs: seq<Option<Bytes>>,
                                           diffs: seq<Diff>, a: seq<seq<Visit>>, b: seq<seq<Visit>>)
    requires |a| == |b| <= |txs| && |b| <= |diffs| && WalksAll(a, diffs) && WalksAll(b, diffs)
    ensures multiset(BlockRows(kind, blockNumber, txs, diffs, a)) ==
            multiset(BlockRows(kind, blockNumber, txs, diffs, b))
  {
    if a == [] {
    } else {
      var n := |a| - 1;
      OrderIrrelevant(kind, blockNumber, txs, diffs, a[..n], b[..n]);
      WalkMeetsEachKeyOnce(kind, diffs[n], a[n]);
      WalkMeetsEachKeyOnce(kind, diffs[n], b[n]);
      SameMembersSameMultiset(Keys(kind, a[n]), Keys(kind, b[n]));
      RowsOfPermutedKeys(kind, diffs[n], Index(blockNumber, n, txs[n]), Keys(kind, a[n]), Keys(kind, b[n]));
    }
  }

  // One pass over four tables leaves each of them with the rows of a pass over it alone, in
  // some order; a pass with other tables, or with none beside it, makes no difference.
  lemma FilledTogetherAsAlone(kind: Kind, together: Sinks, alone: Sinks, before: Frames, before': Frames,
                              after: Frames, after': Frames, blockNumber: Option<nat>, txs: seq<Option<Bytes>>,
                              diffs: seq<Diff>, walks: seq<seq<Visit>>, walks': seq<seq<Visit>>)
    requires |walks| == |walks'| <= |txs| && |walks| <= |diffs| && WalksAll(walks, diffs) && WalksAll(walks', diffs)
    requires Grown(together, before, ResponseRows(blockNumber, txs, diffs, walks), after)
    requires Grown(alone, before', ResponseRows(blockNumber, txs, diffs, walks'), after')
    requires together.Of(kind) == alone.Of(kind) && together.Of(kind).Active() && before.Of(kind) == before'.Of(kind)
    ensures var schema := together.Of(kind).schema.value;
            exists a, b :: multiset(a) == multiset(b) &&
                           after.Of(kind) == Filled(schema, before.Of(kind), a) &&
                           after'.Of(kind) == Filled(schema, before.Of(kind), b)
  {
    OrderIrrelevant(kind, blockNumber, txs, diffs, walks, walks');
    var schema := together.Of(kind).schema.value;
    var a, b := BlockRows(kind, blockNumber, txs, diffs, walks), BlockRows(kind, blockNumber, txs, diffs, walks');
    assert after.Of(kind) == Filled(schema, before.Of(kind), a);
    assert after'.Of(kind) == Filled(schema, before.Of(kind), b);
  }

  // --- replaying ---

  type State = map<Key, Cell>

  function Lookup(kind: Kind, s: State, key: Key): Cell {
    if key in s then s[key] else Blank(kind)
  }

  function CellOf(cell: Result<Cell>): Cell {
    if cell.Ok? then cell.value else Null
  }

  // Writes the new values, first row first.
  function Apply(changes: seq<Change>, s: State): State
    decreases |changes|
  {
    if changes == [] then s else Apply(changes[1..], s[changes[0].key := CellOf(changes[0].to)])
  }

  // Writes the old values, last row first.
  function Revert(changes: seq<Change>, s: State): State
    decreases |changes|
  {
    if changes == [] then s else Revert(changes[1..], s)[changes[0].key := CellOf(changes[0].from)]
  }

  ghost predicate Same(kind: Kind, s: State, t: State) {
    forall key :: Lookup(kind, s, key) == Lookup(kind, t, key)
  }

  // --- what the node tells of two states ---

  // The diff is one between `s` and `t`: every value that it gives is right, and outside the
  // places it touches the two states are the same. A value that it omits may be anything.
  ghost predicate IsDiff(kind: Kind, d: Diff, s: State, t: State) {
    && (forall key | IsKey(kind, d, key) && Told(kind, d.pre, key).Some? ::
          Told(kind, d.pre, key) == Some(Lookup(kind, s, key)))
    && (forall key | IsKey(kind, d, key) && Told(kind, d.post, key).Some? ::
          Told(kind, d.post, key) == Some(Lookup(kind, t, key)))
    && (forall key | !IsKey(kind, d, key) :: Lookup(kind, s, key) == Lookup(kind, t, key))
  }

  // Where one side of the diff omits the value of a touched place, the state is blank.
  ghost predicate OmitsBlanks(kind: Kind, d: Diff, accounts: map<Address, AccountState>, s: State) {
    forall key | IsKey(kind, d, key) && Told(kind, accounts, key).None? :: Lookup(kind, s, key) == Blank(kind)
  }

  lemma {:induction false} ApplyKeys(kind: Kind, d: Diff, keys: seq<Key>, s: State)
    ensures forall key :: Lookup(kind, Apply(KeyChanges(kind, d, keys), s), key) ==
                          if key in keys then To(kind, d, key) else Lookup(kind, s, key)
    decreases |keys|
  {
    if keys == [] {
    } else {
      assert KeyChanges(kind, d, keys)[1..] == KeyChanges(kind, d, keys[1..]);
      assert keys == [keys[0]] + keys[1..];
      ApplyKeys(kind, d, keys[1..], s[keys[0] := To(kind, d, keys[0])]);
    }
  }

  lemma {:induction false} RevertKeys(kind: Kind, d: Diff, keys: seq<Key>, s: State)
    ensures forall key :: Lookup(kind, Revert(KeyChanges(kind, d, keys), s), key) ==
                          if key in keys then From(kind, d, key) else Lookup(kind, s, key)
    decreases |keys|
  {
    if keys == [] {
    } else {
      assert KeyChanges(kind, d, keys)[1..] == KeyChanges(kind, d, keys[1..]);
      assert keys == [keys[0]] + keys[1..];
      RevertKeys(kind, d, keys[1..], s);
    }
  }

  lemma {:induction false} ReplayJoin(a: seq<Change>, b: seq<Change>, s: State)
    ensures Apply(a + b, s) == Apply(b, Apply(a, s)) && Revert(a + b, s) == Revert(a, Revert(b, s))
    decreases |a|
  {
    if a == [] {
      assert a + b == b;
    } else {
      assert (a + b)[1..] == a[1..] + b;
      ReplayJoin(a[1..], b, s[a[0].key := CellOf(a[0].to)]);
      ReplayJoin(a[1..], b, s);
    }
  }

  lemma AfterIff(kind: Kind, d: Diff, key: Key, there: Cell)
    requires IsKey(kind, d, key) && (Told(kind, d.post, key).Some? ==> Told(kind, d.post, key) == Some(there))
    ensures To(kind, d, key) == there <==> (Told(kind, d.post, key).None? ==> there == Blank(kind))
  {
    ValuesAreTold(kind, d, key);
  }

  lemma BeforeIff(kind: Kind, d: Diff, key: Key, there: Cell)
    requires IsKey(kind, d, key) && (Told(kind, d.pre, key).Some? ==> Told(kind, d.pre, key) == Some(there))
    ensures From(kind, d, key) == there <==> (Told(kind, d.pre, key).None? ==> there == Blank(kind))
  {
    ValuesAreTold(kind, d, key);
  }

  // One transaction: applying its rows to the state before it gives the state after it exactly
  // when every touched place whose new value the node omits is blank afterwards.
  lemma ApplyDiff(kind: Kind, d: Diff, visits: seq<Visit>, s: State, t: State, s': State)
    requires Walks(visits, d, Touched(d)) && IsDiff(kind, d, s, t) && Same(kind, s', s)
    ensures Same(kind, Apply(KeyChanges(kind, d, Keys(kind, visits)), s'), t) <==> OmitsBlanks(kind, d, d.post, t)
  {
    var keys := Keys(kind, visits);
    var next := Apply(KeyChanges(kind, d, keys), s');
    WalkMeetsEachKeyOnce(kind, d, visits);
    ApplyKeys(kind, d, keys, s');
    forall key
      ensures Lookup(kind, next, key) == Lookup(kind, t, key) <==>
              (IsKey(kind, d, key) && Told(kind, d.post, key).None? ==> Lookup(kind, t, key) == Blank(kind))
    {
      if IsKey(kind, d, key) {
        AfterIff(kind, d, key, Lookup(kind, t, key));
      }
    }
  }

  // Reverting them from the state after it gives the state before it exactly when every touched
  // place whose old value the node omits was blank.
  lemma RevertDiff(kind: Kind, d: Diff, visits: seq<Visit>, s: State, t: State, t': State)
    requires Walks(visits, d, Touched(d)) && IsDiff(kind, d, s, t) && Same(kind, t', t)
    ensures Same(kind, Revert(KeyChanges(kind, d, Keys(kind, visits)), t'), s) <==> OmitsBlanks(kind, d, d.pre, s)
  {
    var keys := Keys(kind, visits);
    var last := Revert(KeyChanges(kind, d, keys), t');
    WalkMeetsEachKeyOnce(kind, d, visits);
    RevertKeys(kind, d, keys, t');
    forall key
      ensures Lookup(kind, last, key) == Lookup(kind, s, key) <==>
              (IsKey(kind, d, key) && Told(kind, d.pre, key).None? ==> Lookup(kind, s, key) == Blank(kind))
    {
      if IsKey(kind, d, key) {
        BeforeIff(kind, d, key, Lookup(kind, s, key));
      }
    }
  }

  // A payment out of an account whose nonce stays 5: the node gives the nonce before, and omits
  // the one after because it has not changed. The nonce row says 5 and 0, and so does a replay.
  lemma UnchangedNonceReplaysAsZero()
    ensures var paid := Diff(map[1 := AccountState(Some(10), None, Some(5), map[])],
                             map[1 := AccountState(Some(7), None, None, map[])]);
            var key, s := Key(1, None), map[Key(1, None) := Num(5)];
            && IsDiff(Nonces, paid, s, s) && Keys(Nonces, [Visit(1, [])]) == [key]
            && KeyChanges(Nonces, paid, [key]) == [Change(key, Ok(Num(5)), Ok(Num(0)))]
            && !Same(Nonces, Apply(KeyChanges(Nonces, paid, [key]), s), s)
  {
    var key, s := Key(1, None), map[Key(1, None) := Num(5)];
    var changes := [Change(key, Ok(Num(5)), Ok(Num(0)))];
    assert Keys(Nonces, [Visit(1, [])][1..]) == [];
    assert Apply(changes, s) == s[key := Num(0)] by {
      assert changes[1..] == [];
    }
    assert Lookup(Nonces, Apply(changes, s), key) == Num(0);
  }

  // --- a whole block ---

  // The states between the transactions of a block.
  ghost predicate IsHistory(kind: Kind, diffs: seq<Diff>, states: seq<State>) {
    0 < |states| <= |diffs| + 1 && forall i | 0 <= i < |states| - 1 :: IsDiff(kind, diffs[i], states[i], states[i + 1])
  }

  // What the rows of a block say, transaction by transaction.
  function BlockChanges(kind: Kind, diffs: seq<Diff>, walks: seq<seq<Visit>>): seq<Change>
    requires |walks| <= |diffs|
  {
    if walks == [] then []
    else
      var n := |walks| - 1;
      BlockChanges(kind, diffs, walks[..n]) + KeyChanges(kind, diffs[n], Keys(kind, walks[n]))
  }

  lemma {:induction false} BlockRowsSay(schema: Schema, kind: Kind, blockNumber: Option<nat>, txs: seq<Option<Bytes>>,
                                        diffs: seq<Diff>, walks: seq<seq<Visit>>)
    requires ChangeColumns(kind) <= schema
    requires |walks| <= |txs| && |walks| <= |diffs| && WalksAll(walks, diffs)
    ensures RowsSay(schema, kind, BlockRows(kind, blockNumber, txs, diffs, walks), BlockChanges(kind, diffs, walks))
  {
    if walks == [] {
    } else {
      var n := |walks| - 1;
      var index, keys := Index(blockNumber, n, txs[n]), Keys(kind, walks[n]);
      BlockRowsSay(schema, kind, blockNumber, txs, diffs, walks[..n]);
      WalkMeetsEachKeyOnce(kind, diffs[n], walks[n]);
      KeyRowsSay(schema, kind, diffs[n], index, keys);
      RowsSayJoin(schema, kind,
                  BlockRows(kind, blockNumber, txs, diffs, walks[..n]), BlockChanges(kind, diffs, walks[..n]),
                  KeyRows(kind, diffs[n], index, keys), KeyChanges(kind, diffs[n], keys));
    }
  }

  // The transaction of each row of a block.
  function BlockIndices(kind: Kind, blockNumber: Option<nat>, txs: seq<Option<Bytes>>, walks: seq<seq<Visit>>)
      : seq<Index>
    requires |walks| <= |txs|
  {
    if walks == [] then []
    else
      var n := |walks| - 1;
      BlockIndices(kind, blockNumber, txs, walks[..n]) + Times(Index(blockNumber, n, txs[n]), |Keys(kind, walks[n])|)
  }

  lemma {:induction false} BlockRowsName(schema: Schema, kind: Kind, blockNumber: Option<nat>, txs: seq<Option<Bytes>>,
                                         diffs: seq<Diff>, walks: seq<seq<Visit>>)
    requires |walks| <= |txs| && |walks| <= |diffs| && WalksAll(walks, diffs)
    ensures RowsName(schema, kind, BlockRows(kind, blockNumber, txs, diffs, walks),
                     BlockIndices(kind, blockNumber, txs, walks))
  {
    if walks == [] {
    } else {
      var n := |walks| - 1;
      var index, keys := Index(blockNumber, n, txs[n]), Keys(kind, walks[n]);
      BlockRowsName(schema, kind, blockNumber, txs, diffs, walks[..n]);
      WalkMeetsEachKeyOnce(kind, diffs[n], walks[n]);
      KeyRowsName(schema, kind, diffs[n], index, keys);
      RowsNameJoin(schema, kind, BlockRows(kind, blockNumber, txs, diffs, walks[..n]),
                   BlockIndices(kind, blockNumber, txs, walks[..n]), KeyRows(kind, diffs[n], index, keys),
                   Times(index, |keys|));
    }
  }

  // How many rows the first `n` transactions have.
  function CountRows(kind: Kind, walks: seq<seq<Visit>>, n: nat): nat
    requires n <= |walks|
  {
    if n == 0 then 0 else CountRows(kind, walks, n - 1) + |Keys(kind, walks[n - 1])|
  }

  lemma {:induction false} BlockIndicesCount(kind: Kind, blockNumber: Option<nat>, txs: seq<Option<Bytes>>,
                                             walks: seq<seq<Visit>>, m: nat)
    requires m <= |walks| <= |txs|
    ensures |BlockIndices(kind, blockNumber, txs, walks[..m])| == CountRows(kind, walks, m)
  {
    if m > 0 {
      assert walks[..m][..m - 1] == walks[..m - 1];
      BlockIndicesCount(kind, blockNumber, txs, walks, m - 1);
    }
  }

  predicate IsAt<T(==)>(s: seq<T>, i: nat, x: T) {
    i < |s| && s[i] == x
  }

  lemma AtJoin(a: seq<Index>, x: Index, k: nat, i: nat, y: Index)
    requires if i < |a| then a[i] == y else i < |a| + k && x == y
    ensures IsAt(a + Times(x, k), i, y)
  {
  }

  lemma {:induction false} BlockIndicesAt(kind: Kind, blockNumber: Option<nat>, txs: seq<Option<Bytes>>,
                                          walks: seq<seq<Visit>>, n: nat, i: nat)
    requires n < |walks| <= |txs| && CountRows(kind, walks, n) <= i < CountRows(kind, walks, n + 1)
    ensures IsAt(BlockIndices(kind, blockNumber, txs, walks), i, Index(blockNumber, n, txs[n]))
    decreases |walks|
  {
    var m := |walks| - 1;
    var before, last := BlockIndices(kind, blockNumber, txs, walks[..m]), Index(blockNumber, m, txs[m]);
    BlockIndicesCount(kind, blockNumber, txs, walks, m);
    if n < m {
      CountPrefix(kind, walks, m, n);
      CountPrefix(kind, walks, m, n + 1);
      BlockIndicesAt(kind, blockNumber, txs, walks[..m], n, i);
    }
    AtJoin(before, last, |Keys(kind, walks[m])|, i, Index(blockNumber, n, txs[n]));
  }

  lemma {:induction false} CountPrefix(kind: Kind, walks: seq<seq<Visit>>, m: nat, n: nat)
    requires n <= m <= |walks|
    ensures CountRows(kind, walks[..m], n) == CountRows(kind, walks, n)
  {
    if n > 0 {
      CountPrefix(kind, walks, m, n - 1);
    }
  }

  // Every row that the `n`-th transaction of a block leaves in the table names that transaction:
  // the block, the position `n`, and the hash at that position.
  lemma RowsNameTheirTransaction(kind: Kind, blockNumber: Option<nat>, txs: seq<Option<Bytes>>, diffs: seq<Diff>,
                                 walks: seq<seq<Visit>>, schema: Schema, f: Frame, n: nat, i: nat)
    requires |walks| <= |txs| && |walks| <= |diffs| && WalksAll(walks, diffs) && Aligned(schema, DiffNames(kind), f)
    requires n < |walks| && CountRows(kind, walks, n) <= i < CountRows(kind, walks, n + 1)
    ensures var g := Filled(schema, f, BlockRows(kind, blockNumber, txs, diffs, walks));
            && |TableIndices(g, f.nRows)| == CountRows(kind, walks, |walks|)
            && IsAt(TableIndices(g, f.nRows), i, ShownIndex(schema, Index(blockNumber, n, txs[n])))
  {
    BlockRowsName(schema, kind, blockNumber, txs, diffs, walks);
    IndicesStored(kind, schema, f, BlockRows(kind, blockNumber, txs, diffs, walks),
                  BlockIndices(kind, blockNumber, txs, walks));
    assert walks[..|walks|] == walks;
    BlockIndicesCount(kind, blockNumber, txs, walks, |walks|);
    BlockIndicesAt(kind, blockNumber, txs, walks, n, i);
  }

  // A block as the node reports it: how each diff was walked, and the states in between.
  datatype Block = Block(diffs: seq<Diff>, walks: seq<seq<Visit>>, states: seq<State>) {
    ghost predicate Reported(kind: Kind) {
      |walks| <= |diffs| && WalksAll(walks, diffs) && IsHistory(kind, diffs, states) && |states| == |walks| + 1
    }

    // What the first `i` transactions leave in the table.
    function First(kind: Kind, i: nat): seq<Change>
      requires i <= |walks| <= |diffs|
    {
      BlockChanges(kind, diffs, walks[..i])
    }

    // What the transactions from `i` on leave in it.
    function Later(kind: Kind, i: nat): (later: seq<Change>)
      requires i <= |walks| <= |diffs|
      ensures i == |walks| ==> later == []
      ensures i < |walks| ==> later == KeyChanges(kind, diffs[i], Keys(kind, walks[i])) + Later(kind, i + 1)
      decreases |walks| - i
    {
      if i == |walks| then [] else KeyChanges(kind, diffs[i], Keys(kind, walks[i])) + Later(kind, i + 1)
    }

    // Replaying the first `i` transactions from the state before the block.
    ghost predicate Forward(kind: Kind, i: nat)
      requires i <= |walks| <= |diffs| && i < |states|
    {
      Same(kind, Apply(First(kind, i), states[0]), states[i])
    }

    // Reverting the transactions from `i` on from the state after the block.
    ghost predicate Backward(kind: Kind, i: nat)
      requires i <= |walks| <= |diffs| && |walks| < |states|
    {
      Same(kind, Revert(Later(kind, i), states[|walks|]), states[i])
    }
  }

  lemma FirstNext(kind: Kind, b: Block, i: nat)
    requires i < |b.walks| <= |b.diffs|
    ensures b.First(kind, i + 1) == b.First(kind, i) + KeyChanges(kind, b.diffs[i], Keys(kind, b.walks[i]))
  {
    assert b.walks[..i + 1][..i] == b.walks[..i];
  }

  lemma Regrouped<T>(a: seq<T>, b: seq<T>, c: seq<T>)
    ensures (a + b) + c == a + (b + c)
  {
  }

  lemma {:induction false} FirstThenLater(kind: Kind, b: Block, i: nat)
    requires i <= |b.walks| <= |b.diffs|
    ensures BlockChanges(kind, b.diffs, b.walks) == b.First(kind, i) + b.Later(kind, i)
    decreases |b.walks| - i
  {
    if i == |b.walks| {
      assert b.walks[..i] == b.walks;
    } else {
      FirstThenLater(kind, b, i + 1);
      FirstNext(kind, b, i);
      Regrouped(b.First(kind, i), KeyChanges(kind, b.diffs[i], Keys(kind, b.walks[i])), b.Later(kind, i + 1));
    }
  }

  lemma ForwardStep(kind: Kind, b: Block, i: nat)
    requires b.Reported(kind) && i < |b.walks| && b.Forward(kind, i)
    ensures b.Forward(kind, i + 1) <==> OmitsBlanks(kind, b.diffs[i], b.diffs[i].post, b.states[i + 1])
  {
    var d, visits := b.diffs[i], b.walks[i];
    FirstNext(kind, b, i);
    ReplayJoin(b.First(kind, i), KeyChanges(kind, d, Keys(kind, visits)), b.states[0]);
    ApplyDiff(kind, d, visits, b.states[i], b.states[i + 1], Apply(b.First(kind, i), b.states[0]));
  }

  lemma ForwardStarts(kind: Kind, b: Block)
    requires b.Reported(kind)
    ensures b.Forward(kind, 0)
  {
    assert b.First(kind, 0) == [];
  }

  lemma {:induction false} ForwardReaches(kind: Kind, b: Block, i: nat)
    requires b.Reported(kind) && i <= |b.walks|
    requires forall j | 0 <= j < i :: OmitsBlanks(kind, b.diffs[j], b.diffs[j].post, b.states[j + 1])
    ensures b.Forward(kind, i)
  {
    if i == 0 {
      ForwardStarts(kind, b);
    } else {
      ForwardReaches(kind, b, i - 1);
      ForwardStep(kind, b, i - 1);
    }
  }

  // Replaying the first transactions of a block gives every state between them exactly when each
  // value that the node omits after a transaction is blank there.
  lemma ForwardIff(kind: Kind, b: Block)
    requires b.Reported(kind)
    ensures (forall i | 0 <= i <= |b.walks| :: b.Forward(kind, i)) <==>
            (forall i | 0 <= i < |b.walks| :: OmitsBlanks(kind, b.diffs[i], b.diffs[i].post, b.states[i + 1]))
  {
    if forall i | 0 <= i <= |b.walks| :: b.Forward(kind, i) {
      forall i | 0 <= i < |b.walks|
        ensures OmitsBlanks(kind, b.diffs[i], b.diffs[i].post, b.states[i + 1])
      {
        ForwardStep(kind, b, i);
      }
    }
    if forall i | 0 <= i < |b.walks| :: OmitsBlanks(kind, b.diffs[i], b.diffs[i].post, b.states[i + 1]) {
      forall i | 0 <= i <= |b.walks|
        ensures b.Forward(kind, i)
      {
        ForwardReaches(kind, b, i);
      }
    }
  }

  lemma BackwardStep(kind: Kind, b: Block, i: nat)
    requires b.Reported(kind) && i < |b.walks| && b.Backward(kind, i + 1)
    ensures b.Backward(kind, i) <==> OmitsBlanks(kind, b.diffs[i], b.diffs[i].pre, b.states[i])
  {
    var d, visits, end := b.diffs[i], b.walks[i], b.states[|b.walks|];
    ReplayJoin(KeyChanges(kind, d, Keys(kind, visits)), b.Later(kind, i + 1), end);
    RevertDiff(kind, d, visits, b.states[i], b.states[i + 1], Revert(b.Later(kind, i + 1), end));
  }

  lemma {:induction false} BackwardReaches(kind: Kind, b: Block, i: nat)
    requires b.Reported(kind) && i <= |b.walks|
    requires forall j | i <= j < |b.walks| :: OmitsBlanks(kind, b.diffs[j], b.diffs[j].pre, b.states[j])
    ensures b.Backward(kind, i)
    decreases |b.walks| - i
  {
    if i == |b.walks| {
    } else {
      BackwardReaches(kind, b, i + 1);
      BackwardStep(kind, b, i);
    }
  }

  // Reverting the last transactions of a block gives every state between them exactly when each
  // value that the node omits before a transaction is blank there.
  lemma BackwardIff(kind: Kind, b: Block)
    requires b.Reported(kind)
    ensures (forall i | 0 <= i <= |b.walks| :: b.Backward(kind, i)) <==>
            (forall i | 0 <= i < |b.walks| :: OmitsBlanks(kind, b.diffs[i], b.diffs[i].pre, b.states[i]))
  {
    if forall i | 0 <= i <= |b.walks| :: b.Backward(kind, i) {
      forall i | 0 <= i < |b.walks|
        ensures OmitsBlanks(kind, b.diffs[i], b.diffs[i].pre, b.states[i])
      {
        BackwardStep(kind, b, i);
      }
    }
    if forall i | 0 <= i < |b.walks| :: OmitsBlanks(kind, b.diffs[i], b.diffs[i].pre, b.states[i]) {
      forall i | 0 <= i <= |b.walks|
        ensures b.Backward(kind, i)
      {
        BackwardReaches(kind, b, i);
      }
    }
  }

  // A whole block, from the table that it leaves: its rows, cut at any transaction, are those of
  // the transactions before the cut and those after it. They lead through every state in
  // between, forwards and backwards, exactly when the values that the node omits are blank.
  lemma ReplayBlock(kind: Kind, blockNumber: Option<nat>, txs: seq<Option<Bytes>>, b: Block, schema: Schema, f: Frame)
    requires b.Reported(kind) && |b.walks| <= |txs| && StoresChanges(kind, schema, f)
    ensures var g := Filled(schema, f, BlockRows(kind, blockNumber, txs, b.diffs, b.walks));
            forall i | 0 <= i <= |b.walks| :: TableChanges(kind, g, f.nRows) == b.First(kind, i) + b.Later(kind, i)
    ensures (forall i | 0 <= i <= |b.walks| :: b.Forward(kind, i)) <==>
            (forall i | 0 <= i < |b.walks| :: OmitsBlanks(kind, b.diffs[i], b.diffs[i].post, b.states[i + 1]))
    ensures (forall i | 0 <= i <= |b.walks| :: b.Backward(kind, i)) <==>
            (forall i | 0 <= i < |b.walks| :: OmitsBlanks(kind, b.diffs[i], b.diffs[i].pre, b.states[i]))
  {
    var rows := BlockRows(kind, blockNumber, txs, b.diffs, b.walks);
    BlockRowsSay(schema, kind, blockNumber, txs, b.diffs, b.walks);
    ChangesStored(kind, schema, f, rows, BlockChanges(kind, b.diffs, b.walks));
    forall i | 0 <= i <= |b.walks|
      ensures BlockChanges(kind, b.diffs, b.walks) == b.First(kind, i) + b.Later(kind, i)
    {
      FirstThenLater(kind, b, i);
    }
    ForwardIff(kind, b);
    BackwardIff(kind, b);
  }

  lemma {:induction false} FirstCount(kind: Kind, b: Block, n: nat)
    requires n <= |b.walks| <= |b.diffs|
    ensures |b.First(kind, n)| == CountRows(kind, b.walks, n)
  {
    if n > 0 {
      FirstCount(kind, b, n - 1);
      FirstNext(kind, b, n - 1);
    } else {
      assert b.walks[..0] == [];
    }
  }

  lemma ChangeAt(kind: Kind, b: Block, n: nat, i: nat)
    requires n < |b.walks| <= |b.diffs| && |b.First(kind, n)| <= i < |b.First(kind, n + 1)|
    ensures i < |BlockChanges(kind, b.diffs, b.walks)| && i - |b.First(kind, n)| < |Keys(kind, b.walks[n])|
    ensures BlockChanges(kind, b.diffs, b.walks)[i] ==
            KeyChange(kind, b.diffs[n], Keys(kind, b.walks[n])[i - |b.First(kind, n)|])
  {
    FirstThenLater(kind, b, n + 1);
    FirstNext(kind, b, n);
  }

  // Each of these rows is a change of one transaction and names it: its block, its position and
  // its hash, as far as they are selected.
  lemma ReplayNamesTransaction(kind: Kind, blockNumber: Option<nat>, txs: seq<Option<Bytes>>, b: Block, schema: Schema,
                               f: Frame, n: nat, i: nat)
    requires b.Reported(kind) && |b.walks| <= |txs| && StoresChanges(kind, schema, f)
    requires n < |b.walks| && |b.First(kind, n)| <= i < |b.First(kind, n + 1)|
    ensures i - |b.First(kind, n)| < |Keys(kind, b.walks[n])|
    ensures var g := Filled(schema, f, BlockRows(kind, blockNumber, txs, b.diffs, b.walks));
            var key := Keys(kind, b.walks[n])[i - |b.First(kind, n)|];
            && IsAt(TableIndices(g, f.nRows), i, ShownIndex(schema, Index(blockNumber, n, txs[n])))
            && IsAt(TableChanges(kind, g, f.nRows), i, KeyChange(kind, b.diffs[n], key))
  {
    FirstCount(kind, b, n);
    FirstCount(kind, b, n + 1);
    ChangeAt(kind, b, n, i);
    RowsNameTheirTransaction(kind, blockNumber, txs, b.diffs, b.walks, schema, f, n, i);
    BlockRowsSay(schema, kind, blockNumber, txs, b.diffs, b.walks);
    ChangesStored(kind, schema, f, BlockRows(kind, blockNumber, txs, b.diffs, b.walks),
                  BlockChanges(kind, b.diffs, b.walks));
  }
}
