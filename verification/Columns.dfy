// Column accumulators: one growing column per selected schema name, plus a row count.
// A dataset stores a row cell by cell; only columns named by the schema are
// evaluated and kept, and the first cell that fails to convert ends the call.
module Columns {
  import opened Prelude
  import opened RpcParams

  // Every column name that the modelled datasets use.
  datatype Column =
    | BlockNumber | BlockHash | TransactionIndex | TransactionHash | TransactionType | LogIndex
    | ContractAddress | Topic0 | Topic1 | Topic2 | Topic3 | Data | NDataBytes
    | Erc20 | FromAddress | ToAddress | Value | TokenId | EventType | Account
    | Erc1155 | Operator | TokenIdIndex | IsBatch | IsMint | IsBurn
    | ActionFrom | ActionTo | ActionValue | ActionGas | ActionInput | ActionCallType | ActionInit
    | ActionRewardType | ActionType | ResultGasUsed | ResultOutput | ResultCode | ResultAddress
    | TraceAddress | Subtraces | ErrorText
    | CreateIndex | Deployer | Factory | InitCode | Code | InitCodeHash | CodeHash | NInitCodeBytes | NCodeBytes
    | EntryIndex | StorageKeyIndex | StorageKey
    | CallKind | Gas | GasUsed | Input | Output
    | AccountAddress | Slot | FromValue | ToValue

  datatype Cell = Null | Num(n: nat) | Bin(bytes: Bytes) | Text(text: string) | Flag(flag: bool)

  // A row: cells in the order in which the source stores them.
  datatype Entry = Entry(column: Column, cell: Result<Cell>)
  type Row = seq<Entry>

  type Schema = set<Column>
  type Cells = map<Column, seq<Cell>>

  // `events` holds the columns of decoded event parameters, by parameter name; only
  // the raw log dataset fills it.
  type Events = map<string, seq<Cell>>

  datatype Frame = Frame(nRows: nat, cells: Cells, events: Events)

  const EMPTY: Frame := Frame(0, map[], map[])

  function Col(cells: Cells, c: Column): seq<Cell> {
    if c in cells then cells[c] else []
  }

  // What a call leaves behind: the columns, and the error that ended it, if any.
  datatype Outcome<+S> = Outcome(state: S, error: Option<Error>)

  function Put(schema: Schema, cells: Cells, e: Entry): Outcome<Cells> {
    if e.column !in schema then Outcome(cells, None)
    else match e.cell
      case Ok(v) => Outcome(cells[e.column := Col(cells, e.column) + [v]], None)
      case Err(err) => Outcome(cells, Some(err))
  }

  function PutAll(schema: Schema, cells: Cells, row: Row): Outcome<Cells>
    decreases |row|
  {
    if row == [] then Outcome(cells, None)
    else
      var first := Put(schema, cells, row[0]);
      if first.error.Some? then first else PutAll(schema, first.state, row[1..])
  }

  // `n_rows += 1` comes first, then the cells.
  function AddRow(schema: Schema, f: Frame, row: Row): Outcome<Frame> {
    var r := PutAll(schema, f.cells, row);
    Outcome(f.(nRows := f.nRows + 1, cells := r.state), r.error)
  }

  function AddRows(schema: Schema, f: Frame, rows: seq<Row>): Outcome<Frame>
    decreases |rows|
  {
    if rows == [] then Outcome(f, None)
    else
      var first := AddRow(schema, f, rows[0]);
      if first.error.Some? then first else AddRows(schema, first.state, rows[1..])
  }

  // --- what the stores mean ---

  // The row stores the columns `names`, in this order.
  predicate Names(row: Row, names: seq<Column>) {
    |row| == |names| && forall i | 0 <= i < |row| :: row[i].column == names[i]
  }

  lemma NamesJoin(a: Row, namesA: seq<Column>, b: Row, namesB: seq<Column>)
    requires Names(a, namesA) && Names(b, namesB)
    ensures Names(a + b, namesA + namesB)
  {
  }

  // The cell a row holds under a column.
  function CellAt(row: Row, c: Column): Result<Cell> {
    if row == [] then Err(Missing("column"))
    else if row[0].column == c then row[0].cell
    else CellAt(row[1..], c)
  }

  lemma {:induction false} CellAtIndex(row: Row, k: nat)
    requires k < |row|
    requires forall i, j | 0 <= i < j < |row| :: row[i].column != row[j].column
    ensures CellAt(row, row[k].column) == row[k].cell
  {
    if k == 0 {
    } else {
      CellAtIndex(row[1..], k - 1);
    }
  }

  lemma {:induction false} CellAtAbsent(row: Row, c: Column)
    requires forall i | 0 <= i < |row| :: row[i].column != c
    ensures CellAt(row, c).Err?
  {
    if row == [] {
    } else {
      CellAtAbsent(row[1..], c);
    }
  }

  // A row read by column name.
  type Reader = Column -> Result<Cell>

  function OptNumAt(read: Reader, c: Column): Option<nat> {
    match read(c)
    case Ok(Num(n)) => Some(n)
    case _ => None
  }

  function NumAt(read: Reader, c: Column): nat {
    match read(c)
    case Ok(Num(n)) => n
    case _ => 0
  }

  function OptBinAt(read: Reader, c: Column): Option<Bytes> {
    match read(c)
    case Ok(Bin(b)) => Some(b)
    case _ => None
  }

  function BinAt(read: Reader, c: Column): Bytes {
    match read(c)
    case Ok(Bin(b)) => b
    case _ => []
  }

  function OptTextAt(read: Reader, c: Column): Option<string> {
    match read(c)
    case Ok(Text(t)) => Some(t)
    case _ => None
  }

  function TextAt(read: Reader, c: Column): string {
    match read(c)
    case Ok(Text(t)) => t
    case _ => ""
  }

  function NumCell(r: Result<nat>): Result<Cell> {
    var n :- r;
    Ok(Num(n))
  }

  function OptNumCell(n: Option<nat>): Result<Cell> {
    Ok(if n.Some? then Num(n.value) else Null)
  }

  // `u32::try_from(x.unwrap())`
  function UnwrapU32Cell(n: Option<nat>): Result<Cell> {
    if n.Some? then NumCell(ToU32(n.value)) else Err(Panic)
  }

  predicate Selected(schema: Schema, row: Row, c: Column) {
    c in schema && exists i :: 0 <= i < |row| && row[i].column == c
  }

  lemma SelectedTail(schema: Schema, row: Row, c: Column)
    requires row != [] && row[0].column != c
    ensures Selected(schema, row, c) <==> Selected(schema, row[1..], c)
  {
    if Selected(schema, row, c) {
      var i :| 0 <= i < |row| && row[i].column == c;
      assert row[1..][i - 1].column == c;
    }
    if Selected(schema, row[1..], c) {
      var i :| 0 <= i < |row[1..]| && row[1..][i].column == c;
      assert row[i + 1].column == c;
    }
  }

  // A successful store of a row with distinct columns adds exactly its own cell to
  // every selected column, and touches no other column.
  lemma {:induction false} PutAllAppends(schema: Schema, cells: Cells, row: Row, c: Column)
    requires forall i, j | 0 <= i < j < |row| :: row[i].column != row[j].column
    requires PutAll(schema, cells, row).error.None?
    ensures Selected(schema, row, c) ==> CellAt(row, c).Ok?
    ensures Col(PutAll(schema, cells, row).state, c) ==
            Col(cells, c) + if Selected(schema, row, c) then [CellAt(row, c).value] else []
    decreases |row|
  {
    if row == [] {
    } else {
      PutAllAppends(schema, Put(schema, cells, row[0]).state, row[1..], c);
      if row[0].column == c {
        assert !Selected(schema, row[1..], c);
      } else {
        SelectedTail(schema, row, c);
      }
    }
  }

  // Storing a row fails exactly when some selected cell fails to convert.
  lemma {:induction false} PutAllFailsIff(schema: Schema, cells: Cells, row: Row)
    ensures PutAll(schema, cells, row).error.None? <==>
            forall i | 0 <= i < |row| && row[i].column in schema :: row[i].cell.Ok?
    decreases |row|
  {
    if row == [] {
    } else {
      var first := Put(schema, cells, row[0]);
      PutAllFailsIff(schema, first.state, row[1..]);
      if first.error.None? && (forall i | 0 <= i < |row[1..]| && row[1..][i].column in schema :: row[1..][i].cell.Ok?) {
        forall i | 0 <= i < |row| && row[i].column in schema
          ensures row[i].cell.Ok?
        {
          if i > 0 {
            assert row[1..][i - 1] == row[i];
          }
        }
      }
      if forall i | 0 <= i < |row| && row[i].column in schema :: row[i].cell.Ok? {
        assert row[0].column in schema ==> row[0].cell.Ok?;
        forall i | 0 <= i < |row[1..]| && row[1..][i].column in schema
          ensures row[1..][i].cell.Ok?
        {
          assert row[i + 1] == row[1..][i];
        }
      }
    }
  }

  // The cells that a list of rows holds under one column.
  function ColumnOf(rows: seq<Row>, c: Column): seq<Cell> {
    if rows == [] then []
    else if CellAt(rows[0], c).Ok? then [CellAt(rows[0], c).value] + ColumnOf(rows[1..], c)
    else ColumnOf(rows[1..], c)
  }

  lemma ColumnOfCons(row: Row, rest: seq<Row>, c: Column, v: Cell)
    requires CellAt(row, c) == Ok(v)
    ensures ColumnOf([row] + rest, c) == [v] + ColumnOf(rest, c)
  {
    assert ([row] + rest)[1..] == rest;
  }

  // Every selected column holds as many cells as there are rows, every other none.
  ghost predicate Aligned(schema: Schema, names: seq<Column>, f: Frame) {
    forall c: Column :: |Col(f.cells, c)| == if c in schema && c in names then f.nRows else 0
  }

  lemma RowTransposes(schema: Schema, names: seq<Column>, f: Frame, row: Row, c: Column)
    requires Aligned(schema, names, f) && Unique(names) && Names(row, names)
    requires AddRow(schema, f, row).error.None?
    ensures var next := AddRow(schema, f, row).state;
            && |Col(next.cells, c)| == (if c in schema && c in names then next.nRows else 0)
            && (c in schema ==>
                  Col(next.cells, c) == Col(f.cells, c) + if CellAt(row, c).Ok? then [CellAt(row, c).value] else [])
  {
    PutAllAppends(schema, f.cells, row, c);
    if c in names {
      var i :| 0 <= i < |names| && names[i] == c;
      assert row[i].column == c;
    } else {
      CellAtAbsent(row, c);
    }
  }

  // A successful store transposes the rows: it keeps the columns aligned, counts the
  // rows, and each selected column grows by that column of the rows, in order.
  lemma {:induction false} RowsTranspose(schema: Schema, names: seq<Column>, f: Frame, rows: seq<Row>)
    requires Aligned(schema, names, f) && Unique(names)
    requires forall r | r in rows :: Names(r, names)
    requires AddRows(schema, f, rows).error.None?
    ensures Aligned(schema, names, AddRows(schema, f, rows).state)
    ensures AddRows(schema, f, rows).state.nRows == f.nRows + |rows|
    ensures forall c | c in schema ::
              Col(AddRows(schema, f, rows).state.cells, c) == Col(f.cells, c) + ColumnOf(rows, c)
    decreases |rows|
  {
    if rows == [] {
    } else {
      var next := AddRow(schema, f, rows[0]).state;
      assert Names(rows[0], names);
      forall c: Column
        ensures |Col(next.cells, c)| == if c in schema && c in names then next.nRows else 0
        ensures c in schema ==>
                  Col(next.cells, c) ==
                  Col(f.cells, c) + if CellAt(rows[0], c).Ok? then [CellAt(rows[0], c).value] else []
      {
        RowTransposes(schema, names, f, rows[0], c);
      }
      RowsTranspose(schema, names, next, rows[1..]);
    }
  }

  lemma {:induction false} AddRowsAppend(schema: Schema, f: Frame, a: seq<Row>, b: seq<Row>)
    ensures AddRows(schema, f, a).error.Some? ==> AddRows(schema, f, a + b) == AddRows(schema, f, a)
    ensures AddRows(schema, f, a).error.None? ==>
              AddRows(schema, f, a + b) == AddRows(schema, AddRows(schema, f, a).state, b)
    decreases |a|
  {
    if a == [] {
      assert a + b == b;
    } else {
      assert (a + b)[1..] == a[1..] + b;
      var first := AddRow(schema, f, a[0]);
      if first.error.None? {
        AddRowsAppend(schema, first.state, a[1..], b);
      }
    }
  }

  // One turn of a loop over rows.
  lemma AddRowsFrom(schema: Schema, f: Frame, rows: seq<Row>, i: nat)
    requires i < |rows|
    ensures var first := AddRow(schema, f, rows[i]);
            AddRows(schema, f, rows[i..]) ==
            if first.error.Some? then first else AddRows(schema, first.state, rows[i + 1..])
  {
    assert rows[i..][0] == rows[i] && rows[i..][1..] == rows[i + 1..];
  }

  // A row in which every cell has converted.
  predicate Sound(row: Row) {
    forall i | 0 <= i < |row| :: row[i].cell.Ok?
  }

  predicate AllSound(rows: seq<Row>) {
    forall row | row in rows :: Sound(row)
  }

  lemma {:induction false} SoundRowsFill(schema: Schema, f: Frame, rows: seq<Row>)
    requires AllSound(rows)
    ensures AddRows(schema, f, rows).error.None?
    decreases |rows|
  {
    if rows == [] {
    } else {
      PutAllFailsIff(schema, f.cells, rows[0]);
      assert Sound(rows[0]);
      SoundRowsFill(schema, AddRow(schema, f, rows[0]).state, rows[1..]);
    }
  }

  // --- reading rows back ---

  // A column that the schema selects is read as the cell, which has converted; any other column
  // is read as absent.
  predicate SaysAt(schema: Schema, read: Reader, c: Column, cell: Result<Cell>) {
    if c in schema then cell.Ok? && read(c) == cell else read(c).Err?
  }

  predicate Says(schema: Schema, read: Reader, names: seq<Column>, row: Row) {
    |names| == |row| && forall k | 0 <= k < |row| :: SaysAt(schema, read, names[k], row[k].cell)
  }

  // What can be seen of a value under the selected columns.
  function Seen(schema: Schema, c: Column, n: nat): nat {
    if c in schema then n else 0
  }

  function SeenOpt(schema: Schema, c: Column, n: Option<nat>): Option<nat> {
    if c in schema then n else None
  }

  function SeenBin(schema: Schema, c: Column, b: Option<Bytes>): Option<Bytes> {
    if c in schema then b else None
  }

  // A row of a table, read by column name.
  function TableRow(f: Frame, i: nat): Reader {
    c => if i < |Col(f.cells, c)| then Ok(Col(f.cells, c)[i]) else Err(Missing("column"))
  }

  lemma {:induction false} ColumnOfAt(rows: seq<Row>, c: Column, i: nat)
    requires i < |rows| && forall r | r in rows :: CellAt(r, c).Ok?
    ensures |ColumnOf(rows, c)| == |rows| && Ok(ColumnOf(rows, c)[i]) == CellAt(rows[i], c)
  {
    assert rows[0] in rows && rows == [rows[0]] + rows[1..];
    if |rows| > 1 {
      ColumnOfAt(rows[1..], c, if i > 0 then i - 1 else 0);
    } else {
      assert ColumnOf(rows[1..], c) == [];
    }
  }

  lemma StoredColumn(schema: Schema, names: seq<Column>, f: Frame, rows: seq<Row>, c: Column)
    requires Aligned(schema, names, f) && Unique(names) && c in names && c in schema
    requires forall r: Row | r in rows :: Names(r, names)
    requires AddRows(schema, f, rows).error.None?
    ensures |Col(f.cells, c)| == f.nRows
    ensures Col(AddRows(schema, f, rows).state.cells, c) == Col(f.cells, c) + ColumnOf(rows, c)
  {
    RowsTranspose(schema, names, f, rows);
  }

  lemma NamedCell(row: Row, names: seq<Column>, k: nat)
    requires Names(row, names) && Unique(names) && k < |names|
    ensures CellAt(row, names[k]) == row[k].cell
  {
    CellAtIndex(row, k);
  }

  lemma RowConverts(schema: Schema, f: Frame, row: Row, k: nat)
    requires AddRow(schema, f, row).error.None? && k < |row| && row[k].column in schema
    ensures row[k].cell.Ok?
  {
    PutAllFailsIff(schema, f.cells, row);
  }

  // A successful store has converted every cell of a selected column.
  lemma {:induction false} ColumnConverts(schema: Schema, names: seq<Column>, f: Frame, rows: seq<Row>, k: nat)
    requires Unique(names) && k < |names| && names[k] in schema && forall r: Row | r in rows :: Names(r, names)
    requires AddRows(schema, f, rows).error.None?
    ensures forall r | r in rows :: CellAt(r, names[k]).Ok?
    decreases |rows|
  {
    if rows == [] {
    } else {
      assert rows[0] in rows;
      RowConverts(schema, f, rows[0], k);
      NamedCell(rows[0], names, k);
      ColumnConverts(schema, names, AddRow(schema, f, rows[0]).state, rows[1..], k);
    }
  }

  lemma StoredCell(schema: Schema, names: seq<Column>, f: Frame, rows: seq<Row>, i: nat, k: nat)
    requires Aligned(schema, names, f) && Unique(names) && k < |names| && names[k] in schema
    requires forall r: Row | r in rows :: Names(r, names)
    requires AddRows(schema, f, rows).error.None? && i < |rows| && Names(rows[i], names)
    ensures rows[i][k].cell.Ok?
    ensures TableRow(AddRows(schema, f, rows).state, f.nRows + i)(names[k]) == rows[i][k].cell
  {
    var c := names[k];
    ColumnConverts(schema, names, f, rows, k);
    ColumnOfAt(rows, c, i);
    StoredColumn(schema, names, f, rows, c);
    NamedCell(rows[i], names, k);
    assert Col(AddRows(schema, f, rows).state.cells, c)[f.nRows + i] == ColumnOf(rows, c)[i];
  }

  lemma AbsentCell(schema: Schema, names: seq<Column>, f: Frame, rows: seq<Row>, i: nat, c: Column)
    requires Aligned(schema, names, f) && Unique(names) && c !in schema
    requires forall r: Row | r in rows :: Names(r, names)
    requires AddRows(schema, f, rows).error.None?
    ensures TableRow(AddRows(schema, f, rows).state, i)(c).Err?
  {
    RowsTranspose(schema, names, f, rows);
  }

  // Each row that a successful store has added to a table says there what it said before, in
  // the columns that the schema selects.
  lemma StoredRowsSay(schema: Schema, names: seq<Column>, f: Frame, rows: seq<Row>, i: nat)
    requires Aligned(schema, names, f) && Unique(names) && forall r | r in rows :: Names(r, names)
    requires AddRows(schema, f, rows).error.None? && i < |rows|
    ensures Says(schema, TableRow(AddRows(schema, f, rows).state, f.nRows + i), names, rows[i])
  {
    assert Names(rows[i], names);
    var read := TableRow(AddRows(schema, f, rows).state, f.nRows + i);
    forall k | 0 <= k < |rows[i]|
      ensures SaysAt(schema, read, names[k], rows[i][k].cell)
    {
      if names[k] in schema {
        StoredCell(schema, names, f, rows, i, k);
      } else {
        AbsentCell(schema, names, f, rows, f.nRows + i, names[k]);
      }
    }
  }

  // What a table holds from row `from` on, each row read as `parse` reads it.
  function ReadTable<T>(f: Frame, from: nat, parse: Reader -> T): (what: seq<T>)
    ensures |what| == if from <= f.nRows then f.nRows - from else 0
    ensures forall i | 0 <= i < |what| :: what[i] == parse(TableRow(f, from + i))
  {
    seq(if from <= f.nRows then f.nRows - from else 0, i requires 0 <= i => parse(TableRow(f, from + i)))
  }

  // Every reader of the row, in the selected columns, is parsed to `x`.
  ghost predicate Parses<T>(schema: Schema, parse: Reader -> T, names: seq<Column>, row: Row, x: T) {
    forall read: Reader | Says(schema, read, names, row) :: parse(read) == x
  }

  lemma ParseStored<T>(schema: Schema, names: seq<Column>, f: Frame, rows: seq<Row>, i: nat, parse: Reader -> T, x: T)
    requires Aligned(schema, names, f) && Unique(names) && forall r | r in rows :: Names(r, names)
    requires AddRows(schema, f, rows).error.None? && i < |rows| && Parses(schema, parse, names, rows[i], x)
    ensures parse(TableRow(AddRows(schema, f, rows).state, f.nRows + i)) == x
  {
    StoredRowsSay(schema, names, f, rows, i);
  }

  lemma {:induction false} RowsCount(schema: Schema, f: Frame, rows: seq<Row>)
    requires AddRows(schema, f, rows).error.None?
    ensures AddRows(schema, f, rows).state.nRows == f.nRows + |rows|
    decreases |rows|
  {
    if rows != [] {
      RowsCount(schema, AddRow(schema, f, rows[0]).state, rows[1..]);
    }
  }

  lemma ReadsAs<T>(f: Frame, from: nat, parse: Reader -> T, what: seq<T>)
    requires f.nRows == from + |what|
    requires forall i | 0 <= i < |what| :: parse(TableRow(f, from + i)) == what[i]
    ensures ReadTable(f, from, parse) == what
  {
  }

  lemma EachParsed<T>(schema: Schema, names: seq<Column>, f: Frame, rows: seq<Row>, parse: Reader -> T, what: seq<T>)
    requires Aligned(schema, names, f) && Unique(names) && forall r | r in rows :: Names(r, names)
    requires |what| == |rows| && forall i | 0 <= i < |rows| :: Parses(schema, parse, names, rows[i], what[i])
    requires AddRows(schema, f, rows).error.None?
    ensures var g := AddRows(schema, f, rows).state;
            forall i | 0 <= i < |what| :: parse(TableRow(g, f.nRows + i)) == what[i]
  {
    var g := AddRows(schema, f, rows).state;
    forall i | 0 <= i < |what|
      ensures parse(TableRow(g, f.nRows + i)) == what[i]
    {
      ParseStored(schema, names, f, rows, i, parse, what[i]);
    }
  }

  // Whatever can be read off the selected columns of the rows can be read off the table that a
  // successful store leaves.
  lemma ReadStored<T>(schema: Schema, names: seq<Column>, f: Frame, rows: seq<Row>, parse: Reader -> T, what: seq<T>)
    requires Aligned(schema, names, f) && Unique(names) && forall r | r in rows :: Names(r, names)
    requires |what| == |rows| && forall i | 0 <= i < |rows| :: Parses(schema, parse, names, rows[i], what[i])
    requires AddRows(schema, f, rows).error.None?
    ensures ReadTable(AddRows(schema, f, rows).state, f.nRows, parse) == what
  {
    RowsCount(schema, f, rows);
    EachParsed(schema, names, f, rows, parse, what);
    ReadsAs(AddRows(schema, f, rows).state, f.nRows, parse, what);
  }

  lemma NamesAgree(row: Row, a: seq<Column>, b: seq<Column>)
    requires Names(row, a) && Names(row, b)
    ensures a == b
  {
    forall k | 0 <= k < |row|
      ensures a[k] == b[k]
    {
      assert row[k].column == a[k];
    }
  }

  lemma SaysParts(schema: Schema, read: Reader, names: seq<Column>, a: Row, b: Row)
    requires Names(a + b, names) && Says(schema, read, names, a + b)
    ensures Names(a, names[..|a|]) && Says(schema, read, names[..|a|], a)
    ensures Names(b, names[|a|..]) && Says(schema, read, names[|a|..], b)
  {
    forall k | 0 <= k < |a|
      ensures a[k].column == names[k] && SaysAt(schema, read, names[k], a[k].cell)
    {
      assert (a + b)[k] == a[k];
    }
    forall k | 0 <= k < |b|
      ensures b[k].column == names[|a| + k] && SaysAt(schema, read, names[|a| + k], b[k].cell)
    {
      assert (a + b)[|a| + k] == b[k];
    }
  }

  // One cell of a row that a reader reads.
  lemma SaysCell(schema: Schema, read: Reader, names: seq<Column>, row: Row, k: nat, e: Entry)
    requires Names(row, names) && Says(schema, read, names, row) && k < |row| && row[k] == e
    ensures SaysAt(schema, read, e.column, e.cell)
  {
    assert row[k].column == names[k];
  }

  lemma SaysNum(schema: Schema, read: Reader, names: seq<Column>, row: Row, k: nat, c: Column, n: nat)
    requires Names(row, names) && Says(schema, read, names, row) && k < |row| && row[k] == Entry(c, Ok(Num(n)))
    ensures NumAt(read, c) == Seen(schema, c, n)
  {
    SaysCell(schema, read, names, row, k, row[k]);
  }

  lemma SaysOptNum(schema: Schema, read: Reader, names: seq<Column>, row: Row, k: nat, c: Column, n: Option<nat>)
    requires Names(row, names) && Says(schema, read, names, row) && k < |row| && row[k] == Entry(c, OptNumCell(n))
    ensures OptNumAt(read, c) == SeenOpt(schema, c, n)
  {
    SaysCell(schema, read, names, row, k, row[k]);
  }

  // The accumulator object that a dataset fills.
  class Table {
    var nRows: nat
    var cells: Cells
    var events: Events

    constructor ()
      ensures View() == EMPTY
    {
      nRows := 0;
      cells := map[];
      events := map[];
    }

    function View(): Frame
      reads this
    {
      Frame(nRows, cells, events)
    }

    method Store(schema: Schema, e: Entry) returns (error: Option<Error>)
      modifies this`cells
      ensures Outcome(cells, error) == Put(schema, old(cells), e)
    {
      error := None;
      if e.column in schema {
        match e.cell
        case Ok(v) => cells := cells[e.column := Col(cells, e.column) + [v]];
        case Err(err) => error := Some(err);
      }
    }

    method PushRow(schema: Schema, row: Row) returns (error: Option<Error>)
      modifies this`nRows, this`cells
      ensures Outcome(View(), error) == AddRow(schema, old(View()), row)
    {
      nRows := nRows + 1;
      error := None;
      for i := 0 to |row|
        invariant nRows == old(nRows) + 1
        invariant error.None?
        invariant PutAll(schema, cells, row[i..]) == PutAll(schema, old(cells), row)
      {
        error := Store(schema, row[i]);
        if error.Some? {
          return;
        }
        assert row[i..][1..] == row[i + 1..];
      }
    }
  }
}
