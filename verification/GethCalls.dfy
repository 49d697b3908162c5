// Geth call traces: nested call frames, emitted in preorder with their trace addresses.
module GethCalls {
  import opened Prelude
  import opened RpcParams
  import opened Columns
  import opened TraceAddress

  // What a frame says of itself, apart from the calls it makes.
  datatype Payload = Payload(
    kind: string,
    from: Address,
    to: Option<Address>,
    value: Option<nat>,
    gas: nat,
    gasUsed: nat,
    input: Bytes,
    output: Option<Bytes>,
    error: Option<string>
  )

  datatype CallFrame = CallFrame(payload: Payload, calls: seq<CallFrame>)

  // Which transaction a frame belongs to.
  datatype Origin = Origin(blockNumber: Option<nat>, transactionHash: Option<Bytes>, transactionIndex: nat)

  function OptBinCell(b: Option<Bytes>): Result<Cell> {
    Ok(if b.Some? then Bin(b.value) else Null)
  }

  function CallRow(p: Payload, o: Origin, path: Path): Row {
    PayloadCells(p) + OriginCells(o, path)
  }

  function PayloadCells(p: Payload): Row {
    [Entry(CallKind, Ok(Text(p.kind))),
     Entry(FromAddress, Ok(Num(p.from))),
     Entry(ToAddress, OptNumCell(p.to)),
     Entry(Value, OptNumCell(p.value)),
     Entry(Gas, Ok(Num(p.gas))),
     Entry(GasUsed, Ok(Num(p.gasUsed))),
     Entry(Input, Ok(Bin(p.input))),
     Entry(Output, OptBinCell(p.output)),
     Entry(ErrorText, Ok(if p.error.Some? then Text(p.error.value) else Null))]
  }

  function OriginCells(o: Origin, path: Path): Row {
    [Entry(BlockNumber, OptNumCell(o.blockNumber)),
     Entry(TransactionHash, OptBinCell(o.transactionHash)),
     Entry(TransactionIndex, Ok(Num(o.transactionIndex))),
     Entry(TraceAddress, Ok(Text(Format(path, ' '))))]
  }

  // --- emission ---

  function EmitFrame(schema: Schema, f: Frame, frame: CallFrame, o: Origin, path: Path): Outcome<Frame>
    decreases frame, 1, 0
  {
    var r := AddRow(schema, f, CallRow(frame.payload, o, path));
    if r.error.Some? then r else EmitCalls(schema, r.state, frame.calls, o, path, 0)
  }

  // The calls from index `from` on; an index that is no `u32` ends the emission.
  function EmitCalls(schema: Schema, f: Frame, calls: seq<CallFrame>, o: Origin, path: Path, from: nat): Outcome<Frame>
    requires from <= |calls|
    decreases calls, 0, |calls| - from
  {
    if from == |calls| then Outcome(f, None)
    else if ToU32(from).Err? then Outcome(f, Some(ToU32(from).error))
    else
      var r := EmitFrame(schema, f, calls[from], o, path + [from]);
      if r.error.Some? then r else EmitCalls(schema, r.state, calls, o, path, from + 1)
  }

  method ProcessTrace(frame: CallFrame, table: Table, schema: Schema, o: Origin, path: Path)
    returns (error: Option<Error>)
    modifies table
    ensures Outcome(table.View(), error) == EmitFrame(schema, old(table.View()), frame, o, path)
    decreases frame
  {
    error := table.PushRow(schema, CallRow(frame.payload, o, path));
    if error.Some? {
      return;
    }
    for s := 0 to |frame.calls|
      invariant error.None?
      invariant EmitCalls(schema, table.View(), frame.calls, o, path, s) ==
                EmitFrame(schema, old(table.View()), frame, o, path)
    {
      if ToU32(s).Err? {
        return Some(ToU32(s).error);
      }
      error := ProcessTrace(frame.calls[s], table, schema, o, path + [s]);
      if error.Some? {
        return;
      }
    }
  }

  function EmitTransactions(schema: Schema, f: Frame, blockNumber: Option<nat>, txs: seq<Option<Bytes>>,
                            frames: seq<CallFrame>, from: nat): Outcome<Frame>
    requires from <= |txs| && from <= |frames|
    decreases |txs| - from
  {
    if from == |txs| || from == |frames| then Outcome(f, None)
    else if ToU32(from).Err? then Outcome(f, Some(ToU32(from).error))
    else
      var r := EmitFrame(schema, f, frames[from], Origin(blockNumber, txs[from], from), []);
      if r.error.Some? then r else EmitTransactions(schema, r.state, blockNumber, txs, frames, from + 1)
  }

  // The transaction hashes and the traces are paired up; the shorter list decides.
  method ProcessGethTraces(blockNumber: Option<nat>, txs: seq<Option<Bytes>>, frames: seq<CallFrame>, table: Table,
                           schema: Schema)
    returns (error: Option<Error>)
    modifies table
    ensures Outcome(table.View(), error) == EmitTransactions(schema, old(table.View()), blockNumber, txs, frames, 0)
  {
    error := None;
    var i := 0;
    while i < |txs| && i < |frames|
      invariant i <= |txs| && i <= |frames| && error.None?
      invariant EmitTransactions(schema, table.View(), blockNumber, txs, frames, i) ==
                EmitTransactions(schema, old(table.View()), blockNumber, txs, frames, 0)
    {
      if ToU32(i).Err? {
        return Some(ToU32(i).error);
      }
      error := ProcessTrace(frames[i], table, schema, Origin(blockNumber, txs[i], i), []);
      if error.Some? {
        return;
      }
      i := i + 1;
    }
  }

  // --- the emitted list ---

  // A frame's payload with its place in the block.
  datatype Item = Item(payload: Payload, origin: Origin, path: Path)

  function FlattenFrame(frame: CallFrame, o: Origin, path: Path): (items: seq<Item>)
    ensures items != [] && items[0] == Item(frame.payload, o, path)
    decreases frame, 1, 0
  {
    [Item(frame.payload, o, path)] + FlattenCalls(frame.calls, o, path, 0)
  }

  function FlattenCalls(calls: seq<CallFrame>, o: Origin, path: Path, from: nat): seq<Item>
    requires from <= |calls|
    decreases calls, 0, |calls| - from
  {
    if from == |calls| then []
    else FlattenFrame(calls[from], o, path + [from]) + FlattenCalls(calls, o, path, from + 1)
  }

  function FlattenTransactions(blockNumber: Option<nat>, txs: seq<Option<Bytes>>, frames: seq<CallFrame>,
                               from: nat): seq<Item>
    requires from <= |txs| && from <= |frames|
    decreases |txs| - from
  {
    if from == |txs| || from == |frames| then []
    else FlattenFrame(frames[from], Origin(blockNumber, txs[from], from), []) +
         FlattenTransactions(blockNumber, txs, frames, from + 1)
  }

  function ItemRow(i: Item): Row {
    CallRow(i.payload, i.origin, i.path)
  }

  function ItemRows(items: seq<Item>): (rows: seq<Row>)
    ensures |rows| == |items| && forall i | 0 <= i < |rows| :: rows[i] == ItemRow(items[i])
  {
    seq(|items|, i requires 0 <= i < |items| => ItemRow(items[i]))
  }

  lemma ItemRowsAppend(a: seq<Item>, b: seq<Item>)
    ensures ItemRows(a + b) == ItemRows(a) + ItemRows(b)
  {
  }

  lemma {:induction false} EmitFrameIsFlatten(schema: Schema, f: Frame, frame: CallFrame, o: Origin, path: Path)
    requires EmitFrame(schema, f, frame, o, path).error.None?
    ensures EmitFrame(schema, f, frame, o, path) == AddRows(schema, f, ItemRows(FlattenFrame(frame, o, path)))
    decreases frame, 1, 0
  {
    var head, below := Item(frame.payload, o, path), FlattenCalls(frame.calls, o, path, 0);
    var r := AddRow(schema, f, ItemRow(head));
    EmitCallsIsFlatten(schema, r.state, frame.calls, o, path, 0);
    assert ItemRows([head] + below) == [ItemRow(head)] + ItemRows(below);
  }

  lemma {:induction false} EmitCallsIsFlatten(schema: Schema, f: Frame, calls: seq<CallFrame>, o: Origin, path: Path,
                                              from: nat)
    requires from <= |calls| && EmitCalls(schema, f, calls, o, path, from).error.None?
    ensures EmitCalls(schema, f, calls, o, path, from) ==
            AddRows(schema, f, ItemRows(FlattenCalls(calls, o, path, from)))
    decreases calls, 0, |calls| - from
  {
    if from == |calls| {
    } else {
      var first, rest := FlattenFrame(calls[from], o, path + [from]), FlattenCalls(calls, o, path, from + 1);
      var r := EmitFrame(schema, f, calls[from], o, path + [from]);
      EmitFrameIsFlatten(schema, f, calls[from], o, path + [from]);
      EmitCallsIsFlatten(schema, r.state, calls, o, path, from + 1);
      ItemRowsAppend(first, rest);
      AddRowsAppend(schema, f, ItemRows(first), ItemRows(rest));
    }
  }

  // --- when a call succeeds ---

  // No frame makes more calls than there are 32-bit positions.
  predicate Narrow(frame: CallFrame) {
    |frame.calls| <= 0x1_0000_0000 && forall c | c in frame.calls :: Narrow(c)
  }

  lemma CallRowStores(schema: Schema, f: Frame, p: Payload, o: Origin, path: Path)
    ensures AddRow(schema, f, CallRow(p, o, path)).error.None?
  {
    PutAllFailsIff(schema, f.cells, CallRow(p, o, path));
  }

  lemma {:induction false} EmitFrameIff(schema: Schema, f: Frame, frame: CallFrame, o: Origin, path: Path)
    ensures EmitFrame(schema, f, frame, o, path).error.None? <==> Narrow(frame)
    decreases frame, 1, 0
  {
    CallRowStores(schema, f, frame.payload, o, path);
    EmitCallsIff(schema, AddRow(schema, f, CallRow(frame.payload, o, path)).state, frame.calls, o, path, 0);
    assert frame.calls[0..] == frame.calls;
  }

  lemma {:induction false} EmitCallsIff(schema: Schema, f: Frame, calls: seq<CallFrame>, o: Origin, path: Path,
                                        from: nat)
    requires from <= |calls|
    ensures EmitCalls(schema, f, calls, o, path, from).error.None? <==>
            (from == |calls| || |calls| <= 0x1_0000_0000) && forall c | c in calls[from..] :: Narrow(c)
    decreases calls, 0, |calls| - from
  {
    if from == |calls| {
    } else {
      EmitFrameIff(schema, f, calls[from], o, path + [from]);
      assert calls[from..] == [calls[from]] + calls[from + 1..];
      EmitCallsIff(schema, EmitFrame(schema, f, calls[from], o, path + [from]).state, calls, o, path, from + 1);
    }
  }

  // A call succeeds exactly when no frame that is paired with a hash, and no list of frames, is
  // longer than there are 32-bit positions.
  lemma {:induction false} EmitsIff(schema: Schema, f: Frame, blockNumber: Option<nat>, txs: seq<Option<Bytes>>,
                                    frames: seq<CallFrame>, from: nat)
    requires from <= |txs| && from <= |frames|
    ensures var n := if |txs| <= |frames| then |txs| else |frames|;
            EmitTransactions(schema, f, blockNumber, txs, frames, from).error.None? <==>
            (from == n || n <= 0x1_0000_0000) && forall frame | frame in frames[from..n] :: Narrow(frame)
    decreases |txs| - from
  {
    var n := if |txs| <= |frames| then |txs| else |frames|;
    if from < n {
      var r := EmitFrame(schema, f, frames[from], Origin(blockNumber, txs[from], from), []);
      EmitFrameIff(schema, f, frames[from], Origin(blockNumber, txs[from], from), []);
      assert frames[from..n] == [frames[from]] + frames[from + 1..n];
      EmitsIff(schema, r.state, blockNumber, txs, frames, from + 1);
    }
  }

  // A successful call stores the preorder list of the paired-up frames.
  lemma {:induction false} EmitIsFlatten(schema: Schema, f: Frame, blockNumber: Option<nat>, txs: seq<Option<Bytes>>,
                                        frames: seq<CallFrame>, from: nat)
    requires from <= |txs| && from <= |frames|
    requires EmitTransactions(schema, f, blockNumber, txs, frames, from).error.None?
    ensures EmitTransactions(schema, f, blockNumber, txs, frames, from) ==
            AddRows(schema, f, ItemRows(FlattenTransactions(blockNumber, txs, frames, from)))
    decreases |txs| - from
  {
    if from == |txs| || from == |frames| {
    } else {
      var o := Origin(blockNumber, txs[from], from);
      var first := FlattenFrame(frames[from], o, []);
      var rest := FlattenTransactions(blockNumber, txs, frames, from + 1);
      EmitFrameIsFlatten(schema, f, frames[from], o, []);
      EmitIsFlatten(schema, EmitFrame(schema, f, frames[from], o, []).state, blockNumber, txs, frames, from + 1);
      ItemRowsAppend(first, rest);
      AddRowsAppend(schema, f, ItemRows(first), ItemRows(rest));
    }
  }

  // --- one row a node, in increasing trace address ---

  function Size(frame: CallFrame): nat
    decreases frame, 1
  {
    1 + SizeAll(frame.calls)
  }

  function SizeAll(calls: seq<CallFrame>): nat
    decreases calls, 0
  {
    if calls == [] then 0 else Size(calls[0]) + SizeAll(calls[1..])
  }

  lemma {:induction false} OneRowANode(frame: CallFrame, o: Origin, path: Path)
    ensures |FlattenFrame(frame, o, path)| == Size(frame)
    decreases frame, 1, 0
  {
    OneRowACall(frame.calls, o, path, 0);
    assert frame.calls[0..] == frame.calls;
  }

  lemma {:induction false} OneRowACall(calls: seq<CallFrame>, o: Origin, path: Path, from: nat)
    requires from <= |calls|
    ensures |FlattenCalls(calls, o, path, from)| == SizeAll(calls[from..])
    decreases calls, 0, |calls| - from
  {
    if from == |calls| {
    } else {
      OneRowANode(calls[from], o, path + [from]);
      OneRowACall(calls, o, path, from + 1);
      assert calls[from..][1..] == calls[from + 1..];
    }
  }

  // `a` comes before `b`: a proper prefix of it, or smaller at the first difference.
  predicate Before(a: Path, b: Path) {
    exists k :: 0 <= k <= |a| && k < |b| && SameUpTo(a, b, k) && (k == |a| || a[k] < b[k])
  }

  predicate SameUpTo(a: Path, b: Path, k: nat) {
    k <= |a| && k <= |b| && a[..k] == b[..k]
  }

  predicate Increasing(items: seq<Item>) {
    forall i, j | 0 <= i < j < |items| :: Before(items[i].path, items[j].path)
  }

  lemma BeforeIsStrict(a: Path, b: Path)
    requires Before(a, b)
    ensures a != b
  {
  }

  predicate AllBelow(items: seq<Item>, path: Path) {
    forall i | 0 <= i < |items| :: path <= items[i].path
  }

  // Items below `path` from child index `from` on.
  predicate AllFrom(items: seq<Item>, path: Path, from: nat) {
    forall i | 0 <= i < |items| ::
      |items[i].path| > |path| && path <= items[i].path && items[i].path[|path|] >= from
  }

  lemma {:induction false} FrameIncreasing(frame: CallFrame, o: Origin, path: Path)
    ensures Increasing(FlattenFrame(frame, o, path)) && AllBelow(FlattenFrame(frame, o, path), path)
    decreases frame, 1, 0
  {
    var head, below := Item(frame.payload, o, path), FlattenCalls(frame.calls, o, path, 0);
    var items := FlattenFrame(frame, o, path);
    CallsIncreasing(frame.calls, o, path, 0);
    forall i, j | 0 <= i < j < |items|
      ensures Before(items[i].path, items[j].path)
    {
      assert items[j] == below[j - 1];
      if i == 0 {
        assert SameUpTo(path, items[j].path, |path|);
      } else {
        assert items[i] == below[i - 1];
      }
    }
  }

  lemma {:induction false} CallsIncreasing(calls: seq<CallFrame>, o: Origin, path: Path, from: nat)
    requires from <= |calls|
    ensures Increasing(FlattenCalls(calls, o, path, from)) && AllFrom(FlattenCalls(calls, o, path, from), path, from)
    decreases calls, 0, |calls| - from
  {
    if from == |calls| {
    } else {
      var first, rest := FlattenFrame(calls[from], o, path + [from]), FlattenCalls(calls, o, path, from + 1);
      FrameIncreasing(calls[from], o, path + [from]);
      CallsIncreasing(calls, o, path, from + 1);
      JoinIncreasing(first, rest, path, from);
    }
  }

  lemma JoinIncreasing(first: seq<Item>, rest: seq<Item>, path: Path, from: nat)
    requires Increasing(first) && AllBelow(first, path + [from])
    requires Increasing(rest) && AllFrom(rest, path, from + 1)
    ensures Increasing(first + rest) && AllFrom(first + rest, path, from)
  {
    var items := first + rest;
    forall i | 0 <= i < |first|
      ensures |first[i].path| > |path| && path <= first[i].path && first[i].path[|path|] == from
    {
      assert (path + [from])[|path|] == from && path <= path + [from];
      assert path + [from] <= first[i].path;
    }
    forall i, j | 0 <= i < j < |items|
      ensures Before(items[i].path, items[j].path)
    {
      if i < |first| <= j {
        assert items[i] == first[i] && items[j] == rest[j - |first|];
        assert SameUpTo(items[i].path, items[j].path, |path|);
      } else if j < |first| {
        assert items[i] == first[i] && items[j] == first[j];
      } else {
        assert items[i] == rest[i - |first|] && items[j] == rest[j - |first|];
      }
    }
  }

  // The trace addresses of one transaction's rows are pairwise distinct, and ordered.
  lemma TraceAddressesIncrease(frame: CallFrame, o: Origin)
    ensures var items := FlattenFrame(frame, o, []);
            |items| == Size(frame) && Increasing(items) &&
            forall i, j | 0 <= i < j < |items| :: items[i].path != items[j].path
  {
    OneRowANode(frame, o, []);
    FrameIncreasing(frame, o, []);
    var items := FlattenFrame(frame, o, []);
    forall i, j | 0 <= i < j < |items|
      ensures items[i].path != items[j].path
    {
      BeforeIsStrict(items[i].path, items[j].path);
    }
  }

  // --- rebuilding the frames ---

  // Read the frames whose addresses have length `depth`, with all that is below them.
  function ReadFrames(items: seq<Item>, depth: nat): (r: (seq<CallFrame>, seq<Item>))
    ensures |r.1| <= |items|
    decreases |items|
  {
    if items == [] || |items[0].path| != depth then ([], items)
    else
      var (calls, afterCalls) := ReadFrames(items[1..], depth + 1);
      var (siblings, rest) := ReadFrames(afterCalls, depth);
      ([CallFrame(items[0].payload, calls)] + siblings, rest)
  }

  // Nothing further at this depth or deeper.
  predicate Ends(rest: seq<Item>, depth: nat) {
    rest == [] || |rest[0].path| < depth
  }

  lemma {:induction false} ReadsFrame(frame: CallFrame, o: Origin, path: Path, later: seq<Item>,
                                      siblings: seq<CallFrame>, rest: seq<Item>)
    requires Ends(later, |path| + 1) && ReadFrames(later, |path|) == (siblings, rest)
    ensures ReadFrames(FlattenFrame(frame, o, path) + later, |path|) == ([frame] + siblings, rest)
    decreases frame, 1, 0
  {
    var items := FlattenFrame(frame, o, path) + later;
    assert items[1..] == FlattenCalls(frame.calls, o, path, 0) + later;
    ReadsCalls(frame.calls, o, path, 0, later);
    assert frame.calls[0..] == frame.calls;
  }

  lemma CallsEnd(calls: seq<CallFrame>, o: Origin, path: Path, from: nat, rest: seq<Item>)
    requires from <= |calls| && Ends(rest, |path| + 1)
    ensures Ends(FlattenCalls(calls, o, path, from) + rest, |path| + 2)
  {
    if from == |calls| {
      assert FlattenCalls(calls, o, path, from) + rest == rest;
    } else {
      var first := FlattenFrame(calls[from], o, path + [from]);
      assert FlattenCalls(calls, o, path, from) == first + FlattenCalls(calls, o, path, from + 1);
      assert (FlattenCalls(calls, o, path, from) + rest)[0] == first[0] && first[0].path == path + [from];
    }
  }

  lemma NothingThere(rest: seq<Item>, depth: nat)
    requires Ends(rest, depth)
    ensures ReadFrames(rest, depth) == ([], rest)
  {
  }

  lemma FirstCallThenRest(calls: seq<CallFrame>, o: Origin, path: Path, from: nat, rest: seq<Item>)
    requires from < |calls|
    ensures FlattenCalls(calls, o, path, from) + rest ==
            FlattenFrame(calls[from], o, path + [from]) + (FlattenCalls(calls, o, path, from + 1) + rest)
    ensures calls[from..] == [calls[from]] + calls[from + 1..]
  {
    var first, more := FlattenFrame(calls[from], o, path + [from]), FlattenCalls(calls, o, path, from + 1);
    assert FlattenCalls(calls, o, path, from) == first + more;
    assert (first + more) + rest == first + (more + rest);
  }

  lemma {:induction false} ReadsCalls(calls: seq<CallFrame>, o: Origin, path: Path, from: nat, rest: seq<Item>)
    requires from <= |calls| && Ends(rest, |path| + 1)
    ensures ReadFrames(FlattenCalls(calls, o, path, from) + rest, |path| + 1) == (calls[from..], rest)
    decreases calls, 0, |calls| - from
  {
    if from == |calls| {
      assert FlattenCalls(calls, o, path, from) + rest == rest && calls[from..] == [];
      NothingThere(rest, |path| + 1);
    } else {
      var later := FlattenCalls(calls, o, path, from + 1) + rest;
      FirstCallThenRest(calls, o, path, from, rest);
      CallsEnd(calls, o, path, from + 1, rest);
      ReadsCalls(calls, o, path, from + 1, rest);
      ReadsFrame(calls[from], o, path + [from], later, calls[from + 1..], rest);
    }
  }

  // The item that a stored row describes.
  function RebuildItem(read: Reader): Item {
    Item(Payload(TextAt(read, CallKind), NumAt(read, FromAddress), OptNumAt(read, ToAddress), OptNumAt(read, Value),
                 NumAt(read, Gas), NumAt(read, GasUsed), BinAt(read, Input), OptBinAt(read, Output),
                 OptTextAt(read, ErrorText)),
         Origin(OptNumAt(read, BlockNumber), OptBinAt(read, TransactionHash), NumAt(read, TransactionIndex)),
         Parse(TextAt(read, TraceAddress), ' '))
  }

  // The items of a table from row `from` on.
  function TableItems(f: Frame, from: nat): seq<Item> {
    ReadTable(f, from, RebuildItem)
  }

  const PAYLOAD_NAMES: seq<Column> :=
    [CallKind, FromAddress, ToAddress, Value, Gas, GasUsed, Input, Output, ErrorText]
  const ORIGIN_NAMES: seq<Column> := [BlockNumber, TransactionHash, TransactionIndex, TraceAddress]
  const CALL_NAMES: seq<Column> := PAYLOAD_NAMES + ORIGIN_NAMES

  // The columns that a frame is put together from: all of them.
  const CALL_COLUMNS: set<Column> :=
    {CallKind, FromAddress, ToAddress, Value, Gas, GasUsed, Input, Output, ErrorText, BlockNumber, TransactionHash,
     TransactionIndex, TraceAddress}

  lemma PayloadNames(p: Payload)
    ensures Names(PayloadCells(p), PAYLOAD_NAMES)
  {
  }

  lemma OriginNames(o: Origin, path: Path)
    ensures Names(OriginCells(o, path), ORIGIN_NAMES)
  {
  }

  lemma CallNames(p: Payload, o: Origin, path: Path)
    ensures Names(CallRow(p, o, path), CALL_NAMES)
  {
    PayloadNames(p);
    OriginNames(o, path);
    NamesJoin(PayloadCells(p), PAYLOAD_NAMES, OriginCells(o, path), ORIGIN_NAMES);
  }

  lemma PayloadNamesDistinct()
    ensures Unique(PAYLOAD_NAMES)
  {
  }

  lemma CallNamesDistinct()
    ensures Unique(CALL_NAMES)
  {
    PayloadNamesDistinct();
    UniqueJoinIff(PAYLOAD_NAMES, ORIGIN_NAMES);
  }

  predicate PartiesHeld(read: Reader, p: Payload) {
    read(CallKind) == Ok(Text(p.kind)) &&
    read(FromAddress) == Ok(Num(p.from)) &&
    read(ToAddress) == OptNumCell(p.to)
  }

  predicate AmountsHeld(read: Reader, p: Payload) {
    read(Value) == OptNumCell(p.value) &&
    read(Gas) == Ok(Num(p.gas)) &&
    read(GasUsed) == Ok(Num(p.gasUsed))
  }

  predicate DataHeld(read: Reader, p: Payload) {
    read(Input) == Ok(Bin(p.input)) &&
    read(Output) == OptBinCell(p.output) &&
    read(ErrorText) == Ok(if p.error.Some? then Text(p.error.value) else Null)
  }

  predicate OriginHeld(read: Reader, o: Origin, path: Path) {
    read(BlockNumber) == OptNumCell(o.blockNumber) &&
    read(TransactionHash) == OptBinCell(o.transactionHash) &&
    read(TransactionIndex) == Ok(Num(o.transactionIndex)) &&
    read(TraceAddress) == Ok(Text(Format(path, ' ')))
  }

  lemma ItemRebuilt(read: Reader, i: Item)
    requires PartiesHeld(read, i.payload) && AmountsHeld(read, i.payload) && DataHeld(read, i.payload)
    requires OriginHeld(read, i.origin, i.path)
    ensures RebuildItem(read) == i
  {
    ParseFormat(i.path, ' ');
  }

  lemma PartiesSaid(schema: Schema, read: Reader, names: seq<Column>, row: Row, p: Payload)
    requires Names(row, names) && Says(schema, read, names, row) && |row| == 9
    requires row[0] == Entry(CallKind, Ok(Text(p.kind))) && row[1] == Entry(FromAddress, Ok(Num(p.from)))
    requires row[2] == Entry(ToAddress, OptNumCell(p.to))
    requires {CallKind, FromAddress, ToAddress} <= schema
    ensures PartiesHeld(read, p)
  {
    assert read(CallKind) == row[0].cell by { SaysCell(schema, read, names, row, 0, row[0]); }
    assert read(FromAddress) == row[1].cell by { SaysCell(schema, read, names, row, 1, row[1]); }
    assert read(ToAddress) == row[2].cell by { SaysCell(schema, read, names, row, 2, row[2]); }
  }

  lemma AmountsSaid(schema: Schema, read: Reader, names: seq<Column>, row: Row, p: Payload)
    requires Names(row, names) && Says(schema, read, names, row) && |row| == 9
    requires row[3] == Entry(Value, OptNumCell(p.value)) && row[4] == Entry(Gas, Ok(Num(p.gas)))
    requires row[5] == Entry(GasUsed, Ok(Num(p.gasUsed)))
    requires {Value, Gas, GasUsed} <= schema
    ensures AmountsHeld(read, p)
  {
    assert read(Value) == row[3].cell by { SaysCell(schema, read, names, row, 3, row[3]); }
    assert read(Gas) == row[4].cell by { SaysCell(schema, read, names, row, 4, row[4]); }
    assert read(GasUsed) == row[5].cell by { SaysCell(schema, read, names, row, 5, row[5]); }
  }

  lemma DataSaid(schema: Schema, read: Reader, names: seq<Column>, row: Row, p: Payload)
    requires Names(row, names) && Says(schema, read, names, row) && |row| == 9
    requires row[6] == Entry(Input, Ok(Bin(p.input))) && row[7] == Entry(Output, OptBinCell(p.output))
    requires row[8] == Entry(ErrorText, Ok(if p.error.Some? then Text(p.error.value) else Null))
    requires {Input, Output, ErrorText} <= schema
    ensures DataHeld(read, p)
  {
    assert read(Input) == row[6].cell by { SaysCell(schema, read, names, row, 6, row[6]); }
    assert read(Output) == row[7].cell by { SaysCell(schema, read, names, row, 7, row[7]); }
    assert read(ErrorText) == row[8].cell by { SaysCell(schema, read, names, row, 8, row[8]); }
  }

  lemma OriginSaid(schema: Schema, read: Reader, names: seq<Column>, row: Row, o: Origin, path: Path)
    requires Names(row, names) && Says(schema, read, names, row) && |row| == 4
    requires row[0] == Entry(BlockNumber, OptNumCell(o.blockNumber))
    requires row[1] == Entry(TransactionHash, OptBinCell(o.transactionHash))
    requires row[2] == Entry(TransactionIndex, Ok(Num(o.transactionIndex)))
    requires row[3] == Entry(TraceAddress, Ok(Text(Format(path, ' '))))
    requires {BlockNumber, TransactionHash, TransactionIndex, TraceAddress} <= schema
    ensures OriginHeld(read, o, path)
  {
    assert read(BlockNumber) == row[0].cell by { SaysCell(schema, read, names, row, 0, row[0]); }
    assert read(TransactionHash) == row[1].cell by { SaysCell(schema, read, names, row, 1, row[1]); }
    assert read(TransactionIndex) == row[2].cell by { SaysCell(schema, read, names, row, 2, row[2]); }
    assert read(TraceAddress) == row[3].cell by { SaysCell(schema, read, names, row, 3, row[3]); }
  }

  lemma PayloadSaid(schema: Schema, read: Reader, names: seq<Column>, p: Payload)
    requires Names(PayloadCells(p), names) && Says(schema, read, names, PayloadCells(p))
    requires CALL_COLUMNS <= schema
    ensures PartiesHeld(read, p) && AmountsHeld(read, p) && DataHeld(read, p)
  {
    PartiesSaid(schema, read, names, PayloadCells(p), p);
    AmountsSaid(schema, read, names, PayloadCells(p), p);
    DataSaid(schema, read, names, PayloadCells(p), p);
  }

  // A row says its frame's payload, its transaction and its place.
  lemma RowSaysItem(schema: Schema, names: seq<Column>, i: Item)
    requires Names(ItemRow(i), names) && CALL_COLUMNS <= schema
    ensures Parses(schema, RebuildItem, names, ItemRow(i), i)
  {
    var payload, origin := PayloadCells(i.payload), OriginCells(i.origin, i.path);
    forall read: Reader | Says(schema, read, names, payload + origin)
      ensures RebuildItem(read) == i
    {
      SaysParts(schema, read, names, payload, origin);
      PayloadSaid(schema, read, names[..9], i.payload);
      OriginSaid(schema, read, names[9..], origin, i.origin, i.path);
      ItemRebuilt(read, i);
    }
  }

  lemma {:induction false} ReadsTransactions(blockNumber: Option<nat>, txs: seq<Option<Bytes>>, frames: seq<CallFrame>,
                                             from: nat)
    requires from <= |txs| && from <= |frames|
    ensures var n := if |txs| < |frames| then |txs| else |frames|;
            ReadFrames(FlattenTransactions(blockNumber, txs, frames, from), 0) == (frames[from..n], [])
    decreases |txs| - from
  {
    var n := if |txs| < |frames| then |txs| else |frames|;
    if from == n {
      assert frames[from..n] == [];
    } else {
      var later := FlattenTransactions(blockNumber, txs, frames, from + 1);
      ReadsTransactions(blockNumber, txs, frames, from + 1);
      ReadsFrame(frames[from], Origin(blockNumber, txs[from], from), [], later, frames[from + 1..n], []);
      assert frames[from..n] == [frames[from]] + frames[from + 1..n];
    }
  }

  lemma ItemsStored(schema: Schema, f: Frame, items: seq<Item>)
    requires Aligned(schema, CALL_NAMES, f) && CALL_COLUMNS <= schema
    requires AddRows(schema, f, ItemRows(items)).error.None?
    ensures TableItems(AddRows(schema, f, ItemRows(items)).state, f.nRows) == items
  {
    CallNamesDistinct();
    var rows := ItemRows(items);
    forall i | 0 <= i < |rows|
      ensures Names(rows[i], CALL_NAMES) && Parses(schema, RebuildItem, CALL_NAMES, rows[i], items[i])
    {
      CallNames(items[i].payload, items[i].origin, items[i].path);
      RowSaysItem(schema, CALL_NAMES, items[i]);
    }
    ReadStored(schema, CALL_NAMES, f, rows, RebuildItem, items);
  }

  // With all columns selected, the table that a successful call leaves gives back every frame
  // that is paired with a transaction hash, shape and payloads.
  lemma FramesRecovered(blockNumber: Option<nat>, txs: seq<Option<Bytes>>, frames: seq<CallFrame>, schema: Schema,
                        f: Frame)
    requires Aligned(schema, CALL_NAMES, f) && CALL_COLUMNS <= schema
    requires EmitTransactions(schema, f, blockNumber, txs, frames, 0).error.None?
    ensures var g := EmitTransactions(schema, f, blockNumber, txs, frames, 0).state;
            var n := if |txs| < |frames| then |txs| else |frames|;
            ReadFrames(TableItems(g, f.nRows), 0) == (frames[..n], [])
  {
    EmitIsFlatten(schema, f, blockNumber, txs, frames, 0);
    ItemsStored(schema, f, FlattenTransactions(blockNumber, txs, frames, 0));
    ReadsTransactions(blockNumber, txs, frames, 0);
  }
}
