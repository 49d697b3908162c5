// The contracts table: one row a successful contract creation, with the sender of the
// transaction that caused it.
module Contracts {
  import opened Prelude
  import opened RpcParams
  import opened Columns
  import opened Traces
  import TraceColumns

  // The account that a root action names as the sender.
  function RootSender(a: Action): Address {
    match a
    case Call(from, _, _, _, _, _) => from
    case Create(from, _, _, _) => from
    case Selfdestruct(_, _, refundAddress) => refundAddress
    case Reward(author, _, _) => author
  }

  predicate IsCreation(t: Trace) {
    t.action.Create? && t.result.Some? && t.result.value.CreateOutput?
  }

  datatype Deployment = Deployment(trace: Trace, deployer: Address, index: nat)

  function DeployerAt(t: Trace, deployer: Address): Address {
    if t.path == [] then RootSender(t.action) else deployer
  }

  // The deployments of a flat list, given the deployer so far and the next index.
  function Deployments(traces: seq<Trace>, deployer: Address, index: nat): seq<Deployment>
    decreases |traces|
  {
    if traces == [] then []
    else
      var t, d := traces[0], DeployerAt(traces[0], deployer);
      if IsCreation(t) then [Deployment(t, d, index)] + Deployments(traces[1..], d, index + 1)
      else Deployments(traces[1..], d, index)
  }

  function ContractRow(d: Deployment, keccak: Bytes -> B256): Row
    requires IsCreation(d.trace)
  {
    CreationCells(d) + CodeCells(d, keccak)
  }

  function CreationCells(d: Deployment): Row
    requires IsCreation(d.trace)
  {
    [Entry(BlockNumber, UnwrapU32Cell(d.trace.blockNumber)),
     Entry(BlockHash, if d.trace.blockHash.Some? then Ok(Num(d.trace.blockHash.value)) else Err(Panic)),
     Entry(CreateIndex, Ok(Num(d.index))),
     Entry(TransactionHash, OptNumCell(d.trace.transactionHash)),
     Entry(ContractAddress, Ok(Num(d.trace.result.value.address))),
     Entry(Deployer, Ok(Num(d.deployer)))]
  }

  function CodeCells(d: Deployment, keccak: Bytes -> B256): Row
    requires IsCreation(d.trace)
  {
    var create, result := d.trace.action, d.trace.result.value;
    [Entry(Factory, Ok(Num(create.from))),
     Entry(InitCode, Ok(Bin(create.init))),
     Entry(Code, Ok(Bin(result.code))),
     Entry(InitCodeHash, Ok(Num(keccak(create.init)))),
     Entry(CodeHash, Ok(Num(keccak(result.code)))),
     Entry(NInitCodeBytes, NumCell(ToU32(|create.init|))),
     Entry(NCodeBytes, NumCell(ToU32(|result.code|)))]
  }

  lemma {:induction false} DeploymentsAreCreations(traces: seq<Trace>, deployer: Address, index: nat)
    ensures forall d | d in Deployments(traces, deployer, index) :: IsCreation(d.trace)
    decreases |traces|
  {
    if traces == [] {
    } else {
      DeploymentsAreCreations(traces[1..], DeployerAt(traces[0], deployer), index);
      DeploymentsAreCreations(traces[1..], DeployerAt(traces[0], deployer), index + 1);
    }
  }

  function ContractRows(ds: seq<Deployment>, keccak: Bytes -> B256): (rows: seq<Row>)
    requires forall d | d in ds :: IsCreation(d.trace)
    ensures |rows| == |ds| && forall i | 0 <= i < |ds| :: rows[i] == ContractRow(ds[i], keccak)
  {
    seq(|ds|, i requires 0 <= i < |ds| => ContractRow(ds[i], keccak))
  }

  method ProcessContracts(traces: seq<Trace>, table: Table, schema: Schema, keccak: Bytes -> B256)
    returns (error: Option<Error>)
    modifies table
    ensures (forall d | d in Deployments(traces, 0, 0) :: IsCreation(d.trace)) &&
            Outcome(table.View(), error) ==
            AddRows(schema, old(table.View()), ContractRows(Deployments(traces, 0, 0), keccak))
  {
    DeploymentsAreCreations(traces, 0, 0);
    ghost var rows := ContractRows(Deployments(traces, 0, 0), keccak);
    ghost var done := 0;
    error := None;
    var deployer, createIndex := 0, 0;
    for i := 0 to |traces|
      invariant error.None?
      invariant done <= |rows|
      invariant Deployments(traces, 0, 0)[done..] == Deployments(traces[i..], deployer, createIndex)
      invariant AddRows(schema, table.View(), rows[done..]) == AddRows(schema, old(table.View()), rows)
    {
      var trace := traces[i];
      assert traces[i..][1..] == traces[i + 1..];
      if trace.path == [] {
        match trace.action
        case Call(from, _, _, _, _, _) => deployer := from;
        case Create(from, _, _, _) => deployer := from;
        case Selfdestruct(_, _, refundAddress) => deployer := refundAddress;
        case Reward(author, _, _) => deployer := author;
      }
      if IsCreation(trace) {
        ghost var left := Deployments(traces, 0, 0)[done..];
        assert left[0] == Deployment(trace, deployer, createIndex);
        assert rows[done] == ContractRow(Deployment(trace, deployer, createIndex), keccak);
        assert rows[done..][1..] == rows[done + 1..];
        error := table.PushRow(schema, ContractRow(Deployment(trace, deployer, createIndex), keccak));
        if error.Some? {
          return;
        }
        createIndex := createIndex + 1;
        done := done + 1;
      }
    }
  }

  // --- deployers on call trees ---

  // The creations of one flattened tree, all with the same deployer.
  function Creations(traces: seq<Trace>, deployer: Address, index: nat): seq<Deployment> {
    if traces == [] then []
    else if IsCreation(traces[0]) then
      [Deployment(traces[0], deployer, index)] + Creations(traces[1..], deployer, index + 1)
    else Creations(traces[1..], deployer, index)
  }

  // Tree by tree: every creation with the sender of the root of its own tree, numbered
  // consecutively.
  function TreeDeployments(ts: seq<Tree>, index: nat): seq<Deployment> {
    if ts == [] then []
    else
      var own := Creations(Flatten(ts[0]), RootSender(ts[0].trace.action), index);
      own + TreeDeployments(ts[1..], index + |own|)
  }

  lemma {:induction false} DeploymentsAppend(a: seq<Trace>, b: seq<Trace>, deployer: Address, index: nat)
    requires forall t | t in a :: t.path != []
    ensures Deployments(a + b, deployer, index) ==
            Creations(a, deployer, index) + Deployments(b, deployer, index + |Creations(a, deployer, index)|)
    decreases |a|
  {
    if a == [] {
      assert a + b == b;
    } else {
      assert (a + b)[1..] == a[1..] + b && a[0] in a;
      DeploymentsAppend(a[1..], b, deployer, if IsCreation(a[0]) then index + 1 else index);
    }
  }

  lemma {:induction false} DeployerIsRootSender(ts: seq<Tree>, deployer: Address, index: nat)
    requires IsForest(ts)
    ensures Deployments(FlattenAll(ts), deployer, index) == TreeDeployments(ts, index)
    decreases |ts|
  {
    if ts == [] {
    } else {
      assert ts[0] in ts;
      var sender := RootSender(ts[0].trace.action);
      TreeThenRest(ts[0], FlattenAll(ts[1..]), deployer, index);
      DeployerIsRootSender(ts[1..], sender, index + |Creations(Flatten(ts[0]), sender, index)|);
    }
  }

  lemma RootFirst(root: Trace, rest: seq<Trace>, deployer: Address, index: nat)
    requires root.path == []
    ensures var sender := RootSender(root.action);
            Deployments([root] + rest, deployer, index) ==
            if IsCreation(root) then [Deployment(root, sender, index)] + Deployments(rest, sender, index + 1)
            else Deployments(rest, sender, index)
  {
    assert ([root] + rest)[1..] == rest;
  }

  lemma RootThenBelow(root: Trace, below: seq<Trace>, index: nat)
    requires root.path == []
    ensures var sender := RootSender(root.action);
            Creations([root] + below, sender, index) ==
            if IsCreation(root) then [Deployment(root, sender, index)] + Creations(below, sender, index + 1)
            else Creations(below, sender, index)
  {
    assert ([root] + below)[1..] == below;
  }

  lemma RootThenRest(root: Trace, below: seq<Trace>, rest: seq<Trace>, deployer: Address, index: nat)
    requires root.path == [] && forall t | t in below :: t.path != []
    ensures var sender := RootSender(root.action);
            var own := Creations([root] + below, sender, index);
            Deployments([root] + (below + rest), deployer, index) ==
            own + Deployments(rest, sender, index + |own|)
  {
    RootThenBelow(root, below, index);
    RootFirst(root, below + rest, deployer, index);
    DeploymentsAppend(below, rest, RootSender(root.action), if IsCreation(root) then index + 1 else index);
  }

  lemma InFrontOfBoth(root: Trace, below: seq<Trace>, rest: seq<Trace>)
    ensures [root] + below + rest == [root] + (below + rest)
  {
  }

  lemma TreeThenRest(t: Tree, rest: seq<Trace>, deployer: Address, index: nat)
    requires t.trace.path == [] && WellPlaced(t)
    ensures var sender := RootSender(t.trace.action);
            var own := Creations(Flatten(t), sender, index);
            Deployments(Flatten(t) + rest, deployer, index) == own + Deployments(rest, sender, index + |own|)
  {
    var root, below := t.trace, FlattenAll(t.children);
    FlattenAllBelow(t.children, []);
    RootThenRest(root, below, rest, deployer, index);
    InFrontOfBoth(root, below, rest);
  }

  // What a row of the traces table says of its action: the account that it names as the sender,
  // which for a self-destruct is the account refunded, and the contract that it has created.
  datatype Deed = Deed(sender: Option<Address>, created: Option<Address>)

  function ReadDeed(read: Reader): Deed {
    var parties := TraceColumns.ReadParties(read);
    Deed(if parties.kind == "suicide" then parties.to else parties.from,
         if parties.kind == "create" then OptNumAt(read, ResultAddress) else None)
  }

  function DeedOf(t: Trace): Deed {
    Deed(Some(RootSender(t.action)), if IsCreation(t) then Some(t.result.value.address) else None)
  }

  function Deeds(traces: seq<Trace>): (deeds: seq<Deed>)
    ensures |deeds| == |traces| && forall i | 0 <= i < |deeds| :: deeds[i] == DeedOf(traces[i])
  {
    seq(|traces|, i requires 0 <= i < |traces| => DeedOf(traces[i]))
  }

  lemma ResultSaid(schema: Schema, read: Reader, t: Trace)
    requires ResultAddress in schema && Says(schema, read, TraceColumns.TRACE_NAMES, TraceColumns.TraceRow(t))
    ensures OptNumAt(read, ResultAddress) ==
            if t.result.Some? && t.result.value.CreateOutput? then Some(t.result.value.address) else None
  {
    var cells := TraceColumns.ResultCells(t.result);
    TraceColumns.RowParts(schema, read, t);
    assert SaysAt(schema, read, TraceColumns.RESULT_NAMES[3], cells[3].cell);
  }

  lemma RowSaysDeed(schema: Schema, t: Trace)
    requires {ActionType, ActionFrom, ActionTo, ResultAddress} <= schema
    ensures Parses(schema, ReadDeed, TraceColumns.TRACE_NAMES, TraceColumns.TraceRow(t), DeedOf(t))
  {
    TraceColumns.RowSaysParties(schema, t);
    TraceColumns.KindOfText(t.action);
    forall read: Reader | Says(schema, read, TraceColumns.TRACE_NAMES, TraceColumns.TraceRow(t))
      ensures ReadDeed(read) == DeedOf(t)
    {
      assert TraceColumns.ReadParties(read) == TraceColumns.PartiesOf(t.action);
      ResultSaid(schema, read, t);
    }
  }

  // Which traces are contract creations, and the sender of a root, which its contracts have as
  // their deployer, are what the rows of the traces table say.
  lemma DeedsStored(traces: seq<Trace>, schema: Schema, f: Frame)
    requires Aligned(schema, TraceColumns.TRACE_NAMES, f)
    requires {ActionType, ActionFrom, ActionTo, ResultAddress} <= schema
    requires AddRows(schema, f, TraceColumns.TraceRows(traces)).error.None?
    ensures ReadTable(AddRows(schema, f, TraceColumns.TraceRows(traces)).state, f.nRows, ReadDeed) == Deeds(traces)
  {
    var rows := TraceColumns.TraceRows(traces);
    TraceColumns.TraceNamesDistinct();
    forall i | 0 <= i < |rows|
      ensures Names(rows[i], TraceColumns.TRACE_NAMES)
      ensures Parses(schema, ReadDeed, TraceColumns.TRACE_NAMES, rows[i], Deeds(traces)[i])
    {
      TraceColumns.TraceNames(traces[i]);
      RowSaysDeed(schema, traces[i]);
    }
    ReadStored(schema, TraceColumns.TRACE_NAMES, f, rows, ReadDeed, Deeds(traces));
  }

  lemma {:induction false} CreationsNumbered(traces: seq<Trace>, deployer: Address, index: nat)
    ensures forall i | 0 <= i < |Creations(traces, deployer, index)| ::
              Creations(traces, deployer, index)[i].index == index + i
  {
    if traces == [] {
    } else {
      CreationsNumbered(traces[1..], deployer, index);
      CreationsNumbered(traces[1..], deployer, index + 1);
    }
  }

  lemma {:induction false} DeploymentsNumbered(ts: seq<Tree>, index: nat)
    ensures forall i | 0 <= i < |TreeDeployments(ts, index)| :: TreeDeployments(ts, index)[i].index == index + i
  {
    if ts == [] {
    } else {
      var own := Creations(Flatten(ts[0]), RootSender(ts[0].trace.action), index);
      CreationsNumbered(Flatten(ts[0]), RootSender(ts[0].trace.action), index);
      DeploymentsNumbered(ts[1..], index + |own|);
    }
  }

  // Every deployment belongs to a tree that lists its trace and whose root names its deployer.
  lemma {:induction false} DeploymentHasRoot(ts: seq<Tree>, index: nat)
    ensures forall d | d in TreeDeployments(ts, index) ::
              IsCreation(d.trace) &&
              exists t :: t in ts && d.trace in Flatten(t) && d.deployer == RootSender(t.trace.action)
  {
    if ts == [] {
    } else {
      var sender := RootSender(ts[0].trace.action);
      var own := Creations(Flatten(ts[0]), sender, index);
      CreationsOf(Flatten(ts[0]), sender, index);
      DeploymentHasRoot(ts[1..], index + |own|);
      forall d | d in TreeDeployments(ts, index)
        ensures IsCreation(d.trace)
        ensures exists t :: t in ts && d.trace in Flatten(t) && d.deployer == RootSender(t.trace.action)
      {
        if d in own {
          assert ts[0] in ts;
        } else {
          assert d in TreeDeployments(ts[1..], index + |own|);
        }
      }
    }
  }

  lemma {:induction false} CreationsOf(traces: seq<Trace>, deployer: Address, index: nat)
    ensures forall d | d in Creations(traces, deployer, index) ::
              IsCreation(d.trace) && d.trace in traces && d.deployer == deployer
  {
    if traces == [] {
    } else {
      CreationsOf(traces[1..], deployer, index);
      CreationsOf(traces[1..], deployer, index + 1);
    }
  }

  // Every contract row carries the sender of the root of its own transaction's tree, on
  // the raw list and on the list without failed traces alike: pruning never keeps a
  // creation without its root. Indices count the rows from zero.
  lemma DeployersSurviveFiltering(ts: seq<Tree>)
    requires IsForest(ts)
    ensures Deployments(FlattenAll(ts), 0, 0) == TreeDeployments(ts, 0)
    ensures Deployments(FilterFailed(FlattenAll(ts)), 0, 0) == TreeDeployments(PruneAll(ts), 0)
    ensures forall d | d in Deployments(FilterFailed(FlattenAll(ts)), 0, 0) ::
              exists t :: t in ts && !Failed(t) && d.trace in Flatten(t) && d.deployer == RootSender(t.trace.action)
    ensures var ds := Deployments(FilterFailed(FlattenAll(ts)), 0, 0);
            forall i | 0 <= i < |ds| :: ds[i].index == i
  {
    DeployerIsRootSender(ts, 0, 0);
    FilterIsPrune(ts, None);
    PruneKeepsForest(ts);
    DeployerIsRootSender(PruneAll(ts), 0, 0);
    DeploymentsNumbered(PruneAll(ts), 0);
    SurvivorsHaveRoots(ts);
  }

  lemma SurvivorsHaveRoots(ts: seq<Tree>)
    ensures forall d | d in TreeDeployments(PruneAll(ts), 0) ::
              exists t :: t in ts && !Failed(t) && d.trace in Flatten(t) && d.deployer == RootSender(t.trace.action)
  {
    DeploymentHasRoot(PruneAll(ts), 0);
    forall d | d in TreeDeployments(PruneAll(ts), 0)
      ensures exists t :: t in ts && !Failed(t) && d.trace in Flatten(t) && d.deployer == RootSender(t.trace.action)
    {
      var p :| p in PruneAll(ts) && d.trace in Flatten(p) && d.deployer == RootSender(p.trace.action);
      PrunedFrom(ts, p);
      var t :| t in ts && KeptFrom(p, t);
      assert d.trace in Flatten(t) && d.deployer == RootSender(t.trace.action);
    }
  }

  predicate KeptFrom(p: Tree, t: Tree) {
    !Failed(t) && t.trace == p.trace && forall x | x in Flatten(p) :: x in Flatten(t)
  }

  // A tree of the pruned forest has the same root as an unfailed tree of the forest, and
  // lists only traces of that tree.
  lemma {:induction false} PrunedFrom(ts: seq<Tree>, p: Tree)
    requires p in PruneAll(ts)
    ensures exists t :: t in ts && KeptFrom(p, t)
  {
    if !Failed(ts[0]) && p == Node(ts[0].trace, PruneAll(ts[0].children)) {
      PrunedTraces(ts[0].children);
      assert ts[0] in ts && KeptFrom(p, ts[0]);
    } else {
      PrunedFrom(ts[1..], p);
      var t :| t in ts[1..] && KeptFrom(p, t);
      assert t in ts;
    }
  }

  lemma PrunedTracesCons(t: Tree, rest: seq<Tree>)
    requires forall x | x in FlattenAll(PruneAll(rest)) :: x in FlattenAll(rest)
    requires !Failed(t) ==> forall x | x in FlattenAll(PruneAll(t.children)) :: x in FlattenAll(t.children)
    ensures forall x | x in FlattenAll(PruneAll([t] + rest)) :: x in FlattenAll([t] + rest)
  {
    FlattenPruneCons(t, rest);
    assert ([t] + rest)[1..] == rest;
    assert FlattenAll([t] + rest) == Flatten(t) + FlattenAll(rest);
    if !Failed(t) {
      var p := Node(t.trace, PruneAll(t.children));
      assert PruneAll([t]) == [p] by { assert [t][1..] == []; }
      assert FlattenAll([p]) == Flatten(p) by { assert [p][1..] == []; }
      assert Flatten(p) == [t.trace] + FlattenAll(PruneAll(t.children));
    } else {
      assert PruneAll([t]) == [] by { assert [t][1..] == []; }
    }
  }

  lemma {:induction false} PrunedTraces(ts: seq<Tree>)
    ensures forall x | x in FlattenAll(PruneAll(ts)) :: x in FlattenAll(ts)
  {
    if ts == [] {
    } else {
      assert ts == [ts[0]] + ts[1..];
      PrunedTraces(ts[1..]);
      if !Failed(ts[0]) {
        PrunedTraces(ts[0].children);
      }
      PrunedTracesCons(ts[0], ts[1..]);
    }
  }

  // --- the column ---

  const CREATION_NAMES: seq<Column> :=
    [BlockNumber, BlockHash, CreateIndex, TransactionHash, ContractAddress, Deployer]
  const CODE_NAMES: seq<Column> :=
    [Factory, InitCode, Code, InitCodeHash, CodeHash, NInitCodeBytes, NCodeBytes]
  const CONTRACT_NAMES: seq<Column> := CREATION_NAMES + CODE_NAMES

  lemma CreationNames(d: Deployment)
    requires IsCreation(d.trace)
    ensures Names(CreationCells(d), CREATION_NAMES)
  {
  }

  lemma CodeNames(d: Deployment, keccak: Bytes -> B256)
    requires IsCreation(d.trace)
    ensures Names(CodeCells(d, keccak), CODE_NAMES)
  {
  }

  lemma ContractNames(d: Deployment, keccak: Bytes -> B256)
    requires IsCreation(d.trace)
    ensures Names(ContractRow(d, keccak), CONTRACT_NAMES)
  {
    CreationNames(d);
    CodeNames(d, keccak);
    NamesJoin(CreationCells(d), CREATION_NAMES, CodeCells(d, keccak), CODE_NAMES);
  }

  lemma CodeNamesDistinct()
    ensures Unique(CODE_NAMES) && forall c | c in CREATION_NAMES :: c !in CODE_NAMES
  {
  }

  lemma ContractNamesDistinct()
    ensures Unique(CONTRACT_NAMES)
  {
    assert Unique(CREATION_NAMES);
    CodeNamesDistinct();
    UniqueJoinIff(CREATION_NAMES, CODE_NAMES);
  }

  function Senders(ds: seq<Deployment>): seq<Cell> {
    seq(|ds|, i requires 0 <= i < |ds| => Num(ds[i].deployer))
  }

  lemma {:induction false} DeployerColumnOf(ds: seq<Deployment>, rows: seq<Row>)
    requires |rows| == |ds| && forall i | 0 <= i < |ds| :: CellAt(rows[i], Deployer) == Ok(Num(ds[i].deployer))
    ensures ColumnOf(rows, Deployer) == Senders(ds)
  {
    if ds == [] {
    } else {
      DeployerColumnOf(ds[1..], rows[1..]);
      ColumnOfCons(rows[0], rows[1..], Deployer, Num(ds[0].deployer));
      assert rows == [rows[0]] + rows[1..];
      assert Senders(ds) == [Num(ds[0].deployer)] + Senders(ds[1..]);
    }
  }

  lemma DeployerCell(d: Deployment, keccak: Bytes -> B256)
    requires IsCreation(d.trace)
    ensures CellAt(ContractRow(d, keccak), Deployer) == Ok(Num(d.deployer))
  {
    var row := ContractRow(d, keccak);
    assert row[5] == CreationCells(d)[5];
    ContractNames(d, keccak);
    ContractNamesDistinct();
    CellAtIndex(row, 5);
  }

  lemma DeployerCells(ds: seq<Deployment>, keccak: Bytes -> B256)
    requires forall d | d in ds :: IsCreation(d.trace)
    ensures ColumnOf(ContractRows(ds, keccak), Deployer) == Senders(ds)
  {
    var rows := ContractRows(ds, keccak);
    forall i | 0 <= i < |ds|
      ensures CellAt(rows[i], Deployer) == Ok(Num(ds[i].deployer))
    {
      DeployerCell(ds[i], keccak);
    }
    DeployerColumnOf(ds, rows);
  }

  // Collecting contracts with failed traces excluded, on any forest: a successful call
  // adds to the deployer column exactly the root senders, tree by tree, and keeps every
  // column as long as the row count.
  lemma DeployerColumn(ts: seq<Tree>, schema: Schema, f: Frame, keccak: Bytes -> B256)
    requires IsForest(ts) && Deployer in schema && Aligned(schema, CONTRACT_NAMES, f)
    ensures forall d | d in TreeDeployments(PruneAll(ts), 0) :: IsCreation(d.trace)
    ensures var rows := ContractRows(TreeDeployments(PruneAll(ts), 0), keccak);
            var r := AddRows(schema, f, rows);
            r.error.None? ==>
              Col(r.state.cells, Deployer) == Col(f.cells, Deployer) + Senders(TreeDeployments(PruneAll(ts), 0)) &&
              Aligned(schema, CONTRACT_NAMES, r.state)
  {
    var ds := TreeDeployments(PruneAll(ts), 0);
    DeploymentHasRoot(PruneAll(ts), 0);
    var rows := ContractRows(ds, keccak);
    if AddRows(schema, f, rows).error.None? {
      ContractNamesDistinct();
      forall r | r in rows
        ensures Names(r, CONTRACT_NAMES)
      {
        var i :| 0 <= i < |ds| && r == ContractRow(ds[i], keccak);
        ContractNames(ds[i], keccak);
      }
      RowsTranspose(schema, CONTRACT_NAMES, f, rows);
      DeployerCells(ds, keccak);
    }
  }

  // --- what the table says ---

  // A contract as its row tells it, with what is stored beside its codes; a number of a column that
  // is not selected is not there.
  datatype Contract = Contract(
    blockNumber: Option<nat>,
    blockHash: Option<B256>,
    index: Option<nat>,
    transactionHash: Option<B256>,
    address: Option<Address>,
    deployer: Option<Address>,
    codes: Codes
  )

  datatype Codes = Codes(
    factory: Option<Address>,
    initCode: Option<Bytes>,
    code: Option<Bytes>,
    initCodeHash: Option<B256>,
    codeHash: Option<B256>,
    nInitCodeBytes: Option<nat>,
    nCodeBytes: Option<nat>
  )

  function ContractOf(schema: Schema, d: Deployment, keccak: Bytes -> B256): Contract
    requires IsCreation(d.trace)
  {
    Contract(SeenOpt(schema, BlockNumber, d.trace.blockNumber), SeenOpt(schema, BlockHash, d.trace.blockHash),
             SeenOpt(schema, CreateIndex, Some(d.index)), SeenOpt(schema, TransactionHash, d.trace.transactionHash),
             SeenOpt(schema, ContractAddress, Some(d.trace.result.value.address)),
             SeenOpt(schema, Deployer, Some(d.deployer)), CodesOf(schema, d, keccak))
  }

  function CodesOf(schema: Schema, d: Deployment, keccak: Bytes -> B256): Codes
    requires IsCreation(d.trace)
  {
    var init, code := d.trace.action.init, d.trace.result.value.code;
    Codes(SeenOpt(schema, Factory, Some(d.trace.action.from)),
          SeenBin(schema, InitCode, Some(init)), SeenBin(schema, Code, Some(code)),
          SeenOpt(schema, InitCodeHash, Some(keccak(init))), SeenOpt(schema, CodeHash, Some(keccak(code))),
          SeenOpt(schema, NInitCodeBytes, Some(|init|)), SeenOpt(schema, NCodeBytes, Some(|code|)))
  }

  function ContractsOf(schema: Schema, ds: seq<Deployment>, keccak: Bytes -> B256): (contracts: seq<Contract>)
    requires forall d | d in ds :: IsCreation(d.trace)
    ensures |contracts| == |ds| && forall i | 0 <= i < |ds| :: contracts[i] == ContractOf(schema, ds[i], keccak)
  {
    seq(|ds|, i requires 0 <= i < |ds| => ContractOf(schema, ds[i], keccak))
  }

  function ReadContract(read: Reader): Contract {
    Contract(OptNumAt(read, BlockNumber), OptNumAt(read, BlockHash), OptNumAt(read, CreateIndex),
             OptNumAt(read, TransactionHash), OptNumAt(read, ContractAddress), OptNumAt(read, Deployer),
             ReadCodes(read))
  }

  function ReadCodes(read: Reader): Codes {
    Codes(OptNumAt(read, Factory), OptBinAt(read, InitCode), OptBinAt(read, Code), OptNumAt(read, InitCodeHash),
          OptNumAt(read, CodeHash), OptNumAt(read, NInitCodeBytes), OptNumAt(read, NCodeBytes))
  }

  // One number of a row: its cell holds it, unless it could not be stored.
  lemma NumSaid(schema: Schema, read: Reader, names: seq<Column>, row: Row, k: nat, e: Entry, n: Option<nat>)
    requires Names(row, names) && Says(schema, read, names, row) && k < |row| && row[k] == e
    requires e.cell.Ok? ==> e.cell == Ok(if n.Some? then Num(n.value) else Null)
    ensures OptNumAt(read, e.column) == SeenOpt(schema, e.column, n)
  {
    SaysCell(schema, read, names, row, k, e);
  }

  lemma BinSaid(schema: Schema, read: Reader, names: seq<Column>, row: Row, k: nat, e: Entry, bytes: Bytes)
    requires Names(row, names) && Says(schema, read, names, row) && k < |row| && row[k] == e
    requires e.cell == Ok(Bin(bytes))
    ensures OptBinAt(read, e.column) == SeenBin(schema, e.column, Some(bytes))
  {
    SaysCell(schema, read, names, row, k, e);
  }

  lemma BlockSaid(schema: Schema, read: Reader, names: seq<Column>, d: Deployment)
    requires IsCreation(d.trace) && Names(CreationCells(d), names) && Says(schema, read, names, CreationCells(d))
    ensures OptNumAt(read, BlockNumber) == SeenOpt(schema, BlockNumber, d.trace.blockNumber)
    ensures OptNumAt(read, BlockHash) == SeenOpt(schema, BlockHash, d.trace.blockHash)
    ensures OptNumAt(read, TransactionHash) == SeenOpt(schema, TransactionHash, d.trace.transactionHash)
  {
    var row := CreationCells(d);
    NumSaid(schema, read, names, row, 0, row[0], d.trace.blockNumber);
    NumSaid(schema, read, names, row, 1, row[1], d.trace.blockHash);
    NumSaid(schema, read, names, row, 3, row[3], d.trace.transactionHash);
  }

  lemma CreationSaid(schema: Schema, read: Reader, names: seq<Column>, d: Deployment)
    requires IsCreation(d.trace) && Names(CreationCells(d), names) && Says(schema, read, names, CreationCells(d))
    ensures OptNumAt(read, CreateIndex) == SeenOpt(schema, CreateIndex, Some(d.index))
    ensures OptNumAt(read, ContractAddress) == SeenOpt(schema, ContractAddress, Some(d.trace.result.value.address))
    ensures OptNumAt(read, Deployer) == SeenOpt(schema, Deployer, Some(d.deployer))
  {
    var row := CreationCells(d);
    NumSaid(schema, read, names, row, 2, row[2], Some(d.index));
    NumSaid(schema, read, names, row, 4, row[4], Some(d.trace.result.value.address));
    NumSaid(schema, read, names, row, 5, row[5], Some(d.deployer));
  }

  lemma CodesSaid(schema: Schema, read: Reader, names: seq<Column>, d: Deployment, keccak: Bytes -> B256)
    requires IsCreation(d.trace) && Names(CodeCells(d, keccak), names)
    requires Says(schema, read, names, CodeCells(d, keccak))
    ensures OptNumAt(read, Factory) == SeenOpt(schema, Factory, Some(d.trace.action.from))
    ensures OptBinAt(read, InitCode) == SeenBin(schema, InitCode, Some(d.trace.action.init))
    ensures OptBinAt(read, Code) == SeenBin(schema, Code, Some(d.trace.result.value.code))
  {
    var row := CodeCells(d, keccak);
    NumSaid(schema, read, names, row, 0, row[0], Some(d.trace.action.from));
    BinSaid(schema, read, names, row, 1, row[1], d.trace.action.init);
    BinSaid(schema, read, names, row, 2, row[2], d.trace.result.value.code);
  }

  lemma HashesSaid(schema: Schema, read: Reader, names: seq<Column>, d: Deployment, keccak: Bytes -> B256)
    requires IsCreation(d.trace) && Names(CodeCells(d, keccak), names)
    requires Says(schema, read, names, CodeCells(d, keccak))
    ensures OptNumAt(read, InitCodeHash) == SeenOpt(schema, InitCodeHash, Some(keccak(d.trace.action.init)))
    ensures OptNumAt(read, CodeHash) == SeenOpt(schema, CodeHash, Some(keccak(d.trace.result.value.code)))
  {
    var row := CodeCells(d, keccak);
    NumSaid(schema, read, names, row, 3, row[3], Some(keccak(d.trace.action.init)));
    NumSaid(schema, read, names, row, 4, row[4], Some(keccak(d.trace.result.value.code)));
  }

  lemma SizesSaid(schema: Schema, read: Reader, names: seq<Column>, d: Deployment, keccak: Bytes -> B256)
    requires IsCreation(d.trace) && Names(CodeCells(d, keccak), names)
    requires Says(schema, read, names, CodeCells(d, keccak))
    ensures OptNumAt(read, NInitCodeBytes) == SeenOpt(schema, NInitCodeBytes, Some(|d.trace.action.init|))
    ensures OptNumAt(read, NCodeBytes) == SeenOpt(schema, NCodeBytes, Some(|d.trace.result.value.code|))
  {
    var row := CodeCells(d, keccak);
    NumSaid(schema, read, names, row, 5, row[5], Some(|d.trace.action.init|));
    NumSaid(schema, read, names, row, 6, row[6], Some(|d.trace.result.value.code|));
  }

  // A row says everything about its contract that the selected columns have room for.
  lemma RowSaysContract(schema: Schema, names: seq<Column>, d: Deployment, keccak: Bytes -> B256)
    requires IsCreation(d.trace) && Names(ContractRow(d, keccak), names)
    ensures Parses(schema, ReadContract, names, ContractRow(d, keccak), ContractOf(schema, d, keccak))
  {
    forall read: Reader | Says(schema, read, names, CreationCells(d) + CodeCells(d, keccak))
      ensures ReadContract(read) == ContractOf(schema, d, keccak)
    {
      SaysParts(schema, read, names, CreationCells(d), CodeCells(d, keccak));
      BlockSaid(schema, read, names[..6], d);
      CreationSaid(schema, read, names[..6], d);
      CodesSaid(schema, read, names[6..], d, keccak);
      HashesSaid(schema, read, names[6..], d, keccak);
      SizesSaid(schema, read, names[6..], d, keccak);
    }
  }

  // With failed traces excluded, the table that a successful call leaves says of every surviving
  // creation of the forest, as far as the columns are selected: its own codes, each beside its own
  // hash and size, the sender of the root above it, and its place.
  lemma ContractsRecovered(ts: seq<Tree>, schema: Schema, f: Frame, keccak: Bytes -> B256)
    requires IsForest(ts) && Aligned(schema, CONTRACT_NAMES, f)
    ensures var ds := Deployments(FilterFailed(FlattenAll(ts)), 0, 0);
            && (forall d | d in ds :: IsCreation(d.trace))
            && var r := AddRows(schema, f, ContractRows(ds, keccak));
               r.error.None? ==>
                 && ReadTable(r.state, f.nRows, ReadContract) == ContractsOf(schema, ds, keccak)
                 && ds == TreeDeployments(PruneAll(ts), 0)
  {
    DeployersSurviveFiltering(ts);
    DeploymentHasRoot(PruneAll(ts), 0);
    DeploymentsStored(TreeDeployments(PruneAll(ts), 0), schema, f, keccak);
  }

  lemma DeploymentsStored(ds: seq<Deployment>, schema: Schema, f: Frame, keccak: Bytes -> B256)
    requires (forall d | d in ds :: IsCreation(d.trace)) && Aligned(schema, CONTRACT_NAMES, f)
    ensures var r := AddRows(schema, f, ContractRows(ds, keccak));
            r.error.None? ==> ReadTable(r.state, f.nRows, ReadContract) == ContractsOf(schema, ds, keccak)
  {
    var rows := ContractRows(ds, keccak);
    if AddRows(schema, f, rows).error.None? {
      ContractNamesDistinct();
      forall i | 0 <= i < |rows|
        ensures Names(rows[i], CONTRACT_NAMES) &&
                Parses(schema, ReadContract, CONTRACT_NAMES, rows[i], ContractsOf(schema, ds, keccak)[i])
      {
        ContractNames(ds[i], keccak);
        RowSaysContract(schema, CONTRACT_NAMES, ds[i], keccak);
      }
      ReadStored(schema, CONTRACT_NAMES, f, rows, ReadContract, ContractsOf(schema, ds, keccak));
    }
  }
}
