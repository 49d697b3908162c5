// Parity-style call traces: a block's call trees, flattened in preorder, and the filter
// that removes failed calls from the flat list.
module Traces {
  import opened Prelude
  import opened RpcParams
  import opened TraceAddress

  datatype Action =
    | Call(from: Address, to: Address, value: nat, gas: nat, input: Bytes, callType: string)
    | Create(from: Address, value: nat, gas: nat, init: Bytes)
    | Selfdestruct(address: Address, balance: nat, refundAddress: Address)
    | Reward(author: Address, value: nat, rewardType: string)

  datatype TraceOutput =
    | CallOutput(gasUsed: nat, output: Bytes)
    | CreateOutput(gasUsed: nat, code: Bytes, address: Address)

  datatype Trace = Trace(
    action: Action,
    result: Option<TraceOutput>,
    error: Option<string>,
    path: Path,
    subtraces: nat,
    transactionPosition: Option<nat>,
    transactionHash: Option<B256>,
    blockNumber: Option<nat>,
    blockHash: Option<B256>
  )

  // --- the filter ---

  // `failed` is the address of the remembered failed call, if any.
  function Restart(t: Trace, failed: Option<Path>): Option<Path> {
    if t.path == [] then None else failed
  }

  predicate Covered(t: Trace, failed: Option<Path>) {
    failed.Some? && failed.value <= t.path
  }

  // The remembered address after one trace.
  function Next(t: Trace, failed: Option<Path>): Option<Path> {
    var current := Restart(t, failed);
    if Covered(t, current) then current else if t.error.Some? then Some(t.path) else None
  }

  predicate Kept(t: Trace, failed: Option<Path>) {
    !Covered(t, Restart(t, failed)) && t.error.None?
  }

  function FilterFrom(traces: seq<Trace>, failed: Option<Path>): seq<Trace>
    decreases |traces|
  {
    if traces == [] then []
    else (if Kept(traces[0], failed) then [traces[0]] else []) + FilterFrom(traces[1..], Next(traces[0], failed))
  }

  function Remembered(traces: seq<Trace>, failed: Option<Path>): Option<Path>
    decreases |traces|
  {
    if traces == [] then failed else Remembered(traces[1..], Next(traces[0], failed))
  }

  function FilterFailed(traces: seq<Trace>): seq<Trace> {
    FilterFrom(traces, None)
  }

  method FilterFailedTraces(traces: seq<Trace>) returns (filtered: seq<Trace>)
    ensures filtered == FilterFailed(traces)
  {
    var errorAddress: Option<Path> := None;
    filtered := [];
    for i := 0 to |traces|
      invariant filtered + FilterFrom(traces[i..], errorAddress) == FilterFailed(traces)
    {
      var trace := traces[i];
      assert traces[i..][1..] == traces[i + 1..];
      if trace.path == [] {
        errorAddress := None;
      }
      if errorAddress.Some? {
        var e := errorAddress.value;
        if |trace.path| >= |e| && trace.path[..|e|] == e {
          continue;
        }
        errorAddress := None;
      }
      match trace.error
      case Some(_) => errorAddress := Some(trace.path);
      case None => filtered := filtered + [trace];
    }
  }

  // --- call trees ---

  datatype Tree = Node(trace: Trace, children: seq<Tree>)

  function Flatten(t: Tree): seq<Trace>
    decreases t, 1
  {
    [t.trace] + FlattenAll(t.children)
  }

  function FlattenAll(ts: seq<Tree>): seq<Trace>
    decreases ts, 0
  {
    if ts == [] then [] else Flatten(ts[0]) + FlattenAll(ts[1..])
  }

  // Addresses that say where each call is: a child extends its parent by one component,
  // and no two siblings share an address.
  predicate ChildOf(c: Tree, path: Path) {
    |c.trace.path| == |path| + 1 && path <= c.trace.path
  }

  predicate DistinctPaths(ts: seq<Tree>) {
    forall i, j | 0 <= i < j < |ts| :: ts[i].trace.path != ts[j].trace.path
  }

  predicate WellPlaced(t: Tree)
    decreases t
  {
    DistinctPaths(t.children) && forall c | c in t.children :: ChildOf(c, t.trace.path) && WellPlaced(c)
  }

  // One tree a transaction, each rooted at the empty address.
  predicate IsForest(ts: seq<Tree>) {
    forall t | t in ts :: t.trace.path == [] && WellPlaced(t)
  }

  predicate Failed(t: Tree) {
    t.trace.error.Some?
  }

  // Remove every failed subtree.
  function PruneAll(ts: seq<Tree>): seq<Tree> {
    if ts == [] then []
    else (if Failed(ts[0]) then [] else [Node(ts[0].trace, PruneAll(ts[0].children))]) + PruneAll(ts[1..])
  }

  // --- the filter on flattened trees ---

  // Neither address is a prefix of the other.
  predicate Apart(a: Path, b: Path) {
    !(a <= b) && !(b <= a)
  }

  predicate Clear(failed: Option<Path>, path: Path) {
    failed.Some? ==> Apart(failed.value, path)
  }

  lemma PrefixTransitive(a: Path, b: Path, c: Path)
    requires a <= b <= c
    ensures a <= c
  {
  }

  lemma ApartBelow(a: Path, b: Path, x: Path, y: Path)
    requires Apart(a, b) && a <= x && b <= y
    ensures Apart(x, y)
  {
    var n := if |a| < |b| then |a| else |b|;
    var k :| 0 <= k < n && a[k] != b[k];
    assert x[k] == a[k] && y[k] == b[k];
  }

  lemma {:induction false} FilterFromAppend(a: seq<Trace>, b: seq<Trace>, failed: Option<Path>)
    ensures FilterFrom(a + b, failed) == FilterFrom(a, failed) + FilterFrom(b, Remembered(a, failed))
    ensures Remembered(a + b, failed) == Remembered(b, Remembered(a, failed))
    decreases |a|
  {
    if a == [] {
      assert a + b == b;
    } else {
      assert (a + b)[1..] == a[1..] + b;
      FilterFromAppend(a[1..], b, Next(a[0], failed));
    }
  }

  // Below a remembered address everything is dropped.
  lemma {:induction false} CoveredDropped(traces: seq<Trace>, path: Path)
    requires forall t | t in traces :: path <= t.path && t.path != []
    ensures FilterFrom(traces, Some(path)) == [] && Remembered(traces, Some(path)) == Some(path)
  {
    if traces == [] {
    } else {
      assert traces[0] in traces;
      CoveredDropped(traces[1..], path);
    }
  }

  lemma {:induction false} FlattenBelow(t: Tree)
    requires WellPlaced(t)
    ensures forall x | x in Flatten(t) :: t.trace.path <= x.path
    decreases t, 1
  {
    FlattenAllBelow(t.children, t.trace.path);
  }

  lemma {:induction false} FlattenAllBelow(ts: seq<Tree>, path: Path)
    requires forall t | t in ts :: ChildOf(t, path) && WellPlaced(t)
    ensures forall x | x in FlattenAll(ts) :: path <= x.path && |x.path| > |path|
    decreases ts, 0
  {
    if ts == [] {
    } else {
      assert ts[0] in ts;
      FlattenBelow(ts[0]);
      forall x | x in Flatten(ts[0])
        ensures path <= x.path && |x.path| > |path|
      {
        PrefixTransitive(path, ts[0].trace.path, x.path);
      }
      FlattenAllBelow(ts[1..], path);
    }
  }

  // The filter on one subtree: nothing of a failed one, the pruned subtree otherwise; and
  // any address it remembers afterwards lies inside this subtree.
  lemma {:induction false} FilterSubtree(t: Tree, failed: Option<Path>)
    requires WellPlaced(t) && (t.trace.path == [] || Clear(failed, t.trace.path))
    ensures FilterFrom(Flatten(t), failed) == FlattenAll(PruneAll([t]))
    ensures var after := Remembered(Flatten(t), failed); after.Some? ==> t.trace.path <= after.value
    decreases t, 1
  {
    var path := t.trace.path;
    var below := FlattenAll(t.children);
    assert Flatten(t)[1..] == below && Flatten(t)[0] == t.trace;
    FlattenAllBelow(t.children, path);
    assert PruneAll([t]) == if Failed(t) then [] else [Node(t.trace, PruneAll(t.children))];
    if Failed(t) {
      CoveredDropped(below, path);
    } else {
      FilterSiblings(t.children, None, path);
      var pruned := Node(t.trace, PruneAll(t.children));
      assert FlattenAll([pruned]) == Flatten(pruned) + FlattenAll([]) == Flatten(pruned);
    }
  }

  lemma {:induction false} FilterSiblings(ts: seq<Tree>, failed: Option<Path>, path: Path)
    requires forall t | t in ts :: ChildOf(t, path) && WellPlaced(t) && Clear(failed, t.trace.path)
    requires DistinctPaths(ts)
    ensures FilterFrom(FlattenAll(ts), failed) == FlattenAll(PruneAll(ts))
    ensures var after := Remembered(FlattenAll(ts), failed); after == failed || (after.Some? ==> path <= after.value)
    decreases ts, 0
  {
    if ts == [] {
    } else {
      var first, rest := ts[0], ts[1..];
      assert first in ts;
      FilterSubtree(first, failed);
      var after := Remembered(Flatten(first), failed);
      FilterFromAppend(Flatten(first), FlattenAll(rest), failed);
      forall t | t in rest
        ensures Clear(after, t.trace.path)
      {
        var i :| 0 <= i < |rest| && rest[i] == t;
        assert ts[i + 1] == t && ts[0] == first;
        if after.Some? {
          assert Apart(first.trace.path, t.trace.path);
          ApartBelow(first.trace.path, t.trace.path, after.value, t.trace.path);
        }
      }
      FilterSiblings(rest, after, path);
      if after.Some? {
        PrefixTransitive(path, first.trace.path, after.value);
      }
      FlattenPruneCons(first, rest);
    }
  }

  lemma FlattenPruneCons(first: Tree, rest: seq<Tree>)
    ensures FlattenAll(PruneAll([first] + rest)) == FlattenAll(PruneAll([first])) + FlattenAll(PruneAll(rest))
  {
    assert ([first] + rest)[1..] == rest;
    var head := if Failed(first) then [] else [Node(first.trace, PruneAll(first.children))];
    assert PruneAll([first] + rest) == head + PruneAll(rest);
    assert PruneAll([first]) == head;
    if head != [] {
      assert (head + PruneAll(rest))[1..] == PruneAll(rest);
      assert FlattenAll(head) == Flatten(head[0]) + FlattenAll([]);
    } else {
      assert head + PruneAll(rest) == PruneAll(rest);
    }
  }

  // For every forest of call trees, filtering the flat list with the single remembered
  // address is flattening the forest without its failed subtrees.
  lemma {:induction false} FilterIsPrune(ts: seq<Tree>, failed: Option<Path>)
    requires IsForest(ts)
    ensures FilterFrom(FlattenAll(ts), failed) == FlattenAll(PruneAll(ts))
    decreases |ts|
  {
    if ts == [] {
    } else {
      assert ts[0] in ts;
      FilterSubtree(ts[0], failed);
      FilterFromAppend(Flatten(ts[0]), FlattenAll(ts[1..]), failed);
      FilterIsPrune(ts[1..], Remembered(Flatten(ts[0]), failed));
      assert ts == [ts[0]] + ts[1..];
      FlattenPruneCons(ts[0], ts[1..]);
    }
  }

  // What is left after pruning is a forest again.
  lemma {:induction false} PruneKeepsForest(ts: seq<Tree>)
    requires IsForest(ts)
    ensures IsForest(PruneAll(ts))
  {
    if ts == [] {
    } else {
      assert ts[0] in ts;
      PruneKeepsForest(ts[1..]);
      if !Failed(ts[0]) {
        PruneKeepsPlaces(ts[0].children, ts[0].trace.path);
      }
    }
  }

  lemma {:induction false} PrunedRoots(ts: seq<Tree>)
    ensures forall t | t in PruneAll(ts) :: exists u :: u in ts && u.trace == t.trace
  {
    if ts == [] {
    } else {
      PrunedRoots(ts[1..]);
      assert ts == [ts[0]] + ts[1..];
    }
  }

  lemma PrunedApart(ts: seq<Tree>)
    requires ts != [] && DistinctPaths(ts)
    ensures forall t | t in PruneAll(ts[1..]) :: t.trace.path != ts[0].trace.path
  {
    PrunedRoots(ts[1..]);
    forall t | t in PruneAll(ts[1..])
      ensures t.trace.path != ts[0].trace.path
    {
      var u :| u in ts[1..] && u.trace == t.trace;
      var i :| 0 <= i < |ts| - 1 && ts[1..][i] == u;
      assert ts[i + 1] == u;
    }
  }

  lemma {:induction false} PruneKeepsPlaces(ts: seq<Tree>, path: Path)
    requires DistinctPaths(ts) && forall t | t in ts :: ChildOf(t, path) && WellPlaced(t)
    ensures DistinctPaths(PruneAll(ts)) && forall t | t in PruneAll(ts) :: ChildOf(t, path) && WellPlaced(t)
  {
    if ts == [] {
    } else {
      var first, rest := ts[0], ts[1..];
      assert first in ts;
      PruneKeepsPlaces(rest, path);
      if !Failed(first) {
        PruneKeepsPlaces(first.children, first.trace.path);
        PrunedApart(ts);
      }
    }
  }

  // --- any list at all ---

  lemma {:induction false} NoFailureLeft(traces: seq<Trace>, failed: Option<Path>)
    ensures forall t | t in FilterFrom(traces, failed) :: t.error.None?
    decreases |traces|
  {
    if traces == [] {
    } else {
      NoFailureLeft(traces[1..], Next(traces[0], failed));
    }
  }

  lemma {:induction false} NothingToDrop(traces: seq<Trace>)
    requires forall t | t in traces :: t.error.None?
    ensures FilterFrom(traces, None) == traces
  {
    if traces == [] {
    } else {
      assert traces[0] in traces;
      NothingToDrop(traces[1..]);
    }
  }

  // On any input, well placed or not, no failed trace survives and a second filtering
  // changes nothing.
  lemma FilterIdempotent(traces: seq<Trace>)
    ensures forall t | t in FilterFailed(traces) :: t.error.None?
    ensures FilterFailed(FilterFailed(traces)) == FilterFailed(traces)
  {
    NoFailureLeft(traces, None);
    NothingToDrop(FilterFailed(traces));
  }

  // --- selection by sender and receiver ---

  predicate FromMatches(t: Trace, from: Option<Address>) {
    from.Some? ==>
      match t.action
      case Call(f, _, _, _, _, _) => f == from.value
      case Create(f, _, _, _) => f == from.value
      case Selfdestruct(a, _, _) => a == from.value
      case Reward(_, _, _) => false
  }

  predicate ToMatches(t: Trace, to: Option<Address>) {
    to.Some? ==>
      match t.action
      case Call(_, a, _, _, _, _) => a == to.value
      case Create(_, _, _, _) => false
      case Selfdestruct(_, _, r) => r == to.value
      case Reward(a, _, _) => a == to.value
  }

  function SelectByAddress(traces: seq<Trace>, from: Option<Address>, to: Option<Address>): seq<Trace> {
    Filter(ToFilter(to), Filter(FromFilter(from), traces))
  }

  function FromFilter(from: Option<Address>): Trace -> bool {
    t => FromMatches(t, from)
  }

  function ToFilter(to: Option<Address>): Trace -> bool {
    t => ToMatches(t, to)
  }

  // The traces dataset selects by address when it extracts and drops failed traces when
  // it transforms.
  function CollectTraces(traces: seq<Trace>, from: Option<Address>, to: Option<Address>,
                         excludeFailed: bool): seq<Trace> {
    var selected := SelectByAddress(traces, from, to);
    if excludeFailed then FilterFailed(selected) else selected
  }

  // A failed contract creation whose frame is not selected, around a selected call.
  function FailedCreateAround(from: Option<Address>, to: Option<Address>): seq<Tree> {
    var sender := if from.Some? then from.value else 0;
    var receiver := if to.Some? then to.value else 0;
    var other := if sender == 0 then 1 else 0;
    var root := Trace(Create(other, 0, 0, []), None, Some("Reverted"), [], 1, None, None, None, None);
    var inner := Trace(Call(sender, receiver, 0, 0, [], "call"), None, None, [0], 0, None, None, None, None);
    [Node(root, [Node(inner, [])])]
  }

  // Selecting first hides the failed frame from the filter. Dropping failed subtrees and
  // selecting commute on every forest exactly when nothing is selected by address.
  lemma ExcludeFailedCommutesIff(from: Option<Address>, to: Option<Address>)
    ensures (forall ts: seq<Tree> | IsForest(ts) ::
               CollectTraces(FlattenAll(ts), from, to, true) ==
               SelectByAddress(FlattenAll(PruneAll(ts)), from, to)) <==>
            from.None? && to.None?
  {
    if from.None? && to.None? {
      forall ts: seq<Tree> | IsForest(ts)
        ensures CollectTraces(FlattenAll(ts), from, to, true) == SelectByAddress(FlattenAll(PruneAll(ts)), from, to)
      {
        SelectNothing(FlattenAll(ts));
        SelectNothing(FlattenAll(PruneAll(ts)));
        FilterIsPrune(ts, None);
      }
    } else {
      FailedFrameHidden(from, to);
    }
  }

  lemma SelectNothing(traces: seq<Trace>)
    ensures SelectByAddress(traces, None, None) == traces
  {
    FilterAll(FromFilter(None), traces);
    FilterAll(ToFilter(None), traces);
  }

  // The concrete case: the inner call of a reverted transaction is reported as if it had
  // taken effect.
  lemma FailedFrameHidden(from: Option<Address>, to: Option<Address>)
    requires from.Some? || to.Some?
    ensures var ts := FailedCreateAround(from, to);
            && IsForest(ts)
            && FlattenAll(PruneAll(ts)) == []
            && CollectTraces(FlattenAll(ts), from, to, true) == [ts[0].children[0].trace]
  {
    var ts := FailedCreateAround(from, to);
    var root, inner := ts[0].trace, ts[0].children[0].trace;
    assert ts[0].children[1..] == [] && ts[1..] == [];
    assert FlattenAll(ts[0].children) == [inner];
    assert FlattenAll(ts) == [root, inner];
    FilterPair(FromFilter(from), root, inner);
    FilterPair(ToFilter(to), root, inner);
    assert [inner][1..] == [];
    assert SelectByAddress([root, inner], from, to) == [inner];
    assert Kept(inner, None);
    NothingToDrop([inner]);
  }

  lemma FilterPair(keep: Trace -> bool, a: Trace, b: Trace)
    ensures Filter(keep, [a, b]) == (if keep(a) then [a] else []) + (if keep(b) then [b] else [])
  {
    assert [a, b][1..] == [b] && [b][1..] == [];
    assert Filter(keep, [b]) == if keep(b) then [b] else [];
  }
}
