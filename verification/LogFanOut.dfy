// The fan-out, member by member: what each accumulator ends as, and which error ends a call.
module LogFanOut {
  import opened Prelude
  import opened RpcParams
  import opened Columns
  import opened LogDatasets
  import opened LogEvents

  // The orders in which a block's and a transaction's logs are handed out.
  const BLOCK_ORDER: seq<Datatype> := [Erc20Transfers, Erc20Approvals, Erc721Transfers, Erc20WrapperEvents, Logs]
  const TX_ORDER: seq<Datatype> := [Logs, Erc20Transfers, Erc20Approvals, Erc721Transfers, Erc20WrapperEvents]

  function ShareOf(p: Params, response: seq<Log>): Datatype -> seq<Log> {
    dt => Share(dt, p, response)
  }

  function TxShareOf(receipt: seq<Log>): Datatype -> seq<Log> {
    dt => TxShare(dt, receipt)
  }

  predicate AllMembers(order: seq<Datatype>) {
    Unique(order) && forall i | 0 <= i < |order| :: !order[i].Other?
  }

  // How many members in a row, from the first, have a result without an error.
  function Succeeding(order: seq<Datatype>, results: map<Datatype, Outcome<Frame>>): (k: nat)
    ensures k <= |order|
    ensures k < |order| ==> order[k] in results && results[order[k]].error.Some?
    ensures forall j | 0 <= j < k :: order[j] in results ==> results[order[j]].error.None?
  {
    if order == [] || (order[0] in results && results[order[0]].error.Some?) then 0
    else 1 + Succeeding(order[1..], results)
  }

  // The members that a call reaches: up to the first that fails.
  function Reached(order: seq<Datatype>, results: map<Datatype, Outcome<Frame>>): seq<Datatype> {
    var k := Succeeding(order, results);
    if k < |order| then order[..k + 1] else order
  }

  function FirstError(order: seq<Datatype>, results: map<Datatype, Outcome<Frame>>): Option<Error> {
    var k := Succeeding(order, results);
    if k < |order| then results[order[k]].error else None
  }

  // The members of `order` filled one after the other, each from its own result, up to the
  // first failure, whose error ends the call. A member without a result is passed over.
  ghost predicate Filled(r: Outcome<Accumulators>, order: seq<Datatype>, acc: Accumulators,
                         results: map<Datatype, Outcome<Frame>>)
    requires Complete(acc)
  {
    && r.error == FirstError(order, results)
    && Complete(r.state)
    && forall dt: Datatype | !dt.Other? ::
         r.state[dt] == if dt in results && dt in Reached(order, results) then results[dt].state else acc[dt]
  }

  // The results are what processing each requested member's share comes to.
  ghost predicate Processed(results: map<Datatype, Outcome<Frame>>, share: Datatype -> seq<Log>,
                            schemas: map<Datatype, LogSchema>, acc: Accumulators)
    requires Complete(acc)
  {
    forall dt: Datatype | !dt.Other? ::
      (dt in schemas <==> dt in results) &&
      (dt in schemas ==> results[dt] == Process(dt, schemas[dt], acc[dt], share(dt)))
  }

  lemma {:induction false} SucceedingSnoc(order: seq<Datatype>, dt: Datatype, results: map<Datatype, Outcome<Frame>>)
    ensures Succeeding(order + [dt], results) ==
            if Succeeding(order, results) < |order| then Succeeding(order, results)
            else if dt in results && results[dt].error.Some? then |order|
            else |order| + 1
  {
    if order == [] {
    } else {
      assert (order + [dt])[0] == order[0] && (order + [dt])[1..] == order[1..] + [dt];
      SucceedingSnoc(order[1..], dt, results);
    }
  }

  // One member more is reached if none before it has failed.
  lemma ReachedSnoc(order: seq<Datatype>, dt: Datatype, results: map<Datatype, Outcome<Frame>>)
    ensures FirstError(order, results).Some? ==>
              Reached(order + [dt], results) == Reached(order, results) &&
              FirstError(order + [dt], results) == FirstError(order, results)
    ensures FirstError(order, results).None? ==>
              Reached(order, results) == order && Reached(order + [dt], results) == order + [dt] &&
              FirstError(order + [dt], results) == if dt in results then results[dt].error else None
  {
    SucceedingSnoc(order, dt, results);
    var k := Succeeding(order, results);
    if k < |order| {
      assert (order + [dt])[..k + 1] == order[..k + 1] && (order + [dt])[k] == order[k];
    } else {
      assert (order + [dt])[..|order| + 1] == order + [dt];
    }
  }

  lemma FilledStep(r: Outcome<Accumulators>, order: seq<Datatype>, dt: Datatype, share: Datatype -> seq<Log>,
                   schemas: map<Datatype, LogSchema>, acc: Accumulators, results: map<Datatype, Outcome<Frame>>)
    requires Complete(acc) && Processed(results, share, schemas, acc)
    requires Filled(r, order, acc, results) && dt !in order && !dt.Other?
    ensures Filled(ThenFill(r, dt, share(dt), schemas), order + [dt], acc, results)
  {
    ReachedSnoc(order, dt, results);
    if r.error.None? {
      assert r.state[dt] == acc[dt];
      assert forall d: Datatype :: d in order + [dt] <==> d in order || d == dt;
    }
  }

  // Filling any members in any order, each once.
  function FillAll(order: seq<Datatype>, share: Datatype -> seq<Log>, schemas: map<Datatype, LogSchema>,
                   acc: Accumulators): (r: Outcome<Accumulators>)
    requires Complete(acc) && AllMembers(order)
    ensures Complete(r.state)
  {
    if order == [] then Outcome(acc, None)
    else
      var n := |order| - 1;
      ThenFill(FillAll(order[..n], share, schemas, acc), order[n], share(order[n]), schemas)
  }

  lemma {:induction false} FillAllFills(order: seq<Datatype>, share: Datatype -> seq<Log>,
                                        schemas: map<Datatype, LogSchema>, acc: Accumulators,
                                        results: map<Datatype, Outcome<Frame>>)
    requires Complete(acc) && AllMembers(order) && Processed(results, share, schemas, acc)
    ensures Filled(FillAll(order, share, schemas, acc), order, acc, results)
    decreases |order|
  {
    if order == [] {
    } else {
      var n := |order| - 1;
      var init, last := order[..n], order[n];
      assert order == init + [last];
      FillLast(init, last, share, schemas, acc);
      FillAllFills(init, share, schemas, acc, results);
      FilledStep(FillAll(init, share, schemas, acc), init, last, share, schemas, acc, results);
    }
  }

  lemma FillLast(init: seq<Datatype>, last: Datatype, share: Datatype -> seq<Log>, schemas: map<Datatype, LogSchema>,
                 acc: Accumulators)
    requires Complete(acc) && AllMembers(init + [last])
    ensures AllMembers(init)
    ensures FillAll(init + [last], share, schemas, acc) ==
            ThenFill(FillAll(init, share, schemas, acc), last, share(last), schemas)
  {
    UniqueParts(init, [last]);
    forall i | 0 <= i < |init|
      ensures !init[i].Other?
    {
      assert (init + [last])[i] == init[i];
    }
    assert (init + [last])[..|init|] == init && (init + [last])[|init|] == last;
  }

  lemma ThreeFills(a: Datatype, b: Datatype, c: Datatype, share: Datatype -> seq<Log>,
                   schemas: map<Datatype, LogSchema>, acc: Accumulators)
    requires !a.Other? && !b.Other? && !c.Other?
    requires Complete(acc) && AllMembers([a, b, c])
    ensures FillAll([a, b, c], share, schemas, acc) ==
            ThenFill(ThenFill(FillOne(a, share(a), schemas, acc), b, share(b), schemas), c, share(c), schemas)
  {
    assert [a, b, c] == [a, b] + [c] && [a, b] == [a] + [b] && [a] == [] + [a];
    FillLast([a, b], c, share, schemas, acc);
    FillLast([a], b, share, schemas, acc);
    FillLast([], a, share, schemas, acc);
  }

  lemma FiveFills(a: Datatype, b: Datatype, c: Datatype, d: Datatype, e: Datatype, share: Datatype -> seq<Log>,
                  schemas: map<Datatype, LogSchema>, acc: Accumulators)
    requires !a.Other? && !b.Other? && !c.Other? && !d.Other? && !e.Other?
    requires Complete(acc) && AllMembers([a, b, c, d, e])
    ensures var r1 := FillOne(a, share(a), schemas, acc);
            var r2 := ThenFill(r1, b, share(b), schemas);
            var r3 := ThenFill(r2, c, share(c), schemas);
            var r4 := ThenFill(r3, d, share(d), schemas);
            FillAll([a, b, c, d, e], share, schemas, acc) == ThenFill(r4, e, share(e), schemas)
  {
    assert [a, b, c, d, e] == [a, b, c, d] + [e] && [a, b, c, d] == [a, b, c] + [d];
    FillLast([a, b, c, d], e, share, schemas, acc);
    FillLast([a, b, c], d, share, schemas, acc);
    ThreeFills(a, b, c, share, schemas, acc);
  }

  lemma OrdersAreMembers()
    ensures AllMembers(BLOCK_ORDER) && AllMembers(TX_ORDER)
  {
  }

  lemma EveryMember(order: seq<Datatype>)
    requires order == BLOCK_ORDER || order == TX_ORDER
    ensures forall dt: Datatype :: dt in order <==> !dt.Other?
  {
  }

  // A block's fan-out leaves each accumulator as its own share would, up to the first member
  // that fails.
  lemma FanOutPerMember(p: Params, response: seq<Log>, schemas: map<Datatype, LogSchema>, acc: Accumulators,
                        results: map<Datatype, Outcome<Frame>>)
    requires Complete(acc) && Processed(results, ShareOf(p, response), schemas, acc)
    ensures Filled(FanOutBlock(p, response, schemas, acc), BLOCK_ORDER, acc, results)
  {
    OrdersAreMembers();
    FillAllFills(BLOCK_ORDER, ShareOf(p, response), schemas, acc, results);
    FiveFills(Erc20Transfers, Erc20Approvals, Erc721Transfers, Erc20WrapperEvents, Logs, ShareOf(p, response),
              schemas, acc);
  }

  // So does a transaction's, raw logs first.
  lemma TransactionPerMember(receipt: seq<Log>, schemas: map<Datatype, LogSchema>, acc: Accumulators,
                             results: map<Datatype, Outcome<Frame>>)
    requires Complete(acc) && Processed(results, TxShareOf(receipt), schemas, acc)
    ensures Filled(FanOutTransaction(receipt, schemas, acc), TX_ORDER, acc, results)
  {
    OrdersAreMembers();
    FillAllFills(TX_ORDER, TxShareOf(receipt), schemas, acc, results);
    FiveFills(Logs, Erc20Transfers, Erc20Approvals, Erc721Transfers, Erc20WrapperEvents, TxShareOf(receipt),
              schemas, acc);
    FilterAll(TxKept(Logs), receipt);
  }

  // A completed call has filled every member that has a result.
  lemma CompletedMembers(r: Outcome<Accumulators>, order: seq<Datatype>, acc: Accumulators,
                         results: map<Datatype, Outcome<Frame>>)
    requires Complete(acc) && Filled(r, order, acc, results)
    ensures r.error.None? <==> forall dt | dt in order && dt in results :: results[dt].error.None?
    ensures r.error.None? ==>
              forall dt: Datatype | !dt.Other? ::
                r.state[dt] == if dt in order && dt in results then results[dt].state else acc[dt]
  {
    var k := Succeeding(order, results);
    if k < |order| {
      assert order[k] in order;
    }
  }
}
