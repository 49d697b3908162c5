// The coalesced query gives every member what its own query would have given it.
module LogEquivalence {
  import opened Prelude
  import opened RpcParams
  import opened Columns
  import opened LogDatasets
  import opened LogEvents
  import opened LogFanOut

  // --- one log ---

  predicate InBase(p: Params, m: Mined)
  {
    EthersLogFilter(p).Ok? &&
    var base := EthersLogFilter(p).value;
    base.fromBlock <= m.block <= base.toBlock && AddressAdmits(base.address, m.log)
  }

  // The mined logs that a member's own query is meant to return.
  function Wanted(dt: Datatype, p: Params): Mined -> bool {
    m => InBase(p, m) && Matches(dt, p, m.log)
  }

  lemma AddressSlotMeaning(dim: Option<Bytes>, what: string, log: Log, pos: nat)
    ensures AddressSlot(dim, what).Ok? ==>
              (SlotAdmits(AddressSlot(dim, what).value, log, pos) <==> AddressTopicMatches(log, pos, dim))
    ensures AddressSlot(dim, what).Err? ==> !AddressTopicMatches(log, pos, dim)
  {
  }

  lemma TopicSlotMeaning(dim: Option<Bytes>, what: string, log: Log, pos: nat)
    requires OptionalTopic(dim, what).Ok?
    ensures SlotAdmits(OptionalTopic(dim, what).value, log, pos) <==> TopicMatches(log, pos, dim)
  {
  }

  // Filter at the node plus shape check on the client is: the shared range and address,
  // and the member's full predicate.
  lemma ScalarMeaning(dt: Datatype, p: Params, m: Mined)
    requires !dt.Other? && ScalarFilter(dt, p).Ok?
    ensures EthersLogFilter(p).Ok?
    ensures NodeSelects(ScalarFilter(dt, p).value, m) && ScalarShape(dt, m.log) <==>
            InBase(p, m) && Matches(dt, p, m.log)
  {
    match dt
    case Logs =>
      TopicSlotMeaning(p.topic0, "topic0", m.log, 0);
      TopicSlotMeaning(p.topic1, "topic1", m.log, 1);
      TopicSlotMeaning(p.topic2, "topic2", m.log, 2);
      TopicSlotMeaning(p.topic3, "topic3", m.log, 3);
    case Erc20WrapperEvents =>
      TopicSlotMeaning(p.topic1, "topic1", m.log, 1);
    case Erc20Transfers | Erc20Approvals | Erc721Transfers =>
      AddressSlotMeaning(p.fromAddress, "from_address", m.log, 1);
      AddressSlotMeaning(p.toAddress, "to_address", m.log, 2);
  }

  // Where the shared filter is fine but a member's own filter is refused, that member's
  // predicate refuses every log.
  lemma RefusedMatchesNothing(dt: Datatype, p: Params, log: Log)
    requires !dt.Other? && ScalarFilter(dt, p).Err? && EthersLogFilter(p).Ok?
    ensures !Matches(dt, p, log)
  {
    AddressSlotMeaning(p.fromAddress, "from_address", log, 1);
    AddressSlotMeaning(p.toAddress, "to_address", log, 2);
  }

  lemma PinnedHolds(dt: Datatype, pos: nat, p: Params, log: Log)
    requires 1 <= pos < 4 && Matches(dt, p, log) && PinnedTopic(dt, pos, p).Some?
    ensures pos < |log.topics| && log.topics[pos] == PinnedTopic(dt, pos, p).value
  {
  }

  lemma ActiveMember(active: set<Datatype>)
    ensures forall dt :: dt in ActiveMembers(active) <==> dt in active && !dt.Other?
  {
    FilterMembers(IsIn(active), MEMBERS);
  }

  lemma AgreedAdmits(dt: Datatype, pos: nat, p: Params, active: set<Datatype>, log: Log)
    requires dt in active && !dt.Other? && 1 <= pos < 4 && Matches(dt, p, log)
    ensures SlotAdmits(AgreedSlot(pos, p, active), log, pos)
  {
    ActiveMember(active);
    if AgreedSlot(pos, p, active) != {} {
      var v :| v in AgreedSlot(pos, p, active);
      assert Agreed(pos, p, active, v);
      PinnedHolds(dt, pos, p, log);
    }
  }

  // The union is a superset of every member's own filter.
  lemma UnionAdmits(dt: Datatype, p: Params, active: set<Datatype>, m: Mined)
    requires dt in active && !dt.Other? && EthersLogFilter(p).Ok?
    requires InBase(p, m) && Matches(dt, p, m.log)
    ensures NodeSelects(UnionFilter(p, active).value, m)
  {
    AgreedAdmits(dt, 1, p, active, m.log);
    AgreedAdmits(dt, 2, p, active, m.log);
    AgreedAdmits(dt, 3, p, active, m.log);
    assert SlotAdmits(UnionTopic0(p, active), m.log, 0);
  }

  // --- the response ---

  // For any parameters at all: each active member's share of the union response is the
  // row list of its own query, in order, and is empty where that query is refused.
  lemma CoalescedRows(dt: Datatype, p: Params, active: set<Datatype>, universe: seq<Mined>)
    requires dt in active && !dt.Other?
    ensures ScalarExtract(dt, p, universe).Ok? ==> UnionFilter(p, active).Ok?
    ensures UnionFilter(p, active).Ok? ==>
              Share(dt, p, GetLogs(universe, UnionFilter(p, active).value)) ==
              match ScalarExtract(dt, p, universe) { case Ok(rows) => rows case Err(_) => [] }
  {
    if UnionFilter(p, active).Ok? {
      UnionRows(dt, p, active, universe);
      if ScalarFilter(dt, p).Ok? {
        ScalarRows(dt, p, universe);
      } else {
        forall m | m in universe
          ensures !Wanted(dt, p)(m)
        {
          RefusedMatchesNothing(dt, p, m.log);
        }
        FilterNone(Wanted(dt, p), universe);
      }
    } else if ScalarFilter(dt, p).Ok? {
      ScalarMeaning(dt, p, Mined(0, Log(0, [], [], None, None, None, None, None)));
    }
  }

  lemma UnionRows(dt: Datatype, p: Params, active: set<Datatype>, universe: seq<Mined>)
    requires dt in active && !dt.Other? && UnionFilter(p, active).Ok?
    ensures Share(dt, p, GetLogs(universe, UnionFilter(p, active).value)) == LogsIn(Filter(Wanted(dt, p), universe))
  {
    var f := UnionFilter(p, active).value;
    FilterLogs(Matching(dt, p), Filter(Selector(f), universe));
    forall m | m in universe
      ensures Wanted(dt, p)(m) <==> Selector(f)(m) && OnLog(Matching(dt, p))(m)
    {
      if Wanted(dt, p)(m) {
        UnionAdmits(dt, p, active, m);
      }
    }
    FilterTwice(Selector(f), OnLog(Matching(dt, p)), Wanted(dt, p), universe);
  }

  lemma ScalarRows(dt: Datatype, p: Params, universe: seq<Mined>)
    requires !dt.Other? && ScalarFilter(dt, p).Ok?
    ensures ScalarExtract(dt, p, universe) == Ok(LogsIn(Filter(Wanted(dt, p), universe)))
  {
    var f := ScalarFilter(dt, p).value;
    FilterLogs(Shaped(dt), Filter(Selector(f), universe));
    forall m | m in universe
      ensures Wanted(dt, p)(m) <==> Selector(f)(m) && OnLog(Shaped(dt))(m)
    {
      ScalarMeaning(dt, p, m);
    }
    FilterTwice(Selector(f), OnLog(Shaped(dt)), Wanted(dt, p), universe);
  }

  // --- the columns ---

  // A member collected on its own.
  function ScalarCollect(dt: Datatype, p: Params, s: LogSchema, universe: seq<Mined>, f: Frame): Outcome<Frame>
    requires !dt.Other?
  {
    match ScalarExtract(dt, p, universe)
    case Err(e) => Outcome(f, Some(e))
    case Ok(logs) => Process(dt, s, f, logs)
  }

  function CoalescedCollect(p: Params, schemas: map<Datatype, LogSchema>, universe: seq<Mined>, acc: Accumulators)
      : Outcome<Accumulators>
    requires Complete(acc)
  {
    match UnionFilter(p, schemas.Keys)
    case Err(e) => Outcome(acc, Some(e))
    case Ok(f) => FanOutBlock(p, GetLogs(universe, f), schemas, acc)
  }

  lemma ShareProcess(dt: Datatype, p: Params, schemas: map<Datatype, LogSchema>, universe: seq<Mined>, f: Frame)
    requires !dt.Other? && dt in schemas && UnionFilter(p, schemas.Keys).Ok?
    ensures Process(dt, schemas[dt], f, Share(dt, p, GetLogs(universe, UnionFilter(p, schemas.Keys).value))) ==
            if ScalarFilter(dt, p).Ok? then ScalarCollect(dt, p, schemas[dt], universe, f) else Outcome(f, None)
  {
    CoalescedRows(dt, p, schemas.Keys, universe);
  }

  predicate Requested(dt: Datatype, schemas: map<Datatype, LogSchema>) {
    !dt.Other? && dt in schemas
  }

  // What each requested member's own collection comes to; one whose filter is refused adds
  // nothing here.
  function Alone(p: Params, schemas: map<Datatype, LogSchema>, universe: seq<Mined>, acc: Accumulators)
      : map<Datatype, Outcome<Frame>>
    requires Complete(acc)
  {
    map dt | dt in schemas && !dt.Other? ::
      if ScalarFilter(dt, p).Ok? then ScalarCollect(dt, p, schemas[dt], universe, acc[dt]) else Outcome(acc[dt], None)
  }

  // Coalescing changes no member's output. When the shared filter is refused, so is the
  // call, with the same error. Otherwise the call ends like the members' own collections
  // done one after the other: at the first of them that fails, in fan-out order, with its
  // error, with what it and the ones before it leave and the later ones untouched; or with
  // what all of them leave. A member whose own filter is refused is passed over.
  lemma CoalescedEqualsScalar(p: Params, schemas: map<Datatype, LogSchema>, universe: seq<Mined>, acc: Accumulators)
    requires Complete(acc)
    ensures EthersLogFilter(p).Err? ==>
              CoalescedCollect(p, schemas, universe, acc) == Outcome(acc, Some(EthersLogFilter(p).error))
    ensures EthersLogFilter(p).Ok? ==>
              Filled(CoalescedCollect(p, schemas, universe, acc), BLOCK_ORDER, acc, Alone(p, schemas, universe, acc))
  {
    if UnionFilter(p, schemas.Keys).Ok? {
      var response := GetLogs(universe, UnionFilter(p, schemas.Keys).value);
      forall dt: Datatype | !dt.Other? && dt in schemas
        ensures Alone(p, schemas, universe, acc)[dt] == Process(dt, schemas[dt], acc[dt], ShareOf(p, response)(dt))
      {
        ShareProcess(dt, p, schemas, universe, acc[dt]);
      }
      FanOutPerMember(p, response, schemas, acc, Alone(p, schemas, universe, acc));
    }
  }

  // The call completes if and only if the shared filter is accepted and no member whose
  // filter is accepted fails on its own; every accumulator then holds what its own
  // collection leaves.
  lemma CoalescedCompletesIff(p: Params, schemas: map<Datatype, LogSchema>, universe: seq<Mined>, acc: Accumulators)
    requires Complete(acc)
    ensures CoalescedCollect(p, schemas, universe, acc).error.None? <==>
            EthersLogFilter(p).Ok? &&
            forall dt | Requested(dt, schemas) && ScalarFilter(dt, p).Ok? ::
              ScalarCollect(dt, p, schemas[dt], universe, acc[dt]).error.None?
    ensures CoalescedCollect(p, schemas, universe, acc).error.None? ==>
            forall dt: Datatype | !dt.Other? ::
              var state := CoalescedCollect(p, schemas, universe, acc).state;
              dt in state &&
              state[dt] == if dt in schemas && ScalarFilter(dt, p).Ok?
                           then ScalarCollect(dt, p, schemas[dt], universe, acc[dt]).state
                           else acc[dt]
  {
    CoalescedEqualsScalar(p, schemas, universe, acc);
    if EthersLogFilter(p).Ok? {
      CompletedMembers(CoalescedCollect(p, schemas, universe, acc), BLOCK_ORDER, acc, Alone(p, schemas, universe, acc));
      EveryMember(BLOCK_ORDER);
    }
  }

  // Every requested member succeeds when collected on its own.
  ghost predicate EachSucceeds(p: Params, schemas: map<Datatype, LogSchema>, universe: seq<Mined>, acc: Accumulators)
    requires Complete(acc)
  {
    forall dt | Requested(dt, schemas) :: ScalarCollect(dt, p, schemas[dt], universe, acc[dt]).error.None?
  }

  ghost predicate EachAccepted(p: Params, schemas: map<Datatype, LogSchema>) {
    forall dt | Requested(dt, schemas) :: ScalarFilter(dt, p).Ok?
  }

  lemma BaseRefused(dt: Datatype, p: Params)
    requires !dt.Other? && EthersLogFilter(p).Err?
    ensures ScalarFilter(dt, p).Err?
  {
  }

  // Where the shared filter is accepted and one member's own is refused, a node without logs
  // makes the difference.
  lemma RefusalSetsApart(p: Params, schemas: map<Datatype, LogSchema>, acc: Accumulators)
    requires Complete(acc) && EthersLogFilter(p).Ok? && !EachAccepted(p, schemas)
    ensures CoalescedCollect(p, schemas, [], acc).error.None? && !EachSucceeds(p, schemas, [], acc)
  {
    CoalescedCompletesIff(p, schemas, [], acc);
    var dt :| Requested(dt, schemas) && ScalarFilter(dt, p).Err?;
    assert ScalarCollect(dt, p, schemas[dt], [], acc[dt]).error.Some?;
  }

  lemma SucceedTogether(p: Params, schemas: map<Datatype, LogSchema>, universe: seq<Mined>, acc: Accumulators)
    requires Complete(acc) && (exists dt :: Requested(dt, schemas))
    requires EthersLogFilter(p).Ok? ==> EachAccepted(p, schemas)
    ensures CoalescedCollect(p, schemas, universe, acc).error.None? <==> EachSucceeds(p, schemas, universe, acc)
  {
    CoalescedCompletesIff(p, schemas, universe, acc);
    if EthersLogFilter(p).Err? {
      var dt :| Requested(dt, schemas);
      BaseRefused(dt, p);
      assert ScalarCollect(dt, p, schemas[dt], universe, acc[dt]).error.Some?;
    }
  }

  // The coalesced call succeeds exactly when all the members succeed on their own, whatever
  // the node holds, if and only if no requested member's own filter is refused where the
  // shared one is accepted.
  lemma SucceedTogetherIff(p: Params, schemas: map<Datatype, LogSchema>)
    requires exists dt :: Requested(dt, schemas)
    ensures (forall universe: seq<Mined>, acc: Accumulators | Complete(acc) ::
               CoalescedCollect(p, schemas, universe, acc).error.None? <==> EachSucceeds(p, schemas, universe, acc))
            <==>
            (EthersLogFilter(p).Ok? ==> EachAccepted(p, schemas))
  {
    if EthersLogFilter(p).Ok? && !EachAccepted(p, schemas) {
      var acc: Accumulators := map[Logs := EMPTY, Erc20Transfers := EMPTY, Erc20Approvals := EMPTY,
                                   Erc721Transfers := EMPTY, Erc20WrapperEvents := EMPTY];
      RefusalSetsApart(p, schemas, acc);
    } else {
      forall universe: seq<Mined>, acc: Accumulators | Complete(acc)
        ensures CoalescedCollect(p, schemas, universe, acc).error.None? <==> EachSucceeds(p, schemas, universe, acc)
      {
        SucceedTogether(p, schemas, universe, acc);
      }
    }
  }

  lemma WideSenderRefused(dt: Datatype, p: Params)
    requires dt == Erc20Transfers || dt == Erc20Approvals
    requires p.fromAddress.Some? && |p.fromAddress.value| == 33
    ensures ScalarFilter(dt, p) == Err(TooWide("from_address"))
  {
  }

  // A sender wider than 32 bytes: transfers and approvals each refuse it on their own, while
  // the two together complete and add no row.
  lemma WideSenderIsSilent(p: Params, schemas: map<Datatype, LogSchema>, universe: seq<Mined>, acc: Accumulators)
    requires EthersLogFilter(p).Ok? && p.fromAddress.Some? && |p.fromAddress.value| == 33
    requires schemas.Keys == {Erc20Transfers, Erc20Approvals} && Complete(acc)
    ensures forall dt: Datatype | !dt.Other? && dt in schemas ::
              ScalarCollect(dt, p, schemas[dt], universe, acc[dt]) == Outcome(acc[dt], Some(TooWide("from_address")))
    ensures CoalescedCollect(p, schemas, universe, acc).error.None?
    ensures forall dt: Datatype | !dt.Other? ::
              dt in CoalescedCollect(p, schemas, universe, acc).state &&
              CoalescedCollect(p, schemas, universe, acc).state[dt] == acc[dt]
  {
    assert forall dt | dt in schemas :: dt in schemas.Keys;
    WideSenderRefused(Erc20Transfers, p);
    WideSenderRefused(Erc20Approvals, p);
    CoalescedCompletesIff(p, schemas, universe, acc);
  }

  // --- one transaction's logs ---

  // No narrowing dimension of this dataset is given.
  predicate NoTxDims(dt: Datatype, p: Params) {
    p.address.None? &&
    match dt
    case Logs => p.topic0.None? && p.topic1.None? && p.topic2.None? && p.topic3.None?
    case Erc20WrapperEvents => p.topic1.None?
    case _ => p.fromAddress.None? && p.toAddress.None?
  }

  // A number other than the one given.
  function Another(v: nat): nat {
    if v == 0 then 1 else 0
  }

  function Off(dim: Option<Bytes>): nat {
    match dim
    case None => 0
    case Some(b) => Another(FromBytes(b))
  }

  // A log of the dataset's shape that differs from every given dimension.
  function OffLog(dt: Datatype, p: Params): (log: Log)
    requires !dt.Other?
    ensures WellSized(log)
  {
    var x, y := Off(p.fromAddress), Off(p.toAddress);
    var zeros: Bytes := seq(32, _ => 0);
    var topics: seq<B256> := match dt
      case Erc20Transfers => [TRANSFER, x, y]
      case Erc20Approvals => [APPROVAL, x, y]
      case Erc721Transfers => [TRANSFER, x, y, 0]
      case Erc20WrapperEvents => [DEPOSIT, Off(p.topic1)]
      case _ => [];
    Log(Off(p.address), topics, if dt == Erc721Transfers then [] else zeros, None, None, None, None, None)
  }

  predicate AllWellSized(logs: seq<Log>) {
    forall log | log in logs :: WellSized(log)
  }

  lemma SharesAgree(dt: Datatype, p: Params, receipt: seq<Log>)
    requires !dt.Other? && NoTxDims(dt, p)
    ensures TxShare(dt, receipt) == ScalarTxExtract(dt, p, receipt)
  {
    FilterCongruent(TxKept(dt), ScalarTxKept(dt, p), receipt);
  }

  // By transaction, the fan-out applies no narrowing dimension while a dataset on its own
  // does. The two agree on every transaction exactly when no such dimension is given.
  lemma TransactionFanOutAgreesIff(dt: Datatype, p: Params)
    requires !dt.Other?
    ensures (forall receipt | AllWellSized(receipt) :: TxShare(dt, receipt) == ScalarTxExtract(dt, p, receipt)) <==>
            NoTxDims(dt, p)
  {
    if NoTxDims(dt, p) {
      forall receipt | AllWellSized(receipt)
        ensures TxShare(dt, receipt) == ScalarTxExtract(dt, p, receipt)
      {
        SharesAgree(dt, p, receipt);
      }
    } else {
      var log := OffLog(dt, p);
      assert TxKeeps(dt, log) && !ScalarTxKeeps(dt, p, log);
      FilterMembers(TxKept(dt), [log]);
      FilterMembers(ScalarTxKept(dt, p), [log]);
      assert AllWellSized([log]);
      assert log in TxShare(dt, [log]) && log !in ScalarTxExtract(dt, p, [log]);
    }
  }

  // What each requested member leaves of one transaction's logs on its own.
  function TxAlone(p: Params, schemas: map<Datatype, LogSchema>, receipt: seq<Log>, acc: Accumulators)
      : map<Datatype, Outcome<Frame>>
    requires Complete(acc)
  {
    map dt | dt in schemas && !dt.Other? :: Process(dt, schemas[dt], acc[dt], ScalarTxExtract(dt, p, receipt))
  }

  // Where no requested member has a narrowing dimension, one fan-out of a transaction's logs
  // ends like the members' own transforms done one after the other, raw logs first: with
  // what all of them leave, or at the first one that fails, with its error.
  lemma TransactionEqualsScalar(p: Params, schemas: map<Datatype, LogSchema>, receipt: seq<Log>, acc: Accumulators)
    requires Complete(acc) && forall dt | Requested(dt, schemas) :: NoTxDims(dt, p)
    ensures Filled(FanOutTransaction(receipt, schemas, acc), TX_ORDER, acc, TxAlone(p, schemas, receipt, acc))
  {
    forall dt: Datatype | !dt.Other? && dt in schemas
      ensures TxAlone(p, schemas, receipt, acc)[dt] == Process(dt, schemas[dt], acc[dt], TxShareOf(receipt)(dt))
    {
      assert Requested(dt, schemas);
      SharesAgree(dt, p, receipt);
    }
    TransactionPerMember(receipt, schemas, acc, TxAlone(p, schemas, receipt, acc));
  }
}
