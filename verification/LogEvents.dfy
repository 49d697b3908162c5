// The coalesced log query: one union filter for several log datasets, and the fan-out
// of its one response to each of them.
module LogEvents {
  import opened Prelude
  import opened RpcParams
  import opened Columns
  import opened LogDatasets

  // The members that the planner may coalesce, in its order.
  const MEMBERS: seq<Datatype> := [Logs, Erc20Transfers, Erc20Approvals, Erc721Transfers, Erc20WrapperEvents]

  function IsIn(active: set<Datatype>): Datatype -> bool {
    dt => dt in active
  }

  function ActiveMembers(active: set<Datatype>): seq<Datatype> {
    Filter(IsIn(active), MEMBERS)
  }

  // The dimension that a member pins at a topic position on its own.
  function PinnedDim(dt: Datatype, pos: nat, p: Params): Option<Bytes> {
    match (dt, pos)
    case (Logs, 1) => p.topic1
    case (Logs, 2) => p.topic2
    case (Logs, 3) => p.topic3
    case (Erc20Transfers, 1) => p.fromAddress
    case (Erc20Approvals, 1) => p.fromAddress
    case (Erc721Transfers, 1) => p.fromAddress
    case (Erc20Transfers, 2) => p.toAddress
    case (Erc20Approvals, 2) => p.toAddress
    case (Erc721Transfers, 2) => p.toAddress
    case (Erc20WrapperEvents, 1) => p.topic1
    case _ => None
  }

  function PinnedTopic(dt: Datatype, pos: nat, p: Params): Option<B256> {
    match PinnedDim(dt, pos, p)
    case None => None
    case Some(b) => AddressDimAsTopic(b)
  }

  // Every active member pins `v` at `pos`, and there is one.
  predicate Agreed(pos: nat, p: Params, active: set<Datatype>, v: B256) {
    (exists dt :: dt in ActiveMembers(active)) && forall dt | dt in ActiveMembers(active) ::
      PinnedTopic(dt, pos, p) == Some(v)
  }

  function AgreedSlot(pos: nat, p: Params, active: set<Datatype>): (slot: set<B256>)
    ensures forall v :: v in slot <==> Agreed(pos, p, active, v)
  {
    var members := ActiveMembers(active);
    if members == [] then {}
    else
      assert members[0] in members;
      match PinnedTopic(members[0], pos, p)
      case None => {}
      case Some(v) => if forall dt | dt in members :: PinnedTopic(dt, pos, p) == Some(v) then {v} else {}
  }

  function UserTopic0(p: Params): set<B256> {
    match p.topic0
    case None => {}
    case Some(b) => {FromBytes(b)}
  }

  // Topic position 0 of the union; the empty set is "any".
  function UnionTopic0(p: Params, active: set<Datatype>): set<B256> {
    if Logs in active && p.topic0.None? then {}
    else
      UserTopic0(p) +
      (if Erc20Transfers in active || Erc721Transfers in active then {TRANSFER} else {}) +
      (if Erc20Approvals in active then {APPROVAL} else {}) +
      (if Erc20WrapperEvents in active then {DEPOSIT, WITHDRAWAL} else {})
  }

  function UnionFilter(p: Params, active: set<Datatype>): Result<LogFilter> {
    var base :- EthersLogFilter(p);
    Ok(base.(topics :=
      [UnionTopic0(p, active), AgreedSlot(1, p, active), AgreedSlot(2, p, active), AgreedSlot(3, p, active)]))
  }

  // One position: the topic that all members pin, if there is one.
  method AgreedTopic(pos: nat, p: Params, active: set<Datatype>) returns (topic: Option<B256>)
    requires ActiveMembers(active) != []
    ensures AgreedSlot(pos, p, active) == if topic.Some? then {topic.value} else {}
  {
    var members := ActiveMembers(active);
    topic := PinnedTopic(members[0], pos, p);
    if topic.None? {
      return;
    }
    for i := 1 to |members|
      invariant forall j | 0 <= j < i :: PinnedTopic(members[j], pos, p) == topic
    {
      if PinnedTopic(members[i], pos, p) != topic {
        assert members[i] in members;
        return None;
      }
    }
  }

  // Overwrite topic slots 1 to 3 where all active members pin the same padded value.
  method NarrowAgreedTopics(topics: array<set<B256>>, p: Params, active: set<Datatype>)
    requires topics.Length == 4
    modifies topics
    ensures topics[0] == old(topics[0])
    ensures forall pos | 1 <= pos < 4 ::
              topics[pos] == if AgreedSlot(pos, p, active) == {} then old(topics[pos]) else AgreedSlot(pos, p, active)
  {
    if ActiveMembers(active) == [] {
      return;
    }
    for pos := 1 to 4
      invariant topics[0] == old(topics[0])
      invariant forall i | pos <= i < 4 :: topics[i] == old(topics[i])
      invariant forall i | 1 <= i < pos ::
                  topics[i] == if AgreedSlot(i, p, active) == {} then old(topics[i]) else AgreedSlot(i, p, active)
    {
      var topic := AgreedTopic(pos, p, active);
      if topic.Some? {
        topics[pos] := {topic.value};
      }
    }
  }

  function Elements(s: seq<B256>): set<B256> {
    set x | x in s
  }

  method PushUnique(topics: seq<B256>, h: B256) returns (r: seq<B256>)
    ensures Elements(r) == Elements(topics) + {h}
  {
    r := if h in topics then topics else topics + [h];
  }

  method UnionTopic0s(p: Params, active: set<Datatype>) returns (topic0s: seq<B256>)
    requires !(Logs in active && p.topic0.None?)
    ensures Elements(topic0s) == UnionTopic0(p, active)
  {
    topic0s := if p.topic0.Some? then [FromBytes(p.topic0.value)] else [];
    ghost var want := UserTopic0(p);
    assert Elements(topic0s) == want;
    if Erc20Transfers in active || Erc721Transfers in active {
      topic0s := PushUnique(topic0s, TRANSFER);
      want := want + {TRANSFER};
    }
    if Erc20Approvals in active {
      topic0s := PushUnique(topic0s, APPROVAL);
      want := want + {APPROVAL};
    }
    if Erc20WrapperEvents in active {
      topic0s := PushUnique(topic0s, DEPOSIT);
      want := want + {DEPOSIT};
      topic0s := PushUnique(topic0s, WITHDRAWAL);
      want := want + {WITHDRAWAL};
    }
    assert Elements(topic0s) == want;
    assert want == UnionTopic0(p, active);
  }

  method NarrowedTopics(topic0: set<B256>, p: Params, active: set<Datatype>) returns (r: Topics)
    ensures r == [topic0, AgreedSlot(1, p, active), AgreedSlot(2, p, active), AgreedSlot(3, p, active)]
  {
    var topics := new set<B256>[4](_ => {});
    topics[0] := topic0;
    NarrowAgreedTopics(topics, p, active);
    r := topics[..];
  }

  method BuildUnionFilter(p: Params, active: set<Datatype>) returns (r: Result<LogFilter>)
    ensures r == UnionFilter(p, active)
  {
    var base :- EthersLogFilter(p);
    var topic0 := {};
    if !(Logs in active && p.topic0.None?) {
      var topic0s := UnionTopic0s(p, active);
      topic0 := Elements(topic0s);
    }
    var topics := NarrowedTopics(topic0, p, active);
    r := Ok(base.(topics := topics));
  }

  // --- the fan-out ---

  // Each member's full by-block predicate on one log.
  predicate Matches(dt: Datatype, p: Params, log: Log) {
    match dt
    case Logs =>
      TopicMatches(log, 0, p.topic0) && TopicMatches(log, 1, p.topic1) &&
      TopicMatches(log, 2, p.topic2) && TopicMatches(log, 3, p.topic3)
    case Erc20Transfers =>
      IsErc20Transfer(log) && AddressTopicMatches(log, 1, p.fromAddress) && AddressTopicMatches(log, 2, p.toAddress)
    case Erc20Approvals =>
      IsErc20Approval(log) && AddressTopicMatches(log, 1, p.fromAddress) && AddressTopicMatches(log, 2, p.toAddress)
    case Erc721Transfers =>
      IsErc721Transfer(log) && AddressTopicMatches(log, 1, p.fromAddress) && AddressTopicMatches(log, 2, p.toAddress)
    case Erc20WrapperEvents => IsWrapperEvent(log) && TopicMatches(log, 1, p.topic1)
    case Other(_) => false
  }

  function Matching(dt: Datatype, p: Params): Log -> bool {
    log => Matches(dt, p, log)
  }

  // The rows of the shared response that go to one member.
  function Share(dt: Datatype, p: Params, response: seq<Log>): seq<Log> {
    Filter(Matching(dt, p), response)
  }

  // The accumulators, by member.
  type Accumulators = map<Datatype, Frame>

  ghost predicate Complete(acc: Accumulators) {
    forall dt: Datatype | !dt.Other? :: dt in acc
  }

  // Fill one member's accumulator, if that member is requested.
  function FillOne(dt: Datatype, logs: seq<Log>, schemas: map<Datatype, LogSchema>, acc: Accumulators)
      : (r: Outcome<Accumulators>)
    requires dt in acc
    ensures r.state.Keys == acc.Keys
  {
    if dt !in schemas then Outcome(acc, None)
    else
      var r := Process(dt, schemas[dt], acc[dt], logs);
      Outcome(acc[dt := r.state], r.error)
  }

  function ThenFill(before: Outcome<Accumulators>, dt: Datatype, logs: seq<Log>, schemas: map<Datatype, LogSchema>)
      : (r: Outcome<Accumulators>)
    requires dt in before.state
    ensures r.state.Keys == before.state.Keys
  {
    if before.error.Some? then before else FillOne(dt, logs, schemas, before.state)
  }

  // Members are filled in a fixed order, raw logs last; the first failure ends the call.
  function FanOutBlock(p: Params, response: seq<Log>, schemas: map<Datatype, LogSchema>, acc: Accumulators)
      : Outcome<Accumulators>
    requires Complete(acc)
  {
    var r := FillOne(Erc20Transfers, Share(Erc20Transfers, p, response), schemas, acc);
    var r := ThenFill(r, Erc20Approvals, Share(Erc20Approvals, p, response), schemas);
    var r := ThenFill(r, Erc721Transfers, Share(Erc721Transfers, p, response), schemas);
    var r := ThenFill(r, Erc20WrapperEvents, Share(Erc20WrapperEvents, p, response), schemas);
    ThenFill(r, Logs, Share(Logs, p, response), schemas)
  }

  // What a member keeps of one transaction's logs: its shape and signature only.
  predicate TxKeeps(dt: Datatype, log: Log) {
    match dt
    case Logs => true
    case Erc20Transfers => IsErc20Transfer(log)
    case Erc20Approvals => IsErc20Approval(log)
    case Erc721Transfers => IsErc721Transfer(log)
    case Erc20WrapperEvents => IsWrapperEvent(log)
    case Other(_) => false
  }

  function TxShare(dt: Datatype, response: seq<Log>): seq<Log> {
    Filter(TxKept(dt), response)
  }

  function TxKept(dt: Datatype): Log -> bool {
    log => TxKeeps(dt, log)
  }

  function FanOutTransaction(response: seq<Log>, schemas: map<Datatype, LogSchema>,
                             acc: Accumulators): Outcome<Accumulators>
    requires Complete(acc)
  {
    var r := FillOne(Logs, response, schemas, acc);
    var r := ThenFill(r, Erc20Transfers, TxShare(Erc20Transfers, response), schemas);
    var r := ThenFill(r, Erc20Approvals, TxShare(Erc20Approvals, response), schemas);
    var r := ThenFill(r, Erc721Transfers, TxShare(Erc721Transfers, response), schemas);
    ThenFill(r, Erc20WrapperEvents, TxShare(Erc20WrapperEvents, response), schemas)
  }

  lemma OneTableChanged(before: Accumulators, after: Accumulators, dt: Datatype, f: Frame)
    requires before.Keys == after.Keys && dt in after && after[dt] == f
    requires forall d | d in after && d != dt :: after[d] == before[d]
    ensures after == before[dt := f]
  {
  }

  class LogEventColumns {
    const logs: Table
    const erc20Transfers: Table
    const erc20Approvals: Table
    const erc721Transfers: Table
    const erc20WrapperEvents: Table

    constructor ()
      ensures Valid() && forall t | t in Tables() :: fresh(t)
      ensures forall dt: Datatype | !dt.Other? :: View()[dt] == EMPTY
    {
      logs := new Table();
      erc20Transfers := new Table();
      erc20Approvals := new Table();
      erc721Transfers := new Table();
      erc20WrapperEvents := new Table();
    }

    function Tables(): set<Table> {
      {logs, erc20Transfers, erc20Approvals, erc721Transfers, erc20WrapperEvents}
    }

    ghost predicate Valid() {
      && logs !in {erc20Transfers, erc20Approvals, erc721Transfers, erc20WrapperEvents}
      && erc20Transfers !in {erc20Approvals, erc721Transfers, erc20WrapperEvents}
      && erc20Approvals !in {erc721Transfers, erc20WrapperEvents}
      && erc721Transfers != erc20WrapperEvents
    }

    function View(): (acc: Accumulators)
      reads Tables()
      ensures forall d: Datatype :: d in acc <==> !d.Other?
      ensures forall d: Datatype | !d.Other? :: acc[d] == TableOf(d).View()
    {
      map[Logs := logs.View(), Erc20Transfers := erc20Transfers.View(), Erc20Approvals := erc20Approvals.View(),
          Erc721Transfers := erc721Transfers.View(), Erc20WrapperEvents := erc20WrapperEvents.View()]
    }

    function TableOf(dt: Datatype): Table
      requires !dt.Other?
    {
      match dt
      case Logs => logs
      case Erc20Transfers => erc20Transfers
      case Erc20Approvals => erc20Approvals
      case Erc721Transfers => erc721Transfers
      case _ => erc20WrapperEvents
    }

    // Filter the response for one member and hand it to that member's accumulator.
    method FillMember(dt: Datatype, logs: seq<Log>, schemas: map<Datatype, LogSchema>) returns (error: Option<Error>)
      requires Valid() && !dt.Other?
      modifies TableOf(dt)
      ensures Outcome(View(), error) == FillOne(dt, logs, schemas, old(View()))
    {
      error := None;
      if dt in schemas {
        error := ProcessLogs(dt, schemas[dt], TableOf(dt), logs);
        OneTableChanged(old(View()), View(), dt, TableOf(dt).View());
      }
    }

    method FanOut(p: Params, response: seq<Log>, schemas: map<Datatype, LogSchema>) returns (error: Option<Error>)
      requires Valid()
      modifies Tables()
      ensures Outcome(View(), error) == FanOutBlock(p, response, schemas, old(View()))
    {
      error := FillMember(Erc20Transfers, Share(Erc20Transfers, p, response), schemas);
      if error.Some? { return; }
      error := FillMember(Erc20Approvals, Share(Erc20Approvals, p, response), schemas);
      if error.Some? { return; }
      error := FillMember(Erc721Transfers, Share(Erc721Transfers, p, response), schemas);
      if error.Some? { return; }
      error := FillMember(Erc20WrapperEvents, Share(Erc20WrapperEvents, p, response), schemas);
      if error.Some? { return; }
      error := FillMember(Logs, Share(Logs, p, response), schemas);
    }

    method FanOutTx(response: seq<Log>, schemas: map<Datatype, LogSchema>) returns (error: Option<Error>)
      requires Valid()
      modifies Tables()
      ensures Outcome(View(), error) == FanOutTransaction(response, schemas, old(View()))
    {
      error := FillMember(Logs, response, schemas);
      if error.Some? { return; }
      error := FillMember(Erc20Transfers, TxShare(Erc20Transfers, response), schemas);
      if error.Some? { return; }
      error := FillMember(Erc20Approvals, TxShare(Erc20Approvals, response), schemas);
      if error.Some? { return; }
      error := FillMember(Erc721Transfers, TxShare(Erc721Transfers, response), schemas);
      if error.Some? { return; }
      error := FillMember(Erc20WrapperEvents, TxShare(Erc20WrapperEvents, response), schemas);
    }
  }
}
