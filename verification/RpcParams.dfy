// Log parameters, the log filter they turn into, and what a node returns for it.
module RpcParams {
  import opened Prelude

  type Byte = b: int | 0 <= b < 256
  type Bytes = seq<Byte>

  // A 20-byte address and a 32-byte word, each as its big-endian number. Widths matter
  // only where user-supplied bytes are turned into one, and are checked there.
  type Address = nat
  type B256 = nat

  const ADDRESS_LIMIT: nat := 0x1_0000_0000_0000_0000_0000_0000_0000_0000_0000_0000
  const WORD_LIMIT: nat :=
    0x1_0000_0000_0000_0000_0000_0000_0000_0000_0000_0000_0000_0000_0000_0000_0000_0000

  function FromBytes(b: Bytes): nat {
    if b == [] then 0 else FromBytes(b[..|b| - 1]) * 256 + b[|b| - 1]
  }

  lemma {:induction false} FromBytesInjective(a: Bytes, b: Bytes)
    requires |a| == |b| && FromBytes(a) == FromBytes(b)
    ensures a == b
  {
    if a == [] {
    } else {
      FromBytesInjective(a[..|a| - 1], b[..|b| - 1]);
      assert a == a[..|a| - 1] + [a[|a| - 1]] && b == b[..|b| - 1] + [b[|b| - 1]];
    }
  }

  function Pow256(n: nat): (p: nat)
    ensures p >= 1
  {
    if n == 0 then 1 else Pow256(n - 1) * 256
  }

  lemma {:induction false} Pow256Join(a: nat, b: nat)
    ensures Pow256(a + b) == Pow256(a) * Pow256(b)
  {
    if b > 0 {
      Pow256Join(a, b - 1);
      assert Pow256(a) * (Pow256(b - 1) * 256) == Pow256(a) * Pow256(b - 1) * 256;
    }
  }

  lemma Pow256OfWidths()
    ensures Pow256(20) == ADDRESS_LIMIT && Pow256(32) == WORD_LIMIT
  {
    assert Pow256(1) == 256;
    Pow256Join(1, 1);
    Pow256Join(2, 2);
    Pow256Join(4, 4);
    Pow256Join(8, 8);
    Pow256Join(16, 4);
    Pow256Join(16, 16);
  }

  lemma {:induction false} FromBytesBound(b: Bytes)
    ensures FromBytes(b) < Pow256(|b|)
  {
    if b != [] {
      FromBytesBound(b[..|b| - 1]);
    }
  }

  lemma {:induction false} Pow256Monotone(a: nat, b: nat)
    requires a <= b
    ensures Pow256(a) <= Pow256(b)
  {
    if a < b {
      Pow256Monotone(a, b - 1);
    }
  }

  // Bytes that fit a topic are a 32-byte word, and 20 bytes are an address.
  lemma BytesFit(b: Bytes)
    ensures |b| <= 32 ==> FromBytes(b) < WORD_LIMIT
    ensures |b| == 20 ==> FromBytes(b) < ADDRESS_LIMIT
  {
    FromBytesBound(b);
    Pow256OfWidths();
    if |b| <= 32 {
      Pow256Monotone(|b|, 32);
    }
  }

  // The bytes of a given width whose big-endian number is `n`, if there are any.
  ghost function BytesOf(n: nat, width: nat): Bytes {
    if b: Bytes :| |b| == width && FromBytes(b) == n then b else []
  }

  lemma BytesOfRoundTrip(b: Bytes)
    ensures BytesOf(FromBytes(b), |b|) == b
  {
    FromBytesInjective(BytesOf(FromBytes(b), |b|), b);
  }

  lemma {:induction false} LeftPadKeepsNumber(n: nat, b: Bytes)
    ensures FromBytes(seq(n, _ => 0) + b) == FromBytes(b)
    decreases |b|, n
  {
    var padded: Bytes := seq(n, _ => 0) + b;
    if b != [] {
      assert padded[..|padded| - 1] == seq(n, _ => 0) + b[..|b| - 1];
      LeftPadKeepsNumber(n, b[..|b| - 1]);
    } else if n > 0 {
      assert padded[..n - 1] == seq(n - 1, _ => 0) + b;
      LeftPadKeepsNumber(n - 1, b);
    }
  }

  // An address-shaped dimension, left-padded with zeros to a topic; too wide a value is none.
  function AddressDimAsTopic(b: Bytes): Option<B256> {
    if |b| <= 32 then Some(FromBytes(b)) else None
  }

  function FixedTopic(b: Bytes, what: string): Result<B256> {
    if |b| == 32 then Ok(FromBytes(b)) else Err(WrongWidth(what, 32, |b|))
  }

  function FixedAddress(b: Bytes, what: string): Result<Address> {
    if |b| == 20 then Ok(FromBytes(b)) else Err(WrongWidth(what, 20, |b|))
  }

  datatype Log = Log(
    address: Address,
    topics: seq<B256>,
    data: Bytes,
    blockNumber: Option<nat>,
    blockHash: Option<B256>,
    transactionHash: Option<B256>,
    transactionIndex: Option<nat>,
    logIndex: Option<nat>
  )

  // A log as the protocol has it: a 20-byte address and at most four 32-byte topics.
  predicate WellSized(log: Log) {
    log.address < ADDRESS_LIMIT && |log.topics| <= 4 && forall t | t in log.topics :: t < WORD_LIMIT
  }

  datatype Params = Params(
    blockRange: Option<(nat, nat)>,
    address: Option<Bytes>,
    fromAddress: Option<Bytes>,
    toAddress: Option<Bytes>,
    topic0: Option<Bytes>,
    topic1: Option<Bytes>,
    topic2: Option<Bytes>,
    topic3: Option<Bytes>
  )

  // One set of admissible values per topic position; the empty set admits anything.
  type Topics = t: seq<set<B256>> | |t| == 4 witness [{}, {}, {}, {}]

  const ANY_TOPICS: Topics := [{}, {}, {}, {}]

  datatype LogFilter = LogFilter(fromBlock: nat, toBlock: nat, address: Option<Address>, topics: Topics)

  function OptionalTopic(dim: Option<Bytes>, what: string): Result<set<B256>> {
    match dim
    case None => Ok({})
    case Some(b) => var t :- FixedTopic(b, what); Ok({t})
  }

  function EthersLogFilter(p: Params): Result<LogFilter> {
    if p.blockRange.None? then Err(Missing("block_range"))
    else
      var (start, end) := p.blockRange.value;
      var address: Option<Address> :-
        match p.address {
          case None => Ok(None)
          case Some(b) => var a :- FixedAddress(b, "address"); Ok(Some(a))
        };
      var t0 :- OptionalTopic(p.topic0, "topic0");
      var t1 :- OptionalTopic(p.topic1, "topic1");
      var t2 :- OptionalTopic(p.topic2, "topic2");
      var t3 :- OptionalTopic(p.topic3, "topic3");
      Ok(LogFilter(start, end, address, [t0, t1, t2, t3]))
  }

  // --- the node ---

  // A log as the node holds it, with the block it was mined in.
  datatype Mined = Mined(block: nat, log: Log)

  predicate SlotAdmits(slot: set<B256>, log: Log, pos: nat) {
    slot == {} || (pos < |log.topics| && log.topics[pos] in slot)
  }

  predicate TopicsAdmit(topics: Topics, log: Log) {
    SlotAdmits(topics[0], log, 0) && SlotAdmits(topics[1], log, 1) &&
    SlotAdmits(topics[2], log, 2) && SlotAdmits(topics[3], log, 3)
  }

  predicate AddressAdmits(address: Option<Address>, log: Log) {
    address.Some? ==> log.address == address.value
  }

  predicate NodeSelects(f: LogFilter, m: Mined) {
    f.fromBlock <= m.block <= f.toBlock && AddressAdmits(f.address, m.log) && TopicsAdmit(f.topics, m.log)
  }

  function Selector(f: LogFilter): Mined -> bool {
    m => NodeSelects(f, m)
  }

  // A predicate on logs, as a predicate on mined logs.
  function OnLog(keep: Log -> bool): Mined -> bool {
    (m: Mined) => keep(m.log)
  }

  function LogsIn(mined: seq<Mined>): (logs: seq<Log>)
    ensures |logs| == |mined|
    ensures forall i | 0 <= i < |mined| :: logs[i] == mined[i].log
  {
    seq(|mined|, i requires 0 <= i < |mined| => mined[i].log)
  }

  // `eth_getLogs`
  function GetLogs(universe: seq<Mined>, f: LogFilter): seq<Log> {
    LogsIn(Filter(Selector(f), universe))
  }

  lemma {:induction false} FilterLogs(keep: Log -> bool, mined: seq<Mined>)
    ensures Filter(keep, LogsIn(mined)) == LogsIn(Filter(OnLog(keep), mined))
  {
    if mined == [] {
    } else {
      assert LogsIn(mined)[1..] == LogsIn(mined[1..]);
      FilterLogs(keep, mined[1..]);
      var rest := Filter(OnLog(keep), mined[1..]);
      assert LogsIn([mined[0]] + rest) == [mined[0].log] + LogsIn(rest);
    }
  }

  // --- client-side matching ---

  predicate LogAddressMatches(log: Log, want: Option<Bytes>) {
    match want
    case None => true
    case Some(b) => |b| == 20 && log.address == FromBytes(b)
  }

  predicate TopicMatches(log: Log, pos: nat, want: Option<Bytes>) {
    match want
    case None => true
    case Some(b) => |b| == 32 && pos < |log.topics| && log.topics[pos] == FromBytes(b)
  }

  predicate AddressTopicMatches(log: Log, pos: nat, want: Option<Bytes>) {
    match want
    case None => true
    case Some(b) => AddressDimAsTopic(b).Some? && pos < |log.topics| && log.topics[pos] == AddressDimAsTopic(b).value
  }
}
