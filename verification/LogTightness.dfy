// The union filter is as tight as it can be: no topic is left open, or listed, without a
// member that needs it.
module LogTightness {
  import opened Prelude
  import opened RpcParams
  import opened LogDatasets
  import opened LogEvents
  import opened LogEquivalence

  predicate WellFormed(p: Params) {
    EthersLogFilter(p).Ok? && (p.fromAddress.Some? ==> |p.fromAddress.value| <= 32) &&
    (p.toAddress.Some? ==> |p.toAddress.value| <= 32)
  }

  // The member's own query keeps this log, wherever in the block range it is.
  predicate Accepts(dt: Datatype, p: Params, log: Log)
    requires EthersLogFilter(p).Ok?
  {
    AddressAdmits(EthersLogFilter(p).value.address, log) && Matches(dt, p, log)
  }

  function FreeTopic(dt: Datatype, pos: nat, p: Params, other: B256): B256 {
    match PinnedTopic(dt, pos, p)
    case None => other
    case Some(v) => v
  }

  // A log that a member accepts, with `signature` first and `other` at every position
  // the member leaves open.
  function Witness(dt: Datatype, p: Params, signature: B256, other: B256): Log
    requires EthersLogFilter(p).Ok?
  {
    var t1, t2, t3 := FreeTopic(dt, 1, p, other), FreeTopic(dt, 2, p, other), FreeTopic(dt, 3, p, other);
    var address := EthersLogFilter(p).value.address;
    var zeros: Bytes := seq(32, _ => 0);
    var topics: seq<B256> := match dt
      case Erc20Transfers => [signature, t1, t2]
      case Erc20Approvals => [signature, t1, t2]
      case Erc20WrapperEvents => [signature, t1]
      case _ => [signature, t1, t2, t3];
    Log(if address.Some? then address.value else 0, topics, if dt == Erc721Transfers then [] else zeros,
        None, None, None, None, None)
  }

  // The signatures that a member's logs may start with.
  function Signatures(dt: Datatype, p: Params): set<B256> {
    match dt
    case Logs => UserTopic0(p)
    case Erc20Transfers => {TRANSFER}
    case Erc20Approvals => {APPROVAL}
    case Erc721Transfers => {TRANSFER}
    case Erc20WrapperEvents => {DEPOSIT, WITHDRAWAL}
    case Other(_) => {}
  }

  lemma WitnessAccepted(dt: Datatype, p: Params, signature: B256, other: B256)
    requires !dt.Other? && WellFormed(p)
    requires signature in Signatures(dt, p) || (dt == Logs && p.topic0.None?)
    ensures Accepts(dt, p, Witness(dt, p, signature, other))
  {
  }

  lemma FreeTopicSized(dt: Datatype, pos: nat, p: Params, other: B256)
    requires other < WORD_LIMIT
    ensures FreeTopic(dt, pos, p, other) < WORD_LIMIT
  {
    var dim := PinnedDim(dt, pos, p);
    if dim.Some? {
      BytesFit(dim.value);
    }
  }

  lemma WitnessSized(dt: Datatype, p: Params, signature: B256, other: B256)
    requires EthersLogFilter(p).Ok? && signature < WORD_LIMIT && other < WORD_LIMIT
    ensures WellSized(Witness(dt, p, signature, other))
  {
    FreeTopicSized(dt, 1, p, other);
    FreeTopicSized(dt, 2, p, other);
    FreeTopicSized(dt, 3, p, other);
    if p.address.Some? {
      BytesFit(p.address.value);
    }
  }

  lemma SignaturesSized(dt: Datatype, p: Params, signature: B256)
    requires EthersLogFilter(p).Ok? && signature in Signatures(dt, p)
    ensures signature < WORD_LIMIT
  {
    if p.topic0.Some? {
      BytesFit(p.topic0.value);
    }
  }

  lemma AcceptedSignature(dt: Datatype, p: Params, log: Log)
    requires !dt.Other? && WellFormed(p) && Accepts(dt, p, log)
    requires !(dt == Logs && p.topic0.None?)
    ensures |log.topics| > 0 && log.topics[0] in Signatures(dt, p)
  {
  }

  lemma SlotIsTight(p: Params, active: set<Datatype>, pos: nat, v: B256)
    requires WellFormed(p) && 1 <= pos < 4 && ActiveMembers(active) != []
    ensures AgreedSlot(pos, p, active) == {v} <==>
            forall dt, log | dt in ActiveMembers(active) && WellSized(log) && Accepts(dt, p, log) ::
              pos < |log.topics| && log.topics[pos] == v
    ensures AgreedSlot(pos, p, active) == {} || exists w :: AgreedSlot(pos, p, active) == {w}
  {
    OneAgreedTopic(p, active, pos);
    if v in AgreedSlot(pos, p, active) {
      forall dt, log | dt in ActiveMembers(active) && Accepts(dt, p, log)
        ensures pos < |log.topics| && log.topics[pos] == v
      {
        PinnedHolds(dt, pos, p, log);
      }
    } else {
      NotPinnedByAll(p, active, pos, v);
    }
  }

  lemma OneAgreedTopic(p: Params, active: set<Datatype>, pos: nat)
    requires 1 <= pos < 4 && ActiveMembers(active) != []
    ensures AgreedSlot(pos, p, active) == {} || exists w :: AgreedSlot(pos, p, active) == {w}
    ensures forall v :: v in AgreedSlot(pos, p, active) <==> AgreedSlot(pos, p, active) == {v}
  {
    var slot, first := AgreedSlot(pos, p, active), ActiveMembers(active)[0];
    assert first in ActiveMembers(active);
    if slot != {} {
      var w :| w in slot;
      assert forall x | x in slot :: PinnedTopic(first, pos, p) == Some(x);
      assert slot == {w};
    }
  }

  // A topic that is not agreed on leaves some active member accepting a log without it.
  lemma NotPinnedByAll(p: Params, active: set<Datatype>, pos: nat, v: B256)
    requires WellFormed(p) && 1 <= pos < 4 && ActiveMembers(active) != [] && v !in AgreedSlot(pos, p, active)
    ensures exists dt, log :: dt in ActiveMembers(active) && WellSized(log) && Accepts(dt, p, log) &&
                              !(pos < |log.topics| && log.topics[pos] == v)
  {
    assert ActiveMembers(active)[0] in ActiveMembers(active);
    assert !Agreed(pos, p, active, v);
    var dt :| dt in ActiveMembers(active) && PinnedTopic(dt, pos, p) != Some(v);
    ActiveMember(active);
    OffTopicLog(dt, p, pos, v);
  }

  lemma OffTopicLog(dt: Datatype, p: Params, pos: nat, v: B256)
    requires WellFormed(p) && !dt.Other? && 1 <= pos < 4 && PinnedTopic(dt, pos, p) != Some(v)
    ensures exists log :: WellSized(log) && Accepts(dt, p, log) && !(pos < |log.topics| && log.topics[pos] == v)
  {
    var log := Witness(dt, p, SomeSignature(dt, p), Another(v));
    WitnessAccepted(dt, p, SomeSignature(dt, p), Another(v));
    SomeSignatureSized(dt, p);
    WitnessSized(dt, p, SomeSignature(dt, p), Another(v));
    assert !(pos < |log.topics| && log.topics[pos] == v);
  }

  function SomeSignature(dt: Datatype, p: Params): (s: B256)
    requires !dt.Other?
    ensures s in Signatures(dt, p) || (dt == Logs && p.topic0.None?)
  {
    match dt
    case Logs => if p.topic0.Some? then FromBytes(p.topic0.value) else 0
    case Erc20Approvals => APPROVAL
    case Erc20WrapperEvents => DEPOSIT
    case _ => TRANSFER
  }

  lemma SomeSignatureSized(dt: Datatype, p: Params)
    requires !dt.Other? && EthersLogFilter(p).Ok?
    ensures SomeSignature(dt, p) < WORD_LIMIT
  {
    if SomeSignature(dt, p) in Signatures(dt, p) {
      SignaturesSized(dt, p, SomeSignature(dt, p));
    }
  }

  lemma SignatureWitnessed(dt: Datatype, p: Params, h: B256)
    requires !dt.Other? && WellFormed(p) && h in Signatures(dt, p)
    ensures exists log :: WellSized(log) && Accepts(dt, p, log) && |log.topics| > 0 && log.topics[0] == h
  {
    WitnessAccepted(dt, p, h, 0);
    SignaturesSized(dt, p, h);
    WitnessSized(dt, p, h, 0);
    assert Witness(dt, p, h, 0).topics[0] == h;
  }

  lemma SignaturesTight(p: Params, active: set<Datatype>, h: B256)
    requires WellFormed(p) && ActiveMembers(active) != []
    ensures UnionTopic0(p, active) == {} <==> Logs in active && p.topic0.None?
    ensures UnionTopic0(p, active) != {} ==>
              (h in UnionTopic0(p, active) <==>
               h in UserTopic0(p) ||
               exists dt, log :: dt in ActiveMembers(active) && WellSized(log) && Accepts(dt, p, log) &&
                                 |log.topics| > 0 && log.topics[0] == h)
  {
    ActiveMember(active);
    assert ActiveMembers(active)[0] in ActiveMembers(active);
    if !(Logs in active && p.topic0.None?) {
      UnionOfSignatures(p, active, h);
      if h in UnionTopic0(p, active) && h !in UserTopic0(p) {
        var dt :| dt in ActiveMembers(active) && h in Signatures(dt, p);
        SignatureWitnessed(dt, p, h);
      }
      forall dt, log | dt in ActiveMembers(active) && Accepts(dt, p, log) && |log.topics| > 0 && log.topics[0] == h
        ensures h in UnionTopic0(p, active)
      {
        AcceptedSignature(dt, p, log);
      }
      var first := ActiveMembers(active)[0];
      UnionOfSignatures(p, active, SomeSignature(first, p));
    }
  }

  lemma UnionOfSignatures(p: Params, active: set<Datatype>, h: B256)
    requires !(Logs in active && p.topic0.None?)
    ensures h in UnionTopic0(p, active) <==>
            h in UserTopic0(p) || exists dt :: dt in ActiveMembers(active) && h in Signatures(dt, p)
  {
    ActiveMember(active);
    if h in UnionTopic0(p, active) && h !in UserTopic0(p) {
      var dt := if h == APPROVAL then Erc20Approvals
                else if h == TRANSFER then (if Erc20Transfers in active then Erc20Transfers else Erc721Transfers)
                else Erc20WrapperEvents;
      assert dt in ActiveMembers(active) && h in Signatures(dt, p);
    }
  }

  // --- the query ---

  // The topics that the one query asks for.
  function Queried(p: Params, active: set<Datatype>): Topics
    requires EthersLogFilter(p).Ok?
  {
    UnionFilter(p, active).value.topics
  }

  // Positions 1 to 3 of the query are as tight as they can be: a position is narrowed to
  // `v` exactly when every log that some active member accepts carries `v` there.
  lemma NarrowingIsTight(p: Params, active: set<Datatype>, pos: nat, v: B256)
    requires WellFormed(p) && 1 <= pos < 4 && ActiveMembers(active) != []
    ensures Queried(p, active)[pos] == {v} <==>
            forall dt, log | dt in ActiveMembers(active) && WellSized(log) && Accepts(dt, p, log) ::
              pos < |log.topics| && log.topics[pos] == v
    ensures Queried(p, active)[pos] == {} || exists w :: Queried(p, active)[pos] == {w}
  {
    SlotIsTight(p, active, pos, v);
    assert Queried(p, active)[pos] == AgreedSlot(pos, p, active);
  }

  // Position 0 of the query is open exactly when raw logs want every signature. Otherwise
  // it lists the signatures of the logs that some active member accepts, and besides
  // those only the user's own `topic0`, which stays even when raw logs are not requested.
  lemma Topic0IsTight(p: Params, active: set<Datatype>, h: B256)
    requires WellFormed(p) && ActiveMembers(active) != []
    ensures Queried(p, active)[0] == {} <==> Logs in active && p.topic0.None?
    ensures Queried(p, active)[0] != {} ==>
              (h in Queried(p, active)[0] <==>
               h in UserTopic0(p) ||
               exists dt, log :: dt in ActiveMembers(active) && WellSized(log) && Accepts(dt, p, log) &&
                                 |log.topics| > 0 && log.topics[0] == h)
  {
    SignaturesTight(p, active, h);
  }
}
