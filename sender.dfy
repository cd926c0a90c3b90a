/** The sender/replacement sanity rule run at mempool admission.

    The one awaited effect of the rule, the `get_code` query for the sender's
    bytecode, is an input (`CodeReply`); so are the answers of the two mempool
    queries about the sender (`SenderView`) and `calculate_valid_gas` with the
    configured increase percentage folded in (`validGas`), whose definition is
    not part of this model. What is left is a pure decision. */
module SanitySender {
  import opened Primitives

  /** The two ways the rule rejects an operation. The text of the `Sender`
      message is not modelled, only which variant is raised. */
  datatype SanityError =
    | Provider(inner: string)   // the get_code query failed
    | Sender                    // a semantic rule was violated

  /** The outcome of `get_code(uo.sender)`. */
  datatype CodeReply = Code(bytes: Bytes) | ProviderFailure(reason: string)

  /** What the mempool answers about the operation's sender:
      `count` is `get_number_by_sender`, `pending` is `get_all_by_sender`
      in the order the mempool returns it. */
  datatype SenderView = SenderView(count: nat, pending: seq<UserOperation>)

  /** The sender is deployed exactly when no init code is supplied. */
  predicate DeploymentConsistent(code: Bytes, initCode: Bytes) {
    (|code| == 0) != (|initCode| == 0)
  }

  /** A replacement `uo` outbids the pending operation `prev` on both fee fields. */
  predicate Outbids(uo: UserOperation, prev: UserOperation, validGas: U256 -> U256) {
    uo.maxFeePerGas >= validGas(prev.maxFeePerGas) &&
    uo.maxPriorityFeePerGas >= validGas(prev.maxPriorityFeePerGas)
  }

  /** `pending[k]` is the first pending operation carrying `nonce`. */
  ghost predicate FirstWithNonce(pending: seq<UserOperation>, nonce: U256, k: nat) {
    k < |pending| && pending[k].nonce == nonce &&
    forall j :: 0 <= j < k ==> pending[j].nonce != nonce
  }

  /** The iterator `find` over the pending operations: the position of the first
      one with the given nonce, or `|pending|` when there is none. */
  function FindNonce(pending: seq<UserOperation>, nonce: U256): (k: nat)
    ensures k <= |pending|
    ensures forall j :: 0 <= j < k ==> pending[j].nonce != nonce
    ensures k < |pending| ==> pending[k].nonce == nonce
    decreases |pending|
  {
    if |pending| == 0 then 0
    else if pending[0].nonce == nonce then 0
    else 1 + FindNonce(pending[1..], nonce)
  }

  /** `Sender::check_user_operation`. */
  function CheckUserOperation(uo: UserOperation, code: CodeReply, view: SenderView,
                              validGas: U256 -> U256): (r: Result<(), SanityError>)
    // a failed query is reported as a provider error and nothing else runs
    ensures code.ProviderFailure? ==> r == Err(Provider(code.reason))
    ensures r.Err? && r.error.Provider? ==> code.ProviderFailure?
    // the code/initCode gate runs before any pool lookup
    ensures code.Code? && !DeploymentConsistent(code.bytes, uo.initCode) ==> r == Err(Sender)
    // first operation from this sender: accepted whatever its fees
    ensures code.Code? && DeploymentConsistent(code.bytes, uo.initCode) && view.count == 0 ==> r == Ok(())
    // no pending operation with the same nonce: accepted
    ensures (code.Code? && DeploymentConsistent(code.bytes, uo.initCode) &&
             forall p :: p in view.pending ==> p.nonce != uo.nonce) ==> r == Ok(())
  {
    match code
    case ProviderFailure(reason) => Err(Provider(reason))
    case Code(bytes) =>
      if !DeploymentConsistent(bytes, uo.initCode) then Err(Sender)
      else if view.count == 0 then Ok(())
      else
        var k := FindNonce(view.pending, uo.nonce);
        if k < |view.pending| && !Outbids(uo, view.pending[k], validGas) then Err(Sender)
        else Ok(())
  }

  /** The replacement rule: when `prev` is the first pending operation with the
      same nonce, the operation is accepted exactly when it outbids `prev` on
      both fees, and otherwise rejected with `Sender`. */
  lemma ReplacementRule(uo: UserOperation, bytes: Bytes, view: SenderView,
                        validGas: U256 -> U256, k: nat)
    requires DeploymentConsistent(bytes, uo.initCode) && view.count > 0
    requires FirstWithNonce(view.pending, uo.nonce, k)
    ensures CheckUserOperation(uo, Code(bytes), view, validGas) ==
            (if Outbids(uo, view.pending[k], validGas) then Ok(()) else Err(Sender))
  {
  }

  /** Acceptance characterised without `FindNonce`: the query succeeded, the
      deployment is consistent, and either the sender has no operation in the
      pool or the operation outbids the first same-nonce pending one. */
  lemma AcceptedIff(uo: UserOperation, code: CodeReply, view: SenderView, validGas: U256 -> U256)
    ensures CheckUserOperation(uo, code, view, validGas) == Ok(()) <==>
            code.Code? && DeploymentConsistent(code.bytes, uo.initCode) &&
            (view.count == 0 ||
             forall k: nat :: FirstWithNonce(view.pending, uo.nonce, k) ==>
                              Outbids(uo, view.pending[k], validGas))
  {
  }

  /** Every rejection other than a provider error is a `Sender` error, and it
      happens only when the gate fails or a same-nonce replacement underbids. */
  lemma SenderRejectionCauses(uo: UserOperation, code: CodeReply, view: SenderView,
                              validGas: U256 -> U256)
    requires code.Code?
    ensures CheckUserOperation(uo, code, view, validGas) == Err(Sender) <==>
            !DeploymentConsistent(code.bytes, uo.initCode) ||
            (view.count != 0 &&
             exists k: nat :: FirstWithNonce(view.pending, uo.nonce, k) &&
                              !Outbids(uo, view.pending[k], validGas))
  {
  }

  /** Only the first same-nonce pending operation is compared: a later one with
      higher fees does not change the decision. */
  lemma OnlyFirstSameNonceCounts(uo: UserOperation, bytes: Bytes, before: seq<UserOperation>,
                                 prev: UserOperation, after: seq<UserOperation>, after': seq<UserOperation>,
                                 count: nat, validGas: U256 -> U256)
    requires forall p :: p in before ==> p.nonce != uo.nonce
    requires prev.nonce == uo.nonce
    ensures CheckUserOperation(uo, Code(bytes), SenderView(count, before + [prev] + after), validGas) ==
            CheckUserOperation(uo, Code(bytes), SenderView(count, before + [prev] + after'), validGas)
  {
    var s, s' := before + [prev] + after, before + [prev] + after';
    assert FirstWithNonce(s, uo.nonce, |before|) by {
      forall j | 0 <= j < |before| ensures s[j].nonce != uo.nonce {
        assert s[j] == before[j];
      }
    }
    assert FirstWithNonce(s', uo.nonce, |before|) by {
      forall j | 0 <= j < |before| ensures s'[j].nonce != uo.nonce {
        assert s'[j] == before[j];
      }
    }
    if DeploymentConsistent(bytes, uo.initCode) && count > 0 {
      ReplacementRule(uo, bytes, SenderView(count, s), validGas, |before|);
      ReplacementRule(uo, bytes, SenderView(count, s'), validGas, |before|);
    }
  }

  /** A ten-percent increase function, used only to replay the worked examples. */
  function TenPercentMore(x: U256): U256 {
    var y := x + x / 10;
    if y < TWO_256 then y else TWO_256 - 1
  }

  /** With a 10% minimum increase, raising the fee from 100 to 105 is rejected. */
  lemma UnderbidExample(uo: UserOperation, prev: UserOperation)
    requires uo.initCode == [] && uo.nonce == prev.nonce
    requires prev.maxFeePerGas == 100 && uo.maxFeePerGas == 105
    ensures CheckUserOperation(uo, Code([0x60]), SenderView(1, [prev]), TenPercentMore) == Err(Sender)
  {
  }

  /** With a 10% minimum increase, raising both fees from 100 to 115 is accepted. */
  lemma OutbidExample(uo: UserOperation, prev: UserOperation)
    requires uo.initCode == [] && uo.nonce == prev.nonce
    requires prev.maxFeePerGas == 100 && uo.maxFeePerGas == 115
    requires prev.maxPriorityFeePerGas == 100 && uo.maxPriorityFeePerGas == 115
    ensures CheckUserOperation(uo, Code([0x60]), SenderView(1, [prev]), TenPercentMore) == Ok(())
  {
  }
}
