/** The bundler service: the shared `running` flag and its lifecycle, the
    ordered `send_bundles` pass over all bundlers, one tick of an auto-bundling
    loop, and the blocking `send_bundle_now` control call.

    Every network round trip (the mempool fetch, `Bundler::send_bundle`, the
    receipt poll) is an input: a sequence of replies, one per call, in the order
    the calls are made. Spawned tasks are recorded in a ghost sequence. */
module GrpcBundler {
  import opened Primitives

  /** A bundler, as far as the service sees it: the entry point it serves.
      Wallet, beneficiary, chain, minimum balance and clients stay inside it. */
  datatype Bundler = Bundler(entryPoint: Address)

  /** An `eyre` report, reduced to its text. */
  datatype Error = Error(reason: string)

  /** Reply of `get_sorted_user_operations` for one entry point. */
  datatype Fetched = Fetched(ops: seq<UserOperation>) | FetchFailed(reason: string)

  /** Reply of `Bundler::send_bundle`: a transaction hash, `None` when nothing
      was sent, or a failure. */
  datatype SendReply = Sent(tx: Option<H256>) | SendFailed(reason: string)

  /** Reply of one `get_transaction_receipt` poll. */
  datatype ReceiptPoll = PollFailed(reason: string) | NotMined | Mined

  datatype Mode = Manual | Auto
  datatype SetModeResult = SetModeOk

  /** The gRPC status `send_bundle_now` fails with. */
  datatype Status = Internal(cause: Error)

  /** A spawned auto-bundling task: which entry point it serves, at what interval. */
  datatype LoopTask = LoopTask(entryPoint: Address, interval: U64)

  /** What one tick of an auto-bundling loop did. */
  datatype TickOutcome =
    | Exited                          // the flag was off: the loop breaks
    | FetchLogged(reason: string)     // fetch failed, logged, loop goes on
    | SendLogged(reason: string)      // send failed, logged, loop goes on
    | Submitted(tx: Option<H256>)     // send_bundle returned normally

  /** Bundler `i` got its operations and its bundle went out. */
  predicate Succeeds(fetched: Fetched, sent: SendReply) {
    fetched.Fetched? && sent.Sent?
  }

  /** The error that `?` propagates for a bundler whose round failed. */
  function FailureOf(fetched: Fetched, sent: SendReply): Error
    requires !Succeeds(fetched, sent)
  {
    if fetched.FetchFailed? then Error(fetched.reason) else Error(sent.reason)
  }

  /** Bundler `k` is the first whose round failed. */
  ghost predicate FirstFailure(fetches: seq<Fetched>, sends: seq<SendReply>, k: nat)
    requires |fetches| == |sends|
  {
    k < |fetches| && !Succeeds(fetches[k], sends[k]) &&
    forall j :: 0 <= j < k ==> Succeeds(fetches[j], sends[j])
  }

  /** The `tx_hashes` vector `send_bundles` builds, or the first error that cut
      the pass short. */
  function CollectHashes(fetches: seq<Fetched>, sends: seq<SendReply>): (r: Result<seq<Option<H256>>, Error>)
    requires |fetches| == |sends|
    ensures r.Ok? <==> forall i :: 0 <= i < |fetches| ==> Succeeds(fetches[i], sends[i])
    ensures r.Ok? ==> |r.value| == |fetches| &&
                      forall i :: 0 <= i < |fetches| ==> r.value[i] == sends[i].tx
    ensures r.Err? ==> exists k: nat :: FirstFailure(fetches, sends, k) &&
                                        r.error == FailureOf(fetches[k], sends[k])
    decreases |fetches|
  {
    if |fetches| == 0 then Ok([])
    else if !Succeeds(fetches[0], sends[0]) then
      assert FirstFailure(fetches, sends, 0);
      Err(FailureOf(fetches[0], sends[0]))
    else
      match CollectHashes(fetches[1..], sends[1..])
      case Ok(rest) => Ok([sends[0].tx] + rest)
      case Err(e) =>
        ghost var k: nat :| FirstFailure(fetches[1..], sends[1..], k) &&
                            e == FailureOf(fetches[1..][k], sends[1..][k]);
        assert FirstFailure(fetches, sends, k + 1);
        Err(e)
  }

  /** Once a bundler's round fails, what the later bundlers would have answered
      does not matter. */
  lemma {:induction false} CollectStopsAtFirstFailure(fetches: seq<Fetched>, sends: seq<SendReply>,
                                                      fetches': seq<Fetched>, sends': seq<SendReply>, k: nat)
    requires |fetches| == |sends| && |fetches'| == |sends'|
    requires k < |fetches| && k < |fetches'|
    requires fetches[..k + 1] == fetches'[..k + 1] && sends[..k + 1] == sends'[..k + 1]
    requires !Succeeds(fetches[k], sends[k])
    ensures CollectHashes(fetches, sends) == CollectHashes(fetches', sends')
    decreases k
  {
    assert fetches[0] == fetches'[0] && sends[0] == sends'[0];
    if k > 0 && Succeeds(fetches[0], sends[0]) {
      assert fetches[1..][..k] == fetches[..k + 1][1..];
      assert fetches'[1..][..k] == fetches'[..k + 1][1..];
      assert sends[1..][..k] == sends[..k + 1][1..];
      assert sends'[1..][..k] == sends'[..k + 1][1..];
      assert fetches[1..][k - 1] == fetches[k] && sends[1..][k - 1] == sends[k];
      CollectStopsAtFirstFailure(fetches[1..], sends[1..], fetches'[1..], sends'[1..], k - 1);
    }
  }

  /** One tick of an auto-bundling loop, given the flag value it reads: it exits
      exactly when the flag is off, so no fetch or send failure ends the loop. */
  function Tick(running: bool, fetched: Fetched, sent: SendReply): (o: TickOutcome)
    ensures o.Exited? <==> !running
    ensures o.FetchLogged? <==> running && fetched.FetchFailed?
    ensures o.SendLogged? ==> running && fetched.Fetched? && sent.SendFailed?
    ensures o.Submitted? ==> sent.Sent? && o.tx == sent.tx
  {
    if !running then Exited
    else match fetched
      case FetchFailed(reason) => FetchLogged(reason)
      case Fetched(ops) =>
        match sent
        case SendFailed(reason) => SendLogged(reason)
        case Sent(tx) => Submitted(tx)
  }

  /** The body of one spawned auto-bundling task, run over the flag values it
      reads at successive ticks (other tasks may flip the flag in between) and
      the replies to the calls of those ticks. It keeps ticking through every
      failure and stops at the first tick that reads the flag off; `ticks` is
      the number of ticks that did work. When every observed tick reads the
      flag on, the task is still running at the end of the observation. */
  method RunLoop(observed: seq<bool>, fetches: seq<Fetched>, sends: seq<SendReply>)
    returns (ticks: nat, exited: bool, log: seq<TickOutcome>)
    requires |fetches| == |observed| && |sends| == |observed|
    ensures ticks <= |observed|
    ensures forall j :: 0 <= j < ticks ==> observed[j]
    ensures exited <==> ticks < |observed|
    ensures exited ==> !observed[ticks]
    ensures |log| == ticks
    ensures forall j :: 0 <= j < ticks ==> log[j] == Tick(true, fetches[j], sends[j]) && !log[j].Exited?
  {
    ticks, exited, log := 0, false, [];
    while ticks < |observed|
      invariant ticks <= |observed|
      invariant forall j :: 0 <= j < ticks ==> observed[j]
      invariant |log| == ticks
      invariant forall j :: 0 <= j < ticks ==> log[j] == Tick(true, fetches[j], sends[j])
      decreases |observed| - ticks
    {
      var outcome := Tick(observed[ticks], fetches[ticks], sends[ticks]);
      if outcome.Exited? {
        exited := true;
        return;
      }
      log := log + [outcome];
      ticks := ticks + 1;
    }
  }

  /** A stub answering "no receipt" (or failing) for a while and then "mined":
      the position of the first `Mined` poll. */
  ghost predicate MinedFirstAt(polls: seq<ReceiptPoll>, k: nat) {
    k < |polls| && polls[k].Mined? && forall j :: 0 <= j < k ==> !polls[j].Mined?
  }

  class BundlerService {
    const bundlers: seq<Bundler>
    var running: bool
    /** Every auto-bundling task ever spawned, in spawn order. */
    ghost var spawned: seq<LoopTask>

    /** The tasks one `start_bundling(interval)` spawns: one per bundler, in order. */
    ghost function LoopsFor(interval: U64): seq<LoopTask> {
      seq(|bundlers|, i requires 0 <= i < |bundlers| => LoopTask(bundlers[i].entryPoint, interval))
    }

    /** `BundlerService::new`: the service starts stopped. */
    constructor (bundlers: seq<Bundler>)
      ensures this.bundlers == bundlers
      ensures !running && spawned == []
    {
      this.bundlers := bundlers;
      running := false;
      spawned := [];
    }

    /** `BundlerService::is_running`: reads the flag. */
    method IsRunning() returns (r: bool)
      ensures r == running
    {
      r := running;
    }

    /** `BundlerService::stop_bundling`: turns the flag off and nothing else. */
    method StopBundling()
      modifies this`running
      ensures !running
    {
      running := false;
    }

    /** `BundlerService::start_bundling`: a no-op while running; otherwise turns
        the flag on and spawns one loop per bundler, in order. */
    method StartBundling(interval: U64)
      modifies this`running, this`spawned
      ensures running
      ensures old(running) ==> spawned == old(spawned)
      ensures !old(running) ==> spawned == old(spawned) + LoopsFor(interval)
    {
      var r := IsRunning();
      if !r {
        running := true;
        for i := 0 to |bundlers|
          invariant running
          invariant spawned == old(spawned) + LoopsFor(interval)[..i]
        {
          spawned := spawned + [LoopTask(bundlers[i].entryPoint, interval)];
        }
      }
    }

    /** `Bundler::set_bundler_mode`: Manual stops, Auto starts; always Ok. */
    method SetBundlerMode(mode: Mode, interval: U64) returns (res: SetModeResult)
      modifies this`running, this`spawned
      ensures res == SetModeOk
      ensures mode == Manual ==> !running && spawned == old(spawned)
      ensures mode == Auto ==> running
      ensures mode == Auto ==>
                spawned == if old(running) then old(spawned) else old(spawned) + LoopsFor(interval)
    {
      match mode {
        case Manual =>
          StopBundling();
        case Auto =>
          StartBundling(interval);
      }
      res := SetModeOk;
    }

    /** `BundlerService::send_bundles`: fetch and send for each bundler in order,
        stop at the first error and return it, otherwise return the first
        bundler's hash. The extra result `submitted` lists the (entry point, operations) pairs
        handed to `send_bundle`, in order. */
    method SendBundles(fetches: seq<Fetched>, sends: seq<SendReply>)
      returns (r: Result<Option<H256>, Error>, submitted: seq<(Address, seq<UserOperation>)>)
      requires |bundlers| > 0
      requires |fetches| == |bundlers| && |sends| == |bundlers|
      ensures r.Ok? <==> CollectHashes(fetches, sends).Ok?
      ensures r.Ok? ==> r.value == sends[0].tx
      ensures r.Err? ==> r.error == CollectHashes(fetches, sends).error
      ensures |submitted| <= |bundlers|
      ensures forall j :: 0 <= j < |submitted| ==>
                fetches[j].Fetched? && submitted[j] == (bundlers[j].entryPoint, fetches[j].ops)
      ensures r.Ok? ==> |submitted| == |bundlers|
      ensures forall k: nat :: FirstFailure(fetches, sends, k) ==>
                |submitted| == if fetches[k].FetchFailed? then k else k + 1
    {
      var txHashes: seq<Option<H256>> := [];
      submitted := [];
      for i := 0 to |bundlers|
        invariant |txHashes| == i && |submitted| == i
        invariant forall j :: 0 <= j < i ==> Succeeds(fetches[j], sends[j]) && txHashes[j] == sends[j].tx
        invariant forall j :: 0 <= j < i ==> submitted[j] == (bundlers[j].entryPoint, fetches[j].ops)
      {
        match fetches[i]
        case FetchFailed(reason) =>
          assert FirstFailure(fetches, sends, i);
          r := Err(Error(reason));
          return;
        case Fetched(ops) =>
          submitted := submitted + [(bundlers[i].entryPoint, ops)];
          match sends[i]
          case SendFailed(reason) =>
            assert FirstFailure(fetches, sends, i);
            r := Err(Error(reason));
            return;
          case Sent(tx) =>
            txHashes := txHashes + [tx];
      }
      r := Ok(txHashes[0]);
    }

    /** `Bundler::send_bundle_now`: a failed pass becomes an internal status; no
        hash returns the default hash at once; a hash is returned only after the
        first poll that finds its receipt, however many polls fail or find
        nothing before it. The polls must eventually find the receipt, since
        the source loops for ever otherwise. */
    method SendBundleNow(fetches: seq<Fetched>, sends: seq<SendReply>, polls: seq<ReceiptPoll>)
      returns (r: Result<H256, Status>, polled: nat)
      requires |bundlers| > 0
      requires |fetches| == |bundlers| && |sends| == |bundlers|
      requires (forall i :: 0 <= i < |bundlers| ==> Succeeds(fetches[i], sends[i])) && sends[0].tx.Some? ==>
               exists k: nat :: k < |polls| && polls[k].Mined?
      ensures CollectHashes(fetches, sends).Err? ==>
                r == Err(Internal(CollectHashes(fetches, sends).error)) && polled == 0
      ensures CollectHashes(fetches, sends).Ok? && sends[0].tx.None? ==>
                r == Ok(DefaultHash) && polled == 0
      ensures CollectHashes(fetches, sends).Ok? && sends[0].tx.Some? ==>
                r == Ok(sends[0].tx.value) && polled > 0 && MinedFirstAt(polls, polled - 1)
    {
      var res, _ := SendBundles(fetches, sends);
      polled := 0;
      if res.Err? {
        r := Err(Internal(res.error));
        return;
      }
      if res.value.Some? {
        var k := 0;
        while !polls[k].Mined?
          invariant k < |polls|
          invariant exists m: nat :: k <= m < |polls| && polls[m].Mined?
          invariant forall j :: 0 <= j < k ==> !polls[j].Mined?
          decreases |polls| - k
        {
          k := k + 1;
        }
        polled := k + 1;
        r := Ok(res.value.value);
      } else {
        r := Ok(DefaultHash);
      }
    }
  }

  /** `send_bundles` when every bundler had nothing to send: an empty result,
      not an error. */
  lemma NothingToSendIsNotAnError(fetches: seq<Fetched>, sends: seq<SendReply>)
    requires |fetches| == |sends| > 0
    requires forall i :: 0 <= i < |fetches| ==> fetches[i].Fetched? && sends[i] == Sent(None)
    ensures CollectHashes(fetches, sends).Ok?
    ensures forall i :: 0 <= i < |fetches| ==> CollectHashes(fetches, sends).value[i] == None
  {
  }

  /** No rollback across bundlers: a later bundler's failure surfaces as the
      error even though an earlier bundler's bundle went out. */
  lemma LaterFailureHidesEarlierHash(fetches: seq<Fetched>, sends: seq<SendReply>, k: nat)
    requires |fetches| == |sends|
    requires FirstFailure(fetches, sends, k) && k > 0
    ensures CollectHashes(fetches, sends) == Err(FailureOf(fetches[k], sends[k]))
  {
  }

  /** The lifecycle rules seen from a client of the service. */
  method LifecycleScenario(entryPoints: seq<Address>, interval: U64)
  {
    var bundlers := seq(|entryPoints|, i requires 0 <= i < |entryPoints| => Bundler(entryPoints[i]));
    var service := new BundlerService(bundlers);
    var r := service.IsRunning();
    assert !r;
    service.StartBundling(interval);
    assert |service.spawned| == |entryPoints|;
    service.StartBundling(interval);
    assert |service.spawned| == |entryPoints|;
    var res := service.SetBundlerMode(Manual, interval);
    r := service.IsRunning();
    assert !r && res == SetModeOk;
    res := service.SetBundlerMode(Auto, interval);
    assert service.running && |service.spawned| == 2 * |entryPoints|;
  }
}
