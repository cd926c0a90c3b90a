# Silius bundling core in Dafny

This project models two pieces of the Silius account-abstraction bundler.

- **The sender/replacement sanity rule** (`Sender::check_user_operation`) decides whether the mempool admits a user operation. It has three stages:
  1. The sender's on-chain code must be empty exactly when the operation carries init code.
  2. A sender with no operation in the pool passes.
  3. An operation with the same nonce as a pending operation of its sender must outbid that operation on both `max_fee_per_gas` and `max_priority_fee_per_gas`, by at least `calculate_valid_gas(prev, GAS_INCREASE_PERC)`.

  A failed `get_code` query gives `SanityError::Provider`. Every semantic rejection gives `SanityError::Sender`.
- **The `BundlerService`** owns the per-entry-point bundlers and a shared `running` flag. Its operations:
  - `new`, `is_running`, `stop_bundling`;
  - `start_bundling`, which does nothing while running and otherwise spawns one auto-bundling loop per bundler;
  - `send_bundles`, an ordered pass that stops at the first error and returns the first bundler's hash;
  - the gRPC `set_bundler_mode` (Manual stops, Auto starts);
  - `send_bundle_now`, which polls for the receipt until the bundle is mined.

Files:
- `primitives.dfy` (module `Primitives`): the 256-bit and 64-bit integer types, byte strings, the `Option`/`Result` wrappers and the `UserOperation` record.
- `sender.dfy` (module `SanitySender`): the sanity rule as a pure function, plus lemmas about it.
- `bundler.dfy` (module `GrpcBundler`): the class `BundlerService`, plus the specification functions and lemmas for the send pass and the auto-bundling loop.

Environment inputs:
- The sanity rule's one network call, `get_code`, is an input (`CodeReply`).
- The two mempool queries about the sender are an input: `get_number_by_sender` and `get_all_by_sender` together form `SenderView`. The model does not assume that the two answers agree.
- `calculate_valid_gas` with the configured percentage is an arbitrary function `validGas: U256 -> U256`.
- In the service, each network call is answered from a sequence of replies, one per call. This covers the mempool fetch, `Bundler::send_bundle` and the receipt poll.
- Spawned loop tasks are recorded in the ghost field `spawned`.

Where the intended design and the code differ, the model follows the code:
- **No zero-bundler check.** No startup check rejects an empty bundler list. `send_bundles` and `send_bundle_now` panic through `expect` when the list is empty (crates/grpc/src/bundler.rs:70 and :168). The model states this as their precondition `|bundlers| > 0`.
- **Fee bump left opaque.** The required bump is whatever `calculate_valid_gas` returns. It is not assumed to be `prev · (1 + p)`. The worked examples with a 10% increase (`UnderbidExample`, `OutbidExample`) plug in one such function explicitly.
- **Stop then start can duplicate loops.** The code does not guarantee "exactly one loop set per bundler" after a stop followed by a start. An old loop reads the flag only at its next tick. If the flag is back on by then, that loop keeps running beside the new one. The model only records that each start from the stopped state spawns `|bundlers|` more tasks (`LifecycleScenario` shows 2·|bundlers| after start, stop, start). It claims nothing about old tasks having ended.

Two behaviours of the code that the model records but does not repair:
- **Check-then-set in `start_bundling`.** `start_bundling` reads the flag and then sets it under a second lock. Two concurrent calls can both see `false` and both spawn loops. Concurrency is not modelled.
- **Zero interval.** `start_bundling(0)` sets the flag and spawns tasks. Each task then builds `tokio::time::interval` with a zero period, which panics inside the task. The service then reports running while no loop runs. The model records the interval in each `LoopTask` and does not model the timer.

## Model

| member | source | states |
|---|---|---|
| `SanitySender.CheckUserOperation` | crates/mempool/src/validate/sanity/sender.rs:27-86 | A failed `get_code` yields exactly `Provider` with the query's message, and `Provider` arises only from that. An inconsistent deployment (code and init code both empty or both non-empty) yields `Sender` before any pool lookup. A sender with no pooled operations is accepted whatever its fees. With no same-nonce pending operation, the operation is accepted. |
| `SanitySender.FindNonce` | crates/mempool/src/validate/sanity/sender.rs:63-67 | `find` over the sender's pending operations returns the position of the first one with the same nonce: no earlier one has that nonce. It returns the length when none has it. |
| `SanitySender.ReplacementRule` | crates/mempool/src/validate/sanity/sender.rs:69-85 | Given a consistent deployment, a non-zero sender count, and first same-nonce pending operation `prev`: the result is `Ok` iff both fees are at least `validGas` of prev's fees, and `Sender` otherwise. |
| `SanitySender.AcceptedIff` | crates/mempool/src/validate/sanity/sender.rs:42-85 | Full acceptance condition, stated without `find`: the query succeeded, the deployment is consistent, and either the sender count is zero or the operation outbids the first same-nonce pending operation. |
| `SanitySender.SenderRejectionCauses` | crates/mempool/src/validate/sanity/sender.rs:50-82 | When the query succeeded, the result is `Sender` iff the gate fails, or the count is non-zero and the first same-nonce pending operation is not outbid. |
| `SanitySender.OnlyFirstSameNonceCounts` | crates/mempool/src/validate/sanity/sender.rs:63-83 | Only the first same-nonce pending operation is compared: whatever follows it in `get_all_by_sender` order does not change the decision. |
| `SanitySender.UnderbidExample` | crates/mempool/src/validate/sanity/sender.rs:70-81 | With a 10% bump, raising `max_fee_per_gas` from 100 to 105 is rejected with `Sender`. |
| `SanitySender.OutbidExample` | crates/mempool/src/validate/sanity/sender.rs:69-85 | With a 10% bump, raising both fees from 100 to 115 is accepted. |
| `GrpcBundler.CollectHashes` | crates/grpc/src/bundler.rs:57-66 | The `tx_hashes` pass succeeds iff every bundler's fetch and send succeeded. It then holds each bundler's send result, in bundler order. Otherwise it is the error of the first bundler whose fetch or send failed. |
| `GrpcBundler.CollectStopsAtFirstFailure` | crates/grpc/src/bundler.rs:60-63 | Once a bundler's round fails, the replies of later bundlers do not affect the outcome. |
| `GrpcBundler.Tick` | crates/grpc/src/bundler.rs:99-121 | One tick exits iff the flag reads off. A fetch failure and a send failure are only logged, and the loop goes on. A completed send reports the hash `send_bundle` returned. |
| `GrpcBundler.RunLoop` | crates/grpc/src/bundler.rs:97-122 | A spawned loop keeps ticking through every failure. It stops at the first tick that reads the flag off. Every tick before that did a fetch/send round. |
| `GrpcBundler.NothingToSendIsNotAnError` | crates/grpc/src/bundler.rs:57-70 | When every bundler fetched successfully and had nothing to send, the pass returns an all-`None` result, not an error. |
| `GrpcBundler.LaterFailureHidesEarlierHash` | crates/grpc/src/bundler.rs:60-66 | A failure at a later bundler is returned as the error even though earlier bundlers' bundles went out (no rollback). |
| `GrpcBundler.BundlerService.constructor` | crates/grpc/src/bundler.rs:39-44 | A new service holds the given bundlers, is not running, and has spawned nothing. |
| `GrpcBundler.BundlerService.IsRunning` | crates/grpc/src/bundler.rs:79-81 | Returns the current flag. |
| `GrpcBundler.BundlerService.StopBundling` | crates/grpc/src/bundler.rs:73-77 | The flag is off afterwards; only the flag may change. |
| `GrpcBundler.BundlerService.StartBundling` | crates/grpc/src/bundler.rs:83-125 | The flag is on afterwards. If it was already on, no task is spawned. Otherwise exactly one loop task per bundler is spawned, in bundler order, with the given interval. |
| `GrpcBundler.BundlerService.SetBundlerMode` | crates/grpc/src/bundler.rs:134-151 | `Manual` behaves as `StopBundling` and `Auto` as `StartBundling(interval)`. The result is always `Ok`. |
| `GrpcBundler.BundlerService.SendBundles` | crates/grpc/src/bundler.rs:57-71 | Processes bundlers in order and returns the first fetch or send error. On full success it returns the first bundler's send result (`None` when it sent nothing). Each send receives the operations fetched for that bundler. Bundlers after the first failure are not contacted. |
| `GrpcBundler.BundlerService.SendBundleNow` | crates/grpc/src/bundler.rs:153-182 | A failed pass returns an internal status carrying the error, without polling. A pass with no hash returns the default hash without polling. Otherwise it returns the hash only after the first poll that finds the receipt: exactly one more poll than the failed or receipt-less polls before it. |

## Left out

- The reputation view of `check_user_operation` is unused in the source (`_reputation`), so it is not a parameter. The mempool view is a value, so the rule cannot change the pool.
- The text of the two `Sender` messages is not modelled, only the variant. The `Provider` message is modelled as the query's error text.
- `calculate_valid_gas`, `GAS_INCREASE_PERC`, `Bundler::send_bundle` (encoding, signing, access lists, submission) and the mempool's internals are not part of this model. Their results are inputs.
- `get_user_operations` and its protobuf conversion are I/O plumbing. A fetch is a reply in the `fetches` input.
- `bundler_service_run` builds bundlers from configuration and wires the gRPC server and metrics layer. Transport wiring is not modelled.
- The pipeline runner that calls the sanity rules in order is not part of this model. Only the sender rule is.
- Tokio scheduling, interval timing, the 50 ms sleep between receipt polls, and real parallel interleaving are not modelled. The mutex around the flag is a plain field.
- RunLoop: reads the flag from a sequence of observed values, one per tick, rather than from the service's field, because other tasks may change the flag between ticks and concurrency is not modelled.
- SendBundleNow: requires that the receipt polls eventually report the transaction mined whenever a hash was produced, because the source polls without bound and would never return otherwise.
- BundlerService.SendBundles and BundlerService.SendBundleNow: require at least one bundler, because the source panics through `expect` otherwise.
- Addresses and hashes are kept as numbers. Addresses are unbounded. Hashes are below 2^256, and the default hash is 0.
