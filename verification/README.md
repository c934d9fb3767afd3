# Verified models of the Minotaur subnet's core

This project models the parts of the Minotaur subnet in which money, authority or agreement is at
stake, and proves what they keep over whole runs.

| file | what it models |
|---|---|
| `OrderPass.dfy`, `OrderSafety.dfy` | one turn of an order through the block loop as a sequence of durable effects, and what every prefix of it keeps |
| `OrderVerdicts.dfy`, `OrderClaims.dfy` | exactly when a turn ends in which way, exactly what it leaves, and exactly which orders a tick claims |
| `OrderRuns.dfy`, `OrderLoop.dfy` | whole runs of the block loop: submissions, ticks, crashes at any effect, restarts, cancels, leader changes; first as a fold over events with its invariants, then as a class that is proved to leave exactly the states of that fold |
| `CancelledOrders.dfy`, `SingleOrderRuns.dfy` | what a cancel stops, and what restarts and lost saves can do to one order |
| `CallBounds.dfy`, `Overruns.dfy`, `Takeover.dfy` | from which states the bound on relayer calls holds whatever happens next, and what a new leader may load |
| `Delegation.dfy` | what the loop learns from the orchestrators it hands orders to |
| `ConsensusRetry.dfy` | the timed automaton that requeues or rejects an order whose consensus failed |
| `FeePolicy.dfy` | fee quote, certification and the relayer's bid cap, in integers with floor division |
| `LegPlans.dfy`, `BridgeRegistry.dfy`, `BridgeCompiler.dfy`, `CompiledPlans.dfy` | cross-chain plans, the choice of a bridge quote, the compiler, and what every compiled plan is like |
| `MultiLeg.dfy`, `MultiLegRuns.dfy`, `MultiLegParts.dfy`, `CompiledRuns.dfy` | the multi-leg executor, what every run leaves behind as a whole and part by part, and what becomes of compiled plans |
| `CrossChainSubmit.dfy`, `CrossChainLegs.dfy` | the legacy cross-chain submission, and what it does in terms of the legs it is given |
| `DelegatedStaking.dfy` | the staking permission policy, its execution, and whole histories |
| `RoundCoordinator.dfy`, `RoundRuns.dfy`, `RoundSteps.dfy` | the solver-round coordinator, every run of it, and exactly what one tick does to its round |
| `LeaderSync.dfy` | paged mirroring of quotes and orders |
| `RpcBackoff.dfy` | retries with backoff and the read-scoped middleware |
| `WeightPolicy.dfy` | the split of emission between miners and owner, over the reals |
| `RegistryCache.dfy` | the shared cache of app-registry answers, under every interleaving |
| `Wrappers.dfy` | optional values, and calls that may raise |

Code that works by changing things is modelled by classes with `modifies` clauses and loops. Each
such method is tied to a specification function, and the theorems are lemmas about that function. For
each main operation they include exact laws, both ways, about when it succeeds, when it ends in each
other way and what it leaves, stated over its inputs rather than through its specification function.
What the outside answers (relayer, simulator, consensus, chain, clock, network) enters as a
parameter over which every theorem quantifies.

A crash is modelled by a budget of durable effects: when it is used up, code that runs on changes
nothing durable, and the restart wipes its memory. A store write that fails is an effect that does not
happen: a save is lost silently, a record of an execution raises.

## Where the code differs from what is said about it

The model follows the code. These are the places where a statement one would expect, or one that
comments make, is false; each has a lemma with the exact condition.

- A perpetual order with `max_executions` of zero or less is still relayed once; the bound on relayer
  calls is the larger of one and the maximum (`FirstCallIgnoresMaximum`).
- `sync` swallows failures. At any point of a turn the invariant behind the bound on relayer calls
  survives exactly if the relayer was not called by then, or some save of the turn, before or after the
  call, reached the store by then, or the stored record was not OPEN (`SafeExactlyIf`). A one-shot order
  whose saves before the call are all lost, with power lost right after it, reaches the relayer twice; with
  one of them saved, once (`LostSavesCallTwice`). From any state, the bound holds in every fair run that
  follows exactly if no OPEN record counts so few executions that its further calls exceed its cap before
  its deadline (`BoundedExactlyIf`).
- A fill is meant to be recorded as a success. `record_execution` can raise; nothing but the tick catches
  that, and it marks the filled order REJECTED. A filled order ends rejected exactly then
  (`FilledEndsRejected`), and fills equal recorded successes exactly but for those (`PassAccounted`,
  `FillsAreAccounted`). The same happens to multi-leg orders that are FILLED (`LegsTurn`) and to cross-chain
  orders that are FILLED or, with their transaction being tracked, BRIDGING (`BridgeTurn`).
- A cancel that the user is told succeeded need not stop the order. Once claimed, an order reaches the
  relayer in its tick exactly if its verdict says so, whoever cancels it (`ClaimedOrdersAreRelayed`,
  `CancelsDoNotReachClaimedOrders`), and its turn undoes a cancel that came before it: the order ends the
  tick OPEN exactly if its turn reopens it and nobody cancels it after that (`TurnsUndoCancels`). An order
  that is not being worked on, cancelled between ticks or during one, becomes OPEN again exactly if its
  stored record was OPEN, because the cancel is not saved, and the process restarts later; otherwise the
  relayer is never called for it again (`CancelledOrdersReturn`; `CancelledAndRelayed` is such a run).
- A new leader may load order copies synced before the old leader's last calls. In every fair run that
  follows, no order exceeds its cap, exactly if no OPEN record of the new leader, in memory or among the
  copies, may be relayed too often before its deadline (`TakeoverStaysBoundedExactlyIf`); each record that
  may has a run in which it is (`OverrunHappens`).
- Without an explicit `min_output` a bridge quote is held against 99% of its own estimate, so only a
  negative estimate is refused (`DefaultMinimumIsRelativeToTheQuote`).
- Rollback legs are numbered from 100, so they collide with forward legs beyond one hundred
  (`NumbersStayApart`).
- The executor announces rollback in reverse order when a leg fails. A compiled plan is handed to the
  bridge tracker right after its first bridge leg, and its rollback legs are for bridge legs only, so
  none of them is ever submitted; a compiled plan whose bridge leg fails ends as rolled back with
  nothing undone (`CompiledPlansEndAtTheBridge`).
- A solver's own `bridge_protocol` metadata passes through the compiler. On the first leg it makes the
  executor hand over one leg early, before the real bridge leg (`CompiledPlansEndAtTheBridge`). A bridge
  adapter with an empty protocol name would not be waited for at all, which is why the theorem asks for
  a name.
- Validators' selector scan is meant for solver legs, but runs on bridge legs too: it refuses each whose
  adapter uses a listed selector (`ScanOfCompiledLegs`).
- A scorer that raises makes the multi-leg executor leave an order executing, with completed legs and no
  rollback, and the tick then rejects it (`StopOfARun`, `LegsTurn`); a proposal that raises counts as no
  consensus at all (`RaisedProposalIsNoConsensus`).
- A legacy cross-chain order without actions and source interactions is filled and counted as a success
  without any call (`FilledWithoutACall`).
- The staking policy enforces cooldown and daily cap only against records it is given. Records older than
  a day and the cooldown may be dropped (`PrunedHistoryTells`); if the records count less than the last
  day's confirmed amounts, some request is accepted beyond the cap (`UntoldCallsBreakTheCap`);
  `minotaur_subnet/relayer/substrate_relayer.py:106-153` gives it none
  (`WithoutHistoryNothingAccumulates`).
- The coordinator's comment says an unknown finalize outcome is deferred. That wait is bounded by the
  decision deadline, which has always passed by the effective epoch, so the round is aborted at once
  (`UnknownOutcomesAreNotDeferred`).
- After a round in which nobody qualified, the next one can open at the same epoch, exactly when the
  clock still stands where the round opened (`ReopeningAfterEvaluation`).
- The quote mirror is announced as exact. After a reconciled, non-empty pull it is exact exactly if every
  page came and every row whose save was lost was already there: if a later page fails, every row after it
  is deleted (`FailedPageDeletes`). After an empty pull, because the leader has no quotes or the first page
  failed, or without the reconcile, it is exact exactly if the follower had no other rows and already had
  every row that was not saved (`MirrorIsExactExactlyIf`).
- The weight ramp is called a projection for every fraction. At fraction zero it loses the miners
  (`RampAfterZero`).
- The registry cache dates an answer by the start of its read, so a slow read can overwrite a newer
  refusal (`SlowReadOverwrites`): exactly if it began before the read the entry rests on
  (`FinishGoesBack`). No entry is ever set back exactly if, between two clears, the reads of
  each key are stored in the order in which they began (`OrderlyReadsNeverGoBack`).

## Model

| member | source | states |
|---|---|---|
| OrderLoop.Run | minotaur_subnet/blockloop/loop.py:216-337 | the class, driven through any run with distinct order ids, is left in exactly the state of the fold over its events: book, arrival order, retry table, store, relayer calls and counters |
| OrderLoop.BlockLoop.Handle | minotaur_subnet/blockloop/loop.py:216-337 | each event leaves exactly the fold's next state |
| OrderLoop.BlockLoop.RunTick | minotaur_subnet/blockloop/loop.py:216-267 | expiry, the snapshot's claims, the turns with the cancels between them, cut where power is lost, and the restart then, leave exactly the fold's tick |
| OrderLoop.BlockLoop.Work | minotaur_subnet/blockloop/loop.py:242-264 | one order's turn leaves exactly the effects, record and retry table of its verdict, cut where power is lost |
| OrderLoop.BlockLoop.Process | minotaur_subnet/blockloop/order_processor.py:228-726 | the imperative pass makes exactly the effects of the decided verdict, in order, and leaves the order and the retry table accordingly |
| OrderLoop.BlockLoop.Pass | minotaur_subnet/blockloop/loop.py:242-264 | an exception out of the pass, or out of the record it ends with, is followed by the saved rejection of the order, and nothing else is |
| OrderLoop.BlockLoop.RelayOrder | minotaur_subnet/blockloop/order_processor.py:663-753 | fill, count, requeue and record after a relayed order, or reject and debit unless the user is at fault |
| OrderLoop.BlockLoop.TryRequeue | minotaur_subnet/blockloop/order_processor.py:954-995 | a perpetual with executions and time left is stored OPEN, any other order is untouched |
| OrderLoop.BlockLoop.DeferOrReject | minotaur_subnet/blockloop/order_processor.py:155-226 | a failed round requeues or rejects exactly as the retry automaton decides |
| OrderLoop.BlockLoop.LoadOpenOrders | minotaur_subnet/blockloop/persistence.py:39-76 | exactly the stored OPEN orders that memory does not know are added |
| OrderLoop.BlockLoop.Restart | minotaur_subnet/blockloop/persistence.py:39-76 | a crash between any two effects is followed by a valid state that holds exactly the stored OPEN orders |
| OrderLoop.BlockLoop.SnapshotOpen | minotaur_subnet/orderbook/orderbook.py:199-233 | exactly the first fifty eligible orders in arrival order are claimed, each once, where the configured floor on the interval and the order's cooldown decide eligibility |
| OrderLoop.BlockLoop.ExpireStale | minotaur_subnet/orderbook/orderbook.py:269-282 | exactly the open or assigned orders past their deadline expire |
| OrderLoop.BlockLoop.Cancel | minotaur_subnet/orderbook/orderbook.py:179-197 | True exactly for the owner's cancel of an open or assigned order, which is then cancelled in memory only; an error exactly for another user's |
| OrderLoop.BlockLoop.CancelAll | minotaur_subnet/api/routes/orders.py:1405-1427 | the cancels that arrive between two turns of a tick mark exactly the cancellable ones of these orders |
| OrderLoop.BlockLoop.Submit | minotaur_subnet/orderbook/orderbook.py:134-177 | a fresh OPEN order with no executions, a maximum of one unless it is perpetual, enters the book last, and the store if its save lands |
| OrderLoop.BlockLoop.LeaderChanged | minotaur_subnet/blockloop/loop.py:312-337 | the stored OPEN orders that memory does not know come back, and nothing else changes |
| OrderClaims.ClaimedExactlyIf | minotaur_subnet/orderbook/orderbook.py:199-233 | a tick claims the first fifty, in order of arrival, of the orders that are OPEN, not out of time and not resting; while there is room, every one of them |
| OrderClaims.ClaimingExactly | minotaur_subnet/orderbook/orderbook.py:199-282 | claimed orders are assigned, orders whose time ran out expire, all others are untouched |
| OrderClaims.BookEventsExactly | minotaur_subnet/orderbook/orderbook.py:134-197 | what a submission and a cancel leave in book, arrival order and store |
| OrderRuns.LoadAddsOpenOrders | minotaur_subnet/blockloop/persistence.py:39-76 | after a load an order is in memory exactly if it was, or is stored OPEN; known orders keep their record, others get the stored one |
| OrderRuns.RestartIsSound | minotaur_subnet/blockloop/persistence.py:39-76 | after a crash between any two effects memory holds exactly the stored OPEN orders, each with all its relayer calls counted |
| OrderRuns.EventIsSound | minotaur_subnet/blockloop/loop.py:216-337 | every fair event keeps: an OPEN order in memory or in the store counts exactly its relayer calls and has one left |
| OrderRuns.RunIsSound | minotaur_subnet/blockloop/loop.py:216-337 | from any state in which that holds, every fair run keeps it |
| OrderRuns.EventIsBalanced | minotaur_subnet/blockloop/order_processor.py:663-753 | any event, from any state and whatever is lost, leaves at most one more unaccounted fill, and only if power is lost in it |
| OrderRuns.CallsStayWithinCap | minotaur_subnet/blockloop/order_processor.py:663-726 | over every run in which some save of each turn lands before its relayer call, no order reaches the relayer more often than its cap |
| OrderRuns.FillsAreAccounted | minotaur_subnet/blockloop/order_processor.py:663-753 | over every run at all, recorded successes and raised records never exceed fills, and fall short of them by at most one per tick that lost power |
| Overruns.BoundedExactlyIf | minotaur_subnet/blockloop/loop.py:216-337 | from any state whose records are in order: no order exceeds its cap in any fair run that follows, with a clock that runs forward, exactly if no OPEN record in memory or store may be relayed too often before its deadline |
| Overruns.OverrunHappens | minotaur_subnet/blockloop/persistence.py:39-76 | every such record has a fair run in which the relayer is called once more than its cap allows |
| CallBounds.RunStaysWithin | minotaur_subnet/orderbook/orderbook.py:199-233 | once no OPEN record may overrun, none does later, over any fair run |
| CallBounds.FillStaysWithin | minotaur_subnet/blockloop/order_processor.py:663-726 | a fill that reopens a perpetual uses up one call and one pause between claims |
| Overruns.SoundStaysBounded | minotaur_subnet/blockloop/loop.py:216-337 | states that count all calls are among those from which the bound holds |
| OrderLoop.BlockLoop.CountAttempt | minotaur_subnet/blockloop/order_processor.py:155-226 | the imperative bookkeeping of retries is the retry automaton's step |
| OrderLoop.BlockLoop.Put | minotaur_subnet/blockloop/persistence.py:30-37 | a record is changed in memory and its save joins the pass's effects |
| OrderLoop.BlockLoop.Perform | minotaur_subnet/blockloop/persistence.py:30-37 | the durable state is always what the effects made before power was lost left behind |
| OrderSafety.SafeExactlyIf | minotaur_subnet/blockloop/persistence.py:30-37 | at every prefix of a turn and for every set of failing writes, the invariant behind the bound on relayer calls holds exactly if the relayer was not called, or a save landed, or the stored record was not OPEN |
| OrderSafety.PassSafe | minotaur_subnet/blockloop/order_processor.py:228-726 | one save that lands before the relayer call keeps every later point of the turn safe, and the order it ends with counts its calls |
| OrderSafety.PassSafeBy | minotaur_subnet/blockloop/order_processor.py:228-726 | one save that lands before the relayer call keeps every later point of the turn within any rule about OPEN records that the verdict respects; counting all calls is one, staying within the deadline another |
| OrderSafety.TurnCalls | minotaur_subnet/blockloop/order_processor.py:663-668 | in any world a turn calls the relayer at most once, for its own order only, and exactly for the verdicts that do |
| OrderSafety.PassAccounted | minotaur_subnet/blockloop/order_processor.py:663-753 | in any world, a complete turn counts a fill exactly if the relayer reported one and records it exactly if the record does not raise, a failure only for a solver's fault; cut short, no more than that |
| OrderSafety.FilledEndsRejected | minotaur_subnet/store/app_intent_store.py:1144-1185 | a filled order ends rejected exactly if the record of its fill raised |
| OrderSafety.BlamelessPasses | minotaur_subnet/blockloop/order_processor.py:728-753 | a pass that requeues without a fill, waits for the user or reverts on the user records nothing |
| OrderSafety.SettlementGate | minotaur_subnet/blockloop/order_processor.py:452-668 | whenever the relayer is called, the same pass certified a locked fee, met the on-chain threshold, reached configured consensus and saved the order APPROVED just before; and it calls once |
| OrderVerdicts.RelayedExactlyIf | minotaur_subnet/blockloop/order_processor.py:228-668 | over the inputs alone: the relayer is called exactly if nothing raised before, the app is found, a perpetual with a contract funded, the plan single-chain and accepted where policy is enforced, a locked fee in range and covering gas, the score at least the threshold or absent where none is required, consensus reached where configured, and the user does not submit himself |
| OrderVerdicts.EarlyVerdicts | minotaur_subnet/blockloop/order_processor.py:228-332 | exactly when planning raises, the app is missing, a perpetual is unfunded, no plan comes (and whether that requeues), or policy refuses |
| OrderVerdicts.PlanVerdicts | minotaur_subnet/blockloop/order_processor.py:334-500 | exactly when a kept plan does not compile, is delegated to the multi-leg orchestrator, needs the cross-chain path that is off, is refused for its fee, or its scoring raises |
| OrderVerdicts.ScoreVerdicts | minotaur_subnet/blockloop/order_processor.py:488-557 | exactly when a required on-chain score is missing or a score is below the threshold, and whether that requeues |
| OrderVerdicts.ConsensusVerdicts | minotaur_subnet/blockloop/order_processor.py:560-622 | exactly when the proposal raises, or consensus fails and the order is deferred or rejected, as the retry automaton decides |
| OrderVerdicts.ApprovedVerdicts | minotaur_subnet/blockloop/order_processor.py:625-726 | exactly when an approved order waits for its user, goes to the bridge, or is relayed, and with which answer |
| OrderVerdicts.StagesAreSaved | minotaur_subnet/blockloop/order_processor.py:302-634 | for every verdict, the statuses saved on the way, as a literal sequence |
| OrderVerdicts.PassesEndWith | minotaur_subnet/blockloop/order_processor.py:663-753 | for every verdict, the relayer call, the save of the outcome and the record that end the pass, as a literal sequence |
| OrderVerdicts.FillsCount | minotaur_subnet/blockloop/order_processor.py:669-726 | a fill closes a one-shot order and counts an execution of a perpetual, which reopens exactly while one is left |
| OrderVerdicts.RetriesAfterPass | minotaur_subnet/blockloop/order_processor.py:155-226 | only a failed round counts in the retry table, and every approval forgets the order |
| SingleOrderRuns.LostSavesCallTwice | minotaur_subnet/blockloop/persistence.py:30-37 | for every one-shot order that two passes relay, with power lost right after the first call: the relayer is called within the cap exactly if some save landed before it, and twice otherwise |
| OrderSafety.FirstCallIgnoresMaximum | minotaur_subnet/blockloop/order_processor.py:663-726 | after the first relayer call an order is within its maximum exactly when the maximum is at least one |
| OrderPass.HandlerCompletes | minotaur_subnet/blockloop/loop.py:252-264 | the rejection after an exception, also one raised by the record, completes the pass to the effects of the turn |
| CancelledOrders.CancelsDoNotReachClaimedOrders | minotaur_subnet/api/routes/orders.py:1405-1427 | cancels accepted during a tick change none of its relayer calls, fills, records, debits, retries or power, and only statuses in its saves |
| CancelledOrders.ClaimedOrdersAreRelayed | minotaur_subnet/blockloop/loop.py:231-264 | a claimed order reaches the relayer in its tick exactly if its verdict does so before power is lost, whatever is cancelled |
| CancelledOrders.TurnsUndoCancels | minotaur_subnet/blockloop/loop.py:231-264 | a claimed order ends its tick with its turn's outcome, marked only by cancels after its turn; so it is OPEN exactly if its turn reopens it and no such cancel comes |
| CancelledOrders.CancelledOrdersReturn | minotaur_subnet/api/routes/orders.py:1405-1427 | in every run, an order cancelled while no tick works on it becomes OPEN again exactly if its stored record was OPEN then and the process restarts or dies from then on; otherwise its relayer calls never change |
| SingleOrderRuns.CancelledAndRelayed | minotaur_subnet/blockloop/persistence.py:39-76 | submitted, cancelled, restarted, ticked: the relayer is called exactly if the submission was saved and the verdict calls it |
| Takeover.TakeoverStaysBoundedExactlyIf | minotaur_subnet/blockloop/order_sync.py:93-107 | after a takeover with synced copies, no order exceeds its cap in any fair run that follows, exactly if no OPEN record in the new leader's memory or among the copies may be relayed too often before its deadline |
| Takeover.StaleCopyIsRelayed | minotaur_subnet/blockloop/order_sync.py:93-107 | a used-up order with a stale OPEN copy exceeds its cap in the new leader's tick |
| Delegation.DelegatesEndWell | minotaur_subnet/blockloop/order_processor.py:658-664 | neither orchestrator hands an order back as OPEN, which the theorems about runs ask for |
| Delegation.LegsTurn | minotaur_subnet/blockloop/loop.py:252-264 | a multi-leg order ends its turn with the executor's status, or rejected exactly if the executor left it executing or it is filled and its record raised |
| Delegation.BridgeTurn | minotaur_subnet/blockloop/order_processor.py:658-664 | a cross-chain order ends its turn with its submission's status, or rejected if that raised; one that went through ends rejected exactly if its record raised |
| Delegation.LegCallsAreBounded | minotaur_subnet/blockloop/multi_leg.py:83-356 | a multi-leg run calls the relayer at most once per leg reached and once per completed leg undone |
| Delegation.BridgeCallsAreBounded | minotaur_subnet/blockloop/cross_chain.py:74-149 | a cross-chain submission makes at most one call more than it has actions, and only its last call may be the EVM relayer's |
| ConsensusRetry.RejectionTime | minotaur_subnet/blockloop/order_processor.py:155-226 | two-sided bound: an order that keeps failing with headroom is never rejected before the retry budget's time and always before budget times spacing plus gap |
| ConsensusRetry.AttemptsRestOnFailures | minotaur_subnet/blockloop/order_processor.py:155-226 | in every run, with any pruning, rejections and successes in it, an entry of n attempts rests on n failures of its order, each at least the spacing after the one before, and n never exceeds the budget |
| ConsensusRetry.PruneKeepsTracked | minotaur_subnet/blockloop/order_processor.py:155-226 | pruning never resets an order that keeps failing |
| ConsensusRetry.RequeuedExactlyIf | minotaur_subnet/blockloop/order_processor.py:155-226 | a failed round requeues exactly if any deadline is more than sixty seconds away and attempts are left, or the last failure was less than a spacing ago; entries older than two hours are forgotten once the table exceeds 256 |
| ConsensusRetry.CountedExactlyIf | minotaur_subnet/blockloop/order_processor.py:155-226 | what a failed round leaves in the table, for its order and for every other |
| FeePolicy.MarginIsExact | minotaur_subnet/fee_policy.py:131-151 | the ceiling by which an uncapped fee exceeds gas is exact |
| FeePolicy.QuoteCertifies | minotaur_subnet/fee_policy.py:131-181 | exactly which later gas readings an uncapped quote certifies for |
| FeePolicy.BidCapIsLargest | minotaur_subnet/fee_policy.py:242-254 | the bid cap is the largest gas price whose spend stays within the fee, and zero without a gas estimate |
| FeePolicy.CertifiedFeeIsBiddable | minotaur_subnet/fee_policy.py:152-181 | a certified fee leaves a bid cap of at least the measured price |
| FeePolicy.FeesCoverGas | minotaur_subnet/fee_policy.py:152-181 | over any run of certified fills the fees cover the gas |
| FeePolicy.CertifiedExactlyIf | minotaur_subnet/fee_policy.py:152-181 | a locked fee is certified exactly if it is in the chain's range and at least the measured gas cost; exactly when each refusal comes instead |
| FeePolicy.QuoteExactly | minotaur_subnet/fee_policy.py:131-151 | a quote is the larger of the floor and the gas with its margin, cut at the maximum |
| FeePolicy.GasCosts | minotaur_subnet/fee_policy.py:131-181 | what gas costs, where a reading that is not positive costs nothing |
| LegPlans.LegRoundTrip | minotaur_subnet/shared/types.py:257-287 | a leg read back from its dictionary is the same leg |
| LegPlans.PlanRoundTrip | minotaur_subnet/shared/types.py:307-320 | a multi-leg plan read back from its dictionary is the same plan |
| LegPlans.MissingKeysDefault | minotaur_subnet/shared/types.py:272-320 | what a reader makes of dictionaries that leave out all they may, and which keys they must have |
| LegPlans.BridgeCallsExactly | minotaur_subnet/bridge/verifier.py:20-58 | a call is a bridge call exactly if its data, with or without 0x, begins with the listed selector |
| LegPlans.SaidExactly | minotaur_subnet/blockloop/multi_leg.py:107-168 | exactly which dictionary values count as true in a condition |
| BridgeRegistry.Registry.Register | minotaur_subnet/bridge/registry.py:23-26 | a second registration under one name replaces the first in its place |
| BridgeRegistry.Registry.BestQuote | minotaur_subnet/bridge/registry.py:42-85 | over adapters and routes alone, with the source chain the token names, if it names one: no answer exactly if every adapter with the route raised; otherwise the answer of the first adapter with the route that no other beats |
| BridgeRegistry.Registry.FindBridge | minotaur_subnet/bridge/registry.py:32-40 | exactly the registered adapters that have the route, in order of registration |
| BridgeRegistry.BestIsFirstMaximum | minotaur_subnet/bridge/registry.py:73-85 | no quote exactly if every adapter failed; otherwise the first among the best |
| BridgeRegistry.ServingIsSupport | minotaur_subnet/bridge/registry.py:32-40 | the adapters asked are exactly those that support the route |
| BridgeRegistry.BestOfServing | minotaur_subnet/bridge/registry.py:42-85 | the fold over the serving adapters is the first best answer among all adapters with the route |
| BridgeRegistry.ServingAdds | minotaur_subnet/bridge/registry.py:32-40 | the adapters of two registries together are those of the one, then those of the other |
| BridgeCompiler.CrossChainCompiler.Validate | minotaur_subnet/bridge/compiler.py:223-269 | an error is reported exactly for each flaw the plan has |
| BridgeCompiler.WellFormedMeansFlawless | minotaur_subnet/bridge/compiler.py:223-269 | a plan without flaws is exactly one whose requests join neighbouring legs and whose solvers call no bridge |
| BridgeCompiler.CrossChainCompiler.Compile | minotaur_subnet/bridge/compiler.py:52-221 | compilation succeeds exactly for well-formed plans whose requests can all be bridged, with the result in closed form; otherwise it names the first refusal |
| CompiledPlans.LegsFormAChain | minotaur_subnet/bridge/compiler.py:91-208 | 2n-1 forward legs, numbered consecutively, each depending on its predecessor |
| CompiledPlans.LegsAlternate | minotaur_subnet/bridge/compiler.py:91-169 | solver legs and bridge legs alternate, whatever type the solver's metadata claims |
| CompiledPlans.SolverWorkIsPreserved | minotaur_subnet/bridge/compiler.py:91-105 | dropping the bridge legs gives back the solver's work unchanged |
| CompiledPlans.SolverMetadataIsOverlaid | minotaur_subnet/bridge/compiler.py:100-104 | every key of a solver's metadata but the type and the platform flag is there with its value exactly if it was; those two are set |
| CompiledPlans.MocksMarkBridges | minotaur_subnet/bridge/compiler.py:145-147 | mocks exist for exactly the bridge legs, each as its adapter built it |
| CompiledPlans.BridgesCarryTheQuote | minotaur_subnet/bridge/compiler.py:125-169 | each bridge leg leaves from the chain of the leg before it with the calls built for it; its metadata hold the quote's protocol, tokens, amount, fee and estimate and the user as recipient; an explicit minimum is met |
| CompiledPlans.QuotesAreBest | minotaur_subnet/bridge/compiler.py:107-131 | each bridge is quoted by the first best of the adapters that serve its own source and destination and answered |
| CompiledPlans.RefusedExactlyIf | minotaur_subnet/bridge/compiler.py:107-143 | exactly when a request has no route, too low an output, an unregistered protocol, or calls that cannot be built, and which refusal comes first |
| CompiledPlans.CompiledExactlyIf | minotaur_subnet/bridge/compiler.py:52-221 | over adapters, routes and answers alone: a plan compiles exactly if it is well-formed and for each request the first best answer is enough, from a registered adapter, with calls that can be built; otherwise the first request that fails is named |
| CompiledPlans.LeastOutput | minotaur_subnet/bridge/compiler.py:125-131 | the least output accepted: the request's own, or 99 percent of the estimate, cut off |
| CompiledPlans.ReversibleExactlyIf | minotaur_subnet/bridge/compiler.py:182-206 | there is a way back exactly if some adapter for the reverse route answers and the calls can be built |
| CompiledPlans.RollbacksCarryTheWayBack | minotaur_subnet/bridge/compiler.py:182-206 | a rollback leg makes the calls built for the way back and names the bridge leg it undoes |
| CompiledPlans.EscrowsWaitAtTheDestination | minotaur_subnet/bridge/compiler.py:171-180 | each escrow names the leg after its bridge on the chain it leads to, the quoted token and amount, the user and order, and the job's deadline or two hours from now |
| CompiledPlans.RollbacksUndoBridges | minotaur_subnet/bridge/compiler.py:182-206 | rollback legs are for distinct bridge legs, start where these lead, and exist for exactly the bridges with a way back |
| CompiledPlans.NumbersStayApart | minotaur_subnet/bridge/compiler.py:192-193 | rollback and forward numbers are distinct exactly with no rollback or at most 100 forward legs |
| CompiledPlans.DefaultMinimumIsRelativeToTheQuote | minotaur_subnet/bridge/compiler.py:125-131 | without an explicit minimum a quote is refused exactly if its estimate is negative |
| CompiledPlans.ResultIsDetermined | minotaur_subnet/bridge/compiler.py:52-221 | the closed form determines the compiled plan |
| CompiledPlans.ScanOfCompiledLegs | minotaur_subnet/bridge/verifier.py:20-58 | validators accept every compiled solver leg, and a bridge leg exactly if its adapter's calls avoid the listed selectors |
| MultiLeg.MultiLegOrchestrator.Process | minotaur_subnet/blockloop/multi_leg.py:56-356 | the executor leaves exactly the status, result, relayer calls, records and hand-over of the run's report |
| MultiLeg.MultiLegOrchestrator.ExecuteRollback | minotaur_subnet/blockloop/multi_leg.py:358-426 | rollback legs of completed legs are submitted last leg first, and the status says whether one failed |
| MultiLeg.MultiLegOrchestrator.HandOff | minotaur_subnet/blockloop/multi_leg.py:107-150 | the order is bridging, and the tracker told, if it exists and there is a transaction |
| MultiLeg.MultiLegOrchestrator.ExecuteLeg | minotaur_subnet/blockloop/multi_leg.py:250-337 | how one leg ends, and that it is submitted only after scoring and consensus |
| MultiLeg.MultiLegOrchestrator.RunLegs | minotaur_subnet/blockloop/multi_leg.py:83-343 | the loop stops at the first leg that is not completed |
| MultiLegRuns.CallsOfARun | minotaur_subnet/blockloop/multi_leg.py:83-426 | every run submits the forward legs in order up to where it stops and, if it gives up, the rollback legs of the completed ones in reverse |
| MultiLegRuns.StopOfARun | minotaur_subnet/blockloop/multi_leg.py:83-356 | without hand-offs a run stops at the first leg that does not succeed, and raises exactly if that leg's scorer did, or all legs succeeded and their record did |
| MultiLegRuns.WaitsForClaims | minotaur_subnet/blockloop/multi_leg.py:107-150 | a leg waits exactly if some leg it depends on was completed before it and claims a bridge protocol |
| MultiLegRuns.PlansWithoutBridgesNeverWait | minotaur_subnet/blockloop/multi_leg.py:107-150 | a plan of which no forward leg claims a bridge protocol is never handed over |
| MultiLegRuns.StatusOfARun | minotaur_subnet/blockloop/multi_leg.py:344-426 | FILLED exactly if all legs succeed, PARTIAL_ROLLBACK exactly if an attempted rollback failed, otherwise ROLLED_BACK |
| MultiLegRuns.UndosAreReversed | minotaur_subnet/blockloop/multi_leg.py:378-413 | rollback calls are the forward-order list of rollback legs, reversed |
| MultiLegRuns.UnreachedIsNeverSubmitted | minotaur_subnet/blockloop/multi_leg.py:290-307 | a leg whose consensus was not reached is never submitted, nor any after it |
| MultiLegRuns.RaisedProposalIsNoConsensus | minotaur_subnet/blockloop/multi_leg.py:290-307 | a run in which proposing raises is the run without consensus |
| MultiLegRuns.BestScoreIsTheMaximum | minotaur_subnet/blockloop/multi_leg.py:236-239 | the recorded score is the largest on-chain score of any leg, or none was reported |
| MultiLegParts.SubmissionsExactly | minotaur_subnet/blockloop/multi_leg.py:172-307 | the relayer is told the plan's leg, the score, 0.6 for a simulated bridge and else the scorer's, and whether its validators agreed |
| MultiLegParts.BridgesExactly | minotaur_subnet/blockloop/multi_leg.py:156-168 | exactly which legs are taken for bridges, by mocks, metadata and call data |
| MultiLegParts.FilledRunsExactly | minotaur_subnet/blockloop/multi_leg.py:344-356 | filled exactly if all legs completed, and recorded once with the best score |
| MultiLegParts.HandOversExactly | minotaur_subnet/blockloop/multi_leg.py:107-150 | everything the bridge tracker is told at a hand-over |
| MultiLegParts.RolledBackBy | minotaur_subnet/blockloop/multi_leg.py:378-413 | a leg is rolled back by the first rollback leg that is for it |
| MultiLegParts.UndoFailsExactlyIf | minotaur_subnet/blockloop/multi_leg.py:378-426 | undoing a leg fails exactly if there is a rollback leg for it that does not go through |
| CompiledRuns.CompiledPlansEndAtTheBridge | minotaur_subnet/blockloop/multi_leg.py:107-150 | every run of a compiled plan is handed over right after the first bridge or gives up before; nothing leaves the first chain and no rollback leg is submitted |
| CompiledRuns.ChainEndsAtTheBridge | minotaur_subnet/blockloop/multi_leg.py:83-356 | the same for any chain of legs whose second is a bridge on the first one's chain |
| CompiledRuns.FirstLegHasNoRollback | minotaur_subnet/bridge/compiler.py:182-206 | no compiled rollback leg is for the first solver leg |
| CompiledRuns.CompiledBridgesAreRecognised | minotaur_subnet/blockloop/multi_leg.py:156-168 | every compiled bridge leg is recognised by its mock, and scored without the scorer once simulated |
| CompiledRuns.HandOffPartitionsTheLegs | minotaur_subnet/blockloop/multi_leg.py:120-150 | at the hand-over, done and remaining legs partition the plan, and the tracker is told exactly if it exists and there is a transaction |
| CrossChainSubmit.CrossChainOrchestrator.Submit | minotaur_subnet/blockloop/cross_chain.py:49-186 | the submission leaves exactly the report's status, calls, tracking and record |
| CrossChainSubmit.CallsInOrder | minotaur_subnet/blockloop/cross_chain.py:74-149 | the calls are the substrate actions up to the first failure; after all of them one relayer call with exactly the picked source interactions, if source legs name any that can be picked |
| CrossChainSubmit.RelayerComesLast | minotaur_subnet/blockloop/cross_chain.py:117-149 | the EVM relayer is called only after every substrate action succeeded, and last |
| CrossChainSubmit.CrossChainOrchestrator.RunSubstrate | minotaur_subnet/blockloop/cross_chain.py:74-107 | actions run in order up to the first that fails, with the status and calls they leave |
| CrossChainSubmit.TrackedTransaction | minotaur_subnet/blockloop/cross_chain.py:150-169 | the tracked hash is the source transaction, or else the last bridge deposit's extrinsic |
| CrossChainSubmit.SuccessIsRecordedOnce | minotaur_subnet/blockloop/cross_chain.py:150-186 | one recorded success exactly if True is returned, which is exactly if the order goes through and its record does not raise; if that raises, the order is left BRIDGING or FILLED; BRIDGING exactly if the tracker got a non-empty hash; REJECTED on refusal |
| CrossChainSubmit.SourcePlanIsASubsequence | minotaur_subnet/blockloop/cross_chain.py:118-134 | with non-negative indices the source plan is the duplicate-free, in-order subsequence its legs name |
| CrossChainSubmit.FilledWithoutACall | minotaur_subnet/blockloop/cross_chain.py:150-186 | exactly which orders are filled without any call |
| CrossChainLegs.ActionsAreAsked | minotaur_subnet/blockloop/cross_chain.py:66-83 | the actions executed are the concatenation, in order, of those of exactly the substrate legs, given by an independent fold |
| CrossChainLegs.IndicesAreNamed | minotaur_subnet/blockloop/cross_chain.py:69-121 | the source interactions are named by exactly the source legs not on the substrate, in order |
| CrossChainLegs.CallsAsAsked | minotaur_subnet/blockloop/cross_chain.py:74-149 | over the legs alone: nothing without a relayer; else the asked actions up to the first that fails, and, if none does, the named source interactions |
| CrossChainLegs.GoesThroughExactlyIf | minotaur_subnet/blockloop/cross_chain.py:74-149 | exactly when a submission gets as far as its record |
| CrossChainLegs.EndsWhenThrough | minotaur_subnet/blockloop/cross_chain.py:150-186 | then it is bridging exactly if there are a tracker and a transaction, which is the source's or that of the last bridge deposit; filled otherwise |
| CrossChainLegs.StopsAtAction | minotaur_subnet/blockloop/cross_chain.py:83-107 | a refused action rejects the order; one that raises leaves it unstaking or as it was |
| CrossChainLegs.StopsAtSource | minotaur_subnet/blockloop/cross_chain.py:117-149 | the same for the EVM source call |
| CrossChainLegs.NeedsARelayer | minotaur_subnet/blockloop/cross_chain.py:109-116 | substrate legs without a relayer are rejected |
| DelegatedStaking.BittensorProxyExecutor.ExecuteRequest | minotaur_subnet/blockchain/bittensor_proxy_executor.py:396-452 | the record that results from the policy, the proxy check and the chain's answer |
| DelegatedStaking.AcceptedIff | minotaur_subnet/blockchain/bittensor_proxy_executor.py:175-263 | a request is accepted exactly if it is within its permission (owner, delegate, status, expiry, action, cap per action, every subnet and validator it names, where a list restricts them), no counted submission is within the cooldown, and the amount has room in the day |
| DelegatedStaking.ResultExactly | minotaur_subnet/blockchain/bittensor_proxy_executor.py:396-452 | confirmed exactly if the request is acceptable, the proxy valid, the call prepared and the answer positive; rejected exactly if not acceptable or the proxy not valid; failed otherwise |
| DelegatedStaking.TotalIsSent | minotaur_subnet/blockchain/bittensor_proxy_executor.py:253-263 | the day's total is the independent fold over counted submissions of the last 24 hours |
| DelegatedStaking.DailyCapHolds | minotaur_subnet/blockchain/bittensor_proxy_executor.py:241-263 | over every run whose calls are handed records that count at least the last day's confirmed amounts, every closed 24-hour window stays within the cap |
| DelegatedStaking.UntoldCallsBreakTheCap | minotaur_subnet/blockchain/bittensor_proxy_executor.py:253-263 | of the requests that pass all other checks, the next is accepted and exceeds the cap exactly if it fits the room the records show and not the room that is left; there is such an amount exactly if the records count too little |
| DelegatedStaking.PrunedHistoryTells | minotaur_subnet/blockchain/bittensor_proxy_executor.py:241-263 | a history from which only records older than a day and than the cooldown were dropped is enough for cap and cooldown |
| DelegatedStaking.CooldownHolds | minotaur_subnet/blockchain/bittensor_proxy_executor.py:241-252 | over every run, a confirmed submission whose records show the last cooldown's successes is at least the cooldown after any earlier one |
| DelegatedStaking.SubmittedWasPermitted | minotaur_subnet/blockchain/bittensor_proxy_executor.py:184-239 | whatever records it is handed, a call that is not rejected was within its permission: owner, delegate, status, expiry, action, per-action cap, subnets and validators |
| DelegatedStaking.RecordsOfARun | minotaur_subnet/blockchain/bittensor_proxy_executor.py:396-452 | confirmed amounts are positive and no record stays half-way |
| DelegatedStaking.WithoutHistoryNothingAccumulates | minotaur_subnet/relayer/substrate_relayer.py:106-153 | handed no records, or the same ones each time, a request that succeeds once succeeds any number of times at one instant |
| RoundCoordinator.Coordinator.Tick | minotaur_subnet/api/startup.py:4001-4119 | one tick of the coordinator takes exactly the first step that applies |
| RoundCoordinator.Coordinator.MaybeClose | minotaur_subnet/api/startup.py:3249-3376 | closing sets close, deadline and effective epoch from the slate, for a leader and an elapsed open round only |
| RoundCoordinator.Coordinator.MaybeAbortExpired | minotaur_subnet/api/startup.py:3218-3247 | the reaper aborts exactly undecided rounds past their deadline, for a leader |
| RoundCoordinator.Coordinator.EvaluateRound | minotaur_subnet/epoch/manager.py:469-731 | evaluation replays, defers, names a finalist, or aborts and reopens |
| RoundCoordinator.Coordinator.CertifyRound | minotaur_subnet/api/startup.py:3378-3602 | certification waits, blocks, aborts with the fleet, or certifies before the deadline |
| RoundCoordinator.Coordinator.ActivateRound | minotaur_subnet/epoch/manager.py:733-1059 | activation freezes, defers, aborts or adopts, and opens the next round |
| RoundCoordinator.Coordinator.FollowingEpoch | minotaur_subnet/api/startup.py:3186-3201 | the next opening epoch is the latest of clock, champion, manager and current round |
| RoundCoordinator.Coordinator.BoundaryOf | minotaur_subnet/api/startup.py:3203-3206 | the boundary epoch of a closed and of an open round |
| RoundCoordinator.Coordinator.CompleteRound | minotaur_subnet/epoch/manager.py:2729-2763 | the round is aborted, and the next opened unless the process dies in between |
| RoundCoordinator.Coordinator.Run | minotaur_subnet/api/startup.py:4001-4135 | the loop is the fold of its ticks |
| RoundSteps.RunsGoOn | minotaur_subnet/api/startup.py:4001-4135 | a run is its ticks, one after the other |
| RoundRuns.RunsAreSound | minotaur_subnet/api/startup.py:4001-4135 | over every run, with any leaders and answers, the history of rounds stays sound |
| RoundRuns.DeadlineBeforeActivation | minotaur_subnet/api/startup.py:3333-3364 | the deadline precedes activation exactly if the window is not negative or the delay is at least two |
| RoundRuns.OneRoundUnderWay | minotaur_subnet/harness/round_store.py:513-551 | in a sound history every round but the last is over |
| RoundRuns.RoundsOpenInOrder | minotaur_subnet/api/startup.py:3186-3201 | opening epochs never decrease, repeat only after an evaluation abort at the opening epoch, and lead the clock by at most the predecessor's activation delay |
| RoundRuns.DecisionsAreTimely | minotaur_subnet/api/startup.py:3333-3364 | closed rounds have opened <= close < deadline < effective; certified by the deadline, activated no earlier than the effective epoch |
| RoundRuns.ReopeningAfterEvaluation | minotaur_subnet/epoch/manager.py:2729-2763 | after an evaluation abort the next round opens at the clock, later exactly if the clock moved |
| RoundRuns.FollowersOnlyOpen | minotaur_subnet/api/startup.py:3218-3247 | a node that never leads closes, aborts, evaluates, certifies and activates nothing |
| RoundRuns.CertifiedOnlyInTime | minotaur_subnet/api/routes/submissions/champion_consensus.py:1296-1324 | a round becomes certified only in a tick of a leader that found its deadline unexpired |
| RoundRuns.ActivatedOnlyWhenDue | minotaur_subnet/api/startup.py:3604-3644 | activation happens only from CERTIFIED, by a leader, at the effective epoch or later, with the merge done |
| RoundRuns.UnknownOutcomesAreNotDeferred | minotaur_subnet/epoch/manager.py:846-966 | a failed finalize is deferred exactly when it is transient and within the grace period; otherwise the round is aborted |
| RoundSteps.ActivatedExactlyIf | minotaur_subnet/epoch/manager.py:733-1059 | a certified round becomes active exactly if the leader acts at its epoch or later, adoption is not frozen, the submission is known and merged, the node may adopt and the swap goes through; then it is the champion and the next round opens there |
| RoundSteps.NotActivatedExactlyIf | minotaur_subnet/epoch/manager.py:733-1059 | exactly when it is aborted as frozen, not merged or gated, and when it stays certified |
| RoundSteps.CertifiedExactlyIf | minotaur_subnet/api/startup.py:3378-3602 | a round with a finalist is certified exactly if asked, allowed, signed and in time; aborted exactly if vetoed or given up by the fleet |
| RoundSteps.NothingToCertify | minotaur_subnet/api/startup.py:3378-3602 | in any state: without a finalist, or with a certificate already, nothing is certified |
| RoundSteps.NothingWithoutACertificate | minotaur_subnet/epoch/manager.py:733-1059 | in any state: without a certificate a certified round is neither activated nor aborted |
| RoundSteps.DeferredExactlyIf | minotaur_subnet/epoch/manager.py:846-966 | in any state, exactly when a failed finalize is deferred: unknown and before the deadline, or transient and within grace of certificate or effective epoch |
| RoundSteps.EvaluatedExactlyIf | minotaur_subnet/epoch/manager.py:469-731 | what becomes of a closed round: it waits for its close epoch and the leader, then each evaluation answer has its outcome |
| RoundSteps.ReapedExactlyIf | minotaur_subnet/api/startup.py:3218-3247 | an undecided round past its deadline is aborted by a leader, and only for that |
| RoundSteps.ClosedExactlyIf | minotaur_subnet/api/startup.py:3249-3376 | an open round is closed exactly by a leader when its time is up, with close, deadline and effective epoch each the largest of named terms |
| RoundSteps.WindowGrows | minotaur_subnet/api/startup.py:3333-3364 | the decision window grows with the slate and is never below its floor |
| RoundSteps.NextEpochIsLatest | minotaur_subnet/api/startup.py:3186-3201 | the next opening epoch is one of, and not before any of, the clock, champion, manager and current round |
| RoundSteps.BoundaryIsLatest | minotaur_subnet/api/startup.py:3203-3206 | the boundary of a closed round is the later of its close and the clock, that of an open one the next opening epoch |
| RoundSteps.FirstRoundOpens | minotaur_subnet/api/startup.py:4001-4119 | without any round, a tick opens the first at the latest of clock, champion and manager, and goes on with it |
| RoundSteps.OpensAfterTheLast | minotaur_subnet/api/startup.py:4001-4119 | after a round that is over a tick opens the next, and does nothing else |
| RoundSteps.EarlierRoundsStay | minotaur_subnet/harness/round_store.py:513-551 | no tick touches a round before the current one |
| LeaderSync.PullAll | minotaur_subnet/blockloop/quote_sync.py:81-98 | the paging loop ends for any finite set of ids, and pulls what its specification says |
| LeaderSync.Follower.SyncQuotes | minotaur_subnet/blockloop/quote_sync.py:62-140 | a raise changes nothing; otherwise the table is the upserted pull without the rows it lacked |
| LeaderSync.Follower.SyncOrders | minotaur_subnet/blockloop/order_sync.py:58-107 | the same pull, upserted, with nothing deleted |
| LeaderSync.StableLeaderIsPulled | minotaur_subnet/blockloop/quote_sync.py:81-98 | a stable paginating leader is pulled completely |
| LeaderSync.UnpagedLeaderIsPulled | minotaur_subnet/blockloop/quote_sync.py:77-98 | a leader that ignores limit and offset is pulled completely, and once |
| LeaderSync.MirrorIsExactAndIdempotent | minotaur_subnet/blockloop/quote_sync.py:62-140 | the follower's table becomes exactly the leader's, and a second sync changes nothing |
| LeaderSync.HoldsEachRow | minotaur_subnet/blockloop/quote_sync.py:104-140 | the leader's table has each row's data under its id and nothing else |
| LeaderSync.MirrorIsExactExactlyIf | minotaur_subnet/blockloop/quote_sync.py:81-140 | for every catalogue, failing request, set of lost saves and reconcile outcome, exactly when the follower's table equals the leader's |
| LeaderSync.FailedPageDeletes | minotaur_subnet/blockloop/quote_sync.py:81-140 | after a failed later page the table holds exactly the earlier pages |
| LeaderSync.EmptyPullChangesNothing | minotaur_subnet/blockloop/quote_sync.py:99-104 | an empty pull saves and deletes nothing |
| LeaderSync.OrdersAreAdded | minotaur_subnet/blockloop/order_sync.py:93-107 | order sync overlays the leader's rows, keeps all others, and is idempotent |
| LeaderSync.PulledExactly | minotaur_subnet/blockloop/quote_sync.py:81-98 | whatever is served, and whether or not it changes: only rows with a new, non-empty id that some page served, and all such rows of the first page |
| RpcBackoff.Caller.Retry | minotaur_subnet/rpc_backoff.py:205-260 | the driver makes exactly the attempts up to the last one and returns its outcome; the trailing raise is unreachable |
| RpcBackoff.Caller.Request | minotaur_subnet/blockchain/web3_retry.py:86-99 | a write reaches the provider exactly once; a read is retried |
| RpcBackoff.LastIsFirstFinal | minotaur_subnet/rpc_backoff.py:238-257 | the driver stops at the first attempt that is final, and only there |
| RpcBackoff.LastExactlyIf | minotaur_subnet/rpc_backoff.py:236-257 | the last attempt is exactly the first after which none is left, or whose outcome cannot be retried, or that ends at or after the deadline, counting all attempts and pauses |
| RpcBackoff.WithoutDeadline | minotaur_subnet/rpc_backoff.py:238-257 | without a deadline the last attempt is exactly the first outcome that cannot be retried, or the last allowed |
| RpcBackoff.DeadlineOnlyShortens | minotaur_subnet/rpc_backoff.py:250-253 | a deadline only cuts attempts short, and every earlier outcome could be retried |
| RpcBackoff.AttemptsBeginInTime | minotaur_subnet/rpc_backoff.py:183-257 | no later attempt begins after the deadline plus one longest pause |
| RpcBackoff.AttemptsAreSpaced | minotaur_subnet/rpc_backoff.py:178-192 | attempts are at least the minimal pause apart |
| RpcBackoff.DelayIsBounded | minotaur_subnet/rpc_backoff.py:183-192 | a pause lies between the minimum and one and a half caps |
| RpcBackoff.RetriedExactlyIf | minotaur_subnet/rpc_backoff.py:78-176 | exactly which raised errors are retried: connection errors; status 429, 500 and 502 to 504; without a status, code -32005; without either, transport and system errors |
| RpcBackoff.ResponseRetriedExactlyIf | minotaur_subnet/blockchain/web3_retry.py:63-99 | a returned response is retried exactly if it carries code -32005 |
| RpcBackoff.PausesDouble | minotaur_subnet/rpc_backoff.py:178-192 | a pause starts at the base, doubles up to the cap, is scaled by the jitter, and is never below 20 milliseconds |
| RpcBackoff.AttemptsAreBounded | minotaur_subnet/rpc_backoff.py:205-260 | at least one attempt is made, at most as many as configured, and exactly as many if all can be retried and there is no deadline |
| RpcBackoff.WritesAreSentOnce | minotaur_subnet/blockchain/web3_retry.py:42-60 | which calls are never repeated: the eight listed and those of the six listed prefixes |
| WeightPolicy.RampSumsToOne | minotaur_subnet/weight_policy.py:140-171 | with a known owner the weights always sum to one |
| WeightPolicy.RampWeights | minotaur_subnet/weight_policy.py:157-171 | every miner's and the owner's weight, in terms of the input |
| WeightPolicy.RampKeepsRatios | minotaur_subnet/weight_policy.py:157-171 | ratios among miners are kept, even if the owner appears as a miner |
| WeightPolicy.RampIsAProjection | minotaur_subnet/weight_policy.py:121-171 | after any positive fraction a second ramp depends on its own fraction only |
| WeightPolicy.RampAfterZero | minotaur_subnet/weight_policy.py:121-171 | exactly when re-ramping after fraction zero gives the same weights |
| WeightPolicy.OwnersShare | minotaur_subnet/weight_policy.py:140-171 | with some miner of weight, the owner gets what the fraction, cut to the unit interval, leaves |
| WeightPolicy.RampEdges | minotaur_subnet/weight_policy.py:140-171 | nothing is ramped without weights or owner; without a miner of weight the owner takes all |
| WeightPolicy.BootstrapSplits | minotaur_subnet/weight_policy.py:174-197 | who gets what with and without a champion and an owner |
| RegistryCache.AppRegistryCache.Look | minotaur_subnet/consensus/app_registry_cache.py:82-93 | the first half of a lookup, and the read behind every cached answer |
| RegistryCache.AppRegistryCache.Settle | minotaur_subnet/consensus/app_registry_cache.py:95-138 | the second half: what is stored and returned for each reply |
| RegistryCache.AppRegistryCache.ClearCache | minotaur_subnet/consensus/app_registry_cache.py:141-144 | the cache is emptied and stays valid |
| RegistryCache.RunsAreSound | minotaur_subnet/consensus/app_registry_cache.py:68-138 | under every interleaving each entry repeats a real read and each answer is justified by one |
| RegistryCache.RefusedOnlyByTheRegistry | minotaur_subnet/consensus/app_registry_cache.py:82-138 | False only if the registry said so in a read of this call or one begun less than five seconds before it |
| RegistryCache.AcceptedWithReason | minotaur_subnet/consensus/app_registry_cache.py:82-138 | True only without enforcement or by such a read that did not refuse |
| RegistryCache.OrderlyReadsNeverGoBack | minotaur_subnet/consensus/app_registry_cache.py:87-138 | in every run, no entry is ever set back exactly if between two clears the reads of each key are stored in the order in which they began |
| RegistryCache.SlowReadOverwrites | minotaur_subnet/consensus/app_registry_cache.py:87-138 | for all times in question, a run in which a stored refusal is overwritten by a slower, older read |
| RegistryCache.StepsExactly | minotaur_subnet/consensus/app_registry_cache.py:82-138 | what each step of an interleaving stores and answers, with the literal age and reply |

## Left out

- Order records are values in a map under their id; the aliasing of the book's mutable objects is
  modelled by that id.
- One clock reading serves a whole pass and a whole coordinator tick; only the deadline check inside
  certification reads the clock again.
- Changes made through the API while a tick runs, other than cancels before, between and after its turns;
  a cancel within a turn, up to SOLVED, is overwritten by that turn.
- What a follower's synced copies hold when it takes over is a parameter, not derived from the sync's timing.
- The relayer calls of delegated settlements (multi-leg and legacy cross-chain) are bounded by their own
  models and not counted in the block loop's ledger.
- OrderRuns.CallsStayWithinCap: assumes that some save of each turn lands before its relayer call; without
  it the bound fails (SingleOrderRuns.LostSavesCallTwice).
- Overruns.BoundedExactlyIf: assumes the same, and a positive clock that does not run backwards; it does
  not ask that a turn be over before the next tick's snapshot.
- OrderSafety.SafeExactlyIf: is about one turn from a sound state; runs are covered turn by turn.
- The retry table is lost on restart, so the retry time bound is about one process. Its strict upper half
  needs a positive spacing.
- The bridge tracker, and how it resumes an order after the hand-over.
- Calldata, signatures, hashes, error texts, the policy assessment record, best scores of orders and
  transaction hashes stored with them.
- The multi-leg model does not record every intermediate store save, only the final status and the
  relayer, tracker and statistics calls.
- Simulation is a parameter; how mocks change the simulated calls is not modelled.
- Bridge adapters: quotes, calls and mock settings are whatever they answer. Which adapter builds the
  reverse calls is not modelled, only whether they exist.
- Float rounding: times, scores and weights are reals; the 99% of a quote is truncated exactly.
- verify_proxy: a boolean answer. Requests are executed one at a time.
- The veto gate, the ranking of submissions, champion consensus, broadcasts, pack hashing and the file
  behind the round store: abstract answers, or not modelled. Round identifiers are positions.
- Rounds adopted, aborted or re-certified by a follower from the leader's broadcasts.
- Page contents that change during a pull; SQLite, HTTP and JSON.
- The asynchronous retry driver, which is the synchronous one with cancellation never retried.
- Registry configuration that changes between the two halves of a lookup; lower-casing of addresses.
- RoundRuns.RunsAreSound: assumes a clock that starts at one or later and never runs backwards.
- DelegatedStaking.DailyCapHolds: assumes the clock does not run backwards between check and submission.
