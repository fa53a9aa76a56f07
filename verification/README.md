# Verification model of the trading gateway

The gateway takes order commands from a Redis stream, checks them against a kill switch and risk caps, writes a row
to `order_log`, and places the order at an exchange; a reconcile pass keeps the rows in step with the exchanges. Beside
it a WebSocket hub fans events out to browsers, stream readers feed the hub, a token gate guards mainnet trading, an
envelope layer seals the exchange credentials, a rate limiter paces outgoing requests, and a browser client keeps its
subscriptions across reconnects. This project states what these parts promise and proves it for every input, every run
or every reachable state.

Code that steps through shared state appears twice: as a pure step machine over which runs are quantified, and as a
class or method that is proved to take exactly those steps.

| file | part |
|---|---|
| `Prelude.dfy`, `OrderTypes.dfy` | options, sums over maps and sequences, order records |
| `ClientOrderId.dfy`, `Precision.dfy` | the hashed identity of an order; rounding to a venue's precision |
| `OrderEngine.dfy` | the order protocol: workers that each make one external call per step, in any interleaving |
| `OrderSafety.dfy`, `OrderGates.dfy`, `OrderIdentity.dfy` | idempotence, write-ahead, outcomes, the halt bound; what every call passed; what a refused duplicate means |
| `OrderBooks.dfy`, `OrderCaps.dfy`, `OrderPaths.dfy` | what the portfolio query counts; the overshoot of the caps; runs that reach the exchange and the bounds |
| `OrderProcess.dfy` | one command processed alone, and the class `Engine` that does it |
| `Reconcile.dfy` | the reconcile pass as a function of what it is answered, and its nested loops |
| `HubModel.dfy`, `HubRuns.dfy`, `HubEffects.dfy`, `Hub.dfy` | the hub's two indexes and upstream generations; whole runs; the effect of each event; the heap of objects |
| `StreamReaders.dfy`, `StreamStarts.dfy` | the cursor loops of the four gateway sources and the two progress streams; where they begin and how far a read goes |
| `MainnetGate.dfy` | the token store and what its history says |
| `TokenBucket.dfy`, `TokenBucketLaws.dfy`, `Limiters.dfy` | eager and lazy token buckets, their laws, the two limiters |
| `HubClientModel.dfy`, `HubClientRuns.dfy`, `HubClientLife.dfy`, `HubClient.dfy` | the browser's client: steps, runs, connecting and reconnecting, the object |
| `Base64.dfy`, `Envelope.dfy` | section 4 of RFC 4648 as Go reads it; sealed messages and two-layer envelopes |
| `RecentResources.dfy` | the recently visited list against the full history |

## Assumptions

* Repositories, exchanges and Redis are atomic steps that may fail. A write may also be torn: it takes effect although
  the caller sees an error. Inserting into `order_log` is unique by identifier. Logs only grow.
* The hash of an order's identity is any function. No result needs it to be free of collisions: two commands that
  collide are treated as duplicates.
* AES-GCM is a pair of functions; `Envelope.Sound` says what is assumed of it, and `Envelope.SoundIsPossible` that the
  assumption can be met.
* Clocks, random bytes and resolver answers are arguments. The token store's times never leave the process, where Go
  compares them by their monotonic readings, so that the premise `MainnetGate.Forward` always holds of it and its laws
  are unconditional for the program. The limiters' and the recent list's clocks may step back; their results say what
  then holds.
* Amounts and times of the rate limiter and the order engine are real numbers.

## What does not hold as one might expect

Each of these is stated by a lemma below.

* **The portfolio caps can be overshot** in the store itself: by one order per further worker (`CapOvershoot`, reached
  with equality by `OvershootIsReached`), and beyond that in exactly two ways (`RunSlackIff`). An order whose limit price
  is above its mark price is checked at the mark and booked at the limit; the engine never compares the two, and one
  worker with no status write at all exceeds the cap exactly then (`PriceAboveMarkOvershoots`, `ExcessIff`). And status
  writes take no check: one that re-opens a row, or gives it back more to fill, raises what is booked (`RaiseIff`,
  `ReopeningOvershoots`); the reconcile pass writes `unknown` before it may write an open status again. Without such
  orders, and with no writer but the engine, one worker keeps the cap (`EngineAloneOvershoot`). An order without a limit
  price counts for nothing (`MarketOrdersAreNotBooked`), and the booked amount is the checked one exactly when the order
  is checked at its own price (`BookedAtCheckedNotional`).
* **The halt bound needs the system repository to be wired** (`HaltNeedsTheSystemRepository`).
* **An identity field with a bar in it can collide** (`BarAlwaysCollides`), whatever the hash is.
* **Reconciliation overwrites only with non-zero values**: a local fill stays where the exchange reports none. One failed
  listing abandons the pass for all accounts, so one account's failure does affect another's rows exactly then
  (`IsolationExactly`). A row once `unknown` is never visited again (`ClosedRowsStay`), and rows whose account is no
  longer listed are never visited (`Verdict` leaves them).
* **Authorised delivery needs fresh session ids** (`FreshIdsAreNeeded`, `ReRegistering`).
* **The Redis limiter may sleep twice** when the stored time stamp lies ahead of the caller's clock
  (`OneSleepIsEnoughIff`), and backward clock steps are earned again (`BackwardStepsAreEarnedAgain`).
* **Sixteen malformed entries in a row stop the backtest and optimization sources for good** (`StuckForGood`).
* **The event of an order rejected after its row was inserted reaches no strategy topic**
  (`LateRejectionsAreNotForwarded`).
* **A subscription while a reconnect is pending leads to two live sockets** (`StrayMakesTwo`); the commands on the held
  socket agree with the listeners even then (`ToldIffListening`).
* **A stored recent list that repeats a resource** can lose an entry that the full history would show; at each visit
  exactly when the resource stood twice among the five and something else was cut off (`PushRefinesIff`).

Where comments and code disagree the model follows the code:

* `deriveClientOrderID` is documented as hashing a nonce as a fifth field; the code hashes four fields, and the nonce
  replaces the second when there is no producer key.
* `roundToPrecision` is documented as truncating; it rounds half away from zero.
* `SetOwnerResolver` is documented as failing closed; a kind without a resolver is not checked.
* The in-memory bucket's comment says that a refused caller is always admitted after its sleep; that is so only if nobody
  else takes the tokens.
* The comment on a failed final write says that the reconcile pass will repair it; it does for a row still open.

## Model

| member | source | states |
|---|---|---|
| OrderSafety.RunKeeps | gateway/internal/orderengine/engine.go:372-596 | every run keeps the inductive invariant: rows are owned by one worker, sends are first sends, finals match acknowledgements, identifiers derive from the command |
| OrderSafety.PlacedAtMostOnce | gateway/internal/orderengine/engine.go:486-581 | in every interleaving, with duplicates and re-sent commands, no order identifier reaches an exchange twice |
| OrderSafety.PlacedOncePerCommand | gateway/internal/orderengine/engine.go:684-703 | two calls never carry commands with the same strategy, symbol, side and non-empty producer key |
| OrderSafety.WrittenAhead | gateway/internal/orderengine/engine.go:507-577 | at the moment an order is sent its row is in the log, with the command's own fields |
| OrderSafety.OutcomesAreConserved | gateway/internal/orderengine/engine.go:507-620 | when store writes succeed every inserted order is in flight, rejected without acknowledged placement, or acknowledged once with its result recorded |
| OrderSafety.RowShowsOutcome | gateway/internal/orderengine/engine.go:582-620 | the row itself shows that outcome until another writer touches it |
| OrderSafety.HaltBoundsPlacements | gateway/internal/orderengine/engine.go:373-390 | from a halt to the next resume at most as many placements as workers already past the switch, hence at most W |
| OrderPaths.HaltBoundIsTight | gateway/internal/orderengine/engine.go:373-390 | from idle workers with an unhindered command each, a run leads to a halted engine whose workers all still place an order |
| OrderPaths.HaltNeedsTheSystemRepository | gateway/internal/orderengine/engine.go:378-390 | without the repository a halted engine with idle workers still places an order |
| OrderPaths.UnhinderedIsPlaced | gateway/internal/orderengine/engine.go:372-581 | with any wiring, a new command that the switch, the gate and the caps let pass is sent exactly once, at its own quantity and price |
| OrderPaths.AdministrationTakesEffect | gateway/internal/orderengine/engine.go:378-472 | after a halt, a new strategy, new limits and a resume, the next command is judged by those and sent |
| OrderSafety.CallsUseTheirIdentity | gateway/internal/orderengine/engine.go:684-703 | in every run a call with a producer key goes out under the hash of `strategyId`, key, symbol and side joined by bars |
| OrderIdentity.RefusedIffSameIdentity | gateway/internal/orderengine/engine.go:507-517 | with a collision-free hash and fields without bars, an insert with a producer key that does not look generated is refused as a duplicate iff a command of the same identity was inserted before |
| ClientOrderId.PreImageInjective | gateway/internal/orderengine/engine.go:692-700 | the hashed text determines strategy, key, symbol and side when only the key may hold bars |
| ClientOrderId.BarAlwaysCollides | gateway/internal/orderengine/engine.go:692-700 | a bar in strategy, symbol or side lets a different command hash the same text |
| ClientOrderId.NonceSeparates | gateway/internal/orderengine/engine.go:684-691 | commands without a key that draw different nonces never share a hashed text |
| ClientOrderId.DecimalIsRead | gateway/internal/orderengine/engine.go:689 | the nonce's digits read back as the nonce |
| OrderIdentity.KeylessIsNeverRefused | gateway/internal/orderengine/engine.go:679-691 | until the 64-bit nonce wraps around, a command without a producer key gets an identifier that no row has |
| Precision.RoundingIsCloseAndStable | gateway/internal/orderengine/engine.go:779-788 | the request differs by at most half a step, and rounding again changes nothing |
| Precision.RoundsToTheLastPlace | gateway/internal/orderengine/engine.go:775-788 | the result is a whole number of units of the decimal place, clamped to 0 to 12, at most half a unit away, with ties away from zero |
| OrderGates.EveryCallIsVetted | gateway/internal/orderengine/engine.go:392-577 | every call of every run carries a command of a live strategy, configured at some time with account and all three risk caps, within its position cap; its row names that strategy's user, account and mode and the command's symbol, quantity and price; the call has those, up to the venue's rounding |
| OrderBooks.PositionsAreCounted | gateway/internal/store/mongo/order_repo.go:303-345 | the count is the number of the user's rows that are new or partly filled |
| OrderBooks.NotionalIsSummed | gateway/internal/store/mongo/order_repo.go:303-345 | the notional is the sum over those rows of unfilled quantity times the row's price |
| OrderBooks.OneRowMoreNotional | gateway/internal/store/mongo/order_repo.go:303-345 | one row more adds that amount if it is an open row of the user, partly filled rows included, and nothing otherwise |
| OrderCaps.CapOvershoot | gateway/internal/orderengine/engine.go:440-507 | whatever W workers and other writers do and whatever is submitted, what is booked stays within cap, W−1 largest orders, what status writes raised and what orders above their mark exceeded; for notional and for count |
| OrderCaps.RaiseIff | gateway/internal/store/mongo/order_repo.go:130-160 | a status write raises what is booked iff it re-opens the user's row or gives it back more to fill (for a negative price, less) |
| OrderCaps.ExcessIff | gateway/internal/orderengine/engine.go:410-418 | an order is booked above what it was checked at iff its limit price is above the price it was checked at |
| OrderCaps.RunSlackIff | gateway/internal/orderengine/engine.go:440-620 | a run adds nothing to the bound iff every status write is calm and every inserted order is within its mark |
| OrderCaps.OrderlyOvershoot | gateway/internal/orderengine/engine.go:440-507 | in runs of that kind the overshoot is at most W−1 largest orders |
| OrderCaps.OneWorkerKeepsTheCap | gateway/internal/orderengine/engine.go:454-472 | with one worker, in runs of that kind the cap is kept |
| OrderCaps.EngineAloneOvershoot | gateway/internal/orderengine/engine.go:440-620 | every run from the first start with no other writer and orders priced between zero and their mark is of that kind: W−1 orders over at most, none with one worker |
| OrderPaths.OvershootIsReached | gateway/internal/orderengine/engine.go:454-507 | workers that all query before any inserts all insert, and the store then books exactly the bound, above the cap for more than one worker |
| OrderPaths.PriceAboveMarkOvershoots | gateway/internal/orderengine/engine.go:410-507 | an order checked into exactly the room that is left is booked within the cap iff its limit price is at most its mark price |
| OrderCaps.ReopeningOvershoots | gateway/internal/store/mongo/order_repo.go:130-160 | re-opening a closed row raises what is booked without any check |
| OrderCaps.BookedAtCheckedNotional | gateway/internal/store/mongo/order_repo.go:303-345 | the store books the checked amount exactly when the order is checked at its own price |
| OrderCaps.MarketOrdersAreNotBooked | gateway/internal/store/mongo/order_repo.go:303-345 | an order without a limit price changes nothing that the next check sees |
| OrderProcess.SoloIsARun | gateway/internal/orderengine/engine.go:372-596 | a command processed alone is one of the protocol's runs |
| OrderProcess.CommandOutcome | gateway/internal/orderengine/engine.go:507-620 | a command processed alone leaves no trace, a rejected row, or one acknowledged call with its result |
| OrderProcess.Engine.SumOpen | gateway/internal/store/mongo/order_repo.go:303-345 | one pass over the log computes the number of open rows of the user and the sum of their unfilled notional |
| OrderProcess.Engine.RiskGate | gateway/internal/orderengine/engine.go:378-435 | passes exactly when the switch is readable and off, the strategy exists and passes its gate, and the loss lookup succeeds above its cap; takes the protocol's steps |
| OrderProcess.Engine.CapsGate | gateway/internal/orderengine/engine.go:454-472 | passes exactly when the query succeeds and both caps leave room for this order |
| OrderProcess.Engine.PortfolioGate | gateway/internal/orderengine/engine.go:440-484 | passes exactly when every lookup that a cap needs succeeds and no cap is exceeded; takes the protocol's steps |
| OrderProcess.Engine.InsertRow | gateway/internal/orderengine/engine.go:487-520 | exactly a successful insert of a new identifier goes on, the row carries the fields of command and strategy, and a duplicate leaves the log as it was; takes the protocol's steps |
| OrderProcess.Engine.ApplyMeta | gateway/internal/orderengine/engine.go:540-568 | rejects exactly an order below the venue's minimum; otherwise both numbers are rounded, or unchanged without metadata |
| OrderProcess.Engine.PlaceOrder | gateway/internal/orderengine/engine.go:570-581 | exactly one call is recorded, and an acknowledgement if it succeeded |
| OrderProcess.Engine.UpdateStatus | gateway/internal/store/mongo/order_repo.go:130-160 | a status write changes its own row only, field by field where the report is not zero, and takes the protocol's step |
| OrderProcess.Engine.Submit | gateway/internal/orderengine/engine.go:522-596 | exactly a built adapter and an order above the venue's minimum lead to one call of this order, and no other row changes; takes the protocol's steps |
| OrderProcess.Engine.ProcessCommand | gateway/internal/orderengine/engine.go:372-596 | the engine ends in exactly the state that the protocol gives to the same replies |
| Reconcile.Reconciler.ReconcileOnce | gateway/internal/orderengine/reconcile.go:45-65 | the pass computes `Outcome`, visits every row it can reach exactly once, and fails exactly if accounts or one of their listings cannot be read |
| Reconcile.Reconciler.CollectOpenByAccount | gateway/internal/orderengine/reconcile.go:70-93 | the open rows of every listed account, or nothing at the first failed listing |
| Reconcile.Reconciler.ReconcileAccount | gateway/internal/orderengine/reconcile.go:95-163 | grouping by mode and symbol visits each row of the account once |
| Reconcile.Reconciler.ReconcileMissingLocal | gateway/internal/orderengine/reconcile.go:167-213 | a missing row gets its verdict, through the two writes and the exchange's answer |
| Reconcile.VerdictEndings | gateway/internal/orderengine/reconcile.go:167-213 | a missing row ends `unknown` iff it could be marked and no other report was recorded, and equals the report iff no zero value hides a local one; with the ending of each failed call |
| Reconcile.VerdictInFull | gateway/internal/orderengine/reconcile.go:95-213 | the row after a pass, field by field, from the answers at the book of its own account, mode (anything but mainnet asks the testnet) and symbol |
| Reconcile.JudgedByItsOwnExchange | gateway/internal/orderengine/reconcile.go:113-163 | a mainnet row depends on the mainnet exchange's answers alone, every other row on the testnet's |
| Reconcile.ConvergesToTheExchange | gateway/internal/orderengine/reconcile.go:45-65 | after a pass without errors a row is open exactly if it was and the exchange still lists or reports it so |
| Reconcile.RepeatingChangesNothing | gateway/internal/orderengine/reconcile.go:45-65 | a pass repeated with the same answers, errors included, changes nothing more |
| Reconcile.IsolationExactly | gateway/internal/orderengine/reconcile.go:46-64 | another account's answers matter to a row exactly when a failed listing abandons the pass and the row had a verdict |
| Reconcile.ClosedRowsStay | gateway/internal/orderengine/reconcile.go:70-93 | a row outside the open set, `unknown` included, is never changed by any number of passes |
| HubRuns.RunKeepsInv | gateway/internal/ws/hub.go:190-385 | every run keeps indexes, generations and authorisations in agreement |
| HubRuns.IndexesAgree | gateway/internal/ws/hub.go:203-385 | a session lists a topic iff the topic lists the session, and every topic in the map has a live subscriber |
| HubRuns.DeliveryIsAuthorised | gateway/internal/ws/hub.go:226-330 | whoever is in a snapshot passed a check for that topic under its own identity, in which there was no resolver, its role was admin, or the resolver returned its own non-empty user |
| HubRuns.RunningIffStored | gateway/internal/ws/hub.go:273-463 | after every run an upstream object is un-stopped iff it is the one stored under its key |
| HubRuns.StaleGenerationsAreInert | gateway/internal/ws/hub.go:426-463 | a goroutine holding a replaced upstream changes nothing |
| HubRuns.ClosedExactlyOnce | gateway/internal/ws/hub.go:368-385 | an upstream is cancelled and closed never while in the map, and exactly once after it left |
| HubRuns.SubscribeIsAllOrNothing | gateway/internal/ws/hub.go:260-330 | an error leaves both tables as they were; success makes the session a recipient and touches no other topic |
| HubRuns.UnsubscribeUndoesSubscribe | gateway/internal/ws/hub.go:348-361 | both indexes return to what they were |
| HubRuns.ReRegistering | gateway/internal/ws/hub.go:190-200 | registering a live id again keeps agreement exactly when it has no topics |
| HubRuns.FreshIdsAreNeeded | gateway/internal/ws/hub.go:226-330 | with a re-used id a check passed by the former session completes for the new identity |
| HubModel.UnregisterKeeps | gateway/internal/ws/hub.go:203-214 | detaching a session from all its topics keeps indexes and generations in agreement |
| HubEffects.RegisteredStartsEmpty | gateway/internal/ws/hub.go:190-200 | a registration adds the session under its user and role, and changes no topic |
| HubEffects.UnregisteredIsGone | gateway/internal/ws/hub.go:203-214 | a disconnected session is in neither index, other sessions are as they were, and exactly the topics it was the last to follow end |
| HubEffects.UnregisterClosesTheLast | gateway/internal/ws/hub.go:368-385 | the upstreams of those topics were cancelled and closed, the others run on |
| HubEffects.UnsubscribedIsOut | gateway/internal/ws/hub.go:348-385 | one session leaves one topic, which ends exactly if it was its last follower |
| HubEffects.CheckPassesIff | gateway/internal/ws/hub.go:226-258 | the check passes exactly without a resolver, for an admin, or for the resource's own non-empty owner |
| HubEffects.CommitSucceedsIff | gateway/internal/ws/hub.go:260-330 | a granted subscription succeeds exactly for a live session and a topic that is there or can be started, and adds exactly that recipient |
| HubEffects.SubscribeReaches | gateway/internal/ws/hub.go:226-330 | an owner's session that goes through both halves receives the topic |
| HubEffects.EndedIsForgotten | gateway/internal/ws/hub.go:426-463 | the end of the stored upstream forgets its topic in all sessions and closes it once; of any other, nothing |
| HubModel.UnsubscribeKeeps | gateway/internal/ws/hub.go:348-385 | detaching from one topic, torn down when it was the last, keeps them in agreement |
| HubModel.CommitKeeps | gateway/internal/ws/hub.go:260-330 | the second half of a subscription keeps them in agreement |
| HubModel.EndKeeps | gateway/internal/ws/hub.go:426-463 | the end of an upstream keeps them in agreement |
| Hub.Hub.RegisterAuthed | gateway/internal/ws/hub.go:190-200 | the heap takes the model's step |
| Hub.Hub.Unregister | gateway/internal/ws/hub.go:203-214 | the loop over the session's topics detaches all of them at once |
| Hub.Hub.CheckSubscribe | gateway/internal/ws/hub.go:226-258 | the check passes exactly for grants that the ownership rule justifies |
| Hub.Hub.CommitSubscribe | gateway/internal/ws/hub.go:260-330 | the second critical section takes the model's step, errors included |
| Hub.Hub.Unsubscribe | gateway/internal/ws/hub.go:348-361 | the heap takes the model's step |
| Hub.Hub.DetachLocked | gateway/internal/ws/hub.go:368-385 | the heap takes the model's step |
| Hub.Hub.HandleUpstreamEnd | gateway/internal/ws/hub.go:426-463 | only the upstream in the map is torn down and forgotten by its sessions |
| Hub.Hub.SnapshotSinks | gateway/internal/ws/hub.go:518-532 | the snapshot is exactly the recipients of the topic |
| StreamReaders.ScanLoop | gateway/internal/ws/redis_optimization.go:111-167 | the loop over one batch computes the specification of a batch |
| StreamReaders.Loop | gateway/internal/ws/redis_backtest.go:75-156 | the reader's life computes the reads that the laws below speak of |
| StreamReaders.ForwardsOneSegment | gateway/internal/ws/redis_optimization.go:78-170 | what is forwarded from a stream is exactly the matching part of one contiguous segment, in order, through failed reads and re-read malformed entries |
| StreamStarts.ForwardsOnlyNewEntries | gateway/internal/ws/redis_backtest.go:75-99 | that segment begins in some successful read, at the first entry appended after that read was issued which the reader does not wait at; nothing older than the first read is ever forwarded |
| StreamStarts.ReadTakesSixteen | gateway/internal/ws/redis_strategy.go:88-105 | a successful read takes the sixteen entries after the cursor, or as many as there are, and stands behind the last one it does not wait at |
| StreamStarts.ForwardsAndEndsExactly | quant/src/quant/grpc_server.py:410-451 | which entries each reader forwards and which end it, by owner, prefix and state |
| StreamStarts.ProgressComesFirst | gateway/internal/ws/redis_backtest.go:86-154 | one read sends what it found of the progress stream before what it found of the final events |
| StreamStarts.SendsNothingOnceCancelled | gateway/internal/ws/redis_backtest.go:139-143 | a reader whose context ends at a send has sent nothing from that one on |
| StreamReaders.NothingAfterTheEnd | quant/src/quant/grpc_server.py:440-451 | only the last forwarded entry can be terminal, and the reader ended exactly if it is |
| StreamReaders.ReadMovesIff | gateway/internal/ws/redis_backtest.go:107-153 | a read moves the cursor exactly when its batch holds an entry the reader steps over |
| StreamReaders.StuckForGood | gateway/internal/ws/redis_backtest.go:107-121 | sixteen malformed entries after the cursor hold it there for every later read |
| StreamReaders.OneTopicPerEvent | gateway/internal/ws/redis_prediction.go:105-112 | an event goes to its owner's topic only, never to both an order and a prediction topic |
| StreamReaders.LateRejectionsAreNotForwarded | gateway/internal/orderengine/engine.go:610-618 | no strategy's topic ever carries the event of an order rejected after its insert |
| MainnetGate.TokenStore.CleanLocked | gateway/internal/orderengine/mainnet_gate.go:196-203 | the sweep keeps exactly the tokens that have not expired |
| MainnetGate.TokenStore.RequestToken | gateway/internal/orderengine/mainnet_gate.go:128-146 | the store takes the model's step |
| MainnetGate.TokenStore.Redeem | gateway/internal/orderengine/mainnet_gate.go:155-170 | the store takes the model's step and answers as it does |
| MainnetGate.TokenStore.IsAllowed | gateway/internal/orderengine/mainnet_gate.go:109-116 | the answer is the model's |
| MainnetGate.ConfirmedIffRequested | gateway/internal/orderengine/mainnet_gate.go:155-170 | a confirmation succeeds iff an unconsumed request of its token at most ten minutes old precedes it; otherwise the answer says why |
| MainnetGate.RequestedCanBeConfirmed | gateway/internal/orderengine/mainnet_gate.go:128-170 | a request is issued and can be confirmed for ten minutes |
| MainnetGate.DisabledKeepsNothing | gateway/internal/orderengine/mainnet_gate.go:128-158 | without the environment's consent nothing is issued, kept, confirmed or allowed |
| MainnetGate.NoRequestIsRedeemedTwice | gateway/internal/orderengine/mainnet_gate.go:162-167 | different successful confirmations redeem different requests |
| MainnetGate.SweepingIsUnobservable | gateway/internal/orderengine/mainnet_gate.go:196-203 | sweeping never changes a later answer |
| MainnetGate.RegisterIsTheLastConfirmation | gateway/internal/orderengine/mainnet_gate.go:155-170 | under any clock the register is the expiry of the last successful confirmation |
| MainnetGate.OpenIffConfirmedWithinTheHour | gateway/internal/orderengine/mainnet_gate.go:109-116 | the gate is open iff the environment allows it and some confirmation succeeded within the hour |
| TokenBucketLaws.TokensStayInRange | quant/src/quant/ratelimit.py:126-153 | stored tokens stay between zero and the capacity, whatever the clock does |
| TokenBucketLaws.WindowBound | quant/src/quant/ratelimit.py:126-153 | admitted weight is at most capacity plus the refill of elapsed time plus all backward steps |
| TokenBucketLaws.ClassicWindowBound | quant/src/quant/ratelimit.py:126-153 | with a clock that does not step back, capacity plus rate times elapsed time |
| TokenBucketLaws.BackwardStepsAreEarnedAgain | quant/src/quant/ratelimit.py:139-141 | the extra term for backward steps is reached |
| TokenBucketLaws.EagerWindowBound | quant/src/quant/ratelimit.py:69-91 | the in-memory bucket admits at most capacity plus refill over any window |
| TokenBucketLaws.LazyRefinesEager | quant/src/quant/ratelimit.py:126-153 | the bucket that writes only on admits decides exactly as the one that writes on every try |
| TokenBucketLaws.ExpiryUnobservable | quant/src/quant/ratelimit.py:143-148 | key expiry changes no decision when five minutes refill the bucket |
| TokenBucketLaws.ExpiryObservable | quant/src/quant/ratelimit.py:143-148 | with a larger capacity it does |
| TokenBucketLaws.DefaultsExpireUnseen | quant/src/quant/ratelimit.py:253-259 | each of the four default buckets, with its rate and capacity, meets that condition |
| TokenBucketLaws.EagerWaitIsExact | quant/src/quant/ratelimit.py:69-80 | a refused caller is admitted from exactly the announced moment on |
| TokenBucketLaws.AdmitsAfter | quant/src/quant/ratelimit.py:139-152 | after a wait the weight is covered exactly when the wait outlasts clock lag and deficit |
| TokenBucketLaws.OneSleepIsEnoughIff | quant/src/quant/ratelimit.py:149-152 | one sleep is enough exactly when the stored stamp is not too far ahead, for the script and the emulation |
| Limiters.InMemoryBucket.RefillLocked | quant/src/quant/ratelimit.py:82-91 | the bucket takes the model's refill |
| Limiters.InMemoryBucket.Acquire | quant/src/quant/ratelimit.py:55-80 | an uncontended caller sleeps at most once, for the missing tokens over the rate |
| Limiters.RedisBucket.Script | quant/src/quant/ratelimit.py:126-153 | the script takes the model's step and announces its wait |
| Limiters.RedisBucket.Emulated | quant/src/quant/ratelimit.py:214-230 | the emulation takes the same step with its own wait |
| Limiters.RedisBucket.Acquire | quant/src/quant/ratelimit.py:232-246 | an uncontended caller ends, sleeps exactly the announced milliseconds each time, and at most once more than the milliseconds by which its clock lags behind the stored stamp |
| HubClientModel.StepKeepsInv | client/data/ws-client.ts:48-149 | every step keeps the three collections on the same keys with a listener each, and the open held socket told of exactly those topics |
| HubClientModel.KeyIsInjective | client/data/ws-client.ts:37 | topic and id can be read back from a map key |
| HubClientRuns.ListenersAreThoseOfTheHistory | client/data/ws-client.ts:113-140 | a listener is registered iff its last call for the topic was to subscribe |
| HubClientRuns.ToldIffListening | client/data/ws-client.ts:52-59 | in every run, across reconnects, an open held socket was told of a topic iff someone listens to it |
| HubClientRuns.StepIsSingleIff | client/data/ws-client.ts:113-127 | a step keeps the single live socket exactly when it is not a subscription during a pending reconnect |
| HubClientRuns.OneLiveSocket | client/data/ws-client.ts:90-96 | in runs without such a subscription at most the held socket is not closed |
| HubClientRuns.StrayMakesTwo | client/data/ws-client.ts:113-114 | such a subscription and the timer leave two live sockets |
| HubClientRuns.AbandonedForGood | client/data/ws-client.ts:90-104 | a socket no longer held is never held, sent to or closed by the client again |
| HubClientRuns.BackoffDoubles | client/data/ws-client.ts:90-96 | the delay doubles from 500 ms with each failure since the last open, up to 30 s |
| HubClientLife.SubscribingConnects | client/data/ws-client.ts:113-114 | after a subscription a client that is not shut down holds a socket, the one it had or a new one |
| HubClientLife.ListenersAreServed | client/data/ws-client.ts:90-96 | in runs without shutdown, whenever someone listens, a socket is held or a reconnect is pending |
| HubClientLife.ReconnectTellsEverything | client/data/ws-client.ts:48-97 | when the held socket closes, the timer fires and the new socket opens, it has been told of exactly what is listened to |
| HubClientLife.FirstSubscriptionIsTold | client/data/ws-client.ts:113-127 | the first subscription of a new client opens a socket that is told of it once open |
| HubClientLife.OnlyFirstAndLastAreTold | client/data/ws-client.ts:123-138 | further listeners of a topic, and all but the last that leave, send nothing |
| HubClientLife.OpeningSendsEachOnce | client/data/ws-client.ts:52-59 | a held socket that opens is sent one subscription per topic, in their order |
| HubClientLife.ShutdownIsFinal | client/data/ws-client.ts:142-149 | after a shutdown no socket is created and no reconnect scheduled |
| HubClients.HubClient.Subscribe | client/data/ws-client.ts:113-127 | the object takes the model's step |
| HubClients.HubClient.Unsubscribe | client/data/ws-client.ts:129-139 | the object takes the model's step |
| HubClients.HubClient.HandleOpen | client/data/ws-client.ts:52-59 | the loop over the subscriptions takes the model's step |
| HubClients.HubClient.HandleClose | client/data/ws-client.ts:90-97 | the object takes the model's step and announces the delay |
| HubClients.HubClient.Close | client/data/ws-client.ts:142-149 | the object takes the model's step |
| Base64.DecodeOfEncode | gateway/internal/crypto/crypto.go:73-94 | what is printed reads back |
| Base64.AlphabetIs | gateway/internal/crypto/crypto.go:73-94 | the alphabet in its order, in both directions |
| Base64.ThreeBytesAreOneNumber | gateway/internal/crypto/crypto.go:73-94 | three bytes and their four characters are the same number, most significant part first |
| Base64.FewerBytesArePadded | gateway/internal/crypto/crypto.go:73-94 | one or two bytes are padded with zero bits and `=` |
| Base64.ReadsIffWellFormed | gateway/internal/crypto/crypto.go:83-94 | apart from line breaks exactly padded fours of the alphabet are read |
| Base64.CanonicalIff | gateway/internal/crypto/crypto.go:83-94 | text that reads as some bytes is their print exactly if its unused bits are zero |
| Base64.BreaksAreSkipped | gateway/internal/crypto/crypto.go:83-94 | line breaks change nothing |
| Envelope.JoinOfSplit | gateway/internal/crypto/crypto.go:79 | splitting loses nothing, and no part holds a separator |
| Envelope.ParseOfPrint | gateway/internal/crypto/crypto.go:73-100 | a printed triplet splits into exactly three parts that read as what was printed |
| Envelope.ParsesIff | gateway/internal/crypto/crypto.go:78-100 | a message is accepted iff it is three dot-free parts that read as 12, 16 and any number of bytes, and is malformed iff it does not hold two dots |
| Envelope.SealsIff | gateway/internal/crypto/crypto.go:54-75 | sealing succeeds iff the vector has 12 bytes and the key is one of AES |
| Envelope.UnwrapsIff | gateway/internal/crypto/envelope.go:113-126 | a data key unwraps iff the provider opens it to base64 of 32 bytes |
| Envelope.UnsealOfSeal | gateway/internal/crypto/envelope.go:130-189 | every plaintext, the empty one included, comes back |
| Envelope.OpensIff | gateway/internal/crypto/envelope.go:153-189 | a message opens to a plaintext iff its bytes are those of sealing that plaintext under its own vector |
| Envelope.CredentialsRoundTrip | gateway/internal/crypto/envelope.go:69-111 | every credential sealed under one data key, first or later, comes back as it was |
| Envelope.EnvIsFaithful | gateway/internal/crypto/kek.go:56-143 | the production provider keeps the contract that the round trip rests on; the cloud providers answer that they are not configured |
| Envelope.EnvSealsEverything | gateway/internal/crypto/envelope.go:69-88 | with the production provider sealing never fails |
| Envelope.RewrappingPreservesPayloads | gateway/internal/crypto/envelope.go:66-68 | re-wrapping the data key under another provider preserves what every payload opens to, errors included |
| Envelope.Zeroize | gateway/internal/crypto/envelope.go:191-195 | every byte of the buffer is zero |
| RecentResources.RecentStore.PushRecent | client/data/use-recent-resources.ts:77-90 | one visit pushes onto what the storage held, or changes nothing if the write fails |
| RecentResources.JunkIsSkipped | client/data/use-recent-resources.ts:40-60 | what is no list reads as empty, and elements that are no items are passed over |
| RecentResources.KeepsTheFirstFive | client/data/use-recent-resources.ts:77-90 | from a storage without repetitions of any length, the list is the first five of the full history, newest first and deduplicated, iff the storage was short enough or something was written |
| RecentResources.ShowsABeginning | client/data/use-recent-resources.ts:40-90 | whatever the storage held, the list is a beginning of the visited resources, newest first without repetition, followed by what was stored of the others |
| RecentResources.PushRefinesIff | client/data/use-recent-resources.ts:80-88 | a visit to the truncated list shows what a visit to the whole list would iff the list was not cut, the resource stood at most once among the five, or nothing else was cut off |
| RecentResources.StaysNewestFirst | client/data/use-recent-resources.ts:9-10 | with a clock that does not step back the list is sorted by time of visit, without repetitions |

## Left out

* Publishing of order events and rejections, log lines and metrics: they are best effort and no decision reads them. Only
  the shape of one rejection event is used.
* What `processCommand` returns to a direct caller; only its effects are modelled.
* Acknowledging stream messages, and recovery of commands read but not acknowledged before a crash: workers read new
  entries only, so the claim is at most once.
* The mainnet gate as consulted inside an exchange adapter's `PlaceOrder`; a refusal is one of the replies to that call.
* Decrypting credentials, venue validity and adapter construction as separate calls of a worker: they are the one step
  `Build`, which may fail.
* The realised profit of rows, raw events and time stamps of rows: the loss sums are replies.
* Exchange adapters, symbol translation, prediction engine, configuration, routes, gRPC and Mongo plumbing.
* The adapters' own listing format: `Reconcile` works on the set of order identifiers that a listing holds.
* Cancellation of contexts inside a pass, and concurrent writers during a reconcile pass; concurrent writers of the order
  log are part of the order protocol instead.
* Fairness between competing callers of the limiters, and atomicity of the emulated script across replicas.
* Floating point: the buckets, sums and rounding are over real numbers.
* AES-GCM and the hash as algorithms; the parsing of the hexadecimal master key. Message length limits of AES-GCM.
* JSON: whether an entry decodes is given, and its payload is forwarded unchanged. A top-level value that is not an object
  fails a gateway reader's decoding, and would end a progress stream of the quant service with an error.
* `Snapshot` of the token store, which alone shows how many expired tokens are still kept.
* Routing of incoming messages to listeners in the browser client, and the hooks around it.
* The event with which the recent list announces itself.
* The hub's capacity limits, sinks that fail or block, and the texts of errors: a delivery is a snapshot of recipients.
