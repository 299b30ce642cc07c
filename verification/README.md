# Deterministic kernel: model and proofs

This project models the deterministic kernel of the limit-order-book simulator (`lob_sim/oracle_kernel.py`),
the step machine that composes it (`scripts/check_rust_python_parity.py`) and the token-bucket limiter
(`lob_sim/util.py`), and proves properties of every input, every run and every reachable state.

Each stateful component appears twice. A *specification* module gives its transitions on values and holds the
laws proved about them. An *oracle* module holds the class with the fields the original updates in place and
its loops; each method is proved to make exactly the transition of the specification. What every transition does
and when it refuses is stated apart from its body, by the lemmas named `...Meaning`.

| component | specification and laws | objects and loops |
|---|---|---|
| public queue | `PublicQueue`, `PublicQueueLaws` | `PublicQueueOracles` |
| scheduler | `Scheduler` | `SchedulerOracles`, `MinHeap` |
| risk ledger | `Reservation`, `Risk` | `RiskOracles` |
| portfolio ledger | `Portfolio`, `PortfolioExposure` | `PortfolioOracles` |
| accounting | `Accounting`, `AccountingLaws` | `AccountingOracles` |
| latency sampler | `Bits`, `Latency` | `LatencyOracles` |
| book batch | `Book` | `BookOracles` |
| canonical bytes | `Text`, `Canonical`, `CanonicalLayout` | in each object module |
| composed contract | `Engine`, `EngineLaws`, `EngineMeaning`, `EngineTheorems`, `EngineFingerprint` | `EngineContracts` |
| token bucket | `TokenBuckets` | `TokenBuckets.TokenBucket` |

`Common` and `Arith` hold shared vocabulary: decisions with their reasons, sums over dictionaries, and small
facts of non-linear arithmetic.

## Where the code and its description differ

The model follows the code. Five statements one might expect are false of it; each has a concrete
counterexample and an exact condition here.

- The comment at `scripts/check_rust_python_parity.py:713-715` says that a rejection leaves the prior state alone.
  In general it does not: `EngineTheorems.RejectionThatMoves` gives three rejected operations that change the state,
  and `RejectedIsAtomicIff` says that these three kinds are all there are. (The comment also speaks of the final
  three operations of its list; among those the epoch and the drain are in fact accepted.)
- Quoting does not check the execution price and accounting refuses a price that is not positive, so risk and
  accounting can disagree: `EngineTheorems.UnpricedQuoteBreaksAgreement` and, exactly, `AgreementIff` for the next
  print and `RunAgreementIff` for every continuation.
- The composed hash does not cover the order metadata, so equal hashes do not always mean equal futures:
  `EngineFingerprint.PriceIsNotFingerprinted` and, exactly, `FingerprintBlindSpot`.
- One batch may cross on the way where the same changes as two batches are refused:
  `Book.TransientCrossAllowed` and, exactly, `BatchesComposeIff`, whose condition is read off the changes of the
  first batch.
- A refusal by the portfolio ledger does not mean that the gross inventory could have passed the limit, since the
  ledger does not net orders against inventory: `PortfolioExposure.UnwindingRefused` and, exactly, `AdmissionSlack`.

Burning of ids follows the code too: a rejected `place` burns nothing, `reserve` burns the id before it looks at
quantity and limit, `schedule` burns every new non-negative id.

## Model

| member | source | states |
|---|---|---|
| EngineLaws.InvStep | scripts/check_rust_python_parity.py:762-829 | Lockstep: every operation of the composed contract, accepted or rejected, keeps each order with metadata at the same side and remaining lots in queue and risk, live in one iff live in the other, filled in one iff filled in the other, and a queue-cancelled order pending-cancel, cancelled or invalidated in risk; it also keeps both ledgers within their own invariants and the book sound |
| EngineMeaning.RaisesMeaning | scripts/check_rust_python_parity.py:817-831 | Exactly unknown kinds and logical times with a negative component raise |
| EngineMeaning.BookMeaning | scripts/check_rust_python_parity.py:766-775 | Kind 0: accepted iff the price is positive, the quantity not negative, and the quantity zero or the other side clear of the price; then the level at (side, price) becomes the quantity and no other level or component changes; refused, nothing changes and the first fault is named |
| EngineMeaning.QuoteMeaning | scripts/check_rust_python_parity.py:776-783 | Kind 1: a quote the queue takes stands at the back with queue-ahead a and quantity b; risk reserves it on its side and price c and fee d are remembered iff the side has room; one the queue does not take changes nothing |
| EngineMeaning.QuoteReason | scripts/check_rust_python_parity.py:776-783 | Kind 1: the reason reported, fault by fault, the queue before risk |
| EngineMeaning.LimitIsEight | scripts/check_rust_python_parity.py:749 | From empty, risk takes a quote iff its quantity is at most 8 |
| EngineMeaning.PrintMeaning | scripts/check_rust_python_parity.py:784-786 | Kind 2: each queued order ends as the flow of a lots left over by earlier places makes it and its fill is reported in line order; without lots nothing happens |
| EngineMeaning.PrintCash | scripts/check_rust_python_parity.py:787-806 | Kind 2: realized PnL less open cost moves by exactly the signed cash of the booked fills at the prices their quotes named, fees by exactly the fees they named, marks and markouts not at all |
| EngineMeaning.CancelMeaning | scripts/check_rust_python_parity.py:807-809 | Kind 3: touches the named order only; accepted iff it is live and has metadata, then cancelled in the queue and pending in risk; live without metadata it is cancelled in the queue although refused |
| EngineMeaning.AckMeaning | scripts/check_rust_python_parity.py:810-811 | Kind 4: accepted iff the cancel of the named order is pending in risk, which then is cancelled; nothing else changes |
| EngineMeaning.MarkMeaning | scripts/check_rust_python_parity.py:812-813 | Kind 5: for a positive price the mark of symbol 0 becomes that price; nothing else changes |
| EngineMeaning.EpochMeaning | scripts/check_rust_python_parity.py:814-816 | Kind 6: exactly the live quotes and the outstanding reservations are invalidated, all lots, sides, ids and the position kept |
| EngineMeaning.ScheduleMeaning | scripts/check_rust_python_parity.py:817-818 | Kind 7: accepted iff the id is fresh and not negative; the action is then pending, due at (a, b), with the next insertion number |
| EngineMeaning.DrainMeaning | scripts/check_rust_python_parity.py:819-820 | Kind 8: removes exactly the actions due before (a, b), those at it iff the flag is set |
| EngineMeaning.MarkoutMeaning | scripts/check_rust_python_parity.py:821-829 | Kind 9: markout cash moves by (c - a) * b * 1000000 in the direction of the side and the markout quantity by b, iff a, b and c are positive |
| EngineLaws.RiskFillAccepted | scripts/check_rust_python_parity.py:784-796 | While the fills of one print are posted, the next fill with metadata is never rejected by the risk ledger |
| EngineLaws.PostFillsMeaning | scripts/check_rust_python_parity.py:784-806 | Posting a print: each order with metadata is reduced in risk by exactly its fill, no other order changes, risk position moves by the signed fills, accounting by those with a positive price, and the reported reason is the first missing metadata or unpriced fill |
| EngineLaws.PairedAfterPrint | scripts/check_rust_python_parity.py:784-806 | After a print, queue record and risk record of every quote with metadata are paired again |
| EngineLaws.PrintStep | scripts/check_rust_python_parity.py:784-806 | One print end to end: lockstep kept, risk and accounting positions moved by their exact amounts, verdict determined |
| EngineTheorems.RiskPositionIsFillSum | scripts/check_rust_python_parity.py:784-796 | On every run, with any prices, the risk position is the signed sum of all fills to orders with metadata and never leaves [-8, 8] |
| EngineTheorems.PositionAgreement | scripts/check_rust_python_parity.py:784-806 | On every run whose quotes carry positive prices, accounting lots of symbol 0, risk position and the signed sum of fills agree, with absolute value at most 8 |
| EngineTheorems.AgreementIff | scripts/check_rust_python_parity.py:784-806 | Exact condition without the price hypothesis: from an agreeing reachable state, agreement survives every print iff every live quote with metadata has a positive price |
| EngineTheorems.RunAgreementIff | scripts/check_rust_python_parity.py:762-829 | The same condition decides whole runs: from an agreeing reachable state, every continuation whose quotes carry positive prices keeps agreement iff every live quote with metadata has a positive price |
| EngineTheorems.UnpricedQuoteBreaksAgreement | scripts/check_rust_python_parity.py:776-806 | Concrete run that loses agreement: a bid quoted at price 0 and one lot printed leave risk at 1 and accounting at 0 |
| EngineTheorems.ReachingFills | scripts/check_rust_python_parity.py:784-786 | A print can be sized to reach any chosen quote of the line and fill exactly one lot of it |
| EngineTheorems.RejectedIsAtomicIff | scripts/check_rust_python_parity.py:713-829 | Exactly which rejections leave the state alone: a rejected operation leaves the whole state unchanged iff it is not a quote the queue took, a cancel of a live quote without metadata, or a positive print |
| EngineTheorems.RejectionThatMoves | scripts/check_rust_python_parity.py:776-809 | Each of those three kinds happens: from empty, a bid for 9 lots is rejected and stays in the queue; cancelling it and printing a lot against it are rejected too, and both change the state |
| EngineTheorems.QuoteRefusedOnLimitOnly | scripts/check_rust_python_parity.py:776-783 | A quote the queue accepts is accepted by risk iff no future without new reservations can break the limit; otherwise the reason is the side limit and the quote stays without metadata |
| EngineFingerprint.FingerprintComplete | scripts/check_rust_python_parity.py:679-696 | The component bytes hashed after every operation are equal iff all five components are equal |
| EngineFingerprint.FingerprintBlindSpot | scripts/check_rust_python_parity.py:679-696 | The composed fingerprint omits the order metadata: two reachable states with equal fingerprints publish equal rows for every continuation iff each live quote carries the same price and fee in both, or a refused price in both |
| EngineFingerprint.PriceIsNotFingerprinted | scripts/check_rust_python_parity.py:679-696 | Concrete pair of states with equal fingerprints and different futures: the same bid quoted at 101 and at 102 |
| EngineFingerprint.RowMeaning | scripts/check_rust_python_parity.py:831-838 | Row i of a trace is the verdict and fills of operation i in the state the earlier ones made, with the fingerprint of the state after it |
| EngineContracts.EngineContractTrace | scripts/check_rust_python_parity.py:740-838 | The trace over live component objects publishes exactly the rows and fingerprints of the specified step machine, for every operation sequence |
| EngineContracts.TraceLoop | scripts/check_rust_python_parity.py:762-838 | From live components that stand for any reachable state, the loop over operations publishes exactly the rows of the specified machine from there |
| EngineContracts.OneStep | scripts/check_rust_python_parity.py:766-829 | Dispatch of one operation on live objects equals the specified step, including which operations raise |
| EngineContracts.LedgerConsume | scripts/check_rust_python_parity.py:784-806 | Consume, then post fill by fill, on objects updated in place equals the specified print |
| EngineContracts.PostAll | scripts/check_rust_python_parity.py:787-806 | The loop over the fills of a print, on objects updated in place, equals the specified posting |
| EngineContracts.LedgerQuote | scripts/check_rust_python_parity.py:776-783 | Place then reserve: metadata is stored only when both accept, and the placed order stays in the queue when risk refuses |
| PublicQueueOracles.PublicQueueScenarioOracle.constructor | lob_sim/oracle_kernel.py:42-45 | A new queue is empty and sound |
| PublicQueueOracles.PublicQueueScenarioOracle.Place | lob_sim/oracle_kernel.py:51-63 | Whole new state and decision of a place; a rejected place burns no id |
| PublicQueueOracles.PublicQueueScenarioOracle.Cancel | lob_sim/oracle_kernel.py:65-73 | Whole new state and decision of a cancel on the record updated in place |
| PublicQueueOracles.PublicQueueScenarioOracle.InvalidateEpoch | lob_sim/oracle_kernel.py:75-80 | Every live record becomes invalidated, all others are untouched, and the line empties |
| PublicQueueOracles.PublicQueueScenarioOracle.Consume | lob_sim/oracle_kernel.py:82-105 | Whole new state, decision, fills and unmatched lots of a print |
| PublicQueueOracles.PublicQueueScenarioOracle.ConsumeLoop | lob_sim/oracle_kernel.py:87-105 | The while loop over heads of the line, dead heads included, terminates and equals the recursive specification |
| PublicQueueOracles.PublicQueueScenarioOracle.ConsumeHead | lob_sim/oracle_kernel.py:88-104 | One pass of the loop: a dead head is dropped, a live one loses queue-ahead and then lots; what is still to do equals the recursive specification of what was to do |
| PublicQueueOracles.PublicQueueScenarioOracle.CanonicalBytes | lob_sim/oracle_kernel.py:107-115 | The bytes printed piece by piece are those whose completeness is proved |
| PublicQueueLaws.InvStep | lob_sim/oracle_kernel.py:51-105 | Every operation keeps: seen ids are exactly the stored ones, the line holds each live order once and nothing else, filled iff nothing remains |
| PublicQueueLaws.PlaceMeaning | lob_sim/oracle_kernel.py:51-63 | Accepted iff the id is positive and fresh, the queue-ahead not negative and the quantity positive; appends one live order with these lots; refused, burns nothing and names the first fault |
| PublicQueueLaws.CancelMeaning | lob_sim/oracle_kernel.py:65-73 | Accepted iff the order is live; it becomes cancelled with its lots kept and leaves the line, the others in their places |
| PublicQueueLaws.InvalidateMeaning | lob_sim/oracle_kernel.py:75-80 | Exactly the live orders become epoch_invalidated, lots and ids kept, and the line empties |
| PublicQueueLaws.ConsumeRefusal | lob_sim/oracle_kernel.py:82-84 | A print without lots is refused and does nothing; any other is accepted |
| PublicQueueLaws.LiveCountIsQueueLength | lob_sim/oracle_kernel.py:47-49 | The count of live orders equals the length of the line |
| PublicQueueLaws.LifetimeFills | lob_sim/oracle_kernel.py:82-105 | Over any run an order is filled by exactly what leaves its remaining quantity, never beyond it, and not at all once it is dead |
| PublicQueueLaws.ConsumeClosedForm | lob_sim/oracle_kernel.py:82-105 | Interval-overlap form of a print: each fill is clamp(n - work ahead, 0, remaining), reported in line order; observed lots equal queue-ahead eaten plus fills plus unmatched; unmatched is max(0, n - total work) and positive only if the line is empty |
| PublicQueue.EatAt | lob_sim/oracle_kernel.py:87-105 | Each order ends up as if only the flow left over by the orders before it had reached it |
| PublicQueue.EatFills | lob_sim/oracle_kernel.py:98-104 | Fills come out in line order, one per order reached, each with its closed-form amount |
| PublicQueue.EatQueue | lob_sim/oracle_kernel.py:91-104 | The line left behind is the old one without the filled orders, in the same order |
| PublicQueueLaws.ConsumeSplit | lob_sim/oracle_kernel.py:82-105 | Two prints in a row equal one print of their total: same state, same fill per order, same unmatched lots |
| PublicQueueLaws.PrintsMerge | lob_sim/oracle_kernel.py:82-105 | However a volume is cut into prints, state, per-order fill totals and unmatched lots are those of one print |
| PublicQueueLaws.CancelNeverHurts | lob_sim/oracle_kernel.py:65-105 | Cancelling a live order and then running any operations at all gives every other order at least the cumulative fill it would have had |
| SchedulerOracles.DeterministicSchedulerOracle.constructor | lob_sim/oracle_kernel.py:215-219 | A new scheduler is empty and its heap sound |
| SchedulerOracles.DeterministicSchedulerOracle.Schedule | lob_sim/oracle_kernel.py:225-239 | Whole new state and decision; every new non-negative id is burnt and the heap invariant kept |
| SchedulerOracles.DeterministicSchedulerOracle.Cancel | lob_sim/oracle_kernel.py:241-245 | Removes the pending action only; its heap entry stays behind as a stale one |
| SchedulerOracles.DeterministicSchedulerOracle.Drain | lob_sim/oracle_kernel.py:247-260 | Lazy deletion refines the heap-free drain: exactly the due pending actions, in key order, and exactly the others kept |
| SchedulerOracles.DeterministicSchedulerOracle.PopHead | lob_sim/oracle_kernel.py:255-258 | One pop: stale heads change nothing, a current head is the earliest pending action and leaves the pending ones |
| SchedulerOracles.DeterministicSchedulerOracle.CanonicalBytes | lob_sim/oracle_kernel.py:262-280 | The bytes depend on next, seen and pending only, not on stale heap entries |
| SchedulerOracles.SchedulerTrace | scripts/check_rust_python_parity.py:325-350 | Decision, drained ids, pending count and checkpoint bytes of a whole operation sequence are those of the heap-free specification, whatever stale entries the heap starts with |
| SchedulerOracles.TraceMeaning | scripts/check_rust_python_parity.py:332-350 | Row i is that of operation i in the state the earlier ones made, and has a checkpoint, the canonical bytes after it, iff its ordinal is a multiple of the interval or the last |
| SchedulerOracles.SameBytesSameFuture | lob_sim/oracle_kernel.py:262-280 | Two schedulers with equal canonical bytes answer every operation sequence alike, even when their heaps differ in stale entries |
| Scheduler.DrainMeaning | lob_sim/oracle_kernel.py:247-260 | A drain hands out an id iff it is pending and due before the cutoff (or at it, if inclusive), sorted by (ns, seq, insertion), and keeps the rest as they were |
| Scheduler.SortedUnique | lob_sim/oracle_kernel.py:247-260 | The order of a drain is forced: two sorted lists of the same ids are equal |
| Scheduler.DrainCompose | lob_sim/oracle_kernel.py:247-260 | Draining at c1 and then at c2 >= c1, or exclusive then inclusive at the same cutoff, concatenates to the single later drain and leaves the same state |
| Scheduler.ExactlyOneFate | lob_sim/oracle_kernel.py:225-260 | On every run each accepted id is exactly one of pending, cancelled, or drained once; a pending action still carries the time it was scheduled for and its place in the order of acceptance; the counts of the fates add up |
| Scheduler.DrainByRequest | lob_sim/oracle_kernel.py:225-260 | After any run a drain hands out exactly the ids accepted, neither cancelled nor drained before, whose scheduled time is lexicographically before the cutoff, or at it if inclusive |
| Scheduler.DecisionsByHistory | lob_sim/oracle_kernel.py:225-245 | After any run a schedule is accepted iff its id is not negative and was never accepted before, a cancel iff its id was accepted and neither cancelled nor drained; refusals change nothing and name their fault |
| Scheduler.PendingCountMeaning | lob_sim/oracle_kernel.py:221-223 | The pending count is the ids accepted less those cancelled less those drained |
| Scheduler.TiesByArrival | lob_sim/oracle_kernel.py:247-260 | Of two actions due at the same time a drain hands out the one accepted earlier first, on every run |
| MinHeap.RootIsLeast | lob_sim/oracle_kernel.py:250-251 | The head of the heap is a least entry |
| MinHeap.Heap.Push | lob_sim/oracle_kernel.py:235-238 | Push on the array, grown when full, keeps the heap order and adds exactly one entry |
| MinHeap.Heap.Pop | lob_sim/oracle_kernel.py:255 | Pop on the array returns the head, keeps the heap order and removes exactly that entry |
| MinHeap.Heap.SiftUp | lob_sim/oracle_kernel.py:235-238 | In-place sifting towards the root restores the heap order and permutes the entries |
| MinHeap.Heap.SiftDown | lob_sim/oracle_kernel.py:255 | In-place sifting from the root restores the heap order and permutes the entries |
| RiskOracles.RiskReservationOracle.Create | lob_sim/oracle_kernel.py:300-306 | Construction fails exactly on a non-positive limit, otherwise yields a sound empty ledger |
| RiskOracles.RiskReservationOracle.Reserve | lob_sim/oracle_kernel.py:342-361 | Whole new state and decision: the id is burnt before quantity and limit are looked at; the run-time assertion is proved at its place |
| RiskOracles.RiskReservationOracle.RequestCancel | lob_sim/oracle_kernel.py:363-371 | Whole new state and decision; the assertion is proved at its place |
| RiskOracles.RiskReservationOracle.CancelAck | lob_sim/oracle_kernel.py:373-381 | Whole new state and decision; the assertion is proved at its place |
| RiskOracles.RiskReservationOracle.Fill | lob_sim/oracle_kernel.py:383-398 | Whole new state and decision on the record updated in place; the assertion is proved at its place |
| RiskOracles.RiskReservationOracle.InvalidateEpoch | lob_sim/oracle_kernel.py:400-405 | Exactly the outstanding orders become invalidated; the assertion is proved at its place |
| RiskOracles.RiskReservationOracle.CanonicalBytes | lob_sim/oracle_kernel.py:407-417 | The bytes printed piece by piece are those whose completeness is proved |
| Risk.InvStep | lob_sim/oracle_kernel.py:335-405 | Every operation keeps the worst case within the limit and all remaining lots non-negative, so no AssertionError is reachable |
| Risk.InvRun | lob_sim/oracle_kernel.py:335-405 | On every run the assertions hold and the absolute position never exceeds the limit |
| Risk.ReserveMeaning | lob_sim/oracle_kernel.py:342-361 | Burns every fresh non-negative id; accepted iff the quantity is positive and the side has room, then one live order of that side and quantity; each refusal named exactly |
| Risk.RequestCancelMeaning | lob_sim/oracle_kernel.py:363-371 | Accepted iff live; then pending_cancel with side and lots kept, nothing else changed |
| Risk.CancelAckMeaning | lob_sim/oracle_kernel.py:373-381 | Accepted iff pending_cancel; then cancelled with side and lots kept, nothing else changed |
| Risk.FillMeaning | lob_sim/oracle_kernel.py:383-398 | The position moves by the lots, up for a bid and down for an ask, the order loses them and is filled iff none remain; each refusal named exactly |
| Risk.InvalidateMeaning | lob_sim/oracle_kernel.py:400-405 | Exactly the outstanding orders become epoch_invalidated, all else kept |
| Risk.WorstCaseHappens | lob_sim/oracle_kernel.py:308-320 | The reservation totals are tight: filling the outstanding orders of one side reaches position plus (or minus) its total |
| Risk.ReserveExact | lob_sim/oracle_kernel.py:342-361 | A fresh well-formed order is accepted iff no sequence of fills, cancels, acknowledgements and epochs over the outstanding orders plus this one can push the position past the limit |
| Risk.FillNeverLimited | lob_sim/oracle_kernel.py:383-398 | A fill is accepted iff the order is outstanding and the quantity in range; the limit never refuses it |
| Risk.ReservationConserved | lob_sim/oracle_kernel.py:308-405 | On every run and side, reserved lots are what was admitted less what was filled, acknowledged or invalidated, and only fills move the position, by their signed lots |
| Risk.InvalidateReleases | lob_sim/oracle_kernel.py:400-405 | An epoch invalidation releases everything reserved on both sides |
| Risk.TerminalForever | lob_sim/oracle_kernel.py:363-405 | A filled, cancelled or invalidated order stays as it is on every later run and is never fillable again |
| PortfolioOracles.PortfolioNotionalReservationOracle.Create | lob_sim/oracle_kernel.py:443-449 | Construction fails exactly on a non-positive limit, otherwise yields a sound empty ledger |
| PortfolioOracles.PortfolioNotionalReservationOracle.SetInventory | lob_sim/oracle_kernel.py:477-488 | Whole new state and decision; zero inventory is stored as an absent symbol; the assertion is proved |
| PortfolioOracles.PortfolioNotionalReservationOracle.Reserve | lob_sim/oracle_kernel.py:490-514 | Whole new state and decision, id burnt first; the assertion is proved |
| PortfolioOracles.PortfolioNotionalReservationOracle.RequestCancel | lob_sim/oracle_kernel.py:516-524 | Whole new state and decision; the assertion is proved |
| PortfolioOracles.PortfolioNotionalReservationOracle.CancelAck | lob_sim/oracle_kernel.py:526-534 | Whole new state and decision; the assertion is proved |
| PortfolioOracles.PortfolioNotionalReservationOracle.Fill | lob_sim/oracle_kernel.py:536-566 | Whole new state and decision; the limit rejection at lines 559-560 is never returned |
| PortfolioOracles.PortfolioNotionalReservationOracle.InvalidateEpoch | lob_sim/oracle_kernel.py:568-573 | Exactly the outstanding orders become invalidated; the assertion is proved |
| PortfolioOracles.PortfolioNotionalReservationOracle.CanonicalBytes | lob_sim/oracle_kernel.py:575-584 | The bytes printed piece by piece are those whose completeness is proved |
| Portfolio.FillFreesTwiceTheNetting | lob_sim/oracle_kernel.py:536-566 | In every reachable state an in-range fill passes its limit test; total reserved is unchanged when it opens or extends inventory and drops by exactly twice what it nets |
| Portfolio.InvStep | lob_sim/oracle_kernel.py:471-573 | Every operation keeps gross inventory plus reserved notional within the limit and remaining notionals non-negative |
| Portfolio.RunWithinLimit | lob_sim/oracle_kernel.py:471-573 | On every run total reserved stays within the limit and no AssertionError is reachable |
| Portfolio.AdmittedIsFillable | lob_sim/oracle_kernel.py:490-566 | After any run every outstanding order can be filled by any amount up to its remaining notional |
| Portfolio.NotionalConserved | lob_sim/oracle_kernel.py:460-573 | On every run reserved notional is what was admitted less what was filled, acknowledged or invalidated |
| Portfolio.InventoryFollowsOrders | lob_sim/oracle_kernel.py:477-566 | On every run each inventory is its last marked value plus the fills since, signed by the side and booked under the symbol the reservations asked for |
| Portfolio.SetInventoryMeaning | lob_sim/oracle_kernel.py:477-488 | Accepted iff the new gross inventory and what is reserved fit the limit; the symbol then holds exactly the marked value, zero as absent, and no other changes |
| Portfolio.ReserveMeaning | lob_sim/oracle_kernel.py:490-514 | Burns every fresh non-negative id; accepted iff the notional is positive and fits, then one live order of that symbol, side and notional |
| Portfolio.AdmittedThenFilled | lob_sim/oracle_kernel.py:507-566 | Right after an accepted reservation every fill of it within its notional is accepted and moves the inventory of its symbol by exactly that much, up for a bid and down for an ask |
| Portfolio.RequestCancelMeaning | lob_sim/oracle_kernel.py:516-524 | Accepted iff live; then pending_cancel, nothing else changed |
| Portfolio.CancelAckMeaning | lob_sim/oracle_kernel.py:526-534 | Accepted iff pending_cancel; then cancelled, nothing else changed |
| Portfolio.FillMeaning | lob_sim/oracle_kernel.py:536-566 | Moves the inventory of the symbol of the order by the units, signed by its side, and takes them off the order; each refusal named exactly, the limit never |
| Portfolio.InvalidateMeaning | lob_sim/oracle_kernel.py:568-573 | Exactly the outstanding orders become epoch_invalidated, all else kept |
| Portfolio.TerminalForever | lob_sim/oracle_kernel.py:516-573 | A filled, cancelled or invalidated order stays as it is on every later run and is never fillable again |
| Portfolio.GrossWith | lob_sim/oracle_kernel.py:455-457 | Gross inventory after a change of one symbol differs by exactly the change of that magnitude |
| PortfolioExposure.FreeIsReal | lob_sim/oracle_kernel.py:536-566 | In reachable states the ledger runs exactly as it would without the limit test inside a fill |
| PortfolioExposure.WorstGrossHappens | lob_sim/oracle_kernel.py:455-469 | The exposure, the sum over symbols of the larger of the two inventories that filling all bids or all asks leads to, is reached by some run of fills |
| PortfolioExposure.ExposureExact | lob_sim/oracle_kernel.py:455-469 | The outstanding orders can never take gross inventory past the limit iff the exposure stays within it |
| PortfolioExposure.AdmissionSlack | lob_sim/oracle_kernel.py:498-512 | An accepted order is always safe for gross inventory; a fresh order is refused although safe iff total reserved with it exceeds the limit while the exposure with it does not |
| PortfolioExposure.UnwindingRefused | lob_sim/oracle_kernel.py:498-512 | Concrete unnecessary refusal: with inventory 5 and limit 5 an ask for 5 is refused although it could only unwind |
| AccountingOracles.AccountingPosition.Apply | lob_sim/oracle_kernel.py:681-709 | The in-place branch structure of a fill (open, add, close, reverse) equals the specified position change and realized PnL |
| AccountingOracles.AccountingMarkoutOracle.Fill | lob_sim/oracle_kernel.py:668-713 | Whole new books and decision of a fill; flat positions are dropped |
| AccountingOracles.AccountingMarkoutOracle.Mark | lob_sim/oracle_kernel.py:658-662 | Whole new books and decision of a mark |
| AccountingOracles.AccountingMarkoutOracle.ClearMark | lob_sim/oracle_kernel.py:664-666 | Whole new books after a mark is cleared |
| AccountingOracles.AccountingMarkoutOracle.Markout | lob_sim/oracle_kernel.py:715-730 | Whole new books and decision of a signed markout |
| AccountingOracles.AccountingMarkoutOracle.CanonicalBytes | lob_sim/oracle_kernel.py:732-743 | The bytes printed piece by piece are those whose completeness is proved |
| AccountingLaws.WholeShare | lob_sim/oracle_kernel.py:599-605 | Truncating division allocates the whole basis to a full close, with no remainder |
| AccountingLaws.PartialShare | lob_sim/oracle_kernel.py:599-605 | A partial close keeps a basis at least the proportional share and less than one cash unit above it |
| AccountingLaws.InvRun | lob_sim/oracle_kernel.py:668-713 | On every run stored positions are open and their bases non-negative |
| AccountingLaws.FillConserves | lob_sim/oracle_kernel.py:681-709 | One fill moves the lots by its signed quantity, and cash, realized PnL and signed basis balance without a lost unit |
| AccountingLaws.StepConserves | lob_sim/oracle_kernel.py:668-713 | Every operation balances realized PnL, trade cash and open cost, and adds exactly its fee |
| AccountingLaws.CashConserved | lob_sim/oracle_kernel.py:640-713 | Over every run realized PnL equals net signed trade cash plus the change in signed cost basis, truncation included; fees add up |
| AccountingLaws.EquityIsMarkToMarket | lob_sim/oracle_kernel.py:640-652 | When every open position is marked, realized plus unrealized equals trade cash plus lots at their marks |
| AccountingLaws.LotsAreNet | lob_sim/oracle_kernel.py:681-709 | The lots of a symbol are the signed sum of its fills |
| AccountingLaws.EquityPathIndependent | lob_sim/oracle_kernel.py:640-730 | Permuting a run of fills, marks, clears and markouts changes neither lots, fees nor markout totals, and total equity only through the marks it ends with |
| AccountingLaws.FillOrderIrrelevant | lob_sim/oracle_kernel.py:640-713 | Permuting a run of fills never changes total equity |
| AccountingLaws.LongShortMirror | lob_sim/oracle_kernel.py:640-730 | Swapping every side negates lots, realized, unrealized and markout cash exactly and keeps bases, fees and marks |
| AccountingLaws.TrackFillDrift | lob_sim/oracle_kernel.py:681-709 | One fill keeps the drift of the stored basis over the exact rational basis within one unit per partial close |
| AccountingLaws.BasisDriftBounded | lob_sim/oracle_kernel.py:599-713 | Since a position was last flat or reversed, k partial closes leave its stored basis at least the exact rational one and less than k units above it (equal if k is 0), and it lies between the absolute lots times the lowest and the highest opening price |
| AccountingLaws.MarkoutsAddUp | lob_sim/oracle_kernel.py:715-730 | Over every run markout cash is the sum of the unrealized PnL each marked-out fill would show on its own, and nothing else moves it |
| AccountingLaws.MarksAreLatest | lob_sim/oracle_kernel.py:658-666 | The last valid mark of a symbol wins unless it was cleared since |
| AccountingLaws.TruncDivMeaning | lob_sim/oracle_kernel.py:599-605 | The quotient is the one toward zero, for numerators of either sign |
| AccountingLaws.FillMeaning | lob_sim/oracle_kernel.py:668-713 | Accepted iff price and quantity are positive; moves only its symbol, by its signed quantity, and the fees by its fee; from flat the basis is price times quantity times 1000000 |
| AccountingLaws.MarkMeaning | lob_sim/oracle_kernel.py:658-662 | Accepted iff the price is positive; sets the mark of its symbol and nothing else |
| AccountingLaws.ClearMarkMeaning | lob_sim/oracle_kernel.py:664-666 | Removes the mark of its symbol and nothing else |
| AccountingLaws.MarkoutMeaning | lob_sim/oracle_kernel.py:715-730 | Accepted iff both prices and the quantity are positive; cash moves by the price move times quantity times 1000000 in the direction of the side |
| AccountingLaws.UnrealizedMissing | lob_sim/oracle_kernel.py:640-643 | Unrealized PnL is missing iff some open position has no mark |
| Canonical.QueueBytesComplete | lob_sim/oracle_kernel.py:107-115 | Equal queue bytes imply equal queue states |
| Canonical.SchedulerBytesComplete | lob_sim/oracle_kernel.py:262-280 | Equal scheduler bytes imply equal counters, seen ids and pending actions |
| Canonical.RiskBytesComplete | lob_sim/oracle_kernel.py:407-417 | Equal risk bytes imply equal ledgers |
| Canonical.PortfolioBytesComplete | lob_sim/oracle_kernel.py:575-584 | Equal portfolio bytes imply equal ledgers |
| Canonical.AccountingBytesComplete | lob_sim/oracle_kernel.py:732-743 | Equal accounting bytes imply equal books of account |
| Canonical.BookBytesComplete | scripts/check_rust_python_parity.py:669-676 | Equal book bytes imply equal books |
| CanonicalLayout.QueueLayout | lob_sim/oracle_kernel.py:107-115 | The queue bytes are the format strings of the source: fields, order, names and separators |
| CanonicalLayout.SchedulerLayout | lob_sim/oracle_kernel.py:262-280 | The scheduler bytes are the format strings of the source |
| CanonicalLayout.RiskLayout | lob_sim/oracle_kernel.py:407-417 | The risk bytes are the format strings of the source |
| CanonicalLayout.PortfolioLayout | lob_sim/oracle_kernel.py:575-584 | The portfolio bytes are the format strings of the source |
| CanonicalLayout.AccountingLayout | lob_sim/oracle_kernel.py:732-743 | The accounting bytes are the format strings of the source |
| CanonicalLayout.BookLayout | scripts/check_rust_python_parity.py:672-675 | The book pieces are the format strings of the source |
| CanonicalLayout.CommasForm | lob_sim/oracle_kernel.py:109-110 | An id list is its decimals with a comma between neighbours |
| BookOracles.BookBytes | scripts/check_rust_python_parity.py:669-676 | The bytes printed level by level are those whose completeness is proved |
| Text.StrReads | lob_sim/oracle_kernel.py:107-115 | Printing an integer in decimal and reading it back gives the integer, with no padding zero |
| Text.CommasInjective | lob_sim/oracle_kernel.py:107-111 | A comma list of ids determines the list, the empty one included |
| Text.RenderInjective | lob_sim/oracle_kernel.py:107-115 | Two lists of colon-and-semicolon records that print alike are equal |
| LatencyOracles.ScenarioLatencyOracle.Create | lob_sim/oracle_kernel.py:150-175 | Construction fails exactly where one of the checks does, with the first failing one; otherwise the counter is the seed modulo 2^64 |
| LatencyOracles.ScenarioLatencyOracle.SetState | lob_sim/oracle_kernel.py:183-186 | Restoring accepts exactly the 64-bit words |
| LatencyOracles.ScenarioLatencyOracle.NextU64 | lob_sim/oracle_kernel.py:188-193 | The in-place word arithmetic advances the counter by one golden step and returns its mix |
| LatencyOracles.ScenarioLatencyOracle.Draw | lob_sim/oracle_kernel.py:195-202 | Value and new counter of a draw in each mode; an unknown component changes nothing |
| LatencyOracles.ScenarioLatencyOracle.DrawAll | scripts/check_rust_python_parity.py:643-666 | The latency trace: value and counter of every draw are those of the specification, and the sampler ends at the last counter |
| Latency.MixBijective | lob_sim/oracle_kernel.py:188-193 | The output mix is a bijection on 64-bit words, with an explicit two-sided inverse |
| Latency.StateClosedForm | lob_sim/oracle_kernel.py:188-190 | After n draws the counter is seed + n * 0x9E3779B97F4A7C15 modulo 2^64 |
| Latency.CounterDistinct | lob_sim/oracle_kernel.py:188-190 | Counters at most 2^64 - 1 draws apart are different |
| Latency.RawDistinct | lob_sim/oracle_kernel.py:188-193 | Any 2^64 consecutive raw outputs are pairwise distinct |
| Latency.FullPeriod | lob_sim/oracle_kernel.py:188-193 | In any window of 2^64 raw outputs every 64-bit word comes up exactly once |
| Latency.RestoreContinues | lob_sim/oracle_kernel.py:177-186 | Saving the counter and restoring it later continues the exact draw stream |
| Latency.StreamOfRaws | lob_sim/oracle_kernel.py:195-202 | The k-th empirical draw indexes the samples by the k-th raw output and leaves the counter k golden steps on; fixed draws give the component value; stress draws are the scaled maximum rounded down, never below a sample; only empirical mode moves the counter |
| Latency.ValidateMeaning | lob_sim/oracle_kernel.py:160-169 | A configuration is valid iff its mode is known, no latency is negative, samples are there where needed and the multiplier is at least 1000000; otherwise the first failed check is named |
| Latency.DrawRefusal | lob_sim/oracle_kernel.py:195-197 | Exactly unknown components are refused, in every mode |
| Latency.MixStages | lob_sim/oracle_kernel.py:188-193 | The stages of one raw output with the constants and shifts of SplitMix64 written out |
| Bits.UnshiftShift | lob_sim/oracle_kernel.py:191-193 | A right xor-shift by at least a third of the word is undone by two correction terms |
| Bits.ShiftUnshift | lob_sim/oracle_kernel.py:191-193 | That inverse is two-sided |
| Bits.XorBitwise | lob_sim/oracle_kernel.py:191-193 | Exclusive or acts on every bit by itself |
| BookOracles.ApplyBatchInOrder | scripts/check_rust_python_parity.py:44-63 | The loop over changes on copies of both sides yields the specified candidate or the first error |
| Book.BatchMeaning | scripts/check_rust_python_parity.py:44-63 | A batch is accepted iff all its changes are well formed and the levels it leaves are uncrossed; the accepted book is uncrossed with positive prices and quantities, and the last change per side and price wins |
| Book.BatchError | scripts/check_rust_python_parity.py:52-62 | The first malformed change decides the error, price before quantity; only a batch without one is judged for crossing |
| Book.BatchesCompose | scripts/check_rust_python_parity.py:44-63 | Two batches in sequence yield r iff the first is accepted and their concatenation, as one batch, yields r |
| Book.BatchesComposeIff | scripts/check_rust_python_parity.py:44-63 | From a sound book, two batches in sequence yield r iff their concatenation yields r as one batch and the changes of the first alone leave the book uncrossed |
| Book.CrossedMeaning | scripts/check_rust_python_parity.py:61-62 | The best-bid against best-ask test holds iff some bid is at or above some ask |
| Book.TransientCrossAllowed | scripts/check_rust_python_parity.py:44-63 | A concrete batch that crosses on the way and is accepted, while its first half alone is rejected |
| TokenBuckets.TokenBucket.constructor | lob_sim/util.py:52-60 | A non-positive rate disables the limiter; a missing capacity defaults to the rate; the bucket starts full |
| TokenBuckets.TokenBucket.Acquire | lob_sim/util.py:62-77 | The acquire loop on a list of clock readings: which reading lets it return, the bucket left, and the exact sleeps asked for |
| TokenBuckets.Budget | lob_sim/util.py:66-74 | Tokens granted plus tokens left never exceed a full bucket plus what the rate added since the first attempt |
| TokenBuckets.RateBound | lob_sim/util.py:66-74 | Any run of attempts is granted at most capacity + rate times its span, whatever the state it starts from |
| TokenBuckets.WindowBound | lob_sim/util.py:66-74 | In any window [s, t] of any run with a monotone clock at most max(0, capacity + rate * (t - s)) tokens are granted |
| TokenBuckets.AcquireIsPasses | lob_sim/util.py:62-77 | An acquire is a run of loop passes: same bucket left, n tokens handed out exactly when it returns, one pass per reading used |
| TokenBuckets.AcquiresBound | lob_sim/util.py:52-77 | The rate bound on any sequence of acquires, granted or still waiting: passes whose readings fall in [s, t], wherever the window cuts the sequence, hand out at most max(0, capacity + rate * (t - s)) tokens |
| TokenBuckets.OneSleepSuffices | lob_sim/util.py:62-77 | If n fits the capacity and the sleep lasts at least as long as asked, acquire returns after at most one sleep |
| TokenBuckets.SleepExact | lob_sim/util.py:66-77 | After a failed attempt at a fitting request the next attempt succeeds iff at least the requested sleep has passed |
| TokenBuckets.WaitsMeaning | lob_sim/util.py:65-77 | An acquire asks for one sleep per failed pass, each the missing tokens over the rate |
| TokenBuckets.AttemptMeaning | lob_sim/util.py:67-74 | A pass gains the rate times the elapsed time, cut off at the capacity, grants iff that covers n, and then takes exactly n |
| TokenBuckets.RefillsCompose | lob_sim/util.py:67-71 | Two refills in a row are one |
| TokenBuckets.InitialMeaning | lob_sim/util.py:52-60 | A positive rate starts with a full bucket of the given or default capacity; any other disables the limiter and acquires return at once |
| TokenBuckets.TooLargeNeverGranted | lob_sim/util.py:62-77 | A request above the capacity is never granted, however long it waits |
| TokenBuckets.AcquireTerminates | lob_sim/util.py:62-77 | On an enabled limiter acquire can return at all iff the request fits the capacity |

## Left out

- SHA-256 and every `state_sha256`: the model stops at the canonical bytes, and a trace row carries the component bytes instead of their hash.
- UTF-8 encoding of the bytes: all pieces are ASCII, and the bytes are modelled as the string.
- Reason texts: reasons are constructors of one datatype; their spelling is not modelled.
- `latency_ms_to_us` (`lob_sim/oracle_kernel.py:132-137`): a float conversion.
- `LogicalTime` (`lob_sim/record/envelope.py:100-107`): a pair of naturals; its refusal of negative components is modelled where the composed contract builds one, its refusal of non-integers is not. In the scheduler trace the unused time of a cancel is not built.
- The inner workings of `heapq`: `MinHeap` is a binary heap in a growing array with pairwise swaps and the same interface; the library's own element movement is not modelled, and no result depends on it.
- Iteration order of `invalidate_epoch`: the loops visit ids in increasing order instead of insertion order; the result does not depend on it.
- Python's shared mutable records: the objects keep every record in one dictionary under one id, which is what the class invariants say.
- Constructors that raise ValueError are `Create` methods that return null in exactly those cases.
- A raise inside the composed trace: the original returns no rows at all, the model returns the rows so far and a final marker.
- TokenBuckets.TokenBucket.Acquire: time and tokens are reals, not floats; the event-loop clock is a list of readings handed in; the asyncio lock appears only as acquires being served one after the other, and sleeping itself and cancellation while asleep are not modelled.
- Read-only counters other than those used above (`pending_count`, `gross_position_lots`, `inventory_by_symbol` and the like): one-line sums and copies.
- SchedulerOracles.SchedulerTrace: a checkpoint carries the canonical bytes instead of their hash, and a checkpoint interval of zero, on which the original divides by zero, is excluded.
- The per-component traces of the parity script other than the scheduler, latency and composed ones: they only repeat method calls.
- The random operation generators, the fixed operation list, the native extension, subprocess and wheel handling: plumbing; the dispatcher is proved for every operation sequence instead.
- Everything outside the three files named above (exchange simulation, synchronizers, collectors, configuration, experiments, reports): not part of this model.
