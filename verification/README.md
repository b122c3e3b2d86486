# Flight booking canister — reservation and payment model

A Dafny model of the backend canister of a flight booking dapp on the Internet
Computer. Operators list flights in a registry. A traveller opens a pending
booking on a flight. The traveller then pays the amount owed on the ICP ledger,
using the booking's correlation id (its *memo*). The canister checks the
payment against a ledger block, confirms the booking and holds the flight for
the traveller. When the hold has run out, the holder ends it and the
reservation fee is refunded. A one-shot timer discards bookings that were
never paid.

The canister state is one immutable record, `Types.Canister`. It holds:

- the three stable tables: flights by id, pending bookings by memo, confirmed bookings by principal;
- the optional reservation fee;
- the multiset of armed discard timers.

Every update call is a pure function from a state to a new state and a reply
(`Ok`, `Err(Message)` or `Trap`). The caller, the clock (`ic.time()`,
nanoseconds), the fresh uuid and correlation id, and the ledger's answers are
explicit parameters:

- the blocks `query_blocks` returns;
- the current transfer fee;
- the outcome of the refund transfer.

The two awaited ledger queries, `query_blocks` and `transfer_fee`, may also come
back rejected (`Ledger.Answer`). A rejected awaited call throws, so the update
call traps with no change.

Opaque library functions sit in `Ledger.Env`:

- the derivation of a principal's ledger address;
- the content hash used to compare addresses;
- the canister's own principal.

The iteration order of the flight table is also a parameter, a key sequence
checked by `Registry.IsListing`.

Files, one module each: `types.dfy` (records and tables), `registry.dfy`
(flight CRUD and queries), `ledger.dfy` (payment matching and refund),
`reservation.dfy` (the booking state machine and the timer),
`invariants.dfy` (the state invariant and its preservation),
`properties.dfy` (properties relating several calls), `trace.dfy` (runs of
calls from installation).

The invariant `Invariants.Valid` says three things:

- every flight is stored under its own id and is reserved exactly when both holder and end time are set;
- every pending booking is stored under its memo, is `PaymentPending` with no block, and has an armed timer;
- every confirmed booking is `Completed` with its paying block.

Behaviour of the code worth noting, modelled as written:

- Ending a hold is refused only while the recorded end is strictly later than now. At the end time itself it succeeds (`Reservation.HoldOver`).
- Confirming on an unknown flight throws (index.ts:356). It is modelled as the `Trap` reply, not as a typed error.
- Confirmation recomputes the amount from the flight's current price and the number of persons its own caller passes (index.ts:352, 369). It does not compare that number with the pending booking's, so a five-person order owing 510 is confirmed by a payment of 10 passed with zero persons (`Properties.UnderpaidOrderConfirms`). Nor does it check that the pending booking belongs to the flight being held, or whether that flight is already held: another caller can confirm any paid pending booking of theirs against a held flight and take the hold over, after which the first holder can no longer end it (`Properties.HoldTakenOverByOtherConfirmation`).
- The hold lasts a fixed 60 seconds (60·10⁹ ns), whatever the number of persons. The pending window is 120 seconds.
- The confirmed booking is stored under the confirming caller. Its `payer` is the principal that opened the order, which may be someone else.

One point follows the evident intent instead: ending a hold uses the refund with
the transfer awaited (`Ledger.MakePayment`). So a failed refund transfer is
reported and leaves the flight held. As deployed, the refund always reports
completion and the flight is released; see "## Findings". The deployed version
(`Reservation.EndReservationAsWritten`) equals the model's with the ledger
accepting the transfer, so every result about runs covers the deployed canister
too.

## Model

| member | source | states |
|---|---|---|
| Registry.AddFlight | src/dfinity_js_backend/src/index.ts:195-210 | A new flight carries the payload's fields, the fresh id and the caller as creator. It starts available and unreserved, with no holder and no end time, so it is reservation-consistent. Only the flight table changes, at that id. |
| Registry.UpdateFlight | src/dfinity_js_backend/src/index.ts:214-226 | An unknown id gives NotFound with no change. Otherwise every payload field is overwritten. The reservation fields, creator and availability are kept. Nothing else in the state changes. |
| Registry.DeleteFlight | src/dfinity_js_backend/src/index.ts:230-251 | Errors come in the order NotFound, NotOwner, Booked, each with no change. The call succeeds exactly for the creator of an unreserved flight. It then returns the flight's id and removes only that key. |
| Registry.GetFlight | src/dfinity_js_backend/src/index.ts:167-173 | Returns the stored flight exactly when the id is present, and NotFound otherwise. |
| Registry.Filter | src/dfinity_js_backend/src/index.ts:179-188 | Walking the table's enumeration and keeping the passing flights yields the reference filter `Registry.Selected`. That is the passing flights in enumeration order. |
| Registry.SelectedMembers | src/dfinity_js_backend/src/index.ts:179-188 | A flight is in the reference filter iff it passes and some enumerated key holds it. Proved by induction on the enumeration. |
| Registry.SelectedFromListing | src/dfinity_js_backend/src/index.ts:179-188 | Over a full enumeration of the table, the filter holds exactly the stored flights that pass. |
| Registry.GetFlightByPrice | src/dfinity_js_backend/src/index.ts:178-181 | Returns the reference filter with the price predicate `Registry.PriceAtMost`: the stored flights whose per-person price is at most the bound, in enumeration order, each once per key holding it. A flight is in the result iff it is stored and its price is at most the bound. |
| Registry.GetFlightByPlace | src/dfinity_js_backend/src/index.ts:184-190 | Returns the reference filter with the route predicate `Registry.OnRoute`, in enumeration order. A flight is in the result iff it is stored and its normalised departure and arrival equal the normalised query places. |
| Ledger.FindMatch | src/dfinity_js_backend/src/index.ts:568-581 | Returns the first block matching (memo, sender, receiver, amount), or none when no block matches. |
| Ledger.VerifyPayment | src/dfinity_js_backend/src/index.ts:559-583 | The payment is verified iff some returned block is a transfer with the booking's memo and exactly the amount. Its sender and receiver must hash like the caller's and the canister's addresses. |
| Ledger.MatchIsExactWhenHashInjective | src/dfinity_js_backend/src/index.ts:575-580 | With a collision-free hash, a match is exactly a transfer of that amount with that memo from the caller's address to the canister's address. The lemma is proved in both directions. |
| Ledger.RefundTransfer | src/dfinity_js_backend/src/index.ts:516-536 | The refund sends the amount less the ledger's transfer fee, with that fee passed separately, memo 0, to the caller's address. Transferred amount plus fee equals the refunded amount. |
| Ledger.MakePaymentAsWritten | src/dfinity_js_backend/src/index.ts:516-541 | As written, the refund reports PaymentCompleted whatever the ledger answers, because the transfer is not awaited. It submits the same transfer as the corrected refund: fee less transfer fee, the transfer fee, memo 0, to the caller. |
| Ledger.MakePayment | src/dfinity_js_backend/src/index.ts:516-541 | The refund reports PaymentFailed carrying the ledger error iff the transfer fails, and PaymentCompleted otherwise. |
| Ledger.RefundFailureHiddenAsWritten | src/dfinity_js_backend/src/index.ts:521-540 | For a failed transfer, the as-written refund reports success while the corrected one reports the failure. Both submit the same transfer. |
| Reservation.Init | src/dfinity_js_backend/src/index.ts:143-145 | Installation sets the reservation fee and starts with empty tables and no timers. |
| Reservation.GetReservationFee | src/dfinity_js_backend/src/index.ts:485-490 | Returns the fee when it is set and zero when it is unset. |
| Reservation.Hold | src/dfinity_js_backend/src/index.ts:403-408 | A held flight is reserved to the holder until the given end. It stays reservation-consistent and keeps all other fields. |
| Reservation.Release | src/dfinity_js_backend/src/index.ts:461-466 | A released flight is unreserved with no holder and no end. It stays reservation-consistent and keeps all other fields. |
| Reservation.CreateReservationOrder | src/dfinity_js_backend/src/index.ts:300-346 | Errors come in the order NotFound (flight), NotFound (fee), Booked, each with no change. On success the booking is pending, paid by the caller with no block, under the memo, and owes persons × price + fee. It is inserted under its memo and a timer is armed 120 s ahead. Flights, confirmed bookings and the fee are unchanged. |
| Reservation.CompleteReservation | src/dfinity_js_backend/src/index.ts:349-414 | It traps iff the flight is unknown, or the fee is set and the ledger rejects the block query. Every other failure is NotFound and leaves the state unchanged. It succeeds iff the fee is set, the ledger answers with a matching payment of persons × current price + fee, and the memo is pending. On success: the pending row is removed; the caller's confirmed booking is that row marked Completed at the block; the flight is held by the caller until now + 60 s; fee and timers are unchanged. |
| Reservation.EndRefusal | src/dfinity_js_backend/src/index.ts:420-452 | No check of ending a hold fails iff the flight exists, is reserved to the caller, its end is at most now, and the fee is set. |
| Reservation.EndReservation | src/dfinity_js_backend/src/index.ts:418-471 | Errors come in the order NotFound, NotBooked, NotBooked, Booked (end still ahead), NotBooked, Booked (not the holder), NotFound (fee), each with no change and no transfer. Once all checks pass, a rejected transfer-fee query traps with no change and no transfer. Otherwise a refund of the fee less the transfer fee is submitted to the caller. A failed refund is returned as is with the state unchanged; otherwise the flight is released and PaymentCompleted returned. |
| Reservation.EndReservationAsWritten | src/dfinity_js_backend/src/index.ts:418-471 | The deployed end of a hold: a refused call changes nothing and does not succeed. Once a refund is submitted it reports PaymentCompleted and releases the flight, whatever the transfer's outcome. |
| Reservation.EndAsWrittenIgnoresRefundOutcome | src/dfinity_js_backend/src/index.ts:454-468 | For every transfer outcome, the deployed end of a hold equals the modelled one with the ledger accepting the transfer. Every run of the deployed canister is therefore a run of the model, and the results about runs cover it. |
| Reservation.DiscardByTimeout | src/dfinity_js_backend/src/index.ts:552-557 | The callback removes the memo's pending row and keeps every other row. If the memo is not pending, nothing changes. |
| Reservation.FireTimer | src/dfinity_js_backend/src/index.ts:552-556 | A due armed timer is disarmed and its memo is no longer pending. Every other pending booking is kept unchanged. Flights, confirmed bookings and the fee are untouched. |
| Invariants.InitValid | src/dfinity_js_backend/src/index.ts:124-145 | The installed state satisfies the invariant. |
| Invariants.AddFlightPreservesValid | src/dfinity_js_backend/src/index.ts:199-208 | Listing a flight preserves the invariant: the new flight is stored under its id, unreserved with no holder or end. |
| Invariants.UpdateFlightPreservesValid | src/dfinity_js_backend/src/index.ts:214-224 | Updating a flight preserves the invariant. Its payload has no reservation fields. |
| Invariants.DeleteFlightPreservesValid | src/dfinity_js_backend/src/index.ts:230-250 | Deleting a flight preserves the invariant. |
| Invariants.CreateReservationOrderPreservesValid | src/dfinity_js_backend/src/index.ts:326-342 | Opening a booking preserves the invariant. The new pending row is stored under its memo and has its timer armed. |
| Invariants.CompleteReservationPreservesValid | src/dfinity_js_backend/src/index.ts:385-411 | Confirming preserves the invariant. The held flight has both holder and end set, and the confirmed booking is Completed at its block. |
| Invariants.EndReservationPreservesValid | src/dfinity_js_backend/src/index.ts:454-468 | Ending a hold preserves the invariant. The released flight has neither holder nor end. |
| Invariants.FireTimerPreservesValid | src/dfinity_js_backend/src/index.ts:552-556 | Firing a timer preserves the invariant. Every remaining pending booking still has an armed timer. |
| Trace.NextPreservesValid | src/dfinity_js_backend/src/index.ts:195-557 | Every update call and every timer firing preserves the invariant. |
| Trace.RunPreservesValid | src/dfinity_js_backend/src/index.ts:124-557 | Any sequence of calls and timer firings preserves the invariant. Proved by induction on the sequence. |
| Trace.ReachableStatesAreConsistent | src/dfinity_js_backend/src/index.ts:199-466 | In every state reachable from installation, each flight is stored under its id and is reserved iff holder and end time are both set. Each pending booking is stored under its memo, awaits payment and has a discard timer armed. |
| Properties.SecondConfirmationFails | src/dfinity_js_backend/src/index.ts:385-390 | After a memo is confirmed, any further confirmation of it fails and changes nothing, whoever calls and whatever the ledger shows. |
| Properties.ConfirmAfterDiscardFails | src/dfinity_js_backend/src/index.ts:552-556 | After the discard callback has run, confirming that memo fails with no change. It fails with NotFound when the flight exists and the ledger answers. |
| Properties.StaleTimerIsNoOp | src/dfinity_js_backend/src/index.ts:552-556 | A timer whose memo is no longer pending only disarms itself. |
| Properties.ConfirmChargesOrderedAmount | src/dfinity_js_backend/src/index.ts:326-327 | While the price is unchanged, a confirmation of a fresh order that passes the order's own number of persons verifies exactly the amount the order quoted (persons × price + fee). It succeeds iff the ledger answers with such a payment, and yields the order's booking marked Completed. |
| Properties.OrderOnHeldFlightFails | src/dfinity_js_backend/src/index.ts:319-323 | After a confirmation, every new order on that flight fails with Booked and no change, whoever asks. |
| Properties.OnlyHolderEnds | src/dfinity_js_backend/src/index.ts:435-445 | After a confirmation, anyone but the holder is refused with Booked at any time until another confirmation replaces the hold, and no transfer is made. |
| Properties.HoldTakenOverByOtherConfirmation | src/dfinity_js_backend/src/index.ts:354-410 | After A's confirmation holds a flight, B (not A) with any other pending booking whose payment verifies confirms it against that flight and becomes the holder. A is then refused with Booked at any time and no refund is submitted. |
| Properties.EndNotBookedMeansFree | src/dfinity_js_backend/src/index.ts:427-441 | On a valid state, NotBooked from ending a hold means the flight exists and is simply not reserved. |
| Properties.EndSucceedsExactlyForHolderAfterEnd | src/dfinity_js_backend/src/index.ts:427-468 | With the ledger accepting, ending succeeds iff the flight is reserved to the caller, its end is at most now and the fee is set. The flight then becomes free with its details unchanged. |
| Properties.ReleaseUndoesHold | src/dfinity_js_backend/src/index.ts:403-466 | Releasing a hold gives the same flight as releasing the original, and gives the original back for a freshly listed flight. |
| Properties.BookingLifecycle | src/dfinity_js_backend/src/index.ts:300-471 | End-to-end run. Price 100, fee 10, two persons: the booking owes 210. Paying 210 at block 5 confirms it and holds the flight. Ending at once gives Booked. Ending at the hold end releases the flight and refunds 10 less the transfer fee. |
| Properties.ConfirmChargesConfirmersCount | src/dfinity_js_backend/src/index.ts:352-397 | After any successful order, a confirmation passing n persons succeeds iff the ledger shows a payment of n × price + fee, whatever the order's number of persons. The confirmed booking keeps the order's persons and amount. |
| Properties.UnderpaidOrderConfirms | src/dfinity_js_backend/src/index.ts:300-411 | Price 100, fee 10: a five-person order owes 510, yet a confirmation passing zero persons accepts a payment of 10 and holds the flight for the payer. |
| Properties.UnpaidOrderExpires | src/dfinity_js_backend/src/index.ts:340-342 | An unpaid order's timer is due 120 s after it was opened. Once it fires the booking is gone and confirming it fails with no change; with the ledger answering it gives NotFound. |

## Left out

- User CRUD (`addUser`, `getUser`, `updateUser`, `deleteUser`): plain keyed storage that never interacts with reservations.
- The list queries `getFlights`, `getBookings`, `getPendings`, `getUsers`, and the address helpers `getCanisterAddress` and `getAddressFromPrincipal`: they return table contents or library output and have no logic.
- The ledger canister itself. Its answers are parameters: the blocks `query_blocks` returns, the transfer fee and the transfer outcome.
- `hashCode`, `binaryAddressFromPrincipal`, `hexAddressFromPrincipal` and `binaryAddressFromAddress` are foreign library code. They are the opaque functions of `Ledger.Env`. The hex-then-binary round trip of the refund address is taken to give the binary address of the principal.
- The correlation id hash of flight id, caller and time, and `uuidv4` with its random-number shim: the fresh memo and the fresh flight id are parameters.
- Suspension at `await` points and interleaving with other calls: each call is one atomic transition. Confirmation reads the flight before its ledger query and writes that copy back afterwards (index.ts:354, 372, 410). Ending a hold does the same around the refund (index.ts:420, 454, 468). The model reads and writes at one instant, so another call's change to that flight in between, which the write-back would undo, is not modelled.
- Timer scheduling: the timer is an explicit `FireTimer` transition, allowed once the timer is due. No fairness, meaning that a timer eventually fires, is modelled.
- `addFlight`'s payload check: a decoded record always has fields, so the check cannot fail and is not modelled.
- Message texts: replies carry only the message variant, except a refund failure's ledger error.
- `toLowerCase` in `getFlightByPlace`: Unicode case mapping is runtime behaviour, abstracted as a normalisation function parameter.
- nat64 bounds: amounts, times and memos are unbounded naturals, as the canister's BigInt arithmetic is. Candid encoding of a value at or above 2^64 (an overflowing amount, a negative refund) is not modelled.
- Reservation.EndReservation: its failed-refund branch (PaymentFailed, flight still held) is the intended behaviour with the transfer awaited, not the deployed one. As deployed the refund always reports PaymentCompleted and releases the flight, as `Reservation.EndReservationAsWritten` and `Reservation.EndAsWrittenIgnoresRefundOutcome` show.
- Ledger.MakePayment: a rejected transfer call is not modelled; only the ledger's `Ok` and `Err` answers are. As written the transfer is not awaited, so its rejection cannot affect the reply.
- Canister upgrades: `reservationFee` is a heap variable, so an upgrade resets it to unset, and armed timers are dropped. The model has no upgrade transition; the fee is set only at installation.
- Log output.

## Findings

| source | as written | input that shows it | evidently intended | confidence | as-written member | corrected member |
|---|---|---|---|---|---|---|
| src/dfinity_js_backend/src/index.ts:521-540 | The transfer promise is not awaited, so `"Err" in transferResult` is always false and the refund always reports PaymentCompleted. | A refund whose ledger transfer answers `Err` (for instance insufficient funds): the caller is told the refund completed and the flight is released. | Await the transfer and report PaymentFailed with the ledger error, leaving the flight held. | high; not executed | Ledger.MakePaymentAsWritten (shown by Ledger.RefundFailureHiddenAsWritten), Reservation.EndReservationAsWritten | Ledger.MakePayment (used by Reservation.EndReservation) |
