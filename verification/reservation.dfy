/**
 The reservation engine: opening a pending booking, confirming it against a
 ledger payment, ending a hold with a refund of the reservation fee, and the
 timer that discards unpaid bookings. Each canister call is one atomic
 transition on `Canister`; the caller, the clock (nanoseconds), the fresh
 correlation id and the ledger's answers are parameters.
 */
module Reservation {
  import opened Types
  import opened Ledger

  const NANOS_PER_SECOND: nat := 1_000_000_000

  /** How long an unpaid booking stays pending, in seconds. */
  const ORDER_RESERVATION_PERIOD: nat := 120

  /** How long a confirmed hold lasts, in nanoseconds; fixed, whatever the number of persons. */
  const HOLD_DURATION: nat := 60 * NANOS_PER_SECOND

  /** The state right after installation with the given reservation fee. */
  function Init(reservationFee: nat): (s: Canister)
    ensures s.fee == Some(reservationFee)
    ensures s.flights == map[] && s.pending == map[] && s.persisted == map[] && s.timers == multiset{}
  {
    Canister(map[], map[], map[], Some(reservationFee), multiset{})
  }

  /** The reservation fee, read as zero while unset. */
  function GetReservationFee(s: Canister): (r: nat)
    ensures s.fee.Some? ==> r == s.fee.value
    ensures s.fee.None? ==> r == 0
  {
    match s.fee
    case Some(fee) => fee
    case None => 0
  }

  /** The amount owed: the price for every person plus the refundable fee. */
  function BookingAmount(noOfPersons: nat, pricePerPerson: nat, fee: nat): nat {
    noOfPersons * pricePerPerson + fee
  }

  /** The flight held by `holder` until `ends`. */
  function Hold(f: Flight, holder: Principal, ends: nat): (r: Flight)
    ensures r.isReserved && r.currentReservedTo == Some(holder) && r.currentReservationEnds == Some(ends)
    ensures ReservationConsistent(r)
    ensures SameDetails(r, f)
  {
    f.(currentReservedTo := Some(holder), isReserved := true, currentReservationEnds := Some(ends))
  }

  /** The flight with its hold released. */
  function Release(f: Flight): (r: Flight)
    ensures !r.isReserved && r.currentReservedTo.None? && r.currentReservationEnds.None?
    ensures ReservationConsistent(r)
    ensures SameDetails(r, f)
  {
    f.(currentReservedTo := None, isReserved := false, currentReservationEnds := None)
  }

  /**
   Opens a pending booking for `noOfPersons` on flight `id`, keyed by the fresh
   correlation id `memo`, and arms its discard timer. Errors, in order: the
   flight is unknown (NotFound), the fee is unset (NotFound), the flight is
   reserved (Booked); an error changes nothing.
   */
  function CreateReservationOrder(s: Canister, caller: Principal, now: nat, id: string,
                                  noOfPersons: nat, memo: nat): (r: Step<Booking>)
    ensures id !in s.flights ==> r == Step(s, Err(NotFound))
    ensures id in s.flights && s.fee.None? ==> r == Step(s, Err(NotFound))
    ensures id in s.flights && s.fee.Some? && s.flights[id].isReserved ==> r == Step(s, Err(Booked))
    ensures r.reply.Ok? <==> id in s.flights && s.fee.Some? && !s.flights[id].isReserved
    ensures r.reply.Ok? ==>
      var b := r.reply.value;
      && b.flightId == s.flights[id].id
      && b.amount == noOfPersons * s.flights[id].pricePerPerson + s.fee.value
      && b.noOfPersons == noOfPersons
      && b.status == PaymentPending && b.payer == caller && b.paidAtBlock.None? && b.memo == memo
      && r.state.pending == s.pending[memo := b]
      && r.state.timers == s.timers + multiset{Timer(memo, now + ORDER_RESERVATION_PERIOD * NANOS_PER_SECOND)}
      && r.state.flights == s.flights && r.state.persisted == s.persisted && r.state.fee == s.fee
  {
    if id !in s.flights then
      Step(s, Err(NotFound))
    else if s.fee.None? then
      Step(s, Err(NotFound))
    else
      var flight := s.flights[id];
      if flight.isReserved then
        Step(s, Err(Booked))
      else
        var amount := BookingAmount(noOfPersons, flight.pricePerPerson, s.fee.value);
        var booking := Booking(flight.id, amount, noOfPersons, PaymentPending, caller, None, memo);
        var timer := Timer(memo, now + ORDER_RESERVATION_PERIOD * NANOS_PER_SECOND);
        Step(s.(pending := s.pending[memo := booking], timers := s.timers + multiset{timer}), Ok(booking))
  }

  /**
   Confirms the pending booking `memo` once the ledger shows a matching payment
   from the caller of the amount recomputed from the flight's current price.
   `blocks` is the ledger's answer to the block query. An unknown flight traps,
   and so does a rejected query once the fee is known to be set. Otherwise, in
   order: the fee is unset, the payment does not verify, or no booking is
   pending under `memo` gives NotFound with no change. On success the pending row moves to the caller's confirmed
   booking and flight `id` is held by the caller for HOLD_DURATION. The flight
   is not checked against the booking's own flight, nor for an existing hold.
   */
  function CompleteReservation(s: Canister, env: Env, caller: Principal, now: nat, blocks: Answer<seq<Block>>,
                               id: string, noOfPersons: nat, block: nat, memo: nat): (r: Step<Booking>)
    ensures r.reply.Trap? <==> id !in s.flights || (s.fee.Some? && blocks.Rejected?)
    ensures !r.reply.Ok? ==> r.state == s
    ensures id in s.flights && s.fee.None? ==> r.reply == Err(NotFound)
    ensures r.reply.Err? ==> r.reply.error == NotFound
    ensures r.reply.Ok? <==>
      && id in s.flights && s.fee.Some? && blocks.Answered?
      && (exists i :: 0 <= i < |blocks.value| &&
            Matches(env, blocks.value[i], caller, noOfPersons * s.flights[id].pricePerPerson + s.fee.value, memo))
      && memo in s.pending
    ensures r.reply.Ok? ==>
      var b := r.reply.value;
      && b == s.pending[memo].(status := Completed, paidAtBlock := Some(block))
      && r.state.pending == s.pending - {memo}
      && r.state.persisted == s.persisted[caller := b]
      && r.state.flights == s.flights[s.flights[id].id := Hold(s.flights[id], caller, now + HOLD_DURATION)]
      && r.state.fee == s.fee && r.state.timers == s.timers
  {
    if id !in s.flights then
      Step(s, Trap)
    else
      var flight := s.flights[id];
      if s.fee.None? then
        Step(s, Err(NotFound))
      else if blocks.Rejected? then
        Step(s, Trap)
      else
        var amount := BookingAmount(noOfPersons, flight.pricePerPerson, s.fee.value);
        if !VerifyPayment(env, blocks.value, caller, amount, memo) then
          Step(s, Err(NotFound))
        else if memo !in s.pending then
          Step(s, Err(NotFound))
        else
          var booking := s.pending[memo].(status := Completed, paidAtBlock := Some(block));
          var held := Hold(flight, caller, now + HOLD_DURATION);
          Step(s.(flights := s.flights[flight.id := held],
                  pending := s.pending - {memo},
                  persisted := s.persisted[caller := booking]),
               Ok(booking))
  }

  /** The flight's recorded hold end has been reached; equality counts as reached. */
  predicate HoldOver(f: Flight, now: nat) {
    f.currentReservationEnds.Some? && f.currentReservationEnds.value <= now
  }

  /** The state after ending a hold, its reply, and the refund transfer submitted, if any. */
  datatype EndStep = EndStep(state: Canister, reply: Reply<Message>, refund: Option<TransferArgs>)

  /**
   The first check of ending a hold that fails, with its error, in the order
   the canister makes them; None once every check passes.
   */
  function EndRefusal(s: Canister, caller: Principal, now: nat, id: string): (r: Option<Message>)
    ensures r.None? <==>
      && id in s.flights && s.flights[id].isReserved && HoldOver(s.flights[id], now)
      && s.flights[id].currentReservedTo == Some(caller) && s.fee.Some?
  {
    if id !in s.flights then Some(NotFound)
    else
      var flight := s.flights[id];
      if !flight.isReserved then Some(NotBooked)
      else if flight.currentReservationEnds.None? then Some(NotBooked)
      else if flight.currentReservationEnds.value > now then Some(Booked)
      else if flight.currentReservedTo.None? then Some(NotBooked)
      else if flight.currentReservedTo.value.text != caller.text then Some(Booked)
      else if s.fee.None? then Some(NotFound)
      else None
  }

  /**
   Ends the caller's hold on flight `id` and refunds the reservation fee.
   Errors, in order: flight unknown (NotFound), not reserved (NotBooked), no end
   time (NotBooked), end time still ahead (Booked), no holder (NotBooked),
   caller not the holder (Booked), fee unset (NotFound); none changes anything
   or submits a transfer. Then the ledger's transfer fee is asked for
   (`transferFee`); a rejected request traps with no change. Otherwise the
   refund is submitted; its failure is returned as is with the flight still
   held, otherwise the flight is released.
   */
  function EndReservation(s: Canister, env: Env, caller: Principal, now: nat, id: string,
                          transferFee: Answer<nat>, outcome: TransferResult): (r: EndStep)
    ensures id !in s.flights ==> r == EndStep(s, Err(NotFound), None)
    ensures id in s.flights ==>
      var f := s.flights[id];
      && (!f.isReserved ==> r == EndStep(s, Err(NotBooked), None))
      && (f.isReserved && f.currentReservationEnds.None? ==> r == EndStep(s, Err(NotBooked), None))
      && (f.isReserved && f.currentReservationEnds.Some? && f.currentReservationEnds.value > now ==>
            r == EndStep(s, Err(Booked), None))
      && (f.isReserved && HoldOver(f, now) && f.currentReservedTo.None? ==> r == EndStep(s, Err(NotBooked), None))
      && (f.isReserved && HoldOver(f, now) && f.currentReservedTo.Some? && f.currentReservedTo.value != caller ==>
            r == EndStep(s, Err(Booked), None))
      && (f.isReserved && HoldOver(f, now) && f.currentReservedTo == Some(caller) && s.fee.None? ==>
            r == EndStep(s, Err(NotFound), None))
    ensures (r.refund.Some? || r.reply.Trap?) <==>
      && id in s.flights && s.flights[id].isReserved
      && HoldOver(s.flights[id], now) && s.flights[id].currentReservedTo == Some(caller) && s.fee.Some?
    ensures r.reply.Trap? ==> transferFee.Rejected? && r == EndStep(s, Trap, None)
    ensures r.refund.Some? ==>
      && transferFee.Answered? && r.refund.value.amount + r.refund.value.fee == s.fee.value
      && r.refund.value.fee == transferFee.value && r.refund.value.to == env.addressOf(caller)
    ensures r.refund.Some? && outcome.TransferErr? ==> r.reply == Err(PaymentFailed(outcome.reason)) && r.state == s
    ensures r.refund.Some? && outcome.TransferOk? ==>
      && r.reply == Ok(PaymentCompleted)
      && r.state == s.(flights := s.flights[s.flights[id].id := Release(s.flights[id])])
  {
    match EndRefusal(s, caller, now, id)
    case Some(e) => EndStep(s, Err(e), None)
    case None =>
      if transferFee.Rejected? then
        EndStep(s, Trap, None)
      else
        var flight := s.flights[id];
        var payment := MakePayment(env, caller, s.fee.value, transferFee.value, outcome);
        if payment.result.Err? then
          EndStep(s, payment.result, Some(payment.args))
        else
          EndStep(s.(flights := s.flights[flight.id := Release(flight)]), payment.result, Some(payment.args))
  }

  /**
   The deployed `endReservation`: the same checks, but the refund as written
   (`Ledger.MakePaymentAsWritten`), so once the checks pass and the fee query
   is answered the flight is released and PaymentCompleted reported, whatever
   the ledger does with the transfer.
   */
  function EndReservationAsWritten(s: Canister, env: Env, caller: Principal, now: nat, id: string,
                                   transferFee: Answer<nat>, outcome: TransferResult): (r: EndStep)
    ensures r.refund.None? ==> r.state == s && !r.reply.Ok?
    ensures r.refund.Some? ==>
      && id in s.flights && r.reply == Ok(PaymentCompleted)
      && r.state == s.(flights := s.flights[s.flights[id].id := Release(s.flights[id])])
  {
    match EndRefusal(s, caller, now, id)
    case Some(e) => EndStep(s, Err(e), None)
    case None =>
      if transferFee.Rejected? then
        EndStep(s, Trap, None)
      else
        var flight := s.flights[id];
        var payment := MakePaymentAsWritten(env, caller, s.fee.value, transferFee.value, outcome);
        if payment.result.Err? then
          EndStep(s, payment.result, Some(payment.args))
        else
          EndStep(s.(flights := s.flights[flight.id := Release(flight)]), payment.result, Some(payment.args))
  }

  /**
   The deployed end of a hold behaves, for every transfer outcome, exactly as
   the modelled one does when the ledger accepts the transfer; so every run of
   the deployed canister is a run of the model.
   */
  lemma EndAsWrittenIgnoresRefundOutcome(s: Canister, env: Env, caller: Principal, now: nat, id: string,
                                         transferFee: Answer<nat>, outcome: TransferResult, height: nat)
    ensures EndReservationAsWritten(s, env, caller, now, id, transferFee, outcome)
         == EndReservation(s, env, caller, now, id, transferFee, TransferOk(height))
  {
  }

  /** The timer callback: drops the pending booking `memo` if it is still there. */
  function DiscardByTimeout(s: Canister, memo: nat): (r: Canister)
    ensures memo !in r.pending
    ensures forall m :: m in r.pending <==> m in s.pending && m != memo
    ensures forall m :: m in r.pending ==> r.pending[m] == s.pending[m]
    ensures memo !in s.pending ==> r == s
    ensures r.flights == s.flights && r.persisted == s.persisted && r.fee == s.fee && r.timers == s.timers
  {
    s.(pending := s.pending - {memo})
  }

  /** The runtime fires one armed timer that is due: it is disarmed and its callback runs. */
  function FireTimer(s: Canister, t: Timer, now: nat): (r: Canister)
    requires t in s.timers && t.due <= now
    ensures r.timers == s.timers - multiset{t}
    ensures r.pending.Keys == s.pending.Keys - {t.memo}
    ensures forall m :: m in r.pending ==> r.pending[m] == s.pending[m]
    ensures r.flights == s.flights && r.persisted == s.persisted && r.fee == s.fee
  {
    DiscardByTimeout(s, t.memo).(timers := s.timers - multiset{t})
  }
}
