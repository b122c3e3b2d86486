/**
 Properties that relate several canister calls: a pending booking is confirmed
 at most once, an expired or discarded booking cannot be confirmed, a
 confirmed hold refuses new orders and refuses ending to other callers (a
 later confirmation by another caller replaces it), a hold ends only for its
 holder once its end time is reached, and two end-to-end runs of a booking's
 life.
 */
module Properties {
  import opened Types
  import opened Ledger
  import opened Registry
  import opened Reservation
  import opened Invariants

  /** Once a memo is confirmed, no later confirmation of it succeeds, whoever calls and whatever the ledger shows. */
  lemma SecondConfirmationFails(s: Canister, env: Env, caller: Principal, now: nat, blocks: Answer<seq<Block>>,
                                id: string, noOfPersons: nat, block: nat, memo: nat,
                                env': Env, caller': Principal, now': nat, blocks': Answer<seq<Block>>,
                                id': string, noOfPersons': nat, block': nat)
    requires CompleteReservation(s, env, caller, now, blocks, id, noOfPersons, block, memo).reply.Ok?
    ensures var s1 := CompleteReservation(s, env, caller, now, blocks, id, noOfPersons, block, memo).state;
            var again := CompleteReservation(s1, env', caller', now', blocks', id', noOfPersons', block', memo);
            !again.reply.Ok? && again.state == s1
  {
  }

  /**
   After the discard callback for a memo has run, confirming that memo fails
   and changes nothing; with the ledger answering, it fails with NotFound.
   */
  lemma ConfirmAfterDiscardFails(s: Canister, memo: nat, env: Env, caller: Principal, now: nat,
                                 blocks: Answer<seq<Block>>, id: string, noOfPersons: nat, block: nat)
    ensures var s1 := DiscardByTimeout(s, memo);
            var r := CompleteReservation(s1, env, caller, now, blocks, id, noOfPersons, block, memo);
            !r.reply.Ok? && r.state == s1
            && (id in s.flights && blocks.Answered? ==> r.reply == Err(NotFound))
  {
  }

  /** A timer whose booking was already confirmed (or discarded) only disarms itself. */
  lemma StaleTimerIsNoOp(s: Canister, t: Timer, now: nat)
    requires t in s.timers && t.due <= now
    requires t.memo !in s.pending
    ensures FireTimer(s, t, now) == s.(timers := s.timers - multiset{t})
  {
  }

  /**
   While the flight's price is unchanged, the confirmation of a fresh order
   with the order's own number of persons asks the ledger for exactly the
   amount the order quoted, and succeeds exactly when the ledger answers with
   a matching payment of that amount.
   */
  lemma ConfirmChargesOrderedAmount(s: Canister, payer: Principal, t0: nat, id: string, noOfPersons: nat,
                                    memo: nat, env: Env, now: nat, blocks: Answer<seq<Block>>, block: nat)
    requires CreateReservationOrder(s, payer, t0, id, noOfPersons, memo).reply.Ok?
    ensures var order := CreateReservationOrder(s, payer, t0, id, noOfPersons, memo);
            var confirm := CompleteReservation(order.state, env, payer, now, blocks, id, noOfPersons, block, memo);
            && order.reply.value.amount == BookingAmount(noOfPersons, s.flights[id].pricePerPerson, GetReservationFee(s))
            && (confirm.reply.Ok? <==>
                  blocks.Answered? && VerifyPayment(env, blocks.value, payer, order.reply.value.amount, memo))
            && (confirm.reply.Ok? ==> confirm.reply.value == order.reply.value.(status := Completed, paidAtBlock := Some(block)))
  {
  }

  /** A confirmed hold makes every new order on that flight fail with Booked. */
  lemma OrderOnHeldFlightFails(s: Canister, env: Env, caller: Principal, now: nat, blocks: Answer<seq<Block>>,
                               id: string, noOfPersons: nat, block: nat, memo: nat,
                               other: Principal, t: nat, n: nat, memo': nat)
    requires Valid(s)
    requires CompleteReservation(s, env, caller, now, blocks, id, noOfPersons, block, memo).reply.Ok?
    ensures var s1 := CompleteReservation(s, env, caller, now, blocks, id, noOfPersons, block, memo).state;
            CreateReservationOrder(s1, other, t, id, n, memo') == Step(s1, Err(Booked))
  {
  }

  /** A confirmed hold can be ended by nobody but its holder, until another confirmation replaces it. */
  lemma OnlyHolderEnds(s: Canister, env: Env, caller: Principal, now: nat, blocks: Answer<seq<Block>>,
                       id: string, noOfPersons: nat, block: nat, memo: nat,
                       other: Principal, t: nat, transferFee: Answer<nat>, outcome: TransferResult)
    requires Valid(s)
    requires CompleteReservation(s, env, caller, now, blocks, id, noOfPersons, block, memo).reply.Ok?
    requires other != caller
    ensures var s1 := CompleteReservation(s, env, caller, now, blocks, id, noOfPersons, block, memo).state;
            EndReservation(s1, env, other, t, id, transferFee, outcome) == EndStep(s1, Err(Booked), None)
  {
  }

  /**
   Confirmation does not look at an existing hold or at the flight the
   booking was ordered for: another caller with any paid pending booking can
   confirm it against a held flight and become its holder, after which the
   first holder can never end the hold (Booked, with no refund).
   */
  lemma HoldTakenOverByOtherConfirmation(s: Canister, env: Env, a: Principal, now: nat, blocks: Answer<seq<Block>>,
                                         id: string, noOfPersons: nat, block: nat, memo: nat,
                                         b: Principal, now': nat, blocks': seq<Block>, n: nat, block': nat,
                                         memo': nat, later: nat, transferFee: Answer<nat>, outcome: TransferResult)
    requires Valid(s)
    requires CompleteReservation(s, env, a, now, blocks, id, noOfPersons, block, memo).reply.Ok?
    requires a != b && memo' != memo && memo' in s.pending
    requires VerifyPayment(env, blocks', b, BookingAmount(n, s.flights[id].pricePerPerson, s.fee.value), memo')
    ensures var s1 := CompleteReservation(s, env, a, now, blocks, id, noOfPersons, block, memo).state;
            var s2 := CompleteReservation(s1, env, b, now', Answered(blocks'), id, n, block', memo');
            && s1.flights[id].currentReservedTo == Some(a)
            && s2.reply.Ok? && s2.state.flights[id].currentReservedTo == Some(b)
            && EndReservation(s2.state, env, a, later, id, transferFee, outcome) == EndStep(s2.state, Err(Booked), None)
  {
  }

  /**
   On a valid state the "no end time" and "no holder" checks of ending a hold
   never fire: NotBooked means the flight is simply not reserved.
   */
  lemma EndNotBookedMeansFree(s: Canister, env: Env, caller: Principal, now: nat, id: string,
                              transferFee: Answer<nat>, outcome: TransferResult)
    requires Valid(s)
    requires EndReservation(s, env, caller, now, id, transferFee, outcome).reply == Err(NotBooked)
    ensures id in s.flights && !s.flights[id].isReserved
  {
  }

  /**
   Ending a hold succeeds exactly for its holder, from its end time on (the
   end time itself included), with the fee set and the ledger accepting the
   refund; the flight is then free again with its details untouched.
   */
  lemma EndSucceedsExactlyForHolderAfterEnd(s: Canister, env: Env, caller: Principal, now: nat, id: string,
                                            transferFee: nat, height: nat)
    requires Valid(s)
    ensures var r := EndReservation(s, env, caller, now, id, Answered(transferFee), TransferOk(height));
            && (r.reply.Ok? <==>
                  && id in s.flights && s.flights[id].isReserved
                  && s.flights[id].currentReservedTo == Some(caller)
                  && s.flights[id].currentReservationEnds.value <= now
                  && s.fee.Some?)
            && (r.reply.Ok? ==> id in r.state.flights && !r.state.flights[id].isReserved
                                && SameDetails(r.state.flights[id], s.flights[id]))
  {
  }

  /** Releasing undoes a hold: a freshly listed flight comes back exactly as it was. */
  lemma ReleaseUndoesHold(f: Flight, holder: Principal, ends: nat)
    ensures Release(Hold(f, holder, ends)) == Release(f)
    ensures !f.isReserved && f.currentReservedTo.None? && f.currentReservationEnds.None? ==>
              Release(Hold(f, holder, ends)) == f
  {
  }

  /**
   A booking's whole life on a flight priced 100 per person with a fee of 10:
   two persons owe 210; paying 210 with the memo at block 5 confirms and holds
   the flight; ending at once is refused as still booked; ending at the hold's
   end releases the flight and refunds 10 less the transfer fee.
   */
  lemma BookingLifecycle(env: Env, operator: Principal, traveler: Principal, flightId: string, memo: nat,
                         t0: nat, t1: nat, transferFee: nat, height: nat)
    ensures
      var s0 := AddFlight(Init(10), operator, flightId, FlightPayload("", "", "", 100, "", "", 0, 10)).state;
      var order := CreateReservationOrder(s0, traveler, t0, flightId, 2, memo);
      var paid := Block(memo, Some(Transfer(env.addressOf(traveler), env.addressOf(env.canister), 210)));
      var confirm := CompleteReservation(order.state, env, traveler, t1, Answered([paid]), flightId, 2, 5, memo);
      var early := EndReservation(confirm.state, env, traveler, t1, flightId, Answered(transferFee), TransferOk(height));
      var done := EndReservation(confirm.state, env, traveler, t1 + HOLD_DURATION, flightId,
                                 Answered(transferFee), TransferOk(height));
      && order.reply.Ok? && order.reply.value.amount == 210
      && order.reply.value.status == PaymentPending && memo in order.state.pending
      && confirm.reply.Ok? && confirm.reply.value.status == Completed
      && confirm.reply.value.paidAtBlock == Some(5)
      && memo !in confirm.state.pending && confirm.state.persisted[traveler] == confirm.reply.value
      && confirm.state.flights[flightId].currentReservedTo == Some(traveler)
      && early == EndStep(confirm.state, Err(Booked), None)
      && done.reply == Ok(PaymentCompleted) && !done.state.flights[flightId].isReserved
      && done.refund == Some(TransferArgs(0, 10 - transferFee, transferFee, env.addressOf(traveler)))
  {
  }

  /**
   An order that is never paid is discarded when its timer fires, 120 seconds
   after it was opened; confirming it afterwards fails, with NotFound when
   the ledger answers.
   */
  lemma UnpaidOrderExpires(env: Env, operator: Principal, traveler: Principal, flightId: string, memo: nat,
                           t0: nat, now: nat, blocks: Answer<seq<Block>>, block: nat)
    requires now >= t0 + 120 * NANOS_PER_SECOND
    ensures
      var s0 := AddFlight(Init(10), operator, flightId, FlightPayload("", "", "", 100, "", "", 0, 10)).state;
      var order := CreateReservationOrder(s0, traveler, t0, flightId, 2, memo);
      var timer := Timer(memo, t0 + 120 * NANOS_PER_SECOND);
      && memo in order.state.pending
      && timer in order.state.timers
      && (var s1 := FireTimer(order.state, timer, now);
          && memo !in s1.pending
          && var r := CompleteReservation(s1, env, traveler, now, blocks, flightId, 2, block, memo);
          && !r.reply.Ok? && r.state == s1
          && (blocks.Answered? ==> r.reply == Err(NotFound)))
  {
  }

  /**
   Confirmation charges for the number of persons its own caller passes, not
   the one the order was placed for: after any successful order, a
   confirmation with `n` persons succeeds exactly when the ledger shows a
   payment of `n` × price + fee, and the confirmed booking still records the
   order's persons and amount.
   */
  lemma ConfirmChargesConfirmersCount(s: Canister, payer: Principal, t0: nat, id: string, noOfPersons: nat,
                                      memo: nat, env: Env, now: nat, blocks: seq<Block>, n: nat, block: nat)
    requires CreateReservationOrder(s, payer, t0, id, noOfPersons, memo).reply.Ok?
    ensures var order := CreateReservationOrder(s, payer, t0, id, noOfPersons, memo);
            var confirm := CompleteReservation(order.state, env, payer, now, Answered(blocks), id, n, block, memo);
            && (confirm.reply.Ok? <==>
                  VerifyPayment(env, blocks, payer, BookingAmount(n, s.flights[id].pricePerPerson, GetReservationFee(s)), memo))
            && (confirm.reply.Ok? ==>
                  confirm.reply.value.noOfPersons == noOfPersons && confirm.reply.value.amount == order.reply.value.amount)
  {
  }

  /**
   On a flight priced 100 per person with a fee of 10, a five-person order
   owes 510, yet a confirmation passing zero persons accepts a payment of just
   the fee and holds the flight for the payer.
   */
  lemma UnderpaidOrderConfirms(env: Env, operator: Principal, traveler: Principal, flightId: string, memo: nat,
                               t0: nat, t1: nat)
    ensures
      var s0 := AddFlight(Init(10), operator, flightId, FlightPayload("", "", "", 100, "", "", 0, 10)).state;
      var order := CreateReservationOrder(s0, traveler, t0, flightId, 5, memo);
      var paid := Block(memo, Some(Transfer(env.addressOf(traveler), env.addressOf(env.canister), 10)));
      var confirm := CompleteReservation(order.state, env, traveler, t1, Answered([paid]), flightId, 0, 0, memo);
      && order.reply.Ok? && order.reply.value.amount == 510
      && confirm.reply.Ok? && confirm.reply.value.amount == 510 && confirm.reply.value.status == Completed
      && confirm.state.flights[flightId].currentReservedTo == Some(traveler)
  {
  }
}
