/**
 The state invariant of the canister and its preservation by every transition:
 each flight is stored under its own id and is reserved exactly when holder
 and end time are both set; each pending booking is stored under its memo,
 awaits payment and has a discard timer armed; each confirmed booking is
 completed with the block that paid it.
 */
module Invariants {
  import opened Types
  import opened Ledger
  import opened Registry
  import opened Reservation

  /** Some armed timer will discard the pending booking `memo`. */
  ghost predicate Armed(timers: multiset<Timer>, memo: nat) {
    exists t :: t in timers && t.memo == memo
  }

  ghost predicate FlightsValid(flights: map<string, Flight>) {
    forall k :: k in flights ==> flights[k].id == k && ReservationConsistent(flights[k])
  }

  ghost predicate PendingValid(pending: map<nat, Booking>, timers: multiset<Timer>) {
    forall m :: m in pending ==>
      && pending[m].memo == m
      && pending[m].status == PaymentPending
      && pending[m].paidAtBlock.None?
      && Armed(timers, m)
  }

  ghost predicate PersistedValid(persisted: map<Principal, Booking>) {
    forall p :: p in persisted ==> persisted[p].status == Completed && persisted[p].paidAtBlock.Some?
  }

  ghost predicate Valid(s: Canister) {
    && FlightsValid(s.flights)
    && PendingValid(s.pending, s.timers)
    && PersistedValid(s.persisted)
  }

  lemma InitValid(fee: nat)
    ensures Valid(Init(fee))
  {
  }

  lemma AddFlightPreservesValid(s: Canister, caller: Principal, freshId: string, payload: FlightPayload)
    requires Valid(s)
    ensures Valid(AddFlight(s, caller, freshId, payload).state)
  {
  }

  lemma UpdateFlightPreservesValid(s: Canister, payload: UpdateFlightPayload)
    requires Valid(s)
    ensures Valid(UpdateFlight(s, payload).state)
  {
  }

  lemma DeleteFlightPreservesValid(s: Canister, caller: Principal, id: string)
    requires Valid(s)
    ensures Valid(DeleteFlight(s, caller, id).state)
  {
  }

  lemma CreateReservationOrderPreservesValid(s: Canister, caller: Principal, now: nat, id: string,
                                             noOfPersons: nat, memo: nat)
    requires Valid(s)
    ensures Valid(CreateReservationOrder(s, caller, now, id, noOfPersons, memo).state)
  {
  }

  lemma CompleteReservationPreservesValid(s: Canister, env: Env, caller: Principal, now: nat, blocks: Answer<seq<Block>>,
                                          id: string, noOfPersons: nat, block: nat, memo: nat)
    requires Valid(s)
    ensures Valid(CompleteReservation(s, env, caller, now, blocks, id, noOfPersons, block, memo).state)
  {
  }

  lemma EndReservationPreservesValid(s: Canister, env: Env, caller: Principal, now: nat, id: string,
                                     transferFee: Answer<nat>, outcome: TransferResult)
    requires Valid(s)
    ensures Valid(EndReservation(s, env, caller, now, id, transferFee, outcome).state)
  {
  }

  lemma FireTimerPreservesValid(s: Canister, t: Timer, now: nat)
    requires Valid(s)
    requires t in s.timers && t.due <= now
    ensures Valid(FireTimer(s, t, now))
  {
  }
}
