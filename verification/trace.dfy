/**
 Runs of the canister: any sequence of update calls and timer firings from
 installation. The state invariant holds in every reachable state, so every
 flight ever stored is reserved exactly when both its holder and its end time
 are set.
 */
module Trace {
  import opened Types
  import opened Ledger
  import opened Registry
  import opened Reservation
  import opened Invariants

  /** One step of a run: an update call with its inputs, or the runtime firing a timer. */
  datatype Call =
    | AddFlightCall(caller: Principal, freshId: string, payload: FlightPayload)
    | UpdateFlightCall(update: UpdateFlightPayload)
    | DeleteFlightCall(caller: Principal, id: string)
    | CreateOrderCall(caller: Principal, now: nat, id: string, noOfPersons: nat, memo: nat)
    | CompleteCall(env: Env, caller: Principal, now: nat, blocks: Answer<seq<Block>>,
                   id: string, noOfPersons: nat, block: nat, memo: nat)
    | EndCall(env: Env, caller: Principal, now: nat, id: string, transferFee: Answer<nat>, outcome: TransferResult)
    | TimerCall(timer: Timer, now: nat)

  /** The state after one step; a timer that is not armed or not yet due does not fire. */
  function Next(s: Canister, c: Call): Canister {
    match c
    case AddFlightCall(caller, freshId, payload) => AddFlight(s, caller, freshId, payload).state
    case UpdateFlightCall(update) => UpdateFlight(s, update).state
    case DeleteFlightCall(caller, id) => DeleteFlight(s, caller, id).state
    case CreateOrderCall(caller, now, id, n, memo) => CreateReservationOrder(s, caller, now, id, n, memo).state
    case CompleteCall(env, caller, now, blocks, id, n, block, memo) =>
      CompleteReservation(s, env, caller, now, blocks, id, n, block, memo).state
    case EndCall(env, caller, now, id, transferFee, outcome) =>
      EndReservation(s, env, caller, now, id, transferFee, outcome).state
    case TimerCall(t, now) => if t in s.timers && t.due <= now then FireTimer(s, t, now) else s
  }

  /** The state after a run of steps, in order. */
  function Run(s: Canister, calls: seq<Call>): Canister
    decreases |calls|
  {
    if |calls| == 0 then s else Run(Next(s, calls[0]), calls[1..])
  }

  /** Every step preserves the invariant. */
  lemma NextPreservesValid(s: Canister, c: Call)
    requires Valid(s)
    ensures Valid(Next(s, c))
  {
    match c
    case AddFlightCall(caller, freshId, payload) => AddFlightPreservesValid(s, caller, freshId, payload);
    case UpdateFlightCall(update) => UpdateFlightPreservesValid(s, update);
    case DeleteFlightCall(caller, id) => DeleteFlightPreservesValid(s, caller, id);
    case CreateOrderCall(caller, now, id, n, memo) => CreateReservationOrderPreservesValid(s, caller, now, id, n, memo);
    case CompleteCall(env, caller, now, blocks, id, n, block, memo) =>
      CompleteReservationPreservesValid(s, env, caller, now, blocks, id, n, block, memo);
    case EndCall(env, caller, now, id, transferFee, outcome) =>
      EndReservationPreservesValid(s, env, caller, now, id, transferFee, outcome);
    case TimerCall(t, now) =>
      if t in s.timers && t.due <= now {
        FireTimerPreservesValid(s, t, now);
      }
  }

  /** Every run preserves the invariant. */
  lemma {:induction false} RunPreservesValid(s: Canister, calls: seq<Call>)
    requires Valid(s)
    ensures Valid(Run(s, calls))
    decreases |calls|
  {
    if |calls| > 0 {
      NextPreservesValid(s, calls[0]);
      RunPreservesValid(Next(s, calls[0]), calls[1..]);
    }
  }

  /**
   In every state reachable from installation, each stored flight is reserved
   exactly when holder and end time are set, and each pending booking is
   waiting for payment under its own memo with a discard timer armed.
   */
  lemma ReachableStatesAreConsistent(fee: nat, calls: seq<Call>)
    ensures var s := Run(Init(fee), calls);
            && (forall k :: k in s.flights ==> ReservationConsistent(s.flights[k]) && s.flights[k].id == k)
            && (forall m :: m in s.pending ==>
                  s.pending[m].memo == m && s.pending[m].status == PaymentPending
                  && exists t :: t in s.timers && t.memo == m)
  {
    InitValid(fee);
    RunPreservesValid(Init(fee), calls);
  }
}
