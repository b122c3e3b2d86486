/**
 The records and tables of the flight booking canister: flights, bookings, the
 reply messages and the canister state that every operation transforms.
 All amounts, timestamps and memos are unbounded naturals (the canister
 computes with JavaScript big integers).
 */
module Types {

  datatype Option<+T> = None | Some(value: T)

  /** An Internet Computer principal; the canister compares principals by their textual form. */
  datatype Principal = Principal(text: string)

  newtype byte = x: int | 0 <= x < 256

  /** A binary ledger account identifier. */
  type Address = seq<byte>

  datatype Flight = Flight(
    id: string,
    name: string,
    imageUrl: string,
    description: string,
    pricePerPerson: nat,
    departureFrom: string,
    arriveTo: string,
    departureTime: nat,
    seats: nat,
    isReserved: bool,
    isAvailable: bool,
    currentReservedTo: Option<Principal>,
    currentReservationEnds: Option<nat>,
    creator: Principal)

  /** The fields an operator supplies when listing a new flight. */
  datatype FlightPayload = FlightPayload(
    name: string,
    imageUrl: string,
    description: string,
    pricePerPerson: nat,
    departureFrom: string,
    arriveTo: string,
    departureTime: nat,
    seats: nat)

  /** The fields an update may overwrite; no reservation field is among them. */
  datatype UpdateFlightPayload = UpdateFlightPayload(
    id: string,
    name: string,
    imageUrl: string,
    description: string,
    pricePerPerson: nat,
    departureFrom: string,
    arriveTo: string,
    departureTime: nat,
    seats: nat)

  datatype ReservationStatus = PaymentPending | Completed

  datatype Booking = Booking(
    flightId: string,
    amount: nat,
    noOfPersons: nat,
    status: ReservationStatus,
    payer: Principal,
    paidAtBlock: Option<nat>,
    memo: nat)

  /** The canister's message variant; the human-readable texts are dropped except a refund failure's reason. */
  datatype Message =
    | Booked
    | NotBooked
    | NotFound
    | NotOwner
    | InvalidPayload
    | PaymentFailed(reason: string)
    | PaymentCompleted

  /** What a caller observes: a typed result, or a trap (an uncaught exception that rolls the call back). */
  datatype Reply<+T> = Ok(value: T) | Err(error: Message) | Trap

  /** A one-shot timer armed for a pending booking, due at a time in nanoseconds. */
  datatype Timer = Timer(memo: nat, due: nat)

  /** The canister's global state: the three stable tables, the reservation fee and the armed timers. */
  datatype Canister = Canister(
    flights: map<string, Flight>,
    pending: map<nat, Booking>,
    persisted: map<Principal, Booking>,
    fee: Option<nat>,
    timers: multiset<Timer>)

  /** The state after an update call together with its reply. */
  datatype Step<+T> = Step(state: Canister, reply: Reply<T>)

  /** A flight is reserved exactly when both its holder and its hold end are recorded. */
  predicate ReservationConsistent(f: Flight) {
    f.isReserved <==> f.currentReservedTo.Some? && f.currentReservationEnds.Some?
  }

  /** The two flights agree on every field except the three reservation fields. */
  predicate SameDetails(a: Flight, b: Flight) {
    && a.id == b.id
    && a.name == b.name
    && a.imageUrl == b.imageUrl
    && a.description == b.description
    && a.pricePerPerson == b.pricePerPerson
    && a.departureFrom == b.departureFrom
    && a.arriveTo == b.arriveTo
    && a.departureTime == b.departureTime
    && a.seats == b.seats
    && a.isAvailable == b.isAvailable
    && a.creator == b.creator
  }

  /** The two flights agree on the three reservation fields. */
  predicate SameReservation(a: Flight, b: Flight) {
    && a.isReserved == b.isReserved
    && a.currentReservedTo == b.currentReservedTo
    && a.currentReservationEnds == b.currentReservationEnds
  }
}
