/** The HTTP handlers of the booking routes: each calls the service with the
    authenticated user id (and the request's room and booking ids), then maps
    the outcome to a status code and body by the thrown error's name. An error
    name that no branch matches produces no response at all. */
module BookingsController {
  import opened Errors
  import opened Store
  import BookingsService

  const OK: int := 200
  const UNAUTHORIZED: int := 401
  const FORBIDDEN: int := 403
  const NOT_FOUND: int := 404

  /** What a handler sends: a status alone (`sendStatus`), the looked-up
      booking, or the id of the booking written. */
  datatype Body = StatusOnly | BookingPayload(booking: BookingWithRoom) | BookingIdPayload(bookingId: int)

  /** `NoResponse` is the catch block falling through without sending. */
  datatype Response = Sent(status: int, body: Body) | NoResponse

  /** `getBooking`'s reply to the service outcome. */
  function GetReply(outcome: Result<BookingWithRoom>): (resp: Response)
    ensures outcome.Ok? ==> resp == Sent(OK, BookingPayload(outcome.value))
    ensures outcome.Err? && outcome.error == NotFoundError ==> resp == Sent(NOT_FOUND, StatusOnly)
    ensures outcome.Err? && outcome.error != NotFoundError ==> resp == NoResponse
  {
    match outcome
    case Ok(booking) => Sent(OK, BookingPayload(booking))
    case Err(e) =>
      if Name(e) == "NotFoundError" then Sent(NOT_FOUND, StatusOnly)
      else NoResponse
  }

  /** The reply `postBooking` and `updateBooking` (whose catch blocks are
      identical) give to the service outcome. */
  function WriteReply(outcome: Result<Booking>): (resp: Response)
    ensures outcome.Ok? ==> resp == Sent(OK, BookingIdPayload(outcome.value.id))
    ensures outcome == Err(NotFoundError) ==> resp == Sent(NOT_FOUND, StatusOnly)
    ensures outcome == Err(UnauthorizedError) || outcome == Err(CannotListHotelsError) ==>
              resp == Sent(UNAUTHORIZED, StatusOnly)
    ensures outcome == Err(MaximumCapacityRoom) ==> resp == Sent(FORBIDDEN, StatusOnly)
    ensures outcome == Err(Fault) ==> resp == NoResponse
  {
    match outcome
    case Ok(booking) => Sent(OK, BookingIdPayload(booking.id))
    case Err(e) =>
      if Name(e) == "NotFoundError" then Sent(NOT_FOUND, StatusOnly)
      else if Name(e) == "CannotListHotelsError" || Name(e) == "UnauthorizedError" then Sent(UNAUTHORIZED, StatusOnly)
      else if Name(e) == "maximumCapacityRoom" then Sent(FORBIDDEN, StatusOnly)
      else NoResponse
  }

  /** `getBooking`: looks up the booking of the authenticated user (not a
      booking id). It always responds: 404 when the user has no booking,
      otherwise 200 with that booking and its room. */
  function GetBooking(db: Database, userId: int): (resp: Response)
    reads db
    requires db.Valid()
    ensures resp.Sent?
    ensures resp.status == NOT_FOUND <==> forall i :: 0 <= i < |db.bookings| ==> db.bookings[i].userId != userId
    ensures resp.status == NOT_FOUND ==> resp.body == StatusOnly
    ensures resp.status != NOT_FOUND ==>
              && resp.status == OK && resp.body.BookingPayload?
              && FindFirstByUser(db.bookings, userId)
                   == Some(Booking(resp.body.booking.id, userId, resp.body.booking.roomId))
              && resp.body.booking.room == db.rooms[resp.body.booking.roomId]
  {
    GetReply(BookingsService.GetBookingById(db, userId))
  }

  /** `postBooking`: creates a booking for the authenticated user in the
      requested room and replies with its id or with the error's status. */
  method PostBooking(db: Database, userId: int, roomId: int) returns (resp: Response)
    requires db.Valid()
    modifies db
    ensures db.Valid()
    ensures var v := BookingsService.CreateVerdict(old(db.bookings), old(db.rooms), old(db.enrollments),
                                                   old(db.tickets), userId, roomId);
            && (v.None? ==> resp == Sent(OK, BookingIdPayload(old(db.nextId))))
            && (v.None? ==> db.bookings == old(db.bookings) + [Booking(old(db.nextId), userId, roomId)]
                            && roomId in db.rooms
                            && GetBooking(db, userId)
                                 == Sent(OK, BookingPayload(BookingWithRoom(old(db.nextId), roomId, db.rooms[roomId]))))
            && (v.Some? ==> resp == WriteReply(Err(v.value)) && db.bookings == old(db.bookings))
            && db.nextId == old(db.nextId) + (if v.None? then 1 else 0)
    ensures db.rooms == old(db.rooms) && db.enrollments == old(db.enrollments) && db.tickets == old(db.tickets)
  {
    var outcome := BookingsService.PostNewBooking(db, userId, roomId);
    resp := WriteReply(outcome);
  }

  /** `updateBooking`: moves booking `bookingId` to the requested room on
      behalf of the authenticated user and replies with the booking id or with
      the error's status; a `Fault` gets no reply. */
  method UpdateBooking(db: Database, bookingId: int, userId: int, roomId: int) returns (resp: Response)
    requires db.Valid()
    modifies db
    ensures db.Valid()
    ensures var v := BookingsService.UpdateVerdict(old(db.bookings), old(db.rooms), old(db.enrollments),
                                                   old(db.tickets), bookingId, roomId, userId);
            && (v.None? ==> resp == Sent(OK, BookingIdPayload(bookingId)))
            && (v.None? ==> db.bookings == Moved(old(db.bookings), bookingId, roomId))
            && (v.Some? ==> resp == WriteReply(Err(v.value)) && db.bookings == old(db.bookings))
    ensures db.nextId == old(db.nextId)
    ensures db.rooms == old(db.rooms) && db.enrollments == old(db.enrollments) && db.tickets == old(db.tickets)
  {
    var outcome := BookingsService.UpdateBooking(db, bookingId, roomId, userId);
    resp := WriteReply(outcome);
  }

  /** The status each error kind is meant to be answered with by the write
      handlers: `None` when nothing is sent. */
  function StatusOf(e: ServiceError): (r: Option<int>)
    ensures r.None? <==> e == Fault
    ensures r.Some? ==> 400 <= r.value < 500
    ensures r == Some(NOT_FOUND) <==> e == NotFoundError
    ensures r == Some(UNAUTHORIZED) <==> e == UnauthorizedError || e == CannotListHotelsError
    ensures r == Some(FORBIDDEN) <==> e == MaximumCapacityRoom
  {
    match e
    case NotFoundError => Some(NOT_FOUND)
    case UnauthorizedError => Some(UNAUTHORIZED)
    case CannotListHotelsError => Some(UNAUTHORIZED)
    case MaximumCapacityRoom => Some(FORBIDDEN)
    case Fault => None
  }

  /** The name-based dispatch agrees with the kind-to-status mapping for
      every error, and every failure that is answered carries no payload. */
  lemma WriteReplyMatchesTable(e: ServiceError)
    ensures StatusOf(e).Some? ==> WriteReply(Err(e)) == Sent(StatusOf(e).value, StatusOnly)
    ensures StatusOf(e).None? ==> WriteReply(Err(e)) == NoResponse
    ensures GetReply(Err(e)).Sent? <==> e == NotFoundError
  {
  }

  /** A room of capacity 2 already holding the bookings of two other users:
      an eligible user's create is refused with 403. This is the situation the
      integration test intends; the room factory it calls ignores the capacity
      argument and draws one at random. */
  lemma FullRoomScenario()
    ensures var rooms := map[7 := Room("101", 2, 1)];
            var bookings := [Booking(1, 20, 7), Booking(2, 30, 7)];
            var verdict := BookingsService.CreateVerdict(bookings, rooms, map[10 := 5],
                                                         map[5 := Ticket(Paid, false, true)], 10, 7);
            verdict == Some(MaximumCapacityRoom) && WriteReply(Err(verdict.value)) == Sent(FORBIDDEN, StatusOnly)
  {
  }

  /** An enrolled user with a paid, in-person, hotel-including ticket and no
      booking yet: the create passes every guard, and a reserved or remote
      ticket would instead be refused with 401. */
  lemma EligibleUserScenario()
    ensures var rooms := map[7 := Room("101", 2, 1)];
            && BookingsService.CreateVerdict([], rooms, map[10 := 5], map[5 := Ticket(Paid, false, true)], 10, 7).None?
            && BookingsService.CreateVerdict([], rooms, map[10 := 5], map[5 := Ticket(Reserved, false, true)], 10, 7)
                 == Some(CannotListHotelsError)
            && BookingsService.CreateVerdict([], rooms, map[10 := 5], map[5 := Ticket(Paid, true, true)], 10, 7)
                 == Some(CannotListHotelsError)
            && WriteReply(Err(CannotListHotelsError)) == Sent(UNAUTHORIZED, StatusOnly)
  {
  }
}
