/** The booking allocation engine: look up the caller's booking, create a
    booking, move a booking to another room. Create and update run an ordered
    chain of guards, stop at the first that fails, and otherwise make a single
    write to the bookings table. */
module BookingsService {
  import opened Errors
  import opened Store

  /** The ticket found for the enrollment, if any. */
  function TicketOf(tickets: map<int, Ticket>, enrollmentId: int): Option<Ticket>
  {
    if enrollmentId in tickets then Some(tickets[enrollmentId]) else None
  }

  /** A ticket allows a hotel booking when it exists, is not merely reserved,
      and its type is in person and includes the hotel. */
  function TicketEligible(t: Option<Ticket>): (ok: bool)
    ensures !ok <==> t.None? || t.value.status == Reserved || t.value.isRemote || !t.value.includesHotel
    ensures ok ==> t.value.status == Paid
  {
    t.Some? && t.value.status != Reserved && !t.value.isRemote && t.value.includesHotel
  }

  /** The error `postNewBooking` throws on this state, or `None` when every
      guard passes and the booking is written. */
  function CreateVerdict(bookings: seq<Booking>, rooms: map<int, Room>, enrollments: map<int, int>,
                         tickets: map<int, Ticket>, userId: int, roomId: int): (v: Option<ServiceError>)
    ensures v != Some(Fault)
    ensures v.None? ==> roomId in rooms && userId in enrollments && FindFirstByUser(bookings, userId).None?
  {
    if roomId !in rooms then Some(NotFoundError)
    else if FindFirstByUser(bookings, userId).Some? || userId !in enrollments then Some(UnauthorizedError)
    else if !TicketEligible(TicketOf(tickets, enrollments[userId])) then Some(CannotListHotelsError)
    else if |FindMany(bookings, roomId)| == rooms[roomId].capacity then Some(MaximumCapacityRoom)
    else None
  }

  /** The error `updateBooking` throws on this state, or `None` when every
      guard passes and the booking is moved. A missing enrollment is reported
      before the target booking is dereferenced; with an enrollment, a
      `bookingId` that resolves to nothing is a `Fault`. */
  function UpdateVerdict(bookings: seq<Booking>, rooms: map<int, Room>, enrollments: map<int, int>,
                         tickets: map<int, Ticket>, bookingId: int, roomId: int, userId: int)
    : (v: Option<ServiceError>)
    ensures v == Some(Fault) ==> userId in enrollments && FindUnique(bookings, bookingId).None?
    ensures v.None? ==> roomId in rooms && userId in enrollments && FindUnique(bookings, bookingId).Some?
                        && FindUnique(bookings, bookingId).value.userId == userId
  {
    if roomId !in rooms || FindFirstByUser(bookings, userId).None? then Some(NotFoundError)
    else if userId !in enrollments then Some(UnauthorizedError)
    else if FindUnique(bookings, bookingId).None? then Some(Fault)
    else if FindUnique(bookings, bookingId).value.userId != userId then Some(UnauthorizedError)
    else if !TicketEligible(TicketOf(tickets, enrollments[userId])) then Some(CannotListHotelsError)
    else if |FindMany(bookings, roomId)| == rooms[roomId].capacity then Some(MaximumCapacityRoom)
    else None
  }

  /** `getBookingById`: the caller's booking with its room, or `NotFoundError`
      when the caller has none. Reads the store and changes nothing. */
  function GetBookingById(db: Database, userId: int): (r: Result<BookingWithRoom>)
    reads db
    requires db.Valid()
    ensures r.Err? <==> forall i :: 0 <= i < |db.bookings| ==> db.bookings[i].userId != userId
    ensures r.Err? ==> r.error == NotFoundError
    ensures r.Ok? ==> FindFirstByUser(db.bookings, userId) == Some(Booking(r.value.id, userId, r.value.roomId))
    ensures r.Ok? ==> r.value.roomId in db.rooms && r.value.room == db.rooms[r.value.roomId]
  {
    var found := FindFirstByUser(db.bookings, userId);
    if found.None? then Err(NotFoundError)
    else
      var b := found.value;
      Ok(BookingWithRoom(b.id, b.roomId, db.rooms[b.roomId]))
  }

  /** `postNewBooking`: the guards in source order, then one insert. */
  method PostNewBooking(db: Database, userId: int, roomId: int) returns (r: Result<Booking>)
    requires db.Valid()
    modifies db
    ensures db.Valid()
    ensures var v := CreateVerdict(old(db.bookings), old(db.rooms), old(db.enrollments), old(db.tickets),
                                   userId, roomId);
            && (v.Some? ==> r == Err(v.value) && db.bookings == old(db.bookings) && db.nextId == old(db.nextId))
            && (v.None? ==> r == Ok(Booking(old(db.nextId), userId, roomId))
                            && db.bookings == old(db.bookings) + [r.value] && db.nextId == old(db.nextId) + 1)
    ensures db.rooms == old(db.rooms) && db.enrollments == old(db.enrollments) && db.tickets == old(db.tickets)
    ensures old(OnePerUser(db.bookings)) ==> OnePerUser(db.bookings)
    ensures old(WithinCapacity(db.bookings, db.rooms)) ==> WithinCapacity(db.bookings, db.rooms)
    ensures r.Ok? ==> GetBookingById(db, userId) == Ok(BookingWithRoom(r.value.id, roomId, db.rooms[roomId]))
  {
    if roomId !in db.rooms {
      return Err(NotFoundError);
    }
    var room := db.rooms[roomId];
    var booking := FindFirstByUser(db.bookings, userId);
    if booking.Some? || userId !in db.enrollments {
      return Err(UnauthorizedError);
    }
    var ticket := TicketOf(db.tickets, db.enrollments[userId]);
    if ticket.None? || ticket.value.status == Reserved || ticket.value.isRemote || !ticket.value.includesHotel {
      return Err(CannotListHotelsError);
    }
    var allBookings := FindMany(db.bookings, roomId);
    if |allBookings| == room.capacity {
      return Err(MaximumCapacityRoom);
    }
    ghost var before := db.bookings;
    var created := db.Create(userId, roomId);
    CreatePreservesInvariants(before, db.rooms, db.enrollments, db.tickets, userId, roomId, created.id);
    FindFirstAppend(before, created, userId);
    r := Ok(created);
  }

  /** `updateBooking`: the guards in source order, then one room update. */
  method UpdateBooking(db: Database, bookingId: int, roomId: int, userId: int) returns (r: Result<Booking>)
    requires db.Valid()
    modifies db
    ensures db.Valid()
    ensures var v := UpdateVerdict(old(db.bookings), old(db.rooms), old(db.enrollments), old(db.tickets),
                                   bookingId, roomId, userId);
            && (v.Some? ==> r == Err(v.value) && db.bookings == old(db.bookings))
            && (v.None? ==> r == Ok(Booking(bookingId, userId, roomId))
                            && db.bookings == Moved(old(db.bookings), bookingId, roomId))
    ensures db.nextId == old(db.nextId)
    ensures db.rooms == old(db.rooms) && db.enrollments == old(db.enrollments) && db.tickets == old(db.tickets)
    ensures old(OnePerUser(db.bookings)) ==> OnePerUser(db.bookings)
    ensures old(WithinCapacity(db.bookings, db.rooms)) ==> WithinCapacity(db.bookings, db.rooms)
  {
    var room := if roomId in db.rooms then Some(db.rooms[roomId]) else None;
    var booking := FindFirstByUser(db.bookings, userId);
    if room.None? || booking.None? {
      return Err(NotFoundError);
    }
    var enrollment := if userId in db.enrollments then Some(db.enrollments[userId]) else None;
    var bookingReceived := FindUnique(db.bookings, bookingId);
    if enrollment.None? {
      return Err(UnauthorizedError);
    }
    if bookingReceived.None? {
      return Err(Fault);
    }
    if bookingReceived.value.userId != userId {
      return Err(UnauthorizedError);
    }
    var ticket := TicketOf(db.tickets, enrollment.value);
    if ticket.None? || ticket.value.status == Reserved || ticket.value.isRemote || !ticket.value.includesHotel {
      return Err(CannotListHotelsError);
    }
    var allBookings := FindMany(db.bookings, roomId);
    if |allBookings| == room.value.capacity {
      return Err(MaximumCapacityRoom);
    }
    ghost var before := db.bookings;
    var updated := db.Update(bookingId, roomId);
    UpdatePreservesInvariants(before, db.rooms, db.enrollments, db.tickets, bookingId, roomId, userId);
    r := Ok(updated);
  }

  /** A successful create keeps one booking per user and keeps every room
      within its capacity; the room it fills gains exactly one booking. */
  lemma CreatePreservesInvariants(bookings: seq<Booking>, rooms: map<int, Room>, enrollments: map<int, int>,
                                  tickets: map<int, Ticket>, userId: int, roomId: int, id: int)
    requires CreateVerdict(bookings, rooms, enrollments, tickets, userId, roomId).None?
    ensures OnePerUser(bookings) ==> OnePerUser(bookings + [Booking(id, userId, roomId)])
    ensures WithinCapacity(bookings, rooms) ==> WithinCapacity(bookings + [Booking(id, userId, roomId)], rooms)
    ensures |FindMany(bookings + [Booking(id, userId, roomId)], roomId)| == |FindMany(bookings, roomId)| + 1
  {
    var b := Booking(id, userId, roomId);
    forall x | x in rooms
      ensures |FindMany(bookings + [b], x)| == |FindMany(bookings, x)| + (if x == roomId then 1 else 0)
    {
      FindManyAppend(bookings, b, x);
    }
    FindManyAppend(bookings, b, roomId);
  }

  /** A successful update keeps one booking per user (user ids are not
      touched) and keeps every room within its capacity. */
  lemma UpdatePreservesInvariants(bookings: seq<Booking>, rooms: map<int, Room>, enrollments: map<int, int>,
                                  tickets: map<int, Ticket>, bookingId: int, roomId: int, userId: int)
    requires UniqueIds(bookings)
    requires UpdateVerdict(bookings, rooms, enrollments, tickets, bookingId, roomId, userId).None?
    ensures OnePerUser(bookings) ==> OnePerUser(Moved(bookings, bookingId, roomId))
    ensures WithinCapacity(bookings, rooms) ==> WithinCapacity(Moved(bookings, bookingId, roomId), rooms)
  {
    var target := FindUnique(bookings, bookingId).value;
    var k :| 0 <= k < |bookings| && bookings[k] == target;
    assert roomId in rooms && |FindMany(bookings, roomId)| != rooms[roomId].capacity;
    if WithinCapacity(bookings, rooms) {
      MovePreservesCapacity(bookings, rooms, k, roomId);
    }
    if OnePerUser(bookings) {
      MovePreservesOnePerUser(bookings, bookingId, roomId);
    }
  }

  /** The create guards in order, the first failure winning: an unknown room
      is `NotFoundError` whatever else holds; then an existing booking or a
      missing enrollment is `UnauthorizedError`; then an ineligible ticket is
      `CannotListHotelsError`; then a room whose count equals its capacity is
      `MaximumCapacityRoom`. */
  lemma CreateGuardOrder(bookings: seq<Booking>, rooms: map<int, Room>, enrollments: map<int, int>,
                         tickets: map<int, Ticket>, userId: int, roomId: int)
    ensures var v := CreateVerdict(bookings, rooms, enrollments, tickets, userId, roomId);
            var hasBooking := exists i :: 0 <= i < |bookings| && bookings[i].userId == userId;
            && (v == Some(NotFoundError) <==> roomId !in rooms)
            && (v == Some(UnauthorizedError) <==> roomId in rooms && (hasBooking || userId !in enrollments))
            && (v == Some(CannotListHotelsError) <==>
                  roomId in rooms && !hasBooking && userId in enrollments
                  && !TicketEligible(TicketOf(tickets, enrollments[userId])))
            && (v == Some(MaximumCapacityRoom) <==>
                  roomId in rooms && !hasBooking && userId in enrollments
                  && TicketEligible(TicketOf(tickets, enrollments[userId]))
                  && |FindMany(bookings, roomId)| == rooms[roomId].capacity)
            && (v.None? <==>
                  roomId in rooms && !hasBooking && userId in enrollments
                  && TicketEligible(TicketOf(tickets, enrollments[userId]))
                  && |FindMany(bookings, roomId)| != rooms[roomId].capacity)
  {
  }

  /** The update guards in order: a missing room or a caller without any
      booking is `NotFoundError`; then a missing enrollment or a target booking
      of another user is `UnauthorizedError` (a target that does not resolve is
      a `Fault`); then an ineligible ticket is `CannotListHotelsError`; then a
      target room whose count equals its capacity is `MaximumCapacityRoom`. */
  lemma UpdateGuardOrder(bookings: seq<Booking>, rooms: map<int, Room>, enrollments: map<int, int>,
                         tickets: map<int, Ticket>, bookingId: int, roomId: int, userId: int)
    ensures var v := UpdateVerdict(bookings, rooms, enrollments, tickets, bookingId, roomId, userId);
            var hasBooking := exists i :: 0 <= i < |bookings| && bookings[i].userId == userId;
            var targetExists := exists i :: 0 <= i < |bookings| && bookings[i].id == bookingId;
            var ownsTarget := exists i :: 0 <= i < |bookings| && bookings[i].id == bookingId
                                                              && bookings[i].userId == userId;
            && (v == Some(NotFoundError) <==> roomId !in rooms || !hasBooking)
            && (v == Some(Fault) <==> roomId in rooms && hasBooking && userId in enrollments && !targetExists)
            && (UniqueIds(bookings) ==>
                 (v == Some(UnauthorizedError) <==>
                    roomId in rooms && hasBooking
                    && (userId !in enrollments || (targetExists && !ownsTarget))))
            && (UniqueIds(bookings) ==>
                 (v == Some(CannotListHotelsError) <==>
                    roomId in rooms && hasBooking && userId in enrollments && ownsTarget
                    && !TicketEligible(TicketOf(tickets, enrollments[userId]))))
            && (UniqueIds(bookings) ==>
                 (v == Some(MaximumCapacityRoom) <==>
                    roomId in rooms && hasBooking && userId in enrollments && ownsTarget
                    && TicketEligible(TicketOf(tickets, enrollments[userId]))
                    && |FindMany(bookings, roomId)| == rooms[roomId].capacity))
            && (UniqueIds(bookings) ==>
                 (v.None? <==>
                    roomId in rooms && hasBooking && userId in enrollments && ownsTarget
                    && TicketEligible(TicketOf(tickets, enrollments[userId]))
                    && |FindMany(bookings, roomId)| != rooms[roomId].capacity))
  {
    var v := UpdateVerdict(bookings, rooms, enrollments, tickets, bookingId, roomId, userId);
    if UniqueIds(bookings) && FindUnique(bookings, bookingId).Some? {
      var t := FindUnique(bookings, bookingId).value;
      var k :| 0 <= k < |bookings| && bookings[k] == t;
      forall i | 0 <= i < |bookings| && bookings[i].id == bookingId ensures bookings[i] == t {
        assert i == k;
      }
    }
  }

  /** Any one failing ticket condition gives the same error, in create and in
      update alike, once the earlier guards have passed. */
  lemma IneligibleTicketIsCannotListHotels(bookings: seq<Booking>, rooms: map<int, Room>,
                                           enrollments: map<int, int>, tickets: map<int, Ticket>,
                                           bookingId: int, roomId: int, userId: int)
    requires roomId in rooms && userId in enrollments
    requires var t := TicketOf(tickets, enrollments[userId]);
             t.None? || t.value.status == Reserved || t.value.isRemote || !t.value.includesHotel
    ensures FindFirstByUser(bookings, userId).None? ==>
              CreateVerdict(bookings, rooms, enrollments, tickets, userId, roomId) == Some(CannotListHotelsError)
    ensures FindFirstByUser(bookings, userId).Some? && FindUnique(bookings, bookingId).Some?
            && FindUnique(bookings, bookingId).value.userId == userId ==>
              UpdateVerdict(bookings, rooms, enrollments, tickets, bookingId, roomId, userId)
                == Some(CannotListHotelsError)
  {
  }

  /** The capacity guard compares for equality: a room already holding more
      bookings than its capacity still accepts a new one. */
  lemma OverfullRoomStillAccepts(bookings: seq<Booking>, rooms: map<int, Room>, enrollments: map<int, int>,
                                 tickets: map<int, Ticket>, userId: int, roomId: int)
    requires roomId in rooms && userId in enrollments && FindFirstByUser(bookings, userId).None?
    requires TicketEligible(TicketOf(tickets, enrollments[userId]))
    requires |FindMany(bookings, roomId)| > rooms[roomId].capacity
    ensures CreateVerdict(bookings, rooms, enrollments, tickets, userId, roomId).None?
  {
  }

  /** The update count is not adjusted for the booking being moved: moving a
      booking into the full room it already occupies fails. */
  lemma MoveWithinFullRoomFails(bookings: seq<Booking>, rooms: map<int, Room>, enrollments: map<int, int>,
                                tickets: map<int, Ticket>, k: nat, userId: int)
    requires k < |bookings| && bookings[k].userId == userId && UniqueIds(bookings)
    requires var roomId := bookings[k].roomId;
             roomId in rooms && userId in enrollments
             && TicketEligible(TicketOf(tickets, enrollments[userId]))
             && |FindMany(bookings, roomId)| == rooms[roomId].capacity
    ensures UpdateVerdict(bookings, rooms, enrollments, tickets, bookings[k].id, bookings[k].roomId, userId)
              == Some(MaximumCapacityRoom)
  {
    var t := FindUnique(bookings, bookings[k].id);
    var j :| 0 <= j < |bookings| && bookings[j] == t.value;
    assert j == k;
  }

  /** When one booking per user holds, the only booking an update can move
      is the caller's own. */
  lemma UpdateMovesCallersBooking(bookings: seq<Booking>, rooms: map<int, Room>, enrollments: map<int, int>,
                                  tickets: map<int, Ticket>, bookingId: int, roomId: int, userId: int)
    requires OnePerUser(bookings)
    requires UpdateVerdict(bookings, rooms, enrollments, tickets, bookingId, roomId, userId).None?
    ensures FindUnique(bookings, bookingId) == FindFirstByUser(bookings, userId)
  {
    var t := FindUnique(bookings, bookingId).value;
    var f := FindFirstByUser(bookings, userId).value;
    var i :| 0 <= i < |bookings| && bookings[i] == t;
    var j :| 0 <= j < |bookings| && bookings[j] == f;
    assert i == j;
  }
}
