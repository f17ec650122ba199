/** The entity store the booking service works against: the bookings table,
    which the service writes, and the rooms, enrollments and tickets tables,
    which it only reads. The repository queries become functions over these
    tables; the two writes become methods of `Database`. */
module Store {
  import opened Errors

  /** A row of the bookings table. */
  datatype Booking = Booking(id: int, userId: int, roomId: int)

  /** A row of the rooms table (keyed by room id). Timestamps are opaque
      payload and are not modelled. */
  datatype Room = Room(name: string, capacity: int, hotelId: int)

  datatype TicketStatus = Reserved | Paid

  /** A ticket together with the two flags of its ticket type. */
  datatype Ticket = Ticket(status: TicketStatus, isRemote: bool, includesHotel: bool)

  /** What the booking lookup by user selects: the booking id and its room. */
  datatype BookingWithRoom = BookingWithRoom(id: int, roomId: int, room: Room)

  /** Bookings are keyed by id. */
  ghost predicate UniqueIds(bs: seq<Booking>)
  {
    forall i, j :: 0 <= i < j < |bs| ==> bs[i].id != bs[j].id
  }

  /** At most one booking per user: the rule the create path enforces. */
  ghost predicate OnePerUser(bs: seq<Booking>)
  {
    forall i, j :: 0 <= i < j < |bs| ==> bs[i].userId != bs[j].userId
  }

  /** No room holds more bookings than its capacity. */
  ghost predicate WithinCapacity(bs: seq<Booking>, rooms: map<int, Room>)
  {
    forall r :: r in rooms ==> |FindMany(bs, r)| <= rooms[r].capacity
  }

  /** `findFirst` by user id: the first booking of the table that belongs to
      `userId`, or nothing. */
  function FindFirstByUser(bs: seq<Booking>, userId: int): (r: Option<Booking>)
    ensures r.None? <==> forall i :: 0 <= i < |bs| ==> bs[i].userId != userId
    ensures r.Some? ==> exists k :: 0 <= k < |bs| && bs[k] == r.value && r.value.userId == userId &&
                                    forall j :: 0 <= j < k ==> bs[j].userId != userId
  {
    if bs == [] then None
    else if bs[0].userId == userId then Some(bs[0])
    else FindFirstByUser(bs[1..], userId)
  }

  /** `findUnique` by booking id: the booking with that primary key, or nothing. */
  function FindUnique(bs: seq<Booking>, bookingId: int): (r: Option<Booking>)
    ensures r.None? <==> forall i :: 0 <= i < |bs| ==> bs[i].id != bookingId
    ensures r.Some? ==> r.value in bs && r.value.id == bookingId
  {
    if bs == [] then None
    else if bs[0].id == bookingId then Some(bs[0])
    else FindUnique(bs[1..], bookingId)
  }

  /** `findMany` by room id: the bookings of room `roomId`, in table order. */
  function FindMany(bs: seq<Booking>, roomId: int): (r: seq<Booking>)
    ensures |r| <= |bs|
    ensures forall b :: b in r <==> b in bs && b.roomId == roomId
  {
    if bs == [] then []
    else if bs[0].roomId == roomId then [bs[0]] + FindMany(bs[1..], roomId)
    else FindMany(bs[1..], roomId)
  }

  /** `findMany` keeps every booking of the room as often as the table holds
      it and drops every other, so its length is the room's exact count. */
  lemma {:induction false} FindManyMultiplicity(bs: seq<Booking>, roomId: int)
    ensures forall b :: multiset(FindMany(bs, roomId))[b] == if b.roomId == roomId then multiset(bs)[b] else 0
  {
    if bs != [] {
      FindManyMultiplicity(bs[1..], roomId);
      assert bs == [bs[0]] + bs[1..];
    }
  }

  /** The bookings table after `update` sets the room of booking `bookingId`. */
  function Moved(bs: seq<Booking>, bookingId: int, roomId: int): (r: seq<Booking>)
    ensures |r| == |bs|
    ensures forall i :: 0 <= i < |bs| ==> r[i].id == bs[i].id && r[i].userId == bs[i].userId
    ensures forall i :: 0 <= i < |bs| ==>
              r[i].roomId == if bs[i].id == bookingId then roomId else bs[i].roomId
  {
    if bs == [] then []
    else [if bs[0].id == bookingId then bs[0].(roomId := roomId) else bs[0]]
         + Moved(bs[1..], bookingId, roomId)
  }

  /** Filtering by room distributes over concatenation of tables. */
  lemma {:induction false} FindManyConcat(a: seq<Booking>, b: seq<Booking>, roomId: int)
    ensures FindMany(a + b, roomId) == FindMany(a, roomId) + FindMany(b, roomId)
  {
    if a == [] {
      assert a + b == b;
    } else {
      assert (a + b)[1..] == a[1..] + b;
      FindManyConcat(a[1..], b, roomId);
    }
  }

  /** Appending one booking adds it to its own room's list and to no other. */
  lemma FindManyAppend(bs: seq<Booking>, b: Booking, roomId: int)
    ensures FindMany(bs + [b], roomId) ==
            FindMany(bs, roomId) + (if b.roomId == roomId then [b] else [])
  {
    FindManyConcat(bs, [b], roomId);
    assert [b][1..] == [];
  }

  /** The lookup by user on a table with one more row: the earlier rows win. */
  lemma {:induction false} FindFirstAppend(bs: seq<Booking>, b: Booking, userId: int)
    ensures FindFirstByUser(bs + [b], userId) ==
            if FindFirstByUser(bs, userId).Some? then FindFirstByUser(bs, userId)
            else if b.userId == userId then Some(b) else None
  {
    if bs == [] {
      assert [b][1..] == [];
    } else {
      assert (bs + [b])[1..] == bs[1..] + [b];
      FindFirstAppend(bs[1..], b, userId);
    }
  }

  /** Under unique ids, the update rewrites exactly the row holding the id. */
  lemma MovedSplit(bs: seq<Booking>, k: nat, roomId: int)
    requires k < |bs| && UniqueIds(bs)
    ensures Moved(bs, bs[k].id, roomId) == bs[..k] + [bs[k].(roomId := roomId)] + bs[k + 1..]
  {
    var m := Moved(bs, bs[k].id, roomId);
    var s := bs[..k] + [bs[k].(roomId := roomId)] + bs[k + 1..];
    forall i | 0 <= i < |bs| ensures m[i] == s[i] {
      if i < k {
        assert bs[i].id != bs[k].id && s[i] == bs[i];
      } else if i == k {
        assert s[i] == bs[k].(roomId := roomId);
      } else {
        assert bs[i].id != bs[k].id && s[i] == bs[i];
      }
    }
  }

  /** A room's count over a table split around one row. */
  lemma SplitCount(a: seq<Booking>, x: Booking, c: seq<Booking>, roomId: int)
    ensures |FindMany(a + [x] + c, roomId)| ==
            |FindMany(a, roomId)| + (if x.roomId == roomId then 1 else 0) + |FindMany(c, roomId)|
  {
    FindManyConcat(a + [x], c, roomId);
    FindManyAppend(a, x, roomId);
  }

  /** Occupancy after a move: the moved booking leaves its old room's count
      and joins the target room's count; every other count is unchanged. */
  lemma MovedOccupancy(bs: seq<Booking>, k: nat, roomId: int, other: int)
    requires k < |bs| && UniqueIds(bs)
    ensures |FindMany(Moved(bs, bs[k].id, roomId), other)| ==
            |FindMany(bs, other)|
            - (if bs[k].roomId == other then 1 else 0)
            + (if roomId == other then 1 else 0)
  {
    MovedSplit(bs, k, roomId);
    assert bs == bs[..k] + [bs[k]] + bs[k + 1..];
    SplitCount(bs[..k], bs[k], bs[k + 1..], other);
    SplitCount(bs[..k], bs[k].(roomId := roomId), bs[k + 1..], other);
  }

  /** Moving a booking keeps every user id, hence one booking per user. */
  lemma MovePreservesOnePerUser(bs: seq<Booking>, bookingId: int, roomId: int)
    requires OnePerUser(bs)
    ensures OnePerUser(Moved(bs, bookingId, roomId))
  {
    var m := Moved(bs, bookingId, roomId);
    forall i, j | 0 <= i < j < |m| ensures m[i].userId != m[j].userId {
      assert m[i].userId == bs[i].userId && m[j].userId == bs[j].userId;
    }
  }

  /** Moving a booking into a room that is not at its capacity keeps every
      room within capacity. */
  lemma MovePreservesCapacity(bs: seq<Booking>, rooms: map<int, Room>, k: nat, roomId: int)
    requires k < |bs| && UniqueIds(bs) && WithinCapacity(bs, rooms)
    requires roomId in rooms && |FindMany(bs, roomId)| != rooms[roomId].capacity
    ensures WithinCapacity(Moved(bs, bs[k].id, roomId), rooms)
  {
    forall x | x in rooms
      ensures |FindMany(Moved(bs, bs[k].id, roomId), x)| <= rooms[x].capacity
    {
      MovedOccupancy(bs, k, roomId, x);
    }
  }

  /** The store. Rooms, enrollments (user id to enrollment id) and tickets
      (enrollment id to ticket) are read-only here; bookings are written by
      `Create` and `Update`, and `nextId` is the table's auto-increment. */
  class Database {
    var bookings: seq<Booking>
    var rooms: map<int, Room>
    var enrollments: map<int, int>
    var tickets: map<int, Ticket>
    var nextId: int

    /** The table constraints: primary key, auto-increment and the foreign
        key from a booking to its room. */
    ghost predicate Valid()
      reads this
    {
      && nextId >= 1
      && UniqueIds(bookings)
      && (forall i :: 0 <= i < |bookings| ==> 1 <= bookings[i].id < nextId)
      && (forall i :: 0 <= i < |bookings| ==> bookings[i].roomId in rooms)
    }

    constructor (rooms: map<int, Room>, enrollments: map<int, int>, tickets: map<int, Ticket>)
      ensures Valid()
      ensures this.bookings == [] && this.nextId == 1
      ensures this.rooms == rooms && this.enrollments == enrollments && this.tickets == tickets
    {
      this.bookings := [];
      this.rooms := rooms;
      this.enrollments := enrollments;
      this.tickets := tickets;
      this.nextId := 1;
    }

    /** `create`: insert a booking with a fresh id. The room must exist
        (foreign key). */
    method Create(userId: int, roomId: int) returns (b: Booking)
      requires Valid() && roomId in rooms
      modifies this
      ensures Valid()
      ensures b == Booking(old(nextId), userId, roomId)
      ensures bookings == old(bookings) + [b] && nextId == old(nextId) + 1
      ensures rooms == old(rooms) && enrollments == old(enrollments) && tickets == old(tickets)
    {
      b := Booking(nextId, userId, roomId);
      bookings := bookings + [b];
      nextId := nextId + 1;
    }

    /** `update`: set the room of the booking with id `bookingId`, which must
        exist, to `roomId`, which must exist (foreign key). */
    method Update(bookingId: int, roomId: int) returns (b: Booking)
      requires Valid() && roomId in rooms && FindUnique(bookings, bookingId).Some?
      modifies this
      ensures Valid()
      ensures b == FindUnique(old(bookings), bookingId).value.(roomId := roomId)
      ensures bookings == Moved(old(bookings), bookingId, roomId)
      ensures nextId == old(nextId)
      ensures rooms == old(rooms) && enrollments == old(enrollments) && tickets == old(tickets)
    {
      b := FindUnique(bookings, bookingId).value.(roomId := roomId);
      bookings := Moved(bookings, bookingId, roomId);
    }
  }
}
