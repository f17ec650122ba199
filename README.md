# Booking allocation engine

A Dafny model of the hotel-room booking workflow of an event-management back end.

An attendee can do three things:

- look up their booking;
- create a booking in a room;
- move their booking to another room.

Creating and moving each run a fixed chain of guards: the room exists, the caller is authorised, the ticket is eligible, the room is not full. The first guard that fails decides the error. Only when all of them pass is there exactly one write to the bookings table. A handler layer then maps each outcome to an HTTP status and body.

Files:

- `errors.dfy` (module `Errors`): the error kinds the service throws, the `name` tag each carries, and the `Result`/`Option` wrappers.
- `store.dfy` (module `Store`): the tables (bookings as a sequence; rooms, enrollments and tickets as maps), the repository queries as functions, and the class `Database`. `Database` holds the tables. Its methods `Create` and `Update` are the two writes. `Valid()` states the table constraints: unique ids, ids below the auto-increment counter, and every booking pointing to an existing room.
- `bookings_service.dfy` (module `BookingsService`): `CreateVerdict`/`UpdateVerdict` give the first failing guard as a function of the state. The service operations (`GetBookingById`, `PostNewBooking`, `UpdateBooking`) perform the lookups step by step, proved against those functions. Lemmas prove the guard order, the ticket rule, the capacity quirks, and that "one booking per user" and "within capacity" are preserved.
- `bookings_controller.dfy` (module `BookingsController`): the status/body mapping on error names, and the three handlers.

Behaviour of the code worth noting:

- In the update path, a `bookingId` that resolves to no booking is not reported as not-found. The code reads `userId` of a null record, which throws a runtime `TypeError`. This is modelled as the outcome `Fault`. No controller branch matches it, so no response is sent.
- Because of the short-circuit `||`, a caller without an enrollment gets `UnauthorizedError` before the target booking is dereferenced.
- The capacity guard is an equality test. A room already over capacity still accepts new bookings (`OverfullRoomStillAccepts`).
- The update count includes the booking being moved (`MoveWithinFullRoomFails`).
- "One booking per user" and "no room over capacity" are not table constraints in the store. The write operations preserve them when they held before (`old(P) ==> P` in the method contracts).

## Model

| member | source | states |
|---|---|---|
| `Errors.Name` | src/controllers/bookings-controller.ts:29-35 | each kind carries the `name` tag the handlers compare against (`maximumCapacityRoom` is the tag set at src/errors/maximum-capacity-room.ts:5); the tag is `TypeError` exactly for the `Fault` outcome |
| `Errors.NameInjective` | src/controllers/bookings-controller.ts:29-35 | distinct error kinds carry distinct tags, so dispatching on the tag tells every kind apart |
| `Store.FindFirstByUser` | src/repositories/booking-repository/index.ts:3-21 | finds nothing exactly when no booking has that user id; otherwise returns a booking of that user, and no earlier row belongs to the user |
| `Store.FindUnique` | src/services/bookings-service/index.ts:50 | finds nothing exactly when no booking has that id; otherwise returns a row of the table with that id |
| `Store.FindMany` | src/services/bookings-service/index.ts:32 | returns the bookings of the table whose room is the given room, and no others |
| `Store.FindManyMultiplicity` | src/services/bookings-service/index.ts:32-33 | each booking of the room appears as often as in the table and every other booking not at all, so the length compared with the capacity is exactly the room's count |
| `Store.Moved` | src/services/bookings-service/index.ts:63 | the update keeps the length, every id and every user id, and changes the room of the target booking only |
| `Store.FindManyConcat` | src/services/bookings-service/index.ts:32-33 | the room filter distributes over concatenation of tables |
| `Store.FindManyAppend` | src/services/bookings-service/index.ts:32-37 | an inserted booking joins its own room's list and no other |
| `Store.FindFirstAppend` | src/repositories/booking-repository/index.ts:3-7 | after an append, the user lookup keeps any earlier match; it finds the new row only when no earlier row matched |
| `Store.MovedOccupancy` | src/services/bookings-service/index.ts:58-63 | after a move, the old room's count drops by one, the target room's count rises by one, and every other count is unchanged |
| `Store.Database.Create` | src/services/bookings-service/index.ts:37 | appends one booking with the next id, the caller and the room; keeps the table constraints; the other tables are untouched |
| `Store.Database.Update` | src/services/bookings-service/index.ts:63 | sets the room of the booking with that id; keeps ids and constraints; the other tables are untouched |
| `BookingsService.TicketEligible` | src/services/bookings-service/index.ts:29 | a ticket is ineligible exactly when it is missing, reserved, remote or without hotel (the guard as written, also at line 55); an eligible ticket is paid |
| `BookingsService.CreateVerdict` | src/services/bookings-service/index.ts:16-35 | the first failing create guard, or none; the create path never faults, and when every guard passes the room exists, the caller is enrolled and has no booking yet |
| `BookingsService.UpdateVerdict` | src/services/bookings-service/index.ts:40-61 | the first failing update guard, or none; a `Fault` arises only for an enrolled caller whose target id resolves to nothing, and when every guard passes the room and the target exist and the target belongs to the caller |
| `BookingsService.GetBookingById` | src/services/bookings-service/index.ts:8-14 | fails with NotFoundError exactly when the user has no booking; otherwise returns the user's first booking with its room's record; reads only |
| `BookingsService.PostNewBooking` | src/services/bookings-service/index.ts:16-38 | on a failed guard returns that error and leaves the table unchanged; otherwise appends exactly one booking (next id, user, room) and returns it; preserves one-per-user and capacity; a later lookup returns the new booking with its room |
| `BookingsService.UpdateBooking` | src/services/bookings-service/index.ts:40-64 | on a failed guard returns that error and leaves the table unchanged; otherwise changes only the room of the target booking and returns it; preserves one-per-user and capacity |
| `BookingsService.CreatePreservesInvariants` | src/services/bookings-service/index.ts:22-37 | a successful create keeps one booking per user and every room within capacity, and adds exactly one to the target room's count |
| `BookingsService.UpdatePreservesInvariants` | src/services/bookings-service/index.ts:58-63 | a successful update keeps one booking per user and every room within capacity |
| `BookingsService.CreateGuardOrder` | src/services/bookings-service/index.ts:16-35 | create's outcome for each error, as an if-and-only-if: unknown room gives NotFoundError whatever else holds; then an existing booking or missing enrollment gives UnauthorizedError; then an ineligible ticket gives CannotListHotelsError; then count equal to capacity gives maximumCapacityRoom; otherwise success |
| `BookingsService.UpdateGuardOrder` | src/services/bookings-service/index.ts:40-61 | update's outcome as an if-and-only-if: missing room or caller without a booking gives NotFoundError; an enrolled caller whose target id resolves to nothing gets Fault; a missing enrollment or another user's target gives UnauthorizedError; then an ineligible ticket gives CannotListHotelsError; then a target room whose count equals its capacity gives maximumCapacityRoom; success exactly when every guard passes |
| `BookingsService.IneligibleTicketIsCannotListHotels` | src/services/bookings-service/index.ts:29-31 | a missing, reserved, remote or hotel-less ticket gives CannotListHotelsError in create and, identically at lines 55-57, in update |
| `BookingsService.OverfullRoomStillAccepts` | src/services/bookings-service/index.ts:32-35 | the capacity guard is equality: a room holding more bookings than its capacity accepts another |
| `BookingsService.MoveWithinFullRoomFails` | src/services/bookings-service/index.ts:58-61 | the update count is not adjusted for the moving booking: moving into one's own full room fails with maximumCapacityRoom |
| `BookingsService.UpdateMovesCallersBooking` | src/services/bookings-service/index.ts:50-51 | with one booking per user, a successful update moves exactly the caller's own booking |
| `BookingsController.GetReply` | src/controllers/bookings-controller.ts:10-17 | a found booking is sent with 200 unchanged; NotFoundError gives 404 with no payload; any other error sends nothing |
| `BookingsController.WriteReply` | src/controllers/bookings-controller.ts:25-38 | success gives 200 with `{ bookingId: id }`; NotFoundError 404; UnauthorizedError and CannotListHotelsError 401; maximumCapacityRoom 403; Fault sends nothing |
| `BookingsController.GetBooking` | src/controllers/bookings-controller.ts:6-18 | always responds; 404 exactly when the authenticated user has no booking; otherwise 200 with that user's booking and its room |
| `BookingsController.PostBooking` | src/controllers/bookings-controller.ts:20-39 | 200 with the new booking's id when every create guard passes, the table then holding exactly one more booking (that id, the user, the room), which a following GET returns with its room, and the id counter advanced by one; otherwise the reply for the first failing guard with the table and the id counter unchanged; rooms, enrollments and tickets are never changed |
| `BookingsController.UpdateBooking` | src/controllers/bookings-controller.ts:41-61 | 200 with the moved booking's id when every update guard passes, the table then differing only in that booking's room; otherwise the reply for the first failing guard (none for Fault) with the table unchanged; the id counter, rooms, enrollments and tickets are never changed |
| `BookingsController.StatusOf` | src/controllers/bookings-controller.ts:28-38 | the status each kind is answered with by the write handlers: nothing exactly for `Fault`; 404 exactly for NotFoundError; 401 exactly for UnauthorizedError and CannotListHotelsError; 403 exactly for maximumCapacityRoom; every status a 4xx |
| `BookingsController.WriteReplyMatchesTable` | src/controllers/bookings-controller.ts:13-60 | the catch blocks of `postBooking` (lines 28-38) and `updateBooking` (lines 50-60) agree with the kind-to-status mapping (404/401/401/403, nothing for Fault); the catch block of `getBooking` (lines 13-17) answers only NotFoundError |
| `BookingsController.FullRoomScenario` | tests/integration/bookings.test.ts:172-187 | a capacity-2 room holding two other users' bookings refuses an eligible create with 403; this is the set-up the test intends, since the room factory it calls (tests/factories/rooms-factory.ts:4-8) ignores the capacity argument and draws a random one |
| `BookingsController.EligibleUserScenario` | tests/integration/bookings.test.ts:203-227 | an eligible user's create passes every guard; a reserved or a remote ticket gives CannotListHotelsError, answered with 401 |

## Left out

- Routing: the router registers only the GET handler (src/routers/bookings-router.ts:7). The POST and PUT handlers are modelled as if they were routed.
- Authentication: token and session checks, and their 401 replies, are external. Each handler takes the authenticated user id as a parameter.
- Request parsing: `Number(bookingId)` on the path parameter and the untyped `roomId` in the body are modelled as integers. Non-numeric input is not modelled.
- Persistence: the query library is external. The booking repository as shown exports only `findFirst` (src/repositories/booking-repository/index.ts:24-26); the `findMany`, `findUnique`, `create` and `update` the service calls are not in that file, and the model gives them plain table semantics, as it does the library's lookups. `findFirst` without ordering is taken to return the first matching row in table order. The enrollment and ticket repositories are plain map lookups, keyed by user id and by enrollment id. This assumes at most one of each per key. `enrollments` holds the enrollments the lookup by user returns; the service only tests that result for presence.
- `Store.Database.Create`: requires the room to exist, and `Store.Database.Update` requires the room and the target booking to exist. The store's own errors for a broken foreign key or a missing record are not modelled, because the service only calls these writes after checking both.
- Room records: the `createdAt`/`updatedAt` timestamps are opaque payload and are left out. `name` and `hotelId` are carried unchanged.
- Error messages: only the `name` tag of each error is modelled. Express's `sendStatus` writes the reason phrase as the body; the model records it as `StatusOnly`, a reply with no payload.
- Concurrency: requests run asynchronously, and the check-then-act race between concurrent creates can overbook a room. Both are out of scope; the model is sequential.
- Test factories: they produce random data and are not modelled.
