# Booking ownership and authentication, modelled in Dafny

This project models the two services of a hotel-booking backend that hold conditional
business logic.

- `BookingsService` keeps the booking table. Each booking has a booking number, a
  server-assigned creation date, a date range, a list of guests, an optional room, a list of
  facilities and an owner. Every read, update and delete of an existing booking goes through
  one authorization predicate (`BookingModel.Authorized`): the booking's owner id must equal the
  acting user's id. `create` has no check: the acting user becomes the owner. The summary list
  tests the owner id of the loaded account (`user.id == u`); because the directory is keyed by
  id, that is the same predicate (`BookingModel.AuthorizedByLoadedOwner`).
  The list operations filter the table by owner and keep storage order. `update` replaces the
  whole record except its id and creation date. `create` and `update` resolve the guest, room
  and facility ids of the request against lookup tables. Unknown ids are silently dropped.
- `AuthService` registers accounts with unique emails and logs users in. An unknown email and a
  wrong password give the same `InvalidCredentials` error. The token signs claims that hold
  exactly the account's id and email.

## Layout

| file | module | contents |
|---|---|---|
| results.dfy | `Results` | `Option`, the error kinds, `Result` |
| users.dfy | `Users` | stored account `User`, its password-free projection `PublicUser`, `Public` |
| lookup.dfy | `Lookup` | the two repository queries the service issues: `findBy({id: In(ids)})` and `findOne({where: {id}})`, and lemmas on the first |
| booking_model.dfy | `BookingModel` | guests, rooms, facilities, `Booking<Owner>`, the request, the summary view; the pure functions that specify the list operations, and lemmas about them |
| booking_service.dfy | `BookingService` | class `BookingsService`: the table as fields, one method per service operation |
| auth_service.dfy | `Authentication` | class `AuthService`: the email-keyed directory, `Register`, `LoginUser` |
| scenarios.dfy | `Scenarios` | two client walkthroughs that use only the contracts. Registration walks through: register, duplicate, wrong password, unknown email, login. A booking walks through: create with an unknown guest id, list by owner and by another user, get, forbidden and permitted removal, get after removal |

### How the state is represented

- **The booking repository** is `table: map<BookingId, Booking<UserId>>`. Alongside it are
  `order: seq<BookingId>`, the storage order that `find` returns, and `nextId`, the id the
  repository assigns on the next insert.
- **`Valid()`** says four things:
  - `order` lists exactly the keys of `table`, each once.
  - Every stored booking carries its own key as its id, and that id is below `nextId`.
  - Every stored booking's owner is in the user directory.
  - The directory is keyed by user id.
- **The lookup tables** (guests, rooms, facilities) are `const` sequences of rows in storage
  order. `findBy In` returns rows in table order, without duplicates.
- **`Booking<Owner>`** depends on where the booking is:
  - Stored bookings hold the owner's id, so the type is `Booking<UserId>`.
  - Bookings the service returns hold the owner's `PublicUser`, so the type is
    `Booking<PublicUser>`.
  - `PublicUser` has no password field, so "the password is never returned" holds by
    construction.
- **`IncompleteBooking<Owner>`** follows the source:
  - The `map` step builds summaries whose `user` is the full account loaded by the relation.
  - The filtering loop pushes summaries whose `user` is the public projection.
- **Errors** are a datatype: `NotFound`, `Forbidden`, `DuplicateAccount`, `InvalidCredentials`.
  Both login failures map to the one constructor `InvalidCredentials`.
- **Collaborators passed in as parameters:**
  - The current time (`new Date()`) is the `now` parameter of `Create`.
  - `bcrypt.compare` is the const field `matches` of `AuthService`.
  - JWT signing is the const field `sign`.
  - The hashing that account creation applies is the const field `hash`.
  - All three are arbitrary functions, beyond what Dafny makes of every function: they are
    deterministic. Real bcrypt hashing is salted, so `hash` is not. No contract relies on that
    determinism: every contract names the result of `hash` or `sign` rather than a fixed value.

### Modelling choices at the source's edge

- **Missing booking id.** On a missing id, `findOne`, `update` and `remove` dereference a
  null booking at src/bookings/booking.service.ts:88, :101 and :141 and throw a runtime error,
  not a `ForbiddenException`. The model returns a distinct `NotFound` instead, and changes
  nothing.
- **Storing the owner.** `create` and `update` assign the owner's public projection to the
  booking before saving it (src/bookings/booking.service.ts:44, :53, :120-122). The table stores
  the owner's id, the only part of that object the relation keeps.

## Model

| member | source | states |
|---|---|---|
| `Lookup.SelectIn` | src/bookings/booking.service.ts:34-36 | the resolved entities are exactly the table rows whose id occurs in the request's id list; ids that match no row contribute nothing; never more rows than the table |
| `Lookup.SelectInCounts` | src/bookings/booking.service.ts:34-36 | each requested row occurs in the result exactly as often as in the table and other rows not at all, so the result is a sub-multiset of the table |
| `Lookup.SelectInAppend` | src/bookings/booking.service.ts:34-36 | selecting from a concatenation is the concatenation of the selections: the result keeps table order |
| `Lookup.FindFirst` | src/bookings/booking.service.ts:38-42 | the room is present iff some row has the requested id, and then it is the first such row; otherwise absent, without error |
| `BookingService.BookingsService.Resolve` | src/bookings/booking.service.ts:29-53 | the record that a request yields keeps the given id and creation date, copies number and dates from the request, holds exactly the known guests/facilities listed in it and the room if found, and is owned by the acting user |
| `BookingService.BookingsService.Create` | src/bookings/booking.service.ts:26-58 | a fresh id is added with that record at the end of the storage order, stamped with `now`; the other bookings are untouched; the result carries the owner's public projection; afterwards the owner's list gains exactly that booking at its end and every other list is unchanged |
| `BookingService.BookingsService.FindAll` | src/bookings/booking.service.ts:60-80 | the result is the owner-filtered, projected table in storage order; its length is the number of times the user occurs in the owner column; it contains a booking iff some stored booking owned by the user is that booking with the public owner |
| `BookingService.BookingsService.FindOne` | src/bookings/booking.service.ts:82-94 | succeeds iff the booking exists and the user owns it, returning it with the public owner; otherwise `Forbidden` on an existing booking and `NotFound` on a missing id; changes nothing |
| `BookingService.BookingsService.Update` | src/bookings/booking.service.ts:96-133 | for the owner, the booking becomes the record built from the request alone, keeping only its id and creation date; all other bookings, the storage order and the id counter are unchanged; for anyone else `Forbidden` and the table is unchanged; `NotFound` on a missing id |
| `BookingService.BookingsService.Remove` | src/bookings/booking.service.ts:135-148 | for the owner, returns true, removes the id from the table and from the storage order and leaves every other entry as it was; every user's list loses exactly that booking; for anyone else `Forbidden` with nothing changed; `NotFound` on a missing id |
| `BookingService.BookingsService.FindIncomplete` | src/bookings/booking.service.ts:150-180 | the result is the summaries (number, dates, public owner) of exactly what `FindAll` returns for the same user, in the same order; one entry per booking the user owns; every entry's owner is the public projection |
| `BookingModel.OwnedViews` | src/bookings/booking.service.ts:72-77 | the owner-filtered list is never longer than the table, and each entry carries the acting user's public projection |
| `BookingModel.OwnedViewsAppend` | src/bookings/booking.service.ts:72-77 | the list of a concatenation is the concatenation of the lists: filtering keeps storage order |
| `BookingModel.OwnedViewsMembers` | src/bookings/booking.service.ts:73-75 | a booking is listed for a user iff a stored booking owned by that user is that booking with the public owner (both directions) |
| `BookingModel.OwnedViewsCount` | src/bookings/booking.service.ts:72-76 | the list's length equals the multiplicity of the user in the owner column |
| `BookingModel.SummariesAt` | src/bookings/booking.service.ts:161-164 | a summary sits at the same position as its booking and carries exactly its number, dates and owner |
| `BookingModel.LoadSummariesAgree` | src/bookings/booking.service.ts:152-168 | the `map` step over the loaded table gives, position by position, the summaries of the bookings with their owner accounts loaded, and each summary's owner id is the stored owner id |
| `BookingModel.AuthorizedByLoadedOwner` | src/bookings/booking.service.ts:88 | the ownership test on the loaded owner account (`user.id == userId`, here and likewise at lines 73, 101, 141 and 173) holds iff the stored booking is authorized for the user, both for the account and for its public projection |
| `BookingModel.Without` | src/bookings/booking.service.ts:142 | after deletion, an id remains in the storage order iff it was there and is not the deleted one; order without duplicates stays without duplicates |
| `BookingModel.ListingAfterInsert` | src/bookings/booking.service.ts:55 | saving a new booking at the end of the table appends it to its owner's list and leaves all other users' lists unchanged |
| `BookingModel.ListingAfterRemoval` | src/bookings/booking.service.ts:142 | deleting a booking removes exactly that booking from every user's list and keeps the others in order |
| `Authentication.AuthService.Register` | src/auth/auth.service.ts:18-28 | a taken email gives `DuplicateAccount` with the directory and id counter unchanged; otherwise exactly one account is added under the new email with a fresh id, the directory's invariants are kept, and its password-free projection is returned |
| `Authentication.AuthService.LoginUser` | src/auth/auth.service.ts:30-50 | fails iff the email is unknown or the password does not match the stored hash, and then always with `InvalidCredentials`; on success the token is the signature of exactly `{id, email}` of the account; reads the directory and does not change it |
| `Authentication.AuthService.FailuresIndistinguishable` | src/auth/auth.service.ts:31-43 | an unknown email and a known email with a wrong password produce the identical result |

## Left out

- TypeORM itself is not modelled.
  - Its relation loading, `find`, `findBy`/`In`, `findOne` and `save` become the in-memory
    table and the two `Lookup` queries.
  - `find` with no order clause is taken to return rows in storage order.
- `bcrypt.compare`, JWT signing (`TokenSevice.generateJwtToken`) and the hashing inside the
  user directory's `create` are left uninterpreted (`matches`, `sign`, `hash`). They are
  foreign cryptographic code.
- `UsersService` is not part of this model. Two parts of it are represented differently:
  - `findUserByEmail` and `create` are the email-keyed `accounts` map of `AuthService`, with
    ids assigned by `nextUserId`.
  - `publicUser(id)` is `Public` of the id-keyed `accounts` map of `BookingsService`.
- The two services do not share one directory in the model. The booking service's directory is
  fixed, because nothing in that service changes it.
- The current time is a parameter (`now`) rather than a clock read.
- async/await is not modelled, and operations are sequential. In particular, `remove` does not
  await its `delete`, so in the source the deletion may finish after `true` is returned. The
  model deletes synchronously.
- The check-then-act race is left out. It sits between the ownership read and the write in
  `update` and `remove`, and is a concurrency issue outside a sequential model.
- NestJS exception classes, HTTP status codes and the Russian message texts are left out. They
  become the `Error` datatype.
- The static guest fixture service (src/datasource/guestsdatasource.service.ts) has no logic.
  The user-update DTO's validation decorators (src/users/dto/update-user-dto.ts) are enforced
  by a library. Neither is modelled.
- Column types that are not visible are simplified:
  - The booking number is an `int`.
  - Dates are integer timestamps.
  - Rooms and facilities carry only an id and one opaque `details` column.
- BookingService.BookingsService.Create: requires the acting user to be in the user directory.
  The source does not check this: an unknown id would make `publicUser` yield nothing, and the
  booking would be saved without an owner. The caller is an authenticated user, so the model
  does not represent ownerless bookings.
- The optional-chaining guards `?.user?.id` in the two list loops are not modelled. They never
  fire in the model, because `Valid()` guarantees that every stored booking has an owner.
