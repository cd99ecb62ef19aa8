/**
 * `BookingsService`: the booking table with owner-only access.
 * The booking repository is a map from booking id to stored booking plus the
 * storage order of its ids; the guest, room and facility repositories are
 * read-only lookup tables, and the user directory is keyed by user id.
 */
module BookingService {
  import opened Results
  import opened Users
  import opened Lookup
  import opened BookingModel

  class BookingsService {
    var table: map<BookingId, Booking<UserId>>
    var order: seq<BookingId>
    /** The id the repository assigns to the next booking it saves. */
    var nextId: BookingId

    const guests: seq<Guest>
    const rooms: seq<Room>
    const facilities: seq<Facility>
    const accounts: map<UserId, User>

    ghost predicate Valid()
      reads this
    {
      && KeyedById(accounts)
      && Distinct(order)
      && (forall k :: k in table <==> k in order)
      && (forall k :: k in table ==> table[k].id == k && k < nextId && table[k].user in accounts)
    }

    constructor (guests: seq<Guest>, rooms: seq<Room>, facilities: seq<Facility>, accounts: map<UserId, User>)
      requires KeyedById(accounts)
      ensures Valid()
      ensures table == map[] && order == [] && nextId == 0
      ensures this.guests == guests && this.rooms == rooms && this.facilities == facilities
      ensures this.accounts == accounts
    {
      table, order, nextId := map[], [], 0;
      this.guests, this.rooms, this.facilities := guests, rooms, facilities;
      this.accounts := accounts;
    }

    /** The stored bookings in storage order, as `find` loads them. */
    function Rows(): (r: seq<Booking<UserId>>)
      reads this
      requires Valid()
      ensures OwnersKnown(r, accounts)
    {
      RowsOf(order, table)
    }

    /**
     * The stored booking that a create or update request yields: the number and
     * dates of `dto`, exactly the known guests and facilities whose ids `dto`
     * lists, the room `dto` names if it exists, and `u` as owner.
     */
    function Resolve(id: BookingId, createdate: Date, dto: BookingRequest, u: UserId): (b: Booking<UserId>)
      ensures b.id == id && b.createdate == createdate && Authorized(b, u)
      ensures b.bookingnumber == dto.bookingnumber && b.datefrom == dto.datefrom && b.dateto == dto.dateto
      ensures forall g :: g in b.guests <==> g in guests && g.id in dto.guests
      ensures forall f :: f in b.facilities <==> f in facilities && f.id in dto.facilities
      ensures b.room.Some? <==> exists i :: 0 <= i < |rooms| && rooms[i].id == dto.room
      ensures b.room.Some? ==> b.room.value in rooms && b.room.value.id == dto.room
    {
      Booking(id, dto.bookingnumber, createdate, dto.datefrom, dto.dateto,
              SelectIn(guests, (g: Guest) => g.id, dto.guests),
              FindFirst(rooms, (r: Room) => r.id, dto.room),
              SelectIn(facilities, (f: Facility) => f.id, dto.facilities),
              u)
    }

    /** `create`: stores a new booking stamped with `now`, owned by `u`, at the end of the table. */
    method Create(dto: BookingRequest, u: UserId, now: Date) returns (r: Booking<PublicUser>)
      requires Valid()
      requires u in accounts
      modifies this
      ensures Valid()
      ensures old(nextId) !in old(table) && nextId == old(nextId) + 1
      ensures table == old(table)[old(nextId) := Resolve(old(nextId), now, dto, u)]
      ensures order == old(order) + [old(nextId)]
      ensures r == WithUser(Resolve(old(nextId), now, dto, u), Public(accounts[u]))
      ensures forall v :: OwnedViews(Rows(), v, accounts) ==
                OwnedViews(old(Rows()), v, accounts) + (if v == u then [r] else [])
    {
      var booking := Resolve(nextId, now, dto, u);
      assert nextId !in order;
      table := table[nextId := booking];
      order := order + [nextId];
      nextId := nextId + 1;
      r := WithUser(booking, Public(accounts[u]));
      forall v ensures OwnedViews(Rows(), v, accounts) ==
                       OwnedViews(old(Rows()), v, accounts) + (if v == u then [r] else []) {
        ListingAfterInsert(old(order), old(table), booking, v, accounts);
      }
    }

    /** `findAll`: the bookings `u` owns, in storage order, with the owner's public projection. */
    method FindAll(u: UserId) returns (result: seq<Booking<PublicUser>>)
      requires Valid()
      ensures result == OwnedViews(Rows(), u, accounts)
      ensures |result| == multiset(Owners(Rows()))[u]
      ensures forall v :: v in result <==>
                exists b :: b in Rows() && Authorized(b, u) && v == WithUser(b, Public(accounts[b.user]))
    {
      var bookings := Rows();
      result := [];
      for i := 0 to |bookings|
        invariant result == OwnedViews(bookings[..i], u, accounts)
      {
        OwnersKnownPrefix(bookings, i, accounts);
        OwnersKnownPrefix(bookings, i + 1, accounts);
        assert bookings[..i + 1] == bookings[..i] + [bookings[i]];
        OwnedViewsAppend(bookings[..i], [bookings[i]], u, accounts);
        if Authorized(bookings[i], u) {
          result := result + [WithUser(bookings[i], Public(accounts[u]))];
        }
      }
      assert bookings[..|bookings|] == bookings;
      OwnedViewsCount(bookings, u, accounts);
      forall v ensures v in result <==>
          exists b :: b in bookings && Authorized(b, u) && v == WithUser(b, Public(accounts[b.user])) {
        OwnedViewsMembers(bookings, u, accounts, v);
      }
    }

    /** `findOne`: the booking `id` if `u` owns it; `Forbidden` if another user does. */
    method FindOne(id: BookingId, u: UserId) returns (r: Result<Booking<PublicUser>>)
      requires Valid()
      ensures r.Ok? <==> id in table && Authorized(table[id], u)
      ensures r.Ok? ==> u in accounts && r.value == WithUser(table[id], Public(accounts[u]))
      ensures r.Err? ==> r.error == if id in table then Forbidden else NotFound
    {
      if id !in table {
        return Err(NotFound);
      }
      var booking := table[id];
      if Authorized(booking, u) {
        r := Ok(WithUser(booking, Public(accounts[u])));
      } else {
        r := Err(Forbidden);
      }
    }

    /**
     * `update`: the owner replaces the whole booking from `dto`; only the id and
     * the creation date survive. Anyone else gets `Forbidden` and changes nothing.
     */
    method Update(id: BookingId, dto: BookingRequest, u: UserId) returns (r: Result<Booking<PublicUser>>)
      requires Valid()
      modifies this
      ensures Valid()
      ensures order == old(order) && nextId == old(nextId)
      ensures id !in old(table) ==> r == Err(NotFound) && table == old(table)
      ensures id in old(table) && !Authorized(old(table)[id], u) ==> r == Err(Forbidden) && table == old(table)
      ensures id in old(table) && Authorized(old(table)[id], u) ==>
                && table == old(table)[id := Resolve(id, old(table)[id].createdate, dto, u)]
                && r == Ok(WithUser(table[id], Public(accounts[u])))
    {
      if id !in table {
        return Err(NotFound);
      }
      var booking := table[id];
      if Authorized(booking, u) {
        var updated := Resolve(id, booking.createdate, dto, u);
        table := table[id := updated];
        r := Ok(WithUser(updated, Public(accounts[u])));
      } else {
        r := Err(Forbidden);
      }
    }

    /** `remove`: the owner deletes the booking; anyone else gets `Forbidden` and changes nothing. */
    method Remove(id: BookingId, u: UserId) returns (r: Result<bool>)
      requires Valid()
      modifies this
      ensures Valid()
      ensures nextId == old(nextId)
      ensures id !in old(table) ==> r == Err(NotFound) && table == old(table) && order == old(order)
      ensures id in old(table) && !Authorized(old(table)[id], u) ==>
                r == Err(Forbidden) && table == old(table) && order == old(order)
      ensures id in old(table) && Authorized(old(table)[id], u) ==>
                && r == Ok(true) && table == old(table) - {id} && order == Without(old(order), id)
                && forall v :: OwnedViews(Rows(), v, accounts) == DropId(OwnedViews(old(Rows()), v, accounts), id)
    {
      if id !in table {
        return Err(NotFound);
      }
      if Authorized(table[id], u) {
        table := table - {id};
        order := Without(order, id);
        r := Ok(true);
        forall v ensures OwnedViews(Rows(), v, accounts) == DropId(OwnedViews(old(Rows()), v, accounts), id) {
          ListingAfterRemoval(old(order), old(table), id, v, accounts);
        }
      } else {
        r := Err(Forbidden);
      }
    }

    /**
     * `findIncomplete`: the summaries of the bookings `u` owns, in storage order,
     * with the owner's public projection; exactly the summaries of what
     * `findAll(u)` returns.
     */
    method FindIncomplete(u: UserId) returns (result: seq<IncompleteBooking<PublicUser>>)
      requires Valid()
      ensures result == Summaries(OwnedViews(Rows(), u, accounts))
      ensures |result| == multiset(Owners(Rows()))[u]
      ensures forall i :: 0 <= i < |result| ==> u in accounts && result[i].user == Public(accounts[u])
    {
      var bookings := Rows();
      var incomplete := LoadSummaries(bookings, accounts);
      result := [];
      for i := 0 to |incomplete|
        invariant result == Summaries(OwnedViews(bookings[..i], u, accounts))
      {
        OwnersKnownPrefix(bookings, i, accounts);
        OwnersKnownPrefix(bookings, i + 1, accounts);
        assert bookings[..i + 1] == bookings[..i] + [bookings[i]];
        OwnedViewsAppend(bookings[..i], [bookings[i]], u, accounts);
        SummariesAppend(OwnedViews(bookings[..i], u, accounts), OwnedViews([bookings[i]], u, accounts));
        if incomplete[i].user.id == u {
          result := result + [IncompleteBooking(incomplete[i].bookingnumber, incomplete[i].datefrom,
                                                incomplete[i].dateto, Public(accounts[u]))];
        }
      }
      assert bookings[..|bookings|] == bookings;
      OwnedViewsCount(bookings, u, accounts);
      var owned := OwnedViews(bookings, u, accounts);
      assert |result| == |owned| by {
        if |owned| > 0 { SummariesAt(owned, 0); }
      }
      forall i | 0 <= i < |result| ensures u in accounts && result[i].user == Public(accounts[u]) {
        SummariesAt(owned, i);
      }
    }
  }
}
