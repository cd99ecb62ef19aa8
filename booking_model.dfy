/**
 * Entities of the booking component and the pure functions that specify
 * what the booking service's list operations return.
 */
module BookingModel {
  import opened Results
  import opened Users

  type BookingId = nat
  /** A point in time (a JavaScript `Date`), as milliseconds since the epoch. */
  type Date = int

  datatype Guest = Guest(id: nat, firstname: string, lastname: string, phonenumber: nat, emailaddress: string)
  /** Rooms and facilities are selected by id; their other columns are not part of this model. */
  datatype Room = Room(id: nat, details: string)
  datatype Facility = Facility(id: nat, details: string)

  /**
   * A booking whose `user` is of type `Owner`: the table stores the owner's
   * id, the service hands out the owner's public projection.
   */
  datatype Booking<Owner> = Booking(
    id: BookingId,
    bookingnumber: int,
    createdate: Date,
    datefrom: Date,
    dateto: Date,
    guests: seq<Guest>,
    room: Option<Room>,
    facilities: seq<Facility>,
    user: Owner)

  /** The body of a create or update request: ids still to be resolved. */
  datatype BookingRequest = BookingRequest(
    bookingnumber: int,
    datefrom: Date,
    dateto: Date,
    guests: seq<nat>,
    room: nat,
    facilities: seq<nat>)

  /** The summary view of a booking: no guests, room or facilities. */
  datatype IncompleteBooking<Owner> = IncompleteBooking(bookingnumber: int, datefrom: Date, dateto: Date, user: Owner)

  /** The one authorization predicate: the acting user owns the booking. */
  predicate Authorized(b: Booking<UserId>, u: UserId) {
    b.user == u
  }

  function WithUser<A, B>(b: Booking<A>, user: B): Booking<B> {
    Booking(b.id, b.bookingnumber, b.createdate, b.datefrom, b.dateto, b.guests, b.room, b.facilities, user)
  }

  function Summary<O>(b: Booking<O>): IncompleteBooking<O> {
    IncompleteBooking(b.bookingnumber, b.datefrom, b.dateto, b.user)
  }

  predicate Distinct(s: seq<BookingId>) {
    forall i, j :: 0 <= i < j < |s| ==> s[i] != s[j]
  }

  ghost predicate OwnersKnown(rows: seq<Booking<UserId>>, accounts: map<UserId, User>) {
    forall b :: b in rows ==> b.user in accounts
  }

  /** The bookings of the table, in storage order. */
  function RowsOf(order: seq<BookingId>, table: map<BookingId, Booking<UserId>>): (r: seq<Booking<UserId>>)
    requires forall k :: k in order ==> k in table
  {
    seq(|order|, i requires 0 <= i < |order| => table[order[i]])
  }

  /** The owner column of a sequence of stored bookings. */
  function Owners(rows: seq<Booking<UserId>>): seq<UserId> {
    seq(|rows|, i requires 0 <= i < |rows| => rows[i].user)
  }

  /**
   * What `findAll(u)` returns for the stored bookings `rows`: the bookings
   * owned by `u`, in their storage order, each carrying the public projection
   * of `u` in place of the owner id.
   */
  function OwnedViews(rows: seq<Booking<UserId>>, u: UserId, accounts: map<UserId, User>): (r: seq<Booking<PublicUser>>)
    requires OwnersKnown(rows, accounts)
    ensures |r| <= |rows|
    ensures forall v :: v in r ==> u in accounts && v.user == Public(accounts[u])
  {
    if rows == [] then []
    else
      var rest := OwnedViews(rows[1..], u, accounts);
      if Authorized(rows[0], u) then [WithUser(rows[0], Public(accounts[u]))] + rest else rest
  }

  /** The summary of each booking of `s`, position by position. */
  function Summaries<O>(s: seq<Booking<O>>): (r: seq<IncompleteBooking<O>>) {
    if s == [] then [] else [Summary(s[0])] + Summaries(s[1..])
  }

  /**
   * The `bookings.map` step of `findIncomplete`: one summary per stored booking,
   * its `user` being the owner's full account as the user relation loads it.
   */
  function LoadSummaries(rows: seq<Booking<UserId>>, accounts: map<UserId, User>): (r: seq<IncompleteBooking<User>>)
    requires OwnersKnown(rows, accounts)
  {
    seq(|rows|, i requires 0 <= i < |rows| => Summary(WithUser(rows[i], accounts[rows[i].user])))
  }

  /** The stored bookings with the user relation loaded: each owner id replaced by the full account. */
  function LoadOwners(rows: seq<Booking<UserId>>, accounts: map<UserId, User>): (r: seq<Booking<User>>)
    requires OwnersKnown(rows, accounts)
  {
    seq(|rows|, i requires 0 <= i < |rows| => WithUser(rows[i], accounts[rows[i].user]))
  }

  /**
   * The `map` step is the summary, position by position, of the bookings with
   * their owners loaded; the loaded owner's id is the stored owner id.
   */
  lemma LoadSummariesAgree(rows: seq<Booking<UserId>>, accounts: map<UserId, User>)
    requires OwnersKnown(rows, accounts) && KeyedById(accounts)
    ensures LoadSummaries(rows, accounts) == Summaries(LoadOwners(rows, accounts))
    ensures forall i :: 0 <= i < |rows| ==> LoadSummaries(rows, accounts)[i].user.id == rows[i].user
  {
    var loaded := LoadOwners(rows, accounts);
    if rows == [] {
      assert loaded == [];
    } else {
      SummariesAt(loaded, 0);
      forall i | 0 <= i < |rows| ensures Summaries(loaded)[i] == LoadSummaries(rows, accounts)[i] {
        SummariesAt(loaded, i);
      }
    }
  }

  /**
   * The test `booking.user.id == userId` on a booking whose user relation is
   * loaded is the authorization predicate on the stored booking.
   */
  lemma AuthorizedByLoadedOwner(b: Booking<UserId>, u: UserId, accounts: map<UserId, User>)
    requires KeyedById(accounts) && b.user in accounts
    ensures Authorized(b, u) <==> WithUser(b, accounts[b.user]).user.id == u
    ensures Authorized(b, u) <==> Public(accounts[b.user]).id == u
  {
  }

  /** The booking ids `ids` without `id`, in the same order. */
  function Without(ids: seq<BookingId>, id: BookingId): (r: seq<BookingId>)
    ensures forall x :: x in r <==> x in ids && x != id
    ensures Distinct(ids) ==> Distinct(r)
  {
    if ids == [] then []
    else
      var rest := Without(ids[1..], id);
      assert Distinct(ids) ==> ids[0] !in ids[1..];
      if ids[0] == id then rest else [ids[0]] + rest
  }

  /** The bookings of `s` other than the one with id `id`, in the same order. */
  function DropId<O>(s: seq<Booking<O>>, id: BookingId): seq<Booking<O>> {
    if s == [] then []
    else if s[0].id == id then DropId(s[1..], id)
    else [s[0]] + DropId(s[1..], id)
  }

  lemma RowsOfCons(k: BookingId, rest: seq<BookingId>, table: map<BookingId, Booking<UserId>>)
    requires k in table && forall j :: j in rest ==> j in table
    ensures RowsOf([k] + rest, table) == [table[k]] + RowsOf(rest, table)
  {
  }

  lemma RowsOfOwnersKnown(order: seq<BookingId>, table: map<BookingId, Booking<UserId>>, accounts: map<UserId, User>)
    requires forall k :: k in order ==> k in table
    requires forall k :: k in table ==> table[k].user in accounts
    ensures OwnersKnown(RowsOf(order, table), accounts)
  {
  }

  /**
   * Storing a new booking at the end of the table extends the list of its
   * owner by that booking and leaves every other user's list as it was.
   */
  lemma ListingAfterInsert(order: seq<BookingId>, table: map<BookingId, Booking<UserId>>, b: Booking<UserId>,
                           v: UserId, accounts: map<UserId, User>)
    requires forall k :: k in order ==> k in table
    requires forall k :: k in table ==> table[k].user in accounts
    requires b.id !in order && b.user in accounts
    ensures var after := table[b.id := b];
            OwnersKnown(RowsOf(order + [b.id], after), accounts) &&
            OwnedViews(RowsOf(order + [b.id], after), v, accounts) ==
              OwnedViews(RowsOf(order, table), v, accounts) + (if Authorized(b, v) then [WithUser(b, Public(accounts[v]))] else [])
  {
    var after := table[b.id := b];
    assert RowsOf(order + [b.id], after) == RowsOf(order, table) + [b];
    RowsOfOwnersKnown(order, table, accounts);
    OwnedViewsAppend(RowsOf(order, table), [b], v, accounts);
  }

  /**
   * Deleting booking `id` removes exactly that booking from every user's
   * list, keeping the order of the others; users who do not own it see no change.
   */
  lemma {:induction false} ListingAfterRemoval(order: seq<BookingId>, table: map<BookingId, Booking<UserId>>, id: BookingId,
                                               v: UserId, accounts: map<UserId, User>)
    requires forall k :: k in order ==> k in table
    requires forall k :: k in table ==> table[k].id == k && table[k].user in accounts
    ensures forall k :: k in Without(order, id) ==> k in table - {id}
    ensures OwnersKnown(RowsOf(Without(order, id), table - {id}), accounts)
    ensures OwnersKnown(RowsOf(order, table), accounts)
    ensures OwnedViews(RowsOf(Without(order, id), table - {id}), v, accounts) ==
            DropId(OwnedViews(RowsOf(order, table), v, accounts), id)
  {
    var after := table - {id};
    RowsOfOwnersKnown(order, table, accounts);
    RowsOfOwnersKnown(Without(order, id), after, accounts);
    if order != [] {
      var k, rest := order[0], order[1..];
      assert order == [k] + rest;
      RowsOfCons(k, rest, table);
      var before := RowsOf(order, table);
      assert before[1..] == RowsOf(rest, table);
      ListingAfterRemoval(rest, table, id, v, accounts);
      var tail := OwnedViews(RowsOf(rest, table), v, accounts);
      if k == id {
        assert Without(order, id) == Without(rest, id);
        if Authorized(table[k], v) {
          assert OwnedViews(before, v, accounts) == [WithUser(table[k], Public(accounts[v]))] + tail;
        }
      } else {
        assert Without(order, id) == [k] + Without(rest, id);
        RowsOfCons(k, Without(rest, id), after);
        var kept := RowsOf(Without(order, id), after);
        assert kept[0] == table[k] && kept[1..] == RowsOf(Without(rest, id), after);
        if Authorized(table[k], v) {
          var head := WithUser(table[k], Public(accounts[v]));
          assert OwnedViews(before, v, accounts) == [head] + tail;
          assert ([head] + tail)[1..] == tail;
        }
      }
    }
  }

  lemma OwnersKnownPrefix(rows: seq<Booking<UserId>>, i: nat, accounts: map<UserId, User>)
    requires OwnersKnown(rows, accounts) && i <= |rows|
    ensures OwnersKnown(rows[..i], accounts) && OwnersKnown(rows[i..], accounts)
  {
  }

  /** Listing is compositional: the list of `a + b` is the list of `a` followed by that of `b`. */
  lemma {:induction false} OwnedViewsAppend(a: seq<Booking<UserId>>, b: seq<Booking<UserId>>, u: UserId, accounts: map<UserId, User>)
    requires OwnersKnown(a, accounts) && OwnersKnown(b, accounts)
    ensures OwnersKnown(a + b, accounts)
    ensures OwnedViews(a + b, u, accounts) == OwnedViews(a, u, accounts) + OwnedViews(b, u, accounts)
  {
    if a == [] {
      assert a + b == b;
    } else {
      assert (a + b)[1..] == a[1..] + b;
      OwnersKnownPrefix(a, 1, accounts);
      OwnedViewsAppend(a[1..], b, u, accounts);
    }
  }

  /**
   * A booking appears in the list of `u` exactly when some stored booking is
   * owned by `u` and it is that booking with the public owner.
   */
  lemma {:induction false} OwnedViewsMembers(rows: seq<Booking<UserId>>, u: UserId, accounts: map<UserId, User>, v: Booking<PublicUser>)
    requires OwnersKnown(rows, accounts)
    ensures v in OwnedViews(rows, u, accounts) <==>
            exists b :: b in rows && Authorized(b, u) && v == WithUser(b, Public(accounts[b.user]))
  {
    if rows != [] {
      OwnersKnownPrefix(rows, 1, accounts);
      OwnedViewsMembers(rows[1..], u, accounts, v);
      assert forall b :: b in rows <==> b == rows[0] || b in rows[1..];
    }
  }

  /** The list of `u` is as long as the number of times `u` occurs in the owner column. */
  lemma {:induction false} OwnedViewsCount(rows: seq<Booking<UserId>>, u: UserId, accounts: map<UserId, User>)
    requires OwnersKnown(rows, accounts)
    ensures |OwnedViews(rows, u, accounts)| == multiset(Owners(rows))[u]
  {
    if rows != [] {
      assert Owners(rows) == [rows[0].user] + Owners(rows[1..]);
      OwnersKnownPrefix(rows, 1, accounts);
      OwnedViewsCount(rows[1..], u, accounts);
    }
  }

  /** Summaries are compositional too. */
  lemma {:induction false} SummariesAppend<O>(a: seq<Booking<O>>, b: seq<Booking<O>>)
    ensures Summaries(a + b) == Summaries(a) + Summaries(b)
  {
    if a == [] {
      assert a + b == b;
    } else {
      assert (a + b)[1..] == a[1..] + b;
      SummariesAppend(a[1..], b);
    }
  }

  /** A summary carries the booking number and dates of the booking it summarizes, position by position. */
  lemma {:induction false} SummariesAt<O>(s: seq<Booking<O>>, i: nat)
    requires i < |s|
    ensures |Summaries(s)| == |s|
    ensures Summaries(s)[i] == IncompleteBooking(s[i].bookingnumber, s[i].datefrom, s[i].dateto, s[i].user)
  {
    if i > 0 {
      SummariesAt(s[1..], i - 1);
    } else if |s| > 1 {
      SummariesAt(s[1..], 0);
    }
  }
}
