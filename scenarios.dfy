/**
 * Two client walkthroughs that use only the services' contracts: the
 * registration and login sequence, and a booking's life under its owner and
 * under another user.
 */
module Scenarios {
  import opened Results
  import opened Users
  import opened Lookup
  import opened BookingModel
  import opened BookingService
  import opened Authentication

  method AccountScenario() {
    // Stand-ins for the uninterpreted collaborators: the identity as hash,
    // equality as password check, a constant as signature.
    var auth := new AuthService((plain: string, stored: string) => plain == stored,
                                            (c: Claims) => "token", (p: string) => p);
    var first := auth.Register(NewUser("a@x.com", "pw1", "Anna", "Fedorova"));
    assert first == Ok(PublicUser(0, "a@x.com", "Anna", "Fedorova"));
    var second := auth.Register(NewUser("a@x.com", "pw2", "Anna", "Fedorova"));
    assert second == Err(DuplicateAccount);
    assert auth.LoginUser(Credentials("a@x.com", "wrongpw")) == Err(InvalidCredentials);
    assert auth.LoginUser(Credentials("b@x.com", "pw1")) == Err(InvalidCredentials);
    assert auth.LoginUser(Credentials("a@x.com", "pw1")) == Ok(LoginResponse(auth.sign(Claims(0, "a@x.com"))));
  }

  /** A service with two accounts, two guests, one room and one facility. */
  method NewService() returns (service: BookingsService, owner: User)
    ensures fresh(service) && service.Valid() && service.table == map[] && service.order == []
    ensures service.accounts.Keys == {1, 2} && service.accounts[1] == owner && owner.id == 1
    ensures service.guests == [Guest(1, "Makar", "Solovyov", 571177516610, "hedwig@live.com"),
                               Guest(2, "Dmitry", "Terentyev", 21654282729, "pavel@gmail.com")]
    ensures service.rooms == [Room(5, "double")] && service.facilities == [Facility(3, "pool")]
  {
    owner := User(1, "u@x.com", "hash-u", "Ivan", "Glebov");
    var other := User(2, "v@x.com", "hash-v", "Olga", "Egorova");
    service := new BookingsService([Guest(1, "Makar", "Solovyov", 571177516610, "hedwig@live.com"),
                                    Guest(2, "Dmitry", "Terentyev", 21654282729, "pavel@gmail.com")],
                                   [Room(5, "double")], [Facility(3, "pool")], map[1 := owner, 2 := other]);
  }

  /** Resolving guest ids 1, 2 and 9 against guests 1 and 2 drops 9 and keeps both guests. */
  lemma UnknownGuestDropped(guests: seq<Guest>)
    requires |guests| == 2 && guests[0].id == 1 && guests[1].id == 2
    ensures SelectIn(guests, (g: Guest) => g.id, [1, 2, 9]) == guests
  {
    var key := (g: Guest) => g.id;
    assert guests[1..][1..] == [];
    assert SelectIn(guests[1..], key, [1, 2, 9]) == [guests[1]];
    assert guests == [guests[0]] + guests[1..];
  }

  /** User 1 books guests 1 and 2 (and an unknown guest 9), room 5 and facility 3. */
  method BookingScenario(now: Date) {
    var service, owner := NewService();
    var created := service.Create(BookingRequest(7, 100, 200, [1, 2, 9], 5, [3]), 1, now);
    assert created.guests == service.guests by {
      assert created.guests == SelectIn(service.guests, (g: Guest) => g.id, [1, 2, 9]);
      UnknownGuestDropped(service.guests);
    }
    assert created.room == Some(Room(5, "double"));
    assert created.user == Public(owner) && created.createdate == now;
    var id := created.id;

    var mine := service.FindAll(1);
    assert mine == [created];
    var theirs := service.FindAll(2);
    assert theirs == [];
    var seen := service.FindOne(id, 1);
    assert seen == Ok(created);
    var denied := service.FindOne(id, 2);
    assert denied == Err(Forbidden);

    var refused := service.Remove(id, 2);
    assert refused == Err(Forbidden);
    var removed := service.Remove(id, 1);
    assert removed == Ok(true);
    var gone := service.FindOne(id, 1);
    assert gone == Err(NotFound);
  }
}
