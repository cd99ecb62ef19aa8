/** The user accounts that both services consult through the user directory. */
module Users {

  type UserId = nat

  /** A stored account; `password` holds the stored (hashed) secret. */
  datatype User = User(id: UserId, email: string, password: string, firstname: string, lastname: string)

  /** The public projection of an account: every field except the password. */
  datatype PublicUser = PublicUser(id: UserId, email: string, firstname: string, lastname: string)

  function Public(u: User): PublicUser {
    PublicUser(u.id, u.email, u.firstname, u.lastname)
  }

  /** A directory keyed by user id stores each account under its own id. */
  ghost predicate KeyedById(accounts: map<UserId, User>) {
    forall k :: k in accounts ==> accounts[k].id == k
  }
}
