/**
 * `AuthService`: registration with unique emails, and login that answers an
 * unknown email and a wrong password alike and signs minimal claims.
 * The password verifier (`bcrypt.compare`), the token signer and the hashing
 * that account creation applies are uninterpreted functions handed to the
 * service when it is built.
 */
module Authentication {
  import opened Results
  import opened Users

  /** The registration request. */
  datatype NewUser = NewUser(email: string, password: string, firstname: string, lastname: string)

  datatype Credentials = Credentials(email: string, password: string)

  /** The claims a login token carries: the account's id and email, nothing else. */
  datatype Claims = Claims(id: UserId, email: string)

  datatype LoginResponse = LoginResponse(token: string)

  class AuthService {
    /** The user directory, keyed by email. */
    var accounts: map<string, User>
    /** The id the directory assigns to the next account it creates. */
    var nextUserId: UserId

    /** `bcrypt.compare(plain, hash)`. */
    const matches: (string, string) -> bool
    /** The token issuer's `generateJwtToken(claims)`. */
    const sign: Claims -> string
    /** What account creation stores for a plaintext password. */
    const hash: string -> string

    ghost predicate Valid()
      reads this
    {
      && (forall e :: e in accounts ==> accounts[e].email == e && accounts[e].id < nextUserId)
      && (forall e, f :: e in accounts && f in accounts && e != f ==> accounts[e].id != accounts[f].id)
    }

    constructor (matches: (string, string) -> bool, sign: Claims -> string, hash: string -> string)
      ensures Valid()
      ensures accounts == map[] && nextUserId == 0
      ensures this.matches == matches && this.sign == sign && this.hash == hash
    {
      accounts, nextUserId := map[], 0;
      this.matches, this.sign, this.hash := matches, sign, hash;
    }

    /** The account that the user directory creates for `candidate` under the id `id`. */
    function NewAccount(id: UserId, candidate: NewUser): User {
      User(id, candidate.email, hash(candidate.password), candidate.firstname, candidate.lastname)
    }

    /**
     * `register`: a taken email fails with `DuplicateAccount` and leaves the
     * directory as it was; otherwise exactly one account is added under the
     * new email and its public projection is returned.
     */
    method Register(candidate: NewUser) returns (r: Result<PublicUser>)
      requires Valid()
      modifies this
      ensures Valid()
      ensures candidate.email in old(accounts) ==>
                r == Err(DuplicateAccount) && accounts == old(accounts) && nextUserId == old(nextUserId)
      ensures candidate.email !in old(accounts) ==>
                && accounts == old(accounts)[candidate.email := NewAccount(old(nextUserId), candidate)]
                && accounts.Keys == old(accounts).Keys + {candidate.email}
                && |accounts| == |old(accounts)| + 1
                && nextUserId == old(nextUserId) + 1
                && r == Ok(Public(NewAccount(old(nextUserId), candidate)))
    {
      if candidate.email in accounts {
        return Err(DuplicateAccount);
      }
      var user := NewAccount(nextUserId, candidate);
      accounts := accounts[candidate.email := user];
      nextUserId := nextUserId + 1;
      r := Ok(Public(user));
    }

    /**
     * `loginUser`: fails with `InvalidCredentials`, the one error for both an
     * unknown email and a password that does not match the stored hash;
     * otherwise returns the signature of the account's id and email.
     */
    function LoginUser(credentials: Credentials): (r: Result<LoginResponse>)
      reads this
      ensures r.Err? <==> credentials.email !in accounts
                          || !matches(credentials.password, accounts[credentials.email].password)
      ensures r.Err? ==> r.error == InvalidCredentials
      ensures r.Ok? ==> var account := accounts[credentials.email];
                        r.value.token == sign(Claims(account.id, account.email))
    {
      if credentials.email !in accounts then Err(InvalidCredentials)
      else
        var account := accounts[credentials.email];
        if !matches(credentials.password, account.password) then Err(InvalidCredentials)
        else Ok(LoginResponse(sign(Claims(account.id, account.email))))
    }

    /**
     * A caller cannot tell an unknown email from a known one with a wrong
     * password: both logins give the very same answer.
     */
    lemma FailuresIndistinguishable(unknown: Credentials, wrong: Credentials)
      requires unknown.email !in accounts
      requires wrong.email in accounts && !matches(wrong.password, accounts[wrong.email].password)
      ensures LoginUser(unknown) == LoginUser(wrong) == Err(InvalidCredentials)
    {
    }
  }
}
