/** The NextAuth options: the credentials provider's `authorize` guard
    chain, the `jwt` and `session` callbacks, and the session idle timeout. */
module Auth {
  import opened Wrappers
  import opened Http
  import opened Accounts

  /** The submitted sign-in form; `credentials` itself may be absent. */
  datatype Credentials = Credentials(email: Option<string>, password: Option<string>)

  const InvalidCredentials := "Invalid credentials"

  /** `session.maxAge`, in seconds: thirty days. With the JWT strategy this
      is an idle timeout, since each read of the session renews its expiry;
      the renewal itself is not part of this model. */
  const SessionMaxAge: nat := 30 * 24 * 60 * 60

  /** Neither `!credentials?.email` nor `!credentials?.password` holds. */
  predicate Submitted(credentials: Option<Credentials>)
  {
    credentials.Some? && Present(credentials.value.email) && Present(credentials.value.password)
  }

  /** `authorize`: the user looked up by email, or the error "Invalid
      credentials". `passwordMatches(plain, hash)` stands for `bcrypt.compare`. */
  function Authorize(credentials: Option<Credentials>, users: UserTable, passwordMatches: (string, string) -> bool)
    : (r: Result<User, string>)
    ensures !Submitted(credentials) ==> r == Failure(InvalidCredentials)
    ensures Submitted(credentials) && credentials.value.email.value !in users ==> r == Failure(InvalidCredentials)
    ensures r.Failure? ==> r.error == InvalidCredentials
    ensures r.Success? <==>
      && Submitted(credentials)
      && credentials.value.email.value in users
      && Present(users[credentials.value.email.value].hashedPassword)
      && passwordMatches(credentials.value.password.value, users[credentials.value.email.value].hashedPassword.value)
    ensures r.Success? ==> r.value == users[credentials.value.email.value]
  {
    if !Submitted(credentials) then Failure(InvalidCredentials)
    else
      var email, password := credentials.value.email.value, credentials.value.password.value;
      if email !in users then Failure(InvalidCredentials)
      else
        var user := users[email];
        if !Present(user.hashedPassword) then Failure(InvalidCredentials)
        else if !passwordMatches(password, user.hashedPassword.value) then Failure(InvalidCredentials)
        else Success(user)
  }

  /** Whether an account has passed OTP verification plays no part in the
      credential check: changing `emailVerified` changes only the returned row. */
  lemma AuthorizeIgnoresVerification(credentials: Option<Credentials>, users: UserTable,
                                     passwordMatches: (string, string) -> bool, email: string, stamp: Option<int>)
    requires email in users
    ensures var users' := users[email := users[email].(emailVerified := stamp)];
      var before, after := Authorize(credentials, users, passwordMatches), Authorize(credentials, users', passwordMatches);
      && (before.Success? <==> after.Success?)
      && (after.Success? ==> after.value == before.value.(emailVerified := after.value.emailVerified))
  {
  }

  /** The JSON web token NextAuth hands to the callbacks. */
  class Jwt {
    var id: Option<string>
    var email: Option<string>
    var name: Option<string>

    constructor (email: Option<string>, name: Option<string>)
      ensures this.id == None && this.email == email && this.name == name
    {
      this.id := None;
      this.email := email;
      this.name := name;
    }
  }

  /** The `user` part of a session. */
  class SessionUser {
    var name: Option<string>
    var email: Option<string>
    var image: Option<string>

    constructor (name: Option<string>, email: Option<string>, image: Option<string>)
      ensures this.name == name && this.email == email && this.image == image
    {
      this.name := name;
      this.email := email;
      this.image := image;
    }
  }

  class Session {
    var user: SessionUser?
    var expires: int

    constructor (user: SessionUser?, expires: int)
      ensures this.user == user && this.expires == expires
    {
      this.user := user;
      this.expires := expires;
    }
  }

  /** `callbacks.jwt`: when a user has just signed in, copy its id into the token. */
  method JwtCallback(token: Jwt, user: Option<User>) returns (result: Jwt)
    modifies token
    ensures result == token
    ensures token.id == if user.Some? then Some(user.value.id) else old(token.id)
    ensures token.email == old(token.email) && token.name == old(token.name)
  {
    if user.Some? {
      token.id := Some(user.value.id);
    }
    result := token;
  }

  /** `callbacks.session`: overwrite the session user's email with the
      token's id (absent when the token carries none). */
  method SessionCallback(session: Session, token: Jwt) returns (result: Session)
    modifies session.user
    ensures result == session && session.user == old(session.user) && session.expires == old(session.expires)
    ensures session.user != null ==> session.user.email == token.id
    ensures session.user != null ==> session.user.name == old(session.user.name) && session.user.image == old(session.user.image)
  {
    if session.user != null {
      session.user.email := token.id;
    }
    result := session;
  }

  /** At sign-in NextAuth runs `jwt` with the user, then `session` with the
      same token: the session's "email" is then the user's id. */
  method SignInSession(user: User, token: Jwt, session: Session) returns (result: Session)
    requires session.user != null
    modifies token, session.user
    ensures result == session && session.user == old(session.user)
    ensures session.user.email == Some(user.id)
  {
    var t := JwtCallback(token, Some(user));
    result := SessionCallback(session, t);
  }
}
