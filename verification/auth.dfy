/** Sign-in with email and password, and the copying of the user's claims
    into the token and from the token into the session. */
module Auth {
  import opened Optional
  import opened Models

  datatype Credentials = Credentials(email: Option<string>, password: Option<string>)

  /** The user `authorize` hands to the session machinery. */
  datatype AuthUser = AuthUser(
    id: string, name: Option<string>, email: Option<string>, role: string, language: string, age: int)

  /** The password check `compare(plain, hash)`. */
  type Compare = (string, string) -> bool

  /** The token: the standard claims, and the ones the callbacks add. */
  datatype Token = Token(
    name: Option<string>, email: Option<string>, picture: Option<string>, sub: Option<string>,
    id: Option<string>, role: Option<string>, language: Option<string>, age: Option<int>)

  datatype SessionUser = SessionUser(
    name: Option<string>, email: Option<string>, image: Option<string>,
    id: Option<string>, role: Option<string>, language: Option<string>, age: Option<int>)

  datatype Session = Session(user: Option<SessionUser>, expires: string)

  /** `User.findOne({ email })` for a given email: the first user with that
      email. */
  function FindByEmail(users: seq<User>, email: string): (r: Option<nat>)
    ensures r.Some? ==> r.value < |users| && users[r.value].email == Some(email)
    ensures r.Some? ==> forall j :: 0 <= j < r.value ==> users[j].email != Some(email)
    ensures r.None? <==> forall j :: 0 <= j < |users| ==> users[j].email != Some(email)
  {
    if |users| == 0 then None
    else if users[0].email == Some(email) then Some(0)
    else
      match FindByEmail(users[1..], email)
      case None => None
      case Some(k) => Some(k + 1)
  }

  /** The claims a signed-in user carries: everything but the password. */
  function Claims(u: User): (a: AuthUser)
    ensures a.id == u.id && a.name == u.name && a.email == u.email
    ensures a.role == u.role && a.language == u.language && a.age == u.age
  {
    AuthUser(u.id, u.name, u.email, u.role, u.language, u.age)
  }

  predicate Given(v: Option<string>) {
    v.Some? && |v.value| > 0
  }

  /** `authorize(credentials)`: the claims of the first user with the given
      email, when both email and password are given and the password
      matches that user's hash; nothing otherwise. */
  function Authorize(credentials: Option<Credentials>, users: seq<User>, compare: Compare): (r: Option<AuthUser>)
    ensures credentials.None? || !Given(credentials.value.email) || !Given(credentials.value.password) ==> r.None?
    ensures credentials.Some? && Given(credentials.value.email) && FindByEmail(users, credentials.value.email.value).None? ==> r.None?
    ensures r.Some? <==>
      && credentials.Some? && Given(credentials.value.email) && Given(credentials.value.password)
      && FindByEmail(users, credentials.value.email.value).Some?
      && compare(credentials.value.password.value, users[FindByEmail(users, credentials.value.email.value).value].password)
    ensures r.Some? ==> r.value == Claims(users[FindByEmail(users, credentials.value.email.value).value])
  {
    if credentials.None? || !Given(credentials.value.email) || !Given(credentials.value.password) then None
    else
      match FindByEmail(users, credentials.value.email.value)
      case None => None
      case Some(k) =>
        if !compare(credentials.value.password.value, users[k].password) then None
        else Some(Claims(users[k]))
  }

  /** The `jwt` callback: on sign-in the user's id, role, language and age
      are written into the token; later calls return it unchanged. */
  function Jwt(token: Token, user: Option<AuthUser>): (r: Token)
    ensures user.None? ==> r == token
    ensures user.Some? ==>
      && r.id == Some(user.value.id) && r.role == Some(user.value.role)
      && r.language == Some(user.value.language) && r.age == Some(user.value.age)
    ensures r.name == token.name && r.email == token.email && r.picture == token.picture && r.sub == token.sub
  {
    match user
    case None => token
    case Some(u) => token.(id := Some(u.id), role := Some(u.role), language := Some(u.language), age := Some(u.age))
  }

  /** The `session` callback: when the session has a user, the token's id,
      role, language and age are copied onto it; the rest of the session
      stays as it was. */
  function SessionOf(session: Session, token: Token): (r: Session)
    ensures session.user.None? ==> r == session
    ensures r.expires == session.expires
    ensures session.user.Some? ==>
      && r.user.Some?
      && r.user.value.id == token.id && r.user.value.role == token.role
      && r.user.value.language == token.language && r.user.value.age == token.age
      && r.user.value.name == session.user.value.name && r.user.value.email == session.user.value.email
      && r.user.value.image == session.user.value.image
  {
    match session.user
    case None => session
    case Some(u) =>
      session.(user := Some(u.(id := token.id, role := token.role, language := token.language, age := token.age)))
  }

  /** After a sign-in, the session built from the token carries the signed-in
      user's id, role, language and age. */
  lemma SignInReachesSession(credentials: Option<Credentials>, users: seq<User>, compare: Compare,
                             token: Token, session: Session)
    requires Authorize(credentials, users, compare).Some?
    requires session.user.Some?
    ensures var u := Authorize(credentials, users, compare).value;
      var s := SessionOf(session, Jwt(token, Some(u))).user.value;
      s.id == Some(u.id) && s.role == Some(u.role) && s.language == Some(u.language) && s.age == Some(u.age)
  {
  }

  /** Once claims are in the token, refreshing the token without a user and
      rebuilding the session keeps them. */
  lemma RefreshKeepsClaims(token: Token, u: AuthUser, session: Session)
    requires session.user.Some?
    ensures var t := Jwt(Jwt(token, Some(u)), None);
      SessionOf(session, t).user.value.id == Some(u.id)
  {
  }
}
