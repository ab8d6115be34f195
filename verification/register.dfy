/** Account creation: `POST /api/auth/register`. */
module Register {
  import opened Optional
  import opened Http
  import opened Models
  import opened Store
  import opened Routing
  import Auth

  datatype RegisterRequest = RegisterRequest(
    name: Option<string>, email: Option<string>, password: Option<string>,
    role: Option<string>, age: Option<int>, language: Option<string>)

  /** The user as the reply shows it: no password and no age. */
  datatype PublicUser = PublicUser(id: string, name: Option<string>, email: Option<string>, role: string, language: string)

  datatype Registered = Registered(message: string, user: PublicUser)

  /** The password hash `hash(plain, 10)`. */
  type Hash = string -> string

  const Created := "User created successfully"
  const Duplicate := "User already exists"

  /** `User.findOne({ email })` finds someone. An absent email leaves the
      filter empty, which any user matches. */
  predicate EmailTaken(users: seq<User>, email: Option<string>) {
    match email
    case None => |users| > 0
    case Some(e) => exists j :: 0 <= j < |users| && users[j].email == Some(e)
  }

  /** The account a registration stores: the submitted name and email, the
      hash of the password, and the role, age and language with their
      defaults. */
  function NewUser(request: RegisterRequest, id: string, hash: Hash): (u: User)
    requires request.password.Some?
    ensures u.id == id && u.name == request.name && u.email == request.email
    ensures u.password == hash(request.password.value)
    ensures u.role == OrText(request.role, "student")
    ensures u.age == OrNumber(request.age, 10)
    ensures u.language == OrText(request.language, "en")
  {
    User(id, request.name, request.email, hash(request.password.value),
      OrText(request.role, "student"), OrNumber(request.age, 10), OrText(request.language, "en"))
  }

  function Project(u: User): (p: PublicUser)
    ensures p.id == u.id && p.name == u.name && p.email == u.email
    ensures p.role == u.role && p.language == u.language
  {
    PublicUser(u.id, u.name, u.email, u.role, u.language)
  }

  /** The handler. A body that is not JSON, and a missing password (the
      hash refuses it), end in 500 with nothing stored; a taken email in 400
      with nothing stored; otherwise the one new account is stored and
      returned without its password and age, with 201. */
  function Post(request: Option<RegisterRequest>, db: Db, hash: Hash): (out: Handled<Registered>)
    ensures out.asked.None?
    ensures request.None? ==> out.response == ServerError(MalformedBody) && out.db == db
    ensures request.Some? && EmailTaken(db.users, request.value.email) ==>
      out.response == Refuse(400, Duplicate) && out.db == db
    ensures request.Some? && !EmailTaken(db.users, request.value.email) && request.value.password.None? ==>
      out.response == ServerError(HashError) && out.db == db
    ensures request.Some? && !EmailTaken(db.users, request.value.email) && request.value.password.Some? ==>
      var u := NewUser(request.value, FreshId(db), hash);
      && out.db == Advance(db).(users := db.users + [u])
      && out.response == Response(201, Payload(Registered(Created, Project(u))))
  {
    if request.None? then Handled(ServerError(MalformedBody), db, None)
    else if EmailTaken(db.users, request.value.email) then Handled(Refuse(400, Duplicate), db, None)
    else if request.value.password.None? then Handled(ServerError(HashError), db, None)
    else
      var u := NewUser(request.value, FreshId(db), hash);
      Handled(Response(201, Payload(Registered(Created, Project(u)))),
        Advance(db).(users := db.users + [u]), None)
  }

  /** Only a successful registration stores a user, and then exactly one. */
  lemma RegisterAddsAtMostOne(request: Option<RegisterRequest>, db: Db, hash: Hash)
    ensures var out := Post(request, db, hash);
      (out.response.status == 201 <==> |out.db.users| == |db.users| + 1)
      && (out.response.status != 201 ==> out.db == db)
      && out.db.lessons == db.lessons && out.db.exercises == db.exercises
      && out.db.quizzes == db.quizzes && out.db.progress == db.progress
  {
  }

  /** A user appended after all users with another email is the one a
      lookup of its email finds. */
  lemma {:induction false} FindAppended(users: seq<User>, u: User, e: string)
    requires u.email == Some(e)
    requires forall j :: 0 <= j < |users| ==> users[j].email != Some(e)
    ensures Auth.FindByEmail(users + [u], e) == Some(|users|)
  {
    var all := users + [u];
    assert all[|users|] == u;
    assert forall j :: 0 <= j < |users| ==> all[j] == users[j];
  }

  /** Registration then sign-in: with a hash the password check accepts,
      signing in with the registered email and password yields the new
      account's claims. The duplicate check is what makes the new account
      the one the email finds. */
  lemma RegisterThenSignIn(request: RegisterRequest, db: Db, hash: Hash, compare: Auth.Compare)
    requires request.email.Some? && request.email.value != ""
    requires request.password.Some? && request.password.value != ""
    requires compare(request.password.value, hash(request.password.value))
    requires !EmailTaken(db.users, request.email)
    ensures var out := Post(Some(request), db, hash);
      Auth.Authorize(Some(Auth.Credentials(request.email, request.password)), out.db.users, compare)
        == Some(Auth.Claims(NewUser(request, FreshId(db), hash)))
  {
    var u := NewUser(request, FreshId(db), hash);
    FindAppended(db.users, u, request.email.value);
  }

  /** Registration keeps every stored id one the counter issued. */
  lemma RegisterKeepsIdsIssued(request: Option<RegisterRequest>, db: Db, hash: Hash)
    requires IdsIssued(db)
    ensures IdsIssued(Post(request, db, hash).db)
  {
    var out := Post(request, db, hash);
    if out.db != db {
      var u := NewUser(request.value, FreshId(db), hash);
      assert Ids(out.db) == Ids(db) + {u.id};
      IssuingKeepsIdsIssued(db, out.db);
    }
  }
}
