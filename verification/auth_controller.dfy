/** Registration and login. Password hashing and comparison are parameters:
    `hash` is the hasher as applied on save, `matchPassword(candidate, stored)`
    the comparison the account model performs. */
module AuthController {
  import opened Common
  import opened Model
  import opened Http

  const DuplicateEmail := "User already exists with this email"
  const RegisteredMessage := "User registered successfully"
  const InvalidCredentials := "Invalid credentials"

  /** `generateToken`: the signed token carries exactly these claims. */
  function GenerateToken(id: Id, email: string, role: Role): (t: Token)
    ensures t.id == id && t.email == email && t.role == role
  {
    Token(id, email, role)
  }

  /** `register`: 409 for an email already on file; otherwise exactly one new
      account built from the email and the hashed password, with the default
      role, answered with its public projection. */
  function Register(st: Store, email: string, password: string, hash: string -> string): (s: Step)
    ensures s.response.status in {201, 409}
    ensures s.response.status == 409 <==> exists k :: 0 <= k < |st.users| && st.users[k].email == email
    ensures s.response.status == 409 ==> s.response.payload == Failure(DuplicateEmail) && s.store == st
    ensures s.response.status == 201 ==>
              var u := User(st.nextId, email, hash(password), DefaultRole);
              && s.store.users == st.users + [u]
              && s.store.tasks == st.tasks
              && s.store.nextId > st.nextId
              && s.response.payload == Registered(RegisteredMessage, PublicUser(u.id, u.email, u.role))
  {
    if FindUserByEmail(st.users, email).Some? then
      Step(Response(409, Failure(DuplicateEmail)), st)
    else
      var u := User(st.nextId, email, hash(password), DefaultRole);
      Step(Response(201, Registered(RegisteredMessage, Project(u))),
           st.(users := st.users + [u], nextId := st.nextId + 1))
  }

  /** `login`: the first account with that email whose stored hash matches the
      password gets a token of its id, email and role; anything else gets the
      one generic 401. The store is never changed. */
  function Login(st: Store, email: string, password: string, matchPassword: (string, string) -> bool): (s: Step)
    ensures s.store == st
    ensures s.response.status in {200, 401}
    ensures s.response.status == 401 ==> s.response.payload == Failure(InvalidCredentials)
    ensures s.response.status == 200 <==>
              FindUserByEmail(st.users, email).Some?
              && matchPassword(password, st.users[FindUserByEmail(st.users, email).value].passwordHash)
    ensures s.response.status == 200 ==>
              && FindUserByEmail(st.users, email).Some?
              && var u := st.users[FindUserByEmail(st.users, email).value];
                 && u.email == email
                 && matchPassword(password, u.passwordHash)
                 && s.response.payload == LoggedIn(Token(u.id, u.email, u.role), PublicUser(u.id, u.email, u.role))
  {
    match FindUserByEmail(st.users, email)
    case None => Step(Response(401, Failure(InvalidCredentials)), st)
    case Some(i) =>
      var u := st.users[i];
      if !matchPassword(password, u.passwordHash) then
        Step(Response(401, Failure(InvalidCredentials)), st)
      else
        Step(Response(200, LoggedIn(GenerateToken(u.id, u.email, u.role), Project(u))), st)
  }

  /** An unknown email and a wrong password for a known one get the very same
      response, so a caller cannot tell which happened. */
  lemma {:induction false} LoginDoesNotRevealAccounts(
    st: Store, unknown: string, known: string, pw1: string, pw2: string, matchPassword: (string, string) -> bool)
    requires forall k :: 0 <= k < |st.users| ==> st.users[k].email != unknown
    requires exists k :: 0 <= k < |st.users| && st.users[k].email == known
    requires forall k :: 0 <= k < |st.users| && st.users[k].email == known ==> !matchPassword(pw2, st.users[k].passwordHash)
    ensures Login(st, unknown, pw1, matchPassword).response == Login(st, known, pw2, matchPassword).response
    ensures Login(st, unknown, pw1, matchPassword).response == Response(401, Failure(InvalidCredentials))
  {
    var r := FindUserByEmail(st.users, known);
    assert r.Some?;
  }

  /** Registration keeps emails and ids unique. */
  lemma RegisterPreservesValid(st: Store, email: string, password: string, hash: string -> string)
    requires Valid(st)
    ensures Valid(Register(st, email, password, hash).store)
  {
  }

  /** Registering the same email twice: the second attempt is a 409 that
      changes nothing. */
  lemma {:induction false} RegisterTwice(st: Store, email: string, pw1: string, pw2: string, hash: string -> string)
    requires Register(st, email, pw1, hash).response.status == 201
    ensures var s1 := Register(st, email, pw1, hash).store;
      Register(s1, email, pw2, hash) == Step(Response(409, Failure(DuplicateEmail)), s1)
  {
    var s1 := Register(st, email, pw1, hash).store;
    assert s1.users[|st.users|].email == email;
  }

  /** Whoever registers can log in with the same password (given a hasher and
      comparison that agree), and the token carries the new account's id,
      email and default role. */
  lemma {:induction false} RegisterThenLogin(
    st: Store, email: string, password: string, hash: string -> string, matchPassword: (string, string) -> bool)
    requires Register(st, email, password, hash).response.status == 201
    requires matchPassword(password, hash(password))
    ensures var s1 := Register(st, email, password, hash).store;
      Login(s1, email, password, matchPassword).response
        == Response(200, LoggedIn(Token(st.nextId, email, DefaultRole), PublicUser(st.nextId, email, DefaultRole)))
  {
    var s1 := Register(st, email, password, hash).store;
    var r := FindUserByEmail(s1.users, email);
    assert s1.users[|st.users|].email == email;
    assert r.Some?;
    assert r.value == |st.users|;
  }
}
