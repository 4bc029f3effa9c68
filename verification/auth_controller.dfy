/** The HTTP endpoints under `/api/v1/internal/auth`: status, login and
    signup, mapping the validator's results and errors to responses. */
module AuthController {
  import opened Wrappers
  import opened Domain
  import opened Persistence
  import opened AuthService
  import DataLoader

  const OK := 200
  const CREATED := 201
  const BAD_REQUEST := 400
  const UNAUTHORIZED := 401
  const INTERNAL_SERVER_ERROR := 500

  const StatusText := "Core Auth Service OK!"
  const InvalidCredentialsMessage := "Credenciais inválidas fornecidas para o Core Service."

  /** The login payload (its field constraints are checked before the
      handler runs and are not part of this model). */
  datatype LoginRequest = LoginRequest(email: string, password: string)

  /** The login answer, with the fields the controller sets on it. */
  datatype CoreAuthResponse = CoreAuthResponse(
    userId: nat,
    name: string,
    email: string,
    phoneNumber: string,
    roles: set<string>)

  /** The signup answer. */
  datatype UserCreateResponse = UserCreateResponse(
    id: nat,
    name: string,
    email: string,
    phoneNumber: string)

  /** A response body: plain text, one of the two DTOs, or the reason of a
      `ResponseStatusException`. */
  datatype Body =
    | PlainText(text: string)
    | AuthBody(auth: CoreAuthResponse)
    | CreatedBody(created: UserCreateResponse)
    | Reason(reason: string)

  datatype Response = Response(status: int, body: Body)

  /** The role set of a user as the wire strings of their names, as the
      stream `map(role -> role.getName().name())` collected to a set. */
  function RoleNames(roles: set<Role>): set<string>
  {
    set r | r in roles :: NameOf(r.name)
  }

  /** The element-by-element refinement of `RoleNames`, visiting the set as
      the stream does: every role contributes its name and nothing else is
      collected, so the result equals `RoleNames`. */
  method CollectRoleNames(roles: set<Role>) returns (names: set<string>)
    ensures forall r :: r in roles ==> NameOf(r.name) in names
    ensures forall n :: n in names ==> exists r :: r in roles && NameOf(r.name) == n
    ensures names == RoleNames(roles)
  {
    names := {};
    var pending := roles;
    while pending != {}
      invariant pending <= roles
      invariant forall r :: r in roles - pending ==> NameOf(r.name) in names
      invariant forall n :: n in names ==> exists r :: r in roles - pending && NameOf(r.name) == n
      decreases pending
    {
      var r :| r in pending;
      names := names + {NameOf(r.name)};
      pending := pending - {r};
    }
  }

  /** `checkStatus`: always 200 with the fixed liveness text. */
  function CheckStatus(): (r: Response)
    ensures r.status == OK && r.body == PlainText("Core Auth Service OK!")
  {
    Response(OK, PlainText(StatusText))
  }

  /** The login answer for a validated user. */
  function AuthResponse(u: User): CoreAuthResponse
  {
    CoreAuthResponse(u.id, u.name, u.email, u.phoneNumber, RoleNames(u.roles))
  }

  /** `login`: 200 with the stored user's fields and role names when the
      email is known and the password matches its digest, otherwise 401 with
      one fixed reason. */
  function Login(h: Hasher, s: Store, req: LoginRequest): (r: Response)
    ensures r.status == OK <==> req.email in s.users && h.matches(req.password, s.users[req.email].password)
    ensures r.status == OK ==>
      var u := s.users[req.email];
      r.body == AuthBody(CoreAuthResponse(u.id, u.name, u.email, u.phoneNumber, RoleNames(u.roles)))
    ensures r.status != OK ==> r == Response(UNAUTHORIZED, Reason(InvalidCredentialsMessage))
  {
    match ValidateCredentials(h, s, req.email, req.password)
    case Some(user) => Response(OK, AuthBody(AuthResponse(user)))
    case None => Response(UNAUTHORIZED, Reason(InvalidCredentialsMessage))
  }

  /** `registerUser`: 201 with the created user's fields; an
      `IllegalArgumentException` becomes 400 and any other error 500, both
      carrying the error's message. */
  function RegisterUser(h: Hasher, s: Store, req: CreateUserRequest): (r: Step<Response>)
    ensures r.store == CreateUser(h, s, req).store
    ensures req.email in s.users ==>
      r.result == Response(BAD_REQUEST, Reason(DuplicateEmailMessage(req.email)))
    ensures req.email !in s.users && DefaultRole !in s.roles ==>
      r.result == Response(INTERNAL_SERVER_ERROR, Reason(MissingRoleMessage(DefaultRole)))
    ensures req.email !in s.users && DefaultRole in s.roles ==>
      r.result == Response(CREATED, CreatedBody(UserCreateResponse(s.nextUserId, req.name, req.email, req.phoneNumber)))
  {
    var created := CreateUser(h, s, req);
    var response := match created.result
      case Success(newUser) =>
        Response(CREATED, CreatedBody(UserCreateResponse(newUser.id, newUser.name, newUser.email, newUser.phoneNumber)))
      case Failure(IllegalArgument(message)) => Response(BAD_REQUEST, Reason(message))
      case Failure(Configuration(message)) => Response(INTERNAL_SERVER_ERROR, Reason(message));
    Step(response, created.store)
  }

  /** An unknown email and a known email with a password its digest does not
      match produce the very same response: the caller cannot tell which
      it was. */
  lemma LoginIndistinguishable(h: Hasher, s: Store, unknown: LoginRequest, wrong: LoginRequest)
    requires unknown.email !in s.users
    requires wrong.email in s.users && !h.matches(wrong.password, s.users[wrong.email].password)
    ensures Login(h, s, unknown) == Login(h, s, wrong)
    ensures Login(h, s, unknown).status == UNAUTHORIZED
  {
  }

  /** A second signup with a taken email is a 400 and adds no row. */
  lemma DuplicateSignupRejected(h: Hasher, s: Store, req: CreateUserRequest)
    requires req.email in s.users
    ensures var r := RegisterUser(h, s, req);
      r.result.status == BAD_REQUEST && r.store == s
  {
  }

  /** Signup followed by login: the new account logs in at once, with the
      identity the signup answer reported and exactly the role name "USER". */
  lemma SignupThenLoginResponse(h: Hasher, s: Store, req: CreateUserRequest)
    requires Sound(h)
    requires req.email !in s.users && DefaultRole in s.roles
    requires Valid(s)
    ensures var signup := RegisterUser(h, s, req);
      var login := Login(h, signup.store, LoginRequest(req.email, req.password));
      && signup.result.status == CREATED
      && login.status == OK
      && login.body.auth.userId == signup.result.body.created.id
      && login.body.auth.roles == {"USER"}
  {
    var created := CreateUser(h, s, req);
    SignupThenLogin(h, s, req);
    var u := created.result.value;
    assert u.roles == {s.roles[USER]};
    assert s.roles[USER].name == USER;
    assert RoleNames({s.roles[USER]}) == {"USER"};
  }

  /** Seeding does not create the USER role, so on a database seeded from
      empty every signup with a new email fails with the configuration error,
      answered as 500, and saves nothing. */
  lemma SignupFailsAfterFreshSeed(h: Hasher, req: CreateUserRequest)
    requires req.email != DataLoader.AdminEmail
    ensures var seeded := DataLoader.Run(h, EmptyStore);
      var r := RegisterUser(h, seeded, req);
      r.result == Response(INTERNAL_SERVER_ERROR, Reason(MissingRoleMessage(USER))) && r.store == seeded
  {
    var seeded := DataLoader.Run(h, EmptyStore);
    assert seeded.users.Keys == {DataLoader.AdminEmail};
  }

  /** Role rows named ADMIN and MANAGER and nothing else project to exactly
      those two strings. */
  lemma AdminManagerRoleNames(roles: set<Role>)
    requires Names(roles) == {ADMIN, MANAGER}
    ensures RoleNames(roles) == {"ADMIN", "MANAGER"}
  {
    forall n | n in RoleNames(roles) ensures n in {"ADMIN", "MANAGER"} {
      var r :| r in roles && NameOf(r.name) == n;
      assert r.name in Names(roles);
    }
    var a :| a in roles && a.name == ADMIN;
    var m :| m in roles && m.name == MANAGER;
    assert NameOf(a.name) == "ADMIN" && NameOf(m.name) == "MANAGER";
  }

  /** The seeded administrator logs in with the seeded password and gets the
      role names ADMIN and MANAGER. */
  lemma SeededAdminLogin(h: Hasher, s: Store)
    requires Sound(h)
    requires Valid(s)
    requires DataLoader.AdminEmail !in s.users
    ensures var r := Login(h, DataLoader.Run(h, s), LoginRequest("admin@connectrh.com", "admin123"));
      r.status == OK && r.body.auth.roles == {"ADMIN", "MANAGER"}
  {
    var seeded := DataLoader.Run(h, s);
    DataLoader.SeededAdminRoles(h, s);
    var admin := seeded.users[DataLoader.AdminEmail];
    AdminManagerRoleNames(admin.roles);
    assert h.matches(DataLoader.AdminPassword, admin.password);
  }

  /** On a database seeded from empty, `admin@connectrh.com` / `admin123`
      logs in with 200 and the role names ADMIN and MANAGER. */
  lemma FreshSeedAdminLogin(h: Hasher)
    requires Sound(h)
    ensures var r := Login(h, DataLoader.Run(h, EmptyStore), LoginRequest("admin@connectrh.com", "admin123"));
      r.status == OK && r.body.auth.roles == {"ADMIN", "MANAGER"}
  {
    EmptyStoreValid();
    SeededAdminLogin(h, EmptyStore);
  }

  /** With a hasher that rejects "wrong" against the administrator's digest,
      that password gets the same 401 as any failed login. */
  lemma SeededAdminWrongPassword(h: Hasher, s: Store)
    requires DataLoader.AdminEmail !in s.users
    requires !h.matches("wrong", h.encode("admin123"))
    ensures Login(h, DataLoader.Run(h, s), LoginRequest("admin@connectrh.com", "wrong"))
      == Response(UNAUTHORIZED, Reason(InvalidCredentialsMessage))
  {
  }
}
