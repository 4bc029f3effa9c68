/** The credential validator: login check and user registration over the
    repositories and the password hasher. */
module AuthService {
  import opened Wrappers
  import opened Domain
  import opened Persistence

  /** The registration payload. */
  datatype CreateUserRequest = CreateUserRequest(
    name: string,
    email: string,
    password: string,
    phoneNumber: string)

  /** The two exceptions `createUser` throws: `IllegalArgumentException` for
      a taken email, a plain `RuntimeException` for missing seed data. */
  datatype AuthError = IllegalArgument(message: string) | Configuration(message: string)

  /** The role every self-registered user receives. */
  const DefaultRole := USER

  function DuplicateEmailMessage(email: string): string
  {
    "O email '" + email + "' já está cadastrado."
  }

  function MissingRoleMessage(n: RoleName): string
  {
    "Erro de configuração: Role '" + NameOf(n) + "' não encontrada."
  }

  /** `validateCredentials`: the stored user when the email is known and the
      raw password matches its digest, nothing otherwise. Whether the email
      was unknown or the password wrong is not told apart. The store is only
      read. */
  function ValidateCredentials(h: Hasher, s: Store, email: string, rawPassword: string): (r: Option<User>)
    ensures email !in s.users ==> r == None
    ensures email in s.users && h.matches(rawPassword, s.users[email].password) ==> r == Some(s.users[email])
    ensures email in s.users && !h.matches(rawPassword, s.users[email].password) ==> r == None
  {
    match FindByEmail(s, email)
    case None => None
    case Some(u) => if h.matches(rawPassword, u.password) then Some(u) else None
  }

  /** `createUser`. The duplicate check comes first, so a taken email is
      reported even when the default role is missing too. */
  function CreateUser(h: Hasher, s: Store, req: CreateUserRequest): (r: Step<Result<User, AuthError>>)
    ensures req.email in s.users ==>
      r.result == Failure(IllegalArgument(DuplicateEmailMessage(req.email))) && r.store == s
    ensures req.email !in s.users && DefaultRole !in s.roles ==>
      r.result == Failure(Configuration(MissingRoleMessage(DefaultRole))) && r.store == s
    ensures r.result.Success? <==> req.email !in s.users && DefaultRole in s.roles
    ensures r.result.Success? ==>
      var u := r.result.value;
      && u.id == s.nextUserId
      && u.name == req.name && u.email == req.email && u.phoneNumber == req.phoneNumber
      && u.password == h.encode(req.password)
      && u.roles == {s.roles[DefaultRole]}
      && r.store.users == s.users[req.email := u]
      && r.store.roles == s.roles
  {
    match FindByEmail(s, req.email)
    case Some(_) => Step(Failure(IllegalArgument(DuplicateEmailMessage(req.email))), s)
    case None =>
      var encodedPassword := h.encode(req.password);
      var newUser := User(0, req.name, req.email, req.phoneNumber, encodedPassword, {});
      match FindByName(s, DefaultRole)
      case None => Step(Failure(Configuration(MissingRoleMessage(DefaultRole))), s)
      case Some(defaultRole) =>
        var saved := SaveNewUser(s, newUser.(roles := {defaultRole}));
        Step(Success(saved.result), saved.store)
  }

  /** A successful registration adds exactly one row: every existing user is
      kept as it was, the count grows by one, and the new identity is one no
      existing user has. */
  lemma CreateUserAddsExactlyOne(h: Hasher, s: Store, req: CreateUserRequest)
    requires Valid(s)
    requires CreateUser(h, s, req).result.Success?
    ensures var r := CreateUser(h, s, req);
      && |r.store.users| == |s.users| + 1
      && r.store.users.Keys == s.users.Keys + {req.email}
      && (forall e :: e in s.users ==> e in r.store.users && r.store.users[e] == s.users[e])
      && (forall e :: e in s.users ==> s.users[e].id != r.result.value.id)
  {
  }

  /** Registration keeps the store consistent, whatever its outcome. */
  lemma CreateUserPreservesValid(h: Hasher, s: Store, req: CreateUserRequest)
    requires Valid(s)
    ensures Valid(CreateUser(h, s, req).store)
  {
    if req.email !in s.users && DefaultRole in s.roles {
      var newUser := User(0, req.name, req.email, req.phoneNumber, h.encode(req.password), {s.roles[DefaultRole]});
      SaveNewUserPreservesValid(s, newUser);
    }
  }

  /** Round trip: right after a successful registration, logging in with the
      same email and raw password returns exactly the user just created. */
  lemma SignupThenLogin(h: Hasher, s: Store, req: CreateUserRequest)
    requires Sound(h)
    requires CreateUser(h, s, req).result.Success?
    ensures var r := CreateUser(h, s, req);
      ValidateCredentials(h, r.store, req.email, req.password) == Some(r.result.value)
  {
    var r := CreateUser(h, s, req);
    assert h.matches(req.password, h.encode(req.password));
    assert r.store.users[req.email] == r.result.value;
  }

  /** A rejected registration leaves an email that was already taken bound to
      the same user: the earlier account still logs in exactly as before. */
  lemma DuplicateSignupKeepsAccount(h: Hasher, s: Store, req: CreateUserRequest, rawPassword: string)
    requires req.email in s.users
    ensures var r := CreateUser(h, s, req);
      && r.result.Failure? && r.result.error.IllegalArgument?
      && ValidateCredentials(h, r.store, req.email, rawPassword) == ValidateCredentials(h, s, req.email, rawPassword)
  {
  }
}
