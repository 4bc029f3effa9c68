/** Start-up seeding: the baseline roles and the default administrator,
    each created only when absent. */
module DataLoader {
  import opened Domain
  import opened Persistence

  const AdminEmail := "admin@connectrh.com"
  const AdminName := "System Administrator"
  const AdminPhone := "11954444380"
  const AdminPassword := "admin123"

  /** The roles seeding guarantees. `USER` is not among them. */
  const SeededRoles: set<RoleName> := {ADMIN, MANAGER, EMPLOYEE}

  /** `createRoleIfNotFound`: the existing row when the name is present (and
      nothing saved), otherwise one new row under that name. */
  function CreateRoleIfNotFound(s: Store, n: RoleName): (r: Step<Role>)
    ensures n in r.store.roles && r.store.roles[n] == r.result
    ensures n in s.roles ==> r.result == s.roles[n] && r.store == s
    ensures n !in s.roles ==>
      && r.result == Role(s.nextRoleId, n)
      && r.store == s.(roles := s.roles[n := r.result], nextRoleId := s.nextRoleId + 1)
  {
    match FindByName(s, n)
    case Some(role) => Step(role, s)
    case None => SaveNewRole(s, n)
  }

  /** The administrator `run` creates, before it is saved. */
  function AdminUser(h: Hasher, adminRole: Role, managerRole: Role): User
  {
    User(0, AdminName, AdminEmail, AdminPhone, h.encode(AdminPassword), {adminRole, managerRole})
  }

  /** The three `createRoleIfNotFound` calls at the head of `run`, returning
      the ADMIN and MANAGER rows they yield. */
  function EnsureBaselineRoles(s: Store): (r: Step<(Role, Role)>)
    ensures r.store.roles.Keys == s.roles.Keys + SeededRoles
    ensures forall n :: n in s.roles ==> r.store.roles[n] == s.roles[n]
    ensures r.store.users == s.users && r.store.nextUserId == s.nextUserId
    ensures r.result == (r.store.roles[ADMIN], r.store.roles[MANAGER])
  {
    var Step(adminRole, s1) := CreateRoleIfNotFound(s, ADMIN);
    var Step(managerRole, s2) := CreateRoleIfNotFound(s1, MANAGER);
    var Step(_, s3) := CreateRoleIfNotFound(s2, EMPLOYEE);
    Step((adminRole, managerRole), s3)
  }

  /** `run`: ensure ADMIN, MANAGER and EMPLOYEE exist, then create the
      administrator if no user has its email. */
  function Run(h: Hasher, s: Store): (r: Store)
    ensures r.roles.Keys == s.roles.Keys + SeededRoles
    ensures forall n :: n in s.roles ==> r.roles[n] == s.roles[n]
    ensures USER in r.roles <==> USER in s.roles
    ensures AdminEmail in s.users ==> r.users == s.users
    ensures AdminEmail !in s.users ==>
      && AdminEmail in r.users
      && r.users == s.users[AdminEmail := r.users[AdminEmail]]
      && r.users[AdminEmail].name == AdminName
      && r.users[AdminEmail].phoneNumber == AdminPhone
      && r.users[AdminEmail].password == h.encode(AdminPassword)
      && r.users[AdminEmail].roles == {r.roles[ADMIN], r.roles[MANAGER]}
  {
    var Step((adminRole, managerRole), s3) := EnsureBaselineRoles(s);
    if FindByEmail(s3, AdminEmail).None? then
      SaveNewUser(s3, AdminUser(h, adminRole, managerRole)).store
    else
      s3
  }

  /** Looking a role up twice saves at most once. */
  lemma CreateRoleIfNotFoundIdempotent(s: Store, n: RoleName)
    ensures var r := CreateRoleIfNotFound(s, n);
      CreateRoleIfNotFound(r.store, n) == r
  {
  }

  /** Seeding twice leaves the same store as seeding once: no second role row
      for a name, no second administrator, no re-hashed password. */
  lemma RunIdempotent(h: Hasher, s: Store)
    ensures Run(h, Run(h, s)) == Run(h, s)
  {
  }

  /** Looking a role up keeps the store consistent. */
  lemma CreateRoleIfNotFoundPreservesValid(s: Store, n: RoleName)
    requires Valid(s)
    ensures Valid(CreateRoleIfNotFound(s, n).store)
  {
    if n !in s.roles {
      SaveNewRolePreservesValid(s, n);
    }
  }

  /** Creating the baseline roles keeps the store consistent. */
  lemma EnsureBaselineRolesPreservesValid(s: Store)
    requires Valid(s)
    ensures Valid(EnsureBaselineRoles(s).store)
  {
    var s1 := CreateRoleIfNotFound(s, ADMIN).store;
    CreateRoleIfNotFoundPreservesValid(s, ADMIN);
    var s2 := CreateRoleIfNotFound(s1, MANAGER).store;
    CreateRoleIfNotFoundPreservesValid(s1, MANAGER);
    CreateRoleIfNotFoundPreservesValid(s2, EMPLOYEE);
  }

  /** Saving the administrator with the stored ADMIN and MANAGER rows keeps
      the store consistent. */
  lemma SaveAdminPreservesValid(h: Hasher, s: Store)
    requires Valid(s)
    requires ADMIN in s.roles && MANAGER in s.roles && AdminEmail !in s.users
    ensures Valid(SaveNewUser(s, AdminUser(h, s.roles[ADMIN], s.roles[MANAGER])).store)
  {
    SaveNewUserPreservesValid(s, AdminUser(h, s.roles[ADMIN], s.roles[MANAGER]));
  }

  /** Seeding keeps the store consistent. */
  lemma RunPreservesValid(h: Hasher, s: Store)
    requires Valid(s)
    ensures Valid(Run(h, s))
  {
    var s3 := EnsureBaselineRoles(s).store;
    EnsureBaselineRolesPreservesValid(s);
    if AdminEmail !in s3.users {
      SaveAdminPreservesValid(h, s3);
    }
  }

  /** Two rows named ADMIN and MANAGER are distinct, and their names are
      exactly those two. */
  lemma AdminManagerPair(a: Role, m: Role)
    requires a.name == ADMIN && m.name == MANAGER
    ensures |{a, m}| == 2
    ensures Names({a, m}) == {ADMIN, MANAGER}
  {
    assert a != m;
    assert ADMIN == a.name && MANAGER == m.name;
  }

  /** A consistent store gets an administrator whose two roles are distinct
      rows named ADMIN and MANAGER; building `Set.of(adminRole, managerRole)`
      therefore never meets a duplicate element. */
  lemma SeededAdminRoles(h: Hasher, s: Store)
    requires Valid(s)
    requires AdminEmail !in s.users
    ensures var admin := Run(h, s).users[AdminEmail];
      && |admin.roles| == 2
      && Names(admin.roles) == {ADMIN, MANAGER}
  {
    var s3 := EnsureBaselineRoles(s).store;
    EnsureBaselineRolesPreservesValid(s);
    var a, m := s3.roles[ADMIN], s3.roles[MANAGER];
    AdminManagerPair(a, m);
    assert Run(h, s).users[AdminEmail].roles == {a, m};
  }
}
