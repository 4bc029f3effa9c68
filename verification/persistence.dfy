/** The user and role repositories, as maps keyed by the lookup column, with
    one identity counter per table. */
module Persistence {
  import opened Wrappers
  import opened Domain

  /** Both tables. `users` is keyed by email (`findByEmail`), `roles` by role
      name (`findByName`); the counters are the next identity each table
      hands out on insert. */
  datatype Store = Store(
    users: map<string, User>,
    roles: map<RoleName, Role>,
    nextUserId: nat,
    nextRoleId: nat)

  /** The result of an operation together with the store it leaves behind. */
  datatype Step<+T> = Step(result: T, store: Store)

  /** An empty database; identities start at 1. */
  const EmptyStore := Store(map[], map[], 1, 1)

  /** Consistency of the tables: every row sits under its own key, identities
      are below the counter and pairwise distinct, and every role a user holds
      is the row the role table has under that name. */
  ghost predicate Valid(s: Store)
  {
    && (forall e :: e in s.users ==> s.users[e].email == e && s.users[e].id < s.nextUserId)
    && (forall e1, e2 :: e1 in s.users && e2 in s.users && e1 != e2 ==> s.users[e1].id != s.users[e2].id)
    && (forall n :: n in s.roles ==> s.roles[n].name == n && s.roles[n].id < s.nextRoleId)
    && (forall n1, n2 :: n1 in s.roles && n2 in s.roles && n1 != n2 ==> s.roles[n1].id != s.roles[n2].id)
    && (forall e, r :: e in s.users && r in s.users[e].roles ==> r.name in s.roles && s.roles[r.name] == r)
  }

  /** An empty database is consistent. */
  lemma EmptyStoreValid()
    ensures Valid(EmptyStore)
  {
  }

  /** `UserRepository.findByEmail`. */
  function FindByEmail(s: Store, email: string): (r: Option<User>)
    ensures r.Some? <==> email in s.users
    ensures r.Some? ==> r.value == s.users[email]
  {
    if email in s.users then Some(s.users[email]) else None
  }

  /** `RoleRepository.findByName`. */
  function FindByName(s: Store, n: RoleName): (r: Option<Role>)
    ensures r.Some? <==> n in s.roles
    ensures r.Some? ==> r.value == s.roles[n]
  {
    if n in s.roles then Some(s.roles[n]) else None
  }

  /** `save` of a new user (no identity yet): the row is inserted under a fresh
      identity, which the returned entity carries. Callers have checked that
      the email is free. */
  function SaveNewUser(s: Store, u: User): (r: Step<User>)
    requires u.email !in s.users
    ensures r.result == u.(id := s.nextUserId)
    ensures r.store.users == s.users[u.email := r.result]
    ensures r.store.roles == s.roles && r.store.nextRoleId == s.nextRoleId
    ensures r.store.nextUserId == s.nextUserId + 1
  {
    var saved := u.(id := s.nextUserId);
    Step(saved, s.(users := s.users[u.email := saved], nextUserId := s.nextUserId + 1))
  }

  /** `save` of a new role: inserted under a fresh identity. */
  function SaveNewRole(s: Store, n: RoleName): (r: Step<Role>)
    requires n !in s.roles
    ensures r.result == Role(s.nextRoleId, n)
    ensures r.store.roles == s.roles[n := r.result]
    ensures r.store.users == s.users && r.store.nextUserId == s.nextUserId
    ensures r.store.nextRoleId == s.nextRoleId + 1
  {
    var saved := Role(s.nextRoleId, n);
    Step(saved, s.(roles := s.roles[n := saved], nextRoleId := s.nextRoleId + 1))
  }

  /** Inserting a user whose roles are rows of the role table keeps the store
      consistent, and the new identity differs from every existing one. */
  lemma SaveNewUserPreservesValid(s: Store, u: User)
    requires Valid(s)
    requires u.email !in s.users
    requires forall r :: r in u.roles ==> r.name in s.roles && s.roles[r.name] == r
    ensures Valid(SaveNewUser(s, u).store)
    ensures forall e :: e in s.users ==> s.users[e].id != SaveNewUser(s, u).result.id
  {
    var t := SaveNewUser(s, u).store;
    forall e1, e2 | e1 in t.users && e2 in t.users && e1 != e2
      ensures t.users[e1].id != t.users[e2].id
    {
      if e1 != u.email && e2 != u.email {
        assert t.users[e1] == s.users[e1] && t.users[e2] == s.users[e2];
      }
    }
  }

  /** Inserting a role under a name not yet present keeps the store
      consistent. */
  lemma SaveNewRolePreservesValid(s: Store, n: RoleName)
    requires Valid(s)
    requires n !in s.roles
    ensures Valid(SaveNewRole(s, n).store)
  {
  }
}
