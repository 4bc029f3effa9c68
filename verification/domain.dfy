/** The persistent entities of the service and the password hasher it
    delegates to. */
module Domain {

  /** `Role.RoleName`. The enumeration itself is not part of this model; these
      are the four names the service and the start-up seeding refer to. */
  datatype RoleName = ADMIN | MANAGER | EMPLOYEE | USER

  /** `Enum.name()`: the wire spelling of a role name. */
  function NameOf(n: RoleName): string
  {
    match n
    case ADMIN => "ADMIN"
    case MANAGER => "MANAGER"
    case EMPLOYEE => "EMPLOYEE"
    case USER => "USER"
  }

  /** A row of the role table. */
  datatype Role = Role(id: nat, name: RoleName)

  /** The names of a set of role rows. */
  function Names(roles: set<Role>): set<RoleName>
  {
    set r | r in roles :: r.name
  }

  /** A row of the user table; `password` holds the digest, never the raw
      password. */
  datatype User = User(
    id: nat,
    name: string,
    email: string,
    phoneNumber: string,
    password: string,
    roles: set<Role>)

  /** The password encoder, a black box: `encode` maps a raw password to a
      digest, `matches` checks a raw password against a digest. */
  datatype Hasher = Hasher(encode: string -> string, matches: (string, string) -> bool)

  /** The one property relied upon: a password matches its own digest.
      Nothing is assumed about other pairs (neither injectivity of `encode`
      nor that a different password fails). */
  ghost predicate Sound(h: Hasher)
  {
    forall raw: string :: h.matches(raw, h.encode(raw))
  }
}
