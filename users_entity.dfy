/**
 * The `User` row of the credential table and the roles it can hold.
 */
module UsersEntity {

  /** The two roles. */
  datatype Role = Admin | Viewer

  /** The role a user row gets when none is given: the column default. */
  const DefaultRole: Role := Viewer

  /** The label stored for a role and carried in the token. */
  function RoleName(r: Role): string {
    match r
    case Admin => "admin"
    case Viewer => "viewer"
  }

  /** Role labels are non-empty and tell the roles apart; only `Admin` is labelled "admin". */
  lemma RoleNames(a: Role, b: Role)
    ensures RoleName(a) != ""
    ensures RoleName(a) == RoleName(b) <==> a == b
    ensures RoleName(a) == "admin" <==> a == Admin
  {
  }

  /** A stored user; `password` holds the hash, never the plaintext. */
  datatype User = User(id: nat, username: string, password: string, role: Role)

  /** What the service hands out for a user: every column except `password`. */
  datatype UserView = UserView(id: nat, username: string, role: Role)

  /** The outward view of a stored user. */
  function ViewOf(u: User): UserView {
    UserView(u.id, u.username, u.role)
  }

  /** The unique constraint on `username`. */
  predicate UniqueUsernames(users: seq<User>) {
    forall i, j :: 0 <= i < j < |users| ==> users[i].username != users[j].username
  }

  /** Some stored user has this username. */
  predicate HasUsername(users: seq<User>, name: string) {
    exists i :: 0 <= i < |users| && users[i].username == name
  }

  /** Adding a user whose username is not taken keeps usernames unique, and the name is then taken. */
  lemma AddKeepsUnique(users: seq<User>, u: User)
    requires UniqueUsernames(users) && !HasUsername(users, u.username)
    ensures UniqueUsernames(users + [u])
    ensures HasUsername(users + [u], u.username)
  {
    var t := users + [u];
    assert t[|users|].username == u.username;
  }
}
