/**
 * `UsersService`: the credential store. The table's rows are a sequence; the
 * password hash is the function `hash` the service is built with (its salt and
 * cost are not modelled, so equal passwords hash alike).
 */
module Users {
  import opened Wrappers
  import opened UsersEntity

  /** Username of the seeded account. */
  const AdminUsername: string := "admin"
  /** Password of the seeded account, before hashing. */
  const AdminPassword: string := "admin123"
  /** Message of the error `create` throws for a taken username. */
  const UsernameExistsMessage: string := "Username already exists"

  /** Ids grow along the table. */
  predicate UserIdsIncreasing(users: seq<User>) {
    forall i, j :: 0 <= i < j < |users| ==> users[i].id < users[j].id
  }

  /** The table after seeding: unchanged if "admin" exists, else with the admin account (id `id`) added. */
  function Seeded(users: seq<User>, id: nat, adminHash: string): seq<User> {
    if HasUsername(users, AdminUsername) then users
    else users + [User(id, AdminUsername, adminHash, Admin)]
  }

  /** After seeding an "admin" account exists, whether or not it was added. */
  lemma SeedAdminProvidesAdmin(users: seq<User>, id: nat, adminHash: string)
    ensures HasUsername(Seeded(users, id, adminHash), AdminUsername)
  {
    if !HasUsername(users, AdminUsername) {
      var t := users + [User(id, AdminUsername, adminHash, Admin)];
      assert t[|users|].username == AdminUsername;
    }
  }

  /**
   * Seeding twice leaves the table as seeding once, whatever id and whatever
   * hash (a salted hash differs on every call) the second run would use.
   */
  lemma SeedAdminIdempotent(users: seq<User>, id: nat, id2: nat, adminHash: string, adminHash2: string)
    ensures Seeded(Seeded(users, id, adminHash), id2, adminHash2) == Seeded(users, id, adminHash)
  {
    SeedAdminProvidesAdmin(users, id, adminHash);
  }

  /** Seeding keeps usernames unique. */
  lemma SeedAdminKeepsUnique(users: seq<User>, id: nat, adminHash: string)
    requires UniqueUsernames(users)
    ensures UniqueUsernames(Seeded(users, id, adminHash))
  {
    if !HasUsername(users, AdminUsername) {
      AddKeepsUnique(users, User(id, AdminUsername, adminHash, Admin));
    }
  }

  class UsersService {
    /** The rows of the user table, in insertion order. */
    var users: seq<User>
    /** The next value of the table's id sequence. */
    var nextId: nat
    /** The one-way password hash. */
    const hash: string -> string

    /** Usernames are unique; ids are increasing and below the sequence's next value. */
    ghost predicate Valid()
      reads this
    {
      && UniqueUsernames(users)
      && UserIdsIncreasing(users)
      && (forall i :: 0 <= i < |users| ==> users[i].id < nextId)
    }

    /** A service over a table that already holds `rows`. */
    constructor (rows: seq<User>, hash: string -> string)
      requires UniqueUsernames(rows) && UserIdsIncreasing(rows)
      ensures Valid()
      ensures users == rows && this.hash == hash
    {
      users := rows;
      nextId := if rows == [] then 1 else rows[|rows| - 1].id + 1;
      this.hash := hash;
    }

    /**
     * `seedAdmin`, run at start-up: adds the account "admin" with role admin and
     * the hashed default password, unless a user of that name already exists.
     */
    method SeedAdmin()
      requires Valid()
      modifies this
      ensures Valid()
      ensures users == Seeded(old(users), old(nextId), hash(AdminPassword))
      ensures nextId == if HasUsername(old(users), AdminUsername) then old(nextId) else old(nextId) + 1
      ensures FindByUsername(AdminUsername).Some?
    {
      var existing := FindByUsername(AdminUsername);
      if existing.None? {
        var admin := User(nextId, AdminUsername, hash(AdminPassword), Admin);
        AddKeepsUnique(users, admin);
        users := users + [admin];
        nextId := nextId + 1;
      }
      SeedAdminProvidesAdmin(old(users), old(nextId), hash(AdminPassword));
    }

    /** `findByUsername`: the user with that username, or none when no user has it. */
    function FindByUsername(username: string): (r: Option<User>)
      reads this
      ensures r.Some? <==> HasUsername(users, username)
      ensures r.Some? ==> r.value in users && r.value.username == username
    {
      FirstNamed(users, username)
    }

    /** `findAll`: one password-free view per stored user, in the same order, with the same id, username and role. */
    function FindAll(): (r: seq<UserView>)
      reads this
      ensures |r| == |users|
      ensures forall i :: 0 <= i < |r| ==>
                r[i].id == users[i].id && r[i].username == users[i].username && r[i].role == users[i].role
    {
      seq(|users|, i requires 0 <= i < |users| reads this => ViewOf(users[i]))
    }

    /**
     * `create`: refuses a taken username with "Username already exists" and
     * changes nothing; otherwise stores the user with the hashed password and
     * the given role (the column default when none is given) and returns its
     * password-free view.
     */
    method Create(username: string, password: string, role: Option<Role>) returns (r: Result<UserView, string>)
      requires Valid()
      modifies this
      ensures Valid()
      ensures HasUsername(old(users), username) ==>
                r == Err(UsernameExistsMessage) && users == old(users) && nextId == old(nextId)
      ensures !HasUsername(old(users), username) ==>
                && users == old(users) + [User(old(nextId), username, hash(password), role.GetOr(DefaultRole))]
                && nextId == old(nextId) + 1
                && r == Ok(UserView(old(nextId), username, role.GetOr(DefaultRole)))
      ensures HasUsername(users, username)
    {
      var existing := FindByUsername(username);
      if existing.Some? {
        return Err(UsernameExistsMessage);
      }
      var saved := User(nextId, username, hash(password), role.GetOr(DefaultRole));
      AddKeepsUnique(users, saved);
      users := users + [saved];
      nextId := nextId + 1;
      r := Ok(ViewOf(saved));
    }
  }

  /** The first user in `users` with the given username. */
  function FirstNamed(users: seq<User>, username: string): (r: Option<User>)
    ensures r.Some? <==> HasUsername(users, username)
    ensures r.Some? ==> r.value in users && r.value.username == username
  {
    if users == [] then None
    else if users[0].username == username then Some(users[0])
    else
      var r := FirstNamed(users[1..], username);
      assert HasUsername(users, username) <==> HasUsername(users[1..], username) by {
        if HasUsername(users, username) {
          var i :| 0 <= i < |users| && users[i].username == username;
          assert users[1..][i - 1] == users[i];
        }
        if HasUsername(users[1..], username) {
          var i :| 0 <= i < |users| - 1 && users[1..][i].username == username;
          assert users[i + 1] == users[1..][i];
        }
      }
      r
  }
}
