/**
 * The user store: accounts with salted password hashes, three roles with
 * numeric levels, soft deletion that never removes the last active
 * administrator, and an initial administrator whenever none is stored.
 */
module Auth {
  import opened Common

  // ---------------------------------------------------------------------
  // Roles
  // ---------------------------------------------------------------------

  /** `ROLES[role]["level"]`, with 0 for a role that is not defined. */
  function RoleLevel(role: string): (n: nat)
    ensures role != "admin" && role != "manager" && role != "user" ==> n == 0
    ensures n <= 100
  {
    if role == "admin" then 100 else if role == "manager" then 50 else if role == "user" then 10 else 0
  }

  predicate IsRole(role: string) {
    role == "admin" || role == "manager" || role == "user"
  }

  /** `has_permission`. */
  predicate HasPermission(role: string, requiredLevel: int) {
    RoleLevel(role) >= requiredLevel
  }

  /** Roles are ordered admin above manager above user above any unknown role, and permission follows the order. */
  lemma PermissionOrder(role: string, requiredLevel: int)
    ensures HasPermission(role, requiredLevel) ==> HasPermission("admin", requiredLevel)
    ensures HasPermission("user", requiredLevel) ==> HasPermission("manager", requiredLevel)
    ensures HasPermission("manager", requiredLevel) ==> HasPermission("admin", requiredLevel)
    ensures !IsRole(role) ==> (HasPermission(role, requiredLevel) <==> requiredLevel <= 0)
  {
  }

  // ---------------------------------------------------------------------
  // Users
  // ---------------------------------------------------------------------

  /** A stored account; the optional fields are those the store adds later. */
  datatype User = User(
    id: string,
    username: string,
    passwordHash: string,
    passwordSalt: string,
    role: string,
    name: string,
    createdAt: string,
    createdBy: string,
    isActive: bool,
    lastLogin: Option<string>,
    updatedAt: Option<string>,
    updatedBy: Option<string>,
    passwordChangedAt: Option<string>,
    deletedAt: Option<string>,
    deletedBy: Option<string>)

  /** What `authenticate` and `create_user` return: no hash and no salt. */
  datatype Session = Session(id: string, username: string, role: string, name: string, lastLogin: Option<string>)

  /** What `get_user` returns. */
  datatype Profile = Profile(id: string, username: string, role: string, name: string, createdAt: string, isActive: bool)

  /** `_hash_password` with a given salt: the digest of password and salt, `hash` standing for SHA-256 in hex. */
  function HashPassword(password: string, salt: string, hash: string -> string): string {
    hash(password + salt)
  }

  /** `_verify_password`. */
  predicate VerifyPassword(password: string, hashed: string, salt: string, hash: string -> string) {
    HashPassword(password, salt, hash) == hashed
  }

  /** A password always verifies against its own salted hash. */
  lemma VerifyHashed(password: string, salt: string, hash: string -> string)
    ensures VerifyPassword(password, HashPassword(password, salt, hash), salt, hash)
  {
  }

  function ProfileOf(u: User): Profile {
    Profile(u.id, u.username, u.role, u.name, u.createdAt, u.isActive)
  }

  /** `f"{n:03d}"` for a natural number. */
  function ZeroPad3(n: nat): (s: string)
    ensures |s| >= 3 && AllDigits(s)
  {
    var t := NatToString(n);
    if |t| >= 3 then t else if |t| == 2 then "0" + t else "00" + t
  }

  /** The index of the first user with id `id`, as the loops over `users` find it. */
  function IndexOfId(users: seq<User>, id: string): (r: Option<nat>)
    ensures r.Some? ==> r.value < |users| && users[r.value].id == id && forall j :: 0 <= j < r.value ==> users[j].id != id
    ensures r.None? <==> forall j :: 0 <= j < |users| ==> users[j].id != id
  {
    if |users| == 0 then None
    else if users[0].id == id then Some(0)
    else match IndexOfId(users[1..], id)
      case None => None
      case Some(k) => assert users[k + 1] == users[1..][k]; Some(k + 1)
  }

  /** Replacing the first account with an id by one with the same id keeps it the first. */
  lemma IndexOfIdReplace(users: seq<User>, i: nat, u: User, id: string)
    requires IndexOfId(users, id) == Some(i) && u.id == id
    ensures IndexOfId(users[i := u], id) == Some(i)
  {
    var after := users[i := u];
    assert after[i].id == id;
    assert forall j :: 0 <= j < i ==> after[j] == users[j];
  }

  /** `authenticate` accepts `u`: the username matches, the account is active and the password verifies. */
  predicate Accepts(u: User, username: string, password: string, hash: string -> string) {
    u.username == username && u.isActive && VerifyPassword(password, u.passwordHash, u.passwordSalt, hash)
  }

  /** The first account `authenticate` accepts. */
  function LoginIndex(users: seq<User>, username: string, password: string, hash: string -> string): (r: Option<nat>)
    ensures r.Some? ==> (r.value < |users| && Accepts(users[r.value], username, password, hash)
      && forall j :: 0 <= j < r.value ==> !Accepts(users[j], username, password, hash))
    ensures r.None? <==> forall j :: 0 <= j < |users| ==> !Accepts(users[j], username, password, hash)
  {
    if |users| == 0 then None
    else if Accepts(users[0], username, password, hash) then Some(0)
    else match LoginIndex(users[1..], username, password, hash)
      case None => None
      case Some(k) => assert users[k + 1] == users[1..][k]; Some(k + 1)
  }

  function Usernames(users: seq<User>): (r: seq<string>)
    ensures |r| == |users| && forall i :: 0 <= i < |users| ==> r[i] == users[i].username
  {
    seq(|users|, i requires 0 <= i < |users| => users[i].username)
  }

  /** `_has_admin`: some stored account, active or not, has the admin role. */
  predicate HasAdmin(users: seq<User>) {
    exists i :: 0 <= i < |users| && users[i].role == "admin"
  }

  /** The number of active administrators, as `delete_user` counts them. */
  function ActiveAdmins(users: seq<User>): (n: nat)
    ensures n <= |users|
  {
    if |users| == 0 then 0
    else (if users[0].role == "admin" && users[0].isActive then 1 else 0) + ActiveAdmins(users[1..])
  }

  /** Changing one account changes the count of active administrators by that account alone. */
  lemma {:induction false} ActiveAdminsUpdate(users: seq<User>, i: nat, u: User)
    requires i < |users|
    ensures ActiveAdmins(users[i := u]) + (if users[i].role == "admin" && users[i].isActive then 1 else 0)
      == ActiveAdmins(users) + (if u.role == "admin" && u.isActive then 1 else 0)
  {
    if i > 0 {
      assert users[i := u][1..] == users[1..][i - 1 := u];
      ActiveAdminsUpdate(users[1..], i - 1, u);
    }
  }

  /** The changes `update_user` accepts: only name, role and the active flag. */
  datatype Changes = Changes(name: Option<string>, role: Option<string>, isActive: Option<bool>)

  function Updated(u: User, c: Changes, updatedBy: string, now: string): (r: User)
    ensures r.id == u.id && r.username == u.username && r.createdAt == u.createdAt
    ensures r.passwordHash == u.passwordHash && r.passwordSalt == u.passwordSalt
  {
    u.(name := if c.name.Some? then c.name.value else u.name,
       role := if c.role.Some? then c.role.value else u.role,
       isActive := if c.isActive.Some? then c.isActive.value else u.isActive,
       updatedAt := Some(now),
       updatedBy := Some(updatedBy))
  }

  // ---------------------------------------------------------------------
  // The manager
  // ---------------------------------------------------------------------

  /** `AuthManager.users["users"]`. */
  class AuthManager {
    var users: seq<User>

    /**
     * `__init__`: the stored accounts, and the initial administrator
     * `admin_001` appended when none of them is an administrator.
     */
    constructor (stored: seq<User>, adminUsername: string, adminPassword: string, salt: string, now: string, hash: string -> string)
      ensures HasAdmin(users)
      ensures HasAdmin(stored) ==> users == stored
      ensures !HasAdmin(stored) ==> users == stored + [User("admin_001", adminUsername, HashPassword(adminPassword, salt, hash), salt,
        "admin", "시스템 관리자", now, "system", true, None, None, None, None, None, None)]
    {
      var found := false;
      var i := 0;
      while i < |stored| && !found
        invariant 0 <= i <= |stored|
        invariant found <==> HasAdmin(stored[..i])
      {
        if stored[i].role == "admin" {
          found := true;
          assert stored[..i + 1][i] == stored[i];
        } else {
          assert forall j :: 0 <= j < i + 1 ==> stored[..i + 1][j] == stored[j];
        }
        i := i + 1;
      }
      assert found ==> HasAdmin(stored) by {
        if found {
          var k :| 0 <= k < i && stored[..i][k].role == "admin";
          assert stored[k] == stored[..i][k];
        }
      }
      assert !found ==> stored[..i] == stored;
      if found {
        users := stored;
      } else {
        var admin := User("admin_001", adminUsername, HashPassword(adminPassword, salt, hash), salt,
          "admin", "시스템 관리자", now, "system", true, None, None, None, None, None, None);
        assert (stored + [admin])[|stored|].role == "admin";
        users := stored + [admin];
      }
    }

    /**
     * `authenticate`: the first active account with that username whose
     * password verifies gets its login time, and its public fields are
     * returned; with no such account nothing changes.
     */
    method Authenticate(username: string, password: string, now: string, hash: string -> string) returns (r: Option<Session>)
      modifies this
      ensures match LoginIndex(old(users), username, password, hash)
        case None => r.None? && users == old(users)
        case Some(i) =>
          users == old(users)[i := old(users)[i].(lastLogin := Some(now))]
          && r == Some(Session(users[i].id, username, users[i].role, users[i].name, Some(now)))
    {
      for i := 0 to |users|
        invariant forall j :: 0 <= j < i ==> !Accepts(users[j], username, password, hash)
      {
        if users[i].username == username && users[i].isActive {
          if VerifyPassword(password, users[i].passwordHash, users[i].passwordSalt, hash) {
            assert LoginIndex(users, username, password, hash) == Some(i);
            var u := users[i].(lastLogin := Some(now));
            users := users[i := u];
            return Some(Session(u.id, u.username, u.role, u.name, u.lastLogin));
          }
        }
      }
      return None;
    }

    /** `get_user`: the profile of the first account with that id. */
    function GetUser(id: string): (r: Option<Profile>)
      reads this
      ensures r.Some? <==> exists j :: 0 <= j < |users| && users[j].id == id
      ensures r.Some? ==> r.value.id == id
    {
      match IndexOfId(users, id)
      case None => None
      case Some(i) => Some(ProfileOf(users[i]))
    }

    /** The loop of `update_user`, `change_password` and `delete_user` looking for the account. */
    method FindUser(id: string) returns (r: Option<nat>)
      ensures r == IndexOfId(users, id)
    {
      for i := 0 to |users|
        invariant forall j :: 0 <= j < i ==> users[j].id != id
      {
        if users[i].id == id {
          return Some(i);
        }
      }
      return None;
    }

    /**
     * `create_user`: refused for a username already taken (active or not)
     * and for a role that is not defined; otherwise one active account is
     * appended with id `user_NNN` numbered after the accounts stored.
     */
    method CreateUser(username: string, password: string, role: string, name: string, createdBy: string, salt: string, now: string, hash: string -> string)
      returns (r: Option<Session>)
      modifies this
      ensures username in Usernames(old(users)) || !IsRole(role) ==> r.None? && users == old(users)
      ensures username !in Usernames(old(users)) && IsRole(role) ==>
        var id := "user_" + ZeroPad3(|old(users)| + 1);
        users == old(users) + [User(id, username, HashPassword(password, salt, hash), salt, role, name, now, createdBy, true,
          None, None, None, None, None, None)]
        && r == Some(Session(id, username, role, name, None))
    {
      for i := 0 to |users|
        invariant forall j :: 0 <= j < i ==> users[j].username != username
      {
        if users[i].username == username {
          assert Usernames(users)[i] == username;
          return None;
        }
      }
      if !IsRole(role) {
        return None;
      }
      var id := "user_" + ZeroPad3(|users| + 1);
      users := users + [User(id, username, HashPassword(password, salt, hash), salt, role, name, now, createdBy, true,
        None, None, None, None, None, None)];
      r := Some(Session(id, username, role, name, None));
    }

    /**
     * `update_user`: only name, role and the active flag of the account
     * change, with who updated it and when; an unknown id changes nothing.
     */
    method UpdateUser(id: string, changes: Changes, updatedBy: string, now: string) returns (r: Option<Profile>)
      modifies this
      ensures match IndexOfId(old(users), id)
        case None => r.None? && users == old(users)
        case Some(i) =>
          users == old(users)[i := Updated(old(users)[i], changes, updatedBy, now)]
          && r == Some(ProfileOf(users[i]))
    {
      var k := FindUser(id);
      match k
      case None =>
        return None;
      case Some(i) =>
        users := users[i := Updated(users[i], changes, updatedBy, now)];
        IndexOfIdReplace(old(users), i, users[i], id);
        r := GetUser(id);
    }

    /** `change_password`: the account's hash and salt are replaced and verify the new password. */
    method ChangePassword(id: string, newPassword: string, salt: string, now: string, hash: string -> string) returns (ok: bool)
      modifies this
      ensures ok <==> IndexOfId(old(users), id).Some?
      ensures match IndexOfId(old(users), id)
        case None => users == old(users)
        case Some(i) =>
          users == old(users)[i := old(users)[i].(passwordHash := HashPassword(newPassword, salt, hash), passwordSalt := salt, passwordChangedAt := Some(now))]
          && VerifyPassword(newPassword, users[i].passwordHash, users[i].passwordSalt, hash)
    {
      var k := FindUser(id);
      match k
      case None =>
        return false;
      case Some(i) =>
        users := users[i := users[i].(passwordHash := HashPassword(newPassword, salt, hash), passwordSalt := salt, passwordChangedAt := Some(now))];
        return true;
    }

    /**
     * `delete_user`: a soft delete that only clears the active flag and
     * records who deleted the account and when; it is refused for an
     * administrator while at most one administrator is active, so an
     * active administrator is never the last one to go.
     */
    method DeleteUser(id: string, deletedBy: string, now: string) returns (ok: bool)
      modifies this
      ensures |users| == |old(users)|
      ensures match IndexOfId(old(users), id)
        case None => !ok && users == old(users)
        case Some(i) =>
          if old(users)[i].role == "admin" && ActiveAdmins(old(users)) <= 1 then !ok && users == old(users)
          else ok && users == old(users)[i := old(users)[i].(isActive := false, deletedAt := Some(now), deletedBy := Some(deletedBy))]
      ensures ActiveAdmins(old(users)) >= 1 ==> ActiveAdmins(users) >= 1
    {
      var k := FindUser(id);
      match k
      case None =>
        return false;
      case Some(i) =>
        if users[i].role == "admin" {
          var count := CountActiveAdmins();
          if count <= 1 {
            return false;
          }
        }
        var u := users[i].(isActive := false, deletedAt := Some(now), deletedBy := Some(deletedBy));
        ActiveAdminsUpdate(users, i, u);
        users := users[i := u];
        return true;
    }

    /** `sum(1 for u in users if u.get("role") == "admin" and u.get("is_active", True))`. */
    method CountActiveAdmins() returns (n: nat)
      ensures n == ActiveAdmins(users)
    {
      n := 0;
      var i := |users|;
      while i > 0
        invariant 0 <= i <= |users|
        invariant n == ActiveAdmins(users[i..])
      {
        i := i - 1;
        assert users[i..][1..] == users[i + 1..];
        if users[i].role == "admin" && users[i].isActive {
          n := n + 1;
        }
      }
      assert users[0..] == users;
    }
  }

  /**
   * An account just created with a fresh username is the one its own
   * password logs in to.
   */
  lemma CreatedCanLogIn(users: seq<User>, u: User, password: string, hash: string -> string)
    requires u.username !in Usernames(users) && u.isActive && u.passwordHash == HashPassword(password, u.passwordSalt, hash)
    ensures LoginIndex(users + [u], u.username, password, hash) == Some(|users|)
  {
    var all := users + [u];
    forall j | 0 <= j < |users|
      ensures !Accepts(all[j], u.username, password, hash)
    {
      assert Usernames(users)[j] == users[j].username;
    }
    assert Accepts(all[|users|], u.username, password, hash);
  }

  /** A deactivated account no longer logs in. */
  lemma InactiveCannotLogIn(users: seq<User>, i: nat, username: string, password: string, hash: string -> string)
    requires i < |users| && !users[i].isActive
    ensures LoginIndex(users, username, password, hash) != Some(i)
  {
  }
}
