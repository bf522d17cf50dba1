/**
 * The account, role and problem store (class DB). Its SQLite tables are
 * in-memory maps and sets: `users` keyed by the UNIQUE username, `roles` keyed
 * by the UNIQUE role name, `user_roles` as a set of (user id, role id) pairs
 * (the composite primary key), `problems` keyed by the UNIQUE problem text.
 * AUTOINCREMENT ids start at 1 and are never reused. Password hashing (SHA-256
 * in hex) is an uninterpreted function; the clock is a parameter.
 */
module Db {
  import opened Wrappers
  import opened Text
  import opened MathParser

  datatype UserRow = UserRow(id: nat, password: string, lastLogin: Option<nat>)
  datatype ProblemRow = ProblemRow(id: nat, answer: string)

  /** A snapshot of every table and of the next id each AUTOINCREMENT column hands out. */
  datatype Tables = Tables(
    users: map<string, UserRow>, nextUserId: nat,
    roles: map<string, nat>, nextRoleId: nat,
    userRoles: set<(nat, nat)>,
    problems: map<string, ProblemRow>, nextProblemId: nat)

  /** Freshly created tables, before openDatabase seeds them. */
  const EmptyTables: Tables := Tables(map[], 1, map[], 1, {}, map[], 1)

  /**
   * What the schema and the operations keep true: ids below the next id and
   * distinct, only the two seeded roles, and every user_roles row naming an
   * existing role and an id already handed out (its user may since have been
   * deleted: SQLite does not enforce the foreign keys by default).
   */
  predicate Valid(t: Tables)
  {
    && 1 <= t.nextUserId && 1 <= t.nextRoleId && 1 <= t.nextProblemId
    && (forall n :: n in t.users ==> 1 <= t.users[n].id < t.nextUserId)
    && (forall a, b :: a in t.users && b in t.users && a != b ==> t.users[a].id != t.users[b].id)
    && (forall r :: r in t.roles ==> 1 <= t.roles[r] < t.nextRoleId)
    && (forall a, b :: a in t.roles && b in t.roles && a != b ==> t.roles[a] != t.roles[b])
    && t.roles.Keys <= {"admin", "user"}
    && (forall p :: p in t.userRoles ==> p.0 < t.nextUserId && p.1 in t.roles.Values)
    && (forall s :: s in t.problems ==> 1 <= t.problems[s].id < t.nextProblemId)
  }

  // ---------------------------------------------------------------------------
  // The operations as transitions of the tables
  // ---------------------------------------------------------------------------

  /** getUserId: the id of the row with that username, or -1. */
  function UserId(t: Tables, username: string): int
  {
    if username in t.users then t.users[username].id else -1
  }

  /** getRoleId: the id of the role with that name, or -1. */
  function RoleId(t: Tables, role: string): int
  {
    if role in t.roles then t.roles[role] else -1
  }

  /** getProblemId: the id of the row with that text, or -1. */
  function ProblemId(t: Tables, problem: string): int
  {
    if problem in t.problems then t.problems[problem].id else -1
  }

  /** assignRole: INSERT OR IGNORE of the pair, refused when either id is -1. */
  function Assigned(t: Tables, username: string, role: string): (Tables, bool)
  {
    if username !in t.users || role !in t.roles then (t, false)
    else (t.(userRoles := t.userRoles + {(t.users[username].id, t.roles[role])}), true)
  }

  /** revokeRole: DELETE of the one pair, refused when either id is -1. */
  function Revoked(t: Tables, username: string, role: string): (Tables, bool)
  {
    if username !in t.users || role !in t.roles then (t, false)
    else (t.(userRoles := t.userRoles - {(t.users[username].id, t.roles[role])}), true)
  }

  /** hasRole: false for an unknown user or role, otherwise whether the pair exists. */
  predicate HasRole(t: Tables, username: string, role: string)
  {
    username in t.users && role in t.roles && (t.users[username].id, t.roles[role]) in t.userRoles
  }

  /** isUserAdmin */
  predicate IsUserAdmin(t: Tables, username: string)
  {
    HasRole(t, username, "admin")
  }

  /**
   * registerUser: the INSERT fails on the UNIQUE username; otherwise the row gets
   * the next id and the hash of the password, and the role "admin" or "user" is
   * assigned, whose outcome is the result.
   */
  function Registered(t: Tables, hash: string -> string, username: string, password: string, isAdmin: bool): (Tables, bool)
  {
    RegisteredHash(t, username, hash(password), isAdmin)
  }

  /** registerUser once the password is hashed. */
  function RegisteredHash(t: Tables, username: string, passwordHash: string, isAdmin: bool): (Tables, bool)
  {
    if username in t.users then (t, false)
    else
      var inserted := t.(users := t.users[username := UserRow(t.nextUserId, passwordHash, None)],
                         nextUserId := t.nextUserId + 1);
      Assigned(inserted, username, if isAdmin then "admin" else "user")
  }

  /** authenticateUser: the stored hash must equal the hash of the password; only then is last_login set. */
  function Authenticated(t: Tables, hash: string -> string, username: string, password: string, now: nat): (Tables, bool)
  {
    if username in t.users && t.users[username].password == hash(password) then
      (t.(users := t.users[username := t.users[username].(lastLogin := Some(now))]), true)
    else (t, false)
  }

  /** deleteUser: removes the users row only; the statement succeeds whether or not a row matched. */
  function Deleted(t: Tables, username: string): (Tables, bool)
  {
    (t.(users := t.users - {username}), true)
  }

  /** promoteToAdmin: nothing unless the acting user is an admin. */
  function Promoted(t: Tables, adminUsername: string, targetUsername: string): (Tables, bool)
  {
    if !IsUserAdmin(t, adminUsername) then (t, false) else Assigned(t, targetUsername, "admin")
  }

  /** INSERT OR IGNORE INTO roles (name): a new name gets the next id. */
  function WithRole(t: Tables, role: string): Tables
  {
    if role in t.roles then t else t.(roles := t.roles[role := t.nextRoleId], nextRoleId := t.nextRoleId + 1)
  }

  /** openDatabase's seeding: both roles, then admin/admin123 as an admin when no "admin" user exists. */
  function Seeded(t: Tables, hash: string -> string): Tables
  {
    var withRoles := WithRole(WithRole(t, "admin"), "user");
    if UserId(withRoles, "admin") == -1 then Registered(withRoles, hash, "admin", "admin123", true).0 else withRoles
  }

  /**
   * The visible part of addProblem: an empty answer is computed by
   * parseAndCalculate and the problem refused when that starts with "Error";
   * the INSERT then fails on the UNIQUE problem text.
   */
  function WithProblem(t: Tables, problem: string, answer: string, rt: Runtime): (Tables, bool)
  {
    var finalAnswer := if answer == "" then ParseAndCalculate(problem, rt).1 else answer;
    if answer == "" && StartsWith(finalAnswer, "Error") then (t, false)
    else if problem in t.problems then (t, false)
    else (t.(problems := t.problems[problem := ProblemRow(t.nextProblemId, finalAnswer)],
             nextProblemId := t.nextProblemId + 1), true)
  }

  /** A user_roles row of this user id for the role of that name. */
  predicate RoleRow(t: Tables, id: nat, role: string)
  {
    role in t.roles && (id, t.roles[role]) in t.userRoles
  }

  /**
   * The rows of listUsers' LEFT JOIN: (name, true) for an admin row, (name,
   * false) for a "user" row, and (name, false) for a user with no role row.
   */
  function ListRows(t: Tables): set<(string, bool)>
  {
    ListRowsOf(t, t.users.Keys)
  }

  /** The LEFT JOIN rows of the users among `names`. */
  function ListRowsOf(t: Tables, names: set<string>): set<(string, bool)>
  {
    (set n | n in names && n in t.users && RoleRow(t, t.users[n].id, "admin") :: (n, true))
    + (set n | n in names && n in t.users && (RoleRow(t, t.users[n].id, "user") || !RoleRow(t, t.users[n].id, "admin")) :: (n, false))
  }

  // ---------------------------------------------------------------------------
  // Every operation keeps the tables valid
  // ---------------------------------------------------------------------------

  lemma EmptyTablesValid()
    ensures Valid(EmptyTables)
  {
  }

  lemma AssignedValid(t: Tables, username: string, role: string)
    requires Valid(t)
    ensures Valid(Assigned(t, username, role).0)
  {
    if username in t.users && role in t.roles {
      var t' := Assigned(t, username, role).0;
      forall p | p in t'.userRoles
        ensures p.0 < t'.nextUserId && p.1 in t'.roles.Values
      {
        if p !in t.userRoles {
          assert p == (t.users[username].id, t.roles[role]);
        }
      }
    }
  }

  lemma RevokedValid(t: Tables, username: string, role: string)
    requires Valid(t)
    ensures Valid(Revoked(t, username, role).0)
  {
  }

  lemma RegisteredValid(t: Tables, hash: string -> string, username: string, password: string, isAdmin: bool)
    requires Valid(t)
    ensures Valid(Registered(t, hash, username, password, isAdmin).0)
  {
    RegisteredHashValid(t, username, hash(password), isAdmin);
  }

  lemma RegisteredHashValid(t: Tables, username: string, passwordHash: string, isAdmin: bool)
    requires Valid(t)
    ensures Valid(RegisteredHash(t, username, passwordHash, isAdmin).0)
  {
    if username !in t.users {
      var inserted := t.(users := t.users[username := UserRow(t.nextUserId, passwordHash, None)],
                         nextUserId := t.nextUserId + 1);
      var role := if isAdmin then "admin" else "user";
      assert RegisteredHash(t, username, passwordHash, isAdmin) == Assigned(inserted, username, role);
      InsertedValid(t, username, passwordHash, inserted);
      AssignedValid(inserted, username, role);
    }
  }

  /** A new user row under a fresh name takes the next id and keeps the tables valid. */
  lemma InsertedValid(t: Tables, username: string, passwordHash: string, inserted: Tables)
    requires Valid(t) && username !in t.users
    requires inserted == t.(users := t.users[username := UserRow(t.nextUserId, passwordHash, None)],
                            nextUserId := t.nextUserId + 1)
    ensures Valid(inserted)
  {
    forall a, b | a in inserted.users && b in inserted.users && a != b
      ensures inserted.users[a].id != inserted.users[b].id
    {
      if a != username && b != username {
        assert inserted.users[a] == t.users[a] && inserted.users[b] == t.users[b];
      }
    }
  }

  lemma AuthenticatedValid(t: Tables, hash: string -> string, username: string, password: string, now: nat)
    requires Valid(t)
    ensures Valid(Authenticated(t, hash, username, password, now).0)
  {
  }

  lemma DeletedValid(t: Tables, username: string)
    requires Valid(t)
    ensures Valid(Deleted(t, username).0)
  {
  }

  lemma PromotedValid(t: Tables, adminUsername: string, targetUsername: string)
    requires Valid(t)
    ensures Valid(Promoted(t, adminUsername, targetUsername).0)
  {
    if IsUserAdmin(t, adminUsername) {
      AssignedValid(t, targetUsername, "admin");
    }
  }

  lemma WithRoleValid(t: Tables, role: string)
    requires Valid(t) && role in {"admin", "user"}
    ensures Valid(WithRole(t, role))
    ensures role in WithRole(t, role).roles
    ensures forall r :: r in t.roles ==> r in WithRole(t, role).roles && WithRole(t, role).roles[r] == t.roles[r]
  {
    if role !in t.roles {
      var t' := t.(roles := t.roles[role := t.nextRoleId], nextRoleId := t.nextRoleId + 1);
      assert WithRole(t, role) == t';
      RoleAddedValid(t, role, t');
    }
  }

  /** A new role under one of the two names takes the next id and keeps the tables valid. */
  lemma RoleAddedValid(t: Tables, role: string, t': Tables)
    requires Valid(t) && role in {"admin", "user"} && role !in t.roles
    requires t' == t.(roles := t.roles[role := t.nextRoleId], nextRoleId := t.nextRoleId + 1)
    ensures Valid(t')
  {
    forall p | p in t'.userRoles
      ensures p.1 in t'.roles.Values
    {
      var r :| r in t.roles && t.roles[r] == p.1;
      assert t'.roles[r] == p.1;
    }
  }

  /** registerUser creates no role and always leaves the user row. */
  lemma RegisteredKeepsRoles(t: Tables, hash: string -> string, username: string, password: string, isAdmin: bool)
    ensures Registered(t, hash, username, password, isAdmin).0.roles == t.roles
    ensures username in Registered(t, hash, username, password, isAdmin).0.users
  {
  }

  lemma SeededValid(t: Tables, hash: string -> string)
    requires Valid(t)
    ensures Valid(Seeded(t, hash))
    ensures "admin" in Seeded(t, hash).roles && "user" in Seeded(t, hash).roles
    ensures "admin" in Seeded(t, hash).users
  {
    var t1 := WithRole(t, "admin");
    WithRoleValid(t, "admin");
    var t2 := WithRole(t1, "user");
    WithRoleValid(t1, "user");
    if "admin" !in t2.users {
      RegisteredValid(t2, hash, "admin", "admin123", true);
      RegisteredKeepsRoles(t2, hash, "admin", "admin123", true);
    }
  }

  lemma WithProblemValid(t: Tables, problem: string, answer: string, rt: Runtime)
    requires Valid(t)
    ensures Valid(WithProblem(t, problem, answer, rt).0)
  {
  }

  // ---------------------------------------------------------------------------
  // Registration, authentication and deletion
  // ---------------------------------------------------------------------------

  /** A taken username is refused and changes nothing. */
  lemma RegisterTaken(t: Tables, hash: string -> string, username: string, password: string, isAdmin: bool)
    requires username in t.users
    ensures Registered(t, hash, username, password, isAdmin) == (t, false)
  {
  }

  /**
   * On seeded tables a new username is registered with exactly the requested
   * role: the fresh id carries no user_roles row from before.
   */
  lemma RegisterGrantsRole(t: Tables, hash: string -> string, username: string, password: string, isAdmin: bool)
    requires Valid(t) && username !in t.users && "admin" in t.roles && "user" in t.roles
    ensures var (t', ok) := Registered(t, hash, username, password, isAdmin);
      ok && username in t'.users && IsUserAdmin(t', username) == isAdmin && HasRole(t', username, "user") == !isAdmin
  {
    var inserted := t.(users := t.users[username := UserRow(t.nextUserId, hash(password), None)],
                       nextUserId := t.nextUserId + 1);
    assert (t.nextUserId, t.roles["admin"]) !in t.userRoles;
    assert (t.nextUserId, t.roles["user"]) !in t.userRoles;
    assert t.roles["admin"] != t.roles["user"];
  }

  /**
   * Without the role row the user row stays inserted although registerUser
   * reports failure: the two statements are not one transaction.
   */
  lemma RegisterWithoutRole(t: Tables, hash: string -> string, username: string, password: string, isAdmin: bool)
    requires username !in t.users && (if isAdmin then "admin" else "user") !in t.roles
    ensures var (t', ok) := Registered(t, hash, username, password, isAdmin);
      !ok && username in t'.users && t'.users[username].password == hash(password)
  {
  }

  /** A registered password authenticates; one with another hash does not. */
  lemma RegisterThenAuthenticate(t: Tables, hash: string -> string, username: string, password: string,
                                 isAdmin: bool, other: string, now: nat)
    requires username !in t.users
    ensures var t' := Registered(t, hash, username, password, isAdmin).0;
      Authenticated(t', hash, username, password, now).1
      && (hash(other) != hash(password) ==> !Authenticated(t', hash, username, other, now).1)
  {
  }

  /** authenticateUser changes only last_login, and only that user's. */
  lemma AuthenticateTouchesLastLogin(t: Tables, hash: string -> string, username: string, password: string, now: nat)
    ensures var (t', ok) := Authenticated(t, hash, username, password, now);
      && t'.users.Keys == t.users.Keys
      && (forall n :: n in t.users && n != username ==> t'.users[n] == t.users[n])
      && (username in t.users ==>
            && t'.users[username].id == t.users[username].id
            && t'.users[username].password == t.users[username].password
            && t'.users[username].lastLogin == (if ok then Some(now) else t.users[username].lastLogin))
      && t'.roles == t.roles && t'.userRoles == t.userRoles && t'.problems == t.problems
  {
  }

  /** A deleted user can no longer authenticate. */
  lemma DeletedCannotAuthenticate(t: Tables, hash: string -> string, username: string, password: string, now: nat)
    ensures !Authenticated(Deleted(t, username).0, hash, username, password, now).1
  {
  }

  /** deleteUser reports success for any name, and a name with no row leaves the tables as they were. */
  lemma DeleteUnknownReported(t: Tables, username: string)
    ensures Deleted(t, username).1
    ensures username !in t.users ==> Deleted(t, username).0 == t
  {
    if username !in t.users {
      assert t.users - {username} == t.users;
    }
  }

  /**
   * The role rows of a deleted user stay behind, but the name registered again
   * gets a fresh id and so none of the old roles.
   */
  lemma ReRegisteredLosesRoles(t: Tables, hash: string -> string, username: string, password: string)
    requires Valid(t) && username in t.users && "admin" in t.roles && "user" in t.roles
    ensures Deleted(t, username).0.userRoles == t.userRoles
    ensures var t' := Registered(Deleted(t, username).0, hash, username, password, false).0;
      !IsUserAdmin(t', username) && HasRole(t', username, "user")
  {
    DeletedValid(t, username);
    RegisterGrantsRole(Deleted(t, username).0, hash, username, password, false);
  }

  // ---------------------------------------------------------------------------
  // Roles
  // ---------------------------------------------------------------------------

  /** assignRole is idempotent (INSERT OR IGNORE on the composite key). */
  lemma AssignIdempotent(t: Tables, username: string, role: string)
    ensures Assigned(Assigned(t, username, role).0, username, role) == (Assigned(t, username, role).0, Assigned(t, username, role).1)
    ensures Assigned(t, username, role).1 <==> username in t.users && role in t.roles
    ensures Assigned(t, username, role).1 ==> HasRole(Assigned(t, username, role).0, username, role)
  {
  }

  /** revokeRole takes back exactly a fresh assignRole. */
  lemma RevokeUndoesAssign(t: Tables, username: string, role: string)
    requires !HasRole(t, username, role)
    ensures Revoked(Assigned(t, username, role).0, username, role).0 == t
  {
    if username in t.users && role in t.roles {
      var pair := (t.users[username].id, t.roles[role]);
      assert (t.userRoles + {pair}) - {pair} == t.userRoles;
    }
  }

  /**
   * After revokeRole the user lacks that role; a success deletes exactly that
   * (user, role) pair and no other row of any table, a failure changes nothing.
   */
  lemma RevokeRemovesRole(t: Tables, username: string, role: string)
    ensures !HasRole(Revoked(t, username, role).0, username, role)
    ensures Revoked(t, username, role).1 <==> username in t.users && role in t.roles
    ensures Revoked(t, username, role).1 ==>
              Revoked(t, username, role).0 == t.(userRoles := t.userRoles - {(t.users[username].id, t.roles[role])})
    ensures !Revoked(t, username, role).1 ==> Revoked(t, username, role).0 == t
    ensures forall u, r :: (u, r) in Revoked(t, username, role).0.userRoles <==>
              (u, r) in t.userRoles && !(HasRole(t, username, role) && u == t.users[username].id && r == t.roles[role])
  {
  }

  /** promoteToAdmin: refused to a non-admin; an admin makes any existing user an admin. */
  lemma PromoteNeedsAdmin(t: Tables, adminUsername: string, targetUsername: string)
    ensures !IsUserAdmin(t, adminUsername) ==> Promoted(t, adminUsername, targetUsername) == (t, false)
    ensures IsUserAdmin(t, adminUsername) && targetUsername in t.users ==>
      Promoted(t, adminUsername, targetUsername).1 && IsUserAdmin(Promoted(t, adminUsername, targetUsername).0, targetUsername)
  {
  }

  /** Every user is listed, as an admin exactly when isUserAdmin holds. */
  lemma ListRowsMatchRoles(t: Tables, username: string)
    ensures (username, true) in ListRows(t) <==> IsUserAdmin(t, username)
    ensures username in t.users <==> (username, true) in ListRows(t) || (username, false) in ListRows(t)
  {
  }

  // ---------------------------------------------------------------------------
  // Seeding and problems
  // ---------------------------------------------------------------------------

  /** Opening the database again seeds nothing more. */
  lemma SeedIdempotent(t: Tables, hash: string -> string)
    requires Valid(t)
    ensures Seeded(Seeded(t, hash), hash) == Seeded(t, hash)
  {
    SeededValid(t, hash);
  }

  /** Fresh tables are seeded with one admin, "admin", whose password is admin123. */
  lemma SeedFresh(hash: string -> string, now: nat)
    ensures var t := Seeded(EmptyTables, hash);
      && t.users.Keys == {"admin"} && IsUserAdmin(t, "admin") && !HasRole(t, "admin", "user")
      && Authenticated(t, hash, "admin", "admin123", now).1
      && ListRows(t) == {("admin", true)}
  {
    var t := Seeded(EmptyTables, hash);
    assert t.roles == map["admin" := 1, "user" := 2];
    assert t.userRoles == {(1, 1)};
    assert ("admin", false) !in ListRows(t);
    ListRowsMatchRoles(t, "admin");
    forall row | row in ListRows(t) ensures row == ("admin", true) {
      ListRowsMatchRoles(t, row.0);
    }
  }

  /** With an empty answer a problem whose parse fails is refused; a stored one has the answer it was given or the computed one. */
  lemma WithProblemAnswer(t: Tables, problem: string, answer: string, rt: Runtime)
    ensures answer == "" && Evaluate(Simplify(problem), rt).Err? ==> WithProblem(t, problem, answer, rt) == (t, false)
    ensures var (t', ok) := WithProblem(t, problem, answer, rt);
      ok <==> problem !in t.problems && (answer != "" || !StartsWith(ParseAndCalculate(problem, rt).1, "Error"))
    ensures var (t', ok) := WithProblem(t, problem, answer, rt);
      ok ==> (&& ProblemId(t', problem) == t.nextProblemId
              && t'.problems[problem].answer == (if answer == "" then ParseAndCalculate(problem, rt).1 else answer))
  {
    if answer == "" && Evaluate(Simplify(problem), rt).Err? {
      assert ParseAndCalculate(problem, rt).1 == CalcError;
      assert CalcError[..5] == "Error";
    }
  }

  // ---------------------------------------------------------------------------
  // The store itself
  // ---------------------------------------------------------------------------

  /** class DB: the tables as fields, each operation proved against its transition above. */
  class Store {
    /** hashPassword (SHA-256, hex encoded). */
    const hash: string -> string
    var users: map<string, UserRow>
    var nextUserId: nat
    var roles: map<string, nat>
    var nextRoleId: nat
    var userRoles: set<(nat, nat)>
    var problems: map<string, ProblemRow>
    var nextProblemId: nat

    function State(): Tables
      reads this
    {
      Tables(users, nextUserId, roles, nextRoleId, userRoles, problems, nextProblemId)
    }

    /**
     * A store over the database file as it is found: `CREATE TABLE IF NOT
     * EXISTS` keeps the rows an existing file holds, and a new file holds
     * `EmptyTables`.
     */
    constructor(hash: string -> string, t: Tables)
      requires Valid(t)
      ensures this.hash == hash && State() == t
    {
      this.hash := hash;
      users, nextUserId := t.users, t.nextUserId;
      roles, nextRoleId := t.roles, t.nextRoleId;
      userRoles := t.userRoles;
      problems, nextProblemId := t.problems, t.nextProblemId;
    }

    /** openDatabase: no change when the file cannot be opened; otherwise the seeding. */
    method OpenDatabase(opens: bool) returns (ok: bool)
      modifies this
      ensures ok == opens
      ensures State() == if opens then Seeded(old(State()), hash) else old(State())
    {
      if !opens {
        return false;
      }
      InsertRole("admin");
      InsertRole("user");
      var adminId := GetUserId("admin");
      if adminId == -1 {
        var registered := RegisterUser("admin", "admin123", true);
      }
      ok := true;
    }

    /** INSERT OR IGNORE INTO roles (name) */
    method InsertRole(role: string)
      modifies this
      ensures State() == WithRole(old(State()), role)
    {
      if role !in roles {
        roles := roles[role := nextRoleId];
        nextRoleId := nextRoleId + 1;
      }
    }

    /** getUserId: the SELECT's meaning is `UserId` over the tables, -1 when no row matches. */
    method GetUserId(username: string) returns (id: int)
      ensures id == UserId(State(), username)
    {
      id := if username in users then users[username].id else -1;
    }

    /** getRoleId: the SELECT's meaning is `RoleId` over the tables, -1 when no row matches. */
    method GetRoleId(role: string) returns (id: int)
      ensures id == RoleId(State(), role)
    {
      id := if role in roles then roles[role] else -1;
    }

    /** getProblemId: the SELECT's meaning is `ProblemId` over the tables, -1 when no row matches. */
    method GetProblemId(problem: string) returns (id: int)
      ensures id == ProblemId(State(), problem)
    {
      id := if problem in problems then problems[problem].id else -1;
    }

    method RegisterUser(username: string, password: string, isAdmin: bool) returns (ok: bool)
      modifies this
      ensures (State(), ok) == Registered(old(State()), hash, username, password, isAdmin)
    {
      if username in users {
        return false;
      }
      users := users[username := UserRow(nextUserId, hash(password), None)];
      nextUserId := nextUserId + 1;
      ok := AssignRole(username, if isAdmin then "admin" else "user");
    }

    method AuthenticateUser(username: string, password: string, now: nat) returns (ok: bool)
      modifies this
      ensures (State(), ok) == Authenticated(old(State()), hash, username, password, now)
    {
      if username !in users {
        return false;
      }
      var storedHash := users[username].password;
      if storedHash != hash(password) {
        return false;
      }
      users := users[username := users[username].(lastLogin := Some(now))];
      ok := true;
    }

    method DeleteUser(username: string) returns (ok: bool)
      modifies this
      ensures (State(), ok) == Deleted(old(State()), username)
    {
      users := users - {username};
      ok := true;
    }

    /** listUsers: every LEFT JOIN row once, in the order the users are visited. */
    method ListUsers() returns (rows: seq<(string, bool)>)
      ensures (set r | r in rows) == ListRows(State())
      ensures forall i, j :: 0 <= i < j < |rows| ==> rows[i] != rows[j]
    {
      rows := [];
      var pending := users.Keys;
      ghost var listed: set<string> := {};
      while pending != {}
        invariant pending + listed == users.Keys && pending !! listed
        invariant (set r | r in rows) == ListRowsOf(State(), listed)
        invariant forall i :: 0 <= i < |rows| ==> rows[i].0 in listed
        invariant forall i, j :: 0 <= i < j < |rows| ==> rows[i] != rows[j]
        decreases pending
      {
        var username :| username in pending;
        ListRowsStep(State(), listed, rows, username);
        rows := rows + JoinRowsOf(State(), username);
        pending := pending - {username};
        listed := listed + {username};
      }
    }

    method AssignRole(username: string, role: string) returns (ok: bool)
      modifies this
      ensures (State(), ok) == Assigned(old(State()), username, role)
    {
      var userId := GetUserId(username);
      var roleId := GetRoleId(role);
      if userId == -1 || roleId == -1 {
        return false;
      }
      userRoles := userRoles + {(userId as nat, roleId as nat)};
      ok := true;
    }

    method RevokeRole(username: string, role: string) returns (ok: bool)
      modifies this
      ensures (State(), ok) == Revoked(old(State()), username, role)
    {
      var userId := GetUserId(username);
      var roleId := GetRoleId(role);
      if userId == -1 || roleId == -1 {
        return false;
      }
      userRoles := userRoles - {(userId as nat, roleId as nat)};
      ok := true;
    }

    /** hasRole: the COUNT query's meaning is `HasRole` over the tables. */
    method HasRoleOf(username: string, role: string) returns (has: bool)
      ensures has == HasRole(State(), username, role)
    {
      var userId := GetUserId(username);
      var roleId := GetRoleId(role);
      if userId == -1 || roleId == -1 {
        return false;
      }
      has := (userId as nat, roleId as nat) in userRoles;
    }

    /** isUserAdmin: hasRole of "admin", whose meaning is `IsUserAdmin` over the tables. */
    method IsAdmin(username: string) returns (admin: bool)
      ensures admin == IsUserAdmin(State(), username)
    {
      admin := HasRoleOf(username, "admin");
    }

    method PromoteToAdmin(adminUsername: string, targetUsername: string) returns (ok: bool)
      modifies this
      ensures (State(), ok) == Promoted(old(State()), adminUsername, targetUsername)
    {
      var admin := IsAdmin(adminUsername);
      if !admin {
        return false;
      }
      ok := AssignRole(targetUsername, "admin");
    }

    method AddProblem(problem: string, answer: string, rt: Runtime) returns (ok: bool)
      modifies this
      ensures (State(), ok) == WithProblem(old(State()), problem, answer, rt)
    {
      var finalAnswer := answer;
      if answer == "" {
        var result := ParseAndCalculate(problem, rt);
        if StartsWith(result.1, "Error") {
          return false;
        }
        finalAnswer := result.1;
      }
      if problem in problems {
        return false;
      }
      problems := problems[problem := ProblemRow(nextProblemId, finalAnswer)];
      nextProblemId := nextProblemId + 1;
      ok := true;
    }
  }

  /** The LEFT JOIN rows of one user: its admin row, then its "user" row or the NULL-role row. */
  function JoinRowsOf(t: Tables, username: string): (rows: seq<(string, bool)>)
    requires username in t.users
    ensures forall i :: 0 <= i < |rows| ==> rows[i].0 == username
    ensures |rows| <= 2 && (|rows| == 2 ==> rows[0] != rows[1])
  {
    var id := t.users[username].id;
    (if RoleRow(t, id, "admin") then [(username, true)] else [])
    + (if RoleRow(t, id, "user") || !RoleRow(t, id, "admin") then [(username, false)] else [])
  }

  /** One more visited user adds exactly its own rows, none of them listed before. */
  lemma ListRowsStep(t: Tables, listed: set<string>, rows: seq<(string, bool)>, username: string)
    requires username in t.users && username !in listed
    requires (set r | r in rows) == ListRowsOf(t, listed)
    requires forall i :: 0 <= i < |rows| ==> rows[i].0 in listed
    requires forall i, j :: 0 <= i < j < |rows| ==> rows[i] != rows[j]
    ensures var rows' := rows + JoinRowsOf(t, username);
      && (set r | r in rows') == ListRowsOf(t, listed + {username})
      && (forall i :: 0 <= i < |rows'| ==> rows'[i].0 in listed + {username})
      && (forall i, j :: 0 <= i < j < |rows'| ==> rows'[i] != rows'[j])
  {
    var own := JoinRowsOf(t, username);
    var rows' := rows + own;
    assert (set r | r in rows') == (set r | r in rows) + (set r | r in own);
    forall i, j | 0 <= i < j < |rows'| ensures rows'[i] != rows'[j] {
      if j >= |rows| && i < |rows| {
        assert rows'[j].0 == username;
      } else if i >= |rows| {
        assert rows'[i] == own[i - |rows|] && rows'[j] == own[j - |rows|];
      }
    }
  }
}
