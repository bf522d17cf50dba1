/**
 * The session gate (class MyTcpServer): `clientLogins` maps each connection to
 * the username it authenticated as. Sockets are plain connection ids, a read
 * event is the chunk it delivers, and the socket write is the returned
 * response. The chunk is trimmed as bytes (QByteArray::trimmed), so only ASCII
 * whitespace is removed. DB::isAdmin and DB::generateProblems, whose bodies
 * are not part of this model, are parameters of each read.
 */
module Server {
  import opened Wrappers
  import opened Text
  import opened MathParser
  import opened Db
  import opened Dispatcher

  /** A client socket, by identity. */
  type Connection = nat

  const AuthOk: string := "Authentication successful\r\n"
  const AuthFirst: string := "You need to authenticate first. " + "Use 'auth <username> <password>'.\r\n"
  const AdminRequired: string := "Permission denied. Admin rights required.\r\n"

  /** Where slotServerRead sends a trimmed command. */
  datatype Route =
    | Authenticate(username: string, password: string)
    | Prompt
    | Refuse
    | Forward(username: string)

  /**
   * The gate: an `auth` with at least three space-separated parts (empty parts
   * kept) is handled here; any other line needs a bound, non-empty username;
   * `userstats` also needs DB::isAdmin.
   */
  function RouteOf(command: string, bound: string, isAdmin: string -> bool): Route
  {
    var parts := Split(command, " ");
    if |parts| >= 3 && parts[0] == "auth" then Authenticate(parts[1], parts[2])
    else if bound == "" then Prompt
    else if parts[0] == "userstats" && !isAdmin(bound) then Refuse
    else Forward(bound)
  }

  /** The state after one read event, and what it writes and records. */
  datatype Served = Served(logins: map<Connection, string>, tables: Tables, response: string, attempt: Option<Attempt>)

  /** The username bound to a connection, "" when there is none (QMap::value with a default). */
  function BoundName(logins: map<Connection, string>, conn: Connection): string
  {
    if conn in logins then logins[conn] else ""
  }

  /** slotServerRead on one chunk of data. */
  function Serve(logins: map<Connection, string>, t: Tables, hash: string -> string, isAdmin: string -> bool,
                 generated: string -> seq<Problem>, rt: Runtime, conn: Connection, data: string, now: nat): Served
  {
    var command := AsciiTrimmed(data);
    match RouteOf(command, BoundName(logins, conn), isAdmin)
    case Authenticate(username, password) =>
      var (t', ok) := Authenticated(t, hash, username, password, now);
      if ok then Served(logins[conn := username], t', AuthOk, None) else Served(logins, t', AuthFailed, None)
    case Prompt => Served(logins, t, AuthFirst, None)
    case Refuse => Served(logins, t, AdminRequired, None)
    case Forward(username) =>
      var o := Dispatched(t, hash, command, username, generated, rt);
      Served(logins, o.tables, o.response, o.attempt)
  }

  class TcpServer {
    var clientLogins: map<Connection, string>
    const store: Store
    const rt: Runtime

    constructor(store: Store, rt: Runtime)
      ensures clientLogins == map[]
      ensures this.store == store && this.rt == rt
    {
      clientLogins := map[];
      this.store := store;
      this.rt := rt;
    }

    /** One read event; `isAdmin` and `generated` are DB::isAdmin and DB::generateProblems as they answer now. */
    method SlotServerRead(conn: Connection, data: string, now: nat, isAdmin: string -> bool, generated: string -> seq<Problem>)
      returns (response: string, attempt: Option<Attempt>)
      modifies this, store
      ensures Served(clientLogins, store.State(), response, attempt)
           == Serve(old(clientLogins), old(store.State()), store.hash, isAdmin, generated, rt, conn, data, now)
    {
      var command := AsciiTrimmed(data);
      var username := if conn in clientLogins then clientLogins[conn] else "";
      var parts := Split(command, " ");
      if |parts| >= 3 && parts[0] == "auth" {
        var ok := store.AuthenticateUser(parts[1], parts[2], now);
        if ok {
          clientLogins := clientLogins[conn := parts[1]];
          return AuthOk, None;
        } else {
          return AuthFailed, None;
        }
      }
      if username == "" {
        return AuthFirst, None;
      }
      if parts[0] == "userstats" {
        if !isAdmin(username) {
          return AdminRequired, None;
        }
      }
      response, attempt := Parse(store, command, username, generated, rt);
    }

    method SlotClientDisconnected(conn: Connection)
      modifies this
      ensures clientLogins == old(clientLogins) - {conn}
    {
      clientLogins := clientLogins - {conn};
    }
  }

  // ---------------------------------------------------------------------------
  // What the gate guarantees
  // ---------------------------------------------------------------------------

  /**
   * A successful auth binds the connection to the name, replacing any earlier
   * binding, and touches no other connection; a failed one changes no binding.
   */
  lemma AuthBinds(logins: map<Connection, string>, t: Tables, hash: string -> string, isAdmin: string -> bool,
                  generated: string -> seq<Problem>, rt: Runtime, conn: Connection, username: string, password: string, now: nat)
    requires Token(username) && Token(password) && !IsAsciiSpace(password[|password| - 1])
    ensures var s := Serve(logins, t, hash, isAdmin, generated, rt, conn, "auth " + username + " " + password, now);
      && s.attempt.None?
      && (Authenticated(t, hash, username, password, now).1 ==>
            s.logins == logins[conn := username] && s.response == AuthOk && BoundName(s.logins, conn) == username)
      && (!Authenticated(t, hash, username, password, now).1 ==> s.logins == logins && s.response == AuthFailed)
      && s.tables == Authenticated(t, hash, username, password, now).0
  {
    AuthRoute(username, password, BoundName(logins, conn), isAdmin);
  }

  /** An auth line with two clean tokens is routed to authentication with those tokens. */
  lemma AuthRoute(username: string, password: string, bound: string, isAdmin: string -> bool)
    requires Token(username) && Token(password) && !IsAsciiSpace(password[|password| - 1])
    ensures RouteOf(AsciiTrimmed("auth " + username + " " + password), bound, isAdmin) == Authenticate(username, password)
  {
    var line := "auth " + username + " " + password;
    AuthLineParts("auth", "auth ", username, password);
    assert |line| > 0 && !IsAsciiSpace(line[0]) by { assert line[0] == 'a'; }
    assert line[|line| - 1] == password[|password| - 1];
    AsciiTrimmedClean(line);
    assert AsciiTrimmed(line) == line;
    var parts := Split(line, " ");
    assert parts == ["auth", username, password];
    assert |parts| >= 3 && parts[0] == "auth";
  }

  /**
   * Non-ASCII whitespace at the end of an auth line stays in the password: the
   * byte trim keeps it, unlike QString::trimmed.
   */
  lemma AuthKeepsWideSpace(username: string, password: string, c: char, bound: string, isAdmin: string -> bool)
    requires Token(username) && Token(password) && IsSpace(c) && !IsAsciiSpace(c)
    ensures RouteOf(AsciiTrimmed("auth " + username + " " + password + [c]), bound, isAdmin) == Authenticate(username, password + [c])
  {
    assert ' ' !in password + [c];
    assert "auth " + username + " " + password + [c] == "auth " + username + " " + (password + [c]);
    AuthRoute(username, password + [c], bound, isAdmin);
  }

  /** On a connection with no bound name every line except auth gets the prompt and reaches nothing, register included. */
  lemma UnboundPrompted(logins: map<Connection, string>, t: Tables, hash: string -> string, isAdmin: string -> bool,
                        generated: string -> seq<Problem>, rt: Runtime, conn: Connection, data: string, now: nat)
    requires BoundName(logins, conn) == ""
    requires !RouteOf(AsciiTrimmed(data), "", isAdmin).Authenticate?
    ensures Serve(logins, t, hash, isAdmin, generated, rt, conn, data, now) == Served(logins, t, AuthFirst, None)
  {
  }

  /** userstats from a bound non-admin is refused and not dispatched. */
  lemma UserstatsRefused(logins: map<Connection, string>, t: Tables, hash: string -> string, isAdmin: string -> bool,
                         generated: string -> seq<Problem>, rt: Runtime, conn: Connection, now: nat)
    requires BoundName(logins, conn) != "" && !isAdmin(BoundName(logins, conn))
    ensures Serve(logins, t, hash, isAdmin, generated, rt, conn, "userstats", now) == Served(logins, t, AdminRequired, None)
  {
    UserstatsParts();
  }

  /** From an admin, userstats passes the gate and parse answers "Unknown command". */
  lemma UserstatsFromAdmin(logins: map<Connection, string>, t: Tables, hash: string -> string, isAdmin: string -> bool,
                           generated: string -> seq<Problem>, rt: Runtime, conn: Connection, now: nat)
    requires BoundName(logins, conn) != "" && isAdmin(BoundName(logins, conn))
    ensures Serve(logins, t, hash, isAdmin, generated, rt, conn, "userstats", now) == Served(logins, t, UnknownCommand, None)
  {
    UserstatsParts();
    UserstatsUnknown(t, hash, BoundName(logins, conn), generated, rt);
  }

  lemma UserstatsParts()
    ensures AsciiTrimmed("userstats") == "userstats"
    ensures Split("userstats", " ") == ["userstats"]
  {
    AsciiTrimmedClean("userstats");
    SplitNoSeparator("userstats", ' ');
  }

  /** Any other line from a bound connection is dispatched under the bound name, and no binding changes. */
  lemma BoundForwarded(logins: map<Connection, string>, t: Tables, hash: string -> string, isAdmin: string -> bool,
                       generated: string -> seq<Problem>, rt: Runtime, conn: Connection, data: string, now: nat)
    requires BoundName(logins, conn) != ""
    requires RouteOf(AsciiTrimmed(data), BoundName(logins, conn), isAdmin) == Forward(BoundName(logins, conn))
    ensures var s := Serve(logins, t, hash, isAdmin, generated, rt, conn, data, now);
      var o := Dispatched(t, hash, AsciiTrimmed(data), BoundName(logins, conn), generated, rt);
      s.logins == logins && s.tables == o.tables && s.response == o.response && s.attempt == o.attempt
  {
  }

  /** Only an auth line rebinds, and only the reading connection. */
  lemma OtherBindingsKept(logins: map<Connection, string>, t: Tables, hash: string -> string, isAdmin: string -> bool,
                          generated: string -> seq<Problem>, rt: Runtime, conn: Connection, data: string, now: nat)
    ensures var s := Serve(logins, t, hash, isAdmin, generated, rt, conn, data, now);
      && (forall c :: c != conn ==> (c in s.logins <==> c in logins) && (c in logins ==> s.logins[c] == logins[c]))
      && (!RouteOf(AsciiTrimmed(data), BoundName(logins, conn), isAdmin).Authenticate? ==> s.logins == logins)
  {
  }

  /** The read chunk is trimmed as a whole: a line sent with its terminator is the same command. */
  lemma TerminatorIgnored(logins: map<Connection, string>, t: Tables, hash: string -> string, isAdmin: string -> bool,
                          generated: string -> seq<Problem>, rt: Runtime, conn: Connection, line: string, now: nat)
    requires |line| > 0 ==> !IsAsciiSpace(line[0]) && !IsAsciiSpace(line[|line| - 1])
    ensures Serve(logins, t, hash, isAdmin, generated, rt, conn, line + "\r\n", now)
         == Serve(logins, t, hash, isAdmin, generated, rt, conn, line, now)
  {
    AsciiTrimmedDropsCrLf(line);
    AsciiTrimmedClean(line);
  }

  /** Three parts separated by single spaces split back into the three. */
  lemma AuthLineParts(verb: string, opening: string, username: string, password: string)
    requires ' ' !in verb && ' ' !in username && ' ' !in password && opening == verb + " "
    ensures Split(opening + username + " " + password, " ") == [verb, username, password]
  {
    assert Join([verb], " ") == verb;
    JoinSnoc([verb], username, " ");
    JoinSnoc([verb, username], password, " ");
    assert [verb] + [username] == [verb, username];
    assert [verb, username] + [password] == [verb, username, password];
    assert opening + username + " " + password == Join([verb, username, password], " ");
    SplitJoin([verb, username, password], ' ');
  }

  /** With empty parts kept, a doubled space shifts the fields: the name checked is the empty one. */
  lemma AuthDoubleSpace(username: string, password: string, bound: string, isAdmin: string -> bool)
    requires Token(username) && Token(password)
    ensures RouteOf("auth  " + username + " " + password, bound, isAdmin) == Authenticate("", username)
  {
    var line := "auth  " + username + " " + password;
    assert Join(["auth"], " ") == "auth";
    JoinSnoc(["auth"], "", " ");
    assert ["auth"] + [""] == ["auth", ""];
    JoinSnoc(["auth", ""], username, " ");
    JoinSnoc(["auth", "", username], password, " ");
    assert ["auth", ""] + [username] == ["auth", "", username];
    assert ["auth", "", username] + [password] == ["auth", "", username, password];
    assert line == Join(["auth", "", username, password], " ");
    SplitJoin(["auth", "", username, password], ' ');
  }
}
