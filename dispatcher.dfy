/**
 * The command dispatcher (class FunctionsForServer). Each socket write is a
 * returned response; a handler that writes nothing returns "". The problem
 * lists come from DB::generateProblems, whose body is not part of this model,
 * so they are a parameter; DB::recordAttempt is returned as an `Attempt`.
 */
module Dispatcher {
  import opened Wrappers
  import opened Text
  import opened MathParser
  import opened Db
  import Generators
  import Matrices

  /** A generated problem: its text and its stored answer. */
  type Problem = (string, string)

  /** The row DB::recordAttempt is asked to write. */
  datatype Attempt = Attempt(username: string, problem: string, correct: bool)

  const UnknownCommand: string := "Unknown command\r\n"

  // ---------------------------------------------------------------------------
  // parse
  // ---------------------------------------------------------------------------

  /** The handler a line selects, with its arguments. */
  datatype Command =
    | GetProblems(category: string)
    | CheckAnswer(category: string, index: int, answer: string)
    | Register(username: string, password: string)
    | Unknown

  /**
   * parse's tokeniser: split on spaces dropping empty tokens, lower-case the
   * verb only, and demand 2, 4 or 3 tokens for get_problems, check_answer and
   * register; the index token goes through toInt.
   */
  function ParseCommand(command: string): Command
  {
    var parts := SplitSkipEmpty(command, " ");
    if |parts| == 0 then Unknown
    else
      var action := ToLower(parts[0]);
      if action == "get_problems" && |parts| == 2 then GetProblems(parts[1])
      else if action == "check_answer" && |parts| == 4 then CheckAnswer(parts[1], ToInt(parts[2]), parts[3])
      else if action == "register" && |parts| == 3 then Register(parts[1], parts[2])
      else Unknown
  }

  /** A token a client can send: non-empty and without a space. */
  predicate Token(s: string)
  {
    |s| > 0 && ' ' !in s
  }

  /** The line a client sends for a command (the inverse of ParseCommand). */
  function CommandLine(c: Command): string
  {
    match c
    case GetProblems(category) => Join(["get_problems", category], " ")
    case CheckAnswer(category, index, answer) => Join(["check_answer", category, IntToString(index), answer], " ")
    case Register(username, password) => Join(["register", username, password], " ")
    case Unknown => ""
  }

  /** A list of tokens without empty ones is its own DropEmpty. */
  lemma {:induction false} DropEmptyTokens(xs: seq<string>)
    requires forall i :: 0 <= i < |xs| ==> xs[i] != ""
    ensures DropEmpty(xs) == xs
    decreases |xs|
  {
    if |xs| > 0 {
      DropEmptyTokens(xs[1..]);
      assert xs == [xs[0]] + xs[1..];
    }
  }

  /** Splitting the joined tokens back gives the tokens. */
  lemma TokensSplit(xs: seq<string>)
    requires |xs| >= 1 && forall i :: 0 <= i < |xs| ==> Token(xs[i])
    ensures SplitSkipEmpty(Join(xs, " "), " ") == xs
  {
    SplitJoin(xs, ' ');
    DropEmptyTokens(xs);
  }

  /** Every command with well-formed tokens survives the trip through its line. */
  lemma ParseCommandLine(c: Command)
    requires c.GetProblems? ==> Token(c.category)
    requires c.CheckAnswer? ==> Token(c.category) && Token(c.answer) && IntMin <= c.index <= IntMax
    requires c.Register? ==> Token(c.username) && Token(c.password)
    ensures ParseCommand(CommandLine(c)) == c
  {
    match c
    case GetProblems(category) =>
      TokensSplit(["get_problems", category]);
      assert ToLower("get_problems") == "get_problems";
    case CheckAnswer(category, index, answer) =>
      ParseCheckAnswerLine(category, index, answer);
    case Register(username, password) =>
      TokensSplit(["register", username, password]);
      assert ToLower("register") == "register";
    case Unknown =>
      assert SplitSkipEmpty("", " ") == [];
  }

  lemma ParseCheckAnswerLine(category: string, index: int, answer: string)
    requires Token(category) && Token(answer) && IntMin <= index <= IntMax
    ensures ParseCommand(CommandLine(CheckAnswer(category, index, answer))) == CheckAnswer(category, index, answer)
  {
    var digits := IntToString(index);
    var n: nat := if index < 0 then -index else index;
    assert ' ' !in digits by {
      DigitsLack(NatToString(n), ' ');
      if index < 0 {
        assert digits == "-" + NatToString(n);
      }
    }
    var parts := ["check_answer", category, digits, answer];
    TokensSplit(parts);
    assert ToLower("check_answer") == "check_answer";
    ToIntOfIntToString(index);
  }

  /** A line of spaces only has no token. */
  lemma {:induction false} BlankSplit(s: string, cur: string)
    requires forall i :: 0 <= i < |s| ==> s[i] == ' '
    requires cur == ""
    ensures DropEmpty(SplitFrom(s, " ", cur)) == []
    decreases |s|
  {
    if |s| > 0 {
      assert StartsWith(s, " ");
      BlankSplit(s[1..], "");
    }
  }

  /** A blank line, and any line with a token count no verb accepts, is an unknown command. */
  lemma ParseUnknown(command: string)
    ensures (forall i :: 0 <= i < |command| ==> command[i] == ' ') ==> ParseCommand(command) == Unknown
    ensures |SplitSkipEmpty(command, " ")| !in {2, 3, 4} ==> ParseCommand(command) == Unknown
  {
    if forall i :: 0 <= i < |command| ==> command[i] == ' ' {
      BlankSplit(command, "");
    }
  }

  // ---------------------------------------------------------------------------
  // isValidProblem
  // ---------------------------------------------------------------------------

  /**
   * The regular expression's character class: digits, x + - * / ^ ( ), the root
   * signs, the space, and the letters of log, sin, cos, tan, integral and
   * derivative.
   */
  const ProblemChars: set<char> := {
    '0', '1', '2', '3', '4', '5', '6', '7', '8', '9',
    'x', '+', '-', '*', '/', '^', '(', ')', SqrtSign, CbrtSign, ' ',
    'l', 'o', 'g', 's', 'i', 'n', 'c', 't', 'a', 'e', 'r', 'd', 'v'}

  /**
   * `^[...]+$` as PCRE matches it: one or more class characters, where `$` also
   * matches before a final newline.
   */
  predicate WhitelistMatches(s: string)
  {
    (|s| > 0 && Within(s, ProblemChars))
    || (|s| > 1 && s[|s| - 1] == '\n' && Within(s[..|s| - 1], ProblemChars))
  }

  /** isValidProblem */
  predicate IsValidProblem(problem: string)
  {
    WhitelistMatches(problem) && !Contains(problem, "y") && !Contains(problem, "z")
  }

  /** The extra y and z tests are implied by the whitelist. */
  lemma ValidProblemIsWhitelist(problem: string)
    ensures IsValidProblem(problem) <==> WhitelistMatches(problem)
  {
    ContainsSingleChar(problem, 'y');
    ContainsSingleChar(problem, 'z');
    if WhitelistMatches(problem) {
      forall i | 0 <= i < |problem|
        ensures problem[i] != 'y' && problem[i] != 'z'
      {
        if i < |problem| - 1 {
          assert problem[i] == problem[..|problem| - 1][i];
        }
      }
    }
  }

  /** A text with a '[' or a ',' (every matrix problem) is never valid. */
  lemma BracketInvalid(problem: string)
    requires '[' in problem || ',' in problem
    ensures !IsValidProblem(problem)
  {
    var i :| 0 <= i < |problem| && (problem[i] == '[' || problem[i] == ',');
    if i < |problem| - 1 {
      assert problem[i] == problem[..|problem| - 1][i];
    }
  }

  /** So get_problems never lists a generated matrix problem. */
  lemma MatrixProblemInvalid(m1: seq<seq<nat>>, m2: seq<seq<nat>>, op: string)
    requires |m1| > 0
    ensures !IsValidProblem(Matrices.MatrixProblem(m1, m2, op))
  {
    var p := Matrices.MatrixProblem(m1, m2, op);
    Matrices.MatrixProblemBrackets(m1, m2, op);
    assert p[0] == '[';
    BracketInvalid(p);
  }

  /** A generated polynomial passes the whitelist. */
  lemma PolynomialValid(degree: nat, coeffs: seq<nat>)
    requires |coeffs| == degree + 1
    ensures IsValidProblem(Generators.Polynomial(degree, coeffs))
  {
    var p := Generators.Polynomial(degree, coeffs);
    Generators.PolynomialPrefixChars(degree, coeffs, |coeffs|);
    Generators.PolynomialLead(degree, coeffs);
    assert Generators.PolynomialSymbols <= ProblemChars;
    ValidProblemIsWhitelist(p);
  }

  // ---------------------------------------------------------------------------
  // handleGetProblems
  // ---------------------------------------------------------------------------

  /** The filter: an answer without "Error" and a valid text. */
  predicate Shown(p: Problem)
  {
    !Contains(p.1, "Error") && IsValidProblem(p.0)
  }

  /** The problems that pass the filter, in generator order. */
  function ShownAmong(problems: seq<Problem>): (r: seq<Problem>)
    ensures |r| <= |problems|
    decreases |problems|
  {
    if |problems| == 0 then []
    else
      var init := ShownAmong(problems[..|problems| - 1]);
      var last := problems[|problems| - 1];
      if Shown(last) then init + [last] else init
  }

  /** The entries the response holds: the first four that pass the filter. */
  function Listed(problems: seq<Problem>): seq<Problem>
  {
    var shown := ShownAmong(problems);
    if |shown| <= 4 then shown else shown[..4]
  }

  /** One `text|answer` entry. */
  function EntryText(p: Problem): string
  {
    p.0 + "|" + p.1
  }

  function EntryTexts(problems: seq<Problem>): (r: seq<string>)
    ensures |r| == |problems| && forall i :: 0 <= i < |r| ==> r[i] == EntryText(problems[i])
  {
    seq(|problems|, i requires 0 <= i < |problems| => EntryText(problems[i]))
  }

  /** The `problems:` line handleGetProblems writes. */
  function ProblemsResponse(problems: seq<Problem>): string
  {
    "problems:" + Join(EntryTexts(Listed(problems)), ";") + "\r\n"
  }

  /** A problem is shown exactly when it was generated and passes the filter. */
  lemma {:induction false} ShownAmongMembers(problems: seq<Problem>, p: Problem)
    ensures p in ShownAmong(problems) <==> p in problems && Shown(p)
    decreases |problems|
  {
    if |problems| > 0 {
      var init := problems[..|problems| - 1];
      ShownAmongMembers(init, p);
      assert problems == init + [problems[|problems| - 1]];
    }
  }

  /** The shown problems of a prefix are a prefix of the shown problems. */
  lemma {:induction false} ShownAmongPrefix(problems: seq<Problem>, n: nat)
    requires n <= |problems|
    ensures var s := ShownAmong(problems[..n]);
      |s| <= |ShownAmong(problems)| && ShownAmong(problems)[..|s|] == s
    decreases |problems| - n
  {
    if n < |problems| {
      ShownAmongPrefix(problems, n + 1);
      assert problems[..n + 1][..n] == problems[..n];
    } else {
      assert problems[..n] == problems;
    }
  }

  /** At most four entries, each generated and passing the filter; all of them when at most four pass. */
  lemma ListedProperties(problems: seq<Problem>)
    ensures |Listed(problems)| <= 4
    ensures forall i :: 0 <= i < |Listed(problems)| ==> Listed(problems)[i] in problems && Shown(Listed(problems)[i])
    ensures |ShownAmong(problems)| <= 4 ==> Listed(problems) == ShownAmong(problems)
    ensures (forall i :: 0 <= i < |problems| ==> Shown(problems[i])) && |problems| <= 4 ==> Listed(problems) == problems
  {
    forall i | 0 <= i < |Listed(problems)|
      ensures Listed(problems)[i] in problems && Shown(Listed(problems)[i])
    {
      ShownAmongMembers(problems, Listed(problems)[i]);
    }
    if forall i :: 0 <= i < |problems| ==> Shown(problems[i]) {
      AllShown(problems);
    }
  }

  lemma {:induction false} AllShown(problems: seq<Problem>)
    requires forall i :: 0 <= i < |problems| ==> Shown(problems[i])
    ensures ShownAmong(problems) == problems
    decreases |problems|
  {
    if |problems| > 0 {
      AllShown(problems[..|problems| - 1]);
    }
  }

  /** The response always has the prefix and the terminator. */
  lemma ProblemsResponseFrame(problems: seq<Problem>)
    ensures StartsWith(ProblemsResponse(problems), "problems:")
    ensures var r := ProblemsResponse(problems); |r| >= 11 && r[|r| - 2..] == "\r\n"
  {
    var r := ProblemsResponse(problems);
    assert r[..9] == "problems:";
  }

  /** handleGetProblems: the loop with its early break after four entries. */
  method HandleGetProblems(problems: seq<Problem>) returns (response: string)
    ensures response == ProblemsResponse(problems)
  {
    response := "problems:";
    var validCount := 0;
    var i := 0;
    while i < |problems|
      invariant 0 <= i <= |problems|
      invariant validCount == |ShownAmong(problems[..i])| < 4
      invariant response == "problems:" + Join(EntryTexts(ShownAmong(problems[..i])), ";")
    {
      var p := problems[i];
      ghost var before := ShownAmong(problems[..i]);
      assert problems[..i + 1][..i] == problems[..i];
      if Contains(p.1, "Error") || !IsValidProblem(p.0) {
        i := i + 1;
        continue;
      }
      if validCount > 0 {
        response := response + ";";
      }
      response := response + EntryText(p);
      validCount := validCount + 1;
      AppendEntry(before, p, response);
      if validCount >= 4 {
        BreakListed(problems, i + 1);
        response := response + "\r\n";
        return;
      }
      i := i + 1;
    }
    assert problems[..i] == problems;
    response := response + "\r\n";
  }

  /** One entry appended to the response text. */
  lemma AppendEntry(before: seq<Problem>, p: Problem, response: string)
    requires response == "problems:" + Join(EntryTexts(before), ";") + (if |before| > 0 then ";" else "") + EntryText(p)
    ensures response == "problems:" + Join(EntryTexts(before + [p]), ";")
  {
    assert EntryTexts(before + [p]) == EntryTexts(before) + [EntryText(p)];
    if |before| > 0 {
      JoinSnoc(EntryTexts(before), EntryText(p), ";");
    } else {
      assert EntryTexts(before + [p]) == [EntryText(p)];
    }
  }

  /** Once four entries pass, the rest of the list does not matter. */
  lemma BreakListed(problems: seq<Problem>, n: nat)
    requires n <= |problems| && |ShownAmong(problems[..n])| == 4
    ensures Listed(problems) == ShownAmong(problems[..n])
  {
    ShownAmongPrefix(problems, n);
  }

  // ---------------------------------------------------------------------------
  // handleCheckAnswer
  // ---------------------------------------------------------------------------

  /**
   * The grading: both answers evaluated and compared by qFuzzyCompare; if either
   * throws, equality after trimming and lower-casing.
   */
  predicate Graded(answer: string, expected: string, rt: Runtime)
  {
    match (Evaluate(answer, rt), Evaluate(expected, rt))
    case (Ok(a), Ok(b)) => rt.fuzzyEqual(a, b)
    case _ => ToLower(Trimmed(answer)) == ToLower(Trimmed(expected))
  }

  /** The `result:` line. */
  function ResultLine(index: int, correct: bool): string
  {
    "result:" + IntToString(index) + "|" + (if correct then "1" else "0") + "\r\n"
  }

  /** handleCheckAnswer: nothing for an index outside the list; otherwise one attempt and its result line. */
  function CheckAnswerReply(problems: seq<Problem>, index: int, answer: string, username: string, rt: Runtime): (r: (string, Option<Attempt>))
    ensures r.1.Some? <==> 0 <= index < |problems|
    ensures r.1.None? ==> r.0 == ""
    ensures r.1.Some? ==> r.1.value.username == username && r.1.value.problem == problems[index].0
                          && r.0 == ResultLine(index, r.1.value.correct)
  {
    if 0 <= index < |problems| then
      var correct := Graded(answer, problems[index].1, rt);
      (ResultLine(index, correct), Some(Attempt(username, problems[index].0, correct)))
    else ("", None)
  }

  /**
   * When either answer fails to evaluate, grading is equality up to
   * surrounding whitespace and letter case; it is then symmetric, and an
   * answer that does not evaluate matches itself.
   */
  lemma GradedFallback(answer: string, expected: string, rt: Runtime)
    requires Evaluate(answer, rt).Err? || Evaluate(expected, rt).Err?
    ensures Graded(answer, expected, rt) <==> ToLower(Trimmed(answer)) == ToLower(Trimmed(expected))
    ensures Graded(answer, expected, rt) <==> Graded(expected, answer, rt)
    ensures Evaluate(answer, rt).Err? ==> Graded(answer, answer, rt)
  {
  }

  /** Against an expected answer that does not evaluate, lower-casing the answer does not change the grade. */
  lemma GradedIgnoresCase(answer: string, expected: string, rt: Runtime)
    requires Evaluate(expected, rt).Err?
    ensures Graded(ToLower(answer), expected, rt) <==> Graded(answer, expected, rt)
  {
    ToLowerTrimmed(answer);
    ToLowerIdempotent(Trimmed(answer));
  }

  /** Against an expected answer that does not evaluate, whitespace around the answer does not change the grade. */
  lemma GradedIgnoresPadding(lead: string, answer: string, trail: string, expected: string, rt: Runtime)
    requires AllSpace(lead) && AllSpace(trail)
    requires Evaluate(expected, rt).Err?
    ensures Graded(lead + answer + trail, expected, rt) <==> Graded(answer, expected, rt)
  {
    TrimmedPadded(lead, answer, trail);
  }

  method HandleCheckAnswer(problems: seq<Problem>, index: int, answer: string, username: string, rt: Runtime)
    returns (response: string, attempt: Option<Attempt>)
    ensures (response, attempt) == CheckAnswerReply(problems, index, answer, username, rt)
  {
    if 0 <= index < |problems| {
      var isCorrect := Graded(answer, problems[index].1, rt);
      attempt := Some(Attempt(username, problems[index].0, isCorrect));
      response := ResultLine(index, isCorrect);
    } else {
      response, attempt := "", None;
    }
  }

  // ---------------------------------------------------------------------------
  // auth, reg, deleteUser, listUsers
  // ---------------------------------------------------------------------------

  const AuthFailed: string := "Authentication failed\r\n"
  const UserExists: string := "User already exists\r\n"
  const DeleteDenied: string := "Permission denied. Only admins can delete users.\r\n"
  const DeleteSelf: string := "You cannot delete yourself\r\n"
  const DeleteFailed: string := "User not found or deletion failed\r\n"
  const ListDenied: string := "Permission denied. Only admins can list users.\r\n"

  function RoleTag(admin: bool): string
  {
    if admin then "admin" else "user"
  }

  function WelcomeLine(username: string, admin: bool): string
  {
    "Authentication successful. Welcome, " + username + "! (" + RoleTag(admin) + ")\r\n"
  }

  function RegisteredLine(username: string): string
  {
    "User " + username + " registered\r\n"
  }

  function DeletedLine(username: string): string
  {
    "User " + username + " deleted\r\n"
  }

  /** One listUsers line per (name, isAdmin) pair, in order. */
  function UserLines(rows: seq<(string, bool)>): string
    decreases |rows|
  {
    if |rows| == 0 then "" else UserLines(rows[..|rows| - 1]) + UserLine(rows[|rows| - 1])
  }

  /** One `name (admin|user)` line. */
  function UserLine(row: (string, bool)): string
  {
    row.0 + " (" + RoleTag(row.1) + ")\r\n"
  }

  lemma UserLinesStep(rows: seq<(string, bool)>, i: nat)
    requires i < |rows|
    ensures UserLines(rows[..i + 1]) == UserLines(rows[..i]) + UserLine(rows[i])
  {
    assert rows[..i + 1][..i] == rows[..i];
  }

  /** auth: a welcome tagged with the role after a successful authenticateUser. */
  method Auth(store: Store, username: string, password: string, now: nat) returns (response: string)
    modifies store
    ensures var (t, ok) := Authenticated(old(store.State()), store.hash, username, password, now);
      store.State() == t && response == (if ok then WelcomeLine(username, IsUserAdmin(t, username)) else AuthFailed)
  {
    var ok := store.AuthenticateUser(username, password, now);
    if ok {
      var admin := store.IsAdmin(username);
      response := WelcomeLine(username, admin);
    } else {
      response := AuthFailed;
    }
  }

  /** reg: any failure of registerUser is reported as an existing user. */
  method Reg(store: Store, username: string, password: string, isAdmin: bool) returns (response: string)
    modifies store
    ensures var (t, ok) := Registered(old(store.State()), store.hash, username, password, isAdmin);
      store.State() == t && response == (if ok then RegisteredLine(username) else UserExists)
  {
    var ok := store.RegisterUser(username, password, isAdmin);
    response := if ok then RegisteredLine(username) else UserExists;
  }

  /** deleteUser: the admin check first, then the self check, and only then the store. */
  method DeleteUser(store: Store, username: string, currentUsername: string) returns (response: string)
    modifies store
    ensures !IsUserAdmin(old(store.State()), currentUsername) ==> response == DeleteDenied && store.State() == old(store.State())
    ensures IsUserAdmin(old(store.State()), currentUsername) && username == currentUsername ==>
      response == DeleteSelf && store.State() == old(store.State())
    ensures IsUserAdmin(old(store.State()), currentUsername) && username != currentUsername ==>
      var (t, ok) := Deleted(old(store.State()), username);
      store.State() == t && response == (if ok then DeletedLine(username) else DeleteFailed)
    ensures IsUserAdmin(old(store.State()), currentUsername) && username != currentUsername ==> response == DeletedLine(username)
  {
    var admin := store.IsAdmin(currentUsername);
    if !admin {
      return DeleteDenied;
    }
    if username == currentUsername {
      return DeleteSelf;
    }
    var ok := store.DeleteUser(username);
    response := if ok then DeletedLine(username) else DeleteFailed;
  }

  /** listUsers: refused to a non-admin; otherwise a header and one line per listed row. */
  method ListUsers(store: Store, currentUsername: string) returns (response: string, ghost rows: seq<(string, bool)>)
    ensures !IsUserAdmin(store.State(), currentUsername) ==> response == ListDenied
    ensures IsUserAdmin(store.State(), currentUsername) ==>
      && response == "Users:\r\n" + UserLines(rows)
      && (set r | r in rows) == ListRows(store.State())
      && (forall i, j :: 0 <= i < j < |rows| ==> rows[i] != rows[j])
  {
    rows := [];
    var admin := store.IsAdmin(currentUsername);
    if !admin {
      return ListDenied, rows;
    }
    var users := store.ListUsers();
    response := "Users:\r\n";
    var i := 0;
    while i < |users|
      invariant 0 <= i <= |users|
      invariant response == "Users:\r\n" + UserLines(users[..i])
    {
      UserLinesStep(users, i);
      response := response + UserLine(users[i]);
      i := i + 1;
    }
    assert users[..i] == users;
    rows := users;
  }

  // ---------------------------------------------------------------------------
  // parse
  // ---------------------------------------------------------------------------

  /** The tables, the response and the attempt after parse handles one line. */
  datatype Outcome = Outcome(tables: Tables, response: string, attempt: Option<Attempt>)

  /**
   * parse: one line, with the authenticated username for check_answer;
   * `generated` stands for DB::generateProblems. A register from the dispatcher
   * never asks for the admin role.
   */
  function Dispatched(t: Tables, hash: string -> string, command: string, username: string,
                      generated: string -> seq<Problem>, rt: Runtime): Outcome
  {
    match ParseCommand(command)
    case GetProblems(category) => Outcome(t, ProblemsResponse(generated(category)), None)
    case CheckAnswer(category, index, answer) =>
      var reply := CheckAnswerReply(generated(category), index, answer, username, rt);
      Outcome(t, reply.0, reply.1)
    case Register(name, password) =>
      var (t', ok) := Registered(t, hash, name, password, false);
      Outcome(t', if ok then RegisteredLine(name) else UserExists, None)
    case Unknown => Outcome(t, UnknownCommand, None)
  }

  method Parse(store: Store, command: string, username: string, generated: string -> seq<Problem>, rt: Runtime)
    returns (response: string, attempt: Option<Attempt>)
    modifies store
    ensures Outcome(store.State(), response, attempt) == Dispatched(old(store.State()), store.hash, command, username, generated, rt)
  {
    var parts := SplitSkipEmpty(command, " ");
    attempt := None;
    if |parts| == 0 {
      return UnknownCommand, None;
    }
    var action := ToLower(parts[0]);
    if action == "get_problems" && |parts| == 2 {
      response := HandleGetProblems(generated(parts[1]));
    } else if action == "check_answer" && |parts| == 4 {
      response, attempt := HandleCheckAnswer(generated(parts[1]), ToInt(parts[2]), parts[3], username, rt);
    } else if action == "register" && |parts| == 3 {
      response := Reg(store, parts[1], parts[2], false);
    } else {
      response := UnknownCommand;
    }
  }

  /** A get_problems line from a client is answered with the encoded list of its category. */
  lemma DispatchGetProblems(t: Tables, hash: string -> string, category: string, username: string,
                            generated: string -> seq<Problem>, rt: Runtime)
    requires Token(category)
    ensures Dispatched(t, hash, CommandLine(GetProblems(category)), username, generated, rt)
         == Outcome(t, ProblemsResponse(generated(category)), None)
  {
    ParseCommandLine(GetProblems(category));
  }

  /** A check_answer line records one attempt under the caller's name exactly when the index is in range. */
  lemma DispatchCheckAnswer(t: Tables, hash: string -> string, category: string, index: int, answer: string,
                            username: string, generated: string -> seq<Problem>, rt: Runtime)
    requires Token(category) && Token(answer) && IntMin <= index <= IntMax
    ensures var o := Dispatched(t, hash, CommandLine(CheckAnswer(category, index, answer)), username, generated, rt);
      && o.tables == t
      && (o.attempt.Some? <==> 0 <= index < |generated(category)|)
      && (o.attempt.Some? ==> o.attempt.value.username == username
                              && o.response == ResultLine(index, Graded(answer, generated(category)[index].1, rt)))
      && (o.attempt.None? ==> o.response == "")
  {
    ParseCommandLine(CheckAnswer(category, index, answer));
  }

  /** Registering through the dispatcher on seeded tables never creates an admin. */
  lemma DispatchRegisterNotAdmin(t: Tables, hash: string -> string, name: string, password: string,
                                 username: string, generated: string -> seq<Problem>, rt: Runtime)
    requires Valid(t) && "admin" in t.roles && "user" in t.roles
    requires Token(name) && Token(password) && name !in t.users
    ensures var o := Dispatched(t, hash, CommandLine(Register(name, password)), username, generated, rt);
      o.response == RegisteredLine(name) && !IsUserAdmin(o.tables, name) && HasRole(o.tables, name, "user")
  {
    ParseCommandLine(Register(name, password));
    RegisterGrantsRole(t, hash, name, password, false);
  }

  /** Only a register line can change the tables. */
  lemma DispatchReadsOnly(t: Tables, hash: string -> string, command: string, username: string,
                          generated: string -> seq<Problem>, rt: Runtime)
    requires !ParseCommand(command).Register?
    ensures Dispatched(t, hash, command, username, generated, rt).tables == t
  {
  }

  /** parse has no userstats command: even an admin who passes the gate gets "Unknown command". */
  lemma UserstatsUnknown(t: Tables, hash: string -> string, username: string, generated: string -> seq<Problem>, rt: Runtime)
    ensures Dispatched(t, hash, "userstats", username, generated, rt) == Outcome(t, UnknownCommand, None)
  {
    TokensSplit(["userstats"]);
    assert Join(["userstats"], " ") == "userstats";
  }
}
