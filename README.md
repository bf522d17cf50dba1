# Math quiz server: a Dafny model

This project models the core of a Qt/C++ client–server program for practising
higher-school mathematics. The server keeps user accounts, roles and problems in
SQLite. It generates problems by category and computes their answers with its
own expression evaluator. It then serves the problems to clients over a
line-based TCP protocol and grades the answers they send. The desktop client
decodes the server's `problems:`, `result:` and `allstats:` lines into its
windows.

The Dafny modules follow the program's structure:

| module | models |
|---|---|
| `Wrappers`, `Text` | `Option`/`Result`, and the `QString` operations the code relies on: split (keeping or dropping empty parts), join, replace-all, remove, trim (as `QString` and as `QByteArray` trims), lower-case, `toInt`, `section(':', 1)`, counting occurrences |
| `MathParser` | `MathParser`'s recursive-descent evaluator, once as functions over a cursor position and once as the source's methods proved against them; the normaliser `simplifyMathExpression`; `parseAndCalculate` |
| `ParserTheory` | a reference grammar (sums of products of atoms). A printer and an evaluator over it, and the theorem that the parser agrees with the evaluator on every printed expression |
| `ParserFacts` | the evaluator's fixed behaviours: precedence and left folding, the doubly negated `-`, ignored trailing text, every error case, `^` becoming the unparsable `**`, and the alias chain `ln` → `log` → `log10` (and `log10` → `log1010`) |
| `Generators`, `Matrices`, `Problems` | `generatePolynomial`, `generateMatrixProblem`, `generateTrigonometric`, `generateIntegral`, `generateAdvancedProblems`, and the answers the evaluator gives the generated texts |
| `Db` | class `DB`: the tables as maps and sets, every operation as a transition, a `Store` class whose methods are proved against those transitions, and an invariant every transition keeps |
| `Dispatcher` | `FunctionsForServer`: the command tokeniser, the `problems:` encoder with its filter and four-entry limit, the whitelist validator, grading, and the account commands |
| `Server` | `MyTcpServer`'s session gate over the `clientLogins` map |
| `Tasks` | the client task windows `Task1` (with its `\r\n` line buffer), `Task3` and `Task4`, and round trips against the server's encoder |
| `Stats` | the client's `StatisticDialog`: its `allstats:` decoder, its refresh request and its singleton |

Several behaviours of the program follow from the code as written. The model
keeps them, and the lemmas below state them:

- The evaluator does not check for trailing input. A text evaluates to the value
  of its longest parsable prefix.
- A leading `-` stays in the number token and is applied again, so `-5` reads as 5.
- The normaliser rewrites `^` to `**`, which the grammar cannot parse.
- The normaliser's alias map runs in sorted key order. So `ln` becomes `log` and
  then `log10`, and `log10` becomes `log1010`. None of the logarithms evaluates.
- `sqrt` and `cbrt` become the signs √ and ∛. These are not letters, so the
  roots never evaluate either.
- Of all the generated problems, only the two plain algebra polynomials get a
  numeric answer: their leading coefficient, because evaluation stops at the
  first `x`. Every other generated answer is `Error: Could not calculate`.
- Matrix problems never pass the server's whitelist, because of their `[` and `,`.
- The server's `auth` gate splits on single spaces, keeping empty parts. A
  doubled space therefore shifts the fields.
- `userstats` passes the admin gate and then gets `Unknown command`.
- The statistics window sends `allstats`, which the server does not know, so the
  window is never filled.
- `Task3` and `Task4` compare the untrimmed `1\r\n` with `1`, so they show every
  graded answer as wrong.
- `Task1` buffers the last line of a chunk without its terminator, so a line
  arriving in a later chunk is glued onto it. With one line per chunk, which is
  how the server answers, no reply is ever processed.
- `deleteUser` succeeds for any name, since the statement runs even when no row
  matches. Deleting an unknown user is answered `User X deleted`, and the
  `User not found or deletion failed` reply is never sent.

## Model

| member | source | states |
|---|---|---|
| MathParser.Lookup | mathparser.cpp:159-166 | a name found in the table is paired with the function returned; a name not found occurs in no entry |
| MathParser.LetterRunEnd | mathparser.cpp:139-142 | the scan stops within the text, after only letters, at the first non-letter or at the end |
| MathParser.NumberRunEnd | mathparser.cpp:187-189 | the scan stops within the text, after only digits and dots, at the first other character or at the end |
| MathParser.ToDouble | mathparser.cpp:191-193 | the empty token never converts |
| MathParser.ToDoubleOfDigits | mathparser.cpp:193 | a non-empty run of digits converts to the number it denotes |
| MathParser.ToDoubleOfNegatedDigits | mathparser.cpp:193 | a '-' followed by digits converts to the negated number |
| MathParser.Expr | mathparser.cpp:72-87 | on success the cursor has advanced and stays within the text |
| MathParser.ExprTail | mathparser.cpp:75-84 | the loop never moves the cursor back or past the end |
| MathParser.Term | mathparser.cpp:95-113 | on success the cursor has advanced and stays within the text |
| MathParser.TermTail | mathparser.cpp:98-110 | the loop never moves the cursor back or past the end |
| MathParser.Factor | mathparser.cpp:121-170 | on success the cursor has advanced and stays within the text |
| MathParser.Parenthesised | mathparser.cpp:126-136 | on success the cursor is past the '(' and within the text |
| MathParser.FunctionCall | mathparser.cpp:138-167 | on success the cursor is past the name and within the text |
| MathParser.Number | mathparser.cpp:178-197 | on success the cursor has advanced and stays within the text |
| MathParser.ParseExpression | mathparser.cpp:72-87 | the method's value, error and final cursor are those of the grammar function `Expr` |
| MathParser.ParseTerm | mathparser.cpp:95-113 | the method's value, error (division by zero included) and final cursor are those of `Term` |
| MathParser.ParseFactor | mathparser.cpp:121-170 | the method's value, error and final cursor are those of `Factor` |
| MathParser.ParseNumber | mathparser.cpp:178-197 | the method's value, error and final cursor are those of `Number` |
| MathParser.EvaluateMethod | mathparser.cpp:61-64 | evaluating from cursor 0 gives `Evaluate`, whatever follows the parsed prefix |
| MathParser.SimplifyMathExpression | mathparser.cpp:40-54 | the in-place removals and replacements give `Simplify` of the input |
| MathParser.ParseAndCalculate | mathparser.cpp:15-24 | the original text is returned with the answer; what the answer is, the formatted reference value or the error text, is proved by ParserFacts.CalculatePrinted and ParserFacts.CalculateCallFree |
| ParserTheory.AtomParse | mathparser.cpp:121-170 | parseFactor reads a printed atom up to its end with the reference value or error |
| ParserTheory.NumberFactor | mathparser.cpp:178-197 | a factor that opens a number is that number, the '-' applied a second time |
| ParserTheory.LitParse | mathparser.cpp:178-197 | a printed digit run is read as its value |
| ParserTheory.NegLitParse | mathparser.cpp:178-197 | a printed '-' and digit run is read as the magnitude |
| ParserTheory.GroupParse | mathparser.cpp:126-136 | a printed parenthesised sum is read as the sum's value |
| ParserTheory.CallParse | mathparser.cpp:138-167 | a printed call is read as the function applied to its argument's value |
| ParserTheory.FuncNamedSpelling | mathparser.cpp:159-165 | each function is found under its own spelling |
| ParserTheory.ProdParse | mathparser.cpp:95-113 | parseTerm reads a printed product and continues its loop after it with the product's value |
| ParserTheory.SumParse | mathparser.cpp:72-87 | parseExpression reads a printed sum and continues its loop after it with the sum's value |
| ParserTheory.SumParsed | mathparser.cpp:72-87 | a printed sum that evaluates is parsed to its value, ending where it ends |
| ParserTheory.EvaluatePrinted | mathparser.cpp:61-64 | for every expression and every text after it that cannot continue it, the evaluator gives the reference result |
| ParserFacts.ProductBindsTighter | mathparser.cpp:95-113 | "2+3*4" evaluates to 14 |
| ParserFacts.DifferenceFoldsLeft | mathparser.cpp:75-84 | "8-2-1" evaluates to 5 |
| ParserFacts.QuotientFoldsLeft | mathparser.cpp:98-110 | "8/4/2" evaluates to 1 |
| ParserFacts.NegativeNumberNegatedTwice | mathparser.cpp:179-196 | "-n" evaluates to n |
| ParserFacts.TrailingTextIgnored | mathparser.cpp:61-64 | an expression followed by a letter evaluates as the expression alone |
| ParserFacts.FirstFactorFails | mathparser.cpp:72-73 | an error in the first factor is the evaluation's result |
| ParserFacts.FirstTermFails | mathparser.cpp:72-73 | an error in the first term is the evaluation's result |
| ParserFacts.DivisionByZeroFails | mathparser.cpp:107 | dividing by any factor whose value is 0 gives the division-by-zero error |
| ParserFacts.OperatorLastFails | mathparser.cpp:122-124 | the empty text and a sum followed by a last '+' or '-' give the unexpected-end error |
| ParserFacts.ProductOperatorLastFails | mathparser.cpp:122-124 | a product followed by a last '*' or '/' gives the unexpected-end error |
| ParserFacts.UnclosedParenthesisFails | mathparser.cpp:130-132 | a '(' whose expression is not followed by ')' gives the mismatched-parentheses error |
| ParserFacts.CallName | mathparser.cpp:138-144 | a lower-case name followed by '(' is the letter run read |
| ParserFacts.CallArgument | mathparser.cpp:146-151 | in a call-shaped text the argument is parsed up to the first character after it |
| ParserFacts.UnclosedCallFails | mathparser.cpp:153-155 | a call whose argument is not followed by ')' gives the call's mismatched-parentheses error, whatever the name |
| ParserFacts.LetterRunWithoutParenthesisFails | mathparser.cpp:146-148 | a letter run not followed by '(' gives the call-without-parentheses error |
| ParserFacts.UnknownFunctionFails | mathparser.cpp:166 | a well-formed call under an unknown name gives the unknown-function error carrying that name |
| ParserFacts.EmptyTokenFails | mathparser.cpp:169-195 | a factor starting with no '(', letter, '-', digit or '.' gives the invalid-number error for the empty token |
| ParserFacts.TwoDotsFail | mathparser.cpp:187-195 | a number with two dots gives the invalid-number error for the whole token |
| ParserFacts.DoubleStarFails | mathparser.cpp:98-103 | in parseTerm's loop "**" gives the invalid-number error |
| ParserFacts.DoubleStarNeverEvaluates | mathparser.cpp:98-103 | a product followed by "**" never evaluates |
| ParserFacts.SimplifyClean | mathparser.cpp:41-42 | the normalised text holds no space and no '^' |
| ParserFacts.PowerSimplified | mathparser.cpp:41-51 | the '^' between two digit runs becomes "**" and nothing else changes |
| ParserFacts.PowerNeverEvaluates | mathparser.cpp:15-24 | "m^n" normalises to "m**n" and its answer is the error text |
| ParserFacts.PlainUnaliased | mathparser.cpp:49-51 | no alias touches a text without the first letters of the keys |
| ParserFacts.LnPrefixBecomesLog10 | mathparser.cpp:44-51 | a leading "ln" becomes "log" and then "log10" |
| ParserFacts.LnBecomesLog10 | mathparser.cpp:44-51 | "ln(a)" normalises to "log10(a)" |
| ParserFacts.LogPrefixBecomesLog10 | mathparser.cpp:44-51 | a leading "log" becomes "log10" |
| ParserFacts.LogBecomesLog10 | mathparser.cpp:44-51 | "log(a)" normalises to "log10(a)" |
| ParserFacts.Log10BecomesLog1010 | mathparser.cpp:44-51 | "log10(a)" normalises to "log1010(a)" |
| ParserFacts.LogarithmsNeverEvaluate | mathparser.cpp:15-24 | ln, log and log10 of a number all answer with the error text |
| ParserFacts.SqrtBecomesSign | mathparser.cpp:44-51 | "sqrt(a)" normalises to "√(a)" |
| ParserFacts.CbrtBecomesSign | mathparser.cpp:44-51 | "cbrt(a)" normalises to "∛(a)" |
| ParserFacts.RootsNeverEvaluate | mathparser.cpp:15-24 | sqrt and cbrt of a number answer with the error text |
| ParserFacts.SineUnchanged | mathparser.cpp:44-51 | "sin(a)" passes the normaliser unchanged |
| ParserFacts.TangentUnchanged | mathparser.cpp:44-51 | "tan(a)" passes the normaliser unchanged |
| ParserFacts.CosineUnchanged | mathparser.cpp:44-51 | "cos(a)" passes the normaliser unchanged |
| ParserFacts.CallSurvives | mathparser.cpp:15-24 | a call that passes the normaliser unchanged answers with the formatted function value |
| ParserFacts.SineAndTangentEvaluate | mathparser.cpp:15-24 | sin and tan of a number answer with the formatted function value |
| ParserFacts.CalculatePrinted | mathparser.cpp:15-24 | for every printed expression the normaliser leaves alone, the answer is the formatted value of the independent reference evaluation, and the error text whenever that evaluation fails |
| ParserFacts.CallFreeSumPlain | mathparser.cpp:41-51 | the printed text of an expression without calls holds no space, no '^' and no initial of an alias key |
| ParserFacts.CalculateCallFree | mathparser.cpp:15-24 | every expression without function calls gets the formatted reference value, or the error text when its evaluation fails |
| Generators.GeneratePolynomial | mathparser.cpp:237-252 | the loop's text is `Polynomial` of the degree and the drawn coefficients |
| Generators.PolynomialPrefixJoin | mathparser.cpp:242-249 | with positive coefficients, the text after n rounds is the first n terms joined by '+' |
| Generators.PolynomialPrefixLead | mathparser.cpp:242-249 | the leading term opens the text after every round |
| Generators.PolynomialPrefixChars | mathparser.cpp:242-249 | the text holds only digits, 'x', '^' and '+' |
| Generators.MonomialChars | mathparser.cpp:246-248 | a term holds only digits, 'x' and '^' |
| Generators.PolynomialShape | mathparser.cpp:237-252 | with coefficients in 1..9, a degree-d polynomial is its d+1 terms, highest power first, joined by exactly d '+' signs, and splitting on '+' gives the terms back |
| Generators.PolynomialLead | mathparser.cpp:242-248 | the text is the leading coefficient followed by nothing (degree 0) or by an 'x' |
| Generators.PolynomialSimplified | mathparser.cpp:40-54 | the normalised polynomial still opens with its leading coefficient, followed by nothing or an 'x' |
| Generators.LeadingNumber | mathparser.cpp:187-196 | a number followed by nothing or an 'x' evaluates to that number |
| Generators.PolynomialAnswer | mathparser.cpp:15-24 | the answer of a generated polynomial is its formatted leading coefficient |
| Matrices.WriteEntries | mathparser.cpp:278-285 | the inner loop appends row i of each matrix, its entries separated by commas |
| Matrices.GenerateMatrixProblem | mathparser.cpp:270-298 | the problem is `[[`rows`]]`op`[[`rows`]]` of the two drawn matrices and the drawn operator |
| Matrices.MatrixProblemChars | tst_matrixgenerator.cpp:28-30 | a problem holds only digits, ',', '[', ']', '+' and '*' |
| Matrices.MatrixProblemNumbers | tst_matrixgenerator.cpp:33-41 | with entries drawn in 1..9, every number in the problem is a single digit in 1..9 |
| Matrices.RowCommas | mathparser.cpp:278-285 | a row of n entries has n - 1 commas |
| Matrices.MatrixCommas | tst_matrixgenerator.cpp:50-62 | an n-by-n matrix has n*n - 1 commas (3 for order 2, 8 for order 3) |
| Matrices.MatrixGaps | tst_matrixgenerator.cpp:50-62 | a matrix of k rows holds k - 1 occurrences of "],[" |
| Matrices.MatrixProblemBrackets | mathparser.cpp:297 | a problem opens with "[[[" and closes with "]]" |
| Problems.TrigonometricSimplified | mathparser.cpp:258-264 | a generated trigonometric problem passes the normaliser unchanged |
| Problems.TrigCallFails | mathparser.cpp:146-151 | such a call fails at the 'x' of its argument with the call-without-parentheses error |
| Problems.TrigonometricAnswer | mathparser.cpp:258-264 | the answer of a generated trigonometric problem is the error text |
| Problems.PolynomialKeyless | mathparser.cpp:237-252 | a polynomial holds no space and none of the alias keys' first letters |
| Problems.NumberThenLetterUnclosed | mathparser.cpp:126-132 | "(" and a number followed by an 'x' gives the mismatched-parentheses error |
| Problems.RationalAnswer | mathparser.cpp:211 | the answer of the generated quotient of polynomials is the error text |
| Problems.IntegralSimplified | mathparser.cpp:304-308 | the integral text normalises to "integral(" and the leading coefficient, with the space before "dx" gone |
| Problems.IntegralAnswer | mathparser.cpp:304-308 | the answer of a generated integral problem is the error text |
| Problems.DerivativeSimplified | mathparser.cpp:215 | the derivative text keeps its name and leading coefficient through the normaliser |
| Problems.DerivativeAnswer | mathparser.cpp:215 | the answer of a generated derivative problem is the error text |
| Problems.CallNumberThenLetterUnclosed | mathparser.cpp:151-155 | a call on a number followed by an 'x' gives the call's mismatched-parentheses error |
| Problems.MatrixAnswer | mathparser.cpp:270-298 | a matrix problem passes the normaliser unchanged and its answer is the error text |
| Problems.DraftProblems | mathparser.cpp:205-222 | the category's texts in append order, each with an empty answer |
| Problems.GenerateAdvancedProblems | mathparser.cpp:204-230 | 3, 2, 1 and 1 problems for algebra, calculus, trigonometry and matrices, none otherwise; each answer is parseAndCalculate's second component for its text |
| Problems.Answers | mathparser.cpp:224-227 | one answer per generated text; what each answer is (the two leading coefficients for algebra, the error text otherwise) is proved by Problems.AdvancedAnswers, and its pairing with its text by Problems.GenerateAdvancedProblems |
| Problems.AdvancedAnswers | mathparser.cpp:204-230 | algebra answers with the two leading coefficients and the error text; every other category's answers are all the error text |
| Problems.AlgebraAnswers | mathparser.cpp:208-212 | the algebra answers are the two formatted leading coefficients and the error text |
| Problems.OtherAnswers | mathparser.cpp:213-222 | every answer outside algebra is the error text |
| Db.EmptyTablesValid | db.cpp:52-72 | freshly created tables satisfy the invariant |
| Db.AssignedValid | db.cpp:214-224 | assignRole keeps the invariant |
| Db.RevokedValid | db.cpp:232-242 | revokeRole keeps the invariant |
| Db.RegisteredValid | db.cpp:121-135 | registerUser keeps the invariant |
| Db.AuthenticatedValid | db.cpp:159-178 | authenticateUser keeps the invariant |
| Db.DeletedValid | db.cpp:185-190 | deleteUser keeps the invariant |
| Db.PromotedValid | db.cpp:277-282 | promoteToAdmin keeps the invariant |
| Db.WithRoleValid | db.cpp:84-85 | inserting a seeded role keeps the invariant, adds the role and keeps every existing role id |
| Db.SeededValid | db.cpp:84-90 | seeding keeps the invariant and leaves both roles and an "admin" user |
| Db.WithProblemValid | db.cpp:322-335 | addProblem keeps the invariant |
| Db.RegisteredKeepsRoles | db.cpp:121-135 | registerUser creates no role and always leaves the user row |
| Db.RegisterTaken | db.cpp:121-129 | a taken username is refused and nothing changes |
| Db.RegisterGrantsRole | db.cpp:121-135 | on seeded tables a new user is registered with exactly the requested role |
| Db.RegisterWithoutRole | db.cpp:127-134 | without the role the user row stays, with the password's hash, though the call reports failure |
| Db.RegisterThenAuthenticate | db.cpp:159-178 | a registered password authenticates; a password with another hash does not |
| Db.AuthenticateTouchesLastLogin | db.cpp:159-178 | only that user's last_login changes, and only on success |
| Db.DeletedCannotAuthenticate | db.cpp:185-190 | a deleted user no longer authenticates |
| Db.DeleteUnknownReported | db.cpp:185-190 | deleteUser always reports success, and a name with no row leaves the tables unchanged |
| Db.ReRegisteredLosesRoles | db.cpp:185-190 | deletion keeps the user_roles rows, but the name registered again gets a fresh id and only the "user" role |
| Db.AssignIdempotent | db.cpp:214-224 | assigning twice is assigning once; it succeeds exactly for an existing user and role, which then holds |
| Db.RevokeUndoesAssign | db.cpp:214-242 | revoking a role that was not held before takes back its assignment exactly |
| Db.RevokeRemovesRole | db.cpp:232-242 | after revokeRole the role is not held; it succeeds exactly for an existing user and role, and then deletes that one (user, role) pair and changes no other row of any table; a failure changes nothing |
| Db.PromoteNeedsAdmin | db.cpp:277-282 | a non-admin changes nothing; an admin makes any existing user an admin |
| Db.ListRowsMatchRoles | db.cpp:196-206 | every user is listed, flagged admin exactly when isUserAdmin holds |
| Db.SeedIdempotent | db.cpp:84-90 | seeding seeded tables changes nothing |
| Db.SeedFresh | db.cpp:84-90 | fresh tables get exactly one user, the admin "admin", who authenticates with admin123 |
| Db.WithProblemAnswer | db.cpp:322-335 | an empty answer is computed by parseAndCalculate and refused when it starts with "Error"; a duplicate text is refused; a stored problem gets the next id and its answer |
| Db.Store.constructor | db.cpp:52-72 | a store starts from the tables the database file already holds, any that satisfy the table invariant (`EmptyTables` for a new file), since `CREATE TABLE IF NOT EXISTS` keeps existing rows |
| Db.Store.OpenDatabase | db.cpp:42-94 | no change when the file cannot be opened; otherwise the seeding |
| Db.Store.InsertRole | db.cpp:84-85 | INSERT OR IGNORE of a role name |
| Db.Store.GetUserId | db.cpp:289-298 | the id of the user, or -1 |
| Db.Store.GetRoleId | db.cpp:305-314 | the id of the role, or -1 |
| Db.Store.GetProblemId | db.cpp:142-151 | the id of the problem, or -1 |
| Db.Store.RegisterUser | db.cpp:121-135 | the new tables and the result are those of the registerUser transition |
| Db.Store.AuthenticateUser | db.cpp:159-178 | the new tables and the result are those of the authenticateUser transition |
| Db.Store.DeleteUser | db.cpp:185-190 | the new tables and the result are those of the deleteUser transition |
| Db.Store.ListUsers | db.cpp:196-206 | the rows are exactly the LEFT JOIN rows, each listed once |
| Db.Store.AssignRole | db.cpp:214-224 | the new tables and the result are those of the assignRole transition |
| Db.Store.RevokeRole | db.cpp:232-242 | the new tables and the result are those of the revokeRole transition |
| Db.Store.HasRoleOf | db.cpp:250-260 | false for an unknown user or role, else whether the pair exists |
| Db.Store.IsAdmin | db.cpp:267-269 | hasRole of "admin" |
| Db.Store.PromoteToAdmin | db.cpp:277-282 | the new tables and the result are those of the promoteToAdmin transition |
| Db.Store.AddProblem | db.cpp:322-335 | the new tables and the result are those of the addProblem transition |
| Dispatcher.ParseCommandLine | functionsforserver.cpp:23-45 | every command with well-formed tokens is read back from its line |
| Dispatcher.ParseCheckAnswerLine | functionsforserver.cpp:35-36 | a check_answer line is read back, its index through toInt |
| Dispatcher.TokensSplit | functionsforserver.cpp:24 | splitting joined tokens on spaces, empty parts dropped, gives them back |
| Dispatcher.ParseUnknown | functionsforserver.cpp:24-44 | a blank line, and a line with a token count no verb accepts, is an unknown command |
| Dispatcher.ValidProblemIsWhitelist | functionsforserver.cpp:80-88 | isValidProblem holds exactly when the text matches the whitelist; the y and z tests add nothing |
| Dispatcher.BracketInvalid | functionsforserver.cpp:82-85 | a text with '[' or ',' is never valid |
| Dispatcher.MatrixProblemInvalid | functionsforserver.cpp:80-88 | no generated matrix problem is valid |
| Dispatcher.PolynomialValid | functionsforserver.cpp:80-88 | every generated polynomial is valid |
| Dispatcher.ShownAmong | functionsforserver.cpp:57-62 | the filter keeps at most the generated problems |
| Dispatcher.ShownAmongMembers | functionsforserver.cpp:57-62 | a problem is kept exactly when it was generated and passes the filter |
| Dispatcher.ShownAmongPrefix | functionsforserver.cpp:57-68 | the problems kept from a prefix are a prefix of those kept from the whole list |
| Dispatcher.ListedProperties | functionsforserver.cpp:56-69 | at most four entries, each generated and passing the filter, in generator order; all of them when at most four pass |
| Dispatcher.ProblemsResponseFrame | functionsforserver.cpp:54-71 | the response starts with "problems:" and ends with "\r\n" |
| Dispatcher.HandleGetProblems | functionsforserver.cpp:52-73 | the loop with its early break writes the encoding of the listed entries |
| Dispatcher.BreakListed | functionsforserver.cpp:68 | once four entries pass, the rest of the list does not matter |
| Dispatcher.EntryTexts | functionsforserver.cpp:65 | one entry per problem; that the client reads these entries back as the listed problems is proved by Tasks.ServerProblemsDecoded and Tasks.ProblemsRoundTrip |
| Dispatcher.CheckAnswerReply | functionsforserver.cpp:98-118 | an index outside the list writes nothing and records nothing; otherwise one attempt for that user and problem and its result line |
| Dispatcher.GradedFallback | functionsforserver.cpp:103-111 | when either answer does not evaluate, grading is equality after trimming and lower-casing, it is symmetric, and an answer that does not evaluate matches itself |
| Dispatcher.GradedIgnoresCase | functionsforserver.cpp:108-111 | against an expected answer that does not evaluate, lower-casing the answer keeps its grade |
| Dispatcher.GradedIgnoresPadding | functionsforserver.cpp:108-111 | against an expected answer that does not evaluate, whitespace around the answer keeps its grade |
| Dispatcher.HandleCheckAnswer | functionsforserver.cpp:98-118 | the reply and the attempt are `CheckAnswerReply` |
| Dispatcher.UserLinesStep | functionsforserver.cpp:190-192 | each listed row adds its own line, in order |
| Dispatcher.Auth | functionsforserver.cpp:126-134 | the authenticateUser transition, and a welcome tagged admin or user on success, else the failure reply |
| Dispatcher.Reg | functionsforserver.cpp:143-149 | the registerUser transition, and the registered reply on success, "User already exists" on any failure |
| Dispatcher.DeleteUser | functionsforserver.cpp:157-173 | a non-admin is denied and nothing changes; an admin naming themself is refused and nothing changes; only then is the user deleted, and the reply is always `User X deleted` |
| Dispatcher.ListUsers | functionsforserver.cpp:182-194 | a non-admin is denied; otherwise "Users:" and one line per listed row, the rows being exactly the LEFT JOIN rows |
| Dispatcher.Parse | functionsforserver.cpp:23-45 | the tables, reply and attempt after one line are `Dispatched` |
| Dispatcher.DispatchGetProblems | functionsforserver.cpp:32-33 | a get_problems line is answered with the encoding of its category's problems and changes nothing |
| Dispatcher.DispatchCheckAnswer | functionsforserver.cpp:35-36 | a check_answer line records one attempt under the caller exactly when the index is in range, with the graded result line |
| Dispatcher.DispatchRegisterNotAdmin | functionsforserver.cpp:38-39 | registering a new name through the dispatcher never creates an admin |
| Dispatcher.DispatchReadsOnly | functionsforserver.cpp:23-45 | only a register line changes the tables |
| Dispatcher.UserstatsUnknown | functionsforserver.cpp:42-44 | "userstats" is an unknown command |
| Server.TcpServer.constructor | mytcpserver.h:74 | no connection is bound at start |
| Server.TcpServer.SlotServerRead | mytcpserver.cpp:99-140 | the bindings, tables, reply and attempt after a read are `Serve` of the byte-trimmed chunk, with DB::isAdmin and DB::generateProblems as they answer at that read |
| Server.TcpServer.SlotClientDisconnected | mytcpserver.cpp:148-155 | only that connection's binding is removed |
| Server.AuthBinds | mytcpserver.cpp:110-123 | a successful auth binds the connection to the name, replacing an earlier binding; a failed one binds nothing; neither is dispatched |
| Server.AuthRoute | mytcpserver.cpp:104-113 | an auth line with two clean tokens is routed to authentication with them |
| Server.AuthKeepsWideSpace | mytcpserver.cpp:104-113 | whitespace outside ASCII at the end of an auth line survives the byte trim and stays in the password |
| Text.AsciiTrimKeepsWideSpace | mytcpserver.cpp:104 | the byte trim keeps a final non-ASCII space such as U+00A0, which QString::trimmed removes |
| Server.UnboundPrompted | mytcpserver.cpp:126-129 | on an unbound connection every line but auth, register included, gets the prompt and changes nothing |
| Server.UserstatsRefused | mytcpserver.cpp:132-137 | userstats from a bound non-admin is refused and not dispatched |
| Server.UserstatsFromAdmin | mytcpserver.cpp:132-139 | userstats from an admin is dispatched and gets "Unknown command" |
| Server.BoundForwarded | mytcpserver.cpp:139 | any other line from a bound connection is dispatched under the bound name, bindings unchanged |
| Server.OtherBindingsKept | mytcpserver.cpp:107-139 | a read never changes another connection's binding, and only auth changes its own |
| Server.TerminatorIgnored | mytcpserver.cpp:104 | the chunk is trimmed as one command: a line with its terminator is served as the line |
| Server.AuthLineParts | mytcpserver.cpp:110 | three single-spaced parts split back into the three |
| Server.AuthDoubleSpace | mytcpserver.cpp:110-113 | with a doubled space the name checked is the empty part and the password the name |
| Tasks.Examined | Client1/task1.cpp:80-82 | at most four pieces are examined |
| Tasks.KeptFrom | Client1/task1.cpp:83-85 | no more problems are kept than pieces examined |
| Tasks.DecodeProblems | Client1/task1.cpp:79-94 | the loop keeps the pairs of the well-formed pieces among the first four and labels each from its own piece |
| Tasks.ProcessMessage | Client1/task1.cpp:74-116 | the new view is `Processed` of the old one |
| Tasks.Task1.constructor | Client1/task1.cpp:19-30 | an empty window asks for the algebra problems |
| Tasks.Task1.OnSocketReadyRead | Client1/task1.cpp:49-65 | every piece but the last is processed once, in order; the last stays in the buffer without its terminator |
| Tasks.Task1.CheckAnswer | Client1/task1.cpp:156-164 | a check_answer algebra line is written only for the index of a stored problem |
| Tasks.ChunkTask.Calculus | Client1/task4.cpp:18-30 | an empty window asks for the calculus problems |
| Tasks.ChunkTask.Trigonometry | task3.cpp:18-30 | an empty window asks for the trigonometry problems |
| Tasks.ChunkTask.OnSocketReadyRead | Client1/task4.cpp:47-92 | the whole chunk is one message, decoded like Task1's |
| Tasks.ChunkTask.CheckAnswer | Client1/task4.cpp:132-141 | a check_answer line of the window's category is written only for the index of a stored problem |
| Tasks.ProblemsBounded | Client1/task1.cpp:78-95 | a problems message keeps at most four problems and leaves the marks |
| Tasks.KeptEntries | Client1/task1.cpp:83-85 | decoding clean entries gives the pairs back |
| Tasks.LabelledEntries | Client1/task1.cpp:87-92 | label i shows the text of entry i; the other labels keep theirs |
| Tasks.ProblemsRoundTrip | Client1/task1.cpp:78-95 | a problems message of at most four clean entries decodes to exactly those problems, label i showing problem i |
| Tasks.ServerProblemsDecoded | Client1/task1.cpp:56-95 | the server's line without its terminator decodes to the listed problems |
| Tasks.ChunkProblemsDecoded | Client1/task4.cpp:49-70 | Task3 and Task4 decode the server's line with the terminator glued to the last answer |
| Tasks.EmptyChunkDecoded | Client1/task4.cpp:52-70 | a line with no entries leaves no problems |
| Tasks.FullChunkDecoded | Client1/task4.cpp:52-70 | with entries, the terminator ends the last answer |
| Tasks.ResultRoundTrip | Client1/task1.cpp:96-115 | the server's result line without its terminator sets exactly label i's mark to the grade |
| Tasks.ChunkResultAlwaysWrong | Client1/task4.cpp:72-91 | a whole result line marks label i wrong, whatever the grade |
| Tasks.MalformedPieceShiftsLabels | Client1/task1.cpp:82-93 | after a malformed piece, problem 0 is shown on label 1 and label 0 keeps its old text |
| Tasks.LastLineWaits | Client1/task1.cpp:54-64 | a chunk of one complete line processes nothing and leaves the line in the buffer |
| Tasks.SecondLineReleasesFirst | Client1/task1.cpp:54-64 | a second line in the same chunk releases the first, buffered text included |
| Tasks.CheckAnswerWriteParsed | Client1/task1.cpp:156-164 | a window's check_answer line for a stored index is read by the server as that command |
| Stats.FormatStats | Client1/statisticdialog.cpp:87-100 | the loop gives the cards of the `;;;`-records, empty records dropped |
| Stats.StatisticDialog.constructor | Client1/statisticdialog.cpp:36-50 | a new dialog holds no text and has written nothing |
| Stats.StatisticDialog.OnSocketReadyRead | Client1/statisticdialog.cpp:81-104 | only a trimmed reply opening with "allstats:" replaces the text |
| Stats.StatisticDialog.RefreshStats | Client1/statisticdialog.cpp:67-74 | the request goes out only on a connected socket |
| Stats.Dialogs.constructor | Client1/statisticdialog.cpp:20-26 | no dialog exists at start |
| Stats.Dialogs.Instance | Client1/statisticdialog.cpp:20-26 | the existing dialog, or one new dialog that becomes the instance |
| Stats.Dialogs.Destroy | Client1/statisticdialog.cpp:56-60 | the destructor resets the instance |
| Stats.FieldOfPadded | Client1/statisticdialog.cpp:95-98 | a padded "key: value" part yields the value, colons inside it kept |
| Stats.EntryOfRecord | Client1/statisticdialog.cpp:92-98 | a documented record gives the card of its row |
| Stats.RecordSplit | Client1/statisticdialog.cpp:92 | a documented record splits into its four parts |
| Stats.RecordsSplit | Client1/statisticdialog.cpp:88 | the reply's records split back into the record lines |
| Stats.FormattedRecords | Client1/statisticdialog.cpp:91-100 | one card per record, in input order |
| Stats.ReplyTrimmed | Client1/statisticdialog.cpp:83-87 | the trimmed reply is "allstats:" and its records |
| Stats.StatsRoundTrip | Client1/statisticdialog.cpp:81-104 | a reply in the documented format shows exactly the cards of its rows |
| Stats.OtherReplyIgnored | Client1/statisticdialog.cpp:85 | a chunk opening with anything but whitespace or 'a' leaves the text |
| Stats.RequestUnknownToServer | mytcpserver.cpp:126-139 | the request is answered "Unknown command", or with the prompt when unbound, and changes nothing |
| Stats.RefreshNeverAnswered | Client1/statisticdialog.cpp:67-104 | whatever the session, the server's answer to a refresh leaves the dialog's text as it was |

## Left out

- Floating point: arithmetic is exact on `real`. `sqrt`, `cbrt`, `log10`, `log`, `sin`, `cos` and `tan`, `QString::number(v, 'g', 10)` and `qFuzzyCompare` are parameters of a `Runtime` value. Rounding is not modelled.
- MathParser.ToDouble: models `QString::toDouble` only on the tokens parseNumber can build (an optional '-', then digits and dots), exactly, without rounding.
- Unicode classification: `QChar::isLetter` and `QChar::isDigit` are parameters. The lemmas state the classification facts they rely on (`StandardClasses`, `SymbolClasses`), all of which hold for Unicode.
- Randomness: the `QRandomGenerator` draws are parameters (a `Draws` record for generateAdvancedProblems). The three numbers generateIntegral draws for a text it never uses (mathparser.cpp:306) do not appear.
- `QString::arg`: the model substitutes plainly. In a chain of `arg` calls Qt substitutes each argument into the text the earlier calls produced, so a `%1`..`%99` marker inside a user-chosen name or a statistics field is replaced again by a later argument. Generated problems and numbers hold no '%'; user names and reply fields can.
- Dispatcher.Auth: the welcome line is stated by plain substitution; for a username holding a `%n` marker the source's line differs (functionsforserver.cpp:130).
- Dispatcher.UserLinesStep: each row's line is stated by plain substitution; a name holding a `%n` marker is re-substituted in the source (functionsforserver.cpp:191).
- Dispatcher.ListUsers: the user lines are `UserLines`, by plain substitution, and differ from the source's for a name holding a `%n` marker.
- Stats.FormatStats: the cards are built by plain substitution; a reply field holding a `%n` marker is re-substituted in the source (Client1/statisticdialog.cpp:94-98).
- Stats.StatisticDialog.OnSocketReadyRead: the shown cards are `Formatted`, with the same plain substitution as FormatStats.
- Stats.EntryOfRecord: a record's card is stated by plain substitution, which the source's chained `arg` matches only when no field holds a `%n` marker.
- Stats.FormattedRecords: the cards are stated by plain substitution, as for EntryOfRecord.
- Stats.StatsRoundTrip: a reply shows exactly the cards of its rows only under plain substitution; in the source a row field holding a `%n` marker is replaced again.
- Dispatcher.Parse: `QString::toLower` of the verb is modelled by `LowerChar`, which maps the ASCII, Latin-1, Greek and Cyrillic capitals; other scripts' capitals and the special mappings (such as U+0130 to two code units) are left unchanged.
- Dispatcher.GradedFallback: the lower-casing of both answers is `LowerChar` character by character, so it folds the Russian alphabet but not every Unicode capital, and the lemmas about it hold of that mapping.
- SQLite: the tables are maps and sets and each statement is assumed to succeed. Statement failures, the `user_stats` table and the foreign-key declarations (SQLite does not enforce them by default) are not modelled.
- SHA-256 password hashing (db.cpp:110-112) is an uninterpreted function.
- The rest of `addProblem` after db.cpp:335, and `DB::generateProblems`, `DB::recordAttempt` and `DB::isAdmin`, have no visible body. The generated list and `isAdmin` are parameters, passed afresh to each read, and the attempt to record is an output.
- initSampleProblems (db.cpp:92) is not part of this model; its body is not shown.
- Dispatcher.Auth: the `setProperty` calls on the socket (functionsforserver.cpp:128-129) are not modelled; the reply reads the admin flag from the tables instead.
- Sockets: each write is a returned string (server) or an appended `outbox` entry (clients). A read event is one chunk of text.
- Concurrency and signal/slot ordering are not modelled: each read is handled alone.
- The `MyTcpServer` constructor's table creation and seeding, the greeting write, and `closeDatabase` are start-up and I/O plumbing and are left out.
- The user interface: the labels are maps from label number to text and mark. The `QMessageBox` warning of refreshStats is not modelled.
- Stats.Dialogs.Instance: the dialog's parent widget and the socket are reduced to whether a socket was given.
