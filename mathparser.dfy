/**
 * The expression engine of the math server: the normaliser that runs before
 * evaluation, the recursive-descent evaluator over a cursor, and the wrapper that
 * turns an evaluation into the (text, answer) pair stored with a problem.
 *
 * Every production is given twice: as a function (the specification, on which the
 * properties are proved) and as a method with the source's by-reference cursor and
 * accumulating loop, proved to compute exactly what the function states.
 */
module MathParser {
  import opened Wrappers
  import opened Text

  // ---------------------------------------------------------------------------
  // Values, functions and errors
  // ---------------------------------------------------------------------------

  /** The one-argument functions parseFactor dispatches to. */
  datatype Func = Sqrt | Cbrt | Log10 | Ln | Sin | Cos | Tan

  /**
   * What the engine takes from Qt and the C library and the model leaves
   * uninterpreted: QChar::isLetter and QChar::isDigit (Unicode character
   * classes), the functions behind each Func, QString::number(v, 'g', 10) and
   * qFuzzyCompare. Arithmetic is exact on reals.
   */
  datatype Runtime = Runtime(
    isLetter: char -> bool,
    isDigit: char -> bool,
    apply: (Func, real) -> real,
    format: real -> string,
    fuzzyEqual: (real, real) -> bool)

  /** The runtime_error each failing production throws, by its message. */
  datatype ParseError =
    | DivisionByZero                 // "Division by zero"
    | UnexpectedEnd                  // "Unexpected end of expression"
    | MismatchedParentheses          // "Mismatched parentheses"
    | FunctionCallWithoutParentheses // "Function call without parentheses"
    | MismatchedParenthesesInCall    // "Mismatched parentheses in function call"
    | UnknownFunction(name: string)  // "Unknown function: <name>"
    | InvalidNumber(token: string)   // "Invalid number: <token>"

  /** A production's value and the cursor position after it. */
  datatype Parsed = Parsed(value: real, pos: nat)

  type Step = Result<Parsed, ParseError>

  /** U+221A SQUARE ROOT and U+221B CUBE ROOT, the targets of the sqrt and cbrt aliases. */
  const SqrtSign: char := '\U{221A}'
  const CbrtSign: char := '\U{221B}'

  /** The answer text stored when evaluation throws. */
  const CalcError: string := "Error: Could not calculate"

  /** The characters parseNumber consumes after an optional leading '-'. */
  predicate IsNumberChar(rt: Runtime, c: char)
  {
    rt.isDigit(c) || c == '.'
  }

  /**
   * The classification facts the properties rely on, all true of Unicode: ASCII
   * digits are digits and not letters, lower-case ASCII letters are letters, and
   * the operator and bracket characters are neither.
   */
  predicate StandardClasses(rt: Runtime)
  {
    && (forall c :: '0' <= c <= '9' ==> rt.isDigit(c) && !rt.isLetter(c))
    && (forall c :: 'a' <= c <= 'z' ==> rt.isLetter(c))
    && (forall c :: c in "()+-*/." ==> !rt.isDigit(c) && !rt.isLetter(c))
  }

  /**
   * Further classification facts, also true of Unicode: lower-case ASCII letters
   * are not digits; the matrix punctuation and the two root signs are neither
   * letters nor digits (the root signs are mathematical symbols).
   */
  predicate SymbolClasses(rt: Runtime)
  {
    && (forall c :: 'a' <= c <= 'z' ==> !rt.isDigit(c))
    && (forall c :: c in ['[', ']', ',', SqrtSign, CbrtSign] ==> !rt.isDigit(c) && !rt.isLetter(c))
  }

  /** The names parseFactor compares a letter run with, in the order it compares them. */
  const FuncNames: seq<(string, Func)> := [
    ([SqrtSign], Sqrt), ("sqrt", Sqrt), ([CbrtSign], Cbrt), ("cbrt", Cbrt),
    ("log10", Log10), ("log", Log10), ("ln", Ln), ("sin", Sin), ("cos", Cos), ("tan", Tan)
  ]

  /** The function the first matching entry of `table` names. */
  function Lookup(name: string, table: seq<(string, Func)>): (r: Option<Func>)
    ensures r.Some? ==> exists i :: 0 <= i < |table| && table[i] == (name, r.value)
    ensures r.None? ==> forall i :: 0 <= i < |table| ==> table[i].0 != name
    decreases |table|
  {
    if |table| == 0 then None
    else if table[0].0 == name then Some(table[0].1)
    else
      var r := Lookup(name, table[1..]);
      assert r.Some? ==> table[1..][0..] == table[1..];
      r
  }

  /** The function a letter run names, as parseFactor's chain of comparisons decides. */
  function FuncNamed(name: string): Option<Func>
  {
    Lookup(name, FuncNames)
  }

  // ---------------------------------------------------------------------------
  // Number conversion
  // ---------------------------------------------------------------------------

  function Pow10(k: nat): (r: nat)
    ensures r > 0
  {
    if k == 0 then 1 else 10 * Pow10(k - 1)
  }

  /**
   * Reads b[i..] as the rest of a decimal text: `dots` dots and a digit (if
   * `seenDigit`) read so far, `mantissa` the digits read so far as one integer
   * and `fraction` how many of them followed the dot. A second dot or any other
   * character makes the text invalid; so does the absence of any digit.
   */
  function ScanDecimal(b: string, i: nat, dots: nat, seenDigit: bool, mantissa: nat, fraction: nat): Option<real>
    requires i <= |b|
    decreases |b| - i
  {
    if i == |b| then
      if seenDigit then Some(mantissa as real / Pow10(fraction) as real) else None
    else if b[i] == '.' then
      if dots >= 1 then None else ScanDecimal(b, i + 1, 1, seenDigit, mantissa, fraction)
    else if IsDigit(b[i]) then
      ScanDecimal(b, i + 1, dots, true, mantissa * 10 + DigitValue(b[i]), if dots == 1 then fraction + 1 else fraction)
    else None
  }

  /**
   * QString::toDouble on the tokens parseNumber builds (an optional '-', then
   * digits and dots): it succeeds exactly when the text after the '-' has at
   * most one '.' and at least one digit, and its value is that decimal, exactly
   * (rounding to the nearest double is not modelled). The other forms toDouble
   * accepts (exponents, a '+' sign, surrounding spaces) never reach it.
   */
  function ToDouble(tok: string): (r: Option<real>)
    ensures r.Some? ==> |tok| > 0
  {
    if |tok| > 0 && tok[0] == '-' then
      match ScanDecimal(tok, 1, 0, false, 0, 0)
      case Some(v) => Some(-v)
      case None => None
    else
      ScanDecimal(tok, 0, 0, false, 0, 0)
  }

  /** Over a run of digits, the scan accumulates the number the digits denote. */
  lemma {:induction false} ScanDigits(b: string, start: nat, i: nat, seenDigit: bool)
    requires start <= i <= |b| && AllDigits(b[start..])
    requires seenDigit <==> i > start
    ensures ScanDecimal(b, i, 0, seenDigit, DigitsValue(b[start..i]), 0) ==
              if |b| > start then Some(DigitsValue(b[start..]) as real) else None
    decreases |b| - i
  {
    if i < |b| {
      assert IsDigit(b[start..][i - start]);
      assert b[start..i + 1][..i - start] == b[start..i];
      ScanDigits(b, start, i + 1, true);
    } else {
      assert b[start..i] == b[start..];
    }
  }

  /** A run of digits converts to the number it denotes. */
  lemma ToDoubleOfDigits(tok: string)
    requires |tok| > 0 && AllDigits(tok)
    ensures ToDouble(tok) == Some(DigitsValue(tok) as real)
  {
    assert IsDigit(tok[0]);
    assert tok[0..] == tok && tok[0..0] == [];
    ScanDigits(tok, 0, 0, false);
  }

  /** A '-' followed by a run of digits converts to the negated number. */
  lemma ToDoubleOfNegatedDigits(tok: string)
    requires |tok| > 1 && tok[0] == '-' && AllDigits(tok[1..])
    ensures ToDouble(tok) == Some(-(DigitsValue(tok[1..]) as real))
  {
    assert tok[1..1] == [];
    ScanDigits(tok, 1, 1, false);
  }

  // ---------------------------------------------------------------------------
  // Scanning runs of characters
  // ---------------------------------------------------------------------------

  /** End of the run of letters starting at p (parseFactor's name scan). */
  function LetterRunEnd(s: string, p: nat, rt: Runtime): (q: nat)
    requires p <= |s|
    ensures p <= q <= |s|
    ensures forall i :: p <= i < q ==> rt.isLetter(s[i])
    ensures q == |s| || !rt.isLetter(s[q])
    decreases |s| - p
  {
    if p < |s| && rt.isLetter(s[p]) then LetterRunEnd(s, p + 1, rt) else p
  }

  /** End of the run of digits and dots starting at p (parseNumber's scan). */
  function NumberRunEnd(s: string, p: nat, rt: Runtime): (q: nat)
    requires p <= |s|
    ensures p <= q <= |s|
    ensures forall i :: p <= i < q ==> IsNumberChar(rt, s[i])
    ensures q == |s| || !IsNumberChar(rt, s[q])
    decreases |s| - p
  {
    if p < |s| && IsNumberChar(rt, s[p]) then NumberRunEnd(s, p + 1, rt) else p
  }

  // ---------------------------------------------------------------------------
  // The grammar, as functions
  // ---------------------------------------------------------------------------

  /** parseExpression: a term, then ('+'|'-') term repeatedly, folded from the left. */
  function Expr(s: string, p: nat, rt: Runtime): (r: Step)
    requires p <= |s|
    ensures r.Ok? ==> p < r.value.pos <= |s|
    decreases |s| - p, 3
  {
    match Term(s, p, rt)
    case Err(e) => Err(e)
    case Ok(t) => ExprTail(s, t.pos, t.value, rt)
  }

  /** The loop of parseExpression from cursor p with `acc` accumulated so far. */
  function ExprTail(s: string, p: nat, acc: real, rt: Runtime): (r: Step)
    requires p <= |s|
    ensures r.Ok? ==> p <= r.value.pos <= |s|
    decreases |s| - p, 0
  {
    if p < |s| && (s[p] == '+' || s[p] == '-') then
      match Term(s, p + 1, rt)
      case Err(e) => Err(e)
      case Ok(t) => ExprTail(s, t.pos, if s[p] == '+' then acc + t.value else acc - t.value, rt)
    else
      Ok(Parsed(acc, p))
  }

  /** A product and a quotient of two values. */
  function Mul(a: real, b: real): real { a * b }
  function Div(a: real, b: real): real requires b != 0.0 { a / b }

  /** parseTerm: a factor, then ('*'|'/') factor repeatedly, folded from the left. */
  function Term(s: string, p: nat, rt: Runtime): (r: Step)
    requires p <= |s|
    ensures r.Ok? ==> p < r.value.pos <= |s|
    decreases |s| - p, 2
  {
    match Factor(s, p, rt)
    case Err(e) => Err(e)
    case Ok(f) => TermTail(s, f.pos, f.value, rt)
  }

  /** The loop of parseTerm; dividing by a factor equal to 0 throws. */
  function TermTail(s: string, p: nat, acc: real, rt: Runtime): (r: Step)
    requires p <= |s|
    ensures r.Ok? ==> p <= r.value.pos <= |s|
    decreases |s| - p, 0
  {
    if p < |s| && (s[p] == '*' || s[p] == '/') then
      match Factor(s, p + 1, rt)
      case Err(e) => Err(e)
      case Ok(f) =>
        if s[p] == '*' then TermTail(s, f.pos, Mul(acc, f.value), rt)
        else if f.value == 0.0 then Err(DivisionByZero)
        else TermTail(s, f.pos, Div(acc, f.value), rt)
    else
      Ok(Parsed(acc, p))
  }

  /** parseFactor: a parenthesised expression, a function call, or a number. */
  function Factor(s: string, p: nat, rt: Runtime): (r: Step)
    requires p <= |s|
    ensures r.Ok? ==> p < r.value.pos <= |s|
    decreases |s| - p, 1
  {
    if p >= |s| then Err(UnexpectedEnd)
    else if s[p] == '(' then Parenthesised(s, p, rt)
    else if rt.isLetter(s[p]) then FunctionCall(s, p, rt)
    else Number(s, p, rt)
  }

  /** The '(' branch of parseFactor: an expression and the closing ')'. */
  function Parenthesised(s: string, p: nat, rt: Runtime): (r: Step)
    requires p < |s| && s[p] == '('
    ensures r.Ok? ==> p < r.value.pos <= |s|
    decreases |s| - p, 0
  {
    match Expr(s, p + 1, rt)
    case Err(e) => Err(e)
    case Ok(inner) =>
      if inner.pos >= |s| || s[inner.pos] != ')' then Err(MismatchedParentheses)
      else Ok(Parsed(inner.value, inner.pos + 1))
  }

  /** The letter branch of parseFactor: a name, '(', the argument, ')'; the name is looked up last. */
  function FunctionCall(s: string, p: nat, rt: Runtime): (r: Step)
    requires p < |s| && rt.isLetter(s[p])
    ensures r.Ok? ==> p < r.value.pos <= |s|
    decreases |s| - p, 0
  {
    var q := LetterRunEnd(s, p, rt);
    if q >= |s| || s[q] != '(' then Err(FunctionCallWithoutParentheses)
    else
      match Expr(s, q + 1, rt)
      case Err(e) => Err(e)
      case Ok(arg) =>
        if arg.pos >= |s| || s[arg.pos] != ')' then Err(MismatchedParenthesesInCall)
        else
          match FuncNamed(s[p..q])
          case None => Err(UnknownFunction(s[p..q]))
          case Some(f) => Ok(Parsed(rt.apply(f, arg.value), arg.pos + 1))
  }

  /**
   * parseNumber: an optional '-' and a run of digits and dots. The '-' stays in the
   * converted token and is applied a second time, so "-5" reads as 5.
   */
  function Number(s: string, p: nat, rt: Runtime): (r: Step)
    requires p < |s|
    ensures r.Ok? ==> p < r.value.pos <= |s|
  {
    var neg := s[p] == '-';
    var q := NumberRunEnd(s, if neg then p + 1 else p, rt);
    var tok := s[p..q];
    match ToDouble(tok)
    case None => Err(InvalidNumber(tok))
    case Some(v) => Ok(Parsed(if neg then -v else v, q))
  }

  /** evaluate (and evaluateExpression): parseExpression from position 0; trailing text is not checked. */
  function Evaluate(s: string, rt: Runtime): Result<real, ParseError>
  {
    match Expr(s, 0, rt)
    case Ok(pd) => Ok(pd.value)
    case Err(e) => Err(e)
  }

  // ---------------------------------------------------------------------------
  // The grammar, as the source's methods over a cursor
  // ---------------------------------------------------------------------------

  /** The method's outputs are those of the specification step `spec`. */
  predicate Agrees(spec: Step, r: Result<real, ParseError>, end: nat)
  {
    match spec
    case Ok(pd) => r == Ok(pd.value) && end == pd.pos
    case Err(e) => r == Err(e)
  }

  method ParseExpression(s: string, pos: nat, rt: Runtime) returns (r: Result<real, ParseError>, end: nat)
    requires pos <= |s|
    ensures Agrees(Expr(s, pos, rt), r, end)
    decreases |s| - pos, 3
  {
    var t;
    t, end := ParseTerm(s, pos, rt);
    if t.Err? {
      return t, end;
    }
    var result := t.value;
    while end < |s|
      invariant pos < end <= |s|
      invariant ExprTail(s, end, result, rt) == Expr(s, pos, rt)
      decreases |s| - end
    {
      var op := s[end];
      if op != '+' && op != '-' {
        break;
      }
      end := end + 1;
      var term;
      term, end := ParseTerm(s, end, rt);
      if term.Err? {
        return term, end;
      }
      if op == '+' {
        result := result + term.value;
      } else {
        result := result - term.value;
      }
    }
    return Ok(result), end;
  }

  method ParseTerm(s: string, pos: nat, rt: Runtime) returns (r: Result<real, ParseError>, end: nat)
    requires pos <= |s|
    ensures Agrees(Term(s, pos, rt), r, end)
    decreases |s| - pos, 2
  {
    var f;
    f, end := ParseFactor(s, pos, rt);
    if f.Err? {
      return f, end;
    }
    var result := f.value;
    while end < |s|
      invariant pos < end <= |s|
      invariant TermTail(s, end, result, rt) == Term(s, pos, rt)
      decreases |s| - end
    {
      var op := s[end];
      if op != '*' && op != '/' {
        break;
      }
      end := end + 1;
      var factor;
      factor, end := ParseFactor(s, end, rt);
      if factor.Err? {
        return factor, end;
      }
      if op == '*' {
        result := Mul(result, factor.value);
      } else {
        if factor.value == 0.0 {
          return Err(DivisionByZero), end;
        }
        result := Div(result, factor.value);
      }
    }
    return Ok(result), end;
  }

  method ParseFactor(s: string, pos: nat, rt: Runtime) returns (r: Result<real, ParseError>, end: nat)
    requires pos <= |s|
    ensures Agrees(Factor(s, pos, rt), r, end)
    decreases |s| - pos, 1
  {
    end := pos;
    if end >= |s| {
      return Err(UnexpectedEnd), end;
    }
    if s[end] == '(' {
      var inner;
      inner, end := ParseExpression(s, end + 1, rt);
      if inner.Err? {
        return inner, end;
      }
      if end >= |s| || s[end] != ')' {
        return Err(MismatchedParentheses), end;
      }
      return inner, end + 1;
    }
    if rt.isLetter(s[end]) {
      var start := end;
      while end < |s| && rt.isLetter(s[end])
        invariant start <= end <= |s|
        invariant LetterRunEnd(s, end, rt) == LetterRunEnd(s, start, rt)
        decreases |s| - end
      {
        end := end + 1;
      }
      var name := s[start..end];
      if end >= |s| || s[end] != '(' {
        return Err(FunctionCallWithoutParentheses), end;
      }
      var arg;
      arg, end := ParseExpression(s, end + 1, rt);
      if arg.Err? {
        return arg, end;
      }
      if end >= |s| || s[end] != ')' {
        return Err(MismatchedParenthesesInCall), end;
      }
      end := end + 1;
      var f := FuncNamed(name);
      if f.None? {
        return Err(UnknownFunction(name)), end;
      }
      return Ok(rt.apply(f.value, arg.value)), end;
    }
    r, end := ParseNumber(s, end, rt);
  }

  method ParseNumber(s: string, pos: nat, rt: Runtime) returns (r: Result<real, ParseError>, end: nat)
    requires pos < |s|
    ensures Agrees(Number(s, pos, rt), r, end)
  {
    end := pos;
    var isNegative := false;
    if s[end] == '-' {
      isNegative := true;
      end := end + 1;
    }
    ghost var digitsFrom := end;
    while end < |s| && (rt.isDigit(s[end]) || s[end] == '.')
      invariant digitsFrom <= end <= |s|
      invariant NumberRunEnd(s, end, rt) == NumberRunEnd(s, digitsFrom, rt)
      decreases |s| - end
    {
      end := end + 1;
    }
    var numStr := s[pos..end];
    var converted := ToDouble(numStr);
    if converted.None? {
      return Err(InvalidNumber(numStr)), end;
    }
    var v := converted.value;
    return Ok(if isNegative then -v else v), end;
  }

  /** evaluate: the cursor starts at 0, and whatever follows the parsed prefix is ignored. */
  method EvaluateMethod(s: string, rt: Runtime) returns (r: Result<real, ParseError>)
    ensures r == Evaluate(s, rt)
  {
    var end;
    r, end := ParseExpression(s, 0, rt);
  }

  // ---------------------------------------------------------------------------
  // simplifyMathExpression
  // ---------------------------------------------------------------------------

  /**
   * The alias table in the order a QMap iterates it, which is the sorted order of
   * its keys: cbrt, cos, ln, log, sin, sqrt, tan. Because "ln" is rewritten to
   * "log" before the "log" entry runs, "ln" ends up as "log10".
   */
  const Aliases: seq<(string, string)> := [
    ("cbrt", [CbrtSign]), ("cos", "cos"), ("ln", "log"), ("log", "log10"),
    ("sin", "sin"), ("sqrt", [SqrtSign]), ("tan", "tan")
  ]

  /** The replace-alls of `table`, first entry first. */
  function ApplyAliases(s: string, table: seq<(string, string)>): string
    requires forall i :: 0 <= i < |table| ==> |table[i].0| > 0
    decreases |table|
  {
    if |table| == 0 then s
    else ApplyAliases(ReplaceAll(s, table[0].0, table[0].1), table[1..])
  }

  /** The normaliser: spaces removed, "^" rewritten to "**", then the aliases. */
  function Simplify(s: string): string
  {
    ApplyAliases(ReplaceAll(RemoveChar(s, ' '), "^", "**"), Aliases)
  }

  method SimplifyMathExpression(input: string) returns (expr: string)
    ensures expr == Simplify(input)
  {
    expr := RemoveChar(input, ' ');
    expr := ReplaceAll(expr, "^", "**");
    ghost var afterCaret := expr;
    for i := 0 to |Aliases|
      invariant ApplyAliases(expr, Aliases[i..]) == ApplyAliases(afterCaret, Aliases)
    {
      assert Aliases[i..][1..] == Aliases[i + 1..];
      expr := ReplaceAll(expr, Aliases[i].0, Aliases[i].1);
    }
  }

  // ---------------------------------------------------------------------------
  // parseAndCalculate
  // ---------------------------------------------------------------------------

  /**
   * parseAndCalculate: the original text, and either the formatted value of the
   * simplified text or the fixed error message. What the answer is for a
   * printed expression is proved against the reference evaluator in
   * ParserFacts (CalculatePrinted, CalculateCallFree).
   */
  function ParseAndCalculate(expression: string, rt: Runtime): (r: (string, string))
    ensures r.0 == expression
  {
    match Evaluate(Simplify(expression), rt)
    case Ok(v) => (expression, rt.format(v))
    case Err(_) => (expression, CalcError)
  }
}
