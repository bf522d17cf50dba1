/**
 * The remaining problem generators of MathParser (trigonometric, integral and
 * derivative texts) and generateAdvancedProblems, which pairs each generated
 * text with the answer parseAndCalculate gives it.
 */
module Problems {
  import opened Wrappers
  import opened Text
  import opened MathParser
  import opened ParserTheory
  import opened ParserFacts
  import opened Generators
  import opened Matrices

  /** The functions generateTrigonometric draws from, in its list's order. */
  const TrigFunctions: seq<string> := ["sin", "cos", "tan"]

  /** func + "(" + a "*(x+" b ")" + ")", with a and b drawn in 1..4. */
  function Trigonometric(f: nat, a: nat, b: nat): string
    requires f < |TrigFunctions|
  {
    CallText(TrigFunctions[f], NatToString(a) + "*(x+" + NatToString(b) + ")")
  }

  /** A call of a three-letter name whose argument multiplies a digit by a bracketed sum starting with 'x'. */
  lemma TrigCallFails(s: string, rt: Runtime)
    requires StandardClasses(rt)
    requires |s| == 12 && 'a' <= s[0] <= 'z' && 'a' <= s[1] <= 'z' && 'a' <= s[2] <= 'z'
    requires s[3] == '(' && '1' <= s[4] <= '9' && s[5] == '*' && s[6] == '(' && s[7] == 'x' && s[8] == '+'
    ensures Evaluate(s, rt) == Err(FunctionCallWithoutParentheses)
  {
    assert '(' in "()+-*/." && '*' in "()+-*/." && '+' in "()+-*/.";
    assert LetterRunEnd(s, 7, rt) == 8;
    assert Factor(s, 7, rt) == Err(FunctionCallWithoutParentheses);
    assert Expr(s, 7, rt) == Err(FunctionCallWithoutParentheses);
    assert Factor(s, 6, rt) == Err(FunctionCallWithoutParentheses);
    assert NumberRunEnd(s, 4, rt) == 5;
    assert AllDigits(s[4..5]);
    ToDoubleOfDigits(s[4..5]);
    var v := DigitsValue(s[4..5]) as real;
    NumberFactor(s, 4, 5, v, rt);
    assert TermTail(s, 5, v, rt) == Err(FunctionCallWithoutParentheses);
    assert Term(s, 4, rt) == Err(FunctionCallWithoutParentheses);
    assert Expr(s, 4, rt) == Err(FunctionCallWithoutParentheses);
    assert LetterRunEnd(s, 0, rt) == 3;
    assert Factor(s, 0, rt) == Err(FunctionCallWithoutParentheses);
    FirstFactorFails(s, rt);
  }

  /** The argument generateTrigonometric writes holds none of the characters the normaliser acts on. */
  lemma TrigonometricSimplified(f: nat, a: nat, b: nat)
    requires f < |TrigFunctions|
    ensures Simplify(Trigonometric(f, a, b)) == Trigonometric(f, a, b)
  {
    var da, db := NatToString(a), NatToString(b);
    var arg := da + "*(x+" + db + ")";
    DigitsArePlain(da);
    DigitsArePlain(db);
    assert PlainArgument(arg);
    if f == 0 {
      SineUnchanged(arg);
    } else if f == 1 {
      CosineUnchanged(arg);
    } else {
      TangentUnchanged(arg);
    }
  }

  /**
   * The answer of a generated trigonometric problem is the error text: the 'x'
   * inside the argument is a letter run with no '(' after it.
   */
  lemma TrigonometricAnswer(f: nat, a: nat, b: nat, rt: Runtime)
    requires StandardClasses(rt)
    requires f < |TrigFunctions| && 1 <= a <= 4 && 1 <= b <= 4
    ensures ParseAndCalculate(Trigonometric(f, a, b), rt).1 == CalcError
  {
    var s := Trigonometric(f, a, b);
    TrigonometricSimplified(f, a, b);
    assert s == TrigFunctions[f] + "(" + [DigitChar(a)] + "*(x+" + [DigitChar(b)] + "))";
    TrigCallFails(s, rt);
  }

  // ---------------------------------------------------------------------------
  // Texts that embed a generated polynomial
  // ---------------------------------------------------------------------------

  /** "(%1)/(%2)" of a degree-2 and a degree-1 polynomial, the third algebra problem. */
  function RationalText(num: seq<nat>, den: seq<nat>): string
    requires |num| == 3 && |den| == 2
  {
    "(" + Polynomial(2, num) + ")/(" + Polynomial(1, den) + ")"
  }

  /** generateIntegral: "integral(" a degree-2 polynomial ") dx". */
  function IntegralText(coeffs: seq<nat>): string
    requires |coeffs| == 3
  {
    "integral(" + Polynomial(2, coeffs) + ") dx"
  }

  /** The second calculus problem: "derivative(" a degree-3 polynomial ")". */
  function DerivativeText(coeffs: seq<nat>): string
    requires |coeffs| == 4
  {
    "derivative(" + Polynomial(3, coeffs) + ")"
  }

  /** No space and none of the letters the alias keys start with. */
  predicate Keyless(t: string)
  {
    ' ' !in t && 'c' !in t && 'l' !in t && 's' !in t && 't' !in t
  }

  lemma PolynomialKeyless(degree: nat, coeffs: seq<nat>)
    requires |coeffs| == degree + 1
    ensures Keyless(Polynomial(degree, coeffs))
  {
    PolynomialPrefixChars(degree, coeffs, |coeffs|);
    PolynomialSymbolsKeyless(Polynomial(degree, coeffs));
  }

  /** What the '^' rewrite makes of a polynomial past its leading coefficient, and of the text after it. */
  function LeadTail(degree: nat, coeffs: seq<nat>, post: string): string
    requires |coeffs| == degree + 1
  {
    var p, d := Polynomial(degree, coeffs), NatToString(coeffs[0]);
    if |d| <= |p| then ReplaceAll(p[|d|..] + post, "^", "**") else ""
  }

  /** Past the leading coefficient of a polynomial of degree >= 1 comes an 'x', which the '^' rewrite keeps. */
  lemma LeadTailOpensX(degree: nat, coeffs: seq<nat>, post: string)
    requires degree >= 1 && |coeffs| == degree + 1
    ensures |LeadTail(degree, coeffs, post)| > 0 && LeadTail(degree, coeffs, post)[0] == 'x'
  {
    var p, d := Polynomial(degree, coeffs), NatToString(coeffs[0]);
    PolynomialLead(degree, coeffs);
    var u := p[|d|..] + post;
    assert u[0] == 'x' && !StartsWith(u, "^");
  }

  /**
   * Rewriting '^' in a text that embeds a polynomial keeps what comes before it
   * and its leading coefficient.
   */
  lemma EmbeddedPolynomial(pre: string, degree: nat, coeffs: seq<nat>, post: string)
    requires |coeffs| == degree + 1 && '^' !in pre
    ensures ReplaceAll(pre + Polynomial(degree, coeffs) + post, "^", "**") ==
            pre + NatToString(coeffs[0]) + LeadTail(degree, coeffs, post)
  {
    var p, d := Polynomial(degree, coeffs), NatToString(coeffs[0]);
    PolynomialLead(degree, coeffs);
    var w := p[|d|..];
    DigitsLack(d, '^');
    assert pre + p + post == (pre + d) + (w + post);
    ReplaceCharKeepsPrefix(pre + d, w + post, '^', "**");
  }

  /** Past the leading coefficient the rewrite keeps the polynomial and the text after it keyless. */
  lemma EmbeddedKeyless(degree: nat, coeffs: seq<nat>, post: string)
    requires |coeffs| == degree + 1 && Keyless(post)
    ensures Keyless(NatToString(coeffs[0])) && Keyless(LeadTail(degree, coeffs, post))
  {
    var p, d := Polynomial(degree, coeffs), NatToString(coeffs[0]);
    PolynomialLead(degree, coeffs);
    PolynomialKeyless(degree, coeffs);
    DigitsArePlain(d);
    var u := p[|d|..] + post;
    assert p == d + p[|d|..];
    assert Keyless(u);
    ReplaceAllChars(u, "^", "**", ' ');
    ReplaceAllChars(u, "^", "**", 'c');
    ReplaceAllChars(u, "^", "**", 'l');
    ReplaceAllChars(u, "^", "**", 's');
    ReplaceAllChars(u, "^", "**", 't');
  }

  /** The leading coefficient as a printed sum. */
  lemma CoefficientSum(n: nat, rt: Runtime)
    ensures PrintSum(SumOf(ProdOf(Lit(n)))) == NatToString(n)
    ensures EvalSum(SumOf(ProdOf(Lit(n))), rt) == Ok(n as real)
  {
    assert PrintSum(SumOf(ProdOf(Lit(n)))) == PrintProd(ProdOf(Lit(n))) == NatToString(n);
    assert EvalSum(SumOf(ProdOf(Lit(n))), rt) == EvalProd(ProdOf(Lit(n)), rt) == Ok(n as real);
  }

  /** A '(' and a number followed by an 'x': the parenthesis is not closed where the number ends. */
  lemma NumberThenLetterUnclosed(n: nat, x: string, rt: Runtime)
    requires StandardClasses(rt) && SymbolClasses(rt)
    requires |x| > 0 && x[0] == 'x'
    ensures Evaluate("(" + NatToString(n) + x, rt) == Err(MismatchedParentheses)
  {
    CoefficientSum(n, rt);
    var e := SumOf(ProdOf(Lit(n)));
    assert ("(" + PrintSum(e) + x)[1 + |PrintSum(e)|] == x[0];
    UnclosedParenthesisFails(e, x, rt);
  }

  /**
   * The rational algebra problem never evaluates: the parenthesised numerator is
   * read up to its leading coefficient, and the 'x' after it is not ')'.
   */
  lemma RationalAnswer(num: seq<nat>, den: seq<nat>, rt: Runtime)
    requires StandardClasses(rt) && SymbolClasses(rt)
    requires |num| == 3 && |den| == 2
    ensures ParseAndCalculate(RationalText(num, den), rt).1 == CalcError
  {
    var p2, p1 := Polynomial(2, num), Polynomial(1, den);
    var post := ")/(" + p1 + ")";
    var t := "(" + p2 + post;
    assert RationalText(num, den) == t;
    PolynomialKeyless(2, num);
    PolynomialKeyless(1, den);
    assert Keyless(t);
    SimplifyKeyless(t);
    EmbeddedPolynomial("(", 2, num, post);
    LeadTailOpensX(2, num, post);
    var d := NatToString(num[0]);
    var x := LeadTail(2, num, post);
    assert Simplify(t) == "(" + d + x;
    NumberThenLetterUnclosed(num[0], x, rt);
  }

  /** A table each of whose replace-alls leaves `t` as it is leaves it as it is. */
  lemma {:induction false} AliasesFixed(t: string, table: seq<(string, string)>)
    requires forall i :: 0 <= i < |table| ==> |table[i].0| > 0 && ReplaceAll(t, table[i].0, table[i].1) == t
    ensures ApplyAliases(t, table) == t
    decreases |table|
  {
    if |table| > 0 {
      AliasesFixed(t, table[1..]);
    }
  }

  /** The aliases, key by key, leave `t` alone. */
  lemma AliasesIdle(t: string)
    requires ReplaceAll(t, "cbrt", [CbrtSign]) == t && ReplaceAll(t, "cos", "cos") == t
    requires ReplaceAll(t, "ln", "log") == t && ReplaceAll(t, "log", "log10") == t
    requires ReplaceAll(t, "sin", "sin") == t && ReplaceAll(t, "sqrt", [SqrtSign]) == t
    requires ReplaceAll(t, "tan", "tan") == t
    ensures ApplyAliases(t, Aliases) == t
  {
    forall i | 0 <= i < |Aliases| ensures |Aliases[i].0| > 0 && ReplaceAll(t, Aliases[i].0, Aliases[i].1) == t {
      assert Aliases[i] in Aliases;
    }
    AliasesFixed(t, Aliases);
  }

  /** Wherever the first character of `key` occurs in `a`, `a` goes on with a character other than its second. */
  predicate KeyAvoided(a: string, key: string)
    requires |key| >= 2
  {
    forall i :: 0 <= i < |a| && a[i] == key[0] ==> i + 1 < |a| && a[i + 1] != key[1]
  }

  /** No alias key occurs in `a + b` when `b` lacks their first letters and `a` avoids every key. */
  lemma AliasesAvoided(a: string, b: string)
    requires KeyAvoided(a, "cbrt") && KeyAvoided(a, "cos") && KeyAvoided(a, "ln") && KeyAvoided(a, "log")
    requires KeyAvoided(a, "sin") && KeyAvoided(a, "sqrt") && KeyAvoided(a, "tan")
    requires 'c' !in b && 'l' !in b && 's' !in b && 't' !in b
    ensures ApplyAliases(a + b, Aliases) == a + b
  {
    KeyNowhere(a, b, "cbrt", [CbrtSign]);
    KeyNowhere(a, b, "cos", "cos");
    KeyNowhere(a, b, "ln", "log");
    KeyNowhere(a, b, "log", "log10");
    KeyNowhere(a, b, "sin", "sin");
    KeyNowhere(a, b, "sqrt", [SqrtSign]);
    KeyNowhere(a, b, "tan", "tan");
    AliasesIdle(a + b);
  }

  /** A text in which no alias key starts. */
  predicate KeysAvoided(a: string)
  {
    && KeyAvoided(a, "cbrt") && KeyAvoided(a, "cos") && KeyAvoided(a, "ln") && KeyAvoided(a, "log")
    && KeyAvoided(a, "sin") && KeyAvoided(a, "sqrt") && KeyAvoided(a, "tan")
  }

  /** In "integral(" only 'l' and 't' start alias keys, followed by '(' and 'e'. */
  lemma IntegralOpeningAvoids()
    ensures KeysAvoided("integral(")
  {
  }

  /** In "derivative(" only 't' starts an alias key, followed by 'i'. */
  lemma DerivativeOpeningAvoids()
    ensures KeysAvoided("derivative(")
  {
  }

  /** The openings "integral(" and "derivative(" followed by a text without key initials pass the aliases unchanged. */
  lemma OpeningAliases(opening: string, b: string)
    requires opening == "integral(" || opening == "derivative("
    requires 'c' !in b && 'l' !in b && 's' !in b && 't' !in b
    ensures ApplyAliases(opening + b, Aliases) == opening + b
  {
    if opening == "integral(" {
      IntegralOpeningAvoids();
    } else {
      DerivativeOpeningAvoids();
    }
    AliasesAvoided(opening, b);
  }

  /** A call whose argument is a number followed by an 'x': the call is not closed where the number ends. */
  lemma CallNumberThenLetterUnclosed(name: string, n: nat, x: string, rt: Runtime)
    requires StandardClasses(rt) && SymbolClasses(rt)
    requires |name| > 0 && forall i :: 0 <= i < |name| ==> 'a' <= name[i] <= 'z'
    requires |x| > 0 && x[0] == 'x'
    ensures Evaluate(name + "(" + NatToString(n) + x, rt) == Err(MismatchedParenthesesInCall)
  {
    CoefficientSum(n, rt);
    var e := SumOf(ProdOf(Lit(n)));
    assert (name + "(" + PrintSum(e) + x)[|name| + 1 + |PrintSum(e)|] == x[0];
    UnclosedCallFails(name, e, x, rt);
  }

  /** The only space of an integral problem is the one before "dx". */
  lemma IntegralSpaceRemoved(coeffs: seq<nat>)
    requires |coeffs| == 3
    ensures RemoveChar(IntegralText(coeffs), ' ') == "integral(" + Polynomial(2, coeffs) + ")dx"
  {
    var p := Polynomial(2, coeffs);
    var t := "integral(" + p + ") dx";
    PolynomialKeyless(2, coeffs);
    assert t == ("integral(" + p + ")") + " dx";
    RemoveCharConcat("integral(" + p + ")", " dx", ' ');
    RemoveCharAbsent("integral(" + p + ")", ' ');
    assert RemoveChar(" dx", ' ') == "dx";
  }

  /** The normaliser drops the space of " dx" and rewrites the '^'s; the name and the leading coefficient stay. */
  lemma IntegralSimplified(coeffs: seq<nat>)
    requires |coeffs| == 3
    ensures Simplify(IntegralText(coeffs)) == "integral(" + NatToString(coeffs[0]) + LeadTail(2, coeffs, ")dx")
  {
    IntegralSpaceRemoved(coeffs);
    EmbeddedPolynomial("integral(", 2, coeffs, ")dx");
    EmbeddedKeyless(2, coeffs, ")dx");
    var d, x := NatToString(coeffs[0]), LeadTail(2, coeffs, ")dx");
    assert "integral(" + d + x == "integral(" + (d + x);
    OpeningAliases("integral(", d + x);
  }

  /** A text that normalises to a call on a number followed by an 'x' has the error text as its answer. */
  lemma CallAnswer(t: string, name: string, opening: string, n: nat, x: string, rt: Runtime)
    requires StandardClasses(rt) && SymbolClasses(rt)
    requires |name| > 0 && forall i :: 0 <= i < |name| ==> 'a' <= name[i] <= 'z'
    requires opening == name + "(" && |x| > 0 && x[0] == 'x'
    requires Simplify(t) == opening + NatToString(n) + x
    ensures ParseAndCalculate(t, rt).1 == CalcError
  {
    CallNumberThenLetterUnclosed(name, n, x, rt);
  }

  /**
   * The integral problem never evaluates: "integral" is read as a call whose
   * argument stops at the 'x' after the leading coefficient, where ')' is expected.
   */
  lemma IntegralAnswer(coeffs: seq<nat>, rt: Runtime)
    requires StandardClasses(rt) && SymbolClasses(rt)
    requires |coeffs| == 3
    ensures ParseAndCalculate(IntegralText(coeffs), rt).1 == CalcError
  {
    IntegralSimplified(coeffs);
    LeadTailOpensX(2, coeffs, ")dx");
    CallAnswer(IntegralText(coeffs), "integral", "integral(", coeffs[0], LeadTail(2, coeffs, ")dx"), rt);
  }

  /** The normaliser rewrites only the '^'s of the derivative problem. */
  lemma DerivativeSimplified(coeffs: seq<nat>)
    requires |coeffs| == 4
    ensures Simplify(DerivativeText(coeffs)) == "derivative(" + NatToString(coeffs[0]) + LeadTail(3, coeffs, ")")
  {
    var p := Polynomial(3, coeffs);
    var t := "derivative(" + p + ")";
    PolynomialKeyless(3, coeffs);
    RemoveCharAbsent(t, ' ');
    EmbeddedPolynomial("derivative(", 3, coeffs, ")");
    EmbeddedKeyless(3, coeffs, ")");
    var d, x := NatToString(coeffs[0]), LeadTail(3, coeffs, ")");
    assert "derivative(" + d + x == "derivative(" + (d + x);
    OpeningAliases("derivative(", d + x);
  }

  /** The derivative problem never evaluates, for the same reason as the integral. */
  lemma DerivativeAnswer(coeffs: seq<nat>, rt: Runtime)
    requires StandardClasses(rt) && SymbolClasses(rt)
    requires |coeffs| == 4
    ensures ParseAndCalculate(DerivativeText(coeffs), rt).1 == CalcError
  {
    DerivativeSimplified(coeffs);
    LeadTailOpensX(3, coeffs, ")");
    CallAnswer(DerivativeText(coeffs), "derivative", "derivative(", coeffs[0], LeadTail(3, coeffs, ")"), rt);
  }

  /** A text of matrix symbols lacks every character the normaliser acts on. */
  lemma MatrixSymbolsPlain(t: string)
    requires Within(t, MatrixSymbols)
    ensures Keyless(t) && '^' !in t
  {
    assert forall c :: c in t ==> c in MatrixSymbols;
  }

  /**
   * A matrix problem passes the normaliser unchanged and never evaluates: its
   * first character, '[', is neither '(' nor a letter nor part of a number.
   */
  lemma MatrixAnswer(m1: seq<seq<nat>>, m2: seq<seq<nat>>, op: string, rt: Runtime)
    requires StandardClasses(rt) && SymbolClasses(rt)
    requires op in MatrixOps
    ensures Simplify(MatrixProblem(m1, m2, op)) == MatrixProblem(m1, m2, op)
    ensures ParseAndCalculate(MatrixProblem(m1, m2, op), rt).1 == CalcError
  {
    var p := MatrixProblem(m1, m2, op);
    MatrixProblemChars(m1, m2, op);
    MatrixSymbolsPlain(p);
    SimplifyKeyless(p);
    ReplaceAllFirstAbsent(p, "^", "**");
    assert p[0] == '[';
    assert '[' in ['[', ']', ',', SqrtSign, CbrtSign];
    EmptyTokenFails(p, 0, rt);
    FirstFactorFails(p, rt);
  }

  // ---------------------------------------------------------------------------
  // generateAdvancedProblems
  // ---------------------------------------------------------------------------

  /**
   * The random draws one call may take, per generator. generateIntegral also
   * draws three numbers for a text it never uses; they do not appear here.
   */
  datatype Draws = Draws(
    quadratic: seq<nat>, cubic: seq<nat>, numerator: seq<nat>, denominator: seq<nat>,
    integrand: seq<nat>, differentiated: seq<nat>,
    trigFunction: nat, trigFactor: nat, trigShift: nat,
    size: nat, left: seq<seq<nat>>, right: seq<seq<nat>>, opIndex: nat)

  /** degree + 1 coefficients, each drawn by bounded(1, 10). */
  predicate Coefficients(c: seq<nat>, degree: nat)
  {
    |c| == degree + 1 && forall i :: 0 <= i < |c| ==> 1 <= c[i] <= 9
  }

  /** Every draw within the bounds the generators draw it from. */
  predicate ValidDraws(d: Draws)
  {
    && Coefficients(d.quadratic, 2) && Coefficients(d.cubic, 3)
    && Coefficients(d.numerator, 2) && Coefficients(d.denominator, 1)
    && Coefficients(d.integrand, 2) && Coefficients(d.differentiated, 3)
    && d.trigFunction < |TrigFunctions| && 1 <= d.trigFactor <= 4 && 1 <= d.trigShift <= 4
    && 2 <= d.size <= 3 && Square(d.left, d.size) && Square(d.right, d.size)
    && EntriesInRange(d.left) && EntriesInRange(d.right) && d.opIndex < |MatrixOps|
  }

  /** The texts one category's list holds, in the order they are appended. */
  function ProblemTexts(category: string, d: Draws): seq<string>
    requires ValidDraws(d)
  {
    if category == "algebra" then
      [Polynomial(2, d.quadratic), Polynomial(3, d.cubic), RationalText(d.numerator, d.denominator)]
    else if category == "calculus" then
      [IntegralText(d.integrand), DerivativeText(d.differentiated)]
    else if category == "trigonometry" then
      [Trigonometric(d.trigFunction, d.trigFactor, d.trigShift)]
    else if category == "matrices" then
      [MatrixProblem(d.left, d.right, MatrixOps[d.opIndex])]
    else
      []
  }

  /** How many problems a category gets: 3, 2, 1 and 1 for the four known ones, none for any other. */
  function ProblemCount(category: string): nat
  {
    match category
    case "algebra" => 3
    case "calculus" => 2
    case "trigonometry" => 1
    case "matrices" => 1
    case _ => 0
  }

  /**
   * The problems of a category, each text paired with the answer
   * parseAndCalculate gives it, in generation order.
   */
  method GenerateAdvancedProblems(category: string, d: Draws, rt: Runtime) returns (problems: seq<(string, string)>)
    requires ValidDraws(d)
    ensures |problems| == ProblemCount(category) == |ProblemTexts(category, d)|
    ensures forall i :: 0 <= i < |problems| ==>
              problems[i] == (ProblemTexts(category, d)[i], ParseAndCalculate(ProblemTexts(category, d)[i], rt).1)
  {
    problems := DraftProblems(category, d);
    ghost var texts := ProblemTexts(category, d);
    for i := 0 to |problems|
      invariant |problems| == |texts|
      invariant forall j :: 0 <= j < i ==> problems[j] == (texts[j], ParseAndCalculate(texts[j], rt).1)
      invariant forall j :: i <= j < |problems| ==> problems[j] == (texts[j], "")
    {
      var result := ParseAndCalculate(problems[i].0, rt);
      problems := problems[i := (problems[i].0, result.1)];
    }
  }

  /** The first half of generateProblems: the category's texts, each with an empty answer. */
  method DraftProblems(category: string, d: Draws) returns (problems: seq<(string, string)>)
    requires ValidDraws(d)
    ensures |problems| == |ProblemTexts(category, d)|
    ensures forall i :: 0 <= i < |problems| ==> problems[i] == (ProblemTexts(category, d)[i], "")
  {
    problems := [];
    if category == "algebra" {
      var quadratic := GeneratePolynomial(2, d.quadratic);
      problems := problems + [(quadratic, "")];
      var cubic := GeneratePolynomial(3, d.cubic);
      problems := problems + [(cubic, "")];
      var numerator := GeneratePolynomial(2, d.numerator);
      var denominator := GeneratePolynomial(1, d.denominator);
      problems := problems + [("(" + numerator + ")/(" + denominator + ")", "")];
    } else if category == "calculus" {
      var integrand := GeneratePolynomial(2, d.integrand);
      problems := problems + [("integral(" + integrand + ") dx", "")];
      var differentiated := GeneratePolynomial(3, d.differentiated);
      problems := problems + [("derivative(" + differentiated + ")", "")];
    } else if category == "trigonometry" {
      problems := problems + [(Trigonometric(d.trigFunction, d.trigFactor, d.trigShift), "")];
    } else if category == "matrices" {
      var matrix := GenerateMatrixProblem(d.size, d.left, d.right, d.opIndex);
      problems := problems + [(matrix, "")];
    }
  }

  /** The answers of a category's problems, in order. */
  function Answers(category: string, d: Draws, rt: Runtime): (r: seq<string>)
    requires ValidDraws(d)
    ensures |r| == |ProblemTexts(category, d)|
  {
    var texts := ProblemTexts(category, d);
    seq(|texts|, i requires 0 <= i < |texts| => ParseAndCalculate(texts[i], rt).1)
  }

  /**
   * Only the first two algebra problems, the plain polynomials, get a numeric
   * answer (their leading coefficient); every other generated problem's answer
   * is the error text.
   */
  lemma AdvancedAnswers(category: string, d: Draws, rt: Runtime)
    requires StandardClasses(rt) && SymbolClasses(rt) && ValidDraws(d)
    ensures category == "algebra" ==>
              Answers(category, d, rt) == [rt.format(d.quadratic[0] as real), rt.format(d.cubic[0] as real), CalcError]
    ensures category != "algebra" ==> forall i :: 0 <= i < |Answers(category, d, rt)| ==> Answers(category, d, rt)[i] == CalcError
  {
    if category == "algebra" {
      AlgebraAnswers(d, rt);
    } else {
      OtherAnswers(category, d, rt);
    }
  }

  /** The two polynomials answer with their leading coefficients, the quotient with the error. */
  lemma AlgebraAnswers(d: Draws, rt: Runtime)
    requires StandardClasses(rt) && SymbolClasses(rt) && ValidDraws(d)
    ensures Answers("algebra", d, rt) == [rt.format(d.quadratic[0] as real), rt.format(d.cubic[0] as real), CalcError]
  {
    PolynomialAnswer(2, d.quadratic, rt);
    PolynomialAnswer(3, d.cubic, rt);
    RationalAnswer(d.numerator, d.denominator, rt);
  }

  /** Outside algebra every generated problem answers with the error. */
  lemma OtherAnswers(category: string, d: Draws, rt: Runtime)
    requires StandardClasses(rt) && SymbolClasses(rt) && ValidDraws(d)
    requires category != "algebra"
    ensures forall i :: 0 <= i < |Answers(category, d, rt)| ==> Answers(category, d, rt)[i] == CalcError
  {
    if category == "calculus" {
      IntegralAnswer(d.integrand, rt);
      DerivativeAnswer(d.differentiated, rt);
    } else if category == "trigonometry" {
      TrigonometricAnswer(d.trigFunction, d.trigFactor, d.trigShift, rt);
    } else if category == "matrices" {
      MatrixAnswer(d.left, d.right, MatrixOps[d.opIndex], rt);
    }
  }
}
