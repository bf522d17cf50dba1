/**
 * The behaviours of the evaluator and the normaliser as the source has them:
 * the left folds and the precedence levels, the doubled sign, the unchecked
 * trailing text, each of the fixed failure cases, the unparsable "**", and the
 * chained aliases with the root signs the parser cannot read.
 */
module ParserFacts {
  import opened Wrappers
  import opened Text
  import opened MathParser
  import opened ParserTheory

  // ---------------------------------------------------------------------------
  // Folds, signs and trailing text
  // ---------------------------------------------------------------------------

  /** The trees of "2+3*4", "8-2-1" and "8/4/2". */
  function ProductTree(): Sum
  {
    AddTo(SumOf(ProdOf(Lit(2))), Plus, MulBy(ProdOf(Lit(3)), Times, Lit(4)))
  }

  function DifferenceTree(): Sum
  {
    AddTo(AddTo(SumOf(ProdOf(Lit(8))), Minus, ProdOf(Lit(2))), Minus, ProdOf(Lit(1)))
  }

  function QuotientTree(): Sum
  {
    SumOf(MulBy(MulBy(ProdOf(Lit(8)), Divide, Lit(4)), Divide, Lit(2)))
  }

  lemma ProductTreePrinted()
    ensures PrintSum(ProductTree()) + "" == "2+3*4"
  {
    SingleDigit(2); SingleDigit(3); SingleDigit(4);
    var l := ProdOf(Lit(3));
    assert PrintProd(l) == "3" && PrintAtom(Lit(4)) == "4";
    assert PrintProd(MulBy(l, Times, Lit(4))) == "3*4";
    assert PrintSum(SumOf(ProdOf(Lit(2)))) == PrintProd(ProdOf(Lit(2))) == "2";
  }

  lemma ProductTreeValue(rt: Runtime)
    ensures EvalSum(ProductTree(), rt) == Ok(14.0)
  {
    var r := MulBy(ProdOf(Lit(3)), Times, Lit(4));
    assert EvalProd(ProdOf(Lit(3)), rt) == Ok(3.0);
    assert EvalAtom(Lit(4), rt) == Ok(4.0);
    assert EvalProd(r, rt) == Ok(12.0);
    assert EvalProd(ProdOf(Lit(2)), rt) == Ok(2.0);
    assert EvalSum(SumOf(ProdOf(Lit(2))), rt) == Ok(2.0);
  }

  /** '*' binds tighter than '+': "2+3*4" is 2 + (3 * 4). */
  lemma ProductBindsTighter(rt: Runtime)
    requires StandardClasses(rt)
    ensures Evaluate("2+3*4", rt) == Ok(14.0)
  {
    ProductTreePrinted();
    ProductTreeValue(rt);
    EvaluatePrinted(ProductTree(), "", rt);
  }

  lemma DifferenceTreePrinted()
    ensures PrintSum(DifferenceTree()) + "" == "8-2-1"
  {
    SingleDigit(1); SingleDigit(2); SingleDigit(8);
    var a := SumOf(ProdOf(Lit(8)));
    assert PrintSum(a) == PrintProd(ProdOf(Lit(8))) == "8";
    assert PrintProd(ProdOf(Lit(2))) == "2" && PrintProd(ProdOf(Lit(1))) == "1";
    assert PrintSum(AddTo(a, Minus, ProdOf(Lit(2)))) == "8-2";
  }

  lemma DifferenceTreeValue(rt: Runtime)
    ensures EvalSum(DifferenceTree(), rt) == Ok(5.0)
  {
    var a := SumOf(ProdOf(Lit(8)));
    assert EvalProd(ProdOf(Lit(8)), rt) == Ok(8.0);
    assert EvalSum(a, rt) == Ok(8.0);
    assert EvalProd(ProdOf(Lit(2)), rt) == Ok(2.0);
    assert EvalProd(ProdOf(Lit(1)), rt) == Ok(1.0);
    assert EvalSum(AddTo(a, Minus, ProdOf(Lit(2))), rt) == Ok(6.0);
  }

  /** '-' folds from the left: "8-2-1" is (8 - 2) - 1. */
  lemma DifferenceFoldsLeft(rt: Runtime)
    requires StandardClasses(rt)
    ensures Evaluate("8-2-1", rt) == Ok(5.0)
  {
    DifferenceTreePrinted();
    DifferenceTreeValue(rt);
    EvaluatePrinted(DifferenceTree(), "", rt);
  }

  lemma QuotientTreePrinted()
    ensures PrintSum(QuotientTree()) + "" == "8/4/2"
  {
    SingleDigit(2); SingleDigit(4); SingleDigit(8);
    var a := ProdOf(Lit(8));
    assert PrintProd(a) == "8" && PrintAtom(Lit(4)) == "4" && PrintAtom(Lit(2)) == "2";
    assert PrintProd(MulBy(a, Divide, Lit(4))) == "8/4";
  }

  lemma QuotientTreeValue(rt: Runtime)
    ensures EvalSum(QuotientTree(), rt) == Ok(1.0)
  {
    var a := ProdOf(Lit(8));
    var b := MulBy(a, Divide, Lit(4));
    assert EvalProd(a, rt) == Ok(8.0);
    assert EvalAtom(Lit(4), rt) == Ok(4.0);
    assert EvalAtom(Lit(2), rt) == Ok(2.0);
    assert EvalProd(b, rt) == Ok(Div(8.0, 4.0));
    assert Div(8.0, 4.0) == 2.0 && Div(2.0, 2.0) == 1.0;
  }

  /** '/' folds from the left: "8/4/2" is (8 / 4) / 2. */
  lemma QuotientFoldsLeft(rt: Runtime)
    requires StandardClasses(rt)
    ensures Evaluate("8/4/2", rt) == Ok(1.0)
  {
    QuotientTreePrinted();
    QuotientTreeValue(rt);
    EvaluatePrinted(QuotientTree(), "", rt);
  }

  /** "-5" reads as 5: the '-' stays in the converted token and is applied again. */
  lemma NegativeNumberNegatedTwice(n: nat, rt: Runtime)
    requires StandardClasses(rt)
    ensures Evaluate("-" + NatToString(n), rt) == Ok(n as real)
  {
    var e := SumOf(ProdOf(NegLit(n)));
    assert PrintAtom(NegLit(n)) == "-" + NatToString(n);
    assert PrintSum(e) == PrintProd(ProdOf(NegLit(n))) == PrintAtom(NegLit(n));
    assert PrintSum(e) + "" == "-" + NatToString(n);
    assert EvalSum(e, rt) == EvalProd(ProdOf(NegLit(n)), rt) == EvalAtom(NegLit(n), rt);
    EvaluatePrinted(e, "", rt);
  }

  /** A complete expression followed by a letter: the letter and all that follows are never read. */
  lemma TrailingTextIgnored(e: Sum, rest: string, rt: Runtime)
    requires StandardClasses(rt) && SymbolClasses(rt)
    requires |rest| > 0 && 'a' <= rest[0] <= 'z'
    ensures Evaluate(PrintSum(e) + rest, rt) == EvalSum(e, rt)
  {
    var s := PrintSum(e) + rest;
    assert s[|PrintSum(e)|] == rest[0];
    EvaluatePrinted(e, rest, rt);
  }

  // ---------------------------------------------------------------------------
  // The fixed failure cases
  // ---------------------------------------------------------------------------

  /** An error in the first factor is the result of the whole evaluation. */
  lemma FirstFactorFails(s: string, rt: Runtime)
    requires Factor(s, 0, rt).Err?
    ensures Evaluate(s, rt) == Err(Factor(s, 0, rt).error)
  {
    assert Term(s, 0, rt) == Err(Factor(s, 0, rt).error);
  }

  /** An error in the first term is the result of the whole evaluation. */
  lemma FirstTermFails(s: string, rt: Runtime)
    requires Term(s, 0, rt).Err?
    ensures Evaluate(s, rt) == Err(Term(s, 0, rt).error)
  {
    assert Expr(s, 0, rt) == Err(Term(s, 0, rt).error);
  }

  /** Dividing by a factor whose value is 0 throws, whatever the factor looks like. */
  lemma DivisionByZeroFails(e: Prod, a: Atom, rt: Runtime)
    requires StandardClasses(rt)
    requires EvalProd(e, rt).Ok? && EvalAtom(a, rt) == Ok(0.0)
    ensures Evaluate(PrintProd(e) + "/" + PrintAtom(a), rt) == Err(DivisionByZero)
  {
    var d := SumOf(MulBy(e, Divide, a));
    assert PrintSum(d) + "" == PrintProd(e) + "/" + PrintAtom(a);
    EvaluatePrinted(d, "", rt);
  }

  /** A factor asked for at the end of the input: the empty text, or '+' or '-' last. */
  lemma OperatorLastFails(e: Sum, op: char, rt: Runtime)
    requires StandardClasses(rt)
    requires EvalSum(e, rt).Ok? && (op == '+' || op == '-')
    ensures Evaluate("", rt) == Err(UnexpectedEnd)
    ensures Evaluate(PrintSum(e) + [op], rt) == Err(UnexpectedEnd)
  {
    var s := PrintSum(e) + [op];
    var q := |PrintSum(e)|;
    assert At(s, 0, PrintSum(e)) by { assert s[0..q] == PrintSum(e); }
    assert s[q] in "()+-*/.";
    SumParse(s, 0, e, rt);
    assert q + 1 == |s| && (s[q] == '+' || s[q] == '-');
    assert Term(s, q + 1, rt) == Err(UnexpectedEnd) by {
      assert Factor(s, q + 1, rt) == Err(UnexpectedEnd);
    }
    assert ExprTail(s, q, EvalSum(e, rt).value, rt) == Err(UnexpectedEnd);
  }

  /** The same with '*' or '/' after a product. */
  lemma ProductOperatorLastFails(e: Prod, op: char, rt: Runtime)
    requires StandardClasses(rt)
    requires EvalProd(e, rt).Ok? && (op == '*' || op == '/')
    ensures Evaluate(PrintProd(e) + [op], rt) == Err(UnexpectedEnd)
  {
    var s := PrintProd(e) + [op];
    var q := |PrintProd(e)|;
    assert At(s, 0, PrintProd(e)) by { assert s[0..q] == PrintProd(e); }
    assert s[q] in "()+-*/.";
    ProdParse(s, 0, e, rt);
    assert TermTail(s, q, EvalProd(e, rt).value, rt) == Err(UnexpectedEnd);
  }

  /** A '(' whose expression is not followed by ')' throws. */
  lemma UnclosedParenthesisFails(e: Sum, rest: string, rt: Runtime)
    requires StandardClasses(rt)
    requires EvalSum(e, rt).Ok?
    requires SumStop("(" + PrintSum(e) + rest, 1 + |PrintSum(e)|, rt)
    requires |rest| == 0 || rest[0] != ')'
    ensures Evaluate("(" + PrintSum(e) + rest, rt) == Err(MismatchedParentheses)
  {
    var s := "(" + PrintSum(e) + rest;
    var m := 1 + |PrintSum(e)|;
    assert At(s, 1, PrintSum(e)) by { assert s[1..m] == PrintSum(e); }
    SumParse(s, 1, e, rt);
    ExprTailStops(s, m, EvalSum(e, rt).value, rt);
    assert m < |s| ==> s[m] == rest[0];
    assert Factor(s, 0, rt) == Parenthesised(s, 0, rt) == Err(MismatchedParentheses);
    FirstFactorFails(s, rt);
  }

  /** A name of lower-case letters followed by '(' is the letter run parseFactor reads. */
  lemma CallName(s: string, name: string, rt: Runtime)
    requires StandardClasses(rt)
    requires |name| > 0 && forall i :: 0 <= i < |name| ==> 'a' <= name[i] <= 'z'
    requires |name| < |s| && s[..|name| + 1] == name + "("
    ensures rt.isLetter(s[0]) && s[0..|name|] == name
    ensures LetterRunEnd(s, 0, rt) == |name| && s[|name|] == '('
  {
    assert s[0..|name|] == (name + "(")[..|name|] == name;
    assert s[|name|] == (name + "(")[|name|];
    assert s[0] == name[0];
    LetterRunOver(s, 0, name, rt);
  }

  /**
   * Where the parts of a call-shaped text lie: the letter run ends at the '(', and
   * the argument, a printed sum, is parsed up to the first character after it.
   */
  lemma CallArgument(s: string, name: string, e: Sum, rest: string, rt: Runtime)
    requires StandardClasses(rt)
    requires EvalSum(e, rt).Ok?
    requires |name| > 0 && forall i :: 0 <= i < |name| ==> 'a' <= name[i] <= 'z'
    requires s == name + "(" + PrintSum(e) + rest
    requires SumStop(s, |name| + 1 + |PrintSum(e)|, rt)
    ensures var q := |name|;
            var m := q + 1 + |PrintSum(e)|;
            && m <= |s| && rt.isLetter(s[0]) && s[0..q] == name
            && LetterRunEnd(s, 0, rt) == q && s[q] == '('
            && Expr(s, q + 1, rt) == Ok(Parsed(EvalSum(e, rt).value, m))
            && (m < |s| ==> s[m] == rest[0])
  {
    CallTextParts(name, PrintSum(e), rest);
    CallName(s, name, rt);
    assert At(s, |name| + 1, PrintSum(e));
    SumParsed(s, |name| + 1, e, rt);
  }

  /** Where the name, the argument and the rest of a call-shaped text lie. */
  lemma CallTextParts(name: string, arg: string, rest: string)
    ensures var s := name + "(" + arg + rest;
            var m := |name| + 1 + |arg|;
            && m <= |s| && s[..|name| + 1] == name + "(" && s[|name| + 1..m] == arg
            && (m < |s| ==> s[m] == rest[0])
  {
  }

  /** A call whose argument is not followed by ')' throws, whatever the name. */
  lemma UnclosedCallFails(name: string, e: Sum, rest: string, rt: Runtime)
    requires StandardClasses(rt)
    requires EvalSum(e, rt).Ok?
    requires |name| > 0 && forall i :: 0 <= i < |name| ==> 'a' <= name[i] <= 'z'
    requires SumStop(name + "(" + PrintSum(e) + rest, |name| + 1 + |PrintSum(e)|, rt)
    requires |rest| == 0 || rest[0] != ')'
    ensures Evaluate(name + "(" + PrintSum(e) + rest, rt) == Err(MismatchedParenthesesInCall)
  {
    var s := name + "(" + PrintSum(e) + rest;
    CallArgument(s, name, e, rest, rt);
    assert Factor(s, 0, rt) == FunctionCall(s, 0, rt) == Err(MismatchedParenthesesInCall);
    FirstFactorFails(s, rt);
  }

  /** A letter run not followed by '(' throws: "x", and also "log" followed by a digit. */
  lemma LetterRunWithoutParenthesisFails(name: string, rest: string, rt: Runtime)
    requires StandardClasses(rt)
    requires |name| > 0 && forall i :: 0 <= i < |name| ==> 'a' <= name[i] <= 'z'
    requires |rest| == 0 || (!rt.isLetter(rest[0]) && rest[0] != '(')
    ensures Evaluate(name + rest, rt) == Err(FunctionCallWithoutParentheses)
  {
    var s := name + rest;
    assert At(s, 0, name) by { assert s[0..|name|] == name; }
    assert |name| < |s| ==> s[|name|] == rest[0];
    LetterRunOver(s, 0, name, rt);
    assert s[0] == name[0];
    assert Factor(s, 0, rt) == FunctionCall(s, 0, rt) == Err(FunctionCallWithoutParentheses);
    FirstFactorFails(s, rt);
  }

  /** A well-formed call under a name the chain of comparisons does not know throws. */
  lemma UnknownFunctionFails(name: string, e: Sum, rt: Runtime)
    requires StandardClasses(rt)
    requires EvalSum(e, rt).Ok?
    requires |name| > 0 && forall i :: 0 <= i < |name| ==> 'a' <= name[i] <= 'z'
    requires FuncNamed(name) == None
    ensures Evaluate(name + "(" + PrintSum(e) + ")", rt) == Err(UnknownFunction(name))
  {
    var s := name + "(" + PrintSum(e) + ")";
    CallArgument(s, name, e, ")", rt);
    assert Factor(s, 0, rt) == FunctionCall(s, 0, rt) == Err(UnknownFunction(name));
    FirstFactorFails(s, rt);
  }

  /** A factor that starts with none of '(', a letter, '-', a digit or '.' is the empty number token. */
  lemma EmptyTokenFails(s: string, p: nat, rt: Runtime)
    requires p < |s| && s[p] != '(' && s[p] != '-' && !rt.isLetter(s[p]) && !IsNumberChar(rt, s[p])
    ensures Factor(s, p, rt) == Err(InvalidNumber(""))
  {
    assert s[p..p] == "";
  }

  /** After the first '.', the scanner rejects a second one that follows only digits. */
  lemma {:induction false} ScanSecondDot(b: string, i: nat, j: nat, seen: bool, mantissa: nat, fraction: nat)
    requires i <= j < |b| && b[j] == '.' && AllDigits(b[i..j])
    ensures ScanDecimal(b, i, 1, seen, mantissa, fraction) == None
    decreases j - i
  {
    if i < j {
      assert b[i] == b[i..j][0];
      assert b[i + 1..j] == b[i..j][1..];
      ScanSecondDot(b, i + 1, j, true, mantissa * 10 + DigitValue(b[i]), fraction + 1);
    }
  }

  /** Digits, a '.', digits and another '.': the scanner gives up at the second dot. */
  lemma {:induction false} ScanTwoDots(b: string, i: nat, j: nat, k: nat, seen: bool, mantissa: nat, fraction: nat)
    requires i <= j < k < |b| && b[j] == '.' && b[k] == '.'
    requires AllDigits(b[i..j]) && AllDigits(b[j + 1..k])
    ensures ScanDecimal(b, i, 0, seen, mantissa, fraction) == None
    decreases j - i
  {
    if i < j {
      assert b[i] == b[i..j][0];
      assert b[i + 1..j] == b[i..j][1..];
      ScanTwoDots(b, i + 1, j, k, true, mantissa * 10 + DigitValue(b[i]), fraction);
    } else {
      ScanSecondDot(b, i + 1, k, seen, mantissa, fraction);
    }
  }

  /** A number run reaches the end of a text made of digits and dots. */
  lemma {:induction false} NumberRunToEnd(s: string, p: nat, rt: Runtime)
    requires StandardClasses(rt) && p <= |s|
    requires forall i :: p <= i < |s| ==> IsDigit(s[i]) || s[i] == '.'
    ensures NumberRunEnd(s, p, rt) == |s|
    decreases |s| - p
  {
    if p < |s| {
      NumberRunToEnd(s, p + 1, rt);
    }
  }

  /** A number token with two dots does not convert, and the whole token is reported. */
  lemma TwoDotsFail(d1: string, d2: string, d3: string, rt: Runtime)
    requires StandardClasses(rt)
    requires AllDigits(d1) && AllDigits(d2) && AllDigits(d3)
    ensures Evaluate(d1 + "." + d2 + "." + d3, rt) == Err(InvalidNumber(d1 + "." + d2 + "." + d3))
  {
    var s := d1 + "." + d2 + "." + d3;
    var j := |d1|;
    var k := j + 1 + |d2|;
    forall i | 0 <= i < |s| ensures IsDigit(s[i]) || s[i] == '.' {
      if i < j {
        assert s[i] == d1[i];
      } else if j < i < k {
        assert s[i] == d2[i - j - 1];
      } else if k < i {
        assert s[i] == d3[i - k - 1];
      }
    }
    NumberRunToEnd(s, 0, rt);
    assert s[0..j] == d1 && s[j + 1..k] == d2;
    ScanTwoDots(s, 0, j, k, false, 0, 0);
    assert s[0..|s|] == s;
    assert s[0] != '-' && s[0] != '(' && !rt.isLetter(s[0]);
    assert Factor(s, 0, rt) == Number(s, 0, rt) == Err(InvalidNumber(s));
    FirstFactorFails(s, rt);
  }

  // ---------------------------------------------------------------------------
  // "**": what "^" becomes
  // ---------------------------------------------------------------------------

  /** parseTerm meets "**": the second '*' starts no factor, and the empty token does not convert. */
  lemma DoubleStarFails(s: string, p: nat, acc: real, rt: Runtime)
    requires StandardClasses(rt)
    requires p + 1 < |s| && s[p] == '*' && s[p + 1] == '*'
    ensures TermTail(s, p, acc, rt) == Err(InvalidNumber(""))
  {
    assert s[p + 1] in "()+-*/.";
    EmptyTokenFails(s, p + 1, rt);
  }

  /** Any product followed by "**" does not evaluate, whatever follows. */
  lemma DoubleStarNeverEvaluates(e: Prod, rest: string, rt: Runtime)
    requires StandardClasses(rt)
    ensures Evaluate(PrintProd(e) + "**" + rest, rt).Err?
  {
    var s := PrintProd(e) + "**" + rest;
    var q := |PrintProd(e)|;
    assert At(s, 0, PrintProd(e)) by { assert s[0..q] == PrintProd(e); }
    assert s[q] == '*' && s[q + 1] == '*';
    assert s[q] in "()+-*/.";
    ProdParse(s, 0, e, rt);
    if EvalProd(e, rt).Ok? {
      DoubleStarFails(s, q, EvalProd(e, rt).value, rt);
    }
  }

  // ---------------------------------------------------------------------------
  // The normaliser
  // ---------------------------------------------------------------------------

  /** The aliases keep out a character that none of their replacements holds. */
  lemma {:induction false} AliasesKeepOut(t: string, table: seq<(string, string)>, c: char)
    requires forall i :: 0 <= i < |table| ==> |table[i].0| > 0 && c !in table[i].1
    requires c !in t
    ensures c !in ApplyAliases(t, table)
    decreases |table|
  {
    if |table| > 0 {
      ReplaceAllChars(t, table[0].0, table[0].1, c);
      AliasesKeepOut(ReplaceAll(t, table[0].0, table[0].1), table[1..], c);
    }
  }

  /** The normalised text holds no space and no '^'. */
  lemma SimplifyClean(input: string)
    ensures ' ' !in Simplify(input) && '^' !in Simplify(input)
  {
    var t := RemoveChar(input, ' ');
    ReplaceAllChars(t, "^", "**", ' ');
    ReplaceCharGone(t, '^', "**");
    var u := ReplaceAll(t, "^", "**");
    AliasesKeepOut(u, Aliases, ' ');
    AliasesKeepOut(u, Aliases, '^');
  }

  /** A replace-all that cannot change `t`: the key maps to itself, or it occurs nowhere in `t`. */
  predicate Untouched(t: string, key: string, value: string)
    requires |key| > 0
  {
    key == value || key[0] !in t || (|t| > 0 && !StartsWith(t, key) && key[0] !in t[1..])
  }

  lemma LeftUntouched(t: string, key: string, value: string)
    requires |key| > 0 && Untouched(t, key, value)
    ensures ReplaceAll(t, key, value) == t
  {
    if key == value {
      ReplaceAllSelf(t, key);
    } else if key[0] !in t {
      ReplaceAllFirstAbsent(t, key, value);
    } else {
      ReplaceAllFirstAbsent(t[1..], key, value);
      assert t == [t[0]] + t[1..];
    }
  }

  /** Aliases k..j-1 leave `t` untouched, so applying the table from k is applying it from j. */
  lemma {:induction false} AliasesSkip(t: string, k: nat, j: nat)
    requires k <= j <= |Aliases|
    requires forall i :: k <= i < j ==> Untouched(t, Aliases[i].0, Aliases[i].1)
    ensures ApplyAliases(t, Aliases[k..]) == ApplyAliases(t, Aliases[j..])
    decreases j - k
  {
    if k < j {
      LeftUntouched(t, Aliases[k].0, Aliases[k].1);
      assert Aliases[k..][1..] == Aliases[k + 1..];
      AliasesSkip(t, k + 1, j);
    }
  }

  /** Alias k applied to a text that starts with its key and holds no other occurrence of its first character. */
  lemma AliasAtStart(k: nat, rest: string)
    requires k < |Aliases| && Aliases[k].0[0] !in rest
    ensures ApplyAliases(Aliases[k].0 + rest, Aliases[k..]) ==
            ApplyAliases(Aliases[k].1 + rest, Aliases[k + 1..])
  {
    ReplaceAllAtStart(Aliases[k].0, rest, Aliases[k].1);
    ReplaceAllFirstAbsent(rest, Aliases[k].0, Aliases[k].1);
    assert Aliases[k..][1..] == Aliases[k + 1..];
  }

  /** Past the last alias nothing changes. */
  lemma AliasesDone(t: string)
    ensures ApplyAliases(t, Aliases[|Aliases|..]) == t
  {
    assert Aliases[|Aliases|..] == [];
  }

  /** Removing the spaces and rewriting '^' do nothing to a text with neither. */
  lemma SimplifyPlain(t: string)
    requires ' ' !in t && '^' !in t
    ensures Simplify(t) == ApplyAliases(t, Aliases[0..])
  {
    RemoveCharAbsent(t, ' ');
    ReplaceAllFirstAbsent(t, "^", "**");
    assert Aliases[0..] == Aliases;
  }

  /** "^" between two numbers becomes "**", and the result never evaluates. */
  lemma PowerNeverEvaluates(m: nat, n: nat, rt: Runtime)
    requires StandardClasses(rt)
    ensures Simplify(NatToString(m) + "^" + NatToString(n)) == NatToString(m) + "**" + NatToString(n)
    ensures ParseAndCalculate(NatToString(m) + "^" + NatToString(n), rt).1 == CalcError
  {
    var a, b := NatToString(m), NatToString(n);
    PowerSimplified(a, b);
    assert PrintProd(ProdOf(Lit(m))) == a;
    DoubleStarNeverEvaluates(ProdOf(Lit(m)), b, rt);
  }

  /** The normaliser turns the '^' between two digit runs into "**" and changes nothing else. */
  lemma PowerSimplified(a: string, b: string)
    requires AllDigits(a) && AllDigits(b)
    ensures Simplify(a + "^" + b) == a + "**" + b
  {
    PowerRewritten(a, b);
    DigitsArePlain(a);
    DigitsArePlain(b);
    PlainUnaliased(a + "**" + b);
  }

  lemma PowerRewritten(a: string, b: string)
    requires AllDigits(a) && AllDigits(b)
    ensures ReplaceAll(RemoveChar(a + "^" + b, ' '), "^", "**") == a + "**" + b
  {
    var t := a + "^" + b;
    DigitsLack(a, ' '); DigitsLack(b, ' '); DigitsLack(a, '^'); DigitsLack(b, '^');
    RemoveCharAbsent(t, ' ');
    assert t == a + ['^'] + b;
    ReplaceCharFirst(a, '^', b, "**");
    ReplaceAllFirstAbsent(b, "^", "**");
  }

  /** No alias touches a text without the letters their keys start with. */
  lemma PlainUnaliased(u: string)
    requires 'c' !in u && 'l' !in u && 's' !in u && 't' !in u
    ensures ApplyAliases(u, Aliases) == u
  {
    assert Aliases[0..] == Aliases;
    AliasesSkip(u, 0, |Aliases|);
    AliasesDone(u);
  }

  /** The text of a one-argument call. */
  function CallText(name: string, arg: string): string
  {
    name + "(" + arg + ")"
  }

  /** An argument the normaliser leaves alone: no space, no '^', none of the letters the alias keys start with. */
  predicate PlainArgument(arg: string)
  {
    ' ' !in arg && '^' !in arg && 'c' !in arg && 'l' !in arg && 's' !in arg && 't' !in arg
  }

  lemma DigitsArePlain(d: string)
    requires AllDigits(d)
    ensures PlainArgument(d)
  {
    DigitsLack(d, ' '); DigitsLack(d, '^'); DigitsLack(d, 'c');
    DigitsLack(d, 'l'); DigitsLack(d, 's'); DigitsLack(d, 't');
  }

  /** A call text is its name followed by the parenthesised argument, which is plain when the argument is. */
  lemma CallTextSplit(name: string, arg: string)
    requires PlainArgument(arg)
    ensures CallText(name, arg) == name + ("(" + arg + ")")
    ensures PlainArgument("(" + arg + ")")
  {
  }

  /** The first two aliases (cbrt, cos) leave a text without 'c' alone. */
  lemma FirstAliasesSkipped(t: string)
    requires 'c' !in t
    ensures ApplyAliases(t, Aliases[0..]) == ApplyAliases(t, Aliases[2..])
  {
    AliasesSkip(t, 0, 2);
  }

  /** The last three aliases (sin, sqrt, tan) leave a text without 's' and 't' alone. */
  lemma LastAliasesSkipped(t: string)
    requires 's' !in t && 't' !in t
    ensures ApplyAliases(t, Aliases[4..]) == t
  {
    AliasesSkip(t, 4, 7);
    AliasesDone(t);
  }

  /** The "ln" alias leaves alone a text that starts with "lo" and has no other 'l'. */
  lemma LnAliasSkipped(rest: string)
    requires 'l' !in rest
    ensures ApplyAliases("lo" + rest, Aliases[2..]) == ApplyAliases("lo" + rest, Aliases[3..])
  {
    var t := "lo" + rest;
    assert t[1] == 'o' && t[1..] == "o" + rest;
    AliasesSkip(t, 2, 3);
  }

  /** The alias chain: a leading "ln" becomes "log", which the next alias turns into "log10". */
  lemma LnPrefixBecomesLog10(rest: string)
    requires PlainArgument(rest)
    ensures Simplify("ln" + rest) == "log10" + rest
  {
    var t, w := "ln" + rest, "log10" + rest;
    assert Aliases[2] == ("ln", "log") && Aliases[3] == ("log", "log10");
    SimplifyPlain(t);
    FirstAliasesSkipped(t);
    AliasAtStart(2, rest);
    AliasAtStart(3, rest);
    LastAliasesSkipped(w);
  }

  /** "ln" becomes "log10". */
  lemma LnBecomesLog10(arg: string)
    requires PlainArgument(arg)
    ensures Simplify(CallText("ln", arg)) == CallText("log10", arg)
  {
    CallTextSplit("ln", arg);
    CallTextSplit("log10", arg);
    LnPrefixBecomesLog10("(" + arg + ")");
  }

  /** A leading "log" becomes "log10"; the "ln" alias before it finds no "ln". */
  lemma LogPrefixBecomesLog10(rest: string)
    requires PlainArgument(rest)
    ensures Simplify("log" + rest) == "log10" + rest
  {
    var t, w := "log" + rest, "log10" + rest;
    assert Aliases[3] == ("log", "log10");
    assert t == "lo" + ("g" + rest);
    SimplifyPlain(t);
    FirstAliasesSkipped(t);
    LnAliasSkipped("g" + rest);
    AliasAtStart(3, rest);
    LastAliasesSkipped(w);
  }

  /** "log" becomes "log10". */
  lemma LogBecomesLog10(arg: string)
    requires PlainArgument(arg)
    ensures Simplify(CallText("log", arg)) == CallText("log10", arg)
  {
    CallTextSplit("log", arg);
    CallTextSplit("log10", arg);
    LogPrefixBecomesLog10("(" + arg + ")");
  }

  /** "log10" itself starts with the key "log", so it becomes "log1010". */
  lemma Log10BecomesLog1010(arg: string)
    requires PlainArgument(arg)
    ensures Simplify(CallText("log10", arg)) == CallText("log1010", arg)
  {
    var tail := "(" + arg + ")";
    CallTextSplit("log10", arg);
    CallTextSplit("log1010", arg);
    assert PlainArgument("10" + tail);
    LogPrefixBecomesLog10("10" + tail);
    assert "log" + ("10" + tail) == "log10" + tail;
    assert "log10" + ("10" + tail) == "log1010" + tail;
  }

  /** None of the logarithm spellings a user may type evaluates once normalised. */
  lemma LogarithmsNeverEvaluate(n: nat, rt: Runtime)
    requires StandardClasses(rt)
    ensures ParseAndCalculate(CallText("ln", NatToString(n)), rt).1 == CalcError
    ensures ParseAndCalculate(CallText("log", NatToString(n)), rt).1 == CalcError
    ensures ParseAndCalculate(CallText("log10", NatToString(n)), rt).1 == CalcError
  {
    var d := NatToString(n);
    DigitsArePlain(d);
    LnBecomesLog10(d);
    LogBecomesLog10(d);
    Log10BecomesLog1010(d);
    var tail := "(" + d + ")";
    CallTextSplit("log10", d);
    CallTextSplit("log1010", d);
    assert CallText("log10", d) == "log" + ("10" + tail);
    assert CallText("log1010", d) == "log" + ("1010" + tail);
    LetterRunWithoutParenthesisFails("log", "10" + tail, rt);
    LetterRunWithoutParenthesisFails("log", "1010" + tail, rt);
  }

  /** "sqrt" becomes the square-root sign. */
  lemma SqrtBecomesSign(arg: string)
    requires PlainArgument(arg)
    ensures Simplify(CallText("sqrt", arg)) == CallText([SqrtSign], arg)
  {
    var tail := "(" + arg + ")";
    CallTextSplit("sqrt", arg);
    CallTextSplit([SqrtSign], arg);
    var t, u := "sqrt" + tail, [SqrtSign] + tail;
    assert Aliases[5] == ("sqrt", [SqrtSign]);
    SimplifyPlain(t);
    AliasesSkip(t, 0, 5);
    AliasAtStart(5, tail);
    AliasesSkip(u, 6, 7);
    AliasesDone(u);
  }

  /** "cbrt" becomes the cube-root sign. */
  lemma CbrtBecomesSign(arg: string)
    requires PlainArgument(arg)
    ensures Simplify(CallText("cbrt", arg)) == CallText([CbrtSign], arg)
  {
    var tail := "(" + arg + ")";
    CallTextSplit("cbrt", arg);
    CallTextSplit([CbrtSign], arg);
    var t, u := "cbrt" + tail, [CbrtSign] + tail;
    assert Aliases[0] == ("cbrt", [CbrtSign]);
    SimplifyPlain(t);
    AliasAtStart(0, tail);
    AliasesSkip(u, 1, 7);
    AliasesDone(u);
  }

  /** A root sign is neither '(' nor a letter nor a number character, so parseNumber reads an empty token. */
  lemma RootsNeverEvaluate(n: nat, rt: Runtime)
    requires StandardClasses(rt) && SymbolClasses(rt)
    ensures ParseAndCalculate(CallText("sqrt", NatToString(n)), rt).1 == CalcError
    ensures ParseAndCalculate(CallText("cbrt", NatToString(n)), rt).1 == CalcError
  {
    var d := NatToString(n);
    DigitsArePlain(d);
    SqrtBecomesSign(d);
    CbrtBecomesSign(d);
    var s1, s2 := CallText([SqrtSign], d), CallText([CbrtSign], d);
    assert s1[0] == SqrtSign && s2[0] == CbrtSign;
    assert SqrtSign in ['[', ']', ',', SqrtSign, CbrtSign];
    assert CbrtSign in ['[', ']', ',', SqrtSign, CbrtSign];
    EmptyTokenFails(s1, 0, rt);
    EmptyTokenFails(s2, 0, rt);
    FirstFactorFails(s1, rt);
    FirstFactorFails(s2, rt);
  }

  /** "sin" passes the normaliser unchanged: "sqrt" does not start it, and it has no other 's'. */
  lemma SineUnchanged(arg: string)
    requires PlainArgument(arg)
    ensures Simplify(CallText("sin", arg)) == CallText("sin", arg)
  {
    var tail := "(" + arg + ")";
    CallTextSplit("sin", arg);
    var t := "sin" + tail;
    assert t[1] == 'i' && t[1..] == "in" + tail;
    SimplifyPlain(t);
    AliasesSkip(t, 0, 7);
    AliasesDone(t);
  }

  /** "tan" passes the normaliser unchanged. */
  lemma TangentUnchanged(arg: string)
    requires PlainArgument(arg)
    ensures Simplify(CallText("tan", arg)) == CallText("tan", arg)
  {
    var tail := "(" + arg + ")";
    CallTextSplit("tan", arg);
    var t := "tan" + tail;
    SimplifyPlain(t);
    AliasesSkip(t, 0, 7);
    AliasesDone(t);
  }

  /** The aliases before "sqrt" leave "cos" and a plain tail alone. */
  lemma CosineFirstAliases(tail: string)
    requires PlainArgument(tail)
    ensures forall i :: 0 <= i < 5 ==> Untouched("cos" + tail, Aliases[i].0, Aliases[i].1)
  {
    var t := "cos" + tail;
    assert t[1..] == "os" + tail;
    assert Aliases[0] == ("cbrt", [CbrtSign]) && Aliases[1] == ("cos", "cos") && Aliases[4] == ("sin", "sin");
    assert Aliases[2] == ("ln", "log") && Aliases[3] == ("log", "log10");
    assert !StartsWith(t, "cbrt") by { assert t[1] == 'o'; }
    assert 'c' !in t[1..] && 'l' !in t;
  }

  /**
   * "cos" passes the normaliser unchanged: its 's' is followed by '(', so neither
   * "sin" nor "sqrt" starts there.
   */
  lemma CosineUnchanged(arg: string)
    requires PlainArgument(arg)
    ensures Simplify(CallText("cos", arg)) == CallText("cos", arg)
  {
    var tail := "(" + arg + ")";
    CallTextSplit("cos", arg);
    var t := "cos" + tail;
    assert t[1..] == "os" + tail;
    SimplifyPlain(t);
    CosineFirstAliases(tail);
    AliasesSkip(t, 0, 5);
    assert Aliases[5] == ("sqrt", [SqrtSign]);
    assert t == "cos(" + (arg + ")");
    KeyNowhere("cos(", arg + ")", "sqrt", [SqrtSign]);
    assert Aliases[5..][1..] == Aliases[6..];
    AliasesSkip(t, 6, 7);
    AliasesDone(t);
  }

  /** A call of a spelled function on a number, once past the normaliser unchanged, is that function's value. */
  lemma CallSurvives(f: Func, n: nat, rt: Runtime)
    requires StandardClasses(rt)
    requires Simplify(CallText(Spelling(f), NatToString(n))) == CallText(Spelling(f), NatToString(n))
    ensures ParseAndCalculate(CallText(Spelling(f), NatToString(n)), rt).1 == rt.format(rt.apply(f, n as real))
  {
    var d := NatToString(n);
    var arg := SumOf(ProdOf(Lit(n)));
    var a := Call(f, arg);
    var e := SumOf(ProdOf(a));
    assert PrintSum(arg) == PrintProd(ProdOf(Lit(n))) == d;
    assert PrintSum(e) == PrintProd(ProdOf(a)) == PrintAtom(a) == CallText(Spelling(f), d);
    assert EvalSum(arg, rt) == EvalProd(ProdOf(Lit(n)), rt) == Ok(n as real);
    assert EvalSum(e, rt) == EvalProd(ProdOf(a), rt) == EvalAtom(a, rt) == Ok(rt.apply(f, n as real));
    assert PrintSum(e) + "" == PrintSum(e);
    EvaluatePrinted(e, "", rt);
  }

  /** "sin" and "tan" survive the normaliser, and the call evaluates. */
  lemma SineAndTangentEvaluate(n: nat, rt: Runtime)
    requires StandardClasses(rt)
    ensures ParseAndCalculate(CallText("sin", NatToString(n)), rt).1 == rt.format(rt.apply(Sin, n as real))
    ensures ParseAndCalculate(CallText("tan", NatToString(n)), rt).1 == rt.format(rt.apply(Tan, n as real))
  {
    DigitsArePlain(NatToString(n));
    SineUnchanged(NatToString(n));
    TangentUnchanged(NatToString(n));
    assert Spelling(Sin) == "sin" && Spelling(Tan) == "tan";
    CallSurvives(Sin, n, rt);
    CallSurvives(Tan, n, rt);
  }

  // ---------------------------------------------------------------------------
  // parseAndCalculate against the reference evaluator
  // ---------------------------------------------------------------------------

  /**
   * parseAndCalculate on a printed expression the normaliser leaves alone
   * answers with the formatted reference value, or the error text exactly when
   * the reference evaluation fails.
   */
  lemma CalculatePrinted(e: Sum, rt: Runtime)
    requires StandardClasses(rt)
    requires Simplify(PrintSum(e)) == PrintSum(e)
    ensures ParseAndCalculate(PrintSum(e), rt).0 == PrintSum(e)
    ensures EvalSum(e, rt).Ok? ==> ParseAndCalculate(PrintSum(e), rt).1 == rt.format(EvalSum(e, rt).value)
    ensures EvalSum(e, rt).Err? ==> ParseAndCalculate(PrintSum(e), rt).1 == CalcError
  {
    assert PrintSum(e) + "" == PrintSum(e);
    EvaluatePrinted(e, "", rt);
  }

  /** Expressions without function calls: numbers, signs, the four operators and parentheses. */
  predicate CallFreeSum(e: Sum)
  {
    match e
    case SumOf(p) => CallFreeProd(p)
    case AddTo(l, _, r) => CallFreeSum(l) && CallFreeProd(r)
  }

  predicate CallFreeProd(e: Prod)
  {
    match e
    case ProdOf(a) => CallFreeAtom(a)
    case MulBy(l, _, a) => CallFreeProd(l) && CallFreeAtom(a)
  }

  predicate CallFreeAtom(a: Atom)
  {
    match a
    case Call(_, _) => false
    case Group(e) => CallFreeSum(e)
    case _ => true
  }

  /** The printed text of a call-free expression holds nothing the normaliser rewrites. */
  lemma {:induction false} CallFreeSumPlain(e: Sum)
    requires CallFreeSum(e)
    ensures PlainArgument(PrintSum(e))
  {
    match e
    case SumOf(p) => CallFreeProdPlain(p);
    case AddTo(l, op, r) =>
      CallFreeSumPlain(l);
      CallFreeProdPlain(r);
  }

  lemma {:induction false} CallFreeProdPlain(e: Prod)
    requires CallFreeProd(e)
    ensures PlainArgument(PrintProd(e))
  {
    match e
    case ProdOf(a) => CallFreeAtomPlain(a);
    case MulBy(l, op, a) =>
      CallFreeProdPlain(l);
      CallFreeAtomPlain(a);
  }

  lemma {:induction false} CallFreeAtomPlain(a: Atom)
    requires CallFreeAtom(a)
    ensures PlainArgument(PrintAtom(a))
  {
    match a
    case Lit(n) => DigitsArePlain(NatToString(n));
    case NegLit(n) => DigitsArePlain(NatToString(n));
    case Group(e) => CallFreeSumPlain(e);
  }

  /**
   * Every call-free expression survives the normaliser, so parseAndCalculate
   * gives its formatted reference value, or the error text when it fails
   * (division by zero).
   */
  lemma CalculateCallFree(e: Sum, rt: Runtime)
    requires StandardClasses(rt) && CallFreeSum(e)
    ensures EvalSum(e, rt).Ok? ==> ParseAndCalculate(PrintSum(e), rt).1 == rt.format(EvalSum(e, rt).value)
    ensures EvalSum(e, rt).Err? ==> ParseAndCalculate(PrintSum(e), rt).1 == CalcError
  {
    CallFreeSumPlain(e);
    SimplifyPlain(PrintSum(e));
    PlainUnaliased(PrintSum(e));
    assert Aliases[0..] == Aliases;
    CalculatePrinted(e, rt);
  }
}
