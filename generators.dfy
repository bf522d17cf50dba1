/**
 * The problem generators of the math parser: polynomial, trigonometric, matrix
 * and "integral" texts, and the per-category problem lists whose answers are
 * whatever parseAndCalculate makes of each text. Every random draw is a
 * parameter: a coefficient or matrix entry drawn from 1..9, a size from 2..3,
 * an index into a list of names or operators.
 */
module Generators {
  import opened Wrappers
  import opened Text
  import opened MathParser
  import opened ParserTheory
  import opened ParserFacts

  // ---------------------------------------------------------------------------
  // Polynomials
  // ---------------------------------------------------------------------------

  /** The term of power i with coefficient c: "cx^i" above 1, "cx" at 1, "c" below. */
  function Monomial(c: nat, i: int): string
  {
    if i > 1 then NatToString(c) + "x^" + NatToString(i)
    else if i == 1 then NatToString(c) + "x"
    else NatToString(c)
  }

  /** How many coefficients generatePolynomial draws for a degree: one per power from the degree down to 0. */
  function DrawCount(degree: int): nat
  {
    if degree >= 0 then degree + 1 else 0
  }

  /**
   * The text after n rounds of the loop: round k writes the power degree - k with
   * coefficient coeffs[k], preceded by '+' in every round but the first when the
   * coefficient is positive.
   */
  function PolynomialPrefix(degree: int, coeffs: seq<nat>, n: nat): string
    requires n <= |coeffs|
  {
    if n == 0 then ""
    else
      PolynomialPrefix(degree, coeffs, n - 1)
      + (if n - 1 > 0 && coeffs[n - 1] > 0 then "+" else "")
      + Monomial(coeffs[n - 1], degree - (n - 1))
  }

  /** generatePolynomial(degree) for the coefficient draws `coeffs`, highest power first. */
  function Polynomial(degree: int, coeffs: seq<nat>): string
    requires |coeffs| == DrawCount(degree)
  {
    PolynomialPrefix(degree, coeffs, |coeffs|)
  }

  /** The terms, highest power first: the k-th has power degree - k. */
  function PolynomialTerms(degree: int, coeffs: seq<nat>): (r: seq<string>)
    ensures |r| == |coeffs|
  {
    seq(|coeffs|, k requires 0 <= k < |coeffs| => Monomial(coeffs[k], degree - k))
  }

  method GeneratePolynomial(degree: int, coeffs: seq<nat>) returns (polynomial: string)
    requires |coeffs| == DrawCount(degree)
    ensures polynomial == Polynomial(degree, coeffs)
  {
    polynomial := "";
    var i := degree;
    var k: nat := 0;
    while i >= 0
      invariant k <= |coeffs| && i == degree - k
      invariant k < |coeffs| <==> i >= 0
      invariant polynomial == PolynomialPrefix(degree, coeffs, k)
      decreases |coeffs| - k
    {
      var coeff := coeffs[k];
      ghost var before := polynomial;
      if i < degree && coeff > 0 {
        polynomial := polynomial + "+";
      }
      ghost var signed := polynomial;
      var term: string;
      if i > 1 {
        term := NatToString(coeff) + "x^" + NatToString(i);
      } else if i == 1 {
        term := NatToString(coeff) + "x";
      } else {
        term := NatToString(coeff);
      }
      polynomial := polynomial + term;
      RoundAppends(degree, coeffs, k, before, signed, polynomial);
      i := i - 1;
      k := k + 1;
    }
  }

  /** Round k appends the optional '+' and the term of power degree - k. */
  lemma RoundAppends(degree: int, coeffs: seq<nat>, k: nat, before: string, signed: string, after: string)
    requires k < |coeffs| && before == PolynomialPrefix(degree, coeffs, k)
    requires signed == before + (if k > 0 && coeffs[k] > 0 then "+" else "")
    requires after == signed + Monomial(coeffs[k], degree - k)
    ensures after == PolynomialPrefix(degree, coeffs, k + 1)
  {
  }

  /** Every character of a term is a digit, 'x' or '^'. */
  lemma MonomialChars(c: nat, i: int)
    ensures Within(Monomial(c, i), PolynomialSymbols - {'+'})
  {
    var d := NatToString(c);
    assert Within(d, PolynomialSymbols - {'+'});
    if i > 1 {
      assert Within(NatToString(i), PolynomialSymbols - {'+'});
    }
  }

  /** The characters a polynomial text is made of. */
  const PolynomialSymbols: set<char> := {'0', '1', '2', '3', '4', '5', '6', '7', '8', '9', 'x', '^', '+'}

  /** With positive coefficients the loop's text is the terms joined by '+'. */
  lemma {:induction false} PolynomialPrefixJoin(degree: int, coeffs: seq<nat>, n: nat)
    requires 1 <= n <= |coeffs|
    requires forall k :: 0 <= k < |coeffs| ==> coeffs[k] > 0
    ensures PolynomialPrefix(degree, coeffs, n) == Join(PolynomialTerms(degree, coeffs)[..n], "+")
    decreases n
  {
    var terms := PolynomialTerms(degree, coeffs);
    if n == 1 {
      assert terms[..1] == [Monomial(coeffs[0], degree)];
      assert PolynomialPrefix(degree, coeffs, 0) == "";
    } else {
      PolynomialPrefixJoin(degree, coeffs, n - 1);
      PrefixJoinStep(degree, coeffs, n - 1, n);
    }
  }

  /** One more positive term extends both the loop's text and the joined prefix of the terms. */
  lemma PrefixJoinStep(degree: int, coeffs: seq<nat>, m: nat, n: nat)
    requires 1 <= m && n == m + 1 && n <= |coeffs| && coeffs[m] > 0
    requires PolynomialPrefix(degree, coeffs, m) == Join(PolynomialTerms(degree, coeffs)[..m], "+")
    ensures PolynomialPrefix(degree, coeffs, n) == Join(PolynomialTerms(degree, coeffs)[..n], "+")
  {
    var terms := PolynomialTerms(degree, coeffs);
    TermAt(degree, coeffs, m);
    assert PolynomialPrefix(degree, coeffs, n) == PolynomialPrefix(degree, coeffs, m) + "+" + terms[m];
    JoinPrefixSnoc(terms, n, "+");
  }

  /** The k-th term has power degree - k. */
  lemma TermAt(degree: int, coeffs: seq<nat>, k: nat)
    requires k < |coeffs|
    ensures PolynomialTerms(degree, coeffs)[k] == Monomial(coeffs[k], degree - k)
  {
  }

  /** The leading term opens every nonempty prefix of the loop's text. */
  lemma {:induction false} PolynomialPrefixLead(degree: int, coeffs: seq<nat>, n: nat)
    requires 1 <= n <= |coeffs|
    ensures StartsWith(PolynomialPrefix(degree, coeffs, n), Monomial(coeffs[0], degree))
    decreases n
  {
    var m := Monomial(coeffs[0], degree);
    if n == 1 {
      assert PolynomialPrefix(degree, coeffs, 1) == "" + "" + m;
    } else {
      PolynomialPrefixLead(degree, coeffs, n - 1);
      var p := PolynomialPrefix(degree, coeffs, n - 1);
      var q := PolynomialPrefix(degree, coeffs, n);
      assert q[..|m|] == p[..|m|];
    }
  }

  /** The loop's text holds only digits, 'x', '^' and '+'. */
  lemma {:induction false} PolynomialPrefixChars(degree: int, coeffs: seq<nat>, n: nat)
    requires n <= |coeffs|
    ensures Within(PolynomialPrefix(degree, coeffs, n), PolynomialSymbols)
    decreases n
  {
    if n > 0 {
      PolynomialPrefixChars(degree, coeffs, n - 1);
      MonomialChars(coeffs[n - 1], degree - (n - 1));
    }
  }

  /**
   * With coefficients drawn from 1..9 a polynomial of degree d is its d + 1 terms,
   * highest power first, joined by exactly d '+' signs, and splitting it on '+'
   * gives the terms back.
   */
  lemma PolynomialShape(degree: nat, coeffs: seq<nat>)
    requires |coeffs| == degree + 1
    requires forall k :: 0 <= k < |coeffs| ==> 1 <= coeffs[k] <= 9
    ensures Polynomial(degree, coeffs) == Join(PolynomialTerms(degree, coeffs), "+")
    ensures Split(Polynomial(degree, coeffs), "+") == PolynomialTerms(degree, coeffs)
    ensures CountOf(Polynomial(degree, coeffs), "+") == degree
  {
    var terms := PolynomialTerms(degree, coeffs);
    PolynomialPrefixJoin(degree, coeffs, |coeffs|);
    assert terms[..|coeffs|] == terms;
    forall k | 0 <= k < |terms| ensures '+' !in terms[k] && CountOf(terms[k], "+") == 0 {
      MonomialChars(coeffs[k], degree - k);
      CountCharAbsent(terms[k], '+');
    }
    SplitJoin(terms, '+');
    CountCharJoin(terms, '+', 0);
  }

  /** A polynomial is its leading coefficient followed by nothing, or by the 'x' of its leading term. */
  lemma PolynomialLead(degree: nat, coeffs: seq<nat>)
    requires |coeffs| == degree + 1
    ensures var p, d := Polynomial(degree, coeffs), NatToString(coeffs[0]);
            && |d| <= |p| && p == d + p[|d|..]
            && (degree == 0 ==> p[|d|..] == "")
            && (degree >= 1 ==> |p[|d|..]| > 0 && p[|d|..][0] == 'x')
  {
    var p, d := Polynomial(degree, coeffs), NatToString(coeffs[0]);
    var m := Monomial(coeffs[0], degree);
    PolynomialPrefixLead(degree, coeffs, |coeffs|);
    assert p[..|m|] == m;
    assert m[..|d|] == d;
    assert p[..|d|] == d;
    if degree == 0 {
      assert p == PolynomialPrefix(degree, coeffs, 1) == "" + "" + m;
    } else {
      assert m[|d|] == 'x';
    }
  }

  /** None of the letters the alias keys start with, and no space, is a polynomial symbol. */
  lemma PolynomialSymbolsKeyless(t: string)
    requires Within(t, PolynomialSymbols)
    ensures ' ' !in t && 'c' !in t && 'l' !in t && 's' !in t && 't' !in t
  {
  }

  /** The aliases leave alone a text holding none of the letters their keys start with. */
  lemma KeylessAliases(q: string)
    requires 'c' !in q && 'l' !in q && 's' !in q && 't' !in q
    ensures ApplyAliases(q, Aliases) == q
  {
    var firsts := seq(|Aliases|, i requires 0 <= i < |Aliases| => Aliases[i].0[0]);
    assert firsts == "ccllsst";
    AliasesAbsent(q, Aliases);
  }

  /** A table none of whose keys' first characters occur in `t` leaves it alone. */
  lemma {:induction false} AliasesAbsent(t: string, table: seq<(string, string)>)
    requires forall i :: 0 <= i < |table| ==> |table[i].0| > 0 && table[i].0[0] !in t
    ensures ApplyAliases(t, table) == t
    decreases |table|
  {
    if |table| > 0 {
      ReplaceAllFirstAbsent(t, table[0].0, table[0].1);
      AliasesAbsent(t, table[1..]);
    }
  }

  /** A text without spaces and without the first letters of the alias keys is only rewritten at its '^'s. */
  lemma SimplifyKeyless(t: string)
    requires ' ' !in t && 'c' !in t && 'l' !in t && 's' !in t && 't' !in t
    ensures Simplify(t) == ReplaceAll(t, "^", "**")
  {
    RemoveCharAbsent(t, ' ');
    var q := ReplaceAll(t, "^", "**");
    ReplaceAllChars(t, "^", "**", 'c');
    ReplaceAllChars(t, "^", "**", 'l');
    ReplaceAllChars(t, "^", "**", 's');
    ReplaceAllChars(t, "^", "**", 't');
    KeylessAliases(q);
  }

  /** A number followed by nothing or by an 'x' evaluates to that number. */
  lemma LeadingNumber(n: nat, rest: string, rt: Runtime)
    requires StandardClasses(rt) && SymbolClasses(rt)
    requires rest == "" || rest[0] == 'x'
    ensures Evaluate(NatToString(n) + rest, rt) == Ok(n as real)
  {
    var e := SumOf(ProdOf(Lit(n)));
    assert PrintSum(e) == PrintProd(ProdOf(Lit(n))) == NatToString(n);
    assert EvalSum(e, rt) == EvalProd(ProdOf(Lit(n)), rt) == Ok(n as real);
    if rest == "" {
      assert NatToString(n) + rest == PrintSum(e) + "";
      EvaluatePrinted(e, "", rt);
    } else {
      TrailingTextIgnored(e, rest, rt);
    }
  }

  /** The normalised polynomial still opens with its leading coefficient, followed by nothing or by an 'x'. */
  lemma PolynomialSimplified(degree: nat, coeffs: seq<nat>)
    requires |coeffs| == degree + 1
    ensures var t, d := Simplify(Polynomial(degree, coeffs)), NatToString(coeffs[0]);
            && |d| <= |t| && t == d + t[|d|..]
            && (t[|d|..] == "" || t[|d|..][0] == 'x')
  {
    var p, d := Polynomial(degree, coeffs), NatToString(coeffs[0]);
    PolynomialLead(degree, coeffs);
    PolynomialPrefixChars(degree, coeffs, |coeffs|);
    assert '^' !in d;
    SimplifiedLead(d, p[|d|..]);
  }

  /**
   * Normalising a polynomial-symbol text leaves a '^'-free head alone, and the text
   * after it still opens with an 'x' when it did before.
   */
  lemma SimplifiedLead(d: string, w: string)
    requires Within(d + w, PolynomialSymbols) && '^' !in d
    requires w == "" || w[0] == 'x'
    ensures var t := Simplify(d + w);
            && |d| <= |t| && t == d + t[|d|..]
            && (t[|d|..] == "" || t[|d|..][0] == 'x')
  {
    PolynomialSymbolsKeyless(d + w);
    SimplifyKeyless(d + w);
    ReplaceCharKeepsPrefix(d, w, '^', "**");
    var rest := ReplaceAll(w, "^", "**");
    if w != "" {
      assert w == [w[0]] + w[1..];
      assert !StartsWith(w, "^");
      assert rest[0] == 'x';
    }
    assert (d + rest)[|d|..] == rest;
  }

  /**
   * Evaluating a generated polynomial stops at its first 'x', so its answer is
   * the formatted leading coefficient.
   */
  lemma PolynomialAnswer(degree: nat, coeffs: seq<nat>, rt: Runtime)
    requires StandardClasses(rt) && SymbolClasses(rt)
    requires |coeffs| == degree + 1
    ensures ParseAndCalculate(Polynomial(degree, coeffs), rt).1 == rt.format(coeffs[0] as real)
  {
    var t, d := Simplify(Polynomial(degree, coeffs)), NatToString(coeffs[0]);
    PolynomialSimplified(degree, coeffs);
    LeadingNumber(coeffs[0], t[|d|..], rt);
  }
}
