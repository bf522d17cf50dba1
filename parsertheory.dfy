/**
 * What the recursive-descent evaluator computes, stated against an independent
 * reference: a small expression language with the source's precedence levels
 * (sums of products of atoms, both folded from the left), its printer and its
 * evaluator. The main theorem says that evaluating a printed expression gives the
 * reference value, or the reference error, whatever follows it in the text.
 */
module ParserTheory {
  import opened Wrappers
  import opened Text
  import opened MathParser

  datatype AddOp = Plus | Minus
  datatype MulOp = Times | Divide

  /** Sums and products are left-nested, as the loops of parseExpression and parseTerm fold them. */
  datatype Sum = SumOf(first: Prod) | AddTo(left: Sum, addOp: AddOp, right: Prod)
  datatype Prod = ProdOf(atom: Atom) | MulBy(lhs: Prod, mulOp: MulOp, rhs: Atom)
  datatype Atom =
    | Lit(n: nat)            // digits
    | NegLit(n: nat)         // '-' and digits
    | Group(inner: Sum)      // '(' sum ')'
    | Call(f: Func, arg: Sum) // name '(' sum ')'

  /** The spelling of each function accepted by the evaluator itself (before any aliasing). */
  function Spelling(f: Func): string
  {
    match f
    case Sqrt => "sqrt"
    case Cbrt => "cbrt"
    case Log10 => "log"
    case Ln => "ln"
    case Sin => "sin"
    case Cos => "cos"
    case Tan => "tan"
  }

  // ---------------------------------------------------------------------------
  // Printer
  // ---------------------------------------------------------------------------

  function PrintSum(e: Sum): string
  {
    match e
    case SumOf(p) => PrintProd(p)
    case AddTo(l, op, r) => PrintSum(l) + (if op == Plus then "+" else "-") + PrintProd(r)
  }

  function PrintProd(e: Prod): string
  {
    match e
    case ProdOf(a) => PrintAtom(a)
    case MulBy(l, op, a) => PrintProd(l) + (if op == Times then "*" else "/") + PrintAtom(a)
  }

  function PrintAtom(a: Atom): string
  {
    match a
    case Lit(n) => NatToString(n)
    case NegLit(n) => "-" + NatToString(n)
    case Group(e) => "(" + PrintSum(e) + ")"
    case Call(f, e) => Spelling(f) + "(" + PrintSum(e) + ")"
  }

  // ---------------------------------------------------------------------------
  // Reference evaluator: left operand first, then right operand, then the operator
  // ---------------------------------------------------------------------------

  function EvalSum(e: Sum, rt: Runtime): Result<real, ParseError>
  {
    match e
    case SumOf(p) => EvalProd(p, rt)
    case AddTo(l, op, r) =>
      match EvalSum(l, rt)
      case Err(x) => Err(x)
      case Ok(v) =>
        match EvalProd(r, rt)
        case Err(x) => Err(x)
        case Ok(w) => Ok(if op == Plus then v + w else v - w)
  }

  function EvalProd(e: Prod, rt: Runtime): Result<real, ParseError>
  {
    match e
    case ProdOf(a) => EvalAtom(a, rt)
    case MulBy(l, op, a) =>
      match EvalProd(l, rt)
      case Err(x) => Err(x)
      case Ok(v) =>
        match EvalAtom(a, rt)
        case Err(x) => Err(x)
        case Ok(w) =>
          if op == Times then Ok(Mul(v, w))
          else if w == 0.0 then Err(DivisionByZero)
          else Ok(Div(v, w))
  }

  /** A negative literal denotes its magnitude: the sign is applied twice. */
  function EvalAtom(a: Atom, rt: Runtime): Result<real, ParseError>
  {
    match a
    case Lit(n) => Ok(n as real)
    case NegLit(n) => Ok(n as real)
    case Group(e) => EvalSum(e, rt)
    case Call(f, e) =>
      match EvalSum(e, rt)
      case Err(x) => Err(x)
      case Ok(v) => Ok(rt.apply(f, v))
  }

  // ---------------------------------------------------------------------------
  // Where a printed phrase may end
  // ---------------------------------------------------------------------------

  /** `t` occurs in `s` at position p. */
  predicate At(s: string, p: nat, t: string)
  {
    p + |t| <= |s| && s[p..p + |t|] == t
  }

  /** After an atom: nothing a number could continue with. */
  predicate AtomStop(s: string, q: nat, rt: Runtime)
  {
    q >= |s| || !IsNumberChar(rt, s[q])
  }

  /** After a product: neither a number character nor '*' or '/'. */
  predicate ProdStop(s: string, q: nat, rt: Runtime)
  {
    AtomStop(s, q, rt) && (q >= |s| || (s[q] != '*' && s[q] != '/'))
  }

  /** After a whole sum: neither a number character nor any operator. */
  predicate SumStop(s: string, q: nat, rt: Runtime)
  {
    ProdStop(s, q, rt) && (q >= |s| || (s[q] != '+' && s[q] != '-'))
  }

  function Lift(r: Result<real, ParseError>, q: nat): Step
  {
    match r
    case Ok(v) => Ok(Parsed(v, q))
    case Err(x) => Err(x)
  }

  // ---------------------------------------------------------------------------
  // Small facts about occurrences and runs
  // ---------------------------------------------------------------------------

  lemma AtSplit(s: string, p: nat, a: string, b: string)
    requires At(s, p, a + b)
    ensures At(s, p, a) && At(s, p + |a|, b)
  {
    assert s[p..p + |a|] == (a + b)[..|a|];
    assert s[p + |a|..p + |a| + |b|] == (a + b)[|a|..];
  }

  lemma {:induction false} LetterRunOver(s: string, p: nat, name: string, rt: Runtime)
    requires At(s, p, name)
    requires forall i :: 0 <= i < |name| ==> rt.isLetter(name[i])
    requires p + |name| == |s| || !rt.isLetter(s[p + |name|])
    ensures LetterRunEnd(s, p, rt) == p + |name|
    decreases |name|
  {
    if |name| > 0 {
      assert s[p] == name[0];
      AtSplit(s, p, name[..1], name[1..]);
      assert name[..1] + name[1..] == name;
      LetterRunOver(s, p + 1, name[1..], rt);
    }
  }

  lemma {:induction false} NumberRunOver(s: string, p: nat, digits: string, rt: Runtime)
    requires StandardClasses(rt)
    requires At(s, p, digits) && AllDigits(digits)
    requires AtomStop(s, p + |digits|, rt)
    ensures NumberRunEnd(s, p, rt) == p + |digits|
    decreases |digits|
  {
    if |digits| > 0 {
      assert s[p] == digits[0];
      assert IsDigit(digits[0]);
      assert digits == digits[..1] + digits[1..];
      AtSplit(s, p, digits[..1], digits[1..]);
      NumberRunOver(s, p + 1, digits[1..], rt);
    }
  }

  // ---------------------------------------------------------------------------
  // The three levels
  // ---------------------------------------------------------------------------

  /** parseFactor reads an atom and stops right after it. */
  lemma {:induction false} AtomParse(s: string, p: nat, a: Atom, rt: Runtime)
    requires StandardClasses(rt)
    requires At(s, p, PrintAtom(a)) && AtomStop(s, p + |PrintAtom(a)|, rt)
    ensures Factor(s, p, rt) == Lift(EvalAtom(a, rt), p + |PrintAtom(a)|)
    decreases a, 2
  {
    if a.Lit? {
      LitParse(s, p, a, rt);
    } else if a.NegLit? {
      NegLitParse(s, p, a, rt);
    } else if a.Group? {
      GroupParse(s, p, a, rt);
    } else {
      CallParse(s, p, a, rt);
    }
  }

  /** A factor that starts a number is that number. */
  lemma NumberFactor(s: string, p: nat, q: nat, v: real, rt: Runtime)
    requires StandardClasses(rt)
    requires p < q <= |s| && (IsDigit(s[p]) || s[p] == '-')
    requires NumberRunEnd(s, if s[p] == '-' then p + 1 else p, rt) == q
    requires ToDouble(s[p..q]) == Some(v)
    ensures Factor(s, p, rt) == Ok(Parsed(if s[p] == '-' then -v else v, q))
  {
  }

  lemma LitParse(s: string, p: nat, a: Atom, rt: Runtime)
    requires StandardClasses(rt)
    requires a.Lit? && At(s, p, PrintAtom(a)) && AtomStop(s, p + |PrintAtom(a)|, rt)
    ensures Factor(s, p, rt) == Lift(EvalAtom(a, rt), p + |PrintAtom(a)|)
  {
    var n := a.n;
    var tok := NatToString(n);
    var q := p + |tok|;
    assert s[p..q] == tok;
    assert s[p] == tok[0];
    assert IsDigit(tok[0]);
    NumberRunOver(s, p, tok, rt);
    ToDoubleOfDigits(tok);
    NatToStringValue(n);
    assert ToDouble(s[p..q]) == Some(n as real);
    NumberFactor(s, p, q, n as real, rt);
  }

  lemma NegLitParse(s: string, p: nat, a: Atom, rt: Runtime)
    requires StandardClasses(rt)
    requires a.NegLit? && At(s, p, PrintAtom(a)) && AtomStop(s, p + |PrintAtom(a)|, rt)
    ensures Factor(s, p, rt) == Lift(EvalAtom(a, rt), p + |PrintAtom(a)|)
  {
    var n := a.n;
    var digits := NatToString(n);
    var q := p + 1 + |digits|;
    AtSplit(s, p, "-", digits);
    NumberRunOver(s, p + 1, digits, rt);
    var tok := s[p..q];
    assert tok == "-" + digits;
    assert tok[0] == '-' && tok[1..] == digits;
    ToDoubleOfNegatedDigits(tok);
    NatToStringValue(n);
    NumberFactor(s, p, q, -(n as real), rt);
  }

  lemma {:induction false} GroupParse(s: string, p: nat, a: Atom, rt: Runtime)
    requires StandardClasses(rt)
    requires a.Group? && At(s, p, PrintAtom(a)) && AtomStop(s, p + |PrintAtom(a)|, rt)
    ensures Factor(s, p, rt) == Lift(EvalAtom(a, rt), p + |PrintAtom(a)|)
    decreases a, 0
  {
    var e := a.inner;
    AtSplit(s, p, "(" + PrintSum(e), ")");
    AtSplit(s, p, "(", PrintSum(e));
    var m := p + 1 + |PrintSum(e)|;
    assert s[p] == '(' && s[m] == ')';
    SumParse(s, p + 1, e, rt);
    ClosedBy(s, p + 1, m, e, rt);
  }

  lemma {:induction false} CallParse(s: string, p: nat, a: Atom, rt: Runtime)
    requires StandardClasses(rt)
    requires a.Call? && At(s, p, PrintAtom(a)) && AtomStop(s, p + |PrintAtom(a)|, rt)
    ensures Factor(s, p, rt) == Lift(EvalAtom(a, rt), p + |PrintAtom(a)|)
    decreases a, 1
  {
    CallPieces(s, p, a, rt);
    var q := p + |Spelling(a.f)|;
    CallAssemble(s, p, q, q + 1, q + 1 + |PrintSum(a.arg)|, p + |PrintAtom(a)|, a, rt);
  }

  /**
   * A call whose name is printed from p to q, whose '(' is at q, whose argument is
   * printed from r = q + 1 to m and whose ')' is at m is parsed from p to t = m + 1.
   */
  lemma CallAssemble(s: string, p: nat, q: nat, r: nat, m: nat, t: nat, a: Atom, rt: Runtime)
    requires StandardClasses(rt) && a.Call?
    requires q == p + |Spelling(a.f)| && r == q + 1 && m == r + |PrintSum(a.arg)| && t == m + 1
    requires m < |s| && s[p..q] == Spelling(a.f) && LetterRunEnd(s, p, rt) == q
    requires s[q] == '(' && At(s, r, PrintSum(a.arg)) && s[m] == ')' && AtomStop(s, m, rt)
    ensures Factor(s, p, rt) == Lift(EvalAtom(a, rt), t)
    decreases a, 0
  {
    SumParse(s, r, a.arg, rt);
    ClosedBy(s, r, m, a.arg, rt);
    FuncNamedSpelling(a.f);
    CallStep(s, p, q, r, m, t, a, rt);
  }

  /** Where the parts of a printed call lie. */
  lemma CallPieces(s: string, p: nat, a: Atom, rt: Runtime)
    requires StandardClasses(rt)
    requires a.Call? && At(s, p, PrintAtom(a))
    ensures var q := p + |Spelling(a.f)|;
            var m := q + 1 + |PrintSum(a.arg)|;
            && m < |s| && |PrintAtom(a)| == m + 1 - p
            && s[p..q] == Spelling(a.f) && LetterRunEnd(s, p, rt) == q
            && s[q] == '(' && At(s, q + 1, PrintSum(a.arg)) && s[m] == ')'
            && AtomStop(s, q + 1 + |PrintSum(a.arg)|, rt)
  {
    var name := Spelling(a.f);
    AtSplit(s, p, name + "(" + PrintSum(a.arg), ")");
    AtSplit(s, p, name + "(", PrintSum(a.arg));
    AtSplit(s, p, name, "(");
    assert s[p] == name[0];
    LetterRunOver(s, p, name, rt);
  }

  /** The letter branch of parseFactor once name, argument and parentheses are in place. */
  lemma CallStep(s: string, p: nat, q: nat, r: nat, m: nat, t: nat, a: Atom, rt: Runtime)
    requires a.Call? && p < q && r == q + 1 && r <= m < |s| && t == m + 1
    requires s[p..q] == Spelling(a.f) && LetterRunEnd(s, p, rt) == q
    requires s[q] == '(' && s[m] == ')'
    requires Expr(s, r, rt) == Lift(EvalSum(a.arg, rt), m)
    requires FuncNamed(Spelling(a.f)) == Some(a.f)
    ensures Factor(s, p, rt) == Lift(EvalAtom(a, rt), t)
  {
    assert rt.isLetter(s[p]);
  }

  /** Each function is found under its spelling. */
  lemma FuncNamedSpelling(f: Func)
    ensures FuncNamed(Spelling(f)) == Some(f)
  {
    match f
    case Sqrt => LookupFirst("sqrt", FuncNames, 1);
    case Cbrt => LookupFirst("cbrt", FuncNames, 3);
    case Log10 => LookupFirst("log", FuncNames, 5);
    case Ln => LookupFirst("ln", FuncNames, 6);
    case Sin => LookupFirst("sin", FuncNames, 7);
    case Cos => LookupFirst("cos", FuncNames, 8);
    case Tan => LookupFirst("tan", FuncNames, 9);
  }

  /** The first entry of a table that carries a name decides what the name looks up to. */
  lemma {:induction false} LookupFirst(name: string, table: seq<(string, Func)>, i: nat)
    requires i < |table| && table[i].0 == name
    requires forall j :: 0 <= j < i ==> table[j].0 != name
    ensures Lookup(name, table) == Some(table[i].1)
    decreases i
  {
    if i > 0 {
      LookupFirst(name, table[1..], i - 1);
    }
  }

  /** A printed sum that evaluates is parsed to its value, up to where it ends. */
  lemma SumParsed(s: string, p: nat, e: Sum, rt: Runtime)
    requires StandardClasses(rt)
    requires EvalSum(e, rt).Ok?
    requires At(s, p, PrintSum(e)) && SumStop(s, p + |PrintSum(e)|, rt)
    ensures p + |PrintSum(e)| <= |s|
    ensures Expr(s, p, rt) == Ok(Parsed(EvalSum(e, rt).value, p + |PrintSum(e)|))
  {
    SumParse(s, p, e, rt);
    ExprTailStops(s, p + |PrintSum(e)|, EvalSum(e, rt).value, rt);
  }

  /** A sum followed by ')' ends there: the loop of parseExpression stops at the parenthesis. */
  lemma ClosedBy(s: string, p: nat, m: nat, e: Sum, rt: Runtime)
    requires p <= m < |s| && s[m] == ')'
    requires ExprResumes(s, p, m, e, rt)
    ensures Expr(s, p, rt) == Lift(EvalSum(e, rt), m)
  {
    match EvalSum(e, rt) {
      case Err(x) =>
      case Ok(v) => ExprTailStops(s, m, v, rt);
    }
  }

  /** What parseTerm yields at p when a product `e` ends at q: its loop goes on from q. */
  predicate TermResumes(s: string, p: nat, q: nat, e: Prod, rt: Runtime)
    requires p <= q <= |s|
  {
    Term(s, p, rt) ==
      match EvalProd(e, rt)
      case Ok(v) => TermTail(s, q, v, rt)
      case Err(x) => Err(x)
  }

  /** What parseExpression yields at p when a sum `e` ends at q: its loop goes on from q. */
  predicate ExprResumes(s: string, p: nat, q: nat, e: Sum, rt: Runtime)
    requires p <= q <= |s|
  {
    Expr(s, p, rt) ==
      match EvalSum(e, rt)
      case Ok(v) => ExprTail(s, q, v, rt)
      case Err(x) => Err(x)
  }

  /** parseTerm's loop stops where a product may end. */
  lemma TermTailStops(s: string, q: nat, w: real, rt: Runtime)
    requires q <= |s| && (q == |s| || (s[q] != '*' && s[q] != '/'))
    ensures TermTail(s, q, w, rt) == Ok(Parsed(w, q))
  {
  }

  /** parseExpression's loop stops where a sum may end. */
  lemma ExprTailStops(s: string, q: nat, w: real, rt: Runtime)
    requires q <= |s| && (q == |s| || (s[q] != '+' && s[q] != '-'))
    ensures ExprTail(s, q, w, rt) == Ok(Parsed(w, q))
  {
  }

  /** A single atom is a product. */
  lemma ProdOfStep(s: string, p: nat, q: nat, a: Atom, rt: Runtime)
    requires p <= q <= |s|
    requires Factor(s, p, rt) == Lift(EvalAtom(a, rt), q)
    ensures TermResumes(s, p, q, ProdOf(a), rt)
  {
  }

  /** One more round of parseTerm's loop: operator at m, atom from r = m + 1 to q. */
  lemma MulByStep(s: string, p: nat, m: nat, r: nat, q: nat, e: Prod, rt: Runtime)
    requires e.MulBy? && p <= m && r == m + 1 && r <= q <= |s|
    requires s[m] == (if e.mulOp == Times then '*' else '/')
    requires TermResumes(s, p, m, e.lhs, rt)
    requires Factor(s, r, rt) == Lift(EvalAtom(e.rhs, rt), q)
    ensures TermResumes(s, p, q, e, rt)
  {
    match EvalProd(e.lhs, rt) {
      case Err(x) =>
      case Ok(v) =>
        assert TermTail(s, m, v, rt) ==
          match EvalAtom(e.rhs, rt)
          case Err(x) => Err(x)
          case Ok(w) =>
            if e.mulOp == Times then TermTail(s, q, Mul(v, w), rt)
            else if w == 0.0 then Err(DivisionByZero)
            else TermTail(s, q, Div(v, w), rt);
    }
  }

  /** A single product is a sum, when nothing multiplies it further. */
  lemma SumOfStep(s: string, p: nat, q: nat, r: Prod, rt: Runtime)
    requires p <= q <= |s| && ProdStop(s, q, rt)
    requires TermResumes(s, p, q, r, rt)
    ensures ExprResumes(s, p, q, SumOf(r), rt)
  {
    match EvalProd(r, rt) {
      case Err(x) =>
      case Ok(w) => TermTailStops(s, q, w, rt);
    }
  }

  /** One more round of parseExpression's loop: operator at m, product from r = m + 1 to q. */
  lemma AddToStep(s: string, p: nat, m: nat, r: nat, q: nat, e: Sum, rt: Runtime)
    requires e.AddTo? && p <= m && r == m + 1 && r <= q <= |s| && ProdStop(s, q, rt)
    requires s[m] == (if e.addOp == Plus then '+' else '-')
    requires ExprResumes(s, p, m, e.left, rt)
    requires TermResumes(s, r, q, e.right, rt)
    ensures ExprResumes(s, p, q, e, rt)
  {
    match EvalSum(e.left, rt) {
      case Err(x) =>
      case Ok(v) =>
        match EvalProd(e.right, rt) {
          case Err(x) =>
          case Ok(w) => TermTailStops(s, q, w, rt);
        }
    }
  }

  /**
   * parseTerm reads a product and then goes on with its loop at the position after
   * it, carrying the product's value (or stops with the product's error).
   */
  lemma {:induction false} ProdParse(s: string, p: nat, e: Prod, rt: Runtime)
    requires StandardClasses(rt)
    requires At(s, p, PrintProd(e)) && AtomStop(s, p + |PrintProd(e)|, rt)
    ensures p + |PrintProd(e)| <= |s|
    ensures TermResumes(s, p, p + |PrintProd(e)|, e, rt)
    decreases e, 2
  {
    if e.ProdOf? {
      AtomParse(s, p, e.atom, rt);
      ProdOfStep(s, p, p + |PrintAtom(e.atom)|, e.atom, rt);
    } else {
      MulByParse(s, p, e, rt);
    }
  }

  lemma {:induction false} MulByParse(s: string, p: nat, e: Prod, rt: Runtime)
    requires StandardClasses(rt)
    requires e.MulBy? && At(s, p, PrintProd(e)) && AtomStop(s, p + |PrintProd(e)|, rt)
    ensures p + |PrintProd(e)| <= |s|
    ensures TermResumes(s, p, p + |PrintProd(e)|, e, rt)
    decreases e, 1
  {
    MulByPieces(s, p, e);
    MulByAssemble(s, p, p + |PrintProd(e.lhs)|, p + |PrintProd(e.lhs)| + 1, p + |PrintProd(e)|, e, rt);
  }

  /**
   * A product whose left operand is printed from p to m, whose operator is at m and
   * whose right operand is printed from r = m + 1 to q is parsed from p to q.
   */
  lemma {:induction false} MulByAssemble(s: string, p: nat, m: nat, r: nat, q: nat, e: Prod, rt: Runtime)
    requires StandardClasses(rt) && e.MulBy?
    requires m == p + |PrintProd(e.lhs)| && At(s, p, PrintProd(e.lhs))
    requires m < |s| && s[m] == (if e.mulOp == Times then '*' else '/')
    requires r == m + 1 && q == r + |PrintAtom(e.rhs)| && At(s, r, PrintAtom(e.rhs))
    requires AtomStop(s, q, rt)
    ensures q <= |s|
    ensures TermResumes(s, p, q, e, rt)
    decreases e, 0
  {
    ProdParse(s, p, e.lhs, rt);
    AtomParse(s, r, e.rhs, rt);
    MulByStep(s, p, m, r, q, e, rt);
  }

  /** Where the parts of a printed product lie. */
  lemma MulByPieces(s: string, p: nat, e: Prod)
    requires e.MulBy? && At(s, p, PrintProd(e))
    ensures var m := p + |PrintProd(e.lhs)|;
            && At(s, p, PrintProd(e.lhs))
            && s[m] == (if e.mulOp == Times then '*' else '/')
            && At(s, m + 1, PrintAtom(e.rhs))
            && |PrintProd(e)| == |PrintProd(e.lhs)| + 1 + |PrintAtom(e.rhs)|
  {
    var sym := if e.mulOp == Times then "*" else "/";
    AtSplit(s, p, PrintProd(e.lhs) + sym, PrintAtom(e.rhs));
    AtSplit(s, p, PrintProd(e.lhs), sym);
  }

  /** parseExpression reads a sum and goes on with its loop after it. */
  lemma {:induction false} SumParse(s: string, p: nat, e: Sum, rt: Runtime)
    requires StandardClasses(rt)
    requires At(s, p, PrintSum(e)) && ProdStop(s, p + |PrintSum(e)|, rt)
    ensures p + |PrintSum(e)| <= |s|
    ensures ExprResumes(s, p, p + |PrintSum(e)|, e, rt)
    decreases e, 3
  {
    if e.SumOf? {
      ProdParse(s, p, e.first, rt);
      SumOfStep(s, p, p + |PrintProd(e.first)|, e.first, rt);
    } else {
      AddToParse(s, p, e, rt);
    }
  }

  lemma {:induction false} AddToParse(s: string, p: nat, e: Sum, rt: Runtime)
    requires StandardClasses(rt)
    requires e.AddTo? && At(s, p, PrintSum(e)) && ProdStop(s, p + |PrintSum(e)|, rt)
    ensures p + |PrintSum(e)| <= |s|
    ensures ExprResumes(s, p, p + |PrintSum(e)|, e, rt)
    decreases e, 2
  {
    AddToPieces(s, p, e);
    AddToAssemble(s, p, p + |PrintSum(e.left)|, p + |PrintSum(e.left)| + 1, p + |PrintSum(e)|, e, rt);
  }

  /**
   * A sum whose left operand is printed from p to m, whose operator is at m and
   * whose right operand is printed from r = m + 1 to q is parsed from p to q.
   */
  lemma {:induction false} AddToAssemble(s: string, p: nat, m: nat, r: nat, q: nat, e: Sum, rt: Runtime)
    requires StandardClasses(rt) && e.AddTo?
    requires m == p + |PrintSum(e.left)| && At(s, p, PrintSum(e.left))
    requires m < |s| && s[m] == (if e.addOp == Plus then '+' else '-')
    requires r == m + 1 && q == r + |PrintProd(e.right)| && At(s, r, PrintProd(e.right))
    requires ProdStop(s, q, rt)
    ensures q <= |s|
    ensures ExprResumes(s, p, q, e, rt)
    decreases e, 1
  {
    SumParse(s, p, e.left, rt);
    ProdParse(s, r, e.right, rt);
    AddToStep(s, p, m, r, q, e, rt);
  }

  /** Where the parts of a printed sum lie. */
  lemma AddToPieces(s: string, p: nat, e: Sum)
    requires e.AddTo? && At(s, p, PrintSum(e))
    ensures var m := p + |PrintSum(e.left)|;
            && At(s, p, PrintSum(e.left))
            && s[m] == (if e.addOp == Plus then '+' else '-')
            && At(s, m + 1, PrintProd(e.right))
            && |PrintSum(e)| == |PrintSum(e.left)| + 1 + |PrintProd(e.right)|
  {
    var sym := if e.addOp == Plus then "+" else "-";
    AtSplit(s, p, PrintSum(e.left) + sym, PrintProd(e.right));
    AtSplit(s, p, PrintSum(e.left), sym);
  }

  /**
   * The evaluator agrees with the reference on every printed expression, and
   * ignores whatever text follows it as long as that text cannot continue it.
   */
  lemma EvaluatePrinted(e: Sum, rest: string, rt: Runtime)
    requires StandardClasses(rt)
    requires SumStop(PrintSum(e) + rest, |PrintSum(e)|, rt)
    ensures Evaluate(PrintSum(e) + rest, rt) == EvalSum(e, rt)
  {
    var s := PrintSum(e) + rest;
    assert s[0..|PrintSum(e)|] == PrintSum(e);
    SumParse(s, 0, e, rt);
    match EvalSum(e, rt) {
      case Err(x) =>
      case Ok(v) => ExprTailStops(s, |PrintSum(e)|, v, rt);
    }
  }
}
