/** The expression parser and printer, at the level of tokens. */
module ExprSyntax {
  import opened Expressions
  import opened Wrappers

  datatype Token = TSym(s: nat) | TRel(op: RelOp) | TAnd | TOr | TNot | TOpen | TClose | TOther(code: nat)

  // ---------- the grammar, as a function of the remaining tokens ----------

  // `tm` rewrites a plain m to m && MODULES
  datatype Rewrite = Rewrite(on: bool, m: nat, modules: nat)

  function PlainSym(s: nat, tm: Rewrite): Expr {
    if tm.on && s == tm.m then And(Atom(Sym(tm.m)), Atom(Sym(tm.modules))) else Atom(Sym(s))
  }

  type Parsed = Option<(Expr, seq<Token>)>

  // A symbol, alone or compared with another one, a negated factor or an expression in parentheses
  function Factor(ts: seq<Token>, tm: Rewrite): (r: Parsed)
    ensures r.Some? ==> |r.value.1| < |ts| && r.value.1 == ts[|ts| - |r.value.1|..]
    decreases |ts|, 0
  {
    if ts == [] then None
    else match ts[0]
      case TSym(s) =>
        if |ts| > 1 && ts[1].TRel? then
          if |ts| > 2 && ts[2].TSym? then Some((Rel(ts[1].op, s, ts[2].s), ts[3..])) else None
        else Some((PlainSym(s, tm), ts[1..]))
      case TNot =>
        (match Factor(ts[1..], tm)
         case Some((e, rest)) => Some((Not(e), rest))
         case None => None)
      case TOpen =>
        (match Expression(ts[1..], tm)
         case Some((e, rest)) => if rest != [] && rest[0] == TClose then Some((e, rest[1..])) else None
         case None => None)
      case _ => None
  }

  // factor ['&&' and_expr]
  function AndExpression(ts: seq<Token>, tm: Rewrite): (r: Parsed)
    ensures r.Some? ==> |r.value.1| < |ts| && r.value.1 == ts[|ts| - |r.value.1|..]
    decreases |ts|, 1
  {
    match Factor(ts, tm)
    case None => None
    case Some((e, rest)) =>
      if rest != [] && rest[0] == TAnd then
        match AndExpression(rest[1..], tm)
        case Some((f, rest2)) => Some((And(e, f), rest2))
        case None => None
      else Some((e, rest))
  }

  // and_expr ['||' expr]
  function Expression(ts: seq<Token>, tm: Rewrite): (r: Parsed)
    ensures r.Some? ==> |r.value.1| < |ts| && r.value.1 == ts[|ts| - |r.value.1|..]
    decreases |ts|, 2
  {
    match AndExpression(ts, tm)
    case None => None
    case Some((e, rest)) =>
      if rest != [] && rest[0] == TOr then
        match Expression(rest[1..], tm)
        case Some((f, rest2)) => Some((Or(e, f), rest2))
        case None => None
      else Some((e, rest))
  }

  // ---------- the parser ----------

  /** Parses from a list of tokens by advancing a position; a result of None is the
      syntax error. */
  class Parser {
    const tokens: seq<Token>
    var at: nat

    ghost predicate Valid() reads this`at { at <= |tokens| }

    constructor (tokens: seq<Token>)
      ensures Valid() && this.tokens == tokens && at == 0
    {
      this.tokens, at := tokens, 0;
    }

    // Removes the next token if it is `t`
    method Check(t: Token) returns (b: bool)
      requires Valid()
      modifies this`at
      ensures Valid() && b == (old(at) < |tokens| && tokens[old(at)] == t)
      ensures at == if b then old(at) + 1 else old(at)
    {
      b := at < |tokens| && tokens[at] == t;
      if b {
        at := at + 1;
      }
    }

    // What a grammar function says about the tokens from the old position, and where it leaves off
    twostate predicate Follows(new r: Option<Expr>, new p: Parsed)
      reads this`at
    {
      match p
      case None => r == None
      case Some((e, rest)) => r == Some(e) && at <= |tokens| && rest == tokens[at..] && old(at) < at
    }

    method ParseFactor(tm: Rewrite) returns (r: Option<Expr>)
      requires Valid()
      modifies this`at
      ensures Valid() && Follows(r, Factor(tokens[old(at)..], tm))
      decreases |tokens| - at, 0
    {
      if at == |tokens| {
        return None;
      }
      var token := tokens[at];
      at := at + 1;
      match token {
        case TSym(s) =>
          if at == |tokens| || !tokens[at].TRel? {
            return Some(PlainSym(s, tm));
          }
          var op := tokens[at].op;
          at := at + 1;
          if at == |tokens| || !tokens[at].TSym? {
            return None;
          }
          r := Some(Rel(op, s, tokens[at].s));
          at := at + 1;
        case TNot =>
          var e := ParseFactor(tm);
          r := if e.Some? then Some(Not(e.value)) else None;
        case TOpen =>
          r := ParseExpr(tm);
          if r.Some? {
            var closed := Check(TClose);
            if !closed {
              r := None;
            }
          }
        case _ =>
          r := None;
      }
    }

    method ParseAndExpr(tm: Rewrite) returns (r: Option<Expr>)
      requires Valid()
      modifies this`at
      ensures Valid() && Follows(r, AndExpression(tokens[old(at)..], tm))
      decreases |tokens| - at, 1
    {
      r := ParseFactor(tm);
      if r.Some? {
        var more := Check(TAnd);
        if more {
          var f := ParseAndExpr(tm);
          r := if f.Some? then Some(And(r.value, f.value)) else None;
        }
      }
    }

    method ParseExpr(tm: Rewrite) returns (r: Option<Expr>)
      requires Valid()
      modifies this`at
      ensures Valid() && Follows(r, Expression(tokens[old(at)..], tm))
      decreases |tokens| - at, 2
    {
      r := ParseAndExpr(tm);
      if r.Some? {
        var more := Check(TOr);
        if more {
          var f := ParseExpr(tm);
          r := if f.Some? then Some(Or(r.value, f.value)) else None;
        }
      }
    }
  }

  // ---------- the printer ----------

  predicate ChoiceFree(e: Expr) {
    match e
    case Atom(i) => i.Sym?
    case And(l, r) => ChoiceFree(l) && ChoiceFree(r)
    case Or(l, r) => ChoiceFree(l) && ChoiceFree(r)
    case Not(a) => ChoiceFree(a)
    case Rel(_, _, _) => true
  }

  function Parens(ts: seq<Token>): seq<Token> { [TOpen] + ts + [TClose] }

  // An operand of &&: parenthesised if it is an ||
  function AndOperand(e: Expr): seq<Token>
    requires ChoiceFree(e)
    decreases e, 1
  {
    if e.Or? then Parens(Print(e)) else Print(e)
  }

  // An operand of ||: parenthesised if it is an &&
  function OrOperand(e: Expr): seq<Token>
    requires ChoiceFree(e)
    decreases e, 1
  {
    if e.And? then Parens(Print(e)) else Print(e)
  }

  function Print(e: Expr): seq<Token>
    requires ChoiceFree(e)
    decreases e, 0
  {
    match e
    case Atom(i) => [TSym(i.s)]
    case And(l, r) => AndOperand(l) + [TAnd] + AndOperand(r)
    case Or(l, r) => OrOperand(l) + [TOr] + OrOperand(r)
    case Not(a) => [TNot] + if a.Atom? then Print(a) else Parens(Print(a))
    case Rel(op, l, r) => [TSym(l), TRel(op), TSym(r)]
  }

  // ---------- re-association to the right ----------

  // The conjunction of a right-nested conjunction with one more operand at the end
  function AndChain(a: Expr, b: Expr): Expr {
    if a.And? then And(a.left, AndChain(a.right, b)) else And(a, b)
  }

  function OrChain(a: Expr, b: Expr): Expr {
    if a.Or? then Or(a.left, OrChain(a.right, b)) else Or(a, b)
  }

  /** `e` with chains of && and of || nested to the right. */
  function RightAssoc(e: Expr): Expr {
    match e
    case And(l, r) => AndChain(RightAssoc(l), RightAssoc(r))
    case Or(l, r) => OrChain(RightAssoc(l), RightAssoc(r))
    case Not(a) => Not(RightAssoc(a))
    case _ => e
  }

  predicate RightNested(e: Expr) {
    match e
    case And(l, r) => !l.And? && RightNested(l) && RightNested(r)
    case Or(l, r) => !l.Or? && RightNested(l) && RightNested(r)
    case Not(a) => RightNested(a)
    case _ => true
  }

  lemma {:induction false} AndChainAssoc(a: Expr, b: Expr, c: Expr)
    ensures AndChain(AndChain(a, b), c) == AndChain(a, AndChain(b, c))
  {
    if a.And? {
      AndChainAssoc(a.right, b, c);
    }
  }

  lemma {:induction false} OrChainAssoc(a: Expr, b: Expr, c: Expr)
    ensures OrChain(OrChain(a, b), c) == OrChain(a, OrChain(b, c))
  {
    if a.Or? {
      OrChainAssoc(a.right, b, c);
    }
  }

  lemma {:induction false} AndChainNested(a: Expr, b: Expr)
    requires RightNested(a) && RightNested(b)
    ensures RightNested(AndChain(a, b))
  {
    if a.And? {
      AndChainNested(a.right, b);
    }
  }

  lemma {:induction false} OrChainNested(a: Expr, b: Expr)
    requires RightNested(a) && RightNested(b)
    ensures RightNested(OrChain(a, b))
  {
    if a.Or? {
      OrChainNested(a.right, b);
    }
  }

  /** Re-associating gives a right-nested expression, and changes nothing exactly when the
      expression was one. */
  lemma {:induction false} RightAssocNests(e: Expr)
    ensures RightNested(RightAssoc(e))
    ensures RightAssoc(e) == e <==> RightNested(e)
  {
    match e
    case And(l, r) =>
      RightAssocNests(l);
      RightAssocNests(r);
      AndChainNested(RightAssoc(l), RightAssoc(r));
    case Or(l, r) =>
      RightAssocNests(l);
      RightAssocNests(r);
      OrChainNested(RightAssoc(l), RightAssoc(r));
    case Not(a) => RightAssocNests(a);
    case _ =>
  }

  lemma {:induction false} AndChainValue(x: Expr, y: Expr, a: Assignment)
    ensures Eval(AndChain(x, y), a) == Min(Eval(x, a), Eval(y, a))
  {
    if x.And? {
      AndChainValue(x.right, y, a);
    }
  }

  lemma {:induction false} OrChainValue(x: Expr, y: Expr, a: Assignment)
    ensures Eval(OrChain(x, y), a) == Max(Eval(x, a), Eval(y, a))
  {
    if x.Or? {
      OrChainValue(x.right, y, a);
    }
  }

  /** Re-associating keeps the value under every assignment. */
  lemma {:induction false} RightAssocValue(e: Expr, a: Assignment)
    ensures Eval(RightAssoc(e), a) == Eval(e, a)
  {
    match e
    case And(l, r) =>
      RightAssocValue(l, a);
      RightAssocValue(r, a);
      AndChainValue(RightAssoc(l), RightAssoc(r), a);
    case Or(l, r) =>
      RightAssocValue(l, a);
      RightAssocValue(r, a);
      OrChainValue(RightAssoc(l), RightAssoc(r), a);
    case Not(x) => RightAssocValue(x, a);
    case _ =>
  }

  // ---------- what was printed parses ----------

  const PLAIN := Rewrite(false, 0, 0)

  // The next token does not continue a symbol, a factor or an and_expr
  predicate Ends(rest: seq<Token>) {
    rest == [] || !(rest[0].TRel? || rest[0] == TAnd || rest[0] == TOr)
  }

  predicate NotRel(rest: seq<Token>) { rest == [] || !rest[0].TRel? }

  predicate NotAnd(rest: seq<Token>) { rest == [] || !(rest[0].TRel? || rest[0] == TAnd) }

  // How operands and expressions are printed
  lemma Printed(e: Expr)
    requires ChoiceFree(e)
    ensures AndOperand(e) == if e.Or? then Parens(Print(e)) else Print(e)
    ensures OrOperand(e) == if e.And? then Parens(Print(e)) else Print(e)
    ensures e.And? ==> Print(e) == AndOperand(e.left) + [TAnd] + AndOperand(e.right)
    ensures e.Or? ==> Print(e) == OrOperand(e.left) + [TOr] + OrOperand(e.right)
    ensures e.Atom? ==> Print(e) == [TSym(e.item.s)]
    ensures e.Rel? ==> Print(e) == [TSym(e.lhs), TRel(e.op), TSym(e.rhs)]
    ensures e.Not? ==> Print(e) == [TNot] + if e.arg.Atom? then Print(e.arg) else Parens(Print(e.arg))
  {
  }

  // The grammar, one level at a time
  lemma FactorStep(ts: seq<Token>)
    requires ts != []
    ensures ts[0].TSym? && NotRel(ts[1..]) ==> Factor(ts, PLAIN) == Some((Atom(Sym(ts[0].s)), ts[1..]))
    ensures |ts| > 2 && ts[0].TSym? && ts[1].TRel? && ts[2].TSym? ==>
              Factor(ts, PLAIN) == Some((Rel(ts[1].op, ts[0].s, ts[2].s), ts[3..]))
    ensures ts[0] == TNot && Factor(ts[1..], PLAIN).Some? ==>
              Factor(ts, PLAIN) == Some((Not(Factor(ts[1..], PLAIN).value.0), Factor(ts[1..], PLAIN).value.1))
    ensures ts[0] == TOpen ==>
              match Expression(ts[1..], PLAIN)
              case Some((e, rest)) => rest != [] && rest[0] == TClose ==> Factor(ts, PLAIN) == Some((e, rest[1..]))
              case None => true
  {
  }

  lemma AndStep(ts: seq<Token>, e: Expr, rest: seq<Token>)
    requires Factor(ts, PLAIN) == Some((e, rest))
    ensures NotAnd(rest) ==> AndExpression(ts, PLAIN) == Some((e, rest))
    ensures rest != [] && rest[0] == TAnd && AndExpression(rest[1..], PLAIN).Some? ==>
              AndExpression(ts, PLAIN) ==
              Some((And(e, AndExpression(rest[1..], PLAIN).value.0), AndExpression(rest[1..], PLAIN).value.1))
  {
  }

  lemma OrStep(ts: seq<Token>, e: Expr, rest: seq<Token>)
    requires AndExpression(ts, PLAIN) == Some((e, rest))
    ensures Ends(rest) ==> Expression(ts, PLAIN) == Some((e, rest))
    ensures rest != [] && rest[0] == TOr && Expression(rest[1..], PLAIN).Some? ==>
              Expression(ts, PLAIN) ==
              Some((Or(e, Expression(rest[1..], PLAIN).value.0), Expression(rest[1..], PLAIN).value.1))
  {
  }

  // Anything but a conjunction parses as a factor where it is an operand of &&
  lemma {:induction false} FactorParses(e: Expr, rest: seq<Token>)
    requires ChoiceFree(e) && !e.And? && NotRel(rest)
    ensures Factor(AndOperand(e) + rest, PLAIN) == Some((RightAssoc(e), rest))
    decreases e, if e.Or? then 8 else 2
  {
    hide Factor, Expression, AndExpression, Print, AndOperand, OrOperand;
    var ts := AndOperand(e) + rest;
    Printed(e);
    if e.Atom? {
      assert ts[1..] == rest;
      FactorStep(ts);
    } else if e.Rel? {
      assert ts[3..] == rest;
      FactorStep(ts);
    } else if e.Not? {
      NotParses(e.arg, rest);
    } else {
      ParensParse(e, rest);
    }
  }

  lemma {:induction false} NotParses(a: Expr, rest: seq<Token>)
    requires ChoiceFree(a) && NotRel(rest)
    ensures Factor(Print(Not(a)) + rest, PLAIN) == Some((Not(RightAssoc(a)), rest))
    decreases a, 8
  {
    hide Factor, Expression, AndExpression, Print, AndOperand, OrOperand, Parens;
    var ts := Print(Not(a)) + rest;
    NotTokens(a, rest);
    FactorStep(ts);
    if a.Atom? {
      FactorParses(a, rest);
    } else {
      ParensParse(a, rest);
    }
  }

  lemma NotTokens(a: Expr, rest: seq<Token>)
    requires ChoiceFree(a)
    ensures var ts := Print(Not(a)) + rest;
            && ts != [] && ts[0] == TNot
            && ts[1..] == (if a.Atom? then AndOperand(a) else Parens(Print(a))) + rest
  {
    hide Print, AndOperand, OrOperand;
    Printed(Not(a));
    Printed(a);
  }

  lemma {:induction false} ParensParse(e: Expr, rest: seq<Token>)
    requires ChoiceFree(e)
    ensures Factor(Parens(Print(e)) + rest, PLAIN) == Some((RightAssoc(e), rest))
    decreases e, 7
  {
    hide Factor, Expression, AndExpression, Print, RightAssoc;
    var ts := Parens(Print(e)) + rest;
    assert ts[1..] == Print(e) + ([TClose] + rest);
    ExpressionParses(e, [TClose] + rest);
    assert ([TClose] + rest)[1..] == rest;
    FactorStep(ts);
  }

  lemma Regroup(a: seq<Token>, op: Token, b: seq<Token>, c: seq<Token>)
    ensures (a + [op] + b) + c == a + [op] + (b + c)
  {
  }

  lemma RegroupTail(a: seq<Token>, op: Token, b: seq<Token>, tail: seq<Token>)
    ensures (a + [op] + b) + [op] + tail == a + [op] + (b + [op] + tail)
  {
  }

  lemma OperatorNext(a: seq<Token>, op: Token, tail: seq<Token>)
    ensures a + [op] + tail == a + ([op] + tail) && ([op] + tail)[1..] == tail && ([op] + tail)[0] == op
  {
  }

  // An operand followed by && and more gives the chain of the two
  lemma {:induction false} AndTailParses(e: Expr, tail: seq<Token>, z: Expr, rest: seq<Token>)
    requires ChoiceFree(e) && AndExpression(tail, PLAIN) == Some((z, rest))
    ensures AndExpression(AndOperand(e) + [TAnd] + tail, PLAIN) == Some((AndChain(RightAssoc(e), z), rest))
    decreases e, if e.Or? then 9 else 3
  {
    hide Factor, Expression, AndExpression, Print, AndOperand, OrOperand;
    Printed(e);
    if e.And? {
      AndTailParses(e.right, tail, z, rest);
      AndTailParses(e.left, AndOperand(e.right) + [TAnd] + tail, AndChain(RightAssoc(e.right), z), rest);
      RegroupTail(AndOperand(e.left), TAnd, AndOperand(e.right), tail);
      AndChainAssoc(RightAssoc(e.left), RightAssoc(e.right), z);
    } else {
      OperatorNext(AndOperand(e), TAnd, tail);
      FactorParses(e, [TAnd] + tail);
      AndStep(AndOperand(e) + [TAnd] + tail, RightAssoc(e), [TAnd] + tail);
      KindKept(e);
    }
  }

  lemma KindKept(e: Expr)
    ensures RightAssoc(e).And? == e.And? && RightAssoc(e).Or? == e.Or?
  {
  }

  // An operand of && parses as an and_expr
  lemma {:induction false} AndParses(e: Expr, rest: seq<Token>)
    requires ChoiceFree(e) && NotAnd(rest)
    ensures AndExpression(AndOperand(e) + rest, PLAIN) == Some((RightAssoc(e), rest))
    decreases e, if e.Or? then 9 else 3
  {
    hide Factor, Expression, AndExpression, Print, AndOperand, OrOperand;
    Printed(e);
    if e.And? {
      AndParses(e.right, rest);
      AndTailParses(e.left, AndOperand(e.right) + rest, RightAssoc(e.right), rest);
      Regroup(AndOperand(e.left), TAnd, AndOperand(e.right), rest);
    } else {
      FactorParses(e, rest);
      AndStep(AndOperand(e) + rest, RightAssoc(e), rest);
    }
  }

  // An operand of || other than an ||
  lemma {:induction false} OrOperandParses(e: Expr, rest: seq<Token>)
    requires ChoiceFree(e) && !e.Or? && NotAnd(rest)
    ensures AndExpression(OrOperand(e) + rest, PLAIN) == Some((RightAssoc(e), rest))
    decreases e, 9
  {
    hide Factor, Expression, AndExpression, Print, AndOperand, OrOperand;
    Printed(e);
    if e.And? {
      ParensParse(e, rest);
      AndStep(OrOperand(e) + rest, RightAssoc(e), rest);
    } else {
      AndParses(e, rest);
    }
  }

  lemma {:induction false} OrTailParses(e: Expr, tail: seq<Token>, z: Expr, rest: seq<Token>)
    requires ChoiceFree(e) && Expression(tail, PLAIN) == Some((z, rest))
    ensures Expression(OrOperand(e) + [TOr] + tail, PLAIN) == Some((OrChain(RightAssoc(e), z), rest))
    decreases e, 10
  {
    hide Factor, Expression, AndExpression, Print, AndOperand, OrOperand;
    Printed(e);
    if e.Or? {
      OrTailParses(e.right, tail, z, rest);
      OrTailParses(e.left, OrOperand(e.right) + [TOr] + tail, OrChain(RightAssoc(e.right), z), rest);
      RegroupTail(OrOperand(e.left), TOr, OrOperand(e.right), tail);
      OrChainAssoc(RightAssoc(e.left), RightAssoc(e.right), z);
    } else {
      OperatorNext(OrOperand(e), TOr, tail);
      OrOperandParses(e, [TOr] + tail);
      OrStep(OrOperand(e) + [TOr] + tail, RightAssoc(e), [TOr] + tail);
      KindKept(e);
    }
  }

  lemma {:induction false} LastOrParses(e: Expr, rest: seq<Token>)
    requires ChoiceFree(e) && !e.Or? && Ends(rest)
    ensures Expression(OrOperand(e) + rest, PLAIN) == Some((RightAssoc(e), rest))
    decreases e, 10
  {
    hide Factor, Expression, AndExpression, Print, AndOperand, OrOperand, RightAssoc;
    OrOperandParses(e, rest);
    OrStep(OrOperand(e) + rest, RightAssoc(e), rest);
  }

  // An operand of || parses as an expression
  lemma {:induction false} OrParses(e: Expr, rest: seq<Token>)
    requires ChoiceFree(e) && Ends(rest)
    ensures Expression(OrOperand(e) + rest, PLAIN) == Some((RightAssoc(e), rest))
    decreases e, if e.Or? then 5 else 11
  {
    hide Factor, Expression, AndExpression, Print, AndOperand, OrOperand, Ends;
    if e.Or? {
      Printed(e);
      var tail := OrOperand(e.right) + rest;
      OrParses(e.right, rest);
      OrTailParses(e.left, tail, RightAssoc(e.right), rest);
      Regroup(OrOperand(e.left), TOr, OrOperand(e.right), rest);
    } else {
      LastOrParses(e, rest);
    }
  }

  lemma {:induction false} SimpleParses(e: Expr, rest: seq<Token>)
    requires ChoiceFree(e) && !e.And? && !e.Or? && Ends(rest)
    ensures Expression(Print(e) + rest, PLAIN) == Some((RightAssoc(e), rest))
    decreases e, 4
  {
    hide Factor, Expression, AndExpression, Print, AndOperand, OrOperand, RightAssoc;
    Printed(e);
    var ts := Print(e) + rest;
    FactorParses(e, rest);
    AndStep(ts, RightAssoc(e), rest);
    OrStep(ts, RightAssoc(e), rest);
  }

  /** Parsing what was printed, followed by anything that cannot continue an expression,
      consumes exactly that and gives the expression re-associated to the right. */
  lemma {:induction false} ExpressionParses(e: Expr, rest: seq<Token>)
    requires ChoiceFree(e) && Ends(rest)
    ensures Expression(Print(e) + rest, PLAIN) == Some((RightAssoc(e), rest))
    decreases e, 6
  {
    hide Factor, Expression, AndExpression, Print, AndOperand, OrOperand, RightAssoc;
    Printed(e);
    if e.And? {
      AndParses(e, rest);
      OrStep(Print(e) + rest, RightAssoc(e), rest);
    } else if e.Or? {
      OrParses(e, rest);
    } else {
      SimpleParses(e, rest);
    }
  }

  /** Parser and printer together: the parser accepts the printed expression completely;
      the result is the expression itself when that is right-nested, and always has the
      same value. */
  lemma PrintParseRoundTrip(e: Expr, a: Assignment)
    requires ChoiceFree(e)
    ensures var p := Expression(Print(e), PLAIN);
            && p == Some((RightAssoc(e), []))
            && (p.value.0 == e <==> RightNested(e))
            && Eval(p.value.0, a) == Eval(e, a)
  {
    ExpressionParses(e, []);
    assert Print(e) + [] == Print(e);
    RightAssocNests(e);
    RightAssocValue(e, a);
  }

  // ---------- the m rewrite ----------

  // m replaced by m && MODULES, except in relations
  function Rewritten(e: Expr, tm: Rewrite): Expr {
    match e
    case Atom(Sym(s)) => PlainSym(s, tm)
    case And(l, r) => And(Rewritten(l, tm), Rewritten(r, tm))
    case Or(l, r) => Or(Rewritten(l, tm), Rewritten(r, tm))
    case Not(a) => Not(Rewritten(a, tm))
    case _ => e
  }

  function RewrittenResult(p: Parsed, tm: Rewrite): Parsed {
    match p case Some((e, rest)) => Some((Rewritten(e, tm), rest)) case None => None
  }

  lemma {:induction false} FactorRewrites(ts: seq<Token>, tm: Rewrite)
    ensures Factor(ts, tm) == RewrittenResult(Factor(ts, PLAIN), tm)
    decreases |ts|, 0
  {
    if ts != [] {
      match ts[0]
      case TNot => FactorRewrites(ts[1..], tm);
      case TOpen => ExpressionRewrites(ts[1..], tm);
      case _ =>
    }
  }

  lemma {:induction false} AndExpressionRewrites(ts: seq<Token>, tm: Rewrite)
    ensures AndExpression(ts, tm) == RewrittenResult(AndExpression(ts, PLAIN), tm)
    decreases |ts|, 1
  {
    FactorRewrites(ts, tm);
    var p := Factor(ts, PLAIN);
    if p.Some? && p.value.1 != [] {
      AndExpressionRewrites(p.value.1[1..], tm);
    }
  }

  lemma ExpressionUnfolds(ts: seq<Token>, tm: Rewrite)
    ensures Expression(ts, tm) ==
            match AndExpression(ts, tm)
            case None => None
            case Some((e, rest)) =>
              if rest != [] && rest[0] == TOr then
                match Expression(rest[1..], tm)
                case Some((f, rest2)) => Some((Or(e, f), rest2))
                case None => None
              else Some((e, rest))
  {
  }

  /** Parsing with the m rewrite accepts the same tokens, and gives the rewritten result. */
  lemma {:induction false} ExpressionRewrites(ts: seq<Token>, tm: Rewrite)
    ensures Expression(ts, tm) == RewrittenResult(Expression(ts, PLAIN), tm)
    decreases |ts|, 2
  {
    AndExpressionRewrites(ts, tm);
    ExpressionUnfolds(ts, tm);
    ExpressionUnfolds(ts, PLAIN);
    hide Factor, AndExpression, Expression;
    var p := AndExpression(ts, PLAIN);
    if p.Some? && p.value.1 != [] {
      ExpressionRewrites(p.value.1[1..], tm);
    }
  }

  /** With the rewrite, an m in an expression is worth no more than MODULES. */
  lemma {:induction false} RewriteLimitsM(e: Expr, tm: Rewrite, a: Assignment)
    requires tm.on
    ensures Eval(Rewritten(e, tm), a) ==
            Eval(e, a.(item := (i: Item) => if i == Sym(tm.m) then Min(a.item(i), a.item(Sym(tm.modules))) else a.item(i)))
  {
    match e
    case And(l, r) => RewriteLimitsM(l, tm, a); RewriteLimitsM(r, tm, a);
    case Or(l, r) => RewriteLimitsM(l, tm, a); RewriteLimitsM(r, tm, a);
    case Not(x) => RewriteLimitsM(x, tm, a);
    case _ =>
  }
}
