/** Tristate values and dependency expressions, shared by the evaluator, the parser
    and the menu-tree modules. Symbols and choices are referred to by number. */
module Expressions {

  // n, m and y are 0, 1 and 2
  type Tri = t: nat | t <= 2

  function Min(a: Tri, b: Tri): Tri { if a < b then a else b }
  function Max(a: Tri, b: Tri): Tri { if a < b then b else a }

  datatype Item = Sym(s: nat) | Cho(c: nat)

  datatype RelOp = Equal | Unequal | Less | LessEqual | Greater | GreaterEqual

  // The operands of a relation are always symbols
  datatype Expr =
    | Atom(item: Item)
    | And(left: Expr, right: Expr)
    | Or(left: Expr, right: Expr)
    | Not(arg: Expr)
    | Rel(op: RelOp, lhs: nat, rhs: nat)

  /** What an expression is evaluated against: the tristate value of every item and
      the outcome of every relation. */
  datatype Assignment = Assignment(item: Item -> Tri, rel: (RelOp, nat, nat) -> bool)

  // AND and OR evaluate their right operand only when it can matter
  function Eval(e: Expr, a: Assignment): Tri {
    match e
    case Atom(i) => a.item(i)
    case And(l, r) =>
      var v := Eval(l, a);
      if v == 0 then 0 else Min(v, Eval(r, a))
    case Or(l, r) =>
      var v := Eval(l, a);
      if v == 2 then 2 else Max(v, Eval(r, a))
    case Not(e1) => 2 - Eval(e1, a)
    case Rel(op, l, r) => if a.rel(op, l, r) then 2 else 0
  }

  /** The connectives are the lattice operations of n < m < y with negation turning it
      round, whatever evaluation leaves out. */
  lemma ConnectivesMean(l: Expr, r: Expr, a: Assignment, v: Tri)
    ensures v <= Eval(And(l, r), a) <==> v <= Eval(l, a) && v <= Eval(r, a)
    ensures Eval(Or(l, r), a) <= v <==> Eval(l, a) <= v && Eval(r, a) <= v
    ensures Eval(Not(And(l, r)), a) == Eval(Or(Not(l), Not(r)), a)
    ensures Eval(Not(Not(l)), a) == Eval(l, a)
    ensures Eval(l, a) == 0 <==> Eval(Not(l), a) == 2
  {
  }

  // The items an expression mentions
  function Mentions(e: Expr): set<Item> {
    match e
    case Atom(i) => {i}
    case And(l, r) => Mentions(l) + Mentions(r)
    case Or(l, r) => Mentions(l) + Mentions(r)
    case Not(e1) => Mentions(e1)
    case Rel(_, l, r) => {Sym(l), Sym(r)}
  }

  /** `e` is the constant n, or a conjunction with the choice `c` among its conjuncts.
      This is the shape that propagating a choice to the conditions of the symbols
      below it gives them. */
  predicate LimitedBy(e: Expr, c: nat, n: nat) {
    match e
    case Atom(i) => i == Cho(c) || i == Sym(n)
    case And(l, r) => LimitedBy(l, c, n) || LimitedBy(r, c, n)
    case _ => false
  }

  // A condition limited by a choice never exceeds the value of the choice
  lemma {:induction false} LimitedByBounds(e: Expr, c: nat, n: nat, a: Assignment)
    requires LimitedBy(e, c, n) && a.item(Sym(n)) == 0
    ensures Eval(e, a) <= a.item(Cho(c))
    ensures Eval(e, a) != 0 ==> Cho(c) in Mentions(e)
  {
    if e.And? {
      if LimitedBy(e.left, c, n) {
        LimitedByBounds(e.left, c, n, a);
      } else {
        LimitedByBounds(e.right, c, n, a);
      }
    }
  }
}
