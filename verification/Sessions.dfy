/** Whole sessions: any sequence of changes and questions put to the caching evaluator is
    answered as the uncached definition answers it. */
module Sessions {
  import opened Expressions
  import opened Wrappers
  import opened Values
  import opened Evaluation
  import opened ConfigText
  import opened Engine

  datatype Op =
    | SetSym(s: nat, value: UserValue)
    | UnsetSym(s: nat)
    | SetChoiceMode(c: nat, mode: Tri)
    | UnsetMode(c: nat)
    | Ask(cell: Cell)
    | AskEntry(s: nat)

  datatype Answer = Done(ok: bool) | Value(v: V) | Entry(text: string)

  predicate OpOk(k: Kconf, op: Op) {
    match op
    case SetSym(s, _) => s < |k.syms|
    case UnsetSym(s) => s < |k.syms|
    case SetChoiceMode(c, _) => c < |k.choices|
    case UnsetMode(c) => c < |k.choices|
    case Ask(cell) => HasCell(k, cell)
    case AskEntry(s) => s < |k.syms|
  }

  // The user state after an operation; questions leave it alone
  function After(k: Kconf, u: User, op: Op): User {
    match op
    case SetSym(s, v) => if ValidFor(k, s, Converted(k, s, v)) then Assign(k, u, s, Converted(k, s, v)) else u
    case UnsetSym(s) => u.(values := u.values - {s})
    case SetChoiceMode(c, v) =>
      if (c in u.modes && u.modes[c] == v) || ValidMode(k, c, v) then u.(modes := u.modes[c := v]) else u
    case UnsetMode(c) => u.(modes := u.modes - {c}, selections := u.selections - {c})
    case _ => u
  }

  // What an operation answers, by the uncached definition
  ghost function AnswerTo(k: Kconf, rk: Cell -> nat, u: User, op: Op): Answer {
    match op
    case SetSym(s, v) => Done(ValidFor(k, s, Converted(k, s, v)))
    case UnsetSym(_) => Done(true)
    case SetChoiceMode(c, v) => Done((c in u.modes && u.modes[c] == v) || ValidMode(k, c, v))
    case UnsetMode(_) => Done(true)
    case Ask(cell) => Value(Evaluation.Value(k, rk, u, cell))
    case AskEntry(s) => Entry(ConfigString(k, u, Solution(k, rk, u), s))
  }

  ghost function Answers(k: Kconf, rk: Cell -> nat, u: User, ops: seq<Op>): seq<Answer>
    decreases |ops|
  {
    if ops == [] then [] else [AnswerTo(k, rk, u, ops[0])] + Answers(k, rk, After(k, u, ops[0]), ops[1..])
  }

  function Final(k: Kconf, u: User, ops: seq<Op>): User
    decreases |ops|
  {
    if ops == [] then u else Final(k, After(k, u, ops[0]), ops[1..])
  }

  method Ask1(conf: Kconfig, cell: Cell) returns (v: V)
    requires conf.Valid() && HasCell(conf.k, cell)
    modifies conf`cache, conf`flags, conf.syms, conf.choices
    ensures conf.Valid() && v == Evaluation.Value(conf.k, conf.rk, conf.user, cell)
  {
    ValueIsStep(conf.k, conf.rk, conf.user, cell);
    match cell {
      case Vis(Sym(s)) => var t := conf.SymVisibility(s); v := VTri(t);
      case Vis(Cho(c)) => var t := conf.ChoiceVisibility(c); v := VTri(t);
      case TriOf(s) => var t := conf.TriValue(s); v := VTri(t);
      case StrOf(s) => var t := conf.StrValue(s); v := VStr(t);
      case Assignable(Sym(s)) => var t := conf.SymAssignableValue(s); v := VSet(t);
      case Assignable(Cho(c)) => var t := conf.ChoiceAssignableValue(c); v := VSet(t);
      case ModeOf(c) => var t := conf.ChoiceMode(c); v := VTri(t);
      case SelOf(c) => var t := conf.Selection(c); v := VSel(t);
    }
  }

  method Perform(conf: Kconfig, op: Op) returns (a: Answer)
    requires conf.Valid() && OpOk(conf.k, op)
    modifies conf, conf.syms, conf.choices
    ensures conf.Valid()
    ensures a == AnswerTo(conf.k, conf.rk, old(conf.user), op)
    ensures conf.user == After(conf.k, old(conf.user), op)
  {
    assert |conf.syms| == |conf.k.syms| && |conf.choices| == |conf.k.choices|;
    hide Kconfig.Valid;
    match op {
      case SetSym(s, value) => var ok := conf.SetValue(s, value); a := Done(ok);
      case UnsetSym(s) => conf.UnsetValue(s); a := Done(true);
      case SetChoiceMode(c, mode) => var ok := conf.SetMode(c, mode); a := Done(ok);
      case UnsetMode(c) => conf.UnsetChoice(c); a := Done(true);
      case Ask(cell) => var v := Ask1(conf, cell); a := Value(v);
      case AskEntry(s) => var text := conf.ConfigStringOf(s); a := Entry(text);
    }
  }

  /** Every answer in a session equals the uncached value for the user state at that
      moment, however sets, unsets and questions are interleaved. */
  method Session(conf: Kconfig, ops: seq<Op>) returns (answers: seq<Answer>)
    requires conf.Valid() && forall op <- ops :: OpOk(conf.k, op)
    modifies conf, conf.syms, conf.choices
    ensures conf.Valid() && conf.user == Final(conf.k, old(conf.user), ops)
    ensures answers == Answers(conf.k, conf.rk, old(conf.user), ops)
  {
    hide Kconfig.Valid, AnswerTo, After;
    answers := [];
    for i := 0 to |ops|
      invariant conf.Valid()
      invariant Final(conf.k, old(conf.user), ops) == Final(conf.k, conf.user, ops[i..])
      invariant Answers(conf.k, conf.rk, old(conf.user), ops) ==
                answers + Answers(conf.k, conf.rk, conf.user, ops[i..])
    {
      var a := Perform(conf, ops[i]);
      assert ops[i..][1..] == ops[i + 1..];
      answers := answers + [a];
    }
  }

  predicate IsQuestion(op: Op) { op.Ask? || op.AskEntry? }

  // The operations that are not questions
  function Changes(ops: seq<Op>): seq<Op> {
    if ops == [] then [] else (if IsQuestion(ops[0]) then [] else [ops[0]]) + Changes(ops[1..])
  }

  lemma {:induction false} ChangesDecide(k: Kconf, u: User, ops: seq<Op>)
    ensures Final(k, u, ops) == Final(k, u, Changes(ops))
    decreases |ops|
  {
    if ops != [] {
      ChangesDecide(k, After(k, u, ops[0]), ops[1..]);
      if IsQuestion(ops[0]) {
        assert Changes(ops) == Changes(ops[1..]);
      } else {
        assert Changes(ops)[1..] == Changes(ops[1..]);
      }
    }
  }

  lemma {:induction false} AnswersConcat(k: Kconf, rk: Cell -> nat, u: User, xs: seq<Op>, ys: seq<Op>)
    ensures Answers(k, rk, u, xs + ys) == Answers(k, rk, u, xs) + Answers(k, rk, Final(k, u, xs), ys)
    decreases |xs|
  {
    if xs == [] {
      assert xs + ys == ys;
    } else {
      assert (xs + ys)[1..] == xs[1..] + ys;
      AnswersConcat(k, rk, After(k, u, xs[0]), xs[1..], ys);
    }
  }

  /** What has been asked before makes no difference: after two sessions with the same
      changes, the same question gets the same answer. */
  lemma AskingChangesNothing(k: Kconf, rk: Cell -> nat, u: User, xs: seq<Op>, ys: seq<Op>, q: Op)
    requires Changes(xs) == Changes(ys)
    ensures Answers(k, rk, u, xs + [q]) == Answers(k, rk, u, xs) + [AnswerTo(k, rk, Final(k, u, xs), q)]
    ensures AnswerTo(k, rk, Final(k, u, xs), q) == AnswerTo(k, rk, Final(k, u, ys), q)
  {
    ChangesDecide(k, u, xs);
    ChangesDecide(k, u, ys);
    AnswersConcat(k, rk, u, xs, [q]);
    assert [q][1..] == [];
  }
}
