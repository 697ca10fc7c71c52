/** What the mode of a choice means for the symbols in it. */
module ChoiceModes {
  import opened Expressions
  import opened Wrappers
  import opened Values
  import opened Evaluation
  import opened Dependencies

  // A choice of type bool or tristate whose symbols are bool or tristate and in no other choice
  predicate ProperChoice(k: Kconf, c: nat) {
    && c < |k.choices| && BoolTri(k.ChoiceAt(c).orig)
    && forall s <- k.ChoiceAt(c).syms ::
         k.SymAt(s).choice == Some(c) && BoolTri(k.SymAt(s).orig) && k.SymAt(s).fixed == None
  }

  function VisAt(k: Kconf, rk: Cell -> nat, u: User, s: nat): Tri { TriAt(Solution(k, rk, u), Vis(Sym(s))) }
  function TriVal(k: Kconf, rk: Cell -> nat, u: User, s: nat): Tri { TriAt(Solution(k, rk, u), TriOf(s)) }
  function Mode(k: Kconf, rk: Cell -> nat, u: User, c: nat): Tri { TriAt(Solution(k, rk, u), ModeOf(c)) }

  lemma {:induction false} MaxBounded(k: Kconf, env: Env, es: seq<Expr>, c: nat)
    requires TriAt(env, TriOf(k.n)) == 0 && forall e <- es :: LimitedBy(e, c, k.n)
    ensures MaxOf(k, env, es) <= TriAt(env, ModeOf(c))
  {
    if es != [] {
      MaxBounded(k, env, es[..|es| - 1], c);
      LimitedByBounds(es[|es| - 1], c, k.n, AssignmentOf(k, env));
    }
  }

  // The equations of a member of a choice
  lemma MemberEquations(k: Kconf, rk: Cell -> nat, u: User, c: nat, s: nat)
    requires WellFormed(k, rk) && UserOk(k, u) && ProperChoice(k, c) && s in k.ChoiceAt(c).syms
    ensures VisAt(k, rk, u, s) == SymVis(k, Solution(k, rk, u), s)
    ensures TriVal(k, rk, u, s) == MemberTri(k, u, Solution(k, rk, u), s)
    ensures MaxOf(k, Solution(k, rk, u), k.SymAt(s).prompts) <= Mode(k, rk, u, c)
    ensures Mode(k, rk, u, c) == StepMode(k, u, Solution(k, rk, u), c)
  {
    assert ChoiceOk(k, c);
    assert SymOk(k, s);
    ValueIsStep(k, rk, u, TriOf(k.n));
    ValueIsStep(k, rk, u, Vis(Sym(s)));
    ValueIsStep(k, rk, u, TriOf(s));
    ValueIsStep(k, rk, u, ModeOf(c));
    MaxBounded(k, Solution(k, rk, u), k.SymAt(s).prompts, c);
  }

  /** A member is never more visible than its choice's mode allows: in y mode it is fully
      visible or not at all, in m mode it is at most m, in n mode it is invisible. */
  lemma MemberVisibility(k: Kconf, rk: Cell -> nat, u: User, c: nat, s: nat)
    requires WellFormed(k, rk) && UserOk(k, u) && ProperChoice(k, c) && s in k.ChoiceAt(c).syms
    ensures VisAt(k, rk, u, s) <= Mode(k, rk, u, c)
    ensures Mode(k, rk, u, c) == 2 ==> VisAt(k, rk, u, s) != 1
  {
    MemberEquations(k, rk, u, c, s);
    var env := Solution(k, rk, u);
    if Mode(k, rk, u, c) == 1 {
      // an m mode means a tristate choice with modules enabled
      assert k.ChoiceAt(c).orig == Tristate && TriAt(env, TriOf(k.modules)) != 0;
    }
  }

  lemma {:induction false} DefaultSelectionVisible(k: Kconf, env: Env, ds: seq<ChoiceDefault>, i: nat, syms: seq<nat>)
    requires i <= |ds| && forall d <- ds :: d.sym in syms
    ensures DefaultSelection(k, env, ds, i).Some? ==>
              DefaultSelection(k, env, ds, i).value in syms &&
              TriAt(env, Vis(Sym(DefaultSelection(k, env, ds, i).value))) != 0
    decreases |ds| - i
  {
    if i < |ds| {
      DefaultSelectionVisible(k, env, ds, i + 1, syms);
    }
  }

  lemma {:induction false} FirstVisibleIs(env: Env, syms: seq<nat>, i: nat)
    requires i <= |syms|
    ensures FirstVisible(env, syms, i).Some? ==>
              FirstVisible(env, syms, i).value in syms &&
              TriAt(env, Vis(Sym(FirstVisible(env, syms, i).value))) != 0
    ensures FirstVisible(env, syms, i).None? ==> forall s <- syms[i..] :: TriAt(env, Vis(Sym(s))) == 0
    decreases |syms| - i
  {
    if i < |syms| {
      FirstVisibleIs(env, syms, i + 1);
      assert syms[i..] == [syms[i]] + syms[i + 1..];
    }
  }

  /** In y mode the selection is one of the choice's visible symbols, the user's if that is
      visible, and there is none only when no symbol is visible. */
  lemma SelectionInYMode(k: Kconf, rk: Cell -> nat, u: User, c: nat)
    requires WellFormed(k, rk) && UserOk(k, u) && ProperChoice(k, c) && Mode(k, rk, u, c) == 2
    ensures var sel := SelAt(Solution(k, rk, u), c);
            && (sel.Some? ==> sel.value in k.ChoiceAt(c).syms && VisAt(k, rk, u, sel.value) != 0)
            && (sel.None? ==> forall s <- k.ChoiceAt(c).syms :: VisAt(k, rk, u, s) == 0)
            && (c in u.selections && VisAt(k, rk, u, u.selections[c]) != 0 ==> sel == Some(u.selections[c]))
  {
    assert ChoiceOk(k, c);
    var env := Solution(k, rk, u);
    var d := k.ChoiceAt(c);
    ValueIsStep(k, rk, u, SelOf(c));
    DefaultSelectionVisible(k, env, d.defaults, 0, d.syms);
    FirstVisibleIs(env, d.syms, 0);
    assert d.syms[0..] == d.syms;
  }

  // Exactly one of `syms` is y, and the others are n
  ghost predicate OneIsY(k: Kconf, rk: Cell -> nat, u: User, syms: seq<nat>) {
    exists s :: s in syms && TriVal(k, rk, u, s) == 2 && forall t <- syms :: t != s ==> TriVal(k, rk, u, t) == 0
  }

  /** In y mode exactly one symbol is y if any is visible, and every other is n; in m mode
      every symbol is n or m; in n mode every symbol is n. The user's values and selection
      make no difference to that. */
  lemma ChoiceModesHold(k: Kconf, rk: Cell -> nat, u: User, c: nat)
    requires WellFormed(k, rk) && UserOk(k, u) && ProperChoice(k, c)
    ensures var syms := k.ChoiceAt(c).syms;
            match Mode(k, rk, u, c)
            case 2 => if exists s <- syms :: VisAt(k, rk, u, s) != 0 then OneIsY(k, rk, u, syms)
                      else forall s <- syms :: TriVal(k, rk, u, s) == 0
            case 1 => forall s <- syms :: TriVal(k, rk, u, s) <= 1
            case _ => forall s <- syms :: TriVal(k, rk, u, s) == 0
  {
    var syms := k.ChoiceAt(c).syms;
    forall s | s in syms
      ensures TriVal(k, rk, u, s) == MemberTri(k, u, Solution(k, rk, u), s)
      ensures VisAt(k, rk, u, s) <= Mode(k, rk, u, c)
      ensures Mode(k, rk, u, c) == 2 ==> VisAt(k, rk, u, s) != 1
    {
      MemberEquations(k, rk, u, c, s);
      MemberVisibility(k, rk, u, c, s);
    }
    if Mode(k, rk, u, c) == 2 && exists s <- syms :: VisAt(k, rk, u, s) != 0 {
      SelectionInYMode(k, rk, u, c);
      var sel := SelAt(Solution(k, rk, u), c).value;
      assert TriVal(k, rk, u, sel) == 2;
    }
  }
}
