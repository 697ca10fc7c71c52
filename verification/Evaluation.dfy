/** Evaluation along an order: `Value` is the uncached value of every attribute, and the
    lemmas say that it solves the defining equations, that it is their only solution,
    and that it depends only on the attributes `Reads` names. */
module Evaluation {
  import opened Expressions
  import opened Wrappers
  import opened Values

  // ---------- what an attribute might look at, whatever the values ----------

  function SymStrMay(k: Kconf, s: nat): set<Cell> {
    var d := k.SymAt(s);
    match d.orig
    case Unknown => {}
    case String => {Vis(Sym(s))} + AllMay(k, DefaultConds(d.defaults)) + NamedStrs(d.defaults)
    case Int => NumberMay(k, s)
    case Hex => NumberMay(k, s)
    case _ => {TriOf(s)}
  }

  function NumberMay(k: Kconf, s: nat): set<Cell> {
    var d := k.SymAt(s);
    {Vis(Sym(s))} + AllMay(k, DefaultConds(d.defaults)) + NamedStrs(d.defaults) +
    AllMay(k, RangeConds(d.ranges)) + BoundStrs(d.ranges)
  }

  function NamedStrs(ds: seq<Default>): set<Cell> { set d | d in ds :: StrOf(DefaultSym(d)) }
  function BoundStrs(rs: seq<Range>): set<Cell> {
    (set r | r in rs :: StrOf(r.low)) + (set r | r in rs :: StrOf(r.high))
  }

  function TypeMay(k: Kconf, s: nat): set<Cell> {
    if k.SymAt(s).orig == Tristate then ModeMay(k, s) + {TriOf(k.modules)} else {}
  }

  function FreeTriMay(k: Kconf, s: nat): set<Cell> {
    var d := k.SymAt(s);
    {Vis(Sym(s))} + AllMay(k, DefaultConds(d.defaults)) + AllMay(k, DefaultValues(d.defaults)) +
    EMay(k, d.weakRevDep) + EMay(k, d.directDep) + EMay(k, d.revDep) + TypeMay(k, s)
  }

  function May(k: Kconf, c: Cell): set<Cell> {
    match c
    case Vis(Sym(s)) => AllMay(k, k.SymAt(s).prompts) + ModeMay(k, s) + TypeMay(k, s)
    case Vis(Cho(c)) => AllMay(k, k.ChoiceAt(c).prompts) + ChoiceTypeReads(k, c)
    case TriOf(s) =>
      var d := k.SymAt(s);
      if d.fixed.Some? || !BoolTri(d.orig) then {}
      else if d.choice.Some? then {Vis(Sym(s)), SelOf(d.choice.value)}
      else FreeTriMay(k, s)
    case StrOf(s) => SymStrMay(k, s)
    case Assignable(Sym(s)) =>
      if BoolTri(k.SymAt(s).orig) then
        {Vis(Sym(s))} + EMay(k, k.SymAt(s).revDep) + EMay(k, k.SymAt(s).weakRevDep) + TypeMay(k, s)
      else {}
    case Assignable(Cho(c)) => {Vis(Cho(c))} + ChoiceTypeReads(k, c)
    case ModeOf(c) => {Vis(Cho(c))} + ChoiceTypeReads(k, c)
    case SelOf(c) =>
      var d := k.ChoiceAt(c);
      {ModeOf(c)} + AllMay(k, ChoiceConds(d.defaults)) +
      (set x | x in d.defaults :: Vis(Sym(x.sym))) + (set x | x in d.syms :: Vis(Sym(x)))
  }

  // ---------- well-formed configurations ----------

  predicate HasCell(k: Kconf, c: Cell) {
    match c.Owner()
    case Sym(s) => s < |k.syms|
    case Cho(c) => c < |k.choices|
  }

  predicate SymOk(k: Kconf, s: nat) {
    var d := k.SymAt(s);
    && (d.fixed.Some? ==> d.constant && d.orig == Tristate)
    && (d.constant ==> !d.defined)
    && (!d.defined ==> d.prompts == [] && d.defaults == [] && d.choice == None && (d.fixed == None ==> d.orig == Unknown))
    && (d.choice.Some? ==>
          d.choice.value < |k.choices| && s in k.ChoiceAt(d.choice.value).syms &&
          forall p <- d.prompts :: LimitedBy(p, d.choice.value, k.n))
    && (d.orig == String || Numeric(d.orig) ==> forall x <- d.defaults :: x.value.Atom? && x.value.item.Sym?)
  }

  predicate ChoiceOk(k: Kconf, c: nat) {
    var d := k.ChoiceAt(c);
    && (forall s <- d.syms :: s < |k.syms| && k.SymAt(s).defined)
    && (forall x <- d.defaults :: x.sym in d.syms)
  }

  // Whatever attribute `c` might look at exists and comes before it
  ghost predicate MayOk(k: Kconf, rk: Cell -> nat, c: Cell) {
    forall d <- May(k, c) :: HasCell(k, d) && rk(d) < rk(c)
  }

  /** What parsing and dependency propagation guarantee, and an order `rk` in which the
      attributes can be evaluated: nothing an attribute might look at comes after it. */
  ghost predicate WellFormed(k: Kconf, rk: Cell -> nat) {
    && k.n < |k.syms| && k.m < |k.syms| && k.y < |k.syms| && k.modules < |k.syms|
    && k.syms[k.n].fixed == Some(0) && k.syms[k.m].fixed == Some(1) && k.syms[k.y].fixed == Some(2)
    && (forall s {:trigger SymOk(k, s)} | 0 <= s < |k.syms| :: SymOk(k, s))
    && (forall c {:trigger ChoiceOk(k, c)} | 0 <= c < |k.choices| :: ChoiceOk(k, c))
    && (forall c {:trigger MayOk(k, rk, c)} | HasCell(k, c) :: MayOk(k, rk, c))
  }

  // Whether a value has the form the type of the symbol asks for
  predicate ValidFor(k: Kconf, s: nat, v: UserValue) {
    match k.SymAt(s).orig
    case Unknown => false
    case Bool => v == UTri(0) || v == UTri(2)
    case Tristate => v.UTri?
    case String => v.UStr?
    case Int => v.UStr? && k.num.parse(v.str, 10).Some?
    case Hex => v.UStr? && k.num.parse(v.str, 16).Some? && k.num.parse(v.str, 16).value >= 0
  }

  // The choice modes that have the form the type of the choice asks for
  predicate ValidMode(k: Kconf, c: nat, v: Tri) {
    (k.ChoiceAt(c).orig == Bool && v != 1) || k.ChoiceAt(c).orig == Tristate
  }

  // A user state that setting values can lead to
  predicate UserOk(k: Kconf, u: User) {
    && (forall s <- u.values :: s < |k.syms| && ValidFor(k, s, u.values[s]))
    && (forall c <- u.modes :: c < |k.choices|)
    && (forall c <- u.selections :: u.selections[c] in k.ChoiceAt(c).syms)
  }

  // ---------- Reads is covered by May ----------

  lemma {:induction false} EReadsMay(k: Kconf, env: Env, e: Expr)
    ensures EReads(k, env, e) <= EMay(k, e)
  {
    match e
    case Atom(_) =>
    case And(l, r) => EReadsMay(k, env, l); EReadsMay(k, env, r);
    case Or(l, r) => EReadsMay(k, env, l); EReadsMay(k, env, r);
    case Not(e1) => EReadsMay(k, env, e1);
    case Rel(_, _, _) =>
  }

  lemma {:induction false} AllMayAt(k: Kconf, es: seq<Expr>, i: nat)
    requires i < |es|
    ensures EMay(k, es[i]) <= AllMay(k, es)
  {
    if i < |es| - 1 {
      AllMayAt(k, es[..|es| - 1], i);
    }
  }

  lemma {:induction false} MaxReadsMay(k: Kconf, env: Env, es: seq<Expr>)
    ensures MaxReads(k, env, es) <= AllMay(k, es)
  {
    if es != [] {
      MaxReadsMay(k, env, es[..|es| - 1]);
      EReadsMay(k, env, es[|es| - 1]);
    }
  }

  lemma {:induction false} HitReadsMay(k: Kconf, env: Env, es: seq<Expr>, i: nat)
    requires i <= |es|
    ensures HitReads(k, env, es, i) <= AllMay(k, es)
    decreases |es| - i
  {
    if i < |es| {
      EReadsMay(k, env, es[i]);
      AllMayAt(k, es, i);
      HitReadsMay(k, env, es, i + 1);
    }
  }

  lemma DefaultReadsMay(k: Kconf, env: Env, s: nat)
    ensures DefaultTriReads(k, env, s) <=
            AllMay(k, DefaultConds(k.SymAt(s).defaults)) + AllMay(k, DefaultValues(k.SymAt(s).defaults))
    ensures DefaultStrReads(k, env, s) <=
            AllMay(k, DefaultConds(k.SymAt(s).defaults)) + NamedStrs(k.SymAt(s).defaults)
  {
    var ds := k.SymAt(s).defaults;
    var h := FirstHit(k, env, DefaultConds(ds), 0);
    HitReadsMay(k, env, DefaultConds(ds), 0);
    if h < |ds| {
      EReadsMay(k, env, ds[h].value);
      AllMayAt(k, DefaultValues(ds), h);
      assert ds[h] in ds;
    }
  }

  lemma RangeReadsMay(k: Kconf, env: Env, s: nat)
    ensures RangeReads(k, env, s) <= AllMay(k, RangeConds(k.SymAt(s).ranges)) + BoundStrs(k.SymAt(s).ranges)
  {
    var rs := k.SymAt(s).ranges;
    var h := FirstHit(k, env, RangeConds(rs), 0);
    HitReadsMay(k, env, RangeConds(rs), 0);
    if h < |rs| {
      assert rs[h] in rs;
    }
  }

  lemma {:induction false} DefaultSelectionReadsMay(k: Kconf, env: Env, ds: seq<ChoiceDefault>, i: nat)
    requires i <= |ds|
    ensures DefaultSelectionReads(k, env, ds, i) <=
            AllMay(k, ChoiceConds(ds)) + (set x | x in ds :: Vis(Sym(x.sym)))
    decreases |ds| - i
  {
    if i < |ds| {
      EReadsMay(k, env, ds[i].cond);
      AllMayAt(k, ChoiceConds(ds), i);
      assert ds[i] in ds;
      DefaultSelectionReadsMay(k, env, ds, i + 1);
    }
  }

  lemma {:induction false} FirstVisibleReadsMay(env: Env, syms: seq<nat>, i: nat)
    requires i <= |syms|
    ensures FirstVisibleReads(env, syms, i) <= (set x | x in syms :: Vis(Sym(x)))
    decreases |syms| - i
  {
    if i < |syms| {
      FirstVisibleReadsMay(env, syms, i + 1);
    }
  }

  lemma SymVisReadsMay(k: Kconf, env: Env, s: nat)
    ensures SymVisReads(k, env, s) <= AllMay(k, k.SymAt(s).prompts) + ModeMay(k, s) + TypeMay(k, s)
  {
    MaxReadsMay(k, env, k.SymAt(s).prompts);
  }

  lemma FreeTriReadsMay(k: Kconf, u: User, env: Env, s: nat)
    ensures FreeTriReads(k, u, env, s) <= FreeTriMay(k, s)
  {
    DefaultReadsMay(k, env, s);
    EReadsMay(k, env, k.SymAt(s).weakRevDep);
    EReadsMay(k, env, k.SymAt(s).directDep);
    EReadsMay(k, env, k.SymAt(s).revDep);
    assert TypeReads(k, env, s) <= TypeMay(k, s);
    assert PromotedReads(k, env, s) <= FreeTriMay(k, s);
    assert BaseTriReads(k, u, env, s) <= FreeTriMay(k, s);
  }

  lemma StrReadsMay(k: Kconf, u: User, env: Env, s: nat)
    ensures StrReads(k, u, env, s) <= SymStrMay(k, s)
  {
    DefaultReadsMay(k, env, s);
    RangeReadsMay(k, env, s);
  }

  lemma SymAssignableReadsMay(k: Kconf, env: Env, s: nat)
    ensures SymAssignableReads(k, env, s) <= May(k, Assignable(Sym(s)))
  {
    EReadsMay(k, env, k.SymAt(s).weakRevDep);
    EReadsMay(k, env, k.SymAt(s).revDep);
    assert TypeReads(k, env, s) <= TypeMay(k, s);
  }

  lemma SelReadsMay(k: Kconf, u: User, env: Env, c: nat)
    requires UserOk(k, u)
    ensures SelReads(k, u, env, c) <= May(k, SelOf(c))
  {
    DefaultSelectionReadsMay(k, env, k.ChoiceAt(c).defaults, 0);
    FirstVisibleReadsMay(env, k.ChoiceAt(c).syms, 0);
  }

  lemma ReadsMay(k: Kconf, u: User, env: Env, c: Cell)
    requires UserOk(k, u)
    ensures Reads(k, u, env, c) <= May(k, c)
  {
    match c
    case Vis(Sym(s)) => SymVisReadsMay(k, env, s);
    case Vis(Cho(c)) => MaxReadsMay(k, env, k.ChoiceAt(c).prompts);
    case TriOf(s) => FreeTriReadsMay(k, u, env, s);
    case StrOf(s) => StrReadsMay(k, u, env, s);
    case Assignable(Sym(s)) => SymAssignableReadsMay(k, env, s);
    case Assignable(Cho(c)) =>
    case ModeOf(c) =>
    case SelOf(c) => SelReadsMay(k, u, env, c);
  }

  // ---------- Step and Reads depend only on what is read ----------

  predicate AgreeOn(e1: Env, e2: Env, cells: set<Cell>) { forall c <- cells :: e1(c) == e2(c) }

  lemma {:induction false} EAgree(k: Kconf, e1: Env, e2: Env, e: Expr)
    requires AgreeOn(e1, e2, EReads(k, e1, e))
    ensures Ev(k, e1, e) == Ev(k, e2, e) && EReads(k, e1, e) == EReads(k, e2, e)
  {
    match e
    case Atom(i) => assert ItemCell(i) in EReads(k, e1, e);
    case And(l, r) =>
      EAgree(k, e1, e2, l);
      if Ev(k, e1, l) != 0 { EAgree(k, e1, e2, r); }
    case Or(l, r) =>
      EAgree(k, e1, e2, l);
      if Ev(k, e1, l) != 2 { EAgree(k, e1, e2, r); }
    case Not(a) => EAgree(k, e1, e2, a);
    case Rel(_, l, r) => RelAgree(k, e1, e2, l, r);
  }

  lemma RelAgree(k: Kconf, e1: Env, e2: Env, l: nat, r: nat)
    requires AgreeOn(e1, e2, RelReads(k, e1, l, r))
    ensures Compare(k, e1, l, r) == Compare(k, e2, l, r) && RelReads(k, e1, l, r) == RelReads(k, e2, l, r)
  {
    var cells := RelReads(k, e1, l, r);
    if k.SymAt(l).orig == String && k.SymAt(r).orig == String {
      assert StrOf(l) in cells && StrOf(r) in cells;
    } else {
      assert NumCell(k, l) in cells;
      assert Num(k, e1, l) == Num(k, e2, l);
      if Num(k, e1, l) == None {
        assert StrOf(l) in cells && StrOf(r) in cells;
      } else {
        assert NumCell(k, r) in cells;
        assert Num(k, e1, r) == Num(k, e2, r);
        if Num(k, e1, r) == None {
          assert StrOf(l) in cells && StrOf(r) in cells;
        }
      }
    }
  }

  lemma {:induction false} MaxAgree(k: Kconf, e1: Env, e2: Env, es: seq<Expr>)
    requires AgreeOn(e1, e2, MaxReads(k, e1, es))
    ensures MaxOf(k, e1, es) == MaxOf(k, e2, es) && MaxReads(k, e1, es) == MaxReads(k, e2, es)
  {
    if es != [] {
      MaxAgree(k, e1, e2, es[..|es| - 1]);
      EAgree(k, e1, e2, es[|es| - 1]);
    }
  }

  lemma {:induction false} HitAgree(k: Kconf, e1: Env, e2: Env, es: seq<Expr>, i: nat)
    requires i <= |es| && AgreeOn(e1, e2, HitReads(k, e1, es, i))
    ensures FirstHit(k, e1, es, i) == FirstHit(k, e2, es, i) && HitReads(k, e1, es, i) == HitReads(k, e2, es, i)
    ensures FirstHit(k, e1, es, i) < |es| ==>
              Ev(k, e1, es[FirstHit(k, e1, es, i)]) == Ev(k, e2, es[FirstHit(k, e1, es, i)])
    decreases |es| - i
  {
    if i < |es| {
      EAgree(k, e1, e2, es[i]);
      if Ev(k, e1, es[i]) == 0 {
        HitAgree(k, e1, e2, es, i + 1);
      }
    }
  }

  lemma DefaultTriAgree(k: Kconf, e1: Env, e2: Env, s: nat)
    requires AgreeOn(e1, e2, DefaultTriReads(k, e1, s))
    ensures DefaultTri(k, e1, s) == DefaultTri(k, e2, s) && DefaultTriReads(k, e1, s) == DefaultTriReads(k, e2, s)
  {
    var ds := k.SymAt(s).defaults;
    HitAgree(k, e1, e2, DefaultConds(ds), 0);
    var h := FirstHit(k, e1, DefaultConds(ds), 0);
    if h < |ds| {
      EAgree(k, e1, e2, ds[h].value);
    }
  }

  lemma DefaultStrAgree(k: Kconf, e1: Env, e2: Env, s: nat)
    requires AgreeOn(e1, e2, DefaultStrReads(k, e1, s))
    ensures DefaultStr(k, e1, s) == DefaultStr(k, e2, s) && DefaultStrReads(k, e1, s) == DefaultStrReads(k, e2, s)
  {
    HitAgree(k, e1, e2, DefaultConds(k.SymAt(s).defaults), 0);
  }

  lemma RangeAgree(k: Kconf, e1: Env, e2: Env, s: nat)
    requires AgreeOn(e1, e2, RangeReads(k, e1, s))
    ensures ActiveRange(k, e1, s) == ActiveRange(k, e2, s) && RangeReads(k, e1, s) == RangeReads(k, e2, s)
  {
    HitAgree(k, e1, e2, RangeConds(k.SymAt(s).ranges), 0);
  }

  lemma ImpliedAgree(k: Kconf, e1: Env, e2: Env, s: nat)
    requires AgreeOn(e1, e2, ImpliedReads(k, e1, s))
    ensures Implied(k, e1, s) == Implied(k, e2, s) && ImpliedReads(k, e1, s) == ImpliedReads(k, e2, s)
    ensures Ev(k, e1, k.SymAt(s).weakRevDep) == Ev(k, e2, k.SymAt(s).weakRevDep)
  {
    EAgree(k, e1, e2, k.SymAt(s).weakRevDep);
    if Ev(k, e1, k.SymAt(s).weakRevDep) != 0 {
      EAgree(k, e1, e2, k.SymAt(s).directDep);
    }
  }

  lemma PromotedAgree(k: Kconf, e1: Env, e2: Env, s: nat)
    requires AgreeOn(e1, e2, PromotedReads(k, e1, s))
    ensures Promoted(k, e1, s) == Promoted(k, e2, s) && PromotedReads(k, e1, s) == PromotedReads(k, e2, s)
  {
    TypeAgree(k, e1, e2, s);
    if TypeOf(k, e1, s) != Bool {
      EAgree(k, e1, e2, k.SymAt(s).weakRevDep);
    }
  }

  lemma TypeAgree(k: Kconf, e1: Env, e2: Env, s: nat)
    requires AgreeOn(e1, e2, TypeReads(k, e1, s))
    ensures TypeOf(k, e1, s) == TypeOf(k, e2, s) && TypeReads(k, e1, s) == TypeReads(k, e2, s)
  {
    forall c | c in TypeReads(k, e1, s) ensures e1(c) == e2(c) {}
  }

  lemma {:induction false} DefaultSelectionAgree(k: Kconf, e1: Env, e2: Env, ds: seq<ChoiceDefault>, i: nat)
    requires i <= |ds| && AgreeOn(e1, e2, DefaultSelectionReads(k, e1, ds, i))
    ensures DefaultSelection(k, e1, ds, i) == DefaultSelection(k, e2, ds, i)
    ensures DefaultSelectionReads(k, e1, ds, i) == DefaultSelectionReads(k, e2, ds, i)
    decreases |ds| - i
  {
    if i < |ds| {
      EAgree(k, e1, e2, ds[i].cond);
      if Ev(k, e1, ds[i].cond) == 0 {
        DefaultSelectionAgree(k, e1, e2, ds, i + 1);
      } else {
        assert Vis(Sym(ds[i].sym)) in DefaultSelectionReads(k, e1, ds, i);
        if TriAt(e1, Vis(Sym(ds[i].sym))) == 0 {
          DefaultSelectionAgree(k, e1, e2, ds, i + 1);
        }
      }
    }
  }

  lemma {:induction false} FirstVisibleAgree(e1: Env, e2: Env, syms: seq<nat>, i: nat)
    requires i <= |syms| && AgreeOn(e1, e2, FirstVisibleReads(e1, syms, i))
    ensures FirstVisible(e1, syms, i) == FirstVisible(e2, syms, i)
    ensures FirstVisibleReads(e1, syms, i) == FirstVisibleReads(e2, syms, i)
    decreases |syms| - i
  {
    if i < |syms| {
      assert Vis(Sym(syms[i])) in FirstVisibleReads(e1, syms, i);
      if TriAt(e1, Vis(Sym(syms[i]))) == 0 {
        FirstVisibleAgree(e1, e2, syms, i + 1);
      }
    }
  }

  lemma SelectionAgree(k: Kconf, e1: Env, e2: Env, c: nat)
    requires AgreeOn(e1, e2, SelectionFromDefaultsReads(k, e1, c))
    ensures SelectionFromDefaults(k, e1, c) == SelectionFromDefaults(k, e2, c)
    ensures SelectionFromDefaultsReads(k, e1, c) == SelectionFromDefaultsReads(k, e2, c)
  {
    DefaultSelectionAgree(k, e1, e2, k.ChoiceAt(c).defaults, 0);
    if DefaultSelection(k, e1, k.ChoiceAt(c).defaults, 0) == None {
      FirstVisibleAgree(e1, e2, k.ChoiceAt(c).syms, 0);
    }
  }

  lemma SymVisAgree(k: Kconf, e1: Env, e2: Env, s: nat)
    requires AgreeOn(e1, e2, SymVisReads(k, e1, s))
    ensures SymVis(k, e1, s) == SymVis(k, e2, s) && SymVisReads(k, e1, s) == SymVisReads(k, e2, s)
  {
    var d := k.SymAt(s);
    MaxAgree(k, e1, e2, d.prompts);
    var cells := SymVisReads(k, e1, s);
    if MaxOf(k, e1, d.prompts) != 0 {
      if d.choice.Some? && k.ChoiceAt(d.choice.value).orig == Tristate && d.orig != Tristate {
        assert ModeOf(d.choice.value) in cells;
      } else if MaxOf(k, e1, d.prompts) == 1 {
        if d.choice.Some? && d.orig == Tristate {
          assert ModeOf(d.choice.value) in cells;
          if TriAt(e1, ModeOf(d.choice.value)) != 2 {
            TypeAgree(k, e1, e2, s);
          }
        } else {
          TypeAgree(k, e1, e2, s);
        }
      }
    }
  }

  lemma ChoiceVisAgree(k: Kconf, e1: Env, e2: Env, c: nat)
    requires AgreeOn(e1, e2, ChoiceVisReads(k, e1, c))
    ensures ChoiceVis(k, e1, c) == ChoiceVis(k, e2, c) && ChoiceVisReads(k, e1, c) == ChoiceVisReads(k, e2, c)
  {
    MaxAgree(k, e1, e2, k.ChoiceAt(c).prompts);
    ChoiceTypeAgree(k, e1, e2, c, ChoiceVisReads(k, e1, c));
  }

  lemma ChoiceTypeAgree(k: Kconf, e1: Env, e2: Env, c: nat, cells: set<Cell>)
    requires AgreeOn(e1, e2, cells)
    ensures ChoiceTypeReads(k, c) <= cells ==> ChoiceType(k, e1, c) == ChoiceType(k, e2, c)
  {
    if ChoiceTypeReads(k, c) <= cells && k.ChoiceAt(c).orig == Tristate {
      assert TriOf(k.modules) in cells;
    }
  }

  lemma FreeTriAgree(k: Kconf, u: User, e1: Env, e2: Env, s: nat)
    requires AgreeOn(e1, e2, FreeTriReads(k, u, e1, s))
    ensures FreeTri(k, u, e1, s) == FreeTri(k, u, e2, s) && FreeTriReads(k, u, e1, s) == FreeTriReads(k, u, e2, s)
  {
    assert Vis(Sym(s)) in FreeTriReads(k, u, e1, s);
    EAgree(k, e1, e2, k.SymAt(s).revDep);
    if !(TriAt(e1, Vis(Sym(s))) != 0 && UserTri(u, s).Some?) {
      DefaultTriAgree(k, e1, e2, s);
      ImpliedAgree(k, e1, e2, s);
    }
    if Max(Ev(k, e1, k.SymAt(s).revDep), BaseTri(k, u, e1, s)) == 1 {
      PromotedAgree(k, e1, e2, s);
    }
  }

  lemma StrAgree(k: Kconf, u: User, e1: Env, e2: Env, s: nat)
    requires AgreeOn(e1, e2, StrReads(k, u, e1, s))
    ensures StepStr(k, u, e1, s) == StepStr(k, u, e2, s) && StrReads(k, u, e1, s) == StrReads(k, u, e2, s)
  {
    var d := k.SymAt(s);
    if d.orig == String {
      assert Vis(Sym(s)) in TextReads(k, u, e1, s);
      if !(TriAt(e1, Vis(Sym(s))) != 0 && UserStr(u, s).Some?) {
        DefaultStrAgree(k, e1, e2, s);
      }
    } else if Numeric(d.orig) {
      assert Vis(Sym(s)) in NumberReads(k, u, e1, s);
      RangeAgree(k, e1, e2, s);
      if UserNumber(k, u, e1, s) == None {
        DefaultStrAgree(k, e1, e2, s);
      }
    } else if BoolTri(d.orig) {
      assert TriOf(s) in StrReads(k, u, e1, s);
    }
  }

  lemma AssignableAgree(k: Kconf, e1: Env, e2: Env, s: nat)
    requires AgreeOn(e1, e2, SymAssignableReads(k, e1, s))
    ensures SymAssignable(k, e1, s) == SymAssignable(k, e2, s)
    ensures SymAssignableReads(k, e1, s) == SymAssignableReads(k, e2, s)
  {
    var d := k.SymAt(s);
    if BoolTri(d.orig) {
      assert Vis(Sym(s)) in SymAssignableReads(k, e1, s);
      var vis := TriAt(e1, Vis(Sym(s)));
      if vis != 0 && !(vis == 2 && d.choice.Some?) {
        EAgree(k, e1, e2, d.revDep);
        var rev := Ev(k, e1, d.revDep);
        if vis == 2 && rev != 2 {
          PromotedAgree(k, e1, e2, s);
        } else if vis == 1 && rev == 0 {
          EAgree(k, e1, e2, d.weakRevDep);
        }
      }
    }
  }

  lemma ChoiceAssignableAgree(k: Kconf, e1: Env, e2: Env, c: nat)
    requires AgreeOn(e1, e2, ChoiceAssignableReads(k, e1, c))
    ensures ChoiceAssignable(k, e1, c) == ChoiceAssignable(k, e2, c)
    ensures ChoiceAssignableReads(k, e1, c) == ChoiceAssignableReads(k, e2, c)
  {
    assert Vis(Cho(c)) in ChoiceAssignableReads(k, e1, c);
    ChoiceTypeAgree(k, e1, e2, c, ChoiceAssignableReads(k, e1, c));
  }

  lemma ModeAgree(k: Kconf, u: User, e1: Env, e2: Env, c: nat)
    requires AgreeOn(e1, e2, ModeReads(k, u, e1, c))
    ensures StepMode(k, u, e1, c) == StepMode(k, u, e2, c) && ModeReads(k, u, e1, c) == ModeReads(k, u, e2, c)
  {
    assert Vis(Cho(c)) in ModeReads(k, u, e1, c);
    ChoiceTypeAgree(k, e1, e2, c, ModeReads(k, u, e1, c));
  }

  lemma SelAgree(k: Kconf, u: User, e1: Env, e2: Env, c: nat)
    requires AgreeOn(e1, e2, SelReads(k, u, e1, c))
    ensures StepSel(k, u, e1, c) == StepSel(k, u, e2, c) && SelReads(k, u, e1, c) == SelReads(k, u, e2, c)
  {
    assert ModeOf(c) in SelReads(k, u, e1, c);
    if TriAt(e1, ModeOf(c)) == 2 {
      if c in u.selections {
        assert Vis(Sym(u.selections[c])) in SelReads(k, u, e1, c);
        if TriAt(e1, Vis(Sym(u.selections[c]))) == 0 {
          SelectionAgree(k, e1, e2, c);
        }
      } else {
        SelectionAgree(k, e1, e2, c);
      }
    }
  }

  /** The value of an attribute, and which attributes it looks at, are determined by the
      values of the attributes it looks at. */
  lemma StepAgree(k: Kconf, u: User, e1: Env, e2: Env, c: Cell)
    requires AgreeOn(e1, e2, Reads(k, u, e1, c))
    ensures Step(k, u, e1, c) == Step(k, u, e2, c) && Reads(k, u, e1, c) == Reads(k, u, e2, c)
  {
    match c
    case Vis(Sym(s)) => SymVisAgree(k, e1, e2, s);
    case Vis(Cho(c)) => ChoiceVisAgree(k, e1, e2, c);
    case TriOf(s) =>
      var d := k.SymAt(s);
      if d.fixed == None && BoolTri(d.orig) {
        if d.choice.Some? {
          assert Vis(Sym(s)) in TriReads(k, u, e1, s);
        } else {
          FreeTriAgree(k, u, e1, e2, s);
        }
      }
    case StrOf(s) => StrAgree(k, u, e1, e2, s);
    case Assignable(Sym(s)) => AssignableAgree(k, e1, e2, s);
    case Assignable(Cho(c)) => ChoiceAssignableAgree(k, e1, e2, c);
    case ModeOf(c) => ModeAgree(k, u, e1, e2, c);
    case SelOf(c) => SelAgree(k, u, e1, e2, c);
  }

  // ---------- the value of every attribute ----------

  function Value(k: Kconf, rk: Cell -> nat, u: User, c: Cell): V
    decreases rk(c)
  {
    Step(k, u, (d: Cell) => if rk(d) < rk(c) then Value(k, rk, u, d) else VTri(0), c)
  }

  function Solution(k: Kconf, rk: Cell -> nat, u: User): Env { (c: Cell) => Value(k, rk, u, c) }

  /** `Value` solves the defining equations. */
  lemma ValueIsStep(k: Kconf, rk: Cell -> nat, u: User, c: Cell)
    requires WellFormed(k, rk) && UserOk(k, u) && HasCell(k, c)
    ensures Value(k, rk, u, c) == Step(k, u, Solution(k, rk, u), c)
  {
    var below: Env := (d: Cell) => if rk(d) < rk(c) then Value(k, rk, u, d) else VTri(0);
    var env := Solution(k, rk, u);
    ReadsMay(k, u, env, c);
    assert MayOk(k, rk, c);
    StepAgree(k, u, env, below, c);
  }

  /** The equations have no other solution; in particular the values do not depend on the
      evaluation order. */
  lemma {:induction false} SolutionUnique(k: Kconf, rk: Cell -> nat, u: User, env: Env, c: Cell)
    requires WellFormed(k, rk) && UserOk(k, u) && HasCell(k, c)
    requires forall d | HasCell(k, d) :: env(d) == Step(k, u, env, d)
    ensures env(c) == Value(k, rk, u, c)
    decreases rk(c)
  {
    ValueIsStep(k, rk, u, c);
    ReadsMay(k, u, Solution(k, rk, u), c);
    assert MayOk(k, rk, c);
    forall d | d in Reads(k, u, Solution(k, rk, u), c)
      ensures env(d) == Solution(k, rk, u)(d)
    {
      SolutionUnique(k, rk, u, env, d);
    }
    StepAgree(k, u, Solution(k, rk, u), env, c);
  }

  // One step under `v` when what it looks at is as under `u`
  lemma StepOverSame(k: Kconf, rk: Cell -> nat, u: User, v: User, c: Cell)
    requires WellFormed(k, rk) && UserOk(k, u) && UserOk(k, v) && HasCell(k, c)
    requires forall d | d in May(k, c) :: Value(k, rk, v, d) == Value(k, rk, u, d)
    ensures Value(k, rk, v, c) == Step(k, v, Solution(k, rk, u), c)
  {
    ValueIsStep(k, rk, v, c);
    ReadsMay(k, v, Solution(k, rk, v), c);
    StepAgree(k, v, Solution(k, rk, v), Solution(k, rk, u), c);
  }

  /** User states that no attribute below `top` tells apart on its own give every attribute
      below `top` the same value. */
  lemma {:induction false} SameBelow(k: Kconf, rk: Cell -> nat, u: User, v: User, top: nat, c: Cell)
    requires WellFormed(k, rk) && UserOk(k, u) && UserOk(k, v) && HasCell(k, c) && rk(c) < top
    requires forall env: Env, d: Cell | HasCell(k, d) && rk(d) < top :: Step(k, u, env, d) == Step(k, v, env, d)
    ensures Value(k, rk, v, c) == Value(k, rk, u, c)
    decreases rk(c)
  {
    hide Step;
    assert MayOk(k, rk, c);
    forall d | d in May(k, c)
      ensures Value(k, rk, v, d) == Value(k, rk, u, d)
    {
      SameBelow(k, rk, u, v, top, d);
    }
    StepOverSame(k, rk, u, v, c);
    ValueIsStep(k, rk, u, c);
  }
}
