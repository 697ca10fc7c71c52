/** The configuration that the finalised menu entries make, and that it has the form which
    evaluating, saving and loading it rely on. */
module MenuConfig {
  import opened Expressions
  import opened Wrappers
  import opened Values
  import opened Evaluation
  import opened Propagation
  import opened RoundTrips

  function ConstsOf(k: Kconf): Consts { Consts(k.n, k.y) }

  // The prompt conditions of a symbol or choice, over all its entries
  ghost function PromptsOf(k: Consts, es: seq<Entry>, i: Item): seq<Expr> {
    if es == [] then []
    else
      var e := es[|es| - 1];
      PromptsOf(k, es[..|es| - 1], i) +
      if EntryOf(e, i) && e.parsed.prompt.Some? && HasProperties(e) then [Final(k, e).prompt.value] else []
  }

  ghost function BuiltSym(k: Kconf, st: Store, es: seq<Entry>, s: nat): SymDef
    requires s < |k.syms|
  {
    var (d, o) := (k.syms[s], Collected(ConstsOf(k), st, es)(Sym(s)));
    if d.defined then
      d.(prompts := PromptsOf(ConstsOf(k), es, Sym(s)), defaults := o.defaults, ranges := o.ranges,
         revDep := o.revDep, weakRevDep := o.weakRevDep, directDep := o.directDep)
    else d
  }

  ghost function BuiltChoice(k: Kconf, st: Store, es: seq<Entry>, c: nat): ChoiceDef
    requires c < |k.choices|
  {
    var ds := Collected(ConstsOf(k), st, es)(Cho(c)).defaults;
    k.choices[c].(
      prompts := PromptsOf(ConstsOf(k), es, Cho(c)),
      defaults := seq(|ds|, i requires 0 <= i < |ds| => ChoiceDefault(DefaultSym(ds[i]), ds[i].cond)))
  }

  /** The configuration with the properties that are collected from the entries `es`; all
      the rest is that of `k`. */
  ghost function Built(k: Kconf, st: Store, es: seq<Entry>): Kconf {
    k.(syms := seq(|k.syms|, s requires 0 <= s < |k.syms| => BuiltSym(k, st, es, s)),
       choices := seq(|k.choices|, c requires 0 <= c < |k.choices| => BuiltChoice(k, st, es, c)))
  }

  // Every prompt is that of an entry
  lemma {:induction false} PromptFrom(k: Consts, es: seq<Entry>, i: Item, p: Expr) returns (e: Entry)
    requires p in PromptsOf(k, es, i)
    ensures e in es && EntryOf(e, i) && e.parsed.prompt.Some? && HasProperties(e) && p == Final(k, e).prompt.value
  {
    e := es[|es| - 1];
    if p in PromptsOf(k, es[..|es| - 1], i) {
      e := PromptFrom(k, es[..|es| - 1], i, p);
    }
  }

  // The maximum is one of the conditions, or n if there is none
  lemma {:induction false} MaxIsOne(k: Kconf, env: Env, es: seq<Expr>)
    ensures MaxOf(k, env, es) != 0 ==> exists e <- es :: Ev(k, env, e) == MaxOf(k, env, es)
  {
    if es != [] {
      MaxIsOne(k, env, es[..|es| - 1]);
      assert es[|es| - 1] in es && forall e <- es[..|es| - 1] :: e in es;
    }
  }

  /** The visibility that a symbol's prompts give it never exceeds its direct dependencies. */
  lemma PromptsUnderDeps(k: Kconf, st: Store, es: seq<Entry>, s: nat, env: Env)
    requires s < |k.syms| && k.syms[s].defined && TriAt(env, TriOf(k.n)) == 0 && TriAt(env, TriOf(k.y)) == 2
    ensures var b := Built(k, st, es);
            MaxOf(b, env, b.SymAt(s).prompts) <= Ev(b, env, b.SymAt(s).directDep)
  {
    var b := Built(k, st, es);
    var ps := PromptsOf(ConstsOf(k), es, Sym(s));
    assert b.SymAt(s).prompts == ps && b.SymAt(s).directDep == Collected(ConstsOf(k), st, es)(Sym(s)).directDep;
    MaxIsOne(b, env, ps);
    hide Built, PromptsOf, Final, Collected, MaxOf;
    if MaxOf(b, env, ps) != 0 {
      var p :| p in ps && Ev(b, env, p) == MaxOf(b, env, ps);
      var e := PromptFrom(ConstsOf(k), es, Sym(s), p);
      PromptUnderDirectDep(ConstsOf(k), st, es, e, Sym(s), AssignmentOf(b, env));
    }
  }

  /** The round trips' demand on prompts holds of every configuration made from a menu. */
  lemma MenuPromptsNeedDeps(k: Kconf, rk: Cell -> nat, st: Store, es: seq<Entry>)
    requires WellFormed(Built(k, st, es), rk)
    ensures PromptsNeedDeps(Built(k, st, es), rk)
  {
    var b := Built(k, st, es);
    forall u, s: nat | UserOk(b, u) && s < |b.syms|
      ensures MaxOf(b, Solution(b, rk, u), b.SymAt(s).prompts) != 0 ==> Ev(b, Solution(b, rk, u), b.SymAt(s).directDep) != 0
    {
      ConstantsHold(b, rk, u);
      assert SymOk(b, s) && b.SymAt(s).defined == k.syms[s].defined;
      hide WellFormed, Solution, SymOk;
      if k.syms[s].defined {
        PromptsUnderDeps(k, st, es, s, Solution(b, rk, u));
      } else {
        assert MaxOf(b, Solution(b, rk, u), []) == 0;
      }
    }
  }

  lemma ConstantsHold(k: Kconf, rk: Cell -> nat, u: User)
    requires WellFormed(k, rk) && UserOk(k, u)
    ensures TriAt(Solution(k, rk, u), TriOf(k.n)) == 0 && TriAt(Solution(k, rk, u), TriOf(k.y)) == 2
  {
    ValueIsStep(k, rk, u, TriOf(k.n));
    ValueIsStep(k, rk, u, TriOf(k.y));
  }

  // Wherever a symbol of a choice has a prompt, it has it in the choice
  ghost predicate PromptsInChoice(k: Kconf, es: seq<Entry>) {
    forall e <- es, s: nat | s < |k.syms| && k.syms[s].choice.Some? && EntryOf(e, Sym(s)) && e.parsed.prompt.Some? ::
      InChoice(e, k.syms[s].choice.value)
  }

  /** The prompts of the symbols in a choice are limited by the choice, as evaluation
      demands, in every configuration made from a menu. */
  lemma MenuPromptsLimited(k: Kconf, st: Store, es: seq<Entry>, s: nat)
    requires PromptsInChoice(k, es) && k.n != k.y && s < |k.syms| && k.syms[s].defined && k.syms[s].choice.Some?
    ensures forall p <- Built(k, st, es).SymAt(s).prompts :: LimitedBy(p, k.syms[s].choice.value, k.n)
  {
    var c := k.syms[s].choice.value;
    forall p | p in PromptsOf(ConstsOf(k), es, Sym(s)) ensures LimitedBy(p, c, k.n) {
      var e := PromptFrom(ConstsOf(k), es, Sym(s), p);
      PromptLimited(ConstsOf(k), e, c);
    }
  }
}
