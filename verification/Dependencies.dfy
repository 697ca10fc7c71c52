/** Which items are recorded as depending on which, and why clearing the recorded
    dependents of a changed item leaves only correct cached values. */
module Dependencies {
  import opened Expressions
  import opened Wrappers
  import opened Values
  import opened Evaluation

  predicate IsConstant(k: Kconf, i: Item) { i.Sym? && k.SymAt(i.s).constant }

  // Items with a definition: every choice, and the symbols that have menu nodes
  predicate IsDefined(k: Kconf, i: Item) {
    match i case Sym(s) => s < |k.syms| && k.SymAt(s).defined case Cho(c) => c < |k.choices|
  }

  function AllMentions(es: seq<Expr>): set<Item> { set e <- es, i <- Mentions(e) :: i }
  function RangeMentions(rs: seq<Range>): set<Item> {
    (set r <- rs :: Sym(r.low)) + (set r <- rs :: Sym(r.high)) + AllMentions(RangeConds(rs))
  }

  // Everything in the properties of an item
  function PropertyMentions(k: Kconf, a: Item): set<Item> {
    match a
    case Sym(s) =>
      var d := k.SymAt(s);
      AllMentions(d.prompts) + AllMentions(DefaultValues(d.defaults)) + AllMentions(DefaultConds(d.defaults)) +
      Mentions(d.revDep) + Mentions(d.weakRevDep) + RangeMentions(d.ranges) + Mentions(d.directDep)
    case Cho(c) =>
      AllMentions(k.ChoiceAt(c).prompts) + AllMentions(ChoiceConds(k.ChoiceAt(c).defaults))
  }

  /** The items `a` is recorded as depending on: those its properties mention, constants
      excepted, and for a choice also its symbols. */
  function Recorded(k: Kconf, a: Item): set<Item> {
    if !IsDefined(k, a) then {}
    else
      (set i <- PropertyMentions(k, a) | !IsConstant(k, i)) +
      match a case Sym(_) => {} case Cho(c) => set s <- k.ChoiceAt(c).syms :: Sym(s)
  }

  // Attributes that never change and are computed without looking at the visibility
  predicate ConstCell(k: Kconf, c: Cell) {
    match c
    case TriOf(s) => k.SymAt(s).fixed.Some? || !BoolTri(k.SymAt(s).orig)
    case StrOf(s) => k.SymAt(s).fixed.Some? || k.SymAt(s).orig == Unknown
    case Assignable(Sym(s)) => !BoolTri(k.SymAt(s).orig)
    case _ => false
  }

  // ---------- every actual read is recorded ----------

  predicate OwnedBy(cells: set<Cell>, items: set<Item>) { forall c <- cells :: c.Owner() in items }

  lemma {:induction false} EReadsMentioned(k: Kconf, env: Env, e: Expr)
    ensures OwnedBy(EReads(k, env, e), Mentions(e))
  {
    match e
    case Atom(_) =>
    case And(l, r) => EReadsMentioned(k, env, l); EReadsMentioned(k, env, r);
    case Or(l, r) => EReadsMentioned(k, env, l); EReadsMentioned(k, env, r);
    case Not(e1) => EReadsMentioned(k, env, e1);
    case Rel(_, _, _) =>
  }

  lemma {:induction false} MaxReadsMentioned(k: Kconf, env: Env, es: seq<Expr>)
    ensures OwnedBy(MaxReads(k, env, es), AllMentions(es))
  {
    if es != [] {
      MaxReadsMentioned(k, env, es[..|es| - 1]);
      EReadsMentioned(k, env, es[|es| - 1]);
      assert AllMentions(es[..|es| - 1]) <= AllMentions(es);
      assert Mentions(es[|es| - 1]) <= AllMentions(es);
    }
  }

  lemma {:induction false} HitReadsMentioned(k: Kconf, env: Env, es: seq<Expr>, i: nat)
    requires i <= |es|
    ensures OwnedBy(HitReads(k, env, es, i), AllMentions(es))
    decreases |es| - i
  {
    if i < |es| {
      EReadsMentioned(k, env, es[i]);
      assert Mentions(es[i]) <= AllMentions(es);
      HitReadsMentioned(k, env, es, i + 1);
    }
  }

  lemma {:induction false} DefaultSelectionReadsMentioned(k: Kconf, env: Env, ds: seq<ChoiceDefault>, i: nat)
    requires i <= |ds|
    ensures OwnedBy(DefaultSelectionReads(k, env, ds, i), AllMentions(ChoiceConds(ds)) + (set d <- ds :: Sym(d.sym)))
    decreases |ds| - i
  {
    if i < |ds| {
      EReadsMentioned(k, env, ds[i].cond);
      assert ChoiceConds(ds)[i] == ds[i].cond;
      assert Mentions(ds[i].cond) <= AllMentions(ChoiceConds(ds));
      DefaultSelectionReadsMentioned(k, env, ds, i + 1);
    }
  }

  lemma {:induction false} FirstVisibleReadsMentioned(env: Env, syms: seq<nat>, i: nat)
    requires i <= |syms|
    ensures OwnedBy(FirstVisibleReads(env, syms, i), set s <- syms :: Sym(s))
    decreases |syms| - i
  {
    if i < |syms| {
      FirstVisibleReadsMentioned(env, syms, i + 1);
    }
  }

  lemma DefaultReadsMentioned(k: Kconf, env: Env, s: nat)
    requires k.SymAt(s).orig == String || Numeric(k.SymAt(s).orig) ==>
               forall x <- k.SymAt(s).defaults :: x.value.Atom? && x.value.item.Sym?
    ensures OwnedBy(DefaultTriReads(k, env, s), PropertyMentions(k, Sym(s)))
    ensures k.SymAt(s).orig == String || Numeric(k.SymAt(s).orig) ==>
              OwnedBy(DefaultStrReads(k, env, s), PropertyMentions(k, Sym(s)))
  {
    var ds := k.SymAt(s).defaults;
    var h := FirstHit(k, env, DefaultConds(ds), 0);
    HitReadsMentioned(k, env, DefaultConds(ds), 0);
    if h < |ds| {
      EReadsMentioned(k, env, ds[h].value);
      assert DefaultValues(ds)[h] == ds[h].value;
      assert Mentions(ds[h].value) <= AllMentions(DefaultValues(ds));
    }
  }

  lemma RangeReadsMentioned(k: Kconf, env: Env, s: nat)
    ensures OwnedBy(RangeReads(k, env, s), PropertyMentions(k, Sym(s)))
  {
    var rs := k.SymAt(s).ranges;
    var h := FirstHit(k, env, RangeConds(rs), 0);
    HitReadsMentioned(k, env, RangeConds(rs), 0);
    if h < |rs| {
      assert Sym(rs[h].low) in RangeMentions(rs) && Sym(rs[h].high) in RangeMentions(rs);
    }
  }

  // The owners an attribute of `a` may look at: `a`, MODULES and what the properties of `a` mention
  function Allowed(k: Kconf, a: Item): set<Item> { {a, Sym(k.modules)} + PropertyMentions(k, a) }

  lemma {:induction false} NonZeroPrompt(k: Kconf, env: Env, es: seq<Expr>) returns (e: Expr)
    requires MaxOf(k, env, es) != 0
    ensures e in es && Ev(k, env, e) != 0
  {
    if Ev(k, env, es[|es| - 1]) != 0 {
      e := es[|es| - 1];
    } else {
      e := NonZeroPrompt(k, env, es[..|es| - 1]);
    }
  }

  // A choice symbol that could be visible has its choice in a prompt condition
  lemma ChoiceMentioned(k: Kconf, env: Env, s: nat)
    requires SymOk(k, s) && TriAt(env, TriOf(k.n)) == 0
    requires MaxOf(k, env, k.SymAt(s).prompts) != 0
    ensures k.SymAt(s).choice.Some? ==> Cho(k.SymAt(s).choice.value) in PropertyMentions(k, Sym(s))
  {
    if k.SymAt(s).choice.Some? {
      var e := NonZeroPrompt(k, env, k.SymAt(s).prompts);
      LimitedByBounds(e, k.SymAt(s).choice.value, k.n, AssignmentOf(k, env));
    }
  }

  lemma SymVisReadsMentioned(k: Kconf, env: Env, s: nat)
    requires SymOk(k, s) && TriAt(env, TriOf(k.n)) == 0
    ensures OwnedBy(SymVisReads(k, env, s), Allowed(k, Sym(s)))
  {
    MaxReadsMentioned(k, env, k.SymAt(s).prompts);
    if MaxOf(k, env, k.SymAt(s).prompts) != 0 {
      ChoiceMentioned(k, env, s);
    }
  }

  lemma TriReadsMentioned(k: Kconf, u: User, env: Env, s: nat)
    requires SymOk(k, s) && TriAt(env, TriOf(k.n)) == 0
    requires TriAt(env, Vis(Sym(s))) == SymVis(k, env, s)
    ensures OwnedBy(TriReads(k, u, env, s), Allowed(k, Sym(s)))
  {
    var d := k.SymAt(s);
    if d.fixed == None && BoolTri(d.orig) {
      if d.choice.Some? {
        if SymVis(k, env, s) == 2 { ChoiceMentioned(k, env, s); }
      } else {
        DefaultReadsMentioned(k, env, s);
        EReadsMentioned(k, env, d.weakRevDep);
        EReadsMentioned(k, env, d.directDep);
        EReadsMentioned(k, env, d.revDep);
        assert OwnedBy(PromotedReads(k, env, s), Allowed(k, Sym(s)));
        assert OwnedBy(BaseTriReads(k, u, env, s), Allowed(k, Sym(s)));
      }
    }
  }

  lemma StrReadsMentioned(k: Kconf, u: User, env: Env, s: nat)
    requires SymOk(k, s)
    ensures OwnedBy(StrReads(k, u, env, s), Allowed(k, Sym(s)))
  {
    DefaultReadsMentioned(k, env, s);
    RangeReadsMentioned(k, env, s);
  }

  lemma AssignableReadsMentioned(k: Kconf, env: Env, s: nat)
    requires SymOk(k, s)
    ensures OwnedBy(SymAssignableReads(k, env, s), Allowed(k, Sym(s)))
  {
    EReadsMentioned(k, env, k.SymAt(s).weakRevDep);
    EReadsMentioned(k, env, k.SymAt(s).revDep);
    if k.SymAt(s).choice == None {
      assert OwnedBy(PromotedReads(k, env, s), Allowed(k, Sym(s)));
    } else {
      var d := k.SymAt(s);
      if BoolTri(d.orig) && TriAt(env, Vis(Sym(s))) == 1 {
        assert OwnedBy(SymAssignableReads(k, env, s), Allowed(k, Sym(s)));
      }
    }
  }

  lemma ChoiceReadsMentioned(k: Kconf, u: User, env: Env, c: nat)
    requires ChoiceOk(k, c) && UserOk(k, u)
    ensures OwnedBy(ChoiceVisReads(k, env, c), Allowed(k, Cho(c)))
    ensures OwnedBy(SelReads(k, u, env, c), Allowed(k, Cho(c)) + set s <- k.ChoiceAt(c).syms :: Sym(s))
  {
    MaxReadsMentioned(k, env, k.ChoiceAt(c).prompts);
    DefaultSelectionReadsMentioned(k, env, k.ChoiceAt(c).defaults, 0);
    FirstVisibleReadsMentioned(env, k.ChoiceAt(c).syms, 0);
  }

  /** Under the true values, everything an attribute of `a` looks at belongs to `a`, to a
      constant, to MODULES, or to an item `a` is recorded as depending on. */
  lemma ReadsRecorded(k: Kconf, rk: Cell -> nat, u: User, c: Cell, r: Cell)
    requires WellFormed(k, rk) && UserOk(k, u) && HasCell(k, c)
    requires r in Reads(k, u, Solution(k, rk, u), c)
    ensures r.Owner() == c.Owner() || IsConstant(k, r.Owner()) ||
            (IsDefined(k, c.Owner()) && (r.Owner() == Sym(k.modules) || r.Owner() in Recorded(k, c.Owner())))
  {
    var env := Solution(k, rk, u);
    ValueIsStep(k, rk, u, TriOf(k.n));
    match c.Owner()
    case Sym(s) =>
      ValueIsStep(k, rk, u, Vis(Sym(s)));
      SymVisReadsMentioned(k, env, s);
      TriReadsMentioned(k, u, env, s);
      StrReadsMentioned(k, u, env, s);
      AssignableReadsMentioned(k, env, s);
      if !IsDefined(k, Sym(s)) { UndefinedReads(k, rk, u, c); }
    case Cho(ch) =>
      ChoiceReadsMentioned(k, u, env, ch);
  }

  // An item without a definition looks only at itself
  lemma UndefinedReads(k: Kconf, rk: Cell -> nat, u: User, c: Cell)
    requires WellFormed(k, rk) && UserOk(k, u) && HasCell(k, c) && !IsDefined(k, c.Owner())
    ensures OwnedBy(Reads(k, u, Solution(k, rk, u), c), {c.Owner()})
  {
    var env := Solution(k, rk, u);
    ValueIsStep(k, rk, u, Vis(c.Owner()));
    var s := c.Owner().s;
    assert SymOk(k, s);
    UndefinedOwn(k, u, env, c, s);
  }

  lemma UndefinedOwn(k: Kconf, u: User, env: Env, c: Cell, s: nat)
    requires c.Owner() == Sym(s) && SymOk(k, s) && !k.SymAt(s).defined
    requires TriAt(env, Vis(Sym(s))) == SymVis(k, env, s)
    ensures OwnedBy(Reads(k, u, env, c), {Sym(s)})
  {
    var d := k.SymAt(s);
    assert MaxOf(k, env, d.prompts) == 0 && MaxReads(k, env, d.prompts) == {};
    assert SymVisReads(k, env, s) == {} && SymVis(k, env, s) == 0;
    assert TriReads(k, u, env, s) == {};
    assert StrReads(k, u, env, s) <= {TriOf(s)};
    assert SymAssignableReads(k, env, s) <= {Vis(Sym(s))};
  }

  // ---------- coherent caches ----------

  /** A cache that holds only true values, is closed under what its entries look at, and
      has the visibility of every item it holds anything about. */
  ghost predicate Coherent(k: Kconf, rk: Cell -> nat, u: User, cache: map<Cell, V>) {
    && (forall c {:trigger EntryOk(k, rk, u, cache, c)} :: c in cache ==> EntryOk(k, rk, u, cache, c))
    && (forall s {:trigger k.SymAt(s).fixed} | 0 <= s < |k.syms| && k.SymAt(s).fixed.Some? :: TriOf(s) in cache)
  }

  ghost predicate EntryOk(k: Kconf, rk: Cell -> nat, u: User, cache: map<Cell, V>, c: Cell) {
    && c in cache
    && HasCell(k, c)
    && cache[c] == Value(k, rk, u, c)
    && Reads(k, u, Solution(k, rk, u), c) <= cache.Keys
    && (ConstCell(k, c) || Vis(c.Owner()) in cache)
  }

  function Without(cache: map<Cell, V>, gone: set<Item>): map<Cell, V> {
    map c <- cache | c.Owner() !in gone :: cache[c]
  }

  /** What invalidating leaves behind: `gone` are the items cleared; none is a constant,
      MODULES takes every defined item with it, and nothing recorded as depending on a
      cleared item still has a cached visibility. */
  ghost predicate Invalidated(k: Kconf, cache: map<Cell, V>, gone: set<Item>) {
    && (forall b <- gone :: !IsConstant(k, b))
    && (Sym(k.modules) in gone ==> forall a | IsDefined(k, a) :: a in gone)
    && (forall a, b | b in gone && b in Recorded(k, a) :: Vis(a) in cache ==> a in gone)
  }

  // The same user input for one item
  predicate SameInput(u: User, v: User, i: Item) {
    match i
    case Sym(s) => (s in u.values <==> s in v.values) && (s in u.values && s in v.values ==> u.values[s] == v.values[s])
    case Cho(c) =>
      && (c in u.modes <==> c in v.modes) && (c in u.modes && c in v.modes ==> u.modes[c] == v.modes[c])
      && (c in u.selections <==> c in v.selections)
      && (c in u.selections && c in v.selections ==> u.selections[c] == v.selections[c])
  }

  // One step uses only the user input of the attribute's owner, and none when that is
  // invisible or the attribute is a constant one
  lemma StepSameInput(k: Kconf, u: User, v: User, env: Env, c: Cell)
    requires SameInput(u, v, c.Owner()) || (c.Owner().Sym? && TriAt(env, Vis(c.Owner())) == 0) || ConstCell(k, c)
    requires c.Owner().Sym? ==> SymOk(k, c.Owner().s)
    ensures Step(k, u, env, c) == Step(k, v, env, c)
    ensures Reads(k, u, env, c) == Reads(k, v, env, c)
  {
    if !ConstCell(k, c) {
      match c
      case Vis(_) =>
      case TriOf(s) => assert BaseTri(k, u, env, s) == BaseTri(k, v, env, s);
      case StrOf(s) => assert UserNumber(k, u, env, s) == UserNumber(k, v, env, s);
      case Assignable(_) =>
      case ModeOf(_) =>
      case SelOf(_) =>
    }
  }

  // A constant attribute looks only at its owner
  lemma ConstCellReads(k: Kconf, rk: Cell -> nat, u: User, c: Cell)
    requires WellFormed(k, rk) && HasCell(k, c) && ConstCell(k, c)
    ensures OwnedBy(Reads(k, u, Solution(k, rk, u), c), {c.Owner()})
  {
    assert SymOk(k, c.Owner().s);
  }

  // What survives an invalidation is still closed under what it looks at
  lemma SurvivorsClosed(k: Kconf, rk: Cell -> nat, u: User, cache: map<Cell, V>, gone: set<Item>, c: Cell)
    requires WellFormed(k, rk) && UserOk(k, u) && Coherent(k, rk, u, cache) && Invalidated(k, cache, gone)
    requires c in Without(cache, gone)
    ensures Reads(k, u, Solution(k, rk, u), c) <= Without(cache, gone).Keys
  {
    assert EntryOk(k, rk, u, cache, c);
    forall r | r in Reads(k, u, Solution(k, rk, u), c)
      ensures r in Without(cache, gone)
    {
      assert r in cache;
      ReadSurvives(k, rk, u, cache, gone, c, r);
    }
  }

  lemma ReadSurvives(k: Kconf, rk: Cell -> nat, u: User, cache: map<Cell, V>, gone: set<Item>, c: Cell, r: Cell)
    requires WellFormed(k, rk) && UserOk(k, u) && Invalidated(k, cache, gone)
    requires HasCell(k, c) && (ConstCell(k, c) || Vis(c.Owner()) in cache) && c.Owner() !in gone
    requires r in Reads(k, u, Solution(k, rk, u), c)
    ensures r.Owner() !in gone
  {
    ReadsRecorded(k, rk, u, c, r);
    if ConstCell(k, c) {
      ConstCellReads(k, rk, u, c);
    }
  }

  // A surviving attribute keeps its value when only the inputs of cleared or invisible items change
  lemma {:induction false} SurvivorKeepsValue(
    k: Kconf, rk: Cell -> nat, u: User, v: User, cache: map<Cell, V>, gone: set<Item>, c: Cell)
    requires WellFormed(k, rk) && UserOk(k, u) && UserOk(k, v)
    requires Coherent(k, rk, u, cache) && Invalidated(k, cache, gone)
    requires forall i | i !in gone :: SameInput(u, v, i) || Ineffective(k, i) || Vis(i) !in cache
    requires c in Without(cache, gone)
    ensures Value(k, rk, v, c) == Value(k, rk, u, c)
    ensures Reads(k, v, Solution(k, rk, v), c) == Reads(k, u, Solution(k, rk, u), c)
    decreases rk(c)
  {
    var e1, e2 := Solution(k, rk, u), Solution(k, rk, v);
    assert EntryOk(k, rk, u, cache, c);
    SurvivorsClosed(k, rk, u, cache, gone, c);
    assert MayOk(k, rk, c);
    ReadsMay(k, u, e1, c);
    forall r | r in Reads(k, u, e1, c)
      ensures e1(r) == e2(r)
    {
      SurvivorKeepsValue(k, rk, u, v, cache, gone, r);
    }
    StepAgree(k, u, e1, e2, c);
    ValueIsStep(k, rk, u, c);
    ValueIsStep(k, rk, v, c);
    if !SameInput(u, v, c.Owner()) && Ineffective(k, c.Owner()) {
      IneffectiveInvisible(k, rk, v, c.Owner());
    }
    StepSameInput(k, u, v, e2, c);
  }

  // A symbol without a prompt that could become visible
  predicate Ineffective(k: Kconf, i: Item) {
    && i.Sym? && i.s < |k.syms|
    && (k.SymAt(i.s).prompts == [] ||
        (k.SymAt(i.s).choice.Some? && Cho(k.SymAt(i.s).choice.value) !in PropertyMentions(k, i)))
  }

  // Such a symbol is invisible whatever the user sets
  lemma IneffectiveInvisible(k: Kconf, rk: Cell -> nat, u: User, i: Item)
    requires WellFormed(k, rk) && UserOk(k, u) && Ineffective(k, i)
    ensures TriAt(Solution(k, rk, u), Vis(i)) == 0
  {
    var env := Solution(k, rk, u);
    ValueIsStep(k, rk, u, TriOf(k.n));
    ValueIsStep(k, rk, u, Vis(i));
    if MaxOf(k, env, k.SymAt(i.s).prompts) != 0 {
      ChoiceMentioned(k, env, i.s);
    }
  }

  /** After an invalidation every entry left in the cache is right for the new user
      state, whatever changed about the cleared items. */
  lemma InvalidationSound(k: Kconf, rk: Cell -> nat, u: User, v: User, cache: map<Cell, V>, gone: set<Item>)
    requires WellFormed(k, rk) && UserOk(k, u) && UserOk(k, v)
    requires Coherent(k, rk, u, cache) && Invalidated(k, cache, gone)
    requires forall i | i !in gone :: SameInput(u, v, i) || Ineffective(k, i) || Vis(i) !in cache
    ensures Coherent(k, rk, v, Without(cache, gone))
  {
    forall c | c in Without(cache, gone)
      ensures EntryOk(k, rk, v, Without(cache, gone), c)
    {
      assert EntryOk(k, rk, u, cache, c);
      SurvivorKeepsValue(k, rk, u, v, cache, gone, c);
      SurvivorsClosed(k, rk, u, cache, gone, c);
    }
    forall s | 0 <= s < |k.syms| && k.SymAt(s).fixed.Some?
      ensures TriOf(s) in Without(cache, gone)
    {
      assert SymOk(k, s);
    }
  }

  // ---------- the .config flag ----------

  // The attribute whose computation sets the .config flag of a symbol
  function FlagCell(k: Kconf, s: nat): Cell { if BoolTri(k.SymAt(s).orig) then TriOf(s) else StrOf(s) }

  lemma WrittenAgree(k: Kconf, u: User, e1: Env, e2: Env, s: nat)
    requires AgreeOn(e1, e2, Reads(k, u, e1, FlagCell(k, s)))
    ensures WrittenToConf(k, u, e1, s) == WrittenToConf(k, u, e2, s)
  {
    var d := k.SymAt(s);
    var cells := Reads(k, u, e1, FlagCell(k, s));
    if d.orig != Unknown && (d.fixed == None || !BoolTri(d.orig)) {
      assert Vis(Sym(s)) in cells;
      if TriAt(e1, Vis(Sym(s))) == 0 {
        if !BoolTri(d.orig) {
          DefaultStrAgree(k, e1, e2, s);
        } else if d.choice == None {
          DefaultTriAgree(k, e1, e2, s);
          ImpliedAgree(k, e1, e2, s);
          EAgree(k, e1, e2, d.revDep);
        }
      }
    }
  }

  /** The flag of a symbol whose value survives an invalidation stays right as well. */
  lemma FlagSurvives(k: Kconf, rk: Cell -> nat, u: User, v: User, cache: map<Cell, V>, gone: set<Item>, s: nat)
    requires WellFormed(k, rk) && UserOk(k, u) && UserOk(k, v)
    requires Coherent(k, rk, u, cache) && Invalidated(k, cache, gone)
    requires forall i | i !in gone :: SameInput(u, v, i) || Ineffective(k, i) || Vis(i) !in cache
    requires s < |k.syms| && FlagCell(k, s) in Without(cache, gone)
    ensures WrittenToConf(k, u, Solution(k, rk, u), s) == WrittenToConf(k, v, Solution(k, rk, v), s)
  {
    var c := FlagCell(k, s);
    var e1, e2 := Solution(k, rk, u), Solution(k, rk, v);
    assert EntryOk(k, rk, u, cache, c);
    SurvivorsClosed(k, rk, u, cache, gone, c);
    forall r | r in Reads(k, u, e1, c)
      ensures e1(r) == e2(r)
    {
      SurvivorKeepsValue(k, rk, u, v, cache, gone, r);
    }
    WrittenAgree(k, u, e1, e2, s);
    assert SymOk(k, s);
  }
}
