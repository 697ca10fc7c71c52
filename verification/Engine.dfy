/** The caching evaluator: symbols and choices with cache slots that are filled while
    values are computed and cleared, along recorded dependencies and no further than
    needed, when the user changes something. */
module Engine {
  import opened Expressions
  import opened Wrappers
  import opened Values
  import opened Evaluation
  import opened Dependencies
  import opened ConfigText

  class Symbol {
    const id: nat
    var userValue: Option<UserValue>
    var cachedStr: Option<string>
    var cachedTri: Option<Tri>
    var cachedVis: Option<Tri>
    var cachedAssignable: Option<seq<Tri>>
    var writeToConf: bool
    var wasSet: bool

    constructor (id: nat, fixed: Option<Tri>)
      ensures this.id == id
      ensures userValue == None && cachedStr == None && cachedVis == None && cachedAssignable == None
      ensures cachedTri == fixed && !writeToConf && !wasSet
    {
      this.id := id;
      userValue, cachedStr, cachedTri, cachedVis, cachedAssignable := None, None, fixed, None, None;
      writeToConf, wasSet := false, false;
    }

    // Forgets everything computed; the next question works it out anew
    method Invalidate()
      modifies this`cachedStr, this`cachedTri, this`cachedVis, this`cachedAssignable
      ensures cachedStr == None && cachedTri == None && cachedVis == None && cachedAssignable == None
    {
      cachedStr, cachedTri, cachedVis, cachedAssignable := None, None, None, None;
    }
  }

  class Choice {
    const id: nat
    var userValue: Option<Tri>
    var userSelection: Option<nat>
    var cachedVis: Option<Tri>
    var cachedAssignable: Option<seq<Tri>>
    var cachedSelection: Option<Option<nat>>
    var wasSet: bool

    constructor (id: nat)
      ensures this.id == id
      ensures userValue == None && userSelection == None && !wasSet
      ensures cachedVis == None && cachedAssignable == None && cachedSelection == None
    {
      this.id := id;
      userValue, userSelection, cachedVis, cachedAssignable, cachedSelection := None, None, None, None, None;
      wasSet := false;
    }

    method Invalidate()
      modifies this`cachedVis, this`cachedAssignable, this`cachedSelection
      ensures cachedVis == None && cachedAssignable == None && cachedSelection == None
    {
      cachedVis, cachedAssignable, cachedSelection := None, None, None;
    }
  }

  // Adding a correct, closed entry keeps a cache coherent
  lemma CoherentPut(k: Kconf, rk: Cell -> nat, u: User, cache: map<Cell, V>, c: Cell, v: V)
    requires WellFormed(k, rk) && UserOk(k, u) && Coherent(k, rk, u, cache) && HasCell(k, c)
    requires v == Step(k, u, Solution(k, rk, u), c)
    requires Reads(k, u, Solution(k, rk, u), c) <= cache.Keys
    requires ConstCell(k, c) || c == Vis(c.Owner()) || Vis(c.Owner()) in cache
    ensures Coherent(k, rk, u, cache[c := v])
  {
    ValueIsStep(k, rk, u, c);
    forall d {:trigger EntryOk(k, rk, u, cache[c := v], d)} | d in cache[c := v]
      ensures EntryOk(k, rk, u, cache[c := v], d)
    {
      if d != c {
        assert EntryOk(k, rk, u, cache, d);
      }
    }
  }

  // What a slot holds, against the cache
  predicate TriSlot(cache: map<Cell, V>, slot: Option<Tri>, c: Cell) {
    if c in cache then slot.Some? && cache[c] == VTri(slot.value) else slot == None
  }
  predicate StrSlot(cache: map<Cell, V>, slot: Option<string>, c: Cell) {
    if c in cache then slot.Some? && cache[c] == VStr(slot.value) else slot == None
  }
  predicate SetSlot(cache: map<Cell, V>, slot: Option<seq<Tri>>, c: Cell) {
    if c in cache then slot.Some? && cache[c] == VSet(slot.value) else slot == None
  }
  predicate SelSlot(cache: map<Cell, V>, slot: Option<Option<nat>>, c: Cell) {
    if c in cache then slot.Some? && cache[c] == VSel(slot.value) else slot == None
  }

  // A new selection fills no other slot
  lemma SlotsElsewhere(cache: map<Cell, V>, c: nat, v: V)
    ensures var w := cache[SelOf(c) := v];
            && (forall slot: Option<Tri>, x: Cell | x != SelOf(c) :: TriSlot(w, slot, x) <==> TriSlot(cache, slot, x))
            && (forall slot: Option<string>, x: Cell | x != SelOf(c) :: StrSlot(w, slot, x) <==> StrSlot(cache, slot, x))
            && (forall slot: Option<seq<Tri>>, x: Cell | x != SelOf(c) :: SetSlot(w, slot, x) <==> SetSlot(cache, slot, x))
  {
  }

  predicate Holds<T(==)>(m: map<nat, T>, i: nat, slot: Option<T>) {
    if i in m then slot == Some(m[i]) else slot == None
  }

  predicate HasFlag(k: Kconf, s: nat) { k.SymAt(s).orig != Unknown && k.SymAt(s).fixed == None }

  // The .config flag is right whenever the value it is computed with is cached
  ghost predicate FlagOk(k: Kconf, rk: Cell -> nat, u: User, cache: map<Cell, V>, flags: seq<bool>, s: nat)
    requires s < |flags|
  {
    if HasFlag(k, s) then FlagCell(k, s) in cache ==> flags[s] == WrittenToConf(k, u, Solution(k, rk, u), s)
    else !flags[s]
  }

  /** Every cached value and every .config flag in force is right for the user state. */
  ghost predicate Sound(k: Kconf, rk: Cell -> nat, u: User, cache: map<Cell, V>, flags: seq<bool>) {
    && Coherent(k, rk, u, cache)
    && |flags| == |k.syms|
    && forall s {:trigger FlagOk(k, rk, u, cache, flags, s)} | 0 <= s < |flags| :: FlagOk(k, rk, u, cache, flags, s)
  }

  // ---------- recording dependencies ----------

  function DependentsOf(deps: map<Item, set<Item>>, b: Item): set<Item> {
    if b in deps then deps[b] else {}
  }

  // Everything an item's properties consist of
  function PropertyExprs(k: Kconf, a: Item): seq<Expr> {
    match a
    case Sym(s) =>
      var d := k.SymAt(s);
      d.prompts + DefaultValues(d.defaults) + DefaultConds(d.defaults) + [d.revDep, d.weakRevDep] +
      RangeExprs(d.ranges) + [d.directDep]
    case Cho(c) => k.ChoiceAt(c).prompts + ChoiceConds(k.ChoiceAt(c).defaults)
  }

  function RangeExprs(rs: seq<Range>): seq<Expr> {
    seq(|rs|, i requires 0 <= i < |rs| => Atom(Sym(rs[i].low))) +
    seq(|rs|, i requires 0 <= i < |rs| => Atom(Sym(rs[i].high))) + RangeConds(rs)
  }

  lemma AllMentionsConcat(xs: seq<Expr>, ys: seq<Expr>)
    ensures AllMentions(xs + ys) == AllMentions(xs) + AllMentions(ys)
  {
    forall i | i in AllMentions(xs) + AllMentions(ys)
      ensures i in AllMentions(xs + ys)
    {
      var e :| (e in xs || e in ys) && i in Mentions(e);
      assert e in xs + ys;
    }
  }

  lemma BoundsMention(rs: seq<Range>, lows: seq<Expr>, highs: seq<Expr>)
    requires |lows| == |highs| == |rs|
    requires forall i | 0 <= i < |rs| :: lows[i] == Atom(Sym(rs[i].low)) && highs[i] == Atom(Sym(rs[i].high))
    ensures AllMentions(lows) == set r | r in rs :: Sym(r.low)
    ensures AllMentions(highs) == set r | r in rs :: Sym(r.high)
  {
    forall r | r in rs
      ensures Sym(r.low) in AllMentions(lows) && Sym(r.high) in AllMentions(highs)
    {
      var i :| 0 <= i < |rs| && rs[i] == r;
      assert lows[i] in lows && Sym(r.low) in Mentions(lows[i]);
      assert highs[i] in highs && Sym(r.high) in Mentions(highs[i]);
    }
  }

  lemma RangeExprsMention(rs: seq<Range>)
    ensures AllMentions(RangeExprs(rs)) == RangeMentions(rs)
  {
    var lows := seq(|rs|, i requires 0 <= i < |rs| => Atom(Sym(rs[i].low)));
    var highs := seq(|rs|, i requires 0 <= i < |rs| => Atom(Sym(rs[i].high)));
    BoundsMention(rs, lows, highs);
    AllMentionsConcat(lows, highs);
    AllMentionsConcat(lows + highs, RangeConds(rs));
    hide AllMentions;
  }

  lemma PropertyExprsMention(k: Kconf, a: Item)
    ensures AllMentions(PropertyExprs(k, a)) == PropertyMentions(k, a)
  {
    match a
    case Sym(s) =>
      var d := k.SymAt(s);
      var p1 := d.prompts + DefaultValues(d.defaults);
      var p2 := p1 + DefaultConds(d.defaults);
      var p3 := p2 + [d.revDep, d.weakRevDep];
      var p4 := p3 + RangeExprs(d.ranges);
      AllMentionsConcat(d.prompts, DefaultValues(d.defaults));
      AllMentionsConcat(p1, DefaultConds(d.defaults));
      AllMentionsConcat(p2, [d.revDep, d.weakRevDep]);
      AllMentionsConcat(p3, RangeExprs(d.ranges));
      AllMentionsConcat(p4, [d.directDep]);
      RangeExprsMention(d.ranges);
    case Cho(c) => AllMentionsConcat(k.ChoiceAt(c).prompts, ChoiceConds(k.ChoiceAt(c).defaults));
  }

  method AddDependent(deps: map<Item, set<Item>>, b: Item, a: Item) returns (r: map<Item, set<Item>>)
    ensures forall x :: DependentsOf(r, x) == DependentsOf(deps, x) + if x == b then {a} else {}
  {
    r := deps[b := DependentsOf(deps, b) + {a}];
  }

  // Adds `a` as a dependent of every item in `e` that is not a constant
  method DependOn(k: Kconf, deps: map<Item, set<Item>>, a: Item, e: Expr) returns (r: map<Item, set<Item>>)
    ensures forall b :: DependentsOf(r, b) ==
              DependentsOf(deps, b) + if b in Mentions(e) && !IsConstant(k, b) then {a} else {}
    decreases e
  {
    match e
    case Atom(i) =>
      r := deps;
      if !IsConstant(k, i) {
        r := AddDependent(deps, i, a);
      }
    case And(x, y) =>
      r := DependOn(k, deps, a, x);
      r := DependOn(k, r, a, y);
    case Or(x, y) =>
      r := DependOn(k, deps, a, x);
      r := DependOn(k, r, a, y);
    case Not(x) => r := DependOn(k, deps, a, x);
    case Rel(_, x, y) =>
      r := deps;
      if !IsConstant(k, Sym(x)) {
        r := AddDependent(r, Sym(x), a);
      }
      if !IsConstant(k, Sym(y)) {
        r := AddDependent(r, Sym(y), a);
      }
  }

  // Adds `a` as a dependent of everything its properties mention
  method DependOnAll(k: Kconf, deps: map<Item, set<Item>>, a: Item) returns (r: map<Item, set<Item>>)
    ensures forall b, x :: x in DependentsOf(r, b) <==>
              x in DependentsOf(deps, b) || (x == a && b in PropertyMentions(k, a) && !IsConstant(k, b))
  {
    var es := PropertyExprs(k, a);
    r := deps;
    for i := 0 to |es|
      invariant forall b :: DependentsOf(r, b) ==
                  DependentsOf(deps, b) + if b in AllMentions(es[..i]) && !IsConstant(k, b) then {a} else {}
    {
      AllMentionsConcat(es[..i], [es[i]]);
      assert es[..i + 1] == es[..i] + [es[i]];
      assert AllMentions([es[i]]) == Mentions(es[i]);
      r := DependOn(k, r, a, es[i]);
    }
    assert es[..|es|] == es;
    PropertyExprsMention(k, a);
  }

  method AddChoiceDeps(k: Kconf, deps: map<Item, set<Item>>, c: nat) returns (r: map<Item, set<Item>>)
    ensures forall b, x :: x in DependentsOf(r, b) <==>
              x in DependentsOf(deps, b) || (x == Cho(c) && b.Sym? && b.s in k.ChoiceAt(c).syms)
  {
    var ss := k.ChoiceAt(c).syms;
    r := deps;
    for i := 0 to |ss|
      invariant forall b :: DependentsOf(r, b) ==
                  DependentsOf(deps, b) + if b.Sym? && b.s in ss[..i] then {Cho(c)} else {}
    {
      assert ss[..i + 1] == ss[..i] + [ss[i]];
      r := AddDependent(r, Sym(ss[i]), Cho(c));
    }
    assert ss[..|ss|] == ss;
  }

  // `b` is a dependency of `a` through its properties
  predicate PropertyDep(k: Kconf, a: Item, b: Item) {
    IsDefined(k, a) && b in PropertyMentions(k, a) && !IsConstant(k, b)
  }

  // ... and for a choice, through its symbols
  predicate MemberDep(k: Kconf, a: Item, b: Item) {
    IsDefined(k, a) && a.Cho? && b.Sym? && b.s in k.ChoiceAt(a.c).syms
  }

  method BuildSymDeps(k: Kconf) returns (deps: map<Item, set<Item>>)
    ensures forall a, b :: a in DependentsOf(deps, b) <==> a.Sym? && PropertyDep(k, a, b)
  {
    deps := map[];
    assert forall b :: DependentsOf(deps, b) == {};
    hide PropertyMentions, IsConstant, DependentsOf;
    for s := 0 to |k.syms|
      invariant forall a, b :: a in DependentsOf(deps, b) <==> a.Sym? && a.s < s && PropertyDep(k, a, b)
    {
      if k.SymAt(s).defined {
        deps := DependOnAll(k, deps, Sym(s));
      }
    }
  }

  method BuildChoiceDeps(k: Kconf, deps: map<Item, set<Item>>) returns (r: map<Item, set<Item>>)
    ensures forall a, b :: a in DependentsOf(r, b) <==> a in DependentsOf(deps, b) || (a.Cho? && PropertyDep(k, a, b))
  {
    hide PropertyMentions, IsConstant, DependentsOf;
    r := deps;
    for c := 0 to |k.choices|
      invariant forall a, b :: a in DependentsOf(r, b) <==>
                  a in DependentsOf(deps, b) || (a.Cho? && a.c < c && PropertyDep(k, a, b))
    {
      r := DependOnAll(k, r, Cho(c));
    }
  }

  method AddMemberDeps(k: Kconf, deps: map<Item, set<Item>>) returns (r: map<Item, set<Item>>)
    ensures forall a, b :: a in DependentsOf(r, b) <==> a in DependentsOf(deps, b) || MemberDep(k, a, b)
  {
    r := deps;
    for c := 0 to |k.choices|
      invariant forall a, b :: a in DependentsOf(r, b) <==>
                  a in DependentsOf(deps, b) || (MemberDep(k, a, b) && a.c < c)
    {
      r := AddChoiceDeps(k, r, c);
    }
    hide DependentsOf;
    forall a, b ensures a in DependentsOf(r, b) <==> a in DependentsOf(deps, b) || MemberDep(k, a, b) {
      assert MemberDep(k, a, b) ==> a.c < |k.choices|;
    }
  }

  /** Builds the dependents of every item: from the properties of the defined symbols and
      of the choices, then from every choice to its symbols. */
  method BuildDep(k: Kconf) returns (deps: map<Item, set<Item>>)
    ensures forall a, b :: a in DependentsOf(deps, b) <==> b in Recorded(k, a)
  {
    deps := BuildSymDeps(k);
    deps := BuildChoiceDeps(k, deps);
    deps := AddMemberDeps(k, deps);
    hide DependentsOf, PropertyDep, MemberDep, Recorded;
    forall a, b ensures a in DependentsOf(deps, b) <==> b in Recorded(k, a) {
      RecordedIs(k, a, b);
    }
  }

  lemma RecordedIs(k: Kconf, a: Item, b: Item)
    ensures b in Recorded(k, a) <==> PropertyDep(k, a, b) || MemberDep(k, a, b)
  {
    hide PropertyMentions, IsConstant;
  }

  // A correct, closed entry can be added once the flag computed along with it is right
  lemma SoundPut(k: Kconf, rk: Cell -> nat, u: User, cache: map<Cell, V>, flags: seq<bool>, c: Cell, v: V)
    requires WellFormed(k, rk) && UserOk(k, u) && Sound(k, rk, u, cache, flags) && HasCell(k, c)
    requires v == Step(k, u, Solution(k, rk, u), c)
    requires Reads(k, u, Solution(k, rk, u), c) <= cache.Keys
    requires ConstCell(k, c) || c == Vis(c.Owner()) || Vis(c.Owner()) in cache
    requires c.Owner().Sym? && c == FlagCell(k, c.Owner().s) && HasFlag(k, c.Owner().s) ==>
               flags[c.Owner().s] == WrittenToConf(k, u, Solution(k, rk, u), c.Owner().s)
    ensures Sound(k, rk, u, cache[c := v], flags)
  {
    CoherentPut(k, rk, u, cache, c, v);
    forall s {:trigger FlagOk(k, rk, u, cache[c := v], flags, s)} | 0 <= s < |flags|
      ensures FlagOk(k, rk, u, cache[c := v], flags, s)
    {
      assert FlagOk(k, rk, u, cache, flags, s);
    }
  }

  lemma SoundFlag(k: Kconf, rk: Cell -> nat, u: User, cache: map<Cell, V>, flags: seq<bool>, s: nat, flag: bool)
    requires Sound(k, rk, u, cache, flags) && s < |flags| && HasFlag(k, s)
    requires flag == WrittenToConf(k, u, Solution(k, rk, u), s)
    ensures Sound(k, rk, u, cache, flags[s := flag])
  {
    forall x {:trigger FlagOk(k, rk, u, cache, flags[s := flag], x)} | 0 <= x < |flags|
      ensures FlagOk(k, rk, u, cache, flags[s := flag], x)
    {
      assert FlagOk(k, rk, u, cache, flags, x);
    }
  }

  // A change of the user state together with an invalidation that covers it
  ghost predicate Covered(k: Kconf, u: User, v: User, cache: map<Cell, V>, gone: set<Item>) {
    && Invalidated(k, cache, gone)
    && forall i | i !in gone :: SameInput(u, v, i) || Ineffective(k, i) || Vis(i) !in cache
  }

  lemma SoundAfterChange(
    k: Kconf, rk: Cell -> nat, u: User, v: User, cache: map<Cell, V>, flags: seq<bool>, gone: set<Item>)
    requires WellFormed(k, rk) && UserOk(k, u) && UserOk(k, v)
    requires Sound(k, rk, u, cache, flags) && Covered(k, u, v, cache, gone)
    ensures Sound(k, rk, v, Without(cache, gone), flags)
  {
    InvalidationSound(k, rk, u, v, cache, gone);
    forall s | 0 <= s < |flags|
      ensures FlagOk(k, rk, v, Without(cache, gone), flags, s)
    {
      assert FlagOk(k, rk, u, cache, flags, s);
      if HasFlag(k, s) && FlagCell(k, s) in Without(cache, gone) {
        FlagSurvives(k, rk, u, v, cache, gone, s);
      }
    }
  }

  function InitialCache(k: Kconf): map<Cell, V> {
    map s | 0 <= s < |k.syms| && k.SymAt(s).fixed.Some? :: TriOf(s) := VTri(k.SymAt(s).fixed.value)
  }

  lemma InitiallySound(k: Kconf, rk: Cell -> nat, flags: seq<bool>)
    requires WellFormed(k, rk) && |flags| == |k.syms| && forall s | 0 <= s < |flags| :: !flags[s]
    ensures Sound(k, rk, User(map[], map[], map[]), InitialCache(k), flags)
  {
    var u := User(map[], map[], map[]);
    forall c | c in InitialCache(k)
      ensures EntryOk(k, rk, u, InitialCache(k), c)
    {
      ValueIsStep(k, rk, u, c);
    }
  }

  lemma InitialSlots(k: Kconf)
    ensures forall s: nat | s < |k.syms| :: TriSlot(InitialCache(k), k.SymAt(s).fixed, TriOf(s))
    ensures forall c :: c in InitialCache(k) ==> c.TriOf?
  {
  }

  // The user state after a symbol is given a value: y also makes it the selection of its choice
  function Assign(k: Kconf, u: User, s: nat, v: UserValue): User {
    var c := k.SymAt(s).choice;
    u.(values := u.values[s := v],
       selections := if c.Some? && v == UTri(2) then u.selections[c.value := s] else u.selections)
  }

  // n, m and y may also be given as text
  function Converted(k: Kconf, s: nat, v: UserValue): UserValue {
    if BoolTri(k.SymAt(s).orig) && v.UStr? && v.str in ["n", "m", "y"] then
      UTri(if v.str == "n" then 0 else if v.str == "m" then 1 else 2)
    else v
  }

  // Symbol objects nothing has been set or computed for, except the constants' values
  ghost predicate FreshSyms(k: Kconf, syms: seq<Symbol>)
    reads syms
  {
    && |syms| == |k.syms|
    && forall s | 0 <= s < |syms| ::
         && syms[s].id == s && syms[s].userValue == None && !syms[s].wasSet && !syms[s].writeToConf
         && syms[s].cachedVis == None && syms[s].cachedStr == None && syms[s].cachedAssignable == None
         && syms[s].cachedTri == k.SymAt(s).fixed
  }

  ghost predicate FreshChoices(k: Kconf, choices: seq<Choice>)
    reads choices
  {
    && |choices| == |k.choices|
    && forall c | 0 <= c < |choices| ::
         && choices[c].id == c && choices[c].userValue == None && choices[c].userSelection == None
         && !choices[c].wasSet && choices[c].cachedVis == None
         && choices[c].cachedAssignable == None && choices[c].cachedSelection == None
  }

  method NewSyms(k: Kconf) returns (syms: seq<Symbol>)
    ensures FreshSyms(k, syms) && fresh(set o <- syms)
  {
    syms := [];
    for i := 0 to |k.syms|
      invariant |syms| == i && fresh(set o <- syms)
      invariant forall s | 0 <= s < |syms| ::
                  && syms[s].id == s && syms[s].userValue == None && !syms[s].wasSet && !syms[s].writeToConf
                  && syms[s].cachedVis == None && syms[s].cachedStr == None && syms[s].cachedAssignable == None
                  && syms[s].cachedTri == k.SymAt(s).fixed
    {
      var o := new Symbol(i, k.SymAt(i).fixed);
      syms := syms + [o];
    }
  }

  method NewChoices(k: Kconf) returns (choices: seq<Choice>)
    ensures FreshChoices(k, choices) && fresh(set o <- choices)
  {
    choices := [];
    for i := 0 to |k.choices|
      invariant |choices| == i && fresh(set o <- choices)
      invariant forall c | 0 <= c < |choices| ::
                  && choices[c].id == c && choices[c].userValue == None && choices[c].userSelection == None
                  && !choices[c].wasSet && choices[c].cachedVis == None
                  && choices[c].cachedAssignable == None && choices[c].cachedSelection == None
    {
      var o := new Choice(i);
      choices := choices + [o];
    }
  }

  class Kconfig {
    const k: Kconf
    ghost const rk: Cell -> nat
    const syms: seq<Symbol>
    const choices: seq<Choice>
    const dependents: map<Item, set<Item>>  // item._dependents
    ghost var cache: map<Cell, V>
    ghost var flags: seq<bool>
    ghost var user: User
    ghost var touched: set<Item>  // the items whose wasSet mark is on

    /** A configuration nobody has set anything in. */
    constructor (k: Kconf, ghost rk: Cell -> nat)
      requires WellFormed(k, rk)
      ensures Valid() && this.k == k && this.rk == rk
      ensures user == User(map[], map[], map[]) && touched == {}
      ensures fresh(set o <- syms) && fresh(set o <- choices)
    {
      var syms := NewSyms(k);
      var choices := NewChoices(k);
      var dependents := BuildDep(k);
      this.k, this.rk, this.syms, this.choices, this.dependents := k, rk, syms, choices, dependents;
      this.cache := InitialCache(k);
      this.flags := seq(|k.syms|, _ => false);
      this.user := User(map[], map[], map[]);
      this.touched := {};
      new;
      hide *;
      InitiallyValid();
    }

    lemma InitiallyValid()
      requires WellFormed(k, rk) && FreshSyms(k, syms) && FreshChoices(k, choices)
      requires forall a, b :: a in DependentsOf(dependents, b) <==> b in Recorded(k, a)
      requires cache == InitialCache(k) && flags == seq(|k.syms|, _ => false)
      requires user == User(map[], map[], map[]) && touched == {}
      ensures Valid()
    {
      InitiallySound(k, rk, flags);
      assert UserOk(k, user);
      InitiallySynced();
      hide InitialCache, Sound, WellFormed, UserOk, Synced;
    }

    lemma InitiallySynced()
      requires FreshSyms(k, syms) && FreshChoices(k, choices)
      requires cache == InitialCache(k) && flags == seq(|k.syms|, _ => false)
      requires user == User(map[], map[], map[]) && touched == {}
      ensures Synced()
    {
      InitialSlots(k);
      hide InitialCache;
    }

    // ---------- representation ----------

    ghost predicate Distinct() {
      && |syms| == |k.syms| && |choices| == |k.choices|
      && (forall i | 0 <= i < |syms| :: syms[i].id == i)
      && (forall i | 0 <= i < |choices| :: choices[i].id == i)
    }

    ghost predicate DependentsOk() {
      forall a, b {:trigger a in DependentsOf(dependents, b)} :: a in DependentsOf(dependents, b) <==> b in Recorded(k, a)
    }

    /** The fields of the objects hold what the ghost state says. The mode of a choice is
        not stored anywhere. */
    ghost predicate Synced()
      reads this`cache, this`flags, this`user, this`touched, syms, choices
    {
      && |flags| == |syms|
      && (forall s {:trigger syms[s]} | 0 <= s < |syms| ::
            && TriSlot(cache, syms[s].cachedVis, Vis(Sym(s)))
            && TriSlot(cache, syms[s].cachedTri, TriOf(s))
            && StrSlot(cache, syms[s].cachedStr, StrOf(s))
            && SetSlot(cache, syms[s].cachedAssignable, Assignable(Sym(s)))
            && syms[s].writeToConf == flags[s]
            && Holds(user.values, s, syms[s].userValue)
            && syms[s].wasSet == (Sym(s) in touched))
      && (forall c {:trigger choices[c]} | 0 <= c < |choices| ::
            && TriSlot(cache, choices[c].cachedVis, Vis(Cho(c)))
            && SetSlot(cache, choices[c].cachedAssignable, Assignable(Cho(c)))
            && SelSlot(cache, choices[c].cachedSelection, SelOf(c))
            && Holds(user.modes, c, choices[c].userValue)
            && Holds(user.selections, c, choices[c].userSelection)
            && choices[c].wasSet == (Cho(c) in touched))
    }

    ghost function Sol(): Env reads this`user { Solution(k, rk, user) }

    ghost predicate Valid()
      reads this`cache, this`flags, this`user, this`touched, syms, choices
    {
      && WellFormed(k, rk) && UserOk(k, user) && Distinct() && DependentsOk()
      && Synced()
      && Sound(k, rk, user, cache, flags)
    }

    // Everything but the values being right, as while invalidating
    ghost predicate Linked()
      reads this`cache, this`flags, this`user, this`touched, syms, choices
    {
      WellFormed(k, rk) && Distinct() && DependentsOk() && Synced()
    }

    // The cache may have been filled further; nothing else changed
    twostate predicate Grown()
      reads this, syms, choices
    {
      Valid() && user == old(user) && old(cache).Keys <= cache.Keys
    }

    ghost predicate Below(cells: set<Cell>, bound: nat) {
      forall c <- cells :: HasCell(k, c) && rk(c) < bound
    }

    // ---------- filling slots ----------

    function SymAt(s: nat): Symbol
      requires s < |syms|
    {
      syms[s]
    }

    function ChoiceAt(c: nat): Choice
      requires c < |choices|
    {
      choices[c]
    }

    method PutSymVis(s: nat, v: Tri)
      requires Valid() && s < |syms|
      requires Sound(k, rk, user, cache[Vis(Sym(s)) := VTri(v)], flags)
      modifies this`cache, SymAt(s)`cachedVis
      ensures Valid() && cache == old(cache)[Vis(Sym(s)) := VTri(v)]
    {
      hide Sound, WellFormed, UserOk, DependentsOk, Holds;
      syms[s].cachedVis := Some(v);
      cache := cache[Vis(Sym(s)) := VTri(v)];
    }

    method PutChoiceVis(c: nat, v: Tri)
      requires Valid() && c < |choices|
      requires Sound(k, rk, user, cache[Vis(Cho(c)) := VTri(v)], flags)
      modifies this`cache, ChoiceAt(c)`cachedVis
      ensures Valid() && cache == old(cache)[Vis(Cho(c)) := VTri(v)]
    {
      hide Sound, WellFormed, UserOk, DependentsOk, Holds;
      choices[c].cachedVis := Some(v);
      cache := cache[Vis(Cho(c)) := VTri(v)];
    }

    method PutTri(s: nat, v: Tri)
      requires Valid() && s < |syms|
      requires Sound(k, rk, user, cache[TriOf(s) := VTri(v)], flags)
      modifies this`cache, SymAt(s)`cachedTri
      ensures Valid() && cache == old(cache)[TriOf(s) := VTri(v)]
    {
      hide Sound, WellFormed, UserOk, DependentsOk, Holds;
      syms[s].cachedTri := Some(v);
      cache := cache[TriOf(s) := VTri(v)];
    }

    method PutStr(s: nat, v: string)
      requires Valid() && s < |syms|
      requires Sound(k, rk, user, cache[StrOf(s) := VStr(v)], flags)
      modifies this`cache, SymAt(s)`cachedStr
      ensures Valid() && cache == old(cache)[StrOf(s) := VStr(v)]
    {
      hide Sound, WellFormed, UserOk, DependentsOk, Holds;
      syms[s].cachedStr := Some(v);
      cache := cache[StrOf(s) := VStr(v)];
    }

    method PutSymAssignable(s: nat, v: seq<Tri>)
      requires Valid() && s < |syms|
      requires Sound(k, rk, user, cache[Assignable(Sym(s)) := VSet(v)], flags)
      modifies this`cache, SymAt(s)`cachedAssignable
      ensures Valid() && cache == old(cache)[Assignable(Sym(s)) := VSet(v)]
    {
      hide Sound, WellFormed, UserOk, DependentsOk, Holds;
      syms[s].cachedAssignable := Some(v);
      cache := cache[Assignable(Sym(s)) := VSet(v)];
    }

    method PutChoiceAssignable(c: nat, v: seq<Tri>)
      requires Valid() && c < |choices|
      requires Sound(k, rk, user, cache[Assignable(Cho(c)) := VSet(v)], flags)
      modifies this`cache, ChoiceAt(c)`cachedAssignable
      ensures Valid() && cache == old(cache)[Assignable(Cho(c)) := VSet(v)]
    {
      hide Sound, WellFormed, UserOk, DependentsOk, Holds;
      choices[c].cachedAssignable := Some(v);
      cache := cache[Assignable(Cho(c)) := VSet(v)];
    }

    method PutSel(c: nat, v: Option<nat>)
      requires Valid() && c < |choices|
      requires Sound(k, rk, user, cache[SelOf(c) := VSel(v)], flags)
      modifies this`cache, ChoiceAt(c)`cachedSelection
      ensures Valid() && cache == old(cache)[SelOf(c) := VSel(v)]
    {
      SlotsElsewhere(cache, c, VSel(v));
      hide Sound, WellFormed, UserOk, DependentsOk, Holds, TriSlot, StrSlot, SetSlot;
      choices[c].cachedSelection := Some(v);
      cache := cache[SelOf(c) := VSel(v)];
    }

    method PutFlag(s: nat, flag: bool)
      requires Valid() && s < |syms|
      requires Sound(k, rk, user, cache, flags[s := flag])
      modifies this`flags, SymAt(s)`writeToConf
      ensures Valid() && flags == old(flags)[s := flag]
    {
      hide Sound, WellFormed, UserOk, DependentsOk, Holds, TriSlot, StrSlot, SetSlot, SelSlot;
      syms[s].writeToConf := flag;
      flags := flags[s := flag];
    }

    ghost method PutMode(c: nat, v: Tri)
      requires Valid() && c < |choices|
      requires Sound(k, rk, user, cache[ModeOf(c) := VTri(v)], flags)
      modifies this`cache
      ensures Valid() && cache == old(cache)[ModeOf(c) := VTri(v)]
    {
      hide Sound, WellFormed, UserOk, DependentsOk, Holds;
      cache := cache[ModeOf(c) := VTri(v)];
    }

    // ---------- computing values ----------

    lemma BelowMay(c: Cell)
      requires WellFormed(k, rk) && HasCell(k, c)
      ensures Below(May(k, c), rk(c))
    {
      assert MayOk(k, rk, c);
    }

    method ExprValue(e: Expr, ghost bound: nat) returns (v: Tri)
      requires Valid() && Below(EMay(k, e), bound)
      modifies this`cache, this`flags, syms, choices
      ensures Grown()
      ensures v == Ev(k, Sol(), e) && EReads(k, Sol(), e) <= cache.Keys
      decreases bound, 1, e
    {
      hide Valid;
      match e
      case Atom(i) => v := ItemValue(i);
      case And(l, r) =>
        v := ExprValue(l, bound);
        if v != 0 {
          var w := ExprValue(r, bound);
          v := Min(v, w);
        }
      case Or(l, r) =>
        v := ExprValue(l, bound);
        if v != 2 {
          var w := ExprValue(r, bound);
          v := Max(v, w);
        }
      case Not(a) =>
        v := ExprValue(a, bound);
        v := 2 - v;
      case Rel(op, l, r) =>
        var comp := CompareSyms(l, r, bound);
        v := if Satisfies(op, comp) then 2 else 0;
    }

    method ItemValue(i: Item) returns (v: Tri)
      requires Valid() && HasCell(k, ItemCell(i))
      modifies this`cache, this`flags, syms, choices
      ensures Grown()
      ensures v == TriAt(Sol(), ItemCell(i)) && ItemCell(i) in cache
      decreases rk(ItemCell(i)), 4
    {
      match i
      case Sym(s) => v := TriValue(s);
      case Cho(c) => v := ChoiceMode(c);
    }

    method SymToNum(s: nat, ghost bound: nat) returns (x: Option<int>)
      requires Valid() && Below({NumCell(k, s)}, bound)
      modifies this`cache, this`flags, syms, choices
      ensures Grown()
      ensures x == Num(k, Sol(), s) && NumCell(k, s) in cache
      decreases bound, 0, 0
    {
      if BoolTri(k.SymAt(s).orig) {
        var t := TriValue(s);
        x := Some(t);
      } else {
        var str := StrValue(s);
        x := k.num.parse(str, Base(k.SymAt(s).orig));
      }
    }

    method CompareStrs(l: nat, r: nat, ghost bound: nat) returns (comp: int)
      requires Valid() && Below({StrOf(l), StrOf(r)}, bound)
      modifies this`cache, this`flags, syms, choices
      ensures Grown()
      ensures comp == StrCmp(StrAt(Sol(), l), StrAt(Sol(), r)) && StrOf(l) in cache && StrOf(r) in cache
      decreases bound, 0, 0
    {
      hide Valid;
      var a := StrValue(l);
      var b := StrValue(r);
      comp := StrCmp(a, b);
    }

    // Strings compare as strings; anything else as numbers if both sides are numbers
    method CompareSyms(l: nat, r: nat, ghost bound: nat) returns (comp: int)
      requires Valid() && Below({NumCell(k, l), NumCell(k, r), StrOf(l), StrOf(r)}, bound)
      modifies this`cache, this`flags, syms, choices
      ensures Grown()
      ensures comp == Compare(k, Sol(), l, r) && RelReads(k, Sol(), l, r) <= cache.Keys
      decreases bound, 0, 1
    {
      hide Valid, StrCmp, Step, Reads;
      if k.SymAt(l).orig != String || k.SymAt(r).orig != String {
        var x := SymToNum(l, bound);
        if x.Some? {
          var y := SymToNum(r, bound);
          if y.Some? {
            return x.value - y.value;
          }
        }
      }
      comp := CompareStrs(l, r, bound);
    }

    method MaxValue(es: seq<Expr>, ghost bound: nat) returns (v: Tri)
      requires Valid() && Below(AllMay(k, es), bound)
      modifies this`cache, this`flags, syms, choices
      ensures Grown()
      ensures v == MaxOf(k, Sol(), es) && MaxReads(k, Sol(), es) <= cache.Keys
      decreases bound, 2, 0
    {
      hide Valid;
      v := 0;
      for i := 0 to |es|
        invariant Grown()
        invariant v == MaxOf(k, Sol(), es[..i]) && MaxReads(k, Sol(), es[..i]) <= cache.Keys
      {
        AllMayAt(k, es, i);
        var w := ExprValue(es[i], bound);
        assert es[..i + 1][..i] == es[..i];
        v := Max(v, w);
      }
      assert es[..|es|] == es;
    }

    // The first condition that is not n, and its value
    method FirstTrue(es: seq<Expr>, ghost bound: nat) returns (h: nat, v: Tri)
      requires Valid() && Below(AllMay(k, es), bound)
      modifies this`cache, this`flags, syms, choices
      ensures Grown()
      ensures h == FirstHit(k, Sol(), es, 0) && HitReads(k, Sol(), es, 0) <= cache.Keys
      ensures h < |es| ==> v == Ev(k, Sol(), es[h])
      decreases bound, 2, 0
    {
      hide Valid;
      h, v := 0, 0;
      while h < |es|
        invariant 0 <= h <= |es|
        invariant Grown()
        invariant FirstHit(k, Sol(), es, 0) == FirstHit(k, Sol(), es, h)
        invariant HitReads(k, Sol(), es, 0) <= cache.Keys + HitReads(k, Sol(), es, h)
      {
        AllMayAt(k, es, h);
        v := ExprValue(es[h], bound);
        if v != 0 {
          return;
        }
        h := h + 1;
      }
    }

    method SymType(s: nat, ghost bound: nat) returns (t: SymType)
      requires Valid() && s < |k.syms| && Below(TypeMay(k, s), bound)
      modifies this`cache, this`flags, syms, choices
      ensures Grown()
      ensures t == TypeOf(k, Sol(), s) && TypeReads(k, Sol(), s) <= cache.Keys
      decreases bound, 2, 0
    {
      hide Valid;
      var d := k.SymAt(s);
      if d.orig == Tristate {
        if d.choice.Some? {
          var mode := ChoiceMode(d.choice.value);
          if mode == 2 {
            return Bool;
          }
        }
        var modules := TriValue(k.modules);
        if modules == 0 {
          return Bool;
        }
      }
      t := d.orig;
    }

    method ChoiceTypeValue(c: nat, ghost bound: nat) returns (t: SymType)
      requires Valid() && c < |k.choices| && Below(ChoiceTypeReads(k, c), bound)
      modifies this`cache, this`flags, syms, choices
      ensures Grown()
      ensures t == ChoiceType(k, Sol(), c) && ChoiceTypeReads(k, c) <= cache.Keys
      decreases bound, 2, 0
    {
      if k.ChoiceAt(c).orig == Tristate {
        var modules := TriValue(k.modules);
        if modules == 0 {
          return Bool;
        }
      }
      t := k.ChoiceAt(c).orig;
    }

    // Puts the visibility of a symbol in place: the prompts, cut by the mode of its choice,
    // with m promoted to y for symbols that are not tristate
    method SymVisibility(s: nat) returns (v: Tri)
      requires Valid() && HasCell(k, Vis(Sym(s)))
      modifies this`cache, this`flags, syms, choices
      ensures Grown()
      ensures v == TriAt(Sol(), Vis(Sym(s))) && Vis(Sym(s)) in cache
      decreases rk(Vis(Sym(s))), 3
    {
      hide Distinct, DependentsOk;
      ValueIsStep(k, rk, user, Vis(Sym(s)));
      if syms[s].cachedVis.Some? {
        assert EntryOk(k, rk, user, cache, Vis(Sym(s)));
        return syms[s].cachedVis.value;
      }
      BelowMay(Vis(Sym(s)));
      v := ComputeSymVis(s, rk(Vis(Sym(s))));
      SoundPut(k, rk, user, cache, flags, Vis(Sym(s)), VTri(v));
      PutSymVis(s, v);
    }

    method ComputeSymVis(s: nat, ghost bound: nat) returns (v: Tri)
      requires Valid() && s < |k.syms| && Below(May(k, Vis(Sym(s))), bound)
      modifies this`cache, this`flags, syms, choices
      ensures Grown()
      ensures v == SymVis(k, Sol(), s) && SymVisReads(k, Sol(), s) <= cache.Keys
      decreases bound, 2, 1
    {
      hide Valid;
      var d := k.SymAt(s);
      v := MaxValue(d.prompts, bound);
      if d.choice.Some? {
        if k.ChoiceAt(d.choice.value).orig == Tristate && d.orig != Tristate {
          var mode := ChoiceMode(d.choice.value);
          if mode != 2 {
            return 0;
          }
        }
        if d.orig == Tristate && v == 1 {
          var mode := ChoiceMode(d.choice.value);
          if mode == 2 {
            return 0;
          }
        }
      }
      if v == 1 {
        var t := SymType(s, bound);
        if t != Tristate {
          v := 2;
        }
      }
    }

    method ChoiceVisibility(c: nat) returns (v: Tri)
      requires Valid() && HasCell(k, Vis(Cho(c)))
      modifies this`cache, this`flags, syms, choices
      ensures Grown()
      ensures v == TriAt(Sol(), Vis(Cho(c))) && Vis(Cho(c)) in cache
      decreases rk(Vis(Cho(c))), 3
    {
      hide DependentsOk;
      ValueIsStep(k, rk, user, Vis(Cho(c)));
      if choices[c].cachedVis.Some? {
        assert EntryOk(k, rk, user, cache, Vis(Cho(c)));
        return choices[c].cachedVis.value;
      }
      BelowMay(Vis(Cho(c)));
      v := ComputeChoiceVis(c, rk(Vis(Cho(c))));
      SoundPut(k, rk, user, cache, flags, Vis(Cho(c)), VTri(v));
      PutChoiceVis(c, v);
    }

    method ComputeChoiceVis(c: nat, ghost bound: nat) returns (v: Tri)
      requires Valid() && c < |k.choices| && Below(May(k, Vis(Cho(c))), bound)
      modifies this`cache, this`flags, syms, choices
      ensures Grown()
      ensures v == ChoiceVis(k, Sol(), c) && ChoiceVisReads(k, Sol(), c) <= cache.Keys
      decreases bound, 2, 1
    {
      hide Valid;
      v := MaxValue(k.ChoiceAt(c).prompts, bound);
      if v == 1 {
        var t := ChoiceTypeValue(c, bound);
        if t != Tristate {
          v := 2;
        }
      }
    }

    // The mode of a choice is recomputed on every use
    method ChoiceMode(c: nat) returns (v: Tri)
      requires Valid() && HasCell(k, ModeOf(c))
      modifies this`cache, this`flags, syms, choices
      ensures Grown()
      ensures v == TriAt(Sol(), ModeOf(c)) && ModeOf(c) in cache && Vis(Cho(c)) in cache
      decreases rk(ModeOf(c)), 3
    {
      hide DependentsOk;
      ValueIsStep(k, rk, user, ModeOf(c));
      BelowMay(ModeOf(c));
      v := ComputeMode(c, rk(ModeOf(c)), choices[c].userValue);
      SoundPut(k, rk, user, cache, flags, ModeOf(c), VTri(v));
      PutMode(c, v);
    }

    method ComputeMode(c: nat, ghost bound: nat, input: Option<Tri>) returns (v: Tri)
      requires Valid() && c < |k.choices| && Below(May(k, ModeOf(c)), bound)
      requires Holds(user.modes, c, input)
      modifies this`cache, this`flags, syms, choices
      ensures Grown()
      ensures v == StepMode(k, user, Sol(), c)
      ensures ModeReads(k, user, Sol(), c) <= cache.Keys
      decreases bound, 2, 1
    {
      hide Valid;
      v := if k.ChoiceAt(c).optional then 0 else 1;
      if input.Some? {
        v := Max(v, input.value);
      }
      var vis := ChoiceVisibility(c);
      v := Min(v, vis);
      if v == 1 {
        var t := ChoiceTypeValue(c, bound);
        if t == Bool {
          v := 2;
        }
      }
    }

    // The tristate value of a symbol; the .config flag is settled along the way
    method TriValue(s: nat) returns (v: Tri)
      requires Valid() && HasCell(k, TriOf(s))
      modifies this`cache, this`flags, syms, choices
      ensures Grown()
      ensures v == TriAt(Sol(), TriOf(s)) && TriOf(s) in cache
      decreases rk(TriOf(s)), 3
    {
      hide Distinct, DependentsOk;
      ValueIsStep(k, rk, user, TriOf(s));
      if syms[s].cachedTri.Some? {
        assert EntryOk(k, rk, user, cache, TriOf(s));
        return syms[s].cachedTri.value;
      }
      assert k.SymAt(s).fixed == None;
      if !BoolTri(k.SymAt(s).orig) {
        v := 0;
      } else {
        BelowMay(TriOf(s));
        var written: bool;
        v, written := ComputeTri(s, rk(TriOf(s)), syms[s].userValue);
        SoundFlag(k, rk, user, cache, flags, s, written);
        PutFlag(s, written);
      }
      SoundPut(k, rk, user, cache, flags, TriOf(s), VTri(v));
      PutTri(s, v);
    }

    method ComputeTri(s: nat, ghost bound: nat, input: Option<UserValue>) returns (v: Tri, written: bool)
      requires Valid() && s < |k.syms| && Below(May(k, TriOf(s)), bound)
      requires k.SymAt(s).fixed == None && BoolTri(k.SymAt(s).orig) && Holds(user.values, s, input)
      modifies this`cache, this`flags, syms, choices
      ensures Grown()
      ensures v == StepTri(k, user, Sol(), s) && written == WrittenToConf(k, user, Sol(), s)
      ensures TriReads(k, user, Sol(), s) <= cache.Keys && Vis(Sym(s)) in cache
      decreases bound, 2, 3
    {
      hide Valid;
      var d := k.SymAt(s);
      var vis := SymVisibility(s);
      written := vis != 0;
      if d.choice == None {
        var fromDefaults: bool;
        v, fromDefaults := ComputeBase(s, bound, vis, input);
        written := written || fromDefaults;
        var r := ExprValue(d.revDep, bound);
        if r != 0 {
          v := Max(r, v);
          written := true;
        }
        if v == 1 {
          var p := ComputePromoted(s, bound);
          if p {
            v := 2;
          }
        }
      } else if vis == 2 {
        var sel := Selection(d.choice.value);
        v := if sel == Some(s) then 2 else 0;
      } else if vis != 0 && input.Some? && input.value.UTri? && input.value.t != 0 {
        v := 1;
      } else {
        v := 0;
      }
    }

    // The user value if the symbol is visible, else defaults and implies
    method ComputeBase(s: nat, ghost bound: nat, vis: Tri, input: Option<UserValue>) returns (v: Tri, written: bool)
      requires Valid() && s < |k.syms| && Below(FreeTriMay(k, s), bound)
      requires vis == TriAt(Sol(), Vis(Sym(s))) && Holds(user.values, s, input)
      modifies this`cache, this`flags, syms, choices
      ensures Grown()
      ensures v == BaseTri(k, user, Sol(), s) && BaseTriReads(k, user, Sol(), s) <= cache.Keys
      ensures vis == 0 ==> written == (Implied(k, Sol(), s) || DefaultTri(k, Sol(), s) != 0)
      decreases bound, 2, 2
    {
      hide Valid;
      if vis != 0 && input.Some? && input.value.UTri? {
        return Min(input.value.t, vis), true;
      }
      var ds := k.SymAt(s).defaults;
      v := 0;
      var h, cond := FirstTrue(DefaultConds(ds), bound);
      if h < |ds| {
        AllMayAt(k, DefaultValues(ds), h);
        var w := ExprValue(ds[h].value, bound);
        v := Min(w, cond);
      }
      assert v == DefaultTri(k, Sol(), s) && DefaultTriReads(k, Sol(), s) <= cache.Keys;
      written := v != 0;
      var w := ExprValue(k.SymAt(s).weakRevDep, bound);
      if w != 0 {
        var dep := ExprValue(k.SymAt(s).directDep, bound);
        if dep != 0 {
          v := Max(w, v);
          written := true;
        }
      }
    }

    method ComputePromoted(s: nat, ghost bound: nat) returns (p: bool)
      requires Valid() && s < |k.syms| && Below(TypeMay(k, s) + EMay(k, k.SymAt(s).weakRevDep), bound)
      modifies this`cache, this`flags, syms, choices
      ensures Grown()
      ensures p == Promoted(k, Sol(), s) && PromotedReads(k, Sol(), s) <= cache.Keys
      decreases bound, 2, 1
    {
      hide Valid;
      var t := SymType(s, bound);
      if t == Bool {
        return true;
      }
      var w := ExprValue(k.SymAt(s).weakRevDep, bound);
      p := w == 2;
    }

    // The symbol of a choice in y mode that is y
    method Selection(c: nat) returns (v: Option<nat>)
      requires Valid() && HasCell(k, SelOf(c))
      modifies this`cache, this`flags, syms, choices
      ensures Grown()
      ensures v == SelAt(Sol(), c) && SelOf(c) in cache
      decreases rk(SelOf(c)), 3
    {
      hide DependentsOk;
      ValueIsStep(k, rk, user, SelOf(c));
      if choices[c].cachedSelection.Some? {
        assert EntryOk(k, rk, user, cache, SelOf(c));
        return choices[c].cachedSelection.value;
      }
      BelowMay(SelOf(c));
      v := ComputeSelection(c, rk(SelOf(c)), choices[c].userSelection);
      SoundPut(k, rk, user, cache, flags, SelOf(c), VSel(v));
      PutSel(c, v);
    }

    method ComputeSelection(c: nat, ghost bound: nat, input: Option<nat>) returns (v: Option<nat>)
      requires Valid() && c < |k.choices| && Below(May(k, SelOf(c)), bound)
      requires Holds(user.selections, c, input) && (input.Some? ==> input.value in k.ChoiceAt(c).syms)
      modifies this`cache, this`flags, syms, choices
      ensures Grown()
      ensures v == StepSel(k, user, Sol(), c)
      ensures SelReads(k, user, Sol(), c) <= cache.Keys && Vis(Cho(c)) in cache
      decreases bound, 2, 2
    {
      hide Valid;
      var mode := ChoiceMode(c);
      if mode != 2 {
        return None;
      }
      if input.Some? {
        assert Vis(Sym(input.value)) in May(k, SelOf(c));
        var vis := SymVisibility(input.value);
        if vis != 0 {
          return input;
        }
      }
      v := ComputeDefaultSelection(c, bound);
    }

    method ComputeDefaultSelection(c: nat, ghost bound: nat) returns (v: Option<nat>)
      requires Valid() && c < |k.choices| && Below(May(k, SelOf(c)), bound)
      modifies this`cache, this`flags, syms, choices
      ensures Grown()
      ensures v == SelectionFromDefaults(k, Sol(), c)
      ensures SelectionFromDefaultsReads(k, Sol(), c) <= cache.Keys
      decreases bound, 2, 1
    {
      hide Valid;
      var d := k.ChoiceAt(c);
      v := FirstDefaultSelection(d.defaults, bound);
      if v == None {
        v := FirstVisibleSym(d.syms, bound);
      }
    }

    method FirstDefaultSelection(ds: seq<ChoiceDefault>, ghost bound: nat) returns (v: Option<nat>)
      requires Valid() && Below(AllMay(k, ChoiceConds(ds)), bound)
      requires Below(set x | x in ds :: Vis(Sym(x.sym)), bound)
      modifies this`cache, this`flags, syms, choices
      ensures Grown()
      ensures v == DefaultSelection(k, Sol(), ds, 0)
      ensures DefaultSelectionReads(k, Sol(), ds, 0) <= cache.Keys
      decreases bound, 2, 0
    {
      hide Valid;
      var i := 0;
      while i < |ds|
        invariant 0 <= i <= |ds|
        invariant Grown()
        invariant DefaultSelection(k, Sol(), ds, 0) == DefaultSelection(k, Sol(), ds, i)
        invariant DefaultSelectionReads(k, Sol(), ds, 0) <= cache.Keys + DefaultSelectionReads(k, Sol(), ds, i)
      {
        var hit := IsDefaultSelection(ds, i, bound);
        if hit {
          return Some(ds[i].sym);
        }
        i := i + 1;
      }
      v := None;
    }

    method IsDefaultSelection(ds: seq<ChoiceDefault>, i: nat, ghost bound: nat) returns (hit: bool)
      requires i < |ds|
      requires Valid() && Below(AllMay(k, ChoiceConds(ds)), bound)
      requires Below(set x | x in ds :: Vis(Sym(x.sym)), bound)
      modifies this`cache, this`flags, syms, choices
      ensures Grown()
      ensures hit == (Ev(k, Sol(), ds[i].cond) != 0 && TriAt(Sol(), Vis(Sym(ds[i].sym))) != 0)
      ensures EReads(k, Sol(), ds[i].cond) <= cache.Keys
      ensures Ev(k, Sol(), ds[i].cond) != 0 ==> Vis(Sym(ds[i].sym)) in cache
      decreases bound, 1
    {
      hide Valid;
      AllMayAt(k, ChoiceConds(ds), i);
      hit := false;
      var cond := ExprValue(ds[i].cond, bound);
      if cond != 0 {
        assert Vis(Sym(ds[i].sym)) in set x | x in ds :: Vis(Sym(x.sym));
        var vis := SymVisibility(ds[i].sym);
        hit := vis != 0;
      }
    }

    method FirstVisibleSym(ss: seq<nat>, ghost bound: nat) returns (v: Option<nat>)
      requires Valid() && Below(set x | x in ss :: Vis(Sym(x)), bound)
      modifies this`cache, this`flags, syms, choices
      ensures Grown()
      ensures v == FirstVisible(Sol(), ss, 0) && FirstVisibleReads(Sol(), ss, 0) <= cache.Keys
      decreases bound, 2, 0
    {
      hide Valid;
      var i := 0;
      while i < |ss|
        invariant 0 <= i <= |ss|
        invariant Grown()
        invariant FirstVisible(Sol(), ss, 0) == FirstVisible(Sol(), ss, i)
        invariant FirstVisibleReads(Sol(), ss, 0) <= cache.Keys + FirstVisibleReads(Sol(), ss, i)
      {
        assert Vis(Sym(ss[i])) in set x | x in ss :: Vis(Sym(x));
        var vis := SymVisibility(ss[i]);
        if vis != 0 {
          return Some(ss[i]);
        }
        i := i + 1;
      }
      v := None;
    }

    // The string value of a symbol; for strings and numbers the .config flag is settled along the way
    method StrValue(s: nat) returns (v: string)
      requires Valid() && HasCell(k, StrOf(s))
      modifies this`cache, this`flags, syms, choices
      ensures Grown()
      ensures v == StrAt(Sol(), s) && StrOf(s) in cache
      decreases rk(StrOf(s)), 3
    {
      hide DependentsOk;
      ValueIsStep(k, rk, user, StrOf(s));
      if syms[s].cachedStr.Some? {
        assert EntryOk(k, rk, user, cache, StrOf(s));
        return syms[s].cachedStr.value;
      }
      BelowMay(StrOf(s));
      if BoolTri(k.SymAt(s).orig) {
        v := TriText(s);
      } else if k.SymAt(s).orig == Unknown {
        v := k.SymAt(s).name;
      } else {
        v := FlaggedStr(s, rk(StrOf(s)));
      }
      SoundPut(k, rk, user, cache, flags, StrOf(s), VStr(v));
      PutStr(s, v);
    }

    // The value of a string or number, with the .config flag settled
    method FlaggedStr(s: nat, ghost bound: nat) returns (v: string)
      requires Valid() && s < |k.syms| && Below(May(k, StrOf(s)), bound)
      requires k.SymAt(s).orig != Unknown && !BoolTri(k.SymAt(s).orig)
      modifies this`cache, this`flags, syms, choices
      ensures Grown()
      ensures v == StepStr(k, user, Sol(), s)
      ensures StrReads(k, user, Sol(), s) <= cache.Keys && Vis(Sym(s)) in cache
      ensures flags[s] == WrittenToConf(k, user, Sol(), s)
      decreases bound, 2, 3
    {
      hide DependentsOk;
      assert SymOk(k, s);
      var written: bool;
      if k.SymAt(s).orig == String {
        v, written := ComputeText(s, bound, syms[s].userValue);
      } else {
        v, written := ComputeNumber(s, bound, syms[s].userValue);
      }
      SoundFlag(k, rk, user, cache, flags, s, written);
      PutFlag(s, written);
    }

    method TriText(s: nat) returns (v: string)
      requires Valid() && HasCell(k, TriOf(s)) && BoolTri(k.SymAt(s).orig)
      modifies this`cache, this`flags, syms, choices
      ensures Grown()
      ensures v == TriStr(TriAt(Sol(), TriOf(s))) && TriOf(s) in cache
      ensures ConstCell(k, StrOf(s)) || Vis(Sym(s)) in cache
      decreases rk(TriOf(s)), 4
    {
      hide DependentsOk;
      var t := TriValue(s);
      assert EntryOk(k, rk, user, cache, TriOf(s));
      v := TriStr(t);
    }

    method DefaultStrValue(s: nat, ghost bound: nat) returns (v: Option<string>)
      requires Valid() && s < |k.syms|
      requires Below(AllMay(k, DefaultConds(k.SymAt(s).defaults)) + NamedStrs(k.SymAt(s).defaults), bound)
      modifies this`cache, this`flags, syms, choices
      ensures Grown()
      ensures v == DefaultStr(k, Sol(), s) && DefaultStrReads(k, Sol(), s) <= cache.Keys
      decreases bound, 2, 1
    {
      hide Valid;
      var ds := k.SymAt(s).defaults;
      var h, _ := FirstTrue(DefaultConds(ds), bound);
      if h == |ds| {
        return None;
      }
      assert ds[h] in ds;
      assert StrOf(DefaultSym(ds[h])) in NamedStrs(ds);
      var text := StrValue(DefaultSym(ds[h]));
      v := Some(text);
    }

    method BoundValue(s: nat, base: nat) returns (x: int)
      requires Valid() && HasCell(k, StrOf(s))
      modifies this`cache, this`flags, syms, choices
      ensures Grown()
      ensures x == NumOr0(k, Sol(), s, base) && StrOf(s) in cache
      decreases rk(StrOf(s)), 4
    {
      hide Valid;
      var text := StrValue(s);
      var num := k.num.parse(text, base);
      x := if num.Some? then num.value else 0;
    }

    method ActiveRangeValue(s: nat, ghost bound: nat) returns (r: Option<(int, int)>)
      requires Valid() && s < |k.syms|
      requires Below(AllMay(k, RangeConds(k.SymAt(s).ranges)) + BoundStrs(k.SymAt(s).ranges), bound)
      modifies this`cache, this`flags, syms, choices
      ensures Grown()
      ensures r == ActiveRange(k, Sol(), s) && RangeReads(k, Sol(), s) <= cache.Keys
      decreases bound, 2, 1
    {
      hide Valid;
      var rs := k.SymAt(s).ranges;
      var h, _ := FirstTrue(RangeConds(rs), bound);
      if h == |rs| {
        return None;
      }
      assert rs[h] in rs;
      assert StrOf(rs[h].low) in BoundStrs(rs) && StrOf(rs[h].high) in BoundStrs(rs);
      var low := BoundValue(rs[h].low, Base(k.SymAt(s).orig));
      var high := BoundValue(rs[h].high, Base(k.SymAt(s).orig));
      r := Some((low, high));
    }

    method ComputeText(s: nat, ghost bound: nat, input: Option<UserValue>) returns (v: string, written: bool)
      requires Valid() && s < |k.syms| && Below(May(k, StrOf(s)), bound)
      requires k.SymAt(s).orig == String
      requires Holds(user.values, s, input) && (input.Some? ==> ValidFor(k, s, input.value))
      modifies this`cache, this`flags, syms, choices
      ensures Grown()
      ensures v == TextStr(k, user, Sol(), s) && written == WrittenToConf(k, user, Sol(), s)
      ensures TextReads(k, user, Sol(), s) <= cache.Keys && Vis(Sym(s)) in cache
      decreases bound, 2, 2
    {
      hide Valid;
      var vis := SymVisibility(s);
      written := vis != 0;
      if vis != 0 && input.Some? {
        v := input.value.str;
      } else {
        v := "";
        var text := DefaultStrValue(s, bound);
        if text.Some? {
          v, written := text.value, true;
        }
      }
      if k.SymAt(s).auto {
        written := false;
      }
    }

    // A user value counts if the symbol is visible and the value is in the active range;
    // a default is moved into the range
    method ComputeNumber(s: nat, ghost bound: nat, input: Option<UserValue>) returns (v: string, written: bool)
      requires Valid() && s < |k.syms| && Below(May(k, StrOf(s)), bound)
      requires Numeric(k.SymAt(s).orig)
      requires Holds(user.values, s, input) && (input.Some? ==> ValidFor(k, s, input.value))
      modifies this`cache, this`flags, syms, choices
      ensures Grown()
      ensures v == NumberStr(k, user, Sol(), s) && written == WrittenToConf(k, user, Sol(), s)
      ensures NumberReads(k, user, Sol(), s) <= cache.Keys && Vis(Sym(s)) in cache
      decreases bound, 2, 2
    {
      hide Valid;
      var orig := k.SymAt(s).orig;
      var vis := SymVisibility(s);
      written := vis != 0;
      var range := ActiveRangeValue(s, bound);
      var useDefaults := true;
      v := "";
      if vis != 0 && input.Some? && input.value.str != "" {
        var x := k.num.parse(input.value.str, Base(orig)).value;
        if InRange(x, range) {
          v, useDefaults := input.value.str, false;
        }
      }
      assert useDefaults <==> UserNumber(k, user, Sol(), s) == None;
      if useDefaults {
        var x := 0;
        var text := DefaultStrValue(s, bound);
        if text.Some? {
          v, written := text.value, true;
          var num := k.num.parse(v, Base(orig));
          x := if num.Some? then num.value else 0;
        }
        v := Clamped(k, orig, v, x, range);
      }
      if k.SymAt(s).auto {
        written := false;
      }
    }

    // ---------- assignable values and .config entries ----------

    method SymAssignableValue(s: nat) returns (v: seq<Tri>)
      requires Valid() && HasCell(k, Assignable(Sym(s)))
      modifies this`cache, this`flags, syms, choices
      ensures Grown()
      ensures VSet(v) == Value(k, rk, user, Assignable(Sym(s)))
    {
      hide DependentsOk;
      ValueIsStep(k, rk, user, Assignable(Sym(s)));
      if syms[s].cachedAssignable.Some? {
        assert EntryOk(k, rk, user, cache, Assignable(Sym(s)));
        return syms[s].cachedAssignable.value;
      }
      BelowMay(Assignable(Sym(s)));
      if BoolTri(k.SymAt(s).orig) {
        v := ComputeAssignable(s, rk(Assignable(Sym(s))));
      } else {
        v := [];
      }
      SoundPut(k, rk, user, cache, flags, Assignable(Sym(s)), VSet(v));
      PutSymAssignable(s, v);
    }

    method ComputeAssignable(s: nat, ghost bound: nat) returns (v: seq<Tri>)
      requires Valid() && s < |k.syms| && Below(May(k, Assignable(Sym(s))), bound)
      requires BoolTri(k.SymAt(s).orig)
      modifies this`cache, this`flags, syms, choices
      ensures Grown()
      ensures v == SymAssignable(k, Sol(), s) && SymAssignableReads(k, Sol(), s) <= cache.Keys
      ensures Vis(Sym(s)) in cache
    {
      hide Valid;
      var d := k.SymAt(s);
      var vis := SymVisibility(s);
      if vis == 0 {
        return [];
      }
      var rev := ExprValue(d.revDep, bound);
      if vis == 2 {
        if d.choice.Some? {
          return [2];
        }
        if rev == 2 {
          return [2];
        }
        var p := ComputePromoted(s, bound);
        if rev == 0 {
          return if p then [0, 2] else [0, 1, 2];
        }
        return if p then [2] else [1, 2];
      }
      if rev == 0 {
        var w := ExprValue(d.weakRevDep, bound);
        return if w != 2 then [0, 1] else [0, 2];
      }
      v := if rev == 2 then [2] else [1];
    }

    method ChoiceAssignableValue(c: nat) returns (v: seq<Tri>)
      requires Valid() && HasCell(k, Assignable(Cho(c)))
      modifies this`cache, this`flags, syms, choices
      ensures Grown()
      ensures VSet(v) == Value(k, rk, user, Assignable(Cho(c)))
    {
      hide DependentsOk;
      ValueIsStep(k, rk, user, Assignable(Cho(c)));
      if choices[c].cachedAssignable.Some? {
        assert EntryOk(k, rk, user, cache, Assignable(Cho(c)));
        return choices[c].cachedAssignable.value;
      }
      BelowMay(Assignable(Cho(c)));
      v := ComputeChoiceAssignable(c, rk(Assignable(Cho(c))));
      SoundPut(k, rk, user, cache, flags, Assignable(Cho(c)), VSet(v));
      PutChoiceAssignable(c, v);
    }

    method ComputeChoiceAssignable(c: nat, ghost bound: nat) returns (v: seq<Tri>)
      requires Valid() && c < |k.choices| && Below(May(k, Assignable(Cho(c))), bound)
      modifies this`cache, this`flags, syms, choices
      ensures Grown()
      ensures v == ChoiceAssignable(k, Sol(), c) && ChoiceAssignableReads(k, Sol(), c) <= cache.Keys
      ensures Vis(Cho(c)) in cache
    {
      hide Valid;
      var optional := k.ChoiceAt(c).optional;
      var vis := ChoiceVisibility(c);
      if vis == 0 {
        return [];
      }
      if vis == 2 {
        var t := ChoiceTypeValue(c, bound);
        if !optional {
          return if t == Bool then [2] else [1, 2];
        }
        return if t == Bool then [0, 2] else [0, 1, 2];
      }
      v := if optional then [0, 1] else [1];
    }

    /** The entry of a symbol in a .config file. */
    method ConfigStringOf(s: nat) returns (str: string)
      requires Valid() && HasCell(k, StrOf(s))
      modifies this`cache, this`flags, syms, choices
      ensures Grown()
      ensures str == ConfigString(k, user, Sol(), s)
    {
      hide DependentsOk;
      var val := StrValue(s);
      FlagInForce(s);
      if !syms[s].writeToConf {
        return "";
      }
      str := EntryLine(k, s, val) + "\n";
    }

    // Once the string value is cached, so is the value the flag is computed with
    lemma FlagInForce(s: nat)
      requires Valid() && s < |k.syms| && StrOf(s) in cache
      ensures syms[s].writeToConf == WrittenToConf(k, user, Sol(), s)
    {
      assert SymOk(k, s);
      assert EntryOk(k, rk, user, cache, StrOf(s));
      assert FlagOk(k, rk, user, cache, flags, s);
      if HasFlag(k, s) && BoolTri(k.SymAt(s).orig) {
        assert TriOf(s) in Reads(k, user, Sol(), StrOf(s));
      }
    }

    // ---------- invalidating ----------

    method InvalidateSym(s: nat)
      requires Linked() && s < |syms|
      modifies this`cache, SymAt(s)`cachedVis, SymAt(s)`cachedTri, SymAt(s)`cachedStr, SymAt(s)`cachedAssignable
      ensures Linked() && cache == Without(old(cache), {Sym(s)})
    {
      hide WellFormed, DependentsOk, Without;
      WithoutSym(cache, s);
      syms[s].Invalidate();
      cache := Without(cache, {Sym(s)});
    }

    method InvalidateChoice(c: nat)
      requires Linked() && c < |choices|
      modifies this`cache, ChoiceAt(c)`cachedVis, ChoiceAt(c)`cachedAssignable, ChoiceAt(c)`cachedSelection
      ensures Linked() && cache == Without(old(cache), {Cho(c)})
    {
      hide WellFormed, DependentsOk, Without;
      WithoutCho(cache, c);
      choices[c].Invalidate();
      cache := Without(cache, {Cho(c)});
    }

    function AllDefined(): set<Item> {
      (set s: nat | s < |k.syms| && k.SymAt(s).defined :: Sym(s)) + (set c: nat | c < |k.choices| :: Cho(c))
    }

    // Clears every defined item; constants and undefined symbols never change
    method InvalidateAll()
      requires Linked()
      modifies this`cache, syms`cachedVis, syms`cachedTri, syms`cachedStr, syms`cachedAssignable
      modifies choices`cachedVis, choices`cachedAssignable, choices`cachedSelection
      ensures Linked() && cache == Without(old(cache), AllDefined())
    {
      hide WellFormed, DependentsOk, Synced;
      ghost var done: set<Item> := {};
      for s := 0 to |syms|
        invariant Linked() && cache == Without(old(cache), done)
        invariant done == set x: nat | x < s && k.SymAt(x).defined :: Sym(x)
      {
        if k.SymAt(s).defined {
          InvalidateSym(s);
          done := done + {Sym(s)};
        }
      }
      ghost var symsDone := done;
      for c := 0 to |choices|
        invariant Linked() && cache == Without(old(cache), done)
        invariant done == symsDone + set x: nat | x < c :: Cho(x)
      {
        InvalidateChoice(c);
        done := done + {Cho(c)};
      }
    }

    // Whether an item has cached values: its visibility is computed along with any of them
    method HasCachedVis(i: Item) returns (b: bool)
      requires Linked() && IsDefined(k, i)
      ensures b <==> Vis(i) in cache
    {
      match i
      case Sym(s) => b := syms[s].cachedVis.Some?;
      case Cho(c) => b := choices[c].cachedVis.Some?;
    }

    ghost function CachedVis(): set<Cell> reads this`cache { set c <- cache | c.Vis? }

    // Nothing recorded as depending on `b` has a cached visibility
    ghost predicate Cut(b: Item) reads this`cache {
      forall a | b in Recorded(k, a) :: Vis(a) !in cache
    }

    // What clearing `gone` has achieved
    ghost predicate Clearing(before: map<Cell, V>, gone: set<Item>) reads this`cache {
      && cache == Without(before, gone)
      && (forall b <- gone :: IsDefined(k, b))
      && (Sym(k.modules) in gone ==> AllDefined() <= gone)
    }

    /** Clears an item and, recursively, those of its dependents that have a cached
        visibility. Afterwards no dependent of a cleared item has one. */
    method RecInvalidate(x: Item) returns (ghost gone: set<Item>)
      requires Linked() && IsDefined(k, x)
      modifies this`cache, syms`cachedVis, syms`cachedTri, syms`cachedStr, syms`cachedAssignable
      modifies choices`cachedVis, choices`cachedAssignable, choices`cachedSelection
      ensures Linked() && Clearing(old(cache), gone) && x in gone
      ensures forall b <- gone :: Cut(b)
      decreases CachedVis() + {Vis(x)}
    {
      hide WellFormed, Synced, PropertyMentions;
      if x == Sym(k.modules) {
        InvalidateAll();
        gone := AllDefined();
        assert forall b <- gone :: Cut(b);
        return;
      }
      match x {
        case Sym(s) => InvalidateSym(s);
        case Cho(c) => InvalidateChoice(c);
      }
      gone := {x};
      var todo := DependentsOf(dependents, x);
      while todo != {}
        invariant Linked() && Clearing(old(cache), gone) && x in gone
        invariant forall b <- gone :: b == x || Cut(b)
        invariant forall a | x in Recorded(k, a) && a !in todo :: Vis(a) !in cache
        invariant forall a <- todo :: IsDefined(k, a)
        decreases todo
      {
        var item :| item in todo;
        todo := todo - {item};
        var cached := HasCachedVis(item);
        if cached {
          assert CachedVis() + {Vis(item)} == CachedVis() < old(CachedVis()) + {Vis(x)};
          ghost var before := cache;
          ghost var more := RecInvalidate(item);
          WithoutTwice(old(cache), gone, more);
          gone := gone + more;
        }
      }
    }

    // ---------- changing user values ----------

    // After the user state became `user`, clearing that covers the change restores validity
    lemma Restored(before: User, old_cache: map<Cell, V>, gone: set<Item>)
      requires Linked() && UserOk(k, user) && UserOk(k, before)
      requires cache == Without(old_cache, gone)
      requires Sound(k, rk, before, old_cache, flags) && Covered(k, before, user, old_cache, gone)
      ensures Valid()
    {
      SoundAfterChange(k, rk, before, user, old_cache, flags, gone);
    }

    // Cleared items and the cut below them are an invalidation
    lemma ClearingInvalidates(before: map<Cell, V>, gone: set<Item>)
      requires WellFormed(k, rk) && Clearing(before, gone) && forall b <- gone :: Cut(b)
      ensures Invalidated(k, before, gone)
    {
      forall b | b in gone
        ensures !IsConstant(k, b)
      {
        if b.Sym? {
          assert SymOk(k, b.s);
        }
      }
    }

    // Whether the symbol has a prompt somewhere
    predicate HasPrompt(s: nat) { k.SymAt(s).prompts != [] }

    method StoreUserValue(s: nat, v: Option<UserValue>)
      requires Linked() && s < |syms|
      modifies this`user, SymAt(s)`userValue
      ensures Linked()
      ensures user == old(user).(values := if v.Some? then old(user).values[s := v.value] else old(user).values - {s})
    {
      hide WellFormed, DependentsOk;
      syms[s].userValue := v;
      user := user.(values := if v.Some? then user.values[s := v.value] else user.values - {s});
    }

    method StoreSelection(c: nat, s: nat)
      requires Linked() && c < |choices|
      modifies this`user, ChoiceAt(c)`userSelection
      ensures Linked() && user == old(user).(selections := old(user).selections[c := s])
    {
      hide WellFormed, DependentsOk;
      choices[c].userSelection := Some(s);
      user := user.(selections := user.selections[c := s]);
    }

    method StoreMode(c: nat, v: Tri)
      requires Linked() && c < |choices|
      modifies this`user, ChoiceAt(c)`userValue
      ensures Linked() && user == old(user).(modes := old(user).modes[c := v])
    {
      hide WellFormed, DependentsOk;
      choices[c].userValue := Some(v);
      user := user.(modes := user.modes[c := v]);
    }

    method ForgetChoice(c: nat)
      requires Linked() && c < |choices|
      modifies this`user, ChoiceAt(c)`userValue, ChoiceAt(c)`userSelection
      ensures Linked()
      ensures user == old(user).(modes := old(user).modes - {c}, selections := old(user).selections - {c})
    {
      hide WellFormed, DependentsOk;
      choices[c].userValue := None;
      choices[c].userSelection := None;
      user := user.(modes := user.modes - {c}, selections := user.selections - {c});
    }

    // Clears the symbol and its dependents; a symbol without a prompt is not affected by user values
    method RecInvalidateIfHasPrompt(s: nat, ghost before: User)
      requires Linked() && s < |syms| && UserOk(k, user) && UserOk(k, before)
      requires Sound(k, rk, before, cache, flags)
      requires forall i | i != Sym(s) :: SameInput(before, user, i)
      modifies this`cache, syms`cachedVis, syms`cachedTri, syms`cachedStr, syms`cachedAssignable
      modifies choices`cachedVis, choices`cachedAssignable, choices`cachedSelection
      ensures Valid()
    {
      ghost var oldCache := cache;
      assert SymOk(k, s);
      if HasPrompt(s) {
        ghost var gone := RecInvalidate(Sym(s));
        ClearingInvalidates(oldCache, gone);
        Restored(before, oldCache, gone);
      } else {
        assert cache == Without(cache, {});
        Restored(before, oldCache, {});
      }
    }

    // Clears the choice and its dependents, after `s` became its selection
    method RecInvalidateChoiceOf(s: nat, c: nat, ghost before: User)
      requires Linked() && s < |syms| && c < |choices| && k.SymAt(s).choice == Some(c)
      requires UserOk(k, user) && UserOk(k, before)
      requires Sound(k, rk, before, cache, flags)
      requires forall i | i != Sym(s) && i != Cho(c) :: SameInput(before, user, i)
      modifies this`cache, syms`cachedVis, syms`cachedTri, syms`cachedStr, syms`cachedAssignable
      modifies choices`cachedVis, choices`cachedAssignable, choices`cachedSelection
      ensures Valid()
    {
      ghost var oldCache := cache;
      assert SymOk(k, s);
      ghost var gone := RecInvalidate(Cho(c));
      ClearingInvalidates(oldCache, gone);
      assert Cut(Cho(c));
      assert Cho(c) in Recorded(k, Sym(s)) ==> Vis(Sym(s)) !in cache;
      Restored(before, oldCache, gone);
    }

    // Clears a choice and its dependents, after only its own user state changed
    method RecInvalidateChoice(c: nat, ghost before: User)
      requires Linked() && c < |choices| && UserOk(k, user) && UserOk(k, before)
      requires Sound(k, rk, before, cache, flags)
      requires forall i | i != Cho(c) :: SameInput(before, user, i)
      modifies this`cache, syms`cachedVis, syms`cachedTri, syms`cachedStr, syms`cachedAssignable
      modifies choices`cachedVis, choices`cachedAssignable, choices`cachedSelection
      ensures Valid()
    {
      ghost var oldCache := cache;
      ghost var gone := RecInvalidate(Cho(c));
      ClearingInvalidates(oldCache, gone);
      Restored(before, oldCache, gone);
    }

    method MarkSym(s: nat)
      requires Valid() && s < |syms|
      modifies this`touched, SymAt(s)`wasSet
      ensures Valid() && touched == old(touched) + {Sym(s)}
    {
      hide WellFormed, DependentsOk, Sound, UserOk;
      syms[s].wasSet := true;
      touched := touched + {Sym(s)};
    }

    method MarkChoice(c: nat)
      requires Valid() && c < |choices|
      modifies this`touched, ChoiceAt(c)`wasSet
      ensures Valid() && touched == old(touched) + {Cho(c)}
    {
      hide WellFormed, DependentsOk, Sound, UserOk;
      choices[c].wasSet := true;
      touched := touched + {Cho(c)};
    }

    method WasSet(i: Item) returns (b: bool)
      requires Valid() && IsDefined(k, i)
      ensures b <==> i in touched
    {
      hide WellFormed, DependentsOk, Sound, UserOk;
      match i
      case Sym(s) => b := syms[s].wasSet;
      case Cho(c) => b := choices[c].wasSet;
    }

    // Takes the marks off again
    method ClearMarks()
      requires Valid()
      modifies this`touched, syms`wasSet, choices`wasSet
      ensures Valid() && touched == {}
    {
      hide WellFormed, DependentsOk, Sound, UserOk, Holds, TriSlot, StrSlot, SetSlot, SelSlot;
      forall s | 0 <= s < |syms| {
        syms[s].wasSet := false;
      }
      forall c | 0 <= c < |choices| {
        choices[c].wasSet := false;
      }
      touched := {};
    }

    method UserValueOf(s: nat) returns (v: Option<UserValue>)
      requires Valid() && s < |syms|
      ensures Holds(user.values, s, v)
    {
      hide WellFormed, DependentsOk, Sound, UserOk;
      v := syms[s].userValue;
    }

    method ModeValueOf(c: nat) returns (v: Option<Tri>)
      requires Valid() && c < |choices|
      ensures Holds(user.modes, c, v)
    {
      hide WellFormed, DependentsOk, Sound, UserOk;
      v := choices[c].userValue;
    }

    lemma AssignOk(s: nat, v: UserValue)
      requires WellFormed(k, rk) && UserOk(k, user) && s < |k.syms| && ValidFor(k, s, v)
      ensures UserOk(k, Assign(k, user, s, v)) && SymOk(k, s)
    {
      assert SymOk(k, s);
    }

    // Stores a value of the right form and clears what it may affect
    method StoreAndInvalidate(s: nat, v: UserValue)
      requires Valid() && s < |syms| && ValidFor(k, s, v)
      modifies this`cache, this`user, SymAt(s)`userValue, choices`userSelection
      modifies syms`cachedVis, syms`cachedTri, syms`cachedStr, syms`cachedAssignable
      modifies choices`cachedVis, choices`cachedAssignable, choices`cachedSelection
      ensures Valid() && user == Assign(k, old(user), s, v)
    {
      hide WellFormed, DependentsOk, Sound, UserOk, Synced, ValidFor;
      AssignOk(s, v);
      var choice := k.SymAt(s).choice;
      ghost var before := user;
      StoreUserValue(s, Some(v));
      if choice.Some? && v == UTri(2) {
        StoreSelection(choice.value, s);
        RecInvalidateChoiceOf(s, choice.value, before);
      } else {
        RecInvalidateIfHasPrompt(s, before);
      }
    }

    // The choice that setting `s` to `v` selects `s` in
    function SelectsIn(s: nat, v: UserValue): Option<nat> {
      if v == UTri(2) then k.SymAt(s).choice else None
    }

    // What setting `s` to `v` marks
    function Marks(s: nat, v: UserValue): set<Item> {
      if SelectsIn(s, v).Some? then {Sym(s), Cho(SelectsIn(s, v).value)} else {Sym(s)}
    }

    /** Gives a symbol a user value, if the value has the form its type asks for. */
    method SetValue(s: nat, value: UserValue) returns (ok: bool)
      requires Valid() && s < |syms|
      modifies this`cache, this`user, this`touched, syms, choices
      ensures Valid()
      ensures ok <==> ValidFor(k, s, Converted(k, s, value))
      ensures user == if ok then Assign(k, old(user), s, Converted(k, s, value)) else old(user)
      ensures user.modes == old(user).modes
      ensures user.values ==
              if ok then old(user).values[s := Converted(k, s, value)] else old(user).values
      ensures ok && k.SymAt(s).choice.Some? && Converted(k, s, value) == UTri(2) ==>
                user.selections == old(user).selections[k.SymAt(s).choice.value := s]
      ensures !ok || k.SymAt(s).choice.None? || Converted(k, s, value) != UTri(2) ==>
                user.selections == old(user).selections
      ensures touched == if ok then old(touched) + Marks(s, Converted(k, s, value)) else old(touched)
    {
      var v := Converted(k, s, value);
      assert SymOk(k, s) && |choices| == |k.choices|;
      hide Valid, SymOk, ValidFor, Converted;
      var same := HasUserValue(s, v);
      if same && k.SymAt(s).choice == None {
        MarkSym(s);
        return true;
      }
      ok := ValidFor(k, s, v);
      if ok {
        StoreAndInvalidate(s, v);
        MarkSym(s);
        var c := SelectsIn(s, v);
        if c.Some? {
          MarkChoice(c.value);
        }
      }
    }

    method HasUserValue(s: nat, v: UserValue) returns (same: bool)
      requires Valid() && s < |syms|
      ensures same ==> ValidFor(k, s, v) && user.values[s := v] == user.values
    {
      same := syms[s].userValue == Some(v);
    }

    /** Removes the user value of a symbol. */
    method UnsetValue(s: nat)
      requires Valid() && s < |syms|
      modifies this`cache, this`user, syms, choices
      ensures Valid() && user == old(user).(values := old(user).values - {s})
    {
      assert UserOk(k, user.(values := user.values - {s}));
      hide WellFormed, DependentsOk, Sound, UserOk, Synced;
      var current := UserValueOf(s);
      if current.Some? {
        ghost var before := user;
        StoreUserValue(s, None);
        RecInvalidateIfHasPrompt(s, before);
      } else {
        assert user.values - {s} == user.values;
      }
    }

    method StoreModeAndInvalidate(c: nat, v: Tri)
      requires Valid() && c < |choices|
      modifies this`cache, this`user, ChoiceAt(c)`userValue
      modifies syms`cachedVis, syms`cachedTri, syms`cachedStr, syms`cachedAssignable
      modifies choices`cachedVis, choices`cachedAssignable, choices`cachedSelection
      ensures Valid() && user == old(user).(modes := old(user).modes[c := v])
    {
      assert UserOk(k, user.(modes := user.modes[c := v]));
      hide WellFormed, DependentsOk, Sound, UserOk, Synced;
      ghost var before := user;
      StoreMode(c, v);
      RecInvalidateChoice(c, before);
    }

    /** Sets the mode of a choice. A mode that was set before is accepted without a check. */
    method SetMode(c: nat, v: Tri) returns (ok: bool)
      requires Valid() && c < |choices|
      modifies this`cache, this`user, this`touched, syms, choices
      ensures Valid()
      ensures ok <==> (c in old(user).modes && old(user).modes[c] == v) || ValidMode(k, c, v)
      ensures user == if ok then old(user).(modes := old(user).modes[c := v]) else old(user)
      ensures touched == if ok then old(touched) + {Cho(c)} else old(touched)
    {
      assert Distinct();
      hide Valid;
      var current := ModeValueOf(c);
      if current == Some(v) {
        MarkChoice(c);
        assert user.modes[c := v] == user.modes;
        return true;
      }
      ok := ValidMode(k, c, v);
      if ok {
        StoreModeAndInvalidate(c, v);
        MarkChoice(c);
      }
    }

    /** Removes the mode and the selection of a choice. */
    method UnsetChoice(c: nat)
      requires Valid() && c < |choices|
      modifies this`cache, this`user, syms, choices
      ensures Valid()
      ensures user == old(user).(modes := old(user).modes - {c}, selections := old(user).selections - {c})
    {
      assert UserOk(k, user.(modes := user.modes - {c}, selections := user.selections - {c}));
      hide WellFormed, DependentsOk, Sound, UserOk;
      if choices[c].userValue.Some? || choices[c].userSelection.Some? {
        ghost var before := user;
        ForgetChoice(c);
        RecInvalidateChoice(c, before);
      } else {
        assert user.modes - {c} == user.modes && user.selections - {c} == user.selections;
      }
    }
  }

  // What is known about a cell is the same in both caches
  predicate SameAt(m: map<Cell, V>, m': map<Cell, V>, c: Cell) {
    if c in m then c in m' && m[c] == m'[c] else c !in m'
  }

  lemma WithoutSym(cache: map<Cell, V>, s: nat)
    ensures var w := Without(cache, {Sym(s)});
            && Vis(Sym(s)) !in w && TriOf(s) !in w && StrOf(s) !in w && Assignable(Sym(s)) !in w
            && (forall x | x != s :: SameAt(cache, w, Vis(Sym(x))))
            && (forall x | x != s :: SameAt(cache, w, TriOf(x)))
            && (forall x | x != s :: SameAt(cache, w, StrOf(x)))
            && (forall x | x != s :: SameAt(cache, w, Assignable(Sym(x))))
            && (forall c :: SameAt(cache, w, Vis(Cho(c))))
            && (forall c :: SameAt(cache, w, Assignable(Cho(c))))
            && (forall c :: SameAt(cache, w, SelOf(c)))
  {
  }

  lemma WithoutCho(cache: map<Cell, V>, c: nat)
    ensures var w := Without(cache, {Cho(c)});
            && Vis(Cho(c)) !in w && Assignable(Cho(c)) !in w && SelOf(c) !in w
            && (forall x | x != c :: SameAt(cache, w, Vis(Cho(x))))
            && (forall x | x != c :: SameAt(cache, w, Assignable(Cho(x))))
            && (forall x | x != c :: SameAt(cache, w, SelOf(x)))
            && (forall s :: SameAt(cache, w, Vis(Sym(s))))
            && (forall s :: SameAt(cache, w, TriOf(s)))
            && (forall s :: SameAt(cache, w, StrOf(s)))
            && (forall s :: SameAt(cache, w, Assignable(Sym(s))))
  {
  }

  lemma WithoutTwice(cache: map<Cell, V>, a: set<Item>, b: set<Item>)
    ensures Without(Without(cache, a), b) == Without(cache, a + b)
  {
  }
}
