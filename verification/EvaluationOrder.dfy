/** A configuration without dependency loops has an order in which all attributes can be
    evaluated. A choice and its symbols make up one group; what is in a group is evaluated
    together, and the groups one after the other. */
module EvaluationOrder {
  import opened Expressions
  import opened Wrappers
  import opened Values
  import opened Evaluation
  import opened Dependencies
  import opened Engine
  import opened Sequences
  import opened SearchTimes
  import opened DependencyLoops
  import opened ChoiceLoops

  predicate Exists(k: Kconf, i: Item) { match i case Sym(s) => s < |k.syms| case Cho(c) => c < |k.choices| }

  // Everything that is mentioned exists
  ghost predicate MentionsExist(k: Kconf) {
    forall a, i | Exists(k, a) && i in PropertyMentions(k, a) :: Exists(k, i)
  }

  function TypeOfItem(k: Kconf, a: Item): SymType {
    match a case Sym(s) => k.SymAt(s).orig case Cho(c) => k.ChoiceAt(c).orig
  }

  /** What MODULES depends on: `early` holds MODULES, with every symbol its choice, and
      everything its members depend on; and no type of these depends on MODULES in turn. */
  ghost predicate ModulesFirst(k: Kconf, early: set<Item>) {
    && Sym(k.modules) in early
    && forall a <- early :: EarlyOk(k, early, a)
  }

  predicate EarlyOk(k: Kconf, early: set<Item>, a: Item) {
    && (IsDefined(k, a) ==> TypeOfItem(k, a) != Tristate) && Recorded(k, a) <= early && Group(k, a) in early
  }

  ghost predicate NoLoops(k: Kconf) { forall loop :: !IsLoop(k, loop) }

  // ---------- groups ----------

  // The choice of a symbol stands for the symbol
  function Group(k: Kconf, i: Item): Item {
    if i.Sym? && k.SymAt(i.s).choice.Some? then Cho(k.SymAt(i.s).choice.value) else i
  }

  // Something in the group `g` depends on something in another one
  ghost predicate GroupDep(k: Kconf, g: Item, h: Item) {
    g != h && exists a, b :: Across(k, g, h, a, b)
  }

  predicate Across(k: Kconf, g: Item, h: Item, a: Item, b: Item) {
    Group(k, a) == g && Group(k, b) == h && PropertyDep(k, a, b)
  }

  ghost predicate GroupPath(k: Kconf, path: seq<Item>) {
    forall j | 0 < j < |path| :: GroupDep(k, path[j - 1], path[j])
  }

  ghost predicate Leads(k: Kconf, g: Item, h: Item, path: seq<Item>) {
    |path| > 1 && path[0] == g && path[|path| - 1] == h && GroupPath(k, path)
  }

  ghost predicate Reaches(k: Kconf, g: Item, h: Item) { exists path :: Leads(k, g, h, path) }

  function Items(k: Kconf): set<Item> { (set s | 0 <= s < |k.syms| :: Sym(s)) + (set c | 0 <= c < |k.choices| :: Cho(c)) }

  ghost function Below(k: Kconf, g: Item): set<Item> { set h | h in Items(k) && Reaches(k, g, h) }

  // How many groups a group depends on
  ghost function Depth(k: Kconf, g: Item): nat { |Below(k, g)| }

  lemma ProperSubset(a: set<Item>, b: set<Item>)
    requires a <= b
    ensures |a| <= |b| && (a != b ==> |a| < |b|)
  {
    var more := b - a;
    assert b == a + more && a * more == {};
    if a != b {
      assert more != {};
    }
  }

  lemma PathMore(k: Kconf, g: Item, h: Item, path: seq<Item>)
    requires GroupDep(k, g, h) && path != [] && path[0] == h && GroupPath(k, path)
    ensures GroupPath(k, [g] + path)
  {
    hide GroupDep;
    var more := [g] + path;
    forall j | 0 < j < |more| ensures GroupDep(k, more[j - 1], more[j]) {
      if j > 1 {
        assert more[j - 1] == path[j - 2] && more[j] == path[j - 1];
      }
    }
  }

  // What a group depends on depends on fewer groups, unless on itself
  lemma DepthFalls(k: Kconf, g: Item, h: Item)
    requires GroupDep(k, g, h) && h in Items(k) && !Reaches(k, h, h)
    ensures Depth(k, h) < Depth(k, g)
  {
    hide GroupDep;
    PathMore(k, g, h, [h]);
    assert Leads(k, g, h, [g, h]);
    forall x | x in Below(k, h) ensures x in Below(k, g) {
      var path :| Leads(k, h, x, path);
      PathMore(k, g, h, path);
      assert Leads(k, g, x, [g] + path);
    }
    assert h in Below(k, g) && h !in Below(k, h);
    ProperSubset(Below(k, h), Below(k, g));
  }

  lemma DepthBound(k: Kconf, g: Item)
    ensures Depth(k, g) <= |Items(k)|
  {
    ProperSubset(Below(k, g), Items(k));
  }

  // ---------- groups that depend on each other are a loop ----------

  // From one item of a group to another one, through the choice where that is between
  function Within(k: Kconf, b: Item, a: Item): seq<Item> {
    if a == b then [b]
    else if a.Cho? || b.Cho? then [b, a]
    else [b, Group(k, b), a]
  }

  lemma SameGroup(k: Kconf, b: Item, a: Item)
    requires Static(k) && Group(k, a) == Group(k, b)
    ensures var path := Within(k, b, a);
            && Chain(k, path) && NoDup(path) && path[0] == b && path[|path| - 1] == a
            && forall x <- path :: Group(k, x) == Group(k, a)
  {
    MemberBothWays(k, a);
    MemberBothWays(k, b);
    hide PropertyDep, Static, Member;
  }

  lemma MemberBothWays(k: Kconf, a: Item)
    requires Static(k)
    ensures a.Sym? && Group(k, a) != a ==> Member(k, a, Group(k, a)) && Member(k, Group(k, a), a)
  {
    if a.Sym? && a.s < |k.syms| {
      assert SymOk(k, a.s);
    }
  }

  lemma ChainConcat(k: Kconf, a: seq<Item>, b: seq<Item>)
    requires a != [] && b != [] && Chain(k, a) && Chain(k, b) && DependsOn(k, a[|a| - 1], b[0])
    ensures Chain(k, a + b)
  {
    hide DependsOn;
    var all := a + b;
    forall j | 0 < j < |all| ensures DependsOn(k, all[j - 1], all[j]) {
      if j > |a| {
        assert all[j - 1] == b[j - 1 - |a|] && all[j] == b[j - |a|];
      }
    }
  }

  predicate InGroups(k: Kconf, chain: seq<Item>, groups: seq<Item>) { forall x <- chain :: Group(k, x) in groups }

  // Different items, of the groups `groups` in turn
  predicate Thread(k: Kconf, chain: seq<Item>, groups: seq<Item>) {
    && chain != [] && Chain(k, chain) && NoDup(chain) && InGroups(k, chain, groups)
  }

  lemma ThreadConcat(k: Kconf, a: seq<Item>, gs: seq<Item>, b: seq<Item>, hs: seq<Item>)
    requires Thread(k, a, gs) && Thread(k, b, hs) && a != [] && b != [] && DependsOn(k, a[|a| - 1], b[0])
    requires forall g <- gs :: g !in hs
    ensures Thread(k, a + b, gs + hs)
  {
    ChainConcat(k, a, b);
    hide Chain, DependsOn;
    assert Members(a) !! Members(b);
    NoDupConcat(a, b);
  }

  /** From the item `b` through the groups of a path up to the one `a` in its last group. */
  lemma {:induction false} Threaded(k: Kconf, path: seq<Item>, b: Item, a: Item) returns (chain: seq<Item>)
    requires Static(k) && path != [] && GroupPath(k, path) && NoDup(path)
    requires Group(k, b) == path[0] && Group(k, a) == path[|path| - 1]
    ensures Thread(k, chain, path) && chain != [] && chain[0] == b && chain[|chain| - 1] == a && |chain| >= |path|
    ensures |path| == 2 && |chain| == 2 ==> PropertyDep(k, b, a)
    decreases |path|
  {
    if |path| == 1 {
      SameGroup(k, b, a);
      chain := Within(k, b, a);
    } else {
      assert GroupDep(k, path[0], path[1]);
      var x, y :| Across(k, path[0], path[1], x, y);
      PathTail(k, path);
      hide GroupPath, GroupDep, PropertyDep, Static, Member, Thread, NoDup;
      var rest := Threaded(k, path[1..], y, a);
      var first := FirstThread(k, path[0], b, x);
      hide *;
      Joined(k, path, first, rest);
      chain := first + rest;
    }
  }

  lemma Joined(k: Kconf, path: seq<Item>, first: seq<Item>, rest: seq<Item>)
    requires |path| > 1 && path[0] !in path[1..] && Thread(k, first, [path[0]]) && Thread(k, rest, path[1..])
    requires first != [] && rest != [] && PropertyDep(k, first[|first| - 1], rest[0])
    ensures var chain := first + rest;
            && Thread(k, chain, path) && chain[0] == first[0] && chain[|chain| - 1] == rest[|rest| - 1]
            && (|chain| == 2 ==> PropertyDep(k, first[0], rest[|rest| - 1]))
  {
    hide PropertyDep, Member, Thread;
    ThreadConcat(k, first, [path[0]], rest, path[1..]);
    assert [path[0]] + path[1..] == path;
  }

  lemma FirstThread(k: Kconf, g: Item, b: Item, x: Item) returns (chain: seq<Item>)
    requires Static(k) && Group(k, b) == g && Group(k, x) == g
    ensures Thread(k, chain, [g]) && chain != [] && chain[0] == b && chain[|chain| - 1] == x
  {
    SameGroup(k, b, x);
    chain := Within(k, b, x);
    hide Within, Chain, NoDup;
  }

  lemma PathTail(k: Kconf, path: seq<Item>)
    requires path != [] && GroupPath(k, path) && NoDup(path)
    ensures GroupPath(k, path[1..]) && NoDup(path[1..]) && path[0] !in path[1..]
  {
    hide GroupDep;
    var rest := path[1..];
    forall j | 0 < j < |rest| ensures GroupDep(k, rest[j - 1], rest[j]) {
      assert rest[j - 1] == path[j] && rest[j] == path[j + 1];
    }
  }

  // Different groups, each of which depends on the next one and the last on the first
  lemma CycleIsLoop(k: Kconf, cycle: seq<Item>) returns (loop: seq<Item>)
    requires Static(k) && OneChoice(k) && |cycle| > 1 && GroupPath(k, cycle) && NoDup(cycle)
    requires GroupDep(k, cycle[|cycle| - 1], cycle[0])
    ensures IsLoop(k, loop)
  {
    var a, b :| Across(k, cycle[|cycle| - 1], cycle[0], a, b);
    hide GroupPath, GroupDep, PropertyDep, Static;
    loop := Threaded(k, cycle, b, a);
    hide Chain, NoDup;
    if |loop| == 2 {
      assert loop == [b, a] && |cycle| == 2;
    }
  }

  lemma {:induction false} SimpleCycle(k: Kconf, cycle: seq<Item>) returns (simple: seq<Item>)
    requires cycle != [] && GroupPath(k, cycle) && GroupDep(k, cycle[|cycle| - 1], cycle[0])
    ensures |simple| > 1 && GroupPath(k, simple) && NoDup(simple) && GroupDep(k, simple[|simple| - 1], simple[0])
    decreases |cycle|
  {
    simple := cycle;
    if !NoDup(cycle) {
      var i, j :| 0 <= i < j < |cycle| && cycle[i] == cycle[j];
      hide NoDup, GroupDep, GroupPath;
      InnerCycle(k, cycle, i, j);
      simple := SimpleCycle(k, cycle[i..j]);
    } else {
      assert |cycle| > 1;
    }
  }

  lemma InnerCycle(k: Kconf, cycle: seq<Item>, i: nat, j: nat)
    requires GroupPath(k, cycle) && i < j < |cycle| && cycle[i] == cycle[j]
    ensures var inner := cycle[i..j];
            GroupPath(k, inner) && inner != [] && GroupDep(k, inner[|inner| - 1], inner[0])
  {
    hide Across;
    var inner := cycle[i..j];
    forall n | 0 < n < |inner| ensures GroupDep(k, inner[n - 1], inner[n]) {
      assert inner[n - 1] == cycle[i + n - 1] && inner[n] == cycle[i + n];
    }
    assert inner[|inner| - 1] == cycle[j - 1] && inner[0] == cycle[j];
    assert GroupDep(k, cycle[j - 1], cycle[j]);
  }

  /** Without loops no group depends on itself, however far away. */
  lemma NoLoopNoCycle(k: Kconf, g: Item)
    requires Static(k) && OneChoice(k) && NoLoops(k)
    ensures !Reaches(k, g, g)
  {
    if Reaches(k, g, g) {
      var path :| Leads(k, g, g, path);
      hide GroupDep, Static, OneChoice;
      var cycle := path[..|path| - 1];
      assert cycle[|cycle| - 1] == path[|path| - 2];
      var simple := SimpleCycle(k, cycle);
      hide IsLoop;
      var loop := CycleIsLoop(k, simple);
    }
  }

  /** Without loops the properties of an item depend, within its own group, on the choice alone. */
  lemma OwnGroup(k: Kconf, a: Item, b: Item)
    requires Static(k) && NoLoops(k) && PropertyDep(k, a, b) && Group(k, a) == Group(k, b)
    ensures a.Sym? && b == Group(k, a) && b.Cho?
  {
    MemberBothWays(k, a);
    MemberBothWays(k, b);
    hide PropertyDep, Member, Static;
    assert a == b ==> IsLoop(k, [a]);
    assert a.Cho? && b.Sym? ==> IsLoop(k, [a, b]);
    assert a.Sym? && b.Sym? && a != b ==> IsLoop(k, [a, b, Group(k, b)]);
  }

  // ---------- the order ----------

  // Groups that MODULES depends on come first, then the others, by what they depend on
  ghost function Level(k: Kconf, early: set<Item>, g: Item): nat {
    if !IsDefined(k, g) then 0
    else if g in early then 1 + Depth(k, g)
    else 2 + |Items(k)| + Depth(k, g)
  }

  // Within a group: visibility and mode of the choice, visibility of the symbols, selection, values
  function Offset(c: Cell): nat {
    match c
    case Vis(i) => if i.Cho? then 0 else 2
    case ModeOf(_) => 1
    case SelOf(_) => 3
    case TriOf(_) => 4
    case StrOf(_) => 5
    case Assignable(_) => 6
  }

  // Nobody looks at the visibility of what has no definition
  ghost function Rank(k: Kconf, early: set<Item>, c: Cell): nat {
    if (c.Vis? || c.Assignable?) && !IsDefined(k, c.Owner()) then 7 * (3 + 2 * |Items(k)|) + Offset(c)
    else 7 * Level(k, early, Group(k, c.Owner())) + Offset(c)
  }

  // `c` is the value or mode of an item that the properties of `a` mention
  predicate MentionedCell(k: Kconf, a: Item, c: Cell) {
    c.Owner() in PropertyMentions(k, a) && (c.TriOf? || c.StrOf? || c.ModeOf?)
  }

  predicate MentionedCells(k: Kconf, a: Item, cells: set<Cell>) { forall c <- cells :: MentionedCell(k, a, c) }

  // What the attribute `c` of `a` may look at
  predicate Explained(k: Kconf, a: Item, c: Cell, d: Cell) {
    || MentionedCell(k, a, d)
    || (Group(k, d.Owner()) == Group(k, a) && Offset(d) < Offset(c) && (d.Vis? ==> d.Owner() == a || IsDefined(k, d.Owner())))
    || (d == TriOf(k.modules) && TypeOfItem(k, a) == Tristate && !c.StrOf?)
  }

  predicate AllExplained(k: Kconf, a: Item, c: Cell, ds: set<Cell>) { forall d <- ds :: Explained(k, a, c, d) }

  lemma {:induction false} EMayMentioned(k: Kconf, e: Expr)
    ensures forall c <- EMay(k, e) :: c.Owner() in Mentions(e) && (c.TriOf? || c.StrOf? || c.ModeOf?)
  {
    match e
    case Atom(_) =>
    case And(l, r) => EMayMentioned(k, l); EMayMentioned(k, r);
    case Or(l, r) => EMayMentioned(k, l); EMayMentioned(k, r);
    case Not(e1) => EMayMentioned(k, e1);
    case Rel(_, _, _) =>
  }

  lemma {:induction false} AllMayMentioned(k: Kconf, es: seq<Expr>)
    ensures forall c <- AllMay(k, es) :: c.Owner() in AllMentions(es) && (c.TriOf? || c.StrOf? || c.ModeOf?)
  {
    if es != [] {
      AllMayMentioned(k, es[..|es| - 1]);
      EMayMentioned(k, es[|es| - 1]);
      assert AllMentions(es[..|es| - 1]) <= AllMentions(es);
      assert Mentions(es[|es| - 1]) <= AllMentions(es);
    }
  }

  lemma ListMentioned(k: Kconf, a: Item, c: Cell, es: seq<Expr>)
    requires AllMentions(es) <= PropertyMentions(k, a)
    ensures AllExplained(k, a, c, AllMay(k, es))
  {
    AllMayMentioned(k, es);
    hide AllMentions, PropertyMentions, AllMay;
  }

  lemma ExprMentioned(k: Kconf, a: Item, c: Cell, e: Expr)
    requires Mentions(e) <= PropertyMentions(k, a)
    ensures AllExplained(k, a, c, EMay(k, e))
  {
    EMayMentioned(k, e);
    hide Mentions, PropertyMentions, EMay;
  }

  lemma SymMentions(k: Kconf, s: nat)
    ensures var (d, ms) := (k.SymAt(s), PropertyMentions(k, Sym(s)));
            && AllMentions(d.prompts) <= ms && AllMentions(DefaultConds(d.defaults)) <= ms
            && AllMentions(DefaultValues(d.defaults)) <= ms && AllMentions(RangeConds(d.ranges)) <= ms
            && Mentions(d.revDep) <= ms && Mentions(d.weakRevDep) <= ms && Mentions(d.directDep) <= ms
            && (set r <- d.ranges :: Sym(r.low)) <= ms && (set r <- d.ranges :: Sym(r.high)) <= ms
  {
    hide AllMentions, Mentions;
  }

  lemma ExplainedUnion(k: Kconf, a: Item, c: Cell, x: set<Cell>, y: set<Cell>)
    requires AllExplained(k, a, c, x) && AllExplained(k, a, c, y)
    ensures AllExplained(k, a, c, x + y)
  {
  }

  lemma TypeExplained(k: Kconf, s: nat, c: Cell)
    requires Static(k) && s < |k.syms| && (c == Vis(Sym(s)) || c == TriOf(s) || c == Assignable(Sym(s)))
    ensures AllExplained(k, Sym(s), c, TypeMay(k, s)) && AllExplained(k, Sym(s), c, ModeMay(k, s))
  {
    assert SymOk(k, s);
    hide PropertyMentions;
  }

  lemma SymVisExplained(k: Kconf, s: nat)
    requires Static(k) && s < |k.syms|
    ensures AllExplained(k, Sym(s), Vis(Sym(s)), May(k, Vis(Sym(s))))
  {
    var (a, c) := (Sym(s), Vis(Sym(s)));
    SymMentions(k, s);
    ListMentioned(k, a, c, k.SymAt(s).prompts);
    TypeExplained(k, s, c);
    hide AllExplained, PropertyMentions, TypeMay, ModeMay;
    ExplainedUnion(k, a, c, AllMay(k, k.SymAt(s).prompts), ModeMay(k, s));
    ExplainedUnion(k, a, c, AllMay(k, k.SymAt(s).prompts) + ModeMay(k, s), TypeMay(k, s));
  }

  lemma TriExplained(k: Kconf, s: nat)
    requires Static(k) && s < |k.syms|
    ensures AllExplained(k, Sym(s), TriOf(s), May(k, TriOf(s)))
  {
    var d := k.SymAt(s);
    assert SymOk(k, s);
    if !d.fixed.Some? && BoolTri(d.orig) && d.choice.None? {
      FreeTriExplained(k, s);
    }
    hide PropertyMentions, FreeTriMay;
  }

  lemma FreeTriExplained(k: Kconf, s: nat)
    requires Static(k) && s < |k.syms|
    ensures AllExplained(k, Sym(s), TriOf(s), FreeTriMay(k, s))
  {
    var (a, c, d) := (Sym(s), TriOf(s), k.SymAt(s));
    SymMentions(k, s);
    ListMentioned(k, a, c, DefaultConds(d.defaults));
    ListMentioned(k, a, c, DefaultValues(d.defaults));
    ExprMentioned(k, a, c, d.weakRevDep);
    ExprMentioned(k, a, c, d.directDep);
    ExprMentioned(k, a, c, d.revDep);
    TypeExplained(k, s, c);
    assert AllExplained(k, a, c, {Vis(a)});
    hide AllExplained, PropertyMentions, TypeMay, EMay, AllMay;
    var f1 := {Vis(a)} + AllMay(k, DefaultConds(d.defaults));
    ExplainedUnion(k, a, c, {Vis(a)}, AllMay(k, DefaultConds(d.defaults)));
    var f2 := f1 + AllMay(k, DefaultValues(d.defaults));
    ExplainedUnion(k, a, c, f1, AllMay(k, DefaultValues(d.defaults)));
    var f3 := f2 + EMay(k, d.weakRevDep);
    ExplainedUnion(k, a, c, f2, EMay(k, d.weakRevDep));
    var f4 := f3 + EMay(k, d.directDep);
    ExplainedUnion(k, a, c, f3, EMay(k, d.directDep));
    var f5 := f4 + EMay(k, d.revDep);
    ExplainedUnion(k, a, c, f4, EMay(k, d.revDep));
    ExplainedUnion(k, a, c, f5, TypeMay(k, s));
  }

  lemma NamesMentioned(k: Kconf, s: nat)
    requires Static(k) && s < |k.syms| && (k.SymAt(s).orig == String || Numeric(k.SymAt(s).orig))
    ensures AllExplained(k, Sym(s), StrOf(s), NamedStrs(k.SymAt(s).defaults))
  {
    var d := k.SymAt(s);
    assert SymOk(k, s);
    forall x <- d.defaults ensures MentionedCell(k, Sym(s), StrOf(DefaultSym(x))) {
      var i :| 0 <= i < |d.defaults| && d.defaults[i] == x;
      assert DefaultValues(d.defaults)[i] == x.value;
      assert Sym(DefaultSym(x)) in Mentions(x.value);
      assert Sym(DefaultSym(x)) in AllMentions(DefaultValues(d.defaults));
    }
  }

  lemma StrExplained(k: Kconf, s: nat)
    requires Static(k) && s < |k.syms|
    ensures AllExplained(k, Sym(s), StrOf(s), SymStrMay(k, s))
  {
    var (a, c, d) := (Sym(s), StrOf(s), k.SymAt(s));
    if d.orig == String || Numeric(d.orig) {
      SymMentions(k, s);
      NamesMentioned(k, s);
      ListMentioned(k, a, c, DefaultConds(d.defaults));
      ListMentioned(k, a, c, RangeConds(d.ranges));
      assert AllExplained(k, a, c, {Vis(a)}) && AllExplained(k, a, c, BoundStrs(d.ranges));
      hide AllExplained, PropertyMentions, AllMay, NamedStrs, BoundStrs;
      var f1 := {Vis(a)} + AllMay(k, DefaultConds(d.defaults));
      ExplainedUnion(k, a, c, {Vis(a)}, AllMay(k, DefaultConds(d.defaults)));
      var f2 := f1 + NamedStrs(d.defaults);
      ExplainedUnion(k, a, c, f1, NamedStrs(d.defaults));
      var f3 := f2 + AllMay(k, RangeConds(d.ranges));
      ExplainedUnion(k, a, c, f2, AllMay(k, RangeConds(d.ranges)));
      ExplainedUnion(k, a, c, f3, BoundStrs(d.ranges));
    }
    hide PropertyMentions, NumberMay;
  }

  lemma AssignableExplained(k: Kconf, s: nat)
    requires Static(k) && s < |k.syms|
    ensures AllExplained(k, Sym(s), Assignable(Sym(s)), May(k, Assignable(Sym(s))))
  {
    var (a, c, d) := (Sym(s), Assignable(Sym(s)), k.SymAt(s));
    SymMentions(k, s);
    TypeExplained(k, s, c);
    ExprMentioned(k, a, c, d.revDep);
    ExprMentioned(k, a, c, d.weakRevDep);
    assert AllExplained(k, a, c, {Vis(a)}) && AllExplained(k, a, c, {});
    hide AllExplained, PropertyMentions, EMay, TypeMay;
    var f1 := {Vis(a)} + EMay(k, d.revDep);
    ExplainedUnion(k, a, c, {Vis(a)}, EMay(k, d.revDep));
    var f2 := f1 + EMay(k, d.weakRevDep);
    ExplainedUnion(k, a, c, f1, EMay(k, d.weakRevDep));
    ExplainedUnion(k, a, c, f2, TypeMay(k, s));
  }

  lemma ChoiceExplained(k: Kconf, c: Cell, ch: nat)
    requires Static(k) && OneChoice(k) && ch < |k.choices| && c.Owner() == Cho(ch)
    ensures AllExplained(k, Cho(ch), c, May(k, c))
  {
    var (a, d) := (Cho(ch), k.ChoiceAt(ch));
    assert ChoiceOk(k, ch);
    assert AllMentions(d.prompts) <= PropertyMentions(k, a) && AllMentions(ChoiceConds(d.defaults)) <= PropertyMentions(k, a);
    ListMentioned(k, a, c, d.prompts);
    ListMentioned(k, a, c, ChoiceConds(d.defaults));
    hide PropertyMentions, AllMay, Static;
    if c.SelOf? {
      SelExplained(k, ch);
    }
  }

  lemma SelExplained(k: Kconf, ch: nat)
    requires ChoiceOk(k, ch) && OneChoice(k) && ch < |k.choices|
    requires AllExplained(k, Cho(ch), SelOf(ch), AllMay(k, ChoiceConds(k.ChoiceAt(ch).defaults)))
    ensures AllExplained(k, Cho(ch), SelOf(ch), May(k, SelOf(ch)))
  {
    hide AllMay, PropertyMentions;
    forall d | d in May(k, SelOf(ch)) ensures Explained(k, Cho(ch), SelOf(ch), d) {
    }
  }

  lemma MayExplained(k: Kconf, c: Cell)
    requires Static(k) && OneChoice(k) && HasCell(k, c)
    ensures AllExplained(k, c.Owner(), c, May(k, c))
  {
    match c.Owner()
    case Cho(ch) => ChoiceExplained(k, c, ch);
    case Sym(s) =>
      match c
      case Vis(_) => SymVisExplained(k, s);
      case TriOf(_) => TriExplained(k, s);
      case StrOf(_) => StrExplained(k, s);
      case Assignable(_) => AssignableExplained(k, s);
  }

  // ---------- everything an attribute may look at comes before it ----------

  lemma GroupExists(k: Kconf, a: Item)
    requires Static(k) && Exists(k, a)
    ensures Exists(k, Group(k, a)) && (IsDefined(k, a) <==> IsDefined(k, Group(k, a)))
    ensures Group(k, Group(k, a)) == Group(k, a)
    ensures a.Sym? && !IsDefined(k, a) ==> Group(k, a) == a
  {
    if a.Sym? {
      assert SymOk(k, a.s);
    }
  }

  // A whole group is early or not
  lemma EarlyGroup(k: Kconf, early: set<Item>, a: Item)
    requires Static(k) && OneChoice(k) && ModulesFirst(k, early) && IsDefined(k, a)
    ensures Group(k, a) in early ==> a in early
  {
    MemberBothWays(k, a);
    GroupExists(k, a);
    assert Group(k, a) != a ==> a in Recorded(k, Group(k, a));
    hide PropertyMentions, Static, Recorded;
    if Group(k, a) in early {
      assert EarlyOk(k, early, Group(k, a));
    }
  }

  lemma LevelBound(k: Kconf, early: set<Item>, g: Item)
    ensures Level(k, early, g) <= 2 + 2 * |Items(k)|
    ensures IsDefined(k, g) && g in early ==> Level(k, early, g) <= 1 + |Items(k)|
  {
    DepthBound(k, g);
    hide Depth;
  }

  // What is mentioned is on a lower level, unless it is the choice of the symbol
  lemma MentionedLower(k: Kconf, early: set<Item>, a: Item, i: Item)
    requires Static(k) && OneChoice(k) && MentionsExist(k) && NoLoops(k) && ModulesFirst(k, early)
    requires IsDefined(k, a) && i in PropertyMentions(k, a)
    ensures Exists(k, i)
    ensures Level(k, early, Group(k, i)) < Level(k, early, Group(k, a)) || (a.Sym? && i.Cho? && i == Group(k, a))
  {
    assert Exists(k, a) && Exists(k, i);
    GroupExists(k, a);
    GroupExists(k, i);
    if IsDefined(k, i) {
      DefinedNotConstant(k, i);
      assert PropertyDep(k, a, i) && i in Recorded(k, a);
      hide PropertyMentions, Static, MentionsExist;
      if Group(k, a) == Group(k, i) {
        OwnGroup(k, a, i);
      } else {
        GroupLower(k, early, a, i);
      }
    } else {
      hide PropertyMentions, Static, MentionsExist, Depth;
    }
  }

  lemma DefinedNotConstant(k: Kconf, i: Item)
    requires Static(k) && IsDefined(k, i)
    ensures !IsConstant(k, i)
  {
    if i.Sym? {
      assert SymOk(k, i.s);
    }
  }

  lemma GroupLower(k: Kconf, early: set<Item>, a: Item, i: Item)
    requires Static(k) && OneChoice(k) && NoLoops(k) && ModulesFirst(k, early) && PropertyDep(k, a, i) && i in Recorded(k, a)
    requires Group(k, a) != Group(k, i) && IsDefined(k, Group(k, a)) && IsDefined(k, Group(k, i))
    ensures Level(k, early, Group(k, i)) < Level(k, early, Group(k, a))
  {
    var (g, h) := (Group(k, a), Group(k, i));
    EarlyGroup(k, early, a);
    hide PropertyDep, Recorded;
    assert a in early ==> EarlyOk(k, early, a);
    assert i in early ==> EarlyOk(k, early, i);
    hide ModulesFirst;
    assert Across(k, g, h, a, i);
    assert h in Items(k);
    NoLoopNoCycle(k, h);
    DepthFalls(k, g, h);
    DepthBound(k, h);
    hide Depth, Reaches, NoLoops, Items, Static, OneChoice;
  }

  // MODULES comes before everything tristate
  lemma ModulesLower(k: Kconf, early: set<Item>, a: Item)
    requires Static(k) && OneChoice(k) && ModulesFirst(k, early) && IsDefined(k, a) && TypeOfItem(k, a) == Tristate
    ensures Level(k, early, Group(k, Sym(k.modules))) < Level(k, early, Group(k, a))
  {
    EarlyGroup(k, early, a);
    assert a in early ==> EarlyOk(k, early, a);
    assert EarlyOk(k, early, Sym(k.modules));
    GroupExists(k, a);
    LevelBound(k, early, Group(k, Sym(k.modules)));
    hide Depth, Items, Static, OneChoice, Recorded, ModulesFirst;
  }

  lemma CellAfter(k: Kconf, early: set<Item>, c: Cell, d: Cell)
    requires Static(k) && OneChoice(k) && MentionsExist(k) && NoLoops(k) && ModulesFirst(k, early)
    requires HasCell(k, c) && IsDefined(k, c.Owner()) && Explained(k, c.Owner(), c, d)
    ensures HasCell(k, d) && Rank(k, early, d) < Rank(k, early, c)
  {
    var a := c.Owner();
    if MentionedCell(k, a, d) {
      MentionedLower(k, early, a, d.Owner());
      assert a.Sym? && d.Owner() == Group(k, a) ==> Offset(d) == 1 && Offset(c) >= 2;
    } else if d == TriOf(k.modules) && TypeOfItem(k, a) == Tristate {
      ModulesLower(k, early, a);
    } else {
      GroupExists(k, a);
    }
    hide Level, Static, OneChoice, MentionsExist, NoLoops, ModulesFirst, MentionedCell, PropertyMentions;
  }

  // The value of a symbol without a definition is constant or none at all
  lemma UndefinedValue(k: Kconf, s: nat)
    requires Static(k) && s < |k.syms| && !k.syms[s].defined
    ensures May(k, TriOf(s)) == {} && May(k, StrOf(s)) <= {TriOf(s)}
  {
    assert SymOk(k, s);
  }

  lemma ExplainedExists(k: Kconf, a: Item, c: Cell, d: Cell)
    requires Static(k) && MentionsExist(k) && Exists(k, a) && Explained(k, a, c, d)
    ensures HasCell(k, d)
  {
    GroupExists(k, a);
    if MentionedCell(k, a, d) {
      assert Exists(k, d.Owner());
    } else if d != TriOf(k.modules) {
      assert Group(k, d.Owner()) == Group(k, a);
    }
    hide PropertyMentions;
  }

  lemma UndefinedAfter(k: Kconf, early: set<Item>, s: nat, c: Cell, d: Cell)
    requires Static(k) && MentionsExist(k) && s < |k.syms| && !k.syms[s].defined && c.Owner() == Sym(s)
    requires d in May(k, c) && Explained(k, Sym(s), c, d)
    ensures HasCell(k, d) && Rank(k, early, d) < Rank(k, early, c)
  {
    assert Exists(k, Sym(s));
    ExplainedExists(k, Sym(s), c, d);
    hide PropertyMentions, May, Static, MentionsExist, HasCell;
    UndefinedValue(k, s);
    GroupExists(k, Sym(s));
    if c.TriOf? || c.StrOf? {
      assert c == StrOf(s) && d == TriOf(s);
    } else {
      UndefinedLast(k, early, c, d);
    }
  }

  lemma UndefinedLast(k: Kconf, early: set<Item>, c: Cell, d: Cell)
    requires (c.Vis? || c.Assignable?) && !IsDefined(k, c.Owner())
    requires !d.Assignable? && (d.Vis? ==> d.Owner() == c.Owner() && c.Assignable?)
    ensures Rank(k, early, d) < Rank(k, early, c)
  {
    RankBound(k, early, d);
  }

  // What is mentioned comes before the visibility of anything without a definition
  lemma RankBound(k: Kconf, early: set<Item>, d: Cell)
    ensures !d.Vis? && !d.Assignable? ==> Rank(k, early, d) < 7 * (3 + 2 * |Items(k)|)
  {
    LevelBound(k, early, Group(k, d.Owner()));
  }

  /** A configuration without dependency loops can be evaluated: every attribute comes after
      everything it may look at. */
  lemma LoopFreeIsWellFormed(k: Kconf, early: set<Item>)
    requires Static(k) && OneChoice(k) && MentionsExist(k) && NoLoops(k) && ModulesFirst(k, early)
    ensures WellFormed(k, c => Rank(k, early, c))
  {
    var rk := c => Rank(k, early, c);
    forall c {:trigger MayOk(k, rk, c)} | HasCell(k, c) ensures MayOk(k, rk, c) {
      MayExplained(k, c);
      forall d | d in May(k, c) ensures HasCell(k, d) && Rank(k, early, d) < Rank(k, early, c) {
        assert Explained(k, c.Owner(), c, d);
        if IsDefined(k, c.Owner()) {
          CellAfter(k, early, c, d);
        } else {
          UndefinedAfter(k, early, c.Owner().s, c, d);
        }
      }
    }
  }

  // Without choices there is nothing for a choice to hide
  lemma WithoutChoices(k: Kconf)
    requires Static(k) && MentionsExist(k) && k.choices == []
    ensures ChoicesTidy(k) && !SomeLeadsOn(k)
  {
    forall a: Item, c: nat ensures !PropertyDep(k, a, Cho(c)) {
      assert PropertyDep(k, a, Cho(c)) ==> Exists(k, Cho(c));
    }
    assert forall c: nat :: k.ChoiceAt(c).syms == [];
    hide PropertyDep;
  }

  /** From the definitions to a configuration that can be evaluated and changed, or to a loop.
      If no symbol of a choice leads on to a later one, which detection may overlook, there is
      a configuration exactly if there is no loop. */
  method Finalised(k: Kconf, ghost early: set<Item>) returns (r: Option<Kconfig>)
    requires Static(k) && ChoicesTidy(k) && MentionsExist(k) && ModulesFirst(k, early) && !SomeLeadsOn(k)
    ensures r.None? <==> exists loop :: IsLoop(k, loop)
    ensures r.Some? ==> fresh(r.value) && r.value.k == k && r.value.Valid() && r.value.user == User(map[], map[], map[])
  {
    var deps := BuildSymDeps(k);
    deps := BuildChoiceDeps(k, deps);
    hide PropertyDep, DependentsOf;
    var lists := Listed(k, deps);
    var loop, order, times := FindLoopWithChoices(k, lists);
    if loop.Some? {
      return None;
    }
    hide IsLoop, SomeLeadsOn, SomeHides, Timed, ListsOk, Static, MentionsExist, ModulesFirst, OneChoice;
    LoopFreeIsWellFormed(k, early);
    ghost var rk := c => Rank(k, early, c);
    var kconfig := new Kconfig(k, rk);
    r := Some(kconfig);
  }
}
