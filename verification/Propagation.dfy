/** Finalisation of the menu tree: dependencies are handed down from menus, 'if's and
    choices to everything below them, and properties are copied up to the symbols. */
module Propagation {
  import opened Expressions
  import opened Wrappers
  import opened Values
  import opened Sequences

  // The numbers of the constants n and y
  datatype Consts = Consts(n: nat, y: nat) {
    predicate Ok(a: Assignment) { a.item(Sym(n)) == 0 && a.item(Sym(y)) == 2 }
  }

  function MakeAnd(k: Consts, e1: Expr, e2: Expr): (r: Expr)
    ensures forall a | k.Ok(a) :: Eval(r, a) == Min(Eval(e1, a), Eval(e2, a))
  {
    if e1 == Atom(Sym(k.y)) then e2
    else if e2 == Atom(Sym(k.y)) then e1
    else if e1 == Atom(Sym(k.n)) || e2 == Atom(Sym(k.n)) then Atom(Sym(k.n))
    else And(e1, e2)
  }

  function MakeOr(k: Consts, e1: Expr, e2: Expr): (r: Expr)
    ensures forall a | k.Ok(a) :: Eval(r, a) == Max(Eval(e1, a), Eval(e2, a))
  {
    if e1 == Atom(Sym(k.n)) then e2
    else if e2 == Atom(Sym(k.n)) then e1
    else if e1 == Atom(Sym(k.y)) || e2 == Atom(Sym(k.y)) then Atom(Sym(k.y))
    else Or(e1, e2)
  }

  // ---------- menu entries ----------

  datatype EntryKind = SymbolEntry(s: nat) | ChoiceEntry(c: nat) | MenuEntry | IfEntry | CommentEntry

  datatype Select = Select(target: nat, cond: Expr)

  // What a menu entry carries; `visibility` is the 'visible if' of a menu
  datatype Props = Props(
    dep: Expr, prompt: Option<Expr>, visibility: Expr,
    defaults: seq<Default>, ranges: seq<Range>, selects: seq<Select>, implies: seq<Select>)

  /** A menu entry. `parsed` is what the file says, `props` what has become of it so far. */
  class Entry {
    const kind: EntryKind
    const parent: Entry?
    const depth: nat
    ghost const parsed: Props
    var props: Props

    constructor (kind: EntryKind, parent: Entry?, props: Props)
      ensures this.kind == kind && this.parent == parent && parsed == props && this.props == props
      ensures depth == if parent == null then 0 else parent.depth + 1
    {
      this.kind, this.parent, this.parsed, this.props := kind, parent, props, props;
      this.depth := if parent == null then 0 else parent.depth + 1;
    }
  }

  /** Sibling entries with what is below them. */
  datatype Forest = Nil | Cons(entry: Entry, kids: Forest, rest: Forest)

  function Entries(f: Forest): set<Entry> {
    match f case Nil => {} case Cons(e, k, r) => {e} + Entries(k) + Entries(r)
  }

  // The entries are all different, and each one knows the entry it is in
  predicate Placed(f: Forest, parent: Entry) {
    match f
    case Nil => true
    case Cons(e, k, r) =>
      && e.parent == parent && e.depth == parent.depth + 1 && (e.kind.SymbolEntry? || e.kind.CommentEntry? ==> k == Nil)
      && Placed(k, e) && Placed(r, parent)
      && e !in Entries(k) && e !in Entries(r) && Entries(k) !! Entries(r)
  }

  predicate HasProperties(e: Entry) { e.kind.SymbolEntry? || e.kind.ChoiceEntry? }

  // ---------- what finalisation makes of an entry ----------

  // The 'visible if's of the menus an entry is in, and of the entry itself
  ghost function VisibleIf(k: Consts, e: Entry): Expr
    decreases e.depth, 1
  {
    var outer := Outer(k, e);
    if e.kind.MenuEntry? then MakeAnd(k, outer, e.parsed.visibility) else outer
  }

  ghost function Outer(k: Consts, e: Entry): Expr
    decreases e.depth, 0
  {
    if e.parent != null && e.parent.depth < e.depth then VisibleIf(k, e.parent) else Atom(Sym(k.y))
  }

  // The dependencies of an entry with those of the entries around it
  ghost function FullDep(k: Consts, e: Entry): Expr
    decreases e.depth, 0
  {
    if e.parent != null && e.parent.depth < e.depth then MakeAnd(k, e.parsed.dep, BaseDep(k, e.parent)) else e.parsed.dep
  }

  // What an entry hands down: a choice stands for its own dependencies
  ghost function BaseDep(k: Consts, e: Entry): Expr
    decreases e.depth, 1
  {
    if e.kind.ChoiceEntry? then Atom(Cho(e.kind.c)) else FullDep(k, e)
  }

  function WithDep(k: Consts, e: Entry, p: Props, visibleIf: Expr, dep: Expr): Props {
    if HasProperties(e) then
      Props(dep,
            if p.prompt.Some? then Some(MakeAnd(k, p.prompt.value, MakeAnd(k, visibleIf, dep))) else None,
            p.visibility,
            seq(|p.defaults|, i requires 0 <= i < |p.defaults| => Default(p.defaults[i].value, MakeAnd(k, p.defaults[i].cond, dep))),
            seq(|p.ranges|, i requires 0 <= i < |p.ranges| =>
              Range(p.ranges[i].low, p.ranges[i].high, MakeAnd(k, p.ranges[i].cond, dep))),
            Conditioned(k, p.selects, dep), Conditioned(k, p.implies, dep))
    else
      p.(dep := dep, prompt := if p.prompt.Some? then Some(MakeAnd(k, p.prompt.value, dep)) else None)
  }

  function Conditioned(k: Consts, ss: seq<Select>, dep: Expr): seq<Select> {
    seq(|ss|, i requires 0 <= i < |ss| => Select(ss[i].target, MakeAnd(k, ss[i].cond, dep)))
  }

  ghost function Final(k: Consts, e: Entry): Props {
    WithDep(k, e, e.parsed, Outer(k, e), FullDep(k, e))
  }

  // ---------- properties copied up to symbols and choices ----------

  /** The properties of a symbol or choice, collected over all its entries. */
  datatype Owned = Owned(
    directDep: Expr, defaults: seq<Default>, ranges: seq<Range>, selects: seq<Select>, implies: seq<Select>,
    revDep: Expr, weakRevDep: Expr)

  type Store = Item -> Owned

  function Put(st: Store, i: Item, o: Owned): Store { x => if x == i then o else st(x) }

  // The targets of selects get the selecting symbol as a reverse dependency
  function Selected(k: Consts, st: Store, s: nat, ss: seq<Select>): Store
    decreases |ss|
  {
    if ss == [] then st
    else
      var st1 := Selected(k, st, s, ss[..|ss| - 1]);
      var x := ss[|ss| - 1];
      var t := st1(Sym(x.target));
      Put(st1, Sym(x.target), t.(revDep := MakeOr(k, t.revDep, MakeAnd(k, Atom(Sym(s)), x.cond))))
  }

  function WeakSelected(k: Consts, st: Store, s: nat, ss: seq<Select>): Store
    decreases |ss|
  {
    if ss == [] then st
    else
      var st1 := WeakSelected(k, st, s, ss[..|ss| - 1]);
      var x := ss[|ss| - 1];
      var t := st1(Sym(x.target));
      Put(st1, Sym(x.target), t.(weakRevDep := MakeOr(k, t.weakRevDep, MakeAnd(k, Atom(Sym(s)), x.cond))))
  }

  function OwnAdded(k: Consts, st: Store, i: Item, p: Props): Store {
    var o := st(i);
    Put(st, i, if i.Sym? then
      o.(directDep := MakeOr(k, o.directDep, p.dep), defaults := o.defaults + p.defaults, ranges := o.ranges + p.ranges,
         selects := o.selects + p.selects, implies := o.implies + p.implies)
    else o.(directDep := MakeOr(k, o.directDep, p.dep), defaults := o.defaults + p.defaults))
  }

  // One entry copied up
  function Added(k: Consts, st: Store, e: Entry, p: Props): Store {
    match e.kind
    case SymbolEntry(s) => WeakSelected(k, Selected(k, OwnAdded(k, st, Sym(s), p), s, p.selects), s, p.implies)
    case ChoiceEntry(c) => OwnAdded(k, st, Cho(c), p)
    case _ => st
  }

  // The order in which entries are copied up: a choice after what is in it
  function Order(f: Forest): seq<Entry>
    decreases f, 0
  {
    match f case Nil => [] case Cons(e, k, r) => OrderOf(e, k) + Order(r)
  }

  function OrderOf(e: Entry, kids: Forest): seq<Entry>
    decreases kids, 1
  {
    if e.kind.SymbolEntry? then [e]
    else Order(kids) + if e.kind.ChoiceEntry? then [e] else []
  }

  ghost function Collected(k: Consts, st: Store, es: seq<Entry>): Store {
    if es == [] then st
    else Added(k, Collected(k, st, es[..|es| - 1]), es[|es| - 1], Final(k, es[|es| - 1]))
  }

  lemma {:induction false} CollectedConcat(k: Consts, st: Store, a: seq<Entry>, b: seq<Entry>)
    ensures Collected(k, st, a + b) == Collected(k, Collected(k, st, a), b)
  {
    if b == [] {
      assert a + b == a;
    } else {
      assert (a + b)[..|a + b| - 1] == a + b[..|b| - 1];
      CollectedConcat(k, st, a, b[..|b| - 1]);
    }
  }

  // ---------- the finalisation ----------

  lemma {:induction false} EntriesAllocated(f: Forest)
    ensures forall e <- Entries(f) :: allocated(e)
  {
    match f case Nil => case Cons(e, k, r) => EntriesAllocated(k); EntriesAllocated(r);
  }

  // The entries of the siblings themselves
  function Level(f: Forest): set<Entry> {
    match f case Nil => {} case Cons(e, _, r) => {e} + Level(r)
  }

  lemma {:induction false} LevelIn(f: Forest)
    ensures Level(f) <= Entries(f)
  {
    match f case Nil => case Cons(_, _, r) => LevelIn(r);
  }

  lemma FinalIn(k: Consts, e: Entry, node: Entry)
    requires e.parent == node && node.depth < e.depth
    ensures Outer(k, e) == VisibleIf(k, node)
    ensures Final(k, e) == WithDep(k, e, e.parsed, VisibleIf(k, node), MakeAnd(k, e.parsed.dep, BaseDep(k, node)))
  {
  }

  lemma CollectedOne(k: Consts, st: Store, es: seq<Entry>, e: Entry)
    ensures Collected(k, st, es + [e]) == Added(k, Collected(k, st, es), e, Final(k, e))
    ensures Collected(k, st, []) == st
  {
    assert (es + [e])[..|es|] == es;
  }

  class Finalizer {
    const k: Consts
    var store: Store

    constructor (k: Consts, store: Store)
      ensures this.k == k && this.store == store
    {
      this.k, this.store := k, store;
    }

    // Hands the dependencies of `node` down to the entries in it
    method PropagateDeps(node: Entry, kids: Forest, visibleIf: Expr)
      requires Placed(kids, node) && node !in Entries(kids)
      requires forall e <- Entries(kids) :: e.props == e.parsed
      requires node.props.dep == FullDep(k, node) && visibleIf == VisibleIf(k, node)
      modifies Entries(kids)
      ensures forall e <- Entries(kids) :: e.props == if e in Level(kids) then Final(k, e) else e.parsed
    {
      var basedep := if node.kind.ChoiceEntry? then Atom(Cho(node.kind.c)) else node.props.dep;
      var cur := kids;
      EntriesAllocated(kids);
      LevelIn(kids);
      while cur.Cons?
        invariant Placed(cur, node) && Level(cur) <= Level(kids)
        invariant forall e <- Entries(kids) ::
                    e.props == if e in Level(kids) - Level(cur) then Final(k, e) else e.parsed
        invariant node.props.dep == FullDep(k, node)
        decreases cur
      {
        LevelIn(cur.rest);
        var e := cur.entry;
        assert e in Level(cur) && e in Entries(kids);
        FinalIn(k, e, node);
        var dep := MakeAnd(k, e.props.dep, basedep);
        e.props := WithDep(k, e, e.props, visibleIf, dep);
        cur := cur.rest;
      }
    }

    /** Finalises an entry and everything in it: every condition gets the dependencies it
        is under, and the properties are copied up once each, in order. */
    method FinalizeNode(node: Entry, kids: Forest, visibleIf: Expr)
      requires Placed(kids, node) && node !in Entries(kids)
      requires node.kind.SymbolEntry? || node.kind.CommentEntry? ==> kids == Nil
      requires node.props == Final(k, node) && visibleIf == Outer(k, node)
      requires forall e <- Entries(kids) :: e.props == e.parsed
      modifies this, Entries(kids)
      ensures forall e <- Entries(kids) :: e.props == Final(k, e)
      ensures store == Collected(k, old(store), OrderOf(node, kids))
      decreases kids, 1
    {
      if node.kind.SymbolEntry? {
        AddPropsToSym(node);
        CollectedOne(k, old(store), [], node);
        assert OrderOf(node, kids) == [] + [node];
      } else if kids.Cons? {
        var visible := if node.kind.MenuEntry? then MakeAnd(k, visibleIf, node.props.visibility) else visibleIf;
        PropagateDeps(node, kids, visible);
        FinalizeKids(node, kids, visible);
      }
      if node.kind.ChoiceEntry? {
        store := OwnAdded(k, store, Cho(node.kind.c), node.props);
        CollectedOne(k, old(store), Order(kids), node);
      } else if !node.kind.SymbolEntry? {
        assert OrderOf(node, kids) == Order(kids);
      }
    }

    method FinalizeKids(node: Entry, kids: Forest, visible: Expr)
      requires Placed(kids, node) && node !in Entries(kids) && visible == VisibleIf(k, node)
      requires forall e <- Entries(kids) :: e.props == if e in Level(kids) then Final(k, e) else e.parsed
      modifies this, Entries(kids)
      ensures forall e <- Entries(kids) :: e.props == Final(k, e)
      ensures store == Collected(k, old(store), Order(kids))
      decreases kids, 0
    {
      hide Final, Collected, WithDep, OrderOf;
      var cur := kids;
      EntriesAllocated(kids);
      while cur.Cons?
        invariant Placed(cur, node) && Entries(cur) <= Entries(kids)
        invariant cur == kids || cur < kids
        invariant forall e <- Entries(kids) ::
                    e.props == if e in Entries(cur) && e !in Level(cur) then e.parsed else Final(k, e)
        invariant Collected(k, store, Order(cur)) == Collected(k, old(store), Order(kids))
        decreases cur
      {
        LevelIn(cur.rest);
        CollectedConcat(k, store, OrderOf(cur.entry, cur.kids), Order(cur.rest));
        FinalizeNode(cur.entry, cur.kids, visible);
        cur := cur.rest;
      }
      CollectedOne(k, store, [], node);
    }

    // The whole tree: the top menu has no dependencies and is in nothing
    method FinalizeTree(top: Entry, kids: Forest)
      requires top.kind.MenuEntry? && top.parent == null && top.props == top.parsed && top.parsed.dep == Atom(Sym(k.y))
      requires Placed(kids, top) && top !in Entries(kids) && forall e <- Entries(kids) :: e.props == e.parsed
      modifies this, Entries(kids)
      ensures forall e <- Entries(kids) :: e.props == Final(k, e)
      ensures store == Collected(k, old(store), Order(kids))
    {
      FinalizeNode(top, kids, Atom(Sym(k.y)));
      assert OrderOf(top, kids) == Order(kids) + [] == Order(kids);
    }

    // Copies the properties of one entry up to its symbol, and up to those it selects
    method AddPropsToSym(node: Entry)
      requires node.kind.SymbolEntry?
      modifies this
      ensures store == Added(k, old(store), node, node.props)
    {
      var s := node.kind.s;
      var p := node.props;
      var o := store(Sym(s));
      store := Put(store, Sym(s),
                   Owned(MakeOr(k, o.directDep, p.dep), o.defaults + p.defaults, o.ranges + p.ranges,
                         o.selects + p.selects, o.implies + p.implies, o.revDep, o.weakRevDep));
      ghost var own := store;
      for i := 0 to |p.selects|
        invariant store == Selected(k, own, s, p.selects[..i])
      {
        var x := p.selects[i];
        var t := store(Sym(x.target));
        store := Put(store, Sym(x.target), t.(revDep := MakeOr(k, t.revDep, MakeAnd(k, Atom(Sym(s)), x.cond))));
        assert p.selects[..i + 1][..i] == p.selects[..i];
      }
      assert p.selects[..|p.selects|] == p.selects;
      ghost var selected := store;
      for i := 0 to |p.implies|
        invariant store == WeakSelected(k, selected, s, p.implies[..i])
      {
        var x := p.implies[i];
        var t := store(Sym(x.target));
        store := Put(store, Sym(x.target), t.(weakRevDep := MakeOr(k, t.weakRevDep, MakeAnd(k, Atom(Sym(s)), x.cond))));
        assert p.implies[..i + 1][..i] == p.implies[..i];
      }
      assert p.implies[..|p.implies|] == p.implies;
    }
  }

  // ---------- what the conditions mean ----------

  // The entries an entry is in, innermost first
  function Around(e: Entry): seq<Entry>
    decreases e.depth
  {
    if e.parent != null && e.parent.depth < e.depth then [e.parent] + Around(e.parent) else []
  }

  // ... out to the innermost choice
  function Scope(e: Entry): seq<Entry>
    decreases e.depth
  {
    if e.parent != null && e.parent.depth < e.depth then
      [e.parent] + if e.parent.kind.ChoiceEntry? then [] else Scope(e.parent)
    else []
  }

  // What an entry limits the entries in it to
  ghost function Limit(x: Entry, a: Assignment): Tri {
    if x.kind.ChoiceEntry? then a.item(Cho(x.kind.c)) else Eval(x.parsed.dep, a)
  }

  // The dependencies of an entry, and those it is under, are at least `v`
  ghost predicate DepsReach(e: Entry, a: Assignment, v: Tri) {
    Eval(e.parsed.dep, a) >= v && forall x <- Scope(e) :: Limit(x, a) >= v
  }

  ghost predicate VisibleReach(e: Entry, a: Assignment, v: Tri) {
    forall x <- Around(e) | x.kind.MenuEntry? :: Eval(x.parsed.visibility, a) >= v
  }

  lemma {:induction false} FullDepReaches(k: Consts, e: Entry, a: Assignment, v: Tri)
    requires k.Ok(a)
    ensures Eval(FullDep(k, e), a) >= v <==> DepsReach(e, a, v)
    decreases e.depth
  {
    if e.parent != null && e.parent.depth < e.depth {
      FullDepReaches(k, e.parent, a, v);
      var rest := if e.parent.kind.ChoiceEntry? then [] else Scope(e.parent);
      assert Scope(e) == [e.parent] + rest;
      assert (forall x <- Scope(e) :: Limit(x, a) >= v) <==> Limit(e.parent, a) >= v && forall x <- rest :: Limit(x, a) >= v;
    }
  }

  lemma {:induction false} OuterReaches(k: Consts, e: Entry, a: Assignment, v: Tri)
    requires k.Ok(a)
    ensures Eval(Outer(k, e), a) >= v <==> VisibleReach(e, a, v)
    decreases e.depth
  {
    if e.parent != null && e.parent.depth < e.depth {
      OuterReaches(k, e.parent, a, v);
      assert Around(e)[0] == e.parent;
      assert forall x <- Around(e) :: x == e.parent || x in Around(e.parent);
    }
  }

  /** The condition of a prompt is the minimum of its own condition, the dependencies of its
      entry and those around it, a choice standing for its own, and all 'visible if's. */
  lemma PromptIsMinimum(k: Consts, e: Entry, a: Assignment, v: Tri)
    requires k.Ok(a) && HasProperties(e) && e.parsed.prompt.Some?
    ensures Eval(Final(k, e).prompt.value, a) >= v <==>
            Eval(e.parsed.prompt.value, a) >= v && DepsReach(e, a, v) && VisibleReach(e, a, v)
  {
    FullDepReaches(k, e, a, v);
    OuterReaches(k, e, a, v);
  }

  // Prompts of menus and comments are not subject to 'visible if'
  lemma OtherPromptIsMinimum(k: Consts, e: Entry, a: Assignment, v: Tri)
    requires k.Ok(a) && !HasProperties(e) && e.parsed.prompt.Some?
    ensures Eval(Final(k, e).prompt.value, a) >= v <==> Eval(e.parsed.prompt.value, a) >= v && DepsReach(e, a, v)
  {
    FullDepReaches(k, e, a, v);
  }

  // Every other condition gets the dependencies only
  lemma ConditionsAreMinima(k: Consts, e: Entry, a: Assignment, v: Tri)
    requires k.Ok(a) && HasProperties(e)
    ensures var (p, q) := (e.parsed, Final(k, e));
            && |q.defaults| == |p.defaults| && |q.ranges| == |p.ranges|
            && |q.selects| == |p.selects| && |q.implies| == |p.implies|
            && (forall i | 0 <= i < |p.defaults| :: q.defaults[i].value == p.defaults[i].value &&
                  (Eval(q.defaults[i].cond, a) >= v <==> Eval(p.defaults[i].cond, a) >= v && DepsReach(e, a, v)))
            && (forall i | 0 <= i < |p.ranges| :: q.ranges[i].low == p.ranges[i].low && q.ranges[i].high == p.ranges[i].high &&
                  (Eval(q.ranges[i].cond, a) >= v <==> Eval(p.ranges[i].cond, a) >= v && DepsReach(e, a, v)))
            && (forall i | 0 <= i < |p.selects| :: q.selects[i].target == p.selects[i].target &&
                  (Eval(q.selects[i].cond, a) >= v <==> Eval(p.selects[i].cond, a) >= v && DepsReach(e, a, v)))
            && (forall i | 0 <= i < |p.implies| :: q.implies[i].target == p.implies[i].target &&
                  (Eval(q.implies[i].cond, a) >= v <==> Eval(p.implies[i].cond, a) >= v && DepsReach(e, a, v)))
  {
    FullDepReaches(k, e, a, v);
  }

  // ---------- what symbols and choices end up with ----------

  // One of the selects reaches `v` at `t`
  predicate Targets(ss: seq<Select>, t: nat, a: Assignment, v: Tri) {
    exists x <- ss :: x.target == t && Eval(x.cond, a) >= v
  }

  lemma TargetsLast(ss: seq<Select>, t: nat, a: Assignment, v: Tri)
    requires ss != []
    ensures var (front, x) := (ss[..|ss| - 1], ss[|ss| - 1]);
            Targets(ss, t, a, v) <==> Targets(front, t, a, v) || (x.target == t && Eval(x.cond, a) >= v)
  {
    var (front, x) := (ss[..|ss| - 1], ss[|ss| - 1]);
    assert forall y :: y in ss <==> y in front || y == x;
  }

  lemma {:induction false} SelectedReaches(k: Consts, st: Store, s: nat, ss: seq<Select>, t: nat, a: Assignment, v: Tri)
    requires k.Ok(a)
    ensures var st1 := Selected(k, st, s, ss);
            && (Eval(st1(Sym(t)).revDep, a) >= v <==>
                  Eval(st(Sym(t)).revDep, a) >= v || (a.item(Sym(s)) >= v && Targets(ss, t, a, v)))
            && forall i :: st1(i) == st(i).(revDep := st1(i).revDep)
  {
    if ss != [] {
      SelectedReaches(k, st, s, ss[..|ss| - 1], t, a, v);
      TargetsLast(ss, t, a, v);
    }
  }

  lemma {:induction false} ImpliedReaches(k: Consts, st: Store, s: nat, ss: seq<Select>, t: nat, a: Assignment, v: Tri)
    requires k.Ok(a)
    ensures var st1 := WeakSelected(k, st, s, ss);
            && (Eval(st1(Sym(t)).weakRevDep, a) >= v <==>
                  Eval(st(Sym(t)).weakRevDep, a) >= v || (a.item(Sym(s)) >= v && Targets(ss, t, a, v)))
            && forall i :: st1(i) == st(i).(weakRevDep := st1(i).weakRevDep)
  {
    if ss != [] {
      ImpliedReaches(k, st, s, ss[..|ss| - 1], t, a, v);
      TargetsLast(ss, t, a, v);
    }
  }

  // The entry is for a symbol, and one of its selects reaches `v` at `t` under all its dependencies
  ghost predicate EntrySelects(e: Entry, t: nat, a: Assignment, v: Tri) {
    e.kind.SymbolEntry? && a.item(Sym(e.kind.s)) >= v && Targets(e.parsed.selects, t, a, v) && DepsReach(e, a, v)
  }

  ghost predicate EntryImplies(e: Entry, t: nat, a: Assignment, v: Tri) {
    e.kind.SymbolEntry? && a.item(Sym(e.kind.s)) >= v && Targets(e.parsed.implies, t, a, v) && DepsReach(e, a, v)
  }

  lemma ConditionedTargets(k: Consts, ss: seq<Select>, e: Entry, t: nat, a: Assignment, v: Tri)
    requires k.Ok(a)
    ensures Targets(Conditioned(k, ss, FullDep(k, e)), t, a, v) <==> Targets(ss, t, a, v) && DepsReach(e, a, v)
  {
    FullDepReaches(k, e, a, v);
    var dep := FullDep(k, e);
    var cs := Conditioned(k, ss, dep);
    hide FullDep, DepsReach;
    if Targets(cs, t, a, v) {
      var i :| 0 <= i < |cs| && cs[i].target == t && Eval(cs[i].cond, a) >= v;
      assert ss[i] in ss && ss[i].target == t && Eval(ss[i].cond, a) >= v;
    }
    if Targets(ss, t, a, v) && Eval(dep, a) >= v {
      var i :| 0 <= i < |ss| && ss[i].target == t && Eval(ss[i].cond, a) >= v;
      assert cs[i] in cs && cs[i].target == t && Eval(cs[i].cond, a) >= v;
    }
  }

  // What copying one entry up does to the reverse dependencies
  lemma AddedReaches(k: Consts, st: Store, e: Entry, t: nat, a: Assignment, v: Tri)
    requires k.Ok(a)
    ensures var st1 := Added(k, st, e, Final(k, e));
            && (Eval(st1(Sym(t)).revDep, a) >= v <==> Eval(st(Sym(t)).revDep, a) >= v || EntrySelects(e, t, a, v))
            && (Eval(st1(Sym(t)).weakRevDep, a) >= v <==> Eval(st(Sym(t)).weakRevDep, a) >= v || EntryImplies(e, t, a, v))
  {
    var p := Final(k, e);
    if e.kind.SymbolEntry? {
      var s := e.kind.s;
      var own := OwnAdded(k, st, Sym(s), p);
      SelectedReaches(k, own, s, p.selects, t, a, v);
      ImpliedReaches(k, Selected(k, own, s, p.selects), s, p.implies, t, a, v);
      ConditionedTargets(k, e.parsed.selects, e, t, a, v);
      ConditionedTargets(k, e.parsed.implies, e, t, a, v);
      hide Selected, WeakSelected, Targets, DepsReach, FullDep, Outer;
    }
  }

  /** The reverse dependency of a symbol is the maximum, over all entries that select it, of
      the minimum of the selecting symbol, the condition of the select and all dependencies
      of the entry. The weak reverse dependency is the same of the implies. */
  lemma {:induction false} RevDepIsMaximum(k: Consts, st: Store, es: seq<Entry>, t: nat, a: Assignment, v: Tri)
    requires k.Ok(a)
    ensures var st1 := Collected(k, st, es);
            && (Eval(st1(Sym(t)).revDep, a) >= v <==>
                  Eval(st(Sym(t)).revDep, a) >= v || exists e <- es :: EntrySelects(e, t, a, v))
            && (Eval(st1(Sym(t)).weakRevDep, a) >= v <==>
                  Eval(st(Sym(t)).weakRevDep, a) >= v || exists e <- es :: EntryImplies(e, t, a, v))
  {
    if es != [] {
      var (front, e) := (es[..|es| - 1], es[|es| - 1]);
      RevDepIsMaximum(k, st, front, t, a, v);
      AddedReaches(k, Collected(k, st, front), e, t, a, v);
      hide Added, EntrySelects, EntryImplies, Final;
      assert es == front + [e];
    }
  }

  // Whose properties an entry has
  predicate EntryOf(e: Entry, i: Item) {
    match e.kind case SymbolEntry(s) => i == Sym(s) case ChoiceEntry(c) => i == Cho(c) case _ => false
  }

  lemma AddedOwn(k: Consts, st: Store, e: Entry, i: Item)
    ensures var (o, o1, p) := (st(i), Added(k, st, e, Final(k, e))(i), Final(k, e));
            if EntryOf(e, i) then
              && o1.directDep == MakeOr(k, o.directDep, p.dep) && o1.defaults == o.defaults + p.defaults
              && (i.Sym? ==> o1.ranges == o.ranges + p.ranges && o1.selects == o.selects + p.selects && o1.implies == o.implies + p.implies)
            else o1 == o.(revDep := o1.revDep, weakRevDep := o1.weakRevDep)
  {
    var p := Final(k, e);
    if e.kind.SymbolEntry? {
      var s := e.kind.s;
      var own := OwnAdded(k, st, Sym(s), p);
      SelectedOthers(k, own, s, p.selects);
      ImpliedOthers(k, Selected(k, own, s, p.selects), s, p.implies);
      hide Selected, WeakSelected, Final;
    }
  }

  lemma {:induction false} SelectedOthers(k: Consts, st: Store, s: nat, ss: seq<Select>)
    ensures forall i :: Selected(k, st, s, ss)(i) == st(i).(revDep := Selected(k, st, s, ss)(i).revDep)
  {
    if ss != [] {
      SelectedOthers(k, st, s, ss[..|ss| - 1]);
    }
  }

  lemma {:induction false} ImpliedOthers(k: Consts, st: Store, s: nat, ss: seq<Select>)
    ensures forall i :: WeakSelected(k, st, s, ss)(i) == st(i).(weakRevDep := WeakSelected(k, st, s, ss)(i).weakRevDep)
  {
    if ss != [] {
      ImpliedOthers(k, st, s, ss[..|ss| - 1]);
    }
  }

  /** The direct dependency is the maximum over the entries of the dependencies they are under. */
  lemma {:induction false} DirectDepIsMaximum(k: Consts, st: Store, es: seq<Entry>, i: Item, a: Assignment, v: Tri)
    requires k.Ok(a)
    ensures Eval(Collected(k, st, es)(i).directDep, a) >= v <==>
            Eval(st(i).directDep, a) >= v || exists e <- es :: EntryOf(e, i) && DepsReach(e, a, v)
  {
    if es != [] {
      var (front, e) := (es[..|es| - 1], es[|es| - 1]);
      DirectDepIsMaximum(k, st, front, i, a, v);
      AddedOwn(k, Collected(k, st, front), e, i);
      FullDepReaches(k, e, a, v);
      assert Final(k, e).dep == FullDep(k, e);
      hide Added, Final, DepsReach, EntryOf, FullDep;
      assert es == front + [e];
    }
  }

  ghost function DefaultsOf(k: Consts, es: seq<Entry>, i: Item): seq<Default> {
    if es == [] then []
    else DefaultsOf(k, es[..|es| - 1], i) + if EntryOf(es[|es| - 1], i) then Final(k, es[|es| - 1]).defaults else []
  }

  ghost function RangesOf(k: Consts, es: seq<Entry>, i: Item): seq<Range> {
    if es == [] then []
    else RangesOf(k, es[..|es| - 1], i) + if EntryOf(es[|es| - 1], i) then Final(k, es[|es| - 1]).ranges else []
  }

  // Defaults and ranges end up behind each other in the order of the entries
  lemma {:induction false} PropertiesInOrder(k: Consts, st: Store, es: seq<Entry>, i: Item)
    ensures Collected(k, st, es)(i).defaults == st(i).defaults + DefaultsOf(k, es, i)
    ensures i.Sym? ==> Collected(k, st, es)(i).ranges == st(i).ranges + RangesOf(k, es, i)
  {
    if es != [] {
      PropertiesInOrder(k, st, es[..|es| - 1], i);
      AddedOwn(k, Collected(k, st, es[..|es| - 1]), es[|es| - 1], i);
      hide Added, Final, EntryOf;
    }
  }

  function Propertied(f: Forest): set<Entry> {
    match f case Nil => {} case Cons(e, k, r) => (if HasProperties(e) then {e} else {}) + Propertied(k) + Propertied(r)
  }

  // Every entry of a symbol or choice is copied up exactly once
  lemma {:induction false} CopiedOnce(f: Forest, parent: Entry)
    requires Placed(f, parent)
    ensures NoDup(Order(f)) && Members(Order(f)) == Propertied(f) && Propertied(f) <= Entries(f)
  {
    match f
    case Nil =>
    case Cons(e, k, r) =>
      CopiedOnce(k, e);
      CopiedOnce(r, parent);
      var own := if HasProperties(e) then [e] else [];
      assert Members(own) == (if HasProperties(e) then {e} else {}) && NoDup(own);
      NoDupConcat(Order(k), own);
      assert OrderOf(e, k) == Order(k) + own;
      NoDupConcat(OrderOf(e, k), Order(r));
  }

  // The entries as they stand in the file: an entry, what is in it, what comes after it
  function FileOrder(f: Forest): seq<Entry> {
    match f case Nil => [] case Cons(e, k, r) => [e] + FileOrder(k) + FileOrder(r)
  }

  function OnlySyms(s: seq<Entry>): seq<Entry> {
    if s == [] then [] else (if s[0].kind.SymbolEntry? then [s[0]] else []) + OnlySyms(s[1..])
  }

  lemma {:induction false} OnlySymsConcat(a: seq<Entry>, b: seq<Entry>)
    ensures OnlySyms(a + b) == OnlySyms(a) + OnlySyms(b)
  {
    if a == [] {
      assert a + b == b;
    } else {
      assert (a + b)[1..] == a[1..] + b && (a + b)[0] == a[0];
      OnlySymsConcat(a[1..], b);
      EntriesRegroup(if a[0].kind.SymbolEntry? then [a[0]] else [], OnlySyms(a[1..]), OnlySyms(b));
    }
  }

  lemma EntriesRegroup(x: seq<Entry>, y: seq<Entry>, z: seq<Entry>)
    ensures x + (y + z) == x + y + z
  {
  }

  lemma OnlySymsOf(e: Entry)
    ensures OnlySyms([e]) == if e.kind.SymbolEntry? then [e] else []
  {
    assert [e][1..] == [];
  }

  /** The entries of symbols are copied up in the order of the file. */
  lemma {:induction false} SymbolsInFileOrder(f: Forest, parent: Entry)
    requires Placed(f, parent)
    ensures OnlySyms(Order(f)) == OnlySyms(FileOrder(f))
  {
    match f
    case Nil =>
    case Cons(e, k, r) =>
      SymbolsInFileOrder(k, e);
      SymbolsInFileOrder(r, parent);
      OnlySymsOf(e);
      var own := if e.kind.ChoiceEntry? then [e] else [];
      OnlySymsConcat(OrderOf(e, k), Order(r));
      OnlySymsConcat(Order(k), own);
      OnlySymsConcat([e] + FileOrder(k), FileOrder(r));
      OnlySymsConcat([e], FileOrder(k));
      hide OnlySyms;
      assert e.kind.SymbolEntry? ==> OrderOf(e, k) == [e] && FileOrder(k) == [];
      assert [] + OnlySyms(FileOrder(k)) == OnlySyms(FileOrder(k)) && OnlySyms(Order(k)) + [] == OnlySyms(Order(k));
  }

  // ---------- what the evaluator relies on ----------

  /** A prompt of a symbol never exceeds the direct dependencies of the symbol. */
  lemma PromptUnderDirectDep(k: Consts, st: Store, es: seq<Entry>, e: Entry, i: Item, a: Assignment)
    requires k.Ok(a) && e in es && EntryOf(e, i) && e.parsed.prompt.Some?
    ensures Eval(Final(k, e).prompt.value, a) <= Eval(Collected(k, st, es)(i).directDep, a)
  {
    var v := Eval(Final(k, e).prompt.value, a);
    PromptIsMinimum(k, e, a, v);
    DirectDepIsMaximum(k, st, es, i, a, v);
  }

  // The innermost choice an entry is in
  predicate InChoice(e: Entry, c: nat) { Scope(e) != [] && Scope(e)[|Scope(e)| - 1].kind == ChoiceEntry(c) }

  lemma {:induction false} DepLimited(k: Consts, e: Entry, c: nat)
    requires InChoice(e, c) && k.n != k.y
    ensures LimitedBy(FullDep(k, e), c, k.n)
    decreases e.depth
  {
    var rest := if e.parent.kind.ChoiceEntry? then [] else Scope(e.parent);
    assert Scope(e) == [e.parent] + rest;
    if e.parent.kind.ChoiceEntry? {
      assert BaseDep(k, e.parent) == Atom(Cho(c));
    } else {
      assert rest != [] && Scope(e)[|Scope(e)| - 1] == rest[|rest| - 1];
      DepLimited(k, e.parent, c);
    }
    AndLimited(k, e.parsed.dep, BaseDep(k, e.parent), c);
  }

  lemma AndLimited(k: Consts, e1: Expr, e2: Expr, c: nat)
    requires LimitedBy(e2, c, k.n) && k.n != k.y
    ensures LimitedBy(MakeAnd(k, e1, e2), c, k.n)
  {
  }

  /** The prompts of the symbols in a choice are limited by the choice. */
  lemma PromptLimited(k: Consts, e: Entry, c: nat)
    requires InChoice(e, c) && HasProperties(e) && e.parsed.prompt.Some? && k.n != k.y
    ensures LimitedBy(Final(k, e).prompt.value, c, k.n)
  {
    DepLimited(k, e, c);
  }
}
