/** When a depth-first search for dependency loops begins and ends the visits of items, and
    which edges it leaves out: the one back to the choice through which it came to a symbol,
    and the one back to the symbol through which it came to a choice. */
module SearchTimes {
  import opened Expressions
  import opened Wrappers
  import opened Values
  import opened Evaluation
  import opened Dependencies
  import opened Engine

  /** The times at which visits began and ended. `via` are the items that the search came to
      from a choice they are in, or from a symbol in them, and that it does not follow back. */
  datatype Times = Times(clock: nat, start: map<Item, nat>, fin: map<Item, nat>, via: map<Item, Item>)

  predicate Before(t: Times, x: Item, at: nat) { x in t.fin && t.fin[x] < at }

  predicate Came(t: Times, x: Item, from: Item) { x in t.via && t.via[x] == from }

  // Everything that depends on a visited symbol has been visited within its visit or before
  ghost predicate SymTimes(k: Kconf, t: Times, s: nat)
    requires Sym(s) in t.fin
  {
    && (forall a | PropertyDep(k, a, Sym(s)) :: Before(t, a, t.fin[Sym(s)]))
    && (k.SymAt(s).choice.Some? ==> Sym(s) in t.via || Before(t, Cho(k.SymAt(s).choice.value), t.fin[Sym(s)]))
  }

  predicate ChoTimes(k: Kconf, t: Times, c: nat)
    requires Cho(c) in t.fin
  {
    forall m <- k.ChoiceAt(c).syms :: Came(t, Cho(c), Sym(m)) || Before(t, Sym(m), t.fin[Cho(c)])
  }

  // `z` was being visited when the visit of `p` began
  predicate Outlasts(t: Times, z: Item, p: Item) {
    z in t.start && p in t.start && t.start[z] < t.start[p] && (z in t.fin ==> p in t.fin && t.fin[p] < t.fin[z])
  }

  // The symbols listed before `s` had been visited before `s`
  predicate InTurn(k: Kconf, t: Times, s: nat, c: nat)
    requires Sym(s) in t.start
  {
    var syms := k.ChoiceAt(c).syms;
    exists j :: 0 <= j < |syms| && syms[j] == s && PriorDone(k, t, c, j, t.start[Sym(s)])
  }

  predicate PriorDone(k: Kconf, t: Times, c: nat, j: nat, at: nat)
    requires j <= |k.ChoiceAt(c).syms|
  {
    forall m <- k.ChoiceAt(c).syms[..j] :: Before(t, Sym(m), at) || Came(t, Cho(c), Sym(m))
  }

  // What came right before the visit of `x` from `p`
  ghost predicate ViaOk(k: Kconf, t: Times, x: Item, p: Item)
    requires x in t.start
  {
    match (x, p)
    case (Sym(s), Cho(c)) => InTurn(k, t, s, c)
    case (Cho(c), Sym(s)) => k.SymAt(s).choice == Some(c) && forall a | PropertyDep(k, a, p) :: Before(t, a, t.start[x])
    case _ => false
  }

  // `x` was visited straight from `p`, the innermost item being visited
  predicate Straight(t: Times, x: Item, p: Item)
    requires x in t.start
  {
    && p in t.start && t.start[p] < t.start[x]
    && (p in t.fin ==> x in t.fin && t.fin[x] < t.fin[p])
    && forall z <- t.start | t.start[z] < t.start[x] :: Before(t, z, t.start[x]) || z == p || Outlasts(t, z, p)
  }

  ghost predicate ItemTimes(k: Kconf, t: Times, x: Item)
    requires x in t.fin
  {
    match x case Sym(s) => SymTimes(k, t, s) case Cho(c) => ChoTimes(k, t, c)
  }

  // The visits of the items of `stack` are under way, the innermost one last
  predicate Nested(t: Times, stack: seq<Item>) {
    && (forall x <- t.start :: t.start[x] < t.clock && (x in t.fin || x in stack))
    && (forall x <- t.fin :: x in t.start && t.start[x] < t.fin[x] < t.clock)
    && (forall x <- stack :: x in t.start && x !in t.fin)
    && (forall i, j | 0 <= i < j < |stack| :: t.start[stack[i]] < t.start[stack[j]])
  }

  ghost predicate Timed(k: Kconf, t: Times, stack: seq<Item>) {
    && Nested(t, stack)
    && (forall x <- t.fin :: ItemTimes(k, t, x))
    && (forall x <- t.via :: x in t.start && Straight(t, x, t.via[x]) && ViaOk(k, t, x, t.via[x]))
  }

  lemma ViaStarted(k: Kconf, t: Times, stack: seq<Item>)
    requires Timed(k, t, stack)
    ensures forall x <- t.via :: x in t.start
  {
    hide Nested, ItemTimes, Straight, ViaOk;
  }

  function Begin(t: Times, x: Item, from: Option<Item>): Times {
    Times(t.clock + 1, t.start[x := t.clock], t.fin, match from case Some(p) => t.via[x := p] case None => t.via)
  }

  function End(t: Times, x: Item): Times { Times(t.clock + 1, t.start, t.fin[x := t.clock], t.via) }

  // What the search has made sure of when it goes from `p` to `x`
  ghost predicate MayCome(k: Kconf, t: Times, x: Item, p: Item) {
    match (x, p)
    case (Sym(s), Cho(c)) => exists j :: 0 <= j < |k.ChoiceAt(c).syms| && k.ChoiceAt(c).syms[j] == s && PriorDone(k, t, c, j, t.clock)
    case (Cho(c), Sym(s)) => k.SymAt(s).choice == Some(c) && forall a | PropertyDep(k, a, p) :: Before(t, a, t.clock)
    case _ => false
  }

  lemma BeginNested(k: Kconf, t: Times, stack: seq<Item>, x: Item, from: Option<Item>)
    requires Nested(t, stack) && x !in t.start
    ensures Nested(Begin(t, x, from), stack + [x])
  {
  }

  lemma BeginItem(k: Kconf, t: Times, x: Item, from: Option<Item>, y: Item)
    requires x !in t.via && y in t.fin && ItemTimes(k, t, y)
    ensures ItemTimes(k, Begin(t, x, from), y)
  {
    hide PropertyDep;
  }

  lemma BeginStraight(t: Times, x: Item, from: Option<Item>, y: Item, p: Item)
    requires x !in t.start && (forall z <- t.start :: t.start[z] < t.clock) && y in t.start && Straight(t, y, p)
    ensures Straight(Begin(t, x, from), y, p)
  {
  }

  lemma BeginKeeps(k: Kconf, t: Times, stack: seq<Item>, x: Item, from: Option<Item>)
    requires Timed(k, t, stack) && x !in t.start
    requires from.Some? ==> stack != [] && from.value == stack[|stack| - 1] && MayCome(k, t, x, from.value)
    ensures Timed(k, Begin(t, x, from), stack + [x])
  {
    var t1 := Begin(t, x, from);
    BeginNested(k, t, stack, x, from);
    assert x !in t.fin && x !in t.via;
    hide PropertyDep, ItemTimes, Straight, ViaOk, MayCome;
    forall y <- t1.fin ensures ItemTimes(k, t1, y) {
      BeginItem(k, t, x, from, y);
    }
    forall y <- t1.via ensures Straight(t1, y, t1.via[y]) && ViaOk(k, t1, y, t1.via[y]) {
      if y == x {
        BeginVia(k, t, stack, x, from.value);
      } else {
        BeginStraight(t, x, from, y, t.via[y]);
        BeginViaOk(k, t, x, from, y);
      }
    }
  }

  lemma BeginViaOk(k: Kconf, t: Times, x: Item, from: Option<Item>, y: Item)
    requires x !in t.start && x !in t.via && y in t.via && y in t.start && ViaOk(k, t, y, t.via[y])
    ensures ViaOk(k, Begin(t, x, from), y, t.via[y])
  {
    hide PropertyDep;
    var t1 := Begin(t, x, from);
    var p := t.via[y];
    if y.Sym? && p.Cho? {
      var syms := k.ChoiceAt(p.c).syms;
      var j :| 0 <= j < |syms| && syms[j] == y.s && PriorDone(k, t, p.c, j, t.start[y]);
      assert PriorDone(k, t1, p.c, j, t1.start[y]);
    }
  }

  lemma BeginVia(k: Kconf, t: Times, stack: seq<Item>, x: Item, p: Item)
    requires Nested(t, stack) && x !in t.start && x !in t.via
    requires stack != [] && p == stack[|stack| - 1] && MayCome(k, t, x, p)
    ensures var t1 := Begin(t, x, Some(p)); Straight(t1, x, p) && ViaOk(k, t1, x, p)
  {
    hide PropertyDep;
    var t1 := Begin(t, x, Some(p));
    forall z <- t1.start | t1.start[z] < t1.start[x] ensures Before(t1, z, t1.start[x]) || z == p || Outlasts(t1, z, p) {
      if z !in t.fin && z != p {
        var i :| 0 <= i < |stack| && stack[i] == z;
        assert t.start[stack[i]] < t.start[stack[|stack| - 1]];
      }
    }
    if x.Sym? && p.Cho? {
      var syms := k.ChoiceAt(p.c).syms;
      var j :| 0 <= j < |syms| && syms[j] == x.s && PriorDone(k, t, p.c, j, t.clock);
      assert PriorDone(k, t1, p.c, j, t1.start[x]);
    }
  }

  // What the search has made sure of when it ends the visit of `x`
  ghost predicate MayEnd(k: Kconf, t: Times, x: Item) {
    match x
    case Sym(s) =>
      && (forall a | PropertyDep(k, a, x) :: a in t.fin)
      && (k.SymAt(s).choice.Some? ==> x in t.via || Cho(k.SymAt(s).choice.value) in t.fin)
    case Cho(c) => forall m <- k.ChoiceAt(c).syms :: Came(t, x, Sym(m)) || Sym(m) in t.fin
  }

  lemma EndKeeps(k: Kconf, t: Times, stack: seq<Item>, x: Item)
    requires Timed(k, t, stack + [x]) && x !in stack && MayEnd(k, t, x)
    ensures Timed(k, End(t, x), stack)
  {
    var t1 := End(t, x);
    EndNested(t, stack, x);
    assert x in stack + [x];
    assert x !in t.fin;
    hide PropertyDep, ItemTimes, Straight, ViaOk, MayEnd, Nested;
    forall y <- t1.fin ensures ItemTimes(k, t1, y) {
      EndItem(k, t, x, y);
    }
    forall y <- t1.via ensures y in t1.start && Straight(t1, y, t1.via[y]) && ViaOk(k, t1, y, t1.via[y]) {
      EndStraight(t, stack, x, y, t.via[y]);
      EndViaOk(k, t, x, y);
    }
  }

  lemma EndNested(t: Times, stack: seq<Item>, x: Item)
    requires Nested(t, stack + [x]) && x !in stack
    ensures Nested(End(t, x), stack)
  {
    var all := stack + [x];
    assert forall y :: y in all <==> y in stack || y == x;
    forall i, j | 0 <= i < j < |stack| ensures t.start[stack[i]] < t.start[stack[j]] {
      assert all[i] == stack[i] && all[j] == stack[j];
    }
  }

  lemma EndItem(k: Kconf, t: Times, x: Item, y: Item)
    requires (forall z <- t.fin :: t.fin[z] < t.clock) && x !in t.fin
    requires if y == x then MayEnd(k, t, x) else y in t.fin && ItemTimes(k, t, y)
    ensures ItemTimes(k, End(t, x), y)
  {
    hide PropertyDep;
  }

  lemma EndViaOk(k: Kconf, t: Times, x: Item, y: Item)
    requires x !in t.fin && y in t.via && y in t.start && ViaOk(k, t, y, t.via[y])
    ensures ViaOk(k, End(t, x), y, t.via[y])
  {
    hide PropertyDep;
    var t1 := End(t, x);
    var p := t.via[y];
    if y.Sym? && p.Cho? {
      var syms := k.ChoiceAt(p.c).syms;
      var j :| 0 <= j < |syms| && syms[j] == y.s && PriorDone(k, t, p.c, j, t.start[y]);
      assert PriorDone(k, t1, p.c, j, t1.start[y]);
    }
  }

  lemma EndStraight(t: Times, stack: seq<Item>, x: Item, y: Item, p: Item)
    requires Nested(t, stack + [x]) && x !in t.fin && y in t.start && Straight(t, y, p)
    ensures Straight(End(t, x), y, p)
  {
    var t1 := End(t, x);
    var all := stack + [x];
    // whatever is still being visited began no later than `x`
    forall z <- t.start | z !in t.fin ensures z == x || t.start[z] < t.start[x] {
      var i :| 0 <= i < |all| && all[i] == z;
      if i < |stack| {
        assert t.start[all[i]] < t.start[all[|stack|]];
      }
    }
    if p == x {
      assert y in t.fin;
    }
    forall z <- t1.start | t1.start[z] < t1.start[y] ensures Before(t1, z, t1.start[y]) || z == p || Outlasts(t1, z, p) {
      assert Before(t, z, t.start[y]) || z == p || Outlasts(t, z, p);
    }
  }
}
