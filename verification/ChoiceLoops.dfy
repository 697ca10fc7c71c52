/** Which dependency loops the search can miss when there are choices: only such in which a
    symbol of a choice depends, other than through the choice, on one listed after it. */
module ChoiceLoops {
  import opened Expressions
  import opened Wrappers
  import opened Values
  import opened Evaluation
  import opened Dependencies
  import opened Engine
  import opened Sequences
  import opened SearchTimes
  import opened DependencyLoops

  // A symbol is in one choice only
  ghost predicate OneChoice(k: Kconf) { forall c: nat, s <- k.ChoiceAt(c).syms :: k.SymAt(s).choice == Some(c) }

  /** What the finalisation of choices guarantees: a symbol is in one choice only, and what
      depends on a choice is one of its symbols or leads to one, as in an implicit submenu. */
  ghost predicate ChoicesTidy(k: Kconf) {
    OneChoice(k) && forall a, c | PropertyDep(k, a, Cho(c)) :: Inside(k, a, c)
  }

  ghost predicate Inside(k: Kconf, a: Item, c: nat) { exists path :: LeadsIn(k, a, c, path) }

  // `a` depends on a symbol of the choice through symbols in between, or is one itself
  predicate LeadsIn(k: Kconf, a: Item, c: nat, path: seq<Item>) {
    && path != [] && path[0] == a && PropertyChain(k, path) && path[|path| - 1].s in k.ChoiceAt(c).syms
  }

  predicate PropertyChain(k: Kconf, path: seq<Item>) {
    && (forall i <- path :: i.Sym?)
    && (forall j | 0 < j < |path| :: PropertyDep(k, path[j - 1], path[j]))
  }

  /** `path` leads from a symbol of choice `c` along dependencies to one listed after it,
      past the choice. */
  predicate LeadsOn(k: Kconf, c: nat, path: seq<Item>) {
    && path != [] && Chain(k, path) && Cho(c) !in path
    && ListedBefore(k, c, path[0], path[|path| - 1])
  }

  predicate ListedBefore(k: Kconf, c: nat, a: Item, b: Item) {
    var syms := k.ChoiceAt(c).syms;
    exists i, j :: 0 <= i < j < |syms| && Sym(syms[i]) == a && Sym(syms[j]) == b && a != b
  }

  ghost predicate SomeLeadsOn(k: Kconf) { exists c, path :: LeadsOn(k, c, path) }

  /** The search came to the first symbol of the path from the choice, and not to the choice
      from the last one. */
  predicate Hides(k: Kconf, t: Times, c: nat, path: seq<Item>) {
    LeadsOn(k, c, path) && Came(t, path[0], Cho(c)) && !Came(t, Cho(c), path[|path| - 1])
  }

  ghost predicate SomeHides(k: Kconf, t: Times) { exists c, path :: Hides(k, t, c, path) }

  // ---------- edges the search has followed, and those it has not ----------

  // A symbol the search came to by such an edge was come to from its choice
  lemma CameToSymbol(k: Kconf, t: Times, s: nat, p: Item)
    requires Timed(k, t, []) && ChoicesTidy(k) && Came(t, Sym(s), p)
    ensures p.Cho? && k.SymAt(s).choice == Some(p.c)
  {
    assert ViaOk(k, t, Sym(s), p);
    hide PropertyDep, Timed, PriorDone;
    assert InTurn(k, t, s, p.c);
    assert s in k.ChoiceAt(p.c).syms;
  }

  lemma CameVisited(k: Kconf, t: Times, x: Item, p: Item)
    requires Timed(k, t, []) && Came(t, x, p)
    ensures p in t.fin
  {
    assert Straight(t, x, p);
  }

  // `y` depends on `x`: either its visit ended first, or it is where the search came from to `x`
  lemma EdgeTimes(k: Kconf, t: Times, x: Item, y: Item)
    requires Timed(k, t, []) && ChoicesTidy(k) && DependsOn(k, y, x) && x in t.fin
    ensures Before(t, y, t.fin[x]) || Came(t, x, y)
  {
    assert ItemTimes(k, t, x);
    match x
    case Sym(s) =>
      if !PropertyDep(k, y, x) && x in t.via {
        CameToSymbol(k, t, s, t.via[x]);
      }
      hide PropertyDep, Timed, ChoicesTidy;
    case Cho(c) =>
      var path := InChoice(k, y, c);
      if |path| > 1 {
        InsideTimes(k, t, y, c, path);
      }
      hide PropertyDep, Timed, ChoicesTidy;
  }

  // Along dependencies of symbols visits end earlier and earlier
  lemma {:induction false} ChainTimes(k: Kconf, t: Times, path: seq<Item>)
    requires Timed(k, t, []) && path != [] && PropertyChain(k, path) && path[|path| - 1] in t.fin
    ensures path[0] in t.fin && t.fin[path[0]] <= t.fin[path[|path| - 1]]
    ensures |path| > 1 ==> t.fin[path[0]] < t.fin[path[|path| - 1]]
  {
    hide PropertyDep;
    if |path| > 1 {
      ChainTail(k, path);
      ChainTimes(k, t, path[1..]);
      assert ItemTimes(k, t, path[1]);
    }
  }

  lemma ChainTail(k: Kconf, path: seq<Item>)
    requires |path| > 1 && PropertyChain(k, path)
    ensures PropertyChain(k, path[1..]) && PropertyChain(k, path[..|path| - 1])
    ensures PropertyDep(k, path[0], path[1]) && PropertyDep(k, path[|path| - 2], path[|path| - 1])
  {
    hide PropertyDep;
    var rest := path[1..];
    forall j | 0 < j < |rest| ensures PropertyDep(k, rest[j - 1], rest[j]) {
      assert rest[j - 1] == path[j] && rest[j] == path[j + 1];
    }
  }

  // What leads to a symbol from which the search came to the choice was done before the choice began
  lemma LedBefore(k: Kconf, t: Times, c: nat, path: seq<Item>)
    requires Timed(k, t, []) && |path| > 1 && PropertyChain(k, path) && Came(t, Cho(c), path[|path| - 1])
    ensures Cho(c) in t.start && Before(t, path[0], t.start[Cho(c)])
  {
    hide PropertyDep;
    assert ViaOk(k, t, Cho(c), path[|path| - 1]);
    ChainTail(k, path);
    var front := path[..|path| - 1];
    assert front[|front| - 1] == path[|path| - 2];
    ChainTimes(k, t, front);
  }

  // What leads to a symbol of a choice is done before the choice
  lemma InsideTimes(k: Kconf, t: Times, y: Item, c: nat, path: seq<Item>)
    requires Timed(k, t, []) && Cho(c) in t.fin && LeadsIn(k, y, c, path) && |path| > 1
    ensures Before(t, y, t.fin[Cho(c)])
  {
    hide PropertyDep;
    var m := path[|path| - 1];
    assert ItemTimes(k, t, Cho(c));
    if Came(t, Cho(c), m) {
      LedBefore(k, t, c, path);
    } else {
      assert Before(t, Sym(m.s), t.fin[Cho(c)]);
      ChainTimes(k, t, path);
    }
  }

  // ---------- around a loop ----------

  lemma {:induction false} LastVisited(t: Times, loop: seq<Item>) returns (i: nat)
    requires loop != [] && forall x <- loop :: x in t.fin
    ensures i < |loop| && forall x <- loop :: t.fin[x] <= t.fin[loop[i]]
  {
    if |loop| == 1 {
      i := 0;
    } else {
      var front := loop[..|loop| - 1];
      assert loop == front + [loop[|loop| - 1]];
      i := LastVisited(t, front);
      if t.fin[loop[i]] < t.fin[loop[|loop| - 1]] {
        i := |loop| - 1;
      }
    }
  }

  // A loop may begin anywhere
  lemma Rotated(k: Kconf, loop: seq<Item>, i: nat)
    requires IsLoop(k, loop) && i < |loop|
    ensures var turned := loop[i..] + loop[..i];
            IsLoop(k, turned) && turned[0] == loop[i] && forall x :: x in turned <==> x in loop
  {
    hide DependsOn, PropertyDep;
    var turned := loop[i..] + loop[..i];
    forall j | 0 < j < |turned| ensures DependsOn(k, turned[j - 1], turned[j]) {
      if j == |loop| - i {
        assert turned[j - 1] == loop[|loop| - 1] && turned[j] == loop[0];
      } else if j < |loop| - i {
        assert turned[j - 1] == loop[i + j - 1] && turned[j] == loop[i + j];
      } else {
        assert turned[j - 1] == loop[i + j - |loop| - 1] && turned[j] == loop[i + j - |loop|];
      }
    }
    assert i > 0 ==> turned[|turned| - 1] == loop[i - 1];
    assert loop == loop[..i] + loop[i..];
  }

  /** Along a path of dependencies, its last item done by `at` and its first one not, some
      item was done by then that depends on one still being visited, straight from which the
      search had come to it. */
  lemma {:induction false} Crossing(k: Kconf, t: Times, path: seq<Item>, at: nat) returns (y: Item, x: Item)
    requires Timed(k, t, []) && ChoicesTidy(k) && path != [] && Chain(k, path) && forall z <- path :: z in t.fin
    requires Before(t, path[|path| - 1], at) && !Before(t, path[0], at)
    ensures y in path && x in path && Before(t, x, at) && !Before(t, y, at) && Came(t, x, y)
  {
    hide DependsOn, Timed, ChoicesTidy;
    if Before(t, path[1], at) {
      y, x := path[0], path[1];
      assert DependsOn(k, path[0], path[1]);
      EdgeTimes(k, t, x, y);
    } else {
      var rest := path[1..];
      forall j | 0 < j < |rest| ensures DependsOn(k, rest[j - 1], rest[j]) {
        assert rest[j - 1] == path[j] && rest[j] == path[j + 1];
      }
      y, x := Crossing(k, t, rest, at);
    }
  }

  /** Nothing on a path of dependencies that avoids `p` is done by the time the search comes
      from `p` to `u`, if `p` outlasts everything on the path and the path begins with `u`. */
  lemma NotYet(k: Kconf, t: Times, p: Item, path: seq<Item>)
    requires Timed(k, t, []) && ChoicesTidy(k) && path != [] && Chain(k, path) && forall z <- path :: z in t.fin
    requires Came(t, path[0], p) && p in t.fin && p !in path && forall z <- path :: t.fin[z] <= t.fin[p]
    ensures path[0] in t.start && !Before(t, path[|path| - 1], t.start[path[0]])
  {
    var u := path[0];
    assert Straight(t, u, p) && t.start[u] < t.fin[u];
    if Before(t, path[|path| - 1], t.start[u]) {
      var y, x := Crossing(k, t, path, t.start[u]);
      NotBetween(k, t, p, u, y, x);
    }
  }

  // What the search was inside of when it came from `p` to `u` is `p` or outlasts it
  lemma NotBetween(k: Kconf, t: Times, p: Item, u: Item, y: Item, x: Item)
    requires Timed(k, t, []) && Came(t, u, p) && Came(t, x, y) && u in t.start && Before(t, x, t.start[u])
    requires y in t.fin && p in t.fin && y != p && t.fin[y] <= t.fin[p]
    ensures Before(t, y, t.start[u])
  {
    assert Straight(t, u, p) && Straight(t, x, y);
    hide ItemTimes, ViaOk;
  }

  // ---------- what silence excludes ----------

  function Next(loop: seq<Item>, j: nat): nat { if j + 1 < |loop| then j + 1 else 0 }

  // A symbol that depends on something has a definition, and so has been visited
  lemma SymVisited(k: Kconf, t: Times, x: Item, next: Item)
    requires Static(k) && DependsOn(k, x, next) && x.Sym?
    requires forall s | 0 <= s < |k.syms| && k.SymAt(s).defined :: Sym(s) in t.fin
    ensures x in t.fin
  {
    if next.Cho? && next.c < |k.choices| {
      assert ChoiceOk(k, next.c);
    }
  }

  lemma ChoVisited(k: Kconf, t: Times, c: nat, s: nat)
    requires Timed(k, t, []) && ChoicesTidy(k) && DependsOn(k, Cho(c), Sym(s)) && Sym(s) in t.fin
    ensures Cho(c) in t.fin
  {
    EdgeTimes(k, t, Sym(s), Cho(c));
    if Came(t, Sym(s), Cho(c)) {
      CameVisited(k, t, Sym(s), Cho(c));
    }
  }

  // Everything in a loop has been visited
  lemma LoopVisited(k: Kconf, t: Times, loop: seq<Item>)
    requires Static(k) && Timed(k, t, []) && ChoicesTidy(k) && IsLoop(k, loop)
    requires forall s | 0 <= s < |k.syms| && k.SymAt(s).defined :: Sym(s) in t.fin
    ensures forall x <- loop :: x in t.fin
  {
    hide Static, Timed;
    forall j | 0 <= j < |loop| ensures loop[j] in t.fin {
      var n := Next(loop, j);
      assert DependsOn(k, loop[j], loop[n]) && DependsOn(k, loop[n], loop[Next(loop, n)]);
      if loop[j].Sym? {
        SymVisited(k, t, loop[j], loop[n]);
      } else {
        SymVisited(k, t, loop[n], loop[Next(loop, n)]);
        ChoVisited(k, t, loop[j].c, loop[n].s);
      }
    }
  }

  /** What comes behind `s`, come to from the choice `c`, leads to a symbol of the choice
      only if that is listed after `s`. */
  lemma ListedLater(k: Kconf, t: Times, c: nat, s: nat, w: Item, path: seq<Item>)
    requires Timed(k, t, []) && Came(t, Sym(s), Cho(c)) && Cho(c) in t.fin && LeadsIn(k, w, c, path)
    requires w in t.fin && t.fin[w] <= t.fin[Cho(c)] && Sym(s) in t.start && !Before(t, w, t.start[Sym(s)])
    requires path[|path| - 1] != Sym(s)
    ensures ListedBefore(k, c, Sym(s), path[|path| - 1]) && !Came(t, Cho(c), path[|path| - 1])
  {
    hide Timed, Came, PropertyChain, Before;
    LeadsToSym(k, w, c, path);
    var (syms, m) := (k.ChoiceAt(c).syms, path[|path| - 1].s);
    var j := EnteredAt(k, t, c, s);
    var i :| 0 <= i < |syms| && syms[i] == m;
    NotFromLast(k, t, c, s, w, path);
    if i < j {
      assert syms[i] in syms[..j];
      NotPrior(k, t, c, m, t.start[Sym(s)], w, path);
    }
  }

  lemma LeadsToSym(k: Kconf, w: Item, c: nat, path: seq<Item>)
    requires LeadsIn(k, w, c, path)
    ensures path != [] && path[|path| - 1].Sym? && path[|path| - 1] == Sym(path[|path| - 1].s)
  {
    hide PropertyDep;
  }

  // The place at which a symbol was entered from its choice
  lemma EnteredAt(k: Kconf, t: Times, c: nat, s: nat) returns (j: nat)
    requires Timed(k, t, []) && Came(t, Sym(s), Cho(c)) && Cho(c) in t.fin && Sym(s) in t.start
    ensures j < |k.ChoiceAt(c).syms| && k.ChoiceAt(c).syms[j] == s && PriorDone(k, t, c, j, t.start[Sym(s)])
  {
    assert ViaOk(k, t, Sym(s), Cho(c));
    hide Timed, PropertyDep;
    j :| 0 <= j < |k.ChoiceAt(c).syms| && k.ChoiceAt(c).syms[j] == s && PriorDone(k, t, c, j, t.start[Sym(s)]);
  }

  lemma NotPrior(k: Kconf, t: Times, c: nat, m: nat, at: nat, w: Item, path: seq<Item>)
    requires Timed(k, t, []) && LeadsIn(k, w, c, path) && path[|path| - 1] == Sym(m) && !Before(t, w, at)
    ensures !Before(t, Sym(m), at)
  {
    if Before(t, Sym(m), at) {
      ChainTimes(k, t, path);
    }
  }

  lemma NotFromLast(k: Kconf, t: Times, c: nat, s: nat, w: Item, path: seq<Item>)
    requires Timed(k, t, []) && Came(t, Sym(s), Cho(c)) && Cho(c) in t.fin && LeadsIn(k, w, c, path)
    requires w in t.fin && t.fin[w] <= t.fin[Cho(c)] && Sym(s) in t.start && !Before(t, w, t.start[Sym(s)])
    ensures !Came(t, Cho(c), path[|path| - 1])
  {
    hide PropertyDep;
    assert Straight(t, Sym(s), Cho(c)) && (Came(t, Cho(c), w) ==> Straight(t, Cho(c), w));
    hide Timed;
    if Came(t, Cho(c), path[|path| - 1]) && |path| > 1 {
      LedBefore(k, t, c, path);
    }
  }

  /** What `s`, come to from its choice `c`, leads to past the choice is not done before `s`
      if the choice outlasts it. */
  lemma NotBehind(k: Kconf, t: Times, c: nat, s: nat, path: seq<Item>)
    requires Timed(k, t, []) && ChoicesTidy(k) && Came(t, Sym(s), Cho(c)) && Cho(c) in t.fin && Cho(c) !in path
    requires path != [] && path[0] == Sym(s) && Chain(k, path)
    requires forall z <- path :: z in t.fin && t.fin[z] <= t.fin[Cho(c)]
    ensures !Before(t, path[|path| - 1], t.fin[Sym(s)])
  {
    if Before(t, path[|path| - 1], t.fin[Sym(s)]) {
      var y, x := Crossing(k, t, path, t.fin[Sym(s)]);
      NotAcross(k, t, c, s, y, x);
    }
  }

  // What is not done before `s`, and has `x` straight in it that is, would be the choice of `s` or outlast it
  lemma NotAcross(k: Kconf, t: Times, c: nat, s: nat, y: Item, x: Item)
    requires Timed(k, t, []) && ChoicesTidy(k) && Came(t, Sym(s), Cho(c)) && Cho(c) in t.fin && Sym(s) in t.fin
    requires Came(t, x, y) && y in t.fin && Before(t, x, t.fin[Sym(s)]) && !Before(t, y, t.fin[Sym(s)])
    ensures x == Cho(c) || y == Cho(c) || t.fin[y] > t.fin[Cho(c)]
  {
    assert Straight(t, Sym(s), Cho(c)) && Straight(t, x, y) && ViaOk(k, t, x, y);
    CameToSymbol(k, t, s, Cho(c));
    hide PropertyDep, ItemTimes, ChoicesTidy, InTurn;
  }

  // The loop, turned so that its first item is the last to be done, goes back to a choice
  lemma BackToChoice(k: Kconf, t: Times, loop: seq<Item>)
    requires Timed(k, t, []) && ChoicesTidy(k) && IsLoop(k, loop)
    requires |loop| > 1 && loop[0].Cho? && Came(t, loop[1], loop[0])
    requires forall x <- loop :: x in t.fin && t.fin[x] <= t.fin[loop[0]]
    requires loop[1] in t.start && !Before(t, loop[|loop| - 1], t.start[loop[1]])
    ensures SomeHides(k, t)
  {
    var (c, path, w) := (loop[0].c, loop[1..], loop[|loop| - 1]);
    ChainRest(k, loop);
    FromChoice(k, t, loop);
    var s := loop[1].s;
    assert w == path[|path| - 1] && DependsOn(k, w, loop[0]) && path[0] == Sym(s);
    assert forall z <- path :: z in loop;
    var inner := InChoice(k, w, c);
    hide *;
    HidesThrough(k, t, c, s, path, w, inner);
  }

  lemma HidesThrough(k: Kconf, t: Times, c: nat, s: nat, path: seq<Item>, w: Item, inner: seq<Item>)
    requires Timed(k, t, []) && ChoicesTidy(k) && Came(t, Sym(s), Cho(c)) && Cho(c) in t.fin && LeadsIn(k, w, c, inner)
    requires path != [] && path[0] == Sym(s) && w == path[|path| - 1] != Sym(s) && Chain(k, path) && Cho(c) !in path
    requires forall z <- path :: z in t.fin && t.fin[z] <= t.fin[Cho(c)]
    requires Sym(s) in t.start && !Before(t, w, t.start[Sym(s)])
    ensures SomeHides(k, t)
  {
    hide *;
    NotBehind(k, t, c, s, path);
    NotInOwn(k, t, c, s, w, inner);
    ListedLater(k, t, c, s, w, inner);
    ChainJoin(k, path, inner, c);
    Hiding(k, t, c, path + inner[1..]);
  }

  lemma NotInOwn(k: Kconf, t: Times, c: nat, s: nat, w: Item, inner: seq<Item>)
    requires Timed(k, t, []) && LeadsIn(k, w, c, inner) && Sym(s) in t.fin && w != Sym(s) && !Before(t, w, t.fin[Sym(s)])
    ensures inner != [] && inner[|inner| - 1] != Sym(s)
  {
    hide PropertyDep;
    if inner[|inner| - 1] == Sym(s) {
      assert |inner| > 1 && inner[0] == w;
      ChainTimes(k, t, inner);
    }
  }

  lemma ChainJoin(k: Kconf, path: seq<Item>, inner: seq<Item>, c: nat)
    requires path != [] && Chain(k, path) && LeadsIn(k, path[|path| - 1], c, inner) && Cho(c) !in path
    ensures inner != [] && var all := path + inner[1..];
            Chain(k, all) && Cho(c) !in all && all[0] == path[0] && all[|all| - 1] == inner[|inner| - 1]
  {
    hide PropertyDep, Member;
    var all := path + inner[1..];
    forall j | 0 < j < |all| ensures DependsOn(k, all[j - 1], all[j]) {
      if j >= |path| {
        assert all[j] == inner[j - |path| + 1] && all[j - 1] == inner[j - |path|];
      }
    }
    forall i <- inner[1..] ensures i != Cho(c) {
      assert i in inner;
    }
    assert forall i <- all :: i in path || i in inner[1..];
  }

  lemma Hiding(k: Kconf, t: Times, c: nat, path: seq<Item>)
    requires path != [] && Chain(k, path) && Cho(c) !in path && ListedBefore(k, c, path[0], path[|path| - 1])
    requires Came(t, path[0], Cho(c)) && !Came(t, Cho(c), path[|path| - 1])
    ensures SomeHides(k, t)
  {
    assert Hides(k, t, c, path);
  }

  // What depends on a choice leads to one of its symbols
  lemma InChoice(k: Kconf, w: Item, c: nat) returns (path: seq<Item>)
    requires ChoicesTidy(k) && DependsOn(k, w, Cho(c))
    ensures LeadsIn(k, w, c, path) && (|path| == 1 ==> w.Sym? && w.s in k.ChoiceAt(c).syms)
  {
    hide PropertyDep;
    if Member(k, w, Cho(c)) {
      path := [w];
    } else {
      path :| LeadsIn(k, w, c, path);
    }
  }

  // From a choice the search comes to a symbol, and the loop has more than these two
  lemma FromChoice(k: Kconf, t: Times, loop: seq<Item>)
    requires Timed(k, t, []) && IsLoop(k, loop) && |loop| > 1 && loop[0].Cho? && Came(t, loop[1], loop[0])
    requires forall x <- loop :: x in t.fin && t.fin[x] <= t.fin[loop[0]]
    ensures loop[1].Sym? && |loop| > 2 && loop[|loop| - 1] != loop[1]
  {
    hide PropertyDep;
    assert ViaOk(k, t, loop[1], loop[0]);
    var (a, b) := (loop[0], loop[1]);
    assert ItemTimes(k, t, b);
    assert |loop| == 2 ==> NotOnlyMembers(k, a, b);
  }

  lemma ChainRest(k: Kconf, loop: seq<Item>)
    requires IsLoop(k, loop) && |loop| > 1
    ensures Chain(k, loop[1..]) && NoDup(loop[1..]) && loop[0] !in loop[1..]
  {
    hide DependsOn;
    var path := loop[1..];
    forall j | 0 < j < |path| ensures DependsOn(k, path[j - 1], path[j]) {
      assert path[j - 1] == loop[j] && path[j] == loop[j + 1];
    }
    forall i | 0 <= i < |path| ensures path[i] != loop[0] {
      assert path[i] == loop[i + 1];
    }
  }

  // What depends on a symbol from which the search came to its choice was done before
  lemma NotFromSymbol(k: Kconf, t: Times, loop: seq<Item>)
    requires Timed(k, t, []) && IsLoop(k, loop) && |loop| > 1 && loop[0].Sym? && loop[1] in t.start
    requires !Before(t, loop[|loop| - 1], t.start[loop[1]])
    ensures !Came(t, loop[1], loop[0])
  {
    hide PropertyDep;
    var w := loop[|loop| - 1];
    assert Came(t, loop[1], loop[0]) ==> ViaOk(k, t, loop[1], loop[0]);
    assert DependsOn(k, w, loop[0]);
    assert |loop| > 2 ==> w != loop[1];
  }

  // Nothing depends on itself
  lemma NotByItself(k: Kconf, t: Times, v: Item)
    requires Timed(k, t, []) && ChoicesTidy(k) && v in t.fin
    ensures !DependsOn(k, v, v)
  {
    assert Came(t, v, v) ==> Straight(t, v, v);
    if DependsOn(k, v, v) {
      EdgeTimes(k, t, v, v);
    }
  }

  /** When the search has found nothing, a loop can only be one that a choice hides: some
      symbol of the choice leads on to one listed after it, and the search came to the first
      from the choice, and to the choice not from the second. */
  lemma SilenceExcludes(k: Kconf, t: Times, loop: seq<Item>)
    requires Static(k) && Timed(k, t, []) && ChoicesTidy(k) && IsLoop(k, loop)
    requires forall s | 0 <= s < |k.syms| && k.SymAt(s).defined :: Sym(s) in t.fin
    ensures SomeHides(k, t)
  {
    LoopVisited(k, t, loop);
    var i := LastVisited(t, loop);
    Rotated(k, loop, i);
    var turned := loop[i..] + loop[..i];
    var v := turned[0];
    NotByItself(k, t, v);
    assert DependsOn(k, v, turned[Next(turned, 0)]);
    if |turned| > 1 {
      EdgeTimes(k, t, turned[1], v);
      ChainRest(k, turned);
      NotYet(k, t, v, turned[1..]);
      if v.Cho? {
        BackToChoice(k, t, turned);
      } else {
        NotFromSymbol(k, t, turned);
      }
    }
  }

  // ---------- and the other way around ----------

  // A path that comes back to an item can leave out what is between
  lemma Cut(k: Kconf, path: seq<Item>, i: nat, j: nat)
    requires Chain(k, path) && i < j < |path| && path[i] == path[j]
    ensures var cut := path[..i] + path[j..];
            Chain(k, cut) && cut[0] == path[0] && cut[|cut| - 1] == path[|path| - 1] && forall x <- cut :: x in path
  {
    hide DependsOn;
    var cut := path[..i] + path[j..];
    forall n | 0 < n < |cut| ensures DependsOn(k, cut[n - 1], cut[n]) {
      if n < i {
        assert cut[n - 1] == path[n - 1] && cut[n] == path[n];
      } else if n == i {
        assert cut[n - 1] == path[i - 1] && cut[n] == path[j];
      } else {
        assert cut[n - 1] == path[j + n - 1 - i] && cut[n] == path[j + n - i];
      }
    }
  }

  lemma {:induction false} Shortened(k: Kconf, c: nat, path: seq<Item>) returns (p: seq<Item>)
    requires LeadsOn(k, c, path)
    ensures LeadsOn(k, c, p) && NoDup(p)
    decreases |path|
  {
    p := path;
    if !NoDup(path) {
      var i, j :| 0 <= i < j < |path| && path[i] == path[j];
      hide NoDup, Chain, DependsOn, ListedBefore;
      Cut(k, path, i, j);
      p := Shortened(k, c, path[..i] + path[j..]);
    }
  }

  /** Where a symbol of a choice leads on to one listed after it there is a loop. */
  lemma LeadingOnLoops(k: Kconf, c: nat, path: seq<Item>) returns (loop: seq<Item>)
    requires ChoicesTidy(k) && LeadsOn(k, c, path)
    ensures IsLoop(k, loop)
  {
    var p := Shortened(k, c, path);
    loop := [Cho(c)] + p;
    var (a, b) := (p[0], p[|p| - 1]);
    hide PropertyDep;
    assert Member(k, Cho(c), a) && Member(k, b, Cho(c));
    forall j | 0 < j < |loop| ensures DependsOn(k, loop[j - 1], loop[j]) {
      if j > 1 {
        assert loop[j - 1] == p[j - 2] && loop[j] == p[j - 1];
      }
    }
  }

  /** There is a loop if and only if the search reports one or a symbol of a choice leads on
      to one listed after it. When nothing is reported there is one if and only if the search
      has come to such a symbol from the choice, having come to the choice from elsewhere than
      the other one: `times` tells how it went. */
  method FindLoopWithChoices(k: Kconf, lists: Lists) returns (r: Option<seq<Item>>, ghost order: seq<Item>, ghost times: Times)
    requires Searchable(k, lists) && ChoicesTidy(k)
    ensures r == FirstLoop(k, lists, map[], 0)
    ensures r.Some? ==> IsLoop(k, r.value)
    ensures (exists loop :: IsLoop(k, loop)) <==> r.Some? || SomeLeadsOn(k)
    ensures r.None? ==> Timed(k, times, []) && ((exists loop :: IsLoop(k, loop)) <==> SomeHides(k, times))
  {
    r, order, times := FindLoop(k, lists);
    hide IsLoop, ChoicesTidy, FirstLoop, Timed, Static, ListsOk, LeadsOn, Ordered, NoDup;
    if r.None? {
      forall loop | IsLoop(k, loop) ensures SomeHides(k, times) && SomeLeadsOn(k) {
        SilenceExcludes(k, times, loop);
        HidesLeadsOn(k, times);
      }
    }
    if SomeLeadsOn(k) {
      ghost var c, path :| LeadsOn(k, c, path);
      ghost var loop := LeadingOnLoops(k, c, path);
    }
    if SomeHides(k, times) {
      HidesLeadsOn(k, times);
    }
  }

  lemma HidesLeadsOn(k: Kconf, t: Times)
    requires SomeHides(k, t)
    ensures SomeLeadsOn(k)
  {
    var c, path :| Hides(k, t, c, path);
  }
}
