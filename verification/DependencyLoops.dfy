/** Dependency loop detection: a depth-first search over the recorded dependents that
    either reports a loop or has found an order of the symbols. */
module DependencyLoops {
  import opened Expressions
  import opened Wrappers
  import opened Values
  import opened Evaluation
  import opened Dependencies
  import opened Engine
  import opened Sequences
  import opened SearchTimes

  // What the definitions of symbols and choices guarantee before any order is known
  predicate Static(k: Kconf) {
    && k.n < |k.syms| && k.m < |k.syms| && k.y < |k.syms| && k.modules < |k.syms|
    && k.syms[k.n].fixed == Some(0) && k.syms[k.m].fixed == Some(1) && k.syms[k.y].fixed == Some(2)
    && (forall s {:trigger SymOk(k, s)} | 0 <= s < |k.syms| :: SymOk(k, s))
    && (forall c {:trigger ChoiceOk(k, c)} | 0 <= c < |k.choices| :: ChoiceOk(k, c))
  }

  // ---------- what a loop is ----------

  // `a` is a choice and `b` one of its symbols, or the other way around
  predicate Member(k: Kconf, a: Item, b: Item) {
    match (a, b)
    case (Cho(c), Sym(s)) => k.SymAt(s).choice == Some(c)
    case (Sym(s), Cho(c)) => s in k.ChoiceAt(c).syms
    case _ => false
  }

  // `a` depends on `b`: through a property, or as a choice and its symbols do on each other
  predicate DependsOn(k: Kconf, a: Item, b: Item) { PropertyDep(k, a, b) || Member(k, a, b) }

  predicate Chain(k: Kconf, loop: seq<Item>) { forall j | 0 < j < |loop| :: DependsOn(k, loop[j - 1], loop[j]) }

  // A choice and one of its symbols make a loop only if a property of the choice has the symbol
  predicate NotOnlyMembers(k: Kconf, a: Item, b: Item) {
    (a.Cho? ==> PropertyDep(k, a, b)) && (b.Cho? ==> PropertyDep(k, b, a))
  }

  /** Different items, each of which depends on the next one and the last on the first. */
  predicate IsLoop(k: Kconf, loop: seq<Item>) {
    && loop != [] && NoDup(loop) && Chain(k, loop) && DependsOn(k, loop[|loop| - 1], loop[0])
    && (|loop| == 2 ==> NotOnlyMembers(k, loop[0], loop[1]))
  }

  // ---------- the search ----------

  /** What a step of the search returns: nothing found, the part of a loop seen so far, or
      a whole loop, which the source raises as an exception. */
  datatype Found = NoLoop | Part(loop: seq<Item>) | Whole(loop: seq<Item>)

  // The dependents of each item, in the order in which they are visited
  type Lists = map<Item, seq<Item>>

  function InOrder(lists: Lists, b: Item): seq<Item> { if b in lists then lists[b] else [] }

  ghost predicate ListsOk(k: Kconf, lists: Lists) { forall a, b :: a in InOrder(lists, b) <==> PropertyDep(k, a, b) }

  // The visited marks, 0 when absent
  type Marks = map<Item, nat>

  function MarkOf(m: Marks, i: Item): nat { if i in m then m[i] else 0 }

  function Unmarked(k: Kconf, m: Marks): set<Item> {
    (set s | 0 <= s < |k.syms| && MarkOf(m, Sym(s)) == 0 :: Sym(s)) +
    (set c | 0 <= c < |k.choices| && MarkOf(m, Cho(c)) == 0 :: Cho(c))
  }

  // What a step finds and the marks it leaves
  datatype Searched = Searched(found: Found, marks: Marks)

  // The step back from a visit to the item before it
  function Back(loop: seq<Item>, cur: Item): (r: Found)
    requires loop != []
    ensures r.Part? ==> r.loop != []
  {
    if cur != loop[0] then Part(loop + [cur]) else Whole(loop)
  }

  function BackTo(r: Searched, cur: Item): Searched
    requires r.found.Part? ==> r.found.loop != []
  {
    if r.found.Part? then Searched(Back(r.found.loop, cur), r.marks) else r
  }

  ghost predicate Searchable(k: Kconf, lists: Lists) { Static(k) && ListsOk(k, lists) }

  ghost predicate SearchOk(k: Kconf, m: Marks, r: Searched) {
    Unmarked(k, r.marks) <= Unmarked(k, m) && (r.found.Part? ==> r.found.loop != [])
  }

  function SearchSym(k: Kconf, lists: Lists, m: Marks, s: nat, ignoreChoice: bool): (r: Searched)
    requires Searchable(k, lists) && IsDefined(k, Sym(s))
    ensures SearchOk(k, m, r)
    decreases Unmarked(k, m), 1, 0
  {
    if MarkOf(m, Sym(s)) == 0 then
      Marking(k, m, Sym(s));
      var r1 := SearchBehind(k, lists, m[Sym(s) := 1], s, ignoreChoice);
      if r1.found.NoLoop? then Searched(NoLoop, r1.marks[Sym(s) := 2]) else r1
    else Searched(if MarkOf(m, Sym(s)) == 2 then NoLoop else Part([Sym(s)]), m)
  }

  // The dependents of a symbol just entered, and then its choice
  function SearchBehind(k: Kconf, lists: Lists, m: Marks, s: nat, ignoreChoice: bool): (r: Searched)
    requires Searchable(k, lists) && IsDefined(k, Sym(s))
    ensures SearchOk(k, m, r)
    decreases Unmarked(k, m), 4, 0
  {
    var r1 := SearchDependents(k, lists, m, s, 0);
    if r1.found.NoLoop? && k.SymAt(s).choice.Some? && !ignoreChoice then
      ChoiceExists(k, s);
      BackTo(SearchChoice(k, lists, r1.marks, k.SymAt(s).choice.value, Some(s)), Sym(s))
    else r1
  }

  // The dependents of `s` from the one at `i` on
  function SearchDependents(k: Kconf, lists: Lists, m: Marks, s: nat, i: nat): (r: Searched)
    requires Searchable(k, lists) && i <= |InOrder(lists, Sym(s))|
    ensures SearchOk(k, m, r)
    decreases Unmarked(k, m), 3, |InOrder(lists, Sym(s))| - i
  {
    if i == |InOrder(lists, Sym(s))| then Searched(NoLoop, m)
    else
      assert PropertyDep(k, InOrder(lists, Sym(s))[i], Sym(s));
      var r1 := SearchItem(k, lists, m, InOrder(lists, Sym(s))[i]);
      if r1.found.NoLoop? then SearchDependents(k, lists, r1.marks, s, i + 1) else BackTo(r1, Sym(s))
  }

  function SearchItem(k: Kconf, lists: Lists, m: Marks, i: Item): (r: Searched)
    requires Searchable(k, lists) && IsDefined(k, i)
    ensures SearchOk(k, m, r)
    decreases Unmarked(k, m), 2, 0
  {
    match i case Cho(c) => SearchChoice(k, lists, m, c, None) case Sym(s) => SearchSym(k, lists, m, s, false)
  }

  function SearchChoice(k: Kconf, lists: Lists, m: Marks, c: nat, skip: Option<nat>): (r: Searched)
    requires Searchable(k, lists) && c < |k.choices|
    ensures SearchOk(k, m, r)
    decreases Unmarked(k, m), 1, 0
  {
    if MarkOf(m, Cho(c)) == 0 then
      Marking(k, m, Cho(c));
      var r1 := SearchMembers(k, lists, m[Cho(c) := 1], c, skip, 0);
      if r1.found.NoLoop? then Searched(NoLoop, r1.marks[Cho(c) := 2]) else r1
    else Searched(if MarkOf(m, Cho(c)) == 2 then NoLoop else Part([Cho(c)]), m)
  }

  // The symbols of choice `c` from the one at `i` on
  function SearchMembers(k: Kconf, lists: Lists, m: Marks, c: nat, skip: Option<nat>, i: nat): (r: Searched)
    requires Searchable(k, lists) && c < |k.choices| && i <= |k.ChoiceAt(c).syms|
    ensures SearchOk(k, m, r)
    decreases Unmarked(k, m), 2, |k.ChoiceAt(c).syms| - i
  {
    var syms := k.ChoiceAt(c).syms;
    if i == |syms| then Searched(NoLoop, m)
    else if Some(syms[i]) == skip then SearchMembers(k, lists, m, c, skip, i + 1)
    else
      assert ChoiceOk(k, c) && syms[i] in syms;
      var r1 := SearchSym(k, lists, m, syms[i], true);
      if r1.found.NoLoop? then SearchMembers(k, lists, r1.marks, c, skip, i + 1) else BackTo(r1, Cho(c))
  }

  // The loop that searching from the symbols from number `s` on finds first
  function FirstLoop(k: Kconf, lists: Lists, m: Marks, s: nat): Option<seq<Item>>
    requires Searchable(k, lists) && s <= |k.syms|
    decreases |k.syms| - s
  {
    if s == |k.syms| then None
    else if k.syms[s].defined then
      var r := SearchSym(k, lists, m, s, false);
      if r.found.Whole? then Some(r.found.loop) else FirstLoop(k, lists, r.marks, s + 1)
    else FirstLoop(k, lists, m, s + 1)
  }

  lemma Marking(k: Kconf, m: Marks, i: Item)
    requires IsDefined(k, i) && MarkOf(m, i) == 0
    ensures Unmarked(k, m[i := 1]) < Unmarked(k, m)
  {
    assert i in Unmarked(k, m) && i !in Unmarked(k, m[i := 1]);
  }

  // Every symbol in `order` is behind all the symbols that depend on it
  ghost predicate Ordered(k: Kconf, order: seq<Item>) {
    forall j, a: Item {:trigger a in order[..j]} {:trigger PropertyDep(k, a, order[j])} ::
      0 <= j < |order| && order[j].Sym? && a.Sym? && PropertyDep(k, a, order[j]) ==> a in order[..j]
  }

  lemma ChoiceExists(k: Kconf, s: nat)
    requires Static(k) && IsDefined(k, Sym(s))
    ensures k.SymAt(s).choice.Some? ==> k.SymAt(s).choice.value < |k.choices|
  {
    assert SymOk(k, s);
  }

  // What was done and how it was come to stays
  predicate Later(done0: seq<Item>, t0: Times, done: seq<Item>, t: Times) {
    done0 <= done && forall x <- t0.via :: Came(t, x, t0.via[x])
  }

  lemma LaterSelf(done: seq<Item>, t: Times)
    ensures Later(done, t, done, t)
  {
  }

  lemma LaterTrans(done0: seq<Item>, t0: Times, done1: seq<Item>, t1: Times, done: seq<Item>, t: Times)
    requires Later(done0, t0, done1, t1) && Later(done1, t1, done, t)
    ensures Later(done0, t0, done, t)
  {
    forall x <- t0.via ensures Came(t, x, t0.via[x]) {
      assert Came(t1, x, t0.via[x]);
    }
  }

  lemma LaterDone(done0: seq<Item>, t0: Times, done: seq<Item>, t: Times)
    requires Later(done0, t0, done, t)
    ensures forall x <- done0 :: x in done
  {
    assert forall x <- done0 :: x in done[..|done0|];
  }

  lemma LaterCame(done0: seq<Item>, t0: Times, done: seq<Item>, t: Times, x: Item, p: Item)
    requires Later(done0, t0, done, t) && Came(t0, x, p)
    ensures Came(t, x, p) && x in t.via
  {
  }

  // One turn of the loop over the dependents
  lemma DependentsStep(k: Kconf, lists: Lists, m: Marks, s: nat, i: nat)
    requires Searchable(k, lists) && i < |InOrder(lists, Sym(s))|
    ensures var dep := InOrder(lists, Sym(s))[i];
            && IsDefined(k, dep)
            && var r1 := SearchItem(k, lists, m, dep);
               && Unmarked(k, r1.marks) <= Unmarked(k, m) && (r1.found.Part? ==> r1.found.loop != [])
               && SearchDependents(k, lists, m, s, i) ==
                  if r1.found.NoLoop? then SearchDependents(k, lists, r1.marks, s, i + 1) else BackTo(r1, Sym(s))
  {
    assert PropertyDep(k, InOrder(lists, Sym(s))[i], Sym(s));
  }

  lemma ListedDependent(k: Kconf, lists: Lists, s: nat, i: nat)
    requires Searchable(k, lists) && i < |InOrder(lists, Sym(s))|
    ensures PropertyDep(k, InOrder(lists, Sym(s))[i], Sym(s)) && IsDefined(k, InOrder(lists, Sym(s))[i])
  {
    assert InOrder(lists, Sym(s))[i] in InOrder(lists, Sym(s));
  }

  lemma DependentsEnd(k: Kconf, lists: Lists, m: Marks, s: nat, done: seq<Item>)
    requires Searchable(k, lists) && forall a <- InOrder(lists, Sym(s)) :: a in done
    ensures SearchDependents(k, lists, m, s, |InOrder(lists, Sym(s))|) == Searched(NoLoop, m)
    ensures forall a | PropertyDep(k, a, Sym(s)) :: a in done
  {
  }

  lemma MembersEnd(k: Kconf, lists: Lists, m: Marks, c: nat, skip: Option<nat>)
    requires Searchable(k, lists) && c < |k.choices|
    ensures SearchMembers(k, lists, m, c, skip, |k.ChoiceAt(c).syms|) == Searched(NoLoop, m)
  {
  }

  lemma BehindStep(k: Kconf, lists: Lists, m: Marks, s: nat, ignoreChoice: bool)
    requires Searchable(k, lists) && IsDefined(k, Sym(s))
    ensures k.SymAt(s).choice.Some? ==> k.SymAt(s).choice.value < |k.choices|
    ensures var r1 := SearchDependents(k, lists, m, s, 0);
            && Unmarked(k, r1.marks) <= Unmarked(k, m)
            && SearchBehind(k, lists, m, s, ignoreChoice) ==
               if r1.found.NoLoop? && k.SymAt(s).choice.Some? && !ignoreChoice
               then BackTo(SearchChoice(k, lists, r1.marks, k.SymAt(s).choice.value, Some(s)), Sym(s)) else r1
  {
    ChoiceExists(k, s);
  }

  // One turn of the loop over the symbols of a choice
  lemma MembersStep(k: Kconf, lists: Lists, m: Marks, c: nat, skip: Option<nat>, i: nat)
    requires Searchable(k, lists) && c < |k.choices| && i < |k.ChoiceAt(c).syms|
    ensures var s := k.ChoiceAt(c).syms[i];
            && IsDefined(k, Sym(s))
            && Unmarked(k, SearchSym(k, lists, m, s, true).marks) <= Unmarked(k, m)
            && SearchMembers(k, lists, m, c, skip, i) ==
               if Some(s) == skip then SearchMembers(k, lists, m, c, skip, i + 1)
               else
                 var r1 := SearchSym(k, lists, m, s, true);
                 assert r1.found.Part? ==> r1.found.loop != [];
                 if r1.found.NoLoop? then SearchMembers(k, lists, r1.marks, c, skip, i + 1) else BackTo(r1, Cho(c))
  {
    assert ChoiceOk(k, c) && k.ChoiceAt(c).syms[i] in k.ChoiceAt(c).syms;
  }

  // The part of a loop found below `stack`, seen so far up to `cur`
  predicate Closing(k: Kconf, stack: seq<Item>, r: Found, cur: Item) {
    match r
    case NoLoop => false
    case Part(loop) =>
      && loop != [] && NoDup(loop) && Chain(k, loop) && loop[|loop| - 1] == cur && loop[0] in stack
      && forall j | 0 < j < |loop| :: loop[j] !in stack
    case Whole(loop) => IsLoop(k, loop)
  }

  // A part of a loop that goes on with `cur`
  predicate MayClose(k: Kconf, stack: seq<Item>, loop: seq<Item>, cur: Item) {
    && loop != [] && NoDup(loop) && Chain(k, loop) && DependsOn(k, loop[|loop| - 1], cur)
    && loop[0] in stack + [cur] && cur !in stack && forall j | 0 < j < |loop| :: loop[j] !in stack + [cur]
  }

  lemma ClosingStep(k: Kconf, stack: seq<Item>, r: Found, last: Item, cur: Item)
    requires r.Part? && Closing(k, stack + [cur], r, last) && cur !in stack && DependsOn(k, last, cur)
    ensures MayClose(k, stack, r.loop, cur) && r.loop[|r.loop| - 1] == last
  {
  }

  lemma WholeCloses(k: Kconf, stack: seq<Item>, r: Found, cur: Item, stack1: seq<Item>, cur1: Item)
    requires r.Whole? && Closing(k, stack, r, cur)
    ensures Closing(k, stack1, r, cur1)
  {
  }

  // The marks, what is done and the times, inside the visits of the items of `stack`
  ghost predicate InSearch(k: Kconf, m: Marks, done: seq<Item>, t: Times, stack: seq<Item>) {
    && Marked(m, done, t, stack) && NoDup(done) && Ordered(k, done) && Timed(k, t, stack)
  }

  ghost predicate Marked(m: Marks, done: seq<Item>, t: Times, stack: seq<Item>) {
    && (forall i :: MarkOf(m, i) <= 2)
    && (forall i :: MarkOf(m, i) == 1 <==> i in stack)
    && (forall i :: MarkOf(m, i) == 2 <==> i in done)
    && (forall i :: i in t.start <==> MarkOf(m, i) != 0)
    && (forall i :: i in t.fin <==> i in done)
  }

  lemma EnterMarked(m: Marks, done: seq<Item>, t: Times, stack: seq<Item>, i: Item, from: Option<Item>)
    requires Marked(m, done, t, stack) && MarkOf(m, i) == 0
    ensures Marked(m[i := 1], done, Begin(t, i, from), stack + [i]) && i !in stack && i !in t.start
  {
    var (m1, t1, stack1) := (m[i := 1], Begin(t, i, from), stack + [i]);
    forall x
      ensures MarkOf(m1, x) == if x == i then 1 else MarkOf(m, x)
      ensures x in stack1 <==> x in stack || x == i
      ensures x in t1.start <==> x in t.start || x == i
    {
    }
  }

  lemma LeaveMarked(m: Marks, done: seq<Item>, t: Times, stack: seq<Item>, i: Item)
    requires Marked(m, done, t, stack + [i]) && i !in stack
    ensures Marked(m[i := 2], done + [i], End(t, i), stack) && i !in done
  {
    var (m1, t1, done1) := (m[i := 2], End(t, i), done + [i]);
    assert i in stack + [i];
    forall x
      ensures MarkOf(m1, x) == if x == i then 2 else MarkOf(m, x)
      ensures x in stack + [i] <==> x in stack || x == i
      ensures x in done1 <==> x in done || x == i
      ensures x in t1.fin <==> x in t.fin || x == i
    {
    }
  }

  lemma EnterKeeps(k: Kconf, m: Marks, done: seq<Item>, t: Times, stack: seq<Item>, i: Item, from: Option<Item>)
    requires InSearch(k, m, done, t, stack) && MarkOf(m, i) == 0
    requires from.Some? ==> stack != [] && from.value == stack[|stack| - 1] && MayCome(k, t, i, from.value)
    ensures InSearch(k, m[i := 1], done, Begin(t, i, from), stack + [i]) && i !in stack
    ensures Later(done, t, done, Begin(t, i, from)) && (from.Some? ==> Came(Begin(t, i, from), i, from.value))
  {
    EnterMarked(m, done, t, stack, i, from);
    BeginKeeps(k, t, stack, i, from);
    ViaStarted(k, t, stack);
    BeginLater(done, t, i, from);
    hide Timed, MayCome, Ordered, NoDup, Marked, Later;
  }

  lemma BeginLater(done: seq<Item>, t: Times, i: Item, from: Option<Item>)
    requires i !in t.via
    ensures Later(done, t, done, Begin(t, i, from)) && (from.Some? ==> Came(Begin(t, i, from), i, from.value))
  {
  }

  lemma LeaveKeeps(k: Kconf, m: Marks, done: seq<Item>, t: Times, stack: seq<Item>, i: Item)
    requires InSearch(k, m, done, t, stack + [i]) && i !in stack && MayEnd(k, t, i)
    ensures InSearch(k, m[i := 2], done + [i], End(t, i), stack) && Later(done, t, done + [i], End(t, i))
  {
    LeaveMarked(m, done, t, stack, i);
    EndKeeps(k, t, stack, i);
    OrderedMore(k, done, i, t);
    hide Timed, MayEnd, Ordered, NoDup, Marked;
  }

  class LoopFinder {
    const k: Kconf
    const lists: Lists
    var visited: Marks               // item._visited
    ghost var done: seq<Item>        // the items found not to be part of a loop, in that order
    ghost var times: Times

    constructor (k: Kconf, lists: Lists)
      requires Searchable(k, lists)
      ensures this.k == k && this.lists == lists && visited == map[] && done == [] && Searching([])
    {
      this.k, this.lists, this.visited, this.done, this.times := k, lists, map[], [], Times(0, map[], map[], map[]);
    }

    // The search is inside the visits of the items of `stack`
    ghost predicate Searching(stack: seq<Item>) reads this { InSearch(k, visited, done, times, stack) }

    // The step back from a visit to the item before it on the stack
    method FoundDepLoop(loop: seq<Item>, cur: Item, ghost stack: seq<Item>) returns (r: Found)
      requires MayClose(k, stack, loop, cur)
      requires |loop| == 2 && loop[0] == cur ==> NotOnlyMembers(k, loop[0], loop[1])
      ensures Closing(k, stack, r, cur) && r == Back(loop, cur)
      ensures r.Part? && |r.loop| == 2 ==> loop == [r.loop[0]]
    {
      hide PropertyDep, Member;
      if cur != loop[0] {
        assert forall j | 0 < j < |loop| :: loop[j] != cur && loop[j] !in stack;
        r := Part(loop + [cur]);
      } else {
        r := Whole(loop);
      }
    }

    // item._visited = 1
    method Enter(i: Item, ghost from: Option<Item>, ghost stack: seq<Item>)
      requires Searching(stack) && MarkOf(visited, i) == 0 && IsDefined(k, i)
      requires from.Some? ==> stack != [] && from.value == stack[|stack| - 1] && MayCome(k, times, i, from.value)
      modifies this
      ensures Searching(stack + [i]) && i !in stack && done == old(done)
      ensures Later(old(done), old(times), done, times) && (from.Some? ==> Came(times, i, from.value))
      ensures visited == old(visited)[i := 1] && Unmarked(k, visited) < Unmarked(k, old(visited))
    {
      EnterKeeps(k, visited, done, times, stack, i, from);
      Marking(k, visited, i);
      hide InSearch, Later;
      visited := visited[i := 1];
      times := Begin(times, i, from);
    }

    // item._visited = 2
    method Leave(i: Item, ghost stack: seq<Item>)
      requires Searching(stack + [i]) && i !in stack && IsDefined(k, i) && MayEnd(k, times, i)
      modifies this
      ensures Searching(stack) && i in done && Later(old(done), old(times), done, times)
      ensures visited == old(visited)[i := 2] && Unmarked(k, visited) <= Unmarked(k, old(visited))
    {
      LeaveKeeps(k, visited, done, times, stack, i);
      hide InSearch, Later;
      visited := visited[i := 2];
      done := done + [i];
      times := End(times, i);
    }

    // The items that depend on a symbol just entered
    method CheckDependents(s: nat, ghost stack: seq<Item>) returns (r: Found)
      requires Searchable(k, lists) && Searching(stack + [Sym(s)]) && Sym(s) !in stack && IsDefined(k, Sym(s))
      modifies this
      ensures Searched(r, visited) == SearchDependents(k, lists, old(visited), s, 0)
      ensures r.NoLoop? ==> Searching(stack + [Sym(s)]) && forall a | PropertyDep(k, a, Sym(s)) :: a in done
      ensures Later(old(done), old(times), done, times)
      ensures !r.NoLoop? ==> Closing(k, stack, r, Sym(s))
      ensures r.Part? && |r.loop| == 2 ==> PropertyDep(k, r.loop[0], r.loop[1])
      decreases Unmarked(k, visited), 3
    {
      ghost var inner := stack + [Sym(s)];
      var list := InOrder(lists, Sym(s));
      LaterSelf(done, times);
      hide PropertyDep, Member, IsConstant, IsDefined, InSearch, IsLoop, SearchItem, SearchDependents, SearchOk, InOrder;
      hide Closing, MayClose, Unmarked, Searchable, Later;
      for i := 0 to |list|
        invariant Searching(inner) && Later(old(done), old(times), done, times)
        invariant forall a <- list[..i] :: a in done
        invariant Unmarked(k, visited) <= Unmarked(k, old(visited))
        invariant SearchDependents(k, lists, visited, s, i) == SearchDependents(k, lists, old(visited), s, 0)
      {
        var dep := list[i];
        ListedDependent(k, lists, s, i);
        ghost var done1, times1, m1 := done, times, visited;
        var found := CheckDependent(dep, s, inner);
        LaterTrans(old(done), old(times), done1, times1, done, times);
        LaterDone(done1, times1, done, times);
        DependentsStep(k, lists, m1, s, i);
        if found.Whole? {
          WholeCloses(k, inner, found, dep, stack, Sym(s));
          return found;
        }
        if found.Part? {
          ClosingStep(k, stack, found, dep, Sym(s));
          r := FoundDepLoop(found.loop, Sym(s), stack);
          return;
        }
        assert list[..i + 1] == list[..i] + [dep];
      }
      assert list[..|list|] == list;
      DependentsEnd(k, lists, visited, s, done);
      r := NoLoop;
    }

    // One item that depends on a symbol
    method CheckDependent(dep: Item, s: nat, ghost stack: seq<Item>) returns (r: Found)
      requires Searchable(k, lists) && Searching(stack) && IsDefined(k, dep) && PropertyDep(k, dep, Sym(s))
      modifies this
      ensures Searched(r, visited) == SearchItem(k, lists, old(visited), dep)
      ensures Unmarked(k, visited) <= Unmarked(k, old(visited))
      ensures r.NoLoop? ==> Searching(stack) && dep in done
      ensures Later(old(done), old(times), done, times)
      ensures !r.NoLoop? ==> Closing(k, stack, r, dep)
      ensures r.Part? && |r.loop| == 2 && r.loop[0] == Sym(s) ==> NotOnlyMembers(k, r.loop[0], r.loop[1])
      decreases Unmarked(k, visited), 2
    {
      hide PropertyDep, InSearch, IsLoop, Unmarked, Searchable, Later, SearchSym, SearchChoice, NoDup, Chain;
      if dep.Cho? {
        r := CheckChoice(dep.c, None, stack);
      } else {
        r := CheckSym(dep.s, false, stack);
      }
    }

    method CheckSym(s: nat, ignoreChoice: bool, ghost stack: seq<Item>) returns (r: Found)
      requires Searchable(k, lists) && Searching(stack) && IsDefined(k, Sym(s))
      requires ignoreChoice ==> stack != [] && MayCome(k, times, Sym(s), stack[|stack| - 1])
      modifies this
      ensures Searched(r, visited) == SearchSym(k, lists, old(visited), s, ignoreChoice)
      ensures r.NoLoop? ==> Searching(stack) && Sym(s) in done
      ensures Later(old(done), old(times), done, times)
      ensures !r.NoLoop? ==> Closing(k, stack, r, Sym(s))
      ensures ignoreChoice && r.Part? && |r.loop| == 2 ==> PropertyDep(k, r.loop[0], r.loop[1])
      decreases Unmarked(k, visited), 1, 0
    {
      if MarkOf(visited, Sym(s)) == 0 {
        r := VisitSym(s, ignoreChoice, stack);
        return;
      }
      LaterSelf(done, times);
      hide Timed, Ordered, NoDup, PropertyDep;
      if MarkOf(visited, Sym(s)) == 2 {
        return NoLoop;
      }
      r := Part([Sym(s)]);
    }

    // The first visit of a symbol
    method VisitSym(s: nat, ignoreChoice: bool, ghost stack: seq<Item>) returns (r: Found)
      requires Searchable(k, lists) && Searching(stack) && IsDefined(k, Sym(s)) && MarkOf(visited, Sym(s)) == 0
      requires ignoreChoice ==> stack != [] && MayCome(k, times, Sym(s), stack[|stack| - 1])
      modifies this
      ensures Searched(r, visited) == SearchSym(k, lists, old(visited), s, ignoreChoice)
      ensures r.NoLoop? ==> Searching(stack) && Sym(s) in done
      ensures Later(old(done), old(times), done, times)
      ensures !r.NoLoop? ==> Closing(k, stack, r, Sym(s))
      ensures ignoreChoice && r.Part? && |r.loop| == 2 ==> PropertyDep(k, r.loop[0], r.loop[1])
      decreases Unmarked(k, visited), 0
    {
      hide PropertyDep, Member, IsConstant, InSearch, IsLoop, SearchBehind, Unmarked, Searchable, MayCome, Closing, Later;
      ghost var from := if ignoreChoice then Some(stack[|stack| - 1]) else None;
      Enter(Sym(s), from, stack);
      ghost var done1, times1 := done, times;
      r := CheckBehind(s, ignoreChoice, stack);
      LaterTrans(old(done), old(times), done1, times1, done, times);
      if !r.NoLoop? {
        return;
      }
      SymMayEnd(k, visited, done, times, stack + [Sym(s)], s);
      ghost var done2, times2 := done, times;
      Leave(Sym(s), stack);
      LaterTrans(old(done), old(times), done2, times2, done, times);
    }

    // The dependents of a symbol just entered, and then its choice
    method CheckBehind(s: nat, ignoreChoice: bool, ghost stack: seq<Item>) returns (r: Found)
      requires Searchable(k, lists) && Searching(stack + [Sym(s)]) && Sym(s) !in stack && IsDefined(k, Sym(s))
      requires ignoreChoice ==> Sym(s) in times.via
      modifies this
      ensures Searched(r, visited) == SearchBehind(k, lists, old(visited), s, ignoreChoice)
      ensures r.NoLoop? ==> Searching(stack + [Sym(s)]) && forall a | PropertyDep(k, a, Sym(s)) :: a in done
      ensures r.NoLoop? && k.SymAt(s).choice.Some? ==> Sym(s) in times.via || Cho(k.SymAt(s).choice.value) in done
      ensures Later(old(done), old(times), done, times)
      ensures !r.NoLoop? ==> Closing(k, stack, r, Sym(s))
      ensures ignoreChoice && r.Part? && |r.loop| == 2 ==> PropertyDep(k, r.loop[0], r.loop[1])
      decreases Unmarked(k, visited), 4
    {
      hide PropertyDep, Member, IsConstant, InSearch, IsLoop, SearchDependents, SearchChoice, SearchOk, SearchBehind;
      hide Unmarked, Searchable, Closing, Later;
      ghost var times0, m0 := times, visited;
      r := CheckDependents(s, stack);
      BehindStep(k, lists, m0, s, ignoreChoice);
      if ignoreChoice {
        LaterCame(old(done), old(times), done, times, Sym(s), times0.via[Sym(s)]);
      }
      if r.NoLoop? && k.SymAt(s).choice.Some? && !ignoreChoice {
        ghost var done2, times2 := done, times;
        r := CheckChoiceOf(s, stack);
        LaterTrans(old(done), old(times), done2, times2, done, times);
        LaterDone(done2, times2, done, times);
      }
    }

    // The choice of a symbol, come to from the symbol
    method CheckChoiceOf(s: nat, ghost stack: seq<Item>) returns (r: Found)
      requires Searchable(k, lists) && Searching(stack + [Sym(s)]) && Sym(s) !in stack
      requires IsDefined(k, Sym(s)) && k.SymAt(s).choice.Some?
      requires forall a | PropertyDep(k, a, Sym(s)) :: a in done
      modifies this
      ensures k.SymAt(s).choice.value < |k.choices|
      ensures Searched(r, visited) == BackTo(SearchChoice(k, lists, old(visited), k.SymAt(s).choice.value, Some(s)), Sym(s))
      ensures r.NoLoop? ==> Searching(stack + [Sym(s)]) && Cho(k.SymAt(s).choice.value) in done
      ensures Later(old(done), old(times), done, times)
      ensures !r.NoLoop? ==> Closing(k, stack, r, Sym(s))
      decreases Unmarked(k, visited), 2
    {
      ChoiceExists(k, s);
      MayComeToChoice(k, times, stack + [Sym(s)], s);
      hide PropertyDep, InSearch, IsLoop, SearchChoice, Unmarked, MayCome, Closing, MayClose, Later, Searchable;
      var c := k.SymAt(s).choice.value;
      r := CheckChoice(c, Some(s), stack + [Sym(s)]);
      if r.Whole? {
        WholeCloses(k, stack + [Sym(s)], r, Cho(c), stack, Sym(s));
      }
      if r.Part? {
        ClosingStep(k, stack, r, Cho(c), Sym(s));
        r := FoundDepLoop(r.loop, Sym(s), stack);
      }
    }

    method CheckChoice(c: nat, skip: Option<nat>, ghost stack: seq<Item>) returns (r: Found)
      requires Searchable(k, lists) && Searching(stack) && c < |k.choices|
      requires skip.Some? ==> stack != [] && stack[|stack| - 1] == Sym(skip.value) && MayCome(k, times, Cho(c), Sym(skip.value))
      modifies this
      ensures Searched(r, visited) == SearchChoice(k, lists, old(visited), c, skip)
      ensures r.NoLoop? ==> Searching(stack) && Cho(c) in done
      ensures Later(old(done), old(times), done, times)
      ensures !r.NoLoop? ==> Closing(k, stack, r, Cho(c))
      ensures r.Part? && |r.loop| == 2 && skip.Some? ==> r.loop[0] != Sym(skip.value)
      decreases Unmarked(k, visited), 1, 0
    {
      if MarkOf(visited, Cho(c)) == 0 {
        r := VisitChoice(c, skip, stack);
        return;
      }
      LaterSelf(done, times);
      hide Timed, Ordered, NoDup, PropertyDep;
      if MarkOf(visited, Cho(c)) == 2 {
        return NoLoop;
      }
      r := Part([Cho(c)]);
    }

    // The first visit of a choice
    method VisitChoice(c: nat, skip: Option<nat>, ghost stack: seq<Item>) returns (r: Found)
      requires Searchable(k, lists) && Searching(stack) && c < |k.choices| && MarkOf(visited, Cho(c)) == 0
      requires skip.Some? ==> stack != [] && stack[|stack| - 1] == Sym(skip.value) && MayCome(k, times, Cho(c), Sym(skip.value))
      modifies this
      ensures Searched(r, visited) == SearchChoice(k, lists, old(visited), c, skip)
      ensures r.NoLoop? ==> Searching(stack) && Cho(c) in done
      ensures Later(old(done), old(times), done, times)
      ensures !r.NoLoop? ==> Closing(k, stack, r, Cho(c))
      ensures r.Part? && |r.loop| == 2 && skip.Some? ==> r.loop[0] != Sym(skip.value)
      decreases Unmarked(k, visited), 0
    {
      hide PropertyDep, Member, IsConstant, InSearch, IsLoop, SearchMembers, Unmarked, Searchable, MayCome, Closing, Later;
      Enter(Cho(c), if skip.Some? then Some(Sym(skip.value)) else None, stack);
      ghost var done1, times1 := done, times;
      r := CheckMembers(c, skip, stack);
      LaterTrans(old(done), old(times), done1, times1, done, times);
      if !r.NoLoop? {
        return;
      }
      if skip.Some? {
        LaterCame(done1, times1, done, times, Cho(c), Sym(skip.value));
      }
      ChoMayEnd(k, visited, done, times, stack + [Cho(c)], c, skip);
      ghost var done2, times2 := done, times;
      Leave(Cho(c), stack);
      LaterTrans(old(done), old(times), done2, times2, done, times);
    }

    // The symbols of a choice just entered
    method CheckMembers(c: nat, skip: Option<nat>, ghost stack: seq<Item>) returns (r: Found)
      requires Searchable(k, lists) && Searching(stack + [Cho(c)]) && Cho(c) !in stack && c < |k.choices|
      requires skip.Some? ==> Came(times, Cho(c), Sym(skip.value))
      modifies this
      ensures Searched(r, visited) == SearchMembers(k, lists, old(visited), c, skip, 0)
      ensures r.NoLoop? ==> Searching(stack + [Cho(c)]) && forall m <- k.ChoiceAt(c).syms :: Some(m) == skip || Sym(m) in done
      ensures Later(old(done), old(times), done, times)
      ensures !r.NoLoop? ==> Closing(k, stack, r, Cho(c))
      ensures r.Part? && |r.loop| == 2 && skip.Some? ==> r.loop[0] != Sym(skip.value)
      decreases Unmarked(k, visited), 2
    {
      ghost var inner := stack + [Cho(c)];
      var syms := k.ChoiceAt(c).syms;
      LaterSelf(done, times);
      hide PropertyDep, IsConstant, IsDefined, InSearch, IsLoop, SearchSym, SearchMembers, SearchOk;
      hide Unmarked, Searchable, MayCome, Closing, Later, MayClose;
      for i := 0 to |syms|
        invariant Searching(inner) && Later(old(done), old(times), done, times)
        invariant skip.Some? ==> Came(times, Cho(c), Sym(skip.value))
        invariant forall m <- syms[..i] :: Some(m) == skip || Sym(m) in done
        invariant Unmarked(k, visited) <= Unmarked(k, old(visited))
        invariant SearchMembers(k, lists, visited, c, skip, i) == SearchMembers(k, lists, old(visited), c, skip, 0)
      {
        MembersStep(k, lists, visited, c, skip, i);
        if Some(syms[i]) != skip {
          MayComeToSymbol(k, visited, done, times, inner, c, skip, i);
          ghost var done1, times1 := done, times;
          var found := CheckSym(syms[i], true, inner);
          LaterTrans(old(done), old(times), done1, times1, done, times);
          LaterDone(done1, times1, done, times);
          if skip.Some? {
            LaterCame(done1, times1, done, times, Cho(c), Sym(skip.value));
          }
          if found.Whole? {
            WholeCloses(k, inner, found, Sym(syms[i]), stack, Cho(c));
            return found;
          }
          if found.Part? {
            ClosingStep(k, stack, found, Sym(syms[i]), Cho(c));
            r := FoundDepLoop(found.loop, Cho(c), stack);
            return;
          }
        }
        assert syms[..i + 1] == syms[..i] + [syms[i]];
      }
      assert syms[..|syms|] == syms;
      MembersEnd(k, lists, visited, c, skip);
      r := NoLoop;
    }
  }

  // An item goes behind all the symbols that depend on it
  lemma OrderedMore(k: Kconf, done: seq<Item>, i: Item, t: Times)
    requires NoDup(done) && Ordered(k, done) && i !in done && MayEnd(k, t, i) && forall x <- t.fin :: x in done
    ensures NoDup(done + [i]) && Ordered(k, done + [i])
  {
    hide PropertyDep;
    var order := done + [i];
    forall j, a: Item {:trigger a in order[..j]} | 0 <= j < |order| && order[j].Sym? && a.Sym? && PropertyDep(k, a, order[j])
      ensures a in order[..j]
    {
      if j < |done| {
        assert PropertyDep(k, a, done[j]);
        assert a in done[..j] && done[..j] == order[..j];
      } else {
        assert order[..j] == done;
      }
    }
  }

  lemma MayComeToChoice(k: Kconf, t: Times, stack: seq<Item>, s: nat)
    requires Timed(k, t, stack) && k.SymAt(s).choice.Some? && forall a | PropertyDep(k, a, Sym(s)) :: a in t.fin
    ensures MayCome(k, t, Cho(k.SymAt(s).choice.value), Sym(s))
  {
    hide PropertyDep;
  }

  lemma MayComeToSymbol(k: Kconf, m: Marks, done: seq<Item>, t: Times, stack: seq<Item>, c: nat, skip: Option<nat>, i: nat)
    requires InSearch(k, m, done, t, stack) && i < |k.ChoiceAt(c).syms| && (skip.Some? ==> Came(t, Cho(c), Sym(skip.value)))
    requires forall x <- k.ChoiceAt(c).syms[..i] :: Some(x) == skip || Sym(x) in done
    ensures MayCome(k, t, Sym(k.ChoiceAt(c).syms[i]), Cho(c))
  {
    hide PropertyDep, Ordered, NoDup;
    assert PriorDone(k, t, c, i, t.clock);
  }

  lemma SymMayEnd(k: Kconf, m: Marks, done: seq<Item>, t: Times, stack: seq<Item>, s: nat)
    requires InSearch(k, m, done, t, stack) && forall a | PropertyDep(k, a, Sym(s)) :: a in done
    requires k.SymAt(s).choice.Some? ==> Sym(s) in t.via || Cho(k.SymAt(s).choice.value) in done
    ensures MayEnd(k, t, Sym(s))
  {
    hide PropertyDep, Ordered, NoDup, Timed;
  }

  lemma ChoMayEnd(k: Kconf, m: Marks, done: seq<Item>, t: Times, stack: seq<Item>, c: nat, skip: Option<nat>)
    requires InSearch(k, m, done, t, stack) && (skip.Some? ==> Came(t, Cho(c), Sym(skip.value)))
    requires forall x <- k.ChoiceAt(c).syms :: Some(x) == skip || Sym(x) in done
    ensures MayEnd(k, t, Cho(c))
  {
    hide PropertyDep, Ordered, NoDup, Timed;
  }

  /** Checks every defined symbol. Either a loop is reported, or `order` has every defined
      symbol behind all the symbols that depend on it, and `times` tells how all were visited. */
  method FindLoop(k: Kconf, lists: Lists) returns (r: Option<seq<Item>>, ghost order: seq<Item>, ghost times: Times)
    requires Searchable(k, lists)
    ensures r == FirstLoop(k, lists, map[], 0)
    ensures r.Some? ==> IsLoop(k, r.value)
    ensures r.None? ==> NoDup(order) && Ordered(k, order) && Timed(k, times, []) && forall i :: i in times.fin <==> i in order
    ensures r.None? ==> forall s | 0 <= s < |k.syms| && k.SymAt(s).defined :: Sym(s) in order
  {
    hide PropertyMentions, IsConstant, Ordered, NoDup, IsLoop, SymOk, ChoiceOk, Timed, SearchSym;
    var finder := new LoopFinder(k, lists);
    for s := 0 to |k.syms|
      invariant finder.k == k && finder.lists == lists && finder.Searching([])
      invariant forall x | 0 <= x < s && k.SymAt(x).defined :: Sym(x) in finder.done
      invariant FirstLoop(k, lists, finder.visited, s) == FirstLoop(k, lists, map[], 0)
    {
      if k.SymAt(s).defined {
        var found := finder.CheckSym(s, false, []);
        if found.Whole? {
          return Some(found.loop), [], finder.times;
        }
      }
    }
    r, order, times := None, finder.done, finder.times;
  }

  // The dependents of every item in some order
  method Listed(k: Kconf, deps: map<Item, set<Item>>) returns (lists: Lists)
    requires forall a, b :: a in DependentsOf(deps, b) <==> PropertyDep(k, a, b)
    ensures ListsOk(k, lists)
  {
    hide PropertyDep;
    lists := map[];
    var rest := deps.Keys;
    while rest != {}
      invariant rest <= deps.Keys && lists.Keys == deps.Keys - rest
      invariant forall b <- lists, a :: a in lists[b] <==> a in deps[b]
    {
      var b :| b in rest;
      var list := Enumerated(deps[b]);
      lists := lists[b := list];
      rest := rest - {b};
    }
  }

  method Enumerated(items: set<Item>) returns (list: seq<Item>)
    ensures forall a :: a in list <==> a in items
  {
    list := [];
    var rest := items;
    while rest != {}
      invariant rest <= items && forall a :: a in list <==> a in items - rest
    {
      var a :| a in rest;
      list, rest := list + [a], rest - {a};
    }
  }

  // ---------- no loop reported: no loop ----------

  // A loop of symbols only
  predicate SymLoop(k: Kconf, loop: seq<Item>) {
    && loop != [] && (forall i <- loop :: i.Sym?)
    && (forall j | 0 < j < |loop| :: PropertyDep(k, loop[j - 1], loop[j]))
    && PropertyDep(k, loop[|loop| - 1], loop[0])
  }

  // The place of an item in the order
  function Place(order: seq<Item>, i: Item): (p: nat)
    ensures p <= |order|
    ensures i in order ==> p < |order| && order[p] == i
  {
    if order == [] || order[0] == i then 0 else 1 + Place(order[1..], i)
  }

  lemma Earlier(k: Kconf, order: seq<Item>, a: Item, b: Item)
    requires NoDup(order) && Ordered(k, order)
    requires a.Sym? && b.Sym? && b in order && PropertyDep(k, a, b)
    ensures a in order && Place(order, a) < Place(order, b)
  {
    var p := Place(order, b);
    assert PropertyDep(k, a, order[p]) && a in order[..p];
  }

  // Along a chain of dependencies the places grow
  lemma {:induction false} PlacesGrow(k: Kconf, order: seq<Item>, loop: seq<Item>, j: nat)
    requires NoDup(order) && Ordered(k, order) && SymLoop(k, loop) && j < |loop|
    requires forall i <- loop :: i in order
    ensures Place(order, loop[0]) <= Place(order, loop[j])
  {
    if j > 0 {
      PlacesGrow(k, order, loop, j - 1);
      Earlier(k, order, loop[j - 1], loop[j]);
    }
  }

  /** When the search reports nothing, the symbols do not depend on each other in a loop. */
  lemma AcceptedHasNoLoop(k: Kconf, order: seq<Item>, loop: seq<Item>)
    requires NoDup(order) && Ordered(k, order)
    requires forall s | 0 <= s < |k.syms| && k.SymAt(s).defined :: Sym(s) in order
    ensures !SymLoop(k, loop)
  {
    hide PropertyMentions, IsConstant, Ordered, NoDup, Place;
    if SymLoop(k, loop) {
      forall i <- loop ensures i in order {
        var j :| 0 <= j < |loop| && loop[j] == i;
        assert PropertyDep(k, i, loop[if j == |loop| - 1 then 0 else j + 1]);
      }
      PlacesGrow(k, order, loop, |loop| - 1);
      Earlier(k, order, loop[|loop| - 1], loop[0]);
    }
  }

  // Without choices every loop is a loop of symbols
  lemma ChoiceFreeLoop(k: Kconf, loop: seq<Item>)
    requires Static(k) && k.choices == []
    ensures IsLoop(k, loop) ==> SymLoop(k, loop)
  {
    if IsLoop(k, loop) {
      forall j | 0 < j < |loop| ensures PropertyDep(k, loop[j - 1], loop[j]) {
        NoMembers(k, loop[j - 1], loop[j]);
      }
      NoMembers(k, loop[|loop| - 1], loop[0]);
      forall j | 0 <= j < |loop| ensures loop[j].Sym? {
        if j < |loop| - 1 {
          assert PropertyDep(k, loop[j], loop[j + 1]);
        }
      }
    }
  }

  lemma NoMembers(k: Kconf, a: Item, b: Item)
    requires Static(k) && k.choices == []
    ensures !Member(k, a, b)
  {
    if a.Cho? && b.Sym? && b.s < |k.syms| {
      assert SymOk(k, b.s);
    }
  }

  /** Without choices detection is exact: a loop is reported if and only if there is one. */
  method DetectLoop(k: Kconf, deps: map<Item, set<Item>>) returns (r: Option<seq<Item>>)
    requires Static(k) && k.choices == [] && forall a, b :: a in DependentsOf(deps, b) <==> PropertyDep(k, a, b)
    ensures r.Some? <==> exists loop :: SymLoop(k, loop)
    ensures r.Some? ==> SymLoop(k, r.value)
  {
    ghost var order, times;
    var lists := Listed(k, deps);
    r, order, times := FindLoop(k, lists);
    if r.Some? {
      ChoiceFreeLoop(k, r.value);
    } else {
      forall loop ensures !SymLoop(k, loop) {
        AcceptedHasNoLoop(k, order, loop);
      }
    }
  }
}
