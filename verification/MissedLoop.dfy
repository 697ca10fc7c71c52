/** A dependency loop through a choice that the search does not find: it comes to the choice
    from a symbol that the prompt of the choice mentions, before it has seen the choice's own
    symbols, the first of which depends on the second. */
module MissedLoop {
  import opened Expressions
  import opened Wrappers
  import opened Values
  import opened Evaluation
  import opened Dependencies
  import opened Engine
  import opened Sequences
  import opened DependencyLoops
  import opened ChoiceLoops
  import opened LostText

  function Plain(name: string, prompt: Expr, choice: Option<nat>): SymDef {
    SymDef(name, Bool, false, None, true, [prompt], [], [], NEVER, NEVER, prompt, choice, false)
  }

  /** The symbol P, and a choice with the prompt condition P of the symbols A, which depends
      on B, and B. */
  function Hidden(): Kconf {
    Kconf(
      [Constant("n", 0), Constant("m", 1), Constant("y", 2),
       SymDef("MODULES", Unknown, false, None, false, [], [], [], NEVER, NEVER, NEVER, None, false),
       Plain("P", ALWAYS, None),
       Plain("A", And(Atom(Sym(6)), Atom(Cho(0))), Some(0)),
       Plain("B", Atom(Cho(0)), Some(0))],
      [ChoiceDef(Bool, false, [Atom(Sym(4))], [], [5, 6])],
      0, 1, 2, 3, Numbers((_, _) => None, _ => "0", _ => "0x0"))
  }

  const DEPENDENTS: Lists := map[Sym(4) := [Cho(0)], Sym(6) := [Sym(5)], Cho(0) := [Sym(5), Sym(6)]]

  const LOOP := [Sym(5), Sym(6), Cho(0)]

  lemma OneMention(e: Expr)
    ensures AllMentions([e]) == Mentions(e) && AllMentions([]) == {}
  {
    assert [e][0] == e;
  }

  // What is mentioned where, but for the constants n and y
  lemma HiddenMentions(a: Item)
    ensures var ms := PropertyMentions(Hidden(), a) - {Sym(0), Sym(2)};
            ms == if a == Sym(5) then {Sym(6), Cho(0)} else if a == Sym(6) then {Cho(0)} else if a == Cho(0) then {Sym(4)} else {}
  {
    var k := Hidden();
    assert Mentions(NEVER) == {Sym(0)} && Mentions(ALWAYS) == {Sym(2)} && Mentions(Atom(Cho(0))) == {Cho(0)};
    assert Mentions(And(Atom(Sym(6)), Atom(Cho(0)))) == {Sym(6), Cho(0)};
    assert DefaultValues([]) == DefaultConds([]) == [] && RangeConds([]) == [] && ChoiceConds([]) == [];
    OneMention(ALWAYS);
    OneMention(Atom(Cho(0)));
    OneMention(Atom(Sym(4)));
    OneMention(And(Atom(Sym(6)), Atom(Cho(0))));
    assert RangeMentions([]) == {};
    if a.Sym? {
      assert k.SymAt(a.s).defaults == [] && k.SymAt(a.s).ranges == [];
    }
  }

  lemma HiddenDeps(a: Item, b: Item)
    ensures PropertyDep(Hidden(), a, b) <==>
            (a == Cho(0) && b == Sym(4)) || (a == Sym(5) && b == Sym(6)) || (b == Cho(0) && (a == Sym(5) || a == Sym(6)))
  {
    HiddenMentions(a);
    hide PropertyMentions;
    var k := Hidden();
    assert IsConstant(k, Sym(0)) && IsConstant(k, Sym(2));
    assert b in PropertyMentions(k, a) <==> b in PropertyMentions(k, a) - {Sym(0), Sym(2)} || (b in PropertyMentions(k, a) && (b == Sym(0) || b == Sym(2)));
    assert !IsConstant(k, Sym(4)) && !IsConstant(k, Sym(6)) && !IsConstant(k, Cho(0));
  }

  lemma HiddenSearchable()
    ensures Searchable(Hidden(), DEPENDENTS)
  {
    var k := Hidden();
    forall s {:trigger SymOk(k, s)} | 0 <= s < |k.syms| ensures SymOk(k, s) {
    }
    forall a, b ensures a in InOrder(DEPENDENTS, b) <==> PropertyDep(k, a, b) {
      HiddenDeps(a, b);
    }
    hide PropertyDep;
  }

  /** A depends on B, B on the choice, and the choice on A. */
  lemma HiddenLoop()
    ensures IsLoop(Hidden(), LOOP) && LeadsOn(Hidden(), 0, [Sym(5), Sym(6)])
  {
    var k := Hidden();
    HiddenDeps(Sym(5), Sym(6));
    hide PropertyDep;
    assert k.ChoiceAt(0).syms[0] == 5 && k.ChoiceAt(0).syms[1] == 6;
    assert Member(k, Cho(0), Sym(5)) && Member(k, Sym(6), Cho(0));
  }

  lemma HiddenTidy()
    ensures ChoicesTidy(Hidden())
  {
    var k := Hidden();
    forall a, c | PropertyDep(k, a, Cho(c)) ensures Inside(k, a, c) {
      HiddenDeps(a, Cho(c));
      assert LeadsIn(k, a, c, [a]);
    }
    hide PropertyDep, Inside;
    forall c: nat, s | s in k.ChoiceAt(c).syms ensures k.SymAt(s).choice == Some(c) {
      assert c == 0 && (s == 5 || s == 6);
    }
  }

  /** No order of evaluation exists: the visibility of A looks at the value of B, that at the
      selection of the choice, and that at the visibility of A. */
  lemma HiddenNotWellFormed(rk: Cell -> nat)
    ensures !WellFormed(Hidden(), rk)
  {
    var k := Hidden();
    assert [And(Atom(Sym(6)), Atom(Cho(0)))][..0] == [] && 5 in k.ChoiceAt(0).syms;
    assert TriOf(6) in EMay(k, And(Atom(Sym(6)), Atom(Cho(0))));
    assert TriOf(6) in May(k, Vis(Sym(5))) && SelOf(0) in May(k, TriOf(6)) && Vis(Sym(5)) in May(k, SelOf(0));
    assert !(MayOk(k, rk, Vis(Sym(5))) && MayOk(k, rk, TriOf(6)) && MayOk(k, rk, SelOf(0)));
    assert HasCell(k, Vis(Sym(5))) && HasCell(k, TriOf(6)) && HasCell(k, SelOf(0));
  }

  // From P the search comes to the choice, and from there to A and then to B, which has A behind it
  lemma FromP(m: Marks)
    requires m == map[]
    ensures Searchable(Hidden(), DEPENDENTS)
    ensures var r := SearchSym(Hidden(), DEPENDENTS, m, 4, false);
            r.found.NoLoop? && MarkOf(r.marks, Sym(5)) == MarkOf(r.marks, Sym(6)) == 2
  {
    HiddenSearchable();
    var k := Hidden();
    hide Searchable, ListsOk, Static;
    var m1 := m[Sym(4) := 1];
    var m2 := m1[Cho(0) := 1];
    var m3 := m2[Sym(5) := 1][Sym(5) := 2];
    var m4 := m3[Sym(6) := 1];
    assert SearchDependents(k, DEPENDENTS, m2[Sym(5) := 1], 5, 0) == Searched(NoLoop, m2[Sym(5) := 1]);
    assert SearchSym(k, DEPENDENTS, m2, 5, true) == Searched(NoLoop, m3);
    assert SearchSym(k, DEPENDENTS, m4, 5, false) == Searched(NoLoop, m4);
    assert SearchItem(k, DEPENDENTS, m4, Sym(5)) == Searched(NoLoop, m4);
    assert SearchDependents(k, DEPENDENTS, m4, 6, 1) == Searched(NoLoop, m4);
    assert SearchDependents(k, DEPENDENTS, m4, 6, 0) == Searched(NoLoop, m4);
    var m5 := m4[Sym(6) := 2];
    assert SearchSym(k, DEPENDENTS, m3, 6, true) == Searched(NoLoop, m5);
    assert SearchMembers(k, DEPENDENTS, m5, 0, None, 2) == Searched(NoLoop, m5);
    assert SearchMembers(k, DEPENDENTS, m3, 0, None, 1) == Searched(NoLoop, m5);
    assert SearchMembers(k, DEPENDENTS, m2, 0, None, 0) == Searched(NoLoop, m5);
    var m6 := m5[Cho(0) := 2];
    assert SearchChoice(k, DEPENDENTS, m1, 0, None) == Searched(NoLoop, m6);
    assert SearchItem(k, DEPENDENTS, m1, Cho(0)) == Searched(NoLoop, m6);
    assert SearchDependents(k, DEPENDENTS, m6, 4, 1) == Searched(NoLoop, m6);
    assert SearchDependents(k, DEPENDENTS, m1, 4, 0) == Searched(NoLoop, m6);
  }

  lemma NothingFirst()
    ensures Searchable(Hidden(), DEPENDENTS) && FirstLoop(Hidden(), DEPENDENTS, map[], 0) == None
  {
    FromP(map[]);
    var k := Hidden();
    var m := SearchSym(k, DEPENDENTS, map[], 4, false).marks;
    hide Searchable, ListsOk, Static;
    assert FirstLoop(k, DEPENDENTS, m, 7) == None;
    assert FirstLoop(k, DEPENDENTS, m, 6) == None;
    assert FirstLoop(k, DEPENDENTS, m, 5) == None;
    assert FirstLoop(k, DEPENDENTS, map[], 4) == None;
    assert FirstLoop(k, DEPENDENTS, map[], 3) == None;
    assert FirstLoop(k, DEPENDENTS, map[], 2) == None;
    assert FirstLoop(k, DEPENDENTS, map[], 1) == None;
  }

  /** The search reports nothing, though there is a loop and nothing could be evaluated. */
  method LoopIsMissed() returns (r: Option<seq<Item>>)
    ensures r == None && Searchable(Hidden(), DEPENDENTS) && ChoicesTidy(Hidden()) && IsLoop(Hidden(), LOOP)
    ensures forall rk: Cell -> nat :: !WellFormed(Hidden(), rk)
  {
    NothingFirst();
    HiddenLoop();
    HiddenTidy();
    forall rk: Cell -> nat ensures !WellFormed(Hidden(), rk) {
      HiddenNotWellFormed(rk);
    }
    hide *;
    ghost var order, times;
    r, order, times := FindLoop(Hidden(), DEPENDENTS);
  }
}
