/** A symbol that offers a value it does not take: its prompt depends on m, a symbol that is
    y selects it at m and implies it. It offers m, and setting it to m makes it y. */
module HeldUp {
  import opened Expressions
  import opened Wrappers
  import opened Values
  import opened Engine
  import opened Evaluation
  import opened ChoiceModes
  import opened Settings
  import opened LostText
  import opened LostTristate

  // The driver of the other sample, also implied by MODULES
  function ImpliedDriver(): Kconf {
    var d := Driver();
    d.(syms := d.syms[4 := d.syms[4].(weakRevDep := Atom(Sym(3)))])
  }

  lemma ImpliedLists(k: Kconf)
    requires k == Driver() || k == ImpliedDriver()
    ensures AllMay(k, []) == {} && AllMay(k, [ALWAYS]) == {TriOf(2)}
    ensures AllMay(k, [MODULAR]) == {TriOf(1), TriOf(3)}
    ensures DefaultConds(FIXED) == DefaultValues(FIXED) == [ALWAYS] && DefaultConds([]) == DefaultValues([]) == []
    ensures RangeConds([]) == []
  {
    assert [ALWAYS][..0] == [] && [MODULAR][..0] == [];
    assert EMay(k, MODULAR) == {TriOf(1)} + {TriOf(3)};
  }

  lemma ImpliedMayOther(s: nat, c: Cell)
    requires s < 4 && c.Owner() == Sym(s)
    ensures MayOk(ImpliedDriver(), DriverOrder, c)
  {
    var k := ImpliedDriver();
    var d := k.SymAt(s);
    ImpliedLists(k);
    hide AllMay;
    assert d.prompts == [] && d.ranges == [] && d.defaults == if s == 3 then FIXED else [];
    assert ModeMay(k, s) == {} && TypeMay(k, s) <= {TriOf(3)};
    assert EMay(k, NEVER) == {TriOf(0)} && EMay(k, ALWAYS) == {TriOf(2)};
    assert d.revDep == d.weakRevDep == NEVER && (d.directDep == NEVER || d.directDep == ALWAYS);
    hide EMay;
  }

  lemma ImpliedMayDriver(c: Cell)
    requires c.Owner() == Sym(4)
    ensures MayOk(ImpliedDriver(), DriverOrder, c)
  {
    var k := ImpliedDriver();
    ImpliedLists(k);
    hide AllMay;
    assert EMay(k, ALWAYS) == {TriOf(2)} && EMay(k, Atom(Sym(3))) == {TriOf(3)};
    assert EMay(k, And(Atom(Sym(3)), MODULAR)) == {TriOf(3)} + ({TriOf(1)} + {TriOf(3)});
    hide EMay;
  }

  lemma ImpliedWellFormed()
    ensures WellFormed(ImpliedDriver(), DriverOrder)
  {
    var k := ImpliedDriver();
    forall s {:trigger SymOk(k, s)} | 0 <= s < |k.syms| ensures SymOk(k, s) {
    }
    forall c {:trigger MayOk(k, DriverOrder, c)} | HasCell(k, c) ensures MayOk(k, DriverOrder, c) {
      if c.Owner().s == 4 {
        ImpliedMayDriver(c);
      } else {
        ImpliedMayOther(c.Owner().s, c);
      }
    }
  }

  lemma ImpliedEquations()
    ensures var k := ImpliedDriver();
            var env := Solution(ImpliedDriver(), DriverOrder, Untouched());
            && WellFormed(k, DriverOrder)
            && TriAt(env, TriOf(0)) == 0 && TriAt(env, TriOf(1)) == 1 && TriAt(env, TriOf(2)) == 2
            && TriAt(env, Vis(Sym(3))) == SymVis(k, env, 3)
            && TriAt(env, TriOf(3)) == StepTri(k, Untouched(), env, 3)
            && TriAt(env, Vis(Sym(4))) == SymVis(k, env, 4)
  {
    var k := ImpliedDriver();
    var u := Untouched();
    ImpliedWellFormed();
    ValueIsStep(k, DriverOrder, u, TriOf(0));
    ValueIsStep(k, DriverOrder, u, TriOf(1));
    ValueIsStep(k, DriverOrder, u, TriOf(2));
    ValueIsStep(k, DriverOrder, u, Vis(Sym(3)));
    ValueIsStep(k, DriverOrder, u, TriOf(3));
    ValueIsStep(k, DriverOrder, u, Vis(Sym(4)));
    hide WellFormed, SymVis, FreeTri;
  }

  lemma ImpliedDefaults(env: Env)
    requires TriAt(env, TriOf(2)) == 2
    ensures MaxOf(ImpliedDriver(), env, []) == 0
    ensures MaxOf(ImpliedDriver(), env, [MODULAR]) == Ev(ImpliedDriver(), env, MODULAR)
    ensures DefaultTri(ImpliedDriver(), env, 3) == 2
  {
    ImpliedLists(ImpliedDriver());
    assert [MODULAR][..0] == [];
    assert Ev(ImpliedDriver(), env, ALWAYS) == 2;
  }

  // MODULES is y, so DRIVER is visible at m, selected at m and implied at y
  lemma ImpliedValues()
    ensures var k := ImpliedDriver();
            var env := Solution(ImpliedDriver(), DriverOrder, Untouched());
            WellFormed(k, DriverOrder) && VisAt(k, DriverOrder, Untouched(), 4) == 1 && HeldUp(k, env, 4)
  {
    ImpliedEquations();
    ImpliedDefaults(Solution(ImpliedDriver(), DriverOrder, Untouched()));
    hide Solution, WellFormed, MaxOf, DefaultTri;
  }

  /** The untouched driver offers m, and is y after it is set to m. */
  lemma OffersInVain()
    ensures var k := ImpliedDriver();
            var u := Untouched();
            && WellFormed(k, DriverOrder) && UserOk(k, u)
            && 1 in Offered(k, DriverOrder, u, Sym(4))
            && TriVal(k, DriverOrder, Assign(k, u, 4, UTri(1)), 4) == 2
  {
    var k := ImpliedDriver();
    var u := Untouched();
    var env := Solution(k, DriverOrder, u);
    ImpliedValues();
    OfferedIs(k, DriverOrder, u, 4);
    FreeTriAfter(k, DriverOrder, u, 4, 1);
    StepAfter(k, env, u, 4, 1);
  }
}
