/** A tristate symbol that does not survive being saved. Its prompt depends on m, a symbol
    that is y selects it at m, and its default is y. */
module LostTristate {
  import opened Expressions
  import opened Wrappers
  import opened Values
  import opened Engine
  import opened Evaluation
  import opened ConfigText
  import opened Loading
  import opened Saving
  import opened RoundTrips
  import opened LostText

  const MODULAR := And(Atom(Sym(1)), Atom(Sym(3)))  // what m stands for in a condition
  const FIXED := [Default(ALWAYS, ALWAYS)]

  function Driver(): Kconf {
    Kconf(
      [Constant("n", 0), Constant("m", 1), Constant("y", 2),
       SymDef("MODULES", Bool, false, None, true, [], FIXED, [], NEVER, NEVER, ALWAYS, None, false),
       SymDef("DRIVER", Tristate, false, None, true, [MODULAR], FIXED, [], And(Atom(Sym(3)), MODULAR), NEVER, ALWAYS, None, false)],
      [], 0, 1, 2, 3,
      Numbers((_, _) => None, _ => "0", _ => "0x0"))
  }

  function DriverOrder(c: Cell): nat {
    match c
    case TriOf(s) => if s < 3 then 0 else if s == 3 then 2 else 4
    case Vis(i) => if i == Sym(3) then 1 else 3
    case StrOf(_) => 5
    case _ => 6
  }

  function Untouched(): User { User(map[], map[], map[]) }
  function AtM(): User { User(map[4 := UTri(1)], map[], map[]) }

  lemma DriverLists()
    ensures AllMay(Driver(), []) == {} && AllMay(Driver(), [ALWAYS]) == {TriOf(2)}
    ensures AllMay(Driver(), [MODULAR]) == {TriOf(1), TriOf(3)}
    ensures DefaultConds(FIXED) == DefaultValues(FIXED) == [ALWAYS] && DefaultConds([]) == DefaultValues([]) == []
    ensures RangeConds([]) == []
  {
    assert [ALWAYS][..0] == [] && [MODULAR][..0] == [];
    assert EMay(Driver(), MODULAR) == {TriOf(1)} + {TriOf(3)};
  }

  lemma DriverMay(s: nat, c: Cell)
    requires s < 5 && c.Owner() == Sym(s)
    ensures MayOk(Driver(), DriverOrder, c)
  {
    var k := Driver();
    var d := k.SymAt(s);
    DriverLists();
    assert d.prompts == if s == 4 then [MODULAR] else [];
    assert d.defaults == if s >= 3 then FIXED else [];
    assert d.ranges == [] && ModeMay(k, s) == {} && TypeMay(k, s) <= {TriOf(3)};
    assert EMay(k, NEVER) == {TriOf(0)} && EMay(k, ALWAYS) == {TriOf(2)};
    assert EMay(k, And(Atom(Sym(3)), MODULAR)) == {TriOf(3)} + ({TriOf(1)} + {TriOf(3)});
    assert d.weakRevDep == NEVER && (d.directDep == NEVER || d.directDep == ALWAYS);
    assert d.revDep == if s == 4 then And(Atom(Sym(3)), MODULAR) else NEVER;
    hide AllMay, EMay;
  }

  lemma DriverWellFormed()
    ensures WellFormed(Driver(), DriverOrder)
  {
    var k := Driver();
    forall s {:trigger SymOk(k, s)} | 0 <= s < |k.syms| ensures SymOk(k, s) {
    }
    forall c {:trigger MayOk(k, DriverOrder, c)} | HasCell(k, c) ensures MayOk(k, DriverOrder, c) {
      DriverMay(c.Owner().s, c);
    }
  }

  lemma DriverEquations(u: User)
    requires UserOk(Driver(), u)
    ensures var (k, env) := (Driver(), Solution(Driver(), DriverOrder, u));
            && WellFormed(k, DriverOrder)
            && TriAt(env, TriOf(0)) == 0 && TriAt(env, TriOf(1)) == 1 && TriAt(env, TriOf(2)) == 2
            && TriAt(env, Vis(Sym(3))) == SymVis(k, env, 3) && TriAt(env, TriOf(3)) == StepTri(k, u, env, 3)
            && TriAt(env, Vis(Sym(4))) == SymVis(k, env, 4) && TriAt(env, TriOf(4)) == StepTri(k, u, env, 4)
            && StrAt(env, 4) == TriStr(TriAt(env, TriOf(4)))
  {
    DriverWellFormed();
    var k := Driver();
    ValueIsStep(k, DriverOrder, u, TriOf(0));
    ValueIsStep(k, DriverOrder, u, TriOf(1));
    ValueIsStep(k, DriverOrder, u, TriOf(2));
    ValueIsStep(k, DriverOrder, u, Vis(Sym(3)));
    ValueIsStep(k, DriverOrder, u, TriOf(3));
    ValueIsStep(k, DriverOrder, u, Vis(Sym(4)));
    ValueIsStep(k, DriverOrder, u, TriOf(4));
    ValueIsStep(k, DriverOrder, u, StrOf(4));
    hide WellFormed, SymVis, FreeTri;
  }

  lemma DriverDefaults(env: Env)
    requires TriAt(env, TriOf(2)) == 2
    ensures MaxOf(Driver(), env, []) == 0 && MaxOf(Driver(), env, [MODULAR]) == Ev(Driver(), env, MODULAR)
    ensures DefaultTri(Driver(), env, 3) == DefaultTri(Driver(), env, 4) == 2
  {
    DriverLists();
    assert [MODULAR][..0] == [];
    assert Ev(Driver(), env, ALWAYS) == 2;
  }

  // MODULES is y, so DRIVER is visible at m and selected at m
  lemma DriverValues(u: User)
    requires UserOk(Driver(), u)
    ensures var (k, env) := (Driver(), Solution(Driver(), DriverOrder, u));
            && TriAt(env, TriOf(3)) == 2 && TriAt(env, Vis(Sym(4))) == 1 && TypeOf(k, env, 4) == Tristate
            && Ev(k, env, k.SymAt(4).revDep) == 1 && Ev(k, env, NEVER) == 0 && Ev(k, env, ALWAYS) == 2
            && DefaultTri(k, env, 4) == 2
            && TriAt(env, TriOf(4)) == (if UserTri(u, 4).Some? then 1 else 2)
  {
    DriverEquations(u);
    DriverDefaults(Solution(Driver(), DriverOrder, u));
    hide Solution, WellFormed, MaxOf, DefaultTri, UserOk;
  }

  lemma DriverNeedsDeps()
    ensures PromptsNeedDeps(Driver(), DriverOrder)
  {
    var k := Driver();
    forall u, s | UserOk(k, u) && 0 <= s < |k.syms|
      ensures MaxOf(k, Solution(k, DriverOrder, u), k.SymAt(s).prompts) != 0 ==> Ev(k, Solution(k, DriverOrder, u), k.SymAt(s).directDep) != 0
    {
      DriverValues(u);
      assert k.SymAt(s).prompts == if s == 4 then [MODULAR] else [];
      hide Solution;
    }
  }

  lemma DriverSimple()
    ensures Simple(Driver())
  {
    assert forall s | 0 <= s < 5 :: SimpleSym(Driver(), s);
  }

  lemma DriverContext(u: User)
    requires u == Untouched() || u == AtM()
    ensures ContextOk(Driver(), DriverOrder, u) && NumbersPlain(Driver().num)
  {
    var k := Driver();
    DriverWellFormed();
    DriverNeedsDeps();
    DriverSimple();
    hide PromptsNeedDeps, WellFormed, Simple;
    assert RStrip("0") == "0" && RStrip("0x0") == "0x0";
  }

  /** Set to m the symbol is held back: the minimal configuration leaves it out, and loading
      that gives it y. */
  lemma HeldBackIsLost()
    ensures var (k, u) := (Driver(), AtM());
            && ContextOk(k, DriverOrder, u) && NumbersPlain(k.num) && HeaderOk(k, "")
            && HeldBack(k, u, Solution(k, DriverOrder, u), 4)
            && !SameValues(k, DriverOrder, u, Load(k, u, Lines(MinText(k, u, Solution(k, DriverOrder, u), "")), true))
  {
    DriverContext(AtM());
    BlankInert(Driver());
    DriverIsHeld();
    MinConfigRoundTrip(Driver(), DriverOrder, AtM(), "");
    hide Load, Lines, MinText, SameValues, Solution, MinReloadable, ContextOk, NumbersPlain, InertText, HeldBack;
  }

  lemma DriverIsHeld()
    ensures var (k, u, env) := (Driver(), AtM(), Solution(Driver(), DriverOrder, AtM()));
            HeldBack(k, u, env, 4) && !MinReloadable(k, u, env)
  {
    var (k, u, env) := (Driver(), AtM(), Solution(Driver(), DriverOrder, AtM()));
    DriverValues(u);
    hide Solution, MinSkips, CleanText, DefaultTri;
    assert HeldBack(k, u, env, 4) && k.SymAt(4).defined;
  }

  const DRIVER_NODES := [Node(SymNode(3), []), Node(SymNode(4), [])]

  lemma DriverTree()
    ensures TreeOk(Driver(), DRIVER_NODES)
  {
    assert DRIVER_NODES[1..] == [Node(SymNode(4), [])] && DRIVER_NODES[1..][1..] == [];
    assert ForestSyms(DRIVER_NODES[1..]) == {4};
    assert ForestSyms(DRIVER_NODES) == {3, 4};
  }

  /** Untouched the symbol is y, above its visibility: the full configuration says y, and as
      a user value that is cut to m. */
  lemma OverVisibleIsLost()
    ensures var (k, u) := (Driver(), Untouched());
            && ContextOk(k, DriverOrder, u) && HeaderOk(k, "") && TreeOk(k, DRIVER_NODES)
            && OneLine(k, u, Solution(k, DriverOrder, u)) && OverVisible(k, Solution(k, DriverOrder, u), 4)
            && !SameValues(k, DriverOrder, u, Load(k, u, Lines(FullText(k, u, Solution(k, DriverOrder, u), "", DRIVER_NODES)), true))
  {
    DriverContext(Untouched());
    BlankInert(Driver());
    DriverTree();
    DriverIsOver();
    FullConfigRoundTrip(Driver(), DriverOrder, Untouched(), "", DRIVER_NODES);
    hide Load, Lines, FullText, SameValues, Solution, ContextOk, NumbersPlain, InertText, TreeOk, OneLine, FullLoses, OverVisible;
  }

  lemma DriverIsOver()
    ensures var (k, u, env) := (Driver(), Untouched(), Solution(Driver(), DriverOrder, Untouched()));
            k.SymAt(4).defined && OneLine(k, u, env) && OverVisible(k, env, 4) && FullLoses(k, env, 4)
  {
    DriverValues(Untouched());
    DriverOneLine();
    hide Solution, OneLine, DefaultTri, NumberCut;
  }

  lemma DriverOneLine()
    ensures OneLine(Driver(), Untouched(), Solution(Driver(), DriverOrder, Untouched()))
  {
    var (k, u) := (Driver(), Untouched());
    DriverWellFormed();
    forall s: nat | s < |k.syms| && k.SymAt(s).defined ensures !HasBreak(StrAt(Solution(k, DriverOrder, u), s)) {
      ValueIsStep(k, DriverOrder, u, StrOf(s));
    }
    hide Solution, WrittenToConf, WellFormed;
  }
}
