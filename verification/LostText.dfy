/** Configurations that do not survive being saved: a string symbol set to a text of two
    lines, and a number with a space behind it. */
module LostText {
  import opened Expressions
  import opened Wrappers
  import opened Values
  import opened Dependencies
  import opened Engine
  import opened Evaluation
  import opened ConfigText
  import opened Loading
  import opened Saving
  import opened RoundTrips
  import Loops = DependencyLoops
  import Choices = ChoiceLoops
  import Evaluable = EvaluationOrder

  const NEVER := Atom(Sym(0))
  const ALWAYS := Atom(Sym(2))

  function Constant(name: string, value: Tri): SymDef {
    SymDef(name, Tristate, true, Some(value), false, [], [], [], NEVER, NEVER, NEVER, None, false)
  }

  function Sample(): Kconf {
    Kconf(
      [Constant("n", 0), Constant("m", 1), Constant("y", 2),
       SymDef("MODULES", Unknown, false, None, false, [], [], [], NEVER, NEVER, NEVER, None, false),
       SymDef("TEXT", String, false, None, true, [ALWAYS], [], [], NEVER, NEVER, ALWAYS, None, false),
       SymDef("NUMBER", Int, false, None, true, [ALWAYS], [], [], NEVER, NEVER, ALWAYS, None, false)],
      [], 0, 1, 2, 3,
      Numbers((t, _) => if t == "5" || t == "5 " then Some(5) else None, _ => "0", _ => "0x0"))
  }

  function Order(c: Cell): nat { match c case TriOf(_) => 0 case Vis(_) => 1 case StrOf(_) => 2 case _ => 3 }

  function TwoLines(): User { User(map[4 := UStr("a\nb")], map[], map[]) }

  function SpaceBehind(): User { User(map[5 := UStr("5 ")], map[], map[]) }

  // Nothing but prompts and constants is looked at
  lemma SampleMay(s: nat, c: Cell)
    requires s < 6 && c.Owner() == Sym(s)
    ensures MayOk(Sample(), Order, c)
  {
    var k := Sample();
    var d := k.SymAt(s);
    assert AllMay(k, []) == {};
    assert [ALWAYS][..0] == [];
    assert AllMay(k, [ALWAYS]) == {TriOf(2)};
    assert d.prompts == if s >= 4 then [ALWAYS] else [];
    assert d.defaults == [] && d.ranges == [] && DefaultConds([]) == [] && DefaultValues([]) == [] && RangeConds([]) == [];
    assert EMay(k, NEVER) == {TriOf(0)};
    assert TypeMay(k, s) <= {TriOf(3)} && ModeMay(k, s) == {};
    assert NamedStrs([]) == {} && BoundStrs([]) == {};
  }

  lemma SampleWellFormed()
    ensures WellFormed(Sample(), Order)
  {
    var k := Sample();
    forall s {:trigger SymOk(k, s)} | 0 <= s < |k.syms| ensures SymOk(k, s) {
    }
    forall c {:trigger MayOk(k, Order, c)} | HasCell(k, c) ensures MayOk(k, Order, c) {
      SampleMay(c.Owner().s, c);
    }
  }

  // The only prompts, and the only dependencies, are constant
  lemma SampleNeedsDeps()
    ensures PromptsNeedDeps(Sample(), Order)
  {
    var k := Sample();
    forall u, s | UserOk(k, u) && 0 <= s < |k.syms|
      ensures MaxOf(k, Solution(k, Order, u), k.SymAt(s).prompts) != 0 ==> Ev(k, Solution(k, Order, u), k.SymAt(s).directDep) != 0
    {
      OnePrompt(Solution(k, Order, u));
      assert k.SymAt(s).prompts == if s >= 4 then [ALWAYS] else [];
      hide MaxOf, Solution;
    }
  }

  lemma OnePrompt(env: Env)
    ensures MaxOf(Sample(), env, []) == 0 && MaxOf(Sample(), env, [ALWAYS]) == Ev(Sample(), env, ALWAYS)
  {
    assert [ALWAYS][..0] == [];
  }

  lemma SampleSimple()
    ensures Simple(Sample())
  {
    assert forall s | 0 <= s < 6 :: SimpleSym(Sample(), s);
  }

  lemma SampleContext(u: User)
    requires u == TwoLines() || u == SpaceBehind()
    ensures ContextOk(Sample(), Order, u) && NumbersPlain(Sample().num)
  {
    var k := Sample();
    SampleWellFormed();
    SampleNeedsDeps();
    SampleSimple();
    hide PromptsNeedDeps, WellFormed, Simple;
    assert UserOk(k, u);
    assert RStrip("0") == "0" && RStrip("0x0") == "0x0";
  }

  // Both symbols are always visible
  lemma SampleVisible(u: User, s: nat)
    requires ContextOk(Sample(), Order, u) && (s == 4 || s == 5)
    ensures var env := Solution(Sample(), Order, u);
            TriAt(env, Vis(Sym(s))) == 2 && StrAt(env, s) == StepStr(Sample(), u, env, s) && Ev(Sample(), env, NEVER) == 0
  {
    var k := Sample();
    ValueIsStep(k, Order, u, TriOf(0));
    ValueIsStep(k, Order, u, TriOf(2));
    ValueIsStep(k, Order, u, Vis(Sym(s)));
    ValueIsStep(k, Order, u, StrOf(s));
    OnePrompt(Solution(k, Order, u));
    hide ContextOk, StepStr, MaxOf;
  }

  // The values of the sample are what the user gave the symbols
  lemma SampleValues(u: User)
    requires u == TwoLines() || u == SpaceBehind()
    ensures var env := Solution(Sample(), Order, u);
            && TriAt(env, Vis(Sym(4))) == TriAt(env, Vis(Sym(5))) == 2 && Ev(Sample(), env, NEVER) == 0
            && StrAt(env, 4) == (if u == TwoLines() then "a\nb" else "")
            && StrAt(env, 5) == (if u == TwoLines() then "" else "5 ")
  {
    SampleContext(u);
    SampleVisible(u, 4);
    SampleVisible(u, 5);
    var env := Solution(Sample(), Order, u);
    hide ContextOk, Solution, StepStr;
    TextStep(u, env);
    NumberStep(u, env);
  }

  lemma TextStep(u: User, env: Env)
    requires (u == TwoLines() || u == SpaceBehind()) && TriAt(env, Vis(Sym(4))) == 2
    ensures StepStr(Sample(), u, env, 4) == if u == TwoLines() then "a\nb" else ""
  {
  }

  lemma NumberStep(u: User, env: Env)
    requires (u == TwoLines() || u == SpaceBehind()) && TriAt(env, Vis(Sym(5))) == 2
    ensures StepStr(Sample(), u, env, 5) == if u == TwoLines() then "" else "5 "
  {
  }

  /** The sample meets everything the round trips ask for, and loading what is saved gives
      the symbol another value. */
  lemma TwoLinesAreLost()
    ensures var (k, u) := (Sample(), TwoLines());
            && ContextOk(k, Order, u) && NumbersPlain(k.num) && HeaderOk(k, "")
            && !SameValues(k, Order, u, Load(k, u, Lines(MinText(k, u, Solution(k, Order, u), "")), true))
  {
    SampleContext(TwoLines());
    BlankInert(Sample());
    NotReloadable(TwoLines());
    MinConfigRoundTrip(Sample(), Order, TwoLines(), "");
    hide Load, Lines, MinText, SameValues, Solution, MinReloadable, ContextOk, NumbersPlain, InertText, Sample;
  }

  lemma NotReloadable(u: User)
    requires u == TwoLines() || u == SpaceBehind()
    ensures !MinReloadable(Sample(), u, Solution(Sample(), Order, u))
  {
    SampleValues(u);
    var k := Sample();
    var env := Solution(k, Order, u);
    var s := if u == TwoLines() then 4 else 5;
    assert "a\nb"[1] == '\n' && RStrip("5 ") == "5";
    hide Solution, MinSkips, StrAt;
    NotSkipped(u, env, s);
    assert !CleanText(k, s, StrAt(env, s)) && k.SymAt(s).defined;
  }

  lemma NotSkipped(u: User, env: Env, s: nat)
    requires (s == 4 || s == 5) && TriAt(env, Vis(Sym(s))) == 2 && Ev(Sample(), env, NEVER) == 0 && StrAt(env, s) != ""
    ensures !MinSkips(Sample(), u, env, s)
  {
    assert StrDefault(Sample(), env, s) == "";
    hide StrDefault;
  }

  const NODES := [Node(SymNode(4), []), Node(SymNode(5), [])]

  lemma SampleTree()
    ensures TreeOk(Sample(), NODES)
  {
    assert NODES[1..] == [Node(SymNode(5), [])] && NODES[1..][1..] == [];
    assert ForestSyms(NODES[1..]) == {5};
    assert ForestSyms(NODES) == {4, 5};
  }

  /** A number with a space behind it comes back from either file without it. */
  lemma SpaceIsLost()
    ensures var (k, u) := (Sample(), SpaceBehind());
            && ContextOk(k, Order, u) && NumbersPlain(k.num) && HeaderOk(k, "")
            && TreeOk(k, NODES) && OneLine(k, u, Solution(k, Order, u))
            && !SameValues(k, Order, u, Load(k, u, Lines(MinText(k, u, Solution(k, Order, u), "")), true))
            && !SameValues(k, Order, u, Load(k, u, Lines(FullText(k, u, Solution(k, Order, u), "", NODES)), true))
  {
    SampleContext(SpaceBehind());
    BlankInert(Sample());
    SampleTree();
    NotReloadable(SpaceBehind());
    NumberIsCut();
    MinConfigRoundTrip(Sample(), Order, SpaceBehind(), "");
    FullConfigRoundTrip(Sample(), Order, SpaceBehind(), "", NODES);
    hide Load, Lines, MinText, FullText, SameValues, Solution, MinReloadable, ContextOk, NumbersPlain, InertText, TreeOk, OneLine, FullLoses;
  }

  lemma NumberIsCut()
    ensures var (k, env) := (Sample(), Solution(Sample(), Order, SpaceBehind()));
            OneLine(k, SpaceBehind(), env) && k.SymAt(5).defined && FullLoses(k, env, 5)
  {
    SampleValues(SpaceBehind());
    ValuesOneLine(Solution(Sample(), Order, SpaceBehind()));
    var (k, env) := (Sample(), Solution(Sample(), Order, SpaceBehind()));
    assert RStrip("5 ") == "5";
    hide Solution, OneLine, RStrip, OverVisible, DefaultNumber;
    assert Usable(k, env, 5, "5");
  }

  lemma ValuesOneLine(env: Env)
    requires StrAt(env, 4) == "" && StrAt(env, 5) == "5 "
    ensures OneLine(Sample(), SpaceBehind(), env)
  {
    hide WrittenToConf, StrAt;
    forall s: nat | s < |Sample().syms| && Sample().SymAt(s).defined ensures !HasBreak(StrAt(env, s)) {
      assert s == 4 || s == 5;
    }
  }

  // Only the constants n and y are mentioned anywhere
  lemma SampleMentions(s: nat)
    requires s < 6
    ensures PropertyMentions(Sample(), Sym(s)) <= {Sym(0), Sym(2)}
  {
    var d := Sample().SymAt(s);
    assert d.defaults == [] && d.ranges == [];
    assert d.prompts == if s >= 4 then [ALWAYS] else [];
    assert Mentions(ALWAYS) == {Sym(2)} && AllMentions([]) == {} && AllMentions([ALWAYS]) <= {Sym(2)};
    assert DefaultValues([]) == [] && DefaultConds([]) == [] && RangeConds([]) == [];
  }

  lemma SampleStatic()
    ensures Loops.Static(Sample()) && Evaluable.ModulesFirst(Sample(), {Sym(3)})
  {
    SampleWellFormed();
    hide PropertyMentions;
    assert Recorded(Sample(), Sym(3)) == {};
    assert Evaluable.EarlyOk(Sample(), {Sym(3)}, Sym(3));
  }

  lemma SampleMentionsExist()
    ensures Evaluable.MentionsExist(Sample())
  {
    var k := Sample();
    forall a, i | Evaluable.Exists(k, a) && i in PropertyMentions(k, a) ensures Evaluable.Exists(k, i) {
      SampleMentions(a.s);
    }
    hide PropertyMentions;
  }

  lemma NothingNeeded(a: Item, b: Item)
    ensures !Loops.DependsOn(Sample(), a, b)
  {
    if a.Sym? && a.s < 6 {
      SampleMentions(a.s);
    }
    hide PropertyMentions;
    assert IsConstant(Sample(), Sym(0)) && IsConstant(Sample(), Sym(2));
  }

  lemma SampleLoopFree()
    ensures Evaluable.NoLoops(Sample())
  {
    forall loop ensures !Loops.IsLoop(Sample(), loop) {
      if loop != [] {
        NothingNeeded(loop[|loop| - 1], loop[0]);
      }
    }
  }

  /** The sample also meets what the order of evaluation is derived from. */
  lemma SampleAccepted()
    ensures var k := Sample();
            && Loops.Static(k) && Choices.ChoicesTidy(k) && Evaluable.MentionsExist(k) && Evaluable.ModulesFirst(k, {Sym(3)})
            && Evaluable.NoLoops(k) && !Choices.SomeLeadsOn(k)
  {
    SampleStatic();
    SampleMentionsExist();
    SampleLoopFree();
    Evaluable.WithoutChoices(Sample());
    hide *;
  }
}
