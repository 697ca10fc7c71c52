/** What setting a symbol achieves: a choice's symbol set to y is the one the choice
    selects, by hand or from a line of a .config file, and a bool or tristate symbol takes
    exactly the values it offers. */
module Settings {
  import opened Expressions
  import opened Wrappers
  import opened Values
  import opened Evaluation
  import opened ConfigText
  import opened Engine
  import opened Loading
  import opened ChoiceModes

  // ---------- the symbol of a choice that is set to y ----------

  /** In y mode the symbol the user has selected is y if it is visible, and all the others
      are n. */
  lemma SelectedIsY(k: Kconf, rk: Cell -> nat, u: User, c: nat, s: nat)
    requires WellFormed(k, rk) && UserOk(k, u) && ProperChoice(k, c) && s in k.ChoiceAt(c).syms
    requires c in u.selections && u.selections[c] == s
    requires Mode(k, rk, u, c) == 2 && VisAt(k, rk, u, s) != 0
    ensures TriVal(k, rk, u, s) == 2
    ensures forall t <- k.ChoiceAt(c).syms :: t != s ==> TriVal(k, rk, u, t) == 0
  {
    SelectionInYMode(k, rk, u, c);
    forall t | t in k.ChoiceAt(c).syms
      ensures TriVal(k, rk, u, t) == if t == s then 2 else 0
    {
      MemberEquations(k, rk, u, c, t);
      MemberVisibility(k, rk, u, c, t);
    }
  }

  // The user's y makes a choice with a fully visible prompt be in y mode
  lemma YModeTaken(k: Kconf, rk: Cell -> nat, u: User, c: nat)
    requires WellFormed(k, rk) && UserOk(k, u) && c < |k.choices|
    requires c in u.modes && u.modes[c] == 2
    ensures Mode(k, rk, u, c) == 2 <==> TriAt(Solution(k, rk, u), Vis(Cho(c))) == 2
  {
    ValueIsStep(k, rk, u, ModeOf(c));
    ValueIsStep(k, rk, u, Vis(Cho(c)));
  }

  /** Setting a symbol of a choice to y always succeeds and selects it: when the choice is
      in y mode and the symbol is visible, it is y and every other one is n. */
  method ChooseSymbol(conf: Kconfig, c: nat, s: nat, value: UserValue) returns (ok: bool)
    requires conf.Valid() && ProperChoice(conf.k, c) && s in conf.k.ChoiceAt(c).syms && s < |conf.syms|
    requires value == UTri(2) || value == UStr("y")
    modifies conf`cache, conf`user, conf`touched, conf.syms, conf.choices
    ensures conf.Valid() && ok
    ensures Mode(conf.k, conf.rk, conf.user, c) == 2 && VisAt(conf.k, conf.rk, conf.user, s) != 0 ==>
              && TriVal(conf.k, conf.rk, conf.user, s) == 2
              && forall t <- conf.k.ChoiceAt(c).syms :: t != s ==> TriVal(conf.k, conf.rk, conf.user, t) == 0
  {
    ok := conf.SetValue(s, value);
    if Mode(conf.k, conf.rk, conf.user, c) == 2 && VisAt(conf.k, conf.rk, conf.user, s) != 0 {
      SelectedIsY(conf.k, conf.rk, conf.user, c, s);
    }
  }

  // The line leaves the mode and the selection of the choice as they are
  predicate SparesChoice(k: Kconf, c: nat, line: string) {
    match Parse(line)
    case Set(name, val) =>
      Lookup(k, name).Some? && k.SymAt(Lookup(k, name).value).choice == Some(c) && val != [] ==>
        val[0] != 'm' && val[0] != 'y'
    case _ => true
  }

  ghost predicate Chosen(st: LoadState, c: nat, s: nat) {
    && c in st.user.modes && st.user.modes[c] == 2
    && c in st.user.selections && st.user.selections[c] == s
    && Cho(c) in st.touched
  }

  /** A line setting a symbol of a choice to y sets the mode of the choice to y and selects
      the symbol; nothing else changes. */
  lemma LineChooses(k: Kconf, st: LoadState, c: nat, s: nat)
    requires ProperChoice(k, c) && s in k.ChoiceAt(c).syms && PlainName(k.SymAt(s).name)
    requires Lookup(k, k.SymAt(s).name) == Some(s)
    ensures var u := st.user;
            ApplyLine(k, st, PREFIX + k.SymAt(s).name + "=y") ==
            LoadState(User(u.values[s := UTri(2)], u.modes[c := 2], u.selections[c := s]),
                      st.touched + {Sym(s), Cho(c)})
  {
    var name := k.SymAt(s).name;
    ParseSet(name, "y");
    assert RStrip("y") == "y";
    assert PREFIX + name + "=" + "y" == PREFIX + name + "=y";
    hide Parse, Lookup;
    YChooses(k, st, c, s);
  }

  lemma YChooses(k: Kconf, st: LoadState, c: nat, s: nat)
    requires ProperChoice(k, c) && s in k.ChoiceAt(c).syms
    ensures var u := st.user;
            ApplySet(k, st, s, "y") ==
            LoadState(User(u.values[s := UTri(2)], u.modes[c := 2], u.selections[c := s]),
                      st.touched + {Sym(s), Cho(c)})
  {
    assert k.SymAt(s).choice == Some(c) && BoolTri(k.SymAt(s).orig);
    assert LeadingTri("y") == Some(2);
    var st1 := ApplyMode(k, st, c, 2);
    assert st1.touched == st.touched + {Cho(c)};
    assert ApplyValue(k, st1, s, UTri(2)).touched == st.touched + {Cho(c)} + {Sym(s), Cho(c)};
    assert st.touched + {Cho(c)} + {Sym(s), Cho(c)} == st.touched + {Sym(s), Cho(c)};
  }

  lemma StaysChosen(k: Kconf, st: LoadState, c: nat, s: nat, line: string)
    requires Chosen(st, c, s) && ProperChoice(k, c) && SparesChoice(k, c, line)
    ensures Chosen(ApplyLine(k, st, line), c, s)
  {
    hide Parse, LiteralContents, Unescape, Lookup;
  }

  lemma {:induction false} LinesKeepChosen(k: Kconf, st: LoadState, c: nat, s: nat, lines: seq<string>)
    requires Chosen(st, c, s) && ProperChoice(k, c) && forall line <- lines :: SparesChoice(k, c, line)
    ensures Chosen(ApplyLines(k, st, lines), c, s)
    decreases |lines|
  {
    hide SparesChoice, ApplyLine;
    if lines != [] {
      StaysChosen(k, st, c, s, lines[0]);
      LinesKeepChosen(k, ApplyLine(k, st, lines[0]), c, s, lines[1..]);
    }
  }

  /** The last line of a file that sets a symbol of a choice to m or y decides: if it sets
      `s` to y, then after loading the choice is in y mode when it is fully visible, and `s`
      is then y if visible and every other symbol of the choice n. */
  lemma LastYWins(k: Kconf, rk: Cell -> nat, u: User, c: nat, s: nat,
                  before: seq<string>, after: seq<string>, replace: bool)
    requires WellFormed(k, rk) && ProperChoice(k, c) && s in k.ChoiceAt(c).syms
    requires PlainName(k.SymAt(s).name) && Lookup(k, k.SymAt(s).name) == Some(s)
    requires forall line <- after :: SparesChoice(k, c, line)
    requires UserOk(k, Load(k, u, before + [PREFIX + k.SymAt(s).name + "=y"] + after, replace))
    ensures var v := Load(k, u, before + [PREFIX + k.SymAt(s).name + "=y"] + after, replace);
            && (Mode(k, rk, v, c) == 2 <==> TriAt(Solution(k, rk, v), Vis(Cho(c))) == 2)
            && (Mode(k, rk, v, c) == 2 && VisAt(k, rk, v, s) != 0 ==>
                  && TriVal(k, rk, v, s) == 2
                  && forall t <- k.ChoiceAt(c).syms :: t != s ==> TriVal(k, rk, v, t) == 0)
  {
    var line := PREFIX + k.SymAt(s).name + "=y";
    var v := Load(k, u, before + [line] + after, replace);
    ChosenByLines(k, LoadState(u, {}), c, s, before, after);
    assert c in v.modes && v.modes[c] == 2 && c in v.selections && v.selections[c] == s;
    hide Load;
    YModeTaken(k, rk, v, c);
    if Mode(k, rk, v, c) == 2 && VisAt(k, rk, v, s) != 0 {
      SelectedIsY(k, rk, v, c, s);
    }
  }

  lemma ChosenByLines(k: Kconf, st: LoadState, c: nat, s: nat, before: seq<string>, after: seq<string>)
    requires ProperChoice(k, c) && s in k.ChoiceAt(c).syms
    requires PlainName(k.SymAt(s).name) && Lookup(k, k.SymAt(s).name) == Some(s)
    requires forall line <- after :: SparesChoice(k, c, line)
    ensures Chosen(ApplyLines(k, st, before + [PREFIX + k.SymAt(s).name + "=y"] + after), c, s)
  {
    var line := PREFIX + k.SymAt(s).name + "=y";
    var st1 := ApplyLines(k, st, before);
    LineChooses(k, st1, c, s);
    hide ApplyLine, SparesChoice, Lookup;
    ApplyLinesConcat(k, st, before + [line], after);
    ApplyLinesConcat(k, st, before, [line]);
    assert ApplyLines(k, st1, [line]) == ApplyLines(k, ApplyLine(k, st1, line), [line][1..]);
    assert [line][1..] == [];
    LinesKeepChosen(k, ApplyLine(k, st1, line), c, s, after);
  }

  /** Loads a file whose last line about a choice sets its symbol `s` to y. */
  method LoadChoosing(conf: Kconfig, c: nat, s: nat, before: seq<string>, after: seq<string>, replace: bool)
    requires conf.Valid() && ProperChoice(conf.k, c) && s in conf.k.ChoiceAt(c).syms
    requires PlainName(conf.k.SymAt(s).name) && Lookup(conf.k, conf.k.SymAt(s).name) == Some(s)
    requires forall line <- after :: SparesChoice(conf.k, c, line)
    modifies conf, conf.syms, conf.choices
    ensures conf.Valid()
    ensures TriAt(Solution(conf.k, conf.rk, conf.user), Vis(Cho(c))) == 2 && VisAt(conf.k, conf.rk, conf.user, s) != 0 ==>
              && TriVal(conf.k, conf.rk, conf.user, s) == 2
              && forall t <- conf.k.ChoiceAt(c).syms :: t != s ==> TriVal(conf.k, conf.rk, conf.user, t) == 0
  {
    hide Load, SparesChoice, ProperChoice, Lookup;
    LoadConfig(conf, before + [PREFIX + conf.k.SymAt(s).name + "=y"] + after, replace);
    LastYWins(conf.k, conf.rk, old(conf.user), c, s, before, after, replace);
  }

  // ---------- the values a symbol offers are the ones it takes ----------

  // The values that can be given to an item with effect
  function Offered(k: Kconf, rk: Cell -> nat, u: User, i: Item): seq<Tri> {
    match Value(k, rk, u, Assignable(i)) case VSet(vals) => vals case _ => []
  }

  /** The values `s` offers are exactly the ones it has after they are set. */
  ghost predicate OffersWhatItTakes(k: Kconf, rk: Cell -> nat, u: User, s: nat) {
    forall t: Tri | ValidFor(k, s, UTri(t)) ::
      t in Offered(k, rk, u, Sym(s)) <==> TriVal(k, rk, Assign(k, u, s, UTri(t)), s) == t
  }

  // Only the attributes of `s` and the selection of its choice look at what the user sets
  lemma SettingStep(k: Kconf, u: User, s: nat, t: Tri, env: Env, d: Cell)
    requires d != TriOf(s) && d != StrOf(s)
    requires k.SymAt(s).choice.Some? && t == 2 ==> d != SelOf(k.SymAt(s).choice.value)
    ensures Step(k, u, env, d) == Step(k, Assign(k, u, s, UTri(t)), env, d)
  {
    hide SymVis, ChoiceVis, DefaultStr, DefaultTri, ActiveRange, Ev, SelectionFromDefaults;
    hide SymAssignable, ChoiceAssignable, Implied, Promoted, DefaultNumber;
    match d
    case TriOf(x) => assert UserTri(Assign(k, u, s, UTri(t)), x) == UserTri(u, x);
    case StrOf(x) => assert UserStr(Assign(k, u, s, UTri(t)), x) == UserStr(u, x);
    case _ =>
  }

  // Giving `s` a value changes nothing that `s` looks at
  lemma SettingLeavesBelow(k: Kconf, rk: Cell -> nat, u: User, s: nat, t: Tri, c: Cell)
    requires WellFormed(k, rk) && UserOk(k, u) && s < |k.syms| && ValidFor(k, s, UTri(t)) && HasCell(k, c)
    requires rk(c) < if k.SymAt(s).choice.Some? && t == 2 then rk(SelOf(k.SymAt(s).choice.value)) else rk(TriOf(s))
    ensures UserOk(k, Assign(k, u, s, UTri(t)))
    ensures Value(k, rk, Assign(k, u, s, UTri(t)), c) == Value(k, rk, u, c)
  {
    assert SymOk(k, s) && MayOk(k, rk, TriOf(s)) && MayOk(k, rk, StrOf(s));
    var v := Assign(k, u, s, UTri(t));
    var ch := k.SymAt(s).choice;
    var top := if ch.Some? && t == 2 then rk(SelOf(ch.value)) else rk(TriOf(s));
    assert rk(TriOf(s)) >= top && rk(StrOf(s)) >= top;
    hide Step, May, Value;
    forall env: Env, d: Cell | HasCell(k, d) && rk(d) < top
      ensures Step(k, u, env, d) == Step(k, v, env, d)
    {
      SettingStep(k, u, s, t, env, d);
    }
    SameBelow(k, rk, u, v, top, c);
  }

  // The value of a symbol outside choices after it is set, by the attributes before
  lemma FreeTriAfter(k: Kconf, rk: Cell -> nat, u: User, s: nat, t: Tri)
    requires WellFormed(k, rk) && UserOk(k, u) && s < |k.syms| && ValidFor(k, s, UTri(t))
    requires k.SymAt(s).choice.None?
    ensures UserOk(k, Assign(k, u, s, UTri(t)))
    ensures TriVal(k, rk, Assign(k, u, s, UTri(t)), s) ==
            StepTri(k, Assign(k, u, s, UTri(t)), Solution(k, rk, u), s)
  {
    assert SymOk(k, s) && MayOk(k, rk, TriOf(s));
    var v := Assign(k, u, s, UTri(t));
    assert UserOk(k, v);
    hide Assign, Step, UserOk, May, StepTri;
    forall d | d in May(k, TriOf(s))
      ensures Value(k, rk, v, d) == Value(k, rk, u, d)
    {
      SettingLeavesBelow(k, rk, u, s, t, d);
    }
    StepOverSame(k, rk, u, v, TriOf(s));
    StepIs(k, v, Solution(k, rk, u), s);
  }

  lemma StepIs(k: Kconf, u: User, env: Env, s: nat)
    ensures Step(k, u, env, TriOf(s)) == VTri(StepTri(k, u, env, s))
  {
  }

  lemma OfferedIs(k: Kconf, rk: Cell -> nat, u: User, s: nat)
    requires WellFormed(k, rk) && UserOk(k, u) && s < |k.syms|
    ensures Offered(k, rk, u, Sym(s)) == SymAssignable(k, Solution(k, rk, u), s)
    ensures VisAt(k, rk, u, s) == SymVis(k, Solution(k, rk, u), s)
  {
    hide SymVis, SymAssignable;
    ValueIsStep(k, rk, u, Assignable(Sym(s)));
    ValueIsStep(k, rk, u, Vis(Sym(s)));
  }

  // Selected to m, implied to y and with a prompt that is only m
  ghost predicate HeldUp(k: Kconf, env: Env, s: nat) {
    TriAt(env, Vis(Sym(s))) == 1 && Ev(k, env, k.SymAt(s).revDep) == 1 && Ev(k, env, k.SymAt(s).weakRevDep) == 2
  }

  // One step of a visible symbol outside choices that has been set
  lemma StepAfter(k: Kconf, env: Env, u: User, s: nat, t: Tri)
    requires BoolTri(k.SymAt(s).orig) && k.SymAt(s).choice.None? && k.SymAt(s).fixed.None?
    requires TriAt(env, Vis(Sym(s))) != 0
    ensures var val := Max(Ev(k, env, k.SymAt(s).revDep), Min(t, TriAt(env, Vis(Sym(s)))));
            StepTri(k, Assign(k, u, s, UTri(t)), env, s) ==
            if val == 1 && (TypeOf(k, env, s) == Bool || Ev(k, env, k.SymAt(s).weakRevDep) == 2) then 2 else val
  {
    hide Ev, TypeOf, DefaultTri, Implied;
  }

  lemma TakesWhatItOffers(k: Kconf, env: Env, u: User, s: nat, t: Tri)
    requires BoolTri(k.SymAt(s).orig) && k.SymAt(s).choice.None? && k.SymAt(s).fixed.None?
    requires TriAt(env, Vis(Sym(s))) != 0
    requires TriAt(env, Vis(Sym(s))) == 1 ==> TypeOf(k, env, s) == Tristate
    ensures (t in SymAssignable(k, env, s) <==> StepTri(k, Assign(k, u, s, UTri(t)), env, s) == t) <==>
            !(HeldUp(k, env, s) && t != 0)
  {
    StepAfter(k, env, u, s, t);
    hide Ev, TypeOf, StepTri, Assign;
  }

  /** A visible symbol outside choices offers exactly the values it takes, unless it is
      selected to m, implied to y and its prompt only m: then it offers m but becomes y. */
  lemma OfferedExactly(k: Kconf, rk: Cell -> nat, u: User, s: nat)
    requires WellFormed(k, rk) && UserOk(k, u) && s < |k.syms| && BoolTri(k.SymAt(s).orig)
    requires k.SymAt(s).choice.None? && VisAt(k, rk, u, s) != 0
    ensures OffersWhatItTakes(k, rk, u, s) <==> !HeldUp(k, Solution(k, rk, u), s)
  {
    var env := Solution(k, rk, u);
    OfferedIs(k, rk, u, s);
    assert k.SymAt(s).fixed.None? by { assert SymOk(k, s); }
    VisibleType(k, env, s);
    hide SymVis, Value, StepTri, Ev, Assign, SymAssignable, SymOk, TypeOf, Offered;
    forall t: Tri | ValidFor(k, s, UTri(t))
      ensures (t in Offered(k, rk, u, Sym(s)) <==> TriVal(k, rk, Assign(k, u, s, UTri(t)), s) == t) <==>
              !(HeldUp(k, env, s) && t != 0)
    {
      FreeTriAfter(k, rk, u, s, t);
      TakesWhatItOffers(k, env, u, s, t);
    }
    if HeldUp(k, env, s) {
      assert ValidFor(k, s, UTri(1));
    }
  }

  lemma VisibleType(k: Kconf, env: Env, s: nat)
    requires BoolTri(k.SymAt(s).orig) && k.SymAt(s).choice.None?
    ensures SymVis(k, env, s) == 1 ==> TypeOf(k, env, s) == Tristate && k.SymAt(s).orig == Tristate
  {
    hide MaxOf;
  }

  // The value of a choice's symbol after n or m is stored for it
  lemma MemberAfter(k: Kconf, rk: Cell -> nat, u: User, c: nat, s: nat, t: Tri)
    requires WellFormed(k, rk) && UserOk(k, u) && ProperChoice(k, c) && s in k.ChoiceAt(c).syms
    requires ValidFor(k, s, UTri(t))
    ensures UserOk(k, Assign(k, u, s, UTri(t)))
    ensures VisAt(k, rk, Assign(k, u, s, UTri(t)), s) == VisAt(k, rk, u, s)
    ensures Mode(k, rk, Assign(k, u, s, UTri(t)), c) == Mode(k, rk, u, c)
    ensures t != 2 ==> SelAt(Solution(k, rk, Assign(k, u, s, UTri(t))), c) == SelAt(Solution(k, rk, u), c)
  {
    assert SymOk(k, s) && ChoiceOk(k, c);
    assert MayOk(k, rk, TriOf(s)) && MayOk(k, rk, SelOf(c));
    assert Vis(Sym(s)) in May(k, SelOf(c)) && SelOf(c) in May(k, TriOf(s)) && ModeOf(c) in May(k, SelOf(c));
    hide Assign, May, UserOk, WellFormed, MayOk;
    SettingLeavesBelow(k, rk, u, s, t, Vis(Sym(s)));
    SettingLeavesBelow(k, rk, u, s, t, ModeOf(c));
    if t != 2 {
      SettingLeavesBelow(k, rk, u, s, t, SelOf(c));
    }
  }

  /** A fully visible symbol of a choice offers y alone: y makes it y, and n and m leave it
      as it is. */
  lemma MemberOffersY(k: Kconf, rk: Cell -> nat, u: User, c: nat, s: nat, t: Tri)
    requires WellFormed(k, rk) && UserOk(k, u) && ProperChoice(k, c) && s in k.ChoiceAt(c).syms
    requires VisAt(k, rk, u, s) == 2 && ValidFor(k, s, UTri(t))
    ensures Offered(k, rk, u, Sym(s)) == [2]
    ensures TriVal(k, rk, Assign(k, u, s, UTri(t)), s) == if t == 2 then 2 else TriVal(k, rk, u, s)
  {
    var v := Assign(k, u, s, UTri(t));
    assert ChoiceOk(k, c);
    OfferedIs(k, rk, u, s);
    MemberVisibility(k, rk, u, c, s);
    MemberAfter(k, rk, u, c, s, t);
    if t == 2 {
      SelectedIsY(k, rk, v, c, s);
    } else {
      MemberEquations(k, rk, u, c, s);
      MemberEquations(k, rk, v, c, s);
    }
  }

  // The value of a symbol of a choice that is in m mode after it is set
  lemma MemberUpToM(k: Kconf, rk: Cell -> nat, u: User, c: nat, s: nat, t: Tri)
    requires WellFormed(k, rk) && UserOk(k, u) && ProperChoice(k, c) && s in k.ChoiceAt(c).syms
    requires VisAt(k, rk, u, s) == 1 && ValidFor(k, s, UTri(t))
    ensures TriVal(k, rk, Assign(k, u, s, UTri(t)), s) == Min(t, 1)
  {
    MemberAfter(k, rk, u, c, s, t);
    hide WellFormed, UserOk, SymVis, StepMode;
    MemberEquations(k, rk, Assign(k, u, s, UTri(t)), c, s);
  }

  // Only a tristate symbol of a choice can be visible to m
  lemma UpToMIsTristate(k: Kconf, rk: Cell -> nat, u: User, c: nat, s: nat)
    requires WellFormed(k, rk) && UserOk(k, u) && ProperChoice(k, c) && s in k.ChoiceAt(c).syms
    requires VisAt(k, rk, u, s) == 1
    ensures k.SymAt(s).orig == Tristate
  {
    MemberEquations(k, rk, u, c, s);
    hide WellFormed, UserOk, StepMode, MaxOf;
  }

  /** A symbol of a choice in m mode takes n as n and both m and y as m. It offers exactly
      what it takes when nothing selects it and it is not implied to y. */
  lemma MemberOffersUpToM(k: Kconf, rk: Cell -> nat, u: User, c: nat, s: nat)
    requires WellFormed(k, rk) && UserOk(k, u) && ProperChoice(k, c) && s in k.ChoiceAt(c).syms
    requires VisAt(k, rk, u, s) == 1
    ensures forall t: Tri | ValidFor(k, s, UTri(t)) :: TriVal(k, rk, Assign(k, u, s, UTri(t)), s) == Min(t, 1)
    ensures var env := Solution(k, rk, u);
            OffersWhatItTakes(k, rk, u, s) <==>
            Ev(k, env, k.SymAt(s).revDep) == 0 && Ev(k, env, k.SymAt(s).weakRevDep) != 2
  {
    assert ChoiceOk(k, c);
    OfferedIs(k, rk, u, s);
    UpToMIsTristate(k, rk, u, c, s);
    forall t: Tri | ValidFor(k, s, UTri(t))
      ensures TriVal(k, rk, Assign(k, u, s, UTri(t)), s) == Min(t, 1)
    {
      MemberUpToM(k, rk, u, c, s, t);
    }
    hide WellFormed, UserOk, Value, SymVis, Assign, Ev, Offered;
    assert ValidFor(k, s, UTri(0)) && ValidFor(k, s, UTri(1)) && ValidFor(k, s, UTri(2));
  }

  // Setting the mode of a choice changes nothing that the mode looks at
  lemma ModeAfter(k: Kconf, rk: Cell -> nat, u: User, c: nat, t: Tri)
    requires WellFormed(k, rk) && UserOk(k, u) && c < |k.choices|
    ensures UserOk(k, u.(modes := u.modes[c := t]))
    ensures Mode(k, rk, u.(modes := u.modes[c := t]), c) ==
            StepMode(k, u.(modes := u.modes[c := t]), Solution(k, rk, u), c)
  {
    var v := u.(modes := u.modes[c := t]);
    assert MayOk(k, rk, ModeOf(c)) && UserOk(k, v);
    hide UserOk, May, Value;
    forall d | d in May(k, ModeOf(c))
      ensures Value(k, rk, v, d) == Value(k, rk, u, d)
    {
      forall env: Env, x: Cell | HasCell(k, x) && rk(x) < rk(ModeOf(c))
        ensures Step(k, u, env, x) == Step(k, v, env, x)
      {
        ModeStep(k, u, c, t, env, x);
      }
      SameBelow(k, rk, u, v, rk(ModeOf(c)), d);
    }
    StepOverSame(k, rk, u, v, ModeOf(c));
  }

  lemma ModeStep(k: Kconf, u: User, c: nat, t: Tri, env: Env, x: Cell)
    requires x != ModeOf(c)
    ensures Step(k, u, env, x) == Step(k, u.(modes := u.modes[c := t]), env, x)
  {
    hide SymVis, ChoiceVis, DefaultStr, DefaultTri, ActiveRange, Ev, SelectionFromDefaults;
    hide SymAssignable, ChoiceAssignable, Implied, Promoted, DefaultNumber;
  }

  /** A visible choice offers exactly the modes it takes. */
  lemma ChoiceOffersExactly(k: Kconf, rk: Cell -> nat, u: User, c: nat, t: Tri)
    requires WellFormed(k, rk) && UserOk(k, u) && c < |k.choices| && BoolTri(k.ChoiceAt(c).orig)
    requires TriAt(Solution(k, rk, u), Vis(Cho(c))) != 0
    ensures t in Offered(k, rk, u, Cho(c)) <==> Mode(k, rk, u.(modes := u.modes[c := t]), c) == t
  {
    ValueIsStep(k, rk, u, Assignable(Cho(c)));
    ValueIsStep(k, rk, u, Vis(Cho(c)));
    ModeAfter(k, rk, u, c, t);
    hide MaxOf, Value, WellFormed, UserOk;
  }

  /** Sets a symbol to one of the values it offers; that is then its value. */
  method SetOffered(conf: Kconfig, s: nat, t: Tri) returns (offered: bool, after: Tri)
    requires conf.Valid() && s < |conf.syms| && s < |conf.k.syms| && conf.k.SymAt(s).choice.None?
    modifies conf`cache, conf`user, conf`touched, conf`flags, conf.syms, conf.choices
    ensures conf.Valid() && offered == (t in Offered(conf.k, conf.rk, old(conf.user), Sym(s)))
    ensures !offered ==> conf.user == old(conf.user)
    ensures offered ==> s in conf.user.values && conf.user.values[s] == UTri(t)
    ensures offered && !HeldUp(conf.k, Solution(conf.k, conf.rk, old(conf.user)), s) ==> after == t
  {
    hide Kconfig.DependentsOk, Kconfig.Synced, SymAssignable, SymVis, ValidFor, Converted, HeldUp;
    var vals := conf.SymAssignableValue(s);
    OfferedIs(conf.k, conf.rk, conf.user, s);
    offered := t in vals;
    after := 0;
    if offered {
      OffersValid(conf.k, conf.rk, conf.user, s, t);
      ghost var u := conf.user;
      var _ := conf.SetValue(s, UTri(t));
      after := conf.TriValue(s);
      OfferedExactly(conf.k, conf.rk, u, s);
    }
  }

  lemma OffersValid(k: Kconf, rk: Cell -> nat, u: User, s: nat, t: Tri)
    requires WellFormed(k, rk) && UserOk(k, u) && s < |k.syms|
    requires t in Offered(k, rk, u, Sym(s))
    ensures BoolTri(k.SymAt(s).orig) && VisAt(k, rk, u, s) != 0
    ensures k.SymAt(s).choice.None? ==> ValidFor(k, s, UTri(t)) && Converted(k, s, UTri(t)) == UTri(t)
  {
    OfferedIs(k, rk, u, s);
    if k.SymAt(s).choice.None? {
      VisibleType(k, Solution(k, rk, u), s);
    }
  }

  // ---------- what is refused, and what a file leaves out ----------

  lemma ReadsNatural(num: Numbers, text: string)
    ensures (exists x: nat :: num.parse(text, 16) == Some(x)) <==>
            num.parse(text, 16).Some? && num.parse(text, 16).value >= 0
  {
    if num.parse(text, 16).Some? && num.parse(text, 16).value >= 0 {
      var x: nat := num.parse(text, 16).value;
      assert num.parse(text, 16) == Some(x);
    }
  }

  /** The values that can be set, by type: n, m and y for a tristate, as numbers or text; n
      and y for a bool; any text for a string; decimal numbers for an int; hexadecimal ones
      that are not negative for a hex; none without a type. */
  lemma AcceptedValues(k: Kconf, s: nat, v: UserValue)
    ensures ValidFor(k, s, Converted(k, s, v)) <==>
            match k.SymAt(s).orig
            case Unknown => false
            case Bool => v in [UTri(0), UTri(2), UStr("n"), UStr("y")]
            case Tristate => v.UTri? || v.str in ["n", "m", "y"]
            case String => v.UStr?
            case Int => v.UStr? && k.num.parse(v.str, 10).Some?
            case Hex => v.UStr? && exists x: nat :: k.num.parse(v.str, 16) == Some(x)
    ensures BoolTri(k.SymAt(s).orig) ==> forall t: Tri :: Converted(k, s, UStr(TriStr(t))) == UTri(t)
  {
    assert "n" != "m" && "m" != "y" && "n" != "y" by {
      assert "n"[0] != "m"[0] && "m"[0] != "y"[0] && "n"[0] != "y"[0];
    }
    if v.UStr? {
      ReadsNatural(k.num, v.str);
    }
  }

  // A value in a file that its symbol does not take
  ghost predicate Refused(k: Kconf, s: nat, val: string) {
    match k.SymAt(s).orig
    case Unknown => true
    case Bool => val == [] || val[0] !in "ny"
    case Tristate => val == [] || val[0] !in "nmy"
    case String => LiteralContents(val) == None
    case Int => k.num.parse(val, 10) == None
    case Hex => !exists x: nat :: k.num.parse(val, 16) == Some(x)
  }

  /** A line changes nothing if it sets no symbol that is defined, or to a value the symbol
      does not take, or unsets one that is neither bool nor tristate. */
  lemma RefusedLines(k: Kconf, st: LoadState, line: string)
    requires match Parse(line)
             case Nothing => true
             case Set(name, val) => Lookup(k, name).None? || Refused(k, Lookup(k, name).value, val)
             case Unset(name) => Lookup(k, name).None? || !BoolTri(k.SymAt(Lookup(k, name).value).orig)
    ensures ApplyLine(k, st, line) == st
  {
    hide Parse, Lookup, LiteralContents, Unescape, Assign;
    if Parse(line).Set? && Lookup(k, Parse(line).name).Some? {
      var (s, val) := (Lookup(k, Parse(line).name).value, Parse(line).val);
      assert val != [] ==> (val[0] in "ny" <==> val[0] == 'n' || val[0] == 'y');
      assert val != [] ==> (val[0] in "nmy" <==> val[0] == 'n' || val[0] == 'm' || val[0] == 'y');
      ReadsNatural(k.num, val);
    }
  }

  // The line does not name the symbol
  predicate SparesSymbol(k: Kconf, s: nat, line: string) {
    match Parse(line)
    case Set(name, _) => Lookup(k, name) != Some(s)
    case Unset(name) => Lookup(k, name) != Some(s)
    case Nothing => true
  }

  lemma SparedSymbol(k: Kconf, st: LoadState, s: nat, line: string)
    requires SparesSymbol(k, s, line)
    ensures var st1 := ApplyLine(k, st, line);
            && (Sym(s) in st1.touched <==> Sym(s) in st.touched)
            && (s in st1.user.values <==> s in st.user.values)
            && (s in st.user.values ==> st1.user.values[s] == st.user.values[s])
  {
    hide Parse, Lookup, LiteralContents, Unescape, Converted, ValidFor;
  }

  lemma {:induction false} SparedByLines(k: Kconf, st: LoadState, s: nat, lines: seq<string>)
    requires forall line <- lines :: SparesSymbol(k, s, line)
    ensures var st1 := ApplyLines(k, st, lines);
            && (Sym(s) in st1.touched <==> Sym(s) in st.touched)
            && (s in st1.user.values <==> s in st.user.values)
            && (s in st.user.values ==> st1.user.values[s] == st.user.values[s])
    decreases |lines|
  {
    hide SparesSymbol, ApplyLine;
    if lines != [] {
      SparedSymbol(k, st, s, lines[0]);
      SparedByLines(k, ApplyLine(k, st, lines[0]), s, lines[1..]);
    }
  }

  /** A defined symbol that no line of a file names has no user value after a loading that
      replaces the configuration, and the one it had after a loading that does not. */
  lemma UnnamedSymbol(k: Kconf, u: User, s: nat, lines: seq<string>)
    requires k.SymAt(s).defined && forall line <- lines :: SparesSymbol(k, s, line)
    ensures s !in Load(k, u, lines, true).values
    ensures s in Load(k, u, lines, false).values <==> s in u.values
    ensures s in u.values ==> Load(k, u, lines, false).values[s] == u.values[s]
  {
    SparedByLines(k, LoadState(u, {}), s, lines);
    hide ApplyLines, SparesSymbol;
  }

  // What is known of a choice before and after lines that leave it alone
  ghost predicate SameChoice(a: LoadState, b: LoadState, c: nat) {
    && (Cho(c) in a.touched <==> Cho(c) in b.touched)
    && (c in a.user.modes <==> c in b.user.modes) && (c in a.user.modes ==> a.user.modes[c] == b.user.modes[c])
    && (c in a.user.selections <==> c in b.user.selections)
    && (c in a.user.selections ==> a.user.selections[c] == b.user.selections[c])
  }

  lemma SparedChoice(k: Kconf, st: LoadState, c: nat, line: string)
    requires SparesChoice(k, c, line)
    ensures SameChoice(st, ApplyLine(k, st, line), c)
  {
    hide Parse, Lookup, LiteralContents, Unescape;
  }

  lemma {:induction false} ChoiceSparedByLines(k: Kconf, st: LoadState, c: nat, lines: seq<string>)
    requires forall line <- lines :: SparesChoice(k, c, line)
    ensures SameChoice(st, ApplyLines(k, st, lines), c)
    decreases |lines|
  {
    hide SparesChoice, ApplyLine;
    if lines != [] {
      SparedChoice(k, st, c, lines[0]);
      ChoiceSparedByLines(k, ApplyLine(k, st, lines[0]), c, lines[1..]);
    }
  }

  /** A choice none of whose symbols a file sets to m or y loses mode and selection when the
      file replaces the configuration, and keeps them otherwise. */
  lemma UnnamedChoice(k: Kconf, u: User, c: nat, lines: seq<string>)
    requires forall line <- lines :: SparesChoice(k, c, line)
    ensures var v := Load(k, u, lines, true); c !in v.modes && c !in v.selections
    ensures SameChoice(LoadState(u, {}), LoadState(Load(k, u, lines, false), {}), c)
  {
    ChoiceSparedByLines(k, LoadState(u, {}), c, lines);
    hide ApplyLines, SparesChoice;
  }
}
