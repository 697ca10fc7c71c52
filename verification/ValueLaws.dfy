/** What the values of a configuration mean, in terms of what the user wrote: relations
    compare numbers or texts, selects and implies force a minimum, a number stays within
    its range, a choice falls back to its defaults, and what is set for an invisible symbol
    has no effect anywhere. */
module ValueLaws {
  import opened Expressions
  import opened Wrappers
  import opened Values
  import opened Evaluation
  import opened Engine
  import opened ChoiceModes
  import opened Saving

  // ---------- relations ----------

  // In an expression a symbol stands for its value and a choice for its mode
  lemma AtomsMean(k: Kconf, env: Env, e: Expr, s: nat, c: nat)
    ensures Ev(k, env, Atom(Sym(s))) == TriAt(env, TriOf(s)) && Ev(k, env, Atom(Cho(c))) == TriAt(env, ModeOf(c))
    ensures Ev(k, env, And(e, Atom(Cho(c)))) == Min(Ev(k, env, e), TriAt(env, ModeOf(c)))
    ensures Ev(k, env, Or(e, Atom(Sym(s)))) == Max(Ev(k, env, e), TriAt(env, TriOf(s)))
    ensures Ev(k, env, Not(e)) == 2 - Ev(k, env, e)
  {
  }

  /** One text comes before another if it is a proper beginning of it, or has the smaller
      character where they first differ. */
  lemma {:induction false} LexLessMeans(a: string, b: string)
    ensures LexLess(a, b) <==>
            exists i: nat :: i <= |a| && i < |b| && a[..i] == b[..i] && (i == |a| || a[i] < b[i])
  {
    if a != [] && b != [] && a[0] == b[0] {
      LexLessMeans(a[1..], b[1..]);
      if LexLess(a[1..], b[1..]) {
        var i: nat :| i <= |a[1..]| && i < |b[1..]| && a[1..][..i] == b[1..][..i] && (i == |a[1..]| || a[1..][i] < b[1..][i]);
        assert a[..i + 1] == [a[0]] + a[1..][..i] && b[..i + 1] == [b[0]] + b[1..][..i];
      }
      if i: nat :| i <= |a| && i < |b| && a[..i] == b[..i] && (i == |a| || a[i] < b[i]) {
        assert a[1..][..i - 1] == a[..i][1..] && b[1..][..i - 1] == b[..i][1..];
      }
    } else if a == [] {
      assert b != [] ==> a[..0] == b[..0];
    } else if b != [] {
      assert a[..0] == b[..0];
      assert forall i: nat | 0 < i <= |a| && i <= |b| && a[..i] == b[..i] :: a[..i][0] == b[..i][0];
    }
  }

  lemma {:induction false} LexTrichotomy(a: string, b: string)
    ensures !(LexLess(a, b) && LexLess(b, a))
    ensures a == b <==> !LexLess(a, b) && !LexLess(b, a)
  {
    if a != [] && b != [] && a[0] == b[0] {
      LexTrichotomy(a[1..], b[1..]);
      assert a == [a[0]] + a[1..] && b == [b[0]] + b[1..];
    }
  }

  // The number an operand of a relation stands for
  predicate StandsFor(k: Kconf, env: Env, s: nat, x: int) {
    match k.SymAt(s).orig
    case Bool => TriAt(env, TriOf(s)) == x
    case Tristate => TriAt(env, TriOf(s)) == x
    case Int => k.num.parse(StrAt(env, s), 10) == Some(x)
    case Hex => k.num.parse(StrAt(env, s), 16) == Some(x)
    case _ => k.num.parse(StrAt(env, s), 0) == Some(x)
  }

  // What a relation says about two integers
  predicate Related(op: RelOp, a: int, b: int) {
    match op
    case Equal => a == b
    case Unequal => a != b
    case Less => a < b
    case LessEqual => a <= b
    case Greater => a > b
    case GreaterEqual => a >= b
  }

  // What a relation says about two texts
  predicate TextsRelated(op: RelOp, a: string, b: string) {
    match op
    case Equal => a == b
    case Unequal => a != b
    case Less => LexLess(a, b)
    case LessEqual => LexLess(a, b) || a == b
    case Greater => LexLess(b, a)
    case GreaterEqual => LexLess(b, a) || a == b
  }

  lemma NumStandsFor(k: Kconf, env: Env, s: nat)
    ensures Num(k, env, s).Some? ==> StandsFor(k, env, s, Num(k, env, s).value)
    ensures forall x :: StandsFor(k, env, s, x) ==> Num(k, env, s) == Some(x)
  {
  }

  /** A relation compares its operands as numbers if both stand for one, and unless both are
      string symbols. */
  lemma NumbersCompared(k: Kconf, env: Env, op: RelOp, l: nat, r: nat, a: int, b: int)
    requires !(k.SymAt(l).orig == String && k.SymAt(r).orig == String)
    requires StandsFor(k, env, l, a) && StandsFor(k, env, r, b)
    ensures Ev(k, env, Rel(op, l, r)) == if Related(op, a, b) then 2 else 0
  {
    NumStandsFor(k, env, l);
    NumStandsFor(k, env, r);
  }

  /** Otherwise it compares their texts. */
  lemma TextsCompared(k: Kconf, env: Env, op: RelOp, l: nat, r: nat)
    requires (k.SymAt(l).orig == String && k.SymAt(r).orig == String)
             || (forall a :: !StandsFor(k, env, l, a)) || (forall b :: !StandsFor(k, env, r, b))
    ensures Ev(k, env, Rel(op, l, r)) == if TextsRelated(op, StrAt(env, l), StrAt(env, r)) then 2 else 0
  {
    LexTrichotomy(StrAt(env, l), StrAt(env, r));
    NumStandsFor(k, env, l);
    NumStandsFor(k, env, r);
    assert Compare(k, env, l, r) == StrCmp(StrAt(env, l), StrAt(env, r));
    hide Compare, Num;
  }

  // ---------- numbers stay within their range ----------

  /** Reading a written number gives the number back, and the empty text is no number. */
  ghost predicate NumbersRead(num: Numbers) {
    && (forall x: int :: num.parse(num.dec(x), 10) == Some(x) && num.parse(num.hex(x), 16) == Some(x))
    && num.parse("", 10) == None && num.parse("", 16) == None
  }

  // The `h`-th range of `s` is the first whose condition is not n
  ghost predicate FirstRange(k: Kconf, env: Env, s: nat, h: nat) {
    var rs := k.SymAt(s).ranges;
    h < |rs| && Ev(k, env, rs[h].cond) != 0 && forall j | 0 <= j < h :: Ev(k, env, rs[j].cond) == 0
  }

  ghost predicate NoRange(k: Kconf, env: Env, s: nat) {
    forall r <- k.SymAt(s).ranges :: Ev(k, env, r.cond) == 0
  }

  // What a text counts as when it is compared with a range
  function Reading(k: Kconf, orig: SymType, text: string): int {
    match k.num.parse(text, if orig == Int then 10 else 16) case Some(x) => x case None => 0
  }

  lemma {:induction false} FirstHitMeans(k: Kconf, env: Env, es: seq<Expr>, i: nat)
    requires i <= |es|
    ensures var h := FirstHit(k, env, es, i);
            (forall j | i <= j < h :: Ev(k, env, es[j]) == 0) && (h < |es| ==> Ev(k, env, es[h]) != 0)
    decreases |es| - i
  {
    if i < |es| && Ev(k, env, es[i]) == 0 {
      FirstHitMeans(k, env, es, i + 1);
    }
  }

  lemma RangeInForce(k: Kconf, env: Env, s: nat, h: nat)
    requires Numeric(k.SymAt(s).orig) && FirstRange(k, env, s, h)
    ensures var d := k.SymAt(s);
            var r := k.SymAt(s).ranges[h];
            ActiveRange(k, env, s) == Some((Reading(k, d.orig, StrAt(env, r.low)), Reading(k, d.orig, StrAt(env, r.high))))
  {
    var rs := k.SymAt(s).ranges;
    FirstHitMeans(k, env, RangeConds(rs), 0);
    var g := FirstHit(k, env, RangeConds(rs), 0);
    assert g == h by {
      assert g < |rs| ==> RangeConds(rs)[g] == rs[g].cond;
      assert RangeConds(rs)[h] == rs[h].cond;
    }
  }

  /** An int or hex symbol with a range in force has a value within it (the lower bound, if
      the bounds are the wrong way round and the default is below it; else the upper). */
  lemma NumberInRange(k: Kconf, rk: Cell -> nat, u: User, s: nat, h: nat)
    requires WellFormed(k, rk) && UserOk(k, u) && s < |k.syms| && Numeric(k.SymAt(s).orig) && NumbersRead(k.num)
    requires FirstRange(k, Solution(k, rk, u), s, h)
    ensures var env := Solution(k, rk, u);
            var d := k.SymAt(s);
            var low := Reading(k, d.orig, StrAt(env, d.ranges[h].low));
            var high := Reading(k, d.orig, StrAt(env, d.ranges[h].high));
            var x := Reading(k, d.orig, StrAt(env, s));
            if low <= high then low <= x <= high else x == low || x == high
  {
    StrIsNumber(k, rk, u, s);
    var env := Solution(k, rk, u);
    RangeInForce(k, env, s, h);
    hide Solution, Value, WellFormed, UserOk, FirstRange, DefaultStr, ActiveRange;
  }

  // The `h`-th default of `s` is the first whose condition is not n
  ghost predicate FirstDefault(k: Kconf, env: Env, s: nat, h: nat) {
    var ds := k.SymAt(s).defaults;
    h < |ds| && Ev(k, env, ds[h].cond) != 0 && forall j | 0 <= j < h :: Ev(k, env, ds[j].cond) == 0
  }

  ghost predicate NoDefault(k: Kconf, env: Env, s: nat) {
    forall d <- k.SymAt(s).defaults :: Ev(k, env, d.cond) == 0
  }

  lemma DefaultInForce(k: Kconf, env: Env, s: nat, h: nat)
    requires FirstDefault(k, env, s, h)
    ensures var d := k.SymAt(s).defaults[h];
            && FirstHit(k, env, DefaultConds(k.SymAt(s).defaults), 0) == h
            && DefaultTri(k, env, s) == Min(Ev(k, env, d.value), Ev(k, env, d.cond))
            && forall x :: d.value == Atom(Sym(x)) ==> DefaultStr(k, env, s) == Some(StrAt(env, x))
  {
    var ds := k.SymAt(s).defaults;
    FirstHitMeans(k, env, DefaultConds(ds), 0);
    var g := FirstHit(k, env, DefaultConds(ds), 0);
    assert g == h by {
      assert g < |ds| ==> DefaultConds(ds)[g] == ds[g].cond;
      assert DefaultConds(ds)[h] == ds[h].cond;
    }
  }

  lemma NoDefaultInForce(k: Kconf, env: Env, s: nat)
    requires NoDefault(k, env, s)
    ensures DefaultTri(k, env, s) == 0 && DefaultStr(k, env, s) == None
  {
    var ds := k.SymAt(s).defaults;
    FirstHitMeans(k, env, DefaultConds(ds), 0);
    var g := FirstHit(k, env, DefaultConds(ds), 0);
    assert forall j | 0 <= j < |ds| :: ds[j] in ds && Ev(k, env, DefaultConds(ds)[j]) == 0;
  }

  lemma NoRangeInForce(k: Kconf, env: Env, s: nat)
    requires NoRange(k, env, s)
    ensures ActiveRange(k, env, s) == None
  {
    var rs := k.SymAt(s).ranges;
    FirstHitMeans(k, env, RangeConds(rs), 0);
    var g := FirstHit(k, env, RangeConds(rs), 0);
    assert forall j | 0 <= j < |rs| :: rs[j] in rs && Ev(k, env, RangeConds(rs)[j]) == 0;
  }

  // `x` lies within the range of `s` that is in force, if any
  ghost predicate Allowed(k: Kconf, env: Env, s: nat, x: int) {
    forall h: nat :: FirstRange(k, env, s, h) ==>
      Reading(k, k.SymAt(s).orig, StrAt(env, k.SymAt(s).ranges[h].low)) <= x <=
      Reading(k, k.SymAt(s).orig, StrAt(env, k.SymAt(s).ranges[h].high))
  }

  lemma AllowedIs(k: Kconf, env: Env, s: nat, x: int)
    requires Numeric(k.SymAt(s).orig)
    ensures Allowed(k, env, s, x) <==> InRange(x, ActiveRange(k, env, s))
  {
    var rs := k.SymAt(s).ranges;
    FirstHitMeans(k, env, RangeConds(rs), 0);
    var g := FirstHit(k, env, RangeConds(rs), 0);
    if g < |rs| {
      assert FirstRange(k, env, s, g) by {
        assert RangeConds(rs)[g] == rs[g].cond;
        assert forall j | 0 <= j < g :: RangeConds(rs)[j] == rs[j].cond;
      }
    }
    forall h: nat | FirstRange(k, env, s, h) ensures ActiveRange(k, env, s).Some? {
      RangeInForce(k, env, s, h);
    }
    forall h: nat | FirstRange(k, env, s, h)
      ensures ActiveRange(k, env, s) ==
              Some((Reading(k, k.SymAt(s).orig, StrAt(env, rs[h].low)), Reading(k, k.SymAt(s).orig, StrAt(env, rs[h].high))))
    {
      RangeInForce(k, env, s, h);
    }
  }

  // The user's number counts: the symbol is visible and the number within the range in force
  ghost predicate NumberCounts(k: Kconf, u: User, env: Env, s: nat, text: string) {
    && TriAt(env, Vis(Sym(s))) != 0 && s in u.values && u.values[s] == UStr(text) && text != ""
    && k.num.parse(text, if k.SymAt(s).orig == Int then 10 else 16).Some?
    && Allowed(k, env, s, Reading(k, k.SymAt(s).orig, text))
  }

  /** A number symbol has the user's text if it counts. */
  lemma UserNumberTaken(k: Kconf, rk: Cell -> nat, u: User, s: nat, text: string)
    requires WellFormed(k, rk) && UserOk(k, u) && s < |k.syms| && Numeric(k.SymAt(s).orig)
    requires NumberCounts(k, u, Solution(k, rk, u), s, text)
    ensures StrAt(Solution(k, rk, u), s) == text
  {
    StrIsNumber(k, rk, u, s);
    var env := Solution(k, rk, u);
    AllowedIs(k, env, s, k.num.parse(text, Base(k.SymAt(s).orig)).value);
    hide Allowed, ActiveRange, Solution, WellFormed;
  }

  // The text of the first default of `s` that holds; no text if there is none
  ghost predicate DefaultsTo(k: Kconf, env: Env, s: nat, text: string) {
    if NoDefault(k, env, s) then text == ""
    else exists h: nat, x: nat :: FirstDefault(k, env, s, h) && k.SymAt(s).defaults[h].value == Atom(Sym(x)) && text == StrAt(env, x)
  }

  lemma DefaultsToIs(k: Kconf, env: Env, s: nat, text: string)
    requires DefaultsTo(k, env, s, text)
    requires forall d <- k.SymAt(s).defaults :: d.value.Atom? && d.value.item.Sym?
    ensures if NoDefault(k, env, s) then DefaultStr(k, env, s) == None else DefaultStr(k, env, s) == Some(text)
  {
    if NoDefault(k, env, s) {
      NoDefaultInForce(k, env, s);
    } else {
      var h: nat, x: nat :| FirstDefault(k, env, s, h) && k.SymAt(s).defaults[h].value == Atom(Sym(x)) && text == StrAt(env, x);
      DefaultInForce(k, env, s, h);
    }
  }

  /** Without a user's number that counts, a number symbol has the text of its first default
      that holds if it lies within the range in force, and otherwise the number of the range
      that is nearest to it. */
  lemma DefaultNumberTaken(k: Kconf, rk: Cell -> nat, u: User, s: nat, text: string)
    requires WellFormed(k, rk) && UserOk(k, u) && s < |k.syms| && Numeric(k.SymAt(s).orig) && NumbersRead(k.num)
    requires var env := Solution(k, rk, u);
             DefaultsTo(k, env, s, text) && forall own :: !NumberCounts(k, u, env, s, own)
    ensures var env := Solution(k, rk, u);
            var orig := k.SymAt(s).orig;
            && (Allowed(k, env, s, Reading(k, orig, text)) ==> StrAt(env, s) == text)
            && (forall y :: Allowed(k, env, s, y) ==>
                  && Allowed(k, env, s, Reading(k, orig, StrAt(env, s)))
                  && Distance(Reading(k, orig, StrAt(env, s)), Reading(k, orig, text)) <= Distance(y, Reading(k, orig, text)))
  {
    StrIsNumber(k, rk, u, s);
    assert SymOk(k, s);
    hide Solution, WellFormed, UserOk;
    StepDefaultNumber(k, u, Solution(k, rk, u), s, text);
  }

  lemma StrIsNumber(k: Kconf, rk: Cell -> nat, u: User, s: nat)
    requires WellFormed(k, rk) && UserOk(k, u) && s < |k.syms| && Numeric(k.SymAt(s).orig)
    ensures StrAt(Solution(k, rk, u), s) == NumberStr(k, u, Solution(k, rk, u), s)
  {
    hide NumberStr;
    ValueIsStep(k, rk, u, StrOf(s));
  }

  lemma StepDefaultNumber(k: Kconf, u: User, env: Env, s: nat, text: string)
    requires SymOk(k, s) && Numeric(k.SymAt(s).orig) && NumbersRead(k.num)
    requires DefaultsTo(k, env, s, text) && forall own :: !NumberCounts(k, u, env, s, own)
    ensures var orig := k.SymAt(s).orig;
            var value := NumberStr(k, u, env, s);
            && (Allowed(k, env, s, Reading(k, orig, text)) ==> value == text)
            && (forall y :: Allowed(k, env, s, y) ==>
                  && Allowed(k, env, s, Reading(k, orig, value))
                  && Distance(Reading(k, orig, value), Reading(k, orig, text)) <= Distance(y, Reading(k, orig, text)))
  {
    DefaultsToIs(k, env, s, text);
    NoUserNumber(k, u, env, s);
    hide NumberCounts, DefaultStr, UserNumber, Allowed, ActiveRange;
    forall y ensures Allowed(k, env, s, y) <==> InRange(y, ActiveRange(k, env, s)) {
      AllowedIs(k, env, s, y);
    }
    assert NumberStr(k, u, env, s) ==
           Clamped(k, k.SymAt(s).orig, text, Reading(k, k.SymAt(s).orig, text), ActiveRange(k, env, s));
    ClampedNearest(k, k.SymAt(s).orig, text, ActiveRange(k, env, s));
  }

  function Distance(a: int, b: int): nat { if a < b then b - a else a - b }

  lemma ClampedNearest(k: Kconf, orig: SymType, text: string, range: Option<(int, int)>)
    requires Numeric(orig) && NumbersRead(k.num)
    ensures var x := Reading(k, orig, text);
            var value := Clamped(k, orig, text, x, range);
            && (InRange(x, range) ==> value == text)
            && (forall y :: InRange(y, range) ==>
                  && InRange(Reading(k, orig, value), range)
                  && Distance(Reading(k, orig, value), x) <= Distance(y, x))
  {
  }

  lemma NoUserNumber(k: Kconf, u: User, env: Env, s: nat)
    requires Numeric(k.SymAt(s).orig)
    requires forall own :: !NumberCounts(k, u, env, s, own)
    ensures UserNumber(k, u, env, s) == None
  {
    var own := UserStr(u, s);
    if own.Some? && k.num.parse(own.value, Base(k.SymAt(s).orig)).Some? {
      AllowedIs(k, env, s, k.num.parse(own.value, Base(k.SymAt(s).orig)).value);
      assert !NumberCounts(k, u, env, s, own.value);
    }
  }

  // ---------- visibility ----------

  lemma {:induction false} MaxMeans(k: Kconf, env: Env, es: seq<Expr>)
    ensures forall e <- es :: Ev(k, env, e) <= MaxOf(k, env, es)
    ensures MaxOf(k, env, es) != 0 ==> exists e <- es :: Ev(k, env, e) == MaxOf(k, env, es)
  {
    hide Ev;
    if es != [] {
      var init := es[..|es| - 1];
      assert es == init + [es[|es| - 1]];
      MaxMeans(k, env, init);
      assert Ev(k, env, es[|es| - 1]) <= MaxOf(k, env, es) && es[|es| - 1] in es;
    }
  }

  // A tristate item outside choices in y mode, with modules enabled
  predicate ReallyTristate(k: Kconf, env: Env, s: nat) {
    && k.SymAt(s).orig == Tristate && TriAt(env, TriOf(k.modules)) != 0
    && (k.SymAt(s).choice.Some? ==> TriAt(env, ModeOf(k.SymAt(s).choice.value)) != 2)
  }

  /** A symbol outside choices is visible if one of its prompts is, fully unless it is
      tristate and no prompt is y. */
  lemma SymbolVisibility(k: Kconf, rk: Cell -> nat, u: User, s: nat)
    requires WellFormed(k, rk) && UserOk(k, u) && s < |k.syms| && k.SymAt(s).choice.None?
    ensures var env := Solution(k, rk, u);
            var ps := k.SymAt(s).prompts;
            && (VisAt(k, rk, u, s) == 0 <==> forall p <- ps :: Ev(k, env, p) == 0)
            && (VisAt(k, rk, u, s) == 1 <==>
                  ReallyTristate(k, env, s) && (exists p <- ps :: Ev(k, env, p) == 1) && forall p <- ps :: Ev(k, env, p) <= 1)
  {
    ValueIsStep(k, rk, u, Vis(Sym(s)));
    VisMeans(k, Solution(k, rk, u), s);
    hide Solution, SymVis, Ev, WellFormed, UserOk, ReallyTristate;
  }

  lemma VisMeans(k: Kconf, env: Env, s: nat)
    requires k.SymAt(s).choice.None?
    ensures var ps := k.SymAt(s).prompts;
            && (SymVis(k, env, s) == 0 <==> forall p <- ps :: Ev(k, env, p) == 0)
            && (SymVis(k, env, s) == 1 <==>
                  ReallyTristate(k, env, s) && (exists p <- ps :: Ev(k, env, p) == 1) && forall p <- ps :: Ev(k, env, p) <= 1)
  {
    hide MaxOf, Ev;
    MaxMeans(k, env, k.SymAt(s).prompts);
  }

  /** A bool symbol of a choice is visible if the choice is in y mode and a prompt of the
      symbol holds; a tristate one only if a prompt is y when the choice is in y mode, and
      up to m in m mode. */
  lemma MemberVisible(k: Kconf, rk: Cell -> nat, u: User, c: nat, s: nat)
    requires WellFormed(k, rk) && UserOk(k, u) && ProperChoice(k, c) && s in k.ChoiceAt(c).syms
    ensures var env := Solution(k, rk, u);
            var ps := k.SymAt(s).prompts;
            VisAt(k, rk, u, s) ==
            if Mode(k, rk, u, c) == 2 then
              if (exists p <- ps :: if k.SymAt(s).orig == Bool then Ev(k, env, p) != 0 else Ev(k, env, p) == 2) then 2 else 0
            else if k.SymAt(s).orig == Tristate && exists p <- ps :: Ev(k, env, p) != 0 then 1 else 0
  {
    var env := Solution(k, rk, u);
    var ps := k.SymAt(s).prompts;
    MemberEquations(k, rk, u, c, s);
    MemberVisibility(k, rk, u, c, s);
    MaxMeans(k, env, ps);
    assert k.SymAt(s).choice == Some(c) && BoolTri(k.SymAt(s).orig);
    ModeMTristate(k, rk, u, c);
    hide Solution, MaxOf, Ev, WellFormed, UserOk, StepMode;
  }

  lemma ModeMTristate(k: Kconf, rk: Cell -> nat, u: User, c: nat)
    requires WellFormed(k, rk) && UserOk(k, u) && c < |k.choices|
    ensures Mode(k, rk, u, c) == 1 ==> ChoiceType(k, Solution(k, rk, u), c) != Bool
  {
    ValueIsStep(k, rk, u, ModeOf(c));
    hide Solution, WellFormed, UserOk;
  }

  /** The same for a choice. */
  lemma ChoiceVisibility(k: Kconf, rk: Cell -> nat, u: User, c: nat)
    requires WellFormed(k, rk) && UserOk(k, u) && c < |k.choices|
    ensures var env := Solution(k, rk, u);
            var ps := k.ChoiceAt(c).prompts;
            var vis := TriAt(env, Vis(Cho(c)));
            && (vis == 0 <==> forall p <- ps :: Ev(k, env, p) == 0)
            && (vis == 1 <==>
                  && k.ChoiceAt(c).orig == Tristate && TriAt(env, TriOf(k.modules)) != 0
                  && (exists p <- ps :: Ev(k, env, p) == 1) && forall p <- ps :: Ev(k, env, p) <= 1)
  {
    ValueIsStep(k, rk, u, Vis(Cho(c)));
    MaxMeans(k, Solution(k, rk, u), k.ChoiceAt(c).prompts);
    hide Solution, MaxOf, Ev, WellFormed, UserOk;
  }

  /** A choice without a visible prompt is n. A visible one the user has not touched is n
      if it is optional, and otherwise y, or m if it is a tristate choice with modules
      enabled. */
  lemma UntouchedMode(k: Kconf, rk: Cell -> nat, u: User, c: nat)
    requires WellFormed(k, rk) && UserOk(k, u) && c < |k.choices| && BoolTri(k.ChoiceAt(c).orig)
    ensures var env := Solution(k, rk, u);
            var d := k.ChoiceAt(c);
            && (TriAt(env, Vis(Cho(c))) == 0 ==> Mode(k, rk, u, c) == 0)
            && (TriAt(env, Vis(Cho(c))) != 0 && c !in u.modes ==>
                  Mode(k, rk, u, c) ==
                  if d.optional then 0 else if d.orig == Tristate && TriAt(env, TriOf(k.modules)) != 0 then 1 else 2)
  {
    ValueIsStep(k, rk, u, ModeOf(c));
    hide Solution, WellFormed, UserOk;
  }

  // ---------- the value of a symbol outside choices ----------

  // The user's n, m or y counts: the symbol is visible
  predicate TriCounts(u: User, env: Env, s: nat) {
    TriAt(env, Vis(Sym(s))) != 0 && s in u.values && u.values[s].UTri?
  }

  // What a value amounts to: m is y for a bool, and for a symbol implied to y
  function Settled(k: Kconf, env: Env, s: nat, t: Tri): Tri {
    if t == 1 && (!ReallyTristate(k, env, s) || Ev(k, env, k.SymAt(s).weakRevDep) == 2) then 2 else t
  }

  /** What selects a symbol is a lower bound of its value, and a bool is never m. */
  lemma SelectForces(k: Kconf, rk: Cell -> nat, u: User, s: nat)
    requires WellFormed(k, rk) && UserOk(k, u) && s < |k.syms|
    requires BoolTri(k.SymAt(s).orig) && k.SymAt(s).choice.None? && k.SymAt(s).fixed.None?
    ensures var env := Solution(k, rk, u);
            && TriVal(k, rk, u, s) >= Ev(k, env, k.SymAt(s).revDep)
            && (!ReallyTristate(k, env, s) ==> TriVal(k, rk, u, s) != 1)
  {
    ValueIsStep(k, rk, u, TriOf(s));
    hide Solution, Ev, DefaultTri, WellFormed, UserOk;
  }

  /** The user's value counts up to the visibility, and above what selects the symbol. */
  lemma UserTriTaken(k: Kconf, rk: Cell -> nat, u: User, s: nat)
    requires WellFormed(k, rk) && UserOk(k, u) && s < |k.syms|
    requires BoolTri(k.SymAt(s).orig) && k.SymAt(s).choice.None? && k.SymAt(s).fixed.None?
    requires TriCounts(u, Solution(k, rk, u), s)
    ensures var env := Solution(k, rk, u);
            var t := Min(u.values[s].t, VisAt(k, rk, u, s));
            TriVal(k, rk, u, s) == Settled(k, env, s, Max(t, Ev(k, env, k.SymAt(s).revDep)))
  {
    ValueIsStep(k, rk, u, TriOf(s));
    hide Solution, Ev, DefaultTri, WellFormed, UserOk;
  }

  /** Without a user's value that counts, a symbol has the value of its first default that
      holds, no more than its condition; implies whose dependencies are met and selects
      raise it. */
  lemma DefaultTriTaken(k: Kconf, rk: Cell -> nat, u: User, s: nat, base: Tri)
    requires WellFormed(k, rk) && UserOk(k, u) && s < |k.syms|
    requires BoolTri(k.SymAt(s).orig) && k.SymAt(s).choice.None? && k.SymAt(s).fixed.None?
    requires var env := Solution(k, rk, u);
             var ds := k.SymAt(s).defaults;
             && !TriCounts(u, env, s)
             && if NoDefault(k, env, s) then base == 0
                else exists h: nat :: FirstDefault(k, env, s, h) && base == Min(Ev(k, env, ds[h].value), Ev(k, env, ds[h].cond))
    ensures var env := Solution(k, rk, u);
            var d := k.SymAt(s);
            var implied: Tri := if Ev(k, env, d.directDep) != 0 then Ev(k, env, d.weakRevDep) else 0;
            TriVal(k, rk, u, s) == Settled(k, env, s, Max(Max(base, implied), Ev(k, env, d.revDep)))
  {
    ValueIsStep(k, rk, u, TriOf(s));
    var env := Solution(k, rk, u);
    assert DefaultTri(k, env, s) == base by {
      if NoDefault(k, env, s) {
        NoDefaultInForce(k, env, s);
      } else {
        var h: nat :| FirstDefault(k, env, s, h) &&
                      base == Min(Ev(k, env, k.SymAt(s).defaults[h].value), Ev(k, env, k.SymAt(s).defaults[h].cond));
        DefaultInForce(k, env, s, h);
      }
    }
    hide Solution, Ev, DefaultTri, WellFormed, UserOk, FirstDefault, NoDefault;
  }

  /** A string symbol has the user's text while it is visible, and otherwise the text of
      its first default that holds. */
  lemma TextTaken(k: Kconf, rk: Cell -> nat, u: User, s: nat, text: string)
    requires WellFormed(k, rk) && UserOk(k, u) && s < |k.syms| && k.SymAt(s).orig == String
    requires DefaultsTo(k, Solution(k, rk, u), s, text)
    ensures StrAt(Solution(k, rk, u), s) ==
            if VisAt(k, rk, u, s) != 0 && s in u.values && u.values[s].UStr? then u.values[s].str else text
  {
    ValueIsStep(k, rk, u, StrOf(s));
    assert SymOk(k, s);
    DefaultsToIs(k, Solution(k, rk, u), s, text);
    hide Solution, WellFormed, UserOk, DefaultsTo, NoDefault, DefaultStr;
  }

  // ---------- what the user sets for an invisible symbol ----------

  /** Setting an invisible symbol changes no attribute of anything, except that y may move
      the selection of the symbol's choice. */
  lemma {:induction false} InvisibleIgnored(k: Kconf, rk: Cell -> nat, u: User, s: nat, v: UserValue, c: Cell)
    requires WellFormed(k, rk) && UserOk(k, u) && s < |k.syms| && ValidFor(k, s, v) && HasCell(k, c)
    requires VisAt(k, rk, u, s) == 0 && (k.SymAt(s).choice.None? || v != UTri(2))
    ensures UserOk(k, Assign(k, u, s, v))
    ensures Value(k, rk, Assign(k, u, s, v), c) == Value(k, rk, u, c)
    decreases rk(c)
  {
    var w := Assign(k, u, s, v);
    assert SymOk(k, s) && UserOk(k, w);
    assert MayOk(k, rk, c);
    hide Step, May, WellFormed, UserOk, MayOk;
    forall d | d in May(k, c)
      ensures Value(k, rk, w, d) == Value(k, rk, u, d)
    {
      InvisibleIgnored(k, rk, u, s, v, d);
    }
    StepOverSame(k, rk, u, w, c);
    ValueIsStep(k, rk, u, c);
    InvisibleStep(k, u, Solution(k, rk, u), s, v, c);
  }

  lemma InvisibleStep(k: Kconf, u: User, env: Env, s: nat, v: UserValue, c: Cell)
    requires TriAt(env, Vis(Sym(s))) == 0 && (k.SymAt(s).choice.None? || v != UTri(2))
    ensures Step(k, Assign(k, u, s, v), env, c) == Step(k, u, env, c)
  {
    hide SymVis, ChoiceVis, DefaultStr, DefaultTri, ActiveRange, Ev, SelectionFromDefaults;
    hide SymAssignable, ChoiceAssignable, Implied, Promoted, DefaultNumber;
    match c
    case TriOf(x) => assert x != s ==> UserTri(Assign(k, u, s, v), x) == UserTri(u, x);
    case StrOf(x) => assert x != s ==> UserStr(Assign(k, u, s, v), x) == UserStr(u, x);
    case _ =>
  }

  // ---------- the selection of a choice without a visible user selection ----------

  // The `i`-th default of the choice is the first that holds and names a visible symbol
  ghost predicate FirstVisibleDefault(k: Kconf, env: Env, c: nat, i: nat) {
    var ds := k.ChoiceAt(c).defaults;
    && i < |ds| && Ev(k, env, ds[i].cond) != 0 && TriAt(env, Vis(Sym(ds[i].sym))) != 0
    && forall j | 0 <= j < i :: Ev(k, env, ds[j].cond) == 0 || TriAt(env, Vis(Sym(ds[j].sym))) == 0
  }

  lemma {:induction false} DefaultSelectionAt(k: Kconf, env: Env, ds: seq<ChoiceDefault>, from: nat, i: nat)
    requires from <= i < |ds| && Ev(k, env, ds[i].cond) != 0 && TriAt(env, Vis(Sym(ds[i].sym))) != 0
    requires forall j | from <= j < i :: Ev(k, env, ds[j].cond) == 0 || TriAt(env, Vis(Sym(ds[j].sym))) == 0
    ensures DefaultSelection(k, env, ds, from) == Some(ds[i].sym)
    decreases i - from
  {
    hide Ev;
    if from < i {
      DefaultSelectionAt(k, env, ds, from + 1, i);
    }
  }

  lemma {:induction false} NoDefaultSelection(k: Kconf, env: Env, c: nat, from: nat)
    requires from <= |k.ChoiceAt(c).defaults| && forall j: nat :: !FirstVisibleDefault(k, env, c, j)
    requires var ds := k.ChoiceAt(c).defaults;
             forall j | 0 <= j < from :: Ev(k, env, ds[j].cond) == 0 || TriAt(env, Vis(Sym(ds[j].sym))) == 0
    ensures DefaultSelection(k, env, k.ChoiceAt(c).defaults, from) == None
    decreases |k.ChoiceAt(c).defaults| - from
  {
    hide Ev;
    if from < |k.ChoiceAt(c).defaults| {
      assert !FirstVisibleDefault(k, env, c, from);
      NoDefaultSelection(k, env, c, from + 1);
    }
  }

  lemma {:induction false} FirstVisibleFrom(env: Env, syms: seq<nat>, from: nat, i: nat)
    requires from <= i < |syms| && TriAt(env, Vis(Sym(syms[i]))) != 0
    requires forall j | from <= j < i :: TriAt(env, Vis(Sym(syms[j]))) == 0
    ensures FirstVisible(env, syms, from) == Some(syms[i])
    decreases i - from
  {
    if from < i {
      FirstVisibleFrom(env, syms, from + 1, i);
    }
  }

  /** A choice in y mode whose user selection is invisible or missing selects the symbol of
      its first default that holds and names a visible symbol, */
  lemma SelectsDefault(k: Kconf, rk: Cell -> nat, u: User, c: nat, i: nat)
    requires WellFormed(k, rk) && UserOk(k, u) && c < |k.choices| && Mode(k, rk, u, c) == 2
    requires c !in u.selections || VisAt(k, rk, u, u.selections[c]) == 0
    requires FirstVisibleDefault(k, Solution(k, rk, u), c, i)
    ensures SelAt(Solution(k, rk, u), c) == Some(k.ChoiceAt(c).defaults[i].sym)
  {
    ValueIsStep(k, rk, u, SelOf(c));
    hide Solution, WellFormed, UserOk, Ev;
    DefaultSelectionAt(k, Solution(k, rk, u), k.ChoiceAt(c).defaults, 0, i);
  }

  /** or else its first visible symbol. */
  lemma SelectsFirstVisible(k: Kconf, rk: Cell -> nat, u: User, c: nat, i: nat)
    requires WellFormed(k, rk) && UserOk(k, u) && c < |k.choices| && Mode(k, rk, u, c) == 2
    requires c !in u.selections || VisAt(k, rk, u, u.selections[c]) == 0
    requires forall j: nat :: !FirstVisibleDefault(k, Solution(k, rk, u), c, j)
    requires var syms := k.ChoiceAt(c).syms;
             i < |syms| && VisAt(k, rk, u, syms[i]) != 0 && forall j | 0 <= j < i :: VisAt(k, rk, u, syms[j]) == 0
    ensures SelAt(Solution(k, rk, u), c) == Some(k.ChoiceAt(c).syms[i])
  {
    ValueIsStep(k, rk, u, SelOf(c));
    hide Solution, WellFormed, UserOk, Ev;
    NoDefaultSelection(k, Solution(k, rk, u), c, 0);
    FirstVisibleFrom(Solution(k, rk, u), k.ChoiceAt(c).syms, 0, i);
  }

  // ---------- what a minimal configuration does without ----------

  /** A minimal configuration has no entry for a symbol outside choices that the user has
      not set, unless it is implied while its dependencies are not met, or is a number whose
      default lies outside its range. */
  lemma UntouchedNotWritten(k: Kconf, rk: Cell -> nat, u: User, s: nat, text: string)
    requires WellFormed(k, rk) && UserOk(k, u) && s < |k.syms| && k.SymAt(s).choice.None? && k.SymAt(s).fixed.None?
    requires s !in u.values && k.SymAt(s).orig != Unknown
    requires var env := Solution(k, rk, u);
             if BoolTri(k.SymAt(s).orig) then Ev(k, env, k.SymAt(s).weakRevDep) != 0 ==> Ev(k, env, k.SymAt(s).directDep) != 0
             else DefaultsTo(k, env, s, text) &&
                  (Numeric(k.SymAt(s).orig) ==> NumbersRead(k.num) && Allowed(k, env, s, Reading(k, k.SymAt(s).orig, text)))
    ensures MinEntry(k, u, Solution(k, rk, u), s) == ""
  {
    var env := Solution(k, rk, u);
    assert SymOk(k, s);
    if BoolTri(k.SymAt(s).orig) {
      ValueIsStep(k, rk, u, TriOf(s));
      ValueIsStep(k, rk, u, StrOf(s));
    } else {
      DefaultsToIs(k, env, s, text);
      if Numeric(k.SymAt(s).orig) {
        DefaultNumberTaken(k, rk, u, s, text);
      } else {
        TextTaken(k, rk, u, s, text);
      }
    }
    hide Solution, WellFormed, UserOk, Ev, DefaultTri, DefaultStr, DefaultsTo, Allowed, SymOk;
    assert StrAt(env, s) == StrDefault(k, env, s);
  }

  // ---------- which symbols have an entry in a configuration ----------

  /** A bool or tristate symbol has an entry if it is visible or not n, so what is missing
      from a file is n. */
  lemma WrittenTri(k: Kconf, rk: Cell -> nat, u: User, s: nat)
    requires WellFormed(k, rk) && UserOk(k, u) && s < |k.syms| && BoolTri(k.SymAt(s).orig) && k.SymAt(s).fixed.None?
    ensures WrittenToConf(k, u, Solution(k, rk, u), s) <==> VisAt(k, rk, u, s) != 0 || TriVal(k, rk, u, s) != 0
  {
    ValueIsStep(k, rk, u, TriOf(s));
    hide Solution, WellFormed, UserOk, Ev, DefaultTri;
  }

  /** A string or number has one if it is visible or one of its defaults holds, `option env`
      and defconfig_list symbols excepted; constants and symbols without a type have none. */
  lemma WrittenText(k: Kconf, u: User, env: Env, s: nat)
    ensures k.SymAt(s).orig == String || Numeric(k.SymAt(s).orig) ==>
              (WrittenToConf(k, u, env, s) <==> !k.SymAt(s).auto && (TriAt(env, Vis(Sym(s))) != 0 || !NoDefault(k, env, s)))
    ensures k.SymAt(s).orig == Unknown || (BoolTri(k.SymAt(s).orig) && k.SymAt(s).fixed.Some?) ==>
              !WrittenToConf(k, u, env, s)
  {
    if NoDefault(k, env, s) {
      NoDefaultInForce(k, env, s);
    } else {
      DefaultHits(k, env, s);
    }
  }

  lemma DefaultHits(k: Kconf, env: Env, s: nat)
    requires !NoDefault(k, env, s)
    ensures DefaultStr(k, env, s).Some?
  {
    var ds := k.SymAt(s).defaults;
    FirstHitMeans(k, env, DefaultConds(ds), 0);
    var d :| d in ds && Ev(k, env, d.cond) != 0;
    var i :| 0 <= i < |ds| && ds[i] == d;
    assert DefaultConds(ds)[i] == d.cond;
  }
}
