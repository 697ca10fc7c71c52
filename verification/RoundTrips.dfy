/** Writing a configuration and loading it back: exactly when every symbol keeps its value. */
module RoundTrips {
  import opened Expressions
  import opened Wrappers
  import opened Values
  import opened Evaluation
  import opened Dependencies
  import opened ConfigText
  import opened Engine
  import opened Loading
  import opened Saving

  // ---------- the configurations the round trips are about ----------

  /** No choices, no `option env` or defconfig_list symbol, names as the tokeniser produces
      them and unique among defined symbols, and no select of a string or number. */
  predicate Simple(k: Kconf) {
    && k.choices == []
    && (forall s | 0 <= s < |k.syms| :: SimpleSym(k, s))
    && (forall s, t | 0 <= s < |k.syms| && 0 <= t < |k.syms| ::
          k.syms[s].defined && k.syms[t].defined && k.syms[s].name == k.syms[t].name ==> s == t)
  }

  predicate SimpleSym(k: Kconf, s: nat) {
    var d := k.SymAt(s);
    d.choice == None && !d.auto && (d.defined ==> PlainName(d.name) && d.fixed == None) &&
    (!BoolTri(d.orig) ==> d.revDep == Atom(Sym(k.n)))
  }

  // Writing a number in decimal or hexadecimal gives text without line breaks or trailing space
  ghost predicate NumbersPlain(num: Numbers) {
    forall x: int :: LineSafe(num.dec(x)) && LineSafe(num.hex(x))
  }

  predicate LineSafe(s: string) { !HasBreak(s) && RStrip(s) == s }

  /** A symbol with a prompt that holds has its direct dependencies met. Propagating
      dependencies to prompts guarantees it. */
  ghost predicate PromptsNeedDeps(k: Kconf, rk: Cell -> nat) {
    forall u, s | UserOk(k, u) && 0 <= s < |k.syms| ::
      MaxOf(k, Solution(k, rk, u), k.SymAt(s).prompts) != 0 ==> Ev(k, Solution(k, rk, u), k.SymAt(s).directDep) != 0
  }

  // ---------- values agree exactly when every single step does ----------

  /** The user state `v` gives symbol `s` the value it has under `u`, everything else being
      as under `u`. */
  ghost predicate SameStep(k: Kconf, rk: Cell -> nat, u: User, v: User, s: nat) {
    var env := Solution(k, rk, u);
    StepTri(k, v, env, s) == StepTri(k, u, env, s) && StepStr(k, v, env, s) == StepStr(k, u, env, s)
  }

  ghost predicate SameValues(k: Kconf, rk: Cell -> nat, u: User, v: User) {
    forall s | 0 <= s < |k.syms| :: StrAt(Solution(k, rk, v), s) == StrAt(Solution(k, rk, u), s)
  }

  lemma {:induction false} StepsSufficeAt(k: Kconf, rk: Cell -> nat, u: User, v: User, c: Cell)
    requires WellFormed(k, rk) && UserOk(k, u) && UserOk(k, v) && Simple(k) && HasCell(k, c)
    requires forall s | 0 <= s < |k.syms| :: SameStep(k, rk, u, v, s)
    ensures Value(k, rk, v, c) == Value(k, rk, u, c)
    decreases rk(c)
  {
    assert MayOk(k, rk, c);
    forall d | d in May(k, c)
      ensures Value(k, rk, v, d) == Value(k, rk, u, d)
    {
      StepsSufficeAt(k, rk, u, v, d);
    }
    StepOverSame(k, rk, u, v, c);
    ValueIsStep(k, rk, u, c);
    assert c.Owner().Sym? && SameStep(k, rk, u, v, c.Owner().s);
  }

  // If all strings agree, all attributes do
  lemma {:induction false} StringsDecide(k: Kconf, rk: Cell -> nat, u: User, v: User, c: Cell)
    requires WellFormed(k, rk) && UserOk(k, u) && UserOk(k, v) && Simple(k) && HasCell(k, c)
    requires SameValues(k, rk, u, v)
    ensures Value(k, rk, v, c) == Value(k, rk, u, c)
    decreases rk(c)
  {
    ValueIsStep(k, rk, u, c);
    ValueIsStep(k, rk, v, c);
    if c.StrOf? {
      assert StrAt(Solution(k, rk, v), c.s) == StrAt(Solution(k, rk, u), c.s);
    } else if c.TriOf? {
      ValueIsStep(k, rk, u, StrOf(c.s));
      ValueIsStep(k, rk, v, StrOf(c.s));
      assert StrAt(Solution(k, rk, v), c.s) == StrAt(Solution(k, rk, u), c.s);
    } else {
      assert MayOk(k, rk, c);
      forall d | d in May(k, c)
        ensures Value(k, rk, v, d) == Value(k, rk, u, d)
      {
        StringsDecide(k, rk, u, v, d);
      }
      StepOverSame(k, rk, u, v, c);
      assert c.Owner().Sym?;
    }
  }

  /** All values agree exactly when no single symbol's step tells the user states apart. */
  lemma StepsDecide(k: Kconf, rk: Cell -> nat, u: User, v: User)
    requires WellFormed(k, rk) && UserOk(k, u) && UserOk(k, v) && Simple(k)
    ensures SameValues(k, rk, u, v) <==> forall s | 0 <= s < |k.syms| :: SameStep(k, rk, u, v, s)
  {
    if forall s | 0 <= s < |k.syms| :: SameStep(k, rk, u, v, s) {
      forall s | 0 <= s < |k.syms|
        ensures StrAt(Solution(k, rk, v), s) == StrAt(Solution(k, rk, u), s)
      {
        StepsSufficeAt(k, rk, u, v, StrOf(s));
      }
    }
    if SameValues(k, rk, u, v) {
      forall s | 0 <= s < |k.syms|
        ensures SameStep(k, rk, u, v, s)
      {
        AgreeingStep(k, rk, u, v, TriOf(s));
        AgreeingStep(k, rk, u, v, StrOf(s));
      }
    }
  }

  lemma AgreeingStep(k: Kconf, rk: Cell -> nat, u: User, v: User, c: Cell)
    requires WellFormed(k, rk) && UserOk(k, u) && UserOk(k, v) && Simple(k) && HasCell(k, c)
    requires SameValues(k, rk, u, v)
    ensures Step(k, v, Solution(k, rk, u), c) == Step(k, u, Solution(k, rk, u), c)
  {
    assert MayOk(k, rk, c);
    forall d | d in May(k, c)
      ensures Value(k, rk, v, d) == Value(k, rk, u, d)
    {
      StringsDecide(k, rk, u, v, d);
    }
    StepOverSame(k, rk, u, v, c);
    StringsDecide(k, rk, u, v, c);
    ValueIsStep(k, rk, u, c);
  }

  // ---------- one symbol ----------

  // The user value that reading back the text of a value gives; numbers lose trailing space
  function Reload(k: Kconf, s: nat, val: string): UserValue {
    if BoolTri(k.SymAt(s).orig) then UTri(if val == "y" then 2 else if val == "m" then 1 else 0)
    else if Numeric(k.SymAt(s).orig) then UStr(RStrip(val))
    else UStr(val)
  }

  // The text of a value survives being written on a line
  predicate CleanText(k: Kconf, s: nat, val: string) {
    match k.SymAt(s).orig
    case String => !HasBreak(val)
    case Int => LineSafe(val)
    case Hex => LineSafe(val)
    case _ => true
  }

  // The user value of `s` under `v` is the one read back from `val`, if that is valid
  predicate Reloaded(k: Kconf, v: User, s: nat, val: string) {
    if ValidFor(k, s, Reload(k, s, val)) then s in v.values && v.values[s] == Reload(k, s, val) else s !in v.values
  }

  ghost predicate ContextOk(k: Kconf, rk: Cell -> nat, u: User) {
    WellFormed(k, rk) && UserOk(k, u) && Simple(k) && PromptsNeedDeps(k, rk)
  }

  // The equations of a symbol, and what its visibility implies
  lemma SymbolFacts(k: Kconf, rk: Cell -> nat, u: User, s: nat)
    requires ContextOk(k, rk, u) && s < |k.syms|
    ensures var env := Solution(k, rk, u);
            && SymOk(k, s) && SimpleSym(k, s)
            && TriAt(env, TriOf(s)) == StepTri(k, u, env, s)
            && StrAt(env, s) == StepStr(k, u, env, s)
            && (TriAt(env, Vis(Sym(s))) != 0 ==> Ev(k, env, k.SymAt(s).directDep) != 0)
            && (TriAt(env, Vis(Sym(s))) == 1 ==> TypeOf(k, env, s) == Tristate)
            && (!BoolTri(k.SymAt(s).orig) ==> Ev(k, env, k.SymAt(s).revDep) == 0)
            && (k.SymAt(s).orig == Bool ==> TriAt(env, TriOf(s)) != 1)
  {
    ValueIsStep(k, rk, u, TriOf(k.n));
    ValueIsStep(k, rk, u, TriOf(s));
    ValueIsStep(k, rk, u, StrOf(s));
    ValueIsStep(k, rk, u, Vis(Sym(s)));
    assert SymOk(k, s) && SimpleSym(k, s);
  }

  /** A tristate symbol the user has set to something it cannot be seen to differ from:
      visible and selected at m, not promoted, with a default of y that the user value is
      holding back. The minimal configuration leaves it out as unchangeable, and without
      its user value it goes to y. */
  predicate HeldBack(k: Kconf, u: User, env: Env, s: nat) {
    var d := k.SymAt(s);
    && BoolTri(d.orig) && d.fixed == None && UserTri(u, s).Some?
    && TriAt(env, Vis(Sym(s))) == 1 && Ev(k, env, d.revDep) == 1
    && TypeOf(k, env, s) == Tristate && Ev(k, env, d.weakRevDep) != 2 && DefaultTri(k, env, s) == 2
  }

  // A tristate symbol without a user value, through a default of y above its visibility of m
  predicate OverVisible(k: Kconf, env: Env, s: nat) {
    var d := k.SymAt(s);
    && BoolTri(d.orig) && d.fixed == None
    && TriAt(env, Vis(Sym(s))) == 1 && Ev(k, env, d.revDep) != 2
    && TypeOf(k, env, s) == Tristate && Ev(k, env, d.weakRevDep) != 2
    && TriAt(env, TriOf(s)) == 2
  }

  // What loading the minimal configuration makes of one symbol
  ghost predicate MinReloaded(k: Kconf, u: User, v: User, env: Env, s: nat) {
    if MinSkips(k, u, env, s) then s !in v.values else Reloaded(k, v, s, StrAt(env, s))
  }

  lemma MinStepTri(k: Kconf, rk: Cell -> nat, u: User, v: User, s: nat)
    requires ContextOk(k, rk, u) && s < |k.syms| && BoolTri(k.SymAt(s).orig) && k.SymAt(s).fixed == None
    requires MinReloaded(k, u, v, Solution(k, rk, u), s)
    ensures SameStep(k, rk, u, v, s) <==> !HeldBack(k, u, Solution(k, rk, u), s)
  {
    var env := Solution(k, rk, u);
    SymbolFacts(k, rk, u, s);
  }

  lemma MinStepText(k: Kconf, rk: Cell -> nat, u: User, v: User, s: nat)
    requires ContextOk(k, rk, u) && s < |k.syms| && k.SymAt(s).orig == String
    requires MinReloaded(k, u, v, Solution(k, rk, u), s)
    ensures SameStep(k, rk, u, v, s)
  {
    SymbolFacts(k, rk, u, s);
  }

  lemma MinStepNumber(k: Kconf, rk: Cell -> nat, u: User, v: User, s: nat)
    requires ContextOk(k, rk, u) && s < |k.syms| && Numeric(k.SymAt(s).orig)
    requires MinReloaded(k, u, v, Solution(k, rk, u), s)
    requires MinSkips(k, u, Solution(k, rk, u), s) || LineSafe(StrAt(Solution(k, rk, u), s))
    ensures SameStep(k, rk, u, v, s)
  {
    SymbolFacts(k, rk, u, s);
  }

  // What loading the full configuration makes of one symbol
  ghost predicate FullReloaded(k: Kconf, u: User, v: User, env: Env, s: nat) {
    if WrittenToConf(k, u, env, s) then Reloaded(k, v, s, StrAt(env, s)) else s !in v.values
  }

  lemma FullStepTri(k: Kconf, rk: Cell -> nat, u: User, v: User, s: nat)
    requires ContextOk(k, rk, u) && s < |k.syms| && BoolTri(k.SymAt(s).orig) && k.SymAt(s).fixed == None
    requires FullReloaded(k, u, v, Solution(k, rk, u), s)
    ensures SameStep(k, rk, u, v, s) <==> !OverVisible(k, Solution(k, rk, u), s)
  {
    var env := Solution(k, rk, u);
    SymbolFacts(k, rk, u, s);
  }

  lemma FullStepText(k: Kconf, rk: Cell -> nat, u: User, v: User, s: nat)
    requires ContextOk(k, rk, u) && s < |k.syms| && k.SymAt(s).orig == String
    requires FullReloaded(k, u, v, Solution(k, rk, u), s)
    ensures SameStep(k, rk, u, v, s)
  {
    SymbolFacts(k, rk, u, s);
  }

  // The text is a number the user may give the symbol, within the range in force
  predicate Usable(k: Kconf, env: Env, s: nat, text: string)
    requires Numeric(k.SymAt(s).orig)
  {
    text != "" && ValidFor(k, s, UStr(text)) &&
    InRange(k.num.parse(text, Base(k.SymAt(s).orig)).value, ActiveRange(k, env, s))
  }

  /** A visible number that ends in white space: what is left of it is a usable number, or
      else the value is not the default that it falls back to. */
  predicate NumberCut(k: Kconf, env: Env, s: nat) {
    var val := StrAt(env, s);
    && Numeric(k.SymAt(s).orig) && TriAt(env, Vis(Sym(s))) != 0 && RStrip(val) != val
    && (Usable(k, env, s, RStrip(val)) || DefaultNumber(k, env, s) != val)
  }

  lemma FullStepNumber(k: Kconf, rk: Cell -> nat, u: User, v: User, s: nat)
    requires ContextOk(k, rk, u) && s < |k.syms| && Numeric(k.SymAt(s).orig)
    requires FullReloaded(k, u, v, Solution(k, rk, u), s)
    ensures SameStep(k, rk, u, v, s) <==> !NumberCut(k, Solution(k, rk, u), s)
  {
    SymbolFacts(k, rk, u, s);
    hide DefaultNumber, ActiveRange, RStrip, DefaultStr;
  }

  // Symbols without a definition, and of unknown type, have the same value whatever the user sets
  lemma FixedStep(k: Kconf, rk: Cell -> nat, u: User, v: User, s: nat)
    requires ContextOk(k, rk, u) && s < |k.syms|
    requires !k.SymAt(s).defined || k.SymAt(s).orig == Unknown
    ensures SameStep(k, rk, u, v, s)
  {
    SymbolFacts(k, rk, u, s);
  }

  // ---------- files as chunks ----------

  // A piece of a configuration file: the entry of a symbol, or text that assigns nothing
  datatype Chunk = Entry(s: nat, val: string) | Text(text: string)

  function ChunkText(k: Kconf, c: Chunk): string {
    match c case Entry(s, val) => EntryLine(k, s, val) + "\n" case Text(t) => t
  }

  function Render(k: Kconf, cs: seq<Chunk>): string {
    if cs == [] then "" else ChunkText(k, cs[0]) + Render(k, cs[1..])
  }

  // A line that does nothing when loaded
  predicate Inert(k: Kconf, line: string) {
    match Parse(line)
    case Nothing => true
    case Set(name, _) => Lookup(k, name) == None
    case Unset(name) => Lookup(k, name) == None
  }

  predicate InertText(k: Kconf, text: string) {
    (text == "" || text[|text| - 1] == '\n') && forall l <- Lines(text) :: Inert(k, l)
  }

  predicate ChunkOk(k: Kconf, c: Chunk) {
    match c
    case Entry(s, val) => s < |k.syms| && k.SymAt(s).defined && k.SymAt(s).orig != Unknown &&
                          !HasBreak(val) && (BoolTri(k.SymAt(s).orig) ==> val in ["n", "m", "y"])
    case Text(text) => InertText(k, text)
  }

  // Entries for one symbol only once
  predicate OnceEach(cs: seq<Chunk>) {
    forall i, j | 0 <= i < j < |cs| :: cs[i].Entry? && cs[j].Entry? ==> cs[i].s != cs[j].s
  }

  lemma {:induction false} LinesConcat(a: string, b: string, cur: string)
    requires a != "" && a[|a| - 1] == '\n'
    ensures LinesFrom(a + b, cur) == LinesFrom(a, cur) + LinesFrom(b, [])
    decreases |a|
  {
    assert (a + b)[1..] == a[1..] + b;
    if a[0] == '\n' {
      if |a| == 1 {
        assert a[1..] + b == b;
      } else {
        LinesConcat(a[1..], b, []);
      }
    } else if a[0] == '\r' {
      if a[1] == '\n' {
        assert (a + b)[2..] == a[2..] + b;
        if |a| == 2 {
          assert a[2..] + b == b;
        } else {
          LinesConcat(a[2..], b, []);
        }
      } else {
        LinesConcat(a[1..], b, []);
      }
    } else {
      LinesConcat(a[1..], b, cur + [a[0]]);
    }
  }

  lemma {:induction false} InertLines(k: Kconf, st: LoadState, lines: seq<string>)
    requires forall l <- lines :: Inert(k, l)
    ensures ApplyLines(k, st, lines) == st
    decreases |lines|
  {
    if lines != [] {
      assert lines[0] in lines;
      InertLines(k, ApplyLine(k, st, lines[0]), lines[1..]);
    }
  }

  lemma {:induction false} LookupFinds(k: Kconf, s: nat, i: nat)
    requires Simple(k) && i <= s < |k.syms| && k.SymAt(s).defined
    ensures LookupFrom(k, k.SymAt(s).name, i) == Some(s)
    decreases s - i
  {
    if i < s {
      LookupFinds(k, s, i + 1);
    }
  }

  // What an entry assigns
  function ApplyChunk(k: Kconf, st: LoadState, c: Chunk): LoadState {
    match c case Entry(s, val) => ApplyValue(k, st, s, Reload(k, s, val)) case Text(_) => st
  }

  lemma EntryHasNoBreaks(k: Kconf, s: nat, val: string)
    requires Simple(k) && ChunkOk(k, Entry(s, val))
    ensures !HasBreak(EntryLine(k, s, val))
  {
    assert SimpleSym(k, s);
    EscapeKeepsBreaks(val);
  }

  lemma SetLineApplies(k: Kconf, st: LoadState, s: nat, val: string)
    requires Simple(k) && s < |k.syms| && k.SymAt(s).defined && RStrip(val) == val
    ensures ApplyLine(k, st, PREFIX + k.SymAt(s).name + "=" + val) == ApplySet(k, st, s, val)
  {
    hide ApplySet, ApplyValue, RStrip;
    assert SimpleSym(k, s);
    LookupFinds(k, s, 0);
    ParseSet(k.SymAt(s).name, val);
  }

  lemma UnsetLineApplies(k: Kconf, st: LoadState, s: nat)
    requires Simple(k) && s < |k.syms| && k.SymAt(s).defined && BoolTri(k.SymAt(s).orig)
    ensures ApplyLine(k, st, "# " + PREFIX + k.SymAt(s).name + NOT_SET) == ApplyValue(k, st, s, UTri(0))
  {
    hide ApplySet, ApplyValue, RStrip;
    assert SimpleSym(k, s);
    LookupFinds(k, s, 0);
    ParseUnset(k.SymAt(s).name);
  }

  lemma StringSets(k: Kconf, st: LoadState, s: nat, val: string)
    requires k.SymAt(s).orig == String && !HasBreak(val)
    ensures var lit := "\"" + Escape(val) + "\""; RStrip(lit) == lit && ApplySet(k, st, s, lit) == ApplyValue(k, st, s, UStr(val))
  {
    hide ApplyValue;
    LiteralRoundTrip(val);
  }

  lemma TriSets(k: Kconf, st: LoadState, s: nat, val: string)
    requires BoolTri(k.SymAt(s).orig) && k.SymAt(s).choice == None && val in ["n", "m", "y"]
    ensures RStrip(val) == val && ApplySet(k, st, s, val) == ApplyValue(k, st, s, Reload(k, s, val))
  {
  }

  lemma NumberSets(k: Kconf, st: LoadState, s: nat, val: string)
    requires Simple(k) && s < |k.syms| && k.SymAt(s).defined && Numeric(k.SymAt(s).orig)
    ensures ApplyLine(k, st, PREFIX + k.SymAt(s).name + "=" + val) == ApplyValue(k, st, s, UStr(RStrip(val)))
  {
    var head := PREFIX + k.SymAt(s).name + "=";
    RStripBehind(head, val);
    RStripTwice(val);
    SetLineApplies(k, st, s, RStrip(val));
    RStripTwice(head + val);
    hide RStrip, ApplyValue;
    assert ApplySet(k, st, s, RStrip(val)) == ApplyValue(k, st, s, UStr(RStrip(val)));
    assert Parse(head + val) == Parse(head + RStrip(val));
  }

  lemma EntryLineApplies(k: Kconf, st: LoadState, s: nat, val: string)
    requires Simple(k) && ChunkOk(k, Entry(s, val))
    ensures ApplyLine(k, st, EntryLine(k, s, val)) == ApplyChunk(k, st, Entry(s, val))
  {
    hide ApplyLine, ApplySet, ApplyValue, RStrip, Escape, HasBreak, InertText;
    var d := k.SymAt(s);
    assert SimpleSym(k, s);
    if BoolTri(d.orig) && val == "n" {
      UnsetLineApplies(k, st, s);
    } else if BoolTri(d.orig) {
      TriSets(k, st, s, val);
      SetLineApplies(k, st, s, val);
    } else if d.orig == String {
      var lit := "\"" + Escape(val) + "\"";
      StringSets(k, st, s, val);
      SetLineApplies(k, st, s, lit);
      assert PREFIX + d.name + "=" + lit == EntryLine(k, s, val);
    } else {
      NumberSets(k, st, s, val);
    }
  }

  function ApplyChunks(k: Kconf, st: LoadState, cs: seq<Chunk>): LoadState
    decreases |cs|
  {
    if cs == [] then st else ApplyChunks(k, ApplyChunk(k, st, cs[0]), cs[1..])
  }

  /** Loading a file made of entries and inert text does what the entries say, in order. */
  lemma {:induction false} RenderLoads(k: Kconf, st: LoadState, cs: seq<Chunk>)
    requires Simple(k) && forall c <- cs :: ChunkOk(k, c)
    ensures ApplyLines(k, st, Lines(Render(k, cs))) == ApplyChunks(k, st, cs)
    decreases |cs|
  {
    if cs != [] {
      var c, rest := cs[0], Render(k, cs[1..]);
      assert ChunkOk(k, c);
      RenderLoads(k, ApplyChunk(k, st, c), cs[1..]);
      match c {
        case Entry(s, val) =>
          EntryHasNoBreaks(k, s, val);
          EntryLineApplies(k, st, s, val);
          FirstLine(EntryLine(k, s, val), rest, []);
          assert [] + EntryLine(k, s, val) == EntryLine(k, s, val);
          assert Lines(Render(k, cs))[1..] == Lines(rest);
        case Text(text) =>
          if text == "" {
            assert text + rest == rest;
          } else {
            LinesConcat(text, rest, []);
            InertLines(k, st, Lines(text));
            ApplyLinesConcat(k, st, Lines(text), Lines(rest));
          }
      }
    }
  }

  // The text written for a symbol in `cs`
  function EntryFor(cs: seq<Chunk>, s: nat): Option<string> {
    if cs == [] then None
    else if cs[0].Entry? && cs[0].s == s then Some(cs[0].val)
    else EntryFor(cs[1..], s)
  }

  lemma {:induction false} EntryForIn(cs: seq<Chunk>, s: nat)
    ensures EntryFor(cs, s).Some? ==> Entry(s, EntryFor(cs, s).value) in cs
    ensures EntryFor(cs, s).None? ==> forall c <- cs :: c.Entry? ==> c.s != s
  {
    if cs != [] {
      EntryForIn(cs[1..], s);
    }
  }

  // After loading, a symbol has what its entry says, and counts as set if that was valid
  lemma {:induction false} ChunksLoaded(k: Kconf, st: LoadState, cs: seq<Chunk>, s: nat)
    requires Simple(k) && s < |k.syms| && OnceEach(cs) && forall c <- cs :: ChunkOk(k, c)
    ensures var r := ApplyChunks(k, st, cs);
            if EntryFor(cs, s).Some? && ValidFor(k, s, Reload(k, s, EntryFor(cs, s).value)) then
              s in r.user.values && r.user.values[s] == Reload(k, s, EntryFor(cs, s).value) && Sym(s) in r.touched
            else
              && (s in r.user.values <==> s in st.user.values)
              && (s in r.user.values ==> r.user.values[s] == st.user.values[s])
              && (Sym(s) in r.touched <==> Sym(s) in st.touched)
    decreases |cs|
  {
    if cs != [] {
      var c := cs[0];
      assert ChunkOk(k, c);
      var st1 := ApplyChunk(k, st, c);
      assert c.Entry? ==> SimpleSym(k, c.s);
      ChunksLoaded(k, st1, cs[1..], s);
      if c.Entry? && c.s == s {
        EntryForIn(cs[1..], s);
      }
    }
  }

  // ---------- loading keeps the user state proper ----------

  lemma ApplyValueOk(k: Kconf, rk: Cell -> nat, st: LoadState, s: nat, v: UserValue)
    requires WellFormed(k, rk) && UserOk(k, st.user) && s < |k.syms|
    ensures UserOk(k, ApplyValue(k, st, s, v).user)
  {
    assert SymOk(k, s);
  }

  lemma ApplyLineOk(k: Kconf, rk: Cell -> nat, st: LoadState, line: string)
    requires WellFormed(k, rk) && UserOk(k, st.user)
    ensures UserOk(k, ApplyLine(k, st, line).user)
  {
    hide ApplyValue, Parse, LiteralContents, Unescape;
    match Parse(line)
    case Nothing =>
    case Set(name, val) =>
      if Lookup(k, name).Some? {
        var s := Lookup(k, name).value;
        assert SymOk(k, s);
        forall st1: LoadState, v | UserOk(k, st1.user)
          ensures UserOk(k, ApplyValue(k, st1, s, v).user)
        {
          ApplyValueOk(k, rk, st1, s, v);
        }
      }
    case Unset(name) =>
      if Lookup(k, name).Some? {
        ApplyValueOk(k, rk, st, Lookup(k, name).value, UTri(0));
      }
  }

  lemma {:induction false} ApplyLinesOk(k: Kconf, rk: Cell -> nat, st: LoadState, lines: seq<string>)
    requires WellFormed(k, rk) && UserOk(k, st.user)
    ensures UserOk(k, ApplyLines(k, st, lines).user)
    decreases |lines|
  {
    if lines != [] {
      ApplyLineOk(k, rk, st, lines[0]);
      ApplyLinesOk(k, rk, ApplyLine(k, st, lines[0]), lines[1..]);
    }
  }

  lemma LoadOk(k: Kconf, rk: Cell -> nat, u: User, lines: seq<string>, replace: bool)
    requires WellFormed(k, rk) && UserOk(k, u)
    ensures UserOk(k, Load(k, u, lines, replace))
  {
    ApplyLinesOk(k, rk, LoadState(u, {}), lines);
  }

  // ---------- what loading leaves behind ----------

  // After loading chunks, every defined symbol has what its entry says and nothing else
  lemma ChunksReloaded(k: Kconf, u: User, cs: seq<Chunk>, s: nat)
    requires Simple(k) && OnceEach(cs) && (forall c <- cs :: ChunkOk(k, c))
    requires s < |k.syms| && k.SymAt(s).defined
    ensures var v := Load(k, u, Lines(Render(k, cs)), true);
            match EntryFor(cs, s) case Some(val) => Reloaded(k, v, s, val) case None => s !in v.values
  {
    RenderLoads(k, LoadState(u, {}), cs);
    ChunksLoaded(k, LoadState(u, {}), cs, s);
  }

  // Loaded text has no line breaks, and loaded numbers no trailing space
  predicate LoadedSafe(k: Kconf, st: LoadState) {
    forall s <- st.user.values | Sym(s) in st.touched && st.user.values[s].UStr? ::
      !HasBreak(st.user.values[s].str) && (Numeric(k.SymAt(s).orig) ==> LineSafe(st.user.values[s].str))
  }

  lemma LiteralSafe(val: string)
    requires !HasBreak(val) && LiteralContents(val).Some?
    ensures !HasBreak(Unescape(LiteralContents(val).value))
  {
    var x := LiteralContents(val).value;
    assert forall c <- x :: c in val;
    UnescapeKeepsNoBreaks(x);
  }

  lemma ApplySetSafe(k: Kconf, st: LoadState, s: nat, val: string)
    requires LoadedSafe(k, st) && LineSafe(val)
    ensures LoadedSafe(k, ApplySet(k, st, s, val))
  {
    hide LiteralContents, Unescape, HasBreak, RStrip;
    if k.SymAt(s).orig == String && LiteralContents(val).Some? {
      LiteralSafe(val);
    }
  }

  lemma ApplyLineSafe(k: Kconf, st: LoadState, line: string)
    requires LoadedSafe(k, st) && !HasBreak(line)
    ensures LoadedSafe(k, ApplyLine(k, st, line))
  {
    hide ApplySet, Parse;
    ParsedClean(line);
    if Parse(line).Set? && Lookup(k, Parse(line).name).Some? {
      ApplySetSafe(k, st, Lookup(k, Parse(line).name).value, Parse(line).val);
    }
  }

  lemma {:induction false} ApplyLinesSafe(k: Kconf, st: LoadState, lines: seq<string>)
    requires LoadedSafe(k, st) && forall l <- lines :: !HasBreak(l)
    ensures LoadedSafe(k, ApplyLines(k, st, lines))
    decreases |lines|
  {
    if lines != [] {
      assert lines[0] in lines;
      ApplyLineSafe(k, st, lines[0]);
      ApplyLinesSafe(k, ApplyLine(k, st, lines[0]), lines[1..]);
    }
  }

  lemma LoadSafe(k: Kconf, u: User, text: string, s: nat)
    requires k.SymAt(s).defined
    ensures var v := Load(k, u, Lines(text), true);
            s in v.values && v.values[s].UStr? ==>
              !HasBreak(v.values[s].str) && (Numeric(k.SymAt(s).orig) ==> LineSafe(v.values[s].str))
  {
    LinesHaveNoBreaks(text, []);
    ApplyLinesSafe(k, LoadState(u, {}), Lines(text));
  }

  // ---------- the minimal configuration ----------

  function MinChunk(k: Kconf, u: User, env: Env, s: nat): seq<Chunk> {
    if k.SymAt(s).defined && !MinSkips(k, u, env, s) && WrittenToConf(k, u, env, s) then [Entry(s, StrAt(env, s))] else []
  }

  function MinChunks(k: Kconf, u: User, env: Env, i: nat): seq<Chunk>
    requires i <= |k.syms|
    decreases |k.syms| - i
  {
    if i == |k.syms| then [] else MinChunk(k, u, env, i) + MinChunks(k, u, env, i + 1)
  }

  lemma {:induction false} RenderConcat(k: Kconf, xs: seq<Chunk>, ys: seq<Chunk>)
    ensures Render(k, xs + ys) == Render(k, xs) + Render(k, ys)
  {
    if xs == [] {
      assert xs + ys == ys;
    } else {
      assert (xs + ys)[1..] == xs[1..] + ys;
      RenderConcat(k, xs[1..], ys);
    }
  }

  lemma {:induction false} MinChunksRender(k: Kconf, u: User, env: Env, i: nat)
    requires i <= |k.syms|
    ensures Render(k, MinChunks(k, u, env, i)) == MinEntries(k, u, env, i)
    decreases |k.syms| - i
  {
    hide *;
    if i == |k.syms| {
      NoMinChunks(k, u, env, 0);
    } else {
      MinChunksAt(k, u, env, i);
      MinEntryText(k, u, env, i);
      MinChunksRender(k, u, env, i + 1);
      if MinChunk(k, u, env, i) != [] {
        RenderCons(k, Entry(i, StrAt(env, i)), MinChunks(k, u, env, i + 1));
      }
    }
  }

  lemma MinEntryText(k: Kconf, u: User, env: Env, i: nat)
    requires i < |k.syms|
    ensures MinChunk(k, u, env, i) == [] ==> MinEntries(k, u, env, i) == MinEntries(k, u, env, i + 1)
    ensures MinChunk(k, u, env, i) != [] ==>
              MinEntries(k, u, env, i) == ChunkText(k, Entry(i, StrAt(env, i))) + MinEntries(k, u, env, i + 1)
  {
    hide MinSkips, WrittenToConf, EntryLine;
    if MinChunk(k, u, env, i) == [] {
      assert "" + MinEntries(k, u, env, i + 1) == MinEntries(k, u, env, i + 1);
    }
  }

  lemma RenderCons(k: Kconf, c: Chunk, rest: seq<Chunk>)
    ensures Render(k, [c] + rest) == ChunkText(k, c) + Render(k, rest) && Render(k, []) == ""
  {
    assert ([c] + rest)[1..] == rest;
  }

  // The entry of `s` is the chunk `s` contributes
  function MinEntryFor(k: Kconf, u: User, env: Env, s: nat): Option<string> {
    if MinChunk(k, u, env, s) == [] then None else Some(StrAt(env, s))
  }

  lemma ConsFind(c: Chunk, rest: seq<Chunk>, s: nat)
    requires c.Entry?
    ensures c.s == s ==> EntryFor([c] + rest, s) == Some(c.val)
    ensures c.s != s ==> EntryFor([c] + rest, s) == EntryFor(rest, s)
  {
    assert ([c] + rest)[1..] == rest;
  }

  lemma ConsOnce(c: Chunk, rest: seq<Chunk>)
    requires c.Entry? && OnceEach(rest) && forall x <- rest :: x.Entry? ==> x.s != c.s
    ensures OnceEach([c] + rest)
  {
  }

  lemma {:induction false} MinChunksFrom(k: Kconf, u: User, env: Env, i: nat)
    requires i <= |k.syms|
    ensures forall c <- MinChunks(k, u, env, i) ::
              c.Entry? && i <= c.s < |k.syms| && c.val == StrAt(env, c.s) && MinChunk(k, u, env, c.s) != []
    decreases |k.syms| - i
  {
    hide *;
    if i == |k.syms| {
      NoMinChunks(k, u, env, 0);
    } else {
      MinChunksAt(k, u, env, i);
      MinChunksFrom(k, u, env, i + 1);
    }
  }

  lemma {:induction false} MinChunksOnce(k: Kconf, u: User, env: Env, i: nat)
    requires i <= |k.syms|
    ensures OnceEach(MinChunks(k, u, env, i))
    decreases |k.syms| - i
  {
    hide *;
    if i == |k.syms| {
      NoMinChunks(k, u, env, 0);
    } else {
      MinChunksAt(k, u, env, i);
      MinChunksOnce(k, u, env, i + 1);
      if MinChunk(k, u, env, i) != [] {
        MinChunksFrom(k, u, env, i + 1);
        ConsOnce(Entry(i, StrAt(env, i)), MinChunks(k, u, env, i + 1));
      }
    }
  }

  lemma {:induction false} MinChunksFind(k: Kconf, u: User, env: Env, i: nat, s: nat)
    requires i <= |k.syms|
    ensures s < i || |k.syms| <= s ==> EntryFor(MinChunks(k, u, env, i), s) == None
    ensures i <= s < |k.syms| ==> EntryFor(MinChunks(k, u, env, i), s) == MinEntryFor(k, u, env, s)
    decreases |k.syms| - i
  {
    hide MinChunks, EntryFor, MinChunk;
    if i == |k.syms| {
      NoMinChunks(k, u, env, s);
    } else {
      MinChunksAt(k, u, env, i);
      MinChunksFind(k, u, env, i + 1, s);
      if MinChunk(k, u, env, i) != [] {
        ConsFind(Entry(i, StrAt(env, i)), MinChunks(k, u, env, i + 1), s);
      }
    }
  }

  lemma MinChunksEntries(k: Kconf, u: User, env: Env, i: nat, s: nat)
    requires i <= |k.syms|
    ensures forall c <- MinChunks(k, u, env, i) ::
              c.Entry? && i <= c.s < |k.syms| && c.val == StrAt(env, c.s) && MinChunk(k, u, env, c.s) != []
    ensures OnceEach(MinChunks(k, u, env, i))
    ensures i <= s < |k.syms| ==> EntryFor(MinChunks(k, u, env, i), s) == MinEntryFor(k, u, env, s)
  {
    hide *;
    MinChunksFrom(k, u, env, i);
    MinChunksOnce(k, u, env, i);
    MinChunksFind(k, u, env, i, s);
  }

  lemma MinChunksAt(k: Kconf, u: User, env: Env, i: nat)
    requires i < |k.syms|
    ensures MinChunk(k, u, env, i) == [] ==> MinChunks(k, u, env, i) == MinChunks(k, u, env, i + 1)
    ensures MinChunk(k, u, env, i) != [] ==>
              MinChunks(k, u, env, i) == [Entry(i, StrAt(env, i))] + MinChunks(k, u, env, i + 1)
  {
    hide MinSkips, WrittenToConf;
    if MinChunk(k, u, env, i) == [] {
      assert [] + MinChunks(k, u, env, i + 1) == MinChunks(k, u, env, i + 1);
    }
  }

  lemma NoMinChunks(k: Kconf, u: User, env: Env, s: nat)
    ensures MinChunks(k, u, env, |k.syms|) == [] && Render(k, []) == "" && OnceEach([]) && EntryFor([], s) == None
    ensures MinEntries(k, u, env, |k.syms|) == ""
  {
  }

  // A header that assigns nothing
  predicate HeaderOk(k: Kconf, header: string) { InertText(k, header) }

  /** When a minimal configuration can be loaded back: every text written survives a line,
      and no tristate symbol is held back. */
  ghost predicate MinReloadable(k: Kconf, u: User, env: Env) {
    forall s | 0 <= s < |k.syms| && k.SymAt(s).defined ::
      && (MinSkips(k, u, env, s) || CleanText(k, s, StrAt(env, s)))
      && !HeldBack(k, u, env, s)
  }

  // A symbol that is not left out, and has a type, is written
  lemma NotSkippedWritten(k: Kconf, rk: Cell -> nat, u: User, s: nat)
    requires ContextOk(k, rk, u) && s < |k.syms| && k.SymAt(s).defined
    requires !MinSkips(k, u, Solution(k, rk, u), s)
    ensures WrittenToConf(k, u, Solution(k, rk, u), s) <==> k.SymAt(s).orig != Unknown
    ensures TriAt(Solution(k, rk, u), Vis(Sym(s))) != 0
  {
    SymbolFacts(k, rk, u, s);
  }

  lemma MinChunkOk(k: Kconf, rk: Cell -> nat, u: User, s: nat)
    requires ContextOk(k, rk, u) && s < |k.syms| && MinChunk(k, u, Solution(k, rk, u), s) != []
    requires CleanText(k, s, StrAt(Solution(k, rk, u), s))
    ensures ChunkOk(k, Entry(s, StrAt(Solution(k, rk, u), s)))
  {
    SymbolFacts(k, rk, u, s);
    hide MinSkips, RStrip, Solution;
    assert k.SymAt(s).orig != Unknown;
  }

  lemma MinChunksOk(k: Kconf, rk: Cell -> nat, u: User, header: string, c: Chunk)
    requires ContextOk(k, rk, u) && HeaderOk(k, header)
    requires forall s | 0 <= s < |k.syms| && k.SymAt(s).defined ::
               MinSkips(k, u, Solution(k, rk, u), s) || CleanText(k, s, StrAt(Solution(k, rk, u), s))
    requires c in [Text(header)] + MinChunks(k, u, Solution(k, rk, u), 0)
    ensures ChunkOk(k, c)
  {
    if c != Text(header) {
      MinChunksEntries(k, u, Solution(k, rk, u), 0, 0);
      MinChunkOk(k, rk, u, c.s);
    }
  }

  // With clean texts, loading does to each symbol what the analysis of one symbol supposes
  lemma MinLoads(k: Kconf, rk: Cell -> nat, u: User, header: string, s: nat)
    requires ContextOk(k, rk, u) && HeaderOk(k, header) && s < |k.syms| && k.SymAt(s).defined
    requires forall t | 0 <= t < |k.syms| && k.SymAt(t).defined ::
               MinSkips(k, u, Solution(k, rk, u), t) || CleanText(k, t, StrAt(Solution(k, rk, u), t))
    ensures var v := Load(k, u, Lines(MinText(k, u, Solution(k, rk, u), header)), true);
            k.SymAt(s).orig != Unknown ==> MinReloaded(k, u, v, Solution(k, rk, u), s)
  {
    var env := Solution(k, rk, u);
    var es := MinChunks(k, u, env, 0);
    var cs := [Text(header)] + es;
    forall c | c in cs ensures ChunkOk(k, c) { MinChunksOk(k, rk, u, header, c); }
    MinChunksEntries(k, u, env, 0, s);
    assert cs[1..] == es;
    MinChunksRender(k, u, env, 0);
    ChunksReloaded(k, u, cs, s);
    assert Render(k, cs) == MinText(k, u, env, header);
    assert EntryFor(cs, s) == EntryFor(es, s);
    if !MinSkips(k, u, env, s) {
      NotSkippedWritten(k, rk, u, s);
    }
  }

  lemma MinStep(k: Kconf, rk: Cell -> nat, u: User, v: User, s: nat)
    requires ContextOk(k, rk, u) && s < |k.syms|
    requires k.SymAt(s).defined && k.SymAt(s).orig != Unknown ==> MinReloaded(k, u, v, Solution(k, rk, u), s)
    requires k.SymAt(s).defined ==> MinSkips(k, u, Solution(k, rk, u), s) || CleanText(k, s, StrAt(Solution(k, rk, u), s))
    ensures SameStep(k, rk, u, v, s) <==> !(k.SymAt(s).defined && HeldBack(k, u, Solution(k, rk, u), s))
  {
    hide MinReloaded, SameStep;
    if !k.SymAt(s).defined || k.SymAt(s).orig == Unknown {
      FixedStep(k, rk, u, v, s);
    } else if BoolTri(k.SymAt(s).orig) {
      assert SimpleSym(k, s);
      MinStepTri(k, rk, u, v, s);
    } else if k.SymAt(s).orig == String {
      MinStepText(k, rk, u, v, s);
    } else {
      MinStepNumber(k, rk, u, v, s);
    }
  }

  // A value that does not survive a line is lost
  lemma UncleanLost(k: Kconf, rk: Cell -> nat, u: User, v: User, text: string, s: nat)
    requires ContextOk(k, rk, u) && NumbersPlain(k.num) && s < |k.syms| && k.SymAt(s).defined
    requires v == Load(k, u, Lines(text), true) && UserOk(k, v)
    requires !MinSkips(k, u, Solution(k, rk, u), s) && !CleanText(k, s, StrAt(Solution(k, rk, u), s))
    ensures !SameStep(k, rk, u, v, s)
  {
    hide Load, Lines, Solution, ContextOk, WrittenToConf, ActiveRange;
    var env := Solution(k, rk, u);
    SymbolFacts(k, rk, u, s);
    LoadSafe(k, u, text, s);
    NotSkippedWritten(k, rk, u, s);
    assert StrAt(env, s) != StrDefault(k, env, s);
    hide MinSkips, SimpleSym;
    if Numeric(k.SymAt(s).orig) {
      var r := ActiveRange(k, env, s);
      if r.Some? {
        assert LineSafe(Written(k, k.SymAt(s).orig, r.value.0)) && LineSafe(Written(k, k.SymAt(s).orig, r.value.1));
      }
    }
  }

  /** Loading a minimal configuration gives every symbol the value it had when it was
      written, exactly when the configuration is reloadable. */
  lemma MinConfigRoundTrip(k: Kconf, rk: Cell -> nat, u: User, header: string)
    requires ContextOk(k, rk, u) && NumbersPlain(k.num) && HeaderOk(k, header)
    ensures var v := Load(k, u, Lines(MinText(k, u, Solution(k, rk, u), header)), true);
            SameValues(k, rk, u, v) <==> MinReloadable(k, u, Solution(k, rk, u))
  {
    var env := Solution(k, rk, u);
    var text := MinText(k, u, env, header);
    var v := Load(k, u, Lines(text), true);
    LoadOk(k, rk, u, Lines(text), true);
    hide Load, Lines, SameStep, MinText;
    StepsDecide(k, rk, u, v);
    if forall s | 0 <= s < |k.syms| && k.SymAt(s).defined :: MinSkips(k, u, env, s) || CleanText(k, s, StrAt(env, s)) {
      forall s | 0 <= s < |k.syms|
        ensures SameStep(k, rk, u, v, s) <==> !(k.SymAt(s).defined && HeldBack(k, u, env, s))
      {
        if k.SymAt(s).defined {
          MinLoads(k, rk, u, header, s);
        }
        MinStep(k, rk, u, v, s);
      }
    } else {
      var s :| 0 <= s < |k.syms| && k.SymAt(s).defined && !MinSkips(k, u, env, s) && !CleanText(k, s, StrAt(env, s));
      UncleanLost(k, rk, u, v, text, s);
    }
  }

  // ---------- the full configuration ----------

  function EnterChunks(k: Kconf, u: User, env: Env, item: NodeItem, p: Progress): seq<Chunk> {
    match item
    case SymNode(s) =>
      if s in p.done || !WrittenToConf(k, u, env, s) then []
      else [Text(if p.afterEnd then "\n" else ""), Entry(s, StrAt(env, s))]
    case _ => [Text(EnterText(k, u, env, item, p))]
  }

  function NodeChunks(k: Kconf, u: User, env: Env, n: Node, p: Progress): seq<Chunk>
    decreases n, 0
  {
    EnterChunks(k, u, env, n.item, p) +
    ForestChunks(k, u, env, n.children, EnterProgress(k, u, env, n.item, p)) +
    [Text(LeaveText(k, env, n))]
  }

  function ForestChunks(k: Kconf, u: User, env: Env, ns: seq<Node>, p: Progress): seq<Chunk>
    decreases ns, 1
  {
    if ns == [] then []
    else NodeChunks(k, u, env, ns[0], p) + ForestChunks(k, u, env, ns[1..], NodeProgress(k, u, env, ns[0], p))
  }

  lemma EntryNotEmpty(k: Kconf, s: nat, val: string)
    ensures EntryLine(k, s, val) + "\n" != ""
  {
    var e := EntryLine(k, s, val) + "\n";
    assert e[|e| - 1] == '\n';
  }

  lemma EnterChunksRender(k: Kconf, u: User, env: Env, item: NodeItem, p: Progress)
    ensures Render(k, EnterChunks(k, u, env, item, p)) == EnterText(k, u, env, item, p)
  {
    hide EntryLine, WrittenToConf;
    var cs := EnterChunks(k, u, env, item, p);
    if item.SymNode? {
      EntryNotEmpty(k, item.s, StrAt(env, item.s));
      if cs != [] {
        var e := EntryLine(k, item.s, StrAt(env, item.s)) + "\n";
        assert cs[1..] == [cs[1]] && cs[1..][1..] == [];
        assert Render(k, cs[1..]) == e + "" == e;
        assert Render(k, cs) == cs[0].text + e;
      }
    } else {
      assert cs[1..] == [];
      assert Render(k, cs) == cs[0].text + "" == cs[0].text;
    }
  }

  lemma {:induction false} NodeChunksRender(k: Kconf, u: User, env: Env, n: Node, p: Progress)
    ensures Render(k, NodeChunks(k, u, env, n, p)) == NodeText(k, u, env, n, p)
    decreases n, 0
  {
    var p1 := EnterProgress(k, u, env, n.item, p);
    var a, b, c := EnterChunks(k, u, env, n.item, p), ForestChunks(k, u, env, n.children, p1), [Text(LeaveText(k, env, n))];
    EnterChunksRender(k, u, env, n.item, p);
    ForestChunksRender(k, u, env, n.children, p1);
    RenderConcat(k, a, b);
    RenderConcat(k, a + b, c);
    assert c[1..] == [];
    hide LeaveText;
    assert Render(k, c) == c[0].text + "" == c[0].text;
  }

  lemma {:induction false} ForestChunksRender(k: Kconf, u: User, env: Env, ns: seq<Node>, p: Progress)
    ensures Render(k, ForestChunks(k, u, env, ns, p)) == ForestText(k, u, env, ns, p)
    decreases ns, 1
  {
    if ns != [] {
      var p1 := NodeProgress(k, u, env, ns[0], p);
      NodeChunksRender(k, u, env, ns[0], p);
      ForestChunksRender(k, u, env, ns[1..], p1);
      RenderConcat(k, NodeChunks(k, u, env, ns[0], p), ForestChunks(k, u, env, ns[1..], p1));
    }
  }

  // The symbols of a forest
  function NodeSyms(n: Node): set<nat>
    decreases n, 0
  {
    (match n.item case SymNode(s) => {s} case _ => {}) + ForestSyms(n.children)
  }

  function ForestSyms(ns: seq<Node>): set<nat>
    decreases ns, 1
  {
    if ns == [] then {} else NodeSyms(ns[0]) + ForestSyms(ns[1..])
  }

  lemma {:induction false} NodeDone(k: Kconf, u: User, env: Env, n: Node, p: Progress)
    ensures NodeProgress(k, u, env, n, p).done == p.done + NodeSyms(n)
    decreases n, 0
  {
    ForestDone(k, u, env, n.children, EnterProgress(k, u, env, n.item, p));
  }

  lemma {:induction false} ForestDone(k: Kconf, u: User, env: Env, ns: seq<Node>, p: Progress)
    ensures ForestProgress(k, u, env, ns, p).done == p.done + ForestSyms(ns)
    decreases ns, 1
  {
    if ns != [] {
      NodeDone(k, u, env, ns[0], p);
      ForestDone(k, u, env, ns[1..], NodeProgress(k, u, env, ns[0], p));
    }
  }

  // Exactly the written symbols in `syms`, each once
  ghost predicate EntriesAre(k: Kconf, u: User, env: Env, cs: seq<Chunk>, syms: set<nat>) {
    && OnceEach(cs)
    && (forall c <- cs :: c.Entry? ==> c.s in syms && WrittenToConf(k, u, env, c.s) && c.val == StrAt(env, c.s))
    && (forall s <- syms :: WrittenToConf(k, u, env, s) ==> Entry(s, StrAt(env, s)) in cs)
  }

  lemma EntriesConcat(k: Kconf, u: User, env: Env, xs: seq<Chunk>, ys: seq<Chunk>, a: set<nat>, b: set<nat>)
    requires EntriesAre(k, u, env, xs, a) && EntriesAre(k, u, env, ys, b) && a !! b
    ensures EntriesAre(k, u, env, xs + ys, a + b)
  {
    hide WrittenToConf;
    var cs := xs + ys;
    forall i, j | 0 <= i < j < |cs| && cs[i].Entry? && cs[j].Entry?
      ensures cs[i].s != cs[j].s
    {
      if i < |xs| <= j {
        assert cs[i] in xs && cs[j] in ys;
      }
    }
  }

  lemma {:induction false} NodeEntries(k: Kconf, u: User, env: Env, n: Node, p: Progress)
    ensures EntriesAre(k, u, env, NodeChunks(k, u, env, n, p), NodeSyms(n) - p.done)
    decreases n, 0
  {
    hide WrittenToConf;
    var p1 := EnterProgress(k, u, env, n.item, p);
    var a, b, c := EnterChunks(k, u, env, n.item, p), ForestChunks(k, u, env, n.children, p1), [Text(LeaveText(k, env, n))];
    var own := match n.item case SymNode(s) => {s} case _ => {};
    ForestEntries(k, u, env, n.children, p1);
    assert EntriesAre(k, u, env, a, own - p.done);
    assert p1.done == p.done + own;
    EntriesConcat(k, u, env, a, b, own - p.done, ForestSyms(n.children) - p1.done);
    assert EntriesAre(k, u, env, c, {});
    EntriesConcat(k, u, env, a + b, c, own - p.done + (ForestSyms(n.children) - p1.done), {});
    assert own - p.done + (ForestSyms(n.children) - p1.done) + {} == NodeSyms(n) - p.done;
  }

  lemma {:induction false} ForestEntries(k: Kconf, u: User, env: Env, ns: seq<Node>, p: Progress)
    ensures EntriesAre(k, u, env, ForestChunks(k, u, env, ns, p), ForestSyms(ns) - p.done)
    decreases ns, 1
  {
    hide WrittenToConf;
    if ns != [] {
      var p1 := NodeProgress(k, u, env, ns[0], p);
      NodeEntries(k, u, env, ns[0], p);
      NodeDone(k, u, env, ns[0], p);
      ForestEntries(k, u, env, ns[1..], p1);
      EntriesConcat(k, u, env, NodeChunks(k, u, env, ns[0], p), ForestChunks(k, u, env, ns[1..], p1),
                    NodeSyms(ns[0]) - p.done, ForestSyms(ns[1..]) - p1.done);
      assert NodeSyms(ns[0]) - p.done + (ForestSyms(ns[1..]) - p1.done) == ForestSyms(ns) - p.done;
    }
  }

  // No title in the forest makes a line that assigns something
  predicate TitleInert(k: Kconf, item: NodeItem) {
    match item
    case MenuNode(title, _, _) => InertText(k, Heading(title)) && InertText(k, EndComment(title))
    case CommentNode(title, _) => InertText(k, Heading(title))
    case _ => true
  }

  predicate TitlesInert(k: Kconf, ns: seq<Node>)
    decreases ns
  {
    ns == [] || (TitleInert(k, ns[0].item) && TitlesInert(k, ns[0].children) && TitlesInert(k, ns[1..]))
  }

  predicate TextsInert(k: Kconf, cs: seq<Chunk>) { forall c <- cs :: c.Text? ==> InertText(k, c.text) }

  lemma BlankInert(k: Kconf)
    ensures InertText(k, "") && InertText(k, "\n")
  {
    assert "\n"[1..] == "";
    assert Lines("\n") == [""] + Lines("");
    assert Lines("") == [];
  }

  lemma {:induction false} ForestInert(k: Kconf, u: User, env: Env, ns: seq<Node>, p: Progress)
    requires TitlesInert(k, ns)
    ensures TextsInert(k, ForestChunks(k, u, env, ns, p))
    decreases ns
  {
    hide InertText, WrittenToConf;
    BlankInert(k);
    if ns != [] {
      ForestInert(k, u, env, ns[0].children, EnterProgress(k, u, env, ns[0].item, p));
      ForestInert(k, u, env, ns[1..], NodeProgress(k, u, env, ns[0], p));
    }
  }

  // The tree holds every defined symbol and no other, and its titles are harmless
  predicate TreeOk(k: Kconf, ns: seq<Node>) {
    && ForestSyms(ns) == (set s: nat | s < |k.syms| && k.SymAt(s).defined)
    && TitlesInert(k, ns)
  }

  // No value that is written breaks its line
  ghost predicate OneLine(k: Kconf, u: User, env: Env) {
    forall s | 0 <= s < |k.syms| && k.SymAt(s).defined :: WrittenToConf(k, u, env, s) ==> !HasBreak(StrAt(env, s))
  }

  // Loading a full configuration does to each symbol what the analysis of one symbol supposes
  lemma FullChunkOk(k: Kconf, rk: Cell -> nat, u: User, header: string, ns: seq<Node>, c: Chunk)
    requires ContextOk(k, rk, u) && HeaderOk(k, header) && TreeOk(k, ns) && OneLine(k, u, Solution(k, rk, u))
    requires c in [Text(header)] + ForestChunks(k, u, Solution(k, rk, u), ns, Progress({}, false))
    ensures ChunkOk(k, c)
  {
    var env := Solution(k, rk, u);
    ForestEntries(k, u, env, ns, Progress({}, false));
    ForestInert(k, u, env, ns, Progress({}, false));
    hide ForestChunks;
    if c.Entry? {
      SymbolFacts(k, rk, u, c.s);
    }
  }

  lemma FullLoads(k: Kconf, rk: Cell -> nat, u: User, header: string, ns: seq<Node>, s: nat)
    requires ContextOk(k, rk, u) && HeaderOk(k, header) && TreeOk(k, ns) && OneLine(k, u, Solution(k, rk, u))
    requires s < |k.syms| && k.SymAt(s).defined
    ensures var v := Load(k, u, Lines(FullText(k, u, Solution(k, rk, u), header, ns)), true);
            FullReloaded(k, u, v, Solution(k, rk, u), s)
  {
    hide WrittenToConf, ForestChunks, ForestText, ChunkOk, Solution, Load;
    var env := Solution(k, rk, u);
    var p := Progress({}, false);
    var es := ForestChunks(k, u, env, ns, p);
    var cs := [Text(header)] + es;
    forall c | c in cs ensures ChunkOk(k, c) {
      FullChunkOk(k, rk, u, header, ns, c);
    }
    ForestEntries(k, u, env, ns, p);
    assert ForestSyms(ns) - p.done == ForestSyms(ns);
    ForestChunksRender(k, u, env, ns, p);
    assert cs[1..] == es;
    assert EntriesAre(k, u, env, [Text(header)], {});
    EntriesConcat(k, u, env, [Text(header)], es, {}, ForestSyms(ns));
    ChunksReloaded(k, u, cs, s);
    assert Render(k, cs) == FullText(k, u, env, header, ns);
    EntryForIn(cs, s);
  }

  // What a full configuration cannot bring back: exactly these symbols change
  predicate FullLoses(k: Kconf, env: Env, s: nat) { OverVisible(k, env, s) || NumberCut(k, env, s) }

  lemma FullStep(k: Kconf, rk: Cell -> nat, u: User, v: User, s: nat)
    requires ContextOk(k, rk, u) && s < |k.syms|
    requires k.SymAt(s).defined ==> FullReloaded(k, u, v, Solution(k, rk, u), s)
    ensures SameStep(k, rk, u, v, s) <==> !(k.SymAt(s).defined && FullLoses(k, Solution(k, rk, u), s))
  {
    hide FullReloaded, SameStep;
    if !k.SymAt(s).defined || k.SymAt(s).orig == Unknown {
      FixedStep(k, rk, u, v, s);
    } else if BoolTri(k.SymAt(s).orig) {
      assert SimpleSym(k, s);
      FullStepTri(k, rk, u, v, s);
    } else if k.SymAt(s).orig == String {
      FullStepText(k, rk, u, v, s);
    } else {
      FullStepNumber(k, rk, u, v, s);
    }
  }

  /** Loading a full configuration no text of which breaks its line leaves every symbol's
      value unchanged, exactly when no tristate symbol without a user value has a default
      above its visibility and no visible number loses white space at its end. */
  lemma FullConfigRoundTrip(k: Kconf, rk: Cell -> nat, u: User, header: string, ns: seq<Node>)
    requires ContextOk(k, rk, u) && HeaderOk(k, header) && TreeOk(k, ns) && OneLine(k, u, Solution(k, rk, u))
    ensures var v := Load(k, u, Lines(FullText(k, u, Solution(k, rk, u), header, ns)), true);
            SameValues(k, rk, u, v) <==>
            forall s | 0 <= s < |k.syms| && k.SymAt(s).defined :: !FullLoses(k, Solution(k, rk, u), s)
  {
    var env := Solution(k, rk, u);
    var text := FullText(k, u, env, header, ns);
    var v := Load(k, u, Lines(text), true);
    LoadOk(k, rk, u, Lines(text), true);
    StepsDecide(k, rk, u, v);
    forall s | 0 <= s < |k.syms|
      ensures SameStep(k, rk, u, v, s) <==> !(k.SymAt(s).defined && FullLoses(k, env, s))
    {
      if k.SymAt(s).defined {
        FullLoads(k, rk, u, header, ns, s);
      }
      hide Load, Lines, FullText, SameStep, FullLoses;
      FullStep(k, rk, u, v, s);
    }
  }

  // A full configuration loses every text that is not a default and does not survive its line
  lemma FullConfigLosesText(k: Kconf, rk: Cell -> nat, u: User, header: string, ns: seq<Node>, s: nat)
    requires ContextOk(k, rk, u) && NumbersPlain(k.num) && s < |k.syms| && k.SymAt(s).defined
    requires !MinSkips(k, u, Solution(k, rk, u), s) && !CleanText(k, s, StrAt(Solution(k, rk, u), s))
    ensures !SameValues(k, rk, u, Load(k, u, Lines(FullText(k, u, Solution(k, rk, u), header, ns)), true))
  {
    var text := FullText(k, u, Solution(k, rk, u), header, ns);
    var v := Load(k, u, Lines(text), true);
    LoadOk(k, rk, u, Lines(text), true);
    hide Load, Lines, SameStep, FullText;
    StepsDecide(k, rk, u, v);
    UncleanLost(k, rk, u, v, text, s);
  }

  // ---------- writing again ----------

  // The same attributes everywhere
  ghost predicate SameEverywhere(k: Kconf, e1: Env, e2: Env) {
    forall c | HasCell(k, c) :: e1(c) == e2(c)
  }

  lemma SameEntry(k: Kconf, rk: Cell -> nat, u: User, v: User, s: nat)
    requires WellFormed(k, rk) && UserOk(k, u) && UserOk(k, v) && s < |k.syms|
    requires SameEverywhere(k, Solution(k, rk, u), Solution(k, rk, v))
    ensures ConfigString(k, v, Solution(k, rk, v), s) == ConfigString(k, u, Solution(k, rk, u), s)
  {
    var e1 := Solution(k, rk, u);
    var c := FlagCell(k, s);
    assert MayOk(k, rk, c);
    hide WellFormed, UserOk, Solution, WrittenToConf, EntryLine, Reads, May;
    ReadsMay(k, u, e1, c);
    WrittenAgree(k, u, e1, Solution(k, rk, v), s);
  }

  lemma SameValueOf(k: Kconf, e1: Env, e2: Env, e: Expr)
    requires SameEverywhere(k, e1, e2) && ExprExists(k, e)
    ensures Ev(k, e1, e) == Ev(k, e2, e)
  {
    EReadsMay(k, e1, e);
    EAgree(k, e1, e2, e);
  }

  lemma SameShown(k: Kconf, e1: Env, e2: Env, item: NodeItem)
    requires SameEverywhere(k, e1, e2) && ItemExists(k, item)
    ensures MenuShown(k, e1, item) == MenuShown(k, e2, item) && CommentShown(k, e1, item) == CommentShown(k, e2, item)
  {
    match item
    case MenuNode(_, dep, visibility) => SameValueOf(k, e1, e2, dep); SameValueOf(k, e1, e2, visibility);
    case CommentNode(_, dep) => SameValueOf(k, e1, e2, dep);
    case _ =>
  }

  lemma SameEnter(k: Kconf, rk: Cell -> nat, u: User, v: User, item: NodeItem, p: Progress)
    requires WellFormed(k, rk) && UserOk(k, u) && UserOk(k, v) && ItemExists(k, item)
    requires SameEverywhere(k, Solution(k, rk, u), Solution(k, rk, v))
    ensures EnterText(k, v, Solution(k, rk, v), item, p) == EnterText(k, u, Solution(k, rk, u), item, p)
    ensures EnterProgress(k, v, Solution(k, rk, v), item, p) == EnterProgress(k, u, Solution(k, rk, u), item, p)
  {
    hide ConfigString, MenuShown, CommentShown, Solution, WellFormed;
    SameShown(k, Solution(k, rk, u), Solution(k, rk, v), item);
    if item.SymNode? {
      SameEntry(k, rk, u, v, item.s);
    }
  }

  lemma {:induction false} SameForest(k: Kconf, rk: Cell -> nat, u: User, v: User, ns: seq<Node>, p: Progress)
    requires WellFormed(k, rk) && UserOk(k, u) && UserOk(k, v) && ForestExists(k, ns)
    requires SameEverywhere(k, Solution(k, rk, u), Solution(k, rk, v))
    ensures ForestText(k, v, Solution(k, rk, v), ns, p) == ForestText(k, u, Solution(k, rk, u), ns, p)
    ensures ForestProgress(k, v, Solution(k, rk, v), ns, p) == ForestProgress(k, u, Solution(k, rk, u), ns, p)
    decreases ns
  {
    if ns != [] {
      var e1 := Solution(k, rk, u);
      SameEnter(k, rk, u, v, ns[0].item, p);
      SameShown(k, e1, Solution(k, rk, v), ns[0].item);
      hide EnterText, EnterProgress, MenuShown, Solution, WellFormed, SameEverywhere;
      SameForest(k, rk, u, v, ns[0].children, EnterProgress(k, u, e1, ns[0].item, p));
      SameForest(k, rk, u, v, ns[1..], NodeProgress(k, u, e1, ns[0], p));
    }
  }

  /** When all values survive, writing the full configuration again gives the same text. */
  lemma WritingAgain(k: Kconf, rk: Cell -> nat, u: User, v: User, header: string, ns: seq<Node>)
    requires WellFormed(k, rk) && UserOk(k, u) && UserOk(k, v) && Simple(k) && ForestExists(k, ns)
    requires SameValues(k, rk, u, v)
    ensures FullText(k, v, Solution(k, rk, v), header, ns) == FullText(k, u, Solution(k, rk, u), header, ns)
  {
    forall c | HasCell(k, c)
      ensures Solution(k, rk, u)(c) == Solution(k, rk, v)(c)
    {
      StringsDecide(k, rk, u, v, c);
    }
    SameForest(k, rk, u, v, ns, Progress({}, false));
  }

  // ---------- on the caching evaluator ----------

  /** Saves the minimal configuration and loads it back: the values afterwards are the
      values before exactly when the configuration is reloadable. */
  method SaveAndLoadMin(conf: Kconfig, header: string) returns (text: string)
    requires conf.Valid() && ContextOk(conf.k, conf.rk, conf.user) && NumbersPlain(conf.k.num)
    requires HeaderOk(conf.k, header) && RevDepsExist(conf.k)
    modifies conf, conf.syms, conf.choices
    ensures conf.Valid()
    ensures SameValues(conf.k, conf.rk, old(conf.user), conf.user) <==>
            MinReloadable(conf.k, old(conf.user), Solution(conf.k, conf.rk, old(conf.user)))
  {
    text := WriteMinConfig(conf, header);
    MinConfigRoundTrip(conf.k, conf.rk, conf.user, header);
    hide *;
    LoadConfig(conf, Lines(text), true);
  }

  /** Saves the full configuration, loads it back and saves it again: if it loses nothing,
      all values are unchanged and the second file equals the first. */
  method SaveLoadSave(conf: Kconfig, header: string, ns: seq<Node>) returns (text: string, again: string)
    requires conf.Valid() && ContextOk(conf.k, conf.rk, conf.user) && HeaderOk(conf.k, header)
    requires TreeOk(conf.k, ns) && ForestExists(conf.k, ns) && OneLine(conf.k, conf.user, conf.Sol())
    requires forall s | 0 <= s < |conf.k.syms| && conf.k.SymAt(s).defined :: !FullLoses(conf.k, conf.Sol(), s)
    modifies conf, conf.syms, conf.choices
    ensures conf.Valid() && SameValues(conf.k, conf.rk, old(conf.user), conf.user)
    ensures again == text == FullText(conf.k, old(conf.user), Solution(conf.k, conf.rk, old(conf.user)), header, ns)
  {
    ghost var u := conf.user;
    FullConfigRoundTrip(conf.k, conf.rk, u, header, ns);
    text := WriteFullConfig(conf, header, ns);
    LoadConfig(conf, Lines(text), true);
    again := WriteFullConfig(conf, header, ns);
    WritingAgain(conf.k, conf.rk, u, conf.user, header, ns);
  }
}
