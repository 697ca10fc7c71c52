/** The uncached definition of every value a configuration has: what one attribute of
    one symbol or choice is, given the attributes it looks at. `Step` is that definition,
    `Reads` says which other attributes it actually looks at (evaluation short-circuits),
    and `Value` ties the knot along an evaluation order. */
module Values {
  import opened Expressions
  import opened Wrappers

  datatype SymType = Unknown | Bool | Tristate | String | Int | Hex

  predicate BoolTri(t: SymType) { t == Bool || t == Tristate }
  predicate Numeric(t: SymType) { t == Int || t == Hex }

  // The base handed to the number parser; 0 lets the text decide
  function Base(t: SymType): nat {
    if t == Int then 10 else if t == Hex then 16 else 0
  }

  /** Number syntax: parsing text in a base, and writing a number in decimal or
      hexadecimal. */
  datatype Numbers = Numbers(parse: (string, nat) -> Option<int>, dec: int -> string, hex: int -> string)

  datatype Default = Default(value: Expr, cond: Expr)
  datatype Range = Range(low: nat, high: nat, cond: Expr)
  datatype ChoiceDefault = ChoiceDefault(sym: nat, cond: Expr)

  /** A symbol after parsing and dependency propagation. `fixed` is the value of the
      constants n, m and y; `prompts` are the conditions of the prompts, over all menu
      nodes of the symbol; `auto` marks `option env` and the defconfig_list symbol. */
  datatype SymDef = SymDef(
    name: string, orig: SymType, constant: bool, fixed: Option<Tri>, defined: bool,
    prompts: seq<Expr>, defaults: seq<Default>, ranges: seq<Range>,
    revDep: Expr, weakRevDep: Expr, directDep: Expr,
    choice: Option<nat>, auto: bool)

  datatype ChoiceDef = ChoiceDef(
    orig: SymType, optional: bool, prompts: seq<Expr>, defaults: seq<ChoiceDefault>, syms: seq<nat>)

  datatype Kconf = Kconf(
    syms: seq<SymDef>, choices: seq<ChoiceDef>,
    n: nat, m: nat, y: nat, modules: nat, num: Numbers)
  {
    // Totalised lookups: a number that names nothing is an undefined symbol or an empty choice
    function SymAt(s: nat): SymDef {
      if s < |syms| then syms[s]
      else SymDef("", Unknown, false, None, false, [], [], [], Atom(Sym(n)), Atom(Sym(n)), Atom(Sym(n)), None, false)
    }
    function ChoiceAt(c: nat): ChoiceDef {
      if c < |choices| then choices[c] else ChoiceDef(Unknown, false, [], [], [])
    }
  }

  datatype UserValue = UTri(t: Tri) | UStr(str: string)

  /** Everything the user has set. */
  datatype User = User(values: map<nat, UserValue>, modes: map<nat, Tri>, selections: map<nat, nat>)

  // The attributes of symbols and choices
  datatype Cell =
    | Vis(item: Item)
    | TriOf(s: nat)
    | StrOf(s: nat)
    | Assignable(item: Item)
    | ModeOf(c: nat)
    | SelOf(c: nat)
  {
    function Owner(): Item {
      match this
      case Vis(i) => i
      case TriOf(s) => Sym(s)
      case StrOf(s) => Sym(s)
      case Assignable(i) => i
      case ModeOf(c) => Cho(c)
      case SelOf(c) => Cho(c)
    }
  }

  datatype V = VTri(t: Tri) | VStr(str: string) | VSel(sel: Option<nat>) | VSet(vals: seq<Tri>)

  type Env = Cell -> V

  function TriAt(env: Env, c: Cell): Tri { match env(c) case VTri(t) => t case _ => 0 }
  function StrAt(env: Env, s: nat): string { match env(StrOf(s)) case VStr(x) => x case _ => "" }
  function SelAt(env: Env, c: nat): Option<nat> { match env(SelOf(c)) case VSel(x) => x case _ => None }

  function TriStr(t: Tri): string { if t == 0 then "n" else if t == 1 then "m" else "y" }

  // ---------- expressions ----------

  function ItemCell(i: Item): Cell { match i case Sym(s) => TriOf(s) case Cho(c) => ModeOf(c) }

  predicate LexLess(a: string, b: string) {
    b != [] && (a == [] || a[0] < b[0] || (a[0] == b[0] && LexLess(a[1..], b[1..])))
  }

  function StrCmp(a: string, b: string): int {
    if LexLess(b, a) then 1 else if LexLess(a, b) then -1 else 0
  }

  function Num(k: Kconf, env: Env, s: nat): Option<int> {
    if BoolTri(k.SymAt(s).orig) then Some(TriAt(env, TriOf(s)))
    else k.num.parse(StrAt(env, s), Base(k.SymAt(s).orig))
  }

  function Compare(k: Kconf, env: Env, l: nat, r: nat): int {
    if k.SymAt(l).orig == String && k.SymAt(r).orig == String then
      StrCmp(StrAt(env, l), StrAt(env, r))
    else
      match (Num(k, env, l), Num(k, env, r))
      case (Some(a), Some(b)) => a - b
      case _ => StrCmp(StrAt(env, l), StrAt(env, r))
  }

  predicate Satisfies(op: RelOp, comp: int) {
    match op
    case Equal => comp == 0
    case Unequal => comp != 0
    case Less => comp < 0
    case LessEqual => comp <= 0
    case Greater => comp > 0
    case GreaterEqual => comp >= 0
  }

  function AssignmentOf(k: Kconf, env: Env): Assignment {
    Assignment(
      (i: Item) => TriAt(env, ItemCell(i)),
      (op: RelOp, l: nat, r: nat) => Satisfies(op, Compare(k, env, l, r)))
  }

  function Ev(k: Kconf, env: Env, e: Expr): Tri { Eval(e, AssignmentOf(k, env)) }

  function NumCell(k: Kconf, s: nat): Cell { if BoolTri(k.SymAt(s).orig) then TriOf(s) else StrOf(s) }

  function RelReads(k: Kconf, env: Env, l: nat, r: nat): set<Cell> {
    if k.SymAt(l).orig == String && k.SymAt(r).orig == String then {StrOf(l), StrOf(r)}
    else if Num(k, env, l) == None then {NumCell(k, l), StrOf(l), StrOf(r)}
    else if Num(k, env, r) == None then {NumCell(k, l), NumCell(k, r), StrOf(l), StrOf(r)}
    else {NumCell(k, l), NumCell(k, r)}
  }

  function EReads(k: Kconf, env: Env, e: Expr): set<Cell> {
    match e
    case Atom(i) => {ItemCell(i)}
    case And(l, r) => if Ev(k, env, l) == 0 then EReads(k, env, l) else EReads(k, env, l) + EReads(k, env, r)
    case Or(l, r) => if Ev(k, env, l) == 2 then EReads(k, env, l) else EReads(k, env, l) + EReads(k, env, r)
    case Not(e1) => EReads(k, env, e1)
    case Rel(_, l, r) => RelReads(k, env, l, r)
  }

  // Everything evaluating `e` might look at, whatever the values
  function EMay(k: Kconf, e: Expr): set<Cell> {
    match e
    case Atom(i) => {ItemCell(i)}
    case And(l, r) => EMay(k, l) + EMay(k, r)
    case Or(l, r) => EMay(k, l) + EMay(k, r)
    case Not(e1) => EMay(k, e1)
    case Rel(_, l, r) => {NumCell(k, l), NumCell(k, r), StrOf(l), StrOf(r)}
  }

  // ---------- folds over lists of conditions ----------

  // The largest of the conditions
  function MaxOf(k: Kconf, env: Env, es: seq<Expr>): Tri {
    if es == [] then 0 else Max(MaxOf(k, env, es[..|es| - 1]), Ev(k, env, es[|es| - 1]))
  }

  function MaxReads(k: Kconf, env: Env, es: seq<Expr>): set<Cell> {
    if es == [] then {} else MaxReads(k, env, es[..|es| - 1]) + EReads(k, env, es[|es| - 1])
  }

  function AllMay(k: Kconf, es: seq<Expr>): set<Cell> {
    if es == [] then {} else AllMay(k, es[..|es| - 1]) + EMay(k, es[|es| - 1])
  }

  // The index of the first condition, from `i` on, that is not n; |es| if there is none
  function FirstHit(k: Kconf, env: Env, es: seq<Expr>, i: nat): (h: nat)
    requires i <= |es|
    ensures i <= h <= |es|
    decreases |es| - i
  {
    if i == |es| || Ev(k, env, es[i]) != 0 then i else FirstHit(k, env, es, i + 1)
  }

  function HitReads(k: Kconf, env: Env, es: seq<Expr>, i: nat): set<Cell>
    requires i <= |es|
    decreases |es| - i
  {
    if i == |es| then {}
    else if Ev(k, env, es[i]) != 0 then EReads(k, env, es[i])
    else EReads(k, env, es[i]) + HitReads(k, env, es, i + 1)
  }

  function DefaultConds(ds: seq<Default>): seq<Expr> { seq(|ds|, i requires 0 <= i < |ds| => ds[i].cond) }
  function DefaultValues(ds: seq<Default>): seq<Expr> { seq(|ds|, i requires 0 <= i < |ds| => ds[i].value) }
  function RangeConds(rs: seq<Range>): seq<Expr> { seq(|rs|, i requires 0 <= i < |rs| => rs[i].cond) }
  function ChoiceConds(ds: seq<ChoiceDefault>): seq<Expr> { seq(|ds|, i requires 0 <= i < |ds| => ds[i].cond) }

  // ---------- types ----------

  function ChoiceType(k: Kconf, env: Env, c: nat): SymType {
    if k.ChoiceAt(c).orig == Tristate && TriAt(env, TriOf(k.modules)) == 0 then Bool else k.ChoiceAt(c).orig
  }

  function ChoiceTypeReads(k: Kconf, c: nat): set<Cell> {
    if k.ChoiceAt(c).orig == Tristate then {TriOf(k.modules)} else {}
  }

  predicate ChoiceInYMode(k: Kconf, env: Env, s: nat) {
    k.SymAt(s).choice.Some? && TriAt(env, ModeOf(k.SymAt(s).choice.value)) == 2
  }

  function TypeOf(k: Kconf, env: Env, s: nat): SymType {
    if k.SymAt(s).orig == Tristate && (ChoiceInYMode(k, env, s) || TriAt(env, TriOf(k.modules)) == 0)
    then Bool else k.SymAt(s).orig
  }

  function TypeReads(k: Kconf, env: Env, s: nat): set<Cell> {
    var d := k.SymAt(s);
    if d.orig != Tristate then {}
    else if d.choice == None then {TriOf(k.modules)}
    else if ChoiceInYMode(k, env, s) then {ModeOf(d.choice.value)}
    else {ModeOf(d.choice.value), TriOf(k.modules)}
  }

  function ModeMay(k: Kconf, s: nat): set<Cell> {
    match k.SymAt(s).choice case Some(c) => {ModeOf(c)} case None => {}
  }

  // ---------- visibility ----------

  function SymVis(k: Kconf, env: Env, s: nat): Tri {
    var d := k.SymAt(s);
    var raw := MaxOf(k, env, d.prompts);
    if d.choice.Some? && k.ChoiceAt(d.choice.value).orig == Tristate && d.orig != Tristate &&
       TriAt(env, ModeOf(d.choice.value)) != 2 then 0
    else if d.choice.Some? && d.orig == Tristate && raw == 1 && TriAt(env, ModeOf(d.choice.value)) == 2 then 0
    else if raw == 1 && TypeOf(k, env, s) != Tristate then 2
    else raw
  }

  /** The attributes a symbol's visibility depends on. When every prompt condition is n
      the choice is looked at too, but then it makes no difference. */
  function SymVisReads(k: Kconf, env: Env, s: nat): set<Cell> {
    var d := k.SymAt(s);
    var raw := MaxOf(k, env, d.prompts);
    var base := MaxReads(k, env, d.prompts);
    if raw == 0 then base
    else if d.choice.Some? && k.ChoiceAt(d.choice.value).orig == Tristate && d.orig != Tristate then
      base + {ModeOf(d.choice.value)}
    else if raw == 2 then base
    else if d.choice.Some? && d.orig == Tristate then
      if TriAt(env, ModeOf(d.choice.value)) == 2 then base + {ModeOf(d.choice.value)}
      else base + {ModeOf(d.choice.value)} + TypeReads(k, env, s)
    else base + TypeReads(k, env, s)
  }

  function ChoiceVis(k: Kconf, env: Env, c: nat): Tri {
    var raw := MaxOf(k, env, k.ChoiceAt(c).prompts);
    if raw == 1 && ChoiceType(k, env, c) != Tristate then 2 else raw
  }

  function ChoiceVisReads(k: Kconf, env: Env, c: nat): set<Cell> {
    MaxReads(k, env, k.ChoiceAt(c).prompts) +
    if MaxOf(k, env, k.ChoiceAt(c).prompts) == 1 then ChoiceTypeReads(k, c) else {}
  }

  // ---------- tristate value ----------

  // The value a non-choice symbol gets from its defaults and implies
  function DefaultTri(k: Kconf, env: Env, s: nat): Tri {
    var ds := k.SymAt(s).defaults;
    var h := FirstHit(k, env, DefaultConds(ds), 0);
    if h == |ds| then 0 else Min(Ev(k, env, ds[h].value), Ev(k, env, ds[h].cond))
  }

  function DefaultTriReads(k: Kconf, env: Env, s: nat): set<Cell> {
    var ds := k.SymAt(s).defaults;
    var h := FirstHit(k, env, DefaultConds(ds), 0);
    HitReads(k, env, DefaultConds(ds), 0) + if h == |ds| then {} else EReads(k, env, ds[h].value)
  }

  predicate Implied(k: Kconf, env: Env, s: nat) {
    Ev(k, env, k.SymAt(s).weakRevDep) != 0 && Ev(k, env, k.SymAt(s).directDep) != 0
  }

  function ImpliedReads(k: Kconf, env: Env, s: nat): set<Cell> {
    EReads(k, env, k.SymAt(s).weakRevDep) +
    if Ev(k, env, k.SymAt(s).weakRevDep) != 0 then EReads(k, env, k.SymAt(s).directDep) else {}
  }

  function UserTri(u: User, s: nat): Option<Tri> {
    if s in u.values && u.values[s].UTri? then Some(u.values[s].t) else None
  }

  // The user value counts only when the symbol is visible
  function BaseTri(k: Kconf, u: User, env: Env, s: nat): Tri {
    var vis := TriAt(env, Vis(Sym(s)));
    if vis != 0 && UserTri(u, s).Some? then Min(UserTri(u, s).value, vis)
    else if Implied(k, env, s) then Max(DefaultTri(k, env, s), Ev(k, env, k.SymAt(s).weakRevDep))
    else DefaultTri(k, env, s)
  }

  function BaseTriReads(k: Kconf, u: User, env: Env, s: nat): set<Cell> {
    if TriAt(env, Vis(Sym(s))) != 0 && UserTri(u, s).Some? then {}
    else DefaultTriReads(k, env, s) + ImpliedReads(k, env, s)
  }

  predicate Promoted(k: Kconf, env: Env, s: nat) {
    TypeOf(k, env, s) == Bool || Ev(k, env, k.SymAt(s).weakRevDep) == 2
  }

  function PromotedReads(k: Kconf, env: Env, s: nat): set<Cell> {
    TypeReads(k, env, s) +
    if TypeOf(k, env, s) == Bool then {} else EReads(k, env, k.SymAt(s).weakRevDep)
  }

  function FreeTri(k: Kconf, u: User, env: Env, s: nat): Tri {
    var val := Max(Ev(k, env, k.SymAt(s).revDep), BaseTri(k, u, env, s));
    if val == 1 && Promoted(k, env, s) then 2 else val
  }

  function FreeTriReads(k: Kconf, u: User, env: Env, s: nat): set<Cell> {
    var val := Max(Ev(k, env, k.SymAt(s).revDep), BaseTri(k, u, env, s));
    {Vis(Sym(s))} + BaseTriReads(k, u, env, s) + EReads(k, env, k.SymAt(s).revDep) +
    if val == 1 then PromotedReads(k, env, s) else {}
  }

  function MemberTri(k: Kconf, u: User, env: Env, s: nat): Tri
    requires k.SymAt(s).choice.Some?
  {
    var vis := TriAt(env, Vis(Sym(s)));
    if vis == 2 then
      if SelAt(env, k.SymAt(s).choice.value) == Some(s) then 2 else 0
    else if vis != 0 && UserTri(u, s).Some? && UserTri(u, s).value != 0 then 1
    else 0
  }

  function StepTri(k: Kconf, u: User, env: Env, s: nat): Tri {
    var d := k.SymAt(s);
    if d.fixed.Some? then d.fixed.value
    else if !BoolTri(d.orig) then 0
    else if d.choice.Some? then MemberTri(k, u, env, s)
    else FreeTri(k, u, env, s)
  }

  function TriReads(k: Kconf, u: User, env: Env, s: nat): set<Cell> {
    var d := k.SymAt(s);
    if d.fixed.Some? || !BoolTri(d.orig) then {}
    else if d.choice.Some? then
      {Vis(Sym(s))} + if TriAt(env, Vis(Sym(s))) == 2 then {SelOf(d.choice.value)} else {}
    else FreeTriReads(k, u, env, s)
  }

  // ---------- string value ----------

  function NumOr0(k: Kconf, env: Env, s: nat, base: nat): int {
    match k.num.parse(StrAt(env, s), base) case Some(x) => x case None => 0
  }

  // The bounds of the first range whose condition holds
  function ActiveRange(k: Kconf, env: Env, s: nat): Option<(int, int)> {
    var d := k.SymAt(s);
    var h := FirstHit(k, env, RangeConds(d.ranges), 0);
    if h == |d.ranges| then None
    else Some((NumOr0(k, env, d.ranges[h].low, Base(d.orig)), NumOr0(k, env, d.ranges[h].high, Base(d.orig))))
  }

  function RangeReads(k: Kconf, env: Env, s: nat): set<Cell> {
    var rs := k.SymAt(s).ranges;
    var h := FirstHit(k, env, RangeConds(rs), 0);
    HitReads(k, env, RangeConds(rs), 0) + if h == |rs| then {} else {StrOf(rs[h].low), StrOf(rs[h].high)}
  }

  // The symbol a default of a string or number names
  function DefaultSym(d: Default): nat {
    match d.value case Atom(Sym(x)) => x case _ => 0
  }

  // The text of the first default whose condition holds
  function DefaultStr(k: Kconf, env: Env, s: nat): Option<string> {
    var ds := k.SymAt(s).defaults;
    var h := FirstHit(k, env, DefaultConds(ds), 0);
    if h == |ds| then None else Some(StrAt(env, DefaultSym(ds[h])))
  }

  function DefaultStrReads(k: Kconf, env: Env, s: nat): set<Cell> {
    var ds := k.SymAt(s).defaults;
    var h := FirstHit(k, env, DefaultConds(ds), 0);
    HitReads(k, env, DefaultConds(ds), 0) + if h == |ds| then {} else {StrOf(DefaultSym(ds[h]))}
  }

  function UserStr(u: User, s: nat): Option<string> {
    if s in u.values && u.values[s].UStr? then Some(u.values[s].str) else None
  }

  predicate InRange(x: int, range: Option<(int, int)>) {
    range.Some? ==> range.value.0 <= x <= range.value.1
  }

  // The user's number, if it is in force
  function UserNumber(k: Kconf, u: User, env: Env, s: nat): Option<string> {
    if TriAt(env, Vis(Sym(s))) == 0 || UserStr(u, s) == None || UserStr(u, s) == Some("") then None
    else
      match k.num.parse(UserStr(u, s).value, Base(k.SymAt(s).orig))
      case Some(x) => if InRange(x, ActiveRange(k, env, s)) then UserStr(u, s) else None
      case None => None
  }

  function Clamped(k: Kconf, orig: SymType, text: string, x: int, range: Option<(int, int)>): string {
    if range == None then text
    else if x < range.value.0 then Written(k, orig, range.value.0)
    else if x > range.value.1 then Written(k, orig, range.value.1)
    else text
  }

  function Written(k: Kconf, orig: SymType, x: int): string {
    if orig == Int then k.num.dec(x) else k.num.hex(x)
  }

  // The number a symbol has without a (usable) user value
  function DefaultNumber(k: Kconf, env: Env, s: nat): string {
    var orig := k.SymAt(s).orig;
    var text := match DefaultStr(k, env, s) case Some(x) => x case None => "";
    var x := match DefaultStr(k, env, s)
             case Some(t) => (match k.num.parse(t, Base(orig)) case Some(v) => v case None => 0)
             case None => 0;
    Clamped(k, orig, text, x, ActiveRange(k, env, s))
  }

  function NumberStr(k: Kconf, u: User, env: Env, s: nat): string {
    match UserNumber(k, u, env, s) case Some(v) => v case None => DefaultNumber(k, env, s)
  }

  function NumberReads(k: Kconf, u: User, env: Env, s: nat): set<Cell> {
    {Vis(Sym(s))} + RangeReads(k, env, s) +
    if UserNumber(k, u, env, s).Some? then {} else DefaultStrReads(k, env, s)
  }

  function TextStr(k: Kconf, u: User, env: Env, s: nat): string {
    if TriAt(env, Vis(Sym(s))) != 0 && UserStr(u, s).Some? then UserStr(u, s).value
    else match DefaultStr(k, env, s) case Some(v) => v case None => ""
  }

  function TextReads(k: Kconf, u: User, env: Env, s: nat): set<Cell> {
    {Vis(Sym(s))} +
    if TriAt(env, Vis(Sym(s))) != 0 && UserStr(u, s).Some? then {} else DefaultStrReads(k, env, s)
  }

  function StepStr(k: Kconf, u: User, env: Env, s: nat): string {
    var d := k.SymAt(s);
    match d.orig
    case Unknown => d.name
    case String => TextStr(k, u, env, s)
    case Int => NumberStr(k, u, env, s)
    case Hex => NumberStr(k, u, env, s)
    case _ => TriStr(TriAt(env, TriOf(s)))
  }

  function StrReads(k: Kconf, u: User, env: Env, s: nat): set<Cell> {
    match k.SymAt(s).orig
    case Unknown => {}
    case String => TextReads(k, u, env, s)
    case Int => NumberReads(k, u, env, s)
    case Hex => NumberReads(k, u, env, s)
    case _ => {TriOf(s)}
  }

  // ---------- whether the symbol gets a .config entry ----------

  predicate WrittenToConf(k: Kconf, u: User, env: Env, s: nat) {
    var d := k.SymAt(s);
    var vis := TriAt(env, Vis(Sym(s))) != 0;
    match d.orig
    case Unknown => false
    case String =>
      !d.auto && (vis || DefaultStr(k, env, s).Some?)
    case Int => !d.auto && (vis || DefaultStr(k, env, s).Some?)
    case Hex => !d.auto && (vis || DefaultStr(k, env, s).Some?)
    case _ =>
      d.fixed == None &&
      (vis || (d.choice == None &&
               (Ev(k, env, d.revDep) != 0 || Implied(k, env, s) || DefaultTri(k, env, s) != 0)))
  }

  // ---------- choices ----------

  function StepMode(k: Kconf, u: User, env: Env, c: nat): Tri {
    var low: Tri := if k.ChoiceAt(c).optional then 0 else 1;
    var want := if c in u.modes then Max(low, u.modes[c]) else low;
    var val := Min(want, TriAt(env, Vis(Cho(c))));
    if val == 1 && ChoiceType(k, env, c) == Bool then 2 else val
  }

  function ModeReads(k: Kconf, u: User, env: Env, c: nat): set<Cell> {
    var low: Tri := if k.ChoiceAt(c).optional then 0 else 1;
    var want := if c in u.modes then Max(low, u.modes[c]) else low;
    {Vis(Cho(c))} + if Min(want, TriAt(env, Vis(Cho(c)))) == 1 then ChoiceTypeReads(k, c) else {}
  }

  // The first default, from `i` on, whose condition holds and whose symbol is visible
  function DefaultSelection(k: Kconf, env: Env, ds: seq<ChoiceDefault>, i: nat): Option<nat>
    requires i <= |ds|
    decreases |ds| - i
  {
    if i == |ds| then None
    else if Ev(k, env, ds[i].cond) != 0 && TriAt(env, Vis(Sym(ds[i].sym))) != 0 then Some(ds[i].sym)
    else DefaultSelection(k, env, ds, i + 1)
  }

  function DefaultSelectionReads(k: Kconf, env: Env, ds: seq<ChoiceDefault>, i: nat): set<Cell>
    requires i <= |ds|
    decreases |ds| - i
  {
    if i == |ds| then {}
    else if Ev(k, env, ds[i].cond) == 0 then
      EReads(k, env, ds[i].cond) + DefaultSelectionReads(k, env, ds, i + 1)
    else if TriAt(env, Vis(Sym(ds[i].sym))) == 0 then
      EReads(k, env, ds[i].cond) + {Vis(Sym(ds[i].sym))} + DefaultSelectionReads(k, env, ds, i + 1)
    else EReads(k, env, ds[i].cond) + {Vis(Sym(ds[i].sym))}
  }

  function FirstVisible(env: Env, syms: seq<nat>, i: nat): Option<nat>
    requires i <= |syms|
    decreases |syms| - i
  {
    if i == |syms| then None
    else if TriAt(env, Vis(Sym(syms[i]))) != 0 then Some(syms[i])
    else FirstVisible(env, syms, i + 1)
  }

  function FirstVisibleReads(env: Env, syms: seq<nat>, i: nat): set<Cell>
    requires i <= |syms|
    decreases |syms| - i
  {
    if i == |syms| then {}
    else if TriAt(env, Vis(Sym(syms[i]))) != 0 then {Vis(Sym(syms[i]))}
    else {Vis(Sym(syms[i]))} + FirstVisibleReads(env, syms, i + 1)
  }

  function SelectionFromDefaults(k: Kconf, env: Env, c: nat): Option<nat> {
    var d := k.ChoiceAt(c);
    var x := DefaultSelection(k, env, d.defaults, 0);
    if x.Some? then x else FirstVisible(env, d.syms, 0)
  }

  function SelectionFromDefaultsReads(k: Kconf, env: Env, c: nat): set<Cell> {
    var d := k.ChoiceAt(c);
    DefaultSelectionReads(k, env, d.defaults, 0) +
    if DefaultSelection(k, env, d.defaults, 0).Some? then {} else FirstVisibleReads(env, d.syms, 0)
  }

  function StepSel(k: Kconf, u: User, env: Env, c: nat): Option<nat> {
    if TriAt(env, ModeOf(c)) != 2 then None
    else if c in u.selections && TriAt(env, Vis(Sym(u.selections[c]))) != 0 then Some(u.selections[c])
    else SelectionFromDefaults(k, env, c)
  }

  function SelReads(k: Kconf, u: User, env: Env, c: nat): set<Cell> {
    if TriAt(env, ModeOf(c)) != 2 then {ModeOf(c)}
    else if c in u.selections then
      if TriAt(env, Vis(Sym(u.selections[c]))) != 0 then {ModeOf(c), Vis(Sym(u.selections[c]))}
      else {ModeOf(c), Vis(Sym(u.selections[c]))} + SelectionFromDefaultsReads(k, env, c)
    else {ModeOf(c)} + SelectionFromDefaultsReads(k, env, c)
  }

  // ---------- assignable values ----------

  function SymAssignable(k: Kconf, env: Env, s: nat): seq<Tri> {
    var d := k.SymAt(s);
    var vis := TriAt(env, Vis(Sym(s)));
    if !BoolTri(d.orig) || vis == 0 then []
    else
      var rev := Ev(k, env, d.revDep);
      if vis == 2 then
        if d.choice.Some? then [2]
        else if rev == 0 then (if Promoted(k, env, s) then [0, 2] else [0, 1, 2])
        else if rev == 2 then [2]
        else if Promoted(k, env, s) then [2] else [1, 2]
      else if rev == 0 then (if Ev(k, env, d.weakRevDep) != 2 then [0, 1] else [0, 2])
      else if rev == 2 then [2]
      else [1]
  }

  function SymAssignableReads(k: Kconf, env: Env, s: nat): set<Cell> {
    var d := k.SymAt(s);
    var vis := TriAt(env, Vis(Sym(s)));
    if !BoolTri(d.orig) then {}
    else if vis == 0 then {Vis(Sym(s))}
    else
      var rev := Ev(k, env, d.revDep);
      {Vis(Sym(s))} +
      if vis == 2 then
        if d.choice.Some? then {}
        else if rev == 2 then EReads(k, env, d.revDep)
        else EReads(k, env, d.revDep) + PromotedReads(k, env, s)
      else if rev == 0 then EReads(k, env, d.revDep) + EReads(k, env, d.weakRevDep)
      else EReads(k, env, d.revDep)
  }

  function ChoiceAssignable(k: Kconf, env: Env, c: nat): seq<Tri> {
    var d := k.ChoiceAt(c);
    var vis := TriAt(env, Vis(Cho(c)));
    if vis == 0 then []
    else if vis == 2 then
      if !d.optional then (if ChoiceType(k, env, c) == Bool then [2] else [1, 2])
      else if ChoiceType(k, env, c) == Bool then [0, 2] else [0, 1, 2]
    else if d.optional then [0, 1] else [1]
  }

  function ChoiceAssignableReads(k: Kconf, env: Env, c: nat): set<Cell> {
    {Vis(Cho(c))} + if TriAt(env, Vis(Cho(c))) == 2 then ChoiceTypeReads(k, c) else {}
  }

  // ---------- one attribute ----------

  /** The value of attribute `c`, given the values `env` of the others. */
  function Step(k: Kconf, u: User, env: Env, c: Cell): V {
    match c
    case Vis(Sym(s)) => VTri(SymVis(k, env, s))
    case Vis(Cho(c)) => VTri(ChoiceVis(k, env, c))
    case TriOf(s) => VTri(StepTri(k, u, env, s))
    case StrOf(s) => VStr(StepStr(k, u, env, s))
    case Assignable(Sym(s)) => VSet(SymAssignable(k, env, s))
    case Assignable(Cho(c)) => VSet(ChoiceAssignable(k, env, c))
    case ModeOf(c) => VTri(StepMode(k, u, env, c))
    case SelOf(c) => VSel(StepSel(k, u, env, c))
  }

  /** The attributes that `Step` of `c` depends on when the others have the values `env`. */
  function Reads(k: Kconf, u: User, env: Env, c: Cell): set<Cell> {
    match c
    case Vis(Sym(s)) => SymVisReads(k, env, s)
    case Vis(Cho(c)) => ChoiceVisReads(k, env, c)
    case TriOf(s) => TriReads(k, u, env, s)
    case StrOf(s) => StrReads(k, u, env, s)
    case Assignable(Sym(s)) => SymAssignableReads(k, env, s)
    case Assignable(Cho(c)) => ChoiceAssignableReads(k, env, c)
    case ModeOf(c) => ModeReads(k, u, env, c)
    case SelOf(c) => SelReads(k, u, env, c)
  }
}
