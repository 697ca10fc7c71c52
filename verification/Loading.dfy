/** Loading a .config file: what each line does to the user state, and the loader that
    does it to the caching evaluator. */
module Loading {
  import opened Expressions
  import opened Wrappers
  import opened Values
  import opened Evaluation
  import opened ConfigText
  import opened Engine

  // The user state and the items set so far
  datatype LoadState = LoadState(user: User, touched: set<Item>)

  // The defined symbol called `name`, from number `i` on
  function LookupFrom(k: Kconf, name: string, i: nat): (r: Option<nat>)
    requires i <= |k.syms|
    ensures r.Some? ==> i <= r.value < |k.syms| && k.syms[r.value].defined && k.syms[r.value].name == name
    decreases |k.syms| - i
  {
    if i == |k.syms| then None
    else if k.syms[i].defined && k.syms[i].name == name then Some(i)
    else LookupFrom(k, name, i + 1)
  }

  function Lookup(k: Kconf, name: string): (r: Option<nat>)
    ensures r.Some? ==> r.value < |k.syms| && k.SymAt(r.value).defined && k.SymAt(r.value).name == name
  {
    LookupFrom(k, name, 0)
  }

  // Setting the mode of a choice; an invalid mode is ignored
  function ApplyMode(k: Kconf, st: LoadState, c: nat, v: Tri): LoadState {
    if (c in st.user.modes && st.user.modes[c] == v) || ValidMode(k, c, v) then
      LoadState(st.user.(modes := st.user.modes[c := v]), st.touched + {Cho(c)})
    else st
  }

  // The items setting `s` to `v` marks
  function MarksOf(k: Kconf, s: nat, v: UserValue): set<Item> {
    if v == UTri(2) && k.SymAt(s).choice.Some? then {Sym(s), Cho(k.SymAt(s).choice.value)} else {Sym(s)}
  }

  // Setting a symbol; an invalid value is ignored
  function ApplyValue(k: Kconf, st: LoadState, s: nat, v: UserValue): LoadState {
    var w := Converted(k, s, v);
    if ValidFor(k, s, w) then LoadState(Assign(k, st.user, s, w), st.touched + MarksOf(k, s, w)) else st
  }

  // n, m or y by the first character of a value
  function LeadingTri(val: string): Option<Tri> {
    if val == [] then None
    else if val[0] == 'n' then Some(0) else if val[0] == 'm' then Some(1) else if val[0] == 'y' then Some(2) else None
  }

  // An assignment to a bool or tristate symbol; one within a choice also sets the mode
  function ApplyTri(k: Kconf, st: LoadState, s: nat, t: Tri): LoadState {
    var c := k.SymAt(s).choice;
    var st1 := if c.Some? && t != 0 then ApplyMode(k, st, c.value, t) else st;
    ApplyValue(k, st1, s, UTri(t))
  }

  function ApplySet(k: Kconf, st: LoadState, s: nat, val: string): LoadState {
    var orig := k.SymAt(s).orig;
    if BoolTri(orig) then
      match LeadingTri(val)
      case Some(t) => if orig == Bool && t == 1 then st else ApplyTri(k, st, s, t)
      case None => st
    else if orig == String then
      match LiteralContents(val)
      case Some(x) => ApplyValue(k, st, s, UStr(Unescape(x)))
      case None => st
    else ApplyValue(k, st, s, UStr(val))
  }

  // What one line does; lines that assign nothing, or to an undefined symbol, do nothing
  function ApplyLine(k: Kconf, st: LoadState, line: string): LoadState {
    match Parse(line)
    case Nothing => st
    case Set(name, val) => (match Lookup(k, name) case Some(s) => ApplySet(k, st, s, val) case None => st)
    case Unset(name) =>
      match Lookup(k, name)
      case Some(s) => if BoolTri(k.SymAt(s).orig) then ApplyValue(k, st, s, UTri(0)) else st
      case None => st
  }

  function ApplyLines(k: Kconf, st: LoadState, lines: seq<string>): LoadState
    decreases |lines|
  {
    if lines == [] then st else ApplyLines(k, ApplyLine(k, st, lines[0]), lines[1..])
  }

  lemma {:induction false} ApplyLinesConcat(k: Kconf, st: LoadState, xs: seq<string>, ys: seq<string>)
    ensures ApplyLines(k, st, xs + ys) == ApplyLines(k, ApplyLines(k, st, xs), ys)
    decreases |xs|
  {
    if xs == [] {
      assert xs + ys == ys;
    } else {
      assert (xs + ys)[1..] == xs[1..] + ys;
      ApplyLinesConcat(k, ApplyLine(k, st, xs[0]), xs[1..], ys);
    }
  }

  // Drops the user values of every defined item that was not set
  function Forget(k: Kconf, st: LoadState): User {
    User(
      map s <- st.user.values | !k.SymAt(s).defined || Sym(s) in st.touched :: st.user.values[s],
      map c <- st.user.modes | Cho(c) in st.touched :: st.user.modes[c],
      map c <- st.user.selections | Cho(c) in st.touched :: st.user.selections[c])
  }

  /** The user state after loading `lines`; `replace` drops what the file does not set. */
  function Load(k: Kconf, u: User, lines: seq<string>, replace: bool): User {
    var st := ApplyLines(k, LoadState(u, {}), lines);
    if replace then Forget(k, st) else st.user
  }

  // ---------- the loader ----------

  method ApplyModeTo(conf: Kconfig, c: nat, v: Tri)
    requires conf.Valid() && c < |conf.k.choices|
    modifies conf`cache, conf`user, conf`touched, conf.syms, conf.choices
    ensures conf.Valid()
    ensures LoadState(conf.user, conf.touched) ==
            ApplyMode(conf.k, LoadState(old(conf.user), old(conf.touched)), c, v)
  {
    assert |conf.choices| == |conf.k.choices|;
    hide Kconfig.Valid;
    var _ := conf.SetMode(c, v);
  }

  method ApplyValueTo(conf: Kconfig, s: nat, v: UserValue)
    requires conf.Valid() && s < |conf.k.syms|
    modifies conf`cache, conf`user, conf`touched, conf.syms, conf.choices
    ensures conf.Valid()
    ensures LoadState(conf.user, conf.touched) ==
            ApplyValue(conf.k, LoadState(old(conf.user), old(conf.touched)), s, v)
  {
    assert |conf.syms| == |conf.k.syms|;
    hide Kconfig.Valid, Converted, ValidFor, Assign;
    var _ := conf.SetValue(s, v);
  }

  method ApplySetTo(conf: Kconfig, s: nat, val: string)
    requires conf.Valid() && s < |conf.k.syms|
    modifies conf`cache, conf`user, conf`touched, conf.syms, conf.choices
    ensures conf.Valid()
    ensures LoadState(conf.user, conf.touched) ==
            ApplySet(conf.k, LoadState(old(conf.user), old(conf.touched)), s, val)
  {
    assert SymOk(conf.k, s);
    hide Kconfig.Valid, ApplyValue, ApplyMode, SymOk;
    var d := conf.k.SymAt(s);
    if BoolTri(d.orig) {
      var t := LeadingTri(val);
      if t == None || (d.orig == Bool && t.value == 1) {
        return;
      }
      if d.choice.Some? && t.value != 0 {
        ApplyModeTo(conf, d.choice.value, t.value);
      }
      ApplyValueTo(conf, s, UTri(t.value));
    } else if d.orig == String {
      var contents := LiteralContents(val);
      if contents.Some? {
        ApplyValueTo(conf, s, UStr(Unescape(contents.value)));
      }
    } else {
      ApplyValueTo(conf, s, UStr(val));
    }
  }

  method ApplyLineTo(conf: Kconfig, line: string)
    requires conf.Valid()
    modifies conf`cache, conf`user, conf`touched, conf.syms, conf.choices
    ensures conf.Valid()
    ensures LoadState(conf.user, conf.touched) ==
            ApplyLine(conf.k, LoadState(old(conf.user), old(conf.touched)), line)
  {
    hide Kconfig.Valid, Parse, ApplyValue, ApplySet, Lookup;
    match Parse(line) {
      case Nothing =>
      case Set(name, val) =>
        var s := Lookup(conf.k, name);
        if s.Some? {
          ApplySetTo(conf, s.value, val);
        }
      case Unset(name) =>
        var s := Lookup(conf.k, name);
        if s.Some? && BoolTri(conf.k.SymAt(s.value).orig) {
          ApplyValueTo(conf, s.value, UTri(0));
        }
    }
  }

  // The user state when the symbols below `n` and the choices below `m` have been gone through
  function ForgetUpTo(k: Kconf, st: LoadState, n: nat, m: nat): User {
    User(
      map s <- st.user.values | s >= n || !k.SymAt(s).defined || Sym(s) in st.touched :: st.user.values[s],
      map c <- st.user.modes | c >= m || Cho(c) in st.touched :: st.user.modes[c],
      map c <- st.user.selections | c >= m || Cho(c) in st.touched :: st.user.selections[c])
  }

  lemma ForgetSym(k: Kconf, st: LoadState, s: nat, m: nat)
    ensures ForgetUpTo(k, st, s + 1, m) ==
            if k.SymAt(s).defined && Sym(s) !in st.touched
            then ForgetUpTo(k, st, s, m).(values := ForgetUpTo(k, st, s, m).values - {s})
            else ForgetUpTo(k, st, s, m)
  {
  }

  lemma ForgetChoice(k: Kconf, st: LoadState, n: nat, c: nat)
    ensures var u := ForgetUpTo(k, st, n, c);
            ForgetUpTo(k, st, n, c + 1) ==
            if Cho(c) !in st.touched then u.(modes := u.modes - {c}, selections := u.selections - {c}) else u
  {
  }

  lemma NothingForgotten(k: Kconf, st: LoadState)
    ensures ForgetUpTo(k, st, 0, 0) == st.user
  {
  }

  lemma SameSizes(conf: Kconfig)
    requires conf.Valid()
    ensures |conf.syms| == |conf.k.syms| && |conf.choices| == |conf.k.choices|
  {
  }

  method ForgetSyms(conf: Kconfig, ghost st: LoadState)
    requires conf.Valid() && st == LoadState(conf.user, conf.touched)
    modifies conf`cache, conf`user, conf.syms, conf.choices
    ensures conf.Valid() && conf.user == ForgetUpTo(conf.k, st, |conf.k.syms|, 0)
  {
    hide Kconfig.Valid, ForgetUpTo;
    NothingForgotten(conf.k, st);
    SameSizes(conf);
    for s := 0 to |conf.k.syms|
      invariant conf.Valid() && conf.user == ForgetUpTo(conf.k, st, s, 0)
    {
      ForgetSym(conf.k, st, s, 0);
      if conf.k.SymAt(s).defined {
        var marked := conf.WasSet(Sym(s));
        if !marked {
          conf.UnsetValue(s);
        }
      }
    }
  }

  method ForgetChoices(conf: Kconfig, ghost st: LoadState)
    requires conf.Valid() && st.touched == conf.touched
    requires conf.user == ForgetUpTo(conf.k, st, |conf.k.syms|, 0)
    modifies conf`cache, conf`user, conf.syms, conf.choices
    ensures conf.Valid() && conf.user == ForgetUpTo(conf.k, st, |conf.k.syms|, |conf.k.choices|)
  {
    hide Kconfig.Valid, ForgetUpTo;
    SameSizes(conf);
    for c := 0 to |conf.k.choices|
      invariant conf.Valid() && conf.user == ForgetUpTo(conf.k, st, |conf.k.syms|, c)
    {
      ForgetChoice(conf.k, st, |conf.k.syms|, c);
      var marked := conf.WasSet(Cho(c));
      if !marked {
        conf.UnsetChoice(c);
      }
    }
  }

  // Unsets the symbols and choices that were not set
  method ForgetUnset(conf: Kconfig)
    requires conf.Valid()
    modifies conf`cache, conf`user, conf.syms, conf.choices
    ensures conf.Valid() && conf.user == Forget(conf.k, LoadState(old(conf.user), conf.touched))
  {
    ghost var st := LoadState(conf.user, conf.touched);
    InRangeOnly(conf);
    ForgetSyms(conf, st);
    ForgetChoices(conf, st);
  }

  lemma InRangeOnly(conf: Kconfig)
    requires conf.Valid()
    ensures forall s <- conf.user.values :: s < |conf.k.syms|
    ensures forall c <- conf.user.modes :: c < |conf.k.choices|
    ensures forall c <- conf.user.selections :: c < |conf.k.choices|
  {
  }

  // The marks have no influence on the user state
  lemma MarksDoNotMatter(k: Kconf, s1: LoadState, s2: LoadState, line: string)
    requires s1.user == s2.user
    ensures ApplyLine(k, s1, line).user == ApplyLine(k, s2, line).user
  {
    hide Parse, Converted, ValidFor, Assign, LiteralContents, Unescape, LeadingTri;
  }

  lemma {:induction false} MarksNeverMatter(k: Kconf, s1: LoadState, s2: LoadState, lines: seq<string>)
    requires s1.user == s2.user
    ensures ApplyLines(k, s1, lines).user == ApplyLines(k, s2, lines).user
    decreases |lines|
  {
    if lines != [] {
      MarksDoNotMatter(k, s1, s2, lines[0]);
      MarksNeverMatter(k, ApplyLine(k, s1, lines[0]), ApplyLine(k, s2, lines[0]), lines[1..]);
    }
  }

  /** Loads a .config file given by its lines. */
  method LoadConfig(conf: Kconfig, lines: seq<string>, replace: bool)
    requires conf.Valid()
    modifies conf, conf.syms, conf.choices
    ensures conf.Valid()
    ensures conf.user == Load(conf.k, old(conf.user), lines, replace)
  {
    hide Kconfig.Valid, ApplyLine;
    if replace {
      conf.ClearMarks();
    }
    ghost var st := LoadState(conf.user, conf.touched);
    for i := 0 to |lines|
      invariant conf.Valid()
      invariant ApplyLines(conf.k, st, lines) ==
                ApplyLines(conf.k, LoadState(conf.user, conf.touched), lines[i..])
    {
      ApplyLineTo(conf, lines[i]);
      assert lines[i..][1..] == lines[i + 1..];
    }
    MarksNeverMatter(conf.k, st, LoadState(st.user, {}), lines);
    if replace {
      ForgetUnset(conf);
    }
  }
}
