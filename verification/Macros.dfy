/** The macro preprocessor: expanding $(...) in place in a string. Expansion always ends,
    and does what evaluating the nested macro calls from the inside out does. */
module Macros {

  import opened Wrappers

  datatype Error = MissingParenthesis | SelfReference(name: string) | StuckRecursion(name: string) | FunctionFailed(what: string)

  datatype Result<+T> = Ok(value: T) | Fail(error: Error)

  /** What macros are expanded against: the variables, the functions (built in or supplied
      by the user), the environment, and how a macro name is read as an argument number. */
  datatype Definitions = Definitions(
    variables: map<string, string>,
    call: seq<string> -> Option<Result<string>>,
    env: string -> Option<string>,
    number: string -> Option<int>)

  // How many expansions of each variable are in progress
  type Counters = map<string, nat>

  function Count(n: Counters, v: string): nat { if v in n then n[v] else 0 }

  // A function may be nested this deep; a plain variable not at all
  const LIMIT := 100

  // The expansions still available: each one begun takes away a pair
  function Left(d: Definitions, n: Counters): set<(string, nat)> {
    set v, j: nat | v in d.variables && j <= LIMIT && Count(n, v) <= j :: (v, j)
  }

  function Begin(n: Counters, v: string): Counters { n[v := Count(n, v) + 1] }

  lemma BeginTakes(d: Definitions, n: Counters, v: string)
    requires v in d.variables && Count(n, v) <= LIMIT
    ensures Left(d, Begin(n, v)) < Left(d, n)
  {
    assert (v, Count(n, v)) in Left(d, n) && (v, Count(n, v)) !in Left(d, Begin(n, v));
  }

  predicate MacroAt(s: string, i: nat) { i + 1 < |s| && s[i] == '$' && s[i + 1] == '(' }

  // ---------- expansion as a function ----------

  // Everything from position `i` on expanded
  function Whole(d: Definitions, n: Counters, s: string, i: nat, args: seq<string>): Result<string>
    requires i <= |s|
    decreases Left(d, n), |s| - i, 1
  {
    if i == |s| then Ok(s)
    else if MacroAt(s, i) then
      match Macro(d, n, s, i, args)
      case Ok((s2, i2)) => Whole(d, n, s2, i2, args)
      case Fail(e) => Fail(e)
    else Whole(d, n, s, i + 1, args)
  }

  /** The macro at `i` expanded: the new string and the position after the expansion. What
      comes before `i` stays, and what comes after the macro is kept as it was. */
  function Macro(d: Definitions, n: Counters, s: string, i: nat, args: seq<string>): (r: Result<(string, nat)>)
    requires MacroAt(s, i)
    ensures r.Ok? ==> Advanced(s, i, r.value.0, r.value.1)
    decreases Left(d, n), |s| - i, 0
  {
    Scan(d, n, s[..i], s, i + 2, i + 2, [], 0, args)
  }

  // The expansion replaced something at `i` by text up to `i2`, and left what follows alone
  predicate Advanced(s: string, i: nat, s2: string, i2: nat)
    requires i <= |s|
  {
    && i <= i2 <= |s2| && s2[..i] == s[..i]
    && |s2| - i2 < |s| - i && s2[i2..] == s[|s| - (|s2| - i2)..]
  }

  /** Looks for the end of a macro call from `i` on. `start` is where the current argument
      starts, `done` are the arguments before it, `pre` is the text before the macro. */
  function Scan(d: Definitions, n: Counters, pre: string, s: string, i: nat, start: nat,
                done: seq<string>, nesting: nat, args: seq<string>): (r: Result<(string, nat)>)
    requires |pre| + 2 <= start <= i <= |s| && s[..|pre|] == pre
    ensures r.Ok? ==> Advanced(s, |pre|, r.value.0, r.value.1) && |r.value.0| - r.value.1 < |s| - i
    decreases Left(d, n), |s| - i, 2
  {
    if i == |s| then Fail(MissingParenthesis)
    else if MacroAt(s, i) then
      match Macro(d, n, s, i, args)
      case Ok((s2, i2)) => Scan(d, n, pre, s2, i2, start, done, nesting, args)
      case Fail(e) => Fail(e)
    else if s[i] == '(' then Scan(d, n, pre, s, i + 1, start, done, nesting + 1, args)
    else if s[i] == ')' && nesting > 0 then Scan(d, n, pre, s, i + 1, start, done, nesting - 1, args)
    else if s[i] == ')' then
      match CallValue(d, n, done + [s[start..i]], args)
      case Ok(v) => Ok((pre + v + s[i + 1..], |pre + v|))
      case Fail(e) => Fail(e)
    else if s[i] == ',' && nesting == 0 then Scan(d, n, pre, s, i + 1, i + 1, done + [s[start..i]], nesting, args)
    else Scan(d, n, pre, s, i + 1, start, done, nesting, args)
  }

  // An argument by number; negative numbers count from the end
  function ArgumentAt(args: seq<string>, k: int): Option<string> {
    if 0 <= k < |args| then Some(args[k])
    else if -|args| <= k < 0 then Some(args[|args| + k])
    else None
  }

  // The value of a call: an argument of the enclosing call, or of a variable or function
  function CallValue(d: Definitions, n: Counters, call: seq<string>, args: seq<string>): Result<string>
    requires call != []
    decreases Left(d, n), 0, 3
  {
    match d.number(call[0])
    case Some(k) => (match ArgumentAt(args, k) case Some(v) => Ok(v) case None => FnVal(d, n, call))
    case None => FnVal(d, n, call)
  }

  function FnVal(d: Definitions, n: Counters, call: seq<string>): Result<string>
    requires call != []
    decreases Left(d, n), 0, 2
  {
    var fn := call[0];
    if fn in d.variables then
      if |call| == 1 && Count(n, fn) != 0 then Fail(SelfReference(fn))
      else if Count(n, fn) > LIMIT then Fail(StuckRecursion(fn))
      else
        BeginTakes(d, n, fn);
        Whole(d, Begin(n, fn), d.variables[fn], 0, call)
    else
      match d.call(call)
      case Some(r) => r
      case None => Ok(match d.env(fn) case Some(v) => v case None => "")
  }

  // ---------- the preprocessor ----------

  /** The preprocessor with its expansion counters, which are raised while a variable is
      being expanded. */
  class Preprocessor {
    const d: Definitions
    var counters: Counters

    constructor (d: Definitions)
      ensures this.d == d && counters == map[]
    {
      this.d, counters := d, map[];
    }

    // Counters that differ only in listing a variable at zero
    twostate predicate Restored() reads this`counters { forall v :: Count(counters, v) == Count(old(counters), v) }

    method ExpandWhole(text: string, args: seq<string>) returns (r: Result<string>)
      modifies this`counters
      ensures r == Whole(d, old(counters), text, 0, args)
      ensures r.Ok? ==> Restored()
      decreases Left(d, counters), |text|, 1
    {
      var s := text;
      var i: nat := 0;
      while i < |s|
        invariant i <= |s| && |s| - i <= |text|
        invariant Restored()
        invariant Whole(d, old(counters), text, 0, args) == Whole(d, old(counters), s, i, args)
        decreases |s| - i
      {
        CountersDecide(d, old(counters), counters);
        if MacroAt(s, i) {
          MacroSame(d, old(counters), counters, s, i, args);
          var m := ExpandMacro(s, i, args);
          if m.Fail? {
            return Fail(m.error);
          }
          s, i := m.value.0, m.value.1;
        } else {
          i := i + 1;
        }
      }
      r := Ok(s);
    }

    method ExpandMacro(text: string, at: nat, args: seq<string>) returns (r: Result<(string, nat)>)
      requires MacroAt(text, at)
      modifies this`counters
      ensures r == Macro(d, old(counters), text, at, args)
      ensures r.Ok? ==> Restored()
      decreases Left(d, counters), |text| - at, 0
    {
      var pre := text[..at];
      var s, i, start := text, at + 2, at + 2;
      var call: seq<string> := [];
      var nesting := 0;
      while i < |s|
        invariant |pre| + 2 <= start <= i <= |s| && s[..|pre|] == pre && |s| - i < |text| - at
        invariant Restored()
        invariant Macro(d, old(counters), text, at, args) ==
                  Scan(d, old(counters), pre, s, i, start, call, nesting, args)
        decreases |s| - i
      {
        CountersDecide(d, old(counters), counters);
        if MacroAt(s, i) {
          MacroSame(d, old(counters), counters, s, i, args);
          var m := ExpandMacro(s, i, args);
          if m.Fail? {
            return Fail(m.error);
          }
          s, i := m.value.0, m.value.1;
        } else if s[i] == '(' {
          nesting := nesting + 1;
          i := i + 1;
        } else if s[i] == ')' && nesting > 0 {
          nesting := nesting - 1;
          i := i + 1;
        } else if s[i] == ')' {
          call := call + [s[start..i]];
          CallSame(d, old(counters), counters, call, args);
          var v := ValueOfCall(call, args);
          if v.Fail? {
            return Fail(v.error);
          }
          return Ok((pre + v.value + s[i + 1..], |pre + v.value|));
        } else if s[i] == ',' && nesting == 0 {
          call := call + [s[start..i]];
          i := i + 1;
          start := i;
        } else {
          i := i + 1;
        }
      }
      r := Fail(MissingParenthesis);
    }

    method ValueOfCall(call: seq<string>, args: seq<string>) returns (r: Result<string>)
      requires call != []
      modifies this`counters
      ensures r == CallValue(d, old(counters), call, args)
      ensures r.Ok? ==> Restored()
      decreases Left(d, counters), 0, 3
    {
      var k := d.number(call[0]);
      if k.Some? {
        var v := ArgumentAt(args, k.value);
        if v.Some? {
          return Ok(v.value);
        }
      }
      r := ValueOfFn(call);
    }

    /** The value of a variable or function; for a variable whose text is characters and
        references to arguments, the text with the parts of the call filled in. */
    method ValueOfFn(call: seq<string>) returns (r: Result<string>)
      requires call != []
      modifies this`counters
      ensures r == FnVal(d, old(counters), call)
      ensures forall t: Text | Fits(d, old(counters), call, t) :: r == Ok(Filled(d, call, t))
      ensures r.Ok? ==> Restored()
      decreases Left(d, counters), 0, 2
    {
      AllFilledIn(d, counters, call);
      hide Fits;
      var fn := call[0];
      if fn in d.variables {
        var c := Count(counters, fn);
        if |call| == 1 && c != 0 {
          return Fail(SelfReference(fn));
        }
        if c > LIMIT {
          return Fail(StuckRecursion(fn));
        }
        BeginTakes(d, counters, fn);
        counters := counters[fn := c + 1];
        ghost var begun := counters;
        r := ExpandWhole(d.variables[fn], call);
        if r.Ok? {
          ghost var ended := counters;
          counters := counters[fn := Count(counters, fn) - 1];
          forall v ensures Count(counters, v) == Count(old(counters), v) {
            assert Count(ended, v) == Count(begun, v);
          }
        }
        return;
      }
      var f := d.call(call);
      if f.Some? {
        return f.value;
      }
      var v := d.env(fn);
      r := Ok(if v.Some? then v.value else "");
    }
  }

  // ---------- only the counts matter ----------

  predicate SameCounts(n: Counters, m: Counters) {
    (forall v <- n :: Count(n, v) == Count(m, v)) && (forall v <- m :: Count(n, v) == Count(m, v))
  }

  lemma CountersDecide(d: Definitions, n: Counters, m: Counters)
    requires forall v :: Count(m, v) == Count(n, v)
    ensures Left(d, n) == Left(d, m) && SameCounts(n, m)
  {
  }

  lemma {:induction false} WholeSame(d: Definitions, n: Counters, m: Counters, s: string, i: nat, args: seq<string>)
    requires i <= |s| && SameCounts(n, m)
    ensures Whole(d, n, s, i, args) == Whole(d, m, s, i, args)
    decreases Left(d, n), |s| - i, 1
  {
    if i < |s| {
      if MacroAt(s, i) {
        MacroSame(d, n, m, s, i, args);
        var r := Macro(d, n, s, i, args);
        if r.Ok? {
          WholeSame(d, n, m, r.value.0, r.value.1, args);
        }
      } else {
        WholeSame(d, n, m, s, i + 1, args);
      }
    }
  }

  lemma {:induction false} MacroSame(d: Definitions, n: Counters, m: Counters, s: string, i: nat, args: seq<string>)
    requires MacroAt(s, i) && SameCounts(n, m)
    ensures Macro(d, n, s, i, args) == Macro(d, m, s, i, args)
    decreases Left(d, n), |s| - i, 0
  {
    ScanSame(d, n, m, s[..i], s, i + 2, i + 2, [], 0, args);
  }

  lemma {:induction false} ScanSame(d: Definitions, n: Counters, m: Counters, pre: string, s: string, i: nat, start: nat,
                                    done: seq<string>, nesting: nat, args: seq<string>)
    requires |pre| + 2 <= start <= i <= |s| && s[..|pre|] == pre && SameCounts(n, m)
    ensures Scan(d, n, pre, s, i, start, done, nesting, args) == Scan(d, m, pre, s, i, start, done, nesting, args)
    decreases Left(d, n), |s| - i, 2
  {
    if i < |s| {
      if MacroAt(s, i) {
        MacroSame(d, n, m, s, i, args);
        var r := Macro(d, n, s, i, args);
        if r.Ok? {
          ScanSame(d, n, m, pre, r.value.0, r.value.1, start, done, nesting, args);
        }
      } else if s[i] == '(' {
        ScanSame(d, n, m, pre, s, i + 1, start, done, nesting + 1, args);
      } else if s[i] == ')' && nesting > 0 {
        ScanSame(d, n, m, pre, s, i + 1, start, done, nesting - 1, args);
      } else if s[i] == ')' {
        CallSame(d, n, m, done + [s[start..i]], args);
      } else if s[i] == ',' && nesting == 0 {
        ScanSame(d, n, m, pre, s, i + 1, i + 1, done + [s[start..i]], nesting, args);
      } else {
        ScanSame(d, n, m, pre, s, i + 1, start, done, nesting, args);
      }
    }
  }

  lemma {:induction false} CallSame(d: Definitions, n: Counters, m: Counters, call: seq<string>, args: seq<string>)
    requires call != [] && SameCounts(n, m)
    ensures CallValue(d, n, call, args) == CallValue(d, m, call, args) && FnVal(d, n, call) == FnVal(d, m, call)
    decreases Left(d, n), 0, 3
  {
    var fn := call[0];
    assert Count(n, fn) == Count(m, fn);
    if fn in d.variables && !(|call| == 1 && Count(n, fn) != 0) && Count(n, fn) <= LIMIT {
      BeginTakes(d, n, fn);
      WholeSame(d, Begin(n, fn), Begin(m, fn), d.variables[fn], 0, call);
    }
  }

  // ---------- expansion evaluates nested calls from the inside out ----------

  /** Text with its macro calls as a tree: characters, parenthesised parts, and calls with
      their comma-separated parts. */
  datatype Text =
    | Nothing
    | Lit(c: char, tail: Text)
    | Group(inner: Text, tail: Text)
    | Call(parts: Parts, tail: Text)
  datatype Parts = Last(part: Text) | More(part: Text, others: Parts)

  function Written(t: Text): string {
    match t
    case Nothing => ""
    case Lit(c, tail) => [c] + Written(tail)
    case Group(inner, tail) => "(" + Written(inner) + ")" + Written(tail)
    case Call(parts, tail) => "$(" + WrittenParts(parts) + ")" + Written(tail)
  }

  function WrittenParts(a: Parts): string {
    match a
    case Last(part) => Written(part)
    case More(part, others) => Written(part) + "," + WrittenParts(others)
  }

  // Inside a call, parentheses and commas only where the tree says so
  predicate InCall(t: Text, nested: bool) {
    match t
    case Nothing => true
    case Lit(c, tail) => c != '(' && c != ')' && (nested || c != ',') && !(c == '$' && tail.Group?) && InCall(tail, nested)
    case Group(inner, tail) => InCall(inner, true) && InCall(tail, nested)
    case Call(parts, tail) => PartsInCall(parts) && InCall(tail, nested)
  }

  predicate PartsInCall(a: Parts) {
    match a
    case Last(part) => InCall(part, false)
    case More(part, others) => InCall(part, false) && PartsInCall(others)
  }

  // Outside of calls, parentheses and commas are characters like any other
  predicate Outside(t: Text) {
    match t
    case Nothing => true
    case Lit(c, tail) => !(c == '$' && tail.Lit? && tail.c == '(') && Outside(tail)
    case Group(_, _) => false
    case Call(parts, tail) => PartsInCall(parts) && Outside(tail)
  }

  // The value of a tree: every call is replaced by its value, which is not looked at again
  function Value(d: Definitions, n: Counters, t: Text, args: seq<string>): Result<string> {
    match t
    case Nothing => Ok("")
    case Lit(c, tail) => Prefixed([c], Value(d, n, tail, args))
    case Group(inner, tail) =>
      (match Value(d, n, inner, args)
       case Ok(v) => Prefixed("(" + v + ")", Value(d, n, tail, args))
       case Fail(e) => Fail(e))
    case Call(parts, tail) =>
      (match Values(d, n, parts, args)
       case Ok(call) =>
         (match CallValue(d, n, call, args)
          case Ok(v) => Prefixed(v, Value(d, n, tail, args))
          case Fail(e) => Fail(e))
       case Fail(e) => Fail(e))
  }

  function Values(d: Definitions, n: Counters, a: Parts, args: seq<string>): (r: Result<seq<string>>)
    ensures r.Ok? ==> r.value != []
  {
    match Value(d, n, a.part, args)
    case Fail(e) => Fail(e)
    case Ok(v) =>
      if a.Last? then Ok([v])
      else match Values(d, n, a.others, args) case Ok(vs) => Ok([v] + vs) case Fail(e) => Fail(e)
  }

  function Prefixed(p: string, r: Result<string>): Result<string> {
    match r case Ok(v) => Ok(p + v) case Fail(e) => Fail(e)
  }

  // One character of a macro call that ends neither the call nor an argument
  lemma ScanOne(d: Definitions, n: Counters, pre: string, s: string, i: nat, start: nat,
                done: seq<string>, nesting: nat, args: seq<string>)
    requires |pre| + 2 <= start <= i < |s| && s[..|pre|] == pre && !MacroAt(s, i)
    requires nesting == 0 ==> s[i] != ')' && s[i] != ','
    ensures Scan(d, n, pre, s, i, start, done, nesting, args) ==
            Scan(d, n, pre, s, i + 1, start, done,
                 if s[i] == '(' then nesting + 1 else if s[i] == ')' then nesting - 1 else nesting, args)
  {
  }

  // A macro inside a macro call is expanded on the spot
  lemma ScanNested(d: Definitions, n: Counters, pre: string, s: string, i: nat, start: nat,
                   done: seq<string>, nesting: nat, args: seq<string>)
    requires |pre| + 2 <= start <= i <= |s| && s[..|pre|] == pre && MacroAt(s, i)
    ensures var m := Macro(d, n, s, i, args);
            Scan(d, n, pre, s, i, start, done, nesting, args) ==
            if m.Fail? then Fail(m.error) else Scan(d, n, pre, m.value.0, m.value.1, start, done, nesting, args)
  {
  }

  // Going on with a scan behind a value put between `before` and `after`
  function Resumed(d: Definitions, n: Counters, pre: string, before: string, v: Result<string>, after: string,
                   start: nat, done: seq<string>, nesting: nat, args: seq<string>): Result<(string, nat)>
    requires |pre| + 2 <= start <= |before| && before[..|pre|] == pre
  {
    match v
    case Fail(e) => Fail(e)
    case Ok(w) =>
      assert (before + w + after)[..|pre|] == pre;
      Scan(d, n, pre, before + w + after, |before + w|, start, done, nesting, args)
  }

  lemma ResumedLater(d: Definitions, n: Counters, pre: string, before: string, w: string, v: Result<string>, after: string,
                     start: nat, done: seq<string>, nesting: nat, args: seq<string>)
    requires |pre| + 2 <= start <= |before| && before[..|pre|] == pre
    ensures (before + w)[..|pre|] == pre
    ensures Resumed(d, n, pre, before + w, v, after, start, done, nesting, args) ==
            Resumed(d, n, pre, before, Prefixed(w, v), after, start, done, nesting, args)
  {
    hide Scan;
    assert (before + w)[..|pre|] == pre;
    if v.Ok? {
      assert (before + w) + v.value == before + (w + v.value);
    }
  }

  /** Scanning a macro call over the text of a tree goes on behind the tree's value, with
      the same argument start, arguments and nesting. */
  lemma {:induction false} ScanText(d: Definitions, n: Counters, pre: string, before: string, t: Text, after: string,
                                    start: nat, done: seq<string>, nesting: nat, args: seq<string>)
    requires |pre| + 2 <= start <= |before| && before[..|pre|] == pre
    requires InCall(t, nesting > 0) && after != "" && after[0] in {')', ','}
    ensures (before + Written(t) + after)[..|pre|] == pre
    ensures Scan(d, n, pre, before + Written(t) + after, |before|, start, done, nesting, args) ==
            Resumed(d, n, pre, before, Value(d, n, t, args), after, start, done, nesting, args)
    decreases t
  {
    hide Scan, CallValue;
    var s := before + Written(t) + after;
    assert s[..|pre|] == pre;
    match t
    case Nothing =>
      assert before + "" == before;
    case Lit(c, tail) =>
      assert s == (before + [c]) + Written(tail) + after;
      ScanOne(d, n, pre, s, |before|, start, done, nesting, args);
      ScanText(d, n, pre, before + [c], tail, after, start, done, nesting, args);
      ResumedLater(d, n, pre, before, [c], Value(d, n, tail, args), after, start, done, nesting, args);
    case Group(inner, tail) =>
      ScanGroup(d, n, pre, before, inner, tail, after, start, done, nesting, args);
    case Call(parts, tail) =>
      CallUnfolds(d, n, before, parts, tail, after, args);
      ScanCall(d, n, pre, before, parts, tail, after, start, done, nesting, args);
  }

  lemma {:induction false} ScanCall(d: Definitions, n: Counters, pre: string, before: string, parts: Parts, tail: Text,
                                    after: string, start: nat, done: seq<string>, nesting: nat, args: seq<string>)
    requires |pre| + 2 <= start <= |before| && before[..|pre|] == pre
    requires PartsInCall(parts) && InCall(tail, nesting > 0) && after != "" && after[0] in {')', ','}
    ensures var call := Called(d, n, [], Values(d, n, parts, args), args);
            var v := if call.Fail? then call else Prefixed(call.value, Value(d, n, tail, args));
            var s := before + "$(" + WrittenParts(parts) + ")" + (Written(tail) + after);
            && s[..|pre|] == pre
            && Scan(d, n, pre, s, |before|, start, done, nesting, args) ==
               Resumed(d, n, pre, before, v, after, start, done, nesting, args)
    decreases Call(parts, tail), 0
  {
    hide Scan, CallValue, Value, Values, Written, WrittenParts, Called, InCall;
    var rest := Written(tail) + after;
    var s := before + "$(" + WrittenParts(parts) + ")" + rest;
    assert s[..|pre|] == pre;
    MacroText(d, n, before, parts, rest, args);
    ScanNested(d, n, pre, s, |before|, start, done, nesting, args);
    var r := Called(d, n, [], Values(d, n, parts, args), args);
    if r.Ok? {
      assert before + r.value + rest == (before + r.value) + Written(tail) + after;
      ScanText(d, n, pre, before + r.value, tail, after, start, done, nesting, args);
      ResumedLater(d, n, pre, before, r.value, Value(d, n, tail, args), after, start, done, nesting, args);
    }
  }

  // What a call in a tree is written as, and its value
  lemma CallUnfolds(d: Definitions, n: Counters, before: string, parts: Parts, tail: Text, after: string, args: seq<string>)
    ensures before + Written(Call(parts, tail)) + after == before + "$(" + WrittenParts(parts) + ")" + (Written(tail) + after)
    ensures var call := Called(d, n, [], Values(d, n, parts, args), args);
            Value(d, n, Call(parts, tail), args) ==
            if call.Fail? then call else Prefixed(call.value, Value(d, n, tail, args))
  {
    hide CallValue;
    var vs := Values(d, n, parts, args);
    if vs.Ok? {
      assert [] + vs.value == vs.value;
    }
  }

  lemma {:induction false} ScanGroup(d: Definitions, n: Counters, pre: string, before: string, inner: Text, tail: Text,
                                     after: string, start: nat, done: seq<string>, nesting: nat, args: seq<string>)
    requires |pre| + 2 <= start <= |before| && before[..|pre|] == pre
    requires InCall(inner, true) && InCall(tail, nesting > 0) && after != "" && after[0] in {')', ','}
    ensures var v := Value(d, n, inner, args);
            var g := if v.Fail? then v else Prefixed("(" + v.value + ")", Value(d, n, tail, args));
            var s := before + ("(" + Written(inner) + ")" + Written(tail)) + after;
            && s[..|pre|] == pre
            && Scan(d, n, pre, s, |before|, start, done, nesting, args) ==
               Resumed(d, n, pre, before, g, after, start, done, nesting, args)
    decreases Group(inner, tail), 0
  {
    hide Scan, CallValue, Value, Written;
    var s := before + ("(" + Written(inner) + ")" + Written(tail)) + after;
    var rest := ")" + (Written(tail) + after);
    var open := before + "(";
    assert s == open + Written(inner) + rest;
    assert s[..|pre|] == pre && open[..|pre|] == pre;
    assert s[|before|] == '(' && !MacroAt(s, |before|);
    ScanOne(d, n, pre, s, |before|, start, done, nesting, args);
    ScanText(d, n, pre, open, inner, rest, start, done, nesting + 1, args);
    var r := Value(d, n, inner, args);
    if r.Ok? {
      var w := "(" + r.value + ")";
      ScanClose(d, n, pre, before, r.value, Written(tail) + after, start, done, nesting, args);
      assert before + w + (Written(tail) + after) == (before + w) + Written(tail) + after;
      ScanText(d, n, pre, before + w, tail, after, start, done, nesting, args);
      ResumedLater(d, n, pre, before, w, Value(d, n, tail, args), after, start, done, nesting, args);
    }
  }

  lemma ScanClose(d: Definitions, n: Counters, pre: string, before: string, v: string, after: string,
                  start: nat, done: seq<string>, nesting: nat, args: seq<string>)
    requires |pre| + 2 <= start <= |before| && before[..|pre|] == pre
    ensures var s := before + "(" + v + (")" + after);
            && s == before + ("(" + v + ")") + after && s[..|pre|] == pre
            && Scan(d, n, pre, s, |before + "(" + v|, start, done, nesting + 1, args) ==
               Scan(d, n, pre, s, |before + ("(" + v + ")")|, start, done, nesting, args)
  {
    hide Scan;
    var s, i := before + "(" + v + (")" + after), |before + "(" + v|;
    assert s == before + ("(" + v + ")") + after && s[..|pre|] == pre && s[i] == ')';
    ScanOne(d, n, pre, s, i, start, done, nesting + 1, args);
  }

  // A macro call is replaced by its value
  function Replaced(before: string, v: Result<string>, after: string): Result<(string, nat)> {
    match v case Ok(w) => Ok((before + w + after, |before + w|)) case Fail(e) => Fail(e)
  }

  // The call of the values of `parts`, behind the arguments `done`
  function Called(d: Definitions, n: Counters, done: seq<string>, parts: Result<seq<string>>, args: seq<string>): Result<string>
    requires parts.Ok? ==> parts.value != []
  {
    match parts case Ok(call) => CallValue(d, n, done + call, args) case Fail(e) => Fail(e)
  }

  lemma {:induction false} MacroText(d: Definitions, n: Counters, before: string, parts: Parts, after: string, args: seq<string>)
    requires PartsInCall(parts)
    ensures MacroAt(before + "$(" + WrittenParts(parts) + ")" + after, |before|)
    ensures Macro(d, n, before + "$(" + WrittenParts(parts) + ")" + after, |before|, args) ==
            Replaced(before, Called(d, n, [], Values(d, n, parts, args), args), after)
    decreases parts, 1
  {
    hide Scan, CallValue;
    var s := before + "$(" + WrittenParts(parts) + ")" + after;
    assert s[|before|] == '$' && s[|before| + 1] == '(';
    assert s[..|before|] == before;
    ScanParts(d, n, before, before + "$(", parts, after, [], args);
  }

  lemma {:induction false} ScanParts(d: Definitions, n: Counters, pre: string, before: string, parts: Parts, after: string,
                                     done: seq<string>, args: seq<string>)
    requires PartsInCall(parts) && |pre| + 2 <= |before| && before[..|pre|] == pre
    ensures (before + WrittenParts(parts) + ")" + after)[..|pre|] == pre
    ensures Scan(d, n, pre, before + WrittenParts(parts) + ")" + after, |before|, |before|, done, 0, args) ==
            Replaced(pre, Called(d, n, done, Values(d, n, parts, args), args), after)
    decreases parts, 0
  {
    hide Scan, CallValue, InCall;
    var s := before + WrittenParts(parts) + ")" + after;
    var rest := (if parts.Last? then "" else "," + WrittenParts(parts.others)) + ")" + after;
    assert s == before + Written(parts.part) + rest && s[..|pre|] == pre;
    hide Written, InCall;
    ScanText(d, n, pre, before, parts.part, rest, |before|, done, 0, args);
    var r := Value(d, n, parts.part, args);
    if r.Ok? {
      var s2, i := before + r.value + rest, |before + r.value|;
      assert s2[|before|..i] == r.value && s2[..|pre|] == pre && s2[i] == rest[0];
      ScanArgument(d, n, pre, s2, i, |before|, done, args);
      if parts.Last? {
        assert s2[i + 1..] == after;
      } else {
        var past := before + r.value + ",";
        assert s2 == past + WrittenParts(parts.others) + ")" + after && |past| == i + 1;
        ScanParts(d, n, pre, past, parts.others, after, done + [r.value], args);
        var others := Values(d, n, parts.others, args);
        if others.Ok? {
          assert done + [r.value] + others.value == done + ([r.value] + others.value);
        }
      }
    }
  }

  // The end of an argument, or of the call with it
  lemma ScanArgument(d: Definitions, n: Counters, pre: string, s: string, i: nat, start: nat,
                     done: seq<string>, args: seq<string>)
    requires |pre| + 2 <= start <= i < |s| && s[..|pre|] == pre && s[i] in {')', ','}
    ensures s[i] == ',' ==> Scan(d, n, pre, s, i, start, done, 0, args) ==
                            Scan(d, n, pre, s, i + 1, i + 1, done + [s[start..i]], 0, args)
    ensures s[i] == ')' ==> Scan(d, n, pre, s, i, start, done, 0, args) ==
                            Replaced(pre, CallValue(d, n, done + [s[start..i]], args), s[i + 1..])
  {
  }

  /** Expanding the text of a tree gives the tree's value. In particular the values put in
      are never searched for macros, parentheses or commas again. */
  lemma {:induction false} ExpansionEvaluates(d: Definitions, n: Counters, before: string, t: Text, args: seq<string>)
    requires Outside(t)
    ensures Whole(d, n, before + Written(t), |before|, args) == Prefixed(before, Value(d, n, t, args))
    decreases t
  {
    var s := before + Written(t);
    match t
    case Nothing =>
      assert s == before && before + "" == before;
    case Lit(c, tail) =>
      assert s == (before + [c]) + Written(tail);
      ExpansionEvaluates(d, n, before + [c], tail, args);
      Appended(before, [c], Value(d, n, tail, args));
    case Call(parts, tail) =>
      assert s == before + "$(" + WrittenParts(parts) + ")" + Written(tail);
      MacroText(d, n, before, parts, Written(tail), args);
      if Values(d, n, parts, args).Ok? {
        assert [] + Values(d, n, parts, args).value == Values(d, n, parts, args).value;
        var r := CallValue(d, n, Values(d, n, parts, args).value, args);
        if r.Ok? {
          ExpansionEvaluates(d, n, before + r.value, tail, args);
          Appended(before, r.value, Value(d, n, tail, args));
        }
      }
  }

  lemma Appended(before: string, w: string, r: Result<string>)
    ensures Prefixed(before + w, r) == Prefixed(before, Prefixed(w, r))
  {
    if r.Ok? {
      assert (before + w) + r.value == before + (w + r.value);
    }
  }

  // Text without a macro call stays as it is
  lemma {:induction false} NothingToExpand(d: Definitions, n: Counters, s: string, i: nat, args: seq<string>)
    requires i <= |s| && forall j | i <= j < |s| :: !MacroAt(s, j)
    ensures Whole(d, n, s, i, args) == Ok(s)
    decreases |s| - i
  {
    if i < |s| {
      NothingToExpand(d, n, s, i + 1, args);
    }
  }

  // ---------- what the text of a variable sees of its call ----------

  // Text without macro calls
  predicate Plain(t: Text) {
    match t case Nothing => true case Lit(_, tail) => Plain(tail) case Group(inner, tail) => Plain(inner) && Plain(tail) case Call(_, _) => false
  }

  predicate PlainParts(a: Parts) { match a case Last(part) => Plain(part) case More(part, others) => Plain(part) && PlainParts(others) }

  // What stands between the commas of a call
  function PartTexts(a: Parts): (r: seq<string>)
    ensures r != []
  {
    match a case Last(part) => [Written(part)] case More(part, others) => [Written(part)] + PartTexts(others)
  }

  /** Text of characters and references to arguments: calls that are nothing but a name. */
  predicate Template(t: Text) {
    match t
    case Nothing => true
    case Lit(_, tail) => Template(tail)
    case Group(_, _) => false
    case Call(parts, tail) => parts.Last? && Plain(parts.part) && Template(tail)
  }

  // Whether the number `k` is that of a part of the call, counted from either end
  predicate Numbers(call: seq<string>, k: int) { -|call| <= k < |call| }

  // Whether `$(name)` in the text of a called variable is a reference to a part of the call
  predicate Refers(d: Definitions, call: seq<string>, name: string) {
    d.number(name).Some? && Numbers(call, d.number(name).value)
  }

  // What `$(name)` stands for there: a part of the call, or else the environment's value
  function Reference(d: Definitions, call: seq<string>, name: string): string {
    if Refers(d, call, name) then
      var k := d.number(name).value;
      if k < 0 then call[|call| + k] else call[k]
    else match d.env(name) case Some(v) => v case None => ""
  }

  // Every reference is one to a part of the call, or to no variable or function
  predicate Resolved(d: Definitions, call: seq<string>, t: Text)
    requires Template(t)
  {
    match t
    case Nothing => true
    case Lit(_, tail) => Resolved(d, call, tail)
    case Call(parts, tail) =>
      var name := Written(parts.part);
      (Refers(d, call, name) || (name !in d.variables && d.call([name]) == None)) && Resolved(d, call, tail)
  }

  // The text with every reference replaced
  function Filled(d: Definitions, call: seq<string>, t: Text): string
    requires Template(t)
  {
    match t
    case Nothing => ""
    case Lit(c, tail) => [c] + Filled(d, call, tail)
    case Call(parts, tail) => Reference(d, call, Written(parts.part)) + Filled(d, call, tail)
  }

  lemma {:induction false} PlainValue(d: Definitions, n: Counters, t: Text, args: seq<string>)
    requires Plain(t)
    ensures Value(d, n, t, args) == Ok(Written(t))
  {
    match t
    case Nothing =>
    case Lit(c, tail) => PlainValue(d, n, tail, args);
    case Group(inner, tail) => PlainValue(d, n, inner, args); PlainValue(d, n, tail, args);
  }

  lemma {:induction false} PlainValues(d: Definitions, n: Counters, a: Parts, args: seq<string>)
    requires PlainParts(a)
    ensures Values(d, n, a, args) == Ok(PartTexts(a))
  {
    PlainValue(d, n, a.part, args);
    if a.More? {
      PlainValues(d, n, a.others, args);
    }
  }

  lemma ReferenceValue(d: Definitions, n: Counters, name: string, call: seq<string>)
    requires Refers(d, call, name) || (name !in d.variables && d.call([name]) == None)
    ensures CallValue(d, n, [name], call) == Ok(Reference(d, call, name))
  {
  }

  lemma {:induction false} TemplateValue(d: Definitions, n: Counters, t: Text, call: seq<string>)
    requires Template(t) && Resolved(d, call, t)
    ensures Value(d, n, t, call) == Ok(Filled(d, call, t))
  {
    match t
    case Nothing =>
    case Lit(c, tail) => TemplateValue(d, n, tail, call);
    case Call(parts, tail) =>
      PlainValues(d, n, parts, call);
      ReferenceValue(d, n, Written(parts.part), call);
      TemplateValue(d, n, tail, call);
  }

  /** A variable called with arguments stands for its text with every `$(k)` replaced by the
      k-th of them and `$(0)` by its name; a plain variable must not be under expansion
      already, and a called one at most 100 times. */
  lemma CallFillsIn(d: Definitions, n: Counters, before: string, parts: Parts, tail: Text, t: Text, args: seq<string>)
    requires PartsInCall(parts) && PlainParts(parts) && Outside(tail)
    requires Fits(d, n, PartTexts(parts), t) && !Refers(d, args, PartTexts(parts)[0])
    ensures Whole(d, n, before + "$(" + WrittenParts(parts) + ")" + Written(tail), |before|, args) ==
            Prefixed(before + Filled(d, PartTexts(parts), t), Value(d, n, tail, args))
  {
    var call := PartTexts(parts);
    WrittenCall(before, parts, tail);
    hide Whole, CallValue, Written, WrittenParts, PartTexts, Filled, Resolved, Template;
    ExpansionEvaluates(d, n, before, Call(parts, tail), args);
    PlainValues(d, n, parts, args);
    VariableFillsIn(d, n, call, t, args);
    Appended(before, Filled(d, call, t), Value(d, n, tail, args));
  }

  lemma WrittenCall(before: string, parts: Parts, tail: Text)
    ensures before + Written(Call(parts, tail)) == before + "$(" + WrittenParts(parts) + ")" + Written(tail)
  {
  }

  // Expanding the text of a tree, from the beginning
  lemma WholeOf(d: Definitions, n: Counters, t: Text, args: seq<string>)
    requires Outside(t)
    ensures Whole(d, n, Written(t), 0, args) == Value(d, n, t, args)
  {
    hide Whole, Value, Written;
    ExpansionEvaluates(d, n, [], t, args);
    assert [] + Written(t) == Written(t);
    var v := Value(d, n, t, args);
    if v.Ok? {
      assert [] + v.value == v.value;
    }
  }

  // `call` is one of a variable with the text of `t`, and the counters allow it
  predicate Fits(d: Definitions, n: Counters, call: seq<string>, t: Text) {
    && Template(t) && Outside(t) && call != []
    && call[0] in d.variables && d.variables[call[0]] == Written(t) && Resolved(d, call, t)
    && if |call| == 1 then Count(n, call[0]) == 0 else Count(n, call[0]) <= 100
  }

  lemma FnFillsIn(d: Definitions, n: Counters, call: seq<string>, t: Text)
    requires Fits(d, n, call, t)
    ensures FnVal(d, n, call) == Ok(Filled(d, call, t))
  {
    BeginTakes(d, n, call[0]);
    var m := Begin(n, call[0]);
    assert FnVal(d, n, call) == Whole(d, m, Written(t), 0, call);
    WholeOf(d, m, t, call);
    TemplateValue(d, m, t, call);
  }

  lemma AllFilledIn(d: Definitions, n: Counters, call: seq<string>)
    requires call != []
    ensures forall t: Text | Fits(d, n, call, t) :: FnVal(d, n, call) == Ok(Filled(d, call, t))
  {
    forall t: Text | Fits(d, n, call, t) ensures FnVal(d, n, call) == Ok(Filled(d, call, t)) {
      FnFillsIn(d, n, call, t);
    }
  }

  lemma VariableFillsIn(d: Definitions, n: Counters, call: seq<string>, t: Text, args: seq<string>)
    requires Fits(d, n, call, t) && !Refers(d, args, call[0])
    ensures CallValue(d, n, call, args) == Ok(Filled(d, call, t))
  {
    FnFillsIn(d, n, call, t);
  }

  /** A plain variable under expansion, and a called one under more than 100, is refused. */
  lemma CallRefused(d: Definitions, n: Counters, before: string, parts: Parts, tail: Text, args: seq<string>)
    requires PartsInCall(parts) && PlainParts(parts) && Outside(tail)
    requires var name := PartTexts(parts)[0];
             && name in d.variables && !Refers(d, args, name)
             && (if |PartTexts(parts)| == 1 then Count(n, name) > 0 else Count(n, name) > 100)
    ensures Whole(d, n, before + "$(" + WrittenParts(parts) + ")" + Written(tail), |before|, args) ==
            Fail(if |PartTexts(parts)| == 1 then SelfReference(PartTexts(parts)[0]) else StuckRecursion(PartTexts(parts)[0]))
  {
    var call := PartTexts(parts);
    WrittenCall(before, parts, tail);
    assert CallValue(d, n, call, args) == FnVal(d, n, call) ==
           Fail(if |call| == 1 then SelfReference(call[0]) else StuckRecursion(call[0]));
    hide Whole, Written, WrittenParts, PartTexts, CallValue, FnVal;
    ExpansionEvaluates(d, n, before, Call(parts, tail), args);
    PlainValues(d, n, parts, args);
  }
}
