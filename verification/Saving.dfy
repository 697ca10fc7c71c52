/** What is written to minimal and full configuration files, and the writers on top of the
    caching evaluator. */
module Saving {
  import opened Expressions
  import opened Wrappers
  import opened Values
  import opened Evaluation
  import opened ConfigText
  import opened Engine

  // ---------- the minimal configuration ----------

  /** The value a symbol would get from its defaults, as the minimal configuration writer
      works it out. Implies count here whether or not the direct dependencies are met. */
  function StrDefault(k: Kconf, env: Env, s: nat): string {
    var d := k.SymAt(s);
    if BoolTri(d.orig) then
      if d.choice.Some? then "n"
      else
        var val := Max(Max(Ev(k, env, d.revDep), Ev(k, env, d.weakRevDep)), DefaultTri(k, env, s));
        TriStr(if val == 1 && TypeOf(k, env, s) == Bool then 2 else val)
    else if d.orig == Unknown then ""
    else match DefaultStr(k, env, s) case Some(x) => x case None => ""
  }

  // Symbols a minimal configuration leaves out
  predicate MinSkips(k: Kconf, u: User, env: Env, s: nat) {
    var d := k.SymAt(s);
    || (d.choice == None && TriAt(env, Vis(Sym(s))) <= Ev(k, env, d.revDep))
    || StrAt(env, s) == StrDefault(k, env, s)
    || (d.choice.Some? && !k.ChoiceAt(d.choice.value).optional && d.orig == Bool &&
        SelectionFromDefaults(k, env, d.choice.value) == Some(s) && TriAt(env, TriOf(s)) == 2)
  }

  function MinEntry(k: Kconf, u: User, env: Env, s: nat): string {
    if k.SymAt(s).defined && !MinSkips(k, u, env, s) then ConfigString(k, u, env, s) else ""
  }

  // The entries of the symbols from number `i` on
  function MinEntries(k: Kconf, u: User, env: Env, i: nat): string
    requires i <= |k.syms|
    decreases |k.syms| - i
  {
    if i == |k.syms| then "" else MinEntry(k, u, env, i) + MinEntries(k, u, env, i + 1)
  }

  function MinText(k: Kconf, u: User, env: Env, header: string): string {
    header + MinEntries(k, u, env, 0)
  }

  // ---------- the full configuration ----------

  /** The menu tree, as far as writing a configuration looks at it: symbols, menus and
      comments with their titles and conditions, and nodes that print nothing. */
  datatype NodeItem =
    | SymNode(s: nat)
    | MenuNode(title: string, dep: Expr, visibility: Expr)
    | CommentNode(title: string, dep: Expr)
    | OtherNode

  datatype Node = Node(item: NodeItem, children: seq<Node>)

  // What the writer carries along: the symbols done, and whether an end comment came last
  datatype Progress = Progress(done: set<nat>, afterEnd: bool)

  predicate MenuShown(k: Kconf, env: Env, item: NodeItem) {
    item.MenuNode? && Ev(k, env, item.dep) != 0 && Ev(k, env, item.visibility) != 0
  }

  predicate CommentShown(k: Kconf, env: Env, item: NodeItem) {
    item.CommentNode? && Ev(k, env, item.dep) != 0
  }

  function Heading(title: string): string { "\n#\n# " + title + "\n#\n" }
  function EndComment(title: string): string { "# end of " + title + "\n" }

  // The text for entering a node
  function EnterText(k: Kconf, u: User, env: Env, item: NodeItem, p: Progress): string {
    match item
    case SymNode(s) =>
      if s in p.done || ConfigString(k, u, env, s) == "" then ""
      else (if p.afterEnd then "\n" else "") + ConfigString(k, u, env, s)
    case MenuNode(title, _, _) => if MenuShown(k, env, item) then Heading(title) else ""
    case CommentNode(title, _) => if CommentShown(k, env, item) then Heading(title) else ""
    case OtherNode => ""
  }

  function EnterProgress(k: Kconf, u: User, env: Env, item: NodeItem, p: Progress): Progress {
    match item
    case SymNode(s) =>
      Progress(p.done + {s}, p.afterEnd && (s in p.done || ConfigString(k, u, env, s) == ""))
    case _ => Progress(p.done, p.afterEnd && !MenuShown(k, env, item) && !CommentShown(k, env, item))
  }

  // A menu ends when the walk climbs back to it, so one without children has no end
  predicate Ends(k: Kconf, env: Env, n: Node) { n.children != [] && MenuShown(k, env, n.item) }

  // The text for leaving a node
  function LeaveText(k: Kconf, env: Env, n: Node): string {
    if Ends(k, env, n) then EndComment(n.item.title) else ""
  }

  function LeaveProgress(k: Kconf, env: Env, n: Node, p: Progress): Progress {
    if Ends(k, env, n) then p.(afterEnd := true) else p
  }

  function NodeText(k: Kconf, u: User, env: Env, n: Node, p: Progress): string
    decreases n, 0
  {
    var p1 := EnterProgress(k, u, env, n.item, p);
    EnterText(k, u, env, n.item, p) + ForestText(k, u, env, n.children, p1) + LeaveText(k, env, n)
  }

  function NodeProgress(k: Kconf, u: User, env: Env, n: Node, p: Progress): Progress
    decreases n, 0
  {
    var p1 := EnterProgress(k, u, env, n.item, p);
    LeaveProgress(k, env, n, ForestProgress(k, u, env, n.children, p1))
  }

  function ForestText(k: Kconf, u: User, env: Env, ns: seq<Node>, p: Progress): string
    decreases ns, 1
  {
    if ns == [] then "" else NodeText(k, u, env, ns[0], p) + ForestText(k, u, env, ns[1..], NodeProgress(k, u, env, ns[0], p))
  }

  function ForestProgress(k: Kconf, u: User, env: Env, ns: seq<Node>, p: Progress): Progress
    decreases ns, 1
  {
    if ns == [] then p else ForestProgress(k, u, env, ns[1..], NodeProgress(k, u, env, ns[0], p))
  }

  /** The text of a full configuration file for a menu tree given by the nodes below the top. */
  function FullText(k: Kconf, u: User, env: Env, header: string, nodes: seq<Node>): string {
    header + ForestText(k, u, env, nodes, Progress({}, false))
  }

  // ---------- the minimal writer ----------

  // Evaluating the reverse dependency is always possible
  ghost predicate RevDepsExist(k: Kconf) {
    forall s: nat, c {:trigger c in EMay(k, k.SymAt(s).revDep)} | s < |k.syms| && c in EMay(k, k.SymAt(s).revDep) :: HasCell(k, c)
  }

  lemma {:induction false} BoundExists(rk: Cell -> nat, cells: set<Cell>) returns (bound: nat)
    ensures forall c <- cells :: rk(c) < bound
  {
    if cells == {} {
      bound := 0;
    } else {
      var c :| c in cells;
      var b := BoundExists(rk, cells - {c});
      bound := if b <= rk(c) then rk(c) + 1 else b;
    }
  }

  method RevDepValue(conf: Kconfig, s: nat) returns (v: Tri)
    requires conf.Valid() && s < |conf.k.syms| && RevDepsExist(conf.k)
    modifies conf`cache, conf`flags, conf.syms, conf.choices
    ensures conf.Valid() && conf.user == old(conf.user)
    ensures v == Ev(conf.k, conf.Sol(), conf.k.SymAt(s).revDep)
  {
    ghost var bound := BoundExists(conf.rk, EMay(conf.k, conf.k.SymAt(s).revDep));
    v := conf.ExprValue(conf.k.SymAt(s).revDep, bound);
  }

  method StrDefaultOf(conf: Kconfig, s: nat) returns (v: string)
    requires conf.Valid() && s < |conf.k.syms| && conf.k.SymAt(s).fixed == None
    modifies conf`cache, conf`flags, conf.syms, conf.choices
    ensures conf.Valid() && conf.user == old(conf.user)
    ensures v == StrDefault(conf.k, conf.Sol(), s)
  {
    var d := conf.k.SymAt(s);
    if BoolTri(d.orig) {
      if d.choice.Some? {
        return "n";
      }
      conf.BelowMay(TriOf(s));
      v := TriDefaultOf(conf, s, conf.rk(TriOf(s)));
    } else if d.orig != Unknown {
      conf.BelowMay(StrOf(s));
      var text := conf.DefaultStrValue(s, conf.rk(StrOf(s)));
      v := if text.Some? then text.value else "";
    } else {
      v := "";
    }
  }

  method TriDefaultOf(conf: Kconfig, s: nat, ghost bound: nat) returns (v: string)
    requires conf.Valid() && s < |conf.k.syms| && conf.Below(FreeTriMay(conf.k, s), bound)
    requires BoolTri(conf.k.SymAt(s).orig) && conf.k.SymAt(s).choice == None
    modifies conf`cache, conf`flags, conf.syms, conf.choices
    ensures conf.Valid() && conf.user == old(conf.user)
    ensures v == StrDefault(conf.k, conf.Sol(), s)
  {
    hide Kconfig.Valid;
    var d := conf.k.SymAt(s);
    var val := 0;
    var h, cond := conf.FirstTrue(DefaultConds(d.defaults), bound);
    if h < |d.defaults| {
      AllMayAt(conf.k, DefaultValues(d.defaults), h);
      var w := conf.ExprValue(d.defaults[h].value, bound);
      val := Min(w, cond);
    }
    assert val == DefaultTri(conf.k, conf.Sol(), s);
    var rev := conf.ExprValue(d.revDep, bound);
    var weak := conf.ExprValue(d.weakRevDep, bound);
    val := Max(Max(rev, weak), val);
    if val == 1 {
      var t := conf.SymType(s, bound);
      if t == Bool {
        val := 2;
      }
    }
    v := TriStr(val);
  }

  method MinSkip(conf: Kconfig, s: nat) returns (skip: bool)
    requires conf.Valid() && s < |conf.k.syms| && conf.k.SymAt(s).defined && RevDepsExist(conf.k)
    modifies conf`cache, conf`flags, conf.syms, conf.choices
    ensures conf.Valid() && conf.user == old(conf.user)
    ensures skip == MinSkips(conf.k, conf.user, conf.Sol(), s)
  {
    assert SymOk(conf.k, s);
    hide Kconfig.Valid, StrDefault;
    var d := conf.k.SymAt(s);
    if d.choice == None {
      var vis := conf.SymVisibility(s);
      var rev := RevDepValue(conf, s);
      if vis <= rev {
        return true;
      }
    }
    var val := conf.StrValue(s);
    var def := StrDefaultOf(conf, s);
    if val == def {
      return true;
    }
    if d.choice.Some? && !conf.k.ChoiceAt(d.choice.value).optional {
      var c := d.choice.value;
      BelowMaySel(conf, c);
      var sel := conf.ComputeDefaultSelection(c, conf.rk(SelOf(c)));
      if sel == Some(s) && d.orig == Bool {
        var t := conf.TriValue(s);
        return t == 2;
      }
    }
    skip := false;
  }

  lemma BelowMaySel(conf: Kconfig, c: nat)
    requires conf.Valid() && c < |conf.k.choices|
    ensures conf.Below(May(conf.k, SelOf(c)), conf.rk(SelOf(c)))
  {
    conf.BelowMay(SelOf(c));
  }

  /** Writes the minimal configuration. */
  method WriteMinConfig(conf: Kconfig, header: string) returns (text: string)
    requires conf.Valid() && RevDepsExist(conf.k)
    modifies conf`cache, conf`flags, conf.syms, conf.choices
    ensures conf.Valid() && conf.user == old(conf.user)
    ensures text == MinText(conf.k, conf.user, conf.Sol(), header)
  {
    hide Kconfig.Valid, MinSkips, ConfigString;
    text := header;
    for s := 0 to |conf.k.syms|
      invariant conf.Valid() && conf.user == old(conf.user)
      invariant MinText(conf.k, conf.user, conf.Sol(), header) ==
                text + MinEntries(conf.k, conf.user, conf.Sol(), s)
    {
      if conf.k.SymAt(s).defined {
        var skip := MinSkip(conf, s);
        if !skip {
          var entry := conf.ConfigStringOf(s);
          text := text + entry;
        }
      }
    }
  }

  // ---------- the full writer ----------

  predicate ExprExists(k: Kconf, e: Expr) { forall c <- EMay(k, e) :: HasCell(k, c) }

  // The conditions and symbols of a tree belong to the configuration
  predicate ItemExists(k: Kconf, item: NodeItem) {
    match item
    case SymNode(s) => s < |k.syms|
    case MenuNode(_, dep, visibility) => ExprExists(k, dep) && ExprExists(k, visibility)
    case CommentNode(_, dep) => ExprExists(k, dep)
    case OtherNode => true
  }

  predicate ForestExists(k: Kconf, ns: seq<Node>)
    decreases ns
  {
    ns == [] || (ItemExists(k, ns[0].item) && ForestExists(k, ns[0].children) && ForestExists(k, ns[1..]))
  }

  method ValueOf(conf: Kconfig, e: Expr) returns (v: Tri)
    requires conf.Valid() && ExprExists(conf.k, e)
    modifies conf`cache, conf`flags, conf.syms, conf.choices
    ensures conf.Valid() && conf.user == old(conf.user)
    ensures v == Ev(conf.k, conf.Sol(), e)
  {
    ghost var bound := BoundExists(conf.rk, EMay(conf.k, e));
    v := conf.ExprValue(e, bound);
  }

  method IsShown(conf: Kconfig, item: NodeItem) returns (shown: bool)
    requires conf.Valid() && ItemExists(conf.k, item)
    modifies conf`cache, conf`flags, conf.syms, conf.choices
    ensures conf.Valid() && conf.user == old(conf.user)
    ensures shown == (MenuShown(conf.k, conf.Sol(), item) || CommentShown(conf.k, conf.Sol(), item))
  {
    hide Kconfig.Valid;
    match item {
      case MenuNode(_, dep, visibility) =>
        var d := ValueOf(conf, dep);
        var vis := ValueOf(conf, visibility);
        shown := d != 0 && vis != 0;
      case CommentNode(_, dep) =>
        var d := ValueOf(conf, dep);
        shown := d != 0;
      case _ =>
        shown := false;
    }
  }

  method EnterNode(conf: Kconfig, item: NodeItem, p: Progress) returns (text: string, p1: Progress)
    requires conf.Valid() && ItemExists(conf.k, item)
    modifies conf`cache, conf`flags, conf.syms, conf.choices
    ensures conf.Valid() && conf.user == old(conf.user)
    ensures text == EnterText(conf.k, conf.user, conf.Sol(), item, p)
    ensures p1 == EnterProgress(conf.k, conf.user, conf.Sol(), item, p)
  {
    hide Kconfig.Valid, ConfigString;
    text, p1 := "", p;
    if item.SymNode? {
      p1 := p.(done := p.done + {item.s});
      if item.s !in p.done {
        var entry := conf.ConfigStringOf(item.s);
        if entry != "" {
          text := (if p.afterEnd then "\n" else "") + entry;
          p1 := p1.(afterEnd := false);
        }
      }
    } else {
      var shown := IsShown(conf, item);
      if shown {
        text := Heading(item.title);
        p1 := p.(afterEnd := false);
      }
    }
  }

  method LeaveNode(conf: Kconfig, n: Node, p: Progress) returns (text: string, p1: Progress)
    requires conf.Valid() && ItemExists(conf.k, n.item)
    modifies conf`cache, conf`flags, conf.syms, conf.choices
    ensures conf.Valid() && conf.user == old(conf.user)
    ensures text == LeaveText(conf.k, conf.Sol(), n) && p1 == LeaveProgress(conf.k, conf.Sol(), n, p)
  {
    hide Kconfig.Valid;
    text, p1 := "", p;
    if n.children != [] && n.item.MenuNode? {
      var shown := IsShown(conf, n.item);
      if shown {
        text := EndComment(n.item.title);
        p1 := p.(afterEnd := true);
      }
    }
  }

  method WriteForest(conf: Kconfig, ns: seq<Node>, p: Progress) returns (text: string, p1: Progress)
    requires conf.Valid() && ForestExists(conf.k, ns)
    modifies conf`cache, conf`flags, conf.syms, conf.choices
    ensures conf.Valid() && conf.user == old(conf.user)
    ensures text == ForestText(conf.k, conf.user, conf.Sol(), ns, p)
    ensures p1 == ForestProgress(conf.k, conf.user, conf.Sol(), ns, p)
    decreases ns
  {
    hide Kconfig.Valid, EnterText, EnterProgress, LeaveText, LeaveProgress;
    if ns == [] {
      return "", p;
    }
    var item := ns[0].item;
    var enter, p2 := EnterNode(conf, item, p);
    var inner, p3 := WriteForest(conf, ns[0].children, p2);
    var leave, p4 := LeaveNode(conf, ns[0], p3);
    var rest;
    rest, p1 := WriteForest(conf, ns[1..], p4);
    text := enter + inner + leave + rest;
  }

  /** Writes the full configuration for the nodes below the top of the menu tree. */
  method WriteFullConfig(conf: Kconfig, header: string, ns: seq<Node>) returns (text: string)
    requires conf.Valid() && ForestExists(conf.k, ns)
    modifies conf`cache, conf`flags, conf.syms, conf.choices
    ensures conf.Valid() && conf.user == old(conf.user)
    ensures text == FullText(conf.k, conf.user, conf.Sol(), header, ns)
  {
    var body, _ := WriteForest(conf, ns, Progress({}, false));
    text := header + body;
  }
}
