/** The menu tree: nodes linked by first child, next sibling and parent, rewritten in place
    after parsing and then walked without recursion. */
module MenuTree {
  import opened Sequences

  // What a node stands for; menus and comments always have a prompt, 'if's never do
  datatype Kind = IfBlock | SymbolEntry(sym: nat, prompt: bool) | ChoiceEntry(prompt: bool) | MenuEntry | CommentEntry

  class MenuNode {
    const kind: Kind
    var next: MenuNode?
    var list: MenuNode?
    var parent: MenuNode?

    constructor (kind: Kind, parent: MenuNode?)
      ensures this.kind == kind && next == null && list == null && this.parent == parent
    {
      this.kind, this.next, this.list, this.parent := kind, null, null, parent;
    }
  }

  // Nodes without a prompt hand their children to their parent, choices excepted
  predicate Dissolves(n: MenuNode) { n.kind.IfBlock? || (n.kind.SymbolEntry? && !n.kind.prompt) }

  // ---------- the shape of a tree ----------

  /** The nodes from one sibling on: the sibling, its children, and the siblings after it. */
  datatype Forest = Nil | Cons(node: MenuNode, kids: Forest, rest: Forest)

  function Append(a: Forest, b: Forest): Forest {
    match a case Nil => b case Cons(n, k, r) => Cons(n, k, Append(r, b))
  }

  // The order in which the nodes were parsed: a node, what is below it, what comes after it
  function PreOrder(f: Forest): seq<MenuNode> {
    match f case Nil => [] case Cons(n, k, r) => [n] + PreOrder(k) + PreOrder(r)
  }

  function Size(f: Forest): nat { match f case Nil => 0 case Cons(n, k, r) => 1 + Size(k) + Size(r) }

  function Nodes(f: Forest): set<MenuNode> {
    match f case Nil => {} case Cons(n, k, r) => {n} + Nodes(k) + Nodes(r)
  }

  // No node occurs twice
  predicate Simple(f: Forest) {
    match f
    case Nil => true
    case Cons(n, k, r) => Simple(k) && Simple(r) && n !in Nodes(k) && n !in Nodes(r) && Nodes(k) !! Nodes(r)
  }

  /** The pointers from `first` up to `end` spell out `f`, and every node of `f` points to
      the node that contains it: `parent` on the first level. */
  predicate Linked(first: MenuNode?, f: Forest, parent: MenuNode?, end: MenuNode?)
    reads Nodes(f)
  {
    match f
    case Nil => first == end
    case Cons(n, k, r) => first == n && n.parent == parent && Linked(n.list, k, n, null) && Linked(n.next, r, parent, end)
  }

  // ---------- what the rewriting does ----------

  // Children of dissolving nodes are put behind them
  function Flattened(f: Forest): Forest
    decreases Size(f)
  {
    match f
    case Nil => Nil
    case Cons(n, k, r) =>
      if k.Cons? && Dissolves(n) then
        AppendSize(k, r);
        Cons(n, Nil, Flattened(Append(k, r)))
      else Cons(n, k, Flattened(r))
  }

  // The siblings without the 'if's
  function WithoutIfs(f: Forest): Forest {
    match f
    case Nil => Nil
    case Cons(n, k, r) => if n.kind.IfBlock? then WithoutIfs(r) else Cons(n, k, WithoutIfs(r))
  }

  // What becomes of the children of a node once they have been finalised themselves
  function Settled(f: Forest): Forest { WithoutIfs(Flattened(f)) }

  /** A node finalised: a symbol takes the nodes after it that depend on it as children.
      `auto` tells which do. */
  function Finalized(f: Forest, auto: (MenuNode, MenuNode) -> bool): (g: Forest)
    requires f.Cons?
    ensures g.Cons? && g.node == f.node && Size(g.rest) <= Size(f.rest)
    decreases Size(f), 0
  {
    if f.node.kind.SymbolEntry? then
      var (under, after) := Tilted(f.node, f.rest, auto);
      Cons(f.node, Settled(if under.Cons? then under else f.kids), after)
    else
      Cons(f.node, Settled(FinalizedAll(f.kids, auto)), f.rest)
  }

  // The siblings finalised one after the other
  function FinalizedAll(f: Forest, auto: (MenuNode, MenuNode) -> bool): Forest
    decreases Size(f), 1
  {
    if f.Nil? then Nil
    else
      var g := Finalized(f, auto);
      Cons(g.node, g.kids, FinalizedAll(g.rest, auto))
  }

  // The siblings split into those that go below the symbol `n`, finalised, and the others
  function Tilted(n: MenuNode, f: Forest, auto: (MenuNode, MenuNode) -> bool): (r: (Forest, Forest))
    ensures Size(r.1) <= Size(f)
    decreases Size(f), 1
  {
    if f.Nil? || !auto(n, f.node) then (Nil, f)
    else
      var g := Finalized(f, auto);
      var (under, after) := Tilted(n, g.rest, auto);
      (Cons(g.node, g.kids, under), after)
  }

  // ---------- what it keeps ----------

  function NonIfs(s: seq<MenuNode>): seq<MenuNode> {
    if s == [] then [] else (if s[0].kind.IfBlock? then [] else [s[0]]) + NonIfs(s[1..])
  }

  predicate NoIfs(f: Forest) {
    match f case Nil => true case Cons(n, k, r) => !n.kind.IfBlock? && NoIfs(k) && NoIfs(r)
  }

  // No 'if' below the siblings
  predicate NoIfsBelow(f: Forest) {
    match f case Nil => true case Cons(n, k, r) => NoIfs(k) && NoIfsBelow(r)
  }

  // Symbols have no children before they are finalised
  predicate Parsed(f: Forest) {
    match f case Nil => true case Cons(n, k, r) => (n.kind.SymbolEntry? ==> k.Nil?) && Parsed(k) && Parsed(r)
  }

  lemma {:induction false} AppendSize(a: Forest, b: Forest)
    ensures Size(Append(a, b)) == Size(a) + Size(b)
  {
    match a case Nil => case Cons(n, k, r) => AppendSize(r, b);
  }

  lemma {:induction false} AppendPreOrder(a: Forest, b: Forest)
    ensures PreOrder(Append(a, b)) == PreOrder(a) + PreOrder(b)
    ensures NoIfs(a) && NoIfsBelow(b) ==> NoIfsBelow(Append(a, b))
  {
    match a
    case Nil =>
    case Cons(n, k, r) =>
      AppendPreOrder(r, b);
      assert [n] + PreOrder(k) + (PreOrder(r) + PreOrder(b)) == [n] + PreOrder(k) + PreOrder(r) + PreOrder(b);
  }

  lemma {:induction false} NonIfsConcat(a: seq<MenuNode>, b: seq<MenuNode>)
    ensures NonIfs(a + b) == NonIfs(a) + NonIfs(b)
  {
    if a == [] {
      assert a + b == b;
    } else {
      assert (a + b)[1..] == a[1..] + b;
      NonIfsConcat(a[1..], b);
    }
  }

  lemma NonIfsCons(n: MenuNode, k: Forest, r: Forest)
    ensures NonIfs(PreOrder(Cons(n, k, r))) ==
            (if n.kind.IfBlock? then [] else [n]) + NonIfs(PreOrder(k)) + NonIfs(PreOrder(r))
  {
    NonIfsConcat([n] + PreOrder(k), PreOrder(r));
    NonIfsConcat([n], PreOrder(k));
    assert NonIfs([n]) == (if n.kind.IfBlock? then [] else [n]) + NonIfs([]);
  }

  // Flattening keeps the order of all nodes, and leaves 'if's without children
  lemma {:induction false} FlattenedKeeps(f: Forest)
    ensures PreOrder(Flattened(f)) == PreOrder(f)
    ensures NoIfsBelow(f) ==> NoIfsBelow(Flattened(f)) && IfsEmpty(Flattened(f))
    decreases Size(f)
  {
    match f
    case Nil =>
    case Cons(n, k, r) =>
      if k.Cons? && Dissolves(n) {
        AppendSize(k, r);
        FlattenedKeeps(Append(k, r));
        AppendPreOrder(k, r);
        assert [n] + [] + (PreOrder(k) + PreOrder(r)) == [n] + PreOrder(k) + PreOrder(r);
      } else {
        FlattenedKeeps(r);
      }
  }

  predicate IfsEmpty(f: Forest) {
    match f case Nil => true case Cons(n, k, r) => (n.kind.IfBlock? ==> k.Nil?) && IfsEmpty(r)
  }

  lemma {:induction false} WithoutIfsKeeps(f: Forest)
    requires NoIfsBelow(f) && IfsEmpty(f)
    ensures NoIfs(WithoutIfs(f)) && NonIfs(PreOrder(WithoutIfs(f))) == NonIfs(PreOrder(f))
  {
    match f
    case Nil =>
    case Cons(n, k, r) =>
      WithoutIfsKeeps(r);
      NonIfsCons(n, k, r);
      NonIfsCons(n, k, WithoutIfs(r));
  }

  lemma SettledKeeps(f: Forest)
    requires NoIfsBelow(f)
    ensures NoIfs(Settled(f)) && NonIfs(PreOrder(Settled(f))) == NonIfs(PreOrder(f))
  {
    FlattenedKeeps(f);
    WithoutIfsKeeps(Flattened(f));
  }

  /** Finalising a node keeps the order of the nodes that are not 'if's and leaves no 'if'
      below the node, however the implicit submenus come out. */
  lemma {:induction false} FinalizedKeeps(f: Forest, auto: (MenuNode, MenuNode) -> bool)
    requires f.Cons? && Parsed(f)
    ensures var g := Finalized(f, auto); NoIfs(g.kids) && Parsed(g.rest) && NonIfs(PreOrder(g)) == NonIfs(PreOrder(f))
    decreases Size(f), 0
  {
    var g := Finalized(f, auto);
    NonIfsCons(f.node, f.kids, f.rest);
    NonIfsCons(g.node, g.kids, g.rest);
    if f.node.kind.SymbolEntry? {
      var under := Tilted(f.node, f.rest, auto).0;
      TiltedKeeps(f.node, f.rest, auto);
      SettledKeeps(under);
    } else {
      FinalizedAllKeeps(f.kids, auto);
      SettledKeeps(FinalizedAll(f.kids, auto));
    }
  }

  lemma {:induction false} FinalizedAllKeeps(f: Forest, auto: (MenuNode, MenuNode) -> bool)
    requires Parsed(f)
    ensures var g := FinalizedAll(f, auto); NoIfsBelow(g) && NonIfs(PreOrder(g)) == NonIfs(PreOrder(f))
    decreases Size(f), 1
  {
    if f.Cons? {
      FinalizedKeeps(f, auto);
      var g := Finalized(f, auto);
      FinalizedAllKeeps(g.rest, auto);
      NonIfsCons(g.node, g.kids, g.rest);
      NonIfsCons(g.node, g.kids, FinalizedAll(g.rest, auto));
    }
  }

  lemma {:induction false} TiltedKeeps(n: MenuNode, f: Forest, auto: (MenuNode, MenuNode) -> bool)
    requires Parsed(f)
    ensures var t := Tilted(n, f, auto);
            NoIfsBelow(t.0) && Parsed(t.1) && NonIfs(PreOrder(f)) == NonIfs(PreOrder(t.0)) + NonIfs(PreOrder(t.1))
    decreases Size(f), 1
  {
    assert NonIfs(PreOrder(Nil)) == [];
    hide Finalized, NoIfs, NonIfs, PreOrder, Size;
    var t := Tilted(n, f, auto);
    if f.Nil? || !auto(n, f.node) {
      assert t == (Nil, f);
    } else {
      FinalizedKeeps(f, auto);
      var g := Finalized(f, auto);
      TiltedKeeps(n, g.rest, auto);
      TiltedOne(g, Tilted(n, g.rest, auto));
      assert t == (Cons(g.node, g.kids, Tilted(n, g.rest, auto).0), Tilted(n, g.rest, auto).1);
    }
  }

  lemma TiltedOne(g: Forest, t: (Forest, Forest))
    requires g.Cons? && NonIfs(PreOrder(g.rest)) == NonIfs(PreOrder(t.0)) + NonIfs(PreOrder(t.1))
    ensures NonIfs(PreOrder(g)) == NonIfs(PreOrder(Cons(g.node, g.kids, t.0))) + NonIfs(PreOrder(t.1))
  {
    NonIfsCons(g.node, g.kids, g.rest);
    NonIfsCons(g.node, g.kids, t.0);
    Regroup((if g.node.kind.IfBlock? then [] else [g.node]) + NonIfs(PreOrder(g.kids)),
            NonIfs(PreOrder(t.0)), NonIfs(PreOrder(t.1)));
    hide *;
    assert g == Cons(g.node, g.kids, g.rest);
  }

  lemma Regroup(x: seq<MenuNode>, y: seq<MenuNode>, z: seq<MenuNode>)
    ensures x + (y + z) == (x + y) + z
  {
  }

  // ---------- where every node ends up ----------

  /** The tree as its nodes depend on each other, with nothing moved out yet: a symbol has the
      nodes after it that depend on it as children. */
  function Nested(f: Forest, auto: (MenuNode, MenuNode) -> bool): (g: Forest)
    requires f.Cons?
    ensures g.Cons? && g.node == f.node && Size(g.rest) <= Size(f.rest)
    decreases Size(f), 0
  {
    if f.node.kind.SymbolEntry? then
      var (under, after) := NestedRun(f.node, f.rest, auto);
      Cons(f.node, under, after)
    else
      Cons(f.node, NestedAll(f.kids, auto), f.rest)
  }

  function NestedAll(f: Forest, auto: (MenuNode, MenuNode) -> bool): Forest
    decreases Size(f), 1
  {
    if f.Nil? then Nil
    else
      var g := Nested(f, auto);
      Cons(g.node, g.kids, NestedAll(g.rest, auto))
  }

  // The run of siblings that depend on `n`, and the siblings behind it
  function NestedRun(n: MenuNode, f: Forest, auto: (MenuNode, MenuNode) -> bool): (r: (Forest, Forest))
    ensures Size(r.1) <= Size(f)
    decreases Size(f), 1
  {
    if f.Nil? || !auto(n, f.node) then (Nil, f)
    else
      var g := Nested(f, auto);
      var (under, after) := NestedRun(n, g.rest, auto);
      (Cons(g.node, g.kids, under), after)
  }

  // Every node with its parent, in order
  function Pairs(f: Forest, parent: MenuNode?): seq<(MenuNode, MenuNode?)> {
    match f case Nil => [] case Cons(n, k, r) => [(n, parent)] + Pairs(k, n) + Pairs(r, parent)
  }

  // Nodes that have a prompt, and choices even without one, keep their children
  predicate Keeps(n: MenuNode) {
    match n.kind
    case IfBlock => false
    case SymbolEntry(_, prompt) => prompt
    case ChoiceEntry(_) => true
    case MenuEntry => true
    case CommentEntry => true
  }

  // Every node that is no 'if', with the nearest node around it that keeps its children
  function NearestPairs(f: Forest, parent: MenuNode?): seq<(MenuNode, MenuNode?)> {
    match f
    case Nil => []
    case Cons(n, k, r) =>
      (if n.kind.IfBlock? then [] else [(n, parent)]) +
      NearestPairs(k, if Keeps(n) then n else parent) + NearestPairs(r, parent)
  }

  // No 'if', and children only below nodes that keep them
  predicate Tidy(f: Forest) {
    match f case Nil => true case Cons(n, k, r) => !n.kind.IfBlock? && (k.Nil? || Keeps(n)) && Tidy(k) && Tidy(r)
  }

  predicate TidyBelow(f: Forest) { match f case Nil => true case Cons(n, k, r) => Tidy(k) && TidyBelow(r) }

  lemma {:induction false} TidyPairs(f: Forest, parent: MenuNode?)
    requires Tidy(f)
    ensures NearestPairs(f, parent) == Pairs(f, parent) && TidyBelow(f)
  {
    match f
    case Nil =>
    case Cons(n, k, r) =>
      TidyPairs(k, n);
      TidyPairs(r, parent);
  }

  lemma {:induction false} AppendNearest(a: Forest, b: Forest, parent: MenuNode?)
    ensures NearestPairs(Append(a, b), parent) == NearestPairs(a, parent) + NearestPairs(b, parent)
    ensures TidyBelow(a) && TidyBelow(b) ==> TidyBelow(Append(a, b))
  {
    match a
    case Nil =>
    case Cons(n, k, r) =>
      AppendNearest(r, b, parent);
      hide Append, Tidy;
      PairsRegroup((if n.kind.IfBlock? then [] else [(n, parent)]) + NearestPairs(k, if Keeps(n) then n else parent),
                   NearestPairs(r, parent), NearestPairs(b, parent));
  }

  lemma PairsRegroup(x: seq<(MenuNode, MenuNode?)>, y: seq<(MenuNode, MenuNode?)>, z: seq<(MenuNode, MenuNode?)>)
    ensures x + (y + z) == x + y + z
  {
  }

  // Flattening leaves children only below nodes that keep them
  lemma {:induction false} FlattenedTidy(f: Forest)
    requires TidyBelow(f)
    ensures TidyBelow(Flattened(f)) && OnlyKept(Flattened(f))
    decreases Size(f)
  {
    match f
    case Nil =>
    case Cons(n, k, r) =>
      if k.Cons? && Dissolves(n) {
        TidyPairs(k, n);
        AppendSize(k, r);
        AppendNearest(k, r, null);
        FlattenedTidy(Append(k, r));
      } else {
        FlattenedTidy(r);
      }
  }

  lemma MovedOut(n: MenuNode, k: Forest, r: Forest, parent: MenuNode?)
    requires !Keeps(n)
    ensures NearestPairs(Cons(n, k, r), parent) ==
            (if n.kind.IfBlock? then [] else [(n, parent)]) + NearestPairs(Append(k, r), parent)
    ensures NearestPairs(Cons(n, Nil, r), parent) ==
            (if n.kind.IfBlock? then [] else [(n, parent)]) + NearestPairs(r, parent)
  {
    AppendNearest(k, r, parent);
    var x := if n.kind.IfBlock? then [] else [(n, parent)];
    PairsRegroup(x, NearestPairs(k, parent), NearestPairs(r, parent));
    assert x + [] == x;
    hide Append;
  }

  /** Flattening moves no node out of the nearest node around it that keeps its children. */
  lemma {:induction false} FlattenedNearest(f: Forest, parent: MenuNode?)
    requires TidyBelow(f)
    ensures NearestPairs(Flattened(f), parent) == NearestPairs(f, parent)
    decreases Size(f)
  {
    match f
    case Nil =>
    case Cons(n, k, r) =>
      if k.Cons? && Dissolves(n) {
        assert TidyBelow(Append(k, r)) by {
          TidyPairs(k, n);
          AppendNearest(k, r, null);
        }
        AppendSize(k, r);
        MovedOut(n, k, r, parent);
        assert Flattened(f) == Cons(n, Nil, Flattened(Append(k, r)));
        MovedOut(n, Nil, Flattened(Append(k, r)), parent);
        hide NearestPairs, Append;
        FlattenedNearest(Append(k, r), parent);
      } else {
        FlattenedNearest(r, parent);
      }
  }

  predicate OnlyKept(f: Forest) {
    match f case Nil => true case Cons(n, k, r) => (k.Nil? || Keeps(n)) && OnlyKept(r)
  }

  lemma {:induction false} WithoutIfsNearest(f: Forest, parent: MenuNode?)
    requires TidyBelow(f) && OnlyKept(f)
    ensures NearestPairs(WithoutIfs(f), parent) == NearestPairs(f, parent) && Tidy(WithoutIfs(f))
  {
    match f
    case Nil =>
    case Cons(n, k, r) =>
      WithoutIfsNearest(r, parent);
      assert n.kind.IfBlock? ==> NearestPairs(k, parent) == [] && [] + [] + NearestPairs(r, parent) == NearestPairs(r, parent);
  }

  lemma SettledNearest(f: Forest, parent: MenuNode?)
    requires TidyBelow(f)
    ensures Tidy(Settled(f)) && NearestPairs(Settled(f), parent) == NearestPairs(f, parent)
  {
    FlattenedTidy(f);
    FlattenedNearest(f, parent);
    WithoutIfsNearest(Flattened(f), parent);
  }

  lemma {:induction false} FinalizedNearest(f: Forest, auto: (MenuNode, MenuNode) -> bool, parent: MenuNode?)
    requires f.Cons? && Parsed(f)
    ensures var (g, h) := (Finalized(f, auto), Nested(f, auto));
            Tidy(g.kids) && g.rest == h.rest && Parsed(g.rest) && NearestPairs(g.kids, parent) == NearestPairs(h.kids, parent)
    decreases Size(f), 0
  {
    hide NearestPairs, Settled, Tidy;
    if f.node.kind.SymbolEntry? {
      TiltedNearest(f.node, f.rest, auto, parent);
      SettledNearest(Tilted(f.node, f.rest, auto).0, parent);
    } else {
      FinalizedAllNearest(f.kids, auto, parent);
      SettledNearest(FinalizedAll(f.kids, auto), parent);
    }
  }

  lemma {:induction false} FinalizedAllNearest(f: Forest, auto: (MenuNode, MenuNode) -> bool, parent: MenuNode?)
    requires Parsed(f)
    ensures TidyBelow(FinalizedAll(f, auto))
    ensures NearestPairs(FinalizedAll(f, auto), parent) == NearestPairs(NestedAll(f, auto), parent)
    decreases Size(f), 1
  {
    if f.Cons? {
      FinalizedNearest(f, auto, if Keeps(f.node) then f.node else parent);
      FinalizedAllNearest(Finalized(f, auto).rest, auto, parent);
    }
  }

  lemma {:induction false} TiltedNearest(n: MenuNode, f: Forest, auto: (MenuNode, MenuNode) -> bool, parent: MenuNode?)
    requires Parsed(f)
    ensures var (t, u) := (Tilted(n, f, auto), NestedRun(n, f, auto));
            TidyBelow(t.0) && t.1 == u.1 && Parsed(t.1) && NearestPairs(t.0, parent) == NearestPairs(u.0, parent)
    decreases Size(f), 1
  {
    if f.Cons? && auto(n, f.node) {
      FinalizedNearest(f, auto, if Keeps(f.node) then f.node else parent);
      TiltedNearest(n, Finalized(f, auto).rest, auto, parent);
    }
  }

  // The pointers of a linked tree say what the pairs say
  lemma {:induction false} LinkedPairs(first: MenuNode?, f: Forest, parent: MenuNode?, end: MenuNode?)
    requires Linked(first, f, parent, end)
    ensures forall q <- Pairs(f, parent) :: q.0.parent == q.1
  {
    match f
    case Nil =>
    case Cons(n, k, r) =>
      LinkedPairs(n.list, k, n, null);
      LinkedPairs(n.next, r, parent, end);
  }

  lemma {:induction false} TidyLinked(first: MenuNode?, f: Forest, parent: MenuNode?, end: MenuNode?)
    requires Linked(first, f, parent, end) && Tidy(f)
    ensures forall n <- PreOrder(f) :: n.list != null ==> Keeps(n)
  {
    match f
    case Nil =>
    case Cons(n, k, r) =>
      TidyLinked(n.list, k, n, null);
      TidyLinked(n.next, r, parent, end);
  }

  // Where the nodes of flattened siblings are
  lemma FlattenedPlaces(first: MenuNode?, f: Forest, parent: MenuNode?)
    requires Linked(first, Flattened(f), parent, null)
    ensures TidyBelow(f) ==> forall q <- NearestPairs(f, parent) :: q.0.parent == q.1
    ensures TidyBelow(f) ==> forall n <- PreOrder(f) :: n.list != null ==> Keeps(n)
  {
    FlattenedKeeps(f);
    if TidyBelow(f) {
      FlattenedTidy(f);
      FlattenedNearest(f, parent);
      NearestLinked(first, Flattened(f), parent, null);
    }
  }

  lemma {:induction false} NearestLinked(first: MenuNode?, f: Forest, parent: MenuNode?, end: MenuNode?)
    requires Linked(first, f, parent, end) && TidyBelow(f) && OnlyKept(f)
    ensures forall q <- NearestPairs(f, parent) :: q.0.parent == q.1
    ensures forall n <- PreOrder(f) :: n.list != null ==> Keeps(n)
  {
    match f
    case Nil =>
    case Cons(n, k, r) =>
      TidyPairs(k, n);
      LinkedPairs(n.list, k, n, null);
      TidyLinked(n.list, k, n, null);
      NearestLinked(n.next, r, parent, end);
  }

  // What finalising has made of the nodes below the top
  lemma FinalizedPlaces(top: MenuNode, parsed: Forest, kids: Forest, auto: (MenuNode, MenuNode) -> bool)
    requires !top.kind.SymbolEntry? && Parsed(parsed) && kids == Finalized(Cons(top, parsed, Nil), auto).kids
    requires Linked(top.list, kids, top, null)
    ensures Pairs(kids, top) == NearestPairs(NestedAll(parsed, auto), top)
    ensures forall q <- Pairs(kids, top) :: q.0.parent == q.1
    ensures forall n <- PreOrder(kids) :: n.list != null ==> Keeps(n)
  {
    FinalizedNearest(Cons(top, parsed, Nil), auto, top);
    hide Finalized;
    TidyPairs(kids, top);
    LinkedPairs(top.list, kids, top, null);
    TidyLinked(top.list, kids, top, null);
  }

  predicate AllTop(f: Forest, n: MenuNode, auto: (MenuNode, MenuNode) -> bool) {
    match f case Nil => true case Cons(m, k, r) => auto(n, m) && AllTop(r, n, auto)
  }

  /** A symbol takes the nodes behind it as long as they depend on it, and no further. */
  lemma {:induction false} RunIsMaximal(n: MenuNode, f: Forest, auto: (MenuNode, MenuNode) -> bool)
    requires Parsed(f)
    ensures var (under, after) := NestedRun(n, f, auto);
            && AllTop(under, n, auto) && (after.Cons? ==> !auto(n, after.node))
            && PreOrder(f) == PreOrder(under) + PreOrder(after)
    decreases Size(f), 1
  {
    if f.Cons? && auto(n, f.node) {
      NestedKeepsOrder(f, auto);
      var g := Nested(f, auto);
      RunIsMaximal(n, g.rest, auto);
      var t := NestedRun(n, g.rest, auto);
      Regroup([g.node] + PreOrder(g.kids), PreOrder(t.0), PreOrder(t.1));
    }
  }

  lemma {:induction false} NestedKeepsOrder(f: Forest, auto: (MenuNode, MenuNode) -> bool)
    requires f.Cons? && Parsed(f)
    ensures PreOrder(Nested(f, auto)) == PreOrder(f) && Parsed(Nested(f, auto).rest)
    decreases Size(f), 0
  {
    if f.node.kind.SymbolEntry? {
      RunIsMaximal(f.node, f.rest, auto);
      RunRestParsed(f.node, f.rest, auto);
      var t := NestedRun(f.node, f.rest, auto);
      assert [f.node] + PreOrder(t.0) + PreOrder(t.1) == [f.node] + [] + (PreOrder(t.0) + PreOrder(t.1));
    } else {
      NestedAllKeepsOrder(f.kids, auto);
    }
  }

  lemma {:induction false} NestedAllKeepsOrder(f: Forest, auto: (MenuNode, MenuNode) -> bool)
    requires Parsed(f)
    ensures PreOrder(NestedAll(f, auto)) == PreOrder(f)
    decreases Size(f), 1
  {
    if f.Cons? {
      NestedKeepsOrder(f, auto);
      NestedAllKeepsOrder(Nested(f, auto).rest, auto);
    }
  }

  lemma {:induction false} RunRestParsed(n: MenuNode, f: Forest, auto: (MenuNode, MenuNode) -> bool)
    requires Parsed(f)
    ensures Parsed(NestedRun(n, f, auto).1)
    decreases Size(f), 1
  {
    if f.Cons? && auto(n, f.node) {
      NestedKeepsOrder(f, auto);
      RunRestParsed(n, Nested(f, auto).rest, auto);
    }
  }

  // ---------- which nodes a forest has ----------

  lemma {:induction false} AppendNodes(a: Forest, b: Forest)
    ensures Nodes(Append(a, b)) == Nodes(a) + Nodes(b)
    ensures Simple(Append(a, b)) <==> Simple(a) && Simple(b) && Nodes(a) !! Nodes(b)
  {
    match a case Nil => case Cons(n, k, r) => AppendNodes(r, b);
  }

  lemma {:induction false} AppendAppend(a: Forest, b: Forest, c: Forest)
    ensures Append(Append(a, b), c) == Append(a, Append(b, c))
  {
    match a case Nil => case Cons(n, k, r) => AppendAppend(r, b, c);
  }

  lemma {:induction false} AppendNil(a: Forest)
    ensures Append(a, Nil) == a
  {
    match a case Nil => case Cons(n, k, r) => AppendNil(r);
  }

  lemma {:induction false} FlattenedNodes(f: Forest)
    ensures Nodes(Flattened(f)) == Nodes(f) && (Simple(f) ==> Simple(Flattened(f)))
    decreases Size(f)
  {
    match f
    case Nil =>
    case Cons(n, k, r) =>
      if k.Cons? && Dissolves(n) {
        AppendSize(k, r);
        AppendNodes(k, r);
        FlattenedNodes(Append(k, r));
      } else {
        FlattenedNodes(r);
      }
  }

  lemma {:induction false} WithoutIfsNodes(f: Forest)
    ensures Nodes(WithoutIfs(f)) <= Nodes(f) && (Simple(f) ==> Simple(WithoutIfs(f)))
  {
    match f case Nil => case Cons(n, k, r) => WithoutIfsNodes(r);
  }

  lemma SettledNodes(f: Forest)
    ensures Nodes(Settled(f)) <= Nodes(f) && (Simple(f) ==> Simple(Settled(f)))
  {
    FlattenedNodes(f);
    WithoutIfsNodes(Flattened(f));
  }

  lemma {:induction false} FinalizedNodes(f: Forest, auto: (MenuNode, MenuNode) -> bool)
    requires f.Cons? && Simple(f)
    ensures Nodes(Finalized(f, auto)) <= Nodes(f) && Simple(Finalized(f, auto))
    decreases Size(f), 0
  {
    if f.node.kind.SymbolEntry? {
      var under := Tilted(f.node, f.rest, auto).0;
      TiltedNodes(f.node, f.rest, auto);
      SettledNodes(if under.Cons? then under else f.kids);
    } else {
      FinalizedAllNodes(f.kids, auto);
      SettledNodes(FinalizedAll(f.kids, auto));
    }
  }

  lemma {:induction false} FinalizedAllNodes(f: Forest, auto: (MenuNode, MenuNode) -> bool)
    requires Simple(f)
    ensures Nodes(FinalizedAll(f, auto)) <= Nodes(f) && Simple(FinalizedAll(f, auto))
    decreases Size(f), 1
  {
    if f.Cons? {
      FinalizedNodes(f, auto);
      FinalizedAllNodes(Finalized(f, auto).rest, auto);
    }
  }

  lemma {:induction false} TiltedNodes(n: MenuNode, f: Forest, auto: (MenuNode, MenuNode) -> bool)
    requires Simple(f)
    ensures var (under, after) := Tilted(n, f, auto);
            Nodes(under) + Nodes(after) <= Nodes(f) && Nodes(under) !! Nodes(after) && Simple(under) && Simple(after)
    decreases Size(f), 1
  {
    if f.Cons? && auto(n, f.node) {
      FinalizedNodes(f, auto);
      TiltedNodes(n, Finalized(f, auto).rest, auto);
    }
  }

  // ---------- the rewriting of the pointers ----------

  lemma {:induction false} NodesAllocated(f: Forest)
    ensures forall n <- Nodes(f) :: allocated(n)
  {
    match f case Nil => case Cons(n, k, r) => NodesAllocated(k); NodesAllocated(r);
  }

  lemma {:induction false} LinkedAppend(first: MenuNode?, a: Forest, mid: MenuNode?, b: Forest, parent: MenuNode?, end: MenuNode?)
    requires Linked(first, a, parent, mid) && Linked(mid, b, parent, end)
    ensures Linked(first, Append(a, b), parent, end)
  {
    match a case Nil => case Cons(n, k, r) => LinkedAppend(n.next, r, mid, b, parent, end);
  }

  // One more sibling, with its children, is behind the ones `done`
  lemma Extend(first: MenuNode?, done: Forest, cur: MenuNode, kids: Forest, rest: Forest, parent: MenuNode?)
    requires Linked(first, done, parent, cur) && cur.parent == parent && Linked(cur.list, kids, cur, null)
    requires Simple(done) && Simple(kids) && cur !in Nodes(done) + Nodes(kids) && Nodes(done) !! Nodes(kids)
    ensures var d := Append(done, Cons(cur, kids, Nil));
            && Linked(first, d, parent, cur.next) && Simple(d) && Nodes(d) == Nodes(done) + {cur} + Nodes(kids)
            && Append(d, rest) == Append(done, Cons(cur, kids, rest))
  {
    LinkedAppend(first, done, cur, Cons(cur, kids, Nil), parent, cur.next);
    AppendNodes(done, Cons(cur, kids, Nil));
    AppendAppend(done, Cons(cur, kids, Nil), rest);
  }

  // `last`, with its children, is the last of the siblings
  predicate EndsWith(first: MenuNode?, f: Forest, parent: MenuNode?, front: Forest, last: MenuNode, kids: Forest)
    reads Nodes(front), Nodes(kids), last
  {
    && f == Append(front, Cons(last, kids, Nil))
    && Linked(first, front, parent, last) && last.parent == parent && Linked(last.list, kids, last, null)
  }

  // Makes `parent` the parent of all the siblings, and finds the last of them
  method Adopt(first: MenuNode, ghost f: Forest, ghost from: MenuNode?, parent: MenuNode?)
    returns (last: MenuNode, ghost front: Forest, ghost kids: Forest)
    requires Linked(first, f, from, null) && Simple(f)
    modifies Nodes(f)
    ensures EndsWith(first, f, parent, front, last, kids) && last.next == null
  {
    last := first;
    ghost var todo := f;
    front := Nil;
    while true
      invariant todo.Cons? && todo.node == last && f == Append(front, todo) && Simple(f)
      invariant Linked(first, front, parent, last) && Linked(last, todo, from, null)
      decreases Size(todo)
    {
      AppendNodes(front, todo);
      kids := todo.kids;
      last.parent := parent;
      if last.next == null {
        assert todo.rest == Nil;
        return;
      }
      LinkedAppend(first, front, last, Cons(last, kids, Nil), parent, last.next);
      AppendAppend(front, Cons(last, kids, Nil), todo.rest);
      front := Append(front, Cons(last, kids, Nil));
      last := last.next;
      todo := todo.rest;
    }
  }

  // Puts the children of one node behind it
  method Dissolve(node: MenuNode, ghost k: Forest, ghost r: Forest, ghost parent: MenuNode?)
    requires k.Cons? && Linked(node, Cons(node, k, r), parent, null) && Simple(Cons(node, k, r))
    modifies {node} + Nodes(k)
    ensures Linked(node, Cons(node, Nil, Append(k, r)), parent, null)
  {
    NodesAllocated(r);
    ghost var after := node.next;
    var last, front, lastKids := Adopt(node.list, k, node, node.parent);
    assert Linked(after, r, parent, null);
    AppendNodes(front, Cons(last, lastKids, Nil));
    last.next := node.next;
    assert Linked(after, r, parent, null);
    LinkedAppend(node.list, front, last, Cons(last, lastKids, Nil), parent, after);
    node.next := node.list;
    node.list := null;
    LinkedAppend(node.next, k, after, r, parent, null);
  }

  /** Puts the children of nodes without a prompt behind them. If the same has been done to
      everything below, every node is then below the nearest node around it that has a prompt
      or is a choice, and no other node has children. */
  method Flatten(first: MenuNode, ghost f: Forest, ghost parent: MenuNode?)
    requires Linked(first, f, parent, null) && Simple(f)
    modifies Nodes(f)
    ensures Linked(first, Flattened(f), parent, null)
    ensures TidyBelow(f) ==> forall q <- NearestPairs(f, parent) :: q.0.parent == q.1
    ensures TidyBelow(f) ==> forall n <- PreOrder(f) :: n.list != null ==> Keeps(n)
  {
    var node: MenuNode? := first;
    ghost var done, todo := Nil, f;
    while node != null
      invariant Linked(first, done, parent, node) && Linked(node, todo, parent, null)
      invariant Simple(done) && Simple(todo) && Nodes(done) !! Nodes(todo) && Nodes(done) + Nodes(todo) == Nodes(f)
      invariant Append(done, Flattened(todo)) == Flattened(f)
      decreases Size(todo)
    {
      ghost var n, k, r := todo.node, todo.kids, todo.rest;
      if node.list != null && Dissolves(node) {
        NodesAllocated(done);
        Dissolve(node, k, r, parent);
        AppendSize(k, r);
        AppendNodes(k, r);
        k, r := Nil, Append(k, r);
      }
      LinkedAppend(first, done, node, Cons(n, k, Nil), parent, node.next);
      AppendNodes(done, Cons(n, k, Nil));
      AppendAppend(done, Cons(n, k, Nil), Flattened(r));
      done, todo := Append(done, Cons(n, k, Nil)), r;
      node := node.next;
    }
    AppendNil(done);
    FlattenedPlaces(first, f, parent);
  }

  // Makes `next` the sibling after `cur`
  method Relink(first: MenuNode?, ghost done: Forest, cur: MenuNode, ghost k: Forest, next: MenuNode?,
                ghost rest: Forest, ghost parent: MenuNode)
    requires Linked(first, done, parent, cur) && cur.parent == parent && Linked(cur.list, k, cur, null)
    requires Linked(next, rest, parent, null)
    requires Simple(done) && Simple(k) && Nodes(done) !! Nodes(k) && cur !in Nodes(done) + Nodes(k) + Nodes(rest)
    modifies cur`next
    ensures var d := Append(done, Cons(cur, k, Nil));
            Linked(first, d, parent, next) && Linked(next, rest, parent, null) &&
            Simple(d) && Nodes(d) == Nodes(done) + {cur} + Nodes(k)
  {
    cur.next := next;
    Extend(first, done, cur, k, Nil, parent);
  }

  /** Takes the 'if's, flattened already, out of the children of a node. */
  method RemoveIfs(node: MenuNode, ghost f: Forest)
    requires Linked(node.list, f, node, null) && Simple(f) && node !in Nodes(f)
    modifies {node} + Nodes(f)
    ensures Linked(node.list, WithoutIfs(f), node, null)
    ensures node.next == old(node.next) && node.parent == old(node.parent)
  {
    var cur, todo := SkipIfs(node.list, f, node);
    node.list := cur;
    ghost var done := Nil;
    while cur != null
      invariant Linked(node.list, done, node, cur) && Linked(cur, todo, node, null)
      invariant Simple(done) && Simple(todo) && Nodes(done) !! Nodes(todo) && Nodes(done) + Nodes(todo) <= Nodes(f)
      invariant cur != null ==> !cur.kind.IfBlock?
      invariant Append(done, WithoutIfs(todo)) == WithoutIfs(f)
      invariant node.next == old(node.next) && node.parent == old(node.parent)
      decreases Size(todo)
    {
      ghost var k := todo.kids;
      NodesAllocated(done);
      NodesAllocated(k);
      var next, rest := SkipIfs(cur.next, todo.rest, node);
      Relink(node.list, done, cur, k, next, rest, node);
      assert Append(Append(done, Cons(cur, k, Nil)), WithoutIfs(rest)) == Append(done, WithoutIfs(todo)) by {
        AppendAppend(done, Cons(cur, k, Nil), WithoutIfs(rest));
      }
      done, todo := Append(done, Cons(cur, k, Nil)), rest;
      cur := next;
    }
    AppendNil(done);
  }

  // The first sibling that is not an 'if'
  method SkipIfs(first: MenuNode?, ghost f: Forest, ghost parent: MenuNode?) returns (cur: MenuNode?, ghost rest: Forest)
    requires Linked(first, f, parent, null) && Simple(f)
    ensures Linked(cur, rest, parent, null) && Simple(rest) && Nodes(rest) <= Nodes(f) && Size(rest) <= Size(f)
    ensures cur != null ==> !cur.kind.IfBlock?
    ensures WithoutIfs(rest) == WithoutIfs(f)
  {
    cur, rest := first, f;
    while cur != null && cur.kind.IfBlock?
      invariant Linked(cur, rest, parent, null) && Simple(rest) && Nodes(rest) <= Nodes(f) && Size(rest) <= Size(f)
      invariant WithoutIfs(rest) == WithoutIfs(f)
      decreases Size(rest)
    {
      cur, rest := cur.next, rest.rest;
    }
  }

  // The final steps for the children of a node
  method Settle(node: MenuNode, ghost f: Forest)
    requires Linked(node.list, f, node, null) && Simple(f) && node !in Nodes(f)
    modifies {node} + Nodes(f)
    ensures Linked(node.list, Settled(f), node, null)
    ensures node.next == old(node.next) && node.parent == old(node.parent)
  {
    if node.list != null {
      FlattenedNodes(f);
      Flatten(node.list, f, node);
      RemoveIfs(node, Flattened(f));
    }
  }

  /** Finalises a node and everything below it. The result is the finalised tree, with all
      its pointers right. */
  method FinalizeNode(node: MenuNode, auto: (MenuNode, MenuNode) -> bool, ghost f: Forest, ghost parent: MenuNode?)
    requires Linked(node, f, parent, null) && Simple(f) && f.Cons? && Parsed(f)
    modifies Nodes(f)
    ensures Linked(node, Finalized(f, auto), parent, null)
    decreases Size(f), 1
  {
    ghost var k, r := f.kids, f.rest;
    NodesAllocated(r);
    if node.kind.SymbolEntry? {
      TiltedNodes(node, f.rest, auto);
      k, r := TiltSymbol(node, auto, f, parent);
      NodesAllocated(r);
      Settle(node, k);
    } else if node.list != null {
      FinalizeChildren(node, auto, k);
      FinalizedAllNodes(k, auto);
      Settle(node, FinalizedAll(k, auto));
    }
  }

  // Finalises the children of a node one after the other
  method FinalizeChildren(node: MenuNode, auto: (MenuNode, MenuNode) -> bool, ghost f: Forest)
    requires Linked(node.list, f, node, null) && Simple(f) && Parsed(f) && node !in Nodes(f)
    modifies Nodes(f)
    ensures Linked(node.list, FinalizedAll(f, auto), node, null)
    decreases Size(f), 2
  {
    var cur := node.list;
    ghost var done, todo := Nil, f;
    while cur != null
      invariant Linked(node.list, done, node, cur) && Linked(cur, todo, node, null)
      invariant Simple(done) && Simple(todo) && Nodes(done) !! Nodes(todo) && Nodes(done) + Nodes(todo) <= Nodes(f)
      invariant Parsed(todo) && Size(todo) <= Size(f)
      invariant Append(done, FinalizedAll(todo, auto)) == FinalizedAll(f, auto)
      decreases Size(todo)
    {
      ghost var g := Finalized(todo, auto);
      FinalizedNodes(todo, auto);
      FinalizedKeeps(todo, auto);
      NodesAllocated(done);
      FinalizeNode(cur, auto, todo, node);
      LinkedAppend(node.list, done, cur, Cons(cur, g.kids, Nil), node, cur.next);
      AppendNodes(done, Cons(cur, g.kids, Nil));
      AppendAppend(done, Cons(cur, g.kids, Nil), FinalizedAll(g.rest, auto));
      done, todo := Append(done, Cons(cur, g.kids, Nil)), g.rest;
      cur := cur.next;
    }
    AppendNil(done);
  }

  // The last of the nodes below `node` so far: `node` itself, or the one `under` ends with
  predicate Last(node: MenuNode, cur: MenuNode, under: Forest, front: Forest, kids: Forest)
    reads node, cur, Nodes(front), Nodes(kids)
  {
    if cur == node then under == Nil else EndsWith(node.next, under, node, front, cur, kids)
  }

  // Finalises the node after `cur` and puts it below `node`
  method TiltNext(node: MenuNode, cur: MenuNode, auto: (MenuNode, MenuNode) -> bool, ghost under: Forest,
                  ghost front: Forest, ghost kids: Forest, ghost after: Forest, ghost parent: MenuNode?)
    returns (next: MenuNode)
    requires Last(node, cur, under, front, kids) && Linked(cur.next, after, parent, null)
    requires after.Cons? && Parsed(after) && Simple(after) && Simple(under) && Nodes(under) !! Nodes(after)
    requires node !in Nodes(under) + Nodes(after)
    modifies Nodes(after)
    ensures next == after.node && next != node
    ensures var g := Finalized(after, auto);
            && EndsWith(node.next, Append(under, Cons(next, g.kids, Nil)), node, under, next, g.kids)
            && Linked(next.next, g.rest, parent, null)
    decreases Size(after), 2
  {
    hide Finalized, Append, Parsed, Size;
    ghost var g := Finalized(after, auto);
    FinalizedNodes(after, auto);
    NodesAllocated(under);
    NodesAllocated(front);
    NodesAllocated(kids);
    if cur != node {
      AppendNodes(front, Cons(cur, kids, Nil));
      LinkedAppend(node.next, front, cur, Cons(cur, kids, Nil), node, cur.next);
    }
    assert Linked(node.next, under, node, after.node);
    FinalizeNode(cur.next, auto, after, parent);
    next := cur.next;
    assert Linked(node.next, under, node, next);
    next.parent := node;
  }

  // Puts the nodes that depend on a symbol, each finalised first, below the symbol
  method TiltSymbol(node: MenuNode, auto: (MenuNode, MenuNode) -> bool, ghost f: Forest, ghost parent: MenuNode?)
    returns (ghost under: Forest, ghost after: Forest)
    requires Linked(node, f, parent, null) && Simple(f) && f.Cons? && Parsed(f) && node.kind.SymbolEntry?
    modifies Nodes(f)
    ensures (under, after) == Tilted(node, f.rest, auto)
    ensures Linked(node, Cons(node, under, after), parent, null)
    decreases Size(f), 0
  {
    var cur: MenuNode := node;
    under, after := Nil, f.rest;
    ghost var front, kids := Nil, Nil;
    while cur.next != null && auto(node, cur.next)
      invariant Linked(cur.next, after, parent, null) && Last(node, cur, under, front, kids)
      invariant node.list == null && node.parent == parent
      invariant Simple(after) && Simple(under) && Nodes(under) !! Nodes(after)
      invariant node !in Nodes(under) + Nodes(after) && Nodes(under) + Nodes(after) <= Nodes(f) && Parsed(after)
      invariant var t := Tilted(node, after, auto); Tilted(node, f.rest, auto) == (Append(under, t.0), t.1)
      invariant Size(after) < Size(f)
      decreases Size(after)
    {
      ghost var g := Finalized(after, auto);
      FinalizedNodes(after, auto);
      FinalizedKeeps(after, auto);
      cur := TiltNext(node, cur, auto, under, front, kids, after, parent);
      TiltedStep(node, under, after, auto);
      front, kids := under, g.kids;
      AppendNodes(front, Cons(cur, kids, Nil));
      under, after := Append(front, Cons(cur, kids, Nil)), g.rest;
    }
    AppendNil(under);
    if cur != node {
      AppendNodes(front, Cons(cur, kids, Nil));
      LiftSiblings(node, cur, under, front, kids, after, parent);
    }
  }

  lemma TiltedStep(n: MenuNode, under: Forest, after: Forest, auto: (MenuNode, MenuNode) -> bool)
    requires after.Cons? && auto(n, after.node)
    ensures var g := Finalized(after, auto);
            var t := Tilted(n, after, auto);
            var t2 := Tilted(n, g.rest, auto);
            && Append(under, t.0) == Append(Append(under, Cons(after.node, g.kids, Nil)), t2.0)
            && t.1 == t2.1
  {
    var g := Finalized(after, auto);
    AppendAppend(under, Cons(g.node, g.kids, Nil), Tilted(n, g.rest, auto).0);
  }

  // The siblings after `node` up to `cur` become its children
  method LiftSiblings(node: MenuNode, cur: MenuNode, ghost under: Forest, ghost front: Forest, ghost kids: Forest,
                      ghost after: Forest, ghost parent: MenuNode?)
    requires cur != node && EndsWith(node.next, under, node, front, cur, kids) && Linked(cur.next, after, parent, null)
    requires Simple(Cons(node, under, after)) && node.parent == parent
    modifies node, cur
    ensures Linked(node, Cons(node, under, after), parent, null)
  {
    AppendNodes(front, Cons(cur, kids, Nil));
    node.list := node.next;
    node.next := cur.next;
    cur.next := null;
    LinkedAppend(node.list, front, cur, Cons(cur, kids, Nil), node, null);
  }

  lemma {:induction false} NoIfsPreOrder(f: Forest)
    requires NoIfs(f)
    ensures NonIfs(PreOrder(f)) == PreOrder(f)
  {
    match f
    case Nil =>
    case Cons(n, k, r) =>
      NoIfsPreOrder(k);
      NoIfsPreOrder(r);
      NonIfsCons(n, k, r);
  }

  /** Finalises the whole tree: afterwards its nodes, in order, are the nodes that were
      parsed, without the 'if's; each is below the nearest node around it, by parsing or by
      dependency, that has a prompt or is a choice; and no other nodes have children. */
  method FinalizeTree(top: MenuNode, auto: (MenuNode, MenuNode) -> bool, ghost parsed: Forest) returns (ghost kids: Forest)
    requires top.kind.MenuEntry? && top !in Nodes(parsed) && Simple(parsed) && Parsed(parsed)
    requires Linked(top, Cons(top, parsed, Nil), null, null)
    modifies {top} + Nodes(parsed)
    ensures Linked(top, Cons(top, kids, Nil), null, null) && Simple(Cons(top, kids, Nil))
    ensures PreOrder(kids) == NonIfs(PreOrder(parsed))
    ensures forall q <- NearestPairs(NestedAll(parsed, auto), top) :: q.0.parent == q.1
    ensures Pairs(kids, top) == NearestPairs(NestedAll(parsed, auto), top)
    ensures forall n <- PreOrder(kids) :: n.list != null ==> Keeps(n)
  {
    ghost var f := Cons(top, parsed, Nil);
    FinalizeNode(top, auto, f, null);
    assert Finalized(f, auto).rest == Nil;
    kids := Finalized(f, auto).kids;
    assert Linked(top.list, kids, top, null);
    hide Finalized, PreOrder, NonIfs, Linked;
    FinalizedPlaces(top, parsed, kids, auto);
    FinalizedNodes(f, auto);
    FinalizedKeeps(f, auto);
    NoIfsPreOrder(kids);
    NonIfsCons(top, parsed, Nil);
    NonIfsCons(top, kids, Nil);
    assert NonIfs(PreOrder(Nil)) == [];
    Between(top, NonIfs(PreOrder(parsed)), NonIfs(PreOrder(kids)));
  }

  lemma Between(top: MenuNode, a: seq<MenuNode>, b: seq<MenuNode>)
    ensures [top] + a + [] == [top] + b + [] ==> a == b
  {
    assert ([top] + a + [])[1..] == a && ([top] + b + [])[1..] == b;
  }

  // ---------- the walk ----------

  // The first node of each symbol, and all other nodes
  function FirstNodes(s: seq<MenuNode>): seq<MenuNode> {
    if s == [] then []
    else
      var (before, n) := (s[..|s| - 1], s[|s| - 1]);
      FirstNodes(before) + if n.kind.SymbolEntry? && n.kind.sym in Symbols(before) then [] else [n]
  }

  function Symbols(s: seq<MenuNode>): set<nat> { set n | n in s && n.kind.SymbolEntry? :: n.kind.sym }

  // What is left to walk through after the subtrees of the nodes on the path
  function Pending(above: seq<Forest>): seq<MenuNode> {
    if above == [] then []
    else (if above[|above| - 1].Cons? then PreOrder(above[|above| - 1].rest) else []) + Pending(above[..|above| - 1])
  }

  // `here` hangs below the nodes of `above`
  ghost predicate OnPath(above: seq<Forest>, here: Forest)
    reads *
    decreases |above|
  {
    && here.Cons? && (above != [] ==> above[|above| - 1].Cons?)
    && Linked(here.node, here, if above == [] then null else above[|above| - 1].node, null)
    && if above == [] then here.rest == Nil else OnPath(above[..|above| - 1], above[|above| - 1])
  }

  // The nodes the walk still has to come to, from `here` on
  function Remaining(above: seq<Forest>, here: Forest): seq<MenuNode>
    requires here.Cons?
  {
    PreOrder(here.kids) + (PreOrder(here.rest) + Pending(above))
  }

  lemma Below(above: seq<Forest>, here: Forest)
    requires OnPath(above, here)
    ensures here.node.list != null ==>
              && OnPath(above + [here], here.kids) && here.kids.node == here.node.list
              && Remaining(above, here) == [here.node.list] + Remaining(above + [here], here.kids)
    ensures here.node.list == null ==> here.kids == Nil && Remaining(above, here) == PreOrder(here.rest) + Pending(above)
  {
    assert here == Cons(here.node, here.kids, here.rest);
    assert [] + (PreOrder(here.rest) + Pending(above)) == PreOrder(here.rest) + Pending(above);
    assert Linked(here.node.list, here.kids, here.node, null);
    assert (above + [here])[..|above|] == above;
  }

  lemma Behind(above: seq<Forest>, here: Forest)
    requires OnPath(above, here)
    ensures here.node.next != null ==>
              && OnPath(above, here.rest) && here.rest.node == here.node.next
              && PreOrder(here.rest) + Pending(above) == [here.node.next] + Remaining(above, here.rest)
    ensures here.node.next == null ==> PreOrder(here.rest) + Pending(above) == Pending(above)
    ensures here.node.parent == null <==> above == []
  {
    BehindLinked(above, here);
    if here.rest.Cons? {
      FirstOf(here.rest, Pending(above));
    }
    hide Linked, OnPath, Nodes, Pending;
  }

  lemma FirstOf(f: Forest, after: seq<MenuNode>)
    requires f.Cons?
    ensures PreOrder(f) + after == [f.node] + (PreOrder(f.kids) + (PreOrder(f.rest) + after))
  {
  }

  lemma BehindLinked(above: seq<Forest>, here: Forest)
    requires OnPath(above, here)
    ensures here.node.next != null ==> OnPath(above, here.rest) && here.rest.node == here.node.next
    ensures here.node.next == null ==> here.rest == Nil
    ensures here.node.parent == null <==> above == []
  {
    hide PreOrder, Pending;
    assert here == Cons(here.node, here.kids, here.rest);
    assert Linked(here.node.next, here.rest, if above == [] then null else above[|above| - 1].node, null);
  }

  lemma Above(above: seq<Forest>, here: Forest)
    requires OnPath(above, here) && above != []
    ensures here.node.parent == above[|above| - 1].node && OnPath(above[..|above| - 1], above[|above| - 1])
    ensures Pending(above) == PreOrder(above[|above| - 1].rest) + Pending(above[..|above| - 1])
  {
  }

  // What the walk yields out of the nodes it comes to
  function Yielded(uniqueSyms: bool, s: seq<MenuNode>): seq<MenuNode> { if uniqueSyms then FirstNodes(s) else s }

  lemma YieldedNext(uniqueSyms: bool, s: seq<MenuNode>, n: MenuNode)
    ensures Yielded(uniqueSyms, s + [n]) ==
            Yielded(uniqueSyms, s) + if uniqueSyms && n.kind.SymbolEntry? && n.kind.sym in Symbols(s) then [] else [n]
    ensures Symbols(s + [n]) == Symbols(s) + if n.kind.SymbolEntry? then {n.kind.sym} else {}
  {
    assert (s + [n])[..|s|] == s;
    assert forall x :: x in s + [n] <==> x in s || x == n;
  }

  // Jumps to the next node: a child, a sibling, or the sibling of an ancestor
  method NextNode(current: MenuNode, ghost path: seq<Forest>, ghost at: Forest)
    returns (node: MenuNode?, ghost above: seq<Forest>, ghost here: Forest)
    requires OnPath(path, at) && at.node == current
    ensures node == null ==> Remaining(path, at) == []
    ensures node != null ==>
              OnPath(above, here) && here.node == node && Remaining(path, at) == [node] + Remaining(above, here)
  {
    hide Linked, PreOrder, Nodes;
    above, here := path, at;
    Below(above, here);
    Behind(above, here);
    if current.list != null {
      return current.list, path + [at], at.kids;
    }
    if current.next != null {
      return current.next, path, at.rest;
    }
    var last: MenuNode := current;
    while last.parent != null
      invariant OnPath(above, here) && here.node == last && last.next == null
      invariant Pending(above) == Remaining(path, at)
      decreases |above|
    {
      Behind(above, here);
      Above(above, here);
      here, above := above[|above| - 1], above[..|above| - 1];
      last := last.parent;
      Behind(above, here);
      if last.next != null {
        return last.next, above, here.rest;
      }
    }
    Behind(above, here);
    node := null;
  }

  lemma WalkOn(s: seq<MenuNode>, n: MenuNode, left: seq<MenuNode>)
    ensures s + ([n] + left) == s + [n] + left && |[n] + left| == 1 + |left|
  {
  }

  lemma Starting(top: MenuNode, kids: Forest)
    requires Linked(top, Cons(top, kids, Nil), null, null)
    ensures OnPath([], Cons(top, kids, Nil)) && Remaining([], Cons(top, kids, Nil)) == PreOrder(kids)
    ensures (forall u :: Yielded(u, []) == []) && Symbols([]) == {}
  {
  }

  /** Walks the tree below `top` through the pointers alone. */
  method NodeIter(top: MenuNode, uniqueSyms: bool, ghost kids: Forest) returns (out: seq<MenuNode>)
    requires Linked(top, Cons(top, kids, Nil), null, null)
    ensures out == Yielded(uniqueSyms, PreOrder(kids))
  {
    var node := top;
    var seen: set<nat> := {};
    ghost var above: seq<Forest>, here, walked: seq<MenuNode> := [], Cons(top, kids, Nil), [];
    out := [];
    Starting(top, kids);
    hide *;
    while true
      invariant OnPath(above, here) && here.node == node
      invariant walked + Remaining(above, here) == PreOrder(kids)
      invariant uniqueSyms ==> seen == Symbols(walked)
      invariant out == Yielded(uniqueSyms, walked)
      decreases |Remaining(above, here)|
    {
      var next: MenuNode?;
      ghost var path, at := above, here;
      next, above, here := NextNode(node, above, here);
      if next == null {
        assert walked + Remaining(path, at) == walked;
        return;
      }
      node := next;
      YieldedNext(uniqueSyms, walked, node);
      WalkOn(walked, node, Remaining(above, here));
      walked := walked + [node];
      if uniqueSyms && node.kind.SymbolEntry? {
        if node.kind.sym in seen {
          continue;
        }
        seen := seen + {node.kind.sym};
      }
      out := out + [node];
    }
  }

  // The walk comes to every node of the tree, and to none twice
  lemma {:induction false} PreOrderOnce(f: Forest)
    requires Simple(f)
    ensures NoDup(PreOrder(f)) && Members(PreOrder(f)) == Nodes(f)
  {
    match f
    case Nil =>
    case Cons(n, k, r) =>
      PreOrderOnce(k);
      PreOrderOnce(r);
      var (a, b) := (PreOrder(k), PreOrder(r));
      assert PreOrder(f) == [n] + a + b && Nodes(f) == {n} + Nodes(k) + Nodes(r);
      assert Members([n]) == {n} && NoDup([n]);
      hide *;
      NoDupConcat([n], a);
      NoDupConcat([n] + a, b);
  }

  // With unique symbols every symbol of the tree is yielded exactly once
  lemma {:induction false} FirstNodesOnce(s: seq<MenuNode>)
    ensures Symbols(FirstNodes(s)) == Symbols(s)
    ensures forall i, j | 0 <= i < j < |FirstNodes(s)| ::
              FirstNodes(s)[i].kind.SymbolEntry? && FirstNodes(s)[j].kind.SymbolEntry? ==>
                FirstNodes(s)[i].kind.sym != FirstNodes(s)[j].kind.sym
    ensures forall n <- s :: !n.kind.SymbolEntry? ==> n in FirstNodes(s)
  {
    if s != [] {
      var (before, n) := (s[..|s| - 1], s[|s| - 1]);
      FirstNodesOnce(before);
      assert s == before + [n];
      YieldedNext(true, before, n);
      var f := FirstNodes(before);
      assert forall i | 0 <= i < |f| && f[i].kind.SymbolEntry? :: f[i].kind.sym in Symbols(f);
    }
  }

  /** It is yielded where it occurs first, and all nodes come in the order of the tree. */
  lemma {:induction false} FirstNodesInOrder(s: seq<MenuNode>, i: nat)
    requires NoDup(s) && i < |s|
    ensures s[i] in FirstNodes(s) <==>
            !s[i].kind.SymbolEntry? || forall j | 0 <= j < i :: s[j].kind.SymbolEntry? ==> s[j].kind.sym != s[i].kind.sym
    ensures FirstNodes(s[..i]) <= FirstNodes(s) && forall n <- FirstNodes(s[..i]) :: n in s[..i]
    decreases |s|
  {
    var (before, n) := (s[..|s| - 1], s[|s| - 1]);
    FirstNodesAmong(before);
    FirstNodesAmong(s[..i]);
    if i < |before| {
      FirstNodesInOrder(before, i);
      assert before[..i] == s[..i] && before[i] == s[i];
      assert n != s[i];
    } else {
      assert s[..i] == before;
      assert s[i] !in before;
    }
  }

  lemma {:induction false} FirstNodesAmong(s: seq<MenuNode>)
    ensures forall n <- FirstNodes(s) :: n in s
  {
    if s != [] {
      FirstNodesAmong(s[..|s| - 1]);
    }
  }
}
