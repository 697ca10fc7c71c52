/** The layout of configuration files, said of the flat list of what a file can hold: titles,
    entries and end comments, in the order of the menus. */
module FileLayout {
  import opened Expressions
  import opened Wrappers
  import opened Values
  import opened Evaluation
  import opened ConfigText
  import opened Engine
  import opened Saving
  import opened ChoiceModes
  import opened ValueLaws

  // ---------- the full configuration ----------

  datatype Piece = Title(title: string) | EntryOf(s: nat) | EndOf(title: string)

  // What the menus hold, a shown menu being closed if there is anything in it
  function Outline(k: Kconf, env: Env, ns: seq<Node>): seq<Piece>
    decreases ns, 1
  {
    if ns == [] then [] else OutlineOf(k, env, ns[0]) + Outline(k, env, ns[1..])
  }

  function OutlineOf(k: Kconf, env: Env, n: Node): seq<Piece>
    decreases n, 0
  {
    Opening(k, env, n.item) + Outline(k, env, n.children) + Closing(k, env, n)
  }

  function Opening(k: Kconf, env: Env, item: NodeItem): seq<Piece> {
    match item
    case SymNode(s) => [EntryOf(s)]
    case MenuNode(title, dep, visibility) =>
      if Ev(k, env, dep) == 0 || Ev(k, env, visibility) == 0 then [] else [Title(title)]
    case CommentNode(title, dep) => if Ev(k, env, dep) == 0 then [] else [Title(title)]
    case OtherNode => []
  }

  function Closing(k: Kconf, env: Env, n: Node): seq<Piece> {
    if n.item.MenuNode? && Ev(k, env, n.item.dep) != 0 && Ev(k, env, n.item.visibility) != 0 && n.children != []
    then [EndOf(n.item.title)] else []
  }

  // Whether a further entry of `s` is one that is printed: the first, if the symbol has one
  predicate Printed(k: Kconf, u: User, env: Env, before: seq<Piece>, s: nat) {
    EntryOf(s) !in before && ConfigString(k, u, env, s) != ""
  }

  // The last piece printed is an end comment
  predicate BehindEnd(k: Kconf, u: User, env: Env, ps: seq<Piece>) {
    ps != [] &&
    var (before, last) := (ps[..|ps| - 1], ps[|ps| - 1]);
    match last
    case EndOf(_) => true
    case Title(_) => false
    case EntryOf(s) => !Printed(k, u, env, before, s) && BehindEnd(k, u, env, before)
  }

  // A piece as it is written behind the pieces `before`
  function PieceText(k: Kconf, u: User, env: Env, before: seq<Piece>, p: Piece): string {
    match p
    case Title(title) => "\n#\n# " + title + "\n#\n"
    case EndOf(title) => "# end of " + title + "\n"
    case EntryOf(s) =>
      if !Printed(k, u, env, before, s) then ""
      else (if BehindEnd(k, u, env, before) then "\n" else "") + ConfigString(k, u, env, s)
  }

  function Layout(k: Kconf, u: User, env: Env, ps: seq<Piece>): string {
    if ps == [] then ""
    else Layout(k, u, env, ps[..|ps| - 1]) + PieceText(k, u, env, ps[..|ps| - 1], ps[|ps| - 1])
  }

  // The writer has come through the pieces `ps`
  ghost predicate At(k: Kconf, u: User, env: Env, ps: seq<Piece>, p: Progress) {
    (forall s :: s in p.done <==> EntryOf(s) in ps) && (p.afterEnd <==> BehindEnd(k, u, env, ps))
  }

  lemma OneMorePiece(k: Kconf, u: User, env: Env, ps: seq<Piece>, p: Piece)
    ensures Layout(k, u, env, ps + [p]) == Layout(k, u, env, ps) + PieceText(k, u, env, ps, p)
    ensures BehindEnd(k, u, env, ps + [p]) <==>
            p.EndOf? || (p.EntryOf? && !Printed(k, u, env, ps, p.s) && BehindEnd(k, u, env, ps))
    ensures forall q :: q in ps + [p] <==> q in ps || q == p
  {
    assert (ps + [p])[..|ps|] == ps;
  }

  lemma EnterPiece(k: Kconf, u: User, env: Env, ps: seq<Piece>, item: NodeItem, p: Progress)
    requires At(k, u, env, ps, p)
    ensures At(k, u, env, ps + Opening(k, env, item), EnterProgress(k, u, env, item, p))
    ensures Layout(k, u, env, ps + Opening(k, env, item)) == Layout(k, u, env, ps) + EnterText(k, u, env, item, p)
  {
    hide ConfigString, Ev, Layout;
    var qs := Opening(k, env, item);
    if qs == [] {
      assert ps + qs == ps;
    } else {
      OneMorePiece(k, u, env, ps, qs[0]);
    }
  }

  lemma LeavePiece(k: Kconf, u: User, env: Env, ps: seq<Piece>, n: Node, p: Progress)
    requires At(k, u, env, ps, p)
    ensures At(k, u, env, ps + Closing(k, env, n), LeaveProgress(k, env, n, p))
    ensures Layout(k, u, env, ps + Closing(k, env, n)) == Layout(k, u, env, ps) + LeaveText(k, env, n)
  {
    hide ConfigString, Ev, Layout;
    var qs := Closing(k, env, n);
    if qs == [] {
      assert ps + qs == ps;
    } else {
      OneMorePiece(k, u, env, ps, qs[0]);
    }
  }

  lemma {:induction false} NodeLaidOut(k: Kconf, u: User, env: Env, ps: seq<Piece>, n: Node, p: Progress)
    requires At(k, u, env, ps, p)
    ensures At(k, u, env, ps + OutlineOf(k, env, n), NodeProgress(k, u, env, n, p))
    ensures Layout(k, u, env, ps + OutlineOf(k, env, n)) == Layout(k, u, env, ps) + NodeText(k, u, env, n, p)
    decreases n, 0
  {
    hide At, Layout, Opening, Closing, EnterText, EnterProgress, LeaveText, LeaveProgress, Outline, ForestText, ForestProgress;
    var p1 := EnterProgress(k, u, env, n.item, p);
    var (a, b, c) := (Opening(k, env, n.item), Outline(k, env, n.children), Closing(k, env, n));
    EnterPiece(k, u, env, ps, n.item, p);
    ForestLaidOut(k, u, env, ps + a, n.children, p1);
    LeavePiece(k, u, env, ps + a + b, n, ForestProgress(k, u, env, n.children, p1));
    assert ps + (a + b + c) == ps + a + b + c;
  }

  lemma {:induction false} ForestLaidOut(k: Kconf, u: User, env: Env, ps: seq<Piece>, ns: seq<Node>, p: Progress)
    requires At(k, u, env, ps, p)
    ensures At(k, u, env, ps + Outline(k, env, ns), ForestProgress(k, u, env, ns, p))
    ensures Layout(k, u, env, ps + Outline(k, env, ns)) == Layout(k, u, env, ps) + ForestText(k, u, env, ns, p)
    decreases ns, 1
  {
    hide At, Layout, NodeText, NodeProgress, OutlineOf;
    if ns == [] {
      assert ps + [] == ps;
    } else {
      NodeLaidOut(k, u, env, ps, ns[0], p);
      ForestLaidOut(k, u, env, ps + OutlineOf(k, env, ns[0]), ns[1..], NodeProgress(k, u, env, ns[0], p));
      assert ps + (OutlineOf(k, env, ns[0]) + Outline(k, env, ns[1..])) ==
             ps + OutlineOf(k, env, ns[0]) + Outline(k, env, ns[1..]);
    }
  }

  /** A full configuration is its header and the outline of the menus: titles of shown menus
      and comments, each entry where its symbol comes first, with a blank line where an end
      comment is the last thing before it, and end comments. */
  lemma FullLayout(k: Kconf, u: User, env: Env, header: string, ns: seq<Node>)
    ensures FullText(k, u, env, header, ns) == header + Layout(k, u, env, Outline(k, env, ns))
  {
    ForestLaidOut(k, u, env, [], ns, Progress({}, false));
    assert [] + Outline(k, env, ns) == Outline(k, env, ns);
    assert "" + ForestText(k, u, env, ns, Progress({}, false)) == ForestText(k, u, env, ns, Progress({}, false));
  }

  // ---------- the symbols of choices in a minimal configuration ----------

  function WithoutSelection(u: User, c: nat): User { u.(selections := u.selections - {c}) }

  // What a choice selects without the user's selection
  lemma SelectsWithout(k: Kconf, rk: Cell -> nat, u: User, c: nat)
    requires WellFormed(k, rk) && UserOk(k, u) && c < |k.choices| && Mode(k, rk, u, c) == 2
    ensures SelAt(Solution(k, rk, WithoutSelection(u, c)), c) == SelectionFromDefaults(k, Solution(k, rk, u), c)
  {
    var v := WithoutSelection(u, c);
    assert UserOk(k, v) && MayOk(k, rk, SelOf(c));
    hide UserOk, May, Value, WellFormed, SelectionFromDefaults;
    forall d | d in May(k, SelOf(c))
      ensures Value(k, rk, v, d) == Value(k, rk, u, d)
    {
      forall env: Env, x: Cell | HasCell(k, x) && rk(x) < rk(SelOf(c))
        ensures Step(k, u, env, x) == Step(k, v, env, x)
      {
        StepWithout(k, u, c, env, x);
      }
      SameBelow(k, rk, u, v, rk(SelOf(c)), d);
    }
    StepOverSame(k, rk, u, v, SelOf(c));
  }

  lemma StepWithout(k: Kconf, u: User, c: nat, env: Env, x: Cell)
    requires x != SelOf(c)
    ensures Step(k, u, env, x) == Step(k, WithoutSelection(u, c), env, x)
  {
    hide SymVis, ChoiceVis, DefaultStr, DefaultTri, ActiveRange, Ev, SelectionFromDefaults;
    hide SymAssignable, ChoiceAssignable, Implied, Promoted, DefaultNumber;
  }

  /** A minimal configuration has an entry for a bool symbol of a choice that is not optional
      exactly if the symbol is y and would not be selected but for the user. */
  lemma MinChoiceEntry(k: Kconf, rk: Cell -> nat, u: User, c: nat, s: nat)
    requires WellFormed(k, rk) && UserOk(k, u) && ProperChoice(k, c) && s in k.ChoiceAt(c).syms
    requires k.SymAt(s).orig == Bool && !k.ChoiceAt(c).optional
    ensures MinEntry(k, u, Solution(k, rk, u), s) ==
            if TriVal(k, rk, u, s) == 2 && SelAt(Solution(k, rk, WithoutSelection(u, c)), c) != Some(s)
            then PREFIX + k.SymAt(s).name + "=y\n" else ""
  {
    var env := Solution(k, rk, u);
    assert ChoiceOk(k, c) && k.SymAt(s).defined;
    MemberEquations(k, rk, u, c, s);
    MemberVisibility(k, rk, u, c, s);
    MemberVisible(k, rk, u, c, s);
    ValueIsStep(k, rk, u, StrOf(s));
    assert TriVal(k, rk, u, s) == 0 || TriVal(k, rk, u, s) == 2;
    if TriVal(k, rk, u, s) == 2 {
      SelectsWithout(k, rk, u, c);
    }
    BoolMemberEntry(k, u, env, c, s);
    hide Solution, WellFormed, UserOk, ProperChoice, MinEntry, SelectionFromDefaults, MaxOf, Ev;
  }

  lemma BoolMemberEntry(k: Kconf, u: User, env: Env, c: nat, s: nat)
    requires k.SymAt(s).choice == Some(c) && k.SymAt(s).orig == Bool && k.SymAt(s).defined && k.SymAt(s).fixed.None?
    requires !k.ChoiceAt(c).optional
    requires StrAt(env, s) == TriStr(TriAt(env, TriOf(s))) && TriAt(env, TriOf(s)) != 1
    requires TriAt(env, TriOf(s)) == 2 ==> TriAt(env, Vis(Sym(s))) != 0
    ensures MinEntry(k, u, env, s) ==
            if TriAt(env, TriOf(s)) == 2 && SelectionFromDefaults(k, env, c) != Some(s)
            then PREFIX + k.SymAt(s).name + "=y\n" else ""
  {
    hide SelectionFromDefaults, Ev, DefaultTri, Implied;
    assert TriStr(0) != TriStr(2) by { assert TriStr(0)[0] != TriStr(2)[0]; }
    assert PREFIX + k.SymAt(s).name + "=" + "y" + "\n" == PREFIX + k.SymAt(s).name + "=y\n";
  }
}
