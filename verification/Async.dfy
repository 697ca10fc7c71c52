/** The callback runtime: channels with pools of subscriptions, and futures that notify
    through a channel. Memory is a map from addresses, so that a dangling pointer would be
    one that names no entry. */
module Async {

  import opened Sequences
  import opened Wrappers

  type Addr = nat

  // ---------- memory ----------

  // An entry of a subscription list; its address also stands for its handler
  datatype Item = Item(pinned: bool, driver: Option<Addr>) {
    predicate Live() { pinned || driver.Some? }
  }

  datatype Pool = Pool(lock: bool, list: seq<Addr>)

  datatype Reference = Reference(pool: Addr, item: Addr)

  datatype Outcome = Value(v: int) | Error(e: int) | Cancelled

  datatype Future = Future(channel: Option<Addr>, outcome: Option<Outcome>)

  /** What has happened. An entry is killed when its subscription is cancelled, or dropped
      while the entry is not pinned; a dispatch visits an entry and calls its handler or not;
      who subscribes to a settled future has the handler run at once; and channels are
      destroyed. */
  datatype Event =
    | Subscribed(pool: Addr, item: Addr)
    | Killed(item: Addr)
    | Visited(dispatch: Addr, item: Addr, called: bool)
    | RanAtOnce(future: Addr)
    | Destroyed(pool: Addr)

  /** Pools by address, the list entries in memory, the subscriptions that exist with their
      references, and futures. `private` are the channels only their future can reach, `next`
      is an address never used so far. */
  datatype State = State(
    pools: map<Addr, Pool>, items: map<Addr, Item>, subs: map<Addr, Option<Reference>>,
    futures: map<Addr, Future>, private: set<Addr>, next: Addr, log: seq<Event>)

  // ---------- what a log says ----------

  // The entries a dispatch has visited, in order, and whether it called them
  function Visits(log: seq<Event>, d: Addr): seq<(Addr, bool)> {
    if log == [] then []
    else
      Visits(log[..|log| - 1], d) +
      match log[|log| - 1] case Visited(d1, x, c) => (if d1 == d then [(x, c)] else []) case _ => []
  }

  // The entries added to a pool, in order
  function Additions(log: seq<Event>, p: Addr): seq<Addr> {
    if log == [] then []
    else
      Additions(log[..|log| - 1], p) +
      match log[|log| - 1] case Subscribed(q, x) => (if q == p then [x] else []) case _ => []
  }

  predicate Visits1(e: Event, x: Addr) { e.Visited? && e.item == x }
  predicate Unvisited(log: seq<Event>, x: Addr) { forall e <- log :: !Visits1(e, x) }

  lemma {:induction false} VisitsConcat(a: seq<Event>, b: seq<Event>, d: Addr)
    ensures Visits(a + b, d) == Visits(a, d) + Visits(b, d)
  {
    if b == [] {
      assert a + b == a;
    } else {
      assert (a + b)[..|a + b| - 1] == a + b[..|b| - 1];
      VisitsConcat(a, b[..|b| - 1], d);
    }
  }

  lemma {:induction false} AdditionsConcat(a: seq<Event>, b: seq<Event>, p: Addr)
    ensures Additions(a + b, p) == Additions(a, p) + Additions(b, p)
  {
    if b == [] {
      assert a + b == a;
    } else {
      assert (a + b)[..|a + b| - 1] == a + b[..|b| - 1];
      AdditionsConcat(a, b[..|b| - 1], p);
    }
  }

  // ---------- the invariant ----------

  // Every list names entries in memory, each once, and no two lists share an entry
  predicate PoolOk(st: State, p: Addr)
    requires p in st.pools
  {
    NoDup(st.pools[p].list) && forall x <- st.pools[p].list :: x in st.items && Subscribed(p, x) in st.log
  }

  // An entry with a driver and that subscription point at each other
  predicate DriverOk(st: State, p: Addr, x: Addr)
    requires x in st.items
  {
    st.items[x].driver.Some? ==>
      st.items[x].driver.value in st.subs && st.subs[st.items[x].driver.value] == Some(Reference(p, x))
  }

  predicate ReferenceOk(st: State, s: Addr)
    requires s in st.subs
  {
    st.subs[s].Some? ==>
      var r := st.subs[s].value;
      r.pool in st.pools && r.item in st.pools[r.pool].list && r.item in st.items && st.items[r.item].driver == Some(s)
  }

  predicate Linked(st: State) {
    && (forall p <- st.pools :: PoolOk(st, p))
    && (forall p <- st.pools, x <- st.pools[p].list :: DriverOk(st, p, x))
    && (forall s <- st.subs :: ReferenceOk(st, s))
  }

  predicate EventBounded(e: Event, next: Addr) {
    match e
    case Subscribed(p, x) => p < next && x < next
    case Killed(x) => x < next
    case Visited(d, x, _) => d < next && x < next
    case RanAtOnce(f) => f < next
    case Destroyed(p) => p < next
  }

  predicate Bounded(st: State) {
    && (forall a <- st.pools :: a < st.next) && (forall a <- st.items :: a < st.next)
    && (forall a <- st.subs :: a < st.next) && (forall a <- st.futures :: a < st.next)
    && (forall a <- st.private :: a < st.next) && (forall e <- st.log :: EventBounded(e, st.next))
  }

  // An entry in memory is alive exactly until it is killed
  predicate LivesOk(st: State) { forall x <- st.items :: st.items[x].Live() <==> Killed(x) !in st.log }

  // No entry is lost: one that is in memory is in the list it was put in; and what is destroyed is gone
  predicate Home(st: State, e: Event) {
    match e
    case Subscribed(p, x) => x in st.items ==> p in st.pools && x in st.pools[p].list
    case Destroyed(p) => p !in st.pools
    case _ => true
  }

  predicate Homes(st: State) { forall e <- st.log :: Home(st, e) }

  // Visited entries were called exactly when they had not been killed before
  predicate CallsOk(log: seq<Event>) {
    forall j | 0 <= j < |log| :: log[j].Visited? ==> (log[j].called <==> Killed(log[j].item) !in log[..j])
  }

  // An entry is in one pool for good
  predicate OnePool(log: seq<Event>) {
    forall e, f | e in log && f in log && e.Subscribed? && f.Subscribed? && e.item == f.item :: e.pool == f.pool
  }

  // The entries of private channels are visited at most once
  predicate OnceOk(st: State) {
    forall i, j | 0 <= i < j < |st.log| && st.log[i].Visited? && Visits1(st.log[j], st.log[i].item) ::
      forall c <- st.private :: Subscribed(c, st.log[i].item) !in st.log
  }

  // A future that is not settled owns its channel, and nobody has dispatched it yet
  predicate FutureOk(st: State, f: Addr)
    requires f in st.futures
  {
    st.futures[f].channel.Some? ==>
      var c := st.futures[f].channel.value;
      && st.futures[f].outcome == None
      && c in st.pools && c in st.private && !st.pools[c].lock
      && (forall x <- st.pools[c].list :: Unvisited(st.log, x))
      && (forall g <- st.futures :: g != f ==> st.futures[g].channel != Some(c))
  }

  predicate Inv(st: State) {
    && Linked(st) && Homes(st) && Bounded(st) && LivesOk(st) && CallsOk(st.log) && OnePool(st.log) && OnceOk(st)
    && (forall f <- st.futures :: FutureOk(st, f))
  }

  // ---------- what a step leaves alone ----------

  function Since(a: State, b: State): seq<Event>
    requires a.log <= b.log
  {
    b.log[|a.log|..]
  }

  /** While a pool is locked its list only grows, unless the channel is destroyed; nobody
      else reaches a private channel. */
  predicate LockedKept(a: State, b: State, p: Addr)
    requires a.log <= b.log && p in a.pools
  {
    if p in b.pools then
      && b.pools[p].lock
      && b.pools[p].list == a.pools[p].list + Additions(Since(a, b), p)
      && (p in a.private ==> Additions(Since(a, b), p) == [] && forall x <- a.pools[p].list :: Unvisited(Since(a, b), x))
    else p !in a.private && Destroyed(p) in Since(a, b)
  }

  // A dispatch has a new number, visits only what is in memory or new, and new entries are new
  predicate EventNew(a: State, e: Event) {
    match e
    case Visited(d, x, _) => d >= a.next && (x in a.items || x >= a.next)
    case Subscribed(_, x) => x >= a.next
    case _ => true
  }

  // An entry that was pinned when its subscription was dropped: nothing refers to it any more
  predicate Orphan(st: State, p: Addr, x: Addr) {
    p in st.pools && x in st.pools[p].list && x in st.items && st.items[x] == Item(true, None)
  }

  // Orphans stay, alive, until their channel is destroyed
  predicate OrphanKept(a: State, b: State, p: Addr, x: Addr)
    requires a.log <= b.log
  {
    Orphan(a, p, x) ==> if p in b.pools then Orphan(b, p, x) else Destroyed(p) in Since(a, b)
  }

  predicate OrphansKept(a: State, b: State)
    requires a.log <= b.log
  {
    forall p <- a.pools, x <- a.items :: OrphanKept(a, b, p, x)
  }

  /** What every step keeps, and every run: locked pools, pinned entries without subscription,
      settled futures, and that what is gone from memory is gone for good. */
  predicate Kept(a: State, b: State) {
    && a.log <= b.log && a.next <= b.next && a.private <= b.private
    && (forall p <- a.pools | a.pools[p].lock :: LockedKept(a, b, p))
    && OrphansKept(a, b)
    && (forall e <- Since(a, b) :: EventNew(a, e))
    && (forall c <- b.private :: c in a.private || c >= a.next)
    && (forall x <- b.items :: x in a.items || x >= a.next)
    && (forall p <- b.pools :: p in a.pools || p >= a.next)
    && (forall f <- b.futures :: f in a.futures || f >= a.next)
    && (forall s <- b.subs :: if s in a.subs then b.subs[s] == a.subs[s] || b.subs[s] == None else s >= a.next)
    && (forall f <- b.futures | b.futures[f].channel.Some? ::
          b.futures[f].channel.value >= a.next || (f in a.futures && a.futures[f].channel == b.futures[f].channel))
    && (forall f <- a.futures | a.futures[f].outcome.Some? :: f in b.futures ==> b.futures[f].outcome == a.futures[f].outcome)
  }

  lemma KeptSelf(a: State)
    ensures Kept(a, a)
  {
    assert Since(a, a) == [];
  }

  lemma SinceSplit(a: State, b: State, c: State)
    requires a.log <= b.log && b.log <= c.log
    ensures a.log <= c.log && Since(a, c) == Since(a, b) + Since(b, c)
  {
  }

  lemma LogGrows(a: State, b: State)
    requires Kept(a, b)
    ensures a.log <= b.log
  {
  }

  lemma OrphansTrans(a: State, b: State, c: State)
    requires Kept(a, b) && Kept(b, c) && Bounded(a)
    ensures a.log <= c.log && OrphansKept(a, c)
  {
    SinceSplit(a, b, c);
    assert forall p <- c.pools :: p in b.pools || p >= b.next;
    assert OrphansKept(a, b) && OrphansKept(b, c);
    hide Kept;
    forall p <- a.pools, x <- a.items ensures OrphanKept(a, c, p, x) {
      assert OrphanKept(a, b, p, x);
      if Orphan(b, p, x) {
        assert OrphanKept(b, c, p, x);
      }
    }
  }

  lemma LockedTrans(a: State, b: State, c: State, p: Addr)
    requires Kept(a, b) && Kept(b, c) && p in a.pools && a.pools[p].lock
    ensures a.log <= c.log && (p < a.next ==> LockedKept(a, c, p))
  {
    SinceSplit(a, b, c);
    assert LockedKept(a, b, p);
    assert forall q <- c.pools :: q in b.pools || q >= b.next;
    if p in b.pools {
      assert LockedKept(b, c, p);
    }
    hide Kept;
    if p in c.pools && p < a.next {
      AdditionsConcat(Since(a, b), Since(b, c), p);
      forall x <- a.pools[p].list | p in a.private ensures Unvisited(Since(a, c), x) {
        assert x in b.pools[p].list;
        assert Unvisited(Since(a, b), x) && Unvisited(Since(b, c), x);
      }
    }
  }

  lemma EventsTrans(a: State, b: State, c: State)
    requires Kept(a, b) && Kept(b, c)
    ensures a.log <= c.log && forall e <- Since(a, c) :: EventNew(a, e)
  {
    SinceSplit(a, b, c);
    assert a.next <= b.next && (forall x <- b.items :: x in a.items || x >= a.next);
    assert forall e <- Since(a, b) :: EventNew(a, e);
    assert forall e <- Since(b, c) :: EventNew(b, e);
    hide Kept;
    forall e <- Since(a, c) ensures EventNew(a, e) {
      if e in Since(a, b) {
        assert EventNew(a, e);
      } else {
        assert EventNew(b, e);
      }
    }
  }

  lemma KeptTrans(a: State, b: State, c: State)
    requires Kept(a, b) && Kept(b, c) && Bounded(a)
    ensures Kept(a, c)
  {
    OrphansTrans(a, b, c);
    EventsTrans(a, b, c);
    forall p <- a.pools | a.pools[p].lock ensures LockedKept(a, c, p) {
      LockedTrans(a, b, c, p);
    }
    hide OrphansKept, LockedKept, EventNew, Since;
  }

  // ---------- the single steps ----------

  function NewPool(st: State, owned: bool): State {
    st.(pools := st.pools[st.next := Pool(false, [])],
        private := if owned then st.private + {st.next} else st.private, next := st.next + 1)
  }

  // The entry is at `st.next`, its subscription right behind it
  function AddItem(st: State, p: Addr): State
    requires p in st.pools
  {
    var (x, s) := (st.next, st.next + 1);
    st.(items := st.items[x := Item(false, Some(s))],
        pools := st.pools[p := st.pools[p].(list := st.pools[p].list + [x])],
        subs := st.subs[s := Some(Reference(p, x))],
        next := st.next + 2, log := st.log + [Subscribed(p, x)])
  }

  function SetPinned(st: State, x: Addr, v: bool): State
    requires x in st.items
  {
    st.(items := st.items[x := st.items[x].(pinned := v)])
  }

  function Without(s: seq<Addr>, x: Addr): seq<Addr> {
    if s == [] then [] else (if s[0] == x then [] else [s[0]]) + Without(s[1..], x)
  }

  function Erase(st: State, p: Addr, x: Addr): State
    requires p in st.pools
  {
    st.(pools := st.pools[p := st.pools[p].(list := Without(st.pools[p].list, x))], items := st.items - {x})
  }

  /** The subscription `s` loses its reference, or is `gone` altogether, and what is left of
      its entry is `left`. */
  function LetGo(st: State, s: Addr, gone: bool, killed: bool, left: Option<Item>): State
    requires s in st.subs && st.subs[s].Some? && ReferenceOk(st, s)
  {
    var r := st.subs[s].value;
    var st1 := st.(subs := if gone then st.subs - {s} else st.subs[s := None],
                   log := if killed then st.log + [Killed(r.item)] else st.log);
    if left.Some? then st1.(items := st.items[r.item := left.value]) else Erase(st1, r.pool, r.item)
  }

  // The entry of a cancelled subscription is left dead in a locked pool and erased otherwise
  function Cancel(st: State, s: Addr): State
    requires s in st.subs && ReferenceOk(st, s)
  {
    if st.subs[s] == None then st
    else LetGo(st, s, false, true, if st.pools[st.subs[s].value.pool].lock then Some(Item(false, None)) else None)
  }

  // A subscription is destroyed; a pinned entry stays behind without it
  function Drop(st: State, s: Addr): State
    requires s in st.subs && ReferenceOk(st, s)
  {
    if st.subs[s] == None then st.(subs := st.subs - {s})
    else
      var r := st.subs[s].value;
      var pinned := st.items[r.item].pinned;
      LetGo(st, s, true, !pinned, if st.pools[r.pool].lock || pinned then Some(Item(pinned, None)) else None)
  }

  function SetLock(st: State, p: Addr, v: bool): State
    requires p in st.pools
  {
    st.(pools := st.pools[p := st.pools[p].(lock := v)])
  }

  function LogVisit(st: State, d: Addr, x: Addr, called: bool): State {
    st.(log := st.log + [Visited(d, x, called)])
  }

  // A channel is destroyed: the subscriptions still linked lose their references
  function Destroy(st: State, p: Addr): State
    requires p in st.pools
  {
    var list := set x <- st.pools[p].list;
    st.(pools := st.pools - {p}, items := st.items - list, log := st.log + [Destroyed(p)],
        subs := map s <- st.subs :: if st.subs[s].Some? && st.subs[s].value.pool == p then None else st.subs[s])
  }

  function NewFuture(st: State): State {
    st.(futures := st.futures[st.next := Future(None, None)], next := st.next + 1)
  }

  function SetFuture(st: State, f: Addr, v: Future): State { st.(futures := st.futures[f := v]) }

  function RemoveFuture(st: State, f: Addr): State { st.(futures := st.futures - {f}) }

  // ---------- they keep the invariant ----------

  lemma {:induction false} WithoutMembers(s: seq<Addr>, x: Addr)
    ensures forall y :: y in Without(s, x) <==> y in s && y != x
  {
    if s != [] {
      WithoutMembers(s[1..], x);
      assert forall y :: y in s <==> y == s[0] || y in s[1..];
    }
  }

  lemma {:induction false} WithoutNoDup(s: seq<Addr>, x: Addr)
    requires NoDup(s)
    ensures NoDup(Without(s, x))
  {
    if s != [] {
      WithoutNoDup(s[1..], x);
      WithoutMembers(s[1..], x);
      var (t, w) := (Without(s, x), Without(s[1..], x));
      assert s[0] !in w;
      if s[0] != x {
        assert t == [s[0]] + w;
        forall i, j | 0 <= i < j < |t| ensures t[i] != t[j] {
          assert t[j] == w[j - 1];
        }
      } else {
        assert t == w;
      }
    }
  }

  // An address not used so far occurs nowhere in the log
  lemma Unlogged(st: State, x: Addr)
    requires Bounded(st) && x >= st.next
    ensures Killed(x) !in st.log && Unvisited(st.log, x) && forall p :: Subscribed(p, x) !in st.log
  {
    assert forall e <- st.log :: EventBounded(e, st.next);
  }

  lemma NewPoolKeeps(st: State, owned: bool)
    requires Inv(st)
    ensures Inv(NewPool(st, owned)) && Kept(st, NewPool(st, owned))
  {
    var st1 := NewPool(st, owned);
    assert Since(st, st1) == [];
    NewPoolLinked(st, owned);
    NewPoolLogged(st, owned);
    hide Linked, Homes, LivesOk, CallsOk, OnePool, OnceOk;
    forall f <- st1.futures ensures FutureOk(st1, f) {
      assert FutureOk(st, f);
    }
  }

  lemma NewPoolLinked(st: State, owned: bool)
    requires Linked(st) && Homes(st) && Bounded(st)
    ensures Linked(NewPool(st, owned)) && Homes(NewPool(st, owned))
  {
    var st1 := NewPool(st, owned);
    forall s <- st1.subs ensures ReferenceOk(st1, s) {
      assert ReferenceOk(st, s);
    }
    forall p <- st1.pools ensures PoolOk(st1, p) {
      if p in st.pools {
        assert PoolOk(st, p);
      }
    }
    forall p <- st1.pools, x <- st1.pools[p].list ensures DriverOk(st1, p, x) {
      assert DriverOk(st, p, x);
    }
    forall e <- st1.log ensures Home(st1, e) {
      assert Home(st, e);
    }
  }

  lemma NewPoolLogged(st: State, owned: bool)
    requires Bounded(st) && LivesOk(st) && OnceOk(st)
    ensures var st1 := NewPool(st, owned); Bounded(st1) && LivesOk(st1) && OnceOk(st1)
  {
    var st1 := NewPool(st, owned);
    Unlogged(st, st.next);
    forall e <- st1.log ensures EventBounded(e, st1.next) && (e.Subscribed? ==> e.pool != st.next) {
      assert EventBounded(e, st.next);
    }
  }

  lemma AddItemKeeps(st: State, p: Addr)
    requires Inv(st) && p in st.pools
    requires p in st.private ==> !st.pools[p].lock
    ensures Inv(AddItem(st, p)) && Kept(st, AddItem(st, p))
  {
    AddItemLinked(st, p);
    AddItemLogged(st, p);
    AddItemKept(st, p);
    AddItemHomes(st, p);
    hide Homes;
    forall f <- st.futures ensures FutureOk(AddItem(st, p), f) {
      AddItemFuture(st, p, f);
    }
    hide Linked, Bounded, LivesOk, CallsOk, OnePool, OnceOk, FutureOk, Kept;
  }

  lemma AddItemHomes(st: State, p: Addr)
    requires Homes(st) && Bounded(st) && p in st.pools
    ensures Homes(AddItem(st, p))
  {
    Unlogged(st, st.next);
    var st1 := AddItem(st, p);
    forall e <- st1.log ensures Home(st1, e) {
      if e != Subscribed(p, st.next) {
        assert e in st.log && Home(st, e);
      }
    }
  }

  lemma AddItemKept(st: State, p: Addr)
    requires Bounded(st) && p in st.pools && (p in st.private ==> !st.pools[p].lock)
    ensures Kept(st, AddItem(st, p))
  {
    var st1 := AddItem(st, p);
    assert Since(st, st1) == [Subscribed(p, st.next)];
    assert forall q :: Additions([Subscribed(p, st.next)], q) == if q == p then [st.next] else [];
  }

  lemma AddItemFuture(st: State, p: Addr, f: Addr)
    requires Bounded(st) && p in st.pools && f in st.futures && FutureOk(st, f)
    ensures FutureOk(AddItem(st, p), f)
  {
    Unlogged(st, st.next);
    hide Bounded;
  }

  lemma AddItemLinked(st: State, p: Addr)
    requires Linked(st) && Bounded(st) && p in st.pools
    ensures Linked(AddItem(st, p))
  {
    var st1 := AddItem(st, p);
    forall q <- st1.pools ensures PoolOk(st1, q) {
      assert PoolOk(st, q);
    }
    forall q <- st1.pools, x <- st1.pools[q].list ensures DriverOk(st1, q, x) {
      if x != st.next {
        assert x in st.pools[q].list && DriverOk(st, q, x);
      } else {
        assert q == p;
      }
    }
    forall s <- st1.subs ensures ReferenceOk(st1, s) {
      if s in st.subs {
        assert ReferenceOk(st, s);
      }
    }
  }

  lemma AddItemLogged(st: State, p: Addr)
    requires Bounded(st) && LivesOk(st) && CallsOk(st.log) && OnePool(st.log) && OnceOk(st) && p in st.pools
    ensures var st1 := AddItem(st, p); Bounded(st1) && LivesOk(st1) && CallsOk(st1.log) && OnePool(st1.log) && OnceOk(st1)
  {
    Unlogged(st, st.next);
    AddItemLives(st, p);
    AddItemCalls(st, p);
    hide Bounded, LivesOk, CallsOk, OnceOk, Unvisited;
    var log1 := AddItem(st, p).log;
    assert forall e :: e in log1 <==> e in st.log || e == Subscribed(p, st.next);
  }

  lemma AddItemLives(st: State, p: Addr)
    requires Bounded(st) && LivesOk(st) && p in st.pools
    ensures Bounded(AddItem(st, p)) && LivesOk(AddItem(st, p))
  {
    Unlogged(st, st.next);
    var log1 := AddItem(st, p).log;
    assert forall e :: e in log1 <==> e in st.log || e == Subscribed(p, st.next);
    forall e <- log1 ensures EventBounded(e, st.next + 2) {
      if e in st.log {
        assert EventBounded(e, st.next);
      }
    }
  }

  lemma AddItemCalls(st: State, p: Addr)
    requires Bounded(st) && CallsOk(st.log) && OnceOk(st) && p in st.pools
    ensures CallsOk(AddItem(st, p).log) && OnceOk(AddItem(st, p))
  {
    var st1 := AddItem(st, p);
    forall j | 0 <= j < |st1.log| && st1.log[j].Visited?
      ensures st1.log[j].called <==> Killed(st1.log[j].item) !in st1.log[..j]
    {
      assert st1.log[..j] == st.log[..j];
    }
    forall i, j | 0 <= i < j < |st1.log| && st1.log[i].Visited? && Visits1(st1.log[j], st1.log[i].item)
      ensures forall c <- st1.private :: Subscribed(c, st1.log[i].item) !in st1.log
    {
      assert st1.log[i] == st.log[i] && st1.log[j] == st.log[j];
      assert EventBounded(st.log[i], st.next);
    }
  }

  // What is left of an entry is alive unless it was killed, and it is killed when nothing is left
  predicate LetGoOk(st: State, s: Addr, killed: bool, left: Option<Item>) {
    && s in st.subs && st.subs[s].Some? && ReferenceOk(st, s)
    && match left
       case Some(it) => it.driver == None && (it.Live() <==> !killed)
       case None => killed && !st.pools[st.subs[s].value.pool].lock
  }

  lemma LetGoKeeps(st: State, s: Addr, gone: bool, killed: bool, left: Option<Item>)
    requires Inv(st) && LetGoOk(st, s, killed, left)
    ensures Inv(LetGo(st, s, gone, killed, left)) && Kept(st, LetGo(st, s, gone, killed, left))
  {
    LetGoLinked(st, s, gone, killed, left);
    LetGoLogged(st, s, gone, killed, left);
    LetGoKept(st, s, gone, killed, left);
    LetGoHomes(st, s, gone, killed, left);
    forall f <- st.futures ensures FutureOk(LetGo(st, s, gone, killed, left), f) {
      LetGoFuture(st, s, gone, killed, left, f);
    }
    hide Linked, Homes, Bounded, LivesOk, CallsOk, OnePool, OnceOk, FutureOk, Kept;
  }

  lemma LetGoHomes(st: State, s: Addr, gone: bool, killed: bool, left: Option<Item>)
    requires Homes(st) && LetGoOk(st, s, killed, left)
    ensures Homes(LetGo(st, s, gone, killed, left))
  {
    var r := st.subs[s].value;
    var st1 := LetGo(st, s, gone, killed, left);
    WithoutMembers(st.pools[r.pool].list, r.item);
    forall e <- st1.log ensures Home(st1, e) {
      if !e.Killed? {
        assert e in st.log && Home(st, e);
      }
    }
  }

  lemma OneList(st: State, p: Addr, q: Addr, x: Addr)
    requires OnePool(st.log) && p in st.pools && q in st.pools && PoolOk(st, p) && PoolOk(st, q)
    requires x in st.pools[p].list && x in st.pools[q].list
    ensures p == q
  {
    assert Subscribed(p, x) in st.log && Subscribed(q, x) in st.log;
  }

  lemma LetGoLinked(st: State, s: Addr, gone: bool, killed: bool, left: Option<Item>)
    requires Linked(st) && OnePool(st.log) && LetGoOk(st, s, killed, left)
    ensures Linked(LetGo(st, s, gone, killed, left))
  {
    var st1 := LetGo(st, s, gone, killed, left);
    var r := st.subs[s].value;
    assert PoolOk(st, r.pool) && DriverOk(st, r.pool, r.item);
    WithoutMembers(st.pools[r.pool].list, r.item);
    WithoutNoDup(st.pools[r.pool].list, r.item);
    forall q <- st1.pools ensures PoolOk(st1, q) {
      assert PoolOk(st, q);
      if r.item in st.pools[q].list {
        OneList(st, q, r.pool, r.item);
      }
    }
    forall q <- st1.pools, x <- st1.pools[q].list ensures DriverOk(st1, q, x) {
      assert PoolOk(st1, q) && x in st.pools[q].list && DriverOk(st, q, x);
    }
    forall t <- st1.subs ensures ReferenceOk(st1, t) {
      assert ReferenceOk(st, t);
    }
  }

  lemma LetGoLogged(st: State, s: Addr, gone: bool, killed: bool, left: Option<Item>)
    requires Bounded(st) && LivesOk(st) && CallsOk(st.log) && OnePool(st.log) && OnceOk(st) && LetGoOk(st, s, killed, left)
    ensures var st1 := LetGo(st, s, gone, killed, left);
            Bounded(st1) && LivesOk(st1) && CallsOk(st1.log) && OnePool(st1.log) && OnceOk(st1)
  {
    if killed {
      LogMore(st, Killed(st.subs[s].value.item));
    }
    LetGoLives(st, s, gone, killed, left);
    hide Unvisited, CallsOk, OnePool, Bounded, LivesOk;
  }

  lemma LetGoLives(st: State, s: Addr, gone: bool, killed: bool, left: Option<Item>)
    requires Bounded(st) && LivesOk(st) && LetGoOk(st, s, killed, left)
    ensures var st1 := LetGo(st, s, gone, killed, left); Bounded(st1) && LivesOk(st1)
  {
    var log1 := LetGo(st, s, gone, killed, left).log;
    assert forall e :: e in log1 <==> e in st.log || (killed && e == Killed(st.subs[s].value.item));
  }

  // An event that is no visit keeps what is known about calls and pools
  lemma LogMore(st: State, e: Event)
    requires CallsOk(st.log) && OnceOk(st) && OnePool(st.log) && !e.Visited? && !e.Subscribed?
    ensures var st1 := st.(log := st.log + [e]); CallsOk(st1.log) && OnceOk(st1) && OnePool(st1.log)
  {
    var st1 := st.(log := st.log + [e]);
    forall j | 0 <= j < |st1.log| && st1.log[j].Visited?
      ensures st1.log[j].called <==> Killed(st1.log[j].item) !in st1.log[..j]
    {
      assert st1.log[..j] == st.log[..j];
    }
    forall i, j | 0 <= i < j < |st1.log| && st1.log[i].Visited? && Visits1(st1.log[j], st1.log[i].item)
      ensures forall c <- st1.private :: Subscribed(c, st1.log[i].item) !in st1.log
    {
      assert st1.log[i] == st.log[i] && st1.log[j] == st.log[j];
    }
  }

  // The log tells of a handler that runs at once
  lemma RanKeeps(st: State, f: Addr)
    requires Inv(st) && f in st.futures
    ensures var st1 := st.(log := st.log + [RanAtOnce(f)]); Inv(st1) && Kept(st, st1)
  {
    var st1 := st.(log := st.log + [RanAtOnce(f)]);
    LogMore(st, RanAtOnce(f));
    SameListsLinked(st, st1);
    RanLogged(st, f);
    RanKept(st, f);
    hide Linked, OnceOk, CallsOk, OnePool, Homes, LivesOk, Bounded, Kept;
    forall g <- st1.futures ensures FutureOk(st1, g) {
      assert FutureOk(st, g);
    }
  }

  lemma RanKept(st: State, f: Addr)
    ensures Kept(st, st.(log := st.log + [RanAtOnce(f)]))
  {
    assert Since(st, st.(log := st.log + [RanAtOnce(f)])) == [RanAtOnce(f)];
    assert forall p :: Additions([RanAtOnce(f)], p) == [];
  }

  lemma RanLogged(st: State, f: Addr)
    requires Bounded(st) && LivesOk(st) && Homes(st) && f < st.next
    ensures var st1 := st.(log := st.log + [RanAtOnce(f)]); Bounded(st1) && LivesOk(st1) && Homes(st1)
  {
    var st1 := st.(log := st.log + [RanAtOnce(f)]);
    assert forall e :: e in st1.log <==> e in st.log || e == RanAtOnce(f);
    forall e <- st1.log ensures Home(st1, e) {
      if e != RanAtOnce(f) {
        assert Home(st, e);
      }
    }
  }

  // An entry without a subscription is not the one that is let go of
  lemma LetGoOrphans(st: State, s: Addr, gone: bool, killed: bool, left: Option<Item>)
    requires LetGoOk(st, s, killed, left)
    ensures OrphansKept(st, LetGo(st, s, gone, killed, left))
  {
    var r := st.subs[s].value;
    WithoutMembers(st.pools[r.pool].list, r.item);
  }

  lemma LetGoKept(st: State, s: Addr, gone: bool, killed: bool, left: Option<Item>)
    requires LetGoOk(st, s, killed, left)
    ensures Kept(st, LetGo(st, s, gone, killed, left))
  {
    LetGoOrphans(st, s, gone, killed, left);
    hide OrphansKept;
    var st1 := LetGo(st, s, gone, killed, left);
    var d := Since(st, st1);
    assert d == if killed then [Killed(st.subs[s].value.item)] else [];
    assert forall p :: Additions(d, p) == [];
  }

  lemma LetGoFuture(st: State, s: Addr, gone: bool, killed: bool, left: Option<Item>, f: Addr)
    requires LetGoOk(st, s, killed, left) && f in st.futures && FutureOk(st, f)
    ensures FutureOk(LetGo(st, s, gone, killed, left), f)
  {
    var r := st.subs[s].value;
    WithoutMembers(st.pools[r.pool].list, r.item);
  }

  /** Cancelling or dropping a subscription keeps every list, link and promise. */
  lemma CancelKeeps(st: State, s: Addr)
    requires Inv(st) && s in st.subs
    ensures ReferenceOk(st, s) && Inv(Cancel(st, s)) && Kept(st, Cancel(st, s))
  {
    assert ReferenceOk(st, s);
    KeptSelf(st);
    hide Inv, Kept, LetGo;
    if st.subs[s].Some? {
      LetGoKeeps(st, s, false, true, if st.pools[st.subs[s].value.pool].lock then Some(Item(false, None)) else None);
    }
  }

  lemma DropKeeps(st: State, s: Addr)
    requires Inv(st) && s in st.subs
    ensures ReferenceOk(st, s) && Inv(Drop(st, s)) && Kept(st, Drop(st, s))
  {
    assert ReferenceOk(st, s);
    if st.subs[s].Some? {
      var r := st.subs[s].value;
      var pinned := st.items[r.item].pinned;
      LetGoKeeps(st, s, true, !pinned, if st.pools[r.pool].lock || pinned then Some(Item(pinned, None)) else None);
      hide Inv, Kept, LetGo;
    } else {
      DropUnlinked(st, s);
    }
  }

  // A subscription without a reference is destroyed
  lemma DropUnlinked(st: State, s: Addr)
    requires Inv(st) && s in st.subs && st.subs[s].None?
    ensures var st1 := st.(subs := st.subs - {s}); Inv(st1) && Kept(st, st1)
  {
    var st1 := st.(subs := st.subs - {s});
    assert Since(st, st1) == [] && OrphansKept(st, st1);
    hide OrphansKept;
    forall p <- st1.pools, x <- st1.pools[p].list ensures DriverOk(st1, p, x) {
      assert PoolOk(st, p) && DriverOk(st, p, x);
    }
    forall p <- st1.pools ensures PoolOk(st1, p) {
      assert PoolOk(st, p);
    }
    forall t <- st1.subs ensures ReferenceOk(st1, t) {
      assert ReferenceOk(st, t);
    }
    forall f <- st1.futures ensures FutureOk(st1, f) {
      assert FutureOk(st, f);
    }
  }

  // Pinning or unpinning an entry that has its subscription
  lemma SetPinnedKeeps(st: State, x: Addr, v: bool)
    requires Inv(st) && x in st.items && st.items[x].driver.Some?
    ensures Inv(SetPinned(st, x, v)) && Kept(st, SetPinned(st, x, v))
  {
    var st1 := SetPinned(st, x, v);
    SetPinnedLinked(st, x, v);
    SetPinnedKept(st, x, v);
    hide Kept, Linked;
    forall f <- st1.futures ensures FutureOk(st1, f) {
      assert FutureOk(st, f);
    }
  }

  lemma SetPinnedKept(st: State, x: Addr, v: bool)
    requires x in st.items && st.items[x].driver.Some?
    ensures Kept(st, SetPinned(st, x, v))
  {
    assert Since(st, SetPinned(st, x, v)) == [] && OrphansKept(st, SetPinned(st, x, v));
    hide OrphansKept;
  }

  lemma SetPinnedLinked(st: State, x: Addr, v: bool)
    requires Linked(st) && x in st.items && st.items[x].driver.Some?
    ensures Linked(SetPinned(st, x, v))
  {
    var st1 := SetPinned(st, x, v);
    forall p <- st1.pools, y <- st1.pools[p].list ensures DriverOk(st1, p, y) {
      assert PoolOk(st, p) && DriverOk(st, p, y);
    }
    forall p <- st1.pools ensures PoolOk(st1, p) {
      assert PoolOk(st, p);
    }
    forall t <- st1.subs ensures ReferenceOk(st1, t) {
      assert ReferenceOk(st, t);
    }
  }

  // ---------- the steps of a dispatch ----------

  predicate Owned(st: State, p: Addr) { exists f <- st.futures :: st.futures[f].channel == Some(p) }

  // `p` is locked, and every dispatch has its own number
  function Begin(st: State, p: Addr): State
    requires p in st.pools
  {
    SetLock(st, p, true).(next := st.next + 1)
  }

  lemma BeginKeeps(st: State, p: Addr)
    requires Inv(st) && p in st.pools && !Owned(st, p) && (p in st.private ==> !st.pools[p].lock)
    ensures Inv(Begin(st, p)) && Kept(st, Begin(st, p))
  {
    var st1 := Begin(st, p);
    assert Since(st, st1) == [];
    SameListsLinked(st, st1);
    forall e <- st1.log ensures EventBounded(e, st1.next) {
      assert EventBounded(e, st.next);
    }
    forall f <- st1.futures ensures FutureOk(st1, f) {
      assert FutureOk(st, f);
    }
  }

  lemma SameListsLinked(st: State, st1: State)
    requires Linked(st) && st1.items == st.items && st1.subs == st.subs && st.log <= st1.log
    requires st1.pools.Keys == st.pools.Keys && forall p <- st.pools :: st1.pools[p].list == st.pools[p].list
    ensures Linked(st1)
  {
    forall p <- st1.pools ensures PoolOk(st1, p) {
      assert PoolOk(st, p);
    }
    forall p <- st1.pools, x <- st1.pools[p].list ensures DriverOk(st1, p, x) {
      assert PoolOk(st, p) && DriverOk(st, p, x);
    }
    forall t <- st1.subs ensures ReferenceOk(st1, t) {
      assert ReferenceOk(st, t);
    }
  }

  // Lists and entries are what orphans depend on
  lemma SameOrphans(st0: State, st: State, st1: State)
    requires st0.log <= st.log <= st1.log && OrphansKept(st0, st) && st1.items == st.items
    requires st1.pools.Keys == st.pools.Keys && forall p <- st.pools :: st1.pools[p].list == st.pools[p].list
    ensures OrphansKept(st0, st1)
  {
    forall p <- st0.pools, x <- st0.items ensures OrphanKept(st0, st1, p, x) {
      assert OrphanKept(st0, st, p, x);
    }
  }

  // The end of an outermost dispatch, whose pool was not locked at first
  lemma UnlockKeeps(st0: State, st: State, p: Addr)
    requires Inv(st) && Kept(st0, st) && p in st.pools && (p in st0.pools ==> !st0.pools[p].lock)
    ensures Inv(SetLock(st, p, false)) && Kept(st0, SetLock(st, p, false))
  {
    var st1 := SetLock(st, p, false);
    SameListsLinked(st, st1);
    UnlockKept(st0, st, p);
    hide Kept, Linked;
    forall f <- st1.futures ensures FutureOk(st1, f) {
      assert FutureOk(st, f);
    }
  }

  lemma UnlockKept(st0: State, st: State, p: Addr)
    requires Kept(st0, st) && p in st.pools && (p in st0.pools ==> !st0.pools[p].lock)
    ensures Kept(st0, SetLock(st, p, false))
  {
    var st1 := SetLock(st, p, false);
    assert Since(st0, st1) == Since(st0, st);
    SameOrphans(st0, st, st1);
    hide OrphansKept;
    forall q <- st0.pools | st0.pools[q].lock ensures LockedKept(st0, st1, q) {
      assert LockedKept(st0, st, q);
    }
  }

  // Whether a dispatch `d` over `p`, begun in `st0`, may visit `x` now
  predicate VisitOk(st0: State, st: State, p: Addr, d: Addr, x: Addr) {
    && Inv(st) && Kept(st0, st) && Bounded(st0)
    && p in st0.pools && p in st.pools && !Owned(st, p) && x in st.pools[p].list
    && st0.next <= d < st.next
    && (p in st.private ==> Unvisited(st.log, x) && !st0.pools[p].lock)
  }

  lemma VisitKeeps(st0: State, st: State, p: Addr, d: Addr, x: Addr, called: bool)
    requires VisitOk(st0, st, p, d, x) && x in st.items && called == st.items[x].Live()
    ensures Inv(LogVisit(st, d, x, called)) && Kept(st0, LogVisit(st, d, x, called))
  {
    var st1 := LogVisit(st, d, x, called);
    SameListsLinked(st, st1);
    VisitLogged(st, p, d, x, called);
    VisitKept(st0, st, p, d, x, called);
    VisitHomes(st, d, x, called);
    forall f <- st.futures ensures FutureOk(st1, f) {
      VisitFuture(st, p, d, x, called, f);
    }
    hide Linked, Homes, Bounded, LivesOk, CallsOk, OnePool, OnceOk, Kept, FutureOk, Owned, Unvisited;
  }

  lemma VisitHomes(st: State, d: Addr, x: Addr, called: bool)
    requires Homes(st)
    ensures Homes(LogVisit(st, d, x, called))
  {
    var st1 := LogVisit(st, d, x, called);
    forall e <- st1.log ensures Home(st1, e) {
      if !e.Visited? {
        assert Home(st, e);
      }
    }
  }

  lemma VisitFuture(st: State, p: Addr, d: Addr, x: Addr, called: bool, f: Addr)
    requires Linked(st) && OnePool(st.log) && p in st.pools && !Owned(st, p) && x in st.pools[p].list
    requires f in st.futures && FutureOk(st, f)
    ensures FutureOk(LogVisit(st, d, x, called), f)
  {
    if st.futures[f].channel.Some? {
      var c := st.futures[f].channel.value;
      assert PoolOk(st, p) && PoolOk(st, c) && c != p;
      hide Linked;
      forall y <- st.pools[c].list ensures Unvisited(LogVisit(st, d, x, called).log, y) {
        if x == y {
          OneList(st, p, c, x);
        }
      }
    }
  }

  lemma VisitLogged(st: State, p: Addr, d: Addr, x: Addr, called: bool)
    requires Bounded(st) && LivesOk(st) && CallsOk(st.log) && OnePool(st.log) && OnceOk(st)
    requires p in st.pools && PoolOk(st, p) && x in st.pools[p].list && x in st.items && called == st.items[x].Live()
    requires d < st.next && (p in st.private ==> Unvisited(st.log, x))
    ensures var st1 := LogVisit(st, d, x, called);
            Bounded(st1) && LivesOk(st1) && CallsOk(st1.log) && OnePool(st1.log) && OnceOk(st1)
  {
    var st1 := LogVisit(st, d, x, called);
    VisitOnce(st, p, d, x, called);
    VisitCalls(st.log, d, x, called);
    hide OnceOk, CallsOk, Unvisited, PoolOk, OnePool, LivesOk, Bounded;
    assert OnePool(st1.log) && LivesOk(st1) && Bounded(st1) by {
      LogsVisit(st, d, x, called);
    }
  }

  lemma LogsVisit(st: State, d: Addr, x: Addr, called: bool)
    requires Bounded(st) && LivesOk(st) && OnePool(st.log) && d < st.next && x < st.next
    ensures var st1 := LogVisit(st, d, x, called); Bounded(st1) && LivesOk(st1) && OnePool(st1.log)
  {
    var log1 := LogVisit(st, d, x, called).log;
    assert forall e :: e in log1 <==> e in st.log || e == Visited(d, x, called);
  }

  lemma VisitCalls(log: seq<Event>, d: Addr, x: Addr, called: bool)
    requires CallsOk(log) && (called <==> Killed(x) !in log)
    ensures CallsOk(log + [Visited(d, x, called)])
  {
    var log1 := log + [Visited(d, x, called)];
    forall j | 0 <= j < |log1| && log1[j].Visited? ensures log1[j].called <==> Killed(log1[j].item) !in log1[..j] {
      assert log1[..j] == log[..j];
    }
    assert log[..|log|] == log;
  }

  lemma VisitOnce(st: State, p: Addr, d: Addr, x: Addr, called: bool)
    requires OnceOk(st) && OnePool(st.log) && p in st.pools && PoolOk(st, p) && x in st.pools[p].list
    requires p in st.private ==> Unvisited(st.log, x)
    ensures OnceOk(LogVisit(st, d, x, called))
  {
    var st1 := LogVisit(st, d, x, called);
    forall i, j | 0 <= i < j < |st1.log| && st1.log[i].Visited? && Visits1(st1.log[j], st1.log[i].item)
      ensures forall c <- st1.private :: Subscribed(c, st1.log[i].item) !in st1.log
    {
      assert st1.log[i] == st.log[i];
      if j < |st.log| {
        assert st1.log[j] == st.log[j];
      } else {
        assert Subscribed(p, x) in st.log && st.log[i] in st.log;
      }
    }
  }

  lemma VisitKept(st0: State, st: State, p: Addr, d: Addr, x: Addr, called: bool)
    requires VisitOk(st0, st, p, d, x) && x in st.items
    ensures Kept(st0, LogVisit(st, d, x, called))
  {
    var st1 := LogVisit(st, d, x, called);
    var e := Visited(d, x, called);
    assert Since(st0, st1) == Since(st0, st) + [e];
    SameOrphans(st0, st, st1);
    hide OrphansKept;
    forall q <- st0.pools | st0.pools[q].lock ensures LockedKept(st0, st1, q) {
      VisitLockedKept(st0, st, p, d, x, called, q);
    }
    hide Inv, LockedKept, Owned, Additions;
  }

  lemma VisitLockedKept(st0: State, st: State, p: Addr, d: Addr, x: Addr, called: bool, q: Addr)
    requires VisitOk(st0, st, p, d, x) && q in st0.pools && st0.pools[q].lock
    ensures LockedKept(st0, LogVisit(st, d, x, called), q)
  {
    hide Inv, OrphansKept, Owned;
    var st1 := LogVisit(st, d, x, called);
    var e := Visited(d, x, called);
    assert Since(st0, st1) == Since(st0, st) + [e];
    assert LockedKept(st0, st, q);
    AdditionsConcat(Since(st0, st), [e], q);
    assert [e][..0] == [] && Additions([e], q) == [];
    if q in st0.private && q in st.pools {
      NotVisited(st0, st, p, d, x, q);
    }
    hide VisitOk, Additions, Inv, Kept;
  }

  // Who visits an entry does not dispatch a locked private channel
  lemma NotVisited(st0: State, st: State, p: Addr, d: Addr, x: Addr, q: Addr)
    requires VisitOk(st0, st, p, d, x) && q in st0.pools && st0.pools[q].lock && q in st0.private && q in st.pools
    ensures x !in st0.pools[q].list
  {
    assert LockedKept(st0, st, q) && q != p;
    if x in st0.pools[q].list {
      assert x in st.pools[q].list;
      OneList(st, p, q, x);
    }
  }

  // A dead entry is erased under the cursor
  lemma EraseKeeps(st0: State, st: State, p: Addr, x: Addr)
    requires Inv(st) && Kept(st0, st) && Bounded(st0) && p in st.pools && x in st.pools[p].list
    requires x in st.items && !st.items[x].Live() && (p in st0.pools ==> !st0.pools[p].lock)
    ensures Inv(Erase(st, p, x)) && Kept(st0, Erase(st, p, x))
  {
    var st1 := Erase(st, p, x);
    EraseLinked(st, p, x);
    EraseKept(st0, st, p, x);
    EraseHomes(st, p, x);
    forall f <- st.futures ensures FutureOk(st1, f) {
      EraseFuture(st, p, x, f);
    }
    assert Bounded(st1) && LivesOk(st1) && OnceOk(st1) by {
      EraseLogged(st, p, x);
    }
    hide Linked, Homes, Kept, FutureOk, Unvisited, OnceOk, CallsOk, OnePool, Bounded, LivesOk;
  }

  lemma EraseLogged(st: State, p: Addr, x: Addr)
    requires Bounded(st) && LivesOk(st) && OnceOk(st) && p in st.pools
    ensures var st1 := Erase(st, p, x); Bounded(st1) && LivesOk(st1) && OnceOk(st1)
  {
  }

  lemma EraseFuture(st: State, p: Addr, x: Addr, f: Addr)
    requires p in st.pools && f in st.futures && FutureOk(st, f)
    ensures FutureOk(Erase(st, p, x), f)
  {
    WithoutMembers(st.pools[p].list, x);
  }

  lemma EraseHomes(st: State, p: Addr, x: Addr)
    requires Homes(st) && p in st.pools
    ensures Homes(Erase(st, p, x))
  {
    WithoutMembers(st.pools[p].list, x);
    forall e <- st.log ensures Home(Erase(st, p, x), e) {
      assert Home(st, e);
    }
  }

  lemma EraseLinked(st: State, p: Addr, x: Addr)
    requires Linked(st) && OnePool(st.log) && p in st.pools && x in st.pools[p].list && x in st.items && !st.items[x].Live()
    ensures Linked(Erase(st, p, x))
  {
    var st1 := Erase(st, p, x);
    assert PoolOk(st, p);
    WithoutMembers(st.pools[p].list, x);
    WithoutNoDup(st.pools[p].list, x);
    forall q <- st1.pools ensures PoolOk(st1, q) {
      assert PoolOk(st, q);
      if x in st.pools[q].list {
        OneList(st, q, p, x);
      }
    }
    forall q <- st1.pools, y <- st1.pools[q].list ensures DriverOk(st1, q, y) {
      assert PoolOk(st1, q) && y in st.pools[q].list && DriverOk(st, q, y);
    }
    forall t <- st1.subs ensures ReferenceOk(st1, t) {
      assert ReferenceOk(st, t);
    }
  }

  lemma EraseKept(st0: State, st: State, p: Addr, x: Addr)
    requires Kept(st0, st) && p in st.pools && (p in st0.pools ==> !st0.pools[p].lock)
    requires x in st.items && !st.items[x].Live()
    ensures Kept(st0, Erase(st, p, x))
  {
    var st1 := Erase(st, p, x);
    assert Since(st0, st1) == Since(st0, st);
    WithoutMembers(st.pools[p].list, x);
    assert OrphansKept(st0, st1) by {
      forall q <- st0.pools, y <- st0.items ensures OrphanKept(st0, st1, q, y) {
        assert OrphanKept(st0, st, q, y);
      }
    }
    hide OrphansKept;
    forall q <- st0.pools | st0.pools[q].lock ensures LockedKept(st0, st1, q) {
      assert LockedKept(st0, st, q);
    }
  }

  // ---------- channels and futures come and go ----------

  /** Destroying a channel keeps everything, even while it is being dispatched. */
  lemma DestroyKeeps(st: State, p: Addr)
    requires Inv(st) && p in st.pools && !Owned(st, p) && (p in st.private ==> !st.pools[p].lock)
    ensures Inv(Destroy(st, p)) && Kept(st, Destroy(st, p))
  {
    var st1 := Destroy(st, p);
    LogMore(st, Destroyed(p));
    DestroyLinked(st, p);
    DestroyLogged(st, p);
    DestroyOrphans(st, p);
    DestroyKept(st, p);
    hide Linked, Homes, Bounded, LivesOk, CallsOk, OnePool, OnceOk, Kept, Unvisited;
    forall f <- st1.futures ensures FutureOk(st1, f) {
      assert FutureOk(st, f);
      DestroyFutureOk(st, p, f);
    }
  }

  lemma DestroyFutureOk(st: State, p: Addr, f: Addr)
    requires p in st.pools && !Owned(st, p) && f in st.futures && FutureOk(st, f)
    ensures FutureOk(Destroy(st, p), f)
  {
  }

  lemma DestroyLinked(st: State, p: Addr)
    requires Linked(st) && OnePool(st.log) && p in st.pools
    ensures Linked(Destroy(st, p))
  {
    var st1 := Destroy(st, p);
    forall q <- st1.pools ensures PoolOk(st1, q) {
      assert PoolOk(st, q) && PoolOk(st, p);
      forall x <- st1.pools[q].list ensures x in st1.items {
        if x in st.pools[p].list {
          OneList(st, q, p, x);
        }
      }
    }
    forall q <- st1.pools, x <- st1.pools[q].list ensures DriverOk(st1, q, x) {
      assert PoolOk(st1, q) && DriverOk(st, q, x);
    }
    forall s <- st1.subs ensures ReferenceOk(st1, s) {
      assert ReferenceOk(st, s);
      if st1.subs[s].Some? {
        assert PoolOk(st1, st.subs[s].value.pool);
      }
    }
  }

  lemma DestroyLogged(st: State, p: Addr)
    requires Bounded(st) && LivesOk(st) && Homes(st) && OnceOk(st) && p in st.pools
    requires OnceOk(st.(log := st.log + [Destroyed(p)]))
    ensures var st1 := Destroy(st, p); Bounded(st1) && LivesOk(st1) && Homes(st1) && OnceOk(st1)
  {
    var st1 := Destroy(st, p);
    assert forall e :: e in st1.log <==> e in st.log || e == Destroyed(p);
    forall e <- st1.log ensures Home(st1, e) {
      if e != Destroyed(p) {
        assert Home(st, e);
      }
    }
  }

  // Only the orphans of the channel itself are gone
  lemma DestroyOrphans(st: State, p: Addr)
    requires Linked(st) && OnePool(st.log) && p in st.pools
    ensures OrphansKept(st, Destroy(st, p))
  {
    assert Since(st, Destroy(st, p)) == [Destroyed(p)];
    forall q <- st.pools, x <- st.items ensures OrphanKept(st, Destroy(st, p), q, x) {
      assert PoolOk(st, p) && PoolOk(st, q);
      if Orphan(st, q, x) && x in st.pools[p].list {
        OneList(st, p, q, x);
      }
    }
  }

  lemma DestroyKept(st: State, p: Addr)
    requires p in st.pools && (p in st.private ==> !st.pools[p].lock) && OrphansKept(st, Destroy(st, p))
    ensures Kept(st, Destroy(st, p))
  {
    hide OrphansKept;
    assert Since(st, Destroy(st, p)) == [Destroyed(p)];
    assert forall q :: Additions([Destroyed(p)], q) == [];
  }

  lemma NewFutureKeeps(st: State)
    requires Inv(st)
    ensures Inv(NewFuture(st)) && Kept(st, NewFuture(st))
  {
    var st1 := NewFuture(st);
    assert Since(st, st1) == [];
    SameListsLinked(st, st1);
    forall e <- st1.log ensures EventBounded(e, st1.next) {
      assert EventBounded(e, st.next);
    }
    forall f <- st1.futures ensures FutureOk(st1, f) {
      if f in st.futures {
        assert FutureOk(st, f);
      }
    }
  }

  // A future that is not settled is settled, and lets go of its channel
  lemma SettleKeeps(st: State, f: Addr, o: Outcome)
    requires Inv(st) && f in st.futures && st.futures[f].outcome == None
    ensures var st1 := SetFuture(st, f, Future(None, Some(o))); Inv(st1) && Kept(st, st1)
    ensures var st1 := SetFuture(st, f, Future(None, Some(o)));
            st.futures[f].channel.Some? ==> !Owned(st1, st.futures[f].channel.value)
  {
    var st1 := SetFuture(st, f, Future(None, Some(o)));
    assert Since(st, st1) == [];
    SameListsLinked(st, st1);
    assert FutureOk(st, f);
    forall g <- st1.futures ensures FutureOk(st1, g) {
      assert FutureOk(st, g);
    }
  }

  lemma RemoveFutureKeeps(st: State, f: Addr)
    requires Inv(st)
    ensures Inv(RemoveFuture(st, f)) && Kept(st, RemoveFuture(st, f))
  {
    var st1 := RemoveFuture(st, f);
    assert Since(st, st1) == [];
    SameListsLinked(st, st1);
    forall g <- st1.futures ensures FutureOk(st1, g) {
      assert FutureOk(st, g);
    }
  }

  // A future gets its channel with the first subscription
  lemma NewChannelKeeps(st: State, f: Addr)
    requires Inv(st) && f in st.futures && st.futures[f] == Future(None, None)
    ensures var st1 := SetFuture(NewPool(st, true), f, Future(Some(st.next), None)); Inv(st1) && Kept(st, st1)
  {
    NewPoolKeeps(st, true);
    var st2 := NewPool(st, true);
    var st1 := SetFuture(st2, f, Future(Some(st.next), None));
    assert Since(st, st1) == [];
    SameListsLinked(st2, st1);
    forall g <- st1.futures ensures FutureOk(st1, g) {
      assert FutureOk(st, g) && FutureOk(st2, g);
    }
  }

  // ---------- what a dispatch has done so far ----------

  function ItemsOf(v: seq<(Addr, bool)>): seq<Addr> { seq(|v|, i requires 0 <= i < |v| => v[i].0) }

  function CalledOf(v: seq<(Addr, bool)>): seq<Addr> {
    if v == [] then [] else CalledOf(v[..|v| - 1]) + if v[|v| - 1].1 then [v[|v| - 1].0] else []
  }

  // Everything that was in the list when the dispatch `d` began or has been added since
  function Everyone(st0: State, st: State, p: Addr): seq<Addr>
    requires st0.log <= st.log && p in st0.pools
  {
    st0.pools[p].list + Additions(Since(st0, st), p)
  }

  // The list holds the called entries, then those still to come; with the erased ones they are all there were
  predicate Books(v: seq<(Addr, bool)>, list: seq<Addr>, i: nat, everyone: seq<Addr>) {
    i <= |list| && CalledOf(v) == list[..i] && ItemsOf(v) + list[i..] == everyone
  }

  lemma BooksCall(v: seq<(Addr, bool)>, list: seq<Addr>, i: nat, everyone: seq<Addr>)
    requires Books(v, list, i, everyone) && i < |list|
    ensures Books(v + [(list[i], true)], list, i + 1, everyone)
  {
    assert (v + [(list[i], true)])[..|v|] == v;
    assert list[..i + 1] == list[..i] + [list[i]] && list[i..] == [list[i]] + list[i + 1..];
    assert ItemsOf(v + [(list[i], true)]) == ItemsOf(v) + [list[i]];
  }

  lemma BooksErase(v: seq<(Addr, bool)>, list: seq<Addr>, i: nat, everyone: seq<Addr>)
    requires Books(v, list, i, everyone) && i < |list|
    ensures Books(v + [(list[i], false)], list[..i] + list[i + 1..], i, everyone)
  {
    assert (v + [(list[i], false)])[..|v|] == v;
    var list1 := list[..i] + list[i + 1..];
    assert list1[..i] == list[..i] && list1[i..] == list[i + 1..] && list[i..] == [list[i]] + list[i + 1..];
    assert ItemsOf(v + [(list[i], false)]) == ItemsOf(v) + [list[i]];
  }

  lemma BooksGrow(v: seq<(Addr, bool)>, list: seq<Addr>, i: nat, everyone: seq<Addr>, more: seq<Addr>)
    requires Books(v, list, i, everyone)
    ensures Books(v, list + more, i, everyone + more)
  {
    assert (list + more)[..i] == list[..i] && (list + more)[i..] == list[i..] + more;
  }

  /** The dispatch `d`, begun in `st0`, stands before the entry at `i`: it has visited what
      was before, keeps what it called, and has the rest to come. */
  predicate AtCursor(st0: State, st: State, p: Addr, d: Addr, i: nat) {
    && InDispatch(st0, st, p, d)
    && i <= |st.pools[p].list|
    && (p in st.private ==> !st0.pools[p].lock && Everyone(st0, st, p) == st0.pools[p].list)
    && (p in st.private ==> forall x <- st.pools[p].list[i..] :: Unvisited(st.log, x))
    && Books(Visits(Since(st0, st), d), st.pools[p].list, i, Everyone(st0, st, p))
  }

  predicate InDispatch(st0: State, st: State, p: Addr, d: Addr) {
    && Inv(st0) && Inv(st) && Kept(st0, st) && d == st0.next < st.next
    && p in st0.pools && p in st.pools && st.pools[p].lock && !Owned(st, p)
  }

  lemma CursorStart(st0: State, p: Addr)
    requires Inv(st0) && p in st0.pools && !Owned(st0, p)
    requires p in st0.private ==> !st0.pools[p].lock && forall x <- st0.pools[p].list :: Unvisited(st0.log, x)
    ensures AtCursor(st0, Begin(st0, p), p, st0.next, 0)
  {
    BeginKeeps(st0, p);
    var st := Begin(st0, p);
    assert Since(st0, st) == [];
    assert Additions([], p) == [] && Visits([], st0.next) == [];
    hide Inv, Kept;
    assert st.pools[p].list[0..] == st.pools[p].list && st.pools[p].list[..0] == [];
  }

  lemma VisitsPlus(st0: State, st: State, p: Addr, d: Addr, x: Addr, called: bool)
    requires st0.log <= st.log && p in st0.pools
    ensures var st1 := LogVisit(st, d, x, called);
            && st0.log <= st1.log
            && Visits(Since(st0, st1), d) == Visits(Since(st0, st), d) + [(x, called)]
            && Everyone(st0, st1, p) == Everyone(st0, st, p)
  {
    var e := Visited(d, x, called);
    var a := Since(st0, st);
    assert Since(st0, LogVisit(st, d, x, called)) == a + [e];
    assert (a + [e])[..|a|] == a;
  }

  // The entry under the cursor is alive: it is called, and the cursor moves on
  lemma CursorCall(st0: State, st: State, p: Addr, d: Addr, i: nat)
    requires AtCursor(st0, st, p, d, i) && i < |st.pools[p].list|
    requires st.pools[p].list[i] in st.items && st.items[st.pools[p].list[i]].Live()
    ensures AtCursor(st0, LogVisit(st, d, st.pools[p].list[i], true), p, d, i + 1)
  {
    var list := st.pools[p].list;
    CursorVisit(st0, st, p, d, i, true);
    VisitsPlus(st0, st, p, d, list[i], true);
    BooksCall(Visits(Since(st0, st), d), list, i, Everyone(st0, st, p));
    CursorRest(st, p, d, i);
    hide Kept, Visits, Everyone, Books, Since, Inv;
  }

  lemma CursorVisit(st0: State, st: State, p: Addr, d: Addr, i: nat, called: bool)
    requires AtCursor(st0, st, p, d, i) && i < |st.pools[p].list| && st.pools[p].list[i] in st.items
    requires called == st.items[st.pools[p].list[i]].Live()
    ensures InDispatch(st0, LogVisit(st, d, st.pools[p].list[i], called), p, d)
  {
    hide Kept, Visits, Everyone, Books, Since;
    assert st.pools[p].list[i] in st.pools[p].list[i..];
    VisitKeeps(st0, st, p, d, st.pools[p].list[i], called);
  }

  // Entries after the one visited stay unvisited
  lemma CursorRest(st: State, p: Addr, d: Addr, i: nat)
    requires Inv(st) && p in st.pools && i < |st.pools[p].list|
    requires p in st.private ==> forall x <- st.pools[p].list[i..] :: Unvisited(st.log, x)
    ensures forall c: bool :: p in st.private ==>
              forall x <- st.pools[p].list[i + 1..] :: Unvisited(st.log + [Visited(d, st.pools[p].list[i], c)], x)
  {
    assert PoolOk(st, p);
    var list := st.pools[p].list;
    forall x <- list[i + 1..] | p in st.private ensures x != list[i] && Unvisited(st.log, x) {
      var j :| 0 <= j < |list[i + 1..]| && list[i + 1..][j] == x;
      assert list[i + 1 + j] == x && list[i..][j + 1] == x;
    }
    hide Inv;
    forall c: bool, x | p in st.private && x in list[i + 1..] ensures Unvisited(st.log + [Visited(d, list[i], c)], x) {
      assert x != list[i] && Unvisited(st.log, x);
    }
  }

  // The entry under the cursor is dead: an outermost dispatch erases it
  lemma CursorErase(st0: State, st: State, p: Addr, d: Addr, i: nat)
    requires AtCursor(st0, st, p, d, i) && i < |st.pools[p].list| && !st0.pools[p].lock
    requires st.pools[p].list[i] in st.items && !st.items[st.pools[p].list[i]].Live()
    ensures var x := st.pools[p].list[i];
            var st1 := Erase(LogVisit(st, d, x, false), p, x);
            && AtCursor(st0, st1, p, d, i)
            && st1.pools[p].list == st.pools[p].list[..i] + st.pools[p].list[i + 1..]
  {
    assert st0.log <= st.log;
    hide Kept, Inv, Visits, Additions, Owned;
    var list := st.pools[p].list;
    var mid := LogVisit(st, d, list[i], false);
    CursorVisit(st0, st, p, d, i, false);
    VisitsPlus(st0, st, p, d, list[i], false);
    EraseStep(st0, st, mid, p, d, i);
    CursorRest(st, p, d, i);
    hide Everyone, Books, Since, Unvisited, InDispatch;
    assert (list[..i] + list[i + 1..])[i..] == list[i + 1..];
  }

  lemma EraseStep(st0: State, st: State, mid: State, p: Addr, d: Addr, i: nat)
    requires AtCursor(st0, st, p, d, i) && i < |st.pools[p].list| && !st0.pools[p].lock
    requires st.pools[p].list[i] in st.items && !st.items[st.pools[p].list[i]].Live()
    requires mid == LogVisit(st, d, st.pools[p].list[i], false) && InDispatch(st0, mid, p, d)
    ensures var list := st.pools[p].list;
            var st1 := Erase(mid, p, list[i]);
            && InDispatch(st0, st1, p, d) && Since(st0, st1) == Since(st0, mid) && Everyone(st0, st1, p) == Everyone(st0, mid, p)
            && st1.pools[p].list == list[..i] + list[i + 1..]
            && Books(Visits(Since(st0, st), d) + [(list[i], false)], st1.pools[p].list, i, Everyone(st0, st, p))
  {
    var list := st.pools[p].list;
    EraseInDispatch(st0, mid, p, d, list[i]);
    ListNoDup(st, p);
    WithoutAt(list, i);
    BooksErase(Visits(Since(st0, st), d), list, i, Everyone(st0, st, p));
    hide Kept, Visits, Additions, Books, Inv, InDispatch, NoDup, Without;
  }

  lemma ListNoDup(st: State, p: Addr)
    requires Inv(st) && p in st.pools
    ensures NoDup(st.pools[p].list)
  {
    assert PoolOk(st, p);
  }

  lemma EraseInDispatch(st0: State, mid: State, p: Addr, d: Addr, x: Addr)
    requires InDispatch(st0, mid, p, d) && x in mid.pools[p].list && x in mid.items && !mid.items[x].Live() && !st0.pools[p].lock
    ensures InDispatch(st0, Erase(mid, p, x), p, d)
  {
    EraseKeeps(st0, mid, p, x);
    hide Kept, Inv;
  }

  lemma {:induction false} WithoutAt(s: seq<Addr>, i: nat)
    requires NoDup(s) && i < |s|
    ensures Without(s, s[i]) == s[..i] + s[i + 1..]
  {
    if i == 0 {
      WithoutNone(s[1..], s[0]);
    } else {
      WithoutAt(s[1..], i - 1);
    }
  }

  lemma {:induction false} WithoutNone(s: seq<Addr>, x: Addr)
    requires x !in s
    ensures Without(s, x) == s
  {
    if s != [] {
      WithoutNone(s[1..], x);
    }
  }

  // A handler's doings: unless the channel is gone the list may have grown, and nothing else matters to the cursor
  lemma CursorHandler(st0: State, st: State, st1: State, p: Addr, d: Addr, i: nat)
    requires AtCursor(st0, st, p, d, i) && Inv(st1) && Kept(st, st1) && p in st1.pools
    ensures AtCursor(st0, st1, p, d, i) && st.pools[p].list <= st1.pools[p].list
  {
    assert LockedKept(st, st1, p);
    var more := Additions(Since(st, st1), p);
    HandlerLog(st0, st, st1, p, d);
    BooksGrow(Visits(Since(st0, st), d), st.pools[p].list, i, Everyone(st0, st, p), more);
    HandlerRest(st, st1, p, i);
    assert InDispatch(st0, st1, p, d);
    hide Kept, Visits, Everyone, Books, Since, Inv;
  }

  lemma HandlerLog(st0: State, st: State, st1: State, p: Addr, d: Addr)
    requires Kept(st0, st) && Kept(st, st1) && Bounded(st0) && p in st0.pools && d < st.next
    ensures Kept(st0, st1) && Visits(Since(st0, st1), d) == Visits(Since(st0, st), d)
    ensures Everyone(st0, st1, p) == Everyone(st0, st, p) + Additions(Since(st, st1), p)
  {
    KeptTrans(st0, st, st1);
    SinceSplit(st0, st, st1);
    var more := Since(st, st1);
    NoVisits(st, more, d);
    VisitsConcat(Since(st0, st), more, d);
    AdditionsConcat(Since(st0, st), more, p);
    hide Kept;
  }

  lemma HandlerRest(st: State, st1: State, p: Addr, i: nat)
    requires Kept(st, st1) && p in st.pools && p in st1.pools && st.pools[p].lock && i <= |st.pools[p].list|
    requires p in st1.private ==> p in st.private && forall x <- st.pools[p].list[i..] :: Unvisited(st.log, x)
    ensures LockedKept(st, st1, p)
    ensures p in st1.private ==> forall x <- st1.pools[p].list[i..] :: Unvisited(st1.log, x)
  {
    assert LockedKept(st, st1, p);
    if p in st1.private {
      assert st1.pools[p].list == st.pools[p].list + [];
      forall x <- st1.pools[p].list[i..] ensures Unvisited(st1.log, x) {
        assert x in st.pools[p].list[i..] && x in st.pools[p].list;
        assert st1.log == st.log + Since(st, st1);
        assert Unvisited(st.log, x) && Unvisited(Since(st, st1), x);
      }
    }
  }

  lemma {:induction false} NoVisits(st: State, more: seq<Event>, d: Addr)
    requires d < st.next && forall e <- more :: EventNew(st, e)
    ensures Visits(more, d) == []
  {
    if more != [] {
      assert EventNew(st, more[|more| - 1]);
      NoVisits(st, more[..|more| - 1], d);
    }
  }

  /** The entry `r` has been killed: dead if its pool is locked, and else no longer there. */
  predicate Discarded(st: State, st1: State, r: Reference)
  {
    && st1.log == st.log + [Killed(r.item)]
    && r.pool in st.pools
    && if st.pools[r.pool].lock then st1.pools == st.pools && st1.items == st.items[r.item := Item(false, None)]
       else st1.items == st.items - {r.item} &&
            st1.pools == st.pools[r.pool := Pool(false, Without(st.pools[r.pool].list, r.item))]
  }

  lemma CancelMeans(st: State, s: Addr)
    requires s in st.subs && st.subs[s].Some? && ReferenceOk(st, s)
    ensures Cancel(st, s).subs == st.subs[s := None] && Discarded(st, Cancel(st, s), st.subs[s].value)
    ensures Cancel(st, s).futures == st.futures && Cancel(st, s).private == st.private
  {
  }

  lemma DestroyMeans(st: State, p: Addr)
    requires p in st.pools
    ensures var st1 := Destroy(st, p);
            && st1.pools == st.pools - {p} && st1.log == st.log + [Destroyed(p)] && st1.subs.Keys == st.subs.Keys
            && (forall x :: x in st1.items <==> x in st.items && x !in st.pools[p].list)
            && (forall s <- st1.subs ::
                  st1.subs[s] == if st.subs[s].Some? && st.subs[s].value.pool == p then None else st.subs[s])
  {
  }

  lemma DropMeans(st: State, s: Addr)
    requires s in st.subs && st.subs[s].Some? && ReferenceOk(st, s)
    ensures var (x, st1) := (st.subs[s].value.item, Drop(st, s));
            && st1.subs == st.subs - {s}
            && (if st.items[x].pinned then st1.pools == st.pools && st1.log == st.log && st1.items == st.items[x := Item(true, None)]
                else Discarded(st, st1, st.subs[s].value))
  {
  }

  // ---------- the runtime ----------

  /** Why a call does not come back: a dispatch stands for ever before a dead entry that it may
      not erase, or its cursor is used when its channel is gone. */
  datatype Fault = Fine | Stuck(pool: Addr, item: Addr) | Dangling(pool: Addr)

  // Whether handlers dispatch channels that are being dispatched, and destroy them
  datatype Liberty = Liberty(nest: bool, raze: bool)

  datatype SetResult = Done | ThrowsCancelled | ThrowsBadState

  predicate StuckAt(st: State, p: Addr, x: Addr) {
    p in st.pools && st.pools[p].lock && x in st.pools[p].list && x in st.items && !st.items[x].Live()
  }

  // What a fault tells about the state in which it shows, when all began in `st0`
  predicate Explained(st0: State, st: State, fault: Fault) {
    match fault
    case Fine => true
    case Stuck(p, x) => StuckAt(st, p, x)
    case Dangling(p) => st0.log <= st.log && Destroyed(p) in Since(st0, st) && p !in st.pools
  }

  // The channels being dispatched are still there
  predicate Standing(a: State, b: State) { forall p <- a.pools | a.pools[p].lock :: p in b.pools }

  /** What everything that handlers do guarantees: the invariant, what every run keeps, and
      that only the liberties taken lead to faults. */
  predicate Behaved(a: State, b: State, may: Liberty, fault: Fault) {
    && Inv(b) && Kept(a, b) && Explained(a, b, fault)
    && (fault.Stuck? ==> may.nest) && (fault.Dangling? ==> may.raze)
    && (!may.raze ==> Standing(a, b))
  }

  predicate AllLive(st: State, p: Addr) {
    p in st.pools ==> forall x <- st.pools[p].list :: x in st.items && st.items[x].Live()
  }

  predicate DeadAt(st: State, p: Addr, i: nat) {
    p in st.pools && i < |st.pools[p].list| && st.pools[p].list[i] in st.items && !st.items[st.pools[p].list[i]].Live()
  }

  // Nothing that is in the list by now has been killed since
  predicate KillsNone(st0: State, st: State, p: Addr) {
    st0.log <= st.log && p in st.pools && forall x <- st.pools[p].list :: Killed(x) !in Since(st0, st)
  }

  // How a dispatch of `p` goes on when its handler has come back
  function Resumed(pools: map<Addr, Pool>, p: Addr, fault: Fault): Fault {
    if fault.Fine? && p !in pools then Dangling(p) else fault
  }

  // Entries have been visited since, and nothing else has happened
  predicate Quiet(st0: State, st: State) { st0.log <= st.log && forall e <- Since(st0, st) :: e.Visited? }

  // What a dispatch under way keeps to; `quiet` if no handler has done anything
  predicate Under(st0: State, st: State, may: Liberty, quiet: bool) {
    Kept(st0, st) && (!may.raze ==> Standing(st0, st)) && (quiet ==> Quiet(st0, st))
  }

  class Memory {
    var pools: map<Addr, Pool>
    var items: map<Addr, Item>
    var subs: map<Addr, Option<Reference>>
    var futures: map<Addr, Future>
    var private: set<Addr>
    var next: Addr
    ghost var log: seq<Event>

    constructor ()
      ensures View() == State(map[], map[], map[], map[], {}, 0, []) && Inv(View())
    {
      pools, items, subs, futures, private, next, log := map[], map[], map[], map[], {}, 0, [];
    }

    ghost function View(): State reads this { State(pools, items, subs, futures, private, next, log) }

    // ---------- subscriptions ----------

    method Pin(s: Addr) returns (r: bool)
      requires Inv(View()) && s in subs
      modifies this`items
      ensures r == (subs[s].Some? && !old(items)[subs[s].value.item].pinned)
      ensures View() == if subs[s].Some? then SetPinned(old(View()), subs[s].value.item, true) else old(View())
      ensures subs[s].Some? ==> items == old(items)[subs[s].value.item := Item(true, Some(s))]
      ensures subs[s].None? ==> items == old(items)
      ensures Inv(View()) && Kept(old(View()), View())
    {
      assert ReferenceOk(View(), s);
      KeptSelf(View());
      if subs[s] == None {
        return false;
      }
      var x := subs[s].value.item;
      SetPinnedKeeps(View(), x, true);
      r := !items[x].pinned;
      items := items[x := items[x].(pinned := true)];
    }

    method Unpin(s: Addr) returns (r: bool)
      requires Inv(View()) && s in subs
      modifies this`items
      ensures r == (subs[s].Some? && old(items)[subs[s].value.item].pinned)
      ensures View() == if subs[s].Some? then SetPinned(old(View()), subs[s].value.item, false) else old(View())
      ensures subs[s].Some? ==> items == old(items)[subs[s].value.item := Item(false, Some(s))]
      ensures subs[s].None? ==> items == old(items)
      ensures Inv(View()) && Kept(old(View()), View())
    {
      assert ReferenceOk(View(), s);
      KeptSelf(View());
      if subs[s] == None {
        return false;
      }
      var x := subs[s].value.item;
      SetPinnedKeeps(View(), x, false);
      r := items[x].pinned;
      items := items[x := items[x].(pinned := false)];
    }

    method EraseEntry(p: Addr, x: Addr)
      requires p in pools
      modifies this`pools, this`items
      ensures View() == Erase(old(View()), p, x)
    {
      pools := pools[p := pools[p].(list := Without(pools[p].list, x))];
      items := items - {x};
    }

    /** Cancels a subscription: it was active, and from now on its handler is not called. */
    method CancelSubscription(s: Addr) returns (r: bool)
      requires Inv(View()) && s in subs
      modifies this
      ensures ReferenceOk(old(View()), s) && View() == Cancel(old(View()), s)
      ensures r == old(subs[s]).Some? && subs == old(subs)[s := None]
      ensures futures == old(futures) && private == old(private)
      ensures !r ==> pools == old(pools) && items == old(items) && log == old(log)
      ensures r ==> Discarded(old(View()), View(), old(subs[s]).value)
      ensures Inv(View()) && Kept(old(View()), View()) && pools.Keys == old(pools).Keys
    {
      hide Inv, Kept, Without;
      CancelKeeps(View(), s);
      ghost var st := View();
      if subs[s] == None {
        return false;
      }
      CancelMeans(st, s);
      hide ReferenceOk, Discarded;
      var r0 := subs[s].value;
      ghost var mid := st.(subs := st.subs[s := None], log := st.log + [Killed(r0.item)]);
      assert pools[r0.pool].lock ==> Cancel(st, s) == mid.(items := st.items[r0.item := Item(false, None)]);
      assert !pools[r0.pool].lock ==> Cancel(st, s) == Erase(mid, r0.pool, r0.item);
      hide Cancel, LetGo, Erase;
      subs := subs[s := None];
      log := log + [Killed(r0.item)];
      assert View() == mid;
      if pools[r0.pool].lock {
        items := items[r0.item := Item(false, None)];
      } else {
        EraseEntry(r0.pool, r0.item);
      }
      r := true;
    }

    /** The destructor of a subscription. A pinned entry stays in its list, alive; another one
        is killed. */
    method DropSubscription(s: Addr)
      requires Inv(View()) && s in subs
      modifies this
      ensures ReferenceOk(old(View()), s) && View() == Drop(old(View()), s)
      ensures subs == old(subs) - {s} && private == old(private)
      ensures old(subs[s]).None? ==> pools == old(pools) && items == old(items) && log == old(log)
      ensures old(subs[s]).Some? && old(items)[old(subs[s]).value.item].pinned ==>
                && pools == old(pools) && log == old(log)
                && items == old(items)[old(subs[s]).value.item := Item(true, None)]
      ensures old(subs[s]).Some? && !old(items)[old(subs[s]).value.item].pinned ==>
                Discarded(old(View()), View(), old(subs[s]).value)
      ensures Inv(View()) && Kept(old(View()), View()) && pools.Keys == old(pools).Keys
    {
      hide Inv, Kept, Without;
      DropKeeps(View(), s);
      ghost var st := View();
      var ref := subs[s];
      subs := subs - {s};
      if ref == None {
        return;
      }
      DropMeans(st, s);
      hide ReferenceOk, Discarded;
      var r0 := ref.value;
      var it := items[r0.item];
      assert Drop(st, s) ==
             LetGo(st, s, true, !it.pinned, if pools[r0.pool].lock || it.pinned then Some(Item(it.pinned, None)) else None);
      if !it.pinned {
        log := log + [Killed(r0.item)];
      }
      assert View() == st.(subs := st.subs - {s}, log := if !it.pinned then st.log + [Killed(r0.item)] else st.log);
      hide Drop;
      if pools[r0.pool].lock || it.pinned {
        items := items[r0.item := it.(driver := None)];
      } else {
        EraseEntry(r0.pool, r0.item);
      }
    }

    // ---------- channels ----------

    method NewChannel(owned: bool) returns (p: Addr)
      requires Inv(View())
      modifies this
      ensures p == old(next) && View() == NewPool(old(View()), owned)
      ensures pools == old(pools)[p := Pool(false, [])] && items == old(items) && subs == old(subs) && log == old(log)
      ensures Inv(View()) && Kept(old(View()), View())
    {
      NewPoolKeeps(View(), owned);
      hide Inv, Kept;
      p := next;
      pools := pools[p := Pool(false, [])];
      private := if owned then private + {p} else private;
      next := next + 1;
    }

    method Subscribe(p: Addr) returns (s: Addr)
      requires Inv(View()) && p in pools && (p in private ==> !pools[p].lock)
      modifies this
      ensures View() == AddItem(old(View()), p) && s == old(next) + 1
      ensures items == old(items)[old(next) := Item(false, Some(s))] && subs == old(subs)[s := Some(Reference(p, old(next)))]
      ensures pools == old(pools)[p := Pool(old(pools[p]).lock, old(pools[p]).list + [old(next)])]
      ensures log == old(log) + [Subscribed(p, old(next))] && private == old(private)
      ensures Inv(View()) && Kept(old(View()), View())
    {
      AddItemKeeps(View(), p);
      var x := next;
      s := next + 1;
      assert AddItem(View(), p) ==
             State(pools[p := pools[p].(list := pools[p].list + [x])], items[x := Item(false, Some(s))],
                   subs[s := Some(Reference(p, x))], futures, private, next + 2, log + [Subscribed(p, x)]);
      hide Inv, Kept, AddItem;
      items := items[x := Item(false, Some(s))];
      pools := pools[p := pools[p].(list := pools[p].list + [x])];
      subs := subs[s := Some(Reference(p, x))];
      next, log := next + 2, log + [Subscribed(p, x)];
    }

    // Every subscription still linked to the channel loses its reference
    method DetachAll(p: Addr)
      requires p in pools && ListOk(View(), p)
      modifies this`subs
      ensures subs == Detached(old(View()), p, pools[p].list)
    {
      var list := pools[p].list;
      ghost var st := View();
      assert Detached(st, p, list[..0]) == subs;
      hide Detached;
      for i := 0 to |list|
        invariant subs == Detached(st, p, list[..i])
      {
        var x := list[i];
        DetachedNext(st, p, list[..i], x);
        assert list[..i + 1] == list[..i] + [x];
        if items[x].driver.Some? {
          subs := subs[items[x].driver.value := None];
        }
      }
      assert list[..|list|] == list;
    }

    // The destructor of a channel; nothing keeps it from running while the channel is dispatched
    method DestroyChannel(p: Addr)
      requires Inv(View()) && p in pools && !Owned(View(), p) && (p in private ==> !pools[p].lock)
      modifies this
      ensures View() == Destroy(old(View()), p)
      ensures pools == old(pools) - {p} && log == old(log) + [Destroyed(p)] && subs.Keys == old(subs).Keys
      ensures forall x :: x in items <==> x in old(items) && x !in old(pools[p]).list
      ensures forall s <- subs :: subs[s] == if old(subs)[s].Some? && old(subs)[s].value.pool == p then None else old(subs)[s]
      ensures Inv(View()) && Kept(old(View()), View())
    {
      hide Inv, Kept, Owned, Detached, ListOk;
      DestroyKeeps(View(), p);
      DetachedAll(View(), p);
      ListLinked(View(), p);
      DestroyMeans(View(), p);
      var dead := set x <- pools[p].list;
      assert Destroy(View(), p) ==
             State(pools - {p}, items - dead, Detached(View(), p, pools[p].list), futures, private, next, log + [Destroyed(p)]);
      hide Destroy;
      DetachAll(p);
      pools := pools - {p};
      items := items - dead;
      log := log + [Destroyed(p)];
    }

    /** Visits every entry of a channel, those that handlers add included. `budget` bounds
        what all handlers together still do, `left` is what they have left of it, and `may`
        says what they may do to channels that are being dispatched. */
    method Dispatch(p: Addr, budget: nat, may: Liberty) returns (fault: Fault, any: bool, left: nat)
      requires Inv(View()) && p in pools && !Owned(View(), p)
      requires p in private ==> !pools[p].lock && forall x <- pools[p].list :: Unvisited(log, x)
      modifies this
      ensures Inv(View()) && Kept(old(View()), View()) && left <= budget && Explained(old(View()), View(), fault)
      ensures fault.Fine? ==> Finished(old(View()), View(), p) && any == (old(pools[p]).list != [])
      ensures fault.Fine? && old(pools[p]).lock ==> AllLive(old(View()), p)
      ensures fault.Stuck? && !may.nest ==> fault.pool == p && old(pools[p]).lock
      ensures left == budget ==> fault.Fine? || (fault.Stuck? && fault.pool == p)
      ensures left == budget ==> (fault.Stuck? <==> old(pools[p]).lock && !AllLive(old(View()), p))
      ensures (fault.Dangling? ==> may.raze) && (!may.raze ==> Standing(old(View()), View()))
      ensures may == Liberty(false, false) && old(pools[p]).lock && KillsNone(old(View()), View(), p) ==>
                (fault.Fine? <==> AllLive(old(View()), p))
      decreases budget, 2, 0
    {
      hide Inv, Kept, AtCursor, Owned, Finished, Unvisited, Explained, Standing, Under, AllLive, KillsNone;
      ghost var st0 := View();
      fault, left := Fine, budget;
      if pools[p].list == [] {
        NothingToVisit(st0, p);
        return Fine, false, budget;
      }
      any := true;
      var lockHere := !pools[p].lock;
      ghost var d := next;
      CursorStart(st0, p);
      DispatchBegun(st0, p, may);
      if lockHere {
        pools := pools[p := pools[p].(lock := true)];
      }
      next := next + 1;
      assert View() == Begin(st0, p);
      hide Begin;
      fault, left := VisitAll(p, lockHere, budget, may, st0, d);
      ghost var st := View();
      if !fault.Fine? {
        DispatchFault(st0, st, may, fault, left == budget);
        return;
      }
      DispatchDone(st0, st, p, d, lockHere, may, left == budget);
      if lockHere {
        pools := pools[p := pools[p].(lock := false)];
      }
      assert View() == if lockHere then SetLock(st, p, false) else st;
    }

    // The loop of a dispatch over a list that is not empty
    method VisitAll(p: Addr, lockHere: bool, budget: nat, may: Liberty, ghost st0: State, ghost d: Addr)
      returns (fault: Fault, left: nat)
      requires AtCursor(st0, View(), p, d, 0) && p in pools && pools[p].list != [] && lockHere == !st0.pools[p].lock
      requires Under(st0, View(), may, true)
      modifies this
      ensures Inv(View()) && left <= budget && Under(st0, View(), may, left == budget) && Explained(st0, View(), fault)
      ensures fault.Fine? ==> p in pools && AtCursor(st0, View(), p, d, |pools[p].list|)
      ensures fault.Stuck? && !may.nest ==> fault.pool == p && !lockHere
      ensures left == budget ==> fault.Fine? || (fault.Stuck? && fault.pool == p && !lockHere)
      ensures fault.Dangling? ==> may.raze
      decreases budget, 1, 1
    {
      fault, left := Fine, budget;
      assert p in st0.pools;
      hide Inv, Kept, AtCursor, Explained, Standing, Under, DeadAt, Quiet;
      var i: nat := 0;
      while true
        invariant AtCursor(st0, View(), p, d, i) && p in pools && i < |pools[p].list|
        invariant left <= budget && Under(st0, View(), may, left == budget)
        decreases left, |pools[p].list| - i
      {
        ghost var st1, before := View(), left;
        fault, i, left := VisitEntry(p, i, lockHere, left, may, st0, d);
        UnderVisit(st0, st1, View(), may, fault, before == budget, left == budget);
        if !fault.Fine? {
          return;
        }
        if i == |pools[p].list| {
          CursorState(st0, View(), p, d, i);
          return;
        }
      }
    }

    /** One turn of a dispatch: an entry that is alive or pinned is called, a dead one is
        erased if the dispatch has locked the pool, and otherwise not passed. */
    method VisitEntry(p: Addr, i: nat, lockHere: bool, budget: nat, may: Liberty, ghost st0: State, ghost d: Addr)
      returns (fault: Fault, j: nat, left: nat)
      requires AtCursor(st0, View(), p, d, i) && p in pools && i < |pools[p].list| && lockHere == !st0.pools[p].lock
      modifies this
      ensures Inv(View()) && Kept(st0, View()) && left <= budget && Explained(old(View()), View(), fault)
      ensures fault.Fine? ==> AtCursor(st0, View(), p, d, j) && p in pools && j <= |pools[p].list|
      ensures DeadAt(old(View()), p, i) ==> fault == if lockHere then Fine else Stuck(p, old(pools[p]).list[i])
      ensures DeadAt(old(View()), p, i) ==> left == budget && j == i
      ensures !DeadAt(old(View()), p, i) ==> j == i + 1 && (fault.Stuck? ==> may.nest) && (left == budget ==> fault.Fine?)
      ensures (fault.Dangling? ==> may.raze) && (!may.raze ==> Standing(old(View()), View()))
      ensures left == budget && Quiet(st0, old(View())) ==> Quiet(st0, View())
      ensures fault.Fine? && left == budget ==> |pools[p].list| - j < |old(pools[p]).list| - i
      decreases budget, 1, 0
    {
      hide Inv, Kept, AtCursor, Owned, Quiet;
      CursorInMemory(View(), p, i, st0, d);
      left := budget;
      var it := items[pools[p].list[i]];
      if it.pinned || it.driver.Some? {
        ghost var st := View();
        fault, left := CallEntry(p, i, budget, may, st0, d);
        j := i + 1;
        QuietVisit(st0, st, d, st.pools[p].list[i], true);
      } else if lockHere {
        ErasePassed(p, i, st0, d);
        fault, j := Fine, i;
      } else {
        fault, j := Stuck(p, pools[p].list[i]), i;
      }
    }

    // Calls the handler of an entry
    method CallEntry(p: Addr, i: nat, budget: nat, may: Liberty, ghost st0: State, ghost d: Addr)
      returns (fault: Fault, left: nat)
      requires AtCursor(st0, View(), p, d, i) && p in pools && i < |pools[p].list|
      requires pools[p].list[i] in items && items[pools[p].list[i]].Live()
      modifies this
      ensures Inv(View()) && Kept(st0, View()) && left <= budget && Explained(old(View()), View(), fault)
      ensures fault.Fine? ==> AtCursor(st0, View(), p, d, i + 1) && p in pools && i < |pools[p].list|
      ensures (fault.Stuck? ==> may.nest) && (fault.Dangling? ==> may.raze) && (!may.raze ==> Standing(old(View()), View()))
      ensures left == budget ==> fault.Fine? && View() == LogVisit(old(View()), d, old(pools[p]).list[i], true)
      decreases budget, 0, 1
    {
      hide Inv, Kept, AtCursor, Behaved, Explained, Standing;
      ghost var st := View();
      CursorCall(st0, st, p, d, i);
      log := log + [Visited(d, pools[p].list[i], true)];
      ghost var st1 := View();
      assert st1 == LogVisit(st, d, pools[p].list[i], true);
      hide LogVisit;
      CursorState(st0, st1, p, d, i + 1);
      fault, left := RunHandler(budget, may);
      HandlerReturned(st0, st, View(), p, d, i, may, fault);
      fault := Resumed(pools, p, fault);
    }

    // Erases a dead entry the outermost dispatch comes to
    method ErasePassed(p: Addr, i: nat, ghost st0: State, ghost d: Addr)
      requires AtCursor(st0, View(), p, d, i) && p in pools && i < |pools[p].list| && p in st0.pools && !st0.pools[p].lock
      requires pools[p].list[i] in items && !items[pools[p].list[i]].Live()
      modifies this
      ensures Inv(View()) && AtCursor(st0, View(), p, d, i) && p in pools && Kept(st0, View())
      ensures |pools[p].list| == |old(pools[p]).list| - 1 >= i && pools.Keys == old(pools).Keys
      ensures Quiet(st0, old(View())) ==> Quiet(st0, View())
    {
      hide Inv, Kept, AtCursor, Quiet, Without;
      ghost var st := View();
      EraseTurn(st0, st, p, d, i);
      var x := pools[p].list[i];
      log := log + [Visited(d, x, false)];
      assert View() == LogVisit(st, d, x, false);
      EraseEntry(p, x);
    }

    /** What a handler may do, any number of times: make, dispatch and destroy channels,
        subscribe, pin, unpin, cancel and drop, and make, settle, await and destroy futures. */
    method RunHandler(budget: nat, may: Liberty) returns (fault: Fault, left: nat)
      requires Inv(View())
      modifies this
      ensures Behaved(old(View()), View(), may, fault) && left <= budget
      ensures left == budget ==> fault.Fine? && View() == old(View())
      decreases budget, 0, 0
    {
      ghost var st0 := View();
      BehavedSelf(st0, may);
      hide Inv, Behaved;
      fault, left := Fine, budget;
      while left > 0
        invariant Behaved(st0, View(), may, Fine) && left <= budget && fault.Fine?
        invariant left == budget ==> View() == st0
        decreases left
      {
        if * {
          return;
        }
        ghost var st1 := View();
        BehavedTells(st0, st1, may, Fine);
        fault, left := HandlerStep(left - 1, may);
        BehavedTrans(st0, st1, View(), may, fault);
        if !fault.Fine? {
          return;
        }
      }
    }

    method HandlerStep(budget: nat, may: Liberty) returns (fault: Fault, left: nat)
      requires Inv(View())
      modifies this
      ensures Behaved(old(View()), View(), may, fault) && left <= budget
      decreases budget, 5
    {
      hide Inv, Kept;
      fault, left := Fine, budget;
      var open := set p | p in pools && p !in private;
      var a;
      if
      case true => a := NewChannel(false);
      case true => a := NewFutureState();
      case subs.Keys != {} =>
        var s :| s in subs;
        SubscriptionStep(s);
      case open != {} =>
        var p :| p in open;
        fault, left := ChannelStep(p, budget, may);
      case futures.Keys != {} =>
        var f :| f in futures;
        fault, left := FutureStep(f, budget, may);
    }

    method SubscriptionStep(s: Addr)
      requires Inv(View()) && s in subs
      modifies this
      ensures Inv(View()) && Kept(old(View()), View()) && pools.Keys == old(pools).Keys
    {
      hide Inv, Kept;
      var r;
      if
      case true => r := Pin(s);
      case true => r := Unpin(s);
      case true => r := CancelSubscription(s);
      case true => DropSubscription(s);
    }

    method ChannelStep(p: Addr, budget: nat, may: Liberty) returns (fault: Fault, left: nat)
      requires Inv(View()) && p in pools && p !in private
      modifies this
      ensures Behaved(old(View()), View(), may, fault) && left <= budget
      decreases budget, 4
    {
      PublicNotOwned(View());
      hide Inv, Kept, Owned, Unvisited, Finished, AllLive;
      fault, left := Fine, budget;
      if
      case true =>
        var s := Subscribe(p);
      case may.raze || !pools[p].lock => DestroyChannel(p);
      case may.nest || !pools[p].lock =>
        var any;
        fault, any, left := Dispatch(p, budget, may);
    }

    method FutureStep(f: Addr, budget: nat, may: Liberty) returns (fault: Fault, left: nat)
      requires Inv(View()) && f in futures
      modifies this
      ensures Behaved(old(View()), View(), may, fault) && left <= budget
      decreases budget, 4
    {
      hide Inv, Behaved, Notified;
      if
      case true =>
        var v, r := *, Done;
        r, fault, left := Set(f, v, budget, may);
      case true =>
        var e, ok := *, false;
        ok, fault, left := SetException(f, e, budget, may);
      case true =>
        var ok;
        ok, fault, left := CancelFuture(f, budget, may);
      case true =>
        var s;
        s, fault, left := SubscribeFuture(f, budget, may);
      case true => fault, left := DestroyFuture(f, budget, may);
    }

    // ---------- futures ----------

    method NewFutureState() returns (f: Addr)
      requires Inv(View())
      modifies this
      ensures f == old(next) && View() == NewFuture(old(View()))
      ensures futures == old(futures)[f := Future(None, None)] && pools == old(pools) && items == old(items)
      ensures Inv(View()) && Kept(old(View()), View())
    {
      NewFutureKeeps(View());
      hide Inv, Kept;
      f := next;
      futures := futures[f := Future(None, None)];
      next := next + 1;
    }

    // The channel a future lets go of: dispatched once, then destroyed
    method Notify(c: Addr, budget: nat, may: Liberty) returns (fault: Fault, left: nat)
      requires Inv(View()) && ReadyToNotify(View(), c)
      modifies this
      ensures Behaved(old(View()), View(), may, fault) && left <= budget
      ensures fault.Fine? ==> Notified(old(View()), View(), c)
      decreases budget, 3, 0
    {
      ghost var st0 := View();
      var any;
      fault, any, left := Dispatch(c, budget, may);
      if !fault.Fine? {
        return;
      }
      ghost var st1 := View();
      NobodyOwns(st0, st1, c);
      DestroyChannel(c);
      NotifiedBehaved(st0, st1, c, may);
      NotifiedAll(st0, st1, c);
    }

    /** Settles a future that is not settled yet, and notifies everybody who subscribed. */
    method Settle(f: Addr, o: Outcome, budget: nat, may: Liberty) returns (ok: bool, fault: Fault, left: nat)
      requires Inv(View()) && f in futures
      modifies this
      ensures Behaved(old(View()), View(), may, fault) && left <= budget
      ensures ok == (old(futures[f]).outcome == None)
      ensures !ok ==> View() == old(View()) && fault.Fine?
      ensures fault.Fine? && ok && f in futures ==> futures[f].outcome == Some(o)
      ensures fault.Fine? && ok && old(futures[f]).channel.Some? ==> Notified(old(View()), View(), old(futures[f]).channel.value)
      decreases budget, 3, 1
    {
      ghost var st0 := View();
      BehavedSelf(st0, may);
      fault, left := Fine, budget;
      if futures[f].outcome.Some? {
        return false, Fine, budget;
      }
      ok := true;
      var channel := futures[f].channel;
      SettleKeeps(st0, f, o);
      assert FutureOk(st0, f);
      futures := futures[f := Future(None, Some(o))];
      ghost var st1 := View();
      BehavedFuture(st0, st1, may);
      hide Inv, Kept, Owned, Unvisited, Behaved;
      if channel.Some? {
        fault, left := Notify(channel.value, budget, may);
        BehavedTells(st1, View(), may, fault);
        BehavedTrans(st0, st1, View(), may, fault);
        SettledStays(st1, View(), f, o);
        if fault.Fine? {
          NotifiedSince(st0, st1, View(), channel.value);
        }
      }
    }

    method Set(f: Addr, v: int, budget: nat, may: Liberty) returns (r: SetResult, fault: Fault, left: nat)
      requires Inv(View()) && f in futures
      modifies this
      ensures Behaved(old(View()), View(), may, fault) && left <= budget
      ensures r.Done? <==> old(futures[f]).outcome == None
      ensures r.ThrowsCancelled? <==> old(futures[f]).outcome == Some(Cancelled)
      ensures !r.Done? ==> View() == old(View()) && fault.Fine?
      ensures r.Done? && fault.Fine? && f in futures ==> futures[f].outcome == Some(Value(v))
      decreases budget, 3, 2
    {
      BehavedSelf(View(), may);
      hide Inv, Behaved, Notified;
      if futures[f].outcome == Some(Cancelled) {
        return ThrowsCancelled, Fine, budget;
      }
      if futures[f].outcome.Some? {
        return ThrowsBadState, Fine, budget;
      }
      var ok;
      ok, fault, left := Settle(f, Value(v), budget, may);
      r := Done;
    }

    method SetException(f: Addr, e: Option<int>, budget: nat, may: Liberty) returns (ok: bool, fault: Fault, left: nat)
      requires Inv(View()) && f in futures
      modifies this
      ensures Behaved(old(View()), View(), may, fault) && left <= budget
      ensures ok == (e.Some? && old(futures[f]).outcome == None)
      ensures !ok ==> View() == old(View()) && fault.Fine?
      ensures ok && fault.Fine? && f in futures ==> futures[f].outcome == Some(Error(e.value))
      decreases budget, 3, 2
    {
      BehavedSelf(View(), may);
      hide Inv, Behaved, Notified;
      if e == None {
        return false, Fine, budget;
      }
      ok, fault, left := Settle(f, Error(e.value), budget, may);
    }

    method CancelFuture(f: Addr, budget: nat, may: Liberty) returns (ok: bool, fault: Fault, left: nat)
      requires Inv(View()) && f in futures
      modifies this
      ensures Behaved(old(View()), View(), may, fault) && left <= budget
      ensures ok == (old(futures[f]).outcome == None)
      ensures !ok ==> View() == old(View()) && fault.Fine?
      ensures ok && fault.Fine? && f in futures ==> futures[f].outcome == Some(Cancelled)
      decreases budget, 3, 2
    {
      hide Inv, Behaved, Notified;
      ok, fault, left := Settle(f, Cancelled, budget, may);
    }

    /** Awaits a future: a settled one calls the handler at once and gives no subscription,
        another one subscribes it to its channel. */
    method SubscribeFuture(f: Addr, budget: nat, may: Liberty) returns (s: Option<Addr>, fault: Fault, left: nat)
      requires Inv(View()) && f in futures
      modifies this
      ensures Behaved(old(View()), View(), may, fault) && left <= budget
      ensures s.Some? <==> old(futures[f]).outcome == None
      ensures s.None? ==> old(log) + [RanAtOnce(f)] <= log
      ensures s.Some? ==> fault.Fine? && f in futures && futures[f].outcome == None && futures[f].channel.Some?
      ensures s.Some? ==> s.value in subs && subs[s.value].Some? && subs[s.value].value.pool == futures[f].channel.value
      ensures s.Some? ==> Waits(View(), subs[s.value].value)
      decreases budget, 3, 2
    {
      hide Inv, Kept;
      fault, left := Fine, budget;
      if futures[f].outcome.Some? {
        fault, left := RunAtOnce(f, budget, may);
        return None, fault, left;
      }
      var t := SubscribeWaiting(f);
      s := Some(t);
    }

    // The handler of a future that is settled already
    method RunAtOnce(f: Addr, budget: nat, may: Liberty) returns (fault: Fault, left: nat)
      requires Inv(View()) && f in futures
      modifies this
      ensures Behaved(old(View()), View(), may, fault) && left <= budget
      ensures old(log) + [RanAtOnce(f)] <= log
      decreases budget, 3, 1
    {
      ghost var st0 := View();
      RanKeeps(st0, f);
      log := log + [RanAtOnce(f)];
      ghost var st1 := View();
      BehavedFuture(st0, st1, may);
      hide Inv, Kept, Behaved;
      fault, left := RunHandler(budget, may);
      BehavedTrans(st0, st1, View(), may, fault);
      BehavedTells(st1, View(), may, fault);
      LogGrows(st1, View());
    }

    method SubscribeWaiting(f: Addr) returns (s: Addr)
      requires Inv(View()) && f in futures && futures[f].outcome == None
      modifies this
      ensures Inv(View()) && Kept(old(View()), View()) && pools.Keys >= old(pools).Keys
      ensures f in futures && futures[f].outcome == None && futures[f].channel.Some?
      ensures s in subs && subs[s].Some? && subs[s].value.pool == futures[f].channel.value && Waits(View(), subs[s].value)
    {
      ghost var st0 := View();
      assert Bounded(st0);
      hide Inv, Kept, Bounded, AddItem, Waits;
      EnsureChannel(f);
      ghost var st1 := View();
      var c := futures[f].channel.value;
      s := Subscribe(c);
      AddedItem(st1, c, View(), s);
      WaitsNow(st1, f, View());
      KeptTrans(st0, st1, View());
    }

    // Makes the channel of a future that has none yet
    method EnsureChannel(f: Addr)
      requires Inv(View()) && f in futures && futures[f].outcome == None
      modifies this
      ensures Inv(View()) && Kept(old(View()), View()) && pools.Keys >= old(pools).Keys
      ensures f in futures && futures[f].outcome == None && futures[f].channel.Some?
      ensures futures[f].channel.value in pools && !pools[futures[f].channel.value].lock
      ensures old(futures[f]).channel.Some? ==> View() == old(View())
    {
      KeptSelf(View());
      assert FutureOk(View(), f);
      if futures[f].channel == None {
        NewChannelKeeps(View(), f);
        hide Inv, Kept;
        var c := NewChannel(true);
        futures := futures[f := Future(Some(c), None)];
      }
    }

    // The destructor of a future: whoever still waits is notified of the abandonment
    method DestroyFuture(f: Addr, budget: nat, may: Liberty) returns (fault: Fault, left: nat)
      requires Inv(View()) && f in futures
      modifies this
      ensures Behaved(old(View()), View(), may, fault) && left <= budget && f !in futures
      ensures fault.Fine? && old(futures[f]).channel.Some? ==> Notified(old(View()), View(), old(futures[f]).channel.value)
      decreases budget, 3, 2
    {
      ghost var st0 := View();
      assert FutureOk(st0, f) && Bounded(st0);
      fault, left := Fine, budget;
      var channel := futures[f].channel;
      RemoveFutureKeeps(st0, f);
      futures := futures - {f};
      ghost var st1 := View();
      BehavedFuture(st0, st1, may);
      if channel.Some? {
        RemovedReady(st0, f);
        hide Inv, Kept, Owned, Unvisited, Behaved;
        fault, left := Notify(channel.value, budget, may);
        BehavedTells(st1, View(), may, fault);
        BehavedTrans(st0, st1, View(), may, fault);
        GoneStays(st1, View(), f);
        if fault.Fine? {
          NotifiedSince(st0, st1, View(), channel.value);
        }
      }
    }
  }

  // ---------- what dispatching and notifying have done ----------

  /** A dispatch has visited everything that was in the list and everything added since, in
      order, and left those that it called in the list. */
  predicate Finished(st0: State, st: State, p: Addr) {
    && st0.log <= st.log && p in st0.pools && p in st.pools && st.pools[p].lock == st0.pools[p].lock
    && var v := Visits(Since(st0, st), st0.next);
       && ItemsOf(v) == Everyone(st0, st, p) && st.pools[p].list == CalledOf(v)
       && (p in st0.private ==> ItemsOf(v) == st0.pools[p].list)
  }

  // A channel its future has let go of, its entries not visited yet
  predicate ReadyToNotify(st: State, c: Addr) {
    && c in st.pools && c in st.private && !st.pools[c].lock && !Owned(st, c)
    && forall x <- st.pools[c].list :: Unvisited(st.log, x)
  }

  // The one and only visit of an entry; it was called unless it had been killed by then
  predicate TurnAt(st0: State, st: State, x: Addr, j: nat) {
    && |st0.log| <= j < |st.log| && st.log[j] == Visited(st0.next, x, Killed(x) !in st.log[..j])
    && forall i | 0 <= i < |st.log| && Visits1(st.log[i], x) :: i == j
  }

  ghost predicate Served(st0: State, st: State, x: Addr) { exists j: nat :: TurnAt(st0, st, x, j) }

  /** Every entry of the channel has been visited by one dispatch, in order, each once and for
      all, and called unless killed before its turn; it is gone with the channel, and no
      subscription refers to the channel any more. */
  ghost predicate Notified(st0: State, st: State, c: Addr) {
    && st0.log <= st.log && c in st0.pools && c !in st.pools
    && ItemsOf(Visits(Since(st0, st), st0.next)) == st0.pools[c].list
    && (forall x <- st0.pools[c].list :: x !in st.items && Served(st0, st, x))
    && (forall s <- st.subs :: st.subs[s].Some? ==> st.subs[s].value.pool != c)
    && (forall s <- st0.subs | s in st.subs && st0.subs[s].Some? && st0.subs[s].value.pool == c :: st.subs[s] == None)
  }

  lemma AddedItem(st: State, p: Addr, st1: State, s: Addr)
    requires p in st.pools && st1 == AddItem(st, p) && s == st.next + 1
    ensures st1.futures == st.futures && st1.pools.Keys == st.pools.Keys && s in st1.subs && st1.subs[s] == Some(Reference(p, st.next))
  {
  }

  // An entry of a private channel that no dispatch has visited
  predicate Waits(st: State, r: Reference) {
    r.pool in st.private && Subscribed(r.pool, r.item) in st.log && Unvisited(st.log, r.item)
  }

  lemma WaitsNow(st: State, f: Addr, st1: State)
    requires Inv(st) && f in st.futures && st.futures[f].channel.Some?
    requires var c := st.futures[f].channel.value; c in st.pools && st1 == AddItem(st, c)
    ensures Waits(st1, Reference(st.futures[f].channel.value, st.next))
  {
    assert FutureOk(st, f) && Bounded(st);
    Unlogged(st, st.next);
    hide Inv;
  }

  lemma NothingToVisit(st: State, p: Addr)
    requires p in st.pools && st.pools[p].list == []
    ensures Kept(st, st) && Finished(st, st, p) && AllLive(st, p) && Standing(st, st) && Explained(st, st, Fine)
  {
    KeptSelf(st);
    assert Since(st, st) == [];
    assert Additions([], p) == [] && Visits([], st.next) == [] && CalledOf([]) == [] && ItemsOf([]) == [];
  }

  lemma EraseTurn(st0: State, st: State, p: Addr, d: Addr, i: nat)
    requires AtCursor(st0, st, p, d, i) && DeadAt(st, p, i) && p in st0.pools && !st0.pools[p].lock
    ensures var x := st.pools[p].list[i];
            var st1 := Erase(LogVisit(st, d, x, false), p, x);
            && AtCursor(st0, st1, p, d, i) && Inv(st1) && Kept(st0, st1)
            && |st1.pools[p].list| == |st.pools[p].list| - 1 >= i
            && (Quiet(st0, st) ==> Quiet(st0, st1))
  {
    CursorErase(st0, st, p, d, i);
    QuietVisit(st0, st, d, st.pools[p].list[i], false);
    var x := st.pools[p].list[i];
    QuietErase(st0, LogVisit(st, d, x, false), p, x);
    var st1 := Erase(LogVisit(st, d, x, false), p, x);
    CursorState(st0, st1, p, d, i);
    hide Kept, Inv, LogVisit, Erase, Quiet;
  }

  lemma QuietErase(st0: State, st: State, p: Addr, x: Addr)
    requires p in st.pools
    ensures Quiet(st0, st) ==> Quiet(st0, Erase(st, p, x))
  {
  }

  lemma CursorInMemory(st: State, p: Addr, i: nat, st0: State, d: Addr)
    requires AtCursor(st0, st, p, d, i) && i < |st.pools[p].list|
    ensures Inv(st) && Kept(st0, st) && st.pools[p].lock && st.pools[p].list[i] in st.items && p in st0.pools
  {
    assert PoolOk(st, p);
  }

  lemma CursorState(st0: State, st: State, p: Addr, d: Addr, i: nat)
    requires AtCursor(st0, st, p, d, i)
    ensures Inv(st) && Kept(st0, st) && p in st.pools && i <= |st.pools[p].list|
  {
  }

  // Nothing is left to visit, and an outermost dispatch unlocks the pool
  lemma CursorEnd(st0: State, st: State, p: Addr, d: Addr, lockHere: bool)
    requires p in st.pools && AtCursor(st0, st, p, d, |st.pools[p].list|) && lockHere == !st0.pools[p].lock
    ensures var st1 := if lockHere then SetLock(st, p, false) else st;
            Inv(st1) && Kept(st0, st1) && Finished(st0, st1, p)
  {
    var list := st.pools[p].list;
    var v := Visits(Since(st0, st), d);
    assert list[..|list|] == list && ItemsOf(v) + list[|list|..] == ItemsOf(v);
    assert st.private >= st0.private;
    if lockHere {
      UnlockKeeps(st0, st, p);
      assert Since(st0, SetLock(st, p, false)) == Since(st0, st);
    }
    hide Inv, Kept, Additions, Visits;
  }

  lemma DispatchBegun(st0: State, p: Addr, may: Liberty)
    requires p in st0.pools && AtCursor(st0, Begin(st0, p), p, st0.next, 0)
    ensures Under(st0, Begin(st0, p), may, true)
  {
    assert Since(st0, Begin(st0, p)) == [];
  }

  lemma StandingTrans(a: State, b: State, c: State)
    requires Kept(a, b) && Standing(a, b) && Standing(b, c)
    ensures Standing(a, c)
  {
    forall p <- a.pools | a.pools[p].lock ensures p in c.pools {
      assert LockedKept(a, b, p);
    }
  }

  lemma ExplainedTrans(a: State, b: State, c: State, fault: Fault)
    requires a.log <= b.log && Explained(b, c, fault)
    ensures Explained(a, c, fault)
  {
    if fault.Dangling? {
      SinceSplit(a, b, c);
    }
  }

  // A turn of a dispatch, seen from its beginning
  lemma UnderVisit(st0: State, st1: State, st: State, may: Liberty, fault: Fault, before: bool, after: bool)
    requires Under(st0, st1, may, before) && Kept(st0, st) && Explained(st1, st, fault)
    requires (!may.raze ==> Standing(st1, st)) && (after ==> before && (Quiet(st0, st1) ==> Quiet(st0, st)))
    ensures Under(st0, st, may, after) && Explained(st0, st, fault)
    ensures !may.raze ==> Standing(st0, st)
  {
    LogGrows(st0, st1);
    ExplainedTrans(st0, st1, st, fault);
    if !may.raze {
      StandingTrans(st0, st1, st);
    }
  }

  lemma QuietVisit(st0: State, st: State, d: Addr, x: Addr, called: bool)
    ensures Quiet(st0, st) ==> Quiet(st0, LogVisit(st, d, x, called))
  {
    if Quiet(st0, st) {
      assert Since(st0, LogVisit(st, d, x, called)) == Since(st0, st) + [Visited(d, x, called)];
    }
  }

  // Where handlers have done nothing they have killed nothing
  lemma QuietKillsNone(st0: State, st: State, may: Liberty, fault: Fault)
    requires Under(st0, st, may, true) && Explained(st0, st, fault) && fault.Stuck?
    ensures KillsNone(st0, st, fault.pool)
  {
    hide Kept;
  }

  // What a fault of a dispatch tells about its beginning
  lemma DispatchFault(st0: State, st: State, may: Liberty, fault: Fault, quiet: bool)
    requires Inv(st0) && Inv(st) && Under(st0, st, may, quiet) && Explained(st0, st, fault)
    ensures Kept(st0, st) && (!may.raze ==> Standing(st0, st))
    ensures fault.Stuck? && (quiet || KillsNone(st0, st, fault.pool)) ==> !AllLive(st0, fault.pool)
  {
    hide Inv, AllLive;
    if fault.Stuck? {
      if quiet {
        QuietKillsNone(st0, st, may, fault);
      }
      StuckMeansKilled(st0, st, fault);
    }
  }

  /** A dead entry that stops a dispatch was dead when it began or has been killed since. */
  lemma StuckMeansKilled(st0: State, st: State, fault: Fault)
    requires Inv(st0) && Inv(st) && Kept(st0, st) && Explained(st0, st, fault) && fault.Stuck?
    ensures (fault.item in st0.items && !st0.items[fault.item].Live()) || Killed(fault.item) in Since(st0, st)
    ensures KillsNone(st0, st, fault.pool) ==> !AllLive(st0, fault.pool)
  {
    var x := fault.item;
    assert LivesOk(st) && LivesOk(st0) && Killed(x) in st.log && st.log == st0.log + Since(st0, st);
    assert Bounded(st0) && (x in st0.items || x >= st0.next);
    hide Inv, Kept;
    if x !in st0.items {
      Unlogged(st0, x);
    }
    if KillsNone(st0, st, fault.pool) {
      assert Killed(x) !in Since(st0, st);
      StuckWasListed(st0, st, fault);
    }
  }

  lemma StuckWasListed(st0: State, st: State, fault: Fault)
    requires Inv(st0) && Inv(st) && Kept(st0, st) && Explained(st0, st, fault) && fault.Stuck? && fault.item in st0.items
    ensures fault.pool in st0.pools && fault.item in st0.pools[fault.pool].list
  {
    var (p, x) := (fault.pool, fault.item);
    assert PoolOk(st, p);
    assert st.log == st0.log + Since(st0, st) && x < st0.next;
    assert Subscribed(p, x) in Since(st0, st) ==> EventNew(st0, Subscribed(p, x));
    assert Home(st0, Subscribed(p, x));
  }

  /** A dispatch of a locked list that ends has found every entry alive: it does not get past
      one that is dead when it begins, whatever handlers do. */
  lemma LockedEndsLive(st0: State, st: State, p: Addr)
    requires Inv(st0) && Inv(st) && Kept(st0, st) && Finished(st0, st, p) && st0.pools[p].lock
    ensures AllLive(st0, p)
  {
    assert LockedKept(st0, st, p) && PoolOk(st0, p);
    assert LivesOk(st0);
    forall x <- st0.pools[p].list ensures x in st0.items && st0.items[x].Live() {
      assert x in st.pools[p].list;
      DispatchedByLife(st0, st, p, x);
    }
    hide Inv, Kept, Finished;
  }

  lemma DispatchDone(st0: State, st: State, p: Addr, d: Addr, lockHere: bool, may: Liberty, quiet: bool)
    requires p in st.pools && AtCursor(st0, st, p, d, |st.pools[p].list|) && lockHere == !st0.pools[p].lock
    requires Under(st0, st, may, quiet)
    ensures var st1 := if lockHere then SetLock(st, p, false) else st;
            && Inv(st1) && Kept(st0, st1) && Finished(st0, st1, p) && Explained(st0, st1, Fine)
            && (!may.raze ==> Standing(st0, st1))
    ensures st0.pools[p].lock ==> AllLive(st0, p)
  {
    assert Inv(st0);
    hide Inv, Kept, Finished, AllLive;
    CursorEnd(st0, st, p, d, lockHere);
    if st0.pools[p].lock {
      LockedEndsLive(st0, st, p);
    }
  }

  // The channel is gone when the handler returns
  lemma GoneUnderCursor(st0: State, st1: State, st: State, p: Addr, d: Addr, i: nat, may: Liberty)
    requires AtCursor(st0, st1, p, d, i) && Behaved(st1, st, may, Fine) && p !in st.pools
    ensures Behaved(st1, st, may, Dangling(p))
  {
    assert LockedKept(st1, st, p);
    hide Inv;
  }

  lemma CursorResumes(st0: State, st1: State, st: State, p: Addr, d: Addr, i: nat, may: Liberty, fault: Fault)
    requires AtCursor(st0, st1, p, d, i) && Behaved(st1, st, may, fault) && (fault.Fine? ==> p in st.pools)
    ensures Kept(st0, st) && (fault.Fine? ==> AtCursor(st0, st, p, d, i) && i <= |st.pools[p].list|)
  {
    assert Inv(st) && Kept(st1, st) && Kept(st0, st1) && Bounded(st0);
    hide Inv, Kept;
    KeptTrans(st0, st1, st);
    if fault.Fine? {
      CursorHandler(st0, st1, st, p, d, i);
      CursorState(st0, st, p, d, i);
    }
  }

  lemma BehavedSelf(st: State, may: Liberty)
    requires Inv(st)
    ensures Behaved(st, st, may, Fine)
  {
    KeptSelf(st);
  }

  lemma BehavedTells(a: State, b: State, may: Liberty, fault: Fault)
    requires Behaved(a, b, may, fault)
    ensures Inv(b) && Kept(a, b) && Explained(a, b, fault)
    ensures (fault.Stuck? ==> may.nest) && (fault.Dangling? ==> may.raze) && (!may.raze ==> Standing(a, b))
  {
  }

  // Behaviour composes over runs
  lemma BehavedTrans(a: State, b: State, c: State, may: Liberty, fault: Fault)
    requires Inv(a) && Behaved(a, b, may, Fine) && Behaved(b, c, may, fault)
    ensures Behaved(a, c, may, fault)
  {
    assert Bounded(a);
    LogGrows(a, b);
    hide Inv, Kept;
    KeptTrans(a, b, c);
    ExplainedTrans(a, b, c, fault);
    if !may.raze {
      StandingTrans(a, b, c);
    }
  }

  // From before the handler was called
  lemma BehavedSinceVisit(st: State, d: Addr, x: Addr, b: State, may: Liberty, fault: Fault)
    requires Behaved(LogVisit(st, d, x, true), b, may, fault)
    ensures Inv(b) && Explained(st, b, fault) && (!may.raze ==> Standing(st, b))
    ensures (fault.Stuck? ==> may.nest) && (fault.Dangling? ==> may.raze)
  {
    hide Inv, Kept;
    ExplainedTrans(st, LogVisit(st, d, x, true), b, fault);
  }

  // The handler of the entry at `i` has come back to the dispatch
  lemma HandlerReturned(st0: State, st: State, b: State, p: Addr, d: Addr, i: nat, may: Liberty, fault: Fault)
    requires p in st.pools && i < |st.pools[p].list|
    requires AtCursor(st0, LogVisit(st, d, st.pools[p].list[i], true), p, d, i + 1)
    requires Behaved(LogVisit(st, d, st.pools[p].list[i], true), b, may, fault)
    ensures var f := Resumed(b.pools, p, fault);
            && Inv(b) && Kept(st0, b) && Explained(st, b, f)
            && (f.Fine? ==> AtCursor(st0, b, p, d, i + 1) && p in b.pools && i < |b.pools[p].list|)
            && (f.Stuck? ==> may.nest) && (f.Dangling? ==> may.raze) && (!may.raze ==> Standing(st, b))
  {
    var st1 := LogVisit(st, d, st.pools[p].list[i], true);
    var f := Resumed(b.pools, p, fault);
    hide LogVisit, Inv, Kept, AtCursor, Behaved, Explained, Standing;
    if fault.Fine? && p !in b.pools {
      GoneUnderCursor(st0, st1, b, p, d, i + 1, may);
    }
    CursorResumes(st0, st1, b, p, d, i + 1, may, f);
    BehavedSinceVisit(st, d, st.pools[p].list[i], b, may, f);
  }

  lemma BehavedFuture(st: State, st1: State, may: Liberty)
    requires Inv(st1) && Kept(st, st1) && st1.pools == st.pools
    ensures Behaved(st, st1, may, Fine)
  {
  }

  lemma NotifiedBehaved(st0: State, st: State, c: Addr, may: Liberty)
    requires Bounded(st0) && ReadyToNotify(st0, c) && Kept(st0, st) && (!may.raze ==> Standing(st0, st)) && c in st.pools
    requires Inv(Destroy(st, c)) && Kept(st, Destroy(st, c))
    ensures Behaved(st0, Destroy(st, c), may, Fine)
  {
    hide Inv, Kept;
    KeptTrans(st0, st, Destroy(st, c));
  }

  // Only futures own channels, and those are private
  lemma PublicNotOwned(st: State)
    requires Inv(st)
    ensures forall p <- st.pools | p !in st.private :: !Owned(st, p)
  {
    assert forall f <- st.futures :: FutureOk(st, f);
  }

  lemma NobodyOwns(st0: State, st: State, c: Addr)
    requires Kept(st0, st) && Bounded(st0) && c in st0.pools && !Owned(st0, c)
    ensures !Owned(st, c)
  {
  }

  // After the dispatch the channel is destroyed with everything in it
  lemma NotifiedAll(st0: State, st: State, c: Addr)
    requires Inv(st0) && Inv(st) && Kept(st0, st) && Finished(st0, st, c) && ReadyToNotify(st0, c)
    ensures Inv(Destroy(st, c)) ==> Notified(st0, Destroy(st, c), c)
  {
    var st1 := Destroy(st, c);
    DestroyVisits(st0, st, c);
    assert PoolOk(st0, c);
    assert forall s <- st.subs :: ReferenceOk(st, s);
    forall x <- st0.pools[c].list ensures x !in st1.items && (Inv(st1) ==> Served(st0, st1, x)) {
      EntryGone(st0, st, c, x);
      if Inv(st1) {
        EntryServed(st0, st1, c, x);
      }
    }
    hide Inv, Kept, Served;
  }

  lemma InvCalls(st: State)
    requires Inv(st)
    ensures CallsOk(st.log)
  {
  }

  lemma EntryServed(st0: State, st: State, c: Addr, x: Addr)
    requires Inv(st) && st0.log <= st.log && c in st.private && Subscribed(c, x) in st.log
    requires x in ItemsOf(Visits(Since(st0, st), st0.next))
    ensures Served(st0, st, x)
  {
    hide Inv;
    var v := Visits(Since(st0, st), st0.next);
    var n :| 0 <= n < |v| && ItemsOf(v)[n] == x;
    var i := VisitLoggedAt(Since(st0, st), st0.next, n);
    var j := |st0.log| + i;
    InvCalls(st);
    assert st.log[j] == Since(st0, st)[i];
    hide Since, Visits, ItemsOf;
    forall l | 0 <= l < |st.log| && Visits1(st.log[l], x) ensures l == j {
      WaitingHandlerRunsOnce(st, c, x, l, j);
    }
    assert TurnAt(st0, st, x, j);
  }

  lemma DestroyVisits(st0: State, st: State, c: Addr)
    requires st0.log <= st.log && c in st.pools
    ensures st0.log <= Destroy(st, c).log
    ensures Visits(Since(st0, Destroy(st, c)), st0.next) == Visits(Since(st0, st), st0.next)
  {
    assert Since(st0, Destroy(st, c)) == Since(st0, st) + [Destroyed(c)];
    assert (Since(st0, st) + [Destroyed(c)])[..|Since(st0, st)|] == Since(st0, st);
  }

  lemma EntryGone(st0: State, st: State, c: Addr, x: Addr)
    requires c in st0.pools && PoolOk(st0, c) && x in st0.pools[c].list && st0.log <= st.log && Homes(st) && c in st.pools
    ensures x !in Destroy(st, c).items
  {
    assert Subscribed(c, x) in st0.log && Subscribed(c, x) in st.log && Home(st, Subscribed(c, x));
  }

  lemma SettledStays(a: State, b: State, f: Addr, o: Outcome)
    requires Kept(a, b) && f in a.futures && a.futures[f].outcome == Some(o)
    ensures f in b.futures ==> b.futures[f].outcome == Some(o)
  {
  }

  lemma GoneStays(a: State, b: State, f: Addr)
    requires Kept(a, b) && f !in a.futures && f < a.next
    ensures f !in b.futures
  {
  }

  // Notification seen from before the future changed
  lemma NotifiedSince(st0: State, st1: State, st: State, c: Addr)
    requires Notified(st1, st, c) && st1 == st0.(futures := st1.futures)
    ensures Notified(st0, st, c)
  {
    forall x <- st0.pools[c].list ensures Served(st0, st, x) {
      var j: nat :| TurnAt(st1, st, x, j);
      assert TurnAt(st0, st, x, j);
    }
  }

  lemma RemovedReady(st: State, f: Addr)
    requires Inv(st) && f in st.futures && st.futures[f].channel.Some?
    ensures ReadyToNotify(RemoveFuture(st, f), st.futures[f].channel.value)
  {
    assert FutureOk(st, f);
  }

  // The subscriptions once those linked to `done` have lost their references
  function Detached(st: State, p: Addr, done: seq<Addr>): map<Addr, Option<Reference>> {
    map s <- st.subs :: if st.subs[s].Some? && st.subs[s].value.pool == p && st.subs[s].value.item in done then None else st.subs[s]
  }

  predicate ListOk(st: State, p: Addr)
    requires p in st.pools
  {
    && (forall x <- st.pools[p].list :: x in st.items && DriverOk(st, p, x))
    && (forall s <- st.subs :: ReferenceOk(st, s))
  }

  lemma ListLinked(st: State, p: Addr)
    requires Inv(st) && p in st.pools
    ensures ListOk(st, p)
  {
    assert PoolOk(st, p);
  }

  lemma DetachedNext(st: State, p: Addr, done: seq<Addr>, x: Addr)
    requires p in st.pools && ListOk(st, p) && x in st.pools[p].list
    ensures x in st.items
    ensures Detached(st, p, done + [x]) ==
            if st.items[x].driver.Some? then Detached(st, p, done)[st.items[x].driver.value := None] else Detached(st, p, done)
  {
    var (a, b) := (Detached(st, p, done + [x]), Detached(st, p, done));
    var c := if st.items[x].driver.Some? then b[st.items[x].driver.value := None] else b;
    assert DriverOk(st, p, x);
    assert a.Keys == c.Keys;
    forall s <- st.subs ensures a[s] == c[s] {
      assert ReferenceOk(st, s);
    }
  }

  lemma DetachedAll(st: State, p: Addr)
    requires Inv(st) && p in st.pools
    ensures Destroy(st, p).subs == Detached(st, p, st.pools[p].list) && Detached(st, p, []) == st.subs
  {
    assert forall s <- st.subs :: ReferenceOk(st, s);
  }

  // ---------- consequences for every run ----------

  /** After a subscription has been cancelled its handler is never called again, not even by
      a dispatch under way. */
  lemma NeverCalledAfterCancel(st: State, x: Addr, i: nat, j: nat)
    requires Inv(st) && i < j < |st.log| && st.log[i] == Killed(x) && Visits1(st.log[j], x)
    ensures !st.log[j].called
  {
    assert st.log[..j][i] == Killed(x);
  }

  /** A handler that waits for a future runs at most once. */
  lemma WaitingHandlerRunsOnce(st: State, c: Addr, x: Addr, i: nat, j: nat)
    requires Inv(st) && c in st.private && Subscribed(c, x) in st.log
    requires i < |st.log| && j < |st.log| && Visits1(st.log[i], x) && Visits1(st.log[j], x)
    ensures i == j
  {
    assert st.log[i].Visited? && st.log[j].Visited? && st.log[i].item == x == st.log[j].item;
  }

  /** Whatever is done while a channel is being dispatched, what its cursor points to stays in
      memory exactly as long as the channel is not destroyed. */
  lemma CursorStaysInMemory(st: State, st1: State, p: Addr, x: Addr)
    requires Inv(st) && Inv(st1) && Kept(st, st1) && p in st.pools && st.pools[p].lock && x in st.pools[p].list
    ensures x in st1.items <==> Destroyed(p) !in Since(st, st1)
    ensures p in st1.pools <==> Destroyed(p) !in Since(st, st1)
  {
    assert LockedKept(st, st1, p) && PoolOk(st, p);
    assert Subscribed(p, x) in st1.log && Home(st1, Subscribed(p, x));
    if p in st1.pools {
      assert PoolOk(st1, p) && (Destroyed(p) in st1.log ==> Home(st1, Destroyed(p)));
    }
  }

  // The state before and after the only entry of the only channel is called
  lemma OneEntryCalled(st: State)
    requires Inv(st) && st.pools == map[0 := Pool(false, [1])] && st.items == map[1 := Item(false, Some(2))]
    requires st.next == 3 && st.private == {} && st.futures == map[]
    ensures !Owned(st, 0) && AtCursor(st, Begin(st, 0), 0, 3, 0) && AtCursor(st, LogVisit(Begin(st, 0), 3, 1, true), 0, 3, 1)
  {
    CursorStart(st, 0);
    CursorCall(st, Begin(st, 0), 0, 3, 0);
  }

  // A channel with one entry, whose handler has just been called
  method InHandler() returns (m: Memory, s: Addr, ghost st0: State)
    ensures fresh(m) && AtCursor(st0, m.View(), 0, 3, 1)
    ensures st0.next == 3 && s == 2 && m.pools == map[0 := Pool(true, [1])] && m.private == {} && m.futures == map[]
    ensures m.subs == map[2 := Some(Reference(0, 1))]
  {
    hide Inv, Kept, AtCursor, Owned;
    m := new Memory();
    var p := m.NewChannel(false);
    s := m.Subscribe(p);
    st0 := m.View();
    assert [] + [1] == [1];
    assert st0.pools == map[0 := Pool(false, [1])] && st0.items == map[1 := Item(false, Some(2))];
    OneEntryCalled(st0);
    m.pools := m.pools[p := m.pools[p].(lock := true)];
    m.next, m.log := m.next + 1, m.log + [Visited(m.next, 1, true)];
    assert m.View() == LogVisit(Begin(st0, 0), 3, 1, true);
  }

  /** A handler destroys the channel whose dispatch has called it: the dispatch stands behind
      an entry that is no longer in memory. */
  method DanglingExample() returns (m: Memory, fault: Fault, ghost st0: State, ghost st: State)
    ensures fresh(m) && AtCursor(st0, st, 0, st0.next, 1) && st.pools[0].list == [1]
    ensures Behaved(st, m.View(), Liberty(false, true), Fine) && 1 !in m.items
    ensures fault == Resumed(m.pools, 0, Fine) == Dangling(0)
  {
    var s;
    m, s, st0 := InHandler();
    st := m.View();
    CursorState(st0, st, 0, 3, 1);
    m.DestroyChannel(0);
    fault := Resumed(m.pools, 0, Fine);
  }

  /** A handler cancels its own subscription and dispatches the channel again: the inner
      dispatch finds a dead entry, may not erase it and stays there for ever. */
  method StuckExample(budget: nat) returns (m: Memory, fault: Fault)
    ensures fresh(m) && fault.Stuck? && fault.pool == 0 && StuckAt(m.View(), 0, fault.item)
  {
    hide Inv, Kept, AtCursor, Cancel, ReferenceOk;
    var s;
    ghost var st0;
    m, s, st0 := InHandler();
    CursorState(st0, m.View(), 0, 3, 1);
    var r := m.CancelSubscription(s);
    assert 1 in m.pools[0].list && !AllLive(m.View(), 0) && !Owned(m.View(), 0);
    var any, left;
    fault, any, left := m.Dispatch(0, budget, Liberty(false, false));
  }

  lemma {:induction false} VisitLoggedAt(log: seq<Event>, d: Addr, k: nat) returns (j: nat)
    requires k < |Visits(log, d)|
    ensures j < |log| && log[j] == Visited(d, Visits(log, d)[k].0, Visits(log, d)[k].1)
  {
    var front := Visits(log[..|log| - 1], d);
    if k < |front| {
      j := VisitLoggedAt(log[..|log| - 1], d, k);
    } else {
      j := |log| - 1;
    }
  }

  lemma {:induction false} CalledAt(v: seq<(Addr, bool)>, x: Addr)
    ensures x in CalledOf(v) <==> exists k :: 0 <= k < |v| && v[k] == (x, true)
  {
    if v != [] {
      CalledAt(v[..|v| - 1], x);
      var f := v[..|v| - 1];
      assert forall k | 0 <= k < |f| :: v[k] == f[k];
    }
  }

  // A visit that called its entry came before any kill, one that did not came after
  lemma VisitTells(st0: State, st: State, d: Addr, k: nat)
    requires CallsOk(st.log) && st0.log <= st.log && k < |Visits(Since(st0, st), d)|
    ensures var (x, called) := Visits(Since(st0, st), d)[k];
            (called ==> Killed(x) !in st0.log) && (!called ==> Killed(x) in st.log)
  {
    var j := VisitLoggedAt(Since(st0, st), d, k);
    var at := |st0.log| + j;
    assert st.log[at] == Since(st0, st)[j];
    assert st.log[..at][..|st0.log|] == st0.log;
    assert forall e :: (e in st0.log ==> e in st.log[..at]) && (e in st.log[..at] ==> e in st.log);
  }

  /** What a dispatch did with an entry: one that was dead at its start is neither called nor
      in the list any more, and one that nobody killed by its end has been called. */
  lemma DispatchedByLife(st0: State, st: State, p: Addr, x: Addr)
    requires Inv(st0) && Inv(st) && Kept(st0, st) && Finished(st0, st, p)
    ensures Killed(x) in st0.log ==> x !in st.pools[p].list
    ensures x in Everyone(st0, st, p) && Killed(x) !in st.log ==> x in st.pools[p].list
  {
    var v := Visits(Since(st0, st), st0.next);
    assert CallsOk(st.log);
    hide Inv, Kept, CallsOk;
    CalledAt(v, x);
    if x in CalledOf(v) {
      var k :| 0 <= k < |v| && v[k] == (x, true);
      VisitTells(st0, st, st0.next, k);
    } else if x in ItemsOf(v) {
      var k :| 0 <= k < |v| && ItemsOf(v)[k] == x;
      VisitTells(st0, st, st0.next, k);
    }
  }

  /** A pinned entry whose subscription has been dropped is called by every dispatch of its
      channel that comes to its end, and stays for the next one. */
  lemma OrphanCalled(st0: State, st: State, p: Addr, x: Addr)
    requires Inv(st0) && Inv(st) && Kept(st0, st) && Finished(st0, st, p) && Orphan(st0, p, x)
    ensures p in st.pools && Orphan(st, p, x)
    ensures st0.log <= st.log && (x, true) in Visits(Since(st0, st), st0.next)
  {
    assert OrphansKept(st0, st) && OrphanKept(st0, st, p, x);
    hide Inv, Kept;
    CalledAt(Visits(Since(st0, st), st0.next), x);
  }

  /** Whatever is done in between, the entry stays until its channel is destroyed. */
  lemma OrphanStays(st: State, st1: State, p: Addr, x: Addr)
    requires Inv(st) && Inv(st1) && Kept(st, st1) && Orphan(st, p, x)
    ensures Orphan(st1, p, x) <==> Destroyed(p) !in Since(st, st1)
    ensures Orphan(st1, p, x) ==> Killed(x) !in st1.log
  {
    assert OrphansKept(st, st1) && OrphanKept(st, st1, p, x);
    assert Homes(st1) && LivesOk(st1);
    assert p in st1.pools && Destroyed(p) in Since(st, st1) ==> Home(st1, Destroyed(p));
  }

  lemma InvBounded(st: State)
    requires Inv(st)
    ensures Bounded(st)
  {
  }

  // Subscribes, pins the entry and drops the subscription at once
  method SubscribePinned(m: Memory, p: Addr) returns (ghost x: Addr)
    requires Inv(m.View()) && p in m.pools && (p in m.private ==> !m.pools[p].lock)
    modifies m
    ensures Inv(m.View()) && Kept(old(m.View()), m.View()) && x == old(m.next) && m.private == old(m.private)
    ensures Orphan(m.View(), p, x) && m.pools.Keys == old(m.pools).Keys
    ensures m.pools[p].list == old(m.pools[p]).list + [x] && m.log == old(m.log) + [Subscribed(p, x)]
  {
    hide Inv, Kept, Bounded, AddItem, SetPinned, Drop, Discarded, ReferenceOk;
    ghost var st0 := m.View();
    InvBounded(st0);
    x := m.next;
    var s := m.Subscribe(p);
    ghost var st1 := m.View();
    var r := m.Pin(s);
    ghost var st2 := m.View();
    m.DropSubscription(s);
    KeptTrans(st0, st1, st2);
    KeptTrans(st0, st2, m.View());
  }

  /** A handler that is subscribed, pinned and dropped runs with the next dispatch that comes
      to its end, whatever other handlers do before it, unless the channel is destroyed. */
  method PinnedHandlerRuns(m: Memory, p: Addr, budget: nat, may: Liberty) returns (fault: Fault, ghost x: Addr)
    requires Inv(m.View()) && p in m.pools && p !in m.private
    modifies m
    ensures Inv(m.View()) && x == old(m.next)
    ensures fault.Fine? ==> if p in m.pools then exists d :: Visited(d, x, true) in m.log else Destroyed(p) in m.log
  {
    hide Inv, Kept, Behaved, Orphan, Finished, Owned, Unvisited;
    x := SubscribePinned(m, p);
    ghost var st1 := m.View();
    var left;
    fault, left := m.RunHandler(budget, may);
    ghost var st2 := m.View();
    PublicStays(st1, st2, p, x, may, fault);
    if !fault.Fine? || p !in m.pools {
      return;
    }
    var any;
    fault, any, left := m.Dispatch(p, left, may);
    if fault.Fine? {
      OrphanCalled(st2, m.View(), p, x);
      VisitsAreLogged(st2, m.View(), x);
    }
  }

  lemma PublicStays(st: State, st1: State, p: Addr, x: Addr, may: Liberty, fault: Fault)
    requires Inv(st) && Behaved(st, st1, may, fault) && Orphan(st, p, x) && p !in st.private
    ensures Inv(st1) && p !in st1.private && !Owned(st1, p)
    ensures if p in st1.pools then Orphan(st1, p, x) else Destroyed(p) in st1.log
  {
    assert p < st.next;
    BehavedTells(st, st1, may, fault);
    assert OrphansKept(st, st1) && OrphanKept(st, st1, p, x);
    assert st1.log == st.log + Since(st, st1);
    assert forall f <- st1.futures :: FutureOk(st1, f);
  }

  lemma VisitsAreLogged(st0: State, st: State, x: Addr)
    requires st0.log <= st.log && (x, true) in Visits(Since(st0, st), st0.next)
    ensures Visited(st0.next, x, true) in st.log
  {
    var v := Visits(Since(st0, st), st0.next);
    var k :| 0 <= k < |v| && v[k] == (x, true);
    var j := VisitLoggedAt(Since(st0, st), st0.next, k);
    assert st.log[|st0.log| + j] == Visited(st0.next, x, true);
  }
}
