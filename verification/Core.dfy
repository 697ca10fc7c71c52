/** The plugin core: modules are injected, loaded together, possibly asynchronously, and
    unloaded in the reverse of the order in which they completed. */
module Core {
  import opened Sequences

  // The element of the list of injected modules; never the same twice
  type Id = nat

  // The future of a module that loads asynchronously
  datatype Future = Pending | Value | Failed | Cancelled

  // What the load callback of a module does: it completes, throws, or leaves a task under way
  datatype Start = AtOnce | Throws | Later

  /** What loading meets outside the core: whether the bindings and the container can be made
      and the container filled, and what each load callback does. */
  datatype World = World(bindings: bool, container: bool, filled: bool, start: Id -> Start)

  // The load callbacks called: in turn, up to the first that throws
  function Called(world: World, s: seq<Id>): seq<Id> {
    if s == [] then [] else [s[0]] + if world.start(s[0]).Throws? then [] else Called(world, s[1..])
  }

  // The modules that complete at once
  function OnesAtOnce(world: World, s: seq<Id>): seq<Id> {
    if s == [] then []
    else OnesAtOnce(world, s[..|s| - 1]) + if world.start(s[|s| - 1]).AtOnce? then [s[|s| - 1]] else []
  }

  lemma OneMore(world: World, s: seq<Id>, m: Id)
    ensures OnesAtOnce(world, s + [m]) == OnesAtOnce(world, s) + if world.start(m).AtOnce? then [m] else []
  {
    assert (s + [m])[..|s|] == s;
  }

  datatype LoadResult = Loaded | BadState | AlreadyLoaded | LoadFailed
  datatype UnloadResult = Unloaded | NotLoaded | UnloadFailed

  function Reversed(s: seq<Id>): seq<Id> { if s == [] then [] else Reversed(s[1..]) + [s[0]] }

  lemma {:induction false} ReversedConcat(a: seq<Id>, b: seq<Id>)
    ensures Reversed(a + b) == Reversed(b) + Reversed(a)
  {
    if a == [] {
      assert a + b == b;
    } else {
      assert (a + b)[1..] == a[1..] + b;
      ReversedConcat(a[1..], b);
    }
  }

  lemma {:induction false} ReversedMembers(s: seq<Id>)
    ensures multiset(Reversed(s)) == multiset(s)
  {
    if s != [] {
      ReversedMembers(s[1..]);
      assert s == [s[0]] + s[1..];
    }
  }

  // The ones that have an unload callback
  function Unloadable(has: set<Id>, s: seq<Id>): seq<Id> {
    if s == [] then [] else (if s[0] in has then [s[0]] else []) + Unloadable(has, s[1..])
  }

  /** Of the modules called, those that complete at once have completed, in that order, and of
      the others those whose task has given its value. */
  ghost predicate Faithful(world: World, called: seq<Id>, completed: seq<Id>, futures: map<Id, Future>) {
    && (forall m :: m in completed <==>
          m in called && (world.start(m).AtOnce? || (m in futures && futures[m] == Value)))
    && (forall m :: m in futures <==> m in called && world.start(m).Later?)
    && OnesAtOnce(world, completed) == OnesAtOnce(world, called)
  }

  // Another load callback is called: it throws,
  lemma FaithfulThrow(world: World, called: seq<Id>, completed: seq<Id>, futures: map<Id, Future>, m: Id)
    requires Faithful(world, called, completed, futures) && world.start(m).Throws?
    ensures Faithful(world, called + [m], completed, futures)
  {
    OneMore(world, called, m);
    hide OnesAtOnce;
    assert forall x :: x in called + [m] <==> x in called || x == m;
  }

  // completes,
  lemma FaithfulComplete(world: World, called: seq<Id>, completed: seq<Id>, futures: map<Id, Future>, m: Id)
    requires Faithful(world, called, completed, futures) && world.start(m).AtOnce?
    ensures Faithful(world, called + [m], completed + [m], futures)
  {
    OneMore(world, called, m);
    OneMore(world, completed, m);
    hide OnesAtOnce;
    assert forall x :: (x in called + [m] <==> x in called || x == m) && (x in completed + [m] <==> x in completed || x == m);
  }

  // or leaves a task
  lemma FaithfulTrack(world: World, called: seq<Id>, completed: seq<Id>, futures: map<Id, Future>, m: Id)
    requires Faithful(world, called, completed, futures) && world.start(m).Later? && m !in called
    ensures Faithful(world, called + [m], completed, futures[m := Pending])
  {
    OneMore(world, called, m);
    hide OnesAtOnce;
    assert forall x :: x in called + [m] <==> x in called || x == m;
  }

  // A task is settled
  lemma FaithfulSettle(world: World, called: seq<Id>, completed: seq<Id>, futures: map<Id, Future>, t: Id)
    requires Faithful(world, called, completed, futures) && t in futures && futures[t] == Pending
    ensures Faithful(world, called, completed + [t], futures[t := Value])
    ensures Faithful(world, called, completed, futures[t := Failed])
    ensures Faithful(world, called, completed, futures[t := Cancelled])
  {
    OneMore(world, completed, t);
    hide OnesAtOnce;
    assert forall x :: x in completed + [t] <==> x in completed || x == t;
  }

  /** What the callbacks of one `load` share: the modules that have completed, the latest
      first, those that have not, and the tasks under way. */
  class Loading {
    var loaded: seq<Id>
    var queue: seq<Id>
    var tasks: seq<Id>
    var futures: map<Id, Future>
    const world: World
    ghost const all: seq<Id>
    ghost var completed: seq<Id>  // in the order of completion
    ghost var called: seq<Id>  // the load callbacks called, in order

    ghost predicate Valid() reads this {
      && NoDup(all) && NoDup(tasks) && loaded == Reversed(completed)
      && multiset(completed) + multiset(queue) == multiset(all)
      && (forall t <- tasks :: t in futures && t in all)
      && (forall t <- futures :: t in tasks && (futures[t] == Value <==> t in completed))
      && Faithful(world, called, completed, futures)
    }

    constructor (all: seq<Id>, world: World)
      requires NoDup(all)
      ensures Valid() && this.all == all && this.world == world && queue == all && Nothing()
    {
      this.all, this.loaded, this.queue, this.tasks, this.futures, this.completed := all, [], all, [], map[], [];
      this.world, this.called := world, [];
    }

    // No module has been started
    ghost predicate Nothing() reads this { completed == [] && tasks == [] && called == [] && futures == map[] }

    // Not started
    ghost predicate Fresh(m: Id) reads this { m in queue && m !in tasks && m !in called }

    // Moves a module that has completed from the queue to the front of the loaded ones
    method Splice(m: Id)
      requires NoDup(all) && loaded == Reversed(completed) && m in queue
      requires multiset(completed) + multiset(queue) == multiset(all)
      modifies this`loaded, this`queue, this`completed
      ensures loaded == Reversed(completed) && completed == old(completed) + [m]
      ensures multiset(completed) + multiset(queue) == multiset(all)
      ensures forall x :: x in queue <==> x in old(queue) && x != m
    {
      var i :| 0 <= i < |queue| && queue[i] == m;
      MoveOne(all, completed, queue, i);
      loaded := [m] + loaded;
      queue := queue[..i] + queue[i + 1..];
      completed := completed + [m];
    }

    // The load callback throws
    ghost method Throw(m: Id)
      requires Valid() && world.start(m).Throws?
      modifies this`called
      ensures Valid() && called == old(called) + [m]
    {
      FaithfulThrow(world, called, completed, futures, m);
      hide Faithful, NoDup, Reversed;
      called := called + [m];
    }

    // A module completes at once
    method Complete(m: Id)
      requires Valid() && Fresh(m) && world.start(m).AtOnce?
      modifies this`loaded, this`queue, this`completed, this`called
      ensures Valid() && completed == old(completed) + [m] && called == old(called) + [m]
      ensures forall x :: old(Fresh(x)) && x != m ==> Fresh(x)
    {
      hide Faithful, NoDup, Reversed;
      FaithfulComplete(world, called, completed, futures, m);
      Splice(m);
      called := called + [m];
    }

    // A module has started to load
    method Track(m: Id)
      requires Valid() && Fresh(m) && m in all && world.start(m).Later?
      modifies this`tasks, this`futures, this`called
      ensures Valid() && tasks == old(tasks) + [m] && futures == old(futures)[m := Pending] && called == old(called) + [m]
    {
      hide Faithful, Reversed;
      FaithfulTrack(world, called, completed, futures, m);
      assert m !in completed by {
        Counted(all);
        assert multiset(all)[m] <= 1 && multiset(queue)[m] >= 1;
      }
      tasks := tasks + [m];
      futures := futures[m := Pending];
      called := called + [m];
    }

    /** Tasks go on while other things happen: any number of pending futures get a value, an
        exception or are cancelled, and the subscribed callbacks run. */
    method Progress()
      requires Valid()
      modifies this`loaded, this`queue, this`futures, this`completed
      ensures Valid() && old(completed) <= completed && (forall m :: old(Fresh(m)) ==> Fresh(m))
    {
      var steps: nat := *;
      while steps > 0
        invariant Valid() && old(completed) <= completed && (forall m :: old(Fresh(m)) ==> Fresh(m))
      {
        steps := steps - 1;
        var pending := set t | t in futures && futures[t] == Pending;
        if pending == {} {
          return;
        }
        var t :| t in pending;
        SettleTask(t);
      }
    }

    method SettleTask(t: Id)
      requires Valid() && t in futures && futures[t] == Pending
      modifies this`loaded, this`queue, this`futures, this`completed
      ensures Valid() && old(completed) <= completed && (forall m :: old(Fresh(m)) ==> Fresh(m))
    {
      hide Faithful, NoDup, Reversed;
      InQueue(t);
      FaithfulSettle(world, called, completed, futures, t);
      if
      case true =>
        Splice(t);
        futures := futures[t := Value];
      case true => futures := futures[t := Failed];
      case true => futures := futures[t := Cancelled];
    }

    lemma InQueue(t: Id)
      requires Valid() && t in all && t !in completed
      ensures t in queue
    {
      assert t in multiset(all) && t in multiset(completed) + multiset(queue);
    }
  }

  lemma MoveOne(all: seq<Id>, completed: seq<Id>, queue: seq<Id>, i: nat)
    requires NoDup(all) && multiset(completed) + multiset(queue) == multiset(all) && i < |queue|
    ensures var rest := queue[..i] + queue[i + 1..];
            && multiset(completed + [queue[i]]) + multiset(rest) == multiset(all)
            && (forall x :: x in rest <==> x in queue && x != queue[i])
    ensures [queue[i]] + Reversed(completed) == Reversed(completed + [queue[i]])
  {
    ReversedConcat(completed, [queue[i]]);
    Counted(all);
    hide NoDup, Reversed;
    MoveOut(multiset(all), completed, queue, i);
  }

  lemma MoveOut(all: multiset<Id>, completed: seq<Id>, queue: seq<Id>, i: nat)
    requires multiset(completed) + multiset(queue) == all && i < |queue| && forall x :: all[x] <= 1
    ensures var rest := queue[..i] + queue[i + 1..];
            && multiset(completed + [queue[i]]) + multiset(rest) == all
            && (forall x :: x in rest <==> x in queue && x != queue[i])
  {
    var (m, rest) := (queue[i], queue[..i] + queue[i + 1..]);
    assert queue == queue[..i] + [m] + queue[i + 1..];
    assert multiset(completed + [m]) == multiset(completed) + multiset{m};
    OneOut(all, multiset(completed), multiset(queue), multiset(rest), m);
    hide *;
    forall x ensures x in rest <==> x in queue && x != m {
      assert (x in rest <==> x in multiset(rest)) && (x in queue <==> x in multiset(queue));
    }
  }

  lemma OneOut(all: multiset<Id>, completed: multiset<Id>, queue: multiset<Id>, rest: multiset<Id>, m: Id)
    requires completed + queue == all && queue == rest + multiset{m} && forall x :: all[x] <= 1
    ensures completed + multiset{m} + rest == all
    ensures forall x :: x in rest <==> x in queue && x != m
  {
    forall x ensures x in rest <==> x in queue && x != m {
      assert queue[x] <= all[x] <= 1;
    }
  }

  lemma {:induction false} Counted(s: seq<Id>)
    requires NoDup(s)
    ensures forall x :: multiset(s)[x] == if x in s then 1 else 0
  {
    if s != [] {
      Counted(s[..|s| - 1]);
      assert s == s[..|s| - 1] + [s[|s| - 1]];
    }
  }

  predicate Within(s: seq<Id>, has: set<Id>) { forall m <- s :: m in has }

  // Every completion has been unloaded once, those of the modules in `owed` excepted
  predicate Balance(has: set<Id>, completions: multiset<Id>, unloads: seq<Id>, owed: seq<Id>) {
    forall m <- has :: completions[m] == multiset(unloads)[m] + if m in owed then 1 else 0
  }

  // What `after` has behind `before` are callbacks of `modules`
  ghost predicate Threw(has: set<Id>, modules: seq<Id>, before: seq<Id>, after: seq<Id>) {
    before <= after && forall m <- after[|before|..] :: m in modules && m in has
  }

  // With the callbacks of `rest`, a tail of `modules`, those called become `done`
  ghost predicate ToUnload(has: set<Id>, modules: seq<Id>, rest: seq<Id>, done: seq<Id>, unloads: seq<Id>) {
    |rest| <= |modules| && rest == modules[|modules| - |rest|..] && unloads + Unloadable(has, rest) == done
  }

  predicate Ready(world: World) { world.bindings && world.container && world.filled }

  predicate NoneThrows(world: World, s: seq<Id>) { forall m <- s :: !world.start(m).Throws? }

  predicate AllValues(futures: map<Id, Future>) { forall t <- futures :: futures[t] == Value }

  class Core {
    var bad: bool
    var lock: bool
    var loaded: seq<Id>
    var injected: seq<Id>
    var hasUnload: set<Id>
    var bindings: bool
    var container: bool
    var next: Id
    ghost var unloads: seq<Id>  // the unload callbacks called, in order
    ghost var thrown: seq<Id>  // those that threw
    ghost var completions: multiset<Id>  // how often each module has completed loading

    ghost predicate Valid() reads this {
      && !lock && bindings == container
      && NoDup(injected) && NoDup(loaded)
      && (forall m <- injected :: m < next) && (forall m <- hasUnload :: m < next)
      && (forall m <- loaded :: m in injected)
      && (!container ==> loaded == [])
      && (bad && !container ==> injected == [])
      && Balance(hasUnload, completions, unloads, loaded) && Within(unloads, hasUnload)
    }

    constructor ()
      ensures Valid() && !bad && !container && injected == [] && unloads == []
    {
      bad, lock, loaded, injected, hasUnload, bindings, container, next := false, false, [], [], {}, false, false, 0;
      unloads, thrown, completions := [], [], multiset{};
    }

    method Inject(unload: bool) returns (ok: bool)
      requires Valid()
      modifies this
      ensures Valid() && ok == (!old(bad) && !old(container))
      ensures ok ==> injected == old(injected) + [old(next)] && next == old(next) + 1
                     && hasUnload == old(hasUnload) + (if unload then {old(next)} else {})
      ensures !ok ==> injected == old(injected) && hasUnload == old(hasUnload) && next == old(next)
      ensures loaded == old(loaded) && bad == old(bad) && container == old(container)
      ensures unloads == old(unloads) && thrown == old(thrown)
    {
      if bad || container {
        return false;
      }
      assert next !in multiset(unloads) && next !in loaded;
      assert forall i | 0 <= i < |injected| :: injected[i] in injected;
      completions := completions[next := 0];
      injected := injected + [next];
      hasUnload := if unload then hasUnload + {next} else hasUnload;
      next := next + 1;
      ok := true;
    }

    method Invalidate()
      requires Valid()
      modifies this
      ensures Valid() && bad && container == old(container) && loaded == old(loaded)
      ensures unloads == old(unloads) && thrown == old(thrown)
      ensures injected == if old(bad) || old(container) then old(injected) else []
    {
      if bad {
        return;
      }
      bad := true;
      if lock || container {
        return;
      }
      injected := [];
    }

    /** The part of `load` that may throw: it does not exactly if the bindings and the
        container can be made, no load callback throws, and all tasks give their values. */
    method TryLoad(run: Loading) returns (ok: bool)
      requires Valid() && run.Valid() && run.all == run.queue == injected && run.Nothing()
      modifies this`bindings, this`container, run
      ensures run.Valid()
      ensures ok <==> Ready(run.world) && NoneThrows(run.world, injected) && AllValues(run.futures)
      ensures ok ==> bindings && container && multiset(run.completed) == multiset(injected)
      ensures run.called == if Ready(run.world) then Called(run.world, injected) else []
    {
      if !run.world.bindings {
        return false;
      }
      bindings := true;
      if !run.world.container {
        return false;
      }
      container := true;
      if !run.world.filled {
        return false;
      }
      ok := StartAll(run, injected);
      if ok {
        ok := AllDone(run);
        if ok {
          EveryoneCompleted(run);
        }
      }
    }

    // Calls one unload callback
    method CallUnload(m: Id) returns (threw: bool)
      modifies this`unloads, this`thrown
      ensures unloads == old(unloads) + [m]
      ensures threw ==> thrown == old(thrown) + [m]
      ensures !threw ==> thrown == old(thrown)
    {
      unloads := unloads + [m];
      threw := *;
      if threw {
        thrown := thrown + [m];
      }
    }

    /** Calls the unload callbacks, each once, in order, whatever they throw. */
    method UnloadAll(modules: seq<Id>) returns (failed: bool)
      requires NoDup(modules) && Balance(hasUnload, completions, unloads, modules) && Within(unloads, hasUnload)
      modifies this`unloads, this`thrown
      ensures Balance(hasUnload, completions, unloads, []) && Within(unloads, hasUnload)
      ensures unloads == old(unloads) + Unloadable(hasUnload, modules)
      ensures Threw(hasUnload, modules, old(thrown), thrown) && (failed <==> thrown != old(thrown))
    {
      BalancedAfter(hasUnload, completions, unloads, modules);
      ghost var done := unloads + Unloadable(hasUnload, modules);
      ToUnloadFirst(hasUnload, modules, unloads, thrown);
      hide *;
      failed := false;
      var rest := modules;
      while rest != []
        invariant ToUnload(hasUnload, modules, rest, done, unloads) && (failed <==> thrown != old(thrown))
        invariant Threw(hasUnload, modules, old(thrown), thrown)
      {
        ToUnloadNext(hasUnload, modules, rest, done, unloads);
        var m := rest[0];
        rest := rest[1..];
        if m in hasUnload {
          ThrewMore(hasUnload, modules, old(thrown), thrown, m);
          var threw := CallUnload(m);
          failed := failed || threw;
        }
      }
      ToUnloadLast(hasUnload, modules, done, unloads);
    }

    /** Loads all injected modules. `called` are those whose load callback was called, in that
        order, `completed` those that completed, in that order, and `futures` the tasks as
        they stand when loading is through. */
    method Load(world: World)
      returns (r: LoadResult, ghost completed: seq<Id>, ghost called: seq<Id>, ghost futures: map<Id, Future>)
      requires Valid()
      modifies this
      ensures Valid()
      ensures r.Loaded? <==> !old(bad) && !old(container) && Ready(world) && NoneThrows(world, old(injected)) && AllValues(futures)
      ensures called == if !old(bad) && !old(container) && Ready(world) then Called(world, old(injected)) else []
      ensures forall m :: m in futures <==> m in called && world.start(m).Later?
      ensures forall m :: m in completed <==>
                m in called && (world.start(m).AtOnce? || (m in futures && futures[m] == Value))
      ensures OnesAtOnce(world, completed) == OnesAtOnce(world, called)
      ensures r.BadState? <==> old(bad)
      ensures r.AlreadyLoaded? <==> !old(bad) && old(container)
      ensures r.BadState? || r.AlreadyLoaded? ==> Same(old(bad), old(loaded), old(injected), old(container), old(unloads))
      ensures r.Loaded? ==> container && !bad && injected == old(injected) && unloads == old(unloads)
                            && loaded == Reversed(completed) && multiset(loaded) == multiset(injected)
      ensures r.LoadFailed? ==>
                && !container && loaded == [] && unloads == old(unloads) + Unloadable(hasUnload, Reversed(completed))
                && (bad <==> thrown != old(thrown))
                && (bad ==> injected == []) && (!bad ==> injected == old(injected))
      ensures Threw(hasUnload, completed, old(thrown), thrown) && (!r.LoadFailed? ==> thrown == old(thrown))
      ensures hasUnload == old(hasUnload) && next == old(next)
    {
      hide Balance, Unloadable, NoDup, Reversed, Within, Threw;
      hide Called, OnesAtOnce, Faithful, Ready, NoneThrows, AllValues, Loading.Valid;
      NothingLoaded(hasUnload);
      NothingThrown(hasUnload, [], thrown);
      completed, called, futures := [], [], map[];
      if bad {
        r := BadState;
        return;
      }
      if container {
        r := AlreadyLoaded;
        return;
      }
      var run := new Loading(injected, world);
      var ok := TryLoad(run);
      completed, called, futures := run.completed, run.called, run.futures;
      RunTells(run);
      RecordCompletions(run);
      if ok {
        loaded := run.loaded;
        lock := false;
        NothingThrown(hasUnload, completed, thrown);
        r := Loaded;
        return;
      }
      RollBack(run.loaded);
      ThrewAmong(hasUnload, run.loaded, completed, old(thrown), thrown);
      r := LoadFailed;
    }

    // What is left to do when loading has thrown
    method RollBack(modules: seq<Id>)
      requires NoDup(modules) && Balance(hasUnload, completions, unloads, modules)
      requires !lock && loaded == [] && NoDup(injected)
      requires (forall m <- injected :: m < next) && (forall m <- hasUnload :: m < next) && Within(unloads, hasUnload)
      modifies this`bad, this`unloads, this`thrown, this`container, this`bindings, this`injected, this`lock
      ensures Valid() && !container && unloads == old(unloads) + Unloadable(hasUnload, modules)
      ensures Threw(hasUnload, modules, old(thrown), thrown) && (bad <==> old(bad) || thrown != old(thrown))
      ensures (bad ==> injected == []) && (!bad ==> injected == old(injected))
    {
      hide Balance, Unloadable, NoDup, Within, Threw;
      NothingLoaded(hasUnload);
      var failed := UnloadAll(modules);
      bad := bad || failed;
      CleanUp();
    }

    ghost method RecordCompletions(run: Loading)
      requires Balance(hasUnload, completions, unloads, []) && run.Valid()
      modifies this`completions
      ensures Balance(hasUnload, completions, unloads, run.loaded) && NoDup(run.loaded) && multiset(run.loaded) == multiset(run.completed)
      ensures forall m <- run.loaded :: m in run.all
    {
      CompletedOnce(run);
      completions := completions + multiset(run.completed);
    }

    // What failed loading and unloading end with
    method CleanUp()
      modifies this`container, this`bindings, this`injected, this`lock
      ensures !container && !bindings && !lock && (bad ==> injected == []) && (!bad ==> injected == old(injected))
    {
      container := false;
      bindings := false;
      if bad {
        injected := [];
      }
      lock := false;
    }

    /** Unloads all loaded modules, the last to complete first. Unless nothing was loaded the
        core is bad afterwards exactly if a callback threw, whatever it was before. */
    method Unload() returns (r: UnloadResult)
      requires Valid()
      modifies this
      ensures Valid()
      ensures r.NotLoaded? <==> !old(container)
      ensures r.NotLoaded? ==> Same(old(bad), old(loaded), old(injected), old(container), old(unloads))
      ensures !r.NotLoaded? ==>
                && !container && !bindings && loaded == []
                && unloads == old(unloads) + Unloadable(hasUnload, old(loaded))
                && (bad ==> injected == []) && (!bad ==> injected == old(injected))
                && (if old(loaded) == [] then bad == old(bad) else bad == r.UnloadFailed?)
      ensures Threw(hasUnload, old(loaded), old(thrown), thrown) && (r.UnloadFailed? <==> thrown != old(thrown))
      ensures hasUnload == old(hasUnload) && next == old(next)
    {
      hide Balance, Unloadable, NoDup, Within, Threw;
      NothingLoaded(hasUnload);
      NothingThrown(hasUnload, loaded, thrown);
      if !container {
        return NotLoaded;
      }
      r := Unloaded;
      if loaded != [] {
        var modules := loaded;
        loaded := [];
        bad := UnloadAll(modules);
        if bad {
          r := UnloadFailed;
        }
      }
      CleanUp();
    }

    ghost predicate Same(bad: bool, loaded: seq<Id>, injected: seq<Id>, container: bool, unloads: seq<Id>) reads this {
      this.bad == bad && this.loaded == loaded && this.injected == injected && this.container == container && this.unloads == unloads
    }
  }

  lemma RunTells(run: Loading)
    requires run.Valid()
    ensures run.loaded == Reversed(run.completed)
    ensures forall m :: m in run.futures <==> m in run.called && run.world.start(m).Later?
    ensures forall m :: m in run.completed <==>
              m in run.called && (run.world.start(m).AtOnce? || (m in run.futures && run.futures[m] == Value))
    ensures OnesAtOnce(run.world, run.completed) == OnesAtOnce(run.world, run.called)
  {
  }

  lemma NothingLoaded(has: set<Id>)
    ensures NoDup<Id>([]) && Unloadable(has, []) == []
  {
  }

  lemma NothingThrown(has: set<Id>, modules: seq<Id>, thrown: seq<Id>)
    ensures Threw(has, modules, thrown, thrown)
  {
  }

  lemma ThrewMore(has: set<Id>, modules: seq<Id>, before: seq<Id>, after: seq<Id>, m: Id)
    requires Threw(has, modules, before, after) && m in modules && m in has
    ensures Threw(has, modules, before, after + [m]) && after + [m] != before
  {
    assert (after + [m])[|before|..] == after[|before|..] + [m];
  }

  lemma ThrewAmong(has: set<Id>, modules: seq<Id>, same: seq<Id>, before: seq<Id>, after: seq<Id>)
    requires Threw(has, modules, before, after) && multiset(modules) == multiset(same)
    ensures Threw(has, same, before, after)
  {
    forall m | m in modules ensures m in same {
      assert m in multiset(modules);
    }
  }

  lemma CompletedOnce(run: Loading)
    requires run.Valid()
    ensures NoDup(run.loaded) && multiset(run.loaded) == multiset(run.completed)
    ensures forall m :: multiset(run.completed)[m] == if m in run.loaded then 1 else 0
    ensures forall m <- run.loaded :: m in run.all
  {
    ReversedMembers(run.completed);
    Counted(run.all);
    forall m ensures multiset(run.loaded)[m] == (if m in run.loaded then 1 else 0) && (m in run.loaded ==> m in run.all) {
      assert multiset(run.loaded)[m] <= multiset(run.all)[m] <= 1;
      assert m in run.loaded <==> m in multiset(run.loaded);
    }
    OnceNoDup(run.loaded);
  }

  lemma OnceNoDup(s: seq<Id>)
    requires forall m :: multiset(s)[m] <= 1
    ensures NoDup(s)
  {
    forall i, j | 0 <= i < j < |s| ensures s[i] != s[j] {
      assert s == s[..i] + [s[i]] + s[i + 1..j] + [s[j]] + s[j + 1..];
      assert 1 >= multiset(s)[s[i]] >= 1 + if s[j] == s[i] then 1 else 0;
    }
  }

  lemma ToUnloadFirst(has: set<Id>, modules: seq<Id>, unloads: seq<Id>, thrown: seq<Id>)
    ensures ToUnload(has, modules, modules, unloads + Unloadable(has, modules), unloads)
    ensures Threw(has, modules, thrown, thrown)
  {
  }

  lemma ToUnloadLast(has: set<Id>, modules: seq<Id>, done: seq<Id>, unloads: seq<Id>)
    requires ToUnload(has, modules, [], done, unloads)
    ensures unloads == done
  {
  }

  lemma ToUnloadNext(has: set<Id>, modules: seq<Id>, rest: seq<Id>, done: seq<Id>, unloads: seq<Id>)
    requires ToUnload(has, modules, rest, done, unloads) && rest != []
    ensures rest[0] in modules
    ensures rest[0] in has ==> ToUnload(has, modules, rest[1..], done, unloads + [rest[0]])
    ensures rest[0] !in has ==> ToUnload(has, modules, rest[1..], done, unloads)
  {
    var after := Unloadable(has, rest[1..]);
    assert rest[0] == modules[|modules| - |rest|];
    if rest[0] in has {
      assert Unloadable(has, rest) == [rest[0]] + after;
      Regroup(unloads, [rest[0]], after);
    } else {
      assert Unloadable(has, rest) == [] + after == after;
    }
    hide Unloadable;
  }

  lemma Regroup(a: seq<Id>, b: seq<Id>, c: seq<Id>)
    ensures a + (b + c) == (a + b) + c
  {
  }

  // Unloading `s` makes up for the completions that have not been unloaded
  lemma BalancedAfter(has: set<Id>, completions: multiset<Id>, unloads: seq<Id>, s: seq<Id>)
    requires NoDup(s) && forall m <- has :: completions[m] == multiset(unloads)[m] + if m in s then 1 else 0
    ensures Balance(has, completions, unloads + Unloadable(has, s), [])
    ensures Within(unloads, has) ==> Within(unloads + Unloadable(has, s), has)
  {
    Balanced(has, s);
    hide Unloadable;
    forall m <- Unloadable(has, s) ensures m in has {
      assert m in multiset(Unloadable(has, s));
    }
  }

  /** The callbacks called for a list come in its order: those of one part, then those of the
      next. */
  lemma {:induction false} UnloadableInOrder(has: set<Id>, a: seq<Id>, b: seq<Id>)
    ensures Unloadable(has, a + b) == Unloadable(has, a) + Unloadable(has, b)
    ensures |a| == 1 ==> Unloadable(has, a) == if a[0] in has then a else []
  {
    if a == [] {
      assert a + b == b;
    } else {
      assert (a + b)[1..] == a[1..] + b && (a + b)[0] == a[0];
      UnloadableInOrder(has, a[1..], b);
      Regroup(if a[0] in has then [a[0]] else [], Unloadable(has, a[1..]), Unloadable(has, b));
    }
  }

  // Every module of a list is unloaded once if it can be
  lemma {:induction false} Balanced(has: set<Id>, s: seq<Id>)
    requires NoDup(s)
    ensures forall m :: multiset(Unloadable(has, s))[m] == if m in s && m in has then 1 else 0
  {
    if s != [] {
      Balanced(has, s[1..]);
      assert s == [s[0]] + s[1..];
    }
  }

  // Starts every module in turn; the ones that load at once are loaded then
  method StartAll(run: Loading, modules: seq<Id>) returns (ok: bool)
    requires run.Valid() && NoDup(run.all) && run.all == run.queue == modules && run.Nothing()
    modifies run
    ensures run.Valid() && run.called == Called(run.world, modules)
    ensures ok <==> NoneThrows(run.world, modules)
    ensures ok ==> forall m <- modules :: m in run.tasks || m in run.completed
  {
    var rest := modules;
    hide Loading.Valid;
    assert Started(run.world, modules, rest, run.called, run.tasks, run.completed);
    hide Started, Called, NoDup, NoneThrows, Loading.Fresh;
    ok := true;
    while rest != []
      invariant ok && run.Valid() && run.all == modules && NoDup(rest)
      invariant forall m <- rest :: m in modules && run.Fresh(m)
      invariant Started(run.world, modules, rest, run.called, run.tasks, run.completed)
      decreases |rest|
    {
      var m := rest[0];
      RestApart(rest);
      ghost var (called, tasks, completed) := (run.called, run.tasks, run.completed);
      run.Progress();
      ok := StartOne(run, m);
      StartedNext(run.world, modules, rest, called, tasks, completed, run.tasks, run.completed);
      if !ok {
        return;
      }
      rest := rest[1..];
    }
    NobodyLeft(run.world, modules, run.called, run.tasks, run.completed);
  }

  // The modules of `rest` have not been started, the others have, and none of them threw
  ghost predicate Started(world: World, modules: seq<Id>, rest: seq<Id>, called: seq<Id>, tasks: seq<Id>, completed: seq<Id>) {
    && (forall m <- modules :: m in rest || (!world.start(m).Throws? && (m in tasks || m in completed)))
    && called + Called(world, rest) == Called(world, modules)
  }

  lemma RestApart(rest: seq<Id>)
    requires NoDup(rest) && rest != []
    ensures NoDup(rest[1..]) && forall m <- rest[1..] :: m in rest && m != rest[0]
  {
  }

  lemma NobodyLeft(world: World, modules: seq<Id>, called: seq<Id>, tasks: seq<Id>, completed: seq<Id>)
    requires Started(world, modules, [], called, tasks, completed)
    ensures forall m <- modules :: m in tasks || m in completed
    ensures NoneThrows(world, modules) && called == Called(world, modules)
  {
    assert called + [] == called;
  }

  // `rest[0]` is started
  lemma StartedNext(world: World, modules: seq<Id>, rest: seq<Id>, called: seq<Id>, tasks: seq<Id>, completed: seq<Id>,
                    tasks1: seq<Id>, completed1: seq<Id>)
    requires Started(world, modules, rest, called, tasks, completed) && rest != [] && rest[0] in modules
    requires tasks <= tasks1 && completed <= completed1
    ensures world.start(rest[0]).Throws? ==> called + [rest[0]] == Called(world, modules) && !NoneThrows(world, modules)
    ensures !world.start(rest[0]).Throws? && (rest[0] in tasks1 || rest[0] in completed1) ==>
              Started(world, modules, rest[1..], called + [rest[0]], tasks1, completed1)
  {
    Regroup(called, [rest[0]], Called(world, rest[1..]));
    assert [rest[0]] + [] == [rest[0]];
    assert rest == [rest[0]] + rest[1..];
  }

  method StartOne(run: Loading, m: Id) returns (ok: bool)
    requires run.Valid() && m in run.all && run.Fresh(m)
    modifies run
    ensures run.Valid() && old(run.tasks) <= run.tasks && old(run.completed) <= run.completed
    ensures run.called == old(run.called) + [m]
    ensures forall x :: old(run.Fresh(x)) && x != m ==> run.Fresh(x)
    ensures ok <==> !run.world.start(m).Throws?
    ensures ok ==> m in run.tasks || m in run.completed
  {
    hide Faithful, NoDup, Reversed;
    ok := true;
    match run.world.start(m) {
      case Throws =>
        run.Throw(m);
        ok := false;
      case AtOnce => run.Complete(m);
      case Later =>
        run.Track(m);
        run.Progress();
    }
  }

  // Whether every task has given its value by the end
  method AllDone(run: Loading) returns (ok: bool)
    requires run.Valid()
    ensures ok <==> AllValues(run.futures)
  {
    var stuck := false;
    for j := 0 to |run.tasks|
      invariant !stuck <==> forall t <- run.tasks[..j] :: run.futures[t] == Value
    {
      var t := run.tasks[j];
      assert t in run.tasks && run.tasks[..j + 1] == run.tasks[..j] + [t];
      if run.futures[t] == Failed || run.futures[t] == Cancelled {
        return false;
      }
      if run.futures[t] != Value {
        stuck := true;
      }
    }
    ok := !stuck;
    assert run.tasks[..|run.tasks|] == run.tasks;
  }

  lemma EveryoneCompleted(run: Loading)
    requires run.Valid() && (forall m <- run.all :: m in run.tasks || m in run.completed)
    requires AllValues(run.futures)
    ensures multiset(run.completed) == multiset(run.all)
  {
    Counted(run.all);
    forall x ensures multiset(run.completed)[x] == multiset(run.all)[x] {
      if x in run.all {
        assert x in run.completed;
      }
    }
  }
}
