/** The exclusive lock on a container node: whoever holds it may put a payload into the
    node, and takes the payload along when letting go, unless the lock is pinned. */
module ContainerLock {

  import opened Wrappers

  datatype Payload = Payload(instance: nat, qualifiers: nat)

  // A node; it stops being alive when the container and everybody else have let go of it
  class Node {
    var alive: bool
    var lock: bool
    var payload: Option<Payload>

    constructor ()
      ensures alive && !lock && payload == None
    {
      alive, lock, payload := true, false, None;
    }

    // Changes the lock flag; false when it is in that state already
    method SetLock(state: bool) returns (changed: bool)
      modifies this`lock
      ensures changed == (old(lock) != state) && lock == state
    {
      if state == lock {
        return false;
      }
      lock := state;
      changed := true;
    }

    method SetPayload(p: Option<Payload>)
      modifies this`payload
      ensures payload == p
    {
      payload := p;
    }

    method Destroy()
      modifies this`alive
      ensures !alive
    {
      alive := false;
    }
  }

  /** What holds between operations: a node has at most one linked lock and is locked if it
      has one, and a node that is not locked is empty. */
  ghost predicate Exclusive(locks: set<Lock>, nodes: set<Node>)
    reads locks, nodes
  {
    && (forall l <- locks | l.node != null :: l.node in nodes && (l.node.alive ==> l.node.lock))
    && (forall a <- locks, b <- locks | a != b && a.node != null && a.node.alive :: a.node != b.node)
    && (forall n <- nodes :: !n.lock ==> n.payload == None)
  }

  // Locked, but by no lock any more
  ghost predicate Orphaned(n: Node, locks: set<Lock>)
    reads n, locks
  {
    n.alive && n.lock && forall l <- locks :: l.node != n
  }

  // A node that a pinned lock has left behind stays locked, with the payload it has, and none comes back to life
  twostate predicate OrphansKept(before: set<Lock>, new after: set<Lock>, nodes: set<Node>)
    reads after, nodes
  {
    && (forall n <- nodes | old(Orphaned(n, before)) && n.alive :: Orphaned(n, after) && n.payload == old(n.payload))
    && (forall n <- nodes | !old(n.alive) :: !n.alive)
  }

  class Lock {
    var node: Node?   // a weak pointer: it may name a node that is not alive any more
    var pinned: bool

    predicate Linked() reads this, node { node != null && node.alive }

    constructor Unlinked()
      ensures node == null && !pinned
    {
      node, pinned := null, false;
    }

    // Locks a node; the caller has made sure that nobody else has
    constructor Holding(n: Node)
      ensures node == n && !pinned
    {
      node, pinned := n, false;
    }

    // Takes over what another lock held; the other one keeps its pinned flag
    constructor Moved(from: Lock, ghost locks: set<Lock>, ghost nodes: set<Node>)
      requires from in locks && Exclusive(locks, nodes)
      modifies from`node
      ensures node == old(from.node) && pinned == from.pinned && from.node == null
      ensures Exclusive(locks + {this}, nodes) && OrphansKept(locks, locks + {this}, nodes)
    {
      node, pinned := from.node, from.pinned;
      new;
      from.node := null;
    }

    /** Lets go of the node and empties it. A pinned lock leaves the node locked, with its
        payload, and then nobody can lock it any more. */
    method Unlink(ghost locks: set<Lock>, ghost nodes: set<Node>) returns (r: bool)
      requires this in locks && Exclusive(locks, nodes)
      modifies this`node, node
      ensures Exclusive(locks, nodes) && OrphansKept(locks, locks, nodes)
      ensures r == old(Linked()) && !Linked()
      ensures !r ==> node == old(node) && (node != null ==> unchanged(node))
      ensures r ==> node == null && old(node).alive
      ensures r && pinned ==> unchanged(old(node)) && Orphaned(old(node), locks)
      ensures r && !pinned ==> !old(node).lock && old(node).payload == None
    {
      if node == null || !node.alive {
        return false;
      }
      var n := node;
      node := null;
      if pinned {
        return true;
      }
      var c := n.SetLock(false);
      n.SetPayload(None);
      r := true;
    }

    // Lets go of the node and empties it, pinned or not
    method Release(ghost locks: set<Lock>, ghost nodes: set<Node>) returns (r: bool)
      requires this in locks && Exclusive(locks, nodes)
      modifies this`node, node
      ensures Exclusive(locks, nodes) && OrphansKept(locks, locks, nodes)
      ensures r == old(Linked()) && !Linked()
      ensures !r ==> node == old(node) && (node != null ==> unchanged(node))
      ensures r ==> node == null && old(node).alive && !old(node).lock && old(node).payload == None
    {
      if node == null || !node.alive {
        return false;
      }
      var n := node;
      node := null;
      var c := n.SetLock(false);
      n.SetPayload(None);
      r := true;
    }

    // Whether the lock is pinned; a flag left over from a node gone by does not count
    predicate IsPinned() reads this, node { Linked() && pinned }

    // Pins a lock that has a node; without one the flag stays what it was
    method Pin() returns (r: bool)
      modifies this`pinned
      ensures r == (Linked() && !old(IsPinned())) && IsPinned() == Linked()
      ensures !Linked() ==> pinned == old(pinned)
    {
      if node == null || !node.alive {
        return false;
      }
      r := !pinned;
      pinned := true;
    }

    method Unpin() returns (r: bool)
      modifies this`pinned
      ensures r == old(IsPinned()) && !IsPinned()
      ensures !Linked() ==> pinned == old(pinned)
    {
      if node == null || !node.alive {
        return false;
      }
      r := pinned;
      pinned := false;
    }

    // Puts a payload into the node; without a node that is an error
    method Assign(p: Payload, ghost locks: set<Lock>, ghost nodes: set<Node>) returns (ok: bool)
      requires this in locks && Exclusive(locks, nodes)
      modifies node
      ensures Exclusive(locks, nodes) && OrphansKept(locks, locks, nodes)
      ensures ok == Linked() && (ok ==> node.payload == Some(p) && node.lock)
      ensures !ok && node != null ==> unchanged(node)
    {
      if node == null || !node.alive {
        return false;
      }
      node.SetPayload(Some(p));
      ok := true;
    }

    /** Takes over what `other` holds, and lets go of what this lock held itself. */
    method MoveFrom(other: Lock, ghost locks: set<Lock>, ghost nodes: set<Node>)
      requires this in locks && other in locks && Exclusive(locks, nodes)
      modifies this, other, node
      ensures Exclusive(locks, nodes) && OrphansKept(locks, locks, nodes)
      ensures other == this ==> node == old(node) && pinned == old(pinned) && (node != null ==> unchanged(node))
      ensures other != this ==> node == old(other.node) && pinned == old(other.pinned) && other.node == null && !other.pinned
      ensures other != this && old(Linked()) && !old(pinned) ==> !old(node).lock && old(node).payload == None
      ensures other != this && old(Linked()) && old(pinned) ==> unchanged(old(node)) && Orphaned(old(node), locks)
    {
      if this == other {
        return;
      }
      var n, wasPinned := node, pinned;
      node, pinned := other.node, other.pinned;
      other.node, other.pinned := null, false;
      if n != null && n.alive && !wasPinned {
        var c := n.SetLock(false);
        n.SetPayload(None);
      }
    }

    // The destructor
    method Drop(ghost locks: set<Lock>, ghost nodes: set<Node>)
      requires this in locks && Exclusive(locks, nodes)
      modifies this`node, node
      ensures Exclusive(locks - {this}, nodes) && OrphansKept(locks, locks - {this}, nodes)
      ensures old(Linked()) && pinned ==> unchanged(old(node)) && Orphaned(old(node), locks - {this})
      ensures old(Linked()) && !pinned ==> !old(node).lock && old(node).payload == None
      ensures !old(Linked()) && old(node) != null ==> unchanged(old(node))
    {
      var r := Unlink(locks, nodes);
    }
  }

  /** Locks a node. It fails exactly when the node is locked, by a linked lock or by a pinned
      one long gone. */
  method Acquire(n: Node?, ghost locks: set<Lock>, ghost nodes: set<Node>) returns (l: Lock?)
    requires Exclusive(locks, nodes) && (n != null ==> n in nodes && n.alive)
    modifies n
    ensures l == null <==> n != null && old(n.lock)
    ensures l == null ==> unchanged(n)
    ensures l != null ==> fresh(l) && l.node == n && !l.pinned && (n != null ==> n.lock && n.payload == old(n.payload) == None)
    ensures l != null ==> Exclusive(locks + {l}, nodes) && OrphansKept(locks, locks + {l}, nodes)
  {
    if n == null {
      l := new Lock.Unlinked();
      return;
    }
    var locked := n.SetLock(true);
    if !locked {
      return null;
    }
    l := new Lock.Holding(n);
  }

  // A node is destroyed: the locks that named it are unlinked by that
  method DestroyNode(n: Node, ghost locks: set<Lock>, ghost nodes: set<Node>)
    requires n in nodes && Exclusive(locks, nodes)
    modifies n`alive
    ensures Exclusive(locks, nodes) && OrphansKept(locks, locks, nodes)
    ensures forall l <- locks | l.node == n :: !l.Linked()
  {
    n.Destroy();
  }

  /** The nodes of a container by key. */
  class Driver<Key(==)> {
    var nodes: map<Key, Node>

    constructor ()
      ensures nodes == map[] && Valid()
    {
      nodes := map[];
    }

    // Different keys have different nodes
    ghost predicate Valid() reads this { forall a <- nodes, b <- nodes | a != b :: nodes[a] != nodes[b] }

    /** The node of a key, the same one every time; an empty one is made at the first. */
    method NodeFor(key: Key) returns (n: Node)
      requires Valid()
      modifies this
      ensures Valid() && key in nodes && nodes[key] == n
      ensures key in old(nodes) ==> nodes == old(nodes)
      ensures key !in old(nodes) ==> nodes == old(nodes)[key := n] && fresh(n) && n.alive && !n.lock && n.payload == None
    {
      if key in nodes {
        return nodes[key];
      }
      n := new Node();
      nodes := nodes[key := n];
    }
  }

  /** What pinning is for: the last of `Pin` and `Unpin` before a lock goes decides whether
      its node keeps lock and payload for good or is free and empty. */
  method PinDecidesDrop(l: Lock, pin: bool, ghost locks: set<Lock>, ghost nodes: set<Node>) returns (changed: bool)
    requires l in locks && Exclusive(locks, nodes)
    modifies l, l.node
    ensures Exclusive(locks - {l}, nodes) && OrphansKept(locks, locks - {l}, nodes)
    ensures changed == (old(l.Linked()) && old(l.pinned) != pin)
    ensures old(l.Linked()) && pin ==> unchanged(old(l.node)) && Orphaned(old(l.node), locks - {l})
    ensures old(l.Linked()) && !pin ==> !old(l.node).lock && old(l.node).payload == None
    ensures !old(l.Linked()) && old(l.node) != null ==> unchanged(old(l.node))
  {
    if pin {
      changed := l.Pin();
    } else {
      changed := l.Unpin();
    }
    l.Drop(locks, nodes);
  }

  // The nodes of `orphans` that are alive are orphaned and hold what they held
  ghost predicate StillOrphaned(orphans: map<Node, Option<Payload>>, locks: set<Lock>)
    reads orphans.Keys, locks
  {
    forall n <- orphans | n.alive :: Orphaned(n, locks) && n.payload == orphans[n]
  }

  /** Any run of any operations on any number of locks and nodes, from any state in which
      holding is exclusive, leads to such a state again; and what pinned locks had left
      behind in their nodes stays there, locked, for as long as the nodes live. */
  method AnyRun(steps: nat, before: set<Lock>, all: set<Node>) returns (locks: set<Lock>, nodes: set<Node>)
    requires Exclusive(before, all)
    modifies before, all
    ensures Exclusive(locks, nodes) && all <= nodes && OrphansKept(before, locks, all)
  {
    locks, nodes := before, all;
    ghost var orphans := map n <- all | Orphaned(n, before) :: n.payload;
    for i := 0 to steps
      invariant fresh(locks - before) && fresh(nodes - all) && all <= nodes && Exclusive(locks, nodes)
      invariant StillOrphaned(orphans, locks) && forall n <- all | !old(n.alive) :: !n.alive
    {
      locks, nodes := AnyStep(locks, nodes, orphans);
    }
  }

  // One operation, or a new node or lock
  method AnyStep(before: set<Lock>, all: set<Node>, ghost orphans: map<Node, Option<Payload>>)
    returns (locks: set<Lock>, nodes: set<Node>)
    requires Exclusive(before, all) && orphans.Keys <= all && StillOrphaned(orphans, before)
    modifies before, all
    ensures Exclusive(locks, nodes) && fresh(locks - before) && fresh(nodes - all) && all <= nodes
    ensures StillOrphaned(orphans, locks) && forall n <- all | !old(n.alive) :: !n.alive
  {
    locks, nodes := before, all;
    if
    case true =>
      var n := new Node();
      nodes := nodes + {n};
    case true =>
      var l := new Lock.Unlinked();
      locks := locks + {l};
    case nodes != {} =>
      var n :| n in nodes;
      if n.alive {
        var l := Acquire(n, locks, nodes);
        locks := if l == null then locks else locks + {l};
      }
    case nodes != {} =>
      var n :| n in nodes;
      DestroyNode(n, locks, nodes);
    case locks != {} =>
      var l :| l in locks;
      locks := UseLock(l, locks, nodes);
  }

  // One operation on a lock
  method UseLock(l: Lock, before: set<Lock>, nodes: set<Node>) returns (locks: set<Lock>)
    requires l in before && Exclusive(before, nodes)
    modifies before, nodes
    ensures Exclusive(locks, nodes) && fresh(locks - before) && OrphansKept(before, locks, nodes)
  {
    locks := before;
    var r, p := false, *;
    if
    case true => r := l.Unlink(before, nodes);
    case true => r := l.Release(before, nodes);
    case true => r := l.Pin();
    case true => r := l.Unpin();
    case true => r := l.Assign(p, before, nodes);
    case true =>
      var other :| other in before;
      l.MoveFrom(other, before, nodes);
    case true =>
      var moved := new Lock.Moved(l, before, nodes);
      locks := before + {moved};
    case true =>
      l.Drop(before, nodes);
      locks := before - {l};
  }
}
