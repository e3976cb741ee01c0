/**
 The check for circular definitions: a depth-first search that keeps a set of visited
 addresses and a set of addresses on the recursion stack.

 Properties are held by value in a map, Items by pointer. A definition is therefore a
 finite tree of properties with pointers in it, and only pointers can close a cycle. The
 search passes a property on by the address of a loop variable, which is new in every
 iteration, so it carries a fresh address here too.
 */
module CycleChecker {
  import opened Wrappers

  type Ptr = nat

  /** The two fields of a definition that the search follows. */
  datatype Node = Node(properties: map<string, Node>, items: Option<Ptr>)

  /** The definitions that pointers point to. */
  type Store = map<Ptr, Node>

  // ---------- The graph of definitions ----------

  /** The definition found under a chain of property keys inside a pointed-to definition. */
  datatype Location = Location(ptr: Ptr, keys: seq<string>)

  function Descend(d: Node, keys: seq<string>): Option<Node> {
    if keys == [] then Some(d)
    else if keys[0] in d.properties then Descend(d.properties[keys[0]], keys[1..])
    else None
  }

  function NodeAt(store: Store, at: Location): Option<Node> {
    if at.ptr in store then Descend(store[at.ptr], at.keys) else None
  }

  /** One step through Properties or Items. */
  ghost predicate Step(store: Store, a: Location, b: Location) {
    match NodeAt(store, a)
    case None => false
    case Some(d) =>
      || (exists k :: k in d.properties && b == Location(a.ptr, a.keys + [k]))
      || (d.items == Some(b.ptr) && b.keys == [])
  }

  ghost predicate IsPath(store: Store, path: seq<Location>) {
    forall i {:trigger path[i]} :: 0 <= i < |path| - 1 ==> Step(store, path[i], path[i + 1])
  }

  ghost predicate PathBetween(store: Store, path: seq<Location>, a: Location, b: Location) {
    path != [] && path[0] == a && path[|path| - 1] == b && IsPath(store, path)
  }

  ghost predicate Reaches(store: Store, a: Location, b: Location) {
    exists path :: PathBetween(store, path, a, b)
  }

  /** In one step or more. */
  ghost predicate ReachesOn(store: Store, a: Location, b: Location) {
    exists path :: PathBetween(store, path, a, b) && |path| > 1
  }

  /** Some definition reachable from the root can reach itself. */
  ghost predicate Circular(store: Store, root: Ptr) {
    exists at :: Reaches(store, Location(root, []), at) && ReachesOn(store, at, at)
  }

  /** Every pointer points to a definition. */
  ghost predicate Closed(store: Store) {
    forall p :: p in store ==> Targets(store[p]) <= store.Keys
  }

  /** The pointers anywhere inside a definition. */
  function Targets(d: Node): set<Ptr> {
    (if d.items.Some? then {d.items.value} else {}) +
    set k, q | k in d.properties && q in Targets(d.properties[k]) :: q
  }

  lemma ReachesSelf(store: Store, a: Location)
    ensures Reaches(store, a, a)
  {
    assert PathBetween(store, [a], a, a);
  }

  lemma ReachesStep(store: Store, a: Location, b: Location, c: Location)
    requires Reaches(store, a, b) && Step(store, b, c)
    ensures Reaches(store, a, c) && ReachesOn(store, a, c)
  {
    var path :| PathBetween(store, path, a, b);
    assert PathBetween(store, path + [c], a, c);
  }

  lemma {:induction false} DescendExtend(d: Node, keys: seq<string>, k: string)
    requires Descend(d, keys).Some? && k in Descend(d, keys).value.properties
    ensures Descend(d, keys + [k]) == Some(Descend(d, keys).value.properties[k])
    decreases |keys|
  {
    if keys == [] {
      assert [] + [k] == [k];
      assert [k][1..] == [];
    } else {
      assert (keys + [k])[1..] == keys[1..] + [k];
      DescendExtend(d.properties[keys[0]], keys[1..], k);
    }
  }

  lemma {:induction false} DescendTargets(d: Node, keys: seq<string>)
    requires Descend(d, keys).Some?
    ensures Targets(Descend(d, keys).value) <= Targets(d)
    decreases |keys|
  {
    if keys != [] {
      DescendTargets(d.properties[keys[0]], keys[1..]);
      assert forall q :: q in Targets(d.properties[keys[0]]) ==> q in Targets(d);
    }
  }

  // ---------- Finished definitions hold no cycle ----------

  /** Pointers of `done` lead only to pointers of `done`. */
  ghost predicate ClosedUnder(store: Store, done: set<Ptr>) {
    forall p :: p in done ==> p in store && Targets(store[p]) <= done
  }

  ghost predicate NoCycleIn(store: Store, done: set<Ptr>) {
    forall at: Location :: at.ptr in done ==> !ReachesOn(store, at, at)
  }

  lemma StepStays(store: Store, a: Location, b: Location)
    requires Step(store, a, b)
    ensures (b.ptr == a.ptr && |b.keys| == |a.keys| + 1) || b.ptr in Targets(store[a.ptr])
  {
    DescendTargets(store[a.ptr], a.keys);
  }

  /** A path that starts among finished definitions stays there. */
  lemma {:induction false} PathStays(store: Store, done: set<Ptr>, path: seq<Location>, i: nat)
    requires ClosedUnder(store, done) && IsPath(store, path) && i < |path| && path[0].ptr in done
    ensures path[i].ptr in done
  {
    if i > 0 {
      PathStays(store, done, path, i - 1);
      assert Step(store, path[i - 1], path[i - 1 + 1]);
      StepStays(store, path[i - 1], path[i]);
    }
  }

  /** A path from `p` has either gone down its properties or left it for its finished targets. */
  lemma {:induction false} PathLeaves(store: Store, done: set<Ptr>, p: Ptr, path: seq<Location>, i: nat)
    requires ClosedUnder(store, done) && p in store && Targets(store[p]) <= done && p !in done
    requires IsPath(store, path) && i < |path| && path[0].ptr == p
    ensures path[i].ptr in done || (path[i].ptr == p && |path[i].keys| == |path[0].keys| + i)
  {
    if i > 0 {
      PathLeaves(store, done, p, path, i - 1);
      assert Step(store, path[i - 1], path[i - 1 + 1]);
      StepStays(store, path[i - 1], path[i]);
    }
  }

  /** Finishing a definition whose targets are finished adds no cycle. */
  lemma FinishKeepsAcyclic(store: Store, done: set<Ptr>, p: Ptr)
    requires ClosedUnder(store, done) && NoCycleIn(store, done)
    requires p in store && Targets(store[p]) <= done && p !in done
    ensures ClosedUnder(store, done + {p}) && NoCycleIn(store, done + {p})
  {
    forall at: Location | at.ptr in done + {p} ensures !ReachesOn(store, at, at) {
      if at.ptr == p && ReachesOn(store, at, at) {
        var path :| PathBetween(store, path, at, at) && |path| > 1;
        PathLeaves(store, done, p, path, |path| - 1);
      }
    }
  }

  lemma FinishedRootNotCircular(store: Store, done: set<Ptr>, root: Ptr)
    requires ClosedUnder(store, done) && NoCycleIn(store, done) && root in done
    ensures !Circular(store, root)
  {
    if Circular(store, root) {
      var at :| Reaches(store, Location(root, []), at) && ReachesOn(store, at, at);
      var path :| PathBetween(store, path, Location(root, []), at);
      PathStays(store, done, path, |path| - 1);
    }
  }

  // ---------- The search ----------

  /** What a `*Definition` can point at: a stored definition, or a loop variable holding a copy. */
  datatype Address = Stored(ptr: Ptr) | Copied(n: int)

  function Pointers(addresses: set<Address>): set<Ptr> {
    set a | a in addresses && a.Stored? :: a.ptr
  }

  /** Visited, and off the recursion stack again. */
  function Finished(visited: set<Address>, recStack: set<Address>): set<Ptr> {
    Pointers(visited) - Pointers(recStack)
  }

  ghost predicate SearchInv(store: Store, visited: set<Address>, recStack: set<Address>, copies: int) {
    && Closed(store) && Pointers(visited) <= store.Keys && recStack <= visited
    && (forall n :: Copied(n) in visited ==> n < copies)
    && ClosedUnder(store, Finished(visited, recStack)) && NoCycleIn(store, Finished(visited, recStack))
  }

  /** The root reaches `at`, and so does everything on the stack, in one step or more. */
  ghost predicate StackLeadsTo(store: Store, root: Ptr, recStack: set<Address>, at: Location) {
    && Reaches(store, Location(root, []), at)
    && forall r {:trigger Stored(r)} :: Stored(r) in recStack ==> ReachesOn(store, Location(r, []), at)
  }

  /** The definition `a` holds is the one at `at`; a copy's address is new. */
  ghost predicate Holds(store: Store, a: Address, d: Node, at: Location, visited: set<Address>, copies: int) {
    && NodeAt(store, at) == Some(d)
    && (a.Stored? ==> at == Location(a.ptr, []))
    && (a.Copied? ==> a !in visited && a.n < copies)
  }

  /** Marking an address visited and on the stack finishes nothing. */
  lemma Mark(
      store: Store, a: Address, d: Node, at: Location, visited: set<Address>, recStack: set<Address>, copies: int)
    requires SearchInv(store, visited, recStack, copies) && Holds(store, a, d, at, visited, copies) && a !in visited
    ensures SearchInv(store, visited + {a}, recStack + {a}, copies)
    ensures Finished(visited + {a}, recStack + {a}) == Finished(visited, recStack)
    ensures a.Stored? ==> Pointers(visited + {a}) == Pointers(visited) + {a.ptr} && a.ptr !in Pointers(visited)
    ensures a.Copied? ==> Pointers(visited + {a}) == Pointers(visited)
  {
    if a.Stored? {
      assert Pointers(visited + {a}) == Pointers(visited) + {a.ptr};
      assert Pointers(recStack + {a}) == Pointers(recStack) + {a.ptr};
    } else {
      assert Pointers(visited + {a}) == Pointers(visited);
      assert Pointers(recStack + {a}) == Pointers(recStack);
    }
  }

  /** Taking an address off the stack finishes it, once its targets are finished. */
  lemma Unmark(
      store: Store, a: Address, d: Node, at: Location, visited: set<Address>, recStack: set<Address>, copies: int)
    requires SearchInv(store, visited, recStack + {a}, copies) && a !in recStack
    requires NodeAt(store, at) == Some(d) && (a.Stored? ==> at == Location(a.ptr, []))
    requires Targets(d) <= Finished(visited, recStack + {a})
    ensures SearchInv(store, visited, recStack, copies)
    ensures Targets(d) <= Finished(visited, recStack) && (a.Stored? ==> a.ptr in Finished(visited, recStack))
  {
    var before := Finished(visited, recStack + {a});
    if a.Stored? {
      assert a in visited;
      assert Pointers(recStack + {a}) == Pointers(recStack) + {a.ptr};
      assert a.ptr !in Pointers(recStack);
      FinishKeepsAcyclic(store, before, a.ptr);
      assert Finished(visited, recStack) == before + {a.ptr};
    } else {
      assert Pointers(recStack + {a}) == Pointers(recStack);
    }
  }

  /** The stack with `a` on it leads one step further. */
  lemma LeadOn(store: Store, root: Ptr, recStack: set<Address>, a: Address, at: Location, next: Location)
    requires StackLeadsTo(store, root, recStack, at) && Step(store, at, next)
    requires a.Stored? ==> at == Location(a.ptr, [])
    ensures StackLeadsTo(store, root, recStack + {a}, next)
  {
    ReachesStep(store, Location(root, []), at, next);
    forall r | Stored(r) in recStack + {a} ensures ReachesOn(store, Location(r, []), next) {
      if Stored(r) == a {
        ReachesSelf(store, at);
        ReachesStep(store, at, at, next);
      } else {
        OnIsReach(store, Location(r, []), at);
        ReachesStep(store, Location(r, []), at, next);
      }
    }
  }

  lemma OnIsReach(store: Store, a: Location, b: Location)
    requires ReachesOn(store, a, b)
    ensures Reaches(store, a, b)
  {
    var path :| PathBetween(store, path, a, b) && |path| > 1;
  }

  /** Finished definitions only accumulate. */
  lemma FinishedGrows(visited: set<Address>, later: set<Address>, recStack: set<Address>)
    requires visited <= later
    ensures Finished(visited, recStack) <= Finished(later, recStack) && Pointers(visited) <= Pointers(later)
  {
  }

  class Checker {
    const store: Store
    ghost const root: Ptr
    var visited: set<Address>
    var recStack: set<Address>
    var copies: int  // loop variables so far

    constructor (store: Store, ghost root: Ptr)
      ensures this.store == store && this.root == root
      ensures visited == {} && recStack == {} && copies == 0
    {
      this.store, this.root := store, root;
      visited, recStack, copies := {}, {}, 0;
    }

    ghost predicate Valid() reads this {
      SearchInv(store, visited, recStack, copies)
    }

    method Dfs(a: Address, d: Node, ghost at: Location) returns (found: bool)
      requires Valid() && Holds(store, a, d, at, visited, copies) && StackLeadsTo(store, root, recStack, at)
      modifies this
      ensures found ==> Circular(store, root)
      ensures !found ==> Valid() && recStack == old(recStack)
      ensures !found ==>
                Targets(d) <= Finished(visited, recStack) && (a.Stored? ==> a.ptr in Finished(visited, recStack))
      ensures old(visited) <= visited && old(copies) <= copies
      decreases store.Keys - Pointers(visited) - (if a.Stored? then {a.ptr} else {}),
                if a in visited then 0 else 1, d, 1
    {
      if a in recStack {
        return true;
      }
      if a in visited {
        assert a.ptr in Finished(visited, recStack);
        return false;
      }
      Mark(store, a, d, at, visited, recStack, copies);
      ghost var below := recStack;
      visited := visited + {a};
      recStack := recStack + {a};

      found := VisitProperties(a, d, at, below);
      if found { return true; }
      ghost var before := visited;
      found := VisitItems(a, d, at, below);
      if found { return true; }
      FinishedGrows(before, visited, recStack);

      AllTargets(d, Finished(visited, recStack));
      Unmark(store, a, d, at, visited, below, copies);
      recStack := recStack - {a};
      assert recStack == below;
      return false;
    }

    /** The first loop of the search: every property, by the address of a new loop variable. */
    method VisitProperties(a: Address, d: Node, ghost at: Location, ghost below: set<Address>) returns (found: bool)
      requires Valid() && recStack == below + {a} && StackLeadsTo(store, root, below, at)
      requires NodeAt(store, at) == Some(d) && (a.Stored? ==> at == Location(a.ptr, []))
      modifies this
      ensures found ==> Circular(store, root)
      ensures !found ==> Valid() && recStack == old(recStack)
      ensures !found ==> forall k :: k in d.properties ==> Targets(d.properties[k]) <= Finished(visited, recStack)
      ensures old(visited) <= visited && old(copies) <= copies
      decreases store.Keys - Pointers(visited), 1, d, 0
    {
      var keys := d.properties.Keys;
      while keys != {}
        invariant keys <= d.properties.Keys
        invariant Valid() && recStack == below + {a} && old(visited) <= visited && old(copies) <= copies
        invariant forall k :: k in d.properties && k !in keys ==>
                  Targets(d.properties[k]) <= Finished(visited, recStack)
      {
        var k :| k in keys;
        keys := keys - {k};
        ghost var next := Location(at.ptr, at.keys + [k]);
        var prop := Copied(copies);
        copies := copies + 1;
        DescendExtend(store[at.ptr], at.keys, k);
        LeadOn(store, root, below, a, at, next);
        FinishedGrows(old(visited), visited, recStack);
        ghost var before := visited;
        found := Dfs(prop, d.properties[k], next);
        if found { return true; }
        FinishedGrows(before, visited, recStack);
      }
      found := false;
    }

    method VisitItems(a: Address, d: Node, ghost at: Location, ghost below: set<Address>) returns (found: bool)
      requires Valid() && recStack == below + {a} && StackLeadsTo(store, root, below, at)
      requires NodeAt(store, at) == Some(d) && (a.Stored? ==> at == Location(a.ptr, []))
      modifies this
      ensures found ==> Circular(store, root)
      ensures !found ==> Valid() && recStack == old(recStack)
      ensures !found && d.items.Some? ==> d.items.value in Finished(visited, recStack)
      ensures old(visited) <= visited && old(copies) <= copies
      decreases store.Keys - Pointers(visited), 1, d, 0
    {
      found := false;
      if d.items.Some? {
        ghost var next := Location(d.items.value, []);
        DescendTargets(store[at.ptr], at.keys);
        assert d.items.value in Targets(d);
        LeadOn(store, root, below, a, at, next);
        found := Dfs(Stored(d.items.value), store[d.items.value], next);
      }
    }
  }

  lemma AllTargets(d: Node, finished: set<Ptr>)
    requires forall k :: k in d.properties ==> Targets(d.properties[k]) <= finished
    requires d.items.Some? ==> d.items.value in finished
    ensures Targets(d) <= finished
  {
  }

  /** True exactly when some definition reachable from `root` can reach itself. */
  method CheckCircularDefinitions(store: Store, root: Option<Ptr>) returns (circular: bool)
    requires Closed(store) && (root.Some? ==> root.value in store)
    ensures circular <==> root.Some? && Circular(store, root.value)
  {
    if root.None? { return false; }
    var checker := new Checker(store, root.value);
    ReachesSelf(store, Location(root.value, []));
    circular := checker.Dfs(Stored(root.value), store[root.value], Location(root.value, []));
    if !circular {
      FinishedRootNotCircular(store, Finished(checker.visited, checker.recStack), root.value);
    }
  }
}
