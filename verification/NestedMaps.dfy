/**
 Nested maps written in place. A map is a cell of a store and a nested map is a reference
 to another cell, so the loop that walks down a path moves a reference and the last
 assignment changes one map only. `SetNestedValue` is proved to have the effect of
 `Assembly.Put` on the tree that the references spell out.
 */
module NestedMaps {
  import opened Wrappers
  import opened JsonSchema
  import opened Assembly

  datatype Cell = Plain(value: GoValue) | Ref(node: nat)

  /** The maps allocated so far, by address. */
  type Nodes = seq<map<string, Cell>>

  /** References lead to later maps, and no map is referred to twice: the maps form a forest. */
  ghost predicate Forest(nodes: Nodes) {
    && (forall p, k :: 0 <= p < |nodes| && k in nodes[p] && nodes[p][k].Ref? ==> p < nodes[p][k].node < |nodes|)
    && (forall p, k, q, l ::
         (0 <= p < |nodes| && k in nodes[p] && nodes[p][k].Ref? && 0 <= q < |nodes| && l in nodes[q] &&
          nodes[q][l] == nodes[p][k]) ==> p == q && k == l)
  }

  /** The tree below a map. */
  function TreeOf(nodes: Nodes, id: nat): Tree
    requires Forest(nodes) && id < |nodes|
    decreases |nodes| - id
  {
    map k | k in nodes[id] ::
      match nodes[id][k]
      case Plain(v) => v
      case Ref(c) => GoMap(TreeOf(nodes, c))
  }

  /** The maps below a map. */
  ghost function Below(nodes: Nodes, id: nat): set<nat>
    requires Forest(nodes) && id < |nodes|
    decreases |nodes| - id
  {
    {id} + set k, c | k in nodes[id] && nodes[id][k].Ref? && c in Below(nodes, nodes[id][k].node) :: c
  }

  lemma {:induction false} BelowIsLater(nodes: Nodes, id: nat, c: nat)
    requires Forest(nodes) && id < |nodes| && c in Below(nodes, id)
    ensures id <= c < |nodes|
    ensures c != id ==> exists p, k :: p in Below(nodes, id) && p < c && k in nodes[p] && nodes[p][k] == Ref(c)
    decreases |nodes| - id
  {
    if c != id {
      var k :| k in nodes[id] && nodes[id][k].Ref? && c in Below(nodes, nodes[id][k].node);
      var d := nodes[id][k].node;
      BelowIsLater(nodes, d, c);
      if c == d {
        assert id in Below(nodes, id) && nodes[id][k] == Ref(c);
      } else {
        var p, l :| p in Below(nodes, d) && p < c && l in nodes[p] && nodes[p][l] == Ref(c);
        assert p in Below(nodes, id);
      }
    }
  }

  /** Two maps nested in the same map have nothing below them in common. */
  lemma {:induction false} SiblingsDisjoint(nodes: Nodes, id: nat, k: string, l: string, c: nat)
    requires Forest(nodes) && id < |nodes| && k != l
    requires k in nodes[id] && l in nodes[id] && nodes[id][k].Ref? && nodes[id][l].Ref?
    requires c in Below(nodes, nodes[id][k].node)
    ensures c !in Below(nodes, nodes[id][l].node)
    decreases c
  {
    var a, b := nodes[id][k].node, nodes[id][l].node;
    if c in Below(nodes, b) {
      BelowIsLater(nodes, a, c);
      BelowIsLater(nodes, b, c);
      if c != a && c != b {
        var p, m :| p in Below(nodes, a) && p < c && m in nodes[p] && nodes[p][m] == Ref(c);
        BelowIsLater(nodes, a, p);
        SiblingsDisjoint(nodes, id, k, l, p);
        var q, n :| q in Below(nodes, b) && q < c && n in nodes[q] && nodes[q][n] == Ref(c);
        BelowIsLater(nodes, b, q);
      } else if c == a {
        var q, n :| q in Below(nodes, b) && q < c && n in nodes[q] && nodes[q][n] == Ref(c);
        BelowIsLater(nodes, b, q);
      } else {
        var p, m :| p in Below(nodes, a) && p < c && m in nodes[p] && nodes[p][m] == Ref(c);
        BelowIsLater(nodes, a, p);
      }
    }
  }

  /** What a cell of a map stands for. */
  ghost function Meaning(nodes: Nodes, id: nat, k: string): GoValue
    requires Forest(nodes) && id < |nodes| && k in nodes[id]
  {
    match nodes[id][k] case Plain(v) => v case Ref(c) => GoMap(TreeOf(nodes, c))
  }

  // ---------- Changing one map ----------

  /** `after` is `before` with the map at `at` changed under `key`, and possibly more maps allocated. */
  ghost predicate Changed(before: Nodes, after: Nodes, at: nat, key: string) {
    && |before| <= |after| && at < |before|
    && (forall p :: 0 <= p < |before| && p != at ==> after[p] == before[p])
    && key in after[at] && (forall k :: k != key ==> (k in after[at] <==> k in before[at]))
    && (forall k :: k != key && k in before[at] ==> after[at][k] == before[at][k])
  }

  lemma SameTree(before: Nodes, after: Nodes, id: nat)
    requires Forest(before) && Forest(after) && id < |before| && id < |after| && after[id].Keys == before[id].Keys
    requires forall k :: k in before[id] ==> Meaning(after, id, k) == Meaning(before, id, k)
    ensures TreeOf(after, id) == TreeOf(before, id)
  {
  }

  lemma {:induction false} TreeUnchanged(before: Nodes, after: Nodes, at: nat, key: string, id: nat)
    requires Forest(before) && Forest(after) && Changed(before, after, at, key)
    requires id < |before| && at !in Below(before, id)
    ensures TreeOf(after, id) == TreeOf(before, id)
    decreases |before| - id
  {
    assert id in Below(before, id);
    forall k | k in before[id] ensures Meaning(after, id, k) == Meaning(before, id, k) {
      if before[id][k].Ref? {
        assert at !in Below(before, before[id][k].node);
        TreeUnchanged(before, after, at, key, before[id][k].node);
      }
    }
    SameTree(before, after, id);
  }

  /** The map reached from `id` by following references along `path`. */
  ghost predicate Leads(nodes: Nodes, id: nat, path: Path, at: nat)
    decreases |path|
  {
    id < |nodes| &&
    if path == [] then id == at
    else path[0] in nodes[id] && nodes[id][path[0]].Ref? && Leads(nodes, nodes[id][path[0]].node, path[1..], at)
  }

  lemma {:induction false} LeadsBelow(nodes: Nodes, id: nat, path: Path, at: nat)
    requires Forest(nodes) && Leads(nodes, id, path, at)
    ensures at in Below(nodes, id) && at < |nodes|
    decreases |path|
  {
    if path != [] { LeadsBelow(nodes, nodes[id][path[0]].node, path[1..], at); }
  }

  lemma TreeWithNewCell(before: Nodes, after: Nodes, id: nat, key: string)
    requires Forest(before) && Forest(after) && id < |before| && id < |after|
    requires after[id].Keys == before[id].Keys + {key}
    requires forall k :: k in before[id] && k != key ==> Meaning(after, id, k) == Meaning(before, id, k)
    ensures TreeOf(after, id) == TreeOf(before, id)[key := Meaning(after, id, key)]
  {
  }

  /** Changing one map writes into the tree at the path that leads there. */
  lemma {:induction false} ChangePuts(before: Nodes, after: Nodes, id: nat, path: Path, at: nat, key: string)
    requires Forest(before) && Forest(after) && Changed(before, after, at, key) && Leads(before, id, path, at)
    ensures TreeOf(after, id) == Put(TreeOf(before, id), path + [key], Meaning(after, at, key))
    decreases |path|
  {
    if path == [] {
      ChangeHere(before, after, id, key);
    } else {
      assert path + [key] == [path[0]] + (path[1..] + [key]);
      ChangePuts(before, after, before[id][path[0]].node, path[1..], at, key);
      AtBelow(before, id, path, at);
      ChangeDeeper(before, after, id, path[0], path[1..] + [key], at, key, Meaning(after, at, key));
    }
  }

  lemma ChangeDeeper(before: Nodes, after: Nodes, id: nat, k0: string, rest: Path, at: nat, key: string,
                     value: GoValue)
    requires Forest(before) && Forest(after) && Changed(before, after, at, key) && id < at && rest != []
    requires k0 in before[id] && before[id][k0].Ref? && at in Below(before, before[id][k0].node)
    requires TreeOf(after, before[id][k0].node) == Put(TreeOf(before, before[id][k0].node), rest, value)
    ensures TreeOf(after, id) == Put(TreeOf(before, id), [k0] + rest, value)
  {
    OthersUnchanged(before, after, id, k0, at, key);
    PutDeeper(before, after, id, k0, rest, value);
  }

  lemma AtBelow(nodes: Nodes, id: nat, path: Path, at: nat)
    requires Forest(nodes) && Leads(nodes, id, path, at) && path != []
    ensures at in Below(nodes, nodes[id][path[0]].node) && id < at < |nodes|
  {
    var c := nodes[id][path[0]].node;
    LeadsBelow(nodes, c, path[1..], at);
    BelowIsLater(nodes, c, at);
  }

  lemma ChangeHere(before: Nodes, after: Nodes, id: nat, key: string)
    requires Forest(before) && Forest(after) && Changed(before, after, id, key)
    ensures TreeOf(after, id) == Put(TreeOf(before, id), [] + [key], Meaning(after, id, key))
  {
    assert [] + [key] == [key];
    forall k | k in before[id] && k != key ensures Meaning(after, id, k) == Meaning(before, id, k) {
      if before[id][k].Ref? {
        NotBelowItself(before, id, k);
        TreeUnchanged(before, after, id, key, before[id][k].node);
      }
    }
    TreeWithNewCell(before, after, id, key);
  }

  lemma PutDeeper(before: Nodes, after: Nodes, id: nat, k0: string, rest: Path, value: GoValue)
    requires Forest(before) && Forest(after) && id < |before| && id < |after| && rest != []
    requires after[id] == before[id] && k0 in before[id] && before[id][k0].Ref?
    requires forall k :: k in before[id] && k != k0 ==> Meaning(after, id, k) == Meaning(before, id, k)
    requires var c := before[id][k0].node; c < |after| && TreeOf(after, c) == Put(TreeOf(before, c), rest, value)
    ensures TreeOf(after, id) == Put(TreeOf(before, id), [k0] + rest, value)
  {
    TreeWithNewCell(before, after, id, k0);
    assert ([k0] + rest)[1..] == rest;
    assert Sub(TreeOf(before, id), k0) == TreeOf(before, before[id][k0].node);
  }

  lemma OthersUnchanged(before: Nodes, after: Nodes, id: nat, k0: string, at: nat, key: string)
    requires Forest(before) && Forest(after) && Changed(before, after, at, key) && id < at
    requires k0 in before[id] && before[id][k0].Ref? && at in Below(before, before[id][k0].node)
    ensures after[id] == before[id]
    ensures forall k :: k in before[id] && k != k0 ==> Meaning(after, id, k) == Meaning(before, id, k)
  {
    forall k | k in before[id] && k != k0 ensures Meaning(after, id, k) == Meaning(before, id, k) {
      if before[id][k].Ref? {
        SiblingsDisjoint(before, id, k0, k, at);
        TreeUnchanged(before, after, at, key, before[id][k].node);
      }
    }
  }

  lemma NotBelowItself(nodes: Nodes, id: nat, k: string)
    requires Forest(nodes) && id < |nodes| && k in nodes[id] && nodes[id][k].Ref?
    ensures id !in Below(nodes, nodes[id][k].node)
  {
    if id in Below(nodes, nodes[id][k].node) { BelowIsLater(nodes, nodes[id][k].node, id); }
  }

  // ---------- Walking down a path ----------

  /** Reading along references is looking up in the tree. */
  lemma {:induction false} LeadsLooksUp(nodes: Nodes, id: nat, path: Path, at: nat, key: string)
    requires Forest(nodes) && Leads(nodes, id, path, at) && at < |nodes|
    ensures Lookup(TreeOf(nodes, id), path + [key]) == if key in nodes[at] then Some(Meaning(nodes, at, key)) else None
    ensures Clear(TreeOf(nodes, id), path + [key])
    decreases |path|
  {
    if path == [] {
      assert [] + [key] == [key];
    } else {
      assert (path + [key])[1..] == path[1..] + [key];
      LeadsLooksUp(nodes, nodes[id][path[0]].node, path[1..], at, key);
    }
  }

  lemma {:induction false} LeadsFurther(nodes: Nodes, id: nat, path: Path, at: nat, key: string)
    requires Leads(nodes, id, path, at) && at < |nodes| && key in nodes[at] && nodes[at][key].Ref?
    requires nodes[at][key].node < |nodes|
    ensures Leads(nodes, id, path + [key], nodes[at][key].node)
    decreases |path|
  {
    if path == [] {
      assert [] + [key] == [key] && [key][1..] == [];
    } else {
      assert (path + [key])[1..] == path[1..] + [key];
      LeadsFurther(nodes, nodes[id][path[0]].node, path[1..], at, key);
    }
  }

  /** Changing a map leaves the references that lead to it in place. */
  lemma {:induction false} LeadsStill(before: Nodes, after: Nodes, id: nat, path: Path, at: nat, key: string)
    requires Forest(before) && Changed(before, after, at, key) && Leads(before, id, path, at)
    ensures Leads(after, id, path, at)
    decreases |path|
  {
    if path != [] {
      LeadsBelow(before, before[id][path[0]].node, path[1..], at);
      BelowIsLater(before, before[id][path[0]].node, at);
      LeadsStill(before, after, before[id][path[0]].node, path[1..], at, key);
    }
  }

  /** A map put where there was none, or the same entries, makes no difference to writing below it. */
  lemma {:induction false} PutBelowMap(root: Tree, p: Path, m: Tree, rest: Path, value: GoValue)
    requires p != [] && rest != [] && Holds(root, p, m)
    ensures Put(Put(root, p, GoMap(m)), p + rest, value) == Put(root, p + rest, value)
    ensures Clear(root, p + rest) == Clear(m, rest)
    decreases |p|
  {
    if |p| == 1 {
      assert p == [p[0]];
      PutBelowKey(root, p[0], m, rest, value);
    } else {
      assert (p + rest)[1..] == p[1..] + rest;
      if p[0] !in root { LookupEmpty(p[1..]); }
      PutBelowMap(Sub(root, p[0]), p[1..], m, rest, value);
      PutTwice(root, p, m, rest, value);
    }
  }

  lemma PutBelowKey(root: Tree, k: string, m: Tree, rest: Path, value: GoValue)
    requires rest != [] && Holds(root, [k], m)
    ensures Put(Put(root, [k], GoMap(m)), [k] + rest, value) == Put(root, [k] + rest, value)
    ensures Clear(root, [k] + rest) == Clear(m, rest)
  {
    assert ([k] + rest)[1..] == rest;
  }

  /** At `p` there is a map with the entries `m`, or nothing and room for a map. */
  predicate Holds(root: Tree, p: Path, m: Tree)
    requires p != []
  {
    match Lookup(root, p)
    case None => m == map[] && Clear(root, p)
    case Some(v) => v == GoMap(m)
  }

  lemma PutTwice(root: Tree, p: Path, m: Tree, rest: Path, value: GoValue)
    requires |p| > 1 && rest != []
    requires var sub := Sub(root, p[0]);
             Put(Put(sub, p[1..], GoMap(m)), p[1..] + rest, value) == Put(sub, p[1..] + rest, value)
    ensures Put(Put(root, p, GoMap(m)), p + rest, value) == Put(root, p + rest, value)
  {
    assert (p + rest)[1..] == p[1..] + rest;
    PutUnder(root, p, GoMap(m));
    PutUnder(root, p + rest, value);
    PutUnder(Put(root, p, GoMap(m)), p + rest, value);
  }

  /** Writing what is there already changes nothing. */
  lemma {:induction false} PutSame(root: Tree, p: Path, value: GoValue)
    requires p != [] && Lookup(root, p) == Some(value)
    ensures Put(root, p, value) == root
    decreases |p|
  {
    if |p| > 1 { PutSame(root[p[0]].entries, p[1..], value); }
  }

  // ---------- The store ----------

  lemma SetForest(nodes: Nodes, at: nat, key: string, value: GoValue)
    requires Forest(nodes) && at < |nodes|
    ensures var after := nodes[at := nodes[at][key := Plain(value)]];
            Forest(after) && Changed(nodes, after, at, key) && Meaning(after, at, key) == value
  {
  }

  /** What setting a value at the end of a walk does to the tree. */
  lemma SetPuts(nodes: Nodes, path: Path, at: nat, key: string, value: GoValue)
    requires Forest(nodes) && |nodes| > 0 && Leads(nodes, 0, path, at) && at < |nodes|
    ensures var after := nodes[at := nodes[at][key := Plain(value)]];
            Forest(after) && TreeOf(after, 0) == Put(TreeOf(nodes, 0), path + [key], value)
  {
    SetForest(nodes, at, key, value);
    ChangePuts(nodes, nodes[at := nodes[at][key := Plain(value)]], 0, path, at, key);
  }

  /** The store after `m` has become a map of its own, nested in the map at `at` under `key`. */
  function Nested(nodes: Nodes, at: nat, key: string, m: Tree): Nodes
    requires at < |nodes|
  {
    nodes[at := nodes[at][key := Ref(|nodes|)]] + [map k | k in m :: Plain(m[k])]
  }

  lemma NestedForest(nodes: Nodes, at: nat, key: string, m: Tree)
    requires Forest(nodes) && at < |nodes|
    ensures var after := Nested(nodes, at, key, m); Forest(after) && Changed(nodes, after, at, key)
  {
    var after: Nodes, n := Nested(nodes, at, key, m), |nodes|;
    assert forall p: nat, k: string :: p <= n && k in after[p] && after[p][k].Ref? ==>
      if p == at && k == key then after[p][k].node == n
      else p < n && k in nodes[p] && nodes[p][k] == after[p][k] && after[p][k].node < n;
  }

  lemma NestedTree(nodes: Nodes, at: nat, key: string, m: Tree)
    requires at < |nodes| && Forest(Nested(nodes, at, key, m))
    ensures TreeOf(Nested(nodes, at, key, m), |nodes|) == m
  {
  }

  /** What nesting a map at the end of a walk does to the tree. */
  lemma NestedPuts(nodes: Nodes, path: Path, at: nat, key: string, m: Tree)
    requires Forest(nodes) && |nodes| > 0 && Leads(nodes, 0, path, at) && at < |nodes|
    requires if key in nodes[at] then nodes[at][key] == Plain(GoMap(m)) else m == map[]
    ensures Forest(Nested(nodes, at, key, m))
    ensures TreeOf(Nested(nodes, at, key, m), 0) == Put(TreeOf(nodes, 0), path + [key], GoMap(m))
    ensures Holds(TreeOf(nodes, 0), path + [key], m)
    ensures Leads(Nested(nodes, at, key, m), 0, path + [key], |nodes|)
    ensures key in nodes[at] ==> TreeOf(Nested(nodes, at, key, m), 0) == TreeOf(nodes, 0)
  {
    var after := Nested(nodes, at, key, m);
    NestedForest(nodes, at, key, m);
    NestedTree(nodes, at, key, m);
    ChangePuts(nodes, after, 0, path, at, key);
    LeadsLooksUp(nodes, 0, path, at, key);
    LeadsStill(nodes, after, 0, path, at, key);
    LeadsFurther(after, 0, path, at, key);
    if key in nodes[at] { PutSame(TreeOf(nodes, 0), path + [key], GoMap(m)); }
  }

  lemma Descended(nodes: Nodes, current: nat, path: Path, i: nat, entries: Tree, value: GoValue)
    requires Forest(nodes) && current < |nodes| && i + 1 < |path| && Leads(nodes, 0, path[..i], current)
    requires if path[i] in nodes[current] then nodes[current][path[i]] == Plain(GoMap(entries)) else entries == map[]
    ensures var after := Nested(nodes, current, path[i], entries);
            Forest(after) && Leads(after, 0, path[..i + 1], |nodes|) && TreeOf(after, |nodes|) == entries &&
            Put(TreeOf(after, 0), path, value) == Put(TreeOf(nodes, 0), path, value) &&
            (path[i] in nodes[current] ==> TreeOf(after, 0) == TreeOf(nodes, 0))
  {
    assert path[..i + 1] == path[..i] + [path[i]];
    NestedPuts(nodes, path[..i], current, path[i], entries);
    NestedTree(nodes, current, path[i], entries);
    DescendSame(TreeOf(nodes, 0), TreeOf(Nested(nodes, current, path[i], entries), 0), path, i, entries, value);
  }

  class NestedMaps {
    var nodes: Nodes  // the root is at 0

    ghost predicate Valid()
      reads this
    {
      |nodes| > 0 && Forest(nodes)
    }

    function Root(): Tree
      reads this
      requires Valid()
    {
      TreeOf(nodes, 0)
    }

    constructor ()
      ensures Valid() && Root() == map[]
    {
      nodes := [map[]];
    }

    /** A value at the root, whatever was there. */
    method SetRoot(key: string, value: GoValue)
      requires Valid()
      modifies this
      ensures Valid() && Root() == old(Root())[key := value]
    {
      SetAt(0, [], key, value);
    }

    method SetAt(at: nat, ghost path: Path, key: string, value: GoValue)
      requires Valid() && Leads(nodes, 0, path, at) && at < |nodes|
      modifies this
      ensures Valid() && Root() == Put(old(Root()), path + [key], value)
    {
      SetPuts(nodes, path, at, key, value);
      nodes := nodes[at := nodes[at][key := Plain(value)]];
    }

    method SetNestedValue(path: Path, value: GoValue) returns (err: Option<string>)
      requires Valid()
      modifies this
      ensures Valid()
      ensures err.None? <==> path != [] && Clear(old(Root()), path)
      ensures Root() == if err.None? then Put(old(Root()), path, value) else old(Root())
    {
      if |path| == 0 { return Some("empty path"); }
      var current: nat;
      err, current := Walk(path, value);
      if err.Some? { return; }
      var last := |path| - 1;
      assert path == path[..last] + [path[last]];
      SetAt(current, path[..last], path[last], value);
    }

    /** Walks to the map that is to hold the last component, making maps on the way. */
    method Walk(path: Path, ghost value: GoValue) returns (err: Option<string>, current: nat)
      requires Valid() && path != []
      modifies this
      ensures Valid() && current < |nodes| && (err.None? <==> Clear(old(Root()), path))
      ensures err.Some? ==> Root() == old(Root())
      ensures err.None? ==> Leads(nodes, 0, path[..|path| - 1], current)
      ensures err.None? ==> Put(Root(), path, value) == Put(old(Root()), path, value)
    {
      ghost var start := Root();
      var i := 0;
      err, current := None, 0;
      while i < |path| - 1
        invariant 0 <= i <= |path| - 1 && err.None?
        invariant Valid() && current < |nodes| && Leads(nodes, 0, path[..i], current)
        invariant Put(Root(), path, value) == Put(start, path, value)
        invariant Clear(start, path) == Clear(TreeOf(nodes, current), path[i..])
        invariant Root() == start || TreeOf(nodes, current) == map[]
      {
        EmptyIsClear(path[i..]);
        err, current := Step(current, path, i, value);
        if err.Some? { return; }
        i := i + 1;
      }
      OneComponentIsClear(TreeOf(nodes, current), path[i..]);
    }

    /** One step down the path: into the map under `path[i]`, made if there is nothing there. */
    method Step(current: nat, path: Path, i: nat, ghost value: GoValue) returns (err: Option<string>, next: nat)
      requires Valid() && current < |nodes| && i + 1 < |path| && Leads(nodes, 0, path[..i], current)
      modifies this
      ensures Valid() && next < |nodes|
      ensures err.Some? ==> Root() == old(Root()) && !Clear(old(TreeOf(nodes, current)), path[i..])
      ensures err.None? ==> Leads(nodes, 0, path[..i + 1], next)
      ensures err.None? ==> Put(Root(), path, value) == Put(old(Root()), path, value)
      ensures err.None? ==> Clear(old(TreeOf(nodes, current)), path[i..]) == Clear(TreeOf(nodes, next), path[i + 1..])
      ensures err.None? && path[i] in old(nodes)[current] ==> Root() == old(Root())
      ensures err.None? && path[i] !in old(nodes)[current] ==> TreeOf(nodes, next) == map[]
    {
      var key := path[i];
      assert path[i..][1..] == path[i + 1..];
      if key in nodes[current] {
        match nodes[current][key] {
          case Ref(c) =>
            assert path[..i + 1] == path[..i] + [key];
            LeadsFurther(nodes, 0, path[..i], current, key);
            return None, c;
          case Plain(existing) =>
            match existing {
              case GoMap(entries) => next := Descend(current, path, i, entries, value);
              case _ => return Some("path conflict: " + key + " already exists as non-map"), current;
            }
        }
      } else {
        next := Descend(current, path, i, map[], value);
      }
      err := None;
    }

    /** Gives the map under `path[i]` a place of its own and moves there. */
    method Descend(current: nat, path: Path, i: nat, entries: Tree, ghost value: GoValue) returns (next: nat)
      requires Valid() && current < |nodes| && i + 1 < |path| && Leads(nodes, 0, path[..i], current)
      requires if path[i] in nodes[current] then nodes[current][path[i]] == Plain(GoMap(entries)) else entries == map[]
      modifies this
      ensures Valid() && next < |nodes| && Leads(nodes, 0, path[..i + 1], next)
      ensures TreeOf(nodes, next) == entries
      ensures Put(Root(), path, value) == Put(old(Root()), path, value)
      ensures path[i] in old(nodes)[current] ==> Root() == old(Root())
    {
      Descended(nodes, current, path, i, entries, value);
      next := |nodes|;
      nodes := Nested(nodes, current, path[i], entries);
    }
  }

  lemma OneComponentIsClear(root: Tree, path: Path)
    requires |path| == 1
    ensures Clear(root, path)
  {
  }

  lemma DescendSame(before: Tree, after: Tree, path: Path, i: nat, m: Tree, value: GoValue)
    requires i + 1 < |path| && Holds(before, path[..i] + [path[i]], m)
    requires after == Put(before, path[..i] + [path[i]], GoMap(m))
    ensures Put(after, path, value) == Put(before, path, value)
  {
    PutBelowMap(before, path[..i] + [path[i]], m, path[i + 1..], value);
    assert path == path[..i] + [path[i]] + path[i + 1..];
  }
}
