/**
 The objects nested in a schema, and what runs beside them. Objects inside objects share one
 context; an array item starts from a copy. The fields that run beside an object are the
 other keys that remain when the ordered ones of the object around it are done: an object in
 the declared order has its batch to itself.
 */
module ObjectTree {
  import opened Wrappers
  import opened JsonSchema
  import opened Sequences
  import opened Scheduler
  import opened FieldRun

  datatype Hop = IntoField(key: string) | IntoItem

  /** A definition in the tree, and the names that may be stored in its context from outside while it runs. */
  datatype Site = Site(schema: Definition, outside: set<string>)

  /** The keys that run concurrently after the ordered ones. */
  function RemainingKeys(d: Definition): set<string> {
    Entries(d.properties).Keys - Range(d.processingOrder)
  }

  /**
   What a field stores in the context: its own value, and those of the fields nested in it and of the
   branches decided on.
   */
  function StoredBy(d: Definition, key: string): set<string> {
    {key} + StoredInside(Property(d, key))
  }

  /** What the fields that run beside `key` store. */
  function StoredBeside(d: Definition, key: string): set<string> {
    if key !in RemainingKeys(d) then {}
    else set x, name | x in RemainingKeys(d) && x != key && name in StoredBy(d, x) :: name
  }

  function Enter(s: Site, hop: Hop): Option<Site> {
    match hop
    case IntoField(key) =>
      if s.schema.dataType.Object? && s.schema.properties.Properties?
         && (key in s.schema.properties.entries || key in s.schema.processingOrder) then
        Some(Site(Property(s.schema, key), s.outside + StoredBeside(s.schema, key)))
      else None
    case IntoItem =>
      if s.schema.dataType.Array? && s.schema.items.Some? then Some(Site(s.schema.items.value, {})) else None
  }

  /** The definition at the end of some hops from the root, whose context no one else writes to. */
  function SiteAt(root: Definition, hops: seq<Hop>): Option<Site> {
    if hops == [] then Some(Site(root, {})) else
      match SiteAt(root, hops[..|hops| - 1])
      case None => None
      case Some(s) => Enter(s, hops[|hops| - 1])
  }

  predicate NoItem(hops: seq<Hop>) {
    forall h :: h in hops ==> h.IntoField?
  }

  /** Hop `n` goes into an object beside which a field runs that stores `name`, and no copy is made after it. */
  predicate StoredBesideHop(root: Definition, hops: seq<Hop>, n: nat, name: string) {
    && n < |hops| && NoItem(hops[n..])
    && var around := SiteAt(root, hops[..n]);
       around.Some? && name in StoredBeside(around.value.schema, hops[n].key)
  }

  /** The names stored from outside are those of the fields beside the object or beside an object around it. */
  lemma {:induction false} OutsideIff(root: Definition, hops: seq<Hop>, s: Site, name: string)
    requires SiteAt(root, hops) == Some(s)
    ensures name in s.outside <==> exists n: nat :: StoredBesideHop(root, hops, n, name)
    decreases |hops|
  {
    if hops != [] {
      var m := |hops| - 1;
      var around := SiteAt(root, hops[..m]).value;
      OutsideIff(root, hops[..m], around, name);
      OneHopMore(root, hops, name);
      assert hops[m..] == [hops[m]];
    }
  }

  lemma OneHopMore(root: Definition, hops: seq<Hop>, name: string)
    requires hops != []
    ensures var m := |hops| - 1;
            (exists n: nat :: StoredBesideHop(root, hops, n, name)) <==>
            StoredBesideHop(root, hops, m, name) ||
            (hops[m].IntoField? && exists n: nat :: StoredBesideHop(root, hops[..m], n, name))
  {
    var m := |hops| - 1;
    if n: nat :| StoredBesideHop(root, hops, n, name) {
      if n < m { SameHop(root, hops, n, name); }
    }
    if hops[m].IntoField? {
      if n: nat :| StoredBesideHop(root, hops[..m], n, name) { SameHop(root, hops, n, name); }
    }
  }

  lemma SameHop(root: Definition, hops: seq<Hop>, n: nat, name: string)
    requires n < |hops| - 1
    ensures var m := |hops| - 1;
            StoredBesideHop(root, hops, n, name) <==> hops[m].IntoField? && StoredBesideHop(root, hops[..m], n, name)
  {
    var m := |hops| - 1;
    assert hops[n..] == hops[..m][n..] + [hops[m]];
    assert hops[..m][..n] == hops[..n];
  }

  /**
   For every object of the schema and every key `k` of a regular batch of it that selects `r`:
   `k` is certain to find the value `r` has produced if and only if no field stores that name
   beside the object or beside one of the objects around it, up to the nearest array item, no
   branch that `r` decides on stores it, and no other field of a batch from `r`'s to `k`'s does.
   */
  lemma SelectionsInTree(
    root: Definition, hops: seq<Hop>, s: Site, remaining: seq<string>, i: int, k: string, j: int, r: string)
    requires SiteAt(root, hops) == Some(s) && s.schema.dataType.Object?
    requires Distinct(s.schema.processingOrder) && IsRemaining(s.schema, remaining) && Selects(s.schema, i, k, j, r)
    ensures AlwaysSees(PlanOf(s.schema, remaining, s.outside), r, k) <==>
            !(exists n: nat :: StoredBesideHop(root, hops, n, r)) && !Disturbed(s.schema, j, r, i, k)
  {
    OrderedFieldFindsItsSelections(s.schema, remaining, s.outside, i, k, j, r);
    OutsideIff(root, hops, s, r);
  }

  // ---------- Fields beside an object ----------

  /** A field beside an object that stores a name the object selects can take the selected value away. */
  lemma SiblingOverwrites(
    d: Definition, outside: set<string>, a: string, b: string, remaining: seq<string>,
    i: int, k: string, j: int, r: string)
    requires a in RemainingKeys(d) && b in RemainingKeys(d) && a != b && r in StoredBy(d, b)
    requires Distinct(Property(d, a).processingOrder) && IsRemaining(Property(d, a), remaining) &&
             Selects(Property(d, a), i, k, j, r)
    ensures !AlwaysSees(PlanOf(Property(d, a), remaining, outside + StoredBeside(d, a)), r, k)
  {
    OrderedFieldFindsItsSelections(Property(d, a), remaining, outside + StoredBeside(d, a), i, k, j, r);
  }

  const Leaf := ZeroDefinition.(dataType := String)

  /** An object that generates `name`, as `first` says, and then `desc`, which selects it. */
  function SelectingFrom(name: string, first: Definition, desc: string): Definition {
    ZeroDefinition.(
    dataType := Object,
    properties := Properties(map[name := first, desc := Leaf.(selectFields := [name])]),
    processingOrder := [name, desc])
  }

  function Selecting(name: string, desc: string): Definition {
    SelectingFrom(name, Leaf, desc)
  }

  /** A field that decides on a branch with one field, `name`. */
  function Deciding(name: string): Definition {
    var taken := ZeroDefinition.(dataType := Object, properties := Properties(map[name := Leaf]));
    var branch := ConditionalBranch("", Conditions([Condition("", "", GoNil, "")]), None, taken, 0);
    Leaf.(decisionPoint := Some(DecisionPoint("", "", Branches([branch]), "")))
  }

  /** A root with such an object under `a` and another property under `b`. */
  function Beside(a: string, name: string, desc: string, b: string, other: Definition): Definition {
    ZeroDefinition.(dataType := Object, properties := Properties(map[a := Selecting(name, desc), b := other]))
  }

  lemma SelectingSelects(name: string, first: Definition, desc: string)
    requires name != desc && name != "" && '.' !in name && first.selectFields == [] && !first.dataType.Object?
    ensures Selects(SelectingFrom(name, first, desc), 1, desc, 0, name)
    ensures Batches(SelectingFrom(name, first, desc), [name, desc]) == [[name], [desc]]
  {
    var d := SelectingFrom(name, first, desc);
    var keys := [name, desc];
    assert RootFieldName(name) == name;
    assert Property(d, name) == first && Dependencies(d, name) == {};
    assert Property(d, desc).selectFields == [name];
    DependsOnly(d, name, desc);
    FirstScan(d, name, desc);
    SecondScan(d, name, desc);
    TwoPasses(d, name, desc);
  }

  lemma TwoPasses(d: Definition, name: string, desc: string)
    requires name != desc && Scan(d, [name, desc], {}, []) == [name] && Scan(d, [name, desc], {name}, []) == [desc]
    ensures Passes(d, [name, desc], {}) == [Regular([name]), Regular([desc])]
    ensures Batches(d, [name, desc]) == [[name], [desc]]
  {
    var keys := [name, desc];
    assert Range([name]) == {name} && Range([desc]) == {desc} && Range(keys) == {name, desc};
    assert {} + {name} == {name} && {name} + {desc} == {name, desc};
    assert NextPass(d, keys, {}) == Regular([name]) && NextPass(d, keys, {name}) == Regular([desc]);
    assert desc in Range(keys) - {name} && name in Range(keys);
    var second := Passes(d, keys, {name});
    assert Passes(d, keys, {name, desc}) == [];
    assert second == [Regular([desc])] + Passes(d, keys, {name, desc});
    assert Passes(d, keys, {}) == [Regular([name])] + second;
  }

  lemma DependsOnly(d: Definition, name: string, desc: string)
    requires Property(d, desc).selectFields == [name] && RootFieldName(name) == name && name != "" && name != desc
    ensures Dependencies(d, desc) == {name}
  {
    assert name in [name];
  }

  lemma FirstScan(d: Definition, name: string, desc: string)
    requires Dependencies(d, name) == {} && Dependencies(d, desc) == {name} && !IsObject(d, name)
    ensures Scan(d, [name, desc], {}, []) == [name]
  {
    assert [name, desc][1..] == [desc] && [desc][1..] == [];
    assert [] + [name] == [name];
    assert Scan(d, [desc], {}, [name]) == [name];
  }

  lemma SecondScan(d: Definition, name: string, desc: string)
    requires Dependencies(d, desc) == {name} && !IsObject(d, desc) && name != desc
    ensures Scan(d, [name, desc], {name}, []) == [desc]
  {
    assert [name, desc][1..] == [desc] && [desc][1..] == [];
    assert [] + [desc] == [desc];
    assert Scan(d, [desc], {name}, []) == [desc];
  }

  /** Nothing in such an object is in the way of the selected value. */
  lemma SelectingUndisturbed(name: string, desc: string)
    requires name != desc && name != "" && '.' !in name
    ensures !Disturbed(Selecting(name, desc), 0, name, 1, desc)
  {
    var d := Selecting(name, desc);
    SelectingSelects(name, Leaf, desc);
    assert Property(d, name) == Leaf && Property(d, desc) == Leaf.(selectFields := [name]);
    forall m, c ensures !Disturber(d, 0, name, 1, desc, m, c) {
      assert c in [name] || c in [desc] ==> c == name || c == desc;
    }
  }

  /**
   Two properties of a root: an object whose second field selects its first, and, beside it, a
   field of the first one's name or one that stores that name as a nested field or by a branch.
   The selected value can be overwritten before it is read, though nothing in the object itself
   is in the way.
   */
  lemma BesideIsNotSeen(a: string, name: string, desc: string, b: string, other: Definition)
    requires a != b && name != desc && name != "" && '.' !in name
    requires b == name || name in StoredInside(other)
    ensures var root := Beside(a, name, desc, b, other);
            var s := SiteAt(root, [IntoField(a)]);
            && s.Some? && s.value.schema == Selecting(name, desc)
            && !Disturbed(s.value.schema, 0, name, 1, desc)
            && !AlwaysSees(PlanOf(s.value.schema, [], s.value.outside), name, desc)
  {
    var root := Beside(a, name, desc, b, other);
    BesideSite(a, name, desc, b, other);
    SelectingSelects(name, Leaf, desc);
    SelectingUndisturbed(name, desc);
    assert IsRemaining(Selecting(name, desc), []);
    SiblingOverwrites(root, {}, a, b, [], 1, desc, 0, name);
  }

  /** So can an object for structured output, which is decomposed when the structured call fails. */
  lemma FallbackIsNotSeen(a: string, name: string, desc: string, b: string, other: Definition)
    requires a != b && name != desc && name != "" && '.' !in name
    requires other.structuredOutput && other.dataType.Object? && name in Entries(other.properties)
    ensures var s := SiteAt(Beside(a, name, desc, b, other), [IntoField(a)]);
            s.Some? && !AlwaysSees(PlanOf(s.value.schema, [], s.value.outside), name, desc)
  {
    BesideIsNotSeen(a, name, desc, b, other);
  }

  lemma BesideSite(a: string, name: string, desc: string, b: string, other: Definition)
    requires a != b
    ensures var root := Beside(a, name, desc, b, other);
            && SiteAt(root, [IntoField(a)]) == Some(Site(Selecting(name, desc), {} + StoredBeside(root, a)))
            && RemainingKeys(root) == {a, b} && Property(root, a) == Selecting(name, desc) && Property(root, b) == other
  {
    var hops := [IntoField(a)];
    assert hops[..0] == [];
  }

  /** A branch that the selected field decides on can take the place of its value, in an object with nothing else. */
  lemma OwnBranchIsNotSeen(name: string, desc: string)
    requires name != desc && name != "" && '.' !in name
    ensures !AlwaysSees(PlanOf(SelectingFrom(name, Deciding(name), desc), [], {}), name, desc)
  {
    var d := SelectingFrom(name, Deciding(name), desc);
    SelectingSelects(name, Deciding(name), desc);
    DecidingStores(name);
    assert Property(d, name) == Deciding(name);
    assert IsRemaining(d, []);
    OrderedFieldFindsItsSelections(d, [], {}, 1, desc, 0, name);
  }

  lemma DecidingStores(name: string)
    ensures name in BranchNames(Deciding(name))
  {
    var branches := Deciding(name).decisionPoint.value.branches.branches;
    assert Conditional(branches[0].conditions) && name in TopNames(branches[0].thenDef);
  }
}
