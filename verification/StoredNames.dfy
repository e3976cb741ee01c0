/**
 What the fields inside a field store into the shared context, described by the ways that
 lead down to them: through properties, and through the branches of decision points.
 */
module StoredNames {
  import opened Wrappers
  import opened JsonSchema
  import opened Sequences
  import opened FieldRun

  /** A way from a definition down to a field: into a property, or by a branch that is decided on. */
  datatype Turn = Into(key: string) | By(branch: nat)

  predicate HasKey(d: Definition, key: string) {
    d.properties.Properties? && (key in d.properties.entries || key in d.processingOrder)
  }

  /** The turns lead through objects, and then perhaps through branches, to a field with that name. */
  ghost predicate NestedVia(d: Definition, turns: seq<Turn>, name: string)
    decreases |turns|
  {
    && turns != [] && d.dataType.Object? && turns[0].Into? && HasKey(d, turns[0].key)
    && if |turns| == 1 then turns[0].key == name else
         var e := Property(d, turns[0].key); NestedVia(e, turns[1..], name) || BranchVia(e, turns[1..], name)
  }

  ghost predicate BranchVia(d: Definition, turns: seq<Turn>, name: string)
    decreases |turns|
  {
    && turns != [] && turns[0].By? && d.decisionPoint.Some? && d.decisionPoint.value.branches.Branches?
    && var branches := d.decisionPoint.value.branches.branches;
       turns[0].branch < |branches| && Conditional(branches[turns[0].branch].conditions) &&
       TopVia(branches[turns[0].branch].thenDef, turns[1..], name)
  }

  ghost predicate TopVia(d: Definition, turns: seq<Turn>, name: string)
    decreases |turns|
  {
    && turns != [] && turns[0].Into? && HasKey(d, turns[0].key)
    && if |turns| == 1 then turns[0].key == name else BranchVia(Property(d, turns[0].key), turns[1..], name)
  }

  // ---------- One turn further ----------

  lemma AfterTurn(t: Turn, turns: seq<Turn>)
    ensures ([t] + turns)[0] == t && ([t] + turns)[1..] == turns && |[t] + turns| == |turns| + 1
  {
  }

  lemma ByBranch(d: Definition, turns: seq<Turn>, i: nat, name: string)
    requires d.decisionPoint.Some? && d.decisionPoint.value.branches.Branches?
    requires i < |d.decisionPoint.value.branches.branches|
    requires Conditional(d.decisionPoint.value.branches.branches[i].conditions)
    requires TopVia(d.decisionPoint.value.branches.branches[i].thenDef, turns, name)
    ensures BranchVia(d, [By(i)] + turns, name)
  {
    AfterTurn(By(i), turns);
  }

  lemma IntoTop(d: Definition, turns: seq<Turn>, k: string, name: string)
    requires d.properties.Properties? && k in d.properties.entries
    requires BranchVia(d.properties.entries[k], turns, name)
    ensures TopVia(d, [Into(k)] + turns, name)
  {
    AfterTurn(Into(k), turns);
    assert turns != [] && HasKey(d, k) && Property(d, k) == d.properties.entries[k];
  }

  lemma IntoNested(d: Definition, turns: seq<Turn>, k: string, name: string)
    requires d.dataType.Object? && d.properties.Properties? && k in d.properties.entries
    requires NestedVia(d.properties.entries[k], turns, name) || BranchVia(d.properties.entries[k], turns, name)
    ensures NestedVia(d, [Into(k)] + turns, name)
  {
    AfterTurn(Into(k), turns);
    assert turns != [] && HasKey(d, k) && Property(d, k) == d.properties.entries[k];
  }

  /** A key without a property stores nothing besides itself. */
  lemma ZeroStoresNothing(turns: seq<Turn>, name: string)
    ensures !BranchVia(ZeroDefinition, turns, name) && !NestedVia(ZeroDefinition, turns, name)
  {
  }

  // ---------- Every stored name has a way ----------

  lemma {:induction false} BranchWay(d: Definition, name: string) returns (turns: seq<Turn>)
    requires name in BranchNames(d)
    ensures BranchVia(d, turns, name)
    decreases d, 0
  {
    var branches := d.decisionPoint.value.branches.branches;
    var i :| 0 <= i < |branches| && Conditional(branches[i].conditions) && name in TopNames(branches[i].thenDef);
    var rest := TopWay(branches[i].thenDef, name);
    ByBranch(d, rest, i, name);
    turns := [By(i)] + rest;
  }

  lemma {:induction false} TopWay(d: Definition, name: string) returns (turns: seq<Turn>)
    requires name in TopNames(d)
    ensures TopVia(d, turns, name)
    decreases d, 1
  {
    if HasKey(d, name) {
      turns := [Into(name)];
    } else {
      var e := d.properties.entries;
      var k :| k in e && name in BranchNames(e[k]);
      var rest := BranchWay(e[k], name);
      IntoTop(d, rest, k, name);
      turns := [Into(k)] + rest;
    }
  }

  lemma {:induction false} NestedWay(d: Definition, name: string) returns (turns: seq<Turn>)
    requires name in NestedNames(d)
    ensures NestedVia(d, turns, name)
    decreases d, 2
  {
    if HasKey(d, name) {
      turns := [Into(name)];
    } else {
      var e := d.properties.entries;
      var k :| k in e && name in NestedNames(e[k]) + BranchNames(e[k]);
      var rest;
      if name in NestedNames(e[k]) {
        rest := NestedWay(e[k], name);
      } else {
        rest := BranchWay(e[k], name);
      }
      IntoNested(d, rest, k, name);
      turns := [Into(k)] + rest;
    }
  }

  // ---------- Every way ends at a stored name ----------

  lemma {:induction false} BranchEnds(d: Definition, turns: seq<Turn>, name: string)
    requires BranchVia(d, turns, name)
    ensures name in BranchNames(d)
    decreases d, 0
  {
    var branches, i := d.decisionPoint.value.branches.branches, turns[0].branch;
    TopEnds(branches[i].thenDef, turns[1..], name);
  }

  lemma {:induction false} TopEnds(d: Definition, turns: seq<Turn>, name: string)
    requires TopVia(d, turns, name)
    ensures name in TopNames(d)
    decreases d, 1
  {
    var k := turns[0].key;
    if |turns| > 1 {
      ZeroStoresNothing(turns[1..], name);
      BranchEnds(d.properties.entries[k], turns[1..], name);
    }
  }

  lemma {:induction false} NestedEnds(d: Definition, turns: seq<Turn>, name: string)
    requires NestedVia(d, turns, name)
    ensures name in NestedNames(d)
    decreases d, 2
  {
    var k := turns[0].key;
    if |turns| > 1 {
      ZeroStoresNothing(turns[1..], name);
      var e := d.properties.entries[k];
      if NestedVia(e, turns[1..], name) {
        NestedEnds(e, turns[1..], name);
      } else {
        BranchEnds(e, turns[1..], name);
      }
      assert name in NestedNames(e) + BranchNames(e);
    }
  }

  ghost predicate NestedWays(d: Definition, name: string) {
    exists turns :: NestedVia(d, turns, name)
  }

  ghost predicate BranchWays(d: Definition, name: string) {
    exists turns :: BranchVia(d, turns, name)
  }

  /** What the fields nested in an object store: the names at the end of all ways down from it. */
  lemma NestedNamesIff(d: Definition, name: string)
    ensures name in NestedNames(d) <==> NestedWays(d, name)
  {
    if name in NestedNames(d) {
      var turns := NestedWay(d, name);
      assert NestedWays(d, name);
    }
    if NestedWays(d, name) {
      var turns: seq<Turn> :| NestedVia(d, turns, name);
      NestedEnds(d, turns, name);
    }
  }

  /** What the branches of a field's decision point store: the names at the end of all ways that begin with a branch. */
  lemma BranchNamesIff(d: Definition, name: string)
    ensures name in BranchNames(d) <==> BranchWays(d, name)
  {
    if name in BranchNames(d) {
      var turns := BranchWay(d, name);
      assert BranchWays(d, name);
    }
    if BranchWays(d, name) {
      var turns: seq<Turn> :| BranchVia(d, turns, name);
      BranchEnds(d, turns, name);
    }
  }
}
