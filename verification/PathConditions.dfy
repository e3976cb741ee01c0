/**
 Exactly when assembling and resolving are safe, in terms of the paths alone: for which lists
 of paths no write ever fails, every value is found afterwards, and every filed key resolves
 to its value, whatever the values are.
 */
module PathConditions {
  import opened Wrappers
  import opened JsonSchema
  import opened Assembly
  import opened GoStrings
  import opened Sequences
  import opened PathAssembler

  function Paths(s: seq<Success>): (p: seq<Path>)
    ensures |p| == |s|
  {
    seq(|s|, i requires 0 <= i < |s| => s[i].path)
  }

  /** Successes at the given paths, all with the same value but for one. */
  function Marked(paths: seq<Path>, i: nat, v: GoValue): (s: seq<Success>)
    ensures Paths(s) == paths
  {
    seq(|paths|, j requires 0 <= j < |paths| => Success(paths[j], FieldResult(if j == i then v else GoNil, None)))
  }

  ghost predicate NonEmpty(paths: seq<Path>) {
    forall i :: 0 <= i < |paths| ==> paths[i] != []
  }

  lemma PlacedPaths(s: seq<Success>)
    ensures Placed(s) <==> NonEmpty(Paths(s))
  {
    if NonEmpty(Paths(s)) {
      forall x | x in s ensures x.path != [] {
        var i :| 0 <= i < |s| && s[i] == x;
        assert Paths(s)[i] == x.path;
      }
    } else {
      var i :| 0 <= i < |s| && Paths(s)[i] == [];
      assert s[i] in s;
    }
  }

  // ---------- When a write can fail ----------

  /** Something that is not a map stands on the way to `q`. */
  ghost predicate Blocked(root: Tree, q: Path) {
    exists r: Path :: r != [] && r < q && Holds(root, r)
  }

  predicate Holds(root: Tree, r: Path)
    requires r != []
  {
    Lookup(root, r).Some? && !Lookup(root, r).value.GoMap?
  }

  lemma {:induction false} HoldingBlocks(root: Tree, r: Path, q: Path)
    requires r != [] && r < q && Holds(root, r)
    ensures !Clear(root, q)
    decreases |r|
  {
    assert r[0] == q[0] && |q| > 1;
    if |r| > 1 {
      assert r[1..] < q[1..];
      HoldingBlocks(root[r[0]].entries, r[1..], q[1..]);
    }
  }

  /** Writing what is no map never clears a way that is blocked. */
  lemma StaysBlocked(root: Tree, p: Path, value: GoValue, q: Path)
    requires p != [] && q != [] && !value.GoMap? && Clear(root, p) && Blocked(root, q)
    ensures Blocked(Put(root, p, value), q)
  {
    var r: Path :| r != [] && r < q && Holds(root, r);
    if Apart(p, r) {
      PutElsewhere(root, p, value, r);
      assert Holds(Put(root, p, value), r);
    } else if r < p {
      HoldingBlocks(root, r, p);
    } else {
      assert p <= r;
      PutThenLookup(root, p, value);
      assert Holds(Put(root, p, value), p) && p < q;
    }
  }

  /** Only writing at a strict prefix can take a way away. */
  lemma {:induction false} PutKeepsClear(root: Tree, p: Path, value: GoValue, q: Path)
    requires p != [] && Clear(root, p) && Clear(root, q) && !(p < q)
    ensures Clear(Put(root, p, value), q)
    decreases |p|
  {
    OneStepIsPrefix(p, q);
    if |p| > 1 && |q| > 1 && p[0] == q[0] {
      TailsKeep(p, q);
      PutKeepsClear(Sub(root, p[0]), p[1..], value, q[1..]);
      PutUnder(root, p, value);
    }
  }

  lemma OneStepIsPrefix(p: Path, q: Path)
    ensures |p| == 1 && |q| > 1 && p[0] == q[0] ==> p < q
  {
    if |p| == 1 && |q| > 1 && p[0] == q[0] { assert p == q[..1]; }
  }

  lemma TailsKeep(p: Path, q: Path)
    requires |p| > 1 && |q| > 1 && p[0] == q[0] && !(p < q)
    ensures !(p[1..] < q[1..])
  {
    assert p == [p[0]] + p[1..] && q == [q[0]] + q[1..];
  }

  /** No path leads through an earlier one. */
  ghost predicate NoneThrough(paths: seq<Path>) {
    forall i, j :: 0 <= i < j < |paths| ==> !(paths[i] < paths[j])
  }

  lemma {:induction false} WayStaysClear(s: seq<Success>, q: Path)
    requires Placed(s) && Writable(s) && forall x :: x in s ==> !(x.path < q)
    ensures Clear(Data(s), q)
    decreases |s|
  {
    if s == [] {
      EmptyIsClear(q);
    } else {
      var n := |s| - 1;
      LastWrite(s);
      WayStaysClear(s[..n], q);
      PutKeepsClear(Data(s[..n]), s[n].path, s[n].result.value, q);
    }
  }

  lemma LastWrite(s: seq<Success>)
    requires Placed(s) && s != []
    ensures var init, x := s[..|s| - 1], s[|s| - 1];
            && Placed(init) && x.path != [] && x in s && (forall y :: y in init ==> y in s)
            && Data(s) == Put(Data(init), x.path, x.result.value)
            && (Writable(s) <==> Writable(init) && Clear(Data(init), x.path))
  {
    assert s == s[..|s| - 1] + [s[|s| - 1]];
    OneMore(s[..|s| - 1], s[|s| - 1]);
  }

  lemma {:induction false} NoneThroughWritable(s: seq<Success>)
    requires Placed(s) && NoneThrough(Paths(s))
    ensures Writable(s)
    decreases |s|
  {
    if s != [] {
      var n := |s| - 1;
      assert Paths(s[..n]) == Paths(s)[..n];
      NoneThroughWritable(s[..n]);
      forall x | x in s[..n] ensures !(x.path < s[n].path) {
        var i :| 0 <= i < n && s[i] == x;
        assert Paths(s)[i] == x.path && Paths(s)[n] == s[n].path;
      }
      WayStaysClear(s[..n], s[n].path);
      LastWrite(s);
    }
  }

  /** Once a value that is no map has been written on the way to `q`, the way stays blocked. */
  lemma {:induction false} BlockedFrom(s: seq<Success>, i: nat, q: Path)
    requires Placed(s) && Writable(s) && i < |s| && s[i].path < q
    requires forall x :: x in s ==> !x.result.value.GoMap?
    ensures Blocked(Data(s), q)
    decreases |s|
  {
    LastWrite(s);
    if i == |s| - 1 {
      HeldAfter(Data(s[..i]), s[i].path, s[i].result.value, q);
    } else {
      BlockedFrom(s[..|s| - 1], i, q);
      BlockedStep(s, q);
    }
  }

  lemma BlockedStep(s: seq<Success>, q: Path)
    requires Placed(s) && s != [] && Placed(s[..|s| - 1]) && q != []
    requires var init, x := s[..|s| - 1], s[|s| - 1];
             && x.path != [] && Data(s) == Put(Data(init), x.path, x.result.value)
             && Clear(Data(init), x.path) && !x.result.value.GoMap? && Blocked(Data(init), q)
    ensures Blocked(Data(s), q)
  {
    StaysBlocked(Data(s[..|s| - 1]), s[|s| - 1].path, s[|s| - 1].result.value, q);
  }

  lemma HeldAfter(root: Tree, p: Path, value: GoValue, q: Path)
    requires p != [] && p < q && !value.GoMap?
    ensures Blocked(Put(root, p, value), q)
  {
    PutThenLookup(root, p, value);
    assert Holds(Put(root, p, value), p);
  }

  lemma WritableFirst(s: seq<Success>, m: nat)
    requires Placed(s) && Writable(s) && m < |s|
    ensures Placed(s[..m]) && Writable(s[..m]) && Clear(Data(s[..m]), s[m].path)
  {
    forall k | 0 <= k < m ensures Clear(Data(s[..m][..k]), s[..m][k].path) {
      assert s[..m][..k] == s[..k];
      assert Clear(Data(s[..k]), s[k].path);
    }
  }

  /** Whatever is written at these paths in this order, no write fails. */
  ghost predicate NeverFails(paths: seq<Path>) {
    forall s: seq<Success> :: Placed(s) && Paths(s) == paths ==> Writable(s)
  }

  /** Assembling in an order never fails, if and only if no path leads through one that comes earlier. */
  lemma NeverFailsIff(paths: seq<Path>)
    requires NonEmpty(paths)
    ensures NeverFails(paths) <==> NoneThrough(paths)
  {
    if NoneThrough(paths) {
      forall s: seq<Success> | Placed(s) && Paths(s) == paths ensures Writable(s) {
        NoneThroughWritable(s);
      }
    } else {
      var i: nat, j: nat :| i < j < |paths| && paths[i] < paths[j];
      var s := Marked(paths, 0, GoNil);
      PlacedPaths(s);
      ThroughEarlierFails(s, i, j);
    }
  }

  lemma ThroughEarlierFails(s: seq<Success>, i: nat, j: nat)
    requires Placed(s) && i < j < |s| && s[i].path < s[j].path
    requires forall x :: x in s ==> !x.result.value.GoMap?
    ensures !Writable(s)
  {
    if Writable(s) {
      var q := s[j].path;
      WritableFirst(s, j);
      BlockedFrom(s[..j], i, q);
      var r: Path :| r != [] && r < q && Holds(Data(s[..j]), r);
      HoldingBlocks(Data(s[..j]), r, q);
    }
  }

  /** A value that is no map, written first, makes the write of any longer path fail. */
  lemma ThroughAValueFails(p: Path, q: Path, m: FieldResult, n: FieldResult)
    requires p != [] && p < q && !m.value.GoMap?
    ensures var s := [Success(p, m), Success(q, n)]; Placed(s) && !Writable(s)
  {
    var x, y := Success(p, m), Success(q, n);
    OneMore([], x);
    OneMore([x], y);
    assert [] + [x] == [x] && [x] + [y] == [x, y];
    PutThenLookup(Data([]), p, m.value);
    HoldingBlocks(Data([x]), p, q);
  }

  /** Written last, it takes the place of the map that held the other value. */
  lemma OverAMapLoses(p: Path, q: Path, m: FieldResult, n: FieldResult)
    requires p != [] && p < q && !m.value.GoMap?
    ensures var t := [Success(q, n), Success(p, m)]; Placed(t) && Writable(t) && Lookup(Data(t), q) == None
  {
    var t := [Success(q, n), Success(p, m)];
    assert Paths(t) == [q, p];
    NoneThroughWritable(t);
    assert t == t[..1] + [t[1]];
    OneMore(t[..1], t[1]);
    PutThenLookup(Data(t[..1]), p, m.value);
    NothingBeyond(Data(t), p, q);
  }

  /** Nothing is found beyond a value that is no map. */
  lemma {:induction false} NothingBeyond(root: Tree, p: Path, q: Path)
    requires p != [] && p < q && Holds(root, p)
    ensures Lookup(root, q) == None
    decreases |p|
  {
    assert p[0] == q[0] && |q| > 1;
    if |p| > 1 {
      assert p[1..] < q[1..];
      NothingBeyond(root[p[0]].entries, p[1..], q[1..]);
    }
  }

  // ---------- When every value is found ----------

  /** No two paths are equal, and none leads through another. */
  ghost predicate AllApart(paths: seq<Path>) {
    forall i, j :: 0 <= i < j < |paths| ==> Apart(paths[i], paths[j])
  }

  lemma ApartIndependent(s: seq<Success>)
    requires Placed(s)
    ensures Independent(s) <==> AllApart(Paths(s))
  {
    assert forall i :: 0 <= i < |s| ==> Writes(s)[i].path == Paths(s)[i];
  }

  /** Assembling succeeds, and every value is found at its path. */
  ghost predicate Kept(s: seq<Success>)
    requires Placed(s)
  {
    Writable(s) && forall i :: 0 <= i < |s| ==> Lookup(Data(s), s[i].path) == Some(s[i].result.value)
  }

  /** Whatever is written at these paths in this order is kept. */
  ghost predicate AlwaysKept(paths: seq<Path>) {
    forall s: seq<Success> :: Placed(s) && Paths(s) == paths ==> Kept(s)
  }

  lemma IndependentKept(s: seq<Success>)
    requires Placed(s) && Independent(s)
    ensures Kept(s)
  {
    IndependentWritable(s);
    forall i | 0 <= i < |s| ensures Lookup(Data(s), s[i].path) == Some(s[i].result.value) { AllFound(Writes(s), i); }
  }

  /** Where one path leads to another, a marked value at the first and another at the second cannot both be kept. */
  lemma OverlapNotKept(s: seq<Success>, i: nat, j: nat)
    requires Placed(s) && i < |s| && j < |s| && s[i].path <= s[j].path
    requires s[i].result.value != s[j].result.value && !s[i].result.value.GoMap?
    ensures !Kept(s)
  {
    if Kept(s) {
      KeptAt(s, i);
      KeptAt(s, j);
      TwoValues(Data(s), s[i].path, s[i].result.value, s[j].path, s[j].result.value);
    }
  }

  lemma KeptAt(s: seq<Success>, i: nat)
    requires Placed(s) && Kept(s) && i < |s|
    ensures Lookup(Data(s), s[i].path) == Some(s[i].result.value)
  {
  }

  lemma TwoValues(root: Tree, p: Path, v: GoValue, q: Path, w: GoValue)
    requires p != [] && p <= q && v != w && !v.GoMap? && Lookup(root, p) == Some(v)
    ensures Lookup(root, q) != Some(w)
  {
    if p < q { NothingBeyond(root, p, q); } else { assert p == q; }
  }

  /** In whatever order, all values are kept for all values, if and only if the paths are pairwise apart. */
  lemma AlwaysKeptIff(paths: seq<Path>)
    requires NonEmpty(paths)
    ensures AlwaysKept(paths) <==> AllApart(paths)
  {
    if AllApart(paths) {
      forall s: seq<Success> | Placed(s) && Paths(s) == paths ensures Kept(s) {
        ApartIndependent(s);
        IndependentKept(s);
      }
    } else {
      var i: nat, j: nat :| i < j < |paths| && !Apart(paths[i], paths[j]);
      var s := Marked(paths, i, GoBool(true));
      PlacedPaths(s);
      assert s[i].path == paths[i] && s[j].path == paths[j];
      if paths[i] <= paths[j] { OverlapNotKept(s, i, j); } else { OverlapNotKept(s, j, i); }
    }
  }

  lemma {:induction false} ApartDistinct(paths: seq<Path>)
    requires AllApart(paths)
    ensures Distinct(paths)
  {
    forall i, j | 0 <= i < j < |paths| ensures paths[i] != paths[j] { assert Apart(paths[i], paths[j]); }
  }

  lemma ApartPermutes(a: seq<Path>, b: seq<Path>)
    requires multiset(a) == multiset(b) && AllApart(a)
    ensures AllApart(b)
  {
    SameMembers(a, b);
    ApartDistinct(a);
    DistinctPermutes(a, b);
    forall i, j | 0 <= i < j < |b| ensures Apart(b[i], b[j]) {
      assert b[i] in a && b[j] in a && b[i] != b[j];
      var m :| 0 <= m < |a| && a[m] == b[i];
      var n :| 0 <= n < |a| && a[n] == b[j];
      if m < n { assert Apart(a[m], a[n]); } else { assert Apart(a[n], a[m]); }
    }
  }

  /** Every order is safe as soon as one is, and that is exactly when the paths are pairwise apart. */
  lemma EveryOrderKeptIff(paths: seq<Path>)
    requires NonEmpty(paths)
    ensures (forall order: seq<Path> :: multiset(order) == multiset(paths) ==> AlwaysKept(order)) <==> AllApart(paths)
  {
    if AllApart(paths) {
      forall order: seq<Path> | multiset(order) == multiset(paths) ensures AlwaysKept(order) {
        SameMembers(order, paths);
        forall i | 0 <= i < |order| ensures order[i] != [] { assert order[i] in paths; }
        ApartPermutes(paths, order);
        AlwaysKeptIff(order);
      }
    } else {
      AlwaysKeptIff(paths);
      assert multiset(paths) == multiset(paths);
    }
  }

  // ---------- When every key resolves ----------

  ghost predicate WithoutDots(paths: seq<Path>) {
    forall i :: 0 <= i < |paths| ==> Undotted(paths[i])
  }

  predicate Undotted(path: Path) {
    forall k :: 0 <= k < |path| ==> '.' !in path[k]
  }

  lemma DotFreePaths(s: seq<Success>)
    ensures DotFree(s) <==> WithoutDots(Paths(s))
  {
    if WithoutDots(Paths(s)) {
      forall x | x in s ensures Undotted(x.path) {
        var i :| 0 <= i < |s| && s[i] == x;
        assert Paths(s)[i] == x.path;
      }
    } else {
      var i :| 0 <= i < |s| && !Undotted(Paths(s)[i]);
      assert s[i] in s;
    }
  }

  /** The key a result is filed under resolves to its value. */
  ghost predicate Resolves(s: seq<Success>, i: nat)
    requires Placed(s) && i < |s|
  {
    Navigate(GoMap(Data(s)), Split(Join(s[i].path, '.'), '.')) == (s[i].result.value, true)
  }

  ghost predicate AlwaysResolve(paths: seq<Path>) {
    forall s: seq<Success> :: Placed(s) && Paths(s) == paths ==> forall i: nat :: i < |s| ==> Resolves(s, i)
  }

  /** What a path resolves to is in the tree there, unless it is a list. */
  lemma {:induction false} ResolvedIsThere(root: Tree, parts: Path, v: GoValue)
    requires parts != [] && Navigate(GoMap(root), parts) == (v, true) && !v.GoList?
    ensures Lookup(root, parts) == Some(v)
    decreases |parts|
  {
    if |parts| > 1 && root[parts[0]].GoMap? {
      ResolvedIsThere(root[parts[0]].entries, parts[1..], v);
    } else {
      assert parts[1..] == [] || |parts| > 1;
    }
  }

  /** With one value marked, the mark is found only at its own path. */
  lemma MarkIsThere(paths: seq<Path>, i: nat, q: Path)
    requires NonEmpty(paths) && AllApart(paths) && i < |paths| && q != []
    requires Placed(Marked(paths, i, GoBool(true))) &&
             Lookup(Data(Marked(paths, i, GoBool(true))), q) == Some(GoBool(true))
    ensures q == paths[i]
  {
    var s := Marked(paths, i, GoBool(true));
    ApartIndependent(s);
    IndependentKept(s);
    NothingElse(s, q);
    var x :| x in s && (x.path <= q || q <= x.path);
    var j :| 0 <= j < |s| && s[j] == x;
    if x.path < q {
      NothingBeyond(Data(s), x.path, q);
    } else if q < x.path {
      NothingBeyond(Data(s), q, x.path);
    } else {
      assert x.path == q;
    }
  }

  /** A dot in a path makes its key resolve to something else for some values. */
  lemma DottedKeyIsLost(paths: seq<Path>, i: nat) returns (s: seq<Success>)
    requires NonEmpty(paths) && AllApart(paths) && i < |paths| && !Undotted(paths[i])
    ensures Placed(s) && Paths(s) == paths && !Resolves(s, i)
  {
    s := Marked(paths, i, GoBool(true));
    PlacedPaths(s);
    var parts := Split(Join(paths[i], '.'), '.');
    SplitJoinIff(paths[i], '.');
    if Navigate(GoMap(Data(s)), parts) == (GoBool(true), true) {
      ResolvedIsThere(Data(s), parts, GoBool(true));
      MarkIsThere(paths, i, parts);
    }
  }

  /**
   On paths apart from each other, every filed key resolves to its value, for all values, if and only
   if no path has a dot.
   */
  lemma AlwaysResolveIff(paths: seq<Path>)
    requires NonEmpty(paths) && AllApart(paths)
    ensures AlwaysResolve(paths) <==> WithoutDots(paths)
  {
    if WithoutDots(paths) {
      forall s: seq<Success>, i: nat | Placed(s) && Paths(s) == paths && i < |s| ensures Resolves(s, i) {
        ApartIndependent(s);
        DotFreePaths(s);
        AssembledResolves(s, i);
      }
    } else {
      var i: nat :| i < |paths| && !Undotted(paths[i]);
      var s := DottedKeyIsLost(paths, i);
    }
  }
}
