/**
 Assembling flat results into nested maps, and resolving dotted paths in such maps.

 `Put` says what one result does to the tree; `NestedMaps` does it in place, following
 references from map to map as the source does. The two directions undo each other.
 */
module Assembly {
  import opened Wrappers
  import opened JsonSchema
  import opened Sequences

  type Path = seq<string>

  type Tree = map<string, GoValue>

  // ---------- Writing one value ----------

  /** The map under a key, empty if the key is missing. */
  function Sub(root: Tree, key: string): Tree {
    if key in root && root[key].GoMap? then root[key].entries else map[]
  }

  /** No map is needed where something else already is. */
  predicate Clear(root: Tree, path: Path)
    decreases |path|
  {
    |path| > 1 ==> (path[0] in root ==> root[path[0]].GoMap?) && Clear(Sub(root, path[0]), path[1..])
  }

  /** Writes `value` at `path`, creating the maps on the way. */
  function Put(root: Tree, path: Path, value: GoValue): Tree
    requires path != []
    decreases |path|
  {
    if |path| == 1 then root[path[0] := value]
    else root[path[0] := GoMap(Put(Sub(root, path[0]), path[1..], value))]
  }

  function Lookup(root: Tree, path: Path): Option<GoValue>
    requires path != []
    decreases |path|
  {
    if path[0] !in root then None
    else if |path| == 1 then Some(root[path[0]])
    else if root[path[0]].GoMap? then Lookup(root[path[0]].entries, path[1..])
    else None
  }

  /** Neither path leads through the other. */
  predicate Apart(p: Path, q: Path) {
    !(p <= q) && !(q <= p)
  }

  lemma ApartTails(p: Path, q: Path)
    requires p != [] && q != [] && p[0] == q[0] && Apart(p, q)
    ensures |p| > 1 && |q| > 1 && Apart(p[1..], q[1..])
  {
    assert p == [p[0]] + p[1..] && q == [q[0]] + q[1..];
  }

  lemma {:induction false} PutThenLookup(root: Tree, path: Path, value: GoValue)
    requires path != []
    ensures Lookup(Put(root, path, value), path) == Some(value)
    decreases |path|
  {
    if |path| > 1 { PutThenLookup(Sub(root, path[0]), path[1..], value); }
  }

  /** Writing at one path leaves what is at a path apart from it, and whether one can write there. */
  lemma {:induction false} PutElsewhere(root: Tree, p: Path, value: GoValue, q: Path)
    requires p != [] && q != [] && Apart(p, q) && Clear(root, p)
    ensures Lookup(Put(root, p, value), q) == Lookup(root, q)
    ensures Clear(Put(root, p, value), q) == Clear(root, q)
    decreases |p|
  {
    if p[0] == q[0] {
      ApartTails(p, q);
      var sub := Sub(root, p[0]);
      PutElsewhere(sub, p[1..], value, q[1..]);
      LookupEmpty(q[1..]);
    }
  }

  lemma LookupEmpty(q: Path)
    requires q != []
    ensures Lookup(map[], q) == None
  {
  }

  /** Writes at paths apart from each other commute. */
  lemma {:induction false} PutsCommute(root: Tree, p: Path, v: GoValue, q: Path, w: GoValue)
    requires p != [] && q != [] && Apart(p, q)
    ensures Put(Put(root, p, v), q, w) == Put(Put(root, q, w), p, v)
    decreases |p|
  {
    if p[0] == q[0] {
      ApartTails(p, q);
      PutsCommute(Sub(root, p[0]), p[1..], v, q[1..], w);
      CommuteUnder(root, p, v, q, w);
    } else {
      CommuteHeads(root, p, v, q, w);
    }
  }

  lemma CommuteUnder(root: Tree, p: Path, v: GoValue, q: Path, w: GoValue)
    requires |p| > 1 && |q| > 1 && p[0] == q[0]
    requires var sub := Sub(root, p[0]); Put(Put(sub, p[1..], v), q[1..], w) == Put(Put(sub, q[1..], w), p[1..], v)
    ensures Put(Put(root, p, v), q, w) == Put(Put(root, q, w), p, v)
  {
    PutUnder(root, p, v);
    PutUnder(root, q, w);
    PutUnder(Put(root, p, v), q, w);
    PutUnder(Put(root, q, w), p, v);
  }

  lemma CommuteHeads(root: Tree, p: Path, v: GoValue, q: Path, w: GoValue)
    requires p != [] && q != [] && p[0] != q[0]
    ensures Put(Put(root, p, v), q, w) == Put(Put(root, q, w), p, v)
  {
    PutHead(root, p, v);
    PutHead(root, q, w);
    PutHead(Put(root, p, v), q, w);
    PutHead(Put(root, q, w), p, v);
    var x, y := NewHead(root, p, v), NewHead(root, q, w);
    assert NewHead(Put(root, p, v), q, w) == y;
    assert NewHead(Put(root, q, w), p, v) == x;
    assert root[p[0] := x][q[0] := y] == root[q[0] := y][p[0] := x];
  }

  /** What ends up under the first key. */
  function NewHead(root: Tree, path: Path, value: GoValue): GoValue
    requires path != []
  {
    if |path| == 1 then value else GoMap(Put(Sub(root, path[0]), path[1..], value))
  }

  lemma PutHead(root: Tree, path: Path, value: GoValue)
    requires path != []
    ensures Put(root, path, value) == root[path[0] := NewHead(root, path, value)]
    ensures forall k :: k != path[0] ==> Sub(Put(root, path, value), k) == Sub(root, k)
  {
  }

  lemma PutUnder(root: Tree, path: Path, value: GoValue)
    requires |path| > 1
    ensures Put(root, path, value) == root[path[0] := GoMap(Put(Sub(root, path[0]), path[1..], value))]
    ensures Sub(Put(root, path, value), path[0]) == Put(Sub(root, path[0]), path[1..], value)
  {
  }

  // ---------- Writing a list of values ----------

  datatype Write = Write(path: Path, value: GoValue)

  /** Every path is nonempty, and any two lie apart. */
  ghost predicate PrefixFree(writes: seq<Write>) {
    && (forall w :: w in writes ==> w.path != [])
    && forall i, j :: 0 <= i < j < |writes| ==> Apart(writes[i].path, writes[j].path)
  }

  function PutAll(writes: seq<Write>): Tree
    requires forall w :: w in writes ==> w.path != []
  {
    if writes == [] then map[] else
      var last := writes[|writes| - 1];
      Put(PutAll(writes[..|writes| - 1]), last.path, last.value)
  }

  lemma {:induction false} EmptyIsClear(q: Path)
    ensures Clear(map[], q)
  {
    if |q| > 1 { EmptyIsClear(q[1..]); }
  }

  /** Nothing written is in the way of a path apart from all that was written. */
  lemma {:induction false} StaysClear(writes: seq<Write>, q: Path)
    requires PrefixFree(writes) && q != [] && forall w :: w in writes ==> Apart(w.path, q)
    ensures Clear(PutAll(writes), q)
    decreases |writes|
  {
    if writes == [] {
      EmptyIsClear(q);
    } else {
      var n := |writes| - 1;
      StaysClear(writes[..n], q);
      PrefixFreeLast(writes);
      StaysClear(writes[..n], writes[n].path);
      PutElsewhere(PutAll(writes[..n]), writes[n].path, writes[n].value, q);
    }
  }

  lemma PrefixFreeLast(writes: seq<Write>)
    requires PrefixFree(writes) && writes != []
    ensures PrefixFree(writes[..|writes| - 1])
    ensures forall w :: w in writes[..|writes| - 1] ==> Apart(w.path, writes[|writes| - 1].path)
  {
    var n := |writes| - 1;
    forall w | w in writes[..n] ensures Apart(w.path, writes[n].path) {
      var i :| 0 <= i < n && writes[i] == w;
    }
  }

  /** Every written value is found at its path. */
  lemma {:induction false} AllFound(writes: seq<Write>, i: nat)
    requires PrefixFree(writes) && i < |writes|
    ensures Lookup(PutAll(writes), writes[i].path) == Some(writes[i].value)
    decreases |writes|
  {
    var n := |writes| - 1;
    PrefixFreeLast(writes);
    if i == n {
      PutThenLookup(PutAll(writes[..n]), writes[n].path, writes[n].value);
    } else {
      AllFound(writes[..n], i);
      StaysClear(writes[..n], writes[n].path);
      PutElsewhere(PutAll(writes[..n]), writes[n].path, writes[n].value, writes[i].path);
    }
  }

  /** The order of the writes does not matter. */
  lemma {:induction false} PutAllAnyOrder(a: seq<Write>, b: seq<Write>)
    requires PrefixFree(a) && PrefixFree(b) && multiset(a) == multiset(b)
    ensures PutAll(a) == PutAll(b)
    decreases |a|
  {
    if a == [] {
      assert |multiset(b)| == 0;
    } else {
      var i := TakeOut(a, b);
      PrefixFreeLast(a);
      PrefixFreeWithout(b, i);
      PutAllAnyOrder(a[..|a| - 1], b[..i] + b[i + 1..]);
      assert b == b[..i] + [b[i]] + b[i + 1..];
      MoveToEnd(b[..i], b[i], b[i + 1..]);
      PutAllLast(b[..i] + b[i + 1..], b[i]);
    }
  }

  lemma PrefixFreeWithout(b: seq<Write>, i: nat)
    requires PrefixFree(b) && i < |b|
    ensures PrefixFree(b[..i] + b[i + 1..])
  {
    var rest := b[..i] + b[i + 1..];
    forall w | w in rest ensures w.path != [] { assert w in b; }
    forall m, n | 0 <= m < n < |rest| ensures Apart(rest[m].path, rest[n].path) {
      var m', n' := if m < i then m else m + 1, if n < i then n else n + 1;
      assert rest[m] == b[m'] && rest[n] == b[n'];
    }
  }

  /** Independence does not depend on the order. */
  lemma {:induction false} PrefixFreePermutes(a: seq<Write>, b: seq<Write>)
    requires PrefixFree(a) && multiset(a) == multiset(b)
    ensures PrefixFree(b)
    decreases |a|
  {
    if a == [] {
      assert |multiset(b)| == 0;
    } else {
      var n := |a| - 1;
      var i := TakeOut(a, b);
      var rest := b[..i] + b[i + 1..];
      PrefixFreeLast(a);
      PrefixFreePermutes(a[..n], rest);
      forall w | w in rest ensures Apart(w.path, b[i].path) {
        assert w in multiset(rest) && w in a[..n];
      }
      PrefixFreeWith(b, i);
    }
  }

  lemma PrefixFreeWith(b: seq<Write>, i: nat)
    requires i < |b| && PrefixFree(b[..i] + b[i + 1..]) && b[i].path != []
    requires forall w :: w in b[..i] + b[i + 1..] ==> Apart(w.path, b[i].path)
    ensures PrefixFree(b)
  {
    forall j | 0 <= j < |b| ensures b[j].path != [] && (j != i ==> Apart(b[j].path, b[i].path)) {
      if j != i { Elsewhere(b, i, j); }
    }
    forall j, k | 0 <= j < k < |b| ensures Apart(b[j].path, b[k].path) {
      if j != i && k != i {
        Elsewhere(b, i, j);
        Elsewhere(b, i, k);
        var rest := b[..i] + b[i + 1..];
        var j', k' := if j < i then j else j - 1, if k < i then k else k - 1;
        assert Apart(rest[j'].path, rest[k'].path);
      }
    }
  }

  lemma Elsewhere<T>(b: seq<T>, i: nat, j: nat)
    requires i < |b| && j < |b| && j != i
    ensures b[j] == (b[..i] + b[i + 1..])[if j < i then j else j - 1]
    ensures b[j] in b[..i] + b[i + 1..]
  {
  }

  lemma PutAllLast(writes: seq<Write>, y: Write)
    requires forall w :: w in writes + [y] ==> w.path != []
    ensures (forall w :: w in writes ==> w.path != []) && y.path != []
    ensures PutAll(writes + [y]) == Put(PutAll(writes), y.path, y.value)
  {
    assert y in writes + [y] && forall w :: w in writes ==> w in writes + [y];
    assert (writes + [y])[..|writes|] == writes;
  }

  lemma {:induction false} MoveToEnd(before: seq<Write>, x: Write, after: seq<Write>)
    requires PrefixFree(before + [x] + after)
    ensures forall w :: w in before + after + [x] ==> w.path != []
    ensures PutAll(before + [x] + after) == PutAll(before + after + [x])
    decreases |after|
  {
    assert forall w :: w in before + after + [x] <==> w in before + [x] + after;
    if after == [] {
      assert before + [x] + after == before + after + [x];
    } else {
      var m := |after| - 1;
      var init, y := after[..m], after[m];
      var all := before + [x] + after;
      assert all[|before|] == x && all[|all| - 1] == y;
      assert all == before + [x] + init + [y];
      assert all[..|all| - 1] == before + [x] + init;
      PrefixFreeLast(all);
      MoveToEnd(before, x, init);
      assert before + init + [y] == before + after;
      MoveOver(before + init, before + [x] + init, x, y);
    }
  }

  lemma MoveOver(plain: seq<Write>, moved: seq<Write>, x: Write, y: Write)
    requires x.path != [] && y.path != [] && Apart(x.path, y.path)
    requires (forall w :: w in plain ==> w.path != []) && (forall w :: w in moved ==> w.path != [])
    requires PutAll(moved) == PutAll(plain + [x])
    ensures PutAll(moved + [y]) == PutAll(plain + [y] + [x])
  {
    PutAllLast(plain, x);
    PutAllLast(moved, y);
    PutAllLast(plain, y);
    PutAllLast(plain + [y], x);
    PutsCommute(PutAll(plain), x.path, x.value, y.path, y.value);
  }
}
