/** Facts about sequences, sets and multisets that several components share. */
module Sequences {

  ghost predicate Distinct<T>(s: seq<T>) {
    forall i, j :: 0 <= i < j < |s| ==> s[i] != s[j]
  }

  function Range<T>(s: seq<T>): set<T> {
    set x | x in s
  }

  function Flatten<T>(ss: seq<seq<T>>): seq<T> {
    if ss == [] then [] else ss[0] + Flatten(ss[1..])
  }

  lemma {:induction false} FlattenAppend<T>(ss: seq<seq<T>>, s: seq<T>)
    ensures Flatten(ss + [s]) == Flatten(ss) + s
  {
    if ss == [] {
      assert ss + [s] == [s];
    } else {
      assert (ss + [s])[1..] == ss[1..] + [s];
      FlattenAppend(ss[1..], s);
    }
  }

  lemma {:induction false} FlattenMember<T>(ss: seq<seq<T>>, x: T)
    ensures x in Flatten(ss) <==> exists i :: 0 <= i < |ss| && x in ss[i]
  {
    if ss != [] {
      FlattenMember(ss[1..], x);
      if x in Flatten(ss[1..]) {
        var i :| 0 <= i < |ss[1..]| && x in ss[1..][i];
        assert x in ss[i + 1];
      }
    }
  }

  lemma {:induction false} DistinctRangeSize<T>(s: seq<T>)
    ensures |Range(s)| <= |s|
    ensures |Range(s)| == |s| <==> Distinct(s)
  {
    if s != [] {
      var t := s[..|s| - 1];
      var x := s[|s| - 1];
      assert s == t + [x];
      DistinctRangeSize(t);
      assert Range(s) == Range(t) + {x};
      if x in t {
        var i :| 0 <= i < |t| && t[i] == x;
        assert s[i] == s[|s| - 1];
        assert Range(s) == Range(t);
      } else {
        assert forall i :: 0 <= i < |t| ==> s[i] == t[i];
      }
    }
  }

  lemma RangeConcat<T>(a: seq<T>, b: seq<T>)
    ensures Range(a + b) == Range(a) + Range(b)
  {
  }

  lemma RangeAppend<T>(s: seq<T>, x: T)
    ensures Range(s + [x]) == Range(s) + {x}
  {
  }

  lemma DistinctConcat<T>(a: seq<T>, b: seq<T>)
    requires Distinct(a) && Distinct(b) && Range(a) !! Range(b)
    ensures Distinct(a + b)
  {
    forall i, j | 0 <= i < j < |a + b| ensures (a + b)[i] != (a + b)[j] {
      if i < |a| <= j {
        assert (a + b)[i] in Range(a) && (a + b)[j] in Range(b);
      }
    }
  }

  lemma DistinctSplit<T>(a: seq<T>, b: seq<T>)
    requires Distinct(a + b)
    ensures Distinct(a) && Distinct(b) && Range(a) !! Range(b)
  {
    var s := a + b;
    forall i, j | 0 <= i < |a| && 0 <= j < |b| ensures a[i] != b[j] {
      assert s[i] != s[|a| + j];
    }
    forall i, j | 0 <= i < j < |b| ensures b[i] != b[j] {
      assert s[|a| + i] != s[|a| + j];
    }
    forall i, j | 0 <= i < j < |a| ensures a[i] != a[j] {
      assert s[i] != s[j];
    }
  }

  /** In a distinct concatenation an element lies in one part only. */
  lemma {:induction false} DistinctFlatten<T>(ss: seq<seq<T>>, i: int, j: int, x: T)
    requires Distinct(Flatten(ss)) && 0 <= i < |ss| && 0 <= j < |ss| && x in ss[i] && x in ss[j]
    ensures i == j
  {
    DistinctSplit(ss[0], Flatten(ss[1..]));
    if i > 0 { LaterMember(ss, i, x); }
    if j > 0 { LaterMember(ss, j, x); }
    if i > 0 && j > 0 {
      DistinctFlatten(ss[1..], i - 1, j - 1, x);
    }
  }

  lemma LaterMember<T>(ss: seq<seq<T>>, i: int, x: T)
    requires 0 < i < |ss| && x in ss[i]
    ensures x in Range(Flatten(ss[1..]))
  {
    assert x in ss[1..][i - 1];
    FlattenMember(ss[1..], x);
  }

  lemma DistinctAppend<T>(s: seq<T>, x: T)
    requires Distinct(s) && x !in s
    ensures Distinct(s + [x])
  {
  }

  lemma DistinctMultiset<T>(a: seq<T>, b: seq<T>)
    requires Distinct(a) && Distinct(b) && Range(a) == Range(b)
    ensures multiset(a) == multiset(b)
  {
    forall x ensures multiset(a)[x] == multiset(b)[x] {
      CountInDistinct(a, x);
      CountInDistinct(b, x);
      assert x in a <==> x in Range(a);
      assert x in b <==> x in Range(b);
    }
  }

  lemma {:induction false} CountInDistinct<T>(s: seq<T>, x: T)
    requires Distinct(s)
    ensures multiset(s)[x] == if x in s then 1 else 0
  {
    if s != [] {
      assert s == [s[0]] + s[1..];
      CountInDistinct(s[1..], x);
    }
  }

  lemma SplitAt<T>(s: seq<T>, i: nat)
    requires i < |s|
    ensures s == s[..i] + [s[i]] + s[i + 1..]
  {
  }

  lemma MultisetWithout<T>(s: seq<T>, i: nat)
    requires i < |s|
    ensures multiset(s[..i] + s[i + 1..]) + multiset{s[i]} == multiset(s)
  {
    assert s == s[..i] + [s[i]] + s[i + 1..];
  }

  lemma MultisetCancel<T>(a: multiset<T>, b: multiset<T>, x: T)
    requires a + multiset{x} == b + multiset{x}
    ensures a == b
  {
    assert a == (a + multiset{x}) - multiset{x};
    assert b == (b + multiset{x}) - multiset{x};
  }

  lemma SameMembers<T>(a: seq<T>, b: seq<T>)
    requires multiset(a) == multiset(b)
    ensures forall x :: x in a <==> x in b
  {
    forall x ensures x in a <==> x in b { assert x in multiset(a) <==> x in multiset(b); }
  }

  lemma DistinctPermutes<T>(a: seq<T>, b: seq<T>)
    requires multiset(a) == multiset(b) && Distinct(a)
    ensures Distinct(b)
  {
    SameMembers(a, b);
    DistinctRangeSize(a);
    DistinctRangeSize(b);
    assert Range(a) == Range(b);
    assert |a| == |multiset(a)| == |b|;
  }

  /** The last element of a permuted sequence can be taken out of both. */
  lemma TakeOut<T>(a: seq<T>, b: seq<T>) returns (i: nat)
    requires multiset(a) == multiset(b) && a != []
    ensures i < |b| && b[i] == a[|a| - 1]
    ensures multiset(a[..|a| - 1]) == multiset(b[..i] + b[i + 1..])
  {
    var n := |a| - 1;
    assert a[n] in multiset(b);
    i :| 0 <= i < |b| && b[i] == a[n];
    MultisetWithout(a, n);
    MultisetWithout(b, i);
    assert a[..n] + a[n + 1..] == a[..n];
    MultisetCancel(multiset(a[..n]), multiset(b[..i] + b[i + 1..]), a[n]);
  }

  /** Pigeonhole: a walk longer than the set it stays in visits some element twice. */
  lemma Pigeonhole<T>(s: seq<T>, u: set<T>) returns (i: nat, j: nat)
    requires forall x :: x in s ==> x in u
    requires |s| > |u|
    ensures i < j < |s| && s[i] == s[j]
  {
    if Distinct(s) {
      DistinctRangeSize(s);
      SubsetSize(Range(s), u);
      assert false;
    }
    i, j :| 0 <= i < j < |s| && s[i] == s[j];
  }

  lemma {:induction false} SubsetSize<T>(a: set<T>, b: set<T>)
    requires a <= b
    ensures |a| <= |b|
    ensures |a| == |b| ==> a == b
  {
    if a != {} {
      var x :| x in a;
      SubsetSize(a - {x}, b - {x});
    }
  }
}
