/**
 The recursive loop: repeated generation, scoring and selection. What an iteration produces,
 how it is scored and whether the loop should stop are given per iteration; so is the order
 in which Go ranges over a map of scores.
 */
module Scoring {
  import opened Wrappers
  import opened JsonSchema
  import opened Sequences

  /** A float: a real number, or what dividing zero by zero gives. */
  datatype Float = Num(r: real) | NaN

  /** A map of scores, and the order it is ranged over. */
  datatype Scores = Scores(entries: map<string, Float>, order: seq<string>) {
    ghost predicate Valid() {
      Distinct(order) && Range(order) == entries.Keys
    }
  }

  const AGGREGATE := "_aggregate"

  // ---------- Aggregation ----------

  datatype Method = WeightedAverage | Minimum | Maximum | OtherMethod

  /** The numeric scores of an iteration before an aggregate is added. */
  datatype Ranged = Ranged(scores: map<string, real>, order: seq<string>) {
    ghost predicate Valid() {
      Distinct(order) && Range(order) == scores.Keys
    }
  }

  function WeightOf(weights: map<string, real>, d: string): real
    requires d in weights
  {
    if weights[d] == 0.0 then 1.0 / |weights| as real else weights[d]
  }

  predicate Matches(r: Ranged, weights: map<string, real>, d: string) {
    d in r.scores && d in weights
  }

  /** The scores that count, each times its weight. */
  function Products(r: Ranged, weights: map<string, real>): map<string, real> {
    map d | d in r.scores && d in weights :: r.scores[d] * WeightOf(weights, d)
  }

  function MatchingWeights(r: Ranged, weights: map<string, real>): map<string, real> {
    map d | d in r.scores && d in weights :: WeightOf(weights, d)
  }

  function WeightedSum(r: Ranged, weights: map<string, real>, keys: seq<string>): real {
    Sum(Products(r, weights), keys)
  }

  function TotalWeight(r: Ranged, weights: map<string, real>, keys: seq<string>): real {
    Sum(MatchingWeights(r, weights), keys)
  }

  /** The weighted average; without a positive total weight it is zero. */
  function WeightedAggregate(r: Ranged, weights: map<string, real>): real {
    var total := TotalWeight(r, weights, r.order);
    if total > 0.0 then WeightedSum(r, weights, r.order) / total else 0.0
  }

  function Sum(scores: map<string, real>, keys: seq<string>): real {
    if keys == [] then 0.0 else
      Sum(scores, keys[..|keys| - 1]) + if keys[|keys| - 1] in scores then scores[keys[|keys| - 1]] else 0.0
  }

  method WeightedAverageOf(r: Ranged, weights: map<string, real>) returns (a: real)
    requires r.Valid()
    ensures a == WeightedAggregate(r, weights)
  {
    var sum, totalWeight := WeightedTotals(r, weights);
    a := if totalWeight > 0.0 then sum / totalWeight else 0.0;
  }

  method Weigh(r: Ranged, weights: map<string, real>, d: string) returns (term: real, weight: real)
    requires Matches(r, weights, d)
    ensures weight == WeightOf(weights, d) && term == r.scores[d] * WeightOf(weights, d)
  {
    weight := weights[d];
    if weight == 0.0 {
      weight := 1.0 / |weights| as real;
    }
    term := r.scores[d] * weight;
  }

  method WeightedTotals(r: Ranged, weights: map<string, real>) returns (sum: real, totalWeight: real)
    requires r.Valid()
    ensures sum == WeightedSum(r, weights, r.order) && totalWeight == TotalWeight(r, weights, r.order)
  {
    var order := r.order;
    sum, totalWeight := 0.0, 0.0;
    for i := 0 to |order|
      invariant sum == WeightedSum(r, weights, order[..i]) && totalWeight == TotalWeight(r, weights, order[..i])
    {
      var dimension := order[i];
      assert dimension in Range(order);
      OneMoreTerm(r, weights, order, i);
      if dimension in weights {
        var term, weight := Weigh(r, weights, dimension);
        sum := sum + term;
        totalWeight := totalWeight + weight;
      }
    }
    assert order[..|order|] == order;
  }

  lemma OneMoreTerm(r: Ranged, weights: map<string, real>, order: seq<string>, i: nat)
    requires i < |order| && order[i] in r.scores
    ensures var d := order[i];
            && WeightedSum(r, weights, order[..i + 1]) ==
               WeightedSum(r, weights, order[..i]) + (if d in weights then r.scores[d] * WeightOf(weights, d) else 0.0)
            && TotalWeight(r, weights, order[..i + 1]) ==
               TotalWeight(r, weights, order[..i]) + (if d in weights then WeightOf(weights, d) else 0.0)
  {
    assert order[..i + 1][..i] == order[..i];
    LastTerm(Products(r, weights), order[..i + 1]);
    LastTerm(MatchingWeights(r, weights), order[..i + 1]);
  }

  method MinimumOf(r: Ranged) returns (min: real)
    requires r.Valid()
    ensures min <= 100.0 && forall d :: d in r.scores ==> min <= r.scores[d]
    ensures min == 100.0 || exists d :: d in r.scores && min == r.scores[d]
  {
    min := 100.0;
    for i := 0 to |r.order|
      invariant min <= 100.0 && forall j :: 0 <= j < i ==> r.order[j] in r.scores && min <= r.scores[r.order[j]]
      invariant min == 100.0 || exists d :: d in r.scores && min == r.scores[d]
    {
      assert r.order[i] in Range(r.order);
      if r.scores[r.order[i]] < min {
        min := r.scores[r.order[i]];
      }
    }
    assert forall d :: d in r.scores ==> d in Range(r.order);
  }

  method MaximumOf(r: Ranged) returns (max: real)
    requires r.Valid()
    ensures max >= 0.0 && forall d :: d in r.scores ==> max >= r.scores[d]
    ensures max == 0.0 || exists d :: d in r.scores && max == r.scores[d]
  {
    max := 0.0;
    for i := 0 to |r.order|
      invariant max >= 0.0 && forall j :: 0 <= j < i ==> r.order[j] in r.scores && max >= r.scores[r.order[j]]
      invariant max == 0.0 || exists d :: d in r.scores && max == r.scores[d]
    {
      assert r.order[i] in Range(r.order);
      if r.scores[r.order[i]] > max {
        max := r.scores[r.order[i]];
      }
    }
    assert forall d :: d in r.scores ==> d in Range(r.order);
  }

  /** The plain average; without scores it is zero divided by zero. */
  method AverageOf(r: Ranged) returns (a: Float)
    requires r.Valid()
    ensures a == if r.order == [] then NaN else Num(Sum(r.scores, r.order) / |r.order| as real)
  {
    var order := r.order;
    var sum := 0.0;
    for i := 0 to |order|
      invariant sum == Sum(r.scores, order[..i])
    {
      assert order[..i + 1][..i] == order[..i];
      assert order[i] in Range(order);
      sum := sum + r.scores[order[i]];
    }
    assert order[..|order|] == order;
    a := if |order| == 0 then NaN else Num(sum / |order| as real);
  }

  method CalculateAggregate(r: Ranged, how: Method, weights: map<string, real>) returns (a: Float)
    requires r.Valid()
    ensures IsAggregate(r, how, weights, a)
    ensures a.NaN? <==> how == OtherMethod && r.scores == map[]
    ensures forall lo, hi :: Between(r, how, weights, lo, hi) ==> a.NaN? || lo <= a.r <= hi
  {
    assert forall d :: d in r.scores <==> d in Range(r.order);
    match how {
      case WeightedAverage =>
        var w := WeightedAverageOf(r, weights);
        a := Num(w);
        forall lo, hi | Between(r, how, weights, lo, hi) ensures lo <= w <= hi {
          WeightedAverageBetween(r, weights, lo, hi);
        }
      case Minimum =>
        var min := MinimumOf(r);
        a := Num(min);
      case Maximum =>
        var max := MaximumOf(r);
        a := Num(max);
      case OtherMethod =>
        a := AverageOf(r);
        if r.order != [] {
          assert r.order[0] in Range(r.order);
          forall lo, hi | Between(r, how, weights, lo, hi) ensures lo <= a.r <= hi {
            AverageBetween(r, lo, hi);
          }
        }
    }
  }

  ghost predicate IsAggregate(r: Ranged, how: Method, weights: map<string, real>, a: Float) {
    match how
    case WeightedAverage => a == Num(WeightedAggregate(r, weights))
    case Minimum =>
      && a.Num? && a.r <= 100.0 && (forall d :: d in r.scores ==> a.r <= r.scores[d])
      && (a.r == 100.0 || exists d :: d in r.scores && a.r == r.scores[d])
    case Maximum =>
      && a.Num? && a.r >= 0.0 && (forall d :: d in r.scores ==> a.r >= r.scores[d])
      && (a.r == 0.0 || exists d :: d in r.scores && a.r == r.scores[d])
    case OtherMethod => a == if r.order == [] then NaN else Num(Sum(r.scores, r.order) / |r.order| as real)
  }

  /** Two orders of the same map of scores give the same aggregate. */
  lemma AnyOrderSameAggregate(r: Ranged, s: Ranged, how: Method, weights: map<string, real>, a: Float, b: Float)
    requires r.Valid() && s.Valid() && r.scores == s.scores
    requires IsAggregate(r, how, weights, a) && IsAggregate(s, how, weights, b)
    ensures a == b
  {
    DistinctMultiset(r.order, s.order);
    SumAnyOrder(Products(r, weights), r.order, s.order);
    SumAnyOrder(MatchingWeights(r, weights), r.order, s.order);
    SumAnyOrder(r.scores, r.order, s.order);
    assert |r.order| == |multiset(r.order)| == |s.order|;
  }

  lemma {:induction false} SumAnyOrder(f: map<string, real>, a: seq<string>, b: seq<string>)
    requires multiset(a) == multiset(b)
    ensures Sum(f, a) == Sum(f, b)
    decreases |a|
  {
    if a == [] {
      assert |multiset(b)| == 0;
    } else {
      var i := TakeOut(a, b);
      SumAnyOrder(f, a[..|a| - 1], b[..i] + b[i + 1..]);
      SplitAt(b, i);
      SumInsert(f, b[..i], b[i], b[i + 1..], b);
    }
  }

  lemma {:induction false} SumInsert(
      f: map<string, real>, a: seq<string>, x: string, b: seq<string>, whole: seq<string>)
    requires whole == a + [x] + b
    ensures Sum(f, whole) == Sum(f, a + b) + if x in f then f[x] else 0.0
    decreases |b|
  {
    if b == [] {
      assert whole[..|a|] == a && a + b == a;
    } else {
      var m := |b| - 1;
      assert whole[..|whole| - 1] == a + [x] + b[..m];
      assert (a + b)[..|a| + m] == a + b[..m];
      SumInsert(f, a, x, b[..m], whole[..|whole| - 1]);
    }
  }

  /** `lo` and `hi` enclose the aggregate: the scores it is formed from, and the end of the scale a method starts at. */
  ghost predicate Between(r: Ranged, how: Method, weights: map<string, real>, lo: real, hi: real) {
    match how
    case WeightedAverage =>
      && (forall d :: Matches(r, weights, d) ==> weights[d] >= 0.0) && (exists d :: Matches(r, weights, d))
      && forall d :: Matches(r, weights, d) ==> lo <= r.scores[d] <= hi
    case Minimum =>
      && lo <= 100.0 && (forall d :: d in r.scores ==> lo <= r.scores[d])
      && (100.0 <= hi || exists d :: d in r.scores && r.scores[d] <= hi)
    case Maximum =>
      && 0.0 <= hi && (forall d :: d in r.scores ==> r.scores[d] <= hi)
      && (lo <= 0.0 || exists d :: d in r.scores && lo <= r.scores[d])
    case OtherMethod => forall d :: d in r.scores ==> lo <= r.scores[d] <= hi
  }

  /** Terms enclosed by their weights add up to a sum enclosed by the total weight. */
  lemma {:induction false} WeightedBounds(
      products: map<string, real>, ws: map<string, real>, keys: seq<string>, lo: real, hi: real)
    requires products.Keys == ws.Keys
    requires forall d :: d in ws ==> ws[d] > 0.0 && Enclosed(lo, products[d], hi, ws[d])
    ensures Enclosed(lo, Sum(products, keys), hi, Sum(ws, keys))
    ensures (exists d :: d in keys && d in ws) ==> Sum(ws, keys) > 0.0
    decreases |keys|
  {
    if keys == [] {
      EnclosedZero(lo, hi);
    } else {
      var n := |keys| - 1;
      WeightedBounds(products, ws, keys[..n], lo, hi);
      LastTerm(products, keys);
      LastTerm(ws, keys);
      if keys[n] in ws {
        EnclosedAdd(lo, Sum(products, keys[..n]), hi, Sum(ws, keys[..n]), products[keys[n]], ws[keys[n]]);
      }
      assert keys == keys[..n] + [keys[n]];
    }
  }

  lemma LastTerm(f: map<string, real>, keys: seq<string>)
    requires keys != []
    ensures var d := keys[|keys| - 1]; Sum(f, keys) == Sum(f, keys[..|keys| - 1]) + if d in f then f[d] else 0.0
  {
  }

  /** The sum `s` of scores between `lo` and `hi` with weights adding up to `t`. */
  predicate Enclosed(lo: real, s: real, hi: real, t: real) {
    t >= 0.0 && lo * t <= s <= hi * t
  }

  lemma EnclosedZero(lo: real, hi: real)
    ensures Enclosed(lo, 0.0, hi, 0.0)
  {
  }

  lemma EnclosedAdd(lo: real, s: real, hi: real, t: real, v: real, w: real)
    requires Enclosed(lo, s, hi, t) && Enclosed(lo, v, hi, w)
    ensures Enclosed(lo, s + v, hi, t + w)
  {
    assert lo * (t + w) == lo * t + lo * w && hi * (t + w) == hi * t + hi * w;
  }

  lemma EnclosedTerm(lo: real, x: real, hi: real, w: real)
    requires lo <= x <= hi && w > 0.0
    ensures Enclosed(lo, x * w, hi, w)
  {
    TimesAtMost(lo, x, w);
    TimesAtMost(x, hi, w);
  }

  lemma TimesAtMost(a: real, b: real, w: real)
    requires a <= b && w > 0.0
    ensures a * w <= b * w
  {
  }

  lemma EnclosedQuotient(lo: real, s: real, hi: real, t: real)
    requires Enclosed(lo, s, hi, t) && t > 0.0
    ensures lo <= s / t <= hi
  {
    var q := s / t;
    assert q * t == s;
    if q < lo { TimesPositive(q, lo, t); }
    if hi < q { TimesPositive(hi, q, t); }
  }

  lemma TimesPositive(a: real, b: real, t: real)
    requires a < b && t > 0.0
    ensures a * t < b * t
  {
  }

  lemma SomeWeight(weights: map<string, real>, d: string)
    requires d in weights && weights[d] >= 0.0
    ensures WeightOf(weights, d) > 0.0
  {
    assert |weights| > 0;
  }

  lemma MatchEnclosed(r: Ranged, weights: map<string, real>, lo: real, hi: real, d: string)
    requires Between(r, WeightedAverage, weights, lo, hi) && Matches(r, weights, d)
    ensures MatchingWeights(r, weights)[d] > 0.0 &&
            Enclosed(lo, Products(r, weights)[d], hi, MatchingWeights(r, weights)[d])
  {
    SomeWeight(weights, d);
    EnclosedTerm(lo, r.scores[d], hi, WeightOf(weights, d));
  }

  /**
   With matching weights that are not negative, the weighted average of at least one match lies among
   the matching scores.
   */
  lemma WeightedAverageBetween(r: Ranged, weights: map<string, real>, lo: real, hi: real)
    requires r.Valid() && Between(r, WeightedAverage, weights, lo, hi)
    ensures TotalWeight(r, weights, r.order) > 0.0
    ensures lo <= WeightedSum(r, weights, r.order) / TotalWeight(r, weights, r.order) <= hi
  {
    var products, ws := Products(r, weights), MatchingWeights(r, weights);
    forall d | d in ws ensures ws[d] > 0.0 && Enclosed(lo, products[d], hi, ws[d]) {
      MatchEnclosed(r, weights, lo, hi, d);
    }
    WeightedBounds(products, ws, r.order, lo, hi);
    var d :| Matches(r, weights, d);
    assert d in Range(r.order) && d in ws;
    EnclosedQuotient(lo, WeightedSum(r, weights, r.order), hi, TotalWeight(r, weights, r.order));
  }

  lemma {:induction false} SumBounds(scores: map<string, real>, keys: seq<string>, lo: real, hi: real)
    requires forall d :: d in keys ==> d in scores && lo <= scores[d] <= hi
    ensures Enclosed(lo, Sum(scores, keys), hi, |keys| as real)
  {
    if keys == [] {
      EnclosedZero(lo, hi);
    } else {
      var n := |keys| - 1;
      SumBounds(scores, keys[..n], lo, hi);
      EnclosedAdd(lo, Sum(scores, keys[..n]), hi, n as real, scores[keys[n]], 1.0);
    }
  }

  lemma AverageBetween(r: Ranged, lo: real, hi: real)
    requires r.Valid() && r.order != [] && forall d :: d in r.scores ==> lo <= r.scores[d] <= hi
    ensures lo <= Sum(r.scores, r.order) / |r.order| as real <= hi
  {
    assert forall d :: d in r.order ==> d in Range(r.order);
    SumBounds(r.scores, r.order, lo, hi);
    EnclosedQuotient(lo, Sum(r.scores, r.order), hi, |r.order| as real);
  }

  // When the weighted average lies among the scores.

  ghost predicate Among(r: Ranged, weights: map<string, real>, x: real) {
    && (exists d :: Matches(r, weights, d) && r.scores[d] <= x)
    && exists d :: Matches(r, weights, d) && x <= r.scores[d]
  }

  /** Whatever the scores of the matching dimensions `m` are, the aggregate lies among them. */
  ghost predicate AlwaysAmong(weights: map<string, real>, m: set<string>) {
    forall r: Ranged :: r.Valid() && r.scores.Keys * weights.Keys == m ==>
        Among(r, weights, WeightedAggregate(r, weights))
  }

  lemma {:induction false} LeastMatch(r: Ranged, m: set<string>) returns (d: string)
    requires m != {} && m <= r.scores.Keys
    ensures d in m && forall e :: e in m ==> r.scores[d] <= r.scores[e]
  {
    d :| d in m;
    if m != {d} {
      var e := LeastMatch(r, m - {d});
      if r.scores[e] < r.scores[d] { d := e; }
    }
  }

  lemma {:induction false} GreatestMatch(r: Ranged, m: set<string>) returns (d: string)
    requires m != {} && m <= r.scores.Keys
    ensures d in m && forall e :: e in m ==> r.scores[e] <= r.scores[d]
  {
    d :| d in m;
    if m != {d} {
      var e := GreatestMatch(r, m - {d});
      if r.scores[d] < r.scores[e] { d := e; }
    }
  }

  lemma AmongMatches(r: Ranged, weights: map<string, real>)
    requires r.Valid() && r.scores.Keys * weights.Keys != {}
    requires forall d :: Matches(r, weights, d) ==> weights[d] >= 0.0
    ensures Among(r, weights, WeightedAggregate(r, weights))
  {
    var m := r.scores.Keys * weights.Keys;
    var lo := LeastMatch(r, m);
    var hi := GreatestMatch(r, m);
    assert Matches(r, weights, lo) && Matches(r, weights, hi);
    assert forall d :: Matches(r, weights, d) ==> d in m;
    WeightedAverageBetween(r, weights, r.scores[lo], r.scores[hi]);
  }

  /** Every dimension of `m` scores `rest`, but `d` scores `one`. */
  function OneScored(m: set<string>, d: string, one: real, rest: real): map<string, real> {
    map x | x in m :: if x == d then one else rest
  }

  lemma {:induction false} Enumerate(m: set<string>) returns (q: seq<string>)
    ensures Distinct(q) && Range(q) == m
  {
    if m == {} {
      q := [];
    } else {
      var x :| x in m;
      var rest := Enumerate(m - {x});
      assert x !in Range(rest);
      q := rest + [x];
      DistinctAppend(rest, x);
      RangeAppend(rest, x);
    }
  }

  /** When all but one term are zero, that one is the sum. */
  lemma {:induction false} SumOfOne(f: map<string, real>, keys: seq<string>, d: string)
    requires Distinct(keys) && d in f && forall x :: x in f && x != d ==> f[x] == 0.0
    ensures Sum(f, keys) == if d in keys then f[d] else 0.0
    decreases |keys|
  {
    if keys != [] {
      var n := |keys| - 1;
      SumOfOne(f, keys[..n], d);
      assert keys == keys[..n] + [keys[n]];
      if d in keys[..n] {
        var i :| 0 <= i < n && keys[i] == d;
        assert keys[i] != keys[n];
      }
    }
  }

  /** A negative weight takes the aggregate outside: below the scores, or to zero beneath them all. */
  lemma NegativeWeightEscapes(weights: map<string, real>, m: set<string>, d: string) returns (r: Ranged)
    requires m <= weights.Keys && d in m && weights[d] < 0.0
    ensures r.Valid() && r.scores.Keys == m && forall x :: x in m ==> WeightedAggregate(r, weights) < r.scores[x]
  {
    var order := Enumerate(m);
    r := Ranged(OneScored(m, d, 1.0, 0.0), order);
    var total := TotalWeight(r, weights, order);
    if total > 0.0 {
      assert d in Range(order);
      var f := Products(r, weights);
      assert forall x :: x in f && x != d ==> f[x] == 0.0;
      SumOfOne(f, order, d);
      NegativeQuotient(f[d], total);
    } else {
      var ones := Ranged(OneScored(m, d, 1.0, 1.0), order);
      assert MatchingWeights(ones, weights) == MatchingWeights(r, weights);
      r := ones;
    }
  }

  lemma NegativeQuotient(a: real, t: real)
    requires a < 0.0 && t > 0.0
    ensures a / t < 0.0
  {
  }

  /** The aggregate always lies among the matching scores if and only if no matching weight is negative. */
  lemma AlwaysAmongIff(weights: map<string, real>, m: set<string>)
    requires m != {} && m <= weights.Keys
    ensures AlwaysAmong(weights, m) <==> forall d :: d in m ==> weights[d] >= 0.0
  {
    if forall d :: d in m ==> weights[d] >= 0.0 {
      forall r: Ranged | r.Valid() && r.scores.Keys * weights.Keys == m
        ensures Among(r, weights, WeightedAggregate(r, weights))
      {
        assert forall d :: Matches(r, weights, d) ==> d in r.scores.Keys * weights.Keys;
        AmongMatches(r, weights);
      }
    } else {
      var d :| d in m && weights[d] < 0.0;
      var r := NegativeWeightEscapes(weights, m, d);
      assert r.scores.Keys * weights.Keys == m;
      assert forall x :: Matches(r, weights, x) ==> x in m;
      assert !Among(r, weights, WeightedAggregate(r, weights));
    }
  }

  // ---------- Selection ----------

  datatype Iteration = Iteration(value: GoValue, scores: Option<Scores>)

  predicate Scored(it: Iteration) {
    it.scores.Some? && it.scores.value.entries != map[]
  }

  ghost predicate ValidIteration(it: Iteration) {
    it.scores.Some? ==> it.scores.value.Valid()
  }

  function Plus(a: Float, b: Float): Float {
    if a.NaN? || b.NaN? then NaN else Num(a.r + b.r)
  }

  function FloatSum(s: Scores, n: nat): Float
    requires n <= |s.order|
  {
    if n == 0 then Num(0.0) else
      Plus(FloatSum(s, n - 1), if s.order[n - 1] in s.entries then s.entries[s.order[n - 1]] else Num(0.0))
  }

  /** The score an iteration is compared by: its aggregate, or else the average of its scores. */
  function ScoreOf(s: Scores): Float {
    if AGGREGATE in s.entries then s.entries[AGGREGATE]
    else if s.order == [] || FloatSum(s, |s.order|).NaN? then NaN
    else Num(FloatSum(s, |s.order|).r / |s.order| as real)
  }

  /** The sum of `n` scores lies between `n` times the bounds. */
  predicate Within(sum: Float, n: real, lo: real, hi: real) {
    sum.Num? && lo * n <= sum.r <= hi * n
  }

  lemma OneMoreScore(sum: Float, x: Float, n: real, m: real, lo: real, hi: real)
    requires Within(sum, n, lo, hi) && x.Num? && lo <= x.r <= hi && m == n + 1.0
    ensures Within(Plus(sum, x), m, lo, hi)
  {
  }

  lemma {:induction false} FloatSumBetween(s: Scores, n: nat, lo: real, hi: real)
    requires s.Valid() && n <= |s.order|
    requires forall d :: d in s.entries ==> s.entries[d].Num? && lo <= s.entries[d].r <= hi
    ensures Within(FloatSum(s, n), n as real, lo, hi)
  {
    if n == 0 {
      assert FloatSum(s, n) == Num(0.0);
    } else {
      FloatSumBetween(s, n - 1, lo, hi);
      var d := s.order[n - 1];
      assert d in Range(s.order);
      OneMoreScore(FloatSum(s, n - 1), s.entries[d], (n - 1) as real, n as real, lo, hi);
      assert FloatSum(s, n) == Plus(FloatSum(s, n - 1), s.entries[d]);
    }
  }

  /** Without an aggregate the score lies between any bounds of the scores, and is theirs if all are equal. */
  lemma ScoreBetween(s: Scores, lo: real, hi: real)
    requires s.Valid() && s.entries != map[] && AGGREGATE !in s.entries
    requires forall d :: d in s.entries ==> s.entries[d].Num? && lo <= s.entries[d].r <= hi
    ensures ScoreOf(s).Num? && lo <= ScoreOf(s).r <= hi
  {
    var d :| d in s.entries;
    assert d in Range(s.order);
    FloatSumBetween(s, |s.order|, lo, hi);
    QuotientBetween(FloatSum(s, |s.order|).r, |s.order|, lo, hi);
  }

  lemma QuotientBetween(sum: real, n: nat, lo: real, hi: real)
    requires n > 0 && lo * n as real <= sum <= hi * n as real
    ensures lo <= sum / n as real <= hi
  {
    var q := sum / n as real;
    assert q * n as real == sum;
    assert q < lo ==> q * n as real < lo * n as real;
    assert q > hi ==> q * n as real > hi * n as real;
  }

  method IterationScore(s: Scores) returns (score: Float)
    requires s.Valid() && s.entries != map[]
    ensures score == ScoreOf(s)
  {
    assert s.order != [] by {
      var d :| d in s.entries;
      assert d in Range(s.order);
    }
    if AGGREGATE in s.entries { return s.entries[AGGREGATE]; }
    var sum, count := Num(0.0), 0;
    for i := 0 to |s.order|
      invariant sum == FloatSum(s, i) && count == i
    {
      assert s.order[i] in Range(s.order);
      if s.order[i] != AGGREGATE {
        sum := Plus(sum, s.entries[s.order[i]]);
        count := count + 1;
      }
    }
    score := if sum.NaN? then NaN else Num(sum.r / count as real);
  }

  /** Whether a new score replaces the best one; a comparison with NaN is false. */
  predicate Better(highest: bool, score: Float, best: Float) {
    score.Num? && best.Num? && if highest then score.r > best.r else score.r < best.r
  }

  /** Position `k` holds the first iteration that has scores. */
  ghost predicate FirstScored(results: seq<Iteration>, k: nat) {
    k < |results| && Scored(results[k]) && forall j :: 0 <= j < k ==> !Scored(results[j])
  }

  function Score(results: seq<Iteration>, i: nat): Float
    requires i < |results| && Scored(results[i])
  {
    ScoreOf(results[i].scores.value)
  }

  /** Position `k` holds the first of the best scores among the first `n` iterations. */
  ghost predicate FirstBest(results: seq<Iteration>, n: nat, k: nat, highest: bool)
    requires n <= |results|
  {
    && k < n && Scored(results[k]) && Score(results, k).Num?
    && (forall j :: 0 <= j < n && Scored(results[j]) ==> !Better(highest, Score(results, j), Score(results, k)))
    && forall j :: 0 <= j < k && Scored(results[j]) && Score(results, j).Num? ==>
        Better(highest, Score(results, k), Score(results, j))
  }

  method SelectByScore(results: seq<Iteration>, highest: bool) returns (best: nat)
    requires results != [] && forall it :: it in results ==> ValidIteration(it)
    ensures best < |results|
    ensures (forall it :: it in results ==> !Scored(it)) ==> best == 0
    ensures forall k: nat :: FirstScored(results, k) ==>
              if Score(results, k).NaN? then best == k else FirstBest(results, |results|, best, highest)
  {
    best := 0;
    var bestScore, hasScore := Num(0.0), false;
    ghost var first := 0;
    for i := 0 to |results|
      invariant best < |results|
      invariant !hasScore ==> best == 0 && forall j :: 0 <= j < i ==> !Scored(results[j])
      invariant hasScore ==>
                  first < i && FirstScored(results, first) && Scored(results[best]) && bestScore == Score(results, best)
      invariant hasScore ==> if Score(results, first).NaN? then best == first else FirstBest(results, i, best, highest)
    {
      var iter := results[i];
      assert ValidIteration(iter);
      if iter.scores.None? || iter.scores.value.entries == map[] { continue; }
      var aggregateScore := IterationScore(iter.scores.value);
      if !hasScore {
        bestScore, best, hasScore := aggregateScore, i, true;
        first := i;
      } else if Better(highest, aggregateScore, bestScore) {
        bestScore, best := aggregateScore, i;
      }
    }
    forall k: nat | FirstScored(results, k) ensures hasScore && k == first {
      assert Scored(results[k]);
    }
  }

  // ---------- The loop ----------

  datatype Selection = Highest | Lowest | Latest | First | All | OtherSelection

  /** What one round of the loop meets: cancellation, a value or a failure, its scores, a request to stop. */
  datatype Attempt = Attempt(cancelled: bool, produced: Option<GoValue>, scores: Option<Scores>, stop: bool)

  datatype Ending = Finished | Cancelled | Failed

  /** The iterations completed from round `i` on, and how the loop ends. */
  function Rounds(attempts: seq<Attempt>, max: int, i: nat): (r: (seq<Iteration>, Ending))
    requires max <= |attempts|
    ensures i + |r.0| <= max || r.0 == []
    decreases max - i
  {
    if i >= max then ([], Finished)
    else
      var a := attempts[i];
      if a.cancelled then ([], Cancelled)
      else if a.produced.None? then ([], Failed)
      else
        var it := Iteration(a.produced.value, a.scores);
        if a.stop then ([it], Finished)
        else var (rest, ending) := Rounds(attempts, max, i + 1); ([it] + rest, ending)
  }

  /** What the selection strategies promise. */
  ghost predicate Chosen(results: seq<Iteration>, selection: Selection, v: GoValue)
    requires results != []
  {
    match selection
    case First => v == results[0].value
    case All => v == GoList(seq(|results|, i requires 0 <= i < |results| => results[i].value))
    case Highest => ChosenByScore(results, true, v)
    case Lowest => ChosenByScore(results, false, v)
    case _ => v == results[|results| - 1].value
  }

  ghost predicate ChosenByScore(results: seq<Iteration>, highest: bool, v: GoValue)
    requires results != []
  {
    if forall it :: it in results ==> !Scored(it) then v == results[0].value
    else exists k: nat :: FirstScored(results, k) && ChosenFrom(results, k, highest, v)
  }

  /** With `k` the first scored iteration: a score that is no number is never replaced. */
  ghost predicate ChosenFrom(results: seq<Iteration>, k: nat, highest: bool, v: GoValue)
    requires FirstScored(results, k)
  {
    if Score(results, k).NaN? then v == results[k].value
    else exists b: nat :: FirstBest(results, |results|, b, highest) && v == results[b].value
  }

  lemma {:induction false} SomeFirstScored(results: seq<Iteration>, i: nat) returns (k: nat)
    requires i < |results| && Scored(results[i])
    ensures FirstScored(results, k)
    decreases i
  {
    if j :| 0 <= j < i && Scored(results[j]) {
      k := SomeFirstScored(results, j);
    } else {
      k := i;
    }
  }

  method SelectResult(results: seq<Iteration>, selection: Selection) returns (r: Result<GoValue>)
    requires forall it :: it in results ==> ValidIteration(it)
    ensures r.Ok? <==> results != []
    ensures r.Ok? ==> Chosen(results, selection, r.value)
  {
    if |results| == 0 { return Err("no results to select from"); }
    match selection {
      case Highest =>
        var best := ByScore(results, true);
        r := Ok(best);
      case Lowest =>
        var best := ByScore(results, false);
        r := Ok(best);
      case First => r := Ok(results[0].value);
      case All =>
        var allValues := new GoValue[|results|](_ => GoNil);
        for i := 0 to |results|
          invariant forall j :: 0 <= j < i ==> allValues[j] == results[j].value
        {
          allValues[i] := results[i].value;
        }
        assert allValues[..] == seq(|results|, i requires 0 <= i < |results| => results[i].value);
        r := Ok(GoList(allValues[..]));
      case _ => r := Ok(results[|results| - 1].value);
    }
  }

  method ByScore(results: seq<Iteration>, highest: bool) returns (v: GoValue)
    requires results != [] && forall it :: it in results ==> ValidIteration(it)
    ensures ChosenByScore(results, highest, v)
  {
    var best := SelectByScore(results, highest);
    v := results[best].value;
    if it :| it in results && Scored(it) {
      var i :| 0 <= i < |results| && results[i] == it;
      ghost var k := SomeFirstScored(results, i);
    }
  }

  method Process(cancelled: bool, maxIterations: int, selection: Selection, attempts: seq<Attempt>)
    returns (r: Result<GoValue>)
    requires maxIterations <= |attempts|
    requires forall a :: a in attempts ==> a.scores.Some? ==> a.scores.value.Valid()
    ensures var (results, ending) := Rounds(attempts, maxIterations, 0);
            && (r.Ok? <==> !cancelled && ending != Failed && results != [])
            && (r.Ok? ==> Chosen(results, selection, r.value))
  {
    if cancelled { return Err("context cancelled"); }
    var results: seq<Iteration> := [];
    var i := 0;
    assert results + Rounds(attempts, maxIterations, 0).0 == Rounds(attempts, maxIterations, 0).0;
    while i < maxIterations
      invariant 0 <= i && (i <= maxIterations || (i == 0 && results == []))
      invariant forall it :: it in results ==> ValidIteration(it)
      invariant Rounds(attempts, maxIterations, 0).0 == results + Rounds(attempts, maxIterations, i).0
      invariant Rounds(attempts, maxIterations, 0).1 == Rounds(attempts, maxIterations, i).1
      decreases maxIterations - i
    {
      var a := attempts[i];
      assert a in attempts;
      if a.cancelled {
        assert results + [] == results;
        if |results| > 0 {
          r := SelectResult(results, selection);
          return;
        }
        return Err("context cancelled");
      }
      if a.produced.None? { return Err("iteration failed"); }
      results := results + [Iteration(a.produced.value, a.scores)];
      if a.stop {
        r := SelectResult(results, selection);
        return;
      }
      i := i + 1;
    }
    assert results + [] == results;
    r := SelectResult(results, selection);
  }

  /**
   The loop never runs more rounds than allowed; each completed one produced its iteration, and only
   the last may have stopped it.
   */
  lemma {:induction false} RoundsBounded(attempts: seq<Attempt>, max: int, i: nat, j: nat)
    requires max <= |attempts| && j < |Rounds(attempts, max, i).0|
    ensures i + |Rounds(attempts, max, i).0| <= max
    ensures !attempts[i + j].cancelled && (attempts[i + j].stop ==> j == |Rounds(attempts, max, i).0| - 1)
    ensures Some(Rounds(attempts, max, i).0[j].value) == attempts[i + j].produced
    ensures Rounds(attempts, max, i).0[j].scores == attempts[i + j].scores
    decreases j
  {
    if j > 0 { RoundsBounded(attempts, max, i + 1, j - 1); }
  }

  /** Why the loop ended after its last completed round. */
  lemma {:induction false} RoundsEnd(attempts: seq<Attempt>, max: int, i: nat)
    requires max <= |attempts|
    ensures var (rounds, ending) := Rounds(attempts, max, i);
            var next := i + |rounds|;
            match ending
            case Cancelled => next < max && attempts[next].cancelled
            case Failed => next < max && !attempts[next].cancelled && attempts[next].produced.None?
            case Finished => next >= max || (rounds != [] && attempts[next - 1].stop)
    decreases max - i
  {
    if i < max { RoundsEnd(attempts, max, i + 1); }
  }
}
