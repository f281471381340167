/** Behavioural drift: one minus the mean cosine similarity over the scenarios two runs share. */
module Drift {
  import opened Vectors

  /** An embedding with its norm, the non-negative square root that numpy computes. */
  datatype Embedding = Embedding(x: seq<real>, norm: real) {
    ghost predicate Valid() { norm >= 0.0 && norm * norm == Dot(x, x) }
  }

  /** A floating-point quotient: dividing by a zero norm gives NaN. */
  datatype Number = NaN | Num(value: real)

  datatype Band = Stable | Minor | Significant

  datatype Result =
    | InsufficientOverlap
    | NoOverlap
    | ShapeMismatch                                   // numpy raises
    | Success(score: Number, band: Band, overlap: nat)

  function Cosine(u: Embedding, v: Embedding): Number
    requires |u.x| == |v.x|
  {
    if u.norm * v.norm == 0.0 then NaN else Num(Dot(u.x, v.x) / (u.norm * v.norm))
  }

  /** NaN compares false, so it falls in the last band. */
  function BandOf(score: Number): Band {
    if score.Num? && score.value < 0.1 then Stable
    else if score.Num? && score.value < 0.25 then Minor
    else Significant
  }

  function Plus(a: Number, b: Number): Number {
    if a.Num? && b.Num? then Num(a.value + b.value) else NaN
  }

  /** A dictionary filled in order. */
  function ByScenario(vectors: seq<(string, Embedding)>): map<string, Embedding> {
    if vectors == [] then map[]
    else ByScenario(vectors[..|vectors| - 1])[vectors[|vectors| - 1].0 := vectors[|vectors| - 1].1]
  }

  /** A scenario has a vector if and only if one was given for it, and of several the last one wins. */
  lemma {:induction false} LastOneWins(vectors: seq<(string, Embedding)>, k: string)
    ensures k in ByScenario(vectors) <==> exists i :: 0 <= i < |vectors| && vectors[i].0 == k
    ensures k in ByScenario(vectors) ==>
      exists i :: 0 <= i < |vectors| && vectors[i] == (k, ByScenario(vectors)[k])
        && forall j :: i < j < |vectors| ==> vectors[j].0 != k
  {
    if vectors != [] {
      var last := |vectors| - 1;
      LastOneWins(vectors[..last], k);
      if vectors[last].0 == k {
        assert vectors[last] == (k, ByScenario(vectors)[k]);
      } else if k in ByScenario(vectors[..last]) {
        var i :| 0 <= i < last && vectors[..last][i] == (k, ByScenario(vectors[..last])[k])
          && forall j :: i < j < last ==> vectors[..last][j].0 != k;
        assert vectors[i] == (k, ByScenario(vectors)[k]);
        assert forall j :: i < j < last ==> vectors[j] == vectors[..last][j];
      }
    }
  }

  lemma {:induction false} AddOne(vectors: seq<(string, Embedding)>, k: string, e: Embedding)
    ensures ByScenario(vectors + [(k, e)]) == ByScenario(vectors)[k := e]
  {
    assert (vectors + [(k, e)])[..|vectors|] == vectors;
  }

  // ---------------------------------------------------------------- collecting the vectors

  /** What summarising and embedding one trace gives. */
  datatype Embedded = Vector(scenarioId: string, vector: Embedding, cost: real) | Failed(message: string)

  function Embeddings(results: seq<Embedded>): seq<(string, Embedding)> {
    if results == [] then []
    else if results[0].Failed? then Embeddings(results[1..])
    else [(results[0].scenarioId, results[0].vector)] + Embeddings(results[1..])
  }

  function Messages(results: seq<Embedded>): seq<string> {
    if results == [] then []
    else if results[0].Failed? then [results[0].message] + Messages(results[1..])
    else Messages(results[1..])
  }

  function Spent(results: seq<Embedded>): real {
    if results == [] then 0.0
    else (if results[0].Failed? then 0.0 else results[0].cost) + Spent(results[1..])
  }

  lemma {:induction false} CollectOne(results: seq<Embedded>, r: Embedded)
    ensures Embeddings(results + [r]) == Embeddings(results) + (if r.Failed? then [] else [(r.scenarioId, r.vector)])
    ensures Messages(results + [r]) == Messages(results) + (if r.Failed? then [r.message] else [])
    ensures Spent(results + [r]) == Spent(results) + (if r.Failed? then 0.0 else r.cost)
    ensures Embeddings([]) == [] && Messages([]) == [] && Spent([]) == 0.0
  {
    if results == [] {
      assert [] + [r] == [r] && [r][1..] == [];
    } else {
      CollectOne(results[1..], r);
      assert (results + [r])[0] == results[0] && (results + [r])[1..] == results[1..] + [r];
    }
  }

  /** Every trace of the run is accounted for once: as a vector or as an error. */
  lemma {:induction false} NoTraceIsLost(results: seq<Embedded>)
    ensures |Embeddings(results)| + |Messages(results)| == |results|
    ensures forall r :: r in results ==>
      if r.Failed? then r.message in Messages(results) else (r.scenarioId, r.vector) in Embeddings(results)
  {
    if results != [] {
      NoTraceIsLost(results[1..]);
    }
  }

  ghost predicate Embeds(results: seq<Embedded>, k: string, e: Embedding) {
    exists r :: r in results && !r.Failed? && r.scenarioId == k && r.vector == e
  }

  lemma {:induction false} EmbeddingsComeFromTraces(results: seq<Embedded>)
    ensures forall k, e :: (k, e) in Embeddings(results) ==> Embeds(results, k, e)
  {
    if results != [] {
      EmbeddingsComeFromTraces(results[1..]);
      forall k, e | (k, e) in Embeddings(results) ensures Embeds(results, k, e) {
        if (k, e) in Embeddings(results[1..]) {
          var r :| r in results[1..] && !r.Failed? && r.scenarioId == k && r.vector == e;
          assert r in results;
        } else {
          assert results[0] in results;
        }
      }
    }
  }

  /** The run has a vector for a scenario if and only if one of its traces was embedded, and the vector
      is then one of those its traces gave. */
  lemma {:induction false} EmbeddedScenarios(results: seq<Embedded>, k: string)
    ensures k in ByScenario(Embeddings(results)) <==> exists r :: r in results && !r.Failed? && r.scenarioId == k
    ensures k in ByScenario(Embeddings(results)) ==> Embeds(results, k, ByScenario(Embeddings(results))[k])
  {
    LastOneWins(Embeddings(results), k);
    NoTraceIsLost(results);
    EmbeddingsComeFromTraces(results);
    if r :| r in results && !r.Failed? && r.scenarioId == k {
      assert (k, r.vector) in Embeddings(results);
    }
    if k in ByScenario(Embeddings(results)) {
      assert (k, ByScenario(Embeddings(results))[k]) in Embeddings(results);
    }
  }

  method CollectVectors(results: seq<Embedded>)
    returns (current: map<string, Embedding>, errors: seq<string>, totalCost: real)
    ensures current == ByScenario(Embeddings(results))
    ensures errors == Messages(results) && totalCost == Spent(results)
  {
    current, errors, totalCost := map[], [], 0.0;
    for i := 0 to |results|
      invariant current == ByScenario(Embeddings(results[..i]))
      invariant errors == Messages(results[..i]) && totalCost == Spent(results[..i])
    {
      var r := results[i];
      assert results[..i + 1] == results[..i] + [r];
      CollectOne(results[..i], r);
      if r.Failed? {
        assert Embeddings(results[..i + 1]) == Embeddings(results[..i]);
        errors := errors + [r.message];
      } else {
        assert Messages(results[..i + 1]) == Messages(results[..i]);
        AddOne(Embeddings(results[..i]), r.scenarioId, r.vector);
        current := current[r.scenarioId := r.vector];
        totalCost := totalCost + r.cost;
      }
    }
    assert results[..|results|] == results;
  }

  predicate SameShape(current: map<string, Embedding>, base: map<string, Embedding>, k: string)
    requires k in current && k in base
  {
    |current[k].x| == |base[k].x|
  }

  predicate SameShapes(current: map<string, Embedding>, base: map<string, Embedding>) {
    forall k :: k in current && k in base ==> SameShape(current, base, k)
  }

  // ---------------------------------------------------------------- sums over a set

  /** The similarity of each overlapping scenario. */
  function Similarities(current: map<string, Embedding>, base: map<string, Embedding>): map<string, Number>
    requires SameShapes(current, base)
  {
    map k | k in current.Keys * base.Keys :: Cosine(current[k], base[k])
  }

  /** The sum of some of them, in no particular order. */
  ghost function Total(sims: map<string, Number>, keys: set<string>): Number
    requires keys <= sims.Keys
  {
    if keys == {} then Num(0.0)
    else
      var k :| k in keys;
      Plus(sims[k], Total(sims, keys - {k}))
  }

  lemma Exchange(a: Number, b: Number, rest: Number)
    ensures Plus(a, Plus(b, rest)) == Plus(b, Plus(a, rest))
  {
  }

  /** The sum does not depend on the order: any member may be taken first. */
  lemma {:induction false} TakeAny(sims: map<string, Number>, keys: set<string>, k: string)
    requires keys <= sims.Keys && k in keys
    ensures Total(sims, keys) == Plus(sims[k], Total(sims, keys - {k}))
    decreases |keys|
  {
    var first :| first in keys && Total(sims, keys) == Plus(sims[first], Total(sims, keys - {first}));
    if first == k {
    } else {
      TakeAny(sims, keys - {first}, k);
      TakeAny(sims, keys - {k}, first);
      var rest := keys - {first} - {k};
      assert rest == keys - {k} - {first};
      Exchange(sims[first], sims[k], Total(sims, rest));
    }
  }

  // ---------------------------------------------------------------- the computation

  /** What the drift of two sets of embeddings is, whatever order the scenarios are taken in. */
  ghost function DriftOf(current: map<string, Embedding>, base: map<string, Embedding>): Result {
    var overlap := current.Keys * base.Keys;
    if overlap == {} then (if |current| >= 5 then InsufficientOverlap else NoOverlap)
    else if !SameShapes(current, base) then ShapeMismatch
    else
      var total := Total(Similarities(current, base), overlap);
      var score := if total.NaN? then NaN else Num(1.0 - total.value / |overlap| as real);
      Success(score, BandOf(score), |overlap|)
  }

  method ComputeDriftMath(current: map<string, Embedding>, vectors: seq<(string, Embedding)>) returns (r: Result)
    ensures r == DriftOf(current, ByScenario(vectors))
    ensures var base := ByScenario(vectors);
      && (r == InsufficientOverlap <==> current.Keys !! base.Keys && |current| >= 5)
      && (r == NoOverlap <==> current.Keys !! base.Keys && |current| < 5)
      && (r == ShapeMismatch <==> exists k :: k in current && k in base && |current[k].x| != |base[k].x|)
      && (r.Success? ==> r.overlap == |current.Keys * base.Keys| > 0)
  {
    var base: map<string, Embedding> := map[];
    var i := 0;
    while i < |vectors|
      invariant i <= |vectors| && base == ByScenario(vectors[..i])
    {
      AddOne(vectors[..i], vectors[i].0, vectors[i].1);
      assert vectors[..i + 1] == vectors[..i] + [vectors[i]];
      base := base[vectors[i].0 := vectors[i].1];
      i := i + 1;
    }
    assert vectors[..i] == vectors;
    var overlap := current.Keys * base.Keys;
    assert current.Keys !! base.Keys <==> overlap == {};
    if |overlap| < 5 && |current| >= 5 {
      if |overlap| == 0 {
        return InsufficientOverlap;
      }
    }
    if |overlap| == 0 {
      return NoOverlap;
    }
    var shaped, sum, count := SumSimilarities(current, base, overlap);
    if !shaped {
      assert exists k :: k in current && k in base && !SameShape(current, base, k);
      return ShapeMismatch;
    }
    assert forall k :: k in current && k in base ==> SameShape(current, base, k);
    var score := if sum.NaN? then NaN else Num(1.0 - sum.value / count as real);
    return Success(score, BandOf(score), |overlap|);
  }

  /** The loop over the overlapping scenarios, in whatever order the set yields them. */
  method SumSimilarities(current: map<string, Embedding>, base: map<string, Embedding>, overlap: set<string>)
    returns (shaped: bool, sum: Number, count: nat)
    requires overlap == current.Keys * base.Keys
    ensures shaped <==> SameShapes(current, base)
    ensures shaped ==> sum == Total(Similarities(current, base), overlap) && count == |overlap|
  {
    shaped, sum, count := true, Num(0.0), 0;
    var todo := overlap;
    ghost var done: set<string> := {};
    while todo != {}
      invariant todo + done == overlap && todo !! done
      invariant forall k :: k in done ==> SameShape(current, base, k)
      invariant SameShapes(current, base) ==> sum == Total(Similarities(current, base), done)
      invariant count == |done|
      decreases todo
    {
      var k :| k in todo;
      if |current[k].x| != |base[k].x| {
        assert !SameShape(current, base, k);
        return false, sum, count;
      }
      sum := Plus(Cosine(current[k], base[k]), sum);
      count := count + 1;
      if SameShapes(current, base) {
        TakeAny(Similarities(current, base), done + {k}, k);
        assert done + {k} - {k} == done;
      }
      todo, done := todo - {k}, done + {k};
    }
    assert done == overlap;
    assert forall k :: k in current && k in base ==> k in overlap;
  }

  // ---------------------------------------------------------------- range

  predicate NonZero(e: Embedding) { e.norm > 0.0 }

  lemma WithinProduct(b: real, m: real)
    requires m >= 0.0 && b * b <= m * m
    ensures -m <= b <= m
  {
    assert (b - m) * (b + m) == b * b - m * m == (-b - m) * (-b + m);
    if b > m {
      ProductIsPositive(b - m, b + m);
    } else if b < -m {
      ProductIsPositive(-b - m, -b + m);
    }
  }

  lemma QuotientWithin(b: real, m: real)
    requires m > 0.0 && -m <= b <= m
    ensures -1.0 <= b / m <= 1.0
    ensures b / m == 1.0 <==> b == m
  {
  }

  lemma DotWithinNorms(u: Embedding, v: Embedding)
    requires u.Valid() && v.Valid() && NonZero(u) && NonZero(v) && |u.x| == |v.x|
    ensures u.norm * v.norm > 0.0
    ensures -(u.norm * v.norm) <= Dot(u.x, v.x) <= u.norm * v.norm
    ensures (u.norm * v.norm) * (u.norm * v.norm) == Dot(u.x, u.x) * Dot(v.x, v.x)
  {
    ProductIsPositive(u.norm, v.norm);
    CauchySchwarz(u.x, v.x);
    Regroup(u.norm, v.norm, u.norm, v.norm);
    WithinProduct(Dot(u.x, v.x), u.norm * v.norm);
  }

  /** The cosine of non-zero vectors lies in [-1, 1] and is 1 exactly for positive multiples. */
  lemma CosineRange(u: Embedding, v: Embedding)
    requires u.Valid() && v.Valid() && NonZero(u) && NonZero(v) && |u.x| == |v.x|
    ensures Cosine(u, v).Num? && -1.0 <= Cosine(u, v).value <= 1.0
    ensures Cosine(u, v).value == 1.0 <==> PositiveMultiple(u.x, v.x)
  {
    var b, m := Dot(u.x, v.x), u.norm * v.norm;
    DotWithinNorms(u, v);
    QuotientWithin(b, m);
    assert Cosine(u, v) == Num(b / m);
    if b == m {
      EqualityMakesMultiples(u.x, v.x);
    }
    if PositiveMultiple(u.x, v.x) {
      var k: real :| IsMultiple(u.x, v.x, k);
      NormOfMultiple(u, v, k);
    }
  }

  /** The law of cosines: what is computed is the cosine of the angle between the vectors. */
  lemma LawOfCosines(u: Embedding, v: Embedding)
    requires u.Valid() && v.Valid() && NonZero(u) && NonZero(v) && |u.x| == |v.x|
    ensures Cosine(u, v).Num?
    ensures SquaredCombination(u.x, v.x, 1.0, 1.0)
         == u.norm * u.norm + v.norm * v.norm - 2.0 * (u.norm * v.norm) * Cosine(u, v).value
  {
    ProductIsPositive(u.norm, v.norm);
    ExpandCombination(u.x, v.x, 1.0, 1.0);
    TimesQuotient(u.norm * v.norm, Dot(u.x, v.x));
  }

  lemma TimesQuotient(m: real, b: real)
    requires m > 0.0
    ensures 2.0 * m * (b / m) == 2.0 * b
  {
  }

  lemma NormOfMultiple(u: Embedding, v: Embedding, k: real)
    requires u.Valid() && v.Valid() && |u.x| == |v.x| && IsMultiple(u.x, v.x, k)
    ensures Dot(u.x, v.x) == u.norm * v.norm
  {
    DotOfMultiple(u.x, v.x, k);
    ScaledNorm(k, u.norm, v.norm, Dot(v.x, v.x));
  }

  lemma ScaledNorm(k: real, normU: real, normV: real, square: real)
    requires k > 0.0 && normU >= 0.0 && normV >= 0.0
    requires normV * normV == square && normU * normU == (k * k) * square
    ensures k * square == normU * normV
  {
    Regroup(k, normV, k, normV);
    assert k * normV >= 0.0;
    SameSquare(normU, k * normV);
    assert (k * normV) * normV == k * (normV * normV);
  }

  lemma SameSquare(a: real, b: real)
    requires a >= 0.0 && b >= 0.0 && a * a == b * b
    ensures a == b
  {
    WithinProduct(a, b);
    WithinProduct(b, a);
  }

  ghost predicate Usable(current: map<string, Embedding>, base: map<string, Embedding>) {
    && SameShapes(current, base)
    && forall k :: k in current && k in base ==>
         current[k].Valid() && base[k].Valid() && NonZero(current[k]) && NonZero(base[k])
  }

  /** Similar in every scenario: each current vector is a positive multiple of its baseline vector. */
  ghost predicate Aligned(current: map<string, Embedding>, base: map<string, Embedding>, keys: set<string>)
    requires keys <= current.Keys * base.Keys
  {
    forall k :: k in keys ==> PositiveMultiple(current[k].x, base[k].x)
  }

  lemma {:induction false} TotalRange(current: map<string, Embedding>, base: map<string, Embedding>, keys: set<string>)
    requires Usable(current, base) && keys <= current.Keys * base.Keys
    ensures var total := Total(Similarities(current, base), keys);
      && total.Num? && -(|keys| as real) <= total.value <= |keys| as real
      && (total.value == |keys| as real <==> Aligned(current, base, keys))
    decreases |keys|
  {
    if keys != {} {
      var k :| k in keys;
      TakeAny(Similarities(current, base), keys, k);
      TotalRange(current, base, keys - {k});
      CosineRange(current[k], base[k]);
      assert |keys| == |keys - {k}| + 1;
      assert Aligned(current, base, keys) <==>
          Aligned(current, base, keys - {k}) && PositiveMultiple(current[k].x, base[k].x);
    }
  }

  lemma MeanWithin(total: real, n: nat)
    requires n > 0 && -(n as real) <= total <= n as real
    ensures 0.0 <= 1.0 - total / n as real <= 2.0
    ensures 1.0 - total / n as real == 0.0 <==> total == n as real
  {
    QuotientWithin(total, n as real);
  }

  /** Drift over non-zero vectors of any equal dimension lies in [0, 2], and it is 0 if and only if
      every overlapping current vector is a positive multiple of its baseline vector. */
  lemma DriftRange(current: map<string, Embedding>, base: map<string, Embedding>)
    requires Usable(current, base) && current.Keys * base.Keys != {}
    ensures var r := DriftOf(current, base);
      && r.Success? && r.overlap == |current.Keys * base.Keys| && r.score.Num? && 0.0 <= r.score.value <= 2.0
      && (r.score.value == 0.0 <==> Aligned(current, base, current.Keys * base.Keys))
      && (Aligned(current, base, current.Keys * base.Keys) ==> r.band == Stable)
  {
    var overlap := current.Keys * base.Keys;
    TotalRange(current, base, overlap);
    MeanWithin(Total(Similarities(current, base), overlap).value, |overlap|);
  }

  /** The score is one minus the mean: times the number of overlapping scenarios, the shortfall of
      their summed similarities from it. */
  lemma ScoreIsTheShortfall(current: map<string, Embedding>, base: map<string, Embedding>)
    requires Usable(current, base) && current.Keys * base.Keys != {}
    ensures var r, n := DriftOf(current, base), |current.Keys * base.Keys| as real;
      var total := Total(Similarities(current, base), current.Keys * base.Keys);
      && r.Success? && r.score.Num? && total.Num?
      && r.score.value * n == n - total.value
  {
    var overlap := current.Keys * base.Keys;
    TotalRange(current, base, overlap);
    var total, n := Total(Similarities(current, base), overlap).value, |overlap| as real;
    assert (1.0 - total / n) * n == n - (total / n) * n;
    assert (total / n) * n == total;
  }

  lemma MeanAbove(total: real, n: nat, x: real)
    requires n > 0
    ensures total / n as real > x <==> total > x * n as real
  {
  }

  /** The bands in terms of the mean similarity: above 0.9, above 0.75, the rest. */
  lemma BandByMeanSimilarity(current: map<string, Embedding>, base: map<string, Embedding>)
    requires Usable(current, base) && current.Keys * base.Keys != {}
    ensures var r, n := DriftOf(current, base), |current.Keys * base.Keys| as real;
      var total := Total(Similarities(current, base), current.Keys * base.Keys);
      && r.Success? && total.Num?
      && (r.band == Stable <==> total.value > 0.9 * n)
      && (r.band == Minor <==> 0.75 * n < total.value <= 0.9 * n)
      && (r.band == Significant <==> total.value <= 0.75 * n)
  {
    var overlap := current.Keys * base.Keys;
    TotalRange(current, base, overlap);
    var total := Total(Similarities(current, base), overlap).value;
    MeanAbove(total, |overlap|, 0.9);
    MeanAbove(total, |overlap|, 0.75);
  }

  lemma {:induction false} TotalNaN(current: map<string, Embedding>, base: map<string, Embedding>, keys: set<string>,
                                    k: string)
    requires keys <= current.Keys * base.Keys && SameShapes(current, base) && k in keys
    requires current[k].norm * base[k].norm == 0.0
    ensures Total(Similarities(current, base), keys).NaN?
  {
    TakeAny(Similarities(current, base), keys, k);
  }

  /** One zero vector among the overlapping scenarios is enough to lose the score: it is not a number
      and the band says significant drift. */
  lemma ZeroVectorSpoilsTheScore(current: map<string, Embedding>, base: map<string, Embedding>, k: string)
    requires SameShapes(current, base) && k in current && k in base && current[k].norm * base[k].norm == 0.0
    ensures DriftOf(current, base) == Success(NaN, Significant, |current.Keys * base.Keys|)
  {
    TotalNaN(current, base, current.Keys * base.Keys, k);
  }
}
