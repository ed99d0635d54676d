/** Similar articles: cosine scores in exact real arithmetic, ranked and cut to a limit. */
module Ranking {
  import opened Common
  import opened Sorting

  type Vector = seq<real>

  /** The accumulator of the loop after n coordinates. */
  function Dot(a: Vector, b: Vector, n: nat): real
    requires n <= |a| && n <= |b|
  {
    if n == 0 then 0.0 else Dot(a, b, n - 1) + a[n - 1] * b[n - 1]
  }

  ghost predicate IsSqrt(sqrt: real -> real) {
    forall x :: x >= 0.0 ==> sqrt(x) >= 0.0 && sqrt(x) * sqrt(x) == x
  }

  lemma {:induction false} NormNonNegative(a: Vector, n: nat)
    requires n <= |a|
    ensures Dot(a, a, n) >= 0.0
  {
    if n > 0 {
      NormNonNegative(a, n - 1);
      SquareNonNegative(a[n - 1]);
    }
  }

  lemma SquareNonNegative(x: real)
    ensures x * x >= 0.0
  {
    if x < 0.0 {
      assert x * x == (-x) * (-x);
    }
  }

  /** x * x <= y * y bounds x on both sides. */
  lemma SquaresOrder(x: real, y: real)
    requires y >= 0.0 && x * x <= y * y
    ensures -y <= x <= y
  {
    assert (-x) * (-x) == x * x;
    if x > y {
      LargerSquare(x, y);
    } else if -x > y {
      LargerSquare(-x, y);
    }
  }

  lemma LargerSquare(x: real, y: real)
    requires x > y >= 0.0
    ensures x * x > y * y
  {
    assert (x - y) * (x + y) == x * x - y * y;
    Positives(x - y, x + y);
  }

  lemma Positives(u: real, v: real)
    requires u > 0.0 && v > 0.0
    ensures u * v > 0.0
  {
  }

  /** One more coordinate keeps dot^2 <= normA * normB. */
  lemma CauchySchwarzStep(dot: real, p: real, q: real, x: real, y: real)
    requires p >= 0.0 && q >= 0.0 && dot * dot <= p * q
    ensures (dot + x * y) * (dot + x * y) <= (p + x * x) * (q + y * y)
  {
    var s, t := p * (y * y), q * (x * x);
    CrossTerm(dot, p, q, x, y);
    SquareOfSum(dot, x * y);
    assert (p + x * x) * (q + y * y) == p * q + s + t + (x * x) * (y * y);
    Regroup(1.0, 1.0, x, y);
  }

  lemma SquareOfSum(u: real, v: real)
    ensures (u + v) * (u + v) == u * u + 2.0 * (u * v) + v * v
  {
  }

  /** Twice the mixed term is at most the sum of the mixed products. */
  lemma CrossTerm(dot: real, p: real, q: real, x: real, y: real)
    requires p >= 0.0 && q >= 0.0 && dot * dot <= p * q
    ensures 2.0 * (dot * (x * y)) <= p * (y * y) + q * (x * x)
  {
    var s, t, m := p * (y * y), q * (x * x), 2.0 * (dot * (x * y));
    SquareNonNegative(x);
    SquareNonNegative(y);
    assert s >= 0.0 && t >= 0.0;
    CrossSquares(dot, p, q, x, y);
    SquaresOrder(m, s + t);
  }

  lemma CrossSquares(dot: real, p: real, q: real, x: real, y: real)
    requires dot * dot <= p * q
    ensures var s, t, m := p * (y * y), q * (x * x), 2.0 * (dot * (x * y)); m * m <= (s + t) * (s + t)
  {
    var s, t, z := p * (y * y), q * (x * x), x * y;
    SquareNonNegative(z);
    SquareNonNegative(s - t);
    SquareOfProduct(dot, z);
    Scale(dot * dot, p * q, z * z);
    Regroup(p, q, x, y);
    SumAndDifference(s, t);
  }

  lemma SquareOfProduct(u: real, v: real)
    ensures (2.0 * (u * v)) * (2.0 * (u * v)) == 4.0 * ((u * u) * (v * v))
  {
    assert (u * v) * (u * v) == (u * u) * (v * v);
  }

  lemma SumAndDifference(s: real, t: real)
    ensures (s + t) * (s + t) == 4.0 * (s * t) + (s - t) * (s - t)
  {
  }

  lemma Scale(u: real, v: real, w: real)
    requires u <= v && w >= 0.0
    ensures u * w <= v * w
  {
  }

  lemma Regroup(p: real, q: real, x: real, y: real)
    ensures (p * q) * ((x * y) * (x * y)) == (p * (y * y)) * (q * (x * x))
  {
    assert (x * y) * (x * y) == (x * x) * (y * y);
  }

  lemma DotStep(a: Vector, b: Vector, n: nat)
    requires 0 < n <= |a| && n <= |b|
    ensures Dot(a, b, n) == Dot(a, b, n - 1) + a[n - 1] * b[n - 1]
  {
  }

  lemma NextSums(dot: real, p: real, q: real, x: real, y: real, dot': real, p': real, q': real)
    requires p >= 0.0 && q >= 0.0 && dot * dot <= p * q
    requires dot' == dot + x * y && p' == p + x * x && q' == q + y * y
    ensures dot' * dot' <= p' * q'
  {
    CauchySchwarzStep(dot, p, q, x, y);
  }

  /** The accumulated sums satisfy dot^2 <= normA * normB, for all vectors. */
  lemma {:induction false} CauchySchwarz(a: Vector, b: Vector, n: nat)
    requires n <= |a| && n <= |b|
    ensures Dot(a, b, n) * Dot(a, b, n) <= Dot(a, a, n) * Dot(b, b, n)
  {
    if n > 0 {
      CauchySchwarz(a, b, n - 1);
      NormNonNegative(a, n - 1);
      NormNonNegative(b, n - 1);
      DotStep(a, b, n);
      DotStep(a, a, n);
      DotStep(b, b, n);
      NextSums(Dot(a, b, n - 1), Dot(a, a, n - 1), Dot(b, b, n - 1), a[n - 1], b[n - 1],
               Dot(a, b, n), Dot(a, a, n), Dot(b, b, n));
    }
  }

  function Ratio(dot: real, p: real, q: real, sqrt: real -> real): real {
    if p == 0.0 || q == 0.0 then 0.0 else OverNorms(dot, sqrt(p), sqrt(q))
  }

  function OverNorms(dot: real, normA: real, normB: real): real {
    if normA * normB == 0.0 then 0.0 else dot / (normA * normB)
  }

  /** The cosine where it is defined, 0 for empty, unequal or zero vectors. */
  function Cosine(a: Vector, b: Vector, sqrt: real -> real): real {
    if |a| == 0 || |a| != |b| then 0.0 else Ratio(Dot(a, b, |a|), Dot(a, a, |a|), Dot(b, b, |b|), sqrt)
  }

  /** Scores lie in [-1, 1]. */
  lemma CosineBounded(a: Vector, b: Vector, sqrt: real -> real)
    requires IsSqrt(sqrt)
    ensures -1.0 <= Cosine(a, b, sqrt) <= 1.0
  {
    if 0 < |a| == |b| {
      NormNonNegative(a, |a|);
      NormNonNegative(b, |b|);
      CauchySchwarz(a, b, |a|);
      RatioBounded(Dot(a, b, |a|), Dot(a, a, |a|), Dot(b, b, |b|), sqrt);
    }
  }

  lemma RatioBounded(dot: real, p: real, q: real, sqrt: real -> real)
    requires IsSqrt(sqrt) && p >= 0.0 && q >= 0.0 && dot * dot <= p * q
    ensures -1.0 <= Ratio(dot, p, q, sqrt) <= 1.0
  {
    if p != 0.0 && q != 0.0 {
      RootPositive(p, sqrt);
      RootPositive(q, sqrt);
      RatioOfRoots(dot, sqrt(p), sqrt(q), p, q);
    }
  }

  lemma RatioOfRoots(dot: real, ra: real, rb: real, p: real, q: real)
    requires ra > 0.0 && rb > 0.0 && ra * ra == p && rb * rb == q && dot * dot <= p * q
    ensures -1.0 <= OverNorms(dot, ra, rb) <= 1.0
  {
    Positives(ra, rb);
    RootsBound(dot, ra, rb, p, q);
    QuotientBounded(dot, ra * rb);
  }

  lemma RootsBound(dot: real, ra: real, rb: real, p: real, q: real)
    requires ra > 0.0 && rb > 0.0 && ra * ra == p && rb * rb == q && dot * dot <= p * q
    ensures ra * rb > 0.0 && -(ra * rb) <= dot <= ra * rb
  {
    Positives(ra, rb);
    ProductSquared(ra, rb);
    SquaresOrder(dot, ra * rb);
  }

  lemma ProductSquared(x: real, y: real)
    ensures (x * y) * (x * y) == (x * x) * (y * y)
  {
  }

  lemma QuotientBounded(x: real, y: real)
    requires y > 0.0 && -y <= x <= y
    ensures -1.0 <= x / y <= 1.0
  {
    var q := x / y;
    assert (q - 1.0) * y == x - y && (-1.0 - q) * y == -y - x;
    NotPositive(q - 1.0, y);
    NotPositive(-1.0 - q, y);
  }

  lemma NotPositive(u: real, v: real)
    requires v > 0.0 && u * v <= 0.0
    ensures u <= 0.0
  {
    if u > 0.0 {
      Positives(u, v);
    }
  }

  lemma {:induction false} DotSymmetric(a: Vector, b: Vector, n: nat)
    requires n <= |a| && n <= |b|
    ensures Dot(a, b, n) == Dot(b, a, n)
  {
    if n > 0 {
      DotSymmetric(a, b, n - 1);
    }
  }

  /** Similarity is symmetric, and a vector that is not zero is as similar to itself as anything can be. */
  lemma {:induction false} CosineSymmetric(a: Vector, b: Vector, sqrt: real -> real)
    requires IsSqrt(sqrt)
    ensures Cosine(a, b, sqrt) == Cosine(b, a, sqrt)
    ensures |a| > 0 && Dot(a, a, |a|) != 0.0 ==> Cosine(a, a, sqrt) == 1.0
  {
    if |a| == |b| {
      DotSymmetric(a, b, |a|);
    }
    NormNonNegative(a, |a|);
    var norm := Dot(a, a, |a|);
    assert sqrt(norm) * sqrt(norm) == norm && (norm != 0.0 ==> norm / norm == 1.0);
    assert sqrt(Dot(a, a, |a|)) * sqrt(Dot(b, b, |b|)) == sqrt(Dot(b, b, |b|)) * sqrt(Dot(a, a, |a|));
  }

  /** The cosine times both norms is the dot product. */
  lemma CosineTimesNorms(a: Vector, b: Vector, sqrt: real -> real)
    requires IsSqrt(sqrt) && 0 < |a| == |b| && Dot(a, a, |a|) != 0.0 && Dot(b, b, |b|) != 0.0
    ensures Cosine(a, b, sqrt) * (sqrt(Dot(a, a, |a|)) * sqrt(Dot(b, b, |b|))) == Dot(a, b, |a|)
  {
    RootsPositive(a, b, sqrt);
    OverTimes(Dot(a, b, |a|), sqrt(Dot(a, a, |a|)), sqrt(Dot(b, b, |b|)));
  }

  lemma OverTimes(dot: real, ra: real, rb: real)
    requires ra * rb > 0.0
    ensures OverNorms(dot, ra, rb) * (ra * rb) == dot
  {
    var y := ra * rb;
    assert (dot / y) * y == dot;
  }

  /** Vectors without a common non-zero coordinate are not similar at all. */
  lemma {:induction false} DotOfDisjoint(a: Vector, b: Vector, n: nat)
    requires n <= |a| && n <= |b| && forall i :: 0 <= i < n ==> a[i] == 0.0 || b[i] == 0.0
    ensures Dot(a, b, n) == 0.0
  {
    if n > 0 {
      DotOfDisjoint(a, b, n - 1);
    }
  }

  lemma DisjointScoresZero(a: Vector, b: Vector, sqrt: real -> real)
    requires |a| == |b| && forall i :: 0 <= i < |a| ==> a[i] == 0.0 || b[i] == 0.0
    ensures Cosine(a, b, sqrt) == 0.0
  {
    DotOfDisjoint(a, b, |a|);
  }

  function Times(k: real, a: Vector): Vector {
    seq(|a|, i requires 0 <= i < |a| => k * a[i])
  }

  lemma {:induction false} DotOfMultiple(k: real, a: Vector, b: Vector, n: nat)
    requires n <= |a| && n <= |b|
    ensures Dot(Times(k, a), b, n) == k * Dot(a, b, n)
  {
    if n > 0 {
      DotOfMultiple(k, a, b, n - 1);
      Distributes(k, Dot(a, b, n - 1), a[n - 1], b[n - 1]);
    }
  }

  lemma Distributes(k: real, d: real, x: real, y: real)
    ensures k * d + (k * x) * y == k * (d + x * y)
  {
  }

  lemma MultipleOfSelf(k: real, a: Vector)
    ensures Dot(Times(k, a), Times(k, a), |a|) == k * (k * Dot(a, a, |a|))
  {
    DotOfMultiple(k, a, Times(k, a), |a|);
    DotSymmetric(a, Times(k, a), |a|);
    DotOfMultiple(k, a, a, |a|);
  }

  lemma RootOfMultiple(k: real, x: real, sqrt: real -> real)
    requires IsSqrt(sqrt) && k > 0.0 && x > 0.0
    ensures k * (k * x) > 0.0 && sqrt(k * (k * x)) == k * sqrt(x)
  {
    Positives(k, x);
    Positives(k, k * x);
    RootPositive(x, sqrt);
    RootPositive(k * (k * x), sqrt);
    Positives(k, sqrt(x));
    SameRoot(sqrt(k * (k * x)), k, sqrt(x), x);
  }

  lemma SameRoot(r: real, k: real, s: real, x: real)
    requires r > 0.0 && k * s > 0.0 && s * s == x && r * r == k * (k * x)
    ensures r == k * s
  {
    assert (k * s) * (k * s) == k * (k * (s * s));
    SquaresOrder(r, k * s);
    SquaresOrder(k * s, r);
  }

  lemma OverMultiple(k: real, dot: real, ra: real, rb: real)
    requires k > 0.0 && ra > 0.0 && rb > 0.0
    ensures OverNorms(k * dot, k * ra, rb) == OverNorms(dot, ra, rb)
  {
    Positives(ra, rb);
    Positives(k, ra);
    Positives(k * ra, rb);
    var x, y := OverNorms(dot, ra, rb), (k * ra) * rb;
    OverTimes(dot, ra, rb);
    assert y == k * (ra * rb);
    assert x * y == k * (x * (ra * rb));
    QuotientUnique(x, y, k * dot);
  }

  lemma QuotientUnique(x: real, y: real, z: real)
    requires y > 0.0 && x * y == z
    ensures z / y == x
  {
    var q := z / y;
    assert q * y == z;
    assert (q - x) * y == 0.0 && (x - q) * y == 0.0;
    NotPositive(q - x, y);
    NotPositive(x - q, y);
  }

  lemma RatioOfMultiple(k: real, dot: real, p: real, q: real, dot': real, p': real, sqrt: real -> real)
    requires IsSqrt(sqrt) && k > 0.0 && p >= 0.0 && q >= 0.0 && dot' == k * dot && p' == k * (k * p)
    ensures Ratio(dot', p', q, sqrt) == Ratio(dot, p, q, sqrt)
  {
    if p > 0.0 && q > 0.0 {
      RootOfMultiple(k, p, sqrt);
      RootPositive(p, sqrt);
      RootPositive(q, sqrt);
      OverMultiple(k, dot, sqrt(p), sqrt(q));
    }
  }

  /** Only the direction of a vector matters. */
  lemma MultiplesScoreAlike(k: real, a: Vector, b: Vector, sqrt: real -> real)
    requires IsSqrt(sqrt) && k > 0.0
    ensures Cosine(Times(k, a), b, sqrt) == Cosine(a, b, sqrt)
  {
    if 0 < |a| == |b| {
      DotOfMultiple(k, a, b, |a|);
      MultipleOfSelf(k, a);
      NormNonNegative(a, |a|);
      NormNonNegative(b, |b|);
      var ka := Times(k, a);
      RatioOfMultiple(k, Dot(a, b, |a|), Dot(a, a, |a|), Dot(b, b, |b|), Dot(ka, b, |a|), Dot(ka, ka, |a|), sqrt);
    }
  }

  /** The accumulating loop. */
  method Sums(a: Vector, b: Vector) returns (dot: real, normA: real, normB: real)
    requires |a| == |b|
    ensures dot == Dot(a, b, |a|) && normA == Dot(a, a, |a|) && normB == Dot(b, b, |b|)
  {
    dot, normA, normB := 0.0, 0.0, 0.0;
    for i := 0 to |a|
      invariant dot == Dot(a, b, i) && normA == Dot(a, a, i) && normB == Dot(b, b, i)
    {
      dot := dot + a[i] * b[i];
      normA := normA + a[i] * a[i];
      normB := normB + b[i] * b[i];
    }
  }

  lemma RootPositive(x: real, sqrt: real -> real)
    requires IsSqrt(sqrt) && x > 0.0
    ensures sqrt(x) > 0.0 && sqrt(x) * sqrt(x) == x
  {
    assert sqrt(x) * sqrt(x) == x;
  }

  lemma RootsPositive(a: Vector, b: Vector, sqrt: real -> real)
    requires IsSqrt(sqrt) && Dot(a, a, |a|) != 0.0 && Dot(b, b, |b|) != 0.0
    ensures sqrt(Dot(a, a, |a|)) * sqrt(Dot(b, b, |b|)) > 0.0
  {
    NormNonNegative(a, |a|);
    NormNonNegative(b, |b|);
    RootPositive(Dot(a, a, |a|), sqrt);
    RootPositive(Dot(b, b, |b|), sqrt);
    Positives(sqrt(Dot(a, a, |a|)), sqrt(Dot(b, b, |b|)));
  }

  method CosineSimilarity(a: Vector, b: Vector, sqrt: real -> real) returns (score: real)
    requires IsSqrt(sqrt)
    ensures score == Cosine(a, b, sqrt) && -1.0 <= score <= 1.0
  {
    CosineBounded(a, b, sqrt);
    if |a| == 0 || |a| != |b| {
      return 0.0;
    }
    var dot, normA, normB := Sums(a, b);
    if normA == 0.0 || normB == 0.0 {
      return 0.0;
    }
    RootsPositive(a, b, sqrt);
    return dot / (sqrt(normA) * sqrt(normB));
  }

  // ---------------------------------------------------------------- ranking

  datatype Embedding = Embedding(articleId: int, vector: Vector)

  datatype Scored = Scored(articleId: int, score: real)

  /** The positive scores in record order, without the article itself. */
  function Positive(target: Vector, records: seq<Embedding>, self: Option<int>, sqrt: real -> real): seq<Scored> {
    if records == [] then []
    else
      var last := records[|records| - 1];
      var score := Cosine(target, last.vector, sqrt);
      Positive(target, records[..|records| - 1], self, sqrt) +
      if Some(last.articleId) != self && score > 0.0 then [Scored(last.articleId, score)] else []
  }

  function Score(s: Scored): real { s.score }

  function Top(scored: seq<Scored>, limit: nat): seq<Scored> {
    SortDescending(scored, Score)[..Min(limit, |scored|)]
  }

  /**
   The kept list is non-increasing and as long as the limit allows; equal scores keep their order, so of
   each score the earliest stay; and nothing dropped beats anything kept.
   */
  lemma {:induction false} TopKeepsTheBest(scored: seq<Scored>, limit: nat)
    ensures |Top(scored, limit)| == Min(limit, |scored|)
    ensures Descending(Top(scored, limit), Score)
    ensures multiset(Top(scored, limit)) <= multiset(scored)
    ensures forall k :: WithKey(Top(scored, limit), Score, k) <= WithKey(scored, Score, k)
    ensures forall x, y :: x in multiset(scored) - multiset(Top(scored, limit)) && y in Top(scored, limit) ==>
              x.score <= y.score
  {
    var sorted := SortDescending(scored, Score);
    var n := Min(limit, |scored|);
    SortedAndStable(scored, Score, 0.0);
    CutKeepsTheBest(sorted, n);
    forall k ensures WithKey(Top(scored, limit), Score, k) <= WithKey(scored, Score, k) {
      SortedAndStable(scored, Score, k);
      WithKeyOfPrefix(sorted, n, k);
    }
  }

  lemma CutKeepsTheBest(sorted: seq<Scored>, n: nat)
    requires n <= |sorted| && Descending(sorted, Score)
    ensures multiset(sorted[..n]) <= multiset(sorted)
    ensures forall x, y :: x in multiset(sorted) - multiset(sorted[..n]) && y in sorted[..n] ==> x.score <= y.score
  {
    var kept, dropped := sorted[..n], sorted[n..];
    assert sorted == kept + dropped;
    assert multiset(sorted) - multiset(kept) == multiset(dropped);
    forall x: Scored, y: Scored | x in multiset(dropped) && y in kept ensures x.score <= y.score {
      var i :| 0 <= i < |dropped| && dropped[i] == x;
      var j :| 0 <= j < n && sorted[j] == y;
      assert sorted[n + i] == x;
      assert Score(sorted[j]) >= Score(sorted[n + i]);
    }
  }

  lemma {:induction false} WithKeyOfPrefix(xs: seq<Scored>, n: nat, k: real)
    requires n <= |xs|
    ensures WithKey(xs[..n], Score, k) <= WithKey(xs, Score, k)
    decreases |xs|
  {
    if n == |xs| {
      assert xs[..n] == xs;
    } else {
      assert xs[..|xs| - 1][..n] == xs[..n];
      WithKeyOfPrefix(xs[..|xs| - 1], n, k);
    }
  }

  /** The entry is the score of one of the other records. */
  ghost predicate ScoreOf(s: Scored, target: Vector, records: seq<Embedding>, self: Option<int>, sqrt: real -> real)
    requires IsSqrt(sqrt)
  {
    exists e :: e in records && Some(e.articleId) != self && s == Scored(e.articleId, Cosine(target, e.vector, sqrt))
  }

  /** What is ranked: exactly the positive scores of the other records, and none exceeds one. */
  lemma {:induction false} PositiveScores(target: Vector, records: seq<Embedding>, self: Option<int>,
        sqrt: real -> real)
    requires IsSqrt(sqrt)
    ensures forall s :: s in Positive(target, records, self, sqrt) ==>
              0.0 < s.score <= 1.0 && ScoreOf(s, target, records, self, sqrt)
    ensures forall e :: e in records && Some(e.articleId) != self && Cosine(target, e.vector, sqrt) > 0.0 ==>
              Scored(e.articleId, Cosine(target, e.vector, sqrt)) in Positive(target, records, self, sqrt)
  {
    if records != [] {
      var last := |records| - 1;
      PositiveScores(target, records[..last], self, sqrt);
      CosineBounded(target, records[last].vector, sqrt);
      assert records == records[..last] + [records[last]];
      forall s | s in Positive(target, records[..last], self, sqrt) ensures ScoreOf(s, target, records, self, sqrt) {
        var e :| e in records[..last] && Some(e.articleId) != self
                 && s == Scored(e.articleId, Cosine(target, e.vector, sqrt));
        assert e in records;
      }
    }
  }

  method ScoreAll(target: Vector, records: seq<Embedding>, self: Option<int>, sqrt: real -> real)
    returns (scored: seq<Scored>)
    requires IsSqrt(sqrt)
    ensures scored == Positive(target, records, self, sqrt)
  {
    scored := [];
    for i := 0 to |records|
      invariant scored == Positive(target, records[..i], self, sqrt)
    {
      assert records[..i + 1][..i] == records[..i];
      if Some(records[i].articleId) == self {
        continue;
      }
      var score := CosineSimilarity(target, records[i].vector, sqrt);
      if score > 0.0 {
        scored := scored + [Scored(records[i].articleId, score)];
      }
    }
    assert records[..|records|] == records;
  }

  /** A kept entry with the article it stands for. */
  datatype Similar<A> = Similar(article: A, score: real)

  /** The kept entries whose articles can still be read, in order. */
  function Readable<A>(kept: seq<Scored>, articles: map<int, A>): seq<Similar<A>> {
    if kept == [] then []
    else
      var last := kept[|kept| - 1];
      Readable(kept[..|kept| - 1], articles) +
      if last.articleId in articles then [Similar(articles[last.articleId], last.score)] else []
  }

  function SimilarScore<A>(s: Similar<A>): real { s.score }

  /** Entry x stands for one of the kept articles. */
  predicate StandsFor<A(==)>(x: Similar<A>, kept: seq<Scored>, articles: map<int, A>) {
    exists i :: 0 <= i < |kept| && IsEntry(x, kept[i], articles)
  }

  predicate IsEntry<A(==)>(x: Similar<A>, s: Scored, articles: map<int, A>) {
    s.articleId in articles && x == Similar(articles[s.articleId], s.score)
  }

  /** Skipping articles that are gone keeps the order and adds nothing; articles that are there are all listed. */
  lemma {:induction false} ReadableKeepsOrder<A>(kept: seq<Scored>, articles: map<int, A>)
    requires Descending(kept, Score)
    ensures Descending(Readable(kept, articles), SimilarScore) && |Readable(kept, articles)| <= |kept|
    ensures forall x :: x in Readable(kept, articles) <==> StandsFor(x, kept, articles)
  {
    if kept != [] {
      var front, last := kept[..|kept| - 1], kept[|kept| - 1];
      ReadableKeepsOrder(front, articles);
      forall x | x in Readable(front, articles) ensures x.score >= last.score {
        assert StandsFor(x, front, articles);
        var i :| 0 <= i < |front| && IsEntry(x, front[i], articles);
        assert Score(kept[i]) >= Score(kept[|kept| - 1]);
      }
      forall x ensures x in Readable(kept, articles) <==> StandsFor(x, kept, articles) {
        StandsForLast(x, kept, articles);
      }
    }
  }

  lemma StandsForLast<A>(x: Similar<A>, kept: seq<Scored>, articles: map<int, A>)
    requires kept != []
    ensures StandsFor(x, kept, articles)
            <==> IsEntry(x, kept[|kept| - 1], articles) || StandsFor(x, kept[..|kept| - 1], articles)
  {
    assert kept == kept[..|kept| - 1] + [kept[|kept| - 1]];
  }

  /** The lookup after the cut: an article that cannot be read is skipped. */
  method Lookup<A>(kept: seq<Scored>, articles: map<int, A>) returns (result: seq<Similar<A>>)
    ensures result == Readable(kept, articles)
  {
    result := [];
    for i := 0 to |kept|
      invariant result == Readable(kept[..i], articles)
    {
      assert kept[..i + 1][..i] == kept[..i];
      if kept[i].articleId in articles {
        result := result + [Similar(articles[kept[i].articleId], kept[i].score)];
      }
    }
    assert kept[..|kept|] == kept;
  }

  /** The best of the positive scores, cut at the limit. */
  method Rank(target: Vector, records: seq<Embedding>, self: Option<int>, limit: nat, sqrt: real -> real)
    returns (kept: seq<Scored>)
    requires IsSqrt(sqrt)
    ensures kept == Top(Positive(target, records, self, sqrt), limit)
  {
    var scored := ScoreAll(target, records, self, sqrt);
    kept := SortDescending(scored, Score);
    if |kept| > limit {
      kept := kept[..limit];
    }
  }

  /**
   The right answer: every entry is a readable article with its positive score, best first; and an article that
   could be listed is, unless everything listed is at least as good and the list is full.
   */
  ghost predicate BestReadable<A>(result: seq<Similar<A>>, target: Vector, records: seq<Embedding>, self: Option<int>,
                                  articles: map<int, A>, limit: nat, sqrt: real -> real)
    requires IsSqrt(sqrt)
  {
    && |result| <= limit
    && (forall i, j :: 0 <= i < j < |result| ==> result[i].score >= result[j].score)
    && (forall x :: x in result ==> EntryOf(x, target, records, self, articles, sqrt))
    && (forall e :: e in records && Some(e.articleId) != self && e.articleId in articles
                    && Cosine(target, e.vector, sqrt) > 0.0 ==>
          ListedOrBeaten(result, e, target, articles, limit, |records|, sqrt))
  }

  ghost predicate EntryOf<A>(x: Similar<A>, target: Vector, records: seq<Embedding>, self: Option<int>,
                             articles: map<int, A>, sqrt: real -> real)
    requires IsSqrt(sqrt)
  {
    exists e :: e in records && Some(e.articleId) != self && e.articleId in articles
                && x.article == articles[e.articleId] && x.score == Cosine(target, e.vector, sqrt) > 0.0
  }

  ghost predicate ListedOrBeaten<A>(result: seq<Similar<A>>, e: Embedding, target: Vector, articles: map<int, A>,
                                    limit: nat, n: nat, sqrt: real -> real)
    requires IsSqrt(sqrt) && e.articleId in articles
  {
    var score := Cosine(target, e.vector, sqrt);
    || Similar(articles[e.articleId], score) in result
    || (n > limit && forall x :: x in result ==> x.score >= score)
  }

  lemma {:induction false} PositiveSize(target: Vector, records: seq<Embedding>, self: Option<int>, sqrt: real -> real)
    ensures |Positive(target, records, self, sqrt)| <= |records|
  {
    if records != [] {
      PositiveSize(target, records[..|records| - 1], self, sqrt);
    }
  }

  lemma KeptEntry<A>(x: Similar<A>, target: Vector, records: seq<Embedding>, self: Option<int>, articles: map<int, A>,
                     limit: nat, sqrt: real -> real)
    requires IsSqrt(sqrt) && x in Readable(Top(Positive(target, records, self, sqrt), limit), articles)
    ensures EntryOf(x, target, records, self, articles, sqrt)
  {
    var scored := Positive(target, records, self, sqrt);
    var kept := Top(scored, limit);
    TopKeepsTheBest(scored, limit);
    ReadableKeepsOrder(kept, articles);
    assert StandsFor(x, kept, articles);
    var i :| 0 <= i < |kept| && IsEntry(x, kept[i], articles);
    assert kept[i] in multiset(kept);
    assert kept[i] in scored;
    PositiveScores(target, records, self, sqrt);
  }

  lemma RecordListedOrBeaten<A>(e: Embedding, target: Vector, records: seq<Embedding>, self: Option<int>,
                                articles: map<int, A>, limit: nat, sqrt: real -> real)
    requires IsSqrt(sqrt) && e in records && Some(e.articleId) != self && e.articleId in articles
    requires Cosine(target, e.vector, sqrt) > 0.0
    ensures ListedOrBeaten(Readable(Top(Positive(target, records, self, sqrt), limit), articles), e, target, articles,
                           limit, |records|, sqrt)
  {
    var s := Scored(e.articleId, Cosine(target, e.vector, sqrt));
    PositiveScores(target, records, self, sqrt);
    PositiveSize(target, records, self, sqrt);
    KeptOrBeaten(s, Positive(target, records, self, sqrt), articles, limit);
  }

  /** A score is listed, or there are more than the limit and everything listed is at least as good. */
  lemma KeptOrBeaten<A>(s: Scored, scored: seq<Scored>, articles: map<int, A>, limit: nat)
    requires s in scored && s.articleId in articles
    ensures var result := Readable(Top(scored, limit), articles);
            || Similar(articles[s.articleId], s.score) in result
            || (|scored| > limit && forall x :: x in result ==> x.score >= s.score)
  {
    var kept := Top(scored, limit);
    TopKeepsTheBest(scored, limit);
    ReadableKeepsOrder(kept, articles);
    if s in kept {
      var i :| 0 <= i < |kept| && kept[i] == s;
      assert IsEntry(Similar(articles[s.articleId], s.score), kept[i], articles);
      assert StandsFor(Similar(articles[s.articleId], s.score), kept, articles);
    } else {
      assert s in multiset(scored) && s !in multiset(kept);
      assert s in multiset(scored) - multiset(kept);
      DroppedMeansFull(scored, kept, s);
      ReadableAtLeast(kept, articles, s.score);
    }
  }

  lemma ReadableAtLeast<A>(kept: seq<Scored>, articles: map<int, A>, low: real)
    requires Descending(kept, Score) && forall y :: y in kept ==> low <= y.score
    ensures forall x :: x in Readable(kept, articles) ==> low <= x.score
  {
    ReadableKeepsOrder(kept, articles);
    forall x | x in Readable(kept, articles) ensures low <= x.score {
      assert StandsFor(x, kept, articles);
      var i :| 0 <= i < |kept| && IsEntry(x, kept[i], articles);
      assert kept[i] in kept;
    }
  }

  lemma DroppedMeansFull(scored: seq<Scored>, kept: seq<Scored>, s: Scored)
    requires multiset(kept) <= multiset(scored) && s in multiset(scored) - multiset(kept)
    ensures |kept| < |scored|
  {
    assert |multiset(scored)| == |multiset(kept)| + |multiset(scored) - multiset(kept)|;
  }

  lemma ReadableIsBest<A>(target: Vector, records: seq<Embedding>, self: Option<int>, articles: map<int, A>,
                          limit: nat, sqrt: real -> real)
    requires IsSqrt(sqrt)
    ensures BestReadable(Readable(Top(Positive(target, records, self, sqrt), limit), articles), target, records, self,
                         articles, limit, sqrt)
  {
    var kept := Top(Positive(target, records, self, sqrt), limit);
    var result := Readable(kept, articles);
    TopKeepsTheBest(Positive(target, records, self, sqrt), limit);
    ReadableKeepsOrder(kept, articles);
    forall i, j | 0 <= i < j < |result| ensures result[i].score >= result[j].score {
      assert SimilarScore(result[i]) >= SimilarScore(result[j]);
    }
    forall x | x in result ensures EntryOf(x, target, records, self, articles, sqrt) {
      KeptEntry(x, target, records, self, articles, limit, sqrt);
    }
    forall e | e in records && Some(e.articleId) != self && e.articleId in articles
               && Cosine(target, e.vector, sqrt) > 0.0
      ensures ListedOrBeaten(result, e, target, articles, limit, |records|, sqrt)
    {
      RecordListedOrBeaten(e, target, records, self, articles, limit, sqrt);
    }
  }

  method SimilarArticles<A>(articleId: int, target: Vector, records: seq<Embedding>, articles: map<int, A>,
                            requested: int, sqrt: real -> real)
    returns (result: seq<Similar<A>>)
    requires IsSqrt(sqrt)
    ensures |result| <= NormalizeLimit(requested, 5, 20) && Descending(result, SimilarScore)
    ensures result
            == Readable(Top(Positive(target, records, Some(articleId), sqrt), NormalizeLimit(requested, 5, 20)),
                  articles)
    ensures BestReadable(result, target, records, Some(articleId), articles,
                         if requested <= 0 then 5 else if requested > 20 then 20 else requested, sqrt)
  {
    var limit := NormalizeLimit(requested, 5, 20);
    var kept := Rank(target, records, Some(articleId), limit, sqrt);
    TopKeepsTheBest(Positive(target, records, Some(articleId), sqrt), limit);
    ReadableKeepsOrder(kept, articles);
    ReadableIsBest(target, records, Some(articleId), articles, limit, sqrt);
    result := Lookup(kept, articles);
  }

  method EmbeddingRAGInputs<A>(query: Vector, records: seq<Embedding>, articles: map<int, A>, limit: nat,
                               sqrt: real -> real)
    returns (result: seq<Similar<A>>)
    requires IsSqrt(sqrt)
    ensures |result| <= limit && Descending(result, SimilarScore)
    ensures result == Readable(Top(Positive(query, records, None, sqrt), limit), articles)
    ensures BestReadable(result, query, records, None, articles, limit, sqrt)
  {
    var kept := Rank(query, records, None, limit, sqrt);
    TopKeepsTheBest(Positive(query, records, None, sqrt), limit);
    ReadableKeepsOrder(kept, articles);
    ReadableIsBest(query, records, None, articles, limit, sqrt);
    result := Lookup(kept, articles);
  }
}
