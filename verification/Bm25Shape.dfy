/** How BM25 scores respond to frequencies, lengths and rarity, with division and a growing logarithm. */
module Bm25Shape {
  import opened SparseIndexes

  ghost predicate Exact(a: Arithmetic) {
    && (forall x, y :: y != 0.0 ==> a.div(x, y) == x / y)
    && (forall x, y :: 0.0 < x < y ==> a.ln(x) < a.ln(y))
    && (forall x :: x > 0.0 ==> (a.ln(x) >= 0.0 <==> x >= 1.0))
  }

  // Parameters in their usual range, and documents of some length.
  ghost predicate Usual(c: Context) {
    Exact(c.arithmetic) && c.parameters.k1 > 0.0 && 0.0 <= c.parameters.b <= 1.0 && c.averageLength > 0.0
  }

  lemma Product(x: real, y: real)
    requires x >= 0.0 && y >= 0.0
    ensures x * y >= 0.0
  {
  }

  lemma Positive(x: real, y: real)
    requires x > 0.0 && y > 0.0
    ensures x * y > 0.0
  {
  }

  // Quotients compare as the products across.
  lemma Cross(p: real, q: real, r: real, s: real)
    requires q > 0.0 && s > 0.0
    ensures p * s < r * q <==> p / q < r / s
    ensures p * s == r * q <==> p / q == r / s
  {
    var x, y := p / q, r / s;
    assert x * q == p && y * s == r;
    Positive(q, s);
    assert (y - x) * (q * s) == r * q - p * s by { assert (y - x) * (q * s) == (y * s) * q - (x * q) * s; }
    if x < y {
      Positive(y - x, q * s);
    } else if y < x {
      Positive(x - y, q * s);
    }
  }

  // What stands under the frequency: k1, shaped by the relative length.
  function Norm(c: Context, length: real): real {
    c.parameters.k1 * (1.0 - c.parameters.b + c.parameters.b * c.arithmetic.div(length, c.averageLength))
  }

  // An empty document under full length normalisation: every frequency saturates at once.
  predicate NoRoom(c: Context, length: real) { c.parameters.b == 1.0 && length == 0.0 }

  lemma NormGrows(c: Context, short: real, long: real)
    requires Usual(c) && 0.0 <= short <= long
    ensures 0.0 <= Norm(c, short) <= Norm(c, long)
    ensures Norm(c, short) == Norm(c, long) <==> short == long || c.parameters.b == 0.0
  {
    var k1, b, average := c.parameters.k1, c.parameters.b, c.averageLength;
    var x, y := short / average, long / average;
    assert x * average == short && y * average == long;
    Cross(0.0, average, short, average);
    Cross(short, average, long, average) by {
      assert short < long <==> short * average < long * average by {
        if short < long { Positive(long - short, average); }
      }
    }
    assert x <= y && (x == y <==> short == long);
    Product(b, x);
    Product(b, y - x);
    assert b * y == b * x + b * (y - x);
    Product(k1, 1.0 - b + b * x);
    Product(k1, b * (y - x));
    assert k1 * (1.0 - b + b * y) == k1 * (1.0 - b + b * x) + k1 * (b * (y - x));
    if x < y && b > 0.0 {
      Positive(b, y - x);
      Positive(k1, b * (y - x));
    }
  }

  lemma NormVanishes(c: Context, length: real)
    requires Usual(c) && length >= 0.0
    ensures Norm(c, length) == 0.0 <==> NoRoom(c, length)
  {
    var k1, b, x := c.parameters.k1, c.parameters.b, length / c.averageLength;
    assert x * c.averageLength == length;
    Cross(0.0, c.averageLength, length, c.averageLength);
    Product(b, x);
    if b < 1.0 {
      Positive(k1, 1.0 - b + b * x);
    } else {
      assert 1.0 - b + b * x == x;
      if x > 0.0 {
        Positive(k1, x);
      }
    }
  }

  // What a document's frequency contributes, before the query's and the term's weight.
  function Part(c: Context, f: real, length: real): real { Ratio(f, c.parameters.k1 + 1.0, Norm(c, length)) }

  function Ratio(f: real, most: real, norm: real): real { if f + norm > 0.0 then f * most / (f + norm) else 0.0 }

  function Weighted(q: real, part: real, idf: real): real { q * part * idf }

  lemma ScoreForm(c: Context, q: real, f: real, length: real, idf: real)
    requires Usual(c) && f > 0.0 && length >= 0.0
    ensures Bm25(c, q, f, length, idf) == Weighted(q, Part(c, f, length), idf)
  {
    NormGrows(c, length, length);
  }

  // A larger part counts for more exactly when the weights have one sign.
  lemma Weigh(q: real, x: real, y: real, idf: real)
    requires x <= y
    ensures Weighted(q, x, idf) <= Weighted(q, y, idf) <==> x == y || q * idf >= 0.0
  {
    var w, d := q * idf, y - x;
    assert Weighted(q, y, idf) - Weighted(q, x, idf) == w * d by {
      assert q * y * idf - q * x * idf == (q * idf) * (y - x);
    }
    if x < y {
      if w >= 0.0 {
        Product(w, d);
      } else {
        Positive(-w, d);
        assert (-w) * d == -(w * d);
      }
    }
  }

  lemma RatioGrows(f: real, f': real, m: real, n: real)
    requires 0.0 < f <= f' && m > 0.0 && n >= 0.0
    ensures Ratio(f, m, n) <= Ratio(f', m, n)
    ensures Ratio(f, m, n) == Ratio(f', m, n) <==> f == f' || n == 0.0
  {
    Product(m, f' - f);
    Product(m * (f' - f), n);
    assert f' * m * (f + n) - f * m * (f' + n) == m * (f' - f) * n;
    Cross(f * m, f + n, f' * m, f' + n);
    if f < f' && n > 0.0 {
      Positive(m, f' - f);
      Positive(m * (f' - f), n);
    }
  }

  lemma RatioShrinks(f: real, m: real, n: real, n': real)
    requires f > 0.0 && m > 0.0 && 0.0 <= n <= n'
    ensures Ratio(f, m, n') <= Ratio(f, m, n)
    ensures Ratio(f, m, n') == Ratio(f, m, n) <==> n == n'
  {
    var x := f * m;
    Positive(f, m);
    Product(x, n' - n);
    assert x * (f + n') - x * (f + n) == x * (n' - n);
    Cross(x, f + n', x, f + n);
    if n < n' {
      Positive(x, n' - n);
    }
  }

  lemma RatioBounded(f: real, m: real, n: real)
    requires f > 0.0 && m > 0.0 && n >= 0.0
    ensures Ratio(f, m, n) <= m
    ensures Ratio(f, m, n) == m <==> n == 0.0
  {
    Product(m, n);
    assert m * (f + n) == f * m + m * n;
    Cross(f * m, f + n, m, 1.0);
    assert m / 1.0 == m;
    if n > 0.0 {
      Positive(m, n);
    }
  }

  // ---------- For any parameters ----------

  function Top(c: Context, f: real): real { f * (c.parameters.k1 + 1.0) }

  function Bottom(c: Context, f: real, length: real): real { f + Norm(c, length) }

  // The quotients of Bm25 are defined: no division by zero.
  ghost predicate Defined(c: Context, f: real, length: real) {
    Exact(c.arithmetic) && c.averageLength != 0.0 && Bottom(c, f, length) != 0.0
  }

  // How far the second frequency is ahead of the first, each taken with the other's norm.
  function Lead(c: Context, f: real, length: real, f': real, length': real): real {
    (c.parameters.k1 + 1.0) * (f' * Norm(c, length) - f * Norm(c, length'))
  }

  // How far a saturated score is ahead of any other.
  function Slack(c: Context, length: real): real { (c.parameters.k1 + 1.0) * Norm(c, length) }

  // The sign of a quotient is that of the product.
  lemma SignOfQuotient(w: real, z: real, d: real)
    requires d != 0.0
    ensures w * (z / d) >= 0.0 <==> w * z * d >= 0.0
  {
    var x := z / d;
    SignOfSquared(w * x, d);
    assert w * z * d == w * x * d * d by {
      assert x * d == z;
    }
  }

  lemma SignOfSquared(u: real, d: real)
    requires d != 0.0
    ensures u * d * d >= 0.0 <==> u >= 0.0
  {
    if d > 0.0 {
      SignOfProduct(u, d);
      SignOfProduct(u * d, d);
    } else {
      var e := -d;
      SignOfProduct(u, e);
      SignOfProduct(u * e, e);
      assert u * e == -(u * d);
      assert u * e * e == -(u * d) * e == u * d * d;
    }
  }

  lemma SignOfProduct(x: real, y: real)
    requires y > 0.0
    ensures x * y >= 0.0 <==> x >= 0.0
  {
    if x >= 0.0 {
      Product(x, y);
    } else {
      Positive(-x, y);
      assert (-x) * y == -(x * y);
    }
  }

  // A weighted difference.
  function Rise(w: real, x: real, y: real): real { w * (y - x) }

  // The weight, the products across, and the signs of the divisors.
  function Balance(w: real, z: real, d: real, d': real): real { w * z * (d * d') }

  // Quotients compare as the products across, with the sign of the divisors.
  lemma QuotientsCompare(w: real, x: real, d: real, x': real, d': real, z: real)
    requires d != 0.0 && d' != 0.0 && x' * d - x * d' == z
    ensures Rise(w, x / d, x' / d') >= 0.0 <==> Balance(w, z, d, d') >= 0.0
  {
    var p, p' := x / d, x' / d';
    NonZero(d, d');
    assert (p' - p) * (d * d') == z by {
      assert p * d == x && p' * d' == x';
      assert (p' - p) * (d * d') == (p' * d') * d - (p * d) * d';
    }
    Quotient(p' - p, d * d', z);
    SignOfQuotient(w, z, d * d');
  }

  lemma NonZero(x: real, y: real)
    requires x != 0.0 && y != 0.0
    ensures x * y != 0.0
  {
    assert x * y / y == x;
  }

  lemma Quotient(x: real, d: real, z: real)
    requires d != 0.0 && x * d == z
    ensures x == z / d
  {
    assert x * d / d == x;
  }

  lemma Crosswise(f: real, f': real, m: real, n: real, n': real)
    ensures (f' * m) * (f + n) - (f * m) * (f' + n') == m * (f' * n - f * n')
  {
  }

  lemma LeadIsCross(c: Context, f: real, length: real, f': real, length': real)
    ensures Top(c, f') * Bottom(c, f, length) - Top(c, f) * Bottom(c, f', length') == Lead(c, f, length, f', length')
  {
    Crosswise(f, f', c.parameters.k1 + 1.0, Norm(c, length), Norm(c, length'));
  }

  lemma CompareWeighted(q: real, x: real, y: real, idf: real)
    ensures Weighted(q, x, idf) <= Weighted(q, y, idf) <==> Rise(q * idf, x, y) >= 0.0
  {
    assert q * y * idf - q * x * idf == (q * idf) * (y - x);
  }

  lemma ScoreQuotient(c: Context, q: real, f: real, length: real, idf: real)
    requires Defined(c, f, length)
    ensures Bm25(c, q, f, length, idf) == Weighted(q, Top(c, f) / Bottom(c, f, length), idf)
  {
  }

  // How two scores of one term compare, whatever the parameters, frequencies and lengths: by the sign of
  // the weights, of the lead and of the divisors.
  lemma ScoresCompare(c: Context, q: real, f: real, length: real, f': real, length': real, idf: real)
    requires Defined(c, f, length) && Defined(c, f', length')
    ensures Bm25(c, q, f, length, idf) <= Bm25(c, q, f', length', idf) <==>
            Balance(q * idf, Lead(c, f, length, f', length'), Bottom(c, f, length), Bottom(c, f', length')) >= 0.0
  {
    var x, d, x', d' := Top(c, f), Bottom(c, f, length), Top(c, f'), Bottom(c, f', length');
    LeadIsCross(c, f, length, f', length');
    QuotientsCompare(q * idf, x, d, x', d', Lead(c, f, length, f', length'));
    ScoreQuotient(c, q, f, length, idf);
    ScoreQuotient(c, q, f', length', idf);
    CompareWeighted(q, x / d, x' / d', idf);
  }

  // Whether a score stays within k1 + 1 times its weight, whatever the parameters.
  lemma WithinLimit(c: Context, q: real, f: real, length: real, idf: real)
    requires Defined(c, f, length)
    ensures
      var most := c.parameters.k1 + 1.0;
      Bm25(c, q, f, length, idf) <= Weighted(q, most, idf) <==>
      Balance(q * idf, Slack(c, length), Bottom(c, f, length), 1.0) >= 0.0
  {
    var most, x, d := c.parameters.k1 + 1.0, Top(c, f), Bottom(c, f, length);
    QuotientsCompare(q * idf, x, d, most, 1.0, Slack(c, length)) by {
      assert most * d - x * 1.0 == Slack(c, length);
    }
    assert most / 1.0 == most;
    ScoreQuotient(c, q, f, length, idf);
    CompareWeighted(q, x / d, most, idf);
  }

  // The norm grows in a straight line with the length: from k1 (1 - b) for an empty document to k1 for one of
  // average length, whatever b is.
  lemma NormOfLengths(c: Context, length: real)
    requires Exact(c.arithmetic) && c.averageLength != 0.0
    ensures Norm(c, 0.0) == c.parameters.k1 * (1.0 - c.parameters.b)
    ensures Norm(c, c.averageLength) == c.parameters.k1
    ensures (Norm(c, length) - Norm(c, 0.0)) * c.averageLength == (c.parameters.k1 * c.parameters.b) * length
  {
    var k1, b, x := c.parameters.k1, c.parameters.b, length / c.averageLength;
    assert x * c.averageLength == length;
    assert 0.0 / c.averageLength == 0.0;
    assert c.averageLength / c.averageLength == 1.0;
    assert k1 * (1.0 - b + b * x) - k1 * (1.0 - b) == k1 * b * x;
    assert k1 * b * x * c.averageLength == (k1 * b) * length;
  }

  // A frequency of 1 in a document of average length scores the query's frequency times the weight.
  lemma UnitFrequency(c: Context, q: real, idf: real)
    requires Exact(c.arithmetic) && c.averageLength != 0.0 && c.parameters.k1 != -1.0
    ensures Bm25(c, q, 1.0, c.averageLength, idf) == q * idf
  {
    var d := Bottom(c, 1.0, c.averageLength);
    assert d == 1.0 + c.parameters.k1 == Top(c, 1.0) by {
      NormOfLengths(c, 0.0);
    }
    ScoreQuotient(c, q, 1.0, c.averageLength, idf);
    OfItself(d);
    assert Weighted(q, 1.0, idf) == q * idf;
  }

  lemma OfItself(x: real)
    requires x != 0.0
    ensures x / x == 1.0
  {
  }

  // ---------- For the usual parameters ----------

  // More occurrences of a term do not lower a document's score exactly when the query's frequency and
  // the term's weight have one sign; else they lower it, unless the length leaves no room.
  lemma MoreOccurrences(c: Context, q: real, f: real, f': real, length: real, idf: real)
    requires Usual(c) && 0.0 < f <= f' && length >= 0.0
    ensures Bm25(c, q, f, length, idf) <= Bm25(c, q, f', length, idf) <==>
            f == f' || NoRoom(c, length) || q * idf >= 0.0
  {
    ScoreForm(c, q, f, length, idf);
    ScoreForm(c, q, f', length, idf);
    NormGrows(c, length, length);
    NormVanishes(c, length);
    RatioGrows(f, f', c.parameters.k1 + 1.0, Norm(c, length));
    Weigh(q, Part(c, f, length), Part(c, f', length), idf);
  }

  // A longer document of the same term frequency does not score more exactly when the weights have one
  // sign; else it does, unless lengths play no part.
  lemma LongerDocument(c: Context, q: real, f: real, short: real, long: real, idf: real)
    requires Usual(c) && f > 0.0 && 0.0 <= short <= long
    ensures Bm25(c, q, f, long, idf) <= Bm25(c, q, f, short, idf) <==>
            short == long || c.parameters.b == 0.0 || q * idf >= 0.0
  {
    ScoreForm(c, q, f, short, idf);
    ScoreForm(c, q, f, long, idf);
    NormGrows(c, short, long);
    RatioShrinks(f, c.parameters.k1 + 1.0, Norm(c, short), Norm(c, long));
    Weigh(q, Part(c, f, long), Part(c, f, short), idf);
  }

  // However often a term occurs, k1 + 1 times its weight is not exceeded, exactly when that is no penalty.
  lemma Saturates(c: Context, q: real, f: real, length: real, idf: real)
    requires Usual(c) && f > 0.0 && length >= 0.0
    ensures Bm25(c, q, f, length, idf) <= Weighted(q, c.parameters.k1 + 1.0, idf) <==>
            NoRoom(c, length) || q * idf >= 0.0
  {
    ScoreForm(c, q, f, length, idf);
    NormGrows(c, length, length);
    NormVanishes(c, length);
    RatioBounded(f, c.parameters.k1 + 1.0, Norm(c, length));
    Weigh(q, Part(c, f, length), c.parameters.k1 + 1.0, idf);
  }

  // A term's weight is not negative exactly when at most half of the documents have it.
  lemma WeightSign(c: Context, documentFrequency: nat)
    requires Exact(c.arithmetic) && documentFrequency <= c.documents
    ensures Idf(c, documentFrequency) >= 0.0 <==> 2 * documentFrequency <= c.documents
  {
    var n, d := c.documents as real, documentFrequency as real;
    PositiveQuotient(n - d + 0.5, d + 0.5);
    Cross(n - d + 0.5, d + 0.5, 1.0, 1.0);
    assert 1.0 / 1.0 == 1.0;
  }

  // The logarithm is taken of a positive number exactly when the frequency does not exceed the number of
  // documents.
  lemma WeightDefined(c: Context, documentFrequency: nat)
    requires Exact(c.arithmetic)
    ensures
      var n, d := c.documents as real, documentFrequency as real;
      c.arithmetic.div(n - d + 0.5, d + 0.5) > 0.0 <==> documentFrequency <= c.documents
  {
    var n, d := c.documents as real, documentFrequency as real;
    Cross(0.0, 1.0, n - d + 0.5, d + 0.5);
  }

  // How the weights of two terms compare, be it in one collection or in two: as the odds against having the
  // term, each count half a document up.
  lemma WeightsCompare(c: Context, frequency: nat, c': Context, frequency': nat)
    requires Exact(c.arithmetic) && c'.arithmetic == c.arithmetic
    requires frequency <= c.documents && frequency' <= c'.documents
    ensures Idf(c, frequency) <= Idf(c', frequency') <==>
            (2 * (c.documents - frequency) + 1) * (2 * frequency' + 1) <=
            (2 * (c'.documents - frequency') + 1) * (2 * frequency + 1)
  {
    var n, d, n', d' := c.documents - frequency, frequency, c'.documents - frequency', frequency';
    var x, y, x', y' := n as real + 0.5, d as real + 0.5, n' as real + 0.5, d' as real + 0.5;
    assert x == c.documents as real - d as real + 0.5 && x' == c'.documents as real - d' as real + 0.5;
    PositiveQuotient(x, y);
    PositiveQuotient(x', y');
    Cross(x, y, x', y');
    Halves(n, d');
    Halves(n', d);
  }

  lemma Halves(i: nat, j: nat)
    ensures (i as real + 0.5) * (j as real + 0.5) * 4.0 == ((2 * i + 1) * (2 * j + 1)) as real
  {
    var x, y := i as real, j as real;
    assert (x + 0.5) * (y + 0.5) * 4.0 == 4.0 * (x * y) + 2.0 * x + 2.0 * y + 1.0;
    assert (2 * i + 1) * (2 * j + 1) == 4 * (i * j) + 2 * i + 2 * j + 1;
    assert (i * j) as real == x * y;
  }

  // A rarer term never weighs less.
  lemma RarerWeighsMore(c: Context, rare: nat, common: nat)
    requires Exact(c.arithmetic) && rare <= common <= c.documents
    ensures Idf(c, common) <= Idf(c, rare)
  {
    var n, r, m := c.documents as real + 0.5, rare as real, common as real;
    Product(m - r, n + 0.5);
    assert (n - r) * (m + 0.5) - (n - m) * (r + 0.5) == (m - r) * (n + 0.5);
    Cross(n - m, m + 0.5, n - r, r + 0.5);
    Cross(0.0, m + 0.5, n - m, m + 0.5);
    PositiveQuotient(n - m, m + 0.5);
  }

  lemma PositiveQuotient(x: real, y: real)
    requires x > 0.0 && y > 0.0
    ensures x / y > 0.0
  {
    assert x / y * y == x;
  }
}
