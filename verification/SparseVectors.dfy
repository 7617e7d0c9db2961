/** Sparse vectors: construction, the two-cursor dot product and the cosine similarity. */
module SparseVectors {
  import opened Wrappers

  datatype SparseVector = SparseVector(indices: seq<nat>, values: seq<real>, dimension: nat)

  predicate WellFormed(v: SparseVector) {
    && |v.indices| == |v.values|
    && forall i :: 0 <= i < |v.indices| ==> v.indices[i] < v.dimension
  }

  predicate Increasing(v: SparseVector) {
    forall i, j :: 0 <= i < j < |v.indices| ==> v.indices[i] < v.indices[j]
  }

  // Neither the order nor the distinctness of the indices is checked.
  function New(indices: seq<nat>, values: seq<real>, dimension: nat): (r: Result<SparseVector>)
    ensures r.Success? <==> WellFormed(SparseVector(indices, values, dimension))
    ensures r.Success? ==> r.value == SparseVector(indices, values, dimension)
  {
    if |indices| != |values| then Failure("sparse vector has different numbers of indices and values")
    else if exists i :: 0 <= i < |indices| && indices[i] >= dimension then Failure("sparse vector index out of range")
    else Success(SparseVector(indices, values, dimension))
  }

  // ---------- The dense reading ----------

  // The value at position `k`, from entry `from` on: of repeated indices the first counts.
  function At(v: SparseVector, from: nat, k: nat): real
    requires WellFormed(v) && from <= |v.indices|
    decreases |v.indices| - from
  {
    if from == |v.indices| then 0.0
    else if v.indices[from] == k then v.values[from]
    else At(v, from + 1, k)
  }

  // The products at the positions below `n`, from entries `i` and `j` on.
  function DenseDot(v: SparseVector, w: SparseVector, i: nat, j: nat, n: nat): real
    requires WellFormed(v) && WellFormed(w) && i <= |v.indices| && j <= |w.indices|
    decreases n
  {
    if n == 0 then 0.0 else DenseDot(v, w, i, j, n - 1) + At(v, i, n - 1) * At(w, j, n - 1)
  }

  function Dot(v: SparseVector, w: SparseVector): real
    requires WellFormed(v) && WellFormed(w)
  {
    DenseDot(v, w, 0, 0, if v.dimension <= w.dimension then w.dimension else v.dimension)
  }

  lemma {:induction false} AtAbsent(v: SparseVector, from: nat, k: nat)
    requires WellFormed(v) && from <= |v.indices|
    requires forall i :: from <= i < |v.indices| ==> v.indices[i] != k
    ensures At(v, from, k) == 0.0
    decreases |v.indices| - from
  {
    if from < |v.indices| {
      AtAbsent(v, from + 1, k);
    }
  }

  // Two pairs of suffixes with the same products everywhere but at `k` differ there only.
  lemma {:induction false} DenseDotDiffers(v: SparseVector, w: SparseVector, i: nat, j: nat, i': nat, j': nat, k: nat,
                                           n: nat)
    requires WellFormed(v) && WellFormed(w) && i <= i' <= |v.indices| && j <= j' <= |w.indices|
    requires forall m :: 0 <= m < n && m != k ==> At(v, i, m) * At(w, j, m) == At(v, i', m) * At(w, j', m)
    ensures DenseDot(v, w, i, j, n) == DenseDot(v, w, i', j', n) +
            if k < n then At(v, i, k) * At(w, j, k) - At(v, i', k) * At(w, j', k) else 0.0
    decreases n
  {
    if n > 0 {
      DenseDotDiffers(v, w, i, j, i', j', k, n - 1);
      DenseDotNext(v, w, i, j, n);
      DenseDotNext(v, w, i', j', n);
      assert n - 1 != k ==> At(v, i, n - 1) * At(w, j, n - 1) == At(v, i', n - 1) * At(w, j', n - 1);
    }
  }

  lemma DenseDotNext(v: SparseVector, w: SparseVector, i: nat, j: nat, n: nat)
    requires WellFormed(v) && WellFormed(w) && i <= |v.indices| && j <= |w.indices| && n > 0
    ensures DenseDot(v, w, i, j, n) == DenseDot(v, w, i, j, n - 1) + At(v, i, n - 1) * At(w, j, n - 1)
  {
  }

  lemma {:induction false} DenseDotDone(v: SparseVector, w: SparseVector, i: nat, j: nat, n: nat)
    requires WellFormed(v) && WellFormed(w) && i <= |v.indices| && j <= |w.indices|
    requires i == |v.indices| || j == |w.indices|
    ensures DenseDot(v, w, i, j, n) == 0.0
    decreases n
  {
    if n > 0 {
      DenseDotDone(v, w, i, j, n - 1);
    }
  }

  // ---------- The two cursors ----------

  // Equal indices contribute their product; a smaller index finds no partner.
  lemma StepEqual(v: SparseVector, w: SparseVector, i: nat, j: nat, n: nat)
    requires WellFormed(v) && WellFormed(w) && Increasing(v) && Increasing(w)
    requires i < |v.indices| && j < |w.indices| && v.indices[i] == w.indices[j] < n
    ensures DenseDot(v, w, i, j, n) == v.values[i] * w.values[j] + DenseDot(v, w, i + 1, j + 1, n)
  {
    var k := v.indices[i];
    AtAbsent(v, i + 1, k);
    DenseDotDiffers(v, w, i, j, i + 1, j + 1, k, n);
  }

  lemma StepLess(v: SparseVector, w: SparseVector, i: nat, j: nat, n: nat)
    requires WellFormed(v) && WellFormed(w) && Increasing(v) && Increasing(w)
    requires i < |v.indices| && j < |w.indices| && v.indices[i] < w.indices[j]
    ensures DenseDot(v, w, i, j, n) == DenseDot(v, w, i + 1, j, n)
  {
    var k := v.indices[i];
    AtAbsent(w, j, k);
    DenseDotDiffers(v, w, i, j, i + 1, j, k, n);
  }

  lemma StepGreater(v: SparseVector, w: SparseVector, i: nat, j: nat, n: nat)
    requires WellFormed(v) && WellFormed(w) && Increasing(v) && Increasing(w)
    requires i < |v.indices| && j < |w.indices| && w.indices[j] < v.indices[i]
    ensures DenseDot(v, w, i, j, n) == DenseDot(v, w, i, j + 1, n)
  {
    var k := w.indices[j];
    AtAbsent(v, i, k);
    DenseDotDiffers(v, w, i, j, i, j + 1, k, n);
  }

  method DotProduct(v: SparseVector, w: SparseVector) returns (result: real)
    requires WellFormed(v) && WellFormed(w)
    ensures result == Merged(v, w, 0, 0)
    ensures Increasing(v) && Increasing(w) ==> result == Dot(v, w)
    ensures Leads(v) && Increasing(w) ==> result == Dot(v, w)
  {
    result := 0.0;
    var i, j := 0, 0;
    while i < |v.indices| && j < |w.indices|
      invariant i <= |v.indices| && j <= |w.indices|
      invariant result + Merged(v, w, i, j) == Merged(v, w, 0, 0)
      decreases |v.indices| - i + |w.indices| - j
    {
      if v.indices[i] == w.indices[j] {
        result := result + v.values[i] * w.values[j];
        i, j := i + 1, j + 1;
      } else if v.indices[i] < w.indices[j] {
        i := i + 1;
      } else {
        j := j + 1;
      }
    }
    if Increasing(v) && Increasing(w) {
      MergedIsDense(v, w, 0, 0, if v.dimension <= w.dimension then w.dimension else v.dimension);
    } else if Leads(v) && Increasing(w) {
      LeadingReads(v, w, 0, 0, if v.dimension <= w.dimension then w.dimension else v.dimension);
    }
  }

  // What the cursors still collect from `i` and `j` on.
  function Merged(v: SparseVector, w: SparseVector, i: nat, j: nat): real
    requires WellFormed(v) && WellFormed(w) && i <= |v.indices| && j <= |w.indices|
    decreases |v.indices| - i + |w.indices| - j
  {
    if i == |v.indices| || j == |w.indices| then 0.0
    else if v.indices[i] == w.indices[j] then v.values[i] * w.values[j] + Merged(v, w, i + 1, j + 1)
    else if v.indices[i] < w.indices[j] then Merged(v, w, i + 1, j)
    else Merged(v, w, i, j + 1)
  }

  lemma {:induction false} MergedIsDense(v: SparseVector, w: SparseVector, i: nat, j: nat, n: nat)
    requires WellFormed(v) && WellFormed(w) && Increasing(v) && Increasing(w)
    requires i <= |v.indices| && j <= |w.indices| && v.dimension <= n && w.dimension <= n
    ensures Merged(v, w, i, j) == DenseDot(v, w, i, j, n)
    decreases |v.indices| - i + |w.indices| - j
  {
    if i == |v.indices| || j == |w.indices| {
      DenseDotDone(v, w, i, j, n);
    } else if v.indices[i] == w.indices[j] {
      MergedIsDense(v, w, i + 1, j + 1, n);
      StepEqual(v, w, i, j, n);
      assert Merged(v, w, i, j) == v.values[i] * w.values[j] + Merged(v, w, i + 1, j + 1);
    } else if v.indices[i] < w.indices[j] {
      StepLess(v, w, i, j, n);
      MergedIsDense(v, w, i + 1, j, n);
    } else {
      StepGreater(v, w, i, j, n);
      MergedIsDense(v, w, i, j + 1, n);
    }
  }

  // The cursors treat both vectors alike, whatever the order of the indices.
  lemma {:induction false} MergedSymmetric(v: SparseVector, w: SparseVector, i: nat, j: nat)
    requires WellFormed(v) && WellFormed(w) && i <= |v.indices| && j <= |w.indices|
    ensures Merged(v, w, i, j) == Merged(w, v, j, i)
    decreases |v.indices| - i + |w.indices| - j
  {
    if i < |v.indices| && j < |w.indices| {
      if v.indices[i] == w.indices[j] {
        MergedSymmetric(v, w, i + 1, j + 1);
      } else if v.indices[i] < w.indices[j] {
        MergedSymmetric(v, w, i + 1, j);
      } else {
        MergedSymmetric(v, w, i, j + 1);
      }
    }
  }

  // ---------- Vectors out of order ----------

  // Every entry that counts, the first of its index and not zero, stands after smaller indices only.
  ghost predicate Leads(v: SparseVector)
    requires WellFormed(v)
  {
    forall j :: 0 <= j < |v.indices| && Counts(v, j) ==> forall i :: 0 <= i < j ==> v.indices[i] < v.indices[j]
  }

  ghost predicate Counts(v: SparseVector, j: nat)
    requires WellFormed(v) && j < |v.indices|
  {
    v.values[j] != 0.0 && forall i :: 0 <= i < j ==> v.indices[i] != v.indices[j]
  }

  // The first cursor has passed only indices below the one the second stands at.
  ghost predicate Behind(v: SparseVector, w: SparseVector, i: nat, j: nat)
    requires i <= |v.indices| && j <= |w.indices|
  {
    j < |w.indices| ==> forall a :: 0 <= a < i ==> v.indices[a] < w.indices[j]
  }

  lemma {:induction false} AtFirst(v: SparseVector, from: nat, i: nat)
    requires WellFormed(v) && from <= i < |v.indices|
    requires forall a :: from <= a < i ==> v.indices[a] != v.indices[i]
    ensures At(v, from, v.indices[i]) == v.values[i]
    decreases i - from
  {
    if from < i {
      AtFirst(v, from + 1, i);
    }
  }

  // An index the first cursor has overtaken has no value that counts.
  lemma {:induction false} AtOvertaken(v: SparseVector, from: nat, i: nat, k: nat)
    requires WellFormed(v) && Leads(v) && from <= |v.indices| && i < |v.indices| && k < v.indices[i]
    requires forall a :: 0 <= a < i ==> v.indices[a] != k
    requires forall a :: 0 <= a < from && a < |v.indices| ==> v.indices[a] != k
    ensures At(v, from, k) == 0.0
    decreases |v.indices| - from
  {
    if from < |v.indices| {
      if v.indices[from] == k {
        assert v.values[from] == 0.0 by { assert !Counts(v, from); }
      } else {
        AtOvertaken(v, from + 1, i, k);
      }
    }
  }

  // From cursors that have not passed anything common, the dense product of what is left of the second
  // vector with all of the first is collected.
  lemma {:induction false} LeadingReads(v: SparseVector, w: SparseVector, i: nat, j: nat, n: nat)
    requires WellFormed(v) && WellFormed(w) && Leads(v) && Increasing(w)
    requires i <= |v.indices| && j <= |w.indices| && v.dimension <= n && w.dimension <= n && Behind(v, w, i, j)
    ensures Merged(v, w, i, j) == DenseDot(v, w, 0, j, n)
    decreases |v.indices| - i + |w.indices| - j
  {
    if j == |w.indices| {
      DenseDotDone(v, w, 0, j, n);
    } else if i == |v.indices| {
      NothingCommon(v, w, j, n);
    } else if v.indices[i] < w.indices[j] {
      LeadingReads(v, w, i + 1, j, n);
    } else if v.indices[i] == w.indices[j] {
      assert Behind(v, w, i + 1, j + 1);
      LeadingReads(v, w, i + 1, j + 1, n);
      CommonCollected(v, w, i, j, n);
    } else {
      assert Behind(v, w, i, j + 1);
      LeadingReads(v, w, i, j + 1, n);
      OvertakenSkipped(v, w, i, j, n);
    }
  }

  lemma CommonCollected(v: SparseVector, w: SparseVector, i: nat, j: nat, n: nat)
    requires WellFormed(v) && WellFormed(w) && Increasing(w) && i < |v.indices| && j < |w.indices| && w.dimension <= n
    requires Behind(v, w, i, j) && v.indices[i] == w.indices[j]
    requires Merged(v, w, i + 1, j + 1) == DenseDot(v, w, 0, j + 1, n)
    ensures Merged(v, w, i, j) == DenseDot(v, w, 0, j, n)
  {
    AtFirst(v, 0, i);
    DropSecond(v, w, j, n);
  }

  lemma OvertakenSkipped(v: SparseVector, w: SparseVector, i: nat, j: nat, n: nat)
    requires WellFormed(v) && WellFormed(w) && Leads(v) && Increasing(w) && w.dimension <= n
    requires i < |v.indices| && j < |w.indices| && Behind(v, w, i, j) && v.indices[i] > w.indices[j]
    requires Merged(v, w, i, j + 1) == DenseDot(v, w, 0, j + 1, n)
    ensures Merged(v, w, i, j) == DenseDot(v, w, 0, j, n)
  {
    AtOvertaken(v, 0, i, w.indices[j]);
    DropSecond(v, w, j, n);
  }

  lemma DropSecond(v: SparseVector, w: SparseVector, j: nat, n: nat)
    requires WellFormed(v) && WellFormed(w) && Increasing(w) && j < |w.indices| && w.dimension <= n
    ensures DenseDot(v, w, 0, j, n) == At(v, 0, w.indices[j]) * w.values[j] + DenseDot(v, w, 0, j + 1, n)
  {
    AtAbsent(w, j + 1, w.indices[j]);
    DenseDotDiffers(v, w, 0, j, 0, j + 1, w.indices[j], n);
  }

  lemma NothingCommon(v: SparseVector, w: SparseVector, j: nat, n: nat)
    requires WellFormed(v) && WellFormed(w) && Increasing(w) && j <= |w.indices| && Behind(v, w, |v.indices|, j)
    ensures DenseDot(v, w, 0, j, n) == 0.0
    decreases n
  {
    if n > 0 {
      NothingCommon(v, w, j, n - 1);
      if exists b :: j <= b < |w.indices| && w.indices[b] == n - 1 {
        AtAbsent(v, 0, n - 1);
      } else {
        AtAbsent(w, j, n - 1);
      }
    }
  }

  function Unit(k: nat, dimension: nat): SparseVector { SparseVector([k], [1.0], dimension) }

  lemma {:induction false} DenseWithUnit(v: SparseVector, k: nat, n: nat)
    requires WellFormed(v) && k < v.dimension
    ensures DenseDot(v, Unit(k, v.dimension), 0, 0, n) == if k < n then At(v, 0, k) else 0.0
    decreases n
  {
    if n > 0 {
      DenseWithUnit(v, k, n - 1);
      assert At(Unit(k, v.dimension), 0, n - 1) == if n - 1 == k then 1.0 else 0.0;
    }
  }

  // The cursors leave a single index behind at the first larger one.
  lemma {:induction false} UnitMissed(v: SparseVector, k: nat, i: nat, j: nat)
    requires WellFormed(v) && k < v.dimension && i <= j < |v.indices| && v.indices[j] > k
    requires forall a :: i <= a < j ==> v.indices[a] != k
    ensures Merged(v, Unit(k, v.dimension), i, 0) == 0.0
    decreases j - i
  {
    if v.indices[i] < k {
      UnitMissed(v, k, i + 1, j);
    }
  }

  lemma MissesEntry(v: SparseVector, j: nat)
    requires WellFormed(v) && j < |v.indices| && Counts(v, j)
    requires exists i :: 0 <= i < j && v.indices[i] >= v.indices[j]
    ensures
      var w := Unit(v.indices[j], v.dimension);
      WellFormed(w) && Increasing(w) && Merged(v, w, 0, 0) == 0.0 && Dot(v, w) == v.values[j] != 0.0
  {
    var i :| 0 <= i < j && v.indices[i] >= v.indices[j];
    UnitMissed(v, v.indices[j], 0, i);
    AtFirst(v, 0, j);
    DenseWithUnit(v, v.indices[j], v.dimension);
  }

  ghost predicate ReadsAll(v: SparseVector)
    requires WellFormed(v)
  {
    forall w :: WellFormed(w) && Increasing(w) ==> Merged(v, w, 0, 0) == Dot(v, w)
  }

  // A vector has its dense product with every vector of increasing indices exactly when it leads.
  lemma ReadsAllIffLeads(v: SparseVector)
    requires WellFormed(v)
    ensures ReadsAll(v) <==> Leads(v)
  {
    if Leads(v) {
      forall w | WellFormed(w) && Increasing(w)
        ensures Merged(v, w, 0, 0) == Dot(v, w)
      {
        LeadingReads(v, w, 0, 0, if v.dimension <= w.dimension then w.dimension else v.dimension);
      }
    } else {
      var j :| 0 <= j < |v.indices| && Counts(v, j) && !forall i :: 0 <= i < j ==> v.indices[i] < v.indices[j];
      MissesEntry(v, j);
    }
  }

  // With distinct indices and without zeros: exactly when its indices increase.
  lemma ReadsAllIffIncreasing(v: SparseVector)
    requires WellFormed(v) && forall i :: 0 <= i < |v.values| ==> v.values[i] != 0.0
    requires forall i, j :: 0 <= i < j < |v.indices| ==> v.indices[i] != v.indices[j]
    ensures ReadsAll(v) <==> Increasing(v)
  {
    ReadsAllIffLeads(v);
    assert forall j :: 0 <= j < |v.indices| ==> Counts(v, j);
  }

  // An instance: of two common indices the smaller one, out of order, is missed.
  lemma UnsortedMisses()
    ensures
      var v, w := SparseVector([1, 0], [1.0, 1.0], 2), SparseVector([0, 1], [1.0, 1.0], 2);
      WellFormed(v) && WellFormed(w) && Merged(v, w, 0, 0) == 1.0 && Dot(v, w) == 2.0
  {
    var v, w := SparseVector([1, 0], [1.0, 1.0], 2), SparseVector([0, 1], [1.0, 1.0], 2);
    assert At(v, 1, 0) == 1.0 && At(v, 0, 0) == 1.0 && At(v, 0, 1) == 1.0;
    assert At(w, 1, 1) == 1.0 && At(w, 0, 1) == 1.0 && At(w, 0, 0) == 1.0;
    assert DenseDot(v, w, 0, 0, 1) == 1.0;
    assert Merged(v, w, 0, 1) == 1.0 + Merged(v, w, 1, 2);
  }

  // ---------- Cosine ----------

  function SquaredNorm(v: SparseVector, from: nat): (r: real)
    requires WellFormed(v) && from <= |v.indices|
    ensures r >= 0.0
    decreases |v.indices| - from
  {
    if from == |v.indices| then 0.0 else v.values[from] * v.values[from] + SquaredNorm(v, from + 1)
  }

  lemma {:induction false} NormIsOwnDot(v: SparseVector, from: nat)
    requires WellFormed(v) && from <= |v.indices|
    ensures SquaredNorm(v, from) == Merged(v, v, from, from)
    decreases |v.indices| - from
  {
    if from < |v.indices| {
      NormIsOwnDot(v, from + 1);
    }
  }

  function CosineSimilarity(v: SparseVector, w: SparseVector, sqrt: real -> real): real
    requires WellFormed(v) && WellFormed(w)
  {
    var normProduct := sqrt(SquaredNorm(v, 0)) * sqrt(SquaredNorm(w, 0));
    if normProduct == 0.0 then 0.0 else Merged(v, w, 0, 0) / normProduct
  }

  lemma Positive(x: real, y: real)
    requires x > 0.0 && y > 0.0
    ensures x * y > 0.0
  {
  }

  lemma SquareGrows(x: real, y: real)
    requires 0.0 <= y < x
    ensures y * y < x * x
  {
    Positive(x - y, x + y);
    assert (x - y) * (x + y) == x * x - y * y;
  }

  lemma SquareMonotone(x: real, y: real)
    requires y >= 0.0 && x * x <= y * y
    ensures -y <= x <= y
  {
    if x > y {
      SquareGrows(x, y);
    } else if -x > y {
      assert (-x) * (-x) == x * x;
      SquareGrows(-x, y);
    }
  }

  // (p*q)^2 <= (a*q^2 + b*p^2)^2 / 4 when s^2 <= a*b, in the form the induction below needs.
  lemma CrossTerm(s: real, a: real, b: real, p: real, q: real)
    requires a >= 0.0 && b >= 0.0 && s * s <= a * b
    ensures 2.0 * s * p * q <= a * (q * q) + b * (p * p)
  {
    var pq, aq, bp := p * q, a * (q * q), b * (p * p);
    assert aq >= 0.0 && bp >= 0.0;
    var x, y := 2.0 * s * pq, aq + bp;
    assert (aq - bp) * (aq - bp) >= 0.0;
    assert y * y >= 4.0 * (aq * bp);
    assert aq * bp == (a * b) * (pq * pq);
    Products(s * s, a * b, pq * pq);
    assert x * x == 4.0 * ((s * s) * (pq * pq));
    SquareMonotone(x, y);
    assert x == 2.0 * s * p * q;
  }

  lemma Products(x: real, y: real, z: real)
    requires x <= y && z >= 0.0
    ensures x * z <= y * z
  {
    assert (y - x) * z >= 0.0;
  }

  // The squared dense product is at most the product of the dense squares.
  lemma {:induction false} CauchySchwarz(v: SparseVector, w: SparseVector, n: nat)
    requires WellFormed(v) && WellFormed(w)
    ensures Bounded(DenseDot(v, w, 0, 0, n), DenseDot(v, v, 0, 0, n), DenseDot(w, w, 0, 0, n))
    decreases n
  {
    if n > 0 {
      CauchySchwarz(v, w, n - 1);
      BoundedMore(DenseDot(v, w, 0, 0, n - 1), DenseDot(v, v, 0, 0, n - 1), DenseDot(w, w, 0, 0, n - 1),
                  At(v, 0, n - 1), At(w, 0, n - 1));
    } else {
      ZeroBounded(0.0, 0.0);
    }
  }

  lemma AddTerm(s: real, a: real, b: real, p: real, q: real)
    requires a >= 0.0 && b >= 0.0 && s * s <= a * b
    ensures a + p * p >= 0.0 && b + q * q >= 0.0
    ensures (s + p * q) * (s + p * q) <= (a + p * p) * (b + q * q)
  {
    CrossTerm(s, a, b, p, q);
    assert (s + p * q) * (s + p * q) == s * s + 2.0 * s * p * q + (p * q) * (p * q);
    assert (a + p * p) * (b + q * q) == a * b + a * (q * q) + b * (p * p) + (p * p) * (q * q);
    assert (p * q) * (p * q) == (p * p) * (q * q);
  }

  predicate Bounded(d: real, a: real, b: real) { a >= 0.0 && b >= 0.0 && d * d <= a * b }

  lemma BoundedMore(d: real, a: real, b: real, p: real, q: real)
    requires Bounded(d, a, b)
    ensures Bounded(p * q + d, p * p + a, q * q + b)
  {
    AddTerm(d, a, b, p, q);
  }

  lemma BoundedFirst(d: real, a: real, b: real, p: real)
    requires Bounded(d, a, b)
    ensures Bounded(d, p * p + a, b)
  {
    Products(a, p * p + a, b);
  }

  lemma BoundedSwap(d: real, a: real, b: real)
    requires Bounded(d, a, b)
    ensures Bounded(d, b, a)
  {
  }

  lemma {:induction false} CursorsBounded(v: SparseVector, w: SparseVector, i: nat, j: nat)
    requires WellFormed(v) && WellFormed(w) && i <= |v.indices| && j <= |w.indices|
    ensures Bounded(Merged(v, w, i, j), SquaredNorm(v, i), SquaredNorm(w, j))
    decreases |v.indices| - i + |w.indices| - j
  {
    if i == |v.indices| || j == |w.indices| {
      ZeroBounded(SquaredNorm(v, i), SquaredNorm(w, j));
    } else if v.indices[i] == w.indices[j] {
      CursorsBounded(v, w, i + 1, j + 1);
      BoundedMore(Merged(v, w, i + 1, j + 1), SquaredNorm(v, i + 1), SquaredNorm(w, j + 1), v.values[i], w.values[j]);
    } else if v.indices[i] < w.indices[j] {
      CursorsBounded(v, w, i + 1, j);
      BoundedFirst(Merged(v, w, i + 1, j), SquaredNorm(v, i + 1), SquaredNorm(w, j), v.values[i]);
    } else {
      var d, a, b := Merged(v, w, i, j + 1), SquaredNorm(v, i), SquaredNorm(w, j + 1);
      CursorsBounded(v, w, i, j + 1);
      BoundedSwap(d, a, b);
      BoundedFirst(d, b, a, w.values[j]);
      BoundedSwap(d, SquaredNorm(w, j), a);
    }
  }

  lemma ZeroBounded(a: real, b: real)
    requires a >= 0.0 && b >= 0.0
    ensures Bounded(0.0, a, b)
  {
  }

  // What the cursors collect is bounded by the norms, for any order of the indices.
  lemma NormsBoundDot(v: SparseVector, w: SparseVector)
    requires WellFormed(v) && WellFormed(w)
    ensures Merged(v, w, 0, 0) * Merged(v, w, 0, 0) <= SquaredNorm(v, 0) * SquaredNorm(w, 0)
  {
    CursorsBounded(v, w, 0, 0);
  }

  // The similarity is the dot product over the product of the norms, or 0 if one of them is.
  lemma CosineIsQuotient(v: SparseVector, w: SparseVector, sqrt: real -> real)
    requires WellFormed(v) && WellFormed(w)
    ensures
      var norms := sqrt(SquaredNorm(v, 0)) * sqrt(SquaredNorm(w, 0));
      if norms == 0.0 then CosineSimilarity(v, w, sqrt) == 0.0
      else CosineSimilarity(v, w, sqrt) * norms == Merged(v, w, 0, 0)
  {
  }

  // The similarity of any two vectors lies between -1 and 1.
  lemma CosineBounded(v: SparseVector, w: SparseVector, sqrt: real -> real)
    requires WellFormed(v) && WellFormed(w)
    requires forall x :: x >= 0.0 ==> sqrt(x) >= 0.0 && sqrt(x) * sqrt(x) == x
    ensures -1.0 <= CosineSimilarity(v, w, sqrt) <= 1.0
  {
    var a, b, d := SquaredNorm(v, 0), SquaredNorm(w, 0), Merged(v, w, 0, 0);
    var ra, rb := sqrt(a), sqrt(b);
    NormsBoundDot(v, w);
    QuotientBounded(d, a, b, ra, rb);
    assert CosineSimilarity(v, w, sqrt) == if ra * rb == 0.0 then 0.0 else d / (ra * rb);
  }

  // A vector that is not zero is similar to itself to degree 1.
  lemma CosineWithItself(v: SparseVector, sqrt: real -> real)
    requires WellFormed(v) && SquaredNorm(v, 0) != 0.0
    requires forall x :: x >= 0.0 ==> sqrt(x) >= 0.0 && sqrt(x) * sqrt(x) == x
    ensures CosineSimilarity(v, v, sqrt) == 1.0
  {
    NormIsOwnDot(v, 0);
    var a := SquaredNorm(v, 0);
    var r := sqrt(a) * sqrt(a);
    assert r == a && a / r == 1.0;
  }

  lemma QuotientBounded(d: real, a: real, b: real, ra: real, rb: real)
    requires ra >= 0.0 && rb >= 0.0 && ra * ra == a && rb * rb == b && d * d <= a * b
    ensures ra * rb != 0.0 ==> -1.0 <= d / (ra * rb) <= 1.0
  {
    var r := ra * rb;
    assert r >= 0.0 && r * r == a * b;
    SquareMonotone(d, r);
    if r > 0.0 {
      WithinOne(d, r);
    }
  }

  lemma WithinOne(d: real, r: real)
    requires r > 0.0 && -r <= d <= r
    ensures -1.0 <= d / r <= 1.0
  {
    var c := d / r;
    assert c * r == d;
    if c > 1.0 {
      Positive(c - 1.0, r);
    } else if c < -1.0 {
      Positive(-1.0 - c, r);
    }
  }
}
