/** Vocabularies and the sparse representation of a document's term frequencies. */
module SparseDocuments {
  import opened Ordering
  import opened SparseVectors
  import opened Wrappers

  datatype Document = Document(id: string, vector: SparseVector, length: real, frequencies: map<nat, real>)

  datatype Pair = Pair(index: nat, value: real)

  predicate IndexBefore(a: Pair, b: Pair) { a.index < b.index }

  ghost predicate Injective(vocabulary: map<string, nat>) {
    forall s, t :: s in vocabulary && t in vocabulary && vocabulary[s] == vocabulary[t] ==> s == t
  }

  ghost predicate InRange(vocabulary: map<string, nat>) {
    forall t :: t in vocabulary ==> vocabulary[t] < |vocabulary|
  }

  // Terms get the numbers from 0 in the order the set yields them.
  method BuildVocabulary(terms: set<string>) returns (vocabulary: map<string, nat>)
    ensures vocabulary.Keys == terms && Injective(vocabulary) && InRange(vocabulary)
  {
    vocabulary := map[];
    var rest := terms;
    while rest != {}
      invariant rest <= terms && vocabulary.Keys == terms - rest
      invariant Injective(vocabulary) && InRange(vocabulary)
    {
      var t :| t in rest;
      NumberNext(vocabulary, t);
      rest := rest - {t};
      vocabulary := vocabulary[t := |vocabulary|];
    }
  }

  lemma NumberNext(vocabulary: map<string, nat>, t: string)
    requires Injective(vocabulary) && InRange(vocabulary) && t !in vocabulary
    ensures var next := vocabulary[t := |vocabulary|];
      next.Keys == vocabulary.Keys + {t} && Injective(next) && InRange(next)
  {
    var next := vocabulary[t := |vocabulary|];
    assert next.Keys == vocabulary.Keys + {t};
    assert |next.Keys| == |vocabulary.Keys| + 1;
  }

  // ---------- From frequencies to a vector ----------

  ghost predicate Known(frequencies: map<string, real>, vocabulary: map<string, nat>, term: string) {
    term in frequencies && term in vocabulary
  }

  ghost predicate FromTerm(frequencies: map<string, real>, vocabulary: map<string, nat>, pending: set<string>, k: nat,
                           x: real)
  {
    exists t :: Known(frequencies, vocabulary, t) && t !in pending && vocabulary[t] == k && frequencies[t] == x
  }

  // The known terms that are not pending, as pairs and as a map.
  ghost predicate Collected(frequencies: map<string, real>, vocabulary: map<string, nat>, pending: set<string>,
                            pairs: seq<Pair>, byTerm: map<nat, real>)
  {
    && (forall i :: 0 <= i < |pairs| ==> FromTerm(frequencies, vocabulary, pending, pairs[i].index, pairs[i].value))
    && (forall k :: k in byTerm ==> FromTerm(frequencies, vocabulary, pending, k, byTerm[k]))
    && (forall t :: Known(frequencies, vocabulary, t) && t !in pending ==> Pair(vocabulary[t], frequencies[t]) in pairs)
    && (forall t :: Known(frequencies, vocabulary, t) && t !in pending ==> vocabulary[t] in byTerm)
    && (Injective(vocabulary) ==> DistinctBy((p: Pair) => p.index, pairs))
  }

  lemma CollectNext(frequencies: map<string, real>, vocabulary: map<string, nat>, pending: set<string>,
                    pairs: seq<Pair>, byTerm: map<nat, real>, t: string)
    requires Collected(frequencies, vocabulary, pending, pairs, byTerm) && t in pending &&
               Known(frequencies, vocabulary, t)
    ensures Collected(frequencies, vocabulary, pending - {t},
                      pairs + [Pair(vocabulary[t], frequencies[t])], byTerm[vocabulary[t] := frequencies[t]])
  {
    var k, x, pending' := vocabulary[t], frequencies[t], pending - {t};
    var pairs', byTerm' := pairs + [Pair(k, x)], byTerm[k := x];
    assert FromTerm(frequencies, vocabulary, pending', k, x);
    forall i | 0 <= i < |pairs|
      ensures FromTerm(frequencies, vocabulary, pending', pairs[i].index, pairs[i].value)
    {
      FromTermStays(frequencies, vocabulary, pending, pending', pairs[i].index, pairs[i].value);
    }
    forall m | m in byTerm
      ensures FromTerm(frequencies, vocabulary, pending', m, byTerm[m])
    {
      FromTermStays(frequencies, vocabulary, pending, pending', m, byTerm[m]);
    }
  }

  lemma FromTermStays(frequencies: map<string, real>, vocabulary: map<string, nat>, pending: set<string>,
                      pending': set<string>, k: nat, x: real)
    requires FromTerm(frequencies, vocabulary, pending, k, x) && pending' <= pending
    ensures FromTerm(frequencies, vocabulary, pending', k, x)
  {
    var t :| Known(frequencies, vocabulary, t) && t !in pending && vocabulary[t] == k && frequencies[t] == x;
    assert t !in pending';
  }

  function Unzip(pairs: seq<Pair>, dimension: nat): SparseVector {
    SparseVector(seq(|pairs|, i requires 0 <= i < |pairs| => pairs[i].index),
                 seq(|pairs|, i requires 0 <= i < |pairs| => pairs[i].value), dimension)
  }

  lemma {:induction false} AtEntry(v: SparseVector, from: nat, i: nat)
    requires WellFormed(v) && Increasing(v) && from <= i < |v.indices|
    ensures At(v, from, v.indices[i]) == v.values[i]
    decreases i - from
  {
    if from < i {
      AtEntry(v, from + 1, i);
    }
  }

  lemma SortedPairsIncrease(pairs: seq<Pair>, dimension: nat)
    requires DistinctBy((p: Pair) => p.index, pairs)
    ensures Increasing(Unzip(Sort(IndexBefore, pairs), dimension))
  {
    var sorted := Sort(IndexBefore, pairs);
    SortSorts(IndexBefore, pairs);
    SortDistinct(IndexBefore, (p: Pair) => p.index, pairs);
    forall i, j | 0 <= i < j < |sorted|
      ensures sorted[i].index < sorted[j].index
    {
      assert !IndexBefore(sorted[j], sorted[i]);
    }
  }

  // The vector holds every known term's frequency at its number and nothing else.
  ghost predicate Represents(d: Document, frequencies: map<string, real>, vocabulary: map<string, nat>)
    requires WellFormed(d.vector)
  {
    && Increasing(d.vector)
    && (forall t :: Known(frequencies, vocabulary, t) ==>
          vocabulary[t] in d.frequencies && d.frequencies[vocabulary[t]] == frequencies[t])
    && (forall k :: k in d.frequencies ==> FromTerm(frequencies, vocabulary, {}, k, d.frequencies[k]))
    && (forall k :: At(d.vector, 0, k) == if k in d.frequencies then d.frequencies[k] else 0.0)
  }

  // The entries of the sorted vector are the collected pairs.
  lemma EntriesArePairs(pairs: seq<Pair>, dimension: nat)
    ensures
      var v := Unzip(Sort(IndexBefore, pairs), dimension);
      && |v.indices| == |v.values|
      && (forall i :: 0 <= i < |v.indices| ==> Pair(v.indices[i], v.values[i]) in pairs)
      && (forall p :: p in pairs ==>
            exists i :: 0 <= i < |v.indices| && v.indices[i] == p.index && v.values[i] == p.value)
  {
    var sorted := Sort(IndexBefore, pairs);
    SortElements(IndexBefore, pairs);
    SameElements(pairs, sorted);
    SameElements(sorted, pairs);
    var v := Unzip(sorted, dimension);
    assert forall i :: 0 <= i < |sorted| ==> Pair(v.indices[i], v.values[i]) == sorted[i];
  }

  lemma VectorReads(frequencies: map<string, real>, vocabulary: map<string, nat>, pairs: seq<Pair>,
                    byTerm: map<nat, real>, v: SparseVector, k: nat)
    requires Collected(frequencies, vocabulary, {}, pairs, byTerm) && Injective(vocabulary)
    requires v == Unzip(Sort(IndexBefore, pairs), |vocabulary|) && WellFormed(v) && Increasing(v)
    ensures At(v, 0, k) == if k in byTerm then byTerm[k] else 0.0
  {
    EntriesArePairs(pairs, |vocabulary|);
    if k in byTerm {
      assert Pair(k, byTerm[k]) in pairs by { assert FromTerm(frequencies, vocabulary, {}, k, byTerm[k]); }
      var i :| 0 <= i < |v.indices| && v.indices[i] == k && v.values[i] == byTerm[k];
      AtEntry(v, 0, i);
    } else {
      forall i | 0 <= i < |v.indices|
        ensures v.indices[i] != k
      {
        PairIsKnown(frequencies, vocabulary, pairs, byTerm, Pair(v.indices[i], v.values[i]));
      }
      AtAbsent(v, 0, k);
    }
  }

  lemma PairIsKnown(frequencies: map<string, real>, vocabulary: map<string, nat>, pairs: seq<Pair>,
                    byTerm: map<nat, real>, p: Pair)
    requires Collected(frequencies, vocabulary, {}, pairs, byTerm) && p in pairs
    ensures FromTerm(frequencies, vocabulary, {}, p.index, p.value) && p.index in byTerm
  {
    var i :| 0 <= i < |pairs| && pairs[i] == p;
    assert FromTerm(frequencies, vocabulary, {}, pairs[i].index, pairs[i].value);
  }

  lemma VectorRepresents(d: Document, frequencies: map<string, real>, vocabulary: map<string, nat>, pairs: seq<Pair>)
    requires Collected(frequencies, vocabulary, {}, pairs, d.frequencies) && Injective(vocabulary)
    requires d.vector == Unzip(Sort(IndexBefore, pairs), |vocabulary|) && WellFormed(d.vector)
    ensures Represents(d, frequencies, vocabulary)
  {
    SortedPairsIncrease(pairs, |vocabulary|);
    forall k: nat {
      VectorReads(frequencies, vocabulary, pairs, d.frequencies, d.vector, k);
    }
    forall t | Known(frequencies, vocabulary, t)
      ensures d.frequencies[vocabulary[t]] == frequencies[t]
    {
      assert FromTerm(frequencies, vocabulary, {}, vocabulary[t], d.frequencies[vocabulary[t]]);
    }
  }

  // The vector is accepted exactly when the vocabulary numbers the document's known terms below its size.
  lemma VectorFits(frequencies: map<string, real>, vocabulary: map<string, nat>, pairs: seq<Pair>,
                   byTerm: map<nat, real>)
    requires Collected(frequencies, vocabulary, {}, pairs, byTerm)
    ensures WellFormed(Unzip(Sort(IndexBefore, pairs), |vocabulary|)) <==>
            forall t :: Known(frequencies, vocabulary, t) ==> vocabulary[t] < |vocabulary|
  {
    var v := Unzip(Sort(IndexBefore, pairs), |vocabulary|);
    EntriesArePairs(pairs, |vocabulary|);
    if WellFormed(v) {
      forall t | Known(frequencies, vocabulary, t)
        ensures vocabulary[t] < |vocabulary|
      {
        var p := Pair(vocabulary[t], frequencies[t]);
        assert p in pairs;
        var i :| 0 <= i < |v.indices| && v.indices[i] == p.index;
      }
    }
    if forall t :: Known(frequencies, vocabulary, t) ==> vocabulary[t] < |vocabulary| {
      forall i | 0 <= i < |v.indices|
        ensures v.indices[i] < |vocabulary|
      {
        PairIsKnown(frequencies, vocabulary, pairs, byTerm, Pair(v.indices[i], v.values[i]));
      }
    }
  }

  method Collect(frequencies: map<string, real>, vocabulary: map<string, nat>)
    returns (pairs: seq<Pair>, byTerm: map<nat, real>)
    ensures Collected(frequencies, vocabulary, {}, pairs, byTerm)
  {
    pairs, byTerm := [], map[];
    var rest := frequencies.Keys;
    while rest != {}
      invariant rest <= frequencies.Keys && Collected(frequencies, vocabulary, rest, pairs, byTerm)
    {
      var t :| t in rest;
      if t in vocabulary {
        CollectNext(frequencies, vocabulary, rest, pairs, byTerm, t);
        pairs := pairs + [Pair(vocabulary[t], frequencies[t])];
        byTerm := byTerm[vocabulary[t] := frequencies[t]];
      }
      rest := rest - {t};
    }
  }

  method DocumentToSparseVector(id: string, frequencies: map<string, real>, length: real, vocabulary: map<string, nat>)
    returns (r: Result<Document>)
    ensures r.Success? <==> forall t :: Known(frequencies, vocabulary, t) ==> vocabulary[t] < |vocabulary|
    ensures r.Success? ==> r.value.id == id && r.value.length == length && WellFormed(r.value.vector)
    ensures r.Success? && Injective(vocabulary) ==> Represents(r.value, frequencies, vocabulary)
  {
    var pairs, byTerm := Collect(frequencies, vocabulary);
    VectorFits(frequencies, vocabulary, pairs, byTerm);
    var v := Unzip(Sort(IndexBefore, pairs), |vocabulary|);
    var made := New(v.indices, v.values, |vocabulary|);
    if made.Failure? {
      return Failure(made.error);
    }
    var d := Document(id, made.value, length, byTerm);
    if Injective(vocabulary) {
      VectorRepresents(d, frequencies, vocabulary, pairs);
    }
    r := Success(d);
  }
}
