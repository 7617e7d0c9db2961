/** The HNSW vector index: slots, ids, batches, removal with renumbering, and the labels of a search. */
module VectorIndex {
  import opened Ordering
  import opened Wrappers

  type Vector = seq<real>

  datatype Item = Item(id: string, vector: Vector)

  datatype Hit = Hit(id: string, distance: real)

  datatype IndexError = DimensionMismatch(expected: nat, actual: nat) | IndexNotBuilt

  datatype Outcome<T> = Done(value: T) | Refused(error: IndexError)

  // What the graph library was built from: points and the labels handed in with them.
  datatype Built = Built(points: seq<Vector>, labels: seq<string>)

  // ---------- The labels of slots ----------

  function Label(slot: nat): string { "vec_" + Decimal(slot) }

  lemma LabelInjective(a: nat, b: nat)
    requires Label(a) == Label(b)
    ensures a == b
  {
    assert Label(a)[4..] == Decimal(a) && Label(b)[4..] == Decimal(b);
    DecimalInjective(a, b);
  }

  // ---------- What a batch stores ----------

  predicate Fits(dimension: Option<nat>, v: Vector) { dimension.None? || dimension.value == |v| }

  // How many leading items are stored before one has the wrong dimension.
  function Fitting(dimension: Option<nat>, items: seq<Item>): (n: nat)
    ensures n <= |items|
    decreases items
  {
    if items == [] || !Fits(dimension, items[0].vector) then 0
    else 1 + Fitting(Some(|items[0].vector|), items[1..])
  }

  function DimensionAfter(dimension: Option<nat>, items: seq<Item>): Option<nat> {
    if Fitting(dimension, items) == 0 then dimension else Some(|items[0].vector|)
  }

  function Stored(contents: map<string, Vector>, items: seq<Item>): map<string, Vector> {
    if items == [] then contents
    else Stored(contents, items[..|items| - 1])[items[|items| - 1].id := items[|items| - 1].vector]
  }

  // The last vector given for an id is the one kept.
  lemma {:induction false} LastStoredWins(contents: map<string, Vector>, items: seq<Item>, id: string)
    ensures id in Stored(contents, items) <==> id in contents || exists i :: 0 <= i < |items| && items[i].id == id
    ensures forall i :: 0 <= i < |items| && items[i].id == id && (forall j :: i < j < |items| ==> items[j].id != id) ==>
              Stored(contents, items)[id] == items[i].vector
    ensures id in contents && (forall i :: 0 <= i < |items| ==> items[i].id != id) ==>
              Stored(contents, items)[id] == contents[id]
  {
    if items != [] {
      var rest, last := items[..|items| - 1], items[|items| - 1];
      LastStoredWins(contents, rest, id);
      if last.id != id {
        forall i | 0 <= i < |items| && items[i].id == id && forall j :: i < j < |items| ==> items[j].id != id
          ensures Stored(contents, items)[id] == items[i].vector
        {
          assert rest[i].id == id && forall j :: i < j < |rest| ==> rest[j].id != id;
        }
      }
    }
  }

  // A batch is stored whole exactly when its vectors share one dimension, the index's own if it has one.
  lemma {:induction false} FittingAll(dimension: Option<nat>, items: seq<Item>)
    ensures Fitting(dimension, items) == |items| <==>
              && (forall i :: 0 <= i < |items| ==> Fits(dimension, items[i].vector))
              && (forall i :: 0 <= i < |items| ==> |items[i].vector| == |items[0].vector|)
    decreases items
  {
    if items != [] && Fits(dimension, items[0].vector) {
      var dim := Some(|items[0].vector|);
      FittingAll(dim, items[1..]);
      assert forall i :: 0 <= i < |items| - 1 ==> items[1..][i] == items[i + 1];
      assert (forall i :: 0 <= i < |items| ==> |items[i].vector| == |items[0].vector|) ==>
             (forall i :: 0 <= i < |items[1..]| ==> |items[1..][i].vector| == |items[0].vector|);
      if Fitting(dimension, items) == |items| {
        forall i | 0 <= i < |items|
          ensures |items[i].vector| == |items[0].vector|
        {
          if i > 0 {
            assert Fits(dim, items[1..][i - 1].vector);
          }
        }
      }
    }
  }

  // ---------- Listing by id ----------

  predicate IdBefore(a: Item, b: Item) { LexLess(a.id, b.id) }

  lemma IdBeforeWeakOrder()
    ensures WeakOrder(IdBefore)
  {
    forall a: Item, b: Item
      ensures IdBefore(a, b) ==> !IdBefore(b, a)
    {
      LexLessTotal(a.id, b.id);
    }
    forall a: Item, b: Item, c: Item | IdBefore(a, c)
      ensures IdBefore(a, b) || IdBefore(b, c)
    {
      LexLessTotal(a.id, b.id);
      if LexLess(b.id, a.id) {
        LexLessTransitive(b.id, a.id, c.id);
      }
    }
  }

  ghost predicate ListsContents(items: seq<Item>, contents: map<string, Vector>) {
    && (forall i :: 0 <= i < |items| ==> items[i].id in contents && contents[items[i].id] == items[i].vector)
    && (forall id :: id in contents ==> Item(id, contents[id]) in items)
  }

  lemma SortedListing(items: seq<Item>, contents: map<string, Vector>)
    requires ListsContents(items, contents) && DistinctBy((x: Item) => x.id, items)
    ensures var sorted := Sort(IdBefore, items);
      && ListsContents(sorted, contents)
      && |sorted| == |items|
      && (forall i, j :: 0 <= i < j < |sorted| ==> LexLess(sorted[i].id, sorted[j].id))
  {
    var sorted := Sort(IdBefore, items);
    SortElements(IdBefore, items);
    SameElements(sorted, items);
    assert ListsContents(sorted, contents) by {
      forall i | 0 <= i < |sorted|
        ensures sorted[i].id in contents && contents[sorted[i].id] == sorted[i].vector
      {
        assert sorted[i] in items;
      }
    }
    SortDistinct(IdBefore, (x: Item) => x.id, items);
    IdBeforeWeakOrder();
    SortSorts(IdBefore, items);
    forall i, j | 0 <= i < j < |sorted|
      ensures LexLess(sorted[i].id, sorted[j].id)
    {
      assert !IdBefore(sorted[j], sorted[i]);
      LexLessTotal(sorted[i].id, sorted[j].id);
    }
  }

  // ---------- Slots and their owners ----------

  ghost predicate Owned(ids: map<string, nat>, slot: nat) { exists id :: id in ids && ids[id] == slot }

  // Every id has one of the first `n` slots, and no two ids share one.
  ghost predicate OwnSlots(ids: map<string, nat>, n: nat) {
    && (forall id :: id in ids ==> ids[id] < n)
    && (forall a, b :: a in ids && b in ids && ids[a] == ids[b] ==> a == b)
  }

  ghost predicate OneDimension(vectors: seq<Vector>, dimension: Option<nat>) {
    forall i :: 0 <= i < |vectors| ==> dimension == Some(|vectors[i]|)
  }

  // The graph was built, correctly labelled, from the slots as they are or from fewer of them.
  ghost predicate Covers(hnsw: Option<Built>, vectors: seq<Vector>) {
    hnsw.Some? ==>
      && hnsw.value.points != [] && hnsw.value.points <= vectors
      && |hnsw.value.labels| == |hnsw.value.points|
      && forall i :: 0 <= i < |hnsw.value.labels| ==> hnsw.value.labels[i] == Label(i)
  }

  ghost function ContentsOf(ids: map<string, nat>, vectors: seq<Vector>): map<string, Vector>
    requires OwnSlots(ids, |vectors|)
  {
    map id | id in ids :: vectors[ids[id]]
  }

  lemma ContentsWithout(ids: map<string, nat>, vectors: seq<Vector>, id: string)
    requires OwnSlots(ids, |vectors|) && id in ids
    ensures var rest := ids - {id};
      OwnSlots(rest, |vectors|) && !Owned(rest, ids[id]) && ContentsOf(rest, vectors) == ContentsOf(ids, vectors) - {id}
  {
  }

  lemma ContentsWith(ids: map<string, nat>, vectors: seq<Vector>, item: Item)
    requires OwnSlots(ids, |vectors|)
    ensures var ids', vectors' := ids[item.id := |vectors|], vectors + [item.vector];
      OwnSlots(ids', |vectors'|) && ContentsOf(ids', vectors') == ContentsOf(ids, vectors)[item.id := item.vector]
  {
  }

  // The owners of the slots below `upTo` and their vectors, moved together in order.
  ghost predicate Renumbered(ids: map<string, nat>, vectors: seq<Vector>, upTo: nat, ids': map<string, nat>,
                             kept: seq<Vector>)
    requires OwnSlots(ids, |vectors|)
  {
    && (forall x :: x in ids' <==> x in ids && ids[x] < upTo)
    && (forall x :: x in ids' ==> ids'[x] < |kept| && kept[ids'[x]] == vectors[ids[x]])
    && (forall a, b :: a in ids' && b in ids' && ids[a] < ids[b] ==> ids'[a] < ids'[b])
    && (forall j :: 0 <= j < |kept| ==> Owned(ids', j))
  }

  lemma RenumberNext(ids: map<string, nat>, vectors: seq<Vector>, ids': map<string, nat>, kept: seq<Vector>, x: string)
    requires OwnSlots(ids, |vectors|)
    requires x in ids && Renumbered(ids, vectors, ids[x], ids', kept)
    ensures Renumbered(ids, vectors, ids[x] + 1, ids'[x := |kept|], kept + [vectors[ids[x]]])
  {
    var ids'', kept' := ids'[x := |kept|], kept + [vectors[ids[x]]];
    forall j | 0 <= j < |kept'|
      ensures Owned(ids'', j)
    {
      if j < |kept| {
        assert Owned(ids', j);
        var y :| y in ids' && ids'[y] == j;
        assert y in ids'' && ids''[y] == j;
      } else {
        assert ids''[x] == j;
      }
    }
  }

  lemma RenumberedContents(ids: map<string, nat>, vectors: seq<Vector>, ids': map<string, nat>, kept: seq<Vector>)
    requires OwnSlots(ids, |vectors|) && Renumbered(ids, vectors, |vectors|, ids', kept)
    ensures OwnSlots(ids', |kept|) && ContentsOf(ids', kept) == ContentsOf(ids, vectors)
  {
    assert forall a, b :: a in ids' && b in ids' && a != b ==> ids[a] < ids[b] || ids[b] < ids[a];
  }

  // ---------- The index ----------

  ghost predicate NoRepeats(slots: seq<nat>) { forall i, j :: 0 <= i < j < |slots| ==> slots[i] != slots[j] }

  ghost predicate Rising(places: seq<nat>, n: nat) {
    && (forall i :: 0 <= i < |places| ==> places[i] < n)
    && (forall i, j :: 0 <= i < j < |places| ==> places[i] < places[j])
  }

  // Every place below `n` whose slot has an owner is there.
  ghost predicate Complete(owned: set<nat>, places: seq<nat>, found: seq<nat>, n: nat) {
    forall p :: 0 <= p < n && p < |found| && found[p] in owned ==> p in places
  }

  // The places below `n` whose slot has an owner.
  function Picked(owned: set<nat>, found: seq<nat>, n: nat): seq<nat>
    requires n <= |found|
  {
    if n == 0 then []
    else Picked(owned, found, n - 1) + if found[n - 1] in owned then [n - 1] else []
  }

  lemma {:induction false} PickedRising(owned: set<nat>, found: seq<nat>, n: nat)
    requires n <= |found|
    ensures Rising(Picked(owned, found, n), n)
  {
    if n > 0 {
      PickedRising(owned, found, n - 1);
    }
  }

  lemma {:induction false} PickedComplete(owned: set<nat>, found: seq<nat>, n: nat, p: nat)
    requires p < n <= |found| && found[p] in owned
    ensures p in Picked(owned, found, n)
  {
    if p < n - 1 {
      PickedComplete(owned, found, n - 1, p);
    }
  }

  class HnswVectorIndex {
    var hnsw: Option<Built>
    var vectors: seq<Vector>
    var idToIndex: map<string, nat>
    var dimension: Option<nat>

    ghost predicate Valid()
      reads this
    {
      OwnSlots(idToIndex, |vectors|) && OneDimension(vectors, dimension) && Covers(hnsw, vectors)
    }

    // The graph covers every slot.
    ghost predicate Fresh()
      reads this
    {
      if vectors == [] then hnsw.None? else hnsw.Some? && hnsw.value.points == vectors
    }

    ghost function Contents(): (contents: map<string, Vector>)
      requires Valid()
      reads this
    {
      ContentsOf(idToIndex, vectors)
    }

    constructor (dim: Option<nat>)
      ensures Valid() && Fresh() && Contents() == map[] && dimension == dim
    {
      hnsw, vectors, idToIndex, dimension := None, [], map[], dim;
    }

    method BuildIndex()
      requires Valid()
      modifies `hnsw
      ensures Valid() && Contents() == old(Contents())
      ensures vectors != [] ==> Fresh()
      ensures vectors == [] ==> hnsw == old(hnsw)
    {
      if vectors == [] {
        return;
      }
      var labels: seq<string> := [];
      while |labels| < |vectors|
        invariant |labels| <= |vectors| && forall i :: 0 <= i < |labels| ==> labels[i] == Label(i)
      {
        labels := labels + [Label(|labels|)];
      }
      hnsw := Some(Built(vectors, labels));
    }

    // Puts an item that fits into a new slot; a slot its id had before stays behind without an owner.
    method Push(item: Item)
      requires Valid() && Fits(dimension, item.vector)
      modifies `vectors, `idToIndex, `dimension
      ensures Valid() && dimension == Some(|item.vector|)
      ensures vectors == old(vectors) + [item.vector] && idToIndex == old(idToIndex)[item.id := |old(vectors)|]
      ensures Contents() == old(Contents())[item.id := item.vector]
    {
      if dimension.None? {
        dimension := Some(|item.vector|);
      }
      ContentsWith(idToIndex, vectors, item);
      var index := |vectors|;
      vectors := vectors + [item.vector];
      idToIndex := idToIndex[item.id := index];
    }

    method AddVector(item: Item) returns (outcome: Outcome<()>)
      requires Valid()
      modifies this
      ensures Valid()
      ensures outcome.Done? <==> Fits(old(dimension), item.vector)
      ensures outcome.Done? ==>
                Fresh() && Contents() == old(Contents())[item.id := item.vector] && dimension == Some(|item.vector|)
      ensures outcome.Refused? ==>
                old(dimension).Some? && outcome.error == DimensionMismatch(old(dimension).value, |item.vector|)
      ensures outcome.Refused? ==>
        hnsw == old(hnsw) && vectors == old(vectors) && idToIndex == old(idToIndex) && dimension == old(dimension)
    {
      if dimension.Some? && dimension.value != |item.vector| {
        return Refused(DimensionMismatch(dimension.value, |item.vector|));
      }
      Push(item);
      BuildIndex();
      outcome := Done(());
    }

    // A batch that fails has stored the items before the one of the wrong dimension and not rebuilt the graph.
    method AddVectors(items: seq<Item>) returns (outcome: Outcome<()>)
      requires Valid()
      modifies this
      ensures Valid()
      ensures Contents() == Stored(old(Contents()), items[..Fitting(old(dimension), items)])
      ensures dimension == DimensionAfter(old(dimension), items)
      ensures outcome.Done? <==> Fitting(old(dimension), items) == |items|
      ensures outcome.Done? && (vectors != [] || old(Fresh())) ==> Fresh()
      ensures outcome.Refused? ==> hnsw == old(hnsw) && dimension.Some?
      ensures outcome.Refused? ==>
                outcome.error == DimensionMismatch(dimension.value, |items[Fitting(old(dimension), items)].vector|)
    {
      var i := 0;
      assert items[0..] == items;
      while i < |items|
        invariant 0 <= i <= |items| && Valid() && hnsw == old(hnsw)
        invariant Contents() == Stored(old(Contents()), items[..i])
        invariant Fitting(old(dimension), items) == i + Fitting(dimension, items[i..])
        invariant dimension == if i == 0 then old(dimension) else Some(|items[0].vector|)
        invariant i == 0 ==> vectors == old(vectors)
      {
        if dimension.Some? && dimension.value != |items[i].vector| {
          return Refused(DimensionMismatch(dimension.value, |items[i].vector|));
        }
        Push(items[i]);
        assert items[i..][1..] == items[i + 1..] && items[..i + 1][..i] == items[..i];
        i := i + 1;
      }
      assert items[..i] == items;
      BuildIndex();
      outcome := Done(());
    }

    method Renumber(rest: map<string, nat>, slot: nat) returns (updated: map<string, nat>, kept: seq<Vector>)
      requires OwnSlots(rest, |vectors|) && !Owned(rest, slot) && OneDimension(vectors, dimension)
      ensures Renumbered(rest, vectors, |vectors|, updated, kept) && OneDimension(kept, dimension)
    {
      updated, kept := map[], [];
      for i := 0 to |vectors|
        invariant Renumbered(rest, vectors, i, updated, kept) && OneDimension(kept, dimension)
      {
        if i != slot && exists x :: x in rest && rest[x] == i {
          var x :| x in rest && rest[x] == i;
          RenumberNext(rest, vectors, updated, kept, x);
          updated := updated[x := |kept|];
          kept := kept + [vectors[i]];
        }
      }
    }

    // The slots left move together, keeping their order; slots without an owner go.
    method RemoveVector(id: string) returns (found: bool)
      requires Valid()
      modifies this
      ensures Valid() && dimension == old(dimension)
      ensures found <==> id in old(idToIndex)
      ensures Contents() == old(Contents()) - {id}
      ensures found ==> Fresh() && Renumbered(old(idToIndex) - {id}, old(vectors), |old(vectors)|, idToIndex, vectors)
      ensures !found ==> vectors == old(vectors) && idToIndex == old(idToIndex) && hnsw == old(hnsw)
    {
      if id !in idToIndex {
        assert Contents() == Contents() - {id};
        return false;
      }
      var slot := idToIndex[id];
      var rest := idToIndex - {id};
      ContentsWithout(idToIndex, vectors, id);
      var updated, kept := Renumber(rest, slot);
      RenumberedContents(rest, vectors, updated, kept);
      vectors, idToIndex, hnsw := kept, updated, None;
      BuildIndex();
      found := true;
    }

    method Clear()
      modifies this
      ensures Valid() && Fresh() && Contents() == map[] && dimension == None
    {
      hnsw, vectors, idToIndex, dimension := None, [], map[], None;
    }

    // All ids with their vectors, sorted by id; no id misses its slot.
    method GetAllVectors() returns (items: seq<Item>)
      requires Valid()
      ensures ListsContents(items, Contents()) && |items| == |idToIndex|
      ensures forall i, j :: 0 <= i < j < |items| ==> LexLess(items[i].id, items[j].id)
    {
      items := [];
      var rest := idToIndex.Keys;
      while rest != {}
        invariant rest <= idToIndex.Keys && |items| + |rest| == |idToIndex.Keys|
        invariant forall i :: 0 <= i < |items| ==>
          items[i].id in idToIndex && items[i].id !in rest && Contents()[items[i].id] == items[i].vector
        invariant forall id :: id in idToIndex && id !in rest ==> Item(id, Contents()[id]) in items
        invariant DistinctBy((x: Item) => x.id, items)
      {
        var id :| id in rest;
        rest := rest - {id};
        items := items + [Item(id, vectors[idToIndex[id]])];
      }
      SortedListing(items, Contents());
      items := Sort(IdBefore, items);
    }

    method FindLabel(name: string) returns (owner: Option<string>)
      ensures owner.Some? ==> owner.value in idToIndex && Label(idToIndex[owner.value]) == name
      ensures owner.None? ==> forall id :: id in idToIndex ==> Label(idToIndex[id]) != name
    {
      var rest := idToIndex.Keys;
      while rest != {}
        invariant rest <= idToIndex.Keys
        invariant forall id :: id in idToIndex && id !in rest ==> Label(idToIndex[id]) != name
      {
        var id :| id in rest;
        if Label(idToIndex[id]) == name {
          return Some(id);
        }
        rest := rest - {id};
      }
      owner := None;
    }

    ghost predicate IsHit(hit: Hit, slot: nat, query: Vector, distance: (Vector, Vector) -> real)
      requires Valid()
      reads this
    {
      && hit.id in idToIndex && idToIndex[hit.id] == slot
      && hit.distance == distance(query, Contents()[hit.id])
    }

    // The hits are the current owners of the slots at these places, with the distances of their current vectors.
    ghost predicate Resolves(hits: seq<Hit>, places: seq<nat>, found: seq<nat>, query: Vector,
                             distance: (Vector, Vector) -> real)
      requires Valid()
      reads this
    {
      && |hits| == |places|
      && forall i :: 0 <= i < |hits| ==> places[i] < |found| && IsHit(hits[i], found[places[i]], query, distance)
    }

    // The hit a slot of the graph gives, if it still has an owner.
    method HitAt(query: Vector, slot: nat, distance: (Vector, Vector) -> real) returns (hit: Option<Hit>)
      requires Valid() && hnsw.Some? && slot < |hnsw.value.points|
      ensures hit.Some? <==> slot in idToIndex.Values
      ensures hit.Some? ==> IsHit(hit.value, slot, query, distance)
    {
      var owner := FindLabel(hnsw.value.labels[slot]);
      if owner == None {
        return None;
      }
      LabelInjective(idToIndex[owner.value], slot);
      hit := Some(Hit(owner.value, distance(query, hnsw.value.points[slot])));
    }

    method Resolve(query: Vector, results: seq<nat>, distance: (Vector, Vector) -> real)
      returns (hits: seq<Hit>, ghost places: seq<nat>)
      requires Valid() && hnsw.Some? && forall i :: 0 <= i < |results| ==> results[i] < |hnsw.value.points|
      ensures places == Picked(idToIndex.Values, results, |results|)
      ensures Resolves(hits, places, results, query, distance)
    {
      hits, places := [], [];
      for p := 0 to |results|
        invariant places == Picked(idToIndex.Values, results, p)
        invariant Resolves(hits, places, results, query, distance)
      {
        var hit := HitAt(query, results[p], distance);
        if hit.Some? {
          hits := hits + [hit.value];
          places := places + [p];
        }
      }
    }

    // `found` holds the graph's answer: places among the points it was built from, nearest first. Each of the
    // first `k` that still has an owner is reported, under that owner and with its current vector's distance.
    method Search(query: Vector, k: nat, found: seq<nat>, distance: (Vector, Vector) -> real)
        returns (outcome: Outcome<seq<Hit>>, ghost places: seq<nat>)
      requires Valid()
      requires hnsw.Some? ==> forall i :: 0 <= i < |found| ==> found[i] < |hnsw.value.points|
      ensures hnsw.None? ==> outcome == Refused(IndexNotBuilt)
      ensures hnsw.Some? ==> outcome.Done? && Rising(places, k) && Complete(idToIndex.Values, places, found, k)
      ensures hnsw.Some? ==> Resolves(outcome.value, places, found, query, distance)
      ensures outcome.Done? ==> |outcome.value| <= k
      ensures outcome.Done? && NoRepeats(found) ==>
        forall i, j :: 0 <= i < j < |outcome.value| ==> outcome.value[i].id != outcome.value[j].id
    {
      if hnsw.None? {
        return Refused(IndexNotBuilt), [];
      }
      var results := if k < |found| then found[..k] else found;
      var hits;
      hits, places := Resolve(query, results, distance);
      PickedRising(idToIndex.Values, results, |results|);
      forall p | 0 <= p < |results| && results[p] in idToIndex.Values {
        PickedComplete(idToIndex.Values, results, |results|, p);
      }
      AscendingFit(places, if k < |found| then k else |found|);
      outcome := Done(hits);
    }
  }

  lemma {:induction false} AscendingFit(places: seq<nat>, n: nat)
    requires forall i :: 0 <= i < |places| ==> places[i] < n
    requires forall i, j :: 0 <= i < j < |places| ==> places[i] < places[j]
    ensures |places| <= n
  {
    if places != [] {
      AscendingFit(places[..|places| - 1], places[|places| - 1]);
    }
  }
}
