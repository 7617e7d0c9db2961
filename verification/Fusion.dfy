/** Fusing the results of dense, sparse and text search into one list. */
module Fusion {
  import opened Ranking
  import opened Wrappers

  datatype Hit = Hit(id: string, score: real)

  datatype Breakdown = Breakdown(dense: Option<real>, sparse: Option<real>, text: Option<real>, total: real)

  type Entry = Scored<Breakdown>

  datatype Role = Dense | Sparse | Text

  datatype Strategy = Reciprocal(k: real) | Linear(dense: real, sparse: real, text: real)

  // The constant of reciprocal ranks is no negative whole number, by which a rank would divide by zero.
  predicate Sensible(w: Strategy) { w.Reciprocal? ==> w.k >= 0.0 || w.k != w.k.Floor as real }

  lemma NoZeroRank(k: real, rank: nat)
    requires Sensible(Reciprocal(k))
    ensures k + (rank + 1) as real != 0.0
  {
    var n := -(rank + 1);
    assert (n as real).Floor == n && n as real == -((rank + 1) as real);
  }

  function RoleWeight(w: Strategy, role: Role): real
    requires w.Linear?
  {
    match role case Dense => w.dense case Sparse => w.sparse case Text => w.text
  }

  // What a hit adds to its document's score.
  function Share(w: Strategy, role: Role, rank: nat, score: real): real
    requires Sensible(w)
  {
    match w
    case Reciprocal(k) =>
      NoZeroRank(k, rank);
      1.0 / (k + (rank + 1) as real)
    case Linear(_, _, _) => score * RoleWeight(w, role)
  }

  function Noted(b: Breakdown, role: Role, score: real, total: real): Breakdown {
    match role
    case Dense => b.(dense := Some(score), total := total)
    case Sparse => b.(sparse := Some(score), total := total)
    case Text => b.(text := Some(score), total := total)
  }

  function ScoreIn(b: Breakdown, role: Role): Option<real> {
    match role case Dense => b.dense case Sparse => b.sparse case Text => b.text
  }

  const NOTHING := Breakdown(None, None, None, 0.0)

  // A dense hit replaces what is there; the other hits add to it.
  function AddHit(w: Strategy, fused: map<string, Entry>, role: Role, rank: nat, hit: Hit): map<string, Entry>
    requires Sensible(w)
  {
    var share := Share(w, role, rank, hit.score);
    if role.Dense? || hit.id !in fused then
      fused[hit.id := Scored(hit.id, share, Noted(NOTHING, role, hit.score, share))]
    else
      var e := fused[hit.id];
      fused[hit.id := Scored(hit.id, e.score + share, Noted(e.detail, role, hit.score, e.score + share))]
  }

  function AddAll(w: Strategy, fused: map<string, Entry>, role: Role, hits: seq<Hit>): map<string, Entry>
    requires Sensible(w)
  {
    if hits == [] then fused
    else AddHit(w, AddAll(w, fused, role, hits[..|hits| - 1]), role, |hits| - 1, hits[|hits| - 1])
  }

  function Fused(w: Strategy, dense: seq<Hit>, sparse: seq<Hit>, text: seq<Hit>): map<string, Entry>
    requires Sensible(w)
  {
    AddAll(w, AddAll(w, AddAll(w, map[], Dense, dense), Sparse, sparse), Text, text)
  }

  method AddResults(w: Strategy, before: map<string, Entry>, role: Role, hits: seq<Hit>)
    returns (fused: map<string, Entry>)
    requires Sensible(w)
    ensures fused == AddAll(w, before, role, hits)
  {
    fused := before;
    for rank := 0 to |hits|
      invariant fused == AddAll(w, before, role, hits[..rank])
    {
      assert hits[..rank + 1][..rank] == hits[..rank];
      fused := AddHit(w, fused, role, rank, hits[rank]);
    }
    assert hits[..|hits|] == hits;
  }

  method Fuse(w: Strategy, dense: seq<Hit>, sparse: seq<Hit>, text: seq<Hit>) returns (results: seq<Entry>)
    requires Sensible(w)
    ensures Lists(results, Fused(w, dense, sparse, text)) && BestFirst(results)
  {
    var fused := AddResults(w, map[], Dense, dense);
    fused := AddResults(w, fused, Sparse, sparse);
    fused := AddResults(w, fused, Text, text);
    OwnIds(w, dense, sparse, text);
    results := Rank(fused);
  }

  // ---------- What a fused score is ----------

  ghost predicate Keyed(fused: map<string, Entry>) { forall id :: id in fused ==> fused[id].id == id }

  lemma {:induction false} AddAllKeyed(w: Strategy, fused: map<string, Entry>, role: Role, hits: seq<Hit>)
    requires Sensible(w) && Keyed(fused)
    ensures Keyed(AddAll(w, fused, role, hits))
  {
    if hits != [] {
      AddAllKeyed(w, fused, role, hits[..|hits| - 1]);
    }
  }

  lemma OwnIds(w: Strategy, dense: seq<Hit>, sparse: seq<Hit>, text: seq<Hit>)
    requires Sensible(w)
    ensures Keyed(Fused(w, dense, sparse, text))
  {
    AddAllKeyed(w, map[], Dense, dense);
    var afterDense := AddAll(w, map[], Dense, dense);
    AddAllKeyed(w, afterDense, Sparse, sparse);
    AddAllKeyed(w, AddAll(w, afterDense, Sparse, sparse), Text, text);
  }

  ghost predicate DistinctHits(hits: seq<Hit>) { forall i, j :: 0 <= i < j < |hits| ==> hits[i].id != hits[j].id }

  ghost predicate Found(hits: seq<Hit>, id: string) { exists i :: 0 <= i < |hits| && hits[i].id == id }

  // The position of an id, or the length of the list.
  function Place(hits: seq<Hit>, id: string): (place: nat)
    ensures place <= |hits|
    ensures place < |hits| ==> hits[place].id == id
    ensures forall i :: 0 <= i < place ==> hits[i].id != id
  {
    if hits == [] || hits[0].id == id then 0 else 1 + Place(hits[1..], id)
  }

  // What one list contributes to the score of an id.
  function Part(w: Strategy, role: Role, hits: seq<Hit>, id: string): real
    requires Sensible(w)
  {
    var place := Place(hits, id);
    if place < |hits| then Share(w, role, place, hits[place].score) else 0.0
  }

  function Prior(fused: map<string, Entry>, id: string): real { if id in fused then fused[id].score else 0.0 }

  function PriorDetail(fused: map<string, Entry>, id: string): Breakdown {
    if id in fused then fused[id].detail else NOTHING
  }

  ghost predicate TotalsAgree(fused: map<string, Entry>)
    { forall id :: id in fused ==> fused[id].detail.total == fused[id].score }

  lemma {:induction false} AddAllTotals(w: Strategy, fused: map<string, Entry>, role: Role, hits: seq<Hit>)
    requires Sensible(w) && TotalsAgree(fused)
    ensures TotalsAgree(AddAll(w, fused, role, hits))
  {
    if hits != [] {
      AddAllTotals(w, fused, role, hits[..|hits| - 1]);
    }
  }

  lemma {:induction false} AddAllScores(w: Strategy, fused: map<string, Entry>, role: Role, hits: seq<Hit>, id: string)
    requires Sensible(w) && DistinctHits(hits) && (role.Dense? ==> id !in fused)
    ensures
      var after := AddAll(w, fused, role, hits);
      && (id in after <==> id in fused || Place(hits, id) < |hits|)
      && Prior(after, id) == Prior(fused, id) + Part(w, role, hits, id)
  {
    if hits != [] {
      AddAllScores(w, fused, role, hits[..|hits| - 1], id);
      PlaceInFront(hits, id);
    }
  }

  // The score of the last hit of an id.
  function LastOf(hits: seq<Hit>, id: string): Option<real> {
    if hits == [] then None
    else if hits[|hits| - 1].id == id then Some(hits[|hits| - 1].score)
    else LastOf(hits[..|hits| - 1], id)
  }

  lemma {:induction false} AddAllDetails(w: Strategy, fused: map<string, Entry>, role: Role, hits: seq<Hit>,
                                         id: string, r: Role)
    requires Sensible(w)
    ensures ScoreIn(PriorDetail(AddAll(w, fused, role, hits), id), r) ==
            if LastOf(hits, id) == None then ScoreIn(PriorDetail(fused, id), r)
            else if r == role then LastOf(hits, id)
            else if role.Dense? then None
            else ScoreIn(PriorDetail(fused, id), r)
  {
    if hits != [] {
      var front, last := hits[..|hits| - 1], hits[|hits| - 1];
      AddAllDetails(w, fused, role, front, id, r);
      AddHitDetail(w, AddAll(w, fused, role, front), role, |front|, last, id, r);
    }
  }

  lemma AddHitDetail(w: Strategy, fused: map<string, Entry>, role: Role, rank: nat, hit: Hit, id: string, r: Role)
    requires Sensible(w)
    ensures ScoreIn(PriorDetail(AddHit(w, fused, role, rank, hit), id), r) ==
            if id != hit.id then ScoreIn(PriorDetail(fused, id), r)
            else if r == role then Some(hit.score)
            else if role.Dense? then None
            else ScoreIn(PriorDetail(fused, id), r)
  {
  }

  lemma PlaceInFront(hits: seq<Hit>, id: string)
    requires hits != [] && DistinctHits(hits)
    ensures
      var n := |hits| - 1;
      if hits[n].id == id then Place(hits, id) == n && Place(hits[..n], id) == n
      else if Place(hits[..n], id) < n then Place(hits, id) == Place(hits[..n], id)
      else Place(hits, id) == |hits|
  {
    var n := |hits| - 1;
    var front, p, q := hits[..n], Place(hits, id), Place(hits[..n], id);
    assert forall i :: 0 <= i < n ==> front[i] == hits[i];
    if q < n {
      assert hits[q].id == id;
    }
    if p < n {
      assert front[p].id == id;
    }
  }

  lemma FusedTotals(w: Strategy, dense: seq<Hit>, sparse: seq<Hit>, text: seq<Hit>)
    requires Sensible(w)
    ensures TotalsAgree(Fused(w, dense, sparse, text))
  {
    var afterDense := AddAll(w, map[], Dense, dense);
    AddAllTotals(w, map[], Dense, dense);
    AddAllTotals(w, afterDense, Sparse, sparse);
    AddAllTotals(w, AddAll(w, afterDense, Sparse, sparse), Text, text);
  }

  lemma FusedDetail(w: Strategy, dense: seq<Hit>, sparse: seq<Hit>, text: seq<Hit>, id: string, r: Role)
    requires Sensible(w)
    ensures ScoreIn(PriorDetail(Fused(w, dense, sparse, text), id), r) ==
            LastOf(match r case Dense => dense case Sparse => sparse case Text => text, id)
  {
    var afterDense := AddAll(w, map[], Dense, dense);
    AddAllDetails(w, map[], Dense, dense, id, r);
    AddAllDetails(w, afterDense, Sparse, sparse, id, r);
    AddAllDetails(w, AddAll(w, afterDense, Sparse, sparse), Text, text, id, r);
  }

  // Beside its score an id keeps the score of its last hit in each list, and its total.
  lemma FusedBreakdown(w: Strategy, dense: seq<Hit>, sparse: seq<Hit>, text: seq<Hit>, id: string)
    requires Sensible(w) && id in Fused(w, dense, sparse, text)
    ensures
      var e := Fused(w, dense, sparse, text)[id];
      e.detail == Breakdown(LastOf(dense, id), LastOf(sparse, id), LastOf(text, id), e.score)
  {
    FusedTotals(w, dense, sparse, text);
    FusedDetail(w, dense, sparse, text, id, Dense);
    FusedDetail(w, dense, sparse, text, id, Sparse);
    FusedDetail(w, dense, sparse, text, id, Text);
  }

  lemma {:induction false} LastIsOnly(hits: seq<Hit>, id: string)
    requires DistinctHits(hits)
    ensures LastOf(hits, id) == ScoreOf(hits, id)
  {
    if hits != [] {
      LastIsOnly(hits[..|hits| - 1], id);
      PlaceInFront(hits, id);
    }
  }

  lemma FusedSum(w: Strategy, dense: seq<Hit>, sparse: seq<Hit>, text: seq<Hit>, id: string)
    requires Sensible(w) && DistinctHits(dense) && DistinctHits(sparse) && DistinctHits(text)
    ensures
      var fused := Fused(w, dense, sparse, text);
      && (id in fused <==> Place(dense, id) < |dense| || Place(sparse, id) < |sparse| || Place(text, id) < |text|)
      && Prior(fused, id) == Total(w, dense, sparse, text, id)
  {
    var afterDense := AddAll(w, map[], Dense, dense);
    AddAllScores(w, map[], Dense, dense, id);
    AddAllScores(w, afterDense, Sparse, sparse, id);
    AddAllScores(w, AddAll(w, afterDense, Sparse, sparse), Text, text, id);
  }

  // Every id of the three lists is there, with the sum of what the lists contribute, with that sum as
  // its total, and with the score of each list that has it.
  lemma FusedScores(w: Strategy, dense: seq<Hit>, sparse: seq<Hit>, text: seq<Hit>, id: string)
    requires Sensible(w) && DistinctHits(dense) && DistinctHits(sparse) && DistinctHits(text)
    ensures
      var fused := Fused(w, dense, sparse, text);
      && (id in fused <==> Found(dense, id) || Found(sparse, id) || Found(text, id))
      && (id in fused ==>
            && fused[id].score == Total(w, dense, sparse, text, id)
            && fused[id].detail ==
                 Breakdown(ScoreOf(dense, id), ScoreOf(sparse, id), ScoreOf(text, id), fused[id].score))
  {
    FusedSum(w, dense, sparse, text, id);
    FoundAtPlace(dense, id);
    FoundAtPlace(sparse, id);
    FoundAtPlace(text, id);
    var fused := Fused(w, dense, sparse, text);
    if id in fused {
      FusedBreakdown(w, dense, sparse, text, id);
      LastIsOnly(dense, id);
      LastIsOnly(sparse, id);
      LastIsOnly(text, id);
    }
  }

  function Total(w: Strategy, dense: seq<Hit>, sparse: seq<Hit>, text: seq<Hit>, id: string): real
    requires Sensible(w)
  {
    Part(w, Dense, dense, id) + Part(w, Sparse, sparse, id) + Part(w, Text, text, id)
  }

  function ScoreOf(hits: seq<Hit>, id: string): Option<real> {
    var place := Place(hits, id);
    if place < |hits| then Some(hits[place].score) else None
  }

  lemma FoundAtPlace(hits: seq<Hit>, id: string)
    ensures Found(hits, id) <==> Place(hits, id) < |hits|
  {
    var p := Place(hits, id);
    if p < |hits| {
      assert hits[p].id == id;
    }
  }

  // ---------- The scores written out, for any lists ----------

  // One over k plus the rank, counted from 1, added up over all hits of an id.
  function ReciprocalSum(k: real, hits: seq<Hit>, id: string): real
    requires Sensible(Reciprocal(k))
  {
    if hits == [] then 0.0
    else
      NoZeroRank(k, |hits| - 1);
      ReciprocalSum(k, hits[..|hits| - 1], id) + if hits[|hits| - 1].id == id then 1.0 / (k + |hits| as real) else 0.0
  }

  // The same for the last hit of an id only.
  function LastReciprocal(k: real, hits: seq<Hit>, id: string): real
    requires Sensible(Reciprocal(k))
  {
    if hits == [] then 0.0
    else
      NoZeroRank(k, |hits| - 1);
      if hits[|hits| - 1].id == id then 1.0 / (k + |hits| as real) else LastReciprocal(k, hits[..|hits| - 1], id)
  }

  // The weighed scores of all hits of an id.
  function WeightedSum(weight: real, hits: seq<Hit>, id: string): real {
    if hits == [] then 0.0
    else
      WeightedSum(weight, hits[..|hits| - 1], id) +
      if hits[|hits| - 1].id == id then hits[|hits| - 1].score * weight else 0.0
  }

  function LastWeighted(weight: real, hits: seq<Hit>, id: string): real {
    if hits == [] then 0.0
    else if hits[|hits| - 1].id == id then hits[|hits| - 1].score * weight
    else LastWeighted(weight, hits[..|hits| - 1], id)
  }

  lemma FoundNext(hits: seq<Hit>, id: string)
    requires hits != []
    ensures Found(hits, id) <==> Found(hits[..|hits| - 1], id) || hits[|hits| - 1].id == id
  {
    var n := |hits| - 1;
    assert forall i :: 0 <= i < n ==> hits[..n][i] == hits[i];
  }

  // The same in terms of what a hit adds.
  function ShareSum(w: Strategy, role: Role, hits: seq<Hit>, id: string): real
    requires Sensible(w)
  {
    if hits == [] then 0.0
    else
      var n := |hits| - 1;
      ShareSum(w, role, hits[..n], id) + if hits[n].id == id then Share(w, role, n, hits[n].score) else 0.0
  }

  function LastShare(w: Strategy, role: Role, hits: seq<Hit>, id: string): real
    requires Sensible(w)
  {
    if hits == [] then 0.0
    else
      var n := |hits| - 1;
      if hits[n].id == id then Share(w, role, n, hits[n].score) else LastShare(w, role, hits[..n], id)
  }

  lemma {:induction false} AddAllShares(w: Strategy, fused: map<string, Entry>, role: Role, hits: seq<Hit>, id: string)
    requires Sensible(w)
    ensures
      var after := AddAll(w, fused, role, hits);
      && (id in after <==> id in fused || Found(hits, id))
      && Prior(after, id) ==
         if role.Dense? then if Found(hits, id) then LastShare(w, role, hits, id) else Prior(fused, id)
         else Prior(fused, id) + ShareSum(w, role, hits, id)
  {
    if hits != [] {
      AddAllShares(w, fused, role, hits[..|hits| - 1], id);
      FoundNext(hits, id);
    }
  }

  lemma {:induction false} NoShares(w: Strategy, role: Role, hits: seq<Hit>, id: string)
    requires Sensible(w) && !Found(hits, id)
    ensures LastShare(w, role, hits, id) == 0.0
  {
    if hits != [] {
      FoundNext(hits, id);
      NoShares(w, role, hits[..|hits| - 1], id);
    }
  }

  lemma FusedShares(w: Strategy, dense: seq<Hit>, sparse: seq<Hit>, text: seq<Hit>, id: string)
    requires Sensible(w)
    ensures
      var fused := Fused(w, dense, sparse, text);
      && (id in fused <==> Found(dense, id) || Found(sparse, id) || Found(text, id))
      && Prior(fused, id) ==
           LastShare(w, Dense, dense, id) + ShareSum(w, Sparse, sparse, id) + ShareSum(w, Text, text, id)
  {
    var afterDense := AddAll(w, map[], Dense, dense);
    AddAllShares(w, map[], Dense, dense, id);
    AddAllShares(w, afterDense, Sparse, sparse, id);
    AddAllShares(w, AddAll(w, afterDense, Sparse, sparse), Text, text, id);
    if !Found(dense, id) {
      NoShares(w, Dense, dense, id);
    }
  }

  lemma {:induction false} ReciprocalShares(k: real, role: Role, hits: seq<Hit>, id: string)
    requires Sensible(Reciprocal(k))
    ensures ShareSum(Reciprocal(k), role, hits, id) == ReciprocalSum(k, hits, id)
    ensures LastShare(Reciprocal(k), role, hits, id) == LastReciprocal(k, hits, id)
  {
    if hits != [] {
      ReciprocalShares(k, role, hits[..|hits| - 1], id);
    }
  }

  lemma {:induction false} LinearShares(w: Strategy, weight: real, role: Role, hits: seq<Hit>, id: string)
    requires w.Linear? && weight == match role case Dense => w.dense case Sparse => w.sparse case Text => w.text
    ensures ShareSum(w, role, hits, id) == WeightedSum(weight, hits, id)
    ensures LastShare(w, role, hits, id) == LastWeighted(weight, hits, id)
  {
    if hits != [] {
      var n := |hits| - 1;
      LinearShares(w, weight, role, hits[..n], id);
      assert Share(w, role, n, hits[n].score) == hits[n].score * weight;
    }
  }

  lemma {:induction false} NotFoundReciprocal(k: real, hits: seq<Hit>, id: string)
    requires Sensible(Reciprocal(k)) && !Found(hits, id)
    ensures LastReciprocal(k, hits, id) == ReciprocalSum(k, hits, id) == 0.0
  {
    if hits != [] {
      FoundNext(hits, id);
      NotFoundReciprocal(k, hits[..|hits| - 1], id);
    }
  }

  // Reciprocal rank fusion of any three lists: the last dense hit of an id, and all its other hits, each with
  // one over k plus its rank.
  lemma FusedReciprocals(k: real, dense: seq<Hit>, sparse: seq<Hit>, text: seq<Hit>, id: string)
    requires Sensible(Reciprocal(k))
    ensures
      var fused := Fused(Reciprocal(k), dense, sparse, text);
      && (id in fused <==> Found(dense, id) || Found(sparse, id) || Found(text, id))
      && (id in fused ==>
            fused[id].score == LastReciprocal(k, dense, id) + ReciprocalSum(k, sparse, id) + ReciprocalSum(k, text, id))
  {
    FusedShares(Reciprocal(k), dense, sparse, text, id);
    ReciprocalShares(k, Dense, dense, id);
    ReciprocalShares(k, Sparse, sparse, id);
    ReciprocalShares(k, Text, text, id);
  }

  // The place of an id in a list, or any place behind it if it is not there.
  ghost predicate Stands(hits: seq<Hit>, id: string, i: nat) {
    if i < |hits| then hits[i].id == id else !Found(hits, id)
  }

  lemma {:induction false} ReciprocalAt(k: real, hits: seq<Hit>, id: string, i: nat)
    requires Sensible(Reciprocal(k)) && DistinctHits(hits) && Stands(hits, id, i)
    ensures k + (i + 1) as real != 0.0
    ensures LastReciprocal(k, hits, id) == ReciprocalSum(k, hits, id) ==
            if i < |hits| then 1.0 / (k + (i + 1) as real) else 0.0
  {
    NoZeroRank(k, i);
    var n := |hits| - 1;
    if i >= |hits| {
      NotFoundReciprocal(k, hits, id);
    } else if i < n {
      ReciprocalAt(k, hits[..n], id, i);
    } else {
      assert !Found(hits[..n], id);
      NotFoundReciprocal(k, hits[..n], id);
    }
  }

  // Of distinct ids: one over k plus the rank in each list that has the id.
  lemma FusedAtRanks(k: real, dense: seq<Hit>, sparse: seq<Hit>, text: seq<Hit>, id: string, a: nat, b: nat, c: nat)
    requires Sensible(Reciprocal(k)) && DistinctHits(dense) && DistinctHits(sparse) && DistinctHits(text)
    requires Stands(dense, id, a) && Stands(sparse, id, b) && Stands(text, id, c)
    requires a < |dense| || b < |sparse| || c < |text|
    ensures k + (a + 1) as real != 0.0 && k + (b + 1) as real != 0.0 && k + (c + 1) as real != 0.0
    ensures
      var fused := Fused(Reciprocal(k), dense, sparse, text);
      id in fused && fused[id].score ==
        (if a < |dense| then 1.0 / (k + (a + 1) as real) else 0.0)
        + (if b < |sparse| then 1.0 / (k + (b + 1) as real) else 0.0)
        + (if c < |text| then 1.0 / (k + (c + 1) as real) else 0.0)
  {
    FusedReciprocals(k, dense, sparse, text, id);
    ReciprocalAt(k, dense, id, a);
    ReciprocalAt(k, sparse, id, b);
    ReciprocalAt(k, text, id, c);
    assert a < |dense| ==> Found(dense, id);
  }

  lemma {:induction false} NotFoundWeighted(weight: real, hits: seq<Hit>, id: string)
    requires !Found(hits, id)
    ensures LastWeighted(weight, hits, id) == WeightedSum(weight, hits, id) == 0.0
  {
    if hits != [] {
      FoundNext(hits, id);
      NotFoundWeighted(weight, hits[..|hits| - 1], id);
    }
  }

  // Linear fusion of any three lists: the last dense hit of an id, and all its other hits, each with its
  // weighed score.
  lemma FusedLinear(x: real, y: real, z: real, dense: seq<Hit>, sparse: seq<Hit>, text: seq<Hit>, id: string)
    ensures
      var fused := Fused(Linear(x, y, z), dense, sparse, text);
      && (id in fused <==> Found(dense, id) || Found(sparse, id) || Found(text, id))
      && (id in fused ==>
            fused[id].score == LastWeighted(x, dense, id) + WeightedSum(y, sparse, id) + WeightedSum(z, text, id))
  {
    var w := Linear(x, y, z);
    FusedShares(w, dense, sparse, text, id);
    LinearShares(w, x, Dense, dense, id);
    LinearShares(w, y, Sparse, sparse, id);
    LinearShares(w, z, Text, text, id);
  }

  lemma {:induction false} WeightedAt(weight: real, hits: seq<Hit>, id: string, i: nat)
    requires DistinctHits(hits) && Stands(hits, id, i)
    ensures LastWeighted(weight, hits, id) == WeightedSum(weight, hits, id) ==
            if i < |hits| then hits[i].score * weight else 0.0
  {
    var n := |hits| - 1;
    if i >= |hits| {
      NotFoundWeighted(weight, hits, id);
    } else if i < n {
      WeightedAt(weight, hits[..n], id, i);
    } else {
      assert !Found(hits[..n], id);
      NotFoundWeighted(weight, hits[..n], id);
    }
  }

  // Of distinct ids: the weighed score in each list that has the id.
  lemma FusedWeighted(x: real, y: real, z: real, dense: seq<Hit>, sparse: seq<Hit>, text: seq<Hit>, id: string,
                      a: nat, b: nat, c: nat)
    requires DistinctHits(dense) && DistinctHits(sparse) && DistinctHits(text)
    requires Stands(dense, id, a) && Stands(sparse, id, b) && Stands(text, id, c)
    requires a < |dense| || b < |sparse| || c < |text|
    ensures
      var fused := Fused(Linear(x, y, z), dense, sparse, text);
      id in fused && fused[id].score ==
        (if a < |dense| then dense[a].score * x else 0.0)
        + (if b < |sparse| then sparse[b].score * y else 0.0)
        + (if c < |text| then text[c].score * z else 0.0)
  {
    FusedLinear(x, y, z, dense, sparse, text, id);
    WeightedAt(x, dense, id, a);
    WeightedAt(y, sparse, id, b);
    WeightedAt(z, text, id, c);
    assert a < |dense| ==> Found(dense, id);
  }

  // ---------- Properties of the reciprocal ranks ----------

  lemma ReciprocalIgnoresRole(k: real, role: Role, role': Role, hits: seq<Hit>, id: string)
    requires Sensible(Reciprocal(k))
    ensures Part(Reciprocal(k), role, hits, id) == Part(Reciprocal(k), role', hits, id)
  {
  }

  // The fused scores do not depend on which list plays which role.
  lemma RolesInterchangeable(k: real, a: seq<Hit>, b: seq<Hit>, c: seq<Hit>, id: string)
    requires Sensible(Reciprocal(k)) && DistinctHits(a) && DistinctHits(b) && DistinctHits(c)
    ensures
      var w := Reciprocal(k);
      && Prior(Fused(w, a, b, c), id) == Prior(Fused(w, b, a, c), id)
      && Prior(Fused(w, a, b, c), id) == Prior(Fused(w, c, b, a), id)
      && Prior(Fused(w, a, b, c), id) == Prior(Fused(w, a, c, b), id)
  {
    var w := Reciprocal(k);
    FusedScores(w, a, b, c, id);
    FusedScores(w, b, a, c, id);
    FusedScores(w, c, b, a, id);
    FusedScores(w, a, c, b, id);
    ReciprocalIgnoresRole(k, Dense, Sparse, a, id);
    ReciprocalIgnoresRole(k, Dense, Text, a, id);
    ReciprocalIgnoresRole(k, Dense, Sparse, b, id);
    ReciprocalIgnoresRole(k, Dense, Text, b, id);
    ReciprocalIgnoresRole(k, Dense, Sparse, c, id);
    ReciprocalIgnoresRole(k, Dense, Text, c, id);
  }

  lemma Reciprocals(x: real, y: real)
    requires 0.0 < x < y
    ensures 0.0 < 1.0 / y < 1.0 / x
  {
    var p, q := 1.0 / x, 1.0 / y;
    assert p * x == 1.0 && q * y == 1.0;
    assert p > 0.0 && q > 0.0;
    assert (y - x) * (p * q) == p * (q * y) - q * (p * x);
    assert p * q > 0.0 && (y - x) * (p * q) > 0.0;
  }

  // A document placed before another wherever the other appears never scores less, and scores more if
  // the other appears at all.
  lemma AheadScoresMore(k: real, role: Role, hits: seq<Hit>, first: string, second: string)
    requires k > -1.0 && Sensible(Reciprocal(k)) &&
               (Place(hits, first) < Place(hits, second) || Place(hits, second) == |hits|)
    ensures Part(Reciprocal(k), role, hits, second) <= Part(Reciprocal(k), role, hits, first)
    ensures Place(hits, second) < |hits| ==>
              Part(Reciprocal(k), role, hits, second) < Part(Reciprocal(k), role, hits, first)
  {
    var p, q := Place(hits, first), Place(hits, second);
    if q < |hits| {
      Reciprocals(k + (p + 1) as real, k + (q + 1) as real);
    }
  }

  ghost predicate Ahead(hits: seq<Hit>, first: string, second: string) {
    Place(hits, first) < Place(hits, second) || Place(hits, second) == |hits|
  }

  lemma Dominance(k: real, dense: seq<Hit>, sparse: seq<Hit>, text: seq<Hit>, first: string, second: string)
    requires k > -1.0 && Sensible(Reciprocal(k)) && DistinctHits(dense) && DistinctHits(sparse) && DistinctHits(text)
    requires Ahead(dense, first, second) && Ahead(sparse, first, second) && Ahead(text, first, second)
    requires second in Fused(Reciprocal(k), dense, sparse, text)
    ensures
      var fused := Fused(Reciprocal(k), dense, sparse, text);
      first in fused && fused[first].score > fused[second].score
  {
    var w := Reciprocal(k);
    FusedScores(w, dense, sparse, text, first);
    FusedScores(w, dense, sparse, text, second);
    AheadScoresMore(k, Dense, dense, first, second);
    AheadScoresMore(k, Sparse, sparse, first, second);
    AheadScoresMore(k, Text, text, first, second);
    FoundAtPlace(dense, second);
    FoundAtPlace(sparse, second);
    FoundAtPlace(text, second);
    FoundAtPlace(dense, first);
    FoundAtPlace(sparse, first);
    FoundAtPlace(text, first);
  }

  // ---------- Normalised scores ----------

  function Highest(hits: seq<Hit>): (m: real)
    requires hits != []
    ensures forall i :: 0 <= i < |hits| ==> hits[i].score <= m
    ensures exists i :: 0 <= i < |hits| && hits[i].score == m
  {
    if |hits| == 1 then hits[0].score
    else
      var rest := Highest(hits[1..]);
      assert forall i :: 0 < i < |hits| ==> hits[i] == hits[1..][i - 1];
      if hits[0].score >= rest then hits[0].score else rest
  }

  function Lowest(hits: seq<Hit>): (m: real)
    requires hits != []
    ensures forall i :: 0 <= i < |hits| ==> m <= hits[i].score
    ensures exists i :: 0 <= i < |hits| && hits[i].score == m
  {
    if |hits| == 1 then hits[0].score
    else
      var rest := Lowest(hits[1..]);
      assert forall i :: 0 < i < |hits| ==> hits[i] == hits[1..][i - 1];
      if hits[0].score <= rest then hits[0].score else rest
  }

  function Scaled(score: real, low: real, high: real): real {
    if high - low > 0.0 then (score - low) / (high - low) else 1.0
  }

  function Normalize(hits: seq<Hit>): seq<Hit> {
    if hits == [] then []
    else
      var low, high := Lowest(hits), Highest(hits);
      seq(|hits|, i requires 0 <= i < |hits| => Hit(hits[i].id, Scaled(hits[i].score, low, high)))
  }

  lemma Quotients(x: real, y: real, r: real)
    requires r > 0.0
    ensures x < y <==> x / r < y / r
    ensures 0.0 <= x <= r ==> 0.0 <= x / r <= 1.0
    ensures r / r == 1.0
  {
    var p, q := x / r, y / r;
    assert p * r == x && q * r == y;
    assert (q - p) * r == y - x;
    if p < q {
      assert (q - p) * r > 0.0;
    } else {
      assert (p - q) * r >= 0.0;
    }
    if p > 1.0 {
      assert (p - 1.0) * r > 0.0;
    }
  }

  // The ids stay in place; scores lie between 0 and 1, the best is 1, the worst is 0 unless it is the best
  // too, and the order is kept.
  lemma NormalizedScores(hits: seq<Hit>, i: nat, j: nat)
    requires i < |hits| && j < |hits|
    ensures
      var normal := Normalize(hits);
      && |normal| == |hits|
      && normal[i].id == hits[i].id
      && 0.0 <= normal[i].score <= 1.0
      && (hits[i].score == Highest(hits) ==> normal[i].score == 1.0)
      && (hits[i].score == Lowest(hits) < Highest(hits) ==> normal[i].score == 0.0)
      && (hits[i].score < hits[j].score <==> normal[i].score < normal[j].score)
  {
    ScaledScores(hits[i].score, hits[j].score, Lowest(hits), Highest(hits));
  }

  lemma ScaledScores(x: real, y: real, low: real, high: real)
    requires low <= x <= high && low <= y <= high
    ensures 0.0 <= Scaled(x, low, high) <= 1.0
    ensures x == high ==> Scaled(x, low, high) == 1.0
    ensures x == low < high ==> Scaled(x, low, high) == 0.0
    ensures x < y <==> Scaled(x, low, high) < Scaled(y, low, high)
  {
    if high > low {
      Quotients(x - low, y - low, high - low);
      QuotientsApart(x - low, y - low, high - low);
    }
  }

  // Each score is scaled by the lowest and the highest of its list.
  lemma NormalizedAt(hits: seq<Hit>, i: nat)
    requires i < |hits|
    ensures |Normalize(hits)| == |hits|
    ensures Normalize(hits)[i] == Hit(hits[i].id, Scaled(hits[i].score, Lowest(hits), Highest(hits)))
  {
  }

  // Scaling shrinks differences in proportion to the range.
  lemma ScaledInProportion(x: real, y: real, low: real, high: real)
    requires low <= x <= high && low <= y <= high
    ensures (Scaled(x, low, high) - Scaled(y, low, high)) * (high - low) == x - y
  {
    if high > low {
      QuotientsApart(x - low, y - low, high - low);
    }
  }

  lemma QuotientsApart(x: real, y: real, r: real)
    requires r > 0.0
    ensures (x / r - y / r) * r == x - y
    ensures x == 0.0 ==> x / r == 0.0
  {
    var p, q := x / r, y / r;
    assert p * r == x && q * r == y;
    assert (p - q) * r == p * r - q * r;
  }

  lemma NormalizedPlaces(hits: seq<Hit>, id: string)
    ensures Found(Normalize(hits), id) <==> Found(hits, id)
    ensures DistinctHits(hits) ==> DistinctHits(Normalize(hits))
  {
    var normal := Normalize(hits);
    assert |normal| == |hits| && forall i :: 0 <= i < |hits| ==> normal[i].id == hits[i].id;
    if Found(hits, id) {
      var i :| 0 <= i < |hits| && hits[i].id == id;
      assert normal[i].id == id;
    }
    if Found(normal, id) {
      var i :| 0 <= i < |hits| && normal[i].id == id;
      assert hits[i].id == id;
    }
  }

  // The most a list can contribute to the score of an id.
  ghost function Most(w: Strategy, role: Role, hits: seq<Hit>, id: string): real
    requires w.Linear?
  {
    if Found(hits, id) then RoleWeight(w, role) else 0.0
  }

  lemma PartOfNormalized(w: Strategy, role: Role, hits: seq<Hit>, id: string)
    requires w.Linear? && RoleWeight(w, role) >= 0.0
    ensures 0.0 <= Part(w, role, Normalize(hits), id) <= Most(w, role, hits, id)
  {
    var normal := Normalize(hits);
    var place := Place(normal, id);
    NormalizedPlaces(hits, id);
    FoundAtPlace(normal, id);
    if place < |normal| {
      NormalizedScores(hits, place, place);
      LinearShare(w, role, place, normal[place].score);
    }
  }

  lemma LinearShare(w: Strategy, role: Role, rank: nat, score: real)
    requires w.Linear? && RoleWeight(w, role) >= 0.0 && 0.0 <= score <= 1.0
    ensures 0.0 <= Share(w, role, rank, score) <= RoleWeight(w, role)
  {
    var weight := RoleWeight(w, role);
    Fraction(score, weight);
    assert Share(w, role, rank, score) == score * weight;
  }

  lemma Fraction(x: real, y: real)
    requires 0.0 <= x <= 1.0 && y >= 0.0
    ensures 0.0 <= x * y <= y
  {
    assert (1.0 - x) * y >= 0.0;
    assert (1.0 - x) * y == y - x * y;
  }

  // With weights that are not negative, a document scores between 0 and the sum of the weights of the
  // lists that have it.
  lemma NormalizedFusionBounded(w: Strategy, dense: seq<Hit>, sparse: seq<Hit>, text: seq<Hit>, id: string)
    requires w.Linear? && DistinctHits(dense) && DistinctHits(sparse) && DistinctHits(text)
    ensures
      var fused := Fused(w, Normalize(dense), Normalize(sparse), Normalize(text));
      && (id in fused <==> Found(dense, id) || Found(sparse, id) || Found(text, id))
      && (id in fused && w.dense >= 0.0 && w.sparse >= 0.0 && w.text >= 0.0 ==>
            0.0 <= fused[id].score <= MostOf(w, dense, sparse, text, id))
  {
    NormalizedPlaces(dense, id);
    NormalizedPlaces(sparse, id);
    NormalizedPlaces(text, id);
    FusedScores(w, Normalize(dense), Normalize(sparse), Normalize(text), id);
    if w.dense >= 0.0 && w.sparse >= 0.0 && w.text >= 0.0 {
      PartOfNormalized(w, Dense, dense, id);
      PartOfNormalized(w, Sparse, sparse, id);
      PartOfNormalized(w, Text, text, id);
    }
  }

  ghost function MostOf(w: Strategy, dense: seq<Hit>, sparse: seq<Hit>, text: seq<Hit>, id: string): real
    requires w.Linear?
  {
    Most(w, Dense, dense, id) + Most(w, Sparse, sparse, id) + Most(w, Text, text, id)
  }

  // Of lists of distinct ids the caller gets the union, best first, each document with the linearly fused
  // score of the normalised lists, bounded as above.
  method FuseNormalized(dense: seq<Hit>, sparse: seq<Hit>, text: seq<Hit>, denseWeight: real, sparseWeight: real,
                        textWeight: real)
    returns (results: seq<Entry>)
    ensures BestFirst(results) && forall i, j :: 0 <= i < j < |results| ==> results[i].id != results[j].id
    ensures
      var w := Linear(denseWeight, sparseWeight, textWeight);
      Lists(results, Fused(w, Normalize(dense), Normalize(sparse), Normalize(text)))
    ensures DistinctHits(dense) && DistinctHits(sparse) && DistinctHits(text) ==>
      forall id ::
        Found(dense, id) || Found(sparse, id) || Found(text, id) <==>
          exists i :: 0 <= i < |results| && results[i].id == id
    ensures DistinctHits(dense) && DistinctHits(sparse) && DistinctHits(text) ==>
      denseWeight >= 0.0 && sparseWeight >= 0.0 && textWeight >= 0.0 ==>
        forall i :: 0 <= i < |results| ==>
          0.0 <= results[i].score <=
            MostOf(Linear(denseWeight, sparseWeight, textWeight), dense, sparse, text, results[i].id)
  {
    var w := Linear(denseWeight, sparseWeight, textWeight);
    results := Fuse(w, Normalize(dense), Normalize(sparse), Normalize(text));
    if DistinctHits(dense) && DistinctHits(sparse) && DistinctHits(text) {
      forall id {
        NormalizedFusionBounded(w, dense, sparse, text, id);
      }
    }
  }
}
