/** Turning a map of scores into a list, best score first. */
module Ranking {
  import opened Ordering

  datatype Scored<+T> = Scored(id: string, score: real, detail: T)

  predicate Better<T>(a: Scored<T>, b: Scored<T>) { a.score > b.score }

  lemma BetterIsWeakOrder<T(!new)>()
    ensures WeakOrder<Scored<T>>(Better)
  {
  }

  ghost predicate BestFirst<T>(results: seq<Scored<T>>) {
    forall i, j :: 0 <= i < j < |results| ==> results[i].score >= results[j].score
  }

  // Every id once, with the value the map has for it.
  ghost predicate Lists<T>(results: seq<Scored<T>>, scores: map<string, Scored<T>>) {
    && |results| == |scores|
    && (forall i, j :: 0 <= i < j < |results| ==> results[i].id != results[j].id)
    && (forall i :: 0 <= i < |results| ==> results[i].id in scores && scores[results[i].id] == results[i])
    && (forall id :: id in scores ==> exists i :: 0 <= i < |results| && results[i].id == id)
  }

  lemma SortedBestFirst<T(!new)>(results: seq<Scored<T>>)
    ensures BestFirst(Sort(Better, results))
  {
    BetterIsWeakOrder<T>();
    SortSorts(Better, results);
    var sorted := Sort<Scored<T>>(Better, results);
    forall i, j | 0 <= i < j < |sorted|
      ensures sorted[i].score >= sorted[j].score
    {
      assert !Better(sorted[j], sorted[i]);
    }
  }

  lemma SortedLists<T(!new)>(results: seq<Scored<T>>, scores: map<string, Scored<T>>)
    requires Lists(results, scores)
    ensures Lists(Sort(Better, results), scores)
  {
    var sorted := Sort<Scored<T>>(Better, results);
    SortElements(Better, results);
    SortDistinct(Better, (s: Scored<T>) => s.id, results);
    SameElements(sorted, results);
    SameElements(results, sorted);
    forall i | 0 <= i < |sorted|
      ensures sorted[i].id in scores && scores[sorted[i].id] == sorted[i]
    {
      assert sorted[i] in results;
      var j: nat :| j < |results| && results[j] == sorted[i];
    }
    forall id | id in scores
      ensures exists i :: 0 <= i < |sorted| && sorted[i].id == id
    {
      var j :| 0 <= j < |results| && results[j].id == id;
      assert results[j] in sorted;
      var i: nat :| i < |sorted| && sorted[i] == results[j];
    }
  }

  method Rank<T(!new)>(scores: map<string, Scored<T>>) returns (results: seq<Scored<T>>)
    requires forall id :: id in scores ==> scores[id].id == id
    ensures Lists(results, scores) && BestFirst(results)
  {
    results := [];
    var rest := scores.Keys;
    while rest != {}
      invariant rest <= scores.Keys && |results| + |rest| == |scores.Keys|
      invariant forall i, j :: 0 <= i < j < |results| ==> results[i].id != results[j].id
      invariant forall i :: 0 <= i < |results| ==>
        results[i].id in scores && results[i].id !in rest && scores[results[i].id] == results[i]
      invariant forall id :: id in scores && id !in rest ==> exists i :: 0 <= i < |results| && results[i].id == id
    {
      var id :| id in rest;
      ghost var before := results;
      results := results + [scores[id]];
      assert results[|before|].id == id;
      assert forall i :: 0 <= i < |before| ==> results[i] == before[i];
      rest := rest - {id};
    }
    SortedLists(results, scores);
    SortedBestFirst(results);
    results := Sort(Better, results);
  }

  // The front of a list, as long as the limit allows.
  ghost predicate FrontOf<T>(results: seq<Scored<T>>, all: seq<Scored<T>>, limit: nat) {
    |results| == (if limit < |all| then limit else |all|) && results <= all
  }

  function Truncate<T>(results: seq<Scored<T>>, limit: nat): (kept: seq<Scored<T>>)
    ensures FrontOf(kept, results, limit)
  {
    if limit < |results| then results[..limit] else results
  }

  ghost function IdsOf<T>(results: seq<Scored<T>>): set<string> { set i | 0 <= i < |results| :: results[i].id }

  lemma {:induction false} DistinctCount<T>(results: seq<Scored<T>>)
    requires forall i, j :: 0 <= i < j < |results| ==> results[i].id != results[j].id
    ensures |IdsOf(results)| == |results|
  {
    if results != [] {
      var front, last := results[..|results| - 1], results[|results| - 1];
      DistinctCount(front);
      assert IdsOf(results) == IdsOf(front) + {last.id} by {
        assert forall i :: 0 <= i < |front| ==> front[i] == results[i];
      }
    }
  }

  // What is left out is left out because the limit is reached, and scores no higher than anything kept.
  lemma KeptAreBest<T>(results: seq<Scored<T>>, all: seq<Scored<T>>, scores: map<string, Scored<T>>, limit: nat,
                       id: string)
    requires Lists(all, scores) && BestFirst(all) && FrontOf(results, all, limit)
    requires id in scores && forall i :: 0 <= i < |results| ==> results[i].id != id
    ensures |results| == limit && forall i :: 0 <= i < |results| ==> scores[id].score <= results[i].score
  {
    assert forall j :: 0 <= j < |results| ==> results[j] == all[j];
    var i :| 0 <= i < |all| && all[i].id == id;
    assert i >= |results|;
  }
}
