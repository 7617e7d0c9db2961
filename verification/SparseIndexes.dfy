/** The inverted index with its statistics, and BM25 search over it. */
module SparseIndexes {
  import opened Ranking
  import opened SparseDocuments
  import opened SparseVectors

  datatype Entry = Entry(id: string, frequency: real, length: real)

  type Postings = map<nat, seq<Entry>>

  // Logarithm and division as the machine has them.
  datatype Arithmetic = Arithmetic(ln: real -> real, div: (real, real) -> real)

  datatype Parameters = Parameters(k1: real, b: real)

  // ---------- Scores ----------

  // What all documents of one search share.
  datatype Context = Context(arithmetic: Arithmetic, parameters: Parameters, documents: nat, averageLength: real)

  function Idf(c: Context, documentFrequency: nat): real {
    var n, d := c.documents as real, documentFrequency as real;
    c.arithmetic.ln(c.arithmetic.div(n - d + 0.5, d + 0.5))
  }

  function Bm25(c: Context, queryFrequency: real, frequency: real, length: real, idf: real): real {
    var k1, b := c.parameters.k1, c.parameters.b;
    var relative := c.arithmetic.div(length, c.averageLength);
    queryFrequency * c.arithmetic.div(frequency * (k1 + 1.0), frequency + k1 * (1.0 - b + b * relative)) * idf
  }

  // What a posting list adds to the score of `id`.
  function ListScore(c: Context, queryFrequency: real, idf: real, list: seq<Entry>, id: string): real {
    if list == [] then 0.0
    else
      var last := list[|list| - 1];
      ListScore(c, queryFrequency, idf, list[..|list| - 1], id) +
      if last.id == id then Bm25(c, queryFrequency, last.frequency, last.length, idf) else 0.0
  }

  function ListOf(postings: Postings, term: nat): seq<Entry> { if term in postings then postings[term] else [] }

  // The document frequency a search uses.
  function FrequencyOf(frequencies: map<nat, nat>, term: nat): nat {
    if term in frequencies then frequencies[term] else 1
  }

  // What the first `n` query terms add to the score of `id`.
  function QueryScore(c: Context, postings: Postings, frequencies: map<nat, nat>, query: SparseVector, n: nat,
                      id: string): real
    requires WellFormed(query) && n <= |query.indices|
  {
    if n == 0 then 0.0
    else
      var term := query.indices[n - 1];
      QueryScore(c, postings, frequencies, query, n - 1, id) +
      ListScore(c, query.values[n - 1], Idf(c, FrequencyOf(frequencies, term)), ListOf(postings, term), id)
  }

  ghost predicate Mentions(list: seq<Entry>, id: string) { exists i :: 0 <= i < |list| && list[i].id == id }

  ghost predicate Matches(postings: Postings, query: SparseVector, n: nat, id: string)
    requires WellFormed(query) && n <= |query.indices|
  {
    exists i :: 0 <= i < n && Mentions(ListOf(postings, query.indices[i]), id)
  }

  function Prior(scores: map<string, real>, id: string): real { if id in scores then scores[id] else 0.0 }

  method AddList(c: Context, before: map<string, real>, queryFrequency: real, idf: real, list: seq<Entry>)
      returns (scores: map<string, real>)
    ensures forall id :: id in scores <==> id in before || Mentions(list, id)
    ensures forall id :: Prior(scores, id) == Prior(before, id) + ListScore(c, queryFrequency, idf, list, id)
  {
    scores := before;
    for i := 0 to |list|
      invariant forall id :: id in scores <==> id in before || Mentions(list[..i], id)
      invariant forall id :: Prior(scores, id) == Prior(before, id) + ListScore(c, queryFrequency, idf, list[..i], id)
    {
      var e := list[i];
      MentionsNext(list, i);
      assert list[..i + 1][..i] == list[..i];
      scores := scores[e.id := Prior(scores, e.id) + Bm25(c, queryFrequency, e.frequency, e.length, idf)];
    }
    assert list[..|list|] == list;
  }

  lemma MentionsNext(list: seq<Entry>, n: nat)
    requires n < |list|
    ensures forall id :: Mentions(list[..n + 1], id) <==> Mentions(list[..n], id) || id == list[n].id
  {
    forall id
      ensures Mentions(list[..n + 1], id) <==> Mentions(list[..n], id) || id == list[n].id
    {
      if id == list[n].id {
        assert list[..n + 1][n].id == id;
      } else if Mentions(list[..n + 1], id) {
        var i :| 0 <= i < n + 1 && list[..n + 1][i].id == id;
        assert list[..n][i].id == id;
      }
      if Mentions(list[..n], id) {
        var i :| 0 <= i < n && list[..n][i].id == id;
        assert list[..n + 1][i].id == id;
      }
    }
  }

  // ---------- Changes to the postings ----------

  function RemoveFirst(list: seq<Entry>, id: string): seq<Entry> {
    if list == [] then []
    else if list[0].id == id then list[1..]
    else [list[0]] + RemoveFirst(list[1..], id)
  }

  lemma MentionsTail(list: seq<Entry>, id: string)
    requires list != []
    ensures Mentions(list, id) <==> list[0].id == id || Mentions(list[1..], id)
  {
    var tail := list[1..];
    assert forall i :: 0 <= i < |tail| ==> tail[i] == list[i + 1];
    assert forall i :: 0 < i < |list| ==> list[i] == tail[i - 1];
  }

  lemma {:induction false} RemoveFirstLength(list: seq<Entry>, id: string)
    ensures |RemoveFirst(list, id)| == |list| - if Mentions(list, id) then 1 else 0
  {
    if list != [] {
      MentionsTail(list, id);
      RemoveFirstLength(list[1..], id);
    }
  }

  function SumLengths(list: seq<Entry>): real {
    if list == [] then 0.0 else SumLengths(list[..|list| - 1]) + list[|list| - 1].length
  }

  ghost function SomeTerm(postings: Postings): (t: nat)
    requires postings != map[]
    ensures t in postings
  {
    var t :| t in postings;
    t
  }

  // The lengths of all entries, a document's length once for each of its terms.
  ghost function TotalLength(postings: Postings): real
    decreases |postings|
  {
    if postings == map[] then 0.0
    else
      var t := SomeTerm(postings);
      assert |(postings - {t}).Keys| < |postings.Keys|;
      SumLengths(postings[t]) + TotalLength(postings - {t})
  }

  // The order in which the lists are added up does not matter.
  lemma {:induction false} TotalTakesAny(postings: Postings, t: nat)
    requires t in postings
    ensures TotalLength(postings) == SumLengths(postings[t]) + TotalLength(postings - {t})
    decreases |postings|
  {
    var u := SomeTerm(postings);
    if u != t {
      assert |(postings - {u}).Keys| < |postings.Keys|;
      TotalTakesAny(postings - {u}, t);
      assert postings - {u} - {t} == postings - {t} - {u};
      assert |(postings - {t}).Keys| < |postings.Keys|;
      TotalTakesAny(postings - {t}, u);
    }
  }

  method SumAllLengths(postings: Postings) returns (total: real)
    ensures total == TotalLength(postings)
  {
    total := 0.0;
    var rest := postings;
    while rest != map[]
      invariant total + TotalLength(rest) == TotalLength(postings)
      decreases |rest|
    {
      var t :| t in rest;
      TotalTakesAny(rest, t);
      assert |(rest - {t}).Keys| < |rest.Keys|;
      var sum := SumList(rest[t]);
      total := total + sum;
      rest := rest - {t};
    }
  }

  method SumList(list: seq<Entry>) returns (sum: real)
    ensures sum == SumLengths(list)
  {
    sum := 0.0;
    for i := 0 to |list|
      invariant sum == SumLengths(list[..i])
    {
      assert list[..i + 1][..i] == list[..i];
      sum := sum + list[i].length;
    }
    assert list[..|list|] == list;
  }

  // ---------- The index ----------

  function Average(a: Arithmetic, total: real, documents: nat): real {
    if documents > 0 then a.div(total, documents as real) else 0.0
  }

  function WithEntry(postings: Postings, t: nat, e: Entry): Postings { postings[t := ListOf(postings, t) + [e]] }

  function EntryFor(d: Document, t: nat): Entry
    requires t in d.frequencies
  {
    Entry(d.id, d.frequencies[t], d.length)
  }

  function Added(postings: Postings, d: Document): Postings {
    map t | t in postings.Keys + d.frequencies.Keys ::
      if t in d.frequencies then ListOf(postings, t) + [EntryFor(d, t)] else postings[t]
  }

  function Counted(frequencies: map<nat, nat>, d: Document): map<nat, nat> {
    map t | t in frequencies.Keys + d.frequencies.Keys ::
      (if t in frequencies then frequencies[t] else 0) + if t in d.frequencies then 1 else 0
  }

  function Removed(postings: Postings, id: string): Postings { map t | t in postings :: RemoveFirst(postings[t], id) }

  // A term has a document frequency exactly while its list has entries, and at least their number.
  ghost predicate Covers(postings: Postings, frequencies: map<nat, nat>, t: nat) {
    && (t in frequencies <==> t in postings && postings[t] != [])
    && (t in frequencies ==> frequencies[t] >= |postings[t]|)
  }

  ghost predicate FrequenciesCover(postings: Postings, frequencies: map<nat, nat>) {
    forall t :: Covers(postings, frequencies, t)
  }

  lemma AddedCovers(postings: Postings, frequencies: map<nat, nat>, d: Document)
    requires FrequenciesCover(postings, frequencies)
    ensures FrequenciesCover(Added(postings, d), Counted(frequencies, d))
  {
    forall t
      ensures Covers(Added(postings, d), Counted(frequencies, d), t)
    {
      assert Covers(postings, frequencies, t);
    }
  }

  // A list becomes empty by the removal.
  predicate Empties(postings: Postings, id: string, t: nat) {
    t in postings && postings[t] != [] && RemoveFirst(postings[t], id) == []
  }

  function EmptiedIn(postings: Postings, frequencies: map<nat, nat>, id: string, terms: set<nat>): map<nat, nat> {
    map t | t in frequencies && !(t in terms && Empties(postings, id, t)) :: frequencies[t]
  }

  function Emptied(postings: Postings, frequencies: map<nat, nat>, id: string): map<nat, nat> {
    EmptiedIn(postings, frequencies, id, postings.Keys)
  }

  lemma RemovedCovers(postings: Postings, frequencies: map<nat, nat>, id: string)
    requires FrequenciesCover(postings, frequencies)
    ensures FrequenciesCover(Removed(postings, id), Emptied(postings, frequencies, id))
  {
    forall t
      ensures Covers(Removed(postings, id), Emptied(postings, frequencies, id), t)
    {
      assert Covers(postings, frequencies, t);
      RemoveFirstLength(ListOf(postings, t), id);
    }
  }

  function OnlyTerms(d: Document, terms: set<nat>): Document {
    d.(frequencies := map t | t in d.frequencies && t in terms :: d.frequencies[t])
  }

  lemma AddedNext(postings: Postings, d: Document, done: set<nat>, t: nat)
    requires t in d.frequencies && t !in done
    ensures WithEntry(Added(postings, OnlyTerms(d, done)), t, EntryFor(d, t)) ==
              Added(postings, OnlyTerms(d, done + {t}))
  {
  }

  lemma CountedNext(frequencies: map<nat, nat>, d: Document, done: set<nat>, t: nat)
    requires t in d.frequencies && t !in done
    ensures
      var before := Counted(frequencies, OnlyTerms(d, done));
      before[t := (if t in before then before[t] else 0) + 1] == Counted(frequencies, OnlyTerms(d, done + {t}))
  {
  }

  function RemovedIn(postings: Postings, id: string, terms: set<nat>): Postings {
    map t | t in postings :: if t in terms then RemoveFirst(postings[t], id) else postings[t]
  }

  lemma RemovedNext(postings: Postings, id: string, done: set<nat>, t: nat)
    requires t in postings && t !in done
    ensures RemovedIn(postings, id, done)[t := RemoveFirst(postings[t], id)] == RemovedIn(postings, id, done + {t})
  {
  }

  lemma EmptiedNext(postings: Postings, frequencies: map<nat, nat>, id: string, done: set<nat>, t: nat)
    ensures EmptiedIn(postings, frequencies, id, done + {t}) ==
            if Empties(postings, id, t) then EmptiedIn(postings, frequencies, id, done) - {t}
            else EmptiedIn(postings, frequencies, id, done)
  {
  }

  ghost predicate MentionedIn(postings: Postings, id: string, terms: set<nat>) {
    exists t :: t in terms && t in postings && Mentions(postings[t], id)
  }

  lemma MentionedNext(postings: Postings, id: string, done: set<nat>, t: nat)
    requires t in postings
    ensures MentionedIn(postings, id, done + {t}) <==> MentionedIn(postings, id, done) || Mentions(postings[t], id)
  {
    if Mentions(postings[t], id) {
      assert t in done + {t};
    }
  }

  // Every document that matches, once, with its score.
  ghost predicate Answers(c: Context, postings: Postings, frequencies: map<nat, nat>, query: SparseVector,
                          all: seq<Scored<()>>)
    requires WellFormed(query)
  {
    && (forall i, j :: 0 <= i < j < |all| ==> all[i].id != all[j].id)
    && (forall i :: 0 <= i < |all| ==>
          && Matches(postings, query, |query.indices|, all[i].id)
          && all[i].score == QueryScore(c, postings, frequencies, query, |query.indices|, all[i].id))
    && (forall id :: Matches(postings, query, |query.indices|, id) ==> exists i :: 0 <= i < |all| && all[i].id == id)
  }

  // The documents some list of the query mentions.
  ghost function MatchingIds(postings: Postings, query: SparseVector): set<string>
    requires WellFormed(query)
  {
    set m, i | 0 <= m < |query.indices| && 0 <= i < |ListOf(postings, query.indices[m])| ::
      ListOf(postings, query.indices[m])[i].id
  }

  lemma AnswersCount(c: Context, postings: Postings, frequencies: map<nat, nat>, query: SparseVector,
                     all: seq<Scored<()>>)
    requires WellFormed(query) && Answers(c, postings, frequencies, query, all)
    ensures |all| == |MatchingIds(postings, query)|
  {
    DistinctCount(all);
    forall id
      ensures id in IdsOf(all) <==> id in MatchingIds(postings, query)
    {
      MatchingIff(postings, query, id);
      if Matches(postings, query, |query.indices|, id) {
        var i :| 0 <= i < |all| && all[i].id == id;
      }
    }
    assert IdsOf(all) == MatchingIds(postings, query);
  }

  lemma MatchingIff(postings: Postings, query: SparseVector, id: string)
    requires WellFormed(query)
    ensures id in MatchingIds(postings, query) <==> Matches(postings, query, |query.indices|, id)
  {
  }

  lemma RankedAnswers(c: Context, postings: Postings, frequencies: map<nat, nat>, query: SparseVector,
                      scores: map<string, real>, all: seq<Scored<()>>)
    requires WellFormed(query)
    requires forall id :: id in scores <==> Matches(postings, query, |query.indices|, id)
    requires forall id :: Prior(scores, id) == QueryScore(c, postings, frequencies, query, |query.indices|, id)
    requires Lists(all, map id | id in scores :: Scored(id, scores[id], ()))
    ensures Answers(c, postings, frequencies, query, all)
  {
    forall i | 0 <= i < |all|
      ensures all[i].id in scores && all[i].score == Prior(scores, all[i].id)
    {
    }
    forall id | id in scores
      ensures exists i :: 0 <= i < |all| && all[i].id == id
    {
      assert id in map id | id in scores :: Scored(id, scores[id], ());
    }
  }

  class SparseIndex {
    const arithmetic: Arithmetic
    const parameters: Parameters
    var postings: Postings
    var frequencies: map<nat, nat>
    var documents: nat
    var averageLength: real
    var vocabularySize: nat

    ghost predicate Valid()
      reads this
    {
      && FrequenciesCover(postings, frequencies)
      && vocabularySize == |frequencies|
      && averageLength == Average(arithmetic, TotalLength(postings), documents)
    }

    constructor (a: Arithmetic, p: Parameters)
      ensures Valid() && arithmetic == a && parameters == p
      ensures postings == map[] && frequencies == map[] && documents == 0
    {
      arithmetic, parameters := a, p;
      postings, frequencies, documents, averageLength, vocabularySize := map[], map[], 0, 0.0, 0;
    }

    method AddDocument(d: Document)
      requires Valid()
      modifies this
      ensures Valid()
      ensures postings == Added(old(postings), d)
      ensures frequencies == Counted(old(frequencies), d)
      ensures documents == old(documents) + 1
    {
      assert FrequenciesCover(Added(postings, d), Counted(frequencies, d)) by { AddedCovers(postings, frequencies, d); }
      AddEntries(d);
      CountTerms(d);
      assert FrequenciesCover(postings, frequencies);
      documents := documents + 1;
      Recount();
    }

    method Recount()
      modifies `averageLength, `vocabularySize
      ensures vocabularySize == |frequencies|
      ensures averageLength == Average(arithmetic, TotalLength(postings), documents)
    {
      vocabularySize := |frequencies|;
      var total := SumAllLengths(postings);
      averageLength := if documents > 0 then arithmetic.div(total, documents as real) else 0.0;
    }

    method AddEntries(d: Document)
      modifies `postings
      ensures postings == Added(old(postings), d)
    {
      var rest := d.frequencies.Keys;
      while rest != {}
        invariant rest <= d.frequencies.Keys
        invariant postings == Added(old(postings), OnlyTerms(d, d.frequencies.Keys - rest))
      {
        var t :| t in rest;
        AddedNext(old(postings), d, d.frequencies.Keys - rest, t);
        postings := WithEntry(postings, t, EntryFor(d, t));
        assert d.frequencies.Keys - (rest - {t}) == d.frequencies.Keys - rest + {t};
        rest := rest - {t};
      }
      assert OnlyTerms(d, d.frequencies.Keys - rest) == d;
    }

    method CountTerms(d: Document)
      modifies `frequencies
      ensures frequencies == Counted(old(frequencies), d)
    {
      var rest := d.frequencies.Keys;
      while rest != {}
        invariant rest <= d.frequencies.Keys
        invariant frequencies == Counted(old(frequencies), OnlyTerms(d, d.frequencies.Keys - rest))
      {
        var t :| t in rest;
        CountedNext(old(frequencies), d, d.frequencies.Keys - rest, t);
        frequencies := frequencies[t := (if t in frequencies then frequencies[t] else 0) + 1];
        assert d.frequencies.Keys - (rest - {t}) == d.frequencies.Keys - rest + {t};
        rest := rest - {t};
      }
      assert OnlyTerms(d, d.frequencies.Keys - rest) == d;
    }

    method RemoveDocument(id: string) returns (removed: bool)
      requires Valid()
      modifies this
      ensures Valid()
      ensures removed <==> MentionedIn(old(postings), id, old(postings).Keys)
      ensures postings == Removed(old(postings), id)
      ensures frequencies == Emptied(old(postings), old(frequencies), id)
      ensures documents == if removed && old(documents) > 0 then old(documents) - 1 else old(documents)
    {
      removed := RemoveEntries(id);
      RemovedCovers(old(postings), old(frequencies), id);
      if removed {
        documents := if documents > 0 then documents - 1 else 0;
        Recount();
      } else {
        NothingRemoved(old(postings), old(frequencies), id);
      }
    }

    method RemoveEntries(id: string) returns (removed: bool)
      modifies `postings, `frequencies
      ensures removed <==> MentionedIn(old(postings), id, old(postings).Keys)
      ensures postings == Removed(old(postings), id)
      ensures frequencies == Emptied(old(postings), old(frequencies), id)
    {
      removed := false;
      var rest := postings.Keys;
      ghost var done: set<nat> := {};
      assert RemovedIn(postings, id, {}) == postings;
      while rest != {}
        invariant done !! rest && done + rest == old(postings).Keys
        invariant postings == RemovedIn(old(postings), id, done)
        invariant removed <==> MentionedIn(old(postings), id, done)
        invariant frequencies == EmptiedIn(old(postings), old(frequencies), id, done)
      {
        var t :| t in rest;
        RemoveFirstLength(postings[t], id);
        RemovedNext(old(postings), id, done, t);
        MentionedNext(old(postings), id, done, t);
        EmptiedNext(old(postings), old(frequencies), id, done, t);
        var list := RemoveFirst(postings[t], id);
        if |list| != |postings[t]| {
          removed := true;
          if list == [] {
            frequencies := frequencies - {t};
          }
        } else {
          assert list == [] ==> postings[t] == [];
        }
        postings := postings[t := list];
        rest, done := rest - {t}, done + {t};
      }
    }

    function SearchContext(): Context
      reads this
    {
      Context(arithmetic, parameters, documents, averageLength)
    }

    // The best `limit` of the documents whose lists the query meets, each with the sum of what the
    // query's terms find for it.
    method SearchBm25(query: SparseVector, limit: nat) returns (results: seq<Scored<()>>, ghost all: seq<Scored<()>>)
      requires Valid() && WellFormed(query)
      ensures documents == 0 ==> results == []
      ensures documents > 0 ==> Answers(SearchContext(), postings, frequencies, query, all) && BestFirst(all)
      ensures documents > 0 ==> |all| == |MatchingIds(postings, query)| && FrontOf(results, all, limit)
    {
      if documents == 0 {
        return [], [];
      }
      var scores := ScoreAll(query);
      var ranked := Rank(map id | id in scores :: Scored(id, scores[id], ()));
      all := ranked;
      RankedAnswers(SearchContext(), postings, frequencies, query, scores, ranked);
      AnswersCount(SearchContext(), postings, frequencies, query, ranked);
      results := Truncate(ranked, limit);
    }

    method ScoreAll(query: SparseVector) returns (scores: map<string, real>)
      requires WellFormed(query)
      ensures forall id :: id in scores <==> Matches(postings, query, |query.indices|, id)
      ensures forall id :: Prior(scores, id) ==
                QueryScore(SearchContext(), postings, frequencies, query, |query.indices|, id)
    {
      var c := Context(arithmetic, parameters, documents, averageLength);
      scores := map[];
      for n := 0 to |query.indices|
        invariant forall id :: id in scores <==> Matches(postings, query, n, id)
        invariant forall id :: Prior(scores, id) == QueryScore(c, postings, frequencies, query, n, id)
      {
        var term := query.indices[n];
        MatchesNext(postings, query, n);
        if term in postings {
          scores := AddList(c, scores, query.values[n], Idf(c, FrequencyOf(frequencies, term)), postings[term]);
        }
      }
    }
  }

  lemma MatchesNext(postings: Postings, query: SparseVector, n: nat)
    requires WellFormed(query) && n < |query.indices|
    ensures forall id :: Matches(postings, query, n + 1, id) <==>
              Matches(postings, query, n, id) || Mentions(ListOf(postings, query.indices[n]), id)
  {
  }

  lemma NothingRemoved(postings: Postings, frequencies: map<nat, nat>, id: string)
    requires FrequenciesCover(postings, frequencies) && forall t :: t in postings ==> !Mentions(postings[t], id)
    ensures Removed(postings, id) == postings && Emptied(postings, frequencies, id) == frequencies
  {
    forall t | t in postings
      ensures RemoveFirst(postings[t], id) == postings[t]
    {
      RemoveAbsent(postings[t], id);
    }
    assert forall t :: t in frequencies ==> Covers(postings, frequencies, t);
  }

  lemma {:induction false} RemoveAbsent(list: seq<Entry>, id: string)
    requires !Mentions(list, id)
    ensures RemoveFirst(list, id) == list
  {
    if list != [] {
      MentionsTail(list, id);
      RemoveAbsent(list[1..], id);
    }
  }
}
