/** What the index holds, and what BM25 then computes, after any run of additions and removals. */
module Bm25Runs {
  import opened Bm25Scores
  import opened Ranking
  import opened SparseDocuments
  import opened SparseIndexes
  import opened SparseVectors

  datatype Change = Add(document: Document) | Remove(id: string)

  function PostingsAfter(run: seq<Change>): Postings {
    if run == [] then map[]
    else
      var before := PostingsAfter(run[..|run| - 1]);
      match run[|run| - 1]
      case Add(d) => Added(before, d)
      case Remove(id) => Removed(before, id)
  }

  function FrequenciesAfter(run: seq<Change>): map<nat, nat> {
    if run == [] then map[]
    else
      var front := run[..|run| - 1];
      match run[|run| - 1]
      case Add(d) => Counted(FrequenciesAfter(front), d)
      case Remove(id) => Emptied(PostingsAfter(front), FrequenciesAfter(front), id)
  }

  ghost function CountAfter(run: seq<Change>): nat {
    if run == [] then 0
    else
      var front := run[..|run| - 1];
      match run[|run| - 1]
      case Add(_) => CountAfter(front) + 1
      case Remove(id) =>
        if MentionedIn(PostingsAfter(front), id, PostingsAfter(front).Keys) && CountAfter(front) > 0
        then CountAfter(front) - 1
        else CountAfter(front)
  }

  // The changes made to a new index one after the other.
  method Replay(a: Arithmetic, p: Parameters, run: seq<Change>) returns (index: SparseIndex)
    ensures fresh(index) && index.Valid() && index.arithmetic == a && index.parameters == p
    ensures index.postings == PostingsAfter(run) && index.frequencies == FrequenciesAfter(run)
    ensures index.documents == CountAfter(run)
  {
    index := new SparseIndex(a, p);
    for n := 0 to |run|
      invariant fresh(index) && index.Valid() && index.arithmetic == a && index.parameters == p
      invariant index.postings == PostingsAfter(run[..n]) && index.frequencies == FrequenciesAfter(run[..n])
      invariant index.documents == CountAfter(run[..n])
    {
      assert run[..n + 1][..n] == run[..n];
      match run[n]
      case Add(d) => index.AddDocument(d);
      case Remove(id) =>
        var _ := index.RemoveDocument(id);
    }
    assert run[..|run|] == run;
  }

  // ---------- Document frequencies after any run ----------

  // How often an entry of the term was removed since its list was last empty.
  ghost function Stale(run: seq<Change>, term: nat): nat {
    if run == [] then 0
    else
      var front := run[..|run| - 1];
      var list := ListOf(PostingsAfter(front), term);
      match run[|run| - 1]
      case Add(_) => Stale(front, term)
      case Remove(id) =>
        if !Mentions(list, id) then Stale(front, term)
        else if |list| == 1 then 0
        else Stale(front, term) + 1
  }

  lemma {:induction false} RunCovers(run: seq<Change>)
    ensures FrequenciesCover(PostingsAfter(run), FrequenciesAfter(run))
  {
    if run == [] {
      assert forall t :: Covers(map[], map[], t);
    } else {
      var front := run[..|run| - 1];
      RunCovers(front);
      match run[|run| - 1]
      case Add(d) => AddedCovers(PostingsAfter(front), FrequenciesAfter(front), d);
      case Remove(id) => RemovedCovers(PostingsAfter(front), FrequenciesAfter(front), id);
    }
  }

  lemma RemovedList(postings: Postings, id: string, term: nat)
    ensures ListOf(Removed(postings, id), term) == RemoveFirst(ListOf(postings, term), id)
  {
  }

  // Whatever the ids: a term has a document frequency exactly while its list has entries, and it is the
  // list's length and one more for each entry removed since the list was last empty.
  lemma {:induction false} FrequencyIsStale(run: seq<Change>, term: nat)
    ensures
      var list, frequencies := ListOf(PostingsAfter(run), term), FrequenciesAfter(run);
      && (term in frequencies <==> list != [])
      && (term in frequencies ==> frequencies[term] == |list| + Stale(run, term))
      && (term !in frequencies ==> Stale(run, term) == 0)
  {
    RunCovers(run);
    assert Covers(PostingsAfter(run), FrequenciesAfter(run), term);
    if run != [] {
      var front := run[..|run| - 1];
      FrequencyIsStale(front, term);
      match run[|run| - 1]
      case Add(_) =>
      case Remove(id) =>
        RemovedList(PostingsAfter(front), id, term);
        RemoveFirstLength(ListOf(PostingsAfter(front), term), id);
    }
  }

  // ---------- Runs that never add a document under an id that is present ----------

  function PlaceOf(docs: seq<Document>, id: string): (k: nat)
    ensures k <= |docs|
    ensures k < |docs| ==> docs[k].id == id
    ensures k == |docs| ==> Unknown(docs, id)
  {
    if docs == [] || docs[0].id == id then 0
    else
      var k := PlaceOf(docs[1..], id);
      assert forall i :: 0 < i < |docs| ==> docs[i] == docs[1..][i - 1];
      1 + k
  }

  function Dropped(docs: seq<Document>, id: string): seq<Document> {
    if PlaceOf(docs, id) < |docs| then Except(docs, PlaceOf(docs, id)) else docs
  }

  // The documents added and not removed.
  function Present(run: seq<Change>): seq<Document> {
    if run == [] then []
    else
      var before := Present(run[..|run| - 1]);
      match run[|run| - 1]
      case Add(d) => before + [d]
      case Remove(id) => Dropped(before, id)
  }

  ghost predicate FreshIds(run: seq<Change>) {
    run != [] ==>
      && FreshIds(run[..|run| - 1])
      && (run[|run| - 1].Add? ==> Unknown(Present(run[..|run| - 1]), run[|run| - 1].document.id))
  }

  // Removals of documents without terms, which the index does not notice.
  function Unnoticed(run: seq<Change>): nat {
    if run == [] then 0
    else
      var front := run[..|run| - 1];
      var docs := Present(front);
      match run[|run| - 1]
      case Add(_) => Unnoticed(front)
      case Remove(id) =>
        var k := PlaceOf(docs, id);
        Unnoticed(front) + if k < |docs| && docs[k].frequencies == map[] then 1 else 0
  }

  lemma DroppedKeepsDistinct(docs: seq<Document>, id: string)
    requires DistinctIds(docs)
    ensures DistinctIds(Dropped(docs, id))
  {
  }

  lemma DroppedList(docs: seq<Document>, id: string, term: nat)
    requires DistinctIds(docs)
    ensures RemoveFirst(ListOf(Indexed(docs), term), id) == ListOf(Indexed(Dropped(docs, id)), term)
  {
    var k := PlaceOf(docs, id);
    if k < |docs| {
      RemovedIsNeverAdded(docs, k, term);
    } else {
      UnknownNotMentioned(docs, term, id);
      RemoveAbsent(ListOf(Indexed(docs), term), id);
    }
  }

  // The lists are those that adding only the documents present would have built.
  lemma {:induction false} ListsOfPresent(run: seq<Change>, term: nat)
    requires FreshIds(run)
    ensures DistinctIds(Present(run))
    ensures ListOf(PostingsAfter(run), term) == ListOf(Indexed(Present(run)), term)
  {
    if run != [] {
      var front := run[..|run| - 1];
      ListsOfPresent(front, term);
      match run[|run| - 1]
      case Add(d) =>
        var docs := Present(front) + [d];
        assert docs[..|docs| - 1] == Present(front);
        ListAfterAdding(docs, term);
      case Remove(id) =>
        DroppedKeepsDistinct(Present(front), id);
        RemovedList(PostingsAfter(front), id, term);
        DroppedList(Present(front), id, term);
    }
  }

  // A removal is noticed exactly when the document is present and has terms.
  lemma NoticedIff(run: seq<Change>, id: string)
    requires FreshIds(run)
    ensures
      var docs, postings := Present(run), PostingsAfter(run);
      var k := PlaceOf(docs, id);
      MentionedIn(postings, id, postings.Keys) <==> k < |docs| && docs[k].frequencies != map[]
  {
    var docs, postings := Present(run), PostingsAfter(run);
    var k := PlaceOf(docs, id);
    forall t
      ensures t in postings && Mentions(postings[t], id) <==> k < |docs| && t in docs[k].frequencies
    {
      ListsOfPresent(run, t);
      if k < |docs| {
        MentionedWithTerm(docs, t, k);
      } else {
        UnknownNotMentioned(docs, t, id);
      }
    }
    if k < |docs| && docs[k].frequencies != map[] {
      var t :| t in docs[k].frequencies;
      assert t in postings.Keys;
    }
  }

  // The index counts the documents present and those whose removal it did not notice.
  lemma {:induction false} CountIsPresent(run: seq<Change>)
    requires FreshIds(run)
    ensures CountAfter(run) == |Present(run)| + Unnoticed(run)
  {
    if run != [] {
      var front := run[..|run| - 1];
      CountIsPresent(front);
      if run[|run| - 1].Remove? {
        NoticedIff(front, run[|run| - 1].id);
      }
    }
  }

  // A frequency is too high by the stale entries. It is right exactly when there are none, and above the
  // number of documents the index counts exactly when they outnumber the documents without the term and
  // those whose removal was not noticed.
  lemma FrequencyAfterRun(run: seq<Change>, term: nat)
    requires FreshIds(run) && term in FrequenciesAfter(run)
    ensures
      var docs, frequency := Present(run), FrequenciesAfter(run)[term];
      && frequency == DocumentFrequency(docs, term) + Stale(run, term)
      && (frequency == DocumentFrequency(docs, term) <==> Stale(run, term) == 0)
      && (frequency > CountAfter(run) <==>
            Stale(run, term) > |docs| - DocumentFrequency(docs, term) + Unnoticed(run))
  {
    FrequencyIsStale(run, term);
    ListsOfPresent(run, term);
    FrequencyIsCount(Present(run), term);
    CountIsPresent(run);
  }

  // ---------- Searching after a run ----------

  // A term's score for a document, weighed with the term's stale entries counted in.
  ghost function StaleTermScore(c: Context, run: seq<Change>, queryFrequency: real, term: nat, d: Document): real {
    if term in d.frequencies
    then Bm25(c, queryFrequency, d.frequencies[term], d.length,
              Idf(c, DocumentFrequency(Present(run), term) + Stale(run, term)))
    else 0.0
  }

  // The sum taken over the document's own frequencies.
  ghost function StaleScore(c: Context, run: seq<Change>, query: SparseVector, n: nat, d: Document): real
    requires WellFormed(query) && n <= |query.indices|
  {
    if n == 0 then 0.0
    else
      StaleScore(c, run, query, n - 1, d) + StaleTermScore(c, run, query.values[n - 1], query.indices[n - 1], d)
  }

  lemma FrequencyUsed(run: seq<Change>, term: nat, k: nat)
    requires FreshIds(run) && k < |Present(run)| && term in Present(run)[k].frequencies
    ensures FrequencyOf(FrequenciesAfter(run), term) == DocumentFrequency(Present(run), term) + Stale(run, term)
  {
    ListsOfPresent(run, term);
    PresentIsCounted(Present(run), term, k);
    FrequencyIsCount(Present(run), term);
    FrequencyIsStale(run, term);
  }

  lemma TermAfterRun(c: Context, run: seq<Change>, queryFrequency: real, idf: real, term: nat, k: nat)
    requires FreshIds(run) && k < |Present(run)| && idf == Idf(c, FrequencyOf(FrequenciesAfter(run), term))
    ensures ListScore(c, queryFrequency, idf, ListOf(PostingsAfter(run), term), Present(run)[k].id) ==
              StaleTermScore(c, run, queryFrequency, term, Present(run)[k])
  {
    ListsOfPresent(run, term);
    ListFindsDocument(c, queryFrequency, idf, Present(run), term, k);
    if term in Present(run)[k].frequencies {
      FrequencyUsed(run, term, k);
    }
  }

  lemma {:induction false} ScoreAfterRun(c: Context, run: seq<Change>, query: SparseVector, n: nat, k: nat)
    requires WellFormed(query) && n <= |query.indices| && FreshIds(run) && k < |Present(run)|
    ensures QueryScore(c, PostingsAfter(run), FrequenciesAfter(run), query, n, Present(run)[k].id) ==
              StaleScore(c, run, query, n, Present(run)[k])
  {
    if n > 0 {
      ScoreAfterRun(c, run, query, n - 1, k);
      var term := query.indices[n - 1];
      TermAfterRun(c, run, query.values[n - 1], Idf(c, FrequencyOf(FrequenciesAfter(run), term)), term, k);
    }
  }

  // Without stale entries of the query's terms it is the direct sum over the documents present.
  lemma {:induction false} NoStaleIsDirect(c: Context, run: seq<Change>, query: SparseVector, n: nat, d: Document)
    requires WellFormed(query) && n <= |query.indices|
    requires forall m :: 0 <= m < n ==> Stale(run, query.indices[m]) == 0
    ensures StaleScore(c, run, query, n, d) == DirectScore(c, Present(run), query, n, d)
  {
    if n > 0 {
      var term := query.indices[n - 1];
      assert StaleTermScore(c, run, query.values[n - 1], term, d) ==
        TermScore(c, Present(run), query.values[n - 1], term, d);
      NoStaleIsDirect(c, run, query, n - 1, d);
    }
  }

  lemma MatchesAfterRun(run: seq<Change>, query: SparseVector, id: string)
    requires WellFormed(query) && FreshIds(run)
    ensures Matches(PostingsAfter(run), query, |query.indices|, id) <==>
              Matches(Indexed(Present(run)), query, |query.indices|, id)
  {
    forall term {
      ListsOfPresent(run, term);
    }
  }

  ghost predicate ScoredWithStale(c: Context, run: seq<Change>, query: SparseVector, s: Scored<()>)
    requires WellFormed(query)
  {
    exists k :: 0 <= k < |Present(run)| && Present(run)[k].id == s.id && SharesTerm(query, Present(run)[k]) &&
      s.score == StaleScore(c, run, query, |query.indices|, Present(run)[k])
  }

  // A search after any such run lists exactly the documents present that share a term with the query, each
  // with the directly summed score.
  lemma AnswersAfterRun(c: Context, run: seq<Change>, query: SparseVector, all: seq<Scored<()>>)
    requires WellFormed(query) && FreshIds(run)
    requires Answers(c, PostingsAfter(run), FrequenciesAfter(run), query, all)
    ensures forall i :: 0 <= i < |all| ==> ScoredWithStale(c, run, query, all[i])
    ensures forall k :: 0 <= k < |Present(run)| && SharesTerm(query, Present(run)[k]) ==>
              exists i :: 0 <= i < |all| && all[i].id == Present(run)[k].id
  {
    var docs := Present(run);
    ListsOfPresent(run, 0);
    forall i | 0 <= i < |all|
      ensures ScoredWithStale(c, run, query, all[i])
    {
      MatchesAfterRun(run, query, all[i].id);
      var k := MatchIsDocument(docs, query, all[i].id);
      MatchIsSharing(docs, query, k);
      ScoreAfterRun(c, run, query, |query.indices|, k);
    }
    forall k | 0 <= k < |docs| && SharesTerm(query, docs[k])
      ensures exists i :: 0 <= i < |all| && all[i].id == docs[k].id
    {
      MatchIsSharing(docs, query, k);
      MatchesAfterRun(run, query, docs[k].id);
    }
  }

  ghost predicate SameLists(p: Postings, q: Postings) { forall t :: ListOf(p, t) == ListOf(q, t) }

  lemma TotalWithout(p: Postings, t: nat)
    ensures TotalLength(p) == SumLengths(ListOf(p, t)) + TotalLength(p - {t})
    ensures |p - {t}| <= |p| && (t in p ==> |p - {t}| < |p|)
  {
    if t in p {
      TotalTakesAny(p, t);
      assert |(p - {t}).Keys| < |p.Keys|;
    } else {
      assert p - {t} == p;
    }
  }

  lemma SameListsWithout(p: Postings, q: Postings, t: nat)
    requires SameLists(p, q)
    ensures ListOf(p, t) == ListOf(q, t) && SameLists(p - {t}, q - {t})
  {
    forall u
      ensures ListOf(p - {t}, u) == ListOf(q - {t}, u)
    {
      assert ListOf(p, u) == ListOf(q, u);
    }
  }

  lemma AnyTerm(p: Postings, q: Postings) returns (t: nat)
    requires p != map[] || q != map[]
    ensures t in p || t in q
  {
    if p != map[] {
      t :| t in p;
    } else {
      t :| t in q;
    }
  }

  // Terms whose lists have no entries make no difference to the total length.
  lemma {:induction false} TotalOfLists(p: Postings, q: Postings)
    requires SameLists(p, q)
    ensures TotalLength(p) == TotalLength(q)
    decreases |p| + |q|
  {
    if p != map[] || q != map[] {
      var t := AnyTerm(p, q);
      SameListsWithout(p, q, t);
      TotalWithout(p, t);
      TotalWithout(q, t);
      TotalOfLists(p - {t}, q - {t});
    }
  }

  lemma TotalAfterRun(run: seq<Change>)
    requires FreshIds(run)
    ensures TotalLength(PostingsAfter(run)) == LengthsTimesTerms(Present(run))
  {
    forall t {
      ListsOfPresent(run, t);
    }
    TotalOfLists(PostingsAfter(run), Indexed(Present(run)));
    AverageCountsTerms(Present(run));
  }

  // The changes made to a new index, then a search.
  method ReplayAndSearch(a: Arithmetic, p: Parameters, run: seq<Change>, query: SparseVector, limit: nat)
    returns (results: seq<Scored<()>>, ghost all: seq<Scored<()>>)
    requires WellFormed(query) && FreshIds(run)
    ensures Present(run) == [] ==> results == []
    ensures Present(run) != [] ==>
      BestFirst(all) && |all| == |Sharing(Present(run), query)| && FrontOf(results, all, limit)
    ensures Present(run) != [] ==>
      var docs, count := Present(run), |Present(run)| + Unnoticed(run);
      var c := Context(a, p, count, a.div(LengthsTimesTerms(docs), count as real));
      && (forall i :: 0 <= i < |all| ==> ScoredWithStale(c, run, query, all[i]))
      && (forall i, j :: 0 <= i < j < |all| ==> all[i].id != all[j].id)
      && (forall k :: 0 <= k < |docs| && SharesTerm(query, docs[k]) ==>
            exists i :: 0 <= i < |all| && all[i].id == docs[k].id)
  {
    var index := Replay(a, p, run);
    CountIsPresent(run);
    TotalAfterRun(run);
    results, all := index.SearchBm25(query, limit);
    if index.documents > 0 {
      AnswersAfterRun(index.SearchContext(), run, query, all);
      ListsOfPresent(run, 0);
      AllPresent(index.SearchContext(), run, query, all);
      SharingCount(Present(run), query, all);
      if Present(run) == [] {
        NothingScored(index.SearchContext(), run, query, all);
      }
    }
  }

  lemma AllPresent(c: Context, run: seq<Change>, query: SparseVector, all: seq<Scored<()>>)
    requires WellFormed(query) && forall i :: 0 <= i < |all| ==> ScoredWithStale(c, run, query, all[i])
    ensures forall i :: 0 <= i < |all| ==> IsSharing(Present(run), query, all[i].id)
  {
  }

  lemma NothingScored(c: Context, run: seq<Change>, query: SparseVector, all: seq<Scored<()>>)
    requires WellFormed(query) && Present(run) == []
    requires forall i :: 0 <= i < |all| ==> ScoredWithStale(c, run, query, all[i])
    ensures all == []
  {
    assert all != [] ==> ScoredWithStale(c, run, query, all[0]);
  }
}
