/** BM25 over the index against the sum taken directly over the documents' term frequencies. */
module Bm25Scores {
  import opened Ranking
  import opened SparseDocuments
  import opened SparseIndexes
  import opened SparseVectors

  ghost predicate DistinctIds(docs: seq<Document>) { forall i, j :: 0 <= i < j < |docs| ==> docs[i].id != docs[j].id }

  // The index after adding the documents to an empty one.
  function Indexed(docs: seq<Document>): Postings {
    if docs == [] then map[] else Added(Indexed(docs[..|docs| - 1]), docs[|docs| - 1])
  }

  function IndexedFrequencies(docs: seq<Document>): map<nat, nat> {
    if docs == [] then map[] else Counted(IndexedFrequencies(docs[..|docs| - 1]), docs[|docs| - 1])
  }

  // ---------- The direct sum ----------

  function DocumentFrequency(docs: seq<Document>, term: nat): nat {
    if docs == [] then 0
    else DocumentFrequency(docs[..|docs| - 1], term) + if term in docs[|docs| - 1].frequencies then 1 else 0
  }

  function TermScore(c: Context, docs: seq<Document>, queryFrequency: real, term: nat, d: Document): real {
    if term in d.frequencies
    then Bm25(c, queryFrequency, d.frequencies[term], d.length, Idf(c, DocumentFrequency(docs, term)))
    else 0.0
  }

  function DirectScore(c: Context, docs: seq<Document>, query: SparseVector, n: nat, d: Document): real
    requires WellFormed(query) && n <= |query.indices|
  {
    if n == 0 then 0.0
    else DirectScore(c, docs, query, n - 1, d) + TermScore(c, docs, query.values[n - 1], query.indices[n - 1], d)
  }

  // ---------- What the index holds ----------

  lemma ListAfterAdding(docs: seq<Document>, term: nat)
    requires docs != []
    ensures
      var last := docs[|docs| - 1];
      ListOf(Indexed(docs), term) ==
      ListOf(Indexed(docs[..|docs| - 1]), term) + if term in last.frequencies then [EntryFor(last, term)] else []
  {
  }

  lemma {:induction false} FrequencyIsCount(docs: seq<Document>, term: nat)
    ensures term in IndexedFrequencies(docs) <==> DocumentFrequency(docs, term) > 0
    ensures term in IndexedFrequencies(docs) ==> IndexedFrequencies(docs)[term] == DocumentFrequency(docs, term)
    ensures |ListOf(Indexed(docs), term)| == DocumentFrequency(docs, term)
  {
    if docs != [] {
      FrequencyIsCount(docs[..|docs| - 1], term);
      ListAfterAdding(docs, term);
    }
  }

  ghost predicate Unknown(docs: seq<Document>, id: string) { forall i :: 0 <= i < |docs| ==> docs[i].id != id }

  lemma {:induction false} MentionsAfter(list: seq<Entry>, e: Entry, id: string)
    ensures Mentions(list + [e], id) <==> Mentions(list, id) || e.id == id
  {
    var list' := list + [e];
    assert list'[..|list|] == list && list'[..|list| + 1] == list';
    MentionsNext(list', |list|);
  }

  lemma {:induction false} UnknownNotMentioned(docs: seq<Document>, term: nat, id: string)
    requires Unknown(docs, id)
    ensures !Mentions(ListOf(Indexed(docs), term), id)
  {
    if docs != [] {
      var front, last := docs[..|docs| - 1], docs[|docs| - 1];
      UnknownNotMentioned(front, term, id);
      ListAfterAdding(docs, term);
      if term in last.frequencies {
        MentionsAfter(ListOf(Indexed(front), term), EntryFor(last, term), id);
      }
    }
  }

  // With distinct ids a posting list mentions a document exactly when the document has the term.
  lemma {:induction false} MentionedWithTerm(docs: seq<Document>, term: nat, k: nat)
    requires DistinctIds(docs) && k < |docs|
    ensures Mentions(ListOf(Indexed(docs), term), docs[k].id) <==> term in docs[k].frequencies
  {
    var front, last := docs[..|docs| - 1], docs[|docs| - 1];
    ListAfterAdding(docs, term);
    if k == |docs| - 1 {
      UnknownNotMentioned(front, term, last.id);
    } else {
      MentionedWithTerm(front, term, k);
    }
    if term in last.frequencies {
      MentionsAfter(ListOf(Indexed(front), term), EntryFor(last, term), docs[k].id);
    }
  }

  lemma {:induction false} UnmentionedScoresNothing(c: Context, q: real, idf: real, list: seq<Entry>, id: string)
    requires !Mentions(list, id)
    ensures ListScore(c, q, idf, list, id) == 0.0
  {
    if list != [] {
      var front := list[..|list| - 1];
      assert front + [list[|list| - 1]] == list;
      MentionsAfter(front, list[|list| - 1], id);
      UnmentionedScoresNothing(c, q, idf, front, id);
    }
  }

  // A posting list finds for a document what that document's own frequency gives.
  lemma {:induction false} ListFindsDocument(c: Context, q: real, idf: real, docs: seq<Document>, term: nat, k: nat)
    requires DistinctIds(docs) && k < |docs|
    ensures ListScore(c, q, idf, ListOf(Indexed(docs), term), docs[k].id) ==
            if term in docs[k].frequencies then Bm25(c, q, docs[k].frequencies[term], docs[k].length, idf) else 0.0
  {
    var front, last, id := docs[..|docs| - 1], docs[|docs| - 1], docs[k].id;
    var list := ListOf(Indexed(front), term);
    ListAfterAdding(docs, term);
    if k == |docs| - 1 {
      UnknownNotMentioned(front, term, id);
      UnmentionedScoresNothing(c, q, idf, list, id);
    } else {
      ListFindsDocument(c, q, idf, front, term, k);
    }
    if term in last.frequencies {
      assert (list + [EntryFor(last, term)])[..|list|] == list;
    }
  }

  // ---------- The theorem ----------

  lemma {:induction false} ScoreIsDirect(c: Context, docs: seq<Document>, query: SparseVector, n: nat, k: nat)
    requires WellFormed(query) && n <= |query.indices| && DistinctIds(docs) && k < |docs|
    ensures QueryScore(c, Indexed(docs), IndexedFrequencies(docs), query, n, docs[k].id) ==
              DirectScore(c, docs, query, n, docs[k])
  {
    if n > 0 {
      var term := query.indices[n - 1];
      var frequency := FrequencyOf(IndexedFrequencies(docs), term);
      ScoreIsDirect(c, docs, query, n - 1, k);
      ListFindsDocument(c, query.values[n - 1], Idf(c, frequency), docs, term, k);
      FrequencyIsCount(docs, term);
      if term in docs[k].frequencies {
        PresentIsCounted(docs, term, k);
      }
    }
  }

  lemma {:induction false} PresentIsCounted(docs: seq<Document>, term: nat, k: nat)
    requires k < |docs| && term in docs[k].frequencies
    ensures DocumentFrequency(docs, term) > 0
  {
    if k < |docs| - 1 {
      PresentIsCounted(docs[..|docs| - 1], term, k);
    }
  }

  ghost predicate SharesTerm(query: SparseVector, d: Document)
    { exists m :: 0 <= m < |query.indices| && query.indices[m] in d.frequencies }

  lemma MatchIsSharing(docs: seq<Document>, query: SparseVector, k: nat)
    requires WellFormed(query) && DistinctIds(docs) && k < |docs|
    ensures Matches(Indexed(docs), query, |query.indices|, docs[k].id) <==> SharesTerm(query, docs[k])
  {
    forall m | 0 <= m < |query.indices|
      ensures Mentions(ListOf(Indexed(docs), query.indices[m]), docs[k].id) <==> query.indices[m] in docs[k].frequencies
    {
      MentionedWithTerm(docs, query.indices[m], k);
    }
  }

  lemma MatchIsDocument(docs: seq<Document>, query: SparseVector, id: string) returns (k: nat)
    requires WellFormed(query) && Matches(Indexed(docs), query, |query.indices|, id)
    ensures k < |docs| && docs[k].id == id
  {
    if Unknown(docs, id) {
      var m :| 0 <= m < |query.indices| && Mentions(ListOf(Indexed(docs), query.indices[m]), id);
      UnknownNotMentioned(docs, query.indices[m], id);
    }
    k :| 0 <= k < |docs| && docs[k].id == id;
  }

  ghost predicate ScoredDirectly(c: Context, docs: seq<Document>, query: SparseVector, s: Scored<()>)
    requires WellFormed(query)
  {
    exists k :: 0 <= k < |docs| && docs[k].id == s.id && SharesTerm(query, docs[k]) &&
      s.score == DirectScore(c, docs, query, |query.indices|, docs[k])
  }

  // A search over added documents lists exactly those sharing a term with the query, each with the
  // score the direct sum gives it.
  lemma AnswersAreDirect(c: Context, docs: seq<Document>, query: SparseVector, all: seq<Scored<()>>)
    requires WellFormed(query) && DistinctIds(docs)
    requires Answers(c, Indexed(docs), IndexedFrequencies(docs), query, all)
    ensures forall i :: 0 <= i < |all| ==> ScoredDirectly(c, docs, query, all[i])
    ensures forall k :: 0 <= k < |docs| && SharesTerm(query, docs[k]) ==>
              exists i :: 0 <= i < |all| && all[i].id == docs[k].id
  {
    forall i | 0 <= i < |all|
      ensures ScoredDirectly(c, docs, query, all[i])
    {
      var k := MatchIsDocument(docs, query, all[i].id);
      MatchIsSharing(docs, query, k);
      ScoreIsDirect(c, docs, query, |query.indices|, k);
    }
    forall k | 0 <= k < |docs| && SharesTerm(query, docs[k])
      ensures exists i :: 0 <= i < |all| && all[i].id == docs[k].id
    {
      MatchIsSharing(docs, query, k);
    }
  }

  // The places of the documents that share a term with the query.
  ghost function Sharing(docs: seq<Document>, query: SparseVector): set<nat> {
    set k: nat | k < |docs| && SharesTerm(query, docs[k])
  }

  ghost function DocumentIds(docs: seq<Document>, places: set<nat>): set<string>
    requires forall k :: k in places ==> k < |docs|
  {
    set k | k in places :: docs[k].id
  }

  lemma {:induction false} IdsCount(docs: seq<Document>, places: set<nat>)
    requires DistinctIds(docs) && forall k :: k in places ==> k < |docs|
    ensures |DocumentIds(docs, places)| == |places|
    decreases |places|
  {
    if places != {} {
      var k :| k in places;
      var rest := places - {k};
      IdsCount(docs, rest);
      assert DocumentIds(docs, places) == DocumentIds(docs, rest) + {docs[k].id};
    }
  }

  // Some document with this id shares a term with the query.
  ghost predicate IsSharing(docs: seq<Document>, query: SparseVector, id: string) {
    exists k :: 0 <= k < |docs| && SharesTerm(query, docs[k]) && docs[k].id == id
  }

  // A list without repetition that names exactly those documents is as long as they are many.
  lemma SharingCount(docs: seq<Document>, query: SparseVector, all: seq<Scored<()>>)
    requires DistinctIds(docs) && forall i, j :: 0 <= i < j < |all| ==> all[i].id != all[j].id
    requires forall i :: 0 <= i < |all| ==> IsSharing(docs, query, all[i].id)
    requires forall k :: 0 <= k < |docs| && SharesTerm(query, docs[k]) ==>
      exists i :: 0 <= i < |all| && all[i].id == docs[k].id
    ensures |all| == |Sharing(docs, query)|
  {
    var ids := DocumentIds(docs, Sharing(docs, query));
    IdsCount(docs, Sharing(docs, query));
    DistinctCount(all);
    forall id
      ensures id in IdsOf(all) <==> id in ids
    {
      if id in IdsOf(all) {
        var i :| 0 <= i < |all| && all[i].id == id;
        assert IsSharing(docs, query, all[i].id);
      }
    }
    assert IdsOf(all) == ids;
  }

  // ---------- The average length ----------

  lemma TotalWithEntry(postings: Postings, t: nat, e: Entry)
    ensures TotalLength(WithEntry(postings, t, e)) == TotalLength(postings) + e.length
  {
    var postings' := WithEntry(postings, t, e);
    TotalTakesAny(postings', t);
    var list := ListOf(postings, t);
    assert (list + [e])[..|list|] == list;
    assert postings' - {t} == postings - {t};
    if t in postings {
      TotalTakesAny(postings, t);
    } else {
      assert postings - {t} == postings;
    }
  }

  function Times(n: nat, x: real): real { if n == 0 then 0.0 else Times(n - 1, x) + x }

  lemma {:induction false} TimesMultiplies(n: nat, x: real)
    ensures Times(n, x) == n as real * x
  {
    if n > 0 {
      TimesMultiplies(n - 1, x);
      var m := (n - 1) as real;
      assert n as real == m + 1.0;
      calc {
        Times(n, x);
        m * x + x;
        (m + 1.0) * x;
      }
    }
  }

  lemma {:induction false} TotalAdded(postings: Postings, d: Document, done: set<nat>)
    requires done <= d.frequencies.Keys
    ensures TotalLength(Added(postings, OnlyTerms(d, done))) == TotalLength(postings) + Times(|done|, d.length)
    decreases |done|
  {
    if done == {} {
      assert Added(postings, OnlyTerms(d, done)) == postings;
    } else {
      var t :| t in done;
      var rest := done - {t};
      assert rest + {t} == done && |done| == |rest| + 1;
      TotalAdded(postings, d, rest);
      TotalAddedNext(postings, d, rest, t);
    }
  }

  lemma TotalAddedNext(postings: Postings, d: Document, done: set<nat>, t: nat)
    requires t in d.frequencies && t !in done
    ensures TotalLength(Added(postings, OnlyTerms(d, done + {t}))) ==
              TotalLength(Added(postings, OnlyTerms(d, done))) + d.length
  {
    AddedNext(postings, d, done, t);
    TotalWithEntry(Added(postings, OnlyTerms(d, done)), t, EntryFor(d, t));
  }

  function LengthsTimesTerms(docs: seq<Document>): real {
    if docs == [] then 0.0
    else LengthsTimesTerms(docs[..|docs| - 1]) + Times(|docs[|docs| - 1].frequencies|, docs[|docs| - 1].length)
  }

  // The average the index keeps counts a document's length once for each of its terms.
  lemma {:induction false} AverageCountsTerms(docs: seq<Document>)
    ensures TotalLength(Indexed(docs)) == LengthsTimesTerms(docs)
  {
    if docs != [] {
      var front, last := docs[..|docs| - 1], docs[|docs| - 1];
      AverageCountsTerms(front);
      TotalAdded(Indexed(front), last, last.frequencies.Keys);
      assert OnlyTerms(last, last.frequencies.Keys) == last;
    }
  }

  function Lengths(docs: seq<Document>): real {
    if docs == [] then 0.0 else Lengths(docs[..|docs| - 1]) + docs[|docs| - 1].length
  }

  // What one document adds to the total beyond its length; without known terms, what it leaves out.
  function Surplus(d: Document): real { d.length * (|d.frequencies| - 1) as real }

  function Excess(docs: seq<Document>): real {
    if docs == [] then 0.0 else Excess(docs[..|docs| - 1]) + Surplus(docs[|docs| - 1])
  }

  lemma TimesIsSurplus(d: Document)
    ensures Times(|d.frequencies|, d.length) == d.length + Surplus(d)
  {
    TimesMultiplies(|d.frequencies|, d.length);
    var m := (|d.frequencies| - 1) as real;
    assert |d.frequencies| as real == m + 1.0;
    assert (m + 1.0) * d.length == m * d.length + d.length;
  }

  // The total is the sum of the lengths and, for each document, its length for each further term.
  lemma {:induction false} TotalIsLengthsAndExcess(docs: seq<Document>)
    ensures LengthsTimesTerms(docs) == Lengths(docs) + Excess(docs)
  {
    if docs != [] {
      TotalIsLengthsAndExcess(docs[..|docs| - 1]);
      TimesIsSurplus(docs[|docs| - 1]);
    }
  }

  predicate TermsIfLong(d: Document) { d.length >= 0.0 && (d.frequencies == map[] ==> d.length == 0.0) }

  lemma NoSurplusIff(d: Document)
    requires TermsIfLong(d)
    ensures Surplus(d) >= 0.0
    ensures Surplus(d) == 0.0 <==> d.length == 0.0 || |d.frequencies| == 1
  {
    var n := |d.frequencies| - 1;
    if d.length > 0.0 {
      assert |d.frequencies.Keys| != 0;
      if n > 0 {
        assert d.length * n as real > 0.0;
      }
    }
  }

  lemma {:induction false} NoExcessIff(docs: seq<Document>)
    requires forall d :: d in docs ==> TermsIfLong(d)
    ensures Excess(docs) >= 0.0
    ensures Excess(docs) == 0.0 <==> forall d :: d in docs ==> d.length == 0.0 || |d.frequencies| == 1
  {
    if docs != [] {
      var front, last := docs[..|docs| - 1], docs[|docs| - 1];
      assert docs == front + [last];
      NoExcessIff(front);
      NoSurplusIff(last);
    }
  }

  // Where every document of some length has a known term, that is the sum of the lengths exactly when each
  // of them has a single one.
  lemma TotalIsLengthsIff(docs: seq<Document>)
    requires forall d :: d in docs ==> TermsIfLong(d)
    ensures LengthsTimesTerms(docs) >= Lengths(docs)
    ensures LengthsTimesTerms(docs) == Lengths(docs) <==>
            forall d :: d in docs ==> d.length == 0.0 || |d.frequencies| == 1
  {
    TotalIsLengthsAndExcess(docs);
    NoExcessIff(docs);
  }

  // Documents without known terms can make up for others: neither of these two has one term.
  lemma ExcessCancels(d: Document, e: Document)
    requires d.length == 1.0 && e.length == 1.0 && |d.frequencies| == 0 && |e.frequencies| == 2
    ensures LengthsTimesTerms([d, e]) == Lengths([d, e])
  {
    TotalIsLengthsAndExcess([d, e]);
    assert [d, e][..1] == [d] && [d][..0] == [];
    assert Excess([d]) == Surplus(d) == -1.0;
    assert Surplus(e) == 1.0;
  }

  // ---------- After a removal ----------

  function Except(docs: seq<Document>, k: nat): seq<Document>
    requires k < |docs|
  {
    docs[..k] + docs[k + 1..]
  }

  lemma {:induction false} RemoveFromEnd(list: seq<Entry>, e: Entry)
    ensures RemoveFirst(list + [e], e.id) == if Mentions(list, e.id) then RemoveFirst(list, e.id) + [e] else list
    decreases |list|
  {
    if list == [] {
      assert (list + [e])[1..] == [];
    } else {
      MentionsTail(list, e.id);
      assert (list + [e])[1..] == list[1..] + [e];
      if list[0].id != e.id {
        RemoveFromEnd(list[1..], e);
      }
    }
  }

  lemma {:induction false} RemoveBeforeEnd(list: seq<Entry>, e: Entry, id: string)
    requires e.id != id
    ensures RemoveFirst(list + [e], id) == RemoveFirst(list, id) + [e]
    decreases |list|
  {
    if list == [] {
      assert (list + [e])[1..] == [];
      assert RemoveFirst([e], id) == [e] + RemoveFirst([], id);
    } else {
      assert (list + [e])[1..] == list[1..] + [e];
      if list[0].id != id {
        RemoveBeforeEnd(list[1..], e, id);
      }
    }
  }

  lemma RemovedLast(docs: seq<Document>, term: nat)
    requires docs != [] && DistinctIds(docs)
    ensures RemoveFirst(ListOf(Indexed(docs), term), docs[|docs| - 1].id) == ListOf(Indexed(docs[..|docs| - 1]), term)
  {
    var front, last := docs[..|docs| - 1], docs[|docs| - 1];
    var list := ListOf(Indexed(front), term);
    ListAfterAdding(docs, term);
    UnknownNotMentioned(front, term, last.id);
    RemoveAbsent(list, last.id);
    if term in last.frequencies {
      RemoveFromEnd(list, EntryFor(last, term));
    }
  }

  // Removing a document leaves the lists that adding only the others would have built.
  lemma {:induction false} RemovedIsNeverAdded(docs: seq<Document>, k: nat, term: nat)
    requires DistinctIds(docs) && k < |docs|
    ensures RemoveFirst(ListOf(Indexed(docs), term), docs[k].id) == ListOf(Indexed(Except(docs, k)), term)
  {
    var front, last := docs[..|docs| - 1], docs[|docs| - 1];
    if k == |docs| - 1 {
      RemovedLast(docs, term);
      assert Except(docs, k) == front;
    } else {
      var others := Except(docs, k);
      RemovedIsNeverAdded(front, k, term);
      assert others[..|others| - 1] == Except(front, k) && others[|others| - 1] == last;
      ListAfterAdding(docs, term);
      ListAfterAdding(others, term);
      if term in last.frequencies {
        RemoveBeforeEnd(ListOf(Indexed(front), term), EntryFor(last, term), docs[k].id);
      }
    }
  }

  // The document frequencies do not follow a removal: after the first one since documents were added, a
  // frequency that stays is right exactly when the removed document did not have the term.
  lemma FrequencyAfterRemoval(docs: seq<Document>, k: nat, term: nat)
    requires DistinctIds(docs) && k < |docs|
    ensures
      var frequencies := Emptied(Indexed(docs), IndexedFrequencies(docs), docs[k].id);
      term in frequencies ==>
        (frequencies[term] == DocumentFrequency(Except(docs, k), term) <==> term !in docs[k].frequencies)
  {
    FrequencyIsCount(docs, term);
    FrequencyIsCount(Except(docs, k), term);
    RemovedIsNeverAdded(docs, k, term);
    RemoveFirstLength(ListOf(Indexed(docs), term), docs[k].id);
    MentionedWithTerm(docs, term, k);
  }

  lemma {:induction false} CountWithin(docs: seq<Document>, term: nat)
    ensures DocumentFrequency(docs, term) <= |docs|
    ensures DocumentFrequency(docs, term) == |docs| <==> forall d :: d in docs ==> term in d.frequencies
  {
    if docs != [] {
      CountWithin(docs[..|docs| - 1], term);
      assert docs == docs[..|docs| - 1] + [docs[|docs| - 1]];
    }
  }

  // After that first removal a frequency left over exceeds the number of documents exactly when every
  // document had the term; its weight is then the logarithm of a negative number.
  lemma FrequencyExceedsDocuments(docs: seq<Document>, k: nat, term: nat)
    requires DistinctIds(docs) && k < |docs|
    ensures
      var frequencies := Emptied(Indexed(docs), IndexedFrequencies(docs), docs[k].id);
      term in frequencies ==> (frequencies[term] > |docs| - 1 <==> forall d :: d in docs ==> term in d.frequencies)
  {
    FrequencyIsCount(docs, term);
    CountWithin(docs, term);
  }

  // ---------- A whole run ----------

  // Documents added to a new index one after the other, then searched.
  method IndexAndSearch(a: Arithmetic, p: Parameters, docs: seq<Document>, query: SparseVector, limit: nat)
    returns (results: seq<Scored<()>>, ghost all: seq<Scored<()>>)
    requires WellFormed(query) && DistinctIds(docs)
    ensures docs == [] ==> results == []
    ensures docs != [] ==>
      BestFirst(all) && |all| == |Sharing(docs, query)| && FrontOf(results, all, limit)
    ensures docs != [] ==>
      var c := Context(a, p, |docs|, a.div(LengthsTimesTerms(docs), |docs| as real));
      && (forall i :: 0 <= i < |all| ==> ScoredDirectly(c, docs, query, all[i]))
      && (forall i, j :: 0 <= i < j < |all| ==> all[i].id != all[j].id)
      && (forall k :: 0 <= k < |docs| && SharesTerm(query, docs[k]) ==>
            exists i :: 0 <= i < |all| && all[i].id == docs[k].id)
  {
    var index := new SparseIndex(a, p);
    for n := 0 to |docs|
      invariant index.Valid() && index.arithmetic == a && index.parameters == p && index.documents == n
      invariant index.postings == Indexed(docs[..n]) && index.frequencies == IndexedFrequencies(docs[..n])
    {
      assert docs[..n + 1][..n] == docs[..n];
      index.AddDocument(docs[n]);
    }
    assert docs[..|docs|] == docs;
    AverageCountsTerms(docs);
    results, all := index.SearchBm25(query, limit);
    if docs != [] {
      AnswersAreDirect(index.SearchContext(), docs, query, all);
      AllSharing(index.SearchContext(), docs, query, all);
      SharingCount(docs, query, all);
    }
  }

  lemma AllSharing(c: Context, docs: seq<Document>, query: SparseVector, all: seq<Scored<()>>)
    requires WellFormed(query) && forall i :: 0 <= i < |all| ==> ScoredDirectly(c, docs, query, all[i])
    ensures forall i :: 0 <= i < |all| ==> IsSharing(docs, query, all[i].id)
  {
  }
}
