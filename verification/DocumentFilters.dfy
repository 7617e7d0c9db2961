/** Documents added to a new index, then filtered by an expression or a SQL condition. */
module DocumentFilters {
  import opened FilterModel
  import opened FilterIndexes
  import opened FilterEngines
  import opened SqlFilters
  import opened SqlMeaning
  import opened SqlSelection
  import opened Wrappers

  ghost predicate DistinctIds(documents: seq<(string, Json)>) {
    forall i, j :: 0 <= i < j < |documents| ==> documents[i].0 != documents[j].0
  }

  method IndexDocuments(tokens: Tokens, documents: seq<(string, Json)>) returns (index: FilterIndex)
    ensures fresh(index) && index.Valid() && index.tokens == tokens && index.facts == AllFacts(documents)
  {
    index := new FilterIndex(tokens);
    for k := 0 to |documents|
      invariant fresh(index) && index.Valid() && index.tokens == tokens && index.facts == AllFacts(documents[..k])
    {
      assert documents[..k + 1][..k] == documents[..k];
      index.AddDocument(documents[k].0, documents[k].1);
    }
    assert documents[..|documents|] == documents;
  }

  // The ids are those of the documents that satisfy the expression.
  ghost predicate Selects(tokens: Tokens, documents: seq<(string, Json)>, ids: seq<string>, e: FilterExpression) {
    && (forall k :: 0 <= k < |documents| ==>
          (documents[k].0 in ids <==> Holds(tokens, Flatten("", documents[k].1), e)))
    && (forall id :: id in ids ==> exists k :: 0 <= k < |documents| && documents[k].0 == id)
  }

  lemma AnswersSelect(tokens: Tokens, documents: seq<(string, Json)>, ids: seq<string>, e: FilterExpression)
    requires DistinctIds(documents)
    requires forall id :: id in ids <==> Holds(tokens, LeavesOf(AllFacts(documents), id), e)
    ensures Selects(tokens, documents, ids, e)
  {
    forall k | 0 <= k < |documents|
      ensures documents[k].0 in ids <==> Holds(tokens, Flatten("", documents[k].1), e)
    {
      DistinctDocument(documents, k);
    }
    forall id | id in ids
      ensures exists k :: 0 <= k < |documents| && documents[k].0 == id
    {
      HoldsOnlyOfVisible(tokens, LeavesOf(AllFacts(documents), id), e);
      if forall k :: 0 <= k < |documents| ==> documents[k].0 != id {
        AbsentDocument(documents, id);
      }
    }
  }

  // Index equals scan, from the documents on.
  method FilterDocuments(tokens: Tokens, documents: seq<(string, Json)>, e: FilterExpression)
    returns (r: Result<seq<string>>)
    requires DistinctIds(documents)
    ensures r.Success? <==> WellFormed(e)
    ensures r.Success? ==> Selects(tokens, documents, r.value, e)
  {
    var index := IndexDocuments(tokens, documents);
    var engine := new FilterEngine(index);
    r := engine.ExecuteFilter(e);
    if r.Success? {
      AnswersSelect(tokens, documents, r.value, e);
    }
  }

  // The ids of the documents that satisfy the condition and have an indexed leaf.
  ghost predicate Satisfying(documents: seq<(string, Json)>, ids: seq<string>, condition: SqlExpr) {
    forall k :: 0 <= k < |documents| ==>
      (documents[k].0 in ids <==>
         Visible(Flatten("", documents[k].1)) && SqlHolds(Flatten("", documents[k].1), condition))
  }

  // The same for a SQL condition made of supported comparisons: the documents that satisfy it.
  method SelectDocuments(tokens: Tokens, documents: seq<(string, Json)>, condition: SqlExpr)
    returns (r: Result<seq<string>>)
    requires DistinctIds(documents)
    ensures r.Success? <==> Convert(condition).Success?
    ensures r.Success? ==> Selects(tokens, documents, r.value, Convert(condition).value)
    ensures Supported(WithoutParentheses(condition)) ==>
      r.Success? && Satisfying(documents, r.value, WithoutParentheses(condition))
    ensures Supported(condition) ==> r.Success? && Satisfying(documents, r.value, condition)
  {
    var index := IndexDocuments(tokens, documents);
    var engine := new FilterEngine(index);
    r := SelectWhere(engine, condition);
    if r.Success? {
      AnswersSelect(tokens, documents, r.value, Convert(condition).value);
    }
    forall k | 0 <= k < |documents| {
      DistinctDocument(documents, k);
    }
  }
}
