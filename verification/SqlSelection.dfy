/** A SQL condition from its translation to the documents it selects. */
module SqlSelection {
  import opened FilterModel
  import opened FilterEngines
  import opened SqlFilters
  import opened SqlMeaning
  import opened Wrappers

  // End to end: translate a condition and execute it. Whatever is translated is answered with the
  // documents its translation holds of; where the comparisons are supported these are the documents
  // that satisfy the condition, read with the placeholder in place of parenthesised parts.
  method SelectWhere(engine: FilterEngine, condition: SqlExpr) returns (r: Result<seq<string>>)
    requires engine.index.Valid()
    ensures r.Success? <==> Convert(condition).Success?
    ensures r.Success? ==> engine.Answers(r.value, Convert(condition).value)
    ensures Supported(WithoutParentheses(condition)) ==>
      && r.Success?
      && forall id :: id in r.value <==>
           Visible(engine.Leaves(id)) && SqlHolds(engine.Leaves(id), WithoutParentheses(condition))
    ensures Supported(condition) ==>
      r.Success? && forall id :: id in r.value <==> Visible(engine.Leaves(id)) && SqlHolds(engine.Leaves(id), condition)
  {
    var filter := Convert(condition);
    if Supported(condition) {
      SupportedHasNone(condition);
    }
    if Supported(WithoutParentheses(condition)) {
      ParenthesesLost(condition);
      SupportedConverts(WithoutParentheses(condition));
    }
    if filter.Failure? {
      return Failure(filter.error);
    }
    ConvertedIsWellFormed(condition);
    r := engine.ExecuteFilter(filter.value);
    if Supported(WithoutParentheses(condition)) {
      forall id
        ensures id in r.value <==>
                Visible(engine.Leaves(id)) && SqlHolds(engine.Leaves(id), WithoutParentheses(condition))
      {
        if Visible(engine.Leaves(id)) {
          TranslationMeans(engine.index.tokens, engine.Leaves(id), condition);
        } else if Holds(engine.index.tokens, engine.Leaves(id), filter.value) {
          HoldsOnlyOfVisible(engine.index.tokens, engine.Leaves(id), filter.value);
        }
      }
    }
  }
}
