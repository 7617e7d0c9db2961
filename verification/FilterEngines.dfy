/** Executing filter expressions over the indexes returns what reading the documents would. */
module FilterEngines {
  import opened FilterModel
  import opened FilterIndexes
  import opened Ordering
  import opened Wrappers

  // ---------- Paths ----------

  function Split(path: string): (parts: seq<string>)
    ensures |parts| >= 1
  {
    if path == "" then [""]
    else if path[0] == '.' then [""] + Split(path[1..])
    else var rest := Split(path[1..]); [[path[0]] + rest[0]] + rest[1..]
  }

  function Join(parts: seq<string>): string
    requires |parts| >= 1
  {
    if |parts| == 1 then parts[0] else parts[0] + "." + Join(parts[1..])
  }

  // Splitting at dots and joining the parts again gives the path back; there are several parts
  // exactly when the path has a dot.
  lemma {:induction false} SplitJoin(path: string)
    ensures Join(Split(path)) == path
    ensures |Split(path)| >= 2 <==> '.' in path
  {
    if path != "" {
      SplitJoin(path[1..]);
      var rest := Split(path[1..]);
      assert path == [path[0]] + path[1..];
      if path[0] == '.' {
        assert Split(path)[1..] == rest;
      } else {
        assert Split(path)[1..] == rest[1..];
        if |rest| > 1 {
          assert Join(rest) == rest[0] + "." + Join(rest[1..]);
        }
      }
    }
  }

  // ---------- Lists of ids ----------

  function Keep(ids: seq<string>, other: seq<string>, wanted: bool): (kept: seq<string>)
    ensures forall id :: id in kept <==> id in ids && (id in other) == wanted
  {
    if ids == [] then []
    else (if (ids[0] in other) == wanted then [ids[0]] else []) + Keep(ids[1..], other, wanted)
  }

  function Above(numbers: seq<Numbered>, n: real): (ids: seq<string>)
    ensures forall id :: id in ids <==> exists x :: Numbered(x, id) in numbers && x > n
  {
    if numbers == [] then []
    else
      var rest := Above(numbers[1..], n);
      assert forall x, id :: Numbered(x, id) in numbers <==>
               Numbered(x, id) == numbers[0] || Numbered(x, id) in numbers[1..];
      (if numbers[0].n > n then [numbers[0].id] else []) + rest
  }

  function Near(numbers: seq<Numbered>, n: real): (ids: seq<string>)
    ensures forall id :: id in ids <==> exists x :: Numbered(x, id) in numbers && NearlyEqual(x, n)
  {
    if numbers == [] then []
    else
      var rest := Near(numbers[1..], n);
      assert forall x, id :: Numbered(x, id) in numbers <==>
               Numbered(x, id) == numbers[0] || Numbered(x, id) in numbers[1..];
      (if NearlyEqual(numbers[0].n, n) then [numbers[0].id] else []) + rest
  }

  function Lookup(m: map<string, seq<string>>, key: string): (ids: seq<string>)
    ensures forall id :: id in ids <==> InList(m, key, id)
  {
    if key in m then m[key] else []
  }

  class FilterEngine {
    const index: FilterIndex

    constructor (index: FilterIndex)
      ensures this.index == index
    {
      this.index := index;
    }

    ghost function Leaves(id: string): seq<Leaf>
      reads index
    {
      LeavesOf(index.facts, id)
    }

    // The ids are those of the documents whose leaves satisfy the expression.
    ghost predicate Answers(ids: seq<string>, e: FilterExpression)
      reads index
    {
      forall id :: id in ids <==> Holds(index.tokens, Leaves(id), e)
    }

    // Index equals scan: every expression is answered with exactly the documents it holds of; it
    // fails only if some NOT in it does not have one operand.
    method ExecuteFilter(e: FilterExpression) returns (r: Result<seq<string>>)
      requires index.Valid()
      ensures r.Success? <==> WellFormed(e)
      ensures r.Success? ==> Answers(r.value, e)
      decreases e, 1
    {
      match e
      case Comparison(field, operator, value) =>
        var ids := ExecuteComparison(field, operator, value);
        return Success(ids);
      case Logical(operator, operands) =>
        r := ExecuteLogical(operator, operands);
      case Nested(path, operator, value) =>
        var ids := ExecuteNested(path, operator, value);
        return Success(ids);
      case TextSearch(fields, query) =>
        var ids := ExecuteTextSearch(fields, query);
        return Success(ids);
    }

    method ExecuteComparison(field: string, operator: ComparisonOperator, value: FilterValue) returns (ids: seq<string>)
      requires index.Valid()
      ensures Answers(ids, Comparison(field, operator, value))
    {
      ids := [];
      if field in index.fields {
        match (operator, value)
        case (Equal, StringValue(s)) => ids := Lookup(index.fields[field].values, s);
        case (GreaterThan, NumberValue(n)) => ids := Above(index.fields[field].numbers, n);
        case _ =>
      }
      forall id
        ensures id in ids <==> Holds(index.tokens, Leaves(id), Comparison(field, operator, value))
      {
        assert RecordsOf(index.tokens, index.fields, Leaves(id), id);
        if operator == Equal && value.StringValue? {
          assert InValues(index.fields, field, value.s, id) <==> HasText(Leaves(id), field, value.s);
        } else if operator == GreaterThan && value.NumberValue? {
          if id in ids {
            var x :| Numbered(x, id) in index.fields[field].numbers && x > value.n;
            assert InNumbers(index.fields, field, x, id);
          }
          if x :| HasNumber(Leaves(id), field, x) && x > value.n {
            assert InNumbers(index.fields, field, x, id);
          }
        }
      }
    }

    method ExecuteLogical(operator: LogicalOperator, operands: seq<FilterExpression>) returns (r: Result<seq<string>>)
      requires index.Valid()
      ensures r.Success? <==> WellFormed(Logical(operator, operands))
      ensures r.Success? ==> Answers(r.value, Logical(operator, operands))
      ensures r.Success? && operator != And ==> StrictlySorted(r.value)
      decreases operands, 0
    {
      match operator
      case And => r := ExecuteAnd(operands);
      case Or => r := ExecuteOr(operands);
      case Not => r := ExecuteNot(operands);
    }

    ghost predicate HoldsAll(operands: seq<FilterExpression>, id: string)
      requires index.Valid()
      reads this, index
    {
      forall i :: 0 <= i < |operands| ==> Holds(index.tokens, Leaves(id), operands[i])
    }

    lemma HoldsAllNext(operands: seq<FilterExpression>, k: nat)
      requires index.Valid() && k < |operands|
      ensures forall id :: HoldsAll(operands[..k + 1], id) <==>
                HoldsAll(operands[..k], id) && Holds(index.tokens, Leaves(id), operands[k])
    {
      assert operands[..k + 1] == operands[..k] + [operands[k]];
    }

    ghost predicate AnswersAll(ids: seq<string>, operands: seq<FilterExpression>)
      requires index.Valid()
      reads this, index
    {
      forall id :: id in ids <==> HoldsAll(operands, id)
    }

    lemma AnswersNext(result: Option<seq<string>>, answer: seq<string>, operands: seq<FilterExpression>, k: nat)
      requires index.Valid() && k < |operands| && (result == None <==> k == 0) && Answers(answer, operands[k])
      requires result.Some? ==> AnswersAll(result.value, operands[..k])
      ensures AnswersAll(if result == None then answer else Keep(result.value, answer, true), operands[..k + 1])
    {
      HoldsAllNext(operands, k);
    }

    lemma AndAnswered(ids: seq<string>, operands: seq<FilterExpression>)
      requires index.Valid() && if operands == [] then ids == [] else AnswersAll(ids, operands)
      ensures Answers(ids, Logical(And, operands))
    {
    }

    method ExecuteAnd(operands: seq<FilterExpression>) returns (r: Result<seq<string>>)
      requires index.Valid()
      ensures r.Success? <==> WellFormed(Logical(And, operands))
      ensures r.Success? ==> Answers(r.value, Logical(And, operands))
      decreases operands, 0, 0
    {
      var result: Option<seq<string>> := None;
      var k := 0;
      while k < |operands|
        invariant k <= |operands|
        invariant forall i :: 0 <= i < k ==> WellFormed(operands[i])
        invariant result == None <==> k == 0
        invariant result.Some? ==> AnswersAll(result.value, operands[..k])
      {
        var answer := ExecuteFilter(operands[k]);
        if answer.Failure? {
          return answer;
        }
        AnswersNext(result, answer.value, operands, k);
        result := Some(if result == None then answer.value else Keep(result.value, answer.value, true));
        k := k + 1;
      }
      assert operands[..k] == operands;
      var ids := if result == None then [] else result.value;
      AndAnswered(ids, operands);
      return Success(ids);
    }

    method ExecuteOr(operands: seq<FilterExpression>) returns (r: Result<seq<string>>)
      requires index.Valid()
      ensures r.Success? <==> WellFormed(Logical(Or, operands))
      ensures r.Success? ==> Answers(r.value, Logical(Or, operands)) && StrictlySorted(r.value)
      decreases operands, 0, 0
    {
      var result := [];
      var k := 0;
      while k < |operands|
        invariant k <= |operands|
        invariant forall i :: 0 <= i < k ==> WellFormed(operands[i])
        invariant forall id :: id in result <==>
                    exists i :: 0 <= i < k && Holds(index.tokens, Leaves(id), operands[i])
      {
        var answer := ExecuteFilter(operands[k]);
        if answer.Failure? {
          return answer;
        }
        result := result + answer.value;
        k := k + 1;
      }
      SortDedupSorted(result);
      return Success(SortDedup(result));
    }

    method ExecuteNot(operands: seq<FilterExpression>) returns (r: Result<seq<string>>)
      requires index.Valid()
      ensures r.Success? <==> WellFormed(Logical(Not, operands))
      ensures r.Success? ==> Answers(r.value, Logical(Not, operands)) && StrictlySorted(r.value)
      decreases operands, 0, 0
    {
      if |operands| != 1 {
        return Failure("NOT operator requires exactly one operand");
      }
      var answer := ExecuteFilter(operands[0]);
      if answer.Failure? {
        return answer;
      }
      var allIds := GetAllDocumentIds();
      KeepSorted(allIds, answer.value, false);
      return Success(Keep(allIds, answer.value, false));
    }

    method ExecuteNested(path: string, operator: NestedOperator, value: FilterValue) returns (ids: seq<string>)
      requires index.Valid()
      ensures Answers(ids, Nested(path, operator, value))
    {
      match operator
      case Exists => ids := ExecuteExists(path, value);
      case NestedEqual => ids := ExecuteNestedEquality(path, value);
      case NestedContains => ids := ExecuteNestedContains(path, value);
      case _ => ids := [];
    }

    // All documents with some string or boolean, wherever it is.
    method ExecuteExists(path: string, value: FilterValue) returns (ids: seq<string>)
      requires index.Valid()
      ensures Answers(ids, Nested(path, Exists, value)) && StrictlySorted(ids)
    {
      var result := [];
      var paths := index.fields.Keys;
      while paths != {}
        invariant paths <= index.fields.Keys
        invariant forall id :: id in result <==>
                    exists p :: p in index.fields.Keys - paths && Values(index.fields[p], id)
        decreases paths
      {
        var p :| p in paths;
        var values := Concatenated(index.fields[p].values);
        result := result + values;
        paths := paths - {p};
      }
      SortDedupSorted(result);
      ids := SortDedup(result);
      forall id
        ensures id in ids <==> Holds(index.tokens, Leaves(id), Nested(path, Exists, value))
      {
        ValuedHasText(index.tokens, index.fields, Leaves(id), id);
      }
    }

    method ExecuteNestedEquality(path: string, value: FilterValue) returns (ids: seq<string>)
      requires index.Valid()
      ensures Answers(ids, Nested(path, NestedEqual, value))
    {
      ids := [];
      var parts := Split(path);
      SplitJoin(path);
      if |parts| >= 2 {
        var nestedKey := parts[0] + "." + Join(parts[1..]);
        assert nestedKey == path;
        if nestedKey in index.fields {
          match value
          case StringValue(s) => ids := Lookup(index.fields[nestedKey].values, s);
          case NumberValue(n) => ids := Near(index.fields[nestedKey].numbers, n);
          case BooleanValue(b) => ids := Lookup(index.fields[nestedKey].values, BoolText(b));
          case _ =>
        }
      }
      forall id
        ensures id in ids <==> NestedEqualHolds(Leaves(id), path, value)
      {
        assert RecordsOf(index.tokens, index.fields, Leaves(id), id);
        match value {
          case StringValue(s) => assert InValues(index.fields, path, s, id) <==> HasText(Leaves(id), path, s);
          case NumberValue(n) =>
            assert forall x :: InNumbers(index.fields, path, x, id) <==> HasNumber(Leaves(id), path, x);
          case BooleanValue(b) =>
            assert InValues(index.fields, path, BoolText(b), id) <==> HasText(Leaves(id), path, BoolText(b));
          case _ =>
        }
      }
    }

    method ExecuteNestedContains(path: string, value: FilterValue) returns (ids: seq<string>)
      requires index.Valid()
      ensures Answers(ids, Nested(path, NestedContains, value))
    {
      var parts := Split(path);
      SplitJoin(path);
      if !value.StringValue? {
        ids := ExecuteNestedEquality(path, value);
        assert Answers(ids, Nested(path, NestedEqual, value));
        return;
      }
      var result := [];
      if |parts| >= 2 && parts[0] + "." + Join(parts[1..]) in index.fields {
        var field := index.fields[parts[0] + "." + Join(parts[1..])];
        var texts := field.values.Keys;
        while texts != {}
          invariant texts <= field.values.Keys
          invariant forall id :: id in result <==>
                      exists text :: text in field.values.Keys - texts && Contains(text, value.s) &&
                        InList(field.values, text, id)
          decreases texts
        {
          var text :| text in texts;
          if Contains(text, value.s) {
            result := result + field.values[text];
          }
          texts := texts - {text};
        }
      }
      SortDedupSorted(result);
      ids := SortDedup(result);
      forall id
        ensures id in ids <==> Holds(index.tokens, Leaves(id), Nested(path, NestedContains, value))
      {
        assert RecordsOf(index.tokens, index.fields, Leaves(id), id);
        assert forall text :: InValues(index.fields, path, text, id) <==> HasText(Leaves(id), path, text);
      }
    }

    method ExecuteTextSearch(fields: seq<string>, query: string) returns (ids: seq<string>)
      requires index.Valid()
      ensures Answers(ids, TextSearch(fields, query)) && StrictlySorted(ids)
    {
      var result := [];
      var words := index.tokens(query);
      for i := 0 to |fields|
        invariant forall id :: id in result <==>
                    exists a, b :: 0 <= a < i && 0 <= b < |words| && InWords(index.fields, fields[a], words[b], id)
      {
        if fields[i] in index.fields {
          var before := result;
          for k := 0 to |words|
            invariant forall id :: id in result <==>
                        id in before || exists b :: 0 <= b < k && InWords(index.fields, fields[i], words[b], id)
          {
            result := result + Lookup(index.fields[fields[i]].words, words[k]);
          }
        }
      }
      SortDedupSorted(result);
      ids := SortDedup(result);
      forall id
        ensures id in ids <==> Holds(index.tokens, Leaves(id), TextSearch(fields, query))
      {
        assert RecordsOf(index.tokens, index.fields, Leaves(id), id);
        assert forall a, b :: 0 <= a < |fields| && 0 <= b < |words| ==>
          (InWords(index.fields, fields[a], words[b], id) <==> HasWord(index.tokens, Leaves(id), fields[a], words[b]));
      }
    }

    method GetAllDocumentIds() returns (ids: seq<string>)
      requires index.Valid()
      ensures StrictlySorted(ids)
      ensures forall id :: id in ids <==> Visible(Leaves(id))
    {
      var result := [];
      var paths := index.fields.Keys;
      while paths != {}
        invariant paths <= index.fields.Keys
        invariant forall id :: id in result <==>
                    exists p :: p in index.fields.Keys - paths && Mentions(index.fields[p], id)
        decreases paths
      {
        var p :| p in paths;
        var numbered := SecondOf(index.fields[p].numbers);
        var words := Concatenated(index.fields[p].words);
        var values := Concatenated(index.fields[p].values);
        result := result + numbered + words + values;
        paths := paths - {p};
      }
      SortDedupSorted(result);
      ids := SortDedup(result);
      forall id
        ensures id in ids <==> Visible(Leaves(id))
      {
        MentionedIsVisible(index.tokens, index.fields, Leaves(id), id);
      }
    }
  }

  // The id occurs under some value of one field.
  ghost predicate Values(field: FieldIndex, id: string) {
    exists text :: InList(field.values, text, id)
  }

  // The id occurs somewhere in the index of one field.
  ghost predicate Mentions(field: FieldIndex, id: string) {
    || (exists x :: Numbered(x, id) in field.numbers)
    || (exists word :: InList(field.words, word, id))
    || (exists text :: InList(field.values, text, id))
  }

  lemma ValuedHasText(tokens: Tokens, fields: Fields, leaves: seq<Leaf>, id: string)
    requires RecordsOf(tokens, fields, leaves, id)
    ensures (exists p :: p in fields && Values(fields[p], id)) <==> (exists l :: l in leaves && TextOf(l.value).Some?)
  {
    if p :| p in fields && Values(fields[p], id) {
      var text :| InList(fields[p].values, text, id);
      assert InValues(fields, p, text, id);
      assert HasText(leaves, p, text);
    }
    if l :| l in leaves && TextOf(l.value).Some? {
      assert HasText(leaves, l.path, TextOf(l.value).value);
      assert InValues(fields, l.path, TextOf(l.value).value, id);
      assert Values(fields[l.path], id);
    }
  }

  lemma MentionedIsVisible(tokens: Tokens, fields: Fields, leaves: seq<Leaf>, id: string)
    requires RecordsOf(tokens, fields, leaves, id)
    ensures (exists p :: p in fields && Mentions(fields[p], id)) <==> Visible(leaves)
  {
    if p :| p in fields && Mentions(fields[p], id) {
      if x :| Numbered(x, id) in fields[p].numbers {
        assert InNumbers(fields, p, x, id);
        assert HasNumber(leaves, p, x);
      } else if word :| InList(fields[p].words, word, id) {
        assert InWords(fields, p, word, id);
        assert HasWord(tokens, leaves, p, word);
      } else {
        var text :| InList(fields[p].values, text, id);
        assert InValues(fields, p, text, id);
        assert HasText(leaves, p, text);
      }
    }
    if l :| l in leaves && Indexable(l.value) {
      if l.value.JNumber? {
        assert HasNumber(leaves, l.path, l.value.n);
        assert InNumbers(fields, l.path, l.value.n, id);
      } else {
        assert HasText(leaves, l.path, TextOf(l.value).value);
        assert InValues(fields, l.path, TextOf(l.value).value, id);
      }
      assert Mentions(fields[l.path], id);
    }
  }

  lemma {:induction false} KeepSorted(ids: seq<string>, other: seq<string>, wanted: bool)
    requires StrictlySorted(ids)
    ensures StrictlySorted(Keep(ids, other, wanted))
  {
    if ids != [] {
      KeepSorted(ids[1..], other, wanted);
      var rest := Keep(ids[1..], other, wanted);
      forall k | 0 <= k < |rest|
        ensures LexLess(ids[0], rest[k])
      {
        assert rest[k] in ids[1..];
      }
    }
  }

  method Concatenated(m: map<string, seq<string>>) returns (ids: seq<string>)
    ensures forall id :: id in ids <==> exists key :: InList(m, key, id)
  {
    ids := [];
    var keys := m.Keys;
    while keys != {}
      invariant keys <= m.Keys
      invariant forall id :: id in ids <==> exists key :: key in m.Keys - keys && InList(m, key, id)
      decreases keys
    {
      var key :| key in keys;
      assert forall id :: id in m[key] <==> InList(m, key, id);
      ids := ids + m[key];
      assert m.Keys - (keys - {key}) == (m.Keys - keys) + {key};
      keys := keys - {key};
    }
  }

  method SecondOf(numbers: seq<Numbered>) returns (ids: seq<string>)
    ensures forall id :: id in ids <==> exists x :: Numbered(x, id) in numbers
  {
    ids := [];
    for k := 0 to |numbers|
      invariant forall id :: id in ids <==> exists i :: 0 <= i < k && numbers[i].id == id
    {
      ids := ids + [numbers[k].id];
    }
    forall id
      ensures id in ids <==> exists x :: Numbered(x, id) in numbers
    {
      if id in ids {
        var i :| 0 <= i < |numbers| && numbers[i].id == id;
        assert Numbered(numbers[i].n, id) in numbers;
      }
      if x :| Numbered(x, id) in numbers {
        var i :| 0 <= i < |numbers| && numbers[i] == Numbered(x, id);
        assert numbers[i].id == id;
      }
    }
  }
}
