/** JSON documents, filter expressions, and what an expression means on the leaves of a document. */
module FilterModel {
  import opened Ordering
  import opened Wrappers

  datatype Json =
    | JNull
    | JBool(b: bool)
    | JNumber(n: real)
    | JString(s: string)
    | JArray(items: seq<Json>)
    | JObject(members: seq<Member>)

  datatype Member = Member(key: string, value: Json)

  // A value that is neither an array nor an object, with the path that leads to it.
  datatype Leaf = Leaf(path: string, value: Json)

  function MemberPath(path: string, key: string): string {
    if path == "" then key else path + "." + key
  }

  function ItemPath(path: string, index: nat): string { path + "[" + Decimal(index) + "]" }

  function Flatten(path: string, value: Json): seq<Leaf>
    decreases value, 0
  {
    match value
    case JObject(members) => FlattenMembers(path, members)
    case JArray(items) => FlattenItems(path, items, 0)
    case _ => [Leaf(path, value)]
  }

  function FlattenMembers(path: string, members: seq<Member>): seq<Leaf>
    decreases members, 1
  {
    if members == [] then []
    else Flatten(MemberPath(path, members[0].key), members[0].value) + FlattenMembers(path, members[1..])
  }

  function FlattenItems(path: string, items: seq<Json>, index: nat): seq<Leaf>
    decreases items, 1
  {
    if items == [] then []
    else Flatten(ItemPath(path, index), items[0]) + FlattenItems(path, items[1..], index + 1)
  }

  lemma OneMember(key: string, value: Json)
    requires !value.JObject? && !value.JArray?
    ensures Flatten("", JObject([Member(key, value)])) == [Leaf(key, value)]
  {
    var members := [Member(key, value)];
    assert members[1..] == [];
    assert Flatten("", JObject(members)) == FlattenMembers("", members);
    assert FlattenMembers("", members) == Flatten(key, value) + FlattenMembers("", members[1..]);
    assert FlattenMembers("", members[1..]) == [];
  }

  // ---------- Expressions ----------

  datatype ComparisonOperator =
    | Equal | NotEqual | GreaterThan | GreaterThanOrEqual | LessThan | LessThanOrEqual
    | Like | NotLike | In | NotIn | IsNull | IsNotNull

  datatype LogicalOperator = And | Or | Not

  datatype NestedOperator =
    | ArrayContains | ArrayLength | ObjectHasKey | ObjectHasValue | JsonPath
    | Exists | NestedEqual | NestedContains

  datatype FilterValue =
    | StringValue(s: string)
    | NumberValue(n: real)
    | BooleanValue(b: bool)
    | ArrayValue(items: seq<FilterValue>)
    | ObjectValue(members: map<string, FilterValue>)
    | NullValue

  datatype FilterExpression =
    | Comparison(field: string, operator: ComparisonOperator, value: FilterValue)
    | Logical(logic: LogicalOperator, operands: seq<FilterExpression>)
    | Nested(path: string, nestedOperator: NestedOperator, nestedValue: FilterValue)
    | TextSearch(fields: seq<string>, query: string)

  // The words a text is indexed and searched by: split at white space, in lower case.
  type Tokens = string -> seq<string>

  // ---------- What a leaf says ----------

  function BoolText(b: bool): string { if b then "true" else "false" }

  // Strings and booleans are indexed by their text.
  function TextOf(value: Json): Option<string> {
    match value
    case JString(s) => Some(s)
    case JBool(b) => Some(BoolText(b))
    case _ => None
  }

  ghost predicate HasText(leaves: seq<Leaf>, path: string, text: string) {
    exists l :: l in leaves && l.path == path && TextOf(l.value) == Some(text)
  }

  ghost predicate HasNumber(leaves: seq<Leaf>, path: string, n: real) {
    Leaf(path, JNumber(n)) in leaves
  }

  ghost predicate HasWord(tokens: Tokens, leaves: seq<Leaf>, path: string, word: string) {
    exists l :: l in leaves && l.path == path && l.value.JString? && word in tokens(l.value.s)
  }

  predicate Indexable(value: Json) { value.JString? || value.JBool? || value.JNumber? }

  // The document has a leaf that leaves a trace in the index.
  ghost predicate Visible(leaves: seq<Leaf>) {
    exists l :: l in leaves && Indexable(l.value)
  }

  predicate OccursAt(text: string, part: string, i: int) {
    0 <= i <= |text| - |part| && text[i..i + |part|] == part
  }

  predicate Contains(text: string, part: string) {
    exists i :: 0 <= i <= |text| && OccursAt(text, part, i)
  }

  lemma ContainsIff(text: string, part: string)
    ensures Contains(text, part) <==> exists before, after :: text == before + part + after
  {
    if i :| 0 <= i <= |text| && OccursAt(text, part, i) {
      assert text == text[..i] + part + text[i + |part|..];
    }
    if before, after :| text == before + part + after {
      assert OccursAt(text, part, |before|);
    }
  }

  const EPSILON: real := 1.0 / 4503599627370496.0

  predicate NearlyEqual(x: real, y: real) { -EPSILON < x - y < EPSILON }

  // Numbers are taken for the same when they differ by less than 2 to the power of -52.
  lemma NearlyEqualIff(x: real, y: real)
    ensures NearlyEqual(x, y) <==> -1.0 < (x - y) * 4503599627370496.0 < 1.0
    ensures NearlyEqual(x, y) <==> NearlyEqual(y, x)
  {
  }

  // ---------- The direct reading of an expression ----------

  ghost predicate NestedEqualHolds(leaves: seq<Leaf>, path: string, value: FilterValue) {
    && '.' in path
    && match value
       case StringValue(s) => HasText(leaves, path, s)
       case NumberValue(n) => exists x :: HasNumber(leaves, path, x) && NearlyEqual(x, n)
       case BooleanValue(b) => HasText(leaves, path, BoolText(b))
       case _ => false
  }

  ghost predicate Holds(tokens: Tokens, leaves: seq<Leaf>, e: FilterExpression) {
    match e
    case Comparison(field, operator, value) =>
      (match (operator, value)
       case (Equal, StringValue(s)) => HasText(leaves, field, s)
       case (GreaterThan, NumberValue(n)) => exists x :: HasNumber(leaves, field, x) && x > n
       case _ => false)
    case Logical(And, operands) =>
      operands != [] && forall i :: 0 <= i < |operands| ==> Holds(tokens, leaves, operands[i])
    case Logical(Or, operands) =>
      exists i :: 0 <= i < |operands| && Holds(tokens, leaves, operands[i])
    case Logical(Not, operands) =>
      |operands| == 1 && Visible(leaves) && !Holds(tokens, leaves, operands[0])
    case Nested(path, operator, value) =>
      (match operator
       case Exists => exists l :: l in leaves && TextOf(l.value).Some?
       case NestedEqual => NestedEqualHolds(leaves, path, value)
       case NestedContains =>
         if value.StringValue?
         then '.' in path && exists text :: HasText(leaves, path, text) && Contains(text, value.s)
         else NestedEqualHolds(leaves, path, value)
       case _ => false)
    case TextSearch(fields, query) =>
      exists i, k :: 0 <= i < |fields| && 0 <= k < |tokens(query)| &&
        HasWord(tokens, leaves, fields[i], tokens(query)[k])
  }

  // Every NOT has exactly one operand.
  predicate WellFormed(e: FilterExpression) {
    match e
    case Logical(operator, operands) =>
      && (operator == Not ==> |operands| == 1)
      && forall i :: 0 <= i < |operands| ==> WellFormed(operands[i])
    case _ => true
  }

  // ---------- Documents ----------

  datatype Fact = Fact(id: string, leaf: Leaf)

  function FactsOf(id: string, leaves: seq<Leaf>): (facts: seq<Fact>)
    ensures |facts| == |leaves|
  {
    seq(|leaves|, i requires 0 <= i < |leaves| => Fact(id, leaves[i]))
  }

  // The leaves that belong to one document.
  function LeavesOf(facts: seq<Fact>, id: string): seq<Leaf> {
    if facts == [] then []
    else LeavesOf(facts[..|facts| - 1], id) + if facts[|facts| - 1].id == id then [facts[|facts| - 1].leaf] else []
  }

  lemma {:induction false} LeavesOfConcat(a: seq<Fact>, b: seq<Fact>, id: string)
    ensures LeavesOf(a + b, id) == LeavesOf(a, id) + LeavesOf(b, id)
  {
    if b == [] {
      assert a + b == a;
    } else {
      var k := |b| - 1;
      LeavesOfConcat(a, b[..k], id);
      assert (a + b)[..|a + b| - 1] == a + b[..k];
    }
  }

  lemma {:induction false} LeavesOfOwn(id: string, leaves: seq<Leaf>, other: string)
    ensures LeavesOf(FactsOf(id, leaves), other) == if other == id then leaves else []
  {
    if leaves != [] {
      var k := |leaves| - 1;
      LeavesOfOwn(id, leaves[..k], other);
      assert FactsOf(id, leaves)[..k] == FactsOf(id, leaves[..k]);
      assert leaves == leaves[..k] + [leaves[k]];
    }
  }

  // The facts of documents added one after the other.
  function AllFacts(documents: seq<(string, Json)>): seq<Fact> {
    if documents == [] then []
    else AllFacts(documents[..|documents| - 1])
         + FactsOf(documents[|documents| - 1].0, Flatten("", documents[|documents| - 1].1))
  }

  // The leaves of an id among the facts of all documents.
  function LeavesUnder(documents: seq<(string, Json)>, id: string): seq<Leaf> { LeavesOf(AllFacts(documents), id) }

  lemma LastDocument(documents: seq<(string, Json)>, id: string)
    requires documents != []
    ensures
      var front, (last, document) := documents[..|documents| - 1], documents[|documents| - 1];
      LeavesUnder(documents, id) == if last == id then LeavesUnder(front, id) + Flatten("", document)
        else LeavesUnder(front, id)
  {
    var k := |documents| - 1;
    var leaves := Flatten("", documents[k].1);
    LeavesOfConcat(AllFacts(documents[..k]), FactsOf(documents[k].0, leaves), id);
    LeavesOfOwn(documents[k].0, leaves, id);
  }

  lemma {:induction false} AbsentDocument(documents: seq<(string, Json)>, id: string)
    requires forall k :: 0 <= k < |documents| ==> documents[k].0 != id
    ensures LeavesUnder(documents, id) == []
  {
    if documents != [] {
      LastDocument(documents, id);
      AbsentDocument(documents[..|documents| - 1], id);
    }
  }

  // Under distinct ids, the leaves of an id are those of the one document added under it.
  lemma {:induction false} DistinctDocument(documents: seq<(string, Json)>, k: nat)
    requires k < |documents|
    requires forall i :: 0 <= i < |documents| && i != k ==> documents[i].0 != documents[k].0
    ensures LeavesUnder(documents, documents[k].0) == Flatten("", documents[k].1)
  {
    var last, id := |documents| - 1, documents[k].0;
    var front := documents[..last];
    LastDocument(documents, id);
    if k == last {
      AbsentDocument(front, id);
    } else {
      assert front[k] == documents[k] && documents[last].0 != id;
      DistinctDocument(front, k);
    }
  }
}
