/** The inverted, numeric and word indexes of the filter engine, and what they record. */
module FilterIndexes {
  import opened FilterModel
  import opened Wrappers

  datatype Numbered = Numbered(n: real, id: string)

  // Document ids by value, by number and by word, for one field path.
  datatype FieldIndex = FieldIndex(
    values: map<string, seq<string>>,
    numbers: seq<Numbered>,
    words: map<string, seq<string>>)

  type Fields = map<string, FieldIndex>

  // ---------- What an index says ----------

  predicate InList(m: map<string, seq<string>>, key: string, id: string) { key in m && id in m[key] }

  predicate InValues(fields: Fields, path: string, text: string, id: string) {
    path in fields && InList(fields[path].values, text, id)
  }

  predicate InNumbers(fields: Fields, path: string, n: real, id: string) {
    path in fields && Numbered(n, id) in fields[path].numbers
  }

  predicate InWords(fields: Fields, path: string, word: string, id: string) {
    path in fields && InList(fields[path].words, word, id)
  }

  // The index holds exactly what the documents' leaves say.
  ghost predicate Records(tokens: Tokens, fields: Fields, facts: seq<Fact>) {
    forall id :: RecordsOf(tokens, fields, LeavesOf(facts, id), id)
  }

  ghost predicate RecordsOf(tokens: Tokens, fields: Fields, leaves: seq<Leaf>, id: string) {
    && (forall path, text :: InValues(fields, path, text, id) <==> HasText(leaves, path, text))
    && (forall path, n :: InNumbers(fields, path, n, id) <==> HasNumber(leaves, path, n))
    && (forall path, word :: InWords(fields, path, word, id) <==> HasWord(tokens, leaves, path, word))
  }

  // ---------- Adding a leaf ----------

  function Push(m: map<string, seq<string>>, key: string, id: string): map<string, seq<string>> {
    m[key := (if key in m then m[key] else []) + [id]]
  }

  function PushEach(m: map<string, seq<string>>, keys: seq<string>, id: string): map<string, seq<string>> {
    if keys == [] then m else Push(PushEach(m, keys[..|keys| - 1], id), keys[|keys| - 1], id)
  }

  lemma {:induction false} PushEachMembers(m: map<string, seq<string>>, keys: seq<string>, id: string, key: string,
                                           other: string)
    ensures InList(PushEach(m, keys, id), key, other) <==> InList(m, key, other) || (other == id && key in keys)
  {
    if keys != [] {
      PushEachMembers(m, keys[..|keys| - 1], id, key, other);
      assert keys == keys[..|keys| - 1] + [keys[|keys| - 1]];
    }
  }

  const EMPTY_FIELD := FieldIndex(map[], [], map[])

  function WithValue(tokens: Tokens, field: FieldIndex, id: string, value: Json): FieldIndex {
    match value
    case JString(s) => field.(values := Push(field.values, s, id), words := PushEach(field.words, tokens(s), id))
    case JNumber(n) => field.(numbers := field.numbers + [Numbered(n, id)])
    case JBool(b) => field.(values := Push(field.values, BoolText(b), id))
    case _ => field
  }

  function WithLeaf(tokens: Tokens, fields: Fields, id: string, leaf: Leaf): Fields {
    var field := if leaf.path in fields then fields[leaf.path] else EMPTY_FIELD;
    fields[leaf.path := WithValue(tokens, field, id, leaf.value)]
  }

  function WithLeaves(tokens: Tokens, fields: Fields, id: string, leaves: seq<Leaf>): Fields {
    if leaves == [] then fields
    else WithLeaf(tokens, WithLeaves(tokens, fields, id, leaves[..|leaves| - 1]), id, leaves[|leaves| - 1])
  }

  lemma {:induction false} WithLeavesConcat(tokens: Tokens, fields: Fields, id: string, a: seq<Leaf>, b: seq<Leaf>)
    ensures WithLeaves(tokens, fields, id, a + b) == WithLeaves(tokens, WithLeaves(tokens, fields, id, a), id, b)
  {
    if b == [] {
      assert a + b == a;
    } else {
      WithLeavesConcat(tokens, fields, id, a, b[..|b| - 1]);
      assert (a + b)[..|a + b| - 1] == a + b[..|b| - 1];
    }
  }

  // One more leaf of document `id` adds to the index exactly what the leaf says.
  lemma WithLeafAdds(tokens: Tokens, fields: Fields, id: string, leaf: Leaf)
    ensures
      var fields' := WithLeaf(tokens, fields, id, leaf);
      && (forall path, text, other :: InValues(fields', path, text, other) <==>
            || InValues(fields, path, text, other)
            || (other == id && path == leaf.path && TextOf(leaf.value) == Some(text)))
      && (forall path, n, other :: InNumbers(fields', path, n, other) <==>
            InNumbers(fields, path, n, other) || (other == id && Leaf(path, JNumber(n)) == leaf))
      && (forall path, word, other :: InWords(fields', path, word, other) <==>
            || InWords(fields, path, word, other)
            || (other == id && path == leaf.path && leaf.value.JString? && word in tokens(leaf.value.s)))
  {
    var fields' := WithLeaf(tokens, fields, id, leaf);
    var field := if leaf.path in fields then fields[leaf.path] else EMPTY_FIELD;
    forall path, word, other
      ensures InWords(fields', path, word, other) <==>
                || InWords(fields, path, word, other)
                || (other == id && path == leaf.path && leaf.value.JString? && word in tokens(leaf.value.s))
    {
      if leaf.value.JString? {
        PushEachMembers(field.words, tokens(leaf.value.s), id, word, other);
      }
    }
  }

  lemma WithLeafRecords(tokens: Tokens, fields: Fields, facts: seq<Fact>, id: string, leaf: Leaf)
    requires Records(tokens, fields, facts)
    ensures Records(tokens, WithLeaf(tokens, fields, id, leaf), facts + [Fact(id, leaf)])
  {
    var fields' := WithLeaf(tokens, fields, id, leaf);
    var facts' := facts + [Fact(id, leaf)];
    WithLeafAdds(tokens, fields, id, leaf);
    assert facts'[..|facts|] == facts;
    forall other
      ensures RecordsOf(tokens, fields', LeavesOf(facts', other), other)
    {
      assert RecordsOf(tokens, fields, LeavesOf(facts, other), other);
      var before, after := LeavesOf(facts, other), LeavesOf(facts', other);
      assert after == before + if other == id then [leaf] else [];
      assert forall l :: l in after <==> l in before || (other == id && l == leaf);
    }
  }

  lemma {:induction false} WithLeavesRecords(tokens: Tokens, fields: Fields, facts: seq<Fact>, id: string,
                                             leaves: seq<Leaf>)
    requires Records(tokens, fields, facts)
    ensures Records(tokens, WithLeaves(tokens, fields, id, leaves), facts + FactsOf(id, leaves))
  {
    if leaves == [] {
      assert facts + FactsOf(id, leaves) == facts;
    } else {
      var k := |leaves| - 1;
      WithLeavesRecords(tokens, fields, facts, id, leaves[..k]);
      WithLeafRecords(tokens, WithLeaves(tokens, fields, id, leaves[..k]), facts + FactsOf(id, leaves[..k]), id,
                      leaves[k]);
      assert facts + FactsOf(id, leaves) == facts + FactsOf(id, leaves[..k]) + [Fact(id, leaves[k])];
    }
  }

  class FilterIndex {
    const tokens: Tokens
    var fields: Fields
    // All leaves indexed so far, in order, each with its document.
    ghost var facts: seq<Fact>

    ghost predicate Valid()
      reads this
    {
      Records(tokens, fields, facts)
    }

    constructor (tokens: Tokens)
      ensures Valid() && facts == [] && this.tokens == tokens
    {
      this.tokens := tokens;
      fields, facts := map[], [];
    }

    method AddDocument(id: string, document: Json)
      requires Valid()
      modifies this
      ensures Valid()
      ensures facts == old(facts) + FactsOf(id, Flatten("", document))
    {
      IndexValue(id, "", document);
      WithLeavesRecords(tokens, old(fields), facts, id, Flatten("", document));
      facts := facts + FactsOf(id, Flatten("", document));
    }

    method IndexValue(id: string, path: string, value: Json)
      modifies this`fields
      ensures fields == WithLeaves(tokens, old(fields), id, Flatten(path, value))
      decreases value, 0
    {
      match value
      case JObject(members) => IndexMembers(id, path, members);
      case JArray(items) => IndexItems(id, path, items);
      case _ =>
        IndexLeaf(id, path, value);
        assert [Leaf(path, value)][..0] == [];
    }

    method IndexMembers(id: string, path: string, members: seq<Member>)
      modifies this`fields
      ensures fields == WithLeaves(tokens, old(fields), id, FlattenMembers(path, members))
      decreases members, 1
    {
      var k := 0;
      assert members[0..] == members;
      while k < |members|
        invariant k <= |members|
        invariant WithLeaves(tokens, fields, id, FlattenMembers(path, members[k..]))
               == WithLeaves(tokens, old(fields), id, FlattenMembers(path, members))
      {
        var newPath := if path == "" then members[k].key else path + "." + members[k].key;
        label turn:
        IndexValue(id, newPath, members[k].value);
        assert members[k..][1..] == members[k + 1..];
        WithLeavesConcat(tokens, old@turn(fields), id, Flatten(newPath, members[k].value),
                         FlattenMembers(path, members[k + 1..]));
        k := k + 1;
      }
    }

    method IndexItems(id: string, path: string, items: seq<Json>)
      modifies this`fields
      ensures fields == WithLeaves(tokens, old(fields), id, FlattenItems(path, items, 0))
      decreases items, 1
    {
      var k := 0;
      assert items[0..] == items;
      while k < |items|
        invariant k <= |items|
        invariant WithLeaves(tokens, fields, id, FlattenItems(path, items[k..], k))
               == WithLeaves(tokens, old(fields), id, FlattenItems(path, items, 0))
      {
        var newPath := ItemPath(path, k);
        label turn:
        IndexValue(id, newPath, items[k]);
        assert items[k..][1..] == items[k + 1..];
        WithLeavesConcat(tokens, old@turn(fields), id, Flatten(newPath, items[k]),
                         FlattenItems(path, items[k + 1..], k + 1));
        k := k + 1;
      }
    }

    method IndexLeaf(id: string, path: string, value: Json)
      modifies this`fields
      ensures fields == WithLeaf(tokens, old(fields), id, Leaf(path, value))
    {
      var field := if path in fields then fields[path] else EMPTY_FIELD;
      match value
      case JString(s) =>
        field := field.(values := Push(field.values, s, id));
        var words := tokens(s);
        ghost var before := field;
        for k := 0 to |words|
          invariant field == before.(words := PushEach(before.words, words[..k], id))
        {
          assert words[..k + 1][..k] == words[..k];
          field := field.(words := Push(field.words, words[k], id));
        }
        assert words[..|words|] == words;
        fields := fields[path := field];
      case JNumber(n) =>
        fields := fields[path := field.(numbers := field.numbers + [Numbered(n, id)])];
      case JBool(b) =>
        fields := fields[path := field.(values := Push(field.values, BoolText(b), id))];
      case _ =>
        fields := fields[path := field];
    }
  }
}
