/** Which path a value inside a document is indexed under: the route to it, written out. */
module FilterRoutes {
  import opened FilterModel
  import opened Ordering
  import opened Wrappers
  import FilterEngines

  // One move into a document: to the value of a member, or to an item of an array.
  datatype Move = Key(key: string) | Item(index: nat)

  type Route = seq<Move>

  predicate IsLeaf(value: Json) { !value.JObject? && !value.JArray? }

  // The route leads from the document to the leaf.
  ghost predicate Leads(d: Json, route: Route, value: Json)
    decreases |route|
  {
    if route == [] then d == value && IsLeaf(value)
    else
      match route[0]
      case Key(key) =>
        d.JObject? &&
        exists i :: 0 <= i < |d.members| && d.members[i].key == key && Leads(d.members[i].value, route[1..], value)
      case Item(index) =>
        d.JArray? && index < |d.items| && Leads(d.items[index], route[1..], value)
  }

  // A route in text: keys with dots in between, item numbers in brackets. Empty keys in front leave no trace.
  function Written(route: Route): string {
    if route == [] then ""
    else if route[0] == Key("") then Written(route[1..])
    else (match route[0] case Key(key) => key case Item(index) => "[" + Decimal(index) + "]") + Onward(route[1..])
  }

  // The text of the moves that follow others.
  function Onward(route: Route): string {
    if route == [] then ""
    else
      (match route[0] case Key(key) => "." + key case Item(index) => "[" + Decimal(index) + "]") + Onward(route[1..])
  }

  // The text of a route from a value that has this path.
  function From(path: string, route: Route): string {
    if path == "" then Written(route) else path + Onward(route)
  }

  lemma FromKey(path: string, key: string, rest: Route)
    ensures From(path, [Key(key)] + rest) == From(MemberPath(path, key), rest)
  {
    var route := [Key(key)] + rest;
    assert route[1..] == rest;
    if path != "" {
      assert path + ("." + key + Onward(rest)) == path + "." + key + Onward(rest);
    }
  }

  lemma FromItem(path: string, index: nat, rest: Route)
    ensures From(path, [Item(index)] + rest) == From(ItemPath(path, index), rest)
  {
    var route := [Item(index)] + rest;
    assert route[1..] == rest;
    var item := "[" + Decimal(index) + "]";
    assert ItemPath(path, index) == path + item;
    if path != "" {
      assert path + (item + Onward(rest)) == path + item + Onward(rest);
    } else {
      assert path + item == item;
    }
  }

  // Each leaf of the flattening is reached by a route, and its path is that route written out after the
  // path of the value it starts from.
  lemma {:induction false} LeafHasRoute(path: string, d: Json, l: Leaf) returns (route: Route)
    requires l in Flatten(path, d)
    ensures Leads(d, route, l.value) && l.path == From(path, route)
    decreases d, 0
  {
    match d
    case JObject(members) => route := MemberHasRoute(path, members, members, l);
    case JArray(items) => route := ItemHasRoute(path, items, items, 0, l);
    case _ => route := [];
  }

  lemma {:induction false} MemberHasRoute(path: string, all: seq<Member>, members: seq<Member>, l: Leaf)
    returns (route: Route)
    requires l in FlattenMembers(path, members) && |members| <= |all| && all[|all| - |members|..] == members
    ensures Leads(JObject(all), route, l.value) && l.path == From(path, route)
    decreases members, 1
  {
    var first := members[0];
    if l in Flatten(MemberPath(path, first.key), first.value) {
      var rest := LeafHasRoute(MemberPath(path, first.key), first.value, l);
      route := [Key(first.key)] + rest;
      FromKey(path, first.key, rest);
      assert route[1..] == rest && all[|all| - |members|] == first;
    } else {
      route := MemberHasRoute(path, all, members[1..], l);
    }
  }

  lemma {:induction false} ItemHasRoute(path: string, all: seq<Json>, items: seq<Json>, index: nat, l: Leaf)
    returns (route: Route)
    requires l in FlattenItems(path, items, index) && index + |items| == |all| && all[index..] == items
    ensures Leads(JArray(all), route, l.value) && l.path == From(path, route)
    decreases items, 1
  {
    if l in Flatten(ItemPath(path, index), items[0]) {
      var rest := LeafHasRoute(ItemPath(path, index), items[0], l);
      route := [Item(index)] + rest;
      FromItem(path, index, rest);
      assert route[1..] == rest && all[index] == items[0];
    } else {
      route := ItemHasRoute(path, all, items[1..], index + 1, l);
    }
  }

  lemma {:induction false} MemberIsFlattened(path: string, members: seq<Member>, i: nat, l: Leaf)
    requires i < |members| && l in Flatten(MemberPath(path, members[i].key), members[i].value)
    ensures l in FlattenMembers(path, members)
  {
    if i > 0 {
      MemberIsFlattened(path, members[1..], i - 1, l);
    }
  }

  lemma {:induction false} ItemIsFlattened(path: string, items: seq<Json>, from: nat, i: nat, l: Leaf)
    requires i < |items| && l in Flatten(ItemPath(path, from + i), items[i])
    ensures l in FlattenItems(path, items, from)
  {
    if i > 0 {
      ItemIsFlattened(path, items[1..], from + 1, i - 1, l);
    }
  }

  lemma {:induction false} RouteHasLeaf(path: string, d: Json, route: Route, value: Json)
    requires Leads(d, route, value)
    ensures Leaf(From(path, route), value) in Flatten(path, d)
    decreases |route|
  {
    if route == [] {
      assert path + "" == path;
    } else {
      var rest := route[1..];
      assert route == [route[0]] + rest;
      match route[0]
      case Key(key) =>
        var i :| 0 <= i < |d.members| && d.members[i].key == key && Leads(d.members[i].value, rest, value);
        RouteHasLeaf(MemberPath(path, key), d.members[i].value, rest, value);
        FromKey(path, key, rest);
        MemberIsFlattened(path, d.members, i, Leaf(From(path, route), value));
      case Item(index) =>
        RouteHasLeaf(ItemPath(path, index), d.items[index], rest, value);
        FromItem(path, index, rest);
        ItemIsFlattened(path, d.items, 0, index, Leaf(From(path, route), value));
    }
  }

  // A document's leaves are exactly the values some route leads to, each under its route written out.
  lemma LeavesAreRoutes(d: Json, l: Leaf)
    ensures l in Flatten("", d) <==> exists route :: Leads(d, route, l.value) && l.path == Written(route)
  {
    if l in Flatten("", d) {
      var route := LeafHasRoute("", d, l);
      assert l.path == Written(route);
    }
    if route :| Leads(d, route, l.value) && l.path == Written(route) {
      RouteHasLeaf("", d, route, l.value);
    }
  }

  // ---------- Routes through objects only ----------

  function Keys(keys: seq<string>): (route: Route)
    ensures |route| == |keys|
  {
    seq(|keys|, i requires 0 <= i < |keys| => Key(keys[i]))
  }

  lemma {:induction false} OnwardKeys(keys: seq<string>)
    requires keys != []
    ensures Onward(Keys(keys)) == "." + FilterEngines.Join(keys)
  {
    assert Keys(keys)[1..] == Keys(keys[1..]);
    if |keys| > 1 {
      OnwardKeys(keys[1..]);
    }
  }

  // A member inside members is indexed under all their keys, joined by dots; an empty key in front is skipped.
  lemma {:induction false} WrittenKeys(keys: seq<string>)
    requires keys != [] && keys[0] != ""
    ensures Written(Keys(keys)) == FilterEngines.Join(keys)
  {
    assert Keys(keys)[1..] == Keys(keys[1..]);
    if |keys| > 1 {
      OnwardKeys(keys[1..]);
    }
  }

  // ---------- When a path tells the route ----------

  const STOPS := {'.', '['}

  predicate PlainKey(key: string) { key != "" && forall c :: c in STOPS ==> c !in key }

  predicate PlainRoute(route: Route) { forall i :: 0 <= i < |route| && route[i].Key? ==> PlainKey(route[i].key) }

  predicate Stopped(text: string, stops: set<char>) { text == "" || text[0] in stops }

  // Two texts that go on after a first part without stops agree in that part.
  lemma {:induction false} SamePart(u: string, x: string, v: string, y: string, stops: set<char>)
    requires u + x == v + y && Stopped(x, stops) && Stopped(y, stops)
    requires (forall c :: c in stops ==> c !in u) && forall c :: c in stops ==> c !in v
    ensures u == v && x == y
  {
    assert u == "" ==> u + x == x;
    assert v == "" ==> v + y == y;
    assert u != "" ==> (u + x)[0] == u[0] && u[0] in u;
    assert v != "" ==> (v + y)[0] == v[0] && v[0] in v;
    if u != "" && v != "" {
      assert (u + x)[1..] == u[1..] + x && (v + y)[1..] == v[1..] + y;
      SamePart(u[1..], x, v[1..], y, stops);
      assert u == [u[0]] + u[1..] && v == [v[0]] + v[1..];
    }
  }

  lemma SameItem(i: nat, x: string, j: nat, y: string)
    requires "[" + Decimal(i) + "]" + x == "[" + Decimal(j) + "]" + y
    ensures i == j && x == y
  {
    DecimalReads(i);
    DecimalReads(j);
    Bracketed(Decimal(i), x);
    Bracketed(Decimal(j), y);
    SamePart(Decimal(i), "]" + x, Decimal(j), "]" + y, {']'});
    SameTail(x, y);
    DecimalInjective(i, j);
  }

  lemma Bracketed(number: string, rest: string)
    ensures ("[" + number + "]" + rest)[1..] == number + ("]" + rest)
  {
  }

  lemma SameTail(x: string, y: string)
    requires "]" + x == "]" + y
    ensures x == y
  {
    assert ("]" + x)[1..] == x && ("]" + y)[1..] == y;
  }

  lemma OnwardStopped(route: Route)
    ensures Stopped(Onward(route), STOPS)
  {
  }

  lemma SameKey(k: string, x: string, l: string, y: string)
    requires PlainKey(k) && PlainKey(l) && Stopped(x, STOPS) && Stopped(y, STOPS) && k + x == l + y
    ensures k == l && x == y
  {
    SamePart(k, x, l, y, STOPS);
  }

  lemma {:induction false} OnwardInjective(a: Route, b: Route)
    requires PlainRoute(a) && PlainRoute(b) && Onward(a) == Onward(b)
    ensures a == b
  {
    OnwardStarts(a);
    OnwardStarts(b);
    if a != [] && b != [] {
      var x, y := Onward(a[1..]), Onward(b[1..]);
      assert a == [a[0]] + a[1..] && b == [b[0]] + b[1..];
      OnwardStopped(a[1..]);
      OnwardStopped(b[1..]);
      match (a[0], b[0])
      case (Key(k), Key(l)) =>
        assert ("." + k + x)[1..] == k + x && ("." + l + y)[1..] == l + y;
        SameKey(k, x, l, y);
        OnwardInjective(a[1..], b[1..]);
      case (Item(i), Item(j)) =>
        SameItem(i, x, j, y);
        OnwardInjective(a[1..], b[1..]);
      case _ =>
        assert false;
    }
  }

  lemma OnwardStarts(route: Route)
    ensures route == [] <==> Onward(route) == ""
    ensures route != [] ==> Onward(route)[0] == if route[0].Key? then '.' else '['
  {
  }

  // Where keys are not empty and hold neither dots nor brackets, no two routes have the same path.
  lemma WrittenInjective(a: Route, b: Route)
    requires PlainRoute(a) && PlainRoute(b) && Written(a) == Written(b)
    ensures a == b
  {
    WrittenStarts(a);
    WrittenStarts(b);
    if a != [] && b != [] {
      var x, y := Onward(a[1..]), Onward(b[1..]);
      assert a == [a[0]] + a[1..] && b == [b[0]] + b[1..];
      OnwardStopped(a[1..]);
      OnwardStopped(b[1..]);
      match (a[0], b[0])
      case (Key(k), Key(l)) =>
        SameKey(k, x, l, y);
        OnwardInjective(a[1..], b[1..]);
      case (Item(i), Item(j)) =>
        SameItem(i, x, j, y);
        OnwardInjective(a[1..], b[1..]);
      case _ =>
        assert false;
    }
  }

  lemma WrittenStarts(route: Route)
    requires PlainRoute(route)
    ensures route == [] <==> Written(route) == ""
    ensures route != [] ==> (Written(route)[0] == '[' <==> route[0].Item?)
  {
    if route != [] && route[0].Key? {
      assert PlainKey(route[0].key);
      assert Written(route)[0] == route[0].key[0] && route[0].key[0] in route[0].key;
    }
  }

  // Every key on the way to a leaf is plain.
  ghost predicate PlainDocument(d: Json) { forall route, value :: Leads(d, route, value) ==> PlainRoute(route) }

  // In such a document a path has a text exactly when the one route it is written from leads to it.
  lemma TextAtRoute(d: Json, route: Route, text: string)
    requires PlainDocument(d) && PlainRoute(route)
    ensures HasText(Flatten("", d), Written(route), text) <==>
            exists value :: Leads(d, route, value) && TextOf(value) == Some(text)
  {
    var path, leaves := Written(route), Flatten("", d);
    if HasText(leaves, path, text) {
      var l :| l in leaves && l.path == path && TextOf(l.value) == Some(text);
      LeavesAreRoutes(d, l);
      var found :| Leads(d, found, l.value) && l.path == Written(found);
      WrittenInjective(found, route);
    }
    if value :| Leads(d, route, value) && TextOf(value) == Some(text) {
      RouteHasLeaf("", d, route, value);
      assert Leaf(path, value) in leaves;
    }
  }

  // So nested equality finds exactly the member the keys lead to.
  lemma NestedMemberFoundIff(tokens: Tokens, d: Json, keys: seq<string>, text: string)
    requires PlainDocument(d) && |keys| >= 2 && forall i :: 0 <= i < |keys| ==> PlainKey(keys[i])
    ensures Holds(tokens, Flatten("", d), Nested(FilterEngines.Join(keys), NestedEqual, StringValue(text))) <==>
            exists value :: Leads(d, Keys(keys), value) && TextOf(value) == Some(text)
  {
    WrittenKeys(keys);
    JoinHasDot(keys);
    TextAtRoute(d, Keys(keys), text);
  }

  lemma JoinHasDot(keys: seq<string>)
    requires |keys| >= 2
    ensures '.' in FilterEngines.Join(keys)
  {
    var rest := FilterEngines.Join(keys[1..]);
    assert FilterEngines.Join(keys) == keys[0] + "." + rest;
    assert (keys[0] + "." + rest)[|keys[0]|] == '.';
  }

  // With other keys a document can mix values up: a dotted key and a key inside a key.
  lemma RoutesCollide(value: Json)
    requires IsLeaf(value)
    ensures
      var dotted := JObject([Member("a.b", value)]);
      var nested := JObject([Member("a", JObject([Member("b", value)]))]);
      Flatten("", dotted) == Flatten("", nested) == [Leaf("a.b", value)]
  {
    var inner := JObject([Member("b", value)]);
    OneMember("a.b", value);
    var members, inside := [Member("a", inner)], [Member("b", value)];
    assert members[1..] == [] && inside[1..] == [];
    assert Flatten("", JObject(members)) == Flatten("a", inner) + FlattenMembers("", members[1..]);
    assert Flatten("a", inner) == FlattenMembers("a", inside);
    assert MemberPath("a", "b") == "a.b";
    assert FlattenMembers("a", inside) == Flatten("a.b", value) + FlattenMembers("a", inside[1..]);
  }
}
