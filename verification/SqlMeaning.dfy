/** The translation of SQL conditions keeps their meaning, where the code supports them. */
module SqlMeaning {
  import opened FilterModel
  import opened Ordering
  import opened SqlFilters
  import opened Wrappers

  // ---------- The meaning of a condition, in two-valued logic ----------

  predicate Ordered(op: SqlOperator, x: real, y: real) {
    match op
    case Lt => x < y
    case LtEq => x <= y
    case Gt => x > y
    case GtEq => x >= y
    case _ => false
  }

  predicate OrderedText(op: SqlOperator, x: string, y: string) {
    match op
    case Lt => LexLess(x, y)
    case LtEq => x == y || LexLess(x, y)
    case Gt => LexLess(y, x)
    case GtEq => x == y || LexLess(y, x)
    case _ => false
  }

  // `leaf op literal`, or `literal op leaf`; a literal compares with values of its own type only, and
  // booleans are not ordered.
  predicate Compares(leaf: Json, op: SqlOperator, literal: SqlValue, columnLeft: bool) {
    match (op, literal, leaf)
    case (Eq, QuotedString(s), JString(x)) => x == s
    case (Eq, Number(n), JNumber(x)) => x == n
    case (Eq, Boolean(b), JBool(x)) => x == b
    case (NotEq, QuotedString(s), JString(x)) => x != s
    case (NotEq, Number(n), JNumber(x)) => x != n
    case (NotEq, Boolean(b), JBool(x)) => x != b
    case (_, Number(n), JNumber(x)) => if columnLeft then Ordered(op, x, n) else Ordered(op, n, x)
    case (_, QuotedString(s), JString(x)) => if columnLeft then OrderedText(op, x, s) else OrderedText(op, s, x)
    case _ => false
  }

  ghost predicate ColumnCompares(leaves: seq<Leaf>, column: string, op: SqlOperator, literal: SqlValue,
                                 columnLeft: bool)
  {
    exists l :: l in leaves && l.path == column && Compares(l.value, op, literal, columnLeft)
  }

  ghost predicate SqlHolds(leaves: seq<Leaf>, e: SqlExpr) {
    match e
    case BinaryOp(left, AndOp, right) => SqlHolds(leaves, left) && SqlHolds(leaves, right)
    case BinaryOp(left, OrOp, right) => SqlHolds(leaves, left) || SqlHolds(leaves, right)
    case BinaryOp(Identifier(name), op, Literal(value)) => ColumnCompares(leaves, name, op, value, true)
    case BinaryOp(Literal(value), op, Identifier(name)) => ColumnCompares(leaves, name, op, value, false)
    case UnaryOp(NotOp, expr) => !SqlHolds(leaves, expr)
    case Parenthesized(inner) => SqlHolds(leaves, inner)
    case _ => false
  }

  // ---------- Where the translation is right ----------

  // Comparisons no document satisfies: with NULL, an order of booleans, less than the empty string.
  predicate NeverTrue(op: SqlOperator, literal: SqlValue, columnLeft: bool) {
    || literal.Null?
    || (literal.Boolean? && op !in {Eq, NotEq})
    || (literal == QuotedString("") && op == if columnLeft then Lt else Gt)
  }

  // Equality with a string that is not the text of a boolean, greater-than with the column on the
  // left of a number, and what never holds anyway.
  predicate SupportedComparison(op: SqlOperator, literal: SqlValue, columnLeft: bool) {
    || (op == Eq && literal.QuotedString? && literal.s !in {"true", "false"})
    || (op == Gt && literal.Number? && columnLeft)
    || NeverTrue(op, literal, columnLeft)
  }

  function ComparisonExpr(column: string, op: SqlOperator, literal: SqlValue, columnLeft: bool): SqlExpr {
    if columnLeft then BinaryOp(Identifier(column), op, Literal(literal))
    else BinaryOp(Literal(literal), op, Identifier(column))
  }

  predicate Supported(e: SqlExpr) {
    match e
    case BinaryOp(left, op, right) =>
      if op == AndOp || op == OrOp then Supported(left) && Supported(right)
      else
        (match (left, right)
         case (Identifier(_), Literal(value)) => ComparisonOf(op).Some? && SupportedComparison(op, value, true)
         case (Literal(value), Identifier(_)) => ComparisonOf(op).Some? && SupportedComparison(op, value, false)
         case _ => false)
    case UnaryOp(unary, expr) => unary == NotOp && Supported(expr)
    case _ => false
  }

  // The translated comparison says the same as the condition about every document.
  ghost predicate MeaningKept(tokens: Tokens, e: SqlExpr) {
    && Convert(e).Success?
    && forall leaves :: Visible(leaves) ==> (Holds(tokens, leaves, Convert(e).value) <==> SqlHolds(leaves, e))
  }

  lemma SupportedComparisonKept(tokens: Tokens, leaves: seq<Leaf>, column: string, op: SqlOperator, literal: SqlValue,
                                columnLeft: bool)
    requires ComparisonOf(op).Some? && SupportedComparison(op, literal, columnLeft)
    ensures
      var e := ComparisonExpr(column, op, literal, columnLeft);
      && Convert(e).Success?
      && (Holds(tokens, leaves, Convert(e).value) <==> SqlHolds(leaves, e))
  {
    if literal.Number? {
      if l :| l in leaves && l.path == column && Compares(l.value, op, literal, columnLeft) {
        assert HasNumber(leaves, column, l.value.n);
      }
      if x :| HasNumber(leaves, column, x) && x > literal.n {
        assert Compares(Leaf(column, JNumber(x)).value, op, literal, columnLeft);
      }
    }
  }

  // A document on which an unsupported comparison and its translation differ.
  function Witness(column: string, op: SqlOperator, literal: SqlValue, columnLeft: bool): Json {
    match literal
    case QuotedString(s) =>
      (match op
       case Eq => JBool(s == "true")
       case LtEq => JString(s)
       case GtEq => JString(s)
       case Lt => JString(if columnLeft then "" else s + "x")
       case Gt => JString(if columnLeft then s + "x" else "")
       case _ => JString(s + "x"))
    case Boolean(b) => JBool(if op == Eq then b else !b)
    case Number(n) =>
      (match op
       case Eq => JNumber(n)
       case NotEq => JNumber(n + 1.0)
       case Lt => JNumber(if columnLeft then n - 1.0 else n + 1.0)
       case LtEq => JNumber(n)
       case GtEq => JNumber(n)
       case _ => JNumber(n - 1.0))
    case Null => JNull
  }

  // What the translated comparison reads off a single leaf.
  predicate LeafMatches(value: Json, op: ComparisonOperator, literal: FilterValue) {
    || (op == Equal && literal.StringValue? && TextOf(value) == Some(literal.s))
    || (op == GreaterThan && literal.NumberValue? && value.JNumber? && value.n > literal.n)
  }

  lemma OneLeaf(tokens: Tokens, column: string, value: Json, op: SqlOperator, literal: SqlValue, columnLeft: bool)
    requires ComparisonOf(op).Some?
    ensures
      var leaves := [Leaf(column, value)];
      var cmp := ComparisonOf(op).value;
      && (ColumnCompares(leaves, column, op, literal, columnLeft) <==> Compares(value, op, literal, columnLeft))
      && (Holds(tokens, leaves, Comparison(column, cmp, LiteralValue(literal))) <==>
            LeafMatches(value, cmp, LiteralValue(literal)))
  {
    var leaves := [Leaf(column, value)];
    assert leaves[0] in leaves;
    assert forall l :: l in leaves <==> l == Leaf(column, value);
    assert forall x :: HasNumber(leaves, column, x) <==> value == JNumber(x);
  }

  lemma WitnessDiffers(column: string, op: SqlOperator, literal: SqlValue, columnLeft: bool)
    requires ComparisonOf(op).Some? && !SupportedComparison(op, literal, columnLeft)
    ensures
      var value := Witness(column, op, literal, columnLeft);
      && Indexable(value)
      && Compares(value, op, literal, columnLeft) != LeafMatches(value, ComparisonOf(op).value, LiteralValue(literal))
  {
    if literal.QuotedString? {
      LongerIsGreater(literal.s, "x");
    }
  }

  lemma UnsupportedComparisonDiffers(tokens: Tokens, column: string, op: SqlOperator, literal: SqlValue,
                                     columnLeft: bool)
    requires ComparisonOf(op).Some? && !SupportedComparison(op, literal, columnLeft)
    ensures
      var leaves := Flatten("", JObject([Member(column, Witness(column, op, literal, columnLeft))]));
      var e := ComparisonExpr(column, op, literal, columnLeft);
      && Visible(leaves)
      && Convert(e).Success?
      && !(Holds(tokens, leaves, Convert(e).value) <==> SqlHolds(leaves, e))
  {
    var value := Witness(column, op, literal, columnLeft);
    WitnessDiffers(column, op, literal, columnLeft);
    OneMember(column, value);
    OneLeaf(tokens, column, value, op, literal, columnLeft);
    assert Leaf(column, value) in [Leaf(column, value)];
  }

  lemma {:induction false} LongerIsGreater(s: string, tail: string)
    requires tail != ""
    ensures LexLess(s, s + tail)
  {
    if s != "" {
      LongerIsGreater(s[1..], tail);
      assert (s + tail)[1..] == s[1..] + tail;
    }
  }

  // One comparison keeps its meaning exactly when it is supported.
  lemma ComparisonKeptIffSupported(tokens: Tokens, column: string, op: SqlOperator, literal: SqlValue, columnLeft: bool)
    requires ComparisonOf(op).Some?
    ensures MeaningKept(tokens, ComparisonExpr(column, op, literal, columnLeft)) <==>
              SupportedComparison(op, literal, columnLeft)
  {
    var e := ComparisonExpr(column, op, literal, columnLeft);
    if SupportedComparison(op, literal, columnLeft) {
      forall leaves | Visible(leaves)
        ensures Holds(tokens, leaves, Convert(e).value) <==> SqlHolds(leaves, e)
      {
        SupportedComparisonKept(tokens, leaves, column, op, literal, columnLeft);
      }
    } else {
      UnsupportedComparisonDiffers(tokens, column, op, literal, columnLeft);
    }
  }

  // ---------- Parentheses ----------

  // What stands in for a condition that is not translated.
  const PLACEHOLDER := BinaryOp(Identifier("id"), Eq, Literal(QuotedString("unknown")))

  // The condition with each parenthesised part replaced by the placeholder.
  function WithoutParentheses(e: SqlExpr): SqlExpr {
    match e
    case BinaryOp(left, op, right) =>
      if op == AndOp || op == OrOp then BinaryOp(WithoutParentheses(left), op, WithoutParentheses(right)) else e
    case UnaryOp(unary, expr) => UnaryOp(unary, WithoutParentheses(expr))
    case Parenthesized(_) => PLACEHOLDER
    case _ => e
  }

  // The translation does not see what stands in parentheses.
  lemma {:induction false} ParenthesesLost(e: SqlExpr)
    ensures Convert(e) == Convert(WithoutParentheses(e))
  {
    match e
    case BinaryOp(left, op, right) =>
      if op == AndOp || op == OrOp {
        ParenthesesLost(left);
        ParenthesesLost(right);
      }
    case UnaryOp(_, expr) => ParenthesesLost(expr);
    case Parenthesized(_) => PlaceholderConverts();
    case _ =>
  }

  lemma PlaceholderConverts()
    ensures Convert(PLACEHOLDER) == Success(Comparison("id", Equal, StringValue("unknown")))
  {
  }

  // A leaf other than "unknown" that satisfies a string comparison, if one does.
  function OtherText(op: SqlOperator, s: string, columnLeft: bool): string {
    match op
    case Eq => s
    case NotEq => s + "x"
    case Lt => if columnLeft then "" else s + "x"
    case LtEq => if columnLeft then "" else s + "x"
    case _ => if columnLeft then s + "x" else ""
  }

  lemma OtherTextCompares(op: SqlOperator, s: string, columnLeft: bool)
    requires ComparisonOf(op).Some? && Compares(JString("unknown"), op, QuotedString(s), columnLeft)
    ensures Compares(JString(OtherText(op, s, columnLeft)), op, QuotedString(s), columnLeft)
    ensures OtherText(op, s, columnLeft) == "unknown" <==> op == Eq
  {
    LongerIsGreater(s, "x");
    assert (s + "x")[|s|] == 'x';
    assert "unknown"[6] == 'n';
  }

  // A document on which a parenthesised comparison and its translation differ: one whose id is
  // "unknown", or else one whose id satisfies the comparison without being "unknown".
  function ParenthesesWitness(column: string, op: SqlOperator, literal: SqlValue, columnLeft: bool): Leaf {
    if column == "id" && Compares(JString("unknown"), op, literal, columnLeft) && literal.QuotedString?
    then Leaf("id", JString(OtherText(op, literal.s, columnLeft)))
    else Leaf("id", JString("unknown"))
  }

  predicate IsPlaceholder(column: string, op: SqlOperator, literal: SqlValue) {
    column == "id" && op == Eq && literal == QuotedString("unknown")
  }

  lemma ParenthesesDiffer(tokens: Tokens, column: string, op: SqlOperator, literal: SqlValue, columnLeft: bool)
    requires ComparisonOf(op).Some? && !IsPlaceholder(column, op, literal)
    ensures
      var leaf := ParenthesesWitness(column, op, literal, columnLeft);
      var leaves := Flatten("", JObject([Member(leaf.path, leaf.value)]));
      var e := Parenthesized(ComparisonExpr(column, op, literal, columnLeft));
      && Visible(leaves)
      && !(Holds(tokens, leaves, Convert(e).value) <==> SqlHolds(leaves, e))
  {
    var leaf := ParenthesesWitness(column, op, literal, columnLeft);
    var e := ComparisonExpr(column, op, literal, columnLeft);
    OneMember(leaf.path, leaf.value);
    IdLeaf(tokens, leaf.value.s);
    ColumnLeaf(leaf, column, op, literal, columnLeft);
    if column == "id" && Compares(JString("unknown"), op, literal, columnLeft) {
      OtherTextCompares(op, literal.s, columnLeft);
    }
    assert leaf in [leaf];
    assert SqlHolds([leaf], Parenthesized(e)) <==> ColumnCompares([leaf], column, op, literal, columnLeft);
  }

  lemma IdLeaf(tokens: Tokens, text: string)
    ensures Holds(tokens, [Leaf("id", JString(text))], Comparison("id", Equal, StringValue("unknown"))) <==>
              text == "unknown"
  {
    OneLeaf(tokens, "id", JString(text), Eq, QuotedString("unknown"), true);
  }

  lemma ColumnLeaf(leaf: Leaf, column: string, op: SqlOperator, literal: SqlValue, columnLeft: bool)
    ensures ColumnCompares([leaf], column, op, literal, columnLeft) <==>
            leaf.path == column && Compares(leaf.value, op, literal, columnLeft)
  {
    assert forall l :: l in [leaf] <==> l == leaf;
    assert leaf in [leaf];
  }

  // Parentheses around a comparison keep its meaning exactly when it is the placeholder itself.
  lemma ParenthesesKeptIffPlaceholder(tokens: Tokens, column: string, op: SqlOperator, literal: SqlValue,
                                      columnLeft: bool)
    requires ComparisonOf(op).Some?
    ensures MeaningKept(tokens, Parenthesized(ComparisonExpr(column, op, literal, columnLeft))) <==>
            IsPlaceholder(column, op, literal)
  {
    var e := ComparisonExpr(column, op, literal, columnLeft);
    if IsPlaceholder(column, op, literal) {
      forall leaves | Visible(leaves)
        ensures Holds(tokens, leaves, Convert(Parenthesized(e)).value) <==> SqlHolds(leaves, Parenthesized(e))
      {
        SupportedComparisonKept(tokens, leaves, column, op, literal, columnLeft);
      }
    } else {
      ParenthesesDiffer(tokens, column, op, literal, columnLeft);
    }
  }

  // What is translated never fails for a NOT of several operands.
  lemma {:induction false} ConvertedIsWellFormed(e: SqlExpr)
    requires Convert(e).Success?
    ensures WellFormed(Convert(e).value)
  {
    match e
    case BinaryOp(left, op, right) =>
      if op == AndOp || op == OrOp {
        ConvertedIsWellFormed(left);
        ConvertedIsWellFormed(right);
      }
    case UnaryOp(_, expr) => ConvertedIsWellFormed(expr);
    case _ =>
  }

  lemma ComparisonConverts(left: SqlExpr, op: SqlOperator, right: SqlExpr)
    requires Supported(BinaryOp(left, op, right)) && op != AndOp && op != OrOp
    ensures Convert(BinaryOp(left, op, right)).Success? && WellFormed(Convert(BinaryOp(left, op, right)).value)
  {
  }

  lemma {:induction false} SupportedConverts(e: SqlExpr)
    requires Supported(e)
    ensures Convert(e).Success? && WellFormed(Convert(e).value)
  {
    match e
    case BinaryOp(left, op, right) =>
      if op == AndOp || op == OrOp {
        SupportedConverts(left);
        SupportedConverts(right);
      } else {
        ComparisonConverts(left, op, right);
      }
    case UnaryOp(_, expr) =>
      SupportedConverts(expr);
  }

  lemma HoldsOfTwo(tokens: Tokens, leaves: seq<Leaf>, a: FilterExpression, b: FilterExpression)
    ensures Holds(tokens, leaves, Logical(And, [a, b])) <==> Holds(tokens, leaves, a) && Holds(tokens, leaves, b)
    ensures Holds(tokens, leaves, Logical(Or, [a, b])) <==> Holds(tokens, leaves, a) || Holds(tokens, leaves, b)
  {
    assert [a, b][0] == a && [a, b][1] == b;
  }

  // The translation of a supported condition holds of a document exactly when the condition does.
  lemma {:induction false} SupportedKept(tokens: Tokens, leaves: seq<Leaf>, e: SqlExpr)
    requires Supported(e) && Visible(leaves)
    ensures Convert(e).Success? && (Holds(tokens, leaves, Convert(e).value) <==> SqlHolds(leaves, e))
  {
    SupportedConverts(e);
    match e
    case BinaryOp(left, op, right) =>
      if op == AndOp || op == OrOp {
        SupportedKept(tokens, leaves, left);
        SupportedKept(tokens, leaves, right);
        HoldsOfTwo(tokens, leaves, Convert(left).value, Convert(right).value);
      } else if left.Identifier? {
        SupportedComparisonKept(tokens, leaves, left.name, op, right.value, true);
      } else {
        SupportedComparisonKept(tokens, leaves, right.name, op, left.value, false);
      }
    case UnaryOp(_, expr) =>
      SupportedKept(tokens, leaves, expr);
  }

  // With parentheses anywhere, the translation means the condition with the placeholder in their stead.
  lemma TranslationMeans(tokens: Tokens, leaves: seq<Leaf>, e: SqlExpr)
    requires Supported(WithoutParentheses(e)) && Visible(leaves)
    ensures Convert(e).Success?
    ensures Holds(tokens, leaves, Convert(e).value) <==> SqlHolds(leaves, WithoutParentheses(e))
  {
    ParenthesesLost(e);
    SupportedKept(tokens, leaves, WithoutParentheses(e));
  }

  // A supported condition has no parentheses to lose.
  lemma {:induction false} SupportedHasNone(e: SqlExpr)
    requires Supported(e)
    ensures WithoutParentheses(e) == e
  {
    match e
    case BinaryOp(left, op, right) =>
      if op == AndOp || op == OrOp {
        SupportedHasNone(left);
        SupportedHasNone(right);
      }
    case UnaryOp(_, expr) => SupportedHasNone(expr);
  }

  lemma {:induction false} HoldsOnlyOfVisible(tokens: Tokens, leaves: seq<Leaf>, e: FilterExpression)
    requires Holds(tokens, leaves, e)
    ensures Visible(leaves)
  {
    match e
    case Logical(And, operands) => HoldsOnlyOfVisible(tokens, leaves, operands[0]);
    case Logical(Or, operands) =>
      var i :| 0 <= i < |operands| && Holds(tokens, leaves, operands[i]);
      HoldsOnlyOfVisible(tokens, leaves, operands[i]);
    case Logical(Not, _) =>
    case TextSearch(fields, query) =>
      var i, k :| 0 <= i < |fields| && 0 <= k < |tokens(query)| && HasWord(tokens, leaves, fields[i], tokens(query)[k]);
    case _ =>
  }
}
