/** SQL conditions and their translation into filter expressions. */
module SqlFilters {
  import opened FilterModel
  import opened Wrappers

  datatype SqlValue = QuotedString(s: string) | Number(n: real) | Boolean(b: bool) | Null

  datatype SqlOperator = Eq | NotEq | Lt | LtEq | Gt | GtEq | AndOp | OrOp | OtherOperator(name: string)

  datatype SqlUnary = NotOp | OtherUnary(name: string)

  datatype SqlExpr =
    | Identifier(name: string)
    | Literal(value: SqlValue)
    | BinaryOp(left: SqlExpr, op: SqlOperator, right: SqlExpr)
    | UnaryOp(unary: SqlUnary, expr: SqlExpr)
    | Parenthesized(inner: SqlExpr)
    | OtherExpr(text: string)

  // ---------- The translation ----------

  function LiteralValue(value: SqlValue): FilterValue {
    match value
    case QuotedString(s) => StringValue(s)
    case Number(n) => NumberValue(n)
    case Boolean(b) => BooleanValue(b)
    case Null => NullValue
  }

  // A column and a literal, in either order.
  function ExtractFieldValue(left: SqlExpr, right: SqlExpr): Result<(string, FilterValue)> {
    match (left, right)
    case (Identifier(name), Literal(value)) => Success((name, LiteralValue(value)))
    case (Literal(value), Identifier(name)) => Success((name, LiteralValue(value)))
    case _ => Failure("Unable to extract field and value from SQL expression")
  }

  function ComparisonOf(op: SqlOperator): Option<ComparisonOperator> {
    match op
    case Eq => Some(Equal)
    case NotEq => Some(NotEqual)
    case Lt => Some(LessThan)
    case LtEq => Some(LessThanOrEqual)
    case Gt => Some(GreaterThan)
    case GtEq => Some(GreaterThanOrEqual)
    case _ => None
  }

  function ConvertComparison(left: SqlExpr, op: ComparisonOperator, right: SqlExpr): Result<FilterExpression> {
    match ExtractFieldValue(left, right)
    case Success((field, value)) => Success(Comparison(field, op, value))
    case Failure(error) => Failure(error)
  }

  // The left operand's failure comes first.
  function Both(logic: LogicalOperator, left: Result<FilterExpression>, right: Result<FilterExpression>)
    : Result<FilterExpression>
  {
    match (left, right)
    case (Failure(error), _) => Failure(error)
    case (_, Failure(error)) => Failure(error)
    case (Success(l), Success(r)) => Success(Logical(logic, [l, r]))
  }

  function Negated(operand: Result<FilterExpression>): Result<FilterExpression> {
    match operand
    case Failure(error) => Failure(error)
    case Success(o) => Success(Logical(Not, [o]))
  }

  function Convert(e: SqlExpr): Result<FilterExpression> {
    match e
    case BinaryOp(left, op, right) =>
      if ComparisonOf(op).Some? then ConvertComparison(left, ComparisonOf(op).value, right)
      else if op == AndOp || op == OrOp then
        Both(if op == AndOp then And else Or, Convert(left), Convert(right))
      else Failure("Unsupported SQL operator")
    case UnaryOp(unary, expr) =>
      if unary == NotOp then Negated(Convert(expr))
      else Failure("Unsupported unary operator")
    case _ => Success(Comparison("id", Equal, StringValue("unknown")))
  }
}
