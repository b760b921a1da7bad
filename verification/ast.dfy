/** The part of the SQL syntax tree the rewrite walks: a SELECT statement with
    its projection list, FROM list with joins, WHERE, GROUP BY, ORDER BY and
    LIMIT/OFFSET, over a closed set of expression kinds. */
module Ast {
  import opened Wrappers

  datatype Expr =
    | Ref(table: Option<string>, name: string)   // column reference, optionally qualified
    | StringLit(text: string)
    | IntegerLit(intValue: int)
    | NumericLit(numericValue: real)
    | BoolLit(boolValue: bool)
    | NullLit
    | Binary(op: string, left: Expr, right: Expr)
    | Unary(unaryOp: string, operand: Expr)
    | Call(fn: string, args: seq<Expr>)
    | Subquery(query: Select)

  /** One projection: an expression and its optional `AS` alias. */
  datatype Column = Column(expr: Expr, alias: Option<string>)

  /** A table named in FROM, with its schema qualifier and alias. */
  datatype TableRef = TableRef(schema: Option<string>, name: string, alias: Option<string>)

  datatype JoinKind = InnerJoin | LeftJoin | RightJoin | FullJoin | CrossJoin

  /** How a FROM item joins the ones before it. */
  datatype Join = Join(kind: JoinKind, on: Option<Expr>)

  datatype From =
    | FromTable(table: TableRef, join: Option<Join>)
    | FromSubquery(statement: Select, alias: string, join: Option<Join>)

  datatype Direction = Asc | Desc

  datatype OrderItem = OrderItem(key: Expr, order: Option<Direction>)

  datatype Select = Select(
    columns: seq<Column>,
    from: seq<From>,
    where: Option<Expr>,
    groupBy: seq<Expr>,
    orderBy: seq<OrderItem>,
    limit: Option<Expr>,
    offset: Option<Expr>)

  predicate IsLiteral(e: Expr)
  {
    e.StringLit? || e.IntegerLit? || e.NumericLit? || e.BoolLit? || e.NullLit?
  }
}
