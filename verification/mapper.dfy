/** The structural mapper of `transformSql` (lib/sqlite/sql-parser.ts:34-51):
    the `ref` and `tableRef` callbacks, and the default descent that copies
    every other node and visits its children. */
module Mapper {
  import opened Wrappers
  import opened Ast
  import opened FoldedMap

  /** The folded column map and the internal table name one rewrite uses. */
  datatype Renaming = Renaming(columns: map<string, string>, table: string)

  /** The `ref` callback: a hit replaces the name and keeps every other field;
      anything else is handed to the default traversal, which returns it as is. */
  function RenameRef(columns: map<string, string>, e: Expr): (r: Expr)
    ensures r.Ref? <==> e.Ref?
    ensures e.Ref? ==> r.table == e.table
    ensures e.Ref? && Hits(columns, e.name) ==> r.name == columns[e.name]
    ensures !(e.Ref? && Hits(columns, e.name)) ==> r == e
  {
    if e.Ref? && Hits(columns, e.name) then e.(name := columns[e.name]) else e
  }

  /** The `tableRef` callback: the name is replaced whatever it was. */
  function RenameTable(table: string, t: TableRef): (r: TableRef)
    ensures r.name == table
    ensures r.schema == t.schema && r.alias == t.alias
  {
    t.(name := table)
  }

  /** The full specification of the descent is given by the skeleton and
      leaf lemmas; the contract here records what holds at the root. */
  function RemapExpr(rn: Renaming, e: Expr): (r: Expr)
    ensures r.Ref? <==> e.Ref?
    ensures e.Ref? ==> r.table == e.table
    ensures IsLiteral(e) ==> r == e
    decreases e
  {
    match e
    case Ref(_, _) => RenameRef(rn.columns, e)
    case Binary(op, l, r) => Binary(op, RemapExpr(rn, l), RemapExpr(rn, r))
    case Unary(op, x) => Unary(op, RemapExpr(rn, x))
    case Call(f, args) => Call(f, seq(|args|, i requires 0 <= i < |args| => RemapExpr(rn, args[i])))
    case Subquery(q) => Subquery(RemapSelect(rn, q))
    case _ => e
  }

  function RemapOptExpr(rn: Renaming, o: Option<Expr>): Option<Expr>
    decreases o
  {
    match o
    case None => None
    case Some(e) => Some(RemapExpr(rn, e))
  }

  function RemapColumn(rn: Renaming, c: Column): Column
    decreases c
  {
    Column(RemapExpr(rn, c.expr), c.alias)
  }

  function RemapJoin(rn: Renaming, o: Option<Join>): Option<Join>
    decreases o
  {
    match o
    case None => None
    case Some(j) => Some(Join(j.kind, RemapOptExpr(rn, j.on)))
  }

  function RemapFrom(rn: Renaming, f: From): From
    decreases f
  {
    match f
    case FromTable(t, j) => FromTable(RenameTable(rn.table, t), RemapJoin(rn, j))
    case FromSubquery(q, alias, j) => FromSubquery(RemapSelect(rn, q), alias, RemapJoin(rn, j))
  }

  function RemapOrder(rn: Renaming, o: OrderItem): OrderItem
    decreases o
  {
    OrderItem(RemapExpr(rn, o.key), o.order)
  }

  function RemapSelect(rn: Renaming, s: Select): (r: Select)
    ensures |r.columns| == |s.columns| && |r.from| == |s.from|
    ensures |r.groupBy| == |s.groupBy| && |r.orderBy| == |s.orderBy|
    ensures r.where.Some? <==> s.where.Some?
    ensures r.limit.Some? <==> s.limit.Some?
    ensures r.offset.Some? <==> s.offset.Some?
    decreases s
  {
    Select(
      seq(|s.columns|, i requires 0 <= i < |s.columns| => RemapColumn(rn, s.columns[i])),
      seq(|s.from|, i requires 0 <= i < |s.from| => RemapFrom(rn, s.from[i])),
      RemapOptExpr(rn, s.where),
      seq(|s.groupBy|, i requires 0 <= i < |s.groupBy| => RemapExpr(rn, s.groupBy[i])),
      seq(|s.orderBy|, i requires 0 <= i < |s.orderBy| => RemapOrder(rn, s.orderBy[i])),
      RemapOptExpr(rn, s.limit),
      RemapOptExpr(rn, s.offset))
  }
}
