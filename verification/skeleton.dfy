/** The shape of a syntax tree: the tree with every column-reference name and
    every table-reference name blanked out. Two trees with the same skeleton
    have the same node kinds in the same positions, the same literals,
    operators, aliases, qualifiers and clause layout, and may differ only in
    those names. */
module Skeleton {
  import opened Wrappers
  import opened Ast
  import opened Mapper

  function EraseExpr(e: Expr): Expr
    decreases e
  {
    match e
    case Ref(t, _) => Ref(t, "")
    case Binary(op, l, r) => Binary(op, EraseExpr(l), EraseExpr(r))
    case Unary(op, x) => Unary(op, EraseExpr(x))
    case Call(f, args) => Call(f, seq(|args|, i requires 0 <= i < |args| => EraseExpr(args[i])))
    case Subquery(q) => Subquery(EraseSelect(q))
    case _ => e
  }

  function EraseOptExpr(o: Option<Expr>): Option<Expr>
    decreases o
  {
    match o
    case None => None
    case Some(e) => Some(EraseExpr(e))
  }

  function EraseColumn(c: Column): Column
    decreases c
  {
    Column(EraseExpr(c.expr), c.alias)
  }

  function EraseJoin(o: Option<Join>): Option<Join>
    decreases o
  {
    match o
    case None => None
    case Some(j) => Some(Join(j.kind, EraseOptExpr(j.on)))
  }

  function EraseFrom(f: From): From
    decreases f
  {
    match f
    case FromTable(t, j) => FromTable(t.(name := ""), EraseJoin(j))
    case FromSubquery(q, alias, j) => FromSubquery(EraseSelect(q), alias, EraseJoin(j))
  }

  function EraseOrder(o: OrderItem): OrderItem
    decreases o
  {
    OrderItem(EraseExpr(o.key), o.order)
  }

  function EraseSelect(s: Select): Select
    decreases s
  {
    Select(
      seq(|s.columns|, i requires 0 <= i < |s.columns| => EraseColumn(s.columns[i])),
      seq(|s.from|, i requires 0 <= i < |s.from| => EraseFrom(s.from[i])),
      EraseOptExpr(s.where),
      seq(|s.groupBy|, i requires 0 <= i < |s.groupBy| => EraseExpr(s.groupBy[i])),
      seq(|s.orderBy|, i requires 0 <= i < |s.orderBy| => EraseOrder(s.orderBy[i])),
      EraseOptExpr(s.limit),
      EraseOptExpr(s.offset))
  }

  /** The rewrite of an expression keeps its skeleton. */
  lemma {:induction false} RemapExprKeepsShape(rn: Renaming, e: Expr)
    ensures EraseExpr(RemapExpr(rn, e)) == EraseExpr(e)
    decreases e
  {
    match e
    case Ref(_, _) =>
    case Binary(op, l, r) =>
      RemapExprKeepsShape(rn, l);
      RemapExprKeepsShape(rn, r);
    case Unary(op, x) =>
      RemapExprKeepsShape(rn, x);
    case Call(f, args) =>
      var args' := RemapExpr(rn, e).args;
      forall i | 0 <= i < |args|
        ensures EraseExpr(args'[i]) == EraseExpr(args[i])
      {
        RemapExprKeepsShape(rn, args[i]);
      }
      assert EraseExpr(RemapExpr(rn, e)).args == EraseExpr(e).args;
    case Subquery(q) =>
      RemapSelectKeepsShape(rn, q);
    case _ =>
  }

  lemma {:induction false} RemapOptExprKeepsShape(rn: Renaming, o: Option<Expr>)
    ensures EraseOptExpr(RemapOptExpr(rn, o)) == EraseOptExpr(o)
    decreases o
  {
    if o.Some? {
      RemapExprKeepsShape(rn, o.value);
    }
  }

  lemma {:induction false} RemapJoinKeepsShape(rn: Renaming, o: Option<Join>)
    ensures EraseJoin(RemapJoin(rn, o)) == EraseJoin(o)
    decreases o
  {
    if o.Some? {
      RemapOptExprKeepsShape(rn, o.value.on);
    }
  }

  lemma {:induction false} RemapFromKeepsShape(rn: Renaming, f: From)
    ensures EraseFrom(RemapFrom(rn, f)) == EraseFrom(f)
    decreases f
  {
    match f
    case FromTable(t, j) =>
      RemapJoinKeepsShape(rn, j);
    case FromSubquery(q, alias, j) =>
      RemapSelectKeepsShape(rn, q);
      RemapJoinKeepsShape(rn, j);
  }

  /** The rewrite of a statement keeps its skeleton, subqueries included. */
  lemma {:induction false} RemapSelectKeepsShape(rn: Renaming, s: Select)
    ensures EraseSelect(RemapSelect(rn, s)) == EraseSelect(s)
    decreases s
  {
    var s' := RemapSelect(rn, s);
    forall i | 0 <= i < |s.columns|
      ensures EraseColumn(s'.columns[i]) == EraseColumn(s.columns[i])
    {
      assert s'.columns[i] == RemapColumn(rn, s.columns[i]);
      RemapExprKeepsShape(rn, s.columns[i].expr);
    }
    forall i | 0 <= i < |s.from|
      ensures EraseFrom(s'.from[i]) == EraseFrom(s.from[i])
    {
      RemapFromKeepsShape(rn, s.from[i]);
    }
    forall i | 0 <= i < |s.groupBy|
      ensures EraseExpr(s'.groupBy[i]) == EraseExpr(s.groupBy[i])
    {
      RemapExprKeepsShape(rn, s.groupBy[i]);
    }
    forall i | 0 <= i < |s.orderBy|
      ensures EraseOrder(s'.orderBy[i]) == EraseOrder(s.orderBy[i])
    {
      assert s'.orderBy[i] == RemapOrder(rn, s.orderBy[i]);
      RemapExprKeepsShape(rn, s.orderBy[i].key);
    }
    RemapOptExprKeepsShape(rn, s.where);
    RemapOptExprKeepsShape(rn, s.limit);
    RemapOptExprKeepsShape(rn, s.offset);
    assert EraseSelect(s').columns == EraseSelect(s).columns;
    assert EraseSelect(s').from == EraseSelect(s).from;
    assert EraseSelect(s').groupBy == EraseSelect(s).groupBy;
    assert EraseSelect(s').orderBy == EraseSelect(s).orderBy;
  }

  /** The projection list keeps its length, its order and every alias, and
      each projected expression keeps its skeleton. */
  lemma ProjectionPreserved(rn: Renaming, s: Select)
    ensures |RemapSelect(rn, s).columns| == |s.columns|
    ensures forall i :: 0 <= i < |s.columns| ==>
      RemapSelect(rn, s).columns[i].alias == s.columns[i].alias &&
      EraseExpr(RemapSelect(rn, s).columns[i].expr) == EraseExpr(s.columns[i].expr)
  {
    var s' := RemapSelect(rn, s);
    RemapSelectKeepsShape(rn, s);
    forall i | 0 <= i < |s.columns|
      ensures s'.columns[i].alias == s.columns[i].alias
      ensures EraseExpr(s'.columns[i].expr) == EraseExpr(s.columns[i].expr)
    {
      assert EraseSelect(s').columns[i] == EraseSelect(s).columns[i];
    }
  }
}
