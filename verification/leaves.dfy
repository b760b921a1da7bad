/** The identifier and literal content of a syntax tree: its column
    references, table references and literals, listed in a fixed
    left-to-right order. Together with the skeleton this determines what the
    rewrite did to every leaf of the tree. */
module Leaves {
  import opened Wrappers
  import opened Seqs
  import opened Ast
  import opened FoldedMap
  import opened Mapper

  datatype Leaf =
    | ColumnLeaf(qualifier: Option<string>, name: string)
    | TableLeaf(table: TableRef)
    | LiteralLeaf(literal: Expr)    // a literal node

  function LeavesOfExpr(e: Expr): seq<Leaf>
    decreases e
  {
    match e
    case Ref(t, n) => [ColumnLeaf(t, n)]
    case Binary(_, l, r) => LeavesOfExpr(l) + LeavesOfExpr(r)
    case Unary(_, x) => LeavesOfExpr(x)
    case Call(_, args) => Flatten(seq(|args|, i requires 0 <= i < |args| => LeavesOfExpr(args[i])))
    case Subquery(q) => LeavesOfSelect(q)
    case _ => [LiteralLeaf(e)]
  }

  function LeavesOfOptExpr(o: Option<Expr>): seq<Leaf>
    decreases o
  {
    match o
    case None => []
    case Some(e) => LeavesOfExpr(e)
  }

  function LeavesOfJoin(o: Option<Join>): seq<Leaf>
    decreases o
  {
    match o
    case None => []
    case Some(j) => LeavesOfOptExpr(j.on)
  }

  function LeavesOfFrom(f: From): seq<Leaf>
    decreases f
  {
    match f
    case FromTable(t, j) => [TableLeaf(t)] + LeavesOfJoin(j)
    case FromSubquery(q, _, j) => LeavesOfSelect(q) + LeavesOfJoin(j)
  }

  /** Projections, FROM items, WHERE, GROUP BY, ORDER BY, LIMIT, OFFSET. */
  function SelectParts(s: Select): seq<seq<Leaf>>
    decreases s, 0
  {
    [ Flatten(seq(|s.columns|, i requires 0 <= i < |s.columns| => LeavesOfExpr(s.columns[i].expr))),
      Flatten(seq(|s.from|, i requires 0 <= i < |s.from| => LeavesOfFrom(s.from[i]))),
      LeavesOfOptExpr(s.where),
      Flatten(seq(|s.groupBy|, i requires 0 <= i < |s.groupBy| => LeavesOfExpr(s.groupBy[i]))),
      Flatten(seq(|s.orderBy|, i requires 0 <= i < |s.orderBy| => LeavesOfExpr(s.orderBy[i].key))),
      LeavesOfOptExpr(s.limit),
      LeavesOfOptExpr(s.offset) ]
  }

  function LeavesOfSelect(s: Select): seq<Leaf>
    decreases s, 1
  {
    Flatten(SelectParts(s))
  }

  /** What the two callbacks do to one leaf; literals are never touched. */
  function RenameLeaf(rn: Renaming, l: Leaf): Leaf
  {
    match l
    case ColumnLeaf(t, n) =>
      var r := RenameRef(rn.columns, Ref(t, n));
      ColumnLeaf(r.table, r.name)
    case TableLeaf(t) => TableLeaf(RenameTable(rn.table, t))
    case LiteralLeaf(_) => l
  }

  function LeafRenamer(rn: Renaming): Leaf -> Leaf
  {
    l => RenameLeaf(rn, l)
  }

  lemma RenameOne(rn: Renaming, l: Leaf)
    ensures MapSeq(LeafRenamer(rn), [l]) == [RenameLeaf(rn, l)]
  {
  }

  /** The rewrite of an expression renames its leaves one by one, in place. */
  lemma {:induction false} RemapExprLeaves(rn: Renaming, e: Expr)
    ensures LeavesOfExpr(RemapExpr(rn, e)) == MapSeq(LeafRenamer(rn), LeavesOfExpr(e))
    decreases e
  {
    var f := LeafRenamer(rn);
    match e
    case Ref(t, n) =>
      RenameOne(rn, ColumnLeaf(t, n));
    case Binary(op, l, r) =>
      RemapExprLeaves(rn, l);
      RemapExprLeaves(rn, r);
      MapSeqAppend(f, LeavesOfExpr(l), LeavesOfExpr(r));
    case Unary(op, x) =>
      RemapExprLeaves(rn, x);
    case Call(fn, args) =>
      var args' := RemapExpr(rn, e).args;
      var xs := seq(|args|, i requires 0 <= i < |args| => LeavesOfExpr(args[i]));
      var ys := seq(|args'|, i requires 0 <= i < |args'| => LeavesOfExpr(args'[i]));
      forall i | 0 <= i < |args|
        ensures ys[i] == MapSeq(f, xs[i])
      {
        RemapExprLeaves(rn, args[i]);
      }
      FlattenMapSeq(f, xs, ys);
    case Subquery(q) =>
      RemapSelectLeaves(rn, q);
    case _ =>
      RenameOne(rn, LiteralLeaf(e));
  }

  lemma {:induction false} RemapOptExprLeaves(rn: Renaming, o: Option<Expr>)
    ensures LeavesOfOptExpr(RemapOptExpr(rn, o)) == MapSeq(LeafRenamer(rn), LeavesOfOptExpr(o))
    decreases o
  {
    if o.Some? {
      RemapExprLeaves(rn, o.value);
    }
  }

  lemma {:induction false} RemapJoinLeaves(rn: Renaming, o: Option<Join>)
    ensures LeavesOfJoin(RemapJoin(rn, o)) == MapSeq(LeafRenamer(rn), LeavesOfJoin(o))
    decreases o
  {
    if o.Some? {
      RemapOptExprLeaves(rn, o.value.on);
    }
  }

  lemma {:induction false} RemapFromLeaves(rn: Renaming, f: From)
    ensures LeavesOfFrom(RemapFrom(rn, f)) == MapSeq(LeafRenamer(rn), LeavesOfFrom(f))
    decreases f
  {
    match f
    case FromTable(t, j) =>
      RemapJoinLeaves(rn, j);
      RenameOne(rn, TableLeaf(t));
      MapSeqAppend(LeafRenamer(rn), [TableLeaf(t)], LeavesOfJoin(j));
    case FromSubquery(q, _, j) =>
      RemapSelectLeaves(rn, q);
      RemapJoinLeaves(rn, j);
      MapSeqAppend(LeafRenamer(rn), LeavesOfSelect(q), LeavesOfJoin(j));
  }

  /** The rewrite of a statement renames its leaves one by one, in place,
      subqueries and join conditions included. */
  lemma {:induction false} RemapSelectLeaves(rn: Renaming, s: Select)
    ensures LeavesOfSelect(RemapSelect(rn, s)) == MapSeq(LeafRenamer(rn), LeavesOfSelect(s))
    decreases s, 2
  {
    var f := LeafRenamer(rn);
    var s' := RemapSelect(rn, s);
    var ps := SelectParts(s);
    var ps' := SelectParts(s');

    var cs := seq(|s.columns|, i requires 0 <= i < |s.columns| => LeavesOfExpr(s.columns[i].expr));
    var cs' := seq(|s'.columns|, i requires 0 <= i < |s'.columns| => LeavesOfExpr(s'.columns[i].expr));
    forall i | 0 <= i < |cs|
      ensures cs'[i] == MapSeq(f, cs[i])
    {
      assert s'.columns[i] == RemapColumn(rn, s.columns[i]);
      RemapExprLeaves(rn, s.columns[i].expr);
    }
    FlattenMapSeq(f, cs, cs');

    var fs := seq(|s.from|, i requires 0 <= i < |s.from| => LeavesOfFrom(s.from[i]));
    var fs' := seq(|s'.from|, i requires 0 <= i < |s'.from| => LeavesOfFrom(s'.from[i]));
    forall i | 0 <= i < |fs|
      ensures fs'[i] == MapSeq(f, fs[i])
    {
      RemapFromLeaves(rn, s.from[i]);
    }
    FlattenMapSeq(f, fs, fs');

    var gs := seq(|s.groupBy|, i requires 0 <= i < |s.groupBy| => LeavesOfExpr(s.groupBy[i]));
    var gs' := seq(|s'.groupBy|, i requires 0 <= i < |s'.groupBy| => LeavesOfExpr(s'.groupBy[i]));
    forall i | 0 <= i < |gs|
      ensures gs'[i] == MapSeq(f, gs[i])
    {
      RemapExprLeaves(rn, s.groupBy[i]);
    }
    FlattenMapSeq(f, gs, gs');

    var os := seq(|s.orderBy|, i requires 0 <= i < |s.orderBy| => LeavesOfExpr(s.orderBy[i].key));
    var os' := seq(|s'.orderBy|, i requires 0 <= i < |s'.orderBy| => LeavesOfExpr(s'.orderBy[i].key));
    forall i | 0 <= i < |os|
      ensures os'[i] == MapSeq(f, os[i])
    {
      assert s'.orderBy[i] == RemapOrder(rn, s.orderBy[i]);
      RemapExprLeaves(rn, s.orderBy[i].key);
    }
    FlattenMapSeq(f, os, os');

    RemapOptExprLeaves(rn, s.where);
    RemapOptExprLeaves(rn, s.limit);
    RemapOptExprLeaves(rn, s.offset);
    assert forall k :: 0 <= k < |ps| ==> ps'[k] == MapSeq(f, ps[k]);
    FlattenMapSeq(f, ps, ps');
  }

  /** Leaf by leaf: every table reference, wherever it sits, takes the
      internal table name and keeps its schema and alias; a column reference
      whose name hits takes the mapped name and keeps its qualifier; one that
      misses, and every literal, comes out unchanged. */
  lemma RemapLeafByLeaf(rn: Renaming, s: Select)
    ensures |LeavesOfSelect(RemapSelect(rn, s))| == |LeavesOfSelect(s)|
    ensures forall i :: 0 <= i < |LeavesOfSelect(s)| ==>
      var l, l' := LeavesOfSelect(s)[i], LeavesOfSelect(RemapSelect(rn, s))[i];
      && (l.TableLeaf? ==> l' == TableLeaf(TableRef(l.table.schema, rn.table, l.table.alias)))
      && (l.LiteralLeaf? ==> l' == l)
      && (l.ColumnLeaf? && Hits(rn.columns, l.name) ==> l' == ColumnLeaf(l.qualifier, rn.columns[l.name]))
      && (l.ColumnLeaf? && !Hits(rn.columns, l.name) ==> l' == l)
  {
    RemapSelectLeaves(rn, s);
  }

  /** No table reference of the rewritten statement keeps a name other than
      the internal table name. */
  lemma EveryTableRenamed(rn: Renaming, s: Select)
    ensures forall l :: l in LeavesOfSelect(RemapSelect(rn, s)) && l.TableLeaf? ==> l.table.name == rn.table
  {
    RemapSelectLeaves(rn, s);
  }
}
