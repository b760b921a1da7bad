/** A tree is determined by its skeleton and its leaves: two trees with the
    same skeleton have the same number of leaves, and if their leaves are
    also equal the trees are equal. */
module Determined {
  import opened Wrappers
  import opened Seqs
  import opened Ast
  import opened Skeleton
  import opened Leaves

  lemma {:induction false} ExprDetermined(a: Expr, b: Expr)
    requires EraseExpr(a) == EraseExpr(b)
    ensures |LeavesOfExpr(a)| == |LeavesOfExpr(b)|
    ensures LeavesOfExpr(a) == LeavesOfExpr(b) ==> a == b
    decreases a
  {
    match a
    case Ref(_, _) =>
      assert b.Ref?;
    case Binary(op, l, r) =>
      assert b.Binary?;
      ExprDetermined(l, b.left);
      ExprDetermined(r, b.right);
      if LeavesOfExpr(a) == LeavesOfExpr(b) {
        AppendSplit(LeavesOfExpr(l), LeavesOfExpr(r), LeavesOfExpr(b.left), LeavesOfExpr(b.right));
      }
    case Unary(op, x) =>
      assert b.Unary?;
      ExprDetermined(x, b.operand);
    case Call(f, args) =>
      assert b.Call?;
      var bargs := b.args;
      assert EraseExpr(a).args == EraseExpr(b).args;
      var xs := seq(|args|, i requires 0 <= i < |args| => LeavesOfExpr(args[i]));
      var ys := seq(|bargs|, i requires 0 <= i < |bargs| => LeavesOfExpr(bargs[i]));
      forall i | 0 <= i < |args|
        ensures |xs[i]| == |ys[i]|
        ensures xs[i] == ys[i] ==> args[i] == bargs[i]
      {
        assert EraseExpr(a).args[i] == EraseExpr(b).args[i];
        ExprDetermined(args[i], bargs[i]);
      }
      FlattenSplit(xs, ys);
    case Subquery(q) =>
      assert b.Subquery?;
      SelectDetermined(q, b.query);
    case StringLit(_) =>
      assert b.StringLit?;
    case IntegerLit(_) =>
      assert b.IntegerLit?;
    case NumericLit(_) =>
      assert b.NumericLit?;
    case BoolLit(_) =>
      assert b.BoolLit?;
    case NullLit =>
      assert b.NullLit?;
  }

  lemma {:induction false} OptExprDetermined(a: Option<Expr>, b: Option<Expr>)
    requires EraseOptExpr(a) == EraseOptExpr(b)
    ensures |LeavesOfOptExpr(a)| == |LeavesOfOptExpr(b)|
    ensures LeavesOfOptExpr(a) == LeavesOfOptExpr(b) ==> a == b
    decreases a
  {
    if a.Some? {
      ExprDetermined(a.value, b.value);
    }
  }

  lemma {:induction false} JoinDetermined(a: Option<Join>, b: Option<Join>)
    requires EraseJoin(a) == EraseJoin(b)
    ensures |LeavesOfJoin(a)| == |LeavesOfJoin(b)|
    ensures LeavesOfJoin(a) == LeavesOfJoin(b) ==> a == b
    decreases a
  {
    if a.Some? {
      OptExprDetermined(a.value.on, b.value.on);
    }
  }

  lemma {:induction false} FromDetermined(a: From, b: From)
    requires EraseFrom(a) == EraseFrom(b)
    ensures |LeavesOfFrom(a)| == |LeavesOfFrom(b)|
    ensures LeavesOfFrom(a) == LeavesOfFrom(b) ==> a == b
    decreases a
  {
    match a
    case FromTable(t, j) =>
      assert b.FromTable?;
      JoinDetermined(j, b.join);
      if LeavesOfFrom(a) == LeavesOfFrom(b) {
        AppendSplit([TableLeaf(t)], LeavesOfJoin(j), [TableLeaf(b.table)], LeavesOfJoin(b.join));
      }
    case FromSubquery(q, _, j) =>
      assert b.FromSubquery?;
      SelectDetermined(q, b.statement);
      JoinDetermined(j, b.join);
      if LeavesOfFrom(a) == LeavesOfFrom(b) {
        AppendSplit(LeavesOfSelect(q), LeavesOfJoin(j), LeavesOfSelect(b.statement), LeavesOfJoin(b.join));
      }
  }

  /** Equal skeletons and equal leaves make equal statements. */
  lemma {:induction false} SelectDetermined(a: Select, b: Select)
    requires EraseSelect(a) == EraseSelect(b)
    ensures |LeavesOfSelect(a)| == |LeavesOfSelect(b)|
    ensures LeavesOfSelect(a) == LeavesOfSelect(b) ==> a == b
    decreases a
  {
    var ea, eb := EraseSelect(a), EraseSelect(b);
    assert ea.columns == eb.columns && ea.from == eb.from && ea.groupBy == eb.groupBy && ea.orderBy == eb.orderBy;

    var cs := seq(|a.columns|, i requires 0 <= i < |a.columns| => LeavesOfExpr(a.columns[i].expr));
    var cs' := seq(|b.columns|, i requires 0 <= i < |b.columns| => LeavesOfExpr(b.columns[i].expr));
    forall i | 0 <= i < |cs|
      ensures |cs[i]| == |cs'[i]|
      ensures cs[i] == cs'[i] ==> a.columns[i] == b.columns[i]
    {
      assert ea.columns[i] == eb.columns[i];
      ExprDetermined(a.columns[i].expr, b.columns[i].expr);
    }
    FlattenSplit(cs, cs');

    var fs := seq(|a.from|, i requires 0 <= i < |a.from| => LeavesOfFrom(a.from[i]));
    var fs' := seq(|b.from|, i requires 0 <= i < |b.from| => LeavesOfFrom(b.from[i]));
    forall i | 0 <= i < |fs|
      ensures |fs[i]| == |fs'[i]|
      ensures fs[i] == fs'[i] ==> a.from[i] == b.from[i]
    {
      assert ea.from[i] == eb.from[i];
      FromDetermined(a.from[i], b.from[i]);
    }
    FlattenSplit(fs, fs');

    var gs := seq(|a.groupBy|, i requires 0 <= i < |a.groupBy| => LeavesOfExpr(a.groupBy[i]));
    var gs' := seq(|b.groupBy|, i requires 0 <= i < |b.groupBy| => LeavesOfExpr(b.groupBy[i]));
    forall i | 0 <= i < |gs|
      ensures |gs[i]| == |gs'[i]|
      ensures gs[i] == gs'[i] ==> a.groupBy[i] == b.groupBy[i]
    {
      assert ea.groupBy[i] == eb.groupBy[i];
      ExprDetermined(a.groupBy[i], b.groupBy[i]);
    }
    FlattenSplit(gs, gs');

    var os := seq(|a.orderBy|, i requires 0 <= i < |a.orderBy| => LeavesOfExpr(a.orderBy[i].key));
    var os' := seq(|b.orderBy|, i requires 0 <= i < |b.orderBy| => LeavesOfExpr(b.orderBy[i].key));
    forall i | 0 <= i < |os|
      ensures |os[i]| == |os'[i]|
      ensures os[i] == os'[i] ==> a.orderBy[i] == b.orderBy[i]
    {
      assert ea.orderBy[i] == eb.orderBy[i];
      ExprDetermined(a.orderBy[i].key, b.orderBy[i].key);
    }
    FlattenSplit(os, os');

    OptExprDetermined(a.where, b.where);
    OptExprDetermined(a.limit, b.limit);
    OptExprDetermined(a.offset, b.offset);

    var ps, ps' := SelectParts(a), SelectParts(b);
    assert forall k :: 0 <= k < |ps| ==> |ps[k]| == |ps'[k]|;
    FlattenSplit(ps, ps');
    if LeavesOfSelect(a) == LeavesOfSelect(b) {
      assert ps == ps';
      assert ps[0] == ps'[0] && ps[1] == ps'[1] && ps[3] == ps'[3] && ps[4] == ps'[4];
      assert cs == cs' && fs == fs' && gs == gs' && os == os';
      assert a.columns == b.columns;
      assert a.from == b.from;
      assert a.groupBy == b.groupBy;
      assert a.orderBy == b.orderBy;
    }
  }
}
