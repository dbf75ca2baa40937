/** Properties of the expression checker as a whole. */
module ExprProps {
  import opened Wrappers
  import opened Types
  import opened Symbols
  import opened Ast
  import opened ExprSpec

  predicate AllExpressionKinds(ds: seq<Diag>) {
    forall i :: 0 <= i < |ds| ==> ExpressionKind(ds[i].kind)
  }

  lemma AllExpressionKindsAppend(a: seq<Diag>, b: seq<Diag>)
    requires AllExpressionKinds(a) && AllExpressionKinds(b)
    ensures AllExpressionKinds(a + b)
  {
    forall i | 0 <= i < |a + b| ensures ExpressionKind((a + b)[i].kind) {
      if i >= |a| {
        assert (a + b)[i] == b[i - |a|];
      }
    }
  }

  lemma AtLineExpressionKinds(ks: seq<ErrorKind>, line: nat)
    requires forall k :: k in ks ==> ExpressionKind(k)
    ensures AllExpressionKinds(AtLine(ks, line))
  {
    forall i | 0 <= i < |ks| ensures ExpressionKind(AtLine(ks, line)[i].kind) {
      assert ks[i] in ks;
    }
  }

  /** Two operands' diagnostics followed by the node's own. */
  lemma OwnKindsLast(a: seq<Diag>, b: seq<Diag>, ks: seq<ErrorKind>, line: nat)
    requires AllExpressionKinds(a) && AllExpressionKinds(b)
    requires forall k :: k in ks ==> ExpressionKind(k)
    ensures AllExpressionKinds(a + b + AtLine(ks, line))
  {
    AtLineExpressionKinds(ks, line);
    AllExpressionKindsAppend(a, b);
    AllExpressionKindsAppend(a + b, AtLine(ks, line));
  }

  /** A binary operator reports void uses and operand-type errors only. */
  lemma BinaryOutcomeKinds(op: BinOp, l: Type, r: Type)
    ensures forall k :: k in BinaryOutcome(op, l, r).errs ==> ExpressionKind(k)
  {
    var o := BinaryOutcome(op, l, r);
    var v := VoidUses(l, r);
    forall k | k in o.errs ensures ExpressionKind(k) {
      var i :| 0 <= i < |o.errs| && o.errs[i] == k;
      if i < |v| {
        assert o.errs[..|v|][i] == v[i];
      }
    }
  }

  /** An expression only ever reports expression-level error kinds, so the
      statement checker's own diagnostics (l-value, return, declaration and
      condition errors) never come from visiting an expression. */
  lemma {:induction false} InferReportsExpressionKinds(env: seq<Table>, isStmt: bool, e: Expr)
    requires |env| > 0
    ensures AllExpressionKinds(Infer(env, isStmt, e).diags)
    decreases e, 1
  {
    match e
    case BinaryExpr(op, left, right, line) =>
      var a := Infer(env, isStmt, left);
      var b := Infer(env, a.isStmt, right);
      InferReportsExpressionKinds(env, isStmt, left);
      InferReportsExpressionKinds(env, a.isStmt, right);
      BinaryOutcomeKinds(op, a.ty, b.ty);
      OwnKindsLast(a.diags, b.diags, BinaryOutcome(op, a.ty, b.ty).errs, line);
    case UnaryExpr(op, operand, line) =>
      var a := Infer(env, isStmt, operand);
      InferReportsExpressionKinds(env, isStmt, operand);
      AtLineExpressionKinds(UnaryOutcome(op, a.ty).errs, line);
      AllExpressionKindsAppend(a.diags, AtLine(UnaryOutcome(op, a.ty).errs, line));
    case Call(instance, args, line) =>
      var c := Infer(env, isStmt, instance);
      InferReportsExpressionKinds(env, isStmt, instance);
      if !c.ty.Fptr? {
        AllExpressionKindsAppend(c.diags, [Diag(CallOnNoneFptrType, line)]);
      } else {
        var a := InferArgs(env, c.isStmt, args);
        InferArgsReportExpressionKinds(env, c.isStmt, args);
        OwnKindsLast(c.diags, a.diags, CallErrs(c.ty.args, c.ty.ret, a.tys, a.isStmt), line);
      }
    case Ident(name, line) =>
      AtLineExpressionKinds(IdentOutcome(env, name).errs, line);
    case ListAccess(list, index, line) =>
      var a := Infer(env, isStmt, list);
      var b := Infer(env, a.isStmt, index);
      InferReportsExpressionKinds(env, isStmt, list);
      InferReportsExpressionKinds(env, a.isStmt, index);
      OwnKindsLast(a.diags, b.diags, ListAccessOutcome(a.ty, b.ty).errs, line);
    case StructAccess(instance, member, line) =>
      var a := Infer(env, isStmt, instance);
      InferReportsExpressionKinds(env, isStmt, instance);
      var o := StructAccessOutcome(env[0], a.ty, member);
      AtLineExpressionKinds(o.errs, line);
      AllExpressionKindsAppend(a.diags, AtLine(o.errs, line));
    case ListSize(arg, line) =>
      var a := Infer(env, isStmt, arg);
      InferReportsExpressionKinds(env, isStmt, arg);
      AtLineExpressionKinds(ListSizeOutcome(a.ty).errs, line);
      AllExpressionKindsAppend(a.diags, AtLine(ListSizeOutcome(a.ty).errs, line));
    case ListAppend(list, element, line) =>
      var a := Infer(env, isStmt, list);
      InferReportsExpressionKinds(env, isStmt, list);
      if !a.ty.List? {
        AllExpressionKindsAppend(a.diags, [Diag(AppendToNonList, line)]);
      } else {
        var b := Infer(env, a.isStmt, element);
        InferReportsExpressionKinds(env, a.isStmt, element);
        OwnKindsLast(a.diags, b.diags, AppendOutcome(a.ty.elem, b.ty).errs, line);
      }
    case Par(inner, _) =>
      InferReportsExpressionKinds(env, isStmt, inner);
    case IntValue(_, _) =>
    case BoolValue(_, _) =>
  }

  lemma {:induction false} InferArgsReportExpressionKinds(env: seq<Table>, isStmt: bool, args: seq<Expr>)
    requires |env| > 0
    ensures AllExpressionKinds(InferArgs(env, isStmt, args).diags)
    decreases args, 0
  {
    if |args| > 0 {
      var a := InferArgs(env, isStmt, args[..|args| - 1]);
      InferArgsReportExpressionKinds(env, isStmt, args[..|args| - 1]);
      InferReportsExpressionKinds(env, a.isStmt, args[|args| - 1]);
      AllExpressionKindsAppend(a.diags, Infer(env, a.isStmt, args[|args| - 1]).diags);
    }
  }

  /** The `is_stmt` flag is only ever cleared by an expression, never set:
      a visit that ends with the flag set started with it set. */
  lemma {:induction false} InferNeverSetsFlag(env: seq<Table>, isStmt: bool, e: Expr)
    requires |env| > 0
    ensures Infer(env, isStmt, e).isStmt ==> isStmt
    decreases e, 1
  {
    match e
    case BinaryExpr(_, left, right, _) =>
      InferNeverSetsFlag(env, isStmt, left);
      InferNeverSetsFlag(env, Infer(env, isStmt, left).isStmt, right);
    case UnaryExpr(_, operand, _) => InferNeverSetsFlag(env, isStmt, operand);
    case Call(instance, args, _) => InferNeverSetsFlag(env, isStmt, instance);
    case Ident(_, _) =>
    case ListAccess(list, index, _) =>
      InferNeverSetsFlag(env, isStmt, list);
      InferNeverSetsFlag(env, Infer(env, isStmt, list).isStmt, index);
    case StructAccess(instance, _, _) => InferNeverSetsFlag(env, isStmt, instance);
    case ListSize(arg, _) => InferNeverSetsFlag(env, isStmt, arg);
    case ListAppend(list, element, _) =>
      InferNeverSetsFlag(env, isStmt, list);
      InferNeverSetsFlag(env, Infer(env, isStmt, list).isStmt, element);
    case Par(inner, _) => InferNeverSetsFlag(env, isStmt, inner);
    case IntValue(_, _) =>
    case BoolValue(_, _) =>
  }

  /** A call on a function pointer always leaves the flag cleared, whatever
      it was on entry; a call on anything else leaves it as its callee left it. */
  lemma CallClearsFlag(env: seq<Table>, isStmt: bool, e: Expr)
    requires |env| > 0 && e.Call?
    ensures Infer(env, isStmt, e).isStmt ==
            (!Infer(env, isStmt, e.instance).ty.Fptr? && Infer(env, isStmt, e.instance).isStmt)
  {
  }

  /** The root table of the nested-call example: `g` returns Int, `f` takes
      an Int and returns Void. */
  function NestedCallRoot(): Table {
    map[FuncKey("g") := FuncItem("g", [], Int), FuncKey("f") := FuncItem("f", [Int], Void)]
  }

  /** In that table `f` is a function pointer to a Void function of one Int,
      and visiting the argument list `[g()]` with the flag set yields Int and
      clears the flag. */
  lemma NestedCallOperands()
    ensures Infer([NestedCallRoot()], true, Ident("f", 3)) == Inferred(Fptr([Int], Void), [], true)
    ensures InferArgs([NestedCallRoot()], true, [Call(Ident("g", 3), [], 3)]) == InferredArgs([Int], [], false)
  {
    var env := [NestedCallRoot()];
    assert Lookup(env, VarKey("g")) == None && Lookup(env, VarKey("f")) == None;
    assert Lookup(env, FuncKey("g")) == Some(FuncItem("g", [], Int));
    assert Lookup(env, FuncKey("f")) == Some(FuncItem("f", [Int], Void));
    var inner := Call(Ident("g", 3), [], 3);
    assert Infer(env, true, Ident("g", 3)) == Inferred(Fptr([], Int), [], true);
    assert Infer(env, true, inner) == Inferred(Int, [], false);
    assert [inner][..0] == [];
  }

  /** In the call statement `f(g())` the flag is consumed by the inner call
      `g()`, which is visited before `f` reads it; so `f`'s Void result is
      reported as a value use although `f` is the statement's own call. */
  lemma NestedCallStatement()
    ensures Infer([NestedCallRoot()], true, Call(Ident("f", 3), [Call(Ident("g", 3), [], 3)], 3)).diags
            == [Diag(CantUseValueOfVoidFunction, 3)]
  {
    NestedCallOperands();
    var errs := CallErrs([Int], Void, [Int], false);
    assert errs == [CantUseValueOfVoidFunction];
    assert AtLine(errs, 3) == [Diag(CantUseValueOfVoidFunction, 3)];
  }
}
