/** The shared diagnostic sink: the source attaches each error to its AST
    node; here every error goes, in the order it is reported, to one log. */
module Diagnostics {
  import opened Ast

  class ErrorLog {
    var entries: seq<Diag>

    constructor ()
      ensures entries == []
    {
      entries := [];
    }

    method Add(d: Diag)
      modifies this
      ensures entries == old(entries) + [d]
    {
      entries := entries + [d];
    }
  }
}

/** The expression type checker: one visit per expression form, proved to
    compute what `ExprSpec.Infer` specifies. */
module ExprChecking {
  import opened Wrappers
  import opened Types
  import opened Symbols
  import opened Ast
  import opened ExprSpec
  import opened Diagnostics

  /** `compareTypeArrayList`: stops at the first position where the two
      types do not have the same value constructor. */
  method CompareTypeArrayList(a: seq<Type>, b: seq<Type>) returns (ok: bool)
    requires |a| <= |b|
    ensures ok <==> forall i :: 0 <= i < |a| ==> CallSiteMatch(a[i], b[i])
  {
    var i := 0;
    while i < |a|
      invariant 0 <= i <= |a|
      invariant forall j :: 0 <= j < i ==> CallSiteMatch(a[j], b[j])
    {
      if !((b[i].Bool? && a[i].Bool?) || (b[i].Int? && a[i].Int?) || (b[i].Struct? && a[i].Struct?) ||
           (b[i].List? && a[i].List?) || (b[i].Fptr? && a[i].Fptr?)) {
        return false;
      }
      i := i + 1;
    }
    return true;
  }

  /** `compareFunctionPointer`. */
  method CompareFunctionPointer(a: Type, b: Type) returns (ok: bool)
    requires a.Fptr? && b.Fptr?
    ensures ok == FptrAssignable(a, b)
  {
    if a.ret.Int? && !b.ret.Int? { return false; }
    if a.ret.Bool? && !b.ret.Bool? { return false; }
    if a.ret.Struct? && !b.ret.Struct? { return false; }
    if a.ret.List? && !b.ret.List? { return false; }
    if a.ret.Void? && !b.ret.Void? { return false; }
    if a.ret.Fptr? && !b.ret.Fptr? { return false; }
    if |a.args| != |b.args| { return false; }
    ok := CompareTypeArrayList(a.args, b.args);
  }

  /** Regrouping the log: the entries appended by a visit are its children's
      diagnostics followed by its own. */
  lemma Regroup(w: seq<Diag>, x: seq<Diag>, y: seq<Diag>)
    ensures w + (x + y) == w + x + y
  {
  }

  lemma {:induction false} AtLineAppend(xs: seq<ErrorKind>, ys: seq<ErrorKind>, line: nat)
    ensures AtLine(xs + ys, line) == AtLine(xs, line) + AtLine(ys, line)
  {
  }

  class ExpressionTypeChecker {
    /** Set by the statement checker before a call statement; read and
        cleared by the next function call whose callee is a function pointer. */
    var isStmt: bool
    const log: ErrorLog

    constructor (log: ErrorLog)
      ensures this.log == log && !isStmt
    {
      this.log := log;
      isStmt := false;
    }

    method AddError(kind: ErrorKind, line: nat)
      modifies log
      ensures log.entries == old(log.entries) + [Diag(kind, line)]
    {
      log.Add(Diag(kind, line));
    }

    method Visit(env: seq<Table>, e: Expr) returns (t: Type)
      requires |env| > 0
      modifies this, log
      ensures var r := Infer(env, old(isStmt), e);
              t == r.ty && isStmt == r.isStmt && log.entries == old(log.entries) + r.diags
      decreases e, 2
    {
      match e
      case BinaryExpr(_, _, _, _) => t := VisitBinary(env, e);
      case UnaryExpr(_, _, _) => t := VisitUnary(env, e);
      case Call(_, _, _) => t := VisitCall(env, e);
      case Ident(name, line) => t := VisitIdent(env, name, line);
      case ListAccess(_, _, _) => t := VisitListAccess(env, e);
      case StructAccess(_, _, _) => t := VisitStructAccess(env, e);
      case ListSize(_, _) => t := VisitListSize(env, e);
      case ListAppend(_, _, _) => t := VisitListAppend(env, e);
      case Par(inner, _) => t := Visit(env, inner);
      case IntValue(_, _) => t := Int;
      case BoolValue(_, _) => t := Bool;
    }

    method VisitBinary(env: seq<Table>, e: Expr) returns (t: Type)
      requires |env| > 0 && e.BinaryExpr?
      modifies this, log
      ensures var r := Infer(env, old(isStmt), e);
              t == r.ty && isStmt == r.isStmt && log.entries == old(log.entries) + r.diags
      decreases e, 1
    {
      ghost var a := Infer(env, isStmt, e.left);
      var leftType := Visit(env, e.left);
      ghost var b := Infer(env, isStmt, e.right);
      var rightType := Visit(env, e.right);
      ghost var o := BinaryOutcome(e.op, leftType, rightType);
      assert Infer(env, old(isStmt), e) == Inferred(o.ty, a.diags + b.diags + AtLine(o.errs, e.line), b.isStmt);
      Regroup(old(log.entries), a.diags + b.diags, AtLine(o.errs, e.line));
      Regroup(old(log.entries), a.diags, b.diags);
      t := BinaryNode(e.op, leftType, rightType, e.line);
    }

    /** The binary visit once both operands are typed: one void use per Void
        operand, and with both Void nothing more. */
    method BinaryNode(op: BinOp, leftType: Type, rightType: Type, line: nat) returns (t: Type)
      modifies log
      ensures var o := BinaryOutcome(op, leftType, rightType);
              t == o.ty && log.entries == old(log.entries) + AtLine(o.errs, line)
    {
      ReportVoids(leftType, rightType, line);
      if leftType.Void? && rightType.Void? {
        return NoType;
      }
      t := OperatorNode(op, leftType, rightType, line);
      ghost var voids, rest := VoidUses(leftType, rightType), OperatorOutcome(op, leftType, rightType).errs;
      AtLineAppend(voids, rest, line);
      Regroup(old(log.entries), AtLine(voids, line), AtLine(rest, line));
    }

    /** A void use is reported for each Void operand, left first. */
    method ReportVoids(leftType: Type, rightType: Type, line: nat)
      modifies log
      ensures log.entries == old(log.entries) + AtLine(VoidUses(leftType, rightType), line)
    {
      if leftType.Void? {
        AddError(CantUseValueOfVoidFunction, line);
      }
      if rightType.Void? {
        AddError(CantUseValueOfVoidFunction, line);
      }
    }

    /** The operator rules of the binary visit. */
    method OperatorNode(op: BinOp, leftType: Type, rightType: Type, line: nat) returns (t: Type)
      modifies log
      ensures var o := OperatorOutcome(op, leftType, rightType);
              t == o.ty && log.entries == old(log.entries) + AtLine(o.errs, line)
    {
      var unsupported := UnsupportedOperandType(BinaryName(op));
      if op == And || op == Or {
        if leftType.Bool? && rightType.Bool? {
          t := Bool;
        } else {
          if !(leftType.NoType? && rightType.Bool?) && !(leftType.Bool? && rightType.NoType?) &&
             !(leftType.NoType? && rightType.NoType?) {
            AddError(unsupported, line);
          }
          t := NoType;
        }
      } else if op == Assign {
        var accepted := (leftType.Int? && rightType.Int?) || (leftType.Bool? && rightType.Bool?) ||
                        (leftType.Struct? && rightType.Struct?);
        if !accepted && leftType.Fptr? && rightType.Fptr? {
          accepted := CompareFunctionPointer(leftType, rightType);
        }
        if !accepted && leftType.List? && rightType.List? {
          accepted := ListElemsMatch(leftType.elem, rightType.elem);
        }
        if accepted {
          t := rightType;
        } else {
          if !leftType.NoType? && !rightType.NoType? {
            AddError(unsupported, line);
          }
          t := NoType;
        }
      } else if op == Eq {
        if leftType.List? || rightType.List? {
          AddError(unsupported, line);
          t := NoType;
        } else if (leftType.Int? && rightType.Int?) || (leftType.Bool? && rightType.Bool?) ||
                  (leftType.Struct? && rightType.Struct?) || (leftType.Fptr? && rightType.Fptr?) {
          t := Bool;
        } else {
          if !leftType.NoType? && !rightType.NoType? {
            AddError(unsupported, line);
          }
          t := NoType;
        }
      } else if leftType.Int? && rightType.Int? {
        t := if op == Lt || op == Eq || op == Gt then Bool else Int;
      } else {
        if !(leftType.NoType? && rightType.Int?) && !(leftType.Int? && rightType.NoType?) &&
           !(leftType.NoType? && rightType.NoType?) {
          AddError(unsupported, line);
        }
        t := NoType;
      }
    }

    method VisitUnary(env: seq<Table>, e: Expr) returns (t: Type)
      requires |env| > 0 && e.UnaryExpr?
      modifies this, log
      ensures var r := Infer(env, old(isStmt), e);
              t == r.ty && isStmt == r.isStmt && log.entries == old(log.entries) + r.diags
      decreases e, 1
    {
      ghost var a := Infer(env, isStmt, e.operand);
      var operandType := Visit(env, e.operand);
      Regroup(old(log.entries), a.diags, AtLine(UnaryOutcome(e.uop, operandType).errs, e.line));
      if e.uop == Not {
        if operandType.Bool? {
          return Bool;
        } else if operandType.Int? {
          AddError(UnsupportedOperandType(UnaryName(Not)), e.line);
        }
      } else {
        if operandType.Int? {
          return Int;
        } else if operandType.Bool? {
          AddError(UnsupportedOperandType(UnaryName(Minus)), e.line);
        }
      }
      t := NoType;
    }

    method VisitCall(env: seq<Table>, e: Expr) returns (t: Type)
      requires |env| > 0 && e.Call?
      modifies this, log
      ensures var r := Infer(env, old(isStmt), e);
              t == r.ty && isStmt == r.isStmt && log.entries == old(log.entries) + r.diags
      decreases e, 1
    {
      ghost var c := Infer(env, isStmt, e.instance);
      var instance := Visit(env, e.instance);
      if !instance.Fptr? {
        Regroup(old(log.entries), c.diags, [Diag(CallOnNoneFptrType, e.line)]);
        AddError(CallOnNoneFptrType, e.line);
        return NoType;
      }
      ghost var flag := isStmt;
      var args := VisitArgs(env, e.args);
      ghost var a := InferArgs(env, flag, e.args);
      ghost var errs := AtLine(CallErrs(instance.args, instance.ret, args, isStmt), e.line);
      assert Infer(env, old(isStmt), e) == Inferred(instance.ret, c.diags + a.diags + errs, false);
      Regroup(old(log.entries), c.diags + a.diags, errs);
      Regroup(old(log.entries), c.diags, a.diags);
      CallNode(instance, args, e.line);
      isStmt := false;
      t := instance.ret;
    }

    /** The arguments of a call, left to right. */
    method VisitArgs(env: seq<Table>, exprs: seq<Expr>) returns (args: seq<Type>)
      requires |env| > 0
      modifies this, log
      ensures var r := InferArgs(env, old(isStmt), exprs);
              args == r.tys && isStmt == r.isStmt && log.entries == old(log.entries) + r.diags
      decreases exprs, 0
    {
      args := [];
      var i := 0;
      while i < |exprs|
        invariant 0 <= i <= |exprs|
        invariant var r := InferArgs(env, old(isStmt), exprs[..i]);
                  args == r.tys && isStmt == r.isStmt && log.entries == old(log.entries) + r.diags
      {
        assert exprs[..i + 1][..i] == exprs[..i];
        ghost var b := Infer(env, isStmt, exprs[i]);
        var item := Visit(env, exprs[i]);
        Regroup(old(log.entries), InferArgs(env, old(isStmt), exprs[..i]).diags, b.diags);
        args := args + [item];
        i := i + 1;
      }
      assert exprs[..i] == exprs;
    }

    /** The call checks once the callee and the arguments are typed: the
        argument list against the signature, then a void result used as a
        value. */
    method CallNode(callee: Type, args: seq<Type>, line: nat)
      requires callee.Fptr?
      modifies log
      ensures log.entries == old(log.entries) + AtLine(CallErrs(callee.args, callee.ret, args, isStmt), line)
    {
      var matches := |args| == |callee.args|;
      if matches {
        matches := CompareTypeArrayList(callee.args, args);
      }
      if !matches {
        AddError(ArgsInFunctionCallNotMatchDefinition, line);
      }
      if callee.ret.Void? && !isStmt {
        AddError(CantUseValueOfVoidFunction, line);
      }
    }

    method VisitIdent(env: seq<Table>, name: string, line: nat) returns (t: Type)
      requires |env| > 0
      modifies log
      ensures var r := Infer(env, isStmt, Ident(name, line));
              t == r.ty && log.entries == old(log.entries) + r.diags
    {
      var variable := Lookup(env, VarKey(name));
      if variable.Some? && variable.value.VarItem? {
        var id := variable.value.ty;
        if id.Struct? {
          var structItem := Lookup(env, StructKey(id.name));
          if structItem.Some? {
            return id;
          } else {
            return NoType;
          }
        } else {
          return id;
        }
      }
      var fn := Lookup(env, FuncKey(name));
      if fn.Some? && fn.value.FuncItem? {
        return Fptr(fn.value.argTypes, fn.value.returnType);
      }
      AddError(VarNotDeclared(name), line);
      t := NoType;
    }

    method VisitListAccess(env: seq<Table>, e: Expr) returns (t: Type)
      requires |env| > 0 && e.ListAccess?
      modifies this, log
      ensures var r := Infer(env, old(isStmt), e);
              t == r.ty && isStmt == r.isStmt && log.entries == old(log.entries) + r.diags
      decreases e, 1
    {
      ghost var a := Infer(env, isStmt, e.list);
      var instance := Visit(env, e.list);
      ghost var b := Infer(env, isStmt, e.index);
      var index := Visit(env, e.index);
      ghost var o := ListAccessOutcome(instance, index);
      assert Infer(env, old(isStmt), e) == Inferred(o.ty, a.diags + b.diags + AtLine(o.errs, e.line), b.isStmt);
      Regroup(old(log.entries), a.diags + b.diags, AtLine(o.errs, e.line));
      Regroup(old(log.entries), a.diags, b.diags);
      t := ListAccessNode(instance, index, e.line);
    }

    /** The index check once the list and the index are typed. */
    method ListAccessNode(instance: Type, index: Type, line: nat) returns (t: Type)
      modifies log
      ensures var o := ListAccessOutcome(instance, index);
              t == o.ty && log.entries == old(log.entries) + AtLine(o.errs, line)
    {
      if instance.List? && index.Int? {
        t := instance.elem;
      } else {
        if instance.List? && !index.NoType? {
          AddError(ListIndexNotInt, line);
        } else if !instance.NoType? && index.Int? {
          AddError(AccessByIndexOnNonList, line);
        }
        t := NoType;
      }
    }

    method VisitStructAccess(env: seq<Table>, e: Expr) returns (t: Type)
      requires |env| > 0 && e.StructAccess?
      modifies this, log
      ensures var r := Infer(env, old(isStmt), e);
              t == r.ty && isStmt == r.isStmt && log.entries == old(log.entries) + r.diags
      decreases e, 1
    {
      ghost var a := Infer(env, isStmt, e.instance);
      var instance := Visit(env, e.instance);
      Regroup(old(log.entries), a.diags, AtLine(StructAccessOutcome(env[0], instance, e.member).errs, e.line));
      t := StructAccessNode(env[0], instance, e.member, e.line);
    }

    /** The member lookup once the instance is typed; `root` is the root
        table, where struct declarations live. */
    method StructAccessNode(root: Table, instance: Type, member: string, line: nat) returns (t: Type)
      modifies log
      ensures var o := StructAccessOutcome(root, instance, member);
              t == o.ty && log.entries == old(log.entries) + AtLine(o.errs, line)
    {
      if instance.NoType? {
        return NoType;
      }
      if !instance.Struct? {
        AddError(AccessOnNonStruct, line);
        return NoType;
      }
      var structName := instance.name;
      if StructKey(structName) in root && root[StructKey(structName)].StructItem? {
        var element := Lookup([root, root[StructKey(structName)].members], VarKey(member));
        if element.Some? && element.value.VarItem? {
          return element.value.ty;
        }
        AddError(StructMemberNotFound(structName, member), line);
        return NoType;
      }
      t := NoType;
    }

    method VisitListSize(env: seq<Table>, e: Expr) returns (t: Type)
      requires |env| > 0 && e.ListSize?
      modifies this, log
      ensures var r := Infer(env, old(isStmt), e);
              t == r.ty && isStmt == r.isStmt && log.entries == old(log.entries) + r.diags
      decreases e, 1
    {
      ghost var a := Infer(env, isStmt, e.arg);
      var list := Visit(env, e.arg);
      Regroup(old(log.entries), a.diags, AtLine(ListSizeOutcome(list).errs, e.line));
      if list.List? {
        return Int;
      }
      if !list.NoType? {
        AddError(GetSizeOfNonList, e.line);
      }
      t := NoType;
    }

    method VisitListAppend(env: seq<Table>, e: Expr) returns (t: Type)
      requires |env| > 0 && e.ListAppend?
      modifies this, log
      ensures var r := Infer(env, old(isStmt), e);
              t == r.ty && isStmt == r.isStmt && log.entries == old(log.entries) + r.diags
      decreases e, 1
    {
      ghost var a := Infer(env, isStmt, e.list);
      var listType := Visit(env, e.list);
      if !listType.List? {
        Regroup(old(log.entries), a.diags, [Diag(AppendToNonList, e.line)]);
        AddError(AppendToNonList, e.line);
        return NoType;
      }
      ghost var b := Infer(env, isStmt, e.element);
      var listElement := Visit(env, e.element);
      ghost var o := AppendOutcome(listType.elem, listElement);
      assert Infer(env, old(isStmt), e) == Inferred(o.ty, a.diags + b.diags + AtLine(o.errs, e.line), b.isStmt);
      Regroup(old(log.entries), a.diags + b.diags, AtLine(o.errs, e.line));
      Regroup(old(log.entries), a.diags, b.diags);
      t := AppendNode(listType.elem, listElement, e.line);
    }

    /** The append check once the list's element type and the new element
        are typed. */
    method AppendNode(listArg: Type, listElement: Type, line: nat) returns (t: Type)
      modifies log
      ensures var o := AppendOutcome(listArg, listElement);
              t == o.ty && log.entries == old(log.entries) + AtLine(o.errs, line)
    {
      if (listElement.Bool? && listArg.Bool?) || (listElement.Int? && listArg.Int?) ||
         (listElement.Struct? && listArg.Struct?) || (listElement.List? && listArg.List?) {
        return Void;
      }
      if !listArg.NoType? {
        AddError(NewElementTypeNotMatchListType, line);
      }
      t := NoType;
    }
  }
}
