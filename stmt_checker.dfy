/** The statement and declaration checker as the source writes it: an object
    that walks the program, updates its scope fields and the global stack of
    symbol tables in place, and hands expressions to the expression checker.

    Every visit is proved against the `StmtSpec` function of the same form:
    `Model()` reads the checker's fields, the expression checker's `is_stmt`
    flag and the shared log, and each visit's new `Model()` is the spec
    function applied to the old one. */
module StmtChecking {
  import opened Wrappers
  import opened Types
  import opened Symbols
  import opened Ast
  import opened ExprSpec
  import opened StmtSpec
  import opened Diagnostics
  import opened ExprChecking

  /** `recursiveCompare`, with its loop over the argument types of two
      function pointers. */
  method RecursiveCompare(a: Type, b: Type) returns (ok: bool)
    ensures ok == Compatible(a, b)
    decreases a
  {
    if a.NoType? || b.NoType? {
      return true;
    }
    if !SameHead(a, b) {
      return false;
    }
    match a
    case Struct(n) =>
      ok := n == b.name;
    case List(e) =>
      ok := RecursiveCompare(e, b.elem);
    case Fptr(args, ret) =>
      if |args| != |b.args| {
        return false;
      }
      ok := RecursiveCompare(ret, b.ret);
      if !ok {
        return;
      }
      var i := 0;
      while i < |args|
        invariant 0 <= i <= |args|
        invariant forall j :: 0 <= j < i ==> Compatible(args[j], b.args[j])
      {
        var same := RecursiveCompare(args[i], b.args[i]);
        if !same {
          return false;
        }
        i := i + 1;
      }
      ok := true;
    case Int =>
      ok := true;
    case Bool =>
      ok := true;
    case Void =>
      ok := true;
  }

  /** The name list of one more type appends its own diagnostics. */
  lemma NotDeclaredAppend(xs: seq<string>, ys: seq<string>, line: nat)
    ensures NotDeclared(xs + ys, line) == NotDeclared(xs, line) + NotDeclared(ys, line)
  {
  }

  /** The parameter types of a property, collected in order as the source's
      loop over its arguments does. */
  method ParamTypesOf(params: seq<VarDecl>) returns (args: seq<Type>)
    ensures args == ParamTypes(params)
  {
    args := [];
    var i := 0;
    while i < |params|
      invariant 0 <= i <= |params|
      invariant |args| == i && forall j :: 0 <= j < i ==> args[j] == params[j].ty
    {
      args := args + [params[i].ty];
      i := i + 1;
    }
  }

  lemma UndeclaredStep(root: Table, ts: seq<Type>, i: nat, line: nat)
    requires i < |ts|
    ensures NotDeclared(UndeclaredIn(root, ts[..i + 1]), line) ==
            NotDeclared(UndeclaredIn(root, ts[..i]), line) + NotDeclared(UndeclaredStructs(root, ts[i]), line)
  {
    assert ts[..i + 1][..i] == ts[..i];
    NotDeclaredAppend(UndeclaredIn(root, ts[..i]), UndeclaredStructs(root, ts[i]), line);
  }

  /** A function pointer's names: its arguments' in order, then its return type's. */
  lemma FptrUndeclared(root: Table, t: Type, line: nat)
    requires t.Fptr?
    ensures NotDeclared(UndeclaredStructs(root, t), line) ==
            NotDeclared(UndeclaredIn(root, t.args[..|t.args|]), line) + NotDeclared(UndeclaredStructs(root, t.ret), line)
  {
    assert t.args[..|t.args|] == t.args;
    NotDeclaredAppend(UndeclaredIn(root, t.args), UndeclaredStructs(root, t.ret), line);
  }

  lemma SeqStep(st: State, ss: seq<Stmt>, i: nat)
    requires |st.tables| > 0 && i < |ss|
    ensures ExecSeq(st, ss[..i + 1]) == Exec(ExecSeq(st, ss[..i]), ss[i])
  {
    var pre := ss[..i + 1];
    assert pre[..|pre| - 1] == ss[..i];
    assert pre[|pre| - 1] == ss[i];
  }

  lemma ParamsStep(st: State, ds: seq<VarDecl>, i: nat)
    requires |st.tables| > 0 && i < |ds|
    ensures DeclareAll(st, ds[..i + 1]) == Declare(DeclareAll(st, ds[..i]), ds[i])
  {
    var pre := ds[..i + 1];
    assert pre[..|pre| - 1] == ds[..i];
    assert pre[|pre| - 1] == ds[i];
  }

  lemma LocalsStep(st: State, vs: seq<VarDecl>, i: nat, line: nat)
    requires |st.tables| > 0 && i < |vs|
    ensures DeclareLocals(st, vs[..i + 1], line) == StmtSpec.DeclareLocal(DeclareLocals(st, vs[..i], line), vs[i], line)
  {
    var pre := vs[..i + 1];
    assert pre[..|pre| - 1] == vs[..i];
    assert pre[|pre| - 1] == vs[i];
  }

  lemma StructsStep(st: State, sds: seq<StructDecl>, i: nat)
    requires |st.tables| == 1 && i < |sds|
    ensures ExecStructs(st, sds[..i + 1]) == ExecStruct(ExecStructs(st, sds[..i]), sds[i])
  {
    var pre := sds[..i + 1];
    assert pre[..|pre| - 1] == sds[..i];
    assert pre[|pre| - 1] == sds[i];
  }

  lemma FunctionsStep(st: State, fs: seq<FunctionDecl>, i: nat)
    requires |st.tables| == 1 && i < |fs|
    ensures ExecFunctions(st, fs[..i + 1]) == ExecFunction(ExecFunctions(st, fs[..i]), fs[i])
  {
    var pre := fs[..i + 1];
    assert pre[..|pre| - 1] == fs[..i];
    assert pre[|pre| - 1] == fs[i];
  }

  class TypeChecker {
    const expr: ExpressionTypeChecker
    /** The global stack of symbol tables; the first one is the root. */
    var tables: seq<Table>
    var top: Scope
    var scopes: seq<Scope>
    var declarationPermitted: bool

    /** The whole state the visits read and write. */
    ghost function Model(): State
      reads this, expr, expr.log
    {
      State(tables, top, scopes, declarationPermitted, expr.isStmt, expr.log.entries)
    }

    /** A checker whose stack holds only the root table that the earlier
        name-collection pass filled, reporting into `log`. */
    constructor (root: Table, log: ErrorLog)
      ensures fresh(expr) && expr.log == log
      ensures Model() == State([root], Scope(false), [], false, false, log.entries)
    {
      expr := new ExpressionTypeChecker(log);
      tables := [root];
      top := Scope(false);
      scopes := [];
      declarationPermitted := false;
    }

    method AddError(kind: ErrorKind, line: nat)
      modifies expr.log
      ensures Model() == Report(old(Model()), kind, line)
    {
      expr.log.Add(Diag(kind, line));
    }

    /** `SymbolTable.push`: a fresh, empty table on top of the stack. */
    method PushTable()
      modifies this
      ensures Model() == StmtSpec.PushTable(old(Model()))
    {
      tables := tables + [map[]];
    }

    /** `SymbolTable.pop`: the top table is dropped. */
    method PopTable()
      requires |tables| > 0
      modifies this
      ensures Model() == StmtSpec.PopTable(old(Model()))
    {
      tables := tables[..|tables| - 1];
    }

    /** `SymbolTable.top.put`: the item goes into the top table. */
    method Put(it: Item)
      requires |tables| > 0
      modifies this
      ensures Model() == PutItem(old(Model()), it)
    {
      tables := PutTop(tables, it);
    }

    /** `pushScope`: a fresh table on the stack and a fresh current scope. */
    method PushScope()
      modifies this
      ensures Model() == StmtSpec.PushScope(old(Model()))
    {
      tables := tables + [map[]];
      scopes := scopes + [top];
      top := Scope(false);
    }

    /** `popScope`: the table is dropped and the saved scope is current again. */
    method PopScope()
      requires |tables| > 0 && |scopes| > 0
      modifies this
      ensures Model() == StmtSpec.PopScope(old(Model()))
    {
      tables := tables[..|tables| - 1];
      top := scopes[|scopes| - 1];
      scopes := scopes[..|scopes| - 1];
    }

    /** `recursiveTypeCheck`: one `StructNotDeclared` per struct name in `t`
        that the root table does not declare, in walking order. */
    method RecursiveTypeCheck(t: Type, line: nat)
      requires |tables| > 0
      modifies expr.log
      ensures Model() == CheckType(old(Model()), t, line)
      decreases t, 1
    {
      match t
      case Struct(n) =>
        if StructKey(n) !in tables[0] {
          AddError(StructNotDeclared(n), line);
        }
      case List(e) =>
        RecursiveTypeCheck(e, line);
      case Fptr(_, _) =>
        RecursiveTypeCheckFptr(t, line);
      case Int =>
      case Bool =>
      case Void =>
      case NoType =>
    }

    /** The function-pointer overload: every argument type, then the return
        type. */
    method RecursiveTypeCheckFptr(t: Type, line: nat)
      requires |tables| > 0 && t.Fptr?
      modifies expr.log
      ensures expr.log.entries == old(expr.log.entries) + NotDeclared(UndeclaredStructs(tables[0], t), line)
      decreases t, 0
    {
      ghost var root := tables[0];
      ghost var start := expr.log.entries;
      var i := 0;
      while i < |t.args|
        invariant 0 <= i <= |t.args|
        invariant expr.log.entries == start + NotDeclared(UndeclaredIn(root, t.args[..i]), line)
      {
        UndeclaredStep(root, t.args, i, line);
        RecursiveTypeCheck(t.args[i], line);
        i := i + 1;
      }
      FptrUndeclared(root, t, line);
      RecursiveTypeCheck(t.ret, line);
    }

    /** An expression handed to the expression checker on the current stack. */
    method Evaluate(e: Expr) returns (t: Type)
      requires |tables| > 0
      modifies expr, expr.log
      ensures var v := Eval(old(Model()), e); t == v.ty && Model() == v.st
    {
      t := expr.Visit(tables, e);
    }

    /** `value`: a Void result is demoted to NoType. */
    method Value(e: Expr) returns (t: Type)
      requires |tables| > 0
      modifies expr, expr.log
      ensures var v := ValueOf(old(Model()), e); t == v.ty && Model() == v.st
    {
      t := Evaluate(e);
      if t.Void? {
        t := NoType;
      }
    }

    method Visit(s: Stmt)
      requires |tables| > 0
      modifies this, expr, expr.log
      ensures Model() == Exec(old(Model()), s)
      decreases s, 2
    {
      match s
      case AssignStmt(_, _, _) => VisitAssignment(s);
      case Block(stmts, _) => VisitBlock(stmts);
      case If(_, _, _, _) => VisitConditional(s);
      case Loop(_, _, _) => VisitLoop(s);
      case CallStmt(instance, args, line) =>
        expr.isStmt := true;
        var _ := Evaluate(Call(instance, args, line));
      case Display(_, _) => VisitDisplay(s);
      case Return(_, _) => VisitReturn(s);
      case VarDecStmt(_, _) => VisitVarDecStmt(s);
      case ListAppendStmt(list, element, line) =>
        var _ := Evaluate(ListAppend(list, element, line));
      case ListSizeStmt(arg, line) =>
        var _ := Evaluate(ListSize(arg, line));
      case SetGet(_, _, _, _, _, _) => VisitSetGet(s);
    }

    method VisitAssignment(s: Stmt)
      requires |tables| > 0 && s.AssignStmt?
      modifies expr, expr.log
      ensures Model() == ExecAssignment(old(Model()), s)
      decreases s, 1
    {
      if !IsLvalue(s.lvalue) {
        AddError(LeftSideNotLvalue, s.lvalue.line);
      }
      var leftType := Evaluate(s.lvalue);
      var rightType := Evaluate(s.rvalue);
      var ok := RecursiveCompare(leftType, rightType);
      if !ok {
        AddError(UnsupportedOperandType(BinaryName(Assign)), s.line);
      }
    }

    /** One more statement of a block, in order. */
    method VisitNextStmt(ghost start: State, stmts: seq<Stmt>, i: nat)
      requires |start.tables| > 0 && |tables| > 0 && i < |stmts|
      requires Model() == ExecSeq(start, stmts[..i])
      modifies this, expr, expr.log
      ensures |tables| > 0 && Model() == ExecSeq(start, stmts[..i + 1])
      decreases stmts, 0
    {
      SeqStep(start, stmts, i);
      Visit(stmts[i]);
    }

    method VisitBlock(stmts: seq<Stmt>)
      requires |tables| > 0
      modifies this, expr, expr.log
      ensures Model() == ExecSeq(old(Model()), stmts)
      decreases stmts, 1
    {
      ghost var start := Model();
      var i := 0;
      while i < |stmts|
        invariant 0 <= i <= |stmts| && |tables| > 0
        invariant Model() == ExecSeq(start, stmts[..i])
      {
        VisitNextStmt(start, stmts, i);
        i := i + 1;
      }
      assert stmts[..|stmts|] == stmts;
    }

    /** A condition that is not compatible with Bool. */
    method CheckCondition(cond: Expr)
      requires |tables| > 0
      modifies expr, expr.log
      ensures Model() == StmtSpec.CheckCondition(old(Model()), cond)
    {
      var conditionType := Evaluate(cond);
      var ok := RecursiveCompare(conditionType, Bool);
      if !ok {
        AddError(ConditionNotBool, cond.line);
      }
    }

    /** A branch visited in a scope of its own; `returned` is the branch
        scope's return bit, read before the scope is popped. */
    method VisitInScope(body: Stmt) returns (returned: bool)
      requires |tables| > 0
      modifies this, expr, expr.log
      ensures var t := Exec(StmtSpec.PushScope(old(Model())), body);
              returned == t.top.returnExists && Model() == StmtSpec.PopScope(t)
      decreases body, 3
    {
      PushScope();
      Visit(body);
      returned := top.returnExists;
      PopScope();
    }

    method VisitConditional(s: Stmt)
      requires |tables| > 0 && s.If?
      modifies this, expr, expr.log
      ensures Model() == ExecConditional(old(Model()), s)
      decreases s, 1
    {
      CheckCondition(s.cond);
      var returnExists := VisitInScope(s.thenBody);
      if s.elseBody.Some? {
        var elseReturns := VisitInScope(s.elseBody.value);
        returnExists := elseReturns && returnExists;
      }
      top := Scope((returnExists && s.elseBody.Some?) || top.returnExists);
    }

    method VisitLoop(s: Stmt)
      requires |tables| > 0 && s.Loop?
      modifies this, expr, expr.log
      ensures Model() == ExecLoop(old(Model()), s)
      decreases s, 1
    {
      CheckCondition(s.cond);
      PushScope();
      Visit(s.body);
      PopScope();
    }

    method VisitDisplay(s: Stmt)
      requires |tables| > 0 && s.Display?
      modifies expr, expr.log
      ensures Model() == ExecDisplay(old(Model()), s)
    {
      var t := Value(s.arg);
      if !(t.Bool? || t.Int? || t.List? || t.NoType?) {
        AddError(UnsupportedTypeForDisplay, s.line);
      }
    }

    method VisitReturn(s: Stmt)
      requires |tables| > 0 && s.Return?
      modifies this, expr, expr.log
      ensures Model() == ExecReturn(old(Model()), s)
    {
      top := Scope(true);
      var declared := LookupVar(tables, ReturnName);
      if declared.None? {
        AddError(CannotUseReturn, s.line);
        return;
      }
      var returnType := declared.value;
      if !returnType.Void? && s.value.None? {
        AddError(ReturnValueNotMatchFunctionReturnType, s.line);
      } else {
        var t := Void;
        if s.value.Some? {
          t := Evaluate(s.value.value);
        }
        var ok := RecursiveCompare(t, returnType);
        if !ok {
          AddError(ReturnValueNotMatchFunctionReturnType, s.line);
        }
      }
    }

    /** The visit of a parameter declaration. */
    method VisitVariableDeclaration(d: VarDecl)
      requires |tables| > 0
      modifies this, expr.log
      ensures Model() == Declare(old(Model()), d)
    {
      RecursiveTypeCheck(d.ty, d.line);
      tables := PutTop(tables, VarItem(d.name, d.ty));
    }

    method DeclareParams(ds: seq<VarDecl>)
      requires |tables| > 0
      modifies this, expr.log
      ensures Model() == DeclareAll(old(Model()), ds)
    {
      ghost var start := Model();
      var i := 0;
      while i < |ds|
        invariant 0 <= i <= |ds| && |tables| > 0
        invariant Model() == DeclareAll(start, ds[..i])
      {
        ParamsStep(start, ds, i);
        VisitVariableDeclaration(ds[i]);
        i := i + 1;
      }
      assert ds[..|ds|] == ds;
    }

    /** One declarator of a `var` statement. */
    method DeclareLocal(v: VarDecl, stmtLine: nat)
      requires |tables| > 0
      modifies this, expr, expr.log
      ensures Model() == StmtSpec.DeclareLocal(old(Model()), v, stmtLine)
    {
      RecursiveTypeCheck(v.ty, stmtLine);
      tables := PutTop(tables, VarItem(v.name, v.ty));
      if v.default.Some? {
        var t := Value(v.default.value);
        var ok := RecursiveCompare(t, v.ty);
        if !ok {
          AddError(UnsupportedOperandType(BinaryName(Assign)), v.line);
        }
      }
    }

    /** The declarators of a `var` statement, in order. */
    method DeclareLocals(vs: seq<VarDecl>, stmtLine: nat)
      requires |tables| > 0
      modifies this, expr, expr.log
      ensures Model() == StmtSpec.DeclareLocals(old(Model()), vs, stmtLine)
    {
      ghost var start := Model();
      var i := 0;
      while i < |vs|
        invariant 0 <= i <= |vs| && |tables| > 0
        invariant Model() == StmtSpec.DeclareLocals(start, vs[..i], stmtLine)
      {
        LocalsStep(start, vs, i, stmtLine);
        DeclareLocal(vs[i], stmtLine);
        i := i + 1;
      }
      assert vs[..|vs|] == vs;
    }

    method VisitVarDecStmt(s: Stmt)
      requires |tables| > 0 && s.VarDecStmt?
      modifies this, expr, expr.log
      ensures Model() == ExecVarDec(old(Model()), s)
      decreases s, 1
    {
      if declarationPermitted {
        AddError(CannotUseDefineVar, s.line);
      }
      DeclareLocals(s.vars, s.line);
    }

    /** The setter: a table holding the property and its parameters. */
    method VisitSetter(s: Stmt)
      requires |tables| > 0 && s.SetGet?
      modifies this, expr, expr.log
      ensures Model() == SetterPart(old(Model()), s)
      decreases s, 0
    {
      PushTable();
      Put(VarItem(s.name, s.ty));
      DeclareParams(s.params);
      Visit(s.setter);
      PopTable();
    }

    /** The getter: a table holding `RETURN` with the property type. */
    method VisitGetter(s: Stmt)
      requires |tables| > 0 && s.SetGet?
      modifies this, expr, expr.log
      ensures Model() == GetterPart(old(Model()), s)
      decreases s, 0
    {
      PushTable();
      Put(VarItem(ReturnName, s.ty));
      Visit(s.getter);
      PopTable();
    }

    method VisitSetGet(s: Stmt)
      requires |tables| > 0 && s.SetGet?
      modifies this, expr, expr.log
      ensures Model() == ExecSetGet(old(Model()), s)
      decreases s, 1
    {
      declarationPermitted := true;
      RecursiveTypeCheck(s.ty, s.line);
      ghost var s1 := Model();
      VisitSetter(s);
      VisitGetter(s);
      ghost var s2 := Model();
      assert s2 == GetterPart(SetterPart(s1, s), s);
      var args := ParamTypesOf(s.params);
      Put(VarItem(s.name, Fptr(args, s.ty)));
      declarationPermitted := false;
    }

    method VisitFunction(f: FunctionDecl)
      requires |tables| == 1
      modifies this, expr, expr.log
      ensures Model() == ExecFunction(old(Model()), f)
    {
      PushScope();
      RecursiveTypeCheck(f.returnType, f.line);
      Put(VarItem(ReturnName, f.returnType));
      DeclareParams(f.args);
      Visit(f.body);
      ghost var b := Model();
      assert b == FunctionBody(old(Model()), f);
      if !(top.returnExists || f.returnType.Void?) {
        AddError(MissingReturnStatement(f.name), f.line);
      }
      PopScope();
    }

    method VisitMain(body: Stmt)
      requires |tables| == 1
      modifies this, expr, expr.log
      ensures Model() == ExecMain(old(Model()), body)
    {
      PushTable();
      Visit(body);
      PopTable();
    }

    /** The struct's body table becomes its item's member table. */
    method VisitStruct(sd: StructDecl)
      requires |tables| == 1
      modifies this, expr, expr.log
      ensures Model() == ExecStruct(old(Model()), sd)
    {
      PushTable();
      Visit(sd.body);
      var root, key := tables[0], StructKey(sd.name);
      if key in root && root[key].StructItem? {
        tables := tables[0 := root[key := root[key].(members := tables[1])]];
      }
      PopTable();
    }

    method VisitStructs(sds: seq<StructDecl>)
      requires |tables| == 1
      modifies this, expr, expr.log
      ensures Model() == ExecStructs(old(Model()), sds)
    {
      ghost var start := Model();
      var i := 0;
      while i < |sds|
        invariant 0 <= i <= |sds| && |tables| == 1
        invariant Model() == ExecStructs(start, sds[..i])
      {
        StructsStep(start, sds, i);
        VisitStruct(sds[i]);
        i := i + 1;
      }
      assert sds[..|sds|] == sds;
    }

    /** One more function declaration of the program, in order. */
    method VisitNextFunction(ghost start: State, fs: seq<FunctionDecl>, i: nat)
      requires |start.tables| == 1 && |tables| == 1 && i < |fs|
      requires Model() == ExecFunctions(start, fs[..i])
      modifies this, expr, expr.log
      ensures |tables| == 1 && Model() == ExecFunctions(start, fs[..i + 1])
    {
      FunctionsStep(start, fs, i);
      VisitFunction(fs[i]);
    }

    method VisitFunctions(fs: seq<FunctionDecl>)
      requires |tables| == 1
      modifies this, expr, expr.log
      ensures Model() == ExecFunctions(old(Model()), fs)
    {
      ghost var start := Model();
      var i := 0;
      while i < |fs|
        invariant 0 <= i <= |fs| && |tables| == 1
        invariant Model() == ExecFunctions(start, fs[..i])
      {
        VisitNextFunction(start, fs, i);
        i := i + 1;
      }
      assert fs[..|fs|] == fs;
    }

    /** Structs, then functions, then main. */
    method VisitProgram(p: Program)
      requires |tables| == 1
      modifies this, expr, expr.log
      ensures Model() == ExecProgram(old(Model()), p)
    {
      VisitStructs(p.structs);
      VisitFunctions(p.functions);
      VisitMain(p.main);
    }
  }
}
