/** Properties of the statement and declaration checker. */
module StmtProps {
  import opened Wrappers
  import opened Types
  import opened Symbols
  import opened Ast
  import opened ExprSpec
  import opened ExprProps
  import opened StmtSpec

  /** The all-paths-return rule, stated on the syntax alone: a return
      statement returns; a block returns when one of its statements does; a
      conditional only when it has an else branch and both branches return;
      a loop never does; a property's setter and getter run in the enclosing
      scope. */
  predicate Returns(s: Stmt)
    decreases s
  {
    match s
    case Return(_, _) => true
    case Block(stmts, _) => exists i :: 0 <= i < |stmts| && Returns(stmts[i])
    case If(_, thenBody, elseBody, _) => elseBody.Some? && Returns(thenBody) && Returns(elseBody.value)
    case SetGet(_, _, _, setter, getter, _) => Returns(setter) || Returns(getter)
    case _ => false
  }

  /** The checker's `returnExists` bit after a statement is exactly the bit
      before it or the syntactic rule. */
  lemma {:induction false} ReturnCoverage(st: State, s: Stmt)
    requires |st.tables| > 0
    ensures Exec(st, s).top.returnExists == (st.top.returnExists || Returns(s))
    decreases s, 2
  {
    match s
    case Block(stmts, _) => ReturnCoverageSeq(st, stmts);
    case If(_, _, _, _) => ConditionalCoverage(st, s);
    case SetGet(_, _, _, _, _, _) => SetGetCoverage(st, s);
    case CallStmt(_, _, _) =>
    case ListAppendStmt(_, _, _) =>
    case ListSizeStmt(_, _) =>
    case AssignStmt(_, _, _) =>
    case Loop(_, _, _) =>
    case Display(_, _) =>
    case Return(_, _) =>
    case VarDecStmt(_, _) =>
  }

  lemma {:induction false} ConditionalCoverage(st: State, s: Stmt)
    requires |st.tables| > 0 && s.If?
    ensures ExecConditional(st, s).top.returnExists == (st.top.returnExists || Returns(s))
    decreases s, 1
  {
    var s1 := CheckCondition(st, s.cond);
    ReturnCoverage(PushScope(s1), s.thenBody);
    if s.elseBody.Some? {
      var s2 := PopScope(Exec(PushScope(s1), s.thenBody));
      ReturnCoverage(PushScope(s2), s.elseBody.value);
    }
  }

  lemma {:induction false} SetGetCoverage(st: State, s: Stmt)
    requires |st.tables| > 0 && s.SetGet?
    ensures ExecSetGet(st, s).top.returnExists == (st.top.returnExists || Returns(s))
    decreases s, 1
  {
    var s1 := CheckType(st.(declarationPermitted := true), s.ty, s.line);
    var setterStart := DeclareAll(PutItem(PushTable(s1), VarItem(s.name, s.ty)), s.params);
    ReturnCoverage(setterStart, s.setter);
    var afterSetter := SetterPart(s1, s);
    ReturnCoverage(PutReturn(PushTable(afterSetter), s.ty), s.getter);
  }

  lemma {:induction false} ReturnCoverageSeq(st: State, ss: seq<Stmt>)
    requires |st.tables| > 0
    ensures ExecSeq(st, ss).top.returnExists ==
            (st.top.returnExists || exists i :: 0 <= i < |ss| && Returns(ss[i]))
    decreases ss, 0
  {
    if |ss| > 0 {
      var init := ss[..|ss| - 1];
      ReturnCoverageSeq(st, init);
      ReturnCoverage(ExecSeq(st, init), ss[|ss| - 1]);
      SomeReturnsSplit(ss, init);
    }
  }

  /** Some statement of a non-empty sequence returns iff one of all but the
      last does, or the last one does. */
  lemma SomeReturnsSplit(ss: seq<Stmt>, init: seq<Stmt>)
    requires |ss| > 0 && init == ss[..|ss| - 1]
    ensures (exists i :: 0 <= i < |ss| && Returns(ss[i])) ==
            ((exists i :: 0 <= i < |init| && Returns(init[i])) || Returns(ss[|ss| - 1]))
  {
    if exists i :: 0 <= i < |ss| && Returns(ss[i]) {
      var i :| 0 <= i < |ss| && Returns(ss[i]);
      if i < |ss| - 1 {
        assert init[i] == ss[i];
      }
    }
    if exists i :: 0 <= i < |init| && Returns(init[i]) {
      var i :| 0 <= i < |init| && Returns(init[i]);
      assert ss[i] == init[i];
    }
  }

  /** An if without else never gives the enclosing scope a return, whatever
      its then branch does. */
  lemma IfWithoutElseAddsNothing(st: State, s: Stmt)
    requires |st.tables| > 0 && s.If? && s.elseBody.None?
    ensures Exec(st, s).top == st.top
  {
  }

  /** A function is reported for a missing return exactly when its body does
      not return on every path and its return type is not Void; the report
      is the last diagnostic of the declaration, on its line. */
  lemma MissingReturnRule(st: State, f: FunctionDecl)
    requires |st.tables| == 1
    ensures ExecFunction(st, f).log ==
            FunctionBody(st, f).log +
            (if !Returns(f.body) && !f.returnType.Void? then [Diag(MissingReturnStatement(f.name), f.line)] else [])
  {
    var s1 := PushScope(st);
    var s3 := DeclareAll(PutReturn(CheckType(s1, f.returnType, f.line), f.returnType), f.args);
    ReturnCoverage(s3, f.body);
  }

  /** Whether a struct name occurs anywhere in a type. */
  predicate Mentions(t: Type, n: string)
    decreases t
  {
    match t
    case Struct(m) => m == n
    case List(e) => Mentions(e, n)
    case Fptr(args, ret) => Mentions(ret, n) || exists i :: 0 <= i < |args| && Mentions(args[i], n)
    case _ => false
  }

  /** `recursiveTypeCheck` reports exactly the struct names that occur in
      the type and are not declared in the root table. */
  lemma {:induction false} UndeclaredStructsExactly(root: Table, t: Type, n: string)
    ensures n in UndeclaredStructs(root, t) <==> Mentions(t, n) && StructKey(n) !in root
    decreases t, 1
  {
    match t
    case Struct(m) =>
    case List(e) => UndeclaredStructsExactly(root, e, n);
    case Fptr(args, ret) =>
      UndeclaredInExactly(root, args, n);
      UndeclaredStructsExactly(root, ret, n);
    case Int =>
    case Bool =>
    case Void =>
    case NoType =>
  }

  lemma {:induction false} UndeclaredInExactly(root: Table, ts: seq<Type>, n: string)
    ensures n in UndeclaredIn(root, ts) <==> (exists i :: 0 <= i < |ts| && Mentions(ts[i], n)) && StructKey(n) !in root
    decreases ts, 0
  {
    if |ts| > 0 {
      var init := ts[..|ts| - 1];
      UndeclaredInExactly(root, init, n);
      UndeclaredStructsExactly(root, ts[|ts| - 1], n);
      if exists i :: 0 <= i < |ts| && Mentions(ts[i], n) {
        var i :| 0 <= i < |ts| && Mentions(ts[i], n);
        if i < |ts| - 1 {
          assert init[i] == ts[i];
        }
      }
      if exists i :: 0 <= i < |init| && Mentions(init[i], n) {
        var i :| 0 <= i < |init| && Mentions(init[i], n);
        assert ts[i] == init[i];
      }
    }
  }

  /** Types built from Int, Bool and Void alone never report anything. */
  lemma {:induction false} PrimitiveTypesNeedNoDeclaration(root: Table, t: Type)
    requires t.Int? || t.Bool? || t.Void?
    ensures UndeclaredStructs(root, t) == []
  {
  }

  lemma CountKindExpressionDiags(ds: seq<Diag>, k: ErrorKind)
    requires AllExpressionKinds(ds) && !ExpressionKind(k)
    ensures CountKind(ds, k) == 0
    decreases |ds|
  {
    if ds != [] {
      assert ds[0].kind != k;
      CountKindExpressionDiags(ds[1..], k);
    }
  }

  lemma NewEntries(w: seq<Diag>, a: seq<Diag>, b: seq<Diag>, c: seq<Diag>, d: seq<Diag>)
    ensures (w + a + b + c + d)[|w|..] == a + (b + c) + d
  {
    assert w + a + b + c + d == w + (a + (b + c) + d);
  }

  /** The entries an assignment statement adds to the log: its own l-value
      error, the two visits' diagnostics, then the compatibility error. */
  lemma AssignmentLog(st: State, s: Stmt)
    requires |st.tables| > 0 && s.AssignStmt?
    ensures var l := Infer(st.tables, st.isStmt, s.lvalue);
            var rv := Infer(st.tables, l.isStmt, s.rvalue);
            ExecAssignment(st, s).log[|st.log|..] ==
              (if IsLvalue(s.lvalue) then [] else [Diag(LeftSideNotLvalue, s.lvalue.line)]) + (l.diags + rv.diags) +
              (if !Compatible(l.ty, rv.ty) then [Diag(UnsupportedOperandType(BinaryName(Assign)), s.line)] else [])
  {
    var own := if IsLvalue(s.lvalue) then [] else [Diag(LeftSideNotLvalue, s.lvalue.line)];
    var s1 := if IsLvalue(s.lvalue) then st else Report(st, LeftSideNotLvalue, s.lvalue.line);
    assert s1.log == st.log + own;
    var l := Eval(s1, s.lvalue);
    var rv := Eval(l.st, s.rvalue);
    var li := Infer(st.tables, st.isStmt, s.lvalue);
    var ri := Infer(st.tables, li.isStmt, s.rvalue);
    assert rv.st.log == st.log + own + li.diags + ri.diags;
    var tail := if !Compatible(l.ty, rv.ty) then [Diag(UnsupportedOperandType(BinaryName(Assign)), s.line)] else [];
    assert ExecAssignment(st, s).log == rv.st.log + tail;
    NewEntries(st.log, own, li.diags, ri.diags, tail);
  }

  /** Counting l-value errors in an assignment's entries: only its own. */
  lemma LvalueCount(isLvalue: bool, lvalueLine: nat, a: seq<Diag>, b: seq<Diag>, compatible: bool, line: nat)
    requires AllExpressionKinds(a) && AllExpressionKinds(b)
    ensures CountKind((if isLvalue then [] else [Diag(LeftSideNotLvalue, lvalueLine)]) + (a + b) +
                      (if !compatible then [Diag(UnsupportedOperandType(BinaryName(Assign)), line)] else []),
                      LeftSideNotLvalue) == if isLvalue then 0 else 1
  {
    var own := if isLvalue then [] else [Diag(LeftSideNotLvalue, lvalueLine)];
    var tail := if !compatible then [Diag(UnsupportedOperandType(BinaryName(Assign)), line)] else [];
    AllExpressionKindsAppend(a, b);
    CountKindExpressionDiags(a + b, LeftSideNotLvalue);
    CountKindAppend(own + (a + b), tail, LeftSideNotLvalue);
    CountKindAppend(own, a + b, LeftSideNotLvalue);
  }

  /** The l-value rule: an assignment statement reports `LeftSideNotLvalue`
      exactly once when its left side is not an identifier, a struct access
      or a list access, and never otherwise (both sides are still visited). */
  lemma AssignmentLvalueRule(st: State, s: Stmt)
    requires |st.tables| > 0 && s.AssignStmt?
    ensures var r := ExecAssignment(st, s);
            CountKind(r.log[|st.log|..], LeftSideNotLvalue) == if IsLvalue(s.lvalue) then 0 else 1
  {
    var l := Infer(st.tables, st.isStmt, s.lvalue);
    var rv := Infer(st.tables, l.isStmt, s.rvalue);
    AssignmentLog(st, s);
    InferReportsExpressionKinds(st.tables, st.isStmt, s.lvalue);
    InferReportsExpressionKinds(st.tables, l.isStmt, s.rvalue);
    LvalueCount(IsLvalue(s.lvalue), s.lvalue.line, l.diags, rv.diags, Compatible(l.ty, rv.ty), s.line);
  }

  lemma NewSuffix(w: seq<Diag>, a: seq<Diag>, b: seq<Diag>)
    ensures (w + a + b)[|w|..] == a + b
  {
    assert w + a + b == w + (a + b);
  }

  /** The diagnostics a condition adds: its own, then the condition error. */
  lemma ConditionLog(st: State, cond: Expr)
    requires |st.tables| > 0
    ensures var i := Infer(st.tables, st.isStmt, cond);
            CheckCondition(st, cond).log[|st.log|..] ==
              i.diags + if !Compatible(i.ty, Bool) then [Diag(ConditionNotBool, cond.line)] else []
  {
    var i := Infer(st.tables, st.isStmt, cond);
    var tail := if !Compatible(i.ty, Bool) then [Diag(ConditionNotBool, cond.line)] else [];
    assert CheckCondition(st, cond).log == st.log + i.diags + tail;
    NewSuffix(st.log, i.diags, tail);
  }

  /** Counting the condition error after an expression's own diagnostics. */
  lemma ConditionCount(ds: seq<Diag>, t: Type, line: nat)
    requires AllExpressionKinds(ds)
    ensures CountKind(ds + if !Compatible(t, Bool) then [Diag(ConditionNotBool, line)] else [], ConditionNotBool) ==
              if t.Bool? || t.NoType? then 0 else 1
  {
    var tail := if !Compatible(t, Bool) then [Diag(ConditionNotBool, line)] else [];
    CountKindExpressionDiags(ds, ConditionNotBool);
    CountKindAppend(ds, tail, ConditionNotBool);
    if !(t.Bool? || t.NoType?) {
      DifferentHeadsIncompatible(t, Bool);
      assert CountKind(tail, ConditionNotBool) == 1;
    }
  }

  /** A condition (of a conditional or a loop) reports `ConditionNotBool`
      exactly once when its type is neither Bool nor NoType, and never
      otherwise; the condition's own diagnostics come first. */
  lemma ConditionRule(st: State, cond: Expr)
    requires |st.tables| > 0
    ensures var c := Eval(st, cond);
            CountKind(CheckCondition(st, cond).log[|st.log|..], ConditionNotBool) ==
              if c.ty.Bool? || c.ty.NoType? then 0 else 1
  {
    var i := Infer(st.tables, st.isStmt, cond);
    ConditionLog(st, cond);
    InferReportsExpressionKinds(st.tables, st.isStmt, cond);
    ConditionCount(i.diags, i.ty, cond.line);
  }

  /** A display statement reports `UnsupportedTypeForDisplay` exactly once
      when its argument is a struct or a function pointer, and never
      otherwise. */
  lemma DisplayRule(st: State, s: Stmt)
    requires |st.tables| > 0 && s.Display?
    ensures var v := Eval(st, s.arg);
            CountKind(ExecDisplay(st, s).log[|st.log|..], UnsupportedTypeForDisplay) ==
              if v.ty.Struct? || v.ty.Fptr? then 1 else 0
  {
    var i := Infer(st.tables, st.isStmt, s.arg);
    var t := if i.ty.Void? then NoType else i.ty;
    var tail := if !(t.Bool? || t.Int? || t.List? || t.NoType?) then [Diag(UnsupportedTypeForDisplay, s.line)] else [];
    assert ExecDisplay(st, s).log == st.log + i.diags + tail;
    NewSuffix(st.log, i.diags, tail);
    InferReportsExpressionKinds(st.tables, st.isStmt, s.arg);
    CountKindExpressionDiags(i.diags, UnsupportedTypeForDisplay);
    CountKindAppend(i.diags, tail, UnsupportedTypeForDisplay);
  }

  /** A Void value is never a display error: `value` demotes it to NoType. */
  lemma DisplayOfVoidIsSilent(st: State, s: Stmt)
    requires |st.tables| > 0 && s.Display? && Eval(st, s.arg).ty.Void?
    ensures Exec(st, s) == Eval(st, s.arg).st
  {
  }

  /** A return statement outside any function or getter reports only
      `CannotUseReturn`, and its value is not visited. */
  lemma MisplacedReturn(st: State, s: Stmt)
    requires |st.tables| > 0 && s.Return? && LookupVar(st.tables, ReturnName).None?
    ensures Exec(st, s).log == st.log + [Diag(CannotUseReturn, s.line)]
  {
  }

  /** `vs[i]` is the first declarator of its name. */
  predicate FirstOfName(vs: seq<VarDecl>, i: int)
    requires 0 <= i < |vs|
  {
    forall j :: 0 <= j < i ==> vs[j].name != vs[i].name
  }

  /** Declaring variables in order keeps the table's own entries. */
  lemma {:induction false} PutVarsKeeps(t: Table, vs: seq<VarDecl>)
    ensures forall k :: k in t ==> k in PutVars(t, vs) && PutVars(t, vs)[k] == t[k]
    decreases |vs|
  {
    if |vs| > 0 {
      PutVarsKeeps(t, vs[..|vs| - 1]);
    }
  }

  /** Every declared name is bound, and nothing but the declared names is
      added. */
  lemma {:induction false} PutVarsKeys(t: Table, vs: seq<VarDecl>)
    ensures forall i :: 0 <= i < |vs| ==> VarKey(vs[i].name) in PutVars(t, vs)
    ensures forall k :: k in PutVars(t, vs) && k !in t ==> exists i :: 0 <= i < |vs| && k == VarKey(vs[i].name)
    decreases |vs|
  {
    if |vs| > 0 {
      var init := vs[..|vs| - 1];
      PutVarsKeys(t, init);
      var r0, r := PutVars(t, init), PutVars(t, vs);
      forall i | 0 <= i < |vs| ensures VarKey(vs[i].name) in r {
        if i < |init| {
          assert init[i] == vs[i];
        }
      }
      forall k | k in r && k !in t
        ensures exists i :: 0 <= i < |vs| && k == VarKey(vs[i].name)
      {
        if k in r0 {
          var j :| 0 <= j < |init| && k == VarKey(init[j].name);
          assert init[j] == vs[j];
        } else {
          assert k == VarKey(vs[|vs| - 1].name);
        }
      }
    }
  }

  /** A name new to the table is bound to its first declaration. */
  lemma {:induction false} PutVarsFirst(t: Table, vs: seq<VarDecl>)
    ensures forall i :: 0 <= i < |vs| && VarKey(vs[i].name) !in t && FirstOfName(vs, i) ==>
              VarKey(vs[i].name) in PutVars(t, vs) && PutVars(t, vs)[VarKey(vs[i].name)] == VarItem(vs[i].name, vs[i].ty)
    decreases |vs|
  {
    PutVarsKeys(t, vs);
    if |vs| > 0 {
      var init, v := vs[..|vs| - 1], vs[|vs| - 1];
      PutVarsFirst(t, init);
      PutVarsKeys(t, init);
      var r0, r := PutVars(t, init), PutVars(t, vs);
      forall i | 0 <= i < |vs| && VarKey(vs[i].name) !in t && FirstOfName(vs, i)
        ensures r[VarKey(vs[i].name)] == VarItem(vs[i].name, vs[i].ty)
      {
        if i == |vs| - 1 {
          forall k | k in r0 && k !in t ensures k != VarKey(v.name) {
            var j :| 0 <= j < |init| && k == VarKey(init[j].name);
            assert init[j] == vs[j];
          }
        } else {
          assert init[i] == vs[i];
          assert FirstOfName(init, i) by {
            forall j | 0 <= j < i ensures init[j].name != init[i].name {
              assert init[j] == vs[j];
            }
          }
        }
      }
    }
  }

  /** A diagnostic list without any entry of kind `k` counts none. */
  lemma CountKindAbsent(ds: seq<Diag>, k: ErrorKind)
    requires forall i :: 0 <= i < |ds| ==> ds[i].kind != k
    ensures CountKind(ds, k) == 0
    decreases |ds|
  {
    if ds != [] {
      CountKindAbsent(ds[1..], k);
    }
  }

  /** The entries one declarator of a `var` statement adds: its type's
      undeclared structs on the statement's line; then, when it has an
      initial value, that value's diagnostics (visited with the variable
      already in the top table) and, when the value's type (Void taken as
      NoType) is not compatible with the declared type, the assignment error
      on the declarator's line. */
  lemma DeclareLocalLog(st: State, v: VarDecl, stmtLine: nat)
    requires |st.tables| > 0
    ensures DeclareLocal(st, v, stmtLine).log[|st.log|..] ==
              NotDeclared(UndeclaredStructs(st.tables[0], v.ty), stmtLine) +
              match v.default
              case None => []
              case Some(d) =>
                var i := Infer(PutTop(st.tables, VarItem(v.name, v.ty)), st.isStmt, d);
                var t := if i.ty.Void? then NoType else i.ty;
                i.diags + if Compatible(t, v.ty) then [] else [Diag(UnsupportedOperandType(BinaryName(Assign)), v.line)]
  {
    var nd := NotDeclared(UndeclaredStructs(st.tables[0], v.ty), stmtLine);
    var s1 := PutItem(CheckType(st, v.ty, stmtLine), VarItem(v.name, v.ty));
    assert s1.log == st.log + nd;
    match v.default
    case None =>
      assert DeclareLocal(st, v, stmtLine).log == st.log + nd;
    case Some(d) =>
      var i := Infer(s1.tables, st.isStmt, d);
      var t := if i.ty.Void? then NoType else i.ty;
      var tail := if Compatible(t, v.ty) then [] else [Diag(UnsupportedOperandType(BinaryName(Assign)), v.line)];
      assert DeclareLocal(st, v, stmtLine).log == st.log + nd + i.diags + tail;
      NewEntries(st.log, nd, i.diags, tail, []);
      assert nd + (i.diags + tail) + [] == nd + (i.diags + tail);
  }

  /** A declarator never reports `CannotUseDefineVar` itself. */
  lemma DeclareLocalNoDefineVar(st: State, v: VarDecl, stmtLine: nat)
    requires |st.tables| > 0
    ensures CountKind(DeclareLocal(st, v, stmtLine).log[|st.log|..], CannotUseDefineVar) == 0
  {
    DeclareLocalLog(st, v, stmtLine);
    var nd := NotDeclared(UndeclaredStructs(st.tables[0], v.ty), stmtLine);
    CountKindAbsent(nd, CannotUseDefineVar);
    match v.default
    case None =>
      assert nd + [] == nd;
    case Some(d) =>
      var i := Infer(PutTop(st.tables, VarItem(v.name, v.ty)), st.isStmt, d);
      var t := if i.ty.Void? then NoType else i.ty;
      var tail := if Compatible(t, v.ty) then [] else [Diag(UnsupportedOperandType(BinaryName(Assign)), v.line)];
      InferReportsExpressionKinds(PutTop(st.tables, VarItem(v.name, v.ty)), st.isStmt, d);
      CountKindExpressionDiags(i.diags, CannotUseDefineVar);
      CountKindAbsent(tail, CannotUseDefineVar);
      CountKindAppend(i.diags, tail, CannotUseDefineVar);
      CountKindAppend(nd, i.diags + tail, CannotUseDefineVar);
  }

  /** The entries added between three points of a growing log. */
  lemma SuffixSplit(a: seq<Diag>, b: seq<Diag>, c: seq<Diag>)
    requires a <= b <= c
    ensures c[|a|..] == b[|a|..] + c[|b|..]
  {
  }

  lemma {:induction false} DeclareLocalsNoDefineVar(st: State, vs: seq<VarDecl>, stmtLine: nat)
    requires |st.tables| > 0
    ensures CountKind(DeclareLocals(st, vs, stmtLine).log[|st.log|..], CannotUseDefineVar) == 0
    decreases |vs|
  {
    if |vs| == 0 {
      assert DeclareLocals(st, vs, stmtLine).log[|st.log|..] == [];
    } else {
      var m := DeclareLocals(st, vs[..|vs| - 1], stmtLine);
      DeclareLocalsNoDefineVar(st, vs[..|vs| - 1], stmtLine);
      DeclareLocalNoDefineVar(m, vs[|vs| - 1], stmtLine);
      var r := DeclareLocals(st, vs, stmtLine);
      SuffixSplit(st.log, m.log, r.log);
      CountKindAppend(m.log[|st.log|..], r.log[|m.log|..], CannotUseDefineVar);
    }
  }

  /** The `var` statement rule: `CannotUseDefineVar` is reported exactly
      once when declarations are permitted (inside a property) and never
      otherwise. */
  lemma VarDecDefineVarRule(st: State, s: Stmt)
    requires |st.tables| > 0 && s.VarDecStmt?
    ensures CountKind(ExecVarDec(st, s).log[|st.log|..], CannotUseDefineVar) == if st.declarationPermitted then 1 else 0
  {
    var s1 := if st.declarationPermitted then Report(st, CannotUseDefineVar, s.line) else st;
    DeclareLocalsNoDefineVar(s1, s.vars, s.line);
    var r := ExecVarDec(st, s);
    SuffixSplit(st.log, s1.log, r.log);
    CountKindAppend(s1.log[|st.log|..], r.log[|s1.log|..], CannotUseDefineVar);
    if st.declarationPermitted {
      assert s1.log[|st.log|..] == [Diag(CannotUseDefineVar, s.line)];
    } else {
      assert s1.log[|st.log|..] == [];
    }
  }

  /** A statement that declares a property somewhere inside it (not inside
      a nested function, which statements cannot hold). */
  predicate DeclaresProperty(s: Stmt)
    decreases s
  {
    match s
    case SetGet(_, _, _, _, _, _) => true
    case Block(stmts, _) => exists i :: 0 <= i < |stmts| && DeclaresProperty(stmts[i])
    case If(_, thenBody, elseBody, _) => DeclaresProperty(thenBody) || (elseBody.Some? && DeclaresProperty(elseBody.value))
    case Loop(_, body, _) => DeclaresProperty(body)
    case _ => false
  }

  /** Only a property writes `declarationPermitted`, and it leaves the flag
      cleared: after a statement the flag is set exactly when it was set
      before and the statement declares no property. */
  lemma {:induction false} FlagRule(st: State, s: Stmt)
    requires |st.tables| > 0
    ensures Exec(st, s).declarationPermitted == (st.declarationPermitted && !DeclaresProperty(s))
    decreases s, 2
  {
    match s
    case Block(stmts, _) => FlagRuleSeq(st, stmts);
    case If(_, _, _, _) => FlagRuleConditional(st, s);
    case Loop(_, _, _) => FlagRule(PushScope(CheckCondition(st, s.cond)), s.body);
    case SetGet(_, _, _, _, _, _) =>
    case CallStmt(_, _, _) =>
    case ListAppendStmt(_, _, _) =>
    case ListSizeStmt(_, _) =>
    case AssignStmt(_, _, _) =>
    case Display(_, _) =>
    case Return(_, _) =>
    case VarDecStmt(_, _) =>
  }

  lemma {:induction false} FlagRuleConditional(st: State, s: Stmt)
    requires |st.tables| > 0 && s.If?
    ensures ExecConditional(st, s).declarationPermitted == (st.declarationPermitted && !DeclaresProperty(s))
    decreases s, 1
  {
    var s1 := CheckCondition(st, s.cond);
    FlagRule(PushScope(s1), s.thenBody);
    if s.elseBody.Some? {
      var s2 := PopScope(Exec(PushScope(s1), s.thenBody));
      FlagRule(PushScope(s2), s.elseBody.value);
    }
  }

  lemma {:induction false} FlagRuleSeq(st: State, ss: seq<Stmt>)
    requires |st.tables| > 0
    ensures ExecSeq(st, ss).declarationPermitted ==
            (st.declarationPermitted && !exists i :: 0 <= i < |ss| && DeclaresProperty(ss[i]))
    decreases ss, 0
  {
    if |ss| > 0 {
      var init := ss[..|ss| - 1];
      FlagRuleSeq(st, init);
      FlagRule(ExecSeq(st, init), ss[|ss| - 1]);
      SomeDeclaresSplit(ss, init);
    }
  }

  lemma SomeDeclaresSplit(ss: seq<Stmt>, init: seq<Stmt>)
    requires |ss| > 0 && init == ss[..|ss| - 1]
    ensures (exists i :: 0 <= i < |ss| && DeclaresProperty(ss[i])) ==
            ((exists i :: 0 <= i < |init| && DeclaresProperty(init[i])) || DeclaresProperty(ss[|ss| - 1]))
  {
    if exists i :: 0 <= i < |ss| && DeclaresProperty(ss[i]) {
      var i :| 0 <= i < |ss| && DeclaresProperty(ss[i]);
      if i < |ss| - 1 {
        assert init[i] == ss[i];
      }
    }
    if exists i :: 0 <= i < |init| && DeclaresProperty(init[i]) {
      var i :| 0 <= i < |init| && DeclaresProperty(init[i]);
      assert ss[i] == init[i];
    }
  }

  /** A `var` statement visited while declarations are permitted reports
      `CannotUseDefineVar` as its first new entry. */
  lemma PermittedVarDec(st: State, s: Stmt)
    requires |st.tables| > 0 && s.VarDecStmt? && st.declarationPermitted
    ensures |Exec(st, s).log| > |st.log| && Exec(st, s).log[|st.log|] == Diag(CannotUseDefineVar, s.line)
  {
  }

  /** The setter body runs with declarations permitted: a setter that is a
      `var` statement reports `CannotUseDefineVar`. */
  lemma SetterVarDec(st: State, s: Stmt)
    requires |st.tables| > 0 && s.SetGet? && s.setter.VarDecStmt? && st.declarationPermitted
    ensures Diag(CannotUseDefineVar, s.setter.line) in SetterPart(st, s).log[|st.log|..]
  {
    var b := DeclareAll(PutItem(PushTable(st), VarItem(s.name, s.ty)), s.params);
    PermittedVarDec(b, s.setter);
    var r := SetterPart(st, s);
    assert r.log == Exec(b, s.setter).log;
    assert r.log[|st.log|..][|b.log| - |st.log|] == Diag(CannotUseDefineVar, s.setter.line);
  }

  /** The getter body runs with the flag as the setter left it: a getter
      that is a `var` statement reports `CannotUseDefineVar` when the flag is
      still set. */
  lemma GetterVarDec(st: State, s: Stmt)
    requires |st.tables| > 0 && s.SetGet? && s.getter.VarDecStmt? && st.declarationPermitted
    ensures Diag(CannotUseDefineVar, s.getter.line) in GetterPart(st, s).log[|st.log|..]
  {
    var b := PutReturn(PushTable(st), s.ty);
    PermittedVarDec(b, s.getter);
    var r := GetterPart(st, s);
    assert r.log == Exec(b, s.getter).log;
    assert r.log[|st.log|..][|b.log| - |st.log|] == Diag(CannotUseDefineVar, s.getter.line);
  }

  /** A property's setter is visited with declarations permitted, so a
      `var` statement as its setter body is reported. */
  lemma SetterDeclarationRule(st: State, s: Stmt)
    requires |st.tables| > 0 && s.SetGet? && s.setter.VarDecStmt?
    ensures Diag(CannotUseDefineVar, s.setter.line) in ExecSetGet(st, s).log[|st.log|..]
  {
    var s1 := CheckType(st.(declarationPermitted := true), s.ty, s.line);
    SetterVarDec(s1, s);
    var p := SetterPart(s1, s);
    var g := GetterPart(p, s);
    var r := ExecSetGet(st, s);
    assert r.log == g.log;
    SuffixSplit(st.log, s1.log, p.log);
    SuffixSplit(st.log, p.log, g.log);
  }

  /** So is its getter, unless the setter declared a nested property, which
      clears the flag before the getter runs. */
  lemma GetterDeclarationRule(st: State, s: Stmt)
    requires |st.tables| > 0 && s.SetGet? && s.getter.VarDecStmt? && !DeclaresProperty(s.setter)
    ensures Diag(CannotUseDefineVar, s.getter.line) in ExecSetGet(st, s).log[|st.log|..]
  {
    var s1 := CheckType(st.(declarationPermitted := true), s.ty, s.line);
    var b := DeclareAll(PutItem(PushTable(s1), VarItem(s.name, s.ty)), s.params);
    FlagRule(b, s.setter);
    var p := SetterPart(s1, s);
    assert p.declarationPermitted;
    GetterVarDec(p, s);
    var g := GetterPart(p, s);
    var r := ExecSetGet(st, s);
    assert r.log == g.log;
    SuffixSplit(st.log, p.log, g.log);
  }

  /** The stack of the void-assignment example: a root table declaring
      `g(): void`, and a function scope declaring `x: int`. */
  function VoidAssignTables(): seq<Table> {
    [map[FuncKey("g") := FuncItem("g", [], Void)], map[VarKey("x") := VarItem("x", Int)]]
  }

  /** In that stack `x` is an Int variable ... */
  lemma VoidAssignLvalue()
    ensures Infer(VoidAssignTables(), false, Ident("x", 1)) == Inferred(Int, [], false)
  {
    assert Lookup(VoidAssignTables(), VarKey("x")) == Some(VarItem("x", Int));
  }

  /** ... and `g()` is a value use of a Void call. */
  lemma VoidAssignCall()
    ensures Infer(VoidAssignTables(), false, Call(Ident("g", 1), [], 1)) ==
            Inferred(Void, [Diag(CantUseValueOfVoidFunction, 1)], false)
  {
    var env := VoidAssignTables();
    assert Lookup(env, VarKey("g")) == None;
    assert Lookup(env, FuncKey("g")) == Some(FuncItem("g", [], Void));
    assert Infer(env, false, Ident("g", 1)) == Inferred(Fptr([], Void), [], false);
    assert InferArgs(env, false, []) == InferredArgs([], [], false);
    assert CallErrs([], Void, [], false) == [CantUseValueOfVoidFunction];
  }

  /** `x = g()` with a Void `g`: the call is a value use, and the assignment
      statement compares Int with the undemoted Void, so both the void-use
      error and the assignment error are reported. */
  lemma VoidAssignmentReportsBoth()
    ensures var st := State(VoidAssignTables(), Scope(false), [], false, false, []);
            ExecAssignment(st, AssignStmt(Ident("x", 1), Call(Ident("g", 1), [], 1), 1)).log ==
              [Diag(CantUseValueOfVoidFunction, 1), Diag(UnsupportedOperandType(BinaryName(Assign)), 1)]
  {
    var st := State(VoidAssignTables(), Scope(false), [], false, false, []);
    var s := AssignStmt(Ident("x", 1), Call(Ident("g", 1), [], 1), 1);
    VoidAssignLvalue();
    VoidAssignCall();
    DifferentHeadsIncompatible(Int, Void);
    AssignmentLog(st, s);
    assert ExecAssignment(st, s).log[|st.log|..] == ExecAssignment(st, s).log;
  }
}
