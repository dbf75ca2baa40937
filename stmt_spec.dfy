/** What the statement and declaration checker computes, as functions over
    the checker's whole state.

    `State` gathers everything the visit reads and writes: the stack of
    symbol tables (first element the root), the current `Scope` and the
    stack of saved scopes, the `declarationPermitted` flag, the expression
    checker's `is_stmt` flag and the diagnostic log. `Exec(st, s)` is the
    state after visiting statement `s` from `st`. */
module StmtSpec {
  import opened Wrappers
  import opened Types
  import opened Symbols
  import opened Ast
  import opened ExprSpec

  /** `Scope`: whether a return statement has been seen in it. */
  datatype Scope = Scope(returnExists: bool)

  datatype State = State(
    tables: seq<Table>,
    top: Scope,
    scopes: seq<Scope>,
    declarationPermitted: bool,
    isStmt: bool,
    log: seq<Diag>)

  /** A type computed by an expression visit, and the state after it. */
  datatype Typed = Typed(ty: Type, st: State)

  /** The pseudo-variable through which return statements find the
      enclosing function's (or getter's) return type. */
  const ReturnName: string := "RETURN"

  function Report(st: State, kind: ErrorKind, line: nat): State {
    st.(log := st.log + [Diag(kind, line)])
  }

  function TopTable(st: State): Table
    requires |st.tables| > 0
  {
    st.tables[|st.tables| - 1]
  }

  function PutItem(st: State, it: Item): State
    requires |st.tables| > 0
  {
    st.(tables := PutTop(st.tables, it))
  }

  /** `SymbolTable.push` of a fresh table. */
  function PushTable(st: State): State {
    st.(tables := st.tables + [map[]])
  }

  /** `SymbolTable.pop`. */
  function PopTable(st: State): State
    requires |st.tables| > 0
  {
    st.(tables := st.tables[..|st.tables| - 1])
  }

  /** `pushScope`: a fresh table and a fresh scope; the enclosing scope is
      saved. */
  function PushScope(st: State): (r: State)
    ensures r.top == Scope(false) && r.scopes == st.scopes + [st.top]
    ensures r.tables == st.tables + [map[]]
  {
    st.(tables := st.tables + [map[]], top := Scope(false), scopes := st.scopes + [st.top])
  }

  /** `popScope`: the table is dropped and the enclosing scope becomes the
      current one again. */
  function PopScope(st: State): (r: State)
    requires |st.tables| > 0 && |st.scopes| > 0
    ensures r.top == st.scopes[|st.scopes| - 1] && r.scopes == st.scopes[..|st.scopes| - 1]
    ensures r.tables == st.tables[..|st.tables| - 1]
  {
    st.(tables := st.tables[..|st.tables| - 1],
        top := st.scopes[|st.scopes| - 1],
        scopes := st.scopes[..|st.scopes| - 1])
  }

  /** An expression visit by the expression checker on the current stack. */
  function Eval(st: State, e: Expr): (r: Typed)
    requires |st.tables| > 0
    ensures r.st == st.(isStmt := r.st.isStmt, log := r.st.log)
  {
    var i := Infer(st.tables, st.isStmt, e);
    Typed(i.ty, st.(isStmt := i.isStmt, log := st.log + i.diags))
  }

  /** `value`: an expression visit whose Void result is demoted to NoType. */
  function ValueOf(st: State, e: Expr): (r: Typed)
    requires |st.tables| > 0
    ensures r.st == Eval(st, e).st
    ensures !r.ty.Void?
    ensures r.ty == (if Eval(st, e).ty.Void? then NoType else Eval(st, e).ty)
  {
    var v := Eval(st, e);
    if v.ty.Void? then Typed(NoType, v.st) else v
  }

  /** `recursiveTypeCheck`: the struct names occurring in `t` (in the order
      the source walks them: function-pointer arguments, then the return
      type; list elements) that the root table does not declare. */
  function UndeclaredStructs(root: Table, t: Type): seq<string>
    decreases t, 1
  {
    match t
    case Struct(n) => if StructKey(n) in root then [] else [n]
    case Fptr(args, ret) => UndeclaredIn(root, args) + UndeclaredStructs(root, ret)
    case List(e) => UndeclaredStructs(root, e)
    case _ => []
  }

  function UndeclaredIn(root: Table, ts: seq<Type>): seq<string>
    decreases ts, 0
  {
    if |ts| == 0 then []
    else UndeclaredIn(root, ts[..|ts| - 1]) + UndeclaredStructs(root, ts[|ts| - 1])
  }

  /** One `StructNotDeclared` per name, all on the declaring node's line. */
  function NotDeclared(names: seq<string>, line: nat): (ds: seq<Diag>)
    ensures |ds| == |names|
    ensures forall i :: 0 <= i < |names| ==> ds[i] == Diag(StructNotDeclared(names[i]), line)
  {
    seq(|names|, i requires 0 <= i < |names| => Diag(StructNotDeclared(names[i]), line))
  }

  function CheckType(st: State, t: Type, line: nat): State
    requires |st.tables| > 0
  {
    st.(log := st.log + NotDeclared(UndeclaredStructs(st.tables[0], t), line))
  }

  /** The visit of a `VariableDeclaration` (a parameter): its type is checked
      and the variable is put into the top table. */
  function Declare(st: State, d: VarDecl): State
    requires |st.tables| > 0
  {
    PutItem(CheckType(st, d.ty, d.line), VarItem(d.name, d.ty))
  }

  /** The top table after declaring `vs` in order as variables; a name
      declared twice keeps its first declaration. */
  function PutVars(t: Table, vs: seq<VarDecl>): Table
    decreases |vs|
  {
    if |vs| == 0 then t
    else Put(PutVars(t, vs[..|vs| - 1]), VarItem(vs[|vs| - 1].name, vs[|vs| - 1].ty))
  }

  /** The parameters, each visited as a `VariableDeclaration` in order. */
  function DeclareAll(st: State, ds: seq<VarDecl>): (r: State)
    requires |st.tables| > 0
    ensures |r.tables| == |st.tables| && r.tables[..|st.tables| - 1] == st.tables[..|st.tables| - 1]
    ensures TopTable(r) == PutVars(TopTable(st), ds)
    ensures r.top == st.top && r.scopes == st.scopes
    ensures r.declarationPermitted == st.declarationPermitted && r.isStmt == st.isStmt
    ensures st.log <= r.log
    decreases |ds|
  {
    if |ds| == 0 then st
    else Declare(DeclareAll(st, ds[..|ds| - 1]), ds[|ds| - 1])
  }

  /** Puts the `RETURN` pseudo-variable with the declared type into the top
      table; return statements below it find that type. */
  function PutReturn(st: State, ty: Type): (r: State)
    requires |st.tables| > 0
    ensures VarKey(ReturnName) !in TopTable(st) ==> LookupVar(r.tables, ReturnName) == Some(ty)
  {
    LookupAfterPut(st.tables, VarItem(ReturnName, ty));
    PutItem(st, VarItem(ReturnName, ty))
  }

  /** The parameter types of a setter, in order. */
  function ParamTypes(ps: seq<VarDecl>): (ts: seq<Type>)
    ensures |ts| == |ps| && forall i :: 0 <= i < |ps| ==> ts[i] == ps[i].ty
  {
    seq(|ps|, i requires 0 <= i < |ps| => ps[i].ty)
  }

  /** The expressions the assignment statement accepts on its left. */
  predicate IsLvalue(e: Expr) {
    e.Ident? || e.StructAccess? || e.ListAccess?
  }

  /** A statement visit. */
  function Exec(st: State, s: Stmt): (r: State)
    requires |st.tables| > 0
    ensures |r.tables| == |st.tables| && r.tables[..|st.tables| - 1] == st.tables[..|st.tables| - 1]
    ensures r.scopes == st.scopes
    ensures st.log <= r.log
    decreases s, 2
  {
    match s
    case AssignStmt(_, _, _) => ExecAssignment(st, s)
    case Block(stmts, _) => ExecSeq(st, stmts)
    case If(_, _, _, _) => ExecConditional(st, s)
    case Loop(_, _, _) => ExecLoop(st, s)
    case CallStmt(instance, args, line) => Eval(st.(isStmt := true), Call(instance, args, line)).st
    case Display(_, _) => ExecDisplay(st, s)
    case Return(_, _) => ExecReturn(st, s)
    case VarDecStmt(vars, line) => ExecVarDec(st, s)
    case ListAppendStmt(list, element, line) => Eval(st, ListAppend(list, element, line)).st
    case ListSizeStmt(arg, line) => Eval(st, ListSize(arg, line)).st
    case SetGet(_, _, _, _, _, _) => ExecSetGet(st, s)
  }

  /** A block: its statements in order. */
  function ExecSeq(st: State, ss: seq<Stmt>): (r: State)
    requires |st.tables| > 0
    ensures |r.tables| == |st.tables| && r.tables[..|st.tables| - 1] == st.tables[..|st.tables| - 1]
    ensures r.scopes == st.scopes
    ensures st.log <= r.log
    decreases ss, 0
  {
    if |ss| == 0 then st
    else
      var mid := ExecSeq(st, ss[..|ss| - 1]);
      Exec(mid, ss[|ss| - 1])
  }

  /** An assignment statement: the l-value rule, both sides visited, and
      the fully recursive compatibility test. */
  function ExecAssignment(st: State, s: Stmt): (r: State)
    requires |st.tables| > 0 && s.AssignStmt?
    ensures r.tables == st.tables && r.top == st.top && r.scopes == st.scopes
    ensures r.declarationPermitted == st.declarationPermitted
    ensures st.log <= r.log
    decreases s, 1
  {
    var s1 := if IsLvalue(s.lvalue) then st else Report(st, LeftSideNotLvalue, s.lvalue.line);
    var l := Eval(s1, s.lvalue);
    var rv := Eval(l.st, s.rvalue);
    if !Compatible(l.ty, rv.ty) then Report(rv.st, UnsupportedOperandType(BinaryName(Assign)), s.line)
    else rv.st
  }

  /** A condition that is not compatible with Bool is reported at the
      condition's own line. */
  function CheckCondition(st: State, cond: Expr): (r: State)
    requires |st.tables| > 0
    ensures r.tables == st.tables && r.top == st.top && r.scopes == st.scopes
    ensures r.declarationPermitted == st.declarationPermitted
    ensures st.log <= r.log
  {
    var c := Eval(st, cond);
    if !Compatible(c.ty, Bool) then Report(c.st, ConditionNotBool, cond.line) else c.st
  }

  /** A conditional: each branch runs in a scope of its own; the enclosing
      scope gains a return only when there is an else branch and both
      branches return. */
  function ExecConditional(st: State, s: Stmt): (r: State)
    requires |st.tables| > 0 && s.If?
    ensures r.tables == st.tables && r.scopes == st.scopes
    ensures s.elseBody.None? ==> r.top == st.top
    ensures st.top.returnExists ==> r.top.returnExists
    ensures st.log <= r.log
    decreases s, 1
  {
    var s1 := CheckCondition(st, s.cond);
    var t := Exec(PushScope(s1), s.thenBody);
    var s2 := PopScope(t);
    assert s2.tables == st.tables;
    var e := if s.elseBody.Some? then Exec(PushScope(s2), s.elseBody.value) else s2;
    var returnExists := if s.elseBody.Some? then e.top.returnExists && t.top.returnExists else t.top.returnExists;
    var s3 := if s.elseBody.Some? then PopScope(e) else s2;
    s3.(top := Scope((returnExists && s.elseBody.Some?) || s3.top.returnExists))
  }

  /** A loop: the body runs in a scope of its own, so a return inside it
      never counts for the enclosing scope. */
  function ExecLoop(st: State, s: Stmt): (r: State)
    requires |st.tables| > 0 && s.Loop?
    ensures r.tables == st.tables && r.top == st.top && r.scopes == st.scopes
    ensures st.log <= r.log
    decreases s, 1
  {
    var s1 := CheckCondition(st, s.cond);
    var b := Exec(PushScope(s1), s.body);
    PopScope(b)
  }

  /** `display`: only Bool, Int, List and NoType values can be displayed; a
      Void value counts as NoType. */
  function ExecDisplay(st: State, s: Stmt): (r: State)
    requires |st.tables| > 0 && s.Display?
    ensures r.tables == st.tables && r.top == st.top && r.scopes == st.scopes
    ensures r.declarationPermitted == st.declarationPermitted
    ensures st.log <= r.log
  {
    var v := ValueOf(st, s.arg);
    if !(v.ty.Bool? || v.ty.Int? || v.ty.List? || v.ty.NoType?) then Report(v.st, UnsupportedTypeForDisplay, s.line)
    else v.st
  }

  /** A return statement: the current scope has a return from now on; the
      returned value (Void when absent) must be compatible with the type of
      `RETURN`, and without `RETURN` in scope the statement is misplaced. */
  function ExecReturn(st: State, s: Stmt): (r: State)
    requires |st.tables| > 0 && s.Return?
    ensures r.top == Scope(true) && r.tables == st.tables && r.scopes == st.scopes
    ensures LookupVar(st.tables, ReturnName).None? ==> r.log == st.log + [Diag(CannotUseReturn, s.line)]
    ensures LookupVar(st.tables, ReturnName).Some? && !LookupVar(st.tables, ReturnName).value.Void? && s.value.None? ==>
              r.log == st.log + [Diag(ReturnValueNotMatchFunctionReturnType, s.line)]
    ensures LookupVar(st.tables, ReturnName) == Some(Void) && s.value.None? ==> r.log == st.log
    ensures LookupVar(st.tables, ReturnName).Some? && s.value.Some? ==>
              var v := Eval(st, s.value.value);
              r.log == v.st.log + (if Compatible(v.ty, LookupVar(st.tables, ReturnName).value) then []
                                   else [Diag(ReturnValueNotMatchFunctionReturnType, s.line)])
    ensures st.log <= r.log
    decreases s, 1
  {
    var s1 := st.(top := Scope(true));
    match LookupVar(s1.tables, ReturnName)
    case None => Report(s1, CannotUseReturn, s.line)
    case Some(declared) =>
      if !declared.Void? && s.value.None? then Report(s1, ReturnValueNotMatchFunctionReturnType, s.line)
      else
        var v := if s.value.None? then Typed(Void, s1) else Eval(s1, s.value.value);
        if !Compatible(v.ty, declared) then Report(v.st, ReturnValueNotMatchFunctionReturnType, s.line)
        else v.st
  }

  /** One declarator of a `var` statement: its type is checked (errors on
      the statement's line), it is declared, and then its initial value is
      checked against its type (errors on the declarator's line). */
  function DeclareLocal(st: State, v: VarDecl, stmtLine: nat): (r: State)
    requires |st.tables| > 0
    ensures |r.tables| == |st.tables| && r.tables[..|st.tables| - 1] == st.tables[..|st.tables| - 1]
    ensures TopTable(r) == Put(TopTable(st), VarItem(v.name, v.ty))
    ensures r.top == st.top && r.scopes == st.scopes && r.declarationPermitted == st.declarationPermitted
    ensures st.log <= r.log
  {
    var s1 := PutItem(CheckType(st, v.ty, stmtLine), VarItem(v.name, v.ty));
    match v.default
    case None => s1
    case Some(d) =>
      var val := ValueOf(s1, d);
      if !Compatible(val.ty, v.ty) then Report(val.st, UnsupportedOperandType(BinaryName(Assign)), v.line)
      else val.st
  }

  function DeclareLocals(st: State, vs: seq<VarDecl>, stmtLine: nat): (r: State)
    requires |st.tables| > 0
    ensures |r.tables| == |st.tables| && r.tables[..|st.tables| - 1] == st.tables[..|st.tables| - 1]
    ensures TopTable(r) == PutVars(TopTable(st), vs)
    ensures r.top == st.top && r.scopes == st.scopes && r.declarationPermitted == st.declarationPermitted
    ensures st.log <= r.log
    decreases |vs|
  {
    if |vs| == 0 then st
    else DeclareLocal(DeclareLocals(st, vs[..|vs| - 1], stmtLine), vs[|vs| - 1], stmtLine)
  }

  /** A `var` statement: forbidden while `declarationPermitted` is set. */
  function ExecVarDec(st: State, s: Stmt): (r: State)
    requires |st.tables| > 0 && s.VarDecStmt?
    ensures |r.tables| == |st.tables| && r.tables[..|st.tables| - 1] == st.tables[..|st.tables| - 1]
    ensures TopTable(r) == PutVars(TopTable(st), s.vars)
    ensures r.top == st.top && r.scopes == st.scopes && r.declarationPermitted == st.declarationPermitted
    ensures st.declarationPermitted ==> |r.log| > |st.log| && r.log[|st.log|] == Diag(CannotUseDefineVar, s.line)
    ensures st.log <= r.log
    decreases s, 1
  {
    var s1 := if st.declarationPermitted then Report(st, CannotUseDefineVar, s.line) else st;
    DeclareLocals(s1, s.vars, s.line)
  }

  /** The setter half of a property: a table holding the property and its
      parameters, then the setter body. */
  function SetterPart(st: State, s: Stmt): (r: State)
    requires |st.tables| > 0 && s.SetGet?
    ensures r.tables == st.tables && r.scopes == st.scopes
    ensures st.log <= r.log
    decreases s, 0
  {
    var s1 := PutItem(PushTable(st), VarItem(s.name, s.ty));
    var s2 := DeclareAll(s1, s.params);
    var s3 := Exec(s2, s.setter);
    assert s3.tables[..|st.tables|] == s1.tables[..|st.tables|];
    PopTable(s3)
  }

  /** The getter half: a table holding `RETURN` with the property type, then
      the getter body. */
  function GetterPart(st: State, s: Stmt): (r: State)
    requires |st.tables| > 0 && s.SetGet?
    ensures r.tables == st.tables && r.scopes == st.scopes
    ensures st.log <= r.log
    decreases s, 0
  {
    var s1 := PutReturn(PushTable(st), s.ty);
    var s2 := Exec(s1, s.getter);
    assert s2.tables[..|st.tables|] == s1.tables[..|st.tables|];
    PopTable(s2)
  }

  /** A property with a setter and a getter: declarations are permitted only
      while it is visited, and afterwards the property is put into the
      enclosing table as a function pointer from the parameter types to the
      property type. */
  function ExecSetGet(st: State, s: Stmt): (r: State)
    requires |st.tables| > 0 && s.SetGet?
    ensures !r.declarationPermitted
    ensures |r.tables| == |st.tables| && r.tables[..|st.tables| - 1] == st.tables[..|st.tables| - 1]
    ensures r.scopes == st.scopes
    ensures TopTable(r) == Put(TopTable(st), VarItem(s.name, Fptr(ParamTypes(s.params), s.ty)))
    ensures st.log <= r.log
    decreases s, 1
  {
    var s1 := CheckType(st.(declarationPermitted := true), s.ty, s.line);
    var s2 := GetterPart(SetterPart(s1, s), s);
    assert s2.tables == st.tables && st.log <= s2.log;
    var s3 := PutItem(s2, VarItem(s.name, Fptr(ParamTypes(s.params), s.ty)));
    assert s3.log == s2.log;
    s3.(declarationPermitted := false)
  }

  /** A function declaration up to and including its body: a scope of its
      own, its return type checked and stored as `RETURN`, its parameters
      declared. */
  function FunctionBody(st: State, f: FunctionDecl): (r: State)
    requires |st.tables| == 1
    ensures |r.tables| == 2 && r.tables[0] == st.tables[0]
    ensures r.scopes == st.scopes + [st.top]
  {
    var s1 := PushScope(st);
    var s2 := PutReturn(CheckType(s1, f.returnType, f.line), f.returnType);
    var s3 := DeclareAll(s2, f.args);
    var s4 := Exec(s3, f.body);
    assert s4.tables[..1] == s1.tables[..1];
    s4
  }

  /** A function declaration: a function whose body's scope has no return
      and whose return type is not Void gets `MissingReturnStatement`. The
      scope and the table it pushed are both gone afterwards. */
  function ExecFunction(st: State, f: FunctionDecl): (r: State)
    requires |st.tables| == 1
    ensures r.tables == st.tables && r.top == st.top && r.scopes == st.scopes
  {
    var b := FunctionBody(st, f);
    var s1 := if !(b.top.returnExists || f.returnType.Void?) then Report(b, MissingReturnStatement(f.name), f.line) else b;
    PopScope(s1)
  }

  /** `main`: its body in a table of its own. */
  function ExecMain(st: State, body: Stmt): (r: State)
    requires |st.tables| == 1
    ensures r.tables == st.tables && r.scopes == st.scopes
  {
    var b := Exec(PushTable(st), body);
    assert b.tables[..1] == st.tables;
    PopTable(b)
  }

  /** A struct declaration: its body fills a table of its own, which then
      becomes the member table of the struct's item in the root table. */
  function ExecStruct(st: State, sd: StructDecl): (r: State)
    requires |st.tables| == 1
    ensures |r.tables| == 1 && r.scopes == st.scopes
    ensures r.tables[0].Keys == st.tables[0].Keys
    ensures forall k :: k in st.tables[0] && k != StructKey(sd.name) ==> r.tables[0][k] == st.tables[0][k]
    ensures StructKey(sd.name) in st.tables[0] && st.tables[0][StructKey(sd.name)].StructItem? ==>
              var b := Exec(PushTable(st), sd.body);
              r.tables[0][StructKey(sd.name)] == st.tables[0][StructKey(sd.name)].(members := b.tables[1])
  {
    var b := Exec(PushTable(st), sd.body);
    assert b.tables[..1] == st.tables;
    var root, key := b.tables[0], StructKey(sd.name);
    var s1 := if key in root && root[key].StructItem? then b.(tables := b.tables[0 := root[key := root[key].(members := b.tables[1])]]) else b;
    PopTable(s1)
  }

  function ExecStructs(st: State, sds: seq<StructDecl>): (r: State)
    requires |st.tables| == 1
    ensures |r.tables| == 1 && r.scopes == st.scopes
    ensures r.tables[0].Keys == st.tables[0].Keys
    decreases |sds|
  {
    if |sds| == 0 then st else ExecStruct(ExecStructs(st, sds[..|sds| - 1]), sds[|sds| - 1])
  }

  function ExecFunctions(st: State, fs: seq<FunctionDecl>): (r: State)
    requires |st.tables| == 1
    ensures r.tables == st.tables && r.top == st.top && r.scopes == st.scopes
    decreases |fs|
  {
    if |fs| == 0 then st else ExecFunction(ExecFunctions(st, fs[..|fs| - 1]), fs[|fs| - 1])
  }

  /** The whole program: structs, then functions, then main, starting from
      a stack that holds only the root table. */
  function ExecProgram(st: State, p: Program): (r: State)
    requires |st.tables| == 1
    ensures |r.tables| == 1 && r.scopes == st.scopes
  {
    ExecMain(ExecFunctions(ExecStructs(st, p.structs), p.functions), p.main)
  }
}
