/** The abstract syntax the checker walks and the diagnostics it attaches.

    Every expression and statement carries its source line. A statement that
    only wraps one expression node (a call, append or size statement) keeps
    the parts of that node and the node's own line, since the wrapper adds no
    diagnostic of its own. */
module Ast {
  import opened Wrappers
  import opened Types

  datatype BinOp = And | Or | Assign | Eq | Lt | Gt | Add | Sub | Mult | Div

  datatype UnOp = Not | Minus

  /** The operator named in an `UnsupportedOperandType` diagnostic. */
  datatype OperatorName = BinaryName(bop: BinOp) | UnaryName(uop: UnOp)

  datatype Expr =
    | BinaryExpr(op: BinOp, left: Expr, right: Expr, line: nat)
    | UnaryExpr(uop: UnOp, operand: Expr, line: nat)
    | Call(instance: Expr, args: seq<Expr>, line: nat)
    | Ident(name: string, line: nat)
    | ListAccess(list: Expr, index: Expr, line: nat)
    | StructAccess(instance: Expr, member: string, line: nat)
    | ListSize(arg: Expr, line: nat)
    | ListAppend(list: Expr, element: Expr, line: nat)
    | Par(inner: Expr, line: nat)
    | IntValue(ival: int, line: nat)
    | BoolValue(bval: bool, line: nat)

  /** A declarator: a parameter, a field, or one variable of a `var` statement. */
  datatype VarDecl = VarDecl(name: string, ty: Type, default: Option<Expr>, line: nat)

  datatype Stmt =
    | AssignStmt(lvalue: Expr, rvalue: Expr, line: nat)
    | Block(stmts: seq<Stmt>, line: nat)
    | If(cond: Expr, thenBody: Stmt, elseBody: Option<Stmt>, line: nat)
    | Loop(cond: Expr, body: Stmt, line: nat)
    | CallStmt(instance: Expr, args: seq<Expr>, line: nat)
    | Display(arg: Expr, line: nat)
    | Return(value: Option<Expr>, line: nat)
    | VarDecStmt(vars: seq<VarDecl>, line: nat)
    | ListAppendStmt(list: Expr, element: Expr, line: nat)
    | ListSizeStmt(arg: Expr, line: nat)
      /** A struct property with a setter and a getter body. */
    | SetGet(name: string, ty: Type, params: seq<VarDecl>, setter: Stmt, getter: Stmt, line: nat)

  datatype FunctionDecl = FunctionDecl(name: string, args: seq<VarDecl>, returnType: Type, body: Stmt, line: nat)

  datatype StructDecl = StructDecl(name: string, body: Stmt, line: nat)

  datatype Program = Program(structs: seq<StructDecl>, functions: seq<FunctionDecl>, main: Stmt)

  datatype ErrorKind =
    | CantUseValueOfVoidFunction
    | UnsupportedOperandType(op: OperatorName)
    | CallOnNoneFptrType
    | ArgsInFunctionCallNotMatchDefinition
    | VarNotDeclared(varName: string)
    | ListIndexNotInt
    | AccessByIndexOnNonList
    | AccessOnNonStruct
    | StructMemberNotFound(structName: string, memberName: string)
    | GetSizeOfNonList
    | AppendToNonList
    | NewElementTypeNotMatchListType
    | MissingReturnStatement(functionName: string)
    | ConditionNotBool
    | UnsupportedTypeForDisplay
    | ReturnValueNotMatchFunctionReturnType
    | LeftSideNotLvalue
    | CannotUseReturn
    | CannotUseDefineVar
    | StructNotDeclared(undeclared: string)

  datatype Diag = Diag(kind: ErrorKind, line: nat)

  /** The kinds the expression checker reports; the rest are statement- and
      declaration-level. */
  predicate ExpressionKind(k: ErrorKind) {
    || k.CantUseValueOfVoidFunction?
    || k.UnsupportedOperandType?
    || k.CallOnNoneFptrType? || k.ArgsInFunctionCallNotMatchDefinition?
    || k.VarNotDeclared? || k.ListIndexNotInt? || k.AccessByIndexOnNonList?
    || k.AccessOnNonStruct? || k.StructMemberNotFound? || k.GetSizeOfNonList?
    || k.AppendToNonList? || k.NewElementTypeNotMatchListType?
  }

  /** Attaches a list of error kinds to one line, in order. */
  function AtLine(ks: seq<ErrorKind>, line: nat): (ds: seq<Diag>)
    ensures |ds| == |ks|
    ensures forall i :: 0 <= i < |ks| ==> ds[i] == Diag(ks[i], line)
  {
    seq(|ks|, i requires 0 <= i < |ks| => Diag(ks[i], line))
  }

  /** The number of diagnostics of one kind. */
  function CountKind(ds: seq<Diag>, k: ErrorKind): nat {
    if ds == [] then 0 else (if ds[0].kind == k then 1 else 0) + CountKind(ds[1..], k)
  }

  lemma {:induction false} CountKindAppend(a: seq<Diag>, b: seq<Diag>, k: ErrorKind)
    ensures CountKind(a + b, k) == CountKind(a, k) + CountKind(b, k)
  {
    if a == [] {
      assert a + b == b;
    } else {
      assert (a + b)[0] == a[0] && (a + b)[1..] == a[1..] + b;
      CountKindAppend(a[1..], b, k);
    }
  }
}
