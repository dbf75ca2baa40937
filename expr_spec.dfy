/** What the expression checker computes, as functions.

    `Infer(env, isStmt, e)` is the type the visit of `e` returns, every
    diagnostic it attaches (those of its subexpressions first, in evaluation
    order, then the node's own) and the value of the `is_stmt` flag after it.
    The per-form `...Outcome` functions give one node's type and the kinds of
    error the node itself reports, given the types of its operands. */
module ExprSpec {
  import opened Wrappers
  import opened Types
  import opened Symbols
  import opened Ast

  datatype Inferred = Inferred(ty: Type, diags: seq<Diag>, isStmt: bool)

  datatype InferredArgs = InferredArgs(tys: seq<Type>, diags: seq<Diag>, isStmt: bool)

  /** One node's verdict: its type and the error kinds it reports itself. */
  datatype Outcome = Outcome(ty: Type, errs: seq<ErrorKind>)

  /** One `CantUseValueOfVoidFunction` per Void operand. */
  function VoidUses(l: Type, r: Type): seq<ErrorKind> {
    (if l.Void? then [CantUseValueOfVoidFunction] else []) +
    (if r.Void? then [CantUseValueOfVoidFunction] else [])
  }

  /** `and` / `or`. */
  function LogicalOutcome(op: BinOp, l: Type, r: Type): (o: Outcome)
    ensures o.ty.Bool? <==> l.Bool? && r.Bool?
    ensures !o.ty.Bool? ==> o.ty.NoType?
    ensures o.errs == [] || o.errs == [UnsupportedOperandType(BinaryName(op))]
    ensures o.errs == [] <==> (l.Bool? || l.NoType?) && (r.Bool? || r.NoType?)
  {
    if l.Bool? && r.Bool? then Outcome(Bool, [])
    else if !(l.NoType? && r.Bool?) && !(l.Bool? && r.NoType?) && !(l.NoType? && r.NoType?) then
      Outcome(NoType, [UnsupportedOperandType(BinaryName(op))])
    else Outcome(NoType, [])
  }

  /** The operand pairs an assignment expression accepts: equal primitive or
      struct heads (struct names are not compared), function pointers under
      `compareFunctionPointer`, lists under `compareListType`. */
  predicate AssignAccepts(l: Type, r: Type) {
    || (l.Int? && r.Int?)
    || (l.Bool? && r.Bool?)
    || (l.Struct? && r.Struct?)
    || (l.Fptr? && r.Fptr? && FptrAssignable(l, r))
    || (l.List? && r.List? && ListElemsMatch(l.elem, r.elem))
  }

  /** `=` used as an expression: yields the right operand's type. */
  function AssignOutcome(l: Type, r: Type): (o: Outcome)
    ensures AssignAccepts(l, r) ==> o == Outcome(r, [])
    ensures !AssignAccepts(l, r) ==> o.ty.NoType?
    ensures o.errs == [] || o.errs == [UnsupportedOperandType(BinaryName(Assign))]
    ensures o.errs != [] <==> !AssignAccepts(l, r) && !l.NoType? && !r.NoType?
  {
    if AssignAccepts(l, r) then Outcome(r, [])
    else if !l.NoType? && !r.NoType? then Outcome(NoType, [UnsupportedOperandType(BinaryName(Assign))])
    else Outcome(NoType, [])
  }

  /** `==`: a list on either side is always an error; two function pointers
      compare regardless of their signatures. */
  function EqualityOutcome(l: Type, r: Type): (o: Outcome)
    ensures (l.List? || r.List?) ==> o == Outcome(NoType, [UnsupportedOperandType(BinaryName(Eq))])
    ensures l.Fptr? && r.Fptr? ==> o == Outcome(Bool, [])
    ensures o.ty.Bool? <==> !l.List? && !r.List? && SameHead(l, r) && (l.Int? || l.Bool? || l.Struct? || l.Fptr?)
    ensures !o.ty.Bool? ==> o.ty.NoType?
    ensures o.errs == [] || o.errs == [UnsupportedOperandType(BinaryName(Eq))]
    ensures o.errs != [] <==> l.List? || r.List? || (!o.ty.Bool? && !l.NoType? && !r.NoType?)
  {
    if l.List? || r.List? then Outcome(NoType, [UnsupportedOperandType(BinaryName(Eq))])
    else if (l.Int? && r.Int?) || (l.Bool? && r.Bool?) || (l.Struct? && r.Struct?) || (l.Fptr? && r.Fptr?) then
      Outcome(Bool, [])
    else if !l.NoType? && !r.NoType? then Outcome(NoType, [UnsupportedOperandType(BinaryName(Eq))])
    else Outcome(NoType, [])
  }

  /** The remaining binary operators work on Int only; `<` and `>` (and `==`,
      which never reaches this arm) give Bool, the others Int. */
  function ArithmeticOutcome(op: BinOp, l: Type, r: Type): (o: Outcome)
    ensures l.Int? && r.Int? ==> o == Outcome(if op == Lt || op == Eq || op == Gt then Bool else Int, [])
    ensures !(l.Int? && r.Int?) ==> o.ty.NoType?
    ensures o.errs == [] || o.errs == [UnsupportedOperandType(BinaryName(op))]
    ensures o.errs == [] <==> (l.Int? || l.NoType?) && (r.Int? || r.NoType?)
  {
    if l.Int? && r.Int? then Outcome(if op == Lt || op == Eq || op == Gt then Bool else Int, [])
    else if !(l.NoType? && r.Int?) && !(l.Int? && r.NoType?) && !(l.NoType? && r.NoType?) then
      Outcome(NoType, [UnsupportedOperandType(BinaryName(op))])
    else Outcome(NoType, [])
  }

  /** The operator's own check, chosen by the operator: at most one error,
      named after the operator, and a failed check gives NoType. */
  function OperatorOutcome(op: BinOp, l: Type, r: Type): (o: Outcome)
    ensures o.errs == [] || o.errs == [UnsupportedOperandType(BinaryName(op))]
    ensures o.errs != [] ==> o.ty.NoType?
  {
    if op == And || op == Or then LogicalOutcome(op, l, r)
    else if op == Assign then AssignOutcome(l, r)
    else if op == Eq then EqualityOutcome(l, r)
    else ArithmeticOutcome(op, l, r)
  }

  /** A binary expression reports one void use per Void operand before any
      operator error; with both operands Void it stops there with NoType. */
  function BinaryOutcome(op: BinOp, l: Type, r: Type): (o: Outcome)
    ensures l.Void? && r.Void? ==> o == Outcome(NoType, [CantUseValueOfVoidFunction, CantUseValueOfVoidFunction])
    ensures |VoidUses(l, r)| <= |o.errs| && o.errs[..|VoidUses(l, r)|] == VoidUses(l, r)
    ensures forall i :: |VoidUses(l, r)| <= i < |o.errs| ==> o.errs[i] == UnsupportedOperandType(BinaryName(op))
  {
    if l.Void? && r.Void? then Outcome(NoType, VoidUses(l, r))
    else
      var rest := OperatorOutcome(op, l, r);
      assert rest.errs == [] || rest.errs == [UnsupportedOperandType(BinaryName(op))];
      Outcome(rest.ty, VoidUses(l, r) + rest.errs)
  }

  /** `not` accepts Bool and `minus` accepts Int; the other primitive is an
      error and any other operand type gives a silent NoType. */
  function UnaryOutcome(op: UnOp, t: Type): (o: Outcome)
    ensures !o.ty.NoType? ==> o.ty == t && o.errs == []
    ensures op == Not ==> (o.ty.Bool? <==> t.Bool?) && (o.errs != [] <==> t.Int?)
    ensures op == Minus ==> (o.ty.Int? <==> t.Int?) && (o.errs != [] <==> t.Bool?)
    ensures o.errs == [] || o.errs == [UnsupportedOperandType(UnaryName(op))]
  {
    if op == Not then
      if t.Bool? then Outcome(Bool, [])
      else if t.Int? then Outcome(NoType, [UnsupportedOperandType(UnaryName(Not))])
      else Outcome(NoType, [])
    else
      assert op == Minus;
      if t.Int? then Outcome(Int, [])
      else if t.Bool? then Outcome(NoType, [UnsupportedOperandType(UnaryName(Minus))])
      else Outcome(NoType, [])
  }

  /** The error kinds of a call on a function pointer, once its arguments are
      typed: an argument mismatch, then a void value used outside a call
      statement. */
  function CallErrs(formals: seq<Type>, ret: Type, actuals: seq<Type>, isStmt: bool): (ks: seq<ErrorKind>)
    ensures ArgsInFunctionCallNotMatchDefinition in ks <==> !ArgsMatch(formals, actuals)
    ensures CantUseValueOfVoidFunction in ks <==> ret.Void? && !isStmt
    ensures forall k :: k in ks ==> k == ArgsInFunctionCallNotMatchDefinition || k == CantUseValueOfVoidFunction
    ensures |ks| <= 2
  {
    (if !ArgsMatch(formals, actuals) then [ArgsInFunctionCallNotMatchDefinition] else []) +
    (if ret.Void? && !isStmt then [CantUseValueOfVoidFunction] else [])
  }

  function LookupFunc(ts: seq<Table>, name: string): Option<Item> {
    match Lookup(ts, FuncKey(name))
    case Some(FuncItem(n, args, ret)) => Some(FuncItem(n, args, ret))
    case _ => None
  }

  /** An identifier: a variable first (a struct-typed variable whose struct
      is not declared gives a silent NoType), then a function reified as a
      function pointer, otherwise `VarNotDeclared`. */
  function IdentOutcome(env: seq<Table>, name: string): (o: Outcome)
    ensures LookupVar(env, name).Some? ==>
              o.errs == [] &&
              o.ty == (var t := LookupVar(env, name).value;
                       if t.Struct? && Lookup(env, StructKey(t.name)).None? then NoType else t)
    ensures LookupVar(env, name).None? && LookupFunc(env, name).Some? ==>
              o == Outcome(Fptr(LookupFunc(env, name).value.argTypes, LookupFunc(env, name).value.returnType), [])
    ensures o.errs != [] <==> LookupVar(env, name).None? && LookupFunc(env, name).None?
    ensures o.errs != [] ==> o == Outcome(NoType, [VarNotDeclared(name)])
  {
    match LookupVar(env, name)
    case Some(t) =>
      if t.Struct? && Lookup(env, StructKey(t.name)).None? then Outcome(NoType, []) else Outcome(t, [])
    case None =>
      match LookupFunc(env, name)
      case Some(f) => Outcome(Fptr(f.argTypes, f.returnType), [])
      case None => Outcome(NoType, [VarNotDeclared(name)])
  }

  /** `list[index]`: at most one of the two errors, NoType on every path but
      `(List E, Int)`, which yields `E`. */
  function ListAccessOutcome(l: Type, i: Type): (o: Outcome)
    ensures l.List? && i.Int? ==> o == Outcome(l.elem, [])
    ensures !(l.List? && i.Int?) ==> o.ty.NoType?
    ensures o.errs == [ListIndexNotInt] <==> l.List? && !i.Int? && !i.NoType?
    ensures o.errs == [AccessByIndexOnNonList] <==> !l.List? && !l.NoType? && i.Int?
    ensures o.errs == [] || o.errs == [ListIndexNotInt] || o.errs == [AccessByIndexOnNonList]
  {
    if l.List? && i.Int? then Outcome(l.elem, [])
    else if l.List? && !i.NoType? then Outcome(NoType, [ListIndexNotInt])
    else if !l.NoType? && i.Int? then Outcome(NoType, [AccessByIndexOnNonList])
    else Outcome(NoType, [])
  }

  /** A member is looked up in the struct's own table and then, through its
      parent, in the root table. */
  function MemberType(root: Table, members: Table, member: string): Option<Type> {
    LookupVar([root, members], member)
  }

  /** `instance.member`. */
  function StructAccessOutcome(root: Table, t: Type, member: string): (o: Outcome)
    ensures t.NoType? ==> o == Outcome(NoType, [])
    ensures !t.NoType? && !t.Struct? ==> o == Outcome(NoType, [AccessOnNonStruct])
    ensures t.Struct? && StructKey(t.name) !in root ==> o == Outcome(NoType, [])
    ensures o.errs == [] || o.errs == [AccessOnNonStruct] || (t.Struct? && o.errs == [StructMemberNotFound(t.name, member)])
    ensures o.errs != [] ==> o.ty.NoType?
    ensures t.Struct? && StructKey(t.name) in root && root[StructKey(t.name)].StructItem? ==>
              var found := MemberType(root, root[StructKey(t.name)].members, member);
              if found.Some? then o == Outcome(found.value, [])
              else o == Outcome(NoType, [StructMemberNotFound(t.name, member)])
  {
    if t.NoType? then Outcome(NoType, [])
    else if !t.Struct? then Outcome(NoType, [AccessOnNonStruct])
    else if StructKey(t.name) !in root then Outcome(NoType, [])
    else match root[StructKey(t.name)]
      case StructItem(_, members) =>
        (match MemberType(root, members, member)
         case Some(mt) => Outcome(mt, [])
         case None => Outcome(NoType, [StructMemberNotFound(t.name, member)]))
      case _ => Outcome(NoType, [])
  }

  /** `size(list)`: Int for a list; the source returns null otherwise, which
      this model replaces by NoType. */
  function ListSizeOutcome(t: Type): (o: Outcome)
    ensures t.List? <==> o.ty.Int?
    ensures !t.List? ==> o.ty.NoType?
    ensures o.errs == (if t.List? || t.NoType? then [] else [GetSizeOfNonList])
  {
    if t.List? then Outcome(Int, [])
    else if !t.NoType? then Outcome(NoType, [GetSizeOfNonList])
    else Outcome(NoType, [])
  }

  /** `append(list, element)` once the list is known to be a list of `elem`:
      the element must have the same head (Bool, Int, Struct or List). The
      error is silent only when the list's element type is NoType. */
  function AppendOutcome(elem: Type, element: Type): (o: Outcome)
    ensures o.ty.Void? <==> ListElemsMatch(element, elem)
    ensures !o.ty.Void? ==> o.ty.NoType?
    ensures o.errs == (if ListElemsMatch(element, elem) || elem.NoType? then [] else [NewElementTypeNotMatchListType])
  {
    if (element.Bool? && elem.Bool?) || (element.Int? && elem.Int?) ||
       (element.Struct? && elem.Struct?) || (element.List? && elem.List?) then Outcome(Void, [])
    else if !elem.NoType? then Outcome(NoType, [NewElementTypeNotMatchListType])
    else Outcome(NoType, [])
  }

  /** The expression visit. `env` is the table stack (`env[0]` the root);
      `isStmt` is the flag on entry. */
  function Infer(env: seq<Table>, isStmt: bool, e: Expr): Inferred
    requires |env| > 0
    decreases e, 1
  {
    match e
    case BinaryExpr(op, left, right, line) =>
      var a := Infer(env, isStmt, left);
      var b := Infer(env, a.isStmt, right);
      var o := BinaryOutcome(op, a.ty, b.ty);
      Inferred(o.ty, a.diags + b.diags + AtLine(o.errs, line), b.isStmt)
    case UnaryExpr(op, operand, line) =>
      var a := Infer(env, isStmt, operand);
      var o := UnaryOutcome(op, a.ty);
      Inferred(o.ty, a.diags + AtLine(o.errs, line), a.isStmt)
    case Call(instance, args, line) =>
      var c := Infer(env, isStmt, instance);
      if !c.ty.Fptr? then
        Inferred(NoType, c.diags + [Diag(CallOnNoneFptrType, line)], c.isStmt)
      else
        var a := InferArgs(env, c.isStmt, args);
        Inferred(c.ty.ret, c.diags + a.diags + AtLine(CallErrs(c.ty.args, c.ty.ret, a.tys, a.isStmt), line), false)
    case Ident(name, line) =>
      var o := IdentOutcome(env, name);
      Inferred(o.ty, AtLine(o.errs, line), isStmt)
    case ListAccess(list, index, line) =>
      var a := Infer(env, isStmt, list);
      var b := Infer(env, a.isStmt, index);
      var o := ListAccessOutcome(a.ty, b.ty);
      Inferred(o.ty, a.diags + b.diags + AtLine(o.errs, line), b.isStmt)
    case StructAccess(instance, member, line) =>
      var a := Infer(env, isStmt, instance);
      var o := StructAccessOutcome(env[0], a.ty, member);
      Inferred(o.ty, a.diags + AtLine(o.errs, line), a.isStmt)
    case ListSize(arg, line) =>
      var a := Infer(env, isStmt, arg);
      var o := ListSizeOutcome(a.ty);
      Inferred(o.ty, a.diags + AtLine(o.errs, line), a.isStmt)
    case ListAppend(list, element, line) =>
      var a := Infer(env, isStmt, list);
      if !a.ty.List? then
        Inferred(NoType, a.diags + [Diag(AppendToNonList, line)], a.isStmt)
      else
        var b := Infer(env, a.isStmt, element);
        var o := AppendOutcome(a.ty.elem, b.ty);
        Inferred(o.ty, a.diags + b.diags + AtLine(o.errs, line), b.isStmt)
    case Par(inner, _) => Infer(env, isStmt, inner)
    case IntValue(_, _) => Inferred(Int, [], isStmt)
    case BoolValue(_, _) => Inferred(Bool, [], isStmt)
  }

  /** The arguments of a call, visited left to right with the flag threaded
      through them. */
  function InferArgs(env: seq<Table>, isStmt: bool, args: seq<Expr>): (r: InferredArgs)
    requires |env| > 0
    ensures |r.tys| == |args|
    decreases args, 0
  {
    if |args| == 0 then InferredArgs([], [], isStmt)
    else
      var a := InferArgs(env, isStmt, args[..|args| - 1]);
      var b := Infer(env, a.isStmt, args[|args| - 1]);
      InferredArgs(a.tys + [b.ty], a.diags + b.diags, b.isStmt)
  }
}
