# Semantic type checker of a small compiler, modelled in Dafny

This project models the type-checking pass of a compiler for a small language. The language has ints, bools, structs, lists, function pointers, properties with a setter and a getter, and a `main`.

The pass has two cooperating visitors.

- **Expression type checker** (`ExpressionTypeChecker`). It gives every expression a type and reports diagnostics. Its types are `Int`, `Bool`, `Void`, `NoType`, `Struct(name)`, `List(elem)` and `Fptr(args, ret)`.
  - `NoType` is the poison value it synthesises after an error, so that enclosing expressions stay silent.
  - Calls, list appends and assignment expressions compare function pointers and lists by their head constructor only.
  - A one-shot `is_stmt` flag lets the call of a call statement return Void.
- **Statement and declaration checker** (`TypeChecker`). It walks the structs, then the functions, then `main`.
  - It keeps a stack of symbol tables and a stack of `Scope` records, each holding a `returnExists` bit.
  - It decides whether every path of a non-void function returns. An `if` without `else` never counts, and neither does a loop body.
  - It enforces the l-value rule of assignment statements.
  - It types return statements through a pseudo-variable named `RETURN`.
  - It compares types with the fully recursive `recursiveCompare`.
  - It reports struct names that are used in declared types but never declared.

## Structure

Each file holds one or two modules.

- `types.dfy` — **Types**: the `Type` datatype, `Compatible` (`recursiveCompare`), and the head-only relations `CallSiteMatch`/`ArgsMatch` (`compareTypeArrayList`), `ListElemsMatch` (`compareListType`) and `FptrAssignable` (`compareFunctionPointer`), with their laws.
- `symbols.dfy` — **Wrappers** and **Symbols**:
  - keys with a variable, function or struct prefix;
  - items and tables;
  - the stack of tables as a `seq<Table>`, root first;
  - `Put`, which keeps the first definition;
  - `Lookup`, which walks from the top table to the root.
- `ast.dfy` — **Ast**: expressions, statements, declarations, error kinds and diagnostics, where a diagnostic is an error kind plus a line.
- `expr_spec.dfy` — **ExprSpec**: what the expression checker computes, as functions.
  - `Infer(env, isStmt, e)` gives the type, the diagnostics in reporting order, and the flag afterwards.
  - One `...Outcome` function per node form.
- `expr_checker.dfy` — **Diagnostics** and **ExprChecking**:
  - the shared `ErrorLog`;
  - the `ExpressionTypeChecker` class, with its `isStmt` field;
  - its loops: the argument loop of a call and `compareTypeArrayList`.

  Every visit is proved equal to `Infer`.
- `expr_props.dfy` — **ExprProps**: properties of whole expressions. These cover which error kinds an expression can report, how the flag evolves, and the nested call `f(g())`.
- `stmt_spec.dfy` — **StmtSpec**: what the statement checker computes, as functions over a `State`.
  - A `State` holds the table stack, the current scope, the saved scopes, `declarationPermitted`, the expression checker's flag and the log.
  - `Exec(st, s)` is the state after visiting statement `s`.
- `stmt_checker.dfy` — **StmtChecking**:
  - the `TypeChecker` class, whose fields are updated in place;
  - `RecursiveCompare`, with its loop over function-pointer arguments.

  Every visit's `ensures` states that the new `Model()` equals the corresponding `StmtSpec` function applied to the old one.
- `stmt_props.dfy` — **StmtProps**: return coverage against a syntactic reference rule, the missing-return rule, the l-value, condition and display rules, the `var` statement's bindings and diagnostics, how `declarationPermitted` evolves through properties, and struct-declaration checking.

Two behaviours of the code that a reader may not expect are proved as concrete lemmas.

- **`f(g())` as a call statement.** The callee `f` is visited first, then the argument `g()`. The call `g()` clears the `is_stmt` flag before `f`'s own call node reads it. So the Void result of `f` is reported as a value use, although `f` is the statement's own call (`ExprProps.NestedCallStatement`).
- **`x = g()` with a Void `g` and an `int` variable `x`.** The assignment statement does not demote Void to NoType. So it reports `UnsupportedOperandType(=)` in addition to the void-use error (`StmtProps.VoidAssignmentReportsBoth`).

## Model

| member | source | states |
|---|---|---|
| Types.Compatible | src/main/visitor/type/TypeChecker.java:328-363 | `recursiveCompare`: NoType on either side is compatible; otherwise the constructors must agree, structs by name, lists by element type, function pointers by arity, return type and every argument |
| Types.NoTypeAbsorbs | src/main/visitor/type/TypeChecker.java:329-330 | NoType is compatible with every type on either side |
| Types.DifferentHeadsIncompatible | src/main/visitor/type/TypeChecker.java:331-332 | types with different constructors, neither NoType, are never compatible |
| Types.CompatibleReflexive | src/main/visitor/type/TypeChecker.java:328-363 | `recursiveCompare` is reflexive on every type |
| Types.CompatibleSymmetric | src/main/visitor/type/TypeChecker.java:328-363 | `recursiveCompare` is symmetric |
| Types.CompatibleNotTransitive | src/main/visitor/type/TypeChecker.java:329-330 | because NoType absorbs, compatibility is not transitive (Int ~ NoType ~ Bool but not Int ~ Bool) |
| Types.ArgsMatch | src/main/visitor/type/ExpressionTypeChecker.java:275-287 | `compareTypeArrayList` after the arity test: every position is Bool, Int, Struct, List or Fptr on both sides |
| Types.ListElemsMatch | src/main/visitor/type/ExpressionTypeChecker.java:265-273 | `compareListType`: both element types are Int, both Bool, both Struct or both List |
| Types.FptrAssignable | src/main/visitor/type/ExpressionTypeChecker.java:247-263 | `compareFunctionPointer`: the right return type has the left one's constructor (no test for a NoType left return), same arity, head-equal arguments |
| Types.ArgsMatchSymmetric | src/main/visitor/type/ExpressionTypeChecker.java:275-287 | call-site argument matching is symmetric in formals and actuals |
| Types.NoTypeActualMismatches | src/main/visitor/type/ExpressionTypeChecker.java:275-287 | a NoType actual argument always makes the call a mismatch |
| Types.CompatibleFptrIsAssignable | src/main/visitor/type/ExpressionTypeChecker.java:247-263 | for function pointers with value-typed arguments and no NoType on the right, recursive compatibility implies the head-only assignability test |
| Types.AssignableNotCompatible | src/main/visitor/type/ExpressionTypeChecker.java:247-263 | the head-only test accepts `fptr(list<int>)` against `fptr(list<bool>)`, which `recursiveCompare` rejects |
| Types.ListOfFptrRejected | src/main/visitor/type/ExpressionTypeChecker.java:265-273 | lists of function pointers never match under `compareListType`, even with identical element types |
| Symbols.Put | src/main/visitor/type/TypeChecker.java:94-97 | `put` adds the item's key; an existing key keeps its first item and every other entry is unchanged |
| Symbols.PutTop | src/main/visitor/type/TypeChecker.java:94-97 | putting into the stack changes only the top table |
| Symbols.Lookup | src/main/visitor/type/ExpressionTypeChecker.java:133 | lookup finds nothing iff no table on the stack holds the key |
| Symbols.LookupInnermost | src/main/visitor/type/ExpressionTypeChecker.java:133 | a found item is the one held by a table with no table above it holding the key, so inner definitions shadow outer ones |
| Symbols.LookupAfterPut | src/main/visitor/type/TypeChecker.java:64-69 | after a put the key resolves to the new item, or to the top table's earlier item for that key |
| Symbols.LookupThroughEmptyTop | src/main/visitor/type/TypeChecker.java:286-290 | a freshly pushed table shadows nothing |
| ExprSpec.OperatorOutcome | src/main/visitor/type/ExpressionTypeChecker.java:38-85 | the operator branches: at most one error, `UnsupportedOperandType` named after the operator, and a failed check gives NoType |
| ExprSpec.LogicalOutcome | src/main/visitor/type/ExpressionTypeChecker.java:39-48 | `and`/`or` give Bool iff both operands are Bool, else NoType; the error is suppressed exactly for Bool/NoType operand pairs |
| ExprSpec.AssignOutcome | src/main/visitor/type/ExpressionTypeChecker.java:49-59 | an accepted assignment expression has the right operand's type; the error is reported iff it is not accepted and neither side is NoType |
| ExprSpec.EqualityOutcome | src/main/visitor/type/ExpressionTypeChecker.java:61-72 | a list on either side is always an error, even beside NoType; two function pointers of any signatures give Bool; other mismatches error only without NoType |
| ExprSpec.ArithmeticOutcome | src/main/visitor/type/ExpressionTypeChecker.java:74-84 | (Int, Int) gives Int, or Bool for `<`/`>`; anything else gives NoType; the error is suppressed exactly for Int/NoType operand pairs |
| ExprSpec.BinaryOutcome | src/main/visitor/type/ExpressionTypeChecker.java:30-85 | one void-use error per Void operand comes first; two Void operands give NoType with no operator error; the remaining errors are operator errors |
| ExprSpec.UnaryOutcome | src/main/visitor/type/ExpressionTypeChecker.java:88-104 | `not` gives Bool iff its operand is Bool and errors iff it is Int; `minus` gives Int iff its operand is Int and errors iff it is Bool |
| ExprSpec.CallErrs | src/main/visitor/type/ExpressionTypeChecker.java:118-125 | the argument error is reported iff arity or a head differs; the void-use error iff the return type is Void and the flag is clear |
| ExprSpec.IdentOutcome | src/main/visitor/type/ExpressionTypeChecker.java:131-156 | a variable wins, with NoType for an undeclared struct type; then a function, reified as a function pointer; `VarNotDeclared` iff neither exists |
| ExprSpec.ListAccessOutcome | src/main/visitor/type/ExpressionTypeChecker.java:162-169 | (List E, Int) gives E; at most one of `ListIndexNotInt`/`AccessByIndexOnNonList`, each exactly in its case; every other result is NoType |
| ExprSpec.StructAccessOutcome | src/main/visitor/type/ExpressionTypeChecker.java:175-196 | NoType is silent; a non-struct reports `AccessOnNonStruct`; an undeclared struct is silent; a missing member reports `StructMemberNotFound(struct, member)` |
| ExprSpec.ListSizeOutcome | src/main/visitor/type/ExpressionTypeChecker.java:202-208 | size is Int iff the argument is a list; a non-list, non-NoType argument reports `GetSizeOfNonList` |
| ExprSpec.AppendOutcome | src/main/visitor/type/ExpressionTypeChecker.java:219-229 | append gives Void iff the element matches the list's element type by head; otherwise NoType, with an error unless the list's element type is NoType |
| ExprSpec.Infer | src/main/visitor/type/ExpressionTypeChecker.java:26-245 | the expression visit: the type returned, the diagnostics in reporting order, and the flag afterwards; `ExpressionTypeChecker.Visit` is proved equal to it and the ExprProps lemmas state its properties |
| ExprSpec.InferArgs | src/main/visitor/type/ExpressionTypeChecker.java:113-117 | one type per argument |
| ExprChecking.CompareTypeArrayList | src/main/visitor/type/ExpressionTypeChecker.java:275-287 | the early-exit loop answers true iff every position is head-equal on a value type |
| ExprChecking.CompareFunctionPointer | src/main/visitor/type/ExpressionTypeChecker.java:247-263 | the result is the head-only function-pointer assignability relation |
| ExprChecking.ExpressionTypeChecker.constructor | src/main/visitor/type/ExpressionTypeChecker.java:24 | the flag starts cleared |
| ExprChecking.ExpressionTypeChecker.Visit | src/main/visitor/type/ExpressionTypeChecker.java:26-245 | every expression visit returns `Infer`'s type, leaves `Infer`'s flag and appends exactly `Infer`'s diagnostics |
| ExprChecking.ExpressionTypeChecker.VisitBinary | src/main/visitor/type/ExpressionTypeChecker.java:27-85 | operands left to right, then the node's own errors, as `Infer` |
| ExprChecking.ExpressionTypeChecker.BinaryNode | src/main/visitor/type/ExpressionTypeChecker.java:30-85 | the node returns `BinaryOutcome`'s type and reports its errors on the node's line |
| ExprChecking.ExpressionTypeChecker.ReportVoids | src/main/visitor/type/ExpressionTypeChecker.java:30-34 | one void-use error per Void operand |
| ExprChecking.ExpressionTypeChecker.OperatorNode | src/main/visitor/type/ExpressionTypeChecker.java:38-85 | the operator branches return `OperatorOutcome`'s type and errors |
| ExprChecking.ExpressionTypeChecker.VisitUnary | src/main/visitor/type/ExpressionTypeChecker.java:87-104 | as `Infer` on a unary expression |
| ExprChecking.ExpressionTypeChecker.VisitCall | src/main/visitor/type/ExpressionTypeChecker.java:106-128 | a non-pointer callee reports `CallOnNoneFptrType` and skips the arguments; otherwise the declared return type, with the flag cleared |
| ExprChecking.ExpressionTypeChecker.VisitArgs | src/main/visitor/type/ExpressionTypeChecker.java:113-117 | the argument loop collects `InferArgs`'s types and diagnostics, left to right |
| ExprChecking.ExpressionTypeChecker.CallNode | src/main/visitor/type/ExpressionTypeChecker.java:118-125 | the call's own errors are `CallErrs` on the call's line |
| ExprChecking.ExpressionTypeChecker.VisitIdent | src/main/visitor/type/ExpressionTypeChecker.java:130-156 | as `IdentOutcome` on the current stack |
| ExprChecking.ExpressionTypeChecker.VisitListAccess | src/main/visitor/type/ExpressionTypeChecker.java:158-170 | as `Infer` on an index access |
| ExprChecking.ExpressionTypeChecker.ListAccessNode | src/main/visitor/type/ExpressionTypeChecker.java:162-169 | as `ListAccessOutcome` |
| ExprChecking.ExpressionTypeChecker.VisitStructAccess | src/main/visitor/type/ExpressionTypeChecker.java:172-197 | as `Infer` on a member access |
| ExprChecking.ExpressionTypeChecker.StructAccessNode | src/main/visitor/type/ExpressionTypeChecker.java:175-196 | as `StructAccessOutcome`, with the member looked up in the struct's table, then the root |
| ExprChecking.ExpressionTypeChecker.VisitListSize | src/main/visitor/type/ExpressionTypeChecker.java:199-209 | as `Infer` on `size` |
| ExprChecking.ExpressionTypeChecker.VisitListAppend | src/main/visitor/type/ExpressionTypeChecker.java:211-230 | a non-list target reports `AppendToNonList` without visiting the element; otherwise as `Infer` |
| ExprChecking.ExpressionTypeChecker.AppendNode | src/main/visitor/type/ExpressionTypeChecker.java:219-229 | as `AppendOutcome` |
| ExprProps.InferReportsExpressionKinds | src/main/visitor/type/ExpressionTypeChecker.java:26-245 | an expression reports only expression-level error kinds |
| ExprProps.InferArgsReportExpressionKinds | src/main/visitor/type/ExpressionTypeChecker.java:113-117 | so do call arguments |
| ExprProps.InferNeverSetsFlag | src/main/visitor/type/ExpressionTypeChecker.java:123-126 | an expression never sets the flag, it only clears it |
| ExprProps.CallClearsFlag | src/main/visitor/type/ExpressionTypeChecker.java:106-128 | a call clears the flag iff its callee is a function pointer; otherwise the flag is as the callee left it |
| ExprProps.NestedCallOperands | src/main/visitor/type/ExpressionTypeChecker.java:106-128 | in the example table, `f` is a pointer to a Void function, and the argument list `[g()]` gives Int and clears the flag |
| ExprProps.NestedCallStatement | src/main/visitor/type/TypeChecker.java:194-199 | the call statement `f(g())` with Void `f` reports one void-use error, because `g()` consumed the flag |
| StmtSpec.PushScope | src/main/visitor/type/TypeChecker.java:286-290 | a fresh table on the stack, a fresh scope, and the enclosing scope saved |
| StmtSpec.PopScope | src/main/visitor/type/TypeChecker.java:292-295 | the table is dropped and the saved scope is current again |
| StmtSpec.Eval | src/main/visitor/type/TypeChecker.java:158-159 | an expression visit changes only the flag and the log |
| StmtSpec.ValueOf | src/main/visitor/type/TypeChecker.java:210-216 | `value` never yields Void: Void becomes NoType, and any other type is kept |
| StmtSpec.NotDeclared | src/main/visitor/type/TypeChecker.java:309-315 | one `StructNotDeclared` per name, in order, on the node's line |
| StmtSpec.UndeclaredStructs | src/main/visitor/type/TypeChecker.java:297-326 | the struct names `recursiveTypeCheck` reports for a type, in walking order; `UndeclaredStructsExactly` characterises them |
| StmtSpec.UndeclaredIn | src/main/visitor/type/TypeChecker.java:317-322 | the same over a function pointer's argument types, left to right |
| StmtSpec.Declare | src/main/visitor/type/TypeChecker.java:89-99 | a `VariableDeclaration`: its type checked on its line, then the variable put into the top table |
| StmtSpec.PutVars | src/main/visitor/type/TypeChecker.java:92-97 | variables put into one table in order, a repeated name keeping its first item; `PutVarsKeeps`, `PutVarsKeys` and `PutVarsFirst` state its bindings |
| StmtSpec.DeclareAll | src/main/visitor/type/TypeChecker.java:70-72 | declaring parameters leaves the tables below the top as they were and turns the top table into `PutVars` of the parameters, so each is bound; scopes and flags unchanged; the log only grows |
| StmtSpec.PutReturn | src/main/visitor/type/TypeChecker.java:64-69 | after the put, `RETURN` resolves to the declared type (the top table has no earlier `RETURN`) |
| StmtSpec.ParamTypes | src/main/visitor/type/TypeChecker.java:139-142 | the property's parameter types, in order |
| StmtSpec.IsLvalue | src/main/visitor/type/TypeChecker.java:155 | the l-values: an identifier, a member access or an index access |
| StmtSpec.Exec | src/main/visitor/type/TypeChecker.java:152-284 | a statement leaves the stack depth, the tables below the top and the saved scopes as they were, and only appends to the log |
| StmtSpec.ExecSeq | src/main/visitor/type/TypeChecker.java:166-172 | so does a block |
| StmtSpec.ExecAssignment | src/main/visitor/type/TypeChecker.java:152-164 | an assignment statement changes only the flag and the log, and only appends |
| StmtSpec.CheckCondition | src/main/visitor/type/TypeChecker.java:176-179 | checking a condition changes only the flag and the log |
| StmtSpec.ExecConditional | src/main/visitor/type/TypeChecker.java:174-192 | the tables and saved scopes are restored; without `else` the current scope is unchanged; a return never gets lost |
| StmtSpec.ExecLoop | src/main/visitor/type/TypeChecker.java:239-249 | a loop leaves tables, the current scope and saved scopes unchanged, whatever its body does |
| StmtSpec.ExecDisplay | src/main/visitor/type/TypeChecker.java:201-208 | a display statement changes only `is_stmt` and the log, which only grows; `DisplayRule` states when it reports |
| StmtSpec.ExecReturn | src/main/visitor/type/TypeChecker.java:218-237 | the scope gets a return; without `RETURN` only `CannotUseReturn`; a missing value for a non-Void type is a mismatch, and under a Void `RETURN` adds nothing; otherwise the value is compared with `RETURN`'s type |
| StmtSpec.DeclareLocal | src/main/visitor/type/TypeChecker.java:257-269 | a declarator puts its variable into the top table (an existing name keeps its item) and changes nothing else but the flag and the log; `DeclareLocalLog` states its entries |
| StmtSpec.DeclareLocals | src/main/visitor/type/TypeChecker.java:256-270 | all declarators of a statement turn the top table into `PutVars` of the declarators; tables below, scopes and `declarationPermitted` unchanged |
| StmtSpec.ExecVarDec | src/main/visitor/type/TypeChecker.java:251-272 | the top table becomes `PutVars` of the declarators; while declarations are permitted, the first new diagnostic is `CannotUseDefineVar`; `VarDecDefineVarRule` gives both directions |
| StmtSpec.SetterPart | src/main/visitor/type/TypeChecker.java:118-129 | the setter's table is gone afterwards |
| StmtSpec.GetterPart | src/main/visitor/type/TypeChecker.java:130-138 | the getter's table is gone afterwards |
| StmtSpec.ExecSetGet | src/main/visitor/type/TypeChecker.java:114-150 | declarations are forbidden afterwards; the enclosing table becomes `Put` of the property as `Fptr(parameter types, property type)`, so an existing name keeps its item and every other entry is unchanged |
| StmtSpec.FunctionBody | src/main/visitor/type/TypeChecker.java:60-73 | the stack is the root plus the function's table, and the enclosing scope is saved |
| StmtSpec.ExecFunction | src/main/visitor/type/TypeChecker.java:60-79 | each function pushes exactly one scope and pops it: tables and scopes are restored |
| StmtSpec.ExecMain | src/main/visitor/type/TypeChecker.java:81-87 | main's table is gone afterwards |
| StmtSpec.ExecStruct | src/main/visitor/type/TypeChecker.java:101-112 | the struct's item in the root gets the body's table as its members; no root key is added or removed and every other root item keeps its value |
| StmtSpec.ExecStructs | src/main/visitor/type/TypeChecker.java:50-52 | the stack holds only the root afterwards, with the same root keys |
| StmtSpec.ExecFunctions | src/main/visitor/type/TypeChecker.java:53-55 | functions leave the tables and scopes unchanged |
| StmtSpec.ExecProgram | src/main/visitor/type/TypeChecker.java:48-58 | the stack holds only the root afterwards |
| StmtChecking.RecursiveCompare | src/main/visitor/type/TypeChecker.java:328-363 | the recursive comparison with its argument loop computes `Compatible` |
| StmtChecking.ParamTypesOf | src/main/visitor/type/TypeChecker.java:139-142 | the loop collects the parameter types in order |
| StmtChecking.TypeChecker.constructor | src/main/visitor/type/TypeChecker.java:40-46 | the stack holds only the root, the scope has no return, no saved scopes, declarations forbidden, flag cleared |
| StmtChecking.TypeChecker.PushTable | src/main/visitor/type/TypeChecker.java:83 | a fresh empty table goes on top of the stack, as `StmtSpec.PushTable` |
| StmtChecking.TypeChecker.PopTable | src/main/visitor/type/TypeChecker.java:85 | the top table is dropped, as `StmtSpec.PopTable` |
| StmtChecking.TypeChecker.Put | src/main/visitor/type/TypeChecker.java:94-97 | the item goes into the top table, an existing key keeping its item, as `PutItem` |
| StmtChecking.TypeChecker.PushScope | src/main/visitor/type/TypeChecker.java:286-290 | the fields change as `StmtSpec.PushScope` |
| StmtChecking.TypeChecker.PopScope | src/main/visitor/type/TypeChecker.java:292-295 | the fields change as `StmtSpec.PopScope` |
| StmtChecking.TypeChecker.RecursiveTypeCheck | src/main/visitor/type/TypeChecker.java:297-326 | reports exactly the undeclared struct names of the type, in walking order |
| StmtChecking.TypeChecker.RecursiveTypeCheckFptr | src/main/visitor/type/TypeChecker.java:317-322 | the argument loop, then the return type |
| StmtChecking.TypeChecker.Evaluate | src/main/visitor/type/TypeChecker.java:158 | handing an expression to the expression checker is `Eval` |
| StmtChecking.TypeChecker.Value | src/main/visitor/type/TypeChecker.java:210-216 | as `ValueOf` |
| StmtChecking.TypeChecker.Visit | src/main/visitor/type/TypeChecker.java:152-284 | every statement visit moves the checker's state as `Exec` |
| StmtChecking.TypeChecker.VisitAssignment | src/main/visitor/type/TypeChecker.java:152-164 | as `ExecAssignment` |
| StmtChecking.TypeChecker.VisitBlock | src/main/visitor/type/TypeChecker.java:166-172 | the statement loop is `ExecSeq` |
| StmtChecking.TypeChecker.CheckCondition | src/main/visitor/type/TypeChecker.java:176-179 | as `StmtSpec.CheckCondition` |
| StmtChecking.TypeChecker.VisitInScope | src/main/visitor/type/TypeChecker.java:180-183 | a branch runs in a scope of its own; the bit handed back is the branch scope's return bit, read before the scope is popped |
| StmtChecking.TypeChecker.VisitConditional | src/main/visitor/type/TypeChecker.java:174-192 | as `ExecConditional` |
| StmtChecking.TypeChecker.VisitLoop | src/main/visitor/type/TypeChecker.java:239-249 | as `ExecLoop` |
| StmtChecking.TypeChecker.VisitDisplay | src/main/visitor/type/TypeChecker.java:201-208 | as `ExecDisplay` |
| StmtChecking.TypeChecker.VisitReturn | src/main/visitor/type/TypeChecker.java:218-237 | as `ExecReturn` |
| StmtChecking.TypeChecker.VisitVariableDeclaration | src/main/visitor/type/TypeChecker.java:89-99 | the type is checked and the variable put into the top table, as `Declare` |
| StmtChecking.TypeChecker.DeclareParams | src/main/visitor/type/TypeChecker.java:70-72 | the parameter loop is `DeclareAll` |
| StmtChecking.TypeChecker.DeclareLocal | src/main/visitor/type/TypeChecker.java:257-269 | as `StmtSpec.DeclareLocal` |
| StmtChecking.TypeChecker.DeclareLocals | src/main/visitor/type/TypeChecker.java:256-270 | the declarator loop is `StmtSpec.DeclareLocals` |
| StmtChecking.TypeChecker.VisitVarDecStmt | src/main/visitor/type/TypeChecker.java:251-272 | as `ExecVarDec` |
| StmtChecking.TypeChecker.VisitSetter | src/main/visitor/type/TypeChecker.java:118-129 | as `SetterPart` |
| StmtChecking.TypeChecker.VisitGetter | src/main/visitor/type/TypeChecker.java:130-138 | as `GetterPart` |
| StmtChecking.TypeChecker.VisitSetGet | src/main/visitor/type/TypeChecker.java:114-150 | as `ExecSetGet` |
| StmtChecking.TypeChecker.VisitFunction | src/main/visitor/type/TypeChecker.java:60-79 | as `ExecFunction` |
| StmtChecking.TypeChecker.VisitMain | src/main/visitor/type/TypeChecker.java:81-87 | as `ExecMain` |
| StmtChecking.TypeChecker.VisitStruct | src/main/visitor/type/TypeChecker.java:101-112 | as `ExecStruct` |
| StmtChecking.TypeChecker.VisitStructs | src/main/visitor/type/TypeChecker.java:50-52 | the struct loop is `ExecStructs` |
| StmtChecking.TypeChecker.VisitFunctions | src/main/visitor/type/TypeChecker.java:53-55 | the function loop is `ExecFunctions` |
| StmtChecking.TypeChecker.VisitProgram | src/main/visitor/type/TypeChecker.java:48-58 | structs, then functions, then main, as `ExecProgram` |
| StmtProps.ReturnCoverage | src/main/visitor/type/TypeChecker.java:166-237 | after a statement, the scope has a return iff it had one before or the statement returns on all paths by the syntactic rule `Returns` |
| StmtProps.ConditionalCoverage | src/main/visitor/type/TypeChecker.java:174-192 | a conditional adds a return iff it has an else branch and both branches return |
| StmtProps.SetGetCoverage | src/main/visitor/type/TypeChecker.java:114-150 | a return in a setter or getter body counts for the enclosing scope |
| StmtProps.ReturnCoverageSeq | src/main/visitor/type/TypeChecker.java:166-172 | a block returns iff one of its statements does |
| StmtProps.IfWithoutElseAddsNothing | src/main/visitor/type/TypeChecker.java:184-190 | an `if` without `else` leaves the enclosing scope unchanged |
| StmtProps.MissingReturnRule | src/main/visitor/type/TypeChecker.java:74-76 | `MissingReturnStatement` is added iff the body does not return on all paths and the return type is not Void |
| StmtProps.UndeclaredStructsExactly | src/main/visitor/type/TypeChecker.java:297-326 | a name is reported iff it occurs in the type and the root does not declare it |
| StmtProps.UndeclaredInExactly | src/main/visitor/type/TypeChecker.java:317-322 | the same for the argument types of a function pointer |
| StmtProps.PrimitiveTypesNeedNoDeclaration | src/main/visitor/type/TypeChecker.java:297-307 | Int, Bool and Void report nothing |
| StmtProps.AssignmentLog | src/main/visitor/type/TypeChecker.java:152-164 | the l-value error, then both sides' diagnostics, then the compatibility error |
| StmtProps.AssignmentLvalueRule | src/main/visitor/type/TypeChecker.java:154-157 | `LeftSideNotLvalue` is reported exactly once iff the left side is not an identifier, member access or index access |
| StmtProps.ConditionRule | src/main/visitor/type/TypeChecker.java:176-179 | `ConditionNotBool` is reported exactly once iff the condition is neither Bool nor NoType |
| StmtProps.DisplayRule | src/main/visitor/type/TypeChecker.java:202-206 | `UnsupportedTypeForDisplay` is reported exactly once iff the value is a struct or a function pointer |
| StmtProps.DisplayOfVoidIsSilent | src/main/visitor/type/TypeChecker.java:210-216 | displaying a Void value adds nothing beyond the argument's own diagnostics |
| StmtProps.MisplacedReturn | src/main/visitor/type/TypeChecker.java:222-227 | outside any function or getter, a return reports only `CannotUseReturn` and its value is not visited |
| StmtProps.PutVarsKeeps | src/main/visitor/type/TypeChecker.java:92-97 | declaring variables keeps every entry the table already had |
| StmtProps.PutVarsKeys | src/main/visitor/type/TypeChecker.java:92-97 | every declared name is bound afterwards, and only declared names are added |
| StmtProps.PutVarsFirst | src/main/visitor/type/TypeChecker.java:92-97 | a name new to the table is bound to its first declaration's type |
| StmtProps.DeclareLocalLog | src/main/visitor/type/TypeChecker.java:257-269 | a declarator adds its type's undeclared structs on the statement's line; with an initial value, the value's diagnostics (visited with the variable already declared), then `UnsupportedOperandType(=)` on the declarator's line iff the value's type, Void taken as NoType, is not compatible with the declared type |
| StmtProps.DeclareLocalNoDefineVar | src/main/visitor/type/TypeChecker.java:257-269 | a declarator never reports `CannotUseDefineVar` |
| StmtProps.DeclareLocalsNoDefineVar | src/main/visitor/type/TypeChecker.java:256-270 | neither do all declarators together |
| StmtProps.VarDecDefineVarRule | src/main/visitor/type/TypeChecker.java:253-255 | a `var` statement reports `CannotUseDefineVar` exactly once iff declarations are permitted, and never otherwise |
| StmtProps.FlagRule | src/main/visitor/type/TypeChecker.java:116 | after a statement `declarationPermitted` is set iff it was set before and the statement declares no property (only a property writes it, and it leaves it cleared) |
| StmtProps.FlagRuleConditional | src/main/visitor/type/TypeChecker.java:174-192 | the same for a conditional, through both branches |
| StmtProps.FlagRuleSeq | src/main/visitor/type/TypeChecker.java:166-172 | the same for a block |
| StmtProps.PermittedVarDec | src/main/visitor/type/TypeChecker.java:253-255 | a `var` statement visited while declarations are permitted reports `CannotUseDefineVar` first |
| StmtProps.SetterVarDec | src/main/visitor/type/TypeChecker.java:116-129 | a setter body that is a `var` statement runs with declarations permitted and reports `CannotUseDefineVar` |
| StmtProps.GetterVarDec | src/main/visitor/type/TypeChecker.java:130-138 | a getter body that is a `var` statement, reached with the flag still set, reports `CannotUseDefineVar` |
| StmtProps.SetterDeclarationRule | src/main/visitor/type/TypeChecker.java:114-150 | a property whose setter is a `var` statement gets `CannotUseDefineVar` on the setter's line among its new entries |
| StmtProps.GetterDeclarationRule | src/main/visitor/type/TypeChecker.java:114-150 | so does one whose getter is a `var` statement, when the setter declares no nested property (a nested one clears the flag first) |
| StmtProps.VoidAssignLvalue | src/main/visitor/type/ExpressionTypeChecker.java:133-145 | in the example stack, `x` is an Int variable with no diagnostics |
| StmtProps.VoidAssignCall | src/main/visitor/type/ExpressionTypeChecker.java:123-125 | in the example stack, `g()` is Void and reports one void-use error |
| StmtProps.VoidAssignmentReportsBoth | src/main/visitor/type/TypeChecker.java:158-162 | `x = g()` with Void `g` reports the void-use error and then `UnsupportedOperandType(=)` |

## Left out

- Error messages are not modelled: an error is a kind, plus the names some kinds carry, plus a line number. Errors attached to AST nodes become one log in the order the checkers report them; which node holds an error is not modelled.
- Visitor double dispatch (`accept`) becomes pattern matching. The exceptions used for control flow (`ItemNotFoundException`, `ItemAlreadyExistsException`) become `Option` results and first-definition-wins `Put`.
- The pass that collects names into the root table before type checking is not part of this model, and neither is the command-line front end. The root table is an input of `TypeChecker.constructor`.
- The `SymbolTable`, `Stack` and `Type` classes are not part of this model.
  - Tables are maps, and the stack is a sequence that lookups walk from the top to the root. This walk equals the source's parent chain because every table the checker pushes has the current top as parent.
  - The exceptions are the tables of functions, `main` and structs, whose parent is the root. These are always pushed while the stack holds only the root, so `ExecFunction`, `ExecMain` and `ExecStruct` require exactly that.
- StmtSpec.DeclareLocals: its contract states the bindings and the frame; the diagnostics are stated one declarator at a time (`DeclareLocalLog`, each from the state the previous declarator left), not as one sequence for the whole statement.
- StmtSpec.PopScope: `popScope` sets `top` to whatever the unseen `Stack.pop` returns, while `pushScope` pushes the new scope. The model assumes the intended lockstep behaviour, in which the enclosing scope becomes current again. The return-coverage results rest on this assumption. With a last-in-first-out pop, `popScope` would return the scope that the matching `pushScope` just pushed (TypeChecker.java:286-295), so `top` would stay the last branch's or loop body's scope. A return inside an `if` without `else`, or inside a loop body, would then satisfy the missing-return check. `ReturnCoverage`, `IfWithoutElseAddsNothing` and `MissingReturnRule` rule exactly that out, so they describe the intended pass and not that reading of the code.
- `Scope` is a value held in the checker's fields. The Java object aliasing between `top` and the stack's entries is not modelled.
- ExprSpec.ListSizeOutcome: on a non-list argument the source returns `null`, and the model returns NoType, which keeps every later check silent. With `null` the source would instead:
  - report an operator error in an enclosing operator, and throw in `recursiveCompare`;
  - report `UnsupportedTypeForDisplay` for `display(size(5))` (TypeChecker.java:205);
  - report `AccessOnNonStruct` for `size(5).m` (ExpressionTypeChecker.java:179);
  - report `AccessByIndexOnNonList` for `size(5)[0]` (ExpressionTypeChecker.java:167);
  - report a second `GetSizeOfNonList` for `size(size(5))` (ExpressionTypeChecker.java:206).
- The casts of found items to variable or function items are assumed to succeed: the model assumes every table is well keyed, each item stored under its own kind's key (`KeyOf`). The tables the checker fills itself are well keyed by `Put`. The root table and the struct member tables come from the name-collecting pass, which is not part of this model. An ill-keyed root entry, such as a variable key holding a function item, makes the source's cast throw, while the model's lookups treat the entry as absent.
- The model's parenthesised expression holds one expression. The source's holds a list, of which the visit looks only at the first (ExpressionTypeChecker.java:234).
- The item put into the setter's table is the same Java object whose type is later changed to a function pointer. The change is not observable after the setter's table is popped, so the model puts two separate values.
- A call statement in the source wraps a function-call node; the model's `CallStmt` carries the callee and the arguments and builds that call.
