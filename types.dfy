/** The checker's types and the relations that compare them.

    `NoType` is the poison value the checker synthesises after an error so that
    enclosing expressions stay silent. `Compatible` is the fully recursive
    relation used for assignment statements, returns, initialisers and
    conditions; the head-only relations further down are the looser tests the
    expression checker uses for calls, list appends and assignment expressions. */
module Types {

  datatype Type =
    | Int
    | Bool
    | Void
    | NoType
    | Struct(name: string)
    | List(elem: Type)
    | Fptr(args: seq<Type>, ret: Type)

  /** Both types have the same constructor (the source compares their classes). */
  predicate SameHead(a: Type, b: Type) {
    || (a.Int? && b.Int?)
    || (a.Bool? && b.Bool?)
    || (a.Void? && b.Void?)
    || (a.NoType? && b.NoType?)
    || (a.Struct? && b.Struct?)
    || (a.List? && b.List?)
    || (a.Fptr? && b.Fptr?)
  }

  /** `recursiveCompare`: NoType is compatible with anything, structs compare
      by name, lists by element type and function pointers by arity, return
      type and every argument. */
  predicate Compatible(a: Type, b: Type)
    decreases a
  {
    if a.NoType? || b.NoType? then true
    else if !SameHead(a, b) then false
    else match a
      case Struct(n) => n == b.name
      case List(e) => Compatible(e, b.elem)
      case Fptr(args, ret) =>
        && |args| == |b.args|
        && Compatible(ret, b.ret)
        && forall i :: 0 <= i < |args| ==> Compatible(args[i], b.args[i])
      case _ => true
  }

  /** NoType absorbs: it is compatible with every type on either side, so an
      earlier failure never causes a second mismatch. */
  lemma NoTypeAbsorbs(a: Type)
    ensures Compatible(a, NoType) && Compatible(NoType, a)
  {
  }

  /** Different constructors are never compatible unless one side is NoType. */
  lemma DifferentHeadsIncompatible(a: Type, b: Type)
    requires !a.NoType? && !b.NoType? && !SameHead(a, b)
    ensures !Compatible(a, b)
  {
  }

  /** `Compatible` is reflexive, on every type and not only well-formed ones;
      so a function identifier reified as `Fptr(args, ret)` is compatible with
      its declared signature. */
  lemma {:induction false} CompatibleReflexive(a: Type)
    ensures Compatible(a, a)
    decreases a
  {
    match a
    case List(e) => CompatibleReflexive(e);
    case Fptr(args, ret) =>
      CompatibleReflexive(ret);
      forall i | 0 <= i < |args| ensures Compatible(args[i], args[i]) {
        CompatibleReflexive(args[i]);
      }
    case _ =>
  }

  /** `Compatible` is symmetric. */
  lemma {:induction false} CompatibleSymmetric(a: Type, b: Type)
    ensures Compatible(a, b) == Compatible(b, a)
    decreases a
  {
    if !a.NoType? && !b.NoType? && SameHead(a, b) {
      match a
      case List(e) => CompatibleSymmetric(e, b.elem);
      case Fptr(args, ret) =>
        CompatibleSymmetric(ret, b.ret);
        if |args| == |b.args| {
          forall i | 0 <= i < |args| ensures Compatible(args[i], b.args[i]) == Compatible(b.args[i], args[i]) {
            CompatibleSymmetric(args[i], b.args[i]);
          }
        }
      case _ =>
    }
  }

  /** Because NoType absorbs, `Compatible` is not transitive. */
  lemma CompatibleNotTransitive()
    ensures Compatible(Int, NoType) && Compatible(NoType, Bool) && !Compatible(Int, Bool)
  {
  }

  /** Types that `compareTypeArrayList` accepts at a position: Bool, Int,
      Struct, List or Fptr (never Void or NoType). */
  predicate ValueHead(t: Type) {
    t.Int? || t.Bool? || t.Struct? || t.List? || t.Fptr?
  }

  /** One position of `compareTypeArrayList`: the two types have the same
      value constructor; their contents are not looked at. */
  predicate CallSiteMatch(formal: Type, actual: Type) {
    ValueHead(formal) && SameHead(formal, actual)
  }

  /** Call-site compatibility: same arity and every position head-equal. */
  predicate ArgsMatch(formals: seq<Type>, actuals: seq<Type>) {
    |formals| == |actuals| && forall i :: 0 <= i < |formals| ==> CallSiteMatch(formals[i], actuals[i])
  }

  /** `compareListType` on the two element types: both Int, Bool, Struct or
      List; function pointers, Void and NoType elements never match. */
  predicate ListElemsMatch(a: Type, b: Type) {
    SameHead(a, b) && (a.Int? || a.Bool? || a.Struct? || a.List?)
  }

  /** `compareFunctionPointer`: the right side's return type has the left
      side's constructor (no test when the left one is NoType), the arities
      agree and the arguments match position by position on the head only. */
  predicate FptrAssignable(a: Type, b: Type)
    requires a.Fptr? && b.Fptr?
  {
    && (a.ret.NoType? || SameHead(a.ret, b.ret))
    && ArgsMatch(a.args, b.args)
  }

  /** Head-only call-site matching is symmetric. */
  lemma ArgsMatchSymmetric(xs: seq<Type>, ys: seq<Type>)
    ensures ArgsMatch(xs, ys) == ArgsMatch(ys, xs)
  {
  }

  /** A NoType actual is always a mismatch at a call site. */
  lemma NoTypeActualMismatches(formals: seq<Type>, actuals: seq<Type>, i: nat)
    requires i < |actuals| && actuals[i].NoType?
    ensures !ArgsMatch(formals, actuals)
  {
  }

  /** For function pointers whose arguments are all value types, the
      recursive relation implies the head-only one used by assignment
      expressions. */
  lemma CompatibleFptrIsAssignable(a: Type, b: Type)
    requires a.Fptr? && b.Fptr?
    requires forall i :: 0 <= i < |a.args| ==> ValueHead(a.args[i])
    requires Compatible(a, b)
    requires !b.ret.NoType?
    requires forall i :: 0 <= i < |b.args| ==> !b.args[i].NoType?
    ensures FptrAssignable(a, b)
  {
    assert |a.args| == |b.args|;
    forall i | 0 <= i < |a.args| ensures CallSiteMatch(a.args[i], b.args[i]) {
      assert Compatible(a.args[i], b.args[i]);
    }
  }

  /** The converse fails: the head-only test accepts argument lists whose
      element types differ. */
  lemma AssignableNotCompatible()
    ensures FptrAssignable(Fptr([List(Int)], Int), Fptr([List(Bool)], Int))
    ensures !Compatible(Fptr([List(Int)], Int), Fptr([List(Bool)], Int))
  {
    var a, b := Fptr([List(Int)], Int), Fptr([List(Bool)], Int);
    assert a.args[0] == List(Int) && b.args[0] == List(Bool);
    assert !Compatible(a.args[0], b.args[0]);
  }

  /** Lists of function pointers never match under `compareListType`, even
      with identical signatures. */
  lemma ListOfFptrRejected(s: Type)
    requires s.Fptr?
    ensures !ListElemsMatch(s, s)
  {
  }
}
