/** The small Option type used where the source throws ItemNotFoundException
    or leaves a node field null. */
module Wrappers {
  datatype Option<+T> = None | Some(value: T)
}

/** The symbol-table protocol.

    A table maps prefixed keys to items: the three key constructors play the
    role of the source's key prefixes for variables, functions and structs, so
    an item of one kind never shadows a name of another kind. The global stack
    of tables is a `seq<Table>` whose first element is the root table (all
    top-level structs and functions) and whose last element is the current
    top. Every table the checker pushes has the current top as parent, or the
    root while the stack holds only the root, so walking the stack from its
    last element down to the root is the same walk as the source's parent
    chain. */
module Symbols {
  import opened Wrappers
  import opened Types

  datatype Key = VarKey(name: string) | FuncKey(name: string) | StructKey(name: string)

  /** A struct item owns the table of its members, whose parent is the root. */
  datatype Item =
    | VarItem(name: string, ty: Type)
    | FuncItem(name: string, argTypes: seq<Type>, returnType: Type)
    | StructItem(name: string, members: Table)

  type Table = map<Key, Item>

  /** The key an item is stored under: its kind's prefix and its name. */
  function KeyOf(it: Item): Key {
    match it
    case VarItem(n, _) => VarKey(n)
    case FuncItem(n, _, _) => FuncKey(n)
    case StructItem(n, _) => StructKey(n)
  }

  /** `SymbolTable.put`: inserts into one table; a key that is already present
      keeps its first definition and the new item is silently dropped. */
  function Put(t: Table, it: Item): (r: Table)
    ensures r.Keys == t.Keys + {KeyOf(it)}
    ensures KeyOf(it) !in t ==> r[KeyOf(it)] == it
    ensures forall k :: k in t ==> r[k] == t[k]
  {
    if KeyOf(it) in t then t else t[KeyOf(it) := it]
  }

  /** Putting into the top table of the stack. */
  function PutTop(ts: seq<Table>, it: Item): (r: seq<Table>)
    requires |ts| > 0
    ensures |r| == |ts| && r[..|ts| - 1] == ts[..|ts| - 1]
    ensures r[|ts| - 1] == Put(ts[|ts| - 1], it)
  {
    ts[|ts| - 1 := Put(ts[|ts| - 1], it)]
  }

  /** `getItem` from the top of the stack: the innermost table that holds the
      key decides; `None` when no table up to the root holds it. */
  function Lookup(ts: seq<Table>, k: Key): (r: Option<Item>)
    ensures r.None? <==> forall i :: 0 <= i < |ts| ==> k !in ts[i]
    decreases |ts|
  {
    if |ts| == 0 then None
    else if k in ts[|ts| - 1] then Some(ts[|ts| - 1][k])
    else
      var below := ts[..|ts| - 1];
      assert forall i :: 0 <= i < |below| ==> below[i] == ts[i];
      Lookup(below, k)
  }

  /** A found item comes from the innermost table that holds the key: no
      table above it holds the key. */
  lemma {:induction false} LookupInnermost(ts: seq<Table>, k: Key)
    requires Lookup(ts, k).Some?
    ensures exists i :: 0 <= i < |ts| && k in ts[i] && ts[i][k] == Lookup(ts, k).value &&
                        forall j :: i < j < |ts| ==> k !in ts[j]
    decreases |ts|
  {
    var n := |ts| - 1;
    if k in ts[n] {
      assert k in ts[n] && ts[n][k] == Lookup(ts, k).value;
    } else {
      var below := ts[..n];
      assert Lookup(ts, k) == Lookup(below, k);
      LookupInnermost(below, k);
      var i :| 0 <= i < |below| && k in below[i] && below[i][k] == Lookup(below, k).value &&
               forall j :: i < j < |below| ==> k !in below[j];
      assert ts[i] == below[i];
      forall j | i < j < |ts| ensures k !in ts[j] {
        if j < n {
          assert ts[j] == below[j];
        }
      }
    }
  }

  /** A variable lookup; the source casts the item it finds to a variable
      item, which every table built by `Put` guarantees for a variable key. */
  function LookupVar(ts: seq<Table>, name: string): Option<Type> {
    match Lookup(ts, VarKey(name))
    case Some(VarItem(_, t)) => Some(t)
    case _ => None
  }

  /** Putting an item into the top table makes it the innermost binding of
      its key unless the top table already had one (first definition wins). */
  lemma {:induction false} LookupAfterPut(ts: seq<Table>, it: Item)
    requires |ts| > 0
    ensures var top := ts[|ts| - 1];
            Lookup(PutTop(ts, it), KeyOf(it)) == Some(if KeyOf(it) in top then top[KeyOf(it)] else it)
  {
    var r := PutTop(ts, it);
    assert KeyOf(it) in r[|r| - 1];
  }

  /** A pushed table shadows nothing until something is put into it: lookups
      through the stack with an empty top agree with lookups without it. */
  lemma {:induction false} LookupThroughEmptyTop(ts: seq<Table>, k: Key)
    ensures Lookup(ts + [map[]], k) == Lookup(ts, k)
  {
    assert (ts + [map[]])[..|ts|] == ts;
  }
}
