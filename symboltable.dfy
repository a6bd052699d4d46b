/**
 * The two-level symbol table: an active scope, the enclosing (global) scope
 * saved while a subroutine body is parsed, and a running frame-offset
 * counter.  Each scope is a hash table from names to identifier properties.
 *
 * The pure part (SymState and the functions over it) states what each
 * operation does to the scopes; the class SymbolTable holds the hash table
 * objects and is proved to follow it.
 */
module SymbolTable {
  import opened Wrappers
  import opened ValTypes
  import HashTable

  type Name = seq<char>

  /** What the table records for a name: its type, frame offset and parameter types. */
  datatype IdProp = IdProp(vtype: ValType, offset: nat, params: seq<ValType>)

  // ---------------------------------------------------------------------
  // Hashing and key comparison
  // ---------------------------------------------------------------------

  /**
   * The value a key character contributes: its low eight bits read as a
   * signed `char` and widened to 32 bits.
   */
  function CharValue(c: char): bv32 {
    var b := (c as int) % 256;
    if b < 128 then b as bv32 else (b + 0xFFFF_FF00) as bv32
  }

  /** The shift-xor fold over a key: h := (h << 5) ^ c, from the first character on. */
  function ShiftFold(s: Name): bv32 {
    if s == [] then 0 else (ShiftFold(s[..|s| - 1]) << 5) ^ CharValue(s[|s| - 1])
  }

  /**
   * shift_hash as the source computes it, with a loop over the key; it is
   * proved to agree with ShiftHashFn, the function the tables are given.
   */
  method ShiftHash(key: Name, size: nat) returns (h: nat)
    requires 0 < size
    ensures h < size
    ensures h == ShiftHashFn(key, size)
  {
    var hash: bv32 := 0;
    var i := 0;
    while i < |key|
      invariant 0 <= i <= |key|
      invariant hash == ShiftFold(key[..i])
    {
      assert key[..i + 1][..i] == key[..i];
      hash := (hash << 5) ^ CharValue(key[i]);
      i := i + 1;
    }
    assert key[..i] == key;
    h := (hash as int) % size;
  }

  /** The hash function the symbol table gives its hash tables. */
  const ShiftHashFn: (Name, nat) -> nat :=
    (k: Name, n: nat) => if n == 0 then 0 else (ShiftFold(k) as int) % n

  lemma ShiftHashFnOk()
    ensures HashTable.HashOk(ShiftHashFn)
  {
  }

  /** strcmp on keys, its sign normalised to -1, 0 or 1: a sorts before, equal to or after b. */
  function KeyCompare(a: Name, b: Name): (r: int)
    ensures r == 0 <==> a == b
    ensures -1 <= r <= 1
  {
    if a == [] && b == [] then 0
    else if a == [] then -1
    else if b == [] then 1
    else if a[0] < b[0] then -1
    else if a[0] > b[0] then 1
    else
      var r := KeyCompare(a[1..], b[1..]);
      assert r == 0 ==> a == [a[0]] + a[1..] == [b[0]] + b[1..] == b;
      r
  }

  /** Swapping the keys negates the comparison. */
  lemma {:induction false} KeyCompareAntisymmetric(a: Name, b: Name)
    ensures KeyCompare(b, a) == -KeyCompare(a, b)
  {
    if a != [] && b != [] && a[0] == b[0] {
      KeyCompareAntisymmetric(a[1..], b[1..]);
    }
  }

  // ---------------------------------------------------------------------
  // The scopes as values
  // ---------------------------------------------------------------------

  /**
   * The saved-table slot: empty, pointing at the very table that is active
   * (as it is after a subroutine is closed), or holding a separate table.
   */
  datatype Enclosing = NoEnclosing | SameAsActive | Saved(table: map<Name, IdProp>)

  /** The active table (None when it has been released), the saved table and the offset counter. */
  datatype SymState = SymState(active: Option<map<Name, IdProp>>, enclosing: Enclosing, offset: nat)

  /** The maximum load factor of every scope's hash table, 0.75. */
  const LoadNum: nat := 3
  const LoadDen: nat := 4

  /** Initialisation: an empty global scope, nothing saved, offset 1. */
  function InitState(): (s: SymState)
    ensures s.active == Some(map[]) && s.enclosing == NoEnclosing && s.offset == 1
  {
    SymState(Some(map[]), NoEnclosing, 1)
  }

  /**
   * Name lookup: the active scope first; otherwise the saved scope, whose
   * entry is returned only when it denotes a subroutine.
   */
  function Find(s: SymState, id: Name): Option<IdProp> {
    if s.active.Some? && id in s.active.value then Some(s.active.value[id])
    else match s.enclosing
      case Saved(m) => if id in m && IsCallableType(m[id].vtype) then Some(m[id]) else None
      case _ => None
  }

  /**
   * Opening a subroutine: register `id` in the active scope, save that scope
   * and start an empty local one with the offset reset to 1.
   */
  function Open(s: SymState, id: Name, prop: IdProp): (bool, SymState) {
    if s.active.None? || id in s.active.value then (false, s)
    else (true, SymState(Some(map[]), Saved(s.active.value[id := prop]), 1))
  }

  /**
   * Inserting a name into the active scope.  A variable receives the current
   * offset as its slot and advances the counter; a subroutine takes no slot.
   */
  function Insert(s: SymState, id: Name, prop: IdProp): (bool, SymState) {
    if s.active.None? || id in s.active.value then (false, s)
    else if IsCallableType(prop.vtype) then
      (true, s.(active := Some(s.active.value[id := prop])))
    else
      (true, SymState(Some(s.active.value[id := prop.(offset := s.offset)]), s.enclosing, s.offset + 1))
  }

  /**
   * Closing a subroutine: the saved table becomes the active one, the saved
   * slot still points at it, and the offset is reset to 1.
   */
  function Close(s: SymState): SymState {
    if s.active.None? then SymState(None, s.enclosing, 1)
    else match s.enclosing
      case NoEnclosing => SymState(None, NoEnclosing, 1)
      case SameAsActive => SymState(s.active, SameAsActive, 1)
      case Saved(m) => SymState(Some(m), SameAsActive, 1)
  }

  /** Releasing the active table; a saved table that was the same one keeps its contents. */
  function Release(s: SymState): SymState {
    match s.enclosing
    case SameAsActive =>
      SymState(None, if s.active.Some? then Saved(s.active.value) else NoEnclosing, s.offset)
    case _ => SymState(None, s.enclosing, s.offset)
  }

  /** Every subroutine entry records at least one parameter type. */
  ghost predicate CallablesHaveParams(s: SymState) {
    && (s.active.Some? ==> forall id :: id in s.active.value && IsCallableType(s.active.value[id].vtype)
                                     ==> |s.active.value[id].params| > 0)
    && (s.enclosing.Saved? ==> forall id :: id in s.enclosing.table && IsCallableType(s.enclosing.table[id].vtype)
                                          ==> |s.enclosing.table[id].params| > 0)
  }

  // ---------------------------------------------------------------------
  // The symbol table object
  // ---------------------------------------------------------------------

  class SymbolTable {
    var table: HashTable.HashTab?<Name, IdProp>
    var savedTable: HashTable.HashTab?<Name, IdProp>
    var currOffset: nat
    /** The scopes this object holds, as a value. */
    ghost var state: SymState
    ghost var Repr: set<object>

    ghost predicate TableOk(t: HashTable.HashTab<Name, IdProp>)
      reads this, Repr
    {
      && t in Repr && t.Repr <= Repr && this !in t.Repr && t.Valid()
      && t.hash == ShiftHashFn && t.loadNum == LoadNum && t.loadDen == LoadDen
    }

    ghost predicate Valid()
      reads this, Repr
      ensures Valid() ==> this in Repr
    {
      && this in Repr
      && (table != null ==> TableOk(table))
      && (savedTable != null ==> TableOk(savedTable))
      && (table != null && savedTable != null && table != savedTable ==> table.Repr !! savedTable.Repr)
      && state == SymState(
           if table == null then None else Some(table.contents),
           if savedTable == null then NoEnclosing
           else if savedTable == table then SameAsActive
           else Saved(savedTable.contents),
           currOffset)
    }

    /** init_symbol_table */
    constructor Init()
      ensures Valid() && fresh(Repr)
      ensures state == InitState()
    {
      ShiftHashFnOk();
      var t := new HashTable.HashTab<Name, IdProp>.Init(LoadNum, LoadDen, ShiftHashFn);
      table := t;
      savedTable := null;
      currOffset := 1;
      state := InitState();
      Repr := {this} + t.Repr;
    }

    /** find_name */
    method FindName(id: Name) returns (r: Option<IdProp>)
      requires Valid()
      ensures r == Find(state, id)
    {
      r := None;
      if table != null {
        r := table.Search(Some(id));
      }
      if r.None? && savedTable != null {
        r := savedTable.Search(Some(id));
        if r.Some? && !IsCallableType(r.value.vtype) {
          r := None;
        }
      }
    }

    /** get_variables_width */
    method GetVariablesWidth() returns (w: nat)
      requires Valid()
      ensures w == state.offset
    {
      w := currOffset;
    }

    /** Inserts into the active table; the saved table, if separate, is left alone. */
    method InsertActive(id: Name, prop: IdProp) returns (status: HashTable.InsertStatus)
      requires Valid() && table != null
      modifies Repr
      ensures Valid() && fresh(Repr - old(Repr))
      ensures table == old(table) && savedTable == old(savedTable) && currOffset == old(currOffset)
      ensures status != HashTable.Failure
      ensures status == HashTable.Success <==> id !in old(table.contents)
      ensures table.contents == if status == HashTable.Success then old(table.contents)[id := prop] else old(table.contents)
      ensures savedTable != null && savedTable != table ==> savedTable.contents == old(savedTable.contents)
    {
      var t, s := table, savedTable;
      status := t.Insert(Some(id), Some(prop));
      Repr := Repr + t.Repr;
      state := state.(active := Some(t.contents));
      if s != null && s != t {
        assert s.Repr !! old(t.Repr);
        assert s.Valid();
        assert s.Repr !! t.Repr;
      }
    }

    /** Moves the offset counter on by one slot. */
    method Advance()
      requires Valid()
      modifies this
      ensures Valid() && Repr == old(Repr)
      ensures state == old(state).(offset := old(state).offset + 1)
    {
      currOffset := currOffset + 1;
      state := state.(offset := state.offset + 1);
    }

    /** insert_name */
    method InsertName(id: Name, prop: IdProp) returns (ok: bool)
      requires Valid()
      modifies Repr
      ensures Valid() && fresh(Repr - old(Repr))
      ensures ok == Insert(old(state), id, prop).0
      ensures state == Insert(old(state), id, prop).1
    {
      if table == null {
        return false;
      }
      ghost var s0 := state;
      var stored := if IsCallableType(prop.vtype) then prop else prop.(offset := currOffset);
      var status := InsertActive(id, stored);
      if status != HashTable.Success {
        return false;
      }
      ghost var s1 := state;
      assert s1 == s0.(active := Some(s0.active.value[id := stored]));
      if !IsCallableType(prop.vtype) {
        Advance();
      }
      return true;
    }

    /** Saves the active table as the enclosing one and starts an empty local scope. */
    method PushScope()
      requires Valid() && table != null
      modifies this
      ensures Valid() && fresh(Repr - old(Repr))
      ensures state == SymState(Some(map[]), Saved(old(table.contents)), 1)
    {
      savedTable := table;
      ShiftHashFnOk();
      var t := new HashTable.HashTab<Name, IdProp>.Init(LoadNum, LoadDen, ShiftHashFn);
      table := t;
      Repr := Repr + t.Repr;
      currOffset := 1;
      state := SymState(Some(map[]), Saved(savedTable.contents), 1);
    }

    /** open_subroutine */
    method OpenSubroutine(id: Name, prop: IdProp) returns (ok: bool)
      requires Valid()
      modifies Repr
      ensures Valid() && fresh(Repr - old(Repr))
      ensures ok == Open(old(state), id, prop).0
      ensures state == Open(old(state), id, prop).1
    {
      if table == null {
        return false;
      }
      ghost var s0 := state;
      var status := InsertActive(id, prop);
      if status != HashTable.Success {
        assert state == s0;
        return false;
      }
      PushScope();
      return true;
    }

    /** release_symbol_table */
    method ReleaseSymbolTable()
      requires Valid()
      modifies this
      ensures Valid() && Repr == old(Repr)
      ensures state == Release(old(state))
    {
      if table != null {
        table := null;
      }
      state := Release(state);
    }

    /** close_subroutine */
    method CloseSubroutine()
      requires Valid()
      modifies this
      ensures Valid() && Repr == old(Repr)
      ensures state == Close(old(state))
    {
      if table != null {
        ReleaseSymbolTable();
        table := savedTable;
      }
      currOffset := 1;
      state := Close(old(state));
    }
  }
}
