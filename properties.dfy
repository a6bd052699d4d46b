/**
 * What the compiler guarantees, stated over the grammar and the pure
 * symbol-table functions: how names become visible, the type rules of the
 * statements and expressions, what each declaration does to the scopes, and
 * the growth sequence of the hash tables.
 */
module Properties {
  import opened Wrappers
  import opened ValTypes
  import opened Tokens
  import ST = SymbolTable
  import opened Grammar
  import HashTable

  // ---------------------------------------------------------------------
  // Scopes
  // ---------------------------------------------------------------------

  /**
   * After a successful insert the name is visible with its properties,
   * where a variable receives the current offset as its slot; no other
   * name changes visibility.
   */
  lemma FindAfterInsert(s: ST.SymState, id: ST.Name, prop: ST.IdProp, x: ST.Name)
    requires ST.Insert(s, id, prop).0
    ensures ST.Find(ST.Insert(s, id, prop).1, id)
            == Some(if IsCallableType(prop.vtype) then prop else prop.(offset := s.offset))
    ensures x != id ==> ST.Find(ST.Insert(s, id, prop).1, x) == ST.Find(s, x)
  {
  }

  /**
   * An insert fails exactly when the active table is gone or already holds
   * the name, and a failed insert changes nothing.
   */
  lemma InsertRefusesDuplicates(s: ST.SymState, id: ST.Name, prop: ST.IdProp)
    ensures !ST.Insert(s, id, prop).0 <==> s.active.None? || id in s.active.value
    ensures !ST.Insert(s, id, prop).0 ==> ST.Insert(s, id, prop).1 == s
  {
  }

  /**
   * Inside a newly opened subroutine only the subroutines of the enclosing
   * scope are visible, the new one included; its variables are not.
   */
  lemma OpenVisibility(s: ST.SymState, id: ST.Name, prop: ST.IdProp, x: ST.Name)
    requires ST.Open(s, id, prop).0
    ensures var m := s.active.value[id := prop];
            ST.Find(ST.Open(s, id, prop).1, x)
            == if x in m && IsCallableType(m[x].vtype) then Some(m[x]) else None
  {
  }

  /**
   * Closing the local scope of a subroutine, whatever it holds, makes the
   * enclosing scope, with the subroutine registered, active again.
   */
  lemma CloseAfterOpen(s: ST.SymState, id: ST.Name, prop: ST.IdProp, local: ST.SymState)
    requires ST.Open(s, id, prop).0
    requires local.active.Some? && local.enclosing == ST.Open(s, id, prop).1.enclosing
    ensures ST.Close(local) == ST.SymState(Some(s.active.value[id := prop]), ST.SameAsActive, 1)
  {
  }

  /** Every variable of the active scope has its own frame slot, below the offset counter. */
  ghost predicate DistinctSlots(sc: ST.SymState) {
    && 1 <= sc.offset
    && (sc.active.Some? ==>
          && (forall x :: x in sc.active.value && !IsCallableType(sc.active.value[x].vtype)
                ==> 1 <= sc.active.value[x].offset < sc.offset)
          && (forall x, y :: x in sc.active.value && y in sc.active.value && x != y
                && !IsCallableType(sc.active.value[x].vtype) && !IsCallableType(sc.active.value[y].vtype)
                ==> sc.active.value[x].offset != sc.active.value[y].offset))
  }

  /** Inserting a name keeps every variable in a slot of its own. */
  lemma InsertKeepsDistinctSlots(s: ST.SymState, id: ST.Name, prop: ST.IdProp)
    requires DistinctSlots(s)
    ensures DistinctSlots(ST.Insert(s, id, prop).1)
  {
  }

  /**
   * sc2 is sc with variables added to its active scope: no entry removed or
   * changed, no subroutine added, the enclosing scope untouched and the
   * offset counter not lowered.
   */
  ghost predicate Extends(sc: ST.SymState, sc2: ST.SymState) {
    && sc.active.Some? && sc2.active.Some?
    && sc2.enclosing == sc.enclosing
    && sc.offset <= sc2.offset
    && (forall x :: x in sc.active.value ==> x in sc2.active.value && sc2.active.value[x] == sc.active.value[x])
    && (forall x :: x in sc2.active.value && x !in sc.active.value ==> !IsCallableType(sc2.active.value[x].vtype))
  }

  // ---------------------------------------------------------------------
  // Declarations
  // ---------------------------------------------------------------------

  /** Declaring one variable adds it in the next slot and keeps the slots distinct. */
  lemma DeclareVarEffect(sc: ST.SymState, id: ST.Name, t: ValType)
    requires Scoped(sc) && !IsCallableType(t) && DeclareVar(sc, id, t).Ok?
    ensures Extends(sc, DeclareVar(sc, id, t).value)
    ensures DistinctSlots(sc) ==> DistinctSlots(DeclareVar(sc, id, t).value)
  {
  }

  /** The {"," id} ";" tail of a variable definition only adds variables. */
  lemma {:induction false} VardefRestEffect(toks: seq<Token>, p: nat, sc: ST.SymState, t: ValType)
    requires p <= |toks| && Scoped(sc) && !IsCallableType(t) && sc.active.Some?
    requires VardefRest(toks, p, sc, t).Ok?
    ensures Extends(sc, VardefRest(toks, p, sc, t).value.1)
    ensures DistinctSlots(sc) ==> DistinctSlots(VardefRest(toks, p, sc, t).value.1)
    decreases |toks| - p
  {
    if Peek(toks, p) == TComma {
      var idr := ExpectId(toks, p + 1).value;
      var sc1 := DeclareVar(sc, idr.0, t).value;
      DeclareVarEffect(sc, idr.0, t);
      VardefRestEffect(toks, idr.1, sc1, t);
    }
  }

  /** A variable definition only adds variables, each in a slot of its own. */
  lemma VardefEffect(toks: seq<Token>, p: nat, sc: ST.SymState)
    requires p <= |toks| && Scoped(sc) && Vardef(toks, p, sc).Ok?
    ensures Extends(sc, Vardef(toks, p, sc).value.1)
    ensures DistinctSlots(sc) ==> DistinctSlots(Vardef(toks, p, sc).value.1)
  {
    var ty := Type(toks, p, TypeNone).value;
    var idr := ExpectId(toks, ty.1).value;
    DeclaredTypeShape(ty.0);
    var sc1 := DeclareVar(sc, idr.0, ty.0).value;
    DeclareVarEffect(sc, idr.0, ty.0);
    VardefRestEffect(toks, idr.1, sc1, ty.0);
  }

  /**
   * A body declares only variables of its own scope: the scope it starts
   * with survives unchanged inside the one it ends with.
   */
  lemma {:induction false} BodyEffect(toks: seq<Token>, p: nat, sc: ST.SymState, rt: ValType)
    requires p <= |toks| && Scoped(sc) && sc.active.Some? && Body(toks, p, sc, rt).Ok?
    ensures Extends(sc, Body(toks, p, sc, rt).value.1)
    ensures DistinctSlots(sc) ==> DistinctSlots(Body(toks, p, sc, rt).value.1)
    decreases |toks| - p
  {
    if Peek(toks, p) == TBool || Peek(toks, p) == TInt {
      var v := Vardef(toks, p, sc).value;
      VardefEffect(toks, p, sc);
      BodyEffect(toks, v.0, v.1, rt);
    }
  }

  /**
   * The parameters are declared in order: the i-th takes the slot
   * offset + i, and nothing else is added.
   */
  lemma {:induction false} InstallParamsEffect(sc: ST.SymState, ps: seq<Param>)
    requires Scoped(sc) && sc.active.Some?
    requires forall i :: 0 <= i < |ps| ==> IsDeclaredType(ps[i].ptype)
    requires InstallParams(sc, ps).Ok?
    ensures Extends(sc, InstallParams(sc, ps).value)
    ensures DistinctSlots(sc) ==> DistinctSlots(InstallParams(sc, ps).value)
    ensures InstallParams(sc, ps).value.offset == sc.offset + |ps|
    ensures forall i :: 0 <= i < |ps| ==>
              && ps[i].id in InstallParams(sc, ps).value.active.value
              && InstallParams(sc, ps).value.active.value[ps[i].id] == ST.IdProp(ps[i].ptype, sc.offset + i, [])
    decreases |ps|
  {
    if ps != [] {
      DeclaredTypeShape(ps[0].ptype);
      var sc1 := DeclareVar(sc, ps[0].id, ps[0].ptype).value;
      DeclareVarEffect(sc, ps[0].id, ps[0].ptype);
      InstallParamsEffect(sc1, ps[1..]);
      var r := InstallParams(sc, ps).value;
      forall i | 0 <= i < |ps|
        ensures ps[i].id in r.active.value && r.active.value[ps[i].id] == ST.IdProp(ps[i].ptype, sc.offset + i, [])
      {
        if 0 < i {
          assert ps[i] == ps[1..][i - 1];
        }
      }
    }
  }

  /**
   * Registering a subroutine and processing its parameters and body leaves
   * the enclosing scope active again with exactly one new entry, the
   * subroutine, and the offset counter reset.
   */
  lemma {:induction false} EnterEffect(toks: seq<Token>, p: nat, sc: ST.SymState, sub: ST.Name, ps: seq<Param>, rt: ValType)
    requires p <= |toks| && Scoped(sc) && 0 < |ps|
    requires forall i :: 0 <= i < |ps| ==> IsDeclaredType(ps[i].ptype)
    requires Enter(toks, p, sc, sub, ps, rt).Ok?
    ensures sc.active.Some? && sub !in sc.active.value
    ensures Enter(toks, p, sc, sub, ps, rt).value.1
            == ST.SymState(Some(sc.active.value[sub := ST.IdProp(rt, sc.offset, ParamTypes(ps))]), ST.SameAsActive, 1)
  {
    var prop := ST.IdProp(rt, sc.offset, ParamTypes(ps));
    var entered := ST.Open(sc, sub, prop);
    OpenScoped(sc, sub, prop);
    InstallParamsEffect(entered.1, ps);
    var sc1 := InstallParams(entered.1, ps).value;
    var q := ExpectTok(toks, p, TColon).value;
    BodyEffect(toks, q, sc1, rt);
  }

  /** A subroutine whose name the scope already holds is a multiple definition. */
  lemma EnterDuplicate(toks: seq<Token>, p: nat, sc: ST.SymState, sub: ST.Name, ps: seq<Param>, rt: ValType)
    requires p <= |toks| && Scoped(sc) && 0 < |ps|
    requires forall i :: 0 <= i < |ps| ==> IsDeclaredType(ps[i].ptype)
    requires sc.active.Some? && sub in sc.active.value
    ensures Enter(toks, p, sc, sub, ps, rt) == Err(MultipleDefinition)
  {
  }

  /**
   * A subroutine definition adds its name, as a subroutine with the current
   * offset, to the scope it appears in, and nothing else.
   */
  lemma SubdefEffect(toks: seq<Token>, p: nat, sc: ST.SymState)
    requires p <= |toks| && Scoped(sc) && Subdef(toks, p, sc).Ok?
    ensures p < |toks| && sc.active.Some? && toks[p].lexeme !in sc.active.value
    ensures var s := Subdef(toks, p, sc).value.1;
            var sub := toks[p].lexeme;
            && s.enclosing == ST.SameAsActive && s.offset == 1
            && s.active.Some? && sub in s.active.value
            && s.active.value == sc.active.value[sub := s.active.value[sub]]
            && IsCallableType(s.active.value[sub].vtype) && s.active.value[sub].offset == sc.offset
  {
    var sub := ExpectId(toks, p).value;
    var q0 := ExpectTok(toks, sub.1, TLParen).value;
    var ps := Params(toks, q0).value;
    var q := ps.1;
    var ret := if Peek(toks, q) == TArrow then Type(toks, q + 1, TypeCallable) else Ok((TypeCallable, q));
    EnterEffect(toks, ret.value.1, sc, sub.0, ps.0, ret.value.0);
  }

  /**
   * The subroutine definitions add only subroutines to the global scope,
   * and leave the offset counter at 1.
   */
  lemma {:induction false} SubdefsEffect(toks: seq<Token>, p: nat, sc: ST.SymState)
    requires p <= |toks| && Scoped(sc) && sc.active.Some? && sc.offset == 1
    requires Subdefs(toks, p, sc).Ok?
    ensures var s := Subdefs(toks, p, sc).value.1;
            && s.active.Some? && s.offset == 1
            && (forall x :: x in sc.active.value ==> x in s.active.value && s.active.value[x] == sc.active.value[x])
            && (forall x :: x in s.active.value && x !in sc.active.value ==> IsCallableType(s.active.value[x].vtype))
    decreases |toks| - p
  {
    if Peek(toks, p) == TId {
      var s := Subdef(toks, p, sc).value;
      SubdefEffect(toks, p, sc);
      SubdefsEffect(toks, s.0, s.1);
    }
  }

  /**
   * After a whole program the global scope holds the subroutines and the
   * variables of main, and each of those variables has a frame slot of its
   * own.
   */
  lemma ProgramSlots(toks: seq<Token>)
    requires Program(toks).Ok?
    ensures Program(toks).value.active.Some? && DistinctSlots(Program(toks).value)
  {
    var q0 := ExpectTok(toks, 0, TProgram).value;
    var name := ExpectId(toks, q0).value;
    var q1 := ExpectTok(toks, name.1, TColon).value;
    var s := Subdefs(toks, q1, ST.InitState()).value;
    SubdefsEffect(toks, q1, ST.InitState());
    var m0 := ExpectTok(toks, s.0, TMain).value;
    var m1 := ExpectTok(toks, m0, TColon).value;
    BodyEffect(toks, m1, s.1, TypeNone);
  }

  /**
   * The main body must be followed by the end of the input; any other
   * token there is unreachable code.
   */
  lemma MainEndsInput(toks: seq<Token>, p: nat, sc: ST.SymState)
    requires p + 2 <= |toks| && Scoped(sc) && toks[p].kind == TMain && toks[p + 1].kind == TColon
    requires Body(toks, p + 2, sc, TypeNone).Ok?
    ensures MainPart(toks, p, sc).Ok? <==> Peek(toks, Body(toks, p + 2, sc, TypeNone).value.0) == TEOF
    ensures MainPart(toks, p, sc).Err? ==> MainPart(toks, p, sc).error == Unreachable
  {
  }

  // ---------------------------------------------------------------------
  // Type rules
  // ---------------------------------------------------------------------

  /**
   * An expression with a relational operator is BOOLEAN; its operands are
   * not arrays, "=" and "/=" need equal operand types and the orderings
   * INTEGER operands.  Without the operator an expression is its simple
   * expression.
   */
  lemma ExprTypes(toks: seq<Token>, p: nat, sc: ST.SymState)
    requires p <= |toks| && Scoped(sc) && Expr(toks, p, sc).Ok?
    ensures Simple(toks, p, sc).Ok?
    ensures var s := Simple(toks, p, sc).value;
            if IsRelop(Peek(toks, s.1)) then
              && s.1 < |toks| && Simple(toks, s.1 + 1, sc).Ok?
              && var t2 := Simple(toks, s.1 + 1, sc).value.0;
              && Expr(toks, p, sc).value.0 == TypeBoolean
              && !IsArray(s.0) && !IsArray(t2)
              && (toks[s.1].kind == TEq || toks[s.1].kind == TNe ==> t2 == s.0)
              && (toks[s.1].kind != TEq && toks[s.1].kind != TNe ==> s.0 == TypeInteger && t2 == TypeInteger)
            else Expr(toks, p, sc).value == s
  {
  }

  /**
   * A leading minus takes one INTEGER term that is not an array, and no
   * further addop term follows it in the same simple expression.
   */
  lemma NegationRule(toks: seq<Token>, p: nat, sc: ST.SymState)
    requires p < |toks| && toks[p].kind == TMinus && Scoped(sc)
    ensures Simple(toks, p, sc).Ok? <==> Term(toks, p + 1, sc).Ok? && Term(toks, p + 1, sc).value.0 == TypeInteger
    ensures Simple(toks, p, sc).Ok? ==> Simple(toks, p, sc) == Term(toks, p + 1, sc)
  {
  }

  /**
   * A term or simple expression whose first operand is followed by an
   * operator of its level has a first operand that is not an array.
   */
  lemma OperandsNotArrays(toks: seq<Token>, p: nat, sc: ST.SymState)
    requires p <= |toks| && Scoped(sc)
    ensures Term(toks, p, sc).Ok? && Factor(toks, p, sc).Ok? && IsMulop(Peek(toks, Factor(toks, p, sc).value.1))
            ==> !IsArray(Factor(toks, p, sc).value.0)
    ensures Simple(toks, p, sc).Ok? && Peek(toks, p) != TMinus && Term(toks, p, sc).Ok?
            && IsAddop(Peek(toks, Term(toks, p, sc).value.1))
            ==> !IsArray(Term(toks, p, sc).value.0)
  {
  }

  /**
   * One addop round succeeds exactly when its right term is not an array
   * and, for "or", both operands are exactly BOOLEAN, and otherwise both
   * are of the INTEGER kind.
   */
  lemma AddStepRule(toks: seq<Token>, p: nat, sc: ST.SymState, t0: ValType)
    requires p < |toks| && Scoped(sc)
    ensures AddStep(toks, p, sc, t0).Ok? <==>
            && Term(toks, p + 1, sc).Ok?
            && var t1 := Term(toks, p + 1, sc).value.0;
            && !IsArray(t1)
            && (toks[p].kind == TOr ==> t0 == TypeBoolean && t1 == TypeBoolean)
            && (toks[p].kind != TOr ==> IsIntegerType(t0) && IsIntegerType(t1))
  {
  }

  /**
   * One mulop round succeeds exactly when its right factor is not an array
   * and both operands are exactly BOOLEAN for "and", exactly INTEGER for
   * the others.
   */
  lemma MulStepRule(toks: seq<Token>, p: nat, sc: ST.SymState, t0: ValType)
    requires p < |toks| && Scoped(sc)
    ensures MulStep(toks, p, sc, t0).Ok? <==>
            && Factor(toks, p + 1, sc).Ok?
            && var t1 := Factor(toks, p + 1, sc).value.0;
            && !IsArray(t1)
            && (toks[p].kind == TAnd ==> t0 == TypeBoolean && t1 == TypeBoolean)
            && (toks[p].kind != TAnd ==> t0 == TypeInteger && t1 == TypeInteger)
  {
  }

  /**
   * The factor rules: a number is INTEGER, "true" and "false" are BOOLEAN,
   * "not" takes and yields a BOOLEAN that is not an array, a name must be
   * visible, and an indexed name must be an array and yields its element
   * type.
   */
  lemma FactorRules(toks: seq<Token>, p: nat, sc: ST.SymState)
    requires p < |toks| && Scoped(sc)
    ensures toks[p].kind == TNum ==> Factor(toks, p, sc) == Ok((TypeInteger, p + 1))
    ensures toks[p].kind == TTrue || toks[p].kind == TFalse ==> Factor(toks, p, sc) == Ok((TypeBoolean, p + 1))
    ensures toks[p].kind == TNot ==>
              (Factor(toks, p, sc).Ok? <==>
                 Factor(toks, p + 1, sc).Ok? && Factor(toks, p + 1, sc).value.0 == TypeBoolean)
    ensures toks[p].kind == TNot && Factor(toks, p, sc).Ok? ==> Factor(toks, p, sc).value.0 == TypeBoolean
    ensures toks[p].kind == TId && ST.Find(sc, toks[p].lexeme).None? ==> Factor(toks, p, sc) == Err(UnknownIdentifier)
    ensures toks[p].kind == TId && ST.Find(sc, toks[p].lexeme).Some? && Peek(toks, p + 1) == TLBrack
            && Factor(toks, p, sc).Ok? ==>
              var t := ST.Find(sc, toks[p].lexeme).value.vtype;
              IsArray(t) && Factor(toks, p, sc).value.0 == ElementType(t)
  {
    if toks[p].kind == TNot {
      assert Factor(toks, p, sc) == NotFactor(toks, p, sc);
    } else if toks[p].kind == TId {
      assert Factor(toks, p, sc) == IdFactor(toks, p, sc);
      if ST.Find(sc, toks[p].lexeme).Some? {
        assert IdFactor(toks, p, sc) == Designator(toks, p + 1, sc, ST.Find(sc, toks[p].lexeme).value);
      }
    }
  }

  /** An index is "[" simple "]" whose simple expression is exactly INTEGER. */
  lemma IndexRule(toks: seq<Token>, p: nat, sc: ST.SymState)
    requires p <= |toks| && Scoped(sc)
    ensures Index(toks, p, sc).Ok? <==>
              && Peek(toks, p) == TLBrack
              && Simple(toks, p + 1, sc).Ok? && Simple(toks, p + 1, sc).value.0 == TypeInteger
              && Peek(toks, Simple(toks, p + 1, sc).value.1) == TRBrack
    ensures Index(toks, p, sc).Ok? ==> Index(toks, p, sc).value == Simple(toks, p + 1, sc).value.1 + 1
  {
  }

  /** An if or while guard is an expression of type exactly BOOLEAN. */
  lemma GuardIsBoolean(toks: seq<Token>, p: nat, sc: ST.SymState)
    requires p <= |toks| && Scoped(sc) && Guard(toks, p, sc).Ok?
    ensures Expr(toks, p, sc).Ok? && Expr(toks, p, sc).value.0 == TypeBoolean
  {
  }

  /**
   * The type rules of an assignment: an unindexed target takes a value
   * with the same array flag, an indexed one a value of its element type
   * or any array of the same base kind, and a BOOLEAN or INTEGER target
   * needs a value of that kind.  A violation is reported as incompatible types.
   */
  lemma AssignCheckRule(t: ValType, target: ValType, declared: ValType, indexed: bool)
    ensures AssignCheck(t, target, declared, indexed).Ok? <==>
            && (indexed ==> IsArray(t) || t == target)
            && (!indexed ==> IsArray(t) == IsArray(declared))
            && (IsIntegerType(target) ==> IsIntegerType(t))
            && (IsBooleanType(target) ==> IsBooleanType(t))
    ensures AssignCheck(t, target, declared, indexed).Err? ==>
            AssignCheck(t, target, declared, indexed).error.IncompatibleTypes?
  {
  }

  /**
   * An assignment names a visible variable, and indexes it only when it is
   * an array; AssignCheckRule and AllocationRule give the rules for its
   * right-hand side.
   */
  lemma AssignRule(toks: seq<Token>, p: nat, sc: ST.SymState)
    requires p <= |toks| && Scoped(sc) && Assign(toks, p, sc).Ok?
    ensures p + 2 < |toks| && toks[p + 1].kind == TId && ST.Find(sc, toks[p + 1].lexeme).Some?
    ensures var t := ST.Find(sc, toks[p + 1].lexeme).value.vtype;
            !IsCallableType(t) && (toks[p + 2].kind == TLBrack ==> IsArray(t))
  {
  }

  /**
   * An allocation "array" simple is allowed only when the target itself is
   * an array, so never for an indexed target, and its size is an INTEGER.
   */
  lemma AllocationRule(toks: seq<Token>, p: nat, sc: ST.SymState, declared: ValType, indexed: bool)
    requires p < |toks| && toks[p].kind == TArray && Scoped(sc)
    ensures AssignSource(toks, p, sc, declared, indexed).Ok? <==>
            !indexed && IsArray(declared) && Simple(toks, p + 1, sc).Ok? && Simple(toks, p + 1, sc).value.0 == TypeInteger
    ensures (indexed || !IsArray(declared)) ==> AssignSource(toks, p, sc, declared, indexed) == Err(NotAnArray)
  {
  }

  /**
   * As the code is written, the element of an integer array may be given a
   * new array: "let a[0] = array 5" passes, where the corrected rule
   * reports that the target is not an array.
   */
  lemma IndexedAllocationAsWritten()
    ensures var toks := [Token(TArray, "array"), Token(TNum, "5")];
            && AssignSourceAsWritten(toks, 0, ST.InitState(), TypeInteger | TypeArray, true) == Ok(2)
            && AssignSource(toks, 0, ST.InitState(), TypeInteger | TypeArray, true) == Err(NotAnArray)
  {
    var toks := [Token(TArray, "array"), Token(TNum, "5")];
    var sc := ST.InitState();
    assert Factor(toks, 1, sc) == Ok((TypeInteger, 2));
    assert Term(toks, 1, sc) == Ok((TypeInteger, 2));
    assert Simple(toks, 1, sc) == Ok((TypeInteger, 2));
  }

  /**
   * input reads into a visible name that is indexed exactly when it is an
   * array.
   */
  lemma InputRule(toks: seq<Token>, p: nat, sc: ST.SymState)
    requires p <= |toks| && Scoped(sc) && Input(toks, p, sc).Ok?
    ensures p + 3 < |toks| && toks[p + 2].kind == TId && ST.Find(sc, toks[p + 2].lexeme).Some?
    ensures IsArray(ST.Find(sc, toks[p + 2].lexeme).value.vtype) <==> toks[p + 3].kind == TLBrack
  {
  }

  /** Every operand of output that is not a string is an expression that is not an array. */
  lemma OutputItemRule(toks: seq<Token>, p: nat, sc: ST.SymState)
    requires p <= |toks| && Scoped(sc) && OutputItem(toks, p, sc).Ok? && Peek(toks, p) != TStr
    ensures Expr(toks, p, sc).Ok? && !IsArray(Expr(toks, p, sc).value.0)
    ensures OutputItem(toks, p, sc).value == Expr(toks, p, sc).value.1
  {
  }

  /** A call statement names a visible procedure and passes it a valid argument list. */
  lemma CallNeedsProcedure(toks: seq<Token>, p: nat, sc: ST.SymState)
    requires p <= |toks| && Scoped(sc) && Call(toks, p, sc).Ok?
    ensures p < |toks| && toks[p].kind == TId && ST.Find(sc, toks[p].lexeme).Some?
    ensures var prop := ST.Find(sc, toks[p].lexeme).value;
            && IsProcedure(prop.vtype) && 0 < |prop.params|
            && ArgList(toks, p + 1, sc, prop) == Ok(Call(toks, p, sc).value)
  {
  }

  /**
   * The return rules: a procedure may not return, a function must return
   * a value whose type equals its return type up to the callable flag,
   * and the main body ignores what follows "return".
   */
  lemma ReturnRules(toks: seq<Token>, p: nat, sc: ST.SymState, rt: ValType)
    requires p < |toks| && toks[p].kind == TReturn && Scoped(sc)
    ensures IsProcedure(rt) ==> Return(toks, p, sc, rt) == Err(ReturnExpressionNotAllowed)
    ensures IsFunction(rt) && !StartsExpr(Peek(toks, p + 1)) ==>
              Return(toks, p, sc, rt) == Err(MissingReturnExpression)
    ensures IsFunction(rt) ==>
              (Return(toks, p, sc, rt).Ok? <==>
                 StartsExpr(Peek(toks, p + 1)) && Expr(toks, p + 1, sc).Ok?
                 && Expr(toks, p + 1, sc).value.0 | TypeCallable == rt | TypeCallable)
    ensures !IsCallableType(rt) ==> Return(toks, p, sc, rt) == Ok(p + 1)
  {
    if IsFunction(rt) && StartsExpr(Peek(toks, p + 1)) && Expr(toks, p + 1, sc).Ok? {
      SetReturnTypeEquality(Expr(toks, p + 1, sc).value.0, rt);
    }
  }

  // ---------------------------------------------------------------------
  // Argument lists
  // ---------------------------------------------------------------------

  /**
   * The index just past |ts| arguments "," expr starting at p, each of a
   * type compatible with the matching entry of ts, or None.
   */
  ghost function CommaArgs(toks: seq<Token>, p: nat, sc: ST.SymState, ts: seq<ValType>): Option<nat>
    requires p <= |toks| && Scoped(sc)
    decreases |ts|
  {
    if ts == [] then Some(p)
    else if p < |toks| && toks[p].kind == TComma && Argument(toks, p, sc, ts[0]).Ok? then
      CommaArgs(toks, Argument(toks, p, sc, ts[0]).value, sc, ts[1..])
    else None
  }

  /**
   * The tail of an argument list after i arguments is exactly the remaining
   * parameters' worth of arguments and a closing parenthesis.
   */
  lemma {:induction false} ArgRestExact(toks: seq<Token>, p: nat, sc: ST.SymState, prop: ST.IdProp, i: nat)
    requires p <= |toks| && Scoped(sc) && 0 < i <= |prop.params|
    ensures ArgRest(toks, p, sc, prop, i).Ok? <==>
            var c := CommaArgs(toks, p, sc, prop.params[i..]);
            c.Some? && c.value < |toks| && toks[c.value].kind == TRParen
    ensures ArgRest(toks, p, sc, prop, i).Ok? ==>
            ArgRest(toks, p, sc, prop, i).value == CommaArgs(toks, p, sc, prop.params[i..]).value + 1
    decreases |toks| - p
  {
    if i < |prop.params| {
      assert prop.params[i..][1..] == prop.params[i + 1..];
      if Peek(toks, p) == TComma && Argument(toks, p, sc, prop.params[i]).Ok? {
        ArgRestExact(toks, Argument(toks, p, sc, prop.params[i]).value, sc, prop, i + 1);
      }
    }
  }

  /**
   * An argument list is accepted exactly when it holds one argument per
   * parameter, each of a compatible type, separated by commas and closed
   * by a parenthesis.
   */
  lemma ArgListExact(toks: seq<Token>, p: nat, sc: ST.SymState, prop: ST.IdProp)
    requires p <= |toks| && Scoped(sc) && 0 < |prop.params|
    ensures ArgList(toks, p, sc, prop).Ok? <==>
            && p < |toks| && toks[p].kind == TLParen && StartsExpr(Peek(toks, p + 1))
            && Argument(toks, p, sc, prop.params[0]).Ok?
            && var c := CommaArgs(toks, Argument(toks, p, sc, prop.params[0]).value, sc, prop.params[1..]);
            && c.Some? && c.value < |toks| && toks[c.value].kind == TRParen
  {
    if p < |toks| && toks[p].kind == TLParen && StartsExpr(Peek(toks, p + 1))
       && Argument(toks, p, sc, prop.params[0]).Ok? {
      ArgRestExact(toks, Argument(toks, p, sc, prop.params[0]).value, sc, prop, 1);
    }
  }

  /**
   * The argument list as the source writes it accepts "()" for a function
   * of one parameter, which the argument count rule rejects.
   */
  lemma EmptyArgListAsWritten()
    ensures var toks := [Token(TLParen, "("), Token(TRParen, ")")];
            var prop := ST.IdProp(TypeCallable | TypeInteger, 1, [TypeInteger]);
            && ArgListAsWritten(toks, 0, ST.InitState(), prop) == Ok(2)
            && ArgList(toks, 0, ST.InitState(), prop) == Err(TooFewArguments)
  {
  }

  // ---------------------------------------------------------------------
  // Function calls
  // ---------------------------------------------------------------------

  /**
   * A function call yields the function's return type: not callable, and
   * the function's own type once the callable flag is added back.
   */
  lemma CallYieldsReturnType(toks: seq<Token>, p: nat, sc: ST.SymState, prop: ST.IdProp)
    requires p <= |toks| && Scoped(sc) && (IsCallableType(prop.vtype) ==> 0 < |prop.params|)
    requires Peek(toks, p) == TLParen && Designator(toks, p, sc, prop).Ok?
    ensures IsFunction(prop.vtype)
    ensures var t := Designator(toks, p, sc, prop).value.0;
            !IsCallableType(t) && t | TypeCallable == prop.vtype
    ensures ArgList(toks, p, sc, prop).Ok?
  {
  }

  /**
   * The call result type as the source writes it keeps the callable flag,
   * so it never equals BOOLEAN or INTEGER, and every exact type check a
   * guard, "not", "and", "or", a negation or an ordering applies to it
   * fails.
   */
  lemma CallResultTypeAsWritten(t: ValType)
    requires IsFunction(t)
    ensures CallResultType(t) != TypeBoolean && CallResultType(t) != TypeInteger
    ensures Chk(CallResultType(t), TypeBoolean).Err? && Chk(CallResultType(t), TypeInteger).Err?
  {
  }

  /** The scope of a program with one boolean function f of one integer parameter. */
  function BoolFunctionScope(): (sc: ST.SymState)
    ensures Scoped(sc) && ST.Find(sc, "f") == Some(ST.IdProp(TypeCallable | TypeBoolean, 1, [TypeInteger]))
  {
    ST.SymState(Some(map["f" := ST.IdProp(TypeCallable | TypeBoolean, 1, [TypeInteger])]), ST.SameAsActive, 1)
  }

  /** The guard "f(1) :" calling that boolean function is accepted. */
  lemma BooleanCallGuard()
    ensures var toks := [Token(TId, "f"), Token(TLParen, "("), Token(TNum, "1"), Token(TRParen, ")"),
                         Token(TColon, ":")];
            Guard(toks, 0, BoolFunctionScope()) == Ok(5)
  {
    var toks := [Token(TId, "f"), Token(TLParen, "("), Token(TNum, "1"), Token(TRParen, ")"),
                 Token(TColon, ":")];
    var sc := BoolFunctionScope();
    var f := ST.IdProp(TypeCallable | TypeBoolean, 1, [TypeInteger]);
    assert Factor(toks, 2, sc) == Ok((TypeInteger, 3));
    assert TermRest(toks, 3, sc, TypeInteger) == Ok((TypeInteger, 3));
    assert Term(toks, 2, sc) == Ok((TypeInteger, 3));
    assert SimpleRest(toks, 3, sc, TypeInteger) == Ok((TypeInteger, 3));
    assert Simple(toks, 2, sc) == Ok((TypeInteger, 3));
    assert Expr(toks, 2, sc) == Ok((TypeInteger, 3));
    assert Argument(toks, 1, sc, TypeInteger) == Ok(3);
    assert ArgRest(toks, 3, sc, f, 1) == Ok(4);
    assert ArgList(toks, 1, sc, f) == Ok(4);
    assert Designator(toks, 1, sc, f) == Ok((TypeBoolean, 4));
    assert Factor(toks, 0, sc) == Ok((TypeBoolean, 4));
    assert Term(toks, 0, sc) == Ok((TypeBoolean, 4));
    assert Simple(toks, 0, sc) == Ok((TypeBoolean, 4));
    assert Expr(toks, 0, sc) == Ok((TypeBoolean, 4));
  }

  /**
   * For a function whose return type is an array, the call type as written
   * drops the array flag (and sets the callable one), while the return type
   * keeps it: as written such a call passes the non-array checks of output
   * and of the operators.
   */
  lemma ArrayCallAsWritten(t: ValType)
    requires IsFunction(t) && IsArray(t)
    ensures !IsArray(CallResultType(t)) && IsCallableType(CallResultType(t))
    ensures IsArray(SetReturnType(t)) && !IsCallableType(SetReturnType(t))
  {
  }

  /** The scope of a program with one function f of one integer parameter returning an int array. */
  function ArrayFunctionScope(): (sc: ST.SymState)
    ensures Scoped(sc)
    ensures ST.Find(sc, "f") == Some(ST.IdProp(TypeCallable | TypeInteger | TypeArray, 1, [TypeInteger]))
  {
    ST.SymState(Some(map["f" := ST.IdProp(TypeCallable | TypeInteger | TypeArray, 1, [TypeInteger])]), ST.SameAsActive, 1)
  }

  /** The output operand "f(1)" calling that function is an array, and is refused. */
  lemma ArrayCallOutput()
    ensures var toks := [Token(TId, "f"), Token(TLParen, "("), Token(TNum, "1"), Token(TRParen, ")")];
            OutputItem(toks, 0, ArrayFunctionScope()) == Err(IllegalArrayOperation)
  {
    var toks := [Token(TId, "f"), Token(TLParen, "("), Token(TNum, "1"), Token(TRParen, ")")];
    var sc := ArrayFunctionScope();
    var f := ST.IdProp(TypeCallable | TypeInteger | TypeArray, 1, [TypeInteger]);
    var ty := TypeInteger | TypeArray;
    assert Factor(toks, 2, sc) == Ok((TypeInteger, 3));
    assert TermRest(toks, 3, sc, TypeInteger) == Ok((TypeInteger, 3));
    assert Term(toks, 2, sc) == Ok((TypeInteger, 3));
    assert SimpleRest(toks, 3, sc, TypeInteger) == Ok((TypeInteger, 3));
    assert Simple(toks, 2, sc) == Ok((TypeInteger, 3));
    assert Expr(toks, 2, sc) == Ok((TypeInteger, 3));
    assert Argument(toks, 1, sc, TypeInteger) == Ok(3);
    assert ArgRest(toks, 3, sc, f, 1) == Ok(4);
    assert ArgList(toks, 1, sc, f) == Ok(4);
    assert Designator(toks, 1, sc, f) == Ok((ty, 4));
    assert Factor(toks, 0, sc) == Ok((ty, 4));
    assert Term(toks, 0, sc) == Ok((ty, 4));
    assert Simple(toks, 0, sc) == Ok((ty, 4));
    assert Expr(toks, 0, sc) == Ok((ty, 4));
  }

  // ---------------------------------------------------------------------
  // Hash table growth
  // ---------------------------------------------------------------------

  /** A table created with 13 buckets grows to 31 ... */
  lemma GrowthFromInitial()
    ensures HashTable.NextSize(HashTable.InitialSize) == 31
  {
    assert HashTable.Pow2(3) == 8 && HashTable.Pow2(4) == 16;
    HashTable.Pow2Monotone(4, 29);
    HashTable.Log2CeilUnique(13, 4);
    HashTable.NextSizeAt(13, 4, 16);
  }

  /** ... and then to 61. */
  lemma GrowthSecond()
    ensures HashTable.NextSize(31) == 61
  {
    assert HashTable.Pow2(4) == 16 && HashTable.Pow2(5) == 32;
    HashTable.Pow2Monotone(5, 29);
    HashTable.Log2CeilUnique(31, 5);
    HashTable.NextSizeAt(31, 5, 32);
  }
}
