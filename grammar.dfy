/**
 * The language accepted by the compiler, production by production, as
 * functions over the token sequence.  Each function starts at token index
 * `p` and either yields what the production synthesises together with the
 * index just past it, or the kind of the fatal error the compiler reports.
 * The scopes the productions consult and extend are SymState values.
 */
module Grammar {
  import opened Wrappers
  import opened ValTypes
  import opened Tokens
  import ST = SymbolTable

  type PResult<T> = Result<T, ErrKind>

  /** The lookahead at index p; past the last token the scanner yields end-of-input. */
  function Peek(toks: seq<Token>, p: nat): TokenKind {
    if p < |toks| then toks[p].kind else TEOF
  }

  /** chktypes: passes exactly when the found type is the expected one. */
  function Chk(found: ValType, expected: ValType): (r: PResult<()>)
    ensures r.Ok? <==> found == expected
    ensures r.Err? ==> r.error == IncompatibleTypes(found, expected)
  {
    if found == expected then Ok(()) else Err(IncompatibleTypes(found, expected))
  }

  /** expect: consumes one token of kind k, or reports that k was expected. */
  function ExpectTok(toks: seq<Token>, p: nat, k: TokenKind): (r: PResult<nat>)
    ensures r.Ok? <==> p < |toks| && toks[p].kind == k
    ensures r.Ok? ==> r.value == p + 1
    ensures r.Err? ==> r.error == Expect(k)
  {
    if p < |toks| && toks[p].kind == k then Ok(p + 1) else Err(Expect(k))
  }

  /** expect_id: consumes an identifier and yields its text. */
  function ExpectId(toks: seq<Token>, p: nat): (r: PResult<(ST.Name, nat)>)
    ensures r.Ok? <==> p < |toks| && toks[p].kind == TId
    ensures r.Ok? ==> r.value == (toks[p].lexeme, p + 1)
    ensures r.Err? ==> r.error == Expect(TId)
  {
    if p < |toks| && toks[p].kind == TId then Ok((toks[p].lexeme, p + 1)) else Err(Expect(TId))
  }

  /** The operand rule of "+" and "-": an operand without the integer kind is reported against INTEGER. */
  function IntOperand(t: ValType): (r: PResult<()>)
    ensures r.Ok? <==> IsIntegerType(t)
  {
    if IsIntegerType(t) then Ok(()) else Chk(t, TypeInteger)
  }

  /**
   * Whether argument type t may be passed for parameter type q: two scalars
   * need only share a kind; once either is an array the types must be equal.
   */
  function ArgCheck(t: ValType, q: ValType): (r: PResult<()>)
    ensures r.Ok? <==>
      if !IsArray(t) && !IsArray(q)
      then (IsIntegerType(t) && IsIntegerType(q)) || (IsBooleanType(t) && IsBooleanType(q))
           || (IsCallableType(t) && IsCallableType(q)) || t == q
      else t == q
  {
    if !IsArray(t) && !IsArray(q) then
      if (IsIntegerType(t) && IsIntegerType(q)) || (IsBooleanType(t) && IsBooleanType(q))
         || (IsCallableType(t) && IsCallableType(q))
      then Ok(())
      else Chk(t, q)
    else Chk(t, q)
  }

  // ---------------------------------------------------------------------
  // Expressions
  // ---------------------------------------------------------------------

  /** The scope invariant every production relies on: subroutines have parameters. */
  ghost predicate Scoped(sc: ST.SymState) {
    ST.CallablesHaveParams(sc)
  }


  /** Inserting a name keeps the scope invariant when a subroutine entry has parameters. */
  lemma InsertScoped(sc: ST.SymState, id: ST.Name, prop: ST.IdProp)
    requires Scoped(sc) && (IsCallableType(prop.vtype) ==> 0 < |prop.params|)
    ensures Scoped(ST.Insert(sc, id, prop).1)
  {
  }

  /** So does opening a subroutine whose entry has parameters. */
  lemma OpenScoped(sc: ST.SymState, id: ST.Name, prop: ST.IdProp)
    requires Scoped(sc) && 0 < |prop.params|
    ensures Scoped(ST.Open(sc, id, prop).1)
  {
  }

  /** And closing one. */
  lemma CloseScoped(sc: ST.SymState)
    requires Scoped(sc)
    ensures Scoped(ST.Close(sc))
  {
  }

  /** expr = simple [relop simple] */
  function Expr(toks: seq<Token>, p: nat, sc: ST.SymState): (r: PResult<(ValType, nat)>)
    requires p <= |toks| && Scoped(sc)
    ensures r.Ok? ==> p < r.value.1 <= |toks|
    decreases |toks| - p, 4
  {
    var s :- Simple(toks, p, sc);
    if IsRelop(Peek(toks, s.1)) then Relation(toks, s.1, sc, s.0) else Ok(s)
  }

  /**
   * The relational operator at p, its left operand of type t1 and its right
   * operand: no arrays, equal types for "=" and "/=", INTEGER operands for
   * the orderings, and a BOOLEAN result.
   */
  function Relation(toks: seq<Token>, p: nat, sc: ST.SymState, t1: ValType): (r: PResult<(ValType, nat)>)
    requires p < |toks| && Scoped(sc)
    ensures r.Ok? ==> p < r.value.1 <= |toks|
    decreases |toks| - p, 0
  {
    var op := toks[p].kind;
    if IsArray(t1) then Err(IllegalArrayOperation)
    else
      var s :- Simple(toks, p + 1, sc);
      if IsArray(s.0) then Err(IllegalArrayOperation)
      else if op == TEq || op == TNe then
        var _ :- Chk(t1, s.0);
        Ok((TypeBoolean, s.1))
      else
        var _ :- Chk(t1, TypeInteger);
        var _ :- Chk(s.0, TypeInteger);
        Ok((TypeBoolean, s.1))
  }

  /** simple = ["-"] term {addop term}; after a leading minus no addop follows. */
  function Simple(toks: seq<Token>, p: nat, sc: ST.SymState): (r: PResult<(ValType, nat)>)
    requires p <= |toks| && Scoped(sc)
    ensures r.Ok? ==> p < r.value.1 <= |toks|
    decreases |toks| - p, 3
  {
    if Peek(toks, p) == TMinus then Negated(toks, p, sc)
    else
      var t :- Term(toks, p, sc);
      if IsAddop(Peek(toks, t.1)) && IsArray(t.0) then Err(IllegalArrayOperation)
      else SimpleRest(toks, t.1, sc, t.0)
  }

  /** A leading minus at p and its operand: one INTEGER term, and nothing after it. */
  function Negated(toks: seq<Token>, p: nat, sc: ST.SymState): (r: PResult<(ValType, nat)>)
    requires p < |toks| && Scoped(sc)
    ensures r.Ok? ==> p < r.value.1 <= |toks|
    decreases |toks| - p, 0
  {
    var t :- Term(toks, p + 1, sc);
    if IsArray(t.0) then Err(IllegalArrayOperation)
    else
      var _ :- Chk(t.0, TypeInteger);
      Ok(t)
  }

  /** The {addop term} loop of simple; the type stays t0, that of the first term. */
  function SimpleRest(toks: seq<Token>, p: nat, sc: ST.SymState, t0: ValType): (r: PResult<(ValType, nat)>)
    requires p <= |toks| && Scoped(sc)
    ensures r.Ok? ==> p <= r.value.1 <= |toks| && r.value.0 == t0
    decreases |toks| - p, 1
  {
    if !IsAddop(Peek(toks, p)) then Ok((t0, p))
    else
      var q :- AddStep(toks, p, sc, t0);
      SimpleRest(toks, q, sc, t0)
  }

  /**
   * One round of that loop: the addop at p and the term after it; "or" wants
   * BOOLEAN operands, the other addops operands of the INTEGER kind.
   */
  function AddStep(toks: seq<Token>, p: nat, sc: ST.SymState, t0: ValType): (r: PResult<nat>)
    requires p < |toks| && Scoped(sc)
    ensures r.Ok? ==> p < r.value <= |toks|
    decreases |toks| - p, 0
  {
    var op := toks[p].kind;
    var t :- Term(toks, p + 1, sc);
    if IsArray(t.0) then Err(IllegalArrayOperation)
    else if op == TOr then
      var _ :- Chk(t0, TypeBoolean);
      var _ :- Chk(t.0, TypeBoolean);
      Ok(t.1)
    else
      var _ :- IntOperand(t0);
      var _ :- IntOperand(t.0);
      Ok(t.1)
  }

  /** term = factor {mulop factor} */
  function Term(toks: seq<Token>, p: nat, sc: ST.SymState): (r: PResult<(ValType, nat)>)
    requires p <= |toks| && Scoped(sc)
    ensures r.Ok? ==> p < r.value.1 <= |toks|
    decreases |toks| - p, 2
  {
    var f :- Factor(toks, p, sc);
    if IsMulop(Peek(toks, f.1)) && IsArray(f.0) then Err(IllegalArrayOperation)
    else TermRest(toks, f.1, sc, f.0)
  }

  /** The {mulop factor} loop of term; the type stays t0, that of the first factor. */
  function TermRest(toks: seq<Token>, p: nat, sc: ST.SymState, t0: ValType): (r: PResult<(ValType, nat)>)
    requires p <= |toks| && Scoped(sc)
    ensures r.Ok? ==> p <= r.value.1 <= |toks| && r.value.0 == t0
    decreases |toks| - p, 1
  {
    if !IsMulop(Peek(toks, p)) then Ok((t0, p))
    else
      var q :- MulStep(toks, p, sc, t0);
      TermRest(toks, q, sc, t0)
  }

  /**
   * One round of that loop: the mulop at p and the factor after it; "and"
   * wants BOOLEAN operands, the other mulops INTEGER ones.
   */
  function MulStep(toks: seq<Token>, p: nat, sc: ST.SymState, t0: ValType): (r: PResult<nat>)
    requires p < |toks| && Scoped(sc)
    ensures r.Ok? ==> p < r.value <= |toks|
    decreases |toks| - p, 0
  {
    var op := toks[p].kind;
    var f :- Factor(toks, p + 1, sc);
    if IsArray(f.0) then Err(IllegalArrayOperation)
    else
      var want := if op == TAnd then TypeBoolean else TypeInteger;
      var _ :- Chk(t0, want);
      var _ :- Chk(f.0, want);
      Ok(f.1)
  }

  /** factor = id [index | arglist] | num | "(" expr ")" | "not" factor | "true" | "false" */
  function Factor(toks: seq<Token>, p: nat, sc: ST.SymState): (r: PResult<(ValType, nat)>)
    requires p <= |toks| && Scoped(sc)
    ensures r.Ok? ==> p < r.value.1 <= |toks|
    decreases |toks| - p, 1
  {
    var k := Peek(toks, p);
    if k == TId then IdFactor(toks, p, sc)
    else if k == TNum then Ok((TypeInteger, p + 1))
    else if k == TLParen then ParenFactor(toks, p, sc)
    else if k == TNot then NotFactor(toks, p, sc)
    else if k == TTrue || k == TFalse then Ok((TypeBoolean, p + 1))
    else Err(ExpectedFactor)
  }

  /** The identifier alternative of factor: the name must be visible. */
  function IdFactor(toks: seq<Token>, p: nat, sc: ST.SymState): (r: PResult<(ValType, nat)>)
    requires p < |toks| && Scoped(sc)
    ensures r.Ok? ==> p < r.value.1 <= |toks|
    decreases |toks| - p, 0
  {
    match ST.Find(sc, toks[p].lexeme)
    case None => Err(UnknownIdentifier)
    case Some(prop) => Designator(toks, p + 1, sc, prop)
  }

  /**
   * What follows a visible name in a factor: an index into an array, which
   * yields the element type; an argument list of a function, which yields
   * the function's return type; or nothing, which yields the declared type.
   */
  function Designator(toks: seq<Token>, p: nat, sc: ST.SymState, prop: ST.IdProp): (r: PResult<(ValType, nat)>)
    requires p <= |toks| && Scoped(sc)
    requires IsCallableType(prop.vtype) ==> 0 < |prop.params|
    ensures r.Ok? ==> p <= r.value.1 <= |toks|
    decreases |toks| - p, 2
  {
    if Peek(toks, p) == TLBrack then
      if !IsArray(prop.vtype) then Err(NotAnArray)
      else
        var q :- Index(toks, p, sc);
        Ok((ElementType(prop.vtype), q))
    else if Peek(toks, p) == TLParen then
      if !IsFunction(prop.vtype) then Err(NotAFunction)
      else
        var q :- ArgList(toks, p, sc, prop);
        Ok((SetReturnType(prop.vtype), q))
    else Ok((prop.vtype, p))
  }

  /** The parenthesised alternative of factor. */
  function ParenFactor(toks: seq<Token>, p: nat, sc: ST.SymState): (r: PResult<(ValType, nat)>)
    requires p < |toks| && Scoped(sc)
    ensures r.Ok? ==> p < r.value.1 <= |toks|
    decreases |toks| - p, 0
  {
    var e :- Expr(toks, p + 1, sc);
    var q :- ExpectTok(toks, e.1, TRParen);
    Ok((e.0, q))
  }

  /** The negation alternative of factor: a BOOLEAN operand that is not an array. */
  function NotFactor(toks: seq<Token>, p: nat, sc: ST.SymState): (r: PResult<(ValType, nat)>)
    requires p < |toks| && Scoped(sc)
    ensures r.Ok? ==> p < r.value.1 <= |toks|
    decreases |toks| - p, 0
  {
    var f :- Factor(toks, p + 1, sc);
    if IsArray(f.0) then Err(IllegalArrayOperation)
    else
      var _ :- Chk(f.0, TypeBoolean);
      Ok(f)
  }

  /** index = "[" simple "]", with an INTEGER index. */
  function Index(toks: seq<Token>, p: nat, sc: ST.SymState): (r: PResult<nat>)
    requires p <= |toks| && Scoped(sc)
    ensures r.Ok? ==> p < r.value <= |toks|
    decreases |toks| - p, 0
  {
    var q :- ExpectTok(toks, p, TLBrack);
    var s :- Simple(toks, q, sc);
    var _ :- Chk(s.0, TypeInteger);
    ExpectTok(toks, s.1, TRBrack)
  }

  /**
   * arglist = "(" expr {"," expr} ")" for the subroutine described by prop,
   * with exactly as many arguments as it has parameters.  Every subroutine
   * has at least one parameter, so "()" is one argument too few.
   */
  function ArgList(toks: seq<Token>, p: nat, sc: ST.SymState, prop: ST.IdProp): (r: PResult<nat>)
    requires p <= |toks| && Scoped(sc) && 0 < |prop.params|
    ensures r.Ok? ==> p < r.value <= |toks|
    decreases |toks| - p, 1
  {
    var q :- ExpectTok(toks, p, TLParen);
    if !StartsExpr(Peek(toks, q)) then Err(TooFewArguments)
    else
      var q1 :- Argument(toks, p, sc, prop.params[0]);
      ArgRest(toks, q1, sc, prop, 1)
  }

  /**
   * arglist as the source writes it: the argument count is checked only
   * inside the branch taken when an expression follows "(", so "()" is
   * accepted whatever the parameter count.
   */
  function ArgListAsWritten(toks: seq<Token>, p: nat, sc: ST.SymState, prop: ST.IdProp): (r: PResult<nat>)
    requires p <= |toks| && Scoped(sc) && 0 < |prop.params|
    ensures StartsExpr(Peek(toks, p + 1)) ==> r == ArgList(toks, p, sc, prop)
    ensures r.Ok? && !StartsExpr(Peek(toks, p + 1)) ==> r.value == p + 2
  {
    var q :- ExpectTok(toks, p, TLParen);
    if !StartsExpr(Peek(toks, q)) then ExpectTok(toks, q, TRParen)
    else
      var q1 :- Argument(toks, p, sc, prop.params[0]);
      ArgRest(toks, q1, sc, prop, 1)
  }

  /**
   * The {"," expr} ")" tail of arglist with i arguments seen so far: a comma
   * beyond the last parameter is one argument too many, and the closing
   * parenthesis before it one too few.
   */
  function ArgRest(toks: seq<Token>, p: nat, sc: ST.SymState, prop: ST.IdProp, i: nat): (r: PResult<nat>)
    requires p <= |toks| && Scoped(sc) && 0 < i <= |prop.params|
    ensures r.Ok? ==> p < r.value <= |toks|
    decreases |toks| - p, 1
  {
    if Peek(toks, p) != TComma then
      if i < |prop.params| then Err(TooFewArguments) else ExpectTok(toks, p, TRParen)
    else if i >= |prop.params| then Err(TooManyArguments)
    else
      var q :- Argument(toks, p, sc, prop.params[i]);
      ArgRest(toks, q, sc, prop, i + 1)
  }

  /** The separator at p and the argument after it, passed for a parameter of type t. */
  function Argument(toks: seq<Token>, p: nat, sc: ST.SymState, t: ValType): (r: PResult<nat>)
    requires p < |toks| && Scoped(sc)
    ensures r.Ok? ==> p < r.value <= |toks|
    decreases |toks| - p, 0
  {
    var e :- Expr(toks, p + 1, sc);
    var _ :- ArgCheck(e.0, t);
    Ok(e.1)
  }

  // ---------------------------------------------------------------------
  // Statements; rt is the return type of the enclosing subroutine
  // ---------------------------------------------------------------------

  /** statements = "chillax" | statement {";" statement} */
  function Statements(toks: seq<Token>, p: nat, sc: ST.SymState, rt: ValType): (r: PResult<nat>)
    requires p <= |toks| && Scoped(sc)
    ensures r.Ok? ==> p < r.value <= |toks|
    decreases |toks| - p, 2
  {
    if Peek(toks, p) == TChillax then Ok(p + 1)
    else
      var q :- Statement(toks, p, sc, rt);
      StatementsRest(toks, q, sc, rt)
  }

  /** The {";" statement} loop of statements. */
  function StatementsRest(toks: seq<Token>, p: nat, sc: ST.SymState, rt: ValType): (r: PResult<nat>)
    requires p <= |toks| && Scoped(sc)
    ensures r.Ok? ==> p <= r.value <= |toks|
    decreases |toks| - p, 1
  {
    if Peek(toks, p) != TSemicolon then Ok(p)
    else
      var q :- Statement(toks, p + 1, sc, rt);
      StatementsRest(toks, q, sc, rt)
  }

  /** statement = assign | call | if | input | output | return | while */
  function Statement(toks: seq<Token>, p: nat, sc: ST.SymState, rt: ValType): (r: PResult<nat>)
    requires p <= |toks| && Scoped(sc)
    ensures r.Ok? ==> p < r.value <= |toks|
    decreases |toks| - p, 1
  {
    var k := Peek(toks, p);
    if k == TLet then Assign(toks, p, sc)
    else if k == TId then Call(toks, p, sc)
    else if k == TIf then If(toks, p, sc, rt)
    else if k == TInput then Input(toks, p, sc)
    else if k == TOutput then Output(toks, p, sc)
    else if k == TReturn then Return(toks, p, sc, rt)
    else if k == TWhile then While(toks, p, sc, rt)
    else Err(ExpectedStatement)
  }

  /**
   * The type rules of an assignment of an expression of type t to a target
   * declared with type declared, where target is the declared type or, for
   * an indexed target, its element type.
   */
  function AssignCheck(t: ValType, target: ValType, declared: ValType, indexed: bool): (r: PResult<()>)
  {
    var _ :- if indexed then (if !IsArray(t) then Chk(t, target) else Ok(()))
             else if IsArray(t) != IsArray(declared) then Chk(t, declared)
             else Ok(());
    if IsIntegerType(target) && !IsIntegerType(t) then Chk(t, target)
    else if IsBooleanType(target) && !IsBooleanType(t) then Chk(t, target)
    else Ok(())
  }

  /** assign = "let" id [index] "=" (expr | "array" simple) */
  function Assign(toks: seq<Token>, p: nat, sc: ST.SymState): (r: PResult<nat>)
    requires p <= |toks| && Scoped(sc)
    ensures r.Ok? ==> p < r.value <= |toks|
  {
    var q0 :- ExpectTok(toks, p, TLet);
    var idr :- ExpectId(toks, q0);
    match ST.Find(sc, idr.0)
    case None => Err(UnknownIdentifier)
    case Some(prop) => AssignTo(toks, idr.1, sc, prop.vtype)
  }

  /**
   * The rest of an assignment to a name visible with type declared: the
   * name must be a variable, and an index needs an array.
   */
  function AssignTo(toks: seq<Token>, p: nat, sc: ST.SymState, declared: ValType): (r: PResult<nat>)
    requires p <= |toks| && Scoped(sc)
    ensures r.Ok? ==> p < r.value <= |toks|
  {
    var indexed := Peek(toks, p) == TLBrack;
    if IsCallableType(declared) then Err(NotAVariable)
    else if indexed && !IsArray(declared) then Err(NotAnArray)
    else
      var q1 :- if indexed then Index(toks, p, sc) else Ok(p);
      var q2 :- ExpectTok(toks, q1, TEq);
      AssignSource(toks, q2, sc, declared, indexed)
  }

  /**
   * The right-hand side of an assignment to a variable of type declared:
   * an expression obeying AssignCheck, or an allocation "array" simple with
   * an INTEGER size, allowed only when the target itself is an array, so
   * never for an indexed target.
   */
  function AssignSource(toks: seq<Token>, p: nat, sc: ST.SymState, declared: ValType, indexed: bool)
    : (r: PResult<nat>)
    requires p <= |toks| && Scoped(sc)
    ensures r.Ok? ==> p < r.value <= |toks|
  {
    var target := if indexed then declared ^ TypeArray else declared;
    if StartsExpr(Peek(toks, p)) then
      var e :- Expr(toks, p, sc);
      var _ :- AssignCheck(e.0, target, declared, indexed);
      Ok(e.1)
    else if Peek(toks, p) == TArray then
      if indexed || !IsArray(declared) then Err(NotAnArray)
      else
        var s :- Simple(toks, p + 1, sc);
        var _ :- Chk(s.0, TypeInteger);
        Ok(s.1)
    else Err(ExpectedExpressionOrArrayAllocation)
  }

  /**
   * The right-hand side as the code is written: an allocation is checked
   * only against the declared type, so an indexed element of an array may
   * be given a new array.  It differs from AssignSource only there.
   */
  function AssignSourceAsWritten(toks: seq<Token>, p: nat, sc: ST.SymState, declared: ValType, indexed: bool)
    : (r: PResult<nat>)
    requires p <= |toks| && Scoped(sc)
    ensures !(indexed && Peek(toks, p) == TArray) ==> r == AssignSource(toks, p, sc, declared, indexed)
    ensures indexed && Peek(toks, p) == TArray && !IsArray(declared) ==> r == Err(NotAnArray)
  {
    var target := if indexed then declared ^ TypeArray else declared;
    if StartsExpr(Peek(toks, p)) then
      var e :- Expr(toks, p, sc);
      var _ :- AssignCheck(e.0, target, declared, indexed);
      Ok(e.1)
    else if Peek(toks, p) == TArray then
      if !IsArray(declared) then Err(NotAnArray)
      else
        var s :- Simple(toks, p + 1, sc);
        var _ :- Chk(s.0, TypeInteger);
        Ok(s.1)
    else Err(ExpectedExpressionOrArrayAllocation)
  }

  /** call = id arglist, where id must name a procedure. */
  function Call(toks: seq<Token>, p: nat, sc: ST.SymState): (r: PResult<nat>)
    requires p <= |toks| && Scoped(sc)
    ensures r.Ok? ==> p < r.value <= |toks|
  {
    var idr :- ExpectId(toks, p);
    match ST.Find(sc, idr.0)
    case None => Err(UnknownIdentifier)
    case Some(prop) =>
      if IsFunction(prop.vtype) || !IsCallableType(prop.vtype) then Err(NotAProcedure)
      else ArgList(toks, idr.1, sc, prop)
  }

  /** A guard: an expression of type BOOLEAN followed by ":". */
  function Guard(toks: seq<Token>, p: nat, sc: ST.SymState): (r: PResult<nat>)
    requires p <= |toks| && Scoped(sc)
    ensures r.Ok? ==> p < r.value <= |toks|
  {
    var e :- Expr(toks, p, sc);
    var _ :- Chk(e.0, TypeBoolean);
    ExpectTok(toks, e.1, TColon)
  }

  /** if = "if" expr ":" statements {"elif" expr ":" statements} ["else" ":" statements] "end" */
  function If(toks: seq<Token>, p: nat, sc: ST.SymState, rt: ValType): (r: PResult<nat>)
    requires p <= |toks| && Scoped(sc)
    ensures r.Ok? ==> p < r.value <= |toks|
    decreases |toks| - p, 0
  {
    var q0 :- ExpectTok(toks, p, TIf);
    var q1 :- Guard(toks, q0, sc);
    var q2 :- Statements(toks, q1, sc, rt);
    IfRest(toks, q2, sc, rt)
  }

  /** The elif arms, the optional else arm and the closing "end" of an if. */
  function IfRest(toks: seq<Token>, p: nat, sc: ST.SymState, rt: ValType): (r: PResult<nat>)
    requires p <= |toks| && Scoped(sc)
    ensures r.Ok? ==> p < r.value <= |toks|
    decreases |toks| - p, 2
  {
    if Peek(toks, p) == TElif then
      var q :- Arm(toks, p, sc, rt);
      IfRest(toks, q, sc, rt)
    else IfEnd(toks, p, sc, rt)
  }

  /** The optional else arm and the closing "end" of an if. */
  function IfEnd(toks: seq<Token>, p: nat, sc: ST.SymState, rt: ValType): (r: PResult<nat>)
    requires p <= |toks| && Scoped(sc)
    ensures r.Ok? ==> p < r.value <= |toks|
    decreases |toks| - p, 1
  {
    if Peek(toks, p) == TElse then
      var q :- Arm(toks, p, sc, rt);
      ExpectTok(toks, q, TEnd)
    else ExpectTok(toks, p, TEnd)
  }

  /**
   * An arm of an if introduced by the keyword at p: after "elif" a guard,
   * after "else" a colon, and then the arm's statements.
   */
  function Arm(toks: seq<Token>, p: nat, sc: ST.SymState, rt: ValType): (r: PResult<nat>)
    requires p < |toks| && Scoped(sc)
    ensures r.Ok? ==> p < r.value <= |toks|
    decreases |toks| - p, 0
  {
    var q :- if toks[p].kind == TElif then Guard(toks, p + 1, sc) else ExpectTok(toks, p + 1, TColon);
    Statements(toks, q, sc, rt)
  }

  /** input = "input" "(" id [index] ")" */
  function Input(toks: seq<Token>, p: nat, sc: ST.SymState): (r: PResult<nat>)
    requires p <= |toks| && Scoped(sc)
    ensures r.Ok? ==> p < r.value <= |toks|
  {
    var q0 :- ExpectTok(toks, p, TInput);
    var q1 :- ExpectTok(toks, q0, TLParen);
    var idr :- ExpectId(toks, q1);
    match ST.Find(sc, idr.0)
    case None => Err(UnknownIdentifier)
    case Some(prop) => InputTarget(toks, idr.1, sc, prop.vtype)
  }

  /**
   * The rest of an input into a name visible with type t: an index needs
   * an array, and an unindexed target must be a scalar.
   */
  function InputTarget(toks: seq<Token>, p: nat, sc: ST.SymState, t: ValType): (r: PResult<nat>)
    requires p <= |toks| && Scoped(sc)
    ensures r.Ok? ==> p < r.value <= |toks|
  {
    if Peek(toks, p) == TLBrack then
      if !IsArray(t) then Err(NotAnArray)
      else
        var q :- Index(toks, p, sc);
        ExpectTok(toks, q, TRParen)
    else if IsArray(t) then Err(ExpectedScalar)
    else ExpectTok(toks, p, TRParen)
  }

  /** One operand of output: a string, or an expression that is not an array. */
  function OutputItem(toks: seq<Token>, p: nat, sc: ST.SymState): (r: PResult<nat>)
    requires p <= |toks| && Scoped(sc)
    ensures r.Ok? ==> p < r.value <= |toks|
  {
    if Peek(toks, p) == TStr then Ok(p + 1)
    else if StartsExpr(Peek(toks, p)) then
      var e :- Expr(toks, p, sc);
      if IsArray(e.0) then Err(IllegalArrayOperation) else Ok(e.1)
    else Err(ExpectedExpressionOrString)
  }

  /** The {".." operand} ")" tail of output. */
  function OutputRest(toks: seq<Token>, p: nat, sc: ST.SymState): (r: PResult<nat>)
    requires p <= |toks| && Scoped(sc)
    ensures r.Ok? ==> p < r.value <= |toks|
    decreases |toks| - p
  {
    if Peek(toks, p) != TDotDot then ExpectTok(toks, p, TRParen)
    else
      var q :- OutputItem(toks, p + 1, sc);
      OutputRest(toks, q, sc)
  }

  /** output = "output" "(" (string | expr) {".." (string | expr)} ")" */
  function Output(toks: seq<Token>, p: nat, sc: ST.SymState): (r: PResult<nat>)
    requires p <= |toks| && Scoped(sc)
    ensures r.Ok? ==> p < r.value <= |toks|
  {
    var q0 :- ExpectTok(toks, p, TOutput);
    var q1 :- ExpectTok(toks, q0, TLParen);
    var q2 :- OutputItem(toks, q1, sc);
    OutputRest(toks, q2, sc)
  }

  /**
   * return = "return" [expr].  A procedure may not return at all, a function
   * must return a value of its return type, and in the main body an
   * expression after "return" is left unparsed.
   */
  function Return(toks: seq<Token>, p: nat, sc: ST.SymState, rt: ValType): (r: PResult<nat>)
    requires p <= |toks| && Scoped(sc)
    ensures r.Ok? ==> p < r.value <= |toks|
  {
    var q :- ExpectTok(toks, p, TReturn);
    if IsProcedure(rt) then Err(ReturnExpressionNotAllowed)
    else if StartsExpr(Peek(toks, q)) then
      if IsFunction(rt) then
        var e :- Expr(toks, q, sc);
        var _ :- Chk(SetReturnType(e.0), SetReturnType(rt));
        Ok(e.1)
      else Ok(q)
    else if IsFunction(rt) then Err(MissingReturnExpression)
    else Ok(q)
  }

  /** while = "while" expr ":" statements "end" */
  function While(toks: seq<Token>, p: nat, sc: ST.SymState, rt: ValType): (r: PResult<nat>)
    requires p <= |toks| && Scoped(sc)
    ensures r.Ok? ==> p < r.value <= |toks|
    decreases |toks| - p, 0
  {
    var q0 :- ExpectTok(toks, p, TWhile);
    var q1 :- Guard(toks, q0, sc);
    var q2 :- Statements(toks, q1, sc, rt);
    ExpectTok(toks, q2, TEnd)
  }

  // ---------------------------------------------------------------------
  // Declarations; these extend the scopes
  // ---------------------------------------------------------------------

  /** type = ("bool" | "int") ["array"], or-ed into the incoming type t0. */
  function Type(toks: seq<Token>, p: nat, t0: ValType): (r: PResult<(ValType, nat)>)
    requires p <= |toks|
    ensures r.Ok? <==> Peek(toks, p) == TBool || Peek(toks, p) == TInt
    ensures r.Ok? ==> p < r.value.1 <= |toks|
    ensures r.Ok? && t0 == TypeNone ==> IsDeclaredType(r.value.0)
    ensures r.Ok? && t0 == TypeCallable ==> IsFunction(r.value.0)
    ensures r.Err? ==> r.error == ExpectedTypeSpecifier
  {
    var k := Peek(toks, p);
    if k == TBool || k == TInt then
      var t := t0 | (if k == TBool then TypeBoolean else TypeInteger);
      if Peek(toks, p + 1) == TArray then Ok((t | TypeArray, p + 2)) else Ok((t, p + 1))
    else Err(ExpectedTypeSpecifier)
  }

  /**
   * Declares one variable of type t: the name must not be visible yet, and
   * it takes the next frame offset.
   */
  function DeclareVar(sc: ST.SymState, id: ST.Name, t: ValType): (r: PResult<ST.SymState>)
    requires Scoped(sc) && !IsCallableType(t)
    ensures r.Ok? <==> sc.active.Some? && ST.Find(sc, id).None?
    ensures r.Ok? ==> r.value == ST.SymState(Some(sc.active.value[id := ST.IdProp(t, sc.offset, [])]),
                                              sc.enclosing, sc.offset + 1)
    ensures r.Ok? ==> Scoped(r.value)
    ensures r.Err? ==> r.error == MultipleDefinition
  {
    if ST.Find(sc, id).Some? then Err(MultipleDefinition)
    else
      var ins := ST.Insert(sc, id, ST.IdProp(t, sc.offset, []));
      if !ins.0 then Err(MultipleDefinition) else Ok(ins.1)
  }

  /** vardef = type id {"," id} ";" */
  function Vardef(toks: seq<Token>, p: nat, sc: ST.SymState): (r: PResult<(nat, ST.SymState)>)
    requires p <= |toks| && Scoped(sc)
    ensures r.Ok? ==> p < r.value.0 <= |toks| && Scoped(r.value.1)
  {
    var ty :- Type(toks, p, TypeNone);
    var idr :- ExpectId(toks, ty.1);
    var sc1 :- DeclareVar(sc, idr.0, ty.0);
    VardefRest(toks, idr.1, sc1, ty.0)
  }

  /** The {"," id} ";" tail of vardef. */
  function VardefRest(toks: seq<Token>, p: nat, sc: ST.SymState, t: ValType): (r: PResult<(nat, ST.SymState)>)
    requires p <= |toks| && Scoped(sc) && !IsCallableType(t)
    ensures r.Ok? ==> p < r.value.0 <= |toks| && Scoped(r.value.1)
    decreases |toks| - p
  {
    if Peek(toks, p) == TComma then
      var idr :- ExpectId(toks, p + 1);
      var sc1 :- DeclareVar(sc, idr.0, t);
      VardefRest(toks, idr.1, sc1, t)
    else
      var q :- ExpectTok(toks, p, TSemicolon);
      Ok((q, sc))
  }

  /** body = {vardef} statements */
  function Body(toks: seq<Token>, p: nat, sc: ST.SymState, rt: ValType): (r: PResult<(nat, ST.SymState)>)
    requires p <= |toks| && Scoped(sc)
    ensures r.Ok? ==> p < r.value.0 <= |toks| && Scoped(r.value.1)
    decreases |toks| - p
  {
    if Peek(toks, p) == TBool || Peek(toks, p) == TInt then
      var v :- Vardef(toks, p, sc);
      Body(toks, v.0, v.1, rt)
    else
      var q :- Statements(toks, p, sc, rt);
      Ok((q, sc))
  }

  /** A formal parameter as parsed: its name and its type. */
  datatype Param = Param(id: ST.Name, ptype: ValType)

  /** The parameter list: type id {"," type id} ")". */
  function Params(toks: seq<Token>, p: nat): (r: PResult<(seq<Param>, nat)>)
    requires p <= |toks|
    ensures r.Ok? ==> p < r.value.1 <= |toks| && 0 < |r.value.0|
    ensures r.Ok? ==> forall i :: 0 <= i < |r.value.0| ==> IsDeclaredType(r.value.0[i].ptype)
  {
    var ty :- Type(toks, p, TypeNone);
    var idr :- ExpectId(toks, ty.1);
    ParamsRest(toks, idr.1, [Param(idr.0, ty.0)])
  }

  /** The {"," type id} ")" tail of the parameter list, after the parameters in acc. */
  function ParamsRest(toks: seq<Token>, p: nat, acc: seq<Param>): (r: PResult<(seq<Param>, nat)>)
    requires p <= |toks|
    requires forall i :: 0 <= i < |acc| ==> IsDeclaredType(acc[i].ptype)
    ensures r.Ok? ==> p < r.value.1 <= |toks| && |acc| <= |r.value.0| && r.value.0[..|acc|] == acc
    ensures r.Ok? ==> forall i :: 0 <= i < |r.value.0| ==> IsDeclaredType(r.value.0[i].ptype)
    decreases |toks| - p
  {
    if Peek(toks, p) == TComma then
      var ty :- Type(toks, p + 1, TypeNone);
      var idr :- ExpectId(toks, ty.1);
      var r :- ParamsRest(toks, idr.1, acc + [Param(idr.0, ty.0)]);
      assert r.0[..|acc|] == (r.0[..|acc| + 1])[..|acc|];
      Ok(r)
    else
      var q :- ExpectTok(toks, p, TRParen);
      Ok((acc, q))
  }

  /** The parameter types, in order. */
  function ParamTypes(ps: seq<Param>): (r: seq<ValType>)
    ensures |r| == |ps| && forall i :: 0 <= i < |ps| ==> r[i] == ps[i].ptype
  {
    if ps == [] then [] else [ps[0].ptype] + ParamTypes(ps[1..])
  }

  /** Declares the parameters, first to last, in the new local scope. */
  function InstallParams(sc: ST.SymState, ps: seq<Param>): (r: PResult<ST.SymState>)
    requires Scoped(sc)
    requires forall i :: 0 <= i < |ps| ==> IsDeclaredType(ps[i].ptype)
    ensures r.Ok? ==> Scoped(r.value)
    decreases |ps|
  {
    if ps == [] then Ok(sc)
    else
      DeclaredTypeShape(ps[0].ptype);
      var sc1 :- DeclareVar(sc, ps[0].id, ps[0].ptype);
      InstallParams(sc1, ps[1..])
  }

  /**
   * subdef = id "(" type id {"," type id} ")" ["->" type] ":" body.  The
   * subroutine is registered in the enclosing scope before its parameters
   * and body are processed in a fresh local scope, which is discarded after.
   */
  function Subdef(toks: seq<Token>, p: nat, sc: ST.SymState): (r: PResult<(nat, ST.SymState)>)
    requires p <= |toks| && Scoped(sc)
    ensures r.Ok? ==> p < r.value.0 <= |toks| && Scoped(r.value.1)
  {
    var sub :- ExpectId(toks, p);
    var q0 :- ExpectTok(toks, sub.1, TLParen);
    var ps :- Params(toks, q0);
    SubdefRest(toks, ps.1, sc, sub.0, ps.0)
  }

  /**
   * The rest of a subdef after its parameter list: the optional return
   * type, then the subroutine named sub is registered with the current
   * offset and its parameter types, and its body follows.
   */
  function SubdefRest(toks: seq<Token>, p: nat, sc: ST.SymState, sub: ST.Name, ps: seq<Param>)
    : (r: PResult<(nat, ST.SymState)>)
    requires p <= |toks| && Scoped(sc) && 0 < |ps|
    requires forall i :: 0 <= i < |ps| ==> IsDeclaredType(ps[i].ptype)
    ensures r.Ok? ==> p < r.value.0 <= |toks| && Scoped(r.value.1)
  {
    var ret :- if Peek(toks, p) == TArrow then Type(toks, p + 1, TypeCallable) else Ok((TypeCallable, p));
    Enter(toks, ret.1, sc, sub, ps, ret.0)
  }

  /**
   * Registers the subroutine sub with type rt, the current offset and the
   * parameter types, then processes its parameters and body in a new scope.
   */
  function Enter(toks: seq<Token>, p: nat, sc: ST.SymState, sub: ST.Name, ps: seq<Param>, rt: ValType)
    : (r: PResult<(nat, ST.SymState)>)
    requires p <= |toks| && Scoped(sc) && 0 < |ps|
    requires forall i :: 0 <= i < |ps| ==> IsDeclaredType(ps[i].ptype)
    ensures r.Ok? ==> p < r.value.0 <= |toks| && Scoped(r.value.1)
  {
    var entered := ST.Open(sc, sub, ST.IdProp(rt, sc.offset, ParamTypes(ps)));
    if !entered.0 then Err(MultipleDefinition)
    else SubroutineBody(toks, p, entered.1, ps, rt)
  }

  /**
   * The rest of a subdef once its name is registered: the parameters are
   * declared, ":" and the body are parsed with return type rt, and the local
   * scope is closed.
   */
  function SubroutineBody(toks: seq<Token>, p: nat, sc: ST.SymState, ps: seq<Param>, rt: ValType)
    : (r: PResult<(nat, ST.SymState)>)
    requires p <= |toks| && Scoped(sc)
    requires forall i :: 0 <= i < |ps| ==> IsDeclaredType(ps[i].ptype)
    ensures r.Ok? ==> p < r.value.0 <= |toks| && Scoped(r.value.1)
  {
    var sc1 :- InstallParams(sc, ps);
    LocalBody(toks, p, sc1, rt)
  }

  /** The ":" body part of a subdef, after which the local scope is closed. */
  function LocalBody(toks: seq<Token>, p: nat, sc: ST.SymState, rt: ValType): (r: PResult<(nat, ST.SymState)>)
    requires p <= |toks| && Scoped(sc)
    ensures r.Ok? ==> p < r.value.0 <= |toks| && Scoped(r.value.1)
  {
    var q :- ExpectTok(toks, p, TColon);
    var b :- Body(toks, q, sc, rt);
    Ok((b.0, ST.Close(b.1)))
  }

  /** The { subdef } loop of program: one subroutine per leading identifier. */
  function Subdefs(toks: seq<Token>, p: nat, sc: ST.SymState): (r: PResult<(nat, ST.SymState)>)
    requires p <= |toks| && Scoped(sc)
    ensures r.Ok? ==> p <= r.value.0 <= |toks| && Scoped(r.value.1)
    decreases |toks| - p
  {
    if Peek(toks, p) != TId then Ok((p, sc))
    else
      var s :- Subdef(toks, p, sc);
      Subdefs(toks, s.0, s.1)
  }

  /**
   * program = "program" id ":" {subdef} "main" ":" body, followed by the end
   * of input; yields the final scopes.
   */
  function Program(toks: seq<Token>): (r: PResult<ST.SymState>)
    ensures r.Ok? ==> Scoped(r.value)
  {
    if Peek(toks, 0) == TEOF then Err(Expect(TProgram))
    else
      var q0 :- ExpectTok(toks, 0, TProgram);
      var name :- ExpectId(toks, q0);
      var q1 :- ExpectTok(toks, name.1, TColon);
      var s :- Subdefs(toks, q1, ST.InitState());
      MainPart(toks, s.0, s.1)
  }

  /** The "main" ":" body part of program, which must end the input. */
  function MainPart(toks: seq<Token>, p: nat, sc: ST.SymState): (r: PResult<ST.SymState>)
    requires p <= |toks| && Scoped(sc)
    ensures r.Ok? ==> Scoped(r.value)
  {
    var q0 :- ExpectTok(toks, p, TMain);
    var q1 :- ExpectTok(toks, q0, TColon);
    var b :- Body(toks, q1, sc, TypeNone);
    if Peek(toks, b.0) != TEOF then Err(Unreachable) else Ok(b.1)
  }
}
