/**
 * The recursive-descent parser and type checker: one method per production
 * (and per loop round where the production has a loop), the return type of
 * the subroutine being parsed, and the symbol table.  Each method receives
 * the index of its lookahead token and hands back the index just past what
 * it consumed.  Every method is proved to do what its production in Grammar
 * says: on success it yields the same type and stops at the same token, and
 * on failure it reports the same error kind; the declaration methods also
 * leave the symbol table holding the scopes the production yields.
 */
module Parser {
  import opened Wrappers
  import opened ValTypes
  import opened Tokens
  import ST = SymbolTable
  import opened Grammar

  /**
   * A declaration method's result and the scopes it left behind agree with
   * a production that extends the scopes.
   */
  ghost predicate Committed(r: PResult<nat>, scope: ST.SymState, spec: PResult<(nat, ST.SymState)>) {
    match spec
    case Ok(v) => r == Ok(v.0) && scope == v.1
    case Err(e) => r == Err(e)
  }

  /** The same for an operation that yields only the new scopes. */
  ghost predicate Applied(r: PResult<()>, scope: ST.SymState, spec: PResult<ST.SymState>) {
    match spec
    case Ok(v) => r == Ok(()) && scope == v
    case Err(e) => r == Err(e)
  }

  class Parser {
    /** The token sequence delivered by the scanner. */
    const toks: seq<Token>
    /** return_type: that of the subroutine being parsed; TypeNone in the main body. */
    var returnType: ValType
    const st: ST.SymbolTable

    ghost predicate Valid()
      reads this, st, st.Repr
    {
      st.Valid() && this !in st.Repr && Scoped(st.state)
    }

    constructor (toks: seq<Token>)
      ensures Valid() && fresh(st.Repr)
      ensures this.toks == toks && returnType == TypeNone
      ensures st.state == ST.InitState()
    {
      this.toks := toks;
      returnType := TypeNone;
      st := new ST.SymbolTable.Init();
    }

    // -------------------------------------------------------------------
    // Token primitives
    // -------------------------------------------------------------------

    /** expect */
    method ExpectToken(p: nat, k: TokenKind) returns (r: PResult<nat>)
      requires p <= |toks|
      ensures r == ExpectTok(toks, p, k)
    {
      if p < |toks| && toks[p].kind == k {
        return Ok(p + 1);
      }
      return Err(Expect(k));
    }

    /** expect_id */
    method ExpectIdent(p: nat) returns (r: PResult<(ST.Name, nat)>)
      requires p <= |toks|
      ensures r == ExpectId(toks, p)
    {
      if p < |toks| && toks[p].kind == TId {
        return Ok((toks[p].lexeme, p + 1));
      }
      return Err(Expect(TId));
    }

    // -------------------------------------------------------------------
    // Expressions
    // -------------------------------------------------------------------

    /** parse_expr */
    method ParseExpr(p: nat) returns (r: PResult<(ValType, nat)>)
      requires Valid() && p <= |toks|
      ensures r == Expr(toks, p, st.state)
      decreases |toks| - p, 4
    {
      var s := ParseSimple(p);
      if s.Err? {
        return s;
      }
      if IsRelop(Peek(toks, s.value.1)) {
        r := ParseRelation(s.value.1, s.value.0);
      } else {
        r := s;
      }
    }

    /** The relational part of parse_expr, for a left operand of type t1. */
    method ParseRelation(p: nat, t1: ValType) returns (r: PResult<(ValType, nat)>)
      requires Valid() && p < |toks|
      ensures r == Relation(toks, p, st.state, t1)
      decreases |toks| - p, 0
    {
      var op := toks[p].kind;
      if IsArray(t1) {
        return Err(IllegalArrayOperation);
      }
      var s := ParseSimple(p + 1);
      if s.Err? {
        return s;
      }
      var t2 := s.value.0;
      if IsArray(t2) {
        return Err(IllegalArrayOperation);
      }
      if op == TEq || op == TNe {
        var c := Chk(t1, t2);
        if c.Err? {
          return Err(c.error);
        }
      } else {
        var c := Chk(t1, TypeInteger);
        if c.Err? {
          return Err(c.error);
        }
        c := Chk(t2, TypeInteger);
        if c.Err? {
          return Err(c.error);
        }
      }
      return Ok((TypeBoolean, s.value.1));
    }

    /** parse_simple */
    method ParseSimple(p: nat) returns (r: PResult<(ValType, nat)>)
      requires Valid() && p <= |toks|
      ensures r == Simple(toks, p, st.state)
      decreases |toks| - p, 3
    {
      if Peek(toks, p) == TMinus {
        r := ParseNegated(p);
        return;
      }
      var t := ParseTerm(p);
      if t.Err? {
        return t;
      }
      if IsAddop(Peek(toks, t.value.1)) && IsArray(t.value.0) {
        return Err(IllegalArrayOperation);
      }
      r := ParseSimpleRest(t.value.1, t.value.0);
    }

    /** The addop loop of parse_simple, after a first term of type t0. */
    method ParseSimpleRest(p: nat, t0: ValType) returns (r: PResult<(ValType, nat)>)
      requires Valid() && p <= |toks|
      ensures r == SimpleRest(toks, p, st.state, t0)
      decreases |toks| - p, 1
    {
      var pos := p;
      while IsAddop(Peek(toks, pos))
        invariant p <= pos <= |toks|
        invariant SimpleRest(toks, p, st.state, t0) == SimpleRest(toks, pos, st.state, t0)
        decreases |toks| - pos
      {
        var q := ParseAddStep(pos, t0);
        if q.Err? {
          return Err(q.error);
        }
        pos := q.value;
      }
      return Ok((t0, pos));
    }

    /** The leading-minus branch of parse_simple. */
    method ParseNegated(p: nat) returns (r: PResult<(ValType, nat)>)
      requires Valid() && p < |toks|
      ensures r == Negated(toks, p, st.state)
      decreases |toks| - p, 0
    {
      var t := ParseTerm(p + 1);
      if t.Err? {
        return t;
      }
      if IsArray(t.value.0) {
        return Err(IllegalArrayOperation);
      }
      var c := Chk(t.value.0, TypeInteger);
      if c.Err? {
        return Err(c.error);
      }
      return t;
    }

    /** One round of the addop loop of parse_simple, with first operand type t0. */
    method ParseAddStep(p: nat, t0: ValType) returns (r: PResult<nat>)
      requires Valid() && p < |toks|
      ensures r == AddStep(toks, p, st.state, t0)
      decreases |toks| - p, 0
    {
      var op := toks[p].kind;
      var t := ParseTerm(p + 1);
      if t.Err? {
        return Err(t.error);
      }
      var t1 := t.value.0;
      if IsArray(t1) {
        return Err(IllegalArrayOperation);
      }
      var c := if op == TOr then Chk(t0, TypeBoolean) else IntOperand(t0);
      if c.Err? {
        return Err(c.error);
      }
      c := if op == TOr then Chk(t1, TypeBoolean) else IntOperand(t1);
      if c.Err? {
        return Err(c.error);
      }
      return Ok(t.value.1);
    }

    /** parse_term */
    method ParseTerm(p: nat) returns (r: PResult<(ValType, nat)>)
      requires Valid() && p <= |toks|
      ensures r == Term(toks, p, st.state)
      decreases |toks| - p, 2
    {
      var f := ParseFactor(p);
      if f.Err? {
        return f;
      }
      if IsMulop(Peek(toks, f.value.1)) && IsArray(f.value.0) {
        return Err(IllegalArrayOperation);
      }
      r := ParseTermRest(f.value.1, f.value.0);
    }

    /** The mulop loop of parse_term, after a first factor of type t0. */
    method ParseTermRest(p: nat, t0: ValType) returns (r: PResult<(ValType, nat)>)
      requires Valid() && p <= |toks|
      ensures r == TermRest(toks, p, st.state, t0)
      decreases |toks| - p, 1
    {
      var pos := p;
      while IsMulop(Peek(toks, pos))
        invariant p <= pos <= |toks|
        invariant TermRest(toks, p, st.state, t0) == TermRest(toks, pos, st.state, t0)
        decreases |toks| - pos
      {
        var q := ParseMulStep(pos, t0);
        if q.Err? {
          return Err(q.error);
        }
        pos := q.value;
      }
      return Ok((t0, pos));
    }

    /** One round of the mulop loop of parse_term, with first operand type t0. */
    method ParseMulStep(p: nat, t0: ValType) returns (r: PResult<nat>)
      requires Valid() && p < |toks|
      ensures r == MulStep(toks, p, st.state, t0)
      decreases |toks| - p, 0
    {
      var op := toks[p].kind;
      var f := ParseFactor(p + 1);
      if f.Err? {
        return Err(f.error);
      }
      if IsArray(f.value.0) {
        return Err(IllegalArrayOperation);
      }
      var want := if op == TAnd then TypeBoolean else TypeInteger;
      var c := Chk(t0, want);
      if c.Err? {
        return Err(c.error);
      }
      c := Chk(f.value.0, want);
      if c.Err? {
        return Err(c.error);
      }
      return Ok(f.value.1);
    }

    /** parse_factor */
    method ParseFactor(p: nat) returns (r: PResult<(ValType, nat)>)
      requires Valid() && p <= |toks|
      ensures r == Factor(toks, p, st.state)
      decreases |toks| - p, 1
    {
      var k := Peek(toks, p);
      if k == TId {
        r := ParseIdFactor(p);
      } else if k == TNum {
        r := Ok((TypeInteger, p + 1));
      } else if k == TLParen {
        r := ParseParenFactor(p);
      } else if k == TNot {
        r := ParseNotFactor(p);
      } else if k == TTrue || k == TFalse {
        r := Ok((TypeBoolean, p + 1));
      } else {
        r := Err(ExpectedFactor);
      }
    }

    /** The identifier case of parse_factor. */
    method ParseIdFactor(p: nat) returns (r: PResult<(ValType, nat)>)
      requires Valid() && p < |toks|
      ensures r == IdFactor(toks, p, st.state)
      decreases |toks| - p, 0
    {
      var found := st.FindName(toks[p].lexeme);
      if found.None? {
        return Err(UnknownIdentifier);
      }
      r := ParseDesignator(p + 1, found.value);
    }

    /** The index or argument list after a name in parse_factor. */
    method ParseDesignator(p: nat, prop: ST.IdProp) returns (r: PResult<(ValType, nat)>)
      requires Valid() && p <= |toks|
      requires IsCallableType(prop.vtype) ==> 0 < |prop.params|
      ensures r == Designator(toks, p, st.state, prop)
      decreases |toks| - p, 2
    {
      if Peek(toks, p) == TLBrack {
        if !IsArray(prop.vtype) {
          return Err(NotAnArray);
        }
        var q := ParseIndex(p);
        if q.Err? {
          return Err(q.error);
        }
        return Ok((ElementType(prop.vtype), q.value));
      } else if Peek(toks, p) == TLParen {
        if !IsFunction(prop.vtype) {
          return Err(NotAFunction);
        }
        var q := ParseArglist(p, prop);
        if q.Err? {
          return Err(q.error);
        }
        return Ok((SetReturnType(prop.vtype), q.value));
      }
      return Ok((prop.vtype, p));
    }

    /** The parenthesis case of parse_factor. */
    method ParseParenFactor(p: nat) returns (r: PResult<(ValType, nat)>)
      requires Valid() && p < |toks|
      ensures r == ParenFactor(toks, p, st.state)
      decreases |toks| - p, 0
    {
      var e := ParseExpr(p + 1);
      if e.Err? {
        return e;
      }
      var q := ExpectToken(e.value.1, TRParen);
      if q.Err? {
        return Err(q.error);
      }
      return Ok((e.value.0, q.value));
    }

    /** The "not" case of parse_factor. */
    method ParseNotFactor(p: nat) returns (r: PResult<(ValType, nat)>)
      requires Valid() && p < |toks|
      ensures r == NotFactor(toks, p, st.state)
      decreases |toks| - p, 0
    {
      var f := ParseFactor(p + 1);
      if f.Err? {
        return f;
      }
      if IsArray(f.value.0) {
        return Err(IllegalArrayOperation);
      }
      var c := Chk(f.value.0, TypeBoolean);
      if c.Err? {
        return Err(c.error);
      }
      return f;
    }

    /** parse_index */
    method ParseIndex(p: nat) returns (r: PResult<nat>)
      requires Valid() && p <= |toks|
      ensures r == Index(toks, p, st.state)
      decreases |toks| - p, 0
    {
      var q := ExpectToken(p, TLBrack);
      if q.Err? {
        return q;
      }
      var s := ParseSimple(q.value);
      if s.Err? {
        return Err(s.error);
      }
      var c := Chk(s.value.0, TypeInteger);
      if c.Err? {
        return Err(c.error);
      }
      r := ExpectToken(s.value.1, TRBrack);
    }

    /** parse_arglist, for the subroutine whose properties are prop; "()" is one argument too few. */
    method ParseArglist(p: nat, prop: ST.IdProp) returns (r: PResult<nat>)
      requires Valid() && p <= |toks| && 0 < |prop.params|
      ensures r == ArgList(toks, p, st.state, prop)
      decreases |toks| - p, 1
    {
      var q := ExpectToken(p, TLParen);
      if q.Err? {
        return q;
      }
      if !StartsExpr(Peek(toks, q.value)) {
        return Err(TooFewArguments);
      }
      q := ParseArgument(p, prop.params[0]);
      if q.Err? {
        return q;
      }
      r := ParseArgRest(q.value, prop, 1);
    }

    /** The {"," expr} ")" loop of parse_arglist, after i arguments. */
    method ParseArgRest(p: nat, prop: ST.IdProp, i: nat) returns (r: PResult<nat>)
      requires Valid() && p <= |toks| && 0 < i <= |prop.params|
      ensures r == ArgRest(toks, p, st.state, prop, i)
      decreases |toks| - p, 1
    {
      var pos, n := p, i;
      while Peek(toks, pos) == TComma
        invariant p <= pos <= |toks| && 0 < n <= |prop.params|
        invariant ArgRest(toks, p, st.state, prop, i) == ArgRest(toks, pos, st.state, prop, n)
        decreases |toks| - pos
      {
        if n >= |prop.params| {
          return Err(TooManyArguments);
        }
        var q := ParseArgument(pos, prop.params[n]);
        if q.Err? {
          return q;
        }
        pos, n := q.value, n + 1;
      }
      if n < |prop.params| {
        return Err(TooFewArguments);
      }
      r := ExpectToken(pos, TRParen);
    }

    /** One argument of parse_arglist, after the separator at p, for a parameter of type t. */
    method ParseArgument(p: nat, t: ValType) returns (r: PResult<nat>)
      requires Valid() && p < |toks|
      ensures r == Argument(toks, p, st.state, t)
      decreases |toks| - p, 0
    {
      var e := ParseExpr(p + 1);
      if e.Err? {
        return Err(e.error);
      }
      var c := ArgCheck(e.value.0, t);
      if c.Err? {
        return Err(c.error);
      }
      return Ok(e.value.1);
    }

    // -------------------------------------------------------------------
    // Statements, checked against the return type of the subroutine
    // being parsed
    // -------------------------------------------------------------------

    /** parse_statements */
    method ParseStatements(p: nat) returns (r: PResult<nat>)
      requires Valid() && p <= |toks|
      ensures r == Statements(toks, p, st.state, returnType)
      decreases |toks| - p, 2
    {
      if Peek(toks, p) == TChillax {
        return Ok(p + 1);
      }
      var q := ParseStatement(p);
      if q.Err? {
        return q;
      }
      r := ParseStatementsRest(q.value);
    }

    /** The {";" statement} loop of parse_statements. */
    method ParseStatementsRest(p: nat) returns (r: PResult<nat>)
      requires Valid() && p <= |toks|
      ensures r == StatementsRest(toks, p, st.state, returnType)
      decreases |toks| - p, 1
    {
      var pos := p;
      while Peek(toks, pos) == TSemicolon
        invariant p <= pos <= |toks|
        invariant StatementsRest(toks, p, st.state, returnType) == StatementsRest(toks, pos, st.state, returnType)
        decreases |toks| - pos
      {
        var q := ParseStatement(pos + 1);
        if q.Err? {
          return q;
        }
        pos := q.value;
      }
      return Ok(pos);
    }

    /** parse_statement */
    method ParseStatement(p: nat) returns (r: PResult<nat>)
      requires Valid() && p <= |toks|
      ensures r == Statement(toks, p, st.state, returnType)
      decreases |toks| - p, 1
    {
      var k := Peek(toks, p);
      if k == TLet {
        r := ParseAssign(p);
      } else if k == TId {
        r := ParseCall(p);
      } else if k == TIf {
        r := ParseIf(p);
      } else if k == TInput {
        r := ParseInput(p);
      } else if k == TOutput {
        r := ParseOutput(p);
      } else if k == TReturn {
        r := ParseReturn(p);
      } else if k == TWhile {
        r := ParseWhile(p);
      } else {
        r := Err(ExpectedStatement);
      }
    }

    /** parse_assign */
    method ParseAssign(p: nat) returns (r: PResult<nat>)
      requires Valid() && p <= |toks|
      ensures r == Assign(toks, p, st.state)
      decreases |toks| - p, 0
    {
      var q0 := ExpectToken(p, TLet);
      if q0.Err? {
        return q0;
      }
      var idr := ExpectIdent(q0.value);
      if idr.Err? {
        return Err(idr.error);
      }
      var found := st.FindName(idr.value.0);
      if found.None? {
        return Err(UnknownIdentifier);
      }
      r := ParseAssignTo(idr.value.1, found.value.vtype);
    }

    /** The target checks, index and "=" of parse_assign, for a name declared with type declared. */
    method ParseAssignTo(p: nat, declared: ValType) returns (r: PResult<nat>)
      requires Valid() && p <= |toks|
      ensures r == AssignTo(toks, p, st.state, declared)
      decreases |toks| - p, 0
    {
      var indexed := Peek(toks, p) == TLBrack;
      if IsCallableType(declared) {
        return Err(NotAVariable);
      } else if indexed && !IsArray(declared) {
        return Err(NotAnArray);
      }
      var q1 := Ok(p);
      if indexed {
        q1 := ParseIndex(p);
        if q1.Err? {
          return q1;
        }
      }
      var q2 := ExpectToken(q1.value, TEq);
      if q2.Err? {
        return q2;
      }
      r := ParseAssignSource(q2.value, declared, indexed);
    }

    /**
     * The right-hand side of parse_assign, for a target declared with type
     * declared; an indexed target takes no allocation.
     */
    method ParseAssignSource(p: nat, declared: ValType, indexed: bool) returns (r: PResult<nat>)
      requires Valid() && p <= |toks|
      ensures r == AssignSource(toks, p, st.state, declared, indexed)
      decreases |toks| - p, 0
    {
      var target := if indexed then declared ^ TypeArray else declared;
      if StartsExpr(Peek(toks, p)) {
        var e := ParseExpr(p);
        if e.Err? {
          return Err(e.error);
        }
        var c := AssignCheck(e.value.0, target, declared, indexed);
        if c.Err? {
          return Err(c.error);
        }
        return Ok(e.value.1);
      } else if Peek(toks, p) == TArray {
        if indexed || !IsArray(declared) {
          return Err(NotAnArray);
        }
        var s := ParseSimple(p + 1);
        if s.Err? {
          return Err(s.error);
        }
        var c := Chk(s.value.0, TypeInteger);
        if c.Err? {
          return Err(c.error);
        }
        return Ok(s.value.1);
      }
      return Err(ExpectedExpressionOrArrayAllocation);
    }

    /** parse_call */
    method ParseCall(p: nat) returns (r: PResult<nat>)
      requires Valid() && p <= |toks|
      ensures r == Call(toks, p, st.state)
      decreases |toks| - p, 0
    {
      var idr := ExpectIdent(p);
      if idr.Err? {
        return Err(idr.error);
      }
      var found := st.FindName(idr.value.0);
      if found.None? {
        return Err(UnknownIdentifier);
      }
      if IsFunction(found.value.vtype) || !IsCallableType(found.value.vtype) {
        return Err(NotAProcedure);
      }
      r := ParseArglist(idr.value.1, found.value);
    }

    /** The guard of an if, elif or while: a BOOLEAN expression and ":". */
    method ParseGuard(p: nat) returns (r: PResult<nat>)
      requires Valid() && p <= |toks|
      ensures r == Guard(toks, p, st.state)
      decreases |toks| - p, 0
    {
      var e := ParseExpr(p);
      if e.Err? {
        return Err(e.error);
      }
      var c := Chk(e.value.0, TypeBoolean);
      if c.Err? {
        return Err(c.error);
      }
      r := ExpectToken(e.value.1, TColon);
    }

    /** parse_if */
    method ParseIf(p: nat) returns (r: PResult<nat>)
      requires Valid() && p <= |toks|
      ensures r == If(toks, p, st.state, returnType)
      decreases |toks| - p, 0
    {
      var q := ExpectToken(p, TIf);
      if q.Err? {
        return q;
      }
      q := ParseGuard(q.value);
      if q.Err? {
        return q;
      }
      q := ParseStatements(q.value);
      if q.Err? {
        return q;
      }
      r := ParseIfRest(q.value);
    }

    /** The elif loop, the else arm and the "end" of parse_if. */
    method ParseIfRest(p: nat) returns (r: PResult<nat>)
      requires Valid() && p <= |toks|
      ensures r == IfRest(toks, p, st.state, returnType)
      decreases |toks| - p, 2
    {
      var pos := p;
      while Peek(toks, pos) == TElif
        invariant p <= pos <= |toks|
        invariant IfRest(toks, p, st.state, returnType) == IfRest(toks, pos, st.state, returnType)
        decreases |toks| - pos
      {
        var q := ParseArm(pos);
        if q.Err? {
          return q;
        }
        pos := q.value;
      }
      r := ParseIfEnd(pos);
    }

    /** The optional else arm and the "end" of parse_if. */
    method ParseIfEnd(p: nat) returns (r: PResult<nat>)
      requires Valid() && p <= |toks|
      ensures r == IfEnd(toks, p, st.state, returnType)
      decreases |toks| - p, 1
    {
      var q := Ok(p);
      if Peek(toks, p) == TElse {
        q := ParseArm(p);
        if q.Err? {
          return q;
        }
      }
      r := ExpectToken(q.value, TEnd);
    }

    /** An elif or else arm of parse_if, introduced by the keyword at p. */
    method ParseArm(p: nat) returns (r: PResult<nat>)
      requires Valid() && p < |toks|
      ensures r == Arm(toks, p, st.state, returnType)
      decreases |toks| - p, 0
    {
      var q;
      if toks[p].kind == TElif {
        q := ParseGuard(p + 1);
      } else {
        q := ExpectToken(p + 1, TColon);
      }
      if q.Err? {
        return q;
      }
      r := ParseStatements(q.value);
    }

    /** parse_input */
    method ParseInput(p: nat) returns (r: PResult<nat>)
      requires Valid() && p <= |toks|
      ensures r == Input(toks, p, st.state)
      decreases |toks| - p, 0
    {
      var q0 := ExpectToken(p, TInput);
      if q0.Err? {
        return q0;
      }
      var q1 := ExpectToken(q0.value, TLParen);
      if q1.Err? {
        return q1;
      }
      var idr := ExpectIdent(q1.value);
      if idr.Err? {
        return Err(idr.error);
      }
      var found := st.FindName(idr.value.0);
      if found.None? {
        return Err(UnknownIdentifier);
      }
      r := ParseInputTarget(idr.value.1, found.value.vtype);
    }

    /** The optional index and ")" of parse_input, for a name of type t. */
    method ParseInputTarget(p: nat, t: ValType) returns (r: PResult<nat>)
      requires Valid() && p <= |toks|
      ensures r == InputTarget(toks, p, st.state, t)
      decreases |toks| - p, 0
    {
      var pos := p;
      if Peek(toks, pos) == TLBrack {
        if !IsArray(t) {
          return Err(NotAnArray);
        }
        var q := ParseIndex(pos);
        if q.Err? {
          return q;
        }
        pos := q.value;
      } else if IsArray(t) {
        return Err(ExpectedScalar);
      }
      r := ExpectToken(pos, TRParen);
    }

    /** One operand of parse_output: a string or a non-array expression. */
    method ParseOutputItem(p: nat) returns (r: PResult<nat>)
      requires Valid() && p <= |toks|
      ensures r == OutputItem(toks, p, st.state)
      decreases |toks| - p, 0
    {
      if Peek(toks, p) == TStr {
        return Ok(p + 1);
      } else if StartsExpr(Peek(toks, p)) {
        var e := ParseExpr(p);
        if e.Err? {
          return Err(e.error);
        }
        if IsArray(e.value.0) {
          return Err(IllegalArrayOperation);
        }
        return Ok(e.value.1);
      }
      return Err(ExpectedExpressionOrString);
    }

    /** parse_output */
    method ParseOutput(p: nat) returns (r: PResult<nat>)
      requires Valid() && p <= |toks|
      ensures r == Output(toks, p, st.state)
      decreases |toks| - p, 0
    {
      var q := ExpectToken(p, TOutput);
      if q.Err? {
        return q;
      }
      q := ExpectToken(q.value, TLParen);
      if q.Err? {
        return q;
      }
      q := ParseOutputItem(q.value);
      if q.Err? {
        return q;
      }
      r := ParseOutputRest(q.value);
    }

    /** The {".." operand} ")" loop of parse_output. */
    method ParseOutputRest(p: nat) returns (r: PResult<nat>)
      requires Valid() && p <= |toks|
      ensures r == OutputRest(toks, p, st.state)
      decreases |toks| - p, 1
    {
      var pos := p;
      while Peek(toks, pos) == TDotDot
        invariant p <= pos <= |toks|
        invariant OutputRest(toks, p, st.state) == OutputRest(toks, pos, st.state)
        decreases |toks| - pos
      {
        var q := ParseOutputItem(pos + 1);
        if q.Err? {
          return q;
        }
        pos := q.value;
      }
      r := ExpectToken(pos, TRParen);
    }

    /** parse_return */
    method ParseReturn(p: nat) returns (r: PResult<nat>)
      requires Valid() && p <= |toks|
      ensures r == Return(toks, p, st.state, returnType)
      decreases |toks| - p, 0
    {
      var q := ExpectToken(p, TReturn);
      if q.Err? {
        return q;
      }
      if IsProcedure(returnType) {
        return Err(ReturnExpressionNotAllowed);
      } else if StartsExpr(Peek(toks, q.value)) {
        if IsFunction(returnType) {
          var e := ParseExpr(q.value);
          if e.Err? {
            return Err(e.error);
          }
          var c := Chk(SetReturnType(e.value.0), SetReturnType(returnType));
          if c.Err? {
            return Err(c.error);
          }
          return Ok(e.value.1);
        }
        return q;
      } else if IsFunction(returnType) {
        return Err(MissingReturnExpression);
      }
      return q;
    }

    /** parse_while */
    method ParseWhile(p: nat) returns (r: PResult<nat>)
      requires Valid() && p <= |toks|
      ensures r == While(toks, p, st.state, returnType)
      decreases |toks| - p, 0
    {
      var q := ExpectToken(p, TWhile);
      if q.Err? {
        return q;
      }
      q := ParseGuard(q.value);
      if q.Err? {
        return q;
      }
      q := ParseStatements(q.value);
      if q.Err? {
        return q;
      }
      r := ExpectToken(q.value, TEnd);
    }

    // -------------------------------------------------------------------
    // Declarations, which extend the symbol table
    // -------------------------------------------------------------------

    /** parse_type, or-ing the type read into t0. */
    method ParseType(p: nat, t0: ValType) returns (r: PResult<(ValType, nat)>)
      requires p <= |toks|
      ensures r == Type(toks, p, t0)
    {
      var k := Peek(toks, p);
      if k != TBool && k != TInt {
        return Err(ExpectedTypeSpecifier);
      }
      var t := t0 | (if k == TBool then TypeBoolean else TypeInteger);
      if Peek(toks, p + 1) == TArray {
        return Ok((t | TypeArray, p + 2));
      }
      return Ok((t, p + 1));
    }

    /** The find_name check and insert_name call that declare one variable or parameter. */
    method DeclareName(id: ST.Name, t: ValType) returns (r: PResult<()>)
      requires Valid() && !IsCallableType(t)
      modifies st.Repr
      ensures Valid() && fresh(st.Repr - old(st.Repr))
      ensures Applied(r, st.state, DeclareVar(old(st.state), id, t))
    {
      var found := st.FindName(id);
      if found.Some? {
        return Err(MultipleDefinition);
      }
      var width := st.GetVariablesWidth();
      InsertScoped(st.state, id, ST.IdProp(t, width, []));
      var ok := st.InsertName(id, ST.IdProp(t, width, []));
      if !ok {
        return Err(MultipleDefinition);
      }
      return Ok(());
    }

    /** parse_vardef */
    method ParseVardef(p: nat) returns (r: PResult<nat>)
      requires Valid() && p <= |toks|
      modifies st.Repr
      ensures Valid() && fresh(st.Repr - old(st.Repr))
      ensures Committed(r, st.state, Vardef(toks, p, old(st.state)))
    {
      var ty := ParseType(p, TypeNone);
      if ty.Err? {
        return Err(ty.error);
      }
      var idr := ExpectIdent(ty.value.1);
      if idr.Err? {
        return Err(idr.error);
      }
      DeclaredTypeShape(ty.value.0);
      var d := DeclareName(idr.value.0, ty.value.0);
      if d.Err? {
        return Err(d.error);
      }
      r := ParseVardefRest(idr.value.1, ty.value.0);
    }

    /** The {"," id} ";" loop of parse_vardef, declaring each name with type t. */
    method ParseVardefRest(p: nat, t: ValType) returns (r: PResult<nat>)
      requires Valid() && p <= |toks| && !IsCallableType(t)
      modifies st.Repr
      ensures Valid() && fresh(st.Repr - old(st.Repr))
      ensures Committed(r, st.state, VardefRest(toks, p, old(st.state), t))
    {
      var pos := p;
      while Peek(toks, pos) == TComma
        invariant p <= pos <= |toks|
        invariant Valid() && fresh(st.Repr - old(st.Repr))
        invariant VardefRest(toks, p, old(st.state), t) == VardefRest(toks, pos, st.state, t)
        decreases |toks| - pos
      {
        var idr := ExpectIdent(pos + 1);
        if idr.Err? {
          return Err(idr.error);
        }
        var d := DeclareName(idr.value.0, t);
        if d.Err? {
          return Err(d.error);
        }
        pos := idr.value.1;
      }
      r := ExpectToken(pos, TSemicolon);
    }

    /** parse_body, checking return statements against the return type being parsed. */
    method ParseBody(p: nat) returns (r: PResult<nat>)
      requires Valid() && p <= |toks|
      modifies st.Repr
      ensures Valid() && fresh(st.Repr - old(st.Repr))
      ensures Committed(r, st.state, Body(toks, p, old(st.state), returnType))
    {
      var pos := p;
      while Peek(toks, pos) == TBool || Peek(toks, pos) == TInt
        invariant p <= pos <= |toks|
        invariant Valid() && fresh(st.Repr - old(st.Repr))
        invariant Body(toks, p, old(st.state), returnType) == Body(toks, pos, st.state, returnType)
        decreases |toks| - pos
      {
        var q := ParseVardef(pos);
        if q.Err? {
          return q;
        }
        pos := q.value;
      }
      r := ParseStatements(pos);
    }

    /** The parameter list of parse_subdef, collected in order (the source's linked list). */
    method ParseParams(p: nat) returns (r: PResult<(seq<Param>, nat)>)
      requires p <= |toks|
      ensures r == Params(toks, p)
    {
      var ty := ParseType(p, TypeNone);
      if ty.Err? {
        return Err(ty.error);
      }
      var idr := ExpectIdent(ty.value.1);
      if idr.Err? {
        return Err(idr.error);
      }
      r := ParseParamsRest(idr.value.1, [Param(idr.value.0, ty.value.0)]);
    }

    /** The {"," type id} ")" loop of the parameter list, after the parameters in acc. */
    method ParseParamsRest(p: nat, acc: seq<Param>) returns (r: PResult<(seq<Param>, nat)>)
      requires p <= |toks|
      requires forall i :: 0 <= i < |acc| ==> IsDeclaredType(acc[i].ptype)
      ensures r == ParamsRest(toks, p, acc)
    {
      var pos, ps := p, acc;
      while Peek(toks, pos) == TComma
        invariant p <= pos <= |toks|
        invariant forall i :: 0 <= i < |ps| ==> IsDeclaredType(ps[i].ptype)
        invariant ParamsRest(toks, p, acc) == ParamsRest(toks, pos, ps)
        decreases |toks| - pos
      {
        var ty := ParseType(pos + 1, TypeNone);
        if ty.Err? {
          return Err(ty.error);
        }
        var idr := ExpectIdent(ty.value.1);
        if idr.Err? {
          return Err(idr.error);
        }
        pos, ps := idr.value.1, ps + [Param(idr.value.0, ty.value.0)];
      }
      var q := ExpectToken(pos, TRParen);
      if q.Err? {
        return Err(q.error);
      }
      return Ok((ps, q.value));
    }

    /** The loop of parse_subdef that declares the parameters in the new local scope. */
    method DeclareParams(ps: seq<Param>) returns (r: PResult<()>)
      requires Valid()
      requires forall i :: 0 <= i < |ps| ==> IsDeclaredType(ps[i].ptype)
      modifies st.Repr
      ensures Valid() && fresh(st.Repr - old(st.Repr))
      ensures Applied(r, st.state, InstallParams(old(st.state), ps))
    {
      var i := 0;
      while i < |ps|
        invariant i <= |ps|
        invariant Valid() && fresh(st.Repr - old(st.Repr))
        invariant InstallParams(old(st.state), ps) == InstallParams(st.state, ps[i..])
      {
        DeclaredTypeShape(ps[i].ptype);
        var d := DeclareName(ps[i].id, ps[i].ptype);
        if d.Err? {
          return d;
        }
        assert ps[i..][1..] == ps[i + 1..];
        i := i + 1;
      }
      return Ok(());
    }

    /** parse_subdef */
    method ParseSubdef(p: nat) returns (r: PResult<nat>)
      requires Valid() && p <= |toks|
      modifies this, st.Repr
      ensures Valid() && fresh(st.Repr - old(st.Repr))
      ensures Committed(r, st.state, Subdef(toks, p, old(st.state)))
      ensures r.Ok? ==> returnType == TypeNone
    {
      returnType := TypeNone;
      var sub := ExpectIdent(p);
      if sub.Err? {
        return Err(sub.error);
      }
      var q0 := ExpectToken(sub.value.1, TLParen);
      if q0.Err? {
        return q0;
      }
      var ps := ParseParams(q0.value);
      if ps.Err? {
        return Err(ps.error);
      }
      r := ParseSubdefRest(ps.value.1, sub.value.0, ps.value.0);
    }

    /**
     * The part of parse_subdef after the parameter list: the return type,
     * open_subroutine, the subroutine's body, and return_type reset.
     */
    method ParseSubdefRest(p: nat, sub: ST.Name, ps: seq<Param>) returns (r: PResult<nat>)
      requires Valid() && p <= |toks| && 0 < |ps|
      requires forall i :: 0 <= i < |ps| ==> IsDeclaredType(ps[i].ptype)
      modifies this, st.Repr
      ensures Valid() && fresh(st.Repr - old(st.Repr))
      ensures Committed(r, st.state, SubdefRest(toks, p, old(st.state), sub, ps))
      ensures r.Ok? ==> returnType == TypeNone
    {
      var ret := Ok((TypeCallable, p));
      if Peek(toks, p) == TArrow {
        ret := ParseType(p + 1, TypeCallable);
        if ret.Err? {
          return Err(ret.error);
        }
      }
      returnType := ret.value.0;
      r := ParseEnter(ret.value.1, sub, ps);
      returnType := TypeNone;
    }

    /**
     * open_subroutine for sub, typed with the return type being parsed,
     * followed by the subroutine's parameters and body.
     */
    method ParseEnter(p: nat, sub: ST.Name, ps: seq<Param>) returns (r: PResult<nat>)
      requires Valid() && p <= |toks| && 0 < |ps|
      requires forall i :: 0 <= i < |ps| ==> IsDeclaredType(ps[i].ptype)
      modifies st.Repr
      ensures Valid() && fresh(st.Repr - old(st.Repr))
      ensures Committed(r, st.state, Enter(toks, p, old(st.state), sub, ps, returnType))
    {
      var entered := EnterSubroutine(sub, ps);
      if !entered {
        return Err(MultipleDefinition);
      }
      r := ParseSubroutineBody(p, ps);
    }

    /** get_variables_width and open_subroutine for sub, typed with the return type being parsed. */
    method EnterSubroutine(sub: ST.Name, ps: seq<Param>) returns (entered: bool)
      requires Valid() && 0 < |ps|
      modifies st.Repr
      ensures Valid() && fresh(st.Repr - old(st.Repr))
      ensures var o := ST.Open(old(st.state), sub, ST.IdProp(returnType, old(st.state).offset, ParamTypes(ps)));
              entered == o.0 && st.state == o.1
    {
      var width := st.GetVariablesWidth();
      var prop := ST.IdProp(returnType, width, ParamTypes(ps));
      OpenScoped(st.state, sub, prop);
      entered := st.OpenSubroutine(sub, prop);
    }

    /**
     * The part of parse_subdef after open_subroutine: the parameters are
     * declared, then ":" and the body follow.
     */
    method ParseSubroutineBody(p: nat, ps: seq<Param>) returns (r: PResult<nat>)
      requires Valid() && p <= |toks|
      requires forall i :: 0 <= i < |ps| ==> IsDeclaredType(ps[i].ptype)
      modifies st.Repr
      ensures Valid() && fresh(st.Repr - old(st.Repr))
      ensures Committed(r, st.state, SubroutineBody(toks, p, old(st.state), ps, returnType))
    {
      var d := DeclareParams(ps);
      if d.Err? {
        return Err(d.error);
      }
      r := ParseLocalBody(p);
    }

    /** The ":" body part of parse_subdef, followed by close_subroutine. */
    method ParseLocalBody(p: nat) returns (r: PResult<nat>)
      requires Valid() && p <= |toks|
      modifies st.Repr
      ensures Valid() && fresh(st.Repr - old(st.Repr))
      ensures Committed(r, st.state, LocalBody(toks, p, old(st.state), returnType))
    {
      var q := ExpectToken(p, TColon);
      if q.Err? {
        return q;
      }
      r := ParseBody(q.value);
      if r.Ok? {
        CloseScoped(st.state);
        st.CloseSubroutine();
      }
    }

    /** The { subdef } loop of parse_program. */
    method ParseSubdefs(p: nat) returns (r: PResult<nat>)
      requires Valid() && p <= |toks| && returnType == TypeNone
      modifies this, st.Repr
      ensures Valid() && fresh(st.Repr - old(st.Repr))
      ensures Committed(r, st.state, Subdefs(toks, p, old(st.state)))
      ensures r.Ok? ==> returnType == TypeNone
    {
      var pos := p;
      while Peek(toks, pos) == TId
        invariant p <= pos <= |toks| && returnType == TypeNone
        invariant Valid() && fresh(st.Repr - old(st.Repr))
        invariant Subdefs(toks, p, old(st.state)) == Subdefs(toks, pos, st.state)
        decreases |toks| - pos
      {
        var q := ParseSubdef(pos);
        if q.Err? {
          return q;
        }
        pos := q.value;
      }
      return Ok(pos);
    }

    /** The "main" ":" body part of parse_program and the end-of-input check. */
    method ParseMain(p: nat) returns (r: PResult<()>)
      requires Valid() && p <= |toks| && returnType == TypeNone
      modifies st.Repr
      ensures Valid() && fresh(st.Repr - old(st.Repr))
      ensures Applied(r, st.state, MainPart(toks, p, old(st.state)))
    {
      var q := ExpectToken(p, TMain);
      if q.Err? {
        return Err(q.error);
      }
      q := ExpectToken(q.value, TColon);
      if q.Err? {
        return Err(q.error);
      }
      q := ParseBody(q.value);
      if q.Err? {
        return Err(q.error);
      }
      if Peek(toks, q.value) != TEOF {
        return Err(Unreachable);
      }
      return Ok(());
    }

    /** parse_program, on a fresh parser. */
    method ParseProgram() returns (r: PResult<()>)
      requires Valid() && st.state == ST.InitState() && returnType == TypeNone
      modifies this, st.Repr
      ensures Valid() && fresh(st.Repr - old(st.Repr))
      ensures Applied(r, st.state, Program(toks))
    {
      if Peek(toks, 0) == TEOF {
        return Err(Expect(TProgram));
      }
      var q := ExpectToken(0, TProgram);
      if q.Err? {
        return Err(q.error);
      }
      var name := ExpectIdent(q.value);
      if name.Err? {
        return Err(name.error);
      }
      q := ExpectToken(name.value.1, TColon);
      if q.Err? {
        return Err(q.error);
      }
      q := ParseSubdefs(q.value);
      if q.Err? {
        return Err(q.error);
      }
      r := ParseMain(q.value);
    }
  }

  /**
   * The compiler's front end on the tokens of one source file: a fresh
   * symbol table and parser, then parse_program.  The verdict is the
   * program's.
   */
  method CheckProgram(toks: seq<Token>) returns (r: PResult<()>)
    ensures r.Ok? <==> Program(toks).Ok?
    ensures r.Err? ==> r.error == Program(toks).error
  {
    var parser := new Parser(toks);
    r := parser.ParseProgram();
  }
}
