/**
 * The scanner's token kinds, the tokens the parser consumes, and the kinds
 * of fatal error the parser and type checker report.
 */
module Tokens {
  import opened ValTypes

  /**
   * The token kinds, numbered as an enumeration: the keywords, then the
   * relational, additive and multiplicative operators each in one
   * contiguous run (so that each operator class is a range test), then the
   * remaining punctuation.
   */
  newtype TokenKind = k: int | 0 <= k < 44

  const TEOF: TokenKind := 0
  const TId: TokenKind := 1
  const TNum: TokenKind := 2
  const TStr: TokenKind := 3
  const TArray: TokenKind := 4
  const TBool: TokenKind := 5
  const TChillax: TokenKind := 6
  const TElif: TokenKind := 7
  const TElse: TokenKind := 8
  const TEnd: TokenKind := 9
  const TFalse: TokenKind := 10
  const TIf: TokenKind := 11
  const TInput: TokenKind := 12
  const TInt: TokenKind := 13
  const TLet: TokenKind := 14
  const TMain: TokenKind := 15
  const TNot: TokenKind := 16
  const TOutput: TokenKind := 17
  const TProgram: TokenKind := 18
  const TReturn: TokenKind := 19
  const TTrue: TokenKind := 20
  const TWhile: TokenKind := 21
  const TEq: TokenKind := 22
  const TGe: TokenKind := 23
  const TGt: TokenKind := 24
  const TLe: TokenKind := 25
  const TLt: TokenKind := 26
  const TNe: TokenKind := 27
  const TMinus: TokenKind := 28
  const TOr: TokenKind := 29
  const TPlus: TokenKind := 30
  const TAnd: TokenKind := 31
  const TSlash: TokenKind := 32
  const TStar: TokenKind := 33
  const TRem: TokenKind := 34
  const TArrow: TokenKind := 35
  const TColon: TokenKind := 36
  const TComma: TokenKind := 37
  const TDotDot: TokenKind := 38
  const TLBrack: TokenKind := 39
  const TLParen: TokenKind := 40
  const TRBrack: TokenKind := 41
  const TRParen: TokenKind := 42
  const TSemicolon: TokenKind := 43

  /** A token: its kind and, for identifiers, numbers and strings, its text. */
  datatype Token = Token(kind: TokenKind, lexeme: seq<char>)

  /** IS_ADDOP: "-", "or" and "+". */
  predicate IsAddop(k: TokenKind) {
    TMinus <= k <= TPlus
  }

  /** IS_MULOP: "and", "/", "*" and "rem". */
  predicate IsMulop(k: TokenKind) {
    TAnd <= k <= TRem
  }

  /** IS_RELOP: "=", ">=", ">", "<=", "<" and "/=". */
  predicate IsRelop(k: TokenKind) {
    TEq <= k <= TNe
  }

  /** IS_ORDOP: the relational operators that compare integers. */
  predicate IsOrdop(k: TokenKind) {
    k == TGt || k == TGe || k == TLt || k == TLe
  }

  /** STARTS_FACTOR */
  predicate StartsFactor(k: TokenKind) {
    k == TId || k == TNum || k == TLParen || k == TNot || k == TTrue || k == TFalse
  }

  /** STARTS_EXPR: a factor start or a unary minus. */
  predicate StartsExpr(k: TokenKind) {
    k == TMinus || StartsFactor(k)
  }

  /** The kinds of fatal diagnostic; message text is not modelled. */
  datatype ErrKind =
    | Expect(kind: TokenKind)
    | ExpectedTypeSpecifier
    | ExpectedStatement
    | ExpectedFactor
    | ExpectedExpressionOrArrayAllocation
    | ExpectedExpressionOrString
    | ExpectedScalar
    | IllegalArrayOperation
    | MultipleDefinition
    | NotAnArray
    | NotAFunction
    | NotAProcedure
    | NotAVariable
    | TooFewArguments
    | TooManyArguments
    | UnknownIdentifier
    | Unreachable
    | ReturnExpressionNotAllowed
    | MissingReturnExpression
    | IncompatibleTypes(found: ValType, expected: ValType)
}
