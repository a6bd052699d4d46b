# AMPL-2023 front end: hash table, symbol table and type-checking parser

This project models the front end of the AMPL-2023 compiler (`amplc`).
The compiler reads a program in the small teaching language AMPL-2023,
parses it in one recursive-descent pass and type-checks it as it goes.
On the first violation it stops with a fatal error.
The model covers three parts of the compiler:

- **The generic hash table** (`hashtable.c`) is modelled in `hashtable.dfy`.
  - It is the class `HashTable.HashTab`: an `array` of buckets, each a chain of entries with the newest first.
  - A bucket count `size` may be smaller than the array; a new table has 13 buckets in an array of 16.
  - It also has an entry counter and a ghost `map` abstraction `contents`.
  - `Valid()` keeps the bucket-placement invariant: every key sits in bucket `hash(key, size)`, exactly once.
  - Insertion resizes first when `(n + 1) / size` would exceed the maximum load factor.
  - A resize grows the table to `2^(k+1) - delta[k+1]`, where `2^k` is the smallest power of two (at least 4) not below `size`.
- **The two-level symbol table** (`symboltable.c`) is modelled in `symboltable.dfy`.
  - It is the class `SymbolTable.SymbolTable`: an active table, a saved (enclosing) table and the frame-offset counter.
  - The tables are hash tables keyed by identifier name, hashed with `shift_hash`.
  - A ghost field `state` holds the scopes as a `SymState` value.
  - Each method is proved to change `state` exactly as the pure functions `Find`, `Open`, `Insert`, `Close` and `Release` say.
- **The parser and type checker** (`amplc.c`).
  - `grammar.dfy` states each production as a function over the token sequence. The function yields the synthesised type and the index of the next token, or the kind of the fatal error.
  - `parser.dfy` holds the class `Parser.Parser`, with one method per `parse_*` routine and per loop round of it. Each method is proved to yield exactly what its production says.
  - The declaration methods are also proved to leave the symbol table holding the scopes the production yields.
  - `properties.dfy` proves the language's type and scope rules about those productions.

`valtypes.dfy` gives the semantic types.
`valtypes.h` is not part of this model, so the model assumes the layout that the source's bit arithmetic implies (`& 6` keeps the base kind):

| type | value |
|---|---|
| array | 1 |
| boolean | 2 |
| integer | 4 |
| callable | 8 |
| no type | 0 |

The model also assumes these definitions of the type macros:

- `IS_ARRAY` and `IS_ARRAY_TYPE` are the same test of the array bit; the source uses both names (amplc.c:534 and amplc.c:552, for instance).
- `IS_INTEGER_TYPE`, `IS_BOOLEAN_TYPE` and `IS_CALLABLE_TYPE` are plain tests of one bit, so the first two also hold for a callable type with that base kind.
- `IS_FUNCTION` holds for a callable type with a base kind, and `IS_PROCEDURE` for a callable type without one.
- `SET_RETURN_TYPE` clears the callable bit.

Two consequences follow.
For `f(int x) -> int array`, the factor `f[1]` passes the array test and has type INTEGER.
A bare name `f` of an int function passes the `IS_INTEGER_TYPE` test of an addition operator, so `f + 1` is accepted there.

`token.h` is not part of this model either.
The token kinds are numbered as its enumeration order implies, so the range tests `IS_ADDOP`, `IS_MULOP` and `IS_RELOP` select `- or +`, `and / * rem` and `= >= > <= < /=`.

Three places where the code departs from the language's own rules are listed under Findings.
The model keeps a member for the code as written, exhibits the difference, and uses the corrected rule everywhere else.

A subroutine body has no closing `end`.
So in `f(int x) -> int: return x; end main: …` the `end` stands where a statement is expected, and parsing stops with an expected-statement error.
The model follows the code.

## Model

| member | source | states |
|---|---|---|
| ValTypes.SetReturnType | amplc.c:775-776 | SET_RETURN_TYPE drops the callable flag and nothing else: the result is not callable and equals the input once the flag is added back |
| ValTypes.ElementType | amplc.c:1107 | the element type of an indexed array (`type & 6`) is neither an array nor callable and keeps the base kind |
| ValTypes.CallResultType | amplc.c:1114 | the call type as written, `(type & 6) ^ TYPE_CALLABLE`, is callable and not an array, keeps the base kind and is a function type again |
| ValTypes.FunctionXorProcedure | amplc.c:606-619 | a callable type is a function or a procedure, never both |
| ValTypes.SetReturnTypeEquality | amplc.c:774-777 | comparing two types after SET_RETURN_TYPE ignores exactly the callable flag |
| ValTypes.DeclaredTypeShape | amplc.c:371-392 | a type built by `type` is not callable and has exactly one base kind |
| HashTable.Pow2Monotone | hashtable.c:298-304 | the doubling counter grows monotonically |
| HashTable.Log2Ceil | hashtable.c:296-304 | the doubling loop stops at an exponent k >= 2 with size <= 2^k, and at 2 or with 2^(k-1) < size |
| HashTable.Log2CeilUnique | hashtable.c:298-304 | the exponent the doubling loop stops at is the unique smallest k >= 2 with size <= 2^k |
| HashTable.Log2CeilBound | hashtable.c:298-304 | for a growable size that exponent is at most 29, so the counter stays in range |
| HashTable.DeltaBelowPow2 | hashtable.c:54-55 | `delta[k+1] < 2^k`, so the new size is positive and larger than the old one |
| HashTable.DeltaAtMost57 | hashtable.c:54-55 | every entry of the delta table is at most 57 |
| HashTable.NextSize | hashtable.c:306-309 | the size after a resize is strictly larger than the size before |
| HashTable.NextSizeAt | hashtable.c:306-309 | the new size is `2 * 2^k - delta[k+1]` for the exponent k of the old size |
| HashTable.GetSize | hashtable.c:291-310 | the doubling loop returns exactly NextSize(size) |
| HashTable.KeysOf | hashtable.c:135-141 | every key of a chain is among the chain's keys |
| HashTable.PushKeepsBuckets | hashtable.c:154-158 | pushing a new key at the head of its bucket keeps every key in its own bucket, exactly once, with its value |
| HashTable.InOwnBucket | hashtable.c:184-191 | a key is in the table iff it is in the chain of bucket hash(key, size) |
| HashTable.BucketChain | hashtable.c:351-368 | a bucket holds distinct keys, each hashing to that bucket, and all such keys of the table |
| HashTable.ChainHasKey | hashtable.c:135-141 | the duplicate scan reports a key iff the chain holds it |
| HashTable.PushChain | hashtable.c:353-367 | re-bucketing one old chain adds exactly its entries to the new buckets and keeps the placement invariant |
| HashTable.Redistribute | hashtable.c:351-368 | re-bucketing all old chains into empty new buckets yields the same key/value map under the new size |
| HashTable.HashTab.Init | hashtable.c:83-109 | a new table is empty, has 0 entries and 13 buckets in an array of 16, and keeps the load factor and hash function; the comparison function is not kept, since the model compares keys with equality |
| HashTable.HashTab.Search | hashtable.c:175-192 | search yields the key's value when the key is present and not NULL, and nothing otherwise |
| HashTable.HashTab.Rehash | hashtable.c:337-373 | a resize keeps every key/value pair and the entry count, and moves to NextSize(size) |
| HashTable.HashTab.Insert | hashtable.c:127-161 | a NULL key or value fails; a present key reports the pair exists and changes nothing; otherwise the pair is added, the count grows by one, and the table first resizes exactly when (n + 1) / size exceeds the load factor |
| HashTable.HashTab.Place | hashtable.c:150-158 | head insertion adds the pair to the map and one to the count, keeping the placement invariant |
| SymbolTable.ShiftHash | symboltable.c:252-263 | the loop form of shift_hash computes exactly ShiftHashFn, the hash the tables are given, hence a value below size |
| SymbolTable.ShiftHashFnOk | symboltable.c:263 | shift_hash is a valid hash function for every table size |
| SymbolTable.KeyCompare | symboltable.c:273-279 | key_strcmp returns 0 iff the names are equal, otherwise a value whose sign orders them; the model normalises that value to -1 or 1; the C tables only test it against zero, and the model's tables compare keys with equality in its place |
| SymbolTable.KeyCompareAntisymmetric | symboltable.c:273-279 | swapping the names negates the comparison |
| SymbolTable.InitState | symboltable.c:43-50 | the initial scopes are an empty global table, no saved table and offset 1 |
| SymbolTable.SymbolTable.Init | symboltable.c:43-50 | init_symbol_table creates an empty active table with load factor 3/4 and shift_hash, no saved table and offset 1 |
| SymbolTable.SymbolTable.FindName | symboltable.c:143-154 | find_name yields the active entry, else the saved entry only when it is callable (Find) |
| SymbolTable.SymbolTable.GetVariablesWidth | symboltable.c:160-163 | the width is the current offset counter |
| SymbolTable.SymbolTable.InsertActive | symboltable.c:121-123 | ht_insert on the active table adds the entry iff the name is new there, and leaves the saved table and the offset alone |
| SymbolTable.SymbolTable.Advance | symboltable.c:128-131 | a variable's insertion moves the offset counter on by exactly one |
| SymbolTable.SymbolTable.PushScope | symboltable.c:75-82 | the active table becomes the saved one and a fresh empty table at offset 1 becomes active |
| SymbolTable.SymbolTable.InsertName | symboltable.c:106-135 | insert_name succeeds iff there is an active table without the name; a variable gets the current offset as its slot and advances the counter, and a subroutine takes no slot (Insert) |
| SymbolTable.SymbolTable.OpenSubroutine | symboltable.c:58-84 | open_subroutine fails without change on a duplicate name; otherwise it registers the name, saves that table and starts an empty local one at offset 1 (Open) |
| SymbolTable.SymbolTable.CloseSubroutine | symboltable.c:89-98 | close_subroutine releases the local table, makes the saved table active with the saved slot still pointing at it, and resets the offset to 1 (Close) |
| SymbolTable.SymbolTable.ReleaseSymbolTable | symboltable.c:168-174 | release_symbol_table drops the active table and nothing else (Release) |
| Grammar.Chk | amplc.c:1178-1194 | chktypes passes iff the found type is the expected one, and otherwise reports incompatible types |
| Grammar.ExpectTok | amplc.c:1204-1211 | expect consumes exactly one token iff it has the expected kind, and otherwise reports that kind as expected |
| Grammar.ExpectId | amplc.c:1219-1227 | expect_id consumes one identifier and yields its name, and otherwise reports an identifier as expected |
| Grammar.IntOperand | amplc.c:1001-1008 | an addop operand passes iff it has the integer kind |
| Grammar.ArgCheck | amplc.c:831-843 | an argument fits a parameter iff both are scalars sharing a kind (integer, boolean or callable) or the types are equal |
| Grammar.ArgListAsWritten | amplc.c:828-874 | the argument list as written agrees with the corrected one whenever an expression follows "(", and accepts "()" outright |
| Grammar.Type | amplc.c:371-392 | type succeeds iff it starts with bool or int, yields a declared type (or a function type after "->"), and otherwise reports a missing type specifier |
| Grammar.DeclareVar | amplc.c:412-422 | a variable is declared iff its name is not visible; it then enters the active scope with the current offset and advances the counter, and otherwise it is a multiple definition |
| Grammar.Params | amplc.c:283-304 | a parameter list yields at least one parameter, each of a declared type |
| Grammar.ParamsRest | amplc.c:291-304 | the parameter loop keeps the parameters already read, in order, as a prefix of its result |
| Grammar.ParamTypes | amplc.c:305-310 | the parameter types are those of the parameters, in order |
| Grammar.InsertScoped | symboltable.c:106-135 | inserting a name keeps every subroutine entry with at least one parameter |
| Grammar.OpenScoped | symboltable.c:58-84 | opening a subroutine with parameters keeps every subroutine entry with at least one parameter |
| Grammar.CloseScoped | symboltable.c:89-98 | closing a subroutine keeps every subroutine entry with at least one parameter |
| Grammar.Expr | amplc.c:903-943 | the production of Parser.Parser.ParseExpr: on success it consumes at least one token and stays within the input; its type or scope rules are Properties.ExprTypes |
| Grammar.Relation | amplc.c:912-937 | the production of Parser.Parser.ParseRelation: on success it consumes at least one token and stays within the input; its type or scope rules are Properties.ExprTypes |
| Grammar.Simple | amplc.c:956-1013 | the production of Parser.Parser.ParseSimple: on success it consumes at least one token and stays within the input; its type or scope rules are Properties.NegationRule |
| Grammar.Negated | amplc.c:965-976 | the production of Parser.Parser.ParseNegated: on success it consumes at least one token and stays within the input; its type or scope rules are Properties.NegationRule |
| Grammar.SimpleRest | amplc.c:986-1010 | the production of Parser.Parser.ParseSimpleRest: on success it stays within the input and keeps the type of its first operand; its type or scope rules are Properties.AddStepRule |
| Grammar.AddStep | amplc.c:987-1009 | the production of Parser.Parser.ParseAddStep: on success it consumes at least one token and stays within the input; its type or scope rules are Properties.AddStepRule |
| Grammar.Term | amplc.c:1030-1069 | the production of Parser.Parser.ParseTerm: on success it consumes at least one token and stays within the input; its type or scope rules are Properties.OperandsNotArrays |
| Grammar.TermRest | amplc.c:1045-1066 | the production of Parser.Parser.ParseTermRest: on success it stays within the input and keeps the type of its first operand; its type or scope rules are Properties.MulStepRule |
| Grammar.MulStep | amplc.c:1046-1065 | the production of Parser.Parser.ParseMulStep: on success it consumes at least one token and stays within the input; its type or scope rules are Properties.MulStepRule |
| Grammar.Factor | amplc.c:1083-1153 | the production of Parser.Parser.ParseFactor: on success it consumes at least one token and stays within the input; its type or scope rules are Properties.FactorRules |
| Grammar.IdFactor | amplc.c:1094-1101 | the production of Parser.Parser.ParseIdFactor: on success it consumes at least one token and stays within the input; its type or scope rules are Properties.FactorRules |
| Grammar.Designator | amplc.c:1102-1118 | the production of Parser.Parser.ParseDesignator: on success it stays within the input; its type or scope rules are Properties.CallYieldsReturnType |
| Grammar.ParenFactor | amplc.c:1124-1128 | the production of Parser.Parser.ParseParenFactor: on success it consumes at least one token and stays within the input |
| Grammar.NotFactor | amplc.c:1129-1139 | the production of Parser.Parser.ParseNotFactor: on success it consumes at least one token and stays within the input; its type or scope rules are Properties.FactorRules |
| Grammar.Index | amplc.c:882-898 | the production of Parser.Parser.ParseIndex: on success it consumes at least one token and stays within the input; its type rule is Properties.IndexRule |
| Grammar.ArgList | amplc.c:813-877 | the production of Parser.Parser.ParseArglist: on success it consumes at least one token and stays within the input; its type or scope rules are Properties.ArgListExact |
| Grammar.ArgRest | amplc.c:845-870 | the production of Parser.Parser.ParseArgRest: on success it consumes at least one token and stays within the input; its type or scope rules are Properties.ArgRestExact |
| Grammar.Argument | amplc.c:846-865 | the production of Parser.Parser.ParseArgument: on success it consumes at least one token and stays within the input; its type or scope rules are Properties.ArgRestExact |
| Grammar.Statements | amplc.c:450-465 | the production of Parser.Parser.ParseStatements: on success it consumes at least one token and stays within the input |
| Grammar.StatementsRest | amplc.c:458-461 | the production of Parser.Parser.ParseStatementsRest: on success it stays within the input |
| Grammar.Statement | amplc.c:470-501 | the production of Parser.Parser.ParseStatement: on success it consumes at least one token and stays within the input |
| Grammar.Assign | amplc.c:506-526 | the production of Parser.Parser.ParseAssign: on success it consumes at least one token and stays within the input; its type or scope rules are Properties.AssignRule |
| Grammar.AssignTo | amplc.c:528-546 | the production of Parser.Parser.ParseAssignTo: on success it consumes at least one token and stays within the input; its type or scope rules are Properties.AssignRule |
| Grammar.AssignSource | amplc.c:548-581 | the production of Parser.Parser.ParseAssignSource, with an allocation only for an unindexed array (see Findings): on success it consumes at least one token and stays within the input; its type or scope rules are Properties.AssignCheckRule and Properties.AllocationRule |
| Grammar.AssignSourceAsWritten | amplc.c:548-581 | the right-hand side as written agrees with the corrected one except for an allocation to an indexed target, which it checks only against the declared type |
| Grammar.Call | amplc.c:589-624 | the production of Parser.Parser.ParseCall: on success it consumes at least one token and stays within the input; its type or scope rules are Properties.CallNeedsProcedure |
| Grammar.Guard | amplc.c:638-641 | the production of Parser.Parser.ParseGuard: on success it consumes at least one token and stays within the input; its type or scope rules are Properties.GuardIsBoolean |
| Grammar.If | amplc.c:630-642 | the production of Parser.Parser.ParseIf: on success it consumes at least one token and stays within the input |
| Grammar.IfRest | amplc.c:644-651 | the production of Parser.Parser.ParseIfRest: on success it consumes at least one token and stays within the input |
| Grammar.IfEnd | amplc.c:653-661 | the production of Parser.Parser.ParseIfEnd: on success it consumes at least one token and stays within the input |
| Grammar.Arm | amplc.c:645-657 | the production of Parser.Parser.ParseArm: on success it consumes at least one token and stays within the input |
| Grammar.Input | amplc.c:669-685 | the production of Parser.Parser.ParseInput: on success it consumes at least one token and stays within the input; its type or scope rules are Properties.InputRule |
| Grammar.InputTarget | amplc.c:687-698 | the production of Parser.Parser.ParseInputTarget: on success it consumes at least one token and stays within the input; its type or scope rules are Properties.InputRule |
| Grammar.OutputItem | amplc.c:717-727 | the production of Parser.Parser.ParseOutputItem: on success it consumes at least one token and stays within the input; its type or scope rules are Properties.OutputItemRule |
| Grammar.OutputRest | amplc.c:729-745 | the production of Parser.Parser.ParseOutputRest: on success it consumes at least one token and stays within the input |
| Grammar.Output | amplc.c:706-748 | the production of Parser.Parser.ParseOutput: on success it consumes at least one token and stays within the input |
| Grammar.Return | amplc.c:753-787 | the production of Parser.Parser.ParseReturn: on success it consumes at least one token and stays within the input; its type or scope rules are Properties.ReturnRules |
| Grammar.While | amplc.c:792-808 | the production of Parser.Parser.ParseWhile: on success it consumes at least one token and stays within the input |
| Grammar.Vardef | amplc.c:397-445 | the production of Parser.Parser.ParseVardef: on success it consumes at least one token, stays within the input and yields scopes that keep the subroutine-entry invariant; its type or scope rules are Properties.VardefEffect |
| Grammar.VardefRest | amplc.c:424-442 | the production of Parser.Parser.ParseVardefRest: on success it consumes at least one token, stays within the input and yields scopes that keep the subroutine-entry invariant; its type or scope rules are Properties.VardefRestEffect |
| Grammar.Body | amplc.c:355-366 | the production of Parser.Parser.ParseBody: on success it consumes at least one token, stays within the input and yields scopes that keep the subroutine-entry invariant; its type or scope rules are Properties.BodyEffect |
| Grammar.InstallParams | amplc.c:322-339 | the production of Parser.Parser.DeclareParams: on success it yields scopes that keep the subroutine-entry invariant; its type or scope rules are Properties.InstallParamsEffect |
| Grammar.Subdef | amplc.c:262-350 | the production of Parser.Parser.ParseSubdef: on success it consumes at least one token, stays within the input and yields scopes that keep the subroutine-entry invariant; its type or scope rules are Properties.SubdefEffect |
| Grammar.SubdefRest | amplc.c:311-343 | the production of Parser.Parser.ParseSubdefRest: on success it consumes at least one token, stays within the input and yields scopes that keep the subroutine-entry invariant |
| Grammar.Enter | amplc.c:318-347 | the production of Parser.Parser.ParseEnter: on success it consumes at least one token, stays within the input and yields scopes that keep the subroutine-entry invariant; its type or scope rules are Properties.EnterEffect |
| Grammar.SubroutineBody | amplc.c:322-342 | the production of Parser.Parser.ParseSubroutineBody: on success it consumes at least one token, stays within the input and yields scopes that keep the subroutine-entry invariant |
| Grammar.LocalBody | amplc.c:340-342 | the production of Parser.Parser.ParseLocalBody: on success it consumes at least one token, stays within the input and yields scopes that keep the subroutine-entry invariant |
| Grammar.Subdefs | amplc.c:241-243 | the production of Parser.Parser.ParseSubdefs: on success it stays within the input and yields scopes that keep the subroutine-entry invariant; its type or scope rules are Properties.SubdefsEffect |
| Grammar.Program | amplc.c:219-257 | the production of Parser.Parser.ParseProgram: on success it yields scopes that keep the subroutine-entry invariant; its type or scope rules are Properties.ProgramSlots |
| Grammar.MainPart | amplc.c:245-252 | the production of Parser.Parser.ParseMain: on success it yields scopes that keep the subroutine-entry invariant; its type or scope rules are Properties.MainEndsInput |
| Parser.Parser.constructor | amplc.c:219-257 | a new parser holds the token sequence, return type none and freshly initialised scopes |
| Parser.Parser.ExpectToken | amplc.c:1204-1211 | expect, as Grammar.ExpectTok |
| Parser.Parser.ExpectIdent | amplc.c:1219-1227 | expect_id, as Grammar.ExpectId |
| Parser.Parser.ParseExpr | amplc.c:903-943 | parse_expr yields the type and end of Grammar.Expr: with a relop the operands are non-arrays, = and /= need equal types, orderings INTEGER operands, and the result is BOOLEAN |
| Parser.Parser.ParseRelation | amplc.c:912-937 | the relop part of parse_expr, as Grammar.Relation |
| Parser.Parser.ParseSimple | amplc.c:956-1013 | parse_simple, as Grammar.Simple: a leading minus takes one INTEGER term; otherwise no array before an addop |
| Parser.Parser.ParseNegated | amplc.c:965-976 | the unary-minus branch, as Grammar.Negated |
| Parser.Parser.ParseSimpleRest | amplc.c:986-1010 | the addop loop, as Grammar.SimpleRest, keeping the first term's type |
| Parser.Parser.ParseAddStep | amplc.c:987-1009 | one addop round, as Grammar.AddStep: "or" needs BOOLEAN operands, the others INTEGER-kind ones, no arrays |
| Parser.Parser.ParseTerm | amplc.c:1030-1069 | parse_term, as Grammar.Term: no array before a mulop |
| Parser.Parser.ParseTermRest | amplc.c:1045-1066 | the mulop loop, as Grammar.TermRest, keeping the first factor's type |
| Parser.Parser.ParseMulStep | amplc.c:1046-1065 | one mulop round, as Grammar.MulStep: "and" needs BOOLEAN operands, the others INTEGER ones, no arrays |
| Parser.Parser.ParseFactor | amplc.c:1083-1153 | parse_factor, as Grammar.Factor: numbers INTEGER, true/false BOOLEAN, otherwise an expected-factor error |
| Parser.Parser.ParseIdFactor | amplc.c:1094-1101 | an identifier factor must name a visible entry, as Grammar.IdFactor |
| Parser.Parser.ParseDesignator | amplc.c:1102-1118 | an index needs an array and yields its element type, a call needs a function and yields its return type, a bare name its declared type (Grammar.Designator) |
| Parser.Parser.ParseParenFactor | amplc.c:1124-1128 | a parenthesised expression keeps its type, as Grammar.ParenFactor |
| Parser.Parser.ParseNotFactor | amplc.c:1129-1139 | "not" takes a non-array BOOLEAN factor, as Grammar.NotFactor |
| Parser.Parser.ParseIndex | amplc.c:882-898 | parse_index needs an INTEGER index between brackets, as Grammar.Index |
| Parser.Parser.ParseArglist | amplc.c:813-877 | parse_arglist with the argument count checked also for "()", as Grammar.ArgList |
| Parser.Parser.ParseArgRest | amplc.c:845-870 | the comma loop: a comma past the last parameter is too many, ")" before it too few (Grammar.ArgRest) |
| Parser.Parser.ParseArgument | amplc.c:846-865 | one argument checked against its parameter type, as Grammar.Argument |
| Parser.Parser.ParseStatements | amplc.c:450-465 | parse_statements, as Grammar.Statements: "chillax" or statements separated by ";" |
| Parser.Parser.ParseStatementsRest | amplc.c:458-461 | the ";" loop, as Grammar.StatementsRest |
| Parser.Parser.ParseStatement | amplc.c:470-501 | parse_statement dispatches on the first token and otherwise reports an expected statement (Grammar.Statement) |
| Parser.Parser.ParseAssign | amplc.c:506-526 | parse_assign's target must be visible, as Grammar.Assign |
| Parser.Parser.ParseAssignTo | amplc.c:528-546 | the target must be a variable, and an index needs an array (Grammar.AssignTo) |
| Parser.Parser.ParseAssignSource | amplc.c:548-581 | the right-hand side obeys the assignment type rules, or is an allocation with an INTEGER size to a target that is itself an array, as the corrected Grammar.AssignSource |
| Parser.Parser.ParseCall | amplc.c:589-624 | parse_call needs a visible procedure and a valid argument list, as Grammar.Call |
| Parser.Parser.ParseGuard | amplc.c:638-641 | a guard is a BOOLEAN expression followed by ":", as Grammar.Guard |
| Parser.Parser.ParseIf | amplc.c:630-642 | the "if" arm, as Grammar.If |
| Parser.Parser.ParseIfRest | amplc.c:644-651 | the elif loop, as Grammar.IfRest |
| Parser.Parser.ParseIfEnd | amplc.c:653-661 | the optional else arm and "end", as Grammar.IfEnd |
| Parser.Parser.ParseArm | amplc.c:645-657 | one elif or else arm, as Grammar.Arm |
| Parser.Parser.ParseInput | amplc.c:669-685 | parse_input's target must be visible, as Grammar.Input |
| Parser.Parser.ParseInputTarget | amplc.c:687-698 | an index needs an array and an unindexed target must be a scalar, as Grammar.InputTarget |
| Parser.Parser.ParseOutputItem | amplc.c:717-727 | an output operand is a string or a non-array expression, as Grammar.OutputItem |
| Parser.Parser.ParseOutput | amplc.c:706-748 | parse_output, as Grammar.Output |
| Parser.Parser.ParseOutputRest | amplc.c:729-745 | the ".." loop, as Grammar.OutputRest |
| Parser.Parser.ParseReturn | amplc.c:753-787 | parse_return, as Grammar.Return: never in a procedure, with an expression of the return type in a function |
| Parser.Parser.ParseWhile | amplc.c:792-808 | parse_while, as Grammar.While: a BOOLEAN guard and "end" |
| Parser.Parser.ParseType | amplc.c:371-392 | parse_type ors the base kind and array flag into the incoming type, as Grammar.Type |
| Parser.Parser.DeclareName | amplc.c:412-422 | declaring one variable leaves the scopes of Grammar.DeclareVar, or fails with its error |
| Parser.Parser.ParseVardef | amplc.c:397-445 | parse_vardef leaves the scopes of Grammar.Vardef |
| Parser.Parser.ParseVardefRest | amplc.c:424-442 | the comma loop of parse_vardef leaves the scopes of Grammar.VardefRest |
| Parser.Parser.ParseBody | amplc.c:355-366 | parse_body leaves the scopes of Grammar.Body |
| Parser.Parser.ParseParams | amplc.c:283-304 | the parameter list, as Grammar.Params |
| Parser.Parser.ParseParamsRest | amplc.c:291-304 | the parameter loop, as Grammar.ParamsRest |
| Parser.Parser.DeclareParams | amplc.c:322-339 | the parameters are declared in order, leaving the scopes of Grammar.InstallParams |
| Parser.Parser.ParseSubdef | amplc.c:262-350 | parse_subdef leaves the scopes of Grammar.Subdef and resets the return type to none |
| Parser.Parser.ParseSubdefRest | amplc.c:311-343 | the return type sets return_type for the body and is reset after it (Grammar.SubdefRest) |
| Parser.Parser.ParseEnter | amplc.c:318-347 | registering the subroutine and parsing its body leaves the scopes of Grammar.Enter |
| Parser.Parser.EnterSubroutine | amplc.c:318-321 | the subroutine is opened with the return type, the current width and its parameter types (Open) |
| Parser.Parser.ParseSubroutineBody | amplc.c:322-342 | parameters then body, as Grammar.SubroutineBody |
| Parser.Parser.ParseLocalBody | amplc.c:340-342 | ":" and the body, after which the local scope is closed (Grammar.LocalBody) |
| Parser.Parser.ParseSubdefs | amplc.c:241-243 | the subdef loop leaves the scopes of Grammar.Subdefs and return type none |
| Parser.Parser.ParseMain | amplc.c:245-252 | the main body must end the input, as Grammar.MainPart |
| Parser.Parser.ParseProgram | amplc.c:219-257 | parse_program succeeds exactly as Grammar.Program and leaves its final scopes |
| Parser.CheckProgram | amplc.c:219-257 | a token sequence is accepted iff Grammar.Program accepts it, with the same error kind otherwise |
| Properties.FindAfterInsert | symboltable.c:128-134 | after an insert the name is visible, with the current offset when it is a variable, and no other name's visibility changes |
| Properties.InsertRefusesDuplicates | symboltable.c:118-126 | insert fails iff there is no active table or the name is already in it, and then changes nothing |
| Properties.OpenVisibility | symboltable.c:146-150 | inside a new subroutine only the enclosing scope's subroutines are visible, the new one included |
| Properties.CloseAfterOpen | symboltable.c:92-97 | closing the local scope restores the enclosing scope, with the subroutine registered, at offset 1 |
| Properties.InsertKeepsDistinctSlots | symboltable.c:128-132 | insert keeps every variable in a slot of its own below the counter |
| Properties.DeclareVarEffect | amplc.c:412-422 | declaring a variable only adds it, in a fresh slot |
| Properties.VardefRestEffect | amplc.c:424-440 | the comma loop of a variable definition only adds variables, in distinct slots |
| Properties.VardefEffect | amplc.c:397-445 | a variable definition only adds variables, in distinct slots |
| Properties.BodyEffect | amplc.c:355-366 | a body keeps every entry of its starting scope and the enclosing scope, and adds only variables in distinct slots |
| Properties.InstallParamsEffect | amplc.c:322-339 | the i-th parameter gets slot offset + i, and nothing else is added |
| Properties.EnterDuplicate | amplc.c:321-347 | a subroutine whose name the scope holds is a multiple definition |
| Properties.EnterEffect | amplc.c:318-343 | after a subroutine, the enclosing scope is active again with exactly the subroutine added and the offset reset |
| Properties.SubdefEffect | amplc.c:262-350 | a subroutine definition adds exactly its own name, as a subroutine at the current offset |
| Properties.SubdefsEffect | amplc.c:241-243 | the subroutine definitions add only subroutines to the global scope and leave the offset at 1 |
| Properties.ProgramSlots | amplc.c:219-257 | after a whole program every global variable has a frame slot of its own |
| Properties.MainEndsInput | amplc.c:245-252 | a program is accepted only when the main body ends the input, and is otherwise unreachable code |
| Properties.ExprTypes | amplc.c:911-940 | with a relop an expression is BOOLEAN, its operands are not arrays, = and /= need equal types and orderings INTEGER; without one it is its simple expression |
| Properties.NegationRule | amplc.c:965-976 | a leading minus succeeds iff its term is INTEGER, and no addop term follows |
| Properties.OperandsNotArrays | amplc.c:979-984 | the first operand before an addop or mulop is not an array |
| Properties.AddStepRule | amplc.c:986-1010 | an addop round succeeds iff its term is not an array and "or" has BOOLEAN operands, the other addops INTEGER-kind ones |
| Properties.MulStepRule | amplc.c:1045-1066 | a mulop round succeeds iff its factor is not an array and "and" has BOOLEAN operands, the other mulops INTEGER ones |
| Properties.FactorRules | amplc.c:1093-1150 | numbers are INTEGER, true/false BOOLEAN, "not" needs and yields BOOLEAN, unknown names fail, an index needs an array and yields its element type |
| Properties.GuardIsBoolean | amplc.c:639-648 | an if, elif or while guard is an expression of type exactly BOOLEAN |
| Properties.AssignCheckRule | amplc.c:548-567 | the assignment type rules hold iff, for an unindexed target, the array flags agree, and for an indexed target the value has the element type or is any array, and in both cases the base kinds match; a violation is incompatible types |
| Properties.AssignRule | amplc.c:521-542 | an assignment target is a visible variable, indexed only when it is an array |
| Properties.AllocationRule | amplc.c:568-578 | "array" simple is accepted iff the target is unindexed and an array and the size INTEGER; otherwise the target is not an array |
| Properties.IndexedAllocationAsWritten | amplc.c:568-578 | as written, "let a[0] = array 5" for an int array a is accepted; the corrected rule reports that the target is not an array |
| Properties.IndexRule | amplc.c:882-898 | an index succeeds iff it is "[", a simple expression of type exactly INTEGER, and "]", and it ends after the "]" |
| Properties.InputRule | amplc.c:682-696 | input reads into a visible name that is indexed exactly when it is an array |
| Properties.OutputItemRule | amplc.c:717-743 | every non-string output operand is an expression that is not an array |
| Properties.CallNeedsProcedure | amplc.c:601-621 | a call statement names a visible procedure with parameters and passes it a valid argument list |
| Properties.ReturnRules | amplc.c:764-784 | return is refused in a procedure, needs an expression in a function whose type equals the return type up to the callable flag, and ignores what follows in main |
| Properties.ArgRestExact | amplc.c:845-870 | the rest of an argument list succeeds iff it holds exactly the remaining parameters' worth of compatible arguments and ")" |
| Properties.ArgListExact | amplc.c:828-874 | an argument list succeeds iff it holds exactly one compatible argument per parameter, comma-separated, closed by ")" |
| Properties.EmptyArgListAsWritten | amplc.c:828-874 | the list as written accepts "()" for a function of one parameter; the corrected one reports too few arguments |
| Properties.CallYieldsReturnType | amplc.c:1109-1115 | a call of a function yields its return type: not callable, and the function's type once the flag is added back |
| Properties.CallResultTypeAsWritten | amplc.c:1114 | the call type as written is never BOOLEAN or INTEGER, so every exact check against them fails |
| Properties.BoolFunctionScope | amplc.c:1109-1115 | a scope holding a boolean function f of one integer parameter |
| Properties.BooleanCallGuard | amplc.c:638-641 | the guard "f(1) :" calling that boolean function is accepted |
| Properties.ArrayCallAsWritten | amplc.c:1109-1115 | for a function returning an array, the call type as written loses the array flag, while the return type keeps it |
| Properties.ArrayFunctionScope | amplc.c:1109-1115 | a scope holding a function f of one integer parameter that returns an int array |
| Properties.ArrayCallOutput | amplc.c:717-724 | the output operand "f(1)" calling that function is an array and is refused |
| Properties.GrowthFromInitial | hashtable.c:291-310 | a table created with 13 buckets grows to 31 |
| Properties.GrowthSecond | hashtable.c:291-310 | a table of 31 buckets grows to 61 |

## Findings

| source | as written | input that shows it | evidently intended | confidence | as-written member | corrected member |
|---|---|---|---|---|---|---|
| amplc.c:829-871 | the arity check runs only when an expression follows "(" | `f()` for a subroutine `f` with one parameter is accepted | the argument count must equal the parameter count, so "()" is one argument too few | high, not executed | Grammar.ArgListAsWritten, Properties.EmptyArgListAsWritten | Grammar.ArgList, Properties.ArgListExact |
| amplc.c:1114 | a call factor has type `(type & 6) ^ TYPE_CALLABLE`, which keeps the callable flag | `if f(1):` with `f(int x) -> bool` fails the guard's exact BOOLEAN check; so do `f(1) < 3`, `not f(1)` and `-f(1)` for suitable `f`; conversely, with `f(int x) -> int array`, `output(f(1))` and `f(1) + 1` are accepted, where the return type is an array and both are illegal array operations | a call yields the function's return type, the type its return statements are checked against | medium (the bit layout of `valtypes.h` is assumed), not executed | ValTypes.CallResultType, Properties.CallResultTypeAsWritten, Properties.ArrayCallAsWritten | Grammar.Designator, Properties.CallYieldsReturnType, Properties.BooleanCallGuard, Properties.ArrayCallOutput |
| amplc.c:568-572 | an allocation is checked only against the declared type of the target, even when the target is indexed | `let a[0] = array 5` for `int array a` is accepted, storing an array in an integer element | an allocation is legal only when the target itself is an array, so never for an indexed element; only the allocation is corrected, because the expression branch at amplc.c:550-554 lets an array value of the same base kind into an indexed target on purpose (`let a[0] = b` for int arrays `a` and `b`), and the model keeps that branch as written | medium (the explicit array branch suggests arrays into elements may be deliberate), not executed | Grammar.AssignSourceAsWritten, Properties.IndexedAllocationAsWritten | Grammar.AssignSource, Properties.AllocationRule |

## Left out

- `main` and the environment: argument checking, opening the source file, the program name and scanner set-up (amplc.c:159-212) are I/O.
- The scanner is not part of this model. The tokens are an input sequence whose kinds and lexemes are taken as correct, and the token after the last one is end-of-input.
- Diagnostics: `abort_c`, `abort_cp` and the message text of `chktypes` are modelled only as the error kind in a `Result`. Source positions and message strings are not modelled.
- The state after a fatal error is not specified. The compiler exits there, so the declaration methods state the new scopes only on success.
- The debug tracing, `ht_print`, `keyval2str`, `print_symbol_table` and `valstr` print only.
- Memory management: `ht_free`, `freeprop`, `emalloc`, `estrdup` and every allocation-failure branch are left out, and allocation always succeeds. This includes the partial rehash failure, the NULL result of `ht_init`, and the old chain nodes that `rehash` leaks.
- The floating-point load factor is the rational 3/4. A resize happens when `(n + 1) * 4 > 3 * size`.
- HashTable.HashTab.Rehash: above 2^29 buckets the source's signed doubling counter overflows. There the model keeps the old size instead of modelling undefined behaviour.
- The unused `IS_TYPE` macro, the `saved_offset` assignment and the `idx` field are left out, because nothing reads them.
- Chains and the parameter list (`variable`) are modelled as sequences rather than linked nodes; `idpropt` is the `IdProp` value.
- The second `find_name` inside `parse_arglist` and `parse_index` is left out. The caller passes the properties it already found in the same, unchanged scopes.
- `talloc` is folded into table creation and `rehash` as a fresh array of empty chains.
- A NULL symbol table passed to `find_name` is left out, because the source only reaches it after a failed initialisation.
- The global lookahead `token` is the index of the current token, passed to each parse method and returned by it, rather than a field of the parser.
- Each loop of a parse routine is the `while` loop of a method of its own, and the grammar states one round of it as a step function.
- HashTable.HashTab.Init, HashTable.HashTab.Insert, HashTable.HashTab.Search: keys are compared with equality instead of the `cmp` function that ht_init takes; the only comparison the compiler passes, key_strcmp, is 0 exactly for equal names (SymbolTable.KeyCompare), so the behaviour is the same.
- SymbolTable.SymbolTable.CloseSubroutine: closing a second time, when the saved slot already points at the active table, frees that table in the source and then makes the freed table active again. The model keeps the table. The parser never does this, since it closes a scope only after opening one.
- SymbolTable.SymbolTable.ReleaseSymbolTable: when the saved slot points at the active table, the source frees the saved table too, and a later lookup would read freed memory. The model keeps that table's contents. The only release outside close_subroutine comes at the end of main, and nothing reads the tables after it.
- Grammar.ArgList, Grammar.Designator, Grammar.AssignSource, Parser.Parser.ParseArglist, Parser.Parser.ParseDesignator, Parser.Parser.ParseAssignSource: these follow the corrected rules under Findings, not the code as written.
