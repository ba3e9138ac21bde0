# TPL front end: a Dafny model

TPL is the small typed language that queries are compiled to. This project models its front end and some
self-contained algorithms of the same repository, and proves what they are for:

- **Type checking** (`Types`, `TypeRules`, `Ast`, `Scope`, `Sema`, `SemaTheorems`, `Diagnoses`, `SemaNodes`). `Sema`
  is the checker as a function from trees to trees; `SemaNodes` is the checker as the program has it, a class
  that relabels nodes and inserts cast nodes in a heap, proved to leave the tree of the function. `TypeRules`
  states the rules for single nodes by kinds of types. The main results: a tree that is labelled without an
  error needs no coercion any more, only labels and casts change, the checker accepts exactly the trees that
  order-free typing rules accept, at exactly that type, and it reports exactly what the rules leave untyped.
- **Scanning, parsing, printing** (`Tokens`, `Decimal`, `Lexer`, `LexTheorems`, `Scanner`, `Grammar`,
  `Precedence`, `ParserMethods`, `Derivations`, `TypeDerivations`, `Printer`, `RoundTrip`, `NormalForm`, `Grouping`,
  `Operands`, `TextRoundTrip`, `TypeRoundTrip`, `TypeNormalForm`, `WrittenTypes`, `Folding`, `Numerals`). The grammar
  is a set of functions of the token stream, total over all streams; class `Parser` runs it with the
  descending-precedence loop, class `Scanner` runs the lexical grammar character by character, class
  `PrettyPrinter` writes the text. The main results: the parser reads e from i up to j without an error if and
  only if a declarative grammar with grouping, optional commas and folded literals derives e from those
  tokens and the next token cannot go on with it, and the same for types; precedence climbing returns s and
  stops at j if and only if s is the shape the table prescribes; printing then parsing returns the same tree
  if and only if the tree is in parenthesis-free normal form, on tokens and on characters, and with its
  operands in parentheses every tree the parser can build comes back; text scans back to the tokens it
  spells, and spells what it scans to.
- **Types in the context** (`Context`, `Layout`, `TypePrinter`, `TypeMeaning`). Class `Context` hands out one object per
  type; after any run of requests two results are one object if and only if they stand for one type.
  Struct layout is sound and pointwise least as long as it fits in 32 bits, and exactly then. Two types
  print alike if and only if they are equal up to names, and the text of a type scans and parses to that
  type.
- **The tree dumper** (`Dumper`): deferred printing with one child of lookahead equals recursive printing, one
  line for each node.
- **Missing returns** (`Terminating`): an accepted function never runs past its last statement, and exactly
  which statements that cannot end are turned down all the same.
- **Benchmark arithmetic** (`Division`, `BoundedRand`, `ColumnBits`): exact uniformity of the bounded
  generator; least column widths, lossless narrowing, and exactly which probe keys stay comparable.
- **cpplint** (`Brackets`, `BracketLines`, `Preprocessor`): bracket matching in both directions across
  lines, and the nesting stack under conditional compilation.

The code is modelled as a release build (assertions compiled out), with these readings:

- A call that aborts, throws or casts to the wrong class is the outcome `Stopped` in `Sema`; the heap
  checker is specified for the trees on which the checker does not stop.
- A production of the parser that never returns (an argument list without its parenthesis) is the outcome
  `Loops`; the parser methods are specified for the streams on which the grammar returns.
- The comment above `CheckAssignmentConstraints` (src/sema/sema_checking.cpp:166-171) allows nil for
  functions and maps and primitive booleans for SQL booleans. The code does neither, and the model follows
  the code (`SemaTheorems.DocumentedButRejected`).
- src/include/sema/scope.h describes `Declare` as local to a scope. The code looks through the whole chain,
  so scopes never shadow (`Scopes.NoShadowing`).
- `Identifier::GetView` on the empty name of an unnamed parameter reads through a null pointer in the
  printer; the model prints the empty text.
- `StructType::Get` keeps its counter in 64 bits; the model's counter does not wrap.

## Model

| member | source | states |
|---|---|---|
| SemaTheorems.Elaboration | src/sema/sema_expr.cpp:15-370 | for every parsed tree the visit leaves a label exactly when it reports nothing, and then the tree passes a strict checker without coercions: equal operand types, bool operands, arguments of exactly the parameter types, literals representable in their labels, every label recomputed from the children |
| SemaTheorems.Acceptance | src/sema/sema_expr.cpp:15-370 | the checker labels a tree with t if and only if the order-free typing rules give it t, so the order of coercion attempts never matters and types are unique |
| SemaTheorems.VisitErases | src/sema/sema_expr.cpp:15-370 | checking changes labels and inserts casts, and nothing else |
| SemaTheorems.AssignmentCorrect | src/sema/sema_checking.cpp:162-211 | the check succeeds exactly on the declared coercion relation, and then its expression is strictly well typed at the target type |
| SemaTheorems.DocumentedButRejected | src/sema/sema_checking.cpp:166-171 | the two rules of the comment that the code does not implement, with witnesses |
| SemaTheorems.LogicalElaborated | src/sema/sema_checking.cpp:49-74 | logical operators on elaborated operands leave an elaborated node |
| SemaTheorems.ArithmeticElaborated | src/sema/sema_checking.cpp:77-106 | arithmetic operators on elaborated operands leave an elaborated node |
| SemaTheorems.CompareElaborated | src/sema/sema_checking.cpp:109-160 | comparisons of elaborated operands leave an elaborated node |
| SemaTheorems.CheckArgsCorrect | src/sema/sema_expr.cpp:119-148 | no argument is reported if and only if each passes for its parameter, and then each is strict at the parameter's type |
| SemaTheorems.BinaryExact | src/sema/sema_expr.cpp:15-55 | a binary node gets label t exactly when the rules give it t, whichever operand is coerced |
| SemaTheorems.CompareExact | src/sema/sema_expr.cpp:57-84 | a comparison gets label t exactly when the rules give it t |
| SemaTheorems.CallExact | src/sema/sema_expr.cpp:86-149 | a call gets label t exactly when the function type returns t and every argument fits its parameter |
| SemaTheorems.IndexExact | src/sema/sema_expr.cpp:212-250 | an index node gets label t exactly by the array and map rules, literal bounds included |
| SemaTheorems.MemberExact | src/sema/sema_expr.cpp:334-368 | a member node gets label t exactly when the struct, or the pointed-to struct, has that first field of type t |
| SemaTheorems.UnaryExact | src/sema/sema_expr.cpp:289-332 | a unary node gets label t exactly when the rule of its operator takes the input's type to t |
| SemaTheorems.DereferenceTyped | src/sema/sema_expr.cpp:314-321 | whenever e is a pointer to t, following e is labelled t |
| SemaTheorems.AddressTyped | src/sema/sema_expr.cpp:322-328 | the address of a value of any type but a function's is a pointer to that type, and following it gives that type back |
| SemaTheorems.OperandTypeKept | src/sema/sema_expr.cpp:298-313 | negation and complement keep the type of their operand, exactly on primitive booleans and on arithmetic types |
| Sema.IsRepresentable | src/ast/ast.cpp:131-189 | a literal is representable exactly when it lies in the range of the type, by width and sign, or is of its kind |
| Sema.NaturalType | src/sema/sema_expr.cpp:252-287 | the 32-bit type if the literal fits it, otherwise the 64-bit one |
| TypeRules.RoomIsRange | src/ast/ast.cpp:137-148 | for 64-bit literals having room in an integer type is lying in its two's complement range |
| Diagnoses.Diagnosed | src/sema/sema_expr.cpp:15-370 | for every parsed tree the errors reported are, in order, those of the nodes whose parts have types while they have none, an argument list giving one report for each argument that does not fit, and the checker stops exactly where an integer literal meets a 128-bit type, a prefix operator has no rule, or a report takes its callee for an identifier |
| Diagnoses.MisfitsSeen | src/sema/sema_expr.cpp:119-141 | checking resolved arguments reports one error for each that does not fit its parameter, in order |
| Diagnoses.ArgsSeen | src/sema/sema_expr.cpp:112-117 | arguments are visited up to the first one without a type, and their reports are kept in order |
| Sema.CheckAssignmentConstraints | src/sema/sema_checking.cpp:162-211 | on success the expression carries the target type and is the same program |
| Types.LookupField | src/include/ast/type.h:667-674 | finds the first field of the name, and nothing exactly when no field has it |
| SemaNodes.CheckExpression | src/sema/sema_expr.cpp:15-370 | on the heap: the tree is the same program afterwards, errors stay unchanged exactly when a type is found, that type is the one the rules give, and the tree left is strict |
| SemaNodes.Checker.VisitNode | src/sema/sema_expr.cpp:15-370 | visiting a node in place leaves a well-formed tree equal to the specification's, appends exactly its errors, and only adds fresh nodes |
| SemaNodes.Checker.CheckAssignment | src/sema/sema_checking.cpp:162-211 | relabels a literal in place or returns a fresh cast node around the same node; on failure nothing changes |
| SemaNodes.Checker.CheckLogical | src/sema/sema_checking.cpp:49-74 | the operands returned and the errors appended are those of the specification, and the trees stay disjoint |
| SemaNodes.Checker.CheckArithmetic | src/sema/sema_checking.cpp:77-106 | the operands returned and the errors appended are those of the specification, and the trees stay disjoint |
| SemaNodes.Checker.CheckComparison | src/sema/sema_checking.cpp:109-160 | the operands returned and the errors appended are those of the specification, and the trees stay disjoint |
| SemaNodes.Checker.ResolveArguments | src/sema/sema_expr.cpp:112-117 | the loop resolves the arguments from the left up to the first one without a type |
| SemaNodes.Checker.CheckArguments | src/sema/sema_expr.cpp:119-141 | the loop replaces each argument that needs a cast, reports each that does not fit, and tells whether any failed |
| SemaNodes.Checker.VisitCallExpression | src/sema/sema_expr.cpp:86-149 | a call node in the heap ends up as the specification says, its arguments replaced by casts where needed |
| SemaNodes.Checker.VisitBinaryOp | src/sema/sema_expr.cpp:15-55 | a binary node in the heap ends up as the specification says, with SetLeft and SetRight |
| SemaNodes.Checker.VisitComparisonOp | src/sema/sema_expr.cpp:57-84 | a comparison node in the heap ends up as the specification says |
| SemaNodes.Checker.VisitIndexExpression | src/sema/sema_expr.cpp:212-250 | an index node in the heap ends up as the specification says, with the literal bounds check |
| SemaNodes.Checker.VisitMemberExpression | src/sema/sema_expr.cpp:334-368 | a member node in the heap ends up as the specification says; the member itself is not visited |
| SemaNodes.Checker.VisitUnaryOp | src/sema/sema_expr.cpp:289-332 | a unary node in the heap ends up as the specification says |
| SemaNodes.Checker.VisitIdentifierExpression | src/sema/sema_expr.cpp:191-206 | an identifier gets the type of the innermost declaration, else of the builtin, else an error |
| SemaNodes.Checker.VisitLiteralExpression | src/sema/sema_expr.cpp:252-287 | a literal gets its natural type |
| SemaNodes.WrapCast | src/sema/sema_checking.cpp:22-26 | the new cast node is a tree over the unchanged operand |
| Scopes.NoShadowing | src/sema/scope.cpp:7-23 | once a name is bound, no run of inner scopes and declarations changes what it resolves to |
| Scopes.DeclareTakesEffectIff | src/sema/scope.cpp:7-14 | a declaration takes effect exactly when the name is free in the whole chain |
| Scopes.Lookup | src/sema/scope.cpp:16-23 | finds the innermost declaration, and nothing exactly when no scope has the name |
| Scopes.Scope.LookupName | src/sema/scope.cpp:16-23 | the walk along the outer links finds the innermost declaration |
| Scopes.Scope.DeclareName | src/sema/scope.cpp:7-14 | adds the name to its own scope and reports success exactly when the chain lacks it |
| Scanning.KeywordTestIsLookup | src/parsing/scanner.cpp:318-357 | the unrolled keyword test equals plain comparison with the keyword list |
| Scanning.Scanner.Scan | src/parsing/scanner.cpp:35-226 | scanning consumes exactly the next token of the text by the lexical grammar, with its literal, on every text on which it does not get stuck |
| Scanning.Scanner.SkipWhiteSpace | src/parsing/scanner.cpp:228-248 | leaves the text without its leading blanks: only blanks are dropped and none is left in front |
| Scanning.Scanner.SkipLineComment | src/parsing/scanner.cpp:250-252 | drops text without a newline, and what is left is empty or starts with one |
| LexTheorems.LineEnds | src/parsing/scanner.cpp:250-252 | behind any text without a newline, skipping a line stops at the newline |
| LexTheorems.BlockCloses | src/parsing/scanner.cpp:254-268 | behind any text in which no comment end closes earlier, skipping a block stops behind the comment end |
| LexTheorems.BlockStaysOpen | src/parsing/scanner.cpp:254-268 | a block that is never closed takes the rest of the text |
| Scanning.Scanner.SkipBlockComment | src/parsing/scanner.cpp:254-268 | leaves the text behind the first comment end, or nothing |
| Scanning.Scanner.ScanIdentifierOrKeyword | src/parsing/scanner.cpp:270-280 | reads the longest word and classifies it as the keyword it spells or an identifier |
| Scanning.Scanner.ScanNumber | src/parsing/scanner.cpp:359-381 | reads the longest integer or float numeral |
| Scanning.Scanner.ScanString | src/parsing/scanner.cpp:383-407 | reads up to the first quote not right behind a backslash, or reports an unterminated string |
| LexTheorems.MaximalMunch | src/parsing/scanner.cpp:60-205 | the operator read is the longest one whose text starts the input |
| LexTheorems.TokenScans | src/parsing/scanner.cpp:35-226 | a well-formed token is read back from its spelling if and only if the next character does not run into it |
| LexTheorems.StringExact | src/parsing/scanner.cpp:383-407 | a string literal scans back to its contents if and only if they are non-empty, do not end in a backslash and have a backslash before every later quote |
| LexTheorems.KeywordExact | src/parsing/scanner.cpp:318-357 | a word is a keyword exactly when it is that keyword's text |
| LexTheorems.ScannedIsSpelt | src/parsing/scanner.cpp:35-226 | spelling undoes scanning: every token but an unterminated string is well-formed and the text is its spelling followed by the rest |
| LexTheorems.GapSkips | src/parsing/scanner.cpp:228-268 | any run of blanks, of line comments, which are two slashes, a body without a newline and a newline, and of block comments, whose body has no earlier comment end, is skipped |
| LexTheorems.LexicalRoundTrip | src/parsing/scanner.cpp:35-407 | text made of well-spaced token spellings and gaps scans back to exactly those tokens and then the end |
| LexTheorems.BlanksSuffice | src/parsing/scanner.cpp:35-407 | a gap that starts with a blank after every token is spacing enough |
| Derivations.ParsesExactly | src/parsing/parser.cpp:374-574 | on any stream the parser returns e from the tokens from i up to j without an error if and only if the grammar derives e from those tokens, with its precedences, grouping parentheses, optional commas and folded literals, and the token behind them cannot go on with it |
| Derivations.ParsedDerives | src/parsing/parser.cpp:374-574 | whatever is read without an error is derived from exactly the tokens read: no bracket, operator, operand or comma is lost, invented or moved |
| Derivations.DerivedParses | src/parsing/parser.cpp:374-574 | whatever the grammar derives is read back as derived |
| Derivations.ShapeDerived | src/parsing/parser.cpp:378-407 | the operators of a derivation outside its parentheses make the shape that climbing returns |
| Derivations.ArgsDerived | src/parsing/parser.cpp:466-474 | any derived argument list, with or without commas, is read up to its parenthesis |
| TypeDerivations.ParsesExactly | src/parsing/parser.cpp:591-757 | on any stream the parser returns a type from the tokens from i up to j without an error if and only if the grammar of types derives it from those tokens, for every mixture of named, colon and bare parameters |
| TypeDerivations.ParamsParsed | src/parsing/parser.cpp:637-661 | parameters read up to the parenthesis are derived from the tokens read, a bare name being a type and not a parameter name |
| PrecedenceTheorems.OperatorLadder | src/include/parsing/token.h:31-54 | which operators stand on each level of the table, and that there are no others |
| PrecedenceTheorems.ClimbExact | src/parsing/parser.cpp:378-407 | climbing returns s and stops at j if and only if s respects the precedence table and left associativity, the tokens up to j spell s, and the token at j binds no tighter than the bound |
| PrecedenceTheorems.ClimbSound | src/parsing/parser.cpp:378-407 | whatever climbing returns respects the table and its in-order yield is the consumed prefix |
| PrecedenceTheorems.ClimbRebuilds | src/parsing/parser.cpp:378-407 | a shape that respects the table is rebuilt from its tokens |
| PrecedenceTheorems.UniqueShape | src/parsing/parser.cpp:378-407 | no other shape over the same operands and operators respects the table |
| Parsing.Parser.ParseBinaryOpExpression | src/parsing/parser.cpp:378-407 | the descending-precedence loops compute textbook precedence climbing and consume the same tokens |
| Parsing.Parser.ParseUnaryOpExpression | src/parsing/parser.cpp:409-451 | builds the tree of the grammar, folding signs and negations of literals |
| Parsing.Parser.ParsePrimaryExpression | src/parsing/parser.cpp:453-501 | the do-while loop applies calls, members and indexes as far as they go |
| Parsing.Parser.ParseArguments | src/parsing/parser.cpp:466-474 | the argument loop reads all arguments, commas optional |
| Parsing.Parser.ParseOperandExpression | src/parsing/parser.cpp:503-574 | builds the operand of the grammar, a group being the expression inside it, or reports and skips one token |
| Grouping.GroupedExact | src/parsing/parser.cpp:559-564 | with every operand in parentheses, parsing the tokens of a printable tree returns it from exactly those tokens without an error if and only if the parser can build the tree at all |
| Grouping.ParsedIsTree | src/parsing/parser.cpp:374-574 | every error-free parse is such a tree: literals in range, operators in their classes, no prefix operator left that folds |
| Grouping.GroupingKept | src/parsing/parser.cpp:559-564 | (a + b) * c comes back with its grouping |
| Numerals.IntegerValue | src/parsing/parser.cpp:539-543 | a numeral is read as its value, or as 2^63 - 1 if that is less |
| Numerals.FloatValue | src/parsing/parser.cpp:545-549 | a float numeral is the integer of all its digits divided by ten for every digit behind the point |
| Numerals.NegationsFold | src/parsing/parser.cpp:426-433 | a chain of negations of a boolean folds to one literal, negated exactly when the chain is odd |
| Parsing.Parser.ParseTypeExpr | src/parsing/parser.cpp:591-624 | builds the type of the grammar, or reports |
| Parsing.Parser.ParseFunctionType | src/parsing/parser.cpp:626-669 | builds the function type of the grammar |
| Parsing.Parser.ParseParameters | src/parsing/parser.cpp:637-661 | the parameter loop builds the parameters of the grammar and stops at the parenthesis or at a missing comma |
| WrittenTypes.WrittenExact | src/parsing/parser.cpp:591-757 | however a type is written, with named, colon and bare parameters mixed and struct types anywhere, its tokens are read as what is meant, from exactly those tokens without an error |
| WrittenTypes.WrittenDerives | src/parsing/parser.cpp:591-757 | in any stream the tokens of a written type derive what is meant |
| WrittenTypes.ParamsWritten | src/parsing/parser.cpp:637-661 | a mixed list of parameters is read in order, bare ones without a name |
| WrittenTypes.BareWritten | src/parsing/parser.cpp:650-653 | a bare parameter is a type and has no name |
| WrittenTypes.StructWritten | src/parsing/parser.cpp:709-739 | a struct type written with its keyword, braces and fields is read as written, from exactly its tokens |
| Parsing.Parser.ParseArrayType | src/parsing/parser.cpp:683-707 | builds the array type of the grammar, with a missing or unknown length |
| Parsing.Parser.ParseMapType | src/parsing/parser.cpp:741-757 | builds the map type of the grammar |
| Parsing.Parser.ParsePointerType | src/parsing/parser.cpp:671-681 | builds the pointer type of the grammar |
| Parsing.Parser.ParseStructType | src/parsing/parser.cpp:709-739 | the field loop builds the struct type of the grammar |
| NormalForm.RoundTripExact | src/parsing/parser.cpp:374-574 | parsing the printed tokens returns the same tree from exactly those tokens without an error if and only if the tree is in normal form |
| RoundTrip.ExpressionRebuilds | src/ast/ast_pretty_print.cpp:195-289 | in any stream and place, the tokens of a normal-form expression followed by a token that cannot continue it parse to that expression |
| RoundTrip.PostfixRebuilds | src/parsing/parser.cpp:453-501 | the tokens of a printed call, member or index chain derive it, in any stream |
| RoundTrip.UnaryRebuilds | src/parsing/parser.cpp:409-451 | the tokens of printed prefix operators and negative literals derive them |
| RoundTrip.ArgsRebuild | src/parsing/parser.cpp:466-474 | printed arguments are derived up to the closing parenthesis |
| NormalForm.ParsedIsNormal | src/parsing/parser.cpp:374-574 | an error-free parse is in normal form when none of the tokens it reads is a grouping parenthesis, a float literal, or a builtin name without a parenthesis behind it |
| NormalForm.GroupingIsLost | src/ast/ast_pretty_print.cpp:195-199 | grouping is what the printer loses: (a + b) * c does not come back |
| Operands.OperandsKept | src/parsing/parser.cpp:374-574 | on any stream an error-free parse loses, invents and reorders no name, number, string, literal or index bracket: those of the tree are those of the tokens read, but for the token behind a builtin name, which the parser skips unread |
| TextRoundTrip.TextRoundTripExact | src/ast/ast_pretty_print.cpp:78-289 | scanning and parsing the printed characters returns the same tree if and only if it is in normal form, its names are identifiers, its strings can be quoted, and no integer literal stands right in front of a point |
| TextRoundTrip.LooseExpr | src/ast/ast_pretty_print.cpp:78-289 | no token of a printed expression runs into the next, or into what may stand behind the expression, except a point behind an integer |
| TextRoundTrip.FloatAppears | src/parsing/scanner.cpp:359-381 | printed text with a point behind an integer scans to its own tokens up to the first such integer, which becomes a float literal |
| TextRoundTrip.PointJoinsNumber | src/parsing/scanner.cpp:359-381 | a member of an integer literal prints as a float literal and does not come back |
| TypeNormalForm.TypeRoundTripExact | src/parsing/parser.cpp:591-757 | parsing a printed type of names, pointers, maps, arrays and functions returns the same representation from exactly its tokens, without an error, if and only if every array length is in normal form and does not start with a dereference |
| TypeNormalForm.StopsAtBracket | src/parsing/parser.cpp:691-700 | parsing an array length never crosses the bracket behind the tokens of the tree it returns |
| TypeRoundTrip.TypeRebuilds | src/parsing/parser.cpp:591-757 | in any stream the tokens of such a type are read back as that type, whatever follows |
| TypeRoundTrip.ParamRebuilds | src/ast/ast_pretty_print.cpp:291-302 | the tokens of a printed parameter derive it, and an unnamed one, printed as a colon and its type, stays unnamed |
| TypeRoundTrip.StarIsUnknownLength | src/parsing/parser.cpp:691-697 | an array length that starts with a dereference is read as an unknown length |
| Printing.ShownInOrder | src/ast/ast_pretty_print.cpp:78-289 | an expression prints as the texts of its parts with operators between blanks, brackets, and commas with a blank, in order |
| Printing.TypeShownInOrder | src/ast/ast_pretty_print.cpp:43-302 | a type prints as the texts of its parts with star, brackets, arrow, and a colon behind every parameter name, in order |
| Printing.PrettyPrinter.VisitExpression | src/ast/ast_pretty_print.cpp:78-289 | appends exactly the characters of the expression's tokens with their blanks |
| Printing.PrettyPrinter.VisitCallExpression | src/ast/ast_pretty_print.cpp:78-89 | appends function, parenthesis, arguments and parenthesis |
| Printing.PrettyPrinter.VisitArguments | src/ast/ast_pretty_print.cpp:82-87 | the loop with its first flag separates the arguments by a comma and a blank |
| Printing.PrettyPrinter.VisitType | src/ast/ast_pretty_print.cpp:43-52 | appends exactly the characters of the type's tokens with their blanks |
| Printing.PrettyPrinter.VisitFunctionTypeRepr | src/ast/ast_pretty_print.cpp:291-302 | appends parameters and result with the arrow between |
| Folding.ParsedInRange | src/parsing/parser.cpp:426-441 | on every token stream, every integer literal the parser builds lies between -(2^63 - 1) and 2^63 - 1, so no folded negation overflows |
| Folding.ChainFolds | src/parsing/parser.cpp:420-443 | any chain of signs before an integer folds to one literal of the signed, saturated value |
| Folding.IndexAccepted | src/sema/sema_expr.cpp:228-248 | whatever printed expression has an array type of known length, a sign chain in brackets behind it is accepted as its index if and only if the folded value lies within the array, and is reported once otherwise |
| TypeContext.RunRequests | src/ast/context.cpp:250-398 | after any run of Get calls each result stands for the type asked for, and two results are the same object if and only if they stand for the same type; earlier results are unchanged |
| TypeContext.Canonical | src/ast/context.cpp:250-398 | in any state of the caches two known objects are the same exactly when their types are equal, which is what pointer comparison in the type checker needs |
| TypeContext.Context.GetPointer | src/ast/context.cpp:250-260 | returns a known object for the pointer type and adds at most that one |
| TypeContext.Context.GetArray | src/ast/context.cpp:263-273 | returns a known object for the array type and adds at most that one |
| TypeContext.Context.GetMap | src/ast/context.cpp:276-286 | returns a known object for the map type and adds at most that one |
| TypeContext.Context.GetStruct | src/ast/context.cpp:289-321 | returns a known object for the anonymous struct, the empty one identified with its one-byte padded form |
| TypeContext.Context.GetFunction | src/ast/context.cpp:379-398 | returns a known object for the function type, parameter names included |
| TypeContext.Context.GetNamedStruct | src/ast/context.cpp:330-363 | always a new object under a name no struct had; the table gains exactly that entry, and the counter moves at most one step more than the table has entries |
| TypeContext.Context.PickName | src/ast/context.cpp:333-350 | the renaming loop ends and picks the given name if free, otherwise the first free suffixed one |
| TypeContext.SuffixedInjective | src/ast/context.cpp:341-343 | distinct counters give distinct names |
| TypeContext.Ask | src/ast/context.cpp:250-398 | one request keeps all invariants and answers with the type asked for; a named struct's name differs from every earlier one |
| Layout.IdealIsLayout | src/ast/type.cpp:107-133 | offsets are aligned, in order and non-overlapping, and the size is a multiple of every field's alignment |
| Layout.Least | src/ast/type.cpp:107-133 | no layout of the same fields has a smaller offset or a smaller size |
| Layout.ArraysStayAligned | src/ast/type.cpp:128-132 | in an array of the struct every field of every element is aligned |
| Layout.FitsExactly | src/ast/type.cpp:107-133 | the 32-bit result is a sound layout if and only if the ideal size fits in 32 bits |
| Layout.LargeStructWraps | src/ast/type.cpp:107-133 | a witness: two byte arrays of 2^31 bytes make a struct of size 0 |
| Layout.LayoutHelper.constructor | src/ast/type.cpp:107-133 | the loop computes the ideal offsets and size cut off to 32 bits, and the largest alignment |
| Layout.AlignedIsMultiple | src/include/util/math_util.h:75-78 | the mask test is divisibility for powers of two |
| Layout.AlignToLeast | src/include/util/math_util.h:96 | rounding up gives the least multiple at or above the value |
| Layout.WrapAlign | src/ast/type.cpp:113-115 | wrapping to 32 bits commutes with aligning |
| TypePrinting.PrintedExactly | src/ast/type_printer.cpp:33-98 | two types print alike if and only if they are equal up to field, parameter and struct names |
| TypePrinting.Readable | src/ast/type_printer.cpp:33-98 | a text starts with at most one printed type, up to names |
| TypePrinting.ListsReadable | src/ast/type_printer.cpp:35-67 | a closed list of printed types is read in one way |
| TypePrinting.TypePrinter.Visit | src/ast/type_printer.cpp:33-85 | appends exactly the text of the type |
| TypeMeaning.TextMeans | src/ast/type_printer.cpp:33-98 | for every well-named type without structs the text scans and parses to the representation of the type: its length as a literal or a star, key before value, parameters in order without names, then the result |
| TypeMeaning.TextScans | src/ast/type_printer.cpp:33-98 | in front of anything that is no part of a word the text of any type, structs included, scans to the tokens of its parts in order |
| TypePrinting.TypePrinter.VisitList | src/ast/type_printer.cpp:37-44 | the loop with its first flag separates elements by commas |
| TypePrinting.PrimitivesNameable | src/ast/type.cpp:41-46 | the names of the primitive and SQL builtins are distinct plain words other than string, map and struct |
| TypePrinting.EngineClassesNameable | src/include/ast/type.h:57-94 | so are the names of the 36 engine classes |
| Dumping.AstDumper.VisitFile | src/ast/ast_dump.cpp:161-168 | the output for a file is the lines of its tree, node by node; prefix is restored and only the closure left for want of a return stays pending |
| Dumping.AstDumper.RunEntry | src/ast/ast_dump.cpp:103-121 | running a pending entry writes the recursive rendering of its tree and restores prefix and pending entries |
| Dumping.AstDumper.DumpChild | src/ast/ast_dump.cpp:90-130 | defers a child and renders the one deferred before it as not last |
| Dumping.AstDumper.VisitNode | src/ast/ast_dump.cpp:170-388 | writes the node and renders all children but the last, which stays pending |
| Dumping.AstDumper.Drain | src/ast/ast_dump.cpp:116-118 | runs what is pending above the depth as last children |
| Dumping.RendersLines | src/ast/ast_dump.cpp:103-121 | the rendering is one line for each node, parents first: a column for every node above it, empty below a last child, its mark and its text |
| Dumping.LastOfAll | src/ast/ast_dump.cpp:103-108 | rendering told in advance which child is last splits into the inner children and the last |
| Termination.TerminatingSound | src/ast/ast.cpp:204-221 | under any outcomes of conditions and loops a statement called terminating never completes normally |
| Termination.CompletesIff | src/ast/ast.cpp:204-221 | which statements can complete normally, exactly; none of those is called terminating |
| Termination.PlainExact | src/ast/ast.cpp:204-221 | on statements without early exits the check is exact: it says terminating if and only if no run completes |
| Termination.OverlookedIff | src/ast/ast.cpp:204-221 | a statement that cannot complete is not called terminating if and only if it returns or loops for ever before the end of a block, in a loop head, or in a loop without a condition |
| Termination.NeedlesslyRejected | src/ast/ast.cpp:204-221 | witnesses: an early return and an endless loop cannot complete and are not called terminating |
| Termination.BodyNode.CheckReturn | src/sema/sema_expr.cpp:176-188 | accepts exactly terminating bodies and those of nil functions, appends a return exactly where one is elided, never lets an accepted body run past its end, and otherwise keeps its behaviour |
| BoundedRandom.Uniform | benchmark/sql/join_hash_table_benchmark.cpp:53-71 | every output below the range comes from exactly floor(2^32 / range) accepted words |
| BoundedRandom.FewRejected | benchmark/sql/join_hash_table_benchmark.cpp:64-68 | exactly 2^32 mod range words are rejected, fewer than half |
| BoundedRandom.BoundedRand | benchmark/sql/join_hash_table_benchmark.cpp:53-71 | the result is below the range and comes from the first acceptable word of the stream |
| BoundedRandom.ComputeThreshold | benchmark/sql/join_hash_table_benchmark.cpp:59-63 | the subtractions and the division compute 2^32 mod range |
| BoundedRandom.SourcesAreInterval | benchmark/sql/join_hash_table_benchmark.cpp:53-71 | the accepted words of an output are consecutive |
| ColumnBits.Analyze | benchmark/sql/join_hash_table_benchmark.cpp:74-91 | the bits recorded for each column are the least b with every value, read as unsigned 64-bit, below 2^b |
| ColumnBits.OrBelow | benchmark/sql/join_hash_table_benchmark.cpp:81-83 | an or stays below a power of two exactly when both operands do |
| ColumnBits.WidthExact | benchmark/sql/join_hash_table_benchmark.cpp:86-89 | 64 minus the leading zeros, 64 of them for zero, is the least width |
| ColumnBits.FitsIffLossless | benchmark/sql/join_hash_table_benchmark.cpp:93-104 | a column fits the non-negative range of the narrow type exactly when all its values, read as unsigned, convert to themselves |
| ColumnBits.CompressionLossless | benchmark/sql/join_hash_table_benchmark.cpp:93-104 | when all recorded widths fit, compressed rows hold the same values and narrow key equality agrees with wide key equality for every safe probe |
| ColumnBits.ConvertIsCongruent | benchmark/sql/join_hash_table_benchmark.cpp:93-104 | narrowing adds a multiple of 2^width and lands in the range of the narrow type |
| ColumnBits.ProbeExact | benchmark/sql/join_hash_table_benchmark.cpp:45-48 | a probe key is compared correctly with every key in the range if and only if it is safe: in the range itself, or turned negative by a signed narrow type |
| ColumnBits.ProbeOutsideCollides | benchmark/sql/join_hash_table_benchmark.cpp:45-48 | a witness: one full turn above a key in the range a probe collides with it |
| ColumnBits.Compress | benchmark/sql/join_hash_table_benchmark.cpp:93-104 | every output row is overwritten with the converted columns of its input row |
| BracketLines.CloseExpression | build-support/cpplint.py:1822-1863 | returns the place just behind the correctly paired closing bracket of the flattened text, and gives up exactly when there is none |
| BracketLines.ReverseCloseExpression | build-support/cpplint.py:1943-1978 | returns the place of the opening bracket, and gives up exactly when there is none |
| BracketLines.CloseThenReverse | build-support/cpplint.py:1744-1978 | going to the closing bracket and back returns the original line and column |
| BracketLines.FindEndOfExpressionInLine | build-support/cpplint.py:1744-1819 | one line moves the stack as scanning its text does |
| BracketLines.FindStartOfExpressionInLine | build-support/cpplint.py:1866-1940 | one line read backward moves the stack as scanning its text from the right does |
| BracketLines.MatchesUnique | build-support/cpplint.py:1744-1978 | a bracket has at most one partner on either side |
| Brackets.ForwardExact | build-support/cpplint.py:1744-1819 | the stack machine stops behind position j if and only if the bracket at j closes the first one with correctly paired text between |
| Brackets.BackwardExact | build-support/cpplint.py:1866-1940 | the backward machine stops at position i if and only if the bracket at i is closed by the last one |
| Brackets.KindsPair | build-support/cpplint.py:1744-1819 | round, square and curly brackets around paired text are paired, each with its own kind |
| Brackets.BackwardIsMirrored | build-support/cpplint.py:1866-1940 | scanning backward is scanning the mirrored text forward |
| Brackets.PairedMirrorIff | build-support/cpplint.py:1866-1940 | text is correctly paired exactly when its mirror image is |
| Preprocessing.NestingState.ProcessLines | build-support/cpplint.py:2757-2811 | for every file, well nested or not, the stack amounts to what the lines outside else and elif branches give, and is that stack whenever no such branch is open |
| Preprocessing.NestingState.UpdatePreprocessor | build-support/cpplint.py:2757-2811 | a directive moves the checkpoints but not what the stack amounts to |
| Preprocessing.BlocksClose | build-support/cpplint.py:2624-2811 | blocks nested to any depth are closed again: they leave the blocks around them alone and rewrite only the innermost |
| Preprocessing.WellNestedCloses | build-support/cpplint.py:2797-2808 | a well-nested file leaves the stack of checkpoints empty |
| Preprocessing.FirstBranchOnly | build-support/cpplint.py:2767-2773 | a whole conditional, with any number of else and elif branches, counts as its first branch alone |
| Decimal.ValueOfDec | src/parsing/parser.cpp:539-543 | reading a printed numeral gives back the number |

## Left out

- Builtin calls: their checks in src/sema/sema_builtin.cpp are one table of argument rules per builtin; `Sema` stops at them.
- Statements, declarations and function-literal bodies: parsing and printing of statements has no separators, so it does not round trip; the type checker of statements adds easy claims. A function literal is an outcome of its own in `Grammar`.
- Struct types inside other types: they print without their keyword, so they do not parse back.
- Float text: the printer rounds to six digits and `strtof` rounds to 32 bits; literals carry exact decimal values, and float literals are not printed.
- Source positions, error arguments and the recovery of the parser at declarations: message plumbing.
- Scanning.Scanner.Scan: characters outside the language make the scanner loop, which is the outcome `Stuck`; byte 0xFF, which the program takes for the end of input, is not told apart.
- SemaTheorems.Elaboration: function literals are not among its trees, because their bodies are statements, nor are builtin calls.
- SemaTheorems.Acceptance: function literals are not among its trees, because their bodies are statements, nor are builtin calls.
- SemaTheorems.VisitErases: function literals are not among its trees, because their bodies are statements.
- SemaNodes.CheckExpression: function literals are not among its trees, because their bodies are statements, nor are builtin calls.
- SemaNodes.Checker.VisitNode: function literals and builtin calls are left out as above; it is specified for trees on which the checker neither aborts nor throws; the nodes of one tree are not shared.
- Parsing.Parser.ParseBinaryOpExpression: specified for streams on which no function literal is reached, because parsing its body is parsing statements.
- Parsing.Parser.ParseUnaryOpExpression: specified for streams on which no function literal is reached, because parsing its body is parsing statements.
- Parsing.Parser.ParsePrimaryExpression: specified for streams on which no function literal is reached, because parsing its body is parsing statements.
- Parsing.Parser.ParseArguments: specified for streams on which no function literal is reached, because parsing its body is parsing statements.
- Parsing.Parser.ParseOperandExpression: specified for streams on which no function literal is reached, because parsing its body is parsing statements.
- NormalForm.ParsedIsNormal: float literals and builtin names without a parenthesis are excluded, since neither is printed.
- Printing.PrettyPrinter.VisitExpression: float literals are excluded, because their text is rounded.
- Printing.PrettyPrinter.VisitCallExpression: float literals are excluded, because their text is rounded.
- Printing.PrettyPrinter.VisitArguments: float literals are excluded, because their text is rounded.
- Printing.PrettyPrinter.VisitType: struct types are excluded, because they print without their keyword; that the characters it writes scan back to their tokens is stated for the other type printer (`TypeMeaning.TextScans`) only.
- Printing.PrettyPrinter.VisitFunctionTypeRepr: struct types are excluded, because they print without their keyword.
- TypeMeaning.TextMeans: types with structs are excluded, because their fields are printed without names and with commas, and so are lengths above 2^63 - 1, which no literal can have.
- Derivations.ParsesExactly: says nothing of the tree returned together with errors, nor of how many errors a malformed text gets; function literals are never derived, because their bodies are statements.
- TypeDerivations.ParsesExactly: says nothing of the type returned together with errors.
- Diagnoses.Diagnosed: function literals and builtin calls are not among its trees, as above; positions and error arguments are left out.
- Numerals.FloatValue: exact decimal values, without the rounding to 32 bits.
- PrecedenceTheorems.ClimbExact: stated for the operator table of src/include/parsing/token.h, not for every table.
- BracketLines.CloseExpression: angle brackets, and with them templates and shift operators, are excluded by precondition.
- BracketLines.ReverseCloseExpression: angle brackets are excluded by precondition.
- BracketLines.CloseThenReverse: angle brackets are excluded by precondition.
- BracketLines.FindEndOfExpressionInLine: angle brackets are excluded by precondition.
- BracketLines.FindStartOfExpressionInLine: angle brackets are excluded by precondition.
- Brackets.ForwardExact: angle brackets count as ordinary characters.
- Brackets.BackwardExact: angle brackets count as ordinary characters.
- Sizes and alignments of builtin types: `Layout` takes them as given powers of two.
- The dumper's colours, pointers and positions are part of the given head of each node; roots other than a file are left out, because there the missing return after the top-level case matters.
- ColumnBits and BoundedRand model the arithmetic, not the random generator, the hash tables or the timing around them.
- The bytecode generator, the virtual machine, the SQL engine and the other lint rules.
