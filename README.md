# theia toolchain core in Dafny

A model of the toolchain behind the theia register-machine teaching tool.
The toolchain translates LOOP, WHILE and GOTO programs into the bytecode of
its register machine. It has three parts:

- the hand-written **lexer** (`Lexer.java`), an iterator of tokens over the
  program text, with one character of lookahead;
- the recursive-descent **compiler** (`Compiler.java`), which appends words
  to an instruction list and back-patches jump targets. In GOTO programs it
  also records each line's address and each GOTO-IF target, and links them
  at the end;
- the **decompiler** `PrettyPrint.print`, the register store `Register`
  behind the register table, and the compile error `RecognitionException`.

The lexer and the compiler are classes whose methods update fields in place.
`Register` is one too. The decompiler's loop and the array conversion at the
end of `compile` are methods with loop invariants. Everything else is
functions and lemmas.

How each part is specified:

- **Lexer.** The lexer is proved against `Scanner.Scan`, a declarative
  description of one `lex()` call. `ScanFacts` proves what `Scan` accepts,
  token kind by token kind.
- **Grammar.** `Grammar` restates the recursive descent as functions over
  the token stream: `Scanner.Lexemes`, what successive `next()` calls of
  the lexer hand out. Each `Parse` function reads the same tokens in the
  same order as the `consume` method it is named after. It looks one token
  ahead where that method calls `test`, and fails for the same reason at
  the same token. `Translate` is the whole of `compile()` in these terms.
- **Compiler.** The compiler builds no syntax tree. Each `consume` method
  has the verdict of its `Parse` function on the tokens ahead: on success
  the same statement and the same tokens left, otherwise the same reason to
  throw. Running out of memory is the one exception. No statement appends
  more than four words per token it reads, so an OutOfMemoryError is
  allowed only when the words already in the list plus four per token
  ahead pass `Integer.MAX_VALUE` - 4, and for `compile` only on a stream of
  more than (`Integer.MAX_VALUE` - 4) / 4 tokens (`Grammar.Fits`). On
  success the method has appended exactly `Codegen.Emit` of the statement
  and recorded exactly its GOTO-IF sites (`Codegen.Relocations`). `Compile` returns the code `Translate` gives,
  or an exception `Translate` names, and it does return the code whenever
  `Translate` compiles a stream that fits.
- **Verdicts.** `Verdicts` works out `Translate` on small programs. Each
  exception the compiler raises gets one program that raises it, a lexer
  exception included. The exceptions are the syntax errors, the
  NumberFormatException of `Integer.parseInt` and the NullPointerException
  of linking. The unreachable "Unkown operator" is the one exception with
  no program (see "## Left out"). A few programs are compiled to the words
  they produce.
- **Compiled code.** `Codegen` and `Bytecode` prove that emitted code is
  well-formed (`Bytecode.Code`):
  - it is a run of whole instructions;
  - its opcodes belong to the language (`Codegen.Ops`);
  - after linking, every jump lands inside the program or at its end.
- **Listing.** The decompiler lists exactly the code that decodes into
  whole instructions (`PrettyPrint.ListingDefined`). Well-formed code is
  such code (`Bytecode.CodeDecodes`), so every compiled program has a
  listing (`Compilers.ProgramListing`).

How the source is represented:

- Java `int`s are `int`s restricted to the 32-bit range (`Numerals.int32`).
- The bit operations on operands (`0x80000000 | (v & 0x7fffffff)`,
  `x >> 31`, `x & 0x7fffffff`) are written out arithmetically on that range.
- Exceptions are values of `Tokens.Failure`.
- Strings are sequences of characters.

## Model

| member | source | states |
|---|---|---|
| Numerals.ParseInt | src/de/theia/vm/Compiler.java:519 | `Integer.parseInt` on a digit string succeeds exactly when its value fits an `int`, and gives that value; it never accepts the empty string |
| Numerals.ParseIntToString | src/de/theia/vm/Compiler.java:168-172 | parsing the decimal text of any `int` gives the `int` back |
| Numerals.NatToStringRoundTrip | src/de/theia/vm/Register.java:114 | the decimal text of a natural number is all digits and reads back as the number |
| Numerals.IntToStringShape | src/de/theia/vm/Register.java:114 | `Integer.toString` starts with a minus sign exactly for negative values, and is otherwise the plain decimal text |
| Numerals.PadLeftShape | src/de/theia/vm/PrettyPrint.java:39 | `%3d` pads on the left with spaces only, and the number's text ends the field |
| Recognition.RecognitionError.Start | src/de/theia/vm/RecognitionException.java:45-51 | when the error has selection info, the selection starts at a non-negative offset |
| Recognition.RecognitionError.End | src/de/theia/vm/RecognitionException.java:53-59 | when the error has selection info, the selection ends at a non-negative offset |
| Recognition.RecognitionError.Line | src/de/theia/vm/RecognitionException.java:61-63 | an error with line info reports a line counted from one |
| Recognition.RecognitionError.CaretSelection | src/de/theia/vm/RecognitionException.java:45-59 | without a from/to span, the selection is the one character before `abs` |
| Recognition.MessageOnlyInfo | src/de/theia/vm/RecognitionException.java:12-14 | a message-only error still claims line 1, column 0 and the empty selection at offset 0 |
| Recognition.AtPositionInfo | src/de/theia/vm/RecognitionException.java:16-21 | a positioned error reports its line and column; since from and to stay 0, its selection is the empty span at 0 whatever `abs` is |
| Recognition.SpanningInfo | src/de/theia/vm/RecognitionException.java:23-27 | a span error selects its span exactly when both ends are set, and claims line 1 |
| Recognition.SpanningLineInfo | src/de/theia/vm/RecognitionException.java:29-35 | a span error with a line reports both, and selects the span exactly when both ends are set |
| Tokens.KeywordTable | src/de/theia/vm/Lexer.java:24-34 | the keyword table holds exactly the eight lower-case words, each mapped to a keyword token |
| Bytecode.OperandCount | src/de/theia/vm/PrettyPrint.java:42-121 | every instruction has at most three operand words, and a word that is no opcode has none |
| Bytecode.Width | src/de/theia/vm/PrettyPrint.java:42-121 | an instruction takes one to four words |
| Bytecode.Low31 | src/de/theia/vm/PrettyPrint.java:19-22 | `x & 0x7fffffff` is below 2^31: the value itself for non-negative words, the word plus 2^31 for negative ones |
| Bytecode.AsVar | src/de/theia/vm/Compiler.java:507 | a register operand has bit 31 set and keeps the low 31 bits of the index |
| Bytecode.AsNum | src/de/theia/vm/Compiler.java:520 | an immediate operand has bit 31 clear and keeps the low 31 bits of the value |
| Bytecode.OperandRoundTrip | src/de/theia/vm/Compiler.java:505-522 | an index or value in [0, 2^31) comes back from its encoding, with its tag |
| Bytecode.EncodingsDisjoint | src/de/theia/vm/Compiler.java:505-522 | no register operand equals an immediate operand |
| Bytecode.CodeConcat | src/de/theia/vm/Compiler.java:264-267 | well-formed code followed by well-formed code placed right after it is well-formed |
| Bytecode.CodePatch | src/de/theia/vm/Compiler.java:346 | patching an unresolved jump target with an address in range resolves that site and keeps the code well-formed |
| Bytecode.CodeDecodes | src/de/theia/vm/PrettyPrint.java:37-58 | well-formed code decodes into whole instructions by the arity table |
| Bytecode.CodeTargets | src/de/theia/vm/Compiler.java:343-346 | at every instruction start of fully patched well-formed code: an opcode of the language whose operands fit, and a jump target inside the allowed range |
| Codegen.EmitAllSize | src/de/theia/vm/Compiler.java:316-350 | the emitted code of a statement sequence is as long as the sum of the statement sizes |
| Codegen.RelocationsWithin | src/de/theia/vm/Compiler.java:416-420 | every GOTO-IF site of a statement is an operand word inside the statement's own code |
| Codegen.RelocationsAllWithin | src/de/theia/vm/Compiler.java:416-420 | every GOTO-IF site of a statement sequence lies inside its code |
| Codegen.EmitCode | src/de/theia/vm/Compiler.java:316-496 | the code of a statement the language allows is well-formed code of that language whose jumps stay within the statement or at its end, apart from its unresolved GOTO-IF sites |
| Codegen.EmitAllCode | src/de/theia/vm/Compiler.java:224-268 | the same for a statement sequence |
| Codegen.LoopCode | src/de/theia/vm/Compiler.java:316-350 | a `loop`'s PUSH/BZ/body/DEC/GOTO/POP frame is well-formed, with BZ jumping to the POP and GOTO back to the BZ |
| Codegen.WhileCode | src/de/theia/vm/Compiler.java:457-496 | a `while`'s IFEQ/body/GOTO/NOP frame is well-formed, with IFEQ jumping to the NOP and GOTO back to the IFEQ |
| Codegen.IfCode | src/de/theia/vm/Compiler.java:424-452 | an `if`'s branch/then/GOTO/else/NOP layout is well-formed, with the branch jumping to the else part and the GOTO to the NOP |
| Codegen.AppendAll | src/de/theia/vm/Compiler.java:264-267 | the code and sites of `P ; Q` are those of `P` followed by those of `Q` placed after it |
| Codegen.AllowedAppend | src/de/theia/vm/Compiler.java:237-255 | a sequence is allowed in a language exactly when both parts are |
| Codegen.NoRelocationsAll | src/de/theia/vm/Compiler.java:399 | LOOP and WHILE programs record no GOTO-IF site |
| Codegen.ResolveCode | src/de/theia/vm/Compiler.java:203-207 | filling every site of well-formed code with a line address inside the program leaves well-formed code with no site left |
| Codegen.ResolveStep | src/de/theia/vm/Compiler.java:203-207 | filling one site and then the others fills them all, in any order |
| Grammar.AsVarText | src/de/theia/vm/Compiler.java:505-509 | `asVar`: a register operand for the digits after the first character, `NumberFormat` when they do not parse, `IndexOutOfBounds` for an empty lexeme |
| Grammar.AsNumText | src/de/theia/vm/Compiler.java:518-522 | `asNum`: an immediate operand when the lexeme parses as an `int`, `NumberFormat` otherwise |
| Grammar.VarRoundTrip | src/de/theia/vm/Compiler.java:505-509 | the lexeme `x<n>` encodes register `n` |
| Grammar.NumRoundTrip | src/de/theia/vm/Compiler.java:518-522 | the lexeme of a non-negative `int` encodes that value |
| Grammar.MalformedOperand | src/de/theia/vm/Compiler.java:505-509 | a lexeme with a non-digit after its first character, such as `!x1`, fails with `NumberFormat` |
| Grammar.Operator | src/de/theia/vm/Compiler.java:287-293 | the operator `switch` knows exactly `+`, `-` and `*` |
| Grammar.ParseExpr | src/de/theia/vm/Compiler.java:280-297 | a parsed right-hand side is a MOV or an arithmetic statement that assigns to the register on the left of `:=` |
| Grammar.ParseOptLoop | src/de/theia/vm/Compiler.java:237-245 | the `loop` test yields at most one statement, and only one the language allows: a `loop` only in LOOP programs |
| Grammar.ParseOptWhile | src/de/theia/vm/Compiler.java:247-255 | the `while` test yields at most one statement, and a `while` only in WHILE programs |
| Grammar.ParseStmt | src/de/theia/vm/Compiler.java:224-268 | a parsed statement sequence holds only statements its language allows: `loop` only in LOOP, `while` only in WHILE and GOTO-IF only in GOTO programs |
| Grammar.ParseIf | src/de/theia/vm/Compiler.java:375-452 | a parsed `if` is a two-branch `if` or a GOTO-IF, and a GOTO-IF only in GOTO programs |
| Grammar.ParseGotoTarget | src/de/theia/vm/Compiler.java:407-420 | a GOTO-IF keeps the two operands of its condition |
| Grammar.ParseBranches | src/de/theia/vm/Compiler.java:424-452 | a two-branch `if` keeps the comparison and operands of its condition, and both branches hold statements of the language |
| Grammar.ParseLabel | src/de/theia/vm/Compiler.java:161-179 | a parsed line number was not used before |
| Grammar.ParseLine | src/de/theia/vm/Compiler.java:161-182 | a parsed GOTO line has a number not used before and only GOTO statements |
| Grammar.ParseLineEnd | src/de/theia/vm/Compiler.java:184-199 | EOF ends the program and stays unread; a semicolon must be followed by a token other than EOF |
| Grammar.ParsedLines | src/de/theia/vm/Compiler.java:159-200 | the lines of a parsed GOTO program hold GOTO statements only and have distinct numbers, and EOF follows the last one |
| Grammar.LinesAppend | src/de/theia/vm/Compiler.java:176-178 | one more line adds its statements, its number, its size, and its label at the address where it starts |
| Grammar.LabelsKeys | src/de/theia/vm/Compiler.java:176-178 | the label map holds exactly the line numbers used |
| Grammar.LabelsWithin | src/de/theia/vm/Compiler.java:178 | every label is an address inside the program or at its end |
| Grammar.LabelsAddress | src/de/theia/vm/Compiler.java:178 | with distinct numbers, each line's label is the address of its first instruction |
| Compilers.LoopCompiled | src/de/theia/vm/Compiler.java:316-350 | the words `consumeLoop` adds and patches, step by step, are exactly the `loop`'s code, with BZ patched to the POP |
| Compilers.WhileCompiled | src/de/theia/vm/Compiler.java:457-496 | the words `consumeWhile` adds and patches are exactly the `while`'s code, with IFEQ patched to the NOP |
| Compilers.IfCompiled | src/de/theia/vm/Compiler.java:424-452 | the words `consumeIf` adds and patches are exactly the `if`'s code, with the else and end targets patched |
| Compilers.IfRecorded | src/de/theia/vm/Compiler.java:424-452 | the sites recorded in both branches of an `if` are the `if`'s sites |
| Compilers.GotoCompiled | src/de/theia/vm/Compiler.java:416-421 | a GOTO-IF adds IFEQ, its operands and a -1 placeholder, and records the placeholder's address with the line number |
| Compilers.Extend | src/de/theia/vm/Compiler.java:264-267 | code appended for further statements extends the code and sites of the statements before them |
| Compilers.ExtendOne | src/de/theia/vm/Compiler.java:232-259 | the same for one more statement |
| Compilers.NextLine | src/de/theia/vm/Compiler.java:161-187 | a GOTO program grows by the statements of each further line |
| Compilers.ProgramCode | src/de/theia/vm/Compiler.java:208-210 | a compiled LOOP or WHILE program is well-formed code of its language with no site left |
| Compilers.GotoProgramCode | src/de/theia/vm/Compiler.java:203-207 | a GOTO program whose every GOTO-IF names a known line is, once linked, well-formed GOTO code with no site left |
| Compilers.ProgramListing | src/de/theia/vm/PrettyPrint.java:32-129 | the decompiler lists every compiled program in full |
| Compilers.ProgramTargets | src/de/theia/vm/Compiler.java:343-346 | at every instruction start of a compiled program: an opcode of the language, operands that fit, and a jump into the program or to its end |
| Compilers.TranslationCode | src/de/theia/vm/Compiler.java:151-219 | whatever `compile()` translates a token stream into is well-formed code of the language |
| Compilers.CompileText | src/de/theia/vm/Compiler.java:151-219 | compiling a text on a fresh lexer and compiler gives the code `Translate` gives for the text's tokens, or an exception `Translate` names (an OutOfMemoryError only for a token stream that does not fit); when `Translate` compiles a stream that fits, the result is that code |
| Compilers.Compiler.constructor | src/de/theia/vm/Compiler.java:55-61 | a new compiler has no token buffered, empty label and site maps and an empty program |
| Compilers.Compiler.Test | src/de/theia/vm/Compiler.java:92-99 | `test(token)` fetches a token only when none is buffered, and records the span around it; it compares with the buffered token |
| Compilers.Compiler.TestAny | src/de/theia/vm/Compiler.java:108-118 | `test(tokens...)` fetches like `test`, without touching the span, and checks membership |
| Compilers.Compiler.Match | src/de/theia/vm/Compiler.java:70-83 | `match` consumes the expected token and returns its lexeme; otherwise it raises "Expected 'T' but found 'U'" over the recorded span |
| Compilers.Compiler.Skip | src/de/theia/vm/Compiler.java:140-143 | `skip` drops the buffered token and returns the current lexeme |
| Compilers.Compiler.Append | src/de/theia/vm/Compiler.java:321-322 | `program.add` appends its words, and fails once the list would outgrow `Integer.MAX_VALUE` |
| Compilers.Compiler.Patch | src/de/theia/vm/Compiler.java:346 | `program.set` replaces one word and nothing else |
| Compilers.Compiler.RecordSite | src/de/theia/vm/Compiler.java:419 | `relocateMap.put` records one site and changes nothing else |
| Compilers.Compiler.RecordLabel | src/de/theia/vm/Compiler.java:177 | `labelMap.put` records one line address and changes nothing else |
| Compilers.Compiler.ConsumeExprArgument | src/de/theia/vm/Compiler.java:357-370 | has the verdict of `ParseArgument`: a VAR gives the register of its lexeme, a NUM the immediate of its lexeme, any other token "arg op arg", a lexeme that does not parse a NumberFormatException; the code and both maps stay as they are |
| Compilers.Compiler.ConsumeAssign | src/de/theia/vm/Compiler.java:273-311 | has the verdict of `ParseAssign`: `x := a` or `x := a op b`; on success it has appended exactly the MOV or arithmetic instruction of that statement and recorded no site |
| Compilers.Compiler.ConsumeExpr | src/de/theia/vm/Compiler.java:280-297 | has the verdict of `ParseExpr`: an operand, and if `+`, `-` or `*` follows, the operator and a second operand; the code and both maps stay as they are |
| Compilers.Compiler.ConsumeLoop | src/de/theia/vm/Compiler.java:316-350 | has the verdict of `ParseLoop`: `loop x do S end`, counting in the register of x's lexeme; on success it has appended exactly the `loop`'s code and recorded its body's sites |
| Compilers.Compiler.ConsumeWhile | src/de/theia/vm/Compiler.java:457-496 | has the verdict of `ParseWhile`: `while x != 0 do S end`, testing the register of x's lexeme; on success it has appended exactly the `while`'s code and recorded its body's sites |
| Compilers.Compiler.ConsumeWhileHead | src/de/theia/vm/Compiler.java:458-472 | has the verdict of `ParseWhileHead`: x's lexeme; another token than `!=` is "operator must be 'not equal'", another lexeme than `0` is "must test on not equal zero" |
| Compilers.Compiler.ConsumeIf | src/de/theia/vm/Compiler.java:375-452 | has the verdict of `ParseIf`: a GOTO-IF when `goto` follows in a GOTO program, where `<=` is "Must use 'equal zero'", and otherwise a two-branch `if`; on success it has appended exactly that statement's code and recorded its sites |
| Compilers.Compiler.ConsumeCondition | src/de/theia/vm/Compiler.java:377-395 | has the verdict of `ParseCondition`: two operands around `=` or `<=`; any other token between them is "Illegal compare operator" |
| Compilers.Compiler.ConsumeGotoTarget | src/de/theia/vm/Compiler.java:399-421 | has the verdict of `ParseGotoTarget`: the target is `Integer.parseInt` of the NUM lexeme after `goto`; on success IFEQ on the condition's operands is appended, and the placeholder is recorded as a site with that line |
| Compilers.Compiler.ConsumeBranches | src/de/theia/vm/Compiler.java:424-452 | has the verdict of `ParseBranches`: the then-part is the statements after THEN, the else-part those between ELSE and END; on success the `if`'s code is appended with both targets patched, its sites recorded, and at most four words per token read |
| Compilers.Compiler.ConsumeElse | src/de/theia/vm/Compiler.java:436-452 | has the verdict of `ParseEnclosed` with ELSE; on success, with the head and then-part of an `if` already in the list, the list and the site map are the whole `if`'s code and sites: the GOTO, the else address patched in, the else-part, the end address patched in and the NOP |
| Compilers.Compiler.ConsumeEnclosed | src/de/theia/vm/Compiler.java:333-335 | for DO or ELSE, has the verdict of `ParseEnclosed`: the opening token, the statements, END; on success it has appended exactly the statements' code and recorded their sites, at most four words per token read, with eight words to spare |
| Compilers.Compiler.ConsumeStmt | src/de/theia/vm/Compiler.java:224-268 | has the verdict of `ParseStmt`: EOF where a statement must start is "No statement provided", and outside GOTO programs a semicolon continues the sequence; on success it has appended exactly the statements' code and recorded their sites |
| Compilers.Compiler.ConsumeStatements | src/de/theia/vm/Compiler.java:232-259 | has the verdict of `ParseStatements`: the assignment, `loop`, `while` and `if` tests in order, each compiling a statement only if its token comes |
| Compilers.Compiler.ConsumeBlocks | src/de/theia/vm/Compiler.java:247-259 | has the verdict of `ParseBlocks`: the `while` test, then the `if` test |
| Compilers.Compiler.ConsumeOptAssign | src/de/theia/vm/Compiler.java:233-235 | has the verdict of `ParseOptAssign`: an assignment exactly when a VAR comes |
| Compilers.Compiler.ConsumeOptLoop | src/de/theia/vm/Compiler.java:237-245 | has the verdict of `ParseOptLoop`: a `loop` when LOOP comes, and "Illegal statement loop in lang" outside LOOP programs |
| Compilers.Compiler.ConsumeOptWhile | src/de/theia/vm/Compiler.java:247-255 | has the verdict of `ParseOptWhile`: a `while` when WHILE comes, and "Illegal statement while in lang" outside WHILE programs |
| Compilers.Compiler.ConsumeOptIf | src/de/theia/vm/Compiler.java:257-259 | has the verdict of `ParseOptIf`: an `if` exactly when IF comes |
| Compilers.Compiler.CompileLines | src/de/theia/vm/Compiler.java:159-200 | has the verdict of `ParseLines`; on success the program is the code of all lines' statements, the site map their sites, and the label map gives each line number the address of its line's first instruction |
| Compilers.Compiler.CompileLine | src/de/theia/vm/Compiler.java:161-182 | has the verdict of `ParseLine`: the line number is `Integer.parseInt` of the NUM lexeme, recorded with the current address, and the line's statements are appended |
| Compilers.Compiler.LineLabel | src/de/theia/vm/Compiler.java:161-179 | has the verdict of `ParseLabel`: a token other than NUM is "A GOTO statement needs a line number", a number used before is "Line number 'n' already used"; otherwise `Integer.parseInt` of the lexeme is recorded with the current address |
| Compilers.Compiler.LineEnd | src/de/theia/vm/Compiler.java:184-199 | has the verdict of `ParseLineEnd`: EOF ends the program and stays unread, a semicolon must be followed by a token other than EOF ("Program ends with semicolon"), anything else is "Expected 'SEMICOLON'" |
| Compilers.Compiler.Relocate | src/de/theia/vm/Compiler.java:203-207 | linking succeeds exactly when every site names a known line, and then fills every site with its line's address and leaves every other word alone; a missing line is a NullPointerException |
| Compilers.Compiler.ToArray | src/de/theia/vm/Compiler.java:213-217 | the array holds the instruction list word for word |
| Compilers.Compiler.Compile | src/de/theia/vm/Compiler.java:151-219 | the array is the code `Translate` gives for the tokens ahead, and is well-formed code of the language; an exception is one `Translate` names for those tokens: the syntax error of the reason `Translate` refuses them for, a NullPointerException for a missing line, or an OutOfMemoryError only when the stream does not fit (`Grammar.Fits`); when `Translate` compiles a stream that fits, `compile` returns that code |
| Verdicts.NoStatementRefused | src/de/theia/vm/Compiler.java:228-230 | a LOOP or WHILE program that starts with EOF is refused with "No statement provided" |
| Verdicts.LineNumberRequired | src/de/theia/vm/Compiler.java:162-166 | a GOTO program that starts with anything but a number is refused with "A GOTO statement needs a line number" |
| Verdicts.LoopOutsideLoop | src/de/theia/vm/Compiler.java:237-243 | a WHILE program that starts with `loop` is refused with "Illegal statement loop in lang" |
| Verdicts.WhileOutsideWhile | src/de/theia/vm/Compiler.java:247-253 | a LOOP program that starts with `while` is refused with "Illegal statement while in lang" |
| Verdicts.WhileNeedsNotEqual | src/de/theia/vm/Compiler.java:463-465 | `while x t ...` with any token `t` other than `!=` is refused with "operator must be 'not equal'" |
| Verdicts.WhileNeedsZero | src/de/theia/vm/Compiler.java:468-472 | `while x != n` with any lexeme `n` other than `0`, `00` included, is refused with "must test on not equal zero" |
| Verdicts.GotoNeedsEqualRefused | src/de/theia/vm/Compiler.java:399-405 | the GOTO line `n : if a <= b goto ...` is refused with "Must use 'equal zero' comparison for GOTO-IF" |
| Verdicts.DuplicateLine | src/de/theia/vm/Compiler.java:169-175 | `n : x := k ; m ...` where `m` reads as the same number is refused with "Line number 'n' already used" |
| Verdicts.TrailingSemicolonRefused | src/de/theia/vm/Compiler.java:190-198 | `n : x := k ;` followed by EOF is refused with "Program ends with semicolon" |
| Verdicts.LexerFailureRefused | src/de/theia/vm/Compiler.java:92-99 | a stream that the lexer ends with an exception is refused with that exception, in every language |
| Verdicts.AssignmentExpected | src/de/theia/vm/Compiler.java:70-83 | `x t` with `t` other than `:=` is refused with "Expected 'ASSIGN' but found 'T'", the `match` failure, T being the name of `t` |
| Verdicts.OperandRequired | src/de/theia/vm/Compiler.java:357-370 | `x := t` with `t` neither a variable nor a number is refused with "A binary expression needs to have the form: arg op arg" |
| Verdicts.MalformedNumberRefused | src/de/theia/vm/Compiler.java:518-522 | `x := k` with a number lexeme `k` that is not a Java `int` is refused with the NumberFormatException of `Integer.parseInt(k)` |
| Verdicts.PrefixedNumberMalformed | src/de/theia/vm/Compiler.java:518-522 | the lexeme `<12`, which the lexer hands out as a number, does not parse as a Java `int` |
| Verdicts.IllegalCompareRefused | src/de/theia/vm/Compiler.java:384-392 | `if a t` with `t` neither `=` nor `<=` is refused with "Illegal compare operator" |
| Verdicts.AddCompiled | src/de/theia/vm/Compiler.java:284-310 | `x := y + k` compiles to the one instruction ADD y k x, with y and x as registers and k as an immediate |
| Verdicts.TrailingTokensIgnored | src/de/theia/vm/Compiler.java:209-211 | in LOOP and WHILE programs the tokens after the last statement are never read: `x := y` followed by any token that continues nothing compiles to MOV y x alone |
| Verdicts.SelfLoopLinked | src/de/theia/vm/Compiler.java:202-207 | `n : if a = b goto n` compiles to IFEQ a b 0: the site holds the address of line n |
| Verdicts.MissingLineUnlinked | src/de/theia/vm/Compiler.java:204-206 | `n : if a = b goto m` with no line m cannot be linked (the NullPointerException of `labelMap.get`) |
| Lexers.Lexer.constructor | src/de/theia/vm/Lexer.java:71-73 | a new lexer has read nothing, buffered nothing and not reached the end |
| Lexers.Lexer.Read | src/de/theia/vm/Lexer.java:129-146 | `read` appends the lookahead to the lexeme unless nothing was read, takes the next character and counts it; past the end it throws IllegalStateException |
| Lexers.Lexer.Reset | src/de/theia/vm/Lexer.java:114-123 | `reset` empties the lexeme and the token, and reads the first character if none was read |
| Lexers.Lexer.ReadRun | src/de/theia/vm/Lexer.java:155-157 | a `while (class) read()` loop stops at the end of the run, and the lexeme grows by the characters passed |
| Lexers.Lexer.ReadRunFrom | src/de/theia/vm/Lexer.java:243-245 | a `do read while (class)` loop over a run leaves the text from the lexeme's start to the run's end in the lexeme |
| Lexers.Lexer.LexNumber | src/de/theia/vm/Lexer.java:263-269 | the number branch buffers NUM and stands past the digit run |
| Lexers.Lexer.LexKeyword | src/de/theia/vm/Lexer.java:242-260 | the keyword branch gives the table's token for the letter run, or the "Unkown keyword" error |
| Lexers.Lexer.VariableHead | src/de/theia/vm/Lexer.java:220-227 | the first two reads of a variable go past the x and the character after it, and check whether that character is a digit |
| Lexers.Lexer.LexVariable | src/de/theia/vm/Lexer.java:220-239 | the variable branch buffers VAR when a digit follows the x at once, or else raises "Variable expected but found" |
| Lexers.Lexer.LexWord | src/de/theia/vm/Lexer.java:219-276 | after the operator switch: variable, keyword, number or "Unkown character", as `Scanner.Word` says |
| Lexers.Lexer.Single | src/de/theia/vm/Lexer.java:176-199 | a one-character operator buffers its token and reads past it |
| Lexers.Lexer.Colon | src/de/theia/vm/Lexer.java:167-174 | `:=` is ASSIGN and a lone `:` is COLON |
| Lexers.Lexer.Comparison | src/de/theia/vm/Lexer.java:201-216 | `!=` is NEQ and `<=` is LTE; a `!` or `<` without `=` stays in the lexeme |
| Lexers.Lexer.Switch | src/de/theia/vm/Lexer.java:160-217 | the `switch` returns exactly the operator tokens, and otherwise leaves the lexer at the word checks |
| Lexers.Lexer.Skip | src/de/theia/vm/Lexer.java:152-158 | whitespace is skipped up to the first other character, and the lexeme and the token are cleared |
| Lexers.Lexer.Recognise | src/de/theia/vm/Lexer.java:158-276 | after the whitespace the outcome is `Scanner.TokenAt` of the text at the lookahead |
| Lexers.Lexer.Lex | src/de/theia/vm/Lexer.java:151-277 | one `lex()` call has the outcome `Scanner.Scan` of the text from the lookahead on; after the end it throws IllegalStateException |
| Lexers.Lexer.HasNext | src/de/theia/vm/Lexer.java:280-296 | `hasNext` is true for a buffered token and false after the end; otherwise it lexes one token and passes on a RecognitionException |
| Lexers.Lexer.Next | src/de/theia/vm/Lexer.java:298-307 | `next` hands out the buffered or newly lexed token and empties the buffer, and never reads backwards; past the end it throws IllegalStateException |
| Lexers.EndIsFinal | src/de/theia/vm/Lexer.java:298-307 | once `next` has returned EOF, the next call throws IllegalStateException |
| Scanner.Ch | src/de/theia/vm/Lexer.java:136 | the reader returns -1 exactly past the end of the text |
| Scanner.RunEnd | src/de/theia/vm/Lexer.java:155-157 | a run ends at the first character outside its class, or at the end of the text |
| Scanner.LineAtCounts | src/de/theia/vm/Lexer.java:138-141 | the line counter is the number of line breaks read |
| Scanner.PosAtCounts | src/de/theia/vm/Lexer.java:138-145 | the column counter is the number of reads since the last line break |
| Scanner.LexemeNotEnd | src/de/theia/vm/Lexer.java:162-165 | EOF is produced only at the end of the input, never as a lexeme |
| Scanner.ScanAdvances | src/de/theia/vm/Lexer.java:151-277 | every token moves the lookahead forward and never past the end of the text |
| ScanFacts.KeywordSpelling | src/de/theia/vm/Lexer.java:24-34 | every keyword is a non-empty run of lower-case letters that does not start with x |
| ScanFacts.ScanSlice | src/de/theia/vm/Lexer.java:151-277 | only whitespace is skipped before a token, and the lexeme is exactly the text from there to the new lookahead |
| ScanFacts.ScanAtEnd | src/de/theia/vm/Lexer.java:155-165 | the EOF token comes exactly when nothing but whitespace is left |
| ScanFacts.WordKinds | src/de/theia/vm/Lexer.java:219-269 | the word checks give VAR exactly for an x followed by a digit and NUM exactly for a digit, each over the whole digit run after it |
| ScanFacts.ColonTokens | src/de/theia/vm/Lexer.java:167-174 | ASSIGN exactly for `:=`, COLON exactly for `:` without `=` |
| ScanFacts.ComparisonTokens | src/de/theia/vm/Lexer.java:181-216 | NEQ exactly for `!=`, LTE exactly for `<=`, EQU exactly for `=` |
| ScanFacts.SingleTokens | src/de/theia/vm/Lexer.java:176-199 | SEMICOLON, PLUS, MINUS and MULT exactly for their characters |
| ScanFacts.KeywordFromRun | src/de/theia/vm/Lexer.java:241-251 | a whole run of letters that is in the table is that keyword, and the lexer stands at the end of the run |
| ScanFacts.PrefixedLetters | src/de/theia/vm/Lexer.java:201-216 | a `!` or `<` read before a run of letters keeps the lexeme out of the table |
| ScanFacts.KeywordOnlyFromRun | src/de/theia/vm/Lexer.java:241-251 | every keyword token comes from a whole run of letters in the table with nothing read before it |
| ScanFacts.UnknownKeyword | src/de/theia/vm/Lexer.java:253-259 | a run of letters that is not a keyword is rejected, and the error selects exactly that run |
| ScanFacts.VariableTokens | src/de/theia/vm/Lexer.java:220-231 | a variable is an x or X followed at once by a digit, extended over every digit after it |
| ScanFacts.VariableError | src/de/theia/vm/Lexer.java:233-238 | an x without a digit right after it is an error, reported after the digit run that follows |
| ScanFacts.NumberTokens | src/de/theia/vm/Lexer.java:262-269 | a number is a maximal run of digits |
| ScanFacts.UnknownCharacter | src/de/theia/vm/Lexer.java:271-276 | any other character is rejected where it stands |
| ScanFacts.PrefixedNumber | src/de/theia/vm/Lexer.java:210-216 | a `<` before digits stays in the number's lexeme: `<12` lexes as NUM `<12` |
| PrettyPrint.FormatNumRegShape | src/de/theia/vm/PrettyPrint.java:16-24 | an operand prints with an `x` prefix exactly when bit 31 is set, followed by its low 31 bits |
| PrettyPrint.FormatEncoded | src/de/theia/vm/PrettyPrint.java:16-24 | the decompiler prints back what the compiler encoded: `x<n>` for register n, the value for an immediate |
| PrettyPrint.DecodeAt | src/de/theia/vm/PrettyPrint.java:42-121 | a word decodes as "unknown opcode" exactly when it is no opcode |
| PrettyPrint.TextSingleLine | src/de/theia/vm/PrettyPrint.java:42-121 | no instruction's text contains a line break |
| PrettyPrint.LayoutDefined | src/de/theia/vm/PrettyPrint.java:37-126 | the instruction walk succeeds exactly when the code decodes into whole instructions |
| PrettyPrint.ListingDefined | src/de/theia/vm/PrettyPrint.java:32-129 | `print` fails (reads past the array) exactly on code that does not decode into whole instructions |
| PrettyPrint.ListingLines | src/de/theia/vm/PrettyPrint.java:32-129 | a listing has the header line and one line per instruction |
| PrettyPrint.FormatInstruction | src/de/theia/vm/PrettyPrint.java:39-125 | the line built for the instruction at `i` is its listing line |
| PrettyPrint.Print | src/de/theia/vm/PrettyPrint.java:32-129 | the loop builds exactly the listing, or fails exactly where the listing is undefined |
| Registers.SortedKeysSpec | src/de/theia/vm/Register.java:37-42 | the key array is ascending and holds exactly the set registers, each once |
| Registers.AscendingUnique | src/de/theia/vm/Register.java:37-42 | two ascending arrays with the same elements are equal, so the sorted key array is unique |
| Registers.Register.constructor | src/de/theia/vm/Register.java:30-32 | a new store has no register set |
| Registers.Register.UpdateKeyList | src/de/theia/vm/Register.java:37-42 | rebuilding the key array leaves the store alone and makes the array current |
| Registers.Register.Clear | src/de/theia/vm/Register.java:55-59 | `clear` forgets every register and empties the key array |
| Registers.Register.SetValue | src/de/theia/vm/Register.java:80-83 | `setValue` stores one value and keeps the key array current |
| Registers.Register.GetValue | src/de/theia/vm/Register.java:67-72 | `getValue` returns the stored value; a register read before it was set is set to 0 first |
| Registers.Register.RowCount | src/de/theia/vm/Register.java:98-100 | the table has one row per set register |
| Registers.Register.GetValueAt | src/de/theia/vm/Register.java:108-118 | row r shows the r-th smallest register's name in column 0 and its value in the other columns; no cell past the last row |
| Registers.Register.IsCellEditable | src/de/theia/vm/Register.java:130-132 | only the value column is editable |
| Registers.Register.SetValueAt | src/de/theia/vm/Register.java:135-141 | editing row r stores the parsed value in that row's register, or 0 when the text does not parse |
| Registers.RowsAreRegisters | src/de/theia/vm/Register.java:37-42 | every row is a set register, and every set register has a row |
| Registers.KeysDetermined | src/de/theia/vm/Register.java:37-42 | the key array is determined by the store |
| Registers.SetThenGet | src/de/theia/vm/Register.java:67-83 | after `setValue(r, v)`, `getValue(r)` returns v |
| Registers.ClearEmpties | src/de/theia/vm/Register.java:55-100 | after `clear` the table has no rows |

## Left out

- Compilers.Compiler.ConsumeStmt: like every `consume` method, it states the code of a successful parse but not what a failing one leaves in the instruction list and the site map. `compile()` throws at that point, so nothing reads them.
- Compilers.Compiler.ConsumeStmt: like every `consume` method, it states an OutOfMemoryError only as "the words in the list plus four per token ahead pass `Integer.MAX_VALUE` - 4", not at the exact word where the source would stop. Any other failure has exactly the reason of the `Parse` function.
- Compilers.Compiler.Compile: the message of a syntax error is `Grammar.Report` of the reason, built once from the compiler's `start` and `end`. In the source each `throw` builds its own message at that point.
- Compilers.Compiler.Compile: the span attached to a syntax error is not tied to a token by the contracts. They state the reason and that the span is the one in `start` and `end`, not which token those fields cover.
- Compilers.Compiler.Relocate: after a NullPointerException part of the sites may already be patched, in `HashMap` order. The contract says only that the program keeps its length.
- Compilers.Compiler.Compile: modelled for a fresh compiler, the only way the tool uses one. Calling `compile` twice on one object is not modelled.
- Compilers.Compiler.Compile: tokens after the last statement of a LOOP or WHILE program are not examined, in the model as in the source (`Verdicts.TrailingTokensIgnored`).
- Compilers.Compiler.Relocate: requires every recorded site to lie inside the program. `Compile` establishes this from the code layout.
- Compilers.Compiler.ConsumeIf, Compilers.Compiler.ConsumeStmt, Compilers.Compiler.ConsumeAssign, Compilers.Compiler.ConsumeWhile and the GOTO loop of `compile` are each split into several methods. Each part models consecutive lines of the source:
  - `ConsumeCondition` is lines 377-395 and `ConsumeGotoTarget` and `ConsumeBranches` are the two tails of `consumeIf`; `ConsumeElse` is lines 436-452, the else-half of `ConsumeBranches`;
  - `ConsumeOptAssign`, `ConsumeOptLoop`, `ConsumeOptWhile` and `ConsumeOptIf` are the four `if (test(...))` blocks of `consumeStmt`, grouped by `ConsumeStatements` and `ConsumeBlocks`;
  - `ConsumeExpr` is lines 280-297 of `consumeAssign`, and `ConsumeWhileHead` lines 458-472 of `consumeWhile`;
  - `ConsumeEnclosed` is `match(DO); consumeStmt(); match(END)` of `consumeLoop` and `consumeWhile`, and the same with ELSE in `consumeIf`; it requires one of those two opening tokens;
  - `CompileLines`, `CompileLine`, `LineLabel` and `LineEnd` are the loop of `compile()`.
  Single-word updates go through `Append`, `Patch`, `RecordSite` and `RecordLabel`. The calls and their order are the source's.
- Grammar: the `Parse` functions are the specification the `consume` methods are proved against. Their own contracts state only the shape of what they parse and which statements the language allows. What they accept and reject is stated through `Translate` in `Verdicts`, program by program.
- Compilers.Compiler.ConsumeStmt: the recursion depth is unbounded in the model. In the source `consumeStmt` calls itself once per `;` of a LOOP or WHILE program, and once more per nesting level of `loop`, `while` and `if`, so a long enough program throws StackOverflowError on the JVM. `Compile` and `CompileText` promise the code for such a program instead.
- Compilers.Compiler.Append: `program.add` can fail only for lack of memory. The model fails with `OutOfMemory` when the list would pass `Integer.MAX_VALUE` words. No smaller heap limit is modelled.
- Compilers.Compiler.ConsumeAssign: the "Unkown operator" branch is kept. It is unreachable, because `test(PLUS, MINUS, MULT)` admits only `+`, `-` and `*`.
- Grammar.AsVarText: the `IndexOutOfBounds` case of `substring(1)` is kept, though the lexer never produces an empty VAR lexeme.
- The debug `System.out.println` in `match` is left out. So is the `System.err.println` of an `IOException` in `hasNext`: reading from a string cannot throw one.
- Lexers.Lexer.constructor: requires a text without the character U+0000. The source uses the lookahead 0 to mean that nothing has been read, so such a character would be misread.
- `Character.isWhitespace`, `isLetter` and `isDigit` are modelled by their ASCII cases. Non-ASCII letters, digits and spaces, and surrogate pairs, are not modelled.
- Numerals.ParseInt: accepts ASCII digits only. `Integer.parseInt` also accepts the other Unicode decimal digits, such as Arabic-Indic ones.
- The lexer's `line`, `pos` and `abs` counters are unbounded integers. A program longer than `Integer.MAX_VALUE` characters is not modelled.
- The lexer's getters `getLexeme`, `getLine`, `getPos` and `getAbs` are plain field reads of the model.
- Registers.Register.constructor: the key array starts empty where the source leaves it null until the first update. `getValueAt` before any update therefore fails in the source and not in the model.
- `Register`'s table plumbing is out: `getColumnName` reads a resource bundle, `fireTableDataChanged` notifies Swing, `getColumnCount` and `getColumnClass` are constants, and `getInstance` is a singleton accessor.
- The register machine that runs the bytecode, the GUI and the keyword highlighter are not part of this model.
- PrettyPrint.Print: `String.format` is modelled only for the `%3d` and `%d` patterns the decompiler uses. "Fails" stands for the `ArrayIndexOutOfBoundsException` of `bytecode[++i]` past the end.
