/**
 * What `compile()` makes of particular token streams, stated on `Translate`
 * and therefore on the result of `Compiler.Compile`: the exceptions the
 * recursive descent throws for malformed programs, the code of a few
 * well-formed ones, and the tokens it leaves unread. Lexemes the grammar
 * does not inspect are arbitrary.
 */
module Verdicts {
  import opened Numerals
  import opened Tokens
  import opened Bytecode
  import opened Codegen
  import opened Scanner
  import opened Grammar

  /** A program of one line: its statements, its number, and its label at address 0. */
  lemma OneLine(x: Line)
    ensures Flatten([x]) == x.body && Numbers([x]) == {x.number}
    ensures SizeAll(x.body) <= INT_MAX ==> Labels([x]) == map[x.number := 0]
  {
    LinesAppend([], x);
    assert [] + [x] == [x];
  }

  /** Empty parts leave a statement sequence as it is. */
  lemma EmptyParts(ss: seq<Stmt>)
    ensures ss + [] == ss && [] + ss == ss
    ensures ss + [] + [] == ss && [] + [] + ss == ss
  {
  }

  /** The label `n :` of a first GOTO line. */
  lemma FirstLabel(n: string, c: string, rest: Stream)
    requires ParseInt(n).Some?
    ensures ParseLabel(More(Item(NUM, n), More(Item(COLON, c), rest)), {}) == Parsed(ParseInt(n).value, rest)
  {
    assert Expect(More(Item(COLON, c), rest), COLON) == Parsed(c, rest);
  }

  /** An assignment `x := k` followed by a token that continues no expression and starts no statement. */
  lemma MoveOnly(x: string, e: string, k: Item, t: Token, text: string, rest: Stream, language: Language)
    requires AsVarText(x).Ok? && k.token in {VAR, NUM}
    requires ParseArgument(More(k, More(Item(t, text), rest))).Parsed?
    requires t !in [PLUS, MINUS, MULT, LOOP, WHILE, IF]
    ensures var after := More(Item(t, text), rest);
      ParseStatements(More(Item(VAR, x), More(Item(ASSIGN, e), More(k, after))), language)
        == Parsed([Move(ParseArgument(More(k, after)).value, AsVarText(x).value)], after)
  {
    var after := More(Item(t, text), rest);
    var s2 := More(k, after);
    var s0 := More(Item(VAR, x), More(Item(ASSIGN, e), s2));
    var m := Move(ParseArgument(s2).value, AsVarText(x).value);
    assert Expect(s0, VAR) == Parsed(x, s0.later);
    assert Expect(s0.later, ASSIGN) == Parsed(e, s2);
    assert ParseArgument(s2) == Parsed(m.src, after);
    assert ParseExpr(s2, m.dst) == Parsed(m, after);
    assert ParseAssign(s0) == Parsed(m, after);
    LoneAssign(s0, language);
  }

  /** A statement sequence that starts with an assignment and has nothing after it that starts a statement is that assignment. */
  lemma LoneAssign(st: Stream, language: Language)
    requires st.More? && st.item.token == VAR && ParseAssign(st).Parsed?
    requires ParseAssign(st).rest.More? && ParseAssign(st).rest.item.token !in [LOOP, WHILE, IF]
    ensures ParseStatements(st, language) == Parsed([ParseAssign(st).value], ParseAssign(st).rest)
  {
    var p := ParseAssign(st);
    var after := p.rest;
    assert ParseOptAssign(st) == Parsed([p.value], after);
    assert ParseOptLoop(after, language) == Parsed([], after);
    assert ParseOptWhile(after, language) == Parsed([], after);
    assert ParseOptIf(after, language) == Parsed([], after);
    EmptyParts([p.value]);
    assert ParseBlocks(after, language) == Parsed([], after);
  }

  /** The condition `if a cmp b` with two registers, where the comparison token is EQU or LTE. */
  lemma RegisterCondition(i: string, a: string, op: Item, b: string, rest: Stream)
    requires AsVarText(a).Ok? && AsVarText(b).Ok? && op.token in {EQU, LTE}
    ensures ParseCondition(More(Item(IF, i), More(Item(VAR, a), More(op, More(Item(VAR, b), rest)))))
      == Parsed(Condition(AsVarText(a).value, if op.token == EQU then Equal else AtMost, AsVarText(b).value), rest)
  {
    var s1 := More(Item(VAR, a), More(op, More(Item(VAR, b), rest)));
    assert Expect(More(Item(IF, i), s1), IF) == Parsed(i, s1);
    assert ParseArgument(s1) == Parsed(AsVarText(a).value, s1.later);
    assert ParseArgument(More(Item(VAR, b), rest)) == Parsed(AsVarText(b).value, rest);
  }

  /** A statement sequence that starts with `if` is that one `if`, when it is all the GOTO line holds. */
  lemma LoneIf(st: Stream)
    requires st.More? && st.item.token == IF
    requires ParseIf(st, GotoLang).Parsed?
    requires ParseIf(st, GotoLang).rest.More? && ParseIf(st, GotoLang).rest.item.token == EOF
    ensures ParseStmt(st, GotoLang) == Parsed([ParseIf(st, GotoLang).value], ParseIf(st, GotoLang).rest)
  {
    var p := ParseIf(st, GotoLang);
    assert ParseOptAssign(st) == Parsed([], st);
    assert ParseOptLoop(st, GotoLang) == Parsed([], st);
    assert ParseOptWhile(st, GotoLang) == Parsed([], st);
    assert ParseOptIf(st, GotoLang) == Parsed([p.value], p.rest);
    EmptyParts([p.value]);
    assert ParseBlocks(st, GotoLang) == Parsed([p.value], p.rest);
    assert ParseStatements(st, GotoLang) == Parsed([p.value], p.rest);
  }

  // ----- exceptions -----

  /** An empty LOOP or WHILE program, or one that starts with EOF, has "No statement provided". */
  lemma NoStatementRefused(text: string, tail: Stream, language: Language)
    requires language != GotoLang
    ensures Translate(More(Item(EOF, text), tail), language) == Refused(NoStatement)
  {
  }

  /** A GOTO program must start with a line number. */
  lemma LineNumberRequired(t: Token, text: string, tail: Stream)
    requires t != NUM
    ensures Translate(More(Item(t, text), tail), GotoLang) == Refused(NeedsLineNumber)
  {
  }

  /** `loop` is a statement of LOOP programs only. */
  lemma LoopOutsideLoop(text: string, tail: Stream)
    ensures Translate(More(Item(LOOP, text), tail), WhileLang) == Refused(IllegalLoop(WhileLang))
  {
    var st := More(Item(LOOP, text), tail);
    assert ParseOptAssign(st) == Parsed([], st);
    assert ParseOptLoop(st, WhileLang) == Failed(IllegalLoop(WhileLang));
    assert ParseStatements(st, WhileLang) == Failed(IllegalLoop(WhileLang));
  }

  /** `while` is a statement of WHILE programs only. */
  lemma WhileOutsideWhile(text: string, tail: Stream)
    ensures Translate(More(Item(WHILE, text), tail), LoopLang) == Refused(IllegalWhile(LoopLang))
  {
    var st := More(Item(WHILE, text), tail);
    assert ParseOptAssign(st) == Parsed([], st);
    assert ParseOptLoop(st, LoopLang) == Parsed([], st);
    assert ParseOptWhile(st, LoopLang) == Failed(IllegalWhile(LoopLang));
    assert ParseBlocks(st, LoopLang) == Failed(IllegalWhile(LoopLang));
    assert ParseStatements(st, LoopLang) == Failed(IllegalWhile(LoopLang));
  }

  /** The condition of a `while` must use `!=`: `while x t ...` with another token `t` is refused. */
  lemma WhileNeedsNotEqual(w: string, x: string, t: Token, text: string, tail: Stream)
    requires t != NEQ
    ensures Translate(More(Item(WHILE, w), More(Item(VAR, x), More(Item(t, text), tail))), WhileLang) == Refused(WhileOperator)
  {
    var s1 := More(Item(VAR, x), More(Item(t, text), tail));
    var st := More(Item(WHILE, w), s1);
    assert Expect(st, WHILE) == Parsed(w, s1);
    assert Expect(s1, VAR) == Parsed(x, s1.later);
    assert ParseWhileHead(st) == Failed(WhileOperator);
    assert ParseWhile(st, WhileLang) == Failed(WhileOperator);
    assert ParseOptAssign(st) == Parsed([], st);
    assert ParseOptLoop(st, WhileLang) == Parsed([], st);
    assert ParseOptWhile(st, WhileLang) == Failed(WhileOperator);
    assert ParseBlocks(st, WhileLang) == Failed(WhileOperator);
    assert ParseStatements(st, WhileLang) == Failed(WhileOperator);
  }

  /** The condition of a `while` must compare with the lexeme `0`: `while x != n` with another lexeme `n`, even `00`, is refused. */
  lemma WhileNeedsZero(w: string, x: string, ne: string, n: string, tail: Stream)
    requires n != "0"
    ensures Translate(More(Item(WHILE, w), More(Item(VAR, x), More(Item(NEQ, ne), More(Item(NUM, n), tail)))), WhileLang)
      == Refused(WhileZero)
  {
    var s3 := More(Item(NUM, n), tail);
    var s1 := More(Item(VAR, x), More(Item(NEQ, ne), s3));
    var st := More(Item(WHILE, w), s1);
    assert Expect(st, WHILE) == Parsed(w, s1);
    assert Expect(s1, VAR) == Parsed(x, s1.later);
    assert Expect(s3, NUM) == Parsed(n, tail);
    assert ParseWhileHead(st) == Failed(WhileZero);
    assert ParseWhile(st, WhileLang) == Failed(WhileZero);
    assert ParseOptAssign(st) == Parsed([], st);
    assert ParseOptLoop(st, WhileLang) == Parsed([], st);
    assert ParseOptWhile(st, WhileLang) == Failed(WhileZero);
    assert ParseBlocks(st, WhileLang) == Failed(WhileZero);
    assert ParseStatements(st, WhileLang) == Failed(WhileZero);
  }

  /** A GOTO-IF must compare with `=`: `n : if a <= b goto ...` is refused. */
  lemma GotoNeedsEqualRefused(n: string, c: string, i: string, a: string, le: string, b: string, g: string, tail: Stream)
    requires ParseInt(n).Some? && AsVarText(a).Ok? && AsVarText(b).Ok?
    ensures Translate(More(Item(NUM, n), More(Item(COLON, c),
        More(Item(IF, i), More(Item(VAR, a), More(Item(LTE, le), More(Item(VAR, b), More(Item(GOTO, g), tail))))))), GotoLang)
      == Refused(GotoNeedsEqual)
  {
    var s6 := More(Item(GOTO, g), tail);
    var s2 := More(Item(IF, i), More(Item(VAR, a), More(Item(LTE, le), More(Item(VAR, b), s6))));
    var st := More(Item(NUM, n), More(Item(COLON, c), s2));
    FirstLabel(n, c, s2);
    RegisterCondition(i, a, Item(LTE, le), b, s6);
    assert ParseIf(s2, GotoLang) == Failed(GotoNeedsEqual);
    assert ParseOptAssign(s2) == Parsed([], s2);
    assert ParseOptLoop(s2, GotoLang) == Parsed([], s2);
    assert ParseOptWhile(s2, GotoLang) == Parsed([], s2);
    assert ParseOptIf(s2, GotoLang) == Failed(GotoNeedsEqual);
    assert ParseBlocks(s2, GotoLang) == Failed(GotoNeedsEqual);
    assert ParseStatements(s2, GotoLang) == Failed(GotoNeedsEqual);
    assert ParseLine(st, {}) == Failed(GotoNeedsEqual);
    assert ParseLines(st, []) == Failed(GotoNeedsEqual);
  }

  /** A line number used twice is refused at its second use: `n : x := k ; m ...` where `m` reads as `n`. */
  lemma DuplicateLine(n: string, c: string, x: string, e: string, k: string, s: string, m: string, tail: Stream)
    requires ParseInt(n).Some? && ParseInt(m) == ParseInt(n) && AsVarText(x).Ok? && AsNumText(k).Ok?
    ensures Translate(More(Item(NUM, n), More(Item(COLON, c),
        More(Item(VAR, x), More(Item(ASSIGN, e), More(Item(NUM, k), More(Item(SEMICOLON, s), More(Item(NUM, m), tail))))))), GotoLang)
      == Refused(LineUsed(ParseInt(n).value))
  {
    var v := ParseInt(n).value;
    var s6 := More(Item(NUM, m), tail);
    var s5 := More(Item(SEMICOLON, s), s6);
    var s2 := More(Item(VAR, x), More(Item(ASSIGN, e), More(Item(NUM, k), s5)));
    var st := More(Item(NUM, n), More(Item(COLON, c), s2));
    var line := Line(v, [Move(AsNumText(k).value, AsVarText(x).value)]);
    FirstLabel(n, c, s2);
    MoveOnly(x, e, Item(NUM, k), SEMICOLON, s, s6, GotoLang);
    assert ParseStmt(s2, GotoLang) == Parsed(line.body, s5);
    assert ParseLine(st, {}) == Parsed(line, s5);
    assert Expect(s5, SEMICOLON) == Parsed(s, s6);
    assert ParseLineEnd(s5) == Parsed(true, s6);
    OneLine(line);
    assert [] + [line] == [line];
    assert ParseLabel(s6, {v}) == Failed(LineUsed(v));
    assert ParseLines(s6, [line]) == Failed(LineUsed(v));
    assert ParseLines(st, []) == Failed(LineUsed(v));
  }

  /** A GOTO program may not end with a semicolon: `n : x := k ; EOF` is refused. */
  lemma TrailingSemicolonRefused(n: string, c: string, x: string, e: string, k: string, s: string, eof: string, tail: Stream)
    requires ParseInt(n).Some? && AsVarText(x).Ok? && AsNumText(k).Ok?
    ensures Translate(More(Item(NUM, n), More(Item(COLON, c),
        More(Item(VAR, x), More(Item(ASSIGN, e), More(Item(NUM, k), More(Item(SEMICOLON, s), More(Item(EOF, eof), tail))))))), GotoLang)
      == Refused(TrailingSemicolon)
  {
    var v := ParseInt(n).value;
    var s6 := More(Item(EOF, eof), tail);
    var s5 := More(Item(SEMICOLON, s), s6);
    var s2 := More(Item(VAR, x), More(Item(ASSIGN, e), More(Item(NUM, k), s5)));
    var st := More(Item(NUM, n), More(Item(COLON, c), s2));
    var line := Line(v, [Move(AsNumText(k).value, AsVarText(x).value)]);
    FirstLabel(n, c, s2);
    MoveOnly(x, e, Item(NUM, k), SEMICOLON, s, s6, GotoLang);
    assert ParseStmt(s2, GotoLang) == Parsed(line.body, s5);
    assert ParseLine(st, {}) == Parsed(line, s5);
    assert Expect(s5, SEMICOLON) == Parsed(s, s6);
    assert ParseLineEnd(s5) == Failed(TrailingSemicolon);
    assert ParseLines(st, []) == Failed(TrailingSemicolon);
  }

  /** A lexer exception ends the token stream; `compile()` throws it at the first token it fetches. */
  lemma LexerFailureRefused(f: Raised, language: Language)
    ensures Translate(Stop(f), language) == Refused(Thrown(f))
  {
  }

  /** A variable at the start of a statement must be assigned: `x t ...` with `t` other than `:=` is refused. */
  lemma AssignmentExpected(x: string, t: Token, text: string, tail: Stream, language: Language)
    requires language != GotoLang && AsVarText(x).Ok? && t != ASSIGN
    ensures Translate(More(Item(VAR, x), More(Item(t, text), tail)), language) == Refused(Expected(ASSIGN, t))
  {
    var st := More(Item(VAR, x), More(Item(t, text), tail));
    assert Expect(st, VAR) == Parsed(x, st.later);
    assert Expect(st.later, ASSIGN) == Failed(Expected(ASSIGN, t));
    assert ParseAssign(st) == Failed(Expected(ASSIGN, t));
    assert ParseOptAssign(st) == Failed(Expected(ASSIGN, t));
    assert ParseStatements(st, language) == Failed(Expected(ASSIGN, t));
  }

  /** The right-hand side of an assignment starts with an operand: `x := t ...` with `t` neither a variable nor a number is refused. */
  lemma OperandRequired(x: string, e: string, t: Token, text: string, tail: Stream, language: Language)
    requires language != GotoLang && AsVarText(x).Ok? && t != VAR && t != NUM
    ensures Translate(More(Item(VAR, x), More(Item(ASSIGN, e), More(Item(t, text), tail))), language) == Refused(NotArgument)
  {
    var s2 := More(Item(t, text), tail);
    var st := More(Item(VAR, x), More(Item(ASSIGN, e), s2));
    assert Expect(st, VAR) == Parsed(x, st.later);
    assert Expect(st.later, ASSIGN) == Parsed(e, s2);
    assert ParseArgument(s2) == Failed(NotArgument);
    assert ParseAssign(st) == Failed(NotArgument);
    assert ParseOptAssign(st) == Failed(NotArgument);
    assert ParseStatements(st, language) == Failed(NotArgument);
  }

  /**
   * An operand that is not a Java `int` is a NumberFormatException:
   * `x := k ...` with a number lexeme `k` that does not parse, such as the
   * `<12` the lexer hands out for `<` before digits (`ScanFacts.PrefixedNumber`).
   */
  lemma MalformedNumberRefused(x: string, e: string, k: string, tail: Stream, language: Language)
    requires language != GotoLang && AsVarText(x).Ok? && ParseInt(k).None?
    ensures Translate(More(Item(VAR, x), More(Item(ASSIGN, e), More(Item(NUM, k), tail))), language)
      == Refused(Thrown(NumberFormat(k)))
  {
    var s2 := More(Item(NUM, k), tail);
    var st := More(Item(VAR, x), More(Item(ASSIGN, e), s2));
    MalformedOperand('x', k);
    assert Expect(st, VAR) == Parsed(x, st.later);
    assert Expect(st.later, ASSIGN) == Parsed(e, s2);
    assert ParseArgument(s2) == Failed(Thrown(NumberFormat(k)));
    assert ParseAssign(st) == Failed(Thrown(NumberFormat(k)));
    assert ParseOptAssign(st) == Failed(Thrown(NumberFormat(k)));
    assert ParseStatements(st, language) == Failed(Thrown(NumberFormat(k)));
  }

  /** The lexeme `<12` is not a Java `int`. */
  lemma PrefixedNumberMalformed()
    ensures ParseInt("<12").None?
  {
    assert !IsDigit("<12"[0]);
  }

  /** The condition of an `if` compares with `=` or `<=`: `if a t ...` with another token `t` is refused. */
  lemma IllegalCompareRefused(i: string, a: string, t: Token, text: string, tail: Stream, language: Language)
    requires language != GotoLang && AsVarText(a).Ok? && t != EQU && t != LTE
    ensures Translate(More(Item(IF, i), More(Item(VAR, a), More(Item(t, text), tail))), language) == Refused(IllegalCompare)
  {
    var s1 := More(Item(VAR, a), More(Item(t, text), tail));
    var st := More(Item(IF, i), s1);
    assert Expect(st, IF) == Parsed(i, s1);
    assert ParseArgument(s1) == Parsed(AsVarText(a).value, s1.later);
    assert ParseCondition(st) == Failed(IllegalCompare);
    assert ParseIf(st, language) == Failed(IllegalCompare);
    assert ParseOptAssign(st) == Parsed([], st);
    assert ParseOptLoop(st, language) == Parsed([], st);
    assert ParseOptWhile(st, language) == Parsed([], st);
    assert ParseOptIf(st, language) == Failed(IllegalCompare);
    assert ParseBlocks(st, language) == Failed(IllegalCompare);
    assert ParseStatements(st, language) == Failed(IllegalCompare);
  }

  // ----- code -----

  /** `x := y + k` compiles to the one ADD instruction on its three operands. */
  lemma AddCompiled(x: string, e: string, y: string, k: string, eof: string, tail: Stream, language: Language)
    requires language != GotoLang && AsVarText(x).Ok? && AsVarText(y).Ok? && AsNumText(k).Ok?
    ensures Translate(More(Item(VAR, x), More(Item(ASSIGN, e),
        More(Item(VAR, y), More(Item(PLUS, "+"), More(Item(NUM, k), More(Item(EOF, eof), tail)))))), language)
      == Compiled([ArithOpcode(Plus) as int, AsVarText(y).value as int, AsNumText(k).value as int, AsVarText(x).value as int])
  {
    var s5 := More(Item(EOF, eof), tail);
    var s4 := More(Item(NUM, k), s5);
    var s2 := More(Item(VAR, y), More(Item(PLUS, "+"), s4));
    var st := More(Item(VAR, x), More(Item(ASSIGN, e), s2));
    var add := Arith(Plus, AsVarText(y).value, AsNumText(k).value, AsVarText(x).value);
    assert Expect(st, VAR) == Parsed(x, st.later);
    assert Expect(st.later, ASSIGN) == Parsed(e, s2);
    assert ParseArgument(s2) == Parsed(add.a1, s2.later);
    assert ParseArgument(s4) == Parsed(add.a2, s5);
    assert ParseExpr(s2, add.dst) == Parsed(add, s5);
    assert ParseAssign(st) == Parsed(add, s5);
    LoneAssign(st, language);
    Single(add, 0);
  }

  /**
   * Tokens after the last statement of a LOOP or WHILE program are never
   * read: `x := y t ...` compiles like `x := y` for any token `t` that
   * continues no expression and starts no statement, `end` for one.
   */
  lemma TrailingTokensIgnored(x: string, e: string, y: string, t: Token, text: string, tail: Stream, language: Language)
    requires language != GotoLang && AsVarText(x).Ok? && AsVarText(y).Ok?
    requires t !in [PLUS, MINUS, MULT, SEMICOLON, LOOP, WHILE, IF]
    ensures Translate(More(Item(VAR, x), More(Item(ASSIGN, e), More(Item(VAR, y), More(Item(t, text), tail)))), language)
      == Compiled([MOV as int, AsVarText(y).value as int, AsVarText(x).value as int])
  {
    var after := More(Item(t, text), tail);
    var mov := Move(AsVarText(y).value, AsVarText(x).value);
    assert ParseArgument(More(Item(VAR, y), after)) == Parsed(mov.src, after);
    MoveOnly(x, e, Item(VAR, y), t, text, tail, language);
    Single(mov, 0);
  }

  /** `n : if a = b goto m EOF`, where `m` reads as `n`, jumps to its own line, address 0, once linked. */
  lemma SelfLoopLinked(n: string, c: string, i: string, a: string, eq: string, b: string, g: string, m: string, eof: string, tail: Stream)
    requires ParseInt(n).Some? && ParseInt(m) == ParseInt(n) && AsVarText(a).Ok? && AsVarText(b).Ok?
    ensures Translate(More(Item(NUM, n), More(Item(COLON, c), More(Item(IF, i), More(Item(VAR, a), More(Item(EQU, eq),
        More(Item(VAR, b), More(Item(GOTO, g), More(Item(NUM, m), More(Item(EOF, eof), tail))))))))), GotoLang)
      == Compiled([IFEQ as int, AsVarText(a).value as int, AsVarText(b).value as int, 0])
  {
    var line := GotoLine(n, c, i, a, eq, b, g, m, eof, tail);
    var labels := map[ParseInt(n).value := 0 as int32];
    var sites := map[3 := ParseInt(n).value];
    assert Linked(sites, labels);
    var linked := Resolve(EmitAll(line.body, 0), sites, labels);
    assert linked[3] == 0;
    assert linked == [IFEQ as int, AsVarText(a).value as int, AsVarText(b).value as int, 0];
  }

  /** `n : if a = b goto m EOF`, where `m` reads as another line number, cannot be linked. */
  lemma MissingLineUnlinked(n: string, c: string, i: string, a: string, eq: string, b: string, g: string, m: string, eof: string, tail: Stream)
    requires ParseInt(n).Some? && ParseInt(m).Some? && ParseInt(m) != ParseInt(n) && AsVarText(a).Ok? && AsVarText(b).Ok?
    ensures Translate(More(Item(NUM, n), More(Item(COLON, c), More(Item(IF, i), More(Item(VAR, a), More(Item(EQU, eq),
        More(Item(VAR, b), More(Item(GOTO, g), More(Item(NUM, m), More(Item(EOF, eof), tail))))))))), GotoLang)
      == Unlinked
  {
    var line := GotoLine(n, c, i, a, eq, b, g, m, eof, tail);
    assert RelocationsAll(line.body, 0)[3] !in Labels([line]);
  }

  /** The one line `n : if a = b goto m EOF`, as `ParseLines` reads it. */
  lemma GotoLine(n: string, c: string, i: string, a: string, eq: string, b: string, g: string, m: string, eof: string, tail: Stream)
      returns (line: Line)
    requires ParseInt(n).Some? && ParseInt(m).Some? && AsVarText(a).Ok? && AsVarText(b).Ok?
    ensures line == Line(ParseInt(n).value, [IfGoto(AsVarText(a).value, AsVarText(b).value, ParseInt(m).value)])
    ensures var s8 := More(Item(EOF, eof), tail);
      ParseLines(More(Item(NUM, n), More(Item(COLON, c), More(Item(IF, i), More(Item(VAR, a), More(Item(EQU, eq),
        More(Item(VAR, b), More(Item(GOTO, g), More(Item(NUM, m), s8)))))))), []) == Parsed([line], s8)
    ensures Flatten([line]) == line.body && SizeAll(line.body) == 4
    ensures Labels([line]) == map[ParseInt(n).value := 0]
    ensures RelocationsAll(line.body, 0) == map[3 := ParseInt(m).value]
    ensures EmitAll(line.body, 0) == [IFEQ as int, AsVarText(a).value as int, AsVarText(b).value as int, -1]
  {
    var s8 := More(Item(EOF, eof), tail);
    var s6 := More(Item(GOTO, g), More(Item(NUM, m), s8));
    var s2 := More(Item(IF, i), More(Item(VAR, a), More(Item(EQU, eq), More(Item(VAR, b), s6))));
    var st := More(Item(NUM, n), More(Item(COLON, c), s2));
    var jump := IfGoto(AsVarText(a).value, AsVarText(b).value, ParseInt(m).value);
    line := Line(ParseInt(n).value, [jump]);
    FirstLabel(n, c, s2);
    RegisterCondition(i, a, Item(EQU, eq), b, s6);
    assert Expect(s6, GOTO) == Parsed(g, s6.later);
    assert Expect(s6.later, NUM) == Parsed(m, s8);
    assert ParseGotoTarget(s6, jump.a1, jump.a2) == Parsed(jump, s8);
    assert ParseIf(s2, GotoLang) == Parsed(jump, s8);
    LoneIf(s2);
    assert ParseLine(st, {}) == Parsed(line, s8);
    assert ParseLineEnd(s8) == Parsed(false, s8);
    assert [] + [line] == [line];
    Single(jump, 0);
    OneLine(line);
  }
}
