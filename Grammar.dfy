/**
 * The grammar the recursive descent of `Compiler` accepts, as functions over
 * the token stream the lexer hands out. Each function takes the same tokens
 * in the same order as the `consume` method it is named after, looks one
 * token ahead exactly where the method calls `test`, and fails for the same
 * reason at the same token. It returns what was parsed and the stream after
 * it, or the reason of the exception.
 *
 * `Translate` is the whole of `compile()` in these terms: the statements of
 * the program, for GOTO as numbered lines, laid out by `Codegen` and linked.
 */
module Grammar {
  import opened Results
  import opened Numerals
  import opened Recognition
  import opened Tokens
  import opened Bytecode
  import opened Codegen
  import opened Scanner

  // ----- operand encoding of lexemes -----

  /** `asVar`: the register index after the first character, tagged as a register. */
  function AsVarText(text: string): (r: Result<int32, Raised>)
    ensures r.Ok? ==> IsRegister(r.value)
  {
    if |text| == 0 then Err(IndexOutOfBounds)
    else match ParseInt(text[1..])
      case None => Err(NumberFormat(text[1..]))
      case Some(v) => Ok(AsVar(v))
  }

  /** `asNum`: the decimal value, tagged as an immediate. */
  function AsNumText(text: string): (r: Result<int32, Raised>)
    ensures r.Ok? ==> !IsRegister(r.value)
  {
    match ParseInt(text)
    case None => Err(NumberFormat(text))
    case Some(v) => Ok(AsNum(v))
  }

  /** A variable `x<n>` with `n` a Java `int` becomes the register operand of index `n`. */
  lemma VarRoundTrip(c: char, n: nat)
    requires n <= INT_MAX
    ensures AsVarText([c] + NatToString(n)).Ok?
    ensures Low31(AsVarText([c] + NatToString(n)).value) == n
  {
    NatToStringRoundTrip(n);
    NatToStringDigits(n);
    assert ([c] + NatToString(n))[1..] == NatToString(n);
  }

  /** A number `n` that is a Java `int` becomes the immediate operand `n`. */
  lemma NumRoundTrip(n: nat)
    requires n <= INT_MAX
    ensures AsNumText(NatToString(n)) == Ok(n)
  {
    NatToStringRoundTrip(n);
    NatToStringDigits(n);
  }

  /** Text that is not a Java `int` is a NumberFormatException, for either kind of operand. */
  lemma MalformedOperand(c: char, text: string)
    requires ParseInt(text).None?
    ensures AsNumText(text) == Err(NumberFormat(text))
    ensures AsVarText([c] + text) == Err(NumberFormat(text))
  {
    assert ([c] + text)[1..] == text;
  }

  // ----- why a parse fails -----

  /** The exceptions the compiler throws, before the span of the current token is attached. */
  datatype Reason =
    | Thrown(failure: Raised)        // from the lexer, `Integer.parseInt` or `substring`
    | Exhausted                      // the instruction list is full: an OutOfMemoryError
    | Expected(wanted: Token, found: Token)
    | NoStatement
    | IllegalLoop(language: Language)
    | IllegalWhile(language: Language)
    | NotArgument
    | UnknownOperator(op: string)
    | IllegalCompare
    | GotoNeedsEqual
    | WhileOperator
    | WhileZero
    | NeedsLineNumber
    | LineUsed(line: int32)
    | TrailingSemicolon

  /** The exception for `reason` when the span of the last fetched token is `start`..`end`. */
  function Report(reason: Reason, start: int, end: int): (f: Failure)
    ensures f.OutOfMemory? <==> reason == Exhausted
  {
    match reason
    case Thrown(f) => f
    case Exhausted => OutOfMemory
    case Expected(t, found) =>
      Recognized(Spanning("Expected '" + TokenName(t) + "' but found '" + TokenName(found) + "'", start, end))
    case NoStatement => Recognized(Spanning("No statement provided", start, end))
    case IllegalLoop(l) => Recognized(Spanning("Illegal statement loop in lang " + LanguageName(l), start, end))
    case IllegalWhile(l) => Recognized(Spanning("Illegal statement while in lang " + LanguageName(l), start, end))
    case NotArgument => Recognized(Spanning("A binary expression needs to have the form: arg op arg", start, end))
    case UnknownOperator(op) => Recognized(MessageOnly("Unkown operator '" + op + "'"))
    case IllegalCompare => Recognized(Spanning("Illegal compare operator", start, end))
    case GotoNeedsEqual => Recognized(Spanning("Must use 'equal zero' comparison for GOTO-IF", start, end))
    case WhileOperator => Recognized(MessageOnly("While condition: operator must be 'not equal' (!=)"))
    case WhileZero => Recognized(MessageOnly("While condition: must test on not equal zero"))
    case NeedsLineNumber => Recognized(Spanning("A GOTO statement needs a line number", start, end))
    case LineUsed(n) => Recognized(Spanning("Line number '" + IntToString(n) + "' already used", start, end))
    case TrailingSemicolon => Recognized(Spanning("Program ends with semicolon, but this is not allowed", start, end))
  }

  /** What a parse produced and the stream after it, or why it failed. */
  datatype Parsing<T> = Parsed(value: T, rest: Stream) | Failed(reason: Reason)

  /**
   * A compiler method that returns a value has the verdict `p` of its
   * grammar function: the same value with the stream `rest` left, or the
   * same reason to throw.
   */
  predicate Yields<T(==)>(p: Parsing<T>, r: Result<T, Reason>, rest: Stream) {
    if r.Ok? then p == Parsed(r.value, rest) else p == Failed(r.error)
  }

  /**
   * A compiler method that appends code has the verdict `p` of its grammar
   * function: on success the same result `value` with the stream `rest`
   * left; otherwise the same reason to throw, unless it is running out of
   * memory. No statement emits more than four words per token it reads, so
   * that happens only when `budget`, the words already in the list plus
   * four for every token ahead, leaves no room for one more instruction.
   */
  predicate Agrees<T(==)>(p: Parsing<T>, r: Outcome<Reason>, value: T, rest: Stream, budget: int) {
    && (r.Pass? ==> p == Parsed(value, rest))
    && (r.Fail? && r.error != Exhausted ==> p == Failed(r.error))
    && (r.Fail? && r.error == Exhausted ==> budget > INT_MAX - 4)
  }

  /** The operands and the comparison of an `if`. */
  datatype Condition = Condition(a1: int32, cmp: Compare, a2: int32)

  /** A parse of one statement, as a parse of a sequence of one. */
  function One(p: Parsing<Stmt>): Parsing<seq<Stmt>> {
    match p
    case Parsed(s, rest) => Parsed([s], rest)
    case Failed(reason) => Failed(reason)
  }

  // ----- the statements -----

  /** `match(t)`: the lexeme of the next token if it is `t`. */
  function Expect(st: Stream, t: Token): (p: Parsing<string>)
    ensures p.Parsed? ==> p.rest.Count() < st.Count()
  {
    if st.Stop? then Failed(Thrown(st.failure))
    else if st.item.token == t then Parsed(st.item.text, st.later)
    else Failed(Expected(t, st.item.token))
  }

  /** `consumeExprArgument`: a variable or a number, encoded as an operand. */
  function ParseArgument(st: Stream): (p: Parsing<int32>)
    ensures p.Parsed? ==> p.rest.Count() < st.Count()
  {
    if st.Stop? then Failed(Thrown(st.failure))
    else if st.item.token == VAR then
      match AsVarText(st.item.text)
      case Err(e) => Failed(Thrown(e))
      case Ok(v) => Parsed(v, st.later)
    else if st.item.token == NUM then
      match AsNumText(st.item.text)
      case Err(e) => Failed(Thrown(e))
      case Ok(v) => Parsed(v, st.later)
    else Failed(NotArgument)
  }

  /** The `switch` of `consumeAssign` on the operator's lexeme. */
  function Operator(op: string): (f: Option<ArithOp>)
    ensures f.Some? <==> op in {"+", "-", "*"}
  {
    if op == "+" then Some(Plus)
    else if op == "-" then Some(Minus)
    else if op == "*" then Some(Times)
    else None
  }

  /** `consumeAssign`: `x := a`, or `x := a op b` when an operator follows the first argument. */
  function ParseAssign(st: Stream): (p: Parsing<Stmt>)
    ensures p.Parsed? ==> p.rest.Count() < st.Count() && (p.value.Move? || p.value.Arith?)
  {
    var name := Expect(st, VAR);
    if name.Failed? then Failed(name.reason)
    else match AsVarText(name.value)
      case Err(e) => Failed(Thrown(e))
      case Ok(dst) =>
        var assign := Expect(name.rest, ASSIGN);
        if assign.Failed? then Failed(assign.reason) else ParseExpr(assign.rest, dst)
  }

  /**
   * The right-hand side of `consumeAssign` into register `dst`: an operand,
   * and if `+`, `-` or `*` follows, that operator and a second operand.
   */
  function ParseExpr(st: Stream, dst: int32): (p: Parsing<Stmt>)
    ensures p.Parsed? ==> p.rest.Count() < st.Count() && (p.value.Move? || p.value.Arith?) && p.value.dst == dst
  {
    var a1 := ParseArgument(st);
    if a1.Failed? then Failed(a1.reason)
    else if a1.rest.Stop? then Failed(Thrown(a1.rest.failure))
    else if a1.rest.item.token !in [PLUS, MINUS, MULT] then Parsed(Move(a1.value, dst), a1.rest)
    else
      var op := a1.rest.item.text;
      match Operator(op)
      case None => Failed(UnknownOperator(op))
      case Some(f) =>
        var a2 := ParseArgument(a1.rest.later);
        if a2.Failed? then Failed(a2.reason) else Parsed(Arith(f, a1.value, a2.value, dst), a2.rest)
  }

  /**
   * `consumeStmt`: a statement must start here; then the statements of one
   * `ParseStatements`, and outside GOTO programs a semicolon and more.
   */
  function ParseStmt(st: Stream, language: Language): (p: Parsing<seq<Stmt>>)
    ensures p.Parsed? ==> p.rest.Count() <= st.Count() && AllowedAll(p.value, language)
    decreases st.Count(), 6
  {
    if st.Stop? then Failed(Thrown(st.failure))
    else if st.item.token == EOF then Failed(NoStatement)
    else
      var first := ParseStatements(st, language);
      if first.Failed? || language == GotoLang then first
      else if first.rest.Stop? then Failed(Thrown(first.rest.failure))
      else if first.rest.item.token != SEMICOLON then first
      else
        var more := ParseStmt(first.rest.later, language);
        if more.Failed? then more
        else
          AllowedAppend(first.value, more.value, language);
          Parsed(first.value + more.value, more.rest)
  }

  /**
   * The body of `consumeStmt`: an assignment if a variable comes, then a
   * `loop` if one comes (LOOP programs only), then `ParseBlocks`.
   */
  function ParseStatements(st: Stream, language: Language): (p: Parsing<seq<Stmt>>)
    ensures p.Parsed? ==> p.rest.Count() <= st.Count() && AllowedAll(p.value, language)
    decreases st.Count(), 5
  {
    var a := ParseOptAssign(st);
    if a.Failed? then a
    else
      var l := ParseOptLoop(a.rest, language);
      if l.Failed? then l
      else
        var b := ParseBlocks(l.rest, language);
        if b.Failed? then b
        else
          AllowedAppend(a.value, l.value, language);
          AllowedAppend(a.value + l.value, b.value, language);
          Parsed(a.value + l.value + b.value, b.rest)
  }

  /** The rest of `consumeStmt`'s body: a `while` if one comes, then an `if` if one comes. */
  function ParseBlocks(st: Stream, language: Language): (p: Parsing<seq<Stmt>>)
    ensures p.Parsed? ==> p.rest.Count() <= st.Count() && AllowedAll(p.value, language)
    decreases st.Count(), 4
  {
    var w := ParseOptWhile(st, language);
    if w.Failed? then w
    else
      var i := ParseOptIf(w.rest, language);
      if i.Failed? then i
      else
        AllowedAppend(w.value, i.value, language);
        Parsed(w.value + i.value, i.rest)
  }

  /** `if (test(VAR)) consumeAssign()`: an assignment if a variable comes, otherwise nothing. */
  function ParseOptAssign(st: Stream): (p: Parsing<seq<Stmt>>)
    ensures p.Parsed? ==> p.rest.Count() <= st.Count() && |p.value| <= 1
    ensures p.Parsed? ==> forall s <- p.value :: s.Move? || s.Arith?
  {
    if st.Stop? then Failed(Thrown(st.failure))
    else if st.item.token == VAR then One(ParseAssign(st))
    else Parsed([], st)
  }

  /** `if (test(LOOP))`: a `loop` if one comes, which only LOOP programs may have. */
  function ParseOptLoop(st: Stream, language: Language): (p: Parsing<seq<Stmt>>)
    ensures p.Parsed? ==> p.rest.Count() <= st.Count() && |p.value| <= 1 && AllowedAll(p.value, language)
    decreases st.Count(), 1
  {
    if st.Stop? then Failed(Thrown(st.failure))
    else if st.item.token != LOOP then Parsed([], st)
    else if language != LoopLang then Failed(IllegalLoop(language))
    else One(ParseLoop(st, language))
  }

  /** `if (test(WHILE))`: a `while` if one comes, which only WHILE programs may have. */
  function ParseOptWhile(st: Stream, language: Language): (p: Parsing<seq<Stmt>>)
    ensures p.Parsed? ==> p.rest.Count() <= st.Count() && |p.value| <= 1 && AllowedAll(p.value, language)
    decreases st.Count(), 1
  {
    if st.Stop? then Failed(Thrown(st.failure))
    else if st.item.token != WHILE then Parsed([], st)
    else if language != WhileLang then Failed(IllegalWhile(language))
    else One(ParseWhile(st, language))
  }

  /** `if (test(IF)) consumeIf()`: an `if` if one comes. */
  function ParseOptIf(st: Stream, language: Language): (p: Parsing<seq<Stmt>>)
    ensures p.Parsed? ==> p.rest.Count() <= st.Count() && |p.value| <= 1 && AllowedAll(p.value, language)
    decreases st.Count(), 3
  {
    if st.Stop? then Failed(Thrown(st.failure))
    else if st.item.token == IF then One(ParseIf(st, language))
    else Parsed([], st)
  }

  /** `consumeLoop`: `loop x do S end`. */
  function ParseLoop(st: Stream, language: Language): (p: Parsing<Stmt>)
    ensures p.Parsed? ==> p.rest.Count() < st.Count() && p.value.Loop? && AllowedAll(p.value.body, language)
    decreases st.Count(), 0
  {
    var kw := Expect(st, LOOP);
    if kw.Failed? then Failed(kw.reason)
    else
      var name := Expect(kw.rest, VAR);
      if name.Failed? then Failed(name.reason)
      else match AsVarText(name.value)
        case Err(e) => Failed(Thrown(e))
        case Ok(v) =>
          var body := ParseEnclosed(name.rest, DO, language);
          if body.Failed? then Failed(body.reason) else Parsed(Loop(v, body.value), body.rest)
  }

  /** `consumeWhile`: `while x != 0 do S end`, where the operator must be `!=` and the number the lexeme `0`. */
  function ParseWhile(st: Stream, language: Language): (p: Parsing<Stmt>)
    ensures p.Parsed? ==> p.rest.Count() < st.Count() && p.value.While? && AllowedAll(p.value.body, language)
    decreases st.Count(), 0
  {
    var head := ParseWhileHead(st);
    if head.Failed? then Failed(head.reason)
    else match AsVarText(head.value)
      case Err(e) => Failed(Thrown(e))
      case Ok(v) =>
        var body := ParseEnclosed(head.rest, DO, language);
        if body.Failed? then Failed(body.reason) else Parsed(While(v, body.value), body.rest)
  }

  /**
   * The head `while x != 0` of `consumeWhile`, giving the lexeme of `x`:
   * another operator than `!=`, or another number than the lexeme `0`, is
   * an error.
   */
  function ParseWhileHead(st: Stream): (p: Parsing<string>)
    ensures p.Parsed? ==> p.rest.Count() < st.Count()
  {
    var kw := Expect(st, WHILE);
    if kw.Failed? then Failed(kw.reason)
    else
      var name := Expect(kw.rest, VAR);
      if name.Failed? then Failed(name.reason)
      else if name.rest.Stop? then Failed(Thrown(name.rest.failure))
      else if name.rest.item.token != NEQ then Failed(WhileOperator)
      else
        var zero := Expect(name.rest.later, NUM);
        if zero.Failed? then Failed(zero.reason)
        else if zero.value != "0" then Failed(WhileZero)
        else Parsed(name.value, zero.rest)
  }

  /** `match(open); consumeStmt(); match(END)`, the body of a `loop` or `while` and the `else` branch. */
  function ParseEnclosed(st: Stream, open: Token, language: Language): (p: Parsing<seq<Stmt>>)
    ensures p.Parsed? ==> p.rest.Count() < st.Count() && AllowedAll(p.value, language)
    decreases st.Count(), 7
  {
    var o := Expect(st, open);
    if o.Failed? then Failed(o.reason)
    else
      var body := ParseStmt(o.rest, language);
      if body.Failed? then body
      else
        var e := Expect(body.rest, END);
        if e.Failed? then Failed(e.reason) else Parsed(body.value, e.rest)
  }

  /**
   * `consumeIf`: `if a cmp b` with `=` or `<=`, then in a GOTO program a
   * GOTO-IF if `goto` follows, and otherwise `then S else T end`.
   */
  function ParseIf(st: Stream, language: Language): (p: Parsing<Stmt>)
    ensures p.Parsed? ==> p.rest.Count() < st.Count() && (p.value.If? || p.value.IfGoto?) && Allowed(p.value, language)
    decreases st.Count(), 1
  {
    var c := ParseCondition(st);
    if c.Failed? then Failed(c.reason)
    else
      var Condition(a1, cmp, a2) := c.value;
      if c.rest.Stop? then Failed(Thrown(c.rest.failure))
      else if c.rest.item.token == Token.GOTO && language == GotoLang then
        if cmp != Equal then Failed(GotoNeedsEqual) else ParseGotoTarget(c.rest, a1, a2)
      else ParseBranches(c.rest, language, cmp, a1, a2)
  }

  /** The head `if a cmp b` of `consumeIf`, where `cmp` is `=` or `<=`. */
  function ParseCondition(st: Stream): (p: Parsing<Condition>)
    ensures p.Parsed? ==> p.rest.Count() < st.Count()
  {
    var kw := Expect(st, IF);
    if kw.Failed? then Failed(kw.reason)
    else
      var a1 := ParseArgument(kw.rest);
      if a1.Failed? then Failed(a1.reason)
      else if a1.rest.Stop? then Failed(Thrown(a1.rest.failure))
      else if a1.rest.item.token != EQU && a1.rest.item.token != LTE then Failed(IllegalCompare)
      else
        var cmp := if a1.rest.item.token == EQU then Equal else AtMost;
        var a2 := ParseArgument(a1.rest.later);
        if a2.Failed? then Failed(a2.reason) else Parsed(Condition(a1.value, cmp, a2.value), a2.rest)
  }

  /** The GOTO-IF tail of `consumeIf`: `goto n`, with `n` a Java `int`. */
  function ParseGotoTarget(st: Stream, a1: int32, a2: int32): (p: Parsing<Stmt>)
    ensures p.Parsed? ==> p.rest.Count() < st.Count() && p.value.IfGoto? && p.value.a1 == a1 && p.value.a2 == a2
  {
    var g := Expect(st, Token.GOTO);
    if g.Failed? then Failed(g.reason)
    else
      var n := Expect(g.rest, NUM);
      if n.Failed? then Failed(n.reason)
      else match ParseInt(n.value)
        case None => Failed(Thrown(NumberFormat(n.value)))
        case Some(line) => Parsed(IfGoto(a1, a2, line), n.rest)
  }

  /** The `then S else T end` tail of `consumeIf`. */
  function ParseBranches(st: Stream, language: Language, cmp: Compare, a1: int32, a2: int32): (p: Parsing<Stmt>)
    ensures p.Parsed? ==> p.rest.Count() < st.Count() && p.value.If? && Allowed(p.value, language)
    ensures p.Parsed? ==> p.value.cmp == cmp && p.value.a1 == a1 && p.value.a2 == a2
    decreases st.Count(), 0
  {
    var t := Expect(st, THEN);
    if t.Failed? then Failed(t.reason)
    else
      var tb := ParseStmt(t.rest, language);
      if tb.Failed? then Failed(tb.reason)
      else
        var eb := ParseEnclosed(tb.rest, ELSE, language);
        if eb.Failed? then Failed(eb.reason) else Parsed(If(cmp, a1, a2, tb.value, eb.value), eb.rest)
  }

  // ----- GOTO programs -----

  /** A numbered line of a GOTO program and the statements on it. */
  datatype Line = Line(number: int32, body: seq<Stmt>)

  /** The line numbers used so far. */
  function Numbers(lines: seq<Line>): set<int32> {
    if lines == [] then {} else Numbers(lines[..|lines| - 1]) + {lines[|lines| - 1].number}
  }

  /** The statements of all lines, in order. */
  function Flatten(lines: seq<Line>): seq<Stmt> {
    if lines == [] then [] else Flatten(lines[..|lines| - 1]) + lines[|lines| - 1].body
  }

  /** `labelMap`: each line number with the address of the first instruction of its line. */
  function Labels(lines: seq<Line>): map<int32, int32>
    requires SizeAll(Flatten(lines)) <= INT_MAX
  {
    if lines == [] then map[]
    else
      var init := lines[..|lines| - 1];
      SizeAppend(Flatten(init), lines[|lines| - 1].body);
      Labels(init)[lines[|lines| - 1].number := SizeAll(Flatten(init)) as int32]
  }

  /** The label of a GOTO line: a number that parses as an `int` and is not in `used`, and a colon. */
  function ParseLabel(st: Stream, used: set<int32>): (p: Parsing<int32>)
    ensures p.Parsed? ==> p.rest.Count() < st.Count() && p.value !in used
  {
    if st.Stop? then Failed(Thrown(st.failure))
    else if st.item.token != NUM then Failed(NeedsLineNumber)
    else match ParseInt(st.item.text)
      case None => Failed(Thrown(NumberFormat(st.item.text)))
      case Some(n) =>
        if n in used then Failed(LineUsed(n))
        else
          var colon := Expect(st.later, COLON);
          if colon.Failed? then Failed(colon.reason) else Parsed(n, colon.rest)
  }

  /** A numbered line up to its statement. */
  function ParseLine(st: Stream, used: set<int32>): (p: Parsing<Line>)
    ensures p.Parsed? ==> p.rest.Count() < st.Count() && p.value.number !in used && AllowedAll(p.value.body, GotoLang)
  {
    var number := ParseLabel(st, used);
    if number.Failed? then Failed(number.reason)
    else
      var body := ParseStmt(number.rest, GotoLang);
      if body.Failed? then Failed(body.reason) else Parsed(Line(number.value, body.value), body.rest)
  }

  /**
   * What follows a line: EOF, which ends the program and stays unread, or a
   * semicolon that another line must follow.
   */
  function ParseLineEnd(st: Stream): (p: Parsing<bool>)
    ensures p.Parsed? && !p.value ==> p.rest == st && st.Head() == Ok(EOF)
    ensures p.Parsed? && p.value ==> p.rest.Count() < st.Count() && p.rest.More? && p.rest.item.token != EOF
  {
    if st.Stop? then Failed(Thrown(st.failure))
    else if st.item.token == EOF then Parsed(false, st)
    else
      var semicolon := Expect(st, SEMICOLON);
      if semicolon.Failed? then Failed(semicolon.reason)
      else if semicolon.rest.Stop? then Failed(Thrown(semicolon.rest.failure))
      else if semicolon.rest.item.token == EOF then Failed(TrailingSemicolon)
      else Parsed(true, semicolon.rest)
  }

  /** The loop of `compile()` for GOTO programs, after the lines in `done`. */
  function ParseLines(st: Stream, done: seq<Line>): Parsing<seq<Line>>
    decreases st.Count()
  {
    var line := ParseLine(st, Numbers(done));
    if line.Failed? then Failed(line.reason)
    else
      var end := ParseLineEnd(line.rest);
      if end.Failed? then Failed(end.reason)
      else if end.value then ParseLines(end.rest, done + [line.value])
      else Parsed(done + [line.value], end.rest)
  }

  /** Every line of a GOTO program holds only statements of the GOTO language. */
  ghost predicate GotoOnly(lines: seq<Line>) {
    forall k :: 0 <= k < |lines| ==> AllowedAll(lines[k].body, GotoLang)
  }

  /** No two lines share a number. */
  ghost predicate Distinct(lines: seq<Line>) {
    forall i, j :: 0 <= i < j < |lines| ==> lines[i].number != lines[j].number
  }

  /** One more line adds its statements, its number, its size and its label. */
  lemma LinesAppend(lines: seq<Line>, x: Line)
    ensures Flatten(lines + [x]) == Flatten(lines) + x.body
    ensures Numbers(lines + [x]) == Numbers(lines) + {x.number}
    ensures SizeAll(Flatten(lines + [x])) == SizeAll(Flatten(lines)) + SizeAll(x.body)
    ensures SizeAll(Flatten(lines + [x])) <= INT_MAX ==>
      Labels(lines + [x]) == Labels(lines)[x.number := SizeAll(Flatten(lines)) as int32]
  {
    assert (lines + [x])[..|lines|] == lines;
    SizeAppend(Flatten(lines), x.body);
  }

  /** The number of every line is among the numbers used. */
  lemma {:induction false} NumbersOf(lines: seq<Line>, k: int)
    requires 0 <= k < |lines|
    ensures lines[k].number in Numbers(lines)
  {
    if k < |lines| - 1 {
      var init := lines[..|lines| - 1];
      NumbersOf(init, k);
    }
  }

  /** The labels are exactly the line numbers used. */
  lemma {:induction false} LabelsKeys(lines: seq<Line>)
    requires SizeAll(Flatten(lines)) <= INT_MAX
    ensures Labels(lines).Keys == Numbers(lines)
  {
    if lines != [] {
      var init := lines[..|lines| - 1];
      SizeAppend(Flatten(init), lines[|lines| - 1].body);
      LabelsKeys(init);
    }
  }

  /** A program of GOTO lines is GOTO code throughout. */
  lemma {:induction false} FlattenAllowed(lines: seq<Line>)
    requires GotoOnly(lines)
    ensures AllowedAll(Flatten(lines), GotoLang)
  {
    if lines != [] {
      var init := lines[..|lines| - 1];
      assert forall k :: 0 <= k < |init| ==> init[k] == lines[k];
      FlattenAllowed(init);
      AllowedAppend(Flatten(init), lines[|lines| - 1].body, GotoLang);
    }
  }

  /** Every label is an address inside the program or at its end. */
  lemma {:induction false} LabelsWithin(lines: seq<Line>)
    requires SizeAll(Flatten(lines)) <= INT_MAX
    ensures forall n :: n in Labels(lines) ==> 0 <= Labels(lines)[n] as int <= SizeAll(Flatten(lines))
  {
    if lines != [] {
      var init := lines[..|lines| - 1];
      SizeAppend(Flatten(init), lines[|lines| - 1].body);
      LabelsWithin(init);
    }
  }

  /** With distinct numbers, the label of each line is the address of its first instruction. */
  lemma {:induction false} LabelsAddress(lines: seq<Line>, k: int)
    requires Distinct(lines) && SizeAll(Flatten(lines)) <= INT_MAX && 0 <= k < |lines|
    ensures lines[k].number in Labels(lines)
    ensures Labels(lines)[lines[k].number] as int == SizeAll(Flatten(lines[..k]))
  {
    var init := lines[..|lines| - 1];
    SizeAppend(Flatten(init), lines[|lines| - 1].body);
    if k < |lines| - 1 {
      assert forall i :: 0 <= i < |init| ==> init[i] == lines[i];
      assert init[..k] == lines[..k];
      LabelsAddress(init, k);
    } else {
      assert lines[..k] == init;
    }
  }

  /**
   * The lines of a parsed GOTO program extend those before them, hold only
   * GOTO statements, have distinct numbers, and the program ends at EOF.
   */
  lemma {:induction false} ParsedLines(st: Stream, done: seq<Line>, lines: seq<Line>, rest: Stream)
    requires ParseLines(st, done) == Parsed(lines, rest)
    requires GotoOnly(done) && Distinct(done)
    ensures GotoOnly(lines) && Distinct(lines)
    ensures |done| < |lines| && lines[..|done|] == done
    ensures rest.Head() == Ok(EOF)
    decreases st.Count()
  {
    var line := ParseLine(st, Numbers(done));
    var end := ParseLineEnd(line.rest);
    var next := done + [line.value];
    forall i | 0 <= i < |done|
      ensures done[i].number != line.value.number
    {
      NumbersOf(done, i);
    }
    assert GotoOnly(next) && Distinct(next);
    if end.value {
      ParsedLines(end.rest, next, lines, rest);
      assert lines[..|done|] == lines[..|next|][..|done|];
    }
  }

  // ----- the whole program -----

  /** What `compile()` makes of a token stream. */
  datatype Translation =
    | Compiled(code: seq<int>)    // the array it returns
    | Refused(reason: Reason)     // a syntax error or an exception from the lexer
    | Unlinked                    // a GOTO-IF names a line that does not exist
    | TooLong                     // more instructions than a Java list holds

  function Translate(st: Stream, language: Language): Translation {
    if language == GotoLang then
      match ParseLines(st, [])
      case Failed(reason) => Refused(reason)
      case Parsed(lines, _) =>
        var ss := Flatten(lines);
        if SizeAll(ss) > INT_MAX then TooLong
        else if !Linked(RelocationsAll(ss, 0), Labels(lines)) then Unlinked
        else Compiled(Resolve(EmitAll(ss, 0), RelocationsAll(ss, 0), Labels(lines)))
    else
      match ParseStmt(st, language)
      case Failed(reason) => Refused(reason)
      case Parsed(ss, _) => if SizeAll(ss) > INT_MAX then TooLong else Compiled(EmitAll(ss, 0))
  }

  /**
   * A token stream too short to fill a Java list: at four words per token
   * its code leaves room for one more instruction.
   */
  predicate Fits(st: Stream) {
    4 * st.Count() <= INT_MAX - 4
  }

  /**
   * An exception `e` of `compile()` on the tokens `st`: the syntax error
   * or lexer exception `Translate` names, with the span `start`..`end`; the
   * NullPointerException of a jump to a line that does not exist; or an
   * OutOfMemoryError, on a stream too long to fit.
   */
  predicate Rejects(st: Stream, language: Language, e: Failure, start: int, end: int) {
    var t := Translate(st, language);
    || (t.Refused? && e == Report(t.reason, start, end))
    || (t == Unlinked && e == NullPointer)
    || (e == OutOfMemory && !Fits(st))
  }
}
