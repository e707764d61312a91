/**
 * The recursive-descent compiler: a one-token lookahead over the lexer, the
 * instruction list it appends to and back-patches, and for GOTO programs the
 * label and relocation tables it links at the end.
 *
 * Every `consume` method is proved against its `Grammar` function: it
 * reads the same tokens and fails for the same reason. On success it has
 * appended exactly the code `Emit`/`EmitAll` gives for the statements it
 * parsed (a ghost result, since the compiler builds no tree) and recorded
 * exactly their GOTO-IF sites. `Compile` therefore returns the code
 * `Translate` gives, which is well-formed code of its language
 * (`Bytecode.Code`): it decodes, has a listing, and every jump lands
 * inside it or at its end.
 */
module Compilers {
  import opened Results
  import opened Numerals
  import opened Recognition
  import opened Tokens
  import opened Bytecode
  import opened Codegen
  import opened Lexers
  import PrettyPrint
  import opened Scanner
  import opened Grammar

  // ----- the code the consume methods assemble -----

  /**
   * `consumeLoop` appends PUSH, the counter, BZ with a placeholder, the body,
   * DEC and GOTO back to the BZ, patches the BZ target to the word after
   * them and appends POP.
   */
  lemma LoopAssembly(p0: seq<int>, c: int, body: seq<int>, b: int, back: int, site: int,
                     pa: seq<int>, pb: seq<int>, p1: seq<int>, p2: seq<int>, p3: seq<int>, q: seq<int>)
    requires |body| == b && back == |p0| + 2 && site == |p0| + 3
    requires pa == p0 + [PUSH as int] && pb == pa + [c] && p1 == pb + [BZ as int, -1]
    requires p2 == p1 + body
    requires p3 == p2 + [DEC as int, Bytecode.GOTO as int, back]
    requires q == p3[site := |p3|] + [POP as int]
    ensures q == p0 + ([PUSH as int, c, BZ as int, |p0| + 7 + b] + body + [DEC as int, Bytecode.GOTO as int, |p0| + 2, POP as int])
  {
  }

  /**
   * `consumeWhile` appends IFEQ, the counter, 0 and a placeholder, the body
   * and GOTO back to the IFEQ, patches the IFEQ target to the word after them
   * and appends NOP.
   */
  lemma WhileAssembly(p0: seq<int>, c: int, body: seq<int>, b: int, back: int, site: int,
                      pa: seq<int>, p1: seq<int>, p2: seq<int>, p3: seq<int>, q: seq<int>)
    requires |body| == b && back == |p0| && site == |p0| + 3
    requires pa == p0 + [IFEQ as int] && p1 == pa + [c, 0, -1]
    requires p2 == p1 + body
    requires p3 == p2 + [Bytecode.GOTO as int, back]
    requires q == p3[site := |p3|] + [NOP as int]
    ensures q == p0 + ([IFEQ as int, c, 0, |p0| + 6 + b] + body + [Bytecode.GOTO as int, |p0|, NOP as int])
  {
  }

  /**
   * `consumeIf` appends the compare with a placeholder, the then-part and
   * GOTO with a placeholder, patches the compare to the else-part, appends
   * the else-part, patches the GOTO to the word after it and appends NOP.
   */
  lemma IfAssembly(p0: seq<int>, op: int, a1: int, a2: int, t: seq<int>, e: seq<int>, elseSite: int, endSite: int,
                   p1: seq<int>, p2: seq<int>, p2x: seq<int>, p3: seq<int>, p4: seq<int>, q: seq<int>)
    requires elseSite == |p0| + 3 && endSite == |p2| + 1
    requires p1 == p0 + [op, a1, a2, -1]
    requires p2 == p1 + t
    requires p2x == p2 + [Bytecode.GOTO as int, -1]
    requires p3 == p2x[elseSite := |p2x|]
    requires p4 == p3 + e
    requires q == p4[endSite := |p4|] + [NOP as int]
    ensures q == p0 + ([op, a1, a2, |p2x|] + t + [Bytecode.GOTO as int, |p4|] + e + [NOP as int])
  {
  }

  /** What `Codegen` lays out for a `loop`, written in the shape `LoopAssembly` produces. */
  lemma LoopShape(c: int32, body: seq<Stmt>, a: int)
    ensures Emit(Loop(c, body), a) ==
      [PUSH as int, c, BZ as int, a + 7 + SizeAll(body)] + EmitAll(body, a + 4) + [DEC as int, Bytecode.GOTO as int, a + 2, POP as int]
    ensures Relocations(Loop(c, body), a) == RelocationsAll(body, a + 4)
  {
  }

  /** What `Codegen` lays out for a `while`, written in the shape `WhileAssembly` produces. */
  lemma WhileShape(c: int32, body: seq<Stmt>, a: int)
    ensures Emit(While(c, body), a) ==
      [IFEQ as int, c, 0, a + 6 + SizeAll(body)] + EmitAll(body, a + 4) + [Bytecode.GOTO as int, a, NOP as int]
    ensures Relocations(While(c, body), a) == RelocationsAll(body, a + 4)
  {
  }

  /** What `Codegen` lays out for an `if`, written in the shape `IfAssembly` produces. */
  lemma IfShape(cmp: Compare, a1: int32, a2: int32, t: seq<Stmt>, e: seq<Stmt>, a: int, x: int, y: int, elseTarget: int, endTarget: int)
    requires x == a + 4 && y == a + 6 + SizeAll(t) && elseTarget == y && endTarget == y + SizeAll(e)
    ensures Emit(If(cmp, a1, a2, t, e), a) ==
      [CompareOpcode(cmp) as int, a1 as int, a2 as int, elseTarget] + EmitAll(t, x) + [Bytecode.GOTO as int, endTarget]
        + EmitAll(e, y) + [NOP as int]
    ensures Relocations(If(cmp, a1, a2, t, e), a) == RelocationsAll(t, x) + RelocationsAll(e, y)
  {
  }

  /** Words in the shape of a `loop`, following what came before, are its code. */
  lemma LoopEmitted(p0: seq<int>, q: seq<int>, c: int32, body: seq<Stmt>)
    requires q == p0 + ([PUSH as int, c as int, BZ as int, |p0| + 7 + SizeAll(body)] + EmitAll(body, |p0| + 4)
      + [DEC as int, Bytecode.GOTO as int, |p0| + 2, POP as int])
    ensures q == p0 + Emit(Loop(c, body), |p0|)
  {
    LoopShape(c, body, |p0|);
  }

  /** Words in the shape of a `while`, following what came before, are its code. */
  lemma WhileEmitted(p0: seq<int>, q: seq<int>, c: int32, body: seq<Stmt>)
    requires q == p0 + ([IFEQ as int, c as int, 0, |p0| + 6 + SizeAll(body)] + EmitAll(body, |p0| + 4)
      + [Bytecode.GOTO as int, |p0|, NOP as int])
    ensures q == p0 + Emit(While(c, body), |p0|)
  {
    WhileShape(c, body, |p0|);
  }

  /** The words `consumeLoop` leaves behind are the code of the `loop` it parsed. */
  lemma LoopCompiled(p0: seq<int>, m0: map<int, int32>, c: int32, body: seq<Stmt>, back: int, site: int,
                     pa: seq<int>, pb: seq<int>, p1: seq<int>, p2: seq<int>, p3: seq<int>, q: seq<int>, m: map<int, int32>)
    requires back == |p0| + 2 && site == |p0| + 3
    requires pa == p0 + [PUSH as int] && pb == pa + [c] && p1 == pb + [BZ as int, -1]
    requires p2 == p1 + EmitAll(body, |p1|)
    requires p3 == p2 + [DEC as int, Bytecode.GOTO as int, back]
    requires q == p3[site := |p3|] + [POP as int]
    requires m == m0 + RelocationsAll(body, |p1|)
    ensures q == p0 + Emit(Loop(c, body), |p0|)
    ensures m == m0 + Relocations(Loop(c, body), |p0|)
  {
    SameBase(body, |p1|, |p0| + 4);
    EmitAllSize(body, |p0| + 4);
    LoopAssembly(p0, c, EmitAll(body, |p0| + 4), SizeAll(body), back, site, pa, pb, p1, p2, p3, q);
    LoopEmitted(p0, q, c, body);
    LoopShape(c, body, |p0|);
  }

  /** The words `consumeWhile` leaves behind are the code of the `while` it parsed. */
  lemma WhileCompiled(p0: seq<int>, m0: map<int, int32>, c: int32, body: seq<Stmt>, back: int, site: int,
                      pa: seq<int>, p1: seq<int>, p2: seq<int>, p3: seq<int>, q: seq<int>, m: map<int, int32>)
    requires back == |p0| && site == |p0| + 3
    requires pa == p0 + [IFEQ as int] && p1 == pa + [c as int, 0, -1]
    requires p2 == p1 + EmitAll(body, |p1|)
    requires p3 == p2 + [Bytecode.GOTO as int, back]
    requires q == p3[site := |p3|] + [NOP as int]
    requires m == m0 + RelocationsAll(body, |p1|)
    ensures q == p0 + Emit(While(c, body), |p0|)
    ensures m == m0 + Relocations(While(c, body), |p0|)
  {
    SameBase(body, |p1|, |p0| + 4);
    EmitAllSize(body, |p0| + 4);
    WhileAssembly(p0, c, EmitAll(body, |p0| + 4), SizeAll(body), back, site, pa, p1, p2, p3, q);
    WhileEmitted(p0, q, c, body);
    WhileShape(c, body, |p0|);
  }

  /** The lengths along the way of `consumeIf`, which place the two parts. */
  lemma IfLengths(p0: seq<int>, t: seq<Stmt>, e: seq<Stmt>, elseSite: int,
                  p1: seq<int>, p2: seq<int>, p2x: seq<int>, p3: seq<int>, p4: seq<int>)
    requires elseSite == |p0| + 3 && |p1| == |p0| + 4
    requires p2 == p1 + EmitAll(t, |p1|)
    requires |p2x| == |p2| + 2
    requires p3 == p2x[elseSite := |p2x|]
    requires p4 == p3 + EmitAll(e, |p3|)
    ensures |p3| == |p0| + 6 + SizeAll(t) && |p2x| == |p3| && |p4| == |p3| + SizeAll(e)
  {
    EmitAllSize(t, |p1|);
    EmitAllSize(e, |p3|);
  }

  /** The words `consumeIf` leaves behind for an `if` with an else-part are its code. */
  lemma IfCompiled(p0: seq<int>, cmp: Compare, a1: int32, a2: int32, t: seq<Stmt>, e: seq<Stmt>,
                   elseSite: int, endSite: int, p1: seq<int>, p2: seq<int>, p2x: seq<int>, p3: seq<int>, p4: seq<int>, q: seq<int>)
    requires elseSite == |p0| + 3 && endSite == |p2| + 1
    requires p1 == p0 + [CompareOpcode(cmp) as int, a1 as int, a2 as int, -1]
    requires p2 == p1 + EmitAll(t, |p1|)
    requires p2x == p2 + [Bytecode.GOTO as int, -1]
    requires p3 == p2x[elseSite := |p2x|]
    requires p4 == p3 + EmitAll(e, |p3|)
    requires q == p4[endSite := |p4|] + [NOP as int]
    ensures q == p0 + Emit(If(cmp, a1, a2, t, e), |p0|)
    ensures |p1| == |p0| + 4 && |p3| == |p0| + 6 + SizeAll(t)
  {
    IfLengths(p0, t, e, elseSite, p1, p2, p2x, p3, p4);
    EmitAllSize(t, |p1|);
    EmitAllSize(e, |p3|);
    IfAssembly(p0, CompareOpcode(cmp) as int, a1 as int, a2 as int, EmitAll(t, |p1|), EmitAll(e, |p3|),
      elseSite, endSite, p1, p2, p2x, p3, p4, q);
    IfShape(cmp, a1, a2, t, e, |p0|, |p1|, |p3|, |p2x|, |p4|);
  }

  /** The sites `consumeIf` records for an `if` with an else-part are those of its parts. */
  lemma IfRecorded(p0: seq<int>, m0: map<int, int32>, cmp: Compare, a1: int32, a2: int32, t: seq<Stmt>, e: seq<Stmt>,
                thenBase: int, elseBase: int, m2: map<int, int32>, m: map<int, int32>)
    requires thenBase == |p0| + 4 && elseBase == |p0| + 6 + SizeAll(t)
    requires m2 == m0 + RelocationsAll(t, thenBase) && m == m2 + RelocationsAll(e, elseBase)
    ensures m == m0 + Relocations(If(cmp, a1, a2, t, e), |p0|)
  {
    IfShape(cmp, a1, a2, t, e, |p0|, thenBase, elseBase, elseBase, elseBase + SizeAll(e));
    MapAssociative(m0, RelocationsAll(t, thenBase), RelocationsAll(e, elseBase));
  }

  /** A GOTO-IF: IFEQ, its operands and a placeholder, recorded as a site. */
  lemma GotoCompiled(p0: seq<int>, m0: map<int, int32>, a1: int32, a2: int32, line: int32, site: int,
                     pa: seq<int>, q: seq<int>, m: map<int, int32>)
    requires site == |p0| + 3
    requires pa == p0 + [IFEQ as int, a1 as int, a2 as int] && q == pa + [-1] && m == m0[site := line]
    ensures q == p0 + Emit(IfGoto(a1, a2, line), |p0|)
    ensures m == m0 + Relocations(IfGoto(a1, a2, line), |p0|)
  {
    assert q == p0 + [IFEQ as int, a1 as int, a2 as int, -1];
  }

  /** An assignment records no site. */
  lemma NoSites(m: map<int, int32>, s: Stmt, a: int)
    requires s.Move? || s.Arith?
    ensures m + Relocations(s, a) == m
  {
  }

  /** Nothing appended yet. */
  lemma Nothing(p0: seq<int>, m0: map<int, int32>)
    ensures p0 + EmitAll([], |p0|) == p0 && m0 + RelocationsAll([], |p0|) == m0
  {
  }

  /** The code of a statement sequence depends on its base address only. */
  lemma SameBase(ss: seq<Stmt>, x: int, y: int)
    requires x == y
    ensures EmitAll(ss, x) == EmitAll(ss, y) && RelocationsAll(ss, x) == RelocationsAll(ss, y)
  {
  }

  /** Appending two parts one after the other appends their concatenation. */
  lemma Chain(p0: seq<int>, e1: seq<int>, e2: seq<int>, e: seq<int>, p1: seq<int>, p2: seq<int>)
    requires p1 == p0 + e1 && p2 == p1 + e2 && e == e1 + e2
    ensures p2 == p0 + e
  {
    Associative(p0, e1, e2);
  }

  /** The same for the sites: a later part's entries are added on top. */
  lemma MapChain(m0: map<int, int32>, r1: map<int, int32>, r2: map<int, int32>, r: map<int, int32>, m1: map<int, int32>, m2: map<int, int32>)
    requires m1 == m0 + r1 && m2 == m1 + r2 && r == r1 + r2
    ensures m2 == m0 + r
  {
    MapAssociative(m0, r1, r2);
  }

  /** Code appended for more statements extends the code of the statements before them. */
  lemma Extend(p0: seq<int>, m0: map<int, int32>, ss: seq<Stmt>, rest: seq<Stmt>, p1: seq<int>, m1: map<int, int32>, p2: seq<int>, m2: map<int, int32>)
    requires p1 == p0 + EmitAll(ss, |p0|) && m1 == m0 + RelocationsAll(ss, |p0|)
    requires p2 == p1 + EmitAll(rest, |p1|) && m2 == m1 + RelocationsAll(rest, |p1|)
    ensures p2 == p0 + EmitAll(ss + rest, |p0|) && m2 == m0 + RelocationsAll(ss + rest, |p0|)
  {
    EmitAllSize(ss, |p0|);
    SameBase(rest, |p1|, |p0| + SizeAll(ss));
    AppendAll(ss, rest, |p0|);
    Chain(p0, EmitAll(ss, |p0|), EmitAll(rest, |p1|), EmitAll(ss + rest, |p0|), p1, p2);
    MapChain(m0, RelocationsAll(ss, |p0|), RelocationsAll(rest, |p1|), RelocationsAll(ss + rest, |p0|), m1, m2);
  }

  /** The same for one more statement. */
  lemma ExtendOne(p0: seq<int>, m0: map<int, int32>, ss: seq<Stmt>, s: Stmt, p1: seq<int>, m1: map<int, int32>, p2: seq<int>, m2: map<int, int32>)
    requires p1 == p0 + EmitAll(ss, |p0|) && m1 == m0 + RelocationsAll(ss, |p0|)
    requires p2 == p1 + Emit(s, |p1|) && m2 == m1 + Relocations(s, |p1|)
    ensures p2 == p0 + EmitAll(ss + [s], |p0|) && m2 == m0 + RelocationsAll(ss + [s], |p0|)
  {
    Single(s, |p1|);
    Extend(p0, m0, ss, [s], p1, m1, p2, m2);
  }

  // ----- the compiler object -----

  /** A GOTO program grows by the statements of one more line. */
  lemma NextLine(ss: seq<Stmt>, stmts: seq<Stmt>, p1: seq<int>, m1: map<int, int32>, p2: seq<int>, m2: map<int, int32>)
    requires p1 == EmitAll(ss, 0) && m1 == RelocationsAll(ss, 0)
    requires p2 == p1 + EmitAll(stmts, |p1|) && m2 == m1 + RelocationsAll(stmts, |p1|)
    ensures p2 == EmitAll(ss + stmts, 0) && m2 == RelocationsAll(ss + stmts, 0)
    ensures |p2| == SizeAll(ss + stmts)
  {
    EmitAllSize(ss, 0);
    EmitAllSize(ss + stmts, 0);
    SameBase(stmts, |p1|, SizeAll(ss));
    AppendAll(ss, stmts, 0);
  }

  // ----- the compiled program as a whole -----

  /**
   * A LOOP or WHILE program is well-formed code of its language with no
   * site left: every opcode belongs to the language, operands fit, and
   * every jump lands inside the program or at its end.
   */
  lemma ProgramCode(ss: seq<Stmt>, language: Language)
    requires AllowedAll(ss, language) && language != GotoLang
    ensures |EmitAll(ss, 0)| == SizeAll(ss)
    ensures Code(EmitAll(ss, 0), 0, 0, SizeAll(ss), {}, Ops(language))
  {
    EmitAllSize(ss, 0);
    EmitAllCode(ss, 0, SizeAll(ss), language);
    NoRelocationsAll(ss, 0, language);
    assert RelocationsAll(ss, 0).Keys == {};
  }

  /**
   * A GOTO program whose every GOTO-IF names a known line, once each site
   * holds the address of that line, is well-formed GOTO code with no site left.
   */
  lemma GotoProgramCode(ss: seq<Stmt>, labels: map<int32, int32>)
    requires AllowedAll(ss, GotoLang) && Linked(RelocationsAll(ss, 0), labels)
    requires forall l :: l in labels ==> 0 <= labels[l] <= SizeAll(ss)
    ensures |Resolve(EmitAll(ss, 0), RelocationsAll(ss, 0), labels)| == SizeAll(ss)
    ensures Code(Resolve(EmitAll(ss, 0), RelocationsAll(ss, 0), labels), 0, 0, SizeAll(ss), {}, Ops(GotoLang))
  {
    EmitAllSize(ss, 0);
    EmitAllCode(ss, 0, SizeAll(ss), GotoLang);
    RelocationsAllWithin(ss, 0);
    ResolveCode(EmitAll(ss, 0), RelocationsAll(ss, 0), labels, Ops(GotoLang));
  }

  /**
   * The verdict of `compile()` outside GOTO programs, from the outcome of
   * `consumeStmt` on the whole stream and the code it appended.
   */
  lemma StmtVerdict(st: Stream, language: Language, o: Outcome<Reason>, ss: seq<Stmt>, rest: Stream,
                    code: seq<int>, start: int, end: int)
    requires language != GotoLang
    requires Agrees(ParseStmt(st, language), o, ss, rest, 4 * st.Count())
    requires o.Pass? ==> code == EmitAll(ss, 0) && |code| <= INT_MAX
    ensures o.Fail? ==> Rejects(st, language, Report(o.error, start, end), start, end)
    ensures o.Pass? ==> Translate(st, language) == Compiled(code)
    ensures Fits(st) && Translate(st, language).Compiled? ==> o.Pass?
  {
    if o.Pass? {
      EmitAllSize(ss, 0);
    }
  }

  /**
   * The verdict of `compile()` in a GOTO program, from the outcome of the
   * line loop and the code, sites and line addresses it left.
   */
  lemma LinesVerdict(st: Stream, o: Outcome<Reason>, lines: seq<Line>, rest: Stream,
                     code: seq<int>, sites: map<int, int32>, labels: map<int32, int>, start: int, end: int)
    requires Agrees(ParseLines(st, []), o, lines, rest, 4 * st.Count())
    requires o.Pass? ==> SizeAll(Flatten(lines)) == |code| <= INT_MAX && code == EmitAll(Flatten(lines), 0)
    requires o.Pass? ==> sites == RelocationsAll(Flatten(lines), 0) && labels == Labels(lines)
    ensures o.Fail? ==> Rejects(st, GotoLang, Report(o.error, start, end), start, end)
    ensures o.Pass? && Linked(sites, labels) ==> Translate(st, GotoLang) == Compiled(Resolve(code, sites, labels))
    ensures o.Pass? && !Linked(sites, labels) ==> Translate(st, GotoLang) == Unlinked
    ensures Fits(st) && Translate(st, GotoLang).Compiled? ==> o.Pass?
  {
  }

  /**
   * Whatever `Translate` compiles is well-formed code of the language: the
   * lines of a GOTO program hold GOTO statements only and their labels lie
   * inside the program, and a LOOP or WHILE program holds statements of its
   * language.
   */
  lemma TranslationCode(st: Stream, language: Language)
    requires Translate(st, language).Compiled?
    ensures Code(Translate(st, language).code, 0, 0, |Translate(st, language).code|, {}, Ops(language))
  {
    if language == GotoLang {
      var p := ParseLines(st, []);
      ParsedLines(st, [], p.value, p.rest);
      FlattenAllowed(p.value);
      LabelsWithin(p.value);
      GotoProgramCode(Flatten(p.value), Labels(p.value));
    } else {
      ProgramCode(ParseStmt(st, language).value, language);
    }
  }

  /** Well-formed code decodes by the arity table, so the pretty printer lists all of it. */
  lemma ProgramListing(p: seq<int32>, ops: set<int>)
    requires Code(p, 0, 0, |p|, {}, ops)
    ensures Decodes(p, 0) && PrettyPrint.Listing(p).Some?
  {
    assert p[0..] == p;
    CodeDecodes(p, 0, 0, |p|, {}, ops);
    PrettyPrint.ListingDefined(p);
  }

  /**
   * At each instruction start of a compiled program: an opcode of the
   * language whose operands fit, and a jump that stays inside the program.
   */
  lemma ProgramTargets(p: seq<int32>, language: Language, i: int)
    requires Code(p, 0, 0, |p|, {}, Ops(language)) && Boundary(p, 0, i) && i < |p|
    ensures LanguageOp(language, p[i]) && i + Width(p[i]) <= |p|
    ensures IsBranch(p[i]) ==> 0 <= p[i + Width(p[i]) - 1] <= |p|
  {
    assert p[0..] == p;
    CodeTargets(p, 0, 0, |p|, Ops(language), i);
  }

  class Compiler {
    const lexer: Lexer
    const language: Language
    /** The token under examination, None once it has been matched or skipped. */
    var lookahead: Option<Token>
    /** The span reported by syntax errors: the absolute positions around the last fetched token. */
    var start: int
    var end: int
    /** GOTO line number to the address of its first instruction. */
    var labelMap: map<int32, int32>
    /** Address of a GOTO-IF target word to the line number it jumps to. */
    var relocateMap: map<int, int32>
    var program: seq<int32>
    /** The tokens still to be matched: the one under examination, with its lexeme, then what the lexer hands out. */
    ghost var ahead: Stream

    /**
     * Every address fits a Java `int`, and the compiler `Tracks` its lexer
     * at the lexer's lookahead index. The second fact is stated for every
     * index equal to that one, so that only the methods that fetch a token
     * (and mention `Tracks`) look into the lexer; the others carry `ahead`
     * along as it is.
     */
    ghost predicate Valid()
      reads this`program, this`lookahead, this`ahead, lexer
    {
      && |program| <= INT_MAX
      && (forall k: nat :: k == lexer.Cursor() ==> Tracks(k))
    }

    /**
     * The lexer keeps its own invariant, has no token buffered while the
     * compiler holds one, and `ahead` is what `AheadFrom` gives at `k`.
     */
    ghost predicate Tracks(k: nat)
      reads this`lookahead, this`ahead, lexer
    {
      && lexer.Valid() && lexer.Ended()
      && (lookahead.Some? ==> lexer.token == None)
      && ahead == AheadFrom(k)
    }

    /** The tokens ahead when the lexer's lookahead index is `k`. */
    ghost function AheadFrom(k: nat): Stream
      reads this`lookahead, lexer
    {
      if lookahead.Some? then More(Item(lookahead.value, lexer.lexeme), lexer.PendingFrom(k)) else lexer.PendingFrom(k)
    }

    constructor(lexer: Lexer, language: Language)
      requires lexer.Valid() && lexer.Ended()
      ensures Valid() && this.lexer == lexer && this.language == language
      ensures lookahead == None && labelMap == map[] && relocateMap == map[] && program == []
      ensures ahead == lexer.Pending()
    {
      this.lexer := lexer;
      this.language := language;
      ahead := lexer.Pending();
      lookahead := None;
      start := 0;
      end := 0;
      labelMap := map[];
      relocateMap := map[];
      program := [];
    }

    /**
     * `test(token)`: fetch a token if none is buffered, recording the span
     * around it, and compare. The tokens ahead stay as they are; an
     * exception is the one that ends the lexer's stream.
     */
    method Test(t: Token) returns (r: Result<bool, Reason>)
      requires Valid()
      modifies this`lookahead, this`ahead, this`start, this`end, lexer
      ensures Valid()
      ensures r.Ok? ==> lookahead.Some? && r.value == (lookahead.value == t)
      ensures r.Ok? ==> ahead == old(ahead) && ahead.More? && ahead.item.token == lookahead.value
      ensures r.Err? ==> old(ahead).Stop? && r.error == Thrown(old(ahead).failure)
      ensures old(lookahead).Some? ==> r.Ok? && lookahead == old(lookahead) && start == old(start) && end == old(end)
      ensures old(lookahead).None? ==> start == old(lexer.abs) - 1
      ensures old(lookahead).None? && r.Ok? ==> end == lexer.abs - 1
      ensures program == old(program) && relocateMap == old(relocateMap) && labelMap == old(labelMap)
    {
      assert Tracks(lexer.Cursor());
      if lookahead.None? {
        start := lexer.abs - 1;
        var next := lexer.Next();
        if next.Err? {
          ahead := AheadFrom(lexer.Cursor());
          return Err(Thrown(next.error));
        }
        lookahead := Some(next.value);
        end := lexer.abs - 1;
      }
      r := Ok(lookahead.value == t);
    }

    /** `test(tokens...)`: fetch a token if none is buffered and look it up, without touching the span. */
    method TestAny(ts: seq<Token>) returns (r: Result<bool, Reason>)
      requires Valid()
      modifies this`lookahead, this`ahead, lexer
      ensures Valid()
      ensures r.Ok? ==> lookahead.Some? && r.value == (lookahead.value in ts)
      ensures r.Ok? ==> ahead == old(ahead) && ahead.More? && ahead.item.token == lookahead.value
      ensures r.Err? ==> old(ahead).Stop? && r.error == Thrown(old(ahead).failure)
      ensures program == old(program) && relocateMap == old(relocateMap) && labelMap == old(labelMap) && start == old(start) && end == old(end)
    {
      assert Tracks(lexer.Cursor());
      if lookahead.None? {
        var next := lexer.Next();
        if next.Err? {
          ahead := AheadFrom(lexer.Cursor());
          return Err(Thrown(next.error));
        }
        lookahead := Some(next.value);
      }
      r := Ok(lookahead.value in ts);
    }

    /**
     * `match(token)`: consume the token if it is the expected one and return
     * its lexeme; otherwise a syntax error naming both tokens.
     */
    method Match(t: Token) returns (r: Result<string, Reason>)
      requires Valid()
      modifies this`lookahead, this`ahead, this`start, this`end, lexer
      ensures Valid() && Yields(Expect(old(ahead), t), r, ahead)
      ensures program == old(program) && relocateMap == old(relocateMap) && labelMap == old(labelMap)
    {
      var found := Test(t);
      if found.Err? {
        return Err(found.error);
      }
      if found.value {
        assert Tracks(lexer.Cursor());
        lookahead := None;
        ahead := ahead.later;
        r := Ok(lexer.lexeme);
      } else {
        r := Err(Expected(t, lookahead.value));
      }
    }

    /** `skip()`: drop the buffered token and return its lexeme. */
    method Skip() returns (text: string)
      requires Valid() && lookahead.Some?
      modifies this`lookahead, this`ahead
      ensures Valid() && old(ahead).More?
      ensures text == old(ahead).item.text && ahead == old(ahead).later
      ensures program == old(program) && relocateMap == old(relocateMap) && labelMap == old(labelMap) && start == old(start) && end == old(end)
    {
      assert Tracks(lexer.Cursor());
      lookahead := None;
      ahead := ahead.later;
      text := lexer.lexeme;
    }

    /**
     * `program.add` of a run of words with nothing between them that can
     * throw. The list cannot grow past `Integer.MAX_VALUE` words.
     */
    method Append(words: seq<int32>) returns (r: Outcome<Reason>)
      requires Valid()
      modifies this`program
      ensures Valid()
      ensures r.Pass? <==> |old(program)| + |words| <= INT_MAX
      ensures r.Pass? ==> program == old(program) + words
      ensures r.Fail? ==> r.error == Exhausted && program == old(program)
      ensures ahead == old(ahead) && lookahead == old(lookahead) && relocateMap == old(relocateMap) && labelMap == old(labelMap)
    {
      if |program| + |words| > INT_MAX {
        return Fail(Exhausted);
      }
      program := program + words;
      r := Pass;
    }

    /** `program.set`: patch a placeholder once its target address is known. */
    method Patch(pos: int, value: int32)
      requires Valid() && 0 <= pos < |program|
      modifies this`program
      ensures Valid() && program == old(program)[pos := value]
      ensures ahead == old(ahead) && lookahead == old(lookahead) && relocateMap == old(relocateMap) && labelMap == old(labelMap)
    {
      program := program[pos := value];
    }

    /** `relocateMap.put`: the word at `pos` is to receive the address of line `line`. */
    method RecordSite(pos: int, line: int32)
      modifies this`relocateMap
      ensures relocateMap == old(relocateMap)[pos := line]
    {
      relocateMap := relocateMap[pos := line];
    }

    /** `labelMap.put`: line `line` starts at address `addr`. */
    method RecordLabel(line: int32, addr: int32)
      modifies this`labelMap
      ensures labelMap == old(labelMap)[line := addr]
    {
      labelMap := labelMap[line := addr];
    }

    /** `consumeExprArgument`: the operand `ParseArgument` reads, or its exception. */
    method ConsumeExprArgument() returns (r: Result<int32, Reason>)
      requires Valid()
      modifies this`lookahead, this`ahead, this`start, this`end, lexer
      ensures Valid() && Yields(ParseArgument(old(ahead)), r, ahead)
      ensures program == old(program) && relocateMap == old(relocateMap) && labelMap == old(labelMap)
    {
      var isVar := Test(VAR);
      if isVar.Err? {
        return Err(isVar.error);
      }
      if isVar.value {
        var text := Match(VAR);
        var v := AsVarText(text.value);
        return if v.Ok? then Ok(v.value) else Err(Thrown(v.error));
      }
      var isNum := Test(NUM);
      if isNum.value {
        var text := Match(NUM);
        var v := AsNumText(text.value);
        return if v.Ok? then Ok(v.value) else Err(Thrown(v.error));
      }
      r := Err(NotArgument);
    }

    /**
     * `consumeAssign`: the assignment `ParseAssign` reads, appended as MOV
     * or as the arithmetic instruction of its operator.
     */
    method ConsumeAssign() returns (r: Outcome<Reason>, ghost s: Stmt)
      requires Valid()
      modifies this`lookahead, this`ahead, this`start, this`end, this`program, lexer
      ensures Valid() && Agrees(ParseAssign(old(ahead)), r, s, ahead, |old(program)| + 4 * old(ahead).Count())
      ensures r.Pass? ==> |program| <= |old(program)| + 4 * (old(ahead).Count() - ahead.Count())
      ensures relocateMap == old(relocateMap) && labelMap == old(labelMap)
      ensures r.Pass? ==> program == old(program) + Emit(s, |old(program)|)
    {
      s := Move(0, 0);
      var name := Match(VAR);
      if name.Err? {
        r := Fail(name.error);
        return;
      }
      var dst := AsVarText(name.value);
      if dst.Err? {
        r := Fail(Thrown(dst.error));
        return;
      }
      var assign := Match(ASSIGN);
      if assign.Err? {
        r := Fail(assign.error);
        return;
      }
      var e := ConsumeExpr(dst.value);
      if e.Err? {
        r := Fail(e.error);
        return;
      }
      s := e.value;
      if e.value.Move? {
        r := Append([MOV, e.value.src, dst.value]);
      } else {
        r := Append([ArithOpcode(e.value.op), e.value.a1, e.value.a2, dst.value]);
      }
    }

    /**
     * The right-hand side of `consumeAssign` that `ParseExpr` reads: the
     * first operand and, if `+`, `-` or `*` follows, the operator and the
     * second operand, as the statement assigning them to register `dst`.
     */
    method ConsumeExpr(dst: int32) returns (r: Result<Stmt, Reason>)
      requires Valid()
      modifies this`lookahead, this`ahead, this`start, this`end, lexer
      ensures Valid() && Yields(ParseExpr(old(ahead), dst), r, ahead)
      ensures program == old(program) && relocateMap == old(relocateMap) && labelMap == old(labelMap)
    {
      var a1 := ConsumeExprArgument();
      if a1.Err? {
        return Err(a1.error);
      }
      var isOp := TestAny([PLUS, MINUS, MULT]);
      if isOp.Err? {
        return Err(isOp.error);
      }
      if !isOp.value {
        return Ok(Move(a1.value, dst));
      }
      var op := Skip();
      var func: ArithOp;
      if op == "+" {
        func := Plus;
      } else if op == "-" {
        func := Minus;
      } else if op == "*" {
        func := Times;
      } else {
        return Err(UnknownOperator(op));
      }
      var a2 := ConsumeExprArgument();
      if a2.Err? {
        return Err(a2.error);
      }
      r := Ok(Arith(func, a1.value, a2.value, dst));
    }

    /**
     * `consumeLoop`: the `loop` `ParseLoop` reads, which keeps the counter
     * on the stack, leaves by BZ once it is zero and otherwise runs the body
     * and decrements it.
     */
    method ConsumeLoop() returns (r: Outcome<Reason>, ghost s: Stmt)
      requires Valid()
      modifies this`lookahead, this`ahead, this`start, this`end, this`program, this`relocateMap, lexer
      ensures Valid() && Agrees(ParseLoop(old(ahead), language), r, s, ahead, |old(program)| + 4 * old(ahead).Count())
      ensures r.Pass? ==> |program| <= |old(program)| + 4 * (old(ahead).Count() - ahead.Count())
      ensures labelMap == old(labelMap)
      ensures r.Pass? ==> program == old(program) + Emit(s, |old(program)|)
      ensures r.Pass? ==> relocateMap == old(relocateMap) + Relocations(s, |old(program)|)
      decreases ahead.Count(), 0
    {
      s := Loop(0, []);
      ghost var p0, m0 := program, relocateMap;
      var m := Match(LOOP);
      if m.Err? {
        r := Fail(m.error);
        return;
      }
      var name := Match(VAR);
      if name.Err? {
        r := Fail(name.error);
        return;
      }
      r := Append([PUSH]);
      if r.Fail? {
        return;
      }
      ghost var pa := program;
      var v := AsVarText(name.value);
      if v.Err? {
        r := Fail(Thrown(v.error));
        return;
      }
      r := Append([v.value]);
      if r.Fail? {
        return;
      }
      ghost var pb := program;
      var addr := |program|;
      var ifEndAddr := addr + 1;
      r := Append([BZ, -1]);
      if r.Fail? {
        return;
      }
      ghost var p1 := program;
      ghost var body;
      r, body := ConsumeEnclosed(DO);
      if r.Fail? {
        return;
      }
      ghost var p2 := program;
      r := Append([DEC, Bytecode.GOTO, addr as int32]);
      if r.Fail? {
        return;
      }
      ghost var p3 := program;
      Patch(ifEndAddr, |program| as int32);
      r := Append([POP]);
      if r.Fail? {
        return;
      }
      s := Loop(v.value, body);
      LoopCompiled(p0, m0, v.value, body, addr, ifEndAddr, pa, pb, p1, p2, p3, program, relocateMap);
    }

    /**
     * `consumeWhile`: the `while` `ParseWhile` reads, which tests the
     * register with IFEQ, runs the body and jumps back to the test.
     */
    method ConsumeWhile() returns (r: Outcome<Reason>, ghost s: Stmt)
      requires Valid()
      modifies this`lookahead, this`ahead, this`start, this`end, this`program, this`relocateMap, lexer
      ensures Valid() && Agrees(ParseWhile(old(ahead), language), r, s, ahead, |old(program)| + 4 * old(ahead).Count())
      ensures r.Pass? ==> |program| <= |old(program)| + 4 * (old(ahead).Count() - ahead.Count())
      ensures labelMap == old(labelMap)
      ensures r.Pass? ==> program == old(program) + Emit(s, |old(program)|)
      ensures r.Pass? ==> relocateMap == old(relocateMap) + Relocations(s, |old(program)|)
      decreases ahead.Count(), 0
    {
      s := While(0, []);
      ghost var p0, m0 := program, relocateMap;
      var name := ConsumeWhileHead();
      if name.Err? {
        r := Fail(name.error);
        return;
      }
      var startAddrPos := |program|;
      var endAddrPos := startAddrPos + 3;
      r := Append([IFEQ]);
      if r.Fail? {
        return;
      }
      ghost var pa := program;
      var v := AsVarText(name.value);
      if v.Err? {
        r := Fail(Thrown(v.error));
        return;
      }
      r := Append([v.value, 0, -1]);
      if r.Fail? {
        return;
      }
      ghost var p1 := program;
      ghost var body;
      r, body := ConsumeEnclosed(DO);
      if r.Fail? {
        return;
      }
      ghost var p2 := program;
      r := Append([Bytecode.GOTO, startAddrPos as int32]);
      if r.Fail? {
        return;
      }
      ghost var p3 := program;
      Patch(endAddrPos, |program| as int32);
      r := Append([NOP]);
      if r.Fail? {
        return;
      }
      s := While(v.value, body);
      WhileCompiled(p0, m0, v.value, body, startAddrPos, endAddrPos, pa, p1, p2, p3, program, relocateMap);
    }

    /** The head `while x != 0` of `consumeWhile` that `ParseWhileHead` reads: the lexeme of `x`. */
    method ConsumeWhileHead() returns (r: Result<string, Reason>)
      requires Valid()
      modifies this`lookahead, this`ahead, this`start, this`end, lexer
      ensures Valid() && Yields(ParseWhileHead(old(ahead)), r, ahead)
      ensures program == old(program) && relocateMap == old(relocateMap) && labelMap == old(labelMap)
    {
      var m := Match(WHILE);
      if m.Err? {
        return Err(m.error);
      }
      var name := Match(VAR);
      if name.Err? {
        return Err(name.error);
      }
      var isNeq := Test(NEQ);
      if isNeq.Err? {
        return Err(isNeq.error);
      }
      if !isNeq.value {
        return Err(WhileOperator);
      }
      m := Match(NEQ);
      var num := Match(NUM);
      if num.Err? {
        return Err(num.error);
      }
      if num.value != "0" {
        return Err(WhileZero);
      }
      r := Ok(name.value);
    }

    /**
     * `consumeIf`: the `if` `ParseIf` reads, `if a cmp b then S else T end`
     * or in the GOTO language `if a = b goto n`.
     */
    method ConsumeIf() returns (r: Outcome<Reason>, ghost s: Stmt)
      requires Valid()
      modifies this`lookahead, this`ahead, this`start, this`end, this`program, this`relocateMap, lexer
      ensures Valid() && Agrees(ParseIf(old(ahead), language), r, s, ahead, |old(program)| + 4 * old(ahead).Count())
      ensures r.Pass? ==> |program| <= |old(program)| + 4 * (old(ahead).Count() - ahead.Count())
      ensures labelMap == old(labelMap)
      ensures r.Pass? ==> program == old(program) + Emit(s, |old(program)|)
      ensures r.Pass? ==> relocateMap == old(relocateMap) + Relocations(s, |old(program)|)
      decreases ahead.Count(), 1
    {
      s := IfGoto(0, 0, 0);
      var c := ConsumeCondition();
      if c.Err? {
        r := Fail(c.error);
        return;
      }
      var Condition(a1, cmp, a2) := c.value;
      var isGoto := Test(Token.GOTO);
      if isGoto.Err? {
        r := Fail(isGoto.error);
        return;
      }
      if isGoto.value && language == GotoLang {
        if cmp != Equal {
          r := Fail(GotoNeedsEqual);
          return;
        }
        r, s := ConsumeGotoTarget(a1, a2);
      } else {
        r, s := ConsumeBranches(cmp, a1, a2);
      }
    }

    /** The head `if a cmp b` of `consumeIf` that `ParseCondition` reads. */
    method ConsumeCondition() returns (r: Result<Condition, Reason>)
      requires Valid()
      modifies this`lookahead, this`ahead, this`start, this`end, lexer
      ensures Valid() && Yields(ParseCondition(old(ahead)), r, ahead)
      ensures program == old(program) && relocateMap == old(relocateMap) && labelMap == old(labelMap)
    {
      var m := Match(IF);
      if m.Err? {
        return Err(m.error);
      }
      var a1 := ConsumeExprArgument();
      if a1.Err? {
        return Err(a1.error);
      }
      var cmp: Compare;
      var isEqu := Test(EQU);
      if isEqu.Err? {
        return Err(isEqu.error);
      }
      if isEqu.value {
        var _ := Skip();
        cmp := Equal;
      } else {
        var isLte := Test(LTE);
        if isLte.value {
          var _ := Skip();
          cmp := AtMost;
        } else {
          return Err(IllegalCompare);
        }
      }
      var a2 := ConsumeExprArgument();
      if a2.Err? {
        return Err(a2.error);
      }
      r := Ok(Condition(a1.value, cmp, a2.value));
    }

    /**
     * The GOTO-IF tail of `consumeIf`: IFEQ on the two operands, then the
     * line number `ParseGotoTarget` reads, whose address is only known once
     * every line has been compiled and is therefore recorded as a site.
     */
    method ConsumeGotoTarget(a1: int32, a2: int32) returns (r: Outcome<Reason>, ghost s: Stmt)
      requires Valid() && lookahead == Some(Token.GOTO)
      modifies this`lookahead, this`ahead, this`start, this`end, this`program, this`relocateMap, lexer
      ensures Valid() && Agrees(ParseGotoTarget(old(ahead), a1, a2), r, s, ahead, |old(program)| + 4 * old(ahead).Count())
      ensures r.Pass? ==> |program| <= |old(program)| + 4 * (old(ahead).Count() - ahead.Count())
      ensures labelMap == old(labelMap)
      ensures r.Pass? ==> program == old(program) + Emit(s, |old(program)|)
      ensures r.Pass? ==> relocateMap == old(relocateMap) + Relocations(s, |old(program)|)
    {
      s := IfGoto(a1, a2, 0);
      ghost var p0, m0 := program, relocateMap;
      assert Tracks(lexer.Cursor());
      var _ := Match(Token.GOTO);
      r := Append([IFEQ, a1, a2]);
      if r.Fail? {
        return;
      }
      ghost var pa := program;
      var site := |program|;
      var text := Match(NUM);
      if text.Err? {
        r := Fail(text.error);
        return;
      }
      assert ahead.Count() + 2 <= old(ahead).Count();
      var line := ParseInt(text.value);
      if line.None? {
        r := Fail(Thrown(NumberFormat(text.value)));
        return;
      }
      RecordSite(site, line.value);
      r := Append([-1]);
      if r.Fail? {
        return;
      }
      s := IfGoto(a1, a2, line.value);
      GotoCompiled(p0, m0, a1, a2, line.value, site, pa, program, relocateMap);
    }

    /**
     * The `then S else T end` tail of `consumeIf` that `ParseBranches`
     * reads: the compare jumps to the else-part, the then-part ends with a
     * GOTO over it, and a NOP marks the end.
     */
    method ConsumeBranches(cmp: Compare, a1: int32, a2: int32) returns (r: Outcome<Reason>, ghost s: Stmt)
      requires Valid()
      modifies this`lookahead, this`ahead, this`start, this`end, this`program, this`relocateMap, lexer
      ensures Valid() && Agrees(ParseBranches(old(ahead), language, cmp, a1, a2), r, s, ahead, |old(program)| + 4 * old(ahead).Count())
      ensures r.Pass? ==> |program| <= |old(program)| + 4 * (old(ahead).Count() - ahead.Count())
      ensures labelMap == old(labelMap)
      ensures r.Pass? ==> program == old(program) + Emit(s, |old(program)|)
      ensures r.Pass? ==> relocateMap == old(relocateMap) + Relocations(s, |old(program)|)
      decreases ahead.Count(), 9
    {
      s := If(cmp, a1, a2, [], []);
      ghost var p0, m0 := program, relocateMap;
      var elseAddrPos := |program| + 3;
      r := Append([CompareOpcode(cmp), a1, a2, -1]);
      if r.Fail? {
        return;
      }
      var m := Match(THEN);
      if m.Err? {
        r := Fail(m.error);
        return;
      }
      ghost var t;
      label Then:
      r, t := ConsumeStmt();
      if r.Fail? {
        return;
      }
      ghost var e;
      r, e := ConsumeElse(elseAddrPos, p0, old@Then(program), old@Then(relocateMap), If(cmp, a1, a2, t, []));
      if r.Fail? {
        return;
      }
      s := If(cmp, a1, a2, t, e);
    }

    /**
     * The else-half of `consumeIf`, which completes the `if` statement `head`
     * begun at address `|p0|` once its head and then-part are in the list: a
     * GOTO, the else-part's address patched into `elseAddrPos`, the
     * statements between ELSE and END as `ParseEnclosed` reads them, the
     * GOTO's target patched in and a NOP.
     */
    method ConsumeElse(elseAddrPos: int, ghost p0: seq<int>, ghost p1: seq<int>, ghost m1: map<int, int32>, ghost head: Stmt)
      returns (r: Outcome<Reason>, ghost e: seq<Stmt>)
      requires Valid() && head.If? && head.elsePart == [] && elseAddrPos == |p0| + 3
      requires p1 == p0 + [CompareOpcode(head.cmp) as int, head.a1 as int, head.a2 as int, -1]
      requires program == p1 + EmitAll(head.thenPart, |p1|)
      requires relocateMap == m1 + RelocationsAll(head.thenPart, |p1|)
      modifies this`lookahead, this`ahead, this`start, this`end, this`program, this`relocateMap, lexer
      ensures Valid() && Agrees(ParseEnclosed(old(ahead), ELSE, language), r, e, ahead, |old(program)| + 4 * old(ahead).Count())
      ensures r.Pass? ==> |program| + 4 <= |old(program)| + 4 * (old(ahead).Count() - ahead.Count())
      ensures labelMap == old(labelMap)
      ensures r.Pass? ==> program == p0 + Emit(If(head.cmp, head.a1, head.a2, head.thenPart, e), |p0|)
      ensures r.Pass? ==> relocateMap == m1 + Relocations(If(head.cmp, head.a1, head.a2, head.thenPart, e), |p0|)
      decreases ahead.Count(), 8
    {
      e := [];
      ghost var p2, m2 := program, relocateMap;
      var endAddrPos := |program| + 1;
      r := Append([Bytecode.GOTO, -1]);
      if r.Fail? {
        return;
      }
      ghost var p2x := program;
      Patch(elseAddrPos, |program| as int32);
      ghost var p3 := program;
      r, e := ConsumeEnclosed(ELSE);
      if r.Fail? {
        return;
      }
      ghost var p4 := program;
      Patch(endAddrPos, |program| as int32);
      r := Append([NOP]);
      if r.Pass? {
        IfCompiled(p0, head.cmp, head.a1, head.a2, head.thenPart, e, elseAddrPos, endAddrPos, p1, p2, p2x, p3, p4, program);
        IfRecorded(p0, m1, head.cmp, head.a1, head.a2, head.thenPart, e, |p1|, |p3|, m2, relocateMap);
      }
    }

    /**
     * The three lines `match(open); consumeStmt(); match(END)` that end a
     * `loop`, a `while` and the `else` branch of an `if`.
     */
    method ConsumeEnclosed(open: Token) returns (r: Outcome<Reason>, ghost ss: seq<Stmt>)
      requires Valid() && (open == DO || open == ELSE)
      modifies this`lookahead, this`ahead, this`start, this`end, this`program, this`relocateMap, lexer
      ensures Valid() && Agrees(ParseEnclosed(old(ahead), open, language), r, ss, ahead, |old(program)| + 4 * old(ahead).Count() - 4)
      ensures r.Pass? ==> |program| + 8 <= |old(program)| + 4 * (old(ahead).Count() - ahead.Count())
      ensures labelMap == old(labelMap)
      ensures r.Pass? ==> program == old(program) + EmitAll(ss, |old(program)|)
      ensures r.Pass? ==> relocateMap == old(relocateMap) + RelocationsAll(ss, |old(program)|)
      decreases ahead.Count(), 7
    {
      ss := [];
      var m := Match(open);
      if m.Err? {
        r := Fail(m.error);
        return;
      }
      r, ss := ConsumeStmt();
      if r.Fail? {
        return;
      }
      m := Match(END);
      if m.Err? {
        r := Fail(m.error);
      }
    }

    /**
     * `consumeStmt`: the statements `ParseStmt` reads. At least one token
     * other than EOF must be left; outside the GOTO language a semicolon
     * continues the sequence.
     */
    method ConsumeStmt() returns (r: Outcome<Reason>, ghost ss: seq<Stmt>)
      requires Valid()
      modifies this`lookahead, this`ahead, this`start, this`end, this`program, this`relocateMap, lexer
      ensures Valid() && Agrees(ParseStmt(old(ahead), language), r, ss, ahead, |old(program)| + 4 * old(ahead).Count())
      ensures r.Pass? ==> |program| <= |old(program)| + 4 * (old(ahead).Count() - ahead.Count())
      ensures labelMap == old(labelMap)
      ensures r.Pass? ==> program == old(program) + EmitAll(ss, |old(program)|)
      ensures r.Pass? ==> relocateMap == old(relocateMap) + RelocationsAll(ss, |old(program)|)
      decreases ahead.Count(), 6
    {
      ss := [];
      var found := Test(EOF);
      if found.Err? {
        r := Fail(found.error);
        return;
      }
      if found.value {
        r := Fail(NoStatement);
        return;
      }
      ghost var p0, m0 := program, relocateMap;
      r, ss := ConsumeStatements();
      if r.Fail? {
        return;
      }
      if language != GotoLang {
        found := Test(SEMICOLON);
        if found.Err? {
          r := Fail(found.error);
          return;
        }
        if found.value {
          var _ := Match(SEMICOLON);
          ghost var p1, m1 := program, relocateMap;
          ghost var rest;
          r, rest := ConsumeStmt();
          if r.Fail? {
            return;
          }
          Extend(p0, m0, ss, rest, p1, m1, program, relocateMap);
          ss := ss + rest;
        }
      }
      r := Pass;
    }

    /**
     * The body of `consumeStmt`, as `ParseStatements` reads it: an
     * assignment, a LOOP, a WHILE and an IF, each only if the next token
     * starts one, so one call may compile several statements or none.
     */
    method ConsumeStatements() returns (r: Outcome<Reason>, ghost ss: seq<Stmt>)
      requires Valid()
      modifies this`lookahead, this`ahead, this`start, this`end, this`program, this`relocateMap, lexer
      ensures Valid() && Agrees(ParseStatements(old(ahead), language), r, ss, ahead, |old(program)| + 4 * old(ahead).Count())
      ensures r.Pass? ==> |program| <= |old(program)| + 4 * (old(ahead).Count() - ahead.Count())
      ensures labelMap == old(labelMap)
      ensures r.Pass? ==> program == old(program) + EmitAll(ss, |old(program)|)
      ensures r.Pass? ==> relocateMap == old(relocateMap) + RelocationsAll(ss, |old(program)|)
      decreases ahead.Count(), 5
    {
      ghost var p0, m0 := program, relocateMap;
      r, ss := ConsumeOptAssign();
      if r.Fail? {
        return;
      }
      ghost var p1, m1 := program, relocateMap;
      ghost var l;
      r, l := ConsumeOptLoop();
      if r.Fail? {
        return;
      }
      Extend(p0, m0, ss, l, p1, m1, program, relocateMap);
      ss := ss + l;
      ghost var p2, m2 := program, relocateMap;
      ghost var b;
      r, b := ConsumeBlocks();
      if r.Fail? {
        return;
      }
      Extend(p0, m0, ss, b, p2, m2, program, relocateMap);
      ss := ss + b;
    }

    /** The rest of `consumeStmt`'s body, as `ParseBlocks` reads it: a WHILE and an IF, each only if the next token starts one. */
    method ConsumeBlocks() returns (r: Outcome<Reason>, ghost ss: seq<Stmt>)
      requires Valid()
      modifies this`lookahead, this`ahead, this`start, this`end, this`program, this`relocateMap, lexer
      ensures Valid() && Agrees(ParseBlocks(old(ahead), language), r, ss, ahead, |old(program)| + 4 * old(ahead).Count())
      ensures r.Pass? ==> |program| <= |old(program)| + 4 * (old(ahead).Count() - ahead.Count())
      ensures labelMap == old(labelMap)
      ensures r.Pass? ==> program == old(program) + EmitAll(ss, |old(program)|)
      ensures r.Pass? ==> relocateMap == old(relocateMap) + RelocationsAll(ss, |old(program)|)
      decreases ahead.Count(), 4
    {
      ghost var p0, m0 := program, relocateMap;
      r, ss := ConsumeOptWhile();
      if r.Fail? {
        return;
      }
      ghost var p1, m1 := program, relocateMap;
      ghost var i;
      r, i := ConsumeOptIf();
      if r.Fail? {
        return;
      }
      Extend(p0, m0, ss, i, p1, m1, program, relocateMap);
      ss := ss + i;
    }

    /** `if (test(VAR)) consumeAssign()`, as `ParseOptAssign` reads it. */
    method ConsumeOptAssign() returns (r: Outcome<Reason>, ghost ss: seq<Stmt>)
      requires Valid()
      modifies this`lookahead, this`ahead, this`start, this`end, this`program, lexer
      ensures Valid() && Agrees(ParseOptAssign(old(ahead)), r, ss, ahead, |old(program)| + 4 * old(ahead).Count())
      ensures r.Pass? ==> |program| <= |old(program)| + 4 * (old(ahead).Count() - ahead.Count())
      ensures relocateMap == old(relocateMap) && labelMap == old(labelMap)
      ensures r.Pass? ==> program == old(program) + EmitAll(ss, |old(program)|)
      ensures r.Pass? ==> relocateMap == old(relocateMap) + RelocationsAll(ss, |old(program)|)
    {
      ss := [];
      ghost var p0, m0 := program, relocateMap;
      var found := Test(VAR);
      if found.Err? {
        r := Fail(found.error);
        return;
      }
      r := Pass;
      Nothing(p0, m0);
      if found.value {
        ghost var s;
        r, s := ConsumeAssign();
        if r.Fail? {
          return;
        }
        NoSites(m0, s, |p0|);
        ExtendOne(p0, m0, [], s, p0, m0, program, relocateMap);
        ss := [s];
      }
    }

    /** `if (test(LOOP))`, as `ParseOptLoop` reads it: a `loop` outside LOOP programs is an error. */
    method ConsumeOptLoop() returns (r: Outcome<Reason>, ghost ss: seq<Stmt>)
      requires Valid()
      modifies this`lookahead, this`ahead, this`start, this`end, this`program, this`relocateMap, lexer
      ensures Valid() && Agrees(ParseOptLoop(old(ahead), language), r, ss, ahead, |old(program)| + 4 * old(ahead).Count())
      ensures r.Pass? ==> |program| <= |old(program)| + 4 * (old(ahead).Count() - ahead.Count())
      ensures labelMap == old(labelMap)
      ensures r.Pass? ==> program == old(program) + EmitAll(ss, |old(program)|)
      ensures r.Pass? ==> relocateMap == old(relocateMap) + RelocationsAll(ss, |old(program)|)
      decreases ahead.Count(), 1
    {
      ss := [];
      ghost var p0, m0 := program, relocateMap;
      var found := Test(LOOP);
      if found.Err? {
        r := Fail(found.error);
        return;
      }
      r := Pass;
      Nothing(p0, m0);
      if found.value {
        if language != LoopLang {
          r := Fail(IllegalLoop(language));
          return;
        }
        ghost var s;
        r, s := ConsumeLoop();
        if r.Fail? {
          return;
        }
        ExtendOne(p0, m0, [], s, p0, m0, program, relocateMap);
        ss := [s];
      }
    }

    /** `if (test(WHILE))`, as `ParseOptWhile` reads it: a `while` outside WHILE programs is an error. */
    method ConsumeOptWhile() returns (r: Outcome<Reason>, ghost ss: seq<Stmt>)
      requires Valid()
      modifies this`lookahead, this`ahead, this`start, this`end, this`program, this`relocateMap, lexer
      ensures Valid() && Agrees(ParseOptWhile(old(ahead), language), r, ss, ahead, |old(program)| + 4 * old(ahead).Count())
      ensures r.Pass? ==> |program| <= |old(program)| + 4 * (old(ahead).Count() - ahead.Count())
      ensures labelMap == old(labelMap)
      ensures r.Pass? ==> program == old(program) + EmitAll(ss, |old(program)|)
      ensures r.Pass? ==> relocateMap == old(relocateMap) + RelocationsAll(ss, |old(program)|)
      decreases ahead.Count(), 1
    {
      ss := [];
      ghost var p0, m0 := program, relocateMap;
      var found := Test(WHILE);
      if found.Err? {
        r := Fail(found.error);
        return;
      }
      r := Pass;
      Nothing(p0, m0);
      if found.value {
        if language != WhileLang {
          r := Fail(IllegalWhile(language));
          return;
        }
        ghost var s;
        r, s := ConsumeWhile();
        if r.Fail? {
          return;
        }
        ExtendOne(p0, m0, [], s, p0, m0, program, relocateMap);
        ss := [s];
      }
    }

    /** `if (test(IF)) consumeIf()`, as `ParseOptIf` reads it. */
    method ConsumeOptIf() returns (r: Outcome<Reason>, ghost ss: seq<Stmt>)
      requires Valid()
      modifies this`lookahead, this`ahead, this`start, this`end, this`program, this`relocateMap, lexer
      ensures Valid() && Agrees(ParseOptIf(old(ahead), language), r, ss, ahead, |old(program)| + 4 * old(ahead).Count())
      ensures r.Pass? ==> |program| <= |old(program)| + 4 * (old(ahead).Count() - ahead.Count())
      ensures labelMap == old(labelMap)
      ensures r.Pass? ==> program == old(program) + EmitAll(ss, |old(program)|)
      ensures r.Pass? ==> relocateMap == old(relocateMap) + RelocationsAll(ss, |old(program)|)
      decreases ahead.Count(), 3
    {
      ss := [];
      ghost var p0, m0 := program, relocateMap;
      var found := Test(IF);
      if found.Err? {
        r := Fail(found.error);
        return;
      }
      r := Pass;
      Nothing(p0, m0);
      if found.value {
        ghost var s;
        r, s := ConsumeIf();
        if r.Fail? {
          return;
        }
        ExtendOne(p0, m0, [], s, p0, m0, program, relocateMap);
        ss := [s];
      }
    }

    /**
     * The GOTO half of `compile`: the numbered lines `ParseLines` reads,
     * `NUM : stmt` separated by semicolons, each number used once and
     * recorded with the address of the line's first instruction.
     */
    method CompileLines() returns (r: Outcome<Reason>, ghost lines: seq<Line>)
      requires Valid() && language == GotoLang
      requires program == [] && relocateMap == map[] && labelMap == map[]
      modifies this`lookahead, this`ahead, this`start, this`end, this`program, this`relocateMap, this`labelMap, lexer
      ensures Valid() && Agrees(ParseLines(old(ahead), []), r, lines, ahead, |old(program)| + 4 * old(ahead).Count())
      ensures r.Pass? ==> |program| <= |old(program)| + 4 * (old(ahead).Count() - ahead.Count())
      ensures r.Pass? ==> SizeAll(Flatten(lines)) == |program|
      ensures r.Pass? ==> program == EmitAll(Flatten(lines), 0) && relocateMap == RelocationsAll(Flatten(lines), 0)
      ensures r.Pass? ==> labelMap == Labels(lines)
    {
      lines := [];
      var used: set<int32> := {};
      while true
        invariant Valid() && SizeAll(Flatten(lines)) == |program|
        invariant program == EmitAll(Flatten(lines), 0) && relocateMap == RelocationsAll(Flatten(lines), 0)
        invariant labelMap == Labels(lines) && used == Numbers(lines)
        invariant ParseLines(old(ahead), []) == ParseLines(ahead, lines)
        invariant |program| <= 4 * (old(ahead).Count() - ahead.Count())
        decreases ahead.Count()
      {
        ghost var p1, m1 := program, relocateMap;
        var line;
        ghost var stmts;
        r, line, stmts := CompileLine(used);
        if r.Fail? {
          return;
        }
        used := used + {line};
        LinesAppend(lines, Line(line, stmts));
        NextLine(Flatten(lines), stmts, p1, m1, program, relocateMap);
        lines := lines + [Line(line, stmts)];
        var more;
        r, more := LineEnd();
        if r.Fail? || !more {
          return;
        }
      }
    }

    /** One numbered line of a GOTO program, as `ParseLine` reads it, with its label recorded. */
    method CompileLine(used: set<int32>) returns (r: Outcome<Reason>, line: int32, ghost stmts: seq<Stmt>)
      requires Valid() && language == GotoLang
      modifies this`lookahead, this`ahead, this`start, this`end, this`program, this`relocateMap, this`labelMap, lexer
      ensures Valid() && Agrees(ParseLine(old(ahead), used), r, Line(line, stmts), ahead, |old(program)| + 4 * old(ahead).Count())
      ensures r.Pass? ==> |program| <= |old(program)| + 4 * (old(ahead).Count() - ahead.Count())
      ensures r.Pass? ==> labelMap == old(labelMap)[line := |old(program)| as int32]
      ensures r.Pass? ==> program == old(program) + EmitAll(stmts, |old(program)|)
      ensures r.Pass? ==> relocateMap == old(relocateMap) + RelocationsAll(stmts, |old(program)|)
    {
      stmts := [];
      r, line := LineLabel(used);
      if r.Fail? {
        return;
      }
      r, stmts := ConsumeStmt();
    }

    /**
     * The label of a GOTO line, as `ParseLabel` reads it: a number that
     * parses as an `int` and is not in `used`, recorded with the address
     * the line starts at, and a colon.
     */
    method LineLabel(used: set<int32>) returns (r: Outcome<Reason>, line: int32)
      requires Valid()
      modifies this`lookahead, this`ahead, this`start, this`end, this`labelMap, lexer
      ensures Valid() && Agrees(ParseLabel(old(ahead), used), r, line, ahead, |old(program)| + 4 * old(ahead).Count())
      ensures program == old(program) && relocateMap == old(relocateMap)
      ensures r.Pass? ==> labelMap == old(labelMap)[line := |program| as int32]
    {
      line := 0;
      var found := Test(NUM);
      if found.Err? {
        return Fail(found.error), line;
      }
      if !found.value {
        return Fail(NeedsLineNumber), line;
      }
      var text := Match(NUM);
      var num := ParseInt(text.value);
      if num.None? {
        return Fail(Thrown(NumberFormat(text.value))), line;
      }
      if num.value in used {
        return Fail(LineUsed(num.value)), line;
      }
      line := num.value;
      RecordLabel(line, |program| as int32);
      var colon := Match(COLON);
      if colon.Err? {
        return Fail(colon.error), line;
      }
      r := Pass;
    }

    /**
     * What follows a GOTO line, as `ParseLineEnd` reads it: the end of the
     * program, or a semicolon and, since a program may not end with one,
     * another line.
     */
    method LineEnd() returns (r: Outcome<Reason>, more: bool)
      requires Valid()
      modifies this`lookahead, this`ahead, this`start, this`end, lexer
      ensures Valid() && Agrees(ParseLineEnd(old(ahead)), r, more, ahead, |old(program)| + 4 * old(ahead).Count())
      ensures program == old(program) && relocateMap == old(relocateMap) && labelMap == old(labelMap)
    {
      var found := Test(EOF);
      if found.Err? {
        return Fail(found.error), false;
      }
      if found.value {
        return Pass, false;
      }
      var semicolon := Match(SEMICOLON);
      if semicolon.Err? {
        return Fail(semicolon.error), false;
      }
      found := Test(EOF);
      if found.Err? {
        return Fail(found.error), false;
      }
      if found.value {
        return Fail(TrailingSemicolon), false;
      }
      r, more := Pass, true;
    }

    /**
     * The relocation loop of `compile`: every GOTO-IF site receives the
     * address of the line it names. A line number without a label makes
     * `labelMap.get` return null, which fails on unboxing.
     */
    method Relocate() returns (r: Outcome<Failure>)
      requires Valid() && forall k :: k in relocateMap ==> 0 <= k < |program|
      modifies this`program
      ensures Valid() && |program| == |old(program)|
      ensures r.Pass? <==> Linked(relocateMap, labelMap)
      ensures r.Fail? ==> r.error == NullPointer
      ensures r.Pass? ==> program == Resolve(old(program), relocateMap, labelMap)
    {
      var todo := relocateMap.Keys;
      ghost var done: set<int> := {};
      while todo != {}
        invariant Valid() && |program| == |old(program)|
        invariant forall k :: k in todo ==> 0 <= k < |program|
        invariant todo + done == relocateMap.Keys && todo !! done
        invariant forall k :: k in done ==> relocateMap[k] in labelMap
        invariant forall k :: 0 <= k < |program| ==>
          program[k] == if k in done then labelMap[relocateMap[k]] else old(program)[k]
        decreases todo
      {
        assert exists k :: k in todo && 0 <= k < |program|;
        var pos :| pos in todo;
        var line := relocateMap[pos];
        if line !in labelMap {
          return Fail(NullPointer);
        }
        Patch(pos, labelMap[line]);
        todo := todo - {pos};
        done := done + {pos};
      }
      r := Pass;
    }

    /** The array conversion at the end of `compile`. */
    method ToArray() returns (a: array<int32>)
      ensures fresh(a) && a[..] == program
    {
      a := new int32[|program|];
      var i := 0;
      while i < a.Length
        invariant 0 <= i <= a.Length == |program|
        invariant a[..i] == program[..i]
      {
        a[i] := program[i];
        i := i + 1;
      }
      assert a[..] == a[..a.Length];
    }

    /**
     * `compile` on a fresh compiler: the code `Translate` gives for the
     * tokens ahead, which is well-formed code of the language, or the
     * exception that stops it.
     */
    method Compile() returns (r: Result<array<int32>, Failure>)
      requires Valid()
      requires program == [] && relocateMap == map[] && labelMap == map[]
      modifies this`lookahead, this`ahead, this`start, this`end, this`program, this`relocateMap, this`labelMap, lexer
      ensures r.Ok? ==> fresh(r.value) && Translate(old(ahead), language) == Compiled(r.value[..])
      ensures r.Ok? ==> Code(r.value[..], 0, 0, r.value.Length, {}, Ops(language))
      ensures r.Err? ==> Rejects(old(ahead), language, r.error, start, end)
      ensures Fits(old(ahead)) && Translate(old(ahead), language).Compiled? ==> r.Ok?
    {
      ghost var st := ahead;
      if language == GotoLang {
        var linesRead;
        ghost var lines;
        linesRead, lines := CompileLines();
        LinesVerdict(st, linesRead, lines, ahead, program, relocateMap, labelMap, start, end);
        if linesRead.Fail? {
          return Err(Report(linesRead.error, start, end));
        }
        RelocationsAllWithin(Flatten(lines), 0);
        var linked := Relocate();
        if linked.Fail? {
          return Err(linked.error);
        }
      } else {
        var o;
        ghost var ss;
        o, ss := ConsumeStmt();
        StmtVerdict(st, language, o, ss, ahead, program, start, end);
        if o.Fail? {
          return Err(Report(o.error, start, end));
        }
      }
      var a := ToArray();
      r := Ok(a);
      TranslationCode(st, language);
    }
  }

  /**
   * The tool chain on program text: a fresh lexer over the text, a fresh
   * compiler over the lexer, `compile`. The result is the code `Translate`
   * gives for the lexer's token stream of the text, or an exception it
   * accounts for, with the span the compiler last recorded.
   */
  method CompileText(text: string, language: Language) returns (r: Result<array<int32>, Failure>, ghost start: int, ghost end: int)
    requires NoNul(text)
    ensures r.Ok? ==> fresh(r.value) && Translate(Lexemes(text, 0), language) == Compiled(r.value[..])
    ensures r.Err? ==> Rejects(Lexemes(text, 0), language, r.error, start, end)
    ensures Fits(Lexemes(text, 0)) && Translate(Lexemes(text, 0), language).Compiled? ==> r.Ok?
  {
    var lexer := new Lexer(text);
    var compiler := new Compiler(lexer, language);
    r := compiler.Compile();
    start, end := compiler.start, compiler.end;
  }
}
