/**
 * The code the compiler emits, as a function of what it parsed. The compiler
 * builds no syntax tree; `Stmt` is the tree its recursive descent walks, with
 * every operand already encoded as a word. `Emit(s, base)` is the word layout
 * for `s` when its first word lands at index `base` of the program, with the
 * jump targets the compiler back-patches filled in. The one target it cannot
 * fill, the line number of a GOTO-IF, is left as -1 and recorded in
 * `Relocations`.
 */
module Codegen {
  import opened Numerals
  import opened Bytecode
  import Tokens

  datatype ArithOp = Plus | Minus | Times
  datatype Compare = Equal | AtMost

  datatype Stmt =
    | Move(src: int32, dst: int32)                                  // x := a
    | Arith(op: ArithOp, a1: int32, a2: int32, dst: int32)          // x := a op b
    | Loop(counter: int32, body: seq<Stmt>)                         // loop x do S end
    | While(counter: int32, body: seq<Stmt>)                        // while x != 0 do S end
    | If(cmp: Compare, a1: int32, a2: int32, thenPart: seq<Stmt>, elsePart: seq<Stmt>)
    | IfGoto(a1: int32, a2: int32, line: int32)                     // if a = b goto n

  /** `0x2a + func` with func 0, 1, 2 for `+`, `-`, `*`. */
  function ArithOpcode(op: ArithOp): int32 {
    match op
    case Plus => ADD
    case Minus => SUB
    case Times => MUL
  }

  /** `0x42 + cmp`: the branch taken when the condition fails. */
  function CompareOpcode(cmp: Compare): int32 {
    match cmp
    case Equal => IFNEQ
    case AtMost => IFGT
  }

  function Size(s: Stmt): nat
    decreases s, 1
  {
    match s
    case Move(_, _) => 3
    case Arith(_, _, _, _) => 4
    case Loop(_, body) => 8 + SizeAll(body)
    case While(_, body) => 7 + SizeAll(body)
    case If(_, _, _, t, e) => 7 + SizeAll(t) + SizeAll(e)
    case IfGoto(_, _, _) => 4
  }

  function SizeAll(ss: seq<Stmt>): nat
    decreases ss, 0
  {
    if ss == [] then 0 else Size(ss[0]) + SizeAll(ss[1..])
  }

  /** The words for `s` placed at `base`. */
  function Emit(s: Stmt, base: int): seq<int>
    decreases s, 1
  {
    match s
    case Move(src, dst) => [MOV as int, src, dst]
    case Arith(op, a1, a2, dst) => [ArithOpcode(op) as int, a1, a2, dst]
    case Loop(c, body) =>
      var b := SizeAll(body);
      [PUSH as int, c, BZ as int, base + 7 + b] + EmitAll(body, base + 4) + [DEC as int, GOTO as int, base + 2, POP as int]
    case While(c, body) =>
      var b := SizeAll(body);
      [IFEQ as int, c, 0, base + 6 + b] + EmitAll(body, base + 4) + [GOTO as int, base, NOP as int]
    case If(cmp, a1, a2, t, e) =>
      var tb := SizeAll(t);
      var eb := SizeAll(e);
      [CompareOpcode(cmp) as int, a1, a2, base + 6 + tb] + EmitAll(t, base + 4)
        + [GOTO as int, base + 6 + tb + eb] + EmitAll(e, base + 6 + tb) + [NOP as int]
    case IfGoto(a1, a2, _) => [IFEQ as int, a1, a2, -1]
  }

  /** The words for a statement sequence placed at `base`, one after another. */
  function EmitAll(ss: seq<Stmt>, base: int): seq<int>
    decreases ss, 0
  {
    if ss == [] then [] else Emit(ss[0], base) + EmitAll(ss[1..], base + Size(ss[0]))
  }

  /** The GOTO-IF patch sites of `s` placed at `base`, each with its line number. */
  function Relocations(s: Stmt, base: int): map<int, int32>
    decreases s, 1
  {
    match s
    case Loop(_, body) => RelocationsAll(body, base + 4)
    case While(_, body) => RelocationsAll(body, base + 4)
    case If(_, _, _, t, e) => RelocationsAll(t, base + 4) + RelocationsAll(e, base + 6 + SizeAll(t))
    case IfGoto(_, _, n) => map[base + 3 := n]
    case _ => map[]
  }

  function RelocationsAll(ss: seq<Stmt>, base: int): map<int, int32>
    decreases ss, 0
  {
    if ss == [] then map[] else Relocations(ss[0], base) + RelocationsAll(ss[1..], base + Size(ss[0]))
  }

  /** `loop` only in LOOP programs, `while` only in WHILE programs, GOTO-IF only in GOTO programs. */
  predicate Allowed(s: Stmt, language: Tokens.Language)
    decreases s, 1
  {
    match s
    case Loop(_, body) => language == Tokens.LoopLang && AllowedAll(body, language)
    case While(_, body) => language == Tokens.WhileLang && AllowedAll(body, language)
    case If(_, _, _, t, e) => AllowedAll(t, language) && AllowedAll(e, language)
    case IfGoto(_, _, _) => language == Tokens.GotoLang
    case _ => true
  }

  predicate AllowedAll(ss: seq<Stmt>, language: Tokens.Language)
    decreases ss, 0
  {
    forall i :: 0 <= i < |ss| ==> Allowed(ss[i], language)
  }

  // ----- the opcodes of each language -----

  /**
   * Loops use the counter stack (PUSH, BZ, DEC, POP) and are LOOP-only;
   * IFEQ comes from `while` and GOTO-IF and never occurs in a LOOP program.
   */
  predicate LanguageOp(language: Tokens.Language, w: int) {
    && IsOpcode(w)
    && (w == PUSH || w == POP || w == DEC || w == BZ ==> language == Tokens.LoopLang)
    && (w == IFEQ ==> language != Tokens.LoopLang)
  }

  function Ops(language: Tokens.Language): set<int> {
    set w | 0 <= w < 0x100 && LanguageOp(language, w)
  }

  // ----- sizes and patch sites -----

  lemma {:induction false} EmitSize(s: Stmt, base: int)
    ensures |Emit(s, base)| == Size(s)
    decreases s, 1
  {
    match s
    case Loop(_, body) => EmitAllSize(body, base + 4);
    case While(_, body) => EmitAllSize(body, base + 4);
    case If(_, _, _, t, e) =>
      EmitAllSize(t, base + 4);
      EmitAllSize(e, base + 6 + SizeAll(t));
    case _ =>
  }

  lemma {:induction false} EmitAllSize(ss: seq<Stmt>, base: int)
    ensures |EmitAll(ss, base)| == SizeAll(ss)
    decreases ss, 0
  {
    if ss != [] {
      EmitSize(ss[0], base);
      EmitAllSize(ss[1..], base + Size(ss[0]));
    }
  }

  /** Every patch site is an operand word inside the statement's own code. */
  lemma {:induction false} RelocationsWithin(s: Stmt, base: int)
    ensures forall k :: k in Relocations(s, base) ==> base < k < base + Size(s)
    decreases s, 1
  {
    match s
    case Loop(_, body) => RelocationsAllWithin(body, base + 4);
    case While(_, body) => RelocationsAllWithin(body, base + 4);
    case If(_, _, _, t, e) =>
      RelocationsAllWithin(t, base + 4);
      RelocationsAllWithin(e, base + 6 + SizeAll(t));
    case _ =>
  }

  lemma {:induction false} RelocationsAllWithin(ss: seq<Stmt>, base: int)
    ensures forall k :: k in RelocationsAll(ss, base) ==> base < k < base + SizeAll(ss)
    decreases ss, 0
  {
    if ss != [] {
      RelocationsWithin(ss[0], base);
      RelocationsAllWithin(ss[1..], base + Size(ss[0]));
    }
  }

  // ----- emitted code is well-formed -----

  /**
   * The code of an allowed statement is a run of whole instructions of its
   * language whose jump targets all lie within the statement or at its end,
   * except for the GOTO-IF sites still to be patched.
   */
  lemma {:induction false} EmitCode(s: Stmt, a: int, c: int, language: Tokens.Language)
    requires Allowed(s, language) && c == a + Size(s)
    ensures Code(Emit(s, a), a, a, c, Relocations(s, a).Keys, Ops(language))
    decreases s, 2
  {
    var sites := Relocations(s, a).Keys;
    OpsOf(language);
    match s
    case Move(_, _) =>
      CodeInstr(Emit(s, a), a, a, c, sites, Ops(language));
    case Arith(op, _, _, _) =>
      assert ArithOpcode(op) in Ops(language) by {
        match op
        case Plus =>
        case Minus =>
        case Times =>
      }
      CodeInstr(Emit(s, a), a, a, c, sites, Ops(language));
    case IfGoto(_, _, _) =>
      CodeSiteInstr(Emit(s, a), a, a, c, sites, Ops(language));
    case Loop(_, body) =>
      LoopCode(s, a, SizeAll(body), c, language);
    case While(_, body) =>
      WhileCode(s, a, SizeAll(body), c, language);
    case If(_, _, _, t, e) =>
      IfCode(s, a, SizeAll(t), SizeAll(e), c, language);
  }

  lemma {:induction false} EmitAllCode(ss: seq<Stmt>, a: int, c: int, language: Tokens.Language)
    requires AllowedAll(ss, language) && c == a + SizeAll(ss)
    ensures Code(EmitAll(ss, a), a, a, c, RelocationsAll(ss, a).Keys, Ops(language))
    decreases ss, 2
  {
    if ss != [] {
      var sites := RelocationsAll(ss, a).Keys;
      var m := a + Size(ss[0]);
      var x, y := Emit(ss[0], a), EmitAll(ss[1..], m);
      var first := Relocations(ss[0], a).Keys;
      var rest := RelocationsAll(ss[1..], m).Keys;
      assert AllowedAll(ss[1..], language) by {
        assert forall i :: 0 <= i < |ss[1..]| ==> ss[1..][i] == ss[i + 1];
      }
      assert Allowed(ss[0], language);
      EmitSize(ss[0], a);
      EmitAllSize(ss[1..], m);
      RelocationsWithin(ss[0], a);
      RelocationsAllWithin(ss[1..], m);
      assert sites == first + rest;
      EmitCode(ss[0], a, m, language);
      CodeWiden(x, a, a, m, a, c, first, Ops(language));
      CodeSites(x, a, a, c, first, sites, Ops(language));
      EmitAllCode(ss[1..], m, c, language);
      CodeWiden(y, m, m, c, a, c, rest, Ops(language));
      CodeSites(y, m, a, c, rest, sites, Ops(language));
      CodeConcat(x, y, a, m, a, c, sites, Ops(language));
    }
  }

  /** A body's code sits inside a statement's range and keeps its sites among the statement's. */
  lemma BodyCode(ss: seq<Stmt>, b: int, c: int, lo: int, hi: int, sites: set<int>, language: Tokens.Language)
    requires AllowedAll(ss, language)
    requires c == b + SizeAll(ss) && lo <= b && c <= hi
    requires forall k :: b <= k < c ==> (k in RelocationsAll(ss, b) <==> k in sites)
    ensures Code(EmitAll(ss, b), b, lo, hi, sites, Ops(language))
    decreases ss, 3
  {
    EmitAllSize(ss, b);
    EmitAllCode(ss, b, c, language);
    CodeWiden(EmitAll(ss, b), b, b, c, lo, hi, RelocationsAll(ss, b).Keys, Ops(language));
    CodeSites(EmitAll(ss, b), b, lo, hi, RelocationsAll(ss, b).Keys, sites, Ops(language));
  }

  /** The patch sites of a `loop` or `while` are those of its body, inside the body. */
  lemma LoopSites(s: Stmt, a: int, b: int, sites: set<int>)
    requires (s.Loop? || s.While?) && b == SizeAll(s.body) && sites == Relocations(s, a).Keys
    ensures Free(sites, a, 4) && Free(sites, a + 4 + b, 4)
    ensures forall k :: a + 4 <= k < a + 4 + b ==> (k in RelocationsAll(s.body, a + 4) <==> k in sites)
  {
    RelocationsAllWithin(s.body, a + 4);
  }

  lemma {:induction false} LoopCode(s: Stmt, a: int, b: int, c: int, language: Tokens.Language)
    requires s.Loop? && language == Tokens.LoopLang && AllowedAll(s.body, language)
    requires b == SizeAll(s.body) && c == a + 8 + b
    ensures Code(Emit(s, a), a, a, c, Relocations(s, a).Keys, Ops(language))
    decreases s, 1
  {
    var sites := Relocations(s, a).Keys;
    var head: seq<int> := [PUSH as int, s.counter, BZ as int, a + 7 + b];
    var tail: seq<int> := [DEC as int, GOTO as int, a + 2, POP as int];
    OpsOf(language);
    LoopSites(s, a, b, sites);
    EmitAllSize(s.body, a + 4);
    BodyCode(s.body, a + 4, a + 4 + b, a, c, sites, language);
    LoopFrame(s.counter, EmitAll(s.body, a + 4), a, b, c, sites, Ops(language));
    LoopLayout(s, a, head, tail);
  }

  /** The counter-stack instructions of a `loop` around well-formed body code. */
  lemma LoopFrame(counter: int, body: seq<int>, a: int, b: int, c: int, sites: set<int>, ops: set<int>)
    requires |body| == b && c == a + 8 + b
    requires PUSH in ops && BZ in ops && DEC in ops && GOTO in ops && POP in ops
    requires Free(sites, a, 4) && Free(sites, a + 4 + b, 4)
    requires Code(body, a + 4, a, c, sites, ops)
    ensures Code([PUSH as int, counter, BZ as int, a + 7 + b] + body + [DEC as int, GOTO as int, a + 2, POP as int], a, a, c, sites, ops)
  {
    var i2, i4, j := a + 2, a + 4, a + 4 + b;
    var j1, j3 := j + 1, j + 3;
    var h1: seq<int>, h2: seq<int> := [PUSH as int, counter], [BZ as int, a + 7 + b];
    var t1: seq<int>, t2: seq<int>, t3: seq<int> := [DEC as int], [GOTO as int, i2], [POP as int];
    CodeInstr(h1, a, a, c, sites, ops);
    CodeInstr(h2, i2, a, c, sites, ops);
    CodeInstr(t1, j, a, c, sites, ops);
    CodeInstr(t2, j1, a, c, sites, ops);
    CodeInstr(t3, j3, a, c, sites, ops);
    CodeJoin(t1, t2, t3, j, j1, j3, a, c, sites, ops);
    CodeConcat(h1, h2, a, i2, a, c, sites, ops);
    assert h1 + h2 == [PUSH as int, counter, BZ as int, a + 7 + b];
    assert t1 + t2 + t3 == [DEC as int, GOTO as int, a + 2, POP as int];
    CodeJoin(h1 + h2, body, t1 + t2 + t3, a, i4, j, a, c, sites, ops);
  }

  lemma {:induction false} WhileCode(s: Stmt, a: int, b: int, c: int, language: Tokens.Language)
    requires s.While? && language == Tokens.WhileLang && AllowedAll(s.body, language)
    requires b == SizeAll(s.body) && c == a + 7 + b
    ensures Code(Emit(s, a), a, a, c, Relocations(s, a).Keys, Ops(language))
    decreases s, 1
  {
    var sites := Relocations(s, a).Keys;
    var head: seq<int> := [IFEQ as int, s.counter, 0, a + 6 + b];
    var tail: seq<int> := [GOTO as int, a, NOP as int];
    OpsOf(language);
    LoopSites(s, a, b, sites);
    EmitAllSize(s.body, a + 4);
    BodyCode(s.body, a + 4, a + 4 + b, a, c, sites, language);
    WhileFrame(s.counter, EmitAll(s.body, a + 4), a, b, c, sites, Ops(language));
    LoopLayout(s, a, head, tail);
  }

  /** The test and the jump back of a `while` around well-formed body code. */
  lemma WhileFrame(counter: int, body: seq<int>, a: int, b: int, c: int, sites: set<int>, ops: set<int>)
    requires |body| == b && c == a + 7 + b
    requires IFEQ in ops && GOTO in ops && NOP in ops
    requires Free(sites, a, 4) && Free(sites, a + 4 + b, 4)
    requires Code(body, a + 4, a, c, sites, ops)
    ensures Code([IFEQ as int, counter, 0, a + 6 + b] + body + [GOTO as int, a, NOP as int], a, a, c, sites, ops)
  {
    var i4, j := a + 4, a + 4 + b;
    var j2 := j + 2;
    var h: seq<int> := [IFEQ as int, counter, 0, a + 6 + b];
    var t1: seq<int>, t2: seq<int> := [GOTO as int, a], [NOP as int];
    CodeInstr(h, a, a, c, sites, ops);
    CodeInstr(t1, j, a, c, sites, ops);
    CodeInstr(t2, j2, a, c, sites, ops);
    CodeConcat(t1, t2, j, j2, a, c, sites, ops);
    assert t1 + t2 == [GOTO as int, a, NOP as int];
    CodeJoin(h, body, t1 + t2, a, i4, j, a, c, sites, ops);
  }

  /** The patch sites of an `if` are those of its branches, each inside its own branch. */
  lemma IfSites(s: Stmt, a: int, tb: int, eb: int, sites: set<int>)
    requires s.If? && tb == SizeAll(s.thenPart) && eb == SizeAll(s.elsePart) && sites == Relocations(s, a).Keys
    ensures Free(sites, a, 4) && Free(sites, a + 4 + tb, 2) && a + 6 + tb + eb !in sites
    ensures forall k :: a + 4 <= k < a + 4 + tb ==> (k in RelocationsAll(s.thenPart, a + 4) <==> k in sites)
    ensures forall k :: a + 6 + tb <= k < a + 6 + tb + eb ==> (k in RelocationsAll(s.elsePart, a + 6 + tb) <==> k in sites)
  {
    RelocationsAllWithin(s.thenPart, a + 4);
    RelocationsAllWithin(s.elsePart, a + 6 + tb);
  }

  lemma {:induction false} IfCode(s: Stmt, a: int, tb: int, eb: int, c: int, language: Tokens.Language)
    requires s.If? && AllowedAll(s.thenPart, language) && AllowedAll(s.elsePart, language)
    requires tb == SizeAll(s.thenPart) && eb == SizeAll(s.elsePart) && c == a + 7 + tb + eb
    ensures Code(Emit(s, a), a, a, c, Relocations(s, a).Keys, Ops(language))
    decreases s, 1
  {
    var sites := Relocations(s, a).Keys;
    IfBranches(s, a, tb, eb, c, sites, language);
    OpsOf(language);
    assert CompareOpcode(s.cmp) == IFNEQ || CompareOpcode(s.cmp) == IFGT;
    EmitAllSize(s.thenPart, a + 4);
    EmitAllSize(s.elsePart, a + 6 + tb);
    IfAssemble(CompareOpcode(s.cmp) as int, s.a1, s.a2, EmitAll(s.thenPart, a + 4), EmitAll(s.elsePart, a + 6 + tb), a, tb, eb, c, sites, Ops(language));
    IfLayout(s, a, tb, eb);
  }

  /** The words of an `if` around well-formed branch code are well-formed code. */
  lemma IfAssemble(op: int, a1: int, a2: int, t: seq<int>, e: seq<int>, a: int, tb: int, eb: int, c: int, sites: set<int>, ops: set<int>)
    requires |t| == tb && |e| == eb && c == a + 7 + tb + eb
    requires (op == IFNEQ || op == IFGT) && op in ops && GOTO in ops && NOP in ops
    requires Free(sites, a, 4) && Free(sites, a + 4 + tb, 2) && a + 6 + tb + eb !in sites
    requires Code(t, a + 4, a, c, sites, ops) && Code(e, a + 6 + tb, a, c, sites, ops)
    ensures Code([op, a1, a2, a + 6 + tb] + t + [GOTO as int, a + 6 + tb + eb] + e + [NOP as int], a, a, c, sites, ops)
  {
    IfFront(op, a1, a2, t, a, tb, eb, c, sites, ops);
    IfClose([op, a1, a2, a + 6 + tb] + t + [GOTO as int, a + 6 + tb + eb], e, a, a + 6 + tb, a + 6 + tb + eb, c, sites, ops);
  }

  /** Both branches of an `if` are well-formed code within the `if`, and the `if`'s own words are no sites. */
  lemma IfBranches(s: Stmt, a: int, tb: int, eb: int, c: int, sites: set<int>, language: Tokens.Language)
    requires s.If? && AllowedAll(s.thenPart, language) && AllowedAll(s.elsePart, language)
    requires tb == SizeAll(s.thenPart) && eb == SizeAll(s.elsePart) && c == a + 7 + tb + eb
    requires sites == Relocations(s, a).Keys
    ensures Free(sites, a, 4) && Free(sites, a + 4 + tb, 2) && a + 6 + tb + eb !in sites
    ensures Code(EmitAll(s.thenPart, a + 4), a + 4, a, c, sites, Ops(language))
    ensures Code(EmitAll(s.elsePart, a + 6 + tb), a + 6 + tb, a, c, sites, Ops(language))
    decreases s, 0
  {
    IfSites(s, a, tb, eb, sites);
    BodyCode(s.thenPart, a + 4, a + 4 + tb, a, c, sites, language);
    BodyCode(s.elsePart, a + 6 + tb, a + 6 + tb + eb, a, c, sites, language);
  }

  /** Code followed by the else-part and the closing NOP of an `if`. */
  lemma IfClose(front: seq<int>, e: seq<int>, a: int, k: int, m: int, c: int, sites: set<int>, ops: set<int>)
    requires k == a + |front| && m == k + |e| && m < c
    requires NOP in ops && m !in sites
    requires Code(front, a, a, c, sites, ops) && Code(e, k, a, c, sites, ops)
    ensures Code(front + e + [NOP as int], a, a, c, sites, ops)
  {
    CodeInstr([NOP as int], m, a, c, sites, ops);
    CodeJoin(front, e, [NOP as int], a, k, m, a, c, sites, ops);
  }

  /** The test, the then-part and the jump over the else-part of an `if`. */
  lemma IfFront(op: int, a1: int, a2: int, t: seq<int>, a: int, tb: int, eb: int, c: int, sites: set<int>, ops: set<int>)
    requires |t| == tb && 0 <= eb && c == a + 7 + tb + eb
    requires (op == IFNEQ || op == IFGT) && op in ops && GOTO in ops
    requires Free(sites, a, 4) && Free(sites, a + 4 + tb, 2)
    requires Code(t, a + 4, a, c, sites, ops)
    ensures Code([op, a1, a2, a + 6 + tb] + t + [GOTO as int, a + 6 + tb + eb], a, a, c, sites, ops)
  {
    var h: seq<int> := [op, a1, a2, a + 6 + tb];
    var g: seq<int> := [GOTO as int, a + 6 + tb + eb];
    CodeInstr(h, a, a, c, sites, ops);
    CodeInstr(g, a + 4 + tb, a, c, sites, ops);
    CodeJoin(h, t, g, a, a + 4, a + 4 + tb, a, c, sites, ops);
  }

  /** A `loop` or `while` lays out its head, its body right after it, then its tail. */
  lemma LoopLayout(s: Stmt, a: int, head: seq<int>, tail: seq<int>)
    requires s.Loop? ==>
      && head == [PUSH as int, s.counter, BZ as int, a + 7 + SizeAll(s.body)]
      && tail == [DEC as int, GOTO as int, a + 2, POP as int]
    requires s.While? ==>
      && head == [IFEQ as int, s.counter, 0, a + 6 + SizeAll(s.body)]
      && tail == [GOTO as int, a, NOP as int]
    requires s.Loop? || s.While?
    ensures Emit(s, a) == head + EmitAll(s.body, a + 4) + tail
  {
  }

  /** An `if` lays out its test, the then-part, a jump over the else-part, the else-part and a NOP. */
  lemma IfLayout(s: Stmt, a: int, tb: int, eb: int)
    requires s.If? && tb == SizeAll(s.thenPart) && eb == SizeAll(s.elsePart)
    ensures Emit(s, a) ==
      [CompareOpcode(s.cmp) as int, s.a1, s.a2, a + 6 + tb] + EmitAll(s.thenPart, a + 4) + [GOTO as int, a + 6 + tb + eb]
        + EmitAll(s.elsePart, a + 6 + tb) + [NOP as int]
  {
  }

  /** Which opcodes each language admits. */
  lemma OpsOf(language: Tokens.Language)
    ensures GOTO in Ops(language) && NOP in Ops(language) && IFNEQ in Ops(language) && IFGT in Ops(language)
    ensures MOV in Ops(language) && ADD in Ops(language) && SUB in Ops(language) && MUL in Ops(language)
    ensures PUSH in Ops(language) && BZ in Ops(language) && DEC in Ops(language) && POP in Ops(language) <==> language == Tokens.LoopLang
    ensures IFEQ in Ops(language) <==> language != Tokens.LoopLang
  {
  }

  // ----- statement sequences -----

  /** A sequence of one statement is laid out as that statement. */
  lemma Single(s: Stmt, a: int)
    ensures SizeAll([s]) == Size(s) && EmitAll([s], a) == Emit(s, a) && RelocationsAll([s], a) == Relocations(s, a)
  {
    assert [s][1..] == [];
  }

  /** The second part of a concatenation is laid out right after the first. */
  lemma AppendAll(xs: seq<Stmt>, ys: seq<Stmt>, a: int)
    ensures SizeAll(xs + ys) == SizeAll(xs) + SizeAll(ys)
    ensures EmitAll(xs + ys, a) == EmitAll(xs, a) + EmitAll(ys, a + SizeAll(xs))
    ensures RelocationsAll(xs + ys, a) == RelocationsAll(xs, a) + RelocationsAll(ys, a + SizeAll(xs))
  {
    SizeAppend(xs, ys);
    EmitAppend(xs, ys, a);
    RelocationsAppend(xs, ys, a);
  }

  lemma {:induction false} SizeAppend(xs: seq<Stmt>, ys: seq<Stmt>)
    ensures SizeAll(xs + ys) == SizeAll(xs) + SizeAll(ys)
    decreases |xs|
  {
    if xs == [] {
      assert xs + ys == ys;
    } else {
      assert (xs + ys)[0] == xs[0] && (xs + ys)[1..] == xs[1..] + ys;
      SizeAppend(xs[1..], ys);
    }
  }

  lemma {:induction false} EmitAppend(xs: seq<Stmt>, ys: seq<Stmt>, a: int)
    ensures EmitAll(xs + ys, a) == EmitAll(xs, a) + EmitAll(ys, a + SizeAll(xs))
    decreases |xs|
  {
    if xs == [] {
      assert xs + ys == ys;
    } else {
      var m := a + Size(xs[0]);
      assert (xs + ys)[0] == xs[0] && (xs + ys)[1..] == xs[1..] + ys;
      EmitAppend(xs[1..], ys, m);
      Associative(Emit(xs[0], a), EmitAll(xs[1..], m), EmitAll(ys, m + SizeAll(xs[1..])));
    }
  }

  lemma {:induction false} RelocationsAppend(xs: seq<Stmt>, ys: seq<Stmt>, a: int)
    ensures RelocationsAll(xs + ys, a) == RelocationsAll(xs, a) + RelocationsAll(ys, a + SizeAll(xs))
    decreases |xs|
  {
    if xs == [] {
      assert xs + ys == ys;
    } else {
      var m := a + Size(xs[0]);
      assert (xs + ys)[0] == xs[0] && (xs + ys)[1..] == xs[1..] + ys;
      var r0, rx, ry := Relocations(xs[0], a), RelocationsAll(xs[1..], m), RelocationsAll(ys, m + SizeAll(xs[1..]));
      assert a + SizeAll(xs) == m + SizeAll(xs[1..]);
      calc {
        RelocationsAll(xs + ys, a);
        r0 + RelocationsAll(xs[1..] + ys, m);
        { RelocationsAppend(xs[1..], ys, m); }
        r0 + (rx + ry);
        { MapAssociative(r0, rx, ry); }
        r0 + rx + ry;
      }
    }
  }

  lemma Associative(x: seq<int>, y: seq<int>, z: seq<int>)
    ensures x + (y + z) == x + y + z
  {
  }

  lemma MapAssociative(x: map<int, int32>, y: map<int, int32>, z: map<int, int32>)
    ensures x + (y + z) == x + y + z
  {
  }

  /** A concatenation is allowed exactly when both parts are. */
  lemma AllowedAppend(xs: seq<Stmt>, ys: seq<Stmt>, language: Tokens.Language)
    ensures AllowedAll(xs + ys, language) <==> AllowedAll(xs, language) && AllowedAll(ys, language)
  {
    if AllowedAll(xs, language) && AllowedAll(ys, language) {
      forall i | 0 <= i < |xs + ys|
        ensures Allowed((xs + ys)[i], language)
      {
        if i < |xs| {
          assert (xs + ys)[i] == xs[i];
        } else {
          assert (xs + ys)[i] == ys[i - |xs|];
        }
      }
    }
    if AllowedAll(xs + ys, language) {
      forall i | 0 <= i < |xs|
        ensures Allowed(xs[i], language)
      {
        assert (xs + ys)[i] == xs[i];
      }
      forall i | 0 <= i < |ys|
        ensures Allowed(ys[i], language)
      {
        assert (xs + ys)[|xs| + i] == ys[i];
      }
    }
  }

  /** LOOP and WHILE code has no GOTO-IF sites: nothing is left to link. */
  lemma {:induction false} NoRelocations(s: Stmt, a: int, language: Tokens.Language)
    requires Allowed(s, language) && language != Tokens.GotoLang
    ensures Relocations(s, a) == map[]
    decreases s, 1
  {
    match s
    case Loop(_, body) => NoRelocationsAll(body, a + 4, language);
    case While(_, body) => NoRelocationsAll(body, a + 4, language);
    case If(_, _, _, t, e) =>
      NoRelocationsAll(t, a + 4, language);
      NoRelocationsAll(e, a + 6 + SizeAll(t), language);
    case _ =>
  }

  lemma {:induction false} NoRelocationsAll(ss: seq<Stmt>, a: int, language: Tokens.Language)
    requires AllowedAll(ss, language) && language != Tokens.GotoLang
    ensures RelocationsAll(ss, a) == map[]
    decreases ss, 0
  {
    if ss != [] {
      assert Allowed(ss[0], language);
      assert AllowedAll(ss[1..], language) by {
        assert forall i :: 0 <= i < |ss[1..]| ==> ss[1..][i] == ss[i + 1];
      }
      NoRelocations(ss[0], a, language);
      NoRelocationsAll(ss[1..], a + Size(ss[0]), language);
    }
  }

  // ----- linking the GOTO-IF sites -----

  /** Every GOTO-IF site names a line that has a label. */
  predicate Linked(relocs: map<int, int32>, labels: map<int32, int32>) {
    forall k :: k in relocs ==> relocs[k] in labels
  }

  /** The code with every site holding the address of the line it names, and every other word as it was. */
  function Resolve(code: seq<int>, relocs: map<int, int32>, labels: map<int32, int32>): (r: seq<int>)
    requires Linked(relocs, labels)
    ensures |r| == |code|
  {
    seq(|code|, k requires 0 <= k < |code| => if k in relocs then labels[relocs[k]] as int else code[k])
  }

  /**
   * Filling every site of well-formed code with a label address inside the
   * program leaves well-formed code with no site left.
   */
  lemma {:induction false} ResolveCode(code: seq<int>, relocs: map<int, int32>, labels: map<int32, int32>, ops: set<int>)
    requires Linked(relocs, labels)
    requires forall k :: k in relocs ==> 0 <= k < |code|
    requires forall l :: l in labels ==> 0 <= labels[l] <= |code|
    requires Code(code, 0, 0, |code|, relocs.Keys, ops)
    ensures Code(Resolve(code, relocs, labels), 0, 0, |code|, {}, ops)
    decreases |relocs.Keys|
  {
    if k :| k in relocs {
      var v := labels[relocs[k]] as int;
      CodePatch(code, 0, 0, |code|, relocs.Keys, ops, k, v);
      ResolveStep(code, relocs, labels, k);
      ResolveCode(code[k := v], relocs - {k}, labels, ops);
    } else {
      CodeSites(code, 0, 0, |code|, relocs.Keys, {}, ops);
      assert Resolve(code, relocs, labels) == code;
    }
  }

  /** Filling one site first and the others afterwards fills them all. */
  lemma ResolveStep(code: seq<int>, relocs: map<int, int32>, labels: map<int32, int32>, k: int)
    requires Linked(relocs, labels) && k in relocs && 0 <= k < |code|
    ensures (relocs - {k}).Keys == relocs.Keys - {k} && |(relocs - {k}).Keys| < |relocs.Keys|
    ensures Linked(relocs - {k}, labels)
    ensures Resolve(code[k := labels[relocs[k]] as int], relocs - {k}, labels) == Resolve(code, relocs, labels)
  {
    assert (relocs - {k}).Keys == relocs.Keys - {k};
  }
}
