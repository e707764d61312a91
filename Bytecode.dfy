/**
 * The shared instruction set: opcodes, how many operand words follow each one,
 * the tagged operand encoding, and what it means for a stretch of words to be
 * well-formed code.
 */
module Bytecode {
  import opened Numerals

  const PUSH: int32 := 0x10
  const POP: int32 := 0x11
  const DEC: int32 := 0x12
  const BZ: int32 := 0x13
  const GOTO: int32 := 0x21
  const ADD: int32 := 0x2a
  const SUB: int32 := 0x2b
  const MUL: int32 := 0x2c
  const MOV: int32 := 0x2d
  const IFNEQ: int32 := 0x42
  const IFGT: int32 := 0x43
  const IFEQ: int32 := 0x44
  const NOP: int32 := 0x99

  predicate IsOpcode(w: int) {
    w == PUSH || w == POP || w == DEC || w == BZ || w == GOTO || w == ADD || w == SUB || w == MUL
    || w == MOV || w == IFNEQ || w == IFGT || w == IFEQ || w == NOP
  }

  /** The arity table: operand words after the opcode; a word that is no opcode has none. */
  function OperandCount(w: int): (n: nat)
    ensures n <= 3
    ensures !IsOpcode(w) ==> n == 0
  {
    if w == ADD || w == SUB || w == MUL || w == IFNEQ || w == IFGT || w == IFEQ then 3
    else if w == MOV then 2
    else if w == PUSH || w == BZ || w == GOTO then 1
    else 0
  }

  /** Words taken by the instruction that starts with `w`. */
  function Width(w: int): (n: nat)
    ensures 1 <= n <= 4
  {
    1 + OperandCount(w)
  }

  /** Instructions whose last operand is a jump target (a word index). */
  predicate IsBranch(w: int) {
    w == BZ || w == GOTO || w == IFNEQ || w == IFGT || w == IFEQ
  }

  lemma BranchHasTarget(w: int)
    requires IsBranch(w)
    ensures OperandCount(w) >= 1 && IsOpcode(w)
  {
  }

  // ----- tagged operands: bit 31 set is a register, clear an immediate -----

  const TAG: int := 0x8000_0000

  /** `w & 0x7fffffff` for a two's-complement `int`: the low 31 bits. */
  function Low31(w: int32): (v: nat)
    ensures v < TAG
    ensures w >= 0 ==> v == w
    ensures w < 0 ==> v == w + TAG
  {
    w % TAG
  }

  /** `(w >> 31) != 0`: bit 31 is the sign bit. */
  predicate IsRegister(w: int32) { w < 0 }

  /** `0x80000000 | (v & 0x7fffffff)`: a register operand. */
  function AsVar(v: int32): (w: int32)
    ensures IsRegister(w) && Low31(w) == Low31(v)
  {
    Low31(v) - TAG
  }

  /** `v & 0x7fffffff`: an immediate operand. */
  function AsNum(v: int32): (w: int32)
    ensures !IsRegister(w) && Low31(w) == Low31(v)
  {
    Low31(v)
  }

  /** Operand round trip: a register index or immediate in [0, 2^31) comes back with its tag. */
  lemma OperandRoundTrip(v: int32)
    requires v >= 0
    ensures IsRegister(AsVar(v)) && Low31(AsVar(v)) == v
    ensures !IsRegister(AsNum(v)) && Low31(AsNum(v)) == v
  {
  }

  /** The two encodings never collide. */
  lemma EncodingsDisjoint(v: int32, n: int32)
    ensures AsVar(v) != AsNum(n)
  {
  }

  // ----- decoding by the arity table -----

  /**
   * Reading instructions from `i` by the arity table never runs past the end:
   * every instruction's operand words lie inside `code`.
   */
  predicate Decodes(code: seq<int32>, i: nat)
    decreases |code| - i
  {
    i >= |code| || (i + Width(code[i]) <= |code| && Decodes(code, i + Width(code[i])))
  }

  /**
   * `code`, placed at word index `base` of a program, is a sequence of whole
   * instructions, each with an opcode from `ops`. Every jump target lies in
   * [lo, hi] unless its (absolute) position is one of the `sites` still
   * awaiting a patch; no other word of the code is a site.
   */
  ghost predicate Code(code: seq<int>, base: int, lo: int, hi: int, sites: set<int>, ops: set<int>)
    decreases |code|
  {
    code == [] ||
      (&& Head(code[0], if Width(code[0]) <= |code| then code[Width(code[0]) - 1] else 0, |code|, base, lo, hi, sites, ops)
       && Code(code[Width(code[0])..], base + Width(code[0]), lo, hi, sites, ops))
  }

  /**
   * The conditions on one instruction with opcode `op` and last word `last`
   * placed at `base`, with `room` words available from there.
   */
  ghost predicate Head(op: int, last: int, room: int, base: int, lo: int, hi: int, sites: set<int>, ops: set<int>) {
    && op in ops && IsOpcode(op)
    && Width(op) <= room
    && (forall k :: base <= k < base + Width(op) - 1 ==> k !in sites)
    && (!IsBranch(op) ==> base + Width(op) - 1 !in sites)
    && (IsBranch(op) && base + Width(op) - 1 !in sites ==> lo <= last <= hi)
  }

  /** None of the `n` words from `k` on (at most four: one instruction) is a site. */
  predicate Free(sites: set<int>, k: int, n: int) {
    && (n > 0 ==> k !in sites)
    && (n > 1 ==> k + 1 !in sites)
    && (n > 2 ==> k + 2 !in sites)
    && (n > 3 ==> k + 3 !in sites)
  }

  /** One instruction, none of whose words is a site. */
  lemma CodeInstr(code: seq<int>, base: int, lo: int, hi: int, sites: set<int>, ops: set<int>)
    requires 0 < |code| && |code| == Width(code[0]) && code[0] in ops && IsOpcode(code[0])
    requires Free(sites, base, |code|)
    requires IsBranch(code[0]) ==> lo <= code[|code| - 1] <= hi
    ensures Code(code, base, lo, hi, sites, ops)
  {
    assert code[|code|..] == [];
  }

  /** One branch instruction whose target word is a site, still unpatched. */
  lemma CodeSiteInstr(code: seq<int>, base: int, lo: int, hi: int, sites: set<int>, ops: set<int>)
    requires 0 < |code| && |code| == Width(code[0]) && code[0] in ops && IsBranch(code[0])
    requires Free(sites, base, |code| - 1)
    requires base + |code| - 1 in sites
    ensures Code(code, base, lo, hi, sites, ops)
  {
    assert code[|code|..] == [];
  }

  /** Code followed by the code placed right after it. */
  lemma {:induction false} CodeConcat(x: seq<int>, y: seq<int>, base: int, mid: int, lo: int, hi: int, sites: set<int>, ops: set<int>)
    requires mid == base + |x|
    requires Code(x, base, lo, hi, sites, ops) && Code(y, mid, lo, hi, sites, ops)
    ensures Code(x + y, base, lo, hi, sites, ops)
    decreases |x|
  {
    if x == [] {
      assert x + y == y;
    } else {
      var w := Width(x[0]);
      CodeConcat(x[w..], y, base + w, mid, lo, hi, sites, ops);
      CodeConcatStep(x, y, base, lo, hi, sites, ops);
    }
  }

  /** The step of `CodeConcat`: the first instruction of `x` heads `x + y` too. */
  lemma CodeConcatStep(x: seq<int>, y: seq<int>, base: int, lo: int, hi: int, sites: set<int>, ops: set<int>)
    requires x != [] && Code(x, base, lo, hi, sites, ops)
    requires Code(x[Width(x[0])..] + y, base + Width(x[0]), lo, hi, sites, ops)
    ensures Code(x + y, base, lo, hi, sites, ops)
  {
    var w := Width(x[0]);
    var z := x + y;
    assert z[0] == x[0];
    assert z[w - 1] == x[w - 1];
    assert z[w..] == x[w..] + y;
    assert Head(x[0], x[w - 1], |x|, base, lo, hi, sites, ops);
  }

  /** Three pieces of code placed one after another. */
  lemma CodeJoin(x: seq<int>, y: seq<int>, z: seq<int>, base: int, m1: int, m2: int, lo: int, hi: int, sites: set<int>, ops: set<int>)
    requires m1 == base + |x| && m2 == m1 + |y|
    requires Code(x, base, lo, hi, sites, ops) && Code(y, m1, lo, hi, sites, ops) && Code(z, m2, lo, hi, sites, ops)
    ensures Code(x + y + z, base, lo, hi, sites, ops)
  {
    CodeConcat(x, y, base, m1, lo, hi, sites, ops);
    CodeConcat(x + y, z, base, m2, lo, hi, sites, ops);
  }

  /** Widening the target range keeps code well-formed. */
  lemma {:induction false} CodeWiden(code: seq<int>, base: int, lo: int, hi: int, lo': int, hi': int, sites: set<int>, ops: set<int>)
    requires Code(code, base, lo, hi, sites, ops)
    requires lo' <= lo && hi <= hi'
    ensures Code(code, base, lo', hi', sites, ops)
    decreases |code|
  {
    if code != [] {
      var w := Width(code[0]);
      CodeWiden(code[w..], base + w, lo, hi, lo', hi', sites, ops);
    }
  }

  /** Only the sites among the code's own positions matter. */
  lemma {:induction false} CodeSites(code: seq<int>, base: int, lo: int, hi: int, sites: set<int>, sites': set<int>, ops: set<int>)
    requires Code(code, base, lo, hi, sites, ops)
    requires forall k :: base <= k < base + |code| ==> (k in sites <==> k in sites')
    ensures Code(code, base, lo, hi, sites', ops)
    decreases |code|
  {
    if code != [] {
      var w := Width(code[0]);
      CodeSites(code[w..], base + w, lo, hi, sites, sites', ops);
    }
  }

  /** Patching a site with an address in range resolves it and keeps the code well-formed. */
  lemma {:induction false} CodePatch(code: seq<int>, base: int, lo: int, hi: int, sites: set<int>, ops: set<int>, site: int, v: int)
    requires Code(code, base, lo, hi, sites, ops)
    requires site in sites && base <= site < base + |code| && lo <= v <= hi
    ensures Code(code[site - base := v], base, lo, hi, sites - {site}, ops)
    decreases |code|
  {
    var w := Width(code[0]);
    if site < base + w {
      CodeSites(code[w..], base + w, lo, hi, sites, sites - {site}, ops);
      CodePatchHere(code, base, lo, hi, sites, ops, site, v);
    } else {
      CodePatch(code[w..], base + w, lo, hi, sites, ops, site, v);
      CodePatchStep(code, base, lo, hi, sites, ops, site, v);
    }
  }

  /** A site in the first instruction is its jump target; patching it leaves the rest alone. */
  lemma CodePatchHere(code: seq<int>, base: int, lo: int, hi: int, sites: set<int>, ops: set<int>, site: int, v: int)
    requires code != [] && Code(code, base, lo, hi, sites, ops)
    requires site in sites && base <= site < base + Width(code[0]) && lo <= v <= hi
    requires Code(code[Width(code[0])..], base + Width(code[0]), lo, hi, sites - {site}, ops)
    ensures Code(code[site - base := v], base, lo, hi, sites - {site}, ops)
  {
    var q := code[site - base := v];
    var w := Width(code[0]);
    assert q[0] == code[0];
    assert Head(code[0], code[w - 1], |code|, base, lo, hi, sites, ops);
    assert site == base + w - 1;
    assert q[w - 1] == v;
    assert q[w..] == code[w..];
  }

  /** A site past the first instruction: the first instruction heads the patched code unchanged. */
  lemma CodePatchStep(code: seq<int>, base: int, lo: int, hi: int, sites: set<int>, ops: set<int>, site: int, v: int)
    requires code != [] && Code(code, base, lo, hi, sites, ops)
    requires site in sites && base + Width(code[0]) <= site < base + |code|
    requires Code(code[Width(code[0])..][site - base - Width(code[0]) := v], base + Width(code[0]), lo, hi, sites - {site}, ops)
    ensures Code(code[site - base := v], base, lo, hi, sites - {site}, ops)
  {
    var q := code[site - base := v];
    var w := Width(code[0]);
    assert q[0] == code[0];
    assert Head(code[0], code[w - 1], |code|, base, lo, hi, sites, ops);
    assert q[w - 1] == code[w - 1];
    assert q[w..] == code[w..][site - base - w := v];
  }

  /** Well-formed code at `i` decodes by the arity table from `i` on. */
  lemma {:induction false} CodeDecodes(p: seq<int32>, i: int, lo: int, hi: int, sites: set<int>, ops: set<int>)
    requires 0 <= i <= |p| && Code(p[i..], i, lo, hi, sites, ops)
    ensures Decodes(p, i)
    decreases |p| - i
  {
    if i < |p| {
      var w := Width(p[i]);
      assert p[i..][0] == p[i];
      assert p[i..][w..] == p[i + w..];
      CodeDecodes(p, i + w, lo, hi, sites, ops);
    }
  }

  /** `i` is the start of an instruction when decoding from `a`. */
  ghost predicate Boundary(p: seq<int>, a: int, i: int)
    decreases |p| - a
  {
    0 <= a <= |p| && (a == i || (a < i && a < |p| && Boundary(p, a + Width(p[a]), i)))
  }

  /**
   * In fully patched well-formed code every instruction start holds an
   * opcode from `ops` whose operands fit, and every branch there targets [lo, hi].
   */
  lemma {:induction false} CodeTargets(p: seq<int>, a: int, lo: int, hi: int, ops: set<int>, i: int)
    requires 0 <= a <= |p| && Code(p[a..], a, lo, hi, {}, ops) && Boundary(p, a, i) && i < |p|
    ensures p[i] in ops && IsOpcode(p[i]) && i + Width(p[i]) <= |p|
    ensures IsBranch(p[i]) ==> lo <= p[i + Width(p[i]) - 1] <= hi
    decreases |p| - a
  {
    var w := Width(p[a]);
    assert p[a..][0] == p[a];
    assert forall k :: 0 <= k < w && a + k < |p| ==> p[a..][k] == p[a + k];
    if a != i {
      assert p[a..][w..] == p[a + w..];
      CodeTargets(p, a + w, lo, hi, ops, i);
    }
  }
}
