/**
 * The decompiler: one address-prefixed line per instruction, decoded with the
 * arity table. Operands are read with `bytecode[++i]` and no bounds check, so
 * an instruction cut off by the end of the array makes the whole print fail
 * (Java's ArrayIndexOutOfBoundsException); that failure is `None` here.
 */
module PrettyPrint {
  import opened Results
  import opened Numerals
  import opened Bytecode
  import opened Lines

  /** A register operand prints as `x<n>`, an immediate as its decimal value. */
  function FormatNumReg(x: int32): string
  {
    if IsRegister(x) then "x" + NatToString(Low31(x)) else NatToString(Low31(x))
  }

  /** The `x` prefix appears exactly on register operands, followed by the low 31 bits. */
  lemma FormatNumRegShape(x: int32)
    ensures |FormatNumReg(x)| > 0
    ensures FormatNumReg(x)[0] == 'x' <==> IsRegister(x)
    ensures IsRegister(x) ==> FormatNumReg(x)[1..] == NatToString(Low31(x))
    ensures !IsRegister(x) ==> FormatNumReg(x) == NatToString(x)
  {
    NatToStringDigits(Low31(x));
    assert IsDigit(NatToString(Low31(x))[0]);
  }

  /** What the compiler encodes, the decompiler prints back. */
  lemma FormatEncoded(v: int32)
    requires v >= 0
    ensures FormatNumReg(AsVar(v)) == "x" + NatToString(v)
    ensures FormatNumReg(AsNum(v)) == NatToString(v)
  {
  }

  function ArithName(op: int32): string
  {
    if op == ADD then "add " else if op == SUB then "sub " else "mul "
  }

  function CompareName(op: int32): string
  {
    if op == IFNEQ then "ifneq " else if op == IFGT then "ifgt " else "ifeq "
  }

  /** `a1, a2, dst` of an arithmetic instruction. */
  function ArithOperands(x: int32, y: int32, z: int32): string
  {
    FormatNumReg(x) + ", " + FormatNumReg(y) + ", " + FormatNumReg(z)
  }

  /** `a1, a2, #addr` of a conditional branch: the address prints raw. */
  function CompareOperands(x: int32, y: int32, t: int32): string
  {
    FormatNumReg(x) + ", " + FormatNumReg(y) + ", #" + IntToString(t)
  }

  /** An instruction as the decompiler reads it: the opcode word and its operands. */
  datatype Instruction =
    | Arith(op: int32, a: int32, b: int32, dst: int32)
    | Move(src: int32, dst: int32)
    | Push(reg: int32)
    | Pop
    | Dec
    | Bz(target: int32)
    | Nop
    | Goto(target: int32)
    | Compare(cmp: int32, x: int32, y: int32, target: int32)
    | Unknown

  /** The instruction at `i`, its operands taken from the words that follow. */
  function DecodeAt(code: seq<int32>, i: nat): (ins: Instruction)
    requires i < |code| && i + Width(code[i]) <= |code|
    ensures ins.Unknown? <==> !IsOpcode(code[i])
  {
    var op := code[i];
    if op == ADD || op == SUB || op == MUL then Arith(op, code[i + 1], code[i + 2], code[i + 3])
    else if op == MOV then Move(code[i + 1], code[i + 2])
    else if op == PUSH then Push(code[i + 1])
    else if op == POP then Pop
    else if op == DEC then Dec
    else if op == BZ then Bz(code[i + 1])
    else if op == NOP then Nop
    else if op == GOTO then Goto(code[i + 1])
    else if op == IFNEQ || op == IFGT || op == IFEQ then Compare(op, code[i + 1], code[i + 2], code[i + 3])
    else Unknown
  }

  /** The text after `"%3d: "`: mnemonic and operands. */
  function Text(ins: Instruction): string
  {
    match ins
    case Arith(op, a, b, dst) => ArithName(op) + ArithOperands(a, b, dst)
    case Move(src, dst) => "mov " + FormatNumReg(src) + ", " + FormatNumReg(dst)
    case Push(reg) => "push x" + NatToString(Low31(reg))
    case Pop => "pop"
    case Dec => "dec"
    case Bz(t) => "bz #" + IntToString(t)
    case Nop => "nop"
    case Goto(t) => "goto #" + IntToString(t)
    case Compare(op, a, b, t) => CompareName(op) + CompareOperands(a, b, t)
    case Unknown => "<Unkown opcode>"
  }

  /** `"%3d: " + mnemonic + "\n"`: one line of the listing. */
  function Line(i: nat, text: string): string
  {
    PadLeft(NatToString(i), 3) + ": " + text + "\n"
  }

  /** The line for the instruction at `a`; empty where no whole instruction starts. */
  function InstructionLine(code: seq<int32>, a: nat): string
  {
    if a < |code| && a + Width(code[a]) <= |code| then Line(a, Text(DecodeAt(code, a))) else ""
  }

  /**
   * The walk over the words by the arity table from `i` on, rendering each
   * instruction with `render`; None if an instruction is cut off by the end.
   */
  function Layout(code: seq<int32>, i: nat, render: (seq<int32>, nat) -> string): Option<string>
    decreases |code| - i
  {
    if i >= |code| then Some("")
    else if i + Width(code[i]) > |code| then None
    else
      match Layout(code, i + Width(code[i]), render)
      case None => None
      case Some(rest) => Some(render(code, i) + rest)
  }

  function Prepend(s: string, o: Option<string>): Option<string>
  {
    match o
    case None => None
    case Some(t) => Some(s + t)
  }

  /** The whole listing: a header, then the instruction lines. */
  function Listing(code: seq<int32>): Option<string>
  {
    Prepend("Code:\n", Layout(code, 0, InstructionLine))
  }

  /** The decompiler fails exactly on code that does not decode into whole instructions. */
  lemma {:induction false} LayoutDefined(code: seq<int32>, i: nat, render: (seq<int32>, nat) -> string)
    ensures Layout(code, i, render).Some? <==> Decodes(code, i)
    decreases |code| - i
  {
    if i < |code| && i + Width(code[i]) <= |code| {
      LayoutDefined(code, i + Width(code[i]), render);
    }
  }

  lemma ListingDefined(code: seq<int32>)
    ensures Listing(code).Some? <==> Decodes(code, 0)
  {
    LayoutDefined(code, 0, InstructionLine);
  }

  /** Number of instructions the arity table finds from `i`. */
  function InstructionCount(code: seq<int32>, i: nat): nat
    decreases |code| - i
  {
    if i >= |code| then 0 else 1 + InstructionCount(code, i + Width(code[i]))
  }

  predicate SingleLine(s: string) { '\n' !in s }

  lemma NatSingleLine(n: nat)
    ensures SingleLine(NatToString(n))
  {
  }

  lemma IntSingleLine(w: int)
    ensures SingleLine(IntToString(w))
  {
    if w < 0 { NatSingleLine(-w); } else { NatSingleLine(w); }
  }

  lemma FormatSingleLine(x: int32)
    ensures SingleLine(FormatNumReg(x))
  {
    NatSingleLine(Low31(x));
  }

  lemma PadSingleLine(s: string, width: nat)
    requires SingleLine(s)
    ensures SingleLine(PadLeft(s, width))
  {
    PadLeftShape(s, width);
    var r := PadLeft(s, width);
    forall k | 0 <= k < |r|
      ensures r[k] != '\n'
    {
      if k >= |r| - |s| {
        assert r[k] == r[|r| - |s|..][k - (|r| - |s|)];
      }
    }
  }

  lemma ArithSingleLine(op: int32, x: int32, y: int32, z: int32)
    ensures SingleLine(ArithName(op) + ArithOperands(x, y, z))
  {
    FormatSingleLine(x);
    FormatSingleLine(y);
    FormatSingleLine(z);
  }

  lemma MoveSingleLine(x: int32, y: int32)
    ensures SingleLine("mov " + FormatNumReg(x) + ", " + FormatNumReg(y))
  {
    FormatSingleLine(x);
    FormatSingleLine(y);
  }

  lemma CompareSingleLine(op: int32, x: int32, y: int32, t: int32)
    ensures SingleLine(CompareName(op) + CompareOperands(x, y, t))
  {
    FormatSingleLine(x);
    FormatSingleLine(y);
    IntSingleLine(t);
  }

  /** No mnemonic breaks its line. */
  lemma TextSingleLine(ins: Instruction)
    ensures SingleLine(Text(ins))
  {
    match ins
    case Arith(op, a, b, dst) => ArithSingleLine(op, a, b, dst);
    case Move(src, dst) => MoveSingleLine(src, dst);
    case Push(reg) => NatSingleLine(Low31(reg));
    case Bz(t) => IntSingleLine(t);
    case Goto(t) => IntSingleLine(t);
    case Compare(op, a, b, t) => CompareSingleLine(op, a, b, t);
    case Pop =>
    case Dec =>
    case Nop =>
    case Unknown =>
  }

  lemma {:induction false} SingleLineHasNone(s: string)
    requires SingleLine(s)
    ensures Newlines(s) == 0
  {
    if s != [] {
      assert s[0] in s;
      SingleLineHasNone(s[1..]);
    }
  }

  /** An instruction line ends in the only newline it holds. */
  lemma LineHasOneNewline(i: nat, text: string)
    requires SingleLine(text)
    ensures Newlines(Line(i, text)) == 1
  {
    var pad := PadLeft(NatToString(i), 3);
    NatSingleLine(i);
    PadSingleLine(NatToString(i), 3);
    SingleLineHasNone(pad);
    SingleLineHasNone(text);
    NewlinesConcat(pad, ": ");
    NewlinesConcat(pad + ": ", text);
    NewlinesConcat(pad + ": " + text, "\n");
  }

  lemma InstructionLinesOneNewline(code: seq<int32>)
    ensures forall a: nat :: a < |code| && a + Width(code[a]) <= |code| ==> Newlines(InstructionLine(code, a)) == 1
  {
    forall a: nat | a < |code| && a + Width(code[a]) <= |code|
      ensures Newlines(InstructionLine(code, a)) == 1
    {
      TextSingleLine(DecodeAt(code, a));
      LineHasOneNewline(a, Text(DecodeAt(code, a)));
    }
  }

  /** A walk that renders every instruction as one line has one line per instruction. */
  lemma {:induction false} LayoutLines(code: seq<int32>, i: nat, render: (seq<int32>, nat) -> string)
    requires Layout(code, i, render).Some?
    requires forall a: nat :: a < |code| && a + Width(code[a]) <= |code| ==> Newlines(render(code, a)) == 1
    ensures Newlines(Layout(code, i, render).value) == InstructionCount(code, i)
    decreases |code| - i
  {
    if i < |code| {
      var j := i + Width(code[i]);
      LayoutLines(code, j, render);
      NewlinesConcat(render(code, i), Layout(code, j, render).value);
    }
  }

  /** The listing has the header line and one line per decoded instruction. */
  lemma ListingLines(code: seq<int32>)
    requires Listing(code).Some?
    ensures Newlines(Listing(code).value) == 1 + InstructionCount(code, 0)
  {
    InstructionLinesOneNewline(code);
    LayoutLines(code, 0, InstructionLine);
    NewlinesConcat("Code:\n", Layout(code, 0, InstructionLine).value);
  }

  lemma PrependTwice(a: string, b: string, o: Option<string>)
    ensures Prepend(a, Prepend(b, o)) == Prepend(a + b, o)
  {
    if o.Some? {
      assert a + (b + o.value) == a + b + o.value;
    }
  }

  /** One step of the walk: the line of the instruction at `i`, then the rest. */
  lemma LayoutStep(code: seq<int32>, i: nat, buf: string, render: (seq<int32>, nat) -> string)
    requires i < |code| && i + Width(code[i]) <= |code|
    ensures Prepend(buf, Layout(code, i, render))
         == Prepend(buf + render(code, i), Layout(code, i + Width(code[i]), render))
  {
    PrependTwice(buf, render(code, i), Layout(code, i + Width(code[i]), render));
  }

  /** The line of the instruction at `i`, its operands read from the array. */
  method FormatInstruction(bytecode: array<int32>, i: nat) returns (line: string)
    requires i < bytecode.Length && i + Width(bytecode[i]) <= bytecode.Length
    ensures line == InstructionLine(bytecode[..], i)
  {
    var op := bytecode[i];
    var text;
    if op == ADD || op == SUB || op == MUL {
      text := ArithName(op) + ArithOperands(bytecode[i + 1], bytecode[i + 2], bytecode[i + 3]);
    } else if op == MOV {
      text := "mov " + FormatNumReg(bytecode[i + 1]) + ", " + FormatNumReg(bytecode[i + 2]);
    } else if op == PUSH {
      text := "push x" + NatToString(Low31(bytecode[i + 1]));
    } else if op == POP {
      text := "pop";
    } else if op == DEC {
      text := "dec";
    } else if op == BZ {
      text := "bz #" + IntToString(bytecode[i + 1]);
    } else if op == NOP {
      text := "nop";
    } else if op == GOTO {
      text := "goto #" + IntToString(bytecode[i + 1]);
    } else if op == IFNEQ || op == IFGT || op == IFEQ {
      text := CompareName(op) + CompareOperands(bytecode[i + 1], bytecode[i + 2], bytecode[i + 3]);
    } else {
      text := "<Unkown opcode>";
    }
    assert text == Text(DecodeAt(bytecode[..], i));
    line := PadLeft(NatToString(i), 3) + ": " + text + "\n";
  }

  /**
   * `PrettyPrint.print`: writes the address and ": ", then the mnemonic with
   * its operands, then a line break, and moves past the operands.
   */
  method Print(bytecode: array<int32>) returns (r: Option<string>)
    ensures r == Listing(bytecode[..])
  {
    ghost var code := bytecode[..];
    var buf := "Code:\n";
    var i := 0;
    while i < bytecode.Length
      invariant 0 <= i <= bytecode.Length
      invariant Listing(code) == Prepend(buf, Layout(code, i, InstructionLine))
    {
      var op := bytecode[i];
      if i + OperandCount(op) >= bytecode.Length {
        // reading the last operand of this instruction runs past the array
        assert Layout(code, i, InstructionLine) == None;
        return None;
      }
      var line := FormatInstruction(bytecode, i);
      LayoutStep(code, i, buf, InstructionLine);
      buf := buf + line;
      i := i + Width(op);
    }
    assert buf + "" == buf;
    r := Some(buf);
  }
}
