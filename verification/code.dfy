/** Bytecode instruction encoding: the opcode table, `Make`, `Lookup`,
    `ReadOperands` and the disassembly `Instructions.String`, as pinned down
    byte for byte by code/code_test.go. Only the four opcodes those tests use
    are defined; their numeric byte values live in code/code.go, which is not
    part of this model, so the values below only need to be distinct. */
module Code {
  import opened Wrappers
  import Decimal

  type Byte = b: int | 0 <= b < 256

  /** An instruction stream: opcode bytes each followed by their operands. */
  type Instructions = seq<Byte>

  /** An opcode is the byte that starts an instruction. */
  type Opcode = Byte

  const OpConstant: Opcode := 0
  const OpAdd: Opcode := 1
  const OpGetLocal: Opcode := 24
  const OpClosure: Opcode := 27

  /** Operands are one or two bytes wide. */
  type OperandWidth = w: nat | w == 1 || w == 2 witness 1

  /** The name and operand widths (in bytes) of an opcode. */
  datatype Definition = Definition(name: string, operandWidths: seq<OperandWidth>)

  /** The opcode table: the mnemonic and operand widths of every defined opcode. */
  const Definitions: map<Opcode, Definition> := map[
    OpConstant := Definition("OpConstant", [2]),
    OpAdd := Definition("OpAdd", []),
    OpGetLocal := Definition("OpGetLocal", [1]),
    OpClosure := Definition("OpClosure", [2, 1])]

  datatype LookupError = UndefinedOpcode(b: Byte)

  /** The definition registered for an opcode byte, or an error for a byte
      that no opcode uses. */
  function Lookup(b: Byte): (r: Result<Definition, LookupError>)
    ensures r.Success? <==> b in Definitions
    ensures r.Success? ==> r.value == Definitions[b]
    ensures r.Failure? ==> r.error == UndefinedOpcode(b)
  {
    if b in Definitions then Success(Definitions[b]) else Failure(UndefinedOpcode(b))
  }

  /** Exactly the four opcode bytes are defined, each with its mnemonic and
      widths; every other byte is reported as undefined. */
  lemma LookupTable(b: Byte)
    ensures Lookup(b).Success? <==> b == OpConstant || b == OpAdd || b == OpGetLocal || b == OpClosure
    ensures Lookup(OpConstant) == Success(Definition("OpConstant", [2]))
    ensures Lookup(OpAdd) == Success(Definition("OpAdd", []))
    ensures Lookup(OpGetLocal) == Success(Definition("OpGetLocal", [1]))
    ensures Lookup(OpClosure) == Success(Definition("OpClosure", [2, 1]))
  {
  }

  function Sum(ws: seq<OperandWidth>): nat {
    if ws == [] then 0 else ws[0] + Sum(ws[1..])
  }

  /** One more than the largest value an operand of width `w` holds. */
  function Limit(w: OperandWidth): nat {
    if w == 1 then 256 else 65536
  }

  /** One operand in `w` bytes, most significant first: the byte `uint8(v)`, or
      `uint16(v)` as written by a big-endian `PutUint16`. Euclidean `/` and
      `%` make a negative `v` come out in two's complement, as Go's
      conversions to unsigned integers do. */
  function PutOperand(v: int, w: OperandWidth): (bs: seq<Byte>)
    ensures |bs| == w
  {
    if w == 1 then [v % 256] else [v / 256 % 256, v % 256]
  }

  /** `ReadUint8` and `ReadUint16` at byte `pos` of `ins`: the big-endian value
      of the `w` bytes found there. */
  function ReadOperandAt(ins: seq<Byte>, pos: nat, w: OperandWidth): (v: nat)
    requires pos + w <= |ins|
    ensures v < Limit(w)
  {
    if w == 1 then ins[pos] else (ins[pos] as nat) * 256 + ins[pos + 1] as nat
  }

  function EncodeOperands(operands: seq<int>, widths: seq<OperandWidth>): (bs: seq<Byte>)
    requires |operands| == |widths|
    ensures |bs| == Sum(widths)
  {
    if widths == [] then [] else PutOperand(operands[0], widths[0]) + EncodeOperands(operands[1..], widths[1..])
  }

  /** `Make(op, operands...)`: the opcode byte followed by each operand in its
      declared width, big-endian. An undefined opcode or a wrong operand count
      is a programming error of the caller, so it is excluded rather than
      given a result. */
  function Make(op: Opcode, operands: seq<int>): (ins: Instructions)
    requires op in Definitions && |operands| == |Definitions[op].operandWidths|
    ensures |ins| == 1 + Sum(Definitions[op].operandWidths)
    ensures ins[0] == op
  {
    [op] + EncodeOperands(operands, Definitions[op].operandWidths)
  }

  /** The operands of the given widths stored one after another from byte
      `pos` of `ins` on. */
  function OperandsAt(widths: seq<OperandWidth>, ins: seq<Byte>, pos: nat): (vs: seq<nat>)
    requires pos + Sum(widths) <= |ins|
    ensures |vs| == |widths|
  {
    if widths == [] then []
    else [ReadOperandAt(ins, pos, widths[0])] + OperandsAt(widths[1..], ins, pos + widths[0])
  }

  /** `ReadOperands(def, ins)`: decodes the declared widths in order from the
      start of `ins` and reports how many bytes that took. The Go code indexes
      past the end of a short buffer, so the caller must supply enough bytes. */
  function ReadOperands(def: Definition, ins: seq<Byte>): (r: (seq<nat>, nat))
    requires Sum(def.operandWidths) <= |ins|
    ensures |r.0| == |def.operandWidths| && r.1 == Sum(def.operandWidths)
  {
    (OperandsAt(def.operandWidths, ins, 0), Sum(def.operandWidths))
  }

  /** Every operand fits its declared width. */
  predicate Fits(operands: seq<int>, widths: seq<OperandWidth>)
    ensures Fits(operands, widths) ==> |operands| == |widths|
  {
    if widths == [] then operands == []
    else operands != [] && 0 <= operands[0] < Limit(widths[0]) && Fits(operands[1..], widths[1..])
  }

  /** The bytes `bs` sit in `ins` from byte `pos` on. */
  predicate Stored(ins: seq<Byte>, pos: nat, bs: seq<Byte>) {
    pos + |bs| <= |ins| && forall j :: 0 <= j < |bs| ==> ins[pos + j] == bs[j]
  }

  lemma StoredSplit(ins: seq<Byte>, pos: nat, a: seq<Byte>, b: seq<Byte>)
    requires Stored(ins, pos, a + b)
    ensures Stored(ins, pos, a) && Stored(ins, pos + |a|, b)
  {
    forall j | 0 <= j < |a|
      ensures ins[pos + j] == a[j]
    {
      assert (a + b)[j] == a[j];
    }
    forall j | 0 <= j < |b|
      ensures ins[pos + |a| + j] == b[j]
    {
      assert (a + b)[|a| + j] == b[j];
    }
  }

  /** Reading back the bytes `PutOperand` wrote gives the value, when it fits. */
  lemma ReadPutOperand(v: int, w: OperandWidth, ins: seq<Byte>, pos: nat)
    requires 0 <= v < Limit(w) && Stored(ins, pos, PutOperand(v, w))
    ensures ReadOperandAt(ins, pos, w) == v
  {
    assert ins[pos] == PutOperand(v, w)[0];
    if w == 2 {
      assert ins[pos + 1] == PutOperand(v, w)[1];
    }
  }

  /** The first operand reads back from where it was stored, and the rest of
      the encoding follows right after it. */
  lemma DecodeFirst(operands: seq<int>, widths: seq<OperandWidth>, ins: seq<Byte>, pos: nat)
    requires widths != [] && Fits(operands, widths) && Stored(ins, pos, EncodeOperands(operands, widths))
    ensures Fits(operands[1..], widths[1..])
    ensures ReadOperandAt(ins, pos, widths[0]) == operands[0]
    ensures Stored(ins, pos + widths[0], EncodeOperands(operands[1..], widths[1..]))
  {
    var head := PutOperand(operands[0], widths[0]);
    StoredSplit(ins, pos, head, EncodeOperands(operands[1..], widths[1..]));
    ReadPutOperand(operands[0], widths[0], ins, pos);
  }

  /** Decoding inverts encoding wherever the encoded operands are stored. */
  lemma {:induction false} DecodeEncode(operands: seq<int>, widths: seq<OperandWidth>, ins: seq<Byte>, pos: nat)
    requires Fits(operands, widths) && Stored(ins, pos, EncodeOperands(operands, widths))
    ensures OperandsAt(widths, ins, pos) == operands
    decreases |widths|
  {
    if widths != [] {
      DecodeFirst(operands, widths, ins, pos);
      DecodeEncode(operands[1..], widths[1..], ins, pos + widths[0]);
      ConsTail(operands);
    }
  }

  lemma ConsTail<T>(s: seq<T>)
    requires s != []
    ensures [s[0]] + s[1..] == s
  {
  }

  /** Decoding inverts encoding: for every defined opcode and every operand
      tuple that fits the declared widths, reading the operands back from the
      bytes after the opcode gives the same operands and consumes exactly the
      declared number of bytes. */
  lemma ReadOperandsInvertsMake(op: Opcode, operands: seq<int>)
    requires op in Definitions && Fits(operands, Definitions[op].operandWidths)
    ensures Lookup(op) == Success(Definitions[op])
    ensures ReadOperands(Definitions[op], Make(op, operands)[1..]) == (operands, Sum(Definitions[op].operandWidths))
  {
    var enc := EncodeOperands(operands, Definitions[op].operandWidths);
    assert Make(op, operands)[1..] == enc;
    DecodeEncode(operands, Definitions[op].operandWidths, enc, 0);
  }

  /** The byte vectors of TestMake. */
  lemma MakeExamples()
    ensures Make(OpConstant, [65534]) == [OpConstant, 255, 254]
    ensures Make(OpAdd, []) == [OpAdd]
    ensures Make(OpGetLocal, [255]) == [OpGetLocal, 255]
    ensures Make(OpClosure, [65534, 255]) == [OpClosure, 255, 254, 255]
  {
    assert EncodeOperands([65534], [2]) == [255, 254];
    assert EncodeOperands([255], [1]) == [255];
    assert EncodeOperands([65534, 255], [2, 1]) == [255, 254] + EncodeOperands([255], [1]);
  }

  /** TestReadOperands: OpConstant 65535 reads back from two bytes, OpGetLocal
      255 from one, OpClosure 65535 255 from three. */
  lemma ReadOperandsConstantExample(v: nat)
    requires v == 65535
    ensures ReadOperands(Definitions[OpConstant], Make(OpConstant, [v])[1..]) == ([65535], 2)
  {
    ReadOperandsInvertsMake(OpConstant, [v]);
  }

  lemma ReadOperandsGetLocalExample(v: nat)
    requires v == 255
    ensures ReadOperands(Definitions[OpGetLocal], Make(OpGetLocal, [v])[1..]) == ([255], 1)
  {
    ReadOperandsInvertsMake(OpGetLocal, [v]);
  }

  lemma ReadOperandsClosureExample(v: nat, b: nat)
    requires v == 65535 && b == 255
    ensures ReadOperands(Definitions[OpClosure], Make(OpClosure, [v, b])[1..]) == ([65535, 255], 3)
  {
    assert [v, b][1..] == [b];
    ReadOperandsInvertsMake(OpClosure, [v, b]);
  }

  // ----- Disassembly -----

  /** The mnemonic followed by each operand in decimal, space-separated. */
  function FormatInstruction(def: Definition, operands: seq<nat>): string {
    def.name + Operands(operands)
  }

  function Operands(operands: seq<nat>): string {
    if operands == [] then "" else " " + Decimal.NatToString(operands[0]) + Operands(operands[1..])
  }

  /** What disassembly finds at one byte offset: a well-formed instruction with
      its decoded operands, an opcode byte no opcode uses, or an instruction
      cut short by the end of the buffer. */
  datatype Line =
    | Decoded(offset: nat, def: Definition, operands: seq<nat>)
    | Undefined(b: Byte)
    | Truncated(def: Definition, offset: nat)

  /** The lines of a disassembly, in buffer order. */
  datatype Lines = NoLines | MoreLines(first: Line, rest: Lines)

  /** The line for the instruction at byte offset `i` of `ins` and the number
      of bytes it takes: one for an unknown opcode, the rest of the buffer for
      a truncated instruction, the opcode byte and its operands otherwise. */
  function Step(ins: Instructions, i: nat): (r: (Line, nat))
    requires i < |ins|
    ensures 1 <= r.1 <= |ins| - i
  {
    match Lookup(ins[i])
    case Failure(_) => (Undefined(ins[i]), 1)
    case Success(def) =>
      var n := 1 + Sum(def.operandWidths);
      if |ins| - i < n then (Truncated(def, i), |ins| - i)
      else (Decoded(i, def, OperandsAt(def.operandWidths, ins, i + 1)), n)
  }

  /** The instructions of `ins` from byte offset `i` on, one line each; a
      malformed instruction does not stop the ones after it. */
  function LinesFrom(ins: Instructions, i: nat): Lines
    decreases |ins| - i
  {
    if i >= |ins| then NoLines
    else MoreLines(Step(ins, i).0, LinesFrom(ins, i + Step(ins, i).1))
  }

  /** The text of one line: the `%04d` offset, a space and the formatted
      instruction, or an inline error message. */
  function Render(l: Line): string {
    match l
    case Decoded(i, def, operands) => Decimal.Pad4(i) + " " + FormatInstruction(def, operands) + "\n"
    case Undefined(b) => "ERROR: opcode " + Decimal.NatToString(b) + " undefined\n"
    case Truncated(def, i) => "ERROR: " + def.name + " at " + Decimal.Pad4(i) + " is truncated\n"
  }

  function RenderAll(lines: Lines): string {
    match lines
    case NoLines => ""
    case MoreLines(l, rest) => Render(l) + RenderAll(rest)
  }

  function Disassemble(ins: Instructions): string {
    RenderAll(LinesFrom(ins, 0))
  }

  /** Reading operands from bytes stored inside a larger buffer is reading
      them from the buffer, shifted by where those bytes start. */
  lemma {:induction false} OperandsAtStored(widths: seq<OperandWidth>, s: seq<Byte>, ins: seq<Byte>, p: nat, q: nat)
    requires Stored(ins, p, s) && q + Sum(widths) <= |s|
    ensures OperandsAt(widths, s, q) == OperandsAt(widths, ins, p + q)
    decreases |widths|
  {
    if widths != [] {
      ReadOperandAtStored(widths[0], s, ins, p, q);
      OperandsAtStored(widths[1..], s, ins, p, q + widths[0]);
    }
  }

  lemma ReadOperandAtStored(w: OperandWidth, s: seq<Byte>, ins: seq<Byte>, p: nat, q: nat)
    requires Stored(ins, p, s) && q + w <= |s|
    ensures ReadOperandAt(s, q, w) == ReadOperandAt(ins, p + q, w)
  {
    assert s[q] == ins[p + q];
    if w == 2 {
      assert s[q + 1] == ins[p + q + 1];
    }
  }

  /** The tail of a buffer is stored in it from where the tail starts. */
  lemma SuffixStored(ins: seq<Byte>, p: nat)
    requires p <= |ins|
    ensures Stored(ins, p, ins[p..])
  {
  }

  /** Decodes the instruction at byte offset `i`, as the body of the loop in
      `Instructions.String()` does: the line to print and how far to advance. */
  method DecodeAt(ins: Instructions, i: nat) returns (line: Line, n: nat)
    requires i < |ins|
    ensures (line, n) == Step(ins, i)
  {
    match Lookup(ins[i]) {
      case Failure(_) =>
        line, n := Undefined(ins[i]), 1;
      case Success(def) =>
        if |ins| - i - 1 < Sum(def.operandWidths) {
          line, n := Truncated(def, i), |ins| - i;
        } else {
          var r := ReadOperands(def, ins[i + 1..]);
          StepDecoded(ins, i, def, r.0);
          line, n := Decoded(i, def, r.0), 1 + r.1;
        }
    }
  }

  /** `Instructions.String()`: walks the buffer with an advancing byte offset,
      appending one line per instruction. */
  method InstructionsString(ins: Instructions) returns (out: string)
    ensures out == Disassemble(ins)
  {
    out := "";
    var i := 0;
    while i < |ins|
      invariant i <= |ins|
      invariant out + RenderAll(LinesFrom(ins, i)) == Disassemble(ins)
      decreases |ins| - i
    {
      var line, n := DecodeAt(ins, i);
      Advance(ins, i, out, line, n);
      out := out + Render(line);
      i := i + n;
    }
    Finish(ins, i, out);
  }

  /** Appending the text of the line at offset `i` keeps the output a prefix
      of the whole disassembly, followed by the lines after the instruction. */
  lemma Advance(ins: Instructions, i: nat, out: string, line: Line, n: nat)
    requires i < |ins| && Step(ins, i) == (line, n)
    requires out + RenderAll(LinesFrom(ins, i)) == Disassemble(ins)
    ensures i + n <= |ins|
    ensures (out + Render(line)) + RenderAll(LinesFrom(ins, i + n)) == Disassemble(ins)
  {
    RenderStep(ins, i, line, n);
    AppendGlue(out, RenderAll(LinesFrom(ins, i)), Render(line), RenderAll(LinesFrom(ins, i + n)), Disassemble(ins));
  }

  /** Once the offset reaches the end no lines remain, so the output is the
      whole disassembly. */
  lemma Finish(ins: Instructions, i: nat, out: string)
    requires i == |ins| && out + RenderAll(LinesFrom(ins, i)) == Disassemble(ins)
    ensures out == Disassemble(ins)
  {
    assert RenderAll(LinesFrom(ins, i)) == [];
  }

  /** A well-formed instruction decodes to the operands `ReadOperands` finds
      in the bytes after its opcode. */
  lemma StepDecoded(ins: Instructions, i: nat, def: Definition, operands: seq<nat>)
    requires i < |ins| && Lookup(ins[i]) == Success(def) && i + 1 + Sum(def.operandWidths) <= |ins|
    requires operands == ReadOperands(def, ins[i + 1..]).0
    ensures Step(ins, i) == (Decoded(i, def, operands), 1 + Sum(def.operandWidths))
  {
    SuffixStored(ins, i + 1);
    OperandsAtStored(def.operandWidths, ins[i + 1..], ins, i + 1, 0);
  }

  /** Rendering the lines from offset `i` on is rendering the line there and
      then the lines after it. */
  lemma RenderStep(ins: Instructions, i: nat, line: Line, n: nat)
    requires i < |ins| && Step(ins, i) == (line, n)
    ensures RenderAll(LinesFrom(ins, i)) == Render(line) + RenderAll(LinesFrom(ins, i + n))
  {
    LinesStep(ins, i, line, n);
    RenderAllCons(line, LinesFrom(ins, i + n));
  }

  lemma LinesStep(ins: Instructions, i: nat, line: Line, n: nat)
    requires i < |ins| && Step(ins, i) == (line, n)
    ensures LinesFrom(ins, i) == MoreLines(line, LinesFrom(ins, i + n))
  {
  }

  lemma RenderAllCons(line: Line, rest: Lines)
    ensures RenderAll(MoreLines(line, rest)) == Render(line) + RenderAll(rest)
  {
  }

  lemma AppendGlue<T>(out: seq<T>, rest: seq<T>, piece: seq<T>, after: seq<T>, whole: seq<T>)
    requires out + rest == whole && rest == piece + after
    ensures (out + piece) + after == whole
  {
  }

  lemma AppendAssoc<T>(a: seq<T>, b: seq<T>, c: seq<T>)
    ensures (a + b) + c == a + (b + c)
  {
  }

  // ----- Assembled programs -----

  /** One instruction of an assembly listing: an opcode and its operands. */
  datatype Instr = Instr(op: Opcode, operands: seq<nat>)

  /** The opcode is defined and every operand fits its declared width. */
  predicate Valid(i: Instr) {
    i.op in Definitions && Fits(i.operands, Definitions[i.op].operandWidths)
  }

  /** The number of bytes `Make` produces for an instruction. */
  function Size(i: Instr): nat
    requires i.op in Definitions
  {
    1 + Sum(Definitions[i.op].operandWidths)
  }

  predicate Encodable(prog: seq<Instr>) {
    prog == [] || (Valid(prog[0]) && Encodable(prog[1..]))
  }

  /** The instructions of a program, each made by `Make`. */
  function Encode(prog: seq<Instr>): (parts: seq<Instructions>)
    requires Encodable(prog)
    ensures |parts| == |prog|
  {
    if prog == [] then [] else [Make(prog[0].op, prog[0].operands)] + Encode(prog[1..])
  }

  /** Byte buffers joined end to end, first to last. */
  function Flatten(parts: seq<Instructions>): (all: Instructions)
    ensures |all| == TotalSize(parts)
  {
    if parts == [] then [] else parts[0] + Flatten(parts[1..])
  }

  function TotalSize(parts: seq<Instructions>): nat {
    if parts == [] then 0 else |parts[0]| + TotalSize(parts[1..])
  }

  /** The bytes of a program: its instructions concatenated, as the tests
      build a buffer to disassemble. */
  function Assemble(prog: seq<Instr>): Instructions
    requires Encodable(prog)
  {
    Flatten(Encode(prog))
  }

  /** The lines a program should decode to when its first instruction sits at
      byte offset `offset`: each instruction at its cumulative byte offset. */
  function Listing(prog: seq<Instr>, offset: nat): Lines
    requires Encodable(prog)
  {
    if prog == [] then NoLines
    else MoreLines(Decoded(offset, Definitions[prog[0].op], prog[0].operands), Listing(prog[1..], offset + Size(prog[0])))
  }

  /** The buffers `parts` fill `ins` one after another, from byte `pos` to its end. */
  predicate Laid(ins: Instructions, pos: nat, parts: seq<Instructions>)
    decreases |parts|
  {
    if parts == [] then pos == |ins|
    else Stored(ins, pos, parts[0]) && Laid(ins, pos + |parts[0]|, parts[1..])
  }

  /** An instruction made by `Make` decodes to its own offset, definition and
      operands, and decoding goes on right after it. */
  lemma LinesMade(ins: Instructions, pos: nat, i: Instr)
    requires Valid(i) && Stored(ins, pos, Make(i.op, i.operands))
    ensures LinesFrom(ins, pos)
      == MoreLines(Decoded(pos, Definitions[i.op], i.operands), LinesFrom(ins, pos + Size(i)))
  {
    var widths := Definitions[i.op].operandWidths;
    StoredSplit(ins, pos, [i.op], EncodeOperands(i.operands, widths));
    assert ins[pos] == [i.op][0];
    DecodeEncode(i.operands, widths, ins, pos + 1);
    assert Step(ins, pos) == (Decoded(pos, Definitions[i.op], i.operands), Size(i));
  }

  /** The first instruction of a program is made by `Make`; the others are
      the instructions of the rest of the program. */
  lemma EncodeFirst(prog: seq<Instr>)
    requires Encodable(prog) && prog != []
    ensures Valid(prog[0]) && Encodable(prog[1..])
    ensures Encode(prog)[0] == Make(prog[0].op, prog[0].operands) && |Encode(prog)[0]| == Size(prog[0])
    ensures Encode(prog)[1..] == Encode(prog[1..])
  {
  }

  /** A program whose first instruction is valid and whose rest is encodable is
      encodable, and its listing starts with that instruction at `offset`. */
  lemma ListingCons(prog: seq<Instr>, offset: nat)
    requires prog != [] && Valid(prog[0]) && Encodable(prog[1..])
    ensures Encodable(prog)
    ensures Listing(prog, offset)
      == MoreLines(Decoded(offset, Definitions[prog[0].op], prog[0].operands), Listing(prog[1..], offset + Size(prog[0])))
  {
  }

  /** Decoding inverts assembly wherever the instructions of a program are
      laid out one after another. */
  lemma {:induction false} LinesLaid(ins: Instructions, pos: nat, prog: seq<Instr>)
    requires Encodable(prog) && Laid(ins, pos, Encode(prog))
    ensures LinesFrom(ins, pos) == Listing(prog, pos)
    decreases |prog|
  {
    if prog == [] {
      assert LinesFrom(ins, pos) == NoLines;
    } else {
      EncodeFirst(prog);
      LinesMade(ins, pos, prog[0]);
      LinesLaid(ins, pos + Size(prog[0]), prog[1..]);
      ListingCons(prog, pos);
    }
  }

  /** Bytes stored in `inner`, itself stored in `outer` at `d`, are stored in
      `outer` at the sum of the two offsets. */
  lemma StoredWithin(outer: seq<Byte>, d: nat, inner: seq<Byte>, pos: nat, m: seq<Byte>)
    requires Stored(outer, d, inner) && Stored(inner, pos, m)
    ensures Stored(outer, d + pos, m)
  {
    forall j | 0 <= j < |m|
      ensures outer[d + pos + j] == m[j]
    {
      assert inner[pos + j] == m[j];
      assert outer[d + (pos + j)] == inner[pos + j];
    }
  }

  /** Buffers laid out in a buffer that forms the end of a larger one are laid
      out in the larger one, shifted by where the smaller one starts. */
  lemma {:induction false} LaidWithin(outer: Instructions, d: nat, inner: Instructions, pos: nat, parts: seq<Instructions>)
    requires Stored(outer, d, inner) && |outer| == d + |inner| && Laid(inner, pos, parts)
    ensures Laid(outer, d + pos, parts)
    decreases |parts|
  {
    if parts != [] {
      StoredWithin(outer, d, inner, pos, parts[0]);
      LaidWithin(outer, d, inner, pos + |parts[0]|, parts[1..]);
    }
  }

  /** Concatenation stores each part where it starts. */
  lemma StoredAppend(m: Instructions, rest: Instructions)
    ensures Stored(m + rest, 0, m) && Stored(m + rest, |m|, rest)
  {
    StoredSplit(m + rest, 0, m, rest);
  }

  /** `Flatten` lays every buffer out back to back. */
  lemma {:induction false} FlattenLaid(parts: seq<Instructions>)
    ensures Laid(Flatten(parts), 0, parts)
    decreases |parts|
  {
    if parts != [] {
      var rest := Flatten(parts[1..]);
      FlattenLaid(parts[1..]);
      StoredAppend(parts[0], rest);
      LaidWithin(parts[0] + rest, |parts[0]|, rest, 0, parts[1..]);
    }
  }

  /** Decoding inverts assembly: the bytes of any encodable program decode to
      one line per instruction at the instruction's own byte offset, with its
      own operands. */
  lemma DisassembleAssemble(prog: seq<Instr>)
    requires Encodable(prog)
    ensures LinesFrom(Assemble(prog), 0) == Listing(prog, 0)
    ensures Disassemble(Assemble(prog)) == RenderAll(Listing(prog, 0))
  {
    FlattenLaid(Encode(prog));
    LinesLaid(Assemble(prog), 0, prog);
  }

  /** The disassembly of TestInstructionsString: cumulative byte offsets
      0, 1, 3, 6, 9, operands in decimal, no operands after OpAdd. */
  lemma InstructionsStringExample(a: Instr, b: Instr, c: Instr, d: Instr, e: Instr)
    requires a == Instr(OpAdd, []) && b == Instr(OpGetLocal, [1]) && c == Instr(OpConstant, [2])
    requires d == Instr(OpConstant, [65535]) && e == Instr(OpClosure, [65535, 255])
    ensures Encodable([a, b, c, d, e])
    ensures Disassemble(Assemble([a, b, c, d, e]))
      == "0000 OpAdd\n" + ("0001 OpGetLocal 1\n" + ("0003 OpConstant 2\n"
         + ("0006 OpConstant 65535\n" + ("0009 OpClosure 65535 255\n" + ""))))
  {
    ExampleEncodable(a, b, c, d, e);
    DisassembleAssemble([a, b, c, d, e]);
    ExampleListing(a, b, c, d, e);
    var l0, l1, l2, l3, l4 := Decoded(0, Definitions[OpAdd], []), Decoded(1, Definitions[OpGetLocal], [1]),
      Decoded(3, Definitions[OpConstant], [2]), Decoded(6, Definitions[OpConstant], [65535]),
      Decoded(9, Definitions[OpClosure], [65535, 255]);
    RenderFive(l0, l1, l2, l3, l4);
    ExampleTexts();
  }

  /** The text of five lines is the text of each, in order. */
  lemma RenderFive(l0: Line, l1: Line, l2: Line, l3: Line, l4: Line)
    ensures RenderAll(MoreLines(l0, MoreLines(l1, MoreLines(l2, MoreLines(l3, MoreLines(l4, NoLines))))))
      == Render(l0) + (Render(l1) + (Render(l2) + (Render(l3) + (Render(l4) + ""))))
  {
    RenderAllCons(l4, NoLines);
    RenderAllCons(l3, MoreLines(l4, NoLines));
    RenderAllCons(l2, MoreLines(l3, MoreLines(l4, NoLines)));
    RenderAllCons(l1, MoreLines(l2, MoreLines(l3, MoreLines(l4, NoLines))));
    RenderAllCons(l0, MoreLines(l1, MoreLines(l2, MoreLines(l3, MoreLines(l4, NoLines)))));
  }

  /** The tails of a five-element sequence. */
  lemma Tails<T>(a: T, b: T, c: T, d: T, e: T)
    ensures [a, b, c, d, e][0] == a && [a, b, c, d, e][1..] == [b, c, d, e]
    ensures [b, c, d, e][0] == b && [b, c, d, e][1..] == [c, d, e]
    ensures [c, d, e][0] == c && [c, d, e][1..] == [d, e]
    ensures [d, e][0] == d && [d, e][1..] == [e]
    ensures [e][0] == e && [e][1..] == []
  {
  }

  lemma ExampleEncodable(a: Instr, b: Instr, c: Instr, d: Instr, e: Instr)
    requires a == Instr(OpAdd, []) && b == Instr(OpGetLocal, [1]) && c == Instr(OpConstant, [2])
    requires d == Instr(OpConstant, [65535]) && e == Instr(OpClosure, [65535, 255])
    ensures Encodable([a, b, c, d, e])
  {
    ExampleFits();
    Tails(a, b, c, d, e);
    EncodableCons([e]);
    EncodableCons([d, e]);
    EncodableCons([c, d, e]);
    EncodableCons([b, c, d, e]);
    EncodableCons([a, b, c, d, e]);
  }

  lemma EncodableCons(prog: seq<Instr>)
    requires prog != [] && Valid(prog[0]) && Encodable(prog[1..])
    ensures Encodable(prog)
  {
  }

  /** The byte sizes of the instructions in TestInstructionsString. */
  lemma ExampleSizes(a: Instr, b: Instr, c: Instr, d: Instr, e: Instr)
    requires a == Instr(OpAdd, []) && b == Instr(OpGetLocal, [1]) && c == Instr(OpConstant, [2])
    requires d == Instr(OpConstant, [65535]) && e == Instr(OpClosure, [65535, 255])
    ensures Size(a) == 1 && Size(b) == 2 && Size(c) == 3 && Size(d) == 3 && Size(e) == 4
  {
    assert Sum([2]) == 2 && Sum([1]) == 1 && Sum([2, 1]) == 3;
  }

  lemma ExampleListing(a: Instr, b: Instr, c: Instr, d: Instr, e: Instr)
    requires a == Instr(OpAdd, []) && b == Instr(OpGetLocal, [1]) && c == Instr(OpConstant, [2])
    requires d == Instr(OpConstant, [65535]) && e == Instr(OpClosure, [65535, 255])
    requires Encodable([a, b, c, d, e])
    ensures Listing([a, b, c, d, e], 0)
      == MoreLines(Decoded(0, Definitions[OpAdd], []), MoreLines(Decoded(1, Definitions[OpGetLocal], [1]),
         MoreLines(Decoded(3, Definitions[OpConstant], [2]), MoreLines(Decoded(6, Definitions[OpConstant], [65535]),
         MoreLines(Decoded(9, Definitions[OpClosure], [65535, 255]), NoLines)))))
  {
    Tails(a, b, c, d, e);
    ExampleSizes(a, b, c, d, e);
    ListingAt([a, b, c, d, e], 0, 1);
    ListingAt([b, c, d, e], 1, 3);
    ListingAt([c, d, e], 3, 6);
    ListingAt([d, e], 6, 9);
    ListingAt([e], 9, 13);
  }

  /** The listing of a program starts with its first instruction at `offset`
      and goes on with the rest at `next`, the offset right after it. */
  lemma ListingAt(prog: seq<Instr>, offset: nat, next: nat)
    requires Encodable(prog) && prog != [] && next == offset + Size(prog[0])
    ensures Encodable(prog[1..])
    ensures Listing(prog, offset)
      == MoreLines(Decoded(offset, Definitions[prog[0].op], prog[0].operands), Listing(prog[1..], next))
  {
  }

  lemma ExampleFits()
    ensures Fits([], []) && Fits([1], [1]) && Fits([2], [2]) && Fits([65535], [2]) && Fits([65535, 255], [2, 1])
  {
  }

  lemma ExampleTexts()
    ensures Render(Decoded(0, Definitions[OpAdd], [])) == "0000 OpAdd\n"
    ensures Render(Decoded(1, Definitions[OpGetLocal], [1])) == "0001 OpGetLocal 1\n"
    ensures Render(Decoded(3, Definitions[OpConstant], [2])) == "0003 OpConstant 2\n"
    ensures Render(Decoded(6, Definitions[OpConstant], [65535])) == "0006 OpConstant 65535\n"
    ensures Render(Decoded(9, Definitions[OpClosure], [65535, 255])) == "0009 OpClosure 65535 255\n"
  {
    ExampleNumerals();
    TextAdd(Decimal.Pad4(0), Operands([]));
    TextGetLocal(Decimal.Pad4(1), Operands([1]));
    TextConstant(Decimal.Pad4(3), Operands([2]));
    TextWideConstant(Decimal.Pad4(6), Operands([65535]));
    TextClosure(Decimal.Pad4(9), Operands([65535, 255]));
  }

  /** A decoded line is its padded offset, a space, the mnemonic, the
      operands and a newline. */
  lemma RenderDecoded(offset: nat, def: Definition, operands: seq<nat>)
    ensures Render(Decoded(offset, def, operands))
      == Decimal.Pad4(offset) + " " + (def.name + Operands(operands)) + "\n"
  {
  }

  lemma TextAdd(p: string, o: string)
    requires p == Decimal.Pad4(0) == "0000" && o == Operands([]) == ""
    ensures Render(Decoded(0, Definitions[OpAdd], [])) == "0000 OpAdd\n"
  {
    RenderDecoded(0, Definitions[OpAdd], []);
    JoinAdd(p, Definitions[OpAdd].name, o);
  }

  lemma JoinAdd(p: string, n: string, o: string)
    requires p == "0000" && n == "OpAdd" && o == ""
    ensures p + " " + (n + o) + "\n" == "0000 OpAdd\n"
  {
  }

  lemma TextGetLocal(p: string, o: string)
    requires p == Decimal.Pad4(1) == "0001" && o == Operands([1]) == " 1"
    ensures Render(Decoded(1, Definitions[OpGetLocal], [1])) == "0001 OpGetLocal 1\n"
  {
    RenderDecoded(1, Definitions[OpGetLocal], [1]);
    JoinGetLocal(p, Definitions[OpGetLocal].name, o);
  }

  lemma JoinGetLocal(p: string, n: string, o: string)
    requires p == "0001" && n == "OpGetLocal" && o == " 1"
    ensures p + " " + (n + o) + "\n" == "0001 OpGetLocal 1\n"
  {
  }

  lemma TextConstant(p: string, o: string)
    requires p == Decimal.Pad4(3) == "0003" && o == Operands([2]) == " 2"
    ensures Render(Decoded(3, Definitions[OpConstant], [2])) == "0003 OpConstant 2\n"
  {
    RenderDecoded(3, Definitions[OpConstant], [2]);
    JoinConstant(p, Definitions[OpConstant].name, o);
  }

  lemma JoinConstant(p: string, n: string, o: string)
    requires p == "0003" && n == "OpConstant" && o == " 2"
    ensures p + " " + (n + o) + "\n" == "0003 OpConstant 2\n"
  {
  }

  lemma TextWideConstant(p: string, o: string)
    requires p == Decimal.Pad4(6) == "0006" && o == Operands([65535]) == " 65535"
    ensures Render(Decoded(6, Definitions[OpConstant], [65535])) == "0006 OpConstant 65535\n"
  {
    RenderDecoded(6, Definitions[OpConstant], [65535]);
    JoinWideConstant(p, Definitions[OpConstant].name, o);
  }

  lemma JoinWideConstant(p: string, n: string, o: string)
    requires p == "0006" && n == "OpConstant" && o == " 65535"
    ensures p + " " + (n + o) + "\n" == "0006 OpConstant 65535\n"
  {
  }

  lemma TextClosure(p: string, o: string)
    requires p == Decimal.Pad4(9) == "0009" && o == Operands([65535, 255]) == " 65535 255"
    ensures Render(Decoded(9, Definitions[OpClosure], [65535, 255])) == "0009 OpClosure 65535 255\n"
  {
    RenderDecoded(9, Definitions[OpClosure], [65535, 255]);
    JoinClosure(p, Definitions[OpClosure].name, o);
  }

  lemma JoinClosure(p: string, n: string, o: string)
    requires p == "0009" && n == "OpClosure" && o == " 65535 255"
    ensures p + " " + (n + o) + "\n" == "0009 OpClosure 65535 255\n"
  {
  }

  lemma ExampleNumerals()
    ensures Decimal.Pad4(0) == "0000" && Decimal.Pad4(1) == "0001" && Decimal.Pad4(3) == "0003"
    ensures Decimal.Pad4(6) == "0006" && Decimal.Pad4(9) == "0009"
    ensures Operands([]) == "" && Operands([1]) == " 1" && Operands([2]) == " 2"
    ensures Operands([65535]) == " 65535" && Operands([65535, 255]) == " 65535 255"
  {
    ExamplePads();
    ExampleSmallOperands();
    ExampleWideOperand();
    ExampleClosureOperandText();
  }

  lemma ExamplePads()
    ensures Decimal.Pad4(0) == "0000" && Decimal.Pad4(1) == "0001" && Decimal.Pad4(3) == "0003"
    ensures Decimal.Pad4(6) == "0006" && Decimal.Pad4(9) == "0009"
  {
  }

  lemma ExampleSmallOperands()
    ensures Operands([]) == "" && Operands([1]) == " 1" && Operands([2]) == " 2"
  {
    assert Decimal.NatToString(1) == "1" && Decimal.NatToString(2) == "2";
  }

  lemma ExampleWideOperand()
    ensures Operands([65535]) == " 65535"
  {
    ExampleWideNumeral();
    OperandsOne(65535);
  }

  lemma ExampleClosureOperandText()
    ensures Operands([65535, 255]) == " 65535 255"
  {
    ExampleWideNumeral();
    assert Decimal.NatToString(255) == "255";
    OperandsTwo(65535, 255);
    JoinOperands(Decimal.NatToString(65535), Decimal.NatToString(255));
  }

  lemma ExampleWideNumeral()
    ensures Decimal.NatToString(65535) == "65535"
  {
    assert Decimal.NatToString(65) == "65";
    assert Decimal.NatToString(655) == "655";
    assert Decimal.NatToString(6553) == "6553";
  }

  lemma OperandsOne(a: nat)
    ensures Operands([a]) == " " + Decimal.NatToString(a)
  {
    assert [a][1..] == [];
  }

  lemma OperandsTwo(a: nat, b: nat)
    ensures Operands([a, b]) == " " + Decimal.NatToString(a) + (" " + Decimal.NatToString(b))
  {
    assert [a, b][1..] == [b];
    OperandsOne(b);
  }

  lemma JoinOperands(a: string, b: string)
    requires a == "65535" && b == "255"
    ensures " " + a + (" " + b) == " 65535 255"
  {
  }

  /** Appending one more buffer appends its bytes. */
  lemma {:induction false} FlattenSnoc(parts: seq<Instructions>, x: Instructions)
    ensures Flatten(parts + [x]) == Flatten(parts) + x
    decreases |parts|
  {
    if parts == [] {
      assert [] + [x] == [x];
      assert [x][1..] == [];
    } else {
      assert (parts + [x])[1..] == parts[1..] + [x];
      FlattenSnoc(parts[1..], x);
      AppendAssoc(parts[0], Flatten(parts[1..]), x);
    }
  }

  /** The test's loop that appends each encoded instruction to one buffer. */
  method Concatenate(parts: seq<Instructions>) returns (all: Instructions)
    ensures all == Flatten(parts)
  {
    all := [];
    for k := 0 to |parts|
      invariant all == Flatten(parts[..k])
    {
      assert parts[..k + 1] == parts[..k] + [parts[k]];
      FlattenSnoc(parts[..k], parts[k]);
      all := all + parts[k];
    }
    assert parts[..|parts|] == parts;
  }
}
