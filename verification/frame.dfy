/** The virtual machine's call frame: the closure being run, its instruction
    pointer and the stack index its locals start at. */
module Frame {
  import Code

  /** A compiled function; only its instructions are modelled. */
  datatype CompiledFunction = CompiledFunction(instructions: Code.Instructions)

  /** A closure, shared by reference between frames. Its captured variables
      are not modelled. */
  class Closure {
    var fn: CompiledFunction

    constructor (fn: CompiledFunction)
      ensures this.fn == fn
    {
      this.fn := fn;
    }
  }

  class Frame {
    var cl: Closure
    var ip: int
    var basePointer: int

    /** `NewFrame`: the frame starts before its first instruction, at -1, so
        that the first fetch advances to 0; the closure and base pointer are
        kept as given. */
    constructor (cl: Closure, basePointer: int)
      ensures this.cl == cl && ip == -1 && this.basePointer == basePointer
      ensures cl.fn == old(cl.fn)
    {
      this.cl := cl;
      this.ip := -1;
      this.basePointer := basePointer;
    }

    /** The instructions of the frame's closure's function. */
    function Instructions(): (ins: Code.Instructions)
      reads this, cl
      ensures ins == cl.fn.instructions
    {
      cl.fn.instructions
    }
  }

  /** A frame over a function assembled from a program hands out exactly those
      bytes, so disassembling them lists the program; the frame's creation
      changes neither the closure nor its function. */
  method NewFrameListsProgram(prog: seq<Code.Instr>, basePointer: int) returns (f: Frame, text: string)
    requires Code.Encodable(prog)
    ensures f.ip == -1 && f.basePointer == basePointer
    ensures f.Instructions() == Code.Assemble(prog)
    ensures text == Code.RenderAll(Code.Listing(prog, 0))
  {
    var cl := new Closure(CompiledFunction(Code.Assemble(prog)));
    f := new Frame(cl, basePointer);
    text := Code.InstructionsString(f.Instructions());
    Code.DisassembleAssemble(prog);
  }
}
