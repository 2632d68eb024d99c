/** The compiler from end to end (src/compiler/Compiler.cpp:34-46): addresses, code, peephole
    passes, bytes. */
module Driver {
  import opened Options
  import opened Bytecode
  import opened Source
  import opened Symbols
  import opened Codegen
  import opened Compilation
  import opened Optimizer
  import opened Asm = Assembler
  import opened EndToEnd
  import opened WholeProgram
  import opened Visibility

  /** The bytes are the image the theorems of EndToEnd are about. */
  method Compile(c: Class) returns (bytes: Bytes)
    requires AllSupported(c.body, false, false) && AllVisible(c.body)
    ensures Readable(CompileClass(c).code) && Shaped(CompileClass(c).code) && Tabled(BinaryOf(c))
    ensures bytes == Image(BinaryOf(c))
  {
    hide Codegen.CompileClass, Optimized, Image, Shaped, Readable, ClassTables, Nested, AllSupported, AllVisible,
         FunctionTables;
    BinaryTabled(c);
    VisitedExact(c);
    var addressCalculator := new AddressCalculator();
    addressCalculator.CalculateClass(c);
    var own := addressCalculator.functionsStack[0];
    NestedRight(c.body, map[]);
    var compiler := new Compilation.Compiler(addressCalculator.finished);
    compiler.CompileClass(c, own);
    var optimizer := new BytecodeOptimizer();
    var instructions := optimizer.Optimize(compiler.program.instructions);
    var assembler := new Asm.Assembler();
    assembler.Assemble(instructions);
    bytes := assembler.bytes;
  }
}
