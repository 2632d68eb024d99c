/** Where the interpreter starts: the words at the front of an image, the instruction each operand
    leads to, and the frame headers found there (src/program/Assembler.cpp:72-142,
    src/interpreter/interpreter_dd.c:237-239). */
module ImageEntry {
  import opened Options
  import opened Bytecode
  import opened Registers
  import opened Source
  import opened Symbols
  import opened Codegen
  import opened Optimizer
  import opened Assembler
  import opened AssemblerProof
  import opened ByteMachine
  import opened Pipeline
  import opened WholeProgram
  import opened FrameSize
  import opened EndToEnd

  /** The first word is where the code starts; the second, if the program has a static constructor,
      where that starts. */
  lemma HeaderRead(code: seq<Instr>)
    requires Tabled(code)
    ensures ReadWord(Image(code), 0) == Some(Int(Address(code, 0)))
    ensures STATIC_CONSTRUCTOR in LabelMap(code) ==>
      ReadWord(Image(code), 8) == Some(Int(LabelMap(code)[STATIC_CONSTRUCTOR]))
  {
    hide AllConstants, CodeBytes, AllPointed, Positions;
    var b, h := Image(code), HeaderBytes(code);
    assert Holding(b, 0, h) && code[..0] == [];
    var w := WordBytes(Int(CodeStart(code)));
    var v := if STATIC_CONSTRUCTOR in LabelMap(code) then WordBytes(Int(LabelMap(code)[STATIC_CONSTRUCTOR])) else UNSET;
    assert h == w + v;
    HoldingConcat(b, 0, w, v);
    WordRead(b, 0, Int(CodeStart(code)));
    if STATIC_CONSTRUCTOR in LabelMap(code) {
      WordRead(b, 8, Int(LabelMap(code)[STATIC_CONSTRUCTOR]));
    }
  }

  /** Instruction k is the first real one from j on. */
  predicate FirstFrom(code: seq<Instr>, j: nat, k: nat) {
    j <= k < |code| && IsReal(code[k]) && forall i :: j <= i < k ==> !IsReal(code[i])
  }

  lemma {:induction false} SameAddress(code: seq<Instr>, j: nat, k: nat)
    requires Tabled(code) && j <= k <= |code| && forall i :: j <= i < k ==> !IsReal(code[i])
    ensures Address(code, j) == Address(code, k)
    decreases k - j
  {
    if j < k {
      SameAddress(code, j, k - 1);
      assert code[..k] == code[..k - 1] + [code[k - 1]];
      RealCountConcat(code[..k - 1], [code[k - 1]]);
      assert [code[k - 1]][1..] == [];
    }
  }

  /** The program's first word leads to its first real instruction. */
  lemma StartFetched(code: seq<Instr>, k: nat)
    requires AllStorable(code) && FirstFrom(code, 0, k)
    ensures Tabled(code)
    ensures var start := ReadWord(Image(code), 0);
            && start.Some? && start.value.Int?
            && Fetch(Image(code), start.value.n) == Some(Resolved(LabelMap(code), code[k]))
  {
    hide HeaderBytes, CodeBytes, Resolved;
    StorableTabled(code);
    HeaderRead(code);
    SameAddress(code, 0, k);
    ImageFetched(code, k);
  }

  /** The second word leads to the static constructor's first real instruction. */
  lemma StaticFetched(code: seq<Instr>, k: nat)
    requires AllStorable(code) && UniqueLabels(code) && Find(code, Name(STATIC_CONSTRUCTOR)).Some?
    requires FirstFrom(code, Find(code, Name(STATIC_CONSTRUCTOR)).value, k)
    ensures Tabled(code)
    ensures var start := ReadWord(Image(code), 8);
            && start.Some? && start.value.Int?
            && Fetch(Image(code), start.value.n) == Some(Resolved(LabelMap(code), code[k]))
  {
    hide HeaderBytes, CodeBytes, Resolved;
    StorableTabled(code);
    HeaderRead(code);
    var j := Find(code, Name(STATIC_CONSTRUCTOR)).value;
    LabelInMap(code, Name(STATIC_CONSTRUCTOR));
    SameAddress(code, j, k);
    ImageFetched(code, k);
  }

  lemma LabelInMap(code: seq<Instr>, w: Word)
    requires AllStorable(code) && UniqueLabels(code) && Find(code, w).Some?
    ensures Tabled(code) && w.Name? && w.s in LabelMap(code)
            && LabelMap(code)[w.s] == Address(code, Find(code, w).value)
  {
    StorableTabled(code);
    var k := Find(code, w).value;
    forall j | 0 <= j < |code| && code[j].op == LABEL
      ensures code[j].r0.Name?
    {
      assert code[j] in code;
    }
    LabelPlaced(code, k, CodeStart(code), map[]);
  }

  /** The operand that names a label: of jumps, handlers, function loads and frame headers. */
  predicate Names(i: Instr, w: Word) {
    || ((i.op == JMP || i.op == SET_CATCH) && i.r0 == w)
    || ((i.op == JMP_TRUE || i.op == JMP_NOT_TRUE || i.op == MOV_FNC) && i.r1 == w)
    || ((JMP_LESS <= i.op <= JMP_N_EQUAL_I || i.op == FFRAME) && i.r2 == w)
  }

  /** In the image that operand is the address of the instruction after the label, and the other
      operands are as they were. */
  lemma OperandsFetched(code: seq<Instr>, k: nat, w: Word)
    requires AllStorable(code) && UniqueLabels(code) && k < |code| && IsReal(code[k]) && Names(code[k], w)
    requires Find(code, w).Some?
    ensures Tabled(code) && Fetch(Image(code), Address(code, k)).Some?
    ensures var i, at := code[k], Idx(Address(code, Find(code, w).value));
            Fetch(Image(code), Address(code, k)).value
            == if i.op == JMP || i.op == SET_CATCH then i.(r0 := at)
               else if i.op == JMP_TRUE || i.op == JMP_NOT_TRUE || i.op == MOV_FNC then i.(r1 := at)
               else i.(r2 := at)
  {
    hide Fetch, Image;
    ImageFetched(code, k);
    LabelResolved(code, w);
  }

  /** All other instructions are found as they were. */
  lemma PlainFetched(code: seq<Instr>, k: nat)
    requires AllStorable(code) && k < |code| && IsReal(code[k])
    requires !IsJump(code[k].op) && code[k].op != SET_CATCH && code[k].op != MOV_FNC && code[k].op != FFRAME
    ensures Tabled(code) && Fetch(Image(code), Address(code, k)) == Some(code[k])
  {
    hide Fetch, Image;
    ImageFetched(code, k);
  }

  // ----- frame headers -----

  lemma {:induction false} OptimizedHead(s: seq<Instr>)
    requires Readable(s) && Shaped(s) && |s| > 1 && s[0].op == LABEL && s[1].op == FFRAME
    ensures |Optimized(s)| > 1 && Optimized(s)[0] == s[0] && Optimized(s)[1] == s[1]
    decreases |s|
  {
    PassShape(s);
    PassedHead(s);
    if |Pass(s)| != |s| {
      OptimizedHead(Pass(s));
    }
  }

  lemma PassedHead(s: seq<Instr>)
    requires Readable(s) && Shaped(s) && |s| > 1 && s[0].op == LABEL && s[1].op == FFRAME
    ensures |Pass(s)| > 1 && Pass(s)[0] == s[0] && Pass(s)[1] == s[1]
  {
    assert s[0] in s && s[1] in s;
    assert TurnAt(s) == Turn([s[0]], 1);
    assert s[1..][0] == s[1] && TurnAt(s[1..]) == Turn([s[1]], 1);
    assert Pass(s) == [s[0]] + Pass(s[1..]) && Pass(s[1..]) == [s[1]] + Pass(s[1..][1..]);
  }

  /** Label and frame header of a unit with these tables and this name. */
  predicate Headed(code: seq<Instr>, at: nat, ts: Tables, name: string) {
    && at + 1 < |code| && code[at] == Label(name) && code[at + 1].op == FFRAME && code[at + 1].r0.Idx?
    && code[at + 1].r1 == Syms(ts.symbols, ts.privates) && code[at + 1].r2 == Name("end" + name)
  }

  lemma ClassHeaded(c: Class)
    ensures Readable(CompileClass(c).code) && Shaped(CompileClass(c).code)
    ensures Headed(BinaryOf(c), 0, ClassTables(c), c.name)
  {
    hide Optimized, Line, CompileBody, ClassTables, PopArguments, Flat, ShapedInstr;
    ProgramReadable(c);
    OptimizedHead(CompileClass(c).code);
    FunctionsInLine(Later(c.body), ClassCode(c, 0).labels);
  }

  lemma FunctionHeaded(c: Class, k: nat)
    requires k < |FunctionsOf(c)|
    ensures Readable(CompileClass(c).code) && Shaped(CompileClass(c).code)
    ensures exists at :: 0 <= at < |BinaryOf(c)|
                         && Headed(BinaryOf(c), at, FunctionTables(FunctionsOf(c)[k]), FunctionsOf(c)[k].name)
  {
    hide Optimized, CodeBefore, CodeAfter, CounterAt, CompileClass, FunctionCode, FunctionTables, FunctionsOf, Shaped,
         Readable;
    var f, n := FunctionsOf(c)[k], CounterAt(c, k);
    var pre, own, post := CodeBefore(c, k), FunctionCode(f, n).code, CodeAfter(c, k);
    ProgramReadable(c);
    ClassSplit(c, k);
    PartsReadable(c, k);
    FunctionFits(f, n);
    OptimizedConcat(pre, own);
    OptimizedConcat(pre + own, post);
    FunctionHead(f, n);
    OptimizedHead(own);
    var at := |Optimized(pre)|;
    assert BinaryOf(c)[at] == Optimized(own)[0] && BinaryOf(c)[at + 1] == Optimized(own)[1];
    assert Headed(BinaryOf(c), at, FunctionTables(f), f.name);
  }

  lemma FunctionHead(f: Function, n: nat)
    ensures Headed(FunctionCode(f, n).code, 0, FunctionTables(f), f.name)
  {
    hide FunctionTables, CompileBody;
  }

  /** At the address of a unit's label the image has the unit's frame header: its tables decoded,
      and the address of its end. */
  lemma HeaderFetched(code: seq<Instr>, at: nat, ts: Tables, name: string)
    requires AllStorable(code) && UniqueLabels(code) && Headed(code, at, ts, name)
    requires Find(code, Name("end" + name)).Some?
    ensures Tabled(code)
    ensures Position(LabelMap(code), Name(name)) == Idx(Address(code, at))
    ensures Fetch(Image(code), Address(code, at))
            == Some(Instr(FFRAME, code[at + 1].r0, Syms(ts.symbols, ts.privates),
                          Idx(Address(code, Find(code, Name("end" + name)).value))))
  {
    hide Fetch, Image, UniqueLabels;
    StorableTabled(code);
    SameAddress(code, at, at + 1);
    OperandsFetched(code, at + 1, Name("end" + name));
    FoundOnly(code, at);
    LabelResolved(code, Name(name));
  }

  lemma FoundOnly(code: seq<Instr>, at: nat)
    requires UniqueLabels(code) && at < |code| && code[at].op == LABEL
    ensures Find(code, code[at].r0) == Some(at)
  {
  }

  lemma EndFound(c: Class, name: string, pre: seq<Instr>, own: seq<Instr>, post: seq<Instr>)
    requires CompileClass(c).code == pre + own + post && own != [] && own[|own| - 1] == Label("end" + name)
    ensures Readable(CompileClass(c).code) && Shaped(CompileClass(c).code)
    ensures Find(BinaryOf(c), Name("end" + name)).Some?
  {
    hide CompileClass, Optimized;
    var whole := CompileClass(c).code;
    ProgramReadable(c);
    OptimizedLabels(whole);
    assert whole[|pre| + |own| - 1] == own[|own| - 1];
    LabelNamesAt(whole, Name("end" + name));
    LabelNamesAt(BinaryOf(c), Name("end" + name));
  }

  /** The first word of a class's image leads to the class's own frame header. */
  lemma ClassStarts(c: Class)
    requires DistinctClass(c) && SpellableClass(c)
    ensures Readable(CompileClass(c).code) && Shaped(CompileClass(c).code) && Tabled(BinaryOf(c))
    ensures var b, start := Image(BinaryOf(c)), ReadWord(Image(BinaryOf(c)), 0);
            && start.Some? && start.value.Int? && Fetch(b, start.value.n).Some?
            && Fetch(b, start.value.n).value.op == FFRAME
            && Fetch(b, start.value.n).value.r1 == Syms(ClassTables(c).symbols, ClassTables(c).privates)
  {
    hide CompileClass, Optimized, Image, ClassTables, Fetch, UniqueLabels, SpellableClass, DistinctClass, Shaped,
         Readable;
    ClassLoadable(c);
    ClassHeaded(c);
    StartFetched(BinaryOf(c), 1);
  }

  /** What a function's address leads to: its own frame header, with the table of its names. */
  lemma FunctionStarts(c: Class, k: nat)
    requires DistinctClass(c) && SpellableClass(c) && k < |FunctionsOf(c)|
    ensures Readable(CompileClass(c).code) && Shaped(CompileClass(c).code) && Tabled(BinaryOf(c))
    ensures var b, f := Image(BinaryOf(c)), FunctionsOf(c)[k];
            var at := Position(LabelMap(BinaryOf(c)), Name(f.name));
            && at.Idx? && Fetch(b, at.n).Some? && Fetch(b, at.n).value.op == FFRAME
            && Fetch(b, at.n).value.r1 == Syms(FunctionTables(f).symbols, FunctionTables(f).privates)
  {
    hide CompileClass, Optimized, Image, FunctionTables, Fetch, UniqueLabels, SpellableClass, DistinctClass, Shaped,
         Readable, FunctionsOf, CodeBefore, CodeAfter, CounterAt, FunctionCode, LabelMap;
    ClassLoadable(c);
    FunctionHeaded(c, k);
    var f := FunctionsOf(c)[k];
    var at :| 0 <= at < |BinaryOf(c)| && Headed(BinaryOf(c), at, FunctionTables(f), f.name);
    ClassSplit(c, k);
    FunctionTail(f, CounterAt(c, k));
    EndFound(c, f.name, CodeBefore(c, k), FunctionCode(f, CounterAt(c, k)).code, CodeAfter(c, k));
    HeaderFetched(BinaryOf(c), at, FunctionTables(f), f.name);
  }

  lemma FunctionTail(f: Function, n: nat)
    ensures var c := FunctionCode(f, n).code; c != [] && c[|c| - 1] == Label("end" + f.name)
  {
    hide FunctionTables, CompileBody;
  }
}
