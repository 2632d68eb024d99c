/** From the syntax tree to the byte image and back: the interpreter on the assembled, optimized
    program of a class does what the source says. */
module EndToEnd {
  import opened Options
  import opened Bytecode
  import opened Machine
  import opened Source
  import opened Symbols
  import opened Codegen
  import opened Optimizer
  import opened Assembler
  import opened AssemblerProof
  import opened ByteMachine
  import opened ExprProof
  import opened RuleSafety
  import opened FunctionProof
  import opened Pipeline
  import opened WholeProgram

  // ----- the optimizer makes nothing but jumps -----

  ghost predicate Made(s: seq<Instr>, r: seq<Instr>) { forall i :: i in r ==> i in s || IsJump(i.op) }

  lemma {:induction false} PassMakes(s: seq<Instr>)
    requires Readable(s)
    ensures Made(s, Pass(s))
    decreases |s|
  {
    if s != [] {
      var rest := s[TurnAt(s).used..];
      assert forall i :: i in rest ==> i in s;
      PassMakes(rest);
    }
  }

  /** Every instruction of the optimized program was in the program, or is a jump. */
  lemma {:induction false} OptimizedMakes(s: seq<Instr>)
    requires Readable(s) && Shaped(s)
    ensures Made(s, Optimized(s))
    decreases |s|
  {
    hide Shaped, Pass;
    PassShape(s);
    PassMakes(s);
    if |Pass(s)| != |s| {
      OptimizedMakes(Pass(s));
    }
  }

  // ----- the image of a class -----

  /** No text or name in the class contains a NUL character. */
  predicate SpellableClass(c: Class) { forall i :: i in CompileClass(c).code ==> Spellable(i) }

  /** The optimized program of a class, ready for the assembler. */
  function BinaryOf(c: Class): seq<Instr>
    requires Readable(CompileClass(c).code) && Shaped(CompileClass(c).code)
  {
    Optimized(CompileClass(c).code)
  }

  /** The optimized program can be assembled. */
  lemma BinaryTabled(c: Class)
    ensures Readable(CompileClass(c).code) && Shaped(CompileClass(c).code) && Tabled(BinaryOf(c))
  {
    hide CompileClass, Optimized, Shaped, Numbering;
    ProgramReadable(c);
    var whole := CompileClass(c).code;
    OptimizedMakes(whole);
    forall i | i in Optimized(whole) && i.op == FFRAME
      ensures i.r1.Syms? && Numbering(i.r1.table)
    {
      assert Worded(i);
    }
  }

  lemma ClassLoadable(c: Class)
    requires DistinctClass(c) && SpellableClass(c)
    ensures Readable(CompileClass(c).code) && Shaped(CompileClass(c).code) && Loadable(BinaryOf(c))
  {
    hide CompileClass, Optimized, Readable, Shaped, UniqueLabels, DistinctClass, Tabled;
    ProgramReadable(c);
    ClassLabels(c);
    BinaryTabled(c);
    var whole := CompileClass(c).code;
    OptimizedMakes(whole);
    forall i | i in Optimized(whole)
      ensures Storable(i)
    {
      assert i in whole ==> Worded(i) && Spellable(i);
    }
    OptimizedLabels(whole);
  }

  /** The byte machine where a function has just been entered. */
  ghost function EntryOf(code: seq<Instr>, f: Function, regs: Regs): State
    requires Tabled(code)
  {
    ByteResume(Position(LabelMap(code), Name(f.name)), Data(regs, [], []))
  }

  lemma QuietLabelling(env: Env, v: real, m: Places)
    requires LoadsFunctions(env, v)
    ensures LoadsFunctions(Labelling(env, m), v)
  {
    forall trace, i: Instr, args, vars | i.op == MOV_FNC
      ensures Labelling(env, m)(trace, Ran(i, args, vars)) == Continue(vars, v)
    {
      ResolvedOperands(m, i);
      assert PlacedObservation(m, Ran(i, args, vars)) == Ran(Resolved(m, i), args, vars);
      assert Labelling(env, m)(trace, Ran(i, args, vars))
          == env(PlacedTrace(m, trace), Ran(Resolved(m, i), args, vars));
    }
  }

  lemma EmptyPlaced(m: Places, regs: Regs)
    ensures PlacedData(m, Data(regs, [], [])) == Data(regs, [], [])
  {
  }

  /** The interpreter, entered at a function's address in the image of its class, ends with an
      outcome if and only if the source of the function does. */
  lemma ImageHaltsAsSource(env: Env, v: real, c: Class, k: nat, st: Store, regs: Regs, o: Outcome)
    requires DistinctClass(c) && SpellableClass(c) && AllVisible(c.body) && k < |FunctionsOf(c)|
    requires var f := FunctionsOf(c)[k];
             Compilable(f) && LoadsFunctions(env, v) && Optimizable(f, CounterAt(c, k))
                 && Represents(FunctionTables(f).symbols, st, regs)
    ensures Readable(CompileClass(c).code) && Shaped(CompileClass(c).code) && Tabled(BinaryOf(c))
    ensures var f := FunctionsOf(c)[k]; f.name in st && AllInFragment(f.body, st[f.name := v].Keys, false)
    ensures var f := FunctionsOf(c)[k];
            (exists t :: ByteHalts(env, |FunctionTables(f).symbols|, Image(BinaryOf(c)), EntryOf(BinaryOf(c), f, regs),
                                   o, t))
            <==> SourceHalts(f.body, st[f.name := v], o)
  {
    hide CompileClass, Optimized, Storable, Readable, Shaped, UniqueLabels, DistinctClass, FunctionsOf, Image,
         AllVisible, LabelMap, Labelling,
         ByteHalts, Halts, FunctionTables, Compilable, Optimizable, SpellableClass, CounterAt, SourceHalts, PlacedData,
             Position, Resume, ByteResume,
         BodyData, LoadsFunctions, Represents, AllInFragment, Entered, PlacedTrace, OutcomeOf;
    var f := FunctionsOf(c)[k];
    var d, nv := Data(regs, [], []), |FunctionTables(f).symbols|;
    ClassLoadable(c);
    var code, m := BinaryOf(c), LabelMap(BinaryOf(c));
    var l := Labelling(env, m);
    QuietLabelling(env, v, m);
    EmptyPlaced(m, regs);
    EntersGood(f, st, regs);
    forall o', t
      ensures f.name in st && AllInFragment(f.body, st[f.name := v].Keys, false)
      ensures Halts(l, nv, code, Resume(code, Name(f.name), d), o', t)
              <==> SourceHalts(f.body, st[f.name := v], o') && t == BodyData(f, v, d).trace
    {
      ClassHaltsAsSource(l, v, c, k, st, d, o', t);
    }
    ClassHaltsAsSource(l, v, c, k, st, d, o, []);
    NeverStuck(f, v, st);
    FunctionFound(c, k);
    ImageHaltsAsCode(env, nv, code, Name(f.name), d, o);
    if t' :| ByteHalts(env, nv, Image(code), EntryOf(code, f, regs), o, t') {
      var t :| t' == PlacedTrace(m, t) && Halts(l, nv, code, Resume(code, Name(f.name), d), o, t);
    }
    if SourceHalts(f.body, st[f.name := v], o) {
      var t := BodyData(f, v, d).trace;
      assert Halts(l, nv, code, Resume(code, Name(f.name), d), o, t);
      assert ByteHalts(env, nv, Image(code), EntryOf(code, f, regs), o, PlacedTrace(m, t));
    }
  }

  lemma EntersGood(f: Function, st: Store, regs: Regs)
    requires Represents(FunctionTables(f).symbols, st, regs)
    ensures Entered(f, st, Data(regs, [], []))
  {
    hide FunctionTables;
  }

  /** The name of every function of the class is a label of the optimized program. */
  lemma FunctionFound(c: Class, k: nat)
    requires DistinctClass(c) && SpellableClass(c) && k < |FunctionsOf(c)|
    ensures Readable(CompileClass(c).code) && Shaped(CompileClass(c).code)
    ensures Find(BinaryOf(c), Name(FunctionsOf(c)[k].name)).Some?
  {
    hide CompileClass, Optimized, Storable, Readable, Shaped, UniqueLabels, DistinctClass, FunctionsOf, CodeBefore,
         CodeAfter, CounterAt, SpellableClass;
    var f, whole := FunctionsOf(c)[k], CompileClass(c).code;
    ClassLoadable(c);
    ClassSplit(c, k);
    var own := FunctionCode(f, CounterAt(c, k)).code;
    NameFirst(f, CounterAt(c, k));
    assert whole[|CodeBefore(c, k)|] == own[0];
    OptimizedLabels(whole);
    LabelNamesAt(whole, Name(f.name));
    LabelNamesAt(Optimized(whole), Name(f.name));
  }

  lemma NameFirst(f: Function, n: nat)
    ensures var c := FunctionCode(f, n).code; |c| > 0 && c[0] == Label(f.name)
  {
    hide FunctionTables, CompileBody;
  }

  /** ... with no condition on the rewriting when the function is plain. */
  lemma PlainImageHaltsAsSource(env: Env, v: real, c: Class, k: nat, st: Store, regs: Regs, o: Outcome)
    requires DistinctClass(c) && SpellableClass(c) && AllVisible(c.body) && k < |FunctionsOf(c)|
    requires var f := FunctionsOf(c)[k];
             Compilable(f) && AllPlain(f.body, None) && LoadsFunctions(env, v)
                 && Represents(FunctionTables(f).symbols, st, regs)
    ensures Readable(CompileClass(c).code) && Shaped(CompileClass(c).code) && Tabled(BinaryOf(c))
    ensures var f := FunctionsOf(c)[k]; f.name in st && AllInFragment(f.body, st[f.name := v].Keys, false)
    ensures var f := FunctionsOf(c)[k];
            (exists t :: ByteHalts(env, |FunctionTables(f).symbols|, Image(BinaryOf(c)), EntryOf(BinaryOf(c), f, regs),
                                   o, t))
            <==> SourceHalts(f.body, st[f.name := v], o)
  {
    hide CompileClass, Optimized, DistinctClass, FunctionsOf, Image, ByteHalts, FunctionTables, Compilable,
         Optimizable, SpellableClass,
         CounterAt, SourceHalts, LoadsFunctions, Represents, EntryOf, AllPlain;
    PlainIsOptimizable(FunctionsOf(c)[k], CounterAt(c, k));
    ImageHaltsAsSource(env, v, c, k, st, regs, o);
  }
}
