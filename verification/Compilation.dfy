/** The compiler's objects (src/program/Program.cpp, src/compiler/ExprssionCompiler.cpp,
    src/compiler/Compiler.cpp): they append to one instruction list, take and give back
    registers of the function at hand, count labels, and patch frame headers afterwards.
    Every method is tied to the code functions of Codegen. */
module Compilation {
  import opened Sequences
  import opened Options
  import opened Bytecode
  import opened Registers
  import opened Labels
  import opened Source
  import opened Symbols
  import opened Codegen
  import Assembler

  class Program {
    var instructions: seq<Instr>

    constructor ()
      ensures instructions == []
    {
      instructions := [];
    }

    method AddInstruction(opcode: nat, r0: Word, r1: Word, r2: Word) returns (index: nat)
      modifies this`instructions
      ensures instructions == old(instructions) + [Instr(opcode, r0, r1, r2)]
      ensures index == |old(instructions)|
    {
      index := |instructions|;
      instructions := instructions + [Instr(opcode, r0, r1, r2)];
    }

    method PatchFrame(index: nat, locals: nat, ts: Tables, endLabel: string)
      requires index < |instructions|
      modifies this`instructions
      ensures instructions == old(instructions)[index := Instr(old(instructions[index]).op, Idx(locals),
                                                               Syms(ts.symbols, ts.privates), Name(endLabel))]
    {
      instructions := instructions[index := instructions[index].(r0 := Idx(locals),
                                                                 r1 := Syms(ts.symbols, ts.privates),
                                                                     r2 := Name(endLabel))];
    }

    method AddLabel(name: string)
      modifies this`instructions
      ensures instructions == old(instructions) + [Label(name)]
    {
      var _ := AddInstruction(LABEL, Name(name), NULL, NULL);
    }
  }

  type Owner = FunctionKind<Function>

  class ExpressionCompiler {
    const program: Program
    const owner: Owner

    constructor (program: Program, owner: Owner)
      ensures this.program == program && this.owner == owner
    {
      this.program, this.owner := program, owner;
    }

    /** The emitted code, the register handed out, and the table afterwards are those of o. */
    twostate predicate Emitted(o: Out, reg: nat)
      reads program, owner
    {
      && program.instructions == old(program.instructions) + o.code
      && reg == o.reg
      && owner.Valid() && owner.Temporaries() == o.pool
    }

    method CompileExpression(e: Expr, dest: nat) returns (reg: nat)
      requires owner.Valid()
      modifies program`instructions, owner`registerTable
      ensures Emitted(CompileExpr(e, dest, owner.symbolTable, old(owner.Temporaries())), reg)
      decreases e, 1
    {
      hide CompileExpr, CompileNumber, CompileIdent;
      ghost var t, p := owner.symbolTable, owner.Temporaries();
      ExprCases(e, dest, t, p);
      match e
      case Number(x) => reg := CompileNumberTerminal(x, dest);
      case Ident(x) => reg := CompileIdentifierImmediate(x, dest);
      case Binary(op, l, r) => reg := CompileBinary(op, l, r, dest);
      case Assign(x, v) => reg := CompileAssignment(x, v, dest);
      case Postfix(x, up) => reg := CompilePostfix(x, up, dest);
      case MethodCall(c, args) => reg := CompileMethodCall(c, args, dest);
      case ThrowPrefix(v) => reg := CompilePrefix(v, dest);
    }

    method Target(dest: nat) returns (reg: nat)
      requires owner.Valid()
      modifies owner`registerTable
      ensures owner.Valid()
      ensures reg == Codegen.Target(|owner.symbolTable|, dest, old(owner.Temporaries()))
      ensures owner.Temporaries() == TargetPool(dest, old(owner.Temporaries()))
    {
      if dest == 0 {
        reg := owner.GetTemporary();
      } else {
        reg := dest;
      }
    }

    method CompileNumberTerminal(x: real, dest: nat) returns (reg: nat)
      requires owner.Valid()
      modifies program`instructions, owner`registerTable
      ensures Emitted(CompileNumber(x, dest, owner.symbolTable, old(owner.Temporaries())), reg)
    {
      reg := Target(dest);
      var _ := program.AddInstruction(MOV_NUMBER, Idx(reg), Lit(x), NULL);
    }

    method CompileIdentifierImmediate(x: string, dest: nat) returns (reg: nat)
      requires owner.Valid()
      modifies program`instructions, owner`registerTable
      ensures Emitted(CompileIdent(x, dest, owner.symbolTable, old(owner.Temporaries())), reg)
    {
      reg := owner.Lookup(x);
      if reg == 0 {
        reg := Target(dest);
        var _ := program.AddInstruction(GET_FIELD_IMMEDIATE, Idx(1), Name(x), Idx(reg));
      }
    }

    method CompileBinary(op: Op, l: Expr, r: Expr, dest: nat) returns (resultReg: nat)
      requires owner.Valid()
      modifies program`instructions, owner`registerTable
      ensures Emitted(CompileExpr(Binary(op, l, r), dest, owner.symbolTable, old(owner.Temporaries())), resultReg)
      decreases Binary(op, l, r), 0
    {
      hide CompileExpr, Codegen.Target, TargetPool, Release, Take, Taken, RegisterOf, FunctionKind.Valid,
           FunctionKind.Temporaries;
      BinaryParted(op, l, r, dest, owner.symbolTable, owner.Temporaries());
      var leftReg := CompileExpression(l, 0);
      var rightReg := CompileExpression(r, 0);
      resultReg := Target(dest);
      var _ := program.AddInstruction(Opcode(op), Idx(leftReg), Idx(rightReg), Idx(resultReg));
      if rightReg != resultReg {
        owner.FreeRegister(rightReg);
      }
      owner.FreeRegister(leftReg);
    }

    method CompileAssignment(x: string, v: Expr, dest: nat) returns (resultReg: nat)
      requires owner.Valid()
      modifies program`instructions, owner`registerTable
      ensures Emitted(CompileExpr(Assign(x, v), dest, owner.symbolTable, old(owner.Temporaries())), resultReg)
      decreases Assign(x, v), 0
    {
      hide CompileExpr, Codegen.Target, TargetPool, Release, Take, Taken, FunctionKind.Valid, FunctionKind.Temporaries;
      AssignParted(x, v, dest, owner.symbolTable, owner.Temporaries());
      if owner.Lookup(x) == 0 {
        var name := owner.GetTemporary();
        var _ := program.AddInstruction(MOV_STR, Idx(name), Name(x), NULL);
        var value := CompileExpression(v, 0);
        var _ := program.AddInstruction(SET_FIELD, Idx(1), Idx(name), Idx(value));
        return 0;
      }
      var leftReg := owner.Lookup(x);
      var rightReg := CompileExpression(v, leftReg);
      resultReg := Target(dest);
      if rightReg != resultReg {
        owner.FreeRegister(rightReg);
      }
      owner.FreeRegister(leftReg);
    }

    method CompilePostfix(x: string, up: bool, dest: nat) returns (target: nat)
      requires owner.Valid()
      modifies program`instructions, owner`registerTable
      ensures Emitted(CompileExpr(Postfix(x, up), dest, owner.symbolTable, old(owner.Temporaries())), target)
    {
      hide CompileExpr, CompileIdent, Codegen.Target, TargetPool, Release, Take, Taken, FunctionKind.Valid,
           FunctionKind.Temporaries;
      PostfixParted(x, up, dest, owner.symbolTable, owner.Temporaries());
      var leftReg := CompileIdentifierImmediate(x, 0);
      target := Target(dest);
      var _ := program.AddInstruction(MOV, Idx(target), Idx(leftReg), NULL);
      var _ := program.AddInstruction(if up then INC else DEC, Idx(leftReg), Idx(leftReg), NULL);
      if owner.Lookup(x) == 0 {
        WriteBack(x, leftReg);
      }
    }

    /** A name of another scope is written back by a virtual set. */
    method WriteBack(x: string, reg: nat)
      requires owner.Valid()
      modifies program`instructions, owner`registerTable
      ensures owner.Valid()
      ensures var n, p := |owner.symbolTable|, old(owner.Temporaries());
              var name := Taken(n, p);
              && program.instructions == old(program.instructions)
                                         + [Instr(MOV_STR, Idx(name), Name(x), NULL),
                                            Instr(SET_FIELD, Idx(1), Idx(name), Idx(reg))]
              && owner.Temporaries() == Release(n, Take(p), name)
    {
      hide Release, Take, Taken, FunctionKind.Valid, FunctionKind.Temporaries;
      var temp := owner.GetTemporary();
      var _ := program.AddInstruction(MOV_STR, Idx(temp), Name(x), NULL);
      var _ := program.AddInstruction(SET_FIELD, Idx(1), Idx(temp), Idx(reg));
      owner.FreeRegister(temp);
    }

    method CompileMethodCall(callee: Expr, args: seq<Expr>, dest: nat) returns (resultReg: nat)
      requires owner.Valid()
      modifies program`instructions, owner`registerTable
      ensures Emitted(CompileExpr(MethodCall(callee, args), dest, owner.symbolTable, old(owner.Temporaries())),
                      resultReg)
      decreases MethodCall(callee, args), 0
    {
      hide CompileExpr, Codegen.Target, TargetPool, Release, Take, Taken, FunctionKind.Valid, FunctionKind.Temporaries;
      ghost var t, n := owner.symbolTable, |owner.symbolTable|;
      CallParted(callee, args, dest, t, owner.Temporaries());
      resultReg := Target(dest);
      var exprResultReg := owner.GetTemporary();
      ghost var c := CallCode([], resultReg, exprResultReg, owner.Temporaries());
      ghost var all := CompileArguments(args, t, c);
      var i := 0;
      assert args[..|args|] == args;
      while i < |args|
        invariant 0 <= i <= |args|
        invariant owner.Valid() && owner.symbolTable == t
        invariant program.instructions == old(program.instructions) + c.code
        invariant c.result == resultReg && c.next == exprResultReg && c.pool == owner.Temporaries()
        invariant CompileArguments(args[..|args| - i], t, c) == all
      {
        ghost var o := CompileExpr(args[|args| - 1 - i], c.next, t, c.pool);
        assert args[..|args| - i][..|args| - i - 1] == args[..|args| - (i + 1)];
        exprResultReg := CompileExpression(args[|args| - 1 - i], exprResultReg);
        var _ := program.AddInstruction(PUSH, Idx(exprResultReg), NULL, NULL);
        c := CallCode(c.code + o.code + [Instr(PUSH, Idx(o.reg), NULL, NULL)], c.result, o.reg, o.pool);
        i := i + 1;
      }
      owner.FreeRegister(exprResultReg);
      exprResultReg := CompileExpression(callee, 0);
      var _ := program.AddInstruction(CALL, Idx(exprResultReg), Idx(resultReg), Idx(|args|));
      owner.FreeRegister(exprResultReg);
    }

    /** throw: the destination is asked for, but nothing is put there. */
    method CompilePrefix(v: Expr, dest: nat) returns (target: nat)
      requires owner.Valid()
      modifies program`instructions, owner`registerTable
      ensures Emitted(CompileExpr(ThrowPrefix(v), dest, owner.symbolTable, old(owner.Temporaries())), target)
      decreases ThrowPrefix(v), 0
    {
      hide CompileExpr, Codegen.Target, Release, Take, Taken, FunctionKind.Valid, FunctionKind.Temporaries;
      ThrowParted(v, dest, owner.symbolTable, owner.Temporaries());
      var leftReg := CompileExpression(v, 0);
      target := Target(dest);
      if dest == 0 {
        owner.FreeRegister(target);
      }
      var _ := program.AddInstruction(THROW_EXCEPTION, Idx(leftReg), NULL, NULL);
    }
  }

  // ----- what the class compiler is proved for -----

  /** Statements whose code does not depend on the enclosing try statements: none returns inside
      a try with a finally block. Breaks are in loops; the static constructor is left out. */
  predicate Supported(s: Stmt, inLoop: bool, inFinally: bool)
    decreases s, 1
  {
    match s
    case Return(_) => !inFinally
    case Break => inLoop
    case Block(b) => AllSupported(b, inLoop, inFinally)
    case If(_, t, hasElse, e) => AllSupported(t, inLoop, inFinally) && (hasElse ==> AllSupported(e, inLoop, inFinally))
    case Loop(_, _, _, b) => AllSupported(b, true, inFinally)
    case Try(b, _, h, hasFinally, f) =>
      var within := inFinally || hasFinally;
      AllSupported(b, inLoop, within) && AllSupported(h, inLoop, within)
          && (hasFinally ==> AllSupported(f, inLoop, within))
    case Define(f) => SupportedFunction(f)
    case _ => true
  }

  predicate SupportedFunction(f: Function)
    decreases f, 2
  {
    f.name != Assembler.STATIC_CONSTRUCTOR && AllSupported(f.body, false, false)
  }

  predicate AllSupported(ss: seq<Stmt>, inLoop: bool, inFinally: bool)
    decreases ss, 0
  {
    ss == [] || (Supported(ss[0], inLoop, inFinally) && AllSupported(ss[1..], inLoop, inFinally))
  }

  predicate SupportedFunctions(fs: seq<Function>) { forall f :: f in fs ==> SupportedFunction(f) }

  /** The functions set aside for later are supported too. */
  lemma {:induction false} LaterSupported(ss: seq<Stmt>, inLoop: bool, inFinally: bool)
    requires AllSupported(ss, inLoop, inFinally)
    ensures SupportedFunctions(Later(ss))
    decreases ss, 0
  {
    hide SupportedFunction;
    if ss != [] {
      LaterInSupported(ss[0], inLoop, inFinally);
      LaterSupported(ss[1..], inLoop, inFinally);
    }
  }

  lemma {:induction false} LaterInSupported(s: Stmt, inLoop: bool, inFinally: bool)
    requires Supported(s, inLoop, inFinally)
    ensures SupportedFunctions(LaterIn(s))
    decreases s, 1
  {
    hide SupportedFunction;
    match s
    case Block(b) => LaterSupported(b, inLoop, inFinally);
    case If(_, t, hasElse, e) =>
      LaterSupported(t, inLoop, inFinally);
      if hasElse {
        LaterSupported(e, inLoop, inFinally);
      }
    case Loop(_, _, _, b) => LaterSupported(b, true, inFinally);
    case Try(b, _, h, hasFinally, f) =>
      LaterSupported(b, inLoop, inFinally || hasFinally);
      LaterSupported(h, inLoop, inFinally || hasFinally);
      if hasFinally {
        LaterSupported(f, inLoop, inFinally || hasFinally);
      }
    case _ =>
  }

  /** What compiling a function has produced so far: the instruction list, the function's
      register table, the label counter, the functions set aside for later; and what the
      function is compiled in: its symbols, the enclosing loops' ends, and finally blocks. */
  datatype Progress = Progress(code: seq<Instr>, pool: Pool, labels: nat, later: seq<Function>,
                               symbols: Table, ends: seq<string>, blocks: seq<seq<Stmt>>) {
    function Emitting(c: seq<Instr>): Progress { this.(code := code + c) }

    function Plus(o: Piece): Progress { this.(code := code + o.code, pool := o.pool, labels := o.labels) }

    function With(o: Piece, fs: seq<Function>): Progress { Plus(o).(later := later + fs) }
  }

  lemma LoopJoined(base: seq<Instr>, start: seq<Instr>, body: seq<Instr>, iter: seq<Instr>, test: seq<Instr>,
                   cond: seq<Instr>, last: seq<Instr>)
    ensures base + start + body + (iter + test + cond + last) == base + (start + body + iter + test + cond + last)
  {
  }

  lemma IfJoined(base: seq<Instr>, cond: seq<Instr>, thn: seq<Instr>, jump: seq<Instr>, mark: seq<Instr>,
                 els: seq<Instr>, last: seq<Instr>)
    ensures base + cond + thn + (jump + mark + els + last) == base + (cond + thn + jump + mark + els + last)
  {
  }

  lemma EffectLabels(e: Option<Expr>, t: Table, p: Pool, n: nat)
    ensures CompileEffect(e, t, p, n).labels == n
  {
  }

  lemma AllEnds(t: Table, ends: seq<string>, p: Pool, n: nat)
    ensures CompileAll([], t, ends, p, n) == Piece([], p, n) && Later([]) == []
  {
  }

  lemma AllUnfolds(ss: seq<Stmt>, i: nat, t: Table, ends: seq<string>, p: Pool, n: nat)
    requires i < |ss|
    ensures var a := Codegen.CompileStmt(ss[i], t, ends, p, n);
            var b := CompileAll(ss[i + 1..], t, ends, a.pool, a.labels);
            CompileAll(ss[i..], t, ends, p, n) == Piece(a.code + b.code, b.pool, b.labels)
    ensures Later(ss[i..]) == LaterIn(ss[i]) + Later(ss[i + 1..])
  {
    hide Codegen.CompileStmt, LaterIn;
    assert ss[i..][1..] == ss[i + 1..];
  }

  /** An optional body, compiled where m stands. */
  function CompileIf(present: bool, ss: seq<Stmt>, m: Progress): Piece {
    if present then Codegen.CompileBody(ss, m.symbols, m.ends, m.pool, m.labels) else Piece([], m.pool, m.labels)
  }

  function LaterIf(present: bool, ss: seq<Stmt>): seq<Function> { if present then Later(ss) else [] }

  /** Where a try statement stands before the code of its handler. */
  function GuardedFrom(s: Stmt, m: Progress): Progress
    requires s.Try?
  {
    var set0 := Instr(SET_CATCH, Name(Tag(CATCH, m.labels + 1)), Name(Tag(FINALLY, m.labels + 2)), NULL);
    var b := Codegen.CompileBody(s.body, m.symbols, m.ends, m.pool, m.labels + 2);
    m.Emitting([set0]).With(b, Later(s.body))
     .Emitting([Jump(Tag(FINALLY, m.labels + 2)), Label(Tag(CATCH, m.labels + 1))]
               + [Instr(POP, Idx(RegisterOf(m.symbols, s.exception)), NULL, NULL)])
     .(blocks := m.blocks + if s.hasFinally then [s.finallyBody] else [])
  }

  /** The parts of a try statement, emitted one after the other. */
  lemma TryMakes(s: Stmt, m: Progress)
    requires s.Try?
    ensures var set0 := Instr(SET_CATCH, Name(Tag(CATCH, m.labels + 1)), Name(Tag(FINALLY, m.labels + 2)), NULL);
            var b := Codegen.CompileBody(s.body, m.symbols, m.ends, m.pool, m.labels + 2);
            var h := Codegen.CompileBody(s.handler, m.symbols, m.ends, b.pool, b.labels);
            var f := CompileIf(s.hasFinally, s.finallyBody, m.(pool := h.pool, labels := h.labels));
            var o := Codegen.CompileStmt(s, m.symbols, m.ends, m.pool, m.labels);
            && m.code + [set0] + b.code
               + ([Jump(Tag(FINALLY, m.labels + 2)), Label(Tag(CATCH, m.labels + 1))]
                  + [Instr(POP, Idx(RegisterOf(m.symbols, s.exception)), NULL, NULL)])
               + h.code + ([Label(Tag(FINALLY, m.labels + 2))] + f.code + [Instr(CLEAR_CATCH, NULL, NULL, NULL)])
               == m.code + o.code
            && f.pool == o.pool && f.labels == o.labels
            && m.later + Later(s.body) + Later(s.handler) + LaterIf(s.hasFinally, s.finallyBody) == m.later
                + LaterIn(s)
  {
    hide Codegen.CompileBody, Codegen.CompileStmt, Later, Tag, RegisterOf;
    TryParted(s, m.symbols, m.ends, m.pool, m.labels);
    var c := TryParts(s, m.symbols, m.ends, m.pool, m.labels);
    TryJoined(m.code, [Instr(SET_CATCH, Name(Tag(CATCH, m.labels + 1)), Name(Tag(FINALLY, m.labels + 2)), NULL)],
              c.body.code,
              [Jump(Tag(FINALLY, m.labels + 2)), Label(Tag(CATCH, m.labels + 1))],
                  [Instr(POP, Idx(RegisterOf(m.symbols, s.exception)), NULL, NULL)],
              c.handler.code, [Label(Tag(FINALLY, m.labels + 2))], c.finallyBody.code,
                  [Instr(CLEAR_CATCH, NULL, NULL, NULL)]);
    Associate(m.later, Later(s.body), Later(s.handler));
    Associate(m.later, Later(s.body) + Later(s.handler), LaterIf(s.hasFinally, s.finallyBody));
  }

  lemma TryJoined(base: seq<Instr>, set0: seq<Instr>, body: seq<Instr>, jump: seq<Instr>, pop: seq<Instr>,
                  handler: seq<Instr>,
                  mark: seq<Instr>, last: seq<Instr>, clear: seq<Instr>)
    ensures base + set0 + body + (jump + pop) + handler + (mark + last + clear)
            == base + (set0 + body + jump + pop + handler + mark + last + clear)
  {
  }

  /** Filling in the frame header after everything else gives the unit's code. */
  lemma Patched(base: seq<Instr>, name: string, blank: Instr, header: Instr, parts: seq<Instr>, last: seq<Instr>,
                rest: seq<Instr>)
    ensures (base + [Label(name), blank] + parts + last + rest)[|base| + 1 := header]
            == base + ([Label(name), header] + parts + last + rest)
  {
  }

  lemma FunctionMakes(f: Function, base: seq<Instr>, n: nat)
    ensures var ts, blank := FunctionTables(f), Instr(FFRAME, NULL, NULL, NULL);
            var b := Codegen.CompileBody(f.body, ts.symbols, [], [], n);
            var rest := CompileFunctions(Later(f.body), b.labels);
            var o := Codegen.CompileFunction(f, n);
            && (base + [Label(f.name), blank] + [LoadFunction(f, ts.symbols)] + b.code
                + [RETURN_NULL, Label("end" + f.name)] + rest.code)
               [|base| + 1 := FrameHeader(|b.pool| + |ts.symbols|, ts, f.name)] == base + o.code
            && rest.labels == o.labels
  {
    hide Codegen.CompileBody, Later, CompileFunctions, FunctionTables, FrameHeader, LoadFunction;
    LaterSize(f.body);
    var ts, blank := FunctionTables(f), Instr(FFRAME, NULL, NULL, NULL);
    var b := Codegen.CompileBody(f.body, ts.symbols, [], [], n);
    var header, load := FrameHeader(|b.pool| + |ts.symbols|, ts, f.name), [LoadFunction(f, ts.symbols)];
    var last, rest := [RETURN_NULL, Label("end" + f.name)], CompileFunctions(Later(f.body), b.labels).code;
    Patched(base, f.name, blank, header, load + b.code, last, rest);
    Associate(base + [Label(f.name), blank], load, b.code);
    assert FunctionCode(f, n).code == [Label(f.name), header] + (load + b.code) + last;
  }

  lemma ClassMakes(c: Class)
    ensures var ts, blank := ClassTables(c), Instr(FFRAME, NULL, NULL, NULL);
            var b := Codegen.CompileBody(c.body, ts.symbols, [], [], 0);
            var rest := CompileFunctions(Later(c.body), b.labels);
            ([] + [Label(c.name), blank] + [Instr(CREATE_THIS, NULL, NULL, NULL)] + PopArguments(c.params, ts.symbols)
             + b.code
             + [RETURN_NULL, Label("end" + c.name)] + rest.code)[1 := FrameHeader(|b.pool| + |ts.symbols|, ts, c.name)]
            == Codegen.CompileClass(c).code
  {
    hide Codegen.CompileBody, Later, CompileFunctions, ClassTables, FrameHeader, PopArguments;
    var ts, blank := ClassTables(c), Instr(FFRAME, NULL, NULL, NULL);
    var b := Codegen.CompileBody(c.body, ts.symbols, [], [], 0);
    var header, create, pops := FrameHeader(|b.pool| + |ts.symbols|, ts, c.name),
        [Instr(CREATE_THIS, NULL, NULL, NULL)], PopArguments(c.params, ts.symbols);
    var last, rest := [RETURN_NULL, Label("end" + c.name)], CompileFunctions(Later(c.body), b.labels).code;
    Patched([], c.name, blank, header, create + pops + b.code, last, rest);
    assert [] + [Label(c.name), blank] + create + pops + b.code == [] + [Label(c.name), blank]
        + (create + pops + b.code);
    assert ClassCode(c, 0).code == [Label(c.name), header] + (create + pops + b.code) + last;
  }

  /** The functions at and below fs have the tables of their own names. */
  ghost predicate Addressed(fs: seq<Function>, tables: map<Function, Tables>) {
    forall f :: f in Flat(fs) ==> f in tables && tables[f] == FunctionTables(f)
  }

  lemma AddressedBelow(f: Function, tables: map<Function, Tables>)
    requires Addressed([f], tables)
    ensures f in tables && tables[f] == FunctionTables(f) && Addressed(Later(f.body), tables)
  {
    LaterSize(f.body);
    assert [f][0] == f && Flat([f]) == [f] + Flat(Later(f.body)) + Flat([f][1..]);
  }

  lemma {:induction false} AddressedOne(fs: seq<Function>, i: nat, tables: map<Function, Tables>)
    requires Addressed(fs, tables) && i < |fs|
    ensures Addressed([fs[i]], tables)
    decreases i
  {
    hide FunctionTables;
    LaterSize(fs[0].body);
    assert Flat(fs) == [fs[0]] + Flat(Later(fs[0].body)) + Flat(fs[1..]);
    if i == 0 {
      LaterSize([fs[0]][0].body);
      assert [fs[0]][1..] == [];
      assert Flat([fs[0]]) == [fs[0]] + Flat(Later(fs[0].body)) + Flat([]);
    } else {
      AddressedOne(fs[1..], i - 1, tables);
    }
  }

  class Compiler {
    const program: Program
    /** What the address calculator left on the functions of the tree. */
    const tables: map<Function, Tables>
    /** The functions being compiled, innermost last. */
    var functionsStack: seq<Owner>
    var loopEndLabelsStack: seq<string>
    var finallyBlocksToPrependReturn: seq<seq<Stmt>>
    var labelCount: nat
    ghost var made: Progress

    constructor (tables: map<Function, Tables>)
      ensures fresh(program) && program.instructions == [] && this.tables == tables
      ensures functionsStack == [] && loopEndLabelsStack == [] && finallyBlocksToPrependReturn == [] && labelCount == 0
    {
      program := new Program();
      this.tables := tables;
      made := Progress([], [], 0, [], map[], [], []);
      functionsStack, loopEndLabelsStack, finallyBlocksToPrependReturn, labelCount := [], [], [], 0;
    }

    function Top(): Owner
      reads this`functionsStack
      requires functionsStack != []
    {
      functionsStack[|functionsStack| - 1]
    }

    /** made is what has been produced. */
    ghost predicate Ready()
      reads this, program, if functionsStack == [] then {} else {Top()}
    {
      && functionsStack != [] && Top().Valid()
      && made == Progress(program.instructions, Top().Temporaries(), labelCount, Top().functionsToCompile,
                          Top().symbolTable, loopEndLabelsStack, finallyBlocksToPrependReturn)
    }

    // ----- single steps -----

    method FreshLabel(prefix: string) returns (name: string)
      requires functionsStack != [] && Ready()
      modifies this`made, this`labelCount
      ensures Ready() && made == old(made).(labels := old(made).labels + 1) && name == Tag(prefix, made.labels)
    {
      labelCount := labelCount + 1;
      name := Tag(prefix, labelCount);
      made := made.(labels := labelCount);
    }

    method FreshLabels(prefix: string, prefix': string) returns (name: string, name': string)
      requires functionsStack != [] && Ready()
      modifies this`made, this`labelCount
      ensures Ready() && made == old(made).(labels := old(made).labels + 2)
      ensures name == Tag(prefix, old(made).labels + 1) && name' == Tag(prefix', old(made).labels + 2)
    {
      name := FreshLabel(prefix);
      name' := FreshLabel(prefix');
    }

    method PushLoop(endLabel: string)
      requires functionsStack != [] && Ready()
      modifies this`made, this`loopEndLabelsStack
      ensures Ready() && made == old(made).(ends := old(made).ends + [endLabel])
    {
      loopEndLabelsStack := loopEndLabelsStack + [endLabel];
      made := made.(ends := loopEndLabelsStack);
    }

    method PopLoop()
      requires functionsStack != [] && Ready() && made.ends != []
      modifies this`made, this`loopEndLabelsStack
      ensures Ready() && made == old(made).(ends := old(made).ends[..|old(made).ends| - 1])
    {
      loopEndLabelsStack := loopEndLabelsStack[..|loopEndLabelsStack| - 1];
      made := made.(ends := loopEndLabelsStack);
    }

    /** A finally block is kept while its try statement is compiled. */
    method PushFinally(hasFinally: bool, block: seq<Stmt>)
      requires functionsStack != [] && Ready()
      modifies this`made, this`finallyBlocksToPrependReturn
      ensures Ready() && made == old(made).(blocks := old(made).blocks + if hasFinally then [block] else [])
    {
      if hasFinally {
        finallyBlocksToPrependReturn := finallyBlocksToPrependReturn + [block];
        made := made.(blocks := finallyBlocksToPrependReturn);
      }
    }

    method PopFinally(hasFinally: bool)
      requires functionsStack != [] && Ready() && (hasFinally ==> made.blocks != [])
      modifies this`made, this`finallyBlocksToPrependReturn
      ensures Ready() && made == old(made).(blocks := if hasFinally then old(made).blocks[..|old(made).blocks| - 1]
                                            else old(made).blocks)
    {
      if hasFinally {
        finallyBlocksToPrependReturn := finallyBlocksToPrependReturn[..|finallyBlocksToPrependReturn| - 1];
        made := made.(blocks := finallyBlocksToPrependReturn);
      }
    }

    method AddInstruction(opcode: nat, r0: Word, r1: Word, r2: Word)
      requires functionsStack != [] && Ready()
      modifies this`made, program`instructions
      ensures Ready() && made == old(made).Emitting([Instr(opcode, r0, r1, r2)])
    {
      var _ := program.AddInstruction(opcode, r0, r1, r2);
      made := made.(code := program.instructions);
    }

    method AddLabel(name: string)
      requires functionsStack != [] && Ready()
      modifies this`made, program`instructions
      ensures Ready() && made == old(made).Emitting([Label(name)])
    {
      program.AddLabel(name);
      made := made.(code := program.instructions);
    }

    method FreeRegister(index: nat)
      requires functionsStack != [] && Ready()
      modifies this`made, Top()`registerTable
      ensures Ready() && made == old(made).(pool := Release(|old(made).symbols|, old(made).pool, index))
    {
      Top().FreeRegister(index);
      made := made.(pool := Top().Temporaries());
    }

    method CompileExpression(e: Expr, dest: nat) returns (reg: nat)
      requires functionsStack != [] && Ready()
      modifies this`made, program`instructions, Top()`registerTable
      ensures var o := CompileExpr(e, dest, old(made).symbols, old(made).pool);
              Ready() && made == old(made).Emitting(o.code).(pool := o.pool) && reg == o.reg
    {
      var expressionCompiler := new ExpressionCompiler(program, Top());
      reg := expressionCompiler.CompileExpression(e, dest);
      made := made.(code := program.instructions, pool := Top().Temporaries());
    }

    method CompileForEffect(e: Option<Expr>)
      requires functionsStack != [] && Ready()
      modifies this`made, program`instructions, Top()`registerTable
      ensures var o := CompileEffect(e, old(made).symbols, old(made).pool, old(made).labels);
              Ready() && made == old(made).Plus(o)
    {
      hide CompileExpr, Release, Compiler.Ready;
      if e.Some? {
        var reg := CompileExpression(e.value, 0);
        FreeRegister(reg);
      }
    }

    /** A condition and the jump that tests it. */
    method CompileTest(e: Expr, opcode: nat, target: string)
      requires functionsStack != [] && Ready()
      modifies this`made, program`instructions, Top()`registerTable
      ensures var o := CompileExpr(e, 0, old(made).symbols, old(made).pool);
              && Ready()
              && made == old(made).Emitting(o.code + [Instr(opcode, Idx(o.reg), Name(target), NULL)])
                                  .(pool := Release(|old(made).symbols|, o.pool, o.reg))
    {
      hide CompileExpr, Release, Compiler.Ready;
      var reg := CompileExpression(e, 0);
      AddInstruction(opcode, Idx(reg), Name(target), NULL);
      FreeRegister(reg);
    }

    method CompileOptionalTest(e: Option<Expr>, target: string)
      requires functionsStack != [] && Ready()
      modifies this`made, program`instructions, Top()`registerTable
      ensures var o := CompileCondition(e, target, old(made).symbols, old(made).pool, old(made).labels);
              Ready() && made == old(made).Plus(o)
    {
      hide CompileExpr, Release, Compiler.Ready;
      if e.Some? {
        CompileTest(e.value, JMP_TRUE, target);
      }
    }

    // ----- statements -----

    method CompileVar(x: string, v: Expr, isPrivate: bool)
      requires functionsStack != [] && Ready()
      modifies this`made, program`instructions, Top()`registerTable
      ensures Ready()
      ensures made == old(made).With(Codegen.CompileStmt(Var(x, v, isPrivate), old(made).symbols, old(made).ends,
                                                         old(made).pool, old(made).labels), [])
    {
      hide CompileExpr, Release;
      var reg := Top().Lookup(x);
      var valueReg := CompileExpression(v, reg);
      if valueReg != reg {
        AddInstruction(MOV, Idx(reg), Idx(valueReg), NULL);
        FreeRegister(valueReg);
      }
    }

    method CompileReturn(e: Expr)
      requires functionsStack != [] && Ready() && made.blocks == []
      modifies this`made, program`instructions, Top()`registerTable
      ensures Ready()
      ensures made == old(made).With(Codegen.CompileStmt(Return(e), old(made).symbols, old(made).ends, old(made).pool,
                                                         old(made).labels), [])
    {
      hide CompileExpr, Release;
      var reg := CompileExpression(e, 0);
      AddInstruction(RETURN, Idx(reg), NULL, NULL);
      FreeRegister(reg);
    }

    /** The code after the body that runs when the condition holds. */
    method EndConditional(hasElse: bool, els: seq<Stmt>, elseLabel: string, endLabel: string, ghost inLoop: bool)
      requires functionsStack != [] && Ready() && (inLoop ==> made.ends != [])
      requires hasElse ==> AllSupported(els, inLoop, made.blocks != [])
      modifies this`made, this`labelCount, this`loopEndLabelsStack, this`finallyBlocksToPrependReturn,
               program`instructions,
               Top()`registerTable, Top()`functionsToCompile
      ensures var o := CompileIf(hasElse, els, old(made));
              && Ready()
              && made == old(made).With(o.(code := (if hasElse then [Jump(endLabel)] else []) + [Label(elseLabel)]
                                           + o.code + [Label(endLabel)]),
                                        LaterIf(hasElse, els))
      decreases els, 3
    {
      hide Codegen.CompileBody, Later, Compiler.Ready, AllSupported;
      assert made.later + [] == made.later;
      if hasElse {
        AddInstruction(JMP, Name(endLabel), NULL, NULL);
      }
      AddLabel(elseLabel);
      if hasElse {
        CompileBody(els, inLoop);
      }
      AddLabel(endLabel);
    }

    method CompileConditional(s: Stmt, ghost inLoop: bool)
      requires functionsStack != [] && s.If? && Ready() && Supported(s, inLoop, made.blocks != [])
               && (inLoop ==> made.ends != [])
      modifies this`made, this`labelCount, this`loopEndLabelsStack, this`finallyBlocksToPrependReturn,
               program`instructions,
               Top()`registerTable, Top()`functionsToCompile
      ensures Ready()
      ensures made == old(made).With(Codegen.CompileStmt(s, old(made).symbols, old(made).ends, old(made).pool,
                                                         old(made).labels), LaterIn(s))
      decreases s, 0
    {
      hide CompileExpr, Codegen.CompileBody, Codegen.CompileStmt, Release, Later, Tag, Compiler.Ready;
      IfParted(s, made.symbols, made.ends, made.pool, made.labels);
      ghost var m0 := made;
      var elseLabel, endLabel := FreshLabels(ELSE, END_CONDITIONAL);
      CompileTest(s.cond, JMP_NOT_TRUE, elseLabel);
      CompileBody(s.thn, inLoop);
      EndConditional(s.hasElse, s.els, elseLabel, endLabel, inLoop);
      ghost var c := IfParts(s, m0.symbols, m0.ends, m0.pool, m0.labels);
      IfJoined(m0.code, c.cond.code + [Instr(JMP_NOT_TRUE, Idx(c.cond.reg), Name(elseLabel), NULL)], c.thn.code,
               if s.hasElse then [Jump(endLabel)] else [], [Label(elseLabel)], c.els.code, [Label(endLabel)]);
      Associate(m0.later, Later(s.thn), LaterIf(s.hasElse, s.els));
    }

    /** The loop up to its body: start expression, jump to the condition, start label. */
    method BeginLoop(start: Option<Expr>, condLabel: string, startLabel: string)
      requires functionsStack != [] && Ready()
      modifies this`made, program`instructions, Top()`registerTable
      ensures var o := CompileEffect(start, old(made).symbols, old(made).pool, old(made).labels);
              Ready() && made == old(made).Plus(o.(code := o.code + [Jump(condLabel), Label(startLabel)]))
    {
      hide CompileEffect, Compiler.Ready;
      CompileForEffect(start);
      AddInstruction(JMP, Name(condLabel), NULL, NULL);
      AddLabel(startLabel);
    }

    /** The loop after its body: iteration, condition label and test, end label. */
    method EndLoop(iter: Option<Expr>, condition: Option<Expr>, condLabel: string, startLabel: string,
                   endLabel: string)
      requires functionsStack != [] && Ready()
      modifies this`made, program`instructions, Top()`registerTable
      ensures var o := CompileEffect(iter, old(made).symbols, old(made).pool, old(made).labels);
              var c := CompileCondition(condition, startLabel, old(made).symbols, o.pool, o.labels);
              Ready() && made == old(made).Plus(c.(code := o.code + [Label(condLabel)] + c.code + [Label(endLabel)]))
    {
      hide CompileEffect, CompileCondition, Compiler.Ready;
      CompileForEffect(iter);
      AddLabel(condLabel);
      CompileOptionalTest(condition, startLabel);
      AddLabel(endLabel);
    }

    method CompileLoop(s: Stmt)
      requires functionsStack != [] && s.Loop? && Ready() && Supported(s, false, made.blocks != [])
      modifies this`made, this`labelCount, this`loopEndLabelsStack, this`finallyBlocksToPrependReturn,
               program`instructions,
               Top()`registerTable, Top()`functionsToCompile
      ensures Ready()
      ensures made == old(made).With(Codegen.CompileStmt(s, old(made).symbols, old(made).ends, old(made).pool,
                                                         old(made).labels), LaterIn(s))
      decreases s, 0
    {
      hide CompileEffect, CompileCondition, CompileExpr, Codegen.CompileBody, Codegen.CompileStmt, Release, Later, Tag,
           Compiler.Ready;
      LoopParted(s, made.symbols, made.ends, made.pool, made.labels);
      ghost var m0 := made;
      var startLabel, endLabel := FreshLabels(LOOP_START, LOOP_END);
      PushLoop(endLabel);
      var condLabel := FreshLabel(LOOP_CONDITION);
      EffectLabels(s.start, made.symbols, made.pool, made.labels);
      BeginLoop(s.start, condLabel, startLabel);
      CompileBody(s.body, true);
      EndLoop(s.iter, s.condition, condLabel, startLabel, endLabel);
      ghost var c := LoopParts(s, m0.symbols, m0.ends, m0.pool, m0.labels);
      LoopJoined(m0.code, c.start.code + [Jump(condLabel), Label(startLabel)], c.body.code, c.iter.code,
                 [Label(condLabel)], c.cond.code, [Label(endLabel)]);
      PopLoop();
      assert made.ends == m0.ends;
    }

    /** The start of a try statement. */
    method BeginTry(hasFinally: bool, block: seq<Stmt>) returns (catchLabel: string, finallyLabel: string)
      requires functionsStack != [] && Ready()
      modifies this`made, this`labelCount, this`finallyBlocksToPrependReturn, program`instructions
      ensures catchLabel == Tag(CATCH, old(made).labels + 1) && finallyLabel == Tag(FINALLY, old(made).labels + 2)
      ensures Ready()
      ensures made == old(made).Emitting([Instr(SET_CATCH, Name(catchLabel), Name(finallyLabel), NULL)])
                               .(labels := old(made).labels + 2, blocks := old(made).blocks + if hasFinally
                                 then [block] else [])
    {
      hide Compiler.Ready;
      PushFinally(hasFinally, block);
      catchLabel, finallyLabel := FreshLabels(CATCH, FINALLY);
      AddInstruction(SET_CATCH, Name(catchLabel), Name(finallyLabel), NULL);
    }

    /** The end of a try body and the start of its handler. */
    method BeginHandler(finallyLabel: string, catchLabel: string, exception: string)
      requires functionsStack != [] && Ready()
      modifies this`made, program`instructions
      ensures Ready()
      ensures made == old(made).Emitting([Jump(finallyLabel), Label(catchLabel)]
                                         + [Instr(POP, Idx(RegisterOf(old(made).symbols, exception)), NULL, NULL)])
    {
      AddInstruction(JMP, Name(finallyLabel), NULL, NULL);
      AddLabel(catchLabel);
      var exceptionInfoRegister := Top().Lookup(exception);
      AddInstruction(POP, Idx(exceptionInfoRegister), NULL, NULL);
    }

    /** The label after the handler, and the finally block. */
    method EndTry(hasFinally: bool, block: seq<Stmt>, finallyLabel: string, ghost inLoop: bool)
      requires functionsStack != [] && Ready() && (inLoop ==> made.ends != [])
      requires hasFinally ==> AllSupported(block, inLoop, made.blocks != [])
      modifies this`made, this`labelCount, this`loopEndLabelsStack, this`finallyBlocksToPrependReturn,
               program`instructions,
               Top()`registerTable, Top()`functionsToCompile
      ensures var o := CompileIf(hasFinally, block, old(made));
              && Ready()
              && made == old(made).With(o.(code := [Label(finallyLabel)] + o.code
                                           + [Instr(CLEAR_CATCH, NULL, NULL, NULL)]), LaterIf(hasFinally, block))
      decreases block, 3
    {
      hide Codegen.CompileBody, Later, Compiler.Ready, AllSupported;
      assert made.later + [] == made.later;
      AddLabel(finallyLabel);
      if hasFinally {
        CompileBody(block, inLoop);
      }
      AddInstruction(CLEAR_CATCH, NULL, NULL, NULL);
    }

    /** A try statement up to the code of its handler. */
    method CompileTryBody(s: Stmt, ghost inLoop: bool) returns (finallyLabel: string)
      requires functionsStack != [] && s.Try? && Ready()
      requires AllSupported(s.body, inLoop, made.blocks != [] || s.hasFinally) && (inLoop ==> made.ends != [])
      modifies this`made, this`labelCount, this`loopEndLabelsStack, this`finallyBlocksToPrependReturn,
               program`instructions, Top()`registerTable, Top()`functionsToCompile
      ensures finallyLabel == Tag(FINALLY, old(made).labels + 2)
      ensures Ready() && made == GuardedFrom(s, old(made))
      decreases s.body, 3
    {
      hide CompileExpr, Codegen.CompileBody, Codegen.CompileStmt, Later, Tag, RegisterOf, Compiler.Ready;
      var catchLabel;
      catchLabel, finallyLabel := BeginTry(s.hasFinally, s.finallyBody);
      CompileBody(s.body, inLoop);
      BeginHandler(finallyLabel, catchLabel, s.exception);
    }

    method CompileTryCatch(s: Stmt, ghost inLoop: bool)
      requires functionsStack != [] && s.Try? && Ready()
      requires Supported(s, inLoop, made.blocks != []) && (inLoop ==> made.ends != [])
      modifies this`made, this`labelCount, this`loopEndLabelsStack, this`finallyBlocksToPrependReturn,
               program`instructions, Top()`registerTable, Top()`functionsToCompile
      ensures Ready()
      ensures made == old(made).With(Codegen.CompileStmt(s, old(made).symbols, old(made).ends, old(made).pool,
                                                         old(made).labels),
                                     LaterIn(s))
      decreases s, 0
    {
      hide CompileExpr, Codegen.CompileBody, Codegen.CompileStmt, Release, Later, Tag, RegisterOf, Compiler.Ready;
      TryMakes(s, made);
      ghost var m0 := made;
      var finallyLabel := CompileTryBody(s, inLoop);
      CompileBody(s.handler, inLoop);
      EndTry(s.hasFinally, s.finallyBody, finallyLabel, inLoop);
      PopFinally(s.hasFinally);
      assert made.blocks == m0.blocks;
    }

    method CompileStmt(s: Stmt, ghost inLoop: bool)
      requires functionsStack != [] && Ready() && Supported(s, inLoop, made.blocks != [])
               && (inLoop ==> made.ends != [])
      modifies this`made, this`labelCount, this`loopEndLabelsStack, this`finallyBlocksToPrependReturn,
               program`instructions,
               Top()`registerTable, Top()`functionsToCompile
      ensures Ready()
      ensures made == old(made).With(Codegen.CompileStmt(s, old(made).symbols, old(made).ends, old(made).pool,
                                                         old(made).labels), LaterIn(s))
      decreases s, 1
    {
      hide CompileExpr, Codegen.CompileBody, Release, Tag, Owner.Temporaries, Owner.Valid;
      match s
      case Var(x, v, isPrivate) => CompileVar(x, v, isPrivate);
      case Do(e) => CompileForEffect(Some(e));
      case Return(e) => CompileReturn(e);
      case Break => AddInstruction(JMP, Name(loopEndLabelsStack[|loopEndLabelsStack| - 1]), NULL, NULL);
      case Block(b) => CompileBody(b, inLoop);
      case If(_, _, _, _) => CompileConditional(s, inLoop);
      case Loop(_, _, _, _) => CompileLoop(s);
      case Try(_, _, _, _, _) => CompileTryCatch(s, inLoop);
      case Define(f) =>
        Top().functionsToCompile := Top().functionsToCompile + [f];
        made := made.(later := made.later + [f]);
    }

    /** Functions of a body are loaded before its statements. */
    method HoistFunctions(ss: seq<Stmt>)
      requires functionsStack != [] && Ready()
      modifies this`made, program`instructions
      ensures Ready() && made == old(made).Emitting(Hoist(ss, old(made).symbols))
    {
      hide Compiler.Ready;
      ghost var m0 := made;
      var i := 0;
      while i < |ss|
        invariant 0 <= i <= |ss|
        invariant Ready() && made.Emitting(Hoist(ss[i..], m0.symbols)) == m0.Emitting(Hoist(ss, m0.symbols))
      {
        if ss[i].Define? {
          var reg := LookUp(ss[i].f.name);
          AddInstruction(MOV_FNC, Idx(reg), Name(ss[i].f.name), Idx(if ss[i].f.isAsync then 1 else 0));
        }
        i := i + 1;
      }
    }

    method LookUp(name: string) returns (reg: nat)
      requires functionsStack != [] && Ready()
      ensures Ready() && reg == RegisterOf(made.symbols, name)
    {
      reg := Top().Lookup(name);
    }

    method CompileBody(ss: seq<Stmt>, ghost inLoop: bool)
      requires functionsStack != [] && Ready() && AllSupported(ss, inLoop, made.blocks != [])
               && (inLoop ==> made.ends != [])
      modifies this`made, this`labelCount, this`loopEndLabelsStack, this`finallyBlocksToPrependReturn,
               program`instructions,
               Top()`registerTable, Top()`functionsToCompile
      ensures Ready()
      ensures made == old(made).With(Codegen.CompileBody(ss, old(made).symbols, old(made).ends, old(made).pool,
                                                         old(made).labels), Later(ss))
      decreases ss, 2
    {
      hide Codegen.CompileStmt, CompileAll, Hoist, Later, LaterIn, Supported, Compiler.Ready;
      ghost var m0, t, ends := made, made.symbols, made.ends;
      ghost var o := CompileAll(ss, t, ends, m0.pool, m0.labels);
      HoistFunctions(ss);
      ghost var m1 := made;
      var i := 0;
      while i < |ss|
        invariant 0 <= i <= |ss|
        invariant Ready() && AllSupported(ss[i..], inLoop, m0.blocks != [])
        invariant made.With(CompileAll(ss[i..], t, ends, made.pool, made.labels), Later(ss[i..]))
                  == m1.With(o, Later(ss))
      {
        AllUnfolds(ss, i, t, ends, made.pool, made.labels);
        CompileStmt(ss[i], inLoop);
        i := i + 1;
      }
      AllEnds(t, ends, made.pool, made.labels);
      Associate(m0.code, Hoist(ss, t), o.code);
    }

    // ----- functions and the class -----

    /** A label and an empty frame header, and the function on top of the stack. */
    method OpenFrame(name: string, symbols: Table) returns (index: nat)
      requires loopEndLabelsStack == [] && finallyBlocksToPrependReturn == []
      modifies this`made, this`functionsStack, program`instructions
      ensures functionsStack != [] && fresh(Top()) && functionsStack == old(functionsStack) + [Top()]
      ensures Ready() && index == |old(program.instructions)| + 1
      ensures made == Progress(old(program.instructions) + [Label(name), Instr(FFRAME, NULL, NULL, NULL)], [],
                               labelCount, [], symbols, [], [])
    {
      var kind := new FunctionKind<Function>(symbols);
      program.AddLabel(name);
      index := program.AddInstruction(FFRAME, NULL, NULL, NULL);
      functionsStack := functionsStack + [kind];
      made := Progress(program.instructions, [], labelCount, [], symbols, [], []);
    }

    /** The end of a body: return null, the end label. */
    method CloseBody(name: string)
      requires functionsStack != [] && Ready()
      modifies this`made, program`instructions
      ensures Ready() && made == old(made).Emitting([RETURN_NULL, Label("end" + name)])
    {
      hide Compiler.Ready;
      AddInstruction(RETURN, NULL, NULL, NULL);
      AddLabel("end" + name);
    }

    /** The frame header is filled in when the size of the register table is known, and the
        function leaves the stack. */
    method CloseFrame(index: nat, ts: Tables, name: string)
      requires functionsStack != [] && Top().Valid() && Top().symbolTable == ts.symbols
      requires index < |program.instructions| && program.instructions[index].op == FFRAME
      modifies this`functionsStack, program`instructions
      ensures functionsStack == old(functionsStack)[..|old(functionsStack)| - 1]
      ensures program.instructions
              == old(program.instructions)[index := FrameHeader(|old(Top().Temporaries())| + |ts.symbols|, ts, name)]
    {
      var locals := |Top().registerTable| + |Top().symbolTable|;
      program.PatchFrame(index, locals, ts, "end" + name);
      functionsStack := functionsStack[..|functionsStack| - 1];
    }

    /** A function starts by loading a reference to itself. */
    method OpenFunction(f: Function) returns (index: nat)
      requires f in tables && tables[f] == FunctionTables(f)
      requires loopEndLabelsStack == [] && finallyBlocksToPrependReturn == []
      modifies this`made, this`functionsStack, program`instructions
      ensures functionsStack != [] && fresh(Top()) && functionsStack == old(functionsStack) + [Top()]
      ensures Ready() && index == |old(program.instructions)| + 1
      ensures var symbols := FunctionTables(f).symbols;
              made == Progress(old(program.instructions) + [Label(f.name), Instr(FFRAME, NULL, NULL, NULL)]
                               + [LoadFunction(f, symbols)],
                               [], labelCount, [], symbols, [], [])
    {
      hide Compiler.Ready, FunctionTables;
      index := OpenFrame(f.name, tables[f].symbols);
      var reg := LookUp(f.name);
      AddInstruction(MOV_FNC, Idx(reg), Name(f.name), Idx(if f.isAsync then 1 else 0));
    }

    method CompileFunction(f: Function)
      requires SupportedFunction(f) && Addressed([f], tables)
      requires loopEndLabelsStack == [] && finallyBlocksToPrependReturn == []
      modifies this, program`instructions
      ensures functionsStack == old(functionsStack) && loopEndLabelsStack == [] && finallyBlocksToPrependReturn == []
      ensures var o := Codegen.CompileFunction(f, old(labelCount));
              program.instructions == old(program.instructions) + o.code && labelCount == o.labels
      decreases 1 + Size(f.body), 1
    {
      hide Addressed, Codegen.CompileBody, Codegen.CompileFunction, Later, CompileFunctions, FunctionTables,
           FrameHeader, Size, TotalSize;
      ghost var base, n := program.instructions, labelCount;
      ghost var stack := functionsStack;
      AddressedBelow(f, tables);
      var ts := tables[f];
      var index := OpenFunction(f);
      CompileBody(f.body, false);
      CloseBody(f.name);
      LaterSize(f.body);
      LaterSupported(f.body, false, false);
      FunctionMakes(f, base, n);
      assert Top().functionsToCompile == Later(f.body);
      CompileRemainingFunctions();
      CloseFrame(index, ts, f.name);
      assert functionsStack == stack;
    }

    method CompileRemainingFunctions()
      requires functionsStack != []
      requires SupportedFunctions(Top().functionsToCompile) && Addressed(Top().functionsToCompile, tables)
      requires loopEndLabelsStack == [] && finallyBlocksToPrependReturn == []
      modifies this, program`instructions, Top()`functionsToCompile
      ensures functionsStack == old(functionsStack) && loopEndLabelsStack == [] && finallyBlocksToPrependReturn == []
      ensures Top().functionsToCompile == []
      ensures var o := CompileFunctions(old(Top().functionsToCompile), old(labelCount));
              program.instructions == old(program.instructions) + o.code && labelCount == o.labels
      decreases TotalSize(Top().functionsToCompile), 2
    {
      hide Codegen.CompileFunction, Size, Addressed;
      var top := Top();
      var i := 0;
      while i < |top.functionsToCompile|
        modifies this, program`instructions
        invariant 0 <= i <= |top.functionsToCompile|
        invariant functionsStack == old(functionsStack) && top.functionsToCompile == old(Top().functionsToCompile)
        invariant loopEndLabelsStack == [] && finallyBlocksToPrependReturn == []
        invariant TotalSize(top.functionsToCompile[i..]) <= TotalSize(top.functionsToCompile)
        invariant var o := CompileFunctions(old(Top().functionsToCompile), old(labelCount));
                  var rest := CompileFunctions(top.functionsToCompile[i..], labelCount);
                  program.instructions + rest.code == old(program.instructions) + o.code && rest.labels == o.labels
      {
        ghost var fs := top.functionsToCompile[i..];
        assert fs[1..] == top.functionsToCompile[i + 1..];
        assert top.functionsToCompile[i] in top.functionsToCompile;
        AddressedOne(top.functionsToCompile, i, tables);
        CompileFunction(top.functionsToCompile[i]);
        i := i + 1;
      }
      top.functionsToCompile := [];
    }

    /** Constructor arguments are popped in order. */
    method PopConstructorArguments(params: seq<string>)
      requires functionsStack != [] && Ready()
      modifies this`made, program`instructions
      ensures Ready() && made == old(made).Emitting(PopArguments(params, old(made).symbols))
    {
      hide Compiler.Ready;
      ghost var m0 := made;
      var i := 0;
      while i < |params|
        invariant 0 <= i <= |params|
        invariant Ready() && made.Emitting(PopArguments(params[i..], m0.symbols))
                  == m0.Emitting(PopArguments(params, m0.symbols))
      {
        assert params[i..][1..] == params[i + 1..];
        var reg := LookUp(params[i]);
        AddInstruction(POP, Idx(reg), NULL, NULL);
        i := i + 1;
      }
    }

    /** A class starts by creating its instance and popping the constructor's arguments. */
    method OpenClass(c: Class, own: Tables) returns (index: nat)
      requires own == ClassTables(c)
      requires loopEndLabelsStack == [] && finallyBlocksToPrependReturn == []
      modifies this`made, this`functionsStack, program`instructions
      ensures functionsStack != [] && fresh(Top()) && functionsStack == old(functionsStack) + [Top()]
      ensures Ready() && index == |old(program.instructions)| + 1
      ensures var symbols := ClassTables(c).symbols;
              made == Progress(old(program.instructions) + [Label(c.name), Instr(FFRAME, NULL, NULL, NULL)]
                               + [Instr(CREATE_THIS, NULL, NULL, NULL)]
                               + PopArguments(c.params, symbols), [], labelCount, [], symbols, [], [])
    {
      hide Compiler.Ready, ClassTables;
      index := OpenFrame(c.name, own.symbols);
      AddInstruction(CREATE_THIS, NULL, NULL, NULL);
      PopConstructorArguments(c.params);
    }

    /** The whole program of a class. */
    method CompileClass(c: Class, own: Tables)
      requires own == ClassTables(c) && Addressed(Later(c.body), tables)
      requires AllSupported(c.body, false, false)
      requires functionsStack == [] && loopEndLabelsStack == [] && finallyBlocksToPrependReturn == []
      requires program.instructions == [] && labelCount == 0
      modifies this, program`instructions
      ensures program.instructions == Codegen.CompileClass(c).code
    {
      hide Addressed, Codegen.CompileBody, Codegen.CompileClass, Later, CompileFunctions, ClassTables, FrameHeader,
           Size, PopArguments;
      var index := OpenClass(c, own);
      CompileBody(c.body, false);
      CloseBody(c.name);
      LaterSupported(c.body, false, false);
      ClassMakes(c);
      assert Top().functionsToCompile == Later(c.body);
      CompileRemainingFunctions();
      CloseFrame(index, own, c.name);
    }
  }
}
