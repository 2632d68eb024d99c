/** A second function the optimizer breaks, in two passes: the comparison of two variables is
    fused with its jump, then the number load before it with the jump, which loses the load. */
module LostWrite {
  import opened Options
  import opened Bytecode
  import opened Machine
  import opened Registers
  import opened Labels
  import opened Source
  import opened Symbols
  import opened Codegen
  import opened StmtProof
  import opened Optimizer
  import opened FunctionProof
  import opened FrameSize
  import opened RuleSafety
  import opened Miscompiled

  const TEST: Expr := Binary(Less, Ident("a"), Ident("b"))

  const CHECK: Stmt := If(TEST, [Return(Ident("b"))], false, [])

  /** f() { var a = 0; var b = 3; if (a < b) { return b; } } */
  const LOST: Function :=
    Function("f", [], [Var("a", Number(0.0), false), Var("b", Number(3.0), false), CHECK], false, false)

  const NAMES: Table := map["this" := 1, "f" := 2, "a" := 3, "b" := 4]

  function Before(): seq<Instr> {
    [Label("f"), FrameHeader(5, Tables(NAMES, {}), "f"), Instr(MOV_FNC, Idx(2), Name("f"), Idx(0)),
     Instr(MOV_NUMBER, Idx(3), Lit(0.0), NULL)]
  }

  function Behind(n: nat): seq<Instr> {
    [Instr(RETURN, Idx(4), NULL, NULL), Label(Tag(ELSE, n + 1)), Label(Tag(END_CONDITIONAL, n + 2)), RETURN_NULL,
     Label("endf")]
  }

  function LostCode(n: nat): seq<Instr> {
    Before()
    + [Instr(MOV_NUMBER, Idx(4), Lit(3.0), NULL), Instr(CMP_LESS, Idx(3), Idx(4), Idx(5)),
       Instr(JMP_NOT_TRUE, Idx(5), Name(Tag(ELSE, n + 1)), NULL)]
    + Behind(n)
  }

  /** After one pass. */
  function HalfLost(n: nat): seq<Instr> {
    Before()
    + [Instr(MOV_NUMBER, Idx(4), Lit(3.0), NULL),
       Instr(JMP_GREATER_OR_EQUAL, Idx(3), Idx(4), Name(Tag(ELSE, n + 1)))]
    + Behind(n)
  }

  /** After two: b is no longer written. */
  function LostOptimized(n: nat): seq<Instr> {
    Before() + [Instr(JMP_GREATER_OR_EQUAL_I, Idx(3), Lit(3.0), Name(Tag(ELSE, n + 1)))] + Behind(n)
  }

  lemma LostTables()
    ensures FunctionTables(LOST) == Tables(NAMES, {})
  {
    var s := LOST.body;
    assert s[1..] == [s[1], s[2]] && s[1..][1..] == [s[2]] && s[1..][1..][1..] == [];
    assert CHECK.thn[1..] == [];
    assert AddNames(AddName(AddName(map[], "this"), "f"), []) == AddName(map["this" := 1], "f");
    var h := Header(LOST);
    assert h == Tables(map["this" := 1, "f" := 2], {});
    var h1, h2 := AddStmt(h, s[0]), AddStmt(AddStmt(h, s[0]), s[1]);
    assert h1 == Tables(map["this" := 1, "f" := 2, "a" := 3], {});
    assert h2 == Tables(NAMES, {});
    assert AddBody(h2, CHECK.thn) == AddBody(h2, []) == h2;
    assert AddBody(h, s) == AddBody(h1, [s[1], s[2]]) == AddBody(h2, [s[2]]) == AddBody(AddStmt(h2, s[2]), []);
  }

  lemma LostTest()
    ensures CompileExpr(TEST, 0, NAMES, [])
            == Out([Instr(CMP_LESS, Idx(3), Idx(4), Idx(5))], 5, [false])
    ensures Release(4, [false], 5) == [true]
  {
    BinaryParted(Less, Ident("a"), Ident("b"), 0, NAMES, []);
    assert Taken(4, []) == 5 && Take([]) == [false];
  }

  lemma LostCheck(n: nat)
    ensures CompileStmt(CHECK, NAMES, [], [], n)
            == Piece(LostCode(n)[5..10], [true], n + 2)
  {
    hide CompileExpr, Release, Tag;
    LostTest();
    IfParted(CHECK, NAMES, [], [], n);
    var r := Return(Ident("b"));
    assert CompileExpr(Ident("b"), 0, NAMES, [true]) == Out([], 4, [true]) by {
      ExprCases(Ident("b"), 0, NAMES, [true]);
    }
    assert Release(4, [true], 4) == [true] by {
      ReleaseVariable();
    }
    assert CompileStmt(r, NAMES, [], [true], n + 2) == Piece([Instr(RETURN, Idx(4), NULL, NULL)], [true], n + 2);
    assert [r][1..] == [];
    assert CompileAll([], NAMES, [], [true], n + 2) == Piece([], [true], n + 2);
    assert CompileBody([r], NAMES, [], [true], n + 2) == Piece([Instr(RETURN, Idx(4), NULL, NULL)], [true], n + 2);
  }

  lemma ReleaseVariable()
    ensures Release(4, [true], 4) == [true]
  {
  }

  lemma LostBody(n: nat)
    ensures CompileAll(LOST.body, NAMES, [], [], n) == Piece(LostCode(n)[3..10], [true], n + 2)
  {
    hide CompileStmt, Tag;
    LostCheck(n);
    LoadsVariable("a", 0.0, n);
    LoadsVariable("b", 3.0, n);
    var s, c := LOST.body, LostCode(n);
    assert s[1..] == [s[1], s[2]] && s[1..][1..] == [s[2]] && [s[2]][1..] == [];
    assert CompileAll([], NAMES, [], [true], n + 2) == Piece([], [true], n + 2);
    assert CompileAll([s[2]], NAMES, [], [], n) == Piece(c[5..10], [true], n + 2) by {
      assert c[5..10] + [] == c[5..10];
    }
    assert CompileAll([s[1], s[2]], NAMES, [], [], n) == Piece([c[4]] + c[5..10], [true], n + 2);
    assert CompileAll(s, NAMES, [], [], n) == Piece([c[3]] + ([c[4]] + c[5..10]), [true], n + 2);
    assert [c[3]] + ([c[4]] + c[5..10]) == c[3..10];
  }

  lemma LostHoists()
    ensures Hoist(LOST.body, NAMES) == []
  {
    var s := LOST.body;
    assert s[1..] == [s[1], s[2]] && [s[1], s[2]][1..] == [s[2]] && [s[2]][1..] == [];
    assert Hoist([s[2]], NAMES) == Hoist([], NAMES) == [];
    assert Hoist([s[1], s[2]], NAMES) == Hoist([s[2]], NAMES);
    assert Hoist(s, NAMES) == Hoist([s[1], s[2]], NAMES);
  }

  lemma LostCompiles(n: nat)
    ensures FunctionCode(LOST, n).code == LostCode(n)
  {
    hide FunctionTables, CompileAll, Hoist, Tag;
    LostTables();
    LostBody(n);
    LostHoists();
    assert CompileBody(LOST.body, NAMES, [], [], n) == Piece(LostCode(n)[3..10], [true], n + 2);
    assert "end" + "f" == "endf";
  }

  lemma LoadsVariable(x: string, v: real, n: nat)
    requires x in NAMES
    ensures CompileStmt(Var(x, Number(v), false), NAMES, [], [], n)
            == Piece([Instr(MOV_NUMBER, Idx(NAMES[x]), Lit(v), NULL)], [], n)
  {
  }

  lemma FirstPass(n: nat)
    ensures Readable(LostCode(n)) && Pass(LostCode(n)) == HalfLost(n)
  {
    hide Pass, LoadAndJump, Tag;
    var s := LostCode(n);
    KeepsTurns(s, 5);
    TakesTurn(s, 5, Turn([HalfLost(n)[5]], 2));
    KeepsBehind(s, 7, n);
  }

  lemma SecondPass(n: nat)
    ensures Readable(HalfLost(n)) && Pass(HalfLost(n)) == LostOptimized(n)
  {
    hide Pass, CompareAndJump, Tag;
    var s := HalfLost(n);
    KeepsTurns(s, 4);
    TakesTurn(s, 4, Turn([LostOptimized(n)[4]], 2));
    KeepsBehind(s, 6, n);
  }

  lemma ThirdPass(n: nat)
    ensures Readable(LostOptimized(n)) && Pass(LostOptimized(n)) == LostOptimized(n)
  {
    hide Pass, LoadAndJump, CompareAndJump, Tag;
    var s := LostOptimized(n);
    KeepsTurns(s, 4);
    TakesTurn(s, 4, Turn([s[4]], 1));
    KeepsBehind(s, 5, n);
  }

  lemma KeepsBehind(s: seq<Instr>, i: nat, n: nat)
    requires i < |s| && s[i..] == Behind(n)
    ensures Readable(s[i..]) && Pass(s[i..]) == Behind(n)
  {
    hide Pass, LoadAndJump, CompareAndJump, Tag;
    var b := Behind(n);
    TakesTurn(b, 0, Turn([b[0]], 1));
    TakesTurn(b, 1, Turn([b[1]], 1));
    TakesTurn(b, 2, Turn([b[2]], 1));
    TakesTurn(b, 3, Turn([b[3]], 1));
    TakesTurn(b, 4, Turn([b[4]], 1));
    PassNothing(b[5..]);
    assert b[0..] == b;
  }

  lemma LostResult(n: nat)
    ensures Readable(FunctionCode(LOST, n).code) && Shaped(FunctionCode(LOST, n).code)
    ensures Optimized(FunctionCode(LOST, n).code) == LostOptimized(n)
  {
    hide FunctionCode, Pass, Tag;
    LostCompiles(n);
    FunctionFits(LOST, n);
    FirstPass(n);
    SecondPass(n);
    ThirdPass(n);
    PassShape(LostCode(n));
    PassShape(HalfLost(n));
    assert |LostOptimized(n)| < |HalfLost(n)| < |LostCode(n)|;
    assert Optimized(LostOptimized(n)) == LostOptimized(n);
    assert Optimized(HalfLost(n)) == Optimized(LostOptimized(n));
  }

  lemma CheckInFragment(names: set<string>)
    requires names == NAMES.Keys
    ensures InFragment(CHECK, names, false)
  {
    assert Scoped(Ident("a"), names) && Scoped(Ident("b"), names);
    assert Scoped(TEST, names) && Pure(TEST.left) && Pure(TEST.right) && Pure(TEST);
    var r := CHECK.thn[0];
    assert InFragment(r, names, false) && CHECK.thn[1..] == [];
    assert AllInFragment([], names, false);
    assert AllInFragment(CHECK.thn, names, false);
  }

  lemma LostInFragment(names: set<string>)
    requires names == NAMES.Keys
    ensures AllInFragment(LOST.body, names, false)
  {
    var s := LOST.body;
    assert s[1..] == [s[1], s[2]] && [s[1], s[2]][1..] == [s[2]] && [s[2]][1..] == [];
    CheckInFragment(names);
    assert AllInFragment([], names, false);
    assert AllInFragment([s[2]], names, false);
    assert InFragment(s[1], names, false) && AllInFragment([s[1], s[2]], names, false);
    assert InFragment(s[0], names, false);
  }

  lemma CheckReturns(st: Store)
    requires st.Keys == NAMES.Keys && st["a"] == 0.0 && st["b"] == 3.0
    ensures InFragment(CHECK, st.Keys, false) && Execute(CHECK, false, st, 0) == Source.Returned(3.0)
  {
    CheckInFragment(st.Keys);
    assert CHECK.thn[1..] == [] && AllInFragment(CHECK.thn, st.Keys, false);
    assert Eval(Ident("a"), st) == Is(0.0) && Eval(Ident("b"), st) == Is(3.0) && Eval(TEST, st) == Is(1.0);
    assert Execute(CHECK.thn[0], false, st, 0) == Source.Returned(3.0);
    assert ExecuteAll(CHECK.thn, false, st, 0) == Source.Returned(3.0);
  }

  lemma LostSource(st: Store)
    requires st.Keys == NAMES.Keys
    ensures AllInFragment(LOST.body, st.Keys, false) && SourceHalts(LOST.body, st, Machine.Returned(3.0))
  {
    LostInFragment(st.Keys);
    var s := LOST.body;
    var st1 := st["a" := 0.0];
    var st2 := st1["b" := 3.0];
    assert st1.Keys == st.Keys && st2.Keys == st.Keys;
    assert Execute(s[0], false, st, 0) == Normal(st1) && Execute(s[1], false, st1, 0) == Normal(st2);
    CheckReturns(st2);
    LostRest(st2);
    assert s[1..] == [s[1], s[2]] && [s[1], s[2]][1..] == [s[2]];
    assert ExecuteAll([s[1], s[2]], false, st1, 0) == Source.Returned(3.0);
    assert OutcomeOf(Call(LOST.body, st, 0)) == Some(Machine.Returned(3.0));
  }

  lemma LostRest(st: Store)
    requires InFragment(CHECK, st.Keys, false) && Execute(CHECK, false, st, 0) == Source.Returned(3.0)
    ensures AllInFragment([CHECK], st.Keys, false) && ExecuteAll([CHECK], false, st, 0) == Source.Returned(3.0)
  {
    assert [CHECK][1..] == [];
  }

  lemma LostRuns(env: Env, v: real, n: nat, d: Data) returns (d': Data)
    requires LoadsFunctions(env, v)
    ensures Run(env, 4, LostOptimized(n), Resume(LostOptimized(n), Name("f"), d), 6)
            == Done(Machine.Returned(Get(d.regs, Idx(4))), d'.trace)
  {
    hide Run, SetVars, Vars, Tag;
    var c := LostOptimized(n);
    LoadEffect(env, v, 4, c[2], d);
    var d3 := Exec(env, 4, c[2], d).d;
    d' := Write(d3, Idx(3), 0.0);
    OwnVars(d.regs, 4);
    assert Get(d'.regs, Idx(4)) == Get(d.regs, Idx(4)) && Get(d'.regs, Idx(3)) == 0.0;
    assert Step(env, 4, c, At(0, d)) == At(1, d) && Step(env, 4, c, At(1, d)) == At(2, d);
    assert Step(env, 4, c, At(2, d)) == At(3, d3) && Step(env, 4, c, At(3, d3)) == At(4, d');
    assert Step(env, 4, c, At(4, d')) == At(5, d')
        && Step(env, 4, c, At(5, d')) == Done(Machine.Returned(Get(d.regs, Idx(4))), d'.trace);
    RunTwo(env, 4, c, At(0, d));
    RunTwo(env, 4, c, At(2, d));
    RunTwo(env, 4, c, At(4, d'));
    RunSum(env, 4, c, At(0, d), 2, 2);
    RunSum(env, 4, c, At(0, d), 4, 2);
  }

  /** The source returns 3; the optimized code returns whatever b's register held at entry. */
  lemma OptimizerLoses(env: Env, v: real, n: nat, st: Store, d: Data)
    requires LoadsFunctions(env, v) && Entered(LOST, st, d)
    ensures Compilable(LOST) && Readable(FunctionCode(LOST, n).code) && Shaped(FunctionCode(LOST, n).code)
    ensures LOST.name in st && "b" in st && AllInFragment(LOST.body, st[LOST.name := v].Keys, false)
    ensures SourceHalts(LOST.body, st[LOST.name := v], Machine.Returned(3.0))
    ensures exists trace :: Halts(env, 4, Optimized(FunctionCode(LOST, n).code),
                                  Resume(Optimized(FunctionCode(LOST, n).code), Name("f"), d),
                                  Machine.Returned(st["b"]), trace)
    ensures !AllPlain(LOST.body, None)
  {
    hide FunctionCode, Optimized, FunctionTables, Run, Resume, SourceHalts, AllInFragment, LostOptimized;
    LostTables();
    LostResult(n);
    assert st.Keys == NAMES.Keys;
    LostSource(st[LOST.name := v]);
    LostSource(st);
    var d' := LostRuns(env, v, n, d);
    LostIsNotPlain();
    assert Halts(env, 4, LostOptimized(n), Resume(LostOptimized(n), Name("f"), d), Machine.Returned(st["b"]), d'.trace);
  }

  lemma LostIsNotPlain()
    ensures !AllPlain(LOST.body, None)
  {
    var s := LOST.body;
    assert s[1..] == [s[1], s[2]] && [s[1], s[2]][1..] == [s[2]];
    assert After(s[0], None) == Some("a") && After(s[1], Some("a")) == Some("b");
    assert !Plain(s[2], Some("b"));
    assert !AllPlain([s[2]], Some("b"));
  }
}
