/** A third function the optimizer breaks: a comparison stored in a variable is fused with the jump
    after it, which tests another variable. */
module WrongTest {
  import opened Options
  import opened Bytecode
  import opened Machine
  import opened Registers
  import opened Labels
  import opened Source
  import opened Symbols
  import opened Codegen
  import opened StmtProof
  import opened Optimizer
  import opened OptimizerProof
  import opened FunctionProof
  import opened FrameSize
  import opened Miscompiled

  const LESS: Expr := Binary(Less, Ident("a"), Ident("b"))

  const CHOOSE: Stmt := If(Ident("y"), [Return(Ident("b"))], false, [])

  /** f() { var a = 1; var b = 2; var y = 0; var x = a < b; if (y) { return b; } return x; } */
  const STOLEN: Function :=
    Function("f", [], [Var("a", Number(1.0), false), Var("b", Number(2.0), false), Var("y", Number(0.0), false),
                       Var("x", LESS, false), CHOOSE, Return(Ident("x"))], false, false)

  const SYMBOLS: Table := map["this" := 1, "f" := 2, "a" := 3, "b" := 4, "y" := 5, "x" := 6]

  function Early(): seq<Instr> {
    [Label("f"), FrameHeader(6, Tables(SYMBOLS, {}), "f"), Instr(MOV_FNC, Idx(2), Name("f"), Idx(0)),
     Instr(MOV_NUMBER, Idx(3), Lit(1.0), NULL), Instr(MOV_NUMBER, Idx(4), Lit(2.0), NULL),
     Instr(MOV_NUMBER, Idx(5), Lit(0.0), NULL)]
  }

  function Late(n: nat): seq<Instr> {
    [Instr(RETURN, Idx(4), NULL, NULL), Label(Tag(ELSE, n + 1)), Label(Tag(END_CONDITIONAL, n + 2)),
     Instr(RETURN, Idx(6), NULL, NULL)]
  }

  function StolenCode(n: nat): seq<Instr> {
    Early() + [Instr(CMP_LESS, Idx(3), Idx(4), Idx(6)), Instr(JMP_NOT_TRUE, Idx(5), Name(Tag(ELSE, n + 1)), NULL)]
    + Late(n) + [RETURN_NULL, Label("endf")]
  }

  /** The jump now compares a and b, and x is not written. */
  function StolenOptimized(n: nat): seq<Instr> {
    Early() + [Instr(JMP_GREATER_OR_EQUAL, Idx(3), Idx(4), Name(Tag(ELSE, n + 1)))] + Late(n) + [Label("endf")]
  }

  // ----- compiling it -----

  function Tail(k: nat): seq<Stmt>
    requires k <= 6
  {
    STOLEN.body[k..]
  }

  lemma TailNext(k: nat)
    requires k < 6
    ensures Tail(k) != [] && Tail(k)[0] == STOLEN.body[k] && Tail(k)[1..] == Tail(k + 1) && Tail(6) == []
  {
  }

  lemma StolenTables()
    ensures FunctionTables(STOLEN) == Tables(SYMBOLS, {})
  {
    var s := STOLEN.body;
    var h := Header(STOLEN);
    assert AddNames(AddName(AddName(map[], "this"), "f"), []) == AddName(map["this" := 1], "f");
    assert h == Tables(map["this" := 1, "f" := 2], {});
    var h1 := AddStmt(h, s[0]);
    var h2 := AddStmt(h1, s[1]);
    var h3 := AddStmt(h2, s[2]);
    var h4 := AddStmt(h3, s[3]);
    assert h1 == Tables(map["this" := 1, "f" := 2, "a" := 3], {});
    assert h2 == Tables(map["this" := 1, "f" := 2, "a" := 3, "b" := 4], {});
    assert h3 == Tables(map["this" := 1, "f" := 2, "a" := 3, "b" := 4, "y" := 5], {});
    assert h4 == Tables(SYMBOLS, {});
    assert AddStmt(h4, s[4]) == h4 by {
      assert CHOOSE.thn[1..] == [];
      assert AddBody(h4, CHOOSE.thn) == AddBody(h4, []) == h4;
    }
    assert AddStmt(h4, s[5]) == h4;
    BodySteps(h, h1, h2, h3, h4);
  }

  lemma BodySteps(h: Tables, h1: Tables, h2: Tables, h3: Tables, h4: Tables)
    requires h1 == AddStmt(h, STOLEN.body[0]) && h2 == AddStmt(h1, STOLEN.body[1]) && h3 == AddStmt(h2, STOLEN.body[2])
    requires h4 == AddStmt(h3, STOLEN.body[3]) == AddStmt(h4, STOLEN.body[4]) == AddStmt(h4, STOLEN.body[5])
    ensures AddBody(h, STOLEN.body) == h4
  {
    hide AddStmt;
    TailNext(0);
    TailNext(1);
    TailNext(2);
    TailNext(3);
    TailNext(4);
    TailNext(5);
    assert AddBody(h4, Tail(5)) == AddBody(h4, Tail(6)) == h4;
    assert AddBody(h2, Tail(2)) == AddBody(h3, Tail(3)) == AddBody(h4, Tail(4)) == AddBody(h4, Tail(5));
    assert Tail(0) == STOLEN.body;
    assert AddBody(h, Tail(0)) == AddBody(h1, Tail(1)) == AddBody(h2, Tail(2));
  }

  lemma LoadsVar(x: string, v: real, n: nat)
    requires x in SYMBOLS
    ensures CompileStmt(Var(x, Number(v), false), SYMBOLS, [], [], n)
            == Piece([Instr(MOV_NUMBER, Idx(SYMBOLS[x]), Lit(v), NULL)], [], n)
  {
  }

  lemma StoresLess(n: nat)
    ensures CompileStmt(Var("x", LESS, false), SYMBOLS, [], [], n)
            == Piece([Instr(CMP_LESS, Idx(3), Idx(4), Idx(6))], [], n)
  {
    BinaryParted(Less, Ident("a"), Ident("b"), 6, SYMBOLS, []);
  }

  lemma ReturnsVar(x: string, n: nat)
    requires x in SYMBOLS
    ensures CompileStmt(Return(Ident(x)), SYMBOLS, [], [], n)
            == Piece([Instr(RETURN, Idx(SYMBOLS[x]), NULL, NULL)], [], n)
  {
  }

  lemma ThenCode(n: nat)
    ensures CompileBody(CHOOSE.thn, SYMBOLS, [], [], n) == Piece([Instr(RETURN, Idx(4), NULL, NULL)], [], n)
  {
    hide CompileStmt;
    ReturnsVar("b", n);
    assert CHOOSE.thn[1..] == [];
    assert CompileAll([], SYMBOLS, [], [], n) == Piece([], [], n);
    assert Hoist(CHOOSE.thn, SYMBOLS) == [];
  }

  lemma TestCode()
    ensures CompileExpr(Ident("y"), 0, SYMBOLS, []) == Out([], 5, []) && Release(6, [], 5) == []
  {
    ExprCases(Ident("y"), 0, SYMBOLS, []);
  }

  lemma ChooseSlice(n: nat)
    ensures |StolenCode(n)| == 14
    ensures StolenCode(n)[7..11]
            == [Instr(JMP_NOT_TRUE, Idx(5), Name(Tag(ELSE, n + 1)), NULL), Instr(RETURN, Idx(4), NULL, NULL),
                Label(Tag(ELSE, n + 1)), Label(Tag(END_CONDITIONAL, n + 2))]
  {
    hide Tag;
  }

  lemma ChooseCode(n: nat)
    ensures |StolenCode(n)| == 14
    ensures CompileStmt(CHOOSE, SYMBOLS, [], [], n) == Piece(StolenCode(n)[7..11], [], n + 2)
  {
    hide Tag, CompileStmt, CompileBody, CompileExpr, StolenCode, Release;
    IfParted(CHOOSE, SYMBOLS, [], [], n);
    TestCode();
    ThenCode(n + 2);
    ChooseSlice(n);
  }

  /** The code of each statement. */
  lemma StolenSteps(n: nat)
    ensures var c, s := StolenCode(n), STOLEN.body;
            && |c| == 14
            && CompileStmt(s[0], SYMBOLS, [], [], n) == Piece([c[3]], [], n)
            && CompileStmt(s[1], SYMBOLS, [], [], n) == Piece([c[4]], [], n)
            && CompileStmt(s[2], SYMBOLS, [], [], n) == Piece([c[5]], [], n)
            && CompileStmt(s[3], SYMBOLS, [], [], n) == Piece([c[6]], [], n)
            && CompileStmt(s[4], SYMBOLS, [], [], n) == Piece(c[7..11], [], n + 2)
            && CompileStmt(s[5], SYMBOLS, [], [], n + 2) == Piece([c[11]], [], n + 2)
  {
    hide Tag, CompileStmt;
    LoadsVar("a", 1.0, n);
    LoadsVar("b", 2.0, n);
    LoadsVar("y", 0.0, n);
    StoresLess(n);
    ChooseCode(n);
    ReturnsVar("x", n + 2);
  }

  lemma StolenBody(n: nat)
    ensures CompileAll(STOLEN.body, SYMBOLS, [], [], n) == Piece(StolenCode(n)[3..12], [], n + 2)
  {
    hide StolenCode, CompileStmt, CompileAll;
    var c := StolenCode(n);
    StolenSteps(n);
    assert CompileAll(Tail(6), SYMBOLS, [], [], n + 2) == Piece([], [], n + 2) by {
      NoneLeft(n);
    }
    AllStep(5, n + 2, [c[11]], n + 2, Piece([], [], n + 2));
    assert [c[11]] + [] == [c[11]];
    AllStep(4, n, c[7..11], n + 2, Piece([c[11]], [], n + 2));
    assert c[7..11] + [c[11]] == c[7..12];
    AllStep(3, n, [c[6]], n, Piece(c[7..12], [], n + 2));
    assert [c[6]] + c[7..12] == c[6..12];
    AllStep(2, n, [c[5]], n, Piece(c[6..12], [], n + 2));
    assert [c[5]] + c[6..12] == c[5..12];
    AllStep(1, n, [c[4]], n, Piece(c[5..12], [], n + 2));
    assert [c[4]] + c[5..12] == c[4..12];
    AllStep(0, n, [c[3]], n, Piece(c[4..12], [], n + 2));
    assert [c[3]] + c[4..12] == c[3..12] && Tail(0) == STOLEN.body;
  }

  lemma NoneLeft(n: nat)
    ensures CompileAll(Tail(6), SYMBOLS, [], [], n + 2) == Piece([], [], n + 2)
  {
  }

  lemma AllStep(k: nat, n: nat, code: seq<Instr>, m: nat, rest: Piece)
    requires k < 6 && CompileStmt(STOLEN.body[k], SYMBOLS, [], [], n) == Piece(code, [], m)
    ensures CompileAll(Tail(k + 1), SYMBOLS, [], [], m) == rest
            ==> CompileAll(Tail(k), SYMBOLS, [], [], n) == Piece(code + rest.code, rest.pool, rest.labels)
  {
    hide CompileStmt;
    TailNext(k);
  }

  lemma {:induction false} HoistsNone(k: nat)
    requires k <= 6
    ensures Hoist(Tail(k), SYMBOLS) == []
    decreases 6 - k
  {
    if k < 6 {
      TailNext(k);
      HoistsNone(k + 1);
    }
  }

  lemma BodyCode(n: nat)
    ensures CompileBody(STOLEN.body, SYMBOLS, [], [], n) == Piece(StolenCode(n)[3..12], [], n + 2)
  {
    hide CompileAll, Hoist, StolenCode;
    StolenBody(n);
    StolenParts(n);
    HoistsNone(0);
    assert Tail(0) == STOLEN.body;
    assert [] + StolenCode(n)[3..12] == StolenCode(n)[3..12];
  }

  lemma Framed(n: nat, b: seq<Instr>)
    requires CompileBody(STOLEN.body, SYMBOLS, [], [], n) == Piece(b, [], n + 2)
    ensures FunctionCode(STOLEN, n).code == Early()[..3] + b + [RETURN_NULL, Label("endf")]
  {
    hide FunctionTables, CompileBody;
    StolenTables();
    assert "end" + "f" == "endf";
  }

  lemma StolenCompiles(n: nat)
    ensures FunctionCode(STOLEN, n).code == StolenCode(n)
  {
    hide FunctionCode, CompileBody, StolenCode;
    BodyCode(n);
    StolenParts(n);
    Framed(n, StolenCode(n)[3..12]);
  }

  lemma StolenParts(n: nat)
    ensures |StolenCode(n)| == 14
    ensures StolenCode(n) == Early()[..3] + StolenCode(n)[3..12] + [RETURN_NULL, Label("endf")]
  {
    hide Tag;
  }

  // ----- optimizing it -----

  lemma FirstPass(n: nat)
    ensures Readable(StolenCode(n)) && Pass(StolenCode(n)) == StolenOptimized(n)
  {
    hide Pass, LoadAndJump, Tag;
    var s := StolenCode(n);
    KeepsTurns(s, 6);
    TakesTurn(s, 6, Turn([StolenOptimized(n)[6]], 2));
    TakesTurn(s, 8, Turn([s[8]], 1));
    TakesTurn(s, 9, Turn([s[9]], 1));
    TakesTurn(s, 10, Turn([s[10]], 1));
    TakesTurn(s, 11, Turn([s[11]], 2));
    TakesTurn(s, 13, Turn([s[13]], 1));
    PassNothing(s[14..]);
  }

  lemma SecondPass(n: nat)
    ensures Readable(StolenOptimized(n)) && Pass(StolenOptimized(n)) == StolenOptimized(n)
  {
    hide Pass, LoadAndJump, CompareAndJump, Tag;
    var s := StolenOptimized(n);
    KeepsTurns(s, 5);
    TakesTurn(s, 5, Turn([s[5]], 1));
    TakesTurn(s, 6, Turn([s[6]], 1));
    TakesTurn(s, 7, Turn([s[7]], 1));
    TakesTurn(s, 8, Turn([s[8]], 1));
    TakesTurn(s, 9, Turn([s[9]], 1));
    TakesTurn(s, 10, Turn([s[10]], 1));
    TakesTurn(s, 11, Turn([s[11]], 1));
    PassNothing(s[12..]);
  }

  lemma StolenResult(n: nat)
    ensures Readable(FunctionCode(STOLEN, n).code) && Shaped(FunctionCode(STOLEN, n).code)
    ensures Optimized(FunctionCode(STOLEN, n).code) == StolenOptimized(n)
  {
    hide FunctionCode, Pass, Tag;
    StolenCompiles(n);
    FunctionFits(STOLEN, n);
    FirstPass(n);
    SecondPass(n);
    PassShape(StolenCode(n));
    assert |StolenOptimized(n)| < |StolenCode(n)|;
    assert Optimized(StolenOptimized(n)) == StolenOptimized(n);
  }

  // ----- running both -----

  lemma StolenInFragment(names: set<string>)
    requires names == SYMBOLS.Keys
    ensures AllInFragment(STOLEN.body, names, false)
  {
    FragmentParted(names);
    FragmentFrom(names, 6);
  }

  lemma {:induction false} FragmentFrom(names: set<string>, k: nat)
    requires k <= 6 && forall j :: 0 <= j < 6 ==> InFragment(STOLEN.body[j], names, false)
    ensures AllInFragment(Tail(6 - k), names, false) && Tail(0) == STOLEN.body
    decreases k
  {
    hide InFragment;
    if k > 0 {
      TailNext(6 - k);
      FragmentFrom(names, k - 1);
    } else {
      TailNext(0);
    }
  }

  lemma ChooseFalls(st: Store)
    requires InFragment(CHOOSE, st.Keys, false) && "y" in st && st["y"] == 0.0
    ensures Execute(CHOOSE, false, st, 0) == Normal(st)
  {
    assert Eval(Ident("y"), st) == Is(0.0);
  }

  lemma ExecuteStep(k: nat, st: Store, st': Store)
    requires k < 6 && AllInFragment(Tail(k), st.Keys, false) && st'.Keys == st.Keys
    requires InFragment(STOLEN.body[k], st.Keys, false) && Execute(STOLEN.body[k], false, st, 0) == Normal(st')
    ensures AllInFragment(Tail(k + 1), st'.Keys, false)
            && ExecuteAll(Tail(k), false, st, 0) == ExecuteAll(Tail(k + 1), false, st', 0)
  {
    hide Execute;
    TailNext(k);
  }

  lemma LessHolds(st: Store)
    requires st.Keys == SYMBOLS.Keys && st["a"] == 1.0 && st["b"] == 2.0
    requires InFragment(STOLEN.body[3], st.Keys, false)
    ensures Execute(STOLEN.body[3], false, st, 0) == Normal(st["x" := 1.0])
  {
    assert Eval(LESS.left, st) == Is(1.0) && Eval(LESS.right, st) == Is(2.0) && Eval(LESS, st) == Is(1.0);
  }

  lemma StoreStep(k: nat, st: Store, st': Store, x: string, v: real)
    requires k < 3 && STOLEN.body[k] == Var(x, Number(v), false) && st.Keys == SYMBOLS.Keys && x in st
    requires st' == st[x := v] && AllInFragment(Tail(k), st.Keys, false)
    ensures st'.Keys == st.Keys && AllInFragment(Tail(k + 1), st'.Keys, false)
    ensures ExecuteAll(Tail(k), false, st, 0) == ExecuteAll(Tail(k + 1), false, st', 0)
  {
    assert st'.Keys == st.Keys;
    FragmentParted(st.Keys);
    assert Execute(STOLEN.body[k], false, st, 0) == Normal(st');
    ExecuteStep(k, st, st');
  }

  lemma StolenSource(st: Store)
    requires st.Keys == SYMBOLS.Keys
    ensures AllInFragment(STOLEN.body, st.Keys, false) && SourceHalts(STOLEN.body, st, Machine.Returned(1.0))
  {
    hide AllInFragment, InFragment, Execute, ExecuteAll, Eval;
    StolenInFragment(st.Keys);
    FragmentParted(st.Keys);
    assert Tail(0) == STOLEN.body;
    var st1 := st["a" := 1.0];
    var st2 := st1["b" := 2.0];
    var st3 := st2["y" := 0.0];
    var st4 := st3["x" := 1.0];
    StoreStep(0, st, st1, "a", 1.0);
    StoreStep(1, st1, st2, "b", 2.0);
    StoreStep(2, st2, st3, "y", 0.0);
    LessHolds(st3);
    assert st4.Keys == st.Keys;
    ExecuteStep(3, st3, st4);
    assert InFragment(STOLEN.body[4], st4.Keys, false) && STOLEN.body[4] == CHOOSE;
    ChooseFalls(st4);
    ExecuteStep(4, st4, st4);
    LastReturns(st4);
    assert OutcomeOf(Call(STOLEN.body, st, 0)) == Some(Machine.Returned(1.0));
  }

  lemma FragmentParted(names: set<string>)
    requires names == SYMBOLS.Keys
    ensures forall j :: 0 <= j < 6 ==> InFragment(STOLEN.body[j], names, false)
  {
    assert Scoped(Ident("a"), names) && Scoped(Ident("b"), names) && Scoped(Ident("x"), names)
           && Scoped(Ident("y"), names);
    assert Pure(LESS.left) && Pure(LESS.right) && Pure(LESS) && Scoped(LESS, names);
    assert InFragment(CHOOSE, names, false) by {
      assert CHOOSE.thn[1..] == [] && InFragment(CHOOSE.thn[0], names, false);
    }
  }

  lemma LastReturns(st: Store)
    requires AllInFragment(Tail(5), st.Keys, false) && "x" in st && st["x"] == 1.0
    ensures ExecuteAll(Tail(5), false, st, 0) == Source.Returned(1.0)
  {
    TailNext(5);
    assert Eval(Ident("x"), st) == Is(1.0);
    assert Execute(STOLEN.body[5], false, st, 0) == Source.Returned(1.0);
  }

  lemma StolenRuns(env: Env, v: real, n: nat, d: Data) returns (d': Data)
    requires LoadsFunctions(env, v)
    ensures Run(env, 6, StolenOptimized(n), Resume(StolenOptimized(n), Name("f"), d), 8)
            == Done(Machine.Returned(2.0), d'.trace)
  {
    hide Run, SetVars, Vars, Tag;
    var c := StolenOptimized(n);
    LoadEffect(env, v, 6, c[2], d);
    var d3 := Exec(env, 6, c[2], d).d;
    var d4 := Write(d3, Idx(3), 1.0);
    var d5 := Write(d4, Idx(4), 2.0);
    d' := Write(d5, Idx(5), 0.0);
    assert Step(env, 6, c, At(0, d)) == At(1, d) && Step(env, 6, c, At(1, d)) == At(2, d);
    assert Step(env, 6, c, At(2, d)) == At(3, d3) && Step(env, 6, c, At(3, d3)) == At(4, d4);
    assert Step(env, 6, c, At(4, d4)) == At(5, d5) && Step(env, 6, c, At(5, d5)) == At(6, d');
    assert Step(env, 6, c, At(6, d')) == At(7, d')
        && Step(env, 6, c, At(7, d')) == Done(Machine.Returned(2.0), d'.trace);
    RunTwo(env, 6, c, At(0, d));
    RunTwo(env, 6, c, At(2, d));
    RunTwo(env, 6, c, At(4, d4));
    RunTwo(env, 6, c, At(6, d'));
    RunSum(env, 6, c, At(0, d), 2, 2);
    RunSum(env, 6, c, At(0, d), 4, 2);
    RunSum(env, 6, c, At(0, d), 6, 2);
  }

  /** The source returns 1, the value of a < b; the optimized code jumps on a < b instead of on y,
      and returns 2. */
  lemma OptimizerMistakes(env: Env, v: real, n: nat, st: Store, d: Data)
    requires LoadsFunctions(env, v) && Entered(STOLEN, st, d)
    ensures Compilable(STOLEN) && Readable(FunctionCode(STOLEN, n).code) && Shaped(FunctionCode(STOLEN, n).code)
    ensures STOLEN.name in st && AllInFragment(STOLEN.body, st[STOLEN.name := v].Keys, false)
    ensures SourceHalts(STOLEN.body, st[STOLEN.name := v], Machine.Returned(1.0))
    ensures exists trace :: Halts(env, 6, Optimized(FunctionCode(STOLEN, n).code),
                                  Resume(Optimized(FunctionCode(STOLEN, n).code), Name("f"), d),
                                  Machine.Returned(2.0), trace)
    ensures var c := FunctionCode(STOLEN, n).code;
            |c| > 7 && FusesTest(c[6], c[7]) && !FiresWell(6, c[6], c[7])
  {
    hide FunctionCode, Optimized, FunctionTables, Run, Resume, SourceHalts, AllInFragment, StolenOptimized;
    StolenTables();
    StolenCompiles(n);
    StolenResult(n);
    assert st.Keys == SYMBOLS.Keys;
    StolenSource(st[STOLEN.name := v]);
    StolenSource(st);
    var d' := StolenRuns(env, v, n, d);
    assert Halts(env, 6, StolenOptimized(n), Resume(StolenOptimized(n), Name("f"), d), Machine.Returned(2.0), d'.trace);
  }
}
