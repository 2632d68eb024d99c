/** Where compiled code does not mean what its source says: an assignment of a bare variable,
    exactly, and functions the optimizer breaks. */
module Miscompiled {
  import opened Options
  import opened Bytecode
  import opened Machine
  import opened Registers
  import opened Labels
  import opened Source
  import opened Symbols
  import opened Codegen
  import opened ExprProof
  import opened StmtProof
  import opened Optimizer
  import opened FunctionProof
  import opened FrameSize

  // ----- loops without a condition -----

  /** A loop without a condition never runs its body: its code ends in the state it starts in. */
  lemma UnconditionalSkips(env: Env, nv: nat, it: Option<Expr>, body: seq<Stmt>, t: Table, ends: seq<string>, p: Pool,
                           k: nat, whole: seq<Instr>, base: nat, d: Data)
    requires UniqueLabels(whole) && Placed(whole, base, CompileStmt(Loop(None, None, it, body), t, ends, p, k).code)
    ensures var size := |CompileStmt(Loop(None, None, it, body), t, ends, p, k).code|;
            size >= 3 && Run(env, nv, whole, At(base, d), 3) == At(base + size, d)
  {
    hide CompileBody, CompileExpr, CompileStmt, UniqueLabels, Exec, Tag, Run, Step, Find;
    var s := Loop(None, None, it, body);
    LoopParted(s, t, ends, p, k);
    var c := LoopParts(s, t, ends, p, k);
    var start, cond, end := Tag(LOOP_START, k + 1), Tag(LOOP_CONDITION, k + 3), Tag(LOOP_END, k + 2);
    var code := CompileStmt(s, t, ends, p, k).code;
    var between := [Label(start)] + c.body.code + c.iter.code;
    assert c.start.code == [] && c.cond.code == [];
    assert code == [Jump(cond)] + between + [Label(cond)] + [Label(end)];
    var at := base + |code| - 2;
    assert whole[base] == Jump(cond) && whole[at] == Label(cond) && whole[at + 1] == Label(end) by {
      PlacedAt(whole, base, code, 0);
      PlacedAt(whole, base, code, |code| - 2);
      PlacedAt(whole, base, code, |code| - 1);
    }
    FindUnique(whole, at);
    StepJump(env, nv, whole, base, cond, d, at);
    StepLabel(env, nv, whole, at, cond, d);
    StepLabel(env, nv, whole, at + 1, end, d);
    RunTwo(env, nv, whole, At(base, d));
    RunOne(env, nv, whole, At(at + 1, d));
    RunSum(env, nv, whole, At(base, d), 2, 1);
  }

  lemma PlacedAt(whole: seq<Instr>, base: nat, c: seq<Instr>, k: nat)
    requires Placed(whole, base, c) && k < |c|
    ensures base + k < |whole| && whole[base + k] == c[k]
  {
    assert whole[base..base + |c|][k] == whole[base + k];
  }

  // ----- assignments -----

  /** The code of an assignment stores the value, whatever the store it starts from. */
  ghost predicate Assigns(env: Env, x: string, v: Expr, t: Table, p: Pool) {
    forall st: Store, d: Data :: Good(t, st, d, d.trace) && Pure(v) && Scoped(v, st.Keys)
      ==> LineDelivers(RunLine(env, |t|, CompileExpr(Assign(x, v), 0, t, p).code, d), Bind(x, Eval(v, st), st), t, d)
  }

  /** A store with different values in x and in everything else, and its registers. */
  function Contrast(t: Table, x: string): Store { map z | z in t :: if z == x then 0.0 else 1.0 }

  function ContrastData(t: Table, x: string): Data
    requires x in t
  {
    Data(map r | r in UpTo(|t|) :: if r == t[x] then 0.0 else 1.0, [], [])
  }

  /** An assignment is compiled right if and only if it is not the assignment of one bare
      variable to another: for that one no code is emitted. */
  lemma AssignmentExact(env: Env, x: string, v: Expr, t: Table, p: Pool)
    requires Numbering(t) && x in t && Pure(v) && Scoped(v, t.Keys)
    ensures Assigns(env, x, v, t, p) <==> !(v.Ident? && v.name != x)
  {
    hide CompileExpr, RunLine, LineDelivers;
    if v.Ident? && v.name != x {
      var st, d := Contrast(t, x), ContrastData(t, x);
      UpToSize(|t|);
      assert Good(t, st, d, d.trace);
      BareAssignment(env, x, v.name, t, p, d);
      NotStored(x, v.name, t, st, d);
    } else {
      forall st: Store, d: Data | Good(t, st, d, d.trace)
        ensures LineDelivers(RunLine(env, |t|, CompileExpr(Assign(x, v), 0, t, p).code, d), Bind(x, Eval(v, st), st),
                             t, d)
      {
        AssignDelivers(env, x, v, t, p, st, d);
      }
    }
  }

  lemma BareAssignment(env: Env, x: string, y: string, t: Table, p: Pool, d: Data)
    requires Numbering(t) && x in t && y in t
    ensures RunLine(env, |t|, CompileExpr(Assign(x, Ident(y)), 0, t, p).code, d) == Fall(d)
  {
    assert CompileExpr(Assign(x, Ident(y)), 0, t, p).code == [];
  }

  lemma NotStored(x: string, y: string, t: Table, st: Store, d: Data)
    requires x in t && y in t && Good(t, st, d, d.trace) && st[x] != st[y]
    ensures !LineDelivers(Fall(d), Bind(x, Is(st[y]), st), t, d)
  {
  }

  // ----- a function the optimizer breaks -----

  /** f() { return 1 + (3 < 2); } */
  const BROKEN: Function :=
    Function("f", [], [Return(Binary(Plus, Number(1.0), Binary(Less, Number(3.0), Number(2.0))))], false, false)

  const TABLE: Table := map["this" := 1, "f" := 2]

  function BrokenCode(): seq<Instr> {
    [Label("f"), FrameHeader(6, Tables(TABLE, {}), "f"), Instr(MOV_FNC, Idx(2), Name("f"), Idx(0)),
     Instr(MOV_NUMBER, Idx(3), Lit(1.0), NULL), Instr(MOV_NUMBER, Idx(4), Lit(3.0), NULL),
         Instr(MOV_NUMBER, Idx(5), Lit(2.0), NULL),
     Instr(CMP_LESS, Idx(4), Idx(5), Idx(6)), Instr(ADD, Idx(3), Idx(6), Idx(4)), Instr(RETURN, Idx(4), NULL, NULL),
     RETURN_NULL, Label("endf")]
  }

  lemma BrokenTables()
    ensures FunctionTables(BROKEN) == Tables(TABLE, {})
  {
    var s := BROKEN.body;
    assert s[1..] == [];
    assert AddBody(Header(BROKEN), s) == AddBody(AddStmt(Header(BROKEN), s[0]), s[1..]) == Header(BROKEN);
    assert AddNames(AddName(AddName(map[], "this"), "f"), []) == AddName(map["this" := 1], "f");
  }

  lemma BrokenPools()
    ensures Taken(2, []) == 3 && Take([]) == [false]
    ensures Taken(2, [false]) == 4 && Take([false]) == [false, false]
    ensures Taken(2, [false, false]) == 5 && Take([false, false]) == [false, false, false]
    ensures Taken(2, [false, false, false]) == 6 && Take([false, false, false]) == [false, false, false, false]
    ensures Release(2, Release(2, [false, false, false, false], 5), 4) == [false, true, true, false]
    ensures Taken(2, [false, true, true, false]) == 4
            && Take([false, true, true, false]) == [false, false, true, false]
  {
    hide FirstFree;
    FirstAfter([]);
    FirstAfter([false]);
    FirstAfter([false, false]);
    FirstAfter([true, true, false]);
    assert FirstFree([]) == 0;
    assert [false] + [] == [false] && [false] + [false] == [false, false]
        && [false] + [false, false] == [false, false, false];
    assert [false] + [true, true, false] == [false, true, true, false];
  }

  lemma FirstAfter(p: Pool)
    ensures FirstFree([false] + p) == 1 + FirstFree(p)
    ensures p != [] && p[0] ==> FirstFree(p) == 0
  {
    assert ([false] + p)[1..] == p;
  }

  lemma NumberCode(x: real, t: Table, p: Pool)
    ensures CompileExpr(Number(x), 0, t, p) == Out([Instr(MOV_NUMBER, Idx(Taken(|t|, p)), Lit(x), NULL)],
                                                   Taken(|t|, p), Take(p))
  {
  }

  lemma BrokenExpression()
    ensures CompileExpr(BROKEN.body[0].e, 0, TABLE, []).code == BrokenCode()[3..8]
    ensures CompileExpr(BROKEN.body[0].e, 0, TABLE, []).reg == 4
    ensures |CompileExpr(BROKEN.body[0].e, 0, TABLE, []).pool| == 4
  {
    hide CompileExpr, Taken, Take, Release;
    var a, b, c := Number(1.0), Number(3.0), Number(2.0);
    BrokenPools();
    NumberCode(1.0, TABLE, []);
    NumberCode(3.0, TABLE, [false]);
    NumberCode(2.0, TABLE, [false, false]);
    BinaryParted(Less, b, c, 0, TABLE, [false]);
    BinaryParted(Plus, a, Binary(Less, b, c), 0, TABLE, []);
    FreeBothLength(2, [false, false, true, false], 3, 6, 4);
  }

  lemma BrokenCompiles(n: nat)
    ensures FunctionCode(BROKEN, n).code == BrokenCode()
  {
    hide FunctionTables, CompileExpr;
    BrokenTables();
    BrokenExpression();
    var s := BROKEN.body;
    assert s[1..] == [];
    var b := CompileStmt(s[0], TABLE, [], [], n);
    ReleaseLength(2, CompileExpr(s[0].e, 0, TABLE, []).pool, 4);
    assert b.code == BrokenCode()[3..9] && |b.pool| == 4;
    assert CompileAll(s[1..], TABLE, [], b.pool, b.labels) == Piece([], b.pool, b.labels);
    assert CompileAll(s, TABLE, [], [], n) == Piece(b.code, b.pool, b.labels);
    assert Hoist(s[1..], TABLE) == [] && Hoist(s, TABLE) == [];
    assert "end" + "f" == "endf";
  }

  /** What the optimizer makes of it: the addition is gone, and with it the value of register 4. */
  function BrokenOptimized(): seq<Instr> {
    [Label("f"), FrameHeader(6, Tables(TABLE, {}), "f"), Instr(MOV_FNC, Idx(2), Name("f"), Idx(0)),
     Instr(MOV_NUMBER, Idx(3), Lit(1.0), NULL), Instr(MOV_NUMBER, Idx(4), Lit(3.0), NULL),
         Instr(MOV_NUMBER, Idx(5), Lit(2.0), NULL),
     Instr(CMP_LESS, Idx(4), Idx(5), Idx(6)), Instr(RETURN, Idx(4), NULL, NULL), Label("endf")]
  }

  lemma TakesTurn(s: seq<Instr>, i: nat, turn: Turn)
    requires Readable(s) && i < |s|
    requires turn == if i + 1 < |s| then TurnOf(s[i], s[i + 1]) else Turn([s[i]], 1)
    ensures i + turn.used <= |s| && Readable(s[i + turn.used..])
    ensures Readable(s[i..]) && Pass(s[i..]) == turn.push + Pass(s[i + turn.used..])
  {
    hide Pass, TurnOf;
    PassUnfold(s, i);
  }

  predicate KeptAsIs(cur: Instr, next: Instr) {
    cur.op == LABEL || cur.op == FFRAME || cur.op == MOV_FNC || (cur.op == MOV_NUMBER && !IsCompareJump(next.op))
  }

  lemma {:induction false} KeepsTurns(s: seq<Instr>, i: nat)
    requires Readable(s) && i < |s| && forall j :: 0 <= j < i ==> KeptAsIs(s[j], s[j + 1])
    ensures Readable(s[i..]) && Pass(s) == s[..i] + Pass(s[i..])
  {
    hide Pass;
    if i == 0 {
      assert s[0..] == s;
    } else {
      assert KeptAsIs(s[i - 1], s[i]);
      KeepsTurns(s, i - 1);
      TakesTurn(s, i - 1, Turn([s[i - 1]], 1));
    }
  }

  lemma BrokenPass()
    ensures Readable(BrokenCode()) && Pass(BrokenCode()) == BrokenOptimized()
  {
    hide Pass, LoadAndJump, CompareAndJump;
    var s := BrokenCode();
    KeepsTurns(s, 6);
    TakesTurn(s, 6, Turn([s[6]], 2));
    TakesTurn(s, 8, Turn([s[8]], 2));
    TakesTurn(s, 10, Turn([s[10]], 1));
    PassNothing(s[11..]);
  }

  lemma BrokenPassAgain()
    ensures Readable(BrokenOptimized()) && Pass(BrokenOptimized()) == BrokenOptimized()
  {
    hide Pass, LoadAndJump, CompareAndJump;
    var s := BrokenOptimized();
    KeepsTurns(s, 6);
    TakesTurn(s, 6, Turn([s[6]], 1));
    TakesTurn(s, 7, Turn([s[7]], 1));
    TakesTurn(s, 8, Turn([s[8]], 1));
    PassNothing(s[9..]);
  }

  lemma BrokenResult(n: nat)
    ensures Readable(FunctionCode(BROKEN, n).code) && Shaped(FunctionCode(BROKEN, n).code)
    ensures Optimized(FunctionCode(BROKEN, n).code) == BrokenOptimized()
  {
    hide FunctionCode, Pass;
    BrokenCompiles(n);
    FunctionFits(BROKEN, n);
    BrokenPass();
    PassShape(BrokenCode());
    BrokenPassAgain();
  }

  lemma BrokenSource(st: Store)
    ensures AllInFragment(BROKEN.body, st.Keys, false) && SourceHalts(BROKEN.body, st, Machine.Returned(1.0))
  {
    var s, a, b, c := BROKEN.body, Number(1.0), Number(3.0), Number(2.0);
    var inner := Binary(Less, b, c);
    assert Scoped(a, st.Keys) && Scoped(b, st.Keys) && Scoped(c, st.Keys);
    assert Eval(a, st) == Is(1.0) && Eval(b, st) == Is(3.0) && Eval(c, st) == Is(2.0);
    assert Pure(inner) && Scoped(inner, st.Keys) && Eval(inner, st) == Is(0.0);
    assert Eval(Binary(Plus, a, inner), st) == Is(1.0);
    assert InFragment(s[0], st.Keys, false) && s[1..] == [];
    assert AllInFragment(s[1..], st.Keys, false);
    assert Execute(s[0], false, st, 0) == Source.Returned(1.0);
    assert OutcomeOf(Call(BROKEN.body, st, 0)) == Some(Machine.Returned(1.0));
  }

  lemma BrokenRuns(env: Env, v: real, d: Data) returns (d': Data)
    requires LoadsFunctions(env, v)
    ensures Run(env, 2, BrokenOptimized(), Resume(BrokenOptimized(), Name("f"), d), 8)
            == Done(Machine.Returned(3.0), d'.trace)
  {
    hide Run, SetVars, Vars;
    var c := BrokenOptimized();
    LoadEffect(env, v, 2, c[2], d);
    var d3 := Exec(env, 2, c[2], d).d;
    var d4 := Write(d3, Idx(3), 1.0);
    var d5 := Write(d4, Idx(4), 3.0);
    var d6 := Write(d5, Idx(5), 2.0);
    d' := Write(d6, Idx(6), 0.0);
    assert Step(env, 2, c, At(0, d)) == At(1, d) && Step(env, 2, c, At(1, d)) == At(2, d);
    assert Step(env, 2, c, At(2, d)) == At(3, d3) && Step(env, 2, c, At(3, d3)) == At(4, d4);
    assert Step(env, 2, c, At(4, d4)) == At(5, d5) && Step(env, 2, c, At(5, d5)) == At(6, d6);
    assert Step(env, 2, c, At(6, d6)) == At(7, d')
        && Step(env, 2, c, At(7, d')) == Done(Machine.Returned(3.0), d'.trace);
    RunTwo(env, 2, c, At(0, d));
    RunTwo(env, 2, c, At(2, d));
    RunTwo(env, 2, c, At(4, d4));
    RunTwo(env, 2, c, At(6, d6));
    RunSum(env, 2, c, At(0, d), 2, 2);
    RunSum(env, 2, c, At(0, d), 4, 2);
    RunSum(env, 2, c, At(0, d), 6, 2);
  }

  /** The source returns 1; the optimized code, entered in the same state, returns 3. */
  lemma OptimizerBreaks(env: Env, v: real, n: nat, st: Store, d: Data)
    requires LoadsFunctions(env, v) && Entered(BROKEN, st, d)
    ensures Compilable(BROKEN) && Readable(FunctionCode(BROKEN, n).code) && Shaped(FunctionCode(BROKEN, n).code)
    ensures BROKEN.name in st && AllInFragment(BROKEN.body, st[BROKEN.name := v].Keys, false)
    ensures SourceHalts(BROKEN.body, st[BROKEN.name := v], Machine.Returned(1.0))
    ensures exists trace :: Halts(env, 2, Optimized(FunctionCode(BROKEN, n).code),
                                  Resume(Optimized(FunctionCode(BROKEN, n).code), Name("f"), d), Machine.Returned(3.0),
                                      trace)
  {
    hide FunctionCode, Optimized, FunctionTables, Run, Resume, Represents, SourceHalts, AllInFragment;
    BrokenTables();
    BrokenResult(n);
    BrokenSource(st[BROKEN.name := v]);
    BrokenSource(st);
    assert st.Keys == TABLE.Keys;
    var d' := BrokenRuns(env, v, d);
    assert Halts(env, 2, BrokenOptimized(), Resume(BrokenOptimized(), Name("f"), d), Machine.Returned(3.0), d'.trace);
  }
}
