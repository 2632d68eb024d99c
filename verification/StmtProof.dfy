/** Code emitted for the fragment's statements simulates their meaning: same stores, same
    returned value, same exceptions, and endless when they are. */
module StmtProof {
  import opened Options
  import opened Bytecode
  import opened Machine
  import opened Registers
  import opened Labels
  import opened Source
  import opened Symbols
  import opened Codegen
  import opened ExprProof

  /** Code c stands at position base. */
  ghost predicate Placed(whole: seq<Instr>, base: nat, c: seq<Instr>) {
    base + |c| <= |whole| && whole[base..base + |c|] == c
  }

  lemma PlacedConcat(whole: seq<Instr>, base: nat, a: seq<Instr>, b: seq<Instr>)
    ensures Placed(whole, base, a + b) <==> Placed(whole, base, a) && Placed(whole, base + |a|, b)
  {
    if Placed(whole, base, a + b) {
      assert whole[base..base + |a|] == (a + b)[..|a|];
      assert whole[base + |a|..base + |a| + |b|] == (a + b)[|a|..];
    }
    if Placed(whole, base, a) && Placed(whole, base + |a|, b) {
      assert whole[base..base + |a + b|] == whole[base..base + |a|] + whole[base + |a|..base + |a| + |b|];
    }
  }

  lemma PlacedOne(whole: seq<Instr>, base: nat, i: Instr)
    requires Placed(whole, base, [i])
    ensures base < |whole| && whole[base] == i
  {
    assert whole[base] == whole[base..base + 1][0];
  }

  // ----- single steps -----

  lemma {:induction false} LineRuns(env: Env, nv: nat, whole: seq<Instr>, base: nat, c: seq<Instr>, d: Data)
      returns (n: nat, pc: nat)
    requires Placed(whole, base, c)
    ensures var f := RunLine(env, nv, c, d);
            if f.Fall? then n == |c| && Run(env, nv, whole, At(base, d), n) == At(base + |c|, f.d)
            else Run(env, nv, whole, At(base, d), n) == Land(whole, pc, f)
    decreases |c|
  {
    hide Exec;
    n, pc := 0, base;
    if c != [] {
      assert whole[base] == c[0];
      var e := Exec(env, nv, c[0], d);
      if e.Fall? {
        assert Placed(whole, base + 1, c[1..]);
        n, pc := LineRuns(env, nv, whole, base + 1, c[1..], e.d);
        n := n + 1;
      } else {
        n := 1;
        RunOne(env, nv, whole, At(base, d));
      }
    }
  }

  lemma StepLabel(env: Env, nv: nat, whole: seq<Instr>, pc: nat, name: string, d: Data)
    requires Placed(whole, pc, [Label(name)])
    ensures Step(env, nv, whole, At(pc, d)) == At(pc + 1, d)
    ensures UniqueLabels(whole) ==> Find(whole, Name(name)) == Some(pc)
  {
    PlacedOne(whole, pc, Label(name));
    if UniqueLabels(whole) {
      FindUnique(whole, pc);
    }
  }

  lemma StepJump(env: Env, nv: nat, whole: seq<Instr>, pc: nat, name: string, d: Data, target: nat)
    requires Placed(whole, pc, [Jump(name)]) && Find(whole, Name(name)) == Some(target)
    ensures Step(env, nv, whole, At(pc, d)) == At(target, d)
  {
    PlacedOne(whole, pc, Jump(name));
  }

  lemma StepTest(env: Env, nv: nat, whole: seq<Instr>, pc: nat, op: nat, reg: nat, name: string, d: Data, target: nat)
    requires Placed(whole, pc, [Instr(op, Idx(reg), Name(name), NULL)]) && IsTestJump(op)
    requires Find(whole, Name(name)) == Some(target)
    ensures Step(env, nv, whole, At(pc, d))
            == At(if (Get(d.regs, Idx(reg)) != 0.0) == (op == JMP_TRUE) then target else pc + 1, d)
  {
    PlacedOne(whole, pc, Instr(op, Idx(reg), Name(name), NULL));
  }

  // ----- straight-line statements -----

  ghost predicate Good(t: Table, st: Store, d: Data, trace: seq<Observation>) {
    st.Keys == t.Keys && Represents(t, st, d.regs) && d.catches == [] && d.trace == trace
  }

  /** A line of code does what the source result says. */
  ghost predicate LineDelivers(f: Effect, r: Result, t: Table, d: Data) {
    match r
    case Normal(st) => f.Fall? && Good(t, st, f.d, d.trace)
    case Raised => f.Raise? && f.fault == DivideByZero && f.d.catches == d.catches && f.d.trace == d.trace
    case Escaped => f.Escape? && f.d.trace == d.trace
    case _ => false
  }

  lemma MoveEffect(env: Env, nv: nat, a: nat, b: nat, d: Data)
    ensures Exec(env, nv, Instr(MOV, Idx(a), Idx(b), NULL), d) == Fall(Write(d, Idx(a), Get(d.regs, Idx(b))))
  {
  }

  lemma StepEffect(env: Env, nv: nat, a: nat, up: bool, d: Data)
    ensures var f := Exec(env, nv, Instr(if up then INC else DEC, Idx(a), Idx(a), NULL), d);
            && f.Fall? && f.d.catches == d.catches && f.d.trace == d.trace
            && Get(f.d.regs, Idx(a)) == Get(d.regs, Idx(a)) + (if up then 1.0 else -1.0)
            && (forall r: nat :: r != a ==> Get(f.d.regs, Idx(r)) == Get(d.regs, Idx(r)))
  {
  }

  lemma BindDelivers(f: Effect, v: Value, x: string, t: Table, p: Pool, st: Store, d: Data)
    requires Numbering(t) && x in t && Good(t, st, d, d.trace)
    requires Computes(f, v, |t|, p, t[x], t[x], d)
    ensures LineDelivers(f, Bind(x, v, st), t, d)
  {
  }

  /** var x = e */
  lemma VarDelivers(env: Env, x: string, v: Expr, isPrivate: bool, t: Table, p: Pool, st: Store, d: Data,
                    ends: seq<string>, n: nat)
    requires Numbering(t) && x in t && Pure(v) && Scoped(v, t.Keys) && Good(t, st, d, d.trace)
    ensures LineDelivers(RunLine(env, |t|, CompileStmt(Var(x, v, isPrivate), t, ends, p, n).code, d),
                         Bind(x, Eval(v, st), st), t, d)
  {
    hide Exec, Free, RunLine;
    VariableTaken(|t|, p, t[x]);
    var o := CompileExpr(v, t[x], t, p);
    ExprPool(v, t[x], t, p);
    if o.reg == t[x] {
      ExprComputes(env, v, t[x], t, p, st, d);
      BindDelivers(RunLine(env, |t|, o.code, d), Eval(v, st), x, t, p, st, d);
    } else {
      CopyDelivers(env, x, v.name, t, st, d);
      assert o.code + [Instr(MOV, Idx(t[x]), Idx(o.reg), NULL)] == [Instr(MOV, Idx(t[x]), Idx(t[v.name]), NULL)];
    }
  }

  lemma VariableTaken(n: nat, p: Pool, r: nat)
    requires r <= n
    ensures !Free(n, p, r)
  {
  }

  lemma CopyDelivers(env: Env, x: string, y: string, t: Table, st: Store, d: Data)
    requires Numbering(t) && x in t && y in t && Good(t, st, d, d.trace)
    ensures LineDelivers(RunLine(env, |t|, [Instr(MOV, Idx(t[x]), Idx(t[y]), NULL)], d), Normal(st[x := st[y]]), t, d)
  {
    hide RunLine, Exec, Represents, Put, Numbering;
    RunLineOne(env, |t|, Instr(MOV, Idx(t[x]), Idx(t[y]), NULL), d);
    MoveEffect(env, |t|, t[x], t[y], d);
    WriteRepresents(t, st, x, y, d.regs);
  }

  lemma WriteRepresents(t: Table, st: Store, x: string, y: string, regs: Regs)
    requires Numbering(t) && x in t && y in t && Represents(t, st, regs)
    ensures y in st && Represents(t, st[x := st[y]], Put(regs, Idx(t[x]), Get(regs, Idx(t[y]))))
  {
  }

  /** An expression statement. */
  lemma ActDelivers(env: Env, e: Expr, t: Table, p: Pool, st: Store, d: Data, n: nat)
    requires Numbering(t) && Action(e) && Scoped(e, t.Keys) && Good(t, st, d, d.trace)
    ensures LineDelivers(RunLine(env, |t|, CompileEffect(Some(e), t, p, n).code, d), Act(e, st), t, d)
  {
    hide Exec, RunLine, Eval, CompileExpr, LineDelivers, Good, Numbering;
    match e
    case Assign(x, v) => AssignDelivers(env, x, v, t, p, st, d);
    case Postfix(x, up) => PostfixDelivers(env, x, up, t, p, st, d);
    case Number(_) | Ident(_) | Binary(_, _, _) => PureDelivers(env, e, t, p, st, d);
  }

  lemma AssignDelivers(env: Env, x: string, v: Expr, t: Table, p: Pool, st: Store, d: Data)
    requires Numbering(t) && x in t && Pure(v) && (v.Ident? ==> v.name == x) && Scoped(v, t.Keys)
             && Good(t, st, d, d.trace)
    ensures LineDelivers(RunLine(env, |t|, CompileExpr(Assign(x, v), 0, t, p).code, d), Bind(x, Eval(v, st), st), t, d)
  {
    hide Exec, RunLine, Eval, LineDelivers, Free, Computes;
    VariableTaken(|t|, p, t[x]);
    ExprPool(v, t[x], t, p);
    ExprComputes(env, v, t[x], t, p, st, d);
    var o := CompileExpr(v, t[x], t, p);
    assert CompileExpr(Assign(x, v), 0, t, p).code == o.code;
    BindDelivers(RunLine(env, |t|, o.code, d), Eval(v, st), x, t, p, st, d);
  }

  lemma PureDelivers(env: Env, e: Expr, t: Table, p: Pool, st: Store, d: Data)
    requires Numbering(t) && Pure(e) && Scoped(e, t.Keys) && Good(t, st, d, d.trace)
    ensures LineDelivers(RunLine(env, |t|, CompileExpr(e, 0, t, p).code, d), Then(Eval(e, st), Normal(st)), t, d)
  {
    hide Exec, RunLine, Eval, CompileExpr, Free, Numbering, Represents;
    ZeroTaken(|t|, p);
    ExprComputes(env, e, 0, t, p, st, d);
    StillRepresents(t, st, p, 0, d.regs, RunLine(env, |t|, CompileExpr(e, 0, t, p).code, d).d.regs);
  }

  lemma PostfixDelivers(env: Env, x: string, up: bool, t: Table, p: Pool, st: Store, d: Data)
    requires Numbering(t) && x in t && Good(t, st, d, d.trace)
    ensures LineDelivers(RunLine(env, |t|, CompileExpr(Postfix(x, up), 0, t, p).code, d), Act(Postfix(x, up), st), t,
                         d)
  {
    hide Exec, RunLine;
    var o := CompileExpr(Postfix(x, up), 0, t, p);
    var res := Taken(|t|, p);
    var move := Instr(MOV, Idx(res), Idx(t[x]), NULL);
    var bump := Instr(if up then INC else DEC, Idx(t[x]), Idx(t[x]), NULL);
    assert o.code == [move] + [bump];
    MoveEffect(env, |t|, res, t[x], d);
    var d1 := Write(d, Idx(res), Get(d.regs, Idx(t[x])));
    RunLineConcat(env, |t|, [move], [bump], d);
    RunLineOne(env, |t|, move, d);
    RunLineOne(env, |t|, bump, d1);
    StepEffect(env, |t|, t[x], up, d1);
    assert Represents(t, st, d1.regs);
  }

  lemma EffectDelivers(env: Env, e: Option<Expr>, t: Table, p: Pool, st: Store, d: Data, n: nat)
    requires Numbering(t) && Good(t, st, d, d.trace) && (e.Some? ==> Action(e.value) && Scoped(e.value, t.Keys))
    ensures LineDelivers(RunLine(env, |t|, CompileEffect(e, t, p, n).code, d), ActOption(e, st), t, d)
  {
    if e.Some? {
      ActDelivers(env, e.value, t, p, st, d, n);
    }
  }

  // ----- statements -----

  /** After n steps from start the machine is where the source result says: past the code, at
      the enclosing loop's end, returned, abandoned - or still running after as many steps as
      the source was given fuel. */
  ghost predicate Delivers(env: Env, t: Table, whole: seq<Instr>, start: State, trace: seq<Observation>,
                           r: Result, exit: nat, brk: nat, fuel: nat, n: nat, d': Data) {
    var s := Run(env, |t|, whole, start, n);
    match r
    case Normal(st) => s == At(exit, d') && Good(t, st, d', trace)
    case Broke(st) => s == At(brk, d') && Good(t, st, d', trace)
    case Returned(v) => s == Done(Machine.Returned(v), trace)
    case Raised => s == Done(Uncaught(DivideByZero), trace)
    case Escaped => s == Done(OutOfModel, trace)
    case OutOfFuel => n >= fuel && s.At?
  }

  lemma Prefixed(env: Env, t: Table, whole: seq<Instr>, s0: State, n0: nat, s1: State, trace: seq<Observation>,
                 r: Result, exit: nat, brk: nat, fuel: nat, more: nat, n: nat, d': Data)
    requires Run(env, |t|, whole, s0, n0) == s1 && more <= fuel + n0
    requires Delivers(env, t, whole, s1, trace, r, exit, brk, fuel, n, d')
    ensures Delivers(env, t, whole, s0, trace, r, exit, brk, more, n0 + n, d')
  {
    RunSum(env, |t|, whole, s0, n0, n);
  }

  /** k further steps from the exit, if it is reached. */
  lemma Followed(env: Env, t: Table, whole: seq<Instr>, s0: State, trace: seq<Observation>, r: Result,
                 exit: nat, exit': nat, brk: nat, fuel: nat, n: nat, d': Data, k: nat)
    returns (m: nat)
    requires Delivers(env, t, whole, s0, trace, r, exit, brk, fuel, n, d')
    requires r.Normal? ==> Run(env, |t|, whole, At(exit, d'), k) == At(exit', d')
    ensures Delivers(env, t, whole, s0, trace, r, exit', brk, fuel, m, d')
  {
    m := if r.Normal? then n + k else n;
    RunSum(env, |t|, whole, s0, n, k);
  }

  lemma LineSim(env: Env, t: Table, whole: seq<Instr>, base: nat, c: seq<Instr>, d: Data, r: Result, brk: nat,
                fuel: nat)
    returns (n: nat, d': Data)
    requires Placed(whole, base, c) && d.catches == [] && LineDelivers(RunLine(env, |t|, c, d), r, t, d)
    ensures Delivers(env, t, whole, At(base, d), d.trace, r, base + |c|, brk, fuel, n, d')
  {
    hide RunLine, Represents, Run;
    var pc;
    n, pc := LineRuns(env, |t|, whole, base, c, d);
    d' := RunLine(env, |t|, c, d).d;
  }

  /** What every simulated statement starts from. */
  ghost predicate Ready(t: Table, st: Store, whole: seq<Instr>, d: Data, ends: seq<string>, inLoop: bool, brk: nat) {
    && Numbering(t) && UniqueLabels(whole) && Good(t, st, d, d.trace)
    && (inLoop ==> ends != [] && Find(whole, Name(ends[|ends| - 1])) == Some(brk))
  }

  /** Evaluating a condition and testing it: at the jump's target or past it. */
  lemma TestSim(env: Env, c: Expr, op: nat, name: string, t: Table, p: Pool, st: Store, whole: seq<Instr>, base: nat,
                d: Data, target: nat)
    returns (n: nat, d': Data)
    requires Numbering(t) && Pure(c) && Scoped(c, t.Keys) && Good(t, st, d, d.trace) && IsTestJump(op)
    requires Placed(whole, base, CompileExpr(c, 0, t, p).code
                    + [Instr(op, Idx(CompileExpr(c, 0, t, p).reg), Name(name), NULL)])
    requires Find(whole, Name(name)) == Some(target)
    ensures var v, past := Eval(c, st), base + |CompileExpr(c, 0, t, p).code| + 1;
            var s := Run(env, |t|, whole, At(base, d), n);
            && n >= 1
            && match v
               case Is(x) => s == At(if (x != 0.0) == (op == JMP_TRUE) then target else past, d')
                   && Good(t, st, d', d.trace)
               case Fails => s == Done(Uncaught(DivideByZero), d.trace)
               case Escapes => s == Done(OutOfModel, d.trace)
  {
    hide Exec, Free, RunLine, Run, CompileExpr, Eval, Untouched, Represents, Placed, Numbering, Get, Find, Step;
    var o := CompileExpr(c, 0, t, p);
    PlacedConcat(whole, base, o.code, [Instr(op, Idx(o.reg), Name(name), NULL)]);
    ZeroTaken(|t|, p);
    ExprComputes(env, c, 0, t, p, st, d);
    var f := RunLine(env, |t|, o.code, d);
    StillRepresents(t, st, p, 0, d.regs, f.d.regs);
    d' := f.d;
    var m, pc := LineRuns(env, |t|, whole, base, o.code, d);
    n := m + 1;
    RunSum(env, |t|, whole, At(base, d), m, 1);
    RunOne(env, |t|, whole, Run(env, |t|, whole, At(base, d), m));
    if f.Fall? {
      StepTest(env, |t|, whole, base + |o.code|, op, o.reg, name, f.d, target);
    } else {
      RunDone(env, |t|, whole, Run(env, |t|, whole, At(base, d), m), 1);
    }
  }

  lemma {:induction false} SimStmt(env: Env, s: Stmt, inLoop: bool, t: Table, ends: seq<string>, p: Pool, k: nat,
                                   st: Store, fuel: nat, whole: seq<Instr>, base: nat, d: Data, brk: nat)
    returns (n: nat, d': Data)
    requires Ready(t, st, whole, d, ends, inLoop, brk) && InFragment(s, t.Keys, inLoop)
    requires Placed(whole, base, CompileStmt(s, t, ends, p, k).code)
    ensures Delivers(env, t, whole, At(base, d), d.trace, Execute(s, inLoop, st, fuel),
                     base + |CompileStmt(s, t, ends, p, k).code|, brk, fuel, n, d')
    decreases fuel, s, 2
  {
    hide Delivers, RunLine, Numbering, UniqueLabels, Represents, Run, Step, Eval, CompileExpr, CompileAll, ExecuteAll,
         Iterate, Act;
    var code := CompileStmt(s, t, ends, p, k).code;
    match s
    case Var(x, v, isPrivate) =>
      VarDelivers(env, x, v, isPrivate, t, p, st, d, ends, k);
      n, d' := LineSim(env, t, whole, base, code, d, Bind(x, Eval(v, st), st), brk, fuel);
    case Do(e) =>
      ActDelivers(env, e, t, p, st, d, k);
      n, d' := LineSim(env, t, whole, base, code, d, Act(e, st), brk, fuel);
    case Return(e) =>
      n, d' := SimReturn(env, e, t, ends, p, k, st, fuel, whole, base, d, brk);
    case Break =>
      n, d' := 1, d;
      StepJump(env, |t|, whole, base, ends[|ends| - 1], d, brk);
      SimBreak(env, t, st, whole, base, d, base + 1, brk, fuel);
    case Block(b) =>
      n, d' := SimBody(env, b, inLoop, t, ends, p, k, st, fuel, whole, base, d, brk);
    case If(_, _, _, _) =>
      n, d' := SimIf(env, s, inLoop, t, ends, p, k, st, fuel, whole, base, d, brk);
    case Loop(_, _, _, _) =>
      n, d' := SimLoop(env, s, inLoop, t, ends, p, k, st, fuel, whole, base, d, brk);
    case _ =>
  }

  lemma SimBreak(env: Env, t: Table, st: Store, whole: seq<Instr>, base: nat, d: Data, exit: nat, brk: nat, fuel: nat)
    requires Step(env, |t|, whole, At(base, d)) == At(brk, d) && Good(t, st, d, d.trace)
    ensures Delivers(env, t, whole, At(base, d), d.trace, Broke(st), exit, brk, fuel, 1, d)
  {
    RunOne(env, |t|, whole, At(base, d));
  }

  lemma SimReturn(env: Env, e: Expr, t: Table, ends: seq<string>, p: Pool, k: nat,
                  st: Store, fuel: nat, whole: seq<Instr>, base: nat, d: Data, brk: nat)
    returns (n: nat, d': Data)
    requires Numbering(t) && Good(t, st, d, d.trace) && Pure(e) && Scoped(e, t.Keys)
    requires Placed(whole, base, CompileStmt(Return(e), t, ends, p, k).code)
    ensures Delivers(env, t, whole, At(base, d), d.trace, Execute(Return(e), false, st, fuel),
                     base + |CompileStmt(Return(e), t, ends, p, k).code|, brk, fuel, n, d')
  {
    hide Exec, Free, RunLine, Run, CompileExpr, Eval, Untouched, Represents, Placed, Numbering, Get, Find;
    var o := CompileExpr(e, 0, t, p);
    var i := Instr(RETURN, Idx(o.reg), NULL, NULL);
    PlacedConcat(whole, base, o.code, [i]);
    ZeroTaken(|t|, p);
    ExprComputes(env, e, 0, t, p, st, d);
    var f := RunLine(env, |t|, o.code, d);
    d' := f.d;
    var m, pc := LineRuns(env, |t|, whole, base, o.code, d);
    if f.Fall? {
      n := m + 1;
      PlacedOne(whole, base + |o.code|, i);
      RunSum(env, |t|, whole, At(base, d), m, 1);
      RunOne(env, |t|, whole, At(base + |o.code|, d'));
      ReturnEffect(env, |t|, o.reg, d');
    } else {
      n := m;
    }
  }

  lemma ReturnEffect(env: Env, nv: nat, reg: nat, d: Data)
    ensures Exec(env, nv, Instr(RETURN, Idx(reg), NULL, NULL), d) == Leave(Get(d.regs, Idx(reg)), d)
  {
  }

  lemma {:induction false} SimBody(env: Env, ss: seq<Stmt>, inLoop: bool, t: Table, ends: seq<string>, p: Pool, k: nat,
                                   st: Store, fuel: nat, whole: seq<Instr>, base: nat, d: Data, brk: nat)
    returns (n: nat, d': Data)
    requires Ready(t, st, whole, d, ends, inLoop, brk) && AllInFragment(ss, t.Keys, inLoop)
    requires Placed(whole, base, CompileBody(ss, t, ends, p, k).code)
    ensures Delivers(env, t, whole, At(base, d), d.trace, ExecuteAll(ss, inLoop, st, fuel),
                     base + |CompileBody(ss, t, ends, p, k).code|, brk, fuel, n, d')
    decreases fuel, ss, 1
  {
    hide Delivers, RunLine, Placed, Numbering, UniqueLabels, Represents, Run, Execute, CompileStmt;
    NothingHoisted(ss, t, inLoop);
    assert [] + CompileAll(ss, t, ends, p, k).code == CompileAll(ss, t, ends, p, k).code;
    n, d' := SimAll(env, ss, inLoop, t, ends, p, k, st, fuel, whole, base, d, brk);
  }

  lemma {:induction false} SimAll(env: Env, ss: seq<Stmt>, inLoop: bool, t: Table, ends: seq<string>, p: Pool, k: nat,
                                  st: Store, fuel: nat, whole: seq<Instr>, base: nat, d: Data, brk: nat)
    returns (n: nat, d': Data)
    requires Ready(t, st, whole, d, ends, inLoop, brk) && AllInFragment(ss, t.Keys, inLoop)
    requires Placed(whole, base, CompileAll(ss, t, ends, p, k).code)
    ensures Delivers(env, t, whole, At(base, d), d.trace, ExecuteAll(ss, inLoop, st, fuel),
                     base + |CompileAll(ss, t, ends, p, k).code|, brk, fuel, n, d')
    decreases fuel, ss, 0
  {
    hide RunLine, Placed, Numbering, UniqueLabels, Represents, Execute, CompileStmt, InFragment;
    if ss == [] {
      n, d' := 0, d;
    } else {
      var a := CompileStmt(ss[0], t, ends, p, k);
      var b := CompileAll(ss[1..], t, ends, a.pool, a.labels);
      PlacedConcat(whole, base, a.code, b.code);
      n, d' := SimStmt(env, ss[0], inLoop, t, ends, p, k, st, fuel, whole, base, d, brk);
      var r := Execute(ss[0], inLoop, st, fuel);
      if r.Normal? {
        var m, d'' := SimAll(env, ss[1..], inLoop, t, ends, a.pool, a.labels, r.st, fuel, whole, base + |a.code|, d',
                             brk);
        Prefixed(env, t, whole, At(base, d), n, At(base + |a.code|, d'), d.trace,
                 ExecuteAll(ss[1..], inLoop, r.st, fuel),
                 base + |a.code| + |b.code|, brk, fuel, fuel, m, d'');
        n, d' := n + m, d'';
      }
    }
  }

  // ----- conditionals -----

  /** The two labels that end a conditional, and the jump over the else branch. */
  ghost predicate IfTail(whole: seq<Instr>, pj: nat, hasElse: bool, elseLabel: string, b: seq<Instr>,
                         endLabel: string) {
    var pe := pj + if hasElse then 1 else 0;
    && (hasElse ==> Placed(whole, pj, [Jump(endLabel)]))
    && Placed(whole, pe, [Label(elseLabel)]) && Placed(whole, pe + 1, b)
        && Placed(whole, pe + 1 + |b|, [Label(endLabel)])
    && (!hasElse ==> b == [])
  }

  lemma IfLayout(whole: seq<Instr>, base: nat, c: seq<Instr>, a: seq<Instr>, hasElse: bool, elseLabel: string,
                 b: seq<Instr>, endLabel: string)
    requires Placed(whole, base, c + a + (if hasElse then [Jump(endLabel)] else []) + [Label(elseLabel)] + b
                    + [Label(endLabel)])
    requires !hasElse ==> b == []
    ensures Placed(whole, base, c) && Placed(whole, base + |c|, a)
    ensures IfTail(whole, base + |c| + |a|, hasElse, elseLabel, b, endLabel)
  {
    hide Placed;
    var j := if hasElse then [Jump(endLabel)] else [];
    PlacedConcat(whole, base, c + a + j + [Label(elseLabel)] + b, [Label(endLabel)]);
    PlacedConcat(whole, base, c + a + j + [Label(elseLabel)], b);
    PlacedConcat(whole, base, c + a + j, [Label(elseLabel)]);
    PlacedConcat(whole, base, c + a, j);
    PlacedConcat(whole, base, c, a);
  }

  /** After the then branch: over the else branch to the end. */
  lemma IfJoin(env: Env, nv: nat, whole: seq<Instr>, pj: nat, hasElse: bool, elseLabel: string, b: seq<Instr>,
               endLabel: string, d: Data)
    requires UniqueLabels(whole) && IfTail(whole, pj, hasElse, elseLabel, b, endLabel)
    ensures Run(env, nv, whole, At(pj, d), 2) == At(pj + (if hasElse then 1 else 0) + 2 + |b|, d)
  {
    hide Placed, UniqueLabels, Find, Run;
    var pe := pj + if hasElse then 1 else 0;
    RunTwo(env, nv, whole, At(pj, d));
    StepLabel(env, nv, whole, pe, elseLabel, d);
    StepLabel(env, nv, whole, pe + 1 + |b|, endLabel, d);
    if hasElse {
      StepJump(env, nv, whole, pj, endLabel, d, pe + 1 + |b|);
    }
  }

  lemma {:induction false} SimIf(env: Env, s: Stmt, inLoop: bool, t: Table, ends: seq<string>, p: Pool, k: nat,
                                 st: Store, fuel: nat, whole: seq<Instr>, base: nat, d: Data, brk: nat)
    returns (n: nat, d': Data)
    requires s.If? && Ready(t, st, whole, d, ends, inLoop, brk) && InFragment(s, t.Keys, inLoop)
    requires Placed(whole, base, CompileStmt(s, t, ends, p, k).code)
    ensures Delivers(env, t, whole, At(base, d), d.trace, Execute(s, inLoop, st, fuel),
                     base + |CompileStmt(s, t, ends, p, k).code|, brk, fuel, n, d')
    decreases fuel, s, 1
  {
    hide RunLine, Placed, Numbering, UniqueLabels, Represents, Execute, ExecuteAll, CompileStmt, CompileBody,
         CompileExpr,
         Step, Find, IfTail, InFragment, Tag, Eval, Delivers, Run;
    var elseLabel, endLabel := Tag(ELSE, k + 1), Tag(END_CONDITIONAL, k + 2);
    var parts := IfParts(s, t, ends, p, k);
    var o, a, b := parts.cond, parts.thn, parts.els;
    var c := o.code + [Instr(JMP_NOT_TRUE, Idx(o.reg), Name(elseLabel), NULL)];
    IfUnfolds(s, t, ends, p, k, inLoop, st, fuel);
    IfLayout(whole, base, c, a.code, s.hasElse, elseLabel, b.code, endLabel);
    var pa := base + |c|;
    var pj := pa + |a.code|;
    var pe := pj + if s.hasElse then 1 else 0;
    var exit := pe + 2 + |b.code|;
    IfLabels(env, |t|, whole, pj, s.hasElse, elseLabel, b.code, endLabel, d);
    var n0, d0 := TestSim(env, s.cond, JMP_NOT_TRUE, elseLabel, t, p, st, whole, base, d, pe);
    var v := Eval(s.cond, st);
    if !v.Is? {
      n, d' := n0, d0;
      FaultDelivers(env, t, whole, At(base, d), d.trace, v, st, exit, brk, fuel, n0, d0);
    } else if v.v != 0.0 {
      var m, d1 := SimBody(env, s.thn, inLoop, t, ends, Release(|t|, o.pool, o.reg), k + 2, st, fuel, whole, pa, d0,
                           brk);
      n := ThenJoins(env, t, ExecuteAll(s.thn, inLoop, st, fuel), fuel, whole, At(base, d), n0, d0, d.trace, pa,
                     a.code, s.hasElse, elseLabel, b.code, endLabel, brk, m, d1);
      d' := d1;
    } else if s.hasElse {
      IfLabels(env, |t|, whole, pj, s.hasElse, elseLabel, b.code, endLabel, d0);
      var m, d1 := SimBody(env, s.els, inLoop, t, ends, a.pool, a.labels, st, fuel, whole, pe + 1, d0, brk);
      n := ElseJoins(env, t, ExecuteAll(s.els, inLoop, st, fuel), fuel, whole, At(base, d), n0, d0, d.trace, pj, true,
                     elseLabel, b.code, endLabel, brk, m, d1);
      d' := d1;
    } else {
      StandsAt(env, t, whole, d0, d.trace, st, pe + 1, brk, fuel);
      n := ElseJoins(env, t, Normal(st), fuel, whole, At(base, d), n0, d0, d.trace, pj, false, elseLabel, [], endLabel,
                     brk, 0, d0);
      d' := d0;
    }
  }

  lemma IfUnfolds(s: Stmt, t: Table, ends: seq<string>, p: Pool, k: nat, inLoop: bool, st: Store, fuel: nat)
    requires s.If? && InFragment(s, t.Keys, inLoop) && st.Keys == t.Keys
    ensures Pure(s.cond) && Scoped(s.cond, t.Keys) && AllInFragment(s.thn, t.Keys, inLoop)
    ensures s.hasElse ==> AllInFragment(s.els, t.Keys, inLoop)
    ensures var c := IfParts(s, t, ends, p, k);
            var elseLabel, endLabel := Tag(ELSE, k + 1), Tag(END_CONDITIONAL, k + 2);
            CompileStmt(s, t, ends, p, k).code
            == (c.cond.code + [Instr(JMP_NOT_TRUE, Idx(c.cond.reg), Name(elseLabel), NULL)]) + c.thn.code
               + (if s.hasElse then [Jump(endLabel)] else []) + [Label(elseLabel)] + c.els.code + [Label(endLabel)]
    ensures var v := Eval(s.cond, st);
            Execute(s, inLoop, st, fuel)
            == if !v.Is? then Then(v, Normal(st))
               else if v.v != 0.0 then ExecuteAll(s.thn, inLoop, st, fuel)
               else if s.hasElse then ExecuteAll(s.els, inLoop, st, fuel)
               else Normal(st)
  {
  }

  /** A condition that has no value ends the run. */
  lemma FaultDelivers(env: Env, t: Table, whole: seq<Instr>, start: State, trace: seq<Observation>, v: Value,
                      st: Store,
                      exit: nat, brk: nat, fuel: nat, n: nat, d': Data)
    requires v.Fails? ==> Run(env, |t|, whole, start, n) == Done(Uncaught(DivideByZero), trace)
    requires v.Escapes? ==> Run(env, |t|, whole, start, n) == Done(OutOfModel, trace)
    ensures !v.Is? ==> Delivers(env, t, whole, start, trace, Then(v, Normal(st)), exit, brk, fuel, n, d')
  {
  }

  lemma StandsAt(env: Env, t: Table, whole: seq<Instr>, d: Data, trace: seq<Observation>, st: Store, exit: nat,
                 brk: nat, fuel: nat)
    requires Good(t, st, d, trace)
    ensures Delivers(env, t, whole, At(exit, d), trace, Normal(st), exit, brk, fuel, 0, d)
  {
  }

  lemma ThenJoins(env: Env, t: Table, r: Result, fuel: nat, whole: seq<Instr>, start: State, n0: nat, d0: Data,
                  trace: seq<Observation>,
                  pa: nat, a: seq<Instr>, hasElse: bool, elseLabel: string, b: seq<Instr>, endLabel: string, brk: nat,
                      m: nat, d1: Data)
    returns (n: nat)
    requires UniqueLabels(whole) && IfTail(whole, pa + |a|, hasElse, elseLabel, b, endLabel)
    requires Run(env, |t|, whole, start, n0) == At(pa, d0)
    requires Delivers(env, t, whole, At(pa, d0), trace, r, pa + |a|, brk, fuel, m, d1)
    ensures Delivers(env, t, whole, start, trace, r, pa + |a| + (if hasElse then 1 else 0) + 2 + |b|, brk, fuel, n, d1)
  {
    hide UniqueLabels, IfTail, Run, Delivers;
    Prefixed(env, t, whole, start, n0, At(pa, d0), trace, r, pa + |a|, brk, fuel, fuel, m, d1);
    IfJoin(env, |t|, whole, pa + |a|, hasElse, elseLabel, b, endLabel, d1);
    n := Followed(env, t, whole, start, trace, r, pa + |a|, pa + |a| + (if hasElse then 1 else 0) + 2 + |b|, brk, fuel,
                  n0 + m, d1, 2);
  }

  /** The else branch, or its label alone. */
  lemma ElseJoins(env: Env, t: Table, r: Result, fuel: nat, whole: seq<Instr>, start: State, n0: nat, d0: Data,
                  trace: seq<Observation>,
                  pj: nat, hasElse: bool, elseLabel: string, b: seq<Instr>, endLabel: string, brk: nat, m: nat,
                      d1: Data)
    returns (n: nat)
    requires UniqueLabels(whole) && IfTail(whole, pj, hasElse, elseLabel, b, endLabel)
    requires Run(env, |t|, whole, start, n0) == At(pj + (if hasElse then 1 else 0), d0)
    requires var pb := pj + (if hasElse then 1 else 0) + 1;
             Delivers(env, t, whole, At(pb, d0), trace, r, pb + |b|, brk, fuel, m, d1)
    ensures Delivers(env, t, whole, start, trace, r, pj + (if hasElse then 1 else 0) + 2 + |b|, brk, fuel, n, d1)
  {
    hide UniqueLabels, IfTail, Run, Delivers, Step, Placed;
    var pb := pj + (if hasElse then 1 else 0) + 1;
    IfLabels(env, |t|, whole, pj, hasElse, elseLabel, b, endLabel, d0);
    IfLabels(env, |t|, whole, pj, hasElse, elseLabel, b, endLabel, d1);
    RunSum(env, |t|, whole, start, n0, 1);
    RunOne(env, |t|, whole, At(pb - 1, d0));
    RunOne(env, |t|, whole, At(pb + |b|, d1));
    Prefixed(env, t, whole, start, n0 + 1, At(pb, d0), trace, r, pb + |b|, brk, fuel, fuel, m, d1);
    n := Followed(env, t, whole, start, trace, r, pb + |b|, pb + |b| + 1, brk, fuel, n0 + 1 + m, d1, 1);
  }

  lemma IfLabels(env: Env, nv: nat, whole: seq<Instr>, pj: nat, hasElse: bool, elseLabel: string, b: seq<Instr>,
                 endLabel: string, d: Data)
    requires UniqueLabels(whole) && IfTail(whole, pj, hasElse, elseLabel, b, endLabel)
    ensures var pe := pj + if hasElse then 1 else 0;
            && Find(whole, Name(elseLabel)) == Some(pe)
            && Step(env, nv, whole, At(pe, d)) == At(pe + 1, d)
            && Step(env, nv, whole, At(pe + 1 + |b|, d)) == At(pe + 2 + |b|, d)
            && Placed(whole, pe + 1, b)
  {
    hide Placed, UniqueLabels, Find;
    var pe := pj + if hasElse then 1 else 0;
    StepLabel(env, nv, whole, pe, elseLabel, d);
    StepLabel(env, nv, whole, pe + 1 + |b|, endLabel, d);
  }

  // ----- loops -----

  /** The code from a loop's jump to its condition on, and where its parts stand. */
  ghost predicate LoopLayout(whole: seq<Instr>, base: nat, body: seq<Instr>, iter: seq<Instr>, cond: seq<Instr>,
                             k: nat) {
    var pb := base + 2;
    var pc := pb + |body| + |iter|;
    && Placed(whole, base, [Jump(Tag(LOOP_CONDITION, k + 3))])
    && Placed(whole, base + 1, [Label(Tag(LOOP_START, k + 1))])
    && Placed(whole, pb, body) && Placed(whole, pb + |body|, iter)
    && Placed(whole, pc, [Label(Tag(LOOP_CONDITION, k + 3))])
    && Placed(whole, pc + 1, cond)
    && Placed(whole, pc + 1 + |cond|, [Label(Tag(LOOP_END, k + 2))])
  }

  lemma LoopPlaced(whole: seq<Instr>, base: nat, start: seq<Instr>, body: seq<Instr>, iter: seq<Instr>,
                   cond: seq<Instr>, k: nat)
    requires Placed(whole, base, start + [Jump(Tag(LOOP_CONDITION, k + 3)), Label(Tag(LOOP_START, k + 1))] + body
                    + iter
                                 + [Label(Tag(LOOP_CONDITION, k + 3))] + cond + [Label(Tag(LOOP_END, k + 2))])
    ensures Placed(whole, base, start) && LoopLayout(whole, base + |start|, body, iter, cond, k)
  {
    hide Placed, Tag;
    var j, l := Jump(Tag(LOOP_CONDITION, k + 3)), Label(Tag(LOOP_START, k + 1));
    var c, e := Label(Tag(LOOP_CONDITION, k + 3)), Label(Tag(LOOP_END, k + 2));
    PlacedConcat(whole, base, start + [j, l] + body + iter + [c] + cond, [e]);
    PlacedConcat(whole, base, start + [j, l] + body + iter + [c], cond);
    PlacedConcat(whole, base, start + [j, l] + body + iter, [c]);
    PlacedConcat(whole, base, start + [j, l] + body, iter);
    PlacedConcat(whole, base, start + [j, l], body);
    PlacedConcat(whole, base, start, [j, l]);
    assert [j, l] == [j] + [l];
    PlacedConcat(whole, base + |start|, [j], [l]);
  }

  lemma LoopLabels(env: Env, nv: nat, whole: seq<Instr>, base: nat, body: seq<Instr>, iter: seq<Instr>,
                   cond: seq<Instr>, k: nat, d: Data)
    requires UniqueLabels(whole) && LoopLayout(whole, base, body, iter, cond, k)
    ensures var pc := base + 2 + |body| + |iter|;
            && Find(whole, Name(Tag(LOOP_START, k + 1))) == Some(base + 1)
            && Find(whole, Name(Tag(LOOP_END, k + 2))) == Some(pc + 1 + |cond|)
            && Step(env, nv, whole, At(base, d)) == At(pc, d)
            && Step(env, nv, whole, At(base + 1, d)) == At(base + 2, d)
            && Step(env, nv, whole, At(pc, d)) == At(pc + 1, d)
            && Step(env, nv, whole, At(pc + 1 + |cond|, d)) == At(pc + 2 + |cond|, d)
            && Placed(whole, base + 2, body) && Placed(whole, base + 2 + |body|, iter) && Placed(whole, pc + 1, cond)
  {
    hide Placed, UniqueLabels, Find, Step, Tag;
    var pc := base + 2 + |body| + |iter|;
    StepLabel(env, nv, whole, base + 1, Tag(LOOP_START, k + 1), d);
    StepLabel(env, nv, whole, pc, Tag(LOOP_CONDITION, k + 3), d);
    StepLabel(env, nv, whole, pc + 1 + |cond|, Tag(LOOP_END, k + 2), d);
    StepJump(env, nv, whole, base, Tag(LOOP_CONDITION, k + 3), d, pc);
  }

  lemma LoopUnfolds(s: Stmt, t: Table, ends: seq<string>, p: Pool, k: nat, inLoop: bool, st: Store, fuel: nat)
    requires s.Loop? && InFragment(s, t.Keys, inLoop) && st.Keys == t.Keys
    ensures s.start.Some? ==> Action(s.start.value) && Scoped(s.start.value, t.Keys)
    ensures s.iter.Some? ==> Action(s.iter.value) && Scoped(s.iter.value, t.Keys)
    ensures s.condition.Some? && Pure(s.condition.value) && Scoped(s.condition.value, t.Keys)
            && AllInFragment(s.body, t.Keys, true)
    ensures var c := LoopParts(s, t, ends, p, k);
            var o := CompileExpr(s.condition.value, 0, t, c.iter.pool);
            && CompileStmt(s, t, ends, p, k).code
               == c.start.code + [Jump(Tag(LOOP_CONDITION, k + 3)), Label(Tag(LOOP_START, k + 1))] + c.body.code
                   + c.iter.code
                  + [Label(Tag(LOOP_CONDITION, k + 3))] + c.cond.code + [Label(Tag(LOOP_END, k + 2))]
            && c.cond.code == o.code + [Instr(JMP_TRUE, Idx(o.reg), Name(Tag(LOOP_START, k + 1)), NULL)]
    ensures Execute(s, inLoop, st, fuel)
            == var r := ActOption(s.start, st);
               if r.Normal? then Iterate(s, inLoop, r.st, fuel) else r
    ensures var v := Eval(s.condition.value, st);
            Iterate(s, inLoop, st, fuel)
            == if fuel == 0 then OutOfFuel
               else if !v.Is? then Then(v, Normal(st))
               else if v.v == 0.0 then Normal(st)
               else Round(s, inLoop, st, fuel)
  {
  }

  lemma {:induction false} SimLoop(env: Env, s: Stmt, inLoop: bool, t: Table, ends: seq<string>, p: Pool, k: nat,
                                   st: Store, fuel: nat, whole: seq<Instr>, base: nat, d: Data, brk: nat)
    returns (n: nat, d': Data)
    requires s.Loop? && Ready(t, st, whole, d, ends, inLoop, brk) && InFragment(s, t.Keys, inLoop)
    requires Placed(whole, base, CompileStmt(s, t, ends, p, k).code)
    ensures Delivers(env, t, whole, At(base, d), d.trace, Execute(s, inLoop, st, fuel),
                     base + |CompileStmt(s, t, ends, p, k).code|, brk, fuel, n, d')
    decreases fuel, s, 1
  {
    hide RunLine, Placed, Numbering, UniqueLabels, Represents, Execute, ExecuteAll, Iterate, CompileStmt, CompileBody,
         CompileEffect,
         CompileExpr, CompileCondition, Step, Find, LoopLayout, Tag, InFragment, Eval, Delivers, Run, ActOption;
    LoopUnfolds(s, t, ends, p, k, inLoop, st, fuel);
    var c := LoopParts(s, t, ends, p, k);
    LoopPlaced(whole, base, c.start.code, c.body.code, c.iter.code, c.cond.code, k);
    var pl := base + |c.start.code|;
    var pc := pl + 2 + |c.body.code| + |c.iter.code|;
    EffectDelivers(env, s.start, t, p, st, d, k + 3);
    var r := ActOption(s.start, st);
    var n0, d0 := LineSim(env, t, whole, base, c.start.code, d, r, brk, fuel);
    if r.Normal? {
      NormalDelivers(env, t, whole, At(base, d), d.trace, r, pl, brk, fuel, n0, d0);
      LoopLabels(env, |t|, whole, pl, c.body.code, c.iter.code, c.cond.code, k, d0);
      RunSum(env, |t|, whole, At(base, d), n0, 1);
      RunOne(env, |t|, whole, At(pl, d0));
      var m, d1 := SimIterate(env, s, inLoop, t, ends, p, k, r.st, fuel, whole, pl, d0, brk);
      Prefixed(env, t, whole, At(base, d), n0 + 1, At(pc, d0), d.trace, Iterate(s, inLoop, r.st, fuel),
               pc + 2 + |c.cond.code|, brk, fuel, fuel, m, d1);
      n, d' := n0 + 1 + m, d1;
    } else {
      n, d' := n0, d0;
      Rehomed(env, t, whole, At(base, d), d.trace, r, base + |c.start.code|, pc + 2 + |c.cond.code|, brk, fuel, n, d');
    }
  }

  /** The exit matters only to a result that goes there. */
  lemma Rehomed(env: Env, t: Table, whole: seq<Instr>, start: State, trace: seq<Observation>, r: Result,
                exit: nat, exit': nat, brk: nat, fuel: nat, n: nat, d': Data)
    requires !r.Normal? && Delivers(env, t, whole, start, trace, r, exit, brk, fuel, n, d')
    ensures Delivers(env, t, whole, start, trace, r, exit', brk, fuel, n, d')
  {
  }

  /** From the condition's label on. */
  lemma {:induction false} SimIterate(env: Env, s: Stmt, inLoop: bool, t: Table, ends: seq<string>, p: Pool, k: nat,
                                      st: Store, fuel: nat, whole: seq<Instr>, pl: nat, d: Data, brk: nat)
    returns (n: nat, d': Data)
    requires s.Loop? && InFragment(s, t.Keys, inLoop) && Numbering(t) && UniqueLabels(whole) && Good(t, st, d, d.trace)
    requires var c := LoopParts(s, t, ends, p, k);
             LoopLayout(whole, pl, c.body.code, c.iter.code, c.cond.code, k)
    ensures var c := LoopParts(s, t, ends, p, k);
            var pc := pl + 2 + |c.body.code| + |c.iter.code|;
            Delivers(env, t, whole, At(pc, d), d.trace, Iterate(s, inLoop, st, fuel),
                     pc + 2 + |c.cond.code|, brk, fuel, n, d')
    decreases fuel, s, 0
  {
    hide RunLine, Placed, Numbering, UniqueLabels, Represents, Execute, ExecuteAll, Iterate, CompileStmt, CompileBody,
         CompileEffect,
         CompileExpr, CompileCondition, Step, Find, LoopLayout, Tag, InFragment, Eval, Delivers, Run, ActOption, Round;
    LoopUnfolds(s, t, ends, p, k, inLoop, st, fuel);
    var c := LoopParts(s, t, ends, p, k);
    var nv := |t|;
    var pc := pl + 2 + |c.body.code| + |c.iter.code|;
    var exit := pc + 2 + |c.cond.code|;
    var start := At(pc, d);
    if fuel == 0 {
      n, d' := 0, d;
      NotYet(env, t, whole, start, d.trace, exit, brk);
      return;
    }
    LoopLabels(env, nv, whole, pl, c.body.code, c.iter.code, c.cond.code, k, d);
    RunOne(env, nv, whole, start);
    var m0, d0 := TestSim(env, s.condition.value, JMP_TRUE, Tag(LOOP_START, k + 1), t, c.iter.pool, st, whole, pc + 1,
                          d, pl + 1);
    RunSum(env, nv, whole, start, 1, m0);
    LoopLabels(env, nv, whole, pl, c.body.code, c.iter.code, c.cond.code, k, d0);
    var v := Eval(s.condition.value, st);
    var n0 := 1 + m0;
    if !v.Is? {
      n, d' := n0, d0;
      FaultDelivers(env, t, whole, start, d.trace, v, st, exit, brk, fuel, n0, d0);
    } else if v.v == 0.0 {
      RunSum(env, nv, whole, start, n0, 1);
      RunOne(env, nv, whole, At(pc + 1 + |c.cond.code|, d0));
      n, d' := n0 + 1, d0;
      StandsAt(env, t, whole, d0, d.trace, st, exit, brk, fuel);
      Prefixed(env, t, whole, start, n0 + 1, At(exit, d0), d.trace, Normal(st), exit, brk, fuel, fuel, 0, d0);
    } else {
      RunSum(env, nv, whole, start, n0, 1);
      RunOne(env, nv, whole, At(pl + 1, d0));
      var m, d1 := SimRound(env, s, inLoop, t, ends, p, k, st, fuel, whole, pl, d0, brk);
      Prefixed(env, t, whole, start, n0 + 1, At(pl + 2, d0), d.trace, Round(s, inLoop, st, fuel), exit, brk, fuel - 1,
               fuel, m, d1);
      n, d' := n0 + 1 + m, d1;
    }
  }

  lemma NotYet(env: Env, t: Table, whole: seq<Instr>, start: State, trace: seq<Observation>, exit: nat, brk: nat)
    requires start.At?
    ensures Delivers(env, t, whole, start, trace, OutOfFuel, exit, brk, 0, 0, start.d)
  {
  }

  /** One round of a loop's body and iteration, and the rest of the loop. */
  function Round(s: Stmt, inLoop: bool, st: Store, fuel: nat): Result
    requires s.Loop? && InFragment(s, st.Keys, inLoop) && fuel > 0
  {
    var r := ExecuteAll(s.body, true, st, fuel - 1);
    if r.Broke? then Normal(r.st)
    else if !r.Normal? then r
    else
      var n := ActOption(s.iter, r.st);
      if n.Normal? then Iterate(s, inLoop, n.st, fuel - 1) else n
  }

  lemma {:induction false} SimRound(env: Env, s: Stmt, inLoop: bool, t: Table, ends: seq<string>, p: Pool, k: nat,
                                    st: Store, fuel: nat, whole: seq<Instr>, pl: nat, d: Data, brk: nat)
    returns (n: nat, d': Data)
    requires fuel > 0 && s.Loop? && InFragment(s, t.Keys, inLoop) && Numbering(t) && UniqueLabels(whole)
             && Good(t, st, d, d.trace)
    requires var c := LoopParts(s, t, ends, p, k);
             LoopLayout(whole, pl, c.body.code, c.iter.code, c.cond.code, k)
    ensures var c := LoopParts(s, t, ends, p, k);
            Delivers(env, t, whole, At(pl + 2, d), d.trace, Round(s, inLoop, st, fuel),
                     pl + 4 + |c.body.code| + |c.iter.code| + |c.cond.code|, brk, fuel - 1, n, d')
    decreases fuel - 1, s, 3
  {
    hide RunLine, Placed, Numbering, UniqueLabels, Represents, Execute, ExecuteAll, Iterate, CompileStmt, CompileBody,
         CompileEffect,
         CompileExpr, CompileCondition, Step, Find, LoopLayout, Tag, InFragment, Eval, Delivers, Run, ActOption;
    LoopUnfolds(s, t, ends, p, k, inLoop, st, fuel);
    var c := LoopParts(s, t, ends, p, k);
    var nv := |t|;
    var pi := pl + 2 + |c.body.code|;
    var pc := pi + |c.iter.code|;
    var pend := pc + 1 + |c.cond.code|;
    var start := At(pl + 2, d);
    var inner := ends + [Tag(LOOP_END, k + 2)];
    LoopLabels(env, nv, whole, pl, c.body.code, c.iter.code, c.cond.code, k, d);
    var m, d1 := SimBody(env, s.body, true, t, inner, c.start.pool, k + 3, st, fuel - 1, whole, pl + 2, d, pend);
    var r := ExecuteAll(s.body, true, st, fuel - 1);
    LoopLabels(env, nv, whole, pl, c.body.code, c.iter.code, c.cond.code, k, d1);
    if r.Broke? {
      n, d' := m + 1, d1;
      BreakDelivers(env, t, whole, start, d.trace, r, pi, pend, brk, fuel - 1, m, d1);
    } else if !r.Normal? {
      n, d' := m, d1;
      BreakElsewhere(env, t, whole, start, d.trace, r, pi, pend + 1, pend, brk, fuel - 1, m, d1);
    } else {
      NormalDelivers(env, t, whole, start, d.trace, r, pi, pend, fuel - 1, m, d1);
      EffectDelivers(env, s.iter, t, c.body.pool, r.st, d1, c.body.labels);
      var a := ActOption(s.iter, r.st);
      var m2, d2 := LineSim(env, t, whole, pi, c.iter.code, d1, a, brk, fuel - 1);
      RunSum(env, nv, whole, start, m, m2);
      if a.Normal? {
        NormalDelivers(env, t, whole, At(pi, d1), d.trace, a, pc, brk, fuel - 1, m2, d2);
        var m3, d3 := SimIterate(env, s, inLoop, t, ends, p, k, a.st, fuel - 1, whole, pl, d2, brk);
        Prefixed(env, t, whole, start, m + m2, At(pc, d2), d.trace, Iterate(s, inLoop, a.st, fuel - 1), pend + 1, brk,
                 fuel - 1, fuel - 1, m3, d3);
        n, d' := m + m2 + m3, d3;
      } else {
        n, d' := m + m2, d2;
        Prefixed(env, t, whole, start, m, At(pi, d1), d.trace, a, pc, brk, fuel - 1, fuel - 1, m2, d2);
        Rehomed(env, t, whole, start, d.trace, a, pc, pend + 1, brk, fuel - 1, n, d2);
      }
    }
  }

  lemma NormalDelivers(env: Env, t: Table, whole: seq<Instr>, start: State, trace: seq<Observation>, r: Result,
                       exit: nat, brk: nat, fuel: nat, n: nat, d': Data)
    requires r.Normal? && Delivers(env, t, whole, start, trace, r, exit, brk, fuel, n, d')
    ensures Run(env, |t|, whole, start, n) == At(exit, d') && Good(t, r.st, d', trace)
  {
  }

  /** A break reaches the loop's end label, and passes it. */
  lemma BreakDelivers(env: Env, t: Table, whole: seq<Instr>, start: State, trace: seq<Observation>, r: Result,
                      exit: nat, pend: nat, brk: nat, fuel: nat, n: nat, d': Data)
    requires r.Broke? && Delivers(env, t, whole, start, trace, r, exit, pend, fuel, n, d')
    requires Step(env, |t|, whole, At(pend, d')) == At(pend + 1, d')
    ensures Delivers(env, t, whole, start, trace, Normal(r.st), pend + 1, brk, fuel, n + 1, d')
  {
    RunSum(env, |t|, whole, start, n, 1);
    RunOne(env, |t|, whole, At(pend, d'));
  }

  lemma BreakElsewhere(env: Env, t: Table, whole: seq<Instr>, start: State, trace: seq<Observation>, r: Result,
                       exit: nat, exit': nat, brk: nat, brk': nat, fuel: nat, n: nat, d': Data)
    requires !r.Normal? && !r.Broke? && Delivers(env, t, whole, start, trace, r, exit, brk, fuel, n, d')
    ensures Delivers(env, t, whole, start, trace, r, exit', brk', fuel, n, d')
  {
  }
}
