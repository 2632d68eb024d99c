/** Running the code of a fragment function halts exactly as the source does. */
module FunctionProof {
  import opened Options
  import opened Bytecode
  import opened Machine
  import opened Registers
  import opened Source
  import opened Symbols
  import opened Codegen
  import opened ExprProof
  import opened StmtProof
  import opened CodeShape

  /** The environment answers a function load with v and leaves the variables alone. */
  ghost predicate LoadsFunctions(env: Env, v: real) {
    forall trace, i: Instr, args, vars :: i.op == MOV_FNC ==> env(trace, Ran(i, args, vars)) == Continue(vars, v)
  }

  /** The outcome a source result stands for. */
  function OutcomeOf(r: Result): Option<Outcome> {
    match r
    case Returned(v) => Some(Machine.Returned(v))
    case Raised => Some(Uncaught(DivideByZero))
    case Escaped => Some(OutOfModel)
    case _ => None
  }

  /** The source halts with outcome o, for some bound on its iterations. */
  ghost predicate SourceHalts(body: seq<Stmt>, st: Store, o: Outcome)
    requires AllInFragment(body, st.Keys, false)
  {
    exists fuel: nat :: OutcomeOf(Call(body, st, fuel)) == Some(o)
  }

  /** A function the theorems are about: its body in the fragment, its name not like a label's. */
  ghost predicate Compilable(f: Function) {
    AllInFragment(f.body, FunctionTables(f).symbols.Keys, false) && (f.name == [] || f.name[0] != '.')
  }

  /** The registers at the call: every symbol's value, nothing to catch. */
  ghost predicate Entered(f: Function, st: Store, d: Data) { Good(FunctionTables(f).symbols, st, d, d.trace) }

  lemma FunctionNamed(f: Function)
    ensures var t := FunctionTables(f).symbols;
            Numbering(t) && f.name in t && t[f.name] >= 1
  {
    FunctionNumbering(f);
    AddNameKeeps(map[], "this");
    AddNameKeeps(AddName(map[], "this"), f.name);
    AddNamesKeeps(AddName(AddName(map[], "this"), f.name), f.params);
    AddBodyKeeps(Header(f), f.body);
  }

  /** The data when the body starts. */
  function BodyData(f: Function, v: real, d: Data): Data {
    var t := FunctionTables(f).symbols;
    var load := LoadFunction(f, t);
    d.(regs := Put(SetVars(d.regs, |t|, Vars(d.regs, |t|)), load.r0, v),
       trace := d.trace + [Ran(load, [], Vars(d.regs, |t|))])
  }

  lemma BodyDataGood(f: Function, v: real, st: Store, d: Data)
    requires Entered(f, st, d)
    ensures var t := FunctionTables(f).symbols;
            f.name in st && Good(t, st[f.name := v], BodyData(f, v, d), BodyData(f, v, d).trace)
  {
    hide FunctionTables, SetVars, Vars;
    FunctionNamed(f);
    OwnVars(d.regs, |FunctionTables(f).symbols|);
  }

  lemma OwnVars(regs: Regs, nv: nat)
    ensures forall r: nat :: r <= nv ==> Get(SetVars(regs, nv, Vars(regs, nv)), Idx(r)) == Get(regs, Idx(r))
  {
  }

  /** Label, frame header and function load. */
  lemma Prologue(env: Env, v: real, f: Function, n: nat, d: Data)
    requires Compilable(f) && LoadsFunctions(env, v)
    ensures var c, nv := FunctionCode(f, n).code, |FunctionTables(f).symbols|;
            Resume(c, Name(f.name), d) == At(0, d) && Run(env, nv, c, At(0, d), 3) == At(3, BodyData(f, v, d))
  {
    hide CompileBody, FunctionTables, SetVars;
    var c, t := FunctionCode(f, n).code, FunctionTables(f).symbols;
    var nv := |t|;
    FunctionLabels(f, n);
    FunctionNamed(f);
    FindUnique(c, 0);
    assert c[0] == Label(f.name) && c[1].op == FFRAME && c[2] == LoadFunction(f, t);
    LoadEffect(env, v, nv, c[2], d);
    RunOne(env, nv, c, At(2, d));
    assert Step(env, nv, c, At(0, d)) == At(1, d) && Step(env, nv, c, At(1, d)) == At(2, d);
    assert Run(env, nv, c, At(0, d), 3) == Run(env, nv, c, At(1, d), 2) == Run(env, nv, c, At(2, d), 1);
  }

  lemma LoadEffect(env: Env, v: real, nv: nat, i: Instr, d: Data)
    requires i.op == MOV_FNC && LoadsFunctions(env, v)
    ensures Exec(env, nv, i, d)
            == Fall(d.(regs := Put(SetVars(d.regs, nv, Vars(d.regs, nv)), i.r0, v),
                       trace := d.trace + [Ran(i, [], Vars(d.regs, nv))]))
  {
    assert ArgValues(i, d) == [];
  }

  /** Whatever fuel the source is given, the machine ends as it does, or runs as long. */
  lemma FunctionRuns(env: Env, v: real, f: Function, n: nat, st: Store, d: Data, fuel: nat) returns (k: nat)
    requires Compilable(f) && LoadsFunctions(env, v) && Entered(f, st, d)
    ensures f.name in st && AllInFragment(f.body, st[f.name := v].Keys, false)
    ensures var c, nv := FunctionCode(f, n).code, |FunctionTables(f).symbols|;
            var s := Run(env, nv, c, Resume(c, Name(f.name), d), k);
            var r := Call(f.body, st[f.name := v], fuel);
            if r.OutOfFuel? then k >= fuel && s.At?
            else OutcomeOf(r).Some? && s == Done(OutcomeOf(r).value, BodyData(f, v, d).trace)
  {
    hide CompileBody, FunctionTables, Run, Represents, Numbering, UniqueLabels, ExecuteAll, AllInFragment, Placed;
    var ts := FunctionTables(f);
    var t, c := ts.symbols, FunctionCode(f, n).code;
    var nv := |t|;
    var b := CompileBody(f.body, t, [], [], n);
    var d1 := BodyData(f, v, d);
    var st1 := st[f.name := v];
    assert st1.Keys == t.Keys by {
      FunctionNamed(f);
    }
    BodyDataGood(f, v, st, d);
    Prologue(env, v, f, n, d);
    FunctionLabels(f, n);
    FunctionNamed(f);
    BodyPlaced(f, n);
    var m, d2 := SimBody(env, f.body, false, t, [], [], n, st1, fuel, c, 3, d1, 0);
    RunSum(env, nv, c, At(0, d), 3, m);
    k := 3 + m;
    if ExecuteAll(f.body, false, st1, fuel).Normal? {
      k := k + 1;
      RunSum(env, nv, c, At(0, d), 3 + m, 1);
      RunOne(env, nv, c, At(3 + |b.code|, d2));
      ReturnsNull(env, t, ExecuteAll(f.body, false, st1, fuel).st, c, 3 + |b.code|, d2);
    }
  }

  lemma BodyPlaced(f: Function, n: nat)
    ensures var b := CompileBody(f.body, FunctionTables(f).symbols, [], [], n).code;
            Placed(FunctionCode(f, n).code, 3, b) && Placed(FunctionCode(f, n).code, 3 + |b|, [RETURN_NULL])
  {
    hide CompileBody, FunctionTables;
    var ts := FunctionTables(f);
    var b := CompileBody(f.body, ts.symbols, [], [], n);
    var head := [Label(f.name), FrameHeader(|b.pool| + |ts.symbols|, ts, f.name), LoadFunction(f, ts.symbols)];
    var c := FunctionCode(f, n).code;
    assert c == head + b.code + [RETURN_NULL, Label("end" + f.name)];
    assert c[3..3 + |b.code|] == b.code && c[3 + |b.code|..3 + |b.code| + 1] == [RETURN_NULL];
  }

  lemma ReturnsNull(env: Env, t: Table, st: Store, c: seq<Instr>, pc: nat, d: Data)
    requires Placed(c, pc, [RETURN_NULL]) && Represents(t, st, d.regs)
    ensures Step(env, |t|, c, At(pc, d)) == Done(Machine.Returned(0.0), d.trace)
  {
    PlacedOne(c, pc, RETURN_NULL);
  }

  /** The machine halts with an outcome if and only if the source does; it has then observed
      nothing but the load of the function's own reference. */
  lemma FunctionHaltsAsSource(env: Env, v: real, f: Function, n: nat, st: Store, d: Data, o: Outcome,
                              trace: seq<Observation>)
    requires Compilable(f) && LoadsFunctions(env, v) && Entered(f, st, d)
    ensures f.name in st && AllInFragment(f.body, st[f.name := v].Keys, false)
    ensures var c, nv := FunctionCode(f, n).code, |FunctionTables(f).symbols|;
            Halts(env, nv, c, Resume(c, Name(f.name), d), o, trace)
            <==> SourceHalts(f.body, st[f.name := v], o) && trace == BodyData(f, v, d).trace
  {
    hide FunctionCode, FunctionTables, Run, BodyData;
    var c, nv := FunctionCode(f, n).code, |FunctionTables(f).symbols|;
    var s0 := Resume(c, Name(f.name), d);
    var k0 := FunctionRuns(env, v, f, n, st, d, 0);
    if Halts(env, nv, c, s0, o, trace) {
      var m: nat :| Run(env, nv, c, s0, m) == Done(o, trace);
      var k := FunctionRuns(env, v, f, n, st, d, m);
      if Call(f.body, st[f.name := v], m).OutOfFuel? {
        RunSettled(env, nv, c, s0, m, k);
      } else {
        assert Halts(env, nv, c, s0, OutcomeOf(Call(f.body, st[f.name := v], m)).value, BodyData(f, v, d).trace);
        HaltsOnce(env, nv, c, s0, o, trace, OutcomeOf(Call(f.body, st[f.name := v], m)).value,
                  BodyData(f, v, d).trace);
      }
    }
    if SourceHalts(f.body, st[f.name := v], o) {
      var fuel: nat :| OutcomeOf(Call(f.body, st[f.name := v], fuel)) == Some(o);
      var k := FunctionRuns(env, v, f, n, st, d, fuel);
    }
  }
}
