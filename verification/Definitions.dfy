/** Functions defined in a body are loaded before its first statement (src/compiler/Compiler.cpp:258-270),
    and are compiled wherever they are defined (src/compiler/Compiler.cpp:278-288). */
module Definitions {
  import opened Options
  import opened Bytecode
  import opened Machine
  import opened Registers
  import opened Source
  import opened Symbols
  import opened Codegen
  import opened ExprProof
  import opened StmtProof
  import opened FunctionProof
  import opened Visibility
  import opened WholeProgram

  // ----- loading -----

  type Answer = (Word, Word) -> real

  /** The environment answers a function load by the label and the flag it names, and leaves the
      variables alone. */
  ghost predicate AnswersLoads(env: Env, answer: Answer) {
    forall trace, i: Instr, args, vars ::
      i.op == MOV_FNC ==> env(trace, Ran(i, args, vars)) == Continue(vars, answer(i.r1, i.r2))
  }

  /** The functions defined directly in a body have registers of their own. */
  predicate Separate(ss: seq<Stmt>, t: Table) {
    forall i, j :: 0 <= i < j < |ss| && ss[i].Define? && ss[j].Define? ==>
      RegisterOf(t, ss[i].f.name) != RegisterOf(t, ss[j].f.name)
  }

  /** Register r is that of a function defined directly in the body. */
  predicate Defined(ss: seq<Stmt>, t: Table, r: nat) {
    exists i :: 0 <= i < |ss| && ss[i].Define? && RegisterOf(t, ss[i].f.name) == r
  }

  ghost predicate Loaded(answer: Answer, ss: seq<Stmt>, t: Table, regs: Regs) {
    forall i :: 0 <= i < |ss| && ss[i].Define? ==>
      Get(regs, Idx(RegisterOf(t, ss[i].f.name)))
      == answer(Name(ss[i].f.name), Idx(if ss[i].f.isAsync then 1 else 0))
  }

  lemma OneLoads(env: Env, answer: Answer, f: Function, t: Table, d: Data)
    requires AnswersLoads(env, answer)
    ensures var e := RunLine(env, |t|, [LoadFunction(f, t)], d);
            && e.Fall? && e.d.catches == d.catches
            && Get(e.d.regs, Idx(RegisterOf(t, f.name))) == answer(Name(f.name), Idx(if f.isAsync then 1 else 0))
            && forall q: nat :: q <= |t| && q != RegisterOf(t, f.name) ==> Get(e.d.regs, Idx(q)) == Get(d.regs, Idx(q))
  {
    hide Exec, RunLine, SetVars, Vars, AnswersLoads;
    var i := LoadFunction(f, t);
    RunLineOne(env, |t|, i, d);
    LoadExec(env, answer, i, |t|, d);
    OwnVars(d.regs, |t|);
  }

  lemma LoadExec(env: Env, answer: Answer, i: Instr, nv: nat, d: Data)
    requires AnswersLoads(env, answer) && i.op == MOV_FNC
    ensures Exec(env, nv, i, d)
            == Fall(d.(regs := Put(SetVars(d.regs, nv, Vars(d.regs, nv)), i.r0, answer(i.r1, i.r2)),
                       trace := d.trace + [Ran(i, [], Vars(d.regs, nv))]))
  {
    assert ArgValues(i, d) == [];
  }

  lemma DefinedLater(ss: seq<Stmt>, t: Table, q: nat)
    requires ss != [] && Defined(ss[1..], t, q)
    ensures Defined(ss, t, q)
  {
    var i :| 0 <= i < |ss[1..]| && ss[1..][i].Define? && RegisterOf(t, ss[1..][i].f.name) == q;
    assert ss[i + 1].Define?;
  }

  lemma {:induction false} HoistLoads(env: Env, answer: Answer, ss: seq<Stmt>, t: Table, d: Data)
    requires AnswersLoads(env, answer) && Numbering(t) && Separate(ss, t)
    ensures var e := RunLine(env, |t|, Hoist(ss, t), d);
            && e.Fall? && e.d.catches == d.catches && Loaded(answer, ss, t, e.d.regs)
            && forall q: nat :: q <= |t| && !Defined(ss, t, q) ==> Get(e.d.regs, Idx(q)) == Get(d.regs, Idx(q))
  {
    hide AnswersLoads, RunLine, Get, Numbering;
    if ss == [] {
      NothingLoads(env, |t|, d);
    } else {
      var rest := ss[1..];
      assert Separate(rest, t);
      var first := if ss[0].Define? then [LoadFunction(ss[0].f, t)] else [];
      RunLineConcat(env, |t|, first, Hoist(rest, t), d);
      var e1 := RunLine(env, |t|, first, d);
      if ss[0].Define? {
        OneLoads(env, answer, ss[0].f, t, d);
      } else {
        NothingLoads(env, |t|, d);
      }
      HoistLoads(env, answer, rest, t, e1.d);
      var e := RunLine(env, |t|, Hoist(rest, t), e1.d);
      LoadedFirst(answer, ss, t, e1.d.regs, e.d.regs);
      forall q: nat | q <= |t| && !Defined(ss, t, q)
        ensures Get(e.d.regs, Idx(q)) == Get(d.regs, Idx(q))
      {
        if Defined(rest, t, q) {
          DefinedLater(ss, t, q);
        }
      }
    }
  }

  lemma NothingLoads(env: Env, n: nat, d: Data)
    ensures RunLine(env, n, [], d) == Fall(d)
  {
  }

  /** What the first definition loaded is not touched by the others. */
  lemma LoadedFirst(answer: Answer, ss: seq<Stmt>, t: Table, before: Regs, after: Regs)
    requires ss != [] && Separate(ss, t) && Numbering(t) && Loaded(answer, ss[1..], t, after)
    requires ss[0].Define? ==>
      Get(before, Idx(RegisterOf(t, ss[0].f.name))) == answer(Name(ss[0].f.name), Idx(if ss[0].f.isAsync then 1 else 0))
    requires forall q: nat :: q <= |t| && !Defined(ss[1..], t, q) ==> Get(after, Idx(q)) == Get(before, Idx(q))
    ensures Loaded(answer, ss, t, after)
  {
    if ss[0].Define? {
      var r := RegisterOf(t, ss[0].f.name);
      if i :| 0 <= i < |ss[1..]| && ss[1..][i].Define? && RegisterOf(t, ss[1..][i].f.name) == r {
        assert ss[i + 1].Define?;
      }
    }
    forall i | 0 <= i < |ss| && ss[i].Define?
      ensures Get(after, Idx(RegisterOf(t, ss[i].f.name)))
              == answer(Name(ss[i].f.name), Idx(if ss[i].f.isAsync then 1 else 0))
    {
      if i > 0 {
        assert ss[1..][i - 1].Define?;
      }
    }
  }

  /** Running a body's code from its start leads to the code of its first statement. By then the
      register of every function defined directly in the body holds what the environment answers
      to a load of the function's label and flag, and other variables are as they were. */
  lemma DefinitionsLoaded(env: Env, answer: Answer, ss: seq<Stmt>, t: Table, ends: seq<string>, p: Pool, n: nat,
                          whole: seq<Instr>, base: nat, d: Data) returns (k: nat, d': Data)
    requires AnswersLoads(env, answer) && Numbering(t) && Separate(ss, t)
    requires Placed(whole, base, CompileBody(ss, t, ends, p, n).code)
    ensures Run(env, |t|, whole, At(base, d), k) == At(base + k, d')
    ensures Placed(whole, base + k, CompileAll(ss, t, ends, p, n).code)
    ensures Loaded(answer, ss, t, d'.regs) && d'.catches == d.catches
    ensures forall q: nat :: q <= |t| && !Defined(ss, t, q) ==> Get(d'.regs, Idx(q)) == Get(d.regs, Idx(q))
  {
    hide CompileAll, Run, RunLine, AnswersLoads;
    var c := Hoist(ss, t);
    PlacedConcat(whole, base, c, CompileAll(ss, t, ends, p, n).code);
    HoistLoads(env, answer, ss, t, d);
    k := |c|;
    d' := RunLine(env, |t|, c, d).d;
    var n1, pc := LineRuns(env, |t|, whole, base, c, d);
  }

  // ----- which functions are compiled -----

  /** f is defined somewhere in the statements, or in a function defined there. */
  ghost predicate DefinedWithin(ss: seq<Stmt>, f: Function)
    decreases ss, 0
  {
    exists i :: 0 <= i < |ss| && DefinedIn(ss[i], f)
  }

  ghost predicate DefinedIn(s: Stmt, f: Function)
    decreases s, 1
  {
    match s
    case Define(g) => f == g || DefinedWithin(g.body, f)
    case Block(b) => DefinedWithin(b, f)
    case If(_, t, hasElse, e) => DefinedWithin(t, f) || (hasElse && DefinedWithin(e, f))
    case Loop(_, _, _, b) => DefinedWithin(b, f)
    case Try(b, _, h, hasFinally, l) =>
      DefinedWithin(b, f) || DefinedWithin(h, f) || (hasFinally && DefinedWithin(l, f))
    case _ => false
  }

  /** Exactly the functions defined somewhere in a class are compiled. */
  lemma {:induction false} CompiledExact(ss: seq<Stmt>, f: Function)
    ensures f in Flat(Later(ss)) <==> DefinedWithin(ss, f)
    decreases ss, 0
  {
    hide Flat, LaterIn, DefinedIn;
    if ss == [] {
      NoneFlat();
    } else {
      FlatConcat(LaterIn(ss[0]), Later(ss[1..]));
      CompiledInExact(ss[0], f);
      CompiledExact(ss[1..], f);
      if i :| 0 <= i < |ss[1..]| && DefinedIn(ss[1..][i], f) {
        assert DefinedIn(ss[i + 1], f);
      }
      if i :| 0 <= i < |ss| && DefinedIn(ss[i], f) {
        assert i > 0 ==> DefinedIn(ss[1..][i - 1], f);
      }
    }
  }

  lemma {:induction false} CompiledInExact(s: Stmt, f: Function)
    ensures f in Flat(LaterIn(s)) <==> DefinedIn(s, f)
    decreases s, 1
  {
    hide Flat, Later, DefinedWithin;
    NoneFlat();
    match s
    case Define(g) =>
      FlatOne(g);
      CompiledExact(g.body, f);
    case Block(b) => CompiledExact(b, f);
    case If(_, t, hasElse, e) =>
      CompiledExact(t, f);
      if hasElse {
        CompiledExact(e, f);
        FlatConcat(Later(t), Later(e));
      }
    case Loop(_, _, _, b) => CompiledExact(b, f);
    case Try(b, _, h, hasFinally, l) =>
      CompiledExact(b, f);
      CompiledExact(h, f);
      FlatConcat(Later(b), Later(h));
      if hasFinally {
        CompiledExact(l, f);
        FlatConcat(Later(b) + Later(h), Later(l));
      }
    case _ =>
  }
}
