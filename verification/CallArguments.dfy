/** Method calls over whole runs (src/compiler/ExprssionCompiler.cpp:102-121,
    src/interpreter/interpreter_dd.c:868-1015): the values pushed by a call's own argument code
    are those the callee finds in its parameters' registers, whatever calls the arguments make,
    and after the return the stack is as it was before that code. */
module CallArguments {
  import opened Options
  import opened Bytecode
  import opened Machine
  import opened Registers
  import opened Source
  import opened Symbols
  import opened Codegen
  import opened StmtProof
  import opened Places
  import opened StackCode
  import opened Vm
  import opened StackRuns
  import opened CallRuns
  import opened ArgumentCode
  import opened WholeProgram

  /** The register argument i is left in. */
  function ArgumentRegister(args: seq<Expr>, t: Table, c: CallCode, i: nat): nat
    requires i < |args|
    decreases |args|
  {
    var m := |args| - 1;
    if i == m then CompileExpr(args[m], c.next, t, c.pool).reg
    else ArgumentRegister(args[..m], t, NextCode(args[m], t, c).(code := []), i)
  }

  /** Where in the argument code its PUSH is. */
  function PushAt(args: seq<Expr>, t: Table, c: CallCode, i: nat): nat
    requires i < |args|
    decreases |args|
  {
    var m := |args| - 1;
    var size := |CompileExpr(args[m], c.next, t, c.pool).code|;
    if i == m then size
    else size + 1 + PushAt(args[..m], t, NextCode(args[m], t, c).(code := []), i)
  }

  /** What register r of the current activation holds. */
  function Held(vm: Vm, r: nat): real
    requires vm.Running? && vm.current < |vm.contexts|
  {
    Get(vm.contexts[vm.current].regs, Idx(r))
  }

  /** On top of the stack are what each argument's register held at its PUSH, the first on top. */
  ghost predicate Operands(vms: seq<Vm>, js: seq<nat>, a: nat, args: seq<Expr>, t: Table, c: CallCode, stack: seq<real>,
                           below: seq<real>)
  {
    && |stack| == |below| + |args| && stack[..|below|] == below
    && forall i: nat :: i < |args| ==> Operand(vms, js, a + PushAt(args, t, c, i), ArgumentRegister(args, t, c, i),
                                               stack[|stack| - 1 - i])
  }

  ghost predicate Operand(vms: seq<Vm>, js: seq<nat>, q: nat, r: nat, v: real) {
    && q < |js| && js[q] < |vms| && vms[js[q]].Running? && vms[js[q]].current < |vms[js[q]].contexts|
    && Held(vms[js[q]], r) == v
  }

  /** The PUSH of each argument is where PushAt says, later ones first. */
  lemma {:induction false} PushesPlaced(args: seq<Expr>, t: Table, c: CallCode, i: nat)
    requires c.code == [] && i < |args|
    ensures var code := CompileArguments(args, t, c).code;
            var q := PushAt(args, t, c, i);
            q < |code| && code[q] == Instr(PUSH, Idx(ArgumentRegister(args, t, c, i)), NULL, NULL)
    ensures forall j: nat :: i < j < |args| ==> PushAt(args, t, c, j) < PushAt(args, t, c, i)
    decreases |args|
  {
    hide CompileExpr, CompileArguments;
    var m := |args| - 1;
    var o := CompileExpr(args[m], c.next, t, c.pool);
    var next := NextCode(args[m], t, c);
    ArgumentsUnfold(args, t, c);
    ArgumentsAppend(args[..m], t, next);
    var rest := CompileArguments(args[..m], t, next.(code := [])).code;
    assert CompileArguments(args, t, c).code == next.code + rest;
    assert next.code == o.code + [Instr(PUSH, Idx(o.reg), NULL, NULL)];
    if i < m {
      PushesPlaced(args[..m], t, next.(code := []), i);
      assert (next.code + rest)[|next.code| + PushAt(args[..m], t, next.(code := []), i)]
             == rest[PushAt(args[..m], t, next.(code := []), i)];
    }
  }

  /** The code of an expression, executed by an activation, leaves the stack as it was. */
  lemma ExprPath(code: seq<Instr>, vms: seq<Vm>, js: seq<nat>, base: nat, e: Expr, dest: nat, t: Table, p: Pool, a: nat)
    requires Path(code, vms, js, base)
    requires var c := CompileExpr(e, dest, t, p).code; a + |c| < |js| && Placed(code, base + a, c)
    ensures var b := a + |CompileExpr(e, dest, t, p).code|;
            vms[js[a]].Running? && vms[js[b]].Running? && vms[js[b]].stack == vms[js[a]].stack
  {
    hide CompileExpr, Through;
    var c := CompileExpr(e, dest, t, p).code;
    var b := a + |c|;
    assert ActiveAt(vms, js[a], Own(vms, js), base + a) && ActiveAt(vms, js[b], Own(vms, js), base + b);
    ExprEven(e, dest, t, p);
    var below := vms[js[a]].stack;
    assert below[..|below|] == below;
    assert code[base + a..base + b] == c;
    assert Through(c, Live(0)) == Live(0 + 0) || Through(c, Live(0)) == Dead;
    PathKeeps(code, vms, js, base, a, b, 0, below);
    assert vms[js[b]].stack[..|below|] == vms[js[b]].stack;
  }

  /** One argument and its PUSH. */
  lemma ArgumentPath(code: seq<Instr>, vms: seq<Vm>, js: seq<nat>, base: nat, e: Expr, dest: nat, t: Table, p: Pool,
                     a: nat)
    requires Path(code, vms, js, base)
    requires var o := CompileExpr(e, dest, t, p);
             var q := a + |o.code|;
             && q + 1 < |js| && Placed(code, base + a, o.code)
             && base + q < |code| && code[base + q] == Instr(PUSH, Idx(o.reg), NULL, NULL)
    ensures var o := CompileExpr(e, dest, t, p);
            var q := a + |o.code|;
            && ActiveAt(vms, js[a], Own(vms, js), base + a) && ActiveAt(vms, js[q], Own(vms, js), base + q)
            && ActiveAt(vms, js[q + 1], Own(vms, js), base + q + 1)
            && vms[js[q + 1]].stack == vms[js[a]].stack + [Held(vms[js[q]], o.reg)]
  {
    hide CompileExpr, OwnStep;
    var id, q := Own(vms, js), a + |CompileExpr(e, dest, t, p).code|;
    ExprPath(code, vms, js, base, e, dest, t, p, a);
    assert ActiveAt(vms, js[q], id, base + q);
    assert OwnStep(code, vms, js[q], js[q + 1], id);
    StepActs(code, vms, js[q], js[q + 1], id);
  }

  lemma PathActive(code: seq<Instr>, vms: seq<Vm>, js: seq<nat>, base: nat, a: nat)
    requires Path(code, vms, js, base) && a < |js|
    ensures ActiveAt(vms, js[a], Own(vms, js), base + a)
  {
  }

  /** An activation that executed the argument code has pushed its arguments. */
  lemma {:induction false} ArgumentsPath(code: seq<Instr>, vms: seq<Vm>, js: seq<nat>, base: nat, args: seq<Expr>,
                                         t: Table, c: CallCode, a: nat)
    requires Path(code, vms, js, base) && c.code == []
    requires var tail := CompileArguments(args, t, c).code; a + |tail| < |js| && Placed(code, base + a, tail)
    ensures var b := a + |CompileArguments(args, t, c).code|;
            && ActiveAt(vms, js[a], Own(vms, js), base + a) && ActiveAt(vms, js[b], Own(vms, js), base + b)
            && Operands(vms, js, a, args, t, c, vms[js[b]].stack, vms[js[a]].stack)
    decreases |args|
  {
    hide CompileExpr, CompileArguments, Path, Placed, Operands;
    PathActive(code, vms, js, base, a);
    PathActive(code, vms, js, base, a + |CompileArguments(args, t, c).code|);
    if args == [] {
      ArgumentsNone(t, c);
      NoOperands(vms, js, a, t, c, vms[js[a]].stack);
    } else {
      var m := |args| - 1;
      var o := CompileExpr(args[m], c.next, t, c.pool);
      var next := NextCode(args[m], t, c);
      var push := Instr(PUSH, Idx(o.reg), NULL, NULL);
      ArgumentsUnfold(args, t, c);
      ArgumentsAppend(args[..m], t, next);
      var rest := CompileArguments(args[..m], t, next.(code := [])).code;
      var tail := CompileArguments(args, t, c).code;
      assert tail == o.code + [push] + rest;
      PartsPlaced(code, base + a, o.code, push, rest);
      ArgumentPath(code, vms, js, base, args[m], c.next, t, c.pool, a);
      ArgumentsPath(code, vms, js, base, args[..m], t, next.(code := []), a + |o.code| + 1);
      OperandsMore(vms, js, a, args, t, c, vms[js[a + |tail|]].stack, vms[js[a]].stack, vms[js[a + |o.code|]]);
    }
  }

  lemma NoOperands(vms: seq<Vm>, js: seq<nat>, a: nat, t: Table, c: CallCode, stack: seq<real>)
    ensures Operands(vms, js, a, [], t, c, stack, stack)
  {
  }

  lemma PartsPlaced(code: seq<Instr>, at: nat, a: seq<Instr>, i: Instr, b: seq<Instr>)
    requires Placed(code, at, a + [i] + b)
    ensures Placed(code, at, a) && at + |a| < |code| && code[at + |a|] == i && Placed(code, at + |a| + 1, b)
  {
    assert (a + [i] + b)[..|a|] == a && (a + [i] + b)[|a|] == i && (a + [i] + b)[|a| + 1..] == b;
  }

  /** The last argument's operand, with those of the others above it. */
  lemma OperandsMore(vms: seq<Vm>, js: seq<nat>, a: nat, args: seq<Expr>, t: Table, c: CallCode, stack: seq<real>,
                     below: seq<real>, pushing: Vm)
    requires args != []
    requires var m := |args| - 1;
             var o := CompileExpr(args[m], c.next, t, c.pool);
             var q := a + |o.code|;
             && q < |js| && js[q] < |vms| && vms[js[q]] == pushing && pushing.Running?
             && pushing.current < |pushing.contexts|
             && Operands(vms, js, q + 1, args[..m], t, NextCode(args[m], t, c).(code := []), stack,
                         below + [Held(pushing, o.reg)])
    ensures Operands(vms, js, a, args, t, c, stack, below)
  {
    hide CompileExpr, Operand;
    var m := |args| - 1;
    var o := CompileExpr(args[m], c.next, t, c.pool);
    var v := Held(pushing, o.reg);
    assert stack[..|below|] == stack[..|below| + 1][..|below|] == below;
    assert stack[|below|] == stack[..|below| + 1][|below|] == v;
    forall i: nat | i < |args|
      ensures Operand(vms, js, a + PushAt(args, t, c, i), ArgumentRegister(args, t, c, i), stack[|stack| - 1 - i])
    {
      if i == m {
        OperandHeld(vms, js, a + |o.code|, o.reg);
      }
    }
  }

  lemma OperandHeld(vms: seq<Vm>, js: seq<nat>, q: nat, r: nat)
    requires q < |js| && js[q] < |vms| && vms[js[q]].Running? && vms[js[q]].current < |vms[js[q]].contexts|
    ensures Operand(vms, js, q, r, Held(vms[js[q]], r))
  {
  }

  // ----- calls -----

  /** The activation that stands at the CALL emitted for a method call has executed the call's
      code, from its first instruction on; the arguments are on top of what was on the stack
      then, each as its register held it at its own PUSH. */
  lemma CallTakesArguments(code: seq<Instr>, e: nat, stack: seq<real>, vms: seq<Vm>, chs: seq<Choice>, k: nat,
                           base: nat, callee: Expr, args: seq<Expr>, dest: nat, t: Table, p: Pool)
      returns (js: seq<nat>)
    requires NormalRun(code, e, stack, vms, chs) && k < |vms| && vms[k].Running?
    requires var c := CompileExpr(MethodCall(callee, args), dest, t, p).code;
             Placed(code, base, c) && vms[k].pc == base + |c| - 1
    ensures Path(code, vms, js, base) && js[|js| - 1] == k && Own(vms, js) == vms[k].current
    ensures |js| == |CompileExpr(MethodCall(callee, args), dest, t, p).code|
    ensures ActiveAt(vms, js[0], vms[k].current, base)
    ensures Operands(vms, js, 0, args, t, BeginCall(dest, t, p), vms[k].stack, vms[js[0]].stack)
    ensures vms[k].pc < |code| && code[vms[k].pc].op == CALL && code[vms[k].pc].r2 == Idx(|args|)
  {
    hide CompileExpr, CompileArguments, Path, Operands, NormalRun, Placed, ActiveAt;
    var whole := CompileExpr(MethodCall(callee, args), dest, t, p).code;
    var a := CompileArguments(args, t, BeginCall(dest, t, p));
    var o := CompileExpr(callee, 0, t, Release(|t|, a.pool, a.next));
    var call := Instr(CALL, Idx(o.reg), Idx(a.result), Idx(|args|));
    CallParted(callee, args, dest, t, p);
    ExprCalm(MethodCall(callee, args), dest, t, p);
    CalmStraight(code, base, whole);
    js := Back(code, e, stack, vms, chs, k, base);
    CallPlaced(code, base, a.code, o.code, call);
    PathActive(code, vms, js, base, 0);
    PathActive(code, vms, js, base, |a.code|);
    BeginAsks(dest, t, p);
    ArgumentsPath(code, vms, js, base, args, t, BeginCall(dest, t, p), 0);
    ExprPath(code, vms, js, base, callee, 0, t, Release(|t|, a.pool, a.next), |a.code|);
  }

  lemma CallPlaced(code: seq<Instr>, at: nat, a: seq<Instr>, b: seq<Instr>, i: Instr)
    requires Placed(code, at, a + b + [i])
    ensures Placed(code, at, a) && Placed(code, at + |a|, b) && at + |a| + |b| < |code| && code[at + |a| + |b|] == i
  {
    PlacedConcat(code, at, a + b, [i]);
    PlacedConcat(code, at, a, b);
    assert code[at + |a| + |b|..at + |a| + |b| + 1][0] == i;
  }

  lemma CalmStraight(code: seq<Instr>, base: nat, c: seq<Instr>)
    requires Placed(code, base, c) && Calm(c) && c != []
    ensures Straight(code, base, base + |c| - 1)
  {
    forall q | base <= q < base + |c|
      ensures code[q].op != LABEL && code[q].op != FFRAME
    {
      assert code[q] == c[q - base];
    }
  }

  /** What the callee's registers hold when its code begins: its parameters, and this. */
  ghost predicate Received(code: seq<Instr>, vms: seq<Vm>, js: seq<nat>, k: nat, args: seq<Expr>, t: Table, c: CallCode)
  {
    && k + 1 < |vms| && k < |vms| && vms[k].Running? && vms[k + 1].Running?
    && vms[k + 1].current == |vms[k].contexts| < |vms[k + 1].contexts|
    && (forall i: nat :: i < |args| ==>
          Operand(vms, js, PushAt(args, t, c, i), ArgumentRegister(args, t, c, i), Held(vms[k + 1], i + 3)))
    && vms[k].contexts != [] && Held(vms[k + 1], 1) == Get(vms[k].contexts[0].regs, Idx(1))
    && Unset(vms[k + 1], |args|)
  }

  /** The registers of no argument, and not of this, are null. */
  ghost predicate Unset(vm: Vm, n: nat)
    requires vm.Running? && vm.current < |vm.contexts|
  {
    forall q: nat :: q != 1 && !(3 <= q < n + 3) ==> Held(vm, q) == 0.0
  }

  lemma InvokeReceives(code: seq<Instr>, vm: Vm, ch: Choice, vm': Vm, n: nat)
    requires Moves(code, vm, ch, vm') && ch.Invoke? && vm.pc < |code| && code[vm.pc].r2 == Idx(n)
    ensures vm.Running? && n <= |vm.stack| && vm'.Running? && vm'.current == |vm.contexts| < |vm'.contexts|
    ensures vm.contexts != [] && vm'.contexts[vm'.current].regs == FrameRegs(vm.contexts, vm.stack, n)
    ensures vm'.contexts[vm'.current].caller == Some(vm.current) && vm'.contexts[vm'.current].address == vm.pc
  {
    hide Translate, Arguments, UnitOf;
  }

  /** When a function is invoked at the CALL of a method call, register i + 3 of its activation
      holds what argument i's register held at its own PUSH, register 1 what the first activation
      has there, and all others nothing. */
  lemma CallPasses(code: seq<Instr>, e: nat, stack: seq<real>, vms: seq<Vm>, chs: seq<Choice>, k: nat, base: nat,
                   callee: Expr, args: seq<Expr>, dest: nat, t: Table, p: Pool) returns (js: seq<nat>)
    requires NormalRun(code, e, stack, vms, chs) && k < |chs| && vms[k].Running? && chs[k].Invoke?
    requires var c := CompileExpr(MethodCall(callee, args), dest, t, p).code;
             Placed(code, base, c) && vms[k].pc == base + |c| - 1
    ensures Path(code, vms, js, base) && js[|js| - 1] == k && ActiveAt(vms, js[0], vms[k].current, base)
    ensures |vms[k].stack| == |vms[js[0]].stack| + |args| && vms[k].stack[..|vms[js[0]].stack|] == vms[js[0]].stack
    ensures Received(code, vms, js, k, args, t, BeginCall(dest, t, p))
  {
    hide CompileExpr, Path, NormalRun, Placed, ActiveAt, FrameRegs, Moves, Operand, PushAt, ArgumentRegister;
    StepMoves(code, e, stack, vms, chs, k);
    js := CallTakesArguments(code, e, stack, vms, chs, k, base, callee, args, dest, t, p);
    InvokeReceives(code, vms[k], chs[k], vms[k + 1], |args|);
    FrameHolds(vms[k].contexts, vms[k].stack, |args|);
    var c := BeginCall(dest, t, p);
    forall i: nat | i < |args|
      ensures Operand(vms, js, PushAt(args, t, c, i), ArgumentRegister(args, t, c, i), Held(vms[k + 1], i + 3))
    {
      assert Operand(vms, js, 0 + PushAt(args, t, c, i), ArgumentRegister(args, t, c, i),
                     vms[k].stack[|vms[k].stack| - 1 - i]);
    }
  }

  lemma StepMoves(code: seq<Instr>, e: nat, stack: seq<real>, vms: seq<Vm>, chs: seq<Choice>, k: nat)
    requires NormalRun(code, e, stack, vms, chs) && (k < |chs| || k + 1 < |vms|)
    ensures |vms| == |chs| + 1 && Moves(code, vms[k], chs[k], vms[k + 1])
  {
  }

  /** A whole call, seen from its return: there was one moment when the caller stood at the CALL;
      before it the caller had executed the call's code, the callee received what the arguments'
      registers held at their PUSHes, the caller was not current again until now, and the stack
      is as it was before the first argument's code. The register of the call's result holds what
      the returned register held in the callee; the caller's others are as they were at the CALL,
      but for what the callee wrote through its scope chain. */
  lemma CallRoundTrip(code: seq<Instr>, e: nat, stack: seq<real>, vms: seq<Vm>, chs: seq<Choice>, r: nat, base: nat,
                      callee: Expr, args: seq<Expr>, dest: nat, t: Table, p: Pool) returns (k: nat, js: seq<nat>)
    requires NormalRun(code, e, stack, vms, chs) && 0 < r < |vms| && vms[r].Running? && vms[r - 1].Running?
    requires var c := CompileExpr(MethodCall(callee, args), dest, t, p).code;
             var last := vms[r - 1];
             && Placed(code, base, c)
             && last.pc < |code| && code[last.pc].op == RETURN && last.current < |last.contexts|
             && last.contexts[last.current].caller.Some?
             && last.contexts[last.current].address == base + |c| - 1
    ensures k + 1 < r && vms[k].Running? && chs[k].Invoke? && |vms[k].contexts| == vms[r - 1].current
    ensures Path(code, vms, js, base) && js[|js| - 1] == k && ActiveAt(vms, js[0], vms[k].current, base)
    ensures Received(code, vms, js, k, args, t, BeginCall(dest, t, p))
    ensures vms[r].current == vms[k].current && vms[r].pc == vms[k].pc + 1
    ensures forall m :: k < m < r ==> vms[m].Running? && vms[m].current != vms[k].current
    ensures vms[r].stack == vms[js[0]].stack
    ensures vms[r - 1].current < |vms[r - 1].contexts| && vms[r].current < |vms[r].contexts|
            && vms[k].current < |vms[k].contexts| && vms[r - 1].pc < |code|
    ensures var reg := CompileExpr(MethodCall(callee, args), dest, t, p).reg;
            && Held(vms[r], reg)
               == Get(vms[r - 1].contexts[vms[r - 1].current].regs, code[vms[r - 1].pc].r0)
            && (Unreached(chs, k, r, vms[k].current) ==>
                  forall q: nat :: q != reg ==> Held(vms[r], q) == Held(vms[k], q))
  {
    hide CompileExpr, Path, NormalRun, Placed, Moves, Received, Acts, ActiveAt;
    StepMoves(code, e, stack, vms, chs, r - 1);
    ReturnMoves(code, vms[r - 1], chs[r - 1], vms[r]);
    k := ReturnsToCall(code, e, stack, vms, chs, r);
    js := CallPasses(code, e, stack, vms, chs, k, base, callee, args, dest, t, p);
    var n := code[vms[k].pc].r2.n;
    CallSize(code, base, callee, args, dest, t, p);
    CalledActs(code[vms[k].pc], vms[k], vms[r].stack);
    CurrentMade(code, vms, chs, k, r, e, stack);
    ReturnDelivers(code, vms[r - 1], chs[r - 1], vms[r]);
    if Unreached(chs, k, r, vms[k].current) {
      UnreachedLess(chs, k, r, vms[k].current);
      RegistersWait(code, e, stack, vms, chs, k, r - 1, vms[k].current);
    }
  }

  lemma UnreachedLess(chs: seq<Choice>, k: nat, r: nat, f: nat)
    requires Unreached(chs, k, r, f) && r > 0
    ensures Unreached(chs, k, r - 1, f)
  {
  }

  lemma CalledActs(i: Instr, vm: Vm, stack: seq<real>)
    requires vm.Running? && vm.current < |vm.contexts| && i.op == CALL && Acts(i, vm, stack)
    ensures i.r2.Idx? && i.r2.n <= |vm.stack| && stack == vm.stack[..|vm.stack| - i.r2.n]
  {
  }

  lemma CallSize(code: seq<Instr>, base: nat, callee: Expr, args: seq<Expr>, dest: nat, t: Table, p: Pool)
    requires Placed(code, base, CompileExpr(MethodCall(callee, args), dest, t, p).code)
    ensures var c := CompileExpr(MethodCall(callee, args), dest, t, p).code;
            && c != [] && code[base + |c| - 1].op == CALL && code[base + |c| - 1].r2 == Idx(|args|)
            && code[base + |c| - 1].r1 == Idx(CompileExpr(MethodCall(callee, args), dest, t, p).reg)
  {
    hide CompileExpr, CompileArguments;
    CallParted(callee, args, dest, t, p);
    var a := CompileArguments(args, t, BeginCall(dest, t, p));
    var o := CompileExpr(callee, 0, t, Release(|t|, a.pool, a.next));
    CallPlaced(code, base, a.code, o.code, Instr(CALL, Idx(o.reg), Idx(a.result), Idx(|args|)));
  }

  lemma ReturnMoves(code: seq<Instr>, vm: Vm, ch: Choice, vm': Vm)
    requires Moves(code, vm, ch, vm') && vm.Running? && vm'.Running? && vm.pc < |code| && code[vm.pc].op == RETURN
    ensures vm.current < |vm.contexts| && vm.contexts[vm.current].caller == Some(vm'.current)
    ensures vm'.pc == vm.contexts[vm.current].address + 1 && vm'.stack == vm.stack
  {
  }

  /** The call was not the last step. */
  lemma CurrentMade(code: seq<Instr>, vms: seq<Vm>, chs: seq<Choice>, k: nat, r: nat, e: nat, stack: seq<real>)
    requires NormalRun(code, e, stack, vms, chs) && k < r < |vms| && vms[k].Running? && vms[r].Running?
    requires chs[k].Invoke?
    requires vms[r].current == vms[k].current < |vms[k].contexts|
    ensures k + 1 < r
  {
    hide Lawful, Balanced, Translate, FrameRegs, UnitOf, Start;
    assert Moves(code, vms[k], chs[k], vms[k + 1]);
  }

  /** With the parameters a function numbers: parameter i's register is the one argument i is put
      into. */
  lemma ParametersReceive(code: seq<Instr>, vms: seq<Vm>, js: seq<nat>, k: nat, args: seq<Expr>, t: Table, c: CallCode,
                          f: Function, i: nat)
    requires Received(code, vms, js, k, args, t, c) && i < |args| && i < |f.params| && f.name != "this"
    requires forall j :: 0 <= j < |f.params| ==> f.params[j] != "this" && f.params[j] != f.name
    requires forall j, l :: 0 <= j < l < |f.params| ==> f.params[j] != f.params[l]
    ensures Operand(vms, js, PushAt(args, t, c, i), ArgumentRegister(args, t, c, i),
                    Held(vms[k + 1], RegisterOf(FunctionTables(f).symbols, f.params[i])))
  {
    ParameterRegister(f, i);
  }

  // ----- the runs of a class -----

  /** Every run of the program of a class, from the header of any of its functions, in which
      nothing is thrown, has such states. */
  lemma ClassRuns(c: Class, e: nat, stack: seq<real>, chs: seq<Choice>) returns (vms: seq<Vm>)
    requires DistinctClass(c) && ContainedClass(c) && c.params == []
    requires e < |CompileClass(c).code| && CompileClass(c).code[e].op == FFRAME
    requires Possible(CompileClass(c).code, Start(CompileClass(c).code, e, stack), chs)
    requires AllNormally(CompileClass(c).code, Start(CompileClass(c).code, e, stack), chs)
    ensures NormalRun(CompileClass(c).code, e, stack, vms, chs)
    ensures vms[|chs|] == AfterAll(CompileClass(c).code, Start(CompileClass(c).code, e, stack), chs)
  {
    hide Lawful, Balanced, CompileClass, Possible, AllNormally, Start, Moves;
    ProgramLawful(c);
    ProgramBalanced(c);
    vms := StatesOf(CompileClass(c).code, Start(CompileClass(c).code, e, stack), chs);
  }
}
