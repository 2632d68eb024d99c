/** Calls within whole runs: seen from one activation, a call with everything it runs is one step
    that takes the arguments off the stack. So the operands a CALL takes are those its own
    argument code pushed, in order, and after the return the stack is as before that code. */
module CallRuns {
  import opened Options
  import opened Bytecode
  import opened Machine
  import opened Places
  import opened StackCode
  import opened Vm
  import opened StackRuns

  /** A run in which nothing is thrown, by its states and the choices between them. */
  ghost predicate NormalRun(code: seq<Instr>, e: nat, stack: seq<real>, vms: seq<Vm>, chs: seq<Choice>) {
    && Lawful(code) && Balanced(code) && e < |code| && code[e].op == FFRAME
    && |vms| == |chs| + 1 && vms[0] == Start(code, e, stack)
    && forall k :: 0 <= k < |chs| ==> Moves(code, vms[k], chs[k], vms[k + 1])
  }

  ghost predicate Moves(code: seq<Instr>, vm: Vm, ch: Choice, vm': Vm) {
    Can(code, vm, ch) && Normally(code, vm, ch) && vm' == Do(code, vm, ch)
  }

  /** The run as a sequence of choices has these states. */
  lemma {:induction false} RunInvariant(code: seq<Instr>, e: nat, stack: seq<real>, vms: seq<Vm>, chs: seq<Choice>,
                                        k: nat)
    requires NormalRun(code, e, stack, vms, chs) && k < |vms|
    ensures Invariant(code, vms[k]) && Levelled(code, vms[k], true)
    decreases k
  {
    hide Lawful, Balanced, Invariant, Levelled, Can, Do, Normally, Start;
    if k == 0 {
      StartInvariant(code, e, stack);
      StartLevels(code, e, stack);
    } else {
      RunInvariant(code, e, stack, vms, chs, k - 1);
      assert Moves(code, vms[k - 1], chs[k - 1], vms[k]);
      StepKeeps(code, vms[k - 1], chs[k - 1]);
      StepLevels(code, vms[k - 1], chs[k - 1], true);
    }
  }

  lemma RunsOn(code: seq<Instr>, vm: Vm, ch: Choice, vm': Vm)
    requires Moves(code, vm, ch, vm')
    ensures vm.Running? && vm.current < |vm.contexts| && vm.pc < |code|
    ensures vm'.Running? ==> |vm.contexts| <= |vm'.contexts|
  {
    hide HeaderOf, Translate, FrameRegs, Catcher, UnitOf;
  }

  // ----- one step and the frames -----

  /** What a frame is made with stays; a call makes one. */
  lemma StepFrames(code: seq<Instr>, vm: Vm, ch: Choice, vm': Vm, x: nat)
    requires Moves(code, vm, ch, vm') && vm'.Running? && x < |vm'.contexts|
    ensures vm.Running?
    ensures x < |vm.contexts| ==>
      && vm'.contexts[x].caller == vm.contexts[x].caller && vm'.contexts[x].address == vm.contexts[x].address
      && vm'.contexts[x].entry == vm.contexts[x].entry && vm'.contexts[x].register == vm.contexts[x].register
    ensures x >= |vm.contexts| ==>
      && x == |vm.contexts| && ch.Invoke? && vm.pc < |code| && code[vm.pc].op == CALL && code[vm.pc].r2.Idx?
      && code[vm.pc].r2.n <= |vm.stack|
      && vm'.contexts[x].caller == Some(vm.current) && vm'.contexts[x].address == vm.pc
      && vm'.contexts[x].entry == vm.stack[..|vm.stack| - code[vm.pc].r2.n]
      && vm'.contexts[x].register == code[vm.pc].r1
  {
    hide HeaderOf, Translate, FrameRegs, Catcher, UnitOf;
  }

  /** The moment a frame was made: its caller stood at the call. */
  ghost predicate MadeAt(code: seq<Instr>, vm: Vm, ch: Choice, x: nat, c: Context) {
    && vm.Running? && |vm.contexts| == x && ch.Invoke?
    && c.caller == Some(vm.current) && c.address == vm.pc
    && vm.pc < |code| && code[vm.pc].op == CALL && code[vm.pc].r2.Idx? && code[vm.pc].r2.n <= |vm.stack|
    && c.entry == vm.stack[..|vm.stack| - code[vm.pc].r2.n] && c.register == code[vm.pc].r1
  }

  lemma {:induction false} Made(code: seq<Instr>, e: nat, stack: seq<real>, vms: seq<Vm>, chs: seq<Choice>, k: nat,
                                x: nat) returns (b: nat)
    requires NormalRun(code, e, stack, vms, chs) && k < |vms| && vms[k].Running? && x < |vms[k].contexts|
    requires vms[k].contexts[x].caller.Some?
    ensures b < k && MadeAt(code, vms[b], chs[b], x, vms[k].contexts[x])
    decreases k
  {
    hide Lawful, Balanced, Moves;
    StartFrames(code, e, stack);
    assert k > 0;
    assert Moves(code, vms[k - 1], chs[k - 1], vms[k]);
    StepFrames(code, vms[k - 1], chs[k - 1], vms[k], x);
    if x < |vms[k - 1].contexts| {
      b := Made(code, e, stack, vms, chs, k - 1, x);
    } else {
      b := k - 1;
    }
  }

  lemma StartFrames(code: seq<Instr>, e: nat, stack: seq<real>)
    requires e < |code|
    ensures var vm := Start(code, e, stack);
            vm.Running? && |vm.contexts| == 1 && vm.contexts[0].caller == None && vm.current == 0 && vm.pc == e + 1
  {
    hide Translate, UnitOf;
  }

  // ----- activations that are not over -----

  /** x is the current activation or one that waits for it. */
  predicate OnChain(contexts: seq<Context>, id: nat, x: nat)
    decreases id
  {
    id < |contexts|
    && (id == x || (contexts[id].caller.Some? && contexts[id].caller.value < id
                    && OnChain(contexts, contexts[id].caller.value, x)))
  }

  lemma {:induction false} ChainSame(a: seq<Context>, b: seq<Context>, id: nat, x: nat)
    requires id < |a| <= |b| && forall j :: 0 <= j < |a| ==> b[j].caller == a[j].caller
    ensures OnChain(a, id, x) <==> OnChain(b, id, x)
    decreases id
  {
    if a[id].caller.Some? && a[id].caller.value < id {
      ChainSame(a, b, a[id].caller.value, x);
    }
  }

  /** An activation that is over is never current again. */
  lemma StepChain(code: seq<Instr>, vm: Vm, ch: Choice, vm': Vm, x: nat)
    requires Moves(code, vm, ch, vm') && vm'.Running? && Invariant(code, vm)
    requires x < |vm.contexts| && !OnChain(vm.contexts, vm.current, x)
    ensures x < |vm'.contexts| && !OnChain(vm'.contexts, vm'.current, x)
  {
    hide HeaderOf, Translate, FrameRegs, Catcher, UnitOf, Lawful, TranslatedOnce, Stands, PlaceAt;
    RunsOn(code, vm, ch, vm');
    forall j | 0 <= j < |vm.contexts|
      ensures vm'.contexts[j].caller == vm.contexts[j].caller
    {
      StepFrames(code, vm, ch, vm', j);
    }
    ChainSame(vm.contexts, vm'.contexts, vm.current, x);
    if ch.Invoke? {
      StepFrames(code, vm, ch, vm', |vm.contexts|);
    }
  }

  lemma {:induction false} StaysOver(code: seq<Instr>, e: nat, stack: seq<real>, vms: seq<Vm>, chs: seq<Choice>, j: nat,
                                     k: nat, x: nat)
    requires NormalRun(code, e, stack, vms, chs) && j <= k < |vms| && vms[j].Running? && vms[k].Running?
    requires x < |vms[j].contexts| && !OnChain(vms[j].contexts, vms[j].current, x)
    ensures x < |vms[k].contexts| && !OnChain(vms[k].contexts, vms[k].current, x)
    decreases k - j
  {
    hide Lawful, Balanced, Moves, OnChain, Invariant;
    if j < k {
      assert Moves(code, vms[j], chs[j], vms[j + 1]);
      StillRuns(code, e, stack, vms, chs, j + 1, k);
      RunInvariant(code, e, stack, vms, chs, j);
      StepChain(code, vms[j], chs[j], vms[j + 1], x);
      StaysOver(code, e, stack, vms, chs, j + 1, k, x);
    }
  }

  lemma StillRuns(code: seq<Instr>, e: nat, stack: seq<real>, vms: seq<Vm>, chs: seq<Choice>, j: nat, k: nat)
    requires NormalRun(code, e, stack, vms, chs) && j <= k < |vms| && vms[k].Running?
    ensures vms[j].Running?
  {
    hide Lawful, Balanced, Do;
    if j < k {
      assert Moves(code, vms[j], chs[j], vms[j + 1]);
    }
  }

  // ----- an activation's own steps -----

  /** What an instruction of the activation does to the stack, a call with all that it runs. */
  predicate Acts(i: Instr, vm: Vm, stack: seq<real>)
    requires vm.Running? && vm.current < |vm.contexts|
  {
    && i.op != RETURN && i.op != JMP && i.op != THROW_EXCEPTION && i.op != FFRAME
    && if i.op == PUSH then stack == vm.stack + [Get(vm.contexts[vm.current].regs, i.r0)]
       else if i.op == POP then vm.stack != [] && stack == vm.stack[..|vm.stack| - 1]
       else if i.op == CALL then i.r2.Idx? && i.r2.n <= |vm.stack| && stack == vm.stack[..|vm.stack| - i.r2.n]
       else stack == vm.stack
  }

  /** The ways a step gets to where it does. */
  lemma StepKinds(code: seq<Instr>, vm: Vm, ch: Choice, vm': Vm)
    requires Moves(code, vm, ch, vm') && vm'.Running? && 0 < vm'.pc < |code|
    ensures vm.Running? && vm.current < |vm.contexts| && vm.pc < |code|
    ensures
      || (vm'.current == vm.current && vm'.pc == vm.pc + 1 && Acts(code[vm.pc], vm, vm'.stack))
      || code[vm'.pc].op == LABEL
      || code[vm'.pc - 1].op == FFRAME
      || (code[vm.pc].op == RETURN && ch.Proceed? && vm.contexts[vm.current].caller == Some(vm'.current)
          && vm'.pc == vm.contexts[vm.current].address + 1 && vm'.stack == vm.stack)
  {
    hide Translate, FrameRegs, Catcher, UnitOf;
    if ch.Jump? {
      assert Find(code, TargetOf(code[vm.pc])) == Some(vm'.pc);
    }
  }

  /** An activation that stands after a straight-line instruction has executed it before, and
      stood nowhere in between. */
  lemma Before(code: seq<Instr>, e: nat, stack: seq<real>, vms: seq<Vm>, chs: seq<Choice>, k: nat) returns (j: nat)
    requires NormalRun(code, e, stack, vms, chs) && k < |vms| && vms[k].Running? && 0 < vms[k].pc < |code|
    requires code[vms[k].pc].op != LABEL && code[vms[k].pc - 1].op != FFRAME
    ensures j < k && vms[j].Running? && vms[j].current == vms[k].current && vms[j].pc == vms[k].pc - 1
    ensures vms[j].current < |vms[j].contexts| && Acts(code[vms[j].pc], vms[j], vms[k].stack)
    ensures forall m :: j < m < k ==> vms[m].Running? && vms[m].current != vms[k].current
  {
    hide Lawful, Balanced, Moves, Acts, MadeAt, Levelled, Invariant, OnChain, Start;
    StartFrames(code, e, stack);
    assert k > 0;
    var last := vms[k - 1];
    assert Moves(code, last, chs[k - 1], vms[k]);
    StepKinds(code, last, chs[k - 1], vms[k]);
    if last.current == vms[k].current && vms[k].pc == last.pc + 1 && Acts(code[last.pc], last, vms[k].stack) {
      j := k - 1;
    } else {
      j := ReturnsToCall(code, e, stack, vms, chs, k);
    }
  }

  /** A return ends what a call began: until then other activations ran. */
  lemma ReturnsToCall(code: seq<Instr>, e: nat, stack: seq<real>, vms: seq<Vm>, chs: seq<Choice>, k: nat)
      returns (j: nat)
    requires NormalRun(code, e, stack, vms, chs) && 0 < k < |vms| && vms[k].Running? && vms[k - 1].Running?
    requires var last := vms[k - 1];
             && last.current < |last.contexts| && last.pc < |code| && code[last.pc].op == RETURN
             && last.contexts[last.current].caller == Some(vms[k].current)
             && vms[k].pc == last.contexts[last.current].address + 1 && vms[k].stack == last.stack
    ensures j < k && MadeAt(code, vms[j], chs[j], vms[k - 1].current, vms[k - 1].contexts[vms[k - 1].current])
    ensures vms[j].Running? && vms[j].current == vms[k].current && vms[j].pc == vms[k].pc - 1
    ensures vms[j].current < |vms[j].contexts| && Acts(code[vms[j].pc], vms[j], vms[k].stack)
    ensures forall m :: j < m < k ==> vms[m].Running? && vms[m].current != vms[k].current
  {
    hide Lawful, Balanced, Moves, Invariant, OnChain, Levelled, Start;
    var last, x := vms[k - 1], vms[k - 1].current;
    j := Made(code, e, stack, vms, chs, k - 1, x);
    assert Moves(code, vms[j], chs[j], vms[j + 1]);
    RunsOn(code, vms[j], chs[j], vms[j + 1]);
    RunInvariant(code, e, stack, vms, chs, k - 1);
    ReturnsEntry(code, last);
    forall m | j < m < k
      ensures vms[m].Running? && vms[m].current != vms[k].current
    {
      StillRuns(code, e, stack, vms, chs, m, k);
      Waiting(code, e, stack, vms, chs, j, m, k - 1);
    }
  }

  lemma ReturnsEntry(code: seq<Instr>, vm: Vm)
    requires Balanced(code) && vm.Running? && Levelled(code, vm, true) && vm.pc < |code| && code[vm.pc].op == RETURN
    ensures vm.current < |vm.contexts| && vm.stack == vm.contexts[vm.current].entry
  {
    hide Through, HeightAt;
    HeightServes(code, vm.pc);
  }

  /** While the activation made after state j is not over, its caller is not current. */
  lemma Waiting(code: seq<Instr>, e: nat, stack: seq<real>, vms: seq<Vm>, chs: seq<Choice>, j: nat, m: nat, k: nat)
    requires NormalRun(code, e, stack, vms, chs) && j < m <= k < |vms| && vms[m].Running? && vms[k].Running?
    requires vms[j].Running? && vms[j].current < |vms[j].contexts| == vms[k].current && chs[j].Invoke?
    ensures vms[m].current != vms[j].current
  {
    hide Lawful, Balanced, Moves, Levelled, Start;
    var x := vms[k].current;
    FramesGrow(code, e, stack, vms, chs, j + 1, m);
    RunInvariant(code, e, stack, vms, chs, k);
    CurrentOnChain(vms[k].contexts, x, code, vms[k].pc, vms[k].entered);
    if !OnChain(vms[m].contexts, vms[m].current, x) {
      MadeAfter(code, e, stack, vms, chs, j);
      StaysOver(code, e, stack, vms, chs, m, k, x);
    } else {
      ChainBelow(vms[m].contexts, vms[m].current, x);
    }
  }

  lemma CurrentOnChain(contexts: seq<Context>, id: nat, code: seq<Instr>, pc: nat, entered: set<nat>)
    requires Chained(code, contexts, id, pc, entered)
    ensures OnChain(contexts, id, id)
  {
  }

  lemma {:induction false} ChainBelow(contexts: seq<Context>, id: nat, x: nat)
    requires OnChain(contexts, id, x)
    ensures x <= id
    decreases id
  {
    if id != x {
      ChainBelow(contexts, contexts[id].caller.value, x);
    }
  }

  lemma MadeAfter(code: seq<Instr>, e: nat, stack: seq<real>, vms: seq<Vm>, chs: seq<Choice>, j: nat)
    requires NormalRun(code, e, stack, vms, chs) && j < |chs| && chs[j].Invoke? && vms[j].Running?
    ensures vms[j + 1].Running? && |vms[j + 1].contexts| == |vms[j].contexts| + 1
  {
    hide Lawful, Balanced, HeaderOf, Translate, FrameRegs, UnitOf, Start;
    assert Moves(code, vms[j], chs[j], vms[j + 1]);
  }

  lemma {:induction false} FramesGrow(code: seq<Instr>, e: nat, stack: seq<real>, vms: seq<Vm>, chs: seq<Choice>,
                                      j: nat, m: nat)
    requires NormalRun(code, e, stack, vms, chs) && 0 < j <= m < |vms| && vms[m].Running?
    requires chs[j - 1].Invoke?
    ensures vms[j - 1].Running? && |vms[j - 1].contexts| < |vms[m].contexts|
    decreases m - j
  {
    hide Lawful, Balanced, Moves, Start;
    StillRuns(code, e, stack, vms, chs, j - 1, m);
    if j == m {
      MadeAfter(code, e, stack, vms, chs, j - 1);
    } else {
      StillRuns(code, e, stack, vms, chs, m - 1, m);
      assert Moves(code, vms[m - 1], chs[m - 1], vms[m]);
      RunsOn(code, vms[m - 1], chs[m - 1], vms[m]);
      FramesGrow(code, e, stack, vms, chs, j, m - 1);
    }
  }

  // ----- the registers of a waiting activation -----

  /** No SET_FIELD of another activation, from state k to state r, writes a variable of frame f. */
  predicate Unreached(chs: seq<Choice>, k: nat, r: nat, f: nat) {
    forall m :: k <= m < r && m < |chs| && chs[m].Reach? ==> chs[m].frame != f
  }

  lemma StepRegisters(code: seq<Instr>, vm: Vm, ch: Choice, vm': Vm, f: nat)
    requires Moves(code, vm, ch, vm') && vm.Running? && vm'.Running? && f < |vm.contexts|
    requires (vm.current != f && vm'.current != f) || ch.Invoke?
    requires ch.Reach? ==> ch.frame != f
    ensures f < |vm'.contexts| && vm'.contexts[f].regs == vm.contexts[f].regs
  {
    hide HeaderOf, Translate, FrameRegs, Catcher, UnitOf;
  }

  /** While an activation waits for a call, its registers stay as they are. */
  lemma {:induction false} RegistersWait(code: seq<Instr>, e: nat, stack: seq<real>, vms: seq<Vm>, chs: seq<Choice>,
                                         k: nat, r: nat, f: nat)
    requires NormalRun(code, e, stack, vms, chs) && k < r < |vms| && vms[k].Running? && chs[k].Invoke?
    requires f < |vms[k].contexts| && Unreached(chs, k, r, f)
    requires forall m :: k < m <= r ==> vms[m].Running? && vms[m].current != f
    ensures f < |vms[r].contexts| && vms[r].contexts[f].regs == vms[k].contexts[f].regs
    decreases r
  {
    hide Lawful, Balanced, Moves, Start;
    assert Moves(code, vms[r - 1], chs[r - 1], vms[r]);
    if k < r - 1 {
      RegistersWait(code, e, stack, vms, chs, k, r - 1, f);
    }
    StepRegisters(code, vms[r - 1], chs[r - 1], vms[r], f);
  }

  /** A return puts the returned register into the one its call asked for, and changes no other. */
  lemma ReturnDelivers(code: seq<Instr>, vm: Vm, ch: Choice, vm': Vm)
    requires Moves(code, vm, ch, vm') && vm.Running? && vm'.Running? && vm.pc < |code| && code[vm.pc].op == RETURN
    requires vm.current < |vm.contexts| && vm'.current != vm.current
    ensures vm'.current < |vm.contexts| && vm'.current < |vm'.contexts|
    ensures var c, regs := vm.contexts[vm.current], vm'.contexts[vm'.current].regs;
            && (c.register.Idx? ==> Get(regs, c.register) == Get(c.regs, code[vm.pc].r0))
            && forall q: nat :: Idx(q) != c.register ==> Get(regs, Idx(q)) == Get(vm.contexts[vm'.current].regs, Idx(q))
  {
  }

  // ----- straight-line code -----

  /** The states in which one activation executed the instructions from base on, one by one. */
  ghost predicate Path(code: seq<Instr>, vms: seq<Vm>, js: seq<nat>, base: nat) {
    && js != [] && base + |js| <= |code| + 1
    && (forall q :: 0 <= q < |js| ==> ActiveAt(vms, js[q], Own(vms, js), base + q))
    && (forall q :: 0 <= q < |js| - 1 ==> OwnStep(code, vms, js[q], js[q + 1], Own(vms, js)))
  }

  function Own(vms: seq<Vm>, js: seq<nat>): nat
    requires js != []
  {
    if js[0] < |vms| && vms[js[0]].Running? then vms[js[0]].current else 0
  }

  ghost predicate ActiveAt(vms: seq<Vm>, j: nat, id: nat, pc: nat) {
    j < |vms| && vms[j].Running? && vms[j].current == id && id < |vms[j].contexts| && vms[j].pc == pc
  }

  /** The activation goes from state i to state j by one instruction, and is not current between. */
  ghost predicate OwnStep(code: seq<Instr>, vms: seq<Vm>, i: nat, j: nat, id: nat) {
    && i < j < |vms| && vms[i].Running? && vms[i].current == id && id < |vms[i].contexts| && vms[i].pc < |code|
    && vms[j].Running? && Acts(code[vms[i].pc], vms[i], vms[j].stack)
    && forall m :: i < m < j ==> vms[m].Running? && vms[m].current != id
  }

  predicate Straight(code: seq<Instr>, a: nat, b: nat) {
    b < |code|
    && (forall q :: a < q <= b ==> code[q].op != LABEL) && (forall q :: a <= q < b ==> code[q].op != FFRAME)
  }

  /** An activation that stands in straight-line code has come through it. */
  lemma {:induction false} Back(code: seq<Instr>, e: nat, stack: seq<real>, vms: seq<Vm>, chs: seq<Choice>, k: nat,
                                base: nat) returns (js: seq<nat>)
    requires NormalRun(code, e, stack, vms, chs) && k < |vms| && vms[k].Running? && base <= vms[k].pc
    requires Straight(code, base, vms[k].pc)
    ensures Path(code, vms, js, base) && |js| == vms[k].pc - base + 1 && js[|js| - 1] == k
    ensures Own(vms, js) == vms[k].current
    decreases vms[k].pc - base
  {
    hide Lawful, Balanced, Moves, Acts, Start, Levelled;
    RunInvariant(code, e, stack, vms, chs, k);
    if vms[k].pc == base {
      js := [k];
    } else {
      var j := Before(code, e, stack, vms, chs, k);
      js := Back(code, e, stack, vms, chs, j, base);
      assert OwnStep(code, vms, js[|js| - 1], k, Own(vms, js));
      js := js + [k];
    }
  }

  /** Code that is balanced from h operands on leaves what was below them. */
  lemma {:induction false} PathKeeps(code: seq<Instr>, vms: seq<Vm>, js: seq<nat>, base: nat, a: nat, b: nat, h: nat,
                                     below: seq<real>)
    requires Path(code, vms, js, base) && a <= b < |js|
    requires Through(code[base + a..base + b], Live(h)) != Bad
    requires Over(vms[js[a]].stack, below, h, true)
    ensures var f := Through(code[base + a..base + b], Live(h));
            f.Live? && Over(vms[js[b]].stack, below, f.height, true)
    decreases b - a
  {
    hide Through, OwnStep;
    var c := code[base + a..base + b];
    if a == b {
      NothingThrough(h);
    } else {
      var i := code[base + a];
      assert c == [i] + code[base + a + 1..base + b];
      ThroughConcat([i], code[base + a + 1..base + b], Live(h));
      ThroughOne(i, Live(h));
      if Onward(i, Live(h)) == Bad {
        BadStays(code[base + a + 1..base + b]);
      }
      assert ActiveAt(vms, js[a], Own(vms, js), base + a);
      StepActs(code, vms, js[a], js[a + 1], Own(vms, js));
      ActsOver(i, vms[js[a]], vms[js[a + 1]].stack, h, below);
      PathKeeps(code, vms, js, base, a + 1, b, Onward(i, Live(h)).height, below);
    }
  }

  lemma NothingThrough(h: nat)
    ensures Through([], Live(h)) == Live(h)
  {
  }

  lemma StepActs(code: seq<Instr>, vms: seq<Vm>, i: nat, j: nat, id: nat)
    requires OwnStep(code, vms, i, j, id)
    ensures i < j < |vms| && vms[i].Running? && vms[i].current < |vms[i].contexts| && vms[i].pc < |code|
    ensures vms[j].Running? && Acts(code[vms[i].pc], vms[i], vms[j].stack)
  {
  }

  lemma ActsOver(i: Instr, vm: Vm, stack: seq<real>, h: nat, below: seq<real>)
    requires vm.Running? && vm.current < |vm.contexts| && Acts(i, vm, stack)
    requires Over(vm.stack, below, h, true) && Onward(i, Live(h)) != Bad
    ensures Onward(i, Live(h)).Live? && Over(stack, below, Onward(i, Live(h)).height, true)
  {
  }

  /** Every sequence of normal choices is a run with such states. */
  lemma {:induction false} StatesOf(code: seq<Instr>, vm: Vm, chs: seq<Choice>) returns (vms: seq<Vm>)
    requires Possible(code, vm, chs) && AllNormally(code, vm, chs)
    ensures |vms| == |chs| + 1 && vms[0] == vm && vms[|chs|] == AfterAll(code, vm, chs)
    ensures forall k :: 0 <= k < |chs| ==> Moves(code, vms[k], chs[k], vms[k + 1])
    decreases |chs|
  {
    hide Can, Normally;
    if chs == [] {
      vms := [vm];
    } else {
      var next := Do(code, vm, chs[0]);
      var rest := StatesOf(code, next, chs[1..]);
      vms := [vm] + rest;
    }
  }
}
