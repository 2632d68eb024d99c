/** The operand stack over whole runs: in balanced code no activation takes anything from below
    its own operands, whatever is thrown; and while nothing is thrown, an activation returns with
    nothing of its own left. */
module StackRuns {
  import opened Options
  import opened Bytecode
  import opened Machine
  import opened Assembler
  import opened Places
  import opened StackCode
  import opened Vm

  /** The flow just before an instruction. */
  function FlowAt(code: seq<Instr>, pc: nat): Flow
    requires pc <= |code|
  {
    Through(code[..pc], Dead)
  }

  /** The operands of its own an activation has when it stands at pc. */
  function HeightAt(code: seq<Instr>, pc: nat): Option<nat>
    requires pc < |code|
  {
    if code[pc].op == LABEL then Some(LabelHeight(code[pc].r0))
    else if FlowAt(code, pc).Live? then Some(FlowAt(code, pc).height) else None
  }

  lemma FlowNext(code: seq<Instr>, pc: nat)
    requires pc < |code|
    ensures FlowAt(code, pc + 1) == Onward(code[pc], FlowAt(code, pc))
  {
    hide Onward;
    assert code[..pc + 1] == code[..pc] + [code[pc]];
    ThroughConcat(code[..pc], [code[pc]], Dead);
    ThroughOne(code[pc], FlowAt(code, pc));
  }

  lemma {:induction false} BadStays(c: seq<Instr>)
    ensures Through(c, Bad) == Bad
    decreases |c|
  {
    if c != [] {
      BadStays(c[1..]);
    }
  }

  lemma NeverBad(code: seq<Instr>, pc: nat)
    requires Balanced(code) && pc <= |code|
    ensures FlowAt(code, pc) != Bad
  {
    hide Through;
    assert code == code[..pc] + code[pc..];
    ThroughConcat(code[..pc], code[pc..], Dead);
    BadStays(code[pc..]);
  }

  /** An instruction finds the operands it takes. */
  lemma HeightServes(code: seq<Instr>, pc: nat)
    requires Balanced(code) && pc < |code| && HeightAt(code, pc).Some?
    ensures Onward(code[pc], Live(HeightAt(code, pc).value)) != Bad
  {
    hide Through, FlowAt;
    FlowNext(code, pc);
    NeverBad(code, pc);
    NeverBad(code, pc + 1);
  }

  /** What follows an instruction that stands at height k. */
  lemma HeightNext(code: seq<Instr>, pc: nat)
    requires Balanced(code) && pc + 1 < |code| && HeightAt(code, pc).Some?
    ensures var k, i := HeightAt(code, pc).value, code[pc];
            && Onward(i, Live(k)) != Bad
            && (Onward(i, Live(k)).Live? ==> HeightAt(code, pc + 1) == Some(Onward(i, Live(k)).height))
  {
    hide Through, FlowAt;
    FlowNext(code, pc);
    FlowNext(code, pc + 1);
    NeverBad(code, pc);
    NeverBad(code, pc + 1);
    NeverBad(code, pc + 2);
  }

  // ----- the invariant -----

  /** The stack holds the entry stack and k operands above it; or, when not exact, at least k. */
  ghost predicate Over(stack: seq<real>, entry: seq<real>, k: nat, exact: bool) {
    |entry| + k <= |stack| && stack[..|entry|] == entry && (exact ==> |stack| == |entry| + k)
  }

  /** An activation with k operands, and its callers with what the calls left them. */
  ghost predicate Level(code: seq<Instr>, contexts: seq<Context>, id: nat, k: nat, stack: seq<real>, exact: bool)
    decreases id
  {
    && id < |contexts| && Over(stack, contexts[id].entry, k, exact)
    && (contexts[id].caller.Some? ==>
          && contexts[id].caller.value < id && contexts[id].address < |code|
          && Calling(code, contexts[id].address)
          && Level(code, contexts, contexts[id].caller.value, Below(code, contexts[id].address), contexts[id].entry,
                   exact))
  }

  /** A call whose arguments are there. */
  predicate Calling(code: seq<Instr>, pc: nat)
    requires pc < |code|
  {
    && code[pc].op == CALL && code[pc].r2.Idx?
    && HeightAt(code, pc).Some? && code[pc].r2.n <= HeightAt(code, pc).value
  }

  /** The operands under the arguments of a call. */
  function Below(code: seq<Instr>, pc: nat): nat
    requires pc < |code| && Calling(code, pc)
  {
    HeightAt(code, pc).value - code[pc].r2.n
  }

  ghost predicate Levelled(code: seq<Instr>, vm: Vm, exact: bool) {
    vm.Running? ==>
      && vm.pc < |code| && HeightAt(code, vm.pc).Some?
      && Level(code, vm.contexts, vm.current, HeightAt(code, vm.pc).value, vm.stack, exact)
  }

  /** No exception, and calls elsewhere take exactly their arguments. */
  predicate Normally(code: seq<Instr>, vm: Vm, ch: Choice)
    requires Can(code, vm, ch)
  {
    match ch
    case Fail(_, _, _) => false
    case Elsewhere(_, taken, left) => taken == code[vm.pc].r2.n && left == []
    case _ => true
  }

  // ----- every step keeps it -----

  ghost predicate SameEntries(a: seq<Context>, b: seq<Context>, id: nat) {
    && id < |a| && id < |b|
    && forall j :: 0 <= j <= id ==>
         a[j].caller == b[j].caller && a[j].address == b[j].address && a[j].entry == b[j].entry
  }

  lemma {:induction false} LevelKept(code: seq<Instr>, a: seq<Context>, b: seq<Context>, id: nat, k: nat,
                                     stack: seq<real>, exact: bool)
    requires Level(code, a, id, k, stack, exact) && SameEntries(a, b, id)
    ensures Level(code, b, id, k, stack, exact)
    decreases id
  {
    hide Calling, Below, Over;
    if a[id].caller.Some? {
      LevelKept(code, a, b, a[id].caller.value, Below(code, a[id].address), a[id].entry, exact);
    }
  }

  /** The same activation with another stack over its entry. */
  lemma LevelMoved(code: seq<Instr>, a: seq<Context>, b: seq<Context>, id: nat, k: nat, k': nat, stack: seq<real>,
                   stack': seq<real>, exact: bool, exact': bool)
    requires Level(code, a, id, k, stack, exact) && SameEntries(a, b, id) && (exact' ==> exact)
    requires Over(stack', a[id].entry, k', exact')
    ensures Level(code, b, id, k', stack', exact')
  {
    hide Calling, Below, Over;
    LevelLoose(code, a, id, k, stack, exact, exact');
    if a[id].caller.Some? {
      LevelKept(code, a, b, a[id].caller.value, Below(code, a[id].address), a[id].entry, exact');
    }
  }

  lemma {:induction false} LevelLoose(code: seq<Instr>, contexts: seq<Context>, id: nat, k: nat, stack: seq<real>,
                                      exact: bool, exact': bool)
    requires Level(code, contexts, id, k, stack, exact) && (exact' ==> exact)
    ensures Level(code, contexts, id, k, stack, exact')
    decreases id
  {
    hide Calling, Below;
    if contexts[id].caller.Some? {
      LevelLoose(code, contexts, contexts[id].caller.value, Below(code, contexts[id].address), contexts[id].entry,
                 exact, exact');
    }
  }

  /** The instructions that stay in the activation and fall through, and what they leave. */
  lemma FallLevels(code: seq<Instr>, vm: Vm, ch: Choice, exact: bool)
    requires Balanced(code) && Can(code, vm, ch) && Levelled(code, vm, exact) && vm.pc + 1 < |code|
    requires (ch.Proceed? && code[vm.pc].op != RETURN) || ch.Elsewhere? || ch.Reach?
    ensures Levelled(code, Do(code, vm, ch), exact && Normally(code, vm, ch))
  {
    hide Through, FlowAt, HeightAt, Level;
    HeightNext(code, vm.pc);
    var k := HeightAt(code, vm.pc).value;
    var vm' := Do(code, vm, ch);
    var k' := Onward(code[vm.pc], Live(k)).height;
    assert Over(vm.stack, vm.contexts[vm.current].entry, k, exact) by {
      LevelOver(code, vm.contexts, vm.current, k, vm.stack, exact);
    }
    LevelMoved(code, vm.contexts, vm'.contexts, vm.current, k, k', vm.stack, vm'.stack, exact,
               exact && Normally(code, vm, ch));
  }

  lemma LevelOver(code: seq<Instr>, contexts: seq<Context>, id: nat, k: nat, stack: seq<real>, exact: bool)
    requires Level(code, contexts, id, k, stack, exact)
    ensures id < |contexts| && Over(stack, contexts[id].entry, k, exact)
    ensures contexts[id].caller.Some? ==>
      && contexts[id].caller.value < id && contexts[id].address < |code| && Calling(code, contexts[id].address)
      && Level(code, contexts, contexts[id].caller.value, Below(code, contexts[id].address), contexts[id].entry, exact)
  {
  }

  lemma JumpLevels(code: seq<Instr>, vm: Vm, exact: bool)
    requires Balanced(code) && Can(code, vm, Jump) && Levelled(code, vm, exact)
    ensures Levelled(code, Do(code, vm, Jump), exact)
  {
    hide Through, FlowAt, Level;
    HeightServes(code, vm.pc);
  }

  /** A return leaves the caller what was under the arguments: exactly that, or at least. */
  lemma ReturnLevels(code: seq<Instr>, vm: Vm, regs: Regs, exact: bool)
    requires Balanced(code) && Can(code, vm, Proceed(regs)) && Levelled(code, vm, exact)
    requires code[vm.pc].op == RETURN
    requires vm.contexts[vm.current].caller.Some? ==> vm.contexts[vm.current].address + 1 < |code|
    ensures Levelled(code, Do(code, vm, Proceed(regs)), exact)
  {
    hide Through, FlowAt, HeightAt, Level;
    var c := vm.contexts[vm.current];
    HeightServes(code, vm.pc);
    LevelOver(code, vm.contexts, vm.current, HeightAt(code, vm.pc).value, vm.stack, exact);
    if c.caller.Some? {
      var vm' := Do(code, vm, Proceed(regs));
      var f, k := c.caller.value, Below(code, c.address);
      HeightNext(code, c.address);
      LevelOver(code, vm.contexts, f, k, c.entry, exact);
      Stacked(vm.stack, c.entry, vm.contexts[f].entry, k, exact);
      LevelMoved(code, vm.contexts, vm'.contexts, f, k, k, c.entry, vm.stack, exact, exact);
    }
  }

  lemma Stacked(stack: seq<real>, middle: seq<real>, entry: seq<real>, k: nat, exact: bool)
    requires Over(stack, middle, 0, exact) && Over(middle, entry, k, exact)
    ensures Over(stack, entry, k, exact)
  {
    assert stack[..|entry|] == stack[..|middle|][..|entry|];
    if exact {
      assert stack[..|middle|] == stack;
    }
  }

  lemma InvokeLevels(code: seq<Instr>, vm: Vm, f: Word, exact: bool)
    requires Balanced(code) && Can(code, vm, Invoke(f)) && Levelled(code, vm, exact)
    requires HeaderOf(code, f).value + 1 < |code|
    ensures Levelled(code, Do(code, vm, Invoke(f)), exact)
  {
    hide Through, FlowAt, Translate, FrameRegs, HeaderOf, UnitOf;
    HeaderFound(code, f);
    HeightServes(code, vm.pc);
    var e, k, n := HeaderOf(code, f).value, HeightAt(code, vm.pc).value, code[vm.pc].r2.n;
    HeaderHeight(code, e);
    var vm' := Do(code, vm, Invoke(f));
    var entry := vm.stack[..|vm.stack| - n];
    LevelOver(code, vm.contexts, vm.current, k, vm.stack, exact);
    Under(vm.stack, vm.contexts[vm.current].entry, k, n, exact);
    LevelMoved(code, vm.contexts, vm'.contexts, vm.current, k, k - n, vm.stack, entry, exact, exact);
    LevelOver(code, vm'.contexts, vm.current, k - n, entry, exact);
    assert vm'.contexts[vm'.current].entry == entry && entry[..|entry|] == entry;
  }

  lemma Under(stack: seq<real>, entry: seq<real>, k: nat, n: nat, exact: bool)
    requires Over(stack, entry, k, exact) && n <= k
    ensures Over(stack[..|stack| - n], entry, k - n, exact)
  {
    assert stack[..|stack| - n][..|entry|] == stack[..|entry|];
  }

  lemma HeaderHeight(code: seq<Instr>, e: nat)
    requires Balanced(code) && e + 1 < |code| && code[e].op == FFRAME
    ensures HeightAt(code, e + 1) == Some(0)
  {
    hide Through, FlowAt;
    FlowNext(code, e);
    FlowNext(code, e + 1);
    NeverBad(code, e);
    NeverBad(code, e + 1);
    NeverBad(code, e + 2);
  }

  // ----- exceptions -----

  /** The activation that catches still has what was under its operands, and so have its callers. */
  lemma {:induction false} CatcherLevel(code: seq<Instr>, contexts: seq<Context>, id: nat, k: nat, stack: seq<real>)
    requires Level(code, contexts, id, k, stack, false)
    ensures var r := Catcher(contexts, id);
            r.Some? ==> Level(code, contexts, r.value, 0, stack, false)
    decreases id
  {
    hide Calling, Below, Over;
    var c := contexts[id];
    assert Over(stack, c.entry, 0, false) by {
      LessOver(stack, c.entry, k);
    }
    LevelMoved(code, contexts, contexts, id, k, 0, stack, stack, false, false);
    if HandlersOf(c) == [] && c.caller.Some? {
      var f := c.caller.value;
      LevelOver(code, contexts, f, Below(code, c.address), c.entry, false);
      LevelMoved(code, contexts, contexts, f, Below(code, c.address), Below(code, c.address), c.entry, stack, false,
                 false) by {
        Stacked(stack, c.entry, contexts[f].entry, Below(code, c.address), false);
      }
      CatcherLevel(code, contexts, f, Below(code, c.address), stack);
    }
  }

  lemma LessOver(stack: seq<real>, entry: seq<real>, k: nat)
    requires Over(stack, entry, k, false)
    ensures Over(stack, entry, 0, false)
  {
  }

  /** A registered handler has the name of a catch label: its message is expected there. */
  lemma HandlerExpects(code: seq<Instr>, i: nat)
    requires Lawful(code) && Balanced(code) && i <= |code| && PlaceAt(code, i).handlers != []
    ensures IsCatch(Top(PlaceAt(code, i).handlers))
  {
    hide Lawful, PlaceAt, Through;
    var k := HandlerRegistered(code, i);
  }

  lemma {:induction false} CatcherExpects(code: seq<Instr>, contexts: seq<Context>, id: nat, site: nat,
                                          entered: set<nat>)
    requires Lawful(code) && Balanced(code) && Chained(code, contexts, id, site, entered)
    ensures var r := Catcher(contexts, id);
            r.Some? ==> IsCatch(Top(HandlersOf(contexts[r.value])))
    decreases id
  {
    hide UnitOf, PlaceAt, Lawful, Balanced, IsCatch;
    if HandlersOf(contexts[id]) != [] {
      HandlerExpects(code, site);
    } else if contexts[id].caller.Some? {
      CatcherExpects(code, contexts, contexts[id].caller.value, contexts[id].address, entered);
    }
  }

  lemma ThrowLevels(code: seq<Instr>, vm: Vm, message: real, k: nat)
    requires Lawful(code) && Balanced(code) && vm.Running? && Invariant(code, vm)
    requires Level(code, vm.contexts, vm.current, k, vm.stack, false)
    ensures Levelled(code, Throw(code, vm, message), false)
  {
    hide Lawful, Balanced, TranslatedOnce, Level, HeightAt, Stands, UnitOf, PlaceAt, IsCatch;
    SavedCatches(vm);
    CatcherLevel(code, vm.contexts, vm.current, k, vm.stack);
    CatcherExpects(code, vm.contexts, vm.current, vm.pc, vm.entered);
    var vm' := Throw(code, vm, message);
    if vm'.Running? {
      LabelHeights(code, vm'.pc);
      LevelOver(code, vm.contexts, vm'.current, 0, vm.stack, false);
      LevelMoved(code, vm.contexts, vm'.contexts, vm'.current, 0, 1, vm.stack, vm.stack + [message], false, false);
    }
  }

  lemma LabelHeights(code: seq<Instr>, pc: nat)
    requires pc < |code| && code[pc].op == LABEL
    ensures HeightAt(code, pc) == Some(if IsCatch(code[pc].r0) then 1 else 0)
  {
  }

  lemma FailLevels(code: seq<Instr>, vm: Vm, message: real, taken: nat, left: seq<real>, exact: bool)
    requires Lawful(code) && Balanced(code) && Can(code, vm, Fail(message, taken, left)) && Invariant(code, vm)
    requires Levelled(code, vm, exact)
    ensures Levelled(code, Do(code, vm, Fail(message, taken, left)), false)
  {
    hide Lawful, Balanced, TranslatedOnce, Level, FlowAt, Stands, UnitOf, PlaceAt, Throw;
    HeightServes(code, vm.pc);
    var k := HeightAt(code, vm.pc).value;
    var from := (if code[vm.pc].op == THROW_EXCEPTION then vm.(saved := vm.current) else vm)
      .(stack := Dropped(vm.stack, taken) + left);
    LevelOver(code, vm.contexts, vm.current, k, vm.stack, exact);
    var below := Dropped(vm.stack, taken);
    assert below[..|vm.contexts[vm.current].entry|] == vm.stack[..|vm.contexts[vm.current].entry|];
    LevelMoved(code, vm.contexts, vm.contexts, vm.current, k, 0, vm.stack, from.stack, exact, false);
    ThrowLevels(code, from, message, 0);
  }

  // ----- whole runs -----

  lemma StepLevels(code: seq<Instr>, vm: Vm, ch: Choice, exact: bool)
    requires Lawful(code) && Balanced(code) && Can(code, vm, ch) && Invariant(code, vm) && Levelled(code, vm, exact)
    ensures Levelled(code, Do(code, vm, ch), exact && Normally(code, vm, ch))
  {
    hide Lawful, Balanced, Level, TranslatedOnce, HeightAt, UnitOf, PlaceAt, Do, Chained;
    ChainedStands(code, vm.contexts, vm.current, vm.pc, vm.entered);
    match ch
    case Proceed(regs) =>
      if code[vm.pc].op == RETURN {
        ReturnsInside(code, vm);
        ReturnLevels(code, vm, regs, exact);
      } else {
        FallStands(code, vm.pc);
        FallLevels(code, vm, ch, exact);
      }
    case Elsewhere(_, _, _) | Reach(_, _) =>
      FallStands(code, vm.pc);
      FallLevels(code, vm, ch, exact);
    case Jump => JumpLevels(code, vm, exact);
    case Fail(message, taken, left) => FailLevels(code, vm, message, taken, left, exact);
    case Invoke(f) =>
      HeaderFound(code, f);
      HeaderPlace(code, HeaderOf(code, f).value);
      InvokeLevels(code, vm, f, exact);
  }

  lemma ReturnsInside(code: seq<Instr>, vm: Vm)
    requires Lawful(code) && vm.Running? && Invariant(code, vm)
    ensures vm.contexts[vm.current].caller.Some? ==> vm.contexts[vm.current].address + 1 < |code|
  {
    hide Lawful, TranslatedOnce, UnitOf, PlaceAt;
    var c := vm.contexts[vm.current];
    if c.caller.Some? {
      ChainedStands(code, vm.contexts, c.caller.value, c.address, vm.entered);
      FallStands(code, c.address);
    }
  }

  /** Every step is a normal one. */
  predicate AllNormally(code: seq<Instr>, vm: Vm, chs: seq<Choice>)
    requires Possible(code, vm, chs)
    decreases |chs|
  {
    chs == [] || (Normally(code, vm, chs[0]) && AllNormally(code, Do(code, vm, chs[0]), chs[1..]))
  }

  lemma {:induction false} RunLevels(code: seq<Instr>, vm: Vm, chs: seq<Choice>, exact: bool)
    requires Lawful(code) && Balanced(code) && Invariant(code, vm) && Levelled(code, vm, exact)
    requires Possible(code, vm, chs)
    ensures Levelled(code, AfterAll(code, vm, chs), exact && AllNormally(code, vm, chs))
    ensures Invariant(code, AfterAll(code, vm, chs))
    decreases |chs|
  {
    hide Lawful, Balanced, Invariant, Levelled, Can, Do, Normally;
    if chs != [] {
      StepKeeps(code, vm, chs[0]);
      StepLevels(code, vm, chs[0], exact);
      RunLevels(code, Do(code, vm, chs[0]), chs[1..], exact && Normally(code, vm, chs[0]));
    }
  }

  lemma StartLevels(code: seq<Instr>, e: nat, stack: seq<real>)
    requires Lawful(code) && Balanced(code) && e < |code| && code[e].op == FFRAME
    ensures Levelled(code, Start(code, e, stack), true)
  {
    hide Lawful, Balanced, HeightAt, Translate, UnitOf, PlaceAt;
    HeaderPlace(code, e);
    HeaderHeight(code, e);
    assert stack[..|stack|] == stack;
  }

  /** In every run of lawful, balanced code, thrown through or not: what was on the stack when the
      current activation began is still there, and the instruction about to be dispatched finds
      its operands above that. While nothing was thrown, an activation returns with nothing of its
      own left there. */
  lemma EveryStack(code: seq<Instr>, e: nat, stack: seq<real>, chs: seq<Choice>)
    requires Lawful(code) && Balanced(code) && e < |code| && code[e].op == FFRAME
    requires Possible(code, Start(code, e, stack), chs)
    ensures var vm := AfterAll(code, Start(code, e, stack), chs);
            vm.Running? ==>
              && vm.current < |vm.contexts| && vm.pc < |code|
              && var entry := vm.contexts[vm.current].entry;
                 && |entry| <= |vm.stack| && vm.stack[..|entry|] == entry
                 && (code[vm.pc].op == POP ==> |entry| + 1 <= |vm.stack|)
                 && (code[vm.pc].op == CALL ==> code[vm.pc].r2.Idx? && |entry| + code[vm.pc].r2.n <= |vm.stack|)
                 && (code[vm.pc].op == RETURN && AllNormally(code, Start(code, e, stack), chs) ==> vm.stack == entry)
  {
    hide Lawful, Possible, Start, AfterAll, AllNormally, HeightAt, Through, Invariant;
    StartInvariant(code, e, stack);
    StartLevels(code, e, stack);
    RunLevels(code, Start(code, e, stack), chs, true);
    var vm := AfterAll(code, Start(code, e, stack), chs);
    if vm.Running? {
      HeightServes(code, vm.pc);
    }
  }
}
