/** The dispatch loop over a whole program (src/interpreter/interpreter_dd.c): activations calling
    each other, handlers, exceptions that leave activations, and frame headers that translate
    their function's opcodes when first executed. Which way a conditional jump goes, what a call
    calls, what an instruction leaves in registers, and whether it raises, is left open: the
    theorems hold for every choice. */
module Vm {
  import opened Options
  import opened Bytecode
  import opened Machine
  import opened Assembler
  import opened Places

  /** A frame. catches is missing until the first SET_CATCH; entry, which the interpreter does not
      keep, is the operand stack when its header had taken the arguments. */
  datatype Context = Context(caller: Option<nat>, address: nat, register: Word, catches: Option<seq<Word>>, regs: Regs,
                             entry: seq<real>)

  /** current is the loop's own variable; saved is the state's field, which lags behind. entered:
      the units whose frame header has translated its range. */
  datatype Vm =
    | Running(contexts: seq<Context>, current: nat, saved: nat, pc: nat, stack: seq<real>, translated: seq<nat>,
              entered: set<nat>)
    | Ended

  /** Elsewhere: a call of something else than a function run by this loop - native, asynchronous,
      of another instance, or a class - which takes some of the arguments off the stack and may
      leave more there. Reach: SET_FIELD writes a variable of some frame of the scope chain. */
  datatype Choice =
    | Proceed(regs: Regs)
    | Jump
    | Fail(message: real, taken: nat, left: seq<real>)
    | Invoke(callee: Word)
    | Elsewhere(regs: Regs, taken: nat, left: seq<real>)
    | Reach(frame: nat, regs: Regs)

  function HandlersOf(c: Context): seq<Word> { if c.catches.Some? then c.catches.value else [] }

  // ----- places by index -----

  function PlaceAt(code: seq<Instr>, i: nat): Place
    requires i <= |code|
  {
    After(code[..i], OUTSIDE)
  }

  lemma PlaceNext(code: seq<Instr>, i: nat)
    requires i < |code|
    ensures PlaceAt(code, i + 1) == Advance(code[i], PlaceAt(code, i))
  {
    assert code[..i + 1] == code[..i] + [code[i]];
    AfterConcat(code[..i], [code[i]], OUTSIDE);
    AfterOne(code[i], PlaceAt(code, i));
  }

  lemma Sliced(code: seq<Instr>, i: nat)
    requires i < |code|
    ensures code == code[..i] + [code[i]] + code[i + 1..]
  {
  }

  lemma LawAt(code: seq<Instr>, m: Marks, i: nat)
    requires i < |code| && Marked(code, OUTSIDE, m) && AllConsistent(code, OUTSIDE, m)
    ensures Consistent(code[i], PlaceAt(code, i), m)
    ensures code[i].op == LABEL ==> code[i].r0 in m && m[code[i].r0] == PlaceAt(code, i)
  {
    hide After;
    var a, b := code[..i], code[i + 1..];
    Sliced(code, i);
    MarkedConcat(a + [code[i]], b, OUTSIDE, m);
    MarkedConcat(a, [code[i]], OUTSIDE, m);
    ConsistentConcat(a + [code[i]], b, OUTSIDE, m);
    ConsistentConcat(a, [code[i]], OUTSIDE, m);
    OneConsistent(code[i], PlaceAt(code, i), m);
  }

  lemma ShutAt(code: seq<Instr>, i: nat)
    requires i < |code| && Shut(code, OUTSIDE, false) && IsClosing(code[i], PlaceAt(code, i))
    ensures i > 0 && code[i - 1].op == RETURN
  {
    hide After, Shut;
    var a, b := code[..i], code[i + 1..];
    Sliced(code, i);
    ShutConcat(a + [code[i]], b, OUTSIDE, false);
    ShutConcat(a, [code[i]], OUTSIDE, false);
    ShutOne(code[i], PlaceAt(code, i), LastReturns(a, false));
  }

  /** Every marked label is found, where the mark says. */
  lemma MarkFound(code: seq<Instr>, w: Word)
    requires Lawful(code) && w in MarksOf(code, OUTSIDE)
    ensures Find(code, w).Some? && MarksOf(code, OUTSIDE)[w] == PlaceAt(code, Find(code, w).value)
  {
    hide After, Marked, AllConsistent, Shut, UniqueLabels, MarksOf;
    MarksLabels(code, OUTSIDE, w);
    LawAt(code, MarksOf(code, OUTSIDE), Find(code, w).value);
  }

  /** Where a jump goes, or a handler starts. */
  function Destination(i: Instr): Word { if i.op == SET_CATCH then i.r0 else TargetOf(i) }

  /** A jump leads to a label in its own place; a handler starts just inside the region. */
  lemma TargetLands(code: seq<Instr>, i: nat)
    requires Lawful(code) && i < |code| && (IsJump(code[i].op) || code[i].op == SET_CATCH)
    ensures var w, p := Destination(code[i]), PlaceAt(code, i);
            var q := if code[i].op == SET_CATCH then p.(handlers := p.handlers + [w]) else p;
            Find(code, w).Some? && PlaceAt(code, Find(code, w).value) == q && !IsClosing(code[Find(code, w).value], q)
  {
    hide After, Marked, AllConsistent, Shut, UniqueLabels, MarksOf;
    LawAt(code, MarksOf(code, OUTSIDE), i);
    MarkFound(code, Destination(code[i]));
  }

  /** Standing inside a unit, and not at the label that closes it. */
  ghost predicate Stands(code: seq<Instr>, pc: nat) {
    pc < |code| && PlaceAt(code, pc).inside && !IsClosing(code[pc], PlaceAt(code, pc)) && code[pc].op != FFRAME
  }

  /** Falling through leads to another instruction of the unit. */
  lemma FallStands(code: seq<Instr>, pc: nat)
    requires Lawful(code) && Stands(code, pc) && code[pc].op != RETURN
    ensures Stands(code, pc + 1) && PlaceAt(code, pc + 1) == Advance(code[pc], PlaceAt(code, pc))
    ensures PlaceAt(code, pc + 1).unit == PlaceAt(code, pc).unit
  {
    hide After, Marked, AllConsistent, Shut, UniqueLabels, MarksOf;
    PlaceNext(code, pc);
    LawAt(code, MarksOf(code, OUTSIDE), pc);
    assert code[..|code|] == code;
    if pc + 1 < |code| {
      if IsClosing(code[pc + 1], PlaceAt(code, pc + 1)) {
        ShutAt(code, pc + 1);
      }
      LawAt(code, MarksOf(code, OUTSIDE), pc + 1);
    }
  }

  lemma TargetStands(code: seq<Instr>, i: nat)
    requires Lawful(code) && Stands(code, i) && (IsJump(code[i].op) || code[i].op == SET_CATCH)
    ensures Find(code, Destination(code[i])).Some? && Stands(code, Find(code, Destination(code[i])).value)
  {
    hide After, Marked, AllConsistent, Shut, UniqueLabels, MarksOf;
    TargetLands(code, i);
  }

  // ----- units and the ranges of frame headers -----

  function UnitOf(code: seq<Instr>, j: nat): nat
    requires j < |code|
  {
    if code[j].op == FFRAME then PlaceAt(code, j).unit + 1 else PlaceAt(code, j).unit
  }

  lemma PlaceBetween(code: seq<Instr>, i: nat, j: nat)
    requires i <= j <= |code|
    ensures PlaceAt(code, j) == After(code[i..j], PlaceAt(code, i))
  {
    assert code[..j] == code[..i] + code[i..j];
    AfterConcat(code[..i], code[i..j], OUTSIDE);
  }

  /** Later instructions are in the same unit or a later one; a unit once left is not entered
      again. */
  lemma UnitsInOrder(code: seq<Instr>, i: nat, j: nat)
    requires i <= j <= |code|
    ensures PlaceAt(code, i).unit <= PlaceAt(code, j).unit
    ensures !PlaceAt(code, i).inside && PlaceAt(code, j).unit == PlaceAt(code, i).unit ==> !PlaceAt(code, j).inside
  {
    hide After;
    PlaceBetween(code, i, j);
    UnitGrows(code[i..j], PlaceAt(code, i));
  }

  /** The range of a frame header: from itself to its end label. */
  predicate InRange(code: seq<Instr>, e: nat, j: nat)
    requires e < |code|
  {
    e <= j && Find(code, code[e].r2).Some? && j < Find(code, code[e].r2).value
  }

  /** The ranges of the frame headers partition the instructions: each is in the range of the
      one header that its unit has. */
  lemma RangeIsUnit(code: seq<Instr>, e: nat, j: nat)
    requires Lawful(code) && e < |code| && j < |code| && code[e].op == FFRAME && IsReal(code[j])
    ensures InRange(code, e, j) <==> UnitOf(code, j) == UnitOf(code, e)
  {
    hide After, Marked, AllConsistent, Shut, UniqueLabels, MarksOf;
    var m := MarksOf(code, OUTSIDE);
    var u := UnitOf(code, e);
    LawAt(code, m, e);
    LawAt(code, m, j);
    MarkFound(code, code[e].r2);
    var end := Find(code, code[e].r2).value;
    PlaceNext(code, e);
    PlaceNext(code, end);
    PlaceNext(code, j);
    if end <= e {
      UnitsInOrder(code, end, e);
    }
    if j < e {
      UnitsInOrder(code, j + 1, e);
    } else if j < end {
      UnitsInOrder(code, j + 1, end);
      if j > e {
        UnitsInOrder(code, e + 1, j);
      }
    } else if j > end {
      UnitsInOrder(code, end + 1, j);
    }
  }

  // ----- the machine -----

  /** The registers a frame header fills: argument i, from the top of the stack, becomes register
      i + 3; the count is on top. */
  function Arguments(stack: seq<real>, n: nat): Regs
    requires n <= |stack|
  {
    if n == 0 then map[] else Arguments(stack, n - 1)[n + 2 := stack[|stack| - n]]
  }

  /** All registers of a new frame: its arguments, and this, as the first context has it. */
  function FrameRegs(contexts: seq<Context>, stack: seq<real>, n: nat): Regs
    requires contexts != [] && n <= |stack|
  {
    Arguments(stack, n)[1 := Get(contexts[0].regs, Idx(1))]
  }

  /** Opcodes in the range of header e are translated. */
  function Translate(code: seq<Instr>, e: nat, translated: seq<nat>): seq<nat>
    requires e < |code| && |translated| == |code|
  {
    seq(|code|, (j: nat) requires j < |code| => translated[j] + if InRange(code, e, j) then 1 else 0)
  }

  /** Executing frame header e for a new activation called with n arguments. */
  function EnterFrame(code: seq<Instr>, e: nat, n: nat, vm: Vm): Vm
    requires vm.Running? && vm.current < |vm.contexts| && n <= |vm.stack| && e < |code| && |vm.translated| == |code|
  {
    var u := UnitOf(code, e);
    var rest := vm.stack[..|vm.stack| - n];
    var regs := FrameRegs(vm.contexts, vm.stack, n);
    vm.(contexts := vm.contexts[vm.current := vm.contexts[vm.current].(regs := regs, entry := rest)],
        stack := rest,
        pc := e + 1,
        translated := if u in vm.entered then vm.translated else Translate(code, e, vm.translated),
        entered := vm.entered + {u})
  }

  /** The position of the frame header of a function. */
  function HeaderOf(code: seq<Instr>, f: Word): Option<nat> {
    if Find(code, f).Some? && Find(code, f).value + 1 < |code| && code[Find(code, f).value + 1].op == FFRAME
    then Some(Find(code, f).value + 1) else None
  }

  /** Which activation catches an exception, looking outwards from id. */
  function Catcher(contexts: seq<Context>, id: nat): (r: Option<nat>)
    requires id < |contexts|
    ensures r.Some? ==> r.value <= id && HandlersOf(contexts[r.value]) != []
    decreases id
  {
    if HandlersOf(contexts[id]) != [] then Some(id)
    else if contexts[id].caller.Some? && contexts[id].caller.value < id
        then Catcher(contexts, contexts[id].caller.value)
    else None
  }

  function Top(ws: seq<Word>): Word
    requires ws != []
  {
    ws[|ws| - 1]
  }

  /** An exception is looked for from the saved context. Its message is left on the stack. */
  function Throw(code: seq<Instr>, vm: Vm, message: real): Vm
    requires vm.Running? && vm.saved < |vm.contexts|
  {
    match Catcher(vm.contexts, vm.saved)
    case None => Ended
    case Some(id) =>
      if Find(code, Top(HandlersOf(vm.contexts[id]))).None? then Ended
      else vm.(current := id, saved := id, pc := Find(code, Top(HandlersOf(vm.contexts[id]))).value,
               stack := vm.stack + [message])
  }

  predicate Controls(op: nat) {
    op == SET_CATCH || op == CLEAR_CATCH || op == RETURN || op == THROW_EXCEPTION || op == JMP || op == PUSH || op
        == POP || op == FFRAME
  }

  /** What the loop may do next. */
  predicate Can(code: seq<Instr>, vm: Vm, ch: Choice) {
    vm.Running? && vm.pc < |code| && vm.current < |vm.contexts| && vm.saved < |vm.contexts|
        && |vm.translated| == |code| &&
    var i := code[vm.pc];
    match ch
    case Proceed(_) =>
      && i.op != JMP && i.op != THROW_EXCEPTION && i.op != FFRAME && i.op != CALL
      && (i.op == POP ==> vm.stack != []) && (i.op == CLEAR_CATCH ==> HandlersOf(vm.contexts[vm.current]) != [])
      && (i.op == RETURN && vm.contexts[vm.current].caller.Some?
          ==> vm.contexts[vm.current].caller.value < |vm.contexts|)
    case Jump => IsJump(i.op) && Find(code, TargetOf(i)).Some?
    case Fail(_, taken, left) =>
      && (!Controls(i.op) || i.op == THROW_EXCEPTION)
      && if i.op == CALL then Takes(i, taken, vm.stack) else taken == 0 && left == []
    case Elsewhere(_, taken, _) => i.op == CALL && Takes(i, taken, vm.stack)
    case Reach(frame, _) => i.op == SET_FIELD && frame < |vm.contexts|
    case Invoke(f) => i.op == CALL && i.r2.Idx? && i.r2.n <= |vm.stack| && HeaderOf(code, f).Some?
  }

  /** No more than the arguments are taken off the stack. */
  predicate Takes(call: Instr, taken: nat, stack: seq<real>) {
    call.r2.Idx? && taken <= call.r2.n <= |stack|
  }

  function SetRegs(vm: Vm, id: nat, regs: Regs): Vm
    requires vm.Running? && id < |vm.contexts|
  {
    vm.(contexts := vm.contexts[id := vm.contexts[id].(regs := regs)])
  }

  function Dropped(stack: seq<real>, n: nat): seq<real>
    requires n <= |stack|
  {
    stack[..|stack| - n]
  }

  function Return(code: seq<Instr>, vm: Vm): Vm
    requires vm.Running? && vm.pc < |code| && vm.current < |vm.contexts|
    requires vm.contexts[vm.current].caller.Some? ==> vm.contexts[vm.current].caller.value < |vm.contexts|
  {
    var c := vm.contexts[vm.current];
    if c.caller.None? then Ended
    else
      var back := vm.(current := c.caller.value, saved := vm.current, pc := c.address + 1);
      SetRegs(back, back.current, Put(back.contexts[back.current].regs, c.register, Get(c.regs, code[vm.pc].r0)))
  }

  function Do(code: seq<Instr>, vm: Vm, ch: Choice): Vm
    requires Can(code, vm, ch)
  {
    var i, c := code[vm.pc], vm.contexts[vm.current];
    match ch
    case Jump => vm.(pc := Find(code, TargetOf(i)).value)
    case Fail(message, taken, left) =>
      var from := if i.op == THROW_EXCEPTION then vm.(saved := vm.current) else vm;
      Throw(code, from.(stack := Dropped(vm.stack, taken) + left), message)
    case Elsewhere(regs, taken, left) =>
      SetRegs(vm, vm.current, regs).(stack := Dropped(vm.stack, taken) + left, pc := vm.pc + 1)
    case Invoke(f) =>
      var callee := Context(Some(vm.current), vm.pc, i.r1, None, map[], []);
      EnterFrame(code, HeaderOf(code, f).value, i.r2.n,
                 vm.(contexts := vm.contexts + [callee], current := |vm.contexts|, saved := |vm.contexts|))
    case Reach(frame, regs) => SetRegs(vm, frame, regs).(pc := vm.pc + 1)
    case Proceed(regs) =>
      if i.op == SET_CATCH then
        vm.(contexts := vm.contexts[vm.current := c.(catches := Some(HandlersOf(c) + [i.r0]))],
            saved := if c.catches.None? then vm.current else vm.saved, pc := vm.pc + 1)
      else if i.op == CLEAR_CATCH then
        vm.(contexts := vm.contexts[vm.current := c.(catches := Some(HandlersOf(c)[..|HandlersOf(c)| - 1]))],
            pc := vm.pc + 1)
      else if i.op == RETURN then Return(code, vm)
      else if i.op == PUSH then vm.(stack := vm.stack + [Get(c.regs, i.r0)], pc := vm.pc + 1)
      else if i.op == POP then
        SetRegs(vm, vm.current, Put(c.regs, i.r0, vm.stack[|vm.stack| - 1])).(stack := vm.stack[..|vm.stack| - 1],
            pc := vm.pc + 1)
      else SetRegs(vm, vm.current, regs).(pc := vm.pc + 1)
  }

  /** The state after a choice. */
  function NextState(code: seq<Instr>, vm: Vm, ch: Choice): Vm
    requires Can(code, vm, ch)
  {
    Do(code, vm, ch)
  }

  /** A run starts at the frame header of a function, in a context nobody called. */
  function Start(code: seq<Instr>, e: nat, stack: seq<real>): Vm
    requires e < |code|
  {
    EnterFrame(code, e, 0, Running([Context(None, 0, NULL, None, map[], [])], 0, 0, e, stack, seq(|code|, j => 0), {}))
  }

  // ----- the invariant -----

  /** The activation, standing at a position, has the handlers of the try regions around it; and
      so have its callers, at their calls. */
  ghost predicate Chained(code: seq<Instr>, contexts: seq<Context>, id: nat, site: nat, entered: set<nat>)
    decreases id
  {
    && id < |contexts|
    && Stands(code, site) && UnitOf(code, site) in entered
    && HandlersOf(contexts[id]) == PlaceAt(code, site).handlers
    && (contexts[id].caller.Some? ==>
          && contexts[id].caller.value < id
          && contexts[id].address < |code| && code[contexts[id].address].op == CALL
          && Chained(code, contexts, contexts[id].caller.value, contexts[id].address, entered))
  }

  /** The saved context is the current one, or a finished callee of it without handlers. */
  ghost predicate SavedFits(vm: Vm)
    requires vm.Running?
  {
    && vm.saved < |vm.contexts|
    && (vm.saved != vm.current ==>
          vm.contexts[vm.saved].caller == Some(vm.current) && vm.current < vm.saved
              && HandlersOf(vm.contexts[vm.saved]) == [])
  }

  /** Opcodes are translated once in units that were entered, never in others. */
  ghost predicate TranslatedOnce(code: seq<Instr>, translated: seq<nat>, entered: set<nat>) {
    && |translated| == |code|
    && forall j :: 0 <= j < |code| && IsReal(code[j]) ==> translated[j] == if UnitOf(code, j) in entered then 1 else 0
  }

  ghost predicate Invariant(code: seq<Instr>, vm: Vm) {
    vm.Running? ==>
      && Chained(code, vm.contexts, vm.current, vm.pc, vm.entered)
      && SavedFits(vm)
      && TranslatedOnce(code, vm.translated, vm.entered)
  }

  // ----- every step keeps the invariant -----

  /** Contexts that differ in registers only, up to id. */
  ghost predicate SameChain(a: seq<Context>, b: seq<Context>, id: nat) {
    && id < |a| && id < |b|
    && forall k :: 0 <= k <= id ==>
         a[k].caller == b[k].caller && a[k].address == b[k].address && HandlersOf(a[k]) == HandlersOf(b[k])
  }

  lemma {:induction false} ChainedKept(code: seq<Instr>, a: seq<Context>, b: seq<Context>, id: nat, site: nat,
                                       entered: set<nat>, more: set<nat>)
    requires Chained(code, a, id, site, entered) && SameChain(a, b, id) && entered <= more
    ensures Chained(code, b, id, site, more)
    decreases id
  {
    hide Stands, UnitOf, PlaceAt;
    if a[id].caller.Some? {
      ChainedKept(code, a, b, a[id].caller.value, a[id].address, entered, more);
    }
  }

  /** The same activation at another place with the same handlers, or with new ones. */
  lemma ChainedMoved(code: seq<Instr>, a: seq<Context>, b: seq<Context>, id: nat, site: nat, site': nat,
                     entered: set<nat>)
    requires Chained(code, a, id, site, entered) && |b| == |a| && b[id].caller == a[id].caller
             && b[id].address == a[id].address
    requires forall k :: 0 <= k < id ==> b[k] == a[k]
    requires Stands(code, site') && UnitOf(code, site') in entered
             && HandlersOf(b[id]) == PlaceAt(code, site').handlers
    ensures Chained(code, b, id, site', entered)
  {
    hide Stands, UnitOf, PlaceAt;
    if a[id].caller.Some? {
      ChainedKept(code, a, b, a[id].caller.value, a[id].address, entered, entered);
    }
  }

  lemma FallPlace(code: seq<Instr>, pc: nat)
    requires Lawful(code) && Stands(code, pc) && code[pc].op != RETURN
    ensures Stands(code, pc + 1) && UnitOf(code, pc + 1) == UnitOf(code, pc)
    ensures var p, q := PlaceAt(code, pc).handlers, PlaceAt(code, pc + 1).handlers;
            && (code[pc].op == SET_CATCH ==> q == p + [code[pc].r0])
            && (code[pc].op == CLEAR_CATCH ==> p != [] && q == p[..|p| - 1])
            && (code[pc].op != SET_CATCH && code[pc].op != CLEAR_CATCH ==> q == p)
  {
    hide PlaceAt, Lawful;
    FallStands(code, pc);
    if code[pc].op == CLEAR_CATCH {
      ClearHandles(code, pc);
    }
  }

  lemma ClearHandles(code: seq<Instr>, pc: nat)
    requires Lawful(code) && pc < |code|
    ensures code[pc].op == CLEAR_CATCH ==> PlaceAt(code, pc).handlers != []
    ensures code[pc].op == RETURN ==> PlaceAt(code, pc).handlers == []
  {
    hide After, Marked, AllConsistent, Shut, UniqueLabels, MarksOf;
    LawAt(code, MarksOf(code, OUTSIDE), pc);
  }

  lemma FallKeeps(code: seq<Instr>, vm: Vm, regs: Regs)
    requires Lawful(code) && Can(code, vm, Proceed(regs)) && Invariant(code, vm) && code[vm.pc].op != RETURN
    ensures Invariant(code, Do(code, vm, Proceed(regs)))
  {
    hide Lawful, Stands, UnitOf, PlaceAt, TranslatedOnce;
    FallPlace(code, vm.pc);
    var vm' := Do(code, vm, Proceed(regs));
    ChainedMoved(code, vm.contexts, vm'.contexts, vm.current, vm.pc, vm.pc + 1, vm.entered);
  }

  lemma ElsewhereKeeps(code: seq<Instr>, vm: Vm, regs: Regs, taken: nat, left: seq<real>)
    requires Lawful(code) && Can(code, vm, Elsewhere(regs, taken, left)) && Invariant(code, vm)
    ensures Invariant(code, Do(code, vm, Elsewhere(regs, taken, left)))
  {
    hide Lawful, Stands, UnitOf, PlaceAt, TranslatedOnce;
    FallPlace(code, vm.pc);
    var vm' := Do(code, vm, Elsewhere(regs, taken, left));
    ChainedMoved(code, vm.contexts, vm'.contexts, vm.current, vm.pc, vm.pc + 1, vm.entered);
  }

  lemma ReachKeeps(code: seq<Instr>, vm: Vm, frame: nat, regs: Regs)
    requires Lawful(code) && Can(code, vm, Reach(frame, regs)) && Invariant(code, vm)
    ensures Invariant(code, Do(code, vm, Reach(frame, regs)))
  {
    hide Lawful, Stands, UnitOf, PlaceAt, TranslatedOnce;
    FallPlace(code, vm.pc);
    var vm' := Do(code, vm, Reach(frame, regs));
    ChainedKept(code, vm.contexts, vm'.contexts, vm.current, vm.pc, vm.entered, vm.entered);
    ChainedMoved(code, vm'.contexts, vm'.contexts, vm.current, vm.pc, vm.pc + 1, vm.entered);
  }

  lemma ChainedStands(code: seq<Instr>, contexts: seq<Context>, id: nat, site: nat, entered: set<nat>)
    requires Chained(code, contexts, id, site, entered)
    ensures Stands(code, site) && UnitOf(code, site) in entered
            && HandlersOf(contexts[id]) == PlaceAt(code, site).handlers
  {
  }

  lemma ReturnKeeps(code: seq<Instr>, vm: Vm, regs: Regs)
    requires Lawful(code) && Can(code, vm, Proceed(regs)) && Invariant(code, vm) && code[vm.pc].op == RETURN
    ensures Invariant(code, Do(code, vm, Proceed(regs)))
  {
    hide Lawful, Stands, UnitOf, PlaceAt, TranslatedOnce;
    var c := vm.contexts[vm.current];
    if c.caller.Some? {
      var f := c.caller.value;
      var vm' := Do(code, vm, Proceed(regs));
      ClearHandles(code, vm.pc);
      ChainedStands(code, vm.contexts, f, c.address, vm.entered);
      FallPlace(code, c.address);
      ChainedKept(code, vm.contexts, vm'.contexts, f, c.address, vm.entered, vm.entered);
      ChainedMoved(code, vm'.contexts, vm'.contexts, f, c.address, c.address + 1, vm.entered);
    }
  }

  lemma JumpKeeps(code: seq<Instr>, vm: Vm)
    requires Lawful(code) && Can(code, vm, Jump) && Invariant(code, vm)
    ensures Invariant(code, Do(code, vm, Jump))
  {
    hide Lawful, Stands, UnitOf, TranslatedOnce;
    JumpPlace(code, vm.pc);
    ChainedMoved(code, vm.contexts, vm.contexts, vm.current, vm.pc, Find(code, TargetOf(code[vm.pc])).value,
                 vm.entered);
  }

  lemma JumpPlace(code: seq<Instr>, pc: nat)
    requires Lawful(code) && Stands(code, pc) && IsJump(code[pc].op)
    ensures Find(code, TargetOf(code[pc])).Some?
    ensures var q := Find(code, TargetOf(code[pc])).value;
            Stands(code, q) && UnitOf(code, q) == UnitOf(code, pc)
                && PlaceAt(code, q).handlers == PlaceAt(code, pc).handlers
  {
    hide PlaceAt, Lawful;
    TargetStands(code, pc);
    TargetLands(code, pc);
  }

  // ----- exceptions -----

  /** Some SET_CATCH registers the innermost handler for the region around i, which is in the same unit. */
  lemma {:induction false} HandlerRegistered(code: seq<Instr>, i: nat) returns (k: nat)
    requires Lawful(code) && i <= |code| && PlaceAt(code, i).handlers != []
    ensures k < i && code[k].op == SET_CATCH && code[k].r0 == Top(PlaceAt(code, i).handlers)
    ensures PlaceAt(code, k).handlers + [code[k].r0] == PlaceAt(code, i).handlers
    ensures PlaceAt(code, k).unit == PlaceAt(code, i).unit
  {
    hide PlaceAt, Lawful;
    StartsOutside(code);
    var j := i - 1;
    PlaceNext(code, j);
    HeaderHandles(code, j);
    if code[j].op == SET_CATCH {
      k := j;
    } else if code[j].op == CLEAR_CATCH {
      ClearHandles(code, j);
      var outer := HandlerRegistered(code, j);
      k := HandlerRegistered(code, outer);
    } else {
      k := HandlerRegistered(code, j);
    }
  }

  lemma StartsOutside(code: seq<Instr>)
    ensures PlaceAt(code, 0) == OUTSIDE
  {
    assert code[..0] == [];
  }

  lemma HeaderHandles(code: seq<Instr>, j: nat)
    requires Lawful(code) && j < |code|
    ensures code[j].op == FFRAME ==> PlaceAt(code, j).handlers == []
    ensures code[j].op == SET_CATCH ==> PlaceAt(code, j).inside
  {
    hide After, Marked, AllConsistent, Shut, UniqueLabels, MarksOf;
    LawAt(code, MarksOf(code, OUTSIDE), j);
  }

  /** The innermost handler around a position starts in the same unit, with the same handlers
      registered. */
  lemma HandlerPlace(code: seq<Instr>, i: nat)
    requires Lawful(code) && Stands(code, i) && PlaceAt(code, i).handlers != []
    ensures var w := Top(PlaceAt(code, i).handlers);
            Find(code, w).Some? && Stands(code, Find(code, w).value)
                && UnitOf(code, Find(code, w).value) == UnitOf(code, i)
            && PlaceAt(code, Find(code, w).value).handlers == PlaceAt(code, i).handlers
  {
    hide PlaceAt, Lawful;
    var k := HandlerRegistered(code, i);
    HeaderHandles(code, k);
    TargetLands(code, k);
  }

  // ----- the innermost dynamic handler -----

  /** The handlers that are open, outermost first, each with its activation: those of the try
      regions around the calls that lead to id, and around its own position. This does not look
      at any list of registered handlers. */
  ghost function Dynamic(code: seq<Instr>, contexts: seq<Context>, id: nat, site: nat): seq<(nat, Word)>
    requires id < |contexts| && site < |code|
    decreases id
  {
    var c := contexts[id];
    (if c.caller.Some? && c.caller.value < id && c.address < |code|
     then Dynamic(code, contexts, c.caller.value, c.address) else [])
    + Owned(id, PlaceAt(code, site).handlers)
  }

  function Owned(id: nat, ws: seq<Word>): (r: seq<(nat, Word)>)
    ensures |r| == |ws|
    ensures ws != [] ==> r[|r| - 1] == (id, ws[|ws| - 1])
  {
    seq(|ws|, (k: nat) requires k < |ws| => (id, ws[k]))
  }

  /** The search from an activation finds the innermost dynamic handler, and where it starts is
      a proper place to go on for the activation it belongs to. */
  lemma {:induction false} CatcherIsInnermost(code: seq<Instr>, contexts: seq<Context>, id: nat, site: nat,
                                              entered: set<nat>)
    requires Lawful(code) && Chained(code, contexts, id, site, entered)
    ensures var ds, r := Dynamic(code, contexts, id, site), Catcher(contexts, id);
            && (ds == [] <==> r.None?)
            && (r.Some? ==>
                  && ds[|ds| - 1] == (r.value, Top(HandlersOf(contexts[r.value])))
                  && var at := Find(code, Top(HandlersOf(contexts[r.value])));
                     at.Some? && Chained(code, contexts, r.value, at.value, entered))
    decreases id
  {
    hide Stands, UnitOf, PlaceAt, Lawful;
    var c := contexts[id];
    if HandlersOf(c) != [] {
      HandlerPlace(code, site);
      ChainedMoved(code, contexts, contexts, id, site, Find(code, Top(HandlersOf(c))).value, entered);
    } else if c.caller.Some? {
      CatcherIsInnermost(code, contexts, c.caller.value, c.address, entered);
    }
  }

  /** The search may start at the saved context instead of the current one. */
  lemma SavedCatches(vm: Vm)
    requires vm.Running? && vm.current < |vm.contexts| && SavedFits(vm)
    ensures Catcher(vm.contexts, vm.saved) == Catcher(vm.contexts, vm.current)
  {
  }

  /** In a state that meets the invariant, an exception resumes at the innermost dynamic handler,
      in the activation that opened it, and ends the run if and only if there is none. */
  lemma ThrowLands(code: seq<Instr>, vm: Vm, message: real)
    requires Lawful(code) && vm.Running? && Invariant(code, vm)
    ensures var ds, vm' := Dynamic(code, vm.contexts, vm.current, vm.pc), Throw(code, vm, message);
            && Invariant(code, vm')
            && (ds == [] <==> vm'.Ended?)
            && (ds != [] ==> Find(code, ds[|ds| - 1].1) == Some(vm'.pc) && vm'.current == ds[|ds| - 1].0)
  {
    hide Stands, UnitOf, PlaceAt, Lawful, TranslatedOnce;
    CatcherIsInnermost(code, vm.contexts, vm.current, vm.pc, vm.entered);
    SavedCatches(vm);
  }

  lemma FailKeeps(code: seq<Instr>, vm: Vm, message: real, taken: nat, left: seq<real>)
    requires Lawful(code) && Can(code, vm, Fail(message, taken, left)) && Invariant(code, vm)
    ensures Invariant(code, Do(code, vm, Fail(message, taken, left)))
  {
    hide Stands, UnitOf, PlaceAt, Lawful, TranslatedOnce, Chained;
    var from := if code[vm.pc].op == THROW_EXCEPTION then vm.(saved := vm.current) else vm;
    ThrowLands(code, from.(stack := Dropped(vm.stack, taken) + left), message);
  }

  // ----- calls -----

  lemma HeaderPlace(code: seq<Instr>, e: nat)
    requires Lawful(code) && e < |code| && code[e].op == FFRAME
    ensures Stands(code, e + 1) && UnitOf(code, e + 1) == UnitOf(code, e) && PlaceAt(code, e + 1).handlers == []
  {
    hide After, Marked, AllConsistent, Shut, UniqueLabels, MarksOf;
    PlaceNext(code, e);
    HeaderHandles(code, e);
    assert code[..|code|] == code;
    if e + 1 < |code| {
      LawAt(code, MarksOf(code, OUTSIDE), e + 1);
      if IsClosing(code[e + 1], PlaceAt(code, e + 1)) {
        ShutAt(code, e + 1);
      }
    }
  }

  /** A frame header translates exactly the instructions of its unit. */
  lemma TranslateKeeps(code: seq<Instr>, e: nat, translated: seq<nat>, entered: set<nat>)
    requires Lawful(code) && e < |code| && code[e].op == FFRAME && TranslatedOnce(code, translated, entered)
    ensures var u := UnitOf(code, e);
            TranslatedOnce(code, if u in entered then translated else Translate(code, e, translated), entered + {u})
  {
    hide Lawful, UnitOf, InRange;
    var u := UnitOf(code, e);
    if u !in entered {
      forall j | 0 <= j < |code| && IsReal(code[j])
        ensures Translate(code, e, translated)[j] == if UnitOf(code, j) in entered + {u} then 1 else 0
      {
        RangeIsUnit(code, e, j);
      }
    }
  }

  lemma InvokeKeeps(code: seq<Instr>, vm: Vm, f: Word)
    requires Lawful(code) && Can(code, vm, Invoke(f)) && Invariant(code, vm)
    ensures Invariant(code, Do(code, vm, Invoke(f)))
  {
    hide Lawful, Stands, UnitOf, PlaceAt, TranslatedOnce, Translate, FrameRegs, HeaderOf;
    HeaderFound(code, f);
    var e := HeaderOf(code, f).value;
    var vm' := Do(code, vm, Invoke(f));
    HeaderPlace(code, e);
    TranslateKeeps(code, e, vm.translated, vm.entered);
    ChainedKept(code, vm.contexts, vm'.contexts, vm.current, vm.pc, vm.entered, vm'.entered);
  }

  lemma HeaderFound(code: seq<Instr>, f: Word)
    requires HeaderOf(code, f).Some?
    ensures HeaderOf(code, f).value < |code| && code[HeaderOf(code, f).value].op == FFRAME
  {
  }

  lemma StartInvariant(code: seq<Instr>, e: nat, stack: seq<real>)
    requires Lawful(code) && e < |code| && code[e].op == FFRAME
    ensures Invariant(code, Start(code, e, stack))
  {
    hide Lawful, Stands, PlaceAt, Translate;
    HeaderPlace(code, e);
    TranslateKeeps(code, e, seq(|code|, j => 0), {});
  }

  lemma StepKeeps(code: seq<Instr>, vm: Vm, ch: Choice)
    requires Lawful(code) && Can(code, vm, ch) && Invariant(code, vm)
    ensures Invariant(code, Do(code, vm, ch))
  {
    hide Lawful, Do, Invariant;
    match ch
    case Proceed(regs) =>
      if code[vm.pc].op == RETURN {
        ReturnKeeps(code, vm, regs);
      } else {
        FallKeeps(code, vm, regs);
      }
    case Jump => JumpKeeps(code, vm);
    case Fail(message, taken, left) => FailKeeps(code, vm, message, taken, left);
    case Elsewhere(regs, taken, left) => ElsewhereKeeps(code, vm, regs, taken, left);
    case Reach(frame, regs) => ReachKeeps(code, vm, frame, regs);
    case Invoke(f) => InvokeKeeps(code, vm, f);
  }

  // ----- whole runs -----

  predicate Possible(code: seq<Instr>, vm: Vm, chs: seq<Choice>)
    decreases |chs|
  {
    chs == [] || (Can(code, vm, chs[0]) && Possible(code, Do(code, vm, chs[0]), chs[1..]))
  }

  function AfterAll(code: seq<Instr>, vm: Vm, chs: seq<Choice>): Vm
    requires Possible(code, vm, chs)
    decreases |chs|
  {
    if chs == [] then vm else AfterAll(code, Do(code, vm, chs[0]), chs[1..])
  }

  lemma {:induction false} RunKeeps(code: seq<Instr>, vm: Vm, chs: seq<Choice>)
    requires Lawful(code) && Invariant(code, vm) && Possible(code, vm, chs)
    ensures Invariant(code, AfterAll(code, vm, chs))
    decreases |chs|
  {
    hide Lawful, Invariant, Can, Do;
    if chs != [] {
      StepKeeps(code, vm, chs[0]);
      RunKeeps(code, Do(code, vm, chs[0]), chs[1..]);
    }
  }

  /** In every run of a lawful program: the current frame's registered handlers are those of the
      try regions around its instruction, and each waiting caller's those around its call; an
      exception now would resume at the innermost dynamic handler; and the instruction about to be
      dispatched is no frame header, and has had its opcode translated exactly once. */
  lemma EveryRun(code: seq<Instr>, e: nat, stack: seq<real>, chs: seq<Choice>, message: real)
    requires Lawful(code) && e < |code| && code[e].op == FFRAME && Possible(code, Start(code, e, stack), chs)
    ensures var vm := AfterAll(code, Start(code, e, stack), chs);
            vm.Running? ==>
              && vm.current < |vm.contexts| && vm.saved < |vm.contexts| && vm.pc < |code| && |vm.translated| == |code|
              && HandlersOf(vm.contexts[vm.current]) == PlaceAt(code, vm.pc).handlers
              && Chained(code, vm.contexts, vm.current, vm.pc, vm.entered)
              && code[vm.pc].op != FFRAME && (IsReal(code[vm.pc]) ==> vm.translated[vm.pc] == 1)
              && var ds, vm' := Dynamic(code, vm.contexts, vm.current, vm.pc), Throw(code, vm, message);
                 && (ds == [] <==> vm'.Ended?)
                 && (ds != [] ==> vm'.current == ds[|ds| - 1].0 && Some(vm'.pc) == Find(code, ds[|ds| - 1].1))
  {
    hide Lawful, UnitOf, PlaceAt, Throw, Start, Possible, AfterAll;
    StartInvariant(code, e, stack);
    RunKeeps(code, Start(code, e, stack), chs);
    var vm := AfterAll(code, Start(code, e, stack), chs);
    if vm.Running? {
      ThrowLands(code, vm, message);
    }
  }

  // ----- arguments -----

  /** Argument i, counted from the top of the stack, is put into register i + 3. */
  lemma {:induction false} ArgumentAt(stack: seq<real>, n: nat, i: nat)
    requires i < n <= |stack|
    ensures i + 3 in Arguments(stack, n) && Arguments(stack, n)[i + 3] == stack[|stack| - 1 - i]
  {
    if i < n - 1 {
      ArgumentAt(stack, n - 1, i);
    }
  }

  lemma {:induction false} ArgumentKeys(stack: seq<real>, n: nat)
    requires n <= |stack|
    ensures forall q: nat :: q in Arguments(stack, n) <==> 3 <= q < n + 3
  {
    if n > 0 {
      ArgumentKeys(stack, n - 1);
    }
  }

  /** A new frame: this in register 1, argument i in register i + 3, and nothing else. */
  lemma FrameHolds(contexts: seq<Context>, stack: seq<real>, n: nat)
    requires contexts != [] && n <= |stack|
    ensures var regs := FrameRegs(contexts, stack, n);
            && Get(regs, Idx(1)) == Get(contexts[0].regs, Idx(1))
            && forall q: nat :: q != 1 ==>
                 Get(regs, Idx(q)) == if 3 <= q < n + 3 then stack[|stack| + 2 - q] else 0.0
  {
    hide Arguments;
    ArgumentKeys(stack, n);
    forall q: nat | 3 <= q < n + 3
      ensures Get(FrameRegs(contexts, stack, n), Idx(q)) == stack[|stack| + 2 - q]
    {
      ArgumentAt(stack, n, q - 3);
    }
  }
}
