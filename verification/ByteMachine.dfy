/** One activation of the interpreter over the byte image, and its agreement with the labelled
    machine. */
module ByteMachine {
  import opened Options
  import opened Bytecode
  import opened Machine
  import opened Assembler
  import opened AssemblerProof

  function ByteLand(ip: nat, e: Effect): State {
    match e
    case Fall(d) => At(ip + 32, d)
    case Goto(w, d) => ByteResume(w, d)
    case Leave(v, d) => Done(Returned(v), d.trace)
    case Raise(f, d) =>
      if d.catches == [] then Done(Uncaught(f), d.trace)
      else ByteResume(d.catches[|d.catches| - 1], d.(trace := d.trace + [Caught(f)]))
    case Escape(d) => Done(OutOfModel, d.trace)
  }

  function ByteResume(w: Word, d: Data): State { if w.Idx? then At(w.n, d) else Done(Stuck, d.trace) }

  function ByteStep(env: Env, nv: nat, b: Bytes, s: State): State {
    match s
    case Done(_, _) => s
    case At(ip, d) =>
      match Fetch(b, ip)
      case None => Done(Stuck, d.trace)
      case Some(i) => ByteLand(ip, Exec(env, nv, i, d))
  }

  ghost function ByteRun(env: Env, nv: nat, b: Bytes, s: State, n: nat): State
    decreases n
  {
    if n == 0 then s else ByteRun(env, nv, b, ByteStep(env, nv, b, s), n - 1)
  }

  ghost predicate ByteHalts(env: Env, nv: nat, b: Bytes, s: State, o: Outcome, trace: seq<Observation>) {
    exists n: nat :: ByteRun(env, nv, b, s, n) == Done(o, trace)
  }

  lemma {:induction false} ByteRunDone(env: Env, nv: nat, b: Bytes, s: State, n: nat)
    requires s.Done?
    ensures ByteRun(env, nv, b, s, n) == s
    decreases n
  {
    if n != 0 {
      ByteRunDone(env, nv, b, s, n - 1);
    }
  }

  lemma {:induction false} ByteRunSum(env: Env, nv: nat, b: Bytes, s: State, m: nat, n: nat)
    ensures ByteRun(env, nv, b, s, m + n) == ByteRun(env, nv, b, ByteRun(env, nv, b, s, m), n)
    decreases m
  {
    if m != 0 {
      ByteRunSum(env, nv, b, ByteStep(env, nv, b, s), m - 1, n);
    }
  }

  // ----- the labelled view of a byte state -----

  type Places = map<string, nat>

  function PlacedObservation(m: Places, x: Observation): Observation {
    match x
    case Ran(i, args, vars) => Ran(Resolved(m, i), args, vars)
    case Caught(_) => x
  }

  function PlacedTrace(m: Places, t: seq<Observation>): (r: seq<Observation>)
    ensures |r| == |t|
  {
    seq(|t|, (k: nat) requires k < |t| => PlacedObservation(m, t[k]))
  }

  function PlacedCatches(m: Places, ws: seq<Word>): (r: seq<Word>)
    ensures |r| == |ws|
  {
    seq(|ws|, (k: nat) requires k < |ws| => Position(m, ws[k]))
  }

  function PlacedData(m: Places, d: Data): Data {
    Data(d.regs, PlacedCatches(m, d.catches), PlacedTrace(m, d.trace))
  }

  /** The environment of the byte machine, seen by the labelled machine: function references
      are made from addresses, all other operands are what the labelled code says. */
  function Labelling(env: Env, m: Places): Env {
    (t: seq<Observation>, x: Observation) => env(PlacedTrace(m, t), PlacedObservation(m, x))
  }

  function PlacedEffect(m: Places, e: Effect): Effect {
    match e
    case Fall(d) => Fall(PlacedData(m, d))
    case Goto(w, d) => Goto(Position(m, w), PlacedData(m, d))
    case Leave(v, d) => Leave(v, PlacedData(m, d))
    case Raise(f, d) => Raise(f, PlacedData(m, d))
    case Escape(d) => Escape(PlacedData(m, d))
  }

  lemma TraceGrows(m: Places, t: seq<Observation>, x: Observation)
    ensures PlacedTrace(m, t + [x]) == PlacedTrace(m, t) + [PlacedObservation(m, x)]
  {
  }

  lemma CatchesGrow(m: Places, ws: seq<Word>, w: Word)
    ensures PlacedCatches(m, ws + [w]) == PlacedCatches(m, ws) + [Position(m, w)]
  {
  }

  lemma CatchesShrink(m: Places, ws: seq<Word>)
    requires ws != []
    ensures PlacedCatches(m, ws[..|ws| - 1]) == PlacedCatches(m, ws)[..|ws| - 1]
  {
  }

  lemma ResolvedOperands(m: Places, i: Instr)
    ensures var r := Resolved(m, i);
            && r.op == i.op && Args(r) == Args(i) && Dests(r) == Dests(i)
            && (i.op == JMP || i.op == SET_CATCH ==> r.r0 == Position(m, i.r0))
            && (IsTestJump(i.op) ==> r.r0 == i.r0 && r.r1 == Position(m, i.r1))
            && (IsCompareJump(i.op) || IsImmediateJump(i.op) ==>
                  r.r0 == i.r0 && r.r1 == i.r1 && r.r2 == Position(m, i.r2))
            && (!IsJump(i.op) && i.op != SET_CATCH && i.op != MOV_FNC && i.op != FFRAME ==> r == i)
  {
  }

  lemma ReactPlaced(env: Env, nv: nat, m: Places, i: Instr, d: Data)
    requires IsExternal(i.op)
    ensures React(env, nv, Resolved(m, i), PlacedData(m, d)) == PlacedEffect(m, React(Labelling(env, m), nv, i, d))
  {
    hide Resolved, Dests, Args;
    ResolvedOperands(m, i);
    var r := Resolved(m, i);
    var seen := Ran(i, ArgValues(i, d), Vars(d.regs, nv));
    assert ArgValues(r, PlacedData(m, d)) == ArgValues(i, d);
    TraceGrows(m, d.trace, seen);
  }

  /** A resolved instruction does to the byte state what the instruction does to the labelled. */
  lemma ExecPlaced(env: Env, nv: nat, m: Places, i: Instr, d: Data)
    ensures Exec(env, nv, Resolved(m, i), PlacedData(m, d)) == PlacedEffect(m, Exec(Labelling(env, m), nv, i, d))
  {
    hide React, Resolved, PlacedTrace, PlacedCatches, Position, Holds, Args, Dests, Fmod;
    ResolvedOperands(m, i);
    if IsExternal(i.op) {
      ReactPlaced(env, nv, m, i, d);
    } else if i.op == SET_CATCH {
      CatchesGrow(m, d.catches, i.r0);
    } else if i.op == CLEAR_CATCH {
      if d.catches != [] {
        CatchesShrink(m, d.catches);
      }
    } else if IsJump(i.op) {
      JumpPlaced(env, nv, m, i, d);
    } else {
      PlainPlaced(env, nv, m, i, d);
    }
  }

  lemma JumpPlaced(env: Env, nv: nat, m: Places, i: Instr, d: Data)
    requires IsJump(i.op)
    ensures Exec(env, nv, Resolved(m, i), PlacedData(m, d)) == PlacedEffect(m, Exec(Labelling(env, m), nv, i, d))
  {
    hide Resolved, PlacedTrace, PlacedCatches, Position, Holds, Args, Dests, React;
    ResolvedOperands(m, i);
  }

  lemma PlainPlaced(env: Env, nv: nat, m: Places, i: Instr, d: Data)
    requires !IsExternal(i.op) && !IsJump(i.op) && i.op != SET_CATCH && i.op != CLEAR_CATCH
    ensures Exec(env, nv, Resolved(m, i), PlacedData(m, d)) == PlacedEffect(m, Exec(Labelling(env, m), nv, i, d))
  {
    hide Resolved, PlacedTrace, PlacedCatches, Position, Holds, Args, Dests, React, Fmod;
    ResolvedOperands(m, i);
  }

  // ----- simulation -----

  /** Programs the image of which can be run. */
  ghost predicate Loadable(code: seq<Instr>) { AllStorable(code) && UniqueLabels(code) && Tabled(code) }

  ghost predicate Corresponds(code: seq<Instr>, s: State, s': State)
    requires Loadable(code)
  {
    match s
    case At(pc, d) => pc <= |code| && s' == At(Address(code, pc), PlacedData(LabelMap(code), d))
    case Done(o, t) => s' == Done(o, PlacedTrace(LabelMap(code), t))
  }

  lemma ResumeCorresponds(code: seq<Instr>, w: Word, d: Data)
    requires Loadable(code) && Find(code, w).Some?
    ensures Corresponds(code, Resume(code, w, d),
                        ByteResume(Position(LabelMap(code), w), PlacedData(LabelMap(code), d)))
  {
    hide PlacedData, Address, LabelMap, UniqueLabels, Find, Position;
    LabelResolved(code, w);
    FindBounds(code, w);
  }

  lemma FindBounds(code: seq<Instr>, w: Word)
    requires Find(code, w).Some?
    ensures Find(code, w).value < |code|
  {
  }

  lemma LandCorresponds(code: seq<Instr>, pc: nat, e: Effect)
    requires Loadable(code) && pc < |code| && IsReal(code[pc]) && !IsStuck(Land(code, pc, e))
    ensures Corresponds(code, Land(code, pc, e), ByteLand(Address(code, pc), PlacedEffect(LabelMap(code), e)))
  {
    hide Address, LabelMap, UniqueLabels, Position, PlacedTrace, AllStorable, Tabled;
    var m := LabelMap(code);
    match e
    case Fall(d) => AddressNext(code, pc);
    case Goto(w, d) => ResumeCorresponds(code, w, d);
    case Raise(f, d) =>
      if d.catches != [] {
        TraceGrows(m, d.trace, Caught(f));
        ResumeCorresponds(code, d.catches[|d.catches| - 1], d.(trace := d.trace + [Caught(f)]));
      }
    case _ =>
  }

  /** One step of the byte machine is a step of the labelled one, after any labels. */
  lemma {:induction false} SimulateByte(env: Env, nv: nat, code: seq<Instr>, s: State, s': State) returns (n: nat)
    requires Loadable(code) && Corresponds(code, s, s')
    requires forall k: nat :: !IsStuck(Run(Labelling(env, LabelMap(code)), nv, code, s, k))
    ensures n >= 1
    ensures Corresponds(code, Run(Labelling(env, LabelMap(code)), nv, code, s, n), ByteStep(env, nv, Image(code), s'))
    decreases if s.At? then |code| - s.pc else 0
  {
    hide AllStorable, UniqueLabels, Tabled, Exec, Fetch, Image, LabelMap, Labelling, Address, PlacedData, IsReal, Find;
    var l := Labelling(env, LabelMap(code));
    n := 1;
    RunOne(l, nv, code, s);
    if s.Done? {
      return;
    }
    var pc, d := s.pc, s.d;
    assert !IsStuck(Run(l, nv, code, s, 1));
    if IsReal(code[pc]) {
      RealStep(env, nv, code, pc, d);
    } else {
      SkippedStep(env, nv, code, pc, d);
      var s1 := At(pc + 1, d);
      forall k: nat
        ensures !IsStuck(Run(l, nv, code, s1, k))
      {
        assert Run(l, nv, code, s, k + 1) == Run(l, nv, code, s1, k);
      }
      var m := SimulateByte(env, nv, code, s1, s');
      n := m + 1;
    }
  }

  lemma RealStep(env: Env, nv: nat, code: seq<Instr>, pc: nat, d: Data)
    requires Loadable(code) && pc < |code| && IsReal(code[pc])
    requires !IsStuck(Step(Labelling(env, LabelMap(code)), nv, code, At(pc, d)))
    ensures Corresponds(code, Step(Labelling(env, LabelMap(code)), nv, code, At(pc, d)),
                        ByteStep(env, nv, Image(code), At(Address(code, pc), PlacedData(LabelMap(code), d))))
  {
    hide Exec, Fetch, Image, LabelMap, Labelling, Address, PlacedData, UniqueLabels, IsReal, Resolved, Land, ByteLand;
    ImageFetched(code, pc);
    ExecPlaced(env, nv, LabelMap(code), code[pc], d);
    LandCorresponds(code, pc, Exec(Labelling(env, LabelMap(code)), nv, code[pc], d));
  }

  lemma SkippedStep(env: Env, nv: nat, code: seq<Instr>, pc: nat, d: Data)
    requires Loadable(code) && pc < |code| && !IsReal(code[pc])
    ensures Step(Labelling(env, LabelMap(code)), nv, code, At(pc, d)) == At(pc + 1, d)
    ensures Address(code, pc + 1) == Address(code, pc)
  {
    AddressNext(code, pc);
  }

  lemma {:induction false} SimulateBytes(env: Env, nv: nat, code: seq<Instr>, s: State, s': State, m: nat)
      returns (n: nat)
    requires Loadable(code) && Corresponds(code, s, s')
    requires forall k: nat :: !IsStuck(Run(Labelling(env, LabelMap(code)), nv, code, s, k))
    ensures n >= m
    ensures Corresponds(code, Run(Labelling(env, LabelMap(code)), nv, code, s, n),
                        ByteRun(env, nv, Image(code), s', m))
    decreases m
  {
    hide AllStorable, UniqueLabels, Tabled, LabelMap, Labelling, Image, Step, ByteStep;
    var l := Labelling(env, LabelMap(code));
    if m == 0 {
      n := 0;
    } else {
      var k := SimulateByte(env, nv, code, s, s');
      var s1 := Run(l, nv, code, s, k);
      forall j: nat
        ensures !IsStuck(Run(l, nv, code, s1, j))
      {
        RunSum(l, nv, code, s, k, j);
      }
      var j := SimulateBytes(env, nv, code, s1, ByteStep(env, nv, Image(code), s'), m - 1);
      RunSum(l, nv, code, s, k, j);
      n := k + j;
    }
  }

  /** Entered at a label, the image halts as the labelled program does, whatever the byte-level
      environment, if the labelled program never gets stuck. */
  lemma ImageHaltsAsCode(env: Env, nv: nat, code: seq<Instr>, w: Word, d: Data, o: Outcome)
    requires Loadable(code) && Find(code, w).Some?
    requires forall t :: !Halts(Labelling(env, LabelMap(code)), nv, code, Resume(code, w, d), Stuck, t)
    ensures var m := LabelMap(code);
            var start := ByteResume(Position(m, w), PlacedData(m, d));
            && (forall t :: Halts(Labelling(env, m), nv, code, Resume(code, w, d), o, t)
                            ==> ByteHalts(env, nv, Image(code), start, o, PlacedTrace(m, t)))
            && (forall t' :: ByteHalts(env, nv, Image(code), start, o, t')
                             ==> exists t ::
                                   t' == PlacedTrace(m, t)
                                   && Halts(Labelling(env, m), nv, code, Resume(code, w, d), o, t))
  {
    hide AllStorable, UniqueLabels, Tabled, LabelMap, Labelling, Image, Step, ByteStep, Find, Position, PlacedData,
         PlacedTrace, Resume, ByteResume;
    var m, l := LabelMap(code), Labelling(env, LabelMap(code));
    var s, s' := Resume(code, w, d), ByteResume(Position(m, w), PlacedData(m, d));
    ResumeCorresponds(code, w, d);
    forall k: nat
      ensures !IsStuck(Run(l, nv, code, s, k))
    {
      if IsStuck(Run(l, nv, code, s, k)) {
        assert Halts(l, nv, code, s, Stuck, Run(l, nv, code, s, k).trace);
      }
    }
    forall t | Halts(l, nv, code, s, o, t)
      ensures ByteHalts(env, nv, Image(code), s', o, PlacedTrace(m, t))
    {
      var n: nat :| Run(l, nv, code, s, n) == Done(o, t);
      var k := SimulateBytes(env, nv, code, s, s', n);
      RunSettled(l, nv, code, s, n, k);
      assert ByteRun(env, nv, Image(code), s', n) == Done(o, PlacedTrace(m, t));
    }
    forall t' | ByteHalts(env, nv, Image(code), s', o, t')
      ensures exists t :: t' == PlacedTrace(m, t) && Halts(l, nv, code, s, o, t)
    {
      var n: nat :| ByteRun(env, nv, Image(code), s', n) == Done(o, t');
      var k := SimulateBytes(env, nv, code, s, s', n);
      assert Halts(l, nv, code, s, o, Run(l, nv, code, s, k).trace);
    }
  }
}
