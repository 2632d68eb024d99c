/** The handlers of one activation, as the labelled machine keeps them: always those of the try
    regions around its instruction, so what it raises resumes at the innermost one. */
module MachineHandlers {
  import opened Options
  import opened Bytecode
  import opened Machine
  import opened Assembler
  import opened Places
  import opened Vm

  /** The activation stands in a unit, with the handlers of the regions around it. */
  ghost predicate InPlace(code: seq<Instr>, s: State) {
    s.At? ==> Stands(code, s.pc) && s.d.catches == PlaceAt(code, s.pc).handlers
  }

  lemma ExecHandlers(env: Env, nv: nat, i: Instr, d: Data)
    ensures var e := Exec(env, nv, i, d);
            && (e.Fall? ==> e.d.catches == if i.op == SET_CATCH then d.catches + [i.r0]
                                           else if i.op == CLEAR_CATCH && d.catches != []
                                           then d.catches[..|d.catches| - 1] else d.catches)
            && (e.Goto? ==> IsJump(i.op) && e.target == TargetOf(i) && e.d.catches == d.catches)
            && (e.Raise? ==> e.d.catches == d.catches)
            && (i.op == RETURN ==> e.Leave?)
  {
  }

  lemma StepInPlace(env: Env, nv: nat, code: seq<Instr>, s: State)
    requires Lawful(code) && InPlace(code, s)
    ensures InPlace(code, Step(env, nv, code, s))
  {
    hide Exec, Lawful, Stands, PlaceAt;
    if s.At? {
      StandsInside(code, s.pc);
      var e := Exec(env, nv, code[s.pc], s.d);
      ExecHandlers(env, nv, code[s.pc], s.d);
      match e
      case Fall(_) => FallPlace(code, s.pc);
      case Goto(_, _) => JumpPlace(code, s.pc);
      case Raise(_, d) =>
        if d.catches != [] {
          HandlerPlace(code, s.pc);
        }
      case _ =>
    }
  }

  lemma StandsInside(code: seq<Instr>, pc: nat)
    requires Stands(code, pc)
    ensures pc < |code|
  {
  }

  /** In every run of an activation entered at a function's header, in every environment: its
      handlers are those of the try regions around its instruction, and when that raises, the run
      goes on at the innermost of them, or ends if there is none. */
  lemma {:induction false} EveryState(env: Env, nv: nat, code: seq<Instr>, e: nat, regs: Regs, n: nat)
    requires Lawful(code) && e < |code| && code[e].op == FFRAME
    ensures InPlace(code, Run(env, nv, code, At(e + 1, Data(regs, [], [])), n))
    decreases n
  {
    hide Lawful, PlaceAt, Step, Stands;
    HeaderPlace(code, e);
    var start := At(e + 1, Data(regs, [], []));
    if n > 0 {
      EveryState(env, nv, code, e, regs, n - 1);
      StepInPlace(env, nv, code, Run(env, nv, code, start, n - 1));
      RunSum(env, nv, code, start, n - 1, 1);
      RunOne(env, nv, code, Run(env, nv, code, start, n - 1));
    }
  }

  lemma RaiseResumes(env: Env, nv: nat, code: seq<Instr>, pc: nat, d: Data)
    requires Lawful(code) && InPlace(code, At(pc, d)) && pc < |code| && Exec(env, nv, code[pc], d).Raise?
    ensures var hs, s := PlaceAt(code, pc).handlers, Step(env, nv, code, At(pc, d));
            if hs == [] then s.Done?
            else s.At? && Find(code, hs[|hs| - 1]) == Some(s.pc) && s.d.catches == hs
  {
    hide Exec, Lawful, PlaceAt;
    ExecHandlers(env, nv, code[pc], d);
    if PlaceAt(code, pc).handlers != [] {
      HandlerPlace(code, pc);
    }
  }
}
