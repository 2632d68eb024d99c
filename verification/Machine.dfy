/** One activation of z_interpreter_run (src/interpreter/interpreter_dd.c) over labelled code.
    Registers are seen through their number field. Everything outside the activation (heap,
    operand stack, other activations) is an arbitrary environment that sees each external
    instruction with its operand values and the activation's variables, and may answer with
    a result, new values for the variables (scope-chain writes), or an exception. */
module Machine {
  import opened Options
  import opened Bytecode

  type Regs = map<nat, real>

  datatype Fault = DivideByZero | Thrown(v: real) | Foreign

  datatype Observation = Ran(instr: Instr, args: seq<real>, vars: seq<real>) | Caught(fault: Fault)

  datatype Reaction = Continue(vars: seq<real>, result: real) | Refuse

  type Env = (seq<Observation>, Observation) -> Reaction

  datatype Data = Data(regs: Regs, catches: seq<Word>, trace: seq<Observation>)

  /** What one instruction does, before its target is looked up. Escape: the run leaves the
      number model (a remainder by zero) or pops an empty handler list. */
  datatype Effect =
    | Fall(d: Data)
    | Goto(target: Word, d: Data)
    | Leave(v: real, d: Data)
    | Raise(fault: Fault, d: Data)
    | Escape(d: Data)

  /** How an activation ends. OutOfModel: it left the number model. Stuck: a jump to a missing
      label, or running past the code. */
  datatype Outcome = Returned(v: real) | Uncaught(fault: Fault) | OutOfModel | Stuck

  datatype State = At(pc: nat, d: Data) | Done(outcome: Outcome, trace: seq<Observation>)

  function Get(regs: Regs, w: Word): real {
    if w.Idx? && w.n in regs then regs[w.n] else 0.0
  }

  function Put(regs: Regs, w: Word, v: real): Regs {
    if w.Idx? then regs[w.n := v] else regs
  }

  function Write(d: Data, w: Word, v: real): Data { d.(regs := Put(d.regs, w, v)) }

  function Literal(w: Word): real { if w.Lit? then w.x else 0.0 }

  function Truth(b: bool): real { if b then 1.0 else 0.0 }

  /** The registers 0..nv, which other scopes can reach by name. */
  function Vars(regs: Regs, nv: nat): seq<real> { seq(nv + 1, (k: nat) => Get(regs, Idx(k))) }

  function SetVars(regs: Regs, nv: nat, vs: seq<real>): Regs {
    regs + map r: nat | r <= nv && r < |vs| :: vs[r]
  }

  function Trunc(x: real): int { if x >= 0.0 then x.Floor else -((-x).Floor) }

  /** The C library's fmod: the remainder takes the sign of the dividend. */
  function Fmod(a: real, b: real): real
    requires b != 0.0
  {
    a - b * (Trunc(a / b) as real)
  }

  lemma TruncNear(x: real)
    ensures var t := Trunc(x) as real;
            -1.0 < x - t < 1.0 && (x >= 0.0 ==> x - t >= 0.0) && (x <= 0.0 ==> x - t <= 0.0)
  {
  }

  lemma PositiveProduct(x: real, y: real)
    requires x > 0.0 && y > 0.0
    ensures x * y > 0.0
  {
  }

  lemma Scaled(b: real, y: real)
    requires b > 0.0 && -1.0 < y < 1.0
    ensures -b < b * y < b && (y >= 0.0 ==> b * y >= 0.0) && (y <= 0.0 ==> b * y <= 0.0)
  {
    PositiveProduct(b, 1.0 - y);
    PositiveProduct(b, 1.0 + y);
    assert b * (1.0 - y) == b - b * y && b * (1.0 + y) == b + b * y;
    if y > 0.0 {
      PositiveProduct(b, y);
    } else if y < 0.0 {
      PositiveProduct(b, -y);
      assert b * (-y) == -(b * y);
    }
  }

  lemma QuotientSign(a: real, b: real)
    requires b > 0.0
    ensures (a >= 0.0 ==> a / b >= 0.0) && (a <= 0.0 ==> a / b <= 0.0)
  {
  }

  lemma FmodAsProduct(a: real, b: real)
    requires b != 0.0
    ensures Fmod(a, b) == b * (a / b - Trunc(a / b) as real)
    ensures a - Fmod(a, b) == (Trunc(a / b) as real) * b
  {
    var t := Trunc(a / b) as real;
    assert b * (a / b - t) == b * (a / b) - b * t;
  }

  lemma Negated(a: real, b: real, y: real)
    requires b != 0.0
    ensures a / -b == -(a / b) && (-b) * (-y) == b * y
  {
    assert (-(a / b)) * (-b) == (a / b) * b == a;
  }

  /** The remainder is b times the fraction that truncation drops. */
  lemma FmodParts(a: real, b: real) returns (y: real)
    requires b != 0.0
    ensures Fmod(a, b) == b * y == (-b) * (-y) && -1.0 < y < 1.0
    ensures b > 0.0 ==> (a >= 0.0 ==> y >= 0.0) && (a <= 0.0 ==> y <= 0.0)
    ensures b < 0.0 ==> (a >= 0.0 ==> y <= 0.0) && (a <= 0.0 ==> y >= 0.0)
  {
    hide Fmod, Trunc;
    y := a / b - Trunc(a / b) as real;
    FmodAsProduct(a, b);
    TruncNear(a / b);
    Negated(a, b, y);
    if b > 0.0 {
      QuotientSign(a, b);
    } else {
      QuotientSign(a, -b);
    }
  }

  /** The remainder is what a multiple of b leaves of a, smaller than b, and of a's sign or 0. */
  lemma FmodExact(a: real, b: real)
    requires b != 0.0
    ensures a - Fmod(a, b) == (Trunc(a / b) as real) * b
    ensures if b > 0.0 then -b < Fmod(a, b) < b else b < Fmod(a, b) < -b
    ensures (a >= 0.0 ==> Fmod(a, b) >= 0.0) && (a <= 0.0 ==> Fmod(a, b) <= 0.0)
  {
    hide Fmod, Trunc;
    FmodAsProduct(a, b);
    var y := FmodParts(a, b);
    if b > 0.0 {
      Scaled(b, y);
    } else {
      Scaled(-b, -y);
    }
  }

  predicate Holds(op: nat, a: real, b: real) {
    if op == CMP_EQUAL then a == b
    else if op == CMP_LESS then a < b
    else if op == CMP_LESS_OR_EQUAL then a <= b
    else if op == CMP_GREATER then a > b
    else if op == CMP_N_EQUAL then a != b
    else a >= b
  }

  /** The comparison a fused jump performs. */
  function ComparisonOf(op: nat): nat {
    if op == JMP_LESS || op == JMP_LESS_I then CMP_LESS
    else if op == JMP_GREATER || op == JMP_GREATER_I then CMP_GREATER
    else if op == JMP_LESS_OR_EQUAL || op == JMP_LESS_OR_EQUAL_I then CMP_LESS_OR_EQUAL
    else if op == JMP_GREATER_OR_EQUAL || op == JMP_GREATER_OR_EQUAL_I then CMP_GREATER_OR_EQUAL
    else if op == JMP_EQUAL || op == JMP_EQUAL_I then CMP_EQUAL
    else CMP_N_EQUAL
  }

  function Arithmetic(op: nat, a: real, b: real, dest: Word, d: Data): Effect {
    if op == ADD then Fall(Write(d, dest, a + b))
    else if op == SUB then Fall(Write(d, dest, a - b))
    else if op == MUL then Fall(Write(d, dest, a * b))
    else if op == DIV then if b == 0.0 then Raise(DivideByZero, d) else Fall(Write(d, dest, a / b))
    else if b == 0.0 then Escape(d) else Fall(Write(d, dest, Fmod(a, b)))
  }

  function ArgValues(i: Instr, d: Data): seq<real> {
    seq(|Args(i)|, k requires 0 <= k < |Args(i)| => Get(d.regs, Args(i)[k]))
  }

  function React(env: Env, nv: nat, i: Instr, d: Data): Effect {
    var seen := Ran(i, ArgValues(i, d), Vars(d.regs, nv));
    var after := d.(trace := d.trace + [seen]);
    match env(d.trace, seen)
    case Refuse => Raise(Foreign, after)
    case Continue(vs, result) =>
      var reached := after.(regs := SetVars(after.regs, nv, vs));
      Fall(if Dests(i) == [] then reached else Write(reached, Dests(i)[0], result))
  }

  function Exec(env: Env, nv: nat, i: Instr, d: Data): Effect {
    if i.op == MOV_NUMBER then Fall(Write(d, i.r0, Literal(i.r1)))
    else if i.op == MOV then Fall(Write(d, i.r0, Get(d.regs, i.r1)))
    else if i.op == INC then Fall(Write(Write(d, i.r0, Get(d.regs, i.r0) + 1.0), i.r1, Get(d.regs, i.r0) + 1.0))
    else if i.op == DEC then Fall(Write(Write(d, i.r0, Get(d.regs, i.r0) - 1.0), i.r1, Get(d.regs, i.r0) - 1.0))
    else if IsArithmetic(i.op) then Arithmetic(i.op, Get(d.regs, i.r0), Get(d.regs, i.r1), i.r2, d)
    else if IsCompare(i.op) then Fall(Write(d, i.r2, Truth(Holds(i.op, Get(d.regs, i.r0), Get(d.regs, i.r1)))))
    else if i.op == JMP then Goto(i.r0, d)
    else if i.op == JMP_TRUE then if Get(d.regs, i.r0) != 0.0 then Goto(i.r1, d) else Fall(d)
    else if i.op == JMP_NOT_TRUE then if Get(d.regs, i.r0) == 0.0 then Goto(i.r1, d) else Fall(d)
    else if IsCompareJump(i.op) then
      if Holds(ComparisonOf(i.op), Get(d.regs, i.r0), Get(d.regs, i.r1)) then Goto(i.r2, d) else Fall(d)
    else if IsImmediateJump(i.op) then
      if Holds(ComparisonOf(i.op), Get(d.regs, i.r0), Literal(i.r1)) then Goto(i.r2, d) else Fall(d)
    else if i.op == RETURN then Leave(Get(d.regs, i.r0), d)
    else if i.op == THROW_EXCEPTION then Raise(Thrown(Get(d.regs, i.r0)), d)
    else if i.op == SET_CATCH then Fall(d.(catches := d.catches + [i.r0]))
    else if i.op == CLEAR_CATCH then
      if d.catches == [] then Escape(d) else Fall(d.(catches := d.catches[..|d.catches| - 1]))
    else if IsExternal(i.op) then React(env, nv, i, d)
    else Fall(d)
  }

  /** The state an effect leads to. An exception goes to the top handler, which stays
      registered, and leaves its message behind for the handler's POP; without a handler
      the activation is abandoned. */
  function Land(code: seq<Instr>, pc: nat, e: Effect): State {
    match e
    case Fall(d) => At(pc + 1, d)
    case Goto(w, d) => Resume(code, w, d)
    case Leave(v, d) => Done(Returned(v), d.trace)
    case Raise(f, d) =>
      if d.catches == [] then Done(Uncaught(f), d.trace)
      else Resume(code, d.catches[|d.catches| - 1], d.(trace := d.trace + [Caught(f)]))
    case Escape(d) => Done(OutOfModel, d.trace)
  }

  function Resume(code: seq<Instr>, w: Word, d: Data): State {
    match Find(code, w)
    case None => Done(Stuck, d.trace)
    case Some(p) => At(p, d)
  }

  function Step(env: Env, nv: nat, code: seq<Instr>, s: State): State {
    match s
    case Done(_, _) => s
    case At(pc, d) =>
      if pc >= |code| then Done(Stuck, d.trace) else Land(code, pc, Exec(env, nv, code[pc], d))
  }

  ghost function Run(env: Env, nv: nat, code: seq<Instr>, s: State, n: nat): State
    decreases n
  {
    if n == 0 then s else Run(env, nv, code, Step(env, nv, code, s), n - 1)
  }

  ghost predicate Halts(env: Env, nv: nat, code: seq<Instr>, s: State, o: Outcome, trace: seq<Observation>) {
    exists n :: Run(env, nv, code, s, n) == Done(o, trace)
  }

  lemma {:induction false} RunSum(env: Env, nv: nat, code: seq<Instr>, s: State, m: nat, n: nat)
    ensures Run(env, nv, code, s, m + n) == Run(env, nv, code, Run(env, nv, code, s, m), n)
    decreases m
  {
    if m != 0 {
      RunSum(env, nv, code, Step(env, nv, code, s), m - 1, n);
    }
  }

  lemma RunOne(env: Env, nv: nat, whole: seq<Instr>, s: State)
    ensures Run(env, nv, whole, s, 1) == Step(env, nv, whole, s)
  {
    assert Run(env, nv, whole, Step(env, nv, whole, s), 0) == Step(env, nv, whole, s);
  }

  lemma RunTwo(env: Env, nv: nat, whole: seq<Instr>, s: State)
    ensures Run(env, nv, whole, s, 2) == Step(env, nv, whole, Step(env, nv, whole, s))
  {
    RunOne(env, nv, whole, Step(env, nv, whole, s));
  }

  ghost predicate IsStuck(s: State) { s.Done? && s.outcome == Stuck }

  lemma {:induction false} RunDone(env: Env, nv: nat, code: seq<Instr>, s: State, n: nat)
    requires s.Done?
    ensures Run(env, nv, code, s, n) == s
    decreases n
  {
    if n != 0 {
      RunDone(env, nv, code, s, n - 1);
    }
  }

  /** A halted run stays as it is, whatever the number of further steps. */
  lemma RunSettled(env: Env, nv: nat, code: seq<Instr>, s: State, m: nat, n: nat)
    requires m <= n && Run(env, nv, code, s, m).Done?
    ensures Run(env, nv, code, s, n) == Run(env, nv, code, s, m)
  {
    RunSum(env, nv, code, s, m, n - m);
    RunDone(env, nv, code, Run(env, nv, code, s, m), n - m);
  }

  /** An activation halts in at most one way. */
  lemma HaltsOnce(env: Env, nv: nat, code: seq<Instr>, s: State,
                  o: Outcome, t: seq<Observation>, o': Outcome, t': seq<Observation>)
    requires Halts(env, nv, code, s, o, t) && Halts(env, nv, code, s, o', t')
    ensures o == o' && t == t'
  {
    var m :| Run(env, nv, code, s, m) == Done(o, t);
    var n :| Run(env, nv, code, s, n) == Done(o', t');
    if m <= n {
      RunSettled(env, nv, code, s, m, n);
    } else {
      RunSettled(env, nv, code, s, n, m);
    }
  }

  /** Two data states indistinguishable for instruction i: same handlers and trace, same
      variables, same operand registers. */
  ghost predicate SameView(nv: nat, i: Instr, d: Data, d': Data) {
    && d.catches == d'.catches
    && d.trace == d'.trace
    && (forall r :: 0 <= r <= nv ==> Get(d.regs, Idx(r)) == Get(d'.regs, Idx(r)))
    && (forall w :: w in Args(i) ==> Get(d.regs, w) == Get(d'.regs, w))
  }

  /** Indistinguishable states take the same effect up to registers. */
  lemma ExecShape(env: Env, nv: nat, i: Instr, d: Data, d': Data)
    requires SameView(nv, i, d, d')
    ensures SameShape(Exec(env, nv, i, d), Exec(env, nv, i, d'))
  {
    hide Vars, ArgValues, Put, Fmod, Holds;
    if IsExternal(i.op) {
      ViewSequences(nv, i, d, d');
    } else {
      ArgsNamed(i);
    }
  }

  /** The operands an instruction reads, by opcode. */
  lemma ArgsNamed(i: Instr)
    ensures IsArithmetic(i.op) || IsCompareJump(i.op) ==> i.r0 in Args(i) && i.r1 in Args(i)
    ensures IsTestJump(i.op) || IsImmediateJump(i.op) || i.op == RETURN || i.op == THROW_EXCEPTION ==> i.r0 in Args(i)
  {
  }

  ghost predicate SameShape(e: Effect, e': Effect) {
    && e.d.catches == e'.d.catches && e.d.trace == e'.d.trace
    && match e
       case Fall(_) => e'.Fall?
       case Goto(w, _) => e'.Goto? && e'.target == w
       case Leave(v, _) => e'.Leave? && e'.v == v
       case Raise(f, _) => e'.Raise? && e'.fault == f
       case Escape(_) => e'.Escape?
  }

  lemma ViewSequences(nv: nat, i: Instr, d: Data, d': Data)
    requires SameView(nv, i, d, d')
    ensures ArgValues(i, d) == ArgValues(i, d') && Vars(d.regs, nv) == Vars(d'.regs, nv)
  {
  }

  /** Register r agrees after the instruction if it did before or if the instruction wrote it. */
  lemma ExecRegister(env: Env, nv: nat, i: Instr, d: Data, d': Data, r: nat)
    requires SameView(nv, i, d, d')
    requires Get(d.regs, Idx(r)) == Get(d'.regs, Idx(r)) || (Exec(env, nv, i, d).Fall? && Writes(i, r))
    ensures Get(Exec(env, nv, i, d).d.regs, Idx(r)) == Get(Exec(env, nv, i, d').d.regs, Idx(r))
  {
    hide Vars, ArgValues, Fmod;
    if IsExternal(i.op) {
      ViewSequences(nv, i, d, d');
      ReactRegister(env, nv, i, d, d', r);
    } else if IsArithmetic(i.op) || IsCompare(i.op) {
      assert i.r0 in Args(i) && i.r1 in Args(i);
    } else if i.op == MOV {
      assert i.r1 in Args(i);
    } else if i.op == INC || i.op == DEC {
      assert i.r0 in Args(i);
    } else {
      PlainRegister(env, nv, i, d, d', r);
    }
  }

  lemma PlainRegister(env: Env, nv: nat, i: Instr, d: Data, d': Data, r: nat)
    requires !IsExternal(i.op) && !IsArithmetic(i.op) && !IsCompare(i.op) && i.op != MOV && i.op != INC && i.op != DEC
    requires Get(d.regs, Idx(r)) == Get(d'.regs, Idx(r)) || (Exec(env, nv, i, d).Fall? && Writes(i, r))
    ensures Get(Exec(env, nv, i, d).d.regs, Idx(r)) == Get(Exec(env, nv, i, d').d.regs, Idx(r))
  {
    if i.op != MOV_NUMBER {
      assert Exec(env, nv, i, d).d.regs == d.regs;
      assert Exec(env, nv, i, d').d.regs == d'.regs;
      assert Dests(i) == [];
    }
  }

  lemma ReactRegister(env: Env, nv: nat, i: Instr, d: Data, d': Data, r: nat)
    requires IsExternal(i.op) && d.catches == d'.catches && d.trace == d'.trace
    requires ArgValues(i, d) == ArgValues(i, d') && Vars(d.regs, nv) == Vars(d'.regs, nv)
    requires Get(d.regs, Idx(r)) == Get(d'.regs, Idx(r)) || (React(env, nv, i, d).Fall? && Writes(i, r))
    ensures Get(React(env, nv, i, d).d.regs, Idx(r)) == Get(React(env, nv, i, d').d.regs, Idx(r))
  {
  }
}
