/** The exact conditions under which the optimizer's rules go unnoticed. The rules check less
    than they need (src/program/BytecodeOptimizer.cpp:31-114); each lemma says, for one rule and
    over all register contents, when the shorter code takes the same branch, leaves handlers and
    observations alone, and leaves the variables, and every temporary that the following code
    still reads, as the longer code does. */
module RuleConditions {
  import opened Bytecode
  import opened Machine
  import opened Optimizer
  import opened OptimizerProof

  predicate Registers(i: Instr) { i.r0.Idx? && i.r1.Idx? && i.r2.Idx? }

  /** The pair cur, next against the single jump f, whatever the registers are. */
  ghost predicate FusionFaithful(env: Env, nv: nat, cur: Instr, next: Instr, f: Instr, rest: seq<Instr>) {
    forall d: Data :: FusionAgrees(env, nv, cur, next, f, rest, d)
  }

  ghost predicate FusionAgrees(env: Env, nv: nat, cur: Instr, next: Instr, f: Instr, rest: seq<Instr>, d: Data) {
    var d1 := Exec(env, nv, cur, d).d;
    SameWorld(d1, d) && Agree(nv, rest, d1.regs, d.regs)
        && (Exec(env, nv, next, d1).Goto? <==> Exec(env, nv, f, d).Goto?)
  }

  function AllRegisters(ws: set<nat>, v: real): Data {
    Data(map r | r in ws :: v, [], [])
  }

  /** Compare and jump: right for all register contents if and only if the jump tests the
      comparison's result and that result is a dead temporary. */
  lemma TestFusionExact(env: Env, nv: nat, cur: Instr, next: Instr, rest: seq<Instr>)
    requires FusesTest(cur, next) && Registers(cur) && next.r0.Idx?
    ensures FusionFaithful(env, nv, cur, next, CompareAndJump(cur, next), rest)
            <==> next.r0 == cur.r2 && Dead(nv, cur.r2, rest)
  {
    var f := CompareAndJump(cur, next);
    var used := {cur.r0.n, cur.r1.n, cur.r2.n, next.r0.n};
    if next.r0 == cur.r2 && Dead(nv, cur.r2, rest) {
      forall d: Data
        ensures FusionAgrees(env, nv, cur, next, f, rest, d)
      {
        FusedEffect(env, nv, cur, next, f, d, d);
      }
    } else if !Dead(nv, cur.r2, rest) {
      var d := AllRegisters(used, 2.0);
      assert Get(d.regs, cur.r2) == 2.0 && Get(Exec(env, nv, cur, d).d.regs, cur.r2) <= 1.0;
      assert !FusionAgrees(env, nv, cur, next, f, rest, d);
    } else if Holds(cur.op, 0.0, 0.0) {
      assert !FusionAgrees(env, nv, cur, next, f, rest, AllRegisters(used, 0.0));
    } else {
      assert !FusionAgrees(env, nv, cur, next, f, rest, AllRegisters(used, 1.0));
    }
  }

  /** Load and jump: right for all register contents if and only if the loaded register is a
      dead temporary and not also the jump's left operand. */
  lemma LoadFusionExact(env: Env, nv: nat, cur: Instr, next: Instr, rest: seq<Instr>)
    requires FusesLoad(cur, next) && cur.r0.Idx? && cur.r1.Lit? && next.r0.Idx?
    ensures FusionFaithful(env, nv, cur, next, LoadAndJump(cur, next), rest)
            <==> Dead(nv, cur.r0, rest) && next.r0 != cur.r0
  {
    var f := LoadAndJump(cur, next);
    var used := {cur.r0.n, next.r0.n};
    var up, down := AllRegisters(used, cur.r1.x + 1.0), AllRegisters(used, cur.r1.x - 1.0);
    if Dead(nv, cur.r0, rest) && next.r0 != cur.r0 {
      forall d: Data
        ensures FusionAgrees(env, nv, cur, next, f, rest, d)
      {
        FusedEffect(env, nv, cur, next, f, d, d);
      }
    } else if !Dead(nv, cur.r0, rest) {
      assert Get(up.regs, cur.r0) == cur.r1.x + 1.0;
      assert !FusionAgrees(env, nv, cur, next, f, rest, up);
    } else {
      assert !FusionAgrees(env, nv, cur, next, f, rest, up) || !FusionAgrees(env, nv, cur, next, f, rest, down);
    }
  }

  // ----- the compare rule -----

  /** Whatever the registers are, leaving out next after comparison cur goes unnoticed. */
  ghost predicate SwallowFaithful(env: Env, nv: nat, cur: Instr, next: Instr, rest: seq<Instr>) {
    forall d: Data :: Unnoticed(env, nv, cur, next, rest, d)
  }

  /** Compare and swallow: leaving out any instruction with the comparison's result for second
      operand goes unnoticed, for all register contents, if and only if it may be swallowed:
      it is quiet, and what it writes is a dead temporary or is left as it is. */
  lemma SwallowExact(env: Env, nv: nat, cur: Instr, next: Instr, rest: seq<Instr>)
    requires SwallowsNext(cur, next) && Formed(cur) && Formed(next)
    ensures SwallowFaithful(env, nv, cur, next, rest) <==> MaySwallow(nv, cur, next, rest)
  {
    hide Exec, Live, Quiet, Idle;
    if MaySwallow(nv, cur, next, rest) {
      forall d: Data
        ensures Unnoticed(env, nv, cur, next, rest, d)
      {
        SwallowEffect(env, nv, cur, next, rest, d);
      }
    } else if !Quiet(cur, next) {
      var d := LoudWitness(env, nv, cur, next);
      assert !Unnoticed(env, nv, cur, next, rest, d);
    } else {
      var w :| w in Dests(next) && !Dead(nv, w, rest);
      var d := WriteWitness(env, nv, cur, next, w);
      assert !Unnoticed(env, nv, cur, next, rest, d);
    }
  }

  function Used(cur: Instr, next: Instr): set<nat>
    requires Formed(cur) && IsCompare(cur.op)
  {
    {cur.r0.n, cur.r1.n, cur.r2.n} + RegistersOf(next)
  }

  function RegistersOf(i: Instr): set<nat> {
    (if i.r0.Idx? then {i.r0.n} else {}) + (if i.r1.Idx? then {i.r1.n} else {}) + (if i.r2.Idx? then {i.r2.n} else {})
  }

  /** Every register in use holds v, except register k, which holds w. */
  function Spread(used: set<nat>, k: nat, v: real, w: real): Data {
    Data(map r | r in used :: if r == k then w else v, [], [])
  }

  /** Register contents for which the comparison comes out as wanted; others hold 5 or 6. */
  lemma Choose(env: Env, nv: nat, cur: Instr, next: Instr, want: bool) returns (d: Data)
    requires Formed(cur) && IsCompare(cur.op)
    requires if want then !AlwaysZero(cur) else !AlwaysOne(cur)
    ensures var d1 := Exec(env, nv, cur, d).d;
            && Get(d1.regs, cur.r2) == Truth(want)
            && forall r :: r in Used(cur, next) && r != cur.r2.n ==>
                 Get(d1.regs, Idx(r)) == 5.0 || Get(d1.regs, Idx(r)) == 6.0
  {
    var even := Spread(Used(cur, next), 0, 5.0, 5.0);
    var up := Spread(Used(cur, next), cur.r1.n, 5.0, 6.0);
    var down := Spread(Used(cur, next), cur.r0.n, 5.0, 6.0);
    CompareEffect(env, nv, cur, even);
    CompareEffect(env, nv, cur, up);
    CompareEffect(env, nv, cur, down);
    d := if Holds(cur.op, 5.0, 5.0) == want then even
         else if Holds(cur.op, 5.0, 6.0) == want then up else down;
  }

  /** All registers in use hold v before the comparison: its result does not depend on v. */
  lemma Level(env: Env, nv: nat, cur: Instr, next: Instr, v: real) returns (d: Data)
    requires Formed(cur) && IsCompare(cur.op)
    ensures var d1 := Exec(env, nv, cur, d).d;
            && Get(d1.regs, cur.r2) == Truth(Holds(cur.op, 0.0, 0.0))
            && forall r :: r in Used(cur, next) && r != cur.r2.n ==> Get(d1.regs, Idx(r)) == v
  {
    d := AllRegisters(Used(cur, next), v);
    CompareEffect(env, nv, cur, d);
  }

  /** An instruction that is not quiet is noticed for some register contents. */
  lemma LoudWitness(env: Env, nv: nat, cur: Instr, next: Instr) returns (d: Data)
    requires SwallowsNext(cur, next) && Formed(cur) && Formed(next) && !Quiet(cur, next)
    ensures var d1 := Exec(env, nv, cur, d).d;
            var e := Exec(env, nv, next, d1);
            !(e.Fall? && SameWorld(e.d, d1))
  {
    hide Fmod;
    if IsJump(next.op) {
      d := JumpWitness(env, nv, cur, next);
    } else if next.op == DIV || next.op == MOD {
      d := Choose(env, nv, cur, next, false);
    } else {
      d := Level(env, nv, cur, next, 5.0);
    }
  }

  /** A jump that compares with the comparison's result is taken for some register contents,
      unless it compares that register with itself and never holds. */
  lemma JumpWitness(env: Env, nv: nat, cur: Instr, next: Instr) returns (d: Data)
    requires SwallowsNext(cur, next) && Formed(cur) && Formed(next) && !Quiet(cur, next) && IsJump(next.op)
    ensures Exec(env, nv, next, Exec(env, nv, cur, d).d).Goto?
  {
    var c := Truth(Holds(cur.op, 0.0, 0.0));
    var below := Level(env, nv, cur, next, -5.0);
    var same := Level(env, nv, cur, next, c);
    var above := Level(env, nv, cur, next, 5.0);
    var op := ComparisonOf(next.op);
    d := if next.op == JMP then same else if Holds(op, c, c) then same else if Holds(op, -5.0, c) then below
        else above;
  }

  /** A write that is not idle shows for some register contents. */
  lemma WriteWitness(env: Env, nv: nat, cur: Instr, next: Instr, w: Word) returns (d: Data)
    requires SwallowsNext(cur, next) && Formed(cur) && Formed(next) && Quiet(cur, next) && !Idle(cur, next)
             && w in Dests(next)
    ensures var d1 := Exec(env, nv, cur, d).d;
            var e := Exec(env, nv, next, d1);
            w.Idx? && e.Fall? && Get(e.d.regs, w) != Get(d1.regs, w)
  {
    hide Fmod;
    FmodOne();
    if next.op == INC || next.op == DEC || next.op == MOV || next.op == MOD {
      d := Level(env, nv, cur, next, 5.0);
    } else if next.r2 != next.r0 && next.r2 != next.r1 {
      d := Spread(Used(cur, next), next.r2.n, 5.0, 100.0);
      CompareEffect(env, nv, cur, d);
    } else if IsCompare(next.op) {
      d := CompareWitness(env, nv, cur, next);
    } else if next.op == DIV {
      d := Level(env, nv, cur, next, 5.0);
    } else if next.op == MUL {
      d := Choose(env, nv, cur, next, next.r2 != next.r0);
    } else if next.r2 == next.r0 {
      d := Choose(env, nv, cur, next, true);
    } else {
      d := Level(env, nv, cur, next, 5.0);
    }
  }

  lemma FmodOne()
    ensures Fmod(5.0, 1.0) == 0.0 && Fmod(1.0, 1.0) == 0.0
  {
  }

  lemma CompareWitness(env: Env, nv: nat, cur: Instr, next: Instr) returns (d: Data)
    requires SwallowsNext(cur, next) && Formed(cur) && Formed(next) && IsCompare(next.op) && !Idle(cur, next)
    requires next.r2 == next.r0 || next.r2 == next.r1
    ensures var d1 := Exec(env, nv, cur, d).d;
            Get(Exec(env, nv, next, d1).d.regs, next.r2) != Get(d1.regs, next.r2)
  {
    if next.r0 == next.r1 {
      d := Choose(env, nv, cur, next, !Holds(next.op, 0.0, 0.0));
    } else if next.r2 == next.r0 {
      d := Level(env, nv, cur, next, 5.0);
    } else {
      var c := Truth(Holds(cur.op, 0.0, 0.0));
      var below := Level(env, nv, cur, next, -5.0);
      var same := Level(env, nv, cur, next, c);
      var above := Level(env, nv, cur, next, 5.0);
      var want := c == 0.0;
      d := if Holds(next.op, c, c) == want then same else if Holds(next.op, -5.0, c) == want then below else above;
    }
  }
}
