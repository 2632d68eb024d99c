/** The peephole pass of src/program/BytecodeOptimizer.cpp and its fixpoint. */
module Optimizer {
  import opened Sequences
  import opened Options
  import opened Bytecode

  /** Every instruction but a label may look at its successor. */
  predicate Readable(s: seq<Instr>) { s == [] || s[|s| - 1].op == LABEL }

  /** Operand shapes all emitted code has: a comparison's result is a register other than 0;
      labels, frame headers, handlers, returns, throws, simple jumps and stack instructions carry
      no register in their second operand. */
  predicate Shaped(s: seq<Instr>) { forall i :: i in s ==> ShapedInstr(i) }

  predicate Structural(op: nat) {
    || op == LABEL || op == FFRAME || op == SET_CATCH || op == CLEAR_CATCH || op == RETURN
    || op == THROW_EXCEPTION || op == JMP || IsTestJump(op) || op == PUSH || op == POP
  }

  predicate ShapedInstr(i: Instr) {
    && (IsCompare(i.op) ==> i.r2.Idx? && i.r2.n > 0)
    && (Structural(i.op) ==> i.r1.Idx? ==> i.r1.n == 0)
  }

  /** The immediate form of a compare-and-jump. */
  function Immediate(op: nat): nat {
    if op == JMP_N_EQUAL then JMP_N_EQUAL_I
    else if op == JMP_EQUAL then JMP_EQUAL_I
    else if op == JMP_LESS then JMP_LESS_I
    else if op == JMP_LESS_OR_EQUAL then JMP_LESS_OR_EQUAL_I
    else if op == JMP_GREATER then JMP_GREATER_I
    else JMP_GREATER_OR_EQUAL_I
  }

  /** The compare-and-jump a comparison and a jump on its result fuse into. */
  function Fused(op: nat, negated: bool): nat {
    if op == CMP_EQUAL then if negated then JMP_N_EQUAL else JMP_EQUAL
    else if op == CMP_N_EQUAL then if negated then JMP_EQUAL else JMP_N_EQUAL
    else if op == CMP_LESS then if negated then JMP_GREATER_OR_EQUAL else JMP_LESS
    else if op == CMP_LESS_OR_EQUAL then if negated then JMP_GREATER else JMP_LESS_OR_EQUAL
    else if op == CMP_GREATER then if negated then JMP_LESS_OR_EQUAL else JMP_GREATER
    else if negated then JMP_LESS else JMP_GREATER_OR_EQUAL
  }

  predicate DropsReturn(cur: Instr, next: Instr) { cur.op == RETURN && next.op == RETURN }

  predicate FusesLoad(cur: Instr, next: Instr) {
    cur.op == MOV_NUMBER && cur.r0 == next.r1 && IsCompareJump(next.op)
  }

  predicate SwallowsNext(cur: Instr, next: Instr) { IsCompare(cur.op) && next.r1 == cur.r2 }

  predicate FusesTest(cur: Instr, next: Instr) {
    IsCompare(cur.op) && !SwallowsNext(cur, next) && IsTestJump(next.op)
  }

  function LoadAndJump(cur: Instr, next: Instr): Instr {
    Instr(Immediate(next.op), next.r0, cur.r1, next.r2)
  }

  function CompareAndJump(cur: Instr, next: Instr): Instr {
    Instr(Fused(cur.op, next.op == JMP_NOT_TRUE), cur.r0, cur.r1, next.r1)
  }

  /** What one turn of the loop pushes and how many instructions it uses. */
  datatype Turn = Turn(push: seq<Instr>, used: nat)

  function TurnOf(cur: Instr, next: Instr): Turn {
    if DropsReturn(cur, next) then Turn([cur], 2)
    else if cur.op == MOV && cur.r0 == cur.r1 then Turn([], 1)
    else if FusesLoad(cur, next) then Turn([LoadAndJump(cur, next)], 2)
    else if SwallowsNext(cur, next) then Turn([cur], 2)
    else if FusesTest(cur, next) then Turn([CompareAndJump(cur, next)], 2)
    else Turn([cur], 1)
  }

  /** The turn at the head of s. */
  function TurnAt(s: seq<Instr>): (t: Turn)
    requires s != [] && Readable(s)
    ensures 1 <= t.used <= |s| && |t.push| <= 1
    ensures t.used == 1 && t.push != [] ==> t.push == [s[0]]
  {
    if |s| == 1 then Turn([s[0]], 1) else TurnOf(s[0], s[1])
  }

  function Pass(s: seq<Instr>): (r: seq<Instr>)
    requires Readable(s)
    ensures |r| <= |s|
  {
    if s == [] then [] else TurnAt(s).push + Pass(s[TurnAt(s).used..])
  }

  /** The whole optimizer: passes until one does not shrink the list. */
  function Optimized(s: seq<Instr>): (r: seq<Instr>)
    requires Readable(s) && Shaped(s)
    decreases |s|
  {
    PassShape(s);
    if |Pass(s)| == |s| then Pass(s) else Optimized(Pass(s))
  }

  /** A pass keeps the operand shapes, and the label at the end of the list. */
  lemma {:induction false} PassShape(s: seq<Instr>)
    requires Readable(s) && Shaped(s)
    ensures Readable(Pass(s)) && Shaped(Pass(s)) && (s != [] ==> Pass(s) != [])
  {
    if s != [] {
      var t := TurnAt(s);
      assert forall i :: i in s[t.used..] ==> i in s;
      assert forall i :: i in t.push ==> ShapedInstr(i);
      PassShape(s[t.used..]);
      if t.used == |s| {
        assert s[|s| - 1] in s && s[0] in s;
        assert t.push == s;
      }
    }
  }

  lemma PassUnfold(s: seq<Instr>, i: nat)
    requires Readable(s) && i < |s|
    ensures Readable(s[i..]) && s[i..][0] == s[i]
    ensures if i + 1 < |s| then |s[i..]| > 1 && s[i..][1] == s[i + 1] else |s[i..]| == 1
    ensures Pass(s[i..]) == TurnAt(s[i..]).push + Pass(s[i + TurnAt(s[i..]).used..])
  {
    assert s[i..][TurnAt(s[i..]).used..] == s[i + TurnAt(s[i..]).used..];
  }

  lemma PassNothing(s: seq<Instr>)
    requires s == []
    ensures Pass(s) == []
  {
  }

  class BytecodeOptimizer {
    constructor () {}

    method Optimize(instructions: seq<Instr>) returns (ret: seq<Instr>)
      requires Readable(instructions) && Shaped(instructions)
      ensures ret == Optimized(instructions)
      decreases |instructions|
    {
      hide Pass;
      ret := [];
      var i := 0;
      assert instructions[0..] == instructions;
      while i < |instructions|
        invariant 0 <= i <= |instructions|
        invariant ret + Pass(instructions[i..]) == Pass(instructions)
      {
        ghost var done, start, turn := ret, i, TurnAt(instructions[i..]);
        PassUnfold(instructions, i);
        var current := instructions[i];
        var instruction := current;
        var push := true;
        if i + 1 < |instructions| {
          var next := instructions[i + 1];
          if current.op == RETURN && next.op == RETURN {
            i := i + 1;
          } else if current.op == MOV && current.r0 == current.r1 {
            push := false;
          } else if current.op == MOV_NUMBER {
            if current.r0 == next.r1 && IsCompareJump(next.op) {
              instruction := Instr(Immediate(next.op), next.r0, current.r1, next.r2);
              i := i + 1;
            }
          } else if IsCompare(current.op) {
            if next.r1 == current.r2 {
              i := i + 1;
              instruction := instruction.(r2 := next.r1);
            } else if next.op == JMP_NOT_TRUE || next.op == JMP_TRUE {
              instruction := instruction.(op := Fused(current.op, next.op == JMP_NOT_TRUE), r2 := next.r1);
              i := i + 1;
            }
          }
        }
        assert turn == Turn(if push then [instruction] else [], i + 1 - start);
        if push {
          ret := ret + [instruction];
        }
        i := i + 1;
        assert ret == done + turn.push;
        Associate(done, turn.push, Pass(instructions[i..]));
      }
      PassNothing(instructions[i..]);
      assert ret == Pass(instructions);
      PassShape(instructions);
      if |instructions| == |ret| {
        return;
      }
      ret := Optimize(ret);
    }
  }

  // ----- termination, fixpoint, and what is never dropped -----

  /** A pass is the identity or strictly shorter. */
  lemma {:induction false} PassShrinksOrKeeps(s: seq<Instr>)
    requires Readable(s)
    ensures |Pass(s)| == |s| ==> Pass(s) == s
  {
    hide TurnOf;
    if s != [] {
      PassShrinksOrKeeps(s[TurnAt(s).used..]);
      assert s == [s[0]] + s[1..];
    }
  }

  /** The result of the optimizer is a fixpoint of a further pass. */
  lemma {:induction false} OptimizedIsFixpoint(s: seq<Instr>)
    requires Readable(s) && Shaped(s)
    ensures Readable(Optimized(s)) && Pass(Optimized(s)) == Optimized(s)
    decreases |s|
  {
    PassShape(s);
    PassShrinksOrKeeps(s);
    if |Pass(s)| != |s| {
      OptimizedIsFixpoint(Pass(s));
    }
  }

  /** Something is left to optimize: a return after a return, a register moved to itself, a number
      loaded for the comparing jump that follows, a comparison before a jump on a test, or before
      anything with its result as second operand. */
  predicate Improvable(cur: Instr, next: Instr) {
    || (cur.op == RETURN && next.op == RETURN)
    || (cur.op == MOV && cur.r0 == cur.r1)
    || (cur.op == MOV_NUMBER && JMP_LESS <= next.op <= JMP_N_EQUAL && next.r1 == cur.r0)
    || (CMP_EQUAL <= cur.op <= CMP_GREATER_OR_EQUAL
        && (next.op == JMP_TRUE || next.op == JMP_NOT_TRUE || next.r1 == cur.r2))
  }

  lemma TurnKeeps(cur: Instr, next: Instr)
    ensures TurnOf(cur, next).used > |TurnOf(cur, next).push| <==> Improvable(cur, next)
    ensures !Improvable(cur, next) ==> TurnOf(cur, next) == Turn([cur], 1)
  {
  }

  /** A pass changes code if and only if something is left to optimize. */
  lemma {:induction false} PassExact(s: seq<Instr>)
    requires Readable(s)
    ensures Pass(s) != s <==> exists k :: 0 <= k < |s| - 1 && Improvable(s[k], s[k + 1])
  {
    hide TurnOf, Improvable;
    if |s| == 1 {
      assert s[1..] == [];
    } else if s != [] {
      TurnKeeps(s[0], s[1]);
      var rest := s[1..];
      assert forall k :: 0 <= k < |rest| ==> rest[k] == s[k + 1];
      if Improvable(s[0], s[1]) {
        assert |Pass(s)| < |s|;
      } else {
        PassExact(rest);
        assert s == [s[0]] + rest && Pass(s) == [s[0]] + Pass(rest);
        assert Pass(s) == s <==> Pass(rest) == rest;
        if Pass(rest) != rest {
          var k :| 0 <= k < |rest| - 1 && Improvable(rest[k], rest[k + 1]);
          assert Improvable(s[k + 1], s[k + 2]);
        }
      }
    }
  }

  /** So in the optimizer's result nothing is left to optimize, and code without anything to
      optimize is left as it is. */
  lemma OptimizedExact(s: seq<Instr>)
    requires Readable(s) && Shaped(s)
    ensures forall k :: 0 <= k < |Optimized(s)| - 1 ==> !Improvable(Optimized(s)[k], Optimized(s)[k + 1])
    ensures Optimized(s) == s <==> forall k :: 0 <= k < |s| - 1 ==> !Improvable(s[k], s[k + 1])
  {
    hide Improvable, TurnAt;
    OptimizedIsFixpoint(s);
    PassExact(Optimized(s));
    PassExact(s);
    PassShrinksOrKeeps(s);
  }

  /** The labels and frame headers of a list, in order. */
  function Marks(s: seq<Instr>): seq<Instr> {
    if s == [] then []
    else (if s[0].op == LABEL || s[0].op == FFRAME then [s[0]] else []) + Marks(s[1..])
  }

  lemma {:induction false} PassKeepsMarks(s: seq<Instr>)
    requires Readable(s) && Shaped(s)
    ensures Marks(Pass(s)) == Marks(s)
  {
    if s != [] {
      var t := TurnAt(s);
      assert forall i :: i in s[t.used..] ==> i in s;
      PassKeepsMarks(s[t.used..]);
      MarksConcat(t.push, Pass(s[t.used..]));
      assert s == s[..t.used] + s[t.used..];
      MarksConcat(s[..t.used], s[t.used..]);
      TurnKeepsMarks(s);
    }
  }

  lemma TurnKeepsMarks(s: seq<Instr>)
    requires Readable(s) && Shaped(s) && s != []
    ensures Marks(TurnAt(s).push) == Marks(s[..TurnAt(s).used])
  {
    var t := TurnAt(s);
    assert s[0] in s;
    if t.used == 2 {
      assert s[1] in s && ShapedInstr(s[1]) && s[..2] == [s[0]] + [s[1]];
      MarksConcat([s[0]], [s[1]]);
      assert s[1].op != LABEL && s[1].op != FFRAME;
    } else {
      assert s[..1] == [s[0]];
    }
  }

  lemma {:induction false} MarksConcat(a: seq<Instr>, b: seq<Instr>)
    ensures Marks(a + b) == Marks(a) + Marks(b)
  {
    if a == [] {
      assert a + b == b;
    } else {
      assert (a + b)[0] == a[0] && (a + b)[1..] == a[1..] + b;
      MarksConcat(a[1..], b);
      Associate(if a[0].op == LABEL || a[0].op == FFRAME then [a[0]] else [], Marks(a[1..]), Marks(b));
    }
  }

  /** The optimizer never drops, duplicates or reorders a label or a frame header. */
  lemma {:induction false} OptimizedKeepsMarks(s: seq<Instr>)
    requires Readable(s) && Shaped(s)
    ensures Marks(Optimized(s)) == Marks(s)
    decreases |s|
  {
    PassShape(s);
    PassKeepsMarks(s);
    if |Pass(s)| != |s| {
      OptimizedKeepsMarks(Pass(s));
    }
  }

  // ----- locality -----

  lemma {:induction false} PassConcat(a: seq<Instr>, b: seq<Instr>)
    requires Readable(a) && Readable(b) && Shaped(a) && Shaped(b)
    ensures Readable(a + b) && Pass(a + b) == Pass(a) + Pass(b)
  {
    if a == [] {
      assert a + b == b;
    } else if b == [] {
      assert a + b == a;
    } else {
      hide TurnOf, ShapedInstr;
      assert (a + b)[|a + b| - 1] == b[|b| - 1];
      var t := TurnAt(a);
      assert forall i :: i in a[t.used..] ==> i in a;
      LabelTurn(a[0], b[0]);
      assert TurnAt(a + b) == t;
      assert (a + b)[t.used..] == a[t.used..] + b;
      PassConcat(a[t.used..], b);
      Associate(t.push, Pass(a[t.used..]), Pass(b));
    }
  }

  lemma LabelTurn(cur: Instr, next: Instr)
    ensures cur.op == LABEL ==> TurnOf(cur, next) == Turn([cur], 1)
  {
  }

  /** Functions are optimized independently of each other: every function's code ends in its
      end label, and no rule reaches across a label. */
  lemma {:induction false} OptimizedConcat(a: seq<Instr>, b: seq<Instr>)
    requires Readable(a) && Readable(b) && Shaped(a) && Shaped(b)
    ensures Readable(a + b) && Shaped(a + b) && Optimized(a + b) == Optimized(a) + Optimized(b)
    decreases |a| + |b|
  {
    PassConcat(a, b);
    PassShape(a);
    PassShape(b);
    PassShrinksOrKeeps(a);
    PassShrinksOrKeeps(b);
    assert Shaped(a + b);
    if |Pass(a)| == |a| && |Pass(b)| == |b| {
    } else {
      OptimizedConcat(Pass(a), Pass(b));
      if |Pass(a)| == |a| {
        assert Optimized(a) == Optimized(Pass(a));
      }
      if |Pass(b)| == |b| {
        assert Optimized(b) == Optimized(Pass(b));
      }
    }
  }
}
