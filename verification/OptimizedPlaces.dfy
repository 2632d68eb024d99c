/** Optimized code is as consistent about places as the code it comes from: what Vm proves of
    lawful code holds of the optimized program. */
module OptimizedPlaces {
  import opened Options
  import opened Bytecode
  import opened Machine
  import opened Source
  import opened Symbols
  import opened Codegen
  import opened Assembler
  import opened Optimizer
  import opened Pipeline
  import opened WholeProgram
  import opened EndToEnd
  import opened Places
  import opened Vm

  /** Consistent, with closing labels after returns. */
  ghost predicate Orderly(c: seq<Instr>, p: Place, m: Marks, returned: bool) {
    Marked(c, p, m) && AllConsistent(c, p, m) && Shut(c, p, returned)
  }

  lemma OrderlyConcat(a: seq<Instr>, b: seq<Instr>, p: Place, m: Marks, returned: bool)
    ensures Orderly(a + b, p, m, returned) <==>
            Orderly(a, p, m, returned) && Orderly(b, After(a, p), m, LastReturns(a, returned))
  {
    hide Marked, AllConsistent, Shut, After;
    MarkedConcat(a, b, p, m);
    ConsistentConcat(a, b, p, m);
    ShutConcat(a, b, p, returned);
  }

  lemma OrderlyOne(i: Instr, p: Place, m: Marks, returned: bool)
    ensures Orderly([i], p, m, returned)
            <==> Consistent(i, p, m) && (i.op == LABEL ==> i.r0 in m && m[i.r0] == p) && (IsClosing(i, p) ==> returned)
  {
    hide Consistent, IsClosing, AllConsistent, Shut;
    OneConsistent(i, p, m);
    ShutOne(i, p, returned);
    MarkedOne(i, p, m);
  }

  lemma MarkedOne(i: Instr, p: Place, m: Marks)
    ensures Marked([i], p, m) <==> (i.op == LABEL ==> i.r0 in m && m[i.r0] == p)
  {
    assert [i][1..] == [];
  }

  /** One turn of a pass: what is pushed is as orderly as what is used, and leads to the same
      place. */
  lemma TurnOrderly(s: seq<Instr>, p: Place, m: Marks, returned: bool)
    requires s != [] && Readable(s) && Shaped(s) && Orderly(s[..TurnAt(s).used], p, m, returned)
    ensures var t := TurnAt(s);
            && After(t.push, p) == After(s[..t.used], p)
            && Orderly(t.push, p, m, returned)
            && (LastReturns(s[..t.used], returned) ==> LastReturns(t.push, returned))
  {
    hide Orderly, Shaped;
    var t := TurnAt(s);
    if t.used == 1 {
      assert s[..1] == [s[0]];
      if t.push == [] {
        DroppedOrderly(s[0], p, m, returned);
      }
    } else {
      assert s[..2] == [s[0]] + [s[1]];
      ShapedAt(s, 0);
      ShapedAt(s, 1);
      PairOrderly(s[0], s[1], p, m, returned);
    }
  }

  lemma ShapedAt(s: seq<Instr>, k: nat)
    requires Shaped(s) && k < |s|
    ensures ShapedInstr(s[k])
  {
  }

  lemma DroppedOrderly(i: Instr, p: Place, m: Marks, returned: bool)
    requires i.op == MOV
    ensures After([], p) == After([i], p) == p && Orderly([], p, m, returned)
  {
    StaysOne(i, p);
  }

  lemma PairOrderly(a: Instr, b: Instr, p: Place, m: Marks, returned: bool)
    requires ShapedInstr(a) && ShapedInstr(b) && TurnOf(a, b).used == 2 && Orderly([a] + [b], p, m, returned)
    ensures var t := TurnOf(a, b);
            After(t.push, p) == After([a] + [b], p) == p && Orderly(t.push, p, m, returned)
            && (b.op == RETURN ==> LastReturns(t.push, returned))
  {
    hide Orderly, After;
    OrderlyConcat([a], [b], p, m, returned);
    AfterConcat([a], [b], p);
    PairStays(a, b, p);
    OrderlyOne(a, p, m, returned);
    OrderlyOne(b, p, m, LastReturns([a], returned));
    PairFused(a, b);
    StaysOne(TurnOf(a, b).push[0], p);
    OrderlyOne(TurnOf(a, b).push[0], p, m, returned);
  }

  lemma PairFused(a: Instr, b: Instr)
    requires ShapedInstr(a) && ShapedInstr(b) && TurnOf(a, b).used == 2
    ensures var t := TurnOf(a, b);
            && |t.push| == 1
            && (t.push == [a] || (IsJump(t.push[0].op) && IsJump(b.op) && TargetOf(t.push[0]) == TargetOf(b)))
            && (b.op == RETURN ==> t.push == [a] && a.op == RETURN)
            && (CalmOp(t.push[0].op) || Returning(t.push[0]))
  {
  }

  /** Both instructions of a pair that is rewritten stay in place. */
  lemma PairStays(a: Instr, b: Instr, p: Place)
    requires ShapedInstr(a) && ShapedInstr(b) && TurnOf(a, b).used == 2
    ensures After([a], p) == p && After([b], p) == p
  {
    PairCalm(a, b);
    StaysOne(a, p);
    StaysOne(b, p);
  }

  lemma PairCalm(a: Instr, b: Instr)
    requires ShapedInstr(a) && ShapedInstr(b) && TurnOf(a, b).used == 2
    ensures (CalmOp(a.op) || Returning(a)) && (CalmOp(b.op) || Returning(b))
  {
  }

  lemma {:induction false} PassOrderly(s: seq<Instr>, p: Place, m: Marks, returned: bool)
    requires Readable(s) && Shaped(s) && Orderly(s, p, m, returned)
    ensures Orderly(Pass(s), p, m, returned) && After(Pass(s), p) == After(s, p)
    decreases |s|
  {
    hide Orderly, Shaped, After, TurnAt;
    if s != [] {
      var t := TurnAt(s);
      var used, rest := s[..t.used], s[t.used..];
      assert s == used + rest;
      ShapedRest(s, t.used);
      OrderlyConcat(used, rest, p, m, returned);
      AfterConcat(used, rest, p);
      TurnOrderly(s, p, m, returned);
      var q := After(used, p);
      OrderlyMore(rest, q, m, LastReturns(used, returned), LastReturns(t.push, returned));
      PassOrderly(rest, q, m, LastReturns(t.push, returned));
      OrderlyConcat(t.push, Pass(rest), p, m, returned);
      AfterConcat(t.push, Pass(rest), p);
    }
  }

  lemma ShapedRest(s: seq<Instr>, k: nat)
    requires Shaped(s) && k <= |s|
    ensures Shaped(s[k..])
  {
    assert forall i :: i in s[k..] ==> i in s;
  }

  lemma OrderlyMore(c: seq<Instr>, p: Place, m: Marks, a: bool, b: bool)
    requires Orderly(c, p, m, a) && (a ==> b)
    ensures Orderly(c, p, m, b)
  {
  }

  lemma {:induction false} OptimizedOrderly(s: seq<Instr>, p: Place, m: Marks)
    requires Readable(s) && Shaped(s) && Orderly(s, p, m, false)
    ensures Orderly(Optimized(s), p, m, false) && After(Optimized(s), p) == After(s, p)
    decreases |s|
  {
    hide Orderly, Shaped, After, Pass;
    PassShape(s);
    PassOrderly(s, p, m, false);
    if |Pass(s)| != |s| {
      OptimizedOrderly(Pass(s), p, m);
    }
  }

  // ----- the marks of the optimized program are its own -----

  lemma {:induction false} MarksNames(c: seq<Instr>, p: Place)
    ensures MarksOf(c, p).Keys == LabelNames(c)
    decreases |c|
  {
    if c != [] {
      MarksNames(c[1..], Advance(c[0], p));
    }
  }

  lemma {:induction false} MarksAgree(c: seq<Instr>, p: Place, m: Marks, w: Word)
    requires Marked(c, p, m) && w in MarksOf(c, p)
    ensures w in m && m[w] == MarksOf(c, p)[w]
    decreases |c|
  {
    if c[0].op != LABEL || c[0].r0 != w {
      MarksAgree(c[1..], Advance(c[0], p), m, w);
    }
  }

  lemma {:induction false} ConsistentUnder(c: seq<Instr>, p: Place, m: Marks, m': Marks)
    requires AllConsistent(c, p, m) && (forall w :: w in m ==> w in m' && m'[w] == m[w])
    ensures AllConsistent(c, p, m')
    decreases |c|
  {
    if c != [] {
      ConsistentUnder(c[1..], Advance(c[0], p), m, m');
    }
  }

  /** Optimization keeps lawful programs lawful. */
  lemma OptimizedLawful(s: seq<Instr>)
    requires Readable(s) && Shaped(s) && Lawful(s)
    ensures Lawful(Optimized(s))
  {
    hide Marked, AllConsistent, Shut, After, UniqueLabels, Shaped, Optimized, MarksOf;
    var m, o := MarksOf(s, OUTSIDE), Optimized(s);
    OptimizedOrderly(s, OUTSIDE, m);
    OptimizedLabels(s);
    MarksNames(s, OUTSIDE);
    MarksNames(o, OUTSIDE);
    forall w | w in m
      ensures w in MarksOf(o, OUTSIDE) && MarksOf(o, OUTSIDE)[w] == m[w]
    {
      MarksAgree(o, OUTSIDE, m, w);
    }
    ConsistentUnder(o, OUTSIDE, m, MarksOf(o, OUTSIDE));
    MarksRight(o, OUTSIDE, MarksOf(o, OUTSIDE));
  }

  /** The optimized program of a class without breaks or returns out of try statements is lawful:
      every run of it resumes exceptions at the innermost dynamic handler, and dispatches only
      instructions translated exactly once. */
  lemma CompiledRunsLawfully(c: Class, e: nat, stack: seq<real>, chs: seq<Choice>, message: real)
    requires DistinctClass(c) && ContainedClass(c)
    ensures Readable(CompileClass(c).code) && Shaped(CompileClass(c).code)
    ensures Lawful(BinaryOf(c))
    ensures var code := BinaryOf(c);
            e < |code| && code[e].op == FFRAME && Possible(code, Start(code, e, stack), chs) ==>
              var vm := AfterAll(code, Start(code, e, stack), chs);
              vm.Running? ==>
                && vm.current < |vm.contexts| && vm.saved < |vm.contexts| && vm.pc < |code|
                    && |vm.translated| == |code|
                && HandlersOf(vm.contexts[vm.current]) == PlaceAt(code, vm.pc).handlers
                && Chained(code, vm.contexts, vm.current, vm.pc, vm.entered)
                && code[vm.pc].op != FFRAME && (IsReal(code[vm.pc]) ==> vm.translated[vm.pc] == 1)
                && var ds, vm' := Dynamic(code, vm.contexts, vm.current, vm.pc), Throw(code, vm, message);
                   && (ds == [] <==> vm'.Ended?)
                   && (ds != [] ==> vm'.current == ds[|ds| - 1].0 && Some(vm'.pc) == Find(code, ds[|ds| - 1].1))
  {
    hide Lawful, CompileClass, Optimized, Shaped, Start, Possible, AfterAll, Dynamic, Throw;
    ProgramReadable(c);
    ProgramLawful(c);
    OptimizedLawful(CompileClass(c).code);
    var code := BinaryOf(c);
    if e < |code| && code[e].op == FFRAME && Possible(code, Start(code, e, stack), chs) {
      EveryRun(code, e, stack, chs, message);
    }
  }
}
