/** The optimizer keeps balanced code balanced, as long as no comparison stands between the
    arguments of a call and the call: one that does may swallow the call. */
module OptimizedStack {
  import opened Options
  import opened Bytecode
  import opened Labels
  import opened Source
  import opened Symbols
  import opened Codegen
  import opened Optimizer
  import opened WholeProgram
  import opened EndToEnd
  import opened Places
  import opened StackCode
  import opened Vm
  import opened StackRuns
  import opened OptimizedPlaces

  /** Every flow but Bad stays as it is over the turn. */
  predicate SameFlow(s: seq<Instr>, f: Flow)
    requires s != [] && Readable(s)
  {
    Through(s[..TurnAt(s).used], f) != Bad ==> Through(TurnAt(s).push, f) == Through(s[..TurnAt(s).used], f)
  }

  lemma TurnFlow(s: seq<Instr>, f: Flow, compared: bool)
    requires Readable(s) && Shaped(s) && s != [] && Apart(s, compared)
    ensures SameFlow(s, f)
  {
    var t := TurnAt(s);
    assert s[0] in s;
    if t.used == 2 {
      assert s[1] in s && s[..2] == [s[0]] + [s[1]];
      ThroughConcat([s[0]], [s[1]], f);
      ThroughOne(s[0], f);
      ThroughOne(s[1], Onward(s[0], f));
      ThroughOne(t.push[0], f);
      PairFlow(s[0], s[1], t.push[0], f, compared);
    } else {
      assert s[..1] == [s[0]];
      ThroughOne(s[0], f);
    }
  }

  /** Two instructions that became one. */
  lemma PairFlow(cur: Instr, next: Instr, i: Instr, f: Flow, compared: bool)
    requires ShapedInstr(cur) && ShapedInstr(next) && TurnOf(cur, next) == Turn([i], 2)
    requires next.op == CALL && next.r2 != Idx(0) ==> !Compared(cur, compared)
    ensures var g := Onward(next, Onward(cur, f)); g != Bad ==> Onward(i, f) == g
  {
  }

  lemma {:induction false} PassBalanced(s: seq<Instr>, f: Flow, compared: bool)
    requires Readable(s) && Shaped(s) && Through(s, f) != Bad && Apart(s, compared)
    ensures Through(Pass(s), f) == Through(s, f) && Apart(Pass(s), compared)
    decreases |s|
  {
    hide TurnOf, Onward, ShapedInstr, Compared;
    if s != [] {
      var t := TurnAt(s);
      var rest := s[t.used..];
      assert s == s[..t.used] + rest;
      assert forall i :: i in rest ==> i in s;
      TurnFlow(s, f, compared);
      ThroughConcat(s[..t.used], rest, f);
      if Through(s[..t.used], f) == Bad {
        BadStays(rest);
      }
      ThroughConcat(t.push, Pass(rest), f);
      ApartConcat(s[..t.used], rest, compared);
      PassBalanced(rest, Through(t.push, f), ComparedAfter(s[..t.used], compared));
      TurnApart(s, compared);
      ApartConcat(t.push, Pass(rest), compared);
      ApartWeaker(Pass(rest), ComparedAfter(s[..t.used], compared), ComparedAfter(t.push, compared));
    }
  }

  lemma {:induction false} ApartWeaker(c: seq<Instr>, x: bool, y: bool)
    requires Apart(c, x) && (y ==> x)
    ensures Apart(c, y)
    decreases |c|
  {
    if c != [] {
      ApartWeaker(c[1..], Compared(c[0], x), Compared(c[0], y));
    }
  }

  lemma TurnApart(s: seq<Instr>, compared: bool)
    requires Readable(s) && Shaped(s) && s != [] && Apart(s, compared)
    ensures Apart(TurnAt(s).push, compared)
    ensures ComparedAfter(TurnAt(s).push, compared) ==> ComparedAfter(s[..TurnAt(s).used], compared)
  {
    var t := TurnAt(s);
    assert s[0] in s;
    if t.used == 2 {
      assert s[1] in s && s[..2] == [s[0]] + [s[1]];
      ApartConcat([s[0]], [s[1]], compared);
      assert [s[0]][1..] == [] && [s[1]][1..] == [] && t.push[1..] == [];
      PairCompared(s[0], s[1], t.push[0], compared);
    } else {
      assert s[..1] == [s[0]] && [s[0]][1..] == [];
    }
  }

  lemma PairCompared(cur: Instr, next: Instr, i: Instr, compared: bool)
    requires ShapedInstr(cur) && ShapedInstr(next) && TurnOf(cur, next) == Turn([i], 2)
    requires cur.op == CALL && cur.r2 != Idx(0) ==> !compared
    ensures i.op == CALL ==> i == cur
    ensures Compared(i, compared) ==> Compared(next, Compared(cur, compared))
  {
  }

  lemma {:induction false} OptimizedBalanced(s: seq<Instr>)
    requires Readable(s) && Shaped(s) && Balanced(s) && Apart(s, true)
    ensures Balanced(Optimized(s)) && Apart(Optimized(s), true)
    decreases |s|
  {
    hide Through, Apart;
    PassShape(s);
    PassBalanced(s, Dead, true);
    PassCatches(s);
    if |Pass(s)| != |s| {
      OptimizedBalanced(Pass(s));
    }
  }

  lemma {:induction false} PassCatches(s: seq<Instr>)
    requires Readable(s) && Shaped(s) && Catches(s)
    ensures Catches(Pass(s))
    decreases |s|
  {
    hide TurnOf, IsCatch;
    if s != [] {
      var t := TurnAt(s);
      assert forall i :: i in s[t.used..] ==> i in s;
      assert forall k :: 0 <= k < |s[t.used..]| ==> s[t.used..][k] == s[t.used + k];
      PassCatches(s[t.used..]);
      PushCatches(s);
    }
  }

  lemma PushCatches(s: seq<Instr>)
    requires Readable(s) && s != []
    ensures var t := TurnAt(s); t.push != [] && t.push[0].op == SET_CATCH ==> t.push[0] == s[0]
  {
  }

  /** In every run of the optimized program of a class without constructor parameters, whose
      calls with arguments call bare names, and without breaks or returns out of try statements:
      no instruction takes from the stack what its activation has not put there; and when nothing
      was thrown an activation returns with the stack it began with. */
  lemma CompiledKeepsStack(c: Class, e: nat, stack: seq<real>, chs: seq<Choice>)
    requires DistinctClass(c) && ContainedClass(c) && c.params == [] && NamedClass(c)
    ensures Readable(CompileClass(c).code) && Shaped(CompileClass(c).code)
    ensures Lawful(BinaryOf(c)) && Balanced(BinaryOf(c))
    ensures var code := BinaryOf(c);
            e < |code| && code[e].op == FFRAME && Possible(code, Start(code, e, stack), chs) ==>
              var vm := AfterAll(code, Start(code, e, stack), chs);
              vm.Running? ==>
                && vm.current < |vm.contexts| && vm.pc < |code|
                && var entry := vm.contexts[vm.current].entry;
                   && |entry| <= |vm.stack| && vm.stack[..|entry|] == entry
                   && (code[vm.pc].op == POP ==> |entry| + 1 <= |vm.stack|)
                   && (code[vm.pc].op == CALL ==> code[vm.pc].r2.Idx? && |entry| + code[vm.pc].r2.n <= |vm.stack|)
                   && (code[vm.pc].op == RETURN && AllNormally(code, Start(code, e, stack), chs) ==> vm.stack == entry)
  {
    hide Lawful, Balanced, Possible, Start, AfterAll, AllNormally, Optimized, CompileClass, Apart, NamedClass;
    ProgramReadable(c);
    ProgramLawful(c);
    ProgramBalanced(c);
    OptimizedLawful(CompileClass(c).code);
    OptimizedBalanced(CompileClass(c).code);
    var code := BinaryOf(c);
    if e < |code| && code[e].op == FFRAME && Possible(code, Start(code, e, stack), chs) {
      EveryStack(code, e, stack, chs);
    }
  }
}
