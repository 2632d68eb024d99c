/** How high the operand stack of an activation is at each instruction. Emitted code never takes
    more than it has pushed, meets every label with one height - 1 where an exception's message
    waits for its POP, else 0 - and returns with nothing of its own on the stack. */
module StackCode {
  import opened Options
  import opened Bytecode
  import opened Registers
  import opened Labels
  import opened Source
  import opened Symbols
  import opened Codegen
  import opened Assembler
  import opened CodeShape
  import opened WholeProgram
  import opened Places

  /** Live: that many operands of the activation are on the stack. Dead: not reached by falling.
      Bad: too few operands, or two heights for one label. */
  datatype Flow = Live(height: nat) | Dead | Bad

  predicate IsCatch(w: Word) { w.Name? && CATCH <= w.s }

  function LabelHeight(w: Word): nat { if IsCatch(w) then 1 else 0 }

  function Onward(i: Instr, f: Flow): Flow {
    if i.op == LABEL then
      if f == Dead || f == Live(LabelHeight(i.r0)) then Live(LabelHeight(i.r0)) else Bad
    else if i.op == FFRAME then
      if f == Dead || f == Live(0) then Live(0) else Bad
    else if !f.Live? then f
    else if i.op == PUSH then Live(f.height + 1)
    else if i.op == POP then if f.height == 0 then Bad else Live(f.height - 1)
    else if i.op == CALL then if i.r2.Idx? && i.r2.n <= f.height then Live(f.height - i.r2.n) else Bad
    else if IsJump(i.op) then
      if f.height != LabelHeight(TargetOf(i)) then Bad else if i.op == JMP then Dead else f
    else if i.op == RETURN then if f.height == 0 then Dead else Bad
    else if i.op == THROW_EXCEPTION then Dead
    else if i.op == SET_CATCH then if f.height == 0 && IsCatch(i.r0) then f else Bad
    else f
  }

  function Through(c: seq<Instr>, f: Flow): Flow
    decreases |c|
  {
    if c == [] then f else Through(c[1..], Onward(c[0], f))
  }

  lemma {:induction false} ThroughConcat(a: seq<Instr>, b: seq<Instr>, f: Flow)
    ensures Through(a + b, f) == Through(b, Through(a, f))
    decreases |a|
  {
    hide Onward;
    if a == [] {
      assert a + b == b;
    } else {
      assert (a + b)[0] == a[0] && (a + b)[1..] == a[1..] + b;
      ThroughConcat(a[1..], b, Onward(a[0], f));
    }
  }

  lemma ThroughOne(i: Instr, f: Flow)
    ensures Through([i], f) == Onward(i, f)
  {
    assert [i][1..] == [];
  }

  /** Handlers are named as such, also where the code is not reached by falling. */
  predicate Catches(c: seq<Instr>) { forall k :: 0 <= k < |c| && c[k].op == SET_CATCH ==> IsCatch(c[k].r0) }

  ghost predicate Balanced(code: seq<Instr>) { Through(code, Dead) != Bad && Catches(code) }

  // ----- calls and comparisons -----

  /** Whether a comparison follows the last PUSH. */
  function Compared(i: Instr, b: bool): bool { if i.op == PUSH then false else IsCompare(i.op) || b }

  function ComparedAfter(c: seq<Instr>, b: bool): bool
    decreases |c|
  {
    if c == [] then b else ComparedAfter(c[1..], Compared(c[0], b))
  }

  /** No comparison stands between the last PUSH for a call and the call. */
  predicate Apart(c: seq<Instr>, b: bool)
    decreases |c|
  {
    c == [] || ((c[0].op == CALL && c[0].r2 != Idx(0) ==> !b) && Apart(c[1..], Compared(c[0], b)))
  }

  lemma {:induction false} ApartConcat(a: seq<Instr>, b: seq<Instr>, x: bool)
    ensures Apart(a + b, x) <==> Apart(a, x) && Apart(b, ComparedAfter(a, x))
    ensures ComparedAfter(a + b, x) == ComparedAfter(b, ComparedAfter(a, x))
    decreases |a|
  {
    hide Compared;
    if a == [] {
      assert a + b == b;
    } else {
      assert (a + b)[0] == a[0] && (a + b)[1..] == a[1..] + b;
      ApartConcat(a[1..], b, Compared(a[0], x));
    }
  }

  lemma {:induction false} ApartLess(c: seq<Instr>, x: bool)
    requires Apart(c, true)
    ensures Apart(c, x)
    ensures ComparedAfter(c, x) ==> ComparedAfter(c, true)
    decreases |c|
  {
    if c != [] && !x {
      if Compared(c[0], true) != Compared(c[0], false) {
        ApartLess(c[1..], false);
      }
    }
  }

  // ----- straight-line code -----

  /** Code that leaves n operands, if it can be fallen through. */
  ghost predicate Lifts(c: seq<Instr>, n: nat) {
    Through(c, Dead) == Dead && forall k: nat :: Through(c, Live(k)) == Live(k + n) || Through(c, Live(k)) == Dead
  }

  /** named: every call with arguments calls a bare name. */
  ghost predicate Even(c: seq<Instr>, n: nat, named: bool) { Lifts(c, n) && (named ==> Apart(c, true)) }

  lemma EvenConcat(a: seq<Instr>, m: nat, b: seq<Instr>, n: nat, named: bool)
    requires Even(a, m, named) && Even(b, n, named)
    ensures Even(a + b, m + n, named)
  {
    hide Through, Apart;
    ThroughConcat(a, b, Dead);
    forall k: nat
      ensures Through(a + b, Live(k)) == Live(k + (m + n)) || Through(a + b, Live(k)) == Dead
    {
      ThroughConcat(a, b, Live(k));
      assert Through(a, Live(k)) == Live(k + m) || Through(a, Live(k)) == Dead;
      assert Through(b, Live(k + m)) == Live(k + m + n) || Through(b, Live(k + m)) == Dead;
    }
    if named {
      ApartConcat(a, b, true);
      ApartLess(b, ComparedAfter(a, true));
    }
  }

  predicate Still(op: nat) { CalmOp(op) && op != PUSH && op != POP && op != CALL }

  lemma EvenOne(i: Instr, named: bool)
    requires Still(i.op)
    ensures Even([i], 0, named)
  {
    ThroughOne(i, Dead);
    forall k: nat
      ensures Through([i], Live(k)) == Live(k + 0) || Through([i], Live(k)) == Dead
    {
      ThroughOne(i, Live(k));
    }
  }

  lemma EvenNothing(named: bool)
    ensures Even([], 0, named)
  {
  }

  lemma PushEven(r: nat, named: bool)
    ensures Even([Instr(PUSH, Idx(r), NULL, NULL)], 1, named)
    ensures !ComparedAfter([Instr(PUSH, Idx(r), NULL, NULL)], true)
  {
    var i := Instr(PUSH, Idx(r), NULL, NULL);
    ThroughOne(i, Dead);
    forall k: nat
      ensures Through([i], Live(k)) == Live(k + 1)
    {
      ThroughOne(i, Live(k));
    }
  }

  /** Every call with arguments calls a bare name. */
  predicate NamedCalls(e: Expr) {
    match e
    case Binary(_, l, r) => NamedCalls(l) && NamedCalls(r)
    case Assign(_, v) => NamedCalls(v)
    case MethodCall(c, args) => NamedCalls(c) && (args != [] ==> c.Ident?) && forall a :: a in args ==> NamedCalls(a)
    case ThrowPrefix(v) => NamedCalls(v)
    case _ => true
  }

  lemma KindsStill(op: Op)
    ensures Still(Opcode(op)) && Still(MOV_STR) && Still(SET_FIELD) && Still(THROW_EXCEPTION)
  {
  }

  /** The code of an expression leaves the stack as it was. */
  lemma {:induction false} ExprEven(e: Expr, dest: nat, t: Table, p: Pool)
    ensures Even(CompileExpr(e, dest, t, p).code, 0, NamedCalls(e))
    decreases e, 1
  {
    hide Even, CompileExpr, Opcode, Still, FreeBoth, Release, Take, Taken, Target, TargetPool, CompileArguments;
    var named := NamedCalls(e);
    KindsStill(Plus);
    match e
    case Binary(op, l, r) =>
      var lo := CompileExpr(l, 0, t, p);
      var ro := CompileExpr(r, 0, t, lo.pool);
      var i := Instr(Opcode(op), Idx(lo.reg), Idx(ro.reg), Idx(Target(|t|, dest, ro.pool)));
      BinaryParted(op, l, r, dest, t, p);
      ExprNamed(l, 0, t, p, named);
      ExprNamed(r, 0, t, lo.pool, named);
      EvenConcat(lo.code, 0, ro.code, 0, named);
      KindsStill(op);
      EvenOne(i, named);
      EvenConcat(lo.code + ro.code, 0, [i], 0, named);
    case Assign(x, v) =>
      AssignParted(x, v, dest, t, p);
      var name := Instr(MOV_STR, Idx(Taken(|t|, p)), Name(x), NULL);
      var vo := CompileExpr(v, 0, t, Take(p));
      var set0 := Instr(SET_FIELD, Idx(1), Idx(Taken(|t|, p)), Idx(vo.reg));
      ExprNamed(v, 0, t, Take(p), named);
      ExprNamed(v, RegisterOf(t, x), t, p, named);
      EvenOne(name, named);
      EvenConcat([name], 0, vo.code, 0, named);
      EvenOne(set0, named);
      EvenConcat([name] + vo.code, 0, [set0], 0, named);
    case MethodCall(c, args) => CallEven(c, args, dest, t, p);
    case ThrowPrefix(v) =>
      ThrowParted(v, dest, t, p);
      var o := CompileExpr(v, 0, t, p);
      ExprNamed(v, 0, t, p, named);
      EvenOne(Instr(THROW_EXCEPTION, Idx(o.reg), NULL, NULL), named);
      EvenConcat(o.code, 0, [Instr(THROW_EXCEPTION, Idx(o.reg), NULL, NULL)], 0, named);
    case _ => LeafEven(e, dest, t, p, named);
  }

  /** A part of an expression is as named as the whole. */
  lemma {:induction false} ExprNamed(e: Expr, dest: nat, t: Table, p: Pool, named: bool)
    requires named ==> NamedCalls(e)
    ensures Even(CompileExpr(e, dest, t, p).code, 0, named)
    decreases e, 2
  {
    hide CompileExpr, Lifts, Apart, NamedCalls;
    ExprEven(e, dest, t, p);
  }

  lemma LeafEven(e: Expr, dest: nat, t: Table, p: Pool, named: bool)
    requires e.Number? || e.Ident? || e.Postfix?
    ensures Even(CompileExpr(e, dest, t, p).code, 0, named)
  {
    hide Even, Release, Take, Taken, Target, TargetPool;
    var c := CompileExpr(e, dest, t, p).code;
    StillEven(c, named);
  }

  lemma {:induction false} StillEven(c: seq<Instr>, named: bool)
    requires forall k :: 0 <= k < |c| ==> Still(c[k].op)
    ensures Even(c, 0, named)
    decreases |c|
  {
    hide Even, Still;
    if c == [] {
      EvenNothing(named);
    } else {
      EvenOne(c[0], named);
      StillEven(c[1..], named);
      EvenConcat([c[0]], 0, c[1..], 0, named);
      assert [c[0]] + c[1..] == c;
    }
  }

  /** The arguments leave one operand each; a PUSH was the last to matter to comparisons. */
  lemma {:induction false} ArgumentsEven(args: seq<Expr>, t: Table, c: CallCode, k: nat, named: bool)
    requires Even(c.code, k, named) && (named ==> forall a :: a in args ==> NamedCalls(a))
    ensures Even(CompileArguments(args, t, c).code, k + |args|, named)
    ensures args != [] || !ComparedAfter(c.code, true) ==> !ComparedAfter(CompileArguments(args, t, c).code, true)
    decreases args, 3
  {
    hide Even, CompileExpr, ComparedAfter, NamedCalls;
    if args != [] {
      var e := args[|args| - 1];
      var o := CompileExpr(e, c.next, t, c.pool);
      var push := Instr(PUSH, Idx(o.reg), NULL, NULL);
      var d := CallCode(c.code + o.code + [push], c.result, o.reg, o.pool);
      ExprNamed(e, c.next, t, c.pool, named);
      EvenConcat(c.code, k, o.code, 0, named);
      PushEven(o.reg, named);
      EvenConcat(c.code + o.code, k, [push], 1, named);
      ApartConcat(c.code + o.code, [push], true);
      PushForgets(o.reg, ComparedAfter(c.code + o.code, true));
      ArgumentsEven(args[..|args| - 1], t, d, k + 1, named);
    }
  }

  lemma PushForgets(r: nat, x: bool)
    ensures !ComparedAfter([Instr(PUSH, Idx(r), NULL, NULL)], x)
  {
  }

  lemma {:induction false} CallEven(c: Expr, args: seq<Expr>, dest: nat, t: Table, p: Pool)
    ensures Even(CompileExpr(MethodCall(c, args), dest, t, p).code, 0, NamedCalls(MethodCall(c, args)))
    decreases MethodCall(c, args), 0
  {
    hide Even, CompileExpr, CompileArguments, Take, Taken, Target, TargetPool, Release;
    var named := NamedCalls(MethodCall(c, args));
    CallParted(c, args, dest, t, p);
    var a := CompileArguments(args, t, BeginCall(dest, t, p));
    var o := CompileExpr(c, 0, t, Release(|t|, a.pool, a.next));
    EvenNothing(named);
    ArgumentsEven(args, t, BeginCall(dest, t, p), 0, named);
    ExprNamed(c, 0, t, Release(|t|, a.pool, a.next), named);
    EvenConcat(a.code, |args|, o.code, 0, named);
    if named && args != [] {
      CalleeCompares(c, t, Release(|t|, a.pool, a.next));
      ApartConcat(a.code, o.code, true);
    }
    CallEnds(a.code + o.code, Instr(CALL, Idx(o.reg), Idx(a.result), Idx(|args|)), |args|, named);
  }

  /** The lookup of a name compares nothing. */
  lemma CalleeCompares(c: Expr, t: Table, p: Pool)
    requires c.Ident?
    ensures !ComparedAfter(CompileExpr(c, 0, t, p).code, false)
  {
  }

  lemma CallEnds(c: seq<Instr>, call: Instr, n: nat, named: bool)
    requires Even(c, n, named) && call.op == CALL && call.r2 == Idx(n)
    requires named && n > 0 ==> !ComparedAfter(c, true)
    ensures Even(c + [call], 0, named)
  {
    hide Through;
    ThroughConcat(c, [call], Dead);
    ThroughOne(call, Dead);
    forall k: nat
      ensures Through(c + [call], Live(k)) == Live(k + 0) || Through(c + [call], Live(k)) == Dead
    {
      ThroughConcat(c, [call], Live(k));
      ThroughOne(call, Through(c, Live(k)));
      assert Through(c, Live(k)) == Live(k + n) || Through(c, Live(k)) == Dead;
    }
    ApartConcat(c, [call], true);
  }

  // ----- statements -----

  predicate Settled(f: Flow) { f == Live(0) || f == Dead }

  /** Code between statements: no operand is left before it or after it. */
  ghost predicate Settles(c: seq<Instr>) { Settled(Through(c, Live(0))) && Settled(Through(c, Dead)) }

  ghost predicate Sound(c: seq<Instr>, named: bool) { Settles(c) && Catches(c) && (named ==> Apart(c, true)) }

  lemma SoundConcat(a: seq<Instr>, b: seq<Instr>, named: bool)
    requires Sound(a, named) && Sound(b, named)
    ensures Sound(a + b, named)
  {
    hide Through, Apart;
    ThroughConcat(a, b, Live(0));
    ThroughConcat(a, b, Dead);
    if named {
      ApartConcat(a, b, true);
      ApartLess(b, ComparedAfter(a, true));
    }
  }

  lemma EvenSound(c: seq<Instr>, named: bool)
    requires Even(c, 0, named) && Calm(c)
    ensures Sound(c, named)
  {
    hide Through, Apart;
    assert Through(c, Live(0)) == Live(0 + 0) || Through(c, Live(0)) == Dead;
  }

  /** Single instructions between statements. */
  predicate Plainest(i: Instr) {
    && i.op != PUSH && i.op != POP && i.op != CALL
    && (i.op == LABEL ==> !IsCatch(i.r0)) && (IsJump(i.op) ==> !IsCatch(TargetOf(i)))
    && (i.op == SET_CATCH ==> IsCatch(i.r0))
  }

  lemma SoundOne(i: Instr, named: bool)
    requires Plainest(i)
    ensures Sound([i], named)
  {
    ThroughOne(i, Live(0));
    ThroughOne(i, Dead);
  }

  lemma SoundNothing(named: bool)
    ensures Sound([], named)
  {
  }

  lemma ExprSound(e: Expr, dest: nat, t: Table, p: Pool, named: bool)
    requires named ==> NamedCalls(e)
    ensures Sound(CompileExpr(e, dest, t, p).code, named)
  {
    hide CompileExpr, Sound, Even, Calm, NamedCalls;
    ExprNamed(e, dest, t, p, named);
    ExprCalm(e, dest, t, p);
    EvenSound(CompileExpr(e, dest, t, p).code, named);
  }

  /** An expression and the instruction that uses it. */
  lemma UseSound(e: Expr, dest: nat, t: Table, p: Pool, i: Instr, named: bool)
    requires (named ==> NamedCalls(e)) && Plainest(i)
    ensures Sound(CompileExpr(e, dest, t, p).code + [i], named)
  {
    hide CompileExpr, Sound, NamedCalls, Plainest;
    ExprSound(e, dest, t, p, named);
    SoundOne(i, named);
    SoundConcat(CompileExpr(e, dest, t, p).code, [i], named);
  }

  predicate NamedOption(e: Option<Expr>) { e.Some? ==> NamedCalls(e.value) }

  predicate NamedStmt(s: Stmt)
    decreases s, 1
  {
    match s
    case Var(_, v, _) => NamedCalls(v)
    case Do(e) => NamedCalls(e)
    case Return(e) => NamedCalls(e)
    case Block(b) => AllNamed(b)
    case If(c, t, hasElse, e) => NamedCalls(c) && AllNamed(t) && (hasElse ==> AllNamed(e))
    case Loop(i, c, n, b) => NamedOption(i) && NamedOption(c) && NamedOption(n) && AllNamed(b)
    case Try(b, _, h, hasFinally, f) => AllNamed(b) && AllNamed(h) && (hasFinally ==> AllNamed(f))
    case _ => true
  }

  predicate AllNamed(ss: seq<Stmt>)
    decreases ss, 0
  {
    ss == [] || (NamedStmt(ss[0]) && AllNamed(ss[1..]))
  }

  /** Loop ends are not catch labels. */
  predicate Exits(ends: seq<string>) { forall k :: 0 <= k < |ends| ==> !IsCatch(Name(ends[k])) }

  lemma TagKinds(n: nat)
    ensures IsCatch(Name(Tag(CATCH, n))) && !IsCatch(Name(Tag(FINALLY, n))) && !IsCatch(Name(Tag(ELSE, n)))
    ensures !IsCatch(Name(Tag(END_CONDITIONAL, n))) && !IsCatch(Name(Tag(LOOP_START, n)))
    ensures !IsCatch(Name(Tag(LOOP_END, n))) && !IsCatch(Name(Tag(LOOP_CONDITION, n)))
  {
    assert CATCH[1] == 'c';
    assert Tag(FINALLY, n)[1] == 'f' && Tag(ELSE, n)[1] == 'e' && Tag(END_CONDITIONAL, n)[1] == 'e';
    assert Tag(LOOP_START, n)[1] == 'l' && Tag(LOOP_END, n)[1] == 'l' && Tag(LOOP_CONDITION, n)[1] == 'l';
    assert Tag(CATCH, n)[..|CATCH|] == CATCH;
  }

  lemma TagSound(l: string, named: bool)
    requires !IsCatch(Name(l))
    ensures Sound([Label(l)], named) && Sound([Jump(l)], named)
  {
    SoundOne(Label(l), named);
    SoundOne(Jump(l), named);
  }

  lemma {:induction false} HoistSound(ss: seq<Stmt>, t: Table, named: bool)
    ensures Sound(Hoist(ss, t), named)
  {
    hide Sound;
    if ss == [] {
      SoundNothing(named);
    } else {
      HoistSound(ss[1..], t, named);
      SoundNothing(named);
      if ss[0].Define? {
        SoundOne(LoadFunction(ss[0].f, t), named);
        SoundConcat([LoadFunction(ss[0].f, t)], Hoist(ss[1..], t), named);
      } else {
        SoundConcat([], Hoist(ss[1..], t), named);
      }
    }
  }

  lemma {:induction false} StmtSound(s: Stmt, t: Table, ends: seq<string>, p: Pool, n: nat, named: bool)
    requires (named ==> NamedStmt(s)) && Exits(ends)
    ensures Sound(CompileStmt(s, t, ends, p, n).code, named)
    decreases s, 1
  {
    hide CompileExpr, CompileBody, Sound, Tag, Release, NamedCalls;
    match s
    case Var(x, v, _) =>
      var o := CompileExpr(v, RegisterOf(t, x), t, p);
      ExprSound(v, RegisterOf(t, x), t, p, named);
      UseSound(v, RegisterOf(t, x), t, p, Instr(MOV, Idx(RegisterOf(t, x)), Idx(o.reg), NULL), named);
    case Do(e) => ExprSound(e, 0, t, p, named);
    case Return(e) => UseSound(e, 0, t, p, Instr(RETURN, Idx(CompileExpr(e, 0, t, p).reg), NULL, NULL), named);
    case Break =>
      SoundNothing(named);
      if ends != [] {
        TagSound(ends[|ends| - 1], named);
      }
    case Block(b) => BodySound(b, t, ends, p, n, named);
    case If(_, _, _, _) => IfSound(s, t, ends, p, n, named);
    case Loop(_, _, _, _) => LoopSound(s, t, ends, p, n, named);
    case Try(_, _, _, _, _) => TrySound(s, t, ends, p, n, named);
    case Define(_) => SoundNothing(named);
  }

  lemma {:induction false} BodySound(ss: seq<Stmt>, t: Table, ends: seq<string>, p: Pool, n: nat, named: bool)
    requires (named ==> AllNamed(ss)) && Exits(ends)
    ensures Sound(CompileBody(ss, t, ends, p, n).code, named)
    decreases ss, 3
  {
    hide Sound, CompileAll, AllNamed;
    HoistSound(ss, t, named);
    AllSound(ss, t, ends, p, n, named);
    SoundConcat(Hoist(ss, t), CompileAll(ss, t, ends, p, n).code, named);
  }

  lemma {:induction false} AllSound(ss: seq<Stmt>, t: Table, ends: seq<string>, p: Pool, n: nat, named: bool)
    requires (named ==> AllNamed(ss)) && Exits(ends)
    ensures Sound(CompileAll(ss, t, ends, p, n).code, named)
    decreases ss, 2
  {
    hide Sound, CompileStmt, NamedStmt;
    if ss == [] {
      SoundNothing(named);
    } else {
      var a := CompileStmt(ss[0], t, ends, p, n);
      StmtSound(ss[0], t, ends, p, n, named);
      AllSound(ss[1..], t, ends, a.pool, a.labels, named);
      SoundConcat(a.code, CompileAll(ss[1..], t, ends, a.pool, a.labels).code, named);
    }
  }

  lemma NamedParts(s: Stmt)
    requires NamedStmt(s)
    ensures s.If? ==> NamedCalls(s.cond) && AllNamed(s.thn) && (s.hasElse ==> AllNamed(s.els))
    ensures s.Loop? ==> NamedOption(s.start) && NamedOption(s.condition) && NamedOption(s.iter) && AllNamed(s.body)
    ensures s.Try? ==> AllNamed(s.body) && AllNamed(s.handler) && (s.hasFinally ==> AllNamed(s.finallyBody))
  {
  }

  lemma {:induction false} IfSound(s: Stmt, t: Table, ends: seq<string>, p: Pool, n: nat, named: bool)
    requires s.If? && (named ==> NamedStmt(s)) && Exits(ends)
    ensures Sound(CompileStmt(s, t, ends, p, n).code, named)
    decreases s, 0
  {
    hide CompileExpr, CompileBody, CompileStmt, Sound, Tag, Release, Label, Jump, NamedStmt, NamedCalls, AllNamed,
         IsCatch;
    if named {
      NamedParts(s);
    }
    IfParted(s, t, ends, p, n);
    var c := IfParts(s, t, ends, p, n);
    var test := Instr(JMP_NOT_TRUE, Idx(c.cond.reg), Name(Tag(ELSE, n + 1)), NULL);
    var jump := if s.hasElse then [Jump(Tag(END_CONDITIONAL, n + 2))] else [];
    TagKinds(n + 1);
    TagKinds(n + 2);
    UseSound(s.cond, 0, t, p, test, named);
    BodySound(s.thn, t, ends, Release(|t|, c.cond.pool, c.cond.reg), n + 2, named);
    SoundConcat(c.cond.code + [test], c.thn.code, named);
    SoundNothing(named);
    TagSound(Tag(END_CONDITIONAL, n + 2), named);
    TagSound(Tag(ELSE, n + 1), named);
    if s.hasElse {
      BodySound(s.els, t, ends, c.thn.pool, c.thn.labels, named);
    }
    SoundConcat(c.cond.code + [test] + c.thn.code, jump, named);
    SoundConcat(c.cond.code + [test] + c.thn.code + jump, [Label(Tag(ELSE, n + 1))], named);
    SoundConcat(c.cond.code + [test] + c.thn.code + jump + [Label(Tag(ELSE, n + 1))], c.els.code, named);
    SoundConcat(c.cond.code + [test] + c.thn.code + jump + [Label(Tag(ELSE, n + 1))] + c.els.code,
                [Label(Tag(END_CONDITIONAL, n + 2))], named);
  }

  lemma EffectSound(e: Option<Expr>, t: Table, p: Pool, n: nat, named: bool)
    requires named ==> NamedOption(e)
    ensures Sound(CompileEffect(e, t, p, n).code, named)
  {
    hide CompileExpr, Sound, NamedCalls;
    SoundNothing(named);
    if e.Some? {
      ExprSound(e.value, 0, t, p, named);
    }
  }

  lemma ConditionSound(e: Option<Expr>, target: string, t: Table, p: Pool, n: nat, named: bool)
    requires (named ==> NamedOption(e)) && !IsCatch(Name(target))
    ensures Sound(CompileCondition(e, target, t, p, n).code, named)
  {
    hide CompileExpr, Sound, NamedCalls, IsCatch;
    SoundNothing(named);
    if e.Some? {
      UseSound(e.value, 0, t, p, Instr(JMP_TRUE, Idx(CompileExpr(e.value, 0, t, p).reg), Name(target), NULL), named);
    }
  }

  lemma {:induction false} LoopSound(s: Stmt, t: Table, ends: seq<string>, p: Pool, n: nat, named: bool)
    requires s.Loop? && (named ==> NamedStmt(s)) && Exits(ends)
    ensures Sound(CompileStmt(s, t, ends, p, n).code, named)
    decreases s, 0
  {
    hide CompileExpr, CompileEffect, CompileCondition, CompileBody, CompileStmt, Sound, Tag, Release, Label, Jump,
         NamedStmt, NamedOption, AllNamed, IsCatch;
    if named {
      NamedParts(s);
    }
    LoopParted(s, t, ends, p, n);
    var c := LoopParts(s, t, ends, p, n);
    var ls, le, lc := Tag(LOOP_START, n + 1), Tag(LOOP_END, n + 2), Tag(LOOP_CONDITION, n + 3);
    var js := [Jump(lc), Label(ls)];
    TagKinds(n + 1);
    TagKinds(n + 2);
    TagKinds(n + 3);
    TagSound(ls, named);
    TagSound(le, named);
    TagSound(lc, named);
    EffectSound(s.start, t, p, n + 3, named);
    SoundConcat([Jump(lc)], [Label(ls)], named);
    assert js == [Jump(lc)] + [Label(ls)];
    SoundConcat(c.start.code, js, named);
    BodySound(s.body, t, ends + [le], c.start.pool, n + 3, named);
    SoundConcat(c.start.code + js, c.body.code, named);
    EffectSound(s.iter, t, c.body.pool, c.body.labels, named);
    SoundConcat(c.start.code + js + c.body.code, c.iter.code, named);
    SoundConcat(c.start.code + js + c.body.code + c.iter.code, [Label(lc)], named);
    ConditionSound(s.condition, ls, t, c.iter.pool, c.iter.labels, named);
    SoundConcat(c.start.code + js + c.body.code + c.iter.code + [Label(lc)], c.cond.code, named);
    SoundConcat(c.start.code + js + c.body.code + c.iter.code + [Label(lc)] + c.cond.code, [Label(le)], named);
  }

  /** Between a try body and its handler: the message that waits at the catch label is popped. */
  lemma HandlerSound(skip: string, l: string, r: nat, named: bool)
    requires !IsCatch(Name(skip)) && IsCatch(Name(l))
    ensures Sound([Jump(skip), Label(l)] + [Instr(POP, Idx(r), NULL, NULL)], named)
  {
    var c := [Jump(skip), Label(l)] + [Instr(POP, Idx(r), NULL, NULL)];
    assert c[1..] == [Label(l), Instr(POP, Idx(r), NULL, NULL)];
    assert c[1..][1..] == [Instr(POP, Idx(r), NULL, NULL)] && c[1..][1..][1..] == [];
    ThroughOne(Instr(POP, Idx(r), NULL, NULL), Live(1));
    assert Apart(c[1..][1..], true) && Apart(c[1..], true);
  }

  lemma {:induction false} TrySound(s: Stmt, t: Table, ends: seq<string>, p: Pool, n: nat, named: bool)
    requires s.Try? && (named ==> NamedStmt(s)) && Exits(ends)
    ensures Sound(CompileStmt(s, t, ends, p, n).code, named)
    decreases s, 0
  {
    hide CompileBody, CompileStmt, Sound, Tag, Label, Jump, NamedStmt, AllNamed, IsCatch;
    if named {
      NamedParts(s);
    }
    TryParted(s, t, ends, p, n);
    var c := TryParts(s, t, ends, p, n);
    var set0 := Instr(SET_CATCH, Name(Tag(CATCH, n + 1)), Name(Tag(FINALLY, n + 2)), NULL);
    var js := [Jump(Tag(FINALLY, n + 2)), Label(Tag(CATCH, n + 1))];
    var pop, clear := Instr(POP, Idx(RegisterOf(t, s.exception)), NULL, NULL), Instr(CLEAR_CATCH, NULL, NULL, NULL);
    TagKinds(n + 1);
    TagKinds(n + 2);
    SoundOne(set0, named);
    BodySound(s.body, t, ends, p, n + 2, named);
    SoundConcat([set0], c.body.code, named);
    HandlerSound(Tag(FINALLY, n + 2), Tag(CATCH, n + 1), RegisterOf(t, s.exception), named);
    SoundConcat([set0] + c.body.code, js + [pop], named);
    assert [set0] + c.body.code + js + [pop] == [set0] + c.body.code + (js + [pop]);
    BodySound(s.handler, t, ends, c.body.pool, c.body.labels, named);
    SoundConcat([set0] + c.body.code + js + [pop], c.handler.code, named);
    TagSound(Tag(FINALLY, n + 2), named);
    SoundConcat([set0] + c.body.code + js + [pop] + c.handler.code, [Label(Tag(FINALLY, n + 2))], named);
    SoundNothing(named);
    if s.hasFinally {
      BodySound(s.finallyBody, t, ends, c.handler.pool, c.handler.labels, named);
    }
    SoundConcat([set0] + c.body.code + js + [pop] + c.handler.code + [Label(Tag(FINALLY, n + 2))], c.finallyBody.code,
                named);
    SoundOne(clear, named);
    SoundConcat([set0] + c.body.code + js + [pop] + c.handler.code + [Label(Tag(FINALLY, n + 2))] + c.finallyBody.code,
                [clear], named);
  }

  // ----- functions, the class, the program -----

  predicate NamedFunctions(fs: seq<Function>) { forall f :: f in fs ==> AllNamed(f.body) }

  predicate NamedClass(c: Class) { AllNamed(c.body) && NamedFunctions(FunctionsOf(c)) }

  /** A unit: its name, its header, one instruction, its body, a return, its end. */
  lemma UnitSound(name: string, header: Instr, first: Instr, body: seq<Instr>, named: bool)
    requires Plainly(name) && header.op == FFRAME && (first.op == MOV_FNC || first.op == CREATE_THIS)
             && Sound(body, named)
    ensures Sound([Label(name), header, first] + body + [RETURN_NULL, Label("end" + name)], named)
  {
    hide Sound;
    var end := Label("end" + name);
    PlainLabels(name);
    SoundOne(Label(name), named);
    SoundOne(header, named);
    SoundOne(first, named);
    SoundOne(RETURN_NULL, named);
    SoundOne(end, named);
    SoundConcat([Label(name)], [header], named);
    SoundConcat([Label(name)] + [header], [first], named);
    assert [Label(name), header, first] == [Label(name)] + [header] + [first];
    SoundConcat([Label(name), header, first], body, named);
    SoundConcat([RETURN_NULL], [end], named);
    assert [RETURN_NULL, end] == [RETURN_NULL] + [end];
    SoundConcat([Label(name), header, first] + body, [RETURN_NULL, end], named);
  }

  lemma PlainLabels(name: string)
    requires Plainly(name)
    ensures !IsCatch(Name(name)) && !IsCatch(Name("end" + name))
  {
    assert CATCH[0] == '.' && ("end" + name)[0] == 'e';
  }

  lemma {:induction false} LineSound(fs: seq<Function>, n: nat, named: bool)
    requires Distinct(fs) && (named ==> NamedFunctions(fs))
    ensures Sound(Line(fs, n).code, named)
    decreases |fs|
  {
    hide Sound, AllNamed, CompileBody, FunctionTables, Plainly;
    if fs == [] {
      SoundNothing(named);
    } else {
      var f := fs[0];
      var ts := FunctionTables(f);
      var own := FunctionCode(f, n);
      var b := CompileBody(f.body, ts.symbols, [], [], n);
      BodySound(f.body, ts.symbols, [], [], n, named);
      UnitSound(f.name, FrameHeader(|b.pool| + |ts.symbols|, ts, f.name), LoadFunction(f, ts.symbols), b.code, named);
      LineSound(fs[1..], own.labels, named);
      SoundConcat(own.code, Line(fs[1..], own.labels).code, named);
    }
  }

  /** The program of a class without constructor parameters never takes more off the stack than
      it has put there; named as above, it keeps calls and comparisons apart. */
  lemma ProgramBalanced(c: Class)
    requires DistinctClass(c) && c.params == []
    ensures Balanced(CompileClass(c).code)
    ensures NamedClass(c) ==> Apart(CompileClass(c).code, true)
  {
    hide Line, Flat, AllNamed, CompileBody, ClassTables, Apart, Through, Catches, Plainly;
    var named := NamedClass(c);
    var ts, n := ClassTables(c), ClassCode(c, 0).labels;
    var b := CompileBody(c.body, ts.symbols, [], [], 0);
    FunctionsInLine(Later(c.body), n);
    BodySound(c.body, ts.symbols, [], [], 0, named);
    var header, first := FrameHeader(|b.pool| + |ts.symbols|, ts, c.name), Instr(CREATE_THIS, NULL, NULL, NULL);
    UnitSound(c.name, header, first, b.code, named);
    assert [Label(c.name), header, first] + [] + b.code == [Label(c.name), header, first] + b.code;
    LineSound(FunctionsOf(c), n, named);
    SoundConcat(ClassCode(c, 0).code, Line(FunctionsOf(c), n).code, named);
  }
}
