/** Where an instruction stands: in which frame header's range, and inside which try regions.
    Emitted code is consistent about it: jumps lead to labels standing in the same place, and
    handlers just inside the region they guard. */
module Places {
  import opened Options
  import opened Bytecode
  import opened Registers
  import opened Labels
  import opened Source
  import opened Symbols
  import opened Codegen
  import opened Assembler
  import opened CodeShape
  import opened WholeProgram

  /** unit: how many frame headers precede; closes: the end label of the last one; inside: not
      yet past that label; handlers: the catch labels of the enclosing try regions. Code that ends
      a region it is not in stands nowhere that its unit knows. */
  datatype Place = Place(unit: nat, closes: Word, inside: bool, handlers: seq<Word>)

  const OUTSIDE: Place := Place(0, NULL, false, [])

  function Advance(i: Instr, p: Place): Place {
    if i.op == FFRAME then Place(p.unit + 1, i.r2, true, p.handlers)
    else if i.op == LABEL && i.r0 == p.closes then p.(inside := false)
    else if i.op == SET_CATCH then p.(handlers := p.handlers + [i.r0])
    else if i.op == CLEAR_CATCH && p.handlers != [] then p.(handlers := p.handlers[..|p.handlers| - 1])
    else if i.op == CLEAR_CATCH then p.(unit := p.unit + 1)
    else p
  }

  /** The place after some code that starts in place p. */
  function After(c: seq<Instr>, p: Place): Place
    decreases |c|
  {
    if c == [] then p else After(c[1..], Advance(c[0], p))
  }

  lemma {:induction false} AfterConcat(a: seq<Instr>, b: seq<Instr>, p: Place)
    ensures After(a + b, p) == After(b, After(a, p))
    decreases |a|
  {
    hide Advance;
    if a == [] {
      assert a + b == b;
    } else {
      assert (a + b)[0] == a[0] && (a + b)[1..] == a[1..] + b;
      AfterConcat(a[1..], b, Advance(a[0], p));
    }
  }

  lemma AfterOne(i: Instr, p: Place)
    ensures After([i], p) == Advance(i, p)
  {
    assert [i][1..] == [];
  }

  function TargetOf(i: Instr): Word {
    if i.op == JMP then i.r0 else if IsTestJump(i.op) then i.r1 else i.r2
  }

  type Marks = map<Word, Place>

  /** The labels of some code stand where the marks say. */
  predicate Marked(c: seq<Instr>, p: Place, m: Marks)
    decreases |c|
  {
    c == [] || ((c[0].op == LABEL ==> c[0].r0 in m && m[c[0].r0] == p) && Marked(c[1..], Advance(c[0], p), m))
  }

  /** One instruction is consistent with the marks. */
  predicate Consistent(i: Instr, p: Place, m: Marks) {
    && (IsReal(i) && i.op != FFRAME ==> p.inside)
    && (i.op == FFRAME ==> !p.inside && p.handlers == [] && i.r2 in m && m[i.r2] == Place(p.unit + 1, i.r2, true, []))
    && (IsJump(i.op) ==> TargetOf(i) in m && m[TargetOf(i)] == p && TargetOf(i) != p.closes)
    && (i.op == SET_CATCH ==> i.r0 in m && m[i.r0] == p.(handlers := p.handlers + [i.r0]) && i.r0 != p.closes)
    && (i.op == CLEAR_CATCH ==> p.handlers != [])
    && (i.op == RETURN ==> p.handlers == [])
  }

  predicate AllConsistent(c: seq<Instr>, p: Place, m: Marks)
    decreases |c|
  {
    c == [] || (Consistent(c[0], p, m) && AllConsistent(c[1..], Advance(c[0], p), m))
  }

  lemma {:induction false} MarkedConcat(a: seq<Instr>, b: seq<Instr>, p: Place, m: Marks)
    ensures Marked(a + b, p, m) <==> Marked(a, p, m) && Marked(b, After(a, p), m)
    decreases |a|
  {
    hide Advance;
    if a == [] {
      assert a + b == b;
    } else {
      assert (a + b)[0] == a[0] && (a + b)[1..] == a[1..] + b;
      MarkedConcat(a[1..], b, Advance(a[0], p), m);
    }
  }

  lemma {:induction false} ConsistentConcat(a: seq<Instr>, b: seq<Instr>, p: Place, m: Marks)
    ensures AllConsistent(a + b, p, m) <==> AllConsistent(a, p, m) && AllConsistent(b, After(a, p), m)
    decreases |a|
  {
    hide Advance, Consistent;
    if a == [] {
      assert a + b == b;
    } else {
      assert (a + b)[0] == a[0] && (a + b)[1..] == a[1..] + b;
      ConsistentConcat(a[1..], b, Advance(a[0], p), m);
    }
  }

  /** Code that needs no more than to be inside. */
  predicate CalmOp(op: nat) {
    op != FFRAME && op != LABEL && op != SET_CATCH && op != CLEAR_CATCH && op != RETURN && !IsJump(op)
  }

  predicate Calm(c: seq<Instr>) { forall k :: 0 <= k < |c| ==> CalmOp(c[k].op) }

  lemma {:induction false} CalmAfter(c: seq<Instr>, p: Place)
    requires Calm(c)
    ensures After(c, p) == p
    decreases |c|
  {
    if c != [] {
      CalmAfter(c[1..], p);
    }
  }

  lemma {:induction false} CalmConsistent(c: seq<Instr>, p: Place, m: Marks)
    requires Calm(c) && p.inside
    ensures AllConsistent(c, p, m)
    decreases |c|
  {
    if c != [] {
      CalmConsistent(c[1..], p, m);
    }
  }

  lemma CalmConcat(a: seq<Instr>, b: seq<Instr>)
    requires Calm(a) && Calm(b)
    ensures Calm(a + b)
  {
  }

  lemma CalmOne(i: Instr)
    requires CalmOp(i.op)
    ensures Calm([i])
  {
  }

  lemma TextsCalm()
    ensures CalmOp(MOV_STR) && CalmOp(SET_FIELD)
  {
  }

  lemma OpcodeCalm(op: Op)
    ensures CalmOp(Opcode(op))
  {
  }

  /** Expressions of all kinds stay in place. */
  lemma {:induction false} ExprCalm(e: Expr, dest: nat, t: Table, p: Pool)
    ensures Calm(CompileExpr(e, dest, t, p).code)
    decreases e
  {
    hide Calm, CompileExpr, Opcode, CalmOp, FreeBoth, Release, Take, Taken, Target, TargetPool;
    match e
    case Binary(op, l, r) =>
      var lo := CompileExpr(l, 0, t, p);
      var ro := CompileExpr(r, 0, t, lo.pool);
      var res := Target(|t|, dest, ro.pool);
      BinaryParted(op, l, r, dest, t, p);
      ExprCalm(l, 0, t, p);
      ExprCalm(r, 0, t, lo.pool);
      CalmConcat(lo.code, ro.code);
      OpcodeCalm(op);
      CalmOne(Instr(Opcode(op), Idx(lo.reg), Idx(ro.reg), Idx(res)));
      CalmConcat(lo.code + ro.code, [Instr(Opcode(op), Idx(lo.reg), Idx(ro.reg), Idx(res))]);
    case Assign(x, v) =>
      AssignParted(x, v, dest, t, p);
      var name := Instr(MOV_STR, Idx(Taken(|t|, p)), Name(x), NULL);
      var vo := CompileExpr(v, 0, t, Take(p));
      ExprCalm(v, 0, t, Take(p));
      ExprCalm(v, RegisterOf(t, x), t, p);
      TextsCalm();
      CalmOne(name);
      CalmConcat([name], vo.code);
      CalmOne(Instr(SET_FIELD, Idx(1), Idx(Taken(|t|, p)), Idx(vo.reg)));
      CalmConcat([name] + vo.code, [Instr(SET_FIELD, Idx(1), Idx(Taken(|t|, p)), Idx(vo.reg))]);
    case MethodCall(c, args) =>
      hide CompileArguments;
      CallParted(c, args, dest, t, p);
      var a := CompileArguments(args, t, BeginCall(dest, t, p));
      var o := CompileExpr(c, 0, t, Release(|t|, a.pool, a.next));
      CallsCalm();
      ArgumentsCalm(args, t, BeginCall(dest, t, p));
      ExprCalm(c, 0, t, Release(|t|, a.pool, a.next));
      CalmConcat(a.code, o.code);
      CalmOne(Instr(CALL, Idx(o.reg), Idx(a.result), Idx(|args|)));
      CalmConcat(a.code + o.code, [Instr(CALL, Idx(o.reg), Idx(a.result), Idx(|args|))]);
    case ThrowPrefix(v) =>
      ThrowParted(v, dest, t, p);
      var o := CompileExpr(v, 0, t, p);
      CallsCalm();
      ExprCalm(v, 0, t, p);
      CalmOne(Instr(THROW_EXCEPTION, Idx(o.reg), NULL, NULL));
      CalmConcat(o.code, [Instr(THROW_EXCEPTION, Idx(o.reg), NULL, NULL)]);
    case _ => LeafCalm(e, dest, t, p);
  }

  lemma {:induction false} ArgumentsCalm(args: seq<Expr>, t: Table, c: CallCode)
    requires Calm(c.code)
    ensures Calm(CompileArguments(args, t, c).code)
    decreases args
  {
    hide Calm, CompileExpr, CalmOp;
    if args != [] {
      var o := CompileExpr(args[|args| - 1], c.next, t, c.pool);
      var push := Instr(PUSH, Idx(o.reg), NULL, NULL);
      CallsCalm();
      ExprCalm(args[|args| - 1], c.next, t, c.pool);
      CalmConcat(c.code, o.code);
      CalmOne(push);
      CalmConcat(c.code + o.code, [push]);
      ArgumentsCalm(args[..|args| - 1], t, CallCode(c.code + o.code + [push], c.result, o.reg, o.pool));
    }
  }

  lemma CallsCalm()
    ensures CalmOp(PUSH) && CalmOp(CALL) && CalmOp(THROW_EXCEPTION) && Calm([])
  {
  }

  lemma LeafCalm(e: Expr, dest: nat, t: Table, p: Pool)
    requires e.Number? || e.Ident? || e.Postfix?
    ensures Calm(CompileExpr(e, dest, t, p).code)
  {
    hide Release, Take, Taken, Target, TargetPool;
  }

  lemma EffectCalm(e: Option<Expr>, t: Table, p: Pool, n: nat)
    ensures Calm(CompileEffect(e, t, p, n).code)
  {
    if e.Some? {
      ExprCalm(e.value, 0, t, p);
    }
  }

  lemma {:induction false} HoistCalm(ss: seq<Stmt>, t: Table)
    ensures Calm(Hoist(ss, t))
  {
    if ss != [] {
      HoistCalm(ss[1..], t);
    }
  }

  // ----- every statement ends where it starts -----

  /** Labels the compiler generates do not close a unit. */
  predicate Named(p: Place) { p.closes.Name? && Plainly(p.closes.s) }

  lemma TagStays(a: string, n: nat, p: Place)
    requires IsPrefix(a) && Named(p)
    ensures Advance(Label(Tag(a, n)), p) == p && Name(Tag(a, n)) != p.closes
  {
  }

  predicate Returning(i: Instr) { i.op == RETURN || IsJump(i.op) }

  lemma StaysOne(i: Instr, p: Place)
    requires CalmOp(i.op) || Returning(i)
    ensures After([i], p) == p
  {
    AfterOne(i, p);
  }

  /** Two parts that stay in place stay in place together. */
  lemma Stay(a: seq<Instr>, b: seq<Instr>, p: Place)
    requires After(a, p) == p && After(b, p) == p
    ensures After(a + b, p) == p
  {
    AfterConcat(a, b, p);
  }

  lemma LabelStays(a: string, n: nat, p: Place)
    requires IsPrefix(a) && Named(p)
    ensures After([Label(Tag(a, n))], p) == p
  {
    TagStays(a, n, p);
    AfterOne(Label(Tag(a, n)), p);
  }

  lemma {:induction false} StmtStays(s: Stmt, t: Table, ends: seq<string>, q: Pool, n: nat, p: Place)
    requires Named(p)
    ensures After(CompileStmt(s, t, ends, q, n).code, p) == p
    decreases s, 1
  {
    hide CompileExpr, CompileBody, After, Tag, Release;
    match s
    case Var(x, v, _) =>
      var o := CompileExpr(v, RegisterOf(t, x), t, q);
      var move := Instr(MOV, Idx(RegisterOf(t, x)), Idx(o.reg), NULL);
      ExprCalm(v, RegisterOf(t, x), t, q);
      CalmAfter(o.code, p);
      StaysOne(move, p);
      Stay(o.code, [move], p);
    case Do(e) =>
      EffectCalm(Some(e), t, q, n);
      CalmAfter(CompileStmt(s, t, ends, q, n).code, p);
    case Return(e) =>
      var o := CompileExpr(e, 0, t, q);
      ExprCalm(e, 0, t, q);
      CalmAfter(o.code, p);
      StaysOne(Instr(RETURN, Idx(o.reg), NULL, NULL), p);
      Stay(o.code, [Instr(RETURN, Idx(o.reg), NULL, NULL)], p);
    case Break =>
      CalmAfter([], p);
      if ends != [] {
        StaysOne(Jump(ends[|ends| - 1]), p);
      }
    case Block(b) => BodyStays(b, t, ends, q, n, p);
    case If(_, _, _, _) => IfStays(s, t, ends, q, n, p);
    case Loop(_, _, _, _) => LoopStays(s, t, ends, q, n, p);
    case Try(_, _, _, _, _) => TryStays(s, t, ends, q, n, p);
    case Define(_) => CalmAfter([], p);
  }

  lemma {:induction false} BodyStays(ss: seq<Stmt>, t: Table, ends: seq<string>, q: Pool, n: nat, p: Place)
    requires Named(p)
    ensures After(CompileBody(ss, t, ends, q, n).code, p) == p
    decreases ss, 3
  {
    hide After, CompileAll;
    HoistCalm(ss, t);
    CalmAfter(Hoist(ss, t), p);
    AllStays(ss, t, ends, q, n, p);
    Stay(Hoist(ss, t), CompileAll(ss, t, ends, q, n).code, p);
  }

  lemma {:induction false} AllStays(ss: seq<Stmt>, t: Table, ends: seq<string>, q: Pool, n: nat, p: Place)
    requires Named(p)
    ensures After(CompileAll(ss, t, ends, q, n).code, p) == p
    decreases ss, 2
  {
    hide After, CompileStmt;
    if ss == [] {
      CalmAfter([], p);
    } else {
      var a := CompileStmt(ss[0], t, ends, q, n);
      StmtStays(ss[0], t, ends, q, n, p);
      AllStays(ss[1..], t, ends, a.pool, a.labels, p);
      Stay(a.code, CompileAll(ss[1..], t, ends, a.pool, a.labels).code, p);
    }
  }

  lemma {:induction false} IfStays(s: Stmt, t: Table, ends: seq<string>, q: Pool, n: nat, p: Place)
    requires s.If? && Named(p)
    ensures After(CompileStmt(s, t, ends, q, n).code, p) == p
    decreases s, 0
  {
    hide CompileExpr, CompileBody, CompileStmt, After, Tag, Release, Label, Jump;
    IfParted(s, t, ends, q, n);
    var c := IfParts(s, t, ends, q, n);
    var test := Instr(JMP_NOT_TRUE, Idx(c.cond.reg), Name(Tag(ELSE, n + 1)), NULL);
    var jump := if s.hasElse then [Jump(Tag(END_CONDITIONAL, n + 2))] else [];
    ExprCalm(s.cond, 0, t, q);
    CalmAfter(c.cond.code, p);
    StaysOne(test, p);
    Stay(c.cond.code, [test], p);
    BodyStays(s.thn, t, ends, Release(|t|, c.cond.pool, c.cond.reg), n + 2, p);
    Stay(c.cond.code + [test], c.thn.code, p);
    CalmAfter([], p);
    if s.hasElse {
      JumpStays(Tag(END_CONDITIONAL, n + 2), p);
      BodyStays(s.els, t, ends, c.thn.pool, c.thn.labels, p);
    }
    Stay(c.cond.code + [test] + c.thn.code, jump, p);
    LabelStays(ELSE, n + 1, p);
    LabelStays(END_CONDITIONAL, n + 2, p);
    Stay(c.cond.code + [test] + c.thn.code + jump, [Label(Tag(ELSE, n + 1))], p);
    Stay(c.cond.code + [test] + c.thn.code + jump + [Label(Tag(ELSE, n + 1))], c.els.code, p);
    Stay(c.cond.code + [test] + c.thn.code + jump + [Label(Tag(ELSE, n + 1))] + c.els.code,
         [Label(Tag(END_CONDITIONAL, n + 2))], p);
  }

  lemma JumpStays(name: string, p: Place)
    ensures After([Jump(name)], p) == p
  {
    StaysOne(Jump(name), p);
  }

  lemma {:induction false} LoopStays(s: Stmt, t: Table, ends: seq<string>, q: Pool, n: nat, p: Place)
    requires s.Loop? && Named(p)
    ensures After(CompileStmt(s, t, ends, q, n).code, p) == p
    decreases s, 0
  {
    hide CompileExpr, CompileEffect, CompileBody, CompileStmt, After, Tag, Release, Label, Jump;
    LoopParted(s, t, ends, q, n);
    var c := LoopParts(s, t, ends, q, n);
    var js := [Jump(Tag(LOOP_CONDITION, n + 3)), Label(Tag(LOOP_START, n + 1))];
    EffectCalm(s.start, t, q, n + 3);
    CalmAfter(c.start.code, p);
    JumpStays(Tag(LOOP_CONDITION, n + 3), p);
    LabelStays(LOOP_START, n + 1, p);
    Stay([Jump(Tag(LOOP_CONDITION, n + 3))], [Label(Tag(LOOP_START, n + 1))], p);
    assert js == [Jump(Tag(LOOP_CONDITION, n + 3))] + [Label(Tag(LOOP_START, n + 1))];
    Stay(c.start.code, js, p);
    BodyStays(s.body, t, ends + [Tag(LOOP_END, n + 2)], c.start.pool, n + 3, p);
    Stay(c.start.code + js, c.body.code, p);
    EffectCalm(s.iter, t, c.body.pool, c.body.labels);
    CalmAfter(c.iter.code, p);
    Stay(c.start.code + js + c.body.code, c.iter.code, p);
    LabelStays(LOOP_CONDITION, n + 3, p);
    Stay(c.start.code + js + c.body.code + c.iter.code, [Label(Tag(LOOP_CONDITION, n + 3))], p);
    ConditionStays(s.condition, Tag(LOOP_START, n + 1), t, c.iter.pool, c.iter.labels, p);
    Stay(c.start.code + js + c.body.code + c.iter.code + [Label(Tag(LOOP_CONDITION, n + 3))], c.cond.code, p);
    LabelStays(LOOP_END, n + 2, p);
    Stay(c.start.code + js + c.body.code + c.iter.code + [Label(Tag(LOOP_CONDITION, n + 3))] + c.cond.code,
         [Label(Tag(LOOP_END, n + 2))], p);
  }

  lemma ConditionStays(e: Option<Expr>, target: string, t: Table, q: Pool, n: nat, p: Place)
    ensures After(CompileCondition(e, target, t, q, n).code, p) == p
  {
    hide CompileExpr, After;
    CalmAfter([], p);
    if e.Some? {
      var o := CompileExpr(e.value, 0, t, q);
      ExprCalm(e.value, 0, t, q);
      CalmAfter(o.code, p);
      StaysOne(Instr(JMP_TRUE, Idx(o.reg), Name(target), NULL), p);
      Stay(o.code, [Instr(JMP_TRUE, Idx(o.reg), Name(target), NULL)], p);
    }
  }

  lemma {:induction false} TryStays(s: Stmt, t: Table, ends: seq<string>, q: Pool, n: nat, p: Place)
    requires s.Try? && Named(p)
    ensures After(CompileStmt(s, t, ends, q, n).code, p) == p
    decreases s, 0
  {
    hide CompileBody, CompileStmt, After, Tag, Label, Jump;
    TryParted(s, t, ends, q, n);
    var c := TryParts(s, t, ends, q, n);
    var set0 := Instr(SET_CATCH, Name(Tag(CATCH, n + 1)), Name(Tag(FINALLY, n + 2)), NULL);
    var js := [Jump(Tag(FINALLY, n + 2)), Label(Tag(CATCH, n + 1))];
    var pop, clear := Instr(POP, Idx(RegisterOf(t, s.exception)), NULL, NULL), Instr(CLEAR_CATCH, NULL, NULL, NULL);
    var within := p.(handlers := p.handlers + [Name(Tag(CATCH, n + 1))]);
    AfterOne(set0, p);
    BodyStays(s.body, t, ends, q, n + 2, within);
    AfterConcat([set0], c.body.code, p);
    JumpStays(Tag(FINALLY, n + 2), within);
    LabelStays(CATCH, n + 1, within);
    Stay([Jump(Tag(FINALLY, n + 2))], [Label(Tag(CATCH, n + 1))], within);
    assert js == [Jump(Tag(FINALLY, n + 2))] + [Label(Tag(CATCH, n + 1))];
    AfterConcat([set0] + c.body.code, js, p);
    StaysOne(pop, within);
    AfterConcat([set0] + c.body.code + js, [pop], p);
    BodyStays(s.handler, t, ends, c.body.pool, c.body.labels, within);
    AfterConcat([set0] + c.body.code + js + [pop], c.handler.code, p);
    LabelStays(FINALLY, n + 2, within);
    AfterConcat([set0] + c.body.code + js + [pop] + c.handler.code, [Label(Tag(FINALLY, n + 2))], p);
    CalmAfter([], within);
    if s.hasFinally {
      BodyStays(s.finallyBody, t, ends, c.handler.pool, c.handler.labels, within);
    }
    AfterConcat([set0] + c.body.code + js + [pop] + c.handler.code + [Label(Tag(FINALLY, n + 2))], c.finallyBody.code,
                p);
    AfterOne(clear, within);
    assert within.handlers[..|within.handlers| - 1] == p.handlers;
    AfterConcat([set0] + c.body.code + js + [pop] + c.handler.code + [Label(Tag(FINALLY, n + 2))] + c.finallyBody.code,
                [clear], p);
  }

  // ----- every statement is consistent -----

  /** No break or return leaves a try statement; breaks are in loops. */
  predicate Contained(s: Stmt, canBreak: bool, inTry: bool)
    decreases s, 1
  {
    match s
    case Return(_) => !inTry
    case Break => canBreak
    case Block(b) => AllContained(b, canBreak, inTry)
    case If(_, t, hasElse, e) => AllContained(t, canBreak, inTry) && (hasElse ==> AllContained(e, canBreak, inTry))
    case Loop(_, _, _, b) => AllContained(b, true, inTry)
    case Try(b, _, h, hasFinally, f) =>
      AllContained(b, false, true) && AllContained(h, false, true) && (hasFinally ==> AllContained(f, false, true))
    case _ => true
  }

  predicate AllContained(ss: seq<Stmt>, canBreak: bool, inTry: bool)
    decreases ss, 0
  {
    ss == [] || (Contained(ss[0], canBreak, inTry) && AllContained(ss[1..], canBreak, inTry))
  }

  /** The end of the innermost loop, if it may be left, stands here. */
  predicate Leavable(canBreak: bool, ends: seq<string>, p: Place, m: Marks) {
    canBreak ==> ends != [] && var w := Name(ends[|ends| - 1]); w in m && m[w] == p && w != p.closes
  }

  predicate Here(name: string, p: Place, m: Marks) { Name(name) in m && m[Name(name)] == p && Name(name) != p.closes }

  lemma Both(a: seq<Instr>, b: seq<Instr>, p: Place, m: Marks)
    requires After(a, p) == p
    ensures Marked(a + b, p, m) <==> Marked(a, p, m) && Marked(b, p, m)
    ensures AllConsistent(a + b, p, m) <==> AllConsistent(a, p, m) && AllConsistent(b, p, m)
    ensures After(b, p) == p ==> After(a + b, p) == p
  {
    AfterConcat(a, b, p);
    MarkedConcat(a, b, p, m);
    ConsistentConcat(a, b, p, m);
  }

  lemma OneConsistent(i: Instr, p: Place, m: Marks)
    ensures AllConsistent([i], p, m) <==> Consistent(i, p, m)
  {
    assert [i][1..] == [];
  }

  lemma LabelMark(a: string, n: nat, p: Place, m: Marks)
    requires IsPrefix(a) && Named(p) && Marked([Label(Tag(a, n))], p, m)
    ensures Here(Tag(a, n), p, m) && AllConsistent([Label(Tag(a, n))], p, m)
  {
    TagStays(a, n, p);
    OneConsistent(Label(Tag(a, n)), p, m);
  }

  lemma JumpHere(name: string, p: Place, m: Marks)
    requires p.inside && Here(name, p, m)
    ensures AllConsistent([Jump(name)], p, m)
  {
    OneConsistent(Jump(name), p, m);
  }

  lemma TestHere(op: nat, reg: nat, name: string, p: Place, m: Marks)
    requires p.inside && IsTestJump(op) && Here(name, p, m)
    ensures AllConsistent([Instr(op, Idx(reg), Name(name), NULL)], p, m)
    ensures After([Instr(op, Idx(reg), Name(name), NULL)], p) == p
  {
    OneConsistent(Instr(op, Idx(reg), Name(name), NULL), p, m);
    StaysOne(Instr(op, Idx(reg), Name(name), NULL), p);
  }

  lemma CalmBoth(c: seq<Instr>, p: Place, m: Marks)
    requires Calm(c) && p.inside
    ensures AllConsistent(c, p, m) && After(c, p) == p
  {
    CalmAfter(c, p);
    CalmConsistent(c, p, m);
  }

  lemma {:induction false} StmtConsistent(s: Stmt, canBreak: bool, t: Table, ends: seq<string>, q: Pool, n: nat,
                                          p: Place, m: Marks)
    requires Contained(s, canBreak, p.handlers != []) && Named(p) && p.inside && Leavable(canBreak, ends, p, m)
    requires Marked(CompileStmt(s, t, ends, q, n).code, p, m)
    ensures AllConsistent(CompileStmt(s, t, ends, q, n).code, p, m)
    decreases s, 2
  {
    hide CompileExpr, CompileBody, After, Tag, Release, AllConsistent, Marked;
    match s
    case Var(x, v, _) =>
      var o := CompileExpr(v, RegisterOf(t, x), t, q);
      ExprCalm(v, RegisterOf(t, x), t, q);
      var move := Instr(MOV, Idx(RegisterOf(t, x)), Idx(o.reg), NULL);
      CalmBoth(o.code, p, m);
      CalmBoth([move], p, m);
      Both(o.code, [move], p, m);
    case Do(e) =>
      EffectCalm(Some(e), t, q, n);
      CalmBoth(CompileStmt(s, t, ends, q, n).code, p, m);
    case Return(e) =>
      var o := CompileExpr(e, 0, t, q);
      ExprCalm(e, 0, t, q);
      CalmBoth(o.code, p, m);
      OneConsistent(Instr(RETURN, Idx(o.reg), NULL, NULL), p, m);
      Both(o.code, [Instr(RETURN, Idx(o.reg), NULL, NULL)], p, m);
    case Break => JumpHere(ends[|ends| - 1], p, m);
    case Block(b) => BodyConsistent(b, canBreak, t, ends, q, n, p, m);
    case If(_, _, _, _) => IfConsistent(s, canBreak, t, ends, q, n, p, m);
    case Loop(_, _, _, _) => LoopConsistent(s, canBreak, t, ends, q, n, p, m);
    case Try(_, _, _, _, _) => TryConsistent(s, t, ends, q, n, p, m);
    case Define(_) => CalmBoth([], p, m);
  }

  lemma {:induction false} BodyConsistent(ss: seq<Stmt>, canBreak: bool, t: Table, ends: seq<string>, q: Pool, n: nat,
                                          p: Place, m: Marks)
    requires AllContained(ss, canBreak, p.handlers != []) && Named(p) && p.inside && Leavable(canBreak, ends, p, m)
    requires Marked(CompileBody(ss, t, ends, q, n).code, p, m)
    ensures AllConsistent(CompileBody(ss, t, ends, q, n).code, p, m)
    decreases ss, 3
  {
    hide After, CompileAll, AllConsistent, Marked;
    HoistCalm(ss, t);
    CalmBoth(Hoist(ss, t), p, m);
    Both(Hoist(ss, t), CompileAll(ss, t, ends, q, n).code, p, m);
    AllConsistentToo(ss, canBreak, t, ends, q, n, p, m);
  }

  lemma {:induction false} AllConsistentToo(ss: seq<Stmt>, canBreak: bool, t: Table, ends: seq<string>, q: Pool,
                                            n: nat, p: Place, m: Marks)
    requires AllContained(ss, canBreak, p.handlers != []) && Named(p) && p.inside && Leavable(canBreak, ends, p, m)
    requires Marked(CompileAll(ss, t, ends, q, n).code, p, m)
    ensures AllConsistent(CompileAll(ss, t, ends, q, n).code, p, m)
    decreases ss, 2
  {
    hide After, CompileStmt, AllConsistent, Marked, Contained;
    if ss == [] {
      CalmBoth([], p, m);
    } else {
      var a := CompileStmt(ss[0], t, ends, q, n);
      StmtStays(ss[0], t, ends, q, n, p);
      Both(a.code, CompileAll(ss[1..], t, ends, a.pool, a.labels).code, p, m);
      StmtConsistent(ss[0], canBreak, t, ends, q, n, p, m);
      AllConsistentToo(ss[1..], canBreak, t, ends, a.pool, a.labels, p, m);
    }
  }

  lemma {:induction false} IfConsistent(s: Stmt, canBreak: bool, t: Table, ends: seq<string>, q: Pool, n: nat,
                                        p: Place, m: Marks)
    requires s.If? && Contained(s, canBreak, p.handlers != []) && Named(p) && p.inside
             && Leavable(canBreak, ends, p, m)
    requires Marked(CompileStmt(s, t, ends, q, n).code, p, m)
    ensures AllConsistent(CompileStmt(s, t, ends, q, n).code, p, m)
    decreases s, 0
  {
    hide CompileExpr, CompileBody, CompileStmt, After, Tag, Release, Label, Jump, AllConsistent, Marked, Here,
         Leavable;
    IfParted(s, t, ends, q, n);
    var c := IfParts(s, t, ends, q, n);
    var test := Instr(JMP_NOT_TRUE, Idx(c.cond.reg), Name(Tag(ELSE, n + 1)), NULL);
    var jump := if s.hasElse then [Jump(Tag(END_CONDITIONAL, n + 2))] else [];
    var le, lx := [Label(Tag(ELSE, n + 1))], [Label(Tag(END_CONDITIONAL, n + 2))];
    ExprCalm(s.cond, 0, t, q);
    CalmBoth(c.cond.code, p, m);
    StaysOne(test, p);
    Both(c.cond.code, [test], p, m);
    var c1 := c.cond.code + [test];
    BodyStays(s.thn, t, ends, Release(|t|, c.cond.pool, c.cond.reg), n + 2, p);
    Both(c1, c.thn.code, p, m);
    CalmBoth([], p, m);
    if s.hasElse {
      JumpStays(Tag(END_CONDITIONAL, n + 2), p);
      BodyStays(s.els, t, ends, c.thn.pool, c.thn.labels, p);
    }
    Both(c1 + c.thn.code, jump, p, m);
    LabelStays(ELSE, n + 1, p);
    Both(c1 + c.thn.code + jump, le, p, m);
    Both(c1 + c.thn.code + jump + le, c.els.code, p, m);
    Both(c1 + c.thn.code + jump + le + c.els.code, lx, p, m);
    LabelMark(ELSE, n + 1, p, m);
    LabelMark(END_CONDITIONAL, n + 2, p, m);
    TestHere(JMP_NOT_TRUE, c.cond.reg, Tag(ELSE, n + 1), p, m);
    BodyConsistent(s.thn, canBreak, t, ends, Release(|t|, c.cond.pool, c.cond.reg), n + 2, p, m);
    if s.hasElse {
      JumpHere(Tag(END_CONDITIONAL, n + 2), p, m);
      BodyConsistent(s.els, canBreak, t, ends, c.thn.pool, c.thn.labels, p, m);
    }
  }

  lemma {:induction false} LoopConsistent(s: Stmt, canBreak: bool, t: Table, ends: seq<string>, q: Pool, n: nat,
                                          p: Place, m: Marks)
    requires s.Loop? && Contained(s, canBreak, p.handlers != []) && Named(p) && p.inside
    requires Marked(CompileStmt(s, t, ends, q, n).code, p, m)
    ensures AllConsistent(CompileStmt(s, t, ends, q, n).code, p, m)
    decreases s, 0
  {
    hide CompileExpr, CompileEffect, CompileBody, CompileStmt, CompileCondition, After, Tag, Release, Label, Jump,
         AllConsistent, Marked, Here;
    LoopParted(s, t, ends, q, n);
    var c := LoopParts(s, t, ends, q, n);
    var j, ls := [Jump(Tag(LOOP_CONDITION, n + 3))], [Label(Tag(LOOP_START, n + 1))];
    var lc, lx := [Label(Tag(LOOP_CONDITION, n + 3))], [Label(Tag(LOOP_END, n + 2))];
    var ends' := ends + [Tag(LOOP_END, n + 2)];
    EffectCalm(s.start, t, q, n + 3);
    CalmBoth(c.start.code, p, m);
    JumpStays(Tag(LOOP_CONDITION, n + 3), p);
    LabelStays(LOOP_START, n + 1, p);
    Both(j, ls, p, m);
    assert [Jump(Tag(LOOP_CONDITION, n + 3)), Label(Tag(LOOP_START, n + 1))] == j + ls;
    Both(c.start.code, j + ls, p, m);
    BodyStays(s.body, t, ends', c.start.pool, n + 3, p);
    Both(c.start.code + (j + ls), c.body.code, p, m);
    EffectCalm(s.iter, t, c.body.pool, c.body.labels);
    CalmBoth(c.iter.code, p, m);
    Both(c.start.code + (j + ls) + c.body.code, c.iter.code, p, m);
    LabelStays(LOOP_CONDITION, n + 3, p);
    Both(c.start.code + (j + ls) + c.body.code + c.iter.code, lc, p, m);
    ConditionStays(s.condition, Tag(LOOP_START, n + 1), t, c.iter.pool, c.iter.labels, p);
    Both(c.start.code + (j + ls) + c.body.code + c.iter.code + lc, c.cond.code, p, m);
    LabelStays(LOOP_END, n + 2, p);
    Both(c.start.code + (j + ls) + c.body.code + c.iter.code + lc + c.cond.code, lx, p, m);
    LabelMark(LOOP_START, n + 1, p, m);
    LabelMark(LOOP_CONDITION, n + 3, p, m);
    LabelMark(LOOP_END, n + 2, p, m);
    JumpHere(Tag(LOOP_CONDITION, n + 3), p, m);
    HereLeavable(ends, Tag(LOOP_END, n + 2), p, m);
    BodyConsistent(s.body, true, t, ends', c.start.pool, n + 3, p, m);
    ConditionConsistent(s.condition, Tag(LOOP_START, n + 1), t, c.iter.pool, c.iter.labels, p, m);
  }

  lemma HereLeavable(ends: seq<string>, name: string, p: Place, m: Marks)
    requires Here(name, p, m)
    ensures Leavable(true, ends + [name], p, m)
  {
  }

  lemma ConditionConsistent(e: Option<Expr>, target: string, t: Table, q: Pool, n: nat, p: Place, m: Marks)
    requires p.inside && Here(target, p, m)
    ensures AllConsistent(CompileCondition(e, target, t, q, n).code, p, m)
  {
    hide CompileExpr, After, AllConsistent, Marked, Here;
    CalmBoth([], p, m);
    if e.Some? {
      var o := CompileExpr(e.value, 0, t, q);
      ExprCalm(e.value, 0, t, q);
      CalmBoth(o.code, p, m);
      TestHere(JMP_TRUE, o.reg, target, p, m);
      Both(o.code, [Instr(JMP_TRUE, Idx(o.reg), Name(target), NULL)], p, m);
    }
  }

  /** The parts of a try statement after its SET_CATCH and before its CLEAR_CATCH. */
  function Guarded(s: Stmt, t: Table, ends: seq<string>, q: Pool, n: nat): seq<Instr>
    requires s.Try?
  {
    var c := TryParts(s, t, ends, q, n);
    c.body.code + [Jump(Tag(FINALLY, n + 2)), Label(Tag(CATCH, n + 1))]
        + [Instr(POP, Idx(RegisterOf(t, s.exception)), NULL, NULL)]
    + c.handler.code + [Label(Tag(FINALLY, n + 2))] + c.finallyBody.code
  }

  lemma {:induction false} GuardedConsistent(s: Stmt, t: Table, ends: seq<string>, q: Pool, n: nat, p: Place, m: Marks)
    requires s.Try? && Contained(s, false, true) && p.handlers != [] && Named(p) && p.inside
    requires Marked(Guarded(s, t, ends, q, n), p, m)
    ensures After(Guarded(s, t, ends, q, n), p) == p && AllConsistent(Guarded(s, t, ends, q, n), p, m)
    ensures Here(Tag(CATCH, n + 1), p, m)
    decreases s, 0
  {
    hide CompileBody, After, Tag, Label, Jump, AllConsistent, Marked, Here;
    var c := TryParts(s, t, ends, q, n);
    var j, lc, lf := [Jump(Tag(FINALLY, n + 2))], [Label(Tag(CATCH, n + 1))], [Label(Tag(FINALLY, n + 2))];
    var pop := [Instr(POP, Idx(RegisterOf(t, s.exception)), NULL, NULL)];
    BodyStays(s.body, t, ends, q, n + 2, p);
    JumpStays(Tag(FINALLY, n + 2), p);
    LabelStays(CATCH, n + 1, p);
    Both(j, lc, p, m);
    assert [Jump(Tag(FINALLY, n + 2)), Label(Tag(CATCH, n + 1))] == j + lc;
    Both(c.body.code, j + lc, p, m);
    CalmBoth(pop, p, m);
    Both(c.body.code + (j + lc), pop, p, m);
    BodyStays(s.handler, t, ends, c.body.pool, c.body.labels, p);
    Both(c.body.code + (j + lc) + pop, c.handler.code, p, m);
    LabelStays(FINALLY, n + 2, p);
    Both(c.body.code + (j + lc) + pop + c.handler.code, lf, p, m);
    CalmBoth([], p, m);
    if s.hasFinally {
      BodyStays(s.finallyBody, t, ends, c.handler.pool, c.handler.labels, p);
    }
    Both(c.body.code + (j + lc) + pop + c.handler.code + lf, c.finallyBody.code, p, m);
    LabelMark(CATCH, n + 1, p, m);
    LabelMark(FINALLY, n + 2, p, m);
    JumpHere(Tag(FINALLY, n + 2), p, m);
    BodyConsistent(s.body, false, t, ends, q, n + 2, p, m);
    BodyConsistent(s.handler, false, t, ends, c.body.pool, c.body.labels, p, m);
    if s.hasFinally {
      BodyConsistent(s.finallyBody, false, t, ends, c.handler.pool, c.handler.labels, p, m);
    }
  }

  lemma {:induction false} TryConsistent(s: Stmt, t: Table, ends: seq<string>, q: Pool, n: nat, p: Place, m: Marks)
    requires s.Try? && Contained(s, false, true) && Named(p) && p.inside
    requires Marked(CompileStmt(s, t, ends, q, n).code, p, m)
    ensures AllConsistent(CompileStmt(s, t, ends, q, n).code, p, m)
    decreases s, 1
  {
    hide CompileBody, CompileStmt, After, Tag, Label, Jump, AllConsistent, Marked, Guarded;
    var set0 := Instr(SET_CATCH, Name(Tag(CATCH, n + 1)), Name(Tag(FINALLY, n + 2)), NULL);
    var clear := Instr(CLEAR_CATCH, NULL, NULL, NULL);
    var g := Guarded(s, t, ends, q, n);
    var within := p.(handlers := p.handlers + [Name(Tag(CATCH, n + 1))]);
    TryGuarded(s, t, ends, q, n);
    AfterOne(set0, p);
    MarkedConcat([set0], g, p, m);
    MarkedConcat([set0] + g, [clear], p, m);
    GuardedConsistent(s, t, ends, q, n, within, m);
    OneConsistent(set0, p, m);
    OneConsistent(clear, within, m);
    AfterConcat([set0], g, p);
    ConsistentConcat([set0], g, p, m);
    ConsistentConcat([set0] + g, [clear], p, m);
  }

  lemma TryGuarded(s: Stmt, t: Table, ends: seq<string>, q: Pool, n: nat)
    requires s.Try?
    ensures CompileStmt(s, t, ends, q, n).code
            == [Instr(SET_CATCH, Name(Tag(CATCH, n + 1)), Name(Tag(FINALLY, n + 2)), NULL)] + Guarded(s, t, ends, q, n)
               + [Instr(CLEAR_CATCH, NULL, NULL, NULL)]
  {
    hide CompileBody, CompileStmt, Tag, Label, Jump;
    TryParted(s, t, ends, q, n);
    var c := TryParts(s, t, ends, q, n);
    SevenParts([Instr(SET_CATCH, Name(Tag(CATCH, n + 1)), Name(Tag(FINALLY, n + 2)), NULL)], c.body.code,
          [Jump(Tag(FINALLY, n + 2)), Label(Tag(CATCH, n + 1))],
              [Instr(POP, Idx(RegisterOf(t, s.exception)), NULL, NULL)],
          c.handler.code, [Label(Tag(FINALLY, n + 2))], c.finallyBody.code);
  }

  lemma SevenParts(a: seq<Instr>, b: seq<Instr>, c: seq<Instr>, d: seq<Instr>, e: seq<Instr>, f: seq<Instr>,
                   g: seq<Instr>)
    ensures a + b + c + d + e + f + g == a + (b + c + d + e + f + g)
  {
  }

  // ----- end labels follow returns -----

  predicate IsClosing(i: Instr, p: Place) { i.op == LABEL && p.inside && i.r0 == p.closes }

  /** The label that closes a unit is reached neither by a jump nor by falling into it. */
  predicate Shut(c: seq<Instr>, p: Place, returned: bool)
    decreases |c|
  {
    c == [] || ((IsClosing(c[0], p) ==> returned) && Shut(c[1..], Advance(c[0], p), c[0].op == RETURN))
  }

  function LastReturns(c: seq<Instr>, returned: bool): bool { if c == [] then returned else c[|c| - 1].op == RETURN }

  lemma {:induction false} ShutConcat(a: seq<Instr>, b: seq<Instr>, p: Place, returned: bool)
    ensures Shut(a + b, p, returned) <==> Shut(a, p, returned) && Shut(b, After(a, p), LastReturns(a, returned))
    decreases |a|
  {
    hide Advance, IsClosing;
    if a == [] {
      assert a + b == b;
    } else {
      assert (a + b)[0] == a[0] && (a + b)[1..] == a[1..] + b;
      ShutConcat(a[1..], b, Advance(a[0], p), a[0].op == RETURN);
    }
  }

  lemma {:induction false} UnitGrows(c: seq<Instr>, p: Place)
    ensures After(c, p).unit >= p.unit
    ensures !p.inside && After(c, p).unit == p.unit ==> !After(c, p).inside
    decreases |c|
  {
    if c != [] {
      UnitGrows(c[1..], Advance(c[0], p));
    }
  }

  /** Code that ends in the unit it starts in closes nothing. */
  lemma {:induction false} StaysShut(c: seq<Instr>, p: Place, returned: bool)
    requires p.inside && After(c, p).inside && After(c, p).unit == p.unit
    ensures Shut(c, p, returned)
    decreases |c|
  {
    if c != [] {
      var q := Advance(c[0], p);
      UnitGrows(c[1..], q);
      StaysShut(c[1..], q, c[0].op == RETURN);
    }
  }

  // ----- functions, the class, the program -----

  predicate ContainedFunctions(fs: seq<Function>) { forall f :: f in fs ==> AllContained(f.body, false, false) }

  predicate ContainedClass(c: Class) { AllContained(c.body, false, false) && ContainedFunctions(FunctionsOf(c)) }

  /** What follows a frame header: calm code, a body, a return, the end label. */
  lemma UnitLawful(name: string, header: Instr, head: seq<Instr>, body: seq<Instr>, p: Place, m: Marks, returned: bool)
    requires Plainly(name) && !p.inside && p.handlers == [] && header.op == FFRAME && header.r2 == Name("end" + name)
             && Calm(head)
    requires var u := Place(p.unit + 1, header.r2, true, []);
             After(body, u) == u && (Marked(body, u, m) ==> AllConsistent(body, u, m))
    requires Marked([Label(name), header] + head + body + [RETURN_NULL, Label("end" + name)], p, m)
    ensures var c := [Label(name), header] + head + body + [RETURN_NULL, Label("end" + name)];
            && After(c, p) == Place(p.unit + 1, header.r2, false, [])
            && AllConsistent(c, p, m) && Shut(c, p, returned)
  {
    hide After, Marked, AllConsistent, Shut;
    var u := Place(p.unit + 1, header.r2, true, []);
    var start, last := [Label(name), header], [RETURN_NULL, Label("end" + name)];
    StartPlace(name, header, p, m, returned);
    CalmBoth(head, u, m);
    AfterConcat(start, head, p);
    AfterConcat(start + head, body, p);
    AfterConcat(start + head + body, last, p);
    MarkedConcat(start, head, p, m);
    MarkedConcat(start + head, body, p, m);
    MarkedConcat(start + head + body, last, p, m);
    EndPlace(name, u, m, LastReturns(start + head + body, returned));
    StartConsistent(name, header, p, m);
    ConsistentConcat(start, head, p, m);
    ConsistentConcat(start + head, body, p, m);
    ConsistentConcat(start + head + body, last, p, m);
    StaysShut(head, u, LastReturns(start, returned));
    StaysShut(body, u, LastReturns(start + head, returned));
    ShutConcat(start, head, p, returned);
    ShutConcat(start + head, body, p, returned);
    ShutConcat(start + head + body, last, p, returned);
  }

  lemma StartPlace(name: string, header: Instr, p: Place, m: Marks, returned: bool)
    requires !p.inside && p.handlers == [] && header.op == FFRAME
    ensures After([Label(name), header], p) == Place(p.unit + 1, header.r2, true, [])
    ensures Shut([Label(name), header], p, returned)
  {
    var c := [Label(name), header];
    assert c[1..] == [header] && [header][1..] == [];
    assert Advance(c[0], p) == p;
    AfterOne(header, p);
    ShutOne(header, p, false);
  }

  lemma ShutOne(i: Instr, p: Place, returned: bool)
    ensures Shut([i], p, returned) <==> (IsClosing(i, p) ==> returned)
  {
    assert [i][1..] == [];
  }

  lemma StartConsistent(name: string, header: Instr, p: Place, m: Marks)
    requires !p.inside && p.handlers == [] && header.op == FFRAME
    requires header.r2 in m && m[header.r2] == Place(p.unit + 1, header.r2, true, [])
    ensures AllConsistent([Label(name), header], p, m)
  {
    var c := [Label(name), header];
    assert c[1..] == [header] && [header][1..] == [];
    assert Advance(c[0], p) == p;
  }

  lemma EndPlace(name: string, u: Place, m: Marks, returned: bool)
    requires u.inside && u.handlers == [] && u.closes == Name("end" + name)
    requires Marked([RETURN_NULL, Label("end" + name)], u, m)
    ensures var c := [RETURN_NULL, Label("end" + name)];
            && After(c, u) == u.(inside := false) && AllConsistent(c, u, m) && Shut(c, u, returned)
            && u.closes in m && m[u.closes] == u
  {
    var c, last := [RETURN_NULL, Label("end" + name)], Label("end" + name);
    assert c[1..] == [last] && [last][1..] == [];
    assert Advance(c[0], u) == u;
    AfterOne(last, u);
    ShutOne(last, u, true);
    OneConsistent(last, u, m);
    assert Marked([last], u, m);
  }

  lemma LoadCalm(f: Function, t: Table)
    ensures Calm([LoadFunction(f, t)])
  {
  }

  lemma FunctionLawful(f: Function, n: nat, p: Place, m: Marks, returned: bool)
    requires Plainly(f.name) && AllContained(f.body, false, false) && !p.inside && p.handlers == []
    requires Marked(FunctionCode(f, n).code, p, m)
    ensures var c := FunctionCode(f, n).code;
            && After(c, p) == Place(p.unit + 1, Name("end" + f.name), false, [])
            && AllConsistent(c, p, m) && Shut(c, p, returned)
  {
    hide After, Marked, AllConsistent, Shut, CompileBody, FunctionTables, AllContained, LoadFunction;
    var ts := FunctionTables(f);
    var b := CompileBody(f.body, ts.symbols, [], [], n);
    var u := Place(p.unit + 1, Name("end" + f.name), true, []);
    var header := FrameHeader(|b.pool| + |ts.symbols|, ts, f.name);
    var c := [Label(f.name), header] + [LoadFunction(f, ts.symbols)] + b.code + [RETURN_NULL, Label("end" + f.name)];
    assert FunctionCode(f, n).code == c;
    LoadCalm(f, ts.symbols);
    BodyStays(f.body, ts.symbols, [], [], n, u);
    if Marked(b.code, u, m) {
      BodyConsistent(f.body, false, ts.symbols, [], [], n, u, m);
    }
    UnitLawful(f.name, header, [LoadFunction(f, ts.symbols)], b.code, p, m, returned);
  }

  lemma {:induction false} PopsCalm(params: seq<string>, t: Table)
    ensures Calm(PopArguments(params, t))
    decreases |params|
  {
    if params != [] {
      PopsCalm(params[1..], t);
    }
  }

  lemma ClassLawful(c: Class, p: Place, m: Marks, returned: bool)
    requires Plainly(c.name) && AllContained(c.body, false, false) && !p.inside && p.handlers == []
    requires Marked(ClassCode(c, 0).code, p, m)
    ensures var o := ClassCode(c, 0).code;
            && After(o, p) == Place(p.unit + 1, Name("end" + c.name), false, [])
            && AllConsistent(o, p, m) && Shut(o, p, returned)
  {
    hide After, Marked, AllConsistent, Shut, CompileBody, ClassTables, AllContained, PopArguments;
    var ts := ClassTables(c);
    var b := CompileBody(c.body, ts.symbols, [], [], 0);
    var u := Place(p.unit + 1, Name("end" + c.name), true, []);
    var header, create := FrameHeader(|b.pool| + |ts.symbols|, ts, c.name), [Instr(CREATE_THIS, NULL, NULL, NULL)];
    var pops := PopArguments(c.params, ts.symbols);
    var o := [Label(c.name), header] + (create + pops) + b.code + [RETURN_NULL, Label("end" + c.name)];
    assert ClassCode(c, 0).code == o;
    CalmOne(create[0]);
    PopsCalm(c.params, ts.symbols);
    CalmConcat(create, pops);
    BodyStays(c.body, ts.symbols, [], [], 0, u);
    if Marked(b.code, u, m) {
      BodyConsistent(c.body, false, ts.symbols, [], [], 0, u, m);
    }
    UnitLawful(c.name, header, create + pops, b.code, p, m, returned);
  }

  lemma {:induction false} LineLawful(fs: seq<Function>, n: nat, p: Place, m: Marks, returned: bool)
    requires Distinct(fs) && ContainedFunctions(fs) && !p.inside && p.handlers == []
    requires Marked(Line(fs, n).code, p, m)
    ensures var c := Line(fs, n).code; AllConsistent(c, p, m) && Shut(c, p, returned) && !After(c, p).inside
    decreases |fs|
  {
    hide After, Marked, AllConsistent, Shut, FunctionCode, AllContained;
    if fs == [] {
      NothingLawful(p, m, returned);
    } else {
      var own := FunctionCode(fs[0], n);
      var rest := Line(fs[1..], own.labels).code;
      MarkedConcat(own.code, rest, p, m);
      FunctionLawful(fs[0], n, p, m, returned);
      LineLawful(fs[1..], own.labels, After(own.code, p), m, LastReturns(own.code, returned));
      ConsistentConcat(own.code, rest, p, m);
      ShutConcat(own.code, rest, p, returned);
      AfterConcat(own.code, rest, p);
    }
  }

  lemma NothingLawful(p: Place, m: Marks, returned: bool)
    ensures AllConsistent([], p, m) && Shut([], p, returned) && After([], p) == p
  {
  }

  // ----- the marks of a program -----

  function MarksOf(c: seq<Instr>, p: Place): Marks
    decreases |c|
  {
    if c == [] then map[]
    else
      var rest := MarksOf(c[1..], Advance(c[0], p));
      if c[0].op == LABEL then rest[c[0].r0 := p] else rest
  }

  lemma {:induction false} MarksLabels(c: seq<Instr>, p: Place, w: Word)
    requires w in MarksOf(c, p)
    ensures exists k :: 0 <= k < |c| && c[k].op == LABEL && c[k].r0 == w
    decreases |c|
  {
    if c[0].op == LABEL && c[0].r0 == w {
      assert c[0].op == LABEL;
    } else {
      MarksLabels(c[1..], Advance(c[0], p), w);
      var k :| 0 <= k < |c[1..]| && c[1..][k].op == LABEL && c[1..][k].r0 == w;
      assert c[k + 1].op == LABEL && c[k + 1].r0 == w;
    }
  }

  lemma {:induction false} MarksRight(c: seq<Instr>, p: Place, m: Marks)
    requires UniqueLabels(c) && forall w :: w in MarksOf(c, p) ==> w in m && m[w] == MarksOf(c, p)[w]
    ensures Marked(c, p, m)
    decreases |c|
  {
    hide Advance;
    if c != [] {
      var rest := c[1..];
      forall i, j | 0 <= i < j < |rest| && rest[i].op == LABEL && rest[j].op == LABEL
        ensures rest[i].r0 != rest[j].r0
      {
        assert c[i + 1].r0 != c[j + 1].r0;
      }
      forall w | w in MarksOf(rest, Advance(c[0], p))
        ensures w in m && m[w] == MarksOf(rest, Advance(c[0], p))[w]
      {
        MarksLabels(rest, Advance(c[0], p), w);
        var k :| 0 <= k < |rest| && rest[k].op == LABEL && rest[k].r0 == w;
        assert c[k + 1] == rest[k];
      }
      MarksRight(rest, Advance(c[0], p), m);
    }
  }

  /** Code that is consistent about places, with all its labels in place. */
  ghost predicate Lawful(code: seq<Instr>) {
    && UniqueLabels(code)
    && Marked(code, OUTSIDE, MarksOf(code, OUTSIDE))
    && AllConsistent(code, OUTSIDE, MarksOf(code, OUTSIDE))
    && Shut(code, OUTSIDE, false)
    && !After(code, OUTSIDE).inside
  }

  /** The program of a class is lawful. */
  lemma ProgramLawful(c: Class)
    requires DistinctClass(c) && ContainedClass(c)
    ensures Lawful(CompileClass(c).code)
  {
    hide After, Marked, AllConsistent, Shut, ClassCode, Line, Flat, AllContained, UniqueLabels;
    var code, n := CompileClass(c).code, ClassCode(c, 0).labels;
    var m := MarksOf(code, OUTSIDE);
    ClassLabels(c);
    MarksRight(code, OUTSIDE, m);
    FunctionsInLine(Later(c.body), n);
    var own, rest := ClassCode(c, 0).code, Line(FunctionsOf(c), n).code;
    MarkedConcat(own, rest, OUTSIDE, m);
    ClassLawful(c, OUTSIDE, m, false);
    LineLawful(FunctionsOf(c), n, After(own, OUTSIDE), m, LastReturns(own, false));
    ConsistentConcat(own, rest, OUTSIDE, m);
    ShutConcat(own, rest, OUTSIDE, false);
    AfterConcat(own, rest, OUTSIDE);
  }
}
