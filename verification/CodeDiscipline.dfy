/** The liveness discipline of emitted code. */
module CodeDiscipline {
  import opened Options
  import opened Bytecode
  import opened Registers
  import opened Labels
  import opened Source
  import opened Symbols
  import opened Codegen
  import opened ExprProof
  import opened Optimizer
  import opened OptimizerProof

  // ----- no temporary is live across a label or a jump -----

  /** Code after which no temporary is needed. */
  ghost predicate Closes(nv: nat, s: seq<Instr>) { Disciplined(nv, s) && NoneLive(nv, s) }

  lemma Prepend(i: Instr, s: seq<Instr>)
    ensures ([i] + s)[0] == i && ([i] + s)[1..] == s
  {
  }

  /** Instruction i in front: temporaries it reads become live, others stay dead. */
  lemma ClosesAfter(nv: nat, i: Instr, s: seq<Instr>)
    requires Closes(nv, s) && forall r: nat :: Reads(i, r) ==> r <= nv
    ensures Closes(nv, [i] + s)
  {
    hide Reads, Writes;
    Prepend(i, s);
    forall r: nat | r > nv
      ensures !Live([i] + s, r)
    {
      assert !Live(s, r);
    }
  }

  /** A pure expression's code reads only temporaries it has written. */
  lemma {:induction false} ExprLive(e: Expr, dest: nat, t: Table, p: Pool, rest: seq<Instr>, r: nat)
    requires Pure(e) && Scoped(e, t.Keys) && Numbering(t) && !Free(|t|, p, dest) && r > |t|
    requires Live(CompileExpr(e, dest, t, p).code + rest, r)
    ensures Live(rest, r) && r != CompileExpr(e, dest, t, p).reg
    decreases e
  {
    hide Live, Free, CompileExpr;
    var o := CompileExpr(e, dest, t, p);
    match e
    case Number(x) => LeafLive(e, dest, t, p, rest, r);
    case Ident(x) => LeafLive(e, dest, t, p, rest, r);
    case Binary(op, l, r') =>
      var lo := CompileExpr(l, 0, t, p);
      var ro := CompileExpr(r', 0, t, lo.pool);
      var i := Instr(Opcode(op), Idx(lo.reg), Idx(ro.reg), Idx(o.reg));
      BinaryParted(op, l, r', dest, t, p);
      ZeroTaken(|t|, p);
      ZeroTaken(|t|, lo.pool);
      assert lo.code + ro.code + [i] + rest == lo.code + (ro.code + ([i] + rest));
      ExprLive(l, 0, t, p, ro.code + ([i] + rest), r);
      ExprLive(r', 0, t, lo.pool, [i] + rest, r);
      OperationLive(i, op, rest, r);
    case _ =>
  }

  lemma LeafLive(e: Expr, dest: nat, t: Table, p: Pool, rest: seq<Instr>, r: nat)
    requires (e.Number? || (e.Ident? && e.name in t)) && Numbering(t) && r > |t|
    requires Live(CompileExpr(e, dest, t, p).code + rest, r)
    ensures Live(rest, r) && r != CompileExpr(e, dest, t, p).reg
  {
    var o := CompileExpr(e, dest, t, p);
    if e.Number? {
      Prepend(o.code[0], rest);
    } else {
      assert [] + rest == rest;
    }
  }

  lemma OperationLive(i: Instr, op: Op, rest: seq<Instr>, r: nat)
    requires i.op == Opcode(op) && Live([i] + rest, r)
    ensures i.r0 == Idx(r) || i.r1 == Idx(r) || (i.r2 != Idx(r) && Live(rest, r))
  {
    Prepend(i, rest);
  }

  predicate Straight(code: seq<Instr>) { forall k :: 0 <= k < |code| ==> !EndsSegment(code[k].op) }

  lemma {:induction false} StraightDisciplined(nv: nat, code: seq<Instr>, rest: seq<Instr>)
    requires Straight(code) && Disciplined(nv, rest)
    ensures Disciplined(nv, code + rest)
    decreases |code|
  {
    if code == [] {
      assert code + rest == rest;
    } else {
      assert (code + rest)[1..] == code[1..] + rest;
      StraightDisciplined(nv, code[1..], rest);
    }
  }

  lemma StraightConcat(a: seq<Instr>, b: seq<Instr>)
    requires Straight(a) && Straight(b)
    ensures Straight(a + b)
  {
  }

  lemma {:induction false} ExprStraight(e: Expr, dest: nat, t: Table, p: Pool)
    requires Pure(e)
    ensures Straight(CompileExpr(e, dest, t, p).code)
    decreases e
  {
    match e
    case Binary(op, l, r) =>
      hide Straight, CompileExpr;
      var lo := CompileExpr(l, 0, t, p);
      var ro := CompileExpr(r, 0, t, lo.pool);
      BinaryParted(op, l, r, dest, t, p);
      ExprStraight(l, 0, t, p);
      ExprStraight(r, 0, t, lo.pool);
      StraightConcat(lo.code, ro.code);
      OperationStraight(op, lo.reg, ro.reg, CompileExpr(e, dest, t, p).reg);
      StraightConcat(lo.code + ro.code, [Instr(Opcode(op), Idx(lo.reg), Idx(ro.reg),
                                               Idx(CompileExpr(e, dest, t, p).reg))]);
    case _ =>
  }

  lemma OperationStraight(op: Op, l: nat, r: nat, d: nat)
    ensures Straight([Instr(Opcode(op), Idx(l), Idx(r), Idx(d))])
  {
  }

  /** A pure expression, then code that needs at most its result. */
  lemma ExprCloses(e: Expr, dest: nat, t: Table, p: Pool, rest: seq<Instr>)
    requires Pure(e) && Scoped(e, t.Keys) && Numbering(t) && !Free(|t|, p, dest)
    requires Disciplined(|t|, rest)
    requires forall r :: r > |t| && Live(rest, r) ==> r == CompileExpr(e, dest, t, p).reg
    ensures Closes(|t|, CompileExpr(e, dest, t, p).code + rest)
  {
    hide CompileExpr, Live, Disciplined, Straight, Free;
    var c := CompileExpr(e, dest, t, p).code;
    ExprStraight(e, dest, t, p);
    StraightDisciplined(|t|, c, rest);
    forall r | r > |t|
      ensures !Live(c + rest, r)
    {
      if Live(c + rest, r) {
        ExprLive(e, dest, t, p, rest, r);
      }
    }
  }

  /** A pure expression whose result one instruction uses up. */
  lemma ExprUsedCloses(e: Expr, t: Table, p: Pool, i: Instr, rest: seq<Instr>)
    requires Pure(e) && Scoped(e, t.Keys) && Numbering(t) && Closes(|t|, rest)
    requires forall r :: Reads(i, r) ==> r == CompileExpr(e, 0, t, p).reg
    ensures Closes(|t|, CompileExpr(e, 0, t, p).code + ([i] + rest))
  {
    hide CompileExpr, Free;
    ZeroTaken(|t|, p);
    Prepend(i, rest);
    ExprCloses(e, 0, t, p, [i] + rest);
  }

  lemma ActionCloses(e: Expr, t: Table, p: Pool, rest: seq<Instr>)
    requires Action(e) && Scoped(e, t.Keys) && Numbering(t) && Closes(|t|, rest)
    ensures Closes(|t|, CompileExpr(e, 0, t, p).code + rest)
  {
    hide Disciplined, Live;
    match e
    case Assign(x, v) =>
      ExprCloses(v, t[x], t, p, rest);
    case Postfix(x, up) =>
      PostfixCloses(x, up, t, p, rest);
    case Number(_) | Ident(_) | Binary(_, _, _) =>
      ZeroTaken(|t|, p);
      ExprCloses(e, 0, t, p, rest);
  }

  lemma PostfixCloses(x: string, up: bool, t: Table, p: Pool, rest: seq<Instr>)
    requires x in t && Numbering(t) && Closes(|t|, rest)
    ensures Closes(|t|, CompileExpr(Postfix(x, up), 0, t, p).code + rest)
  {
    hide Disciplined, Live;
    var o := CompileExpr(Postfix(x, up), 0, t, p);
    var move := Instr(MOV, Idx(Taken(|t|, p)), Idx(t[x]), NULL);
    var bump := Instr(if up then INC else DEC, Idx(t[x]), Idx(t[x]), NULL);
    assert o.code + rest == [move] + ([bump] + rest);
    ClosesAfter(|t|, bump, rest);
    ClosesAfter(|t|, move, [bump] + rest);
  }

  lemma EffectCloses(e: Option<Expr>, t: Table, p: Pool, n: nat, rest: seq<Instr>)
    requires (e.Some? ==> Action(e.value) && Scoped(e.value, t.Keys)) && Numbering(t) && Closes(|t|, rest)
    ensures Closes(|t|, CompileEffect(e, t, p, n).code + rest)
  {
    if e.Some? {
      ActionCloses(e.value, t, p, rest);
    } else {
      assert [] + rest == rest;
    }
  }

  lemma LabelCloses(nv: nat, name: string, rest: seq<Instr>)
    requires Closes(nv, rest)
    ensures Closes(nv, [Label(name)] + rest) && Closes(nv, [Jump(name)] + rest)
  {
    ClosesAfter(nv, Label(name), rest);
    ClosesAfter(nv, Jump(name), rest);
  }

  /** The fragment's code keeps the discipline, whatever well-disciplined code follows. */
  lemma {:induction false} StmtCloses(s: Stmt, inLoop: bool, t: Table, ends: seq<string>, p: Pool, n: nat,
                                      rest: seq<Instr>)
    requires InFragment(s, t.Keys, inLoop) && Numbering(t) && Closes(|t|, rest)
    ensures Closes(|t|, CompileStmt(s, t, ends, p, n).code + rest)
    decreases s, 1
  {
    hide Closes, CompileExpr, Numbering, Free;
    match s
    case Var(x, v, _) => VarCloses(x, v, t, p, rest);
    case Do(e) => EffectCloses(Some(e), t, p, n, rest);
    case Return(e) =>
      var o := CompileExpr(e, 0, t, p);
      var i := Instr(RETURN, Idx(o.reg), NULL, NULL);
      assert o.code + [i] + rest == o.code + ([i] + rest);
      ExprUsedCloses(e, t, p, i, rest);
    case Break =>
      assert [] + rest == rest;
      if ends != [] {
        LabelCloses(|t|, ends[|ends| - 1], rest);
      }
    case Block(b) => BodyCloses(b, inLoop, t, ends, p, n, rest);
    case If(_, _, _, _) => IfCloses(s, inLoop, t, ends, p, n, rest);
    case Loop(_, _, _, _) => LoopCloses(s, inLoop, t, ends, p, n, rest);
    case _ =>
  }

  lemma VarCloses(x: string, v: Expr, t: Table, p: Pool, rest: seq<Instr>)
    requires x in t && Pure(v) && Scoped(v, t.Keys) && Numbering(t) && Closes(|t|, rest)
    ensures var o := CompileExpr(v, t[x], t, p);
            Closes(|t|, (if o.reg == t[x] then o.code else o.code + [Instr(MOV, Idx(t[x]), Idx(o.reg), NULL)]) + rest)
  {
    hide Disciplined, Live, CompileExpr;
    var o := CompileExpr(v, t[x], t, p);
    ExprPool(v, t[x], t, p);
    if o.reg == t[x] {
      ExprCloses(v, t[x], t, p, rest);
    } else {
      var i := Instr(MOV, Idx(t[x]), Idx(o.reg), NULL);
      ClosesAfter(|t|, i, rest);
      ExprCloses(v, t[x], t, p, [i] + rest);
      assert o.code + [i] + rest == o.code + ([i] + rest);
    }
  }

  lemma {:induction false} BodyCloses(ss: seq<Stmt>, inLoop: bool, t: Table, ends: seq<string>, p: Pool, n: nat,
                                      rest: seq<Instr>)
    requires AllInFragment(ss, t.Keys, inLoop) && Numbering(t) && Closes(|t|, rest)
    ensures Closes(|t|, CompileBody(ss, t, ends, p, n).code + rest)
    decreases ss, 1
  {
    hide Closes, CompileAll, Numbering;
    NothingHoisted(ss, t, inLoop);
    assert [] + CompileAll(ss, t, ends, p, n).code == CompileAll(ss, t, ends, p, n).code;
    AllCloses(ss, inLoop, t, ends, p, n, rest);
  }

  lemma {:induction false} AllCloses(ss: seq<Stmt>, inLoop: bool, t: Table, ends: seq<string>, p: Pool, n: nat,
                                     rest: seq<Instr>)
    requires AllInFragment(ss, t.Keys, inLoop) && Numbering(t) && Closes(|t|, rest)
    ensures Closes(|t|, CompileAll(ss, t, ends, p, n).code + rest)
    decreases ss, 0
  {
    hide Closes, CompileStmt, Numbering, InFragment;
    if ss == [] {
      assert [] + rest == rest;
    } else {
      var a := CompileStmt(ss[0], t, ends, p, n);
      var b := CompileAll(ss[1..], t, ends, a.pool, a.labels);
      AllCloses(ss[1..], inLoop, t, ends, a.pool, a.labels, rest);
      StmtCloses(ss[0], inLoop, t, ends, p, n, b.code + rest);
      assert a.code + b.code + rest == a.code + (b.code + rest);
    }
  }

  lemma NothingBefore(s: seq<Instr>)
    ensures [] + s == s
  {
  }

  /** A conditional's code, and what follows, read from the front. */
  lemma IfNested(c: seq<Instr>, test: Instr, a: seq<Instr>, j: seq<Instr>, l: Instr, b: seq<Instr>, e: Instr,
                 rest: seq<Instr>)
    ensures (c + [test]) + a + j + [l] + b + [e] + rest == c + ([test] + (a + (j + ([l] + (b + ([e] + rest))))))
  {
  }

  lemma LoopNested(i: seq<Instr>, j: Instr, s: Instr, b: seq<Instr>, n: seq<Instr>, l: Instr, c: seq<Instr>,
                   test: Instr, e: Instr, rest: seq<Instr>)
    ensures i + [j, s] + b + n + [l] + (c + [test]) + [e] + rest
            == i + ([j] + ([s] + (b + (n + ([l] + (c + ([test] + ([e] + rest))))))))
  {
  }

  lemma FragmentParts(s: Stmt, names: set<string>, inLoop: bool)
    requires InFragment(s, names, inLoop)
    ensures s.If? ==> Pure(s.cond) && Scoped(s.cond, names) && AllInFragment(s.thn, names, inLoop)
    ensures s.If? && s.hasElse ==> AllInFragment(s.els, names, inLoop)
    ensures s.Loop? && s.start.Some? ==> Action(s.start.value) && Scoped(s.start.value, names)
    ensures s.Loop? && s.iter.Some? ==> Action(s.iter.value) && Scoped(s.iter.value, names)
    ensures s.Loop? ==> s.condition.Some? && Pure(s.condition.value) && Scoped(s.condition.value, names)
    ensures s.Loop? ==> AllInFragment(s.body, names, true)
  {
  }

  lemma {:induction false} IfCloses(s: Stmt, inLoop: bool, t: Table, ends: seq<string>, p: Pool, n: nat,
                                    rest: seq<Instr>)
    requires s.If? && InFragment(s, t.Keys, inLoop) && Numbering(t) && Closes(|t|, rest)
    ensures Closes(|t|, CompileStmt(s, t, ends, p, n).code + rest)
    decreases s, 0
  {
    hide Closes, CompileStmt, CompileExpr, CompileBody, Numbering, InFragment, Tag;
    FragmentParts(s, t.Keys, inLoop);
    IfParted(s, t, ends, p, n);
    var c := IfParts(s, t, ends, p, n);
    var elseLabel, endLabel := Tag(ELSE, n + 1), Tag(END_CONDITIONAL, n + 2);
    var test := Instr(JMP_NOT_TRUE, Idx(c.cond.reg), Name(elseLabel), NULL);
    var jump := if s.hasElse then [Jump(endLabel)] else [];
    var r1 := [Label(endLabel)] + rest;
    LabelCloses(|t|, endLabel, rest);
    var r2 := c.els.code + r1;
    if s.hasElse {
      BodyCloses(s.els, inLoop, t, ends, c.thn.pool, c.thn.labels, r1);
    } else {
      NothingBefore(r1);
    }
    var r3 := [Label(elseLabel)] + r2;
    LabelCloses(|t|, elseLabel, r2);
    var r4 := jump + r3;
    if s.hasElse {
      LabelCloses(|t|, endLabel, r3);
    } else {
      NothingBefore(r3);
    }
    BodyCloses(s.thn, inLoop, t, ends, Release(|t|, c.cond.pool, c.cond.reg), n + 2, r4);
    ExprUsedCloses(s.cond, t, p, test, c.thn.code + r4);
    IfNested(c.cond.code, test, c.thn.code, jump, Label(elseLabel), c.els.code, Label(endLabel), rest);
  }

  lemma {:induction false} LoopCloses(s: Stmt, inLoop: bool, t: Table, ends: seq<string>, p: Pool, n: nat,
                                      rest: seq<Instr>)
    requires s.Loop? && InFragment(s, t.Keys, inLoop) && Numbering(t) && Closes(|t|, rest)
    ensures Closes(|t|, CompileStmt(s, t, ends, p, n).code + rest)
    decreases s, 0
  {
    hide Closes, CompileStmt, CompileExpr, CompileBody, CompileEffect, Numbering, InFragment, Tag;
    FragmentParts(s, t.Keys, inLoop);
    LoopParted(s, t, ends, p, n);
    var c := LoopParts(s, t, ends, p, n);
    var ls, le, lc := Tag(LOOP_START, n + 1), Tag(LOOP_END, n + 2), Tag(LOOP_CONDITION, n + 3);
    var o := CompileExpr(s.condition.value, 0, t, c.iter.pool);
    var test := Instr(JMP_TRUE, Idx(o.reg), Name(ls), NULL);
    var r1 := [Label(le)] + rest;
    LabelCloses(|t|, le, rest);
    var r2 := o.code + ([test] + r1);
    ExprUsedCloses(s.condition.value, t, c.iter.pool, test, r1);
    var r3 := [Label(lc)] + r2;
    LabelCloses(|t|, lc, r2);
    var r4 := c.iter.code + r3;
    EffectCloses(s.iter, t, c.body.pool, c.body.labels, r3);
    var r5 := c.body.code + r4;
    BodyCloses(s.body, true, t, ends + [le], c.start.pool, n + 3, r4);
    LabelCloses(|t|, ls, r5);
    LabelCloses(|t|, lc, [Label(ls)] + r5);
    EffectCloses(s.start, t, p, n + 3, [Jump(lc)] + ([Label(ls)] + r5));
    LoopNested(c.start.code, Jump(lc), Label(ls), c.body.code, c.iter.code, Label(lc), o.code, test, Label(le), rest);
  }

  /** In all code of a fragment function no temporary is live across a label or a jump. */
  lemma FunctionDisciplined(f: Function, n: nat)
    requires AllInFragment(f.body, FunctionTables(f).symbols.Keys, false)
    ensures Disciplined(|FunctionTables(f).symbols|, FunctionCode(f, n).code)
  {
    hide Closes, CompileBody, FunctionTables, AllInFragment;
    var ts := FunctionTables(f);
    var nv := |ts.symbols|;
    FunctionNumbering(f);
    var b := CompileBody(f.body, ts.symbols, [], [], n);
    var tail := [RETURN_NULL, Label("end" + f.name)];
    NothingCloses(nv);
    LabelCloses(nv, "end" + f.name, []);
    ClosesAfter(nv, RETURN_NULL, [Label("end" + f.name)] + []);
    assert tail == [RETURN_NULL] + ([Label("end" + f.name)] + []);
    BodyCloses(f.body, false, ts.symbols, [], [], n, tail);
    var load, frame := LoadFunction(f, ts.symbols), FrameHeader(|b.pool| + nv, ts, f.name);
    ClosesAfter(nv, load, b.code + tail);
    ClosesAfter(nv, frame, [load] + (b.code + tail));
    LabelCloses(nv, f.name, [frame] + ([load] + (b.code + tail)));
    assert FunctionCode(f, n).code == [Label(f.name)] + ([frame] + ([load] + (b.code + tail)));
    ClosesDisciplined(nv, FunctionCode(f, n).code);
  }

  lemma NothingCloses(nv: nat)
    ensures Closes(nv, [])
  {
  }

  lemma ClosesDisciplined(nv: nat, s: seq<Instr>)
    requires Closes(nv, s)
    ensures Disciplined(nv, s)
  {
  }
}
