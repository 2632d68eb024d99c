/** Registers and frames: every operand of emitted code fits the frame its function allocates. */
module FrameSize {
  import opened Options
  import opened Bytecode
  import opened Registers
  import opened Labels
  import opened Source
  import opened Symbols
  import opened Codegen
  import opened ExprProof
  import opened Optimizer
  import opened Assembler

  predicate FitsWord(w: Word, size: nat) { w.Idx? ==> w.n <= size }

  ghost predicate FitsInstr(i: Instr, size: nat) {
    && FitsWord(i.r0, size) && FitsWord(i.r1, size) && (i.op != CALL ==> FitsWord(i.r2, size))
    && ShapedInstr(i) && Worded(i)
  }

  /** Every register operand is at most size (a call's third operand is a count); operands have
      the shapes the optimizer and the assembler rely on. */
  ghost predicate Fits(code: seq<Instr>, size: nat) { forall k :: 0 <= k < |code| ==> FitsInstr(code[k], size) }

  lemma FitsConcat(a: seq<Instr>, b: seq<Instr>, size: nat)
    requires Fits(a, size) && Fits(b, size)
    ensures Fits(a + b, size)
  {
  }

  lemma FitsMore(a: seq<Instr>, size: nat, more: nat)
    requires Fits(a, size) && size <= more
    ensures Fits(a, more)
  {
  }

  lemma FitsOne(i: Instr, size: nat)
    requires FitsInstr(i, size)
    ensures Fits([i], size)
  {
  }

  lemma FitsNothing(size: nat)
    ensures Fits([], size)
  {
  }

  lemma TargetFits(n: nat, dest: nat, p: Pool)
    ensures |p| <= |TargetPool(dest, p)|
    ensures dest <= n + |p| ==> 0 < Target(n, dest, p) <= n + |TargetPool(dest, p)|
  {
  }

  /** A function with at least one symbol (all have: this). */
  ghost predicate Usable(t: Table) { Numbering(t) && |t| >= 1 }

  lemma LookupFits(t: Table, x: string)
    requires Numbering(t)
    ensures RegisterOf(t, x) <= |t|
  {
  }

  /** The emitted operands, the result register, and the table's growth. */
  ghost predicate OutFits(o: Out, t: Table, p: Pool) {
    |p| <= |o.pool| && o.reg <= |t| + |o.pool| && Fits(o.code, |t| + |o.pool|)
  }

  lemma {:induction false} ExprFits(e: Expr, dest: nat, t: Table, p: Pool)
    requires Usable(t) && dest <= |t| + |p|
    ensures OutFits(CompileExpr(e, dest, t, p), t, p)
    decreases e
  {
    hide CompileExpr, Fits, Usable;
    match e
    case Number(_) => LeafFits(e, dest, t, p);
    case Ident(_) => LeafFits(e, dest, t, p);
    case Binary(op, l, r) => BinaryFits(op, l, r, dest, t, p);
    case Assign(x, v) => AssignFits(x, v, dest, t, p);
    case Postfix(_, _) => LeafFits(e, dest, t, p);
    case MethodCall(c, args) => CallFits(c, args, dest, t, p);
    case ThrowPrefix(v) => ThrowFits(v, dest, t, p);
  }

  ghost predicate CallCodeFits(c: CallCode, t: Table) {
    c.result <= |t| + |c.pool| && c.next <= |t| + |c.pool| && Fits(c.code, |t| + |c.pool|)
  }

  lemma {:induction false} ArgumentsFit(args: seq<Expr>, t: Table, c: CallCode)
    requires Usable(t) && CallCodeFits(c, t)
    ensures CallCodeFits(CompileArguments(args, t, c), t) && |c.pool| <= |CompileArguments(args, t, c).pool|
    decreases args, 1
  {
    hide CompileExpr, Fits, Usable, FitsInstr;
    if args != [] {
      var o := CompileExpr(args[|args| - 1], c.next, t, c.pool);
      var push := Instr(PUSH, Idx(o.reg), NULL, NULL);
      ExprFits(args[|args| - 1], c.next, t, c.pool);
      var size := |t| + |o.pool|;
      FitsMore(c.code, |t| + |c.pool|, size);
      FitsConcat(c.code, o.code, size);
      PushFits(o.reg, size);
      FitsConcat(c.code + o.code, [push], size);
      ArgumentsFit(args[..|args| - 1], t, CallCode(c.code + o.code + [push], c.result, o.reg, o.pool));
    }
  }

  lemma PushFits(r: nat, size: nat)
    requires r <= size
    ensures Fits([Instr(PUSH, Idx(r), NULL, NULL)], size) && Fits([Instr(THROW_EXCEPTION, Idx(r), NULL, NULL)], size)
  {
  }

  lemma CallFitsOne(r: nat, res: nat, n: nat, size: nat)
    requires r <= size && res <= size
    ensures Fits([Instr(CALL, Idx(r), Idx(res), Idx(n))], size)
  {
  }

  lemma {:induction false} CallFits(c: Expr, args: seq<Expr>, dest: nat, t: Table, p: Pool)
    requires Usable(t) && dest <= |t| + |p|
    ensures OutFits(CompileExpr(MethodCall(c, args), dest, t, p), t, p)
    decreases MethodCall(c, args), 0
  {
    hide CompileExpr, Fits, Usable, FitsInstr, CompileArguments, Target, TargetPool, Take, Taken, Release;
    CallParted(c, args, dest, t, p);
    TargetFits(|t|, dest, p);
    TakeFits(|t|, TargetPool(dest, p));
    FitsNothing(|t| + |BeginCall(dest, t, p).pool|);
    ArgumentsFit(args, t, BeginCall(dest, t, p));
    var a := CompileArguments(args, t, BeginCall(dest, t, p));
    ReleaseLength(|t|, a.pool, a.next);
    var o := CompileExpr(c, 0, t, Release(|t|, a.pool, a.next));
    ExprFits(c, 0, t, Release(|t|, a.pool, a.next));
    ReleaseLength(|t|, o.pool, o.reg);
    var size := |t| + |o.pool|;
    FitsMore(a.code, |t| + |a.pool|, size);
    FitsConcat(a.code, o.code, size);
    CallFitsOne(o.reg, a.result, |args|, size);
    FitsConcat(a.code + o.code, [Instr(CALL, Idx(o.reg), Idx(a.result), Idx(|args|))], size);
  }

  lemma {:induction false} ThrowFits(v: Expr, dest: nat, t: Table, p: Pool)
    requires Usable(t) && dest <= |t| + |p|
    ensures OutFits(CompileExpr(ThrowPrefix(v), dest, t, p), t, p)
    decreases ThrowPrefix(v), 0
  {
    hide CompileExpr, Fits, Usable, FitsInstr, Take, Taken, Release;
    ThrowParted(v, dest, t, p);
    var o := CompileExpr(v, 0, t, p);
    ExprFits(v, 0, t, p);
    TakeFits(|t|, o.pool);
    ReleaseLength(|t|, Take(o.pool), Target(|t|, dest, o.pool));
    var size := |t| + |CompileExpr(ThrowPrefix(v), dest, t, p).pool|;
    FitsMore(o.code, |t| + |o.pool|, size);
    PushFits(o.reg, size);
    FitsConcat(o.code, [Instr(THROW_EXCEPTION, Idx(o.reg), NULL, NULL)], size);
  }

  lemma LeafFits(e: Expr, dest: nat, t: Table, p: Pool)
    requires (e.Number? || e.Ident? || e.Postfix?) && Usable(t) && dest <= |t| + |p|
    ensures OutFits(CompileExpr(e, dest, t, p), t, p)
  {
    if e.Number? {
      TargetFits(|t|, dest, p);
    } else if e.Ident? {
      IdentFits(e.name, dest, t, p);
    } else {
      PostfixFits(e.name, e.increment, dest, t, p);
    }
  }

  lemma IdentFits(x: string, dest: nat, t: Table, p: Pool)
    requires Usable(t) && dest <= |t| + |p|
    ensures OutFits(CompileIdent(x, dest, t, p), t, p)
  {
    TargetFits(|t|, dest, p);
    LookupFits(t, x);
  }

  lemma PostfixFits(x: string, up: bool, dest: nat, t: Table, p: Pool)
    requires Usable(t) && dest <= |t| + |p|
    ensures OutFits(CompileExpr(Postfix(x, up), dest, t, p), t, p)
  {
    hide Fits, CompileIdent, Usable, Take, Target, TargetPool;
    var n := |t|;
    var xo := CompileIdent(x, 0, t, p);
    var res := Target(n, dest, xo.pool);
    var pool := TargetPool(dest, xo.pool);
    IdentFits(x, 0, t, p);
    TargetFits(n, dest, xo.pool);
    TakeFits(n, pool);
    UsableNumbering(t);
    var name := Taken(n, pool);
    ReleaseLength(n, Take(pool), name);
    var size := n + |CompileExpr(Postfix(x, up), dest, t, p).pool|;
    var c := [Instr(MOV, Idx(res), Idx(xo.reg), NULL), Instr(if up then INC else DEC, Idx(xo.reg), Idx(xo.reg), NULL)];
    TwoFit(c[0], c[1], size);
    FitsMore(xo.code, n + |xo.pool|, size);
    FitsConcat(xo.code, c, size);
    if RegisterOf(t, x) == 0 {
      var d := [Instr(MOV_STR, Idx(name), Name(x), NULL), Instr(SET_FIELD, Idx(1), Idx(name), Idx(xo.reg))];
      TwoFit(d[0], d[1], size);
      FitsConcat(xo.code + c, d, size);
    }
  }

  lemma TwoFit(i: Instr, j: Instr, size: nat)
    requires FitsInstr(i, size) && FitsInstr(j, size)
    ensures Fits([i, j], size)
  {
  }

  lemma TakeFits(n: nat, p: Pool)
    ensures |p| <= |Take(p)| && Taken(n, p) <= n + |Take(p)|
  {
  }

  lemma ReleaseLength(n: nat, p: Pool, r: nat)
    ensures |Release(n, p, r)| == |p|
  {
  }

  lemma FreeBothLength(n: nat, p: Pool, left: nat, right: nat, result: nat)
    ensures |FreeBoth(n, p, left, right, result)| == |p|
  {
  }

  lemma {:induction false} BinaryFits(op: Op, l: Expr, r: Expr, dest: nat, t: Table, p: Pool)
    requires Usable(t) && dest <= |t| + |p|
    ensures OutFits(CompileExpr(Binary(op, l, r), dest, t, p), t, p)
    decreases Binary(op, l, r), 0
  {
    hide CompileExpr, Fits, Usable, FreeBoth, Target, TargetPool, FitsInstr, Opcode;
    BinaryParted(op, l, r, dest, t, p);
    var n := |t|;
    var lo := CompileExpr(l, 0, t, p);
    var ro := CompileExpr(r, 0, t, lo.pool);
    var res := Target(n, dest, ro.pool);
    var pool := TargetPool(dest, ro.pool);
    ExprFits(l, 0, t, p);
    ExprFits(r, 0, t, lo.pool);
    TargetFits(n, dest, ro.pool);
    FreeBothLength(n, pool, lo.reg, ro.reg, res);
    var i := Instr(Opcode(op), Idx(lo.reg), Idx(ro.reg), Idx(res));
    FitsMore(lo.code, n + |lo.pool|, n + |pool|);
    FitsMore(ro.code, n + |ro.pool|, n + |pool|);
    OperationFits(op, lo.reg, ro.reg, res, n + |pool|);
    FitsConcat(lo.code, ro.code, n + |pool|);
    FitsConcat(lo.code + ro.code, [i], n + |pool|);
  }

  lemma OperationFits(op: Op, l: nat, r: nat, d: nat, size: nat)
    requires l <= size && r <= size && 0 < d <= size
    ensures Fits([Instr(Opcode(op), Idx(l), Idx(r), Idx(d))], size)
  {
  }

  lemma {:induction false} AssignFits(x: string, v: Expr, dest: nat, t: Table, p: Pool)
    requires Usable(t) && dest <= |t| + |p|
    ensures OutFits(CompileExpr(Assign(x, v), dest, t, p), t, p)
    decreases Assign(x, v), 0
  {
    hide Fits, Usable, FreeBoth, Target, TargetPool, Take;
    var n := |t|;
    UsableNumbering(t);
    LookupFits(t, x);
    if RegisterOf(t, x) == 0 {
      var name := Taken(n, p);
      TakeFits(n, p);
      var vo := CompileExpr(v, 0, t, Take(p));
      ExprFits(v, 0, t, Take(p));
      var i, j := Instr(MOV_STR, Idx(name), Name(x), NULL), Instr(SET_FIELD, Idx(1), Idx(name), Idx(vo.reg));
      FitsOne(i, n + |vo.pool|);
      FitsOne(j, n + |vo.pool|);
      FitsConcat([i], vo.code, n + |vo.pool|);
      FitsConcat([i] + vo.code, [j], n + |vo.pool|);
    } else {
      var vo := CompileExpr(v, t[x], t, p);
      ExprFits(v, t[x], t, p);
      TargetFits(n, dest, vo.pool);
      FreeBothLength(n, TargetPool(dest, vo.pool), t[x], vo.reg, Target(n, dest, vo.pool));
      FitsMore(vo.code, n + |vo.pool|, n + |TargetPool(dest, vo.pool)|);
    }
  }

  ghost predicate PieceFits(o: Piece, t: Table, p: Pool) { |p| <= |o.pool| && Fits(o.code, |t| + |o.pool|) }

  lemma EffectFits(e: Option<Expr>, t: Table, p: Pool, n: nat)
    requires Usable(t)
    ensures PieceFits(CompileEffect(e, t, p, n), t, p)
  {
    if e.Some? {
      ExprFits(e.value, 0, t, p);
    }
  }

  lemma ConditionFits(c: Option<Expr>, target: string, t: Table, p: Pool, n: nat)
    requires Usable(t)
    ensures PieceFits(CompileCondition(c, target, t, p, n), t, p)
  {
    hide Fits;
    if c.Some? {
      var o := CompileExpr(c.value, 0, t, p);
      ExprFits(c.value, 0, t, p);
      ExprUseFits(o, t, p, Instr(JMP_TRUE, Idx(o.reg), Name(target), NULL));
    } else {
      FitsNothing(|t| + |p|);
    }
  }

  lemma ExprUseFits(o: Out, t: Table, p: Pool, i: Instr)
    requires OutFits(o, t, p) && FitsInstr(i, |t| + |o.pool|)
    ensures PieceFits(Piece(o.code + [i], Release(|t|, o.pool, o.reg), 0), t, p)
  {
    FitsOne(i, |t| + |o.pool|);
    FitsConcat(o.code, [i], |t| + |o.pool|);
  }

  /** Every operand of a statement's code fits the frame as large as the table is afterwards. */
  lemma {:induction false} StmtFits(s: Stmt, t: Table, ends: seq<string>, p: Pool, n: nat)
    requires Usable(t)
    ensures PieceFits(CompileStmt(s, t, ends, p, n), t, p)
    decreases s, 1
  {
    hide CompileExpr, Fits, Usable;
    match s
    case Var(x, v, _) =>
      UsableNumbering(t);
      LookupFits(t, x);
      var o := CompileExpr(v, RegisterOf(t, x), t, p);
      ExprFits(v, RegisterOf(t, x), t, p);
      ExprUseFits(o, t, p, Instr(MOV, Idx(RegisterOf(t, x)), Idx(o.reg), NULL));
    case Do(e) => EffectFits(Some(e), t, p, n);
    case Return(e) =>
      var o := CompileExpr(e, 0, t, p);
      ExprFits(e, 0, t, p);
      ExprUseFits(o, t, p, Instr(RETURN, Idx(o.reg), NULL, NULL));
    case Break =>
      FitsNothing(|t| + |p|);
      if ends != [] {
        FitsOne(Jump(ends[|ends| - 1]), |t| + |p|);
      }
    case Block(b) => BodyFits(b, t, ends, p, n);
    case If(_, _, _, _) => IfFits(s, t, ends, p, n);
    case Loop(_, _, _, _) => LoopFits(s, t, ends, p, n);
    case Try(_, _, _, _, _) => TryFits(s, t, ends, p, n);
    case Define(_) => FitsNothing(|t| + |p|);
  }

  lemma UsableNumbering(t: Table)
    requires Usable(t)
    ensures Numbering(t) && |t| >= 1
  {
  }

  lemma {:induction false} HoistFits(ss: seq<Stmt>, t: Table)
    requires Usable(t)
    ensures Fits(Hoist(ss, t), |t|)
  {
    if ss != [] {
      HoistFits(ss[1..], t);
      if ss[0].Define? {
        LookupFits(t, ss[0].f.name);
      }
    }
  }

  lemma {:induction false} BodyFits(ss: seq<Stmt>, t: Table, ends: seq<string>, p: Pool, n: nat)
    requires Usable(t)
    ensures PieceFits(CompileBody(ss, t, ends, p, n), t, p)
    decreases ss, 1
  {
    hide Fits, Usable, CompileAll;
    AllFits(ss, t, ends, p, n);
    HoistFits(ss, t);
    var a := CompileAll(ss, t, ends, p, n);
    FitsMore(Hoist(ss, t), |t|, |t| + |a.pool|);
    FitsConcat(Hoist(ss, t), a.code, |t| + |a.pool|);
  }

  lemma {:induction false} AllFits(ss: seq<Stmt>, t: Table, ends: seq<string>, p: Pool, n: nat)
    requires Usable(t)
    ensures PieceFits(CompileAll(ss, t, ends, p, n), t, p)
    decreases ss, 0
  {
    hide Fits, Usable, CompileStmt;
    if ss == [] {
      FitsNothing(|t| + |p|);
    } else {
      var a := CompileStmt(ss[0], t, ends, p, n);
      var b := CompileAll(ss[1..], t, ends, a.pool, a.labels);
      StmtFits(ss[0], t, ends, p, n);
      AllFits(ss[1..], t, ends, a.pool, a.labels);
      FitsMore(a.code, |t| + |a.pool|, |t| + |b.pool|);
      FitsConcat(a.code, b.code, |t| + |b.pool|);
    }
  }

  lemma {:induction false} IfFits(s: Stmt, t: Table, ends: seq<string>, p: Pool, n: nat)
    requires s.If? && Usable(t)
    ensures PieceFits(CompileStmt(s, t, ends, p, n), t, p)
    decreases s, 0
  {
    hide Fits, Usable, CompileStmt, CompileBody, CompileExpr, Tag;
    IfParted(s, t, ends, p, n);
    var c := IfParts(s, t, ends, p, n);
    var elseLabel, endLabel := Tag(ELSE, n + 1), Tag(END_CONDITIONAL, n + 2);
    var test := Instr(JMP_NOT_TRUE, Idx(c.cond.reg), Name(elseLabel), NULL);
    var jump := if s.hasElse then [Jump(endLabel)] else [];
    var size := |t| + |c.els.pool|;
    ExprFits(s.cond, 0, t, p);
    ExprUseFits(c.cond, t, p, test);
    BodyFits(s.thn, t, ends, Release(|t|, c.cond.pool, c.cond.reg), n + 2);
    FitsNothing(size);
    if s.hasElse {
      BodyFits(s.els, t, ends, c.thn.pool, c.thn.labels);
    }
    FitsMore(c.cond.code + [test], |t| + |c.cond.pool|, size);
    FitsMore(c.thn.code, |t| + |c.thn.pool|, size);
    FitsOne(Jump(endLabel), size);
    FitsOne(Label(elseLabel), size);
    FitsOne(Label(endLabel), size);
    var x1 := c.cond.code + [test];
    FitsConcat(x1, c.thn.code, size);
    FitsConcat(x1 + c.thn.code, jump, size);
    FitsConcat(x1 + c.thn.code + jump, [Label(elseLabel)], size);
    FitsConcat(x1 + c.thn.code + jump + [Label(elseLabel)], c.els.code, size);
    FitsConcat(x1 + c.thn.code + jump + [Label(elseLabel)] + c.els.code, [Label(endLabel)], size);
  }

  lemma {:induction false} LoopFits(s: Stmt, t: Table, ends: seq<string>, p: Pool, n: nat)
    requires s.Loop? && Usable(t)
    ensures PieceFits(CompileStmt(s, t, ends, p, n), t, p)
    decreases s, 0
  {
    hide Fits, Usable, CompileStmt, CompileBody, CompileEffect, CompileCondition, Tag;
    LoopParted(s, t, ends, p, n);
    var c := LoopParts(s, t, ends, p, n);
    var ls, le, lc := Tag(LOOP_START, n + 1), Tag(LOOP_END, n + 2), Tag(LOOP_CONDITION, n + 3);
    var size := |t| + |c.cond.pool|;
    EffectFits(s.start, t, p, n + 3);
    BodyFits(s.body, t, ends + [le], c.start.pool, n + 3);
    EffectFits(s.iter, t, c.body.pool, c.body.labels);
    ConditionFits(s.condition, ls, t, c.iter.pool, c.iter.labels);
    FitsMore(c.start.code, |t| + |c.start.pool|, size);
    FitsMore(c.body.code, |t| + |c.body.pool|, size);
    FitsMore(c.iter.code, |t| + |c.iter.pool|, size);
    FitsOne(Jump(lc), size);
    FitsOne(Label(ls), size);
    FitsOne(Label(lc), size);
    FitsOne(Label(le), size);
    FitsConcat([Jump(lc)], [Label(ls)], size);
    assert [Jump(lc), Label(ls)] == [Jump(lc)] + [Label(ls)];
    var x1 := c.start.code + [Jump(lc), Label(ls)];
    FitsConcat(c.start.code, [Jump(lc), Label(ls)], size);
    FitsConcat(x1, c.body.code, size);
    FitsConcat(x1 + c.body.code, c.iter.code, size);
    FitsConcat(x1 + c.body.code + c.iter.code, [Label(lc)], size);
    FitsConcat(x1 + c.body.code + c.iter.code + [Label(lc)], c.cond.code, size);
    FitsConcat(x1 + c.body.code + c.iter.code + [Label(lc)] + c.cond.code, [Label(le)], size);
  }

  lemma {:induction false} TryFits(s: Stmt, t: Table, ends: seq<string>, p: Pool, n: nat)
    requires s.Try? && Usable(t)
    ensures PieceFits(CompileStmt(s, t, ends, p, n), t, p)
    decreases s, 0
  {
    hide Fits, CompileStmt, CompileBody, Tag;
    TryParted(s, t, ends, p, n);
    var c := TryParts(s, t, ends, p, n);
    var lc, lf := Tag(CATCH, n + 1), Tag(FINALLY, n + 2);
    var enter, pop := Instr(SET_CATCH, Name(lc), Name(lf), NULL),
        Instr(POP, Idx(RegisterOf(t, s.exception)), NULL, NULL);
    var clear := Instr(CLEAR_CATCH, NULL, NULL, NULL);
    var size := |t| + |c.finallyBody.pool|;
    LookupFits(t, s.exception);
    BodyFits(s.body, t, ends, p, n + 2);
    BodyFits(s.handler, t, ends, c.body.pool, c.body.labels);
    FitsNothing(size);
    if s.hasFinally {
      BodyFits(s.finallyBody, t, ends, c.handler.pool, c.handler.labels);
    }
    FitsMore(c.body.code, |t| + |c.body.pool|, size);
    FitsMore(c.handler.code, |t| + |c.handler.pool|, size);
    FitsOne(enter, size);
    FitsOne(pop, size);
    FitsOne(clear, size);
    FitsOne(Jump(lf), size);
    FitsOne(Label(lc), size);
    FitsOne(Label(lf), size);
    FitsConcat([Jump(lf)], [Label(lc)], size);
    assert [Jump(lf), Label(lc)] == [Jump(lf)] + [Label(lc)];
    FitsConcat([enter], c.body.code, size);
    var x1 := [enter] + c.body.code + [Jump(lf), Label(lc)];
    FitsConcat([enter] + c.body.code, [Jump(lf), Label(lc)], size);
    FitsConcat(x1, [pop], size);
    FitsConcat(x1 + [pop], c.handler.code, size);
    FitsConcat(x1 + [pop] + c.handler.code, [Label(lf)], size);
    FitsConcat(x1 + [pop] + c.handler.code + [Label(lf)], c.finallyBody.code, size);
    FitsConcat(x1 + [pop] + c.handler.code + [Label(lf)] + c.finallyBody.code, [clear], size);
  }

  /** Every register operand of a function's code is at most the number of locals its frame
      header asks for. */
  lemma FunctionFits(f: Function, n: nat)
    ensures var c := FunctionCode(f, n).code;
            |c| > 1 && c[1].op == FFRAME && c[1].r0.Idx? && Fits(c, c[1].r0.n) && Shaped(c) && Readable(c)
  {
    hide Fits, CompileBody, FunctionTables;
    var ts := FunctionTables(f);
    var b := CompileBody(f.body, ts.symbols, [], [], n);
    var size := |b.pool| + |ts.symbols|;
    FunctionUsable(f);
    BodyFits(f.body, ts.symbols, [], [], n);
    LookupFits(ts.symbols, f.name);
    var head := [Label(f.name), FrameHeader(size, ts, f.name), LoadFunction(f, ts.symbols)];
    var tail := [RETURN_NULL, Label("end" + f.name)];
    HeadFits(head, tail, size);
    FitsConcat(head, b.code, size);
    FitsConcat(head + b.code, tail, size);
    FitsShaped(head + b.code + tail, size);
  }

  lemma FitsShaped(c: seq<Instr>, size: nat)
    requires Fits(c, size)
    ensures Shaped(c)
  {
  }

  lemma HeadFits(head: seq<Instr>, tail: seq<Instr>, size: nat)
    requires |head| == 3 && FitsInstr(head[0], size) && FitsInstr(head[1], size) && FitsInstr(head[2], size)
    requires |tail| == 2 && FitsInstr(tail[0], size) && FitsInstr(tail[1], size)
    ensures Fits(head, size) && Fits(tail, size)
  {
  }

  lemma FunctionUsable(f: Function)
    ensures Usable(FunctionTables(f).symbols) && FunctionTables(f).privates <= FunctionTables(f).symbols.Keys
  {
    FunctionNumbering(f);
    AddNameKeeps(map[], "this");
    AddNameKeeps(AddName(map[], "this"), f.name);
    AddNamesKeeps(AddName(AddName(map[], "this"), f.name), f.params);
    AddBodyKeeps(Header(f), f.body);
    assert "this" in FunctionTables(f).symbols;
  }
}
