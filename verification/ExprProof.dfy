/** Code emitted for a pure expression computes the expression's value and touches only its
    destination and temporaries that were free. */
module ExprProof {
  import opened Options
  import opened Bytecode
  import opened Machine
  import opened Registers
  import opened Source
  import opened Symbols
  import opened Codegen

  /** The register file holds the store's values, and null in register 0. */
  ghost predicate Represents(t: Table, st: Store, regs: Regs) {
    t.Keys == st.Keys && Get(regs, NULL) == 0.0 && forall x :: x in t ==> Get(regs, Idx(t[x])) == st[x]
  }

  /** From pool p, only register r was taken. */
  ghost predicate Claims(n: nat, p: Pool, q: Pool, r: nat) {
    forall x: nat :: Free(n, q, x) <==> Free(n, p, x) && x != r
  }

  /** Registers other than dest and the free temporaries of p keep their values. */
  ghost predicate Untouched(n: nat, p: Pool, dest: nat, a: Regs, b: Regs) {
    forall r: nat :: (dest == 0 || r != dest) && !Free(n, p, r) ==> Get(a, Idx(r)) == Get(b, Idx(r))
  }

  lemma TargetClaims(n: nat, dest: nat, p: Pool)
    requires !Free(n, p, dest)
    ensures Claims(n, p, TargetPool(dest, p), Target(n, dest, p))
    ensures dest == 0 ==> Free(n, p, Target(n, dest, p))
  {
    forall x: nat
      ensures dest == 0 ==> (Free(n, Take(p), x) <==> Free(n, p, x) && x != Taken(n, p))
    {
      TakeFrees(n, p, x);
    }
    TakeFrees(n, p, 0);
  }

  lemma FreeBothClaims(n: nat, p: Pool, left: nat, p1: Pool, right: nat, p2: Pool, result: nat, p3: Pool)
    requires Claims(n, p, p1, left) && Claims(n, p1, p2, right) && Claims(n, p2, p3, result)
    requires left > n ==> Free(n, p, left)
    requires right > n ==> Free(n, p1, right)
    requires result > n ==> Free(n, p2, result) || !Free(n, p, result)
    ensures Claims(n, p, FreeBoth(n, p3, left, right, result), result)
  {
    forall x: nat
      ensures Free(n, FreeBoth(n, p3, left, right, result), x) <==> Free(n, p, x) && x != result
    {
      ReleaseFrees(n, p3, right, x);
      ReleaseFrees(n, if right != result then Release(n, p3, right) else p3, left, x);
    }
  }

  /** The register of the result, and what the pool loses to it. */
  lemma {:induction false} ExprPool(e: Expr, dest: nat, t: Table, p: Pool)
    requires Pure(e) && Scoped(e, t.Keys) && Numbering(t) && !Free(|t|, p, dest)
    ensures var o := CompileExpr(e, dest, t, p);
            && Claims(|t|, p, o.pool, o.reg)
            && (if e.Ident? then o.reg == t[e.name] else if dest != 0 then o.reg == dest else Free(|t|, p, o.reg))
    decreases e
  {
    var n := |t|;
    match e
    case Number(x) => TargetClaims(n, dest, p);
    case Ident(x) =>
    case Binary(op, l, r) =>
      var lo := CompileExpr(l, 0, t, p);
      ExprPool(l, 0, t, p);
      var ro := CompileExpr(r, 0, t, lo.pool);
      ExprPool(r, 0, t, lo.pool);
      TargetClaims(n, dest, ro.pool);
      FreeBothClaims(n, p, lo.reg, lo.pool, ro.reg, ro.pool, Target(n, dest, ro.pool), TargetPool(dest, ro.pool));
    case _ =>
  }

  // ----- straight-line execution -----

  function RunLine(env: Env, nv: nat, code: seq<Instr>, d: Data): Effect
    decreases |code|
  {
    if code == [] then Fall(d)
    else
      var e := Exec(env, nv, code[0], d);
      if e.Fall? then RunLine(env, nv, code[1..], e.d) else e
  }

  lemma {:induction false} RunLineConcat(env: Env, nv: nat, a: seq<Instr>, b: seq<Instr>, d: Data)
    ensures RunLine(env, nv, a + b, d)
            == if RunLine(env, nv, a, d).Fall? then RunLine(env, nv, b, RunLine(env, nv, a, d).d)
                else RunLine(env, nv, a, d)
    decreases |a|
  {
    if a == [] {
      assert a + b == b;
    } else {
      assert (a + b)[1..] == a[1..] + b;
      var e := Exec(env, nv, a[0], d);
      if e.Fall? {
        RunLineConcat(env, nv, a[1..], b, e.d);
      }
    }
  }

  lemma RunLineOne(env: Env, nv: nat, i: Instr, d: Data)
    ensures RunLine(env, nv, [i], d) == Exec(env, nv, i, d)
  {
    var e := Exec(env, nv, i, d);
    if e.Fall? {
      assert [i][1..] == [];
    }
  }

  /** How an effect reports a source value. */
  ghost predicate Reports(f: Effect, v: Value, reg: nat) {
    match v
    case Is(x) => f.Fall? && Get(f.d.regs, Idx(reg)) == x
    case Fails => f.Raise? && f.fault == DivideByZero
    case Escapes => f.Escape?
  }

  ghost predicate Computes(f: Effect, v: Value, n: nat, p: Pool, dest: nat, reg: nat, d: Data) {
    && Reports(f, v, reg)
    && f.d.catches == d.catches && f.d.trace == d.trace
    && Untouched(n, p, dest, d.regs, f.d.regs)
  }

  lemma OperationReports(env: Env, nv: nat, op: Op, l: nat, r: nat, res: nat, d: Data)
    ensures var f := Exec(env, nv, Instr(Opcode(op), Idx(l), Idx(r), Idx(res)), d);
            && Reports(f, Apply(op, Get(d.regs, Idx(l)), Get(d.regs, Idx(r))), res)
            && f.d.catches == d.catches && f.d.trace == d.trace
            && (forall q: nat :: q != res ==> Get(f.d.regs, Idx(q)) == Get(d.regs, Idx(q)))
  {
  }

  /** The effects of the left operand, the right operand and the operation, one after the other. */
  function Sequence(f1: Effect, f2: Effect, f3: Effect): Effect {
    if !f1.Fall? then f1 else if !f2.Fall? then f2 else f3
  }

  lemma SequenceComputes(f1: Effect, f2: Effect, f3: Effect, v1: Value, v2: Value, op: Op, n: nat, p: Pool, p1: Pool,
                         l: nat, r: nat, dest: nat, res: nat, d: Data)
    requires Computes(f1, v1, n, p, 0, l, d) && Claims(n, p, p1, l)
    requires f1.Fall? ==> Computes(f2, v2, n, p1, 0, r, f1.d)
    requires if dest != 0 then res == dest else Free(n, p, res)
    requires f1.Fall? && f2.Fall? ==>
      && Reports(f3, Apply(op, Get(f2.d.regs, Idx(l)), Get(f2.d.regs, Idx(r))), res)
      && f3.d.catches == f2.d.catches && f3.d.trace == f2.d.trace
      && (forall q: nat :: q != res ==> Get(f3.d.regs, Idx(q)) == Get(f2.d.regs, Idx(q)))
    ensures Computes(Sequence(f1, f2, f3),
                     if !v1.Is? then v1 else if !v2.Is? then v2 else Apply(op, v1.v, v2.v), n, p, dest, res, d)
  {
    hide Get, Apply;
    if f1.Fall? {
      assert Untouched(n, p, dest, d.regs, f2.d.regs);
      if f2.Fall? {
        assert Get(f2.d.regs, Idx(l)) == v1.v;
      }
    }
  }

  /** For every pure expression, pool and destination: the emitted code leaves the value in the
      result register, or raises or escapes exactly when the expression does. */
  lemma {:induction false} ExprComputes(env: Env, e: Expr, dest: nat, t: Table, p: Pool, st: Store, d: Data)
    requires Pure(e) && Scoped(e, t.Keys) && Numbering(t) && !Free(|t|, p, dest)
    requires Represents(t, st, d.regs)
    ensures var o := CompileExpr(e, dest, t, p);
            Computes(RunLine(env, |t|, o.code, d), Eval(e, st), |t|, p, dest, o.reg, d)
    decreases e
  {
    var n := |t|;
    var o := CompileExpr(e, dest, t, p);
    match e
    case Number(x) =>
      TargetClaims(n, dest, p);
      RunLineOne(env, n, o.code[0], d);
    case Ident(x) =>
    case Binary(op, l, r) =>
      hide Exec, Get, Free, Apply;
      var lo := CompileExpr(l, 0, t, p);
      var ro := CompileExpr(r, 0, t, lo.pool);
      var i := Instr(Opcode(op), Idx(lo.reg), Idx(ro.reg), Idx(o.reg));
      assert !Free(n, p, 0) && !Free(n, lo.pool, 0) by {
        ZeroTaken(n, p);
        ZeroTaken(n, lo.pool);
      }
      ExprPool(l, 0, t, p);
      ExprPool(r, 0, t, lo.pool);
      TargetClaims(n, dest, ro.pool);
      var f1 := RunLine(env, n, lo.code, d);
      ExprComputes(env, l, 0, t, p, st, d);
      RunLineConcat(env, n, lo.code + ro.code, [i], d);
      RunLineConcat(env, n, lo.code, ro.code, d);
      var f2 := RunLine(env, n, ro.code, f1.d);
      if f1.Fall? {
        StillRepresents(t, st, p, 0, d.regs, f1.d.regs);
        ExprComputes(env, r, 0, t, lo.pool, st, f1.d);
      }
      RunLineOne(env, n, i, f2.d);
      OperationReports(env, n, op, lo.reg, ro.reg, o.reg, f2.d);
      SequenceComputes(f1, f2, Exec(env, n, i, f2.d), Eval(l, st), Eval(r, st), op, n, p, lo.pool, lo.reg, ro.reg,
                       dest, o.reg, d);
    case _ =>
  }

  lemma ZeroTaken(n: nat, p: Pool)
    ensures !Free(n, p, 0)
  {
  }

  /** Temporaries hold no variables. */
  lemma StillRepresents(t: Table, st: Store, p: Pool, dest: nat, a: Regs, b: Regs)
    requires Numbering(t) && Represents(t, st, a) && Untouched(|t|, p, dest, a, b)
    ensures forall x :: x in t && (dest == 0 || t[x] != dest) ==> Get(b, Idx(t[x])) == st[x]
    ensures dest == 0 ==> Represents(t, st, b)
  {
  }
}
