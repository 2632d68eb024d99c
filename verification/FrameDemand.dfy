/** How large frames are: the register table of a fragment function grows to the largest demand
    of any of its expressions, at most the height of the tallest plus two. */
module FrameDemand {
  import opened Options
  import opened Bytecode
  import opened Registers
  import opened Source
  import opened Symbols
  import opened Codegen
  import opened ExprProof
  import opened StmtProof
  import opened FrameSize

  // ----- expressions -----

  /** The number of temporaries an expression's result adds to those in use. */
  function Held(e: Expr, dest: nat): nat { if e.Ident? || dest != 0 then 0 else 1 }

  /** The most temporaries an expression needs at once. */
  function Need(e: Expr, dest: nat): nat {
    match e
    case Binary(_, l, r) =>
      Max(Need(l, 0), Max(Held(l, 0) + Need(r, 0), Held(l, 0) + Held(r, 0) + if dest == 0 then 1 else 0))
    case _ => Held(e, dest)
  }

  function Height(e: Expr): nat {
    match e
    case Binary(_, l, r) => 1 + Max(Height(l), Height(r))
    case Assign(_, v) => Height(v)
    case _ => 0
  }

  lemma {:induction false} NeedBound(e: Expr, dest: nat)
    requires Pure(e)
    ensures Need(e, dest) <= Height(e) + 2 && Held(e, dest) <= Need(e, dest)
  {
    match e
    case Binary(_, l, r) =>
      NeedBound(l, 0);
      NeedBound(r, 0);
    case _ =>
  }

  /** Compiling a pure expression makes the table exactly as large as the peak demand. */
  lemma {:induction false} ExprDemand(e: Expr, dest: nat, t: Table, p: Pool)
    requires Pure(e) && Scoped(e, t.Keys) && Numbering(t) && !Free(|t|, p, dest)
    ensures var o := CompileExpr(e, dest, t, p);
            Used(o.pool) == Used(p) + Held(e, dest) && |o.pool| == Max(|p|, Used(p) + Need(e, dest))
    decreases e
  {
    hide Free, Release, FreeBoth, Take, Used, Claims, Max, Need, CompileExpr, Held, TargetPool;
    match e
    case Binary(op, l, r) =>
      var n := |t|;
      var lo := CompileExpr(l, 0, t, p);
      var ro := CompileExpr(r, 0, t, lo.pool);
      ZeroTaken(n, p);
      ZeroTaken(n, lo.pool);
      ExprPool(l, 0, t, p);
      ExprPool(r, 0, t, lo.pool);
      ExprDemand(l, 0, t, p);
      ExprDemand(r, 0, t, lo.pool);
      HeldKinds(l);
      HeldKinds(r);
      OperandsReleased(n, p, Held(l, 0), lo, Held(r, 0), ro, dest);
      BinaryParted(op, l, r, dest, t, p);
      TargetSize(dest, ro.pool);
      UsedBounds(ro.pool);
      var u, nl, hl, nr, hr, k := Used(p), Need(l, 0), Held(l, 0), Need(r, 0), Held(r, 0), if dest == 0 then 1 else 0;
      assert |lo.pool| == Max(|p|, u + nl);
      assert |ro.pool| == Max(Max(|p|, u + nl), u + hl + nr);
      assert |TargetPool(dest, ro.pool)| == Max(Max(Max(|p|, u + nl), u + hl + nr), u + hl + hr + k);
      DemandArithmetic(|p|, u, nl, hl, nr, hr, k);
      NeedUnfolds(op, l, r, dest);
      assert Need(e, dest) == Max(nl, Max(hl + nr, hl + hr + k));
      var o := CompileExpr(e, dest, t, p);
      assert |o.pool| == |TargetPool(dest, ro.pool)|;
      assert |o.pool| == Max(|p|, u + Need(e, dest));
    case _ => LeafDemand(e, dest, t, p);
  }

  lemma LeafDemand(e: Expr, dest: nat, t: Table, p: Pool)
    requires (e.Number? || (e.Ident? && e.name in t)) && Numbering(t)
    ensures var o := CompileExpr(e, dest, t, p);
            Used(o.pool) == Used(p) + Held(e, dest) && |o.pool| == Max(|p|, Used(p) + Need(e, dest))
  {
    UsedBounds(p);
    TakeSize(p);
  }

  lemma HeldKinds(e: Expr)
    ensures Held(e, 0) == if e.Ident? then 0 else 1
  {
  }

  lemma NeedUnfolds(op: Op, l: Expr, r: Expr, dest: nat)
    ensures var k := if dest == 0 then 1 else 0;
            Need(Binary(op, l, r), dest) == Max(Need(l, 0), Max(Held(l, 0) + Need(r, 0), Held(l, 0) + Held(r, 0) + k))
            && Held(Binary(op, l, r), dest) == k
  {
  }

  lemma TargetSize(dest: nat, p: Pool)
    ensures var k := if dest == 0 then 1 else 0;
            Used(TargetPool(dest, p)) == Used(p) + k && |TargetPool(dest, p)| == Max(|p|, Used(p) + k)
  {
    UsedBounds(p);
    TakeSize(p);
  }

  lemma DemandArithmetic(size: nat, used: nat, nl: nat, hl: nat, nr: nat, hr: nat, k: nat)
    ensures Max(Max(Max(size, used + nl), used + hl + nr), used + hl + hr + k)
            == Max(size, used + Max(nl, Max(hl + nr, hl + hr + k)))
  {
  }

  /** Giving back both operands leaves the result alone in addition to what was in use. */
  lemma OperandsReleased(n: nat, p: Pool, hl: nat, lo: Out, hr: nat, ro: Out, dest: nat)
    requires Claims(n, p, lo.pool, lo.reg) && Claims(n, lo.pool, ro.pool, ro.reg) && !Free(n, p, dest)
    requires if hl == 0 then lo.reg <= n else hl == 1 && Free(n, p, lo.reg)
    requires if hr == 0 then ro.reg <= n else hr == 1 && Free(n, lo.pool, ro.reg)
    ensures var res, q := Target(n, dest, ro.pool), TargetPool(dest, ro.pool);
            var out := FreeBoth(n, q, lo.reg, ro.reg, res);
            |out| == |q| && Used(out) == Used(q) - hl - hr
  {
    var res, q := Target(n, dest, ro.pool), TargetPool(dest, ro.pool);
    TakeFrees(n, ro.pool, lo.reg);
    TakeFrees(n, ro.pool, ro.reg);
    ReleaseSize(n, q, ro.reg);
    var q1 := if ro.reg != res then Release(n, q, ro.reg) else q;
    ReleaseFrees(n, q, ro.reg, lo.reg);
    ReleaseSize(n, q1, lo.reg);
  }

  // ----- statements -----

  /** Compiling gives back every temporary it takes, and makes the table as large as k
      temporaries at once need. */
  ghost predicate Peaks(p: Pool, q: Pool, k: nat) { Used(q) == Used(p) && |q| == Max(|p|, Used(p) + k) }

  lemma PeaksTogether(p: Pool, q: Pool, r: Pool, a: nat, b: nat)
    requires Peaks(p, q, a) && Peaks(q, r, b)
    ensures Peaks(p, r, Max(a, b))
  {
  }

  lemma PeaksNothing(p: Pool)
    ensures Peaks(p, p, 0)
  {
    UsedBounds(p);
  }

  /** An expression used for its effect. */
  function ActDemand(e: Expr): nat {
    match e
    case Assign(_, v) => Max(Need(v, 1), 1)
    case Postfix(_, _) => 1
    case _ => Need(e, 0)
  }

  function OptionDemand(e: Option<Expr>): nat { if e.Some? then ActDemand(e.value) else 0 }

  function StmtDemand(s: Stmt): nat
    decreases s, 1
  {
    match s
    case Var(_, v, _) => Need(v, 1)
    case Do(e) => ActDemand(e)
    case Return(e) => Need(e, 0)
    case Block(b) => BodyDemand(b)
    case If(c, t, hasElse, e) => Max(Max(Need(c, 0), BodyDemand(t)), if hasElse then BodyDemand(e) else 0)
    case Loop(i, c, n, b) =>
      Max(Max(Max(OptionDemand(i), BodyDemand(b)), OptionDemand(n)), if c.Some? then Need(c.value, 0) else 0)
    case _ => 0
  }

  function BodyDemand(ss: seq<Stmt>): nat
    decreases ss, 0
  {
    if ss == [] then 0 else Max(StmtDemand(ss[0]), BodyDemand(ss[1..]))
  }

  /** A value in a register, given back after use. */
  lemma UsePeaks(e: Expr, t: Table, p: Pool)
    requires Pure(e) && Scoped(e, t.Keys) && Numbering(t)
    ensures var o := CompileExpr(e, 0, t, p);
            Peaks(p, Release(|t|, o.pool, o.reg), Need(e, 0))
  {
    hide CompileExpr, Need, Used;
    var o := CompileExpr(e, 0, t, p);
    ZeroTaken(|t|, p);
    ExprPool(e, 0, t, p);
    ExprDemand(e, 0, t, p);
    ReleaseSize(|t|, o.pool, o.reg);
  }

  /** A value put into a variable. */
  lemma StorePeaks(e: Expr, x: string, t: Table, p: Pool)
    requires Pure(e) && Scoped(e, t.Keys) && Numbering(t) && x in t
    ensures var o := CompileExpr(e, t[x], t, p);
            Peaks(p, o.pool, Need(e, 1)) && o.reg <= |t|
  {
    hide CompileExpr, Used, Free;
    VariableTaken(|t|, p, t[x]);
    ExprPool(e, t[x], t, p);
    ExprDemand(e, t[x], t, p);
  }

  lemma ActPeaks(e: Expr, t: Table, p: Pool, n: nat)
    requires Action(e) && Scoped(e, t.Keys) && Numbering(t)
    ensures Peaks(p, CompileEffect(Some(e), t, p, n).pool, ActDemand(e))
  {
    hide CompileExpr, Need, Peaks, Release, Take;
    match e
    case Assign(x, v) =>
      var vo := CompileExpr(v, t[x], t, p);
      StorePeaks(v, x, t, p);
      AssignParted(x, v, 0, t, p);
      TakenPeaks(t, vo.pool, t[x], vo.reg);
      PeaksTogether(p, vo.pool, CompileEffect(Some(e), t, p, n).pool, Need(v, 1), 1);
    case Postfix(x, up) =>
      PostfixParted(x, up, 0, t, p);
      TakenPeaks(t, p, 0, 0);
    case Number(_) | Ident(_) | Binary(_, _, _) => UsePeaks(e, t, p);
  }

  /** A temporary taken and given back, variables given back in between. */
  lemma TakenPeaks(t: Table, p: Pool, a: nat, b: nat)
    requires a <= |t| && b <= |t|
    ensures Peaks(p, Release(|t|, Take(p), Taken(|t|, p)), 1)
    ensures FreeBoth(|t|, Take(p), a, b, Taken(|t|, p)) == Take(p)
  {
    hide Used;
    UsedBounds(p);
    TakeSize(p);
    TakeFrees(|t|, p, Taken(|t|, p));
    ReleaseSize(|t|, Take(p), Taken(|t|, p));
  }

  lemma OptionPeaks(e: Option<Expr>, t: Table, p: Pool, n: nat)
    requires e.Some? ==> Action(e.value) && Scoped(e.value, t.Keys)
    requires Numbering(t)
    ensures Peaks(p, CompileEffect(e, t, p, n).pool, OptionDemand(e))
  {
    hide CompileExpr, ActDemand, Peaks;
    if e.Some? {
      ActPeaks(e.value, t, p, n);
    } else {
      PeaksNothing(p);
    }
  }

  /** Every statement gives back what it takes; the table grows to its largest demand. */
  lemma {:induction false} StmtPeaks(s: Stmt, inLoop: bool, t: Table, ends: seq<string>, p: Pool, n: nat)
    requires InFragment(s, t.Keys, inLoop) && Numbering(t)
    ensures Peaks(p, CompileStmt(s, t, ends, p, n).pool, StmtDemand(s))
    decreases s, 1
  {
    hide CompileExpr, Need, Peaks, Release, Numbering, Max;
    match s
    case Var(x, v, _) =>
      StorePeaks(v, x, t, p);
      VariableKept(t, CompileExpr(v, t[x], t, p));
    case Do(e) => ActPeaks(e, t, p, n);
    case Return(e) => UsePeaks(e, t, p);
    case Break => PeaksNothing(p);
    case Block(b) => BodyPeaks(b, inLoop, t, ends, p, n);
    case If(c, th, hasElse, e) =>
      IfParted(s, t, ends, p, n);
      var o := IfParts(s, t, ends, p, n);
      var q := Release(|t|, o.cond.pool, o.cond.reg);
      UsePeaks(c, t, p);
      BodyPeaks(th, inLoop, t, ends, q, n + 2);
      PeaksTogether(p, q, o.thn.pool, Need(c, 0), BodyDemand(th));
      if hasElse {
        BodyPeaks(e, inLoop, t, ends, o.thn.pool, o.thn.labels);
      } else {
        PeaksNothing(o.thn.pool);
      }
      PeaksTogether(p, o.thn.pool, o.els.pool, Max(Need(c, 0), BodyDemand(th)), if hasElse then BodyDemand(e) else 0);
    case Loop(_, _, _, _) => LoopPeaks(s, inLoop, t, ends, p, n);
  }

  lemma VariableKept(t: Table, o: Out)
    requires o.reg <= |t|
    ensures Release(|t|, o.pool, o.reg) == o.pool
  {
  }

  lemma {:induction false} LoopPeaks(s: Stmt, inLoop: bool, t: Table, ends: seq<string>, p: Pool, n: nat)
    requires s.Loop? && InFragment(s, t.Keys, inLoop) && Numbering(t)
    ensures Peaks(p, CompileStmt(s, t, ends, p, n).pool, StmtDemand(s))
    decreases s, 0
  {
    hide CompileExpr, CompileEffect, CompileBody, Need, Peaks, Release, Numbering, Max, OptionDemand;
    LoopParted(s, t, ends, p, n);
    var c := LoopParts(s, t, ends, p, n);
    OptionPeaks(s.start, t, p, n + 3);
    BodyPeaks(s.body, true, t, ends + [Labels.Tag(Labels.LOOP_END, n + 2)], c.start.pool, n + 3);
    OptionPeaks(s.iter, t, c.body.pool, c.body.labels);
    UsePeaks(s.condition.value, t, c.iter.pool);
    PeaksTogether(p, c.start.pool, c.body.pool, OptionDemand(s.start), BodyDemand(s.body));
    PeaksTogether(p, c.body.pool, c.iter.pool, Max(OptionDemand(s.start), BodyDemand(s.body)), OptionDemand(s.iter));
    PeaksTogether(p, c.iter.pool, c.cond.pool,
                  Max(Max(OptionDemand(s.start), BodyDemand(s.body)), OptionDemand(s.iter)),
                      Need(s.condition.value, 0));
  }

  lemma {:induction false} BodyPeaks(ss: seq<Stmt>, inLoop: bool, t: Table, ends: seq<string>, p: Pool, n: nat)
    requires AllInFragment(ss, t.Keys, inLoop) && Numbering(t)
    ensures Peaks(p, CompileBody(ss, t, ends, p, n).pool, BodyDemand(ss))
    decreases ss, 3
  {
    AllPeaks(ss, inLoop, t, ends, p, n);
  }

  lemma {:induction false} AllPeaks(ss: seq<Stmt>, inLoop: bool, t: Table, ends: seq<string>, p: Pool, n: nat)
    requires AllInFragment(ss, t.Keys, inLoop) && Numbering(t)
    ensures Peaks(p, CompileAll(ss, t, ends, p, n).pool, BodyDemand(ss))
    decreases ss, 2
  {
    hide CompileStmt, InFragment, StmtDemand, Peaks, Numbering, Max;
    if ss == [] {
      PeaksNothing(p);
    } else {
      var a := CompileStmt(ss[0], t, ends, p, n);
      StmtPeaks(ss[0], inLoop, t, ends, p, n);
      AllPeaks(ss[1..], inLoop, t, ends, a.pool, a.labels);
      PeaksTogether(p, a.pool, CompileAll(ss, t, ends, p, n).pool, StmtDemand(ss[0]), BodyDemand(ss[1..]));
    }
  }

  // ----- functions -----

  /** No expression of the statements is taller than h. */
  predicate NoTaller(s: Stmt, h: nat)
    decreases s, 1
  {
    match s
    case Var(_, v, _) => Height(v) <= h
    case Do(e) => Height(e) <= h
    case Return(e) => Height(e) <= h
    case Block(b) => NoneTaller(b, h)
    case If(c, t, hasElse, e) => Height(c) <= h && NoneTaller(t, h) && (hasElse ==> NoneTaller(e, h))
    case Loop(i, c, n, b) =>
      && (i.Some? ==> Height(i.value) <= h) && (c.Some? ==> Height(c.value) <= h)
      && (n.Some? ==> Height(n.value) <= h) && NoneTaller(b, h)
    case _ => true
  }

  predicate NoneTaller(ss: seq<Stmt>, h: nat)
    decreases ss, 0
  {
    ss == [] || (NoTaller(ss[0], h) && NoneTaller(ss[1..], h))
  }

  lemma ActBound(e: Expr, h: nat)
    requires Action(e) && Height(e) <= h
    ensures ActDemand(e) <= h + 2
  {
    hide Need;
    match e
    case Assign(_, v) => NeedBound(v, 1);
    case Postfix(_, _) =>
    case Number(_) | Ident(_) | Binary(_, _, _) => NeedBound(e, 0);
  }

  lemma {:induction false} DemandBound(ss: seq<Stmt>, names: set<string>, inLoop: bool, h: nat)
    requires AllInFragment(ss, names, inLoop) && NoneTaller(ss, h)
    ensures BodyDemand(ss) <= h + 2
    decreases ss, 0
  {
    if ss != [] {
      StmtBound(ss[0], names, inLoop, h);
      DemandBound(ss[1..], names, inLoop, h);
    }
  }

  lemma {:induction false} StmtBound(s: Stmt, names: set<string>, inLoop: bool, h: nat)
    requires InFragment(s, names, inLoop) && NoTaller(s, h)
    ensures StmtDemand(s) <= h + 2
    decreases s, 1
  {
    hide Need, ActDemand, Height, Pure, Action, Scoped;
    match s
    case Var(_, v, _) => NeedBound(v, 1);
    case Do(e) => ActBound(e, h);
    case Return(e) => NeedBound(e, 0);
    case Break =>
    case Block(b) => DemandBound(b, names, inLoop, h);
    case If(c, t, hasElse, e) =>
      NeedBound(c, 0);
      DemandBound(t, names, inLoop, h);
      if hasElse {
        DemandBound(e, names, inLoop, h);
      }
    case Loop(i, c, n, b) =>
      if i.Some? {
        ActBound(i.value, h);
      }
      if n.Some? {
        ActBound(n.value, h);
      }
      NeedBound(c.value, 0);
      DemandBound(b, names, true, h);
  }

  /** The frame of a fragment function holds its symbols and exactly as many temporaries as its
      most demanding expression needs: at most the height of its tallest expression plus two. */
  lemma FunctionFrame(f: Function, n: nat, h: nat)
    requires AllInFragment(f.body, FunctionTables(f).symbols.Keys, false) && NoneTaller(f.body, h)
    ensures var c, nv := FunctionCode(f, n).code, |FunctionTables(f).symbols|;
            |c| > 1 && c[1].op == FFRAME && c[1].r0 == Idx(nv + BodyDemand(f.body)) && BodyDemand(f.body) <= h + 2
  {
    hide FunctionTables, CompileBody, BodyDemand, Used;
    FunctionUsable(f);
    BodyPeaks(f.body, false, FunctionTables(f).symbols, [], [], n);
    DemandBound(f.body, FunctionTables(f).symbols.Keys, false, h);
    UsedBounds([]);
  }
}
