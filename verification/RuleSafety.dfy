/** A condition on the code before optimization under which every rule of every pass may fire,
    and one on the source text under which compiled code meets it. */
module RuleSafety {
  import opened Options
  import opened Bytecode
  import opened Registers
  import opened Labels
  import opened Source
  import opened Symbols
  import opened Codegen
  import opened ExprProof
  import opened Optimizer
  import opened OptimizerProof
  import opened CodeDiscipline

  /** A comparison is followed by a return, or by a jump that tests its result in a temporary;
      a number loaded next to a comparison's right operand is a temporary and not its left. */
  predicate TidyAt(nv: nat, cur: Instr, next: Instr) {
    && (IsCompare(cur.op) ==>
          && next.r1 != cur.r2
          && (next.op == RETURN || (IsTestJump(next.op) && next.r0 == cur.r2 && Temporary(nv, cur.r2))))
    && (cur.op == MOV_NUMBER && (IsCompare(next.op) || IsCompareJump(next.op)) && next.r1 == cur.r0 ==>
          Temporary(nv, cur.r0) && next.r0 != cur.r0)
  }

  predicate NoSelfMove(i: Instr) { i.op == MOV ==> i.r0 != i.r1 }

  predicate Tidy(nv: nat, s: seq<Instr>) {
    s == [] || (NoSelfMove(s[0]) && (|s| > 1 ==> TidyAt(nv, s[0], s[1])) && Tidy(nv, s[1..]))
  }

  lemma TidyFires(nv: nat, cur: Instr, next: Instr)
    requires TidyAt(nv, cur, next)
    ensures FiresWell(nv, cur, next) && !SwallowsNext(cur, next)
  {
  }

  lemma {:induction false} TidySuffix(nv: nat, s: seq<Instr>, k: nat)
    requires Tidy(nv, s) && k <= |s|
    ensures Tidy(nv, s[k..])
    decreases k
  {
    if k == 0 {
      assert s[0..] == s;
    } else {
      TidySuffix(nv, s[1..], k - 1);
      assert s[1..][k - 1..] == s[k..];
    }
  }

  lemma {:induction false} TidyIsSafe(nv: nat, s: seq<Instr>)
    requires Readable(s) && Tidy(nv, s)
    ensures SafePass(nv, s)
    decreases |s|
  {
    hide TidyAt, FiresWell, MaySwallow, TurnOf;
    if s != [] {
      if |s| > 1 {
        TidyFires(nv, s[0], s[1]);
      }
      TidySuffix(nv, s, TurnAt(s).used);
      TidyIsSafe(nv, s[TurnAt(s).used..]);
    }
  }

  /** What stands first after a pass: the old head, or a fused jump on the old head's operands. */
  lemma PassHeads(nv: nat, s: seq<Instr>)
    requires Readable(s) && s != [] && Tidy(nv, s)
    ensures var t := TurnAt(s);
            && |t.push| == 1 && Pass(s)[0] == t.push[0]
            && (t.push[0] == s[0] ==> t.used == 1 || s[0].op == RETURN)
            && (t.push[0] != s[0] ==> FusedHead(s[0], t.push[0]))
  {
    hide TidyAt, TurnOf, FusedHead, FiresWell;
    if |s| > 1 {
      TidyFires(nv, s[0], s[1]);
      TidyTurn(nv, s[0], s[1]);
    }
  }

  lemma TidyTurn(nv: nat, cur: Instr, next: Instr)
    requires TidyAt(nv, cur, next) && NoSelfMove(cur)
    ensures var t := TurnOf(cur, next);
            && |t.push| == 1
            && (t.push[0] == cur ==> t.used == 1 || cur.op == RETURN)
            && (t.push[0] != cur ==> FusedHead(cur, t.push[0]))
  {
  }

  /** A fused jump compares what the comparison it absorbed did, or has a literal operand. */
  predicate FusedHead(was: Instr, f: Instr) {
    || (IsCompare(was.op) && IsCompareJump(f.op) && f.r0 == was.r0 && f.r1 == was.r1)
    || (was.op == MOV_NUMBER && IsImmediateJump(f.op))
  }

  lemma {:induction false} PassTidy(nv: nat, s: seq<Instr>)
    requires Readable(s) && Tidy(nv, s)
    ensures Tidy(nv, Pass(s))
    decreases |s|
  {
    hide TidyAt, TurnOf, FusedHead;
    if s != [] {
      var t := TurnAt(s);
      var rest := s[t.used..];
      TidySuffix(nv, s, t.used);
      PassTidy(nv, rest);
      PassHeads(nv, s);
      assert Pass(s) == t.push + Pass(rest) && Pass(s)[1..] == Pass(rest);
      if t.push[0] != s[0] {
        FusedTidy(nv, s[0], t.push[0]);
        if rest != [] {
          PassHeads(nv, rest);
        }
      } else if rest != [] {
        PassHeads(nv, rest);
        KeptTidy(nv, s[0], rest[0], Pass(rest)[0], t.used == 1);
      }
    }
  }

  lemma FusedTidy(nv: nat, was: Instr, f: Instr)
    requires FusedHead(was, f)
    ensures NoSelfMove(f) && forall next :: TidyAt(nv, f, next)
  {
  }

  lemma KeptTidy(nv: nat, cur: Instr, next: Instr, head: Instr, adjacent: bool)
    requires adjacent ==> TidyAt(nv, cur, next)
    requires adjacent || cur.op == RETURN
    requires head == next || FusedHead(next, head)
    ensures TidyAt(nv, cur, head)
  {
  }

  /** Tidy code is safe for every pass of the optimizer. */
  lemma {:induction false} TidyRunsSafely(nv: nat, s: seq<Instr>)
    requires Readable(s) && Shaped(s) && Tidy(nv, s)
    ensures SafeRun(nv, s)
    decreases |s|
  {
    PassShape(s);
    TidyIsSafe(nv, s);
    PassTidy(nv, s);
    if |Pass(s)| < |s| {
      TidyRunsSafely(nv, Pass(s));
    }
  }

  // ----- the source-level condition -----

  predicate IsComparison(op: Op) {
    op.Less? || op.LessEq? || op.Greater? || op.GreaterEq? || op.Equal? || op.NotEqual?
  }

  /** No comparison anywhere in e. */
  predicate Arithmetical(e: Expr) {
    match e
    case Binary(op, l, r) => !IsComparison(op) && Arithmetical(l) && Arithmetical(r)
    case Assign(_, v) => Arithmetical(v)
    case _ => true
  }

  /** At most one comparison, outermost. */
  predicate Condition(e: Expr) {
    Arithmetical(e) || (e.Binary? && Arithmetical(e.left) && Arithmetical(e.right))
  }

  /** A comparison of two bare variables emits nothing before the comparison itself. */
  predicate Bare(e: Expr) { e.Binary? && IsComparison(e.op) && e.left.Ident? && e.right.Ident? }

  /** A comparison of two variables does not directly follow a number load into the right one,
      which the optimizer would fuse with the jump that tests the comparison. */
  predicate Unloaded(c: Expr, loaded: Option<string>) { Bare(c) ==> loaded != Some(c.right.name) }

  /** The variable that the last instruction emitted for e loads with a number, if any; loaded is
      the one before e. */
  function AfterAction(e: Expr, loaded: Option<string>): Option<string> {
    match e
    case Ident(_) => loaded
    case Assign(x, Number(_)) => Some(x)
    case Assign(_, Ident(_)) => loaded
    case _ => None
  }

  function After(s: Stmt, loaded: Option<string>): Option<string> {
    match s
    case Var(x, v, _) => if v.Number? then Some(x) else if v == Ident(x) then loaded else None
    case Do(e) => AfterAction(e, loaded)
    case Break => loaded
    case Block(b) => AfterAll(b, loaded)
    case _ => None
  }

  function AfterAll(ss: seq<Stmt>, loaded: Option<string>): Option<string> {
    if ss == [] then loaded else AfterAll(ss[1..], After(ss[0], loaded))
  }

  /** Comparisons stand only outermost in conditions and returned expressions, and none of two
      bare variables follows a number load into the right one. */
  predicate Plain(s: Stmt, loaded: Option<string>) {
    match s
    case Var(_, v, _) => Arithmetical(v)
    case Do(e) => Arithmetical(e)
    case Return(e) => Condition(e) && Unloaded(e, loaded)
    case Break => true
    case Block(b) => AllPlain(b, loaded)
    case If(c, t, hasElse, e) =>
      Condition(c) && Unloaded(c, loaded) && AllPlain(t, None) && (hasElse ==> AllPlain(e, None))
    case Loop(i, c, n, b) =>
      && (i.Some? ==> Arithmetical(i.value)) && (c.Some? ==> Condition(c.value))
      && (n.Some? ==> Arithmetical(n.value)) && AllPlain(b, None)
    case _ => false
  }

  predicate AllPlain(ss: seq<Stmt>, loaded: Option<string>) {
    ss == [] || (Plain(ss[0], loaded) && AllPlain(ss[1..], After(ss[0], loaded)))
  }

  /** Tidy code that may follow a number load into loaded or into a temporary: if it starts with
      a comparison, that is not its right operand. */
  predicate Clear(t: Table, loaded: Option<string>, s: seq<Instr>) {
    && Tidy(|t|, s)
    && (s != [] ==>
          && !IsCompareJump(s[0].op)
          && (IsCompare(s[0].op) ==>
                s[0].r1.Idx? && s[0].r1.n <= |t| && (loaded.Some? ==> s[0].r1.n != RegisterOf(t, loaded.value))))
  }

  lemma NeatIsClear(t: Table, loaded: Option<string>, s: seq<Instr>)
    requires Neat(|t|, s)
    ensures Clear(t, loaded, s)
  {
  }

  lemma ClearIsTidy(t: Table, loaded: Option<string>, s: seq<Instr>)
    requires Clear(t, loaded, s)
    ensures Tidy(|t|, s) && Clear(t, None, s)
  {
  }

  /** Tidy code that does not start with a comparison: any number load may stand before it. */
  predicate Neat(nv: nat, s: seq<Instr>) {
    Tidy(nv, s) && (s != [] ==> !IsCompare(s[0].op) && !IsCompareJump(s[0].op))
  }

  lemma NeatAfter(nv: nat, i: Instr, s: seq<Instr>)
    requires Neat(nv, s) && NoSelfMove(i) && !IsCompare(i.op) && !IsCompareJump(i.op)
    ensures Neat(nv, [i] + s)
  {
    Prepend(i, s);
  }

  lemma OpcodeKind(op: Op)
    ensures IsComparison(op) ==> IsCompare(Opcode(op))
    ensures !IsComparison(op) ==> IsArithmetic(Opcode(op))
  {
  }

  lemma {:induction false} ArithmeticNeat(e: Expr, dest: nat, t: Table, p: Pool, rest: seq<Instr>)
    requires Pure(e) && Scoped(e, t.Keys) && Arithmetical(e) && Numbering(t) && Neat(|t|, rest)
    ensures Neat(|t|, CompileExpr(e, dest, t, p).code + rest)
    decreases e
  {
    hide Neat, CompileExpr;
    match e
    case Number(_) => LeafNeat(e, dest, t, p, rest);
    case Ident(_) => LeafNeat(e, dest, t, p, rest);
    case Binary(op, l, r) =>
      var lo := CompileExpr(l, 0, t, p);
      var ro := CompileExpr(r, 0, t, lo.pool);
      var i := Instr(Opcode(op), Idx(lo.reg), Idx(ro.reg), Idx(CompileExpr(e, dest, t, p).reg));
      BinaryParted(op, l, r, dest, t, p);
      OpcodeKind(op);
      NeatAfter(|t|, i, rest);
      ArithmeticNeat(r, 0, t, lo.pool, [i] + rest);
      ArithmeticNeat(l, 0, t, p, ro.code + ([i] + rest));
      assert lo.code + ro.code + [i] + rest == lo.code + (ro.code + ([i] + rest));
  }

  lemma LeafNeat(e: Expr, dest: nat, t: Table, p: Pool, rest: seq<Instr>)
    requires (e.Number? || (e.Ident? && e.name in t)) && Numbering(t) && Neat(|t|, rest)
    ensures Neat(|t|, CompileExpr(e, dest, t, p).code + rest)
  {
    hide Neat;
    var o := CompileExpr(e, dest, t, p);
    if e.Number? {
      NeatAfter(|t|, o.code[0], rest);
      assert o.code == [o.code[0]];
    } else {
      assert [] + rest == rest;
    }
  }

  /** A condition and the instruction that uses its value. */
  lemma ConditionTidy(c: Expr, t: Table, p: Pool, use: Instr, rest: seq<Instr>)
    requires Pure(c) && Scoped(c, t.Keys) && Condition(c) && Numbering(t) && Neat(|t|, [use] + rest)
    requires var o := CompileExpr(c, 0, t, p);
             use.r0 == Idx(o.reg) && (use.op == RETURN || IsTestJump(use.op)) && (use.r1 == NULL || use.r1.Name?)
    ensures Tidy(|t|, CompileExpr(c, 0, t, p).code + ([use] + rest))
    ensures !Bare(c) ==> Neat(|t|, CompileExpr(c, 0, t, p).code + ([use] + rest))
  {
    if Arithmetical(c) {
      ArithmeticNeat(c, 0, t, p, [use] + rest);
    } else {
      ComparisonTidy(c.op, c.left, c.right, t, p, use, rest);
    }
  }

  lemma ComparisonTidy(op: Op, l: Expr, r: Expr, t: Table, p: Pool, use: Instr, rest: seq<Instr>)
    requires IsComparison(op) && Pure(l) && Pure(r) && Scoped(l, t.Keys) && Scoped(r, t.Keys)
    requires Arithmetical(l) && Arithmetical(r) && Numbering(t) && Neat(|t|, [use] + rest)
    requires var o := CompileExpr(Binary(op, l, r), 0, t, p);
             use.r0 == Idx(o.reg) && (use.op == RETURN || IsTestJump(use.op)) && (use.r1 == NULL || use.r1.Name?)
    ensures var code := CompileExpr(Binary(op, l, r), 0, t, p).code + ([use] + rest);
            Tidy(|t|, code) && (!Bare(Binary(op, l, r)) ==> Neat(|t|, code))
  {
    hide CompileExpr, Tidy, Free, Live, Neat;
    var o := CompileExpr(Binary(op, l, r), 0, t, p);
    var lo := CompileExpr(l, 0, t, p);
    var ro := CompileExpr(r, 0, t, lo.pool);
    var i := Instr(Opcode(op), Idx(lo.reg), Idx(ro.reg), Idx(o.reg));
    BinaryCode(op, l, r, t, p);
    OpcodeKind(op);
    OperandRegisters(op, l, r, t, p);
    assert Tidy(|t|, [i] + ([use] + rest)) by {
      NeatIsTidy(|t|, [use] + rest);
      TidyCons(|t|, i, [use] + rest);
    }
    OperandsNeat(l, r, t, p, i, [use] + rest);
    assert lo.code + ro.code + [i] + ([use] + rest) == lo.code + (ro.code + ([i] + ([use] + rest)));
  }

  /** The operands' code before the comparison. */
  lemma OperandsNeat(l: Expr, r: Expr, t: Table, p: Pool, i: Instr, rest: seq<Instr>)
    requires Pure(l) && Pure(r) && Scoped(l, t.Keys) && Scoped(r, t.Keys) && Arithmetical(l) && Arithmetical(r)
    requires Numbering(t) && IsCompare(i.op) && Tidy(|t|, [i] + rest)
    requires var lo := CompileExpr(l, 0, t, p);
             var ro := CompileExpr(r, 0, t, lo.pool);
             && i.r0 == Idx(lo.reg) && i.r1 == Idx(ro.reg)
             && (!r.Ident? ==> ro.reg > |t| && ro.reg != lo.reg && ro.code != [])
             && (r.Ident? ==> ro.reg <= |t| && ro.code == [])
             && (!l.Ident? ==> lo.reg > |t| && lo.code != [])
             && (l.Ident? ==> lo.code == [])
    ensures var lo := CompileExpr(l, 0, t, p);
            var code := lo.code + (CompileExpr(r, 0, t, lo.pool).code + ([i] + rest));
            Tidy(|t|, code) && (!(l.Ident? && r.Ident?) ==> Neat(|t|, code))
  {
    hide CompileExpr, Tidy, Neat;
    var lo := CompileExpr(l, 0, t, p);
    var ro := CompileExpr(r, 0, t, lo.pool);
    var code := ro.code + ([i] + rest);
    OperandNeat(r, t, lo.pool, i, rest);
    if ro.code == [] {
      assert code == [i] + rest;
      OperandNeatLeft(l, t, p, i, rest);
    } else {
      NeatIsTidy(|t|, code);
      ArithmeticNeat(l, 0, t, p, code);
    }
    if lo.code == [] {
      assert lo.code + code == code;
    } else {
      NeatIsTidy(|t|, lo.code + code);
    }
  }

  /** The code of an operation, without the pool. */
  lemma BinaryCode(op: Op, l: Expr, r: Expr, t: Table, p: Pool)
    ensures var o := CompileExpr(Binary(op, l, r), 0, t, p);
            var lo := CompileExpr(l, 0, t, p);
            var ro := CompileExpr(r, 0, t, lo.pool);
            o.code == lo.code + ro.code + [Instr(Opcode(op), Idx(lo.reg), Idx(ro.reg), Idx(o.reg))]
  {
    hide CompileExpr, FreeBoth, Target, TargetPool;
    BinaryParted(op, l, r, 0, t, p);
  }

  lemma TidyCons(nv: nat, i: Instr, s: seq<Instr>)
    requires Tidy(nv, s) && NoSelfMove(i) && (s != [] ==> TidyAt(nv, i, s[0]))
    ensures Tidy(nv, [i] + s)
  {
    Prepend(i, s);
  }

  /** The registers of a comparison: distinct temporaries or variables, result a temporary. */
  lemma OperandRegisters(op: Op, l: Expr, r: Expr, t: Table, p: Pool)
    requires Pure(l) && Pure(r) && Scoped(l, t.Keys) && Scoped(r, t.Keys) && Numbering(t)
    ensures var o := CompileExpr(Binary(op, l, r), 0, t, p);
            var lo := CompileExpr(l, 0, t, p);
            var ro := CompileExpr(r, 0, t, lo.pool);
            && o.reg > |t|
            && (!r.Ident? ==> ro.reg > |t| && ro.reg != lo.reg && ro.code != [])
            && (r.Ident? ==> ro.reg <= |t| && ro.code == [])
            && (!l.Ident? ==> lo.reg > |t| && lo.code != [])
            && (l.Ident? ==> lo.code == [])
  {
    ExprPool(Binary(op, l, r), 0, t, p);
    ExprPool(l, 0, t, p);
    ExprPool(r, 0, t, CompileExpr(l, 0, t, p).pool);
  }

  /** The right operand's code before a comparison that uses it. */
  lemma OperandNeat(r: Expr, t: Table, p: Pool, i: Instr, rest: seq<Instr>)
    requires Pure(r) && Scoped(r, t.Keys) && Arithmetical(r) && Numbering(t) && IsCompare(i.op)
             && Tidy(|t|, [i] + rest)
    requires i.r1 == Idx(CompileExpr(r, 0, t, p).reg) && (!r.Ident? ==> i.r1.n > |t| && i.r0 != i.r1)
    ensures CompileExpr(r, 0, t, p).code != [] ==> Neat(|t|, CompileExpr(r, 0, t, p).code + ([i] + rest))
  {
    hide Tidy, Free;
    var o := CompileExpr(r, 0, t, p);
    match r
    case Number(_) =>
      Prepend(i, rest);
      TidyCons(|t|, o.code[0], [i] + rest);
      assert o.code == [o.code[0]];
    case Ident(_) =>
    case Binary(op, a, b) => LastNeat(op, a, b, 0, t, p, [i] + rest);
  }

  /** The left operand's code before a comparison whose right operand is a bare variable. */
  lemma OperandNeatLeft(l: Expr, t: Table, p: Pool, i: Instr, rest: seq<Instr>)
    requires Pure(l) && Scoped(l, t.Keys) && Arithmetical(l) && Numbering(t) && IsCompare(i.op)
             && Tidy(|t|, [i] + rest)
    requires i.r0 == Idx(CompileExpr(l, 0, t, p).reg) && i.r1.Idx? && i.r1.n <= |t| && (!l.Ident? ==> i.r0.n > |t|)
    ensures CompileExpr(l, 0, t, p).code != [] ==> Neat(|t|, CompileExpr(l, 0, t, p).code + ([i] + rest))
  {
    hide Tidy, Free;
    var o := CompileExpr(l, 0, t, p);
    match l
    case Number(_) =>
      Prepend(i, rest);
      TidyCons(|t|, o.code[0], [i] + rest);
      assert o.code == [o.code[0]];
    case Ident(_) =>
    case Binary(op, a, b) => LastNeat(op, a, b, 0, t, p, [i] + rest);
  }

  /** Code that ends in an arithmetic operation may stand before any tidy code. */
  lemma LastNeat(op: Op, a: Expr, b: Expr, dest: nat, t: Table, p: Pool, rest: seq<Instr>)
    requires !IsComparison(op) && Pure(a) && Pure(b) && Scoped(a, t.Keys) && Scoped(b, t.Keys)
    requires Arithmetical(a) && Arithmetical(b) && Numbering(t) && Tidy(|t|, rest)
    ensures Neat(|t|, CompileExpr(Binary(op, a, b), dest, t, p).code + rest)
  {
    hide CompileExpr, Tidy, Neat, Numbering;
    var ao := CompileExpr(a, 0, t, p);
    var bo := CompileExpr(b, 0, t, ao.pool);
    var i := Instr(Opcode(op), Idx(ao.reg), Idx(bo.reg), Idx(CompileExpr(Binary(op, a, b), dest, t, p).reg));
    BinaryParted(op, a, b, dest, t, p);
    OpcodeKind(op);
    ArithmeticHead(|t|, i, rest);
    ArithmeticNeat(b, 0, t, ao.pool, [i] + rest);
    ArithmeticNeat(a, 0, t, p, bo.code + ([i] + rest));
    assert ao.code + bo.code + [i] + rest == ao.code + (bo.code + ([i] + rest));
  }

  lemma ArithmeticHead(nv: nat, i: Instr, rest: seq<Instr>)
    requires IsArithmetic(i.op) && Tidy(nv, rest)
    ensures Neat(nv, [i] + rest)
  {
    TidyCons(nv, i, rest);
  }

  /** A condition: after a load it does not clash with, or after any when it emits code before
      its comparison. */
  lemma ConditionClear(c: Expr, t: Table, p: Pool, use: Instr, rest: seq<Instr>, loaded: Option<string>)
    requires Pure(c) && Scoped(c, t.Keys) && Condition(c) && Numbering(t) && Neat(|t|, [use] + rest)
    requires var o := CompileExpr(c, 0, t, p);
             use.r0 == Idx(o.reg) && (use.op == RETURN || IsTestJump(use.op)) && (use.r1 == NULL || use.r1.Name?)
    requires Unloaded(c, loaded)
    ensures Clear(t, loaded, CompileExpr(c, 0, t, p).code + ([use] + rest))
  {
    hide Tidy;
    ConditionTidy(c, t, p, use, rest);
    if !Bare(c) {
      NeatIsClear(t, loaded, CompileExpr(c, 0, t, p).code + ([use] + rest));
    } else {
      assert loaded.Some? && loaded.value in t ==> t[loaded.value] != t[c.right.name];
      OpcodeKind(c.op);
    }
  }

  /** Arithmetic into a variable, or into a temporary when dest is 0. */
  lemma ArithmeticClear(e: Expr, dest: nat, t: Table, p: Pool, rest: seq<Instr>, loaded: Option<string>,
                        after: Option<string>)
    requires Pure(e) && Scoped(e, t.Keys) && Arithmetical(e) && Numbering(t) && Clear(t, after, rest)
    requires e.Number? && dest > 0 ==> after.Some? && after.value in t && t[after.value] == dest
    requires e.Ident? ==> after == loaded
    ensures Clear(t, loaded, CompileExpr(e, dest, t, p).code + rest)
  {
    hide Tidy;
    ClearIsTidy(t, after, rest);
    match e
    case Number(_) =>
      var o := CompileExpr(e, dest, t, p);
      TidyCons(|t|, o.code[0], rest);
      assert o.code == [o.code[0]];
    case Ident(_) => assert [] + rest == rest;
    case Binary(op, a, b) =>
      LastNeat(op, a, b, dest, t, p, rest);
      NeatIsClear(t, loaded, CompileExpr(e, dest, t, p).code + rest);
  }

  lemma ActionClear(e: Expr, t: Table, p: Pool, rest: seq<Instr>, loaded: Option<string>)
    requires Action(e) && Scoped(e, t.Keys) && Arithmetical(e) && Numbering(t)
    requires Clear(t, AfterAction(e, loaded), rest)
    ensures Clear(t, loaded, CompileExpr(e, 0, t, p).code + rest)
  {
    hide Clear;
    match e
    case Assign(x, v) => ArithmeticClear(v, t[x], t, p, rest, loaded, AfterAction(e, loaded));
    case Postfix(x, up) => PostfixClear(x, up, t, p, rest, loaded);
    case Number(_) | Ident(_) | Binary(_, _, _) => ArithmeticClear(e, 0, t, p, rest, loaded, AfterAction(e, loaded));
  }

  lemma PostfixClear(x: string, up: bool, t: Table, p: Pool, rest: seq<Instr>, loaded: Option<string>)
    requires x in t && Numbering(t) && Clear(t, None, rest)
    ensures Clear(t, loaded, CompileExpr(Postfix(x, up), 0, t, p).code + rest)
  {
    hide Tidy;
    var o := CompileExpr(Postfix(x, up), 0, t, p);
    var move := Instr(MOV, Idx(Taken(|t|, p)), Idx(t[x]), NULL);
    var bump := Instr(if up then INC else DEC, Idx(t[x]), Idx(t[x]), NULL);
    assert o.code + rest == [move] + ([bump] + rest);
    TidyCons(|t|, bump, rest);
    TidyCons(|t|, move, [bump] + rest);
  }

  /** An effect before a label or a jump. */
  lemma EffectClear(e: Option<Expr>, t: Table, p: Pool, n: nat, rest: seq<Instr>, loaded: Option<string>)
    requires e.Some? ==> Action(e.value) && Scoped(e.value, t.Keys) && Arithmetical(e.value)
    requires Numbering(t) && Neat(|t|, rest)
    ensures Clear(t, loaded, CompileEffect(e, t, p, n).code + rest)
  {
    hide Clear, Neat;
    NeatIsClear(t, loaded, rest);
    if e.Some? {
      NeatIsClear(t, AfterAction(e.value, loaded), rest);
      ActionClear(e.value, t, p, rest, loaded);
    } else {
      NothingBefore(rest);
    }
  }

  lemma LabelNeat(nv: nat, name: string, rest: seq<Instr>)
    requires Tidy(nv, rest)
    ensures Neat(nv, [Label(name)] + rest) && Neat(nv, [Jump(name)] + rest)
  {
    TidyCons(nv, Label(name), rest);
    TidyCons(nv, Jump(name), rest);
  }

  lemma {:induction false} StmtClear(s: Stmt, inLoop: bool, t: Table, ends: seq<string>, p: Pool, n: nat,
                                     rest: seq<Instr>, loaded: Option<string>)
    requires InFragment(s, t.Keys, inLoop) && Plain(s, loaded) && Numbering(t) && Clear(t, After(s, loaded), rest)
    ensures Clear(t, loaded, CompileStmt(s, t, ends, p, n).code + rest)
    decreases s, 1
  {
    hide Clear, Neat, CompileExpr, Numbering, Free, Tidy;
    ClearIsTidy(t, After(s, loaded), rest);
    match s
    case Var(x, v, _) => VarClear(x, v, t, p, rest, loaded);
    case Do(e) => ActionClear(e, t, p, rest, loaded);
    case Return(e) =>
      var o := CompileExpr(e, 0, t, p);
      var i := Instr(RETURN, Idx(o.reg), NULL, NULL);
      assert o.code + [i] + rest == o.code + ([i] + rest);
      UseNeat(|t|, i, rest);
      ConditionClear(e, t, p, i, rest, loaded);
    case Break =>
      NothingBefore(rest);
      if ends != [] {
        LabelNeat(|t|, ends[|ends| - 1], rest);
        NeatIsClear(t, loaded, [Jump(ends[|ends| - 1])] + rest);
      }
    case Block(b) => BodyClear(b, inLoop, t, ends, p, n, rest, loaded);
    case If(_, _, _, _) => IfClear(s, inLoop, t, ends, p, n, rest, loaded);
    case Loop(_, _, _, _) => LoopClear(s, inLoop, t, ends, p, n, rest, loaded);
    case _ =>
  }

  lemma UseNeat(nv: nat, use: Instr, rest: seq<Instr>)
    requires Tidy(nv, rest) && (use.op == RETURN || IsTestJump(use.op))
    ensures Neat(nv, [use] + rest)
  {
    TidyCons(nv, use, rest);
  }

  lemma NeatIsTidy(nv: nat, s: seq<Instr>)
    requires Neat(nv, s)
    ensures Tidy(nv, s)
  {
  }

  lemma VarClear(x: string, v: Expr, t: Table, p: Pool, rest: seq<Instr>, loaded: Option<string>)
    requires x in t && Pure(v) && Scoped(v, t.Keys) && Arithmetical(v) && Numbering(t)
    requires Clear(t, if v.Number? then Some(x) else if v == Ident(x) then loaded else None, rest)
    ensures var o := CompileExpr(v, t[x], t, p);
            Clear(t, loaded,
                  (if o.reg == t[x] then o.code else o.code + [Instr(MOV, Idx(t[x]), Idx(o.reg), NULL)]) + rest)
  {
    hide Tidy;
    var o := CompileExpr(v, t[x], t, p);
    if !v.Ident? {
      ArithmeticClear(v, t[x], t, p, rest, loaded, if v.Number? then Some(x) else None);
    } else if v.name == x {
      NothingBefore(rest);
    } else {
      var i := Instr(MOV, Idx(t[x]), Idx(o.reg), NULL);
      TidyCons(|t|, i, rest);
      assert [] + [i] + rest == [i] + rest;
    }
  }

  lemma {:induction false} BodyClear(ss: seq<Stmt>, inLoop: bool, t: Table, ends: seq<string>, p: Pool, n: nat,
                                     rest: seq<Instr>, loaded: Option<string>)
    requires AllInFragment(ss, t.Keys, inLoop) && AllPlain(ss, loaded) && Numbering(t)
    requires Clear(t, AfterAll(ss, loaded), rest)
    ensures Clear(t, loaded, CompileBody(ss, t, ends, p, n).code + rest)
    decreases ss, 1
  {
    hide Clear, CompileAll, Numbering;
    NothingHoisted(ss, t, inLoop);
    assert [] + CompileAll(ss, t, ends, p, n).code == CompileAll(ss, t, ends, p, n).code;
    AllClear(ss, inLoop, t, ends, p, n, rest, loaded);
  }

  lemma {:induction false} AllClear(ss: seq<Stmt>, inLoop: bool, t: Table, ends: seq<string>, p: Pool, n: nat,
                                    rest: seq<Instr>, loaded: Option<string>)
    requires AllInFragment(ss, t.Keys, inLoop) && AllPlain(ss, loaded) && Numbering(t)
    requires Clear(t, AfterAll(ss, loaded), rest)
    ensures Clear(t, loaded, CompileAll(ss, t, ends, p, n).code + rest)
    decreases ss, 0
  {
    hide Clear, CompileStmt, Numbering, InFragment, Plain, After;
    if ss == [] {
      assert [] + rest == rest;
    } else {
      var a := CompileStmt(ss[0], t, ends, p, n);
      var b := CompileAll(ss[1..], t, ends, a.pool, a.labels);
      AllClear(ss[1..], inLoop, t, ends, a.pool, a.labels, rest, After(ss[0], loaded));
      StmtClear(ss[0], inLoop, t, ends, p, n, b.code + rest, loaded);
      assert a.code + b.code + rest == a.code + (b.code + rest);
    }
  }

  /** A body between labels or jumps. */
  lemma {:induction false} BodyBetween(ss: seq<Stmt>, inLoop: bool, t: Table, ends: seq<string>, p: Pool, n: nat,
                                       rest: seq<Instr>)
    requires AllInFragment(ss, t.Keys, inLoop) && AllPlain(ss, None) && Numbering(t) && Neat(|t|, rest)
    ensures Tidy(|t|, CompileBody(ss, t, ends, p, n).code + rest)
    decreases ss, 2
  {
    hide Clear, Neat, Tidy, CompileBody, Numbering, AllInFragment, AllPlain, AfterAll;
    NeatIsClear(t, AfterAll(ss, None), rest);
    BodyClear(ss, inLoop, t, ends, p, n, rest, None);
    ClearIsTidy(t, None, CompileBody(ss, t, ends, p, n).code + rest);
  }

  lemma PlainParts(s: Stmt, loaded: Option<string>)
    requires Plain(s, loaded)
    ensures s.If? ==> Condition(s.cond) && Unloaded(s.cond, loaded) && AllPlain(s.thn, None)
                      && (s.hasElse ==> AllPlain(s.els, None))
    ensures s.Loop? && s.start.Some? ==> Arithmetical(s.start.value)
    ensures s.Loop? && s.condition.Some? ==> Condition(s.condition.value)
    ensures s.Loop? ==> (s.iter.Some? ==> Arithmetical(s.iter.value)) && AllPlain(s.body, None)
  {
  }

  lemma {:induction false} IfClear(s: Stmt, inLoop: bool, t: Table, ends: seq<string>, p: Pool, n: nat,
                                   rest: seq<Instr>, loaded: Option<string>)
    requires s.If? && InFragment(s, t.Keys, inLoop) && Plain(s, loaded) && Numbering(t) && Tidy(|t|, rest)
    ensures Clear(t, loaded, CompileStmt(s, t, ends, p, n).code + rest)
    decreases s, 0
  {
    hide Clear, Neat, Tidy, CompileStmt, CompileExpr, CompileBody, Numbering, InFragment, Plain, Unloaded, Tag;
    FragmentParts(s, t.Keys, inLoop);
    PlainParts(s, loaded);
    IfParted(s, t, ends, p, n);
    var c := IfParts(s, t, ends, p, n);
    var elseLabel, endLabel := Tag(ELSE, n + 1), Tag(END_CONDITIONAL, n + 2);
    var test := Instr(JMP_NOT_TRUE, Idx(c.cond.reg), Name(elseLabel), NULL);
    var jump := if s.hasElse then [Jump(endLabel)] else [];
    var r1 := [Label(endLabel)] + rest;
    LabelNeat(|t|, endLabel, rest);
    var r2 := c.els.code + r1;
    if s.hasElse {
      BodyBetween(s.els, inLoop, t, ends, c.thn.pool, c.thn.labels, r1);
    } else {
      NothingBefore(r1);
      NeatIsTidy(|t|, r1);
    }
    var r3 := [Label(elseLabel)] + r2;
    LabelNeat(|t|, elseLabel, r2);
    var r4 := jump + r3;
    if s.hasElse {
      NeatIsTidy(|t|, r3);
      LabelNeat(|t|, endLabel, r3);
    } else {
      NothingBefore(r3);
    }
    BodyBetween(s.thn, inLoop, t, ends, Release(|t|, c.cond.pool, c.cond.reg), n + 2, r4);
    UseNeat(|t|, test, c.thn.code + r4);
    ConditionClear(s.cond, t, p, test, c.thn.code + r4, loaded);
    IfNested(c.cond.code, test, c.thn.code, jump, Label(elseLabel), c.els.code, Label(endLabel), rest);
  }

  lemma {:induction false} LoopClear(s: Stmt, inLoop: bool, t: Table, ends: seq<string>, p: Pool, n: nat,
                                     rest: seq<Instr>, loaded: Option<string>)
    requires s.Loop? && InFragment(s, t.Keys, inLoop) && Plain(s, loaded) && Numbering(t) && Tidy(|t|, rest)
    ensures Clear(t, loaded, CompileStmt(s, t, ends, p, n).code + rest)
    decreases s, 0
  {
    hide Clear, Neat, Tidy, CompileStmt, CompileExpr, CompileBody, CompileEffect, Numbering, InFragment, Plain, Tag;
    FragmentParts(s, t.Keys, inLoop);
    PlainParts(s, loaded);
    LoopParted(s, t, ends, p, n);
    var c := LoopParts(s, t, ends, p, n);
    var ls, le, lc := Tag(LOOP_START, n + 1), Tag(LOOP_END, n + 2), Tag(LOOP_CONDITION, n + 3);
    var o := CompileExpr(s.condition.value, 0, t, c.iter.pool);
    var test := Instr(JMP_TRUE, Idx(o.reg), Name(ls), NULL);
    var r1 := [Label(le)] + rest;
    LabelNeat(|t|, le, rest);
    NeatIsTidy(|t|, r1);
    var r2 := o.code + ([test] + r1);
    UseNeat(|t|, test, r1);
    ConditionTidy(s.condition.value, t, c.iter.pool, test, r1);
    var r3 := [Label(lc)] + r2;
    LabelNeat(|t|, lc, r2);
    var r4 := c.iter.code + r3;
    EffectClear(s.iter, t, c.body.pool, c.body.labels, r3, AfterAll(s.body, None));
    var r5 := c.body.code + r4;
    BodyClear(s.body, true, t, ends + [le], c.start.pool, n + 3, r4, None);
    ClearIsTidy(t, None, r5);
    LabelNeat(|t|, ls, r5);
    NeatIsTidy(|t|, [Label(ls)] + r5);
    LabelNeat(|t|, lc, [Label(ls)] + r5);
    EffectClear(s.start, t, p, n + 3, [Jump(lc)] + ([Label(ls)] + r5), loaded);
    LoopNested(c.start.code, Jump(lc), Label(ls), c.body.code, c.iter.code, Label(lc), o.code, test, Label(le), rest);
  }

  /** The code of a plain function is tidy. */
  lemma PlainFunctionTidy(f: Function, n: nat)
    requires AllInFragment(f.body, FunctionTables(f).symbols.Keys, false) && AllPlain(f.body, None)
    ensures Tidy(|FunctionTables(f).symbols|, FunctionCode(f, n).code)
  {
    hide Neat, Tidy, CompileBody, FunctionTables, AllInFragment, AllPlain;
    var ts := FunctionTables(f);
    var nv := |ts.symbols|;
    FunctionNumbering(f);
    var b := CompileBody(f.body, ts.symbols, [], [], n);
    var tail := [RETURN_NULL, Label("end" + f.name)];
    NothingTidy(nv);
    LabelNeat(nv, "end" + f.name, []);
    NeatAfter(nv, RETURN_NULL, [Label("end" + f.name)] + []);
    assert tail == [RETURN_NULL] + ([Label("end" + f.name)] + []);
    BodyBetween(f.body, false, ts.symbols, [], [], n, tail);
    var load, frame := LoadFunction(f, ts.symbols), FrameHeader(|b.pool| + nv, ts, f.name);
    HeadTidy(nv, load, b.code + tail);
    HeadTidy(nv, frame, [load] + (b.code + tail));
    LabelNeat(nv, f.name, [frame] + ([load] + (b.code + tail)));
    assert FunctionCode(f, n).code == [Label(f.name)] + ([frame] + ([load] + (b.code + tail)));
    NeatIsTidy(nv, FunctionCode(f, n).code);
  }

  lemma HeadTidy(nv: nat, i: Instr, rest: seq<Instr>)
    requires Tidy(nv, rest) && (i.op == FFRAME || i.op == MOV_FNC)
    ensures Tidy(nv, [i] + rest)
  {
    TidyCons(nv, i, rest);
  }

  lemma NothingTidy(nv: nat)
    ensures Tidy(nv, [])
  {
  }
}
