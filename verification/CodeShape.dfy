/** The labels of emitted code: each is made from a counter value of its own. */
module CodeShape {
  import opened Options
  import opened Bytecode
  import opened Registers
  import opened Labels
  import opened Source
  import opened Symbols
  import opened Codegen
  import opened Optimizer
  import opened OptimizerProof

  // ----- labels -----

  /** The counter values lo + 1 .. hi. */
  function Range(lo: nat, hi: nat): set<nat> { if hi <= lo then {} else Range(lo, hi - 1) + {hi} }

  lemma {:induction false} InRange(lo: nat, hi: nat, m: nat)
    ensures m in Range(lo, hi) <==> lo < m <= hi
  {
    if hi > lo {
      InRange(lo, hi - 1, m);
    }
  }

  ghost predicate Generated(w: Word, counters: set<nat>) {
    exists a: string, m: nat :: IsPrefix(a) && m in counters && w == Name(Tag(a, m))
  }

  /** Labels are made from the given counter values, each at most once. */
  ghost predicate Labelled(code: seq<Instr>, counters: set<nat>) {
    UniqueLabels(code) && forall k :: 0 <= k < |code| && code[k].op == LABEL ==> Generated(code[k].r0, counters)
  }

  predicate NoLabels(code: seq<Instr>) { forall k :: 0 <= k < |code| ==> code[k].op != LABEL }

  lemma NoLabelsLabelled(code: seq<Instr>)
    requires NoLabels(code)
    ensures Labelled(code, {})
  {
  }

  lemma OneLabel(a: string, m: nat)
    requires IsPrefix(a)
    ensures Labelled([Label(Tag(a, m))], {m})
  {
    assert Generated(Name(Tag(a, m)), {m});
  }

  lemma GeneratedApart(w: Word, p: set<nat>, q: set<nat>)
    requires p !! q
    ensures !(Generated(w, p) && Generated(w, q))
  {
    if Generated(w, p) && Generated(w, q) {
      var a: string, m: nat :| IsPrefix(a) && m in p && w == Name(Tag(a, m));
      var b: string, n: nat :| IsPrefix(b) && n in q && w == Name(Tag(b, n));
      TagInjective(a, m, b, n);
      assert false;
    }
  }

  lemma GeneratedDotted(w: Word, p: set<nat>)
    requires Generated(w, p)
    ensures w.Name? && w.s != [] && w.s[0] == '.'
  {
  }

  lemma GeneratedMore(w: Word, p: set<nat>, q: set<nat>)
    requires Generated(w, p) && p <= q
    ensures Generated(w, q)
  {
    var a: string, m: nat :| IsPrefix(a) && m in p && w == Name(Tag(a, m));
    assert m in q;
  }

  lemma LabelledConcat(a: seq<Instr>, p: set<nat>, b: seq<Instr>, q: set<nat>)
    requires Labelled(a, p) && Labelled(b, q) && p !! q
    ensures Labelled(a + b, p + q)
  {
    var c := a + b;
    forall k | 0 <= k < |c| && c[k].op == LABEL
      ensures Generated(c[k].r0, p + q)
    {
      if k < |a| {
        GeneratedMore(c[k].r0, p, p + q);
      } else {
        GeneratedMore(c[k].r0, q, p + q);
      }
    }
    forall i, j | 0 <= i < j < |c| && c[i].op == LABEL && c[j].op == LABEL
      ensures c[i].r0 != c[j].r0
    {
      if i < |a| && j >= |a| {
        assert Generated(a[i].r0, p) && Generated(b[j - |a|].r0, q);
        GeneratedApart(c[i].r0, p, q);
      } else if j < |a| {
        assert a[i].r0 != a[j].r0;
      } else {
        assert b[i - |a|].r0 != b[j - |a|].r0;
      }
    }
  }

  lemma {:induction false} ExprNoLabels(e: Expr, dest: nat, t: Table, p: Pool)
    ensures NoLabels(CompileExpr(e, dest, t, p).code)
    decreases e
  {
    match e
    case Binary(op, l, r) =>
      hide NoLabels, Opcode;
      var lo := CompileExpr(l, 0, t, p);
      var ro := CompileExpr(r, 0, t, lo.pool);
      ExprNoLabels(l, 0, t, p);
      ExprNoLabels(r, 0, t, lo.pool);
      NoLabelsConcat(lo.code, ro.code);
      OperatorsAreNoLabels(op);
      NoLabelsAdd(lo.code + ro.code, Opcode(op));
    case Assign(x, v) =>
      hide NoLabels;
      var name := Instr(MOV_STR, Idx(Taken(|t|, p)), Name(x), NULL);
      var vo := CompileExpr(v, 0, t, Take(p));
      ExprNoLabels(v, 0, t, Take(p));
      ExprNoLabels(v, RegisterOf(t, x), t, p);
      SingleNoLabels(name);
      NoLabelsConcat([name], vo.code);
      NoLabelsAdd([name] + vo.code, SET_FIELD);
    case MethodCall(c, args) =>
      hide NoLabels, CompileArguments;
      var a := CompileArguments(args, t, BeginCall(dest, t, p));
      var o := CompileExpr(c, 0, t, Release(|t|, a.pool, a.next));
      NoneHasNoLabels();
      ArgumentsNoLabels(args, t, BeginCall(dest, t, p));
      ExprNoLabels(c, 0, t, Release(|t|, a.pool, a.next));
      NoLabelsConcat(a.code, o.code);
      SingleNoLabels(Instr(CALL, Idx(o.reg), Idx(a.result), Idx(|args|)));
      NoLabelsConcat(a.code + o.code, [Instr(CALL, Idx(o.reg), Idx(a.result), Idx(|args|))]);
    case ThrowPrefix(v) =>
      hide NoLabels;
      var o := CompileExpr(v, 0, t, p);
      ExprNoLabels(v, 0, t, p);
      SingleNoLabels(Instr(THROW_EXCEPTION, Idx(o.reg), NULL, NULL));
      NoLabelsConcat(o.code, [Instr(THROW_EXCEPTION, Idx(o.reg), NULL, NULL)]);
    case _ =>
  }

  lemma {:induction false} ArgumentsNoLabels(args: seq<Expr>, t: Table, c: CallCode)
    requires NoLabels(c.code)
    ensures NoLabels(CompileArguments(args, t, c).code)
    decreases args
  {
    hide NoLabels, CompileExpr;
    if args != [] {
      var o := CompileExpr(args[|args| - 1], c.next, t, c.pool);
      var push := Instr(PUSH, Idx(o.reg), NULL, NULL);
      ExprNoLabels(args[|args| - 1], c.next, t, c.pool);
      NoLabelsConcat(c.code, o.code);
      SingleNoLabels(push);
      NoLabelsConcat(c.code + o.code, [push]);
      ArgumentsNoLabels(args[..|args| - 1], t, CallCode(c.code + o.code + [push], c.result, o.reg, o.pool));
    }
  }

  lemma NoneHasNoLabels()
    ensures NoLabels([])
  {
  }

  lemma OperatorsAreNoLabels(op: Op)
    ensures Opcode(op) != LABEL
  {
  }

  lemma NoLabelsConcat(a: seq<Instr>, b: seq<Instr>)
    requires NoLabels(a) && NoLabels(b)
    ensures NoLabels(a + b)
  {
  }

  lemma NoLabelsAdd(a: seq<Instr>, op: nat)
    requires NoLabels(a) && op != LABEL
    ensures forall x, y, z :: NoLabels(a + [Instr(op, x, y, z)])
  {
  }

  lemma EffectNoLabels(e: Option<Expr>, t: Table, p: Pool, n: nat)
    ensures NoLabels(CompileEffect(e, t, p, n).code) && CompileEffect(e, t, p, n).labels == n
  {
    if e.Some? {
      ExprNoLabels(e.value, 0, t, p);
    }
  }

  lemma ConditionNoLabels(c: Option<Expr>, target: string, t: Table, p: Pool, n: nat)
    ensures NoLabels(CompileCondition(c, target, t, p, n).code) && CompileCondition(c, target, t, p, n).labels == n
  {
    if c.Some? {
      ExprNoLabels(c.value, 0, t, p);
    }
  }

  lemma {:induction false} HoistNoLabels(ss: seq<Stmt>, t: Table)
    ensures NoLabels(Hoist(ss, t))
  {
    if ss != [] {
      HoistNoLabels(ss[1..], t);
    }
  }

  /** Code whose labels are exactly made from the counter values n + 1 .. m. */
  ghost predicate Counts(o: Piece, n: nat) {
    n <= o.labels && Labelled(o.code, Range(n, o.labels))
  }

  lemma {:induction false} StmtLabels(s: Stmt, t: Table, ends: seq<string>, p: Pool, n: nat)
    ensures Counts(CompileStmt(s, t, ends, p, n), n)
    decreases s, 1
  {
    hide Labelled, Range, CompileExpr;
    var o := CompileStmt(s, t, ends, p, n);
    RangeNothing(n);
    match s
    case Var(x, v, _) =>
      ExprNoLabels(v, RegisterOf(t, x), t, p);
      NoLabelsLabelled(o.code);
    case Do(e) =>
      EffectNoLabels(Some(e), t, p, n);
      NoLabelsLabelled(o.code);
    case Return(e) =>
      ExprNoLabels(e, 0, t, p);
      NoLabelsLabelled(o.code);
    case Break => NoLabelsLabelled(o.code);
    case Block(b) => BodyLabels(b, t, ends, p, n);
    case If(c, th, hasElse, el) => IfLabels(s, t, ends, p, n);
    case Loop(_, _, _, _) => LoopLabels(s, t, ends, p, n);
    case Try(_, _, _, _, _) => TryLabels(s, t, ends, p, n);
    case Define(_) => NoLabelsLabelled(o.code);
  }

  lemma RangeNothing(n: nat)
    ensures Range(n, n) == {}
  {
  }

  lemma {:induction false} BodyLabels(ss: seq<Stmt>, t: Table, ends: seq<string>, p: Pool, n: nat)
    ensures Counts(CompileBody(ss, t, ends, p, n), n)
    decreases ss, 1
  {
    hide Labelled, Range;
    var a := CompileAll(ss, t, ends, p, n);
    AllLabels(ss, t, ends, p, n);
    HoistNoLabels(ss, t);
    NoLabelsLabelled(Hoist(ss, t));
    LabelledConcat(Hoist(ss, t), {}, a.code, Range(n, a.labels));
    assert {} + Range(n, a.labels) == Range(n, a.labels);
  }

  lemma {:induction false} AllLabels(ss: seq<Stmt>, t: Table, ends: seq<string>, p: Pool, n: nat)
    ensures Counts(CompileAll(ss, t, ends, p, n), n)
    decreases ss, 0
  {
    hide Labelled, Range, CompileStmt;
    if ss == [] {
      RangeNothing(n);
      NoLabelsLabelled([]);
    } else {
      var a := CompileStmt(ss[0], t, ends, p, n);
      var b := CompileAll(ss[1..], t, ends, a.pool, a.labels);
      StmtLabels(ss[0], t, ends, p, n);
      AllLabels(ss[1..], t, ends, a.pool, a.labels);
      Join(a.code, n, a.labels, b.code, b.labels);
    }
  }

  lemma RangeSplit(n: nat, m: nat, k: nat)
    requires n <= m <= k
    ensures Range(n, m) !! Range(m, k) && Range(n, m) + Range(m, k) == Range(n, k)
  {
    forall x: nat
      ensures (x in Range(n, k) <==> n < x <= k) && (x in Range(n, m) <==> n < x <= m)
              && (x in Range(m, k) <==> m < x <= k)
    {
      InRange(n, k, x);
      InRange(n, m, x);
      InRange(m, k, x);
    }
  }

  lemma Join(a: seq<Instr>, n: nat, m: nat, b: seq<Instr>, k: nat)
    requires n <= m <= k && Labelled(a, Range(n, m)) && Labelled(b, Range(m, k))
    ensures Labelled(a + b, Range(n, k))
  {
    RangeSplit(n, m, k);
    LabelledConcat(a, Range(n, m), b, Range(m, k));
  }

  /** Label-free code around labelled code. */
  lemma Wrap(a: seq<Instr>, b: seq<Instr>, p: set<nat>, c: seq<Instr>)
    requires NoLabels(a) && NoLabels(c) && Labelled(b, p)
    ensures Labelled(a + b + c, p)
  {
    NoLabelsLabelled(a);
    NoLabelsLabelled(c);
    LabelledConcat(a, {}, b, p);
    LabelledConcat(a + b, {} + p, c, {});
    assert {} + p + {} == p;
  }

  /** Three labels or fewer, and two pieces counted after them. */
  lemma RangeAround(n: nat, low: nat, m: nat, k: nat)
    requires n <= low <= m <= k
    ensures forall x: nat :: x in Range(n, k) <==> n < x <= k
    ensures forall x: nat :: x in Range(low, m) <==> low < x <= m
    ensures forall x: nat :: x in Range(m, k) <==> m < x <= k
  {
    forall x: nat
      ensures (x in Range(n, k) <==> n < x <= k) && (x in Range(low, m) <==> low < x <= m)
              && (x in Range(m, k) <==> m < x <= k)
    {
      InRange(n, k, x);
      InRange(low, m, x);
      InRange(m, k, x);
    }
  }

  lemma JumpNoLabels(name: string)
    ensures NoLabels([Jump(name)]) && NoLabels([])
  {
  }

  lemma SingleNoLabels(i: Instr)
    requires i.op != LABEL
    ensures NoLabels([i]) && NoLabels([])
  {
  }

  lemma {:induction false} IfLabels(s: Stmt, t: Table, ends: seq<string>, p: Pool, n: nat)
    requires s.If?
    ensures Counts(CompileStmt(s, t, ends, p, n), n)
    decreases s, 0
  {
    hide Labelled, Range, CompileExpr, CompileBody, CompileStmt, Tag, NoLabels;
    IfParted(s, t, ends, p, n);
    var parts := IfParts(s, t, ends, p, n);
    var o, a, b := parts.cond, parts.thn, parts.els;
    var le, lf := Label(Tag(ELSE, n + 1)), Label(Tag(END_CONDITIONAL, n + 2));
    var test := o.code + [Instr(JMP_NOT_TRUE, Idx(o.reg), Name(Tag(ELSE, n + 1)), NULL)];
    var jump := if s.hasElse then [Jump(Tag(END_CONDITIONAL, n + 2))] else [];
    ExprNoLabels(s.cond, 0, t, p);
    BodyLabels(s.thn, t, ends, Release(|t|, o.pool, o.reg), n + 2);
    if s.hasElse {
      BodyLabels(s.els, t, ends, a.pool, a.labels);
    } else {
      RangeNothing(a.labels);
      JumpNoLabels(Tag(END_CONDITIONAL, n + 2));
      NoLabelsLabelled([]);
    }
    assert NoLabels(test) && NoLabels(jump) by {
      JumpNoLabels(Tag(END_CONDITIONAL, n + 2));
      NoLabelsAdd(o.code, JMP_NOT_TRUE);
    }
    IfLabelled(test, a.code, a.labels, jump, b.code, b.labels, n);
  }

  lemma IfLabelled(test: seq<Instr>, a: seq<Instr>, m: nat, jump: seq<Instr>, b: seq<Instr>, k: nat, n: nat)
    requires NoLabels(test) && NoLabels(jump) && n + 2 <= m <= k
    requires Labelled(a, Range(n + 2, m)) && Labelled(b, Range(m, k))
    ensures Labelled(test + a + jump + [Label(Tag(ELSE, n + 1))] + b + [Label(Tag(END_CONDITIONAL, n + 2))],
                     Range(n, k))
  {
    hide Labelled, Range, NoLabels, Tag;
    var le, lf := Label(Tag(ELSE, n + 1)), Label(Tag(END_CONDITIONAL, n + 2));
    RangeAround(n, n + 2, m, k);
    OneLabel(ELSE, n + 1);
    OneLabel(END_CONDITIONAL, n + 2);
    var ra, rb := Range(n + 2, m), Range(m, k);
    Wrap(test, a, ra, jump);
    LabelledConcat(test + a + jump, ra, [le], {n + 1});
    LabelledConcat(test + a + jump + [le], ra + {n + 1}, b, rb);
    LabelledConcat(test + a + jump + [le] + b, ra + {n + 1} + rb, [lf], {n + 2});
    assert ra + {n + 1} + rb + {n + 2} == Range(n, k);
  }

  lemma {:induction false} LoopLabels(s: Stmt, t: Table, ends: seq<string>, p: Pool, n: nat)
    requires s.Loop?
    ensures Counts(CompileStmt(s, t, ends, p, n), n)
    decreases s, 0
  {
    hide Labelled, Range, CompileEffect, CompileCondition, CompileBody, CompileStmt, Tag, NoLabels;
    LoopParted(s, t, ends, p, n);
    var parts := LoopParts(s, t, ends, p, n);
    var ls, le, lc := Label(Tag(LOOP_START, n + 1)), Label(Tag(LOOP_END, n + 2)), Label(Tag(LOOP_CONDITION, n + 3));
    var inner := ends + [Tag(LOOP_END, n + 2)];
    var i, b, m, c := parts.start, parts.body, parts.iter, parts.cond;
    var jump := Jump(Tag(LOOP_CONDITION, n + 3));
    EffectNoLabels(s.start, t, p, n + 3);
    BodyLabels(s.body, t, inner, i.pool, n + 3);
    EffectNoLabels(s.iter, t, b.pool, b.labels);
    ConditionNoLabels(s.condition, Tag(LOOP_START, n + 1), t, m.pool, m.labels);
    OneLabel(LOOP_START, n + 1);
    OneLabel(LOOP_END, n + 2);
    OneLabel(LOOP_CONDITION, n + 3);
    RangeAround(n, n + 3, b.labels, b.labels);
    var r := Range(n + 3, b.labels);
    assert NoLabels(i.code + [jump]) && NoLabels([]) by {
      JumpNoLabels(Tag(LOOP_CONDITION, n + 3));
      NoLabelsAdd(i.code, JMP);
    }
    assert i.code + [jump, ls] == (i.code + [jump]) + [ls] + [];
    Wrap(i.code + [jump], [ls], {n + 1}, []);
    LabelledConcat(i.code + [jump, ls], {n + 1}, b.code, r);
    NoLabelsLabelled(m.code);
    LabelledConcat(i.code + [jump, ls] + b.code, {n + 1} + r, m.code, {});
    LabelledConcat(i.code + [jump, ls] + b.code + m.code, {n + 1} + r + {}, [lc], {n + 3});
    NoLabelsLabelled(c.code);
    LabelledConcat(i.code + [jump, ls] + b.code + m.code + [lc], {n + 1} + r + {} + {n + 3}, c.code, {});
    LabelledConcat(i.code + [jump, ls] + b.code + m.code + [lc] + c.code, {n + 1} + r + {} + {n + 3} + {}, [le],
                   {n + 2});
    assert {n + 1} + r + {} + {n + 3} + {} + {n + 2} == Range(n, b.labels);
    assert CompileStmt(s, t, ends, p, n).code == i.code + [jump, ls] + b.code + m.code + [lc] + c.code + [le];
  }

  lemma {:induction false} TryLabels(s: Stmt, t: Table, ends: seq<string>, p: Pool, n: nat)
    requires s.Try?
    ensures Counts(CompileStmt(s, t, ends, p, n), n)
    decreases s, 0
  {
    hide Labelled, Range, CompileBody, CompileStmt, Tag, NoLabels;
    TryParted(s, t, ends, p, n);
    var parts := TryParts(s, t, ends, p, n);
    var lc, lf := Label(Tag(CATCH, n + 1)), Label(Tag(FINALLY, n + 2));
    var set0 := Instr(SET_CATCH, Name(Tag(CATCH, n + 1)), Name(Tag(FINALLY, n + 2)), NULL);
    var jump := Jump(Tag(FINALLY, n + 2));
    var pop := Instr(POP, Idx(RegisterOf(t, s.exception)), NULL, NULL);
    var clear := Instr(CLEAR_CATCH, NULL, NULL, NULL);
    var b, h, f := parts.body, parts.handler, parts.finallyBody;
    BodyLabels(s.body, t, ends, p, n + 2);
    BodyLabels(s.handler, t, ends, b.pool, b.labels);
    if s.hasFinally {
      BodyLabels(s.finallyBody, t, ends, h.pool, h.labels);
    } else {
      RangeNothing(h.labels);
      JumpNoLabels(Tag(FINALLY, n + 2));
      NoLabelsLabelled([]);
    }
    RangeAround(n, n + 2, b.labels, h.labels);
    RangeAround(n, n + 2, h.labels, f.labels);
    OneLabel(CATCH, n + 1);
    OneLabel(FINALLY, n + 2);
    var rb, rh, rf := Range(n + 2, b.labels), Range(b.labels, h.labels), Range(h.labels, f.labels);
    assert NoLabels([set0]) && NoLabels([pop]) && NoLabels([clear]) && NoLabels([]) by {
      SingleNoLabels(set0);
      SingleNoLabels(pop);
      SingleNoLabels(clear);
    }
    JumpNoLabels(Tag(FINALLY, n + 2));
    Wrap([set0], b.code, rb, [jump]);
    var x1 := [set0] + b.code + [jump];
    LabelledConcat(x1, rb, [lc], {n + 1});
    Wrap([pop], h.code, rh, []);
    assert [pop] + h.code + [] == [pop] + h.code;
    LabelledConcat(x1 + [lc], rb + {n + 1}, [pop] + h.code, rh);
    LabelledConcat(x1 + [lc] + ([pop] + h.code), rb + {n + 1} + rh, [lf], {n + 2});
    LabelledConcat(x1 + [lc] + ([pop] + h.code) + [lf], rb + {n + 1} + rh + {n + 2}, f.code, rf);
    NoLabelsLabelled([clear]);
    LabelledConcat(x1 + [lc] + ([pop] + h.code) + [lf] + f.code, rb + {n + 1} + rh + {n + 2} + rf, [clear], {});
    assert rb + {n + 1} + rh + {n + 2} + rf + {} == Range(n, f.labels);
    assert CompileStmt(s, t, ends, p, n).code == x1 + [lc] + ([pop] + h.code) + [lf] + f.code + [clear];
  }

  /** A function's own labels are its name, its end label, and generated ones: all distinct. */
  lemma FunctionLabels(f: Function, n: nat)
    requires f.name == [] || f.name[0] != '.'
    ensures UniqueLabels(FunctionCode(f, n).code)
  {
    hide Range, CompileBody;
    var ts := FunctionTables(f);
    var b := CompileBody(f.body, ts.symbols, [], [], n);
    BodyLabels(f.body, ts.symbols, [], [], n);
    var c := FunctionCode(f, n).code;
    var last := |c| - 1;
    forall i, j | 0 <= i < j < |c| && c[i].op == LABEL && c[j].op == LABEL
      ensures c[i].r0 != c[j].r0
    {
      assert forall k :: 3 <= k < 3 + |b.code| ==> c[k] == b.code[k - 3];
      if 3 <= i && j < last {
        assert b.code[i - 3].r0 != b.code[j - 3].r0;
      } else if 3 <= i {
        GeneratedDotted(b.code[i - 3].r0, Range(n, b.labels));
      } else if j < last {
        GeneratedDotted(b.code[j - 3].r0, Range(n, b.labels));
      } else {
        assert |"end" + f.name| != |f.name|;
      }
    }
  }
}
