/** The temporary registers of expressions of every kind, calls nested in any way included
    (src/compiler/ExprssionCompiler.cpp): a register in use is never written, given back or handed
    out again; but some registers taken are not given back, and which is decided here. */
module Temporaries {
  import opened Options
  import opened Bytecode
  import opened Machine
  import opened Registers
  import opened Source
  import opened Symbols
  import opened Codegen
  import opened ExprProof
  import opened ArgumentCode

  // ----- registers in use are left alone -----

  /** A variable, the destination, or a register that was free. */
  predicate May(n: nat, p: Pool, dest: nat, r: nat) { r <= n || r == dest || Free(n, p, r) }

  ghost predicate Narrows(n: nat, p: Pool, q: Pool) { forall r: nat :: Free(n, q, r) ==> Free(n, p, r) }

  predicate MayWrite(n: nat, p: Pool, dest: nat, i: Instr) {
    forall w :: w in Dests(i) && w.Idx? ==> May(n, p, dest, w.n)
  }

  /** Code that writes nothing in use, and the pool after it. */
  ghost predicate Careful(n: nat, p: Pool, dest: nat, c: seq<Instr>, q: Pool) {
    Narrows(n, p, q) && forall i :: i in c ==> MayWrite(n, p, dest, i)
  }

  lemma TakeNarrows(n: nat, p: Pool, q: Pool, dest: nat)
    requires Narrows(n, p, q)
    ensures Narrows(n, p, Take(q)) && Narrows(n, p, TargetPool(dest, q))
    ensures May(n, p, 0, Taken(n, q)) && May(n, p, dest, Target(n, dest, q))
  {
    forall r: nat
      ensures Free(n, Take(q), r) ==> Free(n, p, r)
    {
      TakeFrees(n, q, r);
    }
    TakeFrees(n, q, 0);
  }

  lemma ReleaseNarrows(n: nat, p: Pool, q: Pool, r: nat)
    requires Narrows(n, p, q) && May(n, p, 0, r)
    ensures Narrows(n, p, Release(n, q, r))
  {
    forall x: nat
      ensures Free(n, Release(n, q, r), x) ==> Free(n, p, x)
    {
      ReleaseFrees(n, q, r, x);
    }
  }

  lemma MayMore(n: nat, p: Pool, q: Pool, d: nat, dest: nat, r: nat)
    requires Narrows(n, p, q) && May(n, p, dest, d) && May(n, q, d, r)
    ensures May(n, p, dest, r)
  {
  }

  /** A part compiled with the pool its predecessors left. */
  lemma Then(n: nat, p: Pool, dest: nat, c: seq<Instr>, q: Pool, d: nat, part: seq<Instr>, after: Pool)
    requires Careful(n, p, dest, c, q) && Careful(n, q, d, part, after) && May(n, p, dest, d)
    ensures Careful(n, p, dest, c + part, after)
  {
    hide Free;
    forall i | i in part
      ensures MayWrite(n, p, dest, i)
    {
      assert MayWrite(n, q, d, i);
    }
  }

  lemma ThenOne(n: nat, p: Pool, dest: nat, c: seq<Instr>, q: Pool, i: Instr, after: Pool)
    requires Careful(n, p, dest, c, q) && Narrows(n, p, after) && MayWrite(n, p, dest, i)
    ensures Careful(n, p, dest, c + [i], after)
  {
  }

  /** The next part, with its result register. */
  lemma ThenExpr(n: nat, p: Pool, dest: nat, c: seq<Instr>, q: Pool, d: nat, o: Out)
    requires Careful(n, p, dest, c, q) && Careful(n, q, d, o.code, o.pool) && May(n, q, d, o.reg) && May(n, p, dest, d)
    ensures Careful(n, p, dest, c + o.code, o.pool) && May(n, p, dest, o.reg)
    ensures May(n, p, 0, d) ==> May(n, p, 0, o.reg)
  {
    hide Free;
    Then(n, p, dest, c, q, d, o.code, o.pool);
  }

  lemma NothingCareful(n: nat, p: Pool, dest: nat)
    ensures Careful(n, p, dest, [], p)
  {
  }

  /** For every expression, pool and destination: the code writes variables, the destination and
      registers that were free, the result is in one of these, and no register in use becomes
      free. */
  lemma {:induction false} ExprCareful(e: Expr, dest: nat, t: Table, p: Pool)
    requires Numbering(t)
    ensures var o := CompileExpr(e, dest, t, p);
            Careful(|t|, p, dest, o.code, o.pool) && May(|t|, p, dest, o.reg)
    decreases e, 0
  {
    hide CompileExpr, Free, Take, Taken, Release, Target, TargetPool, FreeBoth, MayWrite;
    var n := |t|;
    ExprCases(e, dest, t, p);
    match e
    case Number(x) => LeafCareful(dest, t, p, Instr(MOV_NUMBER, Idx(Target(n, dest, p)), Lit(x), NULL));
    case Ident(x) => IdentCareful(x, dest, t, p);
    case Binary(op, l, r) =>
      BinaryParted(op, l, r, dest, t, p);
      var lo := CompileExpr(l, 0, t, p);
      var ro := CompileExpr(r, 0, t, lo.pool);
      ExprCareful(l, 0, t, p);
      ExprCareful(r, 0, t, lo.pool);
      BinaryCareful(op, dest, t, p, lo, ro);
    case Assign(x, v) =>
      AssignParted(x, v, dest, t, p);
      if RegisterOf(t, x) == 0 {
        var vo := CompileExpr(v, 0, t, Take(p));
        ExprCareful(v, 0, t, Take(p));
        OuterCareful(x, dest, t, p, vo);
      } else {
        var vo := CompileExpr(v, t[x], t, p);
        ExprCareful(v, t[x], t, p);
        InnerCareful(x, dest, t, p, vo);
      }
    case Postfix(x, up) => PostfixCareful(x, up, dest, t, p);
    case MethodCall(c, args) =>
      CallParted(c, args, dest, t, p);
      BeginCareful(dest, t, p);
      ArgumentsCareful(args, dest, t, p, BeginCall(dest, t, p));
      var a := CompileArguments(args, t, BeginCall(dest, t, p));
      var o := CompileExpr(c, 0, t, Release(n, a.pool, a.next));
      ExprCareful(c, 0, t, Release(n, a.pool, a.next));
      CallCareful(|args|, dest, t, p, a, o);
    case ThrowPrefix(v) =>
      ThrowParted(v, dest, t, p);
      var o := CompileExpr(v, 0, t, p);
      ExprCareful(v, 0, t, p);
      ThrowCareful(dest, t, p, o);
  }

  lemma LeafCareful(dest: nat, t: Table, p: Pool, i: Instr)
    requires Dests(i) == [Idx(Target(|t|, dest, p))]
    ensures Careful(|t|, p, dest, [i], TargetPool(dest, p)) && May(|t|, p, dest, Target(|t|, dest, p))
  {
    hide Free, Take, Taken;
    TakeNarrows(|t|, p, p, dest);
  }

  /** A variable in place, or a field read into a temporary. */
  lemma IdentCareful(x: string, dest: nat, t: Table, p: Pool)
    requires Numbering(t)
    ensures var o := CompileIdent(x, dest, t, p);
            Careful(|t|, p, dest, o.code, o.pool) && May(|t|, p, dest, o.reg)
  {
    hide Free, Take, Taken, Target, TargetPool;
    if RegisterOf(t, x) == 0 {
      LeafCareful(dest, t, p, Instr(GET_FIELD_IMMEDIATE, Idx(1), Name(x), Idx(Target(|t|, dest, p))));
    }
  }

  lemma BinaryCareful(op: Op, dest: nat, t: Table, p: Pool, lo: Out, ro: Out)
    requires var n := |t|;
             && Careful(n, p, 0, lo.code, lo.pool) && May(n, p, 0, lo.reg)
             && Careful(n, lo.pool, 0, ro.code, ro.pool) && May(n, lo.pool, 0, ro.reg)
    ensures var n := |t|;
            var res := Target(n, dest, ro.pool);
            && Careful(n, p, dest, lo.code + ro.code + [Instr(Opcode(op), Idx(lo.reg), Idx(ro.reg), Idx(res))],
                       FreeBoth(n, TargetPool(dest, ro.pool), lo.reg, ro.reg, res))
            && May(n, p, dest, res)
  {
    hide Free, Take, Taken, Release, Target, TargetPool, Opcode, MayWrite;
    var n, q := |t|, TargetPool(dest, ro.pool);
    var res := Target(n, dest, ro.pool);
    var i := Instr(Opcode(op), Idx(lo.reg), Idx(ro.reg), Idx(res));
    ThenExpr(n, p, 0, lo.code, lo.pool, 0, ro);
    TakeNarrows(n, p, ro.pool, dest);
    ReleaseNarrows(n, p, q, ro.reg);
    var q1 := if ro.reg != res then Release(n, q, ro.reg) else q;
    ReleaseNarrows(n, p, q1, lo.reg);
    AnyDest(n, p, dest, lo.code + ro.code, ro.pool);
    OneWrites(n, p, dest, i, res) by {
      assert Dests(i) == [Idx(res)] by {
        OperationDest(op, i);
      }
    }
    ThenOne(n, p, dest, lo.code + ro.code, ro.pool, i, Release(n, q1, lo.reg));
  }

  lemma OperationDest(op: Op, i: Instr)
    requires i.op == Opcode(op)
    ensures Dests(i) == [i.r2]
  {
  }

  lemma OneWrites(n: nat, p: Pool, dest: nat, i: Instr, r: nat)
    requires (Dests(i) == [Idx(r)] || Dests(i) == [Idx(r), Idx(r)]) && May(n, p, dest, r)
    ensures MayWrite(n, p, dest, i)
  {
  }

  lemma AnyDest(n: nat, p: Pool, dest: nat, c: seq<Instr>, q: Pool)
    requires Careful(n, p, 0, c, q)
    ensures Careful(n, p, dest, c, q)
  {
    hide Free;
    forall i | i in c
      ensures MayWrite(n, p, dest, i)
    {
      assert MayWrite(n, p, 0, i);
    }
  }

  /** An assignment to a name of an outer scope. */
  lemma OuterCareful(x: string, dest: nat, t: Table, p: Pool, vo: Out)
    requires Careful(|t|, Take(p), 0, vo.code, vo.pool) && May(|t|, Take(p), 0, vo.reg)
    ensures var name := Taken(|t|, p);
            Careful(|t|, p, dest, [Instr(MOV_STR, Idx(name), Name(x), NULL)] + vo.code
                                  + [Instr(SET_FIELD, Idx(1), Idx(name), Idx(vo.reg))], vo.pool)
  {
    hide Free, Take, Taken;
    var n := |t|;
    var load := Instr(MOV_STR, Idx(Taken(n, p)), Name(x), NULL);
    NothingCareful(n, p, dest);
    TakeNarrows(n, p, p, dest);
    OneWrites(n, p, dest, load, Taken(n, p));
    ThenOne(n, p, dest, [], p, load, Take(p));
    assert [] + [load] == [load];
    ThenExpr(n, p, dest, [load], Take(p), 0, vo);
    ThenOne(n, p, dest, [load] + vo.code, vo.pool, Instr(SET_FIELD, Idx(1), Idx(Taken(n, p)), Idx(vo.reg)), vo.pool);
  }

  /** An assignment to a variable of the function. */
  lemma InnerCareful(x: string, dest: nat, t: Table, p: Pool, vo: Out)
    requires Numbering(t) && x in t && Careful(|t|, p, t[x], vo.code, vo.pool) && May(|t|, p, t[x], vo.reg)
    ensures var n, res := |t|, Target(|t|, dest, vo.pool);
            && Careful(n, p, dest, vo.code, FreeBoth(n, TargetPool(dest, vo.pool), t[x], vo.reg, res))
            && May(n, p, dest, res)
  {
    hide Free, Take, Taken, Release, Target, TargetPool;
    var n, res := |t|, Target(|t|, dest, vo.pool);
    var q := TargetPool(dest, vo.pool);
    NothingCareful(n, p, dest);
    ThenExpr(n, p, dest, [], p, t[x], vo);
    assert [] + vo.code == vo.code;
    TakeNarrows(n, p, vo.pool, dest);
    ReleaseNarrows(n, p, q, vo.reg);
    ReleaseNarrows(n, p, if vo.reg != res then Release(n, q, vo.reg) else q, t[x]);
  }

  lemma PostfixCareful(x: string, up: bool, dest: nat, t: Table, p: Pool)
    requires Numbering(t)
    ensures var o := CompileExpr(Postfix(x, up), dest, t, p);
            Careful(|t|, p, dest, o.code, o.pool) && May(|t|, p, dest, o.reg)
  {
    hide CompileExpr, Free, Take, Taken, Release, Target, TargetPool, CompileIdent, MayWrite;
    PostfixParted(x, up, dest, t, p);
    IdentCareful(x, 0, t, p);
    var n, xo := |t|, CompileIdent(x, 0, t, p);
    var res, pool := Target(n, dest, xo.pool), TargetPool(dest, xo.pool);
    var copy := Instr(MOV, Idx(res), Idx(xo.reg), NULL);
    var step := Instr(if up then INC else DEC, Idx(xo.reg), Idx(xo.reg), NULL);
    AnyDest(n, p, dest, xo.code, xo.pool);
    TakeNarrows(n, p, xo.pool, dest);
    OneWrites(n, p, dest, copy, res);
    ThenOne(n, p, dest, xo.code, xo.pool, copy, pool);
    OneWrites(n, p, dest, step, xo.reg);
    ThenOne(n, p, dest, xo.code + [copy], pool, step, pool);
    var code := xo.code + [copy] + [step];
    assert code == xo.code + [copy, step];
    var name := Taken(n, pool);
    TakeNarrows(n, p, pool, dest);
    ReleaseNarrows(n, p, Take(pool), name);
    var load, store := Instr(MOV_STR, Idx(name), Name(x), NULL), Instr(SET_FIELD, Idx(1), Idx(name), Idx(xo.reg));
    OneWrites(n, p, dest, load, name);
    ThenOne(n, p, dest, code, pool, load, pool);
    NoneWrites(n, p, dest, store);
    ThenOne(n, p, dest, code + [load], pool, store, Release(n, Take(pool), name));
    assert code + [load] + [store] == code + [load, store];
  }

  lemma NoneWrites(n: nat, p: Pool, dest: nat, i: Instr)
    requires Dests(i) == []
    ensures MayWrite(n, p, dest, i)
  {
  }

  /** The code of a call so far. */
  ghost predicate CallFine(n: nat, p: Pool, dest: nat, c: CallCode) {
    Careful(n, p, dest, c.code, c.pool) && May(n, p, 0, c.next) && May(n, p, dest, c.result)
  }

  lemma BeginCareful(dest: nat, t: Table, p: Pool)
    ensures CallFine(|t|, p, dest, BeginCall(dest, t, p))
  {
    hide Free, Take, Taken, Target, TargetPool;
    NothingCareful(|t|, p, dest);
    TakeNarrows(|t|, p, p, dest);
    TakeNarrows(|t|, p, TargetPool(dest, p), dest);
  }

  lemma {:induction false} ArgumentsCareful(args: seq<Expr>, dest: nat, t: Table, p: Pool, c: CallCode)
    requires Numbering(t) && CallFine(|t|, p, dest, c)
    ensures CallFine(|t|, p, dest, CompileArguments(args, t, c))
    decreases args, 1
  {
    hide CompileExpr, Free, MayWrite;
    if args != [] {
      var e := args[|args| - 1];
      var o := CompileExpr(e, c.next, t, c.pool);
      ExprCareful(e, c.next, t, c.pool);
      var push := Instr(PUSH, Idx(o.reg), NULL, NULL);
      ThenExpr(|t|, p, dest, c.code, c.pool, c.next, o);
      NoneWrites(|t|, p, dest, push);
      ThenOne(|t|, p, dest, c.code + o.code, o.pool, push, o.pool);
      ArgumentsCareful(args[..|args| - 1], dest, t, p, CallCode(c.code + o.code + [push], c.result, o.reg, o.pool));
    }
  }

  lemma CallCareful(size: nat, dest: nat, t: Table, p: Pool, a: CallCode, o: Out)
    requires CallFine(|t|, p, dest, a)
    requires var q := Release(|t|, a.pool, a.next); Careful(|t|, q, 0, o.code, o.pool) && May(|t|, q, 0, o.reg)
    ensures Careful(|t|, p, dest, a.code + o.code + [Instr(CALL, Idx(o.reg), Idx(a.result), Idx(size))],
                    Release(|t|, o.pool, o.reg))
  {
    hide Free, Release, MayWrite;
    var n, q := |t|, Release(|t|, a.pool, a.next);
    var call := Instr(CALL, Idx(o.reg), Idx(a.result), Idx(size));
    ReleaseNarrows(n, p, a.pool, a.next);
    ThenExpr(n, p, dest, a.code, q, 0, o);
    ReleaseNarrows(n, p, o.pool, o.reg);
    OneWrites(n, p, dest, call, a.result);
    ThenOne(n, p, dest, a.code + o.code, o.pool, call, Release(n, o.pool, o.reg));
  }

  lemma ThrowCareful(dest: nat, t: Table, p: Pool, o: Out)
    requires Careful(|t|, p, 0, o.code, o.pool) && May(|t|, p, 0, o.reg)
    ensures var n, res := |t|, Target(|t|, dest, o.pool);
            && Careful(n, p, dest, o.code + [Instr(THROW_EXCEPTION, Idx(o.reg), NULL, NULL)],
                       if dest == 0 then Release(n, Take(o.pool), res) else o.pool)
            && May(n, p, dest, res)
  {
    hide Free, Take, Taken, Release, MayWrite;
    var n, res := |t|, Target(|t|, dest, o.pool);
    var i := Instr(THROW_EXCEPTION, Idx(o.reg), NULL, NULL);
    TakeNarrows(n, p, o.pool, dest);
    if dest == 0 {
      ReleaseNarrows(n, p, Take(o.pool), res);
    }
    AnyDest(n, p, dest, o.code, o.pool);
    NoneWrites(n, p, dest, i);
    ThenOne(n, p, dest, o.code, o.pool, i, if dest == 0 then Release(n, Take(o.pool), res) else o.pool);
  }

  // ----- and keep their values -----

  lemma ExecWrites(env: Env, n: nat, i: Instr, d: Data, q: nat)
    requires q > n && Idx(q) !in Dests(i)
    ensures Get(Exec(env, n, i, d).d.regs, Idx(q)) == Get(d.regs, Idx(q))
  {
    hide Fmod, Vars, ArgValues, Holds;
  }

  lemma {:induction false} LineKeeps(env: Env, n: nat, p: Pool, dest: nat, c: seq<Instr>, d: Data, r: nat)
    requires (forall i :: i in c ==> MayWrite(n, p, dest, i)) && r > n && r != dest && !Free(n, p, r)
    ensures Get(RunLine(env, n, c, d).d.regs, Idx(r)) == Get(d.regs, Idx(r))
    decreases |c|
  {
    hide Exec, Free, Get;
    if c != [] {
      var e := Exec(env, n, c[0], d);
      assert MayWrite(n, p, dest, c[0]);
      ExecWrites(env, n, c[0], d, r);
      if e.Fall? {
        assert forall i :: i in c[1..] ==> i in c;
        LineKeeps(env, n, p, dest, c[1..], e.d, r);
      }
    }
  }

  /** No expression changes a temporary in use, whatever the calls in it do. */
  lemma TemporariesKept(env: Env, e: Expr, dest: nat, t: Table, p: Pool, d: Data, r: nat)
    requires Numbering(t) && r > |t| && r != dest && !Free(|t|, p, r)
    ensures Get(RunLine(env, |t|, CompileExpr(e, dest, t, p).code, d).d.regs, Idx(r)) == Get(d.regs, Idx(r))
  {
    hide CompileExpr, RunLine, MayWrite;
    ExprCareful(e, dest, t, p);
    LineKeeps(env, |t|, p, dest, CompileExpr(e, dest, t, p).code, d, r);
  }

  // ----- registers that are not given back -----

  /** Where a result is asked for or left: nowhere in particular, in a variable, or in a register
      taken for it. */
  datatype Place = Nowhere | InVariable | InTemporary

  function Left(e: Expr, asked: Place, names: set<string>): Place {
    if e.Ident? && e.name in names then InVariable
    else if e.Assign? && e.name !in names then Nowhere
    else if asked == Nowhere then InTemporary
    else asked
  }

  /** The result is in a register taken for it. */
  predicate New(e: Expr, asked: Place, names: set<string>) { asked == Nowhere && Left(e, asked, names) == InTemporary }

  /** Nothing in e throws. */
  predicate Quiet(e: Expr) {
    match e
    case Number(_) => true
    case Ident(_) => true
    case Binary(_, l, r) => Quiet(l) && Quiet(r)
    case Assign(_, v) => Quiet(v)
    case Postfix(_, _) => true
    case MethodCall(c, args) => Quiet(c) && forall a :: a in args ==> Quiet(a)
    case ThrowPrefix(_) => false
  }

  /** The registers an expression takes and does not give back, its result aside. */
  function Lost(e: Expr, asked: Place, names: set<string>): nat
    decreases e, 0
  {
    match e
    case Binary(_, l, r) => Lost(l, Nowhere, names) + Lost(r, Nowhere, names)
    case Assign(x, v) =>
      if x in names then Lost(v, InVariable, names)
      else 1 + Lost(v, Nowhere, names) + if New(v, Nowhere, names) then 1 else 0
    case Postfix(x, _) => if x in names then 0 else 1
    case MethodCall(c, args) => LostIn(args, InTemporary, names) + Lost(c, Nowhere, names)
    case _ => 0
  }

  /** A register taken for the arguments is lost when one is left elsewhere. */
  function LostIn(args: seq<Expr>, asked: Place, names: set<string>): nat
    decreases args, 1
  {
    if args == [] then 0
    else
      var e := args[|args| - 1];
      var left := Left(e, asked, names);
      Lost(e, asked, names) + (if asked == InTemporary && left != InTemporary then 1 else 0)
      + LostIn(args[..|args| - 1], left, names)
  }

  /** Register r is such a place. */
  ghost predicate IsAt(n: nat, p: Pool, r: nat, place: Place) {
    match place
    case Nowhere => r == 0
    case InVariable => 1 <= r <= n
    case InTemporary => r > n && !Free(n, p, r)
  }

  ghost predicate Loses(e: Expr, dest: nat, asked: Place, n: nat, names: set<string>, p: Pool, o: Out) {
    && Used(o.pool) == Used(p) + Lost(e, asked, names) + (if New(e, asked, names) then 1 else 0)
    && (New(e, asked, names) ==> o.reg > n && Free(n, p, o.reg) && !Free(n, o.pool, o.reg))
    && (!New(e, asked, names) ==> o.reg == dest || o.reg <= n)
    && IsAt(n, o.pool, o.reg, Left(e, asked, names))
  }

  /** After any expression in which nothing throws there are as many more registers in use as the
      expression loses, and one for its result if that is new. */
  lemma {:induction false} ExprLoses(e: Expr, dest: nat, asked: Place, t: Table, p: Pool)
    requires Numbering(t) && Quiet(e) && IsAt(|t|, p, dest, asked)
    ensures Loses(e, dest, asked, |t|, t.Keys, p, CompileExpr(e, dest, t, p))
    decreases e, 1
  {
    hide CompileExpr, Free, Take, Taken, Release, Target, TargetPool, FreeBoth, Used;
    var n, names := |t|, t.Keys;
    ExprCases(e, dest, t, p);
    match e
    case Number(x) => TargetLoses(e, dest, asked, t, p);
    case Ident(x) =>
      if x in t {
        assert CompileIdent(x, dest, t, p) == Out([], t[x], p);
      } else {
        TargetLoses(e, dest, asked, t, p);
      }
    case Binary(op, l, r) =>
      BinaryParted(op, l, r, dest, t, p);
      var lo := CompileExpr(l, 0, t, p);
      var ro := CompileExpr(r, 0, t, lo.pool);
      ExprCareful(l, 0, t, p);
      ExprCareful(r, 0, t, lo.pool);
      ExprLoses(l, 0, Nowhere, t, p);
      ExprLoses(r, 0, Nowhere, t, lo.pool);
      BinaryLoses(op, l, r, dest, asked, t, p, lo, ro);
    case Assign(x, v) => AssignLoses(x, v, dest, asked, t, p);
    case Postfix(x, up) => PostfixLoses(x, up, dest, asked, t, p);
    case MethodCall(c, args) => CallLoses(c, args, dest, asked, t, p);
  }

  lemma TakeUses(n: nat, p: Pool)
    ensures Used(Take(p)) == Used(p) + 1 && Free(n, p, Taken(n, p)) && !Free(n, Take(p), Taken(n, p)) && Taken(n, p) > n
    ensures forall r: nat :: !Free(n, p, r) ==> !Free(n, Take(p), r) && r != Taken(n, p)
  {
    TakeSize(p);
    TakeFrees(n, p, Taken(n, p));
    forall r: nat
      ensures !Free(n, p, r) ==> !Free(n, Take(p), r) && r != Taken(n, p)
    {
      TakeFrees(n, p, r);
    }
  }

  /** An expression left in its own destination, or in a new register. */
  lemma TargetLoses(e: Expr, dest: nat, asked: Place, t: Table, p: Pool)
    requires IsAt(|t|, p, dest, asked) && Left(e, asked, t.Keys) == if asked == Nowhere then InTemporary else asked
    requires Lost(e, asked, t.Keys) == 0
    ensures Loses(e, dest, asked, |t|, t.Keys, p, Out([], Target(|t|, dest, p), TargetPool(dest, p)))
  {
    hide Free, Take, Taken, Used, Lost;
    TakeUses(|t|, p);
  }

  lemma Given(n: nat, p: Pool, r: nat)
    ensures Used(Release(n, p, r)) == Used(p) - (if r > n && !Free(n, p, r) then 1 else 0)
    ensures r <= n ==> Release(n, p, r) == p
    ensures forall q: nat :: !Free(n, p, q) && q != r ==> !Free(n, Release(n, p, r), q)
  {
    ReleaseSize(n, p, r);
    forall q: nat
      ensures !Free(n, p, q) && q != r ==> !Free(n, Release(n, p, r), q)
    {
      ReleaseFrees(n, p, r, q);
    }
  }

  lemma BinaryLoses(op: Op, l: Expr, r: Expr, dest: nat, asked: Place, t: Table, p: Pool, lo: Out, ro: Out)
    requires IsAt(|t|, p, dest, asked) && Narrows(|t|, p, lo.pool) && Narrows(|t|, lo.pool, ro.pool)
    requires Loses(l, 0, Nowhere, |t|, t.Keys, p, lo) && Loses(r, 0, Nowhere, |t|, t.Keys, lo.pool, ro)
    ensures var n, res := |t|, Target(|t|, dest, ro.pool);
            Loses(Binary(op, l, r), dest, asked, n, t.Keys, p,
                  Out([], res, FreeBoth(n, TargetPool(dest, ro.pool), lo.reg, ro.reg, res)))
  {
    hide Free, Take, Taken, Release, Used;
    var n, q, res := |t|, TargetPool(dest, ro.pool), Target(|t|, dest, ro.pool);
    TakeUses(n, ro.pool);
    Given(n, q, ro.reg);
    Given(n, if ro.reg != res then Release(n, q, ro.reg) else q, lo.reg);
  }

  lemma AssignLoses(x: string, v: Expr, dest: nat, asked: Place, t: Table, p: Pool)
    requires Numbering(t) && Quiet(v) && IsAt(|t|, p, dest, asked)
    ensures Loses(Assign(x, v), dest, asked, |t|, t.Keys, p, CompileExpr(Assign(x, v), dest, t, p))
    decreases Assign(x, v), 0
  {
    hide CompileExpr, Free, Take, Taken, Release, Used;
    var n := |t|;
    AssignParted(x, v, dest, t, p);
    if x in t {
      var vo := CompileExpr(v, t[x], t, p);
      ExprLoses(v, t[x], InVariable, t, p);
      ExprCareful(v, t[x], t, p);
      TakeUses(n, vo.pool);
      Given(n, TargetPool(dest, vo.pool), vo.reg);
      Given(n, TargetPool(dest, vo.pool), t[x]);
    } else {
      TakeUses(n, p);
      ExprLoses(v, 0, Nowhere, t, Take(p));
    }
  }

  lemma PostfixLoses(x: string, up: bool, dest: nat, asked: Place, t: Table, p: Pool)
    requires Numbering(t) && IsAt(|t|, p, dest, asked)
    ensures Loses(Postfix(x, up), dest, asked, |t|, t.Keys, p, CompileExpr(Postfix(x, up), dest, t, p))
  {
    hide CompileExpr, Free, Take, Taken, Release, Used;
    var n := |t|;
    PostfixParted(x, up, dest, t, p);
    var xo := CompileIdent(x, 0, t, p);
    var pool := TargetPool(dest, xo.pool);
    TakeUses(n, p);
    TakeUses(n, xo.pool);
    TakeUses(n, pool);
    Given(n, Take(pool), Taken(n, pool));
  }

  /** Where the register for the next argument is after all of them. */
  function LeftIn(args: seq<Expr>, asked: Place, names: set<string>): Place
    decreases |args|
  {
    if args == [] then asked else LeftIn(args[..|args| - 1], Left(args[|args| - 1], asked, names), names)
  }

  function Counts(place: Place): nat { if place == InTemporary then 1 else 0 }

  /** The arguments lose what LostIn says, and leave register r in use. */
  lemma {:induction false} ArgumentsLose(args: seq<Expr>, asked: Place, t: Table, c: CallCode, r: nat)
    requires Numbering(t) && (forall a :: a in args ==> Quiet(a)) && IsAt(|t|, c.pool, c.next, asked)
    requires r > |t| ==> !Free(|t|, c.pool, r) && r != c.next
    ensures var a, left := CompileArguments(args, t, c), LeftIn(args, asked, t.Keys);
            && Used(a.pool) - Counts(left) == Used(c.pool) - Counts(asked) + LostIn(args, asked, t.Keys)
            && IsAt(|t|, a.pool, a.next, left)
            && (r > |t| ==> !Free(|t|, a.pool, r) && r != a.next)
    decreases args, 1
  {
    hide CompileExpr, Free, Used, Lost;
    if args != [] {
      var e, rest := args[|args| - 1], args[..|args| - 1];
      var o := CompileExpr(e, c.next, t, c.pool);
      assert e in args && forall a :: a in rest ==> a in args;
      ExprLoses(e, c.next, asked, t, c.pool);
      ExprCareful(e, c.next, t, c.pool);
      ArgumentsLose(rest, Left(e, asked, t.Keys), t, NextCode(e, t, c), r);
      ArgumentsUnfold(args, t, c);
    }
  }

  lemma CallLoses(c: Expr, args: seq<Expr>, dest: nat, asked: Place, t: Table, p: Pool)
    requires Numbering(t) && Quiet(MethodCall(c, args)) && IsAt(|t|, p, dest, asked)
    ensures Loses(MethodCall(c, args), dest, asked, |t|, t.Keys, p, CompileExpr(MethodCall(c, args), dest, t, p))
    decreases MethodCall(c, args), 0
  {
    hide CompileExpr, CompileArguments, Free, Take, Taken, Release, Used;
    var n, begin := |t|, BeginCall(dest, t, p);
    var pool := TargetPool(dest, p);
    CallParted(c, args, dest, t, p);
    TakeUses(n, p);
    TakeUses(n, pool);
    ArgumentsLose(args, InTemporary, t, begin, begin.result);
    var a := CompileArguments(args, t, begin);
    ResultKept(args, t, begin);
    var q := Release(n, a.pool, a.next);
    Given(n, a.pool, a.next);
    ExprLoses(c, 0, Nowhere, t, q);
    ExprCareful(c, 0, t, q);
    var o := CompileExpr(c, 0, t, q);
    Given(n, o.pool, o.reg);
  }

  /** A statement that is an expression loses what the expression loses. */
  lemma EffectLoses(e: Expr, t: Table, p: Pool, k: nat)
    requires Numbering(t) && Quiet(e)
    ensures Used(CompileEffect(Some(e), t, p, k).pool) == Used(p) + Lost(e, Nowhere, t.Keys)
  {
    hide CompileExpr, Free, Release, Used, Lost;
    var o := CompileExpr(e, 0, t, p);
    ExprLoses(e, 0, Nowhere, t, p);
    Given(|t|, o.pool, o.reg);
  }

  // ----- which calls lose a register -----

  lemma {:induction false} PureLosesNothing(e: Expr, asked: Place, names: set<string>)
    requires Pure(e)
    ensures Lost(e, asked, names) == 0 && Quiet(e)
  {
    if e.Binary? {
      PureLosesNothing(e.left, Nowhere, names);
      PureLosesNothing(e.right, Nowhere, names);
    }
  }

  lemma {:induction false} PureArguments(args: seq<Expr>, asked: Place, names: set<string>)
    requires (forall a :: a in args ==> Pure(a)) && asked != Nowhere
    ensures LostIn(args, asked, names)
            == if asked == InTemporary && exists a :: a in args && a.Ident? && a.name in names then 1 else 0
    decreases |args|
  {
    if args != [] {
      var e, rest := args[|args| - 1], args[..|args| - 1];
      assert args == rest + [e];
      PureLosesNothing(e, asked, names);
      PureArguments(rest, Left(e, asked, names), names);
    }
  }

  /** A call of pure arguments loses a register, one, if and only if an argument is a bare variable
      of the function. */
  lemma CallLosesOne(c: Expr, args: seq<Expr>, t: Table, p: Pool, k: nat)
    requires Numbering(t) && Pure(c) && forall a :: a in args ==> Pure(a)
    ensures Used(CompileEffect(Some(MethodCall(c, args)), t, p, k).pool)
            == Used(p) + if exists a :: a in args && a.Ident? && a.name in t then 1 else 0
  {
    forall a | a in args
      ensures Quiet(a)
    {
      PureLosesNothing(a, Nowhere, t.Keys);
    }
    PureLosesNothing(c, Nowhere, t.Keys);
    PureArguments(args, InTemporary, t.Keys);
    EffectLoses(MethodCall(c, args), t, p, k);
  }

  /** So k statements `f(x);` make a frame with k registers more. */
  lemma {:induction false} CallsGrow(ss: seq<Stmt>, f: string, x: string, t: Table, ends: seq<string>, p: Pool, k: nat)
    requires Numbering(t) && x in t && forall i :: 0 <= i < |ss| ==> ss[i] == Do(MethodCall(Ident(f), [Ident(x)]))
    ensures Used(CompileAll(ss, t, ends, p, k).pool) == Used(p) + |ss|
    ensures |CompileAll(ss, t, ends, p, k).pool| >= Used(p) + |ss|
    decreases |ss|
  {
    hide CompileExpr, Used;
    UsedBounds(CompileAll(ss, t, ends, p, k).pool);
    if ss != [] {
      var a := CompileStmt(ss[0], t, ends, p, k);
      assert Ident(x) in [Ident(x)];
      CallLosesOne(Ident(f), [Ident(x)], t, p, k);
      CallsGrow(ss[1..], f, x, t, ends, a.pool, a.labels);
    }
  }
}
