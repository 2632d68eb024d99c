/** What the code of calls, throws, and names of outer scopes asks of the world outside the
    activation, and what it makes of the answers (src/compiler/ExprssionCompiler.cpp:46-121, 171-193). */
module Outside {
  import opened Options
  import opened Bytecode
  import opened Machine
  import opened Registers
  import opened Source
  import opened Symbols
  import opened Codegen
  import opened ExprProof
  import opened StmtProof
  import opened FunctionProof
  import opened ArgumentCode
  import opened Temporaries

  /** The environment has seen instruction i with these operands. Unless it refused, the variables
      are as it left them, but for register reg, which holds its result; 0 for none. */
  ghost predicate Asked(env: Env, n: nat, i: Instr, operands: seq<real>, reg: nat, d: Data, f: Effect) {
    var seen := Ran(i, operands, Vars(d.regs, n));
    && f.d.catches == d.catches && f.d.trace == d.trace + [seen]
    && match env(d.trace, seen)
       case Refuse => f.Raise? && f.fault == Foreign
       case Continue(vs, result) =>
         && f.Fall? && (reg != 0 ==> Get(f.d.regs, Idx(reg)) == result)
         && forall q: nat :: (reg == 0 || q != reg) ==>
              Get(f.d.regs, Idx(q)) == if q <= n && q < |vs| then vs[q] else Get(d.regs, Idx(q))
  }

  lemma External(env: Env, n: nat, i: Instr, reg: nat, d: Data)
    requires IsExternal(i.op) && Dests(i) == (if reg == 0 then [] else [Idx(reg)])
    ensures Asked(env, n, i, ArgValues(i, d), reg, d, Exec(env, n, i, d))
  {
    hide ArgValues, Vars, IsExternal;
    NotInternal(i.op);
    assert Exec(env, n, i, d) == React(env, n, i, d);
    var seen := Ran(i, ArgValues(i, d), Vars(d.regs, n));
    if env(d.trace, seen).Continue? {
      var vs := env(d.trace, seen).vars;
      forall q: nat
        ensures Get(SetVars(d.regs, n, vs), Idx(q)) == if q <= n && q < |vs| then vs[q] else Get(d.regs, Idx(q))
      {
      }
    }
  }

  lemma NotInternal(op: nat)
    requires IsExternal(op)
    ensures op != MOV_NUMBER && op != MOV && op != INC && op != DEC && !IsArithmetic(op) && !IsCompare(op)
    ensures !IsJump(op) && op != RETURN && op != THROW_EXCEPTION && op != SET_CATCH && op != CLEAR_CATCH
  {
  }

  // ----- calls -----

  /** What a call of pure arguments and a pure callee comes to: from a state mid in which the
      arguments' values are pushed and the variables are as PassAll leaves them, the callee's value
      is called with their number, and the answer is left in the call's register; or an argument or
      the callee raises. */
  ghost predicate Calls(env: Env, c: Expr, args: seq<Expr>, t: Table, reg: nat, r: Passing, d: Data, mid: Data,
                        call: Instr, f: Effect)
    requires Pure(c) && (r.Passed? ==> Scoped(c, r.st.Keys))
  {
    match r
    case Stopped(v) => if v.Fails? then f.Raise? && f.fault == DivideByZero else f.Escape?
    case Passed(values, st) =>
      match Eval(c, st)
      case Fails => f.Raise? && f.fault == DivideByZero
      case Escapes => f.Escape?
      case Is(v) =>
        && Pushes(mid.trace, d.trace, values) && Represents(t, st, mid.regs) && mid.catches == d.catches
        && call.op == CALL && call.r2 == Idx(|args|)
        && Asked(env, |t|, call, [v], reg, mid, f)
  }

  lemma CallAsks(env: Env, c: Expr, args: seq<Expr>, dest: nat, t: Table, p: Pool, st: Store, d: Data)
      returns (mid: Data, call: Instr)
    requires PushesQuietly(env) && AllPure(args, t.Keys) && Pure(c) && Scoped(c, t.Keys) && Numbering(t)
    requires Represents(t, st, d.regs)
    ensures AllPure(args, st.Keys) && (PassAll(args, None, st).Passed? ==> Scoped(c, PassAll(args, None, st).st.Keys))
    ensures var o := CompileExpr(MethodCall(c, args), dest, t, p);
            Calls(env, c, args, t, o.reg, PassAll(args, None, st), d, mid, call, RunLine(env, |t|, o.code, d))
  {
    hide CompileExpr, CompileArguments, RunLine, Exec, Eval, PassAll, Represents, Free, Release, Asked;
    var n, begin := |t|, BeginCall(dest, t, p);
    var a := CompileArguments(args, t, begin);
    var q := Release(n, a.pool, a.next);
    var o := CompileExpr(c, 0, t, q);
    call := Instr(CALL, Idx(o.reg), Idx(a.result), Idx(|args|));
    CallParted(c, args, dest, t, p);
    BeginAsks(dest, t, p);
    SameNames(t, st, d);
    ArgumentsPass(env, args, None, t, begin, st, d);
    RunLineConcat(env, n, a.code + o.code, [call], d);
    RunLineConcat(env, n, a.code, o.code, d);
    var f1 := RunLine(env, n, a.code, d);
    var r := PassAll(args, None, st);
    mid := d;
    if f1.Fall? {
      SameNames(t, r.st, f1.d);
      ZeroTaken(n, q);
      ExprComputes(env, c, 0, t, q, r.st, f1.d);
      var f2 := RunLine(env, n, o.code, f1.d);
      mid := f2.d;
      if f2.Fall? {
        assert Represents(t, r.st, mid.regs) by {
          StillRepresents(t, r.st, q, 0, f1.d.regs, mid.regs);
        }
        RunLineOne(env, n, call, mid);
        assert ArgValues(call, mid) == [Get(mid.regs, Idx(o.reg))];
        ResultKept(args, t, begin);
        External(env, n, call, a.result, mid);
      }
    }
  }

  // ----- exceptions -----

  /** What is thrown is the value of the expression. */
  lemma ThrowRaises(env: Env, v: Expr, dest: nat, t: Table, p: Pool, st: Store, d: Data)
    requires Pure(v) && Scoped(v, t.Keys) && Numbering(t) && Represents(t, st, d.regs)
    ensures Scoped(v, st.Keys)
    ensures var f := RunLine(env, |t|, CompileExpr(ThrowPrefix(v), dest, t, p).code, d);
            && f.d.catches == d.catches && f.d.trace == d.trace && Represents(t, st, f.d.regs)
            && match Eval(v, st)
               case Is(x) => f.Raise? && f.fault == Thrown(x)
               case Fails => f.Raise? && f.fault == DivideByZero
               case Escapes => f.Escape?
  {
    hide CompileExpr, RunLine, Eval, Represents, Free;
    var n, o := |t|, CompileExpr(v, 0, t, p);
    var raise := Instr(THROW_EXCEPTION, Idx(o.reg), NULL, NULL);
    ThrowParted(v, dest, t, p);
    SameNames(t, st, d);
    ZeroTaken(n, p);
    ExprComputes(env, v, 0, t, p, st, d);
    RunLineConcat(env, n, o.code, [raise], d);
    var f := RunLine(env, n, o.code, d);
    StillRepresents(t, st, p, 0, d.regs, f.d.regs);
    RunLineOne(env, n, raise, f.d);
  }

  // ----- names of outer scopes -----

  lemma OuterName(x: string, t: Table)
    requires Numbering(t)
    ensures RegisterOf(t, x) == 0 <==> x !in t
  {
  }

  /** A name that is no symbol of the function is asked for on this, and its value is the answer. */
  lemma NameAsked(env: Env, x: string, dest: nat, t: Table, p: Pool, d: Data) returns (i: Instr)
    requires Numbering(t) && x !in t
    ensures i.op == GET_FIELD_IMMEDIATE && i.r1 == Name(x)
    ensures var o := CompileExpr(Ident(x), dest, t, p);
            Asked(env, |t|, i, [Get(d.regs, Idx(1))], o.reg, d, RunLine(env, |t|, o.code, d))
  {
    hide RunLine, Exec, Asked;
    var o := CompileExpr(Ident(x), dest, t, p);
    ExprCases(Ident(x), dest, t, p);
    OuterName(x, t);
    i := Instr(GET_FIELD_IMMEDIATE, Idx(1), Name(x), Idx(o.reg));
    assert o.code == [i] && o.reg != 0;
    RunLineOne(env, |t|, i, d);
    assert ArgValues(i, d) == [Get(d.regs, Idx(1))];
    External(env, |t|, i, o.reg, d);
  }

  /** Loading a text changes no variable. */
  ghost predicate TextsLoad(env: Env, text: Word -> real) {
    forall trace, i: Instr, args, vars ::
      i.op == MOV_STR ==> env(trace, Ran(i, args, vars)) == Continue(vars, text(i.r1))
  }

  lemma TextLoads(env: Env, text: Word -> real, n: nat, r: nat, w: Word, d: Data)
    requires TextsLoad(env, text) && r > n
    ensures var f := Exec(env, n, Instr(MOV_STR, Idx(r), w, NULL), d);
            && f.Fall? && f.d.catches == d.catches && Get(f.d.regs, Idx(r)) == text(w)
            && |f.d.trace| == |d.trace| + 1 && f.d.trace[..|d.trace|] == d.trace
            && forall q: nat :: q != r ==> Get(f.d.regs, Idx(q)) == Get(d.regs, Idx(q))
  {
    hide Exec, Vars;
    var i := Instr(MOV_STR, Idx(r), w, NULL);
    assert ArgValues(i, d) == [];
    External(env, n, i, r, d);
    OwnVars(d.regs, n);
    VarsAt(d.regs, n);
  }

  lemma VarsAt(regs: Regs, n: nat)
    ensures |Vars(regs, n)| == n + 1 && forall q: nat :: q <= n ==> Vars(regs, n)[q] == Get(regs, Idx(q))
  {
  }

  /** An assignment to such a name sets the field of this with that name to the value. */
  lemma NameSet(env: Env, text: Word -> real, x: string, v: Expr, dest: nat, t: Table, p: Pool, st: Store, d: Data)
      returns (mid: Data, i: Instr)
    requires TextsLoad(env, text) && Pure(v) && Scoped(v, t.Keys) && Numbering(t) && x !in t
    requires Represents(t, st, d.regs) && t != map[]
    ensures Scoped(v, st.Keys)
    ensures var f := RunLine(env, |t|, CompileExpr(Assign(x, v), dest, t, p).code, d);
            match Eval(v, st)
            case Is(y) =>
              && Represents(t, st, mid.regs) && Get(mid.regs, Idx(1)) == Get(d.regs, Idx(1))
              && mid.catches == d.catches && i.op == SET_FIELD
              && Asked(env, |t|, i, [Get(d.regs, Idx(1)), text(Name(x)), y], 0, mid, f)
            case Fails => f.Raise? && f.fault == DivideByZero
            case Escapes => f.Escape?
  {
    hide CompileExpr, RunLine, Exec, Eval, Free, Asked, Taken, Take;
    var n, name := |t|, Taken(|t|, p);
    var vo := CompileExpr(v, 0, t, Take(p));
    var load := Instr(MOV_STR, Idx(name), Name(x), NULL);
    i := Instr(SET_FIELD, Idx(1), Idx(name), Idx(vo.reg));
    AssignParted(x, v, dest, t, p);
    OuterName(x, t);
    SameNames(t, st, d);
    NameTaken(n, p);
    RunLineConcat(env, n, [load] + vo.code, [i], d);
    RunLineConcat(env, n, [load], vo.code, d);
    RunLineOne(env, n, load, d);
    TextLoads(env, text, n, name, Name(x), d);
    var f1 := Exec(env, n, load, d);
    assert Represents(t, st, f1.d.regs);
    ExprComputes(env, v, 0, t, Take(p), st, f1.d);
    var f2 := RunLine(env, n, vo.code, f1.d);
    mid := f2.d;
    if f2.Fall? {
      StillRepresents(t, st, Take(p), 0, f1.d.regs, mid.regs);
      VariableTaken(n, Take(p), 0);
      RunLineOne(env, n, i, mid);
      assert Get(mid.regs, Idx(name)) == text(Name(x));
      assert Get(mid.regs, Idx(1)) == Get(d.regs, Idx(1)) by {
        VariableTaken(n, Take(p), 1);
      }
      assert ArgValues(i, mid) == [Get(mid.regs, Idx(1)), Get(mid.regs, Idx(name)), Get(mid.regs, Idx(vo.reg))];
      External(env, n, i, 0, mid);
    }
  }

  lemma NameTaken(n: nat, p: Pool)
    ensures Taken(n, p) > n && !Free(n, Take(p), Taken(n, p)) && !Free(n, Take(p), 0)
  {
    TakeFrees(n, p, Taken(n, p));
  }

  /** What `x++` on such a name comes to: the field is asked for; the result's register holds the
      answer when the field is set to one more, or less. */
  ghost predicate Steps(env: Env, text: Word -> real, x: string, up: bool, n: nat, reg: nat, d: Data, ask: Instr,
                        mid: Data, i: Instr, f: Effect) {
    var seen := Ran(ask, [Get(d.regs, Idx(1))], Vars(d.regs, n));
    && ask.op == GET_FIELD_IMMEDIATE && ask.r1 == Name(x) && i.op == SET_FIELD
    && match env(d.trace, seen)
       case Refuse => f.Raise? && f.fault == Foreign && f.d.trace == d.trace + [seen]
       case Continue(_, was) =>
         && |mid.trace| == |d.trace| + 2 && mid.trace[..|d.trace| + 1] == d.trace + [seen]
         && mid.catches == d.catches && Get(mid.regs, Idx(reg)) == was
         && Asked(env, n, i, [Get(mid.regs, Idx(1)), text(Name(x)), if up then was + 1.0 else was - 1.0], 0, mid, f)
  }

  lemma PostfixSets(env: Env, text: Word -> real, x: string, up: bool, dest: nat, t: Table, p: Pool, d: Data)
      returns (ask: Instr, mid: Data, i: Instr)
    requires TextsLoad(env, text) && Numbering(t) && x !in t && !Free(|t|, p, dest)
    ensures var o := CompileExpr(Postfix(x, up), dest, t, p);
            Steps(env, text, x, up, |t|, o.reg, d, ask, mid, i, RunLine(env, |t|, o.code, d))
  {
    hide CompileExpr, CompileIdent, RunLine, Exec, Free, Taken, Take, Vars;
    var n, xo := |t|, CompileIdent(x, 0, t, p);
    var res, pool := Target(n, dest, xo.pool), TargetPool(dest, xo.pool);
    var name := Taken(n, pool);
    var copy := Instr(MOV, Idx(res), Idx(xo.reg), NULL);
    var step := Instr(if up then INC else DEC, Idx(xo.reg), Idx(xo.reg), NULL);
    var load := Instr(MOV_STR, Idx(name), Name(x), NULL);
    i := Instr(SET_FIELD, Idx(1), Idx(name), Idx(xo.reg));
    PostfixParted(x, up, dest, t, p);
    OuterName(x, t);
    ExprCases(Ident(x), 0, t, p);
    ask := NameAsked(env, x, 0, t, p, d);
    OwnRegisters(dest, t, p, x);
    assert xo.code + [copy, step] + [load, i] == xo.code + ([copy] + ([step] + ([load] + [i])));
    RunLineConcat(env, n, xo.code, [copy] + ([step] + ([load] + [i])), d);
    var f := RunLine(env, n, xo.code, d);
    mid := d;
    if f.Fall? {
      mid := Chain(env, text, n, res, xo.reg, name, up, x, f.d);
      assert mid.trace[..|d.trace| + 1] == f.d.trace;
    }
  }

  lemma OwnRegisters(dest: nat, t: Table, p: Pool, x: string)
    requires Numbering(t) && x !in t && !Free(|t|, p, dest)
    ensures var n, xo := |t|, CompileIdent(x, 0, t, p);
            var res, name := Target(n, dest, xo.pool), Taken(n, TargetPool(dest, xo.pool));
            && xo.reg > n && name > n && xo.reg != res && xo.reg != name && res != name
            && res == CompileExpr(Postfix(x, true), dest, t, p).reg == CompileExpr(Postfix(x, false), dest, t, p).reg
  {
    hide Free, Take, Taken, CompileExpr, Release;
    var pool := Take(p);
    OuterName(x, t);
    PostfixParted(x, true, dest, t, p);
    PostfixParted(x, false, dest, t, p);
    TakeUses(|t|, p);
    TakeUses(|t|, pool);
    TakeUses(|t|, Take(pool));
  }

  lemma Copied(env: Env, n: nat, to: nat, from: nat, d: Data)
    ensures var f := Exec(env, n, Instr(MOV, Idx(to), Idx(from), NULL), d);
            f == Fall(d.(regs := d.regs[to := Get(d.regs, Idx(from))]))
  {
  }

  lemma Stepped(env: Env, n: nat, r: nat, up: bool, d: Data)
    ensures var f := Exec(env, n, Instr(if up then INC else DEC, Idx(r), Idx(r), NULL), d);
            f == Fall(d.(regs := d.regs[r := Get(d.regs, Idx(r)) + if up then 1.0 else -1.0]))
  {
  }

  lemma SetFieldArgs(name: nat, reg: nat, d: Data)
    ensures ArgValues(Instr(SET_FIELD, Idx(1), Idx(name), Idx(reg)), d)
            == [Get(d.regs, Idx(1)), Get(d.regs, Idx(name)), Get(d.regs, Idx(reg))]
  {
  }

  /** The value is copied, stepped, and set. */
  lemma Chain(env: Env, text: Word -> real, n: nat, res: nat, reg: nat, name: nat, up: bool, x: string, d: Data)
      returns (mid: Data)
    requires TextsLoad(env, text) && reg > n && name > n && reg != res && reg != name && res != name
    ensures var was := Get(d.regs, Idx(reg));
            var i := Instr(SET_FIELD, Idx(1), Idx(name), Idx(reg));
            var line := [Instr(MOV, Idx(res), Idx(reg), NULL)]
                        + ([Instr(if up then INC else DEC, Idx(reg), Idx(reg), NULL)]
                           + ([Instr(MOV_STR, Idx(name), Name(x), NULL)] + [i]));
            && |mid.trace| == |d.trace| + 1 && mid.trace[..|d.trace|] == d.trace && mid.catches == d.catches
            && Get(mid.regs, Idx(res)) == was
            && Asked(env, n, i, [Get(mid.regs, Idx(1)), text(Name(x)), if up then was + 1.0 else was - 1.0], 0, mid,
                     RunLine(env, n, line, d))
  {
    hide RunLine, Asked, Exec, ArgValues, TextsLoad;
    var copy := Instr(MOV, Idx(res), Idx(reg), NULL);
    var step := Instr(if up then INC else DEC, Idx(reg), Idx(reg), NULL);
    var load := Instr(MOV_STR, Idx(name), Name(x), NULL);
    var i := Instr(SET_FIELD, Idx(1), Idx(name), Idx(reg));
    RunLineConcat(env, n, [copy], [step] + ([load] + [i]), d);
    RunLineOne(env, n, copy, d);
    Copied(env, n, res, reg, d);
    var d1 := Exec(env, n, copy, d).d;
    RunLineConcat(env, n, [step], [load] + [i], d1);
    RunLineOne(env, n, step, d1);
    Stepped(env, n, reg, up, d1);
    var d2 := Exec(env, n, step, d1).d;
    RunLineConcat(env, n, [load], [i], d2);
    RunLineOne(env, n, load, d2);
    TextLoads(env, text, n, name, Name(x), d2);
    mid := Exec(env, n, load, d2).d;
    RunLineOne(env, n, i, mid);
    SetFieldArgs(name, reg, mid);
    External(env, n, i, 0, mid);
  }

  // ----- calls of such names -----

  /** The function is asked for when the arguments are pushed, and what the answer is, is called. */
  ghost predicate CallsByName(env: Env, x: string, args: seq<Expr>, t: Table, reg: nat, r: Passing, d: Data, mid: Data,
                              ask: Instr, next: Data, call: Instr, f: Effect) {
    match r
    case Stopped(v) => if v.Fails? then f.Raise? && f.fault == DivideByZero else f.Escape?
    case Passed(values, st) =>
      var seen := Ran(ask, [Get(mid.regs, Idx(1))], Vars(mid.regs, |t|));
      && Pushes(mid.trace, d.trace, values) && Represents(t, st, mid.regs) && mid.catches == d.catches
      && ask.op == GET_FIELD_IMMEDIATE && ask.r1 == Name(x) && call.op == CALL && call.r2 == Idx(|args|)
      && match env(mid.trace, seen)
         case Refuse => f.Raise? && f.fault == Foreign && f.d.trace == mid.trace + [seen]
         case Continue(_, callee) =>
           && next.trace == mid.trace + [seen] && next.catches == d.catches
           && Asked(env, |t|, call, [callee], reg, next, f)
  }

  lemma NameCalled(env: Env, x: string, args: seq<Expr>, dest: nat, t: Table, p: Pool, st: Store, d: Data)
      returns (mid: Data, ask: Instr, next: Data, call: Instr)
    requires PushesQuietly(env) && AllPure(args, t.Keys) && x !in t && Numbering(t) && Represents(t, st, d.regs)
    ensures AllPure(args, st.Keys)
    ensures var o := CompileExpr(MethodCall(Ident(x), args), dest, t, p);
            CallsByName(env, x, args, t, o.reg, PassAll(args, None, st), d, mid, ask, next, call,
                        RunLine(env, |t|, o.code, d))
  {
    hide CompileExpr, CompileArguments, RunLine, Exec, PassAll, Represents, Release, Vars;
    var n, begin := |t|, BeginCall(dest, t, p);
    var a := CompileArguments(args, t, begin);
    var q := Release(n, a.pool, a.next);
    var o := CompileExpr(Ident(x), 0, t, q);
    call := Instr(CALL, Idx(o.reg), Idx(a.result), Idx(|args|));
    CallParted(Ident(x), args, dest, t, p);
    BeginAsks(dest, t, p);
    SameNames(t, st, d);
    ArgumentsPass(env, args, None, t, begin, st, d);
    RunLineConcat(env, n, a.code + o.code, [call], d);
    RunLineConcat(env, n, a.code, o.code, d);
    var f1 := RunLine(env, n, a.code, d);
    mid, next, ask := f1.d, f1.d, call;
    if f1.Fall? {
      ask := NameAsked(env, x, 0, t, q, mid);
      var f2 := RunLine(env, n, o.code, mid);
      next := f2.d;
      if f2.Fall? {
        ExprCases(Ident(x), 0, t, q);
        OuterName(x, t);
        RunLineOne(env, n, call, next);
        assert ArgValues(call, next) == [Get(next.regs, Idx(o.reg))];
        ResultKept(args, t, begin);
        External(env, n, call, a.result, next);
      }
    }
  }
}
