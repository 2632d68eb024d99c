/** What the compiler emits (src/compiler/ExprssionCompiler.cpp, src/compiler/Compiler.cpp),
    as functions of the tree, the symbol table, the register pool and the label counter. */
module Codegen {
  import opened Options
  import opened Bytecode
  import opened Registers
  import opened Labels
  import opened Source
  import opened Symbols

  function RegisterOf(t: Table, x: string): nat { if x in t then t[x] else 0 }

  function Opcode(op: Op): nat {
    match op
    case Plus => ADD
    case Minus => SUB
    case Times => MUL
    case Over => DIV
    case Remainder => MOD
    case Less => CMP_LESS
    case LessEq => CMP_LESS_OR_EQUAL
    case Greater => CMP_GREATER
    case GreaterEq => CMP_GREATER_OR_EQUAL
    case Equal => CMP_EQUAL
    case NotEqual => CMP_N_EQUAL
  }

  /** Emitted code, the register with the result, and the pool afterwards. */
  datatype Out = Out(code: seq<Instr>, reg: nat, pool: Pool)

  /** The requested destination, or else a temporary. */
  function Target(n: nat, dest: nat, p: Pool): nat { if dest == 0 then Taken(n, p) else dest }

  function TargetPool(dest: nat, p: Pool): Pool { if dest == 0 then Take(p) else p }

  function CompileExpr(e: Expr, dest: nat, t: Table, p: Pool): Out {
    match e
    case Number(x) => CompileNumber(x, dest, t, p)
    case Ident(x) => CompileIdent(x, dest, t, p)
    case Binary(op, l, r) =>
      var lo := CompileExpr(l, 0, t, p);
      var ro := CompileExpr(r, 0, t, lo.pool);
      var res := Target(|t|, dest, ro.pool);
      var pool := TargetPool(dest, ro.pool);
      Out(lo.code + ro.code + [Instr(Opcode(op), Idx(lo.reg), Idx(ro.reg), Idx(res))], res,
          FreeBoth(|t|, pool, lo.reg, ro.reg, res))
    case Assign(x, v) =>
      if RegisterOf(t, x) == 0 then
        var name := Taken(|t|, p);
        var vo := CompileExpr(v, 0, t, Take(p));
        Out([Instr(MOV_STR, Idx(name), Name(x), NULL)] + vo.code + [Instr(SET_FIELD, Idx(1), Idx(name), Idx(vo.reg))],
            0, vo.pool)
      else
        var vo := CompileExpr(v, t[x], t, p);
        var res := Target(|t|, dest, vo.pool);
        Out(vo.code, res, FreeBoth(|t|, TargetPool(dest, vo.pool), t[x], vo.reg, res))
    case Postfix(x, up) =>
      var xo := CompileIdent(x, 0, t, p);
      var res := Target(|t|, dest, xo.pool);
      var pool := TargetPool(dest, xo.pool);
      var code := xo.code + [Instr(MOV, Idx(res), Idx(xo.reg), NULL),
                             Instr(if up then INC else DEC, Idx(xo.reg), Idx(xo.reg), NULL)];
      if RegisterOf(t, x) != 0 then Out(code, res, pool)
      else
        var name := Taken(|t|, pool);
        Out(code + [Instr(MOV_STR, Idx(name), Name(x), NULL), Instr(SET_FIELD, Idx(1), Idx(name), Idx(xo.reg))], res,
            Release(|t|, Take(pool), name))
    case MethodCall(c, args) =>
      var a := CompileArguments(args, t, BeginCall(dest, t, p));
      var o := CompileExpr(c, 0, t, Release(|t|, a.pool, a.next));
      Out(a.code + o.code + [Instr(CALL, Idx(o.reg), Idx(a.result), Idx(|args|))], a.result,
          Release(|t|, o.pool, o.reg))
    case ThrowPrefix(v) =>
      var o := CompileExpr(v, 0, t, p);
      var res := Target(|t|, dest, o.pool);
      Out(o.code + [Instr(THROW_EXCEPTION, Idx(o.reg), NULL, NULL)], res,
          if dest == 0 then Release(|t|, Take(o.pool), res) else o.pool)
  }

  /** The code of a call so far: the register of its result, and the one for the next argument. */
  datatype CallCode = CallCode(code: seq<Instr>, result: nat, next: nat, pool: Pool)

  function BeginCall(dest: nat, t: Table, p: Pool): CallCode {
    var pool := TargetPool(dest, p);
    CallCode([], Target(|t|, dest, p), Taken(|t|, pool), Take(pool))
  }

  /** The last argument is computed and pushed first. Each is asked to be left where the one
      before it was. */
  function CompileArguments(args: seq<Expr>, t: Table, c: CallCode): CallCode {
    if args == [] then c
    else
      var o := CompileExpr(args[|args| - 1], c.next, t, c.pool);
      CompileArguments(args[..|args| - 1], t,
                       CallCode(c.code + o.code + [Instr(PUSH, Idx(o.reg), NULL, NULL)], c.result, o.reg, o.pool))
  }

  /** The result register of a binary operation is kept; its operands are given back. */
  function FreeBoth(n: nat, p: Pool, left: nat, right: nat, result: nat): Pool {
    Release(n, if right != result then Release(n, p, right) else p, left)
  }

  function CompileNumber(x: real, dest: nat, t: Table, p: Pool): Out {
    Out([Instr(MOV_NUMBER, Idx(Target(|t|, dest, p)), Lit(x), NULL)], Target(|t|, dest, p), TargetPool(dest, p))
  }

  /** A symbol of the function is used in place; other names are looked up when executed. */
  function CompileIdent(x: string, dest: nat, t: Table, p: Pool): Out {
    if RegisterOf(t, x) != 0 then Out([], RegisterOf(t, x), p)
    else Out([Instr(GET_FIELD_IMMEDIATE, Idx(1), Name(x), Idx(Target(|t|, dest, p)))], Target(|t|, dest, p),
             TargetPool(dest, p))
  }

  /** Emitted code, the pool, and the label counter afterwards. */
  datatype Piece = Piece(code: seq<Instr>, pool: Pool, labels: nat)

  /** An expression compiled for its effect only. */
  function CompileEffect(e: Option<Expr>, t: Table, p: Pool, n: nat): Piece {
    match e
    case None => Piece([], p, n)
    case Some(a) =>
      var o := CompileExpr(a, 0, t, p);
      Piece(o.code, Release(|t|, o.pool, o.reg), n)
  }

  function Label(name: string): Instr { Instr(LABEL, Name(name), NULL, NULL) }

  function Jump(name: string): Instr { Instr(JMP, Name(name), NULL, NULL) }

  /** ends: the end labels of the enclosing loops, innermost last. */
  function CompileStmt(s: Stmt, t: Table, ends: seq<string>, p: Pool, n: nat): Piece
    decreases s, 1
  {
    match s
    case Var(x, v, _) =>
      var reg := RegisterOf(t, x);
      var o := CompileExpr(v, reg, t, p);
      if o.reg == reg then Piece(o.code, o.pool, n)
      else Piece(o.code + [Instr(MOV, Idx(reg), Idx(o.reg), NULL)], Release(|t|, o.pool, o.reg), n)
    case Do(e) => CompileEffect(Some(e), t, p, n)
    case Return(e) =>
      var o := CompileExpr(e, 0, t, p);
      Piece(o.code + [Instr(RETURN, Idx(o.reg), NULL, NULL)], Release(|t|, o.pool, o.reg), n)
    case Break => Piece(if ends == [] then [] else [Jump(ends[|ends| - 1])], p, n)
    case Block(b) => CompileBody(b, t, ends, p, n)
    case If(c, th, hasElse, el) =>
      var elseLabel, endLabel := Tag(ELSE, n + 1), Tag(END_CONDITIONAL, n + 2);
      var o := CompileExpr(c, 0, t, p);
      var a := CompileBody(th, t, ends, Release(|t|, o.pool, o.reg), n + 2);
      var b := if hasElse then CompileBody(el, t, ends, a.pool, a.labels) else Piece([], a.pool, a.labels);
      Piece(o.code + [Instr(JMP_NOT_TRUE, Idx(o.reg), Name(elseLabel), NULL)] + a.code
            + (if hasElse then [Jump(endLabel)] else []) + [Label(elseLabel)] + b.code + [Label(endLabel)],
            b.pool, b.labels)
    case Loop(i, c, it, b) =>
      var startLabel, endLabel, condLabel := Tag(LOOP_START, n + 1), Tag(LOOP_END, n + 2), Tag(LOOP_CONDITION, n + 3);
      var io := CompileEffect(i, t, p, n + 3);
      var bo := CompileBody(b, t, ends + [endLabel], io.pool, n + 3);
      var no := CompileEffect(it, t, bo.pool, bo.labels);
      var co := CompileCondition(c, startLabel, t, no.pool, no.labels);
      Piece(io.code + [Jump(condLabel), Label(startLabel)] + bo.code + no.code + [Label(condLabel)] + co.code
            + [Label(endLabel)],
            co.pool, co.labels)
    case Try(b, x, h, hasFinally, f) =>
      var catchLabel, finallyLabel := Tag(CATCH, n + 1), Tag(FINALLY, n + 2);
      var bo := CompileBody(b, t, ends, p, n + 2);
      var ho := CompileBody(h, t, ends, bo.pool, bo.labels);
      var fo := if hasFinally then CompileBody(f, t, ends, ho.pool, ho.labels) else Piece([], ho.pool, ho.labels);
      Piece([Instr(SET_CATCH, Name(catchLabel), Name(finallyLabel), NULL)] + bo.code
            + [Jump(finallyLabel), Label(catchLabel)]
            + [Instr(POP, Idx(RegisterOf(t, x)), NULL, NULL)] + ho.code + [Label(finallyLabel)] + fo.code
            + [Instr(CLEAR_CATCH, NULL, NULL, NULL)],
            fo.pool, fo.labels)
    case Define(_) => Piece([], p, n)
  }

  function CompileCondition(c: Option<Expr>, target: string, t: Table, p: Pool, n: nat): Piece {
    match c
    case None => Piece([], p, n)
    case Some(e) =>
      var o := CompileExpr(e, 0, t, p);
      Piece(o.code + [Instr(JMP_TRUE, Idx(o.reg), Name(target), NULL)], Release(|t|, o.pool, o.reg), n)
  }

  function CompileAll(ss: seq<Stmt>, t: Table, ends: seq<string>, p: Pool, n: nat): Piece
    decreases ss, 0
  {
    if ss == [] then Piece([], p, n)
    else
      var a := CompileStmt(ss[0], t, ends, p, n);
      var b := CompileAll(ss[1..], t, ends, a.pool, a.labels);
      Piece(a.code + b.code, b.pool, b.labels)
  }

  /** Functions defined in a body are loaded at its start. */
  function Hoist(ss: seq<Stmt>, t: Table): seq<Instr> {
    if ss == [] then []
    else (if ss[0].Define? then [LoadFunction(ss[0].f, t)] else []) + Hoist(ss[1..], t)
  }

  /** Fragment bodies define no functions. */
  lemma {:induction false} NothingHoisted(ss: seq<Stmt>, t: Table, inLoop: bool)
    requires AllInFragment(ss, t.Keys, inLoop)
    ensures Hoist(ss, t) == []
  {
    if ss != [] {
      NothingHoisted(ss[1..], t, inLoop);
    }
  }

  function LoadFunction(f: Function, t: Table): Instr {
    Instr(MOV_FNC, Idx(RegisterOf(t, f.name)), Name(f.name), Idx(if f.isAsync then 1 else 0))
  }

  function CompileBody(ss: seq<Stmt>, t: Table, ends: seq<string>, p: Pool, n: nat): Piece
    decreases ss, 1
  {
    var a := CompileAll(ss, t, ends, p, n);
    Piece(Hoist(ss, t) + a.code, a.pool, a.labels)
  }

  // ----- the parts of compound expressions and statements -----

  lemma BinaryParted(op: Op, l: Expr, r: Expr, dest: nat, t: Table, p: Pool)
    ensures var lo := CompileExpr(l, 0, t, p);
            var ro := CompileExpr(r, 0, t, lo.pool);
            var res, pool := Target(|t|, dest, ro.pool), TargetPool(dest, ro.pool);
            CompileExpr(Binary(op, l, r), dest, t, p)
            == Out(lo.code + ro.code + [Instr(Opcode(op), Idx(lo.reg), Idx(ro.reg), Idx(res))], res,
                   FreeBoth(|t|, pool, lo.reg, ro.reg, res))
  {
  }

  lemma AssignParted(x: string, v: Expr, dest: nat, t: Table, p: Pool)
    ensures CompileExpr(Assign(x, v), dest, t, p)
            == if RegisterOf(t, x) == 0 then
                 var name := Taken(|t|, p);
                 var vo := CompileExpr(v, 0, t, Take(p));
                 Out([Instr(MOV_STR, Idx(name), Name(x), NULL)] + vo.code
                     + [Instr(SET_FIELD, Idx(1), Idx(name), Idx(vo.reg))], 0, vo.pool)
               else
                 var vo := CompileExpr(v, t[x], t, p);
                 var res := Target(|t|, dest, vo.pool);
                 Out(vo.code, res, FreeBoth(|t|, TargetPool(dest, vo.pool), t[x], vo.reg, res))
  {
  }

  lemma PostfixParted(x: string, up: bool, dest: nat, t: Table, p: Pool)
    ensures var xo := CompileIdent(x, 0, t, p);
            var res := Target(|t|, dest, xo.pool);
            var pool := TargetPool(dest, xo.pool);
            var code := xo.code + [Instr(MOV, Idx(res), Idx(xo.reg), NULL),
                                   Instr(if up then INC else DEC, Idx(xo.reg), Idx(xo.reg), NULL)];
            var name := Taken(|t|, pool);
            CompileExpr(Postfix(x, up), dest, t, p)
            == if RegisterOf(t, x) != 0 then Out(code, res, pool)
               else Out(code + [Instr(MOV_STR, Idx(name), Name(x), NULL),
                                Instr(SET_FIELD, Idx(1), Idx(name), Idx(xo.reg))],
                        res, Release(|t|, Take(pool), name))
  {
  }

  lemma CallParted(c: Expr, args: seq<Expr>, dest: nat, t: Table, p: Pool)
    ensures var a := CompileArguments(args, t, BeginCall(dest, t, p));
            var o := CompileExpr(c, 0, t, Release(|t|, a.pool, a.next));
            CompileExpr(MethodCall(c, args), dest, t, p)
            == Out(a.code + o.code + [Instr(CALL, Idx(o.reg), Idx(a.result), Idx(|args|))], a.result,
                   Release(|t|, o.pool, o.reg))
  {
  }

  lemma ThrowParted(v: Expr, dest: nat, t: Table, p: Pool)
    ensures var o := CompileExpr(v, 0, t, p);
            var res := Target(|t|, dest, o.pool);
            CompileExpr(ThrowPrefix(v), dest, t, p)
            == Out(o.code + [Instr(THROW_EXCEPTION, Idx(o.reg), NULL, NULL)], res,
                   if dest == 0 then Release(|t|, Take(o.pool), res) else o.pool)
  {
  }

  lemma ExprCases(e: Expr, dest: nat, t: Table, p: Pool)
    ensures e.Number? ==> CompileExpr(e, dest, t, p) == CompileNumber(e.x, dest, t, p)
    ensures e.Ident? ==> CompileExpr(e, dest, t, p) == CompileIdent(e.name, dest, t, p)
  {
  }

  /** The parts of a conditional's code. */
  datatype IfCode = IfCode(cond: Out, thn: Piece, els: Piece)

  function IfParts(s: Stmt, t: Table, ends: seq<string>, p: Pool, k: nat): IfCode
    requires s.If?
  {
    var o := CompileExpr(s.cond, 0, t, p);
    var a := CompileBody(s.thn, t, ends, Release(|t|, o.pool, o.reg), k + 2);
    IfCode(o, a, if s.hasElse then CompileBody(s.els, t, ends, a.pool, a.labels) else Piece([], a.pool, a.labels))
  }

  lemma IfParted(s: Stmt, t: Table, ends: seq<string>, p: Pool, k: nat)
    requires s.If?
    ensures var c := IfParts(s, t, ends, p, k);
            var elseLabel, endLabel := Tag(ELSE, k + 1), Tag(END_CONDITIONAL, k + 2);
            CompileStmt(s, t, ends, p, k)
            == Piece((c.cond.code + [Instr(JMP_NOT_TRUE, Idx(c.cond.reg), Name(elseLabel), NULL)]) + c.thn.code
                     + (if s.hasElse then [Jump(endLabel)] else []) + [Label(elseLabel)] + c.els.code
                         + [Label(endLabel)],
                     c.els.pool, c.els.labels)
  {
  }

  /** The parts of a loop's code. */
  datatype LoopCode = LoopCode(start: Piece, body: Piece, iter: Piece, cond: Piece)

  function LoopParts(s: Stmt, t: Table, ends: seq<string>, p: Pool, k: nat): LoopCode
    requires s.Loop?
  {
    var io := CompileEffect(s.start, t, p, k + 3);
    var bo := CompileBody(s.body, t, ends + [Tag(LOOP_END, k + 2)], io.pool, k + 3);
    var no := CompileEffect(s.iter, t, bo.pool, bo.labels);
    LoopCode(io, bo, no, CompileCondition(s.condition, Tag(LOOP_START, k + 1), t, no.pool, no.labels))
  }

  lemma LoopParted(s: Stmt, t: Table, ends: seq<string>, p: Pool, k: nat)
    requires s.Loop?
    ensures var c := LoopParts(s, t, ends, p, k);
            CompileStmt(s, t, ends, p, k)
            == Piece(c.start.code + [Jump(Tag(LOOP_CONDITION, k + 3)), Label(Tag(LOOP_START, k + 1))] + c.body.code
                     + c.iter.code
                     + [Label(Tag(LOOP_CONDITION, k + 3))] + c.cond.code + [Label(Tag(LOOP_END, k + 2))],
                     c.cond.pool, c.cond.labels)
  {
  }

  /** The parts of a try statement's code. */
  datatype TryCode = TryCode(body: Piece, handler: Piece, finallyBody: Piece)

  function TryParts(s: Stmt, t: Table, ends: seq<string>, p: Pool, k: nat): TryCode
    requires s.Try?
  {
    var b := CompileBody(s.body, t, ends, p, k + 2);
    var h := CompileBody(s.handler, t, ends, b.pool, b.labels);
    TryCode(b, h, if s.hasFinally then CompileBody(s.finallyBody, t, ends, h.pool, h.labels)
            else Piece([], h.pool, h.labels))
  }

  lemma TryParted(s: Stmt, t: Table, ends: seq<string>, p: Pool, k: nat)
    requires s.Try?
    ensures var c := TryParts(s, t, ends, p, k);
            CompileStmt(s, t, ends, p, k)
            == Piece([Instr(SET_CATCH, Name(Tag(CATCH, k + 1)), Name(Tag(FINALLY, k + 2)), NULL)] + c.body.code
                     + [Jump(Tag(FINALLY, k + 2)), Label(Tag(CATCH, k + 1))]
                     + [Instr(POP, Idx(RegisterOf(t, s.exception)), NULL, NULL)] + c.handler.code
                         + [Label(Tag(FINALLY, k + 2))]
                     + c.finallyBody.code + [Instr(CLEAR_CATCH, NULL, NULL, NULL)],
                     c.finallyBody.pool, c.finallyBody.labels)
  {
  }

  // ----- functions and the class -----

  /** The functions defined in a body, in the order they are set aside for later. */
  function Later(ss: seq<Stmt>): seq<Function>
    decreases ss, 0
  {
    if ss == [] then [] else LaterIn(ss[0]) + Later(ss[1..])
  }

  function LaterIn(s: Stmt): seq<Function>
    decreases s, 1
  {
    match s
    case Define(f) => [f]
    case Block(b) => Later(b)
    case If(_, t, hasElse, e) => if hasElse then Later(t) + Later(e) else Later(t)
    case Loop(_, _, _, b) => Later(b)
    case Try(b, _, h, hasFinally, f) => if hasFinally then Later(b) + Later(h) + Later(f) else Later(b) + Later(h)
    case _ => []
  }

  /** No function is defined inside a try statement, here or in the functions defined here. Such
      functions are compiled like others, but the address calculator does not visit them. */
  predicate AllVisible(ss: seq<Stmt>)
    decreases ss, 0
  {
    ss == [] || (Visible(ss[0]) && AllVisible(ss[1..]))
  }

  predicate Visible(s: Stmt)
    decreases s, 1
  {
    match s
    case Define(f) => AllVisible(f.body)
    case Block(b) => AllVisible(b)
    case If(_, t, hasElse, e) => AllVisible(t) && (hasElse ==> AllVisible(e))
    case Loop(_, _, _, b) => AllVisible(b)
    case Try(_, _, _, _, _) => LaterIn(s) == []
    case _ => true
  }

  /** A measure for nested functions. */
  function Size(ss: seq<Stmt>): nat
    decreases ss, 0
  {
    if ss == [] then 0 else SizeOf(ss[0]) + Size(ss[1..])
  }

  function SizeOf(s: Stmt): nat
    decreases s, 1
  {
    match s
    case Define(f) => 1 + Size(f.body)
    case Block(b) => Size(b)
    case If(_, t, _, e) => Size(t) + Size(e)
    case Loop(_, _, _, b) => Size(b)
    case Try(b, _, h, _, f) => Size(b) + Size(h) + Size(f)
    case _ => 0
  }

  function TotalSize(fs: seq<Function>): nat
    decreases |fs|
  {
    if fs == [] then 0 else 1 + Size(fs[0].body) + TotalSize(fs[1..])
  }

  lemma {:induction false} TotalSizeConcat(a: seq<Function>, b: seq<Function>)
    ensures TotalSize(a + b) == TotalSize(a) + TotalSize(b)
    decreases |a|
  {
    if a == [] {
      assert a + b == b;
    } else {
      assert (a + b)[1..] == a[1..] + b;
      TotalSizeConcat(a[1..], b);
    }
  }

  lemma {:induction false} LaterSize(ss: seq<Stmt>)
    ensures TotalSize(Later(ss)) <= Size(ss)
    decreases ss, 0
  {
    if ss != [] {
      LaterInSize(ss[0]);
      LaterSize(ss[1..]);
      TotalSizeConcat(LaterIn(ss[0]), Later(ss[1..]));
    }
  }

  lemma {:induction false} LaterInSize(s: Stmt)
    ensures TotalSize(LaterIn(s)) <= SizeOf(s)
    decreases s, 1
  {
    match s
    case Define(f) => assert [f][1..] == [];
    case Block(b) => LaterSize(b);
    case If(_, t, hasElse, e) =>
      LaterSize(t);
      LaterSize(e);
      TotalSizeConcat(Later(t), Later(e));
    case Loop(_, _, _, b) => LaterSize(b);
    case Try(b, _, h, hasFinally, f) =>
      LaterSize(b);
      LaterSize(h);
      LaterSize(f);
      TotalSizeConcat(Later(b), Later(h));
      TotalSizeConcat(Later(b) + Later(h), Later(f));
    case _ =>
  }

  /** Every function below fs, each before the functions nested in it. */
  function Flat(fs: seq<Function>): seq<Function>
    decreases TotalSize(fs)
  {
    if fs == [] then []
    else
      LaterSize(fs[0].body);
      [fs[0]] + Flat(Later(fs[0].body)) + Flat(fs[1..])
  }

  /** Emitted code and the label counter afterwards. */
  datatype Unit = Unit(code: seq<Instr>, labels: nat)

  function FrameHeader(locals: nat, ts: Tables, name: string): Instr {
    Instr(FFRAME, Idx(locals), Syms(ts.symbols, ts.privates), Name("end" + name))
  }

  const RETURN_NULL: Instr := Instr(RETURN, NULL, NULL, NULL)

  /** A function's own code, without the functions nested in it. */
  function FunctionCode(f: Function, n: nat): Piece {
    var ts := FunctionTables(f);
    var b := CompileBody(f.body, ts.symbols, [], [], n);
    Piece([Label(f.name), FrameHeader(|b.pool| + |ts.symbols|, ts, f.name), LoadFunction(f, ts.symbols)] + b.code
          + [RETURN_NULL, Label("end" + f.name)], b.pool, b.labels)
  }

  function CompileFunction(f: Function, n: nat): Unit
    decreases 1 + Size(f.body), 1
  {
    LaterSize(f.body);
    var own := FunctionCode(f, n);
    var rest := CompileFunctions(Later(f.body), own.labels);
    Unit(own.code + rest.code, rest.labels)
  }

  function CompileFunctions(fs: seq<Function>, n: nat): Unit
    decreases TotalSize(fs), 2
  {
    if fs == [] then Unit([], n)
    else
      var a := CompileFunction(fs[0], n);
      var b := CompileFunctions(fs[1..], a.labels);
      Unit(a.code + b.code, b.labels)
  }

  function PopArguments(params: seq<string>, t: Table): seq<Instr>
    decreases |params|
  {
    if params == [] then [] else [Instr(POP, Idx(RegisterOf(t, params[0])), NULL, NULL)] + PopArguments(params[1..], t)
  }

  function ClassCode(c: Class, n: nat): Piece {
    var ts := ClassTables(c);
    var b := CompileBody(c.body, ts.symbols, [], [], n);
    Piece([Label(c.name), FrameHeader(|b.pool| + |ts.symbols|, ts, c.name), Instr(CREATE_THIS, NULL, NULL, NULL)]
          + PopArguments(c.params, ts.symbols) + b.code + [RETURN_NULL, Label("end" + c.name)], b.pool, b.labels)
  }

  /** The whole program. */
  function CompileClass(c: Class): Unit {
    var own := ClassCode(c, 0);
    var rest := CompileFunctions(Later(c.body), own.labels);
    Unit(own.code + rest.code, rest.labels)
  }
}
