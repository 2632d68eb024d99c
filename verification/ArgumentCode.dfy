/** What the code of a call's arguments does (src/compiler/ExprssionCompiler.cpp:102-121). Each
    argument is asked to be left where the one after it was; a bare variable is used in place, so
    what stands to the left of one is computed into it. When that is noticed is decided here. */
module ArgumentCode {
  import opened Options
  import opened Bytecode
  import opened Machine
  import opened Registers
  import opened Source
  import opened Symbols
  import opened Codegen
  import opened ExprProof
  import opened StmtProof
  import opened FunctionProof

  predicate AllPure(args: seq<Expr>, names: set<string>) { forall a :: a in args ==> Pure(a) && Scoped(a, names) }

  // ----- which registers are written -----

  predicate WritesVariable(i: Instr, n: nat) { exists w :: w in Dests(i) && w.Idx? && 1 <= w.n <= n }

  ghost predicate SomeVariable(c: seq<Instr>, n: nat) { exists k :: 0 <= k < |c| && WritesVariable(c[k], n) }

  lemma SomeConcat(a: seq<Instr>, b: seq<Instr>, n: nat)
    ensures SomeVariable(a + b, n) <==> SomeVariable(a, n) || SomeVariable(b, n)
  {
    hide WritesVariable;
    if SomeVariable(a, n) {
      var k :| 0 <= k < |a| && WritesVariable(a[k], n);
      assert (a + b)[k] == a[k];
    }
    if SomeVariable(b, n) {
      var k :| 0 <= k < |b| && WritesVariable(b[k], n);
      assert (a + b)[|a| + k] == b[k];
    }
  }

  lemma SomeOne(i: Instr, n: nat)
    ensures SomeVariable([i], n) <==> WritesVariable(i, n)
  {
    assert [i][0] == i;
  }

  lemma OperationWrites(op: Op, l: nat, r: nat, d: nat, n: nat)
    ensures WritesVariable(Instr(Opcode(op), Idx(l), Idx(r), Idx(d)), n) <==> 1 <= d <= n
  {
    assert Dests(Instr(Opcode(op), Idx(l), Idx(r), Idx(d))) == [Idx(d)];
    assert Idx(d) in [Idx(d)];
  }

  /** The code of a pure expression writes a variable if and only if it is not a bare variable and
      its destination is one. */
  lemma {:induction false} ExprWrites(e: Expr, dest: nat, t: Table, p: Pool)
    requires Pure(e) && Scoped(e, t.Keys) && Numbering(t)
    ensures SomeVariable(CompileExpr(e, dest, t, p).code, |t|) <==> !e.Ident? && 1 <= dest <= |t|
    decreases e
  {
    hide SomeVariable, WritesVariable, FreeBoth, Opcode;
    var n := |t|;
    match e
    case Number(x) =>
      var i := Instr(MOV_NUMBER, Idx(Target(n, dest, p)), Lit(x), NULL);
      SomeOne(i, n);
      LoadWrites(Target(n, dest, p), x, n);
    case Ident(_) => NothingWrites(n);
    case Binary(op, l, r) =>
      var lo := CompileExpr(l, 0, t, p);
      var ro := CompileExpr(r, 0, t, lo.pool);
      var i := Instr(Opcode(op), Idx(lo.reg), Idx(ro.reg), Idx(Target(n, dest, ro.pool)));
      ExprWrites(l, 0, t, p);
      ExprWrites(r, 0, t, lo.pool);
      SomeConcat(lo.code, ro.code, n);
      SomeConcat(lo.code + ro.code, [i], n);
      SomeOne(i, n);
      OperationWrites(op, lo.reg, ro.reg, Target(n, dest, ro.pool), n);
  }

  lemma NothingWrites(n: nat)
    ensures !SomeVariable([], n)
  {
  }

  lemma LoadWrites(r: nat, x: real, n: nat)
    ensures WritesVariable(Instr(MOV_NUMBER, Idx(r), Lit(x), NULL), n) <==> 1 <= r <= n
    ensures !WritesVariable(Instr(PUSH, Idx(r), NULL, NULL), n)
  {
    assert Dests(Instr(MOV_NUMBER, Idx(r), Lit(x), NULL)) == [Idx(r)];
    assert Idx(r) in [Idx(r)];
  }

  /** Some argument is not a bare variable, and one after it is - or what follows the list is. */
  predicate Overwrites(args: seq<Expr>, variable: bool)
    decreases |args|
  {
    args != [] &&
    var e := args[|args| - 1];
    (!e.Ident? && variable) || Overwrites(args[..|args| - 1], variable || e.Ident?)
  }

  lemma {:induction false} OverwritesMeans(args: seq<Expr>, variable: bool)
    ensures Overwrites(args, variable) <==>
            exists j :: 0 <= j < |args| && !args[j].Ident?
                        && (variable || exists k :: j < k < |args| && args[k].Ident?)
    decreases |args|
  {
    if args != [] {
      var m, e := |args| - 1, args[|args| - 1];
      var rest := args[..m];
      OverwritesMeans(rest, variable || e.Ident?);
      if Overwrites(rest, variable || e.Ident?) {
        var j :| 0 <= j < |rest| && !rest[j].Ident?
                 && (variable || e.Ident? || exists k :: j < k < |rest| && rest[k].Ident?);
        assert args[j] == rest[j];
        if !variable && !e.Ident? {
          var k :| j < k < |rest| && rest[k].Ident?;
          assert args[k].Ident?;
        } else if !variable {
          assert args[m].Ident?;
        }
      }
      if j :| 0 <= j < |args| && !args[j].Ident? && (variable || exists k :: j < k < |args| && args[k].Ident?) {
        if j < m {
          assert rest[j] == args[j];
          if !variable {
            var k :| j < k < |args| && args[k].Ident?;
            assert k < m ==> rest[k].Ident?;
          }
        }
      }
    }
  }

  /** Where the next argument is asked to be left: in variable x, or in a temporary in use. */
  ghost predicate Asks(c: CallCode, x: Option<string>, t: Table) {
    match x
    case Some(y) => y in t && c.next == t[y]
    case None => c.next > |t| && !Free(|t|, c.pool, c.next)
  }

  function NextOf(e: Expr, x: Option<string>): Option<string> { if e.Ident? then Some(e.name) else x }

  function NextCode(e: Expr, t: Table, c: CallCode): CallCode {
    var o := CompileExpr(e, c.next, t, c.pool);
    CallCode(c.code + o.code + [Instr(PUSH, Idx(o.reg), NULL, NULL)], c.result, o.reg, o.pool)
  }

  lemma NextAsks(e: Expr, x: Option<string>, t: Table, c: CallCode)
    requires Asks(c, x, t) && Pure(e) && Scoped(e, t.Keys) && Numbering(t)
    ensures Asks(NextCode(e, t, c), NextOf(e, x), t)
  {
    if x.Some? {
      VariableTaken(|t|, c.pool, c.next);
    }
    ExprPool(e, c.next, t, c.pool);
  }

  lemma BeginAsks(dest: nat, t: Table, p: Pool)
    ensures Asks(BeginCall(dest, t, p), None, t) && BeginCall(dest, t, p).code == []
  {
    var pool := TargetPool(dest, p);
    TakeFrees(|t|, pool, Taken(|t|, pool));
  }

  lemma {:induction false} ArgumentsWrite(args: seq<Expr>, x: Option<string>, t: Table, c: CallCode)
    requires AllPure(args, t.Keys) && Numbering(t) && Asks(c, x, t)
    ensures SomeVariable(CompileArguments(args, t, c).code, |t|) <==>
            SomeVariable(c.code, |t|) || Overwrites(args, x.Some?)
    decreases |args|
  {
    hide SomeVariable, CompileExpr, Numbering, Asks, WritesVariable;
    if args != [] {
      var e, n := args[|args| - 1], |t|;
      var o := CompileExpr(e, c.next, t, c.pool);
      var push := Instr(PUSH, Idx(o.reg), NULL, NULL);
      assert args[..|args| - 1] + [e] == args;
      NextAsks(e, x, t, c);
      assert c.next >= 1 && (c.next <= n <==> x.Some?) by {
        AskedRegister(x, t, c);
      }
      ExprWrites(e, c.next, t, c.pool);
      SomeConcat(c.code, o.code, n);
      SomeConcat(c.code + o.code, [push], n);
      SomeOne(push, n);
      LoadWrites(o.reg, 0.0, n);
      ArgumentsWrite(args[..|args| - 1], NextOf(e, x), t, NextCode(e, t, c));
    }
  }

  lemma AskedRegister(x: Option<string>, t: Table, c: CallCode)
    requires Asks(c, x, t) && Numbering(t)
    ensures c.next >= 1 && (c.next <= |t| <==> x.Some?)
  {
  }

  /** The code of a call's arguments writes a variable of the caller if and only if an argument
      that is not a bare variable stands to the left of one that is. */
  lemma ArgumentOverwrites(args: seq<Expr>, dest: nat, t: Table, p: Pool)
    requires AllPure(args, t.Keys) && Numbering(t)
    ensures SomeVariable(CompileArguments(args, t, BeginCall(dest, t, p)).code, |t|) <==>
            exists j, k :: 0 <= j < k < |args| && !args[j].Ident? && args[k].Ident?
  {
    hide CompileArguments, SomeVariable, Overwrites;
    BeginAsks(dest, t, p);
    NothingWrites(|t|);
    ArgumentsWrite(args, None, t, BeginCall(dest, t, p));
    OverwritesMeans(args, false);
  }

  // ----- what is pushed -----

  /** A PUSH changes no variable and raises nothing. */
  ghost predicate PushesQuietly(env: Env) {
    forall trace, i: Instr, args, vars :: i.op == PUSH ==> env(trace, Ran(i, args, vars)) == Continue(vars, 0.0)
  }

  /** values: what was pushed, in the order of the arguments. */
  datatype Passing = Passed(values: seq<real>, st: Store) | Stopped(v: Value)

  /** The code's way: argument after argument from the last, each but bare variables stored into
      variable x if there is one. */
  function PassAll(args: seq<Expr>, x: Option<string>, st: Store): Passing
    requires AllPure(args, st.Keys) && (x.Some? ==> x.value in st)
    decreases |args|
  {
    if args == [] then Passed([], st)
    else
      var e := args[|args| - 1];
      match Eval(e, st)
      case Is(v) =>
        (match PassAll(args[..|args| - 1], NextOf(e, x), Stored(e, x, v, st))
         case Passed(vs, last) => Passed(vs + [v], last)
         case stopped => stopped)
      case other => Stopped(other)
  }

  function Stored(e: Expr, x: Option<string>, v: real, st: Store): (r: Store)
    requires x.Some? ==> x.value in st
    ensures r.Keys == st.Keys
  {
    if e.Ident? || x.None? then st else st[x.value := v]
  }

  /** The source's way: every argument in the same store. */
  function MeanAll(args: seq<Expr>, st: Store): Passing
    requires AllPure(args, st.Keys)
    decreases |args|
  {
    if args == [] then Passed([], st)
    else
      match Eval(args[|args| - 1], st)
      case Is(v) =>
        (match MeanAll(args[..|args| - 1], st)
         case Passed(vs, last) => Passed(vs + [v], last)
         case stopped => stopped)
      case other => Stopped(other)
  }

  predicate IsPush(o: Observation, v: real) { o.Ran? && o.instr.op == PUSH && o.args == [v] }

  /** After before, the trace has one PUSH of each value, the last value first. */
  ghost predicate Pushes(trace: seq<Observation>, before: seq<Observation>, values: seq<real>) {
    && |trace| == |before| + |values| && trace[..|before|] == before
    && forall k :: 0 <= k < |values| ==> IsPush(trace[|trace| - 1 - k], values[k])
  }

  ghost predicate Passes(f: Effect, r: Passing, t: Table, d: Data) {
    match r
    case Passed(vs, st) =>
      f.Fall? && Represents(t, st, f.d.regs) && f.d.catches == d.catches && Pushes(f.d.trace, d.trace, vs)
    case Stopped(Fails) => f.Raise? && f.fault == DivideByZero
    case Stopped(_) => f.Escape?
  }

  /** An argument and its PUSH. */
  lemma OneArgument(env: Env, e: Expr, x: Option<string>, t: Table, c: CallCode, st: Store, d: Data)
    requires PushesQuietly(env) && Pure(e) && Scoped(e, t.Keys) && Numbering(t) && Asks(c, x, t)
    requires Represents(t, st, d.regs)
    ensures x.Some? ==> x.value in st
    ensures var o := CompileExpr(e, c.next, t, c.pool);
            var f := RunLine(env, |t|, o.code + [Instr(PUSH, Idx(o.reg), NULL, NULL)], d);
            var v := Eval(e, st);
            Passes(f, if v.Is? then Passed([v.v], Stored(e, x, v.v, st)) else Stopped(v), t, d)
  {
    hide Free, Eval, Exec, CompileExpr, RunLine, Get;
    var n := |t|;
    var o := CompileExpr(e, c.next, t, c.pool);
    var push := Instr(PUSH, Idx(o.reg), NULL, NULL);
    if x.Some? {
      VariableTaken(n, c.pool, c.next);
    }
    ExprPool(e, c.next, t, c.pool);
    ExprComputes(env, e, c.next, t, c.pool, st, d);
    RunLineConcat(env, n, o.code, [push], d);
    var f := RunLine(env, n, o.code, d);
    if f.Fall? {
      RunLineOne(env, n, push, f.d);
      PushRuns(env, n, o.reg, f.d);
      var v := Eval(e, st).v;
      assert Represents(t, Stored(e, x, v, st), f.d.regs) by {
        if e.Ident? {
          BareRepresents(env, e, c.next, t, c.pool, d);
        } else {
          StoredRepresents(t, st, c.pool, c.next, x, v, d.regs, f.d.regs);
        }
      }
    }
  }

  lemma BareRepresents(env: Env, e: Expr, dest: nat, t: Table, p: Pool, d: Data)
    requires e.Ident? && e.name in t && Numbering(t)
    ensures RunLine(env, |t|, CompileExpr(e, dest, t, p).code, d) == Fall(d)
  {
  }

  lemma StoredRepresents(t: Table, st: Store, p: Pool, dest: nat, x: Option<string>, v: real, a: Regs, b: Regs)
    requires Numbering(t) && Represents(t, st, a) && Untouched(|t|, p, dest, a, b) && Get(b, Idx(dest)) == v
    requires if x.Some? then x.value in t && dest == t[x.value] else dest > |t|
    ensures Represents(t, if x.Some? then st[x.value := v] else st, b)
  {
    ZeroTaken(|t|, p);
  }

  /** A PUSH is observed with its value, and leaves the variables alone. */
  lemma PushRuns(env: Env, n: nat, r: nat, d: Data)
    requires PushesQuietly(env)
    ensures var f := Exec(env, n, Instr(PUSH, Idx(r), NULL, NULL), d);
            && f.Fall? && f.d.catches == d.catches && Pushes(f.d.trace, d.trace, [Get(d.regs, Idx(r))])
            && forall q: nat :: q <= n ==> Get(f.d.regs, Idx(q)) == Get(d.regs, Idx(q))
  {
    var i := Instr(PUSH, Idx(r), NULL, NULL);
    assert ArgValues(i, d) == [Get(d.regs, Idx(r))];
    OwnVars(d.regs, n);
  }

  lemma ArgumentsUnfold(args: seq<Expr>, t: Table, c: CallCode)
    requires args != []
    ensures CompileArguments(args, t, c)
            == CompileArguments(args[..|args| - 1], t, NextCode(args[|args| - 1], t, c))
  {
  }

  lemma ArgumentsNone(t: Table, c: CallCode)
    ensures CompileArguments([], t, c) == c && CompileArguments([], t, c.(code := [])) == c.(code := [])
    ensures c.code + [] == c.code
  {
  }

  lemma {:induction false} ResultKept(args: seq<Expr>, t: Table, c: CallCode)
    ensures CompileArguments(args, t, c).result == c.result
    decreases |args|
  {
    if args != [] {
      ArgumentsUnfold(args, t, c);
      ResultKept(args[..|args| - 1], t, NextCode(args[|args| - 1], t, c));
    }
  }

  /** The code of the arguments after that of c. */
  lemma {:induction false} ArgumentsAppend(args: seq<Expr>, t: Table, c: CallCode)
    ensures var a, b := CompileArguments(args, t, c), CompileArguments(args, t, c.(code := []));
            a == b.(code := c.code + b.code)
    decreases |args|
  {
    hide CompileArguments, CompileExpr;
    if args == [] {
      ArgumentsNone(t, c);
    } else {
      var e, rest := args[|args| - 1], args[..|args| - 1];
      var d, d' := NextCode(e, t, c), NextCode(e, t, c.(code := []));
      ArgumentsUnfold(args, t, c);
      ArgumentsUnfold(args, t, c.(code := []));
      ArgumentsAppend(rest, t, d);
      ArgumentsAppend(rest, t, d');
      assert d == d'.(code := c.code + d'.code);
    }
  }

  lemma PushesMore(a: seq<Observation>, b: seq<Observation>, c: seq<Observation>, v: real, vs: seq<real>)
    requires Pushes(b, a, [v]) && Pushes(c, b, vs)
    ensures Pushes(c, a, vs + [v])
  {
    assert c[..|a|] == c[..|b|][..|a|];
    assert c[|a|] == b[|a|];
  }

  /** The emitted code passes arguments the way PassAll does. */
  lemma {:induction false} ArgumentsPass(env: Env, args: seq<Expr>, x: Option<string>, t: Table, c: CallCode,
                                         st: Store, d: Data)
    requires PushesQuietly(env) && AllPure(args, t.Keys) && Numbering(t) && Asks(c, x, t) && c.code == []
    requires Represents(t, st, d.regs)
    ensures AllPure(args, st.Keys) && (x.Some? ==> x.value in st)
    ensures Passes(RunLine(env, |t|, CompileArguments(args, t, c).code, d), PassAll(args, x, st), t, d)
    decreases |args|
  {
    hide Represents, Numbering, CompileExpr, Asks, RunLine, Eval, Pushes;
    assert t.Keys == st.Keys by {
      SameNames(t, st, d);
    }
    NextAsked(c, x, t);
    if args == [] {
      NothingPushed(d.trace);
      NothingRuns(env, |t|, d);
    } else {
      var e, rest := args[|args| - 1], args[..|args| - 1];
      assert rest + [e] == args;
      var next := NextCode(e, t, c);
      var first := next.code;
      NextAsks(e, x, t, c);
      OneArgument(env, e, x, t, c, st, d);
      var o := CompileExpr(e, c.next, t, c.pool);
      assert first == o.code + [Instr(PUSH, Idx(o.reg), NULL, NULL)];
      ArgumentsAppend(rest, t, next);
      var others := CompileArguments(rest, t, next.(code := [])).code;
      RunLineConcat(env, |t|, first, others, d);
      var f := RunLine(env, |t|, first, d);
      if f.Fall? {
        NextAsked(next, NextOf(e, x), t);
        var v := Eval(e, st).v;
        var st' := Stored(e, x, v, st);
        ArgumentsPass(env, rest, NextOf(e, x), t, next.(code := []), st', f.d);
        var r := PassAll(rest, NextOf(e, x), st');
        if r.Passed? {
          PushesMore(d.trace, f.d.trace, RunLine(env, |t|, others, f.d).d.trace, v, r.values);
        }
      }
    }
  }

  lemma SameNames(t: Table, st: Store, d: Data)
    requires Represents(t, st, d.regs)
    ensures t.Keys == st.Keys
  {
  }

  lemma NextAsked(c: CallCode, x: Option<string>, t: Table)
    requires Asks(c, x, t)
    ensures Asks(c.(code := []), x, t) && (x.Some? ==> x.value in t)
  {
  }

  lemma NothingPushed(trace: seq<Observation>)
    ensures Pushes(trace, trace, [])
  {
  }

  lemma NothingRuns(env: Env, n: nat, d: Data)
    ensures RunLine(env, n, [], d) == Fall(d)
  {
  }

  // ----- when it is noticed -----

  function Reads(e: Expr): set<string> {
    match e
    case Ident(x) => {x}
    case Binary(_, l, r) => Reads(l) + Reads(r)
    case _ => {}
  }

  /** The variable an argument is stored into. */
  function Hit(e: Expr, x: Option<string>): set<string> { if e.Ident? || x.None? then {} else {x.value} }

  /** No argument reads a variable that the code of a later one has overwritten; those in hit are
      overwritten already, and the last argument is asked to be left in x. */
  predicate Harmless(args: seq<Expr>, hit: set<string>, x: Option<string>)
    decreases |args|
  {
    args == [] ||
    var e := args[|args| - 1];
    Reads(e) !! hit && Harmless(args[..|args| - 1], hit + Hit(e, x), NextOf(e, x))
  }

  /** Argument j, no bare variable, is stored into bare variable k, the first after it. */
  predicate Lands(args: seq<Expr>, j: nat, k: nat)
    requires j < k < |args|
  {
    !args[j].Ident? && args[k].Ident? && forall m :: j < m < k ==> !args[m].Ident?
  }

  /** ... and argument i, to the left, reads that variable. */
  predicate Harms(args: seq<Expr>, i: nat, j: nat, k: nat)
    requires i < j < k < |args|
  {
    Lands(args, j, k) && args[k].name in Reads(args[i])
  }

  function NextAfter(args: seq<Expr>, m: nat): Option<string>
    requires m <= |args|
    decreases |args| - m
  {
    if m == |args| then None else NextOf(args[m], NextAfter(args, m + 1))
  }

  function HitsAfter(args: seq<Expr>, m: nat): set<string>
    requires m <= |args|
    decreases |args| - m
  {
    if m == |args| then {} else HitsAfter(args, m + 1) + Hit(args[m], NextAfter(args, m + 1))
  }

  lemma {:induction false} NextMeans(args: seq<Expr>, m: nat, x: string)
    requires m <= |args|
    ensures NextAfter(args, m) == Some(x) <==>
            exists k :: m <= k < |args| && args[k] == Ident(x) && forall l :: m <= l < k ==> !args[l].Ident?
    decreases |args| - m
  {
    if m < |args| {
      NextMeans(args, m + 1, x);
      if args[m].Ident? {
        assert args[m] == Ident(args[m].name);
      } else if k :| m + 1 <= k < |args| && args[k] == Ident(x) && forall l :: m + 1 <= l < k ==> !args[l].Ident? {
        assert m <= k < |args| && args[k] == Ident(x) && forall l :: m <= l < k ==> !args[l].Ident?;
      }
    }
  }

  lemma {:induction false} HitsMean(args: seq<Expr>, m: nat, x: string)
    requires m <= |args|
    ensures x in HitsAfter(args, m) <==>
            exists j, k :: m <= j < k < |args| && Lands(args, j, k) && args[k].name == x
    decreases |args| - m
  {
    if m < |args| {
      HitsMean(args, m + 1, x);
      NextMeans(args, m + 1, x);
      if x in HitsAfter(args, m) && x !in HitsAfter(args, m + 1) {
        var k :| m + 1 <= k < |args| && args[k] == Ident(x) && forall l :: m + 1 <= l < k ==> !args[l].Ident?;
        assert Lands(args, m, k);
      }
      if j, k :| m <= j < k < |args| && Lands(args, j, k) && args[k].name == x {
        if j == m {
          assert args[k] == Ident(x);
        }
      }
    }
  }

  lemma {:induction false} HarmlessAt(args: seq<Expr>, m: nat)
    requires m <= |args|
    ensures Harmless(args[..m], HitsAfter(args, m), NextAfter(args, m)) <==>
            forall i :: 0 <= i < m ==> Reads(args[i]) !! HitsAfter(args, i + 1)
    decreases m
  {
    if m > 0 {
      assert args[..m][..m - 1] == args[..m - 1] && args[..m][m - 1] == args[m - 1];
      HarmlessAt(args, m - 1);
    }
  }

  lemma HarmIsHit(args: seq<Expr>, i: nat, j: nat, k: nat)
    requires i < j < k < |args| && Harms(args, i, j, k)
    ensures !(Reads(args[i]) !! HitsAfter(args, i + 1))
  {
    HitsMean(args, i + 1, args[k].name);
    assert args[k].name in HitsAfter(args, i + 1);
  }

  lemma HitIsHarm(args: seq<Expr>, i: nat) returns (j: nat, k: nat)
    requires i < |args| && !(Reads(args[i]) !! HitsAfter(args, i + 1))
    ensures i < j < k < |args| && Harms(args, i, j, k)
  {
    var x :| x in Reads(args[i]) && x in HitsAfter(args, i + 1);
    HitsMean(args, i + 1, x);
    j, k :| i + 1 <= j < k < |args| && Lands(args, j, k) && args[k].name == x;
  }

  /** Harmless means what it says of positions: no argument reads a variable that one between it
      and that variable's bare occurrence is stored into. */
  lemma HarmlessMeans(args: seq<Expr>)
    ensures Harmless(args, {}, None) <==>
            !exists i, j, k :: 0 <= i < j < k < |args| && Harms(args, i, j, k)
  {
    hide Harms, Reads, HitsAfter;
    assert HitsAfter(args, |args|) == {} && NextAfter(args, |args|) == None by {
      NoneAfter(args);
    }
    HarmlessAt(args, |args|);
    assert args[..|args|] == args;
    if i, j, k :| 0 <= i < j < k < |args| && Harms(args, i, j, k) {
      HarmIsHit(args, i, j, k);
    }
    if i :| 0 <= i < |args| && !(Reads(args[i]) !! HitsAfter(args, i + 1)) {
      var j, k := HitIsHarm(args, i);
    }
  }

  lemma NoneAfter(args: seq<Expr>)
    ensures HitsAfter(args, |args|) == {} && NextAfter(args, |args|) == None
  {
  }

  // ----- harmless arguments arrive -----

  predicate SameValues(r: Passing, s: Passing) {
    match r
    case Passed(vs, _) => s.Passed? && s.values == vs
    case Stopped(v) => s == r
  }

  lemma {:induction false} EvalReads(e: Expr, st: Store, st': Store)
    requires Pure(e) && Scoped(e, st.Keys) && st'.Keys == st.Keys
    requires forall z :: z in Reads(e) && z in st ==> st'[z] == st[z]
    ensures Eval(e, st') == Eval(e, st)
  {
    if e.Binary? {
      EvalReads(e.left, st, st');
      EvalReads(e.right, st, st');
    }
  }

  function With(r: Passing, v: real): Passing { if r.Passed? then Passed(r.values + [v], r.st) else r }

  lemma PassUnfolds(args: seq<Expr>, x: Option<string>, st: Store)
    requires args != [] && AllPure(args, st.Keys) && (x.Some? ==> x.value in st)
    ensures var e, rest := args[|args| - 1], args[..|args| - 1];
            && Pure(e) && Scoped(e, st.Keys) && AllPure(rest, st.Keys)
            && (NextOf(e, x).Some? ==> NextOf(e, x).value in st)
            && PassAll(args, x, st)
               == if !Eval(e, st).Is? then Stopped(Eval(e, st))
                  else With(PassAll(rest, NextOf(e, x), Stored(e, x, Eval(e, st).v, st)), Eval(e, st).v)
    ensures var e, rest := args[|args| - 1], args[..|args| - 1];
            MeanAll(args, st)
            == if !Eval(e, st).Is? then Stopped(Eval(e, st)) else With(MeanAll(rest, st), Eval(e, st).v)
  {
  }

  lemma SameWith(r: Passing, s: Passing, v: real, w: real)
    ensures r.Passed? && s.Passed? ==>
      (SameValues(With(r, v), With(s, w)) <==> SameValues(r, s) && v == w)
    ensures !(r.Passed? && s.Passed?) ==> (SameValues(With(r, v), With(s, w)) <==> SameValues(r, s))
  {
    if r.Passed? && s.Passed? && r.values + [v] == s.values + [w] {
      assert r.values == (r.values + [v])[..|r.values|] && s.values == (s.values + [w])[..|s.values|];
      assert (r.values + [v])[|r.values|] == v && (s.values + [w])[|s.values|] == w;
    }
  }

  lemma {:induction false} HarmlessArrive(args: seq<Expr>, hit: set<string>, x: Option<string>, st: Store, st': Store)
    requires AllPure(args, st.Keys) && st'.Keys == st.Keys && (x.Some? ==> x.value in st)
    requires Harmless(args, hit, x) && forall z :: z in st && z !in hit ==> st'[z] == st[z]
    ensures SameValues(PassAll(args, x, st'), MeanAll(args, st))
    decreases |args|
  {
    hide Eval, Reads, PassAll, MeanAll, Pure, Scoped;
    if args == [] {
      NoneArrive(x, st, st');
    } else {
      var e, rest := args[|args| - 1], args[..|args| - 1];
      PassUnfolds(args, x, st');
      PassUnfolds(args, x, st);
      EvalReads(e, st, st');
      var v := Eval(e, st);
      if v.Is? {
        HarmlessArrive(rest, hit + Hit(e, x), NextOf(e, x), st, Stored(e, x, v.v, st'));
        SameWith(PassAll(rest, NextOf(e, x), Stored(e, x, v.v, st')), MeanAll(rest, st), v.v, v.v);
      }
    }
  }

  lemma NoneArrive(x: Option<string>, st: Store, st': Store)
    requires (x.Some? ==> x.value in st) && st'.Keys == st.Keys
    ensures SameValues(PassAll([], x, st'), MeanAll([], st))
  {
  }

  lemma IdentScoped(e: Expr, names: set<string>)
    requires Scoped(e, names)
    ensures e.Ident? ==> e.name in names
  {
  }

  // ----- harmful ones do not -----

  /** The operands of an expression, whatever its operators and numbers. */
  function Operands(e: Expr): Expr {
    match e
    case Number(_) => Number(2.0)
    case Binary(_, l, r) => Binary(Plus, Operands(l), Operands(r))
    case _ => e
  }

  function AllOperands(args: seq<Expr>): (r: seq<Expr>)
    ensures |r| == |args|
  {
    seq(|args|, (k: nat) requires k < |args| => Operands(args[k]))
  }

  /** Argument lists that differ in operators and numbers only. */
  predicate Alike(a: seq<Expr>, b: seq<Expr>) { AllOperands(a) == AllOperands(b) }

  lemma {:induction false} OperandsKeep(e: Expr)
    ensures Reads(Operands(e)) == Reads(e) && Operands(e).Ident? == e.Ident? && (e.Ident? ==> Operands(e) == e)
    ensures Operands(Operands(e)) == Operands(e)
    ensures forall names :: Pure(e) && Scoped(e, names) ==> Pure(Operands(e)) && Scoped(Operands(e), names)
    ensures forall names :: Pure(Operands(e)) && Scoped(Operands(e), names) ==> Pure(e) && Scoped(e, names)
  {
    if e.Binary? {
      OperandsKeep(e.left);
      OperandsKeep(e.right);
    }
  }

  lemma {:induction false} AlikeHarmless(a: seq<Expr>, b: seq<Expr>, hit: set<string>, x: Option<string>)
    requires Alike(a, b)
    ensures Harmless(a, hit, x) <==> Harmless(b, hit, x)
    decreases |a|
  {
    hide Reads, Operands;
    assert |AllOperands(a)| == |AllOperands(b)|;
    if a != [] {
      var m := |a| - 1;
      assert AllOperands(a)[m] == AllOperands(b)[m];
      OperandsKeep(a[m]);
      OperandsKeep(b[m]);
      assert AllOperands(a[..m]) == AllOperands(a)[..m] == AllOperands(b)[..m] == AllOperands(b[..m]);
      AlikeHarmless(a[..m], b[..m], hit + Hit(a[m], x), NextOf(a[m], x));
    }
  }

  /** Sums of variables and twos: at least 1 where all variables are, and more with more. */
  lemma {:induction false} OperandsGrow(e: Expr, st: Store, st': Store)
    requires Pure(e) && Scoped(e, st.Keys) && st'.Keys == st.Keys
    requires forall z :: z in st ==> 1.0 == st[z] <= st'[z]
    ensures var o := Operands(e);
            Pure(o) && Scoped(o, st.Keys)
    ensures var v, v' := Eval(Operands(e), st), Eval(Operands(e), st');
            && v.Is? && v'.Is? && 1.0 <= v.v <= v'.v
            && (!e.Ident? ==> v.v > 1.0)
            && ((exists z :: z in Reads(e) && z in st && st'[z] > 1.0) ==> v.v < v'.v)
  {
    if e.Binary? {
      OperandsGrow(e.left, st, st');
      OperandsGrow(e.right, st, st');
    }
  }

  lemma {:induction false} HarmfulDiffer(args: seq<Expr>, hit: set<string>, x: Option<string>, st: Store, st': Store)
    requires AllPure(args, st.Keys) && AllPure(AllOperands(args), st.Keys)
    requires st'.Keys == st.Keys && (x.Some? ==> x.value in st) && hit <= st.Keys
    requires forall z :: z in st ==> 1.0 == st[z] <= st'[z] && (z in hit ==> st'[z] > 1.0)
    requires !Harmless(args, hit, x)
    ensures !SameValues(PassAll(AllOperands(args), x, st'), MeanAll(AllOperands(args), st))
    decreases |args|
  {
    hide Eval, Reads, Operands, Pure, Scoped, PassAll, MeanAll;
    var ops := AllOperands(args);
    var m := |args| - 1;
    var e := args[m];
    OperandsGrow(e, st, st');
    OperandsKeep(e);
    assert ops[m] == Operands(e) && ops[..m] == AllOperands(args[..m]);
    PassUnfolds(ops, x, st');
    PassUnfolds(ops, x, st);
    PassUnfolds(args, x, st);
    var v, v' := Eval(ops[m], st), Eval(ops[m], st');
    SameWith(PassAll(ops[..m], NextOf(ops[m], x), Stored(ops[m], x, v'.v, st')), MeanAll(ops[..m], st), v'.v, v.v);
    if Reads(e) !! hit {
      HarmfulDiffer(args[..m], hit + Hit(e, x), NextOf(e, x), st, Stored(e, x, v'.v, st'));
    } else {
      var z :| z in Reads(e) && z in hit;
      assert v.v < v'.v;
      NeverStops(ops[..m], NextOf(ops[m], x), st, Stored(ops[m], x, v'.v, st'), args[..m]);
    }
  }

  /** Sums are always numbers. */
  lemma {:induction false} NeverStops(ops: seq<Expr>, x: Option<string>, st: Store, st': Store, args: seq<Expr>)
    requires ops == AllOperands(args) && AllPure(args, st.Keys) && AllPure(ops, st.Keys)
    requires st'.Keys == st.Keys && (x.Some? ==> x.value in st)
    requires forall z :: z in st ==> 1.0 == st[z] <= st'[z]
    ensures PassAll(ops, x, st').Passed? && MeanAll(ops, st).Passed?
    decreases |ops|
  {
    hide Eval, Operands, Pure, Scoped, Reads;
    if ops != [] {
      var m := |args| - 1;
      PassUnfolds(ops, x, st');
      PassUnfolds(args, x, st);
      OperandsGrow(args[m], st, st');
      assert ops[..m] == AllOperands(args[..m]);
      NeverStops(ops[..m], NextOf(ops[m], x), st, Stored(ops[m], x, Eval(ops[m], st').v, st'), args[..m]);
    }
  }

  // ----- exactly when they arrive -----

  /** From every store, the emitted code pushes what the arguments mean in it, or raises when one
      of them does. */
  ghost predicate Arrive(env: Env, args: seq<Expr>, dest: nat, t: Table, p: Pool)
    requires AllPure(args, t.Keys)
  {
    forall st: Store, d: Data :: Represents(t, st, d.regs) ==>
      Brings(RunLine(env, |t|, CompileArguments(args, t, BeginCall(dest, t, p)).code, d), MeanAll(args, st), d)
  }

  ghost predicate Brings(f: Effect, r: Passing, d: Data) {
    match r
    case Passed(vs, _) => f.Fall? && Pushes(f.d.trace, d.trace, vs)
    case Stopped(Fails) => f.Raise? && f.fault == DivideByZero
    case Stopped(_) => f.Escape?
  }

  lemma PassesBrings(f: Effect, r: Passing, s: Passing, t: Table, d: Data)
    requires Passes(f, r, t, d)
    ensures SameValues(r, s) ==> Brings(f, s, d)
    ensures r.Passed? && s.Passed? && Brings(f, s, d) ==> SameValues(r, s)
  {
    if r.Passed? && s.Passed? && Brings(f, s, d) {
      assert |r.values| == |s.values|;
      forall k | 0 <= k < |r.values|
        ensures r.values[k] == s.values[k]
      {
        assert IsPush(f.d.trace[|f.d.trace| - 1 - k], r.values[k]);
      }
    }
  }

  lemma CodePasses(env: Env, args: seq<Expr>, dest: nat, t: Table, p: Pool, st: Store, d: Data)
    requires PushesQuietly(env) && AllPure(args, t.Keys) && Numbering(t) && Represents(t, st, d.regs)
    ensures AllPure(args, st.Keys)
    ensures Passes(RunLine(env, |t|, CompileArguments(args, t, BeginCall(dest, t, p)).code, d), PassAll(args, None, st),
                   t, d)
  {
    hide Represents, Numbering, CompileArguments, PassAll, RunLine;
    BeginAsks(dest, t, p);
    ArgumentsPass(env, args, None, t, BeginCall(dest, t, p), st, d);
  }

  lemma HarmlessIsEnough(env: Env, args: seq<Expr>, dest: nat, t: Table, p: Pool)
    requires PushesQuietly(env) && AllPure(args, t.Keys) && Numbering(t) && Harmless(args, {}, None)
    ensures Arrive(env, args, dest, t, p)
  {
    hide Numbering, CompileArguments, PassAll, MeanAll, RunLine, Passes, Brings, Harmless, SameValues;
    forall st: Store, d: Data | Represents(t, st, d.regs)
      ensures Brings(RunLine(env, |t|, CompileArguments(args, t, BeginCall(dest, t, p)).code, d), MeanAll(args, st), d)
    {
      CodePasses(env, args, dest, t, p, st, d);
      HarmlessArrive(args, {}, None, st, st);
      PassesBrings(RunLine(env, |t|, CompileArguments(args, t, BeginCall(dest, t, p)).code, d),
                   PassAll(args, None, st), MeanAll(args, st), t, d);
    }
  }

  function Ones(t: Table): Store { map x | x in t :: 1.0 }

  function OnesData(t: Table): Data { Data(map r | r in UpTo(|t|) :: 1.0, [], []) }

  lemma OnesRepresent(t: Table)
    requires Numbering(t)
    ensures Represents(t, Ones(t), OnesData(t).regs)
  {
    UpToSize(|t|);
  }

  lemma HarmfulIsNoticed(env: Env, args: seq<Expr>, dest: nat, t: Table, p: Pool)
    requires PushesQuietly(env) && AllPure(args, t.Keys) && Numbering(t) && !Harmless(args, {}, None)
    ensures Alike(args, AllOperands(args)) && AllPure(AllOperands(args), t.Keys)
    ensures !Arrive(env, AllOperands(args), dest, t, p)
  {
    hide Represents, Numbering, CompileArguments, PassAll, MeanAll, RunLine, Passes, Brings, Harmless, SameValues,
         Operands;
    var ops, st, d := AllOperands(args), Ones(t), OnesData(t);
    forall k | 0 <= k < |args|
      ensures AllOperands(ops)[k] == ops[k] && Pure(ops[k]) && Scoped(ops[k], t.Keys)
    {
      assert args[k] in args;
      OperandsKeep(args[k]);
    }
    OnesRepresent(t);
    assert st.Keys == t.Keys;
    CodePasses(env, ops, dest, t, p, st, d);
    HarmfulDiffer(args, {}, None, st, st);
    NeverStops(ops, None, st, st, args);
    PassesBrings(RunLine(env, |t|, CompileArguments(ops, t, BeginCall(dest, t, p)).code, d),
                 PassAll(ops, None, st), MeanAll(ops, st), t, d);
  }

  /** The arguments of a call arrive, for every choice of operators and numbers in them and from
      every store, if and only if no argument reads a bare variable that one standing between
      them is computed into. */
  lemma ArgumentsExact(env: Env, args: seq<Expr>, dest: nat, t: Table, p: Pool)
    requires PushesQuietly(env) && AllPure(args, t.Keys) && Numbering(t)
    ensures (forall b :: Alike(args, b) && AllPure(b, t.Keys) ==> Arrive(env, b, dest, t, p))
            <==> !exists i, j, k :: 0 <= i < j < k < |args| && Harms(args, i, j, k)
  {
    hide Arrive, Harmless, Numbering, PushesQuietly, Alike, Harms;
    HarmlessMeans(args);
    if Harmless(args, {}, None) {
      forall b | Alike(args, b) && AllPure(b, t.Keys)
        ensures Arrive(env, b, dest, t, p)
      {
        AlikeHarmless(args, b, {}, None);
        HarmlessIsEnough(env, b, dest, t, p);
      }
    } else {
      HarmfulIsNoticed(env, args, dest, t, p);
    }
  }

  /** f(x, 1, x): the callee's first argument is 1. */
  lemma FirstTurnsOne(x: string, st: Store)
    requires x in st
    ensures var args := [Ident(x), Number(1.0), Ident(x)];
            && AllPure(args, st.Keys) && Harms(args, 0, 1, 2)
            && PassAll(args, None, st) == Passed([1.0, 1.0, st[x]], st[x := 1.0])
            && MeanAll(args, st) == Passed([st[x], 1.0, st[x]], st)
  {
    var args := [Ident(x), Number(1.0), Ident(x)];
    assert args[..2] == [Ident(x), Number(1.0)] && args[..2][..1] == [Ident(x)] && args[..2][..1][..0] == [];
    assert PassAll([Ident(x)], Some(x), st[x := 1.0]) == Passed([1.0], st[x := 1.0]);
    assert MeanAll([Ident(x)], st) == Passed([st[x]], st);
  }

  /** f(x, x + 0, x): the condition is about what is read and written, and this list happens to
      arrive although it fails it. Others with the same operands do not. */
  lemma HappensToArrive(x: string, st: Store)
    requires x in st
    ensures var args := [Ident(x), Binary(Plus, Ident(x), Number(0.0)), Ident(x)];
            && AllPure(args, st.Keys) && Harms(args, 0, 1, 2)
            && SameValues(PassAll(args, None, st), MeanAll(args, st))
  {
    var args := [Ident(x), Binary(Plus, Ident(x), Number(0.0)), Ident(x)];
    assert Pure(args[1].left) && Pure(args[1].right) && Scoped(args[1].left, st.Keys);
    assert args[..2] == [args[0], args[1]] && args[..2][..1] == [args[0]] && args[..2][..1][..0] == [];
    assert Eval(args[1].left, st) == Is(st[x]) && Eval(args[1].right, st) == Is(0.0);
    assert Eval(args[1], st) == Is(st[x]);
    assert st[x := st[x]] == st;
    assert PassAll([args[0]], Some(x), st) == Passed([st[x]], st) && MeanAll([args[0]], st) == Passed([st[x]], st);
    assert PassAll([args[0], args[1]], Some(x), st).values == [st[x]] + [st[x]];
  }
}
