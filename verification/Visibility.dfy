/** Which functions and variables the address calculator meets (src/compiler/AddressCalculator.cpp:56-84).
    It does not visit the bodies of try statements: a function defined there is compiled without a
    table, and a variable declared there has no register but the one for null. */
module Visibility {
  import opened Options
  import opened Bytecode
  import opened Machine
  import opened Registers
  import opened Source
  import opened Symbols
  import opened Codegen
  import opened ExprProof
  import opened StmtProof
  import opened WholeProgram

  // ----- functions -----

  /** The definitions the walk meets, in the order it meets them. */
  function Seen(ss: seq<Stmt>): seq<Function>
    decreases ss, 0
  {
    if ss == [] then [] else SeenIn(ss[0]) + Seen(ss[1..])
  }

  function SeenIn(s: Stmt): seq<Function>
    decreases s, 1
  {
    match s
    case Define(f) => [f] + Seen(f.body)
    case Block(b) => Seen(b)
    case If(_, t, hasElse, e) => if hasElse then Seen(t) + Seen(e) else Seen(t)
    case Loop(_, _, _, b) => Seen(b)
    case _ => []
  }

  /** The definitions that are compiled without having been met. */
  function Missed(ss: seq<Stmt>): seq<Function>
    decreases ss, 0
  {
    if ss == [] then [] else MissedIn(ss[0]) + Missed(ss[1..])
  }

  function MissedIn(s: Stmt): seq<Function>
    decreases s, 1
  {
    match s
    case Define(f) => Missed(f.body)
    case Block(b) => Missed(b)
    case If(_, t, hasElse, e) => if hasElse then Missed(t) + Missed(e) else Missed(t)
    case Loop(_, _, _, b) => Missed(b)
    case Try(_, _, _, _, _) => Flat(LaterIn(s))
    case _ => []
  }

  lemma {:induction false} FlatConcat(a: seq<Function>, b: seq<Function>)
    ensures Flat(a + b) == Flat(a) + Flat(b)
    decreases |a|
  {
    if a == [] {
      assert a + b == b;
    } else {
      assert (a + b)[0] == a[0] && (a + b)[1..] == a[1..] + b;
      FlatConcat(a[1..], b);
    }
  }

  lemma FlatOne(f: Function)
    ensures Flat([f]) == [f] + Flat(Later(f.body))
  {
    assert [f][1..] == [];
  }

  /** Every definition that is compiled is met or missed, once. */
  lemma {:induction false} SeenOrMissed(ss: seq<Stmt>)
    ensures multiset(Flat(Later(ss))) == multiset(Seen(ss)) + multiset(Missed(ss))
    decreases ss, 0
  {
    hide Flat, SeenIn, MissedIn, LaterIn;
    if ss == [] {
      NoneFlat();
    } else {
      FlatConcat(LaterIn(ss[0]), Later(ss[1..]));
      SeenOrMissedIn(ss[0]);
      SeenOrMissed(ss[1..]);
    }
  }

  lemma NoneFlat()
    ensures Flat([]) == []
  {
  }

  lemma {:induction false} SeenOrMissedIn(s: Stmt)
    ensures multiset(Flat(LaterIn(s))) == multiset(SeenIn(s)) + multiset(MissedIn(s))
    decreases s, 1
  {
    hide Flat, Seen, Missed, Later;
    NoneFlat();
    match s
    case Define(f) =>
      FlatOne(f);
      SeenOrMissed(f.body);
    case Block(b) => SeenOrMissed(b);
    case If(_, t, hasElse, e) =>
      SeenOrMissed(t);
      if hasElse {
        SeenOrMissed(e);
        FlatConcat(Later(t), Later(e));
      }
    case Loop(_, _, _, b) => SeenOrMissed(b);
    case _ =>
  }

  /** The tables the walk makes are those of the definitions it meets. */
  lemma {:induction false} SeenHaveTables(ss: seq<Stmt>, m: map<Function, Tables>, f: Function)
    ensures f in Nested(ss, m) <==> f in m || f in Seen(ss)
    decreases ss, 0
  {
    hide NestedIn, SeenIn;
    if ss != [] {
      SeenInHaveTables(ss[0], m, f);
      SeenHaveTables(ss[1..], NestedIn(ss[0], m), f);
    }
  }

  lemma {:induction false} SeenInHaveTables(s: Stmt, m: map<Function, Tables>, f: Function)
    ensures f in NestedIn(s, m) <==> f in m || f in SeenIn(s)
    decreases s, 1
  {
    hide Nested, Seen, FunctionTables;
    match s
    case Define(g) => SeenHaveTables(g.body, m, f);
    case Block(b) => SeenHaveTables(b, m, f);
    case If(_, t, hasElse, e) =>
      SeenHaveTables(t, m, f);
      if hasElse {
        SeenHaveTables(e, Nested(t, m), f);
      }
    case Loop(_, _, _, b) => SeenHaveTables(b, m, f);
    case _ =>
  }

  lemma FlatNone(fs: seq<Function>)
    ensures Flat(fs) == [] <==> fs == []
  {
  }

  /** Nothing is missed if and only if no function is defined inside a try statement. */
  lemma {:induction false} VisibleExact(ss: seq<Stmt>)
    ensures AllVisible(ss) <==> Missed(ss) == []
    decreases ss, 0
  {
    hide Visible, MissedIn;
    if ss != [] {
      VisibleInExact(ss[0]);
      VisibleExact(ss[1..]);
    }
  }

  lemma {:induction false} VisibleInExact(s: Stmt)
    ensures Visible(s) <==> MissedIn(s) == []
    decreases s, 1
  {
    hide Missed, Flat, LaterIn;
    match s
    case Define(f) => VisibleExact(f.body);
    case Block(b) => VisibleExact(b);
    case If(_, t, hasElse, e) =>
      VisibleExact(t);
      VisibleExact(e);
    case Loop(_, _, _, b) => VisibleExact(b);
    case Try(_, _, _, _, _) => FlatNone(LaterIn(s));
    case _ =>
  }

  lemma {:induction false} DistinctOnce(fs: seq<Function>, f: Function)
    requires Distinct(fs)
    ensures multiset(fs)[f] <= 1
    decreases |fs|
  {
    if fs != [] {
      assert fs == [fs[0]] + fs[1..];
      DistinctOnce(fs[1..], f);
      assert fs[0].name in NamePair(fs[0].name);
      if fs[0] == f && f in fs[1..] {
        NamesHave(fs[1..], f);
      }
    }
  }

  lemma {:induction false} NamesHave(fs: seq<Function>, f: Function)
    requires f in fs
    ensures f.name in NamesOf(fs)
    decreases |fs|
  {
    if fs[0] != f {
      NamesHave(fs[1..], f);
    }
  }

  /** Every function below the class has a table. */
  predicate AllVisited(c: Class) { forall f :: f in FunctionsOf(c) ==> f in Nested(c.body, map[]) }

  /** A function has no table exactly if the walk does not meet it. With distinct names, all
      functions of a class have one if and only if none is defined inside a try statement. */
  lemma VisitedExact(c: Class)
    ensures AllVisible(c.body) ==> AllVisited(c)
    ensures DistinctClass(c) ==> (AllVisited(c) <==> AllVisible(c.body))
  {
    hide Seen, Missed, Nested, Flat, Later, AllVisible, Distinct;
    var fs, seen, missed := FunctionsOf(c), Seen(c.body), Missed(c.body);
    SeenOrMissed(c.body);
    VisibleExact(c.body);
    forall f
      ensures f in Nested(c.body, map[]) <==> f in seen
      ensures f in fs <==> f in seen || f in missed
    {
      SeenHaveTables(c.body, map[], f);
      assert f in fs <==> f in multiset(fs);
    }
    if DistinctClass(c) && missed != [] {
      var f := missed[0];
      DistinctOnce(fs, f);
      assert multiset(fs)[f] == multiset(seen)[f] + multiset(missed)[f];
      assert f in missed && f in fs;
    }
  }

  const INNER: Function := Function("g", [], [], false, false)

  /** class C { try { function g() {} } catch (e) {} } */
  const HIDING: Class := Class("C", [], [Try([Define(INNER)], "e", [], false, [])])

  /** g is compiled, has no table, and is not the class's own name either: its reference is loaded
      into register 0. */
  lemma HiddenFunction()
    ensures DistinctClass(HIDING) && FunctionsOf(HIDING) == [INNER] && !AllVisible(HIDING.body)
    ensures INNER !in Nested(HIDING.body, map[]) && !AllVisited(HIDING)
    ensures LoadFunction(INNER, ClassTables(HIDING).symbols).r0 == NULL
  {
    var s := HIDING.body[0];
    assert HIDING.body[1..] == [] && s.body[1..] == [];
    assert Later(s.body) == [INNER] && Later(s.handler) == [];
    assert Later(HIDING.body) == LaterIn(s) + [] == [INNER];
    FlatOne(INNER);
    NoneFlat();
    assert Seen(HIDING.body) == [];
    SeenHaveTables(HIDING.body, map[], INNER);
    assert Distinct([INNER]) && "C" != "g" && "C" != "end" + "g" && "end" + "C" != "g" by {
      assert [INNER][1..] == [];
    }
    assert ("end" + "C")[3] == 'C' && ("end" + "g")[3] == 'g';
    assert NamesOf([INNER]) == NamePair("g") by {
      assert [INNER][1..] == [];
    }
    assert AddBody(Tables(AddName(map[], "this"), {}), HIDING.body).symbols == AddName(AddName(map[], "this"), "e");
  }

  // ----- variables -----

  /** x is declared in the statements, outside try bodies: as a variable, as a function, or as the
      exception of a try statement. */
  predicate Declares(ss: seq<Stmt>, x: string)
    decreases ss, 0
  {
    ss != [] && (DeclaresIn(ss[0], x) || Declares(ss[1..], x))
  }

  predicate DeclaresIn(s: Stmt, x: string)
    decreases s, 1
  {
    match s
    case Var(y, _, _) => x == y
    case Define(f) => x == f.name
    case Block(b) => Declares(b, x)
    case If(_, t, hasElse, e) => Declares(t, x) || (hasElse && Declares(e, x))
    case Loop(_, _, _, b) => Declares(b, x)
    case Try(_, y, _, _, _) => x == y
    case _ => false
  }

  lemma {:induction false} NamesOnly(t: Table, xs: seq<string>, x: string)
    ensures x in AddNames(t, xs) <==> x in t || x in xs
    decreases |xs|
  {
    if xs != [] {
      NamesOnly(AddName(t, xs[0]), xs[1..], x);
    }
  }

  lemma {:induction false} BodyDeclares(ts: Tables, ss: seq<Stmt>, x: string)
    ensures x in AddBody(ts, ss).symbols <==> x in ts.symbols || Declares(ss, x)
    decreases ss, 0
  {
    hide AddStmt, DeclaresIn;
    if ss != [] {
      StmtDeclares(ts, ss[0], x);
      BodyDeclares(AddStmt(ts, ss[0]), ss[1..], x);
    }
  }

  lemma {:induction false} StmtDeclares(ts: Tables, s: Stmt, x: string)
    ensures x in AddStmt(ts, s).symbols <==> x in ts.symbols || DeclaresIn(s, x)
    decreases s, 1
  {
    hide AddBody, Declares;
    match s
    case Block(b) => BodyDeclares(ts, b, x);
    case If(_, t, hasElse, e) =>
      BodyDeclares(ts, t, x);
      if hasElse {
        BodyDeclares(AddBody(ts, t), e, x);
      }
    case Loop(_, _, _, b) => BodyDeclares(ts, b, x);
    case _ =>
  }

  /** A name has no register in a function if and only if it is neither this, nor the function,
      nor a parameter, nor declared outside the bodies of its try statements. */
  lemma RegisterExact(f: Function, x: string)
    ensures RegisterOf(FunctionTables(f).symbols, x) == 0
            <==> x != "this" && x != f.name && x !in f.params && !Declares(f.body, x)
  {
    hide AddBody, AddNames;
    NamesOnly(AddName(AddName(map[], "this"), f.name), f.params, x);
    BodyDeclares(Header(f), f.body, x);
    FunctionNumbering(f);
  }

  /** x is declared private there. */
  predicate Hides(ss: seq<Stmt>, x: string)
    decreases ss, 0
  {
    ss != [] && (HidesIn(ss[0], x) || Hides(ss[1..], x))
  }

  predicate HidesIn(s: Stmt, x: string)
    decreases s, 1
  {
    match s
    case Var(y, _, isPrivate) => x == y && isPrivate
    case Define(f) => x == f.name && f.isPrivate
    case Block(b) => Hides(b, x)
    case If(_, t, hasElse, e) => Hides(t, x) || (hasElse && Hides(e, x))
    case Loop(_, _, _, b) => Hides(b, x)
    case _ => false
  }

  lemma {:induction false} BodyHides(ts: Tables, ss: seq<Stmt>, x: string)
    ensures x in AddBody(ts, ss).privates <==> x in ts.privates || Hides(ss, x)
    decreases ss, 0
  {
    hide AddStmt, HidesIn;
    if ss != [] {
      StmtHides(ts, ss[0], x);
      BodyHides(AddStmt(ts, ss[0]), ss[1..], x);
    }
  }

  lemma {:induction false} StmtHides(ts: Tables, s: Stmt, x: string)
    ensures x in AddStmt(ts, s).privates <==> x in ts.privates || HidesIn(s, x)
    decreases s, 1
  {
    hide AddBody, Hides;
    match s
    case Block(b) => BodyHides(ts, b, x);
    case If(_, t, hasElse, e) =>
      BodyHides(ts, t, x);
      if hasElse {
        BodyHides(AddBody(ts, t), e, x);
      }
    case Loop(_, _, _, b) => BodyHides(ts, b, x);
    case _ =>
  }

  /** A name is private to a class if and only if some declaration of it, a function's or a
      variable's outside the bodies of try statements, is; its parameters and this are not. */
  lemma PrivateExact(c: Class, x: string)
    ensures x in ClassTables(c).privates <==> Hides(c.body, x)
    ensures x in ClassTables(c).symbols <==> x == "this" || x in c.params || Declares(c.body, x)
  {
    hide AddBody, AddNames, Hides, Declares;
    var ts := Tables(AddNames(AddName(map[], "this"), c.params), {});
    BodyHides(ts, c.body, x);
    BodyDeclares(ts, c.body, x);
    NamesOnly(AddName(map[], "this"), c.params, x);
  }

  /** Declaring a variable that has no register overwrites the null register, which every return
      without a value reads: with any value but null, a later return of null returns that value. */
  lemma VarOverwritesNull(env: Env, x: string, v: Expr, isPrivate: bool, t: Table, ends: seq<string>, p: Pool, n: nat,
                          st: Store, d: Data)
    requires RegisterOf(t, x) == 0 && Pure(v) && Scoped(v, t.Keys) && Numbering(t) && Represents(t, st, d.regs)
    requires Eval(v, st).Is?
    ensures var f := RunLine(env, |t|, CompileStmt(Var(x, v, isPrivate), t, ends, p, n).code, d);
            && f.Fall? && Get(f.d.regs, NULL) == Eval(v, st).v
            && Exec(env, |t|, RETURN_NULL, f.d) == Leave(Eval(v, st).v, f.d)
  {
    hide Free, RunLine, Eval, CompileExpr;
    var o := CompileExpr(v, 0, t, p);
    var move := Instr(MOV, Idx(0), Idx(o.reg), NULL);
    ZeroTaken(|t|, p);
    ExprPool(v, 0, t, p);
    ExprComputes(env, v, 0, t, p, st, d);
    RunLineConcat(env, |t|, o.code, [move], d);
    RunLineOne(env, |t|, move, RunLine(env, |t|, o.code, d).d);
  }

  const LEAKING: Function := Function("f", [], [Try([Var("x", Number(5.0), false)], "e", [], false, [])], false, false)

  /** f() { try { var x = 5; } catch (e) {} }: x has no register. */
  lemma LeakingVariable()
    ensures RegisterOf(FunctionTables(LEAKING).symbols, "x") == 0
  {
    assert LEAKING.body[1..] == [];
    RegisterExact(LEAKING, "x");
  }
}
