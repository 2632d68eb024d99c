/** Register numbering of a function's names (src/compiler/AddressCalculator.cpp). */
module Symbols {
  import opened Source

  type Table = map<string, nat>

  /** The symbol and private tables of one function. */
  datatype Tables = Tables(symbols: Table, privates: set<string>)

  const EMPTY: Tables := Tables(map[], {})

  /** The table's names are numbered 1..size, one number each. */
  ghost predicate Numbering(t: Table) {
    && (forall x :: x in t ==> 1 <= t[x] <= |t|)
    && (forall x, y :: x in t && y in t && t[x] == t[y] ==> x == y)
  }

  /** The first insertion of a name decides its number. */
  function AddName(t: Table, x: string): Table { if x in t then t else t[x := |t| + 1] }

  function AddNames(t: Table, xs: seq<string>): Table
    decreases |xs|
  {
    if xs == [] then t else AddNames(AddName(t, xs[0]), xs[1..])
  }

  function Declare(ts: Tables, x: string, isPrivate: bool): Tables {
    Tables(AddName(ts.symbols, x), if isPrivate then ts.privates + {x} else ts.privates)
  }

  /** The names a statement adds to the function it stands in. The bodies of a try statement
      are not visited, only its exception's name is added. */
  function AddStmt(ts: Tables, s: Stmt): Tables
    decreases s, 1
  {
    match s
    case Define(f) => Declare(ts, f.name, f.isPrivate)
    case Loop(_, _, _, b) => AddBody(ts, b)
    case Block(b) => AddBody(ts, b)
    case If(_, t, hasElse, e) => if hasElse then AddBody(AddBody(ts, t), e) else AddBody(ts, t)
    case Var(x, _, isPrivate) => Declare(ts, x, isPrivate)
    case Try(_, x, _, _, _) => ts.(symbols := AddName(ts.symbols, x))
    case _ => ts
  }

  function AddBody(ts: Tables, ss: seq<Stmt>): Tables
    decreases ss, 0
  {
    if ss == [] then ts else AddBody(AddStmt(ts, ss[0]), ss[1..])
  }

  /** this, the function itself, its parameters, and the names of its body. */
  function Header(f: Function): Tables {
    Tables(AddNames(AddName(AddName(map[], "this"), f.name), f.params), {})
  }

  function FunctionTables(f: Function): Tables { AddBody(Header(f), f.body) }

  lemma {:induction false} AddNameKeeps(t: Table, x: string)
    requires Numbering(t)
    ensures Numbering(AddName(t, x)) && x in AddName(t, x)
    ensures forall y :: y in t ==> y in AddName(t, x) && AddName(t, x)[y] == t[y]
  {
  }

  lemma {:induction false} AddNamesKeeps(t: Table, xs: seq<string>)
    requires Numbering(t)
    ensures Numbering(AddNames(t, xs))
    ensures forall y :: y in t ==> y in AddNames(t, xs) && AddNames(t, xs)[y] == t[y]
    decreases |xs|
  {
    if xs != [] {
      AddNameKeeps(t, xs[0]);
      AddNamesKeeps(AddName(t, xs[0]), xs[1..]);
    }
  }

  /** Tables with the same numbers for the names there were, and every private name numbered. */
  ghost predicate Grows(ts: Tables, ts': Tables) {
    && Numbering(ts'.symbols)
    && (forall y :: y in ts.symbols ==> y in ts'.symbols && ts'.symbols[y] == ts.symbols[y])
    && (ts.privates <= ts.symbols.Keys ==> ts'.privates <= ts'.symbols.Keys)
  }

  lemma GrowsTransitive(a: Tables, b: Tables, c: Tables)
    requires Grows(a, b) && Grows(b, c)
    ensures Grows(a, c)
  {
  }

  lemma DeclareKeeps(ts: Tables, x: string, isPrivate: bool)
    requires Numbering(ts.symbols)
    ensures Grows(ts, Declare(ts, x, isPrivate))
  {
    AddNameKeeps(ts.symbols, x);
  }

  lemma GrowsNumbering(a: Tables, b: Tables)
    requires Grows(a, b)
    ensures Numbering(b.symbols)
  {
  }

  lemma GrowsNothing(a: Tables)
    requires Numbering(a.symbols)
    ensures Grows(a, a)
  {
  }

  lemma {:induction false} AddStmtKeeps(ts: Tables, s: Stmt)
    requires Numbering(ts.symbols)
    ensures Grows(ts, AddStmt(ts, s))
    decreases s, 1
  {
    hide Numbering, Grows, Declare, AddName, AddBody;
    match s
    case Define(f) => DeclareKeeps(ts, f.name, f.isPrivate);
    case Loop(_, _, _, b) => AddBodyKeeps(ts, b);
    case Block(b) => AddBodyKeeps(ts, b);
    case If(_, t, hasElse, e) =>
      AddBodyKeeps(ts, t);
      if hasElse {
        GrowsNumbering(ts, AddBody(ts, t));
        AddBodyKeeps(AddBody(ts, t), e);
        GrowsTransitive(ts, AddBody(ts, t), AddBody(AddBody(ts, t), e));
      }
    case Var(x, _, isPrivate) => DeclareKeeps(ts, x, isPrivate);
    case Try(_, x, _, _, _) =>
      DeclareKeeps(ts, x, false);
      assert AddStmt(ts, s) == Declare(ts, x, false) by {
        DeclarePublic(ts, x);
      }
    case _ => GrowsNothing(ts);
  }

  lemma DeclarePublic(ts: Tables, x: string)
    ensures Declare(ts, x, false) == ts.(symbols := AddName(ts.symbols, x))
  {
  }

  lemma {:induction false} AddBodyKeeps(ts: Tables, ss: seq<Stmt>)
    requires Numbering(ts.symbols)
    ensures Grows(ts, AddBody(ts, ss))
    decreases ss, 0
  {
    hide Numbering, Grows, AddStmt;
    if ss == [] {
      GrowsNothing(ts);
    } else {
      AddStmtKeeps(ts, ss[0]);
      GrowsNumbering(ts, AddStmt(ts, ss[0]));
      AddBodyKeeps(AddStmt(ts, ss[0]), ss[1..]);
      GrowsTransitive(ts, AddStmt(ts, ss[0]), AddBody(ts, ss));
    }
  }

  predicate Numbered(t: Table, k: nat) { exists x :: x in t && t[x] == k }

  /** Every function's table is a bijection onto 1..size, and its private names are in it. */
  lemma FunctionNumbering(f: Function)
    ensures Numbering(FunctionTables(f).symbols) && FunctionTables(f).privates <= FunctionTables(f).symbols.Keys
    ensures forall k: nat :: 1 <= k <= |FunctionTables(f).symbols| ==> Numbered(FunctionTables(f).symbols, k)
  {
    hide AddBody, AddNames;
    AddNameKeeps(map[], "this");
    AddNameKeeps(AddName(map[], "this"), f.name);
    AddNamesKeeps(AddName(AddName(map[], "this"), f.name), f.params);
    AddBodyKeeps(Header(f), f.body);
    var t := FunctionTables(f).symbols;
    forall k: nat | 1 <= k <= |t|
      ensures Numbered(t, k)
    {
      NumberingIsOnto(t, k);
    }
  }

  /** An injective numbering of n names within 1..n uses every number. */
  lemma NumberingIsOnto(t: Table, k: nat)
    requires Numbering(t) && 1 <= k <= |t|
    ensures Numbered(t, k)
  {
    var used := set x | x in t :: t[x];
    ImageSize(t, t.Keys);
    assert used == set x | x in t.Keys :: t[x];
    UpToSize(|t|);
    if k !in used {
      assert used <= UpTo(|t|) - {k};
      SubsetSize(used, UpTo(|t|) - {k});
    }
  }

  function UpTo(n: nat): set<nat> { if n == 0 then {} else UpTo(n - 1) + {n} }

  lemma {:induction false} UpToSize(n: nat)
    ensures |UpTo(n)| == n && forall k: nat :: k in UpTo(n) <==> 1 <= k <= n
  {
    if n > 0 {
      UpToSize(n - 1);
    }
  }

  lemma {:induction false} ImageSize(t: Table, ks: set<string>)
    requires ks <= t.Keys && Numbering(t)
    ensures |set x | x in ks :: t[x]| == |ks|
    decreases ks
  {
    if ks == {} {
      assert (set x | x in ks :: t[x]) == {};
    } else {
      var k :| k in ks;
      ImageSize(t, ks - {k});
      assert (set x | x in ks :: t[x]) == (set x | x in ks - {k} :: t[x]) + {t[k]};
    }
  }

  lemma {:induction false} SubsetSize(a: set<nat>, b: set<nat>)
    requires a <= b
    ensures |a| <= |b|
    decreases a
  {
    if a != {} {
      var x :| x in a;
      SubsetSize(a - {x}, b - {x});
    }
  }

  /** With distinct parameters, none called this or like the function, parameter i has
      register i + 3: the register FFRAME puts argument i into. */
  lemma ParameterRegister(f: Function, i: nat)
    requires i < |f.params| && f.name != "this"
    requires forall j :: 0 <= j < |f.params| ==> f.params[j] != "this" && f.params[j] != f.name
    requires forall j, k :: 0 <= j < k < |f.params| ==> f.params[j] != f.params[k]
    ensures var t := FunctionTables(f).symbols;
            f.params[i] in t && t[f.params[i]] == i + 3 && f.name in t && t[f.name] == 2 && "this" in t
                && t["this"] == 1
  {
    var t1 := AddName(map[], "this");
    var t2 := AddName(t1, f.name);
    AddNameKeeps(map[], "this");
    AddNameKeeps(t1, f.name);
    AddNamesKeeps(t2, f.params);
    NewNamesInOrder(t2, f.params, i);
    AddBodyKeeps(Header(f), f.body);
  }

  lemma {:induction false} NewNamesInOrder(t: Table, xs: seq<string>, i: nat)
    requires Numbering(t) && i < |xs|
    requires forall j :: 0 <= j < |xs| ==> xs[j] !in t
    requires forall j, k :: 0 <= j < k < |xs| ==> xs[j] != xs[k]
    ensures xs[i] in AddNames(t, xs) && AddNames(t, xs)[xs[i]] == |t| + 1 + i
    decreases |xs|
  {
    AddNameKeeps(t, xs[0]);
    AddNamesKeeps(AddName(t, xs[0]), xs[1..]);
    if i > 0 {
      NewNamesInOrder(AddName(t, xs[0]), xs[1..], i - 1);
    }
  }

  /** A class: its constructor's arguments, its body, the functions it defines. */
  datatype Class = Class(name: string, params: seq<string>, body: seq<Stmt>)

  /** this, the constructor's arguments, and the names of the body. */
  function ClassTables(c: Class): Tables {
    AddBody(Tables(AddNames(AddName(map[], "this"), c.params), {}), c.body)
  }

  /** The tables of the functions below a body that are visited: those in the bodies of a try
      statement are not. */
  function Nested(ss: seq<Stmt>, m: map<Function, Tables>): map<Function, Tables>
    decreases ss, 0
  {
    if ss == [] then m else Nested(ss[1..], NestedIn(ss[0], m))
  }

  function NestedIn(s: Stmt, m: map<Function, Tables>): map<Function, Tables>
    decreases s, 1
  {
    match s
    case Define(f) => Nested(f.body, m)[f := FunctionTables(f)]
    case Loop(_, _, _, b) => Nested(b, m)
    case Block(b) => Nested(b, m)
    case If(_, t, hasElse, e) => if hasElse then Nested(e, Nested(t, m)) else Nested(t, m)
    case _ => m
  }

  ghost predicate AllRight(m: map<Function, Tables>) { forall f :: f in m ==> m[f] == FunctionTables(f) }

  /** Every visited function is given the tables of its own names. */
  lemma {:induction false} NestedRight(ss: seq<Stmt>, m: map<Function, Tables>)
    requires AllRight(m)
    ensures AllRight(Nested(ss, m))
    decreases ss, 0
  {
    hide FunctionTables;
    if ss != [] {
      NestedInRight(ss[0], m);
      NestedRight(ss[1..], NestedIn(ss[0], m));
    }
  }

  lemma {:induction false} NestedInRight(s: Stmt, m: map<Function, Tables>)
    requires AllRight(m)
    ensures AllRight(NestedIn(s, m))
    decreases s, 1
  {
    hide FunctionTables;
    match s
    case Define(f) => NestedRight(f.body, m);
    case Loop(_, _, _, b) => NestedRight(b, m);
    case Block(b) => NestedRight(b, m);
    case If(_, t, hasElse, e) =>
      NestedRight(t, m);
      if hasElse {
        NestedRight(e, Nested(t, m));
      }
    case _ =>
  }

  class AddressCalculator {
    /** The tables of the functions being visited, innermost last. */
    var functionsStack: seq<Tables>
    /** The tables of the functions already left. */
    var finished: map<Function, Tables>

    constructor ()
      ensures functionsStack == [] && finished == map[]
    {
      functionsStack, finished := [], map[];
    }

    method AddToCurrentTable(identifier: string)
      requires functionsStack != []
      modifies this`functionsStack
      ensures functionsStack == old(functionsStack[..|functionsStack| - 1])
                                + [old(functionsStack[|functionsStack| - 1]).(symbols
                                    := AddName(old(functionsStack[|functionsStack| - 1]).symbols, identifier))]
    {
      var top := functionsStack[|functionsStack| - 1];
      var count := |top.symbols| + 1;
      if identifier !in top.symbols {
        top := top.(symbols := top.symbols[identifier := count]);
      }
      functionsStack := functionsStack[..|functionsStack| - 1] + [top];
    }

    method AddToCurrentPrivates(identifier: string)
      requires functionsStack != []
      modifies this`functionsStack
      ensures functionsStack == old(functionsStack[..|functionsStack| - 1])
                                + [old(functionsStack[|functionsStack| - 1]).(privates
                                    := old(functionsStack[|functionsStack| - 1]).privates + {identifier})]
    {
      var top := functionsStack[|functionsStack| - 1];
      functionsStack := functionsStack[..|functionsStack| - 1] + [top.(privates := top.privates + {identifier})];
    }

    method CalculateFunction(func: Function)
      requires functionsStack != []
      modifies this
      ensures functionsStack == old(functionsStack[..|functionsStack| - 1])
                                + [Declare(old(functionsStack[|functionsStack| - 1]), func.name, func.isPrivate)]
      ensures finished == Nested(func.body, old(finished))[func := FunctionTables(func)]
      decreases func, 0
    {
      AddToCurrentTable(func.name);
      if func.isPrivate {
        AddToCurrentPrivates(func.name);
      }
      ghost var below := functionsStack;
      functionsStack := functionsStack + [EMPTY];
      AddToCurrentTable("this");
      AddToCurrentTable(func.name);
      var i := 0;
      while i < |func.params|
        invariant 0 <= i <= |func.params|
        invariant finished == old(finished)
        invariant |functionsStack| == |below| + 1 && functionsStack[..|below|] == below
        invariant functionsStack[|below|].privates == {}
        invariant AddNames(functionsStack[|below|].symbols, func.params[i..]) == Header(func).symbols
      {
        AddToCurrentTable(func.params[i]);
        i := i + 1;
      }
      CalculateBody(func.body);
      finished := finished[func := functionsStack[|functionsStack| - 1]];
      functionsStack := functionsStack[..|functionsStack| - 1];
    }

    method CalculateClass(c: Class)
      modifies this
      ensures functionsStack == old(functionsStack) + [ClassTables(c)]
      ensures finished == Nested(c.body, old(finished))
    {
      functionsStack := functionsStack + [EMPTY];
      ghost var below := old(functionsStack);
      AddToCurrentTable("this");
      var i := 0;
      while i < |c.params|
        invariant 0 <= i <= |c.params|
        invariant finished == old(finished)
        invariant |functionsStack| == |below| + 1 && functionsStack[..|below|] == below
        invariant functionsStack[|below|].privates == {}
        invariant AddNames(functionsStack[|below|].symbols, c.params[i..])
                  == AddNames(AddName(map[], "this"), c.params)
      {
        AddToCurrentTable(c.params[i]);
        i := i + 1;
      }
      CalculateBody(c.body);
    }

    method CalculateStatement(s: Stmt)
      requires functionsStack != []
      modifies this
      ensures functionsStack == old(functionsStack[..|functionsStack| - 1])
              + [AddStmt(old(functionsStack[|functionsStack| - 1]), s)]
      ensures finished == NestedIn(s, old(finished))
      decreases s, 1
    {
      match s
      case Define(f) => CalculateFunction(f);
      case Loop(_, _, _, b) => CalculateBody(b);
      case Block(b) => CalculateBody(b);
      case If(_, t, hasElse, e) =>
        CalculateBody(t);
        if hasElse {
          CalculateBody(e);
        }
      case Var(x, _, isPrivate) =>
        AddToCurrentTable(x);
        if isPrivate {
          AddToCurrentPrivates(x);
        }
      case Try(_, x, _, _, _) => AddToCurrentTable(x);
      case _ =>
    }

    method CalculateBody(ss: seq<Stmt>)
      requires functionsStack != []
      modifies this
      ensures functionsStack == old(functionsStack[..|functionsStack| - 1])
              + [AddBody(old(functionsStack[|functionsStack| - 1]), ss)]
      ensures finished == Nested(ss, old(finished))
      decreases ss, 2
    {
      ghost var bottom := functionsStack[..|functionsStack| - 1];
      var i := 0;
      while i < |ss|
        invariant 0 <= i <= |ss|
        invariant functionsStack != [] && functionsStack[..|functionsStack| - 1] == bottom
        invariant AddBody(functionsStack[|functionsStack| - 1], ss[i..])
                  == AddBody(old(functionsStack[|functionsStack| - 1]), ss)
        invariant Nested(ss[i..], finished) == Nested(ss, old(finished))
      {
        CalculateStatement(ss[i]);
        i := i + 1;
      }
    }
  }
}
