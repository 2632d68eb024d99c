/** Syntax trees of the language (src/compiler/ast) and the meaning of the imperative fragment:
    arithmetic and comparisons over local variables, assignments, ++ and --, blocks,
    conditionals, loops with a condition, break and return. */
module Source {
  import opened Options
  import Machine

  datatype Op = Plus | Minus | Times | Over | Remainder | Less | LessEq | Greater | GreaterEq | Equal | NotEqual

  datatype Expr =
    | Number(x: real)
    | Ident(name: string)
    | Binary(op: Op, left: Expr, right: Expr)
    | Assign(name: string, value: Expr)
    | Postfix(name: string, increment: bool)
    | MethodCall(callee: Expr, arguments: seq<Expr>)
    | ThrowPrefix(thrown: Expr)

  datatype Function = Function(name: string, params: seq<string>, body: seq<Stmt>, isAsync: bool, isPrivate: bool)

  datatype Stmt =
    | Var(name: string, value: Expr, isPrivate: bool)
    | Do(e: Expr)
    | Return(e: Expr)
    | Break
    | Block(body: seq<Stmt>)
    | If(cond: Expr, thn: seq<Stmt>, hasElse: bool, els: seq<Stmt>)
    | Loop(start: Option<Expr>, condition: Option<Expr>, iter: Option<Expr>, body: seq<Stmt>)
    | Try(body: seq<Stmt>, exception: string, handler: seq<Stmt>, hasFinally: bool, finallyBody: seq<Stmt>)
    | Define(f: Function)

  // ----- the fragment -----

  predicate Pure(e: Expr) {
    match e
    case Number(_) => true
    case Ident(_) => true
    case Binary(_, l, r) => Pure(l) && Pure(r)
    case _ => false
  }

  /** Every identifier of e is one of the function's symbols. */
  predicate Scoped(e: Expr, names: set<string>) {
    match e
    case Number(_) => true
    case Ident(x) => x in names
    case Binary(_, l, r) => Scoped(l, names) && Scoped(r, names)
    case Assign(x, v) => x in names && Scoped(v, names)
    case Postfix(x, _) => x in names
    case MethodCall(c, args) => Scoped(c, names) && forall a :: a in args ==> Scoped(a, names)
    case ThrowPrefix(v) => Scoped(v, names)
  }

  /** An expression used for its effect. The assignment of one bare variable to another is not
      in the fragment: no code is emitted for it. */
  predicate Action(e: Expr) {
    match e
    case Assign(x, v) => Pure(v) && (v.Ident? ==> v.name == x)
    case Postfix(_, _) => true
    case _ => Pure(e)
  }

  predicate InFragment(s: Stmt, names: set<string>, inLoop: bool) {
    match s
    case Var(x, v, _) => x in names && Pure(v) && Scoped(v, names)
    case Do(e) => Action(e) && Scoped(e, names)
    case Return(e) => Pure(e) && Scoped(e, names)
    case Break => inLoop
    case Block(b) => AllInFragment(b, names, inLoop)
    case If(c, t, hasElse, e) =>
      && Pure(c) && Scoped(c, names) && AllInFragment(t, names, inLoop)
      && (hasElse ==> AllInFragment(e, names, inLoop))
    case Loop(i, c, n, b) =>
      && (i.Some? ==> Action(i.value) && Scoped(i.value, names))
      && c.Some? && Pure(c.value) && Scoped(c.value, names)
      && (n.Some? ==> Action(n.value) && Scoped(n.value, names))
      && AllInFragment(b, names, true)
    case _ => false
  }

  predicate AllInFragment(ss: seq<Stmt>, names: set<string>, inLoop: bool) {
    ss == [] || (InFragment(ss[0], names, inLoop) && AllInFragment(ss[1..], names, inLoop))
  }

  // ----- its meaning -----

  type Store = map<string, real>

  /** Fails: a division by zero raises an exception. Escapes: a remainder by zero is not a
      number, which the model excludes. */
  datatype Value = Is(v: real) | Fails | Escapes

  function Apply(op: Op, a: real, b: real): Value {
    match op
    case Plus => Is(a + b)
    case Minus => Is(a - b)
    case Times => Is(a * b)
    case Over => if b == 0.0 then Fails else Is(a / b)
    case Remainder => if b == 0.0 then Escapes else Is(Machine.Fmod(a, b))
    case Less => Is(if a < b then 1.0 else 0.0)
    case LessEq => Is(if a <= b then 1.0 else 0.0)
    case Greater => Is(if a > b then 1.0 else 0.0)
    case GreaterEq => Is(if a >= b then 1.0 else 0.0)
    case Equal => Is(if a == b then 1.0 else 0.0)
    case NotEqual => Is(if a != b then 1.0 else 0.0)
  }

  function Eval(e: Expr, st: Store): Value
    requires Pure(e) && Scoped(e, st.Keys)
  {
    match e
    case Number(x) => Is(x)
    case Ident(x) => Is(st[x])
    case Binary(op, l, r) =>
      match Eval(l, st)
      case Is(a) => (match Eval(r, st)
                     case Is(b) => Apply(op, a, b)
                     case other => other)
      case other => other
  }

  datatype Result = Normal(st: Store) | Broke(st: Store) | Returned(v: real) | Raised | Escaped | OutOfFuel

  /** The store after an action, or the exception it raises. */
  function Act(e: Expr, st: Store): (r: Result)
    requires Action(e) && Scoped(e, st.Keys)
    ensures r.Normal? ==> r.st.Keys == st.Keys
    ensures !r.Broke? && !r.Returned? && !r.OutOfFuel?
  {
    match e
    case Assign(x, v) => Bind(x, Eval(v, st), st)
    case Postfix(x, up) => Normal(st[x := if up then st[x] + 1.0 else st[x] - 1.0])
    case _ => Then(Eval(e, st), Normal(st))
  }

  function Bind(x: string, v: Value, st: Store): Result {
    match v
    case Is(n) => Normal(st[x := n])
    case Fails => Raised
    case Escapes => Escaped
  }

  function Then(v: Value, r: Result): Result {
    match v
    case Is(_) => r
    case Fails => Raised
    case Escapes => Escaped
  }

  function ActOption(e: Option<Expr>, st: Store): (r: Result)
    requires e.Some? ==> Action(e.value) && Scoped(e.value, st.Keys)
    ensures r.Normal? ==> r.st.Keys == st.Keys
    ensures !r.Broke? && !r.Returned? && !r.OutOfFuel?
  {
    match e
    case None => Normal(st)
    case Some(a) => Act(a, st)
  }

  /** Execution with a bound on the number of loop iterations in sequence. */
  function Execute(s: Stmt, inLoop: bool, st: Store, fuel: nat): (r: Result)
    requires InFragment(s, st.Keys, inLoop)
    ensures (r.Normal? || r.Broke?) ==> r.st.Keys == st.Keys
    ensures r.Broke? ==> inLoop
    decreases fuel, s, 1
  {
    match s
    case Var(x, v, _) => Bind(x, Eval(v, st), st)
    case Do(e) => Act(e, st)
    case Return(e) =>
      var v := Eval(e, st);
      Then(v, Returned(if v.Is? then v.v else 0.0))
    case Break => Broke(st)
    case Block(b) => ExecuteAll(b, inLoop, st, fuel)
    case If(c, t, hasElse, e) =>
      var v := Eval(c, st);
      if !v.Is? then Then(v, Normal(st))
      else if v.v != 0.0 then ExecuteAll(t, inLoop, st, fuel)
      else if hasElse then ExecuteAll(e, inLoop, st, fuel)
      else Normal(st)
    case Loop(i, _, _, _) =>
      var r := ActOption(i, st);
      if r.Normal? then Iterate(s, inLoop, r.st, fuel) else r
  }

  function ExecuteAll(ss: seq<Stmt>, inLoop: bool, st: Store, fuel: nat): (r: Result)
    requires AllInFragment(ss, st.Keys, inLoop)
    ensures (r.Normal? || r.Broke?) ==> r.st.Keys == st.Keys
    ensures r.Broke? ==> inLoop
    decreases fuel, ss, 0
  {
    if ss == [] then Normal(st)
    else
      var r := Execute(ss[0], inLoop, st, fuel);
      if r.Normal? then ExecuteAll(ss[1..], inLoop, r.st, fuel) else r
  }

  /** From a loop's condition on. */
  function Iterate(s: Stmt, inLoop: bool, st: Store, fuel: nat): (r: Result)
    requires s.Loop? && InFragment(s, st.Keys, inLoop)
    ensures r.Normal? ==> r.st.Keys == st.Keys
    ensures !r.Broke?
    decreases fuel, s, 0
  {
    var v := Eval(s.condition.value, st);
    if fuel == 0 then OutOfFuel
    else if !v.Is? then Then(v, Normal(st))
    else if v.v == 0.0 then Normal(st)
    else
      var r := ExecuteAll(s.body, true, st, fuel - 1);
      if r.Broke? then Normal(r.st)
      else if !r.Normal? then r
      else
        var n := ActOption(s.iter, r.st);
        if n.Normal? then Iterate(s, inLoop, n.st, fuel - 1) else n
  }

  /** A function's body: falling off its end returns 0. */
  function Call(body: seq<Stmt>, st: Store, fuel: nat): (r: Result)
    requires AllInFragment(body, st.Keys, false)
    ensures !r.Normal? && !r.Broke?
  {
    var r := ExecuteAll(body, false, st, fuel);
    if r.Normal? then Returned(0.0) else r
  }

  // ----- more fuel changes nothing -----

  lemma {:induction false} MoreFuel(s: Stmt, inLoop: bool, st: Store, fuel: nat, more: nat)
    requires InFragment(s, st.Keys, inLoop) && fuel <= more && !Execute(s, inLoop, st, fuel).OutOfFuel?
    ensures Execute(s, inLoop, st, more) == Execute(s, inLoop, st, fuel)
    decreases fuel, s, 1
  {
    match s
    case Block(b) => MoreFuelAll(b, inLoop, st, fuel, more);
    case If(c, t, hasElse, e) =>
      if Eval(c, st).Is? {
        if Eval(c, st).v != 0.0 {
          MoreFuelAll(t, inLoop, st, fuel, more);
        } else if hasElse {
          MoreFuelAll(e, inLoop, st, fuel, more);
        }
      }
    case Loop(i, _, _, _) =>
      if ActOption(i, st).Normal? {
        MoreFuelLoop(s, inLoop, ActOption(i, st).st, fuel, more);
      }
    case _ =>
  }

  lemma {:induction false} MoreFuelAll(ss: seq<Stmt>, inLoop: bool, st: Store, fuel: nat, more: nat)
    requires AllInFragment(ss, st.Keys, inLoop) && fuel <= more && !ExecuteAll(ss, inLoop, st, fuel).OutOfFuel?
    ensures ExecuteAll(ss, inLoop, st, more) == ExecuteAll(ss, inLoop, st, fuel)
    decreases fuel, ss, 0
  {
    if ss != [] {
      MoreFuel(ss[0], inLoop, st, fuel, more);
      if Execute(ss[0], inLoop, st, fuel).Normal? {
        MoreFuelAll(ss[1..], inLoop, Execute(ss[0], inLoop, st, fuel).st, fuel, more);
      }
    }
  }

  lemma {:induction false} MoreFuelLoop(s: Stmt, inLoop: bool, st: Store, fuel: nat, more: nat)
    requires s.Loop? && InFragment(s, st.Keys, inLoop) && fuel <= more && !Iterate(s, inLoop, st, fuel).OutOfFuel?
    ensures Iterate(s, inLoop, st, more) == Iterate(s, inLoop, st, fuel)
    decreases fuel, s, 0
  {
    if Eval(s.condition.value, st).Is? && Eval(s.condition.value, st).v != 0.0 {
      MoreFuelAll(s.body, true, st, fuel - 1, more - 1);
      var r := ExecuteAll(s.body, true, st, fuel - 1);
      if r.Normal? && ActOption(s.iter, r.st).Normal? {
        MoreFuelLoop(s, inLoop, ActOption(s.iter, r.st).st, fuel - 1, more - 1);
      }
    }
  }
}
