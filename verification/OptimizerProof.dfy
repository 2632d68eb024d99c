/** The optimizer preserves every run, for every environment, under the liveness discipline
    of compiled code. nv is the number of the activation's variables; registers above nv are
    temporaries. */
module OptimizerProof {
  import opened Options
  import opened Bytecode
  import opened Machine
  import opened Optimizer

  /** Temporary r is read before it is written in the straight-line segment that starts s. */
  predicate Live(s: seq<Instr>, r: nat) {
    s != [] && (Reads(s[0], r) || (!EndsSegment(s[0].op) && !Writes(s[0], r) && Live(s[1..], r)))
  }

  ghost predicate NoneLive(nv: nat, s: seq<Instr>) { forall r :: r > nv ==> !Live(s, r) }

  /** No temporary is live across a label or a jump. */
  ghost predicate Disciplined(nv: nat, s: seq<Instr>) {
    s == [] || ((EndsSegment(s[0].op) ==> NoneLive(nv, s[1..])) && Disciplined(nv, s[1..]))
  }

  predicate Temporary(nv: nat, w: Word) { w.Idx? && w.n > nv }

  /** If a jump is fused from cur and next, it may: the dropped write is to a temporary, the
      fused jump tests the comparison's result, and a loaded number is not compared with itself. */
  predicate FiresWell(nv: nat, cur: Instr, next: Instr) {
    && (FusesTest(cur, next) ==> next.r0 == cur.r2 && Temporary(nv, cur.r2))
    && (FusesLoad(cur, next) ==> Temporary(nv, cur.r0) && next.r0 != cur.r0)
  }

  // What the compare rule may swallow.

  /** A comparison that compares a register with itself, and holds. */
  predicate AlwaysOne(cur: Instr) { cur.r0 == cur.r1 && Holds(cur.op, 0.0, 0.0) }

  /** A comparison that compares a register with itself, and does not hold. */
  predicate AlwaysZero(cur: Instr) { cur.r0 == cur.r1 && !Holds(cur.op, 0.0, 0.0) }

  /** After comparison cur, whose result is next's second operand, next leaves its destination
      as it is: a copy to itself, or an operation with a known neutral operand. */
  predicate Idle(cur: Instr, next: Instr) {
    if next.op == MOV then next.r0 == next.r1
    else if next.op == ADD || next.op == SUB then next.r2 == next.r0 && AlwaysZero(cur)
    else if next.op == MUL then
      || (next.r2 == next.r0 && (next.r0 == next.r1 || AlwaysOne(cur)))
      || (next.r2 == next.r1 && AlwaysZero(cur))
    else if next.op == DIV then next.r2 == next.r0 && AlwaysOne(cur)
    else IsCompare(next.op) && next.r2 == next.r0 == next.r1 && cur.r0 == cur.r1
         && (Holds(next.op, 0.0, 0.0) <==> Holds(cur.op, 0.0, 0.0))
  }

  predicate Dead(nv: nat, w: Word, rest: seq<Instr>) { Temporary(nv, w) && !Live(rest, w.n) }

  /** next only writes registers: it neither leaves the straight line, nor touches handlers or
      the environment, nor divides by a comparison's result that may be zero. */
  predicate Quiet(cur: Instr, next: Instr) {
    && !IsExternal(next.op) && next.op != SET_CATCH && next.op != CLEAR_CATCH && next.op != RETURN
        && next.op != THROW_EXCEPTION
    && (IsJump(next.op) ==> IsCompareJump(next.op) && next.r0 == next.r1 && !Holds(ComparisonOf(next.op), 0.0, 0.0))
    && (next.op == DIV || next.op == MOD ==> AlwaysOne(cur))
  }

  /** The compare rule may swallow next: it is quiet, and what it writes is dead or unchanged. */
  predicate MaySwallow(nv: nat, cur: Instr, next: Instr, rest: seq<Instr>) {
    && Formed(cur) && Formed(next) && Quiet(cur, next)
    && (Idle(cur, next) || forall w :: w in Dests(next) ==> Dead(nv, w, rest))
  }

  /** Every rule that fires in one pass over s may. */
  predicate SafePass(nv: nat, s: seq<Instr>)
    requires Readable(s)
  {
    s == []
    || ((|s| > 1 ==> FiresWell(nv, s[0], s[1]))
        && (|s| > 1 && SwallowsNext(s[0], s[1]) ==> MaySwallow(nv, s[0], s[1], s[2..]))
        && SafePass(nv, s[TurnAt(s).used..]))
  }

  /** Every rule that fires in any pass of the optimizer may. */
  predicate SafeRun(nv: nat, s: seq<Instr>)
    requires Readable(s) && Shaped(s)
    decreases |s|
  {
    PassShape(s);
    SafePass(nv, s) && (|Pass(s)| < |s| ==> SafeRun(nv, Pass(s)))
  }

  // ----- positions -----

  /** The loop index takes the value i in a pass over s. */
  predicate Visits(s: seq<Instr>, i: nat)
    requires Readable(s)
    decreases |s|
  {
    i == 0 || (s != [] && TurnAt(s).used <= i && Visits(s[TurnAt(s).used..], i - TurnAt(s).used))
  }

  /** The length of the result when the loop index is i. */
  function Position(s: seq<Instr>, i: nat): (p: nat)
    requires Readable(s) && Visits(s, i)
    decreases |s|
  {
    if i == 0 then 0 else |TurnAt(s).push| + Position(s[TurnAt(s).used..], i - TurnAt(s).used)
  }

  lemma {:induction false} VisitedSuffix(s: seq<Instr>, i: nat)
    requires Readable(s) && Visits(s, i)
    ensures i <= |s| && Readable(s[i..]) && Position(s, i) <= |Pass(s)|
    ensures Pass(s)[Position(s, i)..] == Pass(s[i..])
    decreases |s|
  {
    hide TurnOf, TurnAt, Pass;
    if i == 0 {
      assert s[0..] == s;
    } else {
      var t := TurnAt(s);
      var u := t.used;
      VisitedSuffix(s[u..], i - u);
      PassHead(s);
      assert s[u..][i - u..] == s[i..];
      SkipFirst(t.push, Pass(s[u..]), Position(s[u..], i - u));
    }
  }

  lemma SkipFirst(a: seq<Instr>, b: seq<Instr>, k: nat)
    requires k <= |b|
    ensures (a + b)[|a| + k..] == b[k..]
  {
  }

  lemma {:induction false} VisitsNext(s: seq<Instr>, i: nat)
    requires Readable(s) && Visits(s, i) && i < |s| && Readable(s[i..])
    ensures var t := TurnAt(s[i..]);
            Visits(s, i + t.used) && Position(s, i + t.used) == Position(s, i) + |t.push|
    decreases |s|
  {
    hide TurnOf, TurnAt;
    if i == 0 {
      assert s[0..] == s;
    } else {
      var u := TurnAt(s).used;
      assert s[u..][i - u..] == s[i..];
      VisitsNext(s[u..], i - u);
    }
  }

  lemma {:induction false} SafeSuffix(nv: nat, s: seq<Instr>, i: nat)
    requires Readable(s) && Visits(s, i) && SafePass(nv, s)
    ensures i <= |s| && Readable(s[i..]) && SafePass(nv, s[i..])
    decreases |s|
  {
    hide TurnOf, FiresWell, MaySwallow;
    if i == 0 {
      assert s[0..] == s;
    } else {
      var u := TurnAt(s).used;
      SafeSuffix(nv, s[u..], i - u);
      assert s[u..][i - u..] == s[i..];
    }
  }

  lemma {:induction false} DisciplinedSuffix(nv: nat, s: seq<Instr>, i: nat)
    requires Disciplined(nv, s) && i <= |s|
    ensures Disciplined(nv, s[i..])
    decreases i
  {
    if i == 0 {
      assert s[0..] == s;
    } else {
      DisciplinedSuffix(nv, s[1..], i - 1);
      assert s[1..][i - 1..] == s[i..];
    }
  }

  // The four kinds of turn.

  predicate DropsMove(s: seq<Instr>, t: Turn)
    requires s != []
  {
    t == Turn([], 1) && s[0].op == MOV && s[0].r0 == s[0].r1
  }

  predicate Keeps(s: seq<Instr>, t: Turn)
    requires s != []
  {
    t.push == [s[0]] && (t.used == 1 || (t.used == 2 && |s| > 1 && s[0].op == RETURN && s[1].op == RETURN))
  }

  predicate Fuses(s: seq<Instr>, t: Turn) {
    |s| > 1 && t.used == 2 &&
    ((FusesLoad(s[0], s[1]) && t.push == [LoadAndJump(s[0], s[1])])
     || (FusesTest(s[0], s[1]) && t.push == [CompareAndJump(s[0], s[1])]))
  }

  predicate Swallows(nv: nat, s: seq<Instr>, t: Turn) {
    && |s| > 1 && t.used == 2 && t.push == [s[0]]
    && SwallowsNext(s[0], s[1]) && MaySwallow(nv, s[0], s[1], s[2..])
  }

  lemma TurnKinds(nv: nat, s: seq<Instr>)
    requires Readable(s) && s != [] && SafePass(nv, s)
    ensures DropsMove(s, TurnAt(s)) || Keeps(s, TurnAt(s)) || Fuses(s, TurnAt(s)) || Swallows(nv, s, TurnAt(s))
  {
  }

  /** Labels move to the position their index maps to. */
  lemma {:induction false} FindMoves(s: seq<Instr>, w: Word)
    requires Readable(s) && Shaped(s)
    ensures var p, q := Find(s, w), Find(Pass(s), w);
            (p.None? <==> q.None?) && (p.Some? ==> Visits(s, p.value) && q.value == Position(s, p.value))
    decreases |s|
  {
    hide TurnOf, TurnAt, ShapedInstr, Find, Pass;
    if s == [] {
      PassNothing(s);
      FindNothing(w);
    } else {
      var rest := s[TurnAt(s).used..];
      assert Shaped(rest) by {
        assert forall i :: i in rest ==> i in s;
      }
      FindMoves(rest, w);
      FindSplits(s, w);
    }
  }

  lemma FindSplits(s: seq<Instr>, w: Word)
    requires Readable(s) && Shaped(s) && s != []
    ensures var t, here := TurnAt(s), s[0].op == LABEL && s[0].r0 == w;
            Shifted(Find(s, w), Find(s[t.used..], w), t.used, here)
            && Shifted(Find(Pass(s), w), Find(Pass(s[t.used..]), w), |t.push|, here)
  {
    hide TurnOf, TurnAt, ShapedInstr, Find;
    var t := TurnAt(s);
    var rest := s[t.used..];
    TurnHidesNoLabel(s, w);
    FindConcat(t.push, Pass(rest), w);
    assert s == s[..t.used] + rest && |s[..t.used]| == t.used;
    FindConcat(s[..t.used], rest, w);
  }

  /** Where a label is found, given where the rest has it, k instructions later. */
  predicate Shifted(p: Option<nat>, rest: Option<nat>, k: nat, here: bool) {
    if here then p == Some(0) else if rest.None? then p == None else p == Some(k + rest.value)
  }

  lemma TurnHidesNoLabel(s: seq<Instr>, w: Word)
    requires Readable(s) && Shaped(s) && s != []
    ensures var t := TurnAt(s);
            if s[0].op == LABEL && s[0].r0 == w then Find(s[..t.used], w) == Find(t.push, w) == Some(0)
            else Find(s[..t.used], w) == Find(t.push, w) == None
  {
    var t := TurnAt(s);
    assert s[0] in s;
    if t.used == 2 {
      assert s[1] in s && ShapedInstr(s[1]) && s[..2][1..] == [s[1]] && s[1].op != LABEL;
      assert [s[1]][1..] == [];
    } else {
      assert s[..1][1..] == [];
    }
    if t.push != [] {
      assert t.push[1..] == [];
    }
  }

  // ----- the liveness discipline survives a pass -----

  lemma {:induction false} PassKillsNothing(nv: nat, s: seq<Instr>, r: nat)
    requires Readable(s) && SafePass(nv, s) && Disciplined(nv, s) && r > nv && Live(Pass(s), r)
    ensures Live(s, r)
    decreases |s|
  {
    hide TurnOf, Args, Dests, FiresWell, MaySwallow;
    var t := TurnAt(s);
    TurnKinds(nv, s);
    DisciplinedSuffix(nv, s, t.used);
    if DropsMove(s, t) {
      assert Pass(s) == Pass(s[1..]);
      PassKillsNothing(nv, s[1..], r);
      MoveReadsWhatItWrites(s[0], r);
    } else {
      assert Pass(s)[0] == t.push[0] && Pass(s)[1..] == Pass(s[t.used..]);
      if Keeps(s, t) {
        if !Reads(s[0], r) {
          PassKillsNothing(nv, s[1..], r);
        }
      } else if Swallows(nv, s, t) {
        if !Reads(s[0], r) {
          assert s[1..][0] == s[1] && s[1..][1..] == s[2..];
          PassKillsNothing(nv, s[2..], r);
          SwallowedLive(nv, s[0], s[1], s[2..], r);
        }
      } else {
        FusedReads(nv, s[0], s[1], r);
        assert s[1..][0] == s[1];
      }
    }
  }

  /** What is live after a swallowed instruction is live before it. */
  lemma SwallowedLive(nv: nat, cur: Instr, next: Instr, rest: seq<Instr>, r: nat)
    requires SwallowsNext(cur, next) && MaySwallow(nv, cur, next, rest) && (r <= nv || Live(rest, r))
    ensures Writes(next, r) ==> Reads(next, r)
  {
  }

  lemma MoveReadsWhatItWrites(i: Instr, r: nat)
    requires i.op == MOV && i.r0 == i.r1
    ensures !EndsSegment(i.op) && (Writes(i, r) ==> Reads(i, r))
  {
  }

  /** What a fused jump reads, the pair it replaces reads before writing. */
  lemma FusedReads(nv: nat, cur: Instr, next: Instr, r: nat)
    requires FiresWell(nv, cur, next)
    ensures FusesLoad(cur, next) ==> FusedReadsAs(cur, next, LoadAndJump(cur, next), r)
    ensures FusesTest(cur, next) ==> FusedReadsAs(cur, next, CompareAndJump(cur, next), r)
  {
  }

  ghost predicate FusedReadsAs(cur: Instr, next: Instr, f: Instr, r: nat) {
    && IsJump(f.op) && IsJump(next.op) && !EndsSegment(cur.op)
    && (Reads(f, r) ==> Reads(cur, r) || (!Writes(cur, r) && Reads(next, r)))
  }

  /** If no temporary is live across a label or a jump of s, none is in the pass's result. */
  lemma {:induction false} PassKeepsDiscipline(nv: nat, s: seq<Instr>)
    requires Readable(s) && SafePass(nv, s) && Disciplined(nv, s)
    ensures Disciplined(nv, Pass(s))
    decreases |s|
  {
    hide TurnOf, TurnAt, FiresWell, MaySwallow, Live, DropsMove, Keeps, Fuses, Swallows;
    if s != [] {
      var t := TurnAt(s);
      var rest := s[t.used..];
      DisciplinedSuffix(nv, s, t.used);
      PassKeepsDiscipline(nv, rest);
      PassHead(s);
      TurnKinds(nv, s);
      if t.push == [] {
        assert Pass(s) == Pass(rest);
      } else {
        assert Pass(s)[0] == t.push[0] && Pass(s)[1..] == Pass(rest);
        if EndsSegment(t.push[0].op) {
          PushedEnds(nv, s, t);
          LastEndsSegment(nv, s, t.used);
          forall r | r > nv
            ensures !Live(Pass(rest), r)
          {
            if Live(Pass(rest), r) {
              PassKillsNothing(nv, rest, r);
            }
          }
        }
      }
    }
  }

  /** What ends a segment of the result replaces something that ends one of the original. */
  lemma PushedEnds(nv: nat, s: seq<Instr>, t: Turn)
    requires s != [] && t.push != [] && EndsSegment(t.push[0].op)
    requires DropsMove(s, t) || Keeps(s, t) || Fuses(s, t) || Swallows(nv, s, t)
    ensures 1 <= t.used <= |s| && EndsSegment(s[t.used - 1].op)
  {
  }

  lemma LastEndsSegment(nv: nat, s: seq<Instr>, k: nat)
    requires Disciplined(nv, s) && 1 <= k <= |s| && EndsSegment(s[k - 1].op)
    ensures NoneLive(nv, s[k..])
  {
    DisciplinedSuffix(nv, s, k - 1);
    assert s[k - 1..][0] == s[k - 1] && s[k - 1..][1..] == s[k..];
  }

  // ----- one pass preserves runs -----

  /** Register files that agree on the variables and on everything live at s. */
  ghost predicate Agree(nv: nat, s: seq<Instr>, a: Regs, b: Regs) {
    forall r: nat :: r <= nv || Live(s, r) ==> Get(a, Idx(r)) == Get(b, Idx(r))
  }

  ghost predicate SameWorld(d: Data, d': Data) { d.catches == d'.catches && d.trace == d'.trace }

  /** A state of the original code and the corresponding state of the pass's result. */
  ghost predicate Match(nv: nat, code: seq<Instr>, s: State, s': State)
    requires Readable(code)
  {
    match s
    case Done(_, _) => s' == s
    case At(pc, d) =>
      && s'.At?
      && Visits(code, pc) && pc <= |code|
      && s'.pc == Position(code, pc)
      && SameWorld(d, s'.d)
      && Agree(nv, code[pc..], d.regs, s'.d.regs)
  }

  /** Code the pass may be applied to. */
  ghost predicate Sound(nv: nat, code: seq<Instr>) {
    Readable(code) && Shaped(code) && SafePass(nv, code) && Disciplined(nv, code)
  }

  lemma ResumeMatch(nv: nat, code: seq<Instr>, w: Word, d: Data, d': Data)
    requires Readable(code) && Shaped(code) && SameWorld(d, d') && SameVariables(nv, d.regs, d'.regs)
    ensures Match(nv, code, Resume(code, w, d), Resume(Pass(code), w, d'))
  {
    hide TurnOf, Args, ShapedInstr;
    FindMoves(code, w);
    var p := Find(code, w);
    if p.Some? {
      assert code[p.value..][0] == code[p.value];
      forall r: nat
        ensures !Live(code[p.value..], r)
      {
        LabelReadsNothing(code[p.value], r);
      }
    }
  }

  lemma LabelReadsNothing(i: Instr, r: nat)
    requires i.op == LABEL
    ensures !Reads(i, r)
  {
  }

  ghost predicate SameVariables(nv: nat, a: Regs, b: Regs) {
    forall r: nat :: r <= nv ==> Get(a, Idx(r)) == Get(b, Idx(r))
  }

  lemma AgreeOnReads(nv: nat, s: seq<Instr>, a: Regs, b: Regs, w: Word)
    requires s != [] && Agree(nv, s, a, b) && w in Args(s[0])
    ensures Get(a, w) == Get(b, w)
  {
    if w.Idx? {
      assert Reads(s[0], w.n);
      assert Live(s, w.n);
    }
  }

  lemma AgreeAfter(env: Env, nv: nat, s: seq<Instr>, d: Data, d': Data)
    requires s != [] && Disciplined(nv, s) && Agree(nv, s, d.regs, d'.regs) && SameWorld(d, d')
    ensures SameView(nv, s[0], d, d')
    ensures var e, e' := Exec(env, nv, s[0], d), Exec(env, nv, s[0], d');
            && SameShape(e, e') && SameVariables(nv, e.d.regs, e'.d.regs)
            && (e.Fall? ==> Agree(nv, s[1..], e.d.regs, e'.d.regs))
  {
    hide Args, Dests, Exec;
    forall w | w in Args(s[0])
      ensures Get(d.regs, w) == Get(d'.regs, w)
    {
      AgreeOnReads(nv, s, d.regs, d'.regs, w);
    }
    assert SameView(nv, s[0], d, d');
    ExecShape(env, nv, s[0], d, d');
    var e, e' := Exec(env, nv, s[0], d), Exec(env, nv, s[0], d');
    forall r: nat | r <= nv
      ensures Get(e.d.regs, Idx(r)) == Get(e'.d.regs, Idx(r))
    {
      ExecRegister(env, nv, s[0], d, d', r);
    }
    if e.Fall? {
      forall r: nat | Live(s[1..], r) && r > nv
        ensures Get(e.d.regs, Idx(r)) == Get(e'.d.regs, Idx(r))
      {
        assert !EndsSegment(s[0].op);
        assert Writes(s[0], r) || Live(s, r);
        ExecRegister(env, nv, s[0], d, d', r);
      }
    }
  }

  /** Corresponding states about to execute instruction pc. */
  ghost predicate Paired(nv: nat, code: seq<Instr>, pc: nat, d: Data, q: nat, d': Data) {
    Sound(nv, code) && pc < |code| && Match(nv, code, At(pc, d), At(q, d'))
  }

  /** An instruction both lists have. */
  lemma KeptStep(env: Env, nv: nat, code: seq<Instr>, pc: nat, d: Data, q: nat, d': Data)
    requires Paired(nv, code, pc, d, q, d') && Readable(code[pc..]) && Keeps(code[pc..], TurnAt(code[pc..]))
    ensures Match(nv, code, Step(env, nv, code, At(pc, d)), Step(env, nv, Pass(code), At(q, d')))
  {
    hide Args, Dests, Exec, TurnOf, Shaped, SafePass, Disciplined, Live, Get, Pass;
    var s := code[pc..];
    VisitedSuffix(code, pc);
    PassHead(s);
    VisitsNext(code, pc);
    DisciplinedSuffix(nv, code, pc);
    assert Pass(code)[q..][0] == Pass(code)[q] == code[pc];
    AgreeAfter(env, nv, s, d, d');
    var e, e' := Exec(env, nv, code[pc], d), Exec(env, nv, code[pc], d');
    if e.Fall? {
      ReturnLeaves(env, nv, code[pc], d);
      assert s[1..] == code[pc + 1..];
    }
    LandMatch(nv, code, pc, e, q, e');
  }

  lemma PassHead(s: seq<Instr>)
    requires Readable(s) && s != []
    ensures Pass(s) == TurnAt(s).push + Pass(s[TurnAt(s).used..])
  {
  }

  lemma LandMatch(nv: nat, code: seq<Instr>, pc: nat, e: Effect, q: nat, e': Effect)
    requires Readable(code) && Shaped(code) && SameShape(e, e') && SameVariables(nv, e.d.regs, e'.d.regs)
    requires e.Fall? ==> Match(nv, code, At(pc + 1, e.d), At(q + 1, e'.d))
    ensures Match(nv, code, Land(code, pc, e), Land(Pass(code), q, e'))
  {
    hide Pass, Shaped, Args, Live;
    match e
    case Goto(w, d1) =>
      ResumeMatch(nv, code, w, d1, e'.d);
    case Raise(f, d1) =>
      if d1.catches != [] {
        ResumeMatch(nv, code, d1.catches[|d1.catches| - 1], d1.(trace := d1.trace + [Caught(f)]),
                    e'.d.(trace := d1.trace + [Caught(f)]));
      }
    case _ =>
  }

  lemma ReturnLeaves(env: Env, nv: nat, i: Instr, d: Data)
    ensures i.op == RETURN ==> Exec(env, nv, i, d).Leave?
  {
  }

  /** A fused jump against the pair it replaces: same branch taken, same variables. */
  lemma FusedEffect(env: Env, nv: nat, cur: Instr, next: Instr, f: Instr, d: Data, d': Data)
    requires FiresWell(nv, cur, next)
    requires (FusesLoad(cur, next) && f == LoadAndJump(cur, next)) || (FusesTest(cur, next)
                                                                       && f == CompareAndJump(cur, next))
    requires Get(d.regs, f.r0) == Get(d'.regs, f.r0)
             && (FusesTest(cur, next) ==> Get(d.regs, f.r1) == Get(d'.regs, f.r1))
    ensures var e1 := Exec(env, nv, cur, d);
            e1.Fall? && e1.d.catches == d.catches && e1.d.trace == d.trace && SameVariables(nv, e1.d.regs, d.regs)
            && Exec(env, nv, next, e1.d) == if Exec(env, nv, f, d').Goto? then Goto(f.r2, e1.d) else Fall(e1.d)
    ensures Exec(env, nv, f, d') == Goto(f.r2, d') || Exec(env, nv, f, d') == Fall(d')
  {
  }

  /** A fused pair ends with a jump: no temporary is live after it. */
  lemma FusedEndsSegment(nv: nat, code: seq<Instr>, pc: nat)
    requires pc + 2 <= |code| && Disciplined(nv, code) && FiresWell(nv, code[pc], code[pc + 1])
    requires FusesLoad(code[pc], code[pc + 1]) || FusesTest(code[pc], code[pc + 1])
    ensures NoneLive(nv, code[pc + 2..])
  {
    FusedReads(nv, code[pc], code[pc + 1], 0);
    LastEndsSegment(nv, code, pc + 2);
  }

  lemma FusedStep(env: Env, nv: nat, code: seq<Instr>, pc: nat, d: Data, q: nat, d': Data)
    requires Paired(nv, code, pc, d, q, d') && Readable(code[pc..]) && Fuses(code[pc..], TurnAt(code[pc..]))
    ensures Match(nv, code, Run(env, nv, code, At(pc, d), 2), Step(env, nv, Pass(code), At(q, d')))
  {
    hide Args, Dests, Exec, TurnOf, ShapedInstr, FiresWell, MaySwallow, Get, Live, Disciplined;
    var s := code[pc..];
    VisitedSuffix(code, pc);
    VisitsNext(code, pc);
    SafeSuffix(nv, code, pc);
    var f := TurnAt(s).push[0];
    assert s[0] == code[pc] && s[1] == code[pc + 1];
    assert Pass(code)[q..][0] == Pass(code)[q] == f;
    FusedOperands(nv, s, f, d.regs, d'.regs);
    FusedEffect(env, nv, code[pc], code[pc + 1], f, d, d');
    var d1 := Exec(env, nv, code[pc], d).d;
    assert Step(env, nv, code, At(pc, d)) == At(pc + 1, d1);
    RunTwo(env, nv, code, At(pc, d));
    if Exec(env, nv, f, d').Goto? {
      ResumeMatch(nv, code, f.r2, d1, d');
    } else {
      FusedEndsSegment(nv, code, pc);
    }
  }

  /** Running next after comparison cur falls through, and changes nothing that is read later. */
  ghost predicate Unnoticed(env: Env, nv: nat, cur: Instr, next: Instr, rest: seq<Instr>, d: Data) {
    var d1 := Exec(env, nv, cur, d).d;
    var e := Exec(env, nv, next, d1);
    e.Fall? && SameWorld(e.d, d1) && Agree(nv, rest, e.d.regs, d1.regs)
  }

  lemma CompareEffect(env: Env, nv: nat, cur: Instr, d: Data)
    requires IsCompare(cur.op)
    ensures Exec(env, nv, cur, d) == Fall(Write(d, cur.r2,
                                                Truth(Holds(cur.op, Get(d.regs, cur.r0), Get(d.regs, cur.r1)))))
    ensures cur.r0 == cur.r1 ==> Holds(cur.op, Get(d.regs, cur.r0), Get(d.regs, cur.r1)) == Holds(cur.op, 0.0, 0.0)
  {
  }

  /** What may be swallowed is not noticed. */
  lemma SwallowEffect(env: Env, nv: nat, cur: Instr, next: Instr, rest: seq<Instr>, d: Data)
    requires SwallowsNext(cur, next) && MaySwallow(nv, cur, next, rest)
    ensures Unnoticed(env, nv, cur, next, rest, d)
  {
    hide Fmod, Live, React;
    CompareEffect(env, nv, cur, d);
    var d1 := Exec(env, nv, cur, d).d;
    if Idle(cur, next) {
      IdleEffect(env, nv, cur, next, d1);
    } else {
      QuietEffect(env, nv, cur, next, d1);
    }
  }

  /** The registers right after comparison cur. */
  ghost predicate JustCompared(cur: Instr, d: Data) {
    && Formed(cur) && IsCompare(cur.op)
    && (Get(d.regs, cur.r2) == 0.0 || Get(d.regs, cur.r2) == 1.0)
    && (AlwaysOne(cur) ==> Get(d.regs, cur.r2) == 1.0)
    && (AlwaysZero(cur) ==> Get(d.regs, cur.r2) == 0.0)
  }

  /** A quiet instruction changes its destinations only. */
  lemma QuietEffect(env: Env, nv: nat, cur: Instr, next: Instr, d: Data)
    requires Formed(next) && SwallowsNext(cur, next) && Quiet(cur, next) && JustCompared(cur, d)
    ensures var e := Exec(env, nv, next, d);
            && e.Fall? && SameWorld(e.d, d)
            && forall r: nat :: !Writes(next, r) ==> Get(e.d.regs, Idx(r)) == Get(d.regs, Idx(r))
  {
    hide Fmod, React, Live;
  }

  /** An idle instruction changes nothing. */
  lemma IdleEffect(env: Env, nv: nat, cur: Instr, next: Instr, d: Data)
    requires Formed(next) && SwallowsNext(cur, next) && Quiet(cur, next) && Idle(cur, next) && JustCompared(cur, d)
    ensures var e := Exec(env, nv, next, d);
            e.Fall? && SameWorld(e.d, d) && forall r: nat :: Get(e.d.regs, Idx(r)) == Get(d.regs, Idx(r))
  {
    hide Fmod, React, Live;
  }

  /** A comparison both lists have, and the instruction after it that only the first has. */
  lemma SwallowStep(env: Env, nv: nat, code: seq<Instr>, pc: nat, d: Data, q: nat, d': Data)
    requires Paired(nv, code, pc, d, q, d') && Readable(code[pc..]) && Swallows(nv, code[pc..], TurnAt(code[pc..]))
    ensures Match(nv, code, Run(env, nv, code, At(pc, d), 2), Step(env, nv, Pass(code), At(q, d')))
  {
    hide Args, Dests, Exec, TurnOf, Shaped, SafePass, Disciplined, Live, Get, Pass, MaySwallow;
    var s := code[pc..];
    VisitedSuffix(code, pc);
    PassHead(s);
    VisitsNext(code, pc);
    DisciplinedSuffix(nv, code, pc);
    assert Pass(code)[q..][0] == Pass(code)[q] == code[pc];
    AgreeAfter(env, nv, s, d, d');
    CompareEffect(env, nv, code[pc], d);
    var e, e' := Exec(env, nv, code[pc], d), Exec(env, nv, code[pc], d');
    assert s[1..][0] == code[pc + 1] && s[2..] == code[pc + 2..] && s[1..][1..] == s[2..];
    SwallowEffect(env, nv, code[pc], code[pc + 1], s[2..], d);
    SwallowAgrees(nv, s, e.d.regs, e'.d.regs);
    RunTwo(env, nv, code, At(pc, d));
  }

  /** Register files that agree before a swallowed instruction agree on what is live after it. */
  lemma SwallowAgrees(nv: nat, s: seq<Instr>, a: Regs, b: Regs)
    requires |s| > 1 && SwallowsNext(s[0], s[1]) && MaySwallow(nv, s[0], s[1], s[2..]) && Disciplined(nv, s)
    requires Agree(nv, s[1..], a, b)
    ensures Agree(nv, s[2..], a, b)
  {
    hide Args, Dests, MaySwallow, Get;
    assert s[1..][0] == s[1] && s[1..][1..] == s[2..];
    forall r: nat | r <= nv || Live(s[2..], r)
      ensures Get(a, Idx(r)) == Get(b, Idx(r))
    {
      SwallowedLive(nv, s[0], s[1], s[2..], r);
      if r > nv && EndsSegment(s[1].op) {
        LastEndsSegment(nv, s, 2);
      }
    }
  }

  lemma FusedOperands(nv: nat, s: seq<Instr>, f: Instr, a: Regs, b: Regs)
    requires |s| > 1 && FiresWell(nv, s[0], s[1]) && Agree(nv, s, a, b)
    requires (FusesLoad(s[0], s[1]) && f == LoadAndJump(s[0], s[1])) || (FusesTest(s[0], s[1])
                                                                         && f == CompareAndJump(s[0], s[1]))
    ensures Get(a, f.r0) == Get(b, f.r0) && (FusesTest(s[0], s[1]) ==> Get(a, f.r1) == Get(b, f.r1))
  {
    if FusesTest(s[0], s[1]) {
      assert Args(s[0]) == [f.r0, f.r1];
      AgreeOnReads(nv, s, a, b, f.r0);
      AgreeOnReads(nv, s, a, b, f.r1);
    } else if f.r0.Idx? {
      assert s[1..][0] == s[1] && f.r0 in Args(s[1]) && Reads(s[1], f.r0.n);
      assert Live(s[1..], f.r0.n) && !Writes(s[0], f.r0.n);
      assert Live(s, f.r0.n);
    }
  }

  /** One step of the optimized code is one or more steps of the original. */
  lemma {:induction false} SimulateStep(env: Env, nv: nat, code: seq<Instr>, s: State, s': State) returns (n: nat)
    requires Sound(nv, code) && Match(nv, code, s, s')
    ensures n >= 1 && Match(nv, code, Run(env, nv, code, s, n), Step(env, nv, Pass(code), s'))
    decreases if s.At? then |code| - s.pc else 0
  {
    hide Args, Dests, Exec, TurnOf, Shaped, FiresWell, MaySwallow, Get, SafePass, Disciplined, Live, Pass;
    if s.Done? {
      n := 1;
      RunDone(env, nv, code, s, 1);
      return;
    }
    var pc, d := s.pc, s.d;
    VisitedSuffix(code, pc);
    if pc == |code| {
      n := 1;
      assert Run(env, nv, code, s, 1) == Run(env, nv, code, Step(env, nv, code, s), 0);
      return;
    }
    SafeSuffix(nv, code, pc);
    TurnKinds(nv, code[pc..]);
    if DropsMove(code[pc..], TurnAt(code[pc..])) {
      var next := Step(env, nv, code, s);
      VisitsNext(code, pc);
      DroppedMove(env, nv, code[pc..], d, s'.d);
      assert code[pc..][1..] == code[pc + 1..];
      var m := SimulateStep(env, nv, code, next, s');
      n := m + 1;
    } else if Keeps(code[pc..], TurnAt(code[pc..])) {
      n := 1;
      KeptStep(env, nv, code, pc, d, s'.pc, s'.d);
      assert Run(env, nv, code, s, 1) == Run(env, nv, code, Step(env, nv, code, s), 0);
    } else if Fuses(code[pc..], TurnAt(code[pc..])) {
      n := 2;
      FusedStep(env, nv, code, pc, d, s'.pc, s'.d);
    } else {
      n := 2;
      SwallowStep(env, nv, code, pc, d, s'.pc, s'.d);
    }
  }

  lemma DroppedMove(env: Env, nv: nat, s: seq<Instr>, d: Data, d': Data)
    requires s != [] && s[0].op == MOV && s[0].r0 == s[0].r1 && Agree(nv, s, d.regs, d'.regs)
    ensures var e := Exec(env, nv, s[0], d);
            e.Fall? && SameWorld(e.d, d) && Agree(nv, s[1..], e.d.regs, d'.regs)
  {
    var e := Exec(env, nv, s[0], d);
    forall r: nat | r <= nv || Live(s[1..], r)
      ensures Get(e.d.regs, Idx(r)) == Get(d'.regs, Idx(r))
    {
      MoveReadsWhatItWrites(s[0], r);
      assert Live(s, r) || r <= nv;
    }
  }

  lemma {:induction false} SimulateRun(env: Env, nv: nat, code: seq<Instr>, s: State, s': State, m: nat)
      returns (n: nat)
    requires Sound(nv, code) && Match(nv, code, s, s')
    ensures n >= m && Match(nv, code, Run(env, nv, code, s, n), Run(env, nv, Pass(code), s', m))
    decreases m
  {
    hide Args, Dests, Exec, TurnOf, ShapedInstr, FiresWell, MaySwallow, Get, SafePass;
    if m == 0 {
      n := 0;
    } else {
      var k := SimulateStep(env, nv, code, s, s');
      var l := SimulateRun(env, nv, code, Run(env, nv, code, s, k), Step(env, nv, Pass(code), s'), m - 1);
      RunSum(env, nv, code, s, k, l);
      n := k + l;
    }
  }

  // ----- the optimizer preserves runs -----

  function Seen(s: State): seq<Observation> { if s.At? then s.d.trace else s.trace }

  /** Some point of the run from s, not before step m, has observed exactly x. */
  ghost predicate Observes(env: Env, nv: nat, code: seq<Instr>, s: State, m: nat, x: seq<Observation>) {
    exists n: nat :: n >= m && Seen(Run(env, nv, code, s, n)) == x
  }

  /** Entered at label w with data d, the two lists halt in the same ways, and whatever the
      second has observed at some point, also of an endless run, the first observes too. */
  ghost predicate SameRuns(env: Env, nv: nat, code: seq<Instr>, code': seq<Instr>, w: Word, d: Data) {
    var s, s' := Resume(code, w, d), Resume(code', w, d);
    && (forall o, t :: Halts(env, nv, code, s, o, t) <==> Halts(env, nv, code', s', o, t))
    && (forall m: nat :: Observes(env, nv, code, s, m, Seen(Run(env, nv, code', s', m))))
  }

  /** One pass preserves every run, for every environment. */
  lemma PassPreservesRuns(env: Env, nv: nat, code: seq<Instr>, w: Word, d: Data)
    requires Sound(nv, code)
    ensures SameRuns(env, nv, code, Pass(code), w, d)
  {
    hide Pass, Exec, Shaped, SafePass, Disciplined;
    var s, s' := Resume(code, w, d), Resume(Pass(code), w, d);
    ResumeMatch(nv, code, w, d, d);
    forall m: nat
      ensures Observes(env, nv, code, s, m, Seen(Run(env, nv, Pass(code), s', m)))
    {
      var n := SimulateRun(env, nv, code, s, s', m);
    }
    forall o, t
      ensures Halts(env, nv, code, s, o, t) <==> Halts(env, nv, Pass(code), s', o, t)
    {
      if Halts(env, nv, Pass(code), s', o, t) {
        var m :| Run(env, nv, Pass(code), s', m) == Done(o, t);
        var n := SimulateRun(env, nv, code, s, s', m);
      }
      if Halts(env, nv, code, s, o, t) {
        var n :| Run(env, nv, code, s, n) == Done(o, t);
        var k := SimulateRun(env, nv, code, s, s', n);
        RunSettled(env, nv, code, s, n, k);
      }
    }
  }

  lemma SameRunsTransitive(env: Env, nv: nat, a: seq<Instr>, b: seq<Instr>, c: seq<Instr>, w: Word, d: Data)
    requires SameRuns(env, nv, a, b, w, d) && SameRuns(env, nv, b, c, w, d)
    ensures SameRuns(env, nv, a, c, w, d)
  {
    hide Run, Halts, Resume;
    var s, s', s'' := Resume(a, w, d), Resume(b, w, d), Resume(c, w, d);
    forall m: nat
      ensures Observes(env, nv, a, s, m, Seen(Run(env, nv, c, s'', m)))
    {
      assert Observes(env, nv, b, s', m, Seen(Run(env, nv, c, s'', m)));
      var k: nat :| k >= m && Seen(Run(env, nv, b, s', k)) == Seen(Run(env, nv, c, s'', m));
      assert Observes(env, nv, a, s, k, Seen(Run(env, nv, b, s', k)));
    }
    forall o, t
      ensures Halts(env, nv, a, s, o, t) <==> Halts(env, nv, c, s'', o, t)
    {
      assert Halts(env, nv, a, s, o, t) <==> Halts(env, nv, b, s', o, t);
    }
  }

  /** The whole optimizer preserves every run, for every environment: calls, pushes, field
      accesses and exceptions with their operand values, handlers, and the returned value. */
  lemma {:induction false} OptimizerPreservesRuns(env: Env, nv: nat, code: seq<Instr>, w: Word, d: Data)
    requires Readable(code) && Shaped(code) && SafeRun(nv, code) && Disciplined(nv, code)
    ensures SameRuns(env, nv, code, Optimized(code), w, d)
    decreases |code|
  {
    hide SameRuns;
    PassShape(code);
    PassPreservesRuns(env, nv, code, w, d);
    PassShrinksOrKeeps(code);
    if |Pass(code)| < |code| {
      PassKeepsDiscipline(nv, code);
      OptimizerPreservesRuns(env, nv, Pass(code), w, d);
      SameRunsTransitive(env, nv, code, Pass(code), Optimized(code), w, d);
    }
  }

  /** The liveness discipline also holds of the optimizer's result. */
  lemma {:induction false} OptimizerKeepsDiscipline(nv: nat, code: seq<Instr>)
    requires Readable(code) && Shaped(code) && SafeRun(nv, code) && Disciplined(nv, code)
    ensures Disciplined(nv, Optimized(code))
    decreases |code|
  {
    PassShape(code);
    PassKeepsDiscipline(nv, code);
    if |Pass(code)| < |code| {
      OptimizerKeepsDiscipline(nv, Pass(code));
    }
  }
}
