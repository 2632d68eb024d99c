/** The optimized code of a compiled function, alone and inside a whole program. */
module Pipeline {
  import opened Options
  import opened Bytecode
  import opened Machine
  import opened Source
  import opened Symbols
  import opened Codegen
  import opened Optimizer
  import opened OptimizerProof
  import opened RuleSafety
  import opened CodeDiscipline
  import opened CodeShape
  import opened FrameSize
  import opened FunctionProof

  // ----- code inside a larger program -----

  function Shift(s: State, k: nat): State { if s.At? then At(s.pc + k, s.d) else s }

  lemma FindInside(pre: seq<Instr>, c: seq<Instr>, post: seq<Instr>, w: Word)
    requires UniqueLabels(pre + c + post) && Find(c, w).Some?
    ensures Find(pre + c + post, w) == Some(|pre| + Find(c, w).value)
  {
    var whole, p := pre + c + post, Find(c, w).value;
    assert whole[|pre| + p] == c[p];
    FindUnique(whole, |pre| + p);
  }

  /** A step that does not get stuck alone is the same step inside the program. */
  lemma LiftStep(env: Env, nv: nat, pre: seq<Instr>, c: seq<Instr>, post: seq<Instr>, s: State)
    requires UniqueLabels(pre + c + post) && !IsStuck(Step(env, nv, c, s))
    ensures Step(env, nv, pre + c + post, Shift(s, |pre|)) == Shift(Step(env, nv, c, s), |pre|)
  {
    hide Exec, UniqueLabels;
    if s.At? {
      assert s.pc < |c|;
      assert (pre + c + post)[s.pc + |pre|] == c[s.pc];
      var e := Exec(env, nv, c[s.pc], s.d);
      match e
      case Goto(w, d) => FindInside(pre, c, post, w);
      case Raise(f, d) =>
        if d.catches != [] {
          FindInside(pre, c, post, d.catches[|d.catches| - 1]);
        }
      case _ =>
    }
  }

  lemma {:induction false} LiftRun(env: Env, nv: nat, pre: seq<Instr>, c: seq<Instr>, post: seq<Instr>, s: State,
                                   n: nat)
    requires UniqueLabels(pre + c + post) && !IsStuck(Run(env, nv, c, s, n))
    ensures Run(env, nv, pre + c + post, Shift(s, |pre|), n) == Shift(Run(env, nv, c, s, n), |pre|)
    decreases n
  {
    hide Step, UniqueLabels;
    if n > 0 {
      var s1 := Step(env, nv, c, s);
      if IsStuck(s1) {
        RunDone(env, nv, c, s1, n - 1);
      }
      LiftStep(env, nv, pre, c, post, s);
      LiftRun(env, nv, pre, c, post, s1, n - 1);
    }
  }

  /** Code that never gets stuck alone halts inside a program exactly as alone. */
  lemma LiftHalts(env: Env, nv: nat, pre: seq<Instr>, c: seq<Instr>, post: seq<Instr>, w: Word, d: Data, o: Outcome,
                  t: seq<Observation>)
    requires UniqueLabels(pre + c + post) && Find(c, w).Some?
    requires forall t' :: !Halts(env, nv, c, Resume(c, w, d), Stuck, t')
    ensures Halts(env, nv, pre + c + post, Resume(pre + c + post, w, d), o, t)
            <==> Halts(env, nv, c, Resume(c, w, d), o, t)
  {
    hide Run, UniqueLabels;
    var whole, s := pre + c + post, Resume(c, w, d);
    FindInside(pre, c, post, w);
    assert Resume(whole, w, d) == Shift(s, |pre|);
    forall n: nat
      ensures !IsStuck(Run(env, nv, c, s, n)) && Run(env, nv, whole, Shift(s, |pre|), n)
              == Shift(Run(env, nv, c, s, n), |pre|)
    {
      if IsStuck(Run(env, nv, c, s, n)) {
        assert Halts(env, nv, c, s, Stuck, Run(env, nv, c, s, n).trace);
      }
      LiftRun(env, nv, pre, c, post, s, n);
    }
    if Halts(env, nv, whole, Resume(whole, w, d), o, t) {
      var n :| Run(env, nv, whole, Shift(s, |pre|), n) == Done(o, t);
      assert Run(env, nv, c, s, n) == Done(o, t);
    }
    if Halts(env, nv, c, s, o, t) {
      var n :| Run(env, nv, c, s, n) == Done(o, t);
      assert Run(env, nv, whole, Shift(s, |pre|), n) == Done(o, t);
    }
  }

  // ----- labels survive optimization -----

  function LabelNames(s: seq<Instr>): set<Word> {
    if s == [] then {} else (if s[0].op == LABEL then {s[0].r0} else {}) + LabelNames(s[1..])
  }

  lemma {:induction false} LabelNamesAt(s: seq<Instr>, w: Word)
    ensures w in LabelNames(s) <==> exists k :: 0 <= k < |s| && s[k].op == LABEL && s[k].r0 == w
  {
    if s != [] {
      LabelNamesAt(s[1..], w);
      if w in LabelNames(s[1..]) {
        var k :| 0 <= k < |s[1..]| && s[1..][k].op == LABEL && s[1..][k].r0 == w;
        assert s[k + 1] == s[1..][k];
      }
      if k :| 0 <= k < |s| && s[k].op == LABEL && s[k].r0 == w {
        if k > 0 {
          assert s[1..][k - 1] == s[k];
        }
      }
    }
  }

  lemma UniqueCons(s: seq<Instr>)
    requires s != []
    ensures UniqueLabels(s) <==> UniqueLabels(s[1..]) && (s[0].op == LABEL ==> s[0].r0 !in LabelNames(s[1..]))
  {
    var rest := s[1..];
    LabelNamesAt(rest, s[0].r0);
    if UniqueLabels(s) {
      forall i, j | 0 <= i < j < |rest| && rest[i].op == LABEL && rest[j].op == LABEL
        ensures rest[i].r0 != rest[j].r0
      {
        assert s[i + 1].r0 != s[j + 1].r0;
      }
      forall k | 0 <= k < |rest| && rest[k].op == LABEL && s[0].op == LABEL
        ensures rest[k].r0 != s[0].r0
      {
        assert s[0].r0 != s[k + 1].r0;
      }
    }
    if UniqueLabels(rest) && (s[0].op == LABEL ==> s[0].r0 !in LabelNames(rest)) {
      forall i, j | 0 <= i < j < |s| && s[i].op == LABEL && s[j].op == LABEL
        ensures s[i].r0 != s[j].r0
      {
        if i > 0 {
          assert rest[i - 1].r0 != rest[j - 1].r0;
        } else {
          assert rest[j - 1] == s[j];
        }
      }
    }
  }

  lemma {:induction false} MarksDecide(s: seq<Instr>)
    ensures LabelNames(Marks(s)) == LabelNames(s) && (UniqueLabels(Marks(s)) <==> UniqueLabels(s))
  {
    hide UniqueLabels;
    if s != [] {
      MarksDecide(s[1..]);
      UniqueCons(s);
      if s[0].op == LABEL || s[0].op == FFRAME {
        assert Marks(s)[1..] == Marks(s[1..]);
        UniqueCons(Marks(s));
      } else {
        assert Marks(s) == Marks(s[1..]);
      }
    } else {
      assert Marks(s) == s;
    }
  }

  /** Optimization keeps every label defined, and defined once. */
  lemma OptimizedLabels(s: seq<Instr>)
    requires Readable(s) && Shaped(s)
    ensures LabelNames(Optimized(s)) == LabelNames(s) && (UniqueLabels(Optimized(s)) <==> UniqueLabels(s))
  {
    hide LabelNames, UniqueLabels, Marks;
    OptimizedKeepsMarks(s);
    MarksDecide(s);
    MarksDecide(Optimized(s));
  }

  // ----- compiled and optimized functions -----

  /** No rule of any pass may go wrong on the function's code: it can be checked by running the
      optimizer, and holds of every plain function. */
  ghost predicate Optimizable(f: Function, n: nat) {
    var c := FunctionCode(f, n).code;
    Readable(c) && Shaped(c) && SafeRun(|FunctionTables(f).symbols|, c)
  }

  lemma PlainIsOptimizable(f: Function, n: nat)
    requires Compilable(f) && AllPlain(f.body, None)
    ensures Optimizable(f, n)
  {
    hide FunctionCode, FunctionTables, Tidy;
    FunctionFits(f, n);
    PlainFunctionTidy(f, n);
    TidyRunsSafely(|FunctionTables(f).symbols|, FunctionCode(f, n).code);
  }

  /** The optimized code of a function halts exactly as the source does. */
  lemma OptimizedHaltsAsSource(env: Env, v: real, f: Function, n: nat, st: Store, d: Data, o: Outcome,
                               trace: seq<Observation>)
    requires Compilable(f) && LoadsFunctions(env, v) && Entered(f, st, d) && Optimizable(f, n)
    ensures f.name in st && AllInFragment(f.body, st[f.name := v].Keys, false)
    ensures var c, nv := Optimized(FunctionCode(f, n).code), |FunctionTables(f).symbols|;
            Halts(env, nv, c, Resume(c, Name(f.name), d), o, trace)
            <==> SourceHalts(f.body, st[f.name := v], o) && trace == BodyData(f, v, d).trace
  {
    hide FunctionCode, FunctionTables, Optimized, Halts, SafeRun, Disciplined;
    FunctionDisciplined(f, n);
    FunctionHaltsAsSource(env, v, f, n, st, d, o, trace);
    OptimizerPreservesRuns(env, |FunctionTables(f).symbols|, FunctionCode(f, n).code, Name(f.name), d);
  }

  /** ... and so does the same function inside an optimized program with unique labels. */
  lemma ProgramHaltsAsSource(env: Env, v: real, f: Function, n: nat, pre: seq<Instr>, post: seq<Instr>,
                             st: Store, d: Data, o: Outcome, trace: seq<Observation>)
    requires Compilable(f) && LoadsFunctions(env, v) && Entered(f, st, d) && Optimizable(f, n)
    requires Readable(pre) && Shaped(pre) && Readable(post) && Shaped(post)
    requires UniqueLabels(pre + FunctionCode(f, n).code + post)
    ensures var whole := pre + FunctionCode(f, n).code + post;
            Readable(whole) && Shaped(whole)
    ensures f.name in st && AllInFragment(f.body, st[f.name := v].Keys, false)
    ensures var whole, nv := Optimized(pre + FunctionCode(f, n).code + post), |FunctionTables(f).symbols|;
            Halts(env, nv, whole, Resume(whole, Name(f.name), d), o, trace)
            <==> SourceHalts(f.body, st[f.name := v], o) && trace == BodyData(f, v, d).trace
  {
    hide FunctionCode, FunctionTables, Optimized, Halts, SafeRun, UniqueLabels, Shaped, Readable, Resume, BodyData;
    var c, nv := FunctionCode(f, n).code, |FunctionTables(f).symbols|;
    FunctionFits(f, n);
    OptimizedConcat(pre, c);
    OptimizedConcat(pre + c, post);
    OptimizedLabels(pre + c + post);
    OptimizedHaltsAsSource(env, v, f, n, st, d, o, trace);
    forall t'
      ensures !Halts(env, nv, Optimized(c), Resume(Optimized(c), Name(f.name), d), Stuck, t')
    {
      OptimizedHaltsAsSource(env, v, f, n, st, d, Stuck, t');
      NeverStuck(f, v, st);
    }
    StartsAtName(f, n);
    LiftHalts(env, nv, Optimized(pre), Optimized(c), Optimized(post), Name(f.name), d, o, trace);
  }

  lemma NeverStuck(f: Function, v: real, st: Store)
    requires f.name in st && AllInFragment(f.body, st[f.name := v].Keys, false)
    ensures !SourceHalts(f.body, st[f.name := v], Stuck)
  {
  }

  lemma StartsAtName(f: Function, n: nat)
    requires Readable(FunctionCode(f, n).code) && Shaped(FunctionCode(f, n).code)
    ensures Find(Optimized(FunctionCode(f, n).code), Name(f.name)).Some?
  {
    hide FunctionTables, CompileBody, Optimized;
    var c := FunctionCode(f, n).code;
    assert c[0] == Label(f.name);
    OptimizedLabels(c);
    LabelNamesAt(c, Name(f.name));
    LabelNamesAt(Optimized(c), Name(f.name));
  }
}
